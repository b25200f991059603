/**
 * The concert programme reader (src/cvcutter/pdf_parser.py): the PDF and
 * the Gemini settings are checked, the answer's JSON block is extracted and
 * parsed, and the parsed programme is validated before it is returned.
 *
 * Whether the PDF exists, the saved settings file, the Gemini call and
 * `json.loads` are inputs. Python's `in` and `[]` on the parsed values are
 * written out, since the validation applies them to whatever `json.loads`
 * returned.
 */
module PdfParser {
  import opened Wrappers
  import opened JsonValue
  import Strings
  import GeminiUtils
  import AppConfig

  // ---------------------------------------------------------------------
  // parse_pdf_with_gemini

  const DefaultModel := "gemini-2.5-flash"

  /** The `workflow` section of the loaded settings, which always holds the default keys. */
  function WorkflowOf(saved: AppConfig.SavedFile): (w: map<string, Json>)
    ensures AppConfig.DefaultWorkflow.Keys <= w.Keys
  {
    AppConfig.LoadKeepsDefaultKeys(saved);
    assert "workflow" in AppConfig.DefaultConfig;
    AppConfig.LoadedConfig(saved)["workflow"].fields
  }

  /** `config['workflow'].get('gemini_api_key')`. */
  function ApiKey(saved: AppConfig.SavedFile): Json {
    Lookup(WorkflowOf(saved), "gemini_api_key")
  }

  /** `config['workflow'].get('gemini_model', 'gemini-2.5-flash')`. */
  function ModelName(saved: AppConfig.SavedFile): Json {
    Get(WorkflowOf(saved), "gemini_model", JStr(DefaultModel))
  }

  /**
   * `parse_pdf_with_gemini`: a missing PDF raises `FileNotFoundError`, a
   * key that is not truthy raises `ValueError`; otherwise the answer of the
   * call, made with the key and the model name, or the error it raises.
   *
   * `configure_gemini` repeats the key test the function has just made, so
   * it cannot raise here (KeyConfigures); the library's own configuration
   * is not modelled.
   */
  function ParsePdfWithGemini(pdfPath: string, pdfExists: bool, saved: AppConfig.SavedFile,
                              call: (Json, Json) -> Result<string, string>): Result<string, string>
  {
    if !pdfExists then Failure("FileNotFoundError: PDFファイルが見つかりません: " + pdfPath)
    else if !Truthy(ApiKey(saved)) then Failure("ValueError: Gemini APIキーが設定されていません。設定画面から入力してください。")
    else call(ApiKey(saved), ModelName(saved))
  }

  /** A string key that passes the test is accepted by `configure_gemini`. */
  lemma KeyConfigures(saved: AppConfig.SavedFile)
    requires Truthy(ApiKey(saved)) && ApiKey(saved).JStr?
    ensures GeminiUtils.ConfigureGemini(ApiKey(saved).s).Success?
  {
  }

  // ---------------------------------------------------------------------
  // extract_json_from_output

  /** `extract_json_from_output`: the same fences as `extract_json_from_text`, with its own error. */
  function ExtractJsonFromOutput(output: string, loads: string -> Option<Json>): Result<Json, string> {
    match loads(GeminiUtils.FencedText(output))
    case Some(data) => Success(data)
    case None => Failure("ValueError: Gemini CLIの出力がJSON形式ではありません")
  }

  /** It parses what the shared helper parses, and fails exactly where it fails. */
  lemma ExtractAgrees(output: string, loads: string -> Option<Json>)
    ensures ExtractJsonFromOutput(output, loads).Success? <==> GeminiUtils.ExtractJsonFromText(output, loads).Success?
    ensures ExtractJsonFromOutput(output, loads).Success? ==>
              ExtractJsonFromOutput(output, loads).value == GeminiUtils.ExtractJsonFromText(output, loads).value
  {
  }

  // ---------------------------------------------------------------------
  // validate_program_data

  const RequiredKeys: seq<string> := ["program_order", "performer_name", "piece_title"]

  /**
   * Python's `key in v`: a key of a dictionary, an element of a list, a
   * substring of a string; numbers, booleans and None raise `TypeError`.
   */
  function HasKey(v: Json, key: string): (r: Result<bool, string>)
    ensures r.Failure? <==> !(v.JObj? || v.JArr? || v.JStr?)
    ensures v.JObj? ==> r == Success(key in v.fields)
    ensures v.JArr? ==> r == Success(JStr(key) in v.items)
    ensures v.JStr? ==> r == Success(Strings.Contains(v.s, key))
  {
    match v
    case JObj(fields) => Success(key in fields)
    case JArr(items) => Success(JStr(key) in items)
    case JStr(s) => Success(Strings.Contains(s, key))
    case _ => Failure("TypeError")
  }

  /** Python's `v[key]` with a string key: only a dictionary holding the key has it. */
  function Item(v: Json, key: string): (r: Result<Json, string>)
    ensures r.Success? <==> v.JObj? && key in v.fields
    ensures r.Success? ==> r.value == v.fields[key]
  {
    if !v.JObj? then Failure("TypeError")
    else if key !in v.fields then Failure("KeyError")
    else Success(v.fields[key])
  }

  /** A field the validation warns about: absent, or present with a value that is not truthy. */
  predicate Missing(fields: map<string, Json>, key: string) {
    key !in fields || !Truthy(fields[key])
  }

  /** `key not in perf or not perf[key]`, or the error either test raises. */
  function KeyMissing(perf: Json, key: string): Result<bool, string> {
    match HasKey(perf, key)
    case Failure(e) => Failure(e)
    case Success(present) =>
      if !present then Success(true)
      else match Item(perf, key)
        case Failure(e) => Failure(e)
        case Success(value) => Success(!Truthy(value))
  }

  /** The inner loop for the `i`-th entry: the `(i, key)` warnings logged, in order, or the error raised. */
  function EntryWarnings(i: nat, perf: Json, keys: seq<string>): Result<seq<(nat, string)>, string>
    decreases |keys|
  {
    if keys == [] then Success([])
    else match KeyMissing(perf, keys[0])
      case Failure(e) => Failure(e)
      case Success(missing) =>
        match EntryWarnings(i, perf, keys[1..])
        case Failure(e) => Failure(e)
        case Success(rest) => Success((if missing then [(i, keys[0])] else []) + rest)
  }

  /** The outer loop over the first `n` entries, numbered from 1: the warnings, or the first error. */
  function Warnings(perfs: seq<Json>, n: nat, keys: seq<string>): Result<seq<(nat, string)>, string>
    requires n <= |perfs|
  {
    if n == 0 then Success([])
    else match Warnings(perfs, n - 1, keys)
      case Failure(e) => Failure(e)
      case Success(w) =>
        match EntryWarnings(n, perfs[n - 1], keys)
        case Failure(e) => Failure(e)
        case Success(w') => Success(w + w')
  }

  /**
   * `validate_program_data`: False when `performances` is absent, not a
   * list, or empty; True for any non-empty list, whatever its entries
   * miss; and the `TypeError` Python raises on the way for values that are
   * not dictionaries.
   */
  function ValidateProgramData(data: Json): Result<bool, string> {
    match HasKey(data, "performances")
    case Failure(e) => Failure(e)
    case Success(present) =>
      if !present then Success(false)
      else match Item(data, "performances")
        case Failure(e) => Failure(e)
        case Success(p) =>
          if !p.JArr? || |p.items| == 0 then Success(false)
          else match Warnings(p.items, |p.items|, RequiredKeys)
            case Failure(e) => Failure(e)
            case Success(_) => Success(true)
  }

  /** When an entry makes the tests raise: a list or string holding a required key, or a value with no `in`. */
  predicate EntryRaises(perf: Json, keys: seq<string>) {
    match perf
    case JObj(_) => false
    case JArr(items) => exists k :: k in keys && JStr(k) in items
    case JStr(s) => exists k :: k in keys && Strings.Contains(s, k)
    case _ => keys != []
  }

  /** The inner loop raises exactly for such an entry, and the error is a `TypeError`. */
  lemma {:induction false} EntryWarningsFail(i: nat, perf: Json, keys: seq<string>)
    ensures EntryWarnings(i, perf, keys).Failure? <==> EntryRaises(perf, keys)
    ensures EntryWarnings(i, perf, keys).Failure? ==> EntryWarnings(i, perf, keys).error == "TypeError"
    decreases |keys|
  {
    if keys != [] {
      EntryWarningsFail(i, perf, keys[1..]);
      assert keys == [keys[0]] + keys[1..];
      forall k ensures k in keys <==> k == keys[0] || k in keys[1..] {
      }
    }
  }

  /** On a dictionary it warns exactly for the missing keys, each under the entry's number. */
  lemma {:induction false} EntryWarningsOfDict(i: nat, fields: map<string, Json>, keys: seq<string>)
    ensures EntryWarnings(i, JObj(fields), keys).Success?
    ensures forall j, k :: (j, k) in EntryWarnings(i, JObj(fields), keys).value <==> j == i && k in keys && Missing(fields, k)
    decreases |keys|
  {
    if keys != [] {
      EntryWarningsOfDict(i, fields, keys[1..]);
      assert keys == [keys[0]] + keys[1..];
    }
  }

  /** The outer loop raises exactly when one of its entries does. */
  lemma {:induction false} WarningsFail(perfs: seq<Json>, n: nat, keys: seq<string>)
    requires n <= |perfs|
    ensures Warnings(perfs, n, keys).Failure? <==> exists j :: 0 <= j < n && EntryRaises(perfs[j], keys)
    ensures Warnings(perfs, n, keys).Failure? ==> Warnings(perfs, n, keys).error == "TypeError"
  {
    if n > 0 {
      WarningsFail(perfs, n - 1, keys);
      EntryWarningsFail(n, perfs[n - 1], keys);
    }
  }

  /**
   * Over dictionaries only, nothing raises, and the warnings are exactly the
   * `(number, key)` pairs of the required fields each entry misses.
   */
  lemma {:induction false} WarningsOfDicts(perfs: seq<Json>, n: nat, keys: seq<string>)
    requires n <= |perfs| && forall j :: 0 <= j < n ==> perfs[j].JObj?
    ensures Warnings(perfs, n, keys).Success?
    ensures forall j, k :: (j, k) in Warnings(perfs, n, keys).value <==>
              1 <= j <= n && k in keys && Missing(perfs[j - 1].fields, k)
  {
    if n > 0 {
      WarningsOfDicts(perfs, n - 1, keys);
      EntryWarningsOfDict(n, perfs[n - 1].fields, keys);
      var w := Warnings(perfs, n - 1, keys).value;
      var w' := EntryWarnings(n, perfs[n - 1], keys).value;
      assert Warnings(perfs, n, keys).value == w + w';
      forall j, k ensures (j, k) in w + w' <==> 1 <= j <= n && k in keys && Missing(perfs[j - 1].fields, k) {
        assert (j, k) in w + w' <==> (j, k) in w || (j, k) in w';
      }
    }
  }

  /** The data holds a non-empty `performances` list. */
  predicate HasPerformances(data: Json) {
    data.JObj? && "performances" in data.fields && data.fields["performances"].JArr? && |data.fields["performances"].items| > 0
  }

  /**
   * The validation holds exactly for a dictionary with a non-empty
   * `performances` list none of whose entries makes the field tests raise;
   * on a dictionary it is False exactly without such a list; and it raises
   * only `TypeError`.
   */
  lemma ValidateProgramDataSpec(data: Json)
    ensures ValidateProgramData(data) == Success(true) <==>
              HasPerformances(data) &&
              forall j :: 0 <= j < |data.fields["performances"].items| ==> !EntryRaises(data.fields["performances"].items[j], RequiredKeys)
    ensures data.JObj? ==> (ValidateProgramData(data) == Success(false) <==> !HasPerformances(data))
    ensures ValidateProgramData(data).Failure? ==> ValidateProgramData(data).error == "TypeError"
  {
    if data.JObj? && "performances" in data.fields && data.fields["performances"].JArr? {
      var items := data.fields["performances"].items;
      WarningsFail(items, |items|, RequiredKeys);
    }
  }

  /** A non-empty list of dictionaries passes, whatever fields they miss. */
  lemma MissingFieldsOnlyWarn(data: Json)
    requires HasPerformances(data)
    requires forall j :: 0 <= j < |data.fields["performances"].items| ==> data.fields["performances"].items[j].JObj?
    ensures ValidateProgramData(data) == Success(true)
  {
    var items := data.fields["performances"].items;
    WarningsOfDicts(items, |items|, RequiredKeys);
  }

  // ---------------------------------------------------------------------
  // parse_concert_pdf

  /** Every entry of the list is a dictionary, as the `perf.get` calls of the summary log need. */
  predicate AllDicts(items: seq<Json>) {
    forall j :: 0 <= j < |items| ==> items[j].JObj?
  }

  /**
   * `parse_concert_pdf`: the answer, its JSON, the validation gate
   * (`ValueError` when it is False), then the summary log, whose
   * `perf.get` raises `AttributeError` on an entry that is not a
   * dictionary. Writing `output_json` is not modelled.
   */
  function ParseConcertPdf(pdfPath: string, pdfExists: bool, saved: AppConfig.SavedFile,
                           call: (Json, Json) -> Result<string, string>, loads: string -> Option<Json>): Result<Json, string>
  {
    match ParsePdfWithGemini(pdfPath, pdfExists, saved, call)
    case Failure(e) => Failure(e)
    case Success(output) =>
      match ExtractJsonFromOutput(output, loads)
      case Failure(e) => Failure(e)
      case Success(data) =>
        match ValidateProgramData(data)
        case Failure(e) => Failure(e)
        case Success(valid) =>
          ValidateProgramDataSpec(data);
          if !valid then Failure("ValueError: 抽出されたプログラムデータが無効です")
          else if !AllDicts(data.fields["performances"].items) then Failure("AttributeError")
          else Success(data)
  }

  /** A missing PDF is reported before anything else is tried. */
  lemma MissingPdfFirst(pdfPath: string, saved: AppConfig.SavedFile,
                        call: (Json, Json) -> Result<string, string>, loads: string -> Option<Json>)
    ensures ParseConcertPdf(pdfPath, false, saved, call, loads) == Failure("FileNotFoundError: PDFファイルが見つかりません: " + pdfPath)
  {
  }

  /**
   * A programme is returned only when the PDF exists, the key is truthy,
   * the call answered, and the answer's JSON block parses to a dictionary
   * with a non-empty `performances` list of dictionaries; the programme is
   * that parsed value.
   */
  lemma ParsedProgramSpec(pdfPath: string, pdfExists: bool, saved: AppConfig.SavedFile,
                          call: (Json, Json) -> Result<string, string>, loads: string -> Option<Json>)
    ensures var r := ParseConcertPdf(pdfPath, pdfExists, saved, call, loads);
      r.Success? ==>
        && pdfExists && Truthy(ApiKey(saved))
        && call(ApiKey(saved), ModelName(saved)).Success?
        && loads(GeminiUtils.FencedText(call(ApiKey(saved), ModelName(saved)).value)) == Some(r.value)
        && HasPerformances(r.value) && AllDicts(r.value.fields["performances"].items)
  {
    var r := ParseConcertPdf(pdfPath, pdfExists, saved, call, loads);
    if r.Success? {
      var output := ParsePdfWithGemini(pdfPath, pdfExists, saved, call).value;
      ValidateProgramDataSpec(ExtractJsonFromOutput(output, loads).value);
    }
  }

  /** Conversely, such an answer is returned as it was parsed, whatever fields its entries miss. */
  lemma ProgramReturned(pdfPath: string, saved: AppConfig.SavedFile,
                        call: (Json, Json) -> Result<string, string>, loads: string -> Option<Json>, output: string, data: Json)
    requires Truthy(ApiKey(saved)) && call(ApiKey(saved), ModelName(saved)) == Success(output)
    requires loads(GeminiUtils.FencedText(output)) == Some(data)
    requires HasPerformances(data) && AllDicts(data.fields["performances"].items)
    ensures ParseConcertPdf(pdfPath, true, saved, call, loads) == Success(data)
  {
    MissingFieldsOnlyWarn(data);
  }

  /** A parsed dictionary without a non-empty `performances` list is rejected by the gate. */
  lemma InvalidProgramRejected(pdfPath: string, saved: AppConfig.SavedFile,
                               call: (Json, Json) -> Result<string, string>, loads: string -> Option<Json>, output: string, data: Json)
    requires Truthy(ApiKey(saved)) && call(ApiKey(saved), ModelName(saved)) == Success(output)
    requires loads(GeminiUtils.FencedText(output)) == Some(data)
    requires data.JObj? && !HasPerformances(data)
    ensures ParseConcertPdf(pdfPath, true, saved, call, loads) == Failure("ValueError: 抽出されたプログラムデータが無効です")
  {
    ValidateProgramDataSpec(data);
  }

  /** Without a truthy key, `ValueError` follows the PDF check and the call is never made. */
  lemma MissingKeyRejected(pdfPath: string, saved: AppConfig.SavedFile,
                           call: (Json, Json) -> Result<string, string>, loads: string -> Option<Json>)
    requires !Truthy(ApiKey(saved))
    ensures ParseConcertPdf(pdfPath, true, saved, call, loads) ==
              Failure("ValueError: Gemini APIキーが設定されていません。設定画面から入力してください。")
  {
  }
}
