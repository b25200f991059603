/**
 * `google_form_connector`: the form answers, read either from the rows of
 * an exported CSV file or Google Sheet (a header row, then one row per
 * answer), or from the Forms API (a question list and the raw answers).
 *
 * Either way an answer becomes a `FormResponse`, with the free-text
 * privacy and display-name answers normalised. The file system, OAuth and
 * the API calls are not modelled: the rows, the form's items and the raw
 * answers are inputs.
 */
module FormConnector {
  import opened Wrappers
  import opened JsonValue
  import Strings
  import Lists
  import VideoMapper

  // ---------------------------------------------------------------------
  // The parsed answer

  /** One answer: the dictionary this module hands to the mapper, with its keys as fields. */
  datatype FormResponse = FormResponse(
    responseId: nat,
    timestamp: string,
    name: string,
    displayName: bool,
    pieceTitle: string,
    privacy: string,
    descriptionExtra: string)
  {
    /** The answer as the dictionary the mapper reads. */
    function Fields(): map<string, Json> {
      map["response_id" := JNum(responseId as real), "timestamp" := JStr(timestamp), "name" := JStr(name),
          "display_name" := JBool(displayName), "piece_title" := JStr(pieceTitle), "privacy" := JStr(privacy),
          "description_extra" := JStr(descriptionExtra)]
    }
  }

  // ---------------------------------------------------------------------
  // _parse_privacy_value and _parse_display_name_value

  predicate PrivacyLevel(r: string) {
    r == "public" || r == "unlisted" || r == "private"
  }

  /** "Limited": 限定 in the answer, or "unlisted" in its lower case. */
  predicate SaysLimited(value: string) {
    Strings.Contains(value, "限定") || Strings.Contains(Strings.Lower(value), "unlisted")
  }

  /** (From google_form_connector.py as written.) `公開` is checked before `非公開`. */
  function PrivacyValueAsWritten(value: string): (r: string)
    ensures PrivacyLevel(r)
  {
    var lower := Strings.Lower(value);
    if Strings.Contains(value, "公開") || Strings.Contains(lower, "public") then
      (if SaysLimited(value) then "unlisted" else "public")
    else if SaysLimited(value) then "unlisted"
    else if Strings.Contains(value, "非公開") || Strings.Contains(lower, "private") then "private"
    else "unlisted"
  }

  /** Every answer containing 非公開 contains 公開. */
  lemma PrivateWordContainsPublicWord(value: string)
    requires Strings.Contains(value, "非公開")
    ensures Strings.Contains(value, "公開")
  {
    Strings.ContainsPiece("非", "公開", "");
    assert "非" + "公開" + "" == "非公開";
    Strings.ContainsTrans(value, "非公開", "公開");
  }

  /**
   * As written, an answer saying 非公開 (private) without 限定 or
   * "unlisted" is read as public, and the 非公開 test can never be what
   * makes the result "private".
   */
  lemma PrivateWordBecomesPublic(value: string)
    ensures Strings.Contains(value, "非公開") && !SaysLimited(value) ==> PrivacyValueAsWritten(value) == "public"
    ensures PrivacyValueAsWritten(value) == "private" ==> !Strings.Contains(value, "非公開")
  {
    if Strings.Contains(value, "非公開") {
      PrivateWordContainsPublicWord(value);
    }
  }

  /** The choice the legacy form offers, "非公開（本人のみ閲覧可能）", becomes a public video as written. */
  lemma LegacyPrivateChoiceAsWritten()
    ensures PrivacyValueAsWritten("非公開（本人のみ閲覧可能）") == "public"
  {
    LegacyChoiceSaysPrivate();
    LegacyChoiceNotLimited();
    PrivateWordBecomesPublic("非公開（本人のみ閲覧可能）");
  }

  lemma LegacyChoiceSaysPrivate()
    ensures Strings.Contains("非公開（本人のみ閲覧可能）", "非公開")
  {
    Strings.ContainsPrefix("非公開（本人のみ閲覧可能）", "非公開");
  }

  lemma LegacyChoiceNotLimited()
    ensures !SaysLimited("非公開（本人のみ閲覧可能）")
  {
    var legacy := "非公開（本人のみ閲覧可能）";
    Strings.MissingChar(legacy, "限定", 0);
    Strings.LowerUnchanged(legacy);
    Strings.MissingChar(legacy, "unlisted", 0);
  }

  /** (From google_form_connector.py, corrected.) 非公開 is checked first, so it means private. */
  function PrivacyValue(value: string): (r: string)
    ensures PrivacyLevel(r)
  {
    if Strings.Contains(value, "非公開") then "private" else PrivacyValueAsWritten(value)
  }

  /**
   * The corrected reading: 非公開 gives "private"; otherwise it agrees with
   * the written code, so 限定 or "unlisted" gives "unlisted", 公開 or
   * "public" alone gives "public", and anything unrecognised "unlisted".
   */
  lemma PrivacyValueSpec(value: string)
    ensures Strings.Contains(value, "非公開") ==> PrivacyValue(value) == "private"
    ensures !Strings.Contains(value, "非公開") ==> PrivacyValue(value) == PrivacyValueAsWritten(value)
    ensures !Strings.Contains(value, "非公開") && SaysLimited(value) ==> PrivacyValue(value) == "unlisted"
    ensures !Strings.Contains(value, "非公開") && !SaysLimited(value) && Strings.Contains(value, "公開") ==>
              PrivacyValue(value) == "public"
  {
  }

  predicate SaysYes(value: string) {
    Strings.Contains(value, "表示する") || Strings.Contains(Strings.Lower(value), "yes") || Strings.Contains(value, "はい")
  }

  predicate SaysNo(value: string) {
    || Strings.Contains(value, "表示しない") || Strings.Contains(Strings.Lower(value), "no")
    || Strings.Contains(value, "いいえ") || Strings.Contains(value, "匿名")
  }

  function DisplayNameValue(value: string): bool {
    var lower := Strings.Lower(value);
    if Strings.Contains(value, "表示する") || Strings.Contains(lower, "yes") || Strings.Contains(value, "はい") then true
    else if Strings.Contains(value, "表示しない") || Strings.Contains(lower, "no") || Strings.Contains(value, "いいえ") || Strings.Contains(value, "匿名") then false
    else true
  }

  /** The name is hidden exactly when the answer has a no-word and no yes-word; unknown answers show it. */
  lemma DisplayNameSpec(value: string)
    ensures !DisplayNameValue(value) <==> !SaysYes(value) && SaysNo(value)
    ensures !SaysYes(value) && !SaysNo(value) ==> DisplayNameValue(value)
  {
  }

  /** The display choices the form offers read as intended: "表示する" shows the name. */
  lemma ShownChoiceRead()
    ensures DisplayNameValue("表示する")
  {
    Strings.ContainsPrefix("表示する", "表示する");
  }

  /** "表示しない（匿名）" hides it. */
  lemma HiddenChoiceRead()
    ensures !DisplayNameValue("表示しない（匿名）")
  {
    HiddenChoiceSaysNo();
    HiddenChoiceNotYes();
    DisplayNameSpec("表示しない（匿名）");
  }

  lemma HiddenChoiceSaysNo()
    ensures SaysNo("表示しない（匿名）")
  {
    Strings.ContainsPrefix("表示しない（匿名）", "表示しない");
  }

  lemma HiddenChoiceNotYes()
    ensures !SaysYes("表示しない（匿名）")
  {
    var hidden := "表示しない（匿名）";
    Strings.MissingChar(hidden, "表示する", 2);
    HiddenChoiceLacksAscii();
    Strings.MissingChar(hidden, "はい", 0);
  }

  lemma HiddenChoiceLacksAscii()
    ensures !Strings.Contains(Strings.Lower("表示しない（匿名）"), "yes")
    ensures !Strings.Contains(Strings.Lower("表示しない（匿名）"), "no")
  {
    var hidden := "表示しない（匿名）";
    Strings.LowerUnchanged(hidden);
    Strings.MissingChar(hidden, "yes", 0);
    Strings.MissingChar(hidden, "no", 0);
  }

  /** The public choice reads as public, both as written and corrected. */
  lemma PublicChoiceRead()
    ensures PrivacyValueAsWritten("公開") == "public"
    ensures PrivacyValue("公開") == "public"
  {
    PublicChoiceNotPrivate();
    PublicChoiceNotLimited();
    Strings.ContainsPrefix("公開", "公開");
    PrivacyValueSpec("公開");
  }

  lemma PublicChoiceNotPrivate()
    ensures !Strings.Contains("公開", "非公開")
  {
    Strings.MissingChar("公開", "非公開", 0);
  }

  lemma PublicChoiceNotLimited()
    ensures !SaysLimited("公開")
  {
    Strings.MissingChar("公開", "限定", 0);
    Strings.LowerUnchanged("公開");
    Strings.MissingChar("公開", "unlisted", 0);
  }

  /** The limited choice reads as unlisted, both as written and corrected. */
  lemma LimitedChoiceRead()
    ensures PrivacyValueAsWritten("限定公開（URLを知っている人のみ閲覧可能）") == "unlisted"
    ensures PrivacyValue("限定公開（URLを知っている人のみ閲覧可能）") == "unlisted"
  {
    LimitedChoiceSaysLimited();
    LimitedChoiceNotPrivate();
    PrivacyValueSpec("限定公開（URLを知っている人のみ閲覧可能）");
  }

  lemma LimitedChoiceSaysLimited()
    ensures SaysLimited("限定公開（URLを知っている人のみ閲覧可能）")
  {
    Strings.ContainsPrefix("限定公開（URLを知っている人のみ閲覧可能）", "限定");
  }

  lemma LimitedChoiceNotPrivate()
    ensures !Strings.Contains("限定公開（URLを知っている人のみ閲覧可能）", "非公開")
  {
    Strings.MissingChar("限定公開（URLを知っている人のみ閲覧可能）", "非公開", 0);
  }

  /** With the correction, the legacy private choice reads as private. */
  lemma PrivateChoiceRead()
    ensures PrivacyValue("非公開（本人のみ閲覧可能）") == "private"
  {
    LegacyChoiceSaysPrivate();
    PrivacyValueSpec("非公開（本人のみ閲覧可能）");
  }

  // ---------------------------------------------------------------------
  // _find_column_index

  /** `COLUMN_MAPPING.get(key, [])`. */
  function PossibleNames(key: string): seq<string> {
    if key == "timestamp" then ["タイムスタンプ", "Timestamp", "timestamp"]
    else if key == "name" then ["お名前", "名前", "Name", "name"]
    else if key == "display_name" then ["動画に氏名を表示しますか", "氏名表示", "Display name"]
    else if key == "piece_title" then ["演奏された曲名", "曲名", "Piece title", "piece_title"]
    else if key == "privacy" then ["公開設定", "Privacy", "privacy"]
    else if key == "description_extra" then ["説明文に追加したい内容", "追加の説明", "Additional description"]
    else []
  }

  /** The keys of `COLUMN_MAPPING`, in order. */
  const ColumnKeys: seq<string> := ["timestamp", "name", "display_name", "piece_title", "privacy", "description_extra"]

  /** A header contains the candidate name, ignoring case. */
  predicate Mentions(header: string, names: seq<string>, k: nat)
    requires k < |names|
  {
    Strings.Contains(Strings.Lower(header), Strings.Lower(names[k]))
  }

  /** The header is one of the names, or contains one of them ignoring case. */
  predicate HeaderMatches(header: string, names: seq<string>) {
    header in names || exists k :: 0 <= k < |names| && Mentions(header, names, k)
  }

  /** The exact test is subsumed by the case-insensitive one. */
  lemma ExactMatchIsSubsumed(header: string, names: seq<string>)
    ensures HeaderMatches(header, names) <==> exists k :: 0 <= k < |names| && Mentions(header, names, k)
  {
    if header in names {
      var k :| 0 <= k < |names| && names[k] == header;
      Strings.ContainsPiece([], Strings.Lower(header), []);
      assert [] + Strings.Lower(header) + [] == Strings.Lower(header);
      assert Mentions(header, names, k);
    }
  }

  /** The first header at or after `i` that matches. */
  function ColumnIndexFrom(headers: seq<string>, names: seq<string>, i: nat): (r: Option<nat>)
    requires i <= |headers|
    ensures r.Some? ==> i <= r.value < |headers| && HeaderMatches(headers[r.value], names)
    ensures r.Some? ==> forall j :: i <= j < r.value ==> !HeaderMatches(headers[j], names)
    ensures r.None? ==> forall j :: i <= j < |headers| ==> !HeaderMatches(headers[j], names)
    decreases |headers| - i
  {
    if i == |headers| then None
    else if HeaderMatches(headers[i], names) then Some(i)
    else ColumnIndexFrom(headers, names, i + 1)
  }

  function ColumnIndex(headers: seq<string>, key: string): Option<nat> {
    ColumnIndexFrom(headers, PossibleNames(key), 0)
  }

  function ColumnIndexOf(headers: seq<string>): string -> Option<nat> {
    (key: string) => ColumnIndex(headers, key)
  }

  /** `col_indices`. */
  function ColumnIndices(headers: seq<string>): map<string, Option<nat>> {
    map key | key in ColumnKeys :: ColumnIndex(headers, key)
  }

  /** `row[idx] if idx is not None and idx < len(row) else ""`. */
  function Cell(row: seq<string>, cols: map<string, Option<nat>>, key: string): string {
    if key in cols && cols[key].Some? && cols[key].value < |row| then row[cols[key].value] else ""
  }

  /** One data row (`i` counts from 0): skipped when the stripped name or piece is empty. */
  function ParseRow(cols: map<string, Option<nat>>, i: nat, row: seq<string>): Option<FormResponse> {
    var name := Strings.Strip(Cell(row, cols, "name"));
    var piece := Strings.Strip(Cell(row, cols, "piece_title"));
    if name == [] || piece == [] then None
    else Some(FormResponse(i + 1, Cell(row, cols, "timestamp"), name, DisplayNameValue(Cell(row, cols, "display_name")),
                           piece, PrivacyValueAsWritten(Cell(row, cols, "privacy")), Strings.Strip(Cell(row, cols, "description_extra"))))
  }

  function RowParser(cols: map<string, Option<nat>>): (nat, seq<string>) -> Option<FormResponse> {
    (i: nat, row: seq<string>) => ParseRow(cols, i, row)
  }

  /** What `_parse_rows` returns, or the `ValueError` it raises. */
  function ParsedRows(rows: seq<seq<string>>): Result<seq<FormResponse>, string> {
    if |rows| < 2 then Failure("ValueError: no data rows")
    else Success(Lists.Gather(RowParser(ColumnIndices(rows[0])), rows[1..], |rows| - 1))
  }

  /**
   * A row is skipped exactly when its stripped name or its stripped piece
   * is empty. A kept row is numbered from 1 by its place among the data
   * rows; its name, piece and extra text are the stripped cells of their
   * columns, so they carry no surrounding whitespace and the name and piece
   * are non-empty; the timestamp is its cell as it stands; the display flag
   * and the privacy are the cells as the two readers (privacy as written)
   * read them, so the privacy is one of the three levels.
   */
  lemma ParseRowSpec(cols: map<string, Option<nat>>, i: nat, row: seq<string>)
    ensures ParseRow(cols, i, row).None? <==>
              Strings.Strip(Cell(row, cols, "name")) == [] || Strings.Strip(Cell(row, cols, "piece_title")) == []
    ensures ParseRow(cols, i, row).Some? ==>
              var r := ParseRow(cols, i, row).value;
              && r.responseId == i + 1
              && r.timestamp == Cell(row, cols, "timestamp")
              && r.name == Strings.Strip(Cell(row, cols, "name"))
              && r.pieceTitle == Strings.Strip(Cell(row, cols, "piece_title"))
              && r.descriptionExtra == Strings.Strip(Cell(row, cols, "description_extra"))
              && r.displayName == DisplayNameValue(Cell(row, cols, "display_name"))
              && r.privacy == PrivacyValueAsWritten(Cell(row, cols, "privacy"))
              && r.name != [] && Strings.Strip(r.name) == r.name
              && r.pieceTitle != [] && Strings.Strip(r.pieceTitle) == r.pieceTitle
              && Strings.Strip(r.descriptionExtra) == r.descriptionExtra
              && PrivacyLevel(r.privacy)
  {
    Strings.StripIdempotent(Cell(row, cols, "name"));
    Strings.StripIdempotent(Cell(row, cols, "piece_title"));
    Strings.StripIdempotent(Cell(row, cols, "description_extra"));
  }

  /** A kept row is numbered by its place among the data rows, from 1. */
  lemma ParseRowNumbered(cols: map<string, Option<nat>>, i: nat, row: seq<string>)
    ensures ParseRow(cols, i, row).Some? ==> ParseRow(cols, i, row).value.responseId == i + 1
  {
  }

  /**
   * Fewer than two rows raise. Otherwise answer `j` is what data row
   * `idx[j]` (counting from 0) parses to; the rows used strictly increase,
   * so the `response_id`s do; and a data row gives an answer iff it parses.
   */
  lemma ParsedRowsSpec(rows: seq<seq<string>>) returns (idx: seq<nat>)
    ensures ParsedRows(rows).Failure? <==> |rows| < 2
    ensures ParsedRows(rows).Success? ==>
      var rs := ParsedRows(rows).value;
      var cols := ColumnIndices(rows[0]);
      && |idx| == |rs| <= |rows| - 1
      && (forall j :: 0 <= j < |rs| ==>
            idx[j] < |rows| - 1 && ParseRow(cols, idx[j], rows[1 + idx[j]]) == Some(rs[j]) && rs[j].responseId == idx[j] + 1)
      && (forall j, j' :: 0 <= j < j' < |rs| ==> rs[j].responseId < rs[j'].responseId)
      && (forall i :: 0 <= i < |rows| - 1 ==> (i in idx <==> ParseRow(cols, i, rows[1 + i]).Some?))
  {
    if |rows| < 2 {
      idx := [];
    } else {
      idx := GatheredRows(ColumnIndices(rows[0]), rows);
    }
  }

  /** `ParsedRowsSpec` for any column positions. */
  lemma GatheredRows(cols: map<string, Option<nat>>, rows: seq<seq<string>>) returns (idx: seq<nat>)
    requires |rows| >= 1
    ensures var rs := Lists.Gather(RowParser(cols), rows[1..], |rows| - 1);
      && |idx| == |rs| <= |rows| - 1
      && (forall j :: 0 <= j < |rs| ==>
            idx[j] < |rows| - 1 && ParseRow(cols, idx[j], rows[1 + idx[j]]) == Some(rs[j]) && rs[j].responseId == idx[j] + 1)
      && (forall j, j' :: 0 <= j < j' < |rs| ==> rs[j].responseId < rs[j'].responseId)
      && (forall i :: 0 <= i < |rows| - 1 ==> (i in idx <==> ParseRow(cols, i, rows[1 + i]).Some?))
  {
    var f := RowParser(cols);
    var data := rows[1..];
    var rs := Lists.Gather(f, data, |data|);
    idx := Lists.GatherOrigin(f, data, |data|);
    forall j | 0 <= j < |rs|
      ensures ParseRow(cols, idx[j], rows[1 + idx[j]]) == Some(rs[j]) && rs[j].responseId == idx[j] + 1
    {
      assert f(idx[j], data[idx[j]]) == Some(rs[j]);
      assert data[idx[j]] == rows[1 + idx[j]];
      ParseRowNumbered(cols, idx[j], data[idx[j]]);
    }
    forall i | 0 <= i < |data| ensures (i in idx <==> ParseRow(cols, i, rows[1 + i]).Some?) {
      assert f(i, data[i]) == ParseRow(cols, i, data[i]);
      assert data[i] == rows[1 + i];
    }
  }

  // ---------------------------------------------------------------------
  // The Forms API

  /**
   * An item of the form: its title (`""` when absent) and, when it has a
   * `questionItem.question`, the `questionId` of that question.
   */
  datatype FormItem = FormItem(title: string, question: Option<Option<string>>)

  /** Whether a title names a category: the Japanese word, or the English one in lower case. */
  predicate Names(title: string, jp: string, en: string) {
    Strings.Contains(title, jp) || Strings.Contains(Strings.Lower(title), en)
  }

  /** The category an item's title falls in, the first match in `elif` order. */
  function Category(title: string): Option<string> {
    if Names(title, "お名前", "name") then Some("name")
    else if Names(title, "氏名を表示", "display") then Some("display_name")
    else if Names(title, "曲名", "piece") then Some("piece_title")
    else if Names(title, "公開設定", "privacy") then Some("privacy")
    else if Names(title, "説明文", "description") then Some("description_extra")
    else None
  }

  /** What the item writes into the mapping: its category and its question id, when it has both. */
  function Entry(item: FormItem): Option<(string, Option<string>)> {
    if item.question.Some? && Category(item.title).Some? then Some((Category(item.title).value, item.question.value)) else None
  }

  function QuestionEntry(): FormItem -> Option<(string, Option<string>)> {
    (item: FormItem) => Entry(item)
  }

  /** `_build_question_mapping`: the category of each question, mapped to its id. */
  function QuestionMapping(items: seq<FormItem>): map<string, Option<string>> {
    Lists.Assign(QuestionEntry(), items, |items|)
  }

  /** The item is a question whose title falls in the category `key`. */
  predicate Assigns(item: FormItem, key: string) {
    item.question.Some? && Category(item.title) == Some(key)
  }

  /**
   * A category is mapped iff some question falls in it, and then to the
   * id of the last such question (a later item overwrites an earlier one).
   */
  lemma QuestionMappingLast(items: seq<FormItem>, key: string) returns (last: nat)
    ensures key in QuestionMapping(items) <==> exists k :: 0 <= k < |items| && Assigns(items[k], key)
    ensures key in QuestionMapping(items) ==>
      && last < |items| && Assigns(items[last], key) && QuestionMapping(items)[key] == items[last].question.value
      && forall k :: last < k < |items| ==> !Assigns(items[k], key)
  {
    var f := QuestionEntry();
    forall k | 0 <= k < |items| ensures Lists.Writes(f, items[k], key) <==> Assigns(items[k], key) {
      assert f(items[k]) == Entry(items[k]);
    }
    last := Lists.AssignLast(f, items, |items|, key);
    if key in QuestionMapping(items) {
      assert f(items[last]) == Entry(items[last]);
    }
  }

  /** The `elif` order decides overlapping titles: "Display name" falls in the name category. */
  lemma DisplayNameTitleIsName()
    ensures Category("Display name") == Some("name")
  {
    var t := "Display name";
    assert Strings.Lower(t) == "display name";
    Strings.ContainsPiece("display ", "name", "");
    assert "display " + "name" + "" == "display name";
  }

  method BuildQuestionMapping(items: seq<FormItem>) returns (mapping: map<string, Option<string>>)
    ensures mapping == QuestionMapping(items)
  {
    mapping := map[];
    for i := 0 to |items|
      invariant mapping == Lists.Assign(QuestionEntry(), items, i)
    {
      var item := items[i];
      if item.question.Some? {
        var questionId := item.question.value;
        var title := item.title;
        var lower := Strings.Lower(title);
        if Strings.Contains(title, "お名前") || Strings.Contains(lower, "name") {
          mapping := mapping["name" := questionId];
        } else if Strings.Contains(title, "氏名を表示") || Strings.Contains(lower, "display") {
          mapping := mapping["display_name" := questionId];
        } else if Strings.Contains(title, "曲名") || Strings.Contains(lower, "piece") {
          mapping := mapping["piece_title" := questionId];
        } else if Strings.Contains(title, "公開設定") || Strings.Contains(lower, "privacy") {
          mapping := mapping["privacy" := questionId];
        } else if Strings.Contains(title, "説明文") || Strings.Contains(lower, "description") {
          mapping := mapping["description_extra" := questionId];
        }
      }
    }
  }

  /**
   * A raw answer: `createTime` (`""` when absent) and, per question id, the
   * `value`s of its text answers (each `""` when absent).
   */
  datatype RawResponse = RawResponse(createTime: string, answers: map<string, seq<string>>)

  /** The first text answer to the question mapped to `key`, when that id is non-empty and answered. */
  function FirstAnswer(raw: RawResponse, qmap: map<string, Option<string>>, key: string): Option<string> {
    if key in qmap && qmap[key].Some? && qmap[key].value != [] && qmap[key].value in raw.answers
       && |raw.answers[qmap[key].value]| > 0
    then Some(raw.answers[qmap[key].value][0])
    else None
  }

  /** The stripped first answer to `key`, or `""` when it is unanswered. */
  function StrippedAnswer(raw: RawResponse, qmap: map<string, Option<string>>, key: string): string {
    match FirstAnswer(raw, qmap, key)
    case Some(v) => Strings.Strip(v)
    case None => ""
  }

  /** The display-name answer, read as `_parse_display_name_value` reads it; shown when unanswered. */
  function DisplayAnswer(raw: RawResponse, qmap: map<string, Option<string>>): bool {
    match FirstAnswer(raw, qmap, "display_name")
    case Some(v) => DisplayNameValue(v)
    case None => true
  }

  /** The privacy answer, read as `_parse_privacy_value` reads it; "unlisted" when unanswered. */
  function PrivacyAnswer(raw: RawResponse, qmap: map<string, Option<string>>): string {
    match FirstAnswer(raw, qmap, "privacy")
    case Some(v) => PrivacyValueAsWritten(v)
    case None => "unlisted"
  }

  /** `_parse_forms_api_response`. */
  function ParseFormsApiResponse(raw: RawResponse, qmap: map<string, Option<string>>, responseId: nat): Option<FormResponse> {
    var name := StrippedAnswer(raw, qmap, "name");
    var piece := StrippedAnswer(raw, qmap, "piece_title");
    if name == [] || piece == [] then None
    else Some(FormResponse(responseId, raw.createTime, name, DisplayAnswer(raw, qmap), piece, PrivacyAnswer(raw, qmap),
                           StrippedAnswer(raw, qmap, "description_extra")))
  }

  /**
   * An answer is dropped exactly when its stripped name or piece is empty
   * (an unanswered question counts as empty). A kept answer carries the
   * given id and the first answers, read as the row parser reads its cells
   * (privacy as written), and unanswered optional questions take the defaults: the name shown, privacy "unlisted", no extra text.
   */
  lemma ParseFormsApiResponseSpec(raw: RawResponse, qmap: map<string, Option<string>>, responseId: nat)
    ensures var name := FirstAnswer(raw, qmap, "name");
            var piece := FirstAnswer(raw, qmap, "piece_title");
            ParseFormsApiResponse(raw, qmap, responseId).None? <==>
              name.None? || Strings.Strip(name.value) == [] || piece.None? || Strings.Strip(piece.value) == []
    ensures var r := ParseFormsApiResponse(raw, qmap, responseId);
            r.Some? ==>
              && r.value.responseId == responseId
              && r.value.timestamp == raw.createTime
              && r.value.name == Strings.Strip(FirstAnswer(raw, qmap, "name").value)
              && r.value.pieceTitle == Strings.Strip(FirstAnswer(raw, qmap, "piece_title").value)
              && PrivacyLevel(r.value.privacy)
              && (FirstAnswer(raw, qmap, "display_name").Some? ==>
                    r.value.displayName == DisplayNameValue(FirstAnswer(raw, qmap, "display_name").value))
              && (FirstAnswer(raw, qmap, "privacy").Some? ==>
                    r.value.privacy == PrivacyValueAsWritten(FirstAnswer(raw, qmap, "privacy").value))
              && (FirstAnswer(raw, qmap, "description_extra").Some? ==>
                    r.value.descriptionExtra == Strings.Strip(FirstAnswer(raw, qmap, "description_extra").value))
              && (FirstAnswer(raw, qmap, "display_name").None? ==> r.value.displayName)
              && (FirstAnswer(raw, qmap, "privacy").None? ==> r.value.privacy == "unlisted")
              && (FirstAnswer(raw, qmap, "description_extra").None? ==> r.value.descriptionExtra == "")
  {
  }

  function ApiParser(qmap: map<string, Option<string>>): (nat, RawResponse) -> Option<FormResponse> {
    (i: nat, raw: RawResponse) => ParseFormsApiResponse(raw, qmap, i + 1)
  }

  /** The answers `load_from_forms_api` keeps: the parsed ones, numbered from 1 in arrival order. */
  function ApiResponses(items: seq<FormItem>, raws: seq<RawResponse>): seq<FormResponse> {
    Lists.Gather(ApiParser(QuestionMapping(items)), raws, |raws|)
  }

  /** A kept API answer carries the number it was given. */
  lemma ApiResponseNumbered(raw: RawResponse, qmap: map<string, Option<string>>, responseId: nat)
    ensures ParseFormsApiResponse(raw, qmap, responseId).Some? ==>
              ParseFormsApiResponse(raw, qmap, responseId).value.responseId == responseId
  {
  }

  /**
   * Each kept answer is the parse of one raw response, numbered by that
   * response's place from 1; they keep the arrival order, and a response
   * is kept exactly when it parses.
   */
  lemma ApiResponsesSpec(items: seq<FormItem>, raws: seq<RawResponse>) returns (idx: seq<nat>)
    ensures var rs := ApiResponses(items, raws);
            var qmap := QuestionMapping(items);
      && |idx| == |rs| <= |raws|
      && (forall j :: 0 <= j < |rs| ==>
            idx[j] < |raws| && ParseFormsApiResponse(raws[idx[j]], qmap, idx[j] + 1) == Some(rs[j])
            && rs[j].responseId == idx[j] + 1)
      && (forall j, j' :: 0 <= j < j' < |rs| ==> rs[j].responseId < rs[j'].responseId)
      && (forall i :: 0 <= i < |raws| ==> (i in idx <==> ParseFormsApiResponse(raws[i], qmap, i + 1).Some?))
  {
    idx := GatheredAnswers(QuestionMapping(items), raws);
  }

  /** `ApiResponsesSpec` for any question mapping. */
  lemma GatheredAnswers(qmap: map<string, Option<string>>, raws: seq<RawResponse>) returns (idx: seq<nat>)
    ensures var rs := Lists.Gather(ApiParser(qmap), raws, |raws|);
      && |idx| == |rs| <= |raws|
      && (forall j :: 0 <= j < |rs| ==>
            idx[j] < |raws| && ParseFormsApiResponse(raws[idx[j]], qmap, idx[j] + 1) == Some(rs[j])
            && rs[j].responseId == idx[j] + 1)
      && (forall j, j' :: 0 <= j < j' < |rs| ==> rs[j].responseId < rs[j'].responseId)
      && (forall i :: 0 <= i < |raws| ==> (i in idx <==> ParseFormsApiResponse(raws[i], qmap, i + 1).Some?))
  {
    var f := ApiParser(qmap);
    var rs := Lists.Gather(f, raws, |raws|);
    idx := Lists.GatherOrigin(f, raws, |raws|);
    forall j | 0 <= j < |rs|
      ensures ParseFormsApiResponse(raws[idx[j]], qmap, idx[j] + 1) == Some(rs[j]) && rs[j].responseId == idx[j] + 1
    {
      assert f(idx[j], raws[idx[j]]) == Some(rs[j]);
      ApiResponseNumbered(raws[idx[j]], qmap, idx[j] + 1);
    }
    forall i | 0 <= i < |raws| ensures (i in idx <==> ParseFormsApiResponse(raws[i], qmap, i + 1).Some?) {
      assert f(i, raws[i]) == ParseFormsApiResponse(raws[i], qmap, i + 1);
    }
  }

  // ---------------------------------------------------------------------
  // The parser object

  /** `FormResponseParser`: the answers of the last successful load. */
  class FormResponseParser {
    var responses: seq<FormResponse>

    constructor()
      ensures responses == []
    {
      responses := [];
    }

    /** `_find_column_index`: the loop over the headers, returning at the first match. */
    method FindColumnIndex(headers: seq<string>, columnKey: string) returns (r: Option<nat>)
      ensures r == ColumnIndex(headers, columnKey)
    {
      var possibleNames := PossibleNames(columnKey);
      for i := 0 to |headers|
        invariant ColumnIndexFrom(headers, possibleNames, 0) == ColumnIndexFrom(headers, possibleNames, i)
      {
        var header := headers[i];
        if header in possibleNames {
          return Some(i);
        }
        var j := 0;
        while j < |possibleNames|
          invariant j <= |possibleNames|
          invariant forall k :: 0 <= k < j ==> !Mentions(header, possibleNames, k)
        {
          if Strings.Contains(Strings.Lower(header), Strings.Lower(possibleNames[j])) {
            assert Mentions(header, possibleNames, j);
            return Some(i);
          }
          j := j + 1;
        }
      }
      return None;
    }

    /** The `col_indices` loop of `_parse_rows`. */
    method FindColumnIndices(headers: seq<string>) returns (colIndices: map<string, Option<nat>>)
      ensures colIndices == ColumnIndices(headers)
    {
      var keys := ColumnKeys;
      colIndices := map[];
      for k := 0 to |keys|
        invariant colIndices == Lists.Tabulate(ColumnIndexOf(headers), keys, k)
      {
        var idx := FindColumnIndex(headers, keys[k]);
        colIndices := colIndices[keys[k] := idx];
      }
      Lists.TabulateKeys(ColumnIndexOf(headers), keys, |keys|);
      assert keys[..|keys|] == keys;
    }

    /** `_parse_rows`: on success the answers are also kept in `responses`. */
    method ParseRows(rows: seq<seq<string>>) returns (r: Result<seq<FormResponse>, string>)
      modifies this
      ensures r == ParsedRows(rows)
      ensures r.Success? ==> responses == r.value
      ensures r.Failure? ==> responses == old(responses)
    {
      if |rows| < 2 {
        return Failure("ValueError: no data rows");
      }
      var headers := rows[0];
      var dataRows := rows[1..];
      var colIndices := FindColumnIndices(headers);
      var parsed := Lists.GatherLoop(RowParser(colIndices), dataRows);
      assert ParsedRows(rows) == Success(parsed);
      responses := parsed;
      return Success(parsed);
    }

    /** The loop of `load_from_forms_api` over the raw answers, numbered from 1. */
    method LoadFromFormsApi(items: seq<FormItem>, raws: seq<RawResponse>) returns (r: seq<FormResponse>)
      modifies this
      ensures r == ApiResponses(items, raws) && responses == r
    {
      var questionMapping := BuildQuestionMapping(items);
      var parsed := Lists.GatherLoop(ApiParser(questionMapping), raws);
      responses := parsed;
      return parsed;
    }
  }

  // ---------------------------------------------------------------------
  // load_from_google_sheets: the id in a Sheets URL

  /** The spreadsheet id: for a Sheets URL, the text after the first `/d/` up to the next `/`. */
  function SheetId(idOrUrl: string): string {
    if !Strings.Contains(idOrUrl, "docs.google.com/spreadsheets") then idOrUrl
    else
      var i := Strings.Find(idOrUrl, "/d/");
      if i < 0 then idOrUrl
      else
        var rest := idOrUrl[i + 3..];
        var j := Strings.Find(rest, "/");
        if j < 0 then rest else rest[..j]
  }

  /**
   * A plain id is kept. For a Sheets URL with a `/d/`, the id is the text
   * right after the first `/d/`: it holds no `/`, and it runs to the end
   * of the URL or to a `/`.
   */
  lemma SheetIdSpec(idOrUrl: string)
    ensures !Strings.Contains(idOrUrl, "docs.google.com/spreadsheets") ==> SheetId(idOrUrl) == idOrUrl
    ensures Strings.Contains(idOrUrl, "docs.google.com/spreadsheets") && !Strings.Contains(idOrUrl, "/d/") ==>
              SheetId(idOrUrl) == idOrUrl
    ensures Strings.Contains(idOrUrl, "docs.google.com/spreadsheets") && Strings.Contains(idOrUrl, "/d/") ==>
              var start := Strings.Find(idOrUrl, "/d/") + 3;
              var id := SheetId(idOrUrl);
              && start + |id| <= |idOrUrl|
              && id == idOrUrl[start..start + |id|]
              && (forall k :: 0 <= k < |id| ==> id[k] != '/')
              && (start + |id| == |idOrUrl| || idOrUrl[start + |id|] == '/')
              && (forall k :: 0 <= k < start - 3 ==> !Strings.OccursAt(idOrUrl, "/d/", k))
  {
    var s := idOrUrl;
    if Strings.Contains(s, "docs.google.com/spreadsheets") && Strings.Contains(s, "/d/") {
      var i := Strings.Find(s, "/d/");
      var rest := s[i + 3..];
      Strings.FindChar(rest, '/');
    }
  }

  // ---------------------------------------------------------------------
  // Hand-over to the mapper

  /** The mapper reads back what the parser wrote: name, piece, the display flag and the privacy. */
  lemma MapperReadsResponse(r: FormResponse)
    ensures VideoMapper.FormName(r.Fields()) == r.name
    ensures VideoMapper.FormPiece(r.Fields()) == r.pieceTitle
    ensures "response_id" in r.Fields()
    ensures Truthy(Get(r.Fields(), "display_name", JBool(true))) == r.displayName
    ensures Get(r.Fields(), "privacy", JStr("unlisted")) == JStr(r.privacy)
  {
  }
}
