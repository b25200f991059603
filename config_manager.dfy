/**
 * The application settings (src/cvcutter/config_manager.py): three
 * sections of defaults, the saved `app_config.json` merged over them key by
 * key, and `get`, `set` and `update_section` on the merged dictionary.
 *
 * The file is an input: absent, unreadable (an OS or JSON error), or the
 * value `json.load` returned. Writing it back in `save_config` is I/O and
 * is not modelled; its errors are only logged.
 */
module AppConfig {
  import opened Wrappers
  import opened JsonValue

  type Section = map<string, Json>

  const DefaultPaths: Section := map[
    "output_dir" := JStr("output"), "temp_dir" := JStr("temp"), "video_dir" := JStr(""),
    "audio_dir" := JStr(""), "pdf_path" := JStr(""), "form_id" := JStr(""), "form_csv_path" := JStr("")]

  const DefaultProcessing: Section := map[
    "video_audio_volume" := JNum(0.6), "mic_audio_volume" := JNum(1.5), "audio_sync_sample_rate" := JNum(22050.0),
    "mog2_threshold" := JNum(40.0), "min_contour_area" := JNum(3000.0), "min_duration_seconds" := JNum(30.0)]

  const DefaultWorkflow: Section := map[
    "use_forms_api" := JBool(true), "use_gemini" := JBool(true), "skip_upload" := JBool(false),
    "gemini_api_key" := JStr(""), "gemini_model" := JStr("gemini-2.5-flash")]

  /** `DEFAULT_CONFIG`. */
  const DefaultConfig: map<string, Json> :=
    map["paths" := JObj(DefaultPaths), "processing" := JObj(DefaultProcessing), "workflow" := JObj(DefaultWorkflow)]

  /** Every default section is a dictionary. */
  lemma DefaultSectionsAreObjects()
    ensures DefaultConfig.Keys == {"paths", "processing", "workflow"}
    ensures forall s :: s in DefaultConfig ==> DefaultConfig[s].JObj?
  {
  }

  // ---------------------------------------------------------------------
  // load_config

  /** What `app_config.json` holds: no file, a file that cannot be read or parsed, or its value. */
  datatype SavedFile = NoFile | Unreadable | Parsed(json: Json)

  /**
   * One element of the sequence handed to `dict.update`: a two-element
   * list whose key is a string, or a two-character string (its characters
   * are the key and the value).
   */
  function UpdatePair(item: Json): (r: Option<(string, Json)>)
    ensures item.JArr? && |item.items| == 2 && item.items[0].JStr? ==> r == Some((item.items[0].s, item.items[1]))
  {
    match item
    case JArr(kv) => if |kv| == 2 && kv[0].JStr? then Some((kv[0].s, kv[1])) else None
    case JStr(t) => if |t| == 2 then Some(([t[0]], JStr([t[1]]))) else None
    case _ => None
  }

  /** The pairs of a list, each assigned in turn, so a later key wins; None when an element is not a pair. */
  function PairsUpdate(items: seq<Json>): (r: Option<map<string, Json>>)
    ensures r.Some? <==> forall i :: 0 <= i < |items| ==> UpdatePair(items[i]).Some?
  {
    if items == [] then Some(map[])
    else
      var last := UpdatePair(items[|items| - 1]);
      match PairsUpdate(items[..|items| - 1])
      case Some(m) => if last.Some? then Some(m[last.value.0 := last.value.1]) else None
      case None => None
  }

  /**
   * What `d.update(values)` adds to `d`, or None where it raises: a
   * dictionary's own entries, nothing for an empty string, and the pairs
   * of a list. A number, a boolean, None or a non-empty string (whose
   * elements are single characters) raise.
   */
  function UpdateOf(values: Json): (r: Option<map<string, Json>>)
    ensures values.JObj? ==> r == Some(values.fields)
    ensures values == JStr("") || values == JArr([]) ==> r == Some(map[])
    ensures values.JNum? || values.JBool? || values.JNull? || (values.JStr? && values.s != "") ==> r.None?
  {
    match values
    case JObj(fields) => Some(fields)
    case JStr(text) => if text == "" then Some(map[]) else None
    case JArr(items) => PairsUpdate(items)
    case _ => None
  }

  /** Every saved section that is also a default section is one `dict.update` takes. */
  predicate Mergeable(defaults: map<string, Json>, saved: map<string, Json>) {
    forall s :: s in saved && s in defaults ==> UpdateOf(saved[s]).Some? && defaults[s].JObj?
  }

  /** A section of the merge: the saved keys over the default ones, or the one side that has it. */
  function MergedSection(defaults: map<string, Json>, saved: map<string, Json>, s: string): Json
    requires s in defaults || s in saved
  {
    if s in saved && s in defaults && UpdateOf(saved[s]).Some? && defaults[s].JObj? then
      JObj(defaults[s].fields + UpdateOf(saved[s]).value)
    else if s in saved then saved[s]
    else defaults[s]
  }

  /** Element `item` of an update list is a pair whose key is `k`. */
  predicate Names(item: Json, k: string) {
    UpdatePair(item).Some? && UpdatePair(item).value.0 == k
  }

  /** A list of pairs adds exactly the keys its pairs name. */
  lemma {:induction false} PairsUpdateKeys(items: seq<Json>, k: string)
    requires PairsUpdate(items).Some?
    ensures k in PairsUpdate(items).value <==> exists i :: 0 <= i < |items| && Names(items[i], k)
  {
    if items != [] {
      var n := |items| - 1;
      var init := items[..n];
      PairsUpdateKeys(init, k);
      assert forall i :: 0 <= i < n ==> init[i] == items[i];
      assert PairsUpdate(items).value == PairsUpdate(init).value[UpdatePair(items[n]).value.0 := UpdatePair(items[n]).value.1];
      if Names(items[n], k) {
        assert k in PairsUpdate(items).value;
      }
    }
  }

  /** The value a list of pairs gives key `k` is that of the last pair for `k`. */
  lemma {:induction false} PairsUpdateLast(items: seq<Json>, k: string)
    requires PairsUpdate(items).Some? && k in PairsUpdate(items).value
    ensures exists i :: && 0 <= i < |items| && UpdatePair(items[i]) == Some((k, PairsUpdate(items).value[k]))
                        && forall j :: i < j < |items| ==> !Names(items[j], k)
  {
    var n := |items| - 1;
    var init := items[..n];
    var m := PairsUpdate(items).value;
    var last := UpdatePair(items[n]).value;
    assert m == PairsUpdate(init).value[last.0 := last.1];
    if last.0 == k {
      assert UpdatePair(items[n]) == Some((k, m[k]));
    } else {
      assert k in PairsUpdate(init).value;
      PairsUpdateLast(init, k);
      var i :| && 0 <= i < n && UpdatePair(init[i]) == Some((k, PairsUpdate(init).value[k]))
               && forall j :: i < j < n ==> !Names(init[j], k);
      assert init[i] == items[i];
      assert forall j :: i < j < n ==> init[j] == items[j];
      assert UpdatePair(items[i]) == Some((k, m[k]));
    }
  }

  /** The merged dictionary: every section of either side. */
  function MergedConfig(defaults: map<string, Json>, saved: map<string, Json>): map<string, Json> {
    map s | s in defaults.Keys + saved.Keys :: MergedSection(defaults, saved, s)
  }

  /**
   * What `load_config` returns: the defaults without a file, on a read or
   * parse error, and when the merge raises (a saved file that is not a
   * dictionary, or a known section saved as something `dict.update` refuses); otherwise the
   * merge.
   */
  function LoadedConfig(saved: SavedFile): map<string, Json> {
    if saved.Parsed? && saved.json.JObj? && Mergeable(DefaultConfig, saved.json.fields) then
      MergedConfig(DefaultConfig, saved.json.fields)
    else DefaultConfig
  }

  /** Merging one more saved section updates that section alone. */
  lemma MergedConfigStep(defaults: map<string, Json>, saved: map<string, Json>, s: string, v: Json)
    requires s !in saved
    ensures MergedConfig(defaults, saved[s := v]) == MergedConfig(defaults, saved)[s := MergedSection(defaults, saved[s := v], s)]
  {
  }

  /** `load_config`. */
  method LoadConfig(saved: SavedFile) returns (config: map<string, Json>)
    ensures config == LoadedConfig(saved)
  {
    if !saved.Parsed? || !saved.json.JObj? {
      return DefaultConfig;  // no file, an unreadable one, or `.items()` on a value that is not a dictionary
    }
    DefaultSectionsAreObjects();
    var merged := MergeSections(DefaultConfig, saved.json.fields);
    if merged.None? {
      return DefaultConfig;  // `dict.update` raised, and the defaults are used
    }
    return merged.value;
  }

  /** The loop of `load_config` over the saved sections, merging each into the defaults; None where it raises. */
  method MergeSections(defaults: map<string, Json>, fields: map<string, Json>) returns (merged: Option<map<string, Json>>)
    requires forall s :: s in defaults ==> defaults[s].JObj?
    ensures merged.Some? <==> Mergeable(defaults, fields)
    ensures merged.Some? ==> merged.value == MergedConfig(defaults, fields)
  {
    var config := defaults;
    var pending := fields.Keys;
    while pending != {}
      invariant pending <= fields.Keys
      invariant Mergeable(defaults, fields - pending)
      invariant config == MergedConfig(defaults, fields - pending)
      decreases |pending|
    {
      var section :| section in pending;
      var values := fields[section];
      ghost var done := fields - pending;
      assert fields - (pending - {section}) == done[section := values];
      MergedConfigStep(defaults, done, section, values);
      if section in config {
        assert section in defaults;
        var update := UpdateOf(values);
        if update.None? {
          assert !Mergeable(defaults, fields);
          return None;
        }
        config := config[section := JObj(config[section].fields + update.value)];
      } else {
        config := config[section := values];
      }
      pending := pending - {section};
    }
    assert fields - pending == fields;
    return Some(config);
  }

  /**
   * On a merge, the keys a known section is updated with override the defaults
   * and its default-only keys stay; unknown saved sections are taken as
   * they are, and unsaved sections keep their defaults.
   */
  lemma LoadedConfigSpec(fields: map<string, Json>, s: string, k: string)
    requires Mergeable(DefaultConfig, fields)
    ensures var c := LoadedConfig(Parsed(JObj(fields)));
      && c.Keys == DefaultConfig.Keys + fields.Keys
      && (s in DefaultConfig && s in fields ==>
            && c[s].JObj?
            && (k in UpdateOf(fields[s]).value ==> Lookup(c[s].fields, k) == UpdateOf(fields[s]).value[k])
            && (k !in UpdateOf(fields[s]).value ==> Lookup(c[s].fields, k) == Lookup(DefaultConfig[s].fields, k)))
      && (s !in DefaultConfig && s in fields ==> c[s] == fields[s])
      && (s in DefaultConfig && s !in fields ==> c[s] == DefaultConfig[s])
  {
  }

  /** Whatever the file holds, every default section and every default key of it is in the loaded settings. */
  lemma LoadKeepsDefaultKeys(saved: SavedFile)
    ensures var c := LoadedConfig(saved);
      forall s :: s in DefaultConfig ==> s in c && c[s].JObj? && DefaultConfig[s].fields.Keys <= c[s].fields.Keys
  {
    DefaultSectionsAreObjects();
  }

  // ---------------------------------------------------------------------
  // get, set and update_section

  /**
   * `self.config.get(section, {}).get(key)`: the value, or None (`JNull`)
   * when the section or the key is absent; a section that is not a
   * dictionary has no `.get` and raises.
   */
  function SectionGet(config: map<string, Json>, section: string, key: string): Result<Json, string> {
    if section !in config then Success(JNull)
    else if !config[section].JObj? then Failure("AttributeError")
    else Success(Lookup(config[section].fields, key))
  }

  /** The keys of a section, `{}` when it is absent. */
  function SectionFields(config: map<string, Json>, section: string): Section
    requires section in config ==> config[section].JObj?
  {
    if section in config then config[section].fields else map[]
  }

  /** The settings after `set(section, key, value)`, or None when the section is not a dictionary. */
  function WithValue(config: map<string, Json>, section: string, key: string, value: Json): Option<map<string, Json>> {
    if section in config && !config[section].JObj? then None
    else Some(config[section := JObj(SectionFields(config, section)[key := value])])
  }

  /** The settings after `update_section(section, data)`, or None when the section is not a dictionary. */
  function WithSection(config: map<string, Json>, section: string, data: Section): Option<map<string, Json>> {
    if section in config && !config[section].JObj? then None
    else Some(config[section := JObj(SectionFields(config, section) + data)])
  }

  /** An absent section or key reads as None. */
  lemma GetAbsent(config: map<string, Json>, section: string, key: string)
    requires section !in config || (config[section].JObj? && key !in config[section].fields)
    ensures SectionGet(config, section, key) == Success(JNull)
  {
  }

  /**
   * `set` fails only on a section that is not a dictionary; otherwise the
   * section exists, reads back the value under the key, and every other
   * section and key reads as before.
   */
  lemma SetThenGet(config: map<string, Json>, section: string, key: string, value: Json, s: string, k: string)
    ensures WithValue(config, section, key, value).None? <==> section in config && !config[section].JObj?
    ensures WithValue(config, section, key, value).Some? ==>
      var c := WithValue(config, section, key, value).value;
      && c.Keys == config.Keys + {section}
      && SectionGet(c, section, key) == Success(value)
      && (s != section || k != key ==> SectionGet(c, s, k) == SectionGet(config, s, k))
      && (s != section && s in config ==> c[s] == config[s])
  {
  }

  /**
   * `update_section` fails only on a section that is not a dictionary;
   * otherwise the keys of `data` read back their new values, the others of
   * the section as before, and the other sections are untouched.
   */
  lemma UpdateThenGet(config: map<string, Json>, section: string, data: Section, s: string, k: string)
    ensures WithSection(config, section, data).None? <==> section in config && !config[section].JObj?
    ensures WithSection(config, section, data).Some? ==>
      var c := WithSection(config, section, data).value;
      && c.Keys == config.Keys + {section}
      && (k in data ==> SectionGet(c, section, k) == Success(data[k]))
      && (k !in data ==> SectionGet(c, section, k) == SectionGet(config, section, k))
      && (s != section ==> SectionGet(c, s, k) == SectionGet(config, s, k))
      && (s != section && s in config ==> c[s] == config[s])
  {
  }

  /** Updating a section with one key is setting that key. */
  lemma UpdateOneIsSet(config: map<string, Json>, section: string, key: string, value: Json)
    ensures WithSection(config, section, map[key := value]) == WithValue(config, section, key, value)
  {
    if !(section in config && !config[section].JObj?) {
      assert SectionFields(config, section) + map[key := value] == SectionFields(config, section)[key := value];
    }
  }

  /** `ConfigManager`: the path it was made for and the settings it holds. */
  class ConfigManager {
    var configPath: string
    var config: map<string, Json>

    /** `__init__`: the settings loaded from the file at `configPath`, whose contents are `saved`. */
    constructor(configPath: string, saved: SavedFile)
      ensures this.configPath == configPath && config == LoadedConfig(saved)
    {
      this.configPath := configPath;
      var loaded := LoadConfig(saved);
      config := loaded;
    }

    /** `get(section, key)`. */
    function Get(section: string, key: string): Result<Json, string>
      reads this
    {
      SectionGet(config, section, key)
    }

    /** `set(section, key, value)`: a section that is not a dictionary raises `TypeError` and nothing changes. */
    method Set(section: string, key: string, value: Json) returns (error: Option<string>)
      modifies this
      ensures configPath == old(configPath)
      ensures WithValue(old(config), section, key, value).Some? ==>
        error.None? && config == WithValue(old(config), section, key, value).value
      ensures WithValue(old(config), section, key, value).None? ==> error == Some("TypeError") && config == old(config)
    {
      if section !in config {
        config := config[section := JObj(map[])];
      }
      if !config[section].JObj? {
        return Some("TypeError");
      }
      config := config[section := JObj(config[section].fields[key := value])];
      return None;  // then `save_config` writes the file
    }

    /** `update_section(section, data)`: a section that is not a dictionary raises `AttributeError`. */
    method UpdateSection(section: string, data: Section) returns (error: Option<string>)
      modifies this
      ensures configPath == old(configPath)
      ensures WithSection(old(config), section, data).Some? ==>
        error.None? && config == WithSection(old(config), section, data).value
      ensures WithSection(old(config), section, data).None? ==> error == Some("AttributeError") && config == old(config)
    {
      if section !in config {
        config := config[section := JObj(map[])];
      }
      if !config[section].JObj? {
        return Some("AttributeError");
      }
      config := config[section := JObj(config[section].fields + data)];
      return None;  // then `save_config` writes the file
    }
  }
}
