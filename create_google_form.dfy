/**
 * Form creation (src/cvcutter/create_google_form.py): the two URLs of a new
 * form, the `batchUpdate` request list that adds the five questions, the
 * `form_info` record, and the form history of `form_history.json`, in which
 * a form appears once (an entry with the same `form_id` is replaced), the
 * newest first, and of which three entries are shown.
 *
 * The Forms API, the clock and the files are inputs: the id the API gives
 * the new form, whether its calls fail, the current time as ISO text, and
 * the history as `json.load` returns it (or why it could not).
 */
module CreateGoogleForm {
  import opened Wrappers
  import opened JsonValue
  import Strings
  import Sorting
  import FormConnector
  import Lists

  // ---------------------------------------------------------------------
  // The URLs

  const FormsBase := "https://docs.google.com/forms/d/"

  /** `form_url`: where the form is edited. */
  function EditUrl(formId: string): string {
    FormsBase + formId + "/edit"
  }

  /** `response_url`: where it is answered. */
  function ResponseUrl(formId: string): string {
    FormsBase + formId + "/viewform"
  }

  /** Each URL determines the form it was built for, and an edit URL is never a response URL. */
  lemma UrlsIdentifyForm(a: string, b: string)
    ensures EditUrl(a) == EditUrl(b) ==> a == b
    ensures ResponseUrl(a) == ResponseUrl(b) ==> a == b
    ensures EditUrl(a) != ResponseUrl(b)
  {
    if EditUrl(a) == EditUrl(b) {
      Strings.CancelAround(FormsBase, a, b, "/edit");
    }
    if ResponseUrl(a) == ResponseUrl(b) {
      Strings.CancelAround(FormsBase, a, b, "/viewform");
    }
    var e, r := EditUrl(a), ResponseUrl(b);
    assert e[|e| - 1] == 't' && r[|r| - 1] == 'm';
  }

  // ---------------------------------------------------------------------
  // The batchUpdate requests

  /** The question an item asks: free text (one line or a paragraph) or one radio choice. */
  datatype Question = TextQuestion(paragraph: bool) | RadioQuestion(options: seq<string>)

  datatype Request =
    | UpdateFormInfo(description: string, updateMask: string)
    | CreateItem(title: string, itemDescription: string, required: bool, question: Question, index: nat)

  const NameTitle := "お名前"
  // The longer titles are written in short pieces, which the proofs below
  // reason about one at a time; each is the single literal of the form.
  const DisplayTitle := "動画に氏名を" + "表示しますか？"
  const PieceTitle := "演奏された" + "曲名を入力" + "してください"
  const PrivacyTitle := "公開設定"
  const ExtraTitle := "動画の説明文" + "に追加したい" + "内容があれば" + "記入してください"

  const ShowName := "表示する"
  const HideName := "表示しない（匿名）"
  const PublicChoice := "公開"
  const LimitedChoice := "限定公開（URLを知っている人のみ閲覧可能）"

  /** The `requests` list of `create_concert_form`. */
  function FormRequests(formDescription: string): seq<Request> {
    [UpdateFormInfo(formDescription, "description"),
     CreateItem(NameTitle, "フルネームを入力してください", true, TextQuestion(false), 0),
     CreateItem(DisplayTitle, "YouTubeの動画タイトルにお名前を記載するか選択してください", true,
                RadioQuestion([ShowName, HideName]), 1),
     CreateItem(PieceTitle, "例: ショパン ノクターン第2番、ベートーヴェン 月光ソナタ 第1楽章", true, TextQuestion(false), 2),
     CreateItem(PrivacyTitle, "動画の公開範囲を選択してください", true, RadioQuestion([PublicChoice, LimitedChoice]), 3),
     CreateItem(ExtraTitle, "動画の説明欄に表示される追加メッセージ（任意）", false, TextQuestion(true), 4)]
  }

  /**
   * The list updates the description first and then creates five items at
   * the locations 0 to 4 in turn; all but the last are required.
   */
  lemma FormRequestsShape(formDescription: string)
    ensures var r := FormRequests(formDescription);
      && |r| == 6 && r[0] == UpdateFormInfo(formDescription, "description")
      && (forall k :: 1 <= k < |r| ==>
            r[k].CreateItem? && r[k].title == Titles[k - 1] && r[k].index == k - 1 && (r[k].required <==> k < 5))
  {
  }

  /** The categories the connector files the five questions under, in item order. */
  const CategoryKeys: seq<string> := ["name", "display_name", "piece_title", "privacy", "description_extra"]

  /** The words the connector looks for, category by category, in its `elif` order. */
  const Keywords: seq<(string, string)> :=
    [("お名前", "name"), ("氏名を表示", "display"), ("曲名", "piece"), ("公開設定", "privacy"), ("説明文", "description")]

  /** A title that names the `k`-th keyword and none before it falls in the `k`-th category. */
  lemma CategoryAt(title: string, k: nat)
    requires k < 5
    requires forall j :: 0 <= j < k ==> !FormConnector.Names(title, Keywords[j].0, Keywords[j].1)
    requires FormConnector.Names(title, Keywords[k].0, Keywords[k].1)
    ensures FormConnector.Category(title) == Some(CategoryKeys[k])
  {
    if k > 0 { assert !FormConnector.Names(title, Keywords[0].0, Keywords[0].1); }
    if k > 1 { assert !FormConnector.Names(title, Keywords[1].0, Keywords[1].1); }
    if k > 2 { assert !FormConnector.Names(title, Keywords[2].0, Keywords[2].1); }
    if k > 3 { assert !FormConnector.Names(title, Keywords[3].0, Keywords[3].1); }
  }

  /** The text holds no ASCII character. */
  predicate NonAscii(s: string) {
    forall c :: c in s ==> c as int >= 128
  }

  /**
   * A title without ASCII letters names no English keyword, and none whose
   * Japanese word starts with a character it lacks.
   */
  lemma NotNamed(title: string, j: nat)
    requires j < 5 && NonAscii(title) && Keywords[j].0[0] !in title
    ensures !FormConnector.Names(title, Keywords[j].0, Keywords[j].1)
  {
    var (jp, en) := Keywords[j];
    Strings.MissingChar(title, jp, 0);
    Strings.LowerUnchanged(title);
    assert en[0] as int < 128;
    Strings.MissingChar(title, en, 0);
  }

  /** The question titles, in item order. */
  const Titles: seq<string> := [NameTitle, DisplayTitle, PieceTitle, PrivacyTitle, ExtraTitle]

  /** A title in which the `k`-th Japanese keyword starts at `i` names that keyword. */
  lemma Named(title: string, k: nat, i: nat)
    requires k < 5 && i <= |title| && Keywords[k].0 <= title[i..]
    ensures FormConnector.Names(title, Keywords[k].0, Keywords[k].1)
  {
    Strings.ContainsAfter(title, i, Keywords[k].0);
  }

  /**
   * A Japanese-only title that lacks the first character of each keyword
   * before the `k`-th, and names the `k`-th, falls in the `k`-th category.
   */
  lemma CategoryFrom(title: string, k: nat)
    requires k < 5 && NonAscii(title)
    requires forall j :: 0 <= j < k ==> Keywords[j].0[0] !in title
    requires FormConnector.Names(title, Keywords[k].0, Keywords[k].1)
    ensures FormConnector.Category(title) == Some(CategoryKeys[k])
  {
    forall j | 0 <= j < k ensures !FormConnector.Names(title, Keywords[j].0, Keywords[j].1) {
      NotNamed(title, j);
    }
    CategoryAt(title, k);
  }

  lemma NameTitleCategory(t: string)
    requires t == NameTitle
    ensures FormConnector.Category(t) == Some("name")
  {
    Named(t, 0, 0);
    CategoryAt(t, 0);
  }

  lemma DisplayTitleCategory(t: string)
    requires t == DisplayTitle
    ensures FormConnector.Category(t) == Some("display_name")
  {
    DisplayTitleLacks(t);
    Named(t, 1, 3);
    CategoryFrom(t, 1);
  }

  lemma DisplayTitleLacks(t: string)
    requires t == DisplayTitle
    ensures NonAscii(t) && forall j :: 0 <= j < 1 ==> Keywords[j].0[0] !in t
  {
    DisplayPartLacks("動画に氏名を");
    DisplayPartLacks("表示しますか？");
  }

  lemma PieceTitleCategory(t: string)
    requires t == PieceTitle
    ensures FormConnector.Category(t) == Some("piece_title")
  {
    PieceTitleLacks(t);
    Named(t, 2, 5);
    CategoryFrom(t, 2);
  }

  lemma PieceTitleLacks(t: string)
    requires t == PieceTitle
    ensures NonAscii(t) && forall j :: 0 <= j < 2 ==> Keywords[j].0[0] !in t
  {
    PiecePartLacks("演奏された");
    PiecePartLacks("曲名を入力");
    PiecePartLacks("してください");
  }

  lemma PrivacyTitleCategory(t: string)
    requires t == PrivacyTitle
    ensures FormConnector.Category(t) == Some("privacy")
  {
    PrivacyPartLacks(t);
    Named(t, 3, 0);
    CategoryFrom(t, 3);
  }

  lemma ExtraTitleCategory(t: string)
    requires t == ExtraTitle
    ensures FormConnector.Category(t) == Some("description_extra")
  {
    ExtraTitleLacks(t);
    Named(t, 4, 3);
    CategoryFrom(t, 4);
  }

  lemma ExtraTitleLacks(t: string)
    requires t == ExtraTitle
    ensures NonAscii(t) && forall j :: 0 <= j < 4 ==> Keywords[j].0[0] !in t
  {
    ExtraHeadLacks("動画の説明文");
    ExtraHeadLacks("に追加したい");
    ExtraTailLacks("内容があれば");
    ExtraTailLacks("記入してください");
  }

  // Each piece of a title has no ASCII and lacks the first character of
  // the keywords before the title's own.

  lemma DisplayPartLacks(p: string)
    requires p == "動画に氏名を" || p == "表示しますか？"
    ensures NonAscii(p) && 'お' !in p
  {
  }

  lemma PiecePartLacks(p: string)
    requires p == "演奏された" || p == "曲名を入力" || p == "してください"
    ensures NonAscii(p) && 'お' !in p && '氏' !in p
  {
  }

  lemma PrivacyPartLacks(p: string)
    requires p == "公開設定"
    ensures NonAscii(p) && 'お' !in p && '氏' !in p && '曲' !in p
  {
  }

  lemma ExtraHeadLacks(p: string)
    requires p == "動画の説明文" || p == "に追加したい"
    ensures NonAscii(p) && 'お' !in p && '氏' !in p && '曲' !in p && '公' !in p
  {
  }

  lemma ExtraTailLacks(p: string)
    requires p == "内容があれば" || p == "記入してください"
    ensures NonAscii(p) && 'お' !in p && '氏' !in p && '曲' !in p && '公' !in p
  {
  }

  /** The listed item of request `i`: a question under its title with the id `ids` gives it. */
  function ItemOf(ids: seq<string>): (nat, Request) -> Option<FormConnector.FormItem> {
    (i: nat, q: Request) =>
      if q.CreateItem? && i < |ids| then Some(FormConnector.FormItem(q.title, Some(Some(ids[i])))) else None
  }

  /**
   * The form as the Forms API lists it once created: one question item per
   * `createItem`, in order, under its title and with the id `ids` gives it.
   */
  function CreatedItems(reqs: seq<Request>, ids: seq<string>): seq<FormConnector.FormItem> {
    Lists.Gather(ItemOf(ids), reqs, |reqs|)
  }

  lemma CreatedItemsOfForm(formDescription: string, ids: seq<string>)
    requires |ids| == 6
    ensures var r := FormRequests(formDescription);
      var items := CreatedItems(r, ids);
      && |items| == 5
      && forall k :: 0 <= k < 5 ==> items[k] == FormConnector.FormItem(Titles[k], Some(Some(ids[k + 1])))
  {
    var r := FormRequests(formDescription);
    var f := ItemOf(ids);
    assert f(0, r[0]) == None;
    var g1 := Lists.Gather(f, r, 1);
    assert g1 == [];
    var g6 := Lists.Gather(f, r, 6);
    forall n | 1 <= n < 6 ensures f(n, r[n]) == Some(FormConnector.FormItem(Titles[n - 1], Some(Some(ids[n])))) {
    }
    Lists.GatherStep(f, r, 1);
    Lists.GatherStep(f, r, 2);
    Lists.GatherStep(f, r, 3);
    Lists.GatherStep(f, r, 4);
    Lists.GatherStep(f, r, 5);
  }

  /**
   * Read back by the connector's `_build_question_mapping`, the created
   * form maps each of the five categories to its own question's id.
   */
  lemma CreatedFormReadBack(formDescription: string, ids: seq<string>)
    requires |ids| == 6
    ensures FormConnector.QuestionMapping(CreatedItems(FormRequests(formDescription), ids))
         == map["name" := Some(ids[1]), "display_name" := Some(ids[2]), "piece_title" := Some(ids[3]),
                "privacy" := Some(ids[4]), "description_extra" := Some(ids[5])]
  {
    var r := FormRequests(formDescription);
    var items := CreatedItems(r, ids);
    CreatedItemsOfForm(formDescription, ids);
    forall k | 0 <= k < 5 ensures FormConnector.Category(items[k].title) == Some(CategoryKeys[k]) {
      var t := items[k].title;
      if k == 0 { NameTitleCategory(t); }
      else if k == 1 { DisplayTitleCategory(t); }
      else if k == 2 { PieceTitleCategory(t); }
      else if k == 3 { PrivacyTitleCategory(t); }
      else { ExtraTitleCategory(t); }
    }
    ReadBackMapping(items, ids);
  }

  /** Five question items, one per category in order, map each category to its item's id. */
  lemma ReadBackMapping(items: seq<FormConnector.FormItem>, ids: seq<string>)
    requires |items| == 5 && |ids| == 6
    requires forall k :: 0 <= k < 5 ==> items[k].question == Some(Some(ids[k + 1]))
    requires forall k :: 0 <= k < 5 ==> FormConnector.Category(items[k].title) == Some(CategoryKeys[k])
    ensures FormConnector.QuestionMapping(items)
         == map["name" := Some(ids[1]), "display_name" := Some(ids[2]), "piece_title" := Some(ids[3]),
                "privacy" := Some(ids[4]), "description_extra" := Some(ids[5])]
  {
    var f := FormConnector.QuestionEntry();
    forall k | 0 <= k < 5 ensures f(items[k]) == Some((CategoryKeys[k], Some(ids[k + 1]))) {
      assert f(items[k]) == FormConnector.Entry(items[k]);
    }
    assert Lists.Assign(f, items, 1) == map["name" := Some(ids[1])];
    assert Lists.Assign(f, items, 2) == map["name" := Some(ids[1]), "display_name" := Some(ids[2])];
    assert Lists.Assign(f, items, 3) == Lists.Assign(f, items, 2)["piece_title" := Some(ids[3])];
    assert Lists.Assign(f, items, 4) == Lists.Assign(f, items, 3)["privacy" := Some(ids[4])];
    assert Lists.Assign(f, items, 5) == Lists.Assign(f, items, 4)["description_extra" := Some(ids[5])];
  }

  /** The radio choices the form offers read back as intended: shown or hidden, public or unlisted. */
  lemma CreatedChoicesRead()
    ensures FormConnector.DisplayNameValue(ShowName) && !FormConnector.DisplayNameValue(HideName)
    ensures FormConnector.PrivacyValueAsWritten(PublicChoice) == "public"
    ensures FormConnector.PrivacyValueAsWritten(LimitedChoice) == "unlisted"
    ensures FormConnector.PrivacyValue(PublicChoice) == "public"
    ensures FormConnector.PrivacyValue(LimitedChoice) == "unlisted"
  {
    FormConnector.ShownChoiceRead();
    FormConnector.HiddenChoiceRead();
    FormConnector.PublicChoiceRead();
    FormConnector.LimitedChoiceRead();
  }

  // ---------------------------------------------------------------------
  // create_concert_form

  /** A dictionary of `form_history.json`, as `json.load` gives it. */
  type Entry = map<string, Json>

  /** The `form_info` of a new form. */
  function FormInfo(formId: string, formTitle: string, createdAt: string): (info: Entry)
    ensures info.Keys == {"form_id", "form_title", "edit_url", "response_url", "created_at"}
  {
    map["form_id" := JStr(formId), "form_title" := JStr(formTitle), "edit_url" := JStr(EditUrl(formId)),
        "response_url" := JStr(ResponseUrl(formId)), "created_at" := JStr(createdAt)]
  }

  /** What `create_concert_form` sends and returns. */
  datatype Created = Created(createTitle: string, requests: seq<Request>, info: Entry)

  /**
   * `create_concert_form`: `created` is the id the API gives the new form,
   * or the `HttpError` it raises; `batchError` is the error of the
   * `batchUpdate` call, if any; `now` is the ISO time of the clock.
   */
  function CreateConcertForm(created: Result<string, string>, batchError: Option<string>,
                             formTitle: string, formDescription: string, now: string): Result<Created, string>
  {
    if created.Failure? then Failure(created.error)
    else if batchError.Some? then Failure(batchError.value)
    else Success(Created(formTitle, FormRequests(formDescription), FormInfo(created.value, formTitle, now)))
  }

  /**
   * Either API error is raised; otherwise the form is created under the
   * title, the five questions are requested, and the returned record holds
   * the id, the title, the two URLs of that id and the time.
   */
  lemma CreateConcertFormSpec(created: Result<string, string>, batchError: Option<string>,
                              formTitle: string, formDescription: string, now: string)
    ensures var r := CreateConcertForm(created, batchError, formTitle, formDescription, now);
      && (r.Success? <==> created.Success? && batchError.None?)
      && (created.Failure? ==> r == Failure(created.error))
      && (created.Success? && batchError.Some? ==> r == Failure(batchError.value))
      && (r.Success? ==>
            && r.value.createTitle == formTitle
            && Lookup(r.value.info, "form_title") == JStr(formTitle)
            && r.value.requests == FormRequests(formDescription)
            && Lookup(r.value.info, "form_id") == JStr(created.value)
            && Lookup(r.value.info, "edit_url") == JStr(EditUrl(created.value))
            && Lookup(r.value.info, "response_url") == JStr(ResponseUrl(created.value))
            && Lookup(r.value.info, "created_at") == JStr(now))
  {
  }

  // ---------------------------------------------------------------------
  // The history

  /** `x.get("created_at", "")`, read as text. */
  function CreatedAt(e: Entry): string {
    TextField(e, "created_at", "")
  }

  /** The order of `sort(key=created_at, reverse=True)`: `a` may stand before `b`. */
  predicate NewerOrSame(a: Entry, b: Entry) {
    Strings.LexLe(CreatedAt(b), CreatedAt(a))
  }

  lemma NewerOrSameIsPreorder()
    ensures Sorting.TotalPreorder(NewerOrSame)
  {
    forall a: Entry, b: Entry ensures NewerOrSame(a, b) || NewerOrSame(b, a) {
      Strings.LexLeTotal(CreatedAt(a), CreatedAt(b));
    }
    forall a: Entry, b: Entry, c: Entry | NewerOrSame(a, b) && NewerOrSame(b, c) ensures NewerOrSame(a, c) {
      Strings.LexLeTrans(CreatedAt(c), CreatedAt(b), CreatedAt(a));
    }
  }

  /** `history.sort(key=lambda x: x.get("created_at", ""), reverse=True)`. */
  function NewestFirst(h: seq<Entry>): seq<Entry> {
    Sorting.Sort(h, NewerOrSame)
  }

  /** The newest first, as a permutation of the history that keeps entries of equal time in their order. */
  lemma NewestFirstSpec(h: seq<Entry>, k: Entry)
    ensures Sorting.SortedBy(NewestFirst(h), NewerOrSame)
    ensures multiset(NewestFirst(h)) == multiset(h)
    ensures Sorting.KeyClass(NewestFirst(h), k, NewerOrSame) == Sorting.KeyClass(h, k, NewerOrSame)
  {
    NewerOrSameIsPreorder();
    Sorting.SortSorted(h, NewerOrSame);
    Sorting.SortPermutation(h, NewerOrSame);
    Sorting.SortStable(h, k, NewerOrSame);
  }

  /** The index of the first entry at or after `from` whose `form_id` is `id`, or -1. */
  function FirstWithId(h: seq<Entry>, id: Json, from: nat): (r: int)
    requires from <= |h|
    ensures r == -1 || (from <= r < |h| && Lookup(h[r], "form_id") == id)
    ensures r == -1 ==> forall k :: from <= k < |h| ==> Lookup(h[k], "form_id") != id
    ensures r != -1 ==> forall k :: from <= k < r ==> Lookup(h[k], "form_id") != id
    decreases |h| - from
  {
    if from == |h| then -1
    else if Lookup(h[from], "form_id") == id then from
    else FirstWithId(h, id, from + 1)
  }

  /** The history with `info` in place of the first entry of its `form_id`, or appended. */
  function Upsert(h: seq<Entry>, info: Entry): seq<Entry> {
    var i := FirstWithId(h, Lookup(info, "form_id"), 0);
    if i >= 0 then h[i := info] else h + [info]
  }

  /**
   * The first entry with the same `form_id` (absent ids compare equal, as
   * `None == None`) is replaced and nothing else changes; with no such
   * entry `info` is appended. Either way `info` is in the result.
   */
  lemma UpsertSpec(h: seq<Entry>, info: Entry)
    ensures var id := Lookup(info, "form_id");
      var u := Upsert(h, info);
      && info in u
      && ((exists k :: 0 <= k < |h| && Lookup(h[k], "form_id") == id) ==>
            var i := FirstWithId(h, id, 0);
            && |u| == |h| && u[i] == info
            && (forall k :: 0 <= k < i ==> Lookup(h[k], "form_id") != id)
            && (forall k :: 0 <= k < |h| && k != i ==> u[k] == h[k]))
      && ((forall k :: 0 <= k < |h| ==> Lookup(h[k], "form_id") != id) ==> u == h + [info])
  {
    var u := Upsert(h, info);
    var i := FirstWithId(h, Lookup(info, "form_id"), 0);
    if i >= 0 {
      assert u[i] == info;
    } else {
      assert u[|h|] == info;
    }
  }

  /** Saving the same form twice leaves the history as saving it once. */
  lemma UpsertIdempotent(h: seq<Entry>, info: Entry)
    ensures Upsert(Upsert(h, info), info) == Upsert(h, info)
  {
    var id := Lookup(info, "form_id");
    var u := Upsert(h, info);
    var i := FirstWithId(h, id, 0);
    var j := if i >= 0 then i else |h|;
    assert Lookup(u[j], "form_id") == id;
    forall k | 0 <= k < j ensures Lookup(u[k], "form_id") != id {
      assert u[k] == h[k];
    }
    FirstWithIdAt(u, id, j);
    assert u[j := info] == u;
  }

  /** An entry that matches, with none before it, is what the search finds. */
  lemma {:induction false} FirstWithIdAt(h: seq<Entry>, id: Json, j: nat)
    requires j < |h| && Lookup(h[j], "form_id") == id
    requires forall k :: 0 <= k < j ==> Lookup(h[k], "form_id") != id
    ensures FirstWithId(h, id, 0) == j
  {
    FirstWithIdFrom(h, id, 0, j);
  }

  lemma {:induction false} FirstWithIdFrom(h: seq<Entry>, id: Json, from: nat, j: nat)
    requires from <= j < |h| && Lookup(h[j], "form_id") == id
    requires forall k :: from <= k < j ==> Lookup(h[k], "form_id") != id
    ensures FirstWithId(h, id, from) == j
    decreases j - from
  {
    if from < j {
      FirstWithIdFrom(h, id, from + 1, j);
    }
  }

  /** What the history file holds: no file, a file that cannot be read or parsed, or its entries. */
  datatype Stored = Missing | Unreadable | Loaded(entries: seq<Entry>)

  /** The history `save_form_config` writes back, or `None` when it gives up on an unreadable file. */
  function SavedHistory(stored: Stored, info: Entry): Option<seq<Entry>> {
    match stored
    case Missing => Some(NewestFirst(Upsert([], info)))
    case Unreadable => None
    case Loaded(h) => Some(NewestFirst(Upsert(h, info)))
  }

  /** The history part of `save_form_config`: the search loop, the replace or append, the sort. */
  method SaveFormHistory(stored: Stored, formInfo: Entry) returns (written: Option<seq<Entry>>)
    ensures written == SavedHistory(stored, formInfo)
  {
    if stored.Unreadable? {
      return None;  // the error is logged and the history is left as it was
    }
    var history: seq<Entry> := if stored.Loaded? then stored.entries else [];
    ghost var original := history;
    ghost var id := Lookup(formInfo, "form_id");
    var found := false;
    var i := 0;
    while i < |history|
      invariant 0 <= i <= |history| && history == original
      invariant forall k :: 0 <= k < i ==> Lookup(history[k], "form_id") != id
      decreases |history| - i
    {
      if Lookup(history[i], "form_id") == Lookup(formInfo, "form_id") {
        FirstWithIdAt(history, id, i);
        history := history[i := formInfo];
        found := true;
        break;
      }
      i := i + 1;
    }
    if !found {
      history := history + [formInfo];
    }
    history := Sorting.Sort(history, NewerOrSame);
    return Some(history);
  }

  /**
   * A saved history is newest first and holds the old entries, with the
   * form's entry replaced or added: the file never holds the same form
   * twice more than it did before.
   */
  lemma SavedHistorySpec(h: seq<Entry>, info: Entry)
    ensures var w := SavedHistory(Loaded(h), info).value;
      && Sorting.SortedBy(w, NewerOrSame)
      && multiset(w) == multiset(Upsert(h, info))
      && |h| <= |w| <= |h| + 1
      && info in w
  {
    var u := Upsert(h, info);
    NewerOrSameIsPreorder();
    Sorting.SortSorted(u, NewerOrSame);
    Sorting.SortPermutation(u, NewerOrSame);
    UpsertSpec(h, info);
    var w := SavedHistory(Loaded(h), info).value;
    assert info in multiset(w);
  }

  /** `load_form_history`: the three newest entries; `[]` without a readable file. */
  function LoadFormHistory(stored: Stored): (r: seq<Entry>)
    ensures |r| <= 3
    ensures !stored.Loaded? ==> r == []
  {
    match stored
    case Missing => []
    case Unreadable => []
    case Loaded(h) =>
      var s := NewestFirst(h);
      s[..if |s| < 3 then |s| else 3]
  }

  /**
   * The loaded list holds min(3, n) entries of the history, newest first,
   * and none of the entries it leaves out is newer than one it shows.
   */
  lemma LoadFormHistorySpec(h: seq<Entry>)
    ensures var r := LoadFormHistory(Loaded(h));
      && |r| == (if |h| < 3 then |h| else 3)
      && Sorting.SortedBy(r, NewerOrSame)
      && multiset(r) <= multiset(h)
      && (forall e, i :: e in multiset(h) - multiset(r) && 0 <= i < |r| ==> NewerOrSame(r[i], e))
  {
    var s := NewestFirst(h);
    NewerOrSameIsPreorder();
    Sorting.SortSorted(h, NewerOrSame);
    Sorting.SortPermutation(h, NewerOrSame);
    var n := if |s| < 3 then |s| else 3;
    Sorting.SortedPrefixFirst(s, n, NewerOrSame);
    assert LoadFormHistory(Loaded(h)) == s[..n];
  }

  /**
   * A form whose time is newer than every saved entry's is shown first the
   * next time the history is loaded.
   */
  lemma NewFormShownFirst(h: seq<Entry>, info: Entry)
    requires forall e :: e in h ==> !NewerOrSame(e, info)
    ensures var w := SavedHistory(Loaded(h), info).value;
      LoadFormHistory(Loaded(w))[0] == info
  {
    var u := Upsert(h, info);
    var w := NewestFirst(u);
    NewerOrSameIsPreorder();
    Sorting.SortSorted(u, NewerOrSame);
    Sorting.SortPermutation(u, NewerOrSame);
    UpsertSpec(h, info);
    assert info in multiset(w);
    var k :| 0 <= k < |w| && w[k] == info;
    if w[0] != info {
      assert k > 0 && NewerOrSame(w[0], info);
      assert w[0] in multiset(u);
      UpsertFrom(h, info, w[0]);
      assert false;
    }
    LoadOfSorted(w);
  }

  /** A history already newest first loads with its own head first. */
  lemma LoadOfSorted(w: seq<Entry>)
    requires Sorting.SortedBy(w, NewerOrSame) && w != []
    ensures LoadFormHistory(Loaded(w))[0] == w[0]
  {
    Sorting.SortOfSorted(w, NewerOrSame);
  }

  /** Every entry of the upserted history is `info` or an old entry. */
  lemma UpsertFrom(h: seq<Entry>, info: Entry, e: Entry)
    requires e in Upsert(h, info)
    ensures e == info || e in h
  {
    var u := Upsert(h, info);
    var i := FirstWithId(h, Lookup(info, "form_id"), 0);
    var k :| 0 <= k < |u| && u[k] == e;
    if i >= 0 {
      if k != i {
        assert e == h[k];
      }
    } else if k < |h| {
      assert e == h[k];
    }
  }
}
