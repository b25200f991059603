/**
 * `video_mapper`: joins the programme read from the concert leaflet, the
 * recorded segments and the form answers into the metadata the uploader
 * reads.
 *
 *  1. programme entry `i` (in `program_order`) goes with video `i` (in
 *     creation-time order), padding the shorter list with `None`;
 *  2. each form answer picks at most one programme/video pair, either by
 *     mutual substring match of name and piece, or by the best score
 *     of the Gemini judge, which is a parameter here;
 *  3. each matched pair becomes a title, a description, tags and a privacy
 *     setting.
 *
 * Dictionaries read from JSON are `map<string, Json>`; the records the
 * module builds itself are datatypes.
 */
module VideoMapper {
  import opened Wrappers
  import opened JsonValue
  import Strings
  import Sorting
  import VideoFiles
  import YoutubeUploader
  import Lists

  function Max(a: nat, b: nat): nat { if a >= b then a else b }
  function Min(a: nat, b: nat): nat { if a <= b then a else b }

  // ---------------------------------------------------------------------
  // get_video_files_sorted

  /** One entry of `video_info_list`; `created_time` is the ISO form of the timestamp. */
  datatype VideoInfo = VideoInfo(fileOrder: nat, filePath: string, fileName: string, createdTimestamp: int)

  function InfoOf(dir: string, e: VideoFiles.DirEntry, order: nat): VideoInfo {
    VideoInfo(order, Strings.PathJoin(dir, e.name), e.name, e.ctime)
  }

  /** The video files of `dir`, oldest first, numbered from 1. */
  method GetVideoFilesSorted(dir: string, entries: seq<VideoFiles.DirEntry>) returns (infos: seq<VideoInfo>)
    ensures var files := VideoFiles.SortedVideoFiles(entries);
            && |infos| == |files|
            && forall k :: 0 <= k < |infos| ==> infos[k] == InfoOf(dir, files[k], k + 1)
  {
    var files := VideoFiles.SortedVideoFiles(entries);
    infos := NumberVideos(dir, files);
  }

  /** The loop of `get_video_files_sorted` over the sorted files: `enumerate(video_files, 1)`. */
  method NumberVideos(dir: string, files: seq<VideoFiles.DirEntry>) returns (infos: seq<VideoInfo>)
    ensures |infos| == |files|
    ensures forall k :: 0 <= k < |infos| ==> infos[k] == InfoOf(dir, files[k], k + 1)
  {
    infos := [];
    for i := 0 to |files|
      invariant |infos| == i
      invariant forall k :: 0 <= k < i ==> infos[k] == InfoOf(dir, files[k], k + 1)
    {
      var f := files[i];
      infos := infos + [VideoInfo(i + 1, Strings.PathJoin(dir, f.name), f.name, f.ctime)];
    }
  }

  // ---------------------------------------------------------------------
  // The programme entries and their order

  /** The elements of a JSON list as dictionaries; `None` when one of them is not an object. */
  function Objects(items: seq<Json>): (r: Option<seq<map<string, Json>>>)
    ensures r.Some? <==> forall k :: 0 <= k < |items| ==> items[k].JObj?
    ensures r.Some? ==> |r.value| == |items| && forall k :: 0 <= k < |items| ==> items[k] == JObj(r.value[k])
  {
    if items == [] then Some([])
    else if !items[0].JObj? then None
    else match Objects(items[1..])
      case None => None
      case Some(rest) => Some([items[0].fields] + rest)
  }

  /**
   * `program_data.get("performances", [])` as `sorted` iterates it, each
   * element then asked for `.get`: a missing key is the empty list, an
   * empty string or dictionary iterates as nothing, a list must hold
   * dictionaries, and anything else raises.
   */
  function PerformanceList(programData: map<string, Json>): (r: Result<seq<map<string, Json>>, string>)
    ensures "performances" !in programData ==> r == Success([])
    ensures "performances" in programData && programData["performances"].JArr? ==>
      (r.Success? <==> forall k :: 0 <= k < |programData["performances"].items| ==> programData["performances"].items[k].JObj?)
    ensures "performances" in programData && !programData["performances"].JArr? ==>
      (r.Success? <==> !Truthy(programData["performances"]) && (programData["performances"].JStr? || programData["performances"].JObj?))
    ensures r.Success? && "performances" in programData && !programData["performances"].JArr? ==> r.value == []
  {
    if "performances" !in programData then Success([])
    else match programData["performances"]
      case JArr(items) =>
        (match Objects(items)
         case Some(ps) => Success(ps)
         case None => Failure("AttributeError: a performance is not a dictionary"))
      case JStr(s) => if s == [] then Success([]) else Failure("AttributeError: 'str' object has no attribute 'get'")
      case JObj(f) => if f == map[] then Success([]) else Failure("AttributeError: 'str' object has no attribute 'get'")
      case _ => Failure("TypeError: performances is not iterable")
  }

  /** A sort key `sorted` can compare: a number (a boolean counts as 0 or 1) or a string. */
  datatype SortKey = NumKey(n: real) | TextKey(t: string)

  /** `p.get("program_order", 999)` when it is a number or a string. */
  function OrderKey(p: map<string, Json>): (r: Option<SortKey>)
    ensures "program_order" !in p ==> r == Some(NumKey(999.0))
    ensures "program_order" in p ==> (r.Some? <==> p["program_order"].JNum? || p["program_order"].JBool? || p["program_order"].JStr?)
  {
    if "program_order" !in p then Some(NumKey(999.0))
    else match p["program_order"]
      case JNum(n) => Some(NumKey(n))
      case JBool(b) => Some(NumKey(if b then 1.0 else 0.0))
      case JStr(t) => Some(TextKey(t))
      case _ => None
  }

  /**
   * Python's `<=` on two keys of the same kind: numbers by value, strings
   * code point by code point. (Across kinds Python raises; numbers are put
   * first here only to make the order total.)
   */
  predicate KeyLe(a: SortKey, b: SortKey) {
    match (a, b)
    case (NumKey(x), NumKey(y)) => x <= y
    case (TextKey(x), TextKey(y)) => Strings.LexLe(x, y)
    case (NumKey(_), TextKey(_)) => true
    case (TextKey(_), NumKey(_)) => false
  }

  function ByProgramOrder(): (map<string, Json>, map<string, Json>) -> bool {
    (a: map<string, Json>, b: map<string, Json>) => KeyLe(OrderKey(a).GetOr(NumKey(0.0)), OrderKey(b).GetOr(NumKey(0.0)))
  }

  /** Every key is a number, or every key is a string: `sorted` then never compares across kinds. */
  predicate Orderable(ps: seq<map<string, Json>>) {
    || (forall k :: 0 <= k < |ps| ==> OrderKey(ps[k]).Some? && OrderKey(ps[k]).value.NumKey?)
    || (forall k :: 0 <= k < |ps| ==> OrderKey(ps[k]).Some? && OrderKey(ps[k]).value.TextKey?)
  }

  /**
   * `sorted(performances, key=...)`. With two or more entries each one is
   * compared with another, so a key that is neither a number nor a string,
   * or a mix of numbers and strings, raises.
   */
  function SortedPerformances(programData: map<string, Json>): Result<seq<map<string, Json>>, string> {
    match PerformanceList(programData)
    case Failure(e) => Failure(e)
    case Success(ps) =>
      if |ps| >= 2 && !Orderable(ps) then Failure("TypeError: program_order values cannot be compared")
      else Success(Sorting.Sort(ps, ByProgramOrder()))
  }

  lemma KeyLeTotal(a: SortKey, b: SortKey)
    ensures KeyLe(a, b) || KeyLe(b, a)
  {
    if a.TextKey? && b.TextKey? {
      Strings.LexLeTotal(a.t, b.t);
    }
  }

  lemma KeyLeTrans(a: SortKey, b: SortKey, c: SortKey)
    requires KeyLe(a, b) && KeyLe(b, c)
    ensures KeyLe(a, c)
  {
    if a.TextKey? && b.TextKey? && c.TextKey? {
      Strings.LexLeTrans(a.t, b.t, c.t);
    }
  }

  lemma ByProgramOrderTotal()
    ensures Sorting.TotalPreorder(ByProgramOrder())
  {
    var le := ByProgramOrder();
    forall a, b ensures le(a, b) || le(b, a) {
      KeyLeTotal(OrderKey(a).GetOr(NumKey(0.0)), OrderKey(b).GetOr(NumKey(0.0)));
    }
    forall a, b, c | le(a, b) && le(b, c) ensures le(a, c) {
      KeyLeTrans(OrderKey(a).GetOr(NumKey(0.0)), OrderKey(b).GetOr(NumKey(0.0)), OrderKey(c).GetOr(NumKey(0.0)));
    }
  }

  /**
   * The sorted programme is a permutation of the entries, in nondecreasing
   * `program_order` (999 where missing; numbers by value, strings as text),
   * entries with equal orders kept in their original order.
   */
  lemma SortedPerformancesSpec(programData: map<string, Json>, k: map<string, Json>)
    requires SortedPerformances(programData).Success?
    ensures PerformanceList(programData).Success?
    ensures var ps := PerformanceList(programData).value;
            var r := SortedPerformances(programData).value;
            && multiset(r) == multiset(ps)
            && (forall i, j :: 0 <= i < j < |r| ==> KeyLe(OrderKey(r[i]).GetOr(NumKey(0.0)), OrderKey(r[j]).GetOr(NumKey(0.0))))
            && Sorting.KeyClass(r, k, ByProgramOrder()) == Sorting.KeyClass(ps, k, ByProgramOrder())
  {
    var ps := PerformanceList(programData).value;
    var r := SortedPerformances(programData).value;
    ByProgramOrderTotal();
    Sorting.SortPermutation(ps, ByProgramOrder());
    Sorting.SortSorted(ps, ByProgramOrder());
    Sorting.SortStable(ps, k, ByProgramOrder());
    forall i, j | 0 <= i < j < |r|
      ensures KeyLe(OrderKey(r[i]).GetOr(NumKey(0.0)), OrderKey(r[j]).GetOr(NumKey(0.0)))
    {
      assert ByProgramOrder()(r[i], r[j]);
    }
  }

  /** Entries whose keys are all strings sort, as text (see SortedPerformancesSpec). */
  lemma TextOrdersSort(programData: map<string, Json>)
    requires PerformanceList(programData).Success?
    requires var ps := PerformanceList(programData).value;
             forall k :: 0 <= k < |ps| ==> "program_order" in ps[k] && ps[k]["program_order"].JStr?
    ensures SortedPerformances(programData).Success?
  {
    var ps: seq<map<string, Json>> := PerformanceList(programData).value;
    assert forall k :: 0 <= k < |ps| ==> OrderKey(ps[k]).Some? && OrderKey(ps[k]).value.TextKey?;
    assert Orderable(ps);
  }

  /** Two or more entries, one keyed by a string and one without a key (999): the sort raises. */
  lemma MixedOrdersRaise(programData: map<string, Json>, a: nat, b: nat)
    requires PerformanceList(programData).Success?
    requires var ps := PerformanceList(programData).value;
             && a < |ps| && b < |ps|
             && "program_order" in ps[a] && ps[a]["program_order"].JStr? && "program_order" !in ps[b]
    ensures SortedPerformances(programData).Failure?
  {
    var ps: seq<map<string, Json>> := PerformanceList(programData).value;
    assert OrderKey(ps[a]).value.TextKey? && OrderKey(ps[b]).value.NumKey?;
    assert a != b;
    assert !Orderable(ps);
  }

  // ---------------------------------------------------------------------
  // map_program_to_videos

  /** `program_data` with the three fields copied out of it (each `""` when missing). */
  datatype ProgramPart = ProgramPart(data: map<string, Json>, performerName: Json, pieceTitle: Json, pieceComposer: Json)

  /**
   * One mapping: `mapping_order`, `program_data` (with its copied fields)
   * and `video_data` (`video_file` and `video_name` are its path and name).
   */
  datatype Mapping = Mapping(mappingOrder: nat, program: Option<ProgramPart>, video: Option<VideoInfo>)

  function PartOf(p: map<string, Json>): ProgramPart {
    ProgramPart(p, Get(p, "performer_name", JStr("")), Get(p, "piece_title", JStr("")), Get(p, "piece_composer", JStr("")))
  }

  function MappingAt(perfs: seq<map<string, Json>>, videos: seq<VideoInfo>, i: nat): Mapping {
    Mapping(i + 1,
            if i < |perfs| then Some(PartOf(perfs[i])) else None,
            if i < |videos| then Some(videos[i]) else None)
  }

  /** The first `n` mappings. */
  function Mappings(perfs: seq<map<string, Json>>, videos: seq<VideoInfo>, n: nat): (r: seq<Mapping>)
    ensures |r| == n
  {
    if n == 0 then [] else Mappings(perfs, videos, n - 1) + [MappingAt(perfs, videos, n - 1)]
  }

  /** What `map_program_to_videos` returns, or the error `sorted` raises. */
  function ProgramVideoMappings(programData: map<string, Json>, videos: seq<VideoInfo>): Result<seq<Mapping>, string> {
    match SortedPerformances(programData)
    case Failure(e) => Failure(e)
    case Success(perfs) => Success(Mappings(perfs, videos, Max(|perfs|, |videos|)))
  }

  method MapProgramToVideos(programData: map<string, Json>, videos: seq<VideoInfo>)
    returns (r: Result<seq<Mapping>, string>)
    ensures r == ProgramVideoMappings(programData, videos)
  {
    var sorted := SortedPerformances(programData);
    if sorted.Failure? {
      return Failure(sorted.error);
    }
    var perfs := sorted.value;
    var maxCount := Max(|perfs|, |videos|);
    var mappings: seq<Mapping> := [];
    for i := 0 to maxCount
      invariant mappings == Mappings(perfs, videos, i)
    {
      var program: Option<ProgramPart> := None;
      if i < |perfs| {
        var perf := perfs[i];
        program := Some(ProgramPart(perf, Get(perf, "performer_name", JStr("")),
                                    Get(perf, "piece_title", JStr("")), Get(perf, "piece_composer", JStr(""))));
      }
      var video: Option<VideoInfo> := None;
      if i < |videos| {
        video := Some(videos[i]);
      }
      mappings := mappings + [Mapping(i + 1, program, video)];
    }
    return Success(mappings);
  }

  lemma {:induction false} MappingsAt(perfs: seq<map<string, Json>>, videos: seq<VideoInfo>, n: nat, i: nat)
    requires i < n
    ensures Mappings(perfs, videos, n)[i] == MappingAt(perfs, videos, i)
  {
    if i < n - 1 {
      MappingsAt(perfs, videos, n - 1, i);
    }
  }

  /** The programme entries the mappings carry, in order. */
  function ProgramsOf(ms: seq<Mapping>): seq<map<string, Json>> {
    if ms == [] then []
    else ProgramsOf(ms[..|ms| - 1]) + (if ms[|ms| - 1].program.Some? then [ms[|ms| - 1].program.value.data] else [])
  }

  /** The videos the mappings carry, in order. */
  function VideosOf(ms: seq<Mapping>): seq<VideoInfo> {
    if ms == [] then []
    else VideosOf(ms[..|ms| - 1]) + (if ms[|ms| - 1].video.Some? then [ms[|ms| - 1].video.value] else [])
  }

  /** Mappings whose `i`-th programme entry is `perfs[i]` while `i` is in range, and absent after, carry `perfs` in order. */
  lemma {:induction false} ProgramsOfPrefix(ms: seq<Mapping>, perfs: seq<map<string, Json>>)
    requires forall i :: 0 <= i < |ms| ==> (ms[i].program.Some? <==> i < |perfs|)
    requires forall i :: 0 <= i < |ms| && i < |perfs| ==> ms[i].program.value.data == perfs[i]
    ensures ProgramsOf(ms) == perfs[..Min(|ms|, |perfs|)]
  {
    if ms != [] {
      var n := |ms|;
      ProgramsOfPrefix(ms[..n - 1], perfs);
      if n - 1 < |perfs| {
        assert perfs[..n] == perfs[..n - 1] + [perfs[n - 1]];
      }
    }
  }

  /** The same for the videos. */
  lemma {:induction false} VideosOfPrefix(ms: seq<Mapping>, videos: seq<VideoInfo>)
    requires forall i :: 0 <= i < |ms| ==> ms[i].video == (if i < |videos| then Some(videos[i]) else None)
    ensures VideosOf(ms) == videos[..Min(|ms|, |videos|)]
  {
    if ms != [] {
      var n := |ms|;
      VideosOfPrefix(ms[..n - 1], videos);
      if n - 1 < |videos| {
        assert videos[..n] == videos[..n - 1] + [videos[n - 1]];
      }
    }
  }

  lemma ProgramsOfMappings(perfs: seq<map<string, Json>>, videos: seq<VideoInfo>, n: nat)
    ensures ProgramsOf(Mappings(perfs, videos, n)) == perfs[..Min(n, |perfs|)]
  {
    var ms := Mappings(perfs, videos, n);
    forall i | 0 <= i < n ensures ms[i] == MappingAt(perfs, videos, i) {
      MappingsAt(perfs, videos, n, i);
    }
    ProgramsOfPrefix(ms, perfs);
  }

  lemma VideosOfMappings(perfs: seq<map<string, Json>>, videos: seq<VideoInfo>, n: nat)
    ensures VideosOf(Mappings(perfs, videos, n)) == videos[..Min(n, |videos|)]
  {
    var ms := Mappings(perfs, videos, n);
    forall i | 0 <= i < n ensures ms[i] == MappingAt(perfs, videos, i) {
      MappingsAt(perfs, videos, n, i);
    }
    VideosOfPrefix(ms, videos);
  }

  /**
   * Positional zip with padding: `max(#performances, #videos)` mappings
   * numbered from 1; mapping `i` has a programme entry iff `i` is below the
   * number of performances and a video iff it is below the number of
   * videos; read off in order, the mappings give back every sorted
   * performance and every video, each once.
   */
  lemma MappingsZip(programData: map<string, Json>, videos: seq<VideoInfo>)
    requires ProgramVideoMappings(programData, videos).Success?
    ensures var perfs := SortedPerformances(programData).value;
            var ms := ProgramVideoMappings(programData, videos).value;
            && |ms| == Max(|perfs|, |videos|)
            && ProgramsOf(ms) == perfs
            && VideosOf(ms) == videos
            && forall i :: 0 <= i < |ms| ==>
                 && ms[i].mappingOrder == i + 1
                 && (ms[i].program.Some? <==> i < |perfs|)
                 && (ms[i].video.Some? <==> i < |videos|)
                 && (i < |perfs| ==> ms[i].program.value.data == perfs[i])
                 && (i < |videos| ==> ms[i].video.value == videos[i])
  {
    var perfs := SortedPerformances(programData).value;
    assert ProgramVideoMappings(programData, videos).value == Mappings(perfs, videos, Max(|perfs|, |videos|));
    ZipShape(perfs, videos);
  }

  /** `MappingsZip` for the sorted performances `perfs`. */
  lemma ZipShape(perfs: seq<map<string, Json>>, videos: seq<VideoInfo>)
    ensures var ms := Mappings(perfs, videos, Max(|perfs|, |videos|));
            && ProgramsOf(ms) == perfs
            && VideosOf(ms) == videos
            && forall i :: 0 <= i < |ms| ==>
                 && ms[i].mappingOrder == i + 1
                 && (ms[i].program.Some? <==> i < |perfs|)
                 && (ms[i].video.Some? <==> i < |videos|)
                 && (i < |perfs| ==> ms[i].program.value.data == perfs[i])
                 && (i < |videos| ==> ms[i].video.value == videos[i])
  {
    var n := Max(|perfs|, |videos|);
    var ms := Mappings(perfs, videos, n);
    ProgramsOfMappings(perfs, videos, n);
    VideosOfMappings(perfs, videos, n);
    assert perfs[..|perfs|] == perfs;
    assert videos[..|videos|] == videos;
    forall i | 0 <= i < n
      ensures && ms[i].mappingOrder == i + 1
              && (ms[i].program.Some? <==> i < |perfs|)
              && (ms[i].video.Some? <==> i < |videos|)
              && (i < |perfs| ==> ms[i].program.value.data == perfs[i])
              && (i < |videos| ==> ms[i].video.value == videos[i])
    {
      MappingsAt(perfs, videos, n, i);
    }
  }

  // ---------------------------------------------------------------------
  // map_with_form_responses

  /** `mapping.get("program_data")` and `mapping.get("video_data")` are both truthy. */
  predicate Eligible(m: Mapping) {
    m.program.Some? && m.program.value.data != map[] && m.video.Some?
  }

  function TextOf(j: Json): string {
    if j.JStr? then j.s else ""
  }

  /** `mapping.get("performer_name", "")`. */
  function ProgramName(m: Mapping): string {
    if m.program.Some? then TextOf(m.program.value.performerName) else ""
  }

  /** `mapping.get("piece_title", "")`. */
  function ProgramPiece(m: Mapping): string {
    if m.program.Some? then TextOf(m.program.value.pieceTitle) else ""
  }

  /** `a in b or b in a`. */
  predicate MutualContains(a: string, b: string) {
    Strings.Contains(b, a) || Strings.Contains(a, b)
  }

  /** The string match used without Gemini: names and pieces each contain one another. */
  predicate SimpleHit(m: Mapping, formName: string, formPiece: string) {
    Eligible(m) && MutualContains(formName, ProgramName(m)) && MutualContains(formPiece, ProgramPiece(m))
  }

  /** The first string match at or after `k`. */
  function FirstSimpleFrom(ms: seq<Mapping>, formName: string, formPiece: string, k: nat): (r: Option<nat>)
    requires k <= |ms|
    ensures r.Some? ==> k <= r.value < |ms| && SimpleHit(ms[r.value], formName, formPiece)
    ensures r.Some? ==> forall j :: k <= j < r.value ==> !SimpleHit(ms[j], formName, formPiece)
    ensures r.None? ==> forall j :: k <= j < |ms| ==> !SimpleHit(ms[j], formName, formPiece)
    decreases |ms| - k
  {
    if k == |ms| then None
    else if SimpleHit(ms[k], formName, formPiece) then Some(k)
    else FirstSimpleFrom(ms, formName, formPiece, k + 1)
  }

  /** What the judge answers: `(is_match, confidence_score, reason)`. */
  datatype Verdict = Verdict(isMatch: bool, confidence: real, reason: string)

  /** The Gemini judge, on (programme performer, programme piece, form performer, form piece). */
  type Judge = (string, string, string, string) -> Verdict

  function VerdictAt(ms: seq<Mapping>, k: nat, formName: string, formPiece: string, judge: Judge): Verdict
    requires k < |ms|
  {
    judge(ProgramName(ms[k]), ProgramPiece(ms[k]), formName, formPiece)
  }

  /** A mapping the judge accepts. */
  predicate JudgeHit(ms: seq<Mapping>, k: nat, formName: string, formPiece: string, judge: Judge)
    requires k < |ms|
  {
    Eligible(ms[k]) && VerdictAt(ms, k, formName, formPiece, judge).isMatch
  }

  /** `best_match`, `best_score`, `best_reason` once a mapping has been chosen. */
  datatype Match = Match(index: nat, score: real, reason: string)

  /** `best_score`: 0.0 until something is chosen. */
  function Score(b: Option<Match>): real {
    if b.Some? then b.value.score else 0.0
  }

  /** The Gemini choice over the first `n` mappings: replaced only on a strictly greater score. */
  function JudgeBest(ms: seq<Mapping>, formName: string, formPiece: string, judge: Judge, n: nat): Option<Match>
    requires n <= |ms|
  {
    if n == 0 then None
    else
      var prev := JudgeBest(ms, formName, formPiece, judge, n - 1);
      var v := VerdictAt(ms, n - 1, formName, formPiece, judge);
      if Eligible(ms[n - 1]) && v.isMatch && v.confidence > Score(prev) then Some(Match(n - 1, v.confidence, v.reason))
      else prev
  }

  /**
   * The Gemini choice is a mapping the judge accepts with a positive
   * score, no accepted mapping scores more, and every accepted mapping
   * before it scores strictly less (the first maximum wins); when nothing
   * is chosen, no accepted mapping has a positive score.
   */
  lemma {:induction false} JudgeBestSpec(ms: seq<Mapping>, formName: string, formPiece: string, judge: Judge, n: nat)
    requires n <= |ms|
    ensures var b := JudgeBest(ms, formName, formPiece, judge, n);
            && (b.Some? ==>
                 && b.value.index < n
                 && JudgeHit(ms, b.value.index, formName, formPiece, judge)
                 && b.value.score == VerdictAt(ms, b.value.index, formName, formPiece, judge).confidence
                 && b.value.reason == VerdictAt(ms, b.value.index, formName, formPiece, judge).reason
                 && b.value.score > 0.0
                 && (forall k :: 0 <= k < n && JudgeHit(ms, k, formName, formPiece, judge) ==>
                       VerdictAt(ms, k, formName, formPiece, judge).confidence <= b.value.score)
                 && (forall k :: 0 <= k < b.value.index && JudgeHit(ms, k, formName, formPiece, judge) ==>
                       VerdictAt(ms, k, formName, formPiece, judge).confidence < b.value.score))
            && (b.None? ==>
                 forall k :: 0 <= k < n && JudgeHit(ms, k, formName, formPiece, judge) ==>
                   VerdictAt(ms, k, formName, formPiece, judge).confidence <= 0.0)
  {
    if n > 0 {
      JudgeBestSpec(ms, formName, formPiece, judge, n - 1);
    }
  }

  /** The confidence the string match reports. */
  const SimpleConfidence: real := 80.0
  const SimpleReason: string := "文字列部分一致"

  /** The chosen mapping for one form answer, if any. */
  function Choose(ms: seq<Mapping>, formName: string, formPiece: string, useGemini: bool, judge: Judge): Option<Match> {
    if useGemini then JudgeBest(ms, formName, formPiece, judge, |ms|)
    else match FirstSimpleFrom(ms, formName, formPiece, 0)
      case Some(k) => Some(Match(k, SimpleConfidence, SimpleReason))
      case None => None
  }

  /** Whatever is chosen is one of the mappings, and has both a programme entry and a video. */
  lemma ChooseEligible(ms: seq<Mapping>, formName: string, formPiece: string, useGemini: bool, judge: Judge)
    ensures var c := Choose(ms, formName, formPiece, useGemini, judge);
            c.Some? ==> c.value.index < |ms| && Eligible(ms[c.value.index])
  {
    JudgeBestSpec(ms, formName, formPiece, judge, |ms|);
  }

  /** The inner loop over the mappings for one form answer. */
  method BestMatch(ms: seq<Mapping>, formName: string, formPiece: string, useGemini: bool, judge: Judge)
    returns (best: Option<Match>)
    ensures best == Choose(ms, formName, formPiece, useGemini, judge)
  {
    best := None;
    var k := 0;
    while k < |ms|
      invariant k <= |ms|
      invariant useGemini ==> best == JudgeBest(ms, formName, formPiece, judge, k)
      invariant !useGemini ==> best.None? && FirstSimpleFrom(ms, formName, formPiece, 0) == FirstSimpleFrom(ms, formName, formPiece, k)
    {
      var m := ms[k];
      if Eligible(m) {
        var programName := ProgramName(m);
        var programPiece := ProgramPiece(m);
        if useGemini {
          var v := judge(programName, programPiece, formName, formPiece);
          if v.isMatch && v.confidence > Score(best) {
            best := Some(Match(k, v.confidence, v.reason));
          }
        } else {
          var nameMatch := Strings.Contains(programName, formName) || Strings.Contains(formName, programName);
          var pieceMatch := Strings.Contains(programPiece, formPiece) || Strings.Contains(formPiece, programPiece);
          if nameMatch && pieceMatch {
            assert SimpleHit(m, formName, formPiece);
            best := Some(Match(k, SimpleConfidence, SimpleReason));
            return;
          }
        }
      }
      assert !useGemini ==> !SimpleHit(ms[k], formName, formPiece);
      assert useGemini ==> best == JudgeBest(ms, formName, formPiece, judge, k + 1);
      k := k + 1;
    }
  }

  /** `{**best_match, "form_response": ..., "confidence_score": ..., "match_reason": ..., "matched": True}`. */
  datatype FinalMapping = FinalMapping(mapping: Mapping, formResponse: map<string, Json>, confidenceScore: real, matchReason: string)

  function FormName(resp: map<string, Json>): string { TextField(resp, "name", "") }
  function FormPiece(resp: map<string, Json>): string { TextField(resp, "piece_title", "") }

  function ChooseFor(ms: seq<Mapping>, resp: map<string, Json>, useGemini: bool, judge: Judge): Option<Match> {
    Choose(ms, FormName(resp), FormPiece(resp), useGemini, judge)
  }

  /** The result for one form answer: the chosen mapping with the answer attached, or nothing. */
  function FinalOne(ms: seq<Mapping>, resp: map<string, Json>, useGemini: bool, judge: Judge): Option<FinalMapping> {
    match ChooseFor(ms, resp, useGemini, judge)
    case Some(b) => if b.index < |ms| then Some(FinalMapping(ms[b.index], resp, b.score, b.reason)) else None
    case None => None
  }

  function Picker(ms: seq<Mapping>, useGemini: bool, judge: Judge): (nat, map<string, Json>) -> Option<FinalMapping> {
    (i: nat, resp: map<string, Json>) => FinalOne(ms, resp, useGemini, judge)
  }

  /** The results for the first `n` form answers. */
  function Finals(ms: seq<Mapping>, responses: seq<map<string, Json>>, useGemini: bool, judge: Judge, n: nat): seq<FinalMapping>
    requires n <= |responses|
  {
    Lists.Gather(Picker(ms, useGemini, judge), responses, n)
  }

  predicate AllHaveIds(responses: seq<map<string, Json>>) {
    forall k :: 0 <= k < |responses| ==> "response_id" in responses[k]
  }

  /** What `map_with_form_responses` returns; the log line reading `form_resp['response_id']` raises without it. */
  function MatchResponses(ms: seq<Mapping>, responses: seq<map<string, Json>>, useGemini: bool, judge: Judge)
    : Result<seq<FinalMapping>, string>
  {
    if AllHaveIds(responses) then Success(Finals(ms, responses, useGemini, judge, |responses|))
    else Failure("KeyError: 'response_id'")
  }

  method MapWithFormResponses(ms: seq<Mapping>, responses: seq<map<string, Json>>, useGemini: bool, judge: Judge)
    returns (r: Result<seq<FinalMapping>, string>)
    ensures r == MatchResponses(ms, responses, useGemini, judge)
  {
    var finalMappings: seq<FinalMapping> := [];
    for i := 0 to |responses|
      invariant finalMappings == Finals(ms, responses, useGemini, judge, i)
      invariant forall k :: 0 <= k < i ==> "response_id" in responses[k]
    {
      var formResp := responses[i];
      var formName := TextField(formResp, "name", "");
      var formPiece := TextField(formResp, "piece_title", "");
      if "response_id" !in formResp {
        return Failure("KeyError: 'response_id'");
      }
      var best := BestMatch(ms, formName, formPiece, useGemini, judge);
      ChooseEligible(ms, formName, formPiece, useGemini, judge);
      if best.Some? {
        finalMappings := finalMappings + [FinalMapping(ms[best.value.index], formResp, best.value.score, best.value.reason)];
      }
    }
    return Success(finalMappings);
  }

  /**
   * At most one result per form answer, in answer order: result `j` comes
   * from answer `idx[j]`, the indexes strictly increase, and an answer has
   * a result iff something was chosen for it. Every result is one of the
   * mappings and has both a programme entry and a video.
   */
  lemma FinalsOrigin(ms: seq<Mapping>, responses: seq<map<string, Json>>, useGemini: bool, judge: Judge)
    returns (idx: seq<nat>)
    ensures var fs := Finals(ms, responses, useGemini, judge, |responses|);
            && |idx| == |fs| <= |responses|
            && (forall j :: 0 <= j < |idx| ==> idx[j] < |responses| && fs[j].formResponse == responses[idx[j]])
            && (forall j, j' :: 0 <= j < j' < |idx| ==> idx[j] < idx[j'])
            && (forall j :: 0 <= j < |fs| ==> Eligible(fs[j].mapping) && fs[j].mapping in ms)
            && (forall i :: 0 <= i < |responses| ==> (ChooseFor(ms, responses[i], useGemini, judge).Some? <==> i in idx))
  {
    var f := Picker(ms, useGemini, judge);
    var fs := Finals(ms, responses, useGemini, judge, |responses|);
    idx := Lists.GatherOrigin(f, responses, |responses|);
    forall i | 0 <= i < |responses|
      ensures ChooseFor(ms, responses[i], useGemini, judge).Some? <==> f(i, responses[i]).Some?
    {
      ChooseEligible(ms, FormName(responses[i]), FormPiece(responses[i]), useGemini, judge);
    }
    forall j | 0 <= j < |idx|
      ensures fs[j].formResponse == responses[idx[j]] && Eligible(fs[j].mapping) && fs[j].mapping in ms
    {
      var resp := responses[idx[j]];
      ChooseEligible(ms, FormName(resp), FormPiece(resp), useGemini, judge);
      assert f(idx[j], resp) == Some(fs[j]);
    }
  }

  // ---------------------------------------------------------------------
  // generate_upload_metadata

  /** One entry of `videos` in `upload_metadata.json`. */
  datatype VideoMetadata = VideoMetadata(title: string, description: string, tags: seq<string>, privacyStatus: Json, playlistId: string)

  const FixedTags: seq<string> := ["ピアノ", "クラシック", "コンサート"]
  const MaxTitleLength: nat := 100
  const MaxDescriptionLength: nat := 5000
  const Footer: string := "\n※この動画は自動編集ソフトウェアにより処理されています"

  /** `mapping.get("program_data", {})` is a dictionary: the `.get` calls on it raise on `None`. */
  predicate HasProgramData(fm: FinalMapping) {
    fm.mapping.program.Some?
  }

  /** `concert_info` is falsy, or a dictionary (`.get` raises on anything else). */
  predicate ConcertReadable(concert: Json) {
    !Truthy(concert) || concert.JObj?
  }

  function ProgramData(fm: FinalMapping): map<string, Json> {
    if fm.mapping.program.Some? then fm.mapping.program.value.data else map[]
  }

  /** The performer's name, or "" when the answer asks for it to be hidden. */
  function Performer(fm: FinalMapping): string {
    if !Truthy(Get(fm.formResponse, "display_name", JBool(true))) then ""
    else TextField(ProgramData(fm), "performer_name", "")
  }

  /** The programme's title for the piece, else the one in the answer. */
  function Piece(fm: FinalMapping): string {
    TextField(ProgramData(fm), "piece_title", TextField(fm.formResponse, "piece_title", ""))
  }

  function Composer(fm: FinalMapping): string {
    TextField(ProgramData(fm), "piece_composer", "")
  }

  function FullTitle(piece: string, performer: string): string {
    if performer != "" then piece + " - " + performer else piece
  }

  /** `s[:n]`. */
  function Truncate(s: string, n: nat): (r: string)
    ensures |r| == Min(|s|, n) && r <= s
  {
    if |s| <= n then s else s[..n]
  }

  /** The parts before the piece: the concert line, then the performer line. */
  function DescriptionOpening(fm: FinalMapping, concert: Json): seq<string> {
    (if Truthy(concert) && concert.JObj? then [TextField(concert.fields, "title", "コンサート") + "での演奏\n"] else [])
    + (if Performer(fm) != "" then ["演奏者: " + Performer(fm)] else [])
  }

  /** The parts after the piece: the composer, the answer's extra text, the notice. */
  function DescriptionClosing(fm: FinalMapping): seq<string> {
    var extra := TextField(fm.formResponse, "description_extra", "");
    (if Composer(fm) != "" then ["作曲: " + Composer(fm)] else [])
    + (if extra != "" then ["\n" + extra] else [])
    + [Footer]
  }

  /** `description_parts`. */
  function DescriptionParts(fm: FinalMapping, concert: Json): seq<string> {
    DescriptionOpening(fm, concert) + ["曲名: " + Piece(fm)] + DescriptionClosing(fm)
  }

  /** `sep.join(parts)`. */
  function Join(sep: string, parts: seq<string>): string {
    if parts == [] then []
    else if |parts| == 1 then parts[0]
    else Join(sep, parts[..|parts| - 1]) + sep + parts[|parts| - 1]
  }

  function Tags(composer: string): seq<string> {
    FixedTags + (if composer != "" then [composer] else [])
  }

  function MetadataFor(fm: FinalMapping, concert: Json): VideoMetadata {
    VideoMetadata(
      Truncate(FullTitle(Piece(fm), Performer(fm)), MaxTitleLength),
      Truncate(Join("\n", DescriptionParts(fm, concert)), MaxDescriptionLength),
      Tags(Composer(fm)),
      Get(fm.formResponse, "privacy", JStr("unlisted")),
      "")
  }

  function Strs(xs: seq<string>): (r: seq<Json>)
    ensures |r| == |xs| && forall k :: 0 <= k < |xs| ==> r[k] == JStr(xs[k])
  {
    if xs == [] then [] else [JStr(xs[0])] + Strs(xs[1..])
  }

  function ToJson(v: VideoMetadata): Json {
    JObj(map["title" := JStr(v.title), "description" := JStr(v.description), "tags" := JArr(Strs(v.tags)),
             "privacy_status" := v.privacyStatus, "playlist_id" := JStr(v.playlistId)])
  }

  function MetadataEntry(concert: Json): FinalMapping -> Json {
    fm => ToJson(MetadataFor(fm, concert))
  }

  /** The `videos` list for the first `n` matched entries. */
  function MetadataItems(fms: seq<FinalMapping>, concert: Json, n: nat): (r: seq<Json>)
    requires n <= |fms|
    ensures |r| == n
  {
    Lists.MapPrefix(MetadataEntry(concert), fms, n)
  }

  /** `{"videos": [...]}`. */
  function UploadMetadata(fms: seq<FinalMapping>, concert: Json): Json {
    JObj(map["videos" := JArr(MetadataItems(fms, concert, |fms|))])
  }

  /**
   * The loop calls `.get` on each entry's `program_data` and, for a truthy
   * `concert_info`, on that too, so it raises `AttributeError` exactly when
   * it reaches an entry at all and some entry has no programme data or the
   * concert information is not a dictionary.
   */
  predicate MetadataRaises(fms: seq<FinalMapping>, concert: Json) {
    |fms| > 0 && !AllEntriesReadable(fms, concert, |fms|)
  }

  /** The loop gets past its first `n` entries: each has programme data, and `concert_info` can be read. */
  predicate AllEntriesReadable(fms: seq<FinalMapping>, concert: Json, n: int) {
    forall k :: 0 <= k < n && k < |fms| ==> HasProgramData(fms[k]) && ConcertReadable(concert)
  }

  /** What `generate_upload_metadata` returns, or the exception it raises. */
  function GeneratedMetadata(fms: seq<FinalMapping>, concert: Json): Result<Json, string> {
    if MetadataRaises(fms, concert) then Failure("AttributeError: object has no attribute 'get'")
    else Success(UploadMetadata(fms, concert))
  }

  method GenerateUploadMetadata(fms: seq<FinalMapping>, concert: Json) returns (result: Result<Json, string>)
    ensures result == GeneratedMetadata(fms, concert)
  {
    var videos: seq<Json> := [];
    for i := 0 to |fms|
      invariant videos == MetadataItems(fms, concert, i) && AllEntriesReadable(fms, concert, i)
    {
      if !HasProgramData(fms[i]) || !ConcertReadable(concert) {
        MetadataStopsAt(fms, concert, i);
        return Failure("AttributeError: object has no attribute 'get'");
      }
      MetadataStep(fms, concert, i);
      var md := MetadataFor(fms[i], concert);
      videos := videos + [ToJson(md)];
    }
    MetadataCompletes(fms, concert);
    result := Success(JObj(map["videos" := JArr(videos)]));
  }

  /** An entry the loop cannot read makes the whole call raise. */
  lemma MetadataStopsAt(fms: seq<FinalMapping>, concert: Json, i: nat)
    requires i < |fms| && !(HasProgramData(fms[i]) && ConcertReadable(concert))
    ensures GeneratedMetadata(fms, concert) == Failure("AttributeError: object has no attribute 'get'")
  {
    assert !AllEntriesReadable(fms, concert, |fms|);
  }

  /** One readable entry more: the loop appends its metadata and keeps going. */
  lemma MetadataStep(fms: seq<FinalMapping>, concert: Json, i: nat)
    requires i < |fms| && AllEntriesReadable(fms, concert, i) && HasProgramData(fms[i]) && ConcertReadable(concert)
    ensures AllEntriesReadable(fms, concert, i + 1)
    ensures MetadataItems(fms, concert, i + 1) == MetadataItems(fms, concert, i) + [ToJson(MetadataFor(fms[i], concert))]
  {
    assert MetadataEntry(concert)(fms[i]) == ToJson(MetadataFor(fms[i], concert));
  }

  /** Every entry read: the call returns the full `videos` list. */
  lemma MetadataCompletes(fms: seq<FinalMapping>, concert: Json)
    requires AllEntriesReadable(fms, concert, |fms|)
    ensures GeneratedMetadata(fms, concert) == Success(JObj(map["videos" := JArr(MetadataItems(fms, concert, |fms|))]))
  {
  }

  /**
   * Without entries nothing is read, so any `concert_info` gives an empty
   * list; with entries, a truthy non-dictionary `concert_info` raises.
   */
  lemma MetadataConcertCases(fms: seq<FinalMapping>, concert: Json)
    ensures fms == [] ==> GeneratedMetadata(fms, concert) == Success(JObj(map["videos" := JArr([])]))
    ensures |fms| > 0 && Truthy(concert) && !concert.JObj? ==> GeneratedMetadata(fms, concert).Failure?
    ensures (exists k :: 0 <= k < |fms| && !HasProgramData(fms[k])) ==> GeneratedMetadata(fms, concert).Failure?
    ensures (forall k :: 0 <= k < |fms| ==> HasProgramData(fms[k])) && ConcertReadable(concert) ==>
              GeneratedMetadata(fms, concert) == Success(UploadMetadata(fms, concert))
  {
    if fms == [] {
      assert MetadataItems(fms, concert, 0) == [];
    } else if !ConcertReadable(concert) {
      assert !(HasProgramData(fms[0]) && ConcertReadable(concert));
      assert MetadataRaises(fms, concert);
    } else if exists k :: 0 <= k < |fms| && !HasProgramData(fms[k]) {
      var k :| 0 <= k < |fms| && !HasProgramData(fms[k]);
      assert !(HasProgramData(fms[k]) && ConcertReadable(concert));
      assert MetadataRaises(fms, concert);
    } else {
      assert !MetadataRaises(fms, concert);
    }
  }

  lemma MetadataItemsAt(fms: seq<FinalMapping>, concert: Json, k: nat)
    requires k < |fms|
    ensures MetadataItems(fms, concert, |fms|)[k] == ToJson(MetadataFor(fms[k], concert))
  {
    Lists.MapPrefixAt(MetadataEntry(concert), fms, |fms|, k);
  }

  /**
   * The title is at most 100 characters, a prefix of "piece - performer"
   * (or of the piece alone when there is no performer to show), the whole
   * of it when that fits, and starts with the piece's title.
   */
  lemma MetadataTitle(fm: FinalMapping, concert: Json)
    ensures var t := MetadataFor(fm, concert).title;
            var full := FullTitle(Piece(fm), Performer(fm));
            && |t| <= MaxTitleLength
            && t <= full
            && (|full| <= MaxTitleLength ==> t == full)
            && Truncate(Piece(fm), MaxTitleLength) <= t
  {
    var piece := Piece(fm);
    var full := FullTitle(piece, Performer(fm));
    assert piece <= full;
    var t := Truncate(full, MaxTitleLength);
    var p := Truncate(piece, MaxTitleLength);
    assert forall i :: 0 <= i < |p| ==> p[i] == t[i];
  }

  /** A falsy `display_name` hides the performer: the title is the piece's title alone. */
  lemma HiddenPerformer(fm: FinalMapping, concert: Json)
    requires !Truthy(Get(fm.formResponse, "display_name", JBool(true)))
    ensures Performer(fm) == ""
    ensures MetadataFor(fm, concert).title == Truncate(Piece(fm), MaxTitleLength)
  {
  }

  /** Three fixed tags, and the composer as a fourth exactly when there is one. */
  lemma MetadataTags(fm: FinalMapping, concert: Json)
    ensures var tags := MetadataFor(fm, concert).tags;
            && tags[..3] == FixedTags
            && (|tags| == 4 <==> Composer(fm) != "")
            && (|tags| == 3 <==> Composer(fm) == "")
            && (|tags| == 4 ==> tags[3] == Composer(fm))
  {
  }

  /** The privacy comes from the answer, "unlisted" when it has none; the playlist is always empty. */
  lemma MetadataPrivacy(fm: FinalMapping, concert: Json)
    ensures var md := MetadataFor(fm, concert);
            && ("privacy" !in fm.formResponse ==> md.privacyStatus == JStr("unlisted"))
            && ("privacy" in fm.formResponse ==> md.privacyStatus == fm.formResponse["privacy"])
            && md.playlistId == ""
  {
  }

  /** A joined string contains each of its parts. */
  lemma {:induction false} JoinContains(sep: string, parts: seq<string>, k: nat)
    requires k < |parts|
    ensures Strings.Contains(Join(sep, parts), parts[k])
  {
    var init := parts[..|parts| - 1];
    var last := parts[|parts| - 1];
    if |parts| == 1 {
      Strings.ContainsPiece([], parts[0], []);
      assert [] + parts[0] + [] == parts[0];
    } else if k == |parts| - 1 {
      Strings.ContainsPiece(Join(sep, init) + sep, last, []);
      assert Join(sep, init) + sep + last + [] == Join(sep, parts);
    } else {
      JoinContains(sep, init, k);
      assert init[k] == parts[k];
      Strings.ContainsWiden([], Join(sep, init), sep + last, parts[k]);
      assert [] + Join(sep, init) + (sep + last) == Join(sep, parts);
    }
  }

  /**
   * The description is at most 5000 characters and a prefix of the
   * joined parts, which name the piece and end with the notice about
   * automatic editing.
   */
  lemma MetadataDescription(fm: FinalMapping, concert: Json)
    ensures var md := MetadataFor(fm, concert);
            var parts := DescriptionParts(fm, concert);
            var whole := Join("\n", parts);
            && |md.description| <= MaxDescriptionLength
            && md.description <= whole
            && parts[|parts| - 1] == Footer
            && Strings.Contains(whole, "曲名: " + Piece(fm))
            && Strings.Contains(whole, Footer)
  {
    var parts := DescriptionParts(fm, concert);
    var i := |DescriptionOpening(fm, concert)|;
    assert parts[i] == "曲名: " + Piece(fm);
    JoinContains("\n", parts, i);
    JoinContains("\n", parts, |parts| - 1);
  }

  /**
   * What the mapper writes is what the uploader reads: the `videos` list
   * has one entry per matched mapping, in order, so the count check passes
   * when there are as many video files as matched mappings.
   */
  lemma UploaderReadsMetadata(fms: seq<FinalMapping>, concert: Json, videoCount: nat)
    requires videoCount == |fms|
    ensures var m := UploadMetadata(fms, concert);
            && m.JObj?
            && YoutubeUploader.VideoList(m.fields).Some?
            && |YoutubeUploader.VideoList(m.fields).value| == |fms|
            && (forall k :: 0 <= k < |fms| ==> YoutubeUploader.VideoList(m.fields).value[k] == ToJson(MetadataFor(fms[k], concert)))
            && YoutubeUploader.ValidateMetadataMapping(videoCount, YoutubeUploader.VideoList(m.fields).value).Valid?
  {
    forall k | 0 <= k < |fms| ensures MetadataItems(fms, concert, |fms|)[k] == ToJson(MetadataFor(fms[k], concert)) {
      MetadataItemsAt(fms, concert, k);
    }
  }
}
