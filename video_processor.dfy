/**
 * `video_processor`: the consensus over audio-sync samples, the progress
 * parser of the ffmpeg runner, and the plan `process_pair` carries out for
 * one video/audio pair (configuration merge, sync samples, audio mode and
 * ffmpeg command per detected segment).
 */
module VideoProcessor {
  import opened Wrappers
  import opened JsonValue
  import Sorting
  import Strings
  import VideoUtils
  import DetectPerformances

  // ---------------------------------------------------------------------
  // get_consensus_offset

  function Abs(x: real): real {
    if x < 0.0 then -x else x
  }

  /** `[o for o in s if abs(o - c) <= tol]`, in the order of `s`. */
  function Cluster(s: seq<real>, c: real, tol: real): (r: seq<real>)
    ensures |r| <= |s|
  {
    if s == [] then []
    else Cluster(s[..|s| - 1], c, tol) + (if Abs(s[|s| - 1] - c) <= tol then [s[|s| - 1]] else [])
  }

  /** The cluster around `c` holds exactly the samples within `tol` of `c`. */
  lemma {:induction false} ClusterMembers(s: seq<real>, c: real, tol: real)
    ensures forall o :: o in Cluster(s, c, tol) <==> o in s && Abs(o - c) <= tol
  {
    if s != [] {
      var init := s[..|s| - 1];
      ClusterMembers(init, c, tol);
      assert s == init + [s[|s| - 1]];
    }
  }

  /** `best_cluster` after the first `k` rounds of the loop. */
  function BestCluster(s: seq<real>, k: nat, tol: real): seq<real>
    requires k <= |s|
  {
    if k == 0 then []
    else
      var prev := BestCluster(s, k - 1, tol);
      var cur := Cluster(s, s[k - 1], tol);
      if |cur| > |prev| then cur else prev
  }

  function Sum(s: seq<real>): real {
    if s == [] then 0.0 else Sum(s[..|s| - 1]) + s[|s| - 1]
  }

  /** `np.mean`. */
  function Mean(s: seq<real>): real
    requires s != []
  {
    Sum(s) / |s| as real
  }

  /** `np.median` of a sorted sequence. */
  function Median(s: seq<real>): real
    requires s != []
  {
    if |s| % 2 == 1 then s[|s| / 2] else (s[|s| / 2 - 1] + s[|s| / 2]) / 2.0
  }

  predicate RealLe(a: real, b: real) {
    a <= b
  }

  /** What `get_consensus_offset(offsets, tolerance)` returns. */
  function Consensus(offsets: seq<real>, tol: real): Option<real> {
    if offsets == [] then None
    else
      var sorted := Sorting.Sort(offsets, RealLe);
      var best := BestCluster(sorted, |sorted|, tol);
      if best == [] then Some(Median(sorted)) else Some(Mean(best))
  }

  method GetConsensusOffset(offsets: seq<real>, tolerance: real) returns (r: Option<real>)
    ensures r == Consensus(offsets, tolerance)
  {
    if offsets == [] {
      return None;
    }
    var sortedOffsets := Sorting.Sort(offsets, RealLe);
    var bestCluster: seq<real> := [];
    for i := 0 to |sortedOffsets|
      invariant bestCluster == BestCluster(sortedOffsets, i, tolerance)
    {
      var currentOffset := sortedOffsets[i];
      var currentCluster := Cluster(sortedOffsets, currentOffset, tolerance);
      if |currentCluster| > |bestCluster| {
        bestCluster := currentCluster;
      }
    }
    if bestCluster == [] {
      return Some(Median(sortedOffsets));
    }
    return Some(Mean(bestCluster));
  }

  /**
   * After `k` rounds, `best_cluster` is the cluster around the first of the
   * first `k` centres whose cluster is largest (strict `>` keeps the earliest).
   */
  lemma {:induction false} BestClusterChoice(s: seq<real>, k: nat, tol: real) returns (i: nat)
    requires 0 < k <= |s|
    ensures i < k && BestCluster(s, k, tol) == Cluster(s, s[i], tol)
    ensures forall j :: 0 <= j < k ==> |Cluster(s, s[j], tol)| <= |BestCluster(s, k, tol)|
    ensures forall j :: 0 <= j < i ==> |Cluster(s, s[j], tol)| < |BestCluster(s, k, tol)|
  {
    if k == 1 {
      i := 0;
      if |Cluster(s, s[0], tol)| == 0 {
        assert Cluster(s, s[0], tol) == [];
      }
    } else {
      var p := BestClusterChoice(s, k - 1, tol);
      var prev := BestCluster(s, k - 1, tol);
      var cur := Cluster(s, s[k - 1], tol);
      var best := BestCluster(s, k, tol);
      assert best == if |cur| > |prev| then cur else prev;
      i := if |cur| > |prev| then k - 1 else p;
      assert |prev| <= |best| && |cur| <= |best|;
      forall j | 0 <= j < k - 1 ensures |Cluster(s, s[j], tol)| <= |best| {
        assert |Cluster(s, s[j], tol)| <= |prev|;
      }
    }
  }

  /** With a non-negative tolerance every centre is in its own cluster, so the median branch is never taken. */
  lemma ClusterHasCentre(s: seq<real>, i: nat, tol: real)
    requires i < |s| && tol >= 0.0
    ensures Cluster(s, s[i], tol) != []
  {
    ClusterMembers(s, s[i], tol);
    assert s[i] in s;
  }

  lemma MedianUnreachable(s: seq<real>, tol: real)
    requires s != [] && tol >= 0.0
    ensures BestCluster(s, |s|, tol) != []
  {
    var i := BestClusterChoice(s, |s|, tol);
    ClusterHasCentre(s, i, tol);
  }

  lemma {:induction false} SumBounds(s: seq<real>, lo: real, hi: real)
    requires forall k :: 0 <= k < |s| ==> lo <= s[k] <= hi
    ensures |s| as real * lo <= Sum(s) <= |s| as real * hi
  {
    if s != [] {
      SumBounds(s[..|s| - 1], lo, hi);
    }
  }

  lemma MeanBounds(s: seq<real>, lo: real, hi: real)
    requires s != []
    requires forall o :: o in s ==> lo <= o <= hi
    ensures lo <= Mean(s) <= hi
  {
    assert forall k :: 0 <= k < |s| ==> s[k] in s;
    SumBounds(s, lo, hi);
    var n := |s| as real;
    assert lo * n <= Sum(s) <= hi * n;
    DivBounds(Sum(s), n, lo, hi);
  }

  lemma DivBounds(x: real, n: real, lo: real, hi: real)
    requires n > 0.0 && lo * n <= x <= hi * n
    ensures lo <= x / n <= hi
  {
  }

  /** `get_consensus_offset` returns `None` exactly when there are no samples. */
  lemma ConsensusNoneIff(offsets: seq<real>, tol: real)
    ensures Consensus(offsets, tol).None? <==> offsets == []
  {
  }

  /**
   * For samples and a non-negative tolerance, the result is the mean of the
   * samples within `tol` of some sample `c`, where no sample has more
   * samples within `tol` of it than `c` does; that cluster is never empty
   * and (`ClusterSpread`) its members differ by at most `2 * tol`.
   */
  lemma ConsensusIsLargestCluster(offsets: seq<real>, tol: real) returns (c: real)
    requires offsets != [] && tol >= 0.0
    ensures var best := Cluster(Sorting.Sort(offsets, RealLe), c, tol);
      && c in offsets
      && best != []
      && Consensus(offsets, tol) == Some(Mean(best))
      && SamplesNear(best, offsets, c, tol)
      && (forall d :: d in offsets ==> |Cluster(Sorting.Sort(offsets, RealLe), d, tol)| <= |best|)
  {
    var sorted := Sorting.Sort(offsets, RealLe);
    Sorting.SortSameElements(offsets, RealLe);
    assert offsets[0] in sorted;
    c := LargestClusterOf(sorted, offsets, tol);
  }

  /** The same, for any sequence `sorted` that holds the samples of `offsets`. */
  lemma LargestClusterOf(sorted: seq<real>, offsets: seq<real>, tol: real) returns (c: real)
    requires sorted != [] && tol >= 0.0
    requires forall x :: x in sorted <==> x in offsets
    ensures var best := Cluster(sorted, c, tol);
      && c in offsets
      && best != []
      && BestCluster(sorted, |sorted|, tol) == best
      && SamplesNear(best, offsets, c, tol)
      && (forall d :: d in offsets ==> |Cluster(sorted, d, tol)| <= |best|)
  {
    var i := BestClusterChoice(sorted, |sorted|, tol);
    c := sorted[i];
    assert sorted[i] in sorted;
    ClusterHasCentre(sorted, i, tol);
    NoLargerCluster(sorted, offsets, tol);
    ClusterOfSameSamples(sorted, offsets, c, tol);
  }

  /** No sample has a larger cluster than the one the loop keeps. */
  lemma NoLargerCluster(sorted: seq<real>, offsets: seq<real>, tol: real)
    requires sorted != []
    requires forall x :: x in sorted <==> x in offsets
    ensures forall d :: d in offsets ==> |Cluster(sorted, d, tol)| <= |BestCluster(sorted, |sorted|, tol)|
  {
    var _ := BestClusterChoice(sorted, |sorted|, tol);
    forall d | d in offsets
      ensures |Cluster(sorted, d, tol)| <= |BestCluster(sorted, |sorted|, tol)|
    {
      assert d in sorted;
      var j :| 0 <= j < |sorted| && sorted[j] == d;
    }
  }

  /** `best` holds exactly the samples of `offsets` within `tol` of `c`. */
  ghost predicate SamplesNear(best: seq<real>, offsets: seq<real>, c: real, tol: real) {
    forall o :: o in best <==> o in offsets && Abs(o - c) <= tol
  }

  /** A cluster of `sorted` holds the samples of `offsets` near its centre. */
  lemma ClusterOfSameSamples(sorted: seq<real>, offsets: seq<real>, c: real, tol: real)
    requires forall x :: x in sorted <==> x in offsets
    ensures SamplesNear(Cluster(sorted, c, tol), offsets, c, tol)
  {
    forall o ensures o in Cluster(sorted, c, tol) <==> o in offsets && Abs(o - c) <= tol {
      ClusterMember(sorted, c, tol, o);
    }
  }

  lemma ClusterMember(s: seq<real>, c: real, tol: real, o: real)
    ensures o in Cluster(s, c, tol) <==> o in s && Abs(o - c) <= tol
  {
    ClusterMembers(s, c, tol);
  }

  /** Members of one cluster differ by at most twice the tolerance (not by at most the tolerance). */
  lemma ClusterSpread(s: seq<real>, c: real, tol: real, a: real, b: real)
    requires a in Cluster(s, c, tol) && b in Cluster(s, c, tol)
    ensures Abs(a - b) <= 2.0 * tol
  {
    ClusterMembers(s, c, tol);
  }

  /** The result lies within any bounds of the samples (in particular in `[min, max]`). */
  lemma ConsensusBounds(offsets: seq<real>, tol: real, lo: real, hi: real)
    requires offsets != []
    requires forall o :: o in offsets ==> lo <= o <= hi
    ensures lo <= Consensus(offsets, tol).value <= hi
  {
    var sorted := Sorting.Sort(offsets, RealLe);
    Sorting.SortSameElements(offsets, RealLe);
    var best := BestCluster(sorted, |sorted|, tol);
    if best == [] {
      MedianBounds(sorted, lo, hi);
    } else {
      var i := BestClusterChoice(sorted, |sorted|, tol);
      ClusterMembers(sorted, sorted[i], tol);
      MeanBounds(best, lo, hi);
    }
  }

  lemma MedianBounds(s: seq<real>, lo: real, hi: real)
    requires s != []
    requires forall o :: o in s ==> lo <= o <= hi
    ensures lo <= Median(s) <= hi
  {
    if |s| % 2 == 0 {
      assert s[|s| / 2 - 1] in s && s[|s| / 2] in s;
    } else {
      assert s[|s| / 2] in s;
    }
  }

  /** The usual case: three close samples outvote an outlier. */
  lemma ExampleSorted()
    ensures Sorting.Sort([5.0, 5.1, 4.9, 40.0], RealLe) == [4.9, 5.0, 5.1, 40.0]
  {
    ExampleSortedTail();
    var input := [5.0, 5.1, 4.9, 40.0];
    assert input[1..] == [5.1, 4.9, 40.0];
    var t := [4.9, 5.1, 40.0];
    assert t[1..] == [5.1, 40.0];
    assert Sorting.Insert(5.0, t[1..], RealLe) == [5.0, 5.1, 40.0];
  }

  lemma ExampleSortedTail()
    ensures Sorting.Sort([5.1, 4.9, 40.0], RealLe) == [4.9, 5.1, 40.0]
  {
    assert [5.1, 4.9, 40.0][1..] == [4.9, 40.0];
    assert [4.9, 40.0][1..] == [40.0] && [40.0][1..] == [];
    assert Sorting.Sort([40.0], RealLe) == [40.0];
    assert Sorting.Sort([4.9, 40.0], RealLe) == [4.9, 40.0];
    assert Sorting.Insert(5.1, [40.0], RealLe) == [5.1, 40.0];
  }

  lemma ExampleClusters(s: seq<real>, c: real)
    requires s == [4.9, 5.0, 5.1, 40.0]
    ensures 4.1 <= c <= 5.9 ==> Cluster(s, c, 1.0) == [4.9, 5.0, 5.1]
    ensures c == 40.0 ==> Cluster(s, c, 1.0) == [40.0]
  {
    assert s[..3] == [4.9, 5.0, 5.1] && s[..3][..2] == [4.9, 5.0];
    assert s[..3][..2][..1] == [4.9] && [4.9][..0] == [];
    var c1 := Cluster([4.9], c, 1.0);
    var c2 := Cluster([4.9, 5.0], c, 1.0);
    var c3 := Cluster([4.9, 5.0, 5.1], c, 1.0);
    if 4.1 <= c <= 5.9 {
      assert c1 == [4.9];
      assert c2 == [4.9, 5.0];
      assert c3 == [4.9, 5.0, 5.1];
    } else if c == 40.0 {
      assert c1 == [];
      assert c2 == [];
      assert c3 == [];
    }
  }

  lemma ConsensusExample()
    ensures Consensus([5.0, 5.1, 4.9, 40.0], 1.0) == Some(5.0)
  {
    var s := Sorting.Sort([5.0, 5.1, 4.9, 40.0], RealLe);
    ExampleSorted();
    var three := [4.9, 5.0, 5.1];
    ExampleClusters(s, 4.9);
    ExampleClusters(s, 5.0);
    ExampleClusters(s, 5.1);
    ExampleClusters(s, 40.0);
    assert BestCluster(s, 1, 1.0) == three;
    assert BestCluster(s, 2, 1.0) == three;
    assert BestCluster(s, 3, 1.0) == three;
    assert BestCluster(s, 4, 1.0) == three;
    assert three[..2] == [4.9, 5.0] && [4.9, 5.0][..1] == [4.9] && [4.9][..0] == [];
    assert Sum(three) == 15.0;
  }

  // ---------------------------------------------------------------------
  // The progress parser of run_ffmpeg_with_progress

  predicate IsDigit(c: char) {
    '0' <= c <= '9'
  }

  /** `time=(\d{2}):(\d{2}):(\d{2})\.(\d{2})` matches at index `i`. */
  predicate TimeAt(line: string, i: nat) {
    && i + 16 <= |line|
    && line[i..i + 5] == "time="
    && IsDigit(line[i + 5]) && IsDigit(line[i + 6]) && line[i + 7] == ':'
    && IsDigit(line[i + 8]) && IsDigit(line[i + 9]) && line[i + 10] == ':'
    && IsDigit(line[i + 11]) && IsDigit(line[i + 12]) && line[i + 13] == '.'
    && IsDigit(line[i + 14]) && IsDigit(line[i + 15])
  }

  function TwoDigits(line: string, i: nat): nat
    requires i + 2 <= |line| && IsDigit(line[i]) && IsDigit(line[i + 1])
  {
    10 * (line[i] as int - '0' as int) + (line[i + 1] as int - '0' as int)
  }

  /** `hours * 3600 + minutes * 60 + seconds + ms / 100` for the match at `i`. */
  function TimeValueAt(line: string, i: nat): real
    requires TimeAt(line, i)
  {
    (TwoDigits(line, i + 5) * 3600 + TwoDigits(line, i + 8) * 60 + TwoDigits(line, i + 11)) as real
      + TwoDigits(line, i + 14) as real / 100.0
  }

  /** `re.search`: the first index at or after `from` where the pattern matches, or -1. */
  function SearchTime(line: string, from: nat): (r: int)
    ensures r == -1 || (from <= r && TimeAt(line, r))
    ensures r == -1 ==> forall i :: from <= i ==> !TimeAt(line, i)
    ensures r != -1 ==> forall i :: from <= i < r ==> !TimeAt(line, i)
    decreases |line| - from
  {
    if from + 16 > |line| then -1
    else if TimeAt(line, from) then from
    else SearchTime(line, from + 1)
  }

  /** The time a stderr line reports, if it has one. */
  function ProgressTime(line: string): Option<real> {
    var i := SearchTime(line, 0);
    if i == -1 then None else Some(TimeValueAt(line, i))
  }

  /** The two-digit field ffmpeg prints for `n < 100`. */
  function Pad2(n: nat): string
    requires n < 100
  {
    [('0' as int + n / 10) as char, ('0' as int + n % 10) as char]
  }

  function FormatTime(h: nat, m: nat, s: nat, cs: nat): string
    requires h < 100 && m < 100 && s < 100 && cs < 100
  {
    "time=" + Pad2(h) + ":" + Pad2(m) + ":" + Pad2(s) + "." + Pad2(cs)
  }

  /**
   * A line whose first `time=` is a well-formed field reports that field's
   * value: `h * 3600 + m * 60 + s + cs / 100`.
   */
  lemma ProgressTimeFormatted(prefix: string, h: nat, m: nat, s: nat, cs: nat, suffix: string)
    requires h < 100 && m < 100 && s < 100 && cs < 100
    requires !Strings.Contains(prefix, "time=")
    ensures ProgressTime(prefix + FormatTime(h, m, s, cs) + suffix)
         == Some((h * 3600 + m * 60 + s) as real + cs as real / 100.0)
  {
    var t := FormatTime(h, m, s, cs);
    var line := prefix + t + suffix;
    FormattedTime(h, m, s, cs);
    TimeAtShift(prefix, t, suffix);
    NoTimeInPrefix(prefix, t, suffix);
    SearchTimeSkips(line, 0, |prefix|);
  }

  /** The printed field matches at its start and reads back as its value. */
  lemma FormattedTime(h: nat, m: nat, s: nat, cs: nat)
    requires h < 100 && m < 100 && s < 100 && cs < 100
    ensures TimeAt(FormatTime(h, m, s, cs), 0)
    ensures TimeValueAt(FormatTime(h, m, s, cs), 0) == (h * 3600 + m * 60 + s) as real + cs as real / 100.0
  {
    var t := FormatTime(h, m, s, cs);
    assert t[..5] == "time=";
    Pad2Digits(h);
    Pad2Digits(m);
    Pad2Digits(s);
    Pad2Digits(cs);
    assert t[5] == Pad2(h)[0] && t[6] == Pad2(h)[1];
    assert t[8] == Pad2(m)[0] && t[9] == Pad2(m)[1];
    assert t[11] == Pad2(s)[0] && t[12] == Pad2(s)[1];
    assert t[14] == Pad2(cs)[0] && t[15] == Pad2(cs)[1];
  }

  lemma Pad2Digits(n: nat)
    requires n < 100
    ensures IsDigit(Pad2(n)[0]) && IsDigit(Pad2(n)[1]) && TwoDigits(Pad2(n), 0) == n
  {
  }

  /** A match at the start of `t` is a match, of the same value, inside a longer line. */
  lemma TimeAtShift(prefix: string, t: string, suffix: string)
    requires TimeAt(t, 0)
    ensures TimeAt(prefix + t + suffix, |prefix|)
    ensures TimeValueAt(prefix + t + suffix, |prefix|) == TimeValueAt(t, 0)
  {
    var line := prefix + t + suffix;
    var p := |prefix|;
    forall k | 0 <= k < |t| ensures line[p + k] == t[k] {
    }
    assert line[p..p + 5] == t[0..5];
  }

  /** Without `time=` in the prefix, and with `t` starting with 't', no match starts in the prefix. */
  lemma NoTimeInPrefix(prefix: string, t: string, suffix: string)
    requires !Strings.Contains(prefix, "time=")
    requires |t| > 0 && t[0] == 't'
    ensures forall i :: 0 <= i < |prefix| ==> !TimeAt(prefix + t + suffix, i)
  {
    var line := prefix + t + suffix;
    var p := |prefix|;
    Strings.ContainsIff(prefix, "time=");
    forall i | 0 <= i < p
      ensures !TimeAt(line, i)
    {
      if i + 5 <= p {
        assert prefix[i..i + 5] == line[i..i + 5];
        assert !Strings.OccursAt(prefix, "time=", i);
      } else {
        // "time=" would have to continue into `t`, which itself starts with 't'
        assert line[p] == 't';
        assert p - i < 5 && (i + 5 <= |line| ==> line[i..i + 5][p - i] == line[p]);
      }
    }
  }

  lemma {:induction false} SearchTimeSkips(line: string, from: nat, p: nat)
    requires from <= p && TimeAt(line, p)
    requires forall i :: from <= i < p ==> !TimeAt(line, i)
    ensures SearchTime(line, from) == p
    decreases p - from
  {
    if from < p {
      SearchTimeSkips(line, from + 1, p);
    }
  }

  /** The times reported to the progress callback, one per matching line. */
  function ProgressTimes(lines: seq<string>): (r: seq<real>)
    ensures |r| <= |lines|
  {
    if lines == [] then []
    else
      var init := ProgressTimes(lines[..|lines| - 1]);
      match ProgressTime(lines[|lines| - 1])
      case Some(t) => init + [t]
      case None => init
  }

  /** What `run_ffmpeg_with_progress` launches, reports and returns. */
  method RunFfmpegWithProgress(command: seq<string>, duration: real, ffmpegPath: string,
                               stderrLines: seq<string>, exitCode: int)
    returns (ok: bool, launched: seq<string>, reports: seq<real>, barPosition: real)
    requires |command| > 0
    ensures launched == if command[0] == "ffmpeg" then [ffmpegPath] + command[1..] else command
    ensures reports == ProgressTimes(stderrLines)
    ensures barPosition == if reports == [] then 0.0 else reports[|reports| - 1]
    ensures ok <==> exitCode == 0
  {
    launched := command;
    if launched[0] == "ffmpeg" {
      launched := launched[0 := ffmpegPath];
    }
    reports := [];
    barPosition := 0.0;
    var lastTime := 0.0;
    for k := 0 to |stderrLines|
      invariant reports == ProgressTimes(stderrLines[..k])
      invariant lastTime == if reports == [] then 0.0 else reports[|reports| - 1]
      invariant barPosition == lastTime
    {
      assert stderrLines[..k + 1][..k] == stderrLines[..k];
      var line := stderrLines[k];
      var i := SearchTime(line, 0);
      if i != -1 {
        var currentTime := TimeValueAt(line, i);
        var updateAmount := currentTime - lastTime;
        barPosition := barPosition + updateAmount;
        reports := reports + [currentTime];
        lastTime := currentTime;
      }
    }
    assert stderrLines[..|stderrLines|] == stderrLines;
    ok := exitCode == 0;
  }

  // ---------------------------------------------------------------------
  // process_pair

  type Interval = DetectPerformances.Interval

  /** `{'max_seconds_to_process': None, 'min_duration_seconds': 30, ...}`. */
  function DefaultDetectionConfig(): Json {
    JObj(map[
      "max_seconds_to_process" := JNull,
      "min_duration_seconds" := JNum(30.0),
      "show_video" := JBool(false),
      "left_zone_end_percent" := JNum(0.15),
      "yolo_model" := JStr("yolov8n.pt")])
  }

  /** The `config` dictionary before `config.update(config_overrides)`. */
  function DefaultConfig(videoPath: string, audioPath: Option<string>): map<string, Json> {
    map[
      "video_path" := JStr(videoPath),
      "mic_audio_path" := (if audioPath.Some? then JStr(audioPath.value) else JNull),
      "output_dir" := JStr("output"),
      "temp_dir" := JStr("temp"),
      "video_audio_volume" := JNum(0.6),
      "mic_audio_volume" := JNum(1.5),
      "audio_sync_sample_rate" := JNum(22050.0),
      "use_gpu" := JBool(true),
      "detection_config" := DefaultDetectionConfig()]
  }

  /** `config.update(overrides)`: a shallow merge in which the overrides win. */
  function MergedConfig(videoPath: string, audioPath: Option<string>, overrides: map<string, Json>): map<string, Json> {
    DefaultConfig(videoPath, audioPath) + overrides
  }

  /** Every key of the merge comes from one side, and an overridden key takes the override's value. */
  lemma MergedConfigKeys(videoPath: string, audioPath: Option<string>, overrides: map<string, Json>, k: string)
    ensures k in MergedConfig(videoPath, audioPath, overrides) <==> k in DefaultConfig(videoPath, audioPath) || k in overrides
    ensures k in overrides ==> MergedConfig(videoPath, audioPath, overrides)[k] == overrides[k]
    ensures k !in overrides && k in DefaultConfig(videoPath, audioPath) ==>
      MergedConfig(videoPath, audioPath, overrides)[k] == DefaultConfig(videoPath, audioPath)[k]
  {
  }

  /** The merged configuration has the keys `process_pair` reads, the directories as configured. */
  lemma MergedConfigDirs(videoPath: string, audioPath: Option<string>, overrides: map<string, Json>)
    ensures var m := MergedConfig(videoPath, audioPath, overrides);
      && "video_path" in m && "detection_config" in m && "output_dir" in m && "temp_dir" in m
      && m["output_dir"] == DirValue(overrides, "output_dir", "output")
      && m["temp_dir"] == DirValue(overrides, "temp_dir", "temp")
  {
  }

  /** The directory keys of the overrides hold strings (`os.path.join` needs them). */
  predicate PathOverridesAreStrings(overrides: map<string, Json>) {
    && ("output_dir" in overrides ==> overrides["output_dir"].JStr?)
    && ("temp_dir" in overrides ==> overrides["temp_dir"].JStr?)
  }

  /** `str(audio_path) if audio_path else None`. */
  function NormaliseAudio(audioPath: Option<string>): Option<string> {
    if audioPath.Some? && audioPath.value != "" then audioPath else None
  }

  /** The video that is processed: the concatenation when it succeeded, else the first input. */
  function InputVideo(videoPaths: seq<string>, overrides: map<string, Json>, concatOk: bool): string
    requires |videoPaths| > 0 && PathOverridesAreStrings(overrides)
  {
    if |videoPaths| > 1 && concatOk then
      var tempDir := if "temp_dir" in overrides then overrides["temp_dir"].s else "temp";
      Strings.PathJoin(tempDir, "concatenated_input.mp4")
    else videoPaths[0]
  }

  /** `all_offsets`: `offset_seconds - start` for each segment whose sync succeeded. */
  function SyncSamples(segments: seq<Interval>, syncOffset: nat -> Option<real>): (r: seq<real>)
    ensures |r| <= |segments|
  {
    if segments == [] then []
    else
      var n := |segments| - 1;
      SyncSamples(segments[..n], syncOffset)
        + (match syncOffset(n) case Some(o) => [o - segments[n].start] case None => [])
  }

  /** An element of an ffmpeg command: literal text, a number, a configured value, or the mixing graph. */
  datatype Token =
    | Lit(text: string)
    | Num(value: real)
    | Value(j: Json)
    | MixGraph(videoVolume: Json, micVolume: Json)

  function Lits(xs: seq<string>): (r: seq<Token>)
    ensures |r| == |xs| && forall k :: 0 <= k < |xs| ==> r[k] == Lit(xs[k])
  {
    seq(|xs|, k requires 0 <= k < |xs| => Lit(xs[k]))
  }

  /** `{base_name}_performance_{i+1}.mp4` under the output directory. */
  function OutputName(outputDir: string, stem: string, i: nat): string {
    Strings.PathJoin(outputDir, stem + "_performance_" + Strings.NatToString(i + 1) + ".mp4")
  }

  /** How a segment's audio is produced. */
  datatype AudioMode = VideoAudioOnly | MixedWithMic

  function ModeFor(micActive: bool, start: real, globalOffset: real): AudioMode {
    if micActive && start + globalOffset >= 0.0 then MixedWithMic else VideoAudioOnly
  }

  /** The tokens shared by the two video-only command shapes. */
  function VideoOnlyCommand(start: real, video: Json, duration: real, vcodec: string, extra: seq<string>,
                            output: string): seq<Token>
  {
    [Lit("ffmpeg"), Lit("-y"), Lit("-ss"), Num(start), Lit("-i"), Value(video), Lit("-t"), Num(duration),
     Lit("-map"), Lit("0:v"), Lit("-map"), Lit("0:a"), Lit("-vf"), Lit("yadif"), Lit("-c:v"), Lit(vcodec)]
    + Lits(extra) + [Lit("-c:a"), Lit("aac"), Lit("-b:a"), Lit("192k"), Lit(output)]
  }

  function MixCommand(start: real, video: Json, micStart: real, mic: Json, duration: real,
                      videoVolume: Json, micVolume: Json, vcodec: string, extra: seq<string>,
                      output: string): seq<Token>
  {
    [Lit("ffmpeg"), Lit("-y"), Lit("-ss"), Num(start), Lit("-i"), Value(video),
     Lit("-ss"), Num(micStart), Lit("-i"), Value(mic), Lit("-t"), Num(duration),
     Lit("-filter_complex"), MixGraph(videoVolume, micVolume),
     Lit("-map"), Lit("0:v"), Lit("-map"), Lit("[aout]"), Lit("-vf"), Lit("yadif"), Lit("-c:v"), Lit(vcodec)]
    + Lits(extra) + [Lit("-c:a"), Lit("aac"), Lit("-b:a"), Lit("192k"), Lit(output)]
  }

  /** The encoder arguments of segment `i`: probed per segment when `use_gpu` is truthy. */
  function EncoderArgs(cfg: map<string, Json>, gpuProbe: nat -> bool, i: nat): (r: seq<string>)
    ensures r == VideoUtils.GpuArgs(Truthy(Lookup(cfg, "use_gpu")) && gpuProbe(i))
  {
    if Truthy(Lookup(cfg, "use_gpu")) then VideoUtils.GpuArgs(gpuProbe(i))
    else ["-c:v", "libx264", "-preset", "medium"]
  }

  /** `gpu_args[gpu_args.index('-c:v') + 1]`. */
  function Vcodec(cfg: map<string, Json>, gpuProbe: nat -> bool, i: nat): string {
    var gpu := EncoderArgs(cfg, gpuProbe, i);
    VideoUtils.GpuArgsCodec(Truthy(Lookup(cfg, "use_gpu")) && gpuProbe(i));
    gpu[VideoUtils.IndexOf(gpu, "-c:v").value + 1]
  }

  /** `gpu_args[gpu_args.index('-c:v') + 2:]`. */
  function ExtraArgs(cfg: map<string, Json>, gpuProbe: nat -> bool, i: nat): seq<string> {
    var gpu := EncoderArgs(cfg, gpuProbe, i);
    VideoUtils.GpuArgsCodec(Truthy(Lookup(cfg, "use_gpu")) && gpuProbe(i));
    gpu[VideoUtils.IndexOf(gpu, "-c:v").value + 2..]
  }

  /** The command for segment `i`. */
  function SegmentCommand(cfg: map<string, Json>, gpuProbe: nat -> bool, micActive: bool, globalOffset: real,
                          stem: string, i: nat, seg: Interval): seq<Token>
    requires "output_dir" in cfg && cfg["output_dir"].JStr?
  {
    var output := OutputName(cfg["output_dir"].s, stem, i);
    if ModeFor(micActive, seg.start, globalOffset) == MixedWithMic then
      MixCommand(seg.start, Lookup(cfg, "video_path"), seg.start + globalOffset, Lookup(cfg, "mic_audio_path"),
                 seg.end - seg.start, Lookup(cfg, "video_audio_volume"), Lookup(cfg, "mic_audio_volume"),
                 Vcodec(cfg, gpuProbe, i), ExtraArgs(cfg, gpuProbe, i), output)
    else
      VideoOnlyCommand(seg.start, Lookup(cfg, "video_path"), seg.end - seg.start,
                       Vcodec(cfg, gpuProbe, i), ExtraArgs(cfg, gpuProbe, i), output)
  }

  /** What one call of `process_pair` decides. */
  datatype PairPlan = PairPlan(
    inputVideo: string,
    config: map<string, Json>,
    segments: seq<Interval>,
    samples: seq<real>,
    globalOffset: real,
    commands: seq<seq<Token>>)

  /** `os.path.splitext(os.path.basename(first input))[0]`. */
  function StemOfFirst(videoPaths: seq<string>): string
    requires |videoPaths| > 0
  {
    Strings.StemOf(Strings.Basename(videoPaths[0]))
  }

  /** The sync stage's outcome: the configuration after it, the samples and the global offset. */
  datatype SyncOutcome = SyncOutcome(config: map<string, Json>, samples: seq<real>, globalOffset: real)

  /**
   * Lines 154-179: sampling is attempted only when a microphone track is
   * configured; without any sample the track is dropped, otherwise the
   * consensus of the samples is the global offset.
   */
  function Sync(merged: map<string, Json>, segments: seq<Interval>, syncOffset: nat -> Option<real>): SyncOutcome {
    if !Truthy(Lookup(merged, "mic_audio_path")) then SyncOutcome(merged, [], 0.0)
    else
      var samples := SyncSamples(segments, syncOffset);
      if samples == [] then SyncOutcome(merged["mic_audio_path" := JNull], [], 0.0)
      else SyncOutcome(merged, samples, Consensus(samples, 1.0).value)
  }

  /** The encode loop's commands, one per segment. */
  function Commands(cfg: map<string, Json>, gpuProbe: nat -> bool, globalOffset: real, stem: string,
                    segments: seq<Interval>): (r: seq<seq<Token>>)
    requires "output_dir" in cfg && cfg["output_dir"].JStr?
    ensures |r| == |segments|
  {
    var micActive := Truthy(Lookup(cfg, "mic_audio_path"));
    seq(|segments|, i requires 0 <= i < |segments| =>
        SegmentCommand(cfg, gpuProbe, micActive, globalOffset, stem, i, segments[i]))
  }

  /** What the detector is called with: `config['video_path']` and `config['detection_config']`. */
  function DetectorInput(videoPaths: seq<string>, audioPath: Option<string>, overrides: map<string, Json>,
                         concatOk: bool): (Json, Json)
    requires |videoPaths| > 0 && PathOverridesAreStrings(overrides)
  {
    var merged := MergedConfig(InputVideo(videoPaths, overrides, concatOk), NormaliseAudio(audioPath), overrides);
    (Lookup(merged, "video_path"), Lookup(merged, "detection_config"))
  }

  /** `os.makedirs(d, exist_ok=True)` on a value `d`: a non-string raises, and so does the empty path. */
  function MakedirsError(d: Json): Option<string> {
    if !d.JStr? then Some("TypeError: expected str, bytes or os.PathLike object")
    else if d.s == "" then Some("FileNotFoundError: [Errno 2] No such file or directory: ''")
    else None
  }

  /** The configured value of a directory key: the override, else the built-in default. */
  function DirValue(overrides: map<string, Json>, key: string, default: string): Json {
    if key in overrides then overrides[key] else JStr(default)
  }

  /** A directory key that `os.path.join` and `os.makedirs` accept: absent, or a non-empty string. */
  predicate UsableDir(overrides: map<string, Json>, key: string) {
    key !in overrides || (overrides[key].JStr? && overrides[key].s != "")
  }

  /** `process_pair` gets past its set-up (the first input, the join and both `os.makedirs` calls). */
  predicate SetupSucceeds(videoPaths: seq<string>, overrides: map<string, Json>) {
    |videoPaths| > 0 && UsableDir(overrides, "output_dir") && UsableDir(overrides, "temp_dir")
  }

  /**
   * The exception `process_pair` raises before detection, in the order of
   * the source: `video_paths[0]` of an empty list, `os.path.join` on a
   * non-string `temp_dir` when several inputs are joined, then
   * `os.makedirs` of the output and of the temporary directory.
   */
  function SetupError(videoPaths: seq<string>, overrides: map<string, Json>): (r: Option<string>)
    ensures r.None? <==> SetupSucceeds(videoPaths, overrides)
    ensures r.None? ==> PathOverridesAreStrings(overrides)
    ensures |videoPaths| == 0 ==> r == Some("IndexError: list index out of range")
  {
    if |videoPaths| == 0 then Some("IndexError: list index out of range")
    else if |videoPaths| > 1 && !DirValue(overrides, "temp_dir", "temp").JStr? then
      Some("TypeError: expected str, bytes or os.PathLike object")
    else if MakedirsError(DirValue(overrides, "output_dir", "output")).Some? then
      MakedirsError(DirValue(overrides, "output_dir", "output"))
    else MakedirsError(DirValue(overrides, "temp_dir", "temp"))
  }

  /**
   * The whole of `process_pair` on given oracle answers: the exception it
   * raises, or its plan. The detector is called outside any `try`, so an
   * exception it raises (the `ZeroDivisionError` of a zero frame rate, say)
   * is raised by `process_pair` too.
   */
  function Plan(videoPaths: seq<string>, audioPath: Option<string>, overrides: map<string, Json>,
                concatOk: bool, detect: (Json, Json) -> Result<seq<Interval>, string>,
                syncOffset: nat -> Option<real>, gpuProbe: nat -> bool): Result<PairPlan, string>
  {
    match SetupError(videoPaths, overrides)
    case Some(e) => Failure(e)
    case None =>
      var video := InputVideo(videoPaths, overrides, concatOk);
      var merged := MergedConfig(video, NormaliseAudio(audioPath), overrides);
      var input := DetectorInput(videoPaths, audioPath, overrides, concatOk);
      match detect(input.0, input.1)
      case Failure(e) => Failure(e)
      case Success(segments) =>
        Success(AfterDetection(video, merged, segments, StemOfFirst(videoPaths), syncOffset, gpuProbe))
  }

  /** Lines 150-219: nothing more happens without segments; otherwise sync, then encode. */
  function AfterDetection(video: string, merged: map<string, Json>, segments: seq<Interval>, stem: string,
                          syncOffset: nat -> Option<real>, gpuProbe: nat -> bool): PairPlan
    requires "output_dir" in merged && merged["output_dir"].JStr?
  {
    if segments == [] then PairPlan(video, merged, [], [], 0.0, [])
    else
      var sync := Sync(merged, segments, syncOffset);
      PairPlan(video, sync.config, segments, sync.samples, sync.globalOffset,
               Commands(sync.config, gpuProbe, sync.globalOffset, stem, segments))
  }

  /** The steps after detection. */
  method SyncAndEncode(video: string, config: map<string, Json>, segments: seq<Interval>, stem: string,
                       syncOffset: nat -> Option<real>, gpuProbe: nat -> bool)
    returns (plan: PairPlan)
    requires "output_dir" in config && config["output_dir"].JStr?
    ensures plan == AfterDetection(video, config, segments, stem, syncOffset, gpuProbe)
  {
    if segments == [] {
      return PairPlan(video, config, [], [], 0.0, []);
    }
    var sync := SyncSegments(config, segments, syncOffset);
    var commands := EncodeSegments(sync.config, gpuProbe, sync.globalOffset, stem, segments);
    plan := PairPlan(video, sync.config, segments, sync.samples, sync.globalOffset, commands);
  }

  /** The sync loop of lines 158-169. */
  method SyncSegments(config: map<string, Json>, segments: seq<Interval>, syncOffset: nat -> Option<real>)
    returns (outcome: SyncOutcome)
    ensures outcome == Sync(config, segments, syncOffset)
  {
    if !Truthy(Lookup(config, "mic_audio_path")) {
      return SyncOutcome(config, [], 0.0);
    }
    var allOffsets: seq<real> := [];
    for i := 0 to |segments|
      invariant allOffsets == SyncSamples(segments[..i], syncOffset)
    {
      assert segments[..i + 1][..i] == segments[..i];
      var syncResult := syncOffset(i);
      if syncResult.Some? {
        allOffsets := allOffsets + [syncResult.value - segments[i].start];
      }
    }
    assert segments[..|segments|] == segments;
    if allOffsets == [] {
      return SyncOutcome(config["mic_audio_path" := JNull], [], 0.0);
    }
    var consensus := GetConsensusOffset(allOffsets, 1.0);
    outcome := SyncOutcome(config, allOffsets, consensus.value);
  }

  /** The encode loop of lines 182-219. */
  method EncodeSegments(config: map<string, Json>, gpuProbe: nat -> bool, globalOffset: real, stem: string,
                        segments: seq<Interval>)
    returns (commands: seq<seq<Token>>)
    requires "output_dir" in config && config["output_dir"].JStr?
    ensures commands == Commands(config, gpuProbe, globalOffset, stem, segments)
  {
    var micActive := Truthy(Lookup(config, "mic_audio_path"));
    commands := [];
    for i := 0 to |segments|
      invariant commands == seq(i, j requires 0 <= j < i =>
                                SegmentCommand(config, gpuProbe, micActive, globalOffset, stem, j, segments[j]))
    {
      var command := SegmentCommand(config, gpuProbe, micActive, globalOffset, stem, i, segments[i]);
      commands := commands + [command];
    }
  }

  /**
   * The raising points of lines 100-143, in order: `video_paths[0]`, the
   * join into `temp_dir` when there are several inputs, and the two
   * `os.makedirs` calls on the merged configuration's directories.
   */
  method CheckSetup(videoPaths: seq<string>, overrides: map<string, Json>) returns (error: Option<string>)
    ensures error == SetupError(videoPaths, overrides)
  {
    if |videoPaths| == 0 {
      return Some("IndexError: list index out of range");
    }
    if |videoPaths| > 1 && !DirValue(overrides, "temp_dir", "temp").JStr? {
      return Some("TypeError: expected str, bytes or os.PathLike object");
    }
    error := MakedirsError(DirValue(overrides, "output_dir", "output"));
    if error.None? {
      error := MakedirsError(DirValue(overrides, "temp_dir", "temp"));
    }
  }

  /**
   * `process_pair`: the oracles are the concatenation's success, the
   * detector (called with `config['video_path']` and
   * `config['detection_config']`), the sync backend's answer per segment and
   * the GPU probe per segment.
   */
  method ProcessPair(videoPaths: seq<string>, audioPath: Option<string>, overrides: map<string, Json>,
                     concatOk: bool, detect: (Json, Json) -> Result<seq<Interval>, string>,
                     syncOffset: nat -> Option<real>, gpuProbe: nat -> bool)
    returns (result: Result<PairPlan, string>)
    ensures result == Plan(videoPaths, audioPath, overrides, concatOk, detect, syncOffset, gpuProbe)
  {
    var setupError := CheckSetup(videoPaths, overrides);
    if setupError.Some? {
      return Failure(setupError.value);
    }
    var baseNameSourcePath := videoPaths[0];
    var audio := NormaliseAudio(audioPath);
    var videoPath := videoPaths[0];
    if |videoPaths| > 1 {
      var tempDir := if "temp_dir" in overrides then overrides["temp_dir"].s else "temp";
      var concatVideoPath := Strings.PathJoin(tempDir, "concatenated_input.mp4");
      if concatOk {
        videoPath := concatVideoPath;
      }
    }
    var config := MergedConfig(videoPath, audio, overrides);
    MergedConfigDirs(videoPath, audio, overrides);

    var detection := detect(config["video_path"], config["detection_config"]);
    if detection.Failure? {
      return Failure(detection.error);
    }
    var performanceSegments := detection.value;
    var stem := Strings.StemOf(Strings.Basename(baseNameSourcePath));
    var plan := SyncAndEncode(videoPath, config, performanceSegments, stem, syncOffset, gpuProbe);
    result := Success(plan);
  }

  /**
   * `process_pair` raises exactly when it has no input, or a directory
   * override is not a string or is empty, or else the detector raises; an
   * empty list raises `IndexError`, a non-string directory `TypeError`, and
   * a detector's exception is passed on unchanged.
   */
  lemma PlanFailsIff(videoPaths: seq<string>, audioPath: Option<string>, overrides: map<string, Json>,
                     concatOk: bool, detect: (Json, Json) -> Result<seq<Interval>, string>,
                     syncOffset: nat -> Option<real>, gpuProbe: nat -> bool)
    ensures var r := Plan(videoPaths, audioPath, overrides, concatOk, detect, syncOffset, gpuProbe);
      && (r.Failure? <==> |videoPaths| == 0
                          || ("output_dir" in overrides && (!overrides["output_dir"].JStr? || overrides["output_dir"].s == ""))
                          || ("temp_dir" in overrides && (!overrides["temp_dir"].JStr? || overrides["temp_dir"].s == ""))
                          || (SetupError(videoPaths, overrides).None?
                              && detect(DetectorInput(videoPaths, audioPath, overrides, concatOk).0,
                                        DetectorInput(videoPaths, audioPath, overrides, concatOk).1).Failure?))
      && (|videoPaths| == 0 ==> r == Failure("IndexError: list index out of range"))
      && (|videoPaths| > 0 && "output_dir" in overrides && !overrides["output_dir"].JStr? ==>
            r == Failure("TypeError: expected str, bytes or os.PathLike object"))
      && (|videoPaths| > 1 && "temp_dir" in overrides && !overrides["temp_dir"].JStr? ==>
            r == Failure("TypeError: expected str, bytes or os.PathLike object"))
      && (SetupError(videoPaths, overrides).None? ==>
            var input := DetectorInput(videoPaths, audioPath, overrides, concatOk);
            detect(input.0, input.1).Failure? ==> r == Failure(detect(input.0, input.1).error))
  {
    var r := Plan(videoPaths, audioPath, overrides, concatOk, detect, syncOffset, gpuProbe);
    if SetupError(videoPaths, overrides).Some? {
      assert r == Failure(SetupError(videoPaths, overrides).value);
    }
  }

  /**
   * With a detector that behaves as `detect_performances` does on a stream
   * reporting 0 frames per second, without a time limit (the built-in
   * `max_seconds_to_process: None`), and with an occupied frame or a hundred
   * frames, `process_pair` raises the detector's `ZeroDivisionError`.
   */
  lemma ZeroFpsStopsPair(videoPaths: seq<string>, audioPath: Option<string>, overrides: map<string, Json>,
                         concatOk: bool, detect: (Json, Json) -> Result<seq<Interval>, string>,
                         syncOffset: nat -> Option<real>, gpuProbe: nat -> bool,
                         width: int, frames: seq<DetectPerformances.Frame>, opts: DetectPerformances.DetectionOptions)
    requires SetupSucceeds(videoPaths, overrides) && opts.maxSecondsToProcess.None?
    requires PathOverridesAreStrings(overrides)
    requires var input := DetectorInput(videoPaths, audioPath, overrides, concatOk);
             detect(input.0, input.1) == DetectPerformances.Detect(true, true, width, 0.0, frames, opts)
    requires |frames| >= DetectPerformances.ProgressEvery
             || exists i :: 0 <= i < |frames| && DetectPerformances.CenterIds(frames[i],
                  DetectPerformances.ZoneLow(width, opts), DetectPerformances.ZoneHigh(width, opts)) != {}
    ensures Plan(videoPaths, audioPath, overrides, concatOk, detect, syncOffset, gpuProbe)
              == Failure(DetectPerformances.ZeroDivision)
  {
    DetectPerformances.ZeroFps(true, true, width, frames, opts);
    PlanFailsIff(videoPaths, audioPath, overrides, concatOk, detect, syncOffset, gpuProbe);
  }

  // ---------------------------------------------------------------------
  // Properties of process_pair

  /** No detected segment: neither sync samples nor encode commands. */
  lemma PlanWithoutSegments(videoPaths: seq<string>, audioPath: Option<string>, overrides: map<string, Json>,
                            concatOk: bool, detect: (Json, Json) -> Result<seq<Interval>, string>,
                            syncOffset: nat -> Option<real>, gpuProbe: nat -> bool)
    requires SetupSucceeds(videoPaths, overrides)
    ensures var input := DetectorInput(videoPaths, audioPath, overrides, concatOk);
            var r := Plan(videoPaths, audioPath, overrides, concatOk, detect, syncOffset, gpuProbe);
            r.Success? <==> detect(input.0, input.1).Success?
    ensures var input := DetectorInput(videoPaths, audioPath, overrides, concatOk);
            var r := Plan(videoPaths, audioPath, overrides, concatOk, detect, syncOffset, gpuProbe);
            r.Success? ==>
              var plan := r.value;
              (detect(input.0, input.1).value == [] <==> plan.commands == [])
              && (plan.commands == [] ==> plan.samples == [] && plan.globalOffset == 0.0)
              && |plan.commands| == |plan.segments| && plan.segments == detect(input.0, input.1).value
  {
  }

  /** The processed video is the first input unless several inputs were joined successfully. */
  lemma InputVideoChoice(videoPaths: seq<string>, overrides: map<string, Json>, concatOk: bool)
    requires |videoPaths| > 0 && PathOverridesAreStrings(overrides)
    ensures InputVideo(videoPaths, overrides, concatOk) != videoPaths[0] ==> |videoPaths| > 1 && concatOk
    ensures |videoPaths| > 1 && concatOk ==>
      InputVideo(videoPaths, overrides, concatOk)
        == Strings.PathJoin(if "temp_dir" in overrides then overrides["temp_dir"].s else "temp", "concatenated_input.mp4")
  {
  }

  /**
   * A flat key other than the two the detector reads (and the temporary
   * directory, which can move the joined video) does not change what the
   * detector is called with: `update` is shallow.
   */
  lemma DetectorIgnoresFlatKey(videoPaths: seq<string>, audioPath: Option<string>, overrides: map<string, Json>,
                               concatOk: bool, k: string, v: Json)
    requires |videoPaths| > 0 && PathOverridesAreStrings(overrides) && PathOverridesAreStrings(overrides[k := v])
    requires k != "video_path" && k != "detection_config" && k != "temp_dir"
    ensures DetectorInput(videoPaths, audioPath, overrides[k := v], concatOk)
         == DetectorInput(videoPaths, audioPath, overrides, concatOk)
  {
    var video := InputVideo(videoPaths, overrides, concatOk);
    assert InputVideo(videoPaths, overrides[k := v], concatOk) == video;
    var audio := NormaliseAudio(audioPath);
    MergedConfigKeys(video, audio, overrides, "video_path");
    MergedConfigKeys(video, audio, overrides[k := v], "video_path");
    MergedConfigKeys(video, audio, overrides, "detection_config");
    MergedConfigKeys(video, audio, overrides[k := v], "detection_config");
  }

  /** Without a `detection_config` override the detector gets the nested default, minimum duration 30. */
  lemma DetectorGetsDefaultDetectionConfig(videoPaths: seq<string>, audioPath: Option<string>,
                                           overrides: map<string, Json>, concatOk: bool)
    requires |videoPaths| > 0 && PathOverridesAreStrings(overrides)
    requires "detection_config" !in overrides
    ensures DetectorInput(videoPaths, audioPath, overrides, concatOk).1 == DefaultDetectionConfig()
    ensures Lookup(DefaultDetectionConfig().fields, "min_duration_seconds") == JNum(30.0)
    ensures Lookup(DefaultDetectionConfig().fields, "max_seconds_to_process") == JNull
  {
    var video := InputVideo(videoPaths, overrides, concatOk);
    MergedConfigKeys(video, NormaliseAudio(audioPath), overrides, "detection_config");
  }

  /** No sample at all exactly when every segment's sync failed. */
  lemma {:induction false} SyncSamplesEmptyIff(segments: seq<Interval>, syncOffset: nat -> Option<real>)
    ensures SyncSamples(segments, syncOffset) == [] <==> forall k :: 0 <= k < |segments| ==> syncOffset(k).None?
  {
    if segments != [] {
      var n := |segments| - 1;
      SyncSamplesEmptyIff(segments[..n], syncOffset);
      assert forall k :: 0 <= k < n ==> segments[..n][k] == segments[k];
    }
  }

  /** When every sync succeeds, sample `k` is segment `k`'s offset minus its start. */
  lemma {:induction false} SyncSamplesAllSucceed(segments: seq<Interval>, syncOffset: nat -> Option<real>)
    requires forall k :: 0 <= k < |segments| ==> syncOffset(k).Some?
    ensures |SyncSamples(segments, syncOffset)| == |segments|
    ensures forall k :: 0 <= k < |segments| ==>
      SyncSamples(segments, syncOffset)[k] == syncOffset(k).value - segments[k].start
  {
    if segments != [] {
      var n := |segments| - 1;
      SyncSamplesAllSucceed(segments[..n], syncOffset);
    }
  }

  /**
   * The sync stage: without a configured microphone nothing is sampled;
   * with one, the microphone is dropped exactly when no sample was taken,
   * and otherwise the global offset is the consensus of the samples.
   */
  lemma SyncOutcomeCases(merged: map<string, Json>, segments: seq<Interval>, syncOffset: nat -> Option<real>)
    ensures var out := Sync(merged, segments, syncOffset);
            && (!Truthy(Lookup(merged, "mic_audio_path")) ==>
                  out.config == merged && out.samples == [] && out.globalOffset == 0.0)
            && (Truthy(Lookup(merged, "mic_audio_path")) ==>
                  out.samples == SyncSamples(segments, syncOffset)
                  && (out.samples == [] <==> !Truthy(Lookup(out.config, "mic_audio_path")))
                  && (out.samples == [] ==> out.config == merged["mic_audio_path" := JNull] && out.globalOffset == 0.0)
                  && (out.samples != [] ==> out.config == merged && Consensus(out.samples, 1.0) == Some(out.globalOffset)))
  {
    if Truthy(Lookup(merged, "mic_audio_path")) && SyncSamples(segments, syncOffset) != [] {
      ConsensusNoneIff(SyncSamples(segments, syncOffset), 1.0);
    }
  }

  /** `Lits` never produces the mixing graph. */
  lemma LitsNoGraph(xs: seq<string>)
    ensures forall k :: 0 <= k < |Lits(xs)| ==> !Lits(xs)[k].MixGraph?
  {
  }

  predicate HasGraph(cmd: seq<Token>) {
    exists k :: 0 <= k < |cmd| && cmd[k].MixGraph?
  }

  /** Every command starts `ffmpeg -y`, carries `-t` and the duration, and ends with the output name. */
  lemma SegmentCommandShape(cfg: map<string, Json>, gpuProbe: nat -> bool, micActive: bool, globalOffset: real,
                            stem: string, i: nat, seg: Interval)
    requires "output_dir" in cfg && cfg["output_dir"].JStr?
    ensures var cmd := SegmentCommand(cfg, gpuProbe, micActive, globalOffset, stem, i, seg);
            && |cmd| >= 21
            && cmd[0] == Lit("ffmpeg") && cmd[1] == Lit("-y")
            && cmd[|cmd| - 1] == Lit(OutputName(cfg["output_dir"].s, stem, i))
            && (exists k :: 0 <= k < |cmd| - 1 && cmd[k] == Lit("-t") && cmd[k + 1] == Num(seg.end - seg.start))
  {
    var cmd := SegmentCommand(cfg, gpuProbe, micActive, globalOffset, stem, i, seg);
    CommandShapeOf(cmd, ModeFor(micActive, seg.start, globalOffset) == MixedWithMic,
                   seg.start, Lookup(cfg, "video_path"), seg.start + globalOffset, Lookup(cfg, "mic_audio_path"),
                   seg.end - seg.start, Lookup(cfg, "video_audio_volume"), Lookup(cfg, "mic_audio_volume"),
                   Vcodec(cfg, gpuProbe, i), ExtraArgs(cfg, gpuProbe, i), OutputName(cfg["output_dir"].s, stem, i));
  }

  /** The common shape of either command. */
  lemma CommandShapeOf(cmd: seq<Token>, mixed: bool, start: real, video: Json, micStart: real, mic: Json,
                       duration: real, videoVolume: Json, micVolume: Json, vcodec: string, extra: seq<string>,
                       output: string)
    requires cmd == if mixed then MixCommand(start, video, micStart, mic, duration, videoVolume, micVolume, vcodec, extra, output)
                    else VideoOnlyCommand(start, video, duration, vcodec, extra, output)
    ensures |cmd| >= 21 && cmd[0] == Lit("ffmpeg") && cmd[1] == Lit("-y") && cmd[|cmd| - 1] == Lit(output)
    ensures exists k :: 0 <= k < |cmd| - 1 && cmd[k] == Lit("-t") && cmd[k + 1] == Num(duration)
  {
    if mixed {
      MixShape(start, video, micStart, mic, duration, videoVolume, micVolume, vcodec, extra, output);
      assert cmd[10] == Lit("-t") && cmd[11] == Num(duration);
    } else {
      VideoOnlyShape(start, video, duration, vcodec, extra, output);
      assert cmd[6] == Lit("-t") && cmd[7] == Num(duration);
    }
  }

  lemma VideoOnlyShape(start: real, video: Json, duration: real, vcodec: string, extra: seq<string>, output: string)
    ensures var cmd := VideoOnlyCommand(start, video, duration, vcodec, extra, output);
            && |cmd| >= 21 && cmd[0] == Lit("ffmpeg") && cmd[1] == Lit("-y")
            && cmd[6] == Lit("-t") && cmd[7] == Num(duration) && cmd[|cmd| - 1] == Lit(output)
  {
    var cmd := VideoOnlyCommand(start, video, duration, vcodec, extra, output);
    var head := [Lit("ffmpeg"), Lit("-y"), Lit("-ss"), Num(start), Lit("-i"), Value(video),
                 Lit("-t"), Num(duration), Lit("-map"), Lit("0:v"), Lit("-map"), Lit("0:a"),
                 Lit("-vf"), Lit("yadif"), Lit("-c:v"), Lit(vcodec)];
    var tail := [Lit("-c:a"), Lit("aac"), Lit("-b:a"), Lit("192k"), Lit(output)];
    assert cmd == head + Lits(extra) + tail;
    assert cmd[|cmd| - 1] == tail[4];
  }

  lemma MixShape(start: real, video: Json, micStart: real, mic: Json, duration: real,
                 videoVolume: Json, micVolume: Json, vcodec: string, extra: seq<string>, output: string)
    ensures var cmd := MixCommand(start, video, micStart, mic, duration, videoVolume, micVolume, vcodec, extra, output);
            && |cmd| >= 21 && cmd[0] == Lit("ffmpeg") && cmd[1] == Lit("-y")
            && cmd[10] == Lit("-t") && cmd[11] == Num(duration) && cmd[|cmd| - 1] == Lit(output)
  {
    var cmd := MixCommand(start, video, micStart, mic, duration, videoVolume, micVolume, vcodec, extra, output);
    var head := [Lit("ffmpeg"), Lit("-y"), Lit("-ss"), Num(start), Lit("-i"), Value(video),
                 Lit("-ss"), Num(micStart), Lit("-i"), Value(mic), Lit("-t"), Num(duration),
                 Lit("-filter_complex"), MixGraph(videoVolume, micVolume),
                 Lit("-map"), Lit("0:v"), Lit("-map"), Lit("[aout]"), Lit("-vf"), Lit("yadif"), Lit("-c:v"), Lit(vcodec)];
    var tail := [Lit("-c:a"), Lit("aac"), Lit("-b:a"), Lit("192k"), Lit(output)];
    assert cmd == head + Lits(extra) + tail;
    assert cmd[|cmd| - 1] == tail[4];
  }

  /**
   * The audio mode: the command mixes in the microphone, starting at
   * `start + offset` with the two configured volumes, exactly when a
   * microphone is active and that start is not negative.
   */
  lemma SegmentAudioMode(cfg: map<string, Json>, gpuProbe: nat -> bool, micActive: bool, globalOffset: real,
                         stem: string, i: nat, seg: Interval)
    requires "output_dir" in cfg && cfg["output_dir"].JStr?
    ensures var cmd := SegmentCommand(cfg, gpuProbe, micActive, globalOffset, stem, i, seg);
            && (HasGraph(cmd) <==> micActive && seg.start + globalOffset >= 0.0)
            && (HasGraph(cmd) ==>
                  && |cmd| >= 14
                  && cmd[5] == Value(Lookup(cfg, "video_path"))
                  && cmd[6] == Lit("-ss") && cmd[7] == Num(seg.start + globalOffset)
                  && cmd[8] == Lit("-i") && cmd[9] == Value(Lookup(cfg, "mic_audio_path"))
                  && cmd[13] == MixGraph(Lookup(cfg, "video_audio_volume"), Lookup(cfg, "mic_audio_volume")))
            && (!HasGraph(cmd) ==> |cmd| >= 6 && cmd[5] == Value(Lookup(cfg, "video_path")) && Lit("0:a") in cmd)
  {
    var cmd := SegmentCommand(cfg, gpuProbe, micActive, globalOffset, stem, i, seg);
    AudioModeOfCommand(cmd, ModeFor(micActive, seg.start, globalOffset) == MixedWithMic,
                       seg.start, Lookup(cfg, "video_path"), seg.start + globalOffset, Lookup(cfg, "mic_audio_path"),
                       seg.end - seg.start, Lookup(cfg, "video_audio_volume"), Lookup(cfg, "mic_audio_volume"),
                       Vcodec(cfg, gpuProbe, i), ExtraArgs(cfg, gpuProbe, i), OutputName(cfg["output_dir"].s, stem, i));
  }

  /** The audio mode of either command shape. */
  lemma AudioModeOfCommand(cmd: seq<Token>, mixed: bool, start: real, video: Json, micStart: real, mic: Json,
                           duration: real, videoVolume: Json, micVolume: Json, vcodec: string, extra: seq<string>,
                           output: string)
    requires cmd == if mixed then MixCommand(start, video, micStart, mic, duration, videoVolume, micVolume, vcodec, extra, output)
                    else VideoOnlyCommand(start, video, duration, vcodec, extra, output)
    ensures HasGraph(cmd) <==> mixed
    ensures mixed ==> |cmd| >= 14 && cmd[5] == Value(video) && cmd[6] == Lit("-ss") && cmd[7] == Num(micStart)
                      && cmd[8] == Lit("-i") && cmd[9] == Value(mic) && cmd[13] == MixGraph(videoVolume, micVolume)
    ensures !mixed ==> |cmd| >= 6 && cmd[5] == Value(video) && Lit("0:a") in cmd
  {
    if mixed {
      MixCommandHasGraph(start, video, micStart, mic, duration, videoVolume, micVolume, vcodec, extra, output);
    } else {
      VideoOnlyHasNoGraph(start, video, duration, vcodec, extra, output);
    }
  }

  lemma MixCommandHasGraph(start: real, video: Json, micStart: real, mic: Json, duration: real,
                           videoVolume: Json, micVolume: Json, vcodec: string, extra: seq<string>, output: string)
    ensures var cmd := MixCommand(start, video, micStart, mic, duration, videoVolume, micVolume, vcodec, extra, output);
            && HasGraph(cmd) && |cmd| >= 14
            && cmd[5] == Value(video) && cmd[6] == Lit("-ss") && cmd[7] == Num(micStart)
            && cmd[8] == Lit("-i") && cmd[9] == Value(mic) && cmd[13] == MixGraph(videoVolume, micVolume)
  {
    var cmd := MixCommand(start, video, micStart, mic, duration, videoVolume, micVolume, vcodec, extra, output);
    assert cmd[13].MixGraph?;
  }

  lemma VideoOnlyHasNoGraph(start: real, video: Json, duration: real, vcodec: string, extra: seq<string>,
                            output: string)
    ensures !HasGraph(VideoOnlyCommand(start, video, duration, vcodec, extra, output))
    ensures Lit("0:a") in VideoOnlyCommand(start, video, duration, vcodec, extra, output)
    ensures VideoOnlyCommand(start, video, duration, vcodec, extra, output)[5] == Value(video)
  {
    var cmd := VideoOnlyCommand(start, video, duration, vcodec, extra, output);
    var head := [Lit("ffmpeg"), Lit("-y"), Lit("-ss"), Num(start), Lit("-i"), Value(video),
                 Lit("-t"), Num(duration), Lit("-map"), Lit("0:v"), Lit("-map"), Lit("0:a"),
                 Lit("-vf"), Lit("yadif"), Lit("-c:v"), Lit(vcodec)];
    var tail := [Lit("-c:a"), Lit("aac"), Lit("-b:a"), Lit("192k"), Lit(output)];
    assert cmd == head + Lits(extra) + tail;
    assert cmd[11] == Lit("0:a");
    LitsNoGraph(extra);
    forall m | 0 <= m < |cmd| ensures !cmd[m].MixGraph? {
      if m < |head| {
        assert cmd[m] == head[m];
      } else if m < |head| + |Lits(extra)| {
        assert cmd[m] == Lits(extra)[m - |head|];
      } else {
        assert cmd[m] == tail[m - |head| - |Lits(extra)|];
      }
    }
  }

  /** Different segment indexes are written to different files. */
  lemma OutputNamesDistinct(outputDir: string, stem: string, i: nat, j: nat)
    requires forall m :: 0 <= m < |stem| ==> stem[m] != '/'
    requires i != j
    ensures OutputName(outputDir, stem, i) != OutputName(outputDir, stem, j)
  {
    var x := stem + "_performance_" + Strings.NatToString(i + 1) + ".mp4";
    var y := stem + "_performance_" + Strings.NatToString(j + 1) + ".mp4";
    assert x[0] != '/' && y[0] != '/' by {
      if |stem| > 0 {
        assert x[0] == stem[0] && y[0] == stem[0];
      } else {
        assert x[0] == '_' && y[0] == '_';
      }
    }
    if OutputName(outputDir, stem, i) == OutputName(outputDir, stem, j) {
      Strings.PathJoinInjective(outputDir, x, y);
      Strings.CancelAround(stem + "_performance_", Strings.NatToString(i + 1), Strings.NatToString(j + 1), ".mp4");
      Strings.NatToStringInjective(i + 1, j + 1);
    }
  }

  /** The base name of the first input has no `/`, so its outputs are distinct per segment. */
  lemma PlanOutputsDistinct(videoPaths: seq<string>, outputDir: string, i: nat, j: nat)
    requires |videoPaths| > 0 && i != j
    ensures OutputName(outputDir, StemOfFirst(videoPaths), i) != OutputName(outputDir, StemOfFirst(videoPaths), j)
  {
    Strings.StemHasNoSlash(Strings.Basename(videoPaths[0]));
    OutputNamesDistinct(outputDir, StemOfFirst(videoPaths), i, j);
  }
}
