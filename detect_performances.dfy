/**
 * The stage-occupancy detector of `detect_performances`: a two-state
 * machine (EMPTY, PERFORMING) run over the tracker's per-frame boxes.
 * A frame is "occupied" when some tracked box has its horizontal centre
 * strictly inside the centre zone; an interval opens on the first occupied
 * frame after an empty one, closes on the next empty frame (or at the end
 * of the stream), and is kept when it lasts at least the minimum duration.
 *
 * The tracker and the capture are inputs: `frames` is what `cap.read()`
 * yields until it fails, `isOpened` is `cap.isOpened()`, `trackerOk` says
 * whether the tracker could be initialised.
 */
module DetectPerformances {
  import opened Wrappers
  import Sorting

  /** One tracked object of a frame: its box, its track id and its class. */
  datatype Box = Box(x1: real, y1: real, x2: real, y2: real, trackId: int, classId: int)

  type Frame = seq<Box>

  /** The keys of the detection configuration; `None` is an absent key. */
  datatype DetectionOptions = DetectionOptions(
    maxSecondsToProcess: Option<real>,
    minDurationSeconds: Option<real>,
    leftZoneEndPercent: Option<real>,
    centerZoneWidthPercent: Option<real>)

  const DefaultMinDuration: real := 10.0
  const DefaultLeftPercent: real := 0.15
  const DefaultCenterPercent: real := 0.70

  function MinDuration(opts: DetectionOptions): real {
    opts.minDurationSeconds.GetOr(DefaultMinDuration)
  }

  /** A performance interval in seconds. */
  datatype Interval = Interval(start: real, end: real)

  // ---------------------------------------------------------------------
  // The centre zone

  /** Python's `int(r)`: truncation toward zero. */
  function Trunc(r: real): int {
    if r >= 0.0 then r.Floor else -((-r).Floor)
  }

  /**
   * `max_frames`: `int(max_seconds * fps)` when the option is set and
   * non-zero, otherwise no limit (`None` stands for `float('inf')`).
   */
  function MaxFrames(opts: DetectionOptions, fps: real): Option<int> {
    match opts.maxSecondsToProcess
    case Some(s) => if s != 0.0 then Some(Trunc(s * fps)) else None
    case None => None
  }

  /** How many frames the loop consumes from a stream of `available` frames. */
  function FramesProcessed(available: nat, limit: Option<int>): (n: nat)
    ensures n <= available
    ensures limit.Some? ==> n <= if limit.value < 0 then 0 else limit.value
    ensures limit.None? ==> n == available
  {
    match limit
    case None => available
    case Some(m) => if m <= 0 then 0 else if m < available then m else available
  }

  /** `LEFT_ZONE_END < (x1 + x2) / 2 < CENTER_ZONE_END`, both strict. */
  predicate InZone(b: Box, lo: real, hi: real) {
    lo < (b.x1 + b.x2) / 2.0 < hi
  }

  /** `current_center_ids`: the track ids of the boxes in the zone. */
  function CenterIds(f: Frame, lo: real, hi: real): set<int> {
    set i | 0 <= i < |f| && InZone(f[i], lo, hi) :: f[i].trackId
  }

  lemma CenterIdsNonEmptyIff(f: Frame, lo: real, hi: real)
    ensures CenterIds(f, lo, hi) != {} <==> exists i :: 0 <= i < |f| && InZone(f[i], lo, hi)
  {
    if exists i :: 0 <= i < |f| && InZone(f[i], lo, hi) {
      var i :| 0 <= i < |f| && InZone(f[i], lo, hi);
      assert f[i].trackId in CenterIds(f, lo, hi);
    }
  }

  /** The inner `for` loop that builds `current_center_ids`. */
  method ComputeCenterIds(f: Frame, lo: real, hi: real) returns (ids: set<int>)
    ensures ids == CenterIds(f, lo, hi)
  {
    ids := {};
    var k := 0;
    while k < |f|
      invariant 0 <= k <= |f|
      invariant ids == set i | 0 <= i < k && InZone(f[i], lo, hi) :: f[i].trackId
    {
      var b := f[k];
      var centerX := (b.x1 + b.x2) / 2.0;
      if lo < centerX < hi {
        ids := ids + {b.trackId};
      }
      k := k + 1;
    }
  }

  /** The occupancy of each frame: does `current_center_ids` come out non-empty? */
  function Occupancy(frames: seq<Frame>, lo: real, hi: real): (occ: seq<bool>)
    ensures |occ| == |frames|
  {
    seq(|frames|, i requires 0 <= i < |frames| => CenterIds(frames[i], lo, hi) != {})
  }

  // ---------------------------------------------------------------------
  // The state machine, on frame numbers

  /** The frames `first .. stop - 1` of one interval. */
  datatype FrameSpan = FrameSpan(first: nat, stop: nat)

  datatype Stage = Empty | Performing(startFrame: nat)

  datatype Machine = Machine(stage: Stage, spans: seq<FrameSpan>)

  /** `end_time - performance_start_time >= min_duration_seconds`. */
  predicate LongEnough(first: nat, stop: nat, fps: real, minDur: real)
    requires fps != 0.0
  {
    stop as real / fps - first as real / fps >= minDur
  }

  /** One pass of the loop body for frame `frameNumber`: the `if`/`elif`. */
  function Step(m: Machine, occupied: bool, frameNumber: nat, fps: real, minDur: real): Machine
    requires fps != 0.0
  {
    if m.stage.Empty? && occupied then
      Machine(Performing(frameNumber), m.spans)
    else if m.stage.Performing? && !occupied then
      var s := m.stage.startFrame;
      Machine(Empty, if LongEnough(s, frameNumber, fps, minDur)
                     then m.spans + [FrameSpan(s, frameNumber)] else m.spans)
    else m
  }

  /** The machine after the frames of `occ`, starting EMPTY with no segments. */
  function Run(occ: seq<bool>, fps: real, minDur: real): Machine
    requires fps != 0.0
  {
    if occ == [] then Machine(Empty, [])
    else Step(Run(occ[..|occ| - 1], fps, minDur), occ[|occ| - 1], |occ| - 1, fps, minDur)
  }

  /** What happens after the loop: an open interval is closed at `frame_number / fps`. */
  function Finish(m: Machine, n: nat, fps: real, minDur: real): seq<FrameSpan>
    requires fps != 0.0
  {
    match m.stage
    case Performing(s) => if LongEnough(s, n, fps, minDur) then m.spans + [FrameSpan(s, n)] else m.spans
    case Empty => m.spans
  }

  function ToInterval(sp: FrameSpan, fps: real): Interval
    requires fps != 0.0
  {
    Interval(sp.first as real / fps, sp.stop as real / fps)
  }

  function ToTimes(spans: seq<FrameSpan>, fps: real): (r: seq<Interval>)
    requires fps != 0.0
    ensures |r| == |spans|
    ensures forall i :: 0 <= i < |spans| ==> r[i] == ToInterval(spans[i], fps)
  {
    if spans == [] then [] else ToTimes(spans[..|spans| - 1], fps) + [ToInterval(spans[|spans| - 1], fps)]
  }

  /** The key of the final `sorted(..., key=lambda x: x[0])`. */
  predicate StartLe(a: Interval, b: Interval) {
    a.start <= b.start
  }

  /** The zone bounds `LEFT_ZONE_END` and `CENTER_ZONE_END` for a frame `width` pixels wide. */
  function ZoneLow(width: int, opts: DetectionOptions): real {
    width as real * opts.leftZoneEndPercent.GetOr(DefaultLeftPercent)
  }

  function ZoneHigh(width: int, opts: DetectionOptions): real {
    width as real * (opts.leftZoneEndPercent.GetOr(DefaultLeftPercent)
                     + opts.centerZoneWidthPercent.GetOr(DefaultCenterPercent))
  }

  /** The occupancy of the frames the loop reads. */
  function ScannedOccupancy(width: int, fps: real, frames: seq<Frame>, opts: DetectionOptions): (occ: seq<bool>)
    ensures |occ| == FramesProcessed(|frames|, MaxFrames(opts, fps))
  {
    var n := FramesProcessed(|frames|, MaxFrames(opts, fps));
    Occupancy(frames[..n], ZoneLow(width, opts), ZoneHigh(width, opts))
  }

  /** The intervals, in frame numbers, that the loop and the end-of-stream close collect. */
  function DetectedSpans(width: int, fps: real, frames: seq<Frame>, opts: DetectionOptions): seq<FrameSpan>
    requires fps != 0.0
  {
    var occ := ScannedOccupancy(width, fps, frames, opts);
    Finish(Run(occ, fps, MinDuration(opts)), |occ|, fps, MinDuration(opts))
  }

  /** Python's `a / b` on floats: a zero divisor raises. */
  function Quotient(a: real, b: real): (r: Result<real, string>)
    ensures r.Failure? <==> b == 0.0
    ensures r.Success? ==> r.value * b == a
  {
    if b == 0.0 then Failure(ZeroDivision) else Success(a / b)
  }

  const ZeroDivision: string := "ZeroDivisionError: float division by zero"

  /** Every hundredth frame the progress line prints `frame_number / fps`. */
  const ProgressEvery: nat := 100

  /**
   * With `fps` 0 a run can never open: the first occupied frame raises at
   * `frame_number / fps`, and so does the progress line once a hundred
   * frames are read.
   */
  predicate ZeroFpsRaises(occ: seq<bool>) {
    |occ| >= ProgressEvery || exists i :: 0 <= i < |occ| && occ[i]
  }

  /** What `detect_performances` returns, or the `ZeroDivisionError` it raises. */
  function Detect(isOpened: bool, trackerOk: bool, width: int, fps: real,
                  frames: seq<Frame>, opts: DetectionOptions): Result<seq<Interval>, string>
  {
    if !isOpened || !trackerOk then Success([])
    else if fps == 0.0 then
      (if ZeroFpsRaises(ScannedOccupancy(width, fps, frames, opts)) then Failure(ZeroDivision) else Success([]))
    else Success(Sorting.Sort(ToTimes(DetectedSpans(width, fps, frames, opts), fps), StartLe))
  }

  lemma RunPrefixStep(frames: seq<Frame>, lo: real, hi: real, k: nat, fps: real, minDur: real)
    requires k < |frames| && fps != 0.0
    ensures Run(Occupancy(frames[..k + 1], lo, hi), fps, minDur)
         == Step(Run(Occupancy(frames[..k], lo, hi), fps, minDur), CenterIds(frames[k], lo, hi) != {}, k, fps, minDur)
  {
    var after := Occupancy(frames[..k + 1], lo, hi);
    assert after[..k] == Occupancy(frames[..k], lo, hi);
  }

  lemma ToTimesAppend(spans: seq<FrameSpan>, sp: FrameSpan, fps: real)
    requires fps != 0.0
    ensures ToTimes(spans + [sp], fps) == ToTimes(spans, fps) + [ToInterval(sp, fps)]
  {
    assert (spans + [sp])[..|spans|] == spans;
  }

  lemma DetectUnfold(trackerOk: bool, width: int, fps: real, frames: seq<Frame>, opts: DetectionOptions,
                     segments: seq<Interval>)
    requires fps != 0.0 && trackerOk
    requires var n := FramesProcessed(|frames|, MaxFrames(opts, fps));
      segments == ToTimes(Finish(Run(Occupancy(frames[..n], ZoneLow(width, opts), ZoneHigh(width, opts)),
                                     fps, MinDuration(opts)), n, fps, MinDuration(opts)), fps)
    ensures Detect(true, trackerOk, width, fps, frames, opts) == Success(Sorting.Sort(segments, StartLe))
  {
  }

  // ---------------------------------------------------------------------
  // The loop itself

  datatype StageStatus = EMPTY | PERFORMING

  /** The three loop variables `stage_status`, `performance_start_time` and `performance_segments` hold the machine `m`. */
  predicate Holds(m: Machine, stageStatus: StageStatus, performanceStartTime: real,
                  performanceSegments: seq<Interval>, fps: real)
    requires fps != 0.0
  {
    && (stageStatus == PERFORMING <==> m.stage.Performing?)
    && (m.stage.Performing? ==> performanceStartTime == m.stage.startFrame as real / fps)
    && performanceSegments == ToTimes(m.spans, fps)
  }

  /**
   * The `if`/`elif` of the loop body, on the loop variables: it performs
   * one `Step`. With `fps` 0 the stage is still EMPTY, and an occupied
   * frame raises where the start time is divided out.
   */
  method StepVariables(stageStatus: StageStatus, performanceStartTime: real, performanceSegments: seq<Interval>,
                       ghost m: Machine, occupied: bool, frameNumber: nat, fps: real, minDur: real)
    returns (status': StageStatus, start': real, segments': seq<Interval>, error: Option<string>)
    requires fps != 0.0 ==> Holds(m, stageStatus, performanceStartTime, performanceSegments, fps)
    requires fps == 0.0 ==> stageStatus == EMPTY && performanceSegments == []
    ensures error.Some? <==> fps == 0.0 && occupied
    ensures error.Some? ==> error.value == ZeroDivision
    ensures fps != 0.0 ==> Holds(Step(m, occupied, frameNumber, fps, minDur), status', start', segments', fps)
    ensures fps == 0.0 && !occupied ==> status' == EMPTY && segments' == []
  {
    status', start', segments', error := stageStatus, performanceStartTime, performanceSegments, None;
    if stageStatus == EMPTY && occupied {
      status' := PERFORMING;
      var q := Quotient(frameNumber as real, fps);
      if q.Failure? {
        error := Some(q.error);
        return;
      }
      start' := q.value;
    } else if stageStatus == PERFORMING && !occupied {
      status' := EMPTY;
      var endTime := frameNumber as real / fps;
      if endTime - performanceStartTime >= minDur {
        ToTimesAppend(m.spans, FrameSpan(m.stage.startFrame, frameNumber), fps);
        segments' := performanceSegments + [Interval(performanceStartTime, endTime)];
      }
      start' := 0.0;
    }
  }

  /**
   * The `while` loop: reads frames until the stream ends or `max_frames`
   * is reached, and returns the state it leaves behind, or the division
   * by a zero `fps` that ends it.
   */
  method ScanFrames(frames: seq<Frame>, maxFrames: Option<int>, lo: real, hi: real, fps: real, minDur: real)
    returns (stageStatus: StageStatus, performanceStartTime: real, performanceSegments: seq<Interval>,
             frameNumber: nat, error: Option<string>)
    ensures error.Some? <==> fps == 0.0 && ZeroFpsRaises(Occupancy(frames[..FramesProcessed(|frames|, maxFrames)], lo, hi))
    ensures error.Some? ==> error.value == ZeroDivision
    ensures error.None? ==> frameNumber == FramesProcessed(|frames|, maxFrames)
    ensures error.None? && fps == 0.0 ==> stageStatus == EMPTY && performanceSegments == []
    ensures error.None? && fps != 0.0 ==>
      var m := Run(Occupancy(frames[..frameNumber], lo, hi), fps, minDur);
      && (stageStatus == PERFORMING <==> m.stage.Performing?)
      && (m.stage.Performing? ==> performanceStartTime == m.stage.startFrame as real / fps)
      && performanceSegments == ToTimes(m.spans, fps)
  {
    stageStatus := EMPTY;
    performanceStartTime := 0.0;
    performanceSegments := [];
    error := None;
    ghost var n := FramesProcessed(|frames|, maxFrames);
    ghost var m := Machine(Empty, []);

    frameNumber := 0;
    while maxFrames.None? || frameNumber < maxFrames.value
      invariant frameNumber <= n && error.None?
      invariant fps != 0.0 ==> m == Run(Occupancy(frames[..frameNumber], lo, hi), fps, minDur)
      invariant fps != 0.0 ==> Holds(m, stageStatus, performanceStartTime, performanceSegments, fps)
      invariant fps == 0.0 ==> stageStatus == EMPTY && performanceSegments == [] && frameNumber < ProgressEvery
      invariant fps == 0.0 ==> forall i :: 0 <= i < frameNumber ==> CenterIds(frames[i], lo, hi) == {}
      invariant frameNumber < n ==> (maxFrames.None? || frameNumber < maxFrames.value)
      decreases |frames| - frameNumber
    {
      if frameNumber >= |frames| {
        break;  // cap.read() reported no frame
      }
      var currentCenterIds := ComputeCenterIds(frames[frameNumber], lo, hi);
      if fps != 0.0 {
        RunPrefixStep(frames, lo, hi, frameNumber, fps, minDur);
      }
      stageStatus, performanceStartTime, performanceSegments, error :=
        StepVariables(stageStatus, performanceStartTime, performanceSegments, m,
                      |currentCenterIds| > 0, frameNumber, fps, minDur);
      if error.Some? {
        assert frameNumber < n;
        ZeroFpsRaisesAt(frames, lo, hi, n, frameNumber);
        return;
      }
      if fps != 0.0 {
        m := Step(m, currentCenterIds != {}, frameNumber, fps, minDur);
      }
      frameNumber := frameNumber + 1;
      if frameNumber % ProgressEvery == 0 {
        var q := Quotient(frameNumber as real, fps);  // the progress line's time
        if q.Failure? {
          error := Some(q.error);
          assert frameNumber == ProgressEvery <= n;
          assert |Occupancy(frames[..n], lo, hi)| >= ProgressEvery;
          return;
        }
      }
    }
    assert frameNumber == n;
    if fps == 0.0 {
      ZeroFpsQuiet(frames, lo, hi, n);
    }
  }

  /** An occupied frame among those read makes a zero `fps` raise. */
  lemma ZeroFpsRaisesAt(frames: seq<Frame>, lo: real, hi: real, n: nat, k: nat)
    requires k < n <= |frames| && CenterIds(frames[k], lo, hi) != {}
    ensures ZeroFpsRaises(Occupancy(frames[..n], lo, hi))
  {
    assert Occupancy(frames[..n], lo, hi)[k];
  }

  /** Fewer than a hundred frames read, none occupied: a zero `fps` is never divided by. */
  lemma ZeroFpsQuiet(frames: seq<Frame>, lo: real, hi: real, n: nat)
    requires n <= |frames| && n < ProgressEvery
    requires forall i :: 0 <= i < n ==> CenterIds(frames[i], lo, hi) == {}
    ensures !ZeroFpsRaises(Occupancy(frames[..n], lo, hi))
  {
    var occ := Occupancy(frames[..n], lo, hi);
    forall i | 0 <= i < |occ| ensures !occ[i] {
      assert frames[..n][i] == frames[i];
    }
  }

  /** `detect_performances`: the scan, the end-of-stream close, and the sort by start time. */
  method DetectPerformances(isOpened: bool, trackerOk: bool, width: int, fps: real,
                            frames: seq<Frame>, opts: DetectionOptions)
    returns (result: Result<seq<Interval>, string>)
    ensures result == Detect(isOpened, trackerOk, width, fps, frames, opts)
  {
    if !isOpened {
      return Success([]);
    }
    var maxFrames := MaxFrames(opts, fps);
    if !trackerOk {
      return Success([]);
    }
    var leftPercent := opts.leftZoneEndPercent.GetOr(DefaultLeftPercent);
    var centerPercent := opts.centerZoneWidthPercent.GetOr(DefaultCenterPercent);
    var leftZoneEnd := width as real * leftPercent;
    var centerZoneEnd := width as real * (leftPercent + centerPercent);
    assert leftZoneEnd == ZoneLow(width, opts) && centerZoneEnd == ZoneHigh(width, opts);
    var minDur := MinDuration(opts);

    var stageStatus, performanceStartTime, performanceSegments, frameNumber, error :=
      ScanFrames(frames, maxFrames, leftZoneEnd, centerZoneEnd, fps, minDur);
    if error.Some? {
      return Failure(error.value);
    }
    if fps == 0.0 {
      return Success(Sorting.Sort(performanceSegments, StartLe));
    }
    ghost var m := Run(Occupancy(frames[..frameNumber], leftZoneEnd, centerZoneEnd), fps, minDur);

    if stageStatus == PERFORMING {
      var endTime := frameNumber as real / fps;
      if endTime - performanceStartTime >= minDur {
        ToTimesAppend(m.spans, FrameSpan(m.stage.startFrame, frameNumber), fps);
        performanceSegments := performanceSegments + [Interval(performanceStartTime, endTime)];
      }
    }
    assert performanceSegments == ToTimes(Finish(m, frameNumber, fps, minDur), fps);
    result := Success(Sorting.Sort(performanceSegments, StartLe));
    DetectUnfold(trackerOk, width, fps, frames, opts, performanceSegments);
  }

  // ---------------------------------------------------------------------
  // What is detected: exactly the long enough maximal runs of occupied frames

  predicate AllOccupied(occ: seq<bool>, a: nat, b: nat)
    requires a <= b <= |occ|
  {
    forall f :: a <= f < b ==> occ[f]
  }

  /** Frames `a .. b - 1` are occupied, frame `a - 1` (if any) and frame `b` are not. */
  predicate ClosedRun(occ: seq<bool>, a: nat, b: nat) {
    a < b < |occ| && AllOccupied(occ, a, b) && (a == 0 || !occ[a - 1]) && !occ[b]
  }

  /** As `ClosedRun`, but the run may also last to the end of the stream. */
  predicate MaximalRun(occ: seq<bool>, a: nat, b: nat) {
    a < b <= |occ| && AllOccupied(occ, a, b) && (a == 0 || !occ[a - 1]) && (b == |occ| || !occ[b])
  }

  predicate Ordered(spans: seq<FrameSpan>) {
    forall i, j :: 0 <= i < j < |spans| ==> spans[i].stop < spans[j].first
  }

  /** What the loop has established after the frames of `occ`. */
  ghost predicate RunInv(m: Machine, occ: seq<bool>, fps: real, minDur: real)
    requires fps != 0.0
  {
    && (forall sp :: sp in m.spans ==> ClosedRun(occ, sp.first, sp.stop) && LongEnough(sp.first, sp.stop, fps, minDur))
    && (forall a: nat, b: nat :: ClosedRun(occ, a, b) && LongEnough(a, b, fps, minDur) ==> FrameSpan(a, b) in m.spans)
    && Ordered(m.spans)
    && match m.stage
       case Performing(s) =>
         && s < |occ| && AllOccupied(occ, s, |occ|) && (s == 0 || !occ[s - 1])
         && (forall sp :: sp in m.spans ==> sp.stop < s)
       case Empty => occ == [] || !occ[|occ| - 1]
  }

  /** Two maximal runs that end at the same frame start at the same frame. */
  lemma RunStartUnique(occ: seq<bool>, a: nat, s: nat, b: nat)
    requires a < b && s < b && b <= |occ|
    requires AllOccupied(occ, a, b) && (a == 0 || !occ[a - 1])
    requires AllOccupied(occ, s, b) && (s == 0 || !occ[s - 1])
    ensures a == s
  {
  }

  lemma ClosedRunPrefix(p: seq<bool>, x: bool, a: nat, b: nat)
    requires b < |p|
    ensures ClosedRun(p + [x], a, b) <==> ClosedRun(p, a, b)
  {
    var q := p + [x];
    if a <= b {
      assert forall f :: a <= f <= b ==> q[f] == p[f];
    }
  }

  /** The only closed run that a new frame can complete is the one in progress. */
  lemma NewClosedRun(m: Machine, p: seq<bool>, x: bool, a: nat, fps: real, minDur: real)
    requires fps != 0.0
    requires RunInv(m, p, fps, minDur)
    requires ClosedRun(p + [x], a, |p|)
    ensures m.stage.Performing? && a == m.stage.startFrame && !x
  {
    var q := p + [x];
    assert q[|p| - 1] == p[|p| - 1];
    match m.stage
    case Empty =>
      assert false;
    case Performing(s) =>
      assert forall f :: s <= f < |p| ==> q[f] == p[f];
      assert s == 0 || q[s - 1] == p[s - 1];
      RunStartUnique(q, a, s, |p|);
  }

  /** How the closed runs of `p + [x]` relate to those of `p`. */
  lemma ClosedRunsExtended(m: Machine, p: seq<bool>, x: bool, fps: real, minDur: real)
    requires fps != 0.0
    requires RunInv(m, p, fps, minDur)
    ensures forall a: nat, b: nat :: b < |p| ==> (ClosedRun(p + [x], a, b) <==> ClosedRun(p, a, b))
    ensures forall a: nat :: ClosedRun(p + [x], a, |p|) ==> m.stage.Performing? && a == m.stage.startFrame && !x
    ensures forall a: nat, b: nat :: ClosedRun(p + [x], a, b) ==> b <= |p|
  {
    forall a: nat, b: nat | b < |p|
      ensures ClosedRun(p + [x], a, b) <==> ClosedRun(p, a, b)
    {
      ClosedRunPrefix(p, x, a, b);
    }
    forall a: nat | ClosedRun(p + [x], a, |p|)
      ensures m.stage.Performing? && a == m.stage.startFrame && !x
    {
      NewClosedRun(m, p, x, a, fps, minDur);
    }
  }

  lemma RunInProgressCloses(p: seq<bool>, s: nat)
    requires s < |p| && AllOccupied(p, s, |p|) && (s == 0 || !p[s - 1])
    ensures ClosedRun(p + [false], s, |p|)
  {
    var q := p + [false];
    assert forall f :: s <= f < |p| ==> q[f] == p[f];
    assert s == 0 || q[s - 1] == p[s - 1];
  }

  /** A frame that ends the run in progress. */
  lemma StepInvClose(m: Machine, p: seq<bool>, fps: real, minDur: real)
    requires fps != 0.0
    requires RunInv(m, p, fps, minDur) && m.stage.Performing?
    ensures RunInv(Step(m, false, |p|, fps, minDur), p + [false], fps, minDur)
  {
    var s := m.stage.startFrame;
    ClosedRunsExtended(m, p, false, fps, minDur);
    RunInProgressCloses(p, s);
    if LongEnough(s, |p|, fps, minDur) {
      OrderedAppend(m.spans, FrameSpan(s, |p|));
    }
  }

  /** Any other frame: the segments stay, the stage follows the frame. */
  lemma StepInvOther(m: Machine, p: seq<bool>, x: bool, fps: real, minDur: real)
    requires fps != 0.0
    requires RunInv(m, p, fps, minDur) && !(m.stage.Performing? && !x)
    ensures RunInv(Step(m, x, |p|, fps, minDur), p + [x], fps, minDur)
  {
    var q := p + [x];
    ClosedRunsExtended(m, p, x, fps, minDur);
    match m.stage
    case Empty =>
    case Performing(s) =>
      assert forall f :: s <= f < |q| ==> q[f];
  }

  lemma StepInv(m: Machine, p: seq<bool>, x: bool, fps: real, minDur: real)
    requires fps != 0.0
    requires RunInv(m, p, fps, minDur)
    ensures RunInv(Step(m, x, |p|, fps, minDur), p + [x], fps, minDur)
  {
    if m.stage.Performing? && !x {
      StepInvClose(m, p, fps, minDur);
    } else {
      StepInvOther(m, p, x, fps, minDur);
    }
  }

  lemma OrderedAppend(spans: seq<FrameSpan>, sp: FrameSpan)
    requires Ordered(spans)
    requires forall t :: t in spans ==> t.stop < sp.first
    ensures Ordered(spans + [sp])
  {
    var r := spans + [sp];
    forall i, j | 0 <= i < j < |r| ensures r[i].stop < r[j].first {
      if j == |spans| {
        assert r[i] in spans;
      }
    }
  }

  lemma {:induction false} RunInvariant(occ: seq<bool>, fps: real, minDur: real)
    requires fps != 0.0
    ensures RunInv(Run(occ, fps, minDur), occ, fps, minDur)
  {
    if occ != [] {
      var p := occ[..|occ| - 1];
      RunInvariant(p, fps, minDur);
      assert p + [occ[|occ| - 1]] == occ;
      StepInv(Run(p, fps, minDur), p, occ[|occ| - 1], fps, minDur);
    }
  }

  /**
   * The spans collected over the frames `occ` are exactly its maximal runs
   * of occupied frames that last at least `minDur` seconds, and they come
   * in order, each ending before the next begins.
   */
  lemma {:induction false} FinishExact(occ: seq<bool>, fps: real, minDur: real)
    requires fps != 0.0
    ensures var r := Finish(Run(occ, fps, minDur), |occ|, fps, minDur);
      && (forall a: nat, b: nat :: FrameSpan(a, b) in r <==> MaximalRun(occ, a, b) && LongEnough(a, b, fps, minDur))
      && Ordered(r)
  {
    var m := Run(occ, fps, minDur);
    RunInvariant(occ, fps, minDur);
    var r := Finish(m, |occ|, fps, minDur);
    forall a: nat, b: nat
      ensures FrameSpan(a, b) in r <==> MaximalRun(occ, a, b) && LongEnough(a, b, fps, minDur)
    {
      if b < |occ| {
        assert MaximalRun(occ, a, b) <==> ClosedRun(occ, a, b);
      } else if MaximalRun(occ, a, b) {
        assert b == |occ|;
        match m.stage
        case Empty =>
          assert false;
        case Performing(s) =>
          RunStartUnique(occ, a, s, b);
      }
    }
    if m.stage.Performing? && LongEnough(m.stage.startFrame, |occ|, fps, minDur) {
      OrderedAppend(m.spans, FrameSpan(m.stage.startFrame, |occ|));
    }
  }

  /**
   * `detect_performances` reports exactly the maximal runs of occupied
   * frames, among those it reads, that last at least the minimum duration.
   */
  lemma DetectedSpansExact(width: int, fps: real, frames: seq<Frame>, opts: DetectionOptions)
    requires fps != 0.0
    ensures var occ := ScannedOccupancy(width, fps, frames, opts);
      forall a: nat, b: nat :: FrameSpan(a, b) in DetectedSpans(width, fps, frames, opts)
        <==> MaximalRun(occ, a, b) && LongEnough(a, b, fps, MinDuration(opts))
    ensures Ordered(DetectedSpans(width, fps, frames, opts))
  {
    FinishExact(ScannedOccupancy(width, fps, frames, opts), fps, MinDuration(opts));
  }

  /**
   * The result: empty when the capture or the tracker fails; otherwise,
   * for a positive `fps`, the detected spans in seconds, each lasting at
   * least the minimum and ending before the next begins, so that the final
   * sort leaves them as they are.
   */
  lemma DetectShape(isOpened: bool, trackerOk: bool, width: int, fps: real,
                    frames: seq<Frame>, opts: DetectionOptions)
    requires fps > 0.0
    ensures Detect(isOpened, trackerOk, width, fps, frames, opts).Success?
    ensures var r := Detect(isOpened, trackerOk, width, fps, frames, opts).value;
      && (!isOpened || !trackerOk ==> r == [])
      && (isOpened && trackerOk ==> r == ToTimes(DetectedSpans(width, fps, frames, opts), fps))
      && (forall i :: 0 <= i < |r| ==> r[i].start < r[i].end && r[i].end - r[i].start >= MinDuration(opts))
      && (forall i, j :: 0 <= i < j < |r| ==> r[i].end < r[j].start)
  {
    if isOpened && trackerOk {
      var spans := DetectedSpans(width, fps, frames, opts);
      DetectedSpansExact(width, fps, frames, opts);
      forall i | 0 <= i < |spans|
        ensures spans[i].first < spans[i].stop && LongEnough(spans[i].first, spans[i].stop, fps, MinDuration(opts))
      {
        var sp := spans[i];
        assert FrameSpan(sp.first, sp.stop) in spans;
      }
      TimesShape(spans, fps, MinDuration(opts));
    }
  }

  /**
   * A zero `fps` (what the capture reports when it knows none) finds no
   * segment. With `max_seconds_to_process` set, `max_frames` is 0 and
   * nothing is read; without it, the detector raises exactly when it reads
   * an occupied frame or a hundred frames.
   */
  lemma ZeroFps(isOpened: bool, trackerOk: bool, width: int, frames: seq<Frame>, opts: DetectionOptions)
    ensures Detect(isOpened, trackerOk, width, 0.0, frames, opts).Success? ==>
              Detect(isOpened, trackerOk, width, 0.0, frames, opts).value == []
    ensures opts.maxSecondsToProcess.Some? && opts.maxSecondsToProcess.value != 0.0 ==>
              Detect(isOpened, trackerOk, width, 0.0, frames, opts) == Success([])
    ensures isOpened && trackerOk && opts.maxSecondsToProcess.GetOr(0.0) == 0.0 ==>
              (Detect(isOpened, trackerOk, width, 0.0, frames, opts).Failure? <==>
                 |frames| >= ProgressEvery
                 || exists i :: 0 <= i < |frames| && CenterIds(frames[i], ZoneLow(width, opts), ZoneHigh(width, opts)) != {})
  {
    var lo, hi := ZoneLow(width, opts), ZoneHigh(width, opts);
    if isOpened && trackerOk && opts.maxSecondsToProcess.GetOr(0.0) == 0.0 {
      assert MaxFrames(opts, 0.0).None?;
      assert frames[..|frames|] == frames;
      var occ := ScannedOccupancy(width, 0.0, frames, opts);
      assert occ == Occupancy(frames, lo, hi);
      if exists i :: 0 <= i < |frames| && CenterIds(frames[i], lo, hi) != {} {
        var i :| 0 <= i < |frames| && CenterIds(frames[i], lo, hi) != {};
        assert occ[i];
      }
    }
  }

  /** Ordered spans of enough frames become ordered intervals of enough seconds, already sorted by start. */
  lemma TimesShape(spans: seq<FrameSpan>, fps: real, minDur: real)
    requires fps > 0.0 && Ordered(spans)
    requires forall i :: 0 <= i < |spans| ==> spans[i].first < spans[i].stop && LongEnough(spans[i].first, spans[i].stop, fps, minDur)
    ensures var t := ToTimes(spans, fps);
      && (forall i :: 0 <= i < |t| ==> t[i].start < t[i].end && t[i].end - t[i].start >= minDur)
      && (forall i, j :: 0 <= i < j < |t| ==> t[i].end < t[j].start)
      && Sorting.Sort(t, StartLe) == t
  {
    var t := ToTimes(spans, fps);
    forall i | 0 <= i < |t|
      ensures t[i].start < t[i].end && t[i].end - t[i].start >= minDur
    {
      DivMonotone(spans[i].first, spans[i].stop, fps);
    }
    forall i, j | 0 <= i < j < |t|
      ensures t[i].end < t[j].start
    {
      DivMonotone(spans[i].stop, spans[j].first, fps);
    }
    assert Sorting.SortedBy(t, StartLe) by {
      forall i, j | 0 <= i < j < |t| ensures StartLe(t[i], t[j]) {
        assert t[i].start < t[i].end < t[j].start;
      }
    }
    Sorting.SortOfSorted(t, StartLe);
  }

  lemma DivMonotone(a: nat, b: nat, fps: real)
    requires a < b && fps > 0.0
    ensures a as real / fps < b as real / fps
  {
  }

  /** Frames after the first `max_seconds_to_process * fps` are never read. */
  lemma FramesPastLimitIgnored(isOpened: bool, trackerOk: bool, width: int, fps: real,
                               frames: seq<Frame>, opts: DetectionOptions)
    ensures var n := FramesProcessed(|frames|, MaxFrames(opts, fps));
      Detect(isOpened, trackerOk, width, fps, frames, opts) == Detect(isOpened, trackerOk, width, fps, frames[..n], opts)
  {
    var n := FramesProcessed(|frames|, MaxFrames(opts, fps));
    assert FramesProcessed(n, MaxFrames(opts, fps)) == n;
    assert frames[..n][..n] == frames[..n];
  }
}
