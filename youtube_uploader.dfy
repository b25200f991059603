/**
 * `youtube_uploader`: the daily quota bookkeeping (`QuotaManager`), the
 * retrying upload of one video and the batch upload of a directory.
 *
 * Times are whole seconds since the epoch, in UTC. The clock readings,
 * the random jitter of the back-off, the outcome of every upload attempt,
 * the saved state file and the confirmation callback are inputs.
 */
module YoutubeUploader {
  import opened Wrappers
  import opened JsonValue
  import Strings
  import Sorting

  // ---------------------------------------------------------------------
  // Constants

  const DailyQuotaLimit: int := 10000
  const VideoInsertCost: int := 1600
  /** `DAILY_QUOTA_LIMIT // VIDEO_INSERT_COST`. */
  const MaxUploadsPerDay: int := DailyQuotaLimit / VideoInsertCost
  const MaxRetries: nat := 5
  const RetriableStatusCodes: seq<int> := [500, 502, 503, 504]

  const Day: int := 86400
  /** The fixed UTC-8 offset the reset computation uses. */
  const PacificOffset: int := 8 * 3600

  lemma QuotaConstants()
    ensures MaxUploadsPerDay == 6
    ensures forall c :: c in RetriableStatusCodes <==> c == 500 || c == 502 || c == 503 || c == 504
  {
  }

  // ---------------------------------------------------------------------
  // _get_next_quota_reset

  /** The next midnight at UTC-8 strictly after `now`, as a UTC time. */
  function NextQuotaReset(now: int): (r: int)
    ensures now < r <= now + Day
    ensures (r - PacificOffset) % Day == 0
  {
    var pacific := now - PacificOffset;
    (pacific / Day + 1) * Day + PacificOffset
  }

  /** No UTC-8 midnight lies strictly between `now` and the reset: it is the next one. */
  lemma NextQuotaResetIsFirst(now: int, t: int)
    requires now < t && (t - PacificOffset) % Day == 0
    ensures NextQuotaReset(now) <= t
  {
    var pacific := now - PacificOffset;
    var q := (t - PacificOffset) / Day;
    assert t - PacificOffset == q * Day;
    assert pacific / Day * Day <= pacific;
  }

  // ---------------------------------------------------------------------
  // The quota state

  /** The `status` text of a history entry: `"success"`, `"failed"`, or whatever a loaded file holds. */
  datatype Status = Succeeded | Failed | OtherStatus(text: string)

  /** One element of `upload_history`; `error` is present only for a non-empty message. */
  datatype HistoryEntry = HistoryEntry(
    filePath: string,
    videoId: Option<string>,
    uploadTime: int,
    status: Status,
    error: Option<string>)

  /** The contents of `QuotaManager.state` (the never-used `pending_uploads` is not kept). */
  datatype QuotaState = QuotaState(quotaResetTime: int, uploadsToday: int, uploadHistory: seq<HistoryEntry>)

  /** `_load_state`: the saved state when it could be read, otherwise a fresh one. */
  function LoadState(saved: Option<QuotaState>, now: int): (s: QuotaState)
    ensures saved.None? ==> s.uploadsToday == 0 && s.uploadHistory == [] && now < s.quotaResetTime
    ensures saved.Some? ==> s == saved.value
  {
    if saved.Some? then saved.value else QuotaState(NextQuotaReset(now), 0, [])
  }

  /** `check_and_reset_quota` at time `now`. */
  function CheckReset(s: QuotaState, now: int): (r: QuotaState)
    ensures r.uploadHistory == s.uploadHistory
    ensures now >= s.quotaResetTime ==> r.uploadsToday == 0 && now < r.quotaResetTime <= now + Day
    ensures now < s.quotaResetTime ==> r == s
  {
    if now >= s.quotaResetTime then s.(uploadsToday := 0, quotaResetTime := NextQuotaReset(now)) else s
  }

  /** `can_upload`'s answer. */
  predicate CanUpload(s: QuotaState, now: int) {
    CheckReset(s, now).uploadsToday < MaxUploadsPerDay
  }

  /** `wait_for_quota_reset`: read at `now`; if the reset is ahead, sleep and check again at `wake`. */
  function WaitForReset(s: QuotaState, now: int, wake: int): QuotaState {
    if now < s.quotaResetTime then CheckReset(s, wake) else s
  }

  /** The entry `add_upload_history` builds. */
  function Entry(filePath: string, videoId: Option<string>, stamp: int, status: Status, error: Option<string>)
    : (e: HistoryEntry)
    ensures e.error.Some? <==> error.Some? && error.value != ""
    ensures e.error.Some? ==> e.error == error
  {
    HistoryEntry(filePath, videoId, stamp, status, if error.Some? && error.value != "" then error else None)
  }

  function CountStatus(history: seq<HistoryEntry>, status: Status): (n: nat)
    ensures n <= |history|
  {
    if history == [] then 0
    else CountStatus(history[..|history| - 1], status) + (if history[|history| - 1].status == status then 1 else 0)
  }

  datatype Summary = Summary(total: nat, success: nat, failed: nat, uploadsToday: int, quotaResetTime: int)

  function SummaryOf(s: QuotaState): Summary {
    Summary(|s.uploadHistory|, CountStatus(s.uploadHistory, Succeeded), CountStatus(s.uploadHistory, Failed),
            s.uploadsToday, s.quotaResetTime)
  }

  predicate KnownStatuses(history: seq<HistoryEntry>) {
    forall k :: 0 <= k < |history| ==> !history[k].status.OtherStatus?
  }

  /** When every entry is a success or a failure, the two counts add up to the total. */
  lemma {:induction false} SummaryAddsUp(history: seq<HistoryEntry>)
    requires KnownStatuses(history)
    ensures CountStatus(history, Succeeded) + CountStatus(history, Failed) == |history|
  {
    if history != [] {
      var init := history[..|history| - 1];
      assert KnownStatuses(init) by {
        forall k | 0 <= k < |init| ensures !init[k].status.OtherStatus? {
          assert init[k] == history[k];
        }
      }
      SummaryAddsUp(init);
    }
  }

  /** No entry is both a success and a failure, so the two counts never exceed the total. */
  lemma {:induction false} SummaryWithinTotal(history: seq<HistoryEntry>)
    ensures CountStatus(history, Succeeded) + CountStatus(history, Failed) <= |history|
  {
    if history != [] {
      SummaryWithinTotal(history[..|history| - 1]);
    }
  }

  lemma CountStatusSnoc(history: seq<HistoryEntry>, e: HistoryEntry, status: Status)
    ensures CountStatus(history + [e], status) == CountStatus(history, status) + (if e.status == status then 1 else 0)
  {
    assert (history + [e])[..|history|] == history;
  }

  /** `QuotaManager`: the state lives in three fields that the methods update. */
  class QuotaManager {
    var quotaResetTime: int
    var uploadsToday: int
    var uploadHistory: seq<HistoryEntry>

    function State(): QuotaState
      reads this
    {
      QuotaState(quotaResetTime, uploadsToday, uploadHistory)
    }

    /** `__init__`, from the saved state file when it could be read. */
    constructor (saved: Option<QuotaState>, now: int)
      ensures State() == LoadState(saved, now)
    {
      var s := LoadState(saved, now);
      quotaResetTime := s.quotaResetTime;
      uploadsToday := s.uploadsToday;
      uploadHistory := s.uploadHistory;
    }

    method CheckAndResetQuota(now: int)
      modifies this
      ensures State() == CheckReset(old(State()), now)
    {
      if now >= quotaResetTime {
        uploadsToday := 0;
        quotaResetTime := NextQuotaReset(now);
      }
    }

    method CanUploadNow(now: int) returns (ok: bool)
      modifies this
      ensures State() == CheckReset(old(State()), now)
      ensures ok == CanUpload(old(State()), now)
      ensures ok <==> uploadsToday < MaxUploadsPerDay
    {
      CheckAndResetQuota(now);
      ok := uploadsToday < MaxUploadsPerDay;
    }

    method WaitForQuotaReset(now: int, wake: int)
      modifies this
      ensures State() == WaitForReset(old(State()), now, wake)
    {
      if now < quotaResetTime {
        CheckAndResetQuota(wake);
      }
    }

    method IncrementUploadCount()
      modifies this
      ensures State() == old(State()).(uploadsToday := old(uploadsToday) + 1)
    {
      uploadsToday := uploadsToday + 1;
    }

    method AddUploadHistory(filePath: string, videoId: Option<string>, status: Status, error: Option<string>,
                            stamp: int)
      modifies this
      ensures State() == old(State()).(uploadHistory := old(uploadHistory) + [Entry(filePath, videoId, stamp, status, error)])
    {
      uploadHistory := uploadHistory + [Entry(filePath, videoId, stamp, status, error)];
    }

    method GetUploadSummary() returns (summary: Summary)
      ensures summary == SummaryOf(State())
      ensures summary.total == |uploadHistory| && summary.success + summary.failed <= summary.total
    {
      SummaryWithinTotal(uploadHistory);
      summary := Summary(|uploadHistory|, CountStatus(uploadHistory, Succeeded), CountStatus(uploadHistory, Failed),
                         uploadsToday, quotaResetTime);
    }
  }

  /** `add_upload_history` adds one entry at the end and keeps the earlier ones. */
  lemma AppendKeepsHistory(s: QuotaState, e: HistoryEntry)
    ensures var h := s.uploadHistory + [e];
            |h| == |s.uploadHistory| + 1 && h[..|s.uploadHistory|] == s.uploadHistory && h[|h| - 1] == e
  {
  }

  // ---------------------------------------------------------------------
  // validate_metadata_mapping and the metadata's video list

  /**
   * `metadata.get("videos", [])` as `len` and `zip` see it: an absent key,
   * an empty string and an empty dictionary are empty, and a list is its
   * items. Any other value makes `len` raise, or holds items that are not
   * dictionaries, whose `.get` raises; both are `None`.
   */
  function VideoList(metadata: map<string, Json>): (r: Option<seq<Json>>)
    ensures "videos" !in metadata ==> r == Some([])
    ensures "videos" in metadata && metadata["videos"].JArr? ==> r == Some(metadata["videos"].items)
    ensures "videos" in metadata && (metadata["videos"] == JStr("") || metadata["videos"] == JObj(map[])) ==> r == Some([])
    ensures r.None? <==> "videos" in metadata && !metadata["videos"].JArr?
                         && metadata["videos"] != JStr("") && metadata["videos"] != JObj(map[])
  {
    if "videos" !in metadata then Some([])
    else match metadata["videos"]
      case JArr(items) => Some(items)
      case JStr(text) => if text == "" then Some([]) else None
      case JObj(fields) => if fields == map[] then Some([]) else None
      case _ => None
  }

  datatype Validation = Valid | Mismatch(videoCount: nat, metadataCount: nat)

  function ValidateMetadataMapping(videoCount: nat, videos: seq<Json>): (v: Validation)
    ensures v.Valid? <==> videoCount == |videos|
    ensures v.Mismatch? ==> v.videoCount == videoCount && v.metadataCount == |videos|
  {
    if videoCount != |videos| then Mismatch(videoCount, |videos|) else Valid
  }

  // ---------------------------------------------------------------------
  // upload_video

  /** How one `videos().insert` attempt ends; the messages are `str(e)`. */
  datatype Attempt =
    | Uploaded(videoId: Option<string>)
    | HttpFailure(status: int, message: string)
    | Transient(message: string)     // `HTTPException` or `IOError`
    | Unexpected(message: string)    // any other exception

  /** The exception an upload raises. */
  datatype UploadError = HttpError(status: int, message: string) | TransientError(message: string) | OtherError(message: string)
  {
    function Message(): string {
      match this
      case HttpError(_, m) => m
      case TransientError(m) => m
      case OtherError(m) => m
    }
  }

  function ErrorOf(a: Attempt): UploadError
    requires !a.Uploaded?
  {
    match a
    case HttpFailure(c, m) => HttpError(c, m)
    case Transient(m) => TransientError(m)
    case Unexpected(m) => OtherError(m)
  }

  predicate RetriableHttp(a: Attempt) {
    a.HttpFailure? && a.status in RetriableStatusCodes
  }

  /** An attempt that the upload retries while retries remain. */
  predicate Retriable(a: Attempt) {
    RetriableHttp(a) || a.Transient?
  }

  function Pow2(k: nat): (p: nat)
    ensures p >= 1
  {
    if k == 0 then 1 else 2 * Pow2(k - 1)
  }

  /** `u * 2 ** k`, as `k` doublings. */
  function Doubled(u: real, k: nat): real {
    if k == 0 then u else 2.0 * Doubled(u, k - 1)
  }

  /** The sleep before retry `k + 1`: `random.random() * (2 ** k)`. */
  function Backoff(jitter: nat -> real, k: nat): real {
    Doubled(jitter(k), k)
  }

  /** The first `n` back-off sleeps. */
  function Backoffs(jitter: nat -> real, n: nat): (r: seq<real>)
    ensures |r| == n
  {
    if n == 0 then [] else Backoffs(jitter, n - 1) + [Backoff(jitter, n - 1)]
  }

  /** `random.random() * (2 ** retry_count)` lies in `[0, 2^retry_count)`. */
  lemma BackoffBound(jitter: nat -> real, k: nat)
    requires 0.0 <= jitter(k) < 1.0
    ensures 0.0 <= Backoff(jitter, k) < Pow2(k) as real
  {
    DoubledBelow(jitter(k), k);
  }

  lemma {:induction false} DoubledBelow(u: real, k: nat)
    requires 0.0 <= u < 1.0
    ensures 0.0 <= Doubled(u, k) < Pow2(k) as real
  {
    if k > 0 {
      DoubledBelow(u, k - 1);
    }
  }

  /**
   * The upload with at most `MaxRetries` retries, attempt `k` being retry
   * number `k`: the result, and how many attempts were made.
   */
  function UploadFrom(attempts: nat -> Attempt, k: nat): (r: (Result<Option<string>, UploadError>, nat))
    requires k <= MaxRetries
    ensures k < r.1 <= MaxRetries + 1
    decreases MaxRetries - k
  {
    var a := attempts(k);
    if a.Uploaded? then (Success(a.videoId), k + 1)
    else if Retriable(a) && k < MaxRetries then UploadFrom(attempts, k + 1)
    else (Failure(ErrorOf(a)), k + 1)
  }

  /** The result is the last attempt's: its video id, or the error it raised, which was final. */
  lemma {:induction false} UploadResultIsLastAttempt(attempts: nat -> Attempt, k: nat)
    requires k <= MaxRetries
    ensures var (r, used) := UploadFrom(attempts, k);
            && (r.Success? <==> attempts(used - 1).Uploaded?)
            && (r.Success? ==> r.value == attempts(used - 1).videoId)
            && (r.Failure? ==> r.error == ErrorOf(attempts(used - 1))
                               && (!Retriable(attempts(used - 1)) || used == MaxRetries + 1))
    decreases MaxRetries - k
  {
    if !attempts(k).Uploaded? && Retriable(attempts(k)) && k < MaxRetries {
      UploadResultIsLastAttempt(attempts, k + 1);
    }
  }

  /** Every attempt before the last one was retriable and failed. */
  lemma {:induction false} UploadRetriesOnlyRetriable(attempts: nat -> Attempt, k: nat, j: nat)
    requires k <= MaxRetries
    requires k <= j < UploadFrom(attempts, k).1 - 1
    ensures Retriable(attempts(j)) && !attempts(j).Uploaded?
    decreases MaxRetries - k
  {
    if j > k {
      UploadRetriesOnlyRetriable(attempts, k + 1, j);
    }
  }

  /**
   * The upload succeeds exactly when some attempt within the budget is
   * successful and every attempt before it failed in a retriable way.
   */
  lemma {:induction false} UploadSucceedsIff(attempts: nat -> Attempt, k: nat)
    requires k <= MaxRetries
    ensures UploadFrom(attempts, k).0.Success? <==>
      exists j :: k <= j <= MaxRetries && attempts(j).Uploaded?
                  && forall i :: k <= i < j ==> Retriable(attempts(i)) && !attempts(i).Uploaded?
    decreases MaxRetries - k
  {
    var a := attempts(k);
    if a.Uploaded? {
      assert k <= k <= MaxRetries && attempts(k).Uploaded?;
    } else if Retriable(a) && k < MaxRetries {
      UploadSucceedsIff(attempts, k + 1);
      if UploadFrom(attempts, k).0.Success? {
        var j :| k + 1 <= j <= MaxRetries && attempts(j).Uploaded?
                 && forall i :: k + 1 <= i < j ==> Retriable(attempts(i)) && !attempts(i).Uploaded?;
        assert forall i :: k <= i < j ==> Retriable(attempts(i)) && !attempts(i).Uploaded?;
      }
    } else {
      if exists j :: k <= j <= MaxRetries && attempts(j).Uploaded?
                     && forall i :: k <= i < j ==> Retriable(attempts(i)) && !attempts(i).Uploaded? {
        var j :| k <= j <= MaxRetries && attempts(j).Uploaded?
                 && forall i :: k <= i < j ==> Retriable(attempts(i)) && !attempts(i).Uploaded?;
      }
    }
  }

  /** A non-retriable failure of the first attempt is raised at once. */
  lemma NonRetriableRaisedAtOnce(attempts: nat -> Attempt)
    requires !attempts(0).Uploaded? && !Retriable(attempts(0))
    ensures UploadFrom(attempts, 0) == (Failure(ErrorOf(attempts(0))), 1)
  {
  }

  /**
   * `upload_video` as a bounded loop. `jitter(k)` is the `random.random()`
   * drawn before retry `k + 1`; `sleeps` are the back-off sleeps, in order.
   */
  method UploadVideo(attempts: nat -> Attempt, jitter: nat -> real)
    returns (result: Result<Option<string>, UploadError>, used: nat, sleeps: seq<real>)
    ensures (result, used) == UploadFrom(attempts, 0)
    ensures sleeps == Backoffs(jitter, used - 1)
  {
    var retryCount: nat := 0;
    sleeps := [];
    while true
      invariant retryCount <= MaxRetries && sleeps == Backoffs(jitter, retryCount)
      invariant UploadFrom(attempts, retryCount) == UploadFrom(attempts, 0)
      decreases MaxRetries - retryCount
    {
      var attempt := attempts(retryCount);
      if attempt.Uploaded? {
        return Success(attempt.videoId), retryCount + 1, sleeps;
      }
      if !(Retriable(attempt) && retryCount < MaxRetries) {
        return Failure(ErrorOf(attempt)), retryCount + 1, sleeps;
      }
      var sleepSeconds := Backoff(jitter, retryCount);
      sleeps := sleeps + [sleepSeconds];
      retryCount := retryCount + 1;
    }
  }

  /**
   * `upload_video` as written: the retry after a retriable HTTP status is
   * made from inside the outer `try`, so an `IOError` or `HTTPException`
   * that the nested call finally raises is caught again by that frame's
   * `except RETRIABLE_EXCEPTIONS`, which retries once more. `k` is
   * `retry_count`, `n` the index of the next attempt; the result carries
   * the index after the last attempt.
   */
  function UploadAsWritten(attempts: nat -> Attempt, k: nat, n: nat): (r: (Result<Option<string>, UploadError>, nat))
    requires k <= MaxRetries
    ensures r.1 > n
    decreases MaxRetries - k
  {
    var a := attempts(n);
    if a.Uploaded? then (Success(a.videoId), n + 1)
    else if RetriableHttp(a) && k < MaxRetries then
      var inner := UploadAsWritten(attempts, k + 1, n + 1);
      if inner.0.Failure? && inner.0.error.TransientError? then UploadAsWritten(attempts, k + 1, inner.1)
      else inner
    else if a.Transient? && k < MaxRetries then UploadAsWritten(attempts, k + 1, n + 1)
    else (Failure(ErrorOf(a)), n + 1)
  }

  /** The upload's result says what attempt `a` did: its video id, or the error it raised. */
  predicate EndsWith(r: Result<Option<string>, UploadError>, a: Attempt) {
    && (r.Success? <==> a.Uploaded?)
    && (r.Success? ==> r.value == a.videoId)
    && (r.Failure? ==> r.error == ErrorOf(a))
  }

  /** `r`, an upload's result and the index after its last attempt, reports that attempt. */
  predicate ReportsLast(attempts: nat -> Attempt, r: (Result<Option<string>, UploadError>, nat)) {
    r.1 > 0 && EndsWith(r.0, attempts(r.1 - 1))
  }

  /** As written too, the result is the last attempt's. */
  lemma {:induction false} AsWrittenResultIsLastAttempt(attempts: nat -> Attempt, k: nat, n: nat)
    requires k <= MaxRetries
    ensures ReportsLast(attempts, UploadAsWritten(attempts, k, n))
    decreases MaxRetries - k
  {
    var a := attempts(n);
    if !a.Uploaded? && RetriableHttp(a) && k < MaxRetries {
      var inner := UploadAsWritten(attempts, k + 1, n + 1);
      AsWrittenResultIsLastAttempt(attempts, k + 1, n + 1);
      if inner.0.Failure? && inner.0.error.TransientError? {
        AsWrittenResultIsLastAttempt(attempts, k + 1, inner.1);
      }
    } else if !a.Uploaded? && a.Transient? && k < MaxRetries {
      AsWrittenResultIsLastAttempt(attempts, k + 1, n + 1);
    }
  }

  /** Without retriable HTTP statuses the two definitions agree. */
  lemma {:induction false} AsWrittenAgreesWithoutHttpRetry(attempts: nat -> Attempt, k: nat)
    requires k <= MaxRetries
    requires forall j :: !RetriableHttp(attempts(j))
    ensures UploadAsWritten(attempts, k, k) == UploadFrom(attempts, k)
    decreases MaxRetries - k
  {
    if !attempts(k).Uploaded? && attempts(k).Transient? && k < MaxRetries {
      AsWrittenAgreesWithoutHttpRetry(attempts, k + 1);
    }
  }

  /** HTTP 503, then five `IOError`s, then success. */
  function NestedRetryAttempts(): nat -> Attempt {
    n => if n == 0 then HttpFailure(503, "") else if n < 6 then Transient("") else Uploaded(Some("v"))
  }

  /**
   * On that sequence the code as written makes seven attempts and
   * succeeds, where at most `MaxRetries + 1 = 6` were intended; the bounded
   * loop raises the sixth attempt's error.
   */
  lemma NestedRetryExceedsBudget()
    ensures UploadAsWritten(NestedRetryAttempts(), 0, 0) == (Success(Some("v")), 7)
    ensures UploadFrom(NestedRetryAttempts(), 0) == (Failure(TransientError("")), 6)
  {
    var att := NestedRetryAttempts();
    assert RetriableHttp(att(0)) by { QuotaConstants(); }
    assert UploadAsWritten(att, 5, 5) == (Failure(TransientError("")), 6);
    assert UploadAsWritten(att, 4, 4) == (Failure(TransientError("")), 6);
    assert UploadAsWritten(att, 3, 3) == (Failure(TransientError("")), 6);
    assert UploadAsWritten(att, 2, 2) == (Failure(TransientError("")), 6);
    assert UploadAsWritten(att, 1, 1) == (Failure(TransientError("")), 6);
    assert UploadAsWritten(att, 1, 6) == (Success(Some("v")), 7);
    assert UploadFrom(att, 5) == (Failure(TransientError("")), 6);
    assert UploadFrom(att, 4) == UploadFrom(att, 5);
    assert UploadFrom(att, 3) == UploadFrom(att, 4);
    assert UploadFrom(att, 2) == UploadFrom(att, 3);
    assert UploadFrom(att, 1) == UploadFrom(att, 2);
  }

  // ---------------------------------------------------------------------
  // batch_upload

  /** The confirmation callback: absent, or its answers to the mismatch prompt and to the final prompt. */
  datatype Confirm = NoCallback | Callback(onMismatch: bool, onFinal: bool)

  /** The clock readings around file `i`: `can_upload`, `wait_for_quota_reset`, after the sleep, the history stamp. */
  datatype Clock = Clock(check: int, wait: int, wake: int, stamp: int)

  datatype BatchOutcome = NoVideoFiles | MetadataNotAList | MismatchRaised | Cancelled | Completed

  /** The state after the quota check (and a wait, when `can_upload` said no) for one file. */
  function Checked(s: QuotaState, c: Clock): QuotaState {
    var s1 := CheckReset(s, c.check);
    if CanUpload(s, c.check) then s1 else WaitForReset(s1, c.wait, c.wake)
  }

  /** The history entry for one file, from the upload's result. */
  function StepEntry(file: string, stamp: int, result: Result<Option<string>, UploadError>): (e: HistoryEntry)
    ensures e.filePath == file && (e.status == Succeeded <==> result.Success?)
    ensures !e.status.OtherStatus?
  {
    if result.Success? then Entry(file, result.value, stamp, Succeeded, None)
    else Entry(file, None, stamp, Failed, Some(result.error.Message()))
  }

  /**
   * One iteration of the batch loop: a success is recorded and counted, a
   * failure only recorded. The upload is `upload_video` as written, the
   * one `batch_upload` calls.
   */
  function BatchStep(s: QuotaState, file: string, c: Clock, attempts: nat -> Attempt): QuotaState {
    var s1 := Checked(s, c);
    var result := UploadAsWritten(attempts, 0, 0).0;
    QuotaState(s1.quotaResetTime, s1.uploadsToday + (if result.Success? then 1 else 0),
               s1.uploadHistory + [StepEntry(file, c.stamp, result)])
  }

  /** The loop over the first `n` pairs of `zip(video_files, videos)`. */
  function BatchLoop(s: QuotaState, files: seq<string>, n: nat, clock: nat -> Clock,
                     attempts: nat -> nat -> Attempt): QuotaState
    requires n <= |files|
  {
    if n == 0 then s
    else BatchStep(BatchLoop(s, files, n - 1, clock, attempts), files[n - 1], clock(n - 1), attempts(n - 1))
  }

  function Min(a: nat, b: nat): nat {
    if a <= b then a else b
  }

  /** `batch_upload` on given answers: the outcome and the quota state after it. */
  function Batch(s: QuotaState, files: seq<string>, metadata: map<string, Json>, confirm: Confirm,
                 clock: nat -> Clock, attempts: nat -> nat -> Attempt): (BatchOutcome, QuotaState)
  {
    if files == [] then (NoVideoFiles, s)
    else match VideoList(metadata)
      case None => (MetadataNotAList, s)
      case Some(videos) =>
        var valid := ValidateMetadataMapping(|files|, videos);
        if valid.Mismatch? && confirm.NoCallback? then (MismatchRaised, s)
        else if valid.Mismatch? && !confirm.onMismatch then (Cancelled, s)
        else if confirm.Callback? && !confirm.onFinal then (Cancelled, s)
        else (Completed, BatchLoop(s, files, Min(|files|, |videos|), clock, attempts))
  }

  /** The same iteration, on the object. */
  method UploadOne(qm: QuotaManager, file: string, c: Clock, attempts: nat -> Attempt)
    modifies qm
    ensures qm.State() == BatchStep(old(qm.State()), file, c, attempts)
  {
    var ok := qm.CanUploadNow(c.check);
    if !ok {
      qm.WaitForQuotaReset(c.wait, c.wake);
    }
    var result := UploadAsWritten(attempts, 0, 0).0;
    if result.Success? {
      qm.AddUploadHistory(file, result.value, Succeeded, None, c.stamp);
      qm.IncrementUploadCount();
    } else {
      qm.AddUploadHistory(file, None, Failed, Some(result.error.Message()), c.stamp);
    }
  }

  /**
   * `batch_upload`, after authentication and the directory listing:
   * `files` are the video files oldest first, `metadata` the loaded
   * metadata object. The summary is returned wherever the source returns
   * one; `None` stands for a raised exception.
   */
  method BatchUpload(qm: QuotaManager, files: seq<string>, metadata: map<string, Json>, confirm: Confirm,
                     clock: nat -> Clock, attempts: nat -> nat -> Attempt)
    returns (outcome: BatchOutcome, summary: Option<Summary>)
    modifies qm
    ensures (outcome, qm.State()) == Batch(old(qm.State()), files, metadata, confirm, clock, attempts)
    ensures summary.Some? <==> outcome in {NoVideoFiles, Cancelled, Completed}
    ensures summary.Some? ==> summary.value == SummaryOf(qm.State())
  {
    if files == [] {
      var s := qm.GetUploadSummary();
      return NoVideoFiles, Some(s);
    }
    var videoList := VideoList(metadata);
    if videoList.None? {
      return MetadataNotAList, None;
    }
    var videos := videoList.value;
    var valid := ValidateMetadataMapping(|files|, videos);
    if valid.Mismatch? {
      if confirm.NoCallback? {
        return MismatchRaised, None;
      }
      if !confirm.onMismatch {
        var s := qm.GetUploadSummary();
        return Cancelled, Some(s);
      }
    }
    if confirm.Callback? && !confirm.onFinal {
      var s := qm.GetUploadSummary();
      return Cancelled, Some(s);
    }
    UploadPairs(qm, files, Min(|files|, |videos|), clock, attempts);
    var s := qm.GetUploadSummary();
    outcome, summary := Completed, Some(s);
  }

  /** The `for` loop of `batch_upload` over the first `n` (file, metadata) pairs. */
  method UploadPairs(qm: QuotaManager, files: seq<string>, n: nat,
                     clock: nat -> Clock, attempts: nat -> nat -> Attempt)
    requires n <= |files|
    modifies qm
    ensures qm.State() == BatchLoop(old(qm.State()), files, n, clock, attempts)
  {
    ghost var s0 := qm.State();
    for i := 0 to n
      invariant qm.State() == BatchLoop(s0, files, i, clock, attempts)
    {
      UploadOne(qm, files[i], clock(i), attempts(i));
    }
  }

  // ---------------------------------------------------------------------
  // Properties of the batch

  /** The entries the first `n` pairs produce. */
  function BatchEntries(files: seq<string>, n: nat, clock: nat -> Clock, attempts: nat -> nat -> Attempt)
    : (r: seq<HistoryEntry>)
    requires n <= |files|
    ensures |r| == n
  {
    if n == 0 then []
    else BatchEntries(files, n - 1, clock, attempts)
         + [StepEntry(files[n - 1], clock(n - 1).stamp, UploadAsWritten(attempts(n - 1), 0, 0).0)]
  }

  /** Entry `i` names file `i` and records its upload's result. */
  lemma {:induction false} BatchEntryAt(files: seq<string>, n: nat, clock: nat -> Clock,
                                        attempts: nat -> nat -> Attempt, i: nat)
    requires i < n <= |files|
    ensures BatchEntries(files, n, clock, attempts)[i] == StepEntry(files[i], clock(i).stamp, UploadAsWritten(attempts(i), 0, 0).0)
  {
    if i < n - 1 {
      BatchEntryAt(files, n - 1, clock, attempts, i);
    }
  }

  /**
   * One history entry per processed pair, appended in order after the
   * earlier history: entry `i` names file `i` and records its result.
   */
  lemma {:induction false} BatchLoopHistory(s: QuotaState, files: seq<string>, n: nat, clock: nat -> Clock,
                                            attempts: nat -> nat -> Attempt)
    requires n <= |files|
    ensures BatchLoop(s, files, n, clock, attempts).uploadHistory == s.uploadHistory + BatchEntries(files, n, clock, attempts)
  {
    if n > 0 {
      var prev := BatchLoop(s, files, n - 1, clock, attempts);
      var e := StepEntry(files[n - 1], clock(n - 1).stamp, UploadAsWritten(attempts(n - 1), 0, 0).0);
      var before := BatchEntries(files, n - 1, clock, attempts);
      BatchLoopHistory(s, files, n - 1, clock, attempts);
      StepHistory(prev, files[n - 1], clock(n - 1), attempts(n - 1));
      assert s.uploadHistory + (before + [e]) == (s.uploadHistory + before) + [e];
    }
  }

  lemma StepHistory(s: QuotaState, file: string, c: Clock, attempts: nat -> Attempt)
    ensures BatchStep(s, file, c, attempts).uploadHistory
         == s.uploadHistory + [StepEntry(file, c.stamp, UploadAsWritten(attempts, 0, 0).0)]
  {
    assert Checked(s, c).uploadHistory == s.uploadHistory;
  }

  /** The batch loop writes only successes and failures, so the summary adds up if the history did. */
  lemma {:induction false} BatchLoopKnownStatuses(s: QuotaState, files: seq<string>, n: nat, clock: nat -> Clock,
                                                  attempts: nat -> nat -> Attempt)
    requires n <= |files| && KnownStatuses(s.uploadHistory)
    ensures KnownStatuses(BatchLoop(s, files, n, clock, attempts).uploadHistory)
  {
    BatchLoopHistory(s, files, n, clock, attempts);
    var h := BatchLoop(s, files, n, clock, attempts).uploadHistory;
    forall k | 0 <= k < |h| ensures !h[k].status.OtherStatus? {
      if k >= |s.uploadHistory| {
        assert h[k] == BatchEntries(files, n, clock, attempts)[k - |s.uploadHistory|];
        BatchEntryAt(files, n, clock, attempts, k - |s.uploadHistory|);
      }
    }
  }

  /** A success raises the day's count by one over the checked state; a failure leaves it. */
  lemma StepCounts(s: QuotaState, file: string, c: Clock, attempts: nat -> Attempt)
    ensures BatchStep(s, file, c, attempts).uploadsToday
         == Checked(s, c).uploadsToday + (if UploadAsWritten(attempts, 0, 0).0.Success? then 1 else 0)
    ensures |BatchStep(s, file, c, attempts).uploadHistory| == |s.uploadHistory| + 1
  {
  }

  /**
   * The sequence that overruns the retry budget ends with a video id, so
   * the batch records the file as a success and counts it.
   */
  lemma NestedRetryRecordedAsSuccess(s: QuotaState, file: string, c: Clock)
    ensures var t := BatchStep(s, file, c, NestedRetryAttempts());
            && t.uploadHistory[|s.uploadHistory|].status == Succeeded
            && t.uploadHistory[|s.uploadHistory|].videoId == Some("v")
            && t.uploadsToday == Checked(s, c).uploadsToday + 1
  {
    NestedRetryExceedsBudget();
    StepHistory(s, file, c, NestedRetryAttempts());
  }

  /** A count mismatch raises without a callback and stops when the callback refuses; nothing is uploaded. */
  lemma MismatchRejected(s: QuotaState, files: seq<string>, metadata: map<string, Json>, confirm: Confirm,
                         clock: nat -> Clock, attempts: nat -> nat -> Attempt)
    requires files != [] && VideoList(metadata).Some? && |files| != |VideoList(metadata).value|
    ensures confirm.NoCallback? ==> Batch(s, files, metadata, confirm, clock, attempts) == (MismatchRaised, s)
    ensures confirm.Callback? && !confirm.onMismatch ==> Batch(s, files, metadata, confirm, clock, attempts) == (Cancelled, s)
  {
  }

  /**
   * After a refused `can_upload` and a full wait (`wake` at or past the
   * reset), the day's count is back at zero. If instead the clock passes
   * the reset between the two reads, nothing is reset and the upload goes
   * ahead over the limit.
   */
  lemma WaitRestoresQuota(s: QuotaState, c: Clock)
    requires !CanUpload(s, c.check)
    ensures c.wait < s.quotaResetTime <= c.wake ==> Checked(s, c).uploadsToday == 0
    ensures c.wait >= s.quotaResetTime ==> Checked(s, c) == s && s.uploadsToday >= MaxUploadsPerDay
  {
  }
}
