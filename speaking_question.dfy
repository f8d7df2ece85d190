/**
 * The exam's speaking recorder (`SpeakingQuestion`): the recording limit read
 * from the "Câu N/M" header, the one-second countdown that stops the
 * recording at zero, when the stop button is offered, the checks made on the
 * recorded audio before upload, and the retry policy for a failed upload.
 *
 * Timer ticks and upload responses are explicit calls; the microphone, the
 * media recorder and the HTTP request itself are outside the model.
 */
module SpeakingQuestion {
  import opened Wrappers
  import opened Text
  import opened Json

  // ---------------------------------------------------------------- question number

  /** The header word of `/Câu\s+(\d+)\/\d+/`. */
  const HeaderWord: string := "Câu"

  /** The regex tried at position `i`: the captured question number's digits, if it matches there. */
  function HeaderAt(content: string, i: nat): (r: Option<string>)
    requires i <= |content|
    ensures r.Some? ==> r.value != [] && AllDigits(r.value)
  {
    var rest := content[i..];
    if !StartsWith(rest, HeaderWord) then None
    else
      var a := rest[|HeaderWord|..];
      var spaces := SepRun(a, IsSpace);
      if spaces == 0 then None
      else
        var b := a[spaces..];
        var digits := DigitPrefix(b);
        var c := b[digits..];
        if digits > 0 && |c| >= 2 && c[0] == '/' && IsDigit(c[1]) then Some(b[..digits]) else None
  }

  /** `String.prototype.match` without the `g` flag: the leftmost position where the regex matches. */
  function FirstHeader(content: string, from: nat): (r: Option<string>)
    requires from <= |content|
    ensures r.Some? ==> r.value != [] && AllDigits(r.value)
    decreases |content| - from
  {
    match HeaderAt(content, from)
    case Some(d) => Some(d)
    case None => if from == |content| then None else FirstHeader(content, from + 1)
  }

  /** `questionNumber`: the captured number, 1 without a header (or without content). */
  function QuestionNumber(content: Option<string>): (n: nat)
    ensures content.None? ==> n == 1
    ensures content.Some? && FirstHeader(content.value, 0).None? ==> n == 1
  {
    if content.None? then 1
    else
      match FirstHeader(content.value, 0)
      case None => 1
      case Some(d) => DecimalValue(d)
  }

  /** The header is found where it is written, after the separating white space. */
  lemma HeaderAtStart(a: string, b: string, rest: string)
    requires AllDigits(a) && AllDigits(b) && a != [] && b != []
    ensures HeaderAt(HeaderWord + " " + a + "/" + b + rest, 0) == Some(a)
  {
    var s := HeaderWord + " " + a + "/" + b + rest;
    assert s[0..] == s;
    assert s[..|HeaderWord|] == HeaderWord;
    var x := s[|HeaderWord|..];
    assert x == " " + (a + ("/" + b + rest));
    assert SepRun(x, IsSpace) == 1 by {
      assert x[1..] == a + ("/" + b + rest);
      assert !IsSpace(x[1]);
    }
    var y := x[1..];
    assert y == a + ("/" + b + rest);
    DigitPrefixStops(a, "/" + b + rest);
    assert y[..|a|] == a;
    assert y[|a|..] == "/" + b + rest;
  }

  /** A page headed "Câu n/m" has question number n. */
  lemma NumberOfHeader(n: nat, m: nat, rest: string)
    ensures QuestionNumber(Some(HeaderWord + " " + NatToString(n) + "/" + NatToString(m) + rest)) == n
  {
    HeaderAtStart(NatToString(n), NatToString(m), rest);
    DecimalValueOfNatToString(n);
  }

  /** `maxRecordingTime`: 30, 60 and 90 seconds for questions 1 to 3, 120 for any other number. */
  function MaxRecordingTime(questionNumber: int): (r: nat)
    ensures 1 <= questionNumber ==> r == 30 * (if questionNumber < 4 then questionNumber else 4)
    ensures questionNumber < 1 ==> r == 120
  {
    if questionNumber == 1 then 30
    else if questionNumber == 2 then 60
    else if questionNumber == 3 then 90
    else 120
  }

  /** Every limit is a whole number of half-minutes between 30 and 120 seconds. */
  lemma LimitsWithin(content: Option<string>)
    ensures var t := MaxRecordingTime(QuestionNumber(content)); 30 <= t <= 120 && t % 30 == 0
  {
  }

  // ---------------------------------------------------------------- countdown

  /** The recording clock: `isRecording`, the `recordingTime` shown and the `timeCounterRef` used for the upload. */
  datatype Clock = Clock(isRecording: bool, recordingTime: int, timeCounter: int)

  /** `startRecording` once the recorder runs: the clock is set to the limit. */
  function Start(maxTime: nat): (c: Clock)
    ensures c.isRecording && c.recordingTime == maxTime
  {
    Clock(true, maxTime, maxTime)
  }

  /** One second of the recording interval: one less, or at zero the recorder stops and the time is clamped to 0. */
  function Tick(c: Clock): (r: Clock)
    ensures r.timeCounter == c.recordingTime - 1
    ensures r.isRecording <==> c.recordingTime > 1
    ensures r.recordingTime == if c.recordingTime > 1 then c.recordingTime - 1 else 0
  {
    var newTime := c.recordingTime - 1;
    if newTime <= 0 then Clock(false, 0, newTime) else Clock(true, newTime, newTime)
  }

  /** `k` seconds of the interval, which is cleared once the recording stops. */
  function Ticks(c: Clock, k: nat): Clock
    decreases k
  {
    if k == 0 || !c.isRecording then c else Ticks(Tick(c), k - 1)
  }

  /** A running clock at `t` seconds counts down one per second and stops exactly at zero. */
  lemma {:induction false} CountdownFrom(t: nat, k: nat)
    requires t >= 1
    ensures Ticks(Clock(true, t, t), k) == if k < t then Clock(true, t - k, t - k) else Clock(false, 0, 0)
  {
    if k > 0 {
      if t == 1 {
        assert Tick(Clock(true, t, t)) == Clock(false, 0, 0);
      } else {
        assert Tick(Clock(true, t, t)) == Clock(true, t - 1, t - 1);
        CountdownFrom(t - 1, k - 1);
      }
    }
  }

  /** So a recording left to run lasts exactly its limit and uploads that many seconds. */
  lemma RecordingLastsItsLimit(maxTime: nat)
    requires maxTime >= 1
    ensures var c := Ticks(Start(maxTime), maxTime); !c.isRecording && maxTime - c.timeCounter == maxTime
    ensures forall k :: 0 <= k < maxTime ==> Ticks(Start(maxTime), k).isRecording
  {
    CountdownFrom(maxTime, maxTime);
    forall k | 0 <= k < maxTime
      ensures Ticks(Start(maxTime), k).isRecording
    {
      CountdownFrom(maxTime, k);
    }
  }

  /** `canStopRecording`: at least 10 seconds recorded. */
  predicate CanStop(maxTime: int, recordingTime: int) {
    maxTime - recordingTime >= 10
  }

  /** The stop button appears after the tenth tick and not before. */
  lemma StopOfferedAfterTenSeconds(maxTime: nat, k: nat)
    requires maxTime >= 10 && k <= maxTime
    ensures CanStop(maxTime, Ticks(Start(maxTime), k).recordingTime) <==> k >= 10
  {
    CountdownFrom(maxTime, k);
  }

  /** `confirmStopRecording`: the recorder is stopped if it is recording; the clock keeps its time. */
  function Stop(c: Clock): (r: Clock)
    ensures !r.isRecording && r.recordingTime == c.recordingTime && r.timeCounter == c.timeCounter
  {
    c.(isRecording := false)
  }

  /** The seconds sent with the upload, `maxRecordingTime - timeCounterRef.current`. */
  function RecordedSeconds(maxTime: int, c: Clock): int {
    maxTime - c.timeCounter
  }

  /**
   * Whether stopped from the dialog (offered from ten seconds on) or at
   * zero, the upload carries between 10 seconds and the limit, so the
   * `duration || 30` fallback never applies to a recording made here.
   */
  lemma RecordedSecondsWithin(maxTime: nat, k: nat)
    requires maxTime >= 10 && 10 <= k
    ensures var c := if k < maxTime then Stop(Ticks(Start(maxTime), k)) else Ticks(Start(maxTime), k);
      10 <= RecordedSeconds(maxTime, c) <= maxTime && UploadDuration(RecordedSeconds(maxTime, c)) == RecordedSeconds(maxTime, c)
  {
    CountdownFrom(maxTime, k);
  }

  /** `formatTime` for whole seconds: `Math.floor(s / 60)`, a colon, `s % 60` padded to two digits. */
  function FormatTime(seconds: int): (r: string)
    ensures seconds >= 0 ==> r == ClockText(seconds / 60, seconds % 60)
  {
    ClockText(seconds / 60, IntRem(seconds, 60))
  }

  /** Two clock readings shown alike are the same number of seconds. */
  lemma SameClockSameTime(a: nat, b: nat)
    requires FormatTime(a) == FormatTime(b)
    ensures a == b
  {
    ClockTextInjective(a / 60, a % 60, b / 60, b % 60);
  }

  // ---------------------------------------------------------------- upload checks

  const MinAudioSize: nat := 1024
  const MaxAudioSize: nat := 50 * 1024 * 1024

  /** The reasons the upload is refused before any request is made. */
  datatype UploadError = MissingAttempt | InvalidAudio | AudioTooSmall | AudioTooLarge

  /** `duration || 30`. */
  function UploadDuration(duration: int): (r: int)
    ensures duration != 0 ==> r == duration
    ensures r != 0
  {
    if duration != 0 then duration else 30
  }

  /**
   * The checks at the top of `uploadAudioToBackend`, in their order: an
   * attempt id, a non-empty blob, then its size within 1 KB and 50 MB. A
   * missing blob is `None`. Success carries the duration sent with the file.
   */
  function CheckUpload(attemptId: Json, blobSize: Option<nat>, duration: int): (r: Result<int, UploadError>)
    ensures r.Ok? <==> Truthy(attemptId) && blobSize.Some? && MinAudioSize <= blobSize.value <= MaxAudioSize
    ensures r.Ok? ==> r.value == UploadDuration(duration)
    ensures !Truthy(attemptId) ==> r == Err(MissingAttempt)
    ensures Truthy(attemptId) && (blobSize.None? || blobSize.value == 0) ==> r == Err(InvalidAudio)
    ensures r == Err(AudioTooSmall) ==> blobSize.Some? && 0 < blobSize.value < MinAudioSize
    ensures r == Err(AudioTooLarge) ==> blobSize.Some? && blobSize.value > MaxAudioSize
  {
    if !Truthy(attemptId) then Err(MissingAttempt)
    else if blobSize.None? || blobSize.value == 0 then Err(InvalidAudio)
    else if blobSize.value < MinAudioSize then Err(AudioTooSmall)
    else if blobSize.value > MaxAudioSize then Err(AudioTooLarge)
    else Ok(UploadDuration(duration))
  }

  // ---------------------------------------------------------------- retries

  const MaxUploadRetries: nat := 3

  /** How one upload request ended. */
  datatype Outcome =
    | Saved                       // `response.data.success`
    | HttpFailure(status: int)    // an error carrying `error.response`
    | TimedOut                    // 'timeout of 30000ms exceeded'
    | OtherFailure                // any other error, a refused check or an unsuccessful body included

  /** What the catch block decides. */
  datatype Decision = Uploaded | RetryAfter(delayMs: nat) | GiveUp

  /** `shouldRetry`: a server error, 408 or 429. */
  predicate Retryable(status: int) {
    status >= 500 || status == 408 || status == 429
  }

  /** The decision after one request, given the retry count the call reads. */
  function Decide(o: Outcome, retries: nat): (d: Decision)
    ensures d == Uploaded <==> o == Saved
    ensures d.RetryAfter? <==> retries < MaxUploadRetries && (o == TimedOut || (o.HttpFailure? && Retryable(o.status)))
    ensures d.RetryAfter? ==> d.delayMs == 1000 * (retries + 1)
  {
    match o
    case Saved => Uploaded
    case HttpFailure(status) =>
      if Retryable(status) && retries < MaxUploadRetries then RetryAfter(1000 * (retries + 1)) else GiveUp
    case TimedOut =>
      if retries < MaxUploadRetries then RetryAfter(1000 * (retries + 1)) else GiveUp
    case OtherFailure => GiveUp
  }

  /** The end of an upload session: saved or abandoned, or still retrying when the outcomes run out; with the waits made. */
  datatype Session = Finished(uploaded: bool, waits: seq<nat>) | StillRetrying(waits: seq<nat>)

  function Waits(s: Session): seq<nat> {
    if s.Finished? then s.waits else s.waits
  }

  function Prepend(w: nat, s: Session): Session {
    match s
    case Finished(u, ws) => Finished(u, [w] + ws)
    case StillRetrying(ws) => StillRetrying([w] + ws)
  }

  /** The session as intended: each retry reads the count the previous attempt set. */
  function UploadSession(retries: nat, outcomes: seq<Outcome>): Session
    decreases |outcomes|
  {
    if outcomes == [] then StillRetrying([])
    else
      match Decide(outcomes[0], retries)
      case Uploaded => Finished(true, [])
      case GiveUp => Finished(false, [])
      case RetryAfter(w) => Prepend(w, UploadSession(retries + 1, outcomes[1..]))
  }

  /**
   * The session as written: the retry calls the same `useCallback` closure,
   * whose `uploadRetries` is the value captured when it was created, so every
   * attempt reads that same count.
   */
  function UploadSessionAsWritten(captured: nat, outcomes: seq<Outcome>): Session
    decreases |outcomes|
  {
    if outcomes == [] then StillRetrying([])
    else
      match Decide(outcomes[0], captured)
      case Uploaded => Finished(true, [])
      case GiveUp => Finished(false, [])
      case RetryAfter(w) => Prepend(w, UploadSessionAsWritten(captured, outcomes[1..]))
  }

  /** `n` copies of one outcome. */
  function Repeat(o: Outcome, n: nat): (r: seq<Outcome>)
    ensures |r| == n && forall i :: 0 <= i < n ==> r[i] == o
  {
    if n == 0 then [] else [o] + Repeat(o, n - 1)
  }

  /** `n` waits of one second. */
  function SecondWaits(n: nat): (r: seq<nat>)
    ensures |r| == n && forall i :: 0 <= i < n ==> r[i] == 1000
  {
    if n == 0 then [] else [1000] + SecondWaits(n - 1)
  }

  /** As written, a server that keeps failing is retried every second without end. */
  lemma {:induction false} StaleCountRetriesForever(n: nat)
    ensures UploadSessionAsWritten(0, Repeat(HttpFailure(500), n)) == StillRetrying(SecondWaits(n))
  {
    if n > 0 {
      assert Repeat(HttpFailure(500), n)[1..] == Repeat(HttpFailure(500), n - 1);
      StaleCountRetriesForever(n - 1);
    }
  }

  /** As intended, a session from count `r` makes at most `3 - r` retries and is over after `4 - r` outcomes. */
  lemma {:induction false} UploadSessionEnds(retries: nat, outcomes: seq<Outcome>)
    requires retries <= MaxUploadRetries
    ensures |Waits(UploadSession(retries, outcomes))| <= MaxUploadRetries - retries
    ensures |outcomes| > MaxUploadRetries - retries ==> UploadSession(retries, outcomes).Finished?
    ensures forall i :: 0 <= i < |Waits(UploadSession(retries, outcomes))| ==>
      Waits(UploadSession(retries, outcomes))[i] == 1000 * (retries + i + 1)
    decreases |outcomes|
  {
    if outcomes != [] && Decide(outcomes[0], retries).RetryAfter? {
      UploadSessionEnds(retries + 1, outcomes[1..]);
    }
  }

  /** So a fresh upload makes at most four requests, waiting 1, 2 and 3 seconds between them. */
  lemma AtMostFourRequests(outcomes: seq<Outcome>)
    requires |outcomes| >= 4
    ensures UploadSession(0, outcomes).Finished?
    ensures Waits(UploadSession(0, outcomes)) <= [1000, 2000, 3000]
  {
    UploadSessionEnds(0, outcomes);
  }

  // ---------------------------------------------------------------- recorder

  /** The component's recording and retry state, changed in place by the timer, the stop dialog and the upload. */
  class Recorder {
    const maxRecordingTime: nat
    var isRecording: bool
    var recordingTime: int
    var timeCounter: int
    var uploadRetries: nat

    function ClockState(): Clock
      reads this
    {
      Clock(isRecording, recordingTime, timeCounter)
    }

    /** The limit is one of the four, the clock stays between zero and it and above zero while recording. */
    predicate Valid()
      reads this
    {
      30 <= maxRecordingTime <= 120 && 0 <= recordingTime <= maxRecordingTime && (isRecording ==> recordingTime > 0) && uploadRetries <= MaxUploadRetries
    }

    /** The initial state for a question with the given content. */
    constructor(content: Option<string>)
      ensures maxRecordingTime == MaxRecordingTime(QuestionNumber(content))
      ensures ClockState() == Clock(false, maxRecordingTime, 0) && uploadRetries == 0 && Valid()
    {
      maxRecordingTime := MaxRecordingTime(QuestionNumber(content));
      isRecording, recordingTime, timeCounter, uploadRetries := false, MaxRecordingTime(QuestionNumber(content)), 0, 0;
    }

    /** The state set once the media recorder has started. */
    method StartRecording()
      requires Valid()
      modifies this
      ensures ClockState() == Start(maxRecordingTime) && uploadRetries == old(uploadRetries) && Valid()
    {
      isRecording, recordingTime, timeCounter := true, maxRecordingTime, maxRecordingTime;
    }

    /** One tick of the recording interval; `stopRecorder` is the call to `mediaRecorder.stop()`. */
    method TimerTick() returns (stopRecorder: bool)
      requires Valid() && isRecording
      modifies this
      ensures ClockState() == Tick(old(ClockState())) && uploadRetries == old(uploadRetries) && Valid()
      ensures stopRecorder <==> !isRecording
    {
      var newTime := recordingTime - 1;
      timeCounter := newTime;
      if newTime <= 0 {
        isRecording := false;
        recordingTime := 0;
        stopRecorder := true;
      } else {
        recordingTime := newTime;
        stopRecorder := false;
      }
    }

    /** `confirmStopRecording`. */
    method ConfirmStop() returns (stopRecorder: bool)
      requires Valid()
      modifies this
      ensures ClockState() == Stop(old(ClockState())) && uploadRetries == old(uploadRetries) && Valid()
      ensures stopRecorder <==> old(isRecording)
    {
      stopRecorder := isRecording;
      isRecording := false;
    }

    /** The catch (or success) path after one request, as intended: the count it reads is this state's. */
    method Settle(o: Outcome) returns (d: Decision)
      requires Valid()
      modifies this
      ensures d == Decide(o, old(uploadRetries))
      ensures uploadRetries == (if d == Uploaded then 0 else if d.RetryAfter? then old(uploadRetries) + 1 else old(uploadRetries))
      ensures ClockState() == old(ClockState()) && Valid()
    {
      d := Decide(o, uploadRetries);
      if d == Uploaded {
        uploadRetries := 0;
      } else if d.RetryAfter? {
        uploadRetries := uploadRetries + 1;
      }
    }
  }
}
