/**
 * The newer practice listening page (`PracticeListeningQuestionNew`): one
 * play/pause button that does nothing at all once three plays are used, a
 * counter that only counts starts from the beginning of the audio, an end
 * handler that rewinds the displayed time, the `m:ss` clock and the progress
 * bar, and the dispatch to the four listening views.
 */
module PracticeListeningNew {
  import opened Text
  import opened Json
  import PracticeListening

  type Playback = PracticeListening.Playback
  type Command = PracticeListening.Command

  /** The question-change effect and the element's handlers; the element's time and duration come with the event. */
  datatype Event = QuestionChanged | PlayClicked | AudioEnded | TimeUpdate(time: real) | MetadataLoaded(length: real)

  /** A start that takes one of the three plays: the audio is started while the shown time is 0. */
  predicate FreshStart(s: Playback, c: Command) {
    PracticeListening.Starts(c) && s.currentTime == 0.0
  }

  // ---------------------------------------------------------------- handlers

  /** One handler run: the new page state and the command sent to the element. */
  function Next(s: Playback, e: Event, mounted: bool): (r: (Playback, Command))
    ensures e == QuestionChanged ==> r.0 == PracticeListening.Initial
    ensures e == PlayClicked && s.playCount >= PracticeListening.MaxPlays ==> r == (s, PracticeListening.NoCommand)
    ensures e != QuestionChanged ==> (r.0.playCount == s.playCount + 1 <==> FreshStart(s, r.1))
    ensures e != QuestionChanged && !FreshStart(s, r.1) ==> r.0.playCount == s.playCount
    ensures PracticeListening.Starts(r.1) ==> mounted && s.playCount < PracticeListening.MaxPlays && r.0.isPlaying
    ensures e == AudioEnded ==> r == (s.(isPlaying := false, currentTime := 0.0), PracticeListening.NoCommand)
    ensures s.playCount <= PracticeListening.MaxPlays ==> r.0.playCount <= PracticeListening.MaxPlays
  {
    match e
    case QuestionChanged =>
      (PracticeListening.Initial, if mounted then PracticeListening.PauseAndRewind else PracticeListening.NoCommand)
    case PlayClicked =>
      if !(mounted && s.playCount < PracticeListening.MaxPlays) then (s, PracticeListening.NoCommand)
      else if s.isPlaying then (s.(isPlaying := false), PracticeListening.PauseElement)
      else
        var count := if s.currentTime == 0.0 then s.playCount + 1 else s.playCount;
        (s.(isPlaying := true, playCount := count), PracticeListening.PlayElement)
    case AudioEnded =>
      (s.(isPlaying := false, currentTime := 0.0), PracticeListening.NoCommand)
    case TimeUpdate(t) =>
      (if mounted then s.(currentTime := t) else s, PracticeListening.NoCommand)
    case MetadataLoaded(d) =>
      (if mounted then s.(duration := d) else s, PracticeListening.NoCommand)
  }

  /** The state after a sequence of events. */
  function Run(s: Playback, events: seq<Event>, mounted: bool): Playback
    decreases |events|
  {
    if events == [] then s else Run(Next(s, events[0], mounted).0, events[1..], mounted)
  }

  /** How many times the events start the audio from the beginning. */
  function FreshStartCount(s: Playback, events: seq<Event>, mounted: bool): nat
    decreases |events|
  {
    if events == [] then 0
    else
      var r := Next(s, events[0], mounted);
      (if FreshStart(s, r.1) then 1 else 0) + FreshStartCount(r.0, events[1..], mounted)
  }

  /** Between question changes the counter counts exactly the starts from the beginning. */
  lemma {:induction false} PlayCountCountsFreshStarts(s: Playback, events: seq<Event>, mounted: bool)
    requires QuestionChanged !in events
    ensures Run(s, events, mounted).playCount == s.playCount + FreshStartCount(s, events, mounted)
    decreases |events|
  {
    if events != [] {
      assert QuestionChanged !in events[1..];
      PlayCountCountsFreshStarts(Next(s, events[0], mounted).0, events[1..], mounted);
    }
  }

  /** Whatever the clicks and element events, the counter never passes three. */
  lemma {:induction false} PlayCountBounded(s: Playback, events: seq<Event>, mounted: bool)
    requires s.playCount <= PracticeListening.MaxPlays
    ensures Run(s, events, mounted).playCount <= PracticeListening.MaxPlays
    decreases |events|
  {
    if events != [] {
      PlayCountBounded(Next(s, events[0], mounted).0, events[1..], mounted);
    }
  }

  /** So the audio of one question is started from the beginning at most three times. */
  lemma AtMostThreeFreshStarts(events: seq<Event>, mounted: bool)
    requires QuestionChanged !in events
    ensures FreshStartCount(PracticeListening.Initial, events, mounted) <= PracticeListening.MaxPlays
  {
    PlayCountCountsFreshStarts(PracticeListening.Initial, events, mounted);
    PlayCountBounded(PracticeListening.Initial, events, mounted);
  }

  /** Unlike the older page, a resume after the time has moved costs nothing. */
  lemma ResumeIsFree(s: Playback, t: real)
    requires s == PracticeListening.Initial && t != 0.0
    ensures Run(s, [PlayClicked, TimeUpdate(t), PlayClicked, PlayClicked], true).playCount == 1
  {
    var s1 := Next(s, PlayClicked, true).0;
    var s2 := Next(s1, TimeUpdate(t), true).0;
    var s3 := Next(s2, PlayClicked, true).0;
    assert Run(s, [PlayClicked, TimeUpdate(t), PlayClicked, PlayClicked], true)
      == Run(s1, [TimeUpdate(t), PlayClicked, PlayClicked], true);
    assert Run(s1, [TimeUpdate(t), PlayClicked, PlayClicked], true) == Run(s2, [PlayClicked, PlayClicked], true);
    assert Run(s2, [PlayClicked, PlayClicked], true) == Run(s3, [PlayClicked], true);
  }

  /** Reaching the end rewinds the shown time, so the next start takes a play. */
  lemma PlayAfterEndCounts(s: Playback)
    requires s.playCount < PracticeListening.MaxPlays
    ensures var t := Next(Next(s, AudioEnded, true).0, PlayClicked, true).0;
      t.playCount == s.playCount + 1 && t.isPlaying
  {
  }

  /** The class holding the component's state, changed in place by its handlers. */
  class ListeningPlayer {
    var isPlaying: bool
    var playCount: nat
    var currentTime: real
    var duration: real

    function State(): Playback
      reads this
    {
      PracticeListening.Playback(isPlaying, playCount, currentTime, duration)
    }

    /** The counter bound every handler keeps. */
    predicate Valid()
      reads this
    {
      playCount <= PracticeListening.MaxPlays
    }

    constructor()
      ensures State() == PracticeListening.Initial && Valid()
    {
      isPlaying, playCount, currentTime, duration := false, 0, 0.0, 0.0;
    }

    /** The effect keyed on `question.question_id`. */
    method QuestionChanged(mounted: bool) returns (cmd: Command)
      modifies this
      ensures (State(), cmd) == Next(old(State()), Event.QuestionChanged, mounted) && Valid()
    {
      isPlaying, playCount, currentTime, duration := false, 0, 0.0, 0.0;
      cmd := if mounted then PracticeListening.PauseAndRewind else PracticeListening.NoCommand;
    }

    /** `handlePlay`. */
    method HandlePlay(mounted: bool) returns (cmd: Command)
      requires Valid()
      modifies this
      ensures (State(), cmd) == Next(old(State()), PlayClicked, mounted) && Valid()
    {
      cmd := PracticeListening.NoCommand;
      if mounted && playCount < PracticeListening.MaxPlays {
        if isPlaying {
          cmd := PracticeListening.PauseElement;
          isPlaying := false;
        } else {
          cmd := PracticeListening.PlayElement;
          isPlaying := true;
          if currentTime == 0.0 {
            playCount := playCount + 1;
          }
        }
      }
    }

    /** `handleAudioEnd`. */
    method HandleAudioEnd()
      requires Valid()
      modifies this
      ensures State() == Next(old(State()), Event.AudioEnded, true).0 && Valid()
    {
      isPlaying := false;
      currentTime := 0.0;
    }

    /** `handleTimeUpdate`, given the element's `currentTime`. */
    method HandleTimeUpdate(mounted: bool, time: real)
      requires Valid()
      modifies this
      ensures State() == Next(old(State()), Event.TimeUpdate(time), mounted).0 && Valid()
    {
      if mounted {
        currentTime := time;
      }
    }

    /** `handleAudioLoad`, given the element's `duration`. */
    method HandleAudioLoad(mounted: bool, length: real)
      requires Valid()
      modifies this
      ensures State() == Next(old(State()), Event.MetadataLoaded(length), mounted).0 && Valid()
    {
      if mounted {
        duration := length;
      }
    }
  }

  // ---------------------------------------------------------------- display

  /** `formatTime`: `Math.floor(s / 60)`, a colon and `Math.floor(s % 60)` padded to two digits. */
  function FormatTime(seconds: real): (r: string)
    ensures seconds >= 0.0 ==> r == ClockText(seconds.Floor / 60, seconds.Floor % 60)
  {
    if seconds >= 0.0 then WholeMinutes(seconds); ClockText((seconds / 60.0).Floor, RealRem(seconds, 60.0).Floor)
    else ClockText((seconds / 60.0).Floor, RealRem(seconds, 60.0).Floor)
  }

  /** For a non-negative time the two floors are the whole minutes and the seconds left over. */
  lemma WholeMinutes(seconds: real)
    requires seconds >= 0.0
    ensures (seconds / 60.0).Floor == seconds.Floor / 60
    ensures RealRem(seconds, 60.0).Floor == seconds.Floor % 60
  {
    var n := seconds.Floor;
    var q := n / 60;
    assert 60 * q <= n < 60 * q + 60;
    assert (60 * q) as real <= seconds < (60 * q + 60) as real;
    assert q as real <= seconds / 60.0 < (q + 1) as real;
    assert (seconds / 60.0).Floor == q;
    assert RealRem(seconds, 60.0) == seconds - (60 * q) as real;
  }

  /** Two times shown alike are the same whole second. */
  lemma SameClockSameSecond(a: real, b: real)
    requires a >= 0.0 && b >= 0.0 && FormatTime(a) == FormatTime(b)
    ensures a.Floor == b.Floor
  {
    ClockTextInjective(a.Floor / 60, a.Floor % 60, b.Floor / 60, b.Floor % 60);
  }

  /** The progress bar: `duration ? (currentTime / duration) * 100 : 0`. */
  function Progress(currentTime: real, duration: real): (r: real)
    ensures duration == 0.0 ==> r == 0.0
    ensures duration > 0.0 && 0.0 <= currentTime <= duration ==> 0.0 <= r <= 100.0
    ensures duration > 0.0 && currentTime == duration ==> r == 100.0
  {
    if duration != 0.0 then currentTime / duration * 100.0 else 0.0
  }

  /** The bar only moves forward as the time moves forward. */
  lemma ProgressMonotone(t1: real, t2: real, duration: real)
    requires duration > 0.0 && t1 <= t2
    ensures Progress(t1, duration) <= Progress(t2, duration)
  {
    assert t1 / duration <= t2 / duration;
  }

  // ---------------------------------------------------------------- layout

  datatype Layout = McqLayout | MultiMcqLayout | MatchingLayout | StatementLayout

  /** The `switch` on `question_type || type`: three names for MCQ, two for each other view, MCQ by default. */
  function LayoutFor(questionType: Json, typ: Json): (r: Layout)
    ensures var t := Or(questionType, typ);
      && (r == MultiMcqLayout <==> t == Str("MULTI_MCQ") || t == Str("multi_mcq"))
      && (r == MatchingLayout <==> t == Str("MATCHING") || t == Str("matching"))
      && (r == StatementLayout <==> t == Str("STATEMENT_MATCHING") || t == Str("statement_matching"))
  {
    var t := Or(questionType, typ);
    if t == Str("MULTIPLE_CHOICE") || t == Str("MCQ") || t == Str("mcq") then McqLayout
    else if t == Str("MULTI_MCQ") || t == Str("multi_mcq") then MultiMcqLayout
    else if t == Str("MATCHING") || t == Str("matching") then MatchingLayout
    else if t == Str("STATEMENT_MATCHING") || t == Str("statement_matching") then StatementLayout
    else McqLayout
  }

  /** The exam codes `LISTENING_MATCHING` and `LISTENING_STATEMENT_MATCHING` reach the MCQ view here, though the older page shows the first as matching. */
  lemma ExamCodesRenderAsMcq()
    ensures LayoutFor(Str("LISTENING_MATCHING"), Undefined) == McqLayout
    ensures LayoutFor(Str("LISTENING_STATEMENT_MATCHING"), Undefined) == McqLayout
    ensures PracticeListening.LayoutFor(Undefined, Undefined, Str("LISTENING_MATCHING")) == PracticeListening.MatchingLayout
  {
  }
}
