/**
 * The older practice listening page (`PracticeListeningQuestion`): a player
 * that lets the audio be started at most three times per question, and the
 * answer map its gap, matching and statement views edit.
 *
 * The page's React state is the `Playback` value; each handler is a step of
 * `Next`, and what the handler does to the `<audio>` element is returned as a
 * `Command`. Whether `audioRef.current` is set is the `mounted` parameter.
 */
module PracticeListening {
  import opened Json

  /** `maxPlays`. */
  const MaxPlays: nat := 3

  datatype Playback = Playback(isPlaying: bool, playCount: nat, currentTime: real, duration: real)

  /** The state on mount and after every question change. */
  const Initial := Playback(false, 0, 0.0, 0.0)

  /** What a handler asks of the audio element. */
  datatype Command = NoCommand | PauseElement | PlayElement | RewindAndPlay | PauseAndRewind

  /** A command that starts the audio. */
  predicate Starts(c: Command) {
    c == PlayElement || c == RewindAndPlay
  }

  /** The question-change effect and the element's handlers; the element's time and duration come with the event. */
  datatype Event = QuestionChanged | PlayPause | Replay | AudioEnded | TimeUpdate(time: real) | MetadataLoaded(length: real)

  // ---------------------------------------------------------------- handlers

  /** One handler run: the new page state and the command sent to the element. */
  function Next(s: Playback, e: Event, mounted: bool): (r: (Playback, Command))
    ensures e == QuestionChanged ==> r.0 == Initial
    ensures e != QuestionChanged ==> (r.0.playCount == s.playCount + 1 <==> Starts(r.1))
    ensures e != QuestionChanged && !Starts(r.1) ==> r.0.playCount == s.playCount
    ensures Starts(r.1) ==> mounted && s.playCount < MaxPlays && r.0.isPlaying
    ensures e == PlayPause && mounted && s.isPlaying ==> r == (s.(isPlaying := false), PauseElement)
    ensures e == Replay && mounted && s.playCount < MaxPlays ==> r.1 == RewindAndPlay
    ensures e == AudioEnded ==> r == (s.(isPlaying := false), NoCommand)
    ensures s.playCount <= MaxPlays ==> r.0.playCount <= MaxPlays
  {
    match e
    case QuestionChanged =>
      (Initial, if mounted then PauseAndRewind else NoCommand)
    case PlayPause =>
      if !mounted then (s, NoCommand)
      else if s.isPlaying then (s.(isPlaying := false), PauseElement)
      else if s.playCount < MaxPlays then (s.(isPlaying := true, playCount := s.playCount + 1), PlayElement)
      else (s, NoCommand)
    case Replay =>
      if mounted && s.playCount < MaxPlays then (s.(isPlaying := true, playCount := s.playCount + 1), RewindAndPlay)
      else (s, NoCommand)
    case AudioEnded =>
      (s.(isPlaying := false), NoCommand)
    case TimeUpdate(t) =>
      (if mounted then s.(currentTime := t) else s, NoCommand)
    case MetadataLoaded(d) =>
      (if mounted then s.(duration := d) else s, NoCommand)
  }

  /** The state after a sequence of events. */
  function Run(s: Playback, events: seq<Event>, mounted: bool): Playback
    decreases |events|
  {
    if events == [] then s else Run(Next(s, events[0], mounted).0, events[1..], mounted)
  }

  /** How many times the events start the audio. */
  function StartCount(s: Playback, events: seq<Event>, mounted: bool): nat
    decreases |events|
  {
    if events == [] then 0
    else
      var r := Next(s, events[0], mounted);
      (if Starts(r.1) then 1 else 0) + StartCount(r.0, events[1..], mounted)
  }

  /** Between question changes every start, a resume after a pause included, uses up one play. */
  lemma {:induction false} PlayCountCountsStarts(s: Playback, events: seq<Event>, mounted: bool)
    requires QuestionChanged !in events
    ensures Run(s, events, mounted).playCount == s.playCount + StartCount(s, events, mounted)
    decreases |events|
  {
    if events != [] {
      assert QuestionChanged !in events[1..];
      PlayCountCountsStarts(Next(s, events[0], mounted).0, events[1..], mounted);
    }
  }

  /** Whatever the clicks and element events, the counter never passes `maxPlays`. */
  lemma {:induction false} PlayCountBounded(s: Playback, events: seq<Event>, mounted: bool)
    requires s.playCount <= MaxPlays
    ensures Run(s, events, mounted).playCount <= MaxPlays
    decreases |events|
  {
    if events != [] {
      PlayCountBounded(Next(s, events[0], mounted).0, events[1..], mounted);
    }
  }

  /** So the audio of one question is started at most three times. */
  lemma AtMostThreeStarts(events: seq<Event>, mounted: bool)
    requires QuestionChanged !in events
    ensures StartCount(Initial, events, mounted) <= MaxPlays
  {
    PlayCountCountsStarts(Initial, events, mounted);
    PlayCountBounded(Initial, events, mounted);
  }

  /** Pausing and resuming costs a play: play, pause, play leaves two of the three used. */
  lemma ResumeUsesAPlay(s: Playback)
    requires s == Initial
    ensures Run(s, [PlayPause, PlayPause, PlayPause], true).playCount == 2
  {
    var s1 := Next(s, PlayPause, true).0;
    var s2 := Next(s1, PlayPause, true).0;
    assert Run(s, [PlayPause, PlayPause, PlayPause], true) == Run(s1, [PlayPause, PlayPause], true);
    assert Run(s1, [PlayPause, PlayPause], true) == Run(s2, [PlayPause], true);
  }

  // ---------------------------------------------------------------- controls

  /** Both buttons are `disabled={playCount >= maxPlays}`. */
  predicate ButtonsEnabled(s: Playback) {
    s.playCount < MaxPlays
  }

  /** The third start disables the buttons while the audio plays, so that play cannot be paused from the page. */
  lemma LastPlayCannotBePaused(s: Playback)
    requires s.playCount == MaxPlays - 1 && !s.isPlaying
    ensures var t := Next(s, PlayPause, true).0; t.isPlaying && !ButtonsEnabled(t)
  {
  }

  /** The component's state, changed in place by its handlers. */
  class ListeningPlayer {
    var isPlaying: bool
    var playCount: nat
    var currentTime: real
    var duration: real

    function State(): Playback
      reads this
    {
      Playback(isPlaying, playCount, currentTime, duration)
    }

    /** The counter bound every handler keeps. */
    predicate Valid()
      reads this
    {
      playCount <= MaxPlays
    }

    constructor()
      ensures State() == Initial && Valid()
    {
      isPlaying, playCount, currentTime, duration := false, 0, 0.0, 0.0;
    }

    /** The effect keyed on `question.question_id`. */
    method QuestionChanged(mounted: bool) returns (cmd: Command)
      modifies this
      ensures (State(), cmd) == Next(old(State()), Event.QuestionChanged, mounted) && Valid()
    {
      isPlaying, playCount, currentTime, duration := false, 0, 0.0, 0.0;
      cmd := if mounted then PauseAndRewind else NoCommand;
    }

    /** `handlePlayPause`. */
    method PlayPause(mounted: bool) returns (cmd: Command)
      requires Valid()
      modifies this
      ensures (State(), cmd) == Next(old(State()), Event.PlayPause, mounted) && Valid()
    {
      cmd := NoCommand;
      if mounted {
        if isPlaying {
          cmd := PauseElement;
          isPlaying := false;
        } else if playCount < MaxPlays {
          cmd := PlayElement;
          isPlaying := true;
          playCount := playCount + 1;
        }
      }
    }

    /** `handleReplay`. */
    method Replay(mounted: bool) returns (cmd: Command)
      requires Valid()
      modifies this
      ensures (State(), cmd) == Next(old(State()), Event.Replay, mounted) && Valid()
    {
      cmd := NoCommand;
      if mounted && playCount < MaxPlays {
        cmd := RewindAndPlay;
        isPlaying := true;
        playCount := playCount + 1;
      }
    }

    /** `handleAudioEnded`. */
    method AudioEnded()
      requires Valid()
      modifies this
      ensures State() == Next(old(State()), Event.AudioEnded, true).0 && Valid()
    {
      isPlaying := false;
    }

    /** `handleTimeUpdate`, given the element's `currentTime`. */
    method TimeUpdate(mounted: bool, time: real)
      requires Valid()
      modifies this
      ensures State() == Next(old(State()), Event.TimeUpdate(time), mounted).0 && Valid()
    {
      if mounted {
        currentTime := time;
      }
    }

    /** `handleLoadedMetadata`, given the element's `duration`. */
    method MetadataLoaded(mounted: bool, length: real)
      requires Valid()
      modifies this
      ensures State() == Next(old(State()), Event.MetadataLoaded(length), mounted).0 && Valid()
    {
      if mounted {
        duration := length;
      }
    }
  }

  // ---------------------------------------------------------------- answers

  /** The gap, matching and statement views: `{ ...(answer || {}) }` with one `item_id` key set. */
  function EditAnswer(answer: Json, itemId: string, value: Json): (r: Json)
    ensures r.Obj?
  {
    With(Or(answer, Obj([])), itemId, value)
  }

  /** An edit sets its own item and leaves every other item's answer as it was. */
  lemma EditIsLocal(answer: Json, itemId: string, value: Json, other: string)
    ensures Get(EditAnswer(answer, itemId, value), itemId) == value
    ensures other != itemId ==> Get(EditAnswer(answer, itemId, value), other) == Get(Or(answer, Obj([])), other)
  {
    GetWith(Or(answer, Obj([])), itemId, value, itemId);
    GetWith(Or(answer, Obj([])), itemId, value, other);
  }

  /** The statement view's radio options. */
  datatype Verdict = True | False | NotGiven

  function VerdictText(v: Verdict): (r: string)
    ensures r in ["True", "False", "Not Given"]
  {
    match v
    case True => "True"
    case False => "False"
    case NotGiven => "Not Given"
  }

  /** The three options are three different answers. */
  lemma VerdictTextInjective(a: Verdict, b: Verdict)
    requires VerdictText(a) == VerdictText(b)
    ensures a == b
  {
  }

  /** Choosing a verdict stores one of the three option strings under the statement's id. */
  lemma VerdictIsStored(answer: Json, itemId: string, v: Verdict)
    ensures Get(EditAnswer(answer, itemId, Str(VerdictText(v))), itemId) in [Str("True"), Str("False"), Str("Not Given")]
  {
    EditIsLocal(answer, itemId, Str(VerdictText(v)), itemId);
  }

  // ---------------------------------------------------------------- layout

  datatype Layout = McqLayout | GapFillLayout | MatchingLayout | StatementLayout

  /** The `switch` of `renderQuestion` on `question_type_name || type || question_type`. */
  function LayoutFor(questionTypeName: Json, typ: Json, questionType: Json): (r: Layout)
    ensures var t := Or(questionTypeName, Or(typ, questionType));
      && (r == GapFillLayout <==> t == Str("gap_filling") || t == Str("LISTENING_GAP_FILL"))
      && (r == MatchingLayout <==> t == Str("matching") || t == Str("LISTENING_MATCHING"))
      && (r == StatementLayout <==> t == Str("statement_matching"))
  {
    var t := Or(questionTypeName, Or(typ, questionType));
    if t == Str("multiple_choice") || t == Str("LISTENING_MCQ") then McqLayout
    else if t == Str("gap_filling") || t == Str("LISTENING_GAP_FILL") then GapFillLayout
    else if t == Str("matching") || t == Str("LISTENING_MATCHING") then MatchingLayout
    else if t == Str("statement_matching") then StatementLayout
    else McqLayout
  }

  /** The exam code for statements has no case of its own and renders as MCQ. */
  lemma StatementCodeRendersAsMcq()
    ensures LayoutFor(Str("LISTENING_STATEMENT_MATCHING"), Undefined, Undefined) == McqLayout
  {
  }
}
