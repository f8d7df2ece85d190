/**
 * The feedback messages the scorers of `scoringUtils` attach to a result.
 * A message is kept as a value naming the branch that produced it and the
 * numbers it quotes; `MessageText` renders it to the exact text the scorer
 * builds.
 */
module Feedback {
  import opened Text

  /** The fixed messages. */
  datatype Notice =
    | NoAnswer | CorrectAnswer | IncorrectAnswer
    | NoCorrectAnswers | InvalidCorrectAnswers | NoGaps | NoUserAnswers
    | NoMatches | NoItemsToMatch | NoStatementAnswers | NoStatements
    | NoCorrectOrder | InvalidCorrectOrder | NoItemsToOrder | NoOrder
    | NoWriting | NoSpeaking | ManualScoringRequired | ScoringError

  /** The phrase after `${correct}/${total}` in the item-wise scorers. */
  datatype Phrase = GapsFilled | ItemsMatched | StatementsAnswered | ItemsInPosition

  /** The length verdict of scoreWriting. */
  datatype LengthNote =
    | TooShort(words: nat, minimum: int)
    | TooLong(words: nat, maximum: int)
    | GoodLength(words: nat)
    | AcceptableLength(words: nat)

  /** One of the remarks scoreSpeaking collects. */
  datatype SpeakingNote =
    | AudioProvided
    | GoodContentLength(words: nat)
    | ShortResponse(words: nat)
    | GoodStructure
    | BasicStructure
    | NoTranscription

  datatype Message =
    | Fixed(notice: Notice)
    | Tally(correct: nat, total: nat, phrase: Phrase)
    | WritingNote(length: LengthNote, contentPercent: int)
    | SpeakingNotes(parts: seq<SpeakingNote>)

  function NoticeText(n: Notice): string {
    match n
    case NoAnswer => "No answer provided"
    case CorrectAnswer => "Correct answer"
    case IncorrectAnswer => "Incorrect answer"
    case NoCorrectAnswers => "No correct answers provided"
    case InvalidCorrectAnswers => "Invalid correct answers format"
    case NoGaps => "No gaps to fill"
    case NoUserAnswers => "No user answers provided"
    case NoMatches => "No matches provided"
    case NoItemsToMatch => "No items to match"
    case NoStatementAnswers => "No answers provided"
    case NoStatements => "No statements to evaluate"
    case NoCorrectOrder => "No correct order provided"
    case InvalidCorrectOrder => "Invalid correct order format"
    case NoItemsToOrder => "No items to order"
    case NoOrder => "No order provided"
    case NoWriting => "No writing response provided"
    case NoSpeaking => "No speaking response provided"
    case ManualScoringRequired => "Manual scoring required for this question type"
    case ScoringError => "Error occurred during scoring"
  }

  function PhraseText(p: Phrase): string {
    match p
    case GapsFilled => " gaps filled correctly"
    case ItemsMatched => " items matched correctly"
    case StatementsAnswered => " statements answered correctly"
    case ItemsInPosition => " items in correct position"
  }

  function LengthText(l: LengthNote): string {
    match l
    case TooShort(w, m) => "Too short (" + NatToString(w) + "/" + IntToString(m) + " minimum words)"
    case TooLong(w, m) => "Too long (" + NatToString(w) + "/" + IntToString(m) + " maximum words)"
    case GoodLength(w) => "Good length (" + NatToString(w) + " words)"
    case AcceptableLength(w) => "Acceptable length (" + NatToString(w) + " words)"
  }

  function SpeakingText(s: SpeakingNote): string {
    match s
    case AudioProvided => "Audio response provided"
    case GoodContentLength(w) => "Good content length (" + NatToString(w) + " words)"
    case ShortResponse(w) => "Short response (" + NatToString(w) + " words)"
    case GoodStructure => "Good sentence structure"
    case BasicStructure => "Basic sentence structure"
    case NoTranscription => "Audio provided but no transcription available"
  }

  /** The remarks scoreSpeaking pushes, each rendered in its place. */
  function SpeakingTexts(ss: seq<SpeakingNote>): (r: seq<string>)
    ensures |r| == |ss|
    ensures forall i :: 0 <= i < |ss| ==> r[i] == SpeakingText(ss[i])
  {
    if ss == [] then [] else [SpeakingText(ss[0])] + SpeakingTexts(ss[1..])
  }

  /** The text the scorer puts in `feedback`. */
  function MessageText(m: Message): string {
    match m
    case Fixed(n) => NoticeText(n)
    case Tally(k, n, p) => NatToString(k) + "/" + NatToString(n) + PhraseText(p)
    case WritingNote(l, c) => LengthText(l) + ". Content quality: " + IntToString(c) + "%"
    case SpeakingNotes(ss) => Join(SpeakingTexts(ss), ". ")
  }
}
