/**
 * The result card of one answered question (`QuestionResultDisplay`): the
 * score and percentage it shows, the correct / partial / incorrect band with
 * its colour and summary text, the choice of answer renderer by type code,
 * and the per-gap and per-match correctness marks.
 */
module ResultDisplay {
  import opened Wrappers
  import opened Text
  import opened Json
  import Scoring

  /** A numeric column of the answer row as the page receives it. */
  datatype Stored = Null | Missing | Value(x: real)

  /**
   * `final_score !== null ? final_score : score || 0`; `None` is `undefined`
   * (a missing `final_score` passes the `!== null` test).
   */
  function ShownScore(finalScore: Stored, score: Stored): Option<real> {
    match finalScore
    case Value(x) => Some(x)
    case Missing => None
    case Null => if score.Value? && score.x != 0.0 then Some(score.x) else Some(0.0)
  }

  /** A stored final score is shown as it is, 0 included; only a null one falls back to `score || 0`. */
  lemma FinalScoreWins(finalScore: Stored, score: Stored)
    ensures finalScore.Value? ==> ShownScore(finalScore, score) == Some(finalScore.x)
    ensures finalScore.Null? && !score.Value? ==> ShownScore(finalScore, score) == Some(0.0)
    ensures finalScore.Null? && score.Value? ==> ShownScore(finalScore, score) == Some(score.x)
  {
  }

  /** `answer.max_score || question.max_score || 1`, with 0 for an absent column. */
  function ShownMaxScore(answerMax: real, questionMax: real): (m: real)
    ensures m != 0.0
    ensures answerMax > 0.0 || (answerMax == 0.0 && questionMax >= 0.0) ==> m > 0.0
  {
    if answerMax != 0.0 then answerMax else if questionMax != 0.0 then questionMax else 1.0
  }

  /** `maxScore > 0 ? Math.round(score / maxScore * 100) : 0`; `None` is NaN. */
  function ShownPercentage(score: Option<real>, maxScore: real): Option<int> {
    if maxScore > 0.0 then
      match score
      case None => None
      case Some(x) => Some(Round(x / maxScore * 100.0))
    else Some(0)
  }

  /** A score within [0, maxScore] is shown as a percentage within [0, 100]. */
  lemma ShownPercentageBounds(score: real, maxScore: real)
    requires 0.0 <= score <= maxScore
    ensures var p := ShownPercentage(Some(score), maxScore);
      p.Some? && 0 <= p.value <= 100
  {
    if maxScore > 0.0 {
      PercentWithin(score, maxScore);
    }
  }

  /** A missing final score shows NaN whenever the max score is positive. */
  lemma MissingFinalScoreIsNaN(score: Stored, answerMax: real, questionMax: real)
    requires ShownMaxScore(answerMax, questionMax) > 0.0
    ensures ShownPercentage(ShownScore(Missing, score), ShownMaxScore(answerMax, questionMax)).None?
  {
  }

  // ---------------------------------------------------------------- bands

  /** `percentage >= 80`; NaN compares false. */
  predicate IsCorrect(p: Option<int>) { p.Some? && p.value >= 80 }

  /** `percentage >= 50 && percentage < 80`. */
  predicate IsPartiallyCorrect(p: Option<int>) { p.Some? && p.value >= 50 && p.value < 80 }

  datatype Band = Correct | Partial | Incorrect

  /** The band of a percentage: 80 and up, 50 up to 80, anything else (NaN included). */
  function BandOf(p: Option<int>): (b: Band)
    ensures b == Correct <==> p.Some? && 80 <= p.value
    ensures b == Partial <==> p.Some? && 50 <= p.value < 80
    ensures b == Incorrect <==> p.None? || p.value < 50
  {
    if p.None? then Incorrect
    else if p.value >= 80 then Correct
    else if p.value >= 50 then Partial
    else Incorrect
  }

  /** The MUI palette the card uses for the score chip, the icon and the summary box. */
  datatype Palette = Success | Warning | Error

  /** `getScoreColor` (and `getScoreIcon`, which follows the same tests). */
  function ScoreColor(p: Option<int>): Palette {
    if p.Some? && p.value >= 80 then Success
    else if p.Some? && p.value >= 50 then Warning
    else Error
  }

  /** The summary box colour: `isCorrect ? success : isPartiallyCorrect ? warning : error`. */
  function SummaryColor(p: Option<int>): Palette {
    if IsCorrect(p) then Success else if IsPartiallyCorrect(p) then Warning else Error
  }

  /** The three conditional suffixes of the summary line, concatenated. */
  function SummarySuffix(p: Option<int>): string {
    (if IsCorrect(p) then " - Correct!" else "")
    + (if IsPartiallyCorrect(p) then " - Partially Correct" else "")
    + (if !IsCorrect(p) && !IsPartiallyCorrect(p) then " - Incorrect" else "")
  }

  function BandColor(b: Band): Palette {
    match b
    case Correct => Success
    case Partial => Warning
    case Incorrect => Error
  }

  function BandSuffix(b: Band): string {
    match b
    case Correct => " - Correct!"
    case Partial => " - Partially Correct"
    case Incorrect => " - Incorrect"
  }

  /**
   * Exactly one band holds, and the chip colour, the summary colour and the
   * summary text all name that band.
   */
  lemma BandsAgree(p: Option<int>)
    ensures IsCorrect(p) ==> !IsPartiallyCorrect(p)
    ensures ScoreColor(p) == BandColor(BandOf(p))
    ensures SummaryColor(p) == BandColor(BandOf(p))
    ensures SummarySuffix(p) == BandSuffix(BandOf(p))
  {
    match BandOf(p)
    case Correct =>
      assert SummarySuffix(p) == " - Correct!" + "" + "";
    case Partial =>
      assert SummarySuffix(p) == "" + " - Partially Correct" + "";
    case Incorrect =>
      assert SummarySuffix(p) == "" + "" + " - Incorrect";
  }

  // ---------------------------------------------------------------- renderer dispatch

  datatype Renderer = McqView | GapView | MatchingView | StatementView | OrderingView
                    | HeadingsView | WritingView | SpeakingView | TextView

  /** The codes with a renderer of their own. */
  const RenderedCodes: set<string> := {
    "LISTENING_MCQ", "READING_MCQ", "LISTENING_GAP_FILL", "READING_GAP_FILL",
    "LISTENING_MATCHING", "READING_MATCHING", "LISTENING_STATEMENT_MATCHING",
    "READING_ORDERING", "READING_MATCHING_HEADINGS",
    "WRITING_SHORT", "WRITING_FORM", "WRITING_LONG", "WRITING_EMAIL", "WRITING_ESSAY",
    "SPEAKING_INTRO", "SPEAKING_DESCRIPTION", "SPEAKING_COMPARISON", "SPEAKING_DISCUSSION"}

  /** The `switch` of `renderUserAnswer`. */
  function RendererFor(code: string): (r: Renderer)
    ensures r == TextView <==> code !in RenderedCodes
  {
    if code == "LISTENING_MCQ" || code == "READING_MCQ" then McqView
    else if code == "LISTENING_GAP_FILL" || code == "READING_GAP_FILL" then GapView
    else if code == "LISTENING_MATCHING" || code == "READING_MATCHING" then MatchingView
    else if code == "LISTENING_STATEMENT_MATCHING" then StatementView
    else if code == "READING_ORDERING" then OrderingView
    else if code == "READING_MATCHING_HEADINGS" then HeadingsView
    else if code == "WRITING_SHORT" || code == "WRITING_FORM" || code == "WRITING_LONG"
         || code == "WRITING_EMAIL" || code == "WRITING_ESSAY" then WritingView
    else if code == "SPEAKING_INTRO" || code == "SPEAKING_DESCRIPTION"
         || code == "SPEAKING_COMPARISON" || code == "SPEAKING_DISCUSSION" then SpeakingView
    else TextView
  }

  /** The view actually drawn: `renderHeadingMatchingAnswer` draws the matching view. */
  function Drawn(r: Renderer): Renderer {
    if r == HeadingsView then MatchingView else r
  }

  /** Matching headings are drawn exactly like reading matching. */
  lemma HeadingsDrawnAsMatching(code: string)
    requires code == "READING_MATCHING_HEADINGS"
    ensures Drawn(RendererFor(code)) == Drawn(RendererFor("READING_MATCHING")) == MatchingView
  {
  }

  // ---------------------------------------------------------------- per-gap and per-match marks

  /**
   * The reference map the gap and matching views build:
   * `correct[item.id] = item.sample_answers[0].answer_text` for each item with
   * a sample answer, later items overwriting earlier ones with the same id.
   */
  function ShownReferences(items: seq<Scoring.Item>): seq<(string, Json)> {
    if items == [] then []
    else
      var refs := ShownReferences(items[..|items| - 1]);
      var it := items[|items| - 1];
      if |it.sampleAnswers| > 0 then Assign(refs, IntToString(it.id), it.sampleAnswers[0]) else refs
  }

  /** The first sample answer of the last item under key k that has one. */
  function LastSample(items: seq<Scoring.Item>, k: string): Option<Json> {
    if items == [] then None
    else
      var it := items[|items| - 1];
      if |it.sampleAnswers| > 0 && IntToString(it.id) == k then Some(it.sampleAnswers[0])
      else LastSample(items[..|items| - 1], k)
  }

  /** The reference shown for key k is the first sample of the last item with that id and a sample. */
  lemma {:induction false} ShownReferenceIsLastSample(items: seq<Scoring.Item>, k: string)
    ensures Lookup(ShownReferences(items), k) == LastSample(items, k)
  {
    if items != [] {
      var init := items[..|items| - 1];
      var it := items[|items| - 1];
      ShownReferenceIsLastSample(init, k);
      if |it.sampleAnswers| > 0 {
        LookupAssign(ShownReferences(init), IntToString(it.id), it.sampleAnswers[0], k);
      }
    }
  }

  /**
   * The gap mark: a truthy reference and
   * `user.toLowerCase().trim() === reference.toLowerCase().trim()`.
   */
  predicate GapShownCorrect(reference: Option<Json>, user: Json) {
    reference.Some? && Truthy(reference.value) && reference.value.Str? && user.Str?
    && Trim(ToLower(user.s)) == Trim(ToLower(reference.value.s))
  }

  /**
   * The match mark: a truthy reference and `user === reference`. Strict
   * equality compares arrays and objects by identity, and the parsed answer
   * never shares an object with the question, so only primitives can match.
   */
  predicate MatchShownCorrect(reference: Option<Json>, user: Json) {
    reference.Some? && Truthy(reference.value) && !user.Arr? && !user.Obj? && user == reference.value
  }

  /** A gap is marked correct exactly when the texts agree after the scorer's normalisation. */
  lemma GapMarkIgnoresCaseAndSpace(reference: string, user: string)
    ensures GapShownCorrect(Some(Str(reference)), Str(user))
        <==> reference != "" && Normalize(user) == Normalize(reference)
  {
    NormalizeLowersThenTrims(user);
    NormalizeLowersThenTrims(reference);
  }

  /** A strict string match is always a gap-style match too. */
  lemma MatchMarkIsStricter(reference: string, user: string)
    requires MatchShownCorrect(Some(Str(reference)), Str(user))
    ensures GapShownCorrect(Some(Str(reference)), Str(user))
  {
  }

  /** The converse fails: the match mark is case-sensitive. */
  lemma MatchMarkIsCaseSensitive()
    ensures GapShownCorrect(Some(Str("A")), Str("a"))
    ensures !MatchShownCorrect(Some(Str("A")), Str("a"))
  {
    assert ToLower("A") == "a" == ToLower("a") by {
      assert LowerChar('A') == 'a';
    }
    assert Trim("a") == "a";
  }

  // ---------------------------------------------------------------- writing word count

  /** `text_answer ? text_answer.trim().split(/\s+/).length : 0`: no empty-token filter. */
  function ShownWordCount(text: string): nat {
    if text == "" then 0 else |RawTokens(text)|
  }

  /** Blank but non-empty text shows one word; other text shows its word count. */
  lemma ShownWordCountOfBlank(text: string)
    ensures ShownWordCount(text) == if text == "" then 0 else if Blank(text) then 1 else WordCount(text)
  {
    RawTokenCount(text);
  }
}
