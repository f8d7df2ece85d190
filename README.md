# Scoring and question pages of an APTIS-style English test platform

This project models, in Dafny, the core of a web platform for APTIS-style
English tests. Students take exams and practice questions in reading,
listening, writing and speaking. Teachers write the questions, and
administrators manage the users. The model covers:

- **Scoring** (`scoring.dfy`, with `feedback.dfy`). These are the automatic scorers for multiple choice, gap filling, matching, statement matching, ordering, writing and speaking. They include the dispatcher that picks a scorer from a question's type code and the section score that combines question scores. Each scorer that loops is a method proved equal to a specification function. The specification functions carry the bounds, per-item marks and feedback lemmas.
- **Exam helpers** (`exam_helpers.dfy`, with `grouping.dfy`). These are the skill and section names of a question type, the question-type labels, and the grouping of answers by skill and by section.
- **Result pages** (`question_feedback.dfy`, `result_display.dfy`). These are the per-section totals and percentages of a graded attempt and the correct/incorrect marks the result display draws.
- **Teacher and admin forms** (`question_form.dfy`, `gap_filling_form.dfy`, `user_form.dfy`). These are the validation rules, the gap-filling editor's state and the user form's payload.
- **Exam and practice question pages** (`writing_question.dfy`, `writing_email.dfy`, `writing_short_answer.dfy`, `practice_writing.dfy`, `practice_reading.dfy`, `practice_reading_new.dfy`, `practice_listening.dfy`, `practice_listening_new.dfy`, `speaking_question.dfy`). These are the answer parsers and formatters with their round trips, the passage splitters, the listening players' play limits and the speaking recorder's countdown and upload retries.

Shared modules:

- `wrappers.dfy`: `Option` and `Result`.
- `text.dfy`: the JavaScript string functions the code calls, namely trimming, lowering, splitting, `indexOf`, `parseInt`, `Math.round` and number printing.
- `json.dfy`: JavaScript values, namely `undefined`, `null`, booleans, numbers, strings, arrays and objects with ordered keys, with truthiness and property lookup.
- `sorting.dfy`: the stable sort by a numeric key that `Array.prototype.sort` performs here. It is given both as a function and as an in-place array method proved equal to it.

React components are modelled as a state datatype with a transition function `Next`, or as a class whose methods change its fields. Each method's `ensures` ties the new state to `Next` or to a pure function of the old state. The lemmas then prove what the page promises: at most three plays, a round trip of the answer text, or a score within its maximum. `JSON.parse`, e-mail validation and similar library calls are parameters of the functions that use them.

## Model

| member | source | states |
|---|---|---|
| Scoring.Percent | frontend-student/src/utils/scoringUtils.js:16 | a score equal to maxScore is 100 percent, a zero score is 0 percent, and a score inside [0, maxScore] gives a percentage inside [0, 100] |
| Scoring.Share | frontend-student/src/utils/scoringUtils.js:47 | k items at maxScore / n each come to k·maxScore / n, stay within [0, maxScore] when k ≤ n, and are 100·k / n percent |
| Scoring.PartialCredit | frontend-student/src/utils/scoringUtils.js:85-93 | the shared partial-credit result: within [0, maxScore] when there are at most total results, the percentage is 100·correct / total, and the feedback is the "correct/total" tally |
| Scoring.ScoreMCQ | frontend-student/src/utils/scoringUtils.js:11-23 | a falsy side gives "No answer provided"; otherwise full marks, 100 percent and "Correct answer" exactly when the normalised texts agree, and 0, 0 percent and "Incorrect answer" exactly when they do not |
| Scoring.MCQIgnoresCaseAndSpace | frontend-student/src/utils/scoringUtils.js:14 | two non-empty answers that differ only in ASCII case and surrounding white space earn full marks |
| Scoring.GapSlots | frontend-student/src/utils/scoringUtils.js:57-60 | the `{gaps}` form yields exactly one slot per reference gap |
| Scoring.GapItemsMark | frontend-student/src/utils/scoringUtils.js:69-83 | gap result i is marked correct exactly when answer i and reference i are truthy and equal after normalisation |
| Scoring.GapPartialMarks | frontend-student/src/utils/scoringUtils.js:46-93 | the gap score lies in [0, maxScore], has one result per reference gap, its percentage is 100·correct / gaps, and result i is correct exactly when gap i matches |
| Scoring.GapLoop | frontend-student/src/utils/scoringUtils.js:69-83 | the loop builds exactly the per-gap results of the specification and counts the correct ones |
| Scoring.ScoreGapFilling | frontend-student/src/utils/scoringUtils.js:28-94 | the method returns the specification's result on every input, every early exit included |
| Scoring.GapFillingCredit | frontend-student/src/utils/scoringUtils.js:28-94 | the score lies in [0, maxScore]; no user answer scores 0; per-gap results exist only for a truthy, readable, non-empty reference list and a truthy answer, and are then the partial credit |
| Scoring.AnyThrowsExactly | frontend-student/src/utils/scoringUtils.js:109-122 | the matching loop throws exactly when some reference entry the user answered has an undefined reference text |
| Scoring.ThrowingEntry | frontend-student/src/utils/scoringUtils.js:112 | one such entry makes the whole scorer throw |
| Scoring.KeyedLoop | frontend-student/src/utils/scoringUtils.js:109-122 | the `forEach` loop throws exactly as the specification says, and otherwise builds its per-entry results and count |
| Scoring.ScoreKeyed | frontend-student/src/utils/scoringUtils.js:99-172 | the shared body of the two keyed scorers equals their specification, including the two early returns |
| Scoring.ScoreMatching | frontend-student/src/utils/scoringUtils.js:99-133 | scoreMatching equals the keyed specification with the matching messages |
| Scoring.ScoreStatementMatching | frontend-student/src/utils/scoringUtils.js:138-172 | scoreStatementMatching equals the keyed specification with the statement messages |
| Scoring.KeyedCredit | frontend-student/src/utils/scoringUtils.js:100-132 | a keyed score lies in [0, maxScore]; there is one result per reference key, in key order; result i is correct exactly when the user's entry under key i is truthy and matches; the feedback is the tally |
| Scoring.ItemPositions | frontend-student/src/utils/scoringUtils.js:206 | mapping `ordered_items` gives one position per item, or throws on an undefined or null item |
| Scoring.OrderItemsMark | frontend-student/src/utils/scoringUtils.js:214-228 | position i is marked correct exactly when the user position is truthy and both sides parse to the same integer |
| Scoring.Compared | frontend-student/src/utils/scoringUtils.js:214 | the ordering loop compares min(n, number of user positions) positions |
| Scoring.OrderingPartialMarks | frontend-student/src/utils/scoringUtils.js:195-238 | the ordering score lies in [0, maxScore] and has min(n, user length) results; its percentage divides the correct count by n, not by the number compared |
| Scoring.OrderLoop | frontend-student/src/utils/scoringUtils.js:214-228 | the loop builds the specification's results and count, stopping at the shorter list |
| Scoring.ScoreOrdering | frontend-student/src/utils/scoringUtils.js:177-239 | the method returns the specification's outcome on every input, the throwing `ordered_items` map included |
| Scoring.OrderingCredit | frontend-student/src/utils/scoringUtils.js:177-239 | an ordering score lies in [0, maxScore]; per-position results exist only for a truthy, readable, non-empty reference and a readable user list, and are then the partial credit |
| Scoring.OrderingParsesPositions | frontend-student/src/utils/scoringUtils.js:217-218 | a numeral string matches the number it spells |
| Scoring.WordCountScore | frontend-student/src/utils/scoringUtils.js:256-272 | the length component lies in [0, 1] and is below 0.5 for a text shorter than minWords |
| Scoring.ContentScore | frontend-student/src/utils/scoringUtils.js:275-285 | the content component is 0.7, 0.8 or 0.9 |
| Scoring.ScoreWriting | frontend-student/src/utils/scoringUtils.js:244-299 | a blank text gives "No writing response provided"; otherwise the word count, both components in range and the score rounded to hundredths from 0.3·length + 0.7·content |
| Scoring.WritingNeverFullMarks | frontend-student/src/utils/scoringUtils.js:288 | a graded text earns between 49% and 93% of maxScore before rounding, so never full marks |
| Scoring.WritingBounds | frontend-student/src/utils/scoringUtils.js:244-299 | the rounded writing score lies in [0, maxScore] when maxScore is a whole number of hundredths |
| Scoring.SpeakingFraction | frontend-student/src/utils/scoringUtils.js:310-343 | the fractions scoreSpeaking adds up lie between 0.2 and 1 |
| Scoring.ScoreSpeaking | frontend-student/src/utils/scoringUtils.js:304-354 | no audio and no transcript give "No speaking response provided"; otherwise the rounded sum of the fractions and the audio and transcript flags |
| Scoring.SpeakingAudioOnly | frontend-student/src/utils/scoringUtils.js:314-342 | audio without a usable transcript earns exactly half of maxScore before rounding |
| Scoring.SpeakingCountsWords | frontend-student/src/utils/scoringUtils.js:321 | the transcript's token count equals its word count |
| Scoring.SpeakingBounds | frontend-student/src/utils/scoringUtils.js:304-354 | the rounded speaking score lies in [0, maxScore] when maxScore is a whole number of hundredths |
| Scoring.CountAtLeast80 | frontend-student/src/utils/scoringUtils.js:365 | the questions at 80% or more are at most all of them |
| Scoring.SumMaxPositive | frontend-student/src/utils/scoringUtils.js:364 | with non-negative maxScores (0 counting as 1) Σmax is non-negative, and positive for a non-empty section |
| Scoring.SectionDenominatorPositive | frontend-student/src/utils/scoringUtils.js:364-368 | so a non-empty section of such questions takes the division branch |
| Scoring.CalculateSectionScore | frontend-student/src/utils/scoringUtils.js:359-379 | no questions give the zero result; otherwise the count is the number of questions, the correct count those at 80% or more, the score Σscore/Σmax·sectionMax rounded to hundredths, the percentage Σscore/Σmax in percent rounded; a non-positive Σmax gives score and percentage 0 and a non-positive section maximum gives percentage 0 |
| Scoring.SectionPercentageIgnoresSectionMax | frontend-student/src/utils/scoringUtils.js:368-369 | the section percentage does not depend on maxSectionScore |
| Scoring.SectionPercentOfShare | frontend-student/src/utils/scoringUtils.js:368-369 | with both denominators positive, the percentage of the normalised score is Σscore / Σmax in percent |
| Scoring.FirstCorrect | frontend-student/src/utils/scoringUtils.js:399 | `find` returns an option marked correct, or none when no option is marked |
| Scoring.GapReferences | frontend-student/src/utils/scoringUtils.js:406-423 | the reference list holds only non-empty answer texts and has at most one entry per item |
| Scoring.GapReferencesComplete | frontend-student/src/utils/scoringUtils.js:410-414 | the list has one entry per item exactly when every item has an answer text; other items are dropped silently |
| Scoring.OrderReferences | frontend-student/src/utils/scoringUtils.js:449-465 | the correct order has exactly one entry per item |
| Scoring.OrderedItemsMapped | frontend-student/src/utils/scoringUtils.js:466 | as written, an answer with `ordered_items` and no `order` hands the bare item objects to scoreOrdering; with `order \|\| answer` it would be mapped to the item ids |
| Scoring.OrderedItemsLostAsWritten | frontend-student/src/utils/scoringUtils.js:466 | as written, the answer `{ordered_items: [{id: 1}]}` against the order [1] scores 0 |
| Scoring.OrderedItemsUserLists | frontend-student/src/utils/scoringUtils.js:199-206 | the answer `{ordered_items: [{id: 1}]}` reaches the ordering loop as the item object as written, and as the id 1 with the intended argument (see also line 466) |
| Scoring.ObjectPositionScoresNothing | frontend-student/src/utils/scoringUtils.js:217-218 | an object in a position never matches it, because it parses as NaN |
| Scoring.FirstPositionScoresAll | frontend-student/src/utils/scoringUtils.js:214-230 | the position 1 against the order [1] earns the whole score |
| Scoring.OrderedItemsScoredCorrected | frontend-student/src/utils/scoringUtils.js:204-206 | with the corrected argument the same answer earns full marks |
| Scoring.GapBranchBounds | frontend-student/src/utils/scoringUtils.js:404-425 | the gap case scores within [0, maxScore] |
| Scoring.KeyedBounds | frontend-student/src/utils/scoringUtils.js:427-446 | the two matching cases score within [0, maxScore] whenever they do not throw |
| Scoring.OrderingBranchBounds | frontend-student/src/utils/scoringUtils.js:448-467 | the ordering case as written scores within [0, maxScore] whenever it does not throw |
| Scoring.OrderingBranchCorrectedBounds | frontend-student/src/utils/scoringUtils.js:448-467 | so does the ordering case with the intended argument |
| Scoring.DispatchBounds | frontend-student/src/utils/scoringUtils.js:396-503 | whatever branch the switch takes, the caught score lies in [0, maxScore] |
| Scoring.AutoScoreBounds | frontend-student/src/utils/scoringUtils.js:383-505 | every score autoScoreQuestion returns lies in [0, maxScore] when maxScore is a whole number of hundredths |
| Scoring.AutoScoreCorrectedBounds | frontend-student/src/utils/scoringUtils.js:383-505 | the dispatcher with the intended ordering argument keeps the same bound |
| Scoring.OrderedItemsDispatch | frontend-student/src/utils/scoringUtils.js:466 | for an ordering answer carrying `ordered_items` and no `order`, autoScoreQuestion scores the item objects, while the corrected dispatcher scores the items' ids |
| Scoring.AutoScoreCorrectedElsewhere | frontend-student/src/utils/scoringUtils.js:396-496 | outside the ordering case the corrected dispatcher returns what autoScoreQuestion returns |
| Scoring.ParseFailureIsCaught | frontend-student/src/utils/scoringUtils.js:391-392 | malformed `answer_json` gives "Error occurred during scoring" for every question type |
| Scoring.UndefinedSampleThrows | frontend-student/src/utils/scoringUtils.js:432 | a first sample answer without `answer_text` makes scoreMatching throw once that item is answered |
| Scoring.MissingSampleTextIsCaught | frontend-student/src/utils/scoringUtils.js:497-503 | that exception is caught and reported as a scoring error |
| Scoring.UnknownCodesGetHalfCredit | frontend-student/src/utils/scoringUtils.js:489-495 | a code with no scorer gets half of maxScore for a truthy answer, 0 otherwise, and "Manual scoring required" |
| Scoring.UnscoredSeededCodes | frontend-student/src/utils/scoringUtils.js:396-496 | the seeded codes GV_MCQ and READING_TRUE_FALSE have no case of their own |
| Scoring.UnscoredWritingCodes | frontend-student/src/utils/scoringUtils.js:469-473 | WRITING_SHORT and WRITING_ESSAY have no case of their own |
| Scoring.SortedItems | frontend-student/src/utils/scoringUtils.js:409 | the items after the sort are the stable sort of the items by `item_order || 0` |
| Scoring.SortedItemsBranches | frontend-student/src/utils/scoringUtils.js:409-466 | the gap and ordering branches score a pre-sorted question as they score the original |
| Scoring.DispatchSorting | frontend-student/src/utils/scoringUtils.js:404-467 | for the two sorting codes the switch takes the gap branch or the ordering branch |
| Scoring.AutoScoreAfterSort | frontend-student/src/utils/scoringUtils.js:409-466 | scoring a question whose items were already sorted gives the same result, because the in-place sort is idempotent |
| Scoring.CollectGapReferences | frontend-student/src/utils/scoringUtils.js:410-414 | the `forEach` over the array pushes exactly the reference list of the specification |
| Scoring.CollectOrderReferences | frontend-student/src/utils/scoringUtils.js:453-457 | pushes `parseInt(answer_text)`, or the id when that is NaN, for every item |
| Scoring.CollectSampleAnswers | frontend-student/src/utils/scoringUtils.js:430-434 | the `forEach` builds the reference map from each item's first sample answer |
| Scoring.SortItems | frontend-student/src/utils/scoringUtils.js:407-417 | sorts `question_items`, else `items`, in place by `item_order`, and leaves the stable sort of the old contents |
| Scoring.ScoreGapQuestion | frontend-student/src/utils/scoringUtils.js:404-425 | the gap case scores the question as it was and leaves its item array sorted |
| Scoring.ScoreOrderingQuestion | frontend-student/src/utils/scoringUtils.js:448-467 | the ordering case scores `order \|\| ordered_items \|\| answer` against the question as it was and leaves its item array sorted |
| Scoring.ScoreMatchingQuestion | frontend-student/src/utils/scoringUtils.js:427-446 | the two matching cases equal their specification branches |
| Scoring.ScoreReadOnlyQuestion | frontend-student/src/utils/scoringUtils.js:397-495 | the cases that do not sort return the caught dispatch result |
| Scoring.DispatchQuestion | frontend-student/src/utils/scoringUtils.js:396-496 | the switch returns the caught dispatch result and sorts the items exactly for the gap and ordering codes |
| Scoring.AutoScoreQuestion | frontend-student/src/utils/scoringUtils.js:383-505 | autoScoreQuestion returns the pure AutoScore of the question as it was, and sorts its items exactly when the answer parses and the code sorts |
| Feedback.SpeakingTexts | frontend-student/src/utils/scoringUtils.js:310-350 | the speaking remarks are rendered one for one, each in the place it was pushed, before they are joined |
| Text.TrimShape | frontend-student/src/utils/scoringUtils.js:14 | trimming gives the empty string exactly for an all-white-space string, and otherwise a string that neither starts nor ends with white space (see also line 245) |
| Text.ToLowerAt | frontend-student/src/utils/scoringUtils.js:14 | lowering keeps the length and lowers each character in place (see also line 282) |
| Text.NormalizeLowersThenTrims | frontend-student/src/utils/scoringUtils.js:14 | the comparison key of every scorer is the answer lowered and then trimmed (see also lines 73, 112, 151) |
| Text.WordCount | frontend-student/src/utils/scoringUtils.js:249 | the word count is zero exactly for a blank text |
| Text.RawTokenCount | frontend-student/src/utils/scoringUtils.js:321 | splitting a trimmed transcription on white space without the filter gives the word count, and one empty piece for a blank one |
| Text.Round | frontend-student/src/utils/scoringUtils.js:293 | a rounded percentage lies within one half of the value it rounds (see also lines 349, 374) |
| Text.Round2 | frontend-student/src/utils/scoringUtils.js:292 | a score rounded to hundredths lies within half a hundredth of the value it rounds (see also lines 348, 373) |
| Text.ParseIntOfIntToString | frontend-student/src/utils/scoringUtils.js:218 | parsing the decimal text of any integer gives that integer back (see also lines 455, 462) |
| Grouping.Members | frontend-student/src/components/exam-taking/ExamHelpers.js:80-87 | the answers filed under one key all carry that key, and are at most all of the answers |
| Grouping.GroupByMembers | frontend-student/src/components/exam-taking/ExamHelpers.js:78-89 | the group under k holds exactly the answers whose key is k, in input order, and a key with no answer has no group |
| Grouping.MemberOfOwnGroup | frontend-student/src/components/exam-taking/ExamHelpers.js:80-87 | every answer lands in the group of its own key |
| Grouping.MembersFromInput | frontend-student/src/components/exam-taking/ExamHelpers.js:80-87 | a group only holds answers of the input |
| Grouping.MembersTotal | frontend-student/src/components/exam-taking/ExamHelpers.js:78-89 | the group sizes add up to the number of answers, so the grouping is a partition |
| Sorting.SortBy | frontend-student/src/utils/scoringUtils.js:409 | the sort keeps the number of items |
| Sorting.SortByCorrect | frontend-student/src/utils/scoringUtils.js:409 | the stable sort by `item_order || 0` returns a sorted permutation of its input |
| Sorting.SortBySortedIsIdentity | frontend-student/src/utils/scoringUtils.js:409 | sorting items that are already in order changes nothing |
| Sorting.SortByIdempotent | frontend-student/src/utils/scoringUtils.js:409 | sorting twice is sorting once |
| Sorting.InsertInPlace | frontend-student/src/utils/scoringUtils.js:409 | one insertion pass leaves the first i+1 elements as the old prefix with element i inserted in key order, and the rest untouched |
| Sorting.SortInPlace | frontend-student/src/utils/scoringUtils.js:409-460 | the in-place `sort` leaves the array holding the stable sort of its old contents: sorted and a permutation |
| ExamHelpers.SkillFromQuestionType | frontend-student/src/components/exam-taking/ExamHelpers.js:2-18 | the skill is one of the five labels, 'Khác' for the empty code, and 'Reading' for any code containing READING, ahead of the other tests |
| ExamHelpers.HeadingsBeforeMatching | frontend-student/src/components/exam-taking/ExamHelpers.js:24-27 | a MATCHING_HEADINGS code also contains MATCHING, yet the earlier substring test names it 'Matching Headings' |
| ExamHelpers.MatchingCaughtBySubstrings | frontend-student/src/components/exam-taking/ExamHelpers.js:24-33 | every code containing MATCHING stops at one of the first four substring tests, so the exact listening matching branches are unreachable |
| ExamHelpers.McqCaughtBySubstrings | frontend-student/src/components/exam-taking/ExamHelpers.js:28-31 | every code containing MCQ stops at a substring test, so the exact LISTENING_MCQ branch is unreachable |
| ExamHelpers.SpeakerMatchingSectionAsWritten | frontend-student/src/components/exam-taking/ExamHelpers.js:27-32 | as written, LISTENING_MATCHING is never named 'Speaker Matching', the name its label gives it |
| ExamHelpers.StatementMatchingSectionAsWritten | frontend-student/src/components/exam-taking/ExamHelpers.js:27-33 | as written, LISTENING_STATEMENT_MATCHING is never named 'Statement Matching' |
| ExamHelpers.ListeningSectionsMatchLabels | frontend-student/src/components/exam-taking/ExamHelpers.js:31-63 | with the exact tests moved first, both listening matching codes get the section name their label promises |
| ExamHelpers.QuestionTypeLabel | frontend-student/src/components/exam-taking/ExamHelpers.js:50-75 | each of the 21 mapped codes gets its non-empty label, and any other code is returned unchanged |
| ExamHelpers.LabelEmptyIffCodeEmpty | frontend-student/src/components/exam-taking/ExamHelpers.js:74 | a label is empty exactly when the code is |
| ExamHelpers.GroupQuestionsBySkill | frontend-student/src/components/exam-taking/ExamHelpers.js:78-89 | the `forEach` builds exactly the stable grouping of the answers by skill id |
| ExamHelpers.MissingSkillIsUnknown | frontend-student/src/components/exam-taking/ExamHelpers.js:82 | an answer without a truthy skill id is filed under 'unknown' |
| ExamHelpers.SectionGroupsMembers | frontend-student/src/components/exam-taking/ExamHelpers.js:92-106 | each section holds its answers in input order and is named after the first of them; a section with no answers has no entry |
| ExamHelpers.GroupQuestionsBySection | frontend-student/src/components/exam-taking/ExamHelpers.js:92-106 | the `forEach` builds exactly that section map, creating `{name, questions: []}` on a section's first answer |
| QuestionFeedback.SectionNameOf | frontend-student/src/components/results/QuestionFeedback.jsx:51-52 | a section name is never empty: the exam section's skill name when given, else the question type's, else 'Other' |
| QuestionFeedback.MaxScoreOf | frontend-student/src/components/results/QuestionFeedback.jsx:68-77 | the max score is positive and is `answer.max_score`, `question.max_score` or 1 |
| QuestionFeedback.GradedRows | frontend-student/src/components/results/QuestionFeedback.jsx:48-50 | only answers with a loaded question are graded, in input order |
| QuestionFeedback.GradedWithOwnMax | frontend-student/src/components/results/QuestionFeedback.jsx:65-77 | each answer is scored with the same max score that the section totals add up |
| QuestionFeedback.UnloadedQuestionSkipped | frontend-student/src/components/results/QuestionFeedback.jsx:49-50 | an answer without a question adds no entry to any group or statistic |
| QuestionFeedback.Totals | frontend-student/src/components/results/QuestionFeedback.jsx:56-80 | a section's question count equals its entries, its correct count is at most that, and its max total is positive once it has an entry |
| QuestionFeedback.StatsOfMembers | frontend-student/src/components/results/QuestionFeedback.jsx:54-80 | a section's statistics are the totals of exactly the entries filed under it |
| QuestionFeedback.GroupQuestionsBySection | frontend-student/src/components/results/QuestionFeedback.jsx:44-85 | the `forEach` leaves `grouped` as the stable grouping of the graded answers by section name and `sectionStats` as their per-section totals |
| QuestionFeedback.Record | frontend-student/src/components/results/QuestionFeedback.jsx:54-80 | one step files the scored answer under its section and updates that section's four counters |
| QuestionFeedback.TotalsWithinMax | frontend-student/src/components/results/QuestionFeedback.jsx:76-77 | answers scored within their max give 0 ≤ totalScore ≤ totalMaxScore |
| QuestionFeedback.SectionPercentageBounds | frontend-student/src/components/results/QuestionFeedback.jsx:115-151 | the rounded section percentage of such answers lies in [0, 100] |
| QuestionFeedback.GradedWithinMax | frontend-student/src/components/results/QuestionFeedback.jsx:65-69 | with max scores in whole hundredths every re-scored answer lies within its max score |
| QuestionFeedback.SectionPercentagesWithinRange | frontend-student/src/components/results/QuestionFeedback.jsx:149-151 | so every section percentage shown on the result page lies in [0, 100] |
| ResultDisplay.FinalScoreWins | frontend-student/src/components/results/QuestionResultDisplay.jsx:40 | a stored final score is shown as it is, 0 included; a null one falls back to `score \|\| 0` |
| ResultDisplay.ShownMaxScore | frontend-student/src/components/results/QuestionResultDisplay.jsx:41 | `answer.max_score \|\| question.max_score \|\| 1` is never 0, and positive when the stored max scores are not negative |
| ResultDisplay.ShownPercentageBounds | frontend-student/src/components/results/QuestionResultDisplay.jsx:42 | a score within [0, maxScore] is shown as a percentage within [0, 100] |
| ResultDisplay.MissingFinalScoreIsNaN | frontend-student/src/components/results/QuestionResultDisplay.jsx:40-42 | an absent (undefined) final score passes the `!== null` test and the percentage is NaN |
| ResultDisplay.BandOf | frontend-student/src/components/results/QuestionResultDisplay.jsx:43-44 | 80 and up is correct, 50 up to 80 partially correct, everything else (NaN included) incorrect: each band exactly on its range |
| ResultDisplay.BandsAgree | frontend-student/src/components/results/QuestionResultDisplay.jsx:43-54 | at most one of isCorrect and isPartiallyCorrect holds, and the chip colour, the summary colour and the summary suffix all name the same band (see also lines 509-521) |
| ResultDisplay.RendererFor | frontend-student/src/components/results/QuestionResultDisplay.jsx:69-101 | a code outside the switch's cases is drawn as plain text, and only such a code |
| ResultDisplay.HeadingsDrawnAsMatching | frontend-student/src/components/results/QuestionResultDisplay.jsx:80-86 | READING_MATCHING_HEADINGS is drawn by the matching view |
| ResultDisplay.ShownReferenceIsLastSample | frontend-student/src/components/results/QuestionResultDisplay.jsx:154-228 | the reference shown for an item id is the first sample answer of the last item with that id and a sample answer |
| ResultDisplay.GapMarkIgnoresCaseAndSpace | frontend-student/src/components/results/QuestionResultDisplay.jsx:179-180 | a gap is marked correct exactly when the reference is non-empty and the texts agree after lower-casing and trimming, as the scorer compares them |
| ResultDisplay.MatchMarkIsStricter | frontend-student/src/components/results/QuestionResultDisplay.jsx:244-245 | a string match marked correct would also be marked correct as a gap |
| ResultDisplay.MatchMarkIsCaseSensitive | frontend-student/src/components/results/QuestionResultDisplay.jsx:179-245 | the converse fails: "a" against "A" is a correct gap but a wrong match |
| ResultDisplay.ShownWordCountOfBlank | frontend-student/src/components/results/QuestionResultDisplay.jsx:379 | an empty answer shows 0 words, a blank non-empty one 1 word, any other its word count |
| QuestionForm.AnyMeaningful | frontend-admin-teacher/src/components/teacher/questions/QuestionForm.jsx:63-73 | the key scan finds content exactly when some value is a non-blank string, a non-empty array or a non-empty object |
| QuestionForm.ValidateContent | frontend-admin-teacher/src/components/teacher/questions/QuestionForm.jsx:45-91 | the error is present exactly when the content is invalid, and empty content is rejected as empty |
| QuestionForm.ObjectContentRule | frontend-admin-teacher/src/components/teacher/questions/QuestionForm.jsx:55-75 | a parsed object or array is valid exactly when one of its values is content, and one without keys is rejected as having no content |
| QuestionForm.ScalarContentRule | frontend-admin-teacher/src/components/teacher/questions/QuestionForm.jsx:78-83 | a parsed JSON scalar is valid exactly when it is a non-blank string, and is otherwise rejected as empty |
| QuestionForm.PlainTextRule | frontend-admin-teacher/src/components/teacher/questions/QuestionForm.jsx:84-90 | content that is not JSON is valid exactly when it is not blank, and blank text is rejected as invalid |
| QuestionForm.SavedSeconds | frontend-admin-teacher/src/components/teacher/questions/QuestionForm.jsx:142 | a duration is saved exactly when the limit is switched on |
| QuestionForm.Floor | frontend-admin-teacher/src/components/teacher/questions/QuestionForm.jsx:109 | `Math.floor(a / b)` is the quotient rounded down |
| QuestionForm.DurationRoundTrip | frontend-admin-teacher/src/components/teacher/questions/QuestionForm.jsx:108-142 | saving a non-zero limit and opening the question again gives back the same minutes |
| QuestionForm.NoDurationRoundTrip | frontend-admin-teacher/src/components/teacher/questions/QuestionForm.jsx:108-142 | no limit, or a limit of 0 minutes, comes back as no limit with the 5-minute default |
| QuestionForm.SecondsTruncatedToMinutes | frontend-admin-teacher/src/components/teacher/questions/QuestionForm.jsx:109-142 | stored seconds that are not whole minutes come back rounded down to a minute |
| GapFillingForm.MarkerLen | frontend-admin-teacher/src/components/teacher/questions/GapFillingForm.jsx:82 | a `[GAP\d+]` match at the start of a text is at least six characters, starts with '[' and holds no other '[' |
| GapFillingForm.SkipMarkerFree | frontend-admin-teacher/src/components/teacher/questions/GapFillingForm.jsx:82 | positions without '[' start no marker, so the global scan may skip them |
| GapFillingForm.GapCountCountsMarkers | frontend-admin-teacher/src/components/teacher/questions/GapFillingForm.jsx:82-143 | the left-to-right global match count equals the number of positions where a marker starts |
| GapFillingForm.ValidateGaps | frontend-admin-teacher/src/components/teacher/questions/GapFillingForm.jsx:141-152 | the gap count is the number of markers, and the gaps are valid exactly when there is at least one and it equals min(options, answers) |
| GapFillingForm.PassageCheck | frontend-admin-teacher/src/components/teacher/questions/GapFillingForm.jsx:158-164 | the passage is rejected as blank, else as shorter than 50 characters, else as lacking `[GAP`, each exactly in its case and in that order |
| GapFillingForm.Duplicates | frontend-admin-teacher/src/components/teacher/questions/GapFillingForm.jsx:185-187 | the repeats reported are at most the words given |
| GapFillingForm.DuplicatesEmptyIffDistinct | frontend-admin-teacher/src/components/teacher/questions/GapFillingForm.jsx:185-188 | no repeat is reported exactly when the non-blank options are pairwise different |
| GapFillingForm.OptionsCheck | frontend-admin-teacher/src/components/teacher/questions/GapFillingForm.jsx:180-191 | the options pass exactly when there are at least three non-blank ones and they are pairwise different |
| GapFillingForm.FirstMissing | frontend-admin-teacher/src/components/teacher/questions/GapFillingForm.jsx:193-199 | the error names the first gap below the gap count whose answer is missing or blank, and there is none exactly when every such gap has an answer |
| GapFillingForm.GapsErrorNeedsMarker | frontend-admin-teacher/src/components/teacher/questions/GapFillingForm.jsx:167-171 | a gap-count error is reported exactly when the passage contains `[GAP` and the gap check fails |
| GapFillingForm.ValidFormIsConsistent | frontend-admin-teacher/src/components/teacher/questions/GapFillingForm.jsx:154-204 | a form that passes has a passage of at least 50 characters containing a marker, a prompt of at least 10, as many gaps as min(options, answers) and at least one, an answer for every gap, and three different non-blank options |
| GapFillingForm.GivenAnswers | frontend-admin-teacher/src/components/teacher/questions/GapFillingForm.jsx:64 | the filtered answers are at most the answers given |
| GapFillingForm.GivenAnswersKeep | frontend-admin-teacher/src/components/teacher/questions/GapFillingForm.jsx:64 | the answer filter keeps exactly the present, non-blank answers |
| GapFillingForm.EmittedIsFiltered | frontend-admin-teacher/src/components/teacher/questions/GapFillingForm.jsx:61-74 | the emitted question holds exactly the non-blank options and the present non-blank answers |
| GapFillingForm.Without | frontend-admin-teacher/src/components/teacher/questions/GapFillingForm.jsx:91-95 | removing index i keeps every other element in order; an index out of range removes nothing |
| GapFillingForm.Present | frontend-admin-teacher/src/components/teacher/questions/GapFillingForm.jsx:95 | `filter` drops exactly the holes of a sparse array and changes nothing in one without holes |
| GapFillingForm.SetAt | frontend-admin-teacher/src/components/teacher/questions/GapFillingForm.jsx:122-123 | writing index i of a copy sets entry i, keeps the others and fills the gap past the old end with holes |
| GapFillingForm.Holes | frontend-admin-teacher/src/components/teacher/questions/GapFillingForm.jsx:123 | the holes before an entry written past the end |
| GapFillingForm.GapFillingEditor.constructor | frontend-admin-teacher/src/components/teacher/questions/GapFillingForm.jsx:21-29 | the editor starts with an empty passage, the six default words as options and answers, no errors and not validated |
| GapFillingForm.GapFillingEditor.RemoveOption | frontend-admin-teacher/src/components/teacher/questions/GapFillingForm.jsx:89-98 | removing an option removes the same index from the answers, unless only one option is left; nothing else changes |
| GapFillingForm.GapFillingEditor.ChangeOption | frontend-admin-teacher/src/components/teacher/questions/GapFillingForm.jsx:100-118 | one option is replaced and the options error cleared; nothing else changes |
| GapFillingForm.GapFillingEditor.ChangeCorrectAnswer | frontend-admin-teacher/src/components/teacher/questions/GapFillingForm.jsx:120-138 | one answer is set, possibly past the end, and the answers error cleared; nothing else changes |
| GapFillingForm.GapFillingEditor.ValidateForm | frontend-admin-teacher/src/components/teacher/questions/GapFillingForm.jsx:154-205 | the loop leaves the errors every check finds, in the source's precedence, and the form is valid, and marked validated, exactly when there are none; the form's content is unchanged |
| WritingQuestion.WritingTypeOf | frontend-student/src/components/exam-taking/WritingQuestion.jsx:34-56 | short answer exactly for a message list whose first entry is a string, chat exactly for one whose first entry has a person and a message, and general only when neither the form nor the email fields are both present |
| WritingQuestion.FormFillingWithoutMessages | frontend-student/src/components/exam-taking/WritingQuestion.jsx:45-48 | a task with `question` and `placeholder` and no message list is form filling |
| WritingQuestion.WordCountColor | frontend-student/src/components/exam-taking/WritingQuestion.jsx:124-128 | red exactly when a positive minimum is not reached, amber exactly when it is but a positive maximum is exceeded, green otherwise |
| WritingQuestion.NoLimitsAlwaysSuccess | frontend-student/src/components/exam-taking/WritingQuestion.jsx:124-128 | without limits every count is green |
| WritingQuestion.WordCountProgress | frontend-student/src/components/exam-taking/WritingQuestion.jsx:130-135 | the progress lies in [0, 100], is 0 without a positive maximum, and is full exactly when the count reaches the maximum |
| WritingQuestion.ProgressReachesFull | frontend-student/src/components/exam-taking/WritingQuestion.jsx:132 | count / max · 100 reaches 100 exactly when the count reaches the maximum |
| WritingQuestion.WritingAnswers.constructor | frontend-student/src/components/exam-taking/WritingQuestion.jsx:17-18 | the page starts with no structured answers and an empty text |
| WritingQuestion.WritingAnswers.Load | frontend-student/src/components/exam-taking/WritingQuestion.jsx:61-90 | `answer_json` is loaded first (`{}` when it does not parse or is falsy), else `text_answer` as the single text of a general task or parsed for the others; nothing saved clears both |
| WritingQuestion.WritingAnswers.StructuredChange | frontend-student/src/components/exam-taking/WritingQuestion.jsx:93-106 | one key is set in the answers, the whole map is sent as JSON, and the text is kept |
| WritingQuestion.WritingAnswers.TextChange | frontend-student/src/components/exam-taking/WritingQuestion.jsx:109-117 | the text is replaced and sent as text, and the structured answers are kept |
| WritingQuestion.StructuredChangeIsLocal | frontend-student/src/components/exam-taking/WritingQuestion.jsx:94-97 | a structured change sets its key and leaves every other key as it was |
| WritingEmail.ParseAnswer | frontend-student/src/components/exam-taking/writing/WritingEmailQuestion.jsx:83-98 | a saved text without both headers is the friend email, trimmed, with an empty manager email |
| WritingEmail.FormatHasHeaders | frontend-student/src/components/exam-taking/writing/WritingEmailQuestion.jsx:123 | the stored text carries both headers, so the loader always takes its regex branch on it |
| WritingEmail.FriendGroupOfFormat | frontend-student/src/components/exam-taking/writing/WritingEmailQuestion.jsx:90-123 | the friend regex reads the friend email back out of a stored text whose friend email holds no "Manager Email:" |
| WritingEmail.ManagerGroupOfFormat | frontend-student/src/components/exam-taking/writing/WritingEmailQuestion.jsx:91-123 | the manager regex reads the manager email back out of such a text |
| WritingEmail.ParseFormatRoundTrip | frontend-student/src/components/exam-taking/writing/WritingEmailQuestion.jsx:83-123 | loading a stored text gives back both emails trimmed, provided the friend email does not itself contain "Manager Email:" |
| WritingEmail.EmailAnswers.constructor | frontend-student/src/components/exam-taking/writing/WritingEmailQuestion.jsx:11-14 | both emails start empty |
| WritingEmail.EmailAnswers.Load | frontend-student/src/components/exam-taking/writing/WritingEmailQuestion.jsx:75-110 | a non-empty saved text is parsed into the two emails, anything else resets both |
| WritingEmail.EmailAnswers.Change | frontend-student/src/components/exam-taking/writing/WritingEmailQuestion.jsx:112-132 | one email is replaced and the formatted text of both is sent |
| WritingEmail.EditSurvivesReload | frontend-student/src/components/exam-taking/writing/WritingEmailQuestion.jsx:88-123 | after an edit, reloading the sent text gives the new value at the edited email and the old value at the other one, both trimmed |
| WritingEmail.FallbackIsFriendOnly | frontend-student/src/components/exam-taking/writing/WritingEmailQuestion.jsx:95-98 | a text without both headers loads as a friend email only, and survives one more store and load unchanged up to trimming |
| WritingEmail.RuleIndex | frontend-student/src/components/exam-taking/writing/WritingEmailQuestion.jsx:37-40 | the scan stops at the first line starting with '---', or runs to the end when there is none |
| WritingEmail.FirstFrom | frontend-student/src/components/exam-taking/writing/WritingEmailQuestion.jsx:32-35 | the section opens at the first 'From:' line before the stop, if there is one |
| WritingEmail.Kept | frontend-student/src/components/exam-taking/writing/WritingEmailQuestion.jsx:42-44 | the lines kept from a range are at most the lines in it |
| WritingEmail.CollectEmailLines | frontend-student/src/components/exam-taking/writing/WritingEmailQuestion.jsx:26-45 | the `for` loop with its `inEmailSection` flag collects exactly the email section of the specification |
| WritingEmail.KeptFrom | frontend-student/src/components/exam-taking/writing/WritingEmailQuestion.jsx:30-44 | every collected line is a trimmed line of the range that is not a 'From:' line |
| WritingEmail.SectionBetweenMarkers | frontend-student/src/components/exam-taking/writing/WritingEmailQuestion.jsx:26-45 | every line of the manager's email lies strictly between the first 'From:' line and the first '---' line, and there is such a 'From:' line |
| WritingEmail.NoFromNoSection | frontend-student/src/components/exam-taking/writing/WritingEmailQuestion.jsx:32-45 | without a 'From:' line before the first '---' line the section is empty |
| WritingEmail.FirstWhere | frontend-student/src/components/exam-taking/writing/WritingEmailQuestion.jsx:49-50 | `find` and `findIndex` return the first line satisfying the test, and none exactly when no line does |
| WritingEmail.SubjectOf | frontend-student/src/components/exam-taking/writing/WritingEmailQuestion.jsx:49 | the subject is never empty, and is "Email" when no line starts with 'Subject:' |
| WritingEmail.TaskOf | frontend-student/src/components/exam-taking/writing/WritingEmailQuestion.jsx:22-63 | the title is the first non-blank line ("Email Writing Task" without one); an empty section gives the default manager email; the subject is never empty |
| WritingEmail.ReadContent | frontend-student/src/components/exam-taking/writing/WritingEmailQuestion.jsx:17-72 | the content reader with its section loop returns exactly the content of the specification: JSON for text opening with '{', the task otherwise |
| WritingEmail.TitleIsFirstNonBlankLine | frontend-student/src/components/exam-taking/writing/WritingEmailQuestion.jsx:22-23 | the title is a non-blank line of the content |
| WritingShortAnswer.ParsePart | frontend-student/src/components/exam-taking/writing/WritingShortAnswerQuestion.jsx:26-28 | a matching part starts with "Answer " and a non-empty run of digits that is its key, and its value starts with no white space |
| WritingShortAnswer.ReadAnswers | frontend-student/src/components/exam-taking/writing/WritingShortAnswerQuestion.jsx:20-33 | the `forEach` over the parts computes exactly the parsed answers of the specification |
| WritingShortAnswer.ParsedAnswersWellKeyed | frontend-student/src/components/exam-taking/writing/WritingShortAnswerQuestion.jsx:25-31 | every key read back is a run of digits, and no key is read twice |
| WritingShortAnswer.SplitJoin | frontend-student/src/components/exam-taking/writing/WritingShortAnswerQuestion.jsx:24-57 | splitting on "\n\n" undoes joining with it when no part holds a blank line or ends with a line break |
| WritingShortAnswer.EntrySeparate | frontend-student/src/components/exam-taking/writing/WritingShortAnswerQuestion.jsx:56 | the text of a storable entry holds no blank line |
| WritingShortAnswer.ParseEntry | frontend-student/src/components/exam-taking/writing/WritingShortAnswerQuestion.jsx:26-56 | the regex reads `Answer k: v` back as key k and value v |
| WritingShortAnswer.ParseLastEntry | frontend-student/src/components/exam-taking/writing/WritingShortAnswerQuestion.jsx:25-31 | reading stored entries assigns the last entry after all the others |
| WritingShortAnswer.LookupLastEntry | frontend-student/src/components/exam-taking/writing/WritingShortAnswerQuestion.jsx:29 | with distinct keys the last entry is the only one for its key |
| WritingShortAnswer.ParseEntryLines | frontend-student/src/components/exam-taking/writing/WritingShortAnswerQuestion.jsx:25-56 | reading the entry lines of well-formed answers gives every key its stored answer |
| WritingShortAnswer.FormatParseRoundTrip | frontend-student/src/components/exam-taking/writing/WritingShortAnswerQuestion.jsx:20-57 | storing well-formed answers and loading the text gives every key its answer |
| WritingShortAnswer.ShortAnswers.constructor | frontend-student/src/components/exam-taking/writing/WritingShortAnswerQuestion.jsx:12 | the page starts with no answers |
| WritingShortAnswer.ShortAnswers.Load | frontend-student/src/components/exam-taking/writing/WritingShortAnswerQuestion.jsx:15-44 | a non-empty saved text is parsed into the answers, anything else gives none |
| WritingShortAnswer.ShortAnswers.Change | frontend-student/src/components/exam-taking/writing/WritingShortAnswerQuestion.jsx:46-64 | key `index + 1` is set and all answers are sent as their formatted text |
| WritingShortAnswer.ChangeIsLocal | frontend-student/src/components/exam-taking/writing/WritingShortAnswerQuestion.jsx:46-52 | an edit shows in its own box and in no other |
| WritingShortAnswer.EditSurvivesReload | frontend-student/src/components/exam-taking/writing/WritingShortAnswerQuestion.jsx:20-57 | the text sent after an edit of well-formed answers loads back as the edited answers, and the edited box shows the new value |
| WritingShortAnswer.FieldMatches | frontend-student/src/components/exam-taking/writing/WritingShortAnswerQuestion.jsx:84 | each field match is non-empty text holding no colon |
| WritingShortAnswer.OneFieldPerBlank | frontend-student/src/components/exam-taking/writing/WritingShortAnswerQuestion.jsx:84-89 | a `field: ___` piece gives exactly one match, the field's own text, and the scan goes on after the blank |
| WritingShortAnswer.NoColonNoField | frontend-student/src/components/exam-taking/writing/WritingShortAnswerQuestion.jsx:84 | text without a colon has no field |
| WritingShortAnswer.QuestionLinesKeep | frontend-student/src/components/exam-taking/writing/WritingShortAnswerQuestion.jsx:104 | the filter keeps exactly the lines that end in a question mark |
| WritingShortAnswer.Messages | frontend-student/src/components/exam-taking/writing/WritingShortAnswerQuestion.jsx:76-109 | there is at least one message: one per field for a form with fields, the five standard questions for a form without, else the content's question lines, else the default prompt |
| WritingShortAnswer.QuestionLinesOfText | frontend-student/src/components/exam-taking/writing/WritingShortAnswerQuestion.jsx:72-104 | outside a form every message is a non-blank line of the content ending in '?' |
| WritingShortAnswer.ContentOf | frontend-student/src/components/exam-taking/writing/WritingShortAnswerQuestion.jsx:67-119 | text not opening with '{' gives a task with a non-empty title, taken from a content line or the default, and at least one message |
| WritingShortAnswer.FirstLineIsText | frontend-student/src/components/exam-taking/writing/WritingShortAnswerQuestion.jsx:72-73 | the first non-blank line is a non-empty line of the content |
| PracticeWriting.FallbackShowsTextTwice | frontend-student/src/components/practice/PracticeWritingQuestion.jsx:34-40 | an answer that is not JSON is shown in both the friend-email and the essay box, with an empty manager email |
| PracticeWriting.PracticeWritingAnswers.constructor | frontend-student/src/components/practice/PracticeWritingQuestion.jsx:20-26 | the record starts with three empty texts and two empty maps |
| PracticeWriting.PracticeWritingAnswers.Load | frontend-student/src/components/practice/PracticeWritingQuestion.jsx:28-47 | a truthy string answer is parsed, or falls back to the text-in-both-boxes record; another truthy answer is used as it is; a falsy one leaves the record alone |
| PracticeWriting.PracticeWritingAnswers.AnswerChange | frontend-student/src/components/practice/PracticeWritingQuestion.jsx:49-53 | one top-level key is replaced and the new record is sent |
| PracticeWriting.PracticeWritingAnswers.FormChange | frontend-student/src/components/practice/PracticeWritingQuestion.jsx:55-60 | one field of `form` is replaced and the new record is sent |
| PracticeWriting.PracticeWritingAnswers.ShortAnswerChange | frontend-student/src/components/practice/PracticeWritingQuestion.jsx:62-67 | one entry of `shortAnswers` is replaced and the new record is sent |
| PracticeWriting.NestedChangeIsLocal | frontend-student/src/components/practice/PracticeWritingQuestion.jsx:55-67 | a nested change sets one inner key and leaves the other inner keys and the other top-level keys as they were |
| PracticeWriting.WordCountColor | frontend-student/src/components/practice/PracticeWritingQuestion.jsx:73-77 | red exactly below the minimum, amber exactly at or above it and above the maximum, with no zero guards |
| PracticeWriting.ColoursAgreeWithLimits | frontend-student/src/components/practice/PracticeWritingQuestion.jsx:73-77 | with positive limits the practice page colours a count as the exam page does |
| PracticeWriting.ColoursDifferWithoutMaximum | frontend-student/src/components/practice/PracticeWritingQuestion.jsx:73-77 | without a maximum the practice page warns on any text, where the exam page shows green |
| PracticeWriting.Progress | frontend-student/src/components/practice/PracticeWritingQuestion.jsx:79-81 | with a positive maximum the progress lies in [0, 100] and equals the exam page's; a zero maximum gives NaN for no words and 100 otherwise |
| PracticeWriting.LayoutFor | frontend-student/src/components/practice/PracticeWritingQuestion.jsx:84-103 | each layout is chosen by exactly its two names, and the essay by anything else |
| PracticeReading.RenderAppend | frontend-student/src/components/practice/PracticeReadingQuestion.jsx:94-174 | the text the pieces spell distributes over concatenation |
| PracticeReading.Step | frontend-student/src/components/practice/PracticeReadingQuestion.jsx:104-162 | one turn of the `forEach` never moves `lastIndex` back or past the end, and changes nothing when its marker is not found from `lastIndex` |
| PracticeReading.ScanUpTo | frontend-student/src/components/practice/PracticeReadingQuestion.jsx:95-163 | `lastIndex` stays within the passage |
| PracticeReading.GapExtendsPrefix | frontend-student/src/components/practice/PracticeReadingQuestion.jsx:110-161 | the text before a found marker plus its drop-down extend the spelled prefix to just past the marker |
| PracticeReading.StepRenders | frontend-student/src/components/practice/PracticeReadingQuestion.jsx:104-162 | each turn keeps the pieces spelling the passage up to `lastIndex` |
| PracticeReading.ScanRenders | frontend-student/src/components/practice/PracticeReadingQuestion.jsx:104-163 | after any number of turns the pieces spell the passage up to `lastIndex` |
| PracticeReading.GapPiecesRender | frontend-student/src/components/practice/PracticeReadingQuestion.jsx:92-174 | reading every drop-down as its marker gives the passage back exactly |
| PracticeReading.ScanMonotone | frontend-student/src/components/practice/PracticeReadingQuestion.jsx:108-161 | the scan position never moves back |
| PracticeReading.ScanGapsFound | frontend-student/src/components/practice/PracticeReadingQuestion.jsx:104-163 | every drop-down produced stands for a marker that was found, in item order |
| PracticeReading.MissingMarkerHasNoGap | frontend-student/src/components/practice/PracticeReadingQuestion.jsx:108-110 | a marker that does not occur in the passage gets no drop-down |
| PracticeReading.NoPiecesOnlyForEmptyContent | frontend-student/src/components/practice/PracticeReadingQuestion.jsx:174 | only an empty passage yields no piece, so the page falls back to the raw content only then |
| PracticeReading.SplitPassage | frontend-student/src/components/practice/PracticeReadingQuestion.jsx:92-175 | the loop computes exactly the pieces of the specification, and they spell the passage |
| PracticeReading.SortItems | frontend-student/src/components/practice/PracticeReadingQuestion.jsx:98-102 | the copy is sorted by `item_number \|\| item_order \|\| 0` and is a permutation of the items |
| PracticeReading.Marker | frontend-student/src/components/practice/PracticeReadingQuestion.jsx:105-106 | a marker is `[GAP` then a number then `]` |
| PracticeReading.PassagePieces | frontend-student/src/components/practice/PracticeReadingQuestion.jsx:92-175 | the gap layout's pieces spell the passage, and there are none only for an empty passage |
| PracticeReading.UnnumberedItemUsesPosition | frontend-student/src/components/practice/PracticeReadingQuestion.jsx:105 | an item without a number is looked for by its place in the sorted list |
| PracticeReading.ReadingAnswer.constructor | frontend-student/src/components/practice/PracticeReadingQuestion.jsx:24 | the local answer starts as `answer \|\| {}` |
| PracticeReading.ReadingAnswer.Reset | frontend-student/src/components/practice/PracticeReadingQuestion.jsx:26-28 | the effect resets the local answer to `answer \|\| {}` |
| PracticeReading.ReadingAnswer.Choose | frontend-student/src/components/practice/PracticeReadingQuestion.jsx:133-137 | a drop-down choice sets its item's key in `localAnswer \|\| {}` and sends the result |
| PracticeReading.ReadingAnswer.ChooseOption | frontend-student/src/components/practice/PracticeReadingQuestion.jsx:63-65 | an MCQ choice makes the option id the whole answer and sends it |
| PracticeReading.ChoiceIsLocal | frontend-student/src/components/practice/PracticeReadingQuestion.jsx:135 | a choice sets its own item and leaves every other item's answer alone |
| PracticeReading.LayoutFor | frontend-student/src/components/practice/PracticeReadingQuestion.jsx:38-56 | each layout is chosen by exactly its two names, and MCQ by anything else |
| PracticeReadingNew.Marker | frontend-student/src/components/practice/PracticeReadingQuestionNew.jsx:94 | a marker is `[GAP`, then the item number, else its order, else "undefined", then `]` |
| PracticeReadingNew.PassagePieces | frontend-student/src/components/practice/PracticeReadingQuestionNew.jsx:80-120 | the pieces spell the passage, and there are none only for an empty passage |
| PracticeReadingNew.NumberedMarkersAgree | frontend-student/src/components/practice/PracticeReadingQuestionNew.jsx:94 | for a numbered item both reading pages look for the same marker |
| PracticeReadingNew.UnnumberedMarkersDiffer | frontend-student/src/components/practice/PracticeReadingQuestionNew.jsx:94 | without a number the older page uses the item's position and this page its order: `[GAP1]` against `[GAP2]` |
| PracticeReadingNew.QuestionTypeAsWritten | frontend-student/src/components/practice/PracticeReadingQuestionNew.jsx:38-44 | the type is always truthy |
| PracticeReadingNew.CodeIsNeverRead | frontend-student/src/components/practice/PracticeReadingQuestionNew.jsx:38-44 | as written, `question_type?.code` is never the result: a falsy `question_type` has no truthy code |
| PracticeReadingNew.TypeObjectRendersAsMcq | frontend-student/src/components/practice/PracticeReadingQuestionNew.jsx:38-44 | so a question type given as an object with a code is rendered as MCQ whatever the code says (see also lines 324-346) |
| PracticeReadingNew.QuestionType | frontend-student/src/components/practice/PracticeReadingQuestionNew.jsx:38-44 | the type with the object's code read first is always truthy |
| PracticeReadingNew.QuestionTypeReadsCode | frontend-student/src/components/practice/PracticeReadingQuestionNew.jsx:38-44 | the corrected lookup returns an object's code, and agrees with the written one for every `question_type` that is not a string, array or object |
| PracticeReadingNew.TypeObjectReachesLayout | frontend-student/src/components/practice/PracticeReadingQuestionNew.jsx:38-44 | with the corrected lookup a type object with the code READING_GAP_FILL gets the gap-filling layout (see also lines 331-332) |
| PracticeReadingNew.LayoutFor | frontend-student/src/components/practice/PracticeReadingQuestionNew.jsx:324-346 | each layout is chosen by exactly its two strings, and MCQ by anything else, non-strings included |
| PracticeReadingNew.PageLayout | frontend-student/src/components/practice/PracticeReadingQuestionNew.jsx:38-44 | the page's layout is that of `question_type_name \|\| type \|\| question_type \|\| 'READING_MCQ'`, and MCQ for a type object when the two names are falsy (see also lines 324-346) |
| PracticeReadingNew.PageLayoutCorrected | frontend-student/src/components/practice/PracticeReadingQuestionNew.jsx:38-44 | with the corrected lookup the layout of a type object follows its code, and nothing changes for other `question_type` values (see also lines 324-346) |
| PracticeReadingNew.HeadingCodesDiffer | frontend-student/src/components/practice/PracticeReadingQuestionNew.jsx:337 | the two reading pages spell the heading-matching code differently, each falling back to MCQ on the other's spelling |
| PracticeReadingNew.OrderChoices | frontend-student/src/components/practice/PracticeReadingQuestionNew.jsx:307 | the ordering drop-down offers exactly 1 to n, in order |
| PracticeListening.Next | frontend-student/src/components/practice/PracticeListeningQuestion.jsx:40-89 | a question change resets the player; otherwise the play count grows by one exactly when the audio is started, which needs a mounted element and fewer than three plays; a click while playing pauses, an ended track stops, and the count never passes three |
| PracticeListening.PlayCountCountsStarts | frontend-student/src/components/practice/PracticeListeningQuestion.jsx:53-73 | between question changes the play count grows by exactly the number of starts, a resume after a pause included |
| PracticeListening.PlayCountBounded | frontend-student/src/components/practice/PracticeListeningQuestion.jsx:33-67 | whatever the clicks and element events, the play count never passes three |
| PracticeListening.AtMostThreeStarts | frontend-student/src/components/practice/PracticeListeningQuestion.jsx:33-73 | so the audio of one question is started at most three times |
| PracticeListening.ResumeUsesAPlay | frontend-student/src/components/practice/PracticeListeningQuestion.jsx:53-64 | play, pause, play leaves two of the three plays used |
| PracticeListening.LastPlayCannotBePaused | frontend-student/src/components/practice/PracticeListeningQuestion.jsx:53-64 | the third start disables both buttons while the audio plays, so that play cannot be paused from the page (see also lines 272-286) |
| PracticeListening.ListeningPlayer.constructor | frontend-student/src/components/practice/PracticeListeningQuestion.jsx:27-30 | the player starts stopped, with no plays, time 0 and length 0 |
| PracticeListening.ListeningPlayer.QuestionChanged | frontend-student/src/components/practice/PracticeListeningQuestion.jsx:40-51 | the reset effect is the question-change transition |
| PracticeListening.ListeningPlayer.PlayPause | frontend-student/src/components/practice/PracticeListeningQuestion.jsx:53-64 | `handlePlayPause` is the play/pause transition, command included |
| PracticeListening.ListeningPlayer.Replay | frontend-student/src/components/practice/PracticeListeningQuestion.jsx:66-73 | `handleReplay` is the replay transition, command included |
| PracticeListening.ListeningPlayer.AudioEnded | frontend-student/src/components/practice/PracticeListeningQuestion.jsx:75-77 | `handleAudioEnded` is the ended transition |
| PracticeListening.ListeningPlayer.TimeUpdate | frontend-student/src/components/practice/PracticeListeningQuestion.jsx:79-83 | `handleTimeUpdate` is the time transition |
| PracticeListening.ListeningPlayer.MetadataLoaded | frontend-student/src/components/practice/PracticeListeningQuestion.jsx:85-89 | `handleLoadedMetadata` is the metadata transition |
| PracticeListening.EditAnswer | frontend-student/src/components/practice/PracticeListeningQuestion.jsx:153-227 | an edited answer is an object |
| PracticeListening.EditIsLocal | frontend-student/src/components/practice/PracticeListeningQuestion.jsx:153-227 | an edit sets its own item and leaves every other item's answer as it was |
| PracticeListening.VerdictText | frontend-student/src/components/practice/PracticeListeningQuestion.jsx:213 | a statement is answered with one of 'True', 'False' and 'Not Given' |
| PracticeListening.VerdictTextInjective | frontend-student/src/components/practice/PracticeListeningQuestion.jsx:213 | the three options are three different answers |
| PracticeListening.VerdictIsStored | frontend-student/src/components/practice/PracticeListeningQuestion.jsx:213-227 | choosing a verdict stores one of the three option strings under the statement's id |
| PracticeListening.LayoutFor | frontend-student/src/components/practice/PracticeListeningQuestion.jsx:91-109 | each layout is chosen by exactly its names, and MCQ by anything else |
| PracticeListening.StatementCodeRendersAsMcq | frontend-student/src/components/practice/PracticeListeningQuestion.jsx:101-107 | LISTENING_STATEMENT_MATCHING has no case of its own and renders as MCQ |
| PracticeListeningNew.Next | frontend-student/src/components/practice/PracticeListeningQuestionNew.jsx:41-84 | a question change resets the player; a click with three plays used does nothing, not even pause; otherwise the play count grows by one exactly on a start with the shown time at 0; a start needs a mounted element and fewer than three plays; an ended track stops and rewinds the shown time |
| PracticeListeningNew.PlayCountCountsFreshStarts | frontend-student/src/components/practice/PracticeListeningQuestionNew.jsx:54-67 | between question changes the play count grows by exactly the number of starts from time 0 |
| PracticeListeningNew.PlayCountBounded | frontend-student/src/components/practice/PracticeListeningQuestionNew.jsx:34-55 | whatever the clicks and element events, the play count never passes three |
| PracticeListeningNew.AtMostThreeFreshStarts | frontend-student/src/components/practice/PracticeListeningQuestionNew.jsx:34-67 | so the audio is started from the beginning at most three times per question |
| PracticeListeningNew.ResumeIsFree | frontend-student/src/components/practice/PracticeListeningQuestionNew.jsx:54-79 | unlike the older page, a resume after the time has moved costs no play |
| PracticeListeningNew.PlayAfterEndCounts | frontend-student/src/components/practice/PracticeListeningQuestionNew.jsx:62-84 | the end of the track rewinds the shown time, so the next start takes a play |
| PracticeListeningNew.ListeningPlayer.constructor | frontend-student/src/components/practice/PracticeListeningQuestionNew.jsx:28-31 | the player starts stopped, with no plays, time 0 and length 0 |
| PracticeListeningNew.ListeningPlayer.QuestionChanged | frontend-student/src/components/practice/PracticeListeningQuestionNew.jsx:41-52 | the reset effect is the question-change transition |
| PracticeListeningNew.ListeningPlayer.HandlePlay | frontend-student/src/components/practice/PracticeListeningQuestionNew.jsx:54-67 | `handlePlay` is the click transition, command included |
| PracticeListeningNew.ListeningPlayer.HandleAudioEnd | frontend-student/src/components/practice/PracticeListeningQuestionNew.jsx:81-84 | `handleAudioEnd` is the ended transition |
| PracticeListeningNew.ListeningPlayer.HandleTimeUpdate | frontend-student/src/components/practice/PracticeListeningQuestionNew.jsx:75-79 | `handleTimeUpdate` is the time transition |
| PracticeListeningNew.ListeningPlayer.HandleAudioLoad | frontend-student/src/components/practice/PracticeListeningQuestionNew.jsx:69-73 | `handleAudioLoad` is the metadata transition |
| PracticeListeningNew.FormatTime | frontend-student/src/components/practice/PracticeListeningQuestionNew.jsx:86-90 | a non-negative time is shown as its whole minutes, a colon and the seconds left over padded to two digits |
| PracticeListeningNew.WholeMinutes | frontend-student/src/components/practice/PracticeListeningQuestionNew.jsx:87-88 | for a non-negative time the two floors are the whole minutes and the whole seconds left over |
| PracticeListeningNew.SameClockSameSecond | frontend-student/src/components/practice/PracticeListeningQuestionNew.jsx:86-90 | two non-negative times shown alike fall in the same whole second (see also line 195) |
| PracticeListeningNew.Progress | frontend-student/src/components/practice/PracticeListeningQuestionNew.jsx:190 | no length gives 0; a time within the length gives [0, 100]; the end gives 100 |
| PracticeListeningNew.ProgressMonotone | frontend-student/src/components/practice/PracticeListeningQuestionNew.jsx:190 | the bar only moves forward as the time moves forward |
| PracticeListeningNew.LayoutFor | frontend-student/src/components/practice/PracticeListeningQuestionNew.jsx:93-148 | each view is chosen by exactly its names, and MCQ by anything else |
| PracticeListeningNew.ExamCodesRenderAsMcq | frontend-student/src/components/practice/PracticeListeningQuestionNew.jsx:93-148 | the exam codes LISTENING_MATCHING and LISTENING_STATEMENT_MATCHING reach the MCQ view here, though the older page shows the first as matching |
| SpeakingQuestion.HeaderAt | frontend-student/src/components/exam-taking/SpeakingQuestion.jsx:56-57 | a match of "Câu", white space, digits, a slash and digits at a position captures a non-empty run of digits |
| SpeakingQuestion.FirstHeader | frontend-student/src/components/exam-taking/SpeakingQuestion.jsx:57 | the leftmost match in the content, if any, captures a non-empty run of digits |
| SpeakingQuestion.QuestionNumber | frontend-student/src/components/exam-taking/SpeakingQuestion.jsx:57-58 | the question number is 1 when the question has no content or the content has no "Câu n/m" header |
| SpeakingQuestion.HeaderAtStart | frontend-student/src/components/exam-taking/SpeakingQuestion.jsx:57 | a header written at the start of the content is matched there and captures its number |
| SpeakingQuestion.NumberOfHeader | frontend-student/src/components/exam-taking/SpeakingQuestion.jsx:56-58 | content headed "Câu n/m" has question number n, whatever follows |
| SpeakingQuestion.MaxRecordingTime | frontend-student/src/components/exam-taking/SpeakingQuestion.jsx:60-62 | questions 1, 2 and 3 may be recorded for 30, 60 and 90 seconds, every other number for 120 |
| SpeakingQuestion.LimitsWithin | frontend-student/src/components/exam-taking/SpeakingQuestion.jsx:57-62 | whatever the content, the recording limit is 30, 60, 90 or 120 seconds |
| SpeakingQuestion.Start | frontend-student/src/components/exam-taking/SpeakingQuestion.jsx:131-134 | starting the recorder sets the recorder running with the clock at the limit |
| SpeakingQuestion.Tick | frontend-student/src/components/exam-taking/SpeakingQuestion.jsx:244-265 | each second the counter drops by one; the recorder keeps running exactly while the new time is positive, and the shown time is clamped at zero |
| SpeakingQuestion.CountdownFrom | frontend-student/src/components/exam-taking/SpeakingQuestion.jsx:244-265 | after k seconds a running clock at t shows t - k while k < t, and from then on it is stopped at zero |
| SpeakingQuestion.RecordingLastsItsLimit | frontend-student/src/components/exam-taking/SpeakingQuestion.jsx:244-265 | a recording left alone runs through every second of its limit, stops at the limit and reports the whole limit as its duration (see also lines 131-134, 408) |
| SpeakingQuestion.StopOfferedAfterTenSeconds | frontend-student/src/components/exam-taking/SpeakingQuestion.jsx:436-437 | the stop button is offered exactly from the tenth second of recording on (see also lines 244-265) |
| SpeakingQuestion.Stop | frontend-student/src/components/exam-taking/SpeakingQuestion.jsx:416-427 | confirming the stop stops the recorder and leaves the shown time and the counter as they were |
| SpeakingQuestion.RecordedSecondsWithin | frontend-student/src/components/exam-taking/SpeakingQuestion.jsx:408-437 | a recording stopped through the dialog or at zero uploads between 10 seconds and the limit, so the 30-second fallback never replaces it (see also line 304) |
| SpeakingQuestion.FormatTime | frontend-student/src/components/exam-taking/SpeakingQuestion.jsx:429-433 | the clock shows whole minutes, a colon and the seconds padded to two digits |
| SpeakingQuestion.SameClockSameTime | frontend-student/src/components/exam-taking/SpeakingQuestion.jsx:429-433 | two non-negative times shown alike are equal |
| SpeakingQuestion.UploadDuration | frontend-student/src/components/exam-taking/SpeakingQuestion.jsx:304 | a non-zero duration is sent as given, and the value sent is never zero |
| SpeakingQuestion.CheckUpload | frontend-student/src/components/exam-taking/SpeakingQuestion.jsx:284-304 | the upload proceeds exactly with an attempt id and a blob of 1 KB to 50 MB; the missing attempt is reported first, then an absent or empty blob, then a size out of range, and a request carries the duration with its fallback |
| SpeakingQuestion.Decide | frontend-student/src/components/exam-taking/SpeakingQuestion.jsx:336-390 | a success ends the session; a retry, after 1000 times (count + 1) milliseconds, happens exactly when the count is below three and the request timed out or failed with status 408, 429 or 500 and above (see also line 86) |
| SpeakingQuestion.StaleCountRetriesForever | frontend-student/src/components/exam-taking/SpeakingQuestion.jsx:370-394 | as written, every retry reads the count captured when the session began, so a server failing n times is retried n times, each after one second (see also line 276) |
| SpeakingQuestion.UploadSessionEnds | frontend-student/src/components/exam-taking/SpeakingQuestion.jsx:373-386 | with the count carried from one request to the next, a session from count r waits at most 3 - r times, the i-th wait is 1000 times (r + i + 1) milliseconds, and more than 3 - r outcomes end it (see also line 86) |
| SpeakingQuestion.AtMostFourRequests | frontend-student/src/components/exam-taking/SpeakingQuestion.jsx:373-386 | so a fresh upload ends within four requests and waits at most 1, 2 and 3 seconds between them (see also line 86) |
| SpeakingQuestion.Recorder.constructor | frontend-student/src/components/exam-taking/SpeakingQuestion.jsx:57-85 | a new question page holds the limit of its question number, a stopped clock at that limit and no retries |
| SpeakingQuestion.Recorder.StartRecording | frontend-student/src/components/exam-taking/SpeakingQuestion.jsx:131-134 | starting a recording moves the clock to the state Start gives and keeps the retry count |
| SpeakingQuestion.Recorder.TimerTick | frontend-student/src/components/exam-taking/SpeakingQuestion.jsx:244-265 | a tick moves the clock as Tick does and stops the media recorder exactly when the recording ends |
| SpeakingQuestion.Recorder.ConfirmStop | frontend-student/src/components/exam-taking/SpeakingQuestion.jsx:416-427 | the dialog's confirm moves the clock as Stop does and stops the media recorder exactly when it was recording |
| SpeakingQuestion.Recorder.Settle | frontend-student/src/components/exam-taking/SpeakingQuestion.jsx:338-386 | one request's outcome is decided from the stored count; a success resets the count, a retry raises it by one, anything else leaves it |
| UserForm.FullNameError | frontend-admin-teacher/src/components/admin/users/UserForm.jsx:27-31 | a full name passes exactly with two characters or more; the empty one is reported as required, a one-character one as too short |
| UserForm.EmailError | frontend-admin-teacher/src/components/admin/users/UserForm.jsx:32-35 | an e-mail passes exactly when it is non-empty and an address; the empty one is reported as required |
| UserForm.PasswordError | frontend-admin-teacher/src/components/admin/users/UserForm.jsx:36-38 | a password passes exactly when it is empty or has at least six characters |
| UserForm.RoleError | frontend-admin-teacher/src/components/admin/users/UserForm.jsx:39-41 | a role passes exactly when it is non-empty |
| UserForm.PhoneError | frontend-admin-teacher/src/components/admin/users/UserForm.jsx:42-44 | a phone number passes exactly when every character is a digit, plus, hyphen, white space or parenthesis |
| UserForm.PhoneExamples | frontend-admin-teacher/src/components/admin/users/UserForm.jsx:42-44 | the empty number and "+1 (2)-3" pass, and "09x" does not |
| UserForm.SchemaValidMeans | frontend-admin-teacher/src/components/admin/users/UserForm.jsx:27-45 | the form is valid exactly when the name has two characters, the e-mail is a non-empty address, the password is empty or six characters long, a role is chosen and the phone uses only the allowed characters |
| UserForm.PasswordMismatch | frontend-admin-teacher/src/components/admin/users/UserForm.jsx:121-127 | the mismatch flag is set exactly when both password fields are filled and differ |
| UserForm.EnabledSubmit | frontend-admin-teacher/src/components/admin/users/UserForm.jsx:314 | an enabled save button means a valid form whose password fields agree or have one left empty (see also lines 27-45, 121-127) |
| UserForm.BuildPayload | frontend-admin-teacher/src/components/admin/users/UserForm.jsx:86-93 | the payload is the form's values without the confirmation and the edit flag, and without an empty password when editing |
| UserForm.OnSubmit | frontend-admin-teacher/src/components/admin/users/UserForm.jsx:76-108 | creating without a password is refused with its message; otherwise an edit sends the payload to updateUser with the user's id and a new user to createUser |
| UserForm.PayloadFields | frontend-admin-teacher/src/components/admin/users/UserForm.jsx:86-93 | a payload never carries the confirmation or the edit flag, carries the password exactly when creating or when one was typed, and carries every other field as typed |
| UserForm.CreateWithoutPasswordRefusedOnSubmit | frontend-admin-teacher/src/components/admin/users/UserForm.jsx:80-83 | a new-user form without a password still enables the button; only the submit handler refuses it (see also lines 36-38, 314) |

## Left out

- Text.ToLower: lowers only the ASCII letters A–Z, whereas JavaScript `toLowerCase` lowers all of Unicode. Every case-insensitive comparison in the model (`Scoring.ScoreMCQ`, the gap, matching and statement scorers, `ResultDisplay.GapShownCorrect`) therefore treats "Đúng" and "đúng" as different where the source treats them as equal.
- Json.Num: JSON numbers are whole numbers (ids, positions, orders). Fractional numbers and `NaN` inside parsed answers and question data are not represented. Scores and maximum scores are `real` values outside `Json`.
- UserForm.FullNameError: string lengths and positions count Unicode code points, not the UTF-16 code units JavaScript counts. So `length` differs for characters outside the Basic Multilingual Plane here, in `UserForm.PasswordError` and in every other length the model takes.
- Scoring.AutoScore: `content`, `answer_json`, `text_answer` and the other text fields of questions and answers are strings in the model. A number or object in one of these fields, on which the source would call string methods or throw, is not modelled.
- Scoring.AutoScore: requires a positive `maxScore`. With a zero maximum the source divides by zero and reports `NaN` percentages, and JavaScript floating-point numbers are not modelled.
- Scoring.AutoScoreBounds: the bound `0 <= score <= maxScore` is proved for maximum scores that are whole hundredths. For other maxima, rounding to hundredths can exceed the maximum by less than half a hundredth, and the lemma does not cover them.
- Text.Round: `Math.round` is taken as `floor(x + 1/2)` on exact reals. Binary floating-point rounding of values such as 1.005 is not modelled.
- Scoring.CollectSampleAnswers: an item's sample answers are held as their `answer_text` values. A `null` first sample answer, on which reading `answer_text` throws in the source, is not represented, and neither is that throw. An absent `answer_text` (undefined) is modelled and throws as in the source (`Scoring.UndefinedSampleThrows`).
- ResultDisplay.GapShownCorrect: a non-string answer or reference is shown as incorrect. The source calls `toLowerCase` on it, which throws a TypeError and breaks the page's rendering.
- QuestionFeedback.GradedRows: the result page grades each answer with the pure `Scoring.AutoScore`. The source's `autoScoreQuestion` re-sorts the `question_items` array of the shared question object in place (`Scoring.AutoScoreQuestion` models that method on its own). The aliasing, by which one grading leaves later readers of the same question object with sorted items, is not modelled. Sorting is stable and idempotent (`Sorting.SortByIdempotent`, `Scoring.AutoScoreAfterSort`), so the scores themselves do not depend on it.
- Scoring.CalculateSectionScore: the default `maxSectionScore = 100` applies when a caller omits the argument. The model takes the argument explicitly.
- `JSON.parse` is the `parse` parameter of the scorers and pages that use it (`None` stands for a throw). `JSON.stringify` is not modelled: payloads are kept as `Json` values.
- ExamHelpers.QuestionTypeLabel: the source looks codes up in an object literal, so a code naming a property inherited from `Object.prototype` (such as "toString") finds a function there. The model returns such a code unchanged.
- PracticeReadingNew.Marker: an item whose `item_order` is `null` and one where it is absent are the same in the model (`None`), and both print as "undefined". JavaScript prints the `null` one as "null".
- UserForm.EmailError: yup's e-mail pattern is the `isEmail` parameter. Formik's timing of validation, touched fields and the display of errors is not modelled.
- UserForm.BuildPayload: the payload is a map, so the key order of the object sent to the server is not modelled. The roles list and the status select are constant markup.
- WritingEmail: the list of email `tasks` shown above the answer boxes is display text and is not modelled.
- ExamHelpers: `getSkillIcon` returns icon components and `getFallbackSkills` returns a constant list. Neither is modelled.
- PracticeListening: `PracticeListeningQuestion.jsx` uses components it does not import. The model assumes the page renders. Listening answer item ids are compared as strings.
- The AI feedback blocks, the progress circles, styling and other markup of the pages are not modelled.
- SpeakingQuestion: the microphone, `MediaRecorder`, the HTTP upload, `setTimeout` and `setInterval` are outside the model. Their outcomes enter as the `Outcome` values of a session and as explicit ticks. The preparation countdown, the reset effect run on a question change, the upload progress percentage and the texts of the retry messages are not modelled.
- PracticeListening.ListeningPlayer: the audio element's media events are method calls. Playback itself and the audio URL chosen for the player are not modelled.
- WritingShortAnswer.FormatParseRoundTrip: the round trip is stated field by field (each blank's key gets its value back) rather than as equality of the two objects, whose key order may differ.

## Findings

| source | as written | input that shows it | evidently intended | confidence | as-written member | corrected member |
|---|---|---|---|---|---|---|
| frontend-student/src/utils/scoringUtils.js:466 | the ordering case passes `userAnswer?.order \|\| userAnswer?.ordered_items \|\| userAnswer` to scoreOrdering, which then takes the bare `ordered_items` array as positions and never maps the items to their ids (scoringUtils.js:199-206) | the answer `{"ordered_items":[{"id":1}]}` for a question whose single item has order 1 scores 0 | pass the answer object, so that scoreOrdering maps `ordered_items` to ids and scores full marks | not executed | Scoring.OrderedItemsLostAsWritten, Scoring.OrderedItemsDispatch, Scoring.ScoreOrderingQuestion | Scoring.OrderedItemsScoredCorrected, Scoring.AutoScoreCorrectedBounds, Scoring.AutoScoreCorrectedElsewhere |
| frontend-student/src/components/practice/PracticeReadingQuestionNew.jsx:38-44 | the question type is `question_type_name \|\| type \|\| question_type \|\| question_type?.code \|\| 'READING_MCQ'`, so an object `question_type` wins and its `code` is never read | `question_type = {code: "READING_GAP_FILL"}` with no name or type renders the multiple-choice layout | read `question_type?.code` before the object itself | not executed | PracticeReadingNew.CodeIsNeverRead, PracticeReadingNew.TypeObjectRendersAsMcq, PracticeReadingNew.PageLayout | PracticeReadingNew.QuestionTypeReadsCode, PracticeReadingNew.TypeObjectReachesLayout, PracticeReadingNew.PageLayoutCorrected |
| frontend-student/src/components/exam-taking/ExamHelpers.js:24-33 | the substring tests for MATCHING come before the exact tests for the listening matching codes, so those branches are unreachable | `LISTENING_MATCHING` and `LISTENING_STATEMENT_MATCHING` both get the section "Matching" | "Speaker Matching" and "Statement Matching", the names their labels give | not executed | ExamHelpers.SpeakerMatchingSectionAsWritten, ExamHelpers.StatementMatchingSectionAsWritten, ExamHelpers.MatchingCaughtBySubstrings | ExamHelpers.ListeningSectionsMatchLabels |
| frontend-student/src/components/exam-taking/SpeakingQuestion.jsx:370-389 | each retry calls the `uploadAudioToBackend` closure that read `uploadRetries` when the session began, so the count it reads never grows | a server answering 500 to every request is retried every second without end | at most three retries, after 1, 2 and 3 seconds | not executed | SpeakingQuestion.StaleCountRetriesForever | SpeakingQuestion.UploadSessionEnds, SpeakingQuestion.AtMostFourRequests |

