/**
 * The per-section breakdown of the result page (`QuestionFeedback`): every
 * answer whose question is loaded is scored again with `autoScoreQuestion`
 * and filed under its skill name, and each section keeps running totals.
 */
module QuestionFeedback {
  import opened Wrappers
  import opened Text
  import opened Json
  import opened Grouping
  import opened Scoring

  /**
   * An answer row of the attempt: its question (absent when not loaded), the
   * submitted answer, the two max-score fields (0 when absent) and the two
   * skill names the section name comes from ('' when absent).
   */
  datatype ResultAnswer = ResultAnswer(
    question: Option<Question>, answer: Answer,
    answerMaxScore: MaxScore, questionMaxScore: MaxScore,
    examSkillName: string, questionSkillName: string)

  /** A stored max score: never negative, 0 when the column is empty. */
  type MaxScore = r: real | r >= 0.0

  /** `answer.max_score || question.max_score || 1`. */
  function MaxScoreOf(a: ResultAnswer): (m: real)
    ensures m > 0.0
    ensures m == a.answerMaxScore || m == a.questionMaxScore || m == 1.0
  {
    if a.answerMaxScore != 0.0 then a.answerMaxScore
    else if a.questionMaxScore != 0.0 then a.questionMaxScore
    else 1.0
  }

  /** The exam section's skill name, else the question type's, else 'Other'. */
  function SectionNameOf(a: ResultAnswer): (r: string)
    ensures r != ""
    ensures r == a.examSkillName || r == a.questionSkillName || r == "Other"
    ensures a.examSkillName != "" ==> r == a.examSkillName
  {
    if a.examSkillName != "" then a.examSkillName
    else if a.questionSkillName != "" then a.questionSkillName
    else "Other"
  }

  /** One entry of a section's list: the answer and the score computed for it. */
  datatype Graded = Graded(row: ResultAnswer, calculatedScore: ScoreResult)

  function GradedSection(g: Graded): string { SectionNameOf(g.row) }

  /** The graded entries, in input order, of the rows whose question is loaded. */
  function GradedRows(rs: seq<ResultAnswer>, parse: Parser): (gs: seq<Graded>)
    ensures |gs| <= |rs|
    ensures forall i :: 0 <= i < |gs| ==> gs[i].row.question.Some?
  {
    if rs == [] then []
    else
      var init := GradedRows(rs[..|rs| - 1], parse);
      var a := rs[|rs| - 1];
      match a.question
      case None => init
      case Some(q) => init + [Graded(a, AutoScore(q, a.answer, MaxScoreOf(a), parse))]
  }

  /** Each entry was scored with the max score that the section totals add up. */
  lemma {:induction false} GradedWithOwnMax(rs: seq<ResultAnswer>, parse: Parser, i: nat)
    requires i < |GradedRows(rs, parse)|
    ensures var g := GradedRows(rs, parse)[i];
      g.calculatedScore == AutoScore(g.row.question.value, g.row.answer, MaxScoreOf(g.row), parse)
  {
    var init := GradedRows(rs[..|rs| - 1], parse);
    if i < |init| {
      GradedWithOwnMax(rs[..|rs| - 1], parse, i);
      assert GradedRows(rs, parse)[i] == init[i];
    }
  }

  /** A row without a question is skipped: it adds no entry anywhere. */
  lemma UnloadedQuestionSkipped(rs: seq<ResultAnswer>, a: ResultAnswer, parse: Parser)
    requires a.question.None?
    ensures GradedRows(rs + [a], parse) == GradedRows(rs, parse)
  {
    assert (rs + [a])[..|rs|] == rs;
  }

  /** The entries after one more row. */
  lemma GradedRowsStep(rs: seq<ResultAnswer>, i: nat, parse: Parser)
    requires i < |rs|
    ensures GradedRows(rs[..i + 1], parse) ==
      match rs[i].question
      case None => GradedRows(rs[..i], parse)
      case Some(q) => GradedRows(rs[..i], parse) + [Graded(rs[i], AutoScore(q, rs[i].answer, MaxScoreOf(rs[i]), parse))]
  {
    assert rs[..i + 1][..i] == rs[..i];
  }

  /** `sectionStats[name]`. */
  datatype SectionStats = SectionStats(totalQuestions: nat, totalScore: real, totalMaxScore: real, correctAnswers: nat)

  /** `{ totalQuestions: 0, totalScore: 0, totalMaxScore: 0, correctAnswers: 0 }`. */
  const NoStats := SectionStats(0, 0.0, 0.0, 0)

  /** The four updates the loop makes for one graded entry. */
  function Count(s: SectionStats, g: Graded): SectionStats
  {
    SectionStats(s.totalQuestions + 1, s.totalScore + g.calculatedScore.score,
      s.totalMaxScore + MaxScoreOf(g.row),
      s.correctAnswers + if g.calculatedScore.percentage >= 80.0 then 1 else 0)
  }

  /** The totals of a list of entries. */
  function Totals(gs: seq<Graded>): (s: SectionStats)
    ensures s.totalQuestions == |gs| && s.correctAnswers <= s.totalQuestions
    ensures gs != [] ==> s.totalMaxScore > 0.0
    ensures s.totalMaxScore >= 0.0
  {
    if gs == [] then NoStats else Count(Totals(gs[..|gs| - 1]), gs[|gs| - 1])
  }

  /** The `sectionStats` object after the entries gs. */
  function StatsOf(gs: seq<Graded>): seq<(string, SectionStats)>
  {
    if gs == [] then []
    else
      StatsStep(StatsOf(gs[..|gs| - 1]), gs[|gs| - 1])
  }

  /** `sectionStats[name]` created if missing, then counted once for g. */
  function StatsStep(st: seq<(string, SectionStats)>, g: Graded): seq<(string, SectionStats)> {
    var k := GradedSection(g);
    Assign(st, k, Count(match Lookup(st, k) case None => NoStats case Some(s) => s, g))
  }

  /** A section's statistics are the totals of exactly the entries filed under it. */
  lemma {:induction false} StatsOfMembers(gs: seq<Graded>, k: string)
    ensures var m := Members(gs, GradedSection, k);
      Lookup(StatsOf(gs), k) == if m == [] then None else Some(Totals(m))
  {
    if gs != [] {
      var init := gs[..|gs| - 1];
      var g := gs[|gs| - 1];
      var st := StatsOf(init);
      StatsOfMembers(init, k);
      StatsOfMembers(init, GradedSection(g));
      var s := Count(match Lookup(st, GradedSection(g)) case None => NoStats case Some(s) => s, g);
      LookupAssign(st, GradedSection(g), s, k);
      if k == GradedSection(g) {
        var m := Members(init, GradedSection, k);
        assert Members(gs, GradedSection, k) == m + [g];
        assert (m + [g])[..|m|] == m;
      } else {
        assert Members(gs, GradedSection, k) == Members(init, GradedSection, k);
      }
    }
  }

  /**
   * groupQuestionsBySection: scores each loaded answer with its own max
   * score, pushes it under its section name and updates that section's totals.
   */
  method GroupQuestionsBySection(rs: seq<ResultAnswer>, parse: Parser)
    returns (grouped: Groups<Graded>, sectionStats: seq<(string, SectionStats)>)
    ensures grouped == GroupBy(GradedRows(rs, parse), GradedSection)
    ensures sectionStats == StatsOf(GradedRows(rs, parse))
  {
    grouped := [];
    sectionStats := [];
    var i := 0;
    while i < |rs|
      invariant i <= |rs|
      invariant grouped == GroupBy(GradedRows(rs[..i], parse), GradedSection)
      invariant sectionStats == StatsOf(GradedRows(rs[..i], parse))
    {
      var a := rs[i];
      GradedRowsStep(rs, i, parse);
      if a.question.Some? {
        var g := Graded(a, AutoScore(a.question.value, a.answer, MaxScoreOf(a), parse));
        GradedSnoc(GradedRows(rs[..i], parse), g);
        grouped, sectionStats := Record(grouped, sectionStats, g);
      }
      i := i + 1;
    }
    assert rs[..i] == rs;
  }

  /** One more scored answer is filed under its section and counted in its section's totals. */
  lemma GradedSnoc(gs: seq<Graded>, g: Graded)
    ensures GroupBy(gs + [g], GradedSection) == Push(GroupBy(gs, GradedSection), GradedSection(g), g)
    ensures StatsOf(gs + [g]) == StatsStep(StatsOf(gs), g)
  {
    assert (gs + [g])[..|gs|] == gs && (gs + [g])[|gs|] == g;
    GroupBySnoc(gs + [g], GradedSection, |gs|);
  }

  /** The body of the `forEach`: files one scored answer and updates its section's totals. */
  method Record(grouped: Groups<Graded>, sectionStats: seq<(string, SectionStats)>, g: Graded)
    returns (grouped': Groups<Graded>, sectionStats': seq<(string, SectionStats)>)
    ensures grouped' == Push(grouped, GradedSection(g), g)
    ensures sectionStats' == StatsStep(sectionStats, g)
  {
    var name := SectionNameOf(g.row);
    var maxScore := MaxScoreOf(g.row);
    var questionScore := g.calculatedScore;
    var list: seq<Graded>;
    var stats: SectionStats;
    match Lookup(grouped, name) {
      case None => list := [g];
      case Some(l) => list := l + [g];
    }
    match Lookup(sectionStats, name) {
      case None => stats := NoStats;
      case Some(s) => stats := s;
    }
    ghost var before := stats;
    stats := stats.(totalQuestions := stats.totalQuestions + 1);
    stats := stats.(totalScore := stats.totalScore + questionScore.score);
    stats := stats.(totalMaxScore := stats.totalMaxScore + maxScore);
    if questionScore.percentage >= 80.0 {
      stats := stats.(correctAnswers := stats.correctAnswers + 1);
    }
    assert stats == Count(before, g);
    grouped' := Assign(grouped, name, list);
    sectionStats' := Assign(sectionStats, name, stats);
  }

  /** `Math.round((totalScore / totalMaxScore) * 100)`, or 0 without a max score. */
  function SectionPercentage(s: SectionStats): int {
    if s.totalMaxScore > 0.0 then Round(s.totalScore / s.totalMaxScore * 100.0) else 0
  }

  /** Whether every entry scored within [0, its max score]. */
  predicate ScoresWithinMax(gs: seq<Graded>)
  {
    forall i :: 0 <= i < |gs| ==> 0.0 <= gs[i].calculatedScore.score <= MaxScoreOf(gs[i].row)
  }

  /** The totals then satisfy 0 <= totalScore <= totalMaxScore. */
  lemma {:induction false} TotalsWithinMax(gs: seq<Graded>)
    requires ScoresWithinMax(gs)
    ensures 0.0 <= Totals(gs).totalScore <= Totals(gs).totalMaxScore
  {
    if gs != [] {
      TotalsWithinMax(gs[..|gs| - 1]);
    }
  }

  /** A section percentage of entries scored within their max is between 0 and 100. */
  lemma SectionPercentageBounds(gs: seq<Graded>)
    requires ScoresWithinMax(gs)
    ensures 0 <= SectionPercentage(Totals(gs)) <= 100
  {
    var s := Totals(gs);
    TotalsWithinMax(gs);
    if s.totalMaxScore > 0.0 {
      PercentWithin(s.totalScore, s.totalMaxScore);
    }
  }

  /** With max scores in whole hundredths, every re-scored answer lies within its max score. */
  lemma {:induction false} GradedWithinMax(rs: seq<ResultAnswer>, parse: Parser)
    requires forall i :: 0 <= i < |rs| ==> Hundredths(MaxScoreOf(rs[i]))
    ensures ScoresWithinMax(GradedRows(rs, parse))
  {
    if rs != [] {
      var init := rs[..|rs| - 1];
      var a := rs[|rs| - 1];
      GradedWithinMax(init, parse);
      if a.question.Some? {
        AutoScoreBounds(a.question.value, a.answer, MaxScoreOf(a), parse);
      }
    }
  }

  /**
   * With max scores in whole hundredths, every section's percentage on the
   * result page lies in [0, 100].
   */
  lemma SectionPercentagesWithinRange(rs: seq<ResultAnswer>, parse: Parser, k: string)
    requires forall i :: 0 <= i < |rs| ==> Hundredths(MaxScoreOf(rs[i]))
    requires Lookup(StatsOf(GradedRows(rs, parse)), k).Some?
    ensures 0 <= SectionPercentage(Lookup(StatsOf(GradedRows(rs, parse)), k).value) <= 100
  {
    var gs := GradedRows(rs, parse);
    var m := Members(gs, GradedSection, k);
    StatsOfMembers(gs, k);
    GradedWithinMax(rs, parse);
    MembersFromInput(gs, GradedSection, k);
    forall i | 0 <= i < |m| ensures 0.0 <= m[i].calculatedScore.score <= MaxScoreOf(m[i].row) {
      assert m[i] in gs;
    }
    SectionPercentageBounds(m);
  }
}
