/**
 * The exam page's helpers (`ExamHelpers.js`): three classifiers of a
 * question type code and two groupers of the attempt's answers.
 * An absent code is the empty string.
 */
module ExamHelpers {
  import opened Wrappers
  import opened Text
  import opened Json
  import opened Grouping

  // ================================================================ classifiers

  /**
   * getSkillFromQuestionType: one of five labels. The READING and GV_*
   * test comes first, so a code naming two skills is filed under Reading.
   */
  function SkillFromQuestionType(code: string): (r: string)
    ensures r in {"Reading", "Listening", "Writing", "Speaking", "Khác"}
    ensures code == "" ==> r == "Khác"
    ensures Contains(code, "READING") ==> r == "Reading"
  {
    if code == "" then "Khác"
    else if Contains(code, "READING") || code == "GV_MCQ" || code == "GV_GAP_FILL" || code == "GV_MATCHING" then "Reading"
    else if Contains(code, "LISTENING") then "Listening"
    else if Contains(code, "WRITING") then "Writing"
    else if Contains(code, "SPEAKING") then "Speaking"
    else "Khác"
  }

  /**
   * getSectionFromQuestionType as written: substring tests first, then
   * exact codes. The exact LISTENING_* tests come after the MCQ and
   * MATCHING substring tests, which already catch those codes.
   */
  function SectionFromQuestionTypeAsWritten(code: string): string {
    if code == "" then "Phần khác"
    else if Contains(code, "GAP_FILL") then "Gap Filling"
    else if Contains(code, "ORDERING") then "Ordering"
    else if Contains(code, "MATCHING_HEADINGS") then "Matching Headings"
    else if Contains(code, "MATCHING") then "Matching"
    else if Contains(code, "MCQ") || Contains(code, "TRUE_FALSE") then "Multiple Choice"
    else if code == "LISTENING_MCQ" then "Multiple Choice"
    else if code == "LISTENING_MATCHING" then "Speaker Matching"
    else if code == "LISTENING_STATEMENT_MATCHING" then "Statement Matching"
    else ExactSection(code)
  }

  /** The writing and speaking codes, compared exactly. */
  function ExactSection(code: string): string {
    if code == "WRITING_SHORT" then "Short Answers"
    else if code == "WRITING_FORM" then "Form Filling"
    else if code == "WRITING_LONG" then "Chat Responses"
    else if code == "WRITING_EMAIL" then "Email Writing"
    else if code == "SPEAKING_INTRO" then "Personal Introduction"
    else if code == "SPEAKING_DESCRIPTION" then "Picture Description"
    else if code == "SPEAKING_COMPARISON" then "Comparison"
    else if code == "SPEAKING_DISCUSSION" then "Topic Discussion"
    else "Phần khác"
  }

  /** The substring tests stop at the first hit, so a MATCHING_HEADINGS code never reaches the MATCHING test. */
  lemma HeadingsBeforeMatching(code: string)
    requires Contains(code, "MATCHING_HEADINGS") && !Contains(code, "GAP_FILL") && !Contains(code, "ORDERING")
    ensures Contains(code, "MATCHING")
    ensures SectionFromQuestionTypeAsWritten(code) == "Matching Headings"
  {
    var i := IndexOf(code, "MATCHING_HEADINGS", 0).value;
    assert code[i..i + 8] == code[i..i + 17][..8];
    ContainsAt(code, "MATCHING", i);
  }

  /**
   * A code containing MATCHING stops at one of the first four substring
   * tests, so the exact LISTENING_MATCHING and LISTENING_STATEMENT_MATCHING
   * branches below them are never reached.
   */
  lemma MatchingCaughtBySubstrings(code: string)
    requires Contains(code, "MATCHING")
    ensures SectionFromQuestionTypeAsWritten(code) in {"Gap Filling", "Ordering", "Matching Headings", "Matching"}
  {
  }

  /** A code containing MCQ never reaches the exact LISTENING_MCQ branch either. */
  lemma McqCaughtBySubstrings(code: string)
    requires Contains(code, "MCQ")
    ensures SectionFromQuestionTypeAsWritten(code) in {"Gap Filling", "Ordering", "Matching Headings", "Matching", "Multiple Choice"}
  {
  }

  /** As written, LISTENING_MATCHING never gets the section name its label promises. */
  lemma SpeakerMatchingSectionAsWritten(code: string)
    requires code == "LISTENING_MATCHING"
    ensures SectionFromQuestionTypeAsWritten(code) != QuestionTypeLabel(code)
  {
    ContainsAt(code, "MATCHING", 10);
    MatchingCaughtBySubstrings(code);
  }

  /** Nor does LISTENING_STATEMENT_MATCHING. */
  lemma StatementMatchingSectionAsWritten(code: string)
    requires code == "LISTENING_STATEMENT_MATCHING"
    ensures SectionFromQuestionTypeAsWritten(code) != QuestionTypeLabel(code)
  {
    ContainsAt(code, "MATCHING", 20);
    MatchingCaughtBySubstrings(code);
  }

  /** The evidently intended classifier: the two exact listening matching codes are tested before the substrings. */
  function SectionFromQuestionType(code: string): string {
    if code == "LISTENING_MATCHING" then "Speaker Matching"
    else if code == "LISTENING_STATEMENT_MATCHING" then "Statement Matching"
    else SectionFromQuestionTypeAsWritten(code)
  }

  /** With the correction, the listening matching sections carry the names getQuestionTypeLabel gives their codes. */
  lemma ListeningSectionsMatchLabels(code: string)
    requires code == "LISTENING_MATCHING" || code == "LISTENING_STATEMENT_MATCHING"
    ensures SectionFromQuestionType(code) == QuestionTypeLabel(code)
  {
  }

  /** The `typeNameMap` of getQuestionTypeLabel. */
  const TypeNames: map<string, string> := map[
    "GV_MCQ" := "Multiple Choice",
    "GV_GAP_FILL" := "Gap Filling",
    "GV_MATCHING" := "Matching",
    "READING_MCQ" := "Multiple Choice",
    "READING_TRUE_FALSE" := "True/False",
    "READING_GAP_FILL" := "Gap Filling",
    "READING_ORDERING" := "Ordering",
    "READING_MATCHING" := "Matching",
    "READING_MATCHING_HEADINGS" := "Matching Headings",
    "LISTENING_MCQ" := "Multiple Choice",
    "LISTENING_MATCHING" := "Speaker Matching",
    "LISTENING_STATEMENT_MATCHING" := "Statement Matching",
    "WRITING_SHORT" := "Short Answers",
    "WRITING_EMAIL" := "Email Writing",
    "WRITING_LONG" := "Chat Responses",
    "WRITING_ESSAY" := "Essay Writing",
    "WRITING_FORM" := "Form Filling",
    "SPEAKING_INTRO" := "Personal Introduction",
    "SPEAKING_DESCRIPTION" := "Picture Description",
    "SPEAKING_COMPARISON" := "Comparison",
    "SPEAKING_DISCUSSION" := "Topic Discussion"]

  /** getQuestionTypeLabel: the mapped label, or the code itself when it has none. */
  function QuestionTypeLabel(code: string): (r: string)
    ensures code in TypeNames ==> r == TypeNames[code] && r != ""
    ensures code !in TypeNames ==> r == code
  {
    if code in TypeNames && TypeNames[code] != "" then TypeNames[code] else code
  }

  /** A label is empty only for the empty code. */
  lemma LabelEmptyIffCodeEmpty(code: string)
    ensures QuestionTypeLabel(code) == "" <==> code == ""
  {
    assert "" !in TypeNames;
  }

  // ================================================================ groupers

  /**
   * An answer of the attempt as the exam page holds it: the skill id under
   * `question.questionType`, the section id, and the two section-name fields
   * (`section.section_name` and `section_name`); absent values are `Undefined`.
   */
  datatype ExamAnswer = ExamAnswer(skillTypeId: Json, sectionId: Json, sectionSectionName: Json, sectionName: Json)

  /** `q.question?.questionType?.skill_type_id || 'unknown'` as a property key. */
  function SkillKey(q: ExamAnswer): string {
    StringOf(Or(q.skillTypeId, Str("unknown")))
  }

  /** `q.section_id || 'general'` as a property key. */
  function SectionKey(q: ExamAnswer): string {
    StringOf(Or(q.sectionId, Str("general")))
  }

  /** `q.section?.section_name || q.section_name || 'General'`. */
  function SectionNameOf(q: ExamAnswer): Json {
    Or(Or(q.sectionSectionName, q.sectionName), Str("General"))
  }

  /** groupQuestionsBySkill: pushes each answer onto the list under its skill key. */
  method GroupQuestionsBySkill(qs: seq<ExamAnswer>) returns (grouped: Groups<ExamAnswer>)
    ensures grouped == GroupBy(qs, SkillKey)
  {
    grouped := [];
    var i := 0;
    while i < |qs|
      invariant i <= |qs| && grouped == GroupBy(qs[..i], SkillKey)
    {
      var k := SkillKey(qs[i]);
      var list := match Lookup(grouped, k) case None => [] case Some(l) => l;
      assert list + [qs[i]] == match Lookup(grouped, k) case None => [qs[i]] case Some(l) => l + [qs[i]];
      grouped := Assign(grouped, k, list + [qs[i]]);
      GroupBySnoc(qs, SkillKey, i);
      i := i + 1;
    }
    assert qs[..i] == qs;
  }

  /** An unknown skill id goes under 'unknown'. */
  lemma MissingSkillIsUnknown(q: ExamAnswer)
    requires !Truthy(q.skillTypeId)
    ensures SkillKey(q) == "unknown"
  {
  }

  datatype SectionGroup = SectionGroup(name: Json, questions: seq<ExamAnswer>)

  /** The `grouped` object of groupQuestionsBySection after the answers qs. */
  function SectionGroups(qs: seq<ExamAnswer>): seq<(string, SectionGroup)> {
    if qs == [] then []
    else
      var g := SectionGroups(qs[..|qs| - 1]);
      var q := qs[|qs| - 1];
      Assign(g, SectionKey(q), NextEntry(g, q))
  }

  /** The entry of `q`'s section once `q` is pushed: a new group named after `q`, or the old one extended. */
  function NextEntry(g: seq<(string, SectionGroup)>, q: ExamAnswer): SectionGroup {
    match Lookup(g, SectionKey(q))
    case None => SectionGroup(SectionNameOf(q), [q])
    case Some(e) => e.(questions := e.questions + [q])
  }

  lemma SectionGroupsSnoc(qs: seq<ExamAnswer>, i: nat)
    requires i < |qs|
    ensures SectionGroups(qs[..i + 1])
      == Assign(SectionGroups(qs[..i]), SectionKey(qs[i]), NextEntry(SectionGroups(qs[..i]), qs[i]))
  {
    assert qs[..i + 1][..i] == qs[..i];
  }

  /**
   * Each section holds its answers in input order and is named after the
   * first of them; a section without answers has no entry.
   */
  lemma {:induction false} SectionGroupsMembers(qs: seq<ExamAnswer>, k: string)
    ensures var m := Members(qs, SectionKey, k);
      Lookup(SectionGroups(qs), k) == if m == [] then None else Some(SectionGroup(SectionNameOf(m[0]), m))
  {
    if qs != [] {
      var init := qs[..|qs| - 1];
      var q := qs[|qs| - 1];
      var g := SectionGroups(init);
      SectionGroupsMembers(init, k);
      SectionGroupsMembers(init, SectionKey(q));
      var e := match Lookup(g, SectionKey(q))
        case None => SectionGroup(SectionNameOf(q), [q])
        case Some(e) => e.(questions := e.questions + [q]);
      LookupAssign(g, SectionKey(q), e, k);
      if k == SectionKey(q) {
        var m := Members(init, SectionKey, k);
        assert Members(qs, SectionKey, k) == m + [q];
        if m == [] {
          assert e == SectionGroup(SectionNameOf(q), [q]);
          assert m + [q] == [q];
        } else {
          assert e == SectionGroup(SectionNameOf(m[0]), m + [q]);
          assert (m + [q])[0] == m[0];
        }
      } else {
        assert Members(qs, SectionKey, k) == Members(init, SectionKey, k);
      }
    }
  }

  /** groupQuestionsBySection: creates `{name, questions: []}` on a section's first answer and pushes every answer. */
  method GroupQuestionsBySection(qs: seq<ExamAnswer>) returns (grouped: seq<(string, SectionGroup)>)
    ensures grouped == SectionGroups(qs)
  {
    grouped := [];
    var i := 0;
    while i < |qs|
      invariant i <= |qs| && grouped == SectionGroups(qs[..i])
    {
      var q := qs[i];
      var k := SectionKey(q);
      var entry: SectionGroup;
      match Lookup(grouped, k) {
        case None => entry := SectionGroup(SectionNameOf(q), [q]);
        case Some(e) => entry := e.(questions := e.questions + [q]);
      }
      assert entry == NextEntry(grouped, q);
      grouped := Assign(grouped, k, entry);
      SectionGroupsSnoc(qs, i);
      i := i + 1;
    }
    assert qs[..i] == qs;
  }
}
