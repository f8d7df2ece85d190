/**
 * The two-email writing task (`WritingEmailQuestion`): the answer kept as
 * one text with a "Friend Email:" and a "Manager Email:" section, the parser
 * that reads the two emails back from a saved text, the per-email edit, and
 * the reader of the task text that pulls the manager's email out of it.
 */
module WritingEmail {
  import opened Wrappers
  import opened Text
  import opened Json

  // ---------------------------------------------------------------- answer text

  datatype Emails = Emails(friendEmail: string, managerEmail: string)

  /** The stored text: `Friend Email:\n${friend}\n\nManager Email:\n${manager}`. */
  function Format(e: Emails): string {
    "Friend Email:\n" + e.friendEmail + "\n\nManager Email:\n" + e.managerEmail
  }

  /**
   * Group 1 of `/Friend Email:\n([\s\S]*?)(?:\n\nManager Email:|$)/`: from the
   * first "Friend Email:\n" up to the first "\n\nManager Email:" after it, or
   * to the end of the text; `None` when there is no match.
   */
  function FriendGroup(t: string): Option<string> {
    match IndexOf(t, "Friend Email:\n", 0)
    case None => None
    case Some(i) =>
      match IndexOf(t, "\n\nManager Email:", i + 14)
      case None => Some(t[i + 14..])
      case Some(j) => Some(t[i + 14..j])
  }

  /** Group 1 of `/Manager Email:\n([\s\S]*?)$/`: everything after the first "Manager Email:\n". */
  function ManagerGroup(t: string): Option<string> {
    match IndexOf(t, "Manager Email:\n", 0)
    case None => None
    case Some(i) => Some(t[i + 15..])
  }

  /** A missing match reads as ''; a match is trimmed. */
  function TrimmedOrEmpty(g: Option<string>): string {
    match g
    case None => ""
    case Some(s) => Trim(s)
  }

  /**
   * The loading effect on a saved `text_answer`: with both headers present
   * the two groups, trimmed; otherwise the whole text, trimmed, is the friend
   * email and the manager email is ''.
   */
  function ParseAnswer(t: string): (r: Emails)
    ensures !Contains(t, "Friend Email:") || !Contains(t, "Manager Email:") ==> r == Emails(Trim(t), "")
  {
    if Contains(t, "Friend Email:") && Contains(t, "Manager Email:") then
      Emails(TrimmedOrEmpty(FriendGroup(t)), TrimmedOrEmpty(ManagerGroup(t)))
    else Emails(Trim(t), "")
  }

  /** The tail of an occurrence is an occurrence of the pattern's tail. */
  lemma OccursTail(s: string, pat: string, p: int, k: nat)
    requires OccursAt(s, pat, p) && k <= |pat|
    ensures OccursAt(s, pat[k..], p + k)
  {
    assert s[p + k..p + |pat|] == s[p..p + |pat|][k..];
  }

  /**
   * A pattern that opens with two line breaks and has no other one cannot
   * start inside `f` in `a + f + b` when `b` opens with two line breaks,
   * unless its remainder occurs in `f`.
   */
  lemma NoPairInside(a: string, f: string, b: string, pat: string, p: int)
    requires |pat| >= 3 && pat[0] == '\n' && pat[1] == '\n' && '\n' !in pat[2..]
    requires |b| >= |pat| && b[0] == '\n' && b[1] == '\n'
    requires !Contains(f, pat[2..])
    requires |a| <= p < |a| + |f|
    ensures !OccursAt(a + f + b, pat, p)
  {
    var s := a + f + b;
    var n := |a| + |f|;
    if p + |pat| <= n {
      if OccursAt(s, pat, p) {
        OccursTail(s, pat, p, 2);
        OccursInMiddle(a, f, b, pat[2..], p + 2);
      }
    } else {
      var q := n - p;
      assert s[n] == '\n' && s[n + 1] == '\n';
      if q == 1 {
        assert pat[2] in pat[2..];
        Mismatch(s, pat, p, 2);
      } else {
        assert pat[q] in pat[2..];
        Mismatch(s, pat, p, q);
      }
    }
  }

  /**
   * A pattern whose only line break is its last character cannot start
   * before the end of `f` plus two in `a + f + b`, when `a` is shorter than it
   * and ends in a line break and `b` opens with two, unless its body occurs in `f`.
   */
  lemma NoHeaderBefore(a: string, f: string, b: string, pat: string, p: int)
    requires 2 <= |pat| && '\n' !in pat[..|pat| - 1]
    requires 0 < |a| < |pat| && a[|a| - 1] == '\n'
    requires |b| >= |pat| && b[0] == '\n' && b[1] == '\n'
    requires !Contains(f, pat[..|pat| - 1])
    requires 0 <= p < |a| + |f| + 2
    ensures !OccursAt(a + f + b, pat, p)
  {
    var s := a + f + b;
    var n := |a| + |f|;
    var body := pat[..|pat| - 1];
    assert s[|a| - 1] == '\n' && s[n] == '\n' && s[n + 1] == '\n';
    if p < |a| {
      assert pat[|a| - 1 - p] in body;
      Mismatch(s, pat, p, |a| - 1 - p);
    } else if p + |pat| - 1 <= n {
      if OccursAt(s, pat, p) {
        assert OccursAt(s, body, p) by {
          assert s[p..p + |body|] == s[p..p + |pat|][..|body|];
        }
        OccursInMiddle(a, f, b, body, p);
      }
    } else if p <= n {
      assert pat[n - p] in body;
      Mismatch(s, pat, p, n - p);
    } else {
      assert pat[0] in body;
      Mismatch(s, pat, p, 0);
    }
  }

  lemma NoPairInsideAll(a: string, f: string, b: string, pat: string)
    requires |pat| >= 3 && pat[0] == '\n' && pat[1] == '\n' && '\n' !in pat[2..]
    requires |b| >= |pat| && b[0] == '\n' && b[1] == '\n'
    requires !Contains(f, pat[2..])
    ensures forall p :: |a| <= p < |a| + |f| ==> !OccursAt(a + f + b, pat, p)
  {
    forall p | |a| <= p < |a| + |f|
      ensures !OccursAt(a + f + b, pat, p)
    {
      NoPairInside(a, f, b, pat, p);
    }
  }

  lemma NoHeaderBeforeAll(a: string, f: string, b: string, pat: string)
    requires 2 <= |pat| && '\n' !in pat[..|pat| - 1]
    requires 0 < |a| < |pat| && a[|a| - 1] == '\n'
    requires |b| >= |pat| && b[0] == '\n' && b[1] == '\n'
    requires !Contains(f, pat[..|pat| - 1])
    ensures forall p :: 0 <= p < |a| + |f| + 2 ==> !OccursAt(a + f + b, pat, p)
  {
    forall p | 0 <= p < |a| + |f| + 2
      ensures !OccursAt(a + f + b, pat, p)
    {
      NoHeaderBefore(a, f, b, pat, p);
    }
  }

  /** A formatted answer carries both headers. */
  lemma FormatHasHeaders(e: Emails)
    ensures Contains(Format(e), "Friend Email:") && Contains(Format(e), "Manager Email:")
  {
    var s := Format(e);
    var n := |e.friendEmail|;
    assert s[..13] == "Friend Email:";
    ContainsAt(s, "Friend Email:", 0);
    assert s[16 + n..30 + n] == "Manager Email:";
    ContainsAt(s, "Manager Email:", 16 + n);
  }

  lemma SliceMiddle(x: string, y: string, z: string)
    ensures (x + y + z)[|x|..|x| + |y|] == y
  {
  }

  lemma SliceOfTail(x: string, y: string, i: nat, j: nat)
    requires i <= j <= |y|
    ensures (x + y)[|x| + i..|x| + j] == y[i..j]
  {
  }

  /** The shape facts about the two patterns that the occurrence lemmas need. */
  lemma PatternFacts()
    ensures var sep := "\n\nManager Email:";
      |sep| == 16 && sep[0] == '\n' && sep[1] == '\n' && '\n' !in sep[2..] && sep[2..] == "Manager Email:"
    ensures var h := "Manager Email:\n";
      |h| == 15 && '\n' !in h[..14] && h[..14] == "Manager Email:"
  {
  }

  /** After `a + f`, a text `b` made of two line breaks, pat and more holds the first occurrence of pat. */
  lemma HeaderFirstAfter(a: string, f: string, b: string, pat: string, from: nat)
    requires 2 <= |pat| && '\n' !in pat[..|pat| - 1]
    requires 0 < |a| < |pat| && a[|a| - 1] == '\n'
    requires |b| >= |pat| + 2 && b[0] == '\n' && b[1] == '\n' && b[2..|pat| + 2] == pat
    requires !Contains(f, pat[..|pat| - 1])
    requires from <= |a|
    ensures IndexOf(a + f + b, pat, from) == Some(|a| + |f| + 2)
  {
    var s := a + f + b;
    NoHeaderBeforeAll(a, f, b, pat);
    SliceOfTail(a + f, b, 2, |pat| + 2);
    FirstOccurrence(s, pat, from, |a| + |f| + 2);
  }

  /** After `a + f`, a text `sep + rest` holds the first occurrence of sep at or after `|a|`. */
  lemma SeparatorFirstAfter(a: string, f: string, sep: string, rest: string)
    requires |sep| >= 3 && sep[0] == '\n' && sep[1] == '\n' && '\n' !in sep[2..]
    requires !Contains(f, sep[2..])
    ensures IndexOf(a + f + (sep + rest), sep, |a|) == Some(|a| + |f|)
  {
    var b := sep + rest;
    var s := a + f + b;
    NoPairInsideAll(a, f, b, sep);
    assert s == (a + f) + sep + rest;
    SliceMiddle(a + f, sep, rest);
    FirstOccurrence(s, sep, |a|, |a| + |f|);
  }

  /** The friend group of a formatted answer is the friend email. */
  lemma FriendGroupOfFormat(e: Emails)
    requires !Contains(e.friendEmail, "Manager Email:")
    ensures FriendGroup(Format(e)) == Some(e.friendEmail)
  {
    var f := e.friendEmail;
    var s := Format(e);
    PatternFacts();
    assert s == "Friend Email:\n" + f + ("\n\nManager Email:" + ("\n" + e.managerEmail));
    assert s[..14] == "Friend Email:\n";
    FirstOccurrence(s, "Friend Email:\n", 0, 0);
    SeparatorFirstAfter("Friend Email:\n", f, "\n\nManager Email:", "\n" + e.managerEmail);
  }

  /** The manager group of a formatted answer is the manager email. */
  lemma ManagerGroupOfFormat(e: Emails)
    requires !Contains(e.friendEmail, "Manager Email:")
    ensures ManagerGroup(Format(e)) == Some(e.managerEmail)
  {
    var f := e.friendEmail;
    var s := Format(e);
    PatternFacts();
    var b := "\n\nManager Email:\n" + e.managerEmail;
    assert s == "Friend Email:\n" + f + b;
    assert b[2..17] == "Manager Email:\n";
    HeaderFirstAfter("Friend Email:\n", f, b, "Manager Email:\n", 0);
    assert s[|f| + 31..] == e.managerEmail;
  }

  /**
   * Reading a formatted answer back gives both emails trimmed, provided the
   * friend email does not itself contain "Manager Email:".
   */
  lemma ParseFormatRoundTrip(e: Emails)
    requires !Contains(e.friendEmail, "Manager Email:")
    ensures ParseAnswer(Format(e)) == Emails(Trim(e.friendEmail), Trim(e.managerEmail))
  {
    FormatHasHeaders(e);
    FriendGroupOfFormat(e);
    ManagerGroupOfFormat(e);
  }

  // ---------------------------------------------------------------- answer state

  datatype EmailKey = FriendKey | ManagerKey

  /** `{ ...answers, [emailKey]: value }` for the two keys the page uses. */
  function SetEmail(e: Emails, key: EmailKey, value: string): Emails {
    match key
    case FriendKey => e.(friendEmail := value)
    case ManagerKey => e.(managerEmail := value)
  }

  /** The other key. */
  function Other(key: EmailKey): EmailKey {
    match key
    case FriendKey => ManagerKey
    case ManagerKey => FriendKey
  }

  function EmailAt(e: Emails, key: EmailKey): string {
    match key
    case FriendKey => e.friendEmail
    case ManagerKey => e.managerEmail
  }

  class EmailAnswers {
    var emails: Emails

    constructor()
      ensures emails == Emails("", "")
    {
      emails := Emails("", "");
    }

    /**
     * The loading effect: `textAnswer` is `answer_data.text_answer` when
     * `answer_data` is an object (`None` otherwise); a non-empty one is
     * parsed, anything else resets both emails.
     */
    method Load(textAnswer: Option<string>)
      modifies this
      ensures textAnswer.Some? && textAnswer.value != "" ==> emails == ParseAnswer(textAnswer.value)
      ensures textAnswer.None? || textAnswer.value == "" ==> emails == Emails("", "")
    {
      if textAnswer.Some? && textAnswer.value != "" {
        emails := ParseAnswer(textAnswer.value);
      } else {
        emails := Emails("", "");
      }
    }

    /** `handleAnswerChange(emailKey, value)`: one email replaced, the formatted text sent. */
    method Change(key: EmailKey, value: string) returns (sent: string)
      modifies this
      ensures emails == SetEmail(old(emails), key, value)
      ensures sent == Format(emails)
    {
      emails := SetEmail(emails, key, value);
      sent := Format(emails);
    }
  }

  /**
   * After an edit, reading the sent text back gives the new value at the
   * edited key and the old value at the other one, both trimmed.
   */
  lemma EditSurvivesReload(e: Emails, key: EmailKey, value: string)
    requires !Contains(SetEmail(e, key, value).friendEmail, "Manager Email:")
    ensures EmailAt(ParseAnswer(Format(SetEmail(e, key, value))), key) == Trim(value)
    ensures EmailAt(ParseAnswer(Format(SetEmail(e, key, value))), Other(key)) == Trim(EmailAt(e, Other(key)))
  {
    ParseFormatRoundTrip(SetEmail(e, key, value));
  }

  /** Text without both headers is read as a friend email only, and reads back the same through the formatter. */
  lemma FallbackIsFriendOnly(t: string)
    requires !Contains(t, "Friend Email:") || !Contains(t, "Manager Email:")
    ensures ParseAnswer(t) == Emails(Trim(t), "")
    ensures !Contains(Trim(t), "Manager Email:") ==> ParseAnswer(Format(ParseAnswer(t))) == Emails(Trim(Trim(t)), "")
  {
    if !Contains(Trim(t), "Manager Email:") {
      ParseFormatRoundTrip(Emails(Trim(t), ""));
    }
  }

  // ---------------------------------------------------------------- task text

  predicate IsFromLine(l: string) { StartsWith(Trim(l), "From:") }
  predicate IsRuleLine(l: string) { StartsWith(Trim(l), "---") }

  /** Index of the first '---' line, or the number of lines. */
  function RuleIndex(lines: seq<string>): (r: nat)
    ensures r <= |lines|
    ensures forall k :: 0 <= k < r ==> !IsRuleLine(lines[k])
    ensures r < |lines| ==> IsRuleLine(lines[r])
  {
    if lines == [] then 0
    else if IsRuleLine(lines[0]) then 0
    else
      var r := RuleIndex(lines[1..]);
      assert forall k :: 1 <= k < |lines| ==> lines[k] == lines[1..][k - 1];
      1 + r
  }

  /** Index of the first 'From:' line among the first n lines. */
  function FirstFrom(lines: seq<string>, n: nat): (r: Option<nat>)
    requires n <= |lines|
    ensures r.Some? ==> r.value < n && IsFromLine(lines[r.value])
    ensures r.Some? ==> forall k :: 0 <= k < r.value ==> !IsFromLine(lines[k])
    ensures r.None? ==> forall k :: 0 <= k < n ==> !IsFromLine(lines[k])
  {
    if n == 0 then None
    else
      match FirstFrom(lines, n - 1)
      case Some(f) => Some(f)
      case None => if IsFromLine(lines[n - 1]) then Some(n - 1) else None
  }

  /** The trimmed lines with index in [lo, hi) that are not 'From:' lines. */
  function Kept(lines: seq<string>, lo: nat, hi: nat): (r: seq<string>)
    requires hi <= |lines|
    ensures |r| <= if lo <= hi then hi - lo else 0
    decreases hi
  {
    if hi <= lo then []
    else Kept(lines, lo, hi - 1) + (if IsFromLine(lines[hi - 1]) then [] else [Trim(lines[hi - 1])])
  }

  /**
   * The manager's email lines: the trimmed lines after the first 'From:'
   * line and before the first '---' line, other 'From:' lines left out; none
   * when no 'From:' line comes before the first '---'.
   */
  function EmailSection(lines: seq<string>): seq<string> {
    var stop := RuleIndex(lines);
    match FirstFrom(lines, stop)
    case None => []
    case Some(f) => Kept(lines, f + 1, stop)
  }

  /** The section scan collected so far, after the first i lines. */
  function SectionSoFar(lines: seq<string>, i: nat): seq<string>
    requires i <= |lines|
  {
    match FirstFrom(lines, i)
    case None => []
    case Some(f) => Kept(lines, f + 1, i)
  }

  /** A 'From:' line is not a '---' line. */
  lemma FromIsNotRule(l: string)
    requires IsFromLine(l)
    ensures !IsRuleLine(l)
  {
    assert Trim(l)[0] == "From:"[0];
  }

  /** One more line of the scan. */
  lemma SectionStep(lines: seq<string>, i: nat)
    requires i < |lines|
    ensures FirstFrom(lines, i + 1).Some? <==> FirstFrom(lines, i).Some? || IsFromLine(lines[i])
    ensures IsFromLine(lines[i]) || FirstFrom(lines, i).None? ==> SectionSoFar(lines, i + 1) == SectionSoFar(lines, i)
    ensures !IsFromLine(lines[i]) && FirstFrom(lines, i).Some? ==>
      SectionSoFar(lines, i + 1) == SectionSoFar(lines, i) + [Trim(lines[i])]
  {
    match FirstFrom(lines, i) {
      case Some(f) =>
        assert FirstFrom(lines, i + 1) == Some(f);
        assert Kept(lines, f + 1, i + 1) == Kept(lines, f + 1, i) + (if IsFromLine(lines[i]) then [] else [Trim(lines[i])]);
      case None =>
        if IsFromLine(lines[i]) {
          assert FirstFrom(lines, i + 1) == Some(i);
        } else {
          assert FirstFrom(lines, i + 1) == None;
        }
    }
  }

  /**
   * The `for` loop over the lines with its `inEmailSection` flag: 'From:'
   * opens the section, '---' ends the scan, and lines in the section are
   * collected trimmed.
   */
  method CollectEmailLines(lines: seq<string>) returns (emailLines: seq<string>)
    ensures emailLines == EmailSection(lines)
  {
    var inEmailSection := false;
    emailLines := [];
    var i := 0;
    while i < |lines|
      invariant i <= RuleIndex(lines)
      invariant inEmailSection <==> FirstFrom(lines, i).Some?
      invariant emailLines == SectionSoFar(lines, i)
    {
      SectionStep(lines, i);
      RuleStep(lines, i);
      var line := Trim(lines[i]);
      if IsFromLine(lines[i]) {
        FromIsNotRule(lines[i]);
        inEmailSection := true;
      } else if IsRuleLine(lines[i]) {
        break;
      } else if inEmailSection {
        emailLines := emailLines + [line];
      }
      i := i + 1;
    }
    SectionEnds(lines, i);
  }

  /** Before the first '---' line, a line that is not one leaves the scan before it. */
  lemma RuleStep(lines: seq<string>, i: nat)
    requires i <= RuleIndex(lines) && i < |lines|
    ensures !IsRuleLine(lines[i]) ==> i + 1 <= RuleIndex(lines)
  {
  }

  /** The scan stops at the first '---' line or at the end, where it has collected the whole section. */
  lemma SectionEnds(lines: seq<string>, i: nat)
    requires i <= RuleIndex(lines) && (i == |lines| || IsRuleLine(lines[i]))
    ensures SectionSoFar(lines, i) == EmailSection(lines)
  {
    assert i == RuleIndex(lines);
  }

  /** Every collected line is a trimmed line lying strictly between the first 'From:' line and the first '---' line, and is not a 'From:' line. */
  lemma {:induction false} KeptFrom(lines: seq<string>, lo: nat, hi: nat, x: string)
    requires hi <= |lines| && x in Kept(lines, lo, hi)
    ensures exists k :: lo <= k < hi && !IsFromLine(lines[k]) && x == Trim(lines[k])
    decreases hi
  {
    if hi > lo {
      if x in Kept(lines, lo, hi - 1) {
        KeptFrom(lines, lo, hi - 1, x);
      } else {
        assert !IsFromLine(lines[hi - 1]) && x == Trim(lines[hi - 1]);
      }
    }
  }

  /** The manager's email lines come from between the opening 'From:' line and the closing '---' line. */
  lemma SectionBetweenMarkers(lines: seq<string>, x: string)
    requires x in EmailSection(lines)
    ensures FirstFrom(lines, RuleIndex(lines)).Some?
    ensures exists k :: (FirstFrom(lines, RuleIndex(lines)).value < k < RuleIndex(lines)
                         && !IsFromLine(lines[k]) && !IsRuleLine(lines[k]) && x == Trim(lines[k]))
  {
    var f := FirstFrom(lines, RuleIndex(lines)).value;
    KeptFrom(lines, f + 1, RuleIndex(lines), x);
  }

  /** Without a 'From:' line before the first '---' line there are no manager's email lines. */
  lemma NoFromNoSection(lines: seq<string>)
    requires forall k :: 0 <= k < RuleIndex(lines) ==> !IsFromLine(lines[k])
    ensures EmailSection(lines) == []
  {
  }

  datatype ManagerEmail = ManagerEmail(subject: string, body: string)

  /** The parsed task: its title and the manager's email to answer. */
  datatype EmailTask = EmailTask(title: string, managerEmail: ManagerEmail)

  /** What `questionData` holds: the task read from text, or the legacy JSON (`None` when it does not parse). */
  datatype QuestionContent = TextTask(task: EmailTask) | JsonContent(value: Option<Json>)

  const DefaultManagerEmail := ManagerEmail("Email", "Please respond to this email.")

  /** `xs.findIndex(p)`, with -1 as `None`. */
  function FirstWhere(xs: seq<string>, p: string -> bool): (r: Option<nat>)
    ensures r.Some? ==> r.value < |xs| && p(xs[r.value])
    ensures r.Some? ==> forall k :: 0 <= k < r.value ==> !p(xs[k])
    ensures r.None? ==> forall k :: 0 <= k < |xs| ==> !p(xs[k])
  {
    if xs == [] then None
    else if p(xs[0]) then Some(0)
    else
      match FirstWhere(xs[1..], p)
      case None => None
      case Some(i) => Some(i + 1)
  }

  predicate IsSubjectLine(l: string) { StartsWith(l, "Subject:") }

  predicate OpensBody(l: string) {
    StartsWith(l, "Dear") || Contains(l, "student") || Contains(l, "applicant")
  }

  /** The first 'Subject:' line without its label, trimmed, or "Email" when there is none or it is empty. */
  function SubjectOf(section: seq<string>): (r: string)
    ensures r != ""
    ensures (forall k :: 0 <= k < |section| ==> !IsSubjectLine(section[k])) ==> r == "Email"
  {
    match FirstWhere(section, IsSubjectLine)
    case None => "Email"
    case Some(i) =>
      var t := Trim(section[i][8..]);
      if t == "" then "Email" else t
  }

  /** The lines from the first greeting-like line on (all of them without one), joined by blank lines. */
  function BodyOf(section: seq<string>): string {
    match FirstWhere(section, OpensBody)
    case None => Join(section, "\n\n")
    case Some(b) => Join(section[b..], "\n\n")
  }

  /** The task read from the non-blank lines of the content. */
  function TaskOf(lines: seq<string>): (r: EmailTask)
    ensures lines == [] ==> r.title == "Email Writing Task"
    ensures lines != [] ==> r.title == lines[0]
    ensures EmailSection(lines) == [] ==> r.managerEmail == DefaultManagerEmail
    ensures r.managerEmail.subject != ""
  {
    var title := if lines != [] then lines[0] else "Email Writing Task";
    var section := EmailSection(lines);
    if section == [] then EmailTask(title, DefaultManagerEmail)
    else EmailTask(title, ManagerEmail(SubjectOf(section), BodyOf(section)))
  }

  /** `questionData`: text that does not open with '{' is read as a task, the rest parsed as JSON. */
  function ContentOf(content: string, parse: Parser): QuestionContent {
    if StartsWith(content, "{") then JsonContent(parse(content))
    else TextTask(TaskOf(NonBlank(Split(content, "\n"))))
  }

  /** The `useMemo` that reads the question content, with the section scan as a loop. */
  method ReadContent(content: string, parse: Parser) returns (r: QuestionContent)
    ensures r == ContentOf(content, parse)
  {
    if StartsWith(content, "{") {
      return JsonContent(parse(content));
    }
    var lines := NonBlank(Split(content, "\n"));
    var title := if lines != [] then lines[0] else "Email Writing Task";
    var emailLines := CollectEmailLines(lines);
    var managerEmail := DefaultManagerEmail;
    if |emailLines| > 0 {
      managerEmail := ManagerEmail(SubjectOf(emailLines), BodyOf(emailLines));
    }
    r := TextTask(EmailTask(title, managerEmail));
  }

  /** The title is the first non-blank line of the content. */
  lemma TitleIsFirstNonBlankLine(content: string)
    requires !StartsWith(content, "{")
    requires NonBlank(Split(content, "\n")) != []
    ensures var t := TaskOf(NonBlank(Split(content, "\n"))).title;
      !Blank(t) && t in Split(content, "\n")
  {
    var lines := NonBlank(Split(content, "\n"));
    assert lines[0] in lines;
    NonBlankKeeps(Split(content, "\n"), lines[0]);
  }
}
