/**
 * The exam's short-answer writing question (`WritingShortAnswerQuestion`):
 * the answers kept under 1-based keys, the "Answer n: text" text they are
 * stored as and its parser, and the list of questions read from the content.
 */
module WritingShortAnswer {
  import opened Wrappers
  import opened Text
  import opened Json

  /** The answers object, its keys in JavaScript's enumeration order. */
  type Answers = seq<(string, string)>

  // ---------------------------------------------------------------- stored text

  /** One entry of the stored text: `Answer ${key}: ${value}`. */
  function Entry(key: string, value: string): string {
    "Answer " + key + ": " + value
  }

  function EntryLines(m: Answers): seq<string> {
    seq(|m|, i requires 0 <= i < |m| => Entry(m[i].0, m[i].1))
  }

  /** `Object.entries(answers).map(...).join('\n\n')`. */
  function Format(m: Answers): string {
    Join(EntryLines(m), "\n\n")
  }

  /**
   * `part.match(/^Answer (\d+):\s*(.*)$/s)`: the digits after "Answer " and,
   * after the colon, the rest with its leading white space skipped.
   */
  function ParsePart(part: string): (r: Option<(string, string)>)
    ensures r.Some? ==> |r.value.0| >= 1 && AllDigits(r.value.0)
    ensures r.Some? ==> r.value.1 == [] || !IsSpace(r.value.1[0])
    ensures r.Some? ==> |part| > |r.value.0| + 7 && part[..7] == "Answer " && part[7..7 + |r.value.0|] == r.value.0
  {
    if |part| >= 7 && part[..7] == "Answer " then
      var rest := part[7..];
      var d := DigitPrefix(rest);
      if 0 < d < |rest| && rest[d] == ':' then
        TrimStartShape(rest[d + 1..]);
        Some((rest[..d], TrimStart(rest[d + 1..])))
      else None
    else None
  }

  /** The `forEach` over the parts: each matching part assigns its key in turn. */
  function ParseParts(parts: seq<string>): Answers {
    if parts == [] then []
    else
      var acc := ParseParts(parts[..|parts| - 1]);
      match ParsePart(parts[|parts| - 1])
      case None => acc
      case Some((k, v)) => Assign(acc, k, v)
  }

  /** The answers read back from a stored text: `text_answer.split('\n\n')`, part by part. */
  function ParseAnswerText(t: string): Answers {
    ParseParts(Split(t, "\n\n"))
  }

  /** The loading loop of the page, proved to compute `ParseAnswerText`. */
  method ReadAnswers(textAnswer: string) returns (parsed: Answers)
    ensures parsed == ParseAnswerText(textAnswer)
  {
    var parts := Split(textAnswer, "\n\n");
    parsed := [];
    for i := 0 to |parts|
      invariant parsed == ParseParts(parts[..i])
    {
      assert parts[..i + 1][..i] == parts[..i];
      match ParsePart(parts[i]) {
        case None =>
        case Some((k, v)) => parsed := Assign(parsed, k, v);
      }
    }
    assert parts[..|parts|] == parts;
  }

  /** Every key read back is a run of digits, and no key is read twice. */
  lemma {:induction false} ParsedAnswersWellKeyed(parts: seq<string>)
    ensures DistinctKeys(ParseParts(parts))
    ensures forall e :: e in ParseParts(parts) ==> |e.0| >= 1 && AllDigits(e.0)
  {
    if parts != [] {
      var init := parts[..|parts| - 1];
      ParsedAnswersWellKeyed(init);
      match ParsePart(parts[|parts| - 1]) {
        case None =>
        case Some((k, v)) => AssignKeepsKeysDistinct(ParseParts(init), k, v);
      }
    }
  }

  /**
   * A value the stored text carries unchanged: no blank line inside, no
   * leading white space (the parser skips it) and no final line break (it
   * would shift the following split by one character).
   */
  predicate Storable(v: string) {
    !Contains(v, "\n\n") && (v == [] || (!IsSpace(v[0]) && v[|v| - 1] != '\n'))
  }

  predicate ValidEntry(e: (string, string)) {
    |e.0| >= 1 && AllDigits(e.0) && Storable(e.1)
  }

  /** Answers whose stored text reads back as the same answers. */
  predicate WellFormed(m: Answers) {
    DistinctKeys(m) && forall i :: 0 <= i < |m| ==> ValidEntry(m[i])
  }

  /** A part with no blank line inside that does not end in a line break. */
  predicate Separate(p: string, sep: string) {
    !Contains(p, sep) && (p == [] || p[|p| - 1] != sep[0])
  }

  /** Splitting joined parts on a two-character separator gives the parts back. */
  lemma {:induction false} SplitJoin(parts: seq<string>, sep: string)
    requires |parts| >= 1 && |sep| == 2
    requires forall i :: 0 <= i < |parts| ==> Separate(parts[i], sep)
    ensures Split(Join(parts, sep), sep) == parts
  {
    var p0 := parts[0];
    if |parts| == 1 {
      assert Join(parts, sep) == p0;
    } else {
      var rest := Join(parts[1..], sep);
      var s := p0 + sep + rest;
      assert Join(parts, sep) == s;
      assert s[|p0|..|p0| + 2] == sep;
      forall p | 0 <= p < |p0|
        ensures !OccursAt(s, sep, p)
      {
        if p + 2 <= |p0| {
          if OccursAt(s, sep, p) {
            assert s == [] + p0 + (sep + rest);
            OccursInMiddle([], p0, sep + rest, sep, p);
          }
        } else {
          assert s[p] == p0[|p0| - 1];
          Mismatch(s, sep, p, 0);
        }
      }
      FirstOccurrence(s, sep, 0, |p0|);
      assert s[..|p0|] == p0;
      assert s[|p0| + 2..] == rest;
      SplitJoin(parts[1..], sep);
    }
  }

  /** The text of an entry holds no blank line and ends as its value does. */
  lemma EntrySeparate(k: string, v: string)
    requires ValidEntry((k, v))
    ensures Separate(Entry(k, v), "\n\n")
  {
    var pre := "Answer " + k + ": ";
    var s := Entry(k, v);
    assert s == pre + v + [];
    assert forall i :: 0 <= i < |pre| ==> pre[i] != '\n';
    forall p | 0 <= p
      ensures !OccursAt(s, "\n\n", p)
    {
      if p >= |pre| {
        if OccursAt(s, "\n\n", p) {
          OccursInMiddle(pre, v, [], "\n\n", p);
        }
      } else if p + 1 < |s| {
        Mismatch(s, "\n\n", p, 0);
      }
    }
  }

  /** After "Answer ", the key's digits run up to the colon, and a blank and the value follow it. */
  lemma KeyThenColon(k: string, v: string)
    requires |k| >= 1 && AllDigits(k)
    ensures var rest := k + ": " + v;
      && DigitPrefix(rest) == |k| && |k| < |rest| && rest[|k|] == ':'
      && rest[..|k|] == k && rest[|k| + 1..] == " " + v
  {
    var rest := k + ": " + v;
    assert rest == k + (": " + v);
    DigitPrefixStops(k, ": " + v);
    assert rest[|k| + 1..] == " " + v;
  }

  /** The parser reads an entry back as its key and value. */
  lemma ParseEntry(k: string, v: string)
    requires ValidEntry((k, v))
    ensures ParsePart(Entry(k, v)) == Some((k, v))
  {
    var part := Entry(k, v);
    var rest := k + ": " + v;
    assert part == "Answer " + rest;
    assert part[..7] == "Answer " && part[7..] == rest;
    KeyThenColon(k, v);
    assert TrimStart(" " + v) == TrimStart(v) == v;
    assert ParsePart(part) == Some((rest[..|k|], TrimStart(rest[|k| + 1..])));
  }

  /** Reading the entry lines of answers back assigns the last entry after all the others. */
  lemma ParseLastEntry(m: Answers)
    requires m != [] && ValidEntry(m[|m| - 1])
    ensures ParseParts(EntryLines(m)) == Assign(ParseParts(EntryLines(m[..|m| - 1])), m[|m| - 1].0, m[|m| - 1].1)
  {
    assert EntryLines(m)[..|m| - 1] == EntryLines(m[..|m| - 1]);
    ParseEntry(m[|m| - 1].0, m[|m| - 1].1);
  }

  /** With distinct keys the last entry is the only one for its key. */
  lemma LookupLastEntry(m: Answers, key: string)
    requires m != [] && DistinctKeys(m)
    ensures Lookup(m, key) == if key == m[|m| - 1].0 then Some(m[|m| - 1].1) else Lookup(m[..|m| - 1], key)
  {
    var init := m[..|m| - 1];
    assert m == init + [m[|m| - 1]];
    assert Lookup(init, m[|m| - 1].0).None?;
    LookupAppend(init, m[|m| - 1].0, m[|m| - 1].1, key);
  }

  lemma {:induction false} ParseEntryLines(m: Answers, key: string)
    requires WellFormed(m)
    ensures Lookup(ParseParts(EntryLines(m)), key) == Lookup(m, key)
    decreases |m|
  {
    if m != [] {
      var init := m[..|m| - 1];
      ParseLastEntry(m);
      ParseEntryLines(init, key);
      LookupAssign(ParseParts(EntryLines(init)), m[|m| - 1].0, m[|m| - 1].1, key);
      LookupLastEntry(m, key);
    }
  }

  /** Storing well-formed answers and reading them back gives every key its answer. */
  lemma FormatParseRoundTrip(m: Answers, key: string)
    requires WellFormed(m)
    ensures Lookup(ParseAnswerText(Format(m)), key) == Lookup(m, key)
  {
    if m == [] {
      assert Format(m) == "";
      assert Split("", "\n\n") == [""];
    } else {
      var lines := EntryLines(m);
      forall i | 0 <= i < |lines|
        ensures Separate(lines[i], "\n\n")
      {
        EntrySeparate(m[i].0, m[i].1);
      }
      SplitJoin(lines, "\n\n");
      ParseEntryLines(m, key);
    }
  }

  // ---------------------------------------------------------------- answer state

  /** The key of the answer to message `index` (0-based): `index + 1`. */
  function KeyOf(index: nat): string {
    NatToString(index + 1)
  }

  /** The box under message `index` shows `answers[index + 1] || ''`. */
  function Shown(m: Answers, index: nat): string {
    match Lookup(m, KeyOf(index))
    case None => ""
    case Some(v) => v
  }

  class ShortAnswers {
    var answers: Answers

    constructor()
      ensures answers == []
    {
      answers := [];
    }

    /**
     * The loading effect, given `answer_data.text_answer` (`None` when the
     * saved answer is not an object or has none): a non-empty text is parsed,
     * anything else gives no answers.
     */
    method Load(textAnswer: Option<string>)
      modifies this
      ensures textAnswer.Some? && textAnswer.value != "" ==> answers == ParseAnswerText(textAnswer.value)
      ensures textAnswer.None? || textAnswer.value == "" ==> answers == []
    {
      if textAnswer.Some? && textAnswer.value != "" {
        answers := ReadAnswers(textAnswer.value);
      } else {
        answers := [];
      }
    }

    /** `handleAnswerChange(index, value)`: key `index + 1` set, all answers stored as text. */
    method Change(index: nat, value: string) returns (sent: string)
      modifies this
      ensures answers == Assign(old(answers), KeyOf(index), value)
      ensures sent == Format(answers)
    {
      answers := Assign(answers, KeyOf(index), value);
      sent := Format(answers);
    }
  }

  /** An edit shows in its own box and in no other. */
  lemma ChangeIsLocal(m: Answers, index: nat, value: string, other: nat)
    ensures Shown(Assign(m, KeyOf(index), value), index) == value
    ensures other != index ==> Shown(Assign(m, KeyOf(index), value), other) == Shown(m, other)
  {
    LookupAssign(m, KeyOf(index), value, KeyOf(index));
    LookupAssign(m, KeyOf(index), value, KeyOf(other));
    if KeyOf(other) == KeyOf(index) {
      NatToStringInjective(index + 1, other + 1);
    }
  }

  /** The text sent after an edit of well-formed answers reloads as the edited answers. */
  lemma EditSurvivesReload(m: Answers, index: nat, value: string, key: string)
    requires WellFormed(m) && Storable(value)
    ensures var edited := Assign(m, KeyOf(index), value);
      Lookup(ParseAnswerText(Format(edited)), key) == Lookup(edited, key)
    ensures Shown(ParseAnswerText(Format(Assign(m, KeyOf(index), value))), index) == value
  {
    var edited := Assign(m, KeyOf(index), value);
    AssignKeepsKeysDistinct(m, KeyOf(index), value);
    forall i | 0 <= i < |edited|
      ensures ValidEntry(edited[i])
    {
      assert edited[i] in edited;
    }
    FormatParseRoundTrip(edited, key);
    FormatParseRoundTrip(edited, KeyOf(index));
    LookupAssign(m, KeyOf(index), value, KeyOf(index));
  }

  // ---------------------------------------------------------------- questions

  predicate IsColon(c: char) { c == ':' }
  predicate IsUnderscore(c: char) { c == '_' }

  /**
   * `content.match(/([^:]+):\s*_+/g)`, each match given by its text before
   * the colon: the run of non-colons up to a colon that is followed by white
   * space and at least one underscore; the scan goes on after the
   * underscores, or after the colon when it is not followed by a blank.
   */
  function FieldMatches(s: string): (r: seq<string>)
    ensures forall m <- r :: m != [] && ':' !in m
    decreases |s|
  {
    var c := Run(s, IsColon);
    if c == |s| then []
    else
      var after := s[c + 1..];
      var w := SepRun(after, IsSpace);
      var u := SepRun(after[w..], IsUnderscore);
      if c > 0 && u > 0 then
        var field := s[..c];
        assert ':' !in field by {
          assert forall i :: 0 <= i < c ==> field[i] == s[i];
        }
        [field] + FieldMatches(after[w + u..])
      else FieldMatches(after)
  }

  function Underscores(n: nat): string {
    seq(n, _ => '_')
  }

  /** Each `field: ___` line gives one match, the field's own text, and the scan goes on after the blank. */
  lemma OneFieldPerBlank(f: string, n: nat, rest: string)
    requires f != [] && ':' !in f && n >= 1
    requires rest == [] || rest[0] != '_'
    ensures FieldMatches(f + ": " + Underscores(n) + rest) == [f] + FieldMatches(rest)
  {
    var s := f + ": " + Underscores(n) + rest;
    var after := " " + (Underscores(n) + rest);
    ColonAfterField(f, after);
    assert s == f + [':'] + after;
    BlankAfterColon(n, rest);
    assert after[1..][n..] == after[1 + n..];
    assert FieldMatches(s) == [s[..|f|]] + FieldMatches(after[1 + n..]);
  }

  lemma ColonAfterField(f: string, after: string)
    requires ':' !in f
    ensures Run(f + [':'] + after, IsColon) == |f|
    ensures (f + [':'] + after)[..|f|] == f && (f + [':'] + after)[|f| + 1..] == after
  {
    var s := f + [':'] + after;
    assert s[|f|] == ':';
    assert forall i :: 0 <= i < |f| ==> s[i] == f[i];
  }

  lemma BlankAfterColon(n: nat, rest: string)
    requires n >= 1 && (rest == [] || rest[0] != '_')
    ensures var after := " " + (Underscores(n) + rest);
      SepRun(after, IsSpace) == 1 && SepRun(after[1..], IsUnderscore) == n && after[1..][n..] == rest
  {
    var after := " " + (Underscores(n) + rest);
    assert after[1] == '_';
    assert SepRun(after, IsSpace) == 1;
    var tail := after[1..];
    assert tail == Underscores(n) + rest;
    assert forall i :: 0 <= i < n ==> tail[i] == '_';
    assert rest != [] ==> tail[n] == rest[0];
    assert SepRun(tail, IsUnderscore) == n;
  }

  /** Text with no colon has no field. */
  lemma NoColonNoField(s: string)
    requires ':' !in s
    ensures FieldMatches(s) == []
  {
    assert Run(s, IsColon) == |s|;
  }

  /** `What is your ${field.trim().toLowerCase()}?`. */
  function FieldQuestion(field: string): string {
    "What is your " + ToLower(Trim(field)) + "?"
  }

  function DefaultFieldQuestions(): seq<string> {
    ["What is your first name?", "What is your last name?", "What is your phone number?",
     "What is your address?", "What is your country?"]
  }

  const DefaultTitle := "Short Answer Questions"
  const Prompt := "Please provide your answer:"

  /** A form-completion task: a seven-underscore blank or the registration heading. */
  predicate FormLike(content: string) {
    Contains(content, "_______") || Contains(content, "Complete the registration")
  }

  predicate IsQuestionLine(l: string) { EndsWith(Trim(l), "?") }

  /** `lines.filter(line => line.trim().endsWith('?'))`. */
  function QuestionLines(lines: seq<string>): seq<string> {
    if lines == [] then []
    else (if IsQuestionLine(lines[0]) then [lines[0]] else []) + QuestionLines(lines[1..])
  }

  /** The filter keeps exactly the lines that end in a question mark. */
  lemma {:induction false} QuestionLinesKeep(lines: seq<string>, x: string)
    ensures x in QuestionLines(lines) <==> x in lines && IsQuestionLine(x)
  {
    if lines != [] {
      QuestionLinesKeep(lines[1..], x);
      assert lines == [lines[0]] + lines[1..];
    }
  }

  /** The messages of a text content, before the final fallback. */
  function RawMessages(content: string): seq<string> {
    if FormLike(content) then
      var fields := FieldMatches(content);
      if fields == [] then DefaultFieldQuestions()
      else seq(|fields|, i requires 0 <= i < |fields| => FieldQuestion(fields[i]))
    else QuestionLines(NonBlank(Split(content, "\n")))
  }

  /** The messages shown: one per blank of a form (five standard ones when none is found), else the question lines, else the prompt. */
  function Messages(content: string): (r: seq<string>)
    ensures |r| >= 1
    ensures FormLike(content) && FieldMatches(content) == [] ==> r == DefaultFieldQuestions()
    ensures FormLike(content) && FieldMatches(content) != [] ==>
      |r| == |FieldMatches(content)| && forall i :: 0 <= i < |r| ==> r[i] == FieldQuestion(FieldMatches(content)[i])
    ensures !FormLike(content) ==>
      (forall x :: x in r ==> x == Prompt || (x in Split(content, "\n") && !Blank(x) && IsQuestionLine(x)))
    ensures !FormLike(content) && QuestionLines(NonBlank(Split(content, "\n"))) == [] ==> r == [Prompt]
  {
    var raw := RawMessages(content);
    QuestionLinesOfText(content);
    if raw != [] then raw else [Prompt]
  }

  lemma QuestionLinesOfText(content: string)
    ensures !FormLike(content) ==>
      forall x :: x in RawMessages(content) ==> x in Split(content, "\n") && !Blank(x) && IsQuestionLine(x)
  {
    if !FormLike(content) {
      forall x | x in RawMessages(content)
        ensures x in Split(content, "\n") && !Blank(x) && IsQuestionLine(x)
      {
        QuestionLinesKeep(NonBlank(Split(content, "\n")), x);
        NonBlankKeeps(Split(content, "\n"), x);
      }
    }
  }

  /** What the page renders from: a title and messages for text content, else the parsed JSON (`None` when it does not parse). */
  datatype Content = TextContent(title: string, messages: seq<string>) | JsonContent(parsed: Option<Json>)

  /** The `questionData` memo for string content. */
  function ContentOf(content: string, parse: Parser): (r: Content)
    ensures r.TextContent? <==> !StartsWith(content, "{")
    ensures r.TextContent? ==> r.title != [] && |r.messages| >= 1
    ensures r.TextContent? ==> r.title == DefaultTitle || r.title in Split(content, "\n")
  {
    if !StartsWith(content, "{") then
      var lines := NonBlank(Split(content, "\n"));
      var title := if lines != [] then lines[0] else DefaultTitle;
      FirstLineIsText(content);
      TextContent(title, Messages(content))
    else JsonContent(parse(content))
  }

  /** The first non-blank line is a non-empty line of the content. */
  lemma FirstLineIsText(content: string)
    ensures var lines := NonBlank(Split(content, "\n"));
      lines != [] ==> lines[0] != [] && lines[0] in Split(content, "\n")
  {
    var lines := NonBlank(Split(content, "\n"));
    if lines != [] {
      NonBlankKeeps(Split(content, "\n"), lines[0]);
    }
  }
}
