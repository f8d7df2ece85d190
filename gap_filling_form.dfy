/**
 * The teacher's gap-filling editor (`GapFillingForm`): the `[GAPn]` marker
 * count of the passage, the gap check, the field-by-field form check, the
 * option and answer edits, and the question data it emits.
 */
module GapFillingForm {
  import opened Wrappers
  import opened Text

  // ---------------------------------------------------------------- gap markers

  /** Length of the `/\[GAP\d+\]/` match at the start of t, 0 when there is none. */
  function MarkerLen(t: string): (n: nat)
    ensures n <= |t|
    ensures n > 0 ==> n >= 6 && t[0] == '['
    ensures forall j :: 0 < j < n ==> t[j] != '['
  {
    if |t| >= 4 && t[0] == '[' && t[1] == 'G' && t[2] == 'A' && t[3] == 'P' then
      var d := DigitPrefix(t[4..]);
      if d > 0 && 4 + d < |t| && t[4 + d] == ']' then
        assert forall j :: 4 <= j < 4 + d ==> t[j] == t[4..][..d][j - 4];
        5 + d
      else 0
    else 0
  }

  /** `(passage.match(/\[GAP\d+\]/g) || []).length`: a left-to-right scan that resumes after each match. */
  function GapCount(t: string): nat
    decreases |t|
  {
    if t == [] then 0
    else
      var n := MarkerLen(t);
      if n > 0 then 1 + GapCount(t[n..]) else GapCount(t[1..])
  }

  /** The number of positions of t at which a marker starts. */
  function MarkerStarts(t: string): nat
    decreases |t|
  {
    if t == [] then 0 else (if MarkerLen(t) > 0 then 1 else 0) + MarkerStarts(t[1..])
  }

  /** Positions holding no '[' start no marker, so skipping them loses none. */
  lemma {:induction false} SkipMarkerFree(t: string, k: nat, j: nat)
    requires 1 <= k <= j <= |t|
    requires forall i :: k <= i < j ==> t[i] != '['
    ensures MarkerStarts(t[k..]) == MarkerStarts(t[j..])
    decreases j - k
  {
    if k < j {
      var u := t[k..];
      assert u[0] == t[k] && u[1..] == t[k + 1..];
      assert MarkerLen(u) == 0;
      SkipMarkerFree(t, k + 1, j);
    }
  }

  /** Markers cannot overlap, so the scan counts every position where one starts. */
  lemma {:induction false} GapCountCountsMarkers(t: string)
    ensures GapCount(t) == MarkerStarts(t)
    decreases |t|
  {
    if t != [] {
      var n := MarkerLen(t);
      if n > 0 {
        GapCountCountsMarkers(t[n..]);
        SkipMarkerFree(t, 1, n);
      } else {
        GapCountCountsMarkers(t[1..]);
      }
    }
  }

  /** `validateGaps()`. */
  datatype GapValidation = GapValidation(gapCount: nat, expectedGaps: nat, isValid: bool)

  function Min(a: nat, b: nat): nat { if a <= b then a else b }

  function ValidateGaps(passage: string, optionCount: nat, answerCount: nat): (r: GapValidation)
    ensures r.gapCount == MarkerStarts(passage)
    ensures r.isValid <==> 0 < r.gapCount == Min(optionCount, answerCount)
  {
    GapCountCountsMarkers(passage);
    var gapCount := GapCount(passage);
    var expectedGaps := Min(optionCount, answerCount);
    GapValidation(gapCount, expectedGaps, gapCount == expectedGaps && gapCount > 0)
  }

  // ---------------------------------------------------------------- the form check

  datatype PassageError = EmptyPassage | ShortPassage | NoGapMarker
  datatype PromptError = EmptyPrompt | ShortPrompt
  datatype OptionsError = TooFewOptions | DuplicateOptions(words: seq<string>)

  /**
   * The `newErrors` object, one optional entry per field; `gaps` keeps the
   * two counts its message quotes and `correctAnswers` the 1-based gap number.
   */
  datatype FormErrors = FormErrors(
    passage: Option<PassageError>, gaps: Option<(nat, nat)>, prompt: Option<PromptError>,
    options: Option<OptionsError>, correctAnswers: Option<nat>)

  const NoFormErrors := FormErrors(None, None, None, None, None)

  /** `Object.keys(newErrors).length === 0`. */
  predicate NoErrors(e: FormErrors) { e == NoFormErrors }

  /** The passage tests in their order: blank, then shorter than 50, then no `[GAP`. */
  function PassageCheck(p: string): (r: Option<PassageError>)
    ensures r == Some(EmptyPassage) <==> Blank(p)
    ensures r == Some(ShortPassage) <==> !Blank(p) && |p| < 50
    ensures r == Some(NoGapMarker) <==> !Blank(p) && |p| >= 50 && !Contains(p, "[GAP")
  {
    if Blank(p) then Some(EmptyPassage)
    else if |p| < 50 then Some(ShortPassage)
    else if !Contains(p, "[GAP") then Some(NoGapMarker)
    else None
  }

  function PromptCheck(p: string): Option<PromptError> {
    if Blank(p) then Some(EmptyPrompt) else if |p| < 10 then Some(ShortPrompt) else None
  }

  /** `validOptions.filter((opt, i) => validOptions.indexOf(opt) !== i)`: each repeat of an earlier word. */
  function Duplicates(vs: seq<string>): (r: seq<string>)
    ensures |r| <= |vs|
  {
    if vs == [] then []
    else
      var init := vs[..|vs| - 1];
      var x := vs[|vs| - 1];
      Duplicates(init) + (if x in init then [x] else [])
  }

  predicate Distinct(vs: seq<string>) {
    forall i, j :: 0 <= i < j < |vs| ==> vs[i] != vs[j]
  }

  /** No duplicate is reported exactly when the words are pairwise different. */
  lemma {:induction false} DuplicatesEmptyIffDistinct(vs: seq<string>)
    ensures Duplicates(vs) == [] <==> Distinct(vs)
  {
    if vs != [] {
      var init := vs[..|vs| - 1];
      var x := vs[|vs| - 1];
      DuplicatesEmptyIffDistinct(init);
      if Distinct(vs) {
        assert Distinct(init) by {
          forall i, j | 0 <= i < j < |init| ensures init[i] != init[j] { assert init[i] == vs[i] && init[j] == vs[j]; }
        }
        assert x !in init by {
          forall i | 0 <= i < |init| ensures init[i] != x { assert init[i] == vs[i]; }
        }
      }
      if Duplicates(vs) == [] {
        assert Duplicates(init) == [] && x !in init;
        forall i, j | 0 <= i < j < |vs| ensures vs[i] != vs[j] {
          if j < |init| {
            assert vs[i] == init[i] && vs[j] == init[j];
          } else {
            assert vs[i] == init[i];
          }
        }
      }
    }
  }

  /** The options check: a duplicate message overwrites the "fewer than 3" one. */
  function OptionsCheck(options: seq<string>): (r: Option<OptionsError>)
    ensures r.None? <==> |NonBlank(options)| >= 3 && Distinct(NonBlank(options))
  {
    var valid := NonBlank(options);
    var dups := Duplicates(valid);
    DuplicatesEmptyIffDistinct(valid);
    if dups != [] then Some(DuplicateOptions(dups))
    else if |valid| < 3 then Some(TooFewOptions)
    else None
  }

  /** `!correctAnswers[i] || !correctAnswers[i].trim()`: past the end, a hole, or blank. */
  predicate AnswerMissing(ca: seq<Option<string>>, i: nat) {
    i >= |ca| || ca[i].None? || Blank(ca[i].value)
  }

  /** The first gap below gapCount, from i on, whose answer is missing. */
  function FirstMissing(ca: seq<Option<string>>, i: nat, gapCount: nat): (r: Option<nat>)
    ensures r.Some? ==> i <= r.value < gapCount && AnswerMissing(ca, r.value)
    ensures r.Some? ==> forall j :: i <= j < r.value ==> !AnswerMissing(ca, j)
    ensures r.None? ==> forall j :: i <= j < gapCount ==> !AnswerMissing(ca, j)
    decreases gapCount - i
  {
    if i >= gapCount then None
    else if AnswerMissing(ca, i) then Some(i)
    else FirstMissing(ca, i + 1, gapCount)
  }

  /** The error for the gap entry, when the passage tests allow it. */
  function GapsCheck(passage: string, optionCount: nat, answerCount: nat): Option<(nat, nat)> {
    var gv := ValidateGaps(passage, optionCount, answerCount);
    if !gv.isValid && Contains(passage, "[GAP") then Some((gv.gapCount, gv.expectedGaps)) else None
  }

  /** The error object `validateForm` builds. */
  function FormErrorsOf(passage: string, options: seq<string>, ca: seq<Option<string>>, prompt: string): FormErrors {
    FormErrors(
      PassageCheck(passage),
      GapsCheck(passage, |options|, |ca|),
      PromptCheck(prompt),
      OptionsCheck(options),
      match FirstMissing(ca, 0, GapCount(passage)) case None => None case Some(i) => Some(i + 1))
  }

  /** A gap-count mismatch is reported only for a passage that contains `[GAP`. */
  lemma GapsErrorNeedsMarker(passage: string, optionCount: nat, answerCount: nat)
    ensures GapsCheck(passage, optionCount, answerCount).Some?
        <==> Contains(passage, "[GAP") && !ValidateGaps(passage, optionCount, answerCount).isValid
  {
  }

  /**
   * A form that passes has a long enough passage and prompt, as many gaps as
   * min(options, answers) and at least one, a non-blank answer for every gap,
   * and at least three different non-blank options.
   */
  lemma ValidFormIsConsistent(passage: string, options: seq<string>, ca: seq<Option<string>>, prompt: string)
    requires NoErrors(FormErrorsOf(passage, options, ca, prompt))
    ensures |passage| >= 50 && Contains(passage, "[GAP") && |prompt| >= 10
    ensures 0 < MarkerStarts(passage) == Min(|options|, |ca|)
    ensures forall i :: 0 <= i < MarkerStarts(passage) ==> ca[i].Some? && !Blank(ca[i].value)
    ensures |NonBlank(options)| >= 3 && Distinct(NonBlank(options))
  {
    var e := FormErrorsOf(passage, options, ca, prompt);
    assert e.passage == None && e.gaps == None && e.options == None && e.correctAnswers == None;
    assert e.prompt == None;
    GapCountCountsMarkers(passage);
    var n := GapCount(passage);
    assert FirstMissing(ca, 0, n).None?;
    assert n <= |ca|;
    forall i | 0 <= i < n ensures ca[i].Some? && !Blank(ca[i].value) {
      assert !AnswerMissing(ca, i);
    }
  }

  // ---------------------------------------------------------------- emitted data

  /** The question data handed to the parent as JSON. */
  datatype GapQuestion = GapQuestion(passage: string, options: seq<string>, correctAnswers: seq<string>, prompt: string)

  /** `correctAnswers.filter(ans => ans && ans.trim())`: holes and blank answers dropped. */
  function GivenAnswers(ca: seq<Option<string>>): (r: seq<string>)
    ensures |r| <= |ca|
  {
    if ca == [] then []
    else if ca[0].Some? && !Blank(ca[0].value) then [ca[0].value] + GivenAnswers(ca[1..])
    else GivenAnswers(ca[1..])
  }

  /** `passage.trim() || options.some(opt => opt.trim()) || prompt.trim()`. */
  predicate HasContent(passage: string, options: seq<string>, prompt: string) {
    !Blank(passage) || (exists i :: 0 <= i < |options| && !Blank(options[i])) || !Blank(prompt)
  }

  /** What the change effect emits: nothing without content, else the filtered data. */
  function Emitted(passage: string, options: seq<string>, ca: seq<Option<string>>, prompt: string): Option<GapQuestion> {
    if HasContent(passage, options, prompt) then
      Some(GapQuestion(passage, NonBlank(options), GivenAnswers(ca), Trim(prompt)))
    else None
  }

  /** The answer filter keeps exactly the given, non-blank answers. */
  lemma {:induction false} GivenAnswersKeep(ca: seq<Option<string>>, x: string)
    ensures x in GivenAnswers(ca) <==> Some(x) in ca && !Blank(x)
  {
    if ca != [] {
      GivenAnswersKeep(ca[1..], x);
      assert ca == [ca[0]] + ca[1..];
    }
  }

  /** Emitted data holds no blank option or answer, and drops no non-blank one. */
  lemma EmittedIsFiltered(passage: string, options: seq<string>, ca: seq<Option<string>>, prompt: string, x: string)
    requires HasContent(passage, options, prompt)
    ensures var q := Emitted(passage, options, ca, prompt).value;
      (x in q.options <==> x in options && !Blank(x))
      && (x in q.correctAnswers <==> Some(x) in ca && !Blank(x))
  {
    NonBlankKeeps(options, x);
    GivenAnswersKeep(ca, x);
  }

  // ---------------------------------------------------------------- the editor

  /** `list.filter((_, i) => i !== index)`. */
  function Without<T>(s: seq<T>, index: int): (r: seq<T>)
    ensures 0 <= index < |s| ==>
      |r| == |s| - 1 && forall j :: 0 <= j < |r| ==> r[j] == s[if j < index then j else j + 1]
    ensures !(0 <= index < |s|) ==> r == s
  {
    if 0 <= index < |s| then s[..index] + s[index + 1..] else s
  }

  /** The holes of a sparse array, which `filter` skips. */
  function Present(s: seq<Option<string>>): (r: seq<Option<string>>)
    ensures |r| <= |s|
    ensures forall j :: 0 <= j < |r| ==> r[j].Some?
    ensures (forall j :: 0 <= j < |s| ==> s[j].Some?) ==> r == s
  {
    if s == [] then [] else (if s[0].Some? then [s[0]] else []) + Present(s[1..])
  }

  /** `copy[index] = value` on a copy: writing past the end leaves holes before the new entry. */
  function SetAt(s: seq<Option<string>>, index: nat, v: string): (r: seq<Option<string>>)
    ensures |r| == if index < |s| then |s| else index + 1
    ensures r[index] == Some(v)
    ensures forall j :: 0 <= j < |r| && j != index ==> r[j] == if j < |s| then s[j] else None
  {
    if index < |s| then s[index := Some(v)] else s + Holes(index - |s|) + [Some(v)]
  }

  function Holes(n: nat): (r: seq<Option<string>>)
    ensures |r| == n && forall j :: 0 <= j < n ==> r[j] == None
  {
    if n == 0 then [] else [None] + Holes(n - 1)
  }

  const DefaultWords: seq<string> := ["well", "only", "really", "under", "much", "food"]

  class GapFillingEditor {
    var passage: string
    var options: seq<string>
    var correctAnswers: seq<Option<string>>
    var prompt: string
    var errors: FormErrors
    var isValidated: bool

    /** The initial state: an empty passage and the six default words as options and answers. */
    constructor(defaultPrompt: string)
      ensures passage == "" && options == DefaultWords && prompt == defaultPrompt
      ensures correctAnswers == [Some("well"), Some("only"), Some("really"), Some("under"), Some("much"), Some("food")]
      ensures errors == NoFormErrors && !isValidated
    {
      passage := "";
      options := DefaultWords;
      correctAnswers := [Some("well"), Some("only"), Some("really"), Some("under"), Some("much"), Some("food")];
      prompt := defaultPrompt;
      errors := NoFormErrors;
      isValidated := false;
    }

    /** `removeOption(index)`: the same index leaves both lists, unless only one option is left. */
    method RemoveOption(index: int)
      modifies this
      ensures |old(options)| > 1 ==>
        options == Without(old(options), index) && correctAnswers == Present(Without(old(correctAnswers), index))
      ensures |old(options)| <= 1 ==> options == old(options) && correctAnswers == old(correctAnswers)
      ensures passage == old(passage) && prompt == old(prompt)
      ensures errors == old(errors) && isValidated == old(isValidated)
    {
      if |options| > 1 {
        options := Without(options, index);
        correctAnswers := Present(Without(correctAnswers, index));
      }
    }

    /** `handleOptionChange(index, value)`: sets one option and clears the options error. */
    method ChangeOption(index: nat, value: string)
      requires index < |options|
      modifies this
      ensures options == old(options)[index := value]
      ensures errors == old(errors).(options := None)
      ensures passage == old(passage) && prompt == old(prompt)
      ensures correctAnswers == old(correctAnswers) && isValidated == old(isValidated)
    {
      var newOptions := options;
      newOptions := newOptions[index := value];
      options := newOptions;
      if errors.options.Some? {
        errors := errors.(options := None);
      }
    }

    /** `handleCorrectAnswerChange(index, value)`: sets one gap's answer and clears that error. */
    method ChangeCorrectAnswer(index: nat, value: string)
      modifies this
      ensures correctAnswers == SetAt(old(correctAnswers), index, value)
      ensures errors == old(errors).(correctAnswers := None)
      ensures passage == old(passage) && prompt == old(prompt)
      ensures options == old(options) && isValidated == old(isValidated)
    {
      correctAnswers := SetAt(correctAnswers, index, value);
      if errors.correctAnswers.Some? {
        errors := errors.(correctAnswers := None);
      }
    }

    /** `validateForm()`: fills the error object field by field and reports whether it stayed empty. */
    method ValidateForm() returns (isValid: bool)
      modifies this
      ensures errors == FormErrorsOf(passage, options, correctAnswers, prompt)
      ensures isValid <==> NoErrors(errors)
      ensures isValidated == isValid
      ensures passage == old(passage) && options == old(options)
      ensures correctAnswers == old(correctAnswers) && prompt == old(prompt)
    {
      var newErrors := NoFormErrors;
      newErrors := newErrors.(passage := PassageCheck(passage));
      newErrors := newErrors.(gaps := GapsCheck(passage, |options|, |correctAnswers|));
      newErrors := newErrors.(prompt := PromptCheck(prompt));
      newErrors := newErrors.(options := OptionsCheck(options));
      var gapCount := GapCount(passage);
      var i := 0;
      while i < gapCount
        invariant i <= gapCount
        invariant FirstMissing(correctAnswers, 0, gapCount) == FirstMissing(correctAnswers, i, gapCount)
        invariant newErrors.correctAnswers == None
      {
        if AnswerMissing(correctAnswers, i) {
          newErrors := newErrors.(correctAnswers := Some(i + 1));
          break;
        }
        i := i + 1;
      }
      errors := newErrors;
      isValid := NoErrors(newErrors);
      isValidated := isValid;
    }
  }
}
