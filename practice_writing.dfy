/**
 * The practice writing question (`PracticeWritingQuestion`): one answer
 * record holding both emails, the essay, the form fields and the short
 * answers, its updaters, the word counter's colour and progress (without the
 * zero guards of the exam page), and the choice of layout by type name.
 */
module PracticeWriting {
  import opened Wrappers
  import opened Text
  import opened Json
  import WritingQuestion

  /** The record loaded from an answer string that is not JSON: the text is both the friend email and the essay. */
  function FallbackAnswers(text: string): Json {
    Obj([("friendEmail", Str(text)), ("managerEmail", Str("")), ("essay", Str(text)),
         ("form", Obj([])), ("shortAnswers", Obj([]))])
  }

  /** The fallback record shows the text in both the friend-email and the essay box. */
  lemma FallbackShowsTextTwice(text: string)
    ensures Get(FallbackAnswers(text), "friendEmail") == Str(text)
    ensures Get(FallbackAnswers(text), "essay") == Str(text)
    ensures Get(FallbackAnswers(text), "managerEmail") == Str("")
  {
    var fs := FallbackAnswers(text).fields;
    assert "managerEmail" != "friendEmail" && "essay" != "friendEmail" && "essay" != "managerEmail" by {
      assert "managerEmail"[0] != "friendEmail"[0] && "essay"[0] != "managerEmail"[0];
      assert |"essay"| != |"friendEmail"|;
    }
    assert Lookup(fs, "managerEmail") == Lookup(fs[1..], "managerEmail") == Some(Str(""));
    assert Lookup(fs, "essay") == Lookup(fs[1..], "essay") == Lookup(fs[1..][1..], "essay") == Some(Str(text));
  }

  /** The initial record: empty emails and essay, no form fields, no short answers. */
  function EmptyAnswers(): Json {
    Obj([("friendEmail", Str("")), ("managerEmail", Str("")), ("essay", Str("")),
         ("form", Obj([])), ("shortAnswers", Obj([]))])
  }

  class PracticeWritingAnswers {
    var answers: Json

    constructor()
      ensures answers == EmptyAnswers()
    {
      answers := EmptyAnswers();
    }

    /**
     * The loading effect: a truthy string answer is parsed, falling back to
     * `FallbackAnswers` when it is not JSON; any other truthy answer is used
     * as it is; a falsy answer leaves the record alone.
     */
    method Load(answer: Json, parse: Parser)
      modifies this
      ensures !Truthy(answer) ==> answers == old(answers)
      ensures Truthy(answer) && answer.Str? ==>
        answers == (match parse(answer.s) case None => FallbackAnswers(answer.s) case Some(v) => v)
      ensures Truthy(answer) && !answer.Str? ==> answers == answer
    {
      if Truthy(answer) {
        if answer.Str? {
          match parse(answer.s) {
            case None => answers := FallbackAnswers(answer.s);
            case Some(v) => answers := v;
          }
        } else {
          answers := answer;
        }
      }
    }

    /** `handleAnswerChange(key, value)`: one top-level key replaced; the new record is sent. */
    method AnswerChange(key: string, value: Json) returns (sent: Json)
      modifies this
      ensures answers == With(old(answers), key, value) && sent == answers
    {
      answers := With(answers, key, value);
      sent := answers;
    }

    /** `handleFormChange(fieldKey, value)`: one field of `form` replaced. */
    method FormChange(fieldKey: string, value: Json) returns (sent: Json)
      modifies this
      ensures answers == NestedWith(old(answers), "form", fieldKey, value) && sent == answers
    {
      var newForm := With(Get(answers, "form"), fieldKey, value);
      answers := With(answers, "form", newForm);
      sent := answers;
    }

    /** `handleShortAnswerChange(itemId, value)`: one entry of `shortAnswers` replaced. */
    method ShortAnswerChange(itemId: string, value: Json) returns (sent: Json)
      modifies this
      ensures answers == NestedWith(old(answers), "shortAnswers", itemId, value) && sent == answers
    {
      var newShortAnswers := With(Get(answers, "shortAnswers"), itemId, value);
      answers := With(answers, "shortAnswers", newShortAnswers);
      sent := answers;
    }
  }

  /** `{ ...v, [outer]: { ...v[outer], [inner]: x } }`. */
  function NestedWith(v: Json, outer: string, inner: string, x: Json): Json {
    With(v, outer, With(Get(v, outer), inner, x))
  }

  /** A nested change sets one inner key, and leaves the other inner keys and the other top-level keys alone. */
  lemma NestedChangeIsLocal(v: Json, outer: string, inner: string, x: Json, k: string)
    ensures Get(Get(NestedWith(v, outer, inner, x), outer), inner) == x
    ensures k != inner ==> Get(Get(NestedWith(v, outer, inner, x), outer), k) == Get(Get(v, outer), k)
    ensures k != outer ==> Get(NestedWith(v, outer, inner, x), k) == Get(v, k)
  {
    var w := With(Get(v, outer), inner, x);
    GetWith(v, outer, w, outer);
    GetWith(v, outer, w, k);
    GetWith(Get(v, outer), inner, x, inner);
    GetWith(Get(v, outer), inner, x, k);
  }

  // ---------------------------------------------------------------- word counter

  /** `getWordCountColor` here: too few, then too many, with no zero guards. */
  function WordCountColor(wordCount: nat, minWords: int, maxWords: int): (r: WritingQuestion.CountColor)
    ensures r == WritingQuestion.ErrorColor <==> wordCount < minWords
    ensures r == WritingQuestion.WarningColor <==> minWords <= wordCount && maxWords < wordCount
  {
    if wordCount < minWords then WritingQuestion.ErrorColor
    else if wordCount > maxWords then WritingQuestion.WarningColor
    else WritingQuestion.SuccessColor
  }

  /** With positive limits both pages colour a count alike. */
  lemma ColoursAgreeWithLimits(wordCount: nat, minWords: int, maxWords: int)
    requires minWords > 0 && maxWords > 0
    ensures WordCountColor(wordCount, minWords, maxWords) == WritingQuestion.WordCountColor(wordCount, minWords, maxWords)
  {
  }

  /** Without a maximum this page warns on any text, where the exam page does not. */
  lemma ColoursDifferWithoutMaximum()
    ensures WordCountColor(5, 0, 0) == WritingQuestion.WarningColor
    ensures WritingQuestion.WordCountColor(5, 0, 0) == WritingQuestion.SuccessColor
  {
  }

  /**
   * `getProgress`: `Math.min(count / max * 100, 100)`; `None` is NaN. A zero
   * maximum gives Infinity (so 100) for a non-zero count and NaN for 0.
   */
  function Progress(wordCount: nat, maxWords: int): (r: Option<real>)
    ensures maxWords > 0 ==> r.Some? && 0.0 <= r.value <= 100.0
    ensures maxWords > 0 ==> r == Some(WritingQuestion.WordCountProgress(wordCount, maxWords))
    ensures maxWords == 0 ==> r == if wordCount == 0 then None else Some(100.0)
  {
    if maxWords == 0 then (if wordCount == 0 then None else Some(100.0))
    else Some(WritingQuestion.MinReal(wordCount as real / maxWords as real * 100.0, 100.0))
  }

  // ---------------------------------------------------------------- layout

  datatype Layout = EmailLayout | EssayLayout | FormLayout | ShortAnswerLayout | ChatLayout

  /** `question_type_name || type || question_type`. */
  function TypeName(questionTypeName: string, typ: string, questionType: string): string {
    if questionTypeName != "" then questionTypeName else if typ != "" then typ else questionType
  }

  /** The `switch` of `renderQuestion`: two aliases per layout, the essay for anything else. */
  function LayoutFor(name: string): (r: Layout)
    ensures r == EmailLayout <==> name == "email" || name == "WRITING_EMAIL"
    ensures r == FormLayout <==> name == "form_filling" || name == "WRITING_FORM_FILLING"
    ensures r == ShortAnswerLayout <==> name == "short_answer" || name == "WRITING_SHORT_ANSWER"
    ensures r == ChatLayout <==> name == "chat" || name == "WRITING_CHAT"
  {
    if name == "email" || name == "WRITING_EMAIL" then EmailLayout
    else if name == "essay" || name == "WRITING_ESSAY" then EssayLayout
    else if name == "form_filling" || name == "WRITING_FORM_FILLING" then FormLayout
    else if name == "short_answer" || name == "WRITING_SHORT_ANSWER" then ShortAnswerLayout
    else if name == "chat" || name == "WRITING_CHAT" then ChatLayout
    else EssayLayout
  }
}
