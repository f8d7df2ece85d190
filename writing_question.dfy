/**
 * The exam's writing question (`WritingQuestion`): the layout chosen from the
 * shape of the question content, the word counter with its colour and
 * progress bar, and the answer state loaded from a saved answer and updated
 * on each edit.
 */
module WritingQuestion {
  import opened Wrappers
  import opened Text
  import opened Json

  /**
   * The parsed content: `JSON.parse(content)` for a string (`{}` when it
   * throws), otherwise `content || {}`.
   */
  function QuestionData(content: Json, parse: Parser): Json {
    match content
    case Str(s) => (match parse(s) case None => Obj([]) case Some(v) => v)
    case _ => Or(content, Obj([]))
  }

  datatype WritingType = ShortAnswer | Chat | FormFilling | Email | General

  /** `questionData.messages` is a non-empty-or-empty array (truthy and `Array.isArray`). */
  predicate HasMessages(qd: Json) {
    Truthy(Get(qd, "messages")) && Get(qd, "messages").Arr?
  }

  /** `getWritingQuestionType`: the shape tests in their order, 'general' when none holds. */
  function WritingTypeOf(qd: Json): (r: WritingType)
    ensures r == ShortAnswer <==> HasMessages(qd) && At(Get(qd, "messages"), 0).Str?
    ensures r == Chat <==>
      (HasMessages(qd) && !At(Get(qd, "messages"), 0).Str?
       && Truthy(Get(At(Get(qd, "messages"), 0), "person")) && Truthy(Get(At(Get(qd, "messages"), 0), "message")))
    ensures r == General ==>
      (!(Truthy(Get(qd, "question")) && Truthy(Get(qd, "placeholder")))
       && !(Truthy(Get(qd, "managerEmail")) && Truthy(Get(qd, "tasks"))))
  {
    var first := At(Get(qd, "messages"), 0);
    if HasMessages(qd) && first.Str? then ShortAnswer
    else if HasMessages(qd) && Truthy(Get(first, "person")) && Truthy(Get(first, "message")) then Chat
    else if Truthy(Get(qd, "question")) && Truthy(Get(qd, "placeholder")) then FormFilling
    else if Truthy(Get(qd, "managerEmail")) && Truthy(Get(qd, "tasks")) then Email
    else General
  }

  /** A form with both `question` and `placeholder` that has no message list is a form-filling task. */
  lemma FormFillingWithoutMessages(qd: Json)
    requires !HasMessages(qd)
    requires Truthy(Get(qd, "question")) && Truthy(Get(qd, "placeholder"))
    ensures WritingTypeOf(qd) == FormFilling
  {
  }

  // ---------------------------------------------------------------- word counter

  datatype CountColor = ErrorColor | WarningColor | SuccessColor

  /** `getWordCountColor`: too few (only with a positive minimum) before too many (only with a positive maximum). */
  function WordCountColor(wordCount: nat, minWords: int, maxWords: int): (r: CountColor)
    ensures r == ErrorColor <==> minWords > 0 && wordCount < minWords
    ensures r == WarningColor <==> !(minWords > 0 && wordCount < minWords) && maxWords > 0 && wordCount > maxWords
  {
    if minWords > 0 && wordCount < minWords then ErrorColor
    else if maxWords > 0 && wordCount > maxWords then WarningColor
    else SuccessColor
  }

  /** Without limits every count is shown as fine. */
  lemma NoLimitsAlwaysSuccess(wordCount: nat, minWords: int, maxWords: int)
    requires minWords <= 0 && maxWords <= 0
    ensures WordCountColor(wordCount, minWords, maxWords) == SuccessColor
  {
  }

  function MinReal(a: real, b: real): real { if a <= b then a else b }

  /** `getWordCountProgress`: `Math.min(count / max * 100, 100)`, or 0 without a positive maximum. */
  function WordCountProgress(wordCount: nat, maxWords: int): (r: real)
    ensures 0.0 <= r <= 100.0
    ensures maxWords <= 0 ==> r == 0.0
    ensures maxWords > 0 ==> (r == 100.0 <==> wordCount >= maxWords)
  {
    if maxWords > 0 then
      var p := wordCount as real / maxWords as real * 100.0;
      assert p >= 100.0 <==> wordCount >= maxWords by {
        ProgressReachesFull(wordCount, maxWords);
      }
      MinReal(p, 100.0)
    else 0.0
  }

  lemma ProgressReachesFull(wordCount: nat, maxWords: int)
    requires maxWords > 0
    ensures wordCount as real / maxWords as real * 100.0 >= 100.0 <==> wordCount >= maxWords
  {
    var f := wordCount as real / maxWords as real;
    assert f * maxWords as real == wordCount as real;
  }

  // ---------------------------------------------------------------- answer state

  /** `question.answer_data` when it is an object: its two answer columns ('' when absent). */
  datatype AnswerData = AnswerData(answerJson: string, textAnswer: string)

  /** What an edit sends to the parent: `{ answer_type: 'json', answer_json }` or `{ answer_type: 'text', text_answer }`. */
  datatype Emission = JsonAnswer(answers: Json) | TextAnswer(text: string)

  class WritingAnswers {
    var answers: Json
    var singleText: string

    constructor()
      ensures answers == Obj([]) && singleText == ""
    {
      answers := Obj([]);
      singleText := "";
    }

    /**
     * The loading effect: `answer_json` first (`{}` when it does not parse),
     * else `text_answer`, which is the single text for a general task and
     * parsed for the others; nothing saved clears both.
     */
    method Load(data: Option<AnswerData>, writingType: WritingType, parse: Parser)
      modifies this
      ensures data.None? || (data.value.answerJson == "" && data.value.textAnswer == "") ==>
        answers == Obj([]) && singleText == ""
      ensures data.Some? && data.value.answerJson != "" ==>
        answers == (match parse(data.value.answerJson) case None => Obj([]) case Some(v) => Or(v, Obj([])))
        && singleText == old(singleText)
      ensures data.Some? && data.value.answerJson == "" && data.value.textAnswer != "" && writingType == General ==>
        singleText == data.value.textAnswer && answers == old(answers)
      ensures data.Some? && data.value.answerJson == "" && data.value.textAnswer != "" && writingType != General ==>
        answers == (match parse(data.value.textAnswer) case None => Obj([]) case Some(v) => v)
        && singleText == old(singleText)
    {
      match data {
        case None =>
          answers := Obj([]);
          singleText := "";
        case Some(d) =>
          if d.answerJson != "" {
            match parse(d.answerJson) {
              case None => answers := Obj([]);
              case Some(v) => answers := Or(v, Obj([]));
            }
          } else if d.textAnswer != "" {
            if writingType == General {
              singleText := d.textAnswer;
            } else {
              match parse(d.textAnswer) {
                case None => answers := Obj([]);
                case Some(v) => answers := v;
              }
            }
          } else {
            answers := Obj([]);
            singleText := "";
          }
      }
    }

    /** `handleStructuredAnswerChange(key, value)`: one key set, the whole map sent. */
    method StructuredChange(key: string, value: Json) returns (sent: Emission)
      modifies this
      ensures answers == With(old(answers), key, value)
      ensures sent == JsonAnswer(answers)
      ensures singleText == old(singleText)
    {
      answers := With(answers, key, value);
      sent := JsonAnswer(answers);
    }

    /** `handleTextChange`: the single text replaced and sent as text. */
    method TextChange(newText: string) returns (sent: Emission)
      modifies this
      ensures singleText == newText && sent == TextAnswer(newText)
      ensures answers == old(answers)
    {
      singleText := newText;
      sent := TextAnswer(newText);
    }
  }

  /** A structured change sets its key and leaves every other key as it was. */
  lemma StructuredChangeIsLocal(answers: Json, key: string, value: Json, other: string)
    ensures Get(With(answers, key, value), key) == value
    ensures other != key ==> Get(With(answers, key, value), other) == Get(answers, other)
  {
    GetWith(answers, key, value, key);
    GetWith(answers, key, value, other);
  }
}
