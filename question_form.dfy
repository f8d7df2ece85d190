/**
 * The teacher's question form (`QuestionForm`): the content check run
 * before a question is saved, and the time limit kept in minutes on screen
 * and in seconds in the saved question.
 */
module QuestionForm {
  import opened Wrappers
  import opened Text
  import opened Json

  /** The four error messages of `validateQuestionContent`. */
  datatype ContentError =
    | EmptyContent      // 'Nội dung câu hỏi không được để trống'
    | NoContent         // 'Câu hỏi chưa có nội dung'
    | NoValidContent    // 'Câu hỏi chưa có nội dung hợp lệ'
    | InvalidContent    // 'Nội dung câu hỏi không hợp lệ'

  /** `{ isValid, error }`, with `error` null as `None`. */
  datatype Validation = Validation(isValid: bool, error: Option<ContentError>)

  /**
   * A property value that counts as content: a non-blank string, a non-empty
   * array, or an object with at least one key.
   */
  predicate Meaningful(v: Json) {
    (v.Str? && !Blank(v.s)) || (v.Arr? && |v.items| > 0) || (v.Obj? && |Keys(v)| > 0)
  }

  /** The `for (const key of keys)` scan: some value counts as content. */
  function AnyMeaningful(values: seq<Json>): (r: bool)
    ensures r <==> exists i :: 0 <= i < |values| && Meaningful(values[i])
  {
    if values == [] then false
    else if Meaningful(values[0]) then true
    else
      var r := AnyMeaningful(values[1..]);
      assert forall i :: 1 <= i < |values| ==> values[i] == values[1..][i - 1];
      r
  }

  function Accept(): Validation { Validation(true, None) }
  function Reject(e: ContentError): Validation { Validation(false, Some(e)) }

  /** `validateQuestionContent(content)` for the string held in the form. */
  function ValidateContent(content: string, parse: Parser): (r: Validation)
    ensures r.error.None? <==> r.isValid
    ensures content == "" ==> r == Reject(EmptyContent)
  {
    if content == "" then Reject(EmptyContent)
    else match parse(content)
      case None => if !Blank(content) then Accept() else Reject(InvalidContent)
      case Some(parsed) =>
        if parsed.Obj? || parsed.Arr? then
          if |Keys(parsed)| == 0 then Reject(NoContent)
          else if AnyMeaningful(Values(parsed)) then Accept()
          else Reject(NoValidContent)
        else if parsed.Str? && !Blank(parsed.s) then Accept()
        else Reject(EmptyContent)
  }

  /** A parsed object or array is valid exactly when one of its values is content; a keyless one is "no content". */
  lemma ObjectContentRule(content: string, parse: Parser)
    requires content != "" && parse(content).Some?
    requires parse(content).value.Obj? || parse(content).value.Arr?
    ensures var v := parse(content).value;
      ValidateContent(content, parse).isValid <==> exists i :: 0 <= i < |Values(v)| && Meaningful(Values(v)[i])
    ensures var v := parse(content).value;
      |Keys(v)| == 0 ==> ValidateContent(content, parse) == Reject(NoContent)
  {
  }

  /** A JSON string literal is valid exactly when its text is not blank; numbers, booleans and null never are. */
  lemma ScalarContentRule(content: string, parse: Parser)
    requires content != "" && parse(content).Some?
    requires !parse(content).value.Obj? && !parse(content).value.Arr?
    ensures ValidateContent(content, parse).isValid <==> parse(content).value.Str? && !Blank(parse(content).value.s)
    ensures !ValidateContent(content, parse).isValid ==> ValidateContent(content, parse) == Reject(EmptyContent)
  {
  }

  /** Text that is not JSON is valid exactly when it is not blank, and otherwise "invalid". */
  lemma PlainTextRule(content: string, parse: Parser)
    requires parse(content).None?
    ensures ValidateContent(content, parse).isValid <==> !Blank(content)
    ensures content != "" && Blank(content) ==> ValidateContent(content, parse) == Reject(InvalidContent)
  {
    if content == "" {
      assert Blank(content) by { TrimShape(content); }
    }
  }

  // ---------------------------------------------------------------- time limit

  /** The form's time-limit fields: the switch and the minutes field. */
  datatype Duration = Duration(hasDuration: bool, minutes: int)

  /** `duration_seconds: hasDuration ? duration * 60 : null`. */
  function SavedSeconds(d: Duration): (r: Option<int>)
    ensures r.Some? <==> d.hasDuration
  {
    if d.hasDuration then Some(d.minutes * 60) else None
  }

  /**
   * The form opened on a saved question: the switch is `!!duration_seconds`
   * and the minutes are `Math.floor(duration_seconds / 60)`, else 5.
   */
  function LoadedDuration(seconds: Option<int>): Duration {
    match seconds
    case None => Duration(false, 5)
    case Some(s) => if s != 0 then Duration(true, Floor(s, 60)) else Duration(false, 5)
  }

  /** `Math.floor(a / b)` for a positive b. */
  function Floor(a: int, b: int): (q: int)
    requires b > 0
    ensures q * b <= a < (q + 1) * b
  {
    a / b
  }

  /** Saving a non-zero limit and opening the question again gives back the same minutes. */
  lemma DurationRoundTrip(d: Duration)
    requires d.hasDuration && d.minutes != 0
    ensures LoadedDuration(SavedSeconds(d)) == d
  {
  }

  /** No limit, or a limit of 0 minutes, comes back as no limit with the 5-minute default. */
  lemma NoDurationRoundTrip(d: Duration)
    requires !d.hasDuration || d.minutes == 0
    ensures LoadedDuration(SavedSeconds(d)) == Duration(false, 5)
  {
  }

  /** Seconds that are not whole minutes are truncated down on the way through the form. */
  lemma SecondsTruncatedToMinutes(s: int)
    requires s != 0
    ensures var back := SavedSeconds(LoadedDuration(Some(s)));
      back.Some? && back.value <= s < back.value + 60
  {
  }
}
