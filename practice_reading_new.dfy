/**
 * The newer practice reading page (`PracticeReadingQuestionNew`): the same
 * passage splitter and answer map as `PracticeReading`, with markers taken
 * from the item number or order, the question type read from four fields,
 * its own layout names, and the choices of the ordering drop-downs.
 */
module PracticeReadingNew {
  import opened Wrappers
  import opened Text
  import opened Json
  import PracticeReading

  // ---------------------------------------------------------------- passage

  /** `[GAP${item.item_number || item.item_order}]`: an item with neither prints an absent order as "undefined". */
  function Marker(it: PracticeReading.GapItem): (r: string)
    ensures |r| >= 6 && r[..4] == "[GAP" && r[|r| - 1] == ']'
  {
    var tag :=
      if PracticeReading.Given(it.itemNumber) then IntToString(it.itemNumber.value)
      else if it.itemOrder.None? then "undefined"
      else IntToString(it.itemOrder.value);
    "[GAP" + tag + "]"
  }

  function Markers(sorted: seq<PracticeReading.GapItem>): seq<string> {
    seq(|sorted|, i requires 0 <= i < |sorted| => Marker(sorted[i]))
  }

  /** `renderContent` here: the pieces of the passage, an empty list for an empty passage. */
  function PassagePieces(content: string, items: seq<PracticeReading.GapItem>): (r: seq<PracticeReading.Piece>)
    ensures PracticeReading.Render(r) == content
    ensures r == [] <==> content == []
  {
    var markers := Markers(PracticeReading.SortItems(items));
    PracticeReading.GapPiecesRender(content, markers);
    PracticeReading.NoPiecesOnlyForEmptyContent(content, markers);
    PracticeReading.GapPieces(content, markers)
  }

  /** For a numbered item both pages look for the same marker. */
  lemma NumberedMarkersAgree(it: PracticeReading.GapItem, index: nat)
    requires PracticeReading.Given(it.itemNumber)
    ensures Marker(it) == PracticeReading.Marker(it, index)
  {
  }

  /** Without a number the older page uses the position and this page the order: `[GAP1]` against `[GAP2]` here. */
  lemma UnnumberedMarkersDiffer()
    ensures PracticeReading.Marker(PracticeReading.GapItem("a", None, Some(2)), 0) == "[GAP1]"
    ensures Marker(PracticeReading.GapItem("a", None, Some(2))) == "[GAP2]"
  {
  }

  // ---------------------------------------------------------------- question type

  /**
   * `getQuestionType` as written: `question_type_name || type ||
   * question_type || question_type?.code || 'READING_MCQ'`.
   */
  function QuestionTypeAsWritten(questionTypeName: Json, typ: Json, questionType: Json): (r: Json)
    ensures Truthy(r)
  {
    Or(questionTypeName, Or(typ, Or(questionType, Or(Get(questionType, "code"), Str("READING_MCQ")))))
  }

  /** The `code` read is never reached: a falsy `question_type` has no truthy `code`. */
  lemma CodeIsNeverRead(questionTypeName: Json, typ: Json, questionType: Json)
    ensures QuestionTypeAsWritten(questionTypeName, typ, questionType)
      == Or(questionTypeName, Or(typ, Or(questionType, Str("READING_MCQ"))))
  {
    if !Truthy(questionType) {
      assert Entries(questionType) == [];
    }
  }

  /** So a question type given as an object with a code is rendered as MCQ whatever its code says. */
  lemma TypeObjectRendersAsMcq(code: string)
    ensures var qt := Obj([("code", Str(code))]);
      LayoutFor(QuestionTypeAsWritten(Undefined, Undefined, qt)) == PracticeReading.McqLayout
  {
  }

  /** The type with the object's `code` read first, as the fallback evidently intends. */
  function QuestionType(questionTypeName: Json, typ: Json, questionType: Json): (r: Json)
    ensures Truthy(r)
  {
    Or(questionTypeName, Or(typ, Or(Get(questionType, "code"), Or(questionType, Str("READING_MCQ")))))
  }

  /** The corrected type uses the code of an object, and agrees with the written one for every other `question_type`. */
  lemma QuestionTypeReadsCode(questionTypeName: Json, typ: Json, questionType: Json)
    ensures !Truthy(questionTypeName) && !Truthy(typ) && questionType.Obj? && Truthy(Get(questionType, "code")) ==>
      QuestionType(questionTypeName, typ, questionType) == Get(questionType, "code")
    ensures !questionType.Obj? && !questionType.Arr? && !questionType.Str? ==>
      QuestionType(questionTypeName, typ, questionType) == QuestionTypeAsWritten(questionTypeName, typ, questionType)
  {
    CodeIsNeverRead(questionTypeName, typ, questionType);
  }

  /** A code-carrying type object now reaches its layout. */
  lemma TypeObjectReachesLayout()
    ensures var qt := Obj([("code", Str("READING_GAP_FILL"))]);
      LayoutFor(QuestionType(Undefined, Undefined, qt)) == PracticeReading.GapFillLayout
  {
  }

  /** The `switch` of `renderQuestion` here (strict equality, so only strings match); MCQ for anything else. */
  function LayoutFor(t: Json): (r: PracticeReading.Layout)
    ensures r == PracticeReading.GapFillLayout <==> t == Str("READING_GAP_FILL") || t == Str("gap_filling")
    ensures r == PracticeReading.MatchingLayout <==> t == Str("READING_MATCHING") || t == Str("matching")
    ensures r == PracticeReading.HeadingLayout <==> t == Str("READING_MATCHING_HEADINGS") || t == Str("matching_headings")
    ensures r == PracticeReading.OrderingLayout <==> t == Str("READING_ORDERING") || t == Str("ordering")
  {
    if !t.Str? then PracticeReading.McqLayout
    else
      var name := t.s;
      if name == "READING_MCQ" || name == "multiple_choice" then PracticeReading.McqLayout
      else if name == "READING_GAP_FILL" || name == "gap_filling" then PracticeReading.GapFillLayout
      else if name == "READING_MATCHING" || name == "matching" then PracticeReading.MatchingLayout
      else if name == "READING_MATCHING_HEADINGS" || name == "matching_headings" then PracticeReading.HeadingLayout
      else if name == "READING_ORDERING" || name == "ordering" then PracticeReading.OrderingLayout
      else PracticeReading.McqLayout
  }

  /** The layout the page shows for its question's type fields; the type object's `code` plays no part. */
  function PageLayout(questionTypeName: Json, typ: Json, questionType: Json): (r: PracticeReading.Layout)
    ensures r == LayoutFor(Or(questionTypeName, Or(typ, Or(questionType, Str("READING_MCQ")))))
    ensures !Truthy(questionTypeName) && !Truthy(typ) && questionType.Obj? ==> r == PracticeReading.McqLayout
  {
    CodeIsNeverRead(questionTypeName, typ, questionType);
    LayoutFor(QuestionTypeAsWritten(questionTypeName, typ, questionType))
  }

  /** The layout with the evidently intended type lookup: a type object's `code` chooses it. */
  function PageLayoutCorrected(questionTypeName: Json, typ: Json, questionType: Json): (r: PracticeReading.Layout)
    ensures !Truthy(questionTypeName) && !Truthy(typ) && questionType.Obj? && Truthy(Get(questionType, "code")) ==>
      r == LayoutFor(Get(questionType, "code"))
    ensures !questionType.Obj? && !questionType.Arr? && !questionType.Str? ==>
      r == PageLayout(questionTypeName, typ, questionType)
  {
    QuestionTypeReadsCode(questionTypeName, typ, questionType);
    LayoutFor(QuestionType(questionTypeName, typ, questionType))
  }

  /** The two pages spell the heading-matching code differently, each falling back to MCQ on the other's. */
  lemma HeadingCodesDiffer()
    ensures LayoutFor(Str("READING_MATCHING_HEADINGS")) == PracticeReading.HeadingLayout
    ensures PracticeReading.LayoutFor("READING_MATCHING_HEADINGS") == PracticeReading.McqLayout
    ensures LayoutFor(Str("READING_HEADING_MATCHING")) == PracticeReading.McqLayout
    ensures PracticeReading.LayoutFor("READING_HEADING_MATCHING") == PracticeReading.HeadingLayout
  {
  }

  // ---------------------------------------------------------------- ordering

  /** The ordering drop-down's choices: `Array.from({ length: n }, (_, i) => i + 1)`. */
  function OrderChoices(n: nat): (r: seq<int>)
    ensures |r| == n
    ensures forall x :: x in r <==> 1 <= x <= n
    ensures forall i :: 0 <= i < |r| ==> r[i] == i + 1
  {
    if n == 0 then [] else OrderChoices(n - 1) + [n]
  }
}
