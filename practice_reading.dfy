/**
 * The practice reading question (`PracticeReadingQuestion`): the passage cut
 * at its `[GAPn]` markers into text and drop-downs, the answer map each
 * drop-down or field updates, and the choice of layout by type name. The
 * passage splitter is shared with the newer page (`PracticeReadingNew`).
 */
module PracticeReading {
  import opened Wrappers
  import opened Text
  import opened Json
  import Sorting

  // ---------------------------------------------------------------- passage splitting

  /** What the passage renders as: plain text, or the drop-down of sorted item `item` in place of its marker. */
  datatype Piece = TextPiece(text: string) | GapPiece(item: nat, marker: string)

  function PieceText(p: Piece): string {
    match p
    case TextPiece(t) => t
    case GapPiece(_, m) => m
  }

  /** The text the pieces stand for, each drop-down read as its marker. */
  function Render(ps: seq<Piece>): string {
    if ps == [] then "" else PieceText(ps[0]) + Render(ps[1..])
  }

  lemma {:induction false} RenderAppend(a: seq<Piece>, b: seq<Piece>)
    ensures Render(a + b) == Render(a) + Render(b)
  {
    if a == [] {
      assert a + b == b;
    } else {
      assert (a + b)[1..] == a[1..] + b;
      assert (a + b)[0] == a[0];
      RenderAppend(a[1..], b);
      var x, y, z := PieceText(a[0]), Render(a[1..]), Render(b);
      assert (x + y) + z == x + (y + z);
    }
  }

  lemma RenderOne(p: Piece)
    ensures Render([p]) == PieceText(p)
  {
    assert [p][1..] == [];
  }

  /**
   * One turn of the `forEach`: the marker is searched from `lastIndex`; when
   * found, the text before it (if any) and a drop-down are added and the scan
   * moves past the marker, otherwise nothing changes.
   */
  function Step(content: string, st: (seq<Piece>, nat), k: nat, marker: string): (r: (seq<Piece>, nat))
    requires st.1 <= |content|
    ensures st.1 <= r.1 <= |content|
    ensures IndexOf(content, marker, st.1).None? ==> r == st
  {
    match IndexOf(content, marker, st.1)
    case None => st
    case Some(g) =>
      (st.0 + TextBefore(content, st.1, g) + [GapPiece(k, marker)], g + |marker|)
  }

  /** The text between the scan position and a marker found at `g`, if any. */
  function TextBefore(content: string, pos: nat, g: nat): seq<Piece>
    requires pos <= g <= |content|
  {
    if g > pos then [TextPiece(content[pos..g])] else []
  }

  /** The pieces and `lastIndex` after the first `i` markers. */
  function ScanUpTo(content: string, markers: seq<string>, i: nat): (r: (seq<Piece>, nat))
    requires i <= |markers|
    ensures r.1 <= |content|
  {
    if i == 0 then ([], 0) else Step(content, ScanUpTo(content, markers, i - 1), i - 1, markers[i - 1])
  }

  /** `renderContent`: the scan over all markers, then the text after the last one found. */
  function GapPieces(content: string, markers: seq<string>): seq<Piece> {
    var st := ScanUpTo(content, markers, |markers|);
    st.0 + (if st.1 < |content| then [TextPiece(content[st.1..])] else [])
  }

  lemma SliceSplit(s: string, i: nat, j: nat, k: nat)
    requires i <= j <= k <= |s|
    ensures s[..k] == s[..i] + s[i..j] + s[j..k]
  {
  }

  /** Adding the text before a marker and the marker's drop-down extends the spelled prefix past the marker. */
  lemma GapExtendsPrefix(content: string, ps: seq<Piece>, pos: nat, g: nat, k: nat, m: string)
    requires pos <= g && g + |m| <= |content| && content[g..g + |m|] == m
    requires Render(ps) == content[..pos]
    ensures Render(ps + TextBefore(content, pos, g) + [GapPiece(k, m)]) == content[..g + |m|]
  {
    var before := TextBefore(content, pos, g);
    RenderOne(GapPiece(k, m));
    RenderAppend(ps + before, [GapPiece(k, m)]);
    RenderAppend(ps, before);
    if g > pos {
      RenderOne(TextPiece(content[pos..g]));
    }
    SliceSplit(content, pos, g, g + |m|);
  }

  /** One turn keeps the pieces spelling the content up to the scan position. */
  lemma StepRenders(content: string, st: (seq<Piece>, nat), k: nat, m: string)
    requires st.1 <= |content| && Render(st.0) == content[..st.1]
    ensures Render(Step(content, st, k, m).0) == content[..Step(content, st, k, m).1]
  {
    var found := IndexOf(content, m, st.1);
    if found.Some? {
      GapExtendsPrefix(content, st.0, st.1, found.value, k, m);
    }
  }

  /** The pieces scanned so far spell the content up to `lastIndex`. */
  lemma {:induction false} ScanRenders(content: string, markers: seq<string>, i: nat)
    requires i <= |markers|
    ensures Render(ScanUpTo(content, markers, i).0) == content[..ScanUpTo(content, markers, i).1]
  {
    if i > 0 {
      ScanRenders(content, markers, i - 1);
      StepRenders(content, ScanUpTo(content, markers, i - 1), i - 1, markers[i - 1]);
    }
  }

  /** Reading every drop-down as its marker gives the passage back exactly. */
  lemma GapPiecesRender(content: string, markers: seq<string>)
    ensures Render(GapPieces(content, markers)) == content
  {
    var st := ScanUpTo(content, markers, |markers|);
    ScanRenders(content, markers, |markers|);
    var tail := if st.1 < |content| then [TextPiece(content[st.1..])] else [];
    RenderAppend(st.0, tail);
    if st.1 < |content| {
      RenderOne(TextPiece(content[st.1..]));
    }
    assert content == content[..st.1] + content[st.1..];
  }

  /** The scan position never moves back. */
  lemma {:induction false} ScanMonotone(content: string, markers: seq<string>, i: nat, j: nat)
    requires i <= j <= |markers|
    ensures ScanUpTo(content, markers, i).1 <= ScanUpTo(content, markers, j).1
    decreases j
  {
    if i < j {
      ScanMonotone(content, markers, i, j - 1);
    }
  }

  /** Every drop-down belongs to an earlier item, carries that item's marker, and stands where the marker occurs. */
  predicate GapsFound(content: string, markers: seq<string>, ps: seq<Piece>, i: nat)
    requires i <= |markers|
  {
    forall p :: p in ps && p.GapPiece? ==> p.item < i && p.marker == markers[p.item] && Contains(content, p.marker)
  }

  lemma StepGapsFound(content: string, markers: seq<string>, st: (seq<Piece>, nat), i: nat)
    requires i < |markers| && st.1 <= |content| && GapsFound(content, markers, st.0, i)
    ensures GapsFound(content, markers, Step(content, st, i, markers[i]).0, i + 1)
  {
    match IndexOf(content, markers[i], st.1) {
      case None =>
      case Some(g) => ContainsAt(content, markers[i], g);
    }
  }

  lemma {:induction false} ScanGapsFound(content: string, markers: seq<string>, i: nat)
    requires i <= |markers|
    ensures GapsFound(content, markers, ScanUpTo(content, markers, i).0, i)
  {
    if i > 0 {
      var st := ScanUpTo(content, markers, i - 1);
      ScanGapsFound(content, markers, i - 1);
      StepGapsFound(content, markers, st, i - 1);
      assert ScanUpTo(content, markers, i) == Step(content, st, i - 1, markers[i - 1]);
    }
  }

  /** A marker that does not occur in the passage gets no drop-down. */
  lemma MissingMarkerHasNoGap(content: string, markers: seq<string>, k: nat)
    requires k < |markers| && !Contains(content, markers[k])
    ensures forall p :: p in GapPieces(content, markers) ==> p != GapPiece(k, markers[k])
  {
    ScanGapsFound(content, markers, |markers|);
  }

  /** With markers that are never empty, only an empty passage yields no piece at all. */
  lemma {:induction false} NoPiecesOnlyForEmptyContent(content: string, markers: seq<string>)
    requires forall i :: 0 <= i < |markers| ==> markers[i] != []
    ensures GapPieces(content, markers) == [] <==> content == []
  {
    GapPiecesRender(content, markers);
    if content == [] {
      EmptyScan(markers, |markers|);
    }
  }

  lemma {:induction false} EmptyScan(markers: seq<string>, i: nat)
    requires i <= |markers|
    requires forall j :: 0 <= j < |markers| ==> markers[j] != []
    ensures ScanUpTo([], markers, i) == ([], 0)
  {
    if i > 0 {
      EmptyScan(markers, i - 1);
    }
  }

  /** The `forEach` loop of `renderContent`, proved to compute `GapPieces`. */
  method SplitPassage(content: string, markers: seq<string>) returns (pieces: seq<Piece>)
    ensures pieces == GapPieces(content, markers)
    ensures Render(pieces) == content
  {
    pieces := [];
    var lastIndex := 0;
    for i := 0 to |markers|
      invariant lastIndex <= |content|
      invariant (pieces, lastIndex) == ScanUpTo(content, markers, i)
    {
      var found := IndexOf(content, markers[i], lastIndex);
      if found.Some? {
        var g := found.value;
        ghost var prev := pieces;
        if g > lastIndex {
          pieces := pieces + [TextPiece(content[lastIndex..g])];
        }
        assert pieces == prev + TextBefore(content, lastIndex, g);
        pieces := pieces + [GapPiece(i, markers[i])];
        lastIndex := g + |markers[i]|;
      }
      assert (pieces, lastIndex) == Step(content, ScanUpTo(content, markers, i), i, markers[i]);
    }
    if lastIndex < |content| {
      pieces := pieces + [TextPiece(content[lastIndex..])];
    }
    GapPiecesRender(content, markers);
  }

  // ---------------------------------------------------------------- items and markers

  /** A gap item: its id, and its number and order (`None` when the field is absent). */
  datatype GapItem = GapItem(id: string, itemNumber: Option<int>, itemOrder: Option<int>)

  predicate Given(x: Option<int>) { x.Some? && x.value != 0 }

  /** `item.item_number || item.item_order || 0`. */
  function SortKey(it: GapItem): int {
    if Given(it.itemNumber) then it.itemNumber.value
    else if Given(it.itemOrder) then it.itemOrder.value
    else 0
  }

  /** `[...items].sort((a, b) => key(a) - key(b))`, a stable sort. */
  function SortItems(items: seq<GapItem>): (r: seq<GapItem>)
    ensures Sorting.SortedBy(r, SortKey) && multiset(r) == multiset(items)
  {
    Sorting.SortByCorrect(items, SortKey);
    Sorting.SortBy(items, SortKey)
  }

  /** `[GAP${item.item_number || (index + 1)}]`. */
  function Marker(it: GapItem, index: nat): (r: string)
    ensures |r| >= 6 && r[..4] == "[GAP" && r[|r| - 1] == ']'
  {
    var n := if Given(it.itemNumber) then it.itemNumber.value else index + 1;
    "[GAP" + IntToString(n) + "]"
  }

  function Markers(sorted: seq<GapItem>): seq<string> {
    seq(|sorted|, i requires 0 <= i < |sorted| => Marker(sorted[i], i))
  }

  /** The passage pieces of the gap-filling layout, for sorted item `i` the drop-down of `SortItems(items)[i]`. */
  function PassagePieces(content: string, items: seq<GapItem>): (r: seq<Piece>)
    ensures Render(r) == content
    ensures r == [] <==> content == []
  {
    var markers := Markers(SortItems(items));
    GapPiecesRender(content, markers);
    NoPiecesOnlyForEmptyContent(content, markers);
    GapPieces(content, markers)
  }

  /** An item without a number is looked for by its place in the sorted list. */
  lemma UnnumberedItemUsesPosition(it: GapItem, index: nat)
    requires !Given(it.itemNumber)
    ensures Marker(it, index) == "[GAP" + NatToString(index + 1) + "]"
  {
  }

  // ---------------------------------------------------------------- answers

  /**
   * The page's `localAnswer`: `answer || {}`; a drop-down or field sets one
   * item's key of it, the MCQ radio group replaces it with the option id.
   */
  class ReadingAnswer {
    var localAnswer: Json

    constructor(answer: Json)
      ensures localAnswer == Or(answer, Obj([]))
    {
      localAnswer := Or(answer, Obj([]));
    }

    /** The effect run when the answer or the question changes. */
    method Reset(answer: Json)
      modifies this
      ensures localAnswer == Or(answer, Obj([]))
    {
      localAnswer := Or(answer, Obj([]));
    }

    /** `{ ...gaps, [item_id]: value }`, sent to the parent. */
    method Choose(itemId: string, value: Json) returns (sent: Json)
      modifies this
      ensures localAnswer == With(Or(old(localAnswer), Obj([])), itemId, value) && sent == localAnswer
    {
      localAnswer := With(Or(localAnswer, Obj([])), itemId, value);
      sent := localAnswer;
    }

    /** The MCQ radio group: the chosen option id becomes the whole answer. */
    method ChooseOption(optionId: string) returns (sent: Json)
      modifies this
      ensures localAnswer == Str(optionId) && sent == localAnswer
    {
      localAnswer := Str(optionId);
      sent := localAnswer;
    }
  }

  /** A choice sets its own item's key and leaves every other item's answer alone. */
  lemma ChoiceIsLocal(answer: Json, itemId: string, value: Json, other: string)
    ensures Get(With(Or(answer, Obj([])), itemId, value), itemId) == value
    ensures other != itemId ==> Get(With(Or(answer, Obj([])), itemId, value), other) == Get(Or(answer, Obj([])), other)
  {
    GetWith(Or(answer, Obj([])), itemId, value, itemId);
    GetWith(Or(answer, Obj([])), itemId, value, other);
  }

  // ---------------------------------------------------------------- layout

  datatype Layout = McqLayout | GapFillLayout | MatchingLayout | HeadingLayout | OrderingLayout

  /** The `switch` of `renderQuestion`: two names per layout, MCQ for anything else. */
  function LayoutFor(name: string): (r: Layout)
    ensures r == GapFillLayout <==> name == "gap_filling" || name == "READING_GAP_FILL"
    ensures r == MatchingLayout <==> name == "matching" || name == "READING_MATCHING"
    ensures r == HeadingLayout <==> name == "matching_headings" || name == "READING_HEADING_MATCHING"
    ensures r == OrderingLayout <==> name == "ordering" || name == "READING_ORDERING"
  {
    if name == "multiple_choice" || name == "READING_MCQ" then McqLayout
    else if name == "gap_filling" || name == "READING_GAP_FILL" then GapFillLayout
    else if name == "matching" || name == "READING_MATCHING" then MatchingLayout
    else if name == "matching_headings" || name == "READING_HEADING_MATCHING" then HeadingLayout
    else if name == "ordering" || name == "READING_ORDERING" then OrderingLayout
    else McqLayout
  }
}
