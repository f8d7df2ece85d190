/**
 * The client-side answer-scoring engine (`scoringUtils`): one scorer per
 * question family, the section aggregator and the type-code dispatcher
 * `autoScoreQuestion`, which sorts the question's items in place, extracts
 * the reference answers and turns every exception into an error result.
 */
module Scoring {
  import opened Wrappers
  import opened Text
  import opened Json
  import Sorting
  import opened Feedback

  // ================================================================ results

  /** One entry of `gapResults`, `matchResults`, `statementResults` or `orderResults`. */
  datatype ItemResult = ItemResult(key: string, user: Json, reference: Json, isCorrect: bool, score: real)

  /** The extra fields a scorer adds to score, percentage and feedback. */
  datatype Details =
    | NoDetails
    | Items(results: seq<ItemResult>)
    | WritingDetails(wordCount: nat, wordCountScore: real, contentScore: real)
    | SpeakingDetails(hasAudio: bool, hasTranscription: bool)

  datatype ScoreResult = ScoreResult(score: real, percentage: real, feedback: Message, details: Details)

  /** A scorer either returns or throws (the dispatcher catches the throw). */
  datatype Outcome = Scored(result: ScoreResult) | Throws

  function Zero(n: Notice): ScoreResult {
    ScoreResult(0.0, 0.0, Fixed(n), NoDetails)
  }

  /** Number of results marked correct. */
  function CountCorrect(rs: seq<ItemResult>): (n: nat)
    ensures n <= |rs|
  {
    if rs == [] then 0
    else CountCorrect(rs[..|rs| - 1]) + (if rs[|rs| - 1].isCorrect then 1 else 0)
  }

  /** Appending one result adds one to the count exactly when that result is correct. */
  lemma CountCorrectAppend(rs: seq<ItemResult>, x: ItemResult)
    ensures CountCorrect(rs + [x]) == CountCorrect(rs) + (if x.isCorrect then 1 else 0)
  {
    assert (rs + [x])[..|rs|] == rs;
  }

  /** `(score / maxScore) * 100`. */
  function Percent(score: real, maxScore: real): (p: real)
    requires maxScore > 0.0
    ensures score == maxScore ==> p == 100.0
    ensures score == 0.0 ==> p == 0.0
    ensures 0.0 <= score <= maxScore ==> 0.0 <= p <= 100.0
  {
    score / maxScore * 100.0
  }

  /** A score that is a fraction of maxScore has that fraction, in percent, as its percentage. */
  lemma PercentOfFraction(f: real, maxScore: real)
    requires maxScore > 0.0
    ensures Percent(f * maxScore, maxScore) == f * 100.0
  {
    assert f * maxScore / maxScore == f;
  }

  /** `fraction * maxScore`: the unrounded score of the writing and speaking scorers. */
  function Points(fraction: real, maxScore: real): real {
    fraction * maxScore
  }

  lemma PointsBounds(f: real, lo: real, hi: real, maxScore: real)
    requires lo <= f <= hi && maxScore > 0.0
    ensures lo * maxScore <= Points(f, maxScore) <= hi * maxScore
  {
  }

  /** `k * (maxScore / n)`: the credit for k of n items. */
  function Share(k: nat, n: nat, maxScore: real): (s: real)
    requires n > 0 && maxScore > 0.0
    ensures s == k as real * maxScore / n as real
    ensures k <= n ==> 0.0 <= s <= maxScore
    ensures Percent(s, maxScore) == 100.0 * k as real / n as real
  {
    var s := k as real * (maxScore / n as real);
    assert k as real * (maxScore / n as real) == k as real * maxScore / n as real;
    assert s / maxScore == k as real / n as real;
    s
  }

  /** Partial credit: each correct item is worth maxScore / total; the percentage is not rounded. */
  function PartialCredit(rs: seq<ItemResult>, total: nat, maxScore: real, phrase: Phrase): (r: ScoreResult)
    requires total > 0 && maxScore > 0.0
    ensures |rs| <= total ==> 0.0 <= r.score <= maxScore
    ensures r.percentage == 100.0 * CountCorrect(rs) as real / total as real
    ensures r.feedback == Tally(CountCorrect(rs), total, phrase) && r.details == Items(rs)
  {
    var score := Share(CountCorrect(rs), total, maxScore);
    ScoreResult(score, Percent(score, maxScore), Tally(CountCorrect(rs), total, phrase), Items(rs))
  }

  // ================================================================ multiple choice

  /** `u.toString().toLowerCase().trim() === c.toString().toLowerCase().trim()`. */
  predicate SameAnswer(u: Json, c: Json) {
    match (ToText(u), ToText(c))
    case (Some(a), Some(b)) => Normalize(a) == Normalize(b)
    case _ => false
  }

  /** scoreMCQ: all or nothing on the normalised text; a falsy side scores 0. */
  function ScoreMCQ(user: Json, correct: Json, maxScore: real): (r: ScoreResult)
    requires maxScore > 0.0
    ensures !Truthy(user) || !Truthy(correct) ==> r == Zero(NoAnswer)
    ensures Truthy(user) && Truthy(correct) ==>
      && (r.score == maxScore <==> SameAnswer(user, correct))
      && (r.score == 0.0 <==> !SameAnswer(user, correct))
      && r.percentage == (if SameAnswer(user, correct) then 100.0 else 0.0)
      && r.feedback == Fixed(if SameAnswer(user, correct) then CorrectAnswer else IncorrectAnswer)
  {
    if !Truthy(user) || !Truthy(correct) then Zero(NoAnswer)
    else
      var ok := SameAnswer(user, correct);
      var score := if ok then maxScore else 0.0;
      ScoreResult(score, Percent(score, maxScore), Fixed(if ok then CorrectAnswer else IncorrectAnswer), NoDetails)
  }

  /** The comparison ignores ASCII case and surrounding white space. */
  lemma MCQIgnoresCaseAndSpace(a: string, b: string, maxScore: real)
    requires maxScore > 0.0 && a != "" && b != "" && Normalize(a) == Normalize(b)
    ensures ScoreMCQ(Str(a), Str(b), maxScore).score == maxScore
  {
    assert SameAnswer(Str(a), Str(b));
  }

  // ================================================================ gap filling

  /** The reference list: an array as it is, an object's values, anything else is rejected. */
  function ReferenceList(correct: Json): Option<seq<Json>> {
    match correct
    case Arr(items) => Some(items)
    case Obj(_) => Some(Values(correct))
    case _ => None
  }

  /** `userAnswersArray` of scoreGapFilling: the value whose i-th element answers gap i. */
  function GapUserList(user: Json, total: nat): Json {
    match user
    case Arr(_) => user
    case Obj(_) =>
      var gaps := Get(user, "gaps");
      if Truthy(gaps) then
        Arr(GapSlots(gaps, Keys(gaps), total))
      else if Truthy(Get(user, "gap_answers")) then Get(user, "gap_answers")
      else Arr(Values(user))
    case _ => Arr([])
  }

  /** `for (i < total) arr[i] = key ? gaps[key] : ''` with `key = Object.keys(gaps)[i]`: the first n slots. */
  function GapSlots(gaps: Json, keys: seq<string>, n: nat): (r: seq<Json>)
    ensures |r| == n
  {
    if n == 0 then []
    else GapSlots(gaps, keys, n - 1) + [if n - 1 < |keys| && keys[n - 1] != "" then Get(gaps, keys[n - 1]) else Str("")]
  }

  predicate GapCorrect(u: Json, c: Json) {
    Truthy(u) && Truthy(c) && SameAnswer(u, c)
  }

  function GapItem(userList: Json, refs: seq<Json>, per: real, i: nat): ItemResult
    requires i < |refs|
  {
    var u := At(userList, i);
    var ok := GapCorrect(u, refs[i]);
    ItemResult(NatToString(i), Or(u, Str("")), refs[i], ok, if ok then per else 0.0)
  }

  /** The results of the first n gaps, in gap order. */
  function GapItems(userList: Json, refs: seq<Json>, per: real, n: nat): (rs: seq<ItemResult>)
    requires n <= |refs|
    ensures |rs| == n
  {
    if n == 0 then [] else GapItems(userList, refs, per, n - 1) + [GapItem(userList, refs, per, n - 1)]
  }

  /** Result i of the gap results is the result of gap i. */
  lemma {:induction false} GapItemsAt(userList: Json, refs: seq<Json>, per: real, n: nat, i: nat)
    requires i < n <= |refs|
    ensures GapItems(userList, refs, per, n)[i] == GapItem(userList, refs, per, i)
  {
    if i < n - 1 { GapItemsAt(userList, refs, per, n - 1, i); }
  }

  /** Gap result i is marked correct exactly when answer i matches reference i. */
  lemma GapItemsMark(userList: Json, refs: seq<Json>, per: real, n: nat)
    requires n <= |refs|
    ensures forall i :: 0 <= i < n ==>
      (GapItems(userList, refs, per, n)[i].isCorrect <==> GapCorrect(At(userList, i), refs[i]))
  {
    forall i | 0 <= i < n
      ensures GapItems(userList, refs, per, n)[i].isCorrect <==> GapCorrect(At(userList, i), refs[i])
    {
      GapItemsAt(userList, refs, per, n, i);
    }
  }

  /** What scoreGapFilling returns. */
  function GapFillingSpec(user: Json, correct: Json, maxScore: real): ScoreResult
    requires maxScore > 0.0
  {
    if !Truthy(correct) then Zero(NoCorrectAnswers)
    else match ReferenceList(correct)
      case None => Zero(InvalidCorrectAnswers)
      case Some(refs) =>
        if |refs| == 0 then Zero(NoGaps)
        else if !Truthy(user) then Zero(NoUserAnswers)
        else
          GapPartial(GapUserList(user, |refs|), refs, maxScore)
  }

  /** The partial credit for the user's answer list against the reference answers refs. */
  function GapPartial(userList: Json, refs: seq<Json>, maxScore: real): ScoreResult
    requires |refs| > 0 && maxScore > 0.0
  {
    PartialCredit(GapItems(userList, refs, maxScore / |refs| as real, |refs|), |refs|, maxScore, GapsFilled)
  }

  /** Gap i is credited exactly when answer i is truthy and matches reference i; the percentage divides by |refs|. */
  lemma GapPartialMarks(userList: Json, refs: seq<Json>, maxScore: real)
    requires |refs| > 0 && maxScore > 0.0
    ensures var r := GapPartial(userList, refs, maxScore);
      && 0.0 <= r.score <= maxScore
      && r.details.Items?
      && |r.details.results| == |refs|
      && r.percentage == 100.0 * CountCorrect(r.details.results) as real / |refs| as real
      && forall i :: 0 <= i < |refs| ==> (r.details.results[i].isCorrect <==> GapCorrect(At(userList, i), refs[i]))
  {
    GapItemsMark(userList, refs, maxScore / |refs| as real, |refs|);
  }

  /** The `for` loop of scoreGapFilling: one result per gap and the number answered correctly. */
  method GapLoop(userList: Json, refs: seq<Json>, per: real) returns (results: seq<ItemResult>, count: nat)
    ensures results == GapItems(userList, refs, per, |refs|)
    ensures count == CountCorrect(results)
  {
    count := 0;
    results := [];
    var i := 0;
    while i < |refs|
      invariant 0 <= i <= |refs|
      invariant results == GapItems(userList, refs, per, i)
      invariant count == CountCorrect(results)
    {
      var item := GapItem(userList, refs, per, i);
      assert results + [item] == GapItems(userList, refs, per, i + 1);
      CountCorrectAppend(results, item);
      results := results + [item];
      if item.isCorrect { count := count + 1; }
      i := i + 1;
    }
  }

  /** scoreGapFilling: one pass over the gaps, counting normalised matches. */
  method ScoreGapFilling(user: Json, correct: Json, maxScore: real) returns (r: ScoreResult)
    requires maxScore > 0.0
    ensures r == GapFillingSpec(user, correct, maxScore)
  {
    if !Truthy(correct) { return Zero(NoCorrectAnswers); }
    var refs: seq<Json>;
    if correct.Arr? {
      refs := correct.items;
    } else if correct.Obj? {
      refs := Values(correct);
    } else {
      return Zero(InvalidCorrectAnswers);
    }
    assert ReferenceList(correct) == Some(refs);
    var total := |refs|;
    if total == 0 { return Zero(NoGaps); }
    if !Truthy(user) { return Zero(NoUserAnswers); }
    var per := maxScore / total as real;
    var results, count := GapLoop(GapUserList(user, total), refs, per);
    var score := Share(count, total, maxScore);
    r := ScoreResult(score, Percent(score, maxScore), Tally(count, total, GapsFilled), Items(results));
    assert r == GapPartial(GapUserList(user, total), refs, maxScore);
  }

  /**
   * The score stays within [0, maxScore], a missing answer scores 0, and a
   * per-gap result only comes from truthy references and answers, as the
   * partial credit of GapPartialMarks.
   */
  lemma GapFillingCredit(user: Json, correct: Json, maxScore: real)
    requires maxScore > 0.0
    ensures var r := GapFillingSpec(user, correct, maxScore);
      && 0.0 <= r.score <= maxScore
      && (!Truthy(user) ==> r.score == 0.0)
      && (r.details.Items? ==>
            && Truthy(correct) && Truthy(user)
            && ReferenceList(correct).Some? && |ReferenceList(correct).value| > 0
            && r == GapPartial(GapUserList(user, |ReferenceList(correct).value|), ReferenceList(correct).value, maxScore))
  {
    var r := GapFillingSpec(user, correct, maxScore);
    if !Truthy(correct) || ReferenceList(correct).None? {
      assert r.score == 0.0 && !r.details.Items?;
    } else {
      var refs := ReferenceList(correct).value;
      if |refs| == 0 || !Truthy(user) {
        assert r.score == 0.0 && !r.details.Items?;
      } else {
        GapPartialMarks(GapUserList(user, |refs|), refs, maxScore);
      }
    }
  }

  // ================================================================ matching and statement matching

  /** The messages that tell scoreMatching and scoreStatementMatching apart. */
  datatype KeyedLabels = KeyedLabels(noInput: Notice, empty: Notice, phrase: Phrase)

  const MatchingLabels := KeyedLabels(NoMatches, NoItemsToMatch, ItemsMatched)
  const StatementLabels := KeyedLabels(NoStatementAnswers, NoStatements, StatementsAnswered)

  /** `correctMatch.toString()` throws when the user entry is truthy and the reference is undefined or null. */
  predicate KeyedThrows(user: Json, e: (string, Json)) {
    Truthy(Get(user, e.0)) && ToText(e.1).None?
  }

  /** Whether one of the first n entries throws, which stops the loop at that entry. */
  predicate AnyThrows(user: Json, es: seq<(string, Json)>, n: nat)
    requires n <= |es|
  {
    n > 0 && (AnyThrows(user, es, n - 1) || KeyedThrows(user, es[n - 1]))
  }

  /** A throw among the first n entries is a throw among the first m >= n. */
  lemma {:induction false} AnyThrowsGrows(user: Json, es: seq<(string, Json)>, n: nat, m: nat)
    requires n <= m <= |es| && AnyThrows(user, es, n)
    ensures AnyThrows(user, es, m)
  {
    if n < m { AnyThrowsGrows(user, es, n, m - 1); }
  }

  /** One throwing entry makes the whole loop throw. */
  lemma ThrowingEntry(user: Json, es: seq<(string, Json)>, i: nat)
    requires i < |es| && KeyedThrows(user, es[i])
    ensures AnyThrows(user, es, |es|)
  {
    assert AnyThrows(user, es, i + 1);
    AnyThrowsGrows(user, es, i + 1, |es|);
  }

  /** The scorer throws exactly when some entry the user answered has no reference text. */
  lemma {:induction false} AnyThrowsExactly(user: Json, es: seq<(string, Json)>, n: nat)
    requires n <= |es|
    ensures AnyThrows(user, es, n) <==> exists i :: 0 <= i < n && KeyedThrows(user, es[i])
  {
    if n > 0 {
      AnyThrowsExactly(user, es, n - 1);
      if KeyedThrows(user, es[n - 1]) {
        assert AnyThrows(user, es, n);
      } else if exists i :: 0 <= i < n && KeyedThrows(user, es[i]) {
        var i :| 0 <= i < n && KeyedThrows(user, es[i]);
        assert i < n - 1;
      }
    }
  }

  function KeyedItem(user: Json, e: (string, Json), per: real): ItemResult {
    var u := Get(user, e.0);
    var ok := Truthy(u) && SameAnswer(u, e.1);
    ItemResult(e.0, Or(u, Str("")), e.1, ok, if ok then per else 0.0)
  }

  /** The results of the first n reference entries, in entry order. */
  function KeyedItems(user: Json, es: seq<(string, Json)>, per: real, n: nat): (rs: seq<ItemResult>)
    requires n <= |es|
    ensures |rs| == n
  {
    if n == 0 then [] else KeyedItems(user, es, per, n - 1) + [KeyedItem(user, es[n - 1], per)]
  }

  /** Result i of the keyed results is the result of entry i. */
  lemma {:induction false} KeyedItemsAt(user: Json, es: seq<(string, Json)>, per: real, n: nat, i: nat)
    requires i < n <= |es|
    ensures KeyedItems(user, es, per, n)[i] == KeyedItem(user, es[i], per)
  {
    if i < n - 1 { KeyedItemsAt(user, es, per, n - 1, i); }
  }

  /** What scoreMatching and scoreStatementMatching compute over the reference map's entries. */
  function KeyedSpec(user: Json, correct: Json, maxScore: real, labels: KeyedLabels): Outcome
    requires maxScore > 0.0
  {
    if !Truthy(user) || !Truthy(correct) then Scored(Zero(labels.noInput))
    else
      var es := Entries(correct);
      if |es| == 0 then Scored(Zero(labels.empty))
      else if AnyThrows(user, es, |es|) then Throws
      else Scored(PartialCredit(KeyedItems(user, es, maxScore / |es| as real, |es|), |es|, maxScore, labels.phrase))
  }

  /** The state of the keyed loop after i entries: their items, the count of correct ones, and no throw so far. */
  predicate KeyedPrefix(user: Json, es: seq<(string, Json)>, per: real, i: nat, results: seq<ItemResult>, count: nat) {
    i <= |es| && results == KeyedItems(user, es, per, i) && count == CountCorrect(results) && !AnyThrows(user, es, i)
  }

  /** One more entry that does not throw extends the results by its own item and the count by its mark. */
  lemma KeyedStep(user: Json, es: seq<(string, Json)>, per: real, i: nat, results: seq<ItemResult>, count: nat)
    requires i < |es| && KeyedPrefix(user, es, per, i, results, count) && !KeyedThrows(user, es[i])
    ensures var item := KeyedItem(user, es[i], per);
      KeyedPrefix(user, es, per, i + 1, results + [item], count + if item.isCorrect then 1 else 0)
  {
    CountCorrectAppend(results, KeyedItem(user, es[i], per));
  }

  /** The `Object.entries(reference).forEach` loop shared by the two keyed scorers; `throws` when `toString` would. */
  method KeyedLoop(user: Json, es: seq<(string, Json)>, per: real) returns (throws: bool, results: seq<ItemResult>, count: nat)
    ensures throws <==> AnyThrows(user, es, |es|)
    ensures !throws ==> results == KeyedItems(user, es, per, |es|) && count == CountCorrect(results)
  {
    count := 0;
    results := [];
    var i := 0;
    while i < |es|
      invariant KeyedPrefix(user, es, per, i, results, count)
    {
      if KeyedThrows(user, es[i]) {
        ThrowingEntry(user, es, i);
        return true, results, count;
      }
      var item := KeyedItem(user, es[i], per);
      KeyedStep(user, es, per, i, results, count);
      results := results + [item];
      count := count + if item.isCorrect then 1 else 0;
      i := i + 1;
    }
    throws := false;
  }

  /** The body shared by scoreMatching and scoreStatementMatching. */
  method ScoreKeyed(user: Json, correct: Json, maxScore: real, labels: KeyedLabels) returns (o: Outcome)
    requires maxScore > 0.0
    ensures o == KeyedSpec(user, correct, maxScore, labels)
  {
    if !Truthy(user) || !Truthy(correct) { return Scored(Zero(labels.noInput)); }
    var es := Entries(correct);
    var total := |es|;
    if total == 0 { return Scored(Zero(labels.empty)); }
    var per := maxScore / total as real;
    var throws, results, count := KeyedLoop(user, es, per);
    if throws { return Throws; }
    var score := Share(count, total, maxScore);
    o := Scored(ScoreResult(score, Percent(score, maxScore), Tally(count, total, labels.phrase), Items(results)));
  }

  /** scoreMatching. */
  method ScoreMatching(user: Json, correct: Json, maxScore: real) returns (o: Outcome)
    requires maxScore > 0.0
    ensures o == KeyedSpec(user, correct, maxScore, MatchingLabels)
  {
    o := ScoreKeyed(user, correct, maxScore, MatchingLabels);
  }

  /** scoreStatementMatching. */
  method ScoreStatementMatching(user: Json, correct: Json, maxScore: real) returns (o: Outcome)
    requires maxScore > 0.0
    ensures o == KeyedSpec(user, correct, maxScore, StatementLabels)
  {
    o := ScoreKeyed(user, correct, maxScore, StatementLabels);
  }

  /**
   * Only keys of the reference map are scored; an item counts as correct exactly
   * when the user's entry under its key is truthy and matches after normalisation.
   */
  lemma KeyedCredit(user: Json, correct: Json, maxScore: real, labels: KeyedLabels, i: nat)
    requires maxScore > 0.0
    requires KeyedSpec(user, correct, maxScore, labels).Scored?
    ensures var r := KeyedSpec(user, correct, maxScore, labels).result;
      && 0.0 <= r.score <= maxScore
      && (r.details.Items? ==>
            && |r.details.results| == |Entries(correct)|
            && r.feedback == Tally(CountCorrect(r.details.results), |Entries(correct)|, labels.phrase)
            && (i < |Entries(correct)| ==>
                  && r.details.results[i].key == Entries(correct)[i].0
                  && (r.details.results[i].isCorrect <==>
                        Truthy(Get(user, Entries(correct)[i].0)) && SameAnswer(Get(user, Entries(correct)[i].0), Entries(correct)[i].1))))
  {
    var es := Entries(correct);
    if Truthy(user) && Truthy(correct) && |es| > 0 {
      var per := maxScore / |es| as real;
      var rs := KeyedItems(user, es, per, |es|);
      assert KeyedSpec(user, correct, maxScore, labels).result == PartialCredit(rs, |es|, maxScore, labels.phrase);
      if i < |es| { KeyedItemsAt(user, es, per, |es|, i); }
    }
  }

  // ================================================================ ordering

  /** `ordered_items.map(item => item.id || item.original_order)`; `None` when it throws. */
  function OrderedItemPositions(v: Json): Option<seq<Json>> {
    match v
    case Arr(items) => ItemPositions(items)
    case _ => None
  }

  /** The mapped positions of an array of ordered items; reading a property of `undefined` or `null` throws. */
  function ItemPositions(items: seq<Json>): (r: Option<seq<Json>>)
    ensures r.Some? ==> |r.value| == |items|
  {
    if items == [] then Some([])
    else if items[0].Undefined? || items[0].Null? then None
    else match ItemPositions(items[1..])
      case None => None
      case Some(rest) => Some([Or(Get(items[0], "id"), Get(items[0], "original_order"))] + rest)
  }

  /** `userOrderArray` of scoreOrdering; `None` when building it throws. */
  function UserOrderList(user: Json): Option<seq<Json>> {
    match user
    case Arr(items) => Some(items)
    case Obj(_) =>
      if Truthy(Get(user, "ordered_items")) then OrderedItemPositions(Get(user, "ordered_items"))
      else if Truthy(Get(user, "order")) then Some(Values(Get(user, "order")))
      else Some(Values(user))
    case _ => Some([])
  }

  /** `userPosition && parseInt(userPosition) === parseInt(correctPosition)`; NaN equals nothing. */
  predicate SamePosition(u: Json, c: Json) {
    Truthy(u) && ParseIntOf(u).Some? && ParseIntOf(u) == ParseIntOf(c)
  }

  function OrderItem(u: Json, c: Json, per: real, i: nat): ItemResult {
    var ok := SamePosition(u, c);
    ItemResult(NatToString(i), Or(u, Str("")), c, ok, if ok then per else 0.0)
  }

  /** The results of the first n positions, which both lists must have. */
  function OrderItems(us: seq<Json>, refs: seq<Json>, per: real, n: nat): (rs: seq<ItemResult>)
    requires n <= |us| && n <= |refs|
    ensures |rs| == n
  {
    if n == 0 then [] else OrderItems(us, refs, per, n - 1) + [OrderItem(us[n - 1], refs[n - 1], per, n - 1)]
  }

  /** Result i of the ordering results is the result of position i. */
  lemma {:induction false} OrderItemsAt(us: seq<Json>, refs: seq<Json>, per: real, n: nat, i: nat)
    requires i < n <= |us| && n <= |refs|
    ensures OrderItems(us, refs, per, n)[i] == OrderItem(us[i], refs[i], per, i)
  {
    if i < n - 1 { OrderItemsAt(us, refs, per, n - 1, i); }
  }

  /** Ordering result i is marked correct exactly when position i parses the same on both sides. */
  lemma OrderItemsMark(us: seq<Json>, refs: seq<Json>, per: real, n: nat)
    requires n <= |us| && n <= |refs|
    ensures forall i :: 0 <= i < n ==>
      (OrderItems(us, refs, per, n)[i].isCorrect <==> SamePosition(us[i], refs[i]))
  {
    forall i | 0 <= i < n
      ensures OrderItems(us, refs, per, n)[i].isCorrect <==> SamePosition(us[i], refs[i])
    {
      OrderItemsAt(us, refs, per, n, i);
    }
  }

  /** The number of positions scoreOrdering compares: the shorter of the two lists. */
  function Compared(us: seq<Json>, refs: seq<Json>): (n: nat)
    ensures n <= |us| && n <= |refs| && (n == |us| || n == |refs|)
  {
    if |us| < |refs| then |us| else |refs|
  }

  /** What scoreOrdering returns. */
  function OrderingSpec(user: Json, correct: Json, maxScore: real): Outcome
    requires maxScore > 0.0
  {
    if !Truthy(correct) then Scored(Zero(NoCorrectOrder))
    else match ReferenceList(correct)
      case None => Scored(Zero(InvalidCorrectOrder))
      case Some(refs) =>
        if |refs| == 0 then Scored(Zero(NoItemsToOrder))
        else if !Truthy(user) then Scored(Zero(NoOrder))
        else match UserOrderList(user)
          case None => Throws
          case Some(us) => Scored(OrderingPartial(us, refs, maxScore))
  }

  /** The partial credit for user positions us against reference positions refs. */
  function OrderingPartial(us: seq<Json>, refs: seq<Json>, maxScore: real): ScoreResult
    requires |refs| > 0 && maxScore > 0.0
  {
    PartialCredit(OrderItems(us, refs, maxScore / |refs| as real, Compared(us, refs)), |refs|, maxScore, ItemsInPosition)
  }

  /** Position i is credited exactly when it parses the same on both sides; the percentage divides by |refs|. */
  lemma OrderingPartialMarks(us: seq<Json>, refs: seq<Json>, maxScore: real)
    requires |refs| > 0 && maxScore > 0.0
    ensures var r := OrderingPartial(us, refs, maxScore);
      && 0.0 <= r.score <= maxScore
      && r.details.Items?
      && |r.details.results| == (if |us| < |refs| then |us| else |refs|)
      && r.percentage == 100.0 * CountCorrect(r.details.results) as real / |refs| as real
      && forall i :: 0 <= i < |r.details.results| ==> (r.details.results[i].isCorrect <==> SamePosition(us[i], refs[i]))
  {
    OrderItemsMark(us, refs, maxScore / |refs| as real, Compared(us, refs));
  }

  /** The `for` loop of scoreOrdering, which stops at the shorter of the two lists. */
  method OrderLoop(us: seq<Json>, refs: seq<Json>, per: real) returns (results: seq<ItemResult>, count: nat)
    ensures results == OrderItems(us, refs, per, Compared(us, refs))
    ensures count == CountCorrect(results)
  {
    count := 0;
    results := [];
    var i := 0;
    while i < |refs| && i < |us|
      invariant 0 <= i <= |refs| && i <= |us|
      invariant results == OrderItems(us, refs, per, i)
      invariant count == CountCorrect(results)
    {
      var item := OrderItem(us[i], refs[i], per, i);
      assert results + [item] == OrderItems(us, refs, per, i + 1);
      CountCorrectAppend(results, item);
      results := results + [item];
      if item.isCorrect { count := count + 1; }
      i := i + 1;
    }
  }

  /** scoreOrdering: compares the first min(n, |user|) positions after parseInt. */
  method ScoreOrdering(user: Json, correct: Json, maxScore: real) returns (o: Outcome)
    requires maxScore > 0.0
    ensures o == OrderingSpec(user, correct, maxScore)
  {
    if !Truthy(correct) { return Scored(Zero(NoCorrectOrder)); }
    var refs: seq<Json>;
    if correct.Arr? {
      refs := correct.items;
    } else if correct.Obj? {
      refs := Values(correct);
    } else {
      return Scored(Zero(InvalidCorrectOrder));
    }
    assert ReferenceList(correct) == Some(refs);
    var total := |refs|;
    if total == 0 { return Scored(Zero(NoItemsToOrder)); }
    if !Truthy(user) { return Scored(Zero(NoOrder)); }
    var list := UserOrderList(user);
    if list.None? { return Throws; }
    var per := maxScore / total as real;
    var results, count := OrderLoop(list.value, refs, per);
    var score := Share(count, total, maxScore);
    o := Scored(ScoreResult(score, Percent(score, maxScore), Tally(count, total, ItemsInPosition), Items(results)));
    assert o == Scored(OrderingPartial(list.value, refs, maxScore));
  }

  /**
   * The score stays within [0, maxScore], and a per-position result only comes
   * from a non-empty reference list and a user list that could be read, as the
   * partial credit of OrderingPartialMarks: only min(n, |user|) positions are
   * compared, yet the share divides by n.
   */
  lemma OrderingCredit(user: Json, correct: Json, maxScore: real)
    requires maxScore > 0.0
    requires OrderingSpec(user, correct, maxScore).Scored?
    ensures var r := OrderingSpec(user, correct, maxScore).result;
      && 0.0 <= r.score <= maxScore
      && (r.details.Items? ==>
            && Truthy(correct) && Truthy(user)
            && ReferenceList(correct).Some? && |ReferenceList(correct).value| > 0
            && UserOrderList(user).Some?
            && r == OrderingPartial(UserOrderList(user).value, ReferenceList(correct).value, maxScore))
  {
    var r := OrderingSpec(user, correct, maxScore).result;
    if !Truthy(correct) || ReferenceList(correct).None? {
      assert r.score == 0.0 && !r.details.Items?;
    } else {
      var refs := ReferenceList(correct).value;
      if |refs| == 0 || !Truthy(user) {
        assert r.score == 0.0 && !r.details.Items?;
      } else {
        OrderingPartialMarks(UserOrderList(user).value, refs, maxScore);
      }
    }
  }

  /** A position given as a numeral string matches the same number. */
  lemma OrderingParsesPositions(s: string, n: int)
    requires s != "" && ParseInt(s) == Some(n)
    ensures SamePosition(Str(s), Num(n))
  {
    ParseIntOfNum(n);
    assert ToText(Str(s)) == Some(s);
    assert ElementText(Str(s)) == s;
    assert StringOf(Str(s)) == s;
    assert ParseIntOf(Str(s)) == Some(n);
  }

  // ================================================================ writing

  /** The length component of the writing score. */
  function WordCountScore(wc: nat, minWords: int, maxWords: int, targetWords: int): (r: real)
    ensures 0.0 <= r <= 1.0
    ensures wc < minWords ==> r < 0.5
  {
    if wc < minWords then
      assert wc as real < minWords as real;
      DivLessThanOne(wc as real, minWords as real);
      wc as real / minWords as real * 0.5
    else if wc > maxWords then 0.8
    else if wc as real <= targetWords as real * 1.2 then 1.0
    else 0.9
  }

  lemma DivLessThanOne(a: real, b: real)
    requires 0.0 <= a < b
    ensures 0.0 <= a / b < 1.0
  {
  }

  function LengthFeedback(wc: nat, minWords: int, maxWords: int, targetWords: int): LengthNote {
    if wc < minWords then TooShort(wc, minWords)
    else if wc > maxWords then TooLong(wc, maxWords)
    else if wc as real <= targetWords as real * 1.2 then GoodLength(wc)
    else AcceptableLength(wc)
  }

  /** `new Set(words).size / words.length` over `text.toLowerCase().split(/\s+/)` (no trim, no filter). */
  function VocabularyRatio(text: string): real {
    var ws := SplitRuns(ToLower(text), IsSpace);
    (|set w | w in ws|) as real / |ws| as real
  }

  /** The content component: 0.7, plus 0.1 for three sentences, plus 0.1 for varied vocabulary. */
  function ContentScore(text: string): (r: real)
    ensures r == 0.7 || r == 0.8 || r == 0.9
  {
    0.7 + (if SentenceCount(text) >= 3 then 0.1 else 0.0) + (if VocabularyRatio(text) > 0.6 then 0.1 else 0.0)
  }

  /** The unrounded fraction of maxScore a writing answer earns. */
  function WritingFraction(d: Details): real
    requires d.WritingDetails?
  {
    d.wordCountScore * 0.3 + d.contentScore * 0.7
  }

  /** scoreWriting: a blank text scores 0; otherwise a mix of length and content components. */
  function ScoreWriting(text: string, minWords: int, maxWords: int, targetWords: int, maxScore: real): (r: ScoreResult)
    requires maxScore > 0.0
    ensures Blank(text) ==> r == Zero(NoWriting)
    ensures !Blank(text) ==>
      && r.details.WritingDetails?
      && r.details.wordCount == WordCount(text)
      && 0.0 <= r.details.wordCountScore <= 1.0
      && (r.details.contentScore == 0.7 || r.details.contentScore == 0.8 || r.details.contentScore == 0.9)
      && r.score == Round2(Points(WritingFraction(r.details), maxScore))
  {
    if Blank(text) then Zero(NoWriting)
    else
      var wc := WordCount(text);
      var wcs := WordCountScore(wc, minWords, maxWords, targetWords);
      var cs := ContentScore(text);
      var d := WritingDetails(wc, wcs, cs);
      var finalScore := Points(WritingFraction(d), maxScore);
      ScoreResult(Round2(finalScore), Round(Percent(finalScore, maxScore)) as real,
        WritingNote(LengthFeedback(wc, minWords, maxWords, targetWords), Round(cs * 100.0)),
        d)
  }

  /** A graded writing answer earns between 49% and 93% of maxScore before rounding: never full marks. */
  lemma WritingNeverFullMarks(d: Details, maxScore: real)
    requires maxScore > 0.0 && d.WritingDetails?
    requires 0.0 <= d.wordCountScore <= 1.0
    requires d.contentScore == 0.7 || d.contentScore == 0.8 || d.contentScore == 0.9
    ensures 0.49 * maxScore <= Points(WritingFraction(d), maxScore) <= 0.93 * maxScore
  {
    PointsBounds(WritingFraction(d), 0.49, 0.93, maxScore);
  }

  // ================================================================ speaking

  /** The sum of fixed fractions scoreSpeaking adds up for a response. */
  function SpeakingFraction(audioUrl: string, transcription: string): (f: real)
    ensures 0.2 <= f <= 1.0
  {
    (if audioUrl != "" then 0.3 else 0.0)
    + (if !Blank(transcription) then
         (if |RawTokens(transcription)| >= 10 then 0.4 else 0.2)
         + (if SentenceCount(transcription) >= 2 then 0.3 else 0.1)
       else 0.2)
  }

  function SpeakingFeedback(audioUrl: string, transcription: string): seq<SpeakingNote> {
    (if audioUrl != "" then [AudioProvided] else [])
    + (if !Blank(transcription) then
         var wc := |RawTokens(transcription)|;
         [if wc >= 10 then GoodContentLength(wc) else ShortResponse(wc)]
         + [if SentenceCount(transcription) >= 2 then GoodStructure else BasicStructure]
       else [NoTranscription])
  }

  /** scoreSpeaking: presence flags and rough length checks, rounded to hundredths. */
  function ScoreSpeaking(audioUrl: string, transcription: string, maxScore: real): (r: ScoreResult)
    requires maxScore > 0.0
    ensures audioUrl == "" && transcription == "" ==> r == Zero(NoSpeaking)
    ensures audioUrl != "" || transcription != "" ==>
      && r.score == Round2(Points(SpeakingFraction(audioUrl, transcription), maxScore))
      && r.details == SpeakingDetails(audioUrl != "", transcription != "")
  {
    if audioUrl == "" && transcription == "" then Zero(NoSpeaking)
    else
      var score := Points(SpeakingFraction(audioUrl, transcription), maxScore);
      ScoreResult(Round2(score), Round(Percent(score, maxScore)) as real,
        SpeakingNotes(SpeakingFeedback(audioUrl, transcription)),
        SpeakingDetails(audioUrl != "", transcription != ""))
  }

  /** Audio with no usable transcript earns exactly half of maxScore before rounding; nothing ever exceeds it. */
  lemma SpeakingAudioOnly(audioUrl: string, transcription: string, maxScore: real)
    requires maxScore > 0.0 && audioUrl != "" && Blank(transcription)
    ensures SpeakingFraction(audioUrl, transcription) == 0.5
    ensures ScoreSpeaking(audioUrl, transcription, maxScore).score == Round2(0.5 * maxScore)
  {
    assert Points(SpeakingFraction(audioUrl, transcription), maxScore) == 0.5 * maxScore;
  }

  /** The transcript's word count is the plain token count, which equals the word count of a non-blank transcript. */
  lemma SpeakingCountsWords(transcription: string)
    requires !Blank(transcription)
    ensures |RawTokens(transcription)| == WordCount(transcription)
  {
    RawTokenCount(transcription);
  }

  // ================================================================ section aggregation

  /** One question's result as calculateSectionScore reads it; an absent score or maxScore is 0. */
  datatype QuestionScore = QuestionScore(score: real, maxScore: real, percentage: real)

  datatype SectionScore = SectionScore(score: real, percentage: int, totalQuestions: nat, correctAnswers: nat)

  /** `Σ (qs.score || 0)`. */
  function SumScores(qs: seq<QuestionScore>): real {
    if qs == [] then 0.0 else SumScores(qs[..|qs| - 1]) + qs[|qs| - 1].score
  }

  /** `qs.maxScore || 1`. */
  function MaxOrOne(q: QuestionScore): real {
    if q.maxScore != 0.0 then q.maxScore else 1.0
  }

  /** `Σ (qs.maxScore || 1)`. */
  function SumMax(qs: seq<QuestionScore>): real {
    if qs == [] then 0.0 else SumMax(qs[..|qs| - 1]) + MaxOrOne(qs[|qs| - 1])
  }

  /** Number of results with percentage at least 80. */
  function CountAtLeast80(qs: seq<QuestionScore>): (n: nat)
    ensures n <= |qs|
  {
    if qs == [] then 0 else CountAtLeast80(qs[..|qs| - 1]) + (if qs[|qs| - 1].percentage >= 80.0 then 1 else 0)
  }

  /** With every maxScore non-negative (0 counting as 1) the denominator is positive. */
  lemma {:induction false} SumMaxPositive(qs: seq<QuestionScore>)
    requires forall i :: 0 <= i < |qs| ==> qs[i].maxScore >= 0.0
    ensures SumMax(qs) >= 0.0
    ensures qs != [] ==> SumMax(qs) > 0.0
  {
    if qs != [] {
      SumMaxPositive(qs[..|qs| - 1]);
    }
  }

  /** `totalMaxScore > 0 ? (totalScore / totalMaxScore) * maxSectionScore : 0`, before rounding. */
  function SectionShare(qs: seq<QuestionScore>, maxSectionScore: real): real {
    if SumMax(qs) > 0.0 then SumScores(qs) / SumMax(qs) * maxSectionScore else 0.0
  }

  /** `maxSectionScore > 0 ? (normalizedScore / maxSectionScore) * 100 : 0`, before rounding. */
  function SectionPercent(normalized: real, maxSectionScore: real): real {
    if maxSectionScore > 0.0 then Percent(normalized, maxSectionScore) else 0.0
  }

  /**
   * calculateSectionScore: the section's share of its maximum, rounded to
   * hundredths, its percentage, and the number of questions at 80% or more.
   * Both divisions are guarded: a non-positive denominator gives 0.
   */
  function CalculateSectionScore(qs: seq<QuestionScore>, maxSectionScore: real): (r: SectionScore)
    ensures qs == [] ==> r == SectionScore(0.0, 0, 0, 0)
    ensures r.totalQuestions == |qs| && r.correctAnswers <= r.totalQuestions
    ensures qs != [] ==> r.correctAnswers == CountAtLeast80(qs)
    ensures SumMax(qs) <= 0.0 ==> r.score == 0.0 && r.percentage == 0
    ensures maxSectionScore <= 0.0 ==> r.percentage == 0
    ensures r.score == Round2(SectionShare(qs, maxSectionScore))
    ensures SumMax(qs) > 0.0 && maxSectionScore > 0.0 ==> r.percentage == Round(SumScores(qs) / SumMax(qs) * 100.0)
  {
    if qs == [] then SectionScore(0.0, 0, 0, 0)
    else
      var normalized := SectionShare(qs, maxSectionScore);
      SectionPercentOfShare(qs, maxSectionScore);
      assert SumMax(qs) <= 0.0 ==> normalized == 0.0 && Round(0.0 * 100.0) == 0 && Round(0.0) == 0;
      SectionScore(Round2(normalized), Round(SectionPercent(normalized, maxSectionScore)), |qs|, CountAtLeast80(qs))
  }

  /** The section percentage is the same whatever the positive section maximum: it is Σscore / Σmax in percent. */
  lemma SectionPercentageIgnoresSectionMax(qs: seq<QuestionScore>, m1: real, m2: real)
    requires m1 > 0.0 && m2 > 0.0
    ensures CalculateSectionScore(qs, m1).percentage == CalculateSectionScore(qs, m2).percentage
  {
  }

  /** With non-negative maxScores a non-empty section always has a positive denominator. */
  lemma SectionDenominatorPositive(qs: seq<QuestionScore>, maxSectionScore: real)
    requires qs != [] && forall i :: 0 <= i < |qs| ==> qs[i].maxScore >= 0.0
    ensures SumMax(qs) > 0.0
    ensures SectionShare(qs, maxSectionScore) == SumScores(qs) / SumMax(qs) * maxSectionScore
  {
    SumMaxPositive(qs);
  }

  /** The percentage of the section's share is Σscore / Σmax in percent. */
  lemma SectionPercentOfShare(qs: seq<QuestionScore>, m: real)
    ensures m > 0.0 && SumMax(qs) > 0.0 ==> SectionPercent(SectionShare(qs, m), m) == SumScores(qs) / SumMax(qs) * 100.0
  {
    if m > 0.0 && SumMax(qs) > 0.0 {
      var f := SumScores(qs) / SumMax(qs);
      assert SectionShare(qs, m) == f * m;
      PercentOfFraction(f, m);
    }
  }

  // ================================================================ questions and answers

  /** A question option: `option_text`, `option_id` and `is_correct`. */
  datatype Choice = Choice(optionText: string, optionId: Json, isCorrect: bool)

  /**
   * A question item. `itemOrder` is `item_order || 0` (an absent order is 0),
   * `answerText` is '' when absent, `sampleAnswers` holds each sample answer's `answer_text`.
   */
  datatype Item = Item(id: int, itemOrder: int, answerText: string, sampleAnswers: seq<Json>)

  /**
   * A question as a value. `typeCode` is `question_type.code` ('' when absent),
   * `code` is `question.code`; word criteria are 0 when absent.
   */
  datatype Question = Question(
    typeCode: string, code: string,
    options: Option<seq<Choice>>,
    questionItems: Option<seq<Item>>, items: Option<seq<Item>>,
    minWords: int, maxWords: int, targetWords: int)

  /** A submitted answer; absent strings are ''. */
  datatype Answer = Answer(answerJson: string, textAnswer: string, audioUrl: string, transcribedText: string)

  /** `question.question_type?.code || question.code`. */
  function QuestionType(q: Question): string {
    if q.typeCode != "" then q.typeCode else q.code
  }

  /** The sort key of `(a, b) => (a.item_order || 0) - (b.item_order || 0)`. */
  function OrderKey(it: Item): int { it.itemOrder }

  /** The parsed answer: `JSON.parse(answer_json)` when present, else `text_answer`; `None` when parsing throws. */
  function UserAnswer(a: Answer, parse: Parser): Option<Json> {
    if a.answerJson != "" then parse(a.answerJson) else Some(Str(a.textAnswer))
  }

  function FirstCorrect(options: seq<Choice>): (r: Option<Choice>)
    ensures r.Some? ==> r.value in options && r.value.isCorrect
    ensures r.None? ==> forall i :: 0 <= i < |options| ==> !options[i].isCorrect
  {
    if options == [] then None
    else if options[0].isCorrect then Some(options[0])
    else
      var r := FirstCorrect(options[1..]);
      assert forall i :: 1 <= i < |options| ==> options[i] == options[1..][i - 1];
      r
  }

  /** `correctOption?.option_text || correctOption?.option_id`. */
  function CorrectOption(options: Option<seq<Choice>>): Json {
    if options.None? then Undefined
    else match FirstCorrect(options.value)
      case None => Undefined
      case Some(c) => if c.optionText != "" then Str(c.optionText) else c.optionId
  }

  /** The items the gap and ordering branches sort and read: `question_items`, else `items`. */
  function SortableItems(q: Question): seq<Item> {
    if q.questionItems.Some? then q.questionItems.value
    else if q.items.Some? then q.items.value
    else []
  }

  /** Gap references: the `answer_text` of each item that has one, in item order. */
  function GapReferences(items: seq<Item>): (refs: seq<Json>)
    ensures |refs| <= |items|
    ensures forall i :: 0 <= i < |refs| ==> refs[i].Str? && refs[i].s != ""
  {
    if items == [] then []
    else
      var last := items[|items| - 1];
      GapReferences(items[..|items| - 1]) + (if last.answerText != "" then [Str(last.answerText)] else [])
  }

  /** Items without an answer text are dropped silently: the reference list has one entry per item exactly when every item has one. */
  lemma {:induction false} GapReferencesComplete(items: seq<Item>)
    ensures |GapReferences(items)| == |items| <==> forall i :: 0 <= i < |items| ==> items[i].answerText != ""
  {
    if items != [] {
      var init := items[..|items| - 1];
      GapReferencesComplete(init);
      assert forall i :: 0 <= i < |init| ==> init[i] == items[i];
    }
  }

  /** Ordering references: `parseInt(answer_text)`, or the item id when that is NaN. */
  function OrderReference(it: Item): Json {
    match ParseInt(it.answerText)
    case None => Num(it.id)
    case Some(p) => Num(p)
  }

  function OrderReferences(items: seq<Item>): (refs: seq<Json>)
    ensures |refs| == |items|
  {
    if items == [] then [] else OrderReferences(items[..|items| - 1]) + [OrderReference(items[|items| - 1])]
  }

  /** `correctMatches[item.id] = item.sample_answers[0].answer_text` for each item that has a sample answer. */
  function SampleAnswerMap(items: seq<Item>): seq<(string, Json)> {
    if items == [] then []
    else
      var init := SampleAnswerMap(items[..|items| - 1]);
      var last := items[|items| - 1];
      if |last.sampleAnswers| > 0 then Assign(init, IntToString(last.id), last.sampleAnswers[0]) else init
  }

  /** The scorer a question type code selects: the `case` labels of autoScoreQuestion's `switch`. */
  datatype Scorer = MCQ | GapFill | Matching | StatementMatching | Ordering | Writing | Speaking | Manual

  function ScorerOf(t: string): Scorer {
    if t == "LISTENING_MCQ" || t == "READING_MCQ" then MCQ
    else if t == "LISTENING_GAP_FILL" || t == "READING_GAP_FILL" then GapFill
    else if t == "LISTENING_MATCHING" || t == "READING_MATCHING" then Matching
    else if t == "LISTENING_STATEMENT_MATCHING" then StatementMatching
    else if t == "READING_ORDERING" then Ordering
    else if t == "WRITING_FORM" || t == "WRITING_LONG" || t == "WRITING_EMAIL" then Writing
    else if t == "SPEAKING_INTRO" || t == "SPEAKING_DESCRIPTION" || t == "SPEAKING_COMPARISON" || t == "SPEAKING_DISCUSSION" then Speaking
    else Manual
  }

  /** The codes autoScoreQuestion has a scorer for. */
  predicate KnownCode(t: string) {
    ScorerOf(t) != Manual
  }

  /** The gap and ordering branches sort the question's items in place before reading them. */
  predicate SortsItems(s: Scorer) { s == GapFill || s == Ordering }

  function ManualScoring(u: Json, maxScore: real): ScoreResult {
    ScoreResult(if Truthy(u) then maxScore * 0.5 else 0.0, if Truthy(u) then 50.0 else 0.0,
      Fixed(ManualScoringRequired), NoDetails)
  }

  /** The gap-filling branch: references from the sorted items, answers from `userAnswer?.gaps || userAnswer`. */
  function GapBranch(q: Question, u: Json, maxScore: real): ScoreResult
    requires maxScore > 0.0
  {
    var refs := GapReferences(Sorting.SortBy(SortableItems(q), OrderKey));
    GapFillingSpec(Or(Get(u, "gaps"), u), Arr(refs), maxScore)
  }

  /** The reference map of both matching branches, built from `question_items` only. */
  function MatchReferences(q: Question): Json {
    Obj(SampleAnswerMap(if q.questionItems.Some? then q.questionItems.value else []))
  }

  function MatchingBranch(q: Question, u: Json, maxScore: real): Outcome
    requires maxScore > 0.0
  {
    KeyedSpec(Or(Get(u, "matches"), u), MatchReferences(q), maxScore, MatchingLabels)
  }

  function StatementBranch(q: Question, u: Json, maxScore: real): Outcome
    requires maxScore > 0.0
  {
    KeyedSpec(Or(Get(u, "statements"), u), MatchReferences(q), maxScore, StatementLabels)
  }

  /**
   * `userAnswer?.order || userAnswer?.ordered_items || userAnswer` as written: an
   * `ordered_items` array of item objects reaches scoreOrdering bare, where every
   * object parses as NaN, so scoreOrdering's own `ordered_items` mapping never runs.
   */
  function OrderingUserAsWritten(u: Json): Json {
    Or(Or(Get(u, "order"), Get(u, "ordered_items")), u)
  }

  /** The argument evidently intended, `userAnswer?.order || userAnswer`, which leaves `ordered_items` to scoreOrdering. */
  function OrderingUser(u: Json): Json {
    Or(Get(u, "order"), u)
  }

  /** With the intended argument, an answer carrying `ordered_items` (and no `order`) is scored on the items' ids. */
  lemma OrderedItemsMapped(u: Json, items: seq<Json>)
    requires u.Obj? && !Truthy(Get(u, "order")) && Get(u, "ordered_items") == Arr(items)
    ensures UserOrderList(OrderingUser(u)) == ItemPositions(items)
    ensures UserOrderList(OrderingUserAsWritten(u)) == Some(items)
  {
  }

  /** The answer `{ordered_items: [{id: 1}]}`. */
  function OrderedItemsAnswer(): Json {
    Obj([("ordered_items", Arr([Obj([("id", Num(1))])]))])
  }

  /** As written, placing the only item first as `ordered_items` earns nothing: the item object parses as NaN. */
  lemma OrderedItemsLostAsWritten(maxScore: real)
    requires maxScore > 0.0
    ensures OrderingSpec(OrderingUserAsWritten(OrderedItemsAnswer()), Arr([Num(1)]), maxScore) == Scored(OrderingPartial([Obj([("id", Num(1))])], [Num(1)], maxScore))
    ensures OrderingSpec(OrderingUserAsWritten(OrderedItemsAnswer()), Arr([Num(1)]), maxScore).result.score == 0.0
  {
    var item := Obj([("id", Num(1))]);
    OrderedItemsUserLists();
    ObjectPositionScoresNothing(item, maxScore);
  }

  /** What each argument makes of `{ordered_items: [{id: 1}]}`: the item object as written, its id as intended. */
  lemma OrderedItemsUserLists()
    ensures var u := OrderedItemsAnswer();
      && Truthy(OrderingUserAsWritten(u)) && UserOrderList(OrderingUserAsWritten(u)) == Some([Obj([("id", Num(1))])])
      && Truthy(OrderingUser(u)) && UserOrderList(OrderingUser(u)) == Some([Num(1)])
  {
    var item := Obj([("id", Num(1))]);
    var u := OrderedItemsAnswer();
    assert Get(u, "order") == Undefined;
    assert Get(u, "ordered_items") == Arr([item]);
    assert OrderingUserAsWritten(u) == Arr([item]) && OrderingUser(u) == u;
    OrderedItemsMapped(u, [item]);
    assert Get(item, "id") == Num(1);
    assert Or(Get(item, "id"), Get(item, "original_order")) == Num(1);
    assert [item][1..] == [];
    assert ItemPositions([item][1..]) == Some([]);
    assert [item][0] == item && [Num(1)] + [] == [Num(1)];
    assert ItemPositions([item]) == Some([Num(1)]);
  }

  /** An object in the first position never matches position 1. */
  lemma ObjectPositionScoresNothing(item: Json, maxScore: real)
    requires item.Obj? && maxScore > 0.0
    ensures OrderingPartial([item], [Num(1)], maxScore).score == 0.0
  {
    ParseIntOfObj(item);
    var rs := OrderItems([item], [Num(1)], maxScore / 1.0, 1);
    assert Compared([item], [Num(1)]) == 1;
    assert rs == [OrderItem(item, Num(1), maxScore / 1.0, 0)];
    assert CountCorrect(rs) == CountCorrect([]) + 0;
  }

  /** Position 1 in the first place earns the whole score. */
  lemma FirstPositionScoresAll(maxScore: real)
    requires maxScore > 0.0
    ensures OrderingPartial([Num(1)], [Num(1)], maxScore).score == maxScore
  {
    ParseIntOfNum(1);
    assert SamePosition(Num(1), Num(1));
    var rs := OrderItems([Num(1)], [Num(1)], maxScore / 1.0, 1);
    assert Compared([Num(1)], [Num(1)]) == 1;
    assert rs == [OrderItem(Num(1), Num(1), maxScore / 1.0, 0)];
    assert CountCorrect(rs) == CountCorrect([]) + 1;
  }

  /** With the intended argument the same answer earns full marks. */
  lemma OrderedItemsScoredCorrected(maxScore: real)
    requires maxScore > 0.0
    ensures OrderingSpec(OrderingUser(OrderedItemsAnswer()), Arr([Num(1)]), maxScore).result.score == maxScore
  {
    OrderedItemsUserLists();
    FirstPositionScoresAll(maxScore);
  }

  /** The ordering case as written: it scores `order || ordered_items || userAnswer`. */
  function OrderingBranch(q: Question, u: Json, maxScore: real): Outcome
    requires maxScore > 0.0
  {
    var refs := OrderReferences(Sorting.SortBy(SortableItems(q), OrderKey));
    OrderingSpec(OrderingUserAsWritten(u), Arr(refs), maxScore)
  }

  /** The ordering case with the intended argument `order || userAnswer`. */
  function OrderingBranchCorrected(q: Question, u: Json, maxScore: real): Outcome
    requires maxScore > 0.0
  {
    var refs := OrderReferences(Sorting.SortBy(SortableItems(q), OrderKey));
    OrderingSpec(OrderingUser(u), Arr(refs), maxScore)
  }

  /** The writing branch with the criteria defaults `min_words || 0`, `max_words || 1000`, `target_words || 100`. */
  function WritingBranch(q: Question, a: Answer, maxScore: real): ScoreResult
    requires maxScore > 0.0
  {
    ScoreWriting(a.textAnswer, q.minWords,
      if q.maxWords != 0 then q.maxWords else 1000, if q.targetWords != 0 then q.targetWords else 100,
      maxScore)
  }

  /** The switch of autoScoreQuestion once the answer is parsed. */
  function Dispatch(q: Question, a: Answer, maxScore: real, u: Json): Outcome
    requires maxScore > 0.0
  {
    match ScorerOf(QuestionType(q))
    case MCQ => Scored(ScoreMCQ(u, CorrectOption(q.options), maxScore))
    case GapFill => Scored(GapBranch(q, u, maxScore))
    case Matching => MatchingBranch(q, u, maxScore)
    case StatementMatching => StatementBranch(q, u, maxScore)
    case Ordering => OrderingBranch(q, u, maxScore)
    case Writing => Scored(WritingBranch(q, a, maxScore))
    case Speaking => Scored(ScoreSpeaking(a.audioUrl, a.transcribedText, maxScore))
    case Manual => Scored(ManualScoring(u, maxScore))
  }

  /** The `catch`: a thrown exception becomes a zero score with an error message. */
  function Caught(o: Outcome): ScoreResult {
    match o
    case Throws => Zero(ScoringError)
    case Scored(r) => r
  }

  /** autoScoreQuestion as a function of the question's value: it never throws. */
  function AutoScore(q: Question, a: Answer, maxScore: real, parse: Parser): ScoreResult
    requires maxScore > 0.0
  {
    match UserAnswer(a, parse)
    case None => Zero(ScoringError)
    case Some(u) => Caught(Dispatch(q, a, maxScore, u))
  }

  // ---------------------------------------------------------------- properties of the dispatcher

  /** A score is a whole number of hundredths. */
  predicate Hundredths(x: real) {
    (x * 100.0).Floor as real == x * 100.0
  }

  /** Rounding to hundredths keeps a value inside [0, m] when m is a whole number of hundredths. */
  lemma Round2Within(x: real, m: real)
    requires 0.0 <= x <= m && Hundredths(m)
    ensures 0.0 <= Round2(x) <= m
  {
    Round2Monotone(0.0, x);
    Round2Monotone(x, m);
    assert Round(m * 100.0) == (m * 100.0).Floor;
    assert Round(0.0 * 100.0) == 0;
  }

  /** A fraction of at most 1 of a whole number of hundredths stays within [0, maxScore] once rounded. */
  lemma RoundedPointsWithin(f: real, maxScore: real)
    requires 0.0 <= f <= 1.0 && maxScore > 0.0 && Hundredths(maxScore)
    ensures 0.0 <= Round2(Points(f, maxScore)) <= maxScore
  {
    PointsBounds(f, 0.0, 1.0, maxScore);
    Round2Within(Points(f, maxScore), maxScore);
  }

  lemma WritingBounds(text: string, minWords: int, maxWords: int, targetWords: int, maxScore: real)
    requires maxScore > 0.0 && Hundredths(maxScore)
    ensures 0.0 <= ScoreWriting(text, minWords, maxWords, targetWords, maxScore).score <= maxScore
  {
    var r := ScoreWriting(text, minWords, maxWords, targetWords, maxScore);
    if !Blank(text) {
      WritingNeverFullMarks(r.details, maxScore);
      Round2Within(Points(WritingFraction(r.details), maxScore), maxScore);
    }
  }

  lemma SpeakingBounds(audioUrl: string, transcription: string, maxScore: real)
    requires maxScore > 0.0 && Hundredths(maxScore)
    ensures 0.0 <= ScoreSpeaking(audioUrl, transcription, maxScore).score <= maxScore
  {
    if audioUrl != "" || transcription != "" {
      var f := SpeakingFraction(audioUrl, transcription);
      RoundedPointsWithin(f, maxScore);
    }
  }

  lemma GapBranchBounds(q: Question, u: Json, maxScore: real)
    requires maxScore > 0.0
    ensures 0.0 <= GapBranch(q, u, maxScore).score <= maxScore
  {
    GapFillingCredit(Or(Get(u, "gaps"), u), Arr(GapReferences(Sorting.SortBy(SortableItems(q), OrderKey))), maxScore);
  }

  lemma KeyedBounds(user: Json, correct: Json, maxScore: real, labels: KeyedLabels)
    requires maxScore > 0.0
    ensures KeyedSpec(user, correct, maxScore, labels).Scored? ==>
      0.0 <= KeyedSpec(user, correct, maxScore, labels).result.score <= maxScore
  {
    if KeyedSpec(user, correct, maxScore, labels).Scored? {
      KeyedCredit(user, correct, maxScore, labels, 0);
    }
  }

  lemma OrderingBranchBounds(q: Question, u: Json, maxScore: real)
    requires maxScore > 0.0
    ensures OrderingBranch(q, u, maxScore).Scored? ==> 0.0 <= OrderingBranch(q, u, maxScore).result.score <= maxScore
  {
    var refs := Arr(OrderReferences(Sorting.SortBy(SortableItems(q), OrderKey)));
    if OrderingSpec(OrderingUserAsWritten(u), refs, maxScore).Scored? {
      OrderingCredit(OrderingUserAsWritten(u), refs, maxScore);
    }
  }

  lemma OrderingBranchCorrectedBounds(q: Question, u: Json, maxScore: real)
    requires maxScore > 0.0
    ensures OrderingBranchCorrected(q, u, maxScore).Scored? ==>
      0.0 <= OrderingBranchCorrected(q, u, maxScore).result.score <= maxScore
  {
    var refs := Arr(OrderReferences(Sorting.SortBy(SortableItems(q), OrderKey)));
    if OrderingSpec(OrderingUser(u), refs, maxScore).Scored? {
      OrderingCredit(OrderingUser(u), refs, maxScore);
    }
  }

  /** Whatever branch the switch takes, the caught score lies in [0, maxScore]. */
  lemma DispatchBounds(q: Question, a: Answer, maxScore: real, u: Json)
    requires maxScore > 0.0 && Hundredths(maxScore)
    ensures 0.0 <= Caught(Dispatch(q, a, maxScore, u)).score <= maxScore
  {
    match ScorerOf(QuestionType(q))
    case MCQ =>
    case GapFill => GapBranchBounds(q, u, maxScore);
    case Matching => KeyedBounds(Or(Get(u, "matches"), u), MatchReferences(q), maxScore, MatchingLabels);
    case StatementMatching => KeyedBounds(Or(Get(u, "statements"), u), MatchReferences(q), maxScore, StatementLabels);
    case Ordering => OrderingBranchBounds(q, u, maxScore);
    case Writing =>
      WritingBounds(a.textAnswer, q.minWords, if q.maxWords != 0 then q.maxWords else 1000,
        if q.targetWords != 0 then q.targetWords else 100, maxScore);
    case Speaking => SpeakingBounds(a.audioUrl, a.transcribedText, maxScore);
    case Manual =>
  }

  /** Every score autoScoreQuestion returns lies in [0, maxScore] when maxScore is a whole number of hundredths. */
  lemma AutoScoreBounds(q: Question, a: Answer, maxScore: real, parse: Parser)
    requires maxScore > 0.0 && Hundredths(maxScore)
    ensures 0.0 <= AutoScore(q, a, maxScore, parse).score <= maxScore
  {
    if UserAnswer(a, parse).Some? {
      DispatchBounds(q, a, maxScore, UserAnswer(a, parse).value);
    }
  }

  /** autoScoreQuestion with the intended ordering argument; every other case is unchanged. */
  function AutoScoreCorrected(q: Question, a: Answer, maxScore: real, parse: Parser): ScoreResult
    requires maxScore > 0.0
  {
    match UserAnswer(a, parse)
    case None => Zero(ScoringError)
    case Some(u) =>
      if ScorerOf(QuestionType(q)) == Ordering then Caught(OrderingBranchCorrected(q, u, maxScore))
      else AutoScore(q, a, maxScore, parse)
  }

  /** The corrected dispatcher keeps every score in [0, maxScore] too. */
  lemma AutoScoreCorrectedBounds(q: Question, a: Answer, maxScore: real, parse: Parser)
    requires maxScore > 0.0 && Hundredths(maxScore)
    ensures 0.0 <= AutoScoreCorrected(q, a, maxScore, parse).score <= maxScore
  {
    AutoScoreBounds(q, a, maxScore, parse);
    if UserAnswer(a, parse).Some? && ScorerOf(QuestionType(q)) == Ordering {
      OrderingBranchCorrectedBounds(q, UserAnswer(a, parse).value, maxScore);
    }
  }

  /**
   * For an ordering answer that carries `ordered_items` and no `order`, the
   * dispatcher as written scores the item objects themselves, the corrected
   * one scores their ids; no other answer is scored differently.
   */
  lemma OrderedItemsDispatch(q: Question, a: Answer, maxScore: real, parse: Parser, items: seq<Json>)
    requires maxScore > 0.0 && ScorerOf(QuestionType(q)) == Ordering
    requires UserAnswer(a, parse).Some?
    requires var u := UserAnswer(a, parse).value;
      u.Obj? && !Truthy(Get(u, "order")) && Get(u, "ordered_items") == Arr(items)
    ensures var refs := Arr(OrderReferences(Sorting.SortBy(SortableItems(q), OrderKey)));
      && AutoScore(q, a, maxScore, parse) == Caught(OrderingSpec(Arr(items), refs, maxScore))
      && AutoScoreCorrected(q, a, maxScore, parse) == Caught(OrderingSpec(UserAnswer(a, parse).value, refs, maxScore))
      && UserOrderList(UserAnswer(a, parse).value) == ItemPositions(items)
  {
    var u := UserAnswer(a, parse).value;
    OrderedItemsMapped(u, items);
    assert OrderingUserAsWritten(u) == Arr(items);
    assert OrderingUser(u) == u;
  }

  /** Outside the ordering case the two dispatchers agree. */
  lemma AutoScoreCorrectedElsewhere(q: Question, a: Answer, maxScore: real, parse: Parser)
    requires maxScore > 0.0 && ScorerOf(QuestionType(q)) != Ordering
    ensures AutoScoreCorrected(q, a, maxScore, parse) == AutoScore(q, a, maxScore, parse)
  {
  }

  /** A malformed answer_json is caught and reported, whatever the question type. */
  lemma ParseFailureIsCaught(q: Question, a: Answer, maxScore: real, parse: Parser)
    requires maxScore > 0.0 && a.answerJson != "" && parse(a.answerJson).None?
    ensures AutoScore(q, a, maxScore, parse) == Zero(ScoringError)
  {
  }

  /** A READING_MATCHING question with one item whose first sample answer is undefined. */
  function UndefinedSampleQuestion(id: int): Question {
    Question("READING_MATCHING", "", None, Some([Item(id, 1, "", [Undefined])]), None, 0, 0, 0)
  }

  /** `{"matches": {"<id>": "A"}}`: an answer to that item. */
  function MatchAnswer(id: int): Json {
    Obj([("matches", Obj([(IntToString(id), Str("A"))]))])
  }

  /** `toString` of the undefined reference throws inside scoreMatching. */
  lemma UndefinedSampleThrows(id: int, maxScore: real)
    requires maxScore > 0.0
    ensures MatchingBranch(UndefinedSampleQuestion(id), MatchAnswer(id), maxScore) == Throws
  {
    var q := UndefinedSampleQuestion(id);
    var k := IntToString(id);
    var items := [Item(id, 1, "", [Undefined])];
    assert items[..0] == [];
    assert Assign([], k, Undefined) == [(k, Undefined)];
    assert SampleAnswerMap(items) == [(k, Undefined)];
    var matches := Obj([(k, Str("A"))]);
    assert Get(MatchAnswer(id), "matches") == matches;
    assert Get(matches, k) == Str("A");
    var es := Entries(MatchReferences(q));
    assert KeyedThrows(matches, es[0]);
    assert AnyThrows(matches, es, 1);
  }

  /**
   * A matching item whose first sample answer has no answer_text makes
   * scoreMatching throw once the user has answered it; the error is reported.
   */
  lemma MissingSampleTextIsCaught(id: int, maxScore: real, parse: Parser)
    requires maxScore > 0.0
    requires parse("{\"matches\":{\"" + IntToString(id) + "\":\"A\"}}") == Some(MatchAnswer(id))
    ensures AutoScore(UndefinedSampleQuestion(id), Answer("{\"matches\":{\"" + IntToString(id) + "\":\"A\"}}", "", "", ""), maxScore, parse)
      == Zero(ScoringError)
  {
    var q := UndefinedSampleQuestion(id);
    var a := Answer("{\"matches\":{\"" + IntToString(id) + "\":\"A\"}}", "", "", "");
    UndefinedSampleThrows(id, maxScore);
    assert UserAnswer(a, parse) == Some(MatchAnswer(id));
    assert ScorerOf(QuestionType(q)) == Matching;
    assert Dispatch(q, a, maxScore, MatchAnswer(id)) == Throws;
  }

  /** Codes with no scorer, the seeded GV_MCQ and READING_TRUE_FALSE among them, get half marks for any truthy answer. */
  lemma UnknownCodesGetHalfCredit(q: Question, a: Answer, maxScore: real, parse: Parser)
    requires maxScore > 0.0 && !KnownCode(QuestionType(q)) && UserAnswer(a, parse).Some?
    ensures var r := AutoScore(q, a, maxScore, parse);
      && r.score == (if Truthy(UserAnswer(a, parse).value) then 0.5 * maxScore else 0.0)
      && r.feedback == Fixed(ManualScoringRequired)
  {
  }

  lemma UnscoredSeededCodes()
    ensures !KnownCode("GV_MCQ") && !KnownCode("READING_TRUE_FALSE")
  {
  }

  lemma UnscoredWritingCodes()
    ensures !KnownCode("WRITING_SHORT") && !KnownCode("WRITING_ESSAY")
  {
  }

  /** The question value after the gap or ordering branch of autoScoreQuestion has sorted its items. */
  function SortedItems(q: Question): (s: Question)
    ensures SortableItems(s) == Sorting.SortBy(SortableItems(q), OrderKey)
  {
    if q.questionItems.Some? then q.(questionItems := Some(Sorting.SortBy(q.questionItems.value, OrderKey)))
    else if q.items.Some? then q.(items := Some(Sorting.SortBy(q.items.value, OrderKey)))
    else q
  }

  /** The gap and ordering branches read the items through a sort, so pre-sorted items change nothing. */
  lemma SortedItemsBranches(q: Question, u: Json, maxScore: real)
    requires maxScore > 0.0
    ensures GapBranch(SortedItems(q), u, maxScore) == GapBranch(q, u, maxScore)
    ensures OrderingBranch(SortedItems(q), u, maxScore) == OrderingBranch(q, u, maxScore)
  {
    Sorting.SortByIdempotent(SortableItems(q), OrderKey);
  }

  /** The two cases of the switch that sort the items. */
  lemma DispatchSorting(q: Question, a: Answer, maxScore: real, u: Json)
    requires maxScore > 0.0 && SortsItems(ScorerOf(QuestionType(q)))
    ensures ScorerOf(QuestionType(q)) == GapFill ==> Dispatch(q, a, maxScore, u) == Scored(GapBranch(q, u, maxScore))
    ensures ScorerOf(QuestionType(q)) == Ordering ==> Dispatch(q, a, maxScore, u) == OrderingBranch(q, u, maxScore)
  {
  }

  /** Scoring a question whose items autoScoreQuestion already sorted gives the same result: the in-place sort is idempotent. */
  lemma AutoScoreAfterSort(q: Question, a: Answer, maxScore: real, parse: Parser)
    requires maxScore > 0.0 && SortsItems(ScorerOf(QuestionType(q)))
    ensures AutoScore(SortedItems(q), a, maxScore, parse) == AutoScore(q, a, maxScore, parse)
  {
    var sq := SortedItems(q);
    assert QuestionType(sq) == QuestionType(q);
    if UserAnswer(a, parse).Some? {
      var u := UserAnswer(a, parse).value;
      SortedItemsBranches(q, u, maxScore);
      DispatchSorting(q, a, maxScore, u);
      DispatchSorting(sq, a, maxScore, u);
    }
  }

  // ================================================================ the imperative dispatcher

  /** A question object whose item lists are arrays that autoScoreQuestion may sort in place. */
  datatype QuestionObject = QuestionObject(
    typeCode: string, code: string,
    options: Option<seq<Choice>>,
    questionItems: Option<array<Item>>, items: Option<array<Item>>,
    minWords: int, maxWords: int, targetWords: int)

  function ItemArrays(q: QuestionObject): set<object> {
    (if q.questionItems.Some? then {q.questionItems.value} else {})
    + (if q.items.Some? then {q.items.value} else {})
  }

  /** The array the gap and ordering branches sort: `question_items`, else `items`. */
  function SortTarget(q: QuestionObject): set<object> {
    if q.questionItems.Some? then {q.questionItems.value}
    else if q.items.Some? then {q.items.value}
    else {}
  }

  /** The question's current value. */
  function Snapshot(q: QuestionObject): Question
    reads ItemArrays(q)
  {
    Question(q.typeCode, q.code, q.options,
      if q.questionItems.Some? then Some(q.questionItems.value[..]) else None,
      if q.items.Some? then Some(q.items.value[..]) else None,
      q.minWords, q.maxWords, q.targetWords)
  }

  /** The items the gap and ordering branches read, in the object's current state. */
  function CurrentItems(q: QuestionObject): seq<Item>
    reads ItemArrays(q)
  {
    SortableItems(Snapshot(q))
  }

  /** The gap branch's `forEach`: push each truthy `answer_text`. */
  method CollectGapReferences(a: array<Item>) returns (refs: seq<Json>)
    ensures refs == GapReferences(a[..])
  {
    refs := [];
    var i := 0;
    while i < a.Length
      invariant 0 <= i <= a.Length
      invariant refs == GapReferences(a[..i])
    {
      assert a[..i + 1][..i] == a[..i];
      if a[i].answerText != "" {
        refs := refs + [Str(a[i].answerText)];
      }
      i := i + 1;
    }
    assert a[..] == a[..a.Length];
  }

  /** The ordering branch's `forEach`: push `parseInt(answer_text)`, or the id when that is NaN. */
  method CollectOrderReferences(a: array<Item>) returns (refs: seq<Json>)
    ensures refs == OrderReferences(a[..])
  {
    refs := [];
    var i := 0;
    while i < a.Length
      invariant 0 <= i <= a.Length
      invariant refs == OrderReferences(a[..i])
    {
      var position := ParseInt(a[i].answerText);
      assert a[..i + 1][..i] == a[..i];
      assert OrderReference(a[i]) == if position.None? then Num(a[i].id) else Num(position.value);
      refs := refs + [if position.None? then Num(a[i].id) else Num(position.value)];
      i := i + 1;
    }
    assert a[..] == a[..a.Length];
  }

  /** The matching branches' `forEach`: `correctMatches[item.id] = sample_answers[0].answer_text`. */
  method CollectSampleAnswers(a: array<Item>) returns (fields: seq<(string, Json)>)
    ensures fields == SampleAnswerMap(a[..])
  {
    fields := [];
    var i := 0;
    while i < a.Length
      invariant 0 <= i <= a.Length
      invariant fields == SampleAnswerMap(a[..i])
    {
      assert a[..i + 1][..i] == a[..i];
      if |a[i].sampleAnswers| > 0 {
        fields := Assign(fields, IntToString(a[i].id), a[i].sampleAnswers[0]);
      }
      i := i + 1;
    }
    assert a[..] == a[..a.Length];
  }

  /** Sorts `question_items` (else `items`) in place by `item_order`. */
  method SortItems(q: QuestionObject) returns (sorted: seq<Item>)
    modifies SortTarget(q)
    ensures sorted == Sorting.SortBy(old(CurrentItems(q)), OrderKey)
    ensures q.questionItems.Some? ==> q.questionItems.value[..] == sorted
    ensures q.questionItems.None? && q.items.Some? ==> q.items.value[..] == sorted
  {
    sorted := [];
    if q.questionItems.Some? {
      Sorting.SortInPlace(q.questionItems.value, OrderKey);
      sorted := q.questionItems.value[..];
    } else if q.items.Some? {
      Sorting.SortInPlace(q.items.value, OrderKey);
      sorted := q.items.value[..];
    }
  }

  /** The gap-filling case of autoScoreQuestion. */
  method ScoreGapQuestion(q: QuestionObject, u: Json, maxScore: real) returns (r: ScoreResult)
    requires maxScore > 0.0
    modifies SortTarget(q)
    ensures r == GapBranch(old(Snapshot(q)), u, maxScore)
    ensures q.questionItems.Some? ==> q.questionItems.value[..] == Sorting.SortBy(old(q.questionItems.value[..]), OrderKey)
    ensures q.questionItems.None? && q.items.Some? ==> q.items.value[..] == Sorting.SortBy(old(q.items.value[..]), OrderKey)
  {
    var sorted := SortItems(q);
    var refs: seq<Json> := [];
    if q.questionItems.Some? {
      refs := CollectGapReferences(q.questionItems.value);
    } else if q.items.Some? {
      refs := CollectGapReferences(q.items.value);
    }
    r := ScoreGapFilling(Or(Get(u, "gaps"), u), Arr(refs), maxScore);
  }

  /** The ordering case of autoScoreQuestion. */
  method ScoreOrderingQuestion(q: QuestionObject, u: Json, maxScore: real) returns (o: Outcome)
    requires maxScore > 0.0
    modifies SortTarget(q)
    ensures o == OrderingBranch(old(Snapshot(q)), u, maxScore)
    ensures q.questionItems.Some? ==> q.questionItems.value[..] == Sorting.SortBy(old(q.questionItems.value[..]), OrderKey)
    ensures q.questionItems.None? && q.items.Some? ==> q.items.value[..] == Sorting.SortBy(old(q.items.value[..]), OrderKey)
  {
    var sorted := SortItems(q);
    var refs: seq<Json> := [];
    if q.questionItems.Some? {
      refs := CollectOrderReferences(q.questionItems.value);
    } else if q.items.Some? {
      refs := CollectOrderReferences(q.items.value);
    }
    o := ScoreOrdering(OrderingUserAsWritten(u), Arr(refs), maxScore);
  }

  /** The two matching cases of autoScoreQuestion. */
  method ScoreMatchingQuestion(q: QuestionObject, u: Json, maxScore: real, statements: bool) returns (o: Outcome)
    requires maxScore > 0.0
    ensures o == if statements then StatementBranch(Snapshot(q), u, maxScore) else MatchingBranch(Snapshot(q), u, maxScore)
  {
    var fields: seq<(string, Json)> := [];
    if q.questionItems.Some? {
      fields := CollectSampleAnswers(q.questionItems.value);
    }
    if statements {
      o := ScoreStatementMatching(Or(Get(u, "statements"), u), Obj(fields), maxScore);
    } else {
      o := ScoreMatching(Or(Get(u, "matches"), u), Obj(fields), maxScore);
    }
  }

  /** The cases of autoScoreQuestion that only read the question object. */
  method ScoreReadOnlyQuestion(q: QuestionObject, a: Answer, maxScore: real, u: Json) returns (r: ScoreResult)
    requires maxScore > 0.0 && !SortsItems(ScorerOf(QuestionType(Snapshot(q))))
    ensures r == Caught(Dispatch(Snapshot(q), a, maxScore, u))
  {
    var t := if q.typeCode != "" then q.typeCode else q.code;
    assert t == QuestionType(Snapshot(q));
    match ScorerOf(t)
    case MCQ =>
      r := ScoreMCQ(u, CorrectOption(q.options), maxScore);
    case Matching =>
      var m := ScoreMatchingQuestion(q, u, maxScore, false);
      r := Caught(m);
    case StatementMatching =>
      var m := ScoreMatchingQuestion(q, u, maxScore, true);
      r := Caught(m);
    case Writing =>
      r := ScoreWriting(a.textAnswer, q.minWords,
        if q.maxWords != 0 then q.maxWords else 1000, if q.targetWords != 0 then q.targetWords else 100, maxScore);
      assert r == WritingBranch(Snapshot(q), a, maxScore);
    case Speaking =>
      r := ScoreSpeaking(a.audioUrl, a.transcribedText, maxScore);
    case Manual =>
      r := ManualScoring(u, maxScore);
  }

  /** The `switch` of autoScoreQuestion on an object whose answer is already parsed. */
  method DispatchQuestion(q: QuestionObject, a: Answer, maxScore: real, u: Json) returns (r: ScoreResult)
    requires maxScore > 0.0
    modifies SortTarget(q)
    ensures r == Caught(Dispatch(old(Snapshot(q)), a, maxScore, u))
    ensures var sorts := SortsItems(ScorerOf(QuestionType(Snapshot(q))));
      && (q.questionItems.Some? ==>
            q.questionItems.value[..] == if sorts then Sorting.SortBy(old(q.questionItems.value[..]), OrderKey) else old(q.questionItems.value[..]))
      && (q.questionItems.None? && q.items.Some? ==>
            q.items.value[..] == if sorts then Sorting.SortBy(old(q.items.value[..]), OrderKey) else old(q.items.value[..]))
  {
    ghost var before := Snapshot(q);
    var t := if q.typeCode != "" then q.typeCode else q.code;
    assert t == QuestionType(before);
    var scorer := ScorerOf(t);
    if scorer == GapFill {
      r := ScoreGapQuestion(q, u, maxScore);
      DispatchSorting(before, a, maxScore, u);
    } else if scorer == Ordering {
      var o := ScoreOrderingQuestion(q, u, maxScore);
      r := Caught(o);
      DispatchSorting(before, a, maxScore, u);
    } else {
      r := ScoreReadOnlyQuestion(q, a, maxScore, u);
    }
    assert QuestionType(Snapshot(q)) == t;
  }

  /**
   * autoScoreQuestion: parses the answer, dispatches on the type code, sorts
   * the gap and ordering items in place and catches every exception.
   */
  method AutoScoreQuestion(q: QuestionObject, a: Answer, maxScore: real, parse: Parser) returns (r: ScoreResult)
    requires maxScore > 0.0
    modifies SortTarget(q)
    ensures r == AutoScore(old(Snapshot(q)), a, maxScore, parse)
    ensures var sorts := UserAnswer(a, parse).Some? && SortsItems(ScorerOf(QuestionType(Snapshot(q))));
      && (q.questionItems.Some? ==>
            q.questionItems.value[..] == if sorts then Sorting.SortBy(old(q.questionItems.value[..]), OrderKey) else old(q.questionItems.value[..]))
      && (q.questionItems.None? && q.items.Some? ==>
            q.items.value[..] == if sorts then Sorting.SortBy(old(q.items.value[..]), OrderKey) else old(q.items.value[..]))
  {
    var parsed := if a.answerJson != "" then parse(a.answerJson) else Some(Str(a.textAnswer));
    if parsed.None? {
      return Zero(ScoringError);
    }
    r := DispatchQuestion(q, a, maxScore, parsed.value);
  }
}
