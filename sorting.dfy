/**
 * `Array.prototype.sort` with a numeric comparator `(a, b) => key(a) - key(b)`.
 * JavaScript's sort is stable, so the result is the insertion sort by key:
 * `SortBy` defines it on sequences, and `SortInPlace` performs it on an array.
 */
module Sorting {

  predicate SortedBy<T>(s: seq<T>, key: T -> int) {
    forall i, j :: 0 <= i < j < |s| ==> key(s[i]) <= key(s[j])
  }

  /** Places `x` after every element whose key is not greater than its own. */
  function Insert<T>(s: seq<T>, x: T, key: T -> int): (r: seq<T>)
    ensures |r| == |s| + 1
  {
    if s == [] || key(s[|s| - 1]) <= key(x) then s + [x]
    else Insert(s[..|s| - 1], x, key) + [s[|s| - 1]]
  }

  function SortBy<T>(s: seq<T>, key: T -> int): (r: seq<T>)
    ensures |r| == |s|
  {
    if s == [] then [] else Insert(SortBy(s[..|s| - 1], key), s[|s| - 1], key)
  }

  lemma {:induction false} InsertPermutes<T>(s: seq<T>, x: T, key: T -> int)
    ensures multiset(Insert(s, x, key)) == multiset(s) + multiset{x}
  {
    if s != [] && key(s[|s| - 1]) > key(x) {
      InsertPermutes(s[..|s| - 1], x, key);
      assert s == s[..|s| - 1] + [s[|s| - 1]];
    }
  }

  /** Inserting a key below a bound into keys below that bound keeps every key below it. */
  lemma {:induction false} InsertBounded<T>(s: seq<T>, x: T, key: T -> int, bound: int)
    requires forall i :: 0 <= i < |s| ==> key(s[i]) <= bound
    requires key(x) <= bound
    ensures forall i :: 0 <= i < |s| + 1 ==> key(Insert(s, x, key)[i]) <= bound
  {
    if s != [] && key(s[|s| - 1]) > key(x) {
      InsertBounded(s[..|s| - 1], x, key, bound);
    }
  }

  lemma {:induction false} InsertSorted<T>(s: seq<T>, x: T, key: T -> int)
    requires SortedBy(s, key)
    ensures SortedBy(Insert(s, x, key), key)
  {
    if s != [] && key(s[|s| - 1]) > key(x) {
      var init, last := s[..|s| - 1], s[|s| - 1];
      InsertSorted(init, x, key);
      InsertBounded(init, x, key, key(last));
      var r := Insert(init, x, key);
      assert Insert(s, x, key) == r + [last];
      forall i, j | 0 <= i < j < |r| + 1 ensures key((r + [last])[i]) <= key((r + [last])[j]) {
        if j == |r| { assert (r + [last])[i] == r[i]; }
      }
    }
  }

  /** The stable sort returns a sorted rearrangement of its input. */
  lemma {:induction false} SortByCorrect<T>(s: seq<T>, key: T -> int)
    ensures SortedBy(SortBy(s, key), key)
    ensures multiset(SortBy(s, key)) == multiset(s)
  {
    if s != [] {
      var init := s[..|s| - 1];
      SortByCorrect(init, key);
      InsertSorted(SortBy(init, key), s[|s| - 1], key);
      InsertPermutes(SortBy(init, key), s[|s| - 1], key);
      assert s == init + [s[|s| - 1]];
    }
  }

  /** Sorting an already sorted sequence changes nothing, so sorting twice is sorting once. */
  lemma {:induction false} SortBySortedIsIdentity<T>(s: seq<T>, key: T -> int)
    requires SortedBy(s, key)
    ensures SortBy(s, key) == s
  {
    if s != [] {
      var init := s[..|s| - 1];
      assert SortedBy(init, key) by {
        forall i, j | 0 <= i < j < |init| ensures key(init[i]) <= key(init[j]) {
          assert init[i] == s[i] && init[j] == s[j];
        }
      }
      SortBySortedIsIdentity(init, key);
      assert init != [] ==> key(init[|init| - 1]) <= key(s[|s| - 1]);
      assert Insert(init, s[|s| - 1], key) == init + [s[|s| - 1]];
      assert s == init + [s[|s| - 1]];
    }
  }

  lemma SortByIdempotent<T>(s: seq<T>, key: T -> int)
    ensures SortBy(SortBy(s, key), key) == SortBy(s, key)
  {
    SortByCorrect(s, key);
    SortBySortedIsIdentity(SortBy(s, key), key);
  }

  lemma InsertStep<T>(prefix: seq<T>, x: T, key: T -> int, j: nat)
    requires 0 < j <= |prefix| && key(prefix[j - 1]) > key(x)
    ensures Insert(prefix[..j], x, key) + prefix[j..] == Insert(prefix[..j - 1], x, key) + prefix[j - 1..]
  {
    assert prefix[..j][..j - 1] == prefix[..j - 1];
    assert prefix[j - 1..] == [prefix[j - 1]] + prefix[j..];
  }

  /** Copying the element left of the gap into it moves the gap one place left. */
  lemma ShiftGap<T>(before: seq<T>, j: nat, prefix: seq<T>, rest: seq<T>)
    requires 0 < j <= |prefix| && j < |before|
    requires before[..j] == prefix[..j] && before[j + 1..] == prefix[j..] + rest
    ensures before[j := before[j - 1]][..j - 1] == prefix[..j - 1]
    ensures before[j := before[j - 1]][j..] == prefix[j - 1..] + rest
  {
    var after := before[j := before[j - 1]];
    assert after[..j - 1] == before[..j][..j - 1];
    assert after[j..] == [before[j - 1]] + before[j + 1..];
    assert prefix[j - 1..] == [prefix[j - 1]] + prefix[j..];
  }

  /** Writing `x` into the gap leaves the prefix, `x`, the shifted tail and the untouched rest. */
  lemma FillGap<T>(before: seq<T>, j: nat, x: T, prefix: seq<T>, rest: seq<T>)
    requires j <= |prefix| && j < |before|
    requires before[..j] == prefix[..j] && before[j + 1..] == prefix[j..] + rest
    ensures before[j := x] == prefix[..j] + [x] + prefix[j..] + rest
  {
    var after := before[j := x];
    assert after[..j] == prefix[..j];
    assert after[j + 1..] == prefix[j..] + rest;
    assert after == after[..j] + [after[j]] + after[j + 1..];
  }

  /** Shifts the elements of `prefix` whose key exceeds `key(x)` one place right and returns the gap left behind. */
  method ShiftLarger<T>(a: array<T>, i: nat, x: T, key: T -> int, ghost prefix: seq<T>, ghost rest: seq<T>)
    returns (j: nat)
    requires i < a.Length && a[..i] == prefix && a[i + 1..] == rest
    modifies a
    ensures j <= i
    ensures a[..j] == prefix[..j] && a[j + 1..] == prefix[j..] + rest
    ensures Insert(prefix, x, key) == prefix[..j] + [x] + prefix[j..]
  {
    j := i;
    assert prefix[..j] == prefix && prefix[j..] == [];
    while j > 0 && key(a[j - 1]) > key(x)
      invariant 0 <= j <= i
      invariant a[..j] == prefix[..j]
      invariant a[j + 1..] == prefix[j..] + rest
      invariant Insert(prefix, x, key) == Insert(prefix[..j], x, key) + prefix[j..]
    {
      assert a[j - 1] == a[..j][j - 1];
      InsertStep(prefix, x, key, j);
      ghost var before := a[..];
      ShiftGap(before, j, prefix, rest);
      a[j] := a[j - 1];
      assert a[..] == before[j := before[j - 1]];
      j := j - 1;
    }
    assert j > 0 ==> a[j - 1] == prefix[..j][j - 1];
    assert Insert(prefix[..j], x, key) == prefix[..j] + [x];
  }

  /** One pass of insertion sort: shifts the larger elements of `a[..i]` right and drops `a[i]` into the gap. */
  method InsertInPlace<T>(a: array<T>, i: nat, key: T -> int)
    requires i < a.Length
    modifies a
    ensures a[..i + 1] == Insert(old(a[..i]), old(a[i]), key)
    ensures a[i + 1..] == old(a[i + 1..])
  {
    ghost var prefix, rest := a[..i], a[i + 1..];
    var x := a[i];
    var j := ShiftLarger(a, i, x, key, prefix, rest);
    FillGap(a[..], j, x, prefix, rest);
    a[j] := x;
    assert a[..i + 1] == (prefix[..j] + [x] + prefix[j..] + rest)[..i + 1];
  }

  /** One insertion pass extends the sorted prefix by the next input element. */
  lemma SortStep<T>(input: seq<T>, before: seq<T>, after: seq<T>, i: nat, key: T -> int)
    requires i < |input| == |before| == |after|
    requires before[..i] == SortBy(input[..i], key) && before[i..] == input[i..]
    requires after[..i + 1] == Insert(before[..i], before[i], key) && after[i + 1..] == before[i + 1..]
    ensures after[..i + 1] == SortBy(input[..i + 1], key) && after[i + 1..] == input[i + 1..]
  {
    assert before[i] == before[i..][0] == input[i];
    assert input[..i + 1][..i] == input[..i];
    assert before[i + 1..] == before[i..][1..];
  }

  /** The stable insertion sort performed in place on an array. */
  method SortInPlace<T>(a: array<T>, key: T -> int)
    modifies a
    ensures a[..] == SortBy(old(a[..]), key)
    ensures SortedBy(a[..], key) && multiset(a[..]) == multiset(old(a[..]))
  {
    ghost var input := a[..];
    var i := 0;
    while i < a.Length
      invariant 0 <= i <= a.Length
      invariant a[..i] == SortBy(input[..i], key)
      invariant a[i..] == input[i..]
    {
      ghost var before := a[..];
      InsertInPlace(a, i, key);
      SortStep(input, before, a[..], i, key);
      i := i + 1;
    }
    assert a[..] == a[..a.Length] && input == input[..a.Length];
    SortByCorrect(input, key);
  }
}
