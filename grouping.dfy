/**
 * Grouping into a plain object of lists, the pattern
 * `if (!grouped[k]) grouped[k] = []; grouped[k].push(x)` that the result
 * page and the exam helpers use. The object is a property list in
 * JavaScript's enumeration order (see `Json.Assign`).
 */
module Grouping {
  import opened Wrappers
  import opened Json

  type Groups<T> = seq<(string, seq<T>)>

  /** The elements of xs whose key is k, in input order. */
  function Members<T>(xs: seq<T>, key: T -> string, k: string): (r: seq<T>)
    ensures |r| <= |xs|
    ensures forall i :: 0 <= i < |r| ==> key(r[i]) == k
  {
    if xs == [] then []
    else Members(xs[..|xs| - 1], key, k) + (if key(xs[|xs| - 1]) == k then [xs[|xs| - 1]] else [])
  }

  /** `grouped[k] = grouped[k] || []; grouped[k].push(x)`. */
  function Push<T>(g: Groups<T>, k: string, x: T): Groups<T> {
    Assign(g, k, match Lookup(g, k) case None => [x] case Some(l) => l + [x])
  }

  /** The object after every element has been pushed under its key. */
  function GroupBy<T>(xs: seq<T>, key: T -> string): Groups<T> {
    if xs == [] then []
    else Push(GroupBy(xs[..|xs| - 1], key), key(xs[|xs| - 1]), xs[|xs| - 1])
  }

  lemma GroupBySnoc<T>(xs: seq<T>, key: T -> string, i: nat)
    requires i < |xs|
    ensures GroupBy(xs[..i + 1], key) == Push(GroupBy(xs[..i], key), key(xs[i]), xs[i])
  {
    assert xs[..i + 1][..i] == xs[..i];
  }

  /**
   * The group under k holds exactly the elements whose key is k, in input
   * order, and a key with no element has no group: grouping is a partition
   * that keeps order.
   */
  lemma {:induction false} GroupByMembers<T>(xs: seq<T>, key: T -> string, k: string)
    ensures Lookup(GroupBy(xs, key), k) == if Members(xs, key, k) == [] then None else Some(Members(xs, key, k))
  {
    if xs != [] {
      var init := xs[..|xs| - 1];
      var x := xs[|xs| - 1];
      GroupByMembers(init, key, k);
      GroupByMembers(init, key, key(x));
      var l := match Lookup(GroupBy(init, key), key(x)) case None => [x] case Some(l) => l + [x];
      LookupAssign(GroupBy(init, key), key(x), l, k);
      assert GroupBy(xs, key) == Assign(GroupBy(init, key), key(x), l);
      if k == key(x) {
        assert l == Members(init, key, k) + [x];
        assert Members(xs, key, k) == Members(init, key, k) + [x];
      } else {
        assert Members(xs, key, k) == Members(init, key, k);
      }
    }
  }

  /** Every element lands in the group of its own key. */
  lemma {:induction false} MemberOfOwnGroup<T>(xs: seq<T>, key: T -> string, i: nat)
    requires i < |xs|
    ensures Lookup(GroupBy(xs, key), key(xs[i])).Some?
    ensures xs[i] in Lookup(GroupBy(xs, key), key(xs[i])).value
  {
    MembersContains(xs, key, i);
    GroupByMembers(xs, key, key(xs[i]));
  }

  lemma {:induction false} MembersContains<T>(xs: seq<T>, key: T -> string, i: nat)
    requires i < |xs|
    ensures xs[i] in Members(xs, key, key(xs[i]))
  {
    if i < |xs| - 1 {
      MembersContains(xs[..|xs| - 1], key, i);
    }
  }

  /** A group only holds elements of the input. */
  lemma {:induction false} MembersFromInput<T>(xs: seq<T>, key: T -> string, k: string)
    ensures forall x :: x in Members(xs, key, k) ==> x in xs
  {
    if xs != [] {
      var init := xs[..|xs| - 1];
      MembersFromInput(init, key, k);
      assert xs == init + [xs[|xs| - 1]];
    }
  }

  /** The group sizes add up to the input length: the pieces of the partition are |xs| elements in all. */
  lemma {:induction false} MembersTotal<T>(xs: seq<T>, key: T -> string, ks: seq<string>)
    requires forall i :: 0 <= i < |xs| ==> key(xs[i]) in ks
    requires forall i, j :: 0 <= i < j < |ks| ==> ks[i] != ks[j]
    ensures SizeSum(xs, key, ks) == |xs|
  {
    if xs != [] {
      var init := xs[..|xs| - 1];
      var x := xs[|xs| - 1];
      MembersTotal(init, key, ks);
      SizeSumStep(init, x, key, ks);
      assert xs == init + [x];
    } else {
      SizeSumEmpty(xs, key, ks);
    }
  }

  lemma {:induction false} SizeSumEmpty<T>(xs: seq<T>, key: T -> string, ks: seq<string>)
    requires xs == []
    ensures SizeSum(xs, key, ks) == 0
  {
    if ks != [] {
      SizeSumEmpty(xs, key, ks[1..]);
    }
  }

  /** The total size of the groups named in ks. */
  function SizeSum<T>(xs: seq<T>, key: T -> string, ks: seq<string>): nat {
    if ks == [] then 0 else |Members(xs, key, ks[0])| + SizeSum(xs, key, ks[1..])
  }

  lemma {:induction false} SizeSumStep<T>(init: seq<T>, x: T, key: T -> string, ks: seq<string>)
    requires forall i, j :: 0 <= i < j < |ks| ==> ks[i] != ks[j]
    ensures SizeSum(init + [x], key, ks) == SizeSum(init, key, ks) + (if key(x) in ks then 1 else 0)
  {
    var xs := init + [x];
    assert xs[..|xs| - 1] == init;
    if ks != [] {
      SizeSumStep(init, x, key, ks[1..]);
      assert key(x) in ks <==> key(x) == ks[0] || key(x) in ks[1..];
      assert key(x) == ks[0] ==> key(x) !in ks[1..];
    }
  }
}
