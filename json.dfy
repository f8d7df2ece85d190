/**
 * JavaScript values as the front ends see them after `JSON.parse` or as
 * object literals: `undefined`, `null`, booleans, integral numbers, strings,
 * arrays and plain objects. Objects are ordered lists of properties in
 * JavaScript's enumeration order: array-index keys in ascending numeric order
 * first, then the other keys in insertion order.
 */
module Json {
  import opened Wrappers
  import opened Text

  datatype Json =
    | Undefined
    | Null
    | Bool(b: bool)
    | Num(n: int)
    | Str(s: string)
    | Arr(items: seq<Json>)
    | Obj(fields: seq<(string, Json)>)

  /** `JSON.parse`: `None` when it throws. */
  type Parser = string -> Option<Json>

  /** JavaScript truthiness: `undefined`, `null`, `false`, `0` and `''` are falsy. */
  predicate Truthy(v: Json) {
    match v
    case Undefined => false
    case Null => false
    case Bool(b) => b
    case Num(n) => n != 0
    case Str(s) => s != ""
    case Arr(_) => true
    case Obj(_) => true
  }

  /** `a || b`. */
  function Or(a: Json, b: Json): Json {
    if Truthy(a) then a else b
  }

  /** `typeof v === 'object' && v !== null` (arrays included). */
  predicate IsObjectLike(v: Json) {
    v.Arr? || v.Obj?
  }

  // ---------------------------------------------------------------- property lists

  function Lookup<V>(fields: seq<(string, V)>, k: string): (r: Option<V>)
    ensures r.Some? <==> exists i :: 0 <= i < |fields| && fields[i].0 == k
  {
    if fields == [] then None
    else if fields[0].0 == k then Some(fields[0].1)
    else
      var r := Lookup(fields[1..], k);
      assert forall i :: 1 <= i < |fields| ==> fields[i] == fields[1..][i - 1];
      r
  }

  /** Keys that JavaScript treats as array indices and enumerates first, in numeric order. */
  predicate IsArrayIndex(k: string) {
    |k| >= 1 && AllDigits(k) && (|k| == 1 || k[0] != '0') && DecimalValue(k) < 0xFFFF_FFFF
  }

  function Replace<V>(fields: seq<(string, V)>, k: string, v: V): (r: seq<(string, V)>)
    ensures |r| == |fields|
  {
    if fields == [] then []
    else if fields[0].0 == k then [(k, v)] + fields[1..]
    else [fields[0]] + Replace(fields[1..], k, v)
  }

  function InsertIndexKey<V>(fields: seq<(string, V)>, k: string, v: V): seq<(string, V)>
    requires IsArrayIndex(k)
  {
    if fields == [] then [(k, v)]
    else if IsArrayIndex(fields[0].0) && DecimalValue(fields[0].0) < DecimalValue(k) then
      [fields[0]] + InsertIndexKey(fields[1..], k, v)
    else [(k, v)] + fields
  }

  /** `obj[k] = v`: an existing property keeps its place; a new one goes where JavaScript enumerates it. */
  function Assign<V>(fields: seq<(string, V)>, k: string, v: V): seq<(string, V)> {
    if Lookup(fields, k).Some? then Replace(fields, k, v)
    else if IsArrayIndex(k) then InsertIndexKey(fields, k, v)
    else fields + [(k, v)]
  }

  lemma {:induction false} LookupReplace<V>(fields: seq<(string, V)>, k: string, v: V, k2: string)
    requires Lookup(fields, k).Some?
    ensures Lookup(Replace(fields, k, v), k2) == if k2 == k then Some(v) else Lookup(fields, k2)
  {
    if fields[0].0 != k {
      LookupReplace(fields[1..], k, v, k2);
    }
  }

  lemma {:induction false} LookupInsert<V>(fields: seq<(string, V)>, k: string, v: V, k2: string)
    requires Lookup(fields, k).None? && IsArrayIndex(k)
    ensures Lookup(InsertIndexKey(fields, k, v), k2) == if k2 == k then Some(v) else Lookup(fields, k2)
  {
    if fields != [] && IsArrayIndex(fields[0].0) && DecimalValue(fields[0].0) < DecimalValue(k) {
      LookupInsert(fields[1..], k, v, k2);
    }
  }

  lemma {:induction false} LookupAppend<V>(fields: seq<(string, V)>, k: string, v: V, k2: string)
    requires Lookup(fields, k).None?
    ensures Lookup(fields + [(k, v)], k2) == if k2 == k then Some(v) else Lookup(fields, k2)
  {
    if fields != [] {
      assert (fields + [(k, v)])[1..] == fields[1..] + [(k, v)];
      LookupAppend(fields[1..], k, v, k2);
    }
  }

  /** After `obj[k] = v`, reading `k` gives `v` and every other key reads as before. */
  lemma LookupAssign<V>(fields: seq<(string, V)>, k: string, v: V, k2: string)
    ensures Lookup(Assign(fields, k, v), k2) == if k2 == k then Some(v) else Lookup(fields, k2)
  {
    if Lookup(fields, k).Some? {
      LookupReplace(fields, k, v, k2);
    } else if IsArrayIndex(k) {
      LookupInsert(fields, k, v, k2);
    } else {
      LookupAppend(fields, k, v, k2);
    }
  }

  /** No key appears twice, as in any JavaScript object. */
  predicate DistinctKeys<V>(fields: seq<(string, V)>) {
    forall i, j :: 0 <= i < j < |fields| ==> fields[i].0 != fields[j].0
  }

  lemma {:induction false} ReplaceKeys<V>(fields: seq<(string, V)>, k: string, v: V)
    ensures forall i :: 0 <= i < |fields| ==> Replace(fields, k, v)[i].0 == fields[i].0
    ensures forall i :: 0 <= i < |fields| ==> Replace(fields, k, v)[i] in {fields[i], (k, v)}
  {
    if fields != [] && fields[0].0 != k {
      ReplaceKeys(fields[1..], k, v);
      var r := Replace(fields, k, v);
      assert r == [fields[0]] + Replace(fields[1..], k, v);
      forall i | 1 <= i < |fields|
        ensures r[i] == Replace(fields[1..], k, v)[i - 1] && fields[i] == fields[1..][i - 1]
      {
      }
    }
  }

  lemma {:induction false} InsertShape<V>(fields: seq<(string, V)>, k: string, v: V)
    requires IsArrayIndex(k)
    ensures exists j :: 0 <= j <= |fields| && InsertIndexKey(fields, k, v) == fields[..j] + [(k, v)] + fields[j..]
  {
    if fields != [] && IsArrayIndex(fields[0].0) && DecimalValue(fields[0].0) < DecimalValue(k) {
      InsertShape(fields[1..], k, v);
      var j :| 0 <= j <= |fields| - 1 && InsertIndexKey(fields[1..], k, v) == fields[1..][..j] + [(k, v)] + fields[1..][j..];
      assert InsertIndexKey(fields, k, v) == fields[..j + 1] + [(k, v)] + fields[j + 1..];
    } else {
      assert InsertIndexKey(fields, k, v) == fields[..0] + [(k, v)] + fields[0..];
    }
  }

  /** A new key placed anywhere among distinct keys keeps them distinct. */
  lemma InsertAtKeepsKeysDistinct<V>(fields: seq<(string, V)>, k: string, v: V, j: nat)
    requires DistinctKeys(fields) && Lookup(fields, k).None? && j <= |fields|
    ensures DistinctKeys(fields[..j] + [(k, v)] + fields[j..])
    ensures forall e :: e in fields[..j] + [(k, v)] + fields[j..] ==> e == (k, v) || e in fields
  {
    var r := fields[..j] + [(k, v)] + fields[j..];
    forall a | 0 <= a < |r|
      ensures r[a] == (if a < j then fields[a] else if a == j then (k, v) else fields[a - 1])
    {
    }
  }

  /** `obj[k] = v` keeps the keys distinct, and each resulting entry is `(k, v)` or an old entry. */
  lemma AssignKeepsKeysDistinct<V>(fields: seq<(string, V)>, k: string, v: V)
    requires DistinctKeys(fields)
    ensures DistinctKeys(Assign(fields, k, v))
    ensures forall e :: e in Assign(fields, k, v) ==> e == (k, v) || e in fields
  {
    if Lookup(fields, k).Some? {
      ReplaceKeys(fields, k, v);
    } else if IsArrayIndex(k) {
      InsertShape(fields, k, v);
      var j :| 0 <= j <= |fields| && InsertIndexKey(fields, k, v) == fields[..j] + [(k, v)] + fields[j..];
      InsertAtKeepsKeysDistinct(fields, k, v, j);
    } else {
      InsertAtKeepsKeysDistinct(fields, k, v, |fields|);
      assert fields + [(k, v)] == fields[..|fields|] + [(k, v)] + fields[|fields|..];
    }
  }

  // ---------------------------------------------------------------- object views of values

  /** `Object.entries(v)`, which is also what an object spread `{...v}` copies. */
  function Entries(v: Json): seq<(string, Json)> {
    match v
    case Obj(fields) => fields
    case Arr(items) => IndexedFrom(items, 0)
    case Str(s) => IndexedFrom(Characters(s), 0)
    case _ => []
  }

  /** The one-character strings a string is indexed into. */
  function Characters(s: string): (r: seq<Json>)
    ensures |r| == |s|
  {
    if s == [] then [] else [Str([s[0]])] + Characters(s[1..])
  }

  function FieldKeys(fields: seq<(string, Json)>): (r: seq<string>)
    ensures |r| == |fields|
  {
    if fields == [] then [] else [fields[0].0] + FieldKeys(fields[1..])
  }

  function FieldValues(fields: seq<(string, Json)>): (r: seq<Json>)
    ensures |r| == |fields|
  {
    if fields == [] then [] else [fields[0].1] + FieldValues(fields[1..])
  }

  /** `Object.keys(v)`. */
  function Keys(v: Json): (r: seq<string>)
    ensures |r| == |Entries(v)|
  {
    FieldKeys(Entries(v))
  }

  /** `Object.values(v)`. */
  function Values(v: Json): (r: seq<Json>)
    ensures |r| == |Entries(v)|
  {
    FieldValues(Entries(v))
  }

  /** Property read `v[k]`, `undefined` when absent (reading on `undefined` or `null` is modelled as `undefined`). */
  function Get(v: Json, k: string): Json {
    match Lookup(Entries(v), k)
    case None => Undefined
    case Some(x) => x
  }

  /** `v[i]` for an array index. */
  function At(v: Json, i: nat): Json {
    Get(v, NatToString(i))
  }

  /** `{ ...v, [k]: x }`. */
  function With(v: Json, k: string, x: Json): Json {
    Obj(Assign(Entries(v), k, x))
  }

  /** A spread-and-set changes exactly one key. */
  lemma GetWith(v: Json, k: string, x: Json, k2: string)
    ensures Get(With(v, k, x), k2) == if k2 == k then x else Get(v, k2)
  {
    LookupAssign(Entries(v), k, x, k2);
  }

  /** The entries of `items[off..]`, keyed by their index in `items`. */
  function IndexedFrom<V>(items: seq<V>, off: nat): (r: seq<(string, V)>)
    requires off <= |items|
    ensures |r| == |items| - off
    decreases |items| - off
  {
    if off == |items| then [] else [(NatToString(off), items[off])] + IndexedFrom(items, off + 1)
  }

  lemma {:induction false} LookupIndexedFrom<V>(items: seq<V>, off: nat, i: nat)
    requires off <= i < |items|
    ensures Lookup(IndexedFrom(items, off), NatToString(i)) == Some(items[i])
    decreases i - off
  {
    var e := IndexedFrom(items, off);
    if off < i {
      assert e[0].0 != NatToString(i) by {
        if e[0].0 == NatToString(i) { NatToStringInjective(off, i); }
      }
      assert e[1..] == IndexedFrom(items, off + 1);
      LookupIndexedFrom(items, off + 1, i);
    }
  }

  /** On an array, `v[i]` is the i-th element. */
  lemma AtArray(items: seq<Json>, i: nat)
    requires i < |items|
    ensures At(Arr(items), i) == items[i]
  {
    LookupIndexedFrom(items, 0, i);
  }

  // ---------------------------------------------------------------- conversions

  /** `v.toString()`; `None` when it throws (on `undefined` and `null`). */
  function ToText(v: Json): (r: Option<string>)
    ensures Truthy(v) ==> r.Some?
    decreases v, 0
  {
    match v
    case Undefined => None
    case Null => None
    case Bool(b) => Some(if b then "true" else "false")
    case Num(n) => Some(IntToString(n))
    case Str(s) => Some(s)
    case Arr(items) => Some(Join(ElementTexts(items), ","))
    case Obj(_) => Some("[object Object]")
  }

  /** The printed elements of an array, in order. */
  function ElementTexts(items: seq<Json>): seq<string>
    decreases items
  {
    if items == [] then [] else [ElementText(items[0])] + ElementTexts(items[1..])
  }

  /** How `Array.prototype.join` prints one element: `undefined` and `null` print as ''. */
  function ElementText(v: Json): string
    decreases v, 1
  {
    match ToText(v)
    case None => ""
    case Some(t) => t
  }

  /** `String(v)`, which never throws. */
  function StringOf(v: Json): string {
    match v
    case Undefined => "undefined"
    case Null => "null"
    case _ => ElementText(v)
  }

  /** `parseInt(v)`, which converts its argument with `String` first. */
  function ParseIntOf(v: Json): Option<int> {
    ParseInt(StringOf(v))
  }

  /** `parseInt` of an object is NaN: `String` gives `[object Object]`. */
  lemma ParseIntOfObj(v: Json)
    requires v.Obj?
    ensures ParseIntOf(v) == None
  {
    assert ToText(v) == Some("[object Object]");
    assert ElementText(v) == "[object Object]";
    ParseIntOfNonNumeral("[object Object]");
  }

  /** `parseInt` of a number gives the number back. */
  lemma ParseIntOfNum(n: int)
    ensures ParseIntOf(Num(n)) == Some(n)
  {
    assert ToText(Num(n)) == Some(IntToString(n));
    assert ElementText(Num(n)) == IntToString(n);
    ParseIntOfIntToString(n);
  }
}
