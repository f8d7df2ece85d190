/**
 * The JavaScript string operations the front ends rely on, written out over
 * `seq<char>`: the `\s` character class, `trim`, ASCII `toLowerCase`,
 * `indexOf`, `split` on a string and on a character-class run, `parseInt`,
 * decimal printing of integers and `Math.round`.
 */
module Text {
  import opened Wrappers

  /** The characters of JavaScript's `\s` class, which are also the ones `trim` removes. */
  predicate IsSpace(c: char) {
    c == ' ' || c == '\t' || c == '\n' || c == '\r' || c == '\U{000B}' || c == '\U{000C}'
    || c == '\U{00A0}' || c == '\U{1680}' || ('\U{2000}' <= c <= '\U{200A}')
    || c == '\U{2028}' || c == '\U{2029}' || c == '\U{202F}' || c == '\U{205F}'
    || c == '\U{3000}' || c == '\U{FEFF}'
  }

  predicate AllSpace(s: string) {
    forall i :: 0 <= i < |s| ==> IsSpace(s[i])
  }

  predicate IsDigit(c: char) { '0' <= c <= '9' }

  predicate AllDigits(s: string) {
    forall i :: 0 <= i < |s| ==> IsDigit(s[i])
  }

  // ---------------------------------------------------------------- trim

  lemma AllSpaceConcat(a: string, b: string)
    ensures AllSpace(a + b) <==> AllSpace(a) && AllSpace(b)
  {
    if AllSpace(a + b) {
      forall i | 0 <= i < |a| ensures IsSpace(a[i]) { assert a[i] == (a + b)[i]; }
      forall i | 0 <= i < |b| ensures IsSpace(b[i]) { assert b[i] == (a + b)[|a| + i]; }
    }
  }

  /** Dropping one leading white-space character keeps the shape `TrimStart` promises. */
  lemma TrimStartStep(s: string, r: string)
    requires s != [] && IsSpace(s[0])
    requires |r| <= |s| - 1 && r == s[1..][|s| - 1 - |r|..]
    requires AllSpace(s[1..][..|s| - 1 - |r|])
    requires r == [] <==> AllSpace(s[1..])
    ensures r == s[|s| - |r|..]
    ensures AllSpace(s[..|s| - |r|])
    ensures r == [] <==> AllSpace(s)
  {
    var k := |s| - |r|;
    assert s[..k] == [s[0]] + s[1..][..k - 1];
    assert s == [s[0]] + s[1..];
    AllSpaceConcat([s[0]], s[1..][..k - 1]);
    AllSpaceConcat([s[0]], s[1..]);
  }

  /** `trimStart`: drops the leading white space. */
  function TrimStart(s: string): (r: string)
    ensures |r| <= |s|
  {
    if s != [] && IsSpace(s[0]) then TrimStart(s[1..]) else s
  }

  /** TrimStart removes a white-space prefix and stops at the first other character. */
  lemma {:induction false} TrimStartShape(s: string)
    ensures var r := TrimStart(s);
      && r == s[|s| - |r|..]
      && (r == [] || !IsSpace(r[0]))
      && AllSpace(s[..|s| - |r|])
      && (r == [] <==> AllSpace(s))
  {
    if s != [] && IsSpace(s[0]) {
      TrimStartShape(s[1..]);
      TrimStartStep(s, TrimStart(s[1..]));
    }
  }

  /** `trimEnd`: drops the trailing white space. */
  function TrimEnd(s: string): (r: string)
    ensures |r| <= |s|
  {
    if s != [] && IsSpace(s[|s| - 1]) then TrimEnd(s[..|s| - 1]) else s
  }

  /** TrimEnd removes a white-space suffix and stops at the last other character. */
  lemma {:induction false} TrimEndShape(s: string)
    ensures var r := TrimEnd(s);
      && r == s[..|r|]
      && (r == [] || !IsSpace(r[|r| - 1]))
      && AllSpace(s[|r|..])
      && (r == [] <==> AllSpace(s))
  {
    if s != [] && IsSpace(s[|s| - 1]) {
      var r := TrimEnd(s[..|s| - 1]);
      TrimEndShape(s[..|s| - 1]);
      assert s[|r|..] == s[..|s| - 1][|r|..] + [s[|s| - 1]];
      assert AllSpace(s) <==> AllSpace(s[..|s| - 1]) by {
        assert forall i :: 0 <= i < |s| - 1 ==> s[i] == s[..|s| - 1][i];
      }
    }
  }

  /** `String.prototype.trim`. */
  function Trim(s: string): (r: string)
    ensures |r| <= |s|
  {
    TrimEnd(TrimStart(s))
  }

  /** Trimming gives the empty string exactly for all-white-space input, and otherwise neither end is white space. */
  lemma TrimShape(s: string)
    ensures var r := Trim(s);
      && (r == [] <==> AllSpace(s))
      && (r != [] ==> !IsSpace(r[0]) && !IsSpace(r[|r| - 1]))
  {
    var a := TrimStart(s);
    TrimStartShape(s);
    TrimEndShape(a);
    var r := TrimEnd(a);
    assert r != [] ==> a[0] == r[0];
  }

  /** `s.trim() === ''` (also `!s.trim()`). */
  predicate Blank(s: string) { Trim(s) == [] }

  // ---------------------------------------------------------------- case

  /** `toLowerCase` restricted to ASCII letters. */
  function LowerChar(c: char): char {
    if 'A' <= c <= 'Z' then (c as int + 32) as char else c
  }

  function ToLower(s: string): (r: string)
    ensures |r| == |s|
  {
    if s == [] then [] else [LowerChar(s[0])] + ToLower(s[1..])
  }

  /** Each character is lowered on its own. */
  lemma {:induction false} ToLowerAt(s: string, i: nat)
    requires i < |s|
    ensures ToLower(s)[i] == LowerChar(s[i])
  {
    if i > 0 { ToLowerAt(s[1..], i - 1); }
  }

  /**
   * The comparison key of the scorers, `x.toString().toLowerCase().trim()` on
   * a string, computed by trimming first; NormalizeLowersThenTrims shows the
   * order does not matter.
   */
  function Normalize(s: string): string {
    ToLower(Trim(s))
  }

  /** Lowering a character never makes or unmakes white space. */
  lemma LowerCharKeepsSpace(c: char)
    ensures IsSpace(LowerChar(c)) == IsSpace(c)
  {
  }

  lemma {:induction false} ToLowerAppend(a: string, b: string)
    ensures ToLower(a + b) == ToLower(a) + ToLower(b)
  {
    if a == [] {
      assert a + b == b;
    } else {
      assert (a + b)[1..] == a[1..] + b;
      ToLowerAppend(a[1..], b);
    }
  }

  lemma {:induction false} TrimStartLower(s: string)
    ensures TrimStart(ToLower(s)) == ToLower(TrimStart(s))
  {
    if s != [] {
      LowerCharKeepsSpace(s[0]);
      assert ToLower(s)[1..] == ToLower(s[1..]);
      TrimStartLower(s[1..]);
    }
  }

  lemma {:induction false} TrimEndLower(s: string)
    ensures TrimEnd(ToLower(s)) == ToLower(TrimEnd(s))
  {
    if s != [] {
      var init := s[..|s| - 1];
      assert s == init + [s[|s| - 1]];
      ToLowerAppend(init, [s[|s| - 1]]);
      var l := ToLower(s);
      assert l == ToLower(init) + [LowerChar(s[|s| - 1])];
      assert l[|l| - 1] == LowerChar(s[|s| - 1]);
      assert l[..|l| - 1] == ToLower(init);
      LowerCharKeepsSpace(s[|s| - 1]);
      TrimEndLower(init);
    }
  }

  /** Trimming and lowering commute, so Normalize is the source's lower-then-trim. */
  lemma NormalizeLowersThenTrims(s: string)
    ensures Normalize(s) == Trim(ToLower(s))
  {
    TrimStartLower(s);
    TrimEndLower(TrimStart(s));
  }

  // ---------------------------------------------------------------- search

  predicate OccursAt(s: string, pat: string, i: int) {
    0 <= i && i + |pat| <= |s| && s[i..i + |pat|] == pat
  }

  /** `s.indexOf(pat, from)`: the first occurrence at or after `from`. */
  function IndexOf(s: string, pat: string, from: nat): (r: Option<nat>)
    ensures r.Some? ==> from <= r.value && OccursAt(s, pat, r.value)
    ensures r.Some? ==> forall j :: from <= j < r.value ==> !OccursAt(s, pat, j)
    ensures r.None? ==> forall j :: from <= j ==> !OccursAt(s, pat, j)
    decreases |s| - from
  {
    if from + |pat| > |s| then None
    else if s[from..from + |pat|] == pat then Some(from)
    else IndexOf(s, pat, from + 1)
  }

  /** `s.includes(pat)`. */
  predicate Contains(s: string, pat: string) {
    IndexOf(s, pat, 0).Some?
  }

  lemma ContainsAt(s: string, pat: string, i: int)
    requires OccursAt(s, pat, i)
    ensures Contains(s, pat)
  {
  }

  /** The first occurrence at or after `from` is `at` when nothing occurs in between. */
  lemma FirstOccurrence(s: string, pat: string, from: nat, at: nat)
    requires from <= at && OccursAt(s, pat, at)
    requires forall p :: from <= p < at ==> !OccursAt(s, pat, p)
    ensures IndexOf(s, pat, from) == Some(at)
  {
  }

  /** An occurrence lying wholly inside the middle part of a text is an occurrence in that part. */
  lemma OccursInMiddle(a: string, f: string, b: string, pat: string, p: int)
    requires OccursAt(a + f + b, pat, p) && |a| <= p && p + |pat| <= |a| + |f|
    ensures Contains(f, pat)
  {
    var s := a + f + b;
    assert f[p - |a|..p - |a| + |pat|] == s[p..p + |pat|];
    ContainsAt(f, pat, p - |a|);
  }

  /** One differing character rules an occurrence out. */
  lemma Mismatch(s: string, pat: string, p: int, q: int)
    requires 0 <= p && 0 <= q < |pat| && p + q < |s|
    requires s[p + q] != pat[q]
    ensures !OccursAt(s, pat, p)
  {
  }

  /** A pattern holding a character that s lacks does not occur in s. */
  lemma NotContainsChar(s: string, pat: string, c: char)
    requires c in pat && c !in s
    ensures !Contains(s, pat)
  {
    var k :| 0 <= k < |pat| && pat[k] == c;
    forall i | 0 <= i && i + |pat| <= |s|
      ensures !OccursAt(s, pat, i)
    {
      assert s[i..i + |pat|][k] == s[i + k];
    }
  }

  predicate StartsWith(s: string, p: string) {
    |p| <= |s| && s[..|p|] == p
  }

  predicate EndsWith(s: string, p: string) {
    |p| <= |s| && s[|s| - |p|..] == p
  }

  // ---------------------------------------------------------------- split and join

  /** `s.split(sep)` for a non-empty separator string. */
  function Split(s: string, sep: string): (r: seq<string>)
    requires |sep| > 0
    ensures |r| >= 1
    decreases |s|
  {
    match IndexOf(s, sep, 0)
    case None => [s]
    case Some(i) => [s[..i]] + Split(s[i + |sep|..], sep)
  }

  /** `parts.join(sep)`. */
  function Join(parts: seq<string>, sep: string): string {
    if parts == [] then ""
    else if |parts| == 1 then parts[0]
    else parts[0] + sep + Join(parts[1..], sep)
  }

  /** Length of the longest prefix of `s` with no character of the class. */
  function Run(s: string, isSep: char -> bool): (n: nat)
    ensures n <= |s|
    ensures forall i :: 0 <= i < n ==> !isSep(s[i])
    ensures n < |s| ==> isSep(s[n])
  {
    if s == [] || isSep(s[0]) then 0 else 1 + Run(s[1..], isSep)
  }

  /** Length of the longest prefix of `s` made only of characters of the class. */
  function SepRun(s: string, isSep: char -> bool): (n: nat)
    ensures n <= |s|
    ensures forall i :: 0 <= i < n ==> isSep(s[i])
    ensures n < |s| ==> !isSep(s[n])
  {
    if s == [] || !isSep(s[0]) then 0 else 1 + SepRun(s[1..], isSep)
  }

  /** `s.split(/[class]+/)`: the pieces between maximal runs of the class. */
  function SplitRuns(s: string, isSep: char -> bool): (r: seq<string>)
    ensures |r| >= 1
    decreases |s|
  {
    var n := Run(s, isSep);
    if n == |s| then [s]
    else
      var m := SepRun(s[n..], isSep);
      [s[..n]] + SplitRuns(s[n + m..], isSep)
  }

  function NonEmpty(parts: seq<string>): (r: seq<string>)
    ensures |r| <= |parts|
    ensures forall i :: 0 <= i < |r| ==> r[i] != []
  {
    if parts == [] then []
    else if parts[0] == [] then NonEmpty(parts[1..])
    else [parts[0]] + NonEmpty(parts[1..])
  }

  function NonBlank(parts: seq<string>): (r: seq<string>)
    ensures |r| <= |parts|
  {
    if parts == [] then []
    else if Blank(parts[0]) then NonBlank(parts[1..])
    else [parts[0]] + NonBlank(parts[1..])
  }

  /** The non-blank filter keeps exactly the non-blank elements. */
  lemma {:induction false} NonBlankKeeps(ps: seq<string>, x: string)
    ensures x in NonBlank(ps) <==> x in ps && !Blank(x)
  {
    if ps != [] {
      NonBlankKeeps(ps[1..], x);
      assert ps == [ps[0]] + ps[1..];
    }
  }

  /** A text that starts with `m` separators is all separators exactly when the rest after them is. */
  lemma AllSepDrop(s: string, m: nat, isSep: char -> bool)
    requires m <= |s|
    requires forall i :: 0 <= i < m ==> isSep(s[i])
    ensures (forall i :: 0 <= i < |s| ==> isSep(s[i])) <==> (forall i :: 0 <= i < |s| - m ==> isSep(s[m..][i]))
  {
    if forall i :: 0 <= i < |s| - m ==> isSep(s[m..][i]) {
      forall i | m <= i < |s| ensures isSep(s[i]) { assert s[i] == s[m..][i - m]; }
    }
  }

  /** `.filter(w => w.length > 0)` keeps nothing exactly when every run piece is empty, that is when the text is all separators. */
  lemma {:induction false} NonEmptySplitRuns(s: string, isSep: char -> bool)
    ensures NonEmpty(SplitRuns(s, isSep)) == [] <==> forall i :: 0 <= i < |s| ==> isSep(s[i])
    decreases |s|
  {
    var n := Run(s, isSep);
    if n == |s| {
      assert SplitRuns(s, isSep) == [s];
      NonEmptyCons(s, []);
      if s != [] {
        assert !isSep(s[0]);
      }
    } else {
      var m := SepRun(s[n..], isSep);
      var rest := s[n + m..];
      SplitRunsUnfold(s, isSep, n, m);
      NonEmptyCons(s[..n], SplitRuns(rest, isSep));
      if n > 0 {
        assert !isSep(s[0]);
      } else {
        assert s[n..] == s;
        NonEmptySplitRuns(rest, isSep);
        AllSepDrop(s, m, isSep);
      }
    }
  }

  /** A run of separators stops before a last character that is not one. */
  lemma SepRunStopsBeforeEnd(t: string, isSep: char -> bool)
    requires t != [] && !isSep(t[|t| - 1])
    ensures SepRun(t, isSep) < |t|
  {
  }

  lemma NonEmptyCons(p: string, tail: seq<string>)
    ensures NonEmpty([p] + tail) == if p == [] then NonEmpty(tail) else [p] + NonEmpty(tail)
  {
    assert ([p] + tail)[1..] == tail;
  }

  /** The piece before the first separator run, then the split of what follows the run. */
  lemma SplitRunsUnfold(s: string, isSep: char -> bool, n: nat, m: nat)
    requires n == Run(s, isSep) < |s| && m == SepRun(s[n..], isSep)
    ensures SplitRuns(s, isSep) == [s[..n]] + SplitRuns(s[n + m..], isSep)
  {
  }

  /** Without leading or trailing separators a split yields no empty piece. */
  lemma {:induction false} SplitRunsNoEmptyPieces(s: string, isSep: char -> bool)
    requires s != [] && !isSep(s[0]) && !isSep(s[|s| - 1])
    ensures NonEmpty(SplitRuns(s, isSep)) == SplitRuns(s, isSep)
    decreases |s|
  {
    var n := Run(s, isSep);
    if n == |s| {
      assert SplitRuns(s, isSep) == [s];
      NonEmptyCons(s, []);
    } else {
      var t := s[n..];
      assert t[|t| - 1] == s[|s| - 1];
      SepRunStopsBeforeEnd(t, isSep);
      var m := SepRun(t, isSep);
      var rest := s[n + m..];
      assert rest == t[m..];
      SplitRunsNoEmptyPieces(rest, isSep);
      SplitRunsUnfold(s, isSep, n, m);
      NonEmptyCons(s[..n], SplitRuns(rest, isSep));
    }
  }

  // ---------------------------------------------------------------- words and sentences

  /** `text.trim().split(/\s+/)`: the raw tokens, with no filter. */
  function RawTokens(s: string): (r: seq<string>)
    ensures |r| >= 1
  {
    SplitRuns(Trim(s), IsSpace)
  }

  /** `text.trim().split(/\s+/).filter(w => w.length > 0)`. */
  function Words(s: string): seq<string> {
    NonEmpty(RawTokens(s))
  }

  /** Number of non-empty white-space separated tokens; zero exactly for blank text. */
  function WordCount(s: string): (n: nat)
    ensures n == 0 <==> Blank(s)
  {
    var t := Trim(s);
    TrimShape(s);
    NonEmptySplitRuns(t, IsSpace);
    |Words(s)|
  }

  /** The unfiltered token count equals the word count for non-blank text and is 1 for blank text. */
  lemma RawTokenCount(s: string)
    ensures |RawTokens(s)| == if Blank(s) then 1 else WordCount(s)
  {
    var t := Trim(s);
    TrimShape(s);
    assert RawTokens(s) == SplitRuns(t, IsSpace);
    if t == [] {
      assert SplitRuns(t, IsSpace) == [t];
    } else {
      SplitRunsNoEmptyPieces(t, IsSpace);
      assert Words(s) == RawTokens(s);
    }
  }

  predicate IsSentenceEnd(c: char) { c == '.' || c == '!' || c == '?' }

  /** `text.split(/[.!?]+/).filter(s => s.trim().length > 0).length`. */
  function SentenceCount(s: string): nat {
    |NonBlank(SplitRuns(s, IsSentenceEnd))|
  }

  // ---------------------------------------------------------------- numbers

  function DigitChar(d: nat): char
    requires d < 10
  {
    ('0' as int + d) as char
  }

  function DigitValue(c: char): nat
    requires IsDigit(c)
  {
    c as int - '0' as int
  }

  /** Decimal representation of a natural number, as `String(n)` prints it. */
  function NatToString(n: nat): (r: string)
    ensures |r| >= 1 && AllDigits(r)
    ensures |r| > 1 ==> r[0] != '0'
  {
    if n < 10 then [DigitChar(n)] else NatToString(n / 10) + [DigitChar(n % 10)]
  }

  function IntToString(i: int): (r: string)
    ensures |r| >= 1
  {
    if i < 0 then "-" + NatToString(-i) else NatToString(i)
  }

  /** Value of a string of decimal digits. */
  function DecimalValue(d: string): nat
    requires AllDigits(d)
  {
    if d == [] then 0 else DecimalValue(d[..|d| - 1]) * 10 + DigitValue(d[|d| - 1])
  }

  lemma {:induction false} DecimalValueOfNatToString(n: nat)
    ensures DecimalValue(NatToString(n)) == n
  {
    if n >= 10 {
      DecimalValueOfNatToString(n / 10);
      var r := NatToString(n);
      assert r[..|r| - 1] == NatToString(n / 10);
    }
  }

  /** Distinct numbers print distinctly. */
  lemma NatToStringInjective(a: nat, b: nat)
    requires NatToString(a) == NatToString(b)
    ensures a == b
  {
    DecimalValueOfNatToString(a);
    DecimalValueOfNatToString(b);
  }

  function DigitPrefix(s: string): (n: nat)
    ensures n <= |s| && AllDigits(s[..n])
    ensures n < |s| ==> !IsDigit(s[n])
  {
    if s == [] || !IsDigit(s[0]) then 0 else 1 + DigitPrefix(s[1..])
  }

  predicate IsHexDigit(c: char) {
    IsDigit(c) || ('a' <= c <= 'f') || ('A' <= c <= 'F')
  }

  function HexDigitValue(c: char): nat
    requires IsHexDigit(c)
  {
    if IsDigit(c) then DigitValue(c)
    else if 'a' <= c <= 'f' then c as int - 'a' as int + 10
    else c as int - 'A' as int + 10
  }

  function HexPrefix(s: string): (n: nat)
    ensures n <= |s|
    ensures forall i :: 0 <= i < n ==> IsHexDigit(s[i])
  {
    if s == [] || !IsHexDigit(s[0]) then 0 else 1 + HexPrefix(s[1..])
  }

  function HexValue(d: string): nat
    requires forall i :: 0 <= i < |d| ==> IsHexDigit(d[i])
  {
    if d == [] then 0 else HexValue(d[..|d| - 1]) * 16 + HexDigitValue(d[|d| - 1])
  }

  /**
   * `parseInt(s)` with no radix: leading white space, an optional sign, a
   * `0x` prefix for hexadecimal, then the longest digit prefix. `None` is NaN.
   */
  function ParseInt(s: string): Option<int> {
    var t := TrimStart(s);
    if t != [] && t[0] == '-' then ParseUnsigned(t[1..], -1)
    else if t != [] && t[0] == '+' then ParseUnsigned(t[1..], 1)
    else ParseUnsigned(t, 1)
  }

  /** The digits after the sign: hexadecimal behind `0x`/`0X`, decimal otherwise. */
  function ParseUnsigned(body: string, sign: int): Option<int> {
    if |body| >= 2 && body[0] == '0' && (body[1] == 'x' || body[1] == 'X') then
      var hex := body[2..];
      var n := HexPrefix(hex);
      if n == 0 then None else Some(sign * HexValue(hex[..n]))
    else
      var n := DigitPrefix(body);
      if n == 0 then None else Some(sign * DecimalValue(body[..n]))
  }

  /** A string that starts with a character other than white space, a sign or a digit is NaN to `parseInt`. */
  lemma ParseIntOfNonNumeral(s: string)
    requires s != [] && !IsSpace(s[0]) && !IsDigit(s[0]) && s[0] != '-' && s[0] != '+'
    ensures ParseInt(s) == None
  {
    assert TrimStart(s) == s;
    assert DigitPrefix(s) == 0;
  }

  /** `parseInt(String(i))` gives `i` back for every integer. */
  lemma ParseIntOfIntToString(i: int)
    ensures ParseInt(IntToString(i)) == Some(i)
  {
    var d := NatToString(if i < 0 then -i else i);
    DecimalValueOfNatToString(if i < 0 then -i else i);
    var s := IntToString(i);
    assert TrimStart(s) == s by {
      assert !IsSpace(s[0]);
    }
    var body := if i < 0 then s[1..] else s;
    assert body == d;
    assert DigitPrefix(d) == |d| by { DigitPrefixAll(d); }
    assert d[..|d|] == d;
  }

  /** The digit prefix of digits followed by a non-digit is exactly those digits. */
  lemma {:induction false} DigitPrefixStops(d: string, x: string)
    requires AllDigits(d) && x != [] && !IsDigit(x[0])
    ensures DigitPrefix(d + x) == |d|
  {
    if d != [] {
      assert (d + x)[1..] == d[1..] + x;
      DigitPrefixStops(d[1..], x);
    }
  }

  lemma {:induction false} DigitPrefixAll(d: string)
    requires AllDigits(d)
    ensures DigitPrefix(d) == |d|
  {
    if d != [] { DigitPrefixAll(d[1..]); }
  }

  /** `Math.round`: the nearest integer, halves rounding up. */
  function Round(x: real): (r: int)
    ensures x - 1.0 / 2.0 < r as real <= x + 1.0 / 2.0
  {
    (x + 1.0 / 2.0).Floor
  }

  /** `Math.round(x * 100) / 100`. */
  function Round2(x: real): (r: real)
    ensures x - 1.0 / 200.0 < r <= x + 1.0 / 200.0
  {
    Round(x * 100.0) as real / 100.0
  }

  lemma RoundMonotone(x: real, y: real)
    requires x <= y
    ensures Round(x) <= Round(y)
  {
  }

  lemma Round2Monotone(x: real, y: real)
    requires x <= y
    ensures Round2(x) <= Round2(y)
  {
    RoundMonotone(x * 100.0, y * 100.0);
  }

  /** A share t/m of a positive whole m, as a rounded percentage, lies in [0, 100]. */
  lemma PercentWithin(t: real, m: real)
    requires m > 0.0 && 0.0 <= t <= m
    ensures 0 <= Round(t / m * 100.0) <= 100
  {
    var f := t / m;
    assert f * m == t;
    assert 0.0 <= f <= 1.0;
    RoundMonotone(0.0, f * 100.0);
    RoundMonotone(f * 100.0, 100.0);
  }

  /** `String(n).padStart(2, '0')`. */
  function Pad2(s: string): (r: string)
    ensures |r| >= 2
  {
    if |s| == 0 then "00" else if |s| == 1 then "0" + s else s
  }

  // ---------------------------------------------------------------- clock text

  /** JavaScript's `%` on integers: the remainder takes the sign of the dividend. */
  function IntRem(a: int, b: int): int
    requires b > 0
  {
    if a >= 0 then a % b else -((-a) % b)
  }

  /** `Math.trunc`. */
  function Trunc(x: real): (r: int)
    ensures x >= 0.0 ==> r == x.Floor
    ensures x < 0.0 ==> x <= r as real < x + 1.0
  {
    if x >= 0.0 then x.Floor else -((-x).Floor)
  }

  /** JavaScript's `%` on numbers: `a - b * Math.trunc(a / b)`. */
  function RealRem(a: real, b: real): real
    requires b != 0.0
  {
    a - b * Trunc(a / b) as real
  }

  /** `${mins}:${String(secs).padStart(2, '0')}`. */
  function ClockText(mins: int, secs: int): string {
    IntToString(mins) + ":" + Pad2(IntToString(secs))
  }

  /** Two seconds digits: a number below 100 pads to its tens and units digit. */
  lemma TwoDigits(n: nat)
    requires n < 100
    ensures Pad2(NatToString(n)) == [DigitChar(n / 10), DigitChar(n % 10)]
  {
    if n >= 10 {
      assert NatToString(n / 10) == [DigitChar(n / 10)];
    }
  }

  /** Digits followed by a non-digit part split back into the same two parts. */
  lemma DigitsThenRest(a: string, x: string, b: string, y: string)
    requires AllDigits(a) && AllDigits(b) && x != [] && y != [] && !IsDigit(x[0]) && !IsDigit(y[0])
    requires a + x == b + y
    ensures a == b && x == y
  {
    DigitPrefixStops(a, x);
    DigitPrefixStops(b, y);
    assert a == (a + x)[..|a|];
    assert b == (b + y)[..|b|];
    assert x == (a + x)[|a|..];
    assert y == (b + y)[|b|..];
  }

  /** A number below 100 is fixed by its tens and units digit. */
  lemma TwoDigitsInjective(a: nat, b: nat)
    requires a < 100 && b < 100
    requires DigitChar(a / 10) == DigitChar(b / 10) && DigitChar(a % 10) == DigitChar(b % 10)
    ensures a == b
  {
    assert a / 10 == b / 10 && a % 10 == b % 10;
  }

  lemma ClockTextOfNats(m: nat, s: nat)
    ensures ClockText(m, s) == NatToString(m) + (":" + Pad2(NatToString(s)))
  {
  }

  /** Whole minutes and a seconds count below 60 can be read back from the clock text. */
  lemma ClockTextInjective(m1: nat, s1: nat, m2: nat, s2: nat)
    requires s1 < 60 && s2 < 60
    requires ClockText(m1, s1) == ClockText(m2, s2)
    ensures m1 == m2 && s1 == s2
  {
    var p1, p2 := Pad2(NatToString(s1)), Pad2(NatToString(s2));
    ClockTextOfNats(m1, s1);
    ClockTextOfNats(m2, s2);
    DigitsThenRest(NatToString(m1), ":" + p1, NatToString(m2), ":" + p2);
    NatToStringInjective(m1, m2);
    assert p1 == (":" + p1)[1..];
    TwoDigits(s1);
    TwoDigits(s2);
    TwoDigitsInjective(s1, s2);
  }
}
