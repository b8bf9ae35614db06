/** The fragments of Go's `strings` and `strconv` packages that the controller relies on. */
module Strings {

  /** `sep` occurs in `s` at position `i`. */
  predicate At<T(==)>(s: seq<T>, sep: seq<T>, i: nat) {
    i + |sep| <= |s| && s[i..i + |sep|] == sep
  }

  /** strings.Index: the leftmost occurrence of `sep` at or after `from`, or -1. */
  function IndexFrom<T(==)>(s: seq<T>, sep: seq<T>, from: nat): (i: int)
    ensures i == -1 || (from <= i && At(s, sep, i))
    ensures forall j: nat :: from <= j && At(s, sep, j) ==> from <= i <= j
    decreases |s| - from
  {
    if from + |sep| > |s| then -1
    else if s[from..from + |sep|] == sep then from
    else IndexFrom(s, sep, from + 1)
  }

  function Index<T(==)>(s: seq<T>, sep: seq<T>): (i: int)
    ensures i == -1 || (0 <= i && At(s, sep, i))
    ensures forall j: nat :: At(s, sep, j) ==> 0 <= i <= j
  {
    IndexFrom(s, sep, 0)
  }

  /** strings.Split for a non-empty separator: cut at leftmost, non-overlapping occurrences. */
  function Split<T(==)>(s: seq<T>, sep: seq<T>): (r: seq<seq<T>>)
    requires sep != []
    ensures r != []
    decreases |s|
  {
    var i := Index(s, sep);
    if i < 0 then [s] else [s[..i]] + Split(s[i + |sep|..], sep)
  }

  /** `s` does not contain the character `c`. */
  predicate Free<T(==)>(s: seq<T>, c: T) {
    c !in s
  }

  /** Occurrences of a one-character separator are the positions holding that character. */
  lemma {:induction false} AtChar<T>(s: seq<T>, c: T)
    ensures forall i: nat :: At(s, [c], i) <==> i < |s| && s[i] == c
  {
    forall i: nat
      ensures At(s, [c], i) <==> i < |s| && s[i] == c
    {
      if i < |s| {
        assert s[i..i + 1] == [s[i]];
      }
    }
  }

  /** Where the first `c` of `a + [c] + b` is, when `a` has none. */
  lemma {:induction false} SplitAtChar<T>(a: seq<T>, c: T, b: seq<T>)
    requires Free(a, c)
    ensures Index(a + [c] + b, [c]) == |a|
    ensures Split(a + [c] + b, [c]) == [a] + Split(b, [c])
  {
    var s := a + [c] + b;
    AtChar(s, c);
    assert At(s, [c], |a|);
    assert forall k :: 0 <= k < |a| ==> s[k] == a[k];
    assert Index(s, [c]) == |a|;
    assert s[..|a|] == a && s[|a| + 1..] == b;
  }

  /** A string without the separator character is its own only segment. */
  lemma {:induction false} SplitFree<T>(a: seq<T>, c: T)
    requires Free(a, c)
    ensures Index(a, [c]) == -1 && Split(a, [c]) == [a]
  {
    AtChar(a, c);
  }

  /** The text before the first `c`, and what follows it. */
  lemma {:induction false} SplitHead<T>(s: seq<T>, c: T) returns (h: seq<T>, t: seq<T>)
    requires c in s
    ensures Free(h, c) && s == h + [c] + t && Split(s, [c]) == [h] + Split(t, [c])
  {
    AtChar(s, c);
    var j: nat :| j < |s| && s[j] == c;
    assert At(s, [c], j);
    var i := Index(s, [c]);
    h, t := s[..i], s[i + 1..];
    assert forall k: nat :: k < i ==> !At(s, [c], k);
    assert s == h + [c] + t;
    SplitAtChar(h, c, t);
  }

  /** The first `c` cuts a text in one way only. */
  lemma {:induction false} FirstCut<T>(a: seq<T>, x: seq<T>, b: seq<T>, y: seq<T>, c: T)
    requires a + [c] + x == b + [c] + y && Free(a, c) && Free(b, c)
    ensures a == b && x == y
  {
    SplitAtChar(a, c, x);
    SplitAtChar(b, c, y);
    var s := a + [c] + x;
    assert a == s[..|a|] && b == s[..|a|] && x == s[|a| + 1..] && y == s[|a| + 1..];
  }

  /** Cutting at a single character: exactly when the first segment is `a`. */
  lemma {:induction false} SplitFirst<T>(s: seq<T>, c: T, a: seq<T>)
    ensures Split(s, [c])[0] == a <==> Free(a, c) && a + [c] <= s + [c]
  {
    var h, t := s, [];
    if c in s {
      h, t := SplitHead(s, c);
      t := t + [c];
    } else {
      SplitFree(s, c);
    }
    assert s + [c] == h + [c] + t;
    if Free(a, c) && a + [c] <= s + [c] {
      FirstCut(a, (s + [c])[|a| + 1..], h, t, c);
    }
  }

  lemma {:induction false} PrefixCancels<T>(h: seq<T>, x: seq<T>, y: seq<T>)
    ensures h + x <= h + y <==> x <= y
  {
    assert (h + y)[|h|..] == y && (h + x)[|h|..] == x;
    if h + x <= h + y {
      assert x == (h + y)[|h|..|h| + |x|];
    }
  }

  /** Cutting at a single character: exactly when the first two segments are `a` and `b`. */
  lemma {:induction false} SplitTwo<T>(s: seq<T>, c: T, a: seq<T>, b: seq<T>)
    ensures (|Split(s, [c])| >= 2 && Split(s, [c])[0] == a && Split(s, [c])[1] == b)
         <==> (Free(a, c) && Free(b, c) && a + [c] + b + [c] <= s + [c])
  {
    var w := a + [c] + b + [c];
    assert w == (a + [c]) + (b + [c]);
    SplitFirst(s, c, a);
    if w <= s + [c] {
      assert a + [c] <= w;
    }
    if c in s {
      var h, t := SplitHead(s, c);
      SplitFirst(t, c, b);
      assert s + [c] == (h + [c]) + (t + [c]);
      PrefixCancels(h + [c], b + [c], t + [c]);
    } else {
      SplitFree(s, c);
      assert |w| > |a| + 1;
    }
  }

  // ---------- decimal numbers ----------

  function Digit(d: nat): (c: char)
    requires d < 10
  {
    '0' + d as char
  }

  predicate IsDigit(c: char) {
    '0' <= c <= '9'
  }

  /** The decimal text of a natural number, as %d and strconv.Itoa print it. */
  function Itoa(n: nat): (s: string)
    ensures s != "" && forall i :: 0 <= i < |s| ==> IsDigit(s[i])
  {
    if n < 10 then [Digit(n)] else Itoa(n / 10) + [Digit(n % 10)]
  }

  /** The value of a string of digits. */
  function DigitsValue(s: string): (n: int)
    requires forall i :: 0 <= i < |s| ==> IsDigit(s[i])
    ensures n >= 0
  {
    if s == "" then 0
    else
      assert IsDigit(s[|s| - 1]);
      10 * DigitsValue(s[..|s| - 1]) + (s[|s| - 1] as int - '0' as int)
  }

  lemma {:induction false} ItoaValue(n: nat)
    ensures DigitsValue(Itoa(n)) == n
  {
    if n >= 10 {
      ItoaValue(n / 10);
      var s := Itoa(n);
      assert s[..|s| - 1] == Itoa(n / 10);
    } else {
      assert DigitsValue([]) == 0;
      assert Itoa(n)[..0] == [];
    }
  }

  lemma {:induction false} ItoaInjective(m: nat, n: nat)
    ensures Itoa(m) == Itoa(n) ==> m == n
  {
    ItoaValue(m);
    ItoaValue(n);
  }

  const MAX_INT64: int := 0x7fff_ffff_ffff_ffff

  predicate AllDigits(s: string) {
    forall i :: 0 <= i < |s| ==> IsDigit(s[i])
  }

  /** strconv.Atoi with its error dropped: 0 for a syntax error, the clamped value when out of range. */
  function Atoi(s: string): (n: int)
    ensures -MAX_INT64 - 1 <= n <= MAX_INT64
  {
    var signed := s != "" && (s[0] == '-' || s[0] == '+');
    var digits := if signed then s[1..] else s;
    if digits == "" || !AllDigits(digits) then 0
    else
      var v := DigitsValue(digits);
      if signed && s[0] == '-'
      then if v > MAX_INT64 + 1 then -MAX_INT64 - 1 else -v
      else if v > MAX_INT64 then MAX_INT64 else v
  }

  /** Go's conversion of an int to int32: keep the low 32 bits, in two's complement. */
  function Int32(n: int): (r: int)
    ensures -0x8000_0000 <= r < 0x8000_0000
  {
    var low := n % 0x1_0000_0000;
    if low < 0x8000_0000 then low else low - 0x1_0000_0000
  }

  /** strings.ToLower on ASCII text. */
  function ToLower(s: string): (r: string)
    ensures |r| == |s|
  {
    if s == "" then ""
    else
      var c := s[|s| - 1];
      ToLower(s[..|s| - 1]) + [if 'A' <= c <= 'Z' then c + 32 as char else c]
  }
}
