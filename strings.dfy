/** String helpers for the operations the JavaScript source takes from the
    language: `split('').reverse().join('')`, `indexOf`, and the decimal
    rendering of an integer by `Number.prototype.toString`. */
module Strings {
  import opened Options

  /** The characters of `s` in reverse order. */
  function Reverse(s: string): (r: string)
    ensures |r| == |s|
    ensures forall i :: 0 <= i < |s| ==> r[i] == s[|s| - 1 - i]
  {
    if s == [] then [] else Reverse(s[1..]) + [s[0]]
  }

  /** Reversing twice gives the original string back. */
  lemma ReverseReverse(s: string)
    ensures Reverse(Reverse(s)) == s
  {
    var r := Reverse(Reverse(s));
    assert |r| == |s|;
    forall i | 0 <= i < |s| ensures r[i] == s[i] {
      assert r[i] == Reverse(s)[|s| - 1 - i];
    }
  }

  /** Reversal loses nothing: two strings with the same reversal are equal. */
  lemma ReverseInjective(s: string, t: string)
    requires Reverse(s) == Reverse(t)
    ensures s == t
  {
    ReverseReverse(s);
    ReverseReverse(t);
  }

  /** A reversal holds exactly the characters of the original. */
  lemma ReverseSameChars(s: string, c: char)
    ensures c in Reverse(s) <==> c in s
  {
    var r := Reverse(s);
    if c in s {
      var i :| 0 <= i < |s| && s[i] == c;
      assert r[|s| - 1 - i] == c;
    }
    if c in r {
      var i :| 0 <= i < |r| && r[i] == c;
      assert s[|s| - 1 - i] == c;
    }
  }

  /** The index of the first `c` in `s`, if any. */
  function FirstIndexOf(s: string, c: char): (r: Option<nat>)
    ensures r.None? <==> c !in s
    ensures r.Some? ==> r.value < |s| && s[r.value] == c && c !in s[..r.value]
  {
    if s == [] then None
    else if s[0] == c then Some(0)
    else match FirstIndexOf(s[1..], c)
      case None => None
      case Some(k) =>
        assert s[..k + 1] == [s[0]] + s[1..][..k];
        Some(k + 1)
  }

  /** The index of the last `c` in `s`, if any. */
  function LastIndexOf(s: string, c: char): (r: Option<nat>)
    ensures r.None? <==> c !in s
    ensures r.Some? ==> r.value < |s| && s[r.value] == c && c !in s[r.value + 1..]
  {
    if s == [] then None
    else if s[|s| - 1] == c then Some(|s| - 1)
    else match LastIndexOf(s[..|s| - 1], c)
      case None => None
      case Some(k) =>
        assert s[k + 1..] == s[..|s| - 1][k + 1..] + [s[|s| - 1]];
        Some(k)
  }

  /** In `a + [c] + b` with no `c` in `a`, the first `c` is the one between them. */
  lemma {:induction false} FirstIndexOfJoin(a: string, c: char, b: string)
    requires c !in a
    ensures FirstIndexOf(a + [c] + b, c) == Some(|a|)
    decreases |a|
  {
    if a != [] {
      var s := a + [c] + b;
      assert a[0] in a;
      assert s[1..] == a[1..] + [c] + b;
      assert forall x :: x in a[1..] ==> x in a;
      FirstIndexOfJoin(a[1..], c, b);
    }
  }

  /** In `a + [c] + b` with no `c` in `b`, the last `c` is the one between them. */
  lemma {:induction false} LastIndexOfJoin(a: string, c: char, b: string)
    requires c !in b
    ensures LastIndexOf(a + [c] + b, c) == Some(|a|)
    decreases |b|
  {
    if b != [] {
      var s := a + [c] + b;
      assert b[|b| - 1] in b;
      assert s[..|s| - 1] == a + [c] + b[..|b| - 1];
      assert forall x :: x in b[..|b| - 1] ==> x in b;
      LastIndexOfJoin(a, c, b[..|b| - 1]);
    }
  }

  /** `sub` occurs in `s` starting at index `i`. */
  predicate OccursAt(s: string, sub: string, i: nat) {
    i + |sub| <= |s| && s[i..i + |sub|] == sub
  }

  /** `sub` occurs somewhere in `s`. */
  ghost predicate Contains(s: string, sub: string) {
    exists i: nat :: OccursAt(s, sub, i)
  }

  /** The first index at or after `from` where `sub` occurs, or -1. */
  function IndexOfFrom(s: string, sub: string, from: nat): (r: int)
    requires from <= |s|
    ensures r == -1 || (from <= r && OccursAt(s, sub, r))
    ensures r == -1 ==> forall j: nat :: from <= j ==> !OccursAt(s, sub, j)
    ensures r != -1 ==> forall j: nat :: from <= j < r ==> !OccursAt(s, sub, j)
    decreases |s| - from
  {
    if OccursAt(s, sub, from) then from
    else if from == |s| then -1
    else IndexOfFrom(s, sub, from + 1)
  }

  /** `String.prototype.indexOf`: the first index where `sub` occurs in `s`, or -1. */
  function IndexOf(s: string, sub: string): (r: int)
    ensures r == -1 <==> !Contains(s, sub)
    ensures r != -1 ==> 0 <= r && OccursAt(s, sub, r) && forall j: nat :: j < r ==> !OccursAt(s, sub, j)
  {
    IndexOfFrom(s, sub, 0)
  }

  /** An occurrence in `b` is an occurrence in `a + b`, shifted by `|a|`. */
  lemma ContainsAppend(a: string, b: string, sub: string)
    ensures Contains(b, sub) ==> Contains(a + b, sub)
  {
    if Contains(b, sub) {
      var i: nat :| OccursAt(b, sub, i);
      assert (a + b)[|a| + i..|a| + i + |sub|] == b[i..i + |sub|];
      assert OccursAt(a + b, sub, |a| + i);
    }
  }

  predicate IsDigit(c: char) {
    '0' <= c <= '9'
  }

  predicate AllDigits(s: string) {
    forall i :: 0 <= i < |s| ==> IsDigit(s[i])
  }

  function DigitChar(d: nat): (c: char)
    requires d < 10
    ensures IsDigit(c)
  {
    ('0' as int + d) as char
  }

  function DigitValue(c: char): (d: nat)
    requires IsDigit(c)
    ensures d < 10 && DigitChar(d) == c
  {
    c as int - '0' as int
  }

  /** The base-10 rendering of `n`, most significant digit first. */
  function NatToDecimal(n: nat): (r: string)
    ensures |r| >= 1 && AllDigits(r)
    ensures |r| > 1 ==> r[0] != '0'
    decreases n
  {
    if n < 10 then [DigitChar(n)] else NatToDecimal(n / 10) + [DigitChar(n % 10)]
  }

  /** The value of a string of decimal digits. */
  function ParseNat(s: string): nat
    requires AllDigits(s)
  {
    if s == [] then 0 else ParseNat(s[..|s| - 1]) * 10 + DigitValue(s[|s| - 1])
  }

  lemma {:induction false} ParseNatToDecimal(n: nat)
    ensures ParseNat(NatToDecimal(n)) == n
    decreases n
  {
    if n >= 10 {
      var r := NatToDecimal(n);
      assert r[..|r| - 1] == NatToDecimal(n / 10);
      ParseNatToDecimal(n / 10);
    }
  }

  /** An integer literal as `Number.prototype.toString` writes one: digits, with
      a leading `-` when negative. */
  predicate IsIntLiteral(s: string) {
    if |s| > 0 && s[0] == '-' then |s| > 1 && AllDigits(s[1..]) else |s| > 0 && AllDigits(s)
  }

  /** The digits of an integer literal, without its sign. */
  function Magnitude(s: string): string
    requires IsIntLiteral(s)
  {
    if s[0] == '-' then s[1..] else s
  }

  /** An integer literal in the one form `Number.prototype.toString` writes:
      no leading zeros and no `-0`. */
  predicate IsCanonicalIntLiteral(s: string) {
    && IsIntLiteral(s)
    && (|Magnitude(s)| > 1 ==> Magnitude(s)[0] != '0')
    && (s[0] == '-' ==> Magnitude(s) != "0")
  }

  /** `Number.prototype.toString` on an integral value below 10^21 in magnitude. */
  function IntToDecimal(i: int): (r: string)
    ensures IsCanonicalIntLiteral(r)
    ensures (r[0] == '-') == (i < 0)
  {
    if i < 0 then
      var d := NatToDecimal(-i);
      assert ("-" + d)[1..] == d;
      ParseNatToDecimal(-i);
      "-" + d
    else NatToDecimal(i)
  }

  function ParseInt(s: string): int
    requires IsIntLiteral(s)
  {
    if s[0] == '-' then -(ParseNat(s[1..]) as int) else ParseNat(s)
  }

  /** Reading the decimal rendering back gives the integer. */
  lemma ParseIntToDecimal(i: int)
    ensures ParseInt(IntToDecimal(i)) == i
  {
    if i < 0 {
      assert IntToDecimal(i)[1..] == NatToDecimal(-i);
      ParseNatToDecimal(-i);
    } else {
      ParseNatToDecimal(i);
    }
  }

  /** A digit string that does not start with `0` has a positive value. */
  lemma {:induction false} ParseNatPositive(d: string)
    requires |d| > 0 && AllDigits(d) && d[0] != '0'
    ensures ParseNat(d) > 0
    decreases |d|
  {
    if |d| > 1 {
      ParseNatPositive(d[..|d| - 1]);
    }
  }

  /** A digit string without leading zeros is the rendering of its value. */
  lemma {:induction false} NatToDecimalParseNat(d: string)
    requires |d| > 0 && AllDigits(d) && (|d| > 1 ==> d[0] != '0')
    ensures NatToDecimal(ParseNat(d)) == d
    decreases |d|
  {
    if |d| > 1 {
      var front := d[..|d| - 1];
      ParseNatPositive(front);
      NatToDecimalParseNat(front);
      assert d == front + [d[|d| - 1]];
    }
  }

  /** A canonical integer literal is the rendering of its value, so value and
      form together fix the string. */
  lemma CanonicalLiteralUnique(s: string)
    requires IsCanonicalIntLiteral(s)
    ensures IntToDecimal(ParseInt(s)) == s
  {
    var d := Magnitude(s);
    NatToDecimalParseNat(d);
    if s[0] == '-' {
      assert d[0] != '0' by {
        if |d| == 1 {
          assert d == [d[0]];
        }
      }
      ParseNatPositive(d);
      assert s == "-" + d;
    }
  }

  /** Only digits and `-` appear in an integer literal. */
  lemma IntLiteralChars(s: string, c: char)
    requires IsIntLiteral(s) && c in s
    ensures IsDigit(c) || c == '-'
  {
    var i :| 0 <= i < |s| && s[i] == c;
    if s[0] == '-' && i > 0 {
      assert s[1..][i - 1] == c;
    }
  }
}
