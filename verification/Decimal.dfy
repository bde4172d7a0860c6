/** Decimal notation of integers, and the digit loop that writes it backwards. */
module Decimal {
  function Digit(d: nat): char
    requires d < 10
  {
    ['0', '1', '2', '3', '4', '5', '6', '7', '8', '9'][d]
  }

  function Abs(v: int): nat {
    if v < 0 then -v else v
  }

  /** The decimal digits of n, most significant first. */
  function Nat(n: nat): (s: string)
    ensures s != ""
  {
    if n < 10 then [Digit(n)] else Nat(n / 10) + [Digit(n % 10)]
  }

  function Text(v: int): string {
    if v < 0 then "-" + Nat(-v) else Nat(v)
  }

  // ---------------------------------------------------------------- reading it back

  predicate IsDigit(c: char) {
    '0' <= c <= '9'
  }

  function Value(c: char): nat
    requires IsDigit(c)
  {
    (c - '0') as nat
  }

  predicate Digits(s: string) {
    forall i :: 0 <= i < |s| ==> IsDigit(s[i])
  }

  function ParseNat(s: string): nat
    requires Digits(s)
  {
    if s == "" then 0 else 10 * ParseNat(s[..|s| - 1]) + Value(s[|s| - 1])
  }

  /** Digits without a leading zero, unless the number is zero. */
  predicate CanonicalNat(s: string) {
    s != "" && Digits(s) && (s[0] == '0' ==> |s| == 1)
  }

  /** A canonical number, or a minus sign before one that is not zero. */
  predicate Canonical(s: string) {
    if s != "" && s[0] == '-' then CanonicalNat(s[1..]) && s[1] != '0' else CanonicalNat(s)
  }

  function Parse(s: string): int
    requires Canonical(s)
  {
    if s[0] == '-' then 0 - ParseNat(s[1..]) else ParseNat(s)
  }

  lemma DigitValue(d: nat)
    requires d < 10
    ensures IsDigit(Digit(d)) && Value(Digit(d)) == d && (Digit(d) == '0' <==> d == 0)
  {
  }

  lemma {:induction false} NatParses(n: nat)
    ensures CanonicalNat(Nat(n)) && ParseNat(Nat(n)) == n && (Nat(n)[0] == '0' <==> n == 0)
  {
    DigitValue(n % 10);
    if n < 10 {
      assert Nat(n)[..0] == "";
    } else {
      NatParses(n / 10);
      assert Nat(n)[..|Nat(n)| - 1] == Nat(n / 10);
    }
  }

  lemma NatOfDigit(n: nat, d: nat)
    requires n > 0 && d < 10
    ensures Nat(10 * n + d) == Nat(n) + [Digit(d)]
  {
  }

  lemma {:induction false} ParseWrites(s: string)
    requires CanonicalNat(s)
    ensures Nat(ParseNat(s)) == s && (s[0] != '0' ==> ParseNat(s) > 0)
  {
    var n := |s| - 1;
    var d := Value(s[n]);
    assert Digit(d) == s[n];
    if n == 0 {
      assert s[..0] == "";
    } else {
      ParseWrites(s[..n]);
      assert s == s[..n] + [s[n]];
      NatOfDigit(ParseNat(s[..n]), d);
    }
  }

  /** Writing and reading are inverse, in both directions: the text is canonical and gives the value back, and every
      canonical text is the text of its value. */
  lemma TextParses(v: int)
    ensures Canonical(Text(v)) && Parse(Text(v)) == v
  {
    NatParses(Abs(v));
    if v < 0 { assert Text(v)[1..] == Nat(-v); }
  }

  lemma ParseTexts(s: string)
    requires Canonical(s)
    ensures Text(Parse(s)) == s
  {
    if s[0] == '-' {
      ParseWrites(s[1..]);
      assert s == "-" + s[1..];
    } else {
      ParseWrites(s);
    }
  }

  // ---------------------------------------------------------------- length

  function Pow10(k: nat): nat {
    if k == 0 then 1 else 10 * Pow10(k - 1)
  }

  lemma {:induction false} NatLength(n: nat, k: nat)
    requires k > 0
    ensures |Nat(n)| <= k <==> n < Pow10(k)
  {
    if n >= 10 && k > 1 {
      NatLength(n / 10, k - 1);
    } else {
      assert k > 1 ==> Pow10(k - 1) >= 1 by { PowPositive(k - 1); }
    }
  }

  lemma {:induction false} PowPositive(k: nat)
    ensures Pow10(k) >= 1
  {
    if k > 0 { PowPositive(k - 1); }
  }

  /** Every integer of up to 64 bits, signed or not, takes at most 20 characters. */
  lemma TextLength(v: int)
    requires -0x8000_0000_0000_0000 <= v < 0x1_0000_0000_0000_0000
    ensures 1 <= |Text(v)| <= 20
  {
    Pow19();
    NatLength(Abs(v), 19);
    NatLength(Abs(v), 20);
  }

  lemma Pow19()
    ensures Pow10(19) == 10_000_000_000_000_000_000 && Pow10(20) == 10 * Pow10(19)
  {
    assert Pow10(5) == 100_000;
    assert Pow10(10) == 100_000 * 100_000;
    assert Pow10(15) == 100_000 * 100_000 * 100_000;
    assert Pow10(19) == 10_000 * Pow10(15);
  }

  // ---------------------------------------------------------------- the digit loop

  /** C++'s division by ten truncates towards zero, and the remainder has the sign of the dividend. */
  function DivTen(i: int): int {
    if i >= 0 then i / 10 else -((-i) / 10)
  }

  function ModTen(i: int): int {
    i - 10 * DivTen(i)
  }

  /** The digits of n, least significant first. */
  function Low(n: nat): string {
    if n < 10 then [Digit(n)] else [Digit(n % 10)] + Low(n / 10)
  }

  /** What is left to write when the loop variable is i. */
  function Rest(i: int): string {
    if i == 0 then "" else Low(Abs(i))
  }

  /** One turn of the loop: the digit of i, then what is left of it. */
  lemma LowStep(i: int)
    ensures Low(Abs(i)) == [Digit(Abs(i) % 10)] + Rest(DivTen(i))
  {
    TableEntry(i);
  }

  function Reversed(s: string): (r: string)
    ensures |r| == |s| && forall i :: 0 <= i < |s| ==> r[i] == s[|s| - 1 - i]
  {
    seq(|s|, i requires 0 <= i < |s| => s[|s| - 1 - i])
  }

  lemma {:induction false} ReversedLow(n: nat)
    ensures Reversed(Low(n)) == Nat(n)
  {
    if n >= 10 {
      ReversedLow(n / 10);
      assert Low(n)[1..] == Low(n / 10);
    }
  }

  /** The table serves remainders of either sign: entry 9 + d is the digit |d|. */
  const TABLE: string := "9876543210123456789"

  lemma TableEntry(i: int)
    ensures -9 <= ModTen(i) <= 9 && |TABLE| == 19 && TABLE[9 + ModTen(i)] == Digit(Abs(i) % 10)
    ensures Abs(DivTen(i)) == Abs(i) / 10 && (DivTen(i) == 0 <==> Abs(i) < 10)
  {
    var d := Abs(i) % 10;
    assert ModTen(i) == if i >= 0 then d else -d;
  }
}
