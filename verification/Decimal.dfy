/** The "%d" and "%lld" conversions of printf, with a reader that takes the text apart again. */
module Decimal {
  import opened Bytes

  const MINUS: byte := 0x2D

  predicate IsDigit(c: byte) {
    0x30 <= c <= 0x39
  }

  function DigitByte(d: nat): (c: byte)
    requires d < 10
    ensures IsDigit(c) && DigitValue(c) == d
  {
    match d
    case 0 => 0x30
    case 1 => 0x31
    case 2 => 0x32
    case 3 => 0x33
    case 4 => 0x34
    case 5 => 0x35
    case 6 => 0x36
    case 7 => 0x37
    case 8 => 0x38
    case _ => 0x39
  }

  function DigitValue(c: byte): nat
    requires IsDigit(c)
  {
    if c == 0x30 then 0 else if c == 0x31 then 1 else if c == 0x32 then 2 else if c == 0x33 then 3
    else if c == 0x34 then 4 else if c == 0x35 then 5 else if c == 0x36 then 6 else if c == 0x37 then 7
    else if c == 0x38 then 8 else 9
  }

  /** The digits of `n`, without leading zeros. */
  function Digits(n: nat): (s: seq<byte>)
    ensures s != [] && forall i :: 0 <= i < |s| ==> IsDigit(s[i])
  {
    if n < 10 then [DigitByte(n)] else Digits(n / 10) + [DigitByte(n % 10)]
  }

  function Text(n: int): (s: seq<byte>)
    ensures s != [] && IsDigit(s[|s| - 1])
    ensures ZeroFree(s)
  {
    if n < 0 then [MINUS] + Digits(-n) else Digits(n)
  }

  // ---------------------------------------------------------------- reading

  predicate AllDigits(s: seq<byte>) {
    forall i :: 0 <= i < |s| ==> IsDigit(s[i])
  }

  function Number(s: seq<byte>): nat
    requires AllDigits(s)
  {
    if s == [] then 0 else 10 * Number(s[..|s| - 1]) + DigitValue(s[|s| - 1])
  }

  lemma {:induction false} NumberOfDigits(n: nat)
    ensures Number(Digits(n)) == n
  {
    hide DigitByte, DigitValue, IsDigit;
    if n < 10 {
      assert Digits(n)[..0] == [];
    } else {
      NumberOfDigits(n / 10);
      assert Digits(n)[..|Digits(n)| - 1] == Digits(n / 10);
    }
  }

  /** How many digits `s` starts with. */
  function Span(s: seq<byte>): (n: nat)
    ensures n <= |s| && AllDigits(s[..n])
    ensures n < |s| ==> !IsDigit(s[n])
  {
    if s == [] || !IsDigit(s[0]) then 0 else 1 + Span(s[1..])
  }

  lemma {:induction false} SpanIs(s: seq<byte>, n: nat)
    requires n <= |s| && AllDigits(s[..n])
    requires n < |s| ==> !IsDigit(s[n])
    ensures Span(s) == n
  {
    hide IsDigit;
    if n > 0 {
      assert s[..n][0] == s[0];
      assert s[1..][..n - 1] == s[..n][1..];
      SpanIs(s[1..], n - 1);
    }
  }

  /** The natural number that `s` starts with, and what follows it. */
  function ReadNat(s: seq<byte>): Option<(nat, seq<byte>)> {
    var n := Span(s);
    if n == 0 then None else Some((Number(s[..n]), s[n..]))
  }

  /** The integer that `s` starts with, and what follows it. */
  function Read(s: seq<byte>): Option<(int, seq<byte>)> {
    if s != [] && s[0] == 0x2D then
      match ReadNat(s[1..])
      case None => None
      case Some(r) => var v: int := r.0; Some((-v, r.1))
    else
      match ReadNat(s)
      case None => None
      case Some(r) => Some((r.0, r.1))
  }

  predicate StartsWithDigit(s: seq<byte>) {
    s != [] && IsDigit(s[0])
  }

  lemma ReadDigits(n: nat, rest: seq<byte>)
    requires !StartsWithDigit(rest)
    ensures ReadNat(Digits(n) + rest) == Some((n, rest))
  {
    var d := Digits(n);
    NumberOfDigits(n);
    hide Digits, Number, IsDigit;
    assert (d + rest)[..|d|] == d && (d + rest)[|d|..] == rest;
    SpanIs(d + rest, |d|);
  }

  lemma MinusIsNoDigit()
    ensures !IsDigit(MINUS)
  {
  }

  lemma ReadNegative(n: nat, rest: seq<byte>)
    requires !StartsWithDigit(rest)
    ensures var m: int := n; Read([MINUS] + Digits(n) + rest) == Some((-m, rest))
  {
    hide Digits, ReadNat, StartsWithDigit;
    ReadDigits(n, rest);
    assert ([MINUS] + Digits(n) + rest)[1..] == Digits(n) + rest;
  }

  lemma ReadNatural(n: nat, rest: seq<byte>)
    requires !StartsWithDigit(rest)
    ensures Read(Digits(n) + rest) == Some((n, rest))
  {
    ReadDigits(n, rest);
    MinusIsNoDigit();
    assert IsDigit(Digits(n)[0]);
    hide Digits, ReadNat, IsDigit, StartsWithDigit;
  }

  /** Reading stops exactly where the printed text ends. */
  lemma ReadText(n: int, rest: seq<byte>)
    requires !StartsWithDigit(rest)
    ensures Read(Text(n) + rest) == Some((n, rest))
  {
    hide Digits, Read, StartsWithDigit, IsDigit;
    if n < 0 {
      ReadNegative(-n, rest);
    } else {
      ReadNatural(n, rest);
    }
  }

  // ---------------------------------------------------------------- how long the text can be

  lemma {:induction false} DigitsLength(n: nat, k: nat)
    requires 1 <= k && n < Pow(10, k)
    ensures |Digits(n)| <= k
  {
    if n >= 10 {
      DigitsLength(n / 10, k - 1);
    }
  }

  /** A 64-bit value prints in at most 20 characters and a 32-bit value in at most 11. */
  lemma TextLength(n: int)
    ensures -0x8000_0000_0000_0000 <= n < 0x8000_0000_0000_0000 ==> |Text(n)| <= 20
    ensures -0x8000_0000 <= n < 0x8000_0000 ==> |Text(n)| <= 11
  {
    var m := if n < 0 then -n else n;
    assert Pow(10, 5) == 100_000;
    assert Pow(10, 10) == 10_000_000_000;
    assert Pow(10, 15) == 1_000_000_000_000_000;
    assert Pow(10, 19) == 10_000_000_000_000_000_000;
    if m < Pow(10, 19) {
      DigitsLength(m, 19);
    }
    if m < Pow(10, 10) {
      DigitsLength(m, 10);
    }
  }
}
