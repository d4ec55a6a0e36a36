/** Bytes, C strings and the sequence facts shared by every other module. */
module Bytes {

  type byte = bv8

  /** A value that may be missing: a decoder that rejects its input, a NULL pointer. */
  datatype Option<+T> = None | Some(value: T)

  /** A C string holds no zero byte before its terminator. */
  predicate ZeroFree(s: seq<byte>) {
    0 !in s
  }

  /** What strlen, strcmp and strdup see of a buffer that holds `s`: the bytes before the first zero. */
  function CStr(s: seq<byte>): (r: seq<byte>)
    ensures ZeroFree(r)
    ensures r <= s
    ensures r == s || s[|r|] == 0
    ensures ZeroFree(s) ==> r == s
  {
    if s == [] || s[0] == 0 then [] else [s[0]] + CStr(s[1..])
  }

  /** A buffer that holds `t` and a terminator reads as `t` does. */
  lemma {:induction false} CStrCut(t: seq<byte>, buffer: seq<byte>)
    requires |t| < |buffer| && buffer[..|t|] == t && buffer[|t|] == 0
    ensures CStr(buffer) == CStr(t)
  {
    if t != [] {
      assert t[0] == buffer[0];
      CStrCut(t[1..], buffer[1..]);
    }
  }

  /** Buffer `a` holds the zero-terminated string `s` from its start. */
  ghost predicate HoldsString(a: array<byte>, s: seq<byte>)
    reads a
  {
    |s| < a.Length && a[..|s|] == s && a[|s|] == 0
  }

  /** The byte with value `n`, for a half byte. */
  function Nibble(n: nat): (b: byte)
    requires n < 16
    ensures b < 16 && b as nat == n
  {
    match n
    case 0 => 0
    case 1 => 1
    case 2 => 2
    case 3 => 3
    case 4 => 4
    case 5 => 5
    case 6 => 6
    case 7 => 7
    case 8 => 8
    case 9 => 9
    case 10 => 10
    case 11 => 11
    case 12 => 12
    case 13 => 13
    case 14 => 14
    case _ => 15
  }

  lemma JoinNibbles(hi: byte, lo: byte)
    requires hi < 16 && lo < 16
    ensures ((hi << 4) | lo) as nat == 16 * hi as nat + lo as nat
  {
  }

  /** The byte with value `n`: the conversion (uint8_t)n of a number below 256. */
  function ToByte(n: nat): (b: byte)
    requires n < 256
    ensures b as nat == n
  {
    JoinNibbles(Nibble(n / 16), Nibble(n % 16));
    (Nibble(n / 16) << 4) | Nibble(n % 16)
  }

  /** The low `k` bytes of `n`, the most significant first. */
  function BeBytes(n: nat, k: nat): (r: seq<byte>)
    ensures |r| == k
  {
    if k == 0 then [] else BeBytes(n / 256, k - 1) + [ToByte(n % 256)]
  }

  function BeValue(s: seq<byte>): nat {
    if s == [] then 0 else 256 * BeValue(s[..|s| - 1]) + s[|s| - 1] as nat
  }

  function Pow(base: nat, k: nat): (p: nat)
    requires 0 < base
    ensures 0 < p
  {
    if k == 0 then 1 else base * Pow(base, k - 1)
  }

  lemma {:induction false} BeValueBytes(n: nat, k: nat)
    requires n < Pow(256, k)
    ensures BeValue(BeBytes(n, k)) == n
  {
    hide ToByte;
    if k > 0 {
      BeValueBytes(n / 256, k - 1);
      assert BeBytes(n, k)[..k - 1] == BeBytes(n / 256, k - 1);
    }
  }

  /** (uint8_t)(n >> (8 * i)). */
  function ShiftByte(n: nat, i: nat): byte {
    if i == 0 then ToByte(n % 256) else ShiftByte(n / 256, i - 1)
  }

  lemma {:induction false} ShiftByteIs(n: nat, k: nat, i: nat)
    requires i < k
    ensures ShiftByte(n, i) == BeBytes(n, k)[k - 1 - i]
  {
    hide ToByte;
    if i > 0 {
      ShiftByteIs(n / 256, k - 1, i - 1);
    }
  }

  function Zeros(n: nat): (z: seq<byte>)
    ensures |z| == n && forall i :: 0 <= i < n ==> z[i] == 0
  {
    seq(n, _ => 0)
  }

  function XorByte(a: byte, b: byte): byte {
    a ^ b
  }

  lemma XorByteTwice(a: byte, b: byte)
    ensures XorByte(XorByte(a, b), b) == a
  {
  }

  function Reversed(s: seq<byte>): (r: seq<byte>)
    ensures |r| == |s|
    ensures forall i :: 0 <= i < |s| ==> r[i] == s[|s| - 1 - i]
  {
    seq(|s|, i requires 0 <= i < |s| => s[|s| - 1 - i])
  }

  lemma ReversedTwice(s: seq<byte>)
    ensures Reversed(Reversed(s)) == s
  {
  }

  lemma Assoc(a: seq<byte>, b: seq<byte>, c: seq<byte>)
    ensures a + (b + c) == a + b + c
  {
  }

  /** Copies `src` to `dst[at..at + |src|]` and touches nothing else, as memcpy does. */
  method CopyInto(dst: array<byte>, at: nat, src: seq<byte>)
    requires at + |src| <= dst.Length
    modifies dst
    ensures dst[..] == old(dst[..at]) + src + old(dst[at + |src|..])
  {
    forall i | 0 <= i < |src| {
      dst[at + i] := src[i];
    }
  }

  /** realloc to twice the size. */
  method Double<T(0)>(a: array<T>, count: nat) returns (b: array<T>)
    requires count <= a.Length
    ensures fresh(b) && b.Length == 2 * a.Length && b[..count] == a[..count]
  {
    b := new T[2 * a.Length];
    forall i | 0 <= i < count {
      b[i] := a[i];
    }
  }

  /** One element more, doubling a full array first. */
  method Append<T(0)>(a: array<T>, count: nat, x: T) returns (b: array<T>)
    requires count <= a.Length && 0 < a.Length
    modifies a
    ensures (b == a || fresh(b)) && a.Length <= b.Length && count < b.Length
    ensures b[..count + 1] == old(a[..count]) + [x]
  {
    b := a;
    if count >= b.Length {
      b := Double(b, count);
    }
    b[count] := x;
  }
}
