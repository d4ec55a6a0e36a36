/** Word and hexadecimal helpers (src/crypto_helpers.c). */
module CryptoHelpers {
  import opened Bytes

  // ---------------------------------------------------------------- 64-bit little-endian words

  function LowByte(v: bv64): byte {
    (v & 0xFF) as byte
  }

  function ByteAt(v: bv64, k: nat): byte {
    match k
    case 0 => LowByte(v)
    case 1 => LowByte(v >> 8)
    case 2 => LowByte(v >> 16)
    case 3 => LowByte(v >> 24)
    case 4 => LowByte(v >> 32)
    case 5 => LowByte(v >> 40)
    case 6 => LowByte(v >> 48)
    case _ => LowByte(v >> 56)
  }

  function Join(b0: byte, b1: byte, b2: byte, b3: byte, b4: byte, b5: byte, b6: byte, b7: byte): bv64 {
    b0 as bv64 | (b1 as bv64 << 8) | (b2 as bv64 << 16) | (b3 as bv64 << 24)
    | (b4 as bv64 << 32) | (b5 as bv64 << 40) | (b6 as bv64 << 48) | (b7 as bv64 << 56)
  }

  lemma JoinOfBytes(v: bv64)
    ensures Join(ByteAt(v, 0), ByteAt(v, 1), ByteAt(v, 2), ByteAt(v, 3),
                 ByteAt(v, 4), ByteAt(v, 5), ByteAt(v, 6), ByteAt(v, 7)) == v
  {
  }

  lemma LowBytesOfJoin(b0: byte, b1: byte, b2: byte, b3: byte, b4: byte, b5: byte, b6: byte, b7: byte)
    ensures var v := Join(b0, b1, b2, b3, b4, b5, b6, b7);
            ByteAt(v, 0) == b0 && ByteAt(v, 1) == b1 && ByteAt(v, 2) == b2 && ByteAt(v, 3) == b3
  {
  }

  lemma HighBytesOfJoin(b0: byte, b1: byte, b2: byte, b3: byte, b4: byte, b5: byte, b6: byte, b7: byte)
    ensures var v := Join(b0, b1, b2, b3, b4, b5, b6, b7);
            ByteAt(v, 4) == b4 && ByteAt(v, 5) == b5 && ByteAt(v, 6) == b6 && ByteAt(v, 7) == b7
  {
  }

  function Le64Bytes(v: bv64): (b: seq<byte>)
    ensures |b| == 8
  {
    seq(8, k requires 0 <= k < 8 => ByteAt(v, k))
  }

  function Le64Read(b: seq<byte>, off: nat): bv64
    requires off + 8 <= |b|
  {
    Join(b[off], b[off + 1], b[off + 2], b[off + 3], b[off + 4], b[off + 5], b[off + 6], b[off + 7])
  }

  lemma Le64ReadBytes(v: bv64)
    ensures Le64Read(Le64Bytes(v), 0) == v
  {
    hide ByteAt, Join;
    JoinOfBytes(v);
  }

  lemma Le64BytesRead(b: seq<byte>, off: nat)
    requires off + 8 <= |b|
    ensures Le64Bytes(Le64Read(b, off)) == b[off..off + 8]
  {
    hide ByteAt, Join;
    LowBytesOfJoin(b[off], b[off + 1], b[off + 2], b[off + 3], b[off + 4], b[off + 5], b[off + 6], b[off + 7]);
    HighBytesOfJoin(b[off], b[off + 1], b[off + 2], b[off + 3], b[off + 4], b[off + 5], b[off + 6], b[off + 7]);
  }

  method Le64Write(dst: array<byte>, index: nat, v: bv64)
    requires index * 8 + 8 <= dst.Length
    modifies dst
    ensures dst[..] == old(dst[..index * 8]) + Le64Bytes(v) + old(dst[index * 8 + 8..])
  {
    var b := Le64Bytes(v);
    hide *;
    forall k | 0 <= k < 8 {
      dst[index * 8 + k] := b[k];
    }
  }

  // ---------------------------------------------------------------- hexadecimal text

  /** The value of a hexadecimal digit of either case; 0 for any other character. */
  function HexNibble(c: byte): byte {
    if 0x30 <= c <= 0x39 then c - 0x30       // '0' to '9'
    else if 0x61 <= c <= 0x66 then c - 0x57  // 'a' to 'f'
    else if 0x41 <= c <= 0x46 then c - 0x37  // 'A' to 'F'
    else 0
  }

  /** Entry `n` of the table "0123456789abcdef". */
  function HexDigit(n: byte): (c: byte)
    requires n < 16
    ensures HexNibble(c) == n
    ensures c != 0
  {
    if n < 10 then 0x30 + n else 0x57 + n
  }

  /** The byte written by two hexadecimal digits, the high half first. */
  function FromDigits(hi: byte, lo: byte): byte {
    (HexNibble(hi) << 4) | HexNibble(lo)
  }

  function HexPair(b: byte): (r: seq<byte>)
    ensures |r| == 2 && FromDigits(r[0], r[1]) == b
    ensures ZeroFree(r)
  {
    [HexDigit((b >> 4) & 0x0F), HexDigit(b & 0x0F)]
  }

  function HexText(b: seq<byte>): (r: seq<byte>)
    ensures |r| == 2 * |b|
    ensures ZeroFree(r)
  {
    if b == [] then [] else HexPair(b[0]) + HexText(b[1..])
  }

  function HexDecode(s: seq<byte>): (r: seq<byte>)
    requires |s| % 2 == 0
    ensures |r| == |s| / 2
  {
    if s == [] then [] else [FromDigits(s[0], s[1])] + HexDecode(s[2..])
  }

  function UpperDigit(c: byte): (u: byte)
    ensures HexNibble(u) == HexNibble(c)
    ensures u == c || 0x61 <= c <= 0x66
  {
    if 0x61 <= c <= 0x66 then c - 0x20 else c
  }

  /** What X-SS-Stub does to the lower-case digest text: letters a to f become A to F. */
  function UpperHex(s: seq<byte>): (r: seq<byte>)
    ensures |r| == |s|
  {
    seq(|s|, i requires 0 <= i < |s| => UpperDigit(s[i]))
  }

  lemma {:induction false} HexDecodeText(b: seq<byte>)
    ensures HexDecode(HexText(b)) == b
  {
    if b != [] {
      var r := HexText(b);
      assert r[2..] == HexText(b[1..]);
      HexDecodeText(b[1..]);
    }
  }

  /** Decoding does not see the case of a digit. */
  lemma {:induction false} HexDecodeUpper(s: seq<byte>)
    requires |s| % 2 == 0
    ensures HexDecode(UpperHex(s)) == HexDecode(s)
  {
    if s != [] {
      var u := UpperHex(s);
      assert u[2..] == UpperHex(s[2..]);
      assert FromDigits(u[0], u[1]) == FromDigits(s[0], s[1]);
      HexDecodeUpper(s[2..]);
    }
  }

  /** Digest text has the digits 0 to 9 and a to f. */
  lemma {:induction false} HexTextLower(b: seq<byte>)
    ensures forall i :: 0 <= i < |HexText(b)| ==> 0x30 <= HexText(b)[i] <= 0x39 || 0x61 <= HexText(b)[i] <= 0x66
  {
    if b != [] {
      PairLower(b[0]);
      HexTextLower(b[1..]);
      hide HexPair;
    }
  }

  lemma PairLower(b: byte)
    ensures forall i :: 0 <= i < 2 ==> 0x30 <= HexPair(b)[i] <= 0x39 || 0x61 <= HexPair(b)[i] <= 0x66
  {
  }

  /** X-SS-Stub has the digits 0 to 9 and A to F. */
  lemma StubDigits(b: seq<byte>)
    ensures forall i :: 0 <= i < |UpperHex(HexText(b))| ==>
                0x30 <= UpperHex(HexText(b))[i] <= 0x39 || 0x41 <= UpperHex(HexText(b))[i] <= 0x46
  {
    HexTextLower(b);
    hide HexText;
  }

  /** Any other character is read as the digit 0. */
  lemma NibbleOfOther(c: byte)
    requires !(0x30 <= c <= 0x39) && !(0x41 <= c <= 0x46) && !(0x61 <= c <= 0x66)
    ensures forall d :: FromDigits(c, d) == FromDigits(0x30, d) && FromDigits(d, c) == FromDigits(d, 0x30)
  {
  }

  lemma {:induction false} HexDecodePrefix(s: seq<byte>, n: nat)
    requires |s| % 2 == 0 && 2 * n <= |s|
    ensures HexDecode(s[..2 * n]) == HexDecode(s)[..n]
  {
    if n > 0 {
      assert s[..2 * n][2..] == s[2..][..2 * (n - 1)];
      HexDecodePrefix(s[2..], n - 1);
    }
  }

  lemma HexTextStep(b: seq<byte>, i: nat)
    requires i < |b|
    ensures HexText(b[i..]) == HexPair(b[i]) + HexText(b[i + 1..])
  {
    assert b[i..][1..] == b[i + 1..];
  }

  method BytesToHex(bytes: seq<byte>, out: array<byte>)
    requires out.Length > 2 * |bytes|
    modifies out
    ensures HoldsString(out, HexText(bytes))
  {
    for i := 0 to |bytes|
      invariant out[..2 * i] + HexText(bytes[i..]) == HexText(bytes)
    {
      hide *;
      var pair := HexPair(bytes[i]);
      ghost var done, rest := out[..2 * i], HexText(bytes[i + 1..]);
      assert HexText(bytes) == done + pair + rest by {
        HexTextStep(bytes, i);
        assert done + (pair + rest) == done + pair + rest;
      }
      out[i * 2] := pair[0];
      out[i * 2 + 1] := pair[1];
      assert out[..2 * (i + 1)] == done + pair;
    }
    out[|bytes| * 2] := 0;
  }

  lemma HexDecodeStep(s: seq<byte>, i: nat)
    requires |s| % 2 == 0 && i % 2 == 0 && i + 2 <= |s|
    ensures HexDecode(s[i..]) == [FromDigits(s[i], s[i + 1])] + HexDecode(s[i + 2..])
  {
    hide FromDigits;
    assert s[i..][2..] == s[i + 2..];
  }

  method HexDecodeString(s: seq<byte>) returns (out: array<byte>)
    requires |s| % 2 == 0
    ensures fresh(out) && out[..] == HexDecode(s)
  {
    out := new byte[|s| / 2];
    var i := 0;
    while i < |s|
      invariant i % 2 == 0 && i <= |s|
      invariant out[..i / 2] + HexDecode(s[i..]) == HexDecode(s)
    {
      hide *;
      var b := FromDigits(s[i], s[i + 1]);
      ghost var done, rest := out[..i / 2], HexDecode(s[i + 2..]);
      assert HexDecode(s) == done + [b] + rest by {
        HexDecodeStep(s, i);
        assert done + ([b] + rest) == done + [b] + rest;
      }
      out[i / 2] := b;
      i := i + 2;
      assert out[..i / 2] == done + [b];
    }
    assert out[..] == out[..i / 2];
  }

  lemma {:induction false} HexDecodeSnoc(s: seq<byte>, n: nat)
    requires 2 * n + 2 <= |s|
    ensures HexDecode(s[..2 * n + 2]) == HexDecode(s[..2 * n]) + [FromDigits(s[2 * n], s[2 * n + 1])]
  {
    hide FromDigits;
    if n > 0 {
      assert s[..2 * n + 2][2..] == s[2..][..2 * n];
      assert s[..2 * n][2..] == s[2..][..2 * n - 2];
      HexDecodeSnoc(s[2..], n - 1);
    }
  }

  method FirstDigestBytes(hexDigest: seq<byte>, n: nat) returns (out: array<byte>)
    requires 2 * n <= |hexDigest|
    ensures fresh(out) && out[..] == HexDecode(hexDigest[..2 * n])
  {
    out := new byte[n];
    for i := 0 to n
      invariant out[..i] == HexDecode(hexDigest[..2 * i])
    {
      HexDecodeSnoc(hexDigest, i);
      hide *;
      out[i] := FromDigits(hexDigest[2 * i], hexDigest[2 * i + 1]);
    }
    assert out[..] == out[..n];
  }

  // ---------------------------------------------------------------- MD5, a foreign function

  /** MD5 is any function to 16 bytes. */
  type Digest = d: seq<byte> | |d| == 16 witness seq(16, _ => 0)
  type Md5 = seq<byte> -> Digest

  /** The first four digest bytes survive the detour through digest text (md5_hex, then first_digest_bytes). */
  lemma DigestDetour(d: Digest)
    ensures |HexText(d)| == 32
    ensures HexDecode(HexText(d)[..8]) == d[..4]
  {
    HexDecodePrefix(HexText(d), 4);
    HexDecodeText(d);
  }
}
