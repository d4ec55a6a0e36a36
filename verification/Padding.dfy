/** PKCS#7 padding to 16-byte blocks (RFC 5652 section 6.3), as src/argus.c and src/ladon.c write it. */
module Padding {
  import opened Bytes

  /** How many bytes the padding adds: at least one, at most a whole block. */
  function PadLength(size: nat): (n: nat)
    ensures 1 <= n <= 16
  {
    16 - size % 16
  }

  function Tail(n: nat): (t: seq<byte>)
    requires n <= 16
    ensures |t| == n && forall i :: 0 <= i < n ==> t[i] == ToByte(n)
  {
    seq(n, _ => ToByte(n))
  }

  function Pad(s: seq<byte>): (r: seq<byte>) {
    s + Tail(PadLength(|s|))
  }

  /** The RFC's reader: the last byte says how many bytes to drop, and each of them must hold that number. */
  function Unpad(s: seq<byte>): Option<seq<byte>> {
    if s == [] then None
    else
      var n := s[|s| - 1] as nat;
      if 1 <= n <= 16 && n <= |s| && s[|s| - n..] == Tail(n) then Some(s[..|s| - n]) else None
  }

  lemma PadWhole(s: seq<byte>)
    ensures |Pad(s)| % 16 == 0
    ensures |s| < |Pad(s)| <= |s| + 16
  {
  }

  lemma UnpadPad(s: seq<byte>)
    ensures Unpad(Pad(s)) == Some(s)
  {
    hide ToByte, PadLength;
    var n := PadLength(|s|);
    var p := Pad(s);
    assert p[|p| - 1] == ToByte(n);
    assert p[|p| - n..] == Tail(n);
    assert p[..|p| - n] == s;
  }

  /** Padding loses nothing. */
  lemma PadInjective(s: seq<byte>, t: seq<byte>)
    requires Pad(s) == Pad(t)
    ensures s == t
  {
    UnpadPad(s);
    UnpadPad(t);
  }

  method Pkcs7Pad(data: seq<byte>) returns (p: array<byte>)
    ensures fresh(p) && p[..] == Pad(data)
  {
    var n := PadLength(|data|);
    var filler := ToByte(n);
    p := new byte[|data| + n];
    hide PadLength;
    CopyInto(p, 0, data);
    for i := |data| to p.Length
      invariant p[..|data|] == data
      invariant forall k :: |data| <= k < i ==> p[k] == filler
    {
      p[i] := filler;
    }
    assert p[|data|..] == Tail(n);
  }
}
