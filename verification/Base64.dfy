/** The base64 loop that src/argus.c and src/ladon.c both write out, with a decoder for RFC 4648 section 4. */
module Base64 {
  import opened Bytes

  const PAD: byte := 0x3D  // '='

  /** Entry `n` of the table "A..Za..z0..9+/". */
  function Char(n: byte): (c: byte)
    requires n < 64
    ensures Value(c) == n && c != PAD && c != 0
  {
    if n < 26 then 0x41 + n
    else if n < 52 then 0x47 + n
    else if n < 62 then n - 4
    else if n == 62 then 0x2B
    else 0x2F
  }

  /** The six bits a character stands for; 0 outside the alphabet. */
  function Value(c: byte): (n: byte)
    ensures n < 64
  {
    if 0x41 <= c <= 0x5A then c - 0x41
    else if 0x61 <= c <= 0x7A then c - 0x47
    else if 0x30 <= c <= 0x39 then c + 4
    else if c == 0x2B then 62
    else if c == 0x2F then 63
    else 0
  }

  /** The four six-bit groups of three bytes. */
  function Sextets(a: byte, b: byte, c: byte): (r: (byte, byte, byte, byte))
    ensures r.0 < 64 && r.1 < 64 && r.2 < 64 && r.3 < 64
  {
    var n := (a as bv32 << 16) | (b as bv32 << 8) | c as bv32;
    (((n >> 18) & 0x3F) as byte, ((n >> 12) & 0x3F) as byte, ((n >> 6) & 0x3F) as byte, (n & 0x3F) as byte)
  }

  function Octets(p: byte, q: byte, r: byte, s: byte): (byte, byte, byte) {
    ((p << 2) | (q >> 4), (q << 4) | (r >> 2), (r << 6) | s)
  }

  lemma OctetsOfSextets(a: byte, b: byte, c: byte)
    ensures var r := Sextets(a, b, c); Octets(r.0, r.1, r.2, r.3) == (a, b, c)
  {
  }

  /** One turn of the loop: absent bytes count as zero, and '=' stands for the groups they leave empty. */
  function Quad(b: seq<byte>): (r: seq<byte>)
    requires 1 <= |b| <= 3
    ensures |r| == 4
  {
    var n := Sextets(b[0], if |b| > 1 then b[1] else 0, if |b| > 2 then b[2] else 0);
    [Char(n.0), Char(n.1), if |b| > 1 then Char(n.2) else PAD, if |b| > 2 then Char(n.3) else PAD]
  }

  function Unquad(q: seq<byte>): (r: seq<byte>)
    requires |q| == 4
  {
    var o := Octets(Value(q[0]), Value(q[1]), Value(q[2]), Value(q[3]));
    if q[2] == 0x3D then [o.0] else if q[3] == 0x3D then [o.0, o.1] else [o.0, o.1, o.2]
  }

  lemma PartialOctets(a: byte, b: byte)
    ensures var r := Sextets(a, 0, 0); Octets(r.0, r.1, 0, 0).0 == a
    ensures var r := Sextets(a, b, 0); Octets(r.0, r.1, r.2, 0).0 == a && Octets(r.0, r.1, r.2, 0).1 == b
  {
  }

  lemma PadIsZero()
    ensures Value(PAD) == 0
  {
  }

  lemma UnquadQuad(b: seq<byte>)
    requires 1 <= |b| <= 3
    ensures Unquad(Quad(b)) == b
    ensures ZeroFree(Quad(b))
  {
    hide Sextets, Octets, Char, Value;
    PadIsZero();
    PartialOctets(b[0], if |b| > 1 then b[1] else 0);
    if |b| == 3 {
      OctetsOfSextets(b[0], b[1], b[2]);
    }
  }

  function Encode(b: seq<byte>): (r: seq<byte>)
    ensures |r| == 4 * ((|b| + 2) / 3)
  {
    if b == [] then []
    else
      var n := if |b| < 3 then |b| else 3;
      Quad(b[..n]) + Encode(b[n..])
  }

  function Decode(s: seq<byte>): Option<seq<byte>> {
    if s == [] then Some([])
    else if |s| < 4 then None
    else
      match Decode(s[4..])
      case None => None
      case Some(rest) => Some(Unquad(s[..4]) + rest)
  }

  /** Base64 text decodes to the bytes it was made from, whatever their number. */
  lemma {:induction false} DecodeEncode(b: seq<byte>)
    ensures Decode(Encode(b)) == Some(b)
    ensures ZeroFree(Encode(b))
  {
    hide Quad, Unquad;
    if b != [] {
      var n := if |b| < 3 then |b| else 3;
      UnquadQuad(b[..n]);
      DecodeEncode(b[n..]);
      assert Encode(b)[4..] == Encode(b[n..]);
      assert b[..n] + b[n..] == b;
    }
  }

  /** Where the group after the one at `i` starts. */
  function Next(b: seq<byte>, i: nat): nat {
    if i + 3 < |b| then i + 3 else |b|
  }

  lemma EncodeStep(b: seq<byte>, i: nat)
    requires i < |b|
    ensures Encode(b[i..]) == Quad(b[i..Next(b, i)]) + Encode(b[Next(b, i)..])
  {
    hide Quad;
    var j := Next(b, i);
    assert b[i..][..j - i] == b[i..j] && b[i..][j - i..] == b[j..];
  }

  method WriteQuad(b: seq<byte>, i: nat, out: array<byte>, o: nat)
    requires i < |b| && o + 4 <= out.Length
    modifies out
    ensures out[..o + 4] == old(out[..o]) + Quad(b[i..Next(b, i)])
  {
    var q := Quad(b[i..Next(b, i)]);
    hide *;
    out[o], out[o + 1], out[o + 2], out[o + 3] := q[0], q[1], q[2], q[3];
  }

  lemma GroupDone(b: seq<byte>, i: nat, done: seq<byte>)
    requires i < |b|
    requires done + Encode(b[i..]) == Encode(b)
    ensures done + Quad(b[i..Next(b, i)]) + Encode(b[Next(b, i)..]) == Encode(b)
  {
    EncodeStep(b, i);
    Assoc(done, Quad(b[i..Next(b, i)]), Encode(b[Next(b, i)..]));
  }

  /** The text of what follows index `i`, which the loop lets run past the end. */
  function Later(b: seq<byte>, i: nat): seq<byte> {
    if i < |b| then Encode(b[i..]) else []
  }

  lemma LaterStep(b: seq<byte>, i: nat, done: seq<byte>)
    requires i < |b| && done + Later(b, i) == Encode(b)
    ensures done + Quad(b[i..Next(b, i)]) + Later(b, i + 3) == Encode(b)
    ensures |done| + 4 <= |Encode(b)|
  {
    hide Quad;
    GroupDone(b, i, done);
    assert b[|b|..] == [];
  }

  lemma LaterStart(b: seq<byte>)
    ensures Later(b, 0) == Encode(b)
  {
    assert b[0..] == b;
  }

  lemma LaterEnd(b: seq<byte>, i: nat)
    requires |b| <= i
    ensures Later(b, i) == []
  {
  }

  /** The output buffer has room for exactly the text and its terminator. */
  method Base64Encode(b: seq<byte>) returns (out: array<byte>)
    ensures fresh(out) && out.Length == 4 * ((|b| + 2) / 3) + 1
    ensures HoldsString(out, Encode(b))
  {
    hide Later, Encode;
    out := new byte[4 * ((|b| + 2) / 3) + 1];
    var o, i: nat := 0, 0;
    LaterStart(b);
    while i < |b|
      invariant o < out.Length && out[..o] + Later(b, i) == Encode(b)
    {
      LaterStep(b, i, out[..o]);
      WriteQuad(b, i, out, o);
      o := o + 4;
      i := i + 3;
    }
    LaterEnd(b, i);
    out[o] := 0;
  }
}
