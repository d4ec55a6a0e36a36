/** Running a cipher over the 16-byte blocks of a buffer, as the loops of src/argus.c and src/ladon.c do. */
module BlockMode {
  import opened Bytes
  import opened CryptoHelpers
  import opened Words64

  type Cipher = Block -> Block

  ghost predicate Undoes(g: Cipher, f: Cipher) {
    forall b :: g(f(b)) == b
  }

  function BlockBytes(b: Block): (r: seq<byte>)
    ensures |r| == 16
  {
    Le64Bytes(b.x) + Le64Bytes(b.y)
  }

  function ReadBlock(s: seq<byte>, off: nat): Block
    requires off + 16 <= |s|
  {
    Block(Le64Read(s, off), Le64Read(s, off + 8))
  }

  lemma ReadBlockBytes(b: Block, rest: seq<byte>)
    ensures ReadBlock(BlockBytes(b) + rest, 0) == b
  {
    hide Join, ByteAt;
    var s := BlockBytes(b) + rest;
    Le64ReadBytes(b.x);
    Le64ReadBytes(b.y);
    assert forall k :: 0 <= k < 8 ==> s[k] == Le64Bytes(b.x)[k];
    assert forall k :: 0 <= k < 8 ==> s[8 + k] == Le64Bytes(b.y)[k];
  }

  lemma BlockBytesRead(s: seq<byte>, off: nat)
    requires off + 16 <= |s|
    ensures BlockBytes(ReadBlock(s, off)) == s[off..off + 16]
  {
    Le64BytesRead(s, off);
    Le64BytesRead(s, off + 8);
  }

  /** Every whole block of `s` through `f`, in order. */
  function Ecb(f: Cipher, s: seq<byte>): seq<byte> {
    if |s| < 16 then [] else BlockBytes(f(ReadBlock(s, 0))) + Ecb(f, s[16..])
  }

  /** Undoing the cipher block by block gives the plaintext back. */
  lemma {:induction false} EcbInverse(f: Cipher, g: Cipher, s: seq<byte>, n: nat)
    requires |s| == 16 * n && Undoes(g, f)
    ensures |Ecb(f, s)| == |s|
    ensures Ecb(g, Ecb(f, s)) == s
  {
    hide BlockBytes, ReadBlock;
    if n > 0 {
      var b := ReadBlock(s, 0);
      ReadBlockBytes(f(b), Ecb(f, s[16..]));
      BlockBytesRead(s, 0);
      assert Ecb(f, s)[16..] == Ecb(f, s[16..]);
      EcbInverse(f, g, s[16..], n - 1);
      assert s[0..16] + s[16..] == s;
    }
  }

  lemma ReadBlockAt(s: seq<byte>, off: nat, n: nat)
    requires off + 16 <= n <= |s|
    ensures ReadBlock(s[off..n], 0) == ReadBlock(s, off)
  {
    hide Join;
  }

  lemma EcbStep(f: Cipher, s: seq<byte>, off: nat)
    requires off + 16 <= |s|
    ensures Ecb(f, s[off..]) == BlockBytes(f(ReadBlock(s, off))) + Ecb(f, s[off + 16..])
  {
    hide BlockBytes, ReadBlock;
    ReadBlockAt(s, off, |s|);
    assert s[off..|s|] == s[off..];
    assert s[off..][16..] == s[off + 16..];
  }

  lemma NothingLeft(f: Cipher, s: seq<byte>, n: nat)
    requires n == |s|
    ensures Ecb(f, s[n..]) == []
  {
  }

  /** What one more block adds to the output written so far. */
  lemma BlockDone(f: Cipher, s: seq<byte>, off: nat, done: seq<byte>)
    requires off + 16 <= |s|
    requires done + Ecb(f, s[off..]) == Ecb(f, s)
    ensures done + BlockBytes(f(ReadBlock(s, off))) + Ecb(f, s[off + 16..]) == Ecb(f, s)
  {
    EcbStep(f, s, off);
    hide *;
    Assoc(done, BlockBytes(f(ReadBlock(s, off))), Ecb(f, s[off + 16..]));
  }

  method WriteBlock(out: array<byte>, off: nat, b: Block)
    requires off + 16 <= out.Length
    modifies out
    ensures out[..off + 16] == old(out[..off]) + BlockBytes(b)
  {
    var r := BlockBytes(b);
    hide *;
    CopyInto(out, off, r);
  }
}
