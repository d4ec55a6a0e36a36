/** X-Argus (src/argus.c): the layers put around a message, and their inverse. */
module Argus {
  import opened Bytes
  import opened CryptoHelpers
  import opened Words64
  import Base64
  import BlockMode
  import Padding
  import Simon

  const SIGN_KEY: seq<byte> := [
    0xac, 0x1a, 0xda, 0xae, 0x95, 0xa7, 0xaf, 0x94, 0xa5, 0x11, 0x4a, 0xb3, 0xb3, 0xa9, 0x7d, 0xd8,
    0x00, 0x50, 0xaa, 0x0a, 0x39, 0x31, 0x4c, 0x40, 0x52, 0x8c, 0xae, 0xc9, 0x52, 0x56, 0xc2, 0x8c
  ]

  const SM3_OUTPUT_REF: seq<byte> := [
    0xfc, 0x78, 0xe0, 0xa9, 0x65, 0x7a, 0x0c, 0x74, 0x8c, 0xe5, 0x15, 0x59, 0x90, 0x3c, 0xcf, 0x03,
    0x51, 0x0e, 0x51, 0xd3, 0xcf, 0xf2, 0x32, 0xd7, 0x13, 0x43, 0xe8, 0x8a, 0x32, 0x1c, 0x53, 0x04
  ]

  const PREFIX1: seq<byte> := [0xf2, 0xf7, 0xfc, 0xff, 0xf2, 0xf7, 0xfc, 0xff]
  const PREFIX2: seq<byte> := [0xa6, 0x6e, 0xad, 0x9f, 0x77, 0x01, 0xd0, 0x0c, 0x18]
  const SUFFIX: seq<byte> := [0x61, 0x6f]  // "ao"
  const HEADER: seq<byte> := [0xf2, 0x81]

  // ---------------------------------------------------------------- mask and reverse

  /** Every byte from the ninth on is combined with the first eight in turn. */
  function Masked(d: seq<byte>): (r: seq<byte>)
    requires 8 <= |d|
    ensures |r| == |d|
    ensures forall i :: 0 <= i < |d| ==> r[i] == if i < 8 then d[i] else XorByte(d[i], d[i % 8])
  {
    hide XorByte;
    seq(|d|, i requires 0 <= i < |d| => if i < 8 then d[i] else XorByte(d[i], d[i % 8]))
  }

  function EncPb(d: seq<byte>): (r: seq<byte>)
    requires 8 <= |d|
    ensures |r| == |d|
  {
    Reversed(Masked(d))
  }

  function EncPbBack(e: seq<byte>): seq<byte>
    requires 8 <= |e|
  {
    Masked(Reversed(e))
  }

  lemma MaskedTwice(d: seq<byte>)
    requires 8 <= |d|
    ensures Masked(Masked(d)) == d
  {
    hide XorByte, Masked;
    var m := Masked(d);
    forall i | 0 <= i < |d|
      ensures Masked(m)[i] == d[i]
    {
      assert m[i % 8] == d[i % 8];
      XorByteTwice(d[i], d[i % 8]);
    }
  }

  lemma EncPbInverse(d: seq<byte>)
    requires 8 <= |d|
    ensures EncPbBack(EncPb(d)) == d
  {
    ReversedTwice(Masked(d));
    MaskedTwice(d);
  }

  method MaskInPlace(d: array<byte>)
    requires 8 <= d.Length
    modifies d
    ensures d[..] == Masked(old(d[..]))
  {
    hide XorByte, Masked;
    var xorArray := d[..8];
    for i := 8 to d.Length
      invariant forall k :: 0 <= k < i ==> d[k] == Masked(old(d[..]))[k]
      invariant forall k :: i <= k < d.Length ==> d[k] == old(d[k])
    {
      d[i] := XorByte(d[i], xorArray[i % 8]);
    }
  }

  method ReverseInPlace(d: array<byte>)
    requires 0 < d.Length
    modifies d
    ensures d[..] == Reversed(old(d[..]))
  {
    var i, j := 0, d.Length - 1;
    while i < j
      invariant 0 <= i <= j + 1 && i + j == d.Length - 1
      invariant forall k :: 0 <= k < i || j < k < d.Length ==> d[k] == old(d[d.Length - 1 - k])
      invariant forall k :: i <= k <= j ==> d[k] == old(d[k])
    {
      var tmp := d[i];
      d[i] := d[j];
      d[j] := tmp;
      i := i + 1;
      j := j - 1;
    }
  }

  method EncryptEncPb(data: seq<byte>) returns (d: array<byte>)
    requires 8 <= |data|
    ensures fresh(d) && d[..] == EncPb(data)
  {
    hide Masked, Reversed;
    d := new byte[|data|];
    CopyInto(d, 0, data);
    assert d[..] == data;
    MaskInPlace(d);
    ReverseInPlace(d);
  }

  // ---------------------------------------------------------------- the layers

  /** AES-128-CBC with padding: any function of key, initial vector and text that some function undoes. */
  type Aes = (Digest, Digest, seq<byte>) -> seq<byte>

  ghost predicate AesUndoes(dec: Aes, enc: Aes) {
    forall k: Digest, iv: Digest, m: seq<byte> :: dec(k, iv, enc(k, iv, m)) == m
  }

  function KeyList(): Simon.MasterKey {
    [Le64Read(SM3_OUTPUT_REF, 0), Le64Read(SM3_OUTPUT_REF, 8),
     Le64Read(SM3_OUTPUT_REF, 16), Le64Read(SM3_OUTPUT_REF, 24)]
  }

  /** The same four words, written out. */
  lemma KeyWords()
    ensures KeyList() == READER_KEYS
  {
    hide Join;
    KeyWord0();
    KeyWord1();
    KeyWord2();
    KeyWord3();
  }

  lemma KeyWord0()
    ensures Join(0xfc, 0x78, 0xe0, 0xa9, 0x65, 0x7a, 0x0c, 0x74) == 0x740C7A65A9E078FC
  {
  }

  lemma KeyWord1()
    ensures Join(0x8c, 0xe5, 0x15, 0x59, 0x90, 0x3c, 0xcf, 0x03) == 0x03CF3C905915E58C
  {
  }

  lemma KeyWord2()
    ensures Join(0x51, 0x0e, 0x51, 0xd3, 0xcf, 0xf2, 0x32, 0xd7) == 0xD732F2CFD3510E51
  {
  }

  lemma KeyWord3()
    ensures Join(0x13, 0x43, 0xe8, 0x8a, 0x32, 0x1c, 0x53, 0x04) == 0x04531C328AE84313
  {
  }

  function Encryptor(): BlockMode.Cipher {
    (b: Block) => Simon.Encrypt(b, KeyList())
  }

  const READER_KEYS: Simon.MasterKey := [
    0x740C7A65A9E078FC, 0x03CF3C905915E58C, 0xD732F2CFD3510E51, 0x04531C328AE84313
  ]

  function Decryptor(): BlockMode.Cipher {
    (b: Block) => Simon.Decrypt(b, READER_KEYS)
  }

  lemma DecryptorUndoes()
    ensures BlockMode.Undoes(Decryptor(), Encryptor())
  {
    hide KeyList, READER_KEYS, Simon.Encrypt, Simon.Decrypt;
    KeyWords();
    forall b: Block
      ensures Decryptor()(Encryptor()(b)) == b
    {
      Simon.EncryptInverse(b, KeyList());
    }
  }

  function Enciphered(bean: seq<byte>): seq<byte> {
    BlockMode.Ecb(Encryptor(), Padding.Pad(bean))
  }

  /** What is handed to AES. */
  function Frame(bean: seq<byte>): seq<byte> {
    PREFIX2 + EncPb(PREFIX1 + Enciphered(bean)) + SUFFIX
  }

  function AesKey(md5: Md5): Digest {
    md5(SIGN_KEY[..16])
  }

  function AesIv(md5: Md5): Digest {
    md5(SIGN_KEY[16..])
  }

  function ArgusEncrypt(md5: Md5, aes: Aes, bean: seq<byte>): seq<byte> {
    Base64.Encode(HEADER + aes(AesKey(md5), AesIv(md5), Frame(bean)))
  }

  // A reader has constants of its own: the marks it expects, and what its key and initial vector are digests of.

  const READER_BEFORE: seq<byte> := [0xa6, 0x6e, 0xad, 0x9f, 0x77, 0x01, 0xd0, 0x0c, 0x18]
  const READER_INSIDE: seq<byte> := [0xf2, 0xf7, 0xfc, 0xff, 0xf2, 0xf7, 0xfc, 0xff]
  const READER_KEY: seq<byte> := [
    0xac, 0x1a, 0xda, 0xae, 0x95, 0xa7, 0xaf, 0x94, 0xa5, 0x11, 0x4a, 0xb3, 0xb3, 0xa9, 0x7d, 0xd8
  ]
  const READER_IV: seq<byte> := [
    0x00, 0x50, 0xaa, 0x0a, 0x39, 0x31, 0x4c, 0x40, 0x52, 0x8c, 0xae, 0xc9, 0x52, 0x56, 0xc2, 0x8c
  ]

  /** Refuses a frame without the marks. */
  function Unframe(frame: seq<byte>): Option<seq<byte>> {
    if |frame| < 19 || frame[..9] != READER_BEFORE || frame[|frame| - 2..] != [0x61, 0x6f] then None
    else
      var d := EncPbBack(frame[9..|frame| - 2]);
      if d[..8] != READER_INSIDE then None else Padding.Unpad(BlockMode.Ecb(Decryptor(), d[8..]))
  }

  /** Takes the header value apart, layer by layer. */
  function ArgusDecrypt(md5: Md5, aesBack: Aes, text: seq<byte>): Option<seq<byte>> {
    match Base64.Decode(text)
    case None => None
    case Some(raw) =>
      if |raw| < 2 || raw[..2] != [0xf2, 0x81] then None
      else Unframe(aesBack(md5(READER_KEY), md5(READER_IV), raw[2..]))
  }

  lemma MarksAgree()
    ensures PREFIX2 == READER_BEFORE && PREFIX1 == READER_INSIDE && |PREFIX2| == 9 && |PREFIX1| == 8
    ensures SUFFIX == [0x61, 0x6f]
  {
  }

  lemma SignKeyHalves()
    ensures SIGN_KEY[..16] == READER_KEY && SIGN_KEY[16..] == READER_IV
  {
  }

  lemma Deciphered(bean: seq<byte>)
    ensures 16 <= |Enciphered(bean)|
    ensures Padding.Unpad(BlockMode.Ecb(Decryptor(), Enciphered(bean))) == Some(bean)
  {
    Padding.PadWhole(bean);
    var n := |Padding.Pad(bean)| / 16;
    assert |Padding.Pad(bean)| == 16 * n;
    DecryptorUndoes();
    BlockMode.EcbInverse(Encryptor(), Decryptor(), Padding.Pad(bean), n);
    Padding.UnpadPad(bean);
    hide Encryptor, Decryptor, Padding.Pad, Padding.Unpad, BlockMode.Ecb;
  }

  lemma Parts(before: seq<byte>, inner: seq<byte>, after: seq<byte>)
    ensures var f := before + inner + after;
            && f[..|before|] == before && f[|before|..|f| - |after|] == inner && f[|f| - |after|..] == after
  {
  }

  lemma UnframeFrame(bean: seq<byte>)
    ensures Unframe(Frame(bean)) == Some(bean)
  {
    hide *;
    var d := PREFIX1 + Enciphered(bean);
    MarksAgree();
    Deciphered(bean);
    EncPbInverse(d);
    assert Enciphered(bean) == d[8..] && d[..8] == PREFIX1;
    Parts(PREFIX2, EncPb(d), SUFFIX);
    UnframeMarked(PREFIX2 + EncPb(d) + SUFFIX, d);
    FrameIs(bean);
  }

  lemma FrameIs(bean: seq<byte>)
    ensures Frame(bean) == PREFIX2 + EncPb(PREFIX1 + Enciphered(bean)) + SUFFIX
  {
  }

  lemma UnframeMarked(frame: seq<byte>, d: seq<byte>)
    requires 19 <= |frame| && frame[..9] == READER_BEFORE && frame[|frame| - 2..] == [0x61, 0x6f]
    requires EncPbBack(frame[9..|frame| - 2]) == d && 8 <= |d| && d[..8] == READER_INSIDE
    ensures Unframe(frame) == Padding.Unpad(BlockMode.Ecb(Decryptor(), d[8..]))
  {
    hide EncPbBack, READER_BEFORE, READER_INSIDE, Decryptor, Padding.Unpad, BlockMode.Ecb;
  }

  /** Beans of every length come back exactly. */
  lemma ArgusRoundTrip(md5: Md5, aes: Aes, aesBack: Aes, bean: seq<byte>)
    requires AesUndoes(aesBack, aes)
    ensures ArgusDecrypt(md5, aesBack, ArgusEncrypt(md5, aes, bean)) == Some(bean)
  {
    var raw := HEADER + aes(AesKey(md5), AesIv(md5), Frame(bean));
    Base64.DecodeEncode(raw);
    UnframeFrame(bean);
    SignKeyHalves();
    hide Frame, Unframe, Base64.Encode, Base64.Decode, SIGN_KEY, READER_KEY, READER_IV;
    assert raw[..2] == HEADER && raw[2..] == aes(AesKey(md5), AesIv(md5), Frame(bean));
  }

  lemma ArgusZeroFree(md5: Md5, aes: Aes, bean: seq<byte>)
    ensures ZeroFree(ArgusEncrypt(md5, aes, bean))
  {
    Base64.DecodeEncode(HEADER + aes(AesKey(md5), AesIv(md5), Frame(bean)));
    hide Frame, Base64.Encode, Base64.Decode;
  }

  method EncipherBlock(input: seq<byte>, off: nat, keys: Simon.MasterKey) returns (ct: Block)
    requires off + 16 <= |input| && keys == KeyList()
    ensures ct == Encryptor()(BlockMode.ReadBlock(input, off))
  {
    hide KeyList, Simon.Encrypt, BlockMode.ReadBlock;
    var pt := BlockMode.ReadBlock(input, off);
    ct := Simon.SimonEncrypt(pt, keys);
  }

  /** One turn of the block loop. */
  method EncipherTurn(input: seq<byte>, output: array<byte>, off: nat, keys: Simon.MasterKey)
    requires off + 16 <= |input| == output.Length && keys == KeyList()
    modifies output
    ensures output[..off + 16]
            == old(output[..off]) + BlockMode.BlockBytes(Encryptor()(BlockMode.ReadBlock(input, off)))
  {
    hide KeyList, Encryptor, BlockMode.BlockBytes, BlockMode.ReadBlock;
    var ct := EncipherBlock(input, off, keys);
    BlockMode.WriteBlock(output, off, ct);
  }

  method EncipherBlocks(input: seq<byte>) returns (output: array<byte>)
    requires |input| % 16 == 0
    ensures fresh(output) && output[..] == BlockMode.Ecb(Encryptor(), input)
  {
    hide KeyList, Encryptor, BlockMode.Ecb;
    ghost var f := Encryptor();
    var keys := KeyList();
    output := new byte[|input|];
    var pos: nat := 0;
    assert input[0..] == input;
    for i := 0 to |input| / 16
      invariant pos == 16 * i
      invariant output[..pos] + BlockMode.Ecb(f, input[pos..]) == BlockMode.Ecb(f, input)
    {
      BlockMode.BlockDone(f, input, pos, output[..pos]);
      EncipherTurn(input, output, pos, keys);
      pos := pos + 16;
    }
    BlockMode.NothingLeft(f, input, pos);
    assert output[..] == output[..pos];
  }

  method ArgusEncryptBean(md5: Md5, aes: Aes, bean: seq<byte>) returns (b64: array<byte>)
    ensures fresh(b64) && HoldsString(b64, ArgusEncrypt(md5, aes, bean))
  {
    var padded := Padding.Pkcs7Pad(bean);
    Padding.PadWhole(bean);
    hide Padding.Pad, EncPb, Base64.Encode, BlockMode.Ecb, Encryptor;
    var encPb := EncipherBlocks(padded[..]);
    var enc := EncryptEncPb(PREFIX1 + encPb[..]);
    var withSuffix := PREFIX2 + enc[..] + SUFFIX;
    var ctOut := aes(md5(SIGN_KEY[..16]), md5(SIGN_KEY[16..]), withSuffix);
    b64 := Base64.Base64Encode(HEADER + ctOut);
  }
}
