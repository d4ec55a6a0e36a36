/** X-Ladon (src/ladon.c): SPECK128/256 (section 4 of IACR ePrint 2013/404) under an MD5-derived key. */
module Ladon {
  import opened Bytes
  import opened CryptoHelpers
  import opened Words64
  import Base64
  import BlockMode
  import Decimal
  import opened Padding
  import R = Rounds

  const ROUNDS := 0x22

  // A block's `x` is data0, the paper's word y; its `y` is data1, the paper's word x.

  // ---------------------------------------------------------------- SPECK, as published

  function SpeckRound(b: Block, k: Word): Block {
    var left := Xor(Add(Ror(b.y, 8), b.x), k);
    Block(Xor(Rol(b.x, 3), left), left)
  }

  function SpeckRoundBack(b: Block, k: Word): Block {
    var right := Ror(Xor(b.x, b.y), 3);
    Block(right, Rol(Sub(Xor(b.y, k), right), 8))
  }

  lemma SpeckRoundInverse(b: Block, k: Word)
    ensures SpeckRoundBack(SpeckRound(b, k), k) == b
    ensures SpeckRound(SpeckRoundBack(b, k), k) == b
  {
    hide *;
    SpeckForward(b, k);
    SpeckBackward(b, k);
  }

  lemma SpeckForward(b: Block, k: Word)
    ensures SpeckRoundBack(SpeckRound(b, k), k) == b
  {
    hide Xor, Add, Sub, Rol, Ror;
    var sum := Add(Ror(b.y, 8), b.x);
    var left := Xor(sum, k);
    XorCancel(Rol(b.x, 3), left);
    Rol3Ror3(b.x);
    XorCancel(sum, k);
    AddComm(Ror(b.y, 8), b.x);
    AddSub(b.x, Ror(b.y, 8));
    Ror8Rol8(b.y);
  }

  lemma SpeckBackward(b: Block, k: Word)
    ensures SpeckRound(SpeckRoundBack(b, k), k) == b
  {
    hide Xor, Add, Sub, Rol, Ror;
    var right := Ror(Xor(b.x, b.y), 3);
    var diff := Sub(Xor(b.y, k), right);
    Ror8Rol8(diff);
    AddComm(diff, right);
    SubAdd(right, Xor(b.y, k));
    XorCancel(b.y, k);
    Rol3Ror3(Xor(b.x, b.y));
    XorCancel(b.x, b.y);
  }

  lemma SpeckRoundsInverse()
    ensures R.Inverse(SpeckRound, SpeckRoundBack)
  {
    hide SpeckRound, SpeckRoundBack;
    forall b, k
      ensures SpeckRoundBack(SpeckRound(b, k), k) == b && SpeckRound(SpeckRoundBack(b, k), k) == b
    {
      SpeckRoundInverse(b, k);
    }
  }

  // ---------------------------------------------------------------- the key schedule, as published

  type MasterKey = m: seq<Word> | |m| == 4 witness [0, 0, 0, 0]

  /** The paper's two sequences after `n` steps: round keys k[0..n] and words l[0..n+2]. */
  datatype Schedule = Schedule(k: seq<Word>, l: seq<Word>)

  function Index(i: nat): Word
    requires i < ROUNDS
  {
    i as Word
  }

  function LWord(k: Word, l: Word, i: Word): Word {
    Xor(Add(k, Ror(l, 8)), i)
  }

  function KWord(k: Word, l: Word): Word {
    Xor(Rol(k, 3), l)
  }

  function Speck(m: MasterKey, n: nat): (s: Schedule)
    requires n <= ROUNDS
    ensures |s.k| == n + 1 && |s.l| == n + 3
  {
    if n == 0 then Schedule([m[0]], [m[1], m[2], m[3]])
    else
      var s := Speck(m, n - 1);
      var l := LWord(s.k[n - 1], s.l[n - 1], Index(n - 1));
      Schedule(s.k + [KWord(s.k[n - 1], l)], s.l + [l])
  }

  function RoundKeys(m: MasterKey): (ks: seq<Word>)
    ensures |ks| == ROUNDS
  {
    Speck(m, ROUNDS).k[..ROUNDS]
  }

  // ---------------------------------------------------------------- the byte table

  const TABLE_SIZE := 272 + 16

  /** Word `j` of the table, as encrypt_ladon_input reads it. */
  function TableWord(t: seq<byte>, j: nat): Word
    requires 8 * j + 8 <= |t|
  {
    Le64Read(t, j * 8)
  }

  lemma ReadSlice(t: seq<byte>, t': seq<byte>, off: nat, off': nat)
    requires off + 8 <= |t| && off' + 8 <= |t'|
    requires t[off..off + 8] == t'[off'..off' + 8]
    ensures Le64Read(t, off) == Le64Read(t', off')
  {
    hide Join;
    var u := t[off..off + 8];
    assert Le64Read(t, off) == Le64Read(u, 0);
    assert Le64Read(t', off') == Le64Read(u, 0);
  }

  /** Writing word `i` makes it readable and leaves every other word of the table alone. */
  lemma TableWrite(t: seq<byte>, t': seq<byte>, i: nat, v: Word)
    requires 8 * i + 8 <= |t| && t' == t[..i * 8] + Le64Bytes(v) + t[i * 8 + 8..]
    ensures |t'| == |t| && TableWord(t', i) == v
    ensures forall j :: 0 <= j && 8 * j + 8 <= |t| && j != i ==> TableWord(t', j) == TableWord(t, j)
  {
    hide ByteAt, Join;
    assert t'[i * 8..i * 8 + 8] == Le64Bytes(v)[0..8];
    ReadSlice(t', Le64Bytes(v), i * 8, 0);
    Le64ReadBytes(v);
    forall j | 0 <= j && 8 * j + 8 <= |t| && j != i
      ensures TableWord(t', j) == TableWord(t, j)
    {
      assert t'[j * 8..j * 8 + 8] == t[j * 8..j * 8 + 8];
      ReadSlice(t', t, j * 8, j * 8);
    }
  }

  function MasterOf(md5hex: seq<byte>): MasterKey
    requires |md5hex| == 32
  {
    [Le64Read(md5hex, 0), Le64Read(md5hex, 8), Le64Read(md5hex, 16), Le64Read(md5hex, 24)]
  }

  /** The first words of the table are the round keys `k`. */
  ghost predicate TableHolds(t: seq<byte>, k: seq<Word>) {
    |t| == TABLE_SIZE && |k| <= 36 && forall j :: 0 <= j < |k| ==> TableWord(t, j) == k[j]
  }

  /** The queue holds the l-words from l[1] on. */
  ghost predicate QueueHolds(q: seq<Word>, l: seq<Word>) {
    |l| <= |q| + 1 && forall j {:trigger q[j]} :: 0 <= j < |l| - 1 ==> q[j] == l[j + 1]
  }

  /** Before step `i` of the table loop: the locals hold k[i] and l[i]. */
  ghost predicate TableState(t: seq<byte>, q: seq<Word>, b0: Word, b8: Word, s: Schedule, i: nat) {
    && i <= ROUNDS && |s.k| == i + 1 && |s.l| == i + 3 && |q| == ROUNDS + 2
    && TableHolds(t, s.k) && QueueHolds(q, s.l)
    && b0 == s.k[i] && b8 == s.l[i]
  }

  /** The queued word of step `i`, in the code's order of operands. */
  function QueueWord(b0: Word, b8: Word, i: Word): Word {
    Xor(Add(Ror(b8, 8), b0), i)
  }

  function NextB0(b0: Word, queued: Word): Word {
    Xor(queued, Ror(b0, 61))
  }

  lemma CodeIsPaper(b0: Word, b8: Word, i: Word)
    ensures QueueWord(b0, b8, i) == LWord(b0, b8, i)
    ensures NextB0(b0, QueueWord(b0, b8, i)) == KWord(b0, LWord(b0, b8, i))
  {
    hide Add, Xor, Rol, Ror;
    var l := LWord(b0, b8, i);
    AddComm(b0, Ror(b8, 8));
    Ror61IsRol3(b0);
    XorComm(l, Rol(b0, 3));
  }

  lemma TableExtends(t: seq<byte>, k: seq<Word>, v: Word, t': seq<byte>)
    requires TableHolds(t, k) && |k| < 36
    requires t' == t[..|k| * 8] + Le64Bytes(v) + t[|k| * 8 + 8..]
    ensures TableHolds(t', k + [v])
  {
    TableWrite(t, t', |k|, v);
    hide TableWord, Le64Bytes;
  }

  lemma QueueExtends(q: seq<Word>, l: seq<Word>, v: Word)
    requires QueueHolds(q, l) && 1 <= |l| <= |q|
    ensures QueueHolds(q[|l| - 1 := v], l + [v])
  {
  }

  lemma SpeckStep(m: MasterKey, i: nat)
    requires i < ROUNDS
    ensures var s := Speck(m, i);
            var l := QueueWord(s.k[i], s.l[i], Index(i));
            Speck(m, i + 1) == Schedule(s.k + [NextB0(s.k[i], l)], s.l + [l])
  {
    var s := Speck(m, i);
    CodeIsPaper(s.k[i], s.l[i], Index(i));
    hide QueueWord, NextB0, LWord, KWord, Index;
  }

  lemma TableStep(t: seq<byte>, q: seq<Word>, b0: Word, b8: Word, m: MasterKey, i: nat, t': seq<byte>, q': seq<Word>)
    requires i < ROUNDS && TableState(t, q, b0, b8, Speck(m, i), i)
    requires q' == q[i + 2 := QueueWord(b0, b8, Index(i))]
    requires t' == t[..(i + 1) * 8] + Le64Bytes(NextB0(b0, q'[i + 2])) + t[(i + 1) * 8 + 8..]
    ensures TableState(t', q', NextB0(b0, q'[i + 2]), q'[i], Speck(m, i + 1), i + 1)
  {
    hide QueueWord, NextB0, Speck, TableHolds, Index;
    var s, queued := Speck(m, i), q'[i + 2];
    SpeckStep(m, i);
    TableExtends(t, s.k, NextB0(b0, queued), t');
    QueueExtends(q, s.l, queued);
  }

  lemma StartState(md5hex: seq<byte>, t: seq<byte>, q: seq<Word>)
    requires |md5hex| == 32 && |t| == TABLE_SIZE && md5hex <= t
    requires |q| == ROUNDS + 2 && q[0] == TableWord(t, 2) && q[1] == TableWord(t, 3)
    ensures TableState(t, q, TableWord(t, 0), TableWord(t, 1), Speck(MasterOf(md5hex), 0), 0)
  {
    hide Join;
    assert MasterOf(md5hex) == [TableWord(t, 0), TableWord(t, 1), TableWord(t, 2), TableWord(t, 3)];
  }

  method StartTable(md5hex: seq<byte>) returns (table: array<byte>, queue: array<Word>, b0: Word, b8: Word)
    requires |md5hex| == 32
    ensures fresh(table) && fresh(queue)
    ensures TableState(table[..], queue[..], b0, b8, Speck(MasterOf(md5hex), 0), 0)
  {
    table := new byte[TABLE_SIZE](_ => 0);
    CopyInto(table, 0, md5hex);
    hide TableState, MasterOf, Speck, TableWord;
    b0 := TableWord(table[..], 0);
    b8 := TableWord(table[..], 1);
    queue := new Word[2 + ROUNDS](_ => 0);
    queue[0] := TableWord(table[..], 2);
    queue[1] := TableWord(table[..], 3);
    StartState(md5hex, table[..], queue[..]);
  }

  /** After the loop, words 0 to 34 of the byte table are the published round keys, although words 1 to 3
      first held key material. */
  method BuildTable(md5hex: seq<byte>) returns (table: array<byte>)
    requires |md5hex| == 32
    ensures fresh(table) && TableHolds(table[..], Speck(MasterOf(md5hex), ROUNDS).k)
  {
    hide MasterOf, Speck, TableState, TableHolds;
    ghost var m := MasterOf(md5hex);
    var queue, b0, b8;
    table, queue, b0, b8 := StartTable(md5hex);
    for i := 0 to ROUNDS
      invariant TableState(table[..], queue[..], b0, b8, Speck(m, i), i)
    {
      b0, b8 := TableLoopBody(table, queue, b0, b8, m, i);
    }
    StateParts(table[..], queue[..], b0, b8, Speck(m, ROUNDS), ROUNDS);
  }

  lemma StateParts(t: seq<byte>, q: seq<Word>, b0: Word, b8: Word, s: Schedule, i: nat)
    requires TableState(t, q, b0, b8, s, i)
    ensures |t| == TABLE_SIZE && |q| == ROUNDS + 2 && TableHolds(t, s.k)
  {
    hide TableWord, QueueHolds;
  }

  method TableLoopBody(table: array<byte>, queue: array<Word>, b0: Word, b8: Word, ghost m: MasterKey, i: nat)
    returns (next: Word, next8: Word)
    requires i < ROUNDS && TableState(table[..], queue[..], b0, b8, Speck(m, i), i)
    modifies table, queue
    ensures TableState(table[..], queue[..], next, next8, Speck(m, i + 1), i + 1)
  {
    hide QueueWord, NextB0, TableState, TableHolds, Speck, Index;
    ghost var t, q := table[..], queue[..];
    StateParts(t, q, b0, b8, Speck(m, i), i);
    var queued := QueueWord(b0, b8, Index(i));
    queue[i + 2] := queued;
    next := NextB0(b0, queued);
    Le64Write(table, i + 1, next);
    next8 := queue[i];
    TableStep(t, q, b0, b8, m, i, table[..], queue[..]);
  }

  // ---------------------------------------------------------------- the block loop

  /** One round with the code's order of operands. */
  function CodeRound(b: Block, hash: Word): Block {
    var data1 := Xor(hash, Add(b.x, Ror(b.y, 8)));
    Block(Xor(data1, Ror(b.x, 0x3D)), data1)
  }

  lemma CodeRoundIsSpeck(b: Block, hash: Word)
    ensures CodeRound(b, hash) == SpeckRound(b, hash)
  {
    hide Add, Xor, Rol, Ror;
    var sum := Add(b.x, Ror(b.y, 8));
    AddComm(b.x, Ror(b.y, 8));
    XorComm(hash, sum);
    Ror61IsRol3(b.x);
    XorComm(Xor(sum, hash), Rol(b.x, 3));
  }

  method EncryptLadonInput(table: seq<byte>, block: seq<byte>, off: nat, ghost ks: seq<Word>) returns (out: Block)
    requires |ks| == ROUNDS && TableHolds(table, ks)
    requires off + 16 <= |block|
    ensures out == R.Run(SpeckRound, BlockMode.ReadBlock(block, off), ks)
  {
    var data := BlockMode.ReadBlock(block, off);
    out := data;
    for i := 0 to ROUNDS
      invariant out == R.Run(SpeckRound, data, ks[..i])
    {
      R.RunStep(SpeckRound, data, ks, i);
      CodeRoundIsSpeck(out, ks[i]);
      var hash := TableWord(table, i);
      assert hash == ks[i];
      hide *;
      out := CodeRound(out, hash);
    }
    assert ks[..ROUNDS] == ks;
  }

  function Encryptor(m: MasterKey): BlockMode.Cipher {
    (b: Block) => R.Run(SpeckRound, b, RoundKeys(m))
  }

  function Decryptor(m: MasterKey): BlockMode.Cipher {
    (b: Block) => R.RunBack(SpeckRoundBack, b, RoundKeys(m))
  }

  lemma DecryptorUndoes(m: MasterKey)
    ensures BlockMode.Undoes(Decryptor(m), Encryptor(m))
    ensures BlockMode.Undoes(Encryptor(m), Decryptor(m))
  {
    hide R.Inverse, R.Run, R.RunBack, RoundKeys;
    SpeckRoundsInverse();
    forall b: Block
      ensures Decryptor(m)(Encryptor(m)(b)) == b && Encryptor(m)(Decryptor(m)(b)) == b
    {
      R.RunInverse(SpeckRound, SpeckRoundBack, b, RoundKeys(m));
    }
  }

  /** The smallest multiple of 16 that holds `size` bytes. */
  function PaddingSize(size: nat): (n: nat)
    ensures size <= n < size + 16 && n % 16 == 0
  {
    var mod := size % 16;
    if mod > 0 then size + (16 - mod) else size
  }

  /** Padded as PKCS#7 asks, but cut back to whole blocks of the text: a full block of padding is dropped. */
  function LadonPad(s: seq<byte>): (r: seq<byte>)
    ensures |r| == PaddingSize(|s|)
  {
    PadWhole(s);
    Pad(s)[..PaddingSize(|s|)]
  }

  /** Drops as many bytes as the last byte says, if it says one to sixteen. */
  function LadonStrip(s: seq<byte>): seq<byte> {
    if s == [] then s
    else
      var n := s[|s| - 1] as nat;
      if 1 <= n <= 16 && n <= |s| then s[..|s| - n] else s
  }

  /** Dropping the full pad block loses nothing exactly when a text of whole blocks does not end in a byte
      that reads as a pad length; when it does, stripping cuts the text short. */
  lemma StripPad(s: seq<byte>)
    ensures LadonStrip(LadonPad(s)) == s <==> |s| % 16 != 0 || s == [] || !(1 <= s[|s| - 1] as nat <= 16)
  {
    hide ToByte;
    var p := LadonPad(s);
    if |s| % 16 != 0 {
      assert PaddingSize(|s|) == |s| + PadLength(|s|);
      assert p == Pad(s);
      assert p[|p| - 1] == ToByte(PadLength(|s|));
      assert p[..|s|] == s;
    } else {
      assert p == s;
    }
  }

  method EncryptLadon(md5hex: seq<byte>, data: seq<byte>) returns (output: array<byte>)
    requires |md5hex| == 32
    ensures fresh(output) && output[..] == BlockMode.Ecb(Encryptor(MasterOf(md5hex)), LadonPad(data))
  {
    var table := BuildTable(md5hex);
    var newSize := PaddingSize(|data|);
    var padded := Pkcs7Pad(data);
    PadWhole(data);
    output := RunBlocks(table[..], padded[..newSize], MasterOf(md5hex));
  }

  method RunBlocks(table: seq<byte>, input: seq<byte>, ghost m: MasterKey) returns (output: array<byte>)
    requires TableHolds(table, Speck(m, ROUNDS).k) && |input| % 16 == 0
    ensures fresh(output) && output[..] == BlockMode.Ecb(Encryptor(m), input)
  {
    hide Encryptor, RoundKeys, Speck, TableHolds, BlockMode.Ecb;
    ghost var f := Encryptor(m);
    output := new byte[|input|];
    assert input[0..] == input;
    for i := 0 to |input| / 16
      invariant output[..i * 16] + BlockMode.Ecb(f, input[i * 16..]) == BlockMode.Ecb(f, input)
    {
      BlockMode.BlockDone(f, input, i * 16, output[..i * 16]);
      EncryptTurn(table, input, output, i * 16, m);
    }
    BlockMode.NothingLeft(f, input, |input| / 16 * 16);
    assert output[..] == output[..|input|];
  }

  /** One turn of the block loop. */
  method EncryptTurn(table: seq<byte>, input: seq<byte>, output: array<byte>, off: nat, ghost m: MasterKey)
    requires TableHolds(table, Speck(m, ROUNDS).k) && off + 16 <= |input| == output.Length
    modifies output
    ensures output[..off + 16]
            == old(output[..off]) + BlockMode.BlockBytes(Encryptor(m)(BlockMode.ReadBlock(input, off)))
  {
    hide R.Run, Speck, BlockMode.ReadBlock, BlockMode.BlockBytes, TableWord;
    var block := EncryptLadonInput(table, input, off, RoundKeys(m));
    BlockMode.WriteBlock(output, off, block);
  }

  // ---------------------------------------------------------------- the header

  function Message(khronos: int, licenseId: int, aid: int): seq<byte> {
    Decimal.Text(khronos) + [Decimal.MINUS] + Decimal.Text(licenseId) + [Decimal.MINUS] + Decimal.Text(aid)
  }

  /** Takes the three numbers of a message, with dashes between them, apart again. */
  function ParseMessage(s: seq<byte>): Option<(int, int, int)> {
    match Decimal.Read(s)
    case None => None
    case Some((khronos, s1)) =>
      if s1 == [] || s1[0] != 0x2D then None
      else
        match Decimal.Read(s1[1..])
        case None => None
        case Some((licenseId, s2)) =>
          if s2 == [] || s2[0] != 0x2D then None
          else
            match Decimal.Read(s2[1..])
            case None => None
            case Some((aid, s3)) => if s3 == [] then Some((khronos, licenseId, aid)) else None
  }

  /** Negative numbers do not confuse the separators. */
  lemma ParseOfMessage(khronos: int, licenseId: int, aid: int)
    ensures ParseMessage(Message(khronos, licenseId, aid)) == Some((khronos, licenseId, aid))
  {
    hide Decimal.Read, Decimal.Text, Decimal.IsDigit;
    Decimal.MinusIsNoDigit();
    var s2 := [Decimal.MINUS] + Decimal.Text(aid);
    var s1 := [Decimal.MINUS] + (Decimal.Text(licenseId) + s2);
    assert Message(khronos, licenseId, aid) == Decimal.Text(khronos) + s1;
    Decimal.ReadText(khronos, s1);
    assert s1[1..] == Decimal.Text(licenseId) + s2;
    Decimal.ReadText(licenseId, s2);
    assert s2[1..] == Decimal.Text(aid) + [];
    Decimal.ReadText(aid, []);
  }

  lemma DigitIsNoPadLength(c: byte)
    requires Decimal.IsDigit(c)
    ensures c as nat > 16
  {
  }

  function KeyOf(md5: Md5, random: seq<byte>, aid: int): MasterKey {
    MasterOf(HexText(md5(random + Decimal.Text(aid))))
  }

  lemma MasterText(text: seq<byte>)
    requires |text| == 32
    ensures var m := MasterOf(text); Le64Bytes(m[0]) + Le64Bytes(m[1]) + Le64Bytes(m[2]) + Le64Bytes(m[3]) == text
  {
    hide Le64Read, Le64Bytes;
    Le64BytesRead(text, 0);
    Le64BytesRead(text, 8);
    Le64BytesRead(text, 16);
    Le64BytesRead(text, 24);
    assert text[0..8] + text[8..16] + text[16..24] + text[24..32] == text;
  }

  /** The key is, word by word, the text of the digest of the random bytes and the application. */
  lemma KeyText(md5: Md5, random: seq<byte>, aid: int)
    ensures var k := KeyOf(md5, random, aid);
            Le64Bytes(k[0]) + Le64Bytes(k[1]) + Le64Bytes(k[2]) + Le64Bytes(k[3])
            == HexText(md5(random + Decimal.Text(aid)))
  {
    MasterText(HexText(md5(random + Decimal.Text(aid))));
    hide MasterOf, Le64Bytes, HexText, Decimal.Text;
  }

  function LadonEncrypt(md5: Md5, khronos: int, licenseId: int, aid: int, random: seq<byte>): seq<byte> {
    var key := KeyOf(md5, random, aid);
    Base64.Encode(random + BlockMode.Ecb(Encryptor(key), LadonPad(Message(khronos, licenseId, aid))))
  }

  /** Takes the header value apart, layer by layer, knowing only the application id. */
  function LadonDecrypt(md5: Md5, aid: int, text: seq<byte>): Option<(int, int, int)> {
    match Base64.Decode(text)
    case None => None
    case Some(raw) =>
      if |raw| < 4 then None
      else
        var key := KeyOf(md5, raw[..4], aid);
        ParseMessage(LadonStrip(BlockMode.Ecb(Decryptor(key), raw[4..])))
  }

  /** The header loses nothing: whatever the three numbers, the random bytes and MD5, decrypting gives them
      back, also when the message fills whole blocks and its pad block was dropped. */
  lemma LadonRoundTrip(md5: Md5, khronos: int, licenseId: int, aid: int, random: seq<byte>)
    requires |random| == 4
    ensures LadonDecrypt(md5, aid, LadonEncrypt(md5, khronos, licenseId, aid, random))
            == Some((khronos, licenseId, aid))
  {
    var key := KeyOf(md5, random, aid);
    var msg := Message(khronos, licenseId, aid);
    var cipher := BlockMode.Ecb(Encryptor(key), LadonPad(msg));
    Base64.DecodeEncode(random + cipher);
    assert (random + cipher)[..4] == random && (random + cipher)[4..] == cipher;
    DecryptorUndoes(key);
    BlockMode.EcbInverse(Encryptor(key), Decryptor(key), LadonPad(msg), PaddingSize(|msg|) / 16);
    DigitIsNoPadLength(msg[|msg| - 1]);
    StripPad(msg);
    ParseOfMessage(khronos, licenseId, aid);
  }

  lemma LadonZeroFree(md5: Md5, khronos: int, licenseId: int, aid: int, random: seq<byte>)
    ensures ZeroFree(LadonEncrypt(md5, khronos, licenseId, aid, random))
  {
    var key := KeyOf(md5, random, aid);
    Base64.DecodeEncode(random + BlockMode.Ecb(Encryptor(key), LadonPad(Message(khronos, licenseId, aid))));
    hide Base64.Encode, Base64.Decode, BlockMode.Ecb;
  }

  /** X-Ladon for C arguments: the 128-byte text buffer is never too small. */
  method LadonHeader(md5: Md5, khronos: int, licenseId: int, aid: int, random: seq<byte>) returns (b64: array<byte>)
    requires -0x8000_0000_0000_0000 <= khronos < 0x8000_0000_0000_0000
    requires -0x8000_0000 <= licenseId < 0x8000_0000 && -0x8000_0000 <= aid < 0x8000_0000
    requires |random| == 4
    ensures fresh(b64) && HoldsString(b64, LadonEncrypt(md5, khronos, licenseId, aid, random))
  {
    var dataStr := Message(khronos, licenseId, aid);
    Decimal.TextLength(khronos);
    Decimal.TextLength(licenseId);
    Decimal.TextLength(aid);
    assert |dataStr| < 128;
    var keygen := random + Decimal.Text(aid);
    var md5hex := HexText(md5(keygen));
    var encrypted := EncryptLadon(md5hex, dataStr);
    b64 := Base64.Base64Encode(random + encrypted[..]);
  }
}
