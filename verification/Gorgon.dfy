/** X-Gorgon (src/gorgon.c): the byte layouts, the in-place scrambling and its inverse. */
module Gorgon {
  import opened Bytes
  import opened CryptoHelpers
  import Decimal

  const LENGTH := 20

  // ---------------------------------------------------------------- scrambling

  function NibbleSwap(b: byte): byte {
    ((b >> 4) & 0x0F) | ((b & 0x0F) << 4)
  }

  function BitReverse(b: byte): byte {
    var b := ((b & 0xF0) >> 4) | ((b & 0x0F) << 4);
    var b := ((b & 0xCC) >> 2) | ((b & 0x33) << 2);
    ((b & 0xAA) >> 1) | ((b & 0x55) << 1)
  }

  function Flip(b: byte): byte {
    b ^ 0xFF ^ 20
  }

  lemma NibbleSwapTwice(b: byte)
    ensures NibbleSwap(NibbleSwap(b)) == b
  {
  }

  lemma BitReverseTwice(b: byte)
    ensures BitReverse(BitReverse(b)) == b
  {
  }

  lemma FlipTwice(b: byte)
    ensures Flip(Flip(b)) == b
  {
  }

  /** The new value of a cell from its old value and its right neighbour. */
  function Mix(cell: byte, next: byte): byte {
    Flip(BitReverse(XorByte(NibbleSwap(cell), next)))
  }

  function Unmix(cell: byte, next: byte): byte {
    NibbleSwap(XorByte(BitReverse(Flip(cell)), next))
  }

  lemma MixInverse(cell: byte, next: byte)
    ensures Unmix(Mix(cell, next), next) == cell
    ensures Mix(Unmix(cell, next), next) == cell
  {
    hide NibbleSwap, BitReverse, Flip, XorByte;
    var e := XorByte(NibbleSwap(cell), next);
    FlipTwice(BitReverse(e));
    BitReverseTwice(e);
    XorByteTwice(NibbleSwap(cell), next);
    NibbleSwapTwice(cell);
    var f := BitReverse(Flip(cell));
    NibbleSwapTwice(XorByte(f, next));
    XorByteTwice(f, next);
    BitReverseTwice(Flip(cell));
    FlipTwice(cell);
  }

  function Place(i: nat): byte
    requires i < 8
  {
    match i
    case 0 => 0x01
    case 1 => 0x02
    case 2 => 0x04
    case 3 => 0x08
    case 4 => 0x10
    case 5 => 0x20
    case 6 => 0x40
    case _ => 0x80
  }

  /** Bit `i` of a byte, counted from the lowest. */
  predicate Bit(b: byte, i: nat)
    requires i < 8
  {
    b & Place(i) != 0
  }

  lemma XorPlace(a: byte, b: byte, p: byte)
    ensures XorByte(a, b) & p == (a & p) ^ (b & p)
  {
  }

  lemma OnePlace(b: byte, i: nat)
    requires i < 8
    ensures b & Place(i) == 0 || b & Place(i) == Place(i)
  {
  }

  lemma XorByteBit(a: byte, b: byte, i: nat)
    requires i < 8
    ensures Bit(XorByte(a, b), i) <==> (Bit(a, i) <==> !Bit(b, i))
  {
    hide XorByte, Place;
    XorPlace(a, b, Place(i));
    OnePlace(a, i);
    OnePlace(b, i);
  }

  lemma NibbleSwapBit(b: byte, i: nat)
    requires i < 8
    ensures Bit(NibbleSwap(b), i) <==> Bit(b, (i + 4) % 8)
  {
  }

  lemma BitReverseBit(b: byte, i: nat)
    requires i < 8
    ensures Bit(BitReverse(b), i) <==> Bit(b, 7 - i)
  {
  }

  /** All bits change but those that are set in the length 20. */
  lemma FlipBit(b: byte, i: nat)
    requires i < 8
    ensures Bit(Flip(b), i) <==> (Bit(b, i) <==> i == 2 || i == 4)
  {
  }

  /** Where each bit of a mixed cell comes from: bit 7 - i of the neighbour and bit 7 - i of the cell with its halves
      swapped, which are added without carry, and inverted everywhere but in bits 2 and 4. */
  lemma MixBit(cell: byte, next: byte, i: nat)
    requires i < 8
    ensures Bit(Mix(cell, next), i)
            <==> ((Bit(cell, (11 - i) % 8) <==> Bit(next, 7 - i)) <==> i != 2 && i != 4)
  {
    hide Bit, NibbleSwap, BitReverse, Flip, XorByte;
    FlipBit(BitReverse(XorByte(NibbleSwap(cell), next)), i);
    BitReverseBit(XorByte(NibbleSwap(cell), next), i);
    XorByteBit(NibbleSwap(cell), next, 7 - i);
    NibbleSwapBit(cell, 7 - i);
  }

  type Cells = s: seq<byte> | |s| == LENGTH witness seq(LENGTH, _ => 0)

  function Step(s: Cells, i: nat): Cells
    requires i < LENGTH
  {
    s[i := Mix(s[i], s[(i + 1) % LENGTH])]
  }

  function StepBack(s: Cells, i: nat): Cells
    requires i < LENGTH
  {
    s[i := Unmix(s[i], s[(i + 1) % LENGTH])]
  }

  /** The first `n` steps of the circular pass; the twentieth reads the cell that the first one rewrote. */
  function Scrambled(s: Cells, n: nat): Cells
    requires n <= LENGTH
  {
    if n == 0 then s else Step(Scrambled(s, n - 1), n - 1)
  }

  /** The same steps undone, from index n - 1 down to 0. */
  function Unscrambled(s: Cells, n: nat): Cells
    requires n <= LENGTH
    decreases n
  {
    if n == 0 then s else Unscrambled(StepBack(s, n - 1), n - 1)
  }

  lemma StepInverse(s: Cells, i: nat)
    requires i < LENGTH
    ensures StepBack(Step(s, i), i) == s
    ensures Step(StepBack(s, i), i) == s
  {
    hide Mix, Unmix;
    MixInverse(s[i], s[(i + 1) % LENGTH]);
    assert Step(s, i)[(i + 1) % LENGTH] == s[(i + 1) % LENGTH];
    assert StepBack(s, i)[(i + 1) % LENGTH] == s[(i + 1) % LENGTH];
  }

  /** The pass is a bijection on twenty bytes. */
  lemma {:induction false} ScrambleInverse(s: Cells, n: nat)
    requires n <= LENGTH
    ensures Unscrambled(Scrambled(s, n), n) == s
    ensures Scrambled(Unscrambled(s, n), n) == s
    decreases n
  {
    hide Step, StepBack;
    if n > 0 {
      StepInverse(Scrambled(s, n - 1), n - 1);
      ScrambleInverse(s, n - 1);
      StepInverse(s, n - 1);
      ScrambleInverse(StepBack(s, n - 1), n - 1);
    }
  }

  /** Each output but the last depends on two neighbouring inputs; the last depends on inputs 19, 0 and 1. */
  function ClosedForm(s: Cells, i: nat): byte
    requires i < LENGTH
  {
    if i < LENGTH - 1 then Mix(s[i], s[i + 1]) else Mix(s[i], Mix(s[0], s[1]))
  }

  lemma {:induction false} ScrambledAt(s: Cells, n: nat, i: nat)
    requires n <= LENGTH && i < LENGTH
    ensures Scrambled(s, n)[i] == if i < n then ClosedForm(s, i) else s[i]
  {
    hide Mix;
    if n > 0 {
      ScrambledAt(s, n - 1, i);
      ScrambledAt(s, n - 1, (i + 1) % LENGTH);
    }
  }

  /** The whole pass at once. */
  lemma ScrambledIsClosedForm(s: Cells)
    ensures Scrambled(s, LENGTH) == seq(LENGTH, i requires 0 <= i < LENGTH => ClosedForm(s, i))
  {
    hide Scrambled, ClosedForm;
    forall i | 0 <= i < LENGTH
      ensures Scrambled(s, LENGTH)[i] == ClosedForm(s, i)
    {
      ScrambledAt(s, LENGTH, i);
    }
  }

  method Scramble(eor: array<byte>)
    requires eor.Length == LENGTH
    modifies eor
    ensures eor[..] == Scrambled(old(eor[..]), LENGTH)
  {
    for i := 0 to LENGTH
      invariant eor[..] == Scrambled(old(eor[..]), i)
    {
      hide Mix;
      eor[i] := Mix(eor[i], eor[(i + 1) % LENGTH]);
    }
  }

  const KEY: Cells := [0xDF, 0x77, 0xB9, 0x40, 0xB9, 0x9B, 0x84, 0x83, 0xD1, 0xB9,
                       0xCB, 0xD1, 0xF7, 0xC2, 0xB9, 0x85, 0xC3, 0xD0, 0xFB, 0xC3]

  function Masked(s: Cells): (r: Cells)
    ensures forall i :: 0 <= i < LENGTH ==> r[i] == XorByte(s[i], KEY[i])
  {
    hide XorByte, KEY;
    seq(LENGTH, i requires 0 <= i < LENGTH => XorByte(s[i], KEY[i]))
  }

  lemma MaskedTwice(s: Cells)
    ensures Masked(Masked(s)) == s
  {
    hide XorByte, KEY, Masked;
    forall i | 0 <= i < LENGTH
      ensures Masked(Masked(s))[i] == s[i]
    {
      XorByteTwice(s[i], KEY[i]);
    }
  }

  method MaskInto(list: seq<byte>) returns (eor: array<byte>)
    requires |list| == LENGTH
    ensures fresh(eor) && eor[..] == Masked(list)
  {
    hide XorByte, KEY;
    eor := new byte[LENGTH];
    for i := 0 to LENGTH
      invariant forall k :: 0 <= k < i ==> eor[k] == XorByte(list[k], KEY[k])
    {
      eor[i] := XorByte(list[i], KEY[i]);
    }
  }

  // ---------------------------------------------------------------- the timestamp, written two ways

  const TWO32: nat := 0x1_0000_0000

  /** The "%x" conversion: hexadecimal digits without leading zeros. */
  function HexNumber(n: nat): (s: seq<byte>)
    ensures s != []
  {
    if n < 16 then [HexDigit(Nibble(n))] else HexNumber(n / 16) + [HexDigit(Nibble(n % 16))]
  }

  /** The "%08x" conversion: the same, filled up with zeros on the left to eight characters. */
  function Hex08(n: nat): seq<byte> {
    var s := HexNumber(n);
    if |s| < 8 then seq(8 - |s|, _ => 0x30) + s else s
  }

  /** Exactly `k` hexadecimal digits. */
  function FixedHex(n: nat, k: nat): (s: seq<byte>)
    ensures |s| == k
  {
    if k == 0 then [] else FixedHex(n / 16, k - 1) + [HexDigit(Nibble(n % 16))]
  }

  lemma {:induction false} FixedHexOfZero(k: nat)
    ensures FixedHex(0, k) == seq(k, _ => 0x30)
  {
    if k > 0 {
      FixedHexOfZero(k - 1);
      assert HexDigit(Nibble(0)) == 0x30;
    }
  }

  lemma {:induction false} FilledIsFixed(n: nat, k: nat)
    requires 1 <= k && n < Pow(16, k)
    ensures |HexNumber(n)| <= k
    ensures FixedHex(n, k) == seq(k - |HexNumber(n)|, _ => 0x30) + HexNumber(n)
  {
    hide HexDigit, Nibble;
    if n < 16 {
      FixedHexOfZero(k - 1);
      assert n / 16 == 0 && n % 16 == n;
    } else {
      assert Pow(16, 1) == 16 * Pow(16, 0);
      FilledIsFixed(n / 16, k - 1);
    }
  }

  /** The last two digits. */
  lemma FixedHexStep(n: nat, k: nat)
    requires 2 <= k
    ensures FixedHex(n, k) == FixedHex(n / 256, k - 2) + [HexDigit(Nibble(n / 16 % 16)), HexDigit(Nibble(n % 16))]
  {
    hide Nibble, HexDigit;
    assert n / 16 / 16 == n / 256;
    assert FixedHex(n / 16, k - 1) == FixedHex(n / 16 / 16, k - 2) + [HexDigit(Nibble(n / 16 % 16))];
  }

  lemma HexDecodeLast(s: seq<byte>, hi: byte, lo: byte)
    requires |s| % 2 == 0
    ensures HexDecode(s + [hi, lo]) == HexDecode(s) + [FromDigits(hi, lo)]
  {
    hide FromDigits;
    var t, n := s + [hi, lo], |s| / 2;
    HexDecodeSnoc(t, n);
    assert t[..2 * n + 2] == t && t[..2 * n] == s;
    hide HexDecode;
  }

  lemma FixedHexTurn(n: nat, k: nat)
    requires 2 <= k && k % 2 == 0
    ensures HexDecode(FixedHex(n, k)) == HexDecode(FixedHex(n / 256, k - 2)) + [ToByte(n % 256)]
  {
    hide FixedHex, Nibble, HexDigit, ToByte, FromDigits, HexDecode;
    FixedHexStep(n, k);
    HexDecodeLast(FixedHex(n / 256, k - 2), HexDigit(Nibble(n / 16 % 16)), HexDigit(Nibble(n % 16)));
    DigitsMakeByte(n);
  }

  lemma {:induction false} FixedHexDecodes(n: nat, k: nat)
    ensures HexDecode(FixedHex(n, 2 * k)) == BeBytes(n, k)
  {
    hide FixedHex, ToByte, HexDecode;
    if k == 0 {
      NoDigits(n);
    } else {
      FixedHexTurn(n, 2 * k);
      FixedHexDecodes(n / 256, k - 1);
    }
  }

  lemma NoDigits(n: nat)
    ensures HexDecode(FixedHex(n, 0)) == []
  {
  }

  lemma HalvesOfByte(n: nat)
    ensures n % 256 / 16 == n / 16 % 16 && n % 256 % 16 == n % 16
  {
    var q, r := n / 256, n % 256;
    assert n == 16 * (16 * q + r / 16) + r % 16;
  }

  lemma DigitsMakeByte(n: nat)
    ensures FromDigits(HexDigit(Nibble(n / 16 % 16)), HexDigit(Nibble(n % 16))) == ToByte(n % 256)
  {
    HalvesOfByte(n);
    hide Nibble, HexDigit, HexNibble;
  }

  /** Version 1 writes the timestamp as eight hexadecimal digits and decodes them again; version 2 shifts. Both
      give the four big-endian bytes of the timestamp modulo 2^32. */
  lemma TimestampDetour(ts: int)
    ensures |Hex08(ts % TWO32)| == 8
    ensures HexDecode(Hex08(ts % TWO32)) == BeBytes(ts % TWO32, 4)
  {
    var n := ts % TWO32;
    assert Pow(16, 8) == 16 * 16 * 16 * 16 * Pow(16, 4);
    assert Pow(16, 4) == 16 * 16 * 16 * 16;
    FilledIsFixed(n, 8);
    FixedHexDecodes(n, 4);
    hide HexNumber, FixedHex;
    assert |HexNumber(n)| == 8 ==> seq(0, _ => 0x30) + HexNumber(n) == HexNumber(n);
  }

  // ---------------------------------------------------------------- the header values

  /** The three strings of a result. */
  datatype Result = Result(reqTicket: seq<byte>, khronos: seq<byte>, gorgonVal: seq<byte>)

  /** The first four digest bytes of an optional text; zeros when it is missing or empty. */
  function Part(md5: Md5, text: seq<byte>): (r: seq<byte>)
    ensures |r| == 4
  {
    if text == [] then Zeros(4) else md5(text)[..4]
  }

  /** The twenty bytes behind the header: three digests, a version mark and the timestamp. */
  function Layout(md5: Md5, query: seq<byte>, body: seq<byte>, cookie: seq<byte>, mark: seq<byte>, ts: int): (r: Cells)
    requires |mark| == 4
  {
    md5(query)[..4] + Part(md5, body) + Part(md5, cookie) + mark + BeBytes(ts % TWO32, 4)
  }

  const MARK1: seq<byte> := [0x01, 0x01, 0x02, 0x04]
  const MARK2: seq<byte> := [0x00, 0x06, 0x0B, 0x1C]

  const PREFIX1: seq<byte> := [0x38, 0x34, 0x30, 0x34]  // "8404"
  const PREFIX2: seq<byte> := [
    0x38, 0x34, 0x30, 0x32, 0x38, 0x30, 0x34, 0x31, 0x36, 0x30, 0x30, 0x30  // "840280416000"
  ]
  const PREFIX3: seq<byte> := [
    0x30, 0x34, 0x30, 0x34, 0x62, 0x30, 0x64, 0x33, 0x30, 0x30, 0x30, 0x30  // "0404b0d30000"
  ]

  function Tickets(ts: int, gorgonVal: seq<byte>): Result {
    Result(Decimal.Text(ts * 1000), Decimal.Text(ts), gorgonVal)
  }

  function V1(md5: Md5, query: seq<byte>, body: seq<byte>, cookie: seq<byte>, ts: int, b3: byte, b7: byte): Result {
    Tickets(ts, PREFIX1 + HexText([b7 & 0xF0, b3, 0x00, 0x00]) + HexText(Layout(md5, query, body, cookie, MARK1, ts)))
  }

  function V2(md5: Md5, query: seq<byte>, body: seq<byte>, cookie: seq<byte>, ts: int): Result {
    Tickets(ts, PREFIX2 + HexText(Scrambled(Masked(Layout(md5, query, body, cookie, MARK2, ts)), LENGTH)))
  }

  function V3(md5: Md5, query: seq<byte>, body: seq<byte>, cookie: seq<byte>, ts: int): Result {
    Tickets(ts, PREFIX3 + V2(md5, query, body, cookie, ts).gorgonVal[12..])
  }

  /** The twenty bytes behind a version 1 value. */
  function ReadPlain(text: seq<byte>): Option<Cells> {
    if |text| != 52 then None else Some(HexDecode(text[12..]))
  }

  /** The twenty bytes behind a version 2 or 3 value: decoded, unscrambled and unmasked. */
  function ReadScrambled(text: seq<byte>): Option<Cells> {
    match ReadPlain(text)
    case None => None
    case Some(s) => Some(Masked(Unscrambled(s, LENGTH)))
  }

  lemma ReadAfterPrefix(prefix: seq<byte>, s: Cells)
    requires |prefix| == 12
    ensures ReadPlain(prefix + HexText(s)) == Some(s)
  {
    hide HexText, HexDecode;
    assert (prefix + HexText(s))[12..] == HexText(s);
    HexDecodeText(s);
  }

  /** Every version carries its twenty bytes without loss; versions 2 and 3 carry the same ones. */
  lemma ValuesRead(md5: Md5, query: seq<byte>, body: seq<byte>, cookie: seq<byte>, ts: int, b3: byte, b7: byte)
    ensures ReadPlain(V1(md5, query, body, cookie, ts, b3, b7).gorgonVal)
            == Some(Layout(md5, query, body, cookie, MARK1, ts))
    ensures ReadScrambled(V2(md5, query, body, cookie, ts).gorgonVal)
            == Some(Layout(md5, query, body, cookie, MARK2, ts))
    ensures ReadScrambled(V3(md5, query, body, cookie, ts).gorgonVal)
            == Some(Layout(md5, query, body, cookie, MARK2, ts))
  {
    var list := Layout(md5, query, body, cookie, MARK2, ts);
    hide Layout, HexText, HexDecode, Masked, Scrambled, Unscrambled;
    var cells := Scrambled(Masked(list), LENGTH);
    ReadAfterPrefix(PREFIX1 + HexText([b7 & 0xF0, b3, 0x00, 0x00]), Layout(md5, query, body, cookie, MARK1, ts));
    ReadAfterPrefix(PREFIX2, cells);
    assert (PREFIX2 + HexText(cells))[12..] == HexText(cells);
    ReadAfterPrefix(PREFIX3, cells);
    ScrambleInverse(Masked(list), LENGTH);
    MaskedTwice(list);
  }

  /** How each version starts, and the random halves that version 1 shows: all of one byte, the high half of another. */
  lemma ValuesStart(md5: Md5, query: seq<byte>, body: seq<byte>, cookie: seq<byte>, ts: int, b3: byte, b7: byte)
    ensures var v1 := V1(md5, query, body, cookie, ts, b3, b7).gorgonVal;
            && |v1| == 52 && v1[..4] == [0x38, 0x34, 0x30, 0x34]  // "8404"
            && var flags := HexDecode(v1[4..12]);
               flags[0] & 0xF0 == b7 & 0xF0 && flags[0] & 0x0F == 0 && flags[1] == b3 && flags[2] == flags[3] == 0
    ensures var v2 := V2(md5, query, body, cookie, ts).gorgonVal;  // "840280416000"
            |v2| == 52 && v2[..12] == [0x38, 0x34, 0x30, 0x32, 0x38, 0x30, 0x34, 0x31, 0x36, 0x30, 0x30, 0x30]
    ensures var v3 := V3(md5, query, body, cookie, ts).gorgonVal;  // "0404b0d30000"
            |v3| == 52 && v3[..12] == [0x30, 0x34, 0x30, 0x34, 0x62, 0x30, 0x64, 0x33, 0x30, 0x30, 0x30, 0x30]
  {
    hide HexText, HexDecode, Layout, Masked, Scrambled;
    var v1 := V1(md5, query, body, cookie, ts, b3, b7).gorgonVal;
    var flags := [b7 & 0xF0, b3, 0x00, 0x00];
    assert v1[4..12] == HexText(flags);
    HexDecodeText(flags);
    HighHalf(b7);
  }

  lemma HighHalf(b: byte)
    ensures (b & 0xF0) & 0xF0 == b & 0xF0 && (b & 0xF0) & 0x0F == 0
  {
  }

  /** What the twenty bytes tell: three digest prefixes, the version mark and the timestamp modulo 2^32. */
  lemma LayoutRead(md5: Md5, query: seq<byte>, body: seq<byte>, cookie: seq<byte>, mark: seq<byte>, ts: int)
    requires |mark| == 4
    ensures var s := Layout(md5, query, body, cookie, mark, ts);
            && s[..4] == md5(query)[..4] && s[4..8] == Part(md5, body) && s[8..12] == Part(md5, cookie)
            && s[12..16] == mark && BeValue(s[16..]) == ts % TWO32
  {
    assert Pow(256, 4) == 256 * 256 * 256 * 256;
    BeValueBytes(ts % TWO32, 4);
    hide BeBytes, BeValue, Pow, Part;
    var s := Layout(md5, query, body, cookie, mark, ts);
    assert s[16..] == BeBytes(ts % TWO32, 4);
  }

  /** The two time headers are consistent: the ticket is the timestamp in milliseconds. */
  lemma TicketsRead(ts: int, gorgonVal: seq<byte>)
    ensures Decimal.Read(Tickets(ts, gorgonVal).khronos) == Some((ts, []))
    ensures Decimal.Read(Tickets(ts, gorgonVal).reqTicket) == Some((ts * 1000, []))
  {
    Decimal.ReadText(ts, []);
    Decimal.ReadText(ts * 1000, []);
    hide Decimal.Read, Decimal.Text;
    assert Decimal.Text(ts) + [] == Decimal.Text(ts);
    assert Decimal.Text(ts * 1000) + [] == Decimal.Text(ts * 1000);
  }

  // ---------------------------------------------------------------- the code that fills the layout

  /** The bytes of a digest text's first eight digits, copied to the layout. */
  method FillDigest(list: array<byte>, pos: nat, md5: Md5, text: seq<byte>)
    requires pos + 4 <= list.Length
    modifies list
    ensures list[..pos + 4] == old(list[..pos]) + md5(text)[..4]
    ensures forall i :: pos + 4 <= i < list.Length ==> list[i] == old(list[i])
  {
    var digest := md5(text);
    DigestDetour(digest);
    hide HexText, HexDecode;
    var bytes := FirstDigestBytes(HexText(digest), 4);
    CopyInto(list, pos, bytes[..]);
  }

  /** The same for a text that may be missing; its place then keeps its zeros. */
  method FillPart(list: array<byte>, pos: nat, md5: Md5, text: seq<byte>)
    requires pos + 4 <= list.Length && forall i :: pos <= i < pos + 4 ==> list[i] == 0
    modifies list
    ensures list[..pos + 4] == old(list[..pos]) + Part(md5, text)
    ensures forall i :: pos + 4 <= i < list.Length ==> list[i] == old(list[i])
  {
    if text != [] {
      FillDigest(list, pos, md5, text);
    }
  }

  /** Starts the layout: a zeroed array, the digests of the texts that are there, and the version mark. */
  method FillLayout(md5: Md5, query: seq<byte>, body: seq<byte>, cookie: seq<byte>, mark: seq<byte>, time: seq<byte>)
    returns (list: array<byte>)
    requires |mark| == 4 && |time| == 4
    ensures fresh(list)
    ensures list[..] == md5(query)[..4] + Part(md5, body) + Part(md5, cookie) + mark + time
  {
    hide Part;
    list := FillDigests(md5, query, body, cookie);
    CopyInto(list, 12, mark);
    CopyInto(list, 16, time);
  }

  /** The first twelve bytes; a missing text leaves its four bytes zero. */
  method FillDigests(md5: Md5, query: seq<byte>, body: seq<byte>, cookie: seq<byte>) returns (list: array<byte>)
    ensures fresh(list) && list.Length == LENGTH
    ensures list[..12] == md5(query)[..4] + Part(md5, body) + Part(md5, cookie)
  {
    hide Part;
    list := new byte[LENGTH](_ => 0);
    FillDigest(list, 0, md5, query);
    FillPart(list, 4, md5, body);
    FillPart(list, 8, md5, cookie);
  }

  method HexString(bytes: seq<byte>) returns (s: seq<byte>)
    requires 2 * |bytes| < 256
    ensures s == HexText(bytes)
  {
    var sb := new byte[256];
    BytesToHex(bytes, sb);
    s := sb[..2 * |bytes|];
  }

  predicate IsTimestamp(ts: int) {
    -0x8000_0000_0000_0000 <= ts * 1000 < 0x8000_0000_0000_0000
  }

  method GorgonV1(md5: Md5, query: seq<byte>, body: seq<byte>, cookie: seq<byte>, ts: int, b3: byte, b7: byte)
    returns (r: Result)
    requires IsTimestamp(ts)
    ensures r == V1(md5, query, body, cookie, ts, b3, b7)
  {
    TimestampDetour(ts);
    hide Hex08, HexDecode, HexText, Part;
    var khronosStr := Hex08(ts % TWO32);
    assert khronosStr[..8] == khronosStr;
    var time := FirstDigestBytes(khronosStr, 4);
    var list := FillLayout(md5, query, body, cookie, MARK1, time[..]);
    var flags := HexString([b7 & 0xF0, b3, 0x00, 0x00]);
    var digits := HexString(list[..]);
    r := Result(Decimal.Text(ts * 1000), Decimal.Text(ts), PREFIX1 + flags + digits);
  }

  /** The low four bytes of the timestamp by shifts. */
  lemma ShiftsAreBytes(n: nat)
    ensures [ShiftByte(n, 3), ShiftByte(n, 2), ShiftByte(n, 1), ShiftByte(n, 0)] == BeBytes(n, 4)
  {
    ShiftByteIs(n, 4, 0);
    ShiftByteIs(n, 4, 1);
    ShiftByteIs(n, 4, 2);
    ShiftByteIs(n, 4, 3);
    hide ShiftByte, BeBytes;
  }

  method GorgonV2(md5: Md5, query: seq<byte>, body: seq<byte>, cookie: seq<byte>, ts: int) returns (r: Result)
    requires IsTimestamp(ts)
    ensures r == V2(md5, query, body, cookie, ts)
  {
    var h := ts % TWO32;
    ShiftsAreBytes(h);
    hide ShiftByte, BeBytes, HexText, Part, Masked, Scrambled;
    var time := [ShiftByte(h, 3), ShiftByte(h, 2), ShiftByte(h, 1), ShiftByte(h, 0)];
    var list := FillLayout(md5, query, body, cookie, MARK2, time);
    var eor := MaskInto(list[..]);
    Scramble(eor);
    var digits := HexString(eor[..]);
    r := Result(Decimal.Text(ts * 1000), Decimal.Text(ts), PREFIX2 + digits);
  }

  method GorgonV3(md5: Md5, query: seq<byte>, body: seq<byte>, cookie: seq<byte>, ts: int) returns (r: Result)
    requires IsTimestamp(ts)
    ensures r == V3(md5, query, body, cookie, ts)
  {
    r := GorgonV2(md5, query, body, cookie, ts);
    r := r.(gorgonVal := PREFIX3 + r.gorgonVal[12..]);
  }
}
