/** The message inside X-Argus (argus_get_sign in src/argus.c) and what a reader of the header finds in it. */
module ArgusMessage {
  import opened Bytes
  import opened CryptoHelpers
  import opened UrlEncode
  import Argus
  import Decimal
  import P = Protobuf
  import Sm3

  const DEVICE_ID: seq<byte> := [0x64, 0x65, 0x76, 0x69, 0x63, 0x65, 0x5F, 0x69, 0x64]  // "device_id"
  const VERSION_NAME: seq<byte> := [
    0x76, 0x65, 0x72, 0x73, 0x69, 0x6F, 0x6E, 0x5F, 0x6E, 0x61, 0x6D, 0x65  // "version_name"
  ]
  const NONE: seq<byte> := [0x6E, 0x6F, 0x6E, 0x65]  // "none"
  const MODEL: seq<byte> := [0x4E, 0x58, 0x35, 0x35, 0x31, 0x4A]  // "NX551J"

  const BEAN_CAPACITY := 4096

  datatype Request = Request(query: seq<byte>, stub: seq<byte>, timestamp: int, aid: int, licenseId: int,
                             platform: int, secDeviceId: seq<byte>, sdkVersion: seq<byte>, sdkVersionInt: int,
                             rand: int)

  // ---------------------------------------------------------------- looking parameters up

  /** The value of the last parameter called `k`, or the empty string: what the lookup loop ends with. */
  function Lookup(ps: seq<Pair>, k: seq<byte>): seq<byte> {
    if ps == [] then []
    else if ps[|ps| - 1].key == k then ps[|ps| - 1].value
    else Lookup(ps[..|ps| - 1], k)
  }

  /** The first non-empty value given for `k`, or the empty string. */
  function FirstValue(ps: seq<Pair>, k: seq<byte>): seq<byte> {
    if ps == [] then []
    else if ps[0].key == k && ps[0].value != [] then ps[0].value
    else FirstValue(ps[1..], k)
  }

  lemma {:induction false} FirstValueSnoc(ps: seq<Pair>, k: seq<byte>)
    requires ps != []
    ensures var front, last := ps[..|ps| - 1], ps[|ps| - 1];
            FirstValue(ps, k) == if FirstValue(front, k) != [] then FirstValue(front, k)
                                 else if last.key == k then last.value else []
  {
    if |ps| > 1 {
      assert ps[1..][..|ps| - 2] == ps[..|ps| - 1][1..];
      FirstValueSnoc(ps[1..], k);
    }
  }

  lemma {:induction false} FirstValueGiven(ps: seq<Pair>, k: seq<byte>)
    ensures FirstValue(ps, k) != [] <==> Given(ps, k)
  {
    hide Given;
    if ps == [] {
      NothingGiven(k);
    } else {
      FirstValueSnoc(ps, k);
      FirstValueGiven(ps[..|ps| - 1], k);
      GivenSnoc(ps, k);
    }
  }

  lemma NothingGiven(k: seq<byte>)
    ensures !Given([], k)
  {
  }

  lemma {:induction false} LookupFirst(ps: seq<Pair>, k: seq<byte>)
    ensures Lookup(FirstNonEmpty(ps), k) == FirstValue(ps, k)
  {
    hide Given;
    if ps != [] {
      var front, last := ps[..|ps| - 1], ps[|ps| - 1];
      LookupFirst(front, k);
      FirstValueSnoc(ps, k);
      FirstValueGiven(front, last.key);
      hide FirstValue;
      assert (FirstNonEmpty(front) + [last])[..|FirstNonEmpty(front)|] == FirstNonEmpty(front);
    }
  }

  // ---------------------------------------------------------------- the fields

  function HashedBody(stub: seq<byte>): seq<byte>
    requires |stub| % 2 == 0
  {
    if stub == [] then Zeros(16) else HexDecode(stub)
  }

  function HashedQuery(query: seq<byte>): seq<byte> {
    if query == [] then Zeros(16) else query
  }

  function RandInt(r: Request, fallback: nat): nat {
    if r.rand >= 0 then r.rand else fallback
  }

  function Inner15(): seq<P.Field> {
    [P.Number(1, 1), P.Number(2, 1), P.Number(3, 1), P.Number(7, 3348294860)]
  }

  function Inner23(): seq<P.Field> {
    [P.Text(1, MODEL), P.Number(2, 8196), P.Number(4, 2162219008)]
  }

  /** The texts worked out before the fields are laid out: two parameters looked up, two hashes, two nested messages. */
  datatype Texts = Texts(deviceId: seq<byte>, versionName: seq<byte>, bodyHash: seq<byte>, queryHash: seq<byte>,
                         inner15: seq<byte>, inner23: seq<byte>)

  ghost function TextsOf(r: Request): (t: Texts)
    requires |r.stub| % 2 == 0
  {
    var ps := ParseQuery(r.query);
    Texts(Lookup(ps, DEVICE_ID), Lookup(ps, VERSION_NAME),
          Sm3.Digest(HashedBody(r.stub))[..6], Sm3.Digest(HashedQuery(r.query))[..6],
          P.Serialize(Inner15()), P.Serialize(Inner23()))
  }

  /** The twenty fields. */
  function FieldList(r: Request, fallback: nat, t: Texts): (fs: seq<P.Field>)
    ensures |fs| == 20
  {
    [ P.Number(1, 2 * 0x20200929),
      P.Number(2, 2),
      P.Number(3, RandInt(r, fallback) % 0x8000_0000),
      P.Text(4, Decimal.Text(r.aid)),
      P.Text(5, t.deviceId),
      P.Text(6, Decimal.Text(r.licenseId)),
      P.Text(7, t.versionName),
      P.Text(8, r.sdkVersion),
      P.Number(9, r.sdkVersionInt % P.TWO64),
      P.Text(10, Zeros(8)),
      P.Number(11, r.platform % P.TWO64),
      P.Number(12, 2 * (r.timestamp % P.TWO64) % P.TWO64),
      P.Text(13, t.bodyHash),
      P.Text(14, t.queryHash),
      P.Text(15, t.inner15),
      P.Text(16, r.secDeviceId),
      P.Text(20, NONE),
      P.Number(21, 738),
      P.Text(23, t.inner23),
      P.Number(25, 2) ]
  }

  ghost function Fields(r: Request, fallback: nat): (fs: seq<P.Field>)
    requires |r.stub| % 2 == 0
    ensures |fs| == 20
  {
    FieldList(r, fallback, TextsOf(r))
  }

  /** What argus_get_sign asks of its caller: whole hexadecimal pairs in the stub, C ints, and a message that its
      fixed buffer can hold. */
  ghost predicate Legal(r: Request, fallback: nat) {
    && |r.stub| % 2 == 0
    && -0x8000_0000 <= r.aid < 0x8000_0000 && -0x8000_0000 <= r.licenseId < 0x8000_0000
    && |Message(r, fallback)| <= 4096
  }

  ghost function Message(r: Request, fallback: nat): seq<byte>
    requires |r.stub| % 2 == 0
  {
    P.Serialize(Fields(r, fallback))
  }

  ghost function Sign(md5: Md5, aes: Argus.Aes, r: Request, fallback: nat): seq<byte>
    requires |r.stub| % 2 == 0
  {
    Argus.ArgusEncrypt(md5, aes, Message(r, fallback))
  }

  /** Undoes every layer of the header and parses the message, knowing the writer's quirk or as the standard says. */
  function ReadHeader(quirk: bool, md5: Md5, aesBack: Argus.Aes, text: seq<byte>): Option<seq<P.Field>> {
    match Argus.ArgusDecrypt(md5, aesBack, text)
    case None => None
    case Some(bean) => P.Parse(quirk, bean)
  }

  lemma {:induction false} DataFits(fs: seq<P.Field>, i: nat)
    requires i < |fs| && fs[i].kind == P.KIND_STRING
    ensures |fs[i].data| <= |P.Serialize(fs)|
  {
    hide P.Header;
    if i > 0 {
      DataFits(fs[1..], i - 1);
    }
  }

  predicate ListedField(f: P.Field) {
    f.idx <= 25 && (if f.kind == P.KIND_VARINT then f.data == [] else f.kind == P.KIND_STRING && f.varint == 0)
  }

  lemma FieldsListed(r: Request, fallback: nat, t: Texts)
    ensures forall i :: 0 <= i < 20 ==> ListedField(FieldList(r, fallback, t)[i])
  {
    hide Decimal.Text;
  }

  lemma ListedCarried(fs: seq<P.Field>)
    requires forall i :: 0 <= i < |fs| ==> ListedField(fs[i])
    requires |P.Serialize(fs)| <= BEAN_CAPACITY
    ensures forall f :: f in fs ==> P.Carried(f)
  {
    hide P.Serialize;
    forall f | f in fs
      ensures P.Carried(f)
    {
      var i :| 0 <= i < |fs| && fs[i] == f;
      assert ListedField(fs[i]);
      if f.kind == P.KIND_STRING {
        DataFits(fs, i);
      }
    }
  }

  lemma FieldsCarried(r: Request, fallback: nat)
    requires Legal(r, fallback)
    ensures forall f :: f in Fields(r, fallback) ==> P.Carried(f)
  {
    hide FieldList, P.Serialize, P.Carried, ListedField, TextsOf;
    FieldsListed(r, fallback, TextsOf(r));
    ListedCarried(Fields(r, fallback));
  }

  lemma {:induction false} ArrivedAt(fs: seq<P.Field>, i: nat)
    requires i < |fs|
    ensures P.ArrivedAll(fs)[i] == P.Arrived(fs[i])
  {
    if i > 0 {
      ArrivedAt(fs[1..], i - 1);
    }
  }

  lemma NamesLookedUp(params: seq<Pair>, r: Request)
    requires forall i :: 0 <= i < |params| ==> Strings(params[i])
    requires r.query == EncodeParams(params)
    ensures Lookup(ParseQuery(r.query), DEVICE_ID) == FirstValue(params, DEVICE_ID)
    ensures Lookup(ParseQuery(r.query), VERSION_NAME) == FirstValue(params, VERSION_NAME)
  {
    ParseEncoded(params);
    LookupFirst(params, DEVICE_ID);
    LookupFirst(params, VERSION_NAME);
    hide *;
  }

  // ---------------------------------------------------------------- when the header can be read

  /** The inputs a caller has to keep away from: no number written is one that the reader does not get back, and no
      text has 128 bytes. */
  predicate SafeInputs(quirk: bool, r: Request, fallback: nat, deviceId: seq<byte>, versionName: seq<byte>) {
    && P.Safe(quirk, (if r.rand >= 0 then r.rand else fallback) % 0x8000_0000)
    && P.Safe(quirk, r.sdkVersionInt % 0x1_0000_0000)
    && P.Safe(quirk, r.platform % 0x1_0000_0000)
    && P.Safe(quirk, 2 * r.timestamp % 0x1_0000_0000)
    && |deviceId| != 128 && |versionName| != 128 && |r.sdkVersion| != 128 && |r.secDeviceId| != 128
  }

  lemma SafeNumber(quirk: bool, i: nat, v: nat)
    requires i <= 25
    ensures P.SafeField(quirk, P.Number(i, v)) <==> i != 16 && P.Safe(quirk, v % P.TWO32)
  {
    hide P.Safe, P.Key;
    P.KeyOfCarried(P.Number(i, v));
    P.SafeBelow(quirk, 8 * i);
  }

  lemma SafeText(quirk: bool, i: nat, d: seq<byte>)
    requires i <= 25 && |d| <= BEAN_CAPACITY
    ensures P.SafeField(quirk, P.Text(i, d)) <==> |d| != 128
  {
    hide P.Safe, P.Key;
    P.KeyOfCarried(P.Text(i, d));
    P.SafeBelow(quirk, 8 * i + 2);
    P.SafeBelow(quirk, |d|);
  }

  /** The three large numbers that are always written. */
  lemma SafeConstants(quirk: bool)
    ensures P.Safe(quirk, 2 * 0x20200929) && P.Safe(quirk, 3348294860) && P.Safe(quirk, 2162219008)
  {
    hide P.Safe;
    P.SafeBelow(quirk, 514);
    P.SafeStep(quirk, 65792);
    P.SafeStep(quirk, 8421412);
    P.SafeStep(quirk, 2 * 0x20200929);
    P.SafeBelow(quirk, 1596);
    P.SafeStep(quirk, 204363);
    P.SafeStep(quirk, 26158553);
    P.SafeStep(quirk, 3348294860);
    P.SafeBelow(quirk, 1031);
    P.SafeStep(quirk, 131971);
    P.SafeStep(quirk, 16892336);
    P.SafeStep(quirk, 2162219008);
  }

  lemma Remainder(x: int, q: int, r: int)
    requires x == 0x1_0000_0000 * q + r && 0 <= r < 0x1_0000_0000
    ensures x % 0x1_0000_0000 == r
  {
  }

  lemma LowBits(x: int)
    ensures x % P.TWO64 % P.TWO32 == x % P.TWO32
  {
    var a := x % P.TWO64;
    assert x == P.TWO64 * (x / P.TWO64) + a;
    assert a == P.TWO32 * (a / P.TWO32) + a % P.TWO32;
    Remainder(x, P.TWO32 * (x / P.TWO64) + a / P.TWO32, a % P.TWO32);
  }

  lemma ShiftedLowBits(t: int)
    ensures 2 * (t % P.TWO64) % P.TWO64 % P.TWO32 == 2 * t % P.TWO32
  {
    var a := t % P.TWO64;
    var c := 2 * a % P.TWO32;
    LowBits(2 * a);
    assert 2 * t == 2 * P.TWO64 * (t / P.TWO64) + 2 * a;
    assert 2 * a == P.TWO32 * (2 * a / P.TWO32) + c;
    Remainder(2 * t, 2 * P.TWO32 * (t / P.TWO64) + 2 * a / P.TWO32, c);
  }

  lemma InnerLengths()
    ensures |P.Serialize(Inner15())| <= 64 && |P.Serialize(Inner23())| <= 64
  {
    var a, b := Inner15(), Inner23();
    P.SerializedLength(a);
    P.SerializedLength(b);
    assert P.DataLength(a) == 0 + (0 + (0 + (0 + P.DataLength(a[1..][1..][1..][1..]))));
    assert P.DataLength(b) == 6 + (0 + (0 + P.DataLength(b[1..][1..][1..])));
  }

  lemma DataStep(fs: seq<P.Field>, i: nat)
    requires i < |fs|
    ensures P.DataLength(fs[i..]) == |fs[i].data| + P.DataLength(fs[i + 1..])
  {
    assert fs[i..][1..] == fs[i + 1..];
  }

  function FiveLengths(fs: seq<P.Field>, lo: nat): nat
    requires lo + 5 <= |fs|
  {
    |fs[lo].data| + |fs[lo + 1].data| + |fs[lo + 2].data| + |fs[lo + 3].data| + |fs[lo + 4].data|
  }

  lemma DataFive(fs: seq<P.Field>, lo: nat)
    requires lo + 5 <= |fs|
    ensures P.DataLength(fs[lo..]) == FiveLengths(fs, lo) + P.DataLength(fs[lo + 5..])
  {
    hide P.DataLength;
    DataStep(fs, lo);
    DataStep(fs, lo + 1);
    DataStep(fs, lo + 2);
    DataStep(fs, lo + 3);
    DataStep(fs, lo + 4);
  }

  lemma DataTwenty(fs: seq<P.Field>)
    requires |fs| == 20
    ensures P.DataLength(fs) == FiveLengths(fs, 0) + FiveLengths(fs, 5) + FiveLengths(fs, 10) + FiveLengths(fs, 15)
  {
    hide FiveLengths, P.DataLength;
    DataFive(fs, 0);
    DataFive(fs, 5);
    DataFive(fs, 10);
    DataFive(fs, 15);
    DataEnds(fs);
  }

  lemma DataEnds(fs: seq<P.Field>)
    ensures P.DataLength(fs[0..]) == P.DataLength(fs) && P.DataLength(fs[|fs|..]) == 0
  {
    assert fs[0..] == fs;
  }

  lemma ListFits(r: Request, fallback: nat, t: Texts)
    requires -0x8000_0000 <= r.aid < 0x8000_0000 && -0x8000_0000 <= r.licenseId < 0x8000_0000
    requires |t.bodyHash| == |t.queryHash| == 6 && |t.inner15| <= 64 && |t.inner23| <= 64
    requires |t.deviceId| + |t.versionName| + |r.sdkVersion| + |r.secDeviceId| <= 3700
    ensures |P.Serialize(FieldList(r, fallback, t))| <= BEAN_CAPACITY
  {
    hide P.Serialize, P.DataLength, Decimal.Text, RandInt;
    var fs := FieldList(r, fallback, t);
    Decimal.TextLength(r.aid);
    Decimal.TextLength(r.licenseId);
    P.SerializedLength(fs);
    DataTwenty(fs);
  }

  /** The message fits whenever the four texts of the caller have at most 3700 bytes together. */
  lemma ShortRequestFits(r: Request, fallback: nat)
    requires |r.stub| % 2 == 0
    requires -0x8000_0000 <= r.aid < 0x8000_0000 && -0x8000_0000 <= r.licenseId < 0x8000_0000
    requires |Lookup(ParseQuery(r.query), DEVICE_ID)| + |Lookup(ParseQuery(r.query), VERSION_NAME)|
             + |r.sdkVersion| + |r.secDeviceId| <= 3700
    ensures Legal(r, fallback)
  {
    hide FieldList, Lookup, ParseQuery, Sm3.Digest, P.Serialize, HashedBody, HashedQuery, Inner15, Inner23;
    InnerLengths();
    ListFits(r, fallback, TextsOf(r));
  }

  /** The lengths a message within its buffer can have. */
  predicate Lengths(r: Request, t: Texts) {
    && |t.deviceId| <= BEAN_CAPACITY && |t.versionName| <= BEAN_CAPACITY
    && |r.sdkVersion| <= BEAN_CAPACITY && |r.secDeviceId| <= BEAN_CAPACITY
    && |t.bodyHash| == |t.queryHash| == 6 && |t.inner15| <= 64 && |t.inner23| <= 64
    && -0x8000_0000 <= r.aid < 0x8000_0000 && -0x8000_0000 <= r.licenseId < 0x8000_0000
  }

  /** The places of the fields whose safety depends on the caller. */
  predicate Varies(j: nat) {
    j == 2 || j == 4 || j == 6 || j == 7 || j == 8 || j == 10 || j == 11 || j == 15
  }

  lemma FixedFirst(quirk: bool, r: Request, fallback: nat, t: Texts)
    requires Lengths(r, t)
    ensures forall j :: 0 <= j < 10 && !Varies(j) ==> P.SafeField(quirk, FieldList(r, fallback, t)[j])
  {
    hide P.SafeField, P.Safe, Decimal.Text, RandInt;
    Decimal.TextLength(r.aid);
    Decimal.TextLength(r.licenseId);
    SafeConstants(quirk);
    P.SafeBelow(quirk, 2);
    SafeNumber(quirk, 1, 2 * 0x20200929);
    SafeNumber(quirk, 2, 2);
    SafeText(quirk, 4, Decimal.Text(r.aid));
    SafeText(quirk, 6, Decimal.Text(r.licenseId));
    SafeText(quirk, 10, Zeros(8));
  }

  lemma FixedLast(quirk: bool, r: Request, fallback: nat, t: Texts)
    requires Lengths(r, t)
    ensures forall j :: 10 <= j < 20 && !Varies(j) ==> P.SafeField(quirk, FieldList(r, fallback, t)[j])
  {
    hide P.SafeField, P.Safe, Decimal.Text, RandInt;
    P.SafeBelow(quirk, 2);
    P.SafeBelow(quirk, 738);
    SafeText(quirk, 13, t.bodyHash);
    SafeText(quirk, 14, t.queryHash);
    SafeText(quirk, 15, t.inner15);
    SafeText(quirk, 20, NONE);
    SafeNumber(quirk, 21, 738);
    SafeText(quirk, 23, t.inner23);
    SafeNumber(quirk, 25, 2);
  }

  /** Eight fields depend on one input each: four numbers and four texts. */
  lemma VaryingNumbers(quirk: bool, r: Request, fallback: nat, t: Texts)
    ensures var fs := FieldList(r, fallback, t);
            && (P.SafeField(quirk, fs[2]) <==> P.Safe(quirk, RandInt(r, fallback) % 0x8000_0000))
            && (P.SafeField(quirk, fs[8]) <==> P.Safe(quirk, r.sdkVersionInt % P.TWO32))
            && (P.SafeField(quirk, fs[10]) <==> P.Safe(quirk, r.platform % P.TWO32))
            && (P.SafeField(quirk, fs[11]) <==> P.Safe(quirk, 2 * r.timestamp % P.TWO32))
  {
    hide P.SafeField, P.Safe, Decimal.Text, RandInt;
    LowBits(r.sdkVersionInt);
    LowBits(r.platform);
    ShiftedLowBits(r.timestamp);
    SafeNumber(quirk, 3, RandInt(r, fallback) % 0x8000_0000);
    SafeNumber(quirk, 9, r.sdkVersionInt % P.TWO64);
    SafeNumber(quirk, 11, r.platform % P.TWO64);
    SafeNumber(quirk, 12, 2 * (r.timestamp % P.TWO64) % P.TWO64);
  }

  lemma VaryingTexts(quirk: bool, r: Request, fallback: nat, t: Texts)
    requires Lengths(r, t)
    ensures var fs := FieldList(r, fallback, t);
            && (P.SafeField(quirk, fs[4]) <==> |t.deviceId| != 128)
            && (P.SafeField(quirk, fs[6]) <==> |t.versionName| != 128)
            && (P.SafeField(quirk, fs[7]) <==> |r.sdkVersion| != 128)
            && (P.SafeField(quirk, fs[15]) <==> |r.secDeviceId| != 128)
  {
    hide P.SafeField, Decimal.Text, RandInt;
    SafeText(quirk, 5, t.deviceId);
    SafeText(quirk, 7, t.versionName);
    SafeText(quirk, 8, r.sdkVersion);
    SafeText(quirk, 16, r.secDeviceId);
  }

  /** The message is safe exactly when its inputs are. */
  lemma SafeExactly(quirk: bool, r: Request, fallback: nat, t: Texts)
    requires Lengths(r, t)
    ensures (forall f :: f in FieldList(r, fallback, t) ==> P.SafeField(quirk, f))
            <==> SafeInputs(quirk, r, fallback, t.deviceId, t.versionName)
  {
    hide FieldList, P.SafeField, P.Safe, Lengths;
    var fs := FieldList(r, fallback, t);
    FixedFirst(quirk, r, fallback, t);
    FixedLast(quirk, r, fallback, t);
    VaryingNumbers(quirk, r, fallback, t);
    VaryingTexts(quirk, r, fallback, t);
    assert fs[2] in fs && fs[4] in fs && fs[6] in fs && fs[7] in fs && fs[8] in fs;
    assert fs[10] in fs && fs[11] in fs && fs[15] in fs;
  }

  // ---------------------------------------------------------------- the request, read back from its fields

  /** The fields tell every input of the request but the query string: numbers modulo 2^32, the time doubled. */
  predicate TellsInputs(fs: seq<P.Field>, r: Request, fallback: nat) {
    && |fs| == 20
    && fs[2] == P.Number(3, (if r.rand >= 0 then r.rand else fallback) % 0x8000_0000)
    && fs[3].idx == 4 && Decimal.Read(fs[3].data) == Some((r.aid, []))
    && fs[5].idx == 6 && Decimal.Read(fs[5].data) == Some((r.licenseId, []))
    && fs[7] == P.Text(8, r.sdkVersion)
    && fs[8] == P.Number(9, r.sdkVersionInt % 0x1_0000_0000)
    && fs[10] == P.Number(11, r.platform % 0x1_0000_0000)
    && fs[11] == P.Number(12, 2 * r.timestamp % 0x1_0000_0000)
    && fs[15] == P.Text(16, r.secDeviceId)
  }

  /** The fields that are the same in every message; the two nested messages can be read in their turn. */
  predicate TellsConstants(quirk: bool, fs: seq<P.Field>) {
    && |fs| == 20
    && fs[0] == P.Number(1, 1077940818) && fs[1] == P.Number(2, 2)
    && fs[9] == P.Text(10, [0, 0, 0, 0, 0, 0, 0, 0])
    && fs[14].idx == 15 && P.Parse(quirk, fs[14].data)
                           == Some([P.Number(1, 1), P.Number(2, 1), P.Number(3, 1), P.Number(7, 3348294860)])
    && fs[16] == P.Text(20, [0x6E, 0x6F, 0x6E, 0x65])  // "none"
    && fs[17] == P.Number(21, 738)
    && fs[18].idx == 23 && P.Parse(quirk, fs[18].data)  // "NX551J"
                           == Some([P.Text(1, [0x4E, 0x58, 0x35, 0x35, 0x31, 0x4A]), P.Number(2, 8196),
                                    P.Number(4, 2162219008)])
    && fs[19] == P.Number(25, 2)
  }

  lemma ArrivedAlike(fs: seq<P.Field>)
    ensures forall i :: 0 <= i < |fs| ==> P.ArrivedAll(fs)[i] == P.Arrived(fs[i])
  {
    forall i | 0 <= i < |fs|
      ensures P.ArrivedAll(fs)[i] == P.Arrived(fs[i])
    {
      ArrivedAt(fs, i);
    }
  }

  lemma TextReads(n: int)
    ensures Decimal.Read(Decimal.Text(n)) == Some((n, []))
  {
    Decimal.ReadText(n, []);
    assert Decimal.Text(n) + [] == Decimal.Text(n);
  }

  lemma InputsTold(r: Request, fallback: nat, t: Texts)
    ensures TellsInputs(P.ArrivedAll(FieldList(r, fallback, t)), r, fallback)
  {
    hide Decimal.Text, Decimal.Read, P.ArrivedAll;
    var fs := FieldList(r, fallback, t);
    ArrivedAlike(fs);
    TextReads(r.aid);
    TextReads(r.licenseId);
    LowBits(r.sdkVersionInt);
    LowBits(r.platform);
    ShiftedLowBits(r.timestamp);
  }

  /** A field that arrives as it was written. */
  predicate Plain(quirk: bool, f: P.Field) {
    P.Carried(f) && P.SafeField(quirk, f) && P.Arrived(f) == f
  }

  lemma PlainNumber(quirk: bool, i: nat, v: nat)
    requires i <= 25 && i != 16 && v < P.TWO32 && P.Safe(quirk, v)
    ensures Plain(quirk, P.Number(i, v))
  {
    SafeNumber(quirk, i, v);
    hide P.SafeField;
  }

  lemma PlainText(quirk: bool, i: nat, d: seq<byte>)
    requires i <= 25 && |d| < 128
    ensures Plain(quirk, P.Text(i, d))
  {
    SafeText(quirk, i, d);
    hide P.SafeField;
  }

  lemma PlainFieldsRead(quirk: bool, fs: seq<P.Field>)
    requires forall i :: 0 <= i < |fs| ==> Plain(quirk, fs[i])
    ensures P.Parse(quirk, P.Serialize(fs)) == Some(fs)
  {
    P.ParseSerialized(quirk, fs);
    ArrivedAlike(fs);
    hide P.Parse, P.Serialize, P.ArrivedAll, P.Arrived, P.Carried, P.SafeField;
    assert P.ArrivedAll(fs) == fs;
  }

  lemma Inner15Reads(quirk: bool)
    ensures P.Parse(quirk, P.Serialize(Inner15())) == Some(Inner15())
  {
    hide P.Safe;
    SafeConstants(quirk);
    P.SafeBelow(quirk, 1);
    PlainNumber(quirk, 1, 1);
    PlainNumber(quirk, 2, 1);
    PlainNumber(quirk, 3, 1);
    PlainNumber(quirk, 7, 3348294860);
    hide Plain, P.Parse, P.Serialize;
    PlainFieldsRead(quirk, Inner15());
  }

  lemma Inner23Reads(quirk: bool)
    ensures P.Parse(quirk, P.Serialize(Inner23())) == Some(Inner23())
  {
    hide P.Safe;
    SafeConstants(quirk);
    P.SafeBelow(quirk, 8196);
    PlainText(quirk, 1, MODEL);
    PlainNumber(quirk, 2, 8196);
    PlainNumber(quirk, 4, 2162219008);
    hide Plain, P.Parse, P.Serialize;
    PlainFieldsRead(quirk, Inner23());
  }

  lemma ConstantsArrive(r: Request, fallback: nat, t: Texts)
    ensures var fs := P.ArrivedAll(FieldList(r, fallback, t));
            && fs[0] == P.Number(1, 1077940818) && fs[1] == P.Number(2, 2) && fs[9] == P.Text(10, Zeros(8))
            && fs[14] == P.Text(15, t.inner15) && fs[16] == P.Text(20, NONE) && fs[17] == P.Number(21, 738)
            && fs[18] == P.Text(23, t.inner23) && fs[19] == P.Number(25, 2)
  {
    hide Decimal.Text, P.ArrivedAll, RandInt, NONE;
    ArrivedAlike(FieldList(r, fallback, t));
  }

  lemma ConstantsTold(quirk: bool, r: Request, fallback: nat, t: Texts)
    requires t.inner15 == P.Serialize(Inner15()) && t.inner23 == P.Serialize(Inner23())
    ensures TellsConstants(quirk, P.ArrivedAll(FieldList(r, fallback, t)))
  {
    hide FieldList, P.Parse, P.Serialize, P.ArrivedAll;
    assert Zeros(8) == [0, 0, 0, 0, 0, 0, 0, 0];
    ConstantsArrive(r, fallback, t);
    Inner15Reads(quirk);
    Inner23Reads(quirk);
  }

  /** Two parameters and two hashes have their places. */
  predicate TellsTexts(fs: seq<P.Field>, t: Texts) {
    && |fs| == 20
    && fs[4] == P.Text(5, t.deviceId) && fs[6] == P.Text(7, t.versionName)
    && fs[12] == P.Text(13, t.bodyHash) && fs[13] == P.Text(14, t.queryHash)
  }

  lemma TextsTold(r: Request, fallback: nat, t: Texts)
    ensures TellsTexts(P.ArrivedAll(FieldList(r, fallback, t)), t)
  {
    hide Decimal.Text, P.ArrivedAll, RandInt;
    ArrivedAlike(FieldList(r, fallback, t));
  }

  lemma FieldsTell(quirk: bool, r: Request, fallback: nat)
    requires |r.stub| % 2 == 0
    ensures TellsInputs(P.ArrivedAll(Fields(r, fallback)), r, fallback)
    ensures TellsTexts(P.ArrivedAll(Fields(r, fallback)), TextsOf(r))
    ensures TellsConstants(quirk, P.ArrivedAll(Fields(r, fallback)))
  {
    hide FieldList, Lookup, ParseQuery, Sm3.Digest, HashedBody, HashedQuery, TellsInputs, TellsTexts, TellsConstants,
         P.Serialize, P.ArrivedAll;
    InputsTold(r, fallback, TextsOf(r));
    TextsTold(r, fallback, TextsOf(r));
    ConstantsTold(quirk, r, fallback, TextsOf(r));
  }

  /** What is told fixes every field that depends on the caller. */
  lemma ToldAsArrived(fs: seq<P.Field>, r: Request, fallback: nat, t: Texts)
    requires TellsInputs(fs, r, fallback) && TellsTexts(fs, t)
    ensures forall j :: 0 <= j < 20 && Varies(j) ==> fs[j] == P.Arrived(FieldList(r, fallback, t)[j])
  {
    hide Decimal.Text, Decimal.Read;
    LowBits(r.sdkVersionInt);
    LowBits(r.platform);
    ShiftedLowBits(r.timestamp);
  }

  // ---------------------------------------------------------------- reading the header

  /** The same for a whole request: its parameters are the ones the query string gives. */
  ghost predicate SafeRequest(quirk: bool, r: Request, fallback: nat) {
    SafeInputs(quirk, r, fallback, Lookup(ParseQuery(r.query), DEVICE_ID), Lookup(ParseQuery(r.query), VERSION_NAME))
  }

  lemma ListLengths(r: Request, fallback: nat, t: Texts)
    requires |P.Serialize(FieldList(r, fallback, t))| <= BEAN_CAPACITY
    ensures |t.deviceId| <= BEAN_CAPACITY && |t.versionName| <= BEAN_CAPACITY
    ensures |r.sdkVersion| <= BEAN_CAPACITY && |r.secDeviceId| <= BEAN_CAPACITY
  {
    hide P.Serialize, Decimal.Text, RandInt;
    var fs := FieldList(r, fallback, t);
    DataFits(fs, 4);
    DataFits(fs, 6);
    DataFits(fs, 7);
    DataFits(fs, 15);
  }

  lemma FieldLengths(r: Request, fallback: nat)
    requires Legal(r, fallback)
    ensures Lengths(r, TextsOf(r))
  {
    hide FieldList, P.Serialize, ParseQuery, Sm3.Digest, Lookup, HashedBody, HashedQuery, Inner15, Inner23;
    InnerLengths();
    ListLengths(r, fallback, TextsOf(r));
  }

  lemma LegalStub(r: Request, fallback: nat)
    requires Legal(r, fallback)
    ensures |r.stub| % 2 == 0
  {
    hide Message;
  }

  lemma FieldsSafe(quirk: bool, r: Request, fallback: nat)
    requires Legal(r, fallback)
    ensures (forall f :: f in Fields(r, fallback) ==> P.SafeField(quirk, f)) <==> SafeRequest(quirk, r, fallback)
  {
    hide FieldList, Lookup, ParseQuery, Sm3.Digest, SafeInputs, Lengths, HashedBody, HashedQuery, P.SafeField,
         P.Serialize, Inner15, Inner23, Legal;
    LegalStub(r, fallback);
    FieldLengths(r, fallback);
    SafeExactly(quirk, r, fallback, TextsOf(r));
  }

  /** Either reader gets all twenty fields back exactly when the inputs keep what it cannot read out of the message:
      128, or numbers with leading base-128 digits 1, 0. */
  lemma HeaderRead(quirk: bool, md5: Md5, aes: Argus.Aes, aesBack: Argus.Aes, r: Request, fallback: nat)
    requires Argus.AesUndoes(aesBack, aes) && Legal(r, fallback)
    ensures ReadHeader(quirk, md5, aesBack, Sign(md5, aes, r, fallback)) == Some(P.ArrivedAll(Fields(r, fallback)))
            <==> SafeRequest(quirk, r, fallback)
  {
    FieldsSafe(quirk, r, fallback);
    FieldsCarried(r, fallback);
    Argus.ArgusRoundTrip(md5, aes, aesBack, Message(r, fallback));
    P.ParseSerialized(quirk, Fields(r, fallback));
    hide Fields, Argus.ArgusDecrypt, Argus.ArgusEncrypt, P.Parse, P.Serialize, P.SafeField, P.Carried, SafeRequest;
  }

  /** What a reader who opens the header must find: the two parameters, the two hashes and every other input. */
  predicate Opens(read: Option<seq<P.Field>>, r: Request, fallback: nat, t: Texts) {
    read.Some? && TellsTexts(read.value, t) && TellsInputs(read.value, r, fallback)
  }

  /** A message whose varying fields are read as themselves holds nothing that the reader loses. */
  lemma OpenedIsSafe(quirk: bool, r: Request, fallback: nat, t: Texts)
    requires Lengths(r, t) && forall f :: f in FieldList(r, fallback, t) ==> P.Carried(f)
    requires Opens(P.Parse(quirk, P.Serialize(FieldList(r, fallback, t))), r, fallback, t)
    ensures SafeInputs(quirk, r, fallback, t.deviceId, t.versionName)
  {
    hide FieldList, P.SafeField, P.Carried, P.Parse, P.Serialize, Lengths, TellsInputs, SafeInputs, Varies;
    var fs := FieldList(r, fallback, t);
    ToldAsArrived(P.Parse(quirk, P.Serialize(fs)).value, r, fallback, t);
    FixedFirst(quirk, r, fallback, t);
    FixedLast(quirk, r, fallback, t);
    P.ReadIsSafe(quirk, fs);
    SafeExactly(quirk, r, fallback, t);
  }

  /** A request can be read back from its header exactly when it is safe, whatever else a reader might make of an
      unsafe one. */
  lemma RequestOpens(quirk: bool, md5: Md5, aes: Argus.Aes, aesBack: Argus.Aes, r: Request, fallback: nat)
    requires Argus.AesUndoes(aesBack, aes) && Legal(r, fallback)
    ensures var read := ReadHeader(quirk, md5, aesBack, Sign(md5, aes, r, fallback));
            && (Opens(read, r, fallback, TextsOf(r)) <==> SafeRequest(quirk, r, fallback))
            && (SafeRequest(quirk, r, fallback) ==> TellsConstants(quirk, read.value))
  {
    hide FieldList, Legal, TextsOf, SafeInputs, TellsInputs, TellsTexts, TellsConstants, Lengths, P.Parse, P.Serialize,
         P.Carried, P.ArrivedAll, Argus.ArgusEncrypt, Argus.ArgusDecrypt, Argus.AesUndoes;
    LegalStub(r, fallback);
    TextsNamed(r);
    HeaderRead(quirk, md5, aes, aesBack, r, fallback);
    FieldsTell(quirk, r, fallback);
    FieldsCarried(r, fallback);
    FieldLengths(r, fallback);
    Argus.ArgusRoundTrip(md5, aes, aesBack, Message(r, fallback));
    if Opens(P.Parse(quirk, Message(r, fallback)), r, fallback, TextsOf(r)) {
      OpenedIsSafe(quirk, r, fallback, TextsOf(r));
    }
  }

  lemma TextsNamed(r: Request)
    requires |r.stub| % 2 == 0
    ensures TextsOf(r).deviceId == Lookup(ParseQuery(r.query), DEVICE_ID)
    ensures TextsOf(r).versionName == Lookup(ParseQuery(r.query), VERSION_NAME)
    ensures TextsOf(r).bodyHash == Sm3.Digest(HashedBody(r.stub))[..6]
    ensures TextsOf(r).queryHash == Sm3.Digest(HashedQuery(r.query))[..6]
  {
    hide Lookup, ParseQuery, Sm3.Digest, HashedBody, HashedQuery, P.Serialize;
  }

  /** From a list of parameters to the header and back: field 5 holds the first non-empty device_id of the list and
      field 7 the first non-empty version_name, or the empty string; fields 13 and 14 hold the two hashes, and the
      others tell the remaining inputs. All of it is so exactly when the reader loses none of the inputs. */
  lemma EndToEnd(quirk: bool, md5: Md5, aes: Argus.Aes, aesBack: Argus.Aes, r: Request, fallback: nat,
      params: seq<Pair>)
    requires Argus.AesUndoes(aesBack, aes) && Legal(r, fallback)
    requires forall i :: 0 <= i < |params| ==> Strings(params[i])
    requires r.query == EncodeParams(params)
    ensures var read := ReadHeader(quirk, md5, aesBack, Sign(md5, aes, r, fallback));
            && read.Some? && |read.value| == 20
            && read.value[4] == P.Text(5, FirstValue(params, DEVICE_ID))
            && read.value[6] == P.Text(7, FirstValue(params, VERSION_NAME))
            && read.value[12] == P.Text(13, Sm3.Digest(HashedBody(r.stub))[..6])
            && read.value[13] == P.Text(14, Sm3.Digest(HashedQuery(r.query))[..6])
            && TellsInputs(read.value, r, fallback)
            <==> SafeInputs(quirk, r, fallback, FirstValue(params, DEVICE_ID), FirstValue(params, VERSION_NAME))
    ensures SafeInputs(quirk, r, fallback, FirstValue(params, DEVICE_ID), FirstValue(params, VERSION_NAME))
            ==> TellsConstants(quirk, ReadHeader(quirk, md5, aesBack, Sign(md5, aes, r, fallback)).value)
  {
    hide ReadHeader, Sign, Legal, Fields, TextsOf, SafeInputs, FirstValue, EncodeParams, Strings, Argus.AesUndoes,
         TellsInputs, TellsConstants, Lookup, ParseQuery, Sm3.Digest, HashedBody, HashedQuery;
    LegalStub(r, fallback);
    NamesLookedUp(params, r);
    TextsNamed(r);
    RequestOpens(quirk, md5, aes, aesBack, r, fallback);
  }

  /** A reader does not get the fields of the request back. */
  ghost predicate Lost(quirk: bool, md5: Md5, aes: Argus.Aes, aesBack: Argus.Aes, r: Request, fallback: nat)
    requires |r.stub| % 2 == 0
  {
    ReadHeader(quirk, md5, aesBack, Sign(md5, aes, r, fallback)) != Some(P.ArrivedAll(Fields(r, fallback)))
  }

  /** A text of 128 bytes costs the message: for every parameter list whose device_id has that length, and texts short
      enough to fit, the request is legal and no reader gets the fields back. */
  lemma LongDeviceIsLost(quirk: bool, md5: Md5, aes: Argus.Aes, aesBack: Argus.Aes, r: Request, fallback: nat,
      params: seq<Pair>)
    requires Argus.AesUndoes(aesBack, aes) && |r.stub| % 2 == 0
    requires -0x8000_0000 <= r.aid < 0x8000_0000 && -0x8000_0000 <= r.licenseId < 0x8000_0000
    requires forall i :: 0 <= i < |params| ==> Strings(params[i])
    requires r.query == EncodeParams(params) && |FirstValue(params, DEVICE_ID)| == 128
    requires |FirstValue(params, VERSION_NAME)| + |r.sdkVersion| + |r.secDeviceId| <= 3700 - 128
    ensures Legal(r, fallback) && !SafeRequest(quirk, r, fallback)
    ensures Lost(quirk, md5, aes, aesBack, r, fallback)
  {
    hide FirstValue, EncodeParams, ParseQuery, Lookup, Legal, Fields, Sign, ReadHeader, P.Safe, P.ArrivedAll,
         Strings, RandInt;
    NamesLookedUp(params, r);
    ShortRequestFits(r, fallback);
    HeaderRead(quirk, md5, aes, aesBack, r, fallback);
  }

  /** There is a legal request that neither reader gets back. */
  lemma SomeRequestIsLost(md5: Md5, aes: Argus.Aes, aesBack: Argus.Aes)
    requires Argus.AesUndoes(aesBack, aes)
    ensures exists r: Request :: |r.stub| % 2 == 0 && Legal(r, 0)
                                 && Lost(true, md5, aes, aesBack, r, 0) && Lost(false, md5, aes, aesBack, r, 0)
  {
    hide EncodeParams, Legal, SafeRequest, Sign, ReadHeader, Fields, P.ArrivedAll, Argus.AesUndoes;
    var device := seq(128, _ => 0x41 as byte);
    var params := [Pair(DEVICE_ID, device)];
    var r := Request(EncodeParams(params), [], 0, 1, 1, 0, [], [], 0, 0);
    LongDeviceIsLost(true, md5, aes, aesBack, r, 0, params);
    LongDeviceIsLost(false, md5, aes, aesBack, r, 0, params);
  }

  // ---------------------------------------------------------------- the code

  /** The first six digest bytes, computed in a local buffer. */
  method SixDigestBytes(text: seq<byte>) returns (h6: seq<byte>)
    requires Sm3.Hashable(|text|)
    ensures h6 == Sm3.Digest(text)[..6]
  {
    hide *;
    var h := new byte[32];
    Sm3.Sm3Hash(text, h);
    h6 := h[..6];
  }

  method BodyHash(stub: seq<byte>) returns (h6: seq<byte>)
    requires |stub| % 2 == 0 && Sm3.Hashable(|stub| / 2)
    ensures h6 == Sm3.Digest(HashedBody(stub))[..6]
  {
    hide HexDecode, Sm3.Digest;
    if stub == [] {
      h6 := SixDigestBytes(Zeros(16));
    } else {
      var decoded := HexDecodeString(stub);
      h6 := SixDigestBytes(decoded[..]);
    }
  }

  method QueryHash(query: seq<byte>) returns (h6: seq<byte>)
    requires Sm3.Hashable(|query|)
    ensures h6 == Sm3.Digest(HashedQuery(query))[..6]
  {
    hide Sm3.Digest;
    if query == [] {
      h6 := SixDigestBytes(Zeros(16));
    } else {
      h6 := SixDigestBytes(query);
    }
  }

  method LookupBoth(qp: seq<Pair>) returns (deviceId: seq<byte>, versionName: seq<byte>)
    ensures deviceId == Lookup(qp, DEVICE_ID) && versionName == Lookup(qp, VERSION_NAME)
  {
    hide DEVICE_ID, VERSION_NAME;
    deviceId, versionName := [], [];
    for i := 0 to |qp|
      invariant deviceId == Lookup(qp[..i], DEVICE_ID) && versionName == Lookup(qp[..i], VERSION_NAME)
    {
      assert qp[..i + 1][..i] == qp[..i];
      if qp[i].key == DEVICE_ID {
        deviceId := qp[i].value;
      }
      if qp[i].key == VERSION_NAME {
        versionName := qp[i].value;
      }
    }
    assert qp[..|qp|] == qp;
  }

  method ParsedQuery(query: seq<byte>) returns (qp: seq<Pair>)
    ensures qp == ParseQuery(query)
  {
    hide ParseQuery;
    var params, count := ParseQueryParams(query);
    qp := if params == null then [] else params[..count];
  }

  /** A nested message, written to its 64-byte buffer. */
  method SerializeInner(fields: seq<P.Field>) returns (s: seq<byte>)
    requires |P.Serialize(fields)| <= 64
    ensures s == P.Serialize(fields)
  {
    P.InBoundsWhole(fields, 64);
    hide P.Serialize, P.InBounds;
    var buf := new byte[64];
    var n := P.PbSerialize(fields, buf);
    s := buf[..n];
  }

  method SerializeBean(fields: seq<P.Field>) returns (s: seq<byte>)
    requires |P.Serialize(fields)| <= BEAN_CAPACITY
    ensures s == P.Serialize(fields)
  {
    P.InBoundsWhole(fields, BEAN_CAPACITY);
    hide P.Serialize, P.InBounds;
    var beanBuf := new byte[BEAN_CAPACITY];
    var n := P.PbSerialize(fields, beanBuf);
    s := beanBuf[..n];
  }

  method BuildFields(r: Request, fallback: nat) returns (fs: seq<P.Field>)
    requires |r.stub| % 2 == 0 && Sm3.Hashable(|r.stub| / 2) && Sm3.Hashable(|r.query|)
    ensures fs == Fields(r, fallback)
  {
    hide Sm3.Digest, P.Serialize, ParseQuery, Lookup, FieldList, HashedBody, HashedQuery;
    var qp := ParsedQuery(r.query);
    var deviceId, versionName := LookupBoth(qp);
    var bh := BodyHash(r.stub);
    var qh := QueryHash(r.query);
    InnerLengths();
    var inner15 := SerializeInner(Inner15());
    var inner23 := SerializeInner(Inner23());
    fs := FieldList(r, fallback, Texts(deviceId, versionName, bh, qh, inner15, inner23));
  }

  /** X-Argus for a legal request; `fallback` is the random number drawn when the request brings none. */
  method ArgusGetSign(md5: Md5, aes: Argus.Aes, r: Request, fallback: nat) returns (b64: array<byte>)
    requires Legal(r, fallback)
    requires Sm3.Hashable(|r.stub| / 2) && Sm3.Hashable(|r.query|)
    ensures fresh(b64) && HoldsString(b64, Sign(md5, aes, r, fallback))
  {
    var fields := BuildFields(r, fallback);
    hide Fields, P.Serialize, Argus.ArgusEncrypt, HoldsString;
    var bean := SerializeBean(fields);
    b64 := Argus.ArgusEncryptBean(md5, aes, bean);
  }
}
