/** The entry point (src/signer.c): parameters from a URL, and the six header values of one request. */
module Signer {
  import opened Bytes
  import opened CryptoHelpers
  import opened UrlEncode
  import Argus
  import M = ArgusMessage
  import Decimal
  import Gorgon
  import Ladon
  import P = Protobuf
  import Sm3

  // ---------------------------------------------------------------- parameters from a URL

  const QMARK: byte := 0x3F

  /** The text behind the first '?', or nothing. */
  function QueryOf(url: seq<byte>): seq<byte> {
    var n := Find(QMARK, url);
    if n < |url| then url[n + 1..] else []
  }

  /** A token as it stands, without unquoting; a missing '=' leaves the value empty. */
  function RawPair(token: seq<byte>): Pair {
    var e := Find(EQUALS, token);
    if e < |token| then Pair(token[..e], token[e + 1..]) else Pair(token, [])
  }

  function RawPairs(tokens: seq<seq<byte>>): (r: seq<Pair>)
    ensures |r| == |tokens|
  {
    if tokens == [] then [] else RawPairs(tokens[..|tokens| - 1]) + [RawPair(tokens[|tokens| - 1])]
  }

  /** Where key `k` first stands; the length of the list if it does not occur. */
  function KeyIndex(ps: seq<Pair>, k: seq<byte>): (n: nat)
    ensures n <= |ps|
    ensures n < |ps| ==> ps[n].key == k
    ensures forall i :: 0 <= i < n ==> ps[i].key != k
  {
    if ps == [] || ps[0].key == k then 0
    else
      var n := KeyIndex(ps[1..], k);
      assert forall i :: 1 <= i <= n ==> ps[i] == ps[1..][i - 1];
      1 + n
  }

  /** Replaces the value of a known key in place and appends an unknown one. */
  function Upsert(ps: seq<Pair>, p: Pair): seq<Pair> {
    var n := KeyIndex(ps, p.key);
    if n < |ps| then ps[n := Pair(ps[n].key, p.value)] else ps + [p]
  }

  function Upserts(raw: seq<Pair>): seq<Pair> {
    if raw == [] then [] else Upsert(Upserts(raw[..|raw| - 1]), raw[|raw| - 1])
  }

  function FromUrl(url: seq<byte>): seq<Pair> {
    Upserts(RawPairs(Tokens(QueryOf(url))))
  }

  /** The keys of a list in the order of their first occurrences. */
  function FirstKeys(ps: seq<Pair>): seq<seq<byte>> {
    if ps == [] then []
    else
      var keys, k := FirstKeys(ps[..|ps| - 1]), ps[|ps| - 1].key;
      if k in keys then keys else keys + [k]
  }

  predicate DistinctKeys(ps: seq<Pair>) {
    forall i, j :: 0 <= i < j < |ps| ==> ps[i].key != ps[j].key
  }

  /** `ps` lists the keys of `raw` in first-occurrence order, each with the last value it is given. */
  ghost predicate KeepsLast(ps: seq<Pair>, raw: seq<Pair>) {
    && |ps| == |FirstKeys(raw)|
    && forall i :: 0 <= i < |ps| ==> ps[i] == Pair(FirstKeys(raw)[i], M.Lookup(raw, ps[i].key))
  }

  lemma {:induction false} FirstKeysDistinct(ps: seq<Pair>)
    ensures forall i, j :: 0 <= i < j < |FirstKeys(ps)| ==> FirstKeys(ps)[i] != FirstKeys(ps)[j]
  {
    if ps != [] {
      FirstKeysDistinct(ps[..|ps| - 1]);
    }
  }

  lemma {:induction false} UpsertsKeepLast(raw: seq<Pair>)
    ensures KeepsLast(Upserts(raw), raw)
  {
    if raw != [] {
      var front, last := raw[..|raw| - 1], raw[|raw| - 1];
      UpsertsKeepLast(front);
      FirstKeysDistinct(front);
      KeepsLastStep(Upserts(front), front, last);
      assert front + [last] == raw;
    }
  }

  /** Adding one pair: its key keeps or takes its place, and its value is the last one now. */
  lemma KeepsLastStep(ps: seq<Pair>, front: seq<Pair>, last: Pair)
    requires KeepsLast(ps, front)
    requires forall i, j :: 0 <= i < j < |FirstKeys(front)| ==> FirstKeys(front)[i] != FirstKeys(front)[j]
    ensures KeepsLast(Upsert(ps, last), front + [last])
  {
    var raw := front + [last];
    assert raw[..|raw| - 1] == front && raw[|raw| - 1] == last;
    var keys := FirstKeys(front);
    var n := KeyIndex(ps, last.key);
    assert forall i :: 0 <= i < |ps| ==> ps[i].key == keys[i];
    hide KeyIndex;
    if n < |ps| {
      assert keys[n] == last.key;
    }
    forall i | 0 <= i < |Upsert(ps, last)|
      ensures Upsert(ps, last)[i] == Pair(FirstKeys(raw)[i], M.Lookup(raw, Upsert(ps, last)[i].key))
    {
      if i < |ps| && i != n {
        assert ps[i].key != last.key;
      }
    }
  }

  /** Every list taken from a URL has distinct keys, in first-occurrence order, each with its last value. */
  lemma FromUrlKeepsLast(url: seq<byte>)
    ensures KeepsLast(FromUrl(url), RawPairs(Tokens(QueryOf(url))))
    ensures DistinctKeys(FromUrl(url))
  {
    UpsertsKeepLast(RawPairs(Tokens(QueryOf(url))));
    FirstKeysDistinct(RawPairs(Tokens(QueryOf(url))));
    hide FirstKeys, M.Lookup, Upserts, RawPairs, Tokens, QueryOf;
  }

  /** key=value&key=value, with nothing quoted. */
  function Joined(ps: seq<Pair>): seq<byte> {
    if ps == [] then []
    else (if |ps| == 1 then [] else Joined(ps[..|ps| - 1]) + [0x26]) + RawToken(ps[|ps| - 1])
  }

  function RawToken(p: Pair): seq<byte> {
    p.key + [0x3D] + p.value
  }

  /** The separators cannot be mistaken: no '&' in the pair, and no '=' in its key. */
  predicate Separable(p: Pair) {
    0x26 !in p.key && 0x3D !in p.key && 0x26 !in p.value
  }

  lemma RawPairOfToken(p: Pair)
    requires 0x3D !in p.key
    ensures RawPair(RawToken(p)) == p
  {
    var t := RawToken(p);
    assert t[..|p.key|] == p.key && t[|p.key| + 1..] == p.value;
    FindIs(0x3D, t, |p.key|);
  }

  lemma {:induction false} PairsOfJoined(ps: seq<Pair>)
    requires forall i :: 0 <= i < |ps| ==> Separable(ps[i])
    ensures RawPairs(Tokens(Joined(ps))) == ps
  {
    hide RawPair;
    if ps != [] {
      var front, last := ps[..|ps| - 1], ps[|ps| - 1];
      PairsOfJoined(front);
      TokenAlone(RawToken(last));
      RawPairOfToken(last);
      TokensJoined(Joined(front), RawToken(last));
      hide Tokens, Separable, RawToken;
      if |ps| == 1 {
        assert [] + RawToken(last) == RawToken(last);
      } else {
        assert (Tokens(Joined(front)) + [RawToken(last)])[..|Tokens(Joined(front))|] == Tokens(Joined(front));
      }
    }
  }

  lemma QueryBehind(base: seq<byte>, query: seq<byte>)
    requires 0x3F !in base
    ensures QueryOf(base + [0x3F] + query) == query
    ensures QueryOf(base) == []
  {
    var url := base + [0x3F] + query;
    assert url[..|base|] == base && url[|base| + 1..] == query && base[..|base|] == base;
    FindIs(0x3F, url, |base|);
    FindIs(0x3F, base, |base|);
  }

  /** Behind the first '?' stand the pairs, as they are: a list of them gives each of its keys with the last value, a
      lone word is a key without a value, and a URL without '?' has no parameters. */
  lemma FromUrlOfPairs(base: seq<byte>, ps: seq<Pair>, word: seq<byte>)
    requires 0x3F !in base && forall i :: 0 <= i < |ps| ==> Separable(ps[i])
    requires word != [] && 0x26 !in word && 0x3D !in word
    ensures KeepsLast(FromUrl(base + [0x3F] + Joined(ps)), ps)
    ensures FromUrl(base + [0x3F] + word) == [Pair(word, [])]
    ensures FromUrl(base) == []
  {
    QueryBehind(base, Joined(ps));
    PairsOfJoined(ps);
    UpsertsKeepLast(ps);
    QueryBehind(base, word);
    TokenAlone(word);
    LoneWord(word);
    hide QueryOf, KeepsLast, Joined;
  }

  lemma LoneWord(word: seq<byte>)
    requires 0x3D !in word
    ensures Upserts(RawPairs([word])) == [Pair(word, [])]
  {
    assert word[..|word|] == word;
    FindIs(0x3D, word, |word|);
    assert RawPair(word) == Pair(word, []);
    hide RawPair;
    RawPairsAt([word], 0);
    assert RawPairs([word]) == [Pair(word, [])];
    OnePair(Pair(word, []));
  }

  lemma OnePair(p: Pair)
    ensures Upserts([p]) == [p]
  {
    assert [p][..0] == [];
    assert Upserts([]) == [];
  }

  function QuotedPairs(ps: seq<Pair>): (r: seq<Pair>)
    ensures |r| == |ps|
  {
    seq(|ps|, i requires 0 <= i < |ps| => Pair(QuotePlus(ps[i].key), QuotePlus(ps[i].value)))
  }

  lemma {:induction false} EncodedIsJoined(ps: seq<Pair>)
    ensures EncodeParams(ps) == Joined(QuotedPairs(ps))
  {
    hide QuotePlus;
    if ps != [] {
      EncodedIsJoined(ps[..|ps| - 1]);
      assert QuotedPairs(ps)[..|ps| - 1] == QuotedPairs(ps[..|ps| - 1]);
    }
  }

  /** A query string made by the encoder and read from a URL gives the quoted keys, each with its last quoted value:
      nothing is unquoted on this way. */
  lemma FromUrlOfEncoded(base: seq<byte>, ps: seq<Pair>)
    requires 0x3F !in base
    ensures KeepsLast(FromUrl(base + [0x3F] + EncodeParams(ps)), QuotedPairs(ps))
  {
    EncodedIsJoined(ps);
    forall i | 0 <= i < |ps|
      ensures Separable(QuotedPairs(ps)[i])
    {
      QuotePlain(ps[i].key);
      QuotePlain(ps[i].value);
    }
    hide QuotedPairs, QuotePlus, Separable, KeepsLast, FromUrl, Joined, EncodeParams;
    FromUrlOfPairs(base, QuotedPairs(ps), [0x61]);
  }

  function NonEmptyOnly(ps: seq<Pair>): seq<Pair> {
    if ps == [] then []
    else NonEmptyOnly(ps[..|ps| - 1]) + (if ps[|ps| - 1].value == [] then [] else [ps[|ps| - 1]])
  }

  lemma {:induction false} DistinctFirst(ps: seq<Pair>)
    requires DistinctKeys(ps)
    ensures FirstNonEmpty(ps) == NonEmptyOnly(ps)
  {
    if ps != [] {
      var front, last := ps[..|ps| - 1], ps[|ps| - 1];
      DistinctFirst(front);
      assert !Given(front, last.key) by {
        assert forall i :: 0 <= i < |front| ==> front[i].key != last.key;
      }
    }
  }

  lemma {:induction false} TokensZeroFree(s: seq<byte>, i: nat)
    requires ZeroFree(s) && i < |Tokens(s)|
    ensures ZeroFree(Tokens(s)[i])
    decreases |s|
  {
    if s[0] == AMP {
      TokensZeroFree(s[1..], i);
    } else if i > 0 {
      TokensZeroFree(s[Find(AMP, s)..], i - 1);
    }
  }

  lemma {:induction false} RawPairsAt(tokens: seq<seq<byte>>, i: nat)
    requires i < |tokens|
    ensures RawPairs(tokens)[i] == RawPair(tokens[i])
  {
    hide RawPair;
    if i < |tokens| - 1 {
      RawPairsAt(tokens[..|tokens| - 1], i);
    }
  }

  lemma {:induction false} UpsertsStrings(raw: seq<Pair>, i: nat)
    requires forall j :: 0 <= j < |raw| ==> Strings(raw[j])
    requires i < |Upserts(raw)|
    ensures Strings(Upserts(raw)[i])
  {
    var front := raw[..|raw| - 1];
    if i < |Upserts(front)| {
      UpsertsStrings(front, i);
    }
  }

  lemma FromUrlStrings(url: seq<byte>)
    requires ZeroFree(url)
    ensures forall i :: 0 <= i < |FromUrl(url)| ==> Strings(FromUrl(url)[i])
  {
    var tokens := Tokens(QueryOf(url));
    var raw := RawPairs(tokens);
    forall j | 0 <= j < |raw|
      ensures Strings(raw[j])
    {
      TokensZeroFree(QueryOf(url), j);
      RawPairsAt(tokens, j);
      hide Tokens, RawPairs;
    }
    forall i | 0 <= i < |FromUrl(url)|
      ensures Strings(FromUrl(url)[i])
    {
      UpsertsStrings(raw, i);
    }
  }

  /** Re-encoding the list taken from a URL and parsing the text gives the same pairs, less those whose last value
      is empty. */
  lemma UrlRoundTrip(url: seq<byte>)
    requires ZeroFree(url)
    ensures ParseQuery(EncodeParams(FromUrl(url))) == NonEmptyOnly(FromUrl(url))
  {
    FromUrlStrings(url);
    FromUrlKeepsLast(url);
    hide FromUrl, Strings, DistinctKeys, KeepsLast;
    ParseEncoded(FromUrl(url));
    DistinctFirst(FromUrl(url));
  }

  /** Looks the key up, then replaces the value in place or appends, growing the array from nothing to 16 and then
      by doubling. */
  method UpsertInto(params: array<Pair>, count: nat, p: Pair) returns (out: array<Pair>, n: nat)
    requires count <= params.Length
    modifies params
    ensures out == params || fresh(out)
    ensures n <= out.Length && out[..n] == Upsert(old(params[..count]), p)
  {
    ghost var before := params[..count];
    out, n := params, count;
    for i := 0 to count
      invariant out == params && n == count && params[..count] == before
      invariant forall j :: 0 <= j < i ==> params[j].key != p.key
    {
      if params[i].key == p.key {
        assert KeyIndex(before, p.key) == i by {
          assert before[i].key == p.key && forall j :: 0 <= j < i ==> before[j].key != p.key;
        }
        params[i] := Pair(params[i].key, p.value);
        return;
      }
    }
    assert KeyIndex(before, p.key) == |before|;
    hide KeyIndex;
    out := Enlarge(params, count);
    out[count] := p;
    n := count + 1;
  }

  method Enlarge(params: array<Pair>, count: nat) returns (out: array<Pair>)
    requires count <= params.Length
    ensures out == params || fresh(out)
    ensures count < out.Length && out[..count] == params[..count]
  {
    out := params;
    if count >= params.Length > 0 {
      out := Double(params, count);
    } else if count >= params.Length {
      out := new Pair[16];
    }
  }

  lemma UpsertsStep(tokens: seq<seq<byte>>, i: nat)
    requires i < |tokens|
    ensures Upserts(RawPairs(tokens[..i + 1])) == Upsert(Upserts(RawPairs(tokens[..i])), RawPair(tokens[i]))
  {
    hide Upsert, RawPair;
    assert tokens[..i + 1][..i] == tokens[..i];
    var raw := RawPairs(tokens[..i + 1]);
    assert raw[..i] == RawPairs(tokens[..i]) && raw[i] == RawPair(tokens[i]);
  }

  method ParamsFromUrl(url: seq<byte>) returns (params: array<Pair>, count: nat)
    ensures fresh(params) && count <= params.Length && params[..count] == FromUrl(url)
  {
    params, count := new Pair[0], 0;
    var work := QueryOf(url);
    ghost var tokens, i: nat := Tokens(work), 0;
    NextTokenFirst(work);
    var token := NextToken(work);
    hide Tokens, NextToken;
    assert tokens[..0] == [];
    while token.Some?
      invariant fresh(params) && count <= params.Length
      invariant i <= |tokens| && params[..count] == Upserts(RawPairs(tokens[..i]))
      invariant tokens[i..] == Ahead(token)
      decreases if token.Some? then 1 + |token.value.1| else 0
    {
      TokenAhead(tokens, i, token.value.0, token.value.1);
      UpsertsStep(tokens, i);
      hide *;
      params, count := UpsertInto(params, count, RawPair(token.value.0));
      i := i + 1;
      token := NextToken(token.value.1);
    }
    assert tokens[..i] == tokens;
  }

  // ---------------------------------------------------------------- one request, six headers

  /** A missing list of parameters is not the same as an empty one: only then is the URL looked at. */
  datatype SignRequest = SignRequest(url: seq<byte>, params: Option<seq<Pair>>, data: seq<Pair>, payload: seq<Pair>,
                                     cookie: seq<Pair>, rawBody: seq<byte>)

  /** The options, defaults already filled in; the random values are the ones given or drawn. */
  datatype SignOptions = SignOptions(timestamp: int, aid: int, licenseId: int, platform: int, sdkVersion: seq<byte>,
                                     sdkVersionInt: int, version: int, secDeviceId: seq<byte>, gorgonByte3: byte,
                                     gorgonByte7: byte, argusRand: int, argusFallback: nat, ladonRandom: seq<byte>)

  datatype Signatures = BadVersion
    | Signatures(argus: seq<byte>, ladon: seq<byte>, gorgon: seq<byte>, khronos: seq<byte>, ticket: seq<byte>,
                 stub: seq<byte>)

  function ParamsOf(req: SignRequest): seq<Pair> {
    match req.params
    case Some(ps) => ps
    case None => FromUrl(req.url)
  }

  /** Data and payload stand in for each other when one of them is empty. */
  function DataOf(req: SignRequest): seq<Pair> {
    if req.data == [] then req.payload else req.data
  }

  function PayloadOf(req: SignRequest): seq<Pair> {
    if req.payload == [] then req.data else req.payload
  }

  function QueryString(req: SignRequest): seq<byte> {
    EncodeParams(ParamsOf(req))
  }

  function BodyString(req: SignRequest): seq<byte> {
    if req.rawBody != [] then req.rawBody else EncodeParams(DataOf(req))
  }

  function Stub(md5: Md5, req: SignRequest): (r: seq<byte>)
    ensures |r| == 32
  {
    HexText(md5(BodyString(req)))
  }

  function ArgusRequest(md5: Md5, req: SignRequest, o: SignOptions): (r: M.Request)
    ensures |r.stub| % 2 == 0
  {
    M.Request(QueryString(req), Stub(md5, req), o.timestamp, o.aid, o.licenseId, o.platform, o.secDeviceId,
              o.sdkVersion, o.sdkVersionInt, o.argusRand)
  }

  /** The versions tt_sign has a case for. */
  predicate KnownVersion(version: int) {
    version == 8404 || version == 8402 || version == 4404 || version == 0
  }

  function GorgonOf(md5: Md5, req: SignRequest, o: SignOptions): Option<Gorgon.Result> {
    var q, p, c := QueryString(req), EncodeParams(PayloadOf(req)), EncodeParams(req.cookie);
    if o.version == 8404 then Some(Gorgon.V1(md5, q, p, c, o.timestamp, o.gorgonByte3, o.gorgonByte7))
    else if o.version == 8402 then Some(Gorgon.V2(md5, q, p, c, o.timestamp))
    else if o.version == 4404 || o.version == 0 then Some(Gorgon.V3(md5, q, p, c, o.timestamp))
    else None
  }

  ghost function TtSign(md5: Md5, aes: Argus.Aes, req: SignRequest, o: SignOptions): Signatures {
    match GorgonOf(md5, req, o)
    case None => BadVersion
    case Some(g) =>
      Signatures(M.Sign(md5, aes, ArgusRequest(md5, req, o), o.argusFallback),
                 Ladon.LadonEncrypt(md5, o.timestamp, o.licenseId, o.aid, o.ladonRandom),
                 g.gorgonVal, g.khronos, g.reqTicket, UpperHex(Stub(md5, req)))
  }

  ghost predicate CStrings(req: SignRequest) {
    && ZeroFree(req.url) && ZeroFree(req.rawBody)
    && (req.params.Some? ==> forall i :: 0 <= i < |req.params.value| ==> Strings(req.params.value[i]))
  }

  lemma Spoken(req: SignRequest, ps: seq<Pair>)
    requires SpeaksOf(req, ps)
    ensures ps == ParamsOf(req)
    ensures DeviceId(ps) == M.FirstValue(ps, M.DEVICE_ID) && VersionName(ps) == M.FirstValue(ps, M.VERSION_NAME)
  {
    hide FromUrl, M.FirstValue;
  }

  lemma ParamsAreStrings(req: SignRequest)
    requires CStrings(req)
    ensures forall i :: 0 <= i < |ParamsOf(req)| ==> Strings(ParamsOf(req)[i])
  {
    FromUrlStrings(req.url);
    hide Strings, FromUrl;
  }

  /** What the caller owes: C strings and C ints, and for a version that is known a timestamp that survives the
      conversion to milliseconds and a message that fits. */
  ghost predicate LegalCall(md5: Md5, req: SignRequest, o: SignOptions) {
    && CStrings(req)
    && |o.ladonRandom| == 4
    && -0x8000_0000 <= o.aid < 0x8000_0000 && -0x8000_0000 <= o.licenseId < 0x8000_0000
    && (KnownVersion(o.version) ==>
          Gorgon.IsTimestamp(o.timestamp) && M.Legal(ArgusRequest(md5, req, o), o.argusFallback))
  }

  /** The parameters a request speaks of: its own list, or what its URL gives when it brings none. */
  ghost predicate SpeaksOf(req: SignRequest, ps: seq<Pair>) {
    match req.params
    case Some(given) => ps == given
    case None => ps == FromUrl(req.url)
  }

  function DeviceId(ps: seq<Pair>): seq<byte> {
    M.FirstValue(ps, [0x64, 0x65, 0x76, 0x69, 0x63, 0x65, 0x5F, 0x69, 0x64])  // "device_id"
  }

  function VersionName(ps: seq<Pair>): seq<byte> {
    M.FirstValue(ps, [0x76, 0x65, 0x72, 0x73, 0x69, 0x6F, 0x6E, 0x5F, 0x6E, 0x61, 0x6D, 0x65])  // "version_name"
  }

  /** A reader of X-Argus gets every integer of the message back: four numbers and the lengths of four texts. */
  ghost predicate SafeCall(quirk: bool, o: SignOptions, ps: seq<Pair>) {
    && P.Safe(quirk, (if o.argusRand >= 0 then o.argusRand else o.argusFallback) % 0x8000_0000)
    && P.Safe(quirk, o.sdkVersionInt % 0x1_0000_0000)
    && P.Safe(quirk, o.platform % 0x1_0000_0000)
    && P.Safe(quirk, 2 * o.timestamp % 0x1_0000_0000)
    && |DeviceId(ps)| != 128 && |VersionName(ps)| != 128 && |o.sdkVersion| != 128 && |o.secDeviceId| != 128
  }

  /** Every call with C values whose four texts have at most 3700 bytes together is legal. */
  lemma ShortCallLegal(md5: Md5, req: SignRequest, o: SignOptions, ps: seq<Pair>)
    requires CStrings(req) && |o.ladonRandom| == 4 && Gorgon.IsTimestamp(o.timestamp)
    requires -0x8000_0000 <= o.aid < 0x8000_0000 && -0x8000_0000 <= o.licenseId < 0x8000_0000
    requires SpeaksOf(req, ps)
    requires |DeviceId(ps)| + |VersionName(ps)| + |o.sdkVersion| + |o.secDeviceId| <= 3700
    ensures LegalCall(md5, req, o)
  {
    Spoken(req, ps);
    hide ParamsOf, CStrings, Stub, M.FirstValue, M.Legal, Strings, EncodeParams, ParseQuery, M.Lookup,
         Gorgon.IsTimestamp;
    var r := ArgusRequest(md5, req, o);
    ParamsAreStrings(req);
    M.NamesLookedUp(ParamsOf(req), r);
    M.ShortRequestFits(r, o.argusFallback);
  }

  /** There are such calls, for every MD5 and for both readers of X-Argus, and functions that undo themselves. */
  lemma SomeCall(quirk: bool, md5: Md5)
    ensures exists req: SignRequest, o: SignOptions ::
              o.version == 8404 && LegalCall(md5, req, o) && SafeCall(quirk, o, [])
    ensures exists aes: Argus.Aes :: Argus.AesUndoes(aes, aes)
  {
    hide M.Legal, P.Safe, Stub, EncodeParams;
    var req := SignRequest([], Some([]), [], [], [], []);
    var o := SignOptions(0, 1, 1, 0, [], 0, 8404, [], 0, 0, 0, 0, [0, 0, 0, 0]);
    ShortCallLegal(md5, req, o, []);
    P.SafeBelow(quirk, 0);
    assert o.version == 8404 && LegalCall(md5, req, o) && SafeCall(quirk, o, []);
    var same: Argus.Aes := (k: Digest, iv: Digest, m: seq<byte>) => m;
    assert Argus.AesUndoes(same, same);
  }

  /** The twenty bytes behind a Gorgon value of the given version. */
  function ReadGorgon(version: int, text: seq<byte>): Option<Gorgon.Cells> {
    if version == 8404 then Gorgon.ReadPlain(text) else Gorgon.ReadScrambled(text)
  }

  /** X-SS-Stub spells, in capitals, the digest of the raw body if there is one, else of the encoded data, else of
      the encoded payload. */
  ghost predicate StubTells(md5: Md5, req: SignRequest, stub: seq<byte>) {
    && |stub| == 32
    && (forall i :: 0 <= i < 32 ==> 0x30 <= stub[i] <= 0x39 || 0x41 <= stub[i] <= 0x46)
    && HexDecode(stub) == (if req.rawBody != [] then md5(req.rawBody)
                           else if req.data != [] then md5(EncodeParams(req.data))
                           else md5(EncodeParams(req.payload)))
  }

  lemma StubRead(md5: Md5, req: SignRequest)
    ensures StubTells(md5, req, UpperHex(Stub(md5, req)))
    ensures HexDecode(Stub(md5, req)) == HexDecode(UpperHex(Stub(md5, req)))
  {
    hide HexDecode, UpperHex, HexText, EncodeParams;
    HexDecodeUpper(Stub(md5, req));
    HexDecodeText(md5(BodyString(req)));
    StubDigits(md5(BodyString(req)));
  }

  function Mark(version: int): (m: seq<byte>)
    ensures |m| == 4
  {
    if version == 8404 then Gorgon.MARK1 else Gorgon.MARK2
  }

  lemma GorgonCells(md5: Md5, req: SignRequest, o: SignOptions)
    requires GorgonOf(md5, req, o).Some?
    ensures var g := GorgonOf(md5, req, o).value;
            && ReadGorgon(o.version, g.gorgonVal)
               == Some(Gorgon.Layout(md5, QueryString(req), EncodeParams(PayloadOf(req)), EncodeParams(req.cookie),
                                     Mark(o.version), o.timestamp))
            && g == Gorgon.Tickets(o.timestamp, g.gorgonVal)
  {
    var q, p, c := QueryString(req), EncodeParams(PayloadOf(req)), EncodeParams(req.cookie);
    Gorgon.ValuesRead(md5, q, p, c, o.timestamp, o.gorgonByte3, o.gorgonByte7);
    hide Gorgon.ReadPlain, Gorgon.ReadScrambled, Gorgon.Layout, Decimal.Text, HexText,
         Gorgon.Scrambled, Gorgon.Masked, QueryString, EncodeParams, PayloadOf;
  }

  /** The first four digest bytes of an encoded list; zeros for an empty one. */
  function DigestStart(md5: Md5, ps: seq<Pair>): seq<byte> {
    if ps == [] then [0, 0, 0, 0] else md5(EncodeParams(ps))[..4]
  }

  /** The time headers and X-Gorgon carry the time of the request, and X-Gorgon the digests of its query string, of its
      payload, for which the data stands in, and of its cookies. */
  ghost predicate GorgonTells(md5: Md5, req: SignRequest, o: SignOptions, ps: seq<Pair>, gorgon: seq<byte>,
      khronos: seq<byte>, ticket: seq<byte>) {
    var cells := ReadGorgon(o.version, gorgon);
    && cells.Some? && cells.value[..4] == md5(EncodeParams(ps))[..4]
    && cells.value[4..8] == DigestStart(md5, if req.payload != [] then req.payload else req.data)
    && cells.value[8..12] == DigestStart(md5, req.cookie)
    && cells.value[12..16] == (if o.version == 8404 then [0x01, 0x01, 0x02, 0x04] else [0x00, 0x06, 0x0B, 0x1C])
    && BeValue(cells.value[16..]) == o.timestamp % 0x1_0000_0000
    && Decimal.Read(khronos) == Some((o.timestamp, []))
    && Decimal.Read(ticket) == Some((o.timestamp * 1000, []))
  }

  /** X-Gorgon starts as its version does; version 1 shows one random byte and the high half of another. */
  predicate GorgonStarts(o: SignOptions, gorgon: seq<byte>) {
    && |gorgon| == 52
    && (o.version == 8404 ==>
          && gorgon[..4] == [0x38, 0x34, 0x30, 0x34]  // "8404"
          && var flags := HexDecode(gorgon[4..12]);
             flags[0] & 0xF0 == o.gorgonByte7 & 0xF0 && flags[0] & 0x0F == 0 && flags[1] == o.gorgonByte3
             && flags[2] == flags[3] == 0)
    && (o.version == 8402 ==>  // "840280416000"
          gorgon[..12] == [0x38, 0x34, 0x30, 0x32, 0x38, 0x30, 0x34, 0x31, 0x36, 0x30, 0x30, 0x30])
    && (o.version == 4404 || o.version == 0 ==>  // "0404b0d30000"
          gorgon[..12] == [0x30, 0x34, 0x30, 0x34, 0x62, 0x30, 0x64, 0x33, 0x30, 0x30, 0x30, 0x30])
  }

  lemma PartIs(md5: Md5, ps: seq<Pair>)
    ensures Gorgon.Part(md5, EncodeParams(ps)) == DigestStart(md5, ps)
  {
    EncodedEmpty(ps);
    hide EncodeParams;
    assert Zeros(4) == [0, 0, 0, 0];
  }

  lemma EncodedEmpty(ps: seq<Pair>)
    ensures EncodeParams(ps) == [] <==> ps == []
  {
    hide EncodePair;
    if ps != [] {
      EncodedPairNonempty(ps[|ps| - 1]);
    }
  }

  lemma GorgonAgrees(md5: Md5, req: SignRequest, o: SignOptions, ps: seq<Pair>)
    requires SpeaksOf(req, ps) && GorgonOf(md5, req, o).Some?
    ensures var g := GorgonOf(md5, req, o).value;
            GorgonTells(md5, req, o, ps, g.gorgonVal, g.khronos, g.reqTicket) && GorgonStarts(o, g.gorgonVal)
  {
    Spoken(req, ps);
    GorgonRead(md5, req, o, ps);
    GorgonStart(md5, req, o);
    hide *;
  }

  lemma GorgonRead(md5: Md5, req: SignRequest, o: SignOptions, ps: seq<Pair>)
    requires ps == ParamsOf(req) && GorgonOf(md5, req, o).Some?
    ensures var g := GorgonOf(md5, req, o).value;
            GorgonTells(md5, req, o, ps, g.gorgonVal, g.khronos, g.reqTicket)
  {
    var g := GorgonOf(md5, req, o).value;
    var q, p, c := QueryString(req), EncodeParams(PayloadOf(req)), EncodeParams(req.cookie);
    GorgonCells(md5, req, o);
    Gorgon.LayoutRead(md5, q, p, c, Mark(o.version), o.timestamp);
    Gorgon.TicketsRead(o.timestamp, g.gorgonVal);
    PartIs(md5, PayloadOf(req));
    PartIs(md5, req.cookie);
    hide GorgonOf, ReadGorgon, Gorgon.Layout, Gorgon.Part, BeValue, Decimal.Read, Gorgon.Tickets,
         EncodeParams, DigestStart, ParamsOf;
  }

  lemma GorgonStart(md5: Md5, req: SignRequest, o: SignOptions)
    requires GorgonOf(md5, req, o).Some?
    ensures GorgonStarts(o, GorgonOf(md5, req, o).value.gorgonVal)
  {
    hide Gorgon.V1, Gorgon.V2, Gorgon.V3, QueryString, EncodeParams, PayloadOf, HexDecode;
    Gorgon.ValuesStart(md5, QueryString(req), EncodeParams(PayloadOf(req)), EncodeParams(req.cookie), o.timestamp,
                       o.gorgonByte3, o.gorgonByte7);
  }

  /** X-Argus carries the first device_id and version_name of the parameters, six bytes of the SM3 digest of what the
      stub spells, six of the query string's, and the options, each under its field number. */
  ghost predicate ArgusTells(quirk: bool, md5: Md5, aesBack: Argus.Aes, o: SignOptions, ps: seq<Pair>,
      argus: seq<byte>, stub: seq<byte>)
    requires |stub| == 32
  {
    var message := M.ReadHeader(quirk, md5, aesBack, argus);
    message.Some? && |message.value| == 20 && FieldsTell(message.value, o, ps, stub)
  }

  ghost predicate FieldsTell(fs: seq<P.Field>, o: SignOptions, ps: seq<Pair>, stub: seq<byte>)
    requires |fs| == 20 && |stub| == 32
  {
    && fs[2] == P.Number(3, (if o.argusRand >= 0 then o.argusRand else o.argusFallback) % 0x8000_0000)
    && fs[3].idx == 4 && Decimal.Read(fs[3].data) == Some((o.aid, []))
    && fs[4] == P.Text(5, DeviceId(ps))
    && fs[5].idx == 6 && Decimal.Read(fs[5].data) == Some((o.licenseId, []))
    && fs[6] == P.Text(7, VersionName(ps))
    && fs[7] == P.Text(8, o.sdkVersion)
    && fs[8] == P.Number(9, o.sdkVersionInt % 0x1_0000_0000)
    && fs[10] == P.Number(11, o.platform % 0x1_0000_0000)
    && fs[11] == P.Number(12, 2 * o.timestamp % 0x1_0000_0000)
    && fs[12] == P.Text(13, Sm3.Digest(HexDecode(stub))[..6])
    && fs[13] == P.Text(14, Sm3.Digest(if ps == [] then Zeros(16) else EncodeParams(ps))[..6])
    && fs[15] == P.Text(16, o.secDeviceId)
  }

  /** The same in the terms of ArgusMessage. */
  lemma FieldsAlike(md5: Md5, req: SignRequest, o: SignOptions, ps: seq<Pair>, fs: seq<P.Field>, stub: seq<byte>)
    requires ps == ParamsOf(req) && |fs| == 20 && |stub| == 32
    requires HexDecode(stub) == M.HashedBody(Stub(md5, req))
    ensures FieldsTell(fs, o, ps, stub)
            <==> && fs[4] == P.Text(5, DeviceId(ps)) && fs[6] == P.Text(7, VersionName(ps))
                 && fs[12] == P.Text(13, Sm3.Digest(M.HashedBody(Stub(md5, req)))[..6])
                 && fs[13] == P.Text(14, Sm3.Digest(M.HashedQuery(QueryString(req)))[..6])
                 && M.TellsInputs(fs, ArgusRequest(md5, req, o), o.argusFallback)
  {
    hide ParamsOf, Stub, Sm3.Digest, HexDecode, EncodeParams, DeviceId, VersionName, Decimal.Read, M.HashedBody;
    EncodedEmpty(ps);
  }

  lemma HashedStub(md5: Md5, req: SignRequest)
    ensures M.HashedBody(Stub(md5, req)) == HexDecode(UpperHex(Stub(md5, req)))
  {
    StubRead(md5, req);
    hide HexDecode, UpperHex, BodyString;
  }

  lemma ArgusAgrees(quirk: bool, md5: Md5, aes: Argus.Aes, aesBack: Argus.Aes, req: SignRequest, o: SignOptions,
      ps: seq<Pair>)
    requires SpeaksOf(req, ps)
    requires Argus.AesUndoes(aesBack, aes) && KnownVersion(o.version) && LegalCall(md5, req, o)
    ensures var argus := M.Sign(md5, aes, ArgusRequest(md5, req, o), o.argusFallback);
            && (ArgusTells(quirk, md5, aesBack, o, ps, argus, UpperHex(Stub(md5, req))) <==> SafeCall(quirk, o, ps))
            && (SafeCall(quirk, o, ps)
                ==> M.TellsConstants(quirk, M.ReadHeader(quirk, md5, aesBack, argus).value))
  {
    Spoken(req, ps);
    HashedStub(md5, req);
    ParamsAreStrings(req);
    var r := ArgusRequest(md5, req, o);
    var read := M.ReadHeader(quirk, md5, aesBack, M.Sign(md5, aes, r, o.argusFallback));
    if read.Some? && |read.value| == 20 {
      FieldsAlike(md5, req, o, ps, read.value, UpperHex(Stub(md5, req)));
    }
    hide ParamsOf, CStrings, Stub, M.ReadHeader, M.Sign, M.FirstValue, M.Legal, FieldsTell, DeviceId, VersionName,
         P.Safe, Sm3.Digest, HexDecode, UpperHex, Strings, M.HashedBody, M.HashedQuery, M.TellsInputs,
         M.TellsConstants, EncodeParams, SpeaksOf;
    M.EndToEnd(quirk, md5, aes, aesBack, r, o.argusFallback, ps);
  }

  /** The six headers of one request agree with each other and with the request; opening X-Ladon gives the same
      time, and the licence and the application; opening X-Argus gives all it should exactly for a safe call, and then
      its constants too. */
  lemma HeadersAgree(quirk: bool, md5: Md5, aes: Argus.Aes, aesBack: Argus.Aes, req: SignRequest, o: SignOptions,
      ps: seq<Pair>)
    requires SpeaksOf(req, ps)
    requires Argus.AesUndoes(aesBack, aes) && LegalCall(md5, req, o)
    ensures match TtSign(md5, aes, req, o)
            case BadVersion => o.version !in {8404, 8402, 4404, 0}
            case Signatures(argus, ladon, gorgon, khronos, ticket, stub) =>
              && o.version in {8404, 8402, 4404, 0}
              && StubTells(md5, req, stub)
              && GorgonTells(md5, req, o, ps, gorgon, khronos, ticket) && GorgonStarts(o, gorgon)
              && Ladon.LadonDecrypt(md5, o.aid, ladon) == Some((o.timestamp, o.licenseId, o.aid))
              && (ArgusTells(quirk, md5, aesBack, o, ps, argus, stub) <==> SafeCall(quirk, o, ps))
              && (SafeCall(quirk, o, ps)
                  ==> M.TellsConstants(quirk, M.ReadHeader(quirk, md5, aesBack, argus).value))
  {
    hide ArgusTells, GorgonTells, StubTells, GorgonStarts, GorgonOf, M.Sign, M.ReadHeader, M.TellsConstants,
         Ladon.LadonDecrypt, Ladon.LadonEncrypt, SafeCall, LegalCall, SpeaksOf, Stub, UpperHex, Argus.AesUndoes;
    KnownVersions(md5, req, o);
    StubRead(md5, req);
    if KnownVersion(o.version) {
      ArgusAgrees(quirk, md5, aes, aesBack, req, o, ps);
      LegalRandom(md5, req, o);
      Ladon.LadonRoundTrip(md5, o.timestamp, o.licenseId, o.aid, o.ladonRandom);
      GorgonAgrees(md5, req, o, ps);
    }
  }

  lemma LegalRandom(md5: Md5, req: SignRequest, o: SignOptions)
    requires LegalCall(md5, req, o)
    ensures |o.ladonRandom| == 4
  {
    hide M.Legal, CStrings;
  }

  lemma KnownVersions(md5: Md5, req: SignRequest, o: SignOptions)
    ensures GorgonOf(md5, req, o).Some? <==> KnownVersion(o.version)
  {
    hide Gorgon.V1, Gorgon.V2, Gorgon.V3, QueryString, EncodeParams, PayloadOf;
  }

  // ---------------------------------------------------------------- the code

  method EncodedString(pairs: seq<Pair>) returns (s: seq<byte>)
    ensures s == EncodeParams(pairs)
  {
    var out := UrlEncodeParams(pairs);
    EncodedZeroFree(pairs);
    StringOf(out, EncodeParams(pairs));
    hide *;
    s := CStr(out[..]);
  }

  method GivenParams(req: SignRequest) returns (params: seq<Pair>)
    ensures params == ParamsOf(req)
  {
    hide FromUrl;
    match req.params
    case Some(ps) =>
      params := ps;
    case None =>
      var found, count := ParamsFromUrl(req.url);
      params := found[..count];
  }

  method UpperStub(stub: seq<byte>) returns (upper: seq<byte>)
    ensures upper == UpperHex(stub)
  {
    hide UpperDigit;
    var stubUpper := new byte[|stub|];
    for i := 0 to |stub|
      invariant forall k :: 0 <= k < i ==> stubUpper[k] == UpperDigit(stub[k])
    {
      stubUpper[i] := UpperDigit(stub[i]);
    }
    upper := stubUpper[..];
  }

  method GorgonValue(md5: Md5, req: SignRequest, o: SignOptions, query: seq<byte>) returns (g: Option<Gorgon.Result>)
    requires KnownVersion(o.version) ==> Gorgon.IsTimestamp(o.timestamp)
    requires query == QueryString(req)
    ensures g == GorgonOf(md5, req, o)
  {
    hide Gorgon.V1, Gorgon.V2, Gorgon.V3, QueryString, EncodeParams;
    var payload := EncodedString(PayloadOf(req));
    var cookie := EncodedString(req.cookie);
    if o.version == 8404 {
      var r := Gorgon.GorgonV1(md5, query, payload, cookie, o.timestamp, o.gorgonByte3, o.gorgonByte7);
      g := Some(r);
    } else if o.version == 8402 {
      var r := Gorgon.GorgonV2(md5, query, payload, cookie, o.timestamp);
      g := Some(r);
    } else if o.version == 4404 || o.version == 0 {
      var r := Gorgon.GorgonV3(md5, query, payload, cookie, o.timestamp);
      g := Some(r);
    } else {
      g := None;
    }
  }

  method ArgusString(md5: Md5, aes: Argus.Aes, r: M.Request, fallback: nat) returns (s: seq<byte>)
    requires M.Legal(r, fallback)
    requires Sm3.Hashable(|r.stub| / 2) && Sm3.Hashable(|r.query|)
    ensures s == M.Sign(md5, aes, r, fallback)
  {
    var b64 := M.ArgusGetSign(md5, aes, r, fallback);
    SignZeroFree(md5, aes, r, fallback);
    StringOf(b64, M.Sign(md5, aes, r, fallback));
    hide *;
    s := CStr(b64[..]);
  }

  lemma SignZeroFree(md5: Md5, aes: Argus.Aes, r: M.Request, fallback: nat)
    requires |r.stub| % 2 == 0
    ensures ZeroFree(M.Sign(md5, aes, r, fallback))
  {
    Argus.ArgusZeroFree(md5, aes, M.Message(r, fallback));
  }

  method LadonString(md5: Md5, o: SignOptions) returns (s: seq<byte>)
    requires Gorgon.IsTimestamp(o.timestamp) && |o.ladonRandom| == 4
    requires -0x8000_0000 <= o.licenseId < 0x8000_0000 && -0x8000_0000 <= o.aid < 0x8000_0000
    ensures s == Ladon.LadonEncrypt(md5, o.timestamp, o.licenseId, o.aid, o.ladonRandom)
  {
    var b64 := Ladon.LadonHeader(md5, o.timestamp, o.licenseId, o.aid, o.ladonRandom);
    Ladon.LadonZeroFree(md5, o.timestamp, o.licenseId, o.aid, o.ladonRandom);
    StringOf(b64, Ladon.LadonEncrypt(md5, o.timestamp, o.licenseId, o.aid, o.ladonRandom));
    hide *;
    s := CStr(b64[..]);
  }

  method TtSignRequest(md5: Md5, aes: Argus.Aes, req: SignRequest, o: SignOptions) returns (s: Signatures)
    requires LegalCall(md5, req, o)
    requires KnownVersion(o.version) ==> Sm3.Hashable(|QueryString(req)|)
    ensures s == TtSign(md5, aes, req, o)
  {
    hide EncodeParams, M.Sign, M.Legal, Ladon.LadonEncrypt, GorgonOf, HexText, UpperHex, CStrings, ParamsOf;
    var params := GivenParams(req);
    var query := EncodedString(params);
    var data := EncodedString(DataOf(req));
    if req.rawBody != [] {
      data := req.rawBody;
    }
    var stub := HexText(md5(data));
    assert stub == Stub(md5, req);
    hide Stub;
    var upper := UpperStub(stub);
    var g := GorgonValue(md5, req, o, query);
    if g == None {
      return BadVersion;
    }
    KnownVersions(md5, req, o);
    var argus := ArgusString(md5, aes, ArgusRequest(md5, req, o).(query := query, stub := stub), o.argusFallback);
    var ladon := LadonString(md5, o);
    s := Signatures(argus, ladon, g.value.gorgonVal, g.value.khronos, g.value.reqTicket, upper);
  }
}
