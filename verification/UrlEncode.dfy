/** Query strings (src/url_encode.c): quoting, unquoting, joining and the first-wins parser. */
module UrlEncode {
  import opened Bytes
  import opened CryptoHelpers

  const AMP: byte := 0x26      // '&'
  const EQUALS: byte := 0x3D   // '='
  const PLUS: byte := 0x2B     // '+'
  const PERCENT: byte := 0x25  // '%'
  const SPACE: byte := 0x20

  datatype Pair = Pair(key: seq<byte>, value: seq<byte>)

  /** Both members are C strings. */
  predicate Strings(p: Pair) {
    ZeroFree(p.key) && ZeroFree(p.value)
  }

  // ---------------------------------------------------------------- quoting

  predicate IsUnreserved(c: byte) {
    || 0x61 <= c <= 0x7A || 0x41 <= c <= 0x5A || 0x30 <= c <= 0x39
    || c == 0x5F || c == 0x2E || c == 0x2D || c == 0x7E
  }

  /** Entry `n` of the table "0123456789ABCDEF". */
  function HexUpper(n: byte): (c: byte)
    requires n < 16
  {
    if n < 10 then 0x30 + n else 0x37 + n
  }

  predicate IsHex(c: byte) {
    0x30 <= c <= 0x39 || 0x61 <= c <= 0x66 || 0x41 <= c <= 0x46
  }

  function QuoteByte(c: byte): seq<byte> {
    if IsUnreserved(c) then [c]
    else if c == SPACE then [PLUS]
    else [PERCENT, HexUpper((c >> 4) & 0x0F), HexUpper(c & 0x0F)]
  }

  function QuotePlus(s: seq<byte>): seq<byte> {
    if s == [] then [] else QuoteByte(s[0]) + QuotePlus(s[1..])
  }

  /** The text starts with a complete escape. */
  predicate StartsWithEscape(s: seq<byte>) {
    |s| > 2 && s[0] == PERCENT && IsHex(s[1]) && IsHex(s[2])
  }

  function UnquotePlus(s: seq<byte>): (r: seq<byte>)
    ensures |r| <= |s|
  {
    if s == [] then []
    else if s[0] == PLUS then [SPACE] + UnquotePlus(s[1..])
    else if StartsWithEscape(s) then [FromDigits(s[1], s[2])] + UnquotePlus(s[3..])
    else [s[0]] + UnquotePlus(s[1..])
  }

  /** Nothing in the text can be taken for a separator, a blank or a terminator. */
  predicate Plain(s: seq<byte>) {
    forall i :: 0 <= i < |s| ==> s[i] != AMP && s[i] != EQUALS && s[i] != SPACE && s[i] != 0
  }

  lemma EscapeOfByte(c: byte)
    ensures IsHex(HexUpper((c >> 4) & 0x0F)) && IsHex(HexUpper(c & 0x0F))
    ensures FromDigits(HexUpper((c >> 4) & 0x0F), HexUpper(c & 0x0F)) == c
  {
  }

  lemma UnreservedIsLiteral(c: byte)
    requires IsUnreserved(c)
    ensures c != PLUS && c != PERCENT
  {
  }

  lemma UnquoteQuoteByte(c: byte, rest: seq<byte>)
    ensures UnquotePlus(QuoteByte(c) + rest) == [c] + UnquotePlus(rest)
  {
    EscapeOfByte(c);
    hide IsHex, FromDigits, HexUpper;
    var s := QuoteByte(c) + rest;
    if IsUnreserved(c) {
      UnreservedIsLiteral(c);
      assert s[1..] == rest;
    } else if c == SPACE {
      assert s[1..] == rest;
    } else {
      assert s[3..] == rest;
    }
  }

  /** Unquoting undoes quoting, byte for byte. */
  lemma {:induction false} UnquoteQuote(s: seq<byte>)
    ensures UnquotePlus(QuotePlus(s)) == s
  {
    hide QuoteByte;
    if s != [] {
      UnquoteQuoteByte(s[0], QuotePlus(s[1..]));
      UnquoteQuote(s[1..]);
    }
  }

  /** Letters, digits and "-._~", the unreserved characters of section 2.3 of RFC 3986. */
  predicate StandsForItself(c: byte) {
    || 0x30 <= c <= 0x39 || 0x41 <= c <= 0x5A || 0x61 <= c <= 0x7A
    || c == 0x2D || c == 0x2E || c == 0x5F || c == 0x7E
  }

  predicate CapitalDigit(c: byte) {
    0x30 <= c <= 0x39 || 0x41 <= c <= 0x46
  }

  predicate AnyDigit(c: byte) {
    CapitalDigit(c) || 0x61 <= c <= 0x66
  }

  lemma CapitalDigits(c: byte)
    ensures CapitalDigit(HexUpper((c >> 4) & 0x0F)) && CapitalDigit(HexUpper(c & 0x0F))
  {
  }

  /** How each byte is written: itself, '+' for a blank, or '%' and two capital digits that say its number. */
  lemma QuotedByte(c: byte)
    ensures var q := QuotePlus([c]);
            if StandsForItself(c) then q == [c]
            else if c == 0x20 then q == [0x2B]
            else |q| == 3 && q[0] == 0x25 && CapitalDigit(q[1]) && CapitalDigit(q[2]) && FromDigits(q[1], q[2]) == c
  {
    CapitalDigits(c);
    EscapeOfByte(c);
    hide HexUpper, FromDigits, CapitalDigit, IsHex;
    assert QuotePlus([c]) == QuoteByte(c);
  }

  /** Bytes are quoted one by one. */
  lemma {:induction false} QuoteJoined(s: seq<byte>, t: seq<byte>)
    ensures QuotePlus(s + t) == QuotePlus(s) + QuotePlus(t)
  {
    hide QuoteByte;
    if s == [] {
      assert s + t == t;
    } else {
      assert (s + t)[1..] == s[1..] + t;
      QuoteJoined(s[1..], t);
    }
  }

  /** How each character is read: '+' as a blank, '%' with two digits of either case as the byte they say, and
      everything else, a '%' without them included, as itself. */
  lemma UnquotedFirst(s: seq<byte>)
    requires s != []
    ensures UnquotePlus(s)
            == if s[0] == 0x2B then [0x20] + UnquotePlus(s[1..])
               else if s[0] == 0x25 && |s| >= 3 && AnyDigit(s[1]) && AnyDigit(s[2])
               then [FromDigits(s[1], s[2])] + UnquotePlus(s[3..])
               else [s[0]] + UnquotePlus(s[1..])
  {
    hide FromDigits;
  }

  lemma QuoteBytePlain(c: byte)
    ensures Plain(QuoteByte(c)) && 1 <= |QuoteByte(c)| <= 3
  {
  }

  lemma {:induction false} QuotePlain(s: seq<byte>)
    ensures Plain(QuotePlus(s)) && |s| <= |QuotePlus(s)| <= 3 * |s|
  {
    hide QuoteByte;
    if s != [] {
      QuoteBytePlain(s[0]);
      QuotePlain(s[1..]);
    }
  }

  // ---------------------------------------------------------------- joining

  function EncodePair(p: Pair): seq<byte> {
    QuotePlus(p.key) + [EQUALS] + QuotePlus(p.value)
  }

  function EncodeParams(ps: seq<Pair>): seq<byte> {
    if ps == [] then []
    else (if |ps| == 1 then [] else EncodeParams(ps[..|ps| - 1]) + [AMP]) + EncodePair(ps[|ps| - 1])
  }

  // ---------------------------------------------------------------- tokens

  /** Where the first `c` stands in `s`; the length of `s` if there is none. */
  function Find(c: byte, s: seq<byte>): (n: nat)
    ensures n <= |s|
    ensures c !in s[..n]
    ensures n < |s| ==> s[n] == c
  {
    if s == [] || s[0] == c then 0 else 1 + Find(c, s[1..])
  }

  lemma {:induction false} FindIs(c: byte, s: seq<byte>, n: nat)
    requires n <= |s| && c !in s[..n] && (n < |s| ==> s[n] == c)
    ensures Find(c, s) == n
  {
    if n > 0 {
      assert s[..n][0] == s[0];
      assert s[1..][..n - 1] == s[..n][1..];
      FindIs(c, s[1..], n - 1);
    }
  }

  /** The tokens strtok_r cuts from `s`: the longest runs without '&', empty ones skipped. */
  function Tokens(s: seq<byte>): seq<seq<byte>>
    decreases |s|
  {
    if s == [] then []
    else if s[0] == AMP then Tokens(s[1..])
    else [s[..Find(AMP, s)]] + Tokens(s[Find(AMP, s)..])
  }

  lemma FindJoined(a: seq<byte>, t: seq<byte>)
    ensures Find(AMP, a + [AMP] + t) == Find(AMP, a)
  {
    var n := Find(AMP, a);
    var s := a + [AMP] + t;
    assert s[..n] == a[..n];
    FindIs(AMP, s, n);
  }

  /** The first token of a text that goes on behind a separator. */
  lemma FirstToken(a: seq<byte>, t: seq<byte>)
    requires a != [] && a[0] != AMP
    ensures var n := Find(AMP, a); n > 0 && Tokens(a) == [a[..n]] + Tokens(a[n..])
    ensures var n := Find(AMP, a); Tokens(a + [AMP] + t) == [a[..n]] + Tokens(a[n..] + [AMP] + t)
  {
    var n, s := Find(AMP, a), a + [AMP] + t;
    FindJoined(a, t);
    assert n > 0;
    hide Find;
    assert s[..n] == a[..n] && s[n..] == a[n..] + [AMP] + t;
  }

  lemma {:induction false} TokensJoined(a: seq<byte>, t: seq<byte>)
    ensures Tokens(a + [AMP] + t) == Tokens(a) + Tokens(t)
    decreases |a|
  {
    var s := a + [AMP] + t;
    if a == [] {
      assert s[1..] == t;
    } else if a[0] == AMP {
      assert s[1..] == a[1..] + [AMP] + t;
      TokensJoined(a[1..], t);
    } else {
      FirstToken(a, t);
      TokensJoined(a[Find(AMP, a)..], t);
      hide *;
    }
  }

  lemma TokenAlone(t: seq<byte>)
    requires t != [] && AMP !in t
    ensures Tokens(t) == [t]
  {
    FindIs(AMP, t, |t|);
    assert t[..|t|] == t && t[|t|..] == [];
  }

  function EncodePairs(ps: seq<Pair>): (r: seq<seq<byte>>)
    ensures |r| == |ps|
  {
    if ps == [] then [] else EncodePairs(ps[..|ps| - 1]) + [EncodePair(ps[|ps| - 1])]
  }

  lemma EncodedPairHasNoAmp(p: Pair)
    ensures AMP !in EncodePair(p)
  {
    QuotePlain(p.key);
    QuotePlain(p.value);
    hide QuotePlus;
  }

  lemma {:induction false} TokensOfEncoded(ps: seq<Pair>)
    ensures Tokens(EncodeParams(ps)) == EncodePairs(ps)
  {
    hide EncodePair;
    if ps != [] {
      var front, last := ps[..|ps| - 1], ps[|ps| - 1];
      EncodedPairHasNoAmp(last);
      EncodedPairNonempty(last);
      TokenAlone(EncodePair(last));
      TokensOfEncoded(front);
      TokensJoined(EncodeParams(front), EncodePair(last));
      hide Tokens;
      if |ps| == 1 {
        assert [] + EncodePair(last) == EncodePair(last);
      }
    }
  }

  lemma EncodedPairNonempty(p: Pair)
    ensures EncodePair(p) != []
  {
  }

  // ---------------------------------------------------------------- the first-wins parser

  ghost predicate HasKey(ps: seq<Pair>, k: seq<byte>) {
    exists i :: 0 <= i < |ps| && ps[i].key == k
  }

  /** What one token adds to the parameters found so far. */
  ghost function AddToken(ps: seq<Pair>, token: seq<byte>): seq<Pair> {
    var e := Find(EQUALS, token);
    if e + 1 >= |token| then ps
    else
      var name := CStr(UnquotePlus(token[..e]));
      var value := CStr(UnquotePlus(token[e + 1..]));
      if HasKey(ps, name) then ps else ps + [Pair(name, value)]
  }

  ghost function ParseTokens(tokens: seq<seq<byte>>): seq<Pair> {
    if tokens == [] then []
    else AddToken(ParseTokens(tokens[..|tokens| - 1]), tokens[|tokens| - 1])
  }

  ghost function ParseQuery(qs: seq<byte>): seq<Pair> {
    ParseTokens(Tokens(qs))
  }

  /** `ps` already gives key `k` a value that is not empty. */
  ghost predicate Given(ps: seq<Pair>, k: seq<byte>) {
    exists i :: 0 <= i < |ps| && ps[i].key == k && ps[i].value != []
  }

  /** For each key its first non-empty value, in the order of those occurrences. */
  ghost function FirstNonEmpty(ps: seq<Pair>): seq<Pair> {
    if ps == [] then []
    else
      var front, last := ps[..|ps| - 1], ps[|ps| - 1];
      if last.value == [] || Given(front, last.key) then FirstNonEmpty(front) else FirstNonEmpty(front) + [last]
  }

  lemma {:induction false} KeysGiven(ps: seq<Pair>, k: seq<byte>)
    ensures HasKey(FirstNonEmpty(ps), k) <==> Given(ps, k)
  {
    if ps != [] {
      var front, last := ps[..|ps| - 1], ps[|ps| - 1];
      KeysGiven(front, k);
      assert Given(ps, k) <==> Given(front, k) || (last.key == k && last.value != []) by {
        GivenSnoc(ps, k);
      }
      HasKeySnoc(FirstNonEmpty(front), last, k);
    }
  }

  lemma GivenSnoc(ps: seq<Pair>, k: seq<byte>)
    requires ps != []
    ensures Given(ps, k) <==> Given(ps[..|ps| - 1], k) || (ps[|ps| - 1].key == k && ps[|ps| - 1].value != [])
  {
    var front := ps[..|ps| - 1];
    assert ps == front + [ps[|ps| - 1]];
    if Given(front, k) {
      var i :| 0 <= i < |front| && front[i].key == k && front[i].value != [];
      assert ps[i] == front[i];
    }
  }

  lemma HasKeySnoc(ps: seq<Pair>, p: Pair, k: seq<byte>)
    ensures HasKey(ps + [p], k) <==> HasKey(ps, k) || p.key == k
  {
    var all := ps + [p];
    assert all[|ps|] == p;
    if HasKey(ps, k) {
      var i :| 0 <= i < |ps| && ps[i].key == k;
      assert all[i].key == k;
    }
  }

  /** The first '=' of an encoded pair is the separator. */
  lemma SplitEncodedPair(p: Pair)
    ensures var t := EncodePair(p);
            var e := Find(EQUALS, t);
            e < |t| && t[..e] == QuotePlus(p.key) && t[e + 1..] == QuotePlus(p.value)
  {
    QuotePlain(p.key);
    hide QuotePlus;
    var t, e := EncodePair(p), |QuotePlus(p.key)|;
    assert t[..e] == QuotePlus(p.key);
    FindIs(EQUALS, t, e);
  }

  lemma AddEncodedPair(ps: seq<Pair>, p: Pair)
    requires Strings(p)
    ensures AddToken(ps, EncodePair(p)) == if p.value == [] || HasKey(ps, p.key) then ps else ps + [p]
  {
    SplitEncodedPair(p);
    QuotePlain(p.value);
    UnquoteQuote(p.key);
    UnquoteQuote(p.value);
    hide EncodePair, QuotePlus, UnquotePlus, HasKey;
  }

  /** Parsing an encoded list keeps, for each key, its first non-empty value. */
  lemma {:induction false} ParseEncoded(ps: seq<Pair>)
    requires forall i :: 0 <= i < |ps| ==> Strings(ps[i])
    ensures ParseQuery(EncodeParams(ps)) == FirstNonEmpty(ps)
  {
    hide EncodePair, AddToken, Strings, HasKey, Given;
    TokensOfEncoded(ps);
    if ps != [] {
      var front, last := ps[..|ps| - 1], ps[|ps| - 1];
      ParseEncoded(front);
      TokensOfEncoded(front);
      hide Tokens, EncodeParams;
      assert EncodePairs(ps)[..|ps| - 1] == EncodePairs(front);
      KeysGiven(front, last.key);
      AddEncodedPair(FirstNonEmpty(front), last);
    }
  }

  lemma EncodePairInjective(p: Pair, q: Pair)
    requires EncodePair(p) == EncodePair(q)
    ensures p == q
  {
    SplitEncodedPair(p);
    SplitEncodedPair(q);
    UnquoteQuote(p.key);
    UnquoteQuote(p.value);
    UnquoteQuote(q.key);
    UnquoteQuote(q.value);
    hide EncodePair, QuotePlus, UnquotePlus;
  }

  lemma {:induction false} EncodePairsInjective(ps: seq<Pair>, qs: seq<Pair>)
    requires EncodePairs(ps) == EncodePairs(qs)
    ensures ps == qs
  {
    hide EncodePair;
    assert |ps| == |EncodePairs(ps)| == |EncodePairs(qs)| == |qs|;
    if ps != [] {
      var n := |ps| - 1;
      assert EncodePairs(ps)[..n] == EncodePairs(ps[..n]) && EncodePairs(qs)[..n] == EncodePairs(qs[..n]);
      assert EncodePairs(ps)[n] == EncodePair(ps[n]) && EncodePairs(qs)[n] == EncodePair(qs[n]);
      EncodePairsInjective(ps[..n], qs[..n]);
      EncodePairInjective(ps[n], qs[n]);
      assert ps == ps[..n] + [ps[n]] && qs == qs[..n] + [qs[n]];
    }
  }

  /** Different lists of pairs never share a query string. */
  lemma EncodeParamsInjective(ps: seq<Pair>, qs: seq<Pair>)
    requires EncodeParams(ps) == EncodeParams(qs)
    ensures ps == qs
  {
    TokensOfEncoded(ps);
    TokensOfEncoded(qs);
    EncodePairsInjective(ps, qs);
  }

  lemma {:induction false} EncodedZeroFree(ps: seq<Pair>)
    ensures ZeroFree(EncodeParams(ps))
  {
    if ps != [] {
      var last := ps[|ps| - 1];
      EncodedZeroFree(ps[..|ps| - 1]);
      QuotePlain(last.key);
      QuotePlain(last.value);
      hide QuotePlus;
    }
  }

  // ---------------------------------------------------------------- the loops

  lemma QuoteStep(s: seq<byte>, i: nat)
    requires i < |s|
    ensures QuotePlus(s[i..]) == QuoteByte(s[i]) + QuotePlus(s[i + 1..])
  {
    assert s[i..][1..] == s[i + 1..];
  }

  lemma QuoteDone(s: seq<byte>, i: nat, done: seq<byte>)
    requires i < |s| && done + QuotePlus(s[i..]) == QuotePlus(s)
    ensures done + QuoteByte(s[i]) + QuotePlus(s[i + 1..]) == QuotePlus(s)
  {
    QuoteStep(s, i);
    Assoc(done, QuoteByte(s[i]), QuotePlus(s[i + 1..]));
  }

  /** The three-bytes-per-byte buffer is never too small. */
  method QuotePlusString(s: seq<byte>) returns (out: array<byte>)
    ensures fresh(out) && out.Length == |s| * 3 + 1
    ensures HoldsString(out, QuotePlus(s))
  {
    out := new byte[|s| * 3 + 1];
    var pos: nat := 0;
    for i := 0 to |s|
      invariant pos <= 3 * i
      invariant out[..pos] + QuotePlus(s[i..]) == QuotePlus(s)
    {
      QuoteDone(s, i, out[..pos]);
      QuoteBytePlain(s[i]);
      hide *;
      pos := WriteQuoted(out, pos, s[i]);
    }
    out[pos] := 0;
  }

  method WriteQuoted(out: array<byte>, start: nat, c: byte) returns (pos: nat)
    requires start + 3 <= out.Length
    modifies out
    ensures pos == start + |QuoteByte(c)| && pos <= start + 3
    ensures out[..pos] == old(out[..start]) + QuoteByte(c)
  {
    hide IsUnreserved, HexUpper;
    pos := start;
    if IsUnreserved(c) {
      out[pos] := c;
      pos := pos + 1;
    } else if c == SPACE {
      out[pos] := PLUS;
      pos := pos + 1;
    } else {
      out[pos] := PERCENT;
      out[pos + 1] := HexUpper((c >> 4) & 0x0F);
      out[pos + 2] := HexUpper(c & 0x0F);
      pos := pos + 3;
    }
  }

  /** What the text at index `i` stands for, and how many characters say it. */
  function UnquotedAt(s: seq<byte>, i: nat): (byte, nat)
    requires i < |s|
  {
    if s[i] == PLUS then (SPACE, 1)
    else if s[i] == PERCENT && i + 2 < |s| && IsHex(s[i + 1]) && IsHex(s[i + 2])
    then (FromDigits(s[i + 1], s[i + 2]), 3)
    else (s[i], 1)
  }

  lemma UnquotedFits(s: seq<byte>, i: nat)
    requires i < |s|
    ensures 1 <= UnquotedAt(s, i).1 && i + UnquotedAt(s, i).1 <= |s|
  {
  }

  lemma UnquoteStep(s: seq<byte>, i: nat)
    requires i < |s|
    ensures i + UnquotedAt(s, i).1 <= |s|
    ensures UnquotePlus(s[i..]) == [UnquotedAt(s, i).0] + UnquotePlus(s[i + UnquotedAt(s, i).1..])
  {
    hide IsHex, FromDigits;
    var t := s[i..];
    if s[i] != PLUS && StartsWithEscape(t) {
      assert t[3..] == s[i + 3..];
    } else {
      assert t[1..] == s[i + 1..];
    }
  }

  lemma UnquoteDone(s: seq<byte>, i: nat, done: seq<byte>)
    requires i < |s| && done + UnquotePlus(s[i..]) == UnquotePlus(s)
    ensures var (b, n) := UnquotedAt(s, i);
            1 <= n && i + n <= |s| && done + [b] + UnquotePlus(s[i + n..]) == UnquotePlus(s)
  {
    UnquotedFits(s, i);
    UnquoteStep(s, i);
    hide *;
    Assoc(done, [UnquotedAt(s, i).0], UnquotePlus(s[i + UnquotedAt(s, i).1..]));
  }

  method UnquotePlusString(s: seq<byte>) returns (out: array<byte>)
    ensures fresh(out) && out.Length == |s| + 1
    ensures HoldsString(out, UnquotePlus(s))
  {
    out := new byte[|s| + 1];
    var pos, i := 0, 0;
    while i < |s|
      invariant pos <= i <= |s|
      invariant out[..pos] + UnquotePlus(s[i..]) == UnquotePlus(s)
    {
      UnquoteDone(s, i, out[..pos]);
      hide *;
      var (b, n) := UnquotedAt(s, i);
      pos := AppendByte(out, pos, b);
      i := i + n;
    }
    out[pos] := 0;
  }

  /** What strlen and the copies after it see of a buffer that holds a string. */
  lemma StringOf(a: array<byte>, s: seq<byte>)
    requires HoldsString(a, s)
    ensures CStr(a[..]) == CStr(s)
  {
    assert a[..][..|s|] == a[..|s|];
    CStrCut(s, a[..]);
  }

  /** The doubling loop: afterwards `need` more bytes and a terminator fit behind position `pos`. */
  method Reserve(buf: array<byte>, pos: nat, need: nat) returns (out: array<byte>)
    requires pos <= buf.Length && buf.Length > 0
    ensures out == buf || fresh(out)
    ensures pos + need < out.Length
    ensures out[..pos] == buf[..pos]
  {
    out := buf;
    while pos + need >= out.Length
      invariant out == buf || fresh(out)
      invariant 0 < out.Length && pos <= out.Length && out[..pos] == buf[..pos]
      decreases pos + need - out.Length
    {
      out := Double(out, pos);
    }
  }

  method AppendString(out: array<byte>, pos: nat, s: seq<byte>) returns (end: nat)
    requires pos + |s| < out.Length
    modifies out
    ensures end == pos + |s|
    ensures out[..end] == old(out[..pos]) + s
  {
    CopyInto(out, pos, s + [0]);
    end := pos + |s|;
  }

  method AppendByte(out: array<byte>, pos: nat, b: byte) returns (end: nat)
    requires pos < out.Length
    modifies out
    ensures end == pos + 1
    ensures out[..end] == old(out[..pos]) + [b]
  {
    out[pos] := b;
    end := pos + 1;
  }

  function Separator(i: nat): seq<byte> {
    if i > 0 then [AMP] else []
  }

  lemma EncodeParamsStep(ps: seq<Pair>, i: nat)
    requires i < |ps|
    ensures EncodeParams(ps[..i + 1]) == EncodeParams(ps[..i]) + Separator(i) + EncodePair(ps[i])
  {
    hide EncodePair;
    assert ps[..i + 1][..i] == ps[..i];
  }

  method Quoted(s: seq<byte>) returns (q: seq<byte>)
    ensures q == QuotePlus(s)
  {
    var e := QuotePlusString(s);
    QuotePlain(s);
    StringOf(e, QuotePlus(s));
    q := CStr(e[..]);
  }

  method Unquoted(s: seq<byte>) returns (u: seq<byte>)
    ensures u == CStr(UnquotePlus(s))
  {
    var d := UnquotePlusString(s);
    StringOf(d, UnquotePlus(s));
    u := CStr(d[..]);
  }

  lemma PairText(done: seq<byte>, sep: seq<byte>, k: seq<byte>, v: seq<byte>)
    ensures done + sep + k + [EQUALS] + v == done + sep + (k + [EQUALS] + v)
  {
  }

  method WritePair(out: array<byte>, start: nat, i: nat, k: seq<byte>, v: seq<byte>) returns (pos: nat)
    requires start + (|k| + 1 + |v| + 1) < out.Length
    modifies out
    ensures pos < out.Length
    ensures out[..pos] == old(out[..start]) + Separator(i) + (k + [EQUALS] + v)
  {
    ghost var done := out[..start];
    pos := start;
    if i > 0 {
      pos := AppendByte(out, pos, AMP);
    }
    assert out[..pos] == done + Separator(i);
    PairText(done, Separator(i), k, v);
    hide *;
    pos := AppendString(out, pos, k);
    pos := AppendByte(out, pos, EQUALS);
    pos := AppendString(out, pos, v);
  }

  method AppendPair(buf: array<byte>, start: nat, i: nat, p: Pair) returns (out: array<byte>, pos: nat)
    requires start < buf.Length
    modifies buf
    ensures out == buf || fresh(out)
    ensures pos < out.Length
    ensures out[..pos] == old(buf[..start]) + Separator(i) + EncodePair(p)
  {
    var k := Quoted(p.key);
    var v := Quoted(p.value);
    hide QuotePlus, Separator;
    out := Reserve(buf, start, |k| + 1 + |v| + 1);
    pos := WritePair(out, start, i, k, v);
  }

  method AppendPairs(pairs: seq<Pair>) returns (out: array<byte>, pos: nat)
    ensures fresh(out) && pos < out.Length && out[..pos] == EncodeParams(pairs)
  {
    out, pos := new byte[256], 0;
    for i := 0 to |pairs|
      invariant fresh(out) && pos < out.Length
      invariant out[..pos] == EncodeParams(pairs[..i])
    {
      EncodeParamsStep(pairs, i);
      hide *;
      out, pos := AppendPair(out, pos, i, pairs[i]);
    }
    assert pairs[..|pairs|] == pairs;
  }

  /** However often the buffer has to grow, it ends up holding the whole text and its terminator. */
  method UrlEncodeParams(pairs: seq<Pair>) returns (out: array<byte>)
    ensures fresh(out) && HoldsString(out, EncodeParams(pairs))
  {
    if |pairs| == 0 {
      out := new byte[1];
      out[0] := 0;
      return;
    }
    var pos;
    hide EncodeParams;
    out, pos := AppendPairs(pairs);
    out[pos] := 0;
  }

  /** One call of strtok_r with "&": the next token and what is left of the text after it. */
  function NextToken(s: seq<byte>): (r: Option<(seq<byte>, seq<byte>)>)
    ensures r.Some? ==> |r.value.1| < |s|
  {
    if s == [] then None
    else if s[0] == AMP then NextToken(s[1..])
    else
      var n := Find(AMP, s);
      Some((s[..n], if n < |s| then s[n + 1..] else []))
  }

  lemma {:induction false} NextTokenFirst(s: seq<byte>)
    ensures match NextToken(s)
            case None => Tokens(s) == []
            case Some((token, rest)) => Tokens(s) == [token] + Tokens(rest)
  {
    if s != [] {
      if s[0] == AMP {
        NextTokenFirst(s[1..]);
      } else {
        var n := Find(AMP, s);
        if n < |s| {
          assert s[n..][0] == AMP && s[n..][1..] == s[n + 1..];
        }
      }
    }
  }

  method FindKey(params: seq<Pair>, name: seq<byte>) returns (dup: bool)
    ensures dup <==> HasKey(params, name)
  {
    for i := 0 to |params|
      invariant forall j :: 0 <= j < i ==> params[j].key != name
    {
      if params[i].key == name {
        return true;
      }
    }
    return false;
  }

  method ParseToken(params: array<Pair>, count: nat, token: seq<byte>) returns (out: array<Pair>, n: nat)
    requires count <= params.Length && 0 < params.Length
    modifies params
    ensures out == params || fresh(out)
    ensures n <= out.Length && 0 < out.Length
    ensures out[..n] == AddToken(old(params[..count]), token)
  {
    hide CStr, UnquotePlus, HasKey, Find;
    out, n := params, count;
    var e := Find(EQUALS, token);
    if e == |token| {
      return;
    }
    var name, value := token[..e], token[e + 1..];
    if value == [] {
      return;
    }
    var dn := Unquoted(name);
    var dv := Unquoted(value);
    out, n := AddNew(out, n, Pair(dn, dv));
  }

  /** Keeps the parameters found before when the name is taken. */
  method AddNew(params: array<Pair>, count: nat, p: Pair) returns (out: array<Pair>, n: nat)
    requires count <= params.Length && 0 < params.Length
    modifies params
    ensures out == params || fresh(out)
    ensures n <= out.Length && 0 < out.Length
    ensures out[..n] == if old(HasKey(params[..count], p.key)) then old(params[..count]) else old(params[..count]) + [p]
  {
    out, n := params, count;
    var dup := FindKey(params[..count], p.key);
    hide HasKey;
    if dup {
      return;
    }
    out := Append(params, count, p);
    n := count + 1;
  }

  lemma ParseTokensStep(tokens: seq<seq<byte>>, i: nat)
    requires i < |tokens|
    ensures ParseTokens(tokens[..i + 1]) == AddToken(ParseTokens(tokens[..i]), tokens[i])
  {
    hide AddToken;
    assert tokens[..i + 1][..i] == tokens[..i];
  }

  /** What strtok_r returned, as tokens. */
  function Ahead(token: Option<(seq<byte>, seq<byte>)>): seq<seq<byte>> {
    match token
    case None => []
    case Some((t, rest)) => [t] + Tokens(rest)
  }

  lemma TokenAhead(tokens: seq<seq<byte>>, i: nat, t: seq<byte>, rest: seq<byte>)
    requires i <= |tokens| && tokens[i..] == Ahead(Some((t, rest)))
    ensures i < |tokens| && tokens[i] == t && tokens[i + 1..] == Ahead(NextToken(rest))
  {
    assert tokens[i] == tokens[i..][0] && tokens[i + 1..] == tokens[i..][1..];
    NextTokenFirst(rest);
    hide Tokens, NextToken;
  }

  lemma TokenTaken(tokens: seq<seq<byte>>, i: nat, t: seq<byte>, rest: seq<byte>)
    requires i <= |tokens| && tokens[i..] == Ahead(Some((t, rest)))
    ensures i < |tokens| && tokens[i + 1..] == Ahead(NextToken(rest))
    ensures ParseTokens(tokens[..i + 1]) == AddToken(ParseTokens(tokens[..i]), t)
  {
    hide ParseTokens, Ahead, AddToken, NextToken;
    TokenAhead(tokens, i, t, rest);
    ParseTokensStep(tokens, i);
  }

  method ParseAll(qs: seq<byte>) returns (found: array<Pair>, count: nat)
    ensures fresh(found) && count <= found.Length && found[..count] == ParseQuery(qs)
  {
    found, count := new Pair[16](_ => Pair([], [])), 0;
    ghost var tokens, i: nat := Tokens(qs), 0;
    NextTokenFirst(qs);
    var token := NextToken(qs);
    hide Tokens, NextToken;
    assert tokens[..0] == [];
    while token.Some?
      invariant fresh(found) && count <= found.Length && 0 < found.Length
      invariant i <= |tokens| && found[..count] == ParseTokens(tokens[..i])
      invariant tokens[i..] == Ahead(token)
      decreases if token.Some? then 1 + |token.value.1| else 0
    {
      TokenTaken(tokens, i, token.value.0, token.value.1);
      hide *;
      found, count := ParseToken(found, count, token.value.0);
      i := i + 1;
      token := NextToken(token.value.1);
    }
    assert tokens[..i] == tokens;
  }

  /** NULL for the empty text, the parameters otherwise. */
  method ParseQueryParams(qs: seq<byte>) returns (params: array?<Pair>, count: nat)
    ensures params == null <==> qs == []
    ensures params == null ==> count == 0 && ParseQuery(qs) == []
    ensures params != null ==> fresh(params) && count <= params.Length && params[..count] == ParseQuery(qs)
  {
    count := 0;
    if qs == [] {
      params := null;
      return;
    }
    hide ParseQuery;
    params, count := ParseAll(qs);
  }
}
