/** The JSON parser of src/mini_json.c as functions of the text that is left. */
module MiniJson {
  import opened Bytes
  import opened CryptoHelpers
  import opened UrlEncode

  // ---------------------------------------------------------------- values

  /** Numbers keep their lexeme. */
  datatype Json = Null | Bool(b: bool) | Number(lexeme: seq<byte>) | String(s: seq<byte>)
    | Array(items: seq<Json>) | Object(members: seq<Member>)

  datatype Member = Member(key: seq<byte>, value: Json)

  /** The program stops with an error message, or reads past the end of its input. */
  datatype Error = Exit | Overread

  /** What was read and the text left after it. */
  datatype Result<+T> = Ok(value: T, rest: seq<byte>) | Fail(error: Error)

  function Prepend<T>(a: seq<T>, r: Result<seq<T>>): (q: Result<seq<T>>)
    ensures q.Ok? <==> r.Ok?
    ensures q.Ok? ==> q.rest == r.rest
  {
    match r
    case Ok(s, rest) => Ok(a + s, rest)
    case Fail(e) => Fail(e)
  }

  lemma PrependTwice<T>(a: seq<T>, b: seq<T>, r: Result<seq<T>>)
    ensures Prepend(a, Prepend(b, r)) == Prepend(a + b, r)
  {
    if r.Ok? {
      assert a + (b + r.value) == a + b + r.value;
    }
  }

  // ---------------------------------------------------------------- characters

  const QUOTE: byte := 0x22
  const BACKSLASH: byte := 0x5C
  const COMMA: byte := 0x2C
  const COLON: byte := 0x3A
  const OPEN_BRACKET: byte := 0x5B
  const CLOSE_BRACKET: byte := 0x5D
  const OPEN_BRACE: byte := 0x7B
  const CLOSE_BRACE: byte := 0x7D
  const LETTER_U: byte := 0x75
  const TRUE: seq<byte> := [0x74, 0x72, 0x75, 0x65]
  const FALSE: seq<byte> := [0x66, 0x61, 0x6C, 0x73, 0x65]
  const NULL: seq<byte> := [0x6E, 0x75, 0x6C, 0x6C]

  /** isspace in the C locale. */
  predicate IsSpace(c: byte) {
    c == 0x20 || 0x09 <= c <= 0x0D
  }

  /** One of "+-0123456789.eE". */
  predicate IsNumberChar(c: byte) {
    c == 0x2B || c == 0x2D || 0x30 <= c <= 0x39 || c == 0x2E || c == 0x65 || c == 0x45
  }

  predicate StartsWith(s: seq<byte>, c: byte) {
    s != [] && s[0] == c
  }

  function SkipWs(s: seq<byte>): (r: seq<byte>)
    ensures |r| <= |s|
    ensures r != [] ==> !IsSpace(r[0])
  {
    if s != [] && IsSpace(s[0]) then SkipWs(s[1..]) else s
  }

  // ---------------------------------------------------------------- strings

  /** What the letter after a backslash stands for. */
  function ShortEscape(e: byte): (r: Option<byte>)
    ensures e == 0 ==> r == None
  {
    if e == 0x22 || e == 0x5C || e == 0x2F then Some(e)
    else if e == 0x62 then Some(0x08)
    else if e == 0x66 then Some(0x0C)
    else if e == 0x6E then Some(0x0A)
    else if e == 0x72 then Some(0x0D)
    else if e == 0x74 then Some(0x09)
    else None
  }

  function AppendDigit(v: bv16, digit: byte): bv16 {
    (v << 4) | digit as bv16
  }

  /** The digits `s` starts with, read as a hexadecimal number after `v`. */
  function HexValue(v: bv16, s: seq<byte>): bv16
    decreases |s|
  {
    if s != [] && IsHex(s[0]) then HexValue(AppendDigit(v, HexNibble(s[0])), s[1..]) else v
  }

  /** strtol(h, NULL, 16) on at most four characters, as sign and magnitude: leading blanks, a sign and a 0x prefix
      are accepted, and reading stops at the first character that is no digit. */
  function Strtol16(h: seq<byte>): (bool, bv16) {
    var t := SkipWs(h);
    var negative := StartsWith(t, 0x2D);
    var u := if negative || StartsWith(t, 0x2B) then t[1..] else t;
    var prefixed := |u| > 2 && u[0] == 0x30 && (u[1] == 0x78 || u[1] == 0x58) && IsHex(u[2]);
    (negative, HexValue(0, if prefixed then u[2..] else u))
  }

  function Lead3(v: bv16): byte {
    0xE0 | (v >> 12) as byte
  }

  function Middle3(v: bv16): byte {
    0x80 | ((v >> 6) & 0x3F) as byte
  }

  function Lead2(v: bv16): byte
    requires v < 0x800
  {
    0xC0 | (v >> 6) as byte
  }

  function Last(v: bv16): byte {
    0x80 | (v & 0x3F) as byte
  }

  /** The bytes stored for a code point. */
  function Utf8(v: bv16): seq<byte> {
    if v < 0x80 then [v as byte]
    else if v < 0x800 then [Lead2(v), Last(v)]
    else [Lead3(v), Middle3(v), Last(v)]
  }

  /** (char)(-v). */
  function NegativeByte(v: bv16): byte {
    ((0 - v) & 0xFF) as byte
  }

  /** The bytes stored for what strtol returns; a negative number is cut to its low byte. */
  function Stored(n: (bool, bv16)): seq<byte> {
    if n.0 && n.1 != 0 then [NegativeByte(n.1)] else Utf8(n.1)
  }

  /** What the first character or escape of a string stands for. */
  function FirstUnit(s: seq<byte>): (r: Result<seq<byte>>)
    requires s != []
    ensures r.Ok? ==> |r.rest| < |s|
  {
    if s[0] != BACKSLASH then Ok([s[0]], s[1..])
    else if |s| < 2 then Fail(Exit)
    else if s[1] == LETTER_U then
      if |s| < 6 then Fail(Overread) else Ok(Stored(Strtol16(s[2..6])), s[6..])
    else
      match ShortEscape(s[1])
      case None => Fail(Exit)
      case Some(b) => Ok([b], s[2..])
  }

  /** The characters up to the closing quote, escapes replaced. */
  function ParseChars(s: seq<byte>): (r: Result<seq<byte>>)
    ensures r.Ok? ==> |r.rest| < |s|
    decreases |s|
  {
    if s == [] then Fail(Exit)
    else if s[0] == QUOTE then Ok([], s[1..])
    else
      match FirstUnit(s)
      case Ok(b, rest) => Prepend(b, ParseChars(rest))
      case Fail(e) => Fail(e)
  }

  /** The string as the rest of the program sees it: up to its first zero byte. */
  function ParseString(s: seq<byte>): (r: Result<seq<byte>>)
    ensures r.Ok? ==> |r.rest| < |s|
  {
    if !StartsWith(s, QUOTE) then Fail(Exit)
    else
      match ParseChars(s[1..])
      case Ok(t, rest) => Ok(CStr(t), rest)
      case Fail(e) => Fail(e)
  }

  // ---------------------------------------------------------------- numbers and words

  /** How many number characters `s` starts with. */
  function NumberSpan(s: seq<byte>): (n: nat)
    ensures n <= |s|
    ensures forall i :: 0 <= i < n ==> IsNumberChar(s[i])
    ensures n < |s| ==> !IsNumberChar(s[n])
  {
    if s == [] || !IsNumberChar(s[0]) then 0 else 1 + NumberSpan(s[1..])
  }

  const LEXEME_MAX := 127

  /** What the number buffer holds of a lexeme. */
  function Kept(lexeme: seq<byte>): seq<byte> {
    if |lexeme| <= LEXEME_MAX then lexeme else lexeme[..LEXEME_MAX]
  }

  /** Never fails; the lexeme may be empty, and only its first 127 characters are kept. */
  function ParseNumber(s: seq<byte>): (r: Result<Json>)
    ensures r.Ok? && |r.rest| <= |s| && r.value.Number?
  {
    var n := NumberSpan(s);
    Ok(Number(Kept(s[..n])), s[n..])
  }

  function ParseWord(s: seq<byte>, word: seq<byte>, v: Json): (r: Result<Json>)
    ensures r.Ok? ==> |r.rest| <= |s|
  {
    if word <= s then Ok(v, s[|word|..]) else Fail(Exit)
  }

  /** The word that a 't', an 'f' or an 'n' announces. */
  function WordValue(s: seq<byte>): (r: Result<Json>)
    ensures r.Ok? ==> |r.rest| <= |s| && (r.value.Null? || r.value.Bool?)
  {
    if StartsWith(s, 0x74) then ParseWord(s, TRUE, Bool(true))
    else if StartsWith(s, 0x66) then ParseWord(s, FALSE, Bool(false))
    else ParseWord(s, NULL, Null)
  }

  // ---------------------------------------------------------------- values

  /** Position never decreases, and every value but a number advances. */
  function ParseValue(s: seq<byte>): (r: Result<Json>)
    ensures r.Ok? ==> |r.rest| <= |s|
    ensures r.Ok? && !r.value.Number? ==> |r.rest| < |s|
    decreases |s|, 0
  {
    var t := SkipWs(s);
    if StartsWith(t, OPEN_BRACE) then ParseObject(t[1..])
    else if StartsWith(t, OPEN_BRACKET) then ParseArray(t[1..])
    else if StartsWith(t, QUOTE) then
      match ParseString(t)
      case Ok(str, rest) => Ok(String(str), rest)
      case Fail(e) => Fail(e)
    else if StartsWith(t, 0x74) || StartsWith(t, 0x66) || StartsWith(t, 0x6E) then WordValue(t)
    else ParseNumber(t)
  }

  /** What follows the opening brace. */
  function ParseObject(s: seq<byte>): (r: Result<Json>)
    ensures r.Ok? ==> |r.rest| < |s| && r.value.Object?
    decreases |s|, 2
  {
    var t := SkipWs(s);
    if StartsWith(t, CLOSE_BRACE) then Ok(Object([]), t[1..])
    else
      match ParseMembers(t)
      case Ok(ms, rest) => Ok(Object(ms), rest)
      case Fail(e) => Fail(e)
  }

  function ParseMember(s: seq<byte>): (r: Result<Member>)
    ensures r.Ok? ==> |r.rest| < |s|
    decreases |s|, 0
  {
    match ParseString(SkipWs(s))
    case Fail(e) => Fail(e)
    case Ok(key, r1) =>
      var r2 := SkipWs(r1);
      if !StartsWith(r2, COLON) then Fail(Exit)
      else
        match ParseValue(r2[1..])
        case Fail(e) => Fail(e)
        case Ok(v, r3) => Ok(Member(key, v), r3)
  }

  function ParseMembers(s: seq<byte>): (r: Result<seq<Member>>)
    ensures r.Ok? ==> |r.rest| < |s|
    decreases |s|, 1
  {
    match ParseMember(s)
    case Fail(e) => Fail(e)
    case Ok(m, r1) =>
      var r2 := SkipWs(r1);
      if StartsWith(r2, CLOSE_BRACE) then Ok([m], r2[1..])
      else if !StartsWith(r2, COMMA) then Fail(Exit)
      else Prepend([m], ParseMembers(r2[1..]))
  }

  /** What follows the opening bracket. */
  function ParseArray(s: seq<byte>): (r: Result<Json>)
    ensures r.Ok? ==> |r.rest| < |s| && r.value.Array?
    decreases |s|, 2
  {
    var t := SkipWs(s);
    if StartsWith(t, CLOSE_BRACKET) then Ok(Array([]), t[1..])
    else
      match ParseItems(t)
      case Ok(vs, rest) => Ok(Array(vs), rest)
      case Fail(e) => Fail(e)
  }

  function ParseItems(s: seq<byte>): (r: Result<seq<Json>>)
    ensures r.Ok? ==> |r.rest| < |s|
    decreases |s|, 1
  {
    match ParseValue(s)
    case Fail(e) => Fail(e)
    case Ok(v, r1) =>
      var r2 := SkipWs(r1);
      if StartsWith(r2, CLOSE_BRACKET) then Ok([v], r2[1..])
      else if !StartsWith(r2, COMMA) then Fail(Exit)
      else Prepend([v], ParseItems(r2[1..]))
  }

  // ---------------------------------------------------------------- four digits of an escape

  function JoinDigits(a: byte, b: byte, c: byte, d: byte): bv16 {
    (a as bv16 << 12) | (b as bv16 << 8) | (c as bv16 << 4) | d as bv16
  }

  function CodePoint(h: seq<byte>): bv16
    requires |h| == 4
  {
    JoinDigits(HexNibble(h[0]), HexNibble(h[1]), HexNibble(h[2]), HexNibble(h[3]))
  }

  predicate FourDigits(h: seq<byte>) {
    |h| == 4 && AnyDigit(h[0]) && AnyDigit(h[1]) && AnyDigit(h[2]) && AnyDigit(h[3])
  }

  lemma HexIsNoSign(c: byte)
    requires AnyDigit(c)
    ensures !IsSpace(c) && c != 0x2D && c != 0x2B && c != 0x78 && c != 0x58
  {
  }

  lemma DigitIsHex(c: byte)
    ensures IsHex(c) <==> AnyDigit(c)
  {
  }

  lemma AppendFour(a: byte, b: byte, c: byte, d: byte)
    ensures AppendDigit(AppendDigit(AppendDigit(AppendDigit(0, a), b), c), d) == JoinDigits(a, b, c, d)
  {
  }

  lemma HexStep(v: bv16, h: seq<byte>, i: nat)
    requires i < |h| && AnyDigit(h[i])
    ensures HexValue(v, h[i..]) == HexValue(AppendDigit(v, HexNibble(h[i])), h[i + 1..])
  {
    DigitIsHex(h[i]);
    hide IsHex, AnyDigit, HexNibble, AppendDigit;
  }

  lemma FourHexValue(h: seq<byte>)
    requires FourDigits(h)
    ensures HexValue(0, h) == CodePoint(h)
  {
    hide IsHex, AnyDigit, HexNibble, AppendDigit, JoinDigits;
    AppendFour(HexNibble(h[0]), HexNibble(h[1]), HexNibble(h[2]), HexNibble(h[3]));
    var v1 := AppendDigit(0, HexNibble(h[0]));
    var v2 := AppendDigit(v1, HexNibble(h[1]));
    var v3 := AppendDigit(v2, HexNibble(h[2]));
    assert h[0..] == h;
    HexStep(0, h, 0);
    HexStep(v1, h, 1);
    HexStep(v2, h, 2);
    HexStep(v3, h, 3);
  }

  /** Four hexadecimal digits are read as the number they write. */
  lemma StrtolOfDigits(h: seq<byte>)
    requires FourDigits(h)
    ensures Strtol16(h) == (false, CodePoint(h))
  {
    HexIsNoSign(h[0]);
    HexIsNoSign(h[1]);
    FourHexValue(h);
    DigitIsHex(h[2]);
    hide IsHex, AnyDigit, CodePoint, HexValue, IsSpace;
  }

  /** The blanks of the C locale: the space and the five characters from tab to carriage return. */
  predicate BlankByte(c: byte) {
    c == 0x20 || c == 0x09 || c == 0x0A || c == 0x0B || c == 0x0C || c == 0x0D
  }

  predicate Blank(ws: seq<byte>) {
    forall i :: 0 <= i < |ws| ==> BlankByte(ws[i])
  }

  lemma SpaceIsBlank(c: byte)
    ensures IsSpace(c) <==> BlankByte(c)
  {
  }

  /** What hexadecimal digits say, modulo 2^16. */
  function Said(digits: seq<byte>): bv16 {
    if digits == [] then 0 else AppendDigit(Said(digits[..|digits| - 1]), HexNibble(digits[|digits| - 1]))
  }

  lemma {:induction false} ValueSaid(before: seq<byte>, digits: seq<byte>, rest: seq<byte>)
    requires (forall i :: 0 <= i < |digits| ==> AnyDigit(digits[i])) && (rest == [] || !AnyDigit(rest[0]))
    ensures HexValue(Said(before), digits + rest) == Said(before + digits)
    decreases |digits|
  {
    hide AnyDigit, IsHex, HexNibble, AppendDigit;
    var s := digits + rest;
    if digits == [] {
      assert s == rest && before + digits == before;
      if rest != [] {
        DigitIsHex(rest[0]);
      }
    } else {
      DigitIsHex(s[0]);
      var next := before + [digits[0]];
      assert next[..|before|] == before;
      assert s[1..] == digits[1..] + rest && next + digits[1..] == before + digits;
      ValueSaid(next, digits[1..], rest);
    }
  }

  /** Behind the sign, the form strtol reads: digits with or without 0x before them, up to something else. */
  predicate Numeral(prefix: seq<byte>, digits: seq<byte>, rest: seq<byte>) {
    && (forall i :: 0 <= i < |digits| ==> AnyDigit(digits[i]))
    && (rest == [] || !AnyDigit(rest[0]))
    && (prefix == [] || ((prefix == [0x30, 0x78] || prefix == [0x30, 0x58]) && digits != []))
    && (prefix == [] && digits == [0x30] && |rest| > 1 ==> !((rest[0] == 0x78 || rest[0] == 0x58) && AnyDigit(rest[1])))
  }

  /** A sign, or none where no sign could be read. */
  predicate Signed(sign: seq<byte>, t: seq<byte>) {
    || sign == [0x2B] || sign == [0x2D]
    || (sign == [] && (t == [] || (!BlankByte(t[0]) && t[0] != 0x2B && t[0] != 0x2D)))
  }

  lemma NumeralRead(prefix: seq<byte>, digits: seq<byte>, rest: seq<byte>)
    requires Numeral(prefix, digits, rest)
    ensures var u := prefix + digits + rest;
            var prefixed := |u| > 2 && u[0] == 0x30 && (u[1] == 0x78 || u[1] == 0x58) && IsHex(u[2]);
            HexValue(0, if prefixed then u[2..] else u) == Said(digits)
  {
    hide Said, HexValue, AnyDigit, IsHex;
    var u := prefix + digits + rest;
    ValueSaid([], digits, rest);
    assert Said([]) == 0 by {
      NothingSaid();
    }
    assert [] + digits == digits;
    if prefix != [] {
      DigitIsHex(digits[0]);
      assert u[2] == digits[0] && u[2..] == digits + rest;
    } else {
      assert u == digits + rest;
      NotPrefixed(digits, rest);
    }
  }

  lemma NothingSaid()
    ensures Said([]) == 0
  {
  }

  lemma NotPrefixed(digits: seq<byte>, rest: seq<byte>)
    requires Numeral([], digits, rest)
    ensures var u := digits + rest; !(|u| > 2 && u[0] == 0x30 && (u[1] == 0x78 || u[1] == 0x58) && IsHex(u[2]))
  {
    var u := digits + rest;
    if |digits| > 1 {
      assert u[1] == digits[1];
    } else if |digits| == 1 && |u| > 2 {
      assert u[1] == rest[0] && u[2] == rest[1];
    }
  }

  lemma SignRead(sign: seq<byte>, t: seq<byte>)
    requires Signed(sign, t)
    ensures var s := sign + t;
            && SkipWs(s) == s && (StartsWith(s, 0x2D) <==> sign == [0x2D])
            && (if StartsWith(s, 0x2D) || StartsWith(s, 0x2B) then s[1..] else s) == t
  {
    var s := sign + t;
    if sign == [] {
      assert s == t;
      if t != [] {
        SpaceIsBlank(t[0]);
      }
    } else {
      assert s[1..] == t;
    }
  }

  /** Every form strtol reads in base 16: blanks, a sign, a prefix, digits; what follows is left. */
  lemma StrtolText(ws: seq<byte>, sign: seq<byte>, prefix: seq<byte>, digits: seq<byte>, rest: seq<byte>)
    requires Blank(ws)
    requires Signed(sign, prefix + digits + rest) && Numeral(prefix, digits, rest)
    ensures Strtol16(ws + (sign + (prefix + digits + rest))) == (sign == [0x2D], Said(digits))
  {
    hide Said, HexValue, Numeral, IsHex, Blank, Signed, SkipWs, StartsWith;
    var u := prefix + digits + rest;
    NumeralRead(prefix, digits, rest);
    SkipBlanks(ws, sign + u);
    SignRead(sign, u);
  }

  lemma {:induction false} SkipBlanks(ws: seq<byte>, t: seq<byte>)
    requires Blank(ws)
    ensures SkipWs(ws + t) == SkipWs(t)
  {
    if ws == [] {
      assert ws + t == t;
    } else {
      SpaceIsBlank(ws[0]);
      hide IsSpace, BlankByte;
      SkipBlanks(ws[1..], t);
      assert (ws + t)[1..] == ws[1..] + t;
    }
  }

  /** A negative number is stored as the one byte that adds up to a multiple of 256 with it. */
  lemma StoredNegative(v: bv16)
    ensures |Stored((true, v))| == 1 && (Stored((true, v))[0] as bv16 + v) & 0xFF == 0
  {
  }

  // ---------------------------------------------------------------- UTF-8

  predicate IsTail(b: byte) {
    0x80 <= b <= 0xBF
  }

  predicate Lead3Allows(b0: byte, b1: byte) {
    || (b0 == 0xE0 && 0xA0 <= b1 <= 0xBF)
    || (0xE1 <= b0 <= 0xEC && IsTail(b1))
    || (b0 == 0xED && 0x80 <= b1 <= 0x9F)
    || (0xEE <= b0 <= 0xEF && IsTail(b1))
  }

  function Join2(b0: byte, b1: byte): bv16 {
    ((b0 & 0x1F) as bv16 << 6) | (b1 & 0x3F) as bv16
  }

  function Join3(b0: byte, b1: byte, b2: byte): bv16 {
    ((b0 & 0x0F) as bv16 << 12) | ((b1 & 0x3F) as bv16 << 6) | (b2 & 0x3F) as bv16
  }

  /** The code point of a sequence of one to three bytes that RFC 3629 section 4 allows. */
  function Utf8Decode(s: seq<byte>): Option<bv16> {
    if |s| == 1 && s[0] <= 0x7F then Some(s[0] as bv16)
    else if |s| == 2 && 0xC2 <= s[0] <= 0xDF && IsTail(s[1]) then Some(Join2(s[0], s[1]))
    else if |s| == 3 && Lead3Allows(s[0], s[1]) && IsTail(s[2]) then Some(Join3(s[0], s[1], s[2]))
    else None
  }

  predicate IsSurrogate(v: bv16) {
    0xD800 <= v <= 0xDFFF
  }

  lemma LastIsTail(v: bv16)
    ensures IsTail(Last(v))
  {
  }

  lemma Lead2Range(v: bv16)
    requires 0x80 <= v < 0x800
    ensures 0xC2 <= Lead2(v) <= 0xDF
  {
  }

  lemma Join2Parts(v: bv16)
    requires v < 0x800
    ensures Join2(Lead2(v), Last(v)) == v
  {
  }

  lemma Lead3OfParts(v: bv16)
    requires 0x800 <= v
    ensures Lead3Allows(Lead3(v), Middle3(v)) <==> !IsSurrogate(v)
  {
  }

  lemma Join3Parts(v: bv16)
    ensures Join3(Lead3(v), Middle3(v), Last(v)) == v
  {
  }

  /** An escape is stored as the UTF-8 of its code point exactly when it is not half of a surrogate pair. */
  lemma Utf8IsStandard(v: bv16)
    ensures Utf8Decode(Utf8(v)) == Some(v) <==> !IsSurrogate(v)
  {
    hide Lead2, Lead3, Middle3, Last, Join2, Join3, Lead3Allows, IsTail;
    LastIsTail(v);
    if v < 0x80 {
      assert !IsSurrogate(v) && [v as byte][0] <= 0x7F;
    } else if v < 0x800 {
      Lead2Range(v);
      Join2Parts(v);
    } else {
      Lead3OfParts(v);
      Join3Parts(v);
    }
  }

  lemma Utf8ZeroFree(v: bv16)
    requires v != 0
    ensures ZeroFree(Utf8(v))
  {
  }

  // ---------------------------------------------------------------- beyond RFC 8259

  lemma SkipTwice(s: seq<byte>)
    ensures SkipWs(SkipWs(s)) == SkipWs(s)
  {
  }

  predicate StartsValue(t: seq<byte>) {
    t != [] && (IsNumberChar(t[0]) || StartsOther(t))
  }

  predicate StartsOther(t: seq<byte>) {
    StartsWith(t, OPEN_BRACE) || StartsWith(t, OPEN_BRACKET) || StartsWith(t, QUOTE)
    || StartsWith(t, 0x74) || StartsWith(t, 0x66) || StartsWith(t, 0x6E)
  }

  lemma OnlyNumbers(s: seq<byte>)
    ensures StartsOther(SkipWs(s)) ==> ParseValue(s).Fail? || !ParseValue(s).value.Number?
    ensures !StartsOther(SkipWs(s)) ==> ParseValue(s) == ParseNumber(SkipWs(s))
  {
    hide SkipWs, ParseString, ParseObject, ParseArray, ParseNumber, WordValue;
  }

  lemma NumberIsEmpty(t: seq<byte>)
    ensures ParseNumber(t).value == Number([]) <==> t == [] || !IsNumberChar(t[0])
    ensures ParseNumber(t).value == Number([]) ==> ParseNumber(t).rest == t
  {
    hide IsNumberChar;
  }

  /** Where no value starts, the parser reads a number without characters instead of failing, and nowhere else. */
  lemma EmptyNumber(s: seq<byte>)
    ensures ParseValue(s) == Ok(Number([]), SkipWs(s)) <==> !StartsValue(SkipWs(s))
    ensures ParseValue(s).Ok? && ParseValue(s).value == Number([]) ==> ParseValue(s).rest == SkipWs(s)
  {
    OnlyNumbers(s);
    NumberIsEmpty(SkipWs(s));
    NoneStarts(SkipWs(s));
    hide IsNumberChar, SkipWs, ParseValue, ParseNumber, StartsOther;
  }

  lemma NoneStarts(t: seq<byte>)
    ensures t == [] ==> !StartsOther(t)
  {
  }

  function Nodes(v: Json): nat {
    match v
    case Array(items) => 1 + NodesOfItems(items)
    case Object(members) => 1 + NodesOfMembers(members)
    case _ => 1
  }

  function NodesOfItems(vs: seq<Json>): nat {
    if vs == [] then 0 else Nodes(vs[0]) + NodesOfItems(vs[1..])
  }

  function NodesOfMembers(ms: seq<Member>): nat {
    if ms == [] then 0 else Nodes(ms[0].value) + NodesOfMembers(ms[1..])
  }

  /** Numbers without characters cannot make the parser build without end: a tree has at most one node more than the
      characters it was read from. */
  lemma {:induction false} NodesArePaidFor(s: seq<byte>)
    ensures ParseValue(s).Ok? ==> Nodes(ParseValue(s).value) + |ParseValue(s).rest| <= |s| + 1
    ensures ParseValue(s).Ok? && !ParseValue(s).value.Number? ==>
              Nodes(ParseValue(s).value) + |ParseValue(s).rest| <= |s|
    decreases |s|, 0
  {
    hide SkipWs, ParseString, ParseNumber, WordValue, ParseItems, ParseMembers;
    var t := SkipWs(s);
    if StartsWith(t, OPEN_BRACKET) {
      ItemsArePaidFor(SkipWs(t[1..]));
    } else if StartsWith(t, OPEN_BRACE) {
      MembersArePaidFor(SkipWs(t[1..]));
    }
  }

  lemma {:induction false} ItemsArePaidFor(s: seq<byte>)
    ensures ParseItems(s).Ok? ==> NodesOfItems(ParseItems(s).value) + |ParseItems(s).rest| <= |s|
    decreases |s|, 1
  {
    NodesArePaidFor(s);
    if ParseValue(s).Ok? {
      var r2 := SkipWs(ParseValue(s).rest);
      if StartsWith(r2, COMMA) {
        ItemsArePaidFor(r2[1..]);
      }
    }
    hide ParseValue, Nodes, SkipWs;
  }

  lemma {:induction false} MembersArePaidFor(s: seq<byte>)
    ensures ParseMembers(s).Ok? ==> NodesOfMembers(ParseMembers(s).value) + |ParseMembers(s).rest| <= |s|
    decreases |s|, 1
  {
    if ParseMember(s).Ok? {
      var m := ParseMember(s);
      MemberIsPaidFor(s);
      var r2 := SkipWs(m.rest);
      if StartsWith(r2, COMMA) {
        MembersArePaidFor(r2[1..]);
      }
    }
    hide ParseMember, Nodes, SkipWs;
  }

  lemma {:induction false} MemberIsPaidFor(s: seq<byte>)
    requires ParseMember(s).Ok?
    ensures Nodes(ParseMember(s).value.value) + |ParseMember(s).rest| <= |s|
    decreases |s|, 0
  {
    var r2 := SkipWs(ParseString(SkipWs(s)).rest);
    NodesArePaidFor(r2[1..]);
    hide ParseString, ParseValue, Nodes, SkipWs;
  }
}
