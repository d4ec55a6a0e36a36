/** JSON texts with every layout and spelling the parser reads, and what they stand for. */
module JsonText {
  import opened Bytes
  import opened CryptoHelpers
  import opened UrlEncode
  import opened MiniJson

  // ---------------------------------------------------------------- printing

  /** One character of a string literal: itself, a short escape, or a \u escape with the four characters after it,
      digits or not. */
  datatype Unit = Raw(b: byte) | Short(letter: byte) | Code(h: seq<byte>)

  predicate ValidUnit(u: Unit) {
    match u
    case Raw(b) => b != 0x22 && b != 0x5C  // neither quote nor backslash
    case Short(letter) => ShortEscape(letter).Some?
    case Code(h) => |h| == 4
  }

  function UnitText(u: Unit): seq<byte> {
    match u
    case Raw(b) => [b]
    case Short(letter) => [0x5C, letter]
    case Code(h) => [0x5C, 0x75] + h
  }

  function UnitValue(u: Unit): seq<byte>
    requires ValidUnit(u)
  {
    match u
    case Raw(b) => [b]
    case Short(letter) => [ShortEscape(letter).value]
    case Code(h) => Stored(Strtol16(h))
  }

  predicate ValidUnits(us: seq<Unit>) {
    forall i :: 0 <= i < |us| ==> ValidUnit(us[i])
  }

  /** The units, the closing quote, then `rest`. */
  function CharsText(us: seq<Unit>, rest: seq<byte>): seq<byte> {
    if us == [] then [0x22] + rest else UnitText(us[0]) + CharsText(us[1..], rest)
  }

  function CharsValue(us: seq<Unit>): seq<byte>
    requires ValidUnits(us)
  {
    if us == [] then [] else UnitValue(us[0]) + CharsValue(us[1..])
  }

  lemma FirstUnitOfText(u: Unit, rest: seq<byte>)
    requires ValidUnit(u)
    ensures var s := UnitText(u) + rest; s[0] != QUOTE && FirstUnit(s) == Ok(UnitValue(u), rest)
  {
    hide Strtol16, Stored;
    var s := UnitText(u) + rest;
    match u
    case Raw(b) =>
      assert s[1..] == rest;
    case Short(letter) =>
      assert s[2..] == rest;
    case Code(h) =>
      assert s[2..6] == h && s[6..] == rest;
  }

  /** Every choice of units parses back to the bytes it stands for, and parsing stops after the quote. */
  lemma {:induction false} ParseCharsText(us: seq<Unit>, rest: seq<byte>)
    requires ValidUnits(us)
    ensures ParseChars(CharsText(us, rest)) == Ok(CharsValue(us), rest)
  {
    hide ValidUnit, UnitText, UnitValue, FirstUnit;
    if us == [] {
      assert CharsText(us, rest)[1..] == rest;
    } else {
      FirstUnitOfText(us[0], CharsText(us[1..], rest));
      ParseCharsText(us[1..], rest);
    }
  }

  function StringText(us: seq<Unit>, rest: seq<byte>): seq<byte> {
    [0x22] + CharsText(us, rest)
  }

  /** The string as C sees it. */
  function StringValue(us: seq<Unit>): seq<byte>
    requires ValidUnits(us)
  {
    CStr(CharsValue(us))
  }

  lemma ParseStringText(us: seq<Unit>, rest: seq<byte>)
    requires ValidUnits(us)
    ensures ParseString(StringText(us, rest)) == Ok(StringValue(us), rest)
  {
    hide ParseChars, CharsText, CharsValue, CStr;
    ParseCharsText(us, rest);
    assert StringText(us, rest)[1..] == CharsText(us, rest);
  }

  /** A JSON text with a chosen layout: blanks before the value, then the value. */
  datatype Doc = Doc(before: seq<byte>, body: Body)

  datatype Body =
    | NullWord
    | TrueWord
    | FalseWord
    | Num(lexeme: seq<byte>)
    | Str(units: seq<Unit>)
    | EmptyArray(inside: seq<byte>)
    | Items(items: ItemList)
    | EmptyObject(inside: seq<byte>)
    | Members(members: MemberList)

  datatype ItemList =
    | LastItem(item: Doc, after: seq<byte>)
    | MoreItems(item: Doc, after: seq<byte>, more: ItemList)

  datatype MemberList =
    | LastMember(m: MemberDoc, after: seq<byte>)
    | MoreMembers(m: MemberDoc, after: seq<byte>, more: MemberList)

  datatype MemberDoc = MemberDoc(before: seq<byte>, key: seq<Unit>, middle: seq<byte>, value: Doc)

  /** A number may lack all its characters. */
  predicate Lexeme(s: seq<byte>) {
    forall i :: 0 <= i < |s| ==> IsNumberChar(s[i])
  }

  /** Nothing is written for the value. */
  predicate Missing(d: Doc) {
    d.body == Num([])
  }

  /** Blanks go to the value they stand before, so that a text has one layout only: none follow a missing value, and
      an array of one missing item is an empty array. */
  predicate ValidDoc(d: Doc) {
    Blank(d.before) && ValidBody(d.body)
  }

  predicate ValidBody(b: Body) {
    match b
    case Num(lexeme) => Lexeme(lexeme)
    case Str(units) => ValidUnits(units)
    case EmptyArray(inside) => Blank(inside)
    case EmptyObject(inside) => Blank(inside)
    case Items(items) => ValidItems(items) && !(items.LastItem? && Missing(items.item))
    case Members(members) => ValidMembers(members)
    case _ => true
  }

  predicate ValidItems(l: ItemList) {
    ValidDoc(l.item) && Blank(l.after) && (Missing(l.item) ==> l.after == []) && (l.MoreItems? ==> ValidItems(l.more))
  }

  predicate ValidMembers(l: MemberList) {
    ValidMember(l.m) && Blank(l.after) && (Missing(l.m.value) ==> l.after == [])
    && (l.MoreMembers? ==> ValidMembers(l.more))
  }

  predicate ValidMember(m: MemberDoc) {
    Blank(m.before) && ValidUnits(m.key) && Blank(m.middle) && ValidDoc(m.value)
  }

  /** Blanks, the character `c`, then `rest`. */
  function Then(ws: seq<byte>, c: byte, rest: seq<byte>): seq<byte> {
    ws + ([c] + rest)
  }

  /** The text of the value, then `rest`, spelled with the literal characters of the grammar. */
  function DocText(d: Doc, rest: seq<byte>): seq<byte> {
    d.before + BodyText(d.body, rest)
  }

  function BodyText(b: Body, rest: seq<byte>): seq<byte> {
    match b
    case NullWord => [0x6E, 0x75, 0x6C, 0x6C] + rest
    case TrueWord => [0x74, 0x72, 0x75, 0x65] + rest
    case FalseWord => [0x66, 0x61, 0x6C, 0x73, 0x65] + rest
    case Num(lexeme) => lexeme + rest
    case Str(units) => StringText(units, rest)
    case EmptyArray(inside) => [0x5B] + Then(inside, 0x5D, rest)
    case Items(items) => [0x5B] + ItemsText(items, rest)
    case EmptyObject(inside) => [0x7B] + Then(inside, 0x7D, rest)
    case Members(members) => [0x7B] + MembersText(members, rest)
  }

  function ItemsText(l: ItemList, rest: seq<byte>): seq<byte> {
    match l
    case LastItem(item, after) => DocText(item, Then(after, 0x5D, rest))
    case MoreItems(item, after, more) => DocText(item, Then(after, 0x2C, ItemsText(more, rest)))
  }

  function MembersText(l: MemberList, rest: seq<byte>): seq<byte> {
    match l
    case LastMember(m, after) => MemberText(m, Then(after, 0x7D, rest))
    case MoreMembers(m, after, more) => MemberText(m, Then(after, 0x2C, MembersText(more, rest)))
  }

  function MemberText(m: MemberDoc, rest: seq<byte>): seq<byte> {
    m.before + StringText(m.key, Then(m.middle, 0x3A, DocText(m.value, rest)))
  }

  /** The tree a text stands for. */
  function DocValue(d: Doc): Json
    requires ValidDoc(d)
  {
    BodyValue(d.body)
  }

  function BodyValue(b: Body): Json
    requires ValidBody(b)
  {
    match b
    case NullWord => Null
    case TrueWord => Bool(true)
    case FalseWord => Bool(false)
    case Num(lexeme) => Number(if |lexeme| <= 127 then lexeme else lexeme[..127])
    case Str(units) => String(StringValue(units))
    case EmptyArray(_) => Array([])
    case Items(items) => Array(ItemValues(items))
    case EmptyObject(_) => Object([])
    case Members(members) => Object(MemberValues(members))
  }

  function ItemValues(l: ItemList): seq<Json>
    requires ValidItems(l)
  {
    if l.LastItem? then [DocValue(l.item)] else [DocValue(l.item)] + ItemValues(l.more)
  }

  function MemberValues(l: MemberList): seq<Member>
    requires ValidMembers(l)
  {
    if l.LastMember? then [MemberValue(l.m)] else [MemberValue(l.m)] + MemberValues(l.more)
  }

  function MemberValue(m: MemberDoc): Member
    requires ValidMember(m)
  {
    Member(StringValue(m.key), DocValue(m.value))
  }

  // ---------------------------------------------------------------- parsing what was printed

  lemma SkipThen(ws: seq<byte>, c: byte, rest: seq<byte>)
    requires Blank(ws) && !IsSpace(c)
    ensures SkipWs(Then(ws, c, rest)) == [c] + rest
  {
    SkipBlanks(ws, [c] + rest);
    hide IsSpace, Blank;
  }

  /** A number lexeme cannot go on in `rest`. */
  predicate EndsNumber(rest: seq<byte>) {
    rest == [] || !IsNumberChar(rest[0])
  }

  /** A missing value ends where neither a blank nor another value starts. */
  predicate Continues(rest: seq<byte>) {
    rest != [] && (IsSpace(rest[0]) || StartsOther(rest))
  }

  /** A value of this form ends where `rest` begins. */
  predicate Stops(b: Body, rest: seq<byte>) {
    b.Num? ==> EndsNumber(rest) && (b.lexeme == [] ==> !Continues(rest))
  }

  lemma SeparatorEnds(c: byte, rest: seq<byte>)
    requires c == COMMA || c == CLOSE_BRACKET || c == CLOSE_BRACE
    ensures EndsNumber([c] + rest) && !Continues([c] + rest) && !IsSpace(c)
  {
  }

  lemma BlankEnds(ws: seq<byte>, rest: seq<byte>)
    requires Blank(ws) && ws != []
    ensures EndsNumber(ws + rest)
  {
    SpaceIsBlank(ws[0]);
    assert IsSpace((ws + rest)[0]);
  }

  lemma ThenStops(d: Doc, ws: seq<byte>, c: byte, rest: seq<byte>)
    requires Blank(ws) && (c == COMMA || c == CLOSE_BRACKET || c == CLOSE_BRACE)
    requires Missing(d) ==> ws == []
    ensures Stops(d.body, Then(ws, c, rest))
  {
    hide EndsNumber, Continues, Blank;
    SeparatorEnds(c, rest);
    if ws == [] {
      assert ws + ([c] + rest) == [c] + rest;
    } else {
      BlankEnds(ws, [c] + rest);
    }
  }

  lemma {:induction false} SpanOfLexeme(s: seq<byte>, rest: seq<byte>)
    requires EndsNumber(rest) && forall i :: 0 <= i < |s| ==> IsNumberChar(s[i])
    ensures NumberSpan(s + rest) == |s|
  {
    if s == [] {
      assert s + rest == rest;
    } else {
      hide IsNumberChar;
      SpanOfLexeme(s[1..], rest);
      assert (s + rest)[1..] == s[1..] + rest;
    }
  }

  /** Blanks before a value do not matter. */
  lemma ParseBlankValue(ws: seq<byte>, t: seq<byte>)
    requires Blank(ws)
    ensures ParseValue(ws + t) == ParseValue(t)
  {
    SkipBlanks(ws, t);
    hide SkipWs, Blank, ParseString, ParseNumber, ParseWord, ParseObject, ParseArray;
  }

  lemma ParseSkippedItems(s: seq<byte>)
    ensures ParseItems(SkipWs(s)) == ParseItems(s)
  {
    SkipTwice(s);
    assert ParseValue(SkipWs(s)) == ParseValue(s) by {
      hide SkipWs, ParseString, ParseNumber, ParseWord, ParseObject, ParseArray;
    }
    hide SkipWs, ParseValue;
  }

  lemma ParseSkippedMembers(s: seq<byte>)
    ensures ParseMembers(SkipWs(s)) == ParseMembers(s)
  {
    SkipTwice(s);
    assert ParseMember(SkipWs(s)) == ParseMember(s) by {
      hide SkipWs, ParseString, ParseValue;
    }
    hide SkipWs, ParseMember;
  }

  lemma ParseWordText(word: seq<byte>, rest: seq<byte>, v: Json)
    ensures ParseWord(word + rest, word, v) == Ok(v, rest)
  {
    assert (word + rest)[|word|..] == rest;
  }

  /** A value of one token. */
  lemma ParseWordBody(b: Body, rest: seq<byte>)
    requires b.NullWord? || b.TrueWord? || b.FalseWord?
    ensures ParseValue(BodyText(b, rest)) == Ok(BodyValue(b), rest)
  {
    ParseWordText(NULL, rest, Null);
    ParseWordText(TRUE, rest, Bool(true));
    ParseWordText(FALSE, rest, Bool(false));
    hide ParseWord;
  }

  lemma NumberCharIsPlain(c: byte)
    requires IsNumberChar(c)
    ensures !IsSpace(c) && c != OPEN_BRACE && c != OPEN_BRACKET && c != QUOTE && c != 0x74 && c != 0x66 && c != 0x6E
    ensures c != CLOSE_BRACKET
  {
  }

  lemma ParseNumBody(lexeme: seq<byte>, rest: seq<byte>)
    requires Lexeme(lexeme) && Stops(Num(lexeme), rest)
    ensures ParseValue(lexeme + rest) == Ok(Number(Kept(lexeme)), rest)
  {
    hide NumberSpan, Kept, ParseValue;
    var s := lexeme + rest;
    SpanOfLexeme(lexeme, rest);
    assert s[..|lexeme|] == lexeme && s[|lexeme|..] == rest;
    NumberTextStarts(lexeme, rest);
    OnlyNumbers(s);
  }

  lemma NumberTextStarts(lexeme: seq<byte>, rest: seq<byte>)
    requires Lexeme(lexeme) && (lexeme == [] ==> !Continues(rest))
    ensures SkipWs(lexeme + rest) == lexeme + rest && !StartsOther(lexeme + rest)
  {
    var s := lexeme + rest;
    if lexeme == [] {
      assert s == rest;
    } else {
      assert s[0] == lexeme[0];
      NumberCharIsPlain(s[0]);
      hide IsNumberChar, IsSpace;
    }
  }

  lemma ParseStrBody(units: seq<Unit>, rest: seq<byte>)
    requires ValidUnits(units)
    ensures ParseValue(StringText(units, rest)) == Ok(String(StringValue(units)), rest)
  {
    ParseStringText(units, rest);
    StringStarts(units, rest);
    hide CharsText, StringValue, ParseString, ParseObject, ParseArray, ParseNumber, WordValue, StringText, SkipWs;
  }

  lemma StringStarts(units: seq<Unit>, rest: seq<byte>)
    ensures var s := StringText(units, rest); StartsWith(s, QUOTE) && SkipWs(s) == s
  {
    hide CharsText;
  }

  lemma ParseEmptyBody(inside: seq<byte>, rest: seq<byte>)
    requires Blank(inside)
    ensures ParseValue([OPEN_BRACKET] + Then(inside, CLOSE_BRACKET, rest)) == Ok(Array([]), rest)
    ensures ParseValue([OPEN_BRACE] + Then(inside, CLOSE_BRACE, rest)) == Ok(Object([]), rest)
  {
    SkipThen(inside, CLOSE_BRACKET, rest);
    SkipThen(inside, CLOSE_BRACE, rest);
    var a := [OPEN_BRACKET] + Then(inside, CLOSE_BRACKET, rest);
    var o := [OPEN_BRACE] + Then(inside, CLOSE_BRACE, rest);
    assert a[1..] == Then(inside, CLOSE_BRACKET, rest) && o[1..] == Then(inside, CLOSE_BRACE, rest);
    assert SkipWs(a) == a && SkipWs(o) == o;
    hide SkipWs, Then, ParseString, ParseNumber, ParseWord, ParseItems, ParseMembers;
  }

  /** No value that is written starts with a blank or a closing bracket. */
  lemma BodyStart(b: Body, rest: seq<byte>)
    requires ValidBody(b) && b != Num([])
    ensures BodyText(b, rest) != []
    ensures var c := BodyText(b, rest)[0]; !IsSpace(c) && c != CLOSE_BRACKET
  {
    if b.Num? {
      NumberCharIsPlain(b.lexeme[0]);
      assert BodyText(b, rest)[0] == b.lexeme[0];
      hide IsSpace, IsNumberChar;
    } else {
      hide ItemsText, MembersText, Then, CharsText, IsNumberChar;
    }
  }

  /** The text of a value does not start with a blank. */
  lemma BodyNotBlank(b: Body, rest: seq<byte>)
    requires ValidBody(b) && Stops(b, rest)
    ensures SkipWs(BodyText(b, rest)) == BodyText(b, rest)
  {
    if b == Num([]) {
      assert BodyText(b, rest) == rest;
    } else {
      BodyStart(b, rest);
      hide BodyText, IsSpace, Stops, ValidBody;
    }
  }

  lemma OpenItems(l: ItemList, rest: seq<byte>)
    requires ValidBody(Items(l)) && ParseItems(ItemsText(l, rest)) == Ok(ItemValues(l), rest)
    ensures ParseValue([OPEN_BRACKET] + ItemsText(l, rest)) == Ok(Array(ItemValues(l)), rest)
  {
    var t := ItemsText(l, rest);
    var s := [OPEN_BRACKET] + t;
    assert s[1..] == t && SkipWs(s) == s;
    ParseSkippedItems(t);
    ItemsStart(l, rest);
    hide SkipWs, ItemsText, ItemValues, ValidItems, ParseItems, ParseString, ParseNumber, ParseWord, ParseObject;
  }

  lemma ItemsStart(l: ItemList, rest: seq<byte>)
    requires ValidBody(Items(l))
    ensures !StartsWith(SkipWs(ItemsText(l, rest)), CLOSE_BRACKET)
  {
    hide BodyText, SkipWs, Then, Blank, IsSpace;
    assert ValidItems(l) && ValidDoc(l.item);
    var next := if l.LastItem? then rest else ItemsText(l.more, rest);
    var c := if l.LastItem? then CLOSE_BRACKET else COMMA;
    var k := Then(l.after, c, next);
    assert ItemsText(l, rest) == DocText(l.item, k);
    ThenStops(l.item, l.after, c, next);
    SkipBlanks(l.item.before, BodyText(l.item.body, k));
    BodyNotBlank(l.item.body, k);
    if Missing(l.item) {
      MissingText(k, next);
    } else {
      BodyStart(l.item.body, k);
    }
  }

  lemma MissingText(k: seq<byte>, next: seq<byte>)
    ensures BodyText(Num([]), k) == k && !StartsWith(Then([], COMMA, next), CLOSE_BRACKET)
  {
    assert [] + k == k;
  }

  lemma OpenMembers(l: MemberList, rest: seq<byte>)
    requires ValidMembers(l) && ParseMembers(MembersText(l, rest)) == Ok(MemberValues(l), rest)
    ensures ParseValue([OPEN_BRACE] + MembersText(l, rest)) == Ok(Object(MemberValues(l)), rest)
  {
    var t := MembersText(l, rest);
    var s := [OPEN_BRACE] + t;
    assert s[1..] == t && SkipWs(s) == s;
    ParseSkippedMembers(t);
    MembersStart(l, rest);
    hide SkipWs, MembersText, MemberValues, ValidMembers, ParseMembers, ParseString, ParseNumber, ParseWord, ParseArray;
  }

  lemma MembersStart(l: MemberList, rest: seq<byte>)
    requires ValidMembers(l)
    ensures !StartsWith(SkipWs(MembersText(l, rest)), CLOSE_BRACE)
  {
    var k := if l.LastMember? then Then(l.after, CLOSE_BRACE, rest)
             else Then(l.after, COMMA, MembersText(l.more, rest));
    assert MembersText(l, rest) == MemberText(l.m, k);
    var t := StringText(l.m.key, Then(l.m.middle, COLON, DocText(l.m.value, k)));
    SkipBlanks(l.m.before, t);
    assert SkipWs(t) == t;
    hide DocText, MembersText, SkipWs;
  }

  /** The blanks after an item, then what comes next. */
  lemma AfterItem(v: Json, s: seq<byte>, after: seq<byte>, c: byte, rest: seq<byte>)
    requires Blank(after) && (c == COMMA || c == CLOSE_BRACKET)
    requires ParseValue(s) == Ok(v, Then(after, c, rest))
    ensures c == CLOSE_BRACKET ==> ParseItems(s) == Ok([v], rest)
    ensures c == COMMA && ParseItems(rest).Ok? ==>
              ParseItems(s) == Ok([v] + ParseItems(rest).value, ParseItems(rest).rest)
  {
    SkipThen(after, c, rest);
    assert ([c] + rest)[1..] == rest;
    hide ParseValue, SkipWs, Then, Blank;
  }

  lemma AfterMember(m: Member, s: seq<byte>, after: seq<byte>, c: byte, rest: seq<byte>)
    requires Blank(after) && (c == COMMA || c == CLOSE_BRACE)
    requires ParseMember(s) == Ok(m, Then(after, c, rest))
    ensures c == CLOSE_BRACE ==> ParseMembers(s) == Ok([m], rest)
    ensures c == COMMA && ParseMembers(rest).Ok? ==>
              ParseMembers(s) == Ok([m] + ParseMembers(rest).value, ParseMembers(rest).rest)
  {
    SkipThen(after, c, rest);
    assert ([c] + rest)[1..] == rest;
    hide ParseMember, SkipWs, Then, Blank;
  }

  lemma OneMember(m: MemberDoc, rest: seq<byte>)
    requires ValidMember(m) && ParseValue(DocText(m.value, rest)) == Ok(DocValue(m.value), rest)
    ensures ParseMember(MemberText(m, rest)) == Ok(MemberValue(m), rest)
  {
    hide CStr;
    var v := DocText(m.value, rest);
    var t := StringText(m.key, Then(m.middle, COLON, v));
    SkipBlanks(m.before, t);
    assert SkipWs(t) == t;
    ParseStringText(m.key, Then(m.middle, COLON, v));
    SkipThen(m.middle, COLON, v);
    assert ([COLON] + v)[1..] == v;
    hide SkipWs, StringText, ParseString, Then, Blank, ValidUnits, DocText, DocValue, ParseValue, StringValue, ValidDoc;
  }

  /** A printed value parses back to its tree, and parsing stops exactly where the text ends, whatever the layout and
      whatever follows, as long as the value cannot go on there. */
  lemma {:induction false} ParsePrinted(d: Doc, rest: seq<byte>)
    requires ValidDoc(d) && Stops(d.body, rest)
    ensures ParseValue(DocText(d, rest)) == Ok(DocValue(d), rest)
    decreases d
  {
    hide ParseValue, BodyText, BodyValue, ValidBody, Stops;
    ParseBlankValue(d.before, BodyText(d.body, rest));
    ParsePrintedBody(d.body, rest);
  }

  lemma {:induction false} ParsePrintedBody(b: Body, rest: seq<byte>)
    requires ValidBody(b) && Stops(b, rest)
    ensures ParseValue(BodyText(b, rest)) == Ok(BodyValue(b), rest)
    decreases b
  {
    hide ParseValue, ItemsText, MembersText, StringText, Then, ItemValues, MemberValues, StringValue, Stops;
    match b
    case Num(lexeme) => ParseNumBody(lexeme, rest);
    case Str(units) => ParseStrBody(units, rest);
    case EmptyArray(inside) => ParseEmptyBody(inside, rest);
    case EmptyObject(inside) => ParseEmptyBody(inside, rest);
    case Items(items) =>
      ParsePrintedItems(items, rest);
      OpenItems(items, rest);
    case Members(members) =>
      ParsePrintedMembers(members, rest);
      OpenMembers(members, rest);
    case _ => ParseWordBody(b, rest);
  }

  lemma {:induction false} ParsePrintedItems(l: ItemList, rest: seq<byte>)
    requires ValidItems(l)
    ensures ParseItems(ItemsText(l, rest)) == Ok(ItemValues(l), rest)
    decreases l
  {
    hide ParseItems, ParseValue, DocText, DocValue, Then, Stops, Blank, ValidDoc;
    match l
    case LastItem(item, after) =>
      ThenStops(item, after, CLOSE_BRACKET, rest);
      ParsePrinted(item, Then(after, CLOSE_BRACKET, rest));
      AfterItem(DocValue(item), ItemsText(l, rest), after, CLOSE_BRACKET, rest);
    case MoreItems(item, after, more) =>
      var next := ItemsText(more, rest);
      ThenStops(item, after, COMMA, next);
      ParsePrinted(item, Then(after, COMMA, next));
      AfterItem(DocValue(item), ItemsText(l, rest), after, COMMA, next);
      ParsePrintedItems(more, rest);
  }

  lemma {:induction false} ParsePrintedMembers(l: MemberList, rest: seq<byte>)
    requires ValidMembers(l)
    ensures ParseMembers(MembersText(l, rest)) == Ok(MemberValues(l), rest)
    decreases l
  {
    hide ParseMembers, ParseMember, ParseValue, MemberText, DocText, MemberValue, DocValue;
    hide Then, Blank, ValidMember;
    match l
    case LastMember(m, after) =>
      ParsePrintedMember(m, after, CLOSE_BRACE, rest);
      AfterMember(MemberValue(m), MembersText(l, rest), after, CLOSE_BRACE, rest);
    case MoreMembers(m, after, more) =>
      var next := MembersText(more, rest);
      ParsePrintedMember(m, after, COMMA, next);
      AfterMember(MemberValue(m), MembersText(l, rest), after, COMMA, next);
      ParsePrintedMembers(more, rest);
  }

  lemma {:induction false} ParsePrintedMember(m: MemberDoc, after: seq<byte>, c: byte, next: seq<byte>)
    requires ValidMember(m) && Blank(after) && (c == COMMA || c == CLOSE_BRACE)
    requires Missing(m.value) ==> after == []
    ensures ParseMember(MemberText(m, Then(after, c, next))) == Ok(MemberValue(m), Then(after, c, next))
    decreases m
  {
    hide ParseMember, ParseValue, MemberText, DocText, MemberValue, DocValue, Then, Stops, Blank, ValidUnits, ValidDoc;
    ThenStops(m.value, after, c, next);
    ParsePrinted(m.value, Then(after, c, next));
    OneMember(m, Then(after, c, next));
  }

  // The texts above end in the `rest` they are given, so that DocText(d, []) is the text of `d` alone.

  lemma ThenAppend(ws: seq<byte>, c: byte, a: seq<byte>, b: seq<byte>)
    ensures Then(ws, c, a + b) == Then(ws, c, a) + b
  {
  }

  lemma {:induction false} CharsAppend(us: seq<Unit>, a: seq<byte>, b: seq<byte>)
    ensures CharsText(us, a + b) == CharsText(us, a) + b
  {
    if us != [] {
      CharsAppend(us[1..], a, b);
      Assoc(UnitText(us[0]), CharsText(us[1..], a), b);
      hide UnitText;
    }
  }

  lemma StringAppend(us: seq<Unit>, a: seq<byte>, b: seq<byte>)
    ensures StringText(us, a + b) == StringText(us, a) + b
  {
    CharsAppend(us, a, b);
    hide CharsText;
  }

  lemma {:induction false} DocAppend(d: Doc, a: seq<byte>, b: seq<byte>)
    ensures DocText(d, a + b) == DocText(d, a) + b
    decreases d
  {
    BodyAppend(d.body, a, b);
    Assoc(d.before, BodyText(d.body, a), b);
    hide BodyText;
  }

  lemma {:induction false} BodyAppend(t: Body, a: seq<byte>, b: seq<byte>)
    ensures BodyText(t, a + b) == BodyText(t, a) + b
    decreases t
  {
    hide StringText, ItemsText, MembersText, Then;
    match t
    case Str(units) => StringAppend(units, a, b);
    case EmptyArray(inside) => ThenAppend(inside, CLOSE_BRACKET, a, b);
    case EmptyObject(inside) => ThenAppend(inside, CLOSE_BRACE, a, b);
    case Items(items) => ItemsAppend(items, a, b);
    case Members(members) => MembersAppend(members, a, b);
    case Num(lexeme) => Assoc(lexeme, a, b);
    case _ =>
  }

  lemma {:induction false} ItemsAppend(l: ItemList, a: seq<byte>, b: seq<byte>)
    ensures ItemsText(l, a + b) == ItemsText(l, a) + b
    decreases l
  {
    hide DocText, Then;
    match l
    case LastItem(item, after) =>
      ThenAppend(after, CLOSE_BRACKET, a, b);
      DocAppend(item, Then(after, CLOSE_BRACKET, a), b);
    case MoreItems(item, after, more) =>
      ItemsAppend(more, a, b);
      ThenAppend(after, COMMA, ItemsText(more, a), b);
      DocAppend(item, Then(after, COMMA, ItemsText(more, a)), b);
  }

  lemma {:induction false} MemberAppend(m: MemberDoc, a: seq<byte>, b: seq<byte>)
    ensures MemberText(m, a + b) == MemberText(m, a) + b
    decreases m
  {
    hide DocText, Then, StringText;
    var t := DocText(m.value, a);
    DocAppend(m.value, a, b);
    ThenAppend(m.middle, COLON, t, b);
    StringAppend(m.key, Then(m.middle, COLON, t), b);
    Assoc(m.before, StringText(m.key, Then(m.middle, COLON, t)), b);
  }

  lemma {:induction false} MembersAppend(l: MemberList, a: seq<byte>, b: seq<byte>)
    ensures MembersText(l, a + b) == MembersText(l, a) + b
    decreases l
  {
    hide MemberText, Then;
    match l
    case LastMember(m, after) =>
      ThenAppend(after, CLOSE_BRACE, a, b);
      MemberAppend(m, Then(after, CLOSE_BRACE, a), b);
    case MoreMembers(m, after, more) =>
      MembersAppend(more, a, b);
      ThenAppend(after, COMMA, MembersText(more, a), b);
      MemberAppend(m, Then(after, COMMA, MembersText(more, a)), b);
  }

  function Text(d: Doc): seq<byte> {
    DocText(d, [])
  }

  /** The text of a value followed by anything parses to its tree and stops at what follows, exactly when the value
      cannot go on there. */
  lemma ParseText(d: Doc, rest: seq<byte>)
    requires ValidDoc(d)
    ensures ParseValue(Text(d) + rest) == Ok(DocValue(d), rest) <==> Stops(d.body, rest)
  {
    DocAppend(d, [], rest);
    assert [] + rest == rest;
    hide ParseValue;
    if Stops(d.body, rest) {
      ParsePrinted(d, rest);
    } else if !EndsNumber(rest) {
      ParseBlankValue(d.before, d.body.lexeme + rest);
      NumberGoesOn(d.body.lexeme, rest);
    } else {
      ParseBlankValue(d.before, rest);
      assert [] + rest == rest;
      MissingGoesOn(rest);
    }
  }

  lemma MissingGoesOn(rest: seq<byte>)
    requires Continues(rest)
    ensures ParseValue(rest) != Ok(Number([]), rest)
  {
    hide ParseValue;
    if IsSpace(rest[0]) {
      EmptyNumber(rest);
    } else {
      OnlyNumbers(rest);
    }
  }

  lemma {:induction false} SpanGoesOn(s: seq<byte>, rest: seq<byte>)
    requires !EndsNumber(rest) && forall i :: 0 <= i < |s| ==> IsNumberChar(s[i])
    ensures NumberSpan(s + rest) > |s|
  {
    if s == [] {
      assert s + rest == rest;
    } else {
      hide IsNumberChar;
      SpanGoesOn(s[1..], rest);
      assert (s + rest)[1..] == s[1..] + rest;
    }
  }

  lemma NumberGoesOn(lexeme: seq<byte>, rest: seq<byte>)
    requires Lexeme(lexeme) && !EndsNumber(rest)
    ensures ParseValue(lexeme + rest).Ok? && |ParseValue(lexeme + rest).rest| < |rest|
  {
    hide NumberSpan, Kept, ParseValue, IsSpace, IsNumberChar, SkipWs, StartsOther;
    var s := lexeme + rest;
    SpanGoesOn(lexeme, rest);
    NumberStarts(s, if lexeme == [] then rest[0] else lexeme[0]);
    OnlyNumbers(s);
  }

  lemma NumberStarts(s: seq<byte>, c: byte)
    requires StartsWith(s, c) && IsNumberChar(c)
    ensures SkipWs(s) == s && !StartsOther(s)
  {
    NumberCharIsPlain(c);
    hide IsNumberChar, IsSpace;
  }

  // ---------------------------------------------------------------- every tree has a text

  /** The letter that stands for a byte after a backslash (section 7 of RFC 8259). */
  function ShortLetter(b: byte): Option<byte> {
    match b
    case 0x22 => Some(0x22)
    case 0x5C => Some(0x5C)
    case 0x2F => Some(0x2F)
    case 0x08 => Some(0x62)
    case 0x0C => Some(0x66)
    case 0x0A => Some(0x6E)
    case 0x0D => Some(0x72)
    case 0x09 => Some(0x74)
    case _ => None
  }

  lemma ShortTable(letter: byte, b: byte)
    ensures ShortEscape(letter) == Some(b) <==> ShortLetter(b) == Some(letter)
  {
  }

  /** The standard way to write a byte: short if there is a letter, \u for the other control characters. */
  function UnitFor(b: byte): Unit {
    match ShortLetter(b)
    case Some(letter) => Short(letter)
    case None => if b < 0x20 then Code([0x30, 0x30, HexDigit((b >> 4) & 0x0F), HexDigit(b & 0x0F)]) else Raw(b)
  }

  lemma JoinControl(b: byte)
    requires 0 < b < 0x20
    ensures JoinDigits(0, 0, (b >> 4) & 0x0F, b & 0x0F) == b as bv16
  {
  }

  lemma WrittenDigit(n: byte)
    requires n < 16
    ensures AnyDigit(HexDigit(n))
  {
  }

  lemma UnitForControl(b: byte)
    requires 0 < b < 0x20
    ensures var h: seq<byte> := [0x30, 0x30, HexDigit((b >> 4) & 0x0F), HexDigit(b & 0x0F)];
            FourDigits(h) && CodePoint(h) == b as bv16
  {
    JoinControl(b);
    WrittenDigit((b >> 4) & 0x0F);
    WrittenDigit(b & 0x0F);
    hide JoinDigits, HexDigit;
  }

  lemma Utf8OfByte(b: byte)
    requires b < 0x80
    ensures Utf8(b as bv16) == [b]
  {
  }

  lemma UnitForByte(b: byte)
    requires b != 0
    ensures ValidUnit(UnitFor(b)) && UnitValue(UnitFor(b)) == [b]
  {
    hide ShortEscape, FourDigits, CodePoint, Utf8, HexDigit, Strtol16;
    assert ShortLetter(QUOTE).Some? && ShortLetter(BACKSLASH).Some?;
    if ShortLetter(b).Some? {
      ShortTable(ShortLetter(b).value, b);
    } else if b < 0x20 {
      UnitForControl(b);
      Utf8OfByte(b);
      StrtolOfDigits([0x30, 0x30, HexDigit((b >> 4) & 0x0F), HexDigit(b & 0x0F)]);
    }
  }

  function Escaped(s: seq<byte>): seq<Unit> {
    if s == [] then [] else [UnitFor(s[0])] + Escaped(s[1..])
  }

  lemma {:induction false} EscapedValue(s: seq<byte>)
    requires ZeroFree(s)
    ensures ValidUnits(Escaped(s)) && CharsValue(Escaped(s)) == s
  {
    hide UnitFor, ValidUnit, UnitValue;
    if s != [] {
      assert s[0] in s;
      UnitForByte(s[0]);
      EscapedValue(s[1..]);
      assert Escaped(s)[1..] == Escaped(s[1..]);
    }
  }

  /** The trees a JSON text can say: C strings, and lexemes that fit the number buffer. */
  predicate Sayable(v: Json) {
    match v
    case Number(lexeme) => 0 < |lexeme| <= 127 && Lexeme(lexeme)
    case String(s) => ZeroFree(s)
    case Array(items) => forall i :: 0 <= i < |items| ==> Sayable(items[i])
    case Object(members) => forall i :: 0 <= i < |members| ==> ZeroFree(members[i].key) && Sayable(members[i].value)
    case _ => true
  }

  /** The text of a tree without any blanks. */
  function Printed(v: Json): Doc {
    Doc([], match v
            case Null => NullWord
            case Bool(b) => if b then TrueWord else FalseWord
            case Number(lexeme) => Num(lexeme)
            case String(s) => Str(Escaped(s))
            case Array(items) => if items == [] then EmptyArray([]) else Items(PrintedItems(items))
            case Object(members) => if members == [] then EmptyObject([]) else Members(PrintedMembers(members)))
  }

  function PrintedItems(vs: seq<Json>): ItemList
    requires vs != []
  {
    if |vs| == 1 then LastItem(Printed(vs[0]), []) else MoreItems(Printed(vs[0]), [], PrintedItems(vs[1..]))
  }

  function PrintedMember(m: Member): MemberDoc {
    MemberDoc([], Escaped(m.key), [], Printed(m.value))
  }

  function PrintedMembers(ms: seq<Member>): MemberList
    requires ms != []
  {
    if |ms| == 1 then LastMember(PrintedMember(ms[0]), [])
    else MoreMembers(PrintedMember(ms[0]), [], PrintedMembers(ms[1..]))
  }

  lemma PrintedNotMissing(v: Json)
    requires Sayable(v)
    ensures !Missing(Printed(v))
  {
  }

  lemma {:induction false} PrintedValue(v: Json)
    requires Sayable(v)
    ensures ValidDoc(Printed(v)) && DocValue(Printed(v)) == v
    decreases v
  {
    hide Escaped, PrintedItems, PrintedMembers, CharsValue, ItemValues, MemberValues, ValidItems, ValidMembers,
         ValidUnits, Lexeme;
    match v
    case String(s) => EscapedValue(s);
    case Array(items) =>
      if items != [] {
        PrintedItemsValue(items);
      }
    case Object(members) =>
      if members != [] {
        PrintedMembersValue(members);
      }
    case _ =>
  }

  lemma {:induction false} PrintedItemsValue(vs: seq<Json>)
    requires vs != [] && forall i :: 0 <= i < |vs| ==> Sayable(vs[i])
    ensures ValidBody(Items(PrintedItems(vs))) && ItemValues(PrintedItems(vs)) == vs
    decreases vs
  {
    hide Printed, ValidDoc, DocValue, Sayable;
    PrintedNotMissing(vs[0]);
    PrintedValue(vs[0]);
    if |vs| > 1 {
      PrintedItemsValue(vs[1..]);
    }
  }

  lemma {:induction false} PrintedMembersValue(ms: seq<Member>)
    requires ms != [] && forall i :: 0 <= i < |ms| ==> ZeroFree(ms[i].key) && Sayable(ms[i].value)
    ensures ValidMembers(PrintedMembers(ms)) && MemberValues(PrintedMembers(ms)) == ms
    decreases ms
  {
    hide Printed, ValidDoc, DocValue, Sayable, Escaped, CharsValue, ZeroFree, ValidUnits;
    PrintedNotMissing(ms[0].value);
    EscapedValue(ms[0].key);
    PrintedValue(ms[0].value);
    if |ms| > 1 {
      PrintedMembersValue(ms[1..]);
    }
  }

  /** Every tree that a text can say is read back from its printed text. */
  lemma PrintThenParse(v: Json, rest: seq<byte>)
    requires Sayable(v)
    ensures ParseValue(Text(Printed(v)) + rest) == Ok(v, rest) <==> (v.Number? ==> EndsNumber(rest))
  {
    hide Text, ParseValue, EndsNumber, Continues, DocValue, ValidDoc, Escaped, PrintedItems, PrintedMembers;
    PrintedValue(v);
    ParseText(Printed(v), rest);
  }

  lemma NothingThere(c: byte, rest: seq<byte>)
    requires c == COMMA || c == CLOSE_BRACKET
    ensures ParseValue([c] + rest) == Ok(Number([]), Then([], c, rest))
  {
    var s := [c] + rest;
    assert SkipWs(s) == s && Then([], c, rest) == s;
    EmptyNumber(s);
    hide ParseValue, Then;
  }

  /** An item may be missing before the closing bracket; "[1,]" has two. */
  lemma MissingLastItem(rest: seq<byte>)
    ensures ParseItems([CLOSE_BRACKET] + rest) == Ok([Number([])], rest)
  {
    NothingThere(CLOSE_BRACKET, rest);
    AfterItem(Number([]), [CLOSE_BRACKET] + rest, [], CLOSE_BRACKET, rest);
    hide ParseValue, ParseItems, Then;
  }

  /** An item may be missing before a comma; "[,]" has two. */
  lemma MissingItem(rest: seq<byte>)
    requires ParseItems(rest).Ok?
    ensures ParseItems([COMMA] + rest) == Prepend([Number([])], ParseItems(rest))
  {
    NothingThere(COMMA, rest);
    AfterItem(Number([]), [COMMA] + rest, [], COMMA, rest);
    hide ParseValue, ParseItems, Then;
  }
}
