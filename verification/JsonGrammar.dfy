/** Exactly which texts the JSON parser accepts: a grammar, without ambiguity. */
module JsonGrammar {
  import opened Bytes
  import opened MiniJson
  import opened JsonText

  // ---------------------------------------------------------------- the layout of an accepted text

  /** The blanks that `s` starts with. */
  lemma {:induction false} Blanks(s: seq<byte>) returns (ws: seq<byte>)
    ensures Blank(ws) && s == ws + SkipWs(s)
  {
    ws := [];
    if s != [] && IsSpace(s[0]) {
      SpaceIsBlank(s[0]);
      var more := Blanks(s[1..]);
      ws := [s[0]] + more;
    }
  }

  lemma UnitOf(s: seq<byte>) returns (u: Unit)
    requires s != [] && s[0] != QUOTE && FirstUnit(s).Ok?
    ensures ValidUnit(u) && s == UnitText(u) + FirstUnit(s).rest && UnitValue(u) == FirstUnit(s).value
  {
    hide Strtol16, Stored, ShortEscape;
    if s[0] != BACKSLASH {
      u := Raw(s[0]);
    } else if s[1] == LETTER_U {
      u := Code(s[2..6]);
      assert s == [BACKSLASH, LETTER_U] + s[2..6] + s[6..];
    } else {
      u := Short(s[1]);
      assert s == [BACKSLASH, s[1]] + s[2..];
    }
  }

  lemma {:induction false} UnitsOf(s: seq<byte>) returns (us: seq<Unit>)
    requires ParseChars(s).Ok?
    ensures ValidUnits(us) && s == CharsText(us, ParseChars(s).rest) && CharsValue(us) == ParseChars(s).value
    decreases |s|
  {
    hide FirstUnit, ValidUnit, UnitText, UnitValue;
    us := [];
    if s[0] == QUOTE {
      assert s == [QUOTE] + s[1..];
    } else {
      var u := UnitOf(s);
      var more := UnitsOf(FirstUnit(s).rest);
      us := [u] + more;
      assert us[1..] == more;
    }
  }

  lemma StringOf(s: seq<byte>) returns (us: seq<Unit>)
    requires ParseString(s).Ok?
    ensures ValidUnits(us) && s == StringText(us, ParseString(s).rest) && StringValue(us) == ParseString(s).value
  {
    hide ParseChars, CharsText, CharsValue, CStr, ValidUnits;
    us := UnitsOf(s[1..]);
    assert s == [QUOTE] + s[1..];
  }

  lemma NumberOf(t: seq<byte>) returns (lexeme: seq<byte>)
    requires SkipWs(t) == t && !StartsOther(t)
    ensures var r := ParseNumber(t);
            && Lexeme(lexeme) && t == lexeme + r.rest && r.value == Number(Kept(lexeme)) && Stops(Num(lexeme), r.rest)
  {
    hide Kept, StartsOther, IsNumberChar;
    var n := NumberSpan(t);
    lexeme := t[..n];
    assert n == 0 ==> t[n..] == t;
    assert t != [] && IsSpace(t[0]) ==> SkipWs(t) != t;
  }

  /** The word at the start of `t`. */
  lemma WordOf(t: seq<byte>) returns (b: Body)
    requires WordValue(t).Ok?
    ensures ValidBody(b) && !b.Num? && t == BodyText(b, WordValue(t).rest) && BodyValue(b) == WordValue(t).value
  {
    if StartsWith(t, 0x74) {
      b := TrueWord;
    } else if StartsWith(t, 0x66) {
      b := FalseWord;
    } else {
      b := NullWord;
    }
  }

  /** The layout of the value that `s` starts with. */
  lemma {:induction false} DocOf(s: seq<byte>) returns (d: Doc)
    requires ParseValue(s).Ok?
    ensures var r := ParseValue(s);
            ValidDoc(d) && Stops(d.body, r.rest) && s == DocText(d, r.rest) && DocValue(d) == r.value
    decreases |s|, 1
  {
    hide ParseValue, BodyText, BodyValue, ValidBody, Stops, Blank;
    var ws := Blanks(s);
    ParseBlankValue(ws, SkipWs(s));
    SkipTwice(s);
    var b := BodyOf(SkipWs(s));
    d := Doc(ws, b);
  }

  lemma {:induction false} BodyOf(t: seq<byte>) returns (b: Body)
    requires SkipWs(t) == t && ParseValue(t).Ok?
    ensures var r := ParseValue(t);
            ValidBody(b) && Stops(b, r.rest) && t == BodyText(b, r.rest) && BodyValue(b) == r.value
    decreases |t|, 0
  {
    hide SkipWs, ParseString, ParseNumber, WordValue, ParseObject, ParseArray, StringText, StringValue, ValidUnits,
         ItemsText, MembersText, Then;
    if StartsWith(t, OPEN_BRACE) {
      b := ObjectOf(t[1..]);
      assert t == [OPEN_BRACE] + t[1..];
    } else if StartsWith(t, OPEN_BRACKET) {
      b := ArrayOf(t[1..]);
      assert t == [OPEN_BRACKET] + t[1..];
    } else if StartsWith(t, QUOTE) {
      var us := StringOf(t);
      b := Str(us);
    } else if StartsWith(t, 0x74) || StartsWith(t, 0x66) || StartsWith(t, 0x6E) {
      b := WordOf(t);
    } else {
      var lexeme := NumberOf(t);
      b := Num(lexeme);
    }
  }

  lemma {:induction false} ArrayOf(s: seq<byte>) returns (b: Body)
    requires ParseArray(s).Ok?
    ensures var r := ParseArray(s);
            && ValidBody(b) && !b.Num? && [OPEN_BRACKET] + s == BodyText(b, r.rest) && BodyValue(b) == r.value
    decreases |s|, 3
  {
    hide ParseItems, SkipWs, ItemsText, ItemValues, ValidItems, Blank;
    var t := SkipWs(s);
    if StartsWith(t, CLOSE_BRACKET) {
      var ws := Blanks(s);
      b := EmptyArray(ws);
      assert t == [CLOSE_BRACKET] + t[1..];
    } else {
      ParseSkippedItems(s);
      var l := ItemsOf(s);
      b := Items(l);
      if l.LastItem? && Missing(l.item) {
        LonelyMissing(l, ParseItems(s).rest);
      }
    }
  }

  /** An array of one missing item would be an empty array. */
  lemma LonelyMissing(l: ItemList, rest: seq<byte>)
    requires ValidItems(l) && l.LastItem? && Missing(l.item)
    ensures StartsWith(SkipWs(ItemsText(l, rest)), CLOSE_BRACKET)
  {
    assert ValidDoc(l.item);
    var k := Then([], CLOSE_BRACKET, rest);
    assert k == [CLOSE_BRACKET] + rest && [] + k == k;
    assert l.after == [] && BodyText(l.item.body, k) == [] + k;
    assert ItemsText(l, rest) == DocText(l.item, k) == l.item.before + k;
    SkipBlanks(l.item.before, k);
    assert SkipWs(k) == k;
  }

  lemma {:induction false} ItemsOf(s: seq<byte>) returns (l: ItemList)
    requires ParseItems(s).Ok?
    ensures var r := ParseItems(s); ValidItems(l) && s == ItemsText(l, r.rest) && ItemValues(l) == r.value
    decreases |s|, 2
  {
    hide ParseValue, DocText, DocValue, Then, Blank, ValidDoc, SkipWs, Stops;
    var item := DocOf(s);
    var r1 := ParseValue(s).rest;
    var after := Blanks(r1);
    NothingAfterMissing(item, r1, after);
    var r2 := SkipWs(r1);
    SplitFirst(after, r2);
    if StartsWith(r2, CLOSE_BRACKET) {
      l := LastItem(item, after);
    } else {
      var more := ItemsOf(r2[1..]);
      l := MoreItems(item, after, more);
    }
  }

  lemma SplitFirst(ws: seq<byte>, t: seq<byte>)
    ensures t != [] ==> ws + t == Then(ws, t[0], t[1..])
  {
    assert t != [] ==> t == [t[0]] + t[1..];
  }

  lemma NothingAfterMissing(d: Doc, rest: seq<byte>, ws: seq<byte>)
    requires Stops(d.body, rest) && rest == ws + SkipWs(rest) && Blank(ws)
    ensures Missing(d) ==> ws == []
  {
    assert ws != [] ==> rest[0] == ws[0];
  }

  lemma {:induction false} ObjectOf(s: seq<byte>) returns (b: Body)
    requires ParseObject(s).Ok?
    ensures var r := ParseObject(s);
            && ValidBody(b) && !b.Num? && [OPEN_BRACE] + s == BodyText(b, r.rest) && BodyValue(b) == r.value
    decreases |s|, 3
  {
    hide ParseMembers, SkipWs, MembersText, MemberValues, ValidMembers, Blank;
    var t := SkipWs(s);
    if StartsWith(t, CLOSE_BRACE) {
      var ws := Blanks(s);
      b := EmptyObject(ws);
      assert t == [CLOSE_BRACE] + t[1..];
    } else {
      ParseSkippedMembers(s);
      var l := MembersOf(s);
      b := Members(l);
    }
  }

  lemma {:induction false} MembersOf(s: seq<byte>) returns (l: MemberList)
    requires ParseMembers(s).Ok?
    ensures var r := ParseMembers(s); ValidMembers(l) && s == MembersText(l, r.rest) && MemberValues(l) == r.value
    decreases |s|, 2
  {
    hide ParseMember, MemberText, MemberValue, Then, Blank, ValidMember, SkipWs, Stops;
    var m := MemberOf(s);
    var r1 := ParseMember(s).rest;
    var after := Blanks(r1);
    NothingAfterMissing(m.value, r1, after);
    var r2 := SkipWs(r1);
    SplitFirst(after, r2);
    if StartsWith(r2, CLOSE_BRACE) {
      l := LastMember(m, after);
    } else {
      var more := MembersOf(r2[1..]);
      l := MoreMembers(m, after, more);
    }
  }

  lemma {:induction false} MemberOf(s: seq<byte>) returns (m: MemberDoc)
    requires ParseMember(s).Ok?
    ensures var r := ParseMember(s);
            ValidMember(m) && Stops(m.value.body, r.rest) && s == MemberText(m, r.rest) && MemberValue(m) == r.value
    decreases |s|, 1
  {
    hide ParseString, ParseValue, StringText, StringValue, ValidUnits, DocText, DocValue, ValidDoc, Blank, SkipWs,
         Stops, Then;
    var before := Blanks(s);
    var key := StringOf(SkipWs(s));
    var r1 := ParseString(SkipWs(s)).rest;
    var middle := Blanks(r1);
    var r2 := SkipWs(r1);
    SplitFirst(middle, r2);
    var value := DocOf(r2[1..]);
    m := MemberDoc(before, key, middle, value);
  }

  /** Layout `d`, with `rest` after it, is the text `s`. */
  predicate Spells(d: Doc, rest: seq<byte>, s: seq<byte>) {
    ValidDoc(d) && Stops(d.body, rest) && DocText(d, rest) == s
  }

  /** The parser accepts a text, with this tree and this rest, exactly when a layout spells it. */
  lemma Accepted(s: seq<byte>, v: Json, rest: seq<byte>)
    ensures ParseValue(s) == Ok(v, rest) <==> exists d :: Spells(d, rest, s) && DocValue(d) == v
  {
    hide ParseValue, DocText, DocValue, ValidDoc, Stops;
    if ParseValue(s) == Ok(v, rest) {
      var d := DocOf(s);
      assert Spells(d, rest, s);
    }
    forall d | Spells(d, rest, s)
      ensures ParseValue(s) == Ok(DocValue(d), rest)
    {
      ParsePrinted(d, rest);
    }
  }

  // ---------------------------------------------------------------- no text has two layouts

  lemma SplitAlike(a: seq<byte>, b: seq<byte>, c: seq<byte>, d: seq<byte>)
    requires a + b == c + d && |a| == |c|
    ensures a == c && b == d
  {
    assert a == (a + b)[..|a|] && c == (c + d)[..|c|];
    assert b == (a + b)[|a|..] && d == (c + d)[|c|..];
  }

  lemma OneThen(ws: seq<byte>, c: byte, t: seq<byte>, ws': seq<byte>, c': byte, t': seq<byte>)
    requires Blank(ws) && Blank(ws') && !IsSpace(c) && !IsSpace(c') && Then(ws, c, t) == Then(ws', c', t')
    ensures ws == ws' && c == c' && t == t'
  {
    SkipThen(ws, c, t);
    SkipThen(ws', c', t');
    hide SkipWs, IsSpace, Blank;
    assert c == ([c] + t)[0] && c' == ([c'] + t')[0] && t == ([c] + t)[1..] && t' == ([c'] + t')[1..];
    SplitAlike(ws, [c] + t, ws', [c'] + t');
  }

  lemma OneUnit(u: Unit, t: seq<byte>, u': Unit, t': seq<byte>)
    requires ValidUnit(u) && ValidUnit(u') && UnitText(u) + t == UnitText(u') + t'
    ensures u == u' && t == t'
  {
    var s, s' := UnitText(u) + t, UnitText(u') + t';
    assert s[0] == UnitText(u)[0] && s'[0] == UnitText(u')[0];
    assert !u.Raw? ==> s[1] == UnitText(u)[1];
    assert !u'.Raw? ==> s'[1] == UnitText(u')[1];
    SplitAlike(UnitText(u), t, UnitText(u'), t');
    if u.Code? {
      assert u.h == UnitText(u)[2..] && u'.h == UnitText(u')[2..];
    }
  }

  lemma {:induction false} OneString(us: seq<Unit>, t: seq<byte>, us': seq<Unit>, t': seq<byte>)
    requires ValidUnits(us) && ValidUnits(us') && CharsText(us, t) == CharsText(us', t')
    ensures us == us' && t == t'
  {
    hide ValidUnit, UnitText;
    if us != [] {
      UnitIsNoQuote(us[0], CharsText(us[1..], t));
    }
    if us' != [] {
      UnitIsNoQuote(us'[0], CharsText(us'[1..], t'));
    }
    if us == [] || us' == [] {
      assert t == ([QUOTE] + t)[1..] && t' == ([QUOTE] + t')[1..];
    } else {
      OneUnit(us[0], CharsText(us[1..], t), us'[0], CharsText(us'[1..], t'));
      OneString(us[1..], t, us'[1..], t');
      assert us == [us[0]] + us[1..] && us' == [us'[0]] + us'[1..];
    }
  }

  lemma UnitIsNoQuote(u: Unit, t: seq<byte>)
    requires ValidUnit(u)
    ensures UnitText(u) + t != [] && (UnitText(u) + t)[0] != QUOTE
  {
  }

  lemma OneStringText(us: seq<Unit>, t: seq<byte>, us': seq<Unit>, t': seq<byte>)
    requires ValidUnits(us) && ValidUnits(us') && StringText(us, t) == StringText(us', t')
    ensures us == us' && t == t'
  {
    hide CharsText, ValidUnits;
    SplitAlike([QUOTE], CharsText(us, t), [QUOTE], CharsText(us', t'));
    OneString(us, t, us', t');
  }

  /** A text and the rest after it determine the layout. */
  lemma {:induction false} OneDoc(d: Doc, t: seq<byte>, d': Doc, t': seq<byte>)
    requires ValidDoc(d) && Stops(d.body, t) && ValidDoc(d') && Stops(d'.body, t') && DocText(d, t) == DocText(d', t')
    ensures d == d' && t == t'
    decreases d
  {
    hide BodyText, ValidBody, Stops, Blank;
    var b, b' := BodyText(d.body, t), BodyText(d'.body, t');
    SkipBlanks(d.before, b);
    SkipBlanks(d'.before, b');
    BodyNotBlank(d.body, t);
    BodyNotBlank(d'.body, t');
    SplitAlike(d.before, b, d'.before, b');
    OneBody(d.body, t, d'.body, t');
  }

  lemma {:induction false} OneBody(b: Body, t: seq<byte>, b': Body, t': seq<byte>)
    requires ValidBody(b) && Stops(b, t) && ValidBody(b') && Stops(b', t') && BodyText(b, t) == BodyText(b', t')
    ensures b == b' && t == t'
    decreases b, 0
  {
    hide ParseValue, ItemsText, MembersText, StringText, StringValue, Then, ItemValues, MemberValues, Stops, Kept,
         Lexeme, Blank, ValidItems, ValidMembers, ValidUnits;
    ParsePrintedBody(b, t);
    ParsePrintedBody(b', t');
    match b
    case Num(lexeme) => SplitAlike(lexeme, t, b'.lexeme, t);
    case Str(units) => OneStringText(units, t, b'.units, t);
    case EmptyArray(inside) =>
      SameForm(b, b', t);
      SplitAlike([OPEN_BRACKET], Then(inside, CLOSE_BRACKET, t), [OPEN_BRACKET], Then(b'.inside, CLOSE_BRACKET, t));
      OneClosing(inside, b'.inside, CLOSE_BRACKET, t);
    case EmptyObject(inside) =>
      SameForm(b, b', t);
      SplitAlike([OPEN_BRACE], Then(inside, CLOSE_BRACE, t), [OPEN_BRACE], Then(b'.inside, CLOSE_BRACE, t));
      OneClosing(inside, b'.inside, CLOSE_BRACE, t);
    case Items(items) =>
      SameForm(b, b', t);
      SplitAlike([OPEN_BRACKET], ItemsText(items, t), [OPEN_BRACKET], ItemsText(b'.items, t));
      OneItems(items, b'.items, t);
    case Members(members) =>
      SameForm(b, b', t);
      SplitAlike([OPEN_BRACE], MembersText(members, t), [OPEN_BRACE], MembersText(b'.members, t));
      OneMembers(members, b'.members, t);
    case _ =>
  }

  lemma OneClosing(ws: seq<byte>, ws': seq<byte>, c: byte, t: seq<byte>)
    requires Then(ws, c, t) == Then(ws', c, t)
    ensures ws == ws'
  {
    SplitAlike(ws, [c] + t, ws', [c] + t);
  }

  /** The values of two collections tell whether they are written as empty ones. */
  lemma SameForm(b: Body, b': Body, t: seq<byte>)
    requires ValidBody(b) && ValidBody(b') && BodyValue(b) == BodyValue(b')
    requires b.EmptyArray? || b.EmptyObject? || b.Items? || b.Members?
    ensures b.EmptyArray? == b'.EmptyArray? && b.EmptyObject? == b'.EmptyObject?
    ensures b.Items? == b'.Items? && b.Members? == b'.Members?
  {
    hide ValidItems, ValidMembers, StringValue, DocValue, MemberValue;
    assert b.Items? ==> ItemValues(b.items) != [];
    assert b'.Items? ==> ItemValues(b'.items) != [];
    assert b.Members? ==> MemberValues(b.members) != [];
    assert b'.Members? ==> MemberValues(b'.members) != [];
  }

  function Closing(last: bool, c: byte): byte {
    if last then c else COMMA
  }

  lemma {:induction false} OneItems(l: ItemList, l': ItemList, t: seq<byte>)
    requires ValidItems(l) && ValidItems(l') && ItemsText(l, t) == ItemsText(l', t)
    ensures l == l'
    decreases l
  {
    hide DocText, Then, Blank, ValidDoc, Stops;
    var c, c' := Closing(l.LastItem?, CLOSE_BRACKET), Closing(l'.LastItem?, CLOSE_BRACKET);
    var next := if l.LastItem? then t else ItemsText(l.more, t);
    var next' := if l'.LastItem? then t else ItemsText(l'.more, t);
    ThenStops(l.item, l.after, c, next);
    ThenStops(l'.item, l'.after, c', next');
    OneDoc(l.item, Then(l.after, c, next), l'.item, Then(l'.after, c', next'));
    SeparatorEnds(c, next);
    SeparatorEnds(c', next');
    OneThen(l.after, c, next, l'.after, c', next');
    if l.MoreItems? {
      OneItems(l.more, l'.more, t);
    }
  }

  lemma {:induction false} OneMembers(l: MemberList, l': MemberList, t: seq<byte>)
    requires ValidMembers(l) && ValidMembers(l') && MembersText(l, t) == MembersText(l', t)
    ensures l == l'
    decreases l
  {
    hide MemberText, Then, Blank, ValidMember, Stops;
    var c, c' := Closing(l.LastMember?, CLOSE_BRACE), Closing(l'.LastMember?, CLOSE_BRACE);
    var next := if l.LastMember? then t else MembersText(l.more, t);
    var next' := if l'.LastMember? then t else MembersText(l'.more, t);
    ThenStops(l.m.value, l.after, c, next);
    ThenStops(l'.m.value, l'.after, c', next');
    OneMemberDoc(l.m, Then(l.after, c, next), l'.m, Then(l'.after, c', next'));
    SeparatorEnds(c, next);
    SeparatorEnds(c', next');
    OneThen(l.after, c, next, l'.after, c', next');
    if l.MoreMembers? {
      OneMembers(l.more, l'.more, t);
    }
  }

  lemma {:induction false} OneMemberDoc(m: MemberDoc, t: seq<byte>, m': MemberDoc, t': seq<byte>)
    requires ValidMember(m) && Stops(m.value.body, t) && ValidMember(m') && Stops(m'.value.body, t')
    requires MemberText(m, t) == MemberText(m', t')
    ensures m == m' && t == t'
    decreases m
  {
    hide StringText, DocText, ValidDoc, ValidUnits, Blank, Then, SkipWs, Stops;
    var k, k' := Then(m.middle, COLON, DocText(m.value, t)), Then(m'.middle, COLON, DocText(m'.value, t'));
    SkipBlanks(m.before, StringText(m.key, k));
    SkipBlanks(m'.before, StringText(m'.key, k'));
    StringStarts(m.key, k);
    StringStarts(m'.key, k');
    SplitAlike(m.before, StringText(m.key, k), m'.before, StringText(m'.key, k'));
    OneStringText(m.key, k, m'.key, k');
    OneThen(m.middle, COLON, DocText(m.value, t), m'.middle, COLON, DocText(m'.value, t'));
    OneDoc(m.value, t, m'.value, t');
  }

  /** No text has two layouts, and no text can be read with two different rests. */
  lemma Unambiguous(d: Doc, rest: seq<byte>, d': Doc, rest': seq<byte>, s: seq<byte>)
    requires Spells(d, rest, s) && Spells(d', rest', s)
    ensures d == d' && rest == rest'
  {
    hide DocText, ValidDoc, Stops;
    OneDoc(d, rest, d', rest');
  }
}
