/** The texts of RFC 8259: all of them are accepted, and which accepted texts they are. */
module JsonStandard {
  import opened Bytes
  import opened MiniJson
  import opened JsonText
  import opened JsonGrammar

  // ---------------------------------------------------------------- the standard's texts

  /** Section 2: isspace accepts two blanks more. */
  predicate StandardBlank(ws: seq<byte>) {
    forall i :: 0 <= i < |ws| ==> ws[i] == 0x20 || ws[i] == 0x09 || ws[i] == 0x0A || ws[i] == 0x0D
  }

  /** Section 7: a character stands for itself unless it is a quote, a backslash or a control character; eight letters
      may follow a backslash, and \u needs four hexadecimal digits. */
  predicate StandardUnit(u: Unit) {
    match u
    case Raw(b) => 0x20 <= b && b != 0x22 && b != 0x5C
    case Short(letter) => letter in {0x22, 0x5C, 0x2F, 0x62, 0x66, 0x6E, 0x72, 0x74}  // "\/bfnrt
    case Code(h) => FourDigits(h)
  }

  predicate StandardUnits(us: seq<Unit>) {
    forall i :: 0 <= i < |us| ==> StandardUnit(us[i])
  }

  function DigitSpan(s: seq<byte>): (n: nat)
    ensures n <= |s| && forall i :: 0 <= i < n ==> 0x30 <= s[i] <= 0x39
  {
    if s != [] && 0x30 <= s[0] <= 0x39 then 1 + DigitSpan(s[1..]) else 0
  }

  /** Section 6: an optional exponent. */
  predicate StandardExponent(s: seq<byte>) {
    s == [] || ((s[0] == 0x65 || s[0] == 0x45)
                && var t := if StartsWith(s[1..], 0x2B) || StartsWith(s[1..], 0x2D) then s[2..] else s[1..];
                   t != [] && DigitSpan(t) == |t|)
  }

  /** An optional fraction, then an optional exponent. */
  predicate StandardFraction(s: seq<byte>) {
    if StartsWith(s, 0x2E) then
      var n := DigitSpan(s[1..]);
      n > 0 && StandardExponent(s[1 + n..])
    else StandardExponent(s)
  }

  /** An optional minus, then digits without a leading zero. */
  predicate StandardNumber(s: seq<byte>) {
    var t := if StartsWith(s, 0x2D) then s[1..] else s;
    var n := DigitSpan(t);
    n > 0 && (t[0] == 0x30 ==> n == 1) && StandardFraction(t[n..])
  }

  predicate StandardDoc(d: Doc) {
    StandardBlank(d.before) && StandardBody(d.body)
  }

  predicate StandardBody(b: Body) {
    match b
    case Num(lexeme) => StandardNumber(lexeme)
    case Str(units) => StandardUnits(units)
    case EmptyArray(inside) => StandardBlank(inside)
    case EmptyObject(inside) => StandardBlank(inside)
    case Items(items) => StandardItems(items)
    case Members(members) => StandardMembers(members)
    case _ => true
  }

  predicate StandardItems(l: ItemList) {
    StandardDoc(l.item) && StandardBlank(l.after) && (l.MoreItems? ==> StandardItems(l.more))
  }

  predicate StandardMembers(l: MemberList) {
    StandardMember(l.m) && StandardBlank(l.after) && (l.MoreMembers? ==> StandardMembers(l.more))
  }

  predicate StandardMember(m: MemberDoc) {
    StandardBlank(m.before) && StandardUnits(m.key) && StandardBlank(m.middle) && StandardDoc(m.value)
  }

  // ---------------------------------------------------------------- all of them are accepted

  /** The characters a number may have: +-.eE and the digits. */
  lemma NumberChars(c: byte)
    ensures IsNumberChar(c) <==> 0x30 <= c <= 0x39 || c in {0x2B, 0x2D, 0x2E, 0x65, 0x45}
  {
  }

  lemma LexemeFrom(s: seq<byte>, k: nat)
    requires k <= |s| && (forall i :: 0 <= i < k ==> IsNumberChar(s[i])) && Lexeme(s[k..])
    ensures Lexeme(s)
  {
    hide IsNumberChar;
    forall i | k <= i < |s|
      ensures IsNumberChar(s[i])
    {
      assert s[i] == s[k..][i - k];
    }
  }

  lemma DigitsAreLexeme(s: seq<byte>, n: nat)
    requires n == DigitSpan(s) && Lexeme(s[n..])
    ensures Lexeme(s)
  {
    hide DigitSpan, Lexeme;
    LexemeFrom(s, n);
  }

  lemma ExponentIsLexeme(s: seq<byte>)
    requires StandardExponent(s)
    ensures Lexeme(s)
  {
    hide DigitSpan;
    if s != [] {
      var k := if StartsWith(s[1..], 0x2B) || StartsWith(s[1..], 0x2D) then 2 else 1;
      DigitsAreLexeme(s[k..], |s| - k);
      LexemeFrom(s, k);
    }
  }

  lemma FractionIsLexeme(s: seq<byte>)
    requires StandardFraction(s)
    ensures Lexeme(s)
  {
    hide DigitSpan, StandardExponent, Lexeme;
    if StartsWith(s, 0x2E) {
      var n := DigitSpan(s[1..]);
      assert s[1..][n..] == s[1 + n..];
      ExponentIsLexeme(s[1 + n..]);
      DigitsAreLexeme(s[1..], n);
      LexemeFrom(s, 1);
    } else {
      ExponentIsLexeme(s);
    }
  }

  lemma NumberIsLexeme(s: seq<byte>)
    requires StandardNumber(s)
    ensures Lexeme(s) && s != []
  {
    hide DigitSpan, StandardFraction, Lexeme;
    var k := if StartsWith(s, 0x2D) then 1 else 0;
    var n := DigitSpan(s[k..]);
    assert s[0..] == s;
    FractionIsLexeme(s[k..][n..]);
    DigitsAreLexeme(s[k..], n);
    LexemeFrom(s, k);
  }

  lemma UnitIsValid(u: Unit)
    requires StandardUnit(u)
    ensures ValidUnit(u)
  {
  }

  lemma UnitsAreValid(us: seq<Unit>)
    requires StandardUnits(us)
    ensures ValidUnits(us)
  {
    hide StandardUnit, ValidUnit;
    forall i | 0 <= i < |us|
      ensures ValidUnit(us[i])
    {
      UnitIsValid(us[i]);
    }
  }

  lemma BlankIsValid(ws: seq<byte>)
    requires StandardBlank(ws)
    ensures Blank(ws)
  {
  }

  lemma {:induction false} DocIsValid(d: Doc)
    requires StandardDoc(d)
    ensures ValidDoc(d) && !Missing(d)
    decreases d, 1
  {
    hide StandardBlank, Blank, StandardNumber, StandardUnits;
    BlankIsValid(d.before);
    BodyIsValid(d.body);
  }

  lemma {:induction false} BodyIsValid(b: Body)
    requires StandardBody(b)
    ensures ValidBody(b) && b != Num([])
    decreases b
  {
    hide StandardBlank, Blank, StandardNumber, Lexeme, StandardUnits, ValidUnits;
    match b
    case Num(lexeme) => NumberIsLexeme(lexeme);
    case Str(units) => UnitsAreValid(units);
    case EmptyArray(inside) => BlankIsValid(inside);
    case EmptyObject(inside) => BlankIsValid(inside);
    case Items(items) => ItemsAreValid(items);
    case Members(members) => MembersAreValid(members);
    case _ =>
  }

  lemma {:induction false} ItemsAreValid(l: ItemList)
    requires StandardItems(l)
    ensures ValidItems(l) && !Missing(l.item)
    decreases l
  {
    hide StandardBlank, Blank, StandardDoc, ValidDoc, Missing;
    DocIsValid(l.item);
    BlankIsValid(l.after);
    if l.MoreItems? {
      ItemsAreValid(l.more);
    }
  }

  lemma {:induction false} MembersAreValid(l: MemberList)
    requires StandardMembers(l)
    ensures ValidMembers(l)
    decreases l
  {
    hide StandardBlank, Blank, StandardMember, ValidMember, Missing;
    MemberIsValid(l.m);
    BlankIsValid(l.after);
    if l.MoreMembers? {
      MembersAreValid(l.more);
    }
  }

  lemma {:induction false} MemberIsValid(m: MemberDoc)
    requires StandardMember(m)
    ensures ValidMember(m) && !Missing(m.value)
    decreases m
  {
    hide StandardBlank, Blank, StandardDoc, ValidDoc, Missing, StandardUnits, ValidUnits;
    BlankIsValid(m.before);
    UnitsAreValid(m.key);
    BlankIsValid(m.middle);
    DocIsValid(m.value);
  }

  /** What may follow a number in a text: nothing, a blank, a comma or a closing bracket. */
  predicate Follower(rest: seq<byte>) {
    rest == [] || rest[0] in {0x20, 0x09, 0x0A, 0x0D, 0x2C, 0x5D, 0x7D}
  }

  lemma FollowerEnds(rest: seq<byte>)
    requires Follower(rest)
    ensures EndsNumber(rest)
  {
  }

  /** Every text of RFC 8259 is accepted, with its tree and up to its end. */
  lemma StandardAccepted(d: Doc, rest: seq<byte>)
    requires StandardDoc(d) && (d.body.Num? ==> Follower(rest))
    ensures ValidDoc(d) && ParseValue(Text(d) + rest) == Ok(DocValue(d), rest)
  {
    hide ParseValue, Text, DocValue, ValidDoc, StandardDoc, EndsNumber;
    DocIsValid(d);
    if d.body.Num? {
      FollowerEnds(rest);
    }
    ParseText(d, rest);
  }

  // ---------------------------------------------------------------- which accepted texts are the standard's

  /** Some standard layout spells the text. */
  ghost predicate StandardText(s: seq<byte>, rest: seq<byte>) {
    exists d :: Spells(d, rest, s) && StandardDoc(d)
  }

  /** The one layout of an accepted text tells whether the text is standard. */
  lemma StandardExactly(s: seq<byte>, rest: seq<byte>, d: Doc)
    requires Spells(d, rest, s)
    ensures StandardText(s, rest) <==> StandardDoc(d)
  {
    hide Spells, StandardDoc;
    forall e | Spells(e, rest, s)
      ensures e == d
    {
      Unambiguous(d, rest, e, rest, s);
    }
  }

  /** A standard \u escape is stored as the UTF-8 of its code point, unless it is half of a surrogate pair, and without
      a zero byte, unless it is \u0000. */
  lemma StandardEscape(h: seq<byte>)
    requires FourDigits(h)
    ensures ValidUnit(Code(h)) && UnitValue(Code(h)) == Utf8(CodePoint(h))
    ensures Utf8Decode(UnitValue(Code(h))) == Some(CodePoint(h)) <==> !IsSurrogate(CodePoint(h))
    ensures ZeroFree(UnitValue(Code(h))) <==> CodePoint(h) != 0
  {
    hide Strtol16, Utf8, CodePoint, Utf8Decode, IsSurrogate;
    StrtolOfDigits(h);
    Utf8IsStandard(CodePoint(h));
    if CodePoint(h) != 0 {
      Utf8ZeroFree(CodePoint(h));
    } else {
      Utf8OfByte(0);
      assert 0 in [0 as byte];
    }
  }

  /** The escape that C strings cannot hold. */
  predicate ZeroEscape(u: Unit) {
    u.Code? && FourDigits(u.h) && CodePoint(u.h) == 0
  }

  lemma ShortIsNotZero(letter: byte)
    ensures ShortEscape(letter) != Some(0)
  {
  }

  lemma StandardUnitValue(u: Unit)
    requires ValidUnit(u) && StandardUnit(u)
    ensures ZeroFree(UnitValue(u)) <==> !ZeroEscape(u)
  {
    hide ShortEscape, FourDigits, CodePoint, Stored, Strtol16;
    match u
    case Raw(_) =>
    case Short(letter) => ShortIsNotZero(letter);
    case Code(h) => StandardEscape(h);
  }

  lemma {:induction false} StandardChars(us: seq<Unit>)
    requires ValidUnits(us) && StandardUnits(us)
    ensures ZeroFree(CharsValue(us)) <==> forall i :: 0 <= i < |us| ==> !ZeroEscape(us[i])
  {
    hide ValidUnit, StandardUnit, UnitValue, ZeroEscape;
    if us != [] {
      StandardUnitValue(us[0]);
      StandardChars(us[1..]);
      assert forall i :: 0 < i < |us| ==> us[i] == us[1..][i - 1];
    }
  }

  /** A standard string is stored whole exactly when it does not escape a zero. */
  lemma StandardString(us: seq<Unit>)
    requires ValidUnits(us) && StandardUnits(us)
    ensures StringValue(us) == CharsValue(us) <==> forall i :: 0 <= i < |us| ==> !ZeroEscape(us[i])
  {
    hide CharsValue, ZeroEscape, ValidUnits, StandardUnits;
    StandardChars(us);
  }
}
