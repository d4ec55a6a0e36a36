/** The parser object of src/mini_json.c: one text and a position that every method moves. */
module JsonParser {
  import opened Bytes
  import opened MiniJson
  import opened UrlEncode

  /** A returned value, or the end of the program. */
  datatype Outcome<+T> = Done(value: T) | Stop(error: Error)

  /** The method returned what the specification says and left `rest` unread. */
  ghost predicate Agrees<T>(spec: Result<T>, o: Outcome<T>, rest: seq<byte>) {
    match spec
    case Ok(v, r) => o == Done(v) && rest == r
    case Fail(e) => o == Stop(e)
  }

  lemma PrependNothing<T>(a: seq<T>, r: Result<seq<T>>)
    requires a == []
    ensures Prepend(a, r) == r
  {
    if r.Ok? {
      assert a + r.value == r.value;
    }
  }

  lemma PrependFail<T>(a: seq<T>, r: Result<seq<T>>)
    ensures r.Fail? ==> Prepend(a, r) == r
  {
  }

  lemma CharsStep(t: seq<byte>)
    ensures t == [] ==> ParseChars(t) == Fail(Exit)
    ensures t != [] && t[0] == QUOTE ==> ParseChars(t) == Ok([], t[1..])
    ensures t != [] && t[0] != QUOTE ==>
              match FirstUnit(t)
              case Ok(b, rest) => ParseChars(t) == Prepend(b, ParseChars(rest))
              case Fail(e) => ParseChars(t) == Fail(e)
  {
    hide FirstUnit;
  }

  /** The terminated buffer reads as the characters collected so far. */
  lemma CharsDone(buffer: seq<byte>, held: seq<byte>, rest: seq<byte>)
    requires |held| < |buffer| && buffer[..|held|] == held && buffer[|held|] == 0
    ensures Prepend(held, Ok([], rest)) == Ok(held, rest) && CStr(buffer) == CStr(held)
  {
    assert held + [] == held;
    CStrCut(held, buffer);
  }

  /** What one turn of the loops over items and members adds to `r`: whether a comma or the closing `c` follows. */
  function Turn<T>(r: Result<T>, c: byte): Result<(T, bool)> {
    match r
    case Fail(e) => Fail(e)
    case Ok(v, r1) =>
      var r2 := SkipWs(r1);
      if StartsWith(r2, c) then Ok((v, false), r2[1..])
      else if StartsWith(r2, COMMA) then Ok((v, true), r2[1..])
      else Fail(Exit)
  }

  /** How one turn changes what has been collected and what is still to be read. */
  ghost predicate TurnTaken<T>(turn: Result<(T, bool)>, held: seq<T>, all: Result<seq<T>>, later: Result<seq<T>>) {
    match turn
    case Ok((v, more), rest) =>
      Prepend(held, all) == if more then Prepend(held + [v], later) else Ok(held + [v], rest)
    case Fail(e) => Prepend(held, all) == Fail(e)
  }

  /** What is left after a turn. */
  function Left<T>(turn: Result<T>): seq<byte> {
    if turn.Ok? then turn.rest else []
  }

  lemma ItemsTurn(held: seq<Json>, t: seq<byte>)
    ensures var turn := Turn(ParseValue(t), CLOSE_BRACKET);
            TurnTaken(turn, held, ParseItems(t), ParseItems(Left(turn)))
  {
    hide ParseValue, SkipWs;
    var turn := Turn(ParseValue(t), CLOSE_BRACKET);
    if turn.Ok? {
      PrependTwice(held, [turn.value.0], ParseItems(turn.rest));
    }
  }

  lemma MembersTurn(held: seq<Member>, t: seq<byte>)
    ensures var turn := Turn(ParseMember(t), CLOSE_BRACE);
            TurnTaken(turn, held, ParseMembers(t), ParseMembers(Left(turn)))
  {
    hide ParseMember, SkipWs;
    var turn := Turn(ParseMember(t), CLOSE_BRACE);
    if turn.Ok? {
      PrependTwice(held, [turn.value.0], ParseMembers(turn.rest));
    }
  }

  class Parser {
    const s: seq<byte>
    var pos: nat

    ghost predicate Valid()
      reads this
    {
      ZeroFree(s) && pos <= |s|
    }

    /** The text that is left. */
    function Rest(): seq<byte>
      requires pos <= |s|
      reads this
    {
      s[pos..]
    }

    constructor (text: seq<byte>)
      requires ZeroFree(text)
      ensures Valid() && s == text && Rest() == text
    {
      s := text;
      pos := 0;
    }

    /** The character at the position; the terminator at the end. */
    function Peek(): (c: byte)
      requires Valid()
      reads this
      ensures c == 0 <==> pos == |s|
      ensures c != 0 ==> Rest() != [] && Rest()[0] == c
      ensures c == 0 ==> Rest() == []
    {
      if pos < |s| then s[pos] else 0
    }

    method Advance()
      requires Valid() && Peek() != 0
      modifies this`pos
      ensures Valid() && pos == old(pos) + 1 && Rest() == old(Rest())[1..]
    {
      pos := pos + 1;
    }

    method SkipBlanks()
      requires Valid()
      modifies this`pos
      ensures Valid() && old(pos) <= pos
      ensures Rest() == SkipWs(old(Rest()))
    {
      while Peek() != 0 && IsSpace(Peek())
        invariant Valid() && old(pos) <= pos
        invariant SkipWs(Rest()) == SkipWs(old(Rest()))
        decreases |s| - pos
      {
        Advance();
      }
    }

    /** expect_str, then the value the word stands for. */
    method ExpectWord(word: seq<byte>, v: Json) returns (o: Outcome<Json>)
      requires Valid()
      modifies this`pos
      ensures Valid() && old(pos) <= pos
      ensures Agrees(ParseWord(old(Rest()), word, v), o, Rest())
    {
      if !(word <= s[pos..]) {
        return Stop(Exit);
      }
      assert Rest()[|word|..] == s[pos + |word|..];
      pos := pos + |word|;
      o := Done(v);
    }

    method SkipNumber()
      requires Valid()
      modifies this`pos
      ensures Valid() && pos == old(pos) + NumberSpan(old(Rest()))
    {
      ghost var start := pos;
      hide IsNumberChar;
      while Peek() != 0 && IsNumberChar(Peek())
        invariant Valid() && start <= pos
        invariant NumberSpan(s[start..]) == pos - start + NumberSpan(Rest())
        decreases |s| - pos
      {
        Advance();
      }
    }

    method ReadNumber() returns (v: Json)
      requires Valid()
      modifies this`pos
      ensures Valid() && old(pos) <= pos
      ensures Agrees(ParseNumber(old(Rest())), Done(v), Rest())
    {
      var start := pos;
      hide NumberSpan;
      SkipNumber();
      var nlen := pos - start;
      assert s[start..][..nlen] == s[start..pos] && s[start..][nlen..] == s[pos..];
      if nlen >= 128 {
        nlen := 127;
        assert s[start..pos][..nlen] == s[start..start + nlen];
      }
      v := Number(s[start..start + nlen]);
    }

    /** One character more, growing the buffer first when it would not leave room for a terminator. */
    static method Store(buf: array<byte>, len: nat, b: byte) returns (out: array<byte>)
      requires 64 <= buf.Length && len < buf.Length
      modifies buf
      ensures (out == buf || fresh(out)) && 64 <= out.Length && len + 1 < out.Length
      ensures out[..len + 1] == old(buf[..len]) + [b]
    {
      out := buf;
      if len + 1 >= out.Length {
        out := Double(out, len);
      }
      out[len] := b;
    }

    /** The bytes of an escaped code point. */
    static method StoreCode(buf: array<byte>, len: nat, cp: (bool, bv16)) returns (out: array<byte>, n: nat)
      requires 64 <= buf.Length && len < buf.Length
      modifies buf
      ensures (out == buf || fresh(out)) && 64 <= out.Length && n < out.Length
      ensures out[..n] == old(buf[..len]) + Stored(cp)
    {
      out := buf;
      if len + 4 >= out.Length {
        out := Double(out, len);
      }
      n := WriteCode(out, len, cp);
    }

    static method WriteCode(buf: array<byte>, len: nat, cp: (bool, bv16)) returns (n: nat)
      requires len + 3 < buf.Length
      modifies buf
      ensures n < buf.Length && buf[..n] == old(buf[..len]) + Stored(cp)
    {
      hide Lead2, Lead3, Middle3, Last, NegativeByte;
      ghost var held := buf[..len];
      var v := cp.1;
      if cp.0 && v != 0 {
        n := AppendByte(buf, len, NegativeByte(v));
      } else if v < 0x80 {
        n := AppendByte(buf, len, v as byte);
      } else if v < 0x800 {
        n := AppendByte(buf, len, Lead2(v));
        n := AppendByte(buf, n, Last(v));
        assert buf[..n] == held + [Lead2(v), Last(v)];
      } else {
        n := AppendByte(buf, len, Lead3(v));
        n := AppendByte(buf, n, Middle3(v));
        n := AppendByte(buf, n, Last(v));
        assert buf[..n] == held + [Lead3(v), Middle3(v), Last(v)];
      }
    }

    /** One turn of the loop over a string's characters. */
    method ReadUnit(buf: array<byte>, len: nat) returns (o: Outcome<()>, out: array<byte>, n: nat)
      requires Valid() && Peek() != 0
      requires 64 <= buf.Length && len < buf.Length
      modifies this`pos, buf
      ensures Valid() && old(pos) <= pos
      ensures (out == buf || fresh(out)) && 64 <= out.Length && n < out.Length
      ensures match FirstUnit(old(Rest()))
              case Ok(b, rest) => o == Done(()) && out[..n] == old(buf[..len]) + b && Rest() == rest && old(pos) < pos
              case Fail(e) => o == Stop(e)
    {
      out, n, o := buf, len, Done(());
      ghost var rest := Rest();
      hide Strtol16, Stored, ShortEscape;
      var c := Peek();
      if c == BACKSLASH {
        pos := pos + 1;
        var e := Peek();
        if e == LETTER_U {
          if pos + 5 > |s| {
            return Stop(Overread), out, n;
          }
          assert s[pos + 1..pos + 5] == rest[2..6] && rest[6..] == s[pos + 5..];
          out, n := StoreCode(out, n, Strtol16(s[pos + 1..pos + 5]));
          pos := pos + 5;
        } else {
          var escaped := ShortEscape(e);
          if escaped == None {
            return Stop(Exit), out, n;
          }
          assert rest[2..] == s[pos + 1..];
          out := Store(out, n, escaped.value);
          n := n + 1;
          pos := pos + 1;
        }
      } else {
        assert rest[1..] == s[pos + 1..];
        out := Store(out, n, c);
        n := n + 1;
        pos := pos + 1;
      }
    }

    /** The loop over the characters; the buffer always keeps room for the terminator. */
    method ReadChars() returns (o: Outcome<seq<byte>>)
      requires Valid()
      modifies this`pos
      ensures Valid() && old(pos) <= pos
      ensures match ParseChars(old(Rest()))
              case Ok(t, rest) => o == Done(CStr(t)) && Rest() == rest
              case Fail(e) => o == Stop(e)
    {
      ghost var text := Rest();
      var buf, len: nat := new byte[64], 0;
      PrependNothing(buf[..len], ParseChars(text));
      hide ParseChars, FirstUnit, Prepend, CStr;
      while Peek() != 0
        invariant Valid() && old(pos) <= pos
        invariant fresh(buf) && 64 <= buf.Length && len < buf.Length
        invariant ParseChars(text) == Prepend(buf[..len], ParseChars(Rest()))
        decreases |s| - pos
      {
        CharsStep(Rest());
        ghost var held, t := buf[..len], Rest();
        if Peek() == QUOTE {
          Advance();
          buf[len] := 0;
          CharsDone(buf[..], held, Rest());
          o := Done(CStr(buf[..]));
          return;
        }
        PrependFail(held, ParseChars(t));
        var u;
        u, buf, len := ReadUnit(buf, len);
        if u.Stop? {
          return Stop(u.error);
        }
        PrependTwice(held, FirstUnit(t).value, ParseChars(Rest()));
      }
      CharsStep(Rest());
      PrependFail(buf[..len], ParseChars(Rest()));
      o := Stop(Exit);
    }

    method ReadString() returns (o: Outcome<seq<byte>>)
      requires Valid()
      modifies this`pos
      ensures Valid() && old(pos) <= pos
      ensures Agrees(ParseString(old(Rest())), o, Rest())
    {
      if Peek() != QUOTE {
        return Stop(Exit);
      }
      Advance();
      o := ReadChars();
    }

    method ReadWord() returns (o: Outcome<Json>)
      requires Valid() && (Peek() == 0x74 || Peek() == 0x66 || Peek() == 0x6E)
      modifies this`pos
      ensures Valid() && old(pos) <= pos
      ensures Agrees(WordValue(old(Rest())), o, Rest())
    {
      hide ParseWord;
      if Peek() == 0x74 {
        o := ExpectWord(TRUE, Bool(true));
      } else if Peek() == 0x66 {
        o := ExpectWord(FALSE, Bool(false));
      } else {
        o := ExpectWord(NULL, Null);
      }
    }

    /** parse_value: position never moves back, and what is left plus the rank of the call gets smaller. */
    method ReadValue() returns (o: Outcome<Json>)
      requires Valid()
      modifies this`pos
      ensures Valid() && old(pos) <= pos
      ensures Agrees(ParseValue(old(Rest())), o, Rest())
      decreases |s| - pos, 1
    {
      hide SkipWs, ParseString, ParseNumber, WordValue, ParseObject, ParseArray;
      SkipBlanks();
      var c := Peek();
      if c == OPEN_BRACE {
        o := ReadObject();
      } else if c == OPEN_BRACKET {
        o := ReadArray();
      } else if c == QUOTE {
        var t := ReadString();
        o := if t.Done? then Done(String(t.value)) else Stop(t.error);
      } else if c == 0x74 || c == 0x66 || c == 0x6E {
        o := ReadWord();
      } else {
        var n := ReadNumber();
        o := Done(n);
      }
    }

    /** parse_array. */
    method ReadArray() returns (o: Outcome<Json>)
      requires Valid() && Peek() == OPEN_BRACKET
      modifies this`pos
      ensures Valid() && old(pos) <= pos
      ensures Agrees(ParseArray(old(Rest())[1..]), o, Rest())
      decreases |s| - pos, 0
    {
      hide SkipWs, ParseItems;
      Advance();
      SkipBlanks();
      if Peek() == CLOSE_BRACKET {
        Advance();
        return Done(Array([]));
      }
      var vs := ReadItems();
      o := if vs.Done? then Done(Array(vs.value)) else Stop(vs.error);
    }

    /** The character after an item or a member: `true` for a comma, `false` for the closing `c`. */
    method ReadSeparator(c: byte) returns (o: Outcome<bool>)
      requires Valid() && c != 0 && c != COMMA
      modifies this`pos
      ensures Valid() && old(pos) <= pos
      ensures var t := SkipWs(old(Rest()));
              if StartsWith(t, COMMA) then o == Done(true) && Rest() == t[1..] && old(pos) < pos
              else if StartsWith(t, c) then o == Done(false) && Rest() == t[1..]
              else o == Stop(Exit)
    {
      hide SkipWs;
      SkipBlanks();
      if Peek() == COMMA {
        Advance();
        return Done(true);
      }
      if Peek() == c {
        Advance();
        return Done(false);
      }
      o := Stop(Exit);
    }

    /** One turn of the loop of parse_array: an item, stored, and whether another one follows. */
    method ReadItemTurn(items: array<Json>, count: nat) returns (o: Outcome<bool>, out: array<Json>)
      requires Valid() && 8 <= items.Length && count <= items.Length
      modifies this`pos, items
      ensures Valid() && old(pos) <= pos
      ensures (out == items || fresh(out)) && 8 <= out.Length
      ensures match Turn(ParseValue(old(Rest())), CLOSE_BRACKET)
              case Ok((v, more), rest) =>
                && o == Done(more) && Rest() == rest && (more ==> old(pos) < pos)
                && count < out.Length && out[..count + 1] == old(items[..count]) + [v]
              case Fail(e) => o == Stop(e)
      decreases |s| - pos, 3
    {
      hide ParseValue, SkipWs;
      out := items;
      var item := ReadValue();
      if item.Stop? {
        return Stop(item.error), out;
      }
      out := Append(out, count, item.value);
      o := ReadSeparator(CLOSE_BRACKET);
    }

    /** The loop of parse_array, which doubles the array of items when it is full. */
    method ReadItems() returns (o: Outcome<seq<Json>>)
      requires Valid()
      modifies this`pos
      ensures Valid() && old(pos) <= pos
      ensures Agrees(ParseItems(old(Rest())), o, Rest())
      decreases |s| - pos, 4
    {
      ghost var text := Rest();
      var items, count: nat := new Json[8], 0;
      PrependNothing(items[..count], ParseItems(text));
      hide ParseItems, ParseValue, Prepend, Turn;
      while true
        invariant Valid() && old(pos) <= pos
        invariant fresh(items) && 8 <= items.Length && count <= items.Length
        invariant ParseItems(text) == Prepend(items[..count], ParseItems(Rest()))
        decreases |s| - pos
      {
        ItemsTurn(items[..count], Rest());
        var more;
        more, items := ReadItemTurn(items, count);
        if more.Stop? {
          return Stop(more.error);
        }
        count := count + 1;
        if !more.value {
          return Done(items[..count]);
        }
      }
    }

    /** parse_object. */
    method ReadObject() returns (o: Outcome<Json>)
      requires Valid() && Peek() == OPEN_BRACE
      modifies this`pos
      ensures Valid() && old(pos) <= pos
      ensures Agrees(ParseObject(old(Rest())[1..]), o, Rest())
      decreases |s| - pos, 0
    {
      hide SkipWs, ParseMembers;
      Advance();
      SkipBlanks();
      if Peek() == CLOSE_BRACE {
        Advance();
        return Done(Object([]));
      }
      var ms := ReadMembers();
      o := if ms.Done? then Done(Object(ms.value)) else Stop(ms.error);
    }

    /** One key, a colon and a value. */
    method ReadMember() returns (o: Outcome<Member>)
      requires Valid()
      modifies this`pos
      ensures Valid() && old(pos) <= pos
      ensures Agrees(ParseMember(old(Rest())), o, Rest())
      decreases |s| - pos, 2
    {
      hide ParseString, SkipWs, ParseValue;
      SkipBlanks();
      var key := ReadString();
      if key.Stop? {
        return Stop(key.error);
      }
      SkipBlanks();
      if Peek() != COLON {
        return Stop(Exit);
      }
      Advance();
      var v := ReadValue();
      o := if v.Done? then Done(Member(key.value, v.value)) else Stop(v.error);
    }

    /** One turn of the loop of parse_object: a member, stored, and whether another one follows. */
    method ReadMemberTurn(members: array<Member>, count: nat) returns (o: Outcome<bool>, out: array<Member>)
      requires Valid() && 8 <= members.Length && count <= members.Length
      modifies this`pos, members
      ensures Valid() && old(pos) <= pos
      ensures (out == members || fresh(out)) && 8 <= out.Length
      ensures match Turn(ParseMember(old(Rest())), CLOSE_BRACE)
              case Ok((v, more), rest) =>
                && o == Done(more) && Rest() == rest && (more ==> old(pos) < pos)
                && count < out.Length && out[..count + 1] == old(members[..count]) + [v]
              case Fail(e) => o == Stop(e)
      decreases |s| - pos, 3
    {
      hide ParseMember, SkipWs;
      out := members;
      var member := ReadMember();
      if member.Stop? {
        return Stop(member.error), out;
      }
      out := Append(out, count, member.value);
      o := ReadSeparator(CLOSE_BRACE);
    }

    /** The loop of parse_object, which doubles the array of members when it is full. */
    method ReadMembers() returns (o: Outcome<seq<Member>>)
      requires Valid()
      modifies this`pos
      ensures Valid() && old(pos) <= pos
      ensures Agrees(ParseMembers(old(Rest())), o, Rest())
      decreases |s| - pos, 4
    {
      ghost var text := Rest();
      var members, count: nat := new Member[8], 0;
      PrependNothing(members[..count], ParseMembers(text));
      hide ParseMembers, ParseMember, Prepend, Turn;
      while true
        invariant Valid() && old(pos) <= pos
        invariant fresh(members) && 8 <= members.Length && count <= members.Length
        invariant ParseMembers(text) == Prepend(members[..count], ParseMembers(Rest()))
        decreases |s| - pos
      {
        MembersTurn(members[..count], Rest());
        var more;
        more, members := ReadMemberTurn(members, count);
        if more.Stop? {
          return Stop(more.error);
        }
        count := count + 1;
        if !more.value {
          return Done(members[..count]);
        }
      }
    }
  }

  /** json_parse; blanks after the value are skipped and whatever follows them is ignored. */
  method JsonParse(text: seq<byte>) returns (o: Outcome<Json>)
    requires ZeroFree(text)
    ensures match ParseValue(text)
            case Ok(v, _) => o == Done(v)
            case Fail(e) => o == Stop(e)
  {
    hide ParseValue, SkipWs;
    var p := new Parser(text);
    o := p.ReadValue();
    if o.Done? {
      p.SkipBlanks();
    }
  }

  /** json_get: the value of the first member with the key. */
  method JsonGet(obj: Json, key: seq<byte>) returns (r: Option<Json>)
    ensures obj.Object? && r.Some? ==>
              exists i :: 0 <= i < |obj.members| && obj.members[i] == Member(key, r.value)
                          && forall j :: 0 <= j < i ==> obj.members[j].key != key
    ensures r == None <==> (obj.Object? ==> forall i :: 0 <= i < |obj.members| ==> obj.members[i].key != key)
  {
    if !obj.Object? {
      return None;
    }
    for i := 0 to |obj.members|
      invariant forall j :: 0 <= j < i ==> obj.members[j].key != key
    {
      if obj.members[i].key == key {
        return Some(obj.members[i].value);
      }
    }
    r := None;
  }
}
