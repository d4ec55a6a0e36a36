/** The message writer of src/protobuf.c, whose varint loop stops one value too early, and readers for its output. */
module Protobuf {
  import opened Bytes

  const TWO32: nat := 0x1_0000_0000
  const TWO64: nat := 0x1_0000_0000_0000_0000

  // ---------------------------------------------------------------- varints

  /** The bytes written for `n`: the loop goes on while n > 0x80, where the standard says n >= 0x80. */
  function Varint32(n: nat): (s: seq<byte>)
    ensures s != []
  {
    if n > 0x80 then [ToByte(n % 128 + 128)] + Varint32(n / 128) else [ToByte(n % 128)]
  }

  /** write_varint keeps the low 32 bits. */
  function Varint(v: nat): seq<byte> {
    Varint32(v % TWO32)
  }

  /** The varint of the Protocol Buffers encoding. */
  function StandardVarint(n: nat): seq<byte> {
    if n >= 0x80 then [ToByte(n % 128 + 128)] + StandardVarint(n / 128) else [ToByte(n)]
  }

  /** The base-128 digits of `n`, the least significant first. */
  function Digits(n: nat): (d: seq<nat>)
    ensures d != []
  {
    if n < 128 then [n] else [n % 128] + Digits(n / 128)
  }

  /** The leading base-128 digits of `n` are 1, 0. */
  predicate LeadingOneZero(n: nat) {
    var d := Digits(n);
    |d| >= 2 && d[|d| - 1] == 1 && d[|d| - 2] == 0
  }

  /** Reads one varint. With `quirk`, a final 0x00 after other bytes stands for the digit 0x80. */
  function ReadFrom(quirk: bool, first: bool, s: seq<byte>): (r: Option<(nat, seq<byte>)>)
    ensures r.Some? ==> |r.value.1| < |s|
  {
    if s == [] then None
    else
      var b := s[0] as nat;
      if b < 128 then Some((if quirk && !first && b == 0 then 128 else b, s[1..]))
      else
        match ReadFrom(quirk, false, s[1..])
        case None => None
        case Some((v, rest)) => Some((b - 128 + 128 * v, rest))
  }

  function Read(quirk: bool, s: seq<byte>): (r: Option<(nat, seq<byte>)>)
    ensures r.Some? ==> |r.value.1| < |s|
  {
    ReadFrom(quirk, true, s)
  }

  /** What a reader makes of the bytes written for `n`. */
  function Seen(quirk: bool, first: bool, n: nat): nat {
    if n > 128 then n % 128 + 128 * Seen(quirk, false, n / 128)
    else if n == 128 then (if quirk && !first then 128 else 0)
    else n
  }

  lemma {:induction false} ReadWritten(quirk: bool, first: bool, n: nat, rest: seq<byte>)
    requires first || n > 0
    ensures ReadFrom(quirk, first, Varint32(n) + rest) == Some((Seen(quirk, first, n), rest))
  {
    hide ToByte;
    var s := Varint32(n) + rest;
    if n > 128 {
      assert s[1..] == Varint32(n / 128) + rest;
      ReadWritten(quirk, false, n / 128, rest);
    } else {
      assert s[1..] == rest;
    }
  }

  lemma {:induction false} SeenByQuirkReader(first: bool, n: nat)
    ensures Seen(true, first, n) == if first && n == 128 then 0 else n
  {
    if n > 128 {
      SeenByQuirkReader(false, n / 128);
    }
  }

  lemma TwoDigits(n: nat)
    requires 128 <= n < 0x4000
    ensures Digits(n) == [n % 128, n / 128]
  {
  }

  lemma MoreDigits(n: nat)
    requires 0x4000 <= n
    ensures Digits(n) == [n % 128] + Digits(n / 128) && |Digits(n / 128)| >= 2
  {
    assert Digits(n / 128) == [n / 128 % 128] + Digits(n / 128 / 128);
  }

  lemma LeadingStep(n: nat)
    requires n >= 128
    ensures |Digits(n)| == |Digits(n / 128)| + 1
    ensures LeadingOneZero(n) <==> n == 128 || LeadingOneZero(n / 128)
  {
    if n < 0x4000 {
      TwoDigits(n);
      NoLeading(n / 128);
      assert Digits(n / 128) == [n / 128];
    } else {
      MoreDigits(n);
      hide Digits;
    }
  }

  lemma NoLeading(n: nat)
    requires n < 128
    ensures !LeadingOneZero(n)
  {
  }

  lemma {:induction false} StandardReaderSees(first: bool, n: nat)
    ensures Seen(false, first, n) == if LeadingOneZero(n) then n - Pow(128, |Digits(n)| - 1) else n
  {
    hide LeadingOneZero;
    if n > 128 {
      hide Digits;
      LeadingStep(n);
      StandardReaderSees(false, n / 128);
      assert Pow(128, |Digits(n)| - 1) == 128 * Pow(128, |Digits(n / 128)| - 1);
    } else if n == 128 {
      LeadingStep(n);
      assert Digits(1) == [1] && Pow(128, 1) == 128 * Pow(128, 0);
    } else {
      NoLeading(n);
    }
  }

  lemma {:induction false} WriterStopsEarly(n: nat)
    ensures LeadingOneZero(n) ==> |Varint32(n)| == |StandardVarint(n)| - 1
    ensures !LeadingOneZero(n) ==> Varint32(n) == StandardVarint(n)
  {
    hide LeadingOneZero, ToByte, Digits;
    if n > 128 {
      LeadingStep(n);
      WriterStopsEarly(n / 128);
      assert Varint32(n) == [ToByte(n % 128 + 128)] + Varint32(n / 128);
      assert StandardVarint(n) == [ToByte(n % 128 + 128)] + StandardVarint(n / 128);
    } else if n == 128 {
      LeadingStep(n);
      assert StandardVarint(n) == [ToByte(128)] + StandardVarint(1);
    } else {
      NoLeading(n);
      assert n % 128 == n;
    }
  }

  /** A standard reader gets `n` back exactly when the leading base-128 digits of `n` are not 1, 0. Otherwise the
      writer has stopped one byte short of the standard encoding, and the leading digit is lost. */
  lemma StandardReading(n: nat, rest: seq<byte>)
    ensures var loss := Pow(128, |Digits(n)| - 1);
            if LeadingOneZero(n) then
              && Read(false, Varint32(n) + rest) == Some((n - loss, rest))
              && |Varint32(n)| == |StandardVarint(n)| - 1
            else
              && Read(false, Varint32(n) + rest) == Some((n, rest))
              && Varint32(n) == StandardVarint(n)
  {
    hide Varint32, StandardVarint, ReadFrom, Seen, Digits, LeadingOneZero, Pow;
    ReadWritten(false, true, n, rest);
    StandardReaderSees(true, n);
    WriterStopsEarly(n);
  }

  /** A reader that knows the quirk gets every value back but 128, which is written as 0 is. */
  lemma QuirkReading(n: nat, rest: seq<byte>)
    ensures Read(true, Varint32(n) + rest) == Some((if n == 128 then 0 else n, rest))
  {
    ReadWritten(true, true, n, rest);
    SeenByQuirkReader(true, n);
  }

  /** The only two values written alike are 0 and 128. */
  lemma WriterInjective(a: nat, b: nat)
    ensures Varint32(a) == Varint32(b) <==> a == b || (a == 0 && b == 128) || (a == 128 && b == 0)
  {
    QuirkReading(a, []);
    QuirkReading(b, []);
    assert Varint32(a) + [] == Varint32(a) && Varint32(b) + [] == Varint32(b);
    assert Varint32(128) == [ToByte(0)] == Varint32(0);
  }

  lemma {:induction false} VarintLengthBelow(n: nat, k: nat)
    requires 1 <= k && n < Pow(128, k)
    ensures |Varint32(n)| <= k
  {
    if n > 128 {
      assert k > 1 by { assert Pow(128, 1) == 128 * Pow(128, 0); }
      VarintLengthBelow(n / 128, k - 1);
    }
  }

  /** A 32-bit value takes at most five bytes. */
  lemma VarintLength(v: nat)
    ensures |Varint(v)| <= 5
  {
    assert Pow(128, 5) == 128 * 128 * 128 * Pow(128, 2);
    assert Pow(128, 2) == 128 * 128 * Pow(128, 0);
    VarintLengthBelow(v % TWO32, 5);
  }

  // ---------------------------------------------------------------- fields

  const KIND_VARINT := 0
  const KIND_STRING := 2

  datatype Field = Field(idx: nat, kind: int, varint: nat, data: seq<byte>)

  function Number(idx: nat, value: nat): Field {
    Field(idx, KIND_VARINT, value, [])
  }

  function Text(idx: nat, data: seq<byte>): Field {
    Field(idx, KIND_STRING, 0, data)
  }

  /** (idx << 3) | (kind & 7) in 64 bits. */
  function Key(f: Field): nat {
    f.idx * 8 % TWO64 + f.kind % 8
  }

  /** The key tells the low three bits of the kind and the low 61 of the number. */
  lemma KeyTells(f: Field)
    ensures Key(f) % 8 == f.kind % 8 && Key(f) / 8 == f.idx % 0x2000_0000_0000_0000
  {
    var q, r := f.idx / 0x2000_0000_0000_0000, f.idx % 0x2000_0000_0000_0000;
    assert f.idx * 8 == TWO64 * q + 8 * r;
    assert f.idx * 8 % TWO64 == 8 * r;
  }

  /** Everything written for a field but the bytes of a string. */
  function Header(f: Field): seq<byte> {
    Varint(Key(f)) + (if f.kind == KIND_VARINT then Varint(f.varint)
                      else if f.kind == KIND_STRING then Varint(|f.data|)
                      else [])
  }

  function EncodeField(f: Field): seq<byte> {
    Header(f) + (if f.kind == KIND_STRING then f.data else [])
  }

  function Serialize(fs: seq<Field>): seq<byte> {
    if fs == [] then [] else EncodeField(fs[0]) + Serialize(fs[1..])
  }

  /** What follows a key: a varint, or a length and that many bytes; other kinds are refused. */
  function ReadBody(quirk: bool, key: nat, s: seq<byte>): (r: Option<(Field, seq<byte>)>)
    ensures r.Some? ==> |r.value.1| < |s|
    ensures r.Some? ==> r.value.0.idx * 8 + r.value.0.kind == key
  {
    match Read(quirk, s)
    case None => None
    case Some((v, rest)) =>
      if key % 8 == 0 then Some((Number(key / 8, v), rest))
      else if key % 8 == 2 && v <= |rest| then Some((Text(key / 8, rest[..v]), rest[v..]))
      else None
  }

  function ReadField(quirk: bool, s: seq<byte>): (r: Option<(Field, seq<byte>)>)
    ensures r.Some? ==> |r.value.1| < |s|
  {
    match Read(quirk, s)
    case None => None
    case Some((key, rest)) => ReadBody(quirk, key, rest)
  }

  function Parse(quirk: bool, s: seq<byte>): Option<seq<Field>>
    decreases |s|
  {
    if s == [] then Some([])
    else
      match ReadField(quirk, s)
      case None => None
      case Some((f, rest)) =>
        match Parse(quirk, rest)
        case None => None
        case Some(fs) => Some([f] + fs)
  }

  /** The fields the format can carry: two kinds, a field number below 2^29, a length below 2^32. */
  predicate Carried(f: Field) {
    && f.idx < 0x2000_0000
    && (f.kind == KIND_VARINT || f.kind == KIND_STRING)
    && (if f.kind == KIND_VARINT then f.data == [] else f.varint == 0 && |f.data| < TWO32)
  }

  /** The field as it arrives: the value cut to 32 bits. */
  function Arrived(f: Field): Field {
    f.(varint := f.varint % TWO32)
  }

  /** The integers a reader of the given kind gets back. */
  predicate Safe(quirk: bool, n: nat) {
    if quirk then n != 128 else !LeadingOneZero(n)
  }

  /** Every integer written for the field, key and length included, is safe. */
  predicate SafeField(quirk: bool, f: Field) {
    && Safe(quirk, Key(f) % TWO32)
    && Safe(quirk, Value(f) % TWO32)
  }

  /** Below 2^14 only 128 is unsafe, for either reader. */
  lemma SafeBelow(quirk: bool, n: nat)
    requires n < 0x4000
    ensures Safe(quirk, n) <==> n != 128
  {
    hide LeadingOneZero;
    if n < 128 {
      NoLeading(n);
    } else {
      LeadingStep(n);
      NoLeading(n / 128);
    }
  }

  /** A number is as safe as what its leading digits say. */
  lemma SafeStep(quirk: bool, n: nat)
    requires 128 < n && Safe(quirk, n / 128) && n / 128 != 128
    ensures Safe(quirk, n)
  {
    hide LeadingOneZero;
    LeadingStep(n);
  }

  lemma ReadVarint(quirk: bool, v: nat, rest: seq<byte>)
    ensures Read(quirk, Varint(v) + rest) == Some((Seen(quirk, true, v % TWO32), rest))
    ensures Seen(quirk, true, v % TWO32) == v % TWO32 <==> Safe(quirk, v % TWO32)
  {
    var n := v % TWO32;
    ReadWritten(quirk, true, n, rest);
    if quirk {
      SeenByQuirkReader(true, n);
    } else {
      StandardReaderSees(true, n);
    }
  }

  function Value(f: Field): nat {
    if f.kind == KIND_VARINT then f.varint else |f.data|
  }

  function Payload(f: Field): seq<byte> {
    if f.kind == KIND_STRING then f.data else []
  }

  lemma KeyOfCarried(f: Field)
    requires Carried(f)
    ensures Key(f) % TWO32 == f.idx * 8 + f.kind
    ensures f.kind == KIND_STRING ==> Value(f) % TWO32 == Value(f)
  {
  }

  lemma ReadBodyEncoded(quirk: bool, f: Field, rest: seq<byte>)
    requires Carried(f)
    ensures var r := ReadBody(quirk, f.idx * 8 + f.kind, Varint(Value(f)) + (Payload(f) + rest));
            if Safe(quirk, Value(f) % TWO32) then r == Some((Arrived(f), rest)) else r.None? || r.value.0 != Arrived(f)
  {
    KeyOfCarried(f);
    var s := Payload(f) + rest;
    ReadVarint(quirk, Value(f), s);
    hide Varint, Read, Seen, Safe;
    assert s[..|Payload(f)|] == Payload(f) && s[|Payload(f)|..] == rest;
  }

  lemma EncodedParts(f: Field, rest: seq<byte>)
    requires Carried(f)
    ensures EncodeField(f) + rest == Varint(Key(f)) + (Varint(Value(f)) + (Payload(f) + rest))
  {
    hide Varint, Key;
  }

  /** One field: read back exactly if its integers are safe, and never mistaken for itself otherwise. */
  lemma ReadEncoded(quirk: bool, f: Field, rest: seq<byte>)
    requires Carried(f)
    ensures var r := ReadField(quirk, EncodeField(f) + rest);
            if SafeField(quirk, f) then r == Some((Arrived(f), rest)) else r.None? || r.value.0 != Arrived(f)
  {
    EncodedParts(f, rest);
    ReadVarint(quirk, Key(f), Varint(Value(f)) + (Payload(f) + rest));
    KeyOfCarried(f);
    ReadBodyEncoded(quirk, f, rest);
    hide EncodeField, Varint, Read, Seen, Safe, ReadBody, Value, Payload, Key, Carried;
  }

  function ArrivedAll(fs: seq<Field>): (r: seq<Field>)
    ensures |r| == |fs|
  {
    if fs == [] then [] else [Arrived(fs[0])] + ArrivedAll(fs[1..])
  }

  /** A message is read back field for field exactly when every integer written for it is safe: none is 128 for
      a reader that knows the quirk, none has leading base-128 digits 1, 0 for a standard one. */
  lemma {:induction false} ParseSerialized(quirk: bool, fs: seq<Field>)
    requires forall f :: f in fs ==> Carried(f)
    ensures Parse(quirk, Serialize(fs)) == Some(ArrivedAll(fs)) <==> forall f :: f in fs ==> SafeField(quirk, f)
  {
    hide ReadField, EncodeField, Carried, SafeField;
    if fs != [] {
      ReadEncoded(quirk, fs[0], Serialize(fs[1..]));
      ParseSerialized(quirk, fs[1..]);
      assert forall f :: f in fs <==> f == fs[0] || f in fs[1..];
      EncodedNonempty(fs[0]);
      var s, head, tail := Serialize(fs), ArrivedAll(fs)[0], ArrivedAll(fs)[1..];
      var p := Parse(quirk, s);
      assert ArrivedAll(fs) == [head] + tail && tail == ArrivedAll(fs[1..]);
      if p.Some? {
        assert p.value[0] == ReadField(quirk, s).value.0;
        assert p.value[1..] == Parse(quirk, ReadField(quirk, s).value.1).value;
      }
    }
  }

  /** The unsafe fields of a message are never all read as themselves: if every field is safe or is read, at its place,
      as it was written, then all are safe. */
  lemma {:induction false} ReadIsSafe(quirk: bool, fs: seq<Field>)
    requires forall f :: f in fs ==> Carried(f)
    requires Parse(quirk, Serialize(fs)).Some?
    requires var read := Parse(quirk, Serialize(fs)).value;
             forall j :: 0 <= j < |fs| ==> SafeField(quirk, fs[j]) || (j < |read| && read[j] == Arrived(fs[j]))
    ensures forall f :: f in fs ==> SafeField(quirk, f)
  {
    hide ReadField, EncodeField, Carried, SafeField, Arrived;
    if fs != [] {
      var read := Parse(quirk, Serialize(fs)).value;
      EncodedNonempty(fs[0]);
      ReadEncoded(quirk, fs[0], Serialize(fs[1..]));
      assert read[0] == ReadField(quirk, Serialize(fs)).value.0;
      assert SafeField(quirk, fs[0]);
      var later := Parse(quirk, Serialize(fs[1..])).value;
      assert read == [read[0]] + later;
      assert forall j :: 0 <= j < |fs| - 1 ==> fs[1..][j] == fs[j + 1] && (j < |later| ==> later[j] == read[j + 1]);
      ReadIsSafe(quirk, fs[1..]);
      assert forall f :: f in fs <==> f == fs[0] || f in fs[1..];
    }
  }

  lemma EncodedNonempty(f: Field)
    ensures EncodeField(f) != []
  {
  }

  // ---------------------------------------------------------------- the writer

  method WriteVarint(out: array<byte>, start: nat, value: nat) returns (pos: nat)
    requires start + |Varint(value)| <= out.Length
    modifies out
    ensures pos == start + |Varint(value)|
    ensures out[..pos] == old(out[..start]) + Varint(value)
    ensures out[pos..] == old(out[pos..])
  {
    pos := start;
    var vint: nat := value % TWO32;
    ghost var whole := out[..start] + Varint(value);
    while vint > 0x80
      invariant pos + |Varint32(vint)| == |whole|
      invariant out[..pos] + Varint32(vint) == whole
      invariant out[|whole|..] == old(out[|whole|..])
      decreases vint
    {
      var b := ToByte(vint % 128 + 128);
      Assoc(out[..pos], [b], Varint32(vint / 128));
      assert Varint32(vint) == [b] + Varint32(vint / 128);
      hide *;
      ghost var done := out[..pos];
      out[pos] := b;
      pos := pos + 1;
      assert out[..pos] == done + [b];
      vint := vint / 128;
    }
    out[pos] := ToByte(vint % 128);
    pos := pos + 1;
  }

  lemma {:induction false} SerializeSnoc(fs: seq<Field>, i: nat)
    requires i < |fs|
    ensures Serialize(fs[..i + 1]) == Serialize(fs[..i]) + EncodeField(fs[i])
  {
    hide EncodeField;
    if i == 0 {
      assert fs[..1] == [fs[0]];
    } else {
      assert fs[..i + 1][1..] == fs[1..][..i] && fs[..i][1..] == fs[1..][..i - 1];
      SerializeSnoc(fs[1..], i - 1);
      Assoc(EncodeField(fs[0]), Serialize(fs[1..][..i - 1]), EncodeField(fs[i]));
    }
  }

  lemma {:induction false} SerializeGrows(fs: seq<Field>, i: nat)
    requires i <= |fs|
    ensures |Serialize(fs[..i])| <= |Serialize(fs)|
  {
    hide EncodeField;
    if i > 0 {
      assert fs[..i][1..] == fs[1..][..i - 1];
      SerializeGrows(fs[1..], i - 1);
    }
  }

  /** Everything but, perhaps, the bytes of a final string lies inside the buffer: the writer checks its bounds
      only before copying a string. */
  ghost predicate InBounds(fs: seq<Field>, cap: nat) {
    fs != [] ==> |Serialize(fs[..|fs| - 1])| + |Header(fs[|fs| - 1])| <= cap
  }

  lemma InBoundsEach(fs: seq<Field>, cap: nat, i: nat)
    requires InBounds(fs, cap) && i < |fs|
    ensures |Serialize(fs[..i])| + |Header(fs[i])| <= cap
  {
    if i < |fs| - 1 {
      var front := fs[..|fs| - 1];
      SerializeGrows(front, i + 1);
      assert front[..i + 1] == fs[..i + 1];
      SerializeSnoc(fs, i);
      hide Header, Serialize;
    }
  }

  lemma InBoundsWhole(fs: seq<Field>, cap: nat)
    requires |Serialize(fs)| <= cap
    ensures InBounds(fs, cap)
  {
    if fs != [] {
      SerializeSnoc(fs, |fs| - 1);
      assert fs[..|fs|] == fs;
      hide Header, Serialize;
    }
  }

  lemma {:induction false} SerializedLength(fs: seq<Field>)
    ensures |Serialize(fs)| <= 10 * |fs| + DataLength(fs)
  {
    hide Varint, Key;
    if fs != [] {
      VarintLength(Key(fs[0]));
      VarintLength(fs[0].varint);
      VarintLength(|fs[0].data|);
      SerializedLength(fs[1..]);
    }
  }

  function DataLength(fs: seq<Field>): nat {
    if fs == [] then 0 else |fs[0].data| + DataLength(fs[1..])
  }

  method WriteHeader(out: array<byte>, start: nat, f: Field) returns (pos: nat)
    requires start + |Header(f)| <= out.Length
    modifies out
    ensures pos == start + |Header(f)|
    ensures out[..pos] == old(out[..start]) + Header(f)
  {
    hide Varint, Key;
    pos := WriteVarint(out, start, Key(f));
    if f.kind == KIND_VARINT {
      pos := WriteVarint(out, pos, f.varint);
    } else if f.kind == KIND_STRING {
      pos := WriteVarint(out, pos, |f.data|);
    }
  }

  /** Returns the length of the whole message; if that is within the buffer, the buffer holds the message. */
  method PbSerialize(fields: seq<Field>, out: array<byte>) returns (pos: nat)
    requires InBounds(fields, out.Length)
    modifies out
    ensures pos == |Serialize(fields)|
    ensures pos <= out.Length ==> out[..pos] == Serialize(fields)
  {
    pos := 0;
    for i := 0 to |fields|
      invariant pos == |Serialize(fields[..i])|
      invariant pos <= out.Length ==> out[..pos] == Serialize(fields[..i])
    {
      InBoundsEach(fields, out.Length, i);
      SerializeSnoc(fields, i);
      hide Header, Serialize;
      ghost var done, header := Serialize(fields[..i]), Header(fields[i]);
      var f := fields[i];
      pos := WriteHeader(out, pos, f);
      if f.kind == KIND_STRING {
        if pos + |f.data| <= out.Length {
          Assoc(done, header, f.data);
          CopyInto(out, pos, f.data);
        }
        pos := pos + |f.data|;
      }
    }
    assert fields[..|fields|] == fields;
  }
}
