// The grammar of the wire format with its numbers written out, after the Protocol Buffers
// Encoding guide, and the proof that the readers accept exactly what it admits and the
// writers write what it says.
module Grammar {
  import opened Wire
  import opened Fields

  // ---------- the grammar ----------

  // A tag is a varint, of any length up to ten, that spells the field number and the wire type.
  ghost predicate SpellsTag(t: seq<byte>, num: int, wireType: int)
  {
    IsVarint(t) && |t| <= 10 && Digits(t) % 0x1_0000_0000 == 8 * num + wireType
  }

  ghost predicate SpellsNumber(v: seq<byte>, n: int)
  {
    IsVarint(v) && |v| <= 10 && Digits(v) % 0x1_0000_0000_0000_0000 == n
  }

  // VARINT, I64, LEN, SGROUP, EGROUP and I32 of the guide are 0, 1, 2, 3, 4 and 5.
  function TypeNumber(f: Field): int
  {
    match f
    case Varint(_, _) => 0
    case Fixed64(_, _) => 1
    case Len(_, _) => 2
    case Group(_, _) => 3
    case Fixed32(_, _) => 5
  }

  ghost predicate Spells(f: Field, e: seq<byte>)
    decreases f, 2
  {
    exists i: nat | i <= |e| :: SpellsAt(f, e, i)
  }

  // The tag ends at i.
  ghost predicate SpellsAt(f: Field, e: seq<byte>, i: nat)
    requires i <= |e|
    decreases f, 1
  {
    SpellsTag(e[..i], f.num, TypeNumber(f)) && SpellsPayload(f, e[i..])
  }

  ghost predicate SpellsPayload(f: Field, p: seq<byte>)
    decreases f, 0
  {
    match f
    case Varint(_, v) => SpellsNumber(p, v)
    case Fixed64(_, raw) => p == raw
    case Len(_, data) => SpellsData(data, p)
    case Group(num, fs) => SpellsBody(num, fs, p)
    case Fixed32(_, raw) => p == raw
  }

  // Records, and then the end of group `num`.
  ghost predicate SpellsBody(num: int, fs: seq<Field>, p: seq<byte>)
    decreases fs, 1
  {
    exists i | 0 <= i <= |p| :: SpellsAll(fs, p[..i]) && SpellsTag(p[i..], num, 4)
  }

  ghost predicate SpellsData(data: Blob, p: seq<byte>)
  {
    exists i | 0 <= i <= |p| :: SpellsNumber(p[..i], |data|) && p[i..] == data
  }

  ghost predicate SpellsAll(fs: seq<Field>, e: seq<byte>)
    decreases fs, 0
  {
    if fs == [] then e == []
    else exists i | 0 <= i <= |e| :: Spells(fs[0], e[..i]) && SpellsAll(fs[1..], e[i..])
  }

  // ---------- what is spelled is read ----------

  lemma TagIsRead(t: seq<byte>, num: FieldNumber, wireType: int, post: seq<byte>)
    requires 0 <= wireType < 8 && SpellsTag(t, num, wireType)
    ensures ReadTag(t + post) == Got(MakeTag(num, wireType), post)
  {
    SpellingIsRead(t, MAX_VARINT_BYTES, post);
  }

  lemma NumberIsRead(v: seq<byte>, n: uint64, post: seq<byte>)
    requires SpellsNumber(v, n)
    ensures ReadVarint(v + post) == Got(n, post)
  {
    SpellingIsRead(v, MAX_VARINT_BYTES, post);
  }

  lemma {:induction false} SplitField(f: Field, e: seq<byte>) returns (t: seq<byte>, p: seq<byte>)
    requires Spells(f, e)
    ensures e == t + p && SpellsTag(t, f.num, TypeNumber(f)) && SpellsPayload(f, p)
  {
    var i: nat :| i <= |e| && SpellsAt(f, e, i);
    t, p := e[..i], e[i..];
  }

  lemma {:induction false} SplitGroup(num: FieldNumber, fs: seq<Field>, p: seq<byte>)
    returns (e: seq<byte>, end: seq<byte>)
    requires SpellsBody(num, fs, p)
    ensures p == e + end && SpellsAll(fs, e) && SpellsTag(end, num, 4)
  {
    var i :| 0 <= i <= |p| && SpellsAll(fs, p[..i]) && SpellsTag(p[i..], num, 4);
    e, end := p[..i], p[i..];
  }

  lemma {:induction false} SplitAll(fs: seq<Field>, e: seq<byte>) returns (first: seq<byte>, rest: seq<byte>)
    requires fs != [] && SpellsAll(fs, e)
    ensures e == first + rest && Spells(fs[0], first) && SpellsAll(fs[1..], rest)
  {
    var i :| 0 <= i <= |e| && Spells(fs[0], e[..i]) && SpellsAll(fs[1..], e[i..]);
    first, rest := e[..i], e[i..];
  }

  lemma {:induction false} FieldIsRead(f: Field, e: seq<byte>, budget: nat, post: seq<byte>)
    requires Spells(f, e)
    ensures ReadTag(e + post).Got? && ReadTag(e + post).value == MakeTag(f.num, TypeNumber(f))
    ensures ReadField(e + post, budget) == Expected(f, budget, post)
    decreases f, 1
  {
    var t, p := SplitField(f, e);
    Associative(t, p, post);
    TagIsRead(t, f.num, TypeNumber(f), p + post);
    FieldAfterTag(e + post, MakeTag(f.num, TypeNumber(f)), p + post, budget);
    PayloadIsRead(f, p, budget, post);
  }

  lemma {:induction false} PayloadIsRead(f: Field, p: seq<byte>, budget: nat, post: seq<byte>)
    requires SpellsPayload(f, p)
    ensures ReadPayload(MakeTag(f.num, TypeNumber(f)), p + post, budget) == Expected(f, budget, post)
    decreases f, 0
  {
    match f
    case Varint(num, v) =>
      NumberIsRead(p, v, post);
      VarintPayload(num, v, p + post, post, budget);
    case Fixed64(num, raw) => Fixed64Payload(num, raw, post, budget);
    case Len(num, data) =>
      DataIsRead(data, p, post);
      DataPayload(num, data, p + post, post, budget);
    case Group(num, fs) =>
      GroupPayloadIsRead(num, fs, p, budget, post);
      GroupPayload(num, fs, p + post, post, budget);
    case Fixed32(num, raw) => Fixed32Payload(num, raw, post, budget);
  }

  lemma {:induction false} GroupPayloadIsRead(num: FieldNumber, fs: seq<Field>, p: seq<byte>, budget: nat,
                                              post: seq<byte>)
    requires SpellsBody(num, fs, p)
    ensures budget > 0 ==>
              ReadGroup(num, p + post, budget - 1) == if AllFit(fs, budget - 1) then Got(fs, post) else Bad
    decreases fs, 1
  {
    if budget > 0 {
      var e, end := SplitGroup(num, fs, p);
      Associative(e, end, post);
      GroupIsRead(num, fs, e, end, budget - 1, post);
    }
  }

  lemma {:induction false} DataIsRead(data: Blob, p: seq<byte>, post: seq<byte>)
    requires SpellsData(data, p)
    ensures ReadString(p + post) == Got(data, post)
  {
    var i :| 0 <= i <= |p| && SpellsNumber(p[..i], |data|) && p[i..] == data;
    assert p == p[..i] + data;
    Associative(p[..i], data, post);
    NumberIsRead(p[..i], |data|, data + post);
    assert ReadBytes(data + post, |data|) == Got(data, post);
  }

  lemma {:induction false} GroupIsRead(num: FieldNumber, fs: seq<Field>, e: seq<byte>, end: seq<byte>, budget: nat,
                                       post: seq<byte>)
    requires SpellsAll(fs, e) && SpellsTag(end, num, 4)
    ensures ReadGroup(num, e + (end + post), budget) == if AllFit(fs, budget) then Got(fs, post) else Bad
    decreases fs, 0
  {
    var tail := end + post;
    if fs == [] {
      assert e + tail == tail;
      TagIsRead(end, num, 4, post);
      GroupEnds(num, e + tail, post, budget);
    } else {
      var first, rest := SplitAll(fs, e);
      Associative(first, rest, tail);
      FieldIsRead(fs[0], first, budget, rest + tail);
      GroupIsRead(num, fs[1..], rest, end, budget, post);
      GroupContinues(num, e + tail, fs, rest + tail, budget, post);
    }
  }

  lemma {:induction false} AllIsRead(fs: seq<Field>, e: seq<byte>, budget: nat)
    requires SpellsAll(fs, e)
    ensures ReadFields(e, budget) == if AllFit(fs, budget) then Some(fs) else None
    decreases fs
  {
    if fs != [] {
      var first, rest := SplitAll(fs, e);
      FieldIsRead(fs[0], first, budget, rest);
      AllIsRead(fs[1..], rest, budget);
      assert fs == [fs[0]] + fs[1..];
    }
  }

  // ---------- what is read is spelled ----------

  // The bytes a reader has consumed.
  function Consumed(bs: seq<byte>, rest: seq<byte>): seq<byte>
    requires |rest| <= |bs|
  {
    bs[..|bs| - |rest|]
  }

  lemma {:induction false} TagWasSpelled(bs: seq<byte>)
    requires ReadTag(bs).Got?
    ensures var r := ReadTag(bs);
            SpellsTag(Consumed(bs, r.rest), r.value / 8, r.value % 8) && bs == Consumed(bs, r.rest) + r.rest
  {
    var d := ReadIsSpelled(bs, MAX_VARINT_BYTES);
    assert Consumed(bs, ReadTag(bs).rest) == d;
  }

  lemma {:induction false} NumberWasSpelled(bs: seq<byte>)
    requires ReadVarint(bs).Got?
    ensures var r := ReadVarint(bs);
            SpellsNumber(Consumed(bs, r.rest), r.value) && bs == Consumed(bs, r.rest) + r.rest
  {
    var d := ReadIsSpelled(bs, MAX_VARINT_BYTES);
    assert Consumed(bs, ReadVarint(bs).rest) == d;
  }

  lemma {:induction false} PayloadWasSpelled(tag: uint32, bs: seq<byte>, budget: nat)
    requires ReadPayload(tag, bs, budget).Got?
    ensures var r := ReadPayload(tag, bs, budget);
            && tag == 8 * r.value.num + TypeNumber(r.value)
            && SpellsPayload(r.value, Consumed(bs, r.rest)) && bs == Consumed(bs, r.rest) + r.rest
    decreases budget, |bs|
  {
    var r := ReadPayload(tag, bs, budget);
    if r.value.Varint? {
      NumberWasSpelled(bs);
    } else if r.value.Len? {
      DataWasSpelled(bs);
    } else if r.value.Group? {
      GroupWasSpelled(tag / 8, bs, budget - 1);
    }
  }

  lemma {:induction false} DataWasSpelled(bs: seq<byte>)
    requires ReadString(bs).Got?
    ensures var r := ReadString(bs);
            SpellsData(r.value, Consumed(bs, r.rest)) && bs == Consumed(bs, r.rest) + r.rest
  {
    NumberWasSpelled(bs);
    var n, r := ReadVarint(bs), ReadString(bs);
    assert n.rest == r.value + r.rest;
    var v := Consumed(bs, n.rest);
    Associative(v, r.value, r.rest);
    ConsumedIs(bs, v + r.value, r.rest);
    DataInFront(v, r.value);
  }

  lemma ConsumedIs(bs: seq<byte>, e: seq<byte>, rest: seq<byte>)
    requires bs == e + rest
    ensures Consumed(bs, rest) == e
  {
  }

  lemma DataInFront(v: seq<byte>, data: Blob)
    requires SpellsNumber(v, |data|)
    ensures SpellsData(data, v + data)
  {
    assert (v + data)[..|v|] == v && (v + data)[|v|..] == data;
  }

  lemma {:induction false} GroupWasSpelled(num: FieldNumber, bs: seq<byte>, budget: nat)
    requires ReadGroup(num, bs, budget).Got?
    ensures var r := ReadGroup(num, bs, budget);
            SpellsBody(num, r.value, Consumed(bs, r.rest)) && bs == Consumed(bs, r.rest) + r.rest
    decreases budget, |bs|
  {
    TagWasSpelled(bs);
    var tag, r := ReadTag(bs), ReadGroup(num, bs, budget);
    if tag.value % 8 == WIRE_END_GROUP {
      EmptyBody(num, Consumed(bs, r.rest));
    } else {
      PayloadWasSpelled(tag.value, tag.rest, budget);
      var f := ReadPayload(tag.value, tag.rest, budget);
      GroupWasSpelled(num, f.rest, budget);
      var t, p, g := Consumed(bs, tag.rest), Consumed(tag.rest, f.rest), Consumed(f.rest, r.rest);
      FieldInFront(f.value, t, p);
      BodyExtended(num, f.value, t + p, ReadGroup(num, f.rest, budget).value, g);
      ThreeParts(bs, t, tag.rest, p, f.rest, g, r.rest);
    }
  }

  lemma EmptyBody(num: int, end: seq<byte>)
    requires SpellsTag(end, num, 4)
    ensures SpellsBody(num, [], end)
  {
    assert end[..0] == [] && end[0..] == end;
  }

  lemma ThreeParts(bs: seq<byte>, t: seq<byte>, afterT: seq<byte>, p: seq<byte>, afterP: seq<byte>, g: seq<byte>,
                   rest: seq<byte>)
    requires bs == t + afterT && afterT == p + afterP && afterP == g + rest
    ensures Consumed(bs, rest) == t + p + g && bs == t + p + g + rest
  {
    ConsumedIs(bs, t + p + g, rest);
  }

  lemma FieldInFront(f: Field, t: seq<byte>, p: seq<byte>)
    requires SpellsTag(t, f.num, TypeNumber(f)) && SpellsPayload(f, p)
    ensures Spells(f, t + p)
  {
    assert (t + p)[..|t|] == t && (t + p)[|t|..] == p;
    assert SpellsAt(f, t + p, |t|);
  }

  lemma {:induction false} AllExtended(f: Field, e: seq<byte>, fs: seq<Field>, rest: seq<byte>)
    requires Spells(f, e) && SpellsAll(fs, rest)
    ensures SpellsAll([f] + fs, e + rest)
  {
    assert (e + rest)[..|e|] == e && (e + rest)[|e|..] == rest;
    assert ([f] + fs)[1..] == fs;
  }

  lemma {:induction false} BodyExtended(num: int, f: Field, e: seq<byte>, fs: seq<Field>, g: seq<byte>)
    requires Spells(f, e) && SpellsBody(num, fs, g)
    ensures SpellsBody(num, [f] + fs, e + g)
  {
    var i :| 0 <= i <= |g| && SpellsAll(fs, g[..i]) && SpellsTag(g[i..], num, 4);
    AllExtended(f, e, fs, g[..i]);
    assert (e + g)[..|e| + i] == e + g[..i] && (e + g)[|e| + i..] == g[i..];
  }

  lemma {:induction false} FieldWasSpelled(bs: seq<byte>, budget: nat)
    requires ReadField(bs, budget).Got?
    ensures var r := ReadField(bs, budget);
            Spells(r.value, Consumed(bs, r.rest)) && bs == Consumed(bs, r.rest) + r.rest
  {
    TagWasSpelled(bs);
    var tag, r := ReadTag(bs), ReadField(bs, budget);
    FieldAfterTag(bs, tag.value, tag.rest, budget);
    PayloadWasSpelled(tag.value, tag.rest, budget);
    var t, p := Consumed(bs, tag.rest), Consumed(tag.rest, r.rest);
    FieldInFront(r.value, t, p);
    TwoParts(bs, t, tag.rest, p, r.rest);
  }

  lemma TwoParts(bs: seq<byte>, t: seq<byte>, afterT: seq<byte>, p: seq<byte>, rest: seq<byte>)
    requires bs == t + afterT && afterT == p + rest
    ensures Consumed(bs, rest) == t + p && bs == t + p + rest
  {
    ConsumedIs(bs, t + p, rest);
  }

  lemma {:induction false} AllWasSpelled(bs: seq<byte>, budget: nat)
    requires ReadFields(bs, budget).Some?
    ensures SpellsAll(ReadFields(bs, budget).value, bs)
    decreases |bs|
  {
    if bs != [] {
      FieldWasSpelled(bs, budget);
      var r := ReadField(bs, budget);
      AllWasSpelled(r.rest, budget);
      AllExtended(r.value, Consumed(bs, r.rest), ReadFields(r.rest, budget).value, r.rest);
    }
  }

  // One record with a tag of one byte.
  lemma {:induction false} OneRecord(f: Field, tag: byte, p: seq<byte>, budget: nat)
    requires tag == 8 * f.num + TypeNumber(f) && tag < 128 && SpellsPayload(f, p)
    ensures ReadFields([tag] + p, budget) == if Fits(f, budget) then Some([f]) else None
  {
    assert [tag][1..] == [] && Digits([tag]) == tag;
    FieldInFront(f, [tag], p);
    assert SpellsAll([], []);
    AllExtended(f, [tag] + p, [], []);
    assert [f] + [] == [f] && [tag] + p + [] == [tag] + p;
    AllIsRead([f], [tag] + p, budget);
    assert [f][1..] == [];
  }

  // An input is read as these records exactly when it spells them and their groups are
  // nested no deeper than allowed.
  lemma {:induction false} InputsReadExactly(bs: seq<byte>, fs: seq<Field>, budget: nat)
    ensures ReadFields(bs, budget) == Some(fs) <==> SpellsAll(fs, bs) && DepthOfAll(fs) <= budget
  {
    AllFitIsDepth(fs, budget);
    if ReadFields(bs, budget) == Some(fs) {
      AllWasSpelled(bs, budget);
    }
    if SpellsAll(fs, bs) {
      AllIsRead(fs, bs, budget);
    }
  }

  // ---------- reading looks no further than the record ----------

  lemma {:induction false} ReadFieldLocal(bs: seq<byte>, budget: nat, post: seq<byte>)
    requires ReadField(bs, budget).Got?
    ensures ReadField(bs + post, budget) ==
            Got(ReadField(bs, budget).value, ReadField(bs, budget).rest + post)
  {
    var r := ReadField(bs, budget);
    var e := Consumed(bs, r.rest);
    FieldWasSpelled(bs, budget);
    Associative(e, r.rest, post);
    FieldIsRead(r.value, e, budget, r.rest + post);
  }

  // ---------- whole inputs ----------

  ghost function Prepend(fs: seq<Field>, r: Option<seq<Field>>): Option<seq<Field>>
  {
    match r case None => None case Some(gs) => Some(fs + gs)
  }

  // An accepted input followed by anything: the records of both, in order.
  lemma {:induction false} ReadFieldsOfConcat(x: seq<byte>, y: seq<byte>, budget: nat)
    requires ReadFields(x, budget).Some?
    ensures ReadFields(x + y, budget) == Prepend(ReadFields(x, budget).value, ReadFields(y, budget))
    decreases |x|
  {
    if x == [] {
      assert x + y == y;
      PrependNothing(ReadFields(y, budget));
    } else {
      ReadFieldLocal(x, budget, y);
      var first := ReadField(x, budget);
      ReadFieldsOfConcat(first.rest, y, budget);
      PrependTwice([first.value], ReadFields(first.rest, budget).value, ReadFields(y, budget));
    }
  }

  lemma PrependNothing(r: Option<seq<Field>>)
    ensures Prepend([], r) == r
  {
    if r.Some? {
      assert [] + r.value == r.value;
    }
  }

  lemma PrependTwice(a: seq<Field>, b: seq<Field>, r: Option<seq<Field>>)
    ensures Prepend(a, Prepend(b, r)) == Prepend(a + b, r)
  {
    if r.Some? {
      Associative(a, b, r.value);
    }
  }

  // ---------- nesting ----------

  function Depth(f: Field): nat
    decreases f
  {
    match f
    case Group(_, fs) => 1 + DepthOfAll(fs)
    case _ => 0
  }

  function DepthOfAll(fs: seq<Field>): nat
    decreases fs
  {
    if fs == [] then 0
    else if Depth(fs[0]) > DepthOfAll(fs[1..]) then Depth(fs[0])
    else DepthOfAll(fs[1..])
  }

  lemma {:induction false} FitsIsDepth(f: Field, budget: nat)
    ensures Fits(f, budget) <==> Depth(f) <= budget
    decreases f
  {
    if f.Group? && budget > 0 {
      AllFitIsDepth(f.fields, budget - 1);
    }
  }

  lemma {:induction false} AllFitIsDepth(fs: seq<Field>, budget: nat)
    ensures AllFit(fs, budget) <==> DepthOfAll(fs) <= budget
    decreases fs
  {
    if fs != [] {
      FitsIsDepth(fs[0], budget);
      AllFitIsDepth(fs[1..], budget);
    }
  }

  // ---------- what is written ----------

  // The bytes of each kind of record, in numbers.
  lemma EncodedBytes(num: FieldNumber, v: uint64, raw8: Raw8, raw4: Raw4, data: Blob, fs: seq<Field>)
    ensures EncodeField(Varint(num, v)) == EncodeVarint(8 * num + 0) + EncodeVarint(v)
    ensures EncodeField(Fixed64(num, raw8)) == EncodeVarint(8 * num + 1) + raw8
    ensures EncodeField(Len(num, data)) == EncodeVarint(8 * num + 2) + (EncodeVarint(|data|) + data)
    ensures EncodeField(Group(num, fs)) ==
            EncodeVarint(8 * num + 3) + (EncodeFields(fs) + EncodeVarint(8 * num + 4))
    ensures EncodeField(Fixed32(num, raw4)) == EncodeVarint(8 * num + 5) + raw4
  {
  }

  lemma TagSpelled(num: FieldNumber, wireType: int)
    requires 0 <= wireType < 8
    ensures SpellsTag(EncodeTag(num, wireType), num, wireType)
  {
    EncodingSpells(MakeTag(num, wireType));
    VarintFits(MakeTag(num, wireType));
  }

  lemma NumberSpelled(n: uint64)
    ensures SpellsNumber(EncodeVarint(n), n)
  {
    EncodingSpells(n);
    VarintFits(n);
  }

  lemma EndBehind(num: int, fs: seq<Field>, e: seq<byte>, end: seq<byte>)
    requires SpellsAll(fs, e) && SpellsTag(end, num, 4)
    ensures SpellsBody(num, fs, e + end)
  {
    assert (e + end)[..|e|] == e && (e + end)[|e|..] == end;
  }

  // What is written is a spelling of what was to be written.
  lemma {:induction false} FieldIsSpelled(f: Field)
    ensures Spells(f, EncodeField(f))
    decreases f, 1
  {
    TagSpelled(f.num, WireType(f));
    PayloadIsSpelled(f);
    FieldInFront(f, EncodeTag(f.num, WireType(f)), EncodePayload(f));
  }

  lemma {:induction false} PayloadIsSpelled(f: Field)
    ensures SpellsPayload(f, EncodePayload(f))
    decreases f, 0
  {
    match f
    case Varint(_, v) => NumberSpelled(v);
    case Len(_, data) =>
      NumberSpelled(|data|);
      DataInFront(EncodeVarint(|data|), data);
    case Group(num, fs) =>
      AllIsSpelled(fs);
      TagSpelled(num, WIRE_END_GROUP);
      EndBehind(num, fs, EncodeFields(fs), EncodeTag(num, WIRE_END_GROUP));
    case _ =>
  }

  lemma {:induction false} AllIsSpelled(fs: seq<Field>)
    ensures SpellsAll(fs, EncodeFields(fs))
    decreases fs
  {
    if fs != [] {
      FieldIsSpelled(fs[0]);
      AllIsSpelled(fs[1..]);
      AllExtended(fs[0], EncodeField(fs[0]), fs[1..], EncodeFields(fs[1..]));
      assert [fs[0]] + fs[1..] == fs;
    }
  }

  // A record comes back exactly when its groups are within the budget.
  lemma {:induction false} FieldRoundTrip(f: Field, budget: nat, post: seq<byte>)
    ensures ReadField(EncodeField(f) + post, budget) == if Depth(f) <= budget then Got(f, post) else Bad
  {
    FieldIsSpelled(f);
    FieldIsRead(f, EncodeField(f), budget, post);
    FitsIsDepth(f, budget);
  }

  lemma {:induction false} FieldsRoundTrip(fs: seq<Field>, budget: nat)
    ensures ReadFields(EncodeFields(fs), budget) == if AllFit(fs, budget) then Some(fs) else None
  {
    AllIsSpelled(fs);
    AllIsRead(fs, EncodeFields(fs), budget);
  }

  // The guide's own examples, and minus one.
  lemma {:induction false} GuideExamples()
    ensures EncodeField(Varint(1, 150)) == [0x08, 0x96, 0x01]
    ensures EncodeField(Len(2, [0x74, 0x65, 0x73, 0x74, 0x69, 0x6e, 0x67])) ==
            [0x12, 0x07, 0x74, 0x65, 0x73, 0x74, 0x69, 0x6e, 0x67]
    ensures SignExtend(-1) == 0xFFFF_FFFF_FFFF_FFFF
  {
    assert EncodeVarint(150) == [0x96] + EncodeVarint(1);
  }
}
