// One record of the wire format as an unknown field keeps it, with nested groups
// ("Message Structure", "Length-Delimited Records" and "Groups" of the Protocol
// Buffers Encoding guide). Every record of a message, known or not, is read
// through these functions.
module Fields {
  import opened Wire

  type FieldNumber = n: int | 1 <= n < 0x2000_0000 witness 1
  type Raw8 = s: seq<byte> | |s| == 8 witness [0, 0, 0, 0, 0, 0, 0, 0]
  type Raw4 = s: seq<byte> | |s| == 4 witness [0, 0, 0, 0]

  datatype Field =
    | Varint(num: FieldNumber, v: uint64)
    | Fixed64(num: FieldNumber, raw8: Raw8)
    | Len(num: FieldNumber, data: Blob)
    | Group(num: FieldNumber, fields: seq<Field>)
    | Fixed32(num: FieldNumber, raw4: Raw4)

  const WIRE_VARINT := 0
  const WIRE_FIXED64 := 1
  const WIRE_LEN := 2
  const WIRE_START_GROUP := 3
  const WIRE_END_GROUP := 4
  const WIRE_FIXED32 := 5

  function MakeTag(num: FieldNumber, wireType: int): (tag: uint32)
    requires 0 <= wireType < 8
    ensures tag / 8 == num && tag % 8 == wireType
  {
    num * 8 + wireType
  }

  function EncodeTag(num: FieldNumber, wireType: int): seq<byte>
    requires 0 <= wireType < 8
  {
    EncodeVarint(MakeTag(num, wireType))
  }

  // ---------- writing ----------

  function WireType(f: Field): (w: int)
    ensures 0 <= w < 8 && w != WIRE_END_GROUP
  {
    match f
    case Varint(_, _) => WIRE_VARINT
    case Fixed64(_, _) => WIRE_FIXED64
    case Len(_, _) => WIRE_LEN
    case Group(_, _) => WIRE_START_GROUP
    case Fixed32(_, _) => WIRE_FIXED32
  }

  function EncodeField(f: Field): (bs: seq<byte>)
    ensures bs != []
    decreases f, 1
  {
    EncodeTag(f.num, WireType(f)) + EncodePayload(f)
  }

  function EncodePayload(f: Field): seq<byte>
    decreases f, 0
  {
    match f
    case Varint(_, v) => EncodeVarint(v)
    case Fixed64(_, raw) => raw
    case Len(_, data) => EncodeVarint(|data|) + data
    case Group(num, fields) => EncodeFields(fields) + EncodeTag(num, WIRE_END_GROUP)
    case Fixed32(_, raw) => raw
  }

  function EncodeFields(fs: seq<Field>): seq<byte>
    decreases fs
  {
    if fs == [] then [] else EncodeField(fs[0]) + EncodeFields(fs[1..])
  }

  // ---------- reading ----------

  function ReadBytes(bs: seq<byte>, n: nat): (r: Read<seq<byte>>)
    ensures r.Got? ==> |r.value| == n && SuffixOf(r.rest, bs)
  {
    if |bs| < n then Bad else Got(bs[..n], bs[n..])
  }

  function ReadString(bs: seq<byte>): (r: Read<Blob>)
    ensures Consumes(bs, r)
  {
    match ReadVarint(bs)
    case Bad => Bad
    case Got(n, rest) =>
      if n >= 0x8000_0000 then Bad
      else
        match ReadBytes(rest, n)
        case Bad => Bad
        case Got(data, rest') => SuffixTransitive(rest', rest, bs); Got(data, rest')
  }

  // The rest of a record whose tag has just been read. `budget` is the number of
  // groups that may still be opened inside one another.
  function ReadPayload(tag: uint32, bs: seq<byte>, budget: nat): (r: Read<Field>)
    ensures r.Got? ==> SuffixOf(r.rest, bs) && Fits(r.value, budget) && r.value.num == tag / 8
    decreases budget, |bs|
  {
    if tag / 8 == 0 then Bad
    else
      var num: FieldNumber := tag / 8;
      if tag % 8 == WIRE_VARINT then
        match ReadVarint(bs) { case Bad => Bad case Got(v, rest) => Got(Varint(num, v), rest) }
      else if tag % 8 == WIRE_FIXED64 then
        match ReadBytes(bs, 8) { case Bad => Bad case Got(raw, rest) => Got(Fixed64(num, raw), rest) }
      else if tag % 8 == WIRE_LEN then
        match ReadString(bs) { case Bad => Bad case Got(data, rest) => Got(Len(num, data), rest) }
      else if tag % 8 == WIRE_START_GROUP then
        if budget == 0 then Bad
        else
          match ReadGroup(num, bs, budget - 1)
          case Bad => Bad
          case Got(fields, rest) => Got(Group(num, fields), rest)
      else if tag % 8 == WIRE_FIXED32 then
        match ReadBytes(bs, 4) { case Bad => Bad case Got(raw, rest) => Got(Fixed32(num, raw), rest) }
      else Bad
  }

  // The records of group `num`, up to and including its end tag.
  function ReadGroup(num: FieldNumber, bs: seq<byte>, budget: nat): (r: Read<seq<Field>>)
    ensures r.Got? ==> SuffixOf(r.rest, bs) && AllFit(r.value, budget)
    decreases budget, |bs|
  {
    match ReadTag(bs)
    case Bad => Bad
    case Got(tag, afterTag) =>
      if tag % 8 == WIRE_END_GROUP then
        if tag == MakeTag(num, WIRE_END_GROUP) then Got([], afterTag) else Bad
      else
        match ReadPayload(tag, afterTag, budget)
        case Bad => Bad
        case Got(f, afterField) =>
          SuffixTransitive(afterField, afterTag, bs);
          match ReadGroup(num, afterField, budget)
          case Bad => Bad
          case Got(fs, rest) => SuffixTransitive(rest, afterField, bs); Got([f] + fs, rest)
  }

  function ReadField(bs: seq<byte>, budget: nat): (r: Read<Field>)
    ensures Consumes(bs, r)
    ensures r.Got? ==> Fits(r.value, budget)
  {
    match ReadTag(bs)
    case Bad => Bad
    case Got(tag, afterTag) =>
      match ReadPayload(tag, afterTag, budget)
      case Bad => Bad
      case Got(f, rest) => SuffixTransitive(rest, afterTag, bs); Got(f, rest)
  }

  // A whole input, record by record.
  function ReadFields(bs: seq<byte>, budget: nat): (r: Option<seq<Field>>)
    ensures r.Some? ==> AllFit(r.value, budget)
    decreases |bs|
  {
    if bs == [] then Some([])
    else
      match ReadField(bs, budget)
      case Bad => None
      case Got(f, rest) =>
        match ReadFields(rest, budget)
        case None => None
        case Some(fs) => Some([f] + fs)
  }

  // Groups are nested no deeper than the budget.
  predicate Fits(f: Field, budget: nat)
    decreases budget, 0, 0
  {
    f.Group? ==> budget > 0 && AllFit(f.fields, budget - 1)
  }

  predicate AllFit(fs: seq<Field>, budget: nat)
    decreases budget, 1, |fs|
  {
    fs == [] || (Fits(fs[0], budget) && AllFit(fs[1..], budget))
  }

  // ---------- reading, one record at a time ----------

  lemma Associative<T>(a: seq<T>, b: seq<T>, c: seq<T>)
    ensures a + b + c == a + (b + c)
  {
  }

  ghost function Expected(f: Field, budget: nat, post: seq<byte>): Read<Field>
  {
    if Fits(f, budget) then Got(f, post) else Bad
  }

  // What ReadPayload does for each wire type.
  lemma VarintPayload(num: FieldNumber, v: uint64, bs: seq<byte>, rest: seq<byte>, budget: nat)
    requires ReadVarint(bs) == Got(v, rest)
    ensures ReadPayload(MakeTag(num, WIRE_VARINT), bs, budget) == Got(Varint(num, v), rest)
  {
  }

  lemma Fixed64Payload(num: FieldNumber, raw: Raw8, rest: seq<byte>, budget: nat)
    ensures ReadPayload(MakeTag(num, WIRE_FIXED64), raw + rest, budget) == Got(Fixed64(num, raw), rest)
  {
    assert ReadBytes(raw + rest, 8) == Got(raw, rest);
  }

  lemma DataPayload(num: FieldNumber, data: Blob, bs: seq<byte>, rest: seq<byte>, budget: nat)
    requires ReadString(bs) == Got(data, rest)
    ensures ReadPayload(MakeTag(num, WIRE_LEN), bs, budget) == Got(Len(num, data), rest)
  {
  }

  lemma GroupPayload(num: FieldNumber, fs: seq<Field>, bs: seq<byte>, rest: seq<byte>, budget: nat)
    requires budget > 0 ==>
               ReadGroup(num, bs, budget - 1) == if AllFit(fs, budget - 1) then Got(fs, rest) else Bad
    ensures ReadPayload(MakeTag(num, WIRE_START_GROUP), bs, budget) == Expected(Group(num, fs), budget, rest)
  {
  }

  lemma Fixed32Payload(num: FieldNumber, raw: Raw4, rest: seq<byte>, budget: nat)
    ensures ReadPayload(MakeTag(num, WIRE_FIXED32), raw + rest, budget) == Got(Fixed32(num, raw), rest)
  {
    assert ReadBytes(raw + rest, 4) == Got(raw, rest);
  }

  // How ReadField and ReadGroup go on after a tag.
  lemma FieldAfterTag(bs: seq<byte>, tag: uint32, rest: seq<byte>, budget: nat)
    requires ReadTag(bs) == Got(tag, rest)
    ensures ReadField(bs, budget) == ReadPayload(tag, rest, budget)
  {
  }

  lemma GroupAfterTag(num: FieldNumber, bs: seq<byte>, f: Field, rest: seq<byte>, budget: nat)
    requires ReadTag(bs).Got? && ReadTag(bs).value % 8 != WIRE_END_GROUP
    requires ReadField(bs, budget) == Expected(f, budget, rest)
    ensures ReadGroup(num, bs, budget) ==
            if !Fits(f, budget) || ReadGroup(num, rest, budget).Bad? then Bad
            else Got([f] + ReadGroup(num, rest, budget).value, ReadGroup(num, rest, budget).rest)
  {
  }

  lemma GroupEnds(num: FieldNumber, bs: seq<byte>, rest: seq<byte>, budget: nat)
    requires ReadTag(bs) == Got(MakeTag(num, WIRE_END_GROUP), rest)
    ensures ReadGroup(num, bs, budget) == Got([], rest)
  {
  }

  lemma GroupContinues(num: FieldNumber, bs: seq<byte>, fs: seq<Field>, rest: seq<byte>, budget: nat, post: seq<byte>)
    requires fs != []
    requires ReadTag(bs).Got? && ReadTag(bs).value % 8 != WIRE_END_GROUP
    requires ReadField(bs, budget) == Expected(fs[0], budget, rest)
    requires ReadGroup(num, rest, budget) == if AllFit(fs[1..], budget) then Got(fs[1..], post) else Bad
    ensures ReadGroup(num, bs, budget) == if AllFit(fs, budget) then Got(fs, post) else Bad
  {
    GroupAfterTag(num, bs, fs[0], rest, budget);
    assert fs == [fs[0]] + fs[1..];
  }

  // ---------- lists of records ----------

  lemma {:induction false} EncodeFieldsOfConcat(a: seq<Field>, b: seq<Field>)
    ensures EncodeFields(a + b) == EncodeFields(a) + EncodeFields(b)
  {
    if a == [] {
      assert a + b == b;
    } else {
      EncodeFieldsOfConcat(a[1..], b);
      assert (a + b)[1..] == a[1..] + b;
      Associative(EncodeField(a[0]), EncodeFields(a[1..]), EncodeFields(b));
    }
  }

  lemma {:induction false} AllFitOfConcat(a: seq<Field>, b: seq<Field>, budget: nat)
    ensures AllFit(a + b, budget) <==> AllFit(a, budget) && AllFit(b, budget)
  {
    if a == [] {
      assert a + b == b;
    } else {
      AllFitOfConcat(a[1..], b, budget);
      assert (a + b)[1..] == a[1..] + b;
    }
  }

  // ---------- sizes ----------

  // What an unknown field adds to a message's size.
  function FieldSize(f: Field): nat
    decreases f
  {
    match f
    case Varint(num, v) => VarintSize32(MakeTag(num, WIRE_VARINT)) + |EncodeVarint(v)|
    case Fixed64(num, _) => VarintSize32(MakeTag(num, WIRE_FIXED64)) + 8
    case Len(num, data) => VarintSize32(MakeTag(num, WIRE_LEN)) + StringSize(data)
    case Group(num, fields) => 2 * VarintSize32(MakeTag(num, WIRE_START_GROUP)) + FieldsSize(fields)
    case Fixed32(num, _) => VarintSize32(MakeTag(num, WIRE_FIXED32)) + 4
  }

  function FieldsSize(fs: seq<Field>): nat
    decreases fs
  {
    if fs == [] then 0 else FieldSize(fs[0]) + FieldsSize(fs[1..])
  }

  lemma {:induction false} FieldSizeExact(f: Field)
    ensures FieldSize(f) == |EncodeField(f)|
    decreases f
  {
    VarintSizeExact(MakeTag(f.num, WireType(f)));
    match f
    case Len(_, data) => VarintSizeExact(|data|);
    case Group(num, fields) =>
      VarintSizeExact(MakeTag(num, WIRE_END_GROUP));
      TagSizeIgnoresWireType(num, WIRE_START_GROUP, WIRE_END_GROUP);
      FieldsSizeExact(fields);
    case _ =>
  }

  lemma {:induction false} FieldsSizeExact(fs: seq<Field>)
    ensures FieldsSize(fs) == |EncodeFields(fs)|
    decreases fs
  {
    if fs != [] {
      FieldSizeExact(fs[0]);
      FieldsSizeExact(fs[1..]);
    }
  }

  lemma TagSizeIgnoresWireType(num: FieldNumber, a: int, b: int)
    requires 0 <= a < 8 && 0 <= b < 8
    ensures VarintSize32(MakeTag(num, a)) == VarintSize32(MakeTag(num, b))
  {
  }
}
