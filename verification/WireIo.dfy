// The wire primitives as the generated code calls them: reading through a cursor
// into a buffer, and writing to a stream or into a window of an array.
module WireIo {
  import opened Wire
  import opened Fields
  import opened Messages

  // A value and the position after it, or the null pointer of a failed read.
  datatype Cursor<+T> = Null | At(value: T, ptr: nat)

  // What was read at a position is what the specification reads off the bytes from there on.
  ghost predicate Reads<T>(buf: array<byte>, ptr: nat, c: Cursor<T>, r: Read<T>)
    reads buf
  {
    match c
    case Null => r.Bad?
    case At(v, next) => ptr <= next <= buf.Length && r == Got(v, buf[next..])
  }

  // ---------- reading ----------

  ghost function Shifted(low: nat, scale: nat, r: Read<nat>): Read<nat>
  {
    match r
    case Bad => Bad
    case Got(high, rest) => Got(low + scale * high, rest)
  }

  lemma ShiftedTwice(low: nat, scale: nat, digit: nat, r: Read<nat>)
    ensures Shifted(low, scale, Shifted(digit, 128, r)) == Shifted(low + scale * digit, scale * 128, r)
  {
    if r.Got? {
      var h := r.value;
      assert scale * (digit + 128 * h) == scale * digit + (scale * 128) * h;
    }
  }

  function Plus(low: nat, scale: nat, digit: nat): nat
  {
    low + scale * digit
  }

  lemma DigitStep(whole: Read<nat>, low: nat, scale: nat, bs: seq<byte>, limit: nat)
    requires limit > 0 && bs != []
    requires whole == Shifted(low, scale, ReadDigits(bs, limit))
    ensures whole ==
            if bs[0] < 128 then Got(Plus(low, scale, bs[0]), bs[1..])
            else Shifted(Plus(low, scale, bs[0] - 128), scale * 128, ReadDigits(bs[1..], limit - 1))
  {
    if bs[0] >= 128 {
      assert ReadDigits(bs, limit) == Shifted(bs[0] - 128, 128, ReadDigits(bs[1..], limit - 1));
      ShiftedTwice(low, scale, bs[0] - 128, ReadDigits(bs[1..], limit - 1));
    }
  }

  method ReadDigitsAt(buf: array<byte>, ptr: nat, limit: nat) returns (c: Cursor<nat>)
    requires ptr <= buf.Length
    ensures Reads(buf, ptr, c, ReadDigits(buf[ptr..], limit))
    ensures c.At? ==> ptr < c.ptr
  {
    ghost var whole := ReadDigits(buf[ptr..], limit);
    var p, left := ptr, limit;
    var low: nat, scale: nat := 0, 1;
    assert whole == Shifted(low, scale, whole);
    while left > 0 && p < buf.Length
      invariant ptr <= p <= buf.Length
      invariant whole == Shifted(low, scale, ReadDigits(buf[p..], left))
    {
      var b: int := buf[p];
      DigitStep(whole, low, scale, buf[p..], left);
      assert buf[p..][1..] == buf[p + 1..];
      if b < 128 {
        return At(Plus(low, scale, b), p + 1);
      }
      low, scale, p, left := Plus(low, scale, b - 128), scale * 128, p + 1, left - 1;
    }
    c := Null;
  }

  method ReadVarintAt(buf: array<byte>, ptr: nat) returns (c: Cursor<uint64>)
    requires ptr <= buf.Length
    ensures Reads(buf, ptr, c, ReadVarint(buf[ptr..]))
    ensures c.At? ==> ptr < c.ptr
  {
    var d := ReadDigitsAt(buf, ptr, MAX_VARINT_BYTES);
    c := match d case Null => Null case At(n, next) => At(n % 0x1_0000_0000_0000_0000, next);
  }

  method ReadTagAt(buf: array<byte>, ptr: nat) returns (c: Cursor<uint32>)
    requires ptr <= buf.Length
    ensures Reads(buf, ptr, c, ReadTag(buf[ptr..]))
    ensures c.At? ==> ptr < c.ptr
  {
    var d := ReadDigitsAt(buf, ptr, MAX_VARINT_BYTES);
    c := match d case Null => Null case At(n, next) => At(n % 0x1_0000_0000, next);
  }

  method ReadBytesAt(buf: array<byte>, ptr: nat, n: nat) returns (c: Cursor<seq<byte>>)
    requires ptr <= buf.Length
    ensures Reads(buf, ptr, c, ReadBytes(buf[ptr..], n))
    ensures c.At? ==> |c.value| == n && c.ptr == ptr + n
  {
    if buf.Length - ptr < n {
      return Null;
    }
    assert buf[ptr..][..n] == buf[ptr..ptr + n] && buf[ptr..][n..] == buf[ptr + n..];
    c := At(buf[ptr..ptr + n], ptr + n);
  }

  method ReadStringAt(buf: array<byte>, ptr: nat) returns (c: Cursor<Blob>)
    requires ptr <= buf.Length
    ensures Reads(buf, ptr, c, ReadString(buf[ptr..]))
    ensures c.At? ==> ptr < c.ptr
  {
    var size := ReadVarintAt(buf, ptr);
    if size.Null? || size.value >= 0x8000_0000 {
      return Null;
    }
    var data := ReadBytesAt(buf, size.ptr, size.value);
    c := match data case Null => Null case At(s, next) => At(s, next);
  }

  // The value of a record the message does not know, groups included. Each call
  // either fails or moves forward, and never reads beyond the buffer.
  method ParseUnknown(buf: array<byte>, ptr: nat, tag: uint32, budget: nat) returns (c: Cursor<Field>)
    requires ptr <= buf.Length
    ensures Reads(buf, ptr, c, ReadPayload(tag, buf[ptr..], budget))
    decreases budget, buf.Length - ptr
  {
    if tag / 8 == 0 {
      return Null;
    }
    var num: FieldNumber := tag / 8;
    if tag % 8 == WIRE_VARINT {
      var v := ReadVarintAt(buf, ptr);
      c := match v case Null => Null case At(n, next) => At(Varint(num, n), next);
    } else if tag % 8 == WIRE_FIXED64 {
      var raw := ReadBytesAt(buf, ptr, 8);
      c := match raw case Null => Null case At(s, next) => At(Fixed64(num, s), next);
    } else if tag % 8 == WIRE_LEN {
      var data := ReadStringAt(buf, ptr);
      c := match data case Null => Null case At(s, next) => At(Len(num, s), next);
    } else if tag % 8 == WIRE_START_GROUP {
      if budget == 0 {
        return Null;
      }
      var fields := ParseGroup(buf, ptr, num, budget - 1);
      c := match fields case Null => Null case At(fs, next) => At(Group(num, fs), next);
    } else if tag % 8 == WIRE_FIXED32 {
      var raw := ReadBytesAt(buf, ptr, 4);
      c := match raw case Null => Null case At(s, next) => At(Fixed32(num, s), next);
    } else {
      c := Null;
    }
  }

  ghost function Continue(done: seq<Field>, r: Read<seq<Field>>): Read<seq<Field>>
  {
    match r
    case Bad => Bad
    case Got(fs, rest) => Got(done + fs, rest)
  }

  lemma ReadGroupUnfold(num: FieldNumber, bs: seq<byte>, budget: nat, done: seq<Field>)
    requires ReadTag(bs).Got? && ReadTag(bs).value % 8 != WIRE_END_GROUP
    ensures var r := ReadPayload(ReadTag(bs).value, ReadTag(bs).rest, budget);
            Continue(done, ReadGroup(num, bs, budget)) ==
            if r.Bad? then Bad else Continue(done + [r.value], ReadGroup(num, r.rest, budget))
  {
    var r := ReadPayload(ReadTag(bs).value, ReadTag(bs).rest, budget);
    if r.Got? && ReadGroup(num, r.rest, budget).Got? {
      Associative(done, [r.value], ReadGroup(num, r.rest, budget).value);
    }
  }

  method ParseGroup(buf: array<byte>, ptr: nat, num: FieldNumber, budget: nat) returns (c: Cursor<seq<Field>>)
    requires ptr <= buf.Length
    ensures Reads(buf, ptr, c, ReadGroup(num, buf[ptr..], budget))
    decreases budget, buf.Length - ptr, 1
  {
    var fields: seq<Field> := [];
    var p := ptr;
    ContinueNothing(ReadGroup(num, buf[ptr..], budget));
    while true
      invariant ptr <= p <= buf.Length
      invariant ReadGroup(num, buf[ptr..], budget) == Continue(fields, ReadGroup(num, buf[p..], budget))
      decreases buf.Length - p
    {
      var tag := ReadTagAt(buf, p);
      if tag.Null? {
        return Null;
      }
      if tag.value % 8 == WIRE_END_GROUP {
        if tag.value != MakeTag(num, WIRE_END_GROUP) {
          return Null;
        }
        assert fields + [] == fields;
        return At(fields, tag.ptr);
      }
      ReadGroupUnfold(num, buf[p..], budget, fields);
      var f := ParseUnknown(buf, tag.ptr, tag.value, budget);
      if f.Null? {
        return Null;
      }
      fields, p := fields + [f.value], f.ptr;
    }
  }

  lemma ContinueNothing(r: Read<seq<Field>>)
    ensures Continue([], r) == r
  {
    if r.Got? {
      assert [] + r.value == r.value;
    }
  }

  // What _InternalParse is given besides the pointer: the buffer, how deep groups may
  // nest, and the place to remember the tag that ended the run.
  class ParseContext {
    const buf: array<byte>
    const depth: nat
    var lastTag: Option<uint32>

    constructor (buf: array<byte>, depth: nat)
      ensures this.buf == buf && this.depth == depth && lastTag == None
    {
      this.buf, this.depth, lastTag := buf, depth, None;
    }
  }

  // The stream MergePartialFromCodedStream reads from.
  class CodedInputStream {
    const buf: array<byte>
    const depth: nat
    var pos: nat
    var legitimateEnd: bool

    constructor (buf: array<byte>, depth: nat)
      ensures this.buf == buf && this.depth == depth && pos == 0 && !legitimateEnd && Valid()
    {
      this.buf, this.depth, pos, legitimateEnd := buf, depth, 0, false;
    }

    ghost predicate Valid()
      reads this
    {
      pos <= buf.Length
    }

    ghost function Remaining(): seq<byte>
      requires Valid()
      reads this, buf
    {
      buf[pos..]
    }

    // Tag 0 stands for the end of the input, a malformed tag and a literal zero; only
    // the first is a legitimate end. `known` says that the tag is not 0 nor above the cutoff.
    method ReadTagWithCutoff(cutoff: uint32) returns (tag: uint32, known: bool)
      requires Valid()
      modifies this
      ensures Valid() && legitimateEnd == (old(Remaining()) == [])
      ensures tag == (match ReadTag(old(Remaining())) case Bad => 0 case Got(t, _) => t)
      ensures known <==> 0 < tag <= cutoff
      ensures ReadTag(old(Remaining())).Got? ==>
                Remaining() == ReadTag(old(Remaining())).rest && pos > old(pos)
    {
      legitimateEnd := pos == buf.Length;
      var c := ReadTagAt(buf, pos);
      match c {
        case Null =>
          tag := 0;
        case At(t, next) =>
          tag, pos := t, next;
      }
      known := 0 < tag <= cutoff;
    }

    method ReadText() returns (r: Option<Blob>)
      requires Valid()
      modifies this`pos
      ensures Valid() && pos >= old(pos)
      ensures match ReadString(old(Remaining()))
              case Bad => r.None?
              case Got(t, rest) => r == Some(t) && Remaining() == rest
    {
      var c := ReadStringAt(buf, pos);
      match c {
        case Null =>
          r := None;
        case At(t, next) =>
          r, pos := Some(t), next;
      }
    }

    method ReadInt32() returns (r: Option<int32>)
      requires Valid()
      modifies this`pos
      ensures Valid() && pos >= old(pos)
      ensures match ReadVarint(old(Remaining()))
              case Bad => r.None?
              case Got(v, rest) => r == Some(Truncate32(v)) && Remaining() == rest
    {
      var c := ReadVarintAt(buf, pos);
      match c {
        case Null =>
          r := None;
        case At(v, next) =>
          r, pos := Some(Truncate32(v)), next;
      }
    }

    // The record with this tag, to be kept as unknown. An end-group tag is a failure.
    method SkipField(tag: uint32) returns (r: Option<Field>)
      requires Valid()
      modifies this`pos
      ensures Valid() && pos >= old(pos)
      ensures match ReadPayload(tag, old(Remaining()), depth)
              case Bad => r.None?
              case Got(f, rest) => r == Some(f) && Remaining() == rest
    {
      var c := ParseUnknown(buf, pos, tag, depth);
      match c {
        case Null =>
          r := None;
        case At(f, next) =>
          r, pos := Some(f), next;
      }
    }
  }

  // ---------- writing ----------

  class CodedOutputStream {
    var bytes: seq<byte>

    constructor ()
      ensures bytes == []
    {
      bytes := [];
    }

    method WriteVarint(n: nat)
      modifies this
      ensures bytes == old(bytes) + EncodeVarint(n)
    {
      var left := n;
      while left >= 128
        invariant bytes + EncodeVarint(left) == old(bytes) + EncodeVarint(n)
      {
        Associative(bytes, [128 + left % 128], EncodeVarint(left / 128));
        bytes := bytes + [128 + left % 128];
        left := left / 128;
      }
      bytes := bytes + [left];
    }

    method WriteTag(num: FieldNumber, wireType: int)
      requires 0 <= wireType < 8
      modifies this
      ensures bytes == old(bytes) + EncodeTag(num, wireType)
    {
      WriteVarint(MakeTag(num, wireType));
    }

    method WriteRaw(data: seq<byte>)
      modifies this
      ensures bytes == old(bytes) + data
    {
      bytes := bytes + data;
    }

    method WriteString(num: FieldNumber, text: Blob)
      modifies this
      ensures bytes == old(bytes) + EncodeField(Len(num, text))
    {
      WriteTag(num, WIRE_LEN);
      WriteVarint(|text|);
      WriteRaw(text);
      StringInParts(old(bytes), num, text);
    }

    method WriteVarintField(num: FieldNumber, v: uint64)
      modifies this
      ensures bytes == old(bytes) + EncodeField(Varint(num, v))
    {
      WriteTag(num, WIRE_VARINT);
      WriteVarint(v);
      Associative(old(bytes), EncodeTag(num, WIRE_VARINT), EncodeVarint(v));
    }

    method WriteInt32(num: FieldNumber, v: int32)
      modifies this
      ensures bytes == old(bytes) + EncodeField(Varint(num, SignExtend(v)))
    {
      WriteVarintField(num, SignExtend(v));
    }

    // A field that is at its default is left out.
    method WriteTextField(num: FieldNumber, text: Blob)
      modifies this
      ensures bytes == old(bytes) + FieldBytes(num, VText(text))
    {
      if |text| > 0 {
        WriteString(num, text);
      }
    }

    method WriteNumberField(num: FieldNumber, v: int32)
      modifies this
      ensures bytes == old(bytes) + FieldBytes(num, VInt(v))
    {
      if v != 0 {
        WriteInt32(num, v);
      }
    }

    method WriteUnknownField(f: Field)
      modifies this
      ensures bytes == old(bytes) + EncodeField(f)
      decreases f
    {
      match f
      case Varint(num, v) => WriteVarintField(num, v);
      case Len(num, data) => WriteString(num, data);
      case Fixed64(num, raw) =>
        WriteTag(num, WIRE_FIXED64);
        WriteRaw(raw);
        Associative(old(bytes), EncodeTag(num, WIRE_FIXED64), raw);
      case Fixed32(num, raw) =>
        WriteTag(num, WIRE_FIXED32);
        WriteRaw(raw);
        Associative(old(bytes), EncodeTag(num, WIRE_FIXED32), raw);
      case Group(num, fields) =>
        WriteTag(num, WIRE_START_GROUP);
        WriteUnknownFields(fields);
        WriteTag(num, WIRE_END_GROUP);
        GroupInParts(old(bytes), num, fields);
    }

    method WriteUnknownFields(fs: seq<Field>)
      modifies this
      ensures bytes == old(bytes) + EncodeFields(fs)
      decreases fs
    {
      var i := 0;
      while i < |fs|
        invariant i <= |fs| && bytes + EncodeFields(fs[i..]) == old(bytes) + EncodeFields(fs)
      {
        NextField(bytes, fs, i);
        WriteUnknownField(fs[i]);
        i := i + 1;
      }
    }
  }

  lemma StringInParts(before: seq<byte>, num: FieldNumber, text: Blob)
    ensures before + EncodeTag(num, WIRE_LEN) + EncodeVarint(|text|) + text == before + EncodeField(Len(num, text))
  {
    Associative(before + EncodeTag(num, WIRE_LEN), EncodeVarint(|text|), text);
    Associative(before, EncodeTag(num, WIRE_LEN), EncodeVarint(|text|) + text);
  }

  lemma GroupInParts(before: seq<byte>, num: FieldNumber, fs: seq<Field>)
    ensures before + EncodeTag(num, WIRE_START_GROUP) + EncodeFields(fs) + EncodeTag(num, WIRE_END_GROUP) ==
            before + EncodeField(Group(num, fs))
  {
    Associative(before + EncodeTag(num, WIRE_START_GROUP), EncodeFields(fs), EncodeTag(num, WIRE_END_GROUP));
    Associative(before, EncodeTag(num, WIRE_START_GROUP), EncodeFields(fs) + EncodeTag(num, WIRE_END_GROUP));
  }

  lemma NextField(before: seq<byte>, fs: seq<Field>, i: nat)
    requires i < |fs|
    ensures before + EncodeFields(fs[i..]) == before + EncodeField(fs[i]) + EncodeFields(fs[i + 1..])
  {
    assert fs[i..][1..] == fs[i + 1..];
    Associative(before, EncodeField(fs[i]), EncodeFields(fs[i + 1..]));
  }

  // `whole` with the window that starts at `from` replaced by bs.
  ghost function Splice(whole: seq<byte>, from: nat, bs: seq<byte>): (r: seq<byte>)
    requires from + |bs| <= |whole|
    ensures |r| == |whole|
  {
    whole[..from] + bs + whole[from + |bs|..]
  }

  lemma SpliceTwice(whole: seq<byte>, from: nat, a: seq<byte>, b: seq<byte>)
    requires from + |a| + |b| <= |whole|
    ensures Splice(Splice(whole, from, a), from + |a|, b) == Splice(whole, from, a + b)
  {
  }

  // A buffer that was `before`, into which `done` has been written from `from` on.
  datatype Window = Window(before: seq<byte>, from: nat, done: seq<byte>)
  {
    ghost predicate Fits(more: nat)
    {
      from + |done| + more <= |before|
    }

    function Extend(bs: seq<byte>): Window
    {
      Window(before, from, done + bs)
    }
  }

  ghost predicate Written(buf: array<byte>, end: nat, w: Window)
    reads buf
  {
    w.Fits(0) && end == w.from + |w.done| && buf[..] == Splice(w.before, w.from, w.done)
  }

  lemma ExtendTwice(w: Window, a: seq<byte>, b: seq<byte>)
    ensures w.Extend(a).Extend(b) == w.Extend(a + b)
  {
    Associative(w.done, a, b);
  }

  // Each writer below puts its bytes at target, the end of what w has been given so far,
  // and leaves the rest of the buffer alone.
  method WriteByteToArray(b: byte, buf: array<byte>, target: nat, ghost w: Window) returns (end: nat)
    requires Written(buf, target, w) && w.Fits(1)
    modifies buf
    ensures Written(buf, end, w.Extend([b]))
  {
    buf[target] := b;
    end := target + 1;
    SpliceTwice(w.before, w.from, w.done, [b]);
  }

  method WriteToArray(bs: seq<byte>, buf: array<byte>, target: nat, ghost w: Window) returns (end: nat)
    requires Written(buf, target, w) && w.Fits(|bs|)
    modifies buf
    ensures Written(buf, end, w.Extend(bs))
  {
    var i := 0;
    end := target;
    assert w.Extend([]) == w;
    while i < |bs|
      invariant i <= |bs| && Written(buf, end, w.Extend(bs[..i]))
    {
      end := WriteByteToArray(bs[i], buf, end, w.Extend(bs[..i]));
      ExtendTwice(w, bs[..i], [bs[i]]);
      assert bs[..i] + [bs[i]] == bs[..i + 1];
      i := i + 1;
    }
    assert bs[..i] == bs;
  }

  method WriteVarintToArray(n: nat, buf: array<byte>, target: nat, ghost w: Window) returns (end: nat)
    requires Written(buf, target, w) && w.Fits(|EncodeVarint(n)|)
    modifies buf
    ensures Written(buf, end, w.Extend(EncodeVarint(n)))
  {
    var left := n;
    end := target;
    ghost var v := w;
    while left >= 128
      invariant Written(buf, end, v) && v.Fits(|EncodeVarint(left)|)
      invariant v.Extend(EncodeVarint(left)) == w.Extend(EncodeVarint(n))
    {
      var digit := 128 + left % 128;
      ExtendTwice(v, [digit], EncodeVarint(left / 128));
      end := WriteByteToArray(digit, buf, end, v);
      v, left := v.Extend([digit]), left / 128;
    }
    end := WriteByteToArray(left, buf, end, v);
  }

  method WriteTagToArray(num: FieldNumber, wireType: int, buf: array<byte>, target: nat, ghost w: Window)
    returns (end: nat)
    requires 0 <= wireType < 8 && Written(buf, target, w) && w.Fits(|EncodeTag(num, wireType)|)
    modifies buf
    ensures Written(buf, end, w.Extend(EncodeTag(num, wireType)))
  {
    end := WriteVarintToArray(MakeTag(num, wireType), buf, target, w);
  }

  method WriteStringToArray(num: FieldNumber, text: Blob, buf: array<byte>, target: nat, ghost w: Window)
    returns (end: nat)
    requires Written(buf, target, w) && w.Fits(|EncodeField(Len(num, text))|)
    modifies buf
    ensures Written(buf, end, w.Extend(EncodeField(Len(num, text))))
  {
    StringInParts(w.done, num, text);
    end := WriteTagToArray(num, WIRE_LEN, buf, target, w);
    ghost var w1 := w.Extend(EncodeTag(num, WIRE_LEN));
    end := WriteVarintToArray(|text|, buf, end, w1);
    end := WriteToArray(text, buf, end, w1.Extend(EncodeVarint(|text|)));
  }

  // A tag and a payload that is written as it is.
  method WriteRecordToArray(num: FieldNumber, wireType: int, payload: seq<byte>, buf: array<byte>, target: nat,
                            ghost w: Window)
    returns (end: nat)
    requires 0 <= wireType < 8 && Written(buf, target, w) && w.Fits(|EncodeTag(num, wireType) + payload|)
    modifies buf
    ensures Written(buf, end, w.Extend(EncodeTag(num, wireType) + payload))
  {
    end := WriteTagToArray(num, wireType, buf, target, w);
    end := WriteToArray(payload, buf, end, w.Extend(EncodeTag(num, wireType)));
    ExtendTwice(w, EncodeTag(num, wireType), payload);
  }

  method WriteVarintFieldToArray(num: FieldNumber, v: uint64, buf: array<byte>, target: nat, ghost w: Window)
    returns (end: nat)
    requires Written(buf, target, w) && w.Fits(|EncodeField(Varint(num, v))|)
    modifies buf
    ensures Written(buf, end, w.Extend(EncodeField(Varint(num, v))))
  {
    assert EncodeField(Varint(num, v)) == EncodeTag(num, WIRE_VARINT) + EncodeVarint(v);
    end := WriteTagToArray(num, WIRE_VARINT, buf, target, w);
    end := WriteVarintToArray(v, buf, end, w.Extend(EncodeTag(num, WIRE_VARINT)));
    ExtendTwice(w, EncodeTag(num, WIRE_VARINT), EncodeVarint(v));
  }

  // A field that is at its default is left out.
  method WriteTextFieldToArray(num: FieldNumber, text: Blob, buf: array<byte>, target: nat, ghost w: Window)
    returns (end: nat)
    requires Written(buf, target, w) && w.Fits(|FieldBytes(num, VText(text))|)
    modifies buf
    ensures Written(buf, end, w.Extend(FieldBytes(num, VText(text))))
  {
    if |text| > 0 {
      end := WriteStringToArray(num, text, buf, target, w);
    } else {
      end := target;
      assert w.Extend([]) == w;
    }
  }

  method WriteNumberFieldToArray(num: FieldNumber, v: int32, buf: array<byte>, target: nat, ghost w: Window)
    returns (end: nat)
    requires Written(buf, target, w) && w.Fits(|FieldBytes(num, VInt(v))|)
    modifies buf
    ensures Written(buf, end, w.Extend(FieldBytes(num, VInt(v))))
  {
    if v != 0 {
      end := WriteVarintFieldToArray(num, SignExtend(v), buf, target, w);
    } else {
      end := target;
      assert w.Extend([]) == w;
    }
  }

  method WriteUnknownFieldToArray(f: Field, buf: array<byte>, target: nat, ghost w: Window) returns (end: nat)
    requires Written(buf, target, w) && w.Fits(|EncodeField(f)|)
    modifies buf
    ensures Written(buf, end, w.Extend(EncodeField(f)))
    decreases f
  {
    assert EncodeField(f) == EncodeTag(f.num, WireType(f)) + EncodePayload(f);
    match f
    case Varint(num, v) => end := WriteVarintFieldToArray(num, v, buf, target, w);
    case Len(num, data) => end := WriteStringToArray(num, data, buf, target, w);
    case Fixed64(num, raw) => end := WriteRecordToArray(num, WIRE_FIXED64, raw, buf, target, w);
    case Fixed32(num, raw) => end := WriteRecordToArray(num, WIRE_FIXED32, raw, buf, target, w);
    case Group(num, fields) =>
      GroupInParts(w.done, num, fields);
      end := WriteTagToArray(num, WIRE_START_GROUP, buf, target, w);
      ghost var w1 := w.Extend(EncodeTag(num, WIRE_START_GROUP));
      end := WriteUnknownFieldsToArray(fields, buf, end, w1);
      end := WriteTagToArray(num, WIRE_END_GROUP, buf, end, w1.Extend(EncodeFields(fields)));
  }

  method WriteUnknownFieldsToArray(fs: seq<Field>, buf: array<byte>, target: nat, ghost w: Window) returns (end: nat)
    requires Written(buf, target, w) && w.Fits(|EncodeFields(fs)|)
    modifies buf
    ensures Written(buf, end, w.Extend(EncodeFields(fs)))
    decreases fs
  {
    var i := 0;
    end := target;
    ghost var v := w;
    while i < |fs|
      invariant i <= |fs| && Written(buf, end, v) && v.Fits(|EncodeFields(fs[i..])|)
      invariant v.Extend(EncodeFields(fs[i..])) == w.Extend(EncodeFields(fs))
    {
      NextField(v.done, fs, i);
      end := WriteUnknownFieldToArray(fs[i], buf, end, v);
      v := v.Extend(EncodeField(fs[i]));
      i := i + 1;
    }
    assert v.Extend([]) == v;
  }
}
