// message GenericResponse: one int32.
module GenericResponses {
  import opened Wire
  import opened Fields
  import opened Messages
  import opened CodecLaws
  import opened ParserVariants
  import opened SerializerSteps
  import opened WireIo
  import Schemas

  const SCHEMA := Schemas.GENERIC_RESPONSE

  // The switch on tag >> 3, and the low byte of the tag each case compares.
  function CaseOf(tag: uint32): Option<Kind>
  {
    if tag / 8 == 1 && tag % 256 == 8 then Some(Number)
    else None
  }

  lemma Turn(bs: seq<byte>, m: Message, budget: nat)
    requires ReadTag(bs).Got?
    ensures PtrTurn(SCHEMA, CaseOf(ReadTag(bs).value), bs, m, budget)
    ensures StreamTurn(SCHEMA, CaseOf(ReadTag(bs).value), bs, m, budget)
  {
    Turns(SCHEMA, bs, m, budget);
  }

  lemma InOrder(m: Message)
    ensures Serialize(SCHEMA, m) == FieldBytes(1, Get(m.vals, 1)) + EncodeFields(m.unknown)
  {
    SingleField(SCHEMA, m, 1);
  }

  lemma Serialized(status: Value, unknown: seq<Field>, start: seq<byte>)
    ensures start + Serialize(SCHEMA, Message(map[1 := status], unknown)) ==
            start + FieldBytes(1, status) + EncodeFields(unknown)
  {
    InOrder(Message(map[1 := status], unknown));
    Associative(start, FieldBytes(1, status), EncodeFields(unknown));
  }

  lemma Sized(status: Value, unknown: seq<Field>)
    requires status.VInt?
    ensures |Serialize(SCHEMA, Message(map[1 := status], unknown))| == FieldsSize(unknown) + ValueSize(status)
  {
    SizeIsExact(SCHEMA, Message(map[1 := status], unknown));
    SizesStart(SCHEMA, map[1 := status]);
    SizeNext(SCHEMA, 0, map[1 := status]);
  }

  class GenericResponse {
    var status: int32
    var unknown: seq<Field>
    var cachedSize: int32

    ghost function Value(): Message
      reads this
    {
      Message(map[1 := VInt(status)], unknown)
    }

    // Which field number each field of the class is written and read under.
    lemma FieldNumbers()
      ensures Value().vals.Keys == {1} && Value().unknown == unknown
      ensures Value().vals[1] == VInt(status)
    {
    }

    constructor ()
      ensures Value() == Cleared(SCHEMA)
    {
      status := 0;
      unknown, cachedSize := [], 0;
    }

    method Clear()
      modifies this
      ensures Value() == Cleared(SCHEMA)
      ensures cachedSize == old(cachedSize)
    {
      status := 0;
      unknown := [];
    }

    lemma Typed()
      ensures WellTyped(SCHEMA, Value())
    {
    }

    method MergeFrom(from: GenericResponse)
      requires from != this
      modifies this
      ensures Value() == Merge(old(Value()), from.Value())
      ensures cachedSize == old(cachedSize)
    {
      unknown := unknown + from.unknown;
      if from.status != 0 {
        status := from.status;
      }
      assert VInt(status) == Pick(VInt(old(status)), VInt(from.status));
    }

    method CopyFrom(from: GenericResponse)
      modifies this
      ensures Value() == old(from.Value())
      ensures cachedSize == old(cachedSize)
    {
      if from == this {
        return;
      }
      Clear();
      MergeFrom(from);
      from.Typed();
      MergeIdentity(SCHEMA, from.Value());
    }

    method InternalSwap(other: GenericResponse)
      modifies this`status, this`unknown
      modifies other`status, other`unknown
      ensures Value() == old(other.Value()) && other.Value() == old(Value())
    {
      unknown, other.unknown := other.unknown, unknown;
      status, other.status := other.status, status;
    }

    // ---------- _InternalParse ----------

    // The one case of the switch.
    method ParseNumber(tag: uint32, ptr: nat, ctx: ParseContext) returns (next: Option<nat>)
      requires ptr <= ctx.buf.Length && CaseOf(tag) == Some(Number)
      modifies this
      ensures var r := ReadOwnField(Number, tag / 8, ctx.buf[ptr..], old(Value()));
              if next.None? then r.Bad?
              else ptr < next.value <= ctx.buf.Length && r == Got(Value(), ctx.buf[next.value..])
    {
      var v := ReadVarintAt(ctx.buf, ptr);
      if v.Null? {
        return None;
      }
      status := Truncate32(v.value);
      next := Some(v.ptr);
      assert Value() == old(Value()).(vals := old(Value()).vals[1 := VInt(status)]);
    }

    // handle_unusual, for a tag that does not end the run.
    method KeepUnknown(tag: uint32, ptr: nat, ctx: ParseContext) returns (next: Option<nat>)
      requires ptr <= ctx.buf.Length
      modifies this`unknown
      ensures next.Some? ==> ptr <= next.value <= ctx.buf.Length
      ensures match ReadPayload(tag, ctx.buf[ptr..], ctx.depth)
              case Bad => next.None?
              case Got(f, rest) =>
                && next.Some? && rest == ctx.buf[next.value..]
                && Value() == old(Value()).(unknown := old(Value()).unknown + [f])
    {
      var f := ParseUnknown(ctx.buf, ptr, tag, ctx.depth);
      if f.Null? {
        return None;
      }
      unknown := unknown + [f.value];
      next := Some(f.ptr);
    }

    // Runs until the buffer ends, a tag ends it, or something is refused. Every turn
    // either leaves the loop or moves p forward, and nothing is read past the buffer.
    method InternalParse(ptr: nat, ctx: ParseContext) returns (end: Option<nat>)
      requires ptr <= ctx.buf.Length && ctx.lastTag == None
      modifies this, ctx
      ensures end.Some? ==> ptr <= end.value <= ctx.buf.Length
      ensures PtrParse(SCHEMA, ctx.buf[ptr..], old(Value()), ctx.depth) ==
              if end.None? then PtrFailure else PtrStopped(Value(), ctx.buf[end.value..], ctx.lastTag)
    {
      ghost var whole := PtrParse(SCHEMA, ctx.buf[ptr..], Value(), ctx.depth);
      var p := ptr;
      while p < ctx.buf.Length
        invariant ptr <= p <= ctx.buf.Length && ctx.lastTag == None
        invariant whole == PtrParse(SCHEMA, ctx.buf[p..], Value(), ctx.depth)
        decreases ctx.buf.Length - p
      {
        var t := ReadTagAt(ctx.buf, p);
        if t.Null? {
          return None;
        }
        var tag := t.value;
        var own := CaseOf(tag);
        Turn(ctx.buf[p..], Value(), ctx.depth);
        if own == Some(Number) {
          var next := ParseNumber(tag, t.ptr, ctx);
          if next.None? {
            return None;
          }
          p := next.value;
        } else {
          if tag % 8 == WIRE_END_GROUP || tag == 0 {
            ctx.lastTag := Some(tag);
            return Some(t.ptr);
          }
          var next := KeepUnknown(tag, t.ptr, ctx);
          if next.None? {
            return None;
          }
          p := next.value;
        }
      }
      end := Some(p);
    }

    // The whole input at once: accepted when the parser ran to the end of the buffer.
    method ParseFromArray(buf: array<byte>, depth: nat) returns (accepted: bool)
      modifies this
      ensures accepted <==> Parse(SCHEMA, buf[..], Cleared(SCHEMA), depth).Some?
      ensures accepted ==> Value() == Parse(SCHEMA, buf[..], Cleared(SCHEMA), depth).value
    {
      Clear();
      var ctx := new ParseContext(buf, depth);
      var end := InternalParse(0, ctx);
      accepted := end.Some? && ctx.lastTag == None;
      assert buf[0..] == buf[..];
      PtrParseIsParse(SCHEMA, buf[..], Cleared(SCHEMA), depth);
    }

    // ---------- MergePartialFromCodedStream ----------

    method ReadNumber(tag: uint32, input: CodedInputStream) returns (ok: bool)
      requires input.Valid() && CaseOf(tag) == Some(Number)
      modifies this, input`pos
      ensures input.Valid() && input.pos >= old(input.pos)
      ensures var r := ReadOwnField(Number, tag / 8, old(input.Remaining()), old(Value()));
              if ok then r == Got(Value(), input.Remaining()) else r.Bad?
    {
      var v := input.ReadInt32();
      if v.None? {
        return false;
      }
      status := v.value;
      ok := true;
      assert Value() == old(Value()).(vals := old(Value()).vals[1 := VInt(status)]);
    }

    method MergePartialFromCodedStream(input: CodedInputStream) returns (ok: bool)
      requires input.Valid()
      modifies this, input
      ensures input.Valid()
      ensures StreamParse(SCHEMA, old(input.Remaining()), old(Value()), input.depth) ==
              if ok then StreamStopped(Value(), input.legitimateEnd) else StreamFailure
    {
      ghost var whole := StreamParse(SCHEMA, input.Remaining(), Value(), input.depth);
      while true
        invariant input.Valid()
        invariant whole == StreamParse(SCHEMA, input.Remaining(), Value(), input.depth)
        decreases input.buf.Length - input.pos
      {
        ghost var bs := input.Remaining();
        if ReadTag(bs).Got? {
          Turn(bs, Value(), input.depth);
        }
        var tag, known := input.ReadTagWithCutoff(TAG_CUTOFF);
        var own := CaseOf(tag);
        if known && own == Some(Number) {
          ok := ReadNumber(tag, input);
          if !ok {
            return;
          }
        } else {
          if tag == 0 {
            return true;
          }
          var f := input.SkipField(tag);
          if f.None? {
            return false;
          }
          unknown := unknown + [f.value];
        }
      }
    }

    // The whole input at once: accepted when the stream was at its end.
    method ParseFromStream(buf: array<byte>, depth: nat) returns (accepted: bool)
      modifies this
      ensures accepted <==> Parse(SCHEMA, buf[..], Cleared(SCHEMA), depth).Some?
      ensures accepted ==> Value() == Parse(SCHEMA, buf[..], Cleared(SCHEMA), depth).value
    {
      Clear();
      var input := new CodedInputStream(buf, depth);
      var ok := MergePartialFromCodedStream(input);
      accepted := ok && input.legitimateEnd;
      assert buf[0..] == buf[..];
      StreamParseIsParse(SCHEMA, buf[..], Cleared(SCHEMA), depth);
    }

    // ---------- sizes and serializers ----------

    method ByteSizeLong() returns (total: nat)
      modifies this`cachedSize
      ensures total == |Serialize(SCHEMA, Value())| && cachedSize == ToCachedSize(total)
      ensures cachedSize == total <==> total < 0x8000_0000
    {
      Sized(VInt(status), unknown);
      total := 0;
      if unknown != [] {
        total := total + FieldsSize(unknown);
      }
      ghost var sum := FieldsSize(unknown);
      assert total == sum;
      if status != 0 {
        total := total + 1 + Int32Size(status);
      }
      assert total == sum + ValueSize(VInt(status));
      cachedSize := ToCachedSize(total);
      CachedSizeExact(total);
    }

    method SerializeWithCachedSizes(output: CodedOutputStream)
      modifies output
      ensures output.bytes == old(output.bytes) + Serialize(SCHEMA, Value())
    {
      Serialized(VInt(status), unknown, output.bytes);
      output.WriteNumberField(1, status);
      output.WriteUnknownFields(unknown);
    }

    // Writes the same bytes into the window of the array that starts at target, and
    // leaves the rest of the array as it was.
    method InternalSerializeWithCachedSizesToArray(buf: array<byte>, target: nat) returns (end: nat)
      requires target + |Serialize(SCHEMA, Value())| <= buf.Length
      modifies buf
      ensures end == target + |Serialize(SCHEMA, Value())|
      ensures buf[..] == Splice(old(buf[..]), target, Serialize(SCHEMA, Value()))
    {
      Serialized(VInt(status), unknown, []);
      assert [] + Serialize(SCHEMA, Value()) == Serialize(SCHEMA, Value());
      ghost var w := Window(buf[..], target, []);
      assert Splice(buf[..], target, []) == buf[..];
      end := WriteNumberFieldToArray(1, status, buf, target, w);
      w := w.Extend(FieldBytes(1, VInt(status)));
      end := WriteUnknownFieldsToArray(unknown, buf, end, w);
    }
  }
}
