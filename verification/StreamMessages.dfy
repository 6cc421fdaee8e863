// message StreamMessage: a string, an open enum (called type in the source) and a string.
module StreamMessages {
  import opened Wire
  import opened Fields
  import opened Messages
  import opened CodecLaws
  import opened ParserVariants
  import opened SerializerSteps
  import opened WireIo
  import Schemas
  import Utf8

  const SCHEMA := Schemas.STREAM_MESSAGE

  // ---------- the field values as a map ----------

  ghost function Three(v1: Value, v2: Value, v3: Value): map<int, Value>
  {
    map[1 := v1, 2 := v2, 3 := v3]
  }

  lemma ThreeIs(m: map<int, Value>, v1: Value, v2: Value, v3: Value)
    requires m.Keys == {1, 2, 3} && m[1] == v1 && m[2] == v2 && m[3] == v3
    ensures m == Three(v1, v2, v3)
  {
  }

  lemma ThreeKeys(v1: Value, v2: Value, v3: Value)
    ensures Three(v1, v2, v3).Keys == {1, 2, 3}
  {
  }

  lemma ThreeGet(v1: Value, v2: Value, v3: Value)
    ensures var m := Three(v1, v2, v3);
            Get(m, 1) == v1 && Get(m, 2) == v2 && Get(m, 3) == v3
  {
  }

  lemma ThreeMerged(v1: Value, v2: Value, v3: Value, w1: Value, w2: Value, w3: Value)
    ensures MergeVals(Three(v1, v2, v3), Three(w1, w2, w3)) == Three(Pick(v1, w1), Pick(v2, w2), Pick(v3, w3))
  {
    ThreeKeys(v1, v2, v3);
    ThreeKeys(w1, w2, w3);
    ThreeIs(MergeVals(Three(v1, v2, v3), Three(w1, w2, w3)), Pick(v1, w1), Pick(v2, w2), Pick(v3, w3));
  }

  // ---------- the schema ----------

  lemma Kinds()
    ensures Nums(SCHEMA) == {1, 2, 3}
    ensures KindOf(SCHEMA, 1) == KindOf(SCHEMA, 3) == Some(Text) && KindOf(SCHEMA, 2) == Some(Number)
  {
    var s := SCHEMA;
    assert s == [s[0], s[1], s[2]];
    assert Nums(s) == {s[0].num, s[1].num, s[2].num};
    KindOfMember(s, s[0]);
    KindOfMember(s, s[1]);
    KindOfMember(s, s[2]);
  }

  lemma ThreeTyped(s: Schema, v1: Value, v2: Value, v3: Value, unknown: seq<Field>)
    requires Nums(s) == {1, 2, 3}
    requires KindOf(s, 1) == KindOf(s, 3) == Some(Text) && KindOf(s, 2) == Some(Number)
    requires v1.VText? && v2.VInt? && v3.VText?
    ensures WellTyped(s, Message(Three(v1, v2, v3), unknown))
  {
    ThreeKeys(v1, v2, v3);
  }

  ghost const EMPTY := Message(Three(VText([]), VInt(0), VText([])), [])

  lemma ClearedOf(s: Schema)
    requires Nums(s) == {1, 2, 3}
    requires KindOf(s, 1) == KindOf(s, 3) == Some(Text) && KindOf(s, 2) == Some(Number)
    ensures Cleared(s) == EMPTY
  {
    assert Cleared(s).vals == EMPTY.vals;
  }

  lemma ClearedIsEmpty()
    ensures Cleared(SCHEMA) == EMPTY
  {
    Kinds();
    ClearedOf(SCHEMA);
  }

  // The switch on tag >> 3, and the low byte of the tag each case compares.
  function CaseOf(tag: uint32): Option<Kind>
  {
    if tag / 8 == 1 && tag % 256 == 10 then Some(Text)
    else if tag / 8 == 2 && tag % 256 == 16 then Some(Number)
    else if tag / 8 == 3 && tag % 256 == 26 then Some(Text)
    else None
  }

  lemma ThreeCases(s: Schema, tag: uint32)
    requires Nums(s) == {1, 2, 3}
    requires KindOf(s, 1) == KindOf(s, 3) == Some(Text) && KindOf(s, 2) == Some(Number)
    ensures OwnKind(s, tag) == CaseOf(tag)
  {
    OwnTagIsExact(s, tag);
    assert KindOf(s, tag / 8).Some? <==> tag / 8 in {1, 2, 3};
  }

  lemma Turn(bs: seq<byte>, m: Message, budget: nat)
    requires ReadTag(bs).Got?
    ensures PtrTurn(SCHEMA, CaseOf(ReadTag(bs).value), bs, m, budget)
    ensures StreamTurn(SCHEMA, CaseOf(ReadTag(bs).value), bs, m, budget)
  {
    Kinds();
    ThreeCases(SCHEMA, ReadTag(bs).value);
    Turns(SCHEMA, bs, m, budget);
  }

  // ---------- serializing goes in field-number order ... ----------

  lemma ThreeInOrder(m: Message)
    ensures Serialize(SCHEMA, m) ==
            FieldBytes(1, Get(m.vals, 1)) + FieldBytes(2, Get(m.vals, 2)) + FieldBytes(3, Get(m.vals, 3)) +
            EncodeFields(m.unknown)
  {
    ThreeFields(SCHEMA, m, 1, 2, 3);
  }

  lemma Joined(start: seq<byte>, b1: seq<byte>, b2: seq<byte>, b3: seq<byte>, u: seq<byte>)
    ensures start + b1 + b2 + b3 + u == start + (b1 + b2 + b3 + u)
  {
    Associative(start, b1, b2);
    Associative(start, b1 + b2, b3);
    Associative(start, b1 + b2 + b3, u);
  }

  lemma ThreeSerialized(v1: Value, v2: Value, v3: Value, unknown: seq<Field>, start: seq<byte>)
    ensures start + Serialize(SCHEMA, Message(Three(v1, v2, v3), unknown)) ==
            start + FieldBytes(1, v1) + FieldBytes(2, v2) + FieldBytes(3, v3) + EncodeFields(unknown)
  {
    ThreeGet(v1, v2, v3);
    ThreeInOrder(Message(Three(v1, v2, v3), unknown));
    Joined(start, FieldBytes(1, v1), FieldBytes(2, v2), FieldBytes(3, v3), EncodeFields(unknown));
  }

  // ... but the size is added up strings first.
  lemma ThreeSized(v1: Value, v2: Value, v3: Value, unknown: seq<Field>)
    requires v1.VText? && v2.VInt? && v3.VText?
    ensures |Serialize(SCHEMA, Message(Three(v1, v2, v3), unknown))| ==
            FieldsSize(unknown) + ValueSize(v1) + ValueSize(v3) + ValueSize(v2)
  {
    var vals := Three(v1, v2, v3);
    ThreeGet(v1, v2, v3);
    SizeIsExact(SCHEMA, Message(vals, unknown));
    SizesStart(SCHEMA, vals);
    SizeNext(SCHEMA, 0, vals);
    SizeNext(SCHEMA, 1, vals);
    SizeNext(SCHEMA, 2, vals);
  }

  class StreamMessage {
    var sessionid: Blob
    var kind: int32
    var message: Blob
    var unknown: seq<Field>
    var cachedSize: int32

    ghost function Value(): Message
      reads this
    {
      Message(Three(VText(sessionid), VInt(kind), VText(message)), unknown)
    }

    // Which field number each field of the class is written and read under.
    lemma FieldNumbers()
      ensures Value().vals.Keys == {1, 2, 3} && Value().unknown == unknown
      ensures Value().vals[1] == VText(sessionid)
      ensures Value().vals[2] == VInt(kind)
      ensures Value().vals[3] == VText(message)
    {
    }

    constructor ()
      ensures Value() == Cleared(SCHEMA)
    {
      sessionid, message := [], [];
      kind := 0;
      unknown, cachedSize := [], 0;
      new;
      ClearedIsEmpty();
    }

    method Clear()
      modifies this
      ensures Value() == Cleared(SCHEMA)
      ensures cachedSize == old(cachedSize)
    {
      sessionid, message := [], [];
      kind := 0;
      unknown := [];
      ClearedIsEmpty();
    }

    lemma Typed()
      ensures WellTyped(SCHEMA, Value())
    {
      Kinds();
      ThreeTyped(SCHEMA, VText(sessionid), VInt(kind), VText(message), unknown);
    }

    method MergeFrom(from: StreamMessage)
      requires from != this
      modifies this
      ensures Value() == Merge(old(Value()), from.Value())
      ensures cachedSize == old(cachedSize)
    {
      ThreeMerged(VText(sessionid), VInt(kind), VText(message),
                  VText(from.sessionid), VInt(from.kind), VText(from.message));
      unknown := unknown + from.unknown;
      if |from.sessionid| > 0 {
        sessionid := from.sessionid;
      }
      assert VText(sessionid) == Pick(VText(old(sessionid)), VText(from.sessionid));
      if |from.message| > 0 {
        message := from.message;
      }
      assert VText(message) == Pick(VText(old(message)), VText(from.message));
      if from.kind != 0 {
        kind := from.kind;
      }
      assert VInt(kind) == Pick(VInt(old(kind)), VInt(from.kind));
    }

    method CopyFrom(from: StreamMessage)
      modifies this
      ensures Value() == old(from.Value())
      ensures cachedSize == old(cachedSize)
    {
      if from == this {
        return;
      }
      Clear();
      MergeFrom(from);
      from.Typed();
      MergeIdentity(SCHEMA, from.Value());
    }

    method InternalSwap(other: StreamMessage)
      modifies this`sessionid, this`kind, this`message, this`unknown
      modifies other`sessionid, other`kind, other`message, other`unknown
      ensures Value() == old(other.Value()) && other.Value() == old(Value())
    {
      unknown, other.unknown := other.unknown, unknown;
      sessionid, other.sessionid := other.sessionid, sessionid;
      kind, other.kind := other.kind, kind;
      message, other.message := other.message, message;
    }

    // Storing v in field n.
    lemma Storing(n: int, v: Value)
      requires n in {1, 2, 3}
      ensures Value().(vals := Value().vals[n := v]) ==
              Message(Three(if n == 1 then v else VText(sessionid), if n == 2 then v else VInt(kind),
                      if n == 3 then v else VText(message)), unknown)
    {
    }

    // ---------- _InternalParse ----------

    ghost predicate Stored(next: Option<nat>, buf: array<byte>, ptr: nat, r: Read<Message>)
      reads this, buf
    {
      match next
      case None => r.Bad?
      case Some(p) => ptr < p <= buf.Length && r == Got(Value(), buf[p..])
    }

    // The string cases of the switch.
    method ParseText(tag: uint32, ptr: nat, ctx: ParseContext) returns (next: Option<nat>)
      requires ptr <= ctx.buf.Length && CaseOf(tag) == Some(Text)
      modifies this
      ensures Stored(next, ctx.buf, ptr, ReadOwnField(Text, tag / 8, ctx.buf[ptr..], old(Value())))
    {
      var s := ReadStringAt(ctx.buf, ptr);
      if s.Null? || !Utf8.Valid(s.value) {
        return None;
      }
      Storing(tag / 8, VText(s.value));
      if tag / 8 == 1 && tag % 256 == 10 {
        sessionid := s.value;
      } else if tag / 8 == 3 && tag % 256 == 26 {
        message := s.value;
      }
      next := Some(s.ptr);
    }

    // The number cases of the switch.
    method ParseNumber(tag: uint32, ptr: nat, ctx: ParseContext) returns (next: Option<nat>)
      requires ptr <= ctx.buf.Length && CaseOf(tag) == Some(Number)
      modifies this
      ensures Stored(next, ctx.buf, ptr, ReadOwnField(Number, tag / 8, ctx.buf[ptr..], old(Value())))
    {
      var v := ReadVarintAt(ctx.buf, ptr);
      if v.Null? {
        return None;
      }
      Storing(tag / 8, VInt(Truncate32(v.value)));
      kind := Truncate32(v.value);
      next := Some(v.ptr);
    }

    // handle_unusual, for a tag that does not end the run.
    method KeepUnknown(tag: uint32, ptr: nat, ctx: ParseContext) returns (next: Option<nat>)
      requires ptr <= ctx.buf.Length
      modifies this`unknown
      ensures next.Some? ==> ptr <= next.value <= ctx.buf.Length
      ensures match ReadPayload(tag, ctx.buf[ptr..], ctx.depth)
              case Bad => next.None?
              case Got(f, rest) =>
                && next.Some? && rest == ctx.buf[next.value..]
                && Value() == old(Value()).(unknown := old(Value()).unknown + [f])
    {
      var f := ParseUnknown(ctx.buf, ptr, tag, ctx.depth);
      if f.Null? {
        return None;
      }
      unknown := unknown + [f.value];
      next := Some(f.ptr);
    }

    // Runs until the buffer ends, a tag ends it, or something is refused. Every turn
    // either leaves the loop or moves p forward, and nothing is read past the buffer.
    method InternalParse(ptr: nat, ctx: ParseContext) returns (end: Option<nat>)
      requires ptr <= ctx.buf.Length && ctx.lastTag == None
      modifies this, ctx
      ensures end.Some? ==> ptr <= end.value <= ctx.buf.Length
      ensures PtrParse(SCHEMA, ctx.buf[ptr..], old(Value()), ctx.depth) ==
              if end.None? then PtrFailure else PtrStopped(Value(), ctx.buf[end.value..], ctx.lastTag)
    {
      ghost var whole := PtrParse(SCHEMA, ctx.buf[ptr..], Value(), ctx.depth);
      var p := ptr;
      while p < ctx.buf.Length
        invariant ptr <= p <= ctx.buf.Length && ctx.lastTag == None
        invariant whole == PtrParse(SCHEMA, ctx.buf[p..], Value(), ctx.depth)
        decreases ctx.buf.Length - p
      {
        var t := ReadTagAt(ctx.buf, p);
        if t.Null? {
          return None;
        }
        var tag := t.value;
        var own := CaseOf(tag);
        Turn(ctx.buf[p..], Value(), ctx.depth);
        if own == Some(Text) {
          var next := ParseText(tag, t.ptr, ctx);
          if next.None? {
            return None;
          }
          p := next.value;
        } else if own == Some(Number) {
          var next := ParseNumber(tag, t.ptr, ctx);
          if next.None? {
            return None;
          }
          p := next.value;
        } else {
          if tag % 8 == WIRE_END_GROUP || tag == 0 {
            ctx.lastTag := Some(tag);
            return Some(t.ptr);
          }
          var next := KeepUnknown(tag, t.ptr, ctx);
          if next.None? {
            return None;
          }
          p := next.value;
        }
      }
      end := Some(p);
    }

    // The whole input at once: accepted when the parser ran to the end of the buffer.
    method ParseFromArray(buf: array<byte>, depth: nat) returns (accepted: bool)
      modifies this
      ensures accepted <==> Parse(SCHEMA, buf[..], Cleared(SCHEMA), depth).Some?
      ensures accepted ==> Value() == Parse(SCHEMA, buf[..], Cleared(SCHEMA), depth).value
    {
      Clear();
      var ctx := new ParseContext(buf, depth);
      var end := InternalParse(0, ctx);
      accepted := end.Some? && ctx.lastTag == None;
      assert buf[0..] == buf[..];
      PtrParseIsParse(SCHEMA, buf[..], Cleared(SCHEMA), depth);
    }

    // ---------- MergePartialFromCodedStream ----------

    method ReadText(tag: uint32, input: CodedInputStream) returns (ok: bool)
      requires input.Valid() && CaseOf(tag) == Some(Text)
      modifies this, input`pos
      ensures input.Valid() && input.pos >= old(input.pos)
      ensures var r := ReadOwnField(Text, tag / 8, old(input.Remaining()), old(Value()));
              if ok then r == Got(Value(), input.Remaining()) else r.Bad?
    {
      var s := input.ReadText();
      if s.None? {
        return false;
      }
      Storing(tag / 8, VText(s.value));
      if tag / 8 == 1 && tag % 256 == 10 {
        sessionid := s.value;
      } else if tag / 8 == 3 && tag % 256 == 26 {
        message := s.value;
      }
      ok := Utf8.Valid(s.value);
    }

    method ReadNumber(tag: uint32, input: CodedInputStream) returns (ok: bool)
      requires input.Valid() && CaseOf(tag) == Some(Number)
      modifies this, input`pos
      ensures input.Valid() && input.pos >= old(input.pos)
      ensures var r := ReadOwnField(Number, tag / 8, old(input.Remaining()), old(Value()));
              if ok then r == Got(Value(), input.Remaining()) else r.Bad?
    {
      var v := input.ReadInt32();
      if v.None? {
        return false;
      }
      Storing(tag / 8, VInt(v.value));
      kind := v.value;
      ok := true;
    }

    method MergePartialFromCodedStream(input: CodedInputStream) returns (ok: bool)
      requires input.Valid()
      modifies this, input
      ensures input.Valid()
      ensures StreamParse(SCHEMA, old(input.Remaining()), old(Value()), input.depth) ==
              if ok then StreamStopped(Value(), input.legitimateEnd) else StreamFailure
    {
      ghost var whole := StreamParse(SCHEMA, input.Remaining(), Value(), input.depth);
      while true
        invariant input.Valid()
        invariant whole == StreamParse(SCHEMA, input.Remaining(), Value(), input.depth)
        decreases input.buf.Length - input.pos
      {
        ghost var bs := input.Remaining();
        if ReadTag(bs).Got? {
          Turn(bs, Value(), input.depth);
        }
        var tag, known := input.ReadTagWithCutoff(TAG_CUTOFF);
        var own := CaseOf(tag);
        if known && own == Some(Text) {
          ok := ReadText(tag, input);
          if !ok {
            return;
          }
        } else if known && own == Some(Number) {
          ok := ReadNumber(tag, input);
          if !ok {
            return;
          }
        } else {
          if tag == 0 {
            return true;
          }
          var f := input.SkipField(tag);
          if f.None? {
            return false;
          }
          unknown := unknown + [f.value];
        }
      }
    }

    // The whole input at once: accepted when the stream was at its end.
    method ParseFromStream(buf: array<byte>, depth: nat) returns (accepted: bool)
      modifies this
      ensures accepted <==> Parse(SCHEMA, buf[..], Cleared(SCHEMA), depth).Some?
      ensures accepted ==> Value() == Parse(SCHEMA, buf[..], Cleared(SCHEMA), depth).value
    {
      Clear();
      var input := new CodedInputStream(buf, depth);
      var ok := MergePartialFromCodedStream(input);
      accepted := ok && input.legitimateEnd;
      assert buf[0..] == buf[..];
      StreamParseIsParse(SCHEMA, buf[..], Cleared(SCHEMA), depth);
    }

    // ---------- sizes and serializers ----------

    method ByteSizeLong() returns (total: nat)
      modifies this`cachedSize
      ensures total == |Serialize(SCHEMA, Value())| && cachedSize == ToCachedSize(total)
      ensures cachedSize == total <==> total < 0x8000_0000
    {
      ThreeSized(VText(sessionid), VInt(kind), VText(message), unknown);
      total := 0;
      if unknown != [] {
        total := total + FieldsSize(unknown);
      }
      ghost var sum := FieldsSize(unknown);
      assert total == sum;
      if |sessionid| > 0 {
        total := total + 1 + StringSize(sessionid);
      }
      assert total == sum + ValueSize(VText(sessionid));
      sum := total;
      if |message| > 0 {
        total := total + 1 + StringSize(message);
      }
      assert total == sum + ValueSize(VText(message));
      sum := total;
      if kind != 0 {
        total := total + 1 + Int32Size(kind);
      }
      assert total == sum + ValueSize(VInt(kind));
      cachedSize := ToCachedSize(total);
      CachedSizeExact(total);
    }

    method SerializeWithCachedSizes(output: CodedOutputStream)
      modifies output
      ensures output.bytes == old(output.bytes) + Serialize(SCHEMA, Value())
    {
      ThreeSerialized(VText(sessionid), VInt(kind), VText(message), unknown, output.bytes);
      output.WriteTextField(1, sessionid);
      output.WriteNumberField(2, kind);
      output.WriteTextField(3, message);
      output.WriteUnknownFields(unknown);
    }

    // Writes the same bytes into the window of the array that starts at target, and
    // leaves the rest of the array as it was.
    method InternalSerializeWithCachedSizesToArray(buf: array<byte>, target: nat) returns (end: nat)
      requires target + |Serialize(SCHEMA, Value())| <= buf.Length
      modifies buf
      ensures end == target + |Serialize(SCHEMA, Value())|
      ensures buf[..] == Splice(old(buf[..]), target, Serialize(SCHEMA, Value()))
    {
      ThreeSerialized(VText(sessionid), VInt(kind), VText(message), unknown, []);
      assert [] + Serialize(SCHEMA, Value()) == Serialize(SCHEMA, Value());
      ghost var w := Window(buf[..], target, []);
      assert Splice(buf[..], target, []) == buf[..];
      end := WriteTextFieldToArray(1, sessionid, buf, target, w);
      w := w.Extend(FieldBytes(1, VText(sessionid)));
      end := WriteNumberFieldToArray(2, kind, buf, end, w);
      w := w.Extend(FieldBytes(2, VInt(kind)));
      end := WriteTextFieldToArray(3, message, buf, end, w);
      w := w.Extend(FieldBytes(3, VText(message)));
      end := WriteUnknownFieldsToArray(unknown, buf, end, w);
    }
  }
}
