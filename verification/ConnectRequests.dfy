// message ConnectRequest: four strings and two open enums.
module ConnectRequests {
  import opened Wire
  import opened Fields
  import opened Messages
  import opened CodecLaws
  import opened ParserVariants
  import opened SerializerSteps
  import opened WireIo
  import Schemas
  import Utf8

  const SCHEMA := Schemas.CONNECT_REQUEST

  // ---------- the field values as a map ----------

  ghost function Six(v1: Value, v2: Value, v3: Value, v4: Value, v5: Value, v6: Value): map<int, Value>
  {
    map[1 := v1, 2 := v2, 3 := v3, 4 := v4, 5 := v5, 6 := v6]
  }

  lemma SixIs(m: map<int, Value>, v1: Value, v2: Value, v3: Value, v4: Value, v5: Value, v6: Value)
    requires m.Keys == {1, 2, 3, 4, 5, 6}
    requires m[1] == v1 && m[2] == v2 && m[3] == v3 && m[4] == v4 && m[5] == v5 && m[6] == v6
    ensures m == Six(v1, v2, v3, v4, v5, v6)
  {
  }

  lemma SixKeys(v1: Value, v2: Value, v3: Value, v4: Value, v5: Value, v6: Value)
    ensures Six(v1, v2, v3, v4, v5, v6).Keys == {1, 2, 3, 4, 5, 6}
  {
  }

  lemma SixGet(v1: Value, v2: Value, v3: Value, v4: Value, v5: Value, v6: Value)
    ensures var m := Six(v1, v2, v3, v4, v5, v6);
            Get(m, 1) == v1 && Get(m, 2) == v2 && Get(m, 3) == v3 && Get(m, 4) == v4 && Get(m, 5) == v5 &&
            Get(m, 6) == v6
  {
  }

  lemma SixMerged(v1: Value, v2: Value, v3: Value, v4: Value, v5: Value, v6: Value,
                  w1: Value, w2: Value, w3: Value, w4: Value, w5: Value, w6: Value)
    ensures MergeVals(Six(v1, v2, v3, v4, v5, v6), Six(w1, w2, w3, w4, w5, w6)) ==
            Six(Pick(v1, w1), Pick(v2, w2), Pick(v3, w3), Pick(v4, w4), Pick(v5, w5), Pick(v6, w6))
  {
    SixKeys(v1, v2, v3, v4, v5, v6);
    SixKeys(w1, w2, w3, w4, w5, w6);
    SixIs(MergeVals(Six(v1, v2, v3, v4, v5, v6), Six(w1, w2, w3, w4, w5, w6)),
          Pick(v1, w1), Pick(v2, w2), Pick(v3, w3), Pick(v4, w4), Pick(v5, w5), Pick(v6, w6));
  }

  // ---------- the schema ----------

  lemma Numbers()
    ensures Nums(SCHEMA) == {1, 2, 3, 4, 5, 6}
  {
    var s := SCHEMA;
    assert s == [s[0], s[1], s[2], s[3], s[4], s[5]];
    assert Nums(s) == {s[0].num, s[1].num, s[2].num, s[3].num, s[4].num, s[5].num};
  }

  lemma Kinds()
    ensures KindOf(SCHEMA, 1) == KindOf(SCHEMA, 2) == KindOf(SCHEMA, 4) == KindOf(SCHEMA, 5) == Some(Text)
    ensures KindOf(SCHEMA, 3) == KindOf(SCHEMA, 6) == Some(Number)
  {
    var s := SCHEMA;
    KindOfMember(s, s[0]);
    KindOfMember(s, s[1]);
    KindOfMember(s, s[2]);
    KindOfMember(s, s[3]);
    KindOfMember(s, s[4]);
    KindOfMember(s, s[5]);
  }

  // The shape of the schema, without its spelling.
  ghost predicate Shape(s: Schema)
  {
    && Nums(s) == {1, 2, 3, 4, 5, 6}
    && KindOf(s, 1) == KindOf(s, 2) == KindOf(s, 4) == KindOf(s, 5) == Some(Text)
    && KindOf(s, 3) == KindOf(s, 6) == Some(Number)
  }

  lemma SixTyped(s: Schema, v1: Value, v2: Value, v3: Value, v4: Value, v5: Value, v6: Value, unknown: seq<Field>)
    requires Shape(s)
    requires v1.VText? && v2.VText? && v3.VInt? && v4.VText? && v5.VText? && v6.VInt?
    ensures WellTyped(s, Message(Six(v1, v2, v3, v4, v5, v6), unknown))
  {
    SixKeys(v1, v2, v3, v4, v5, v6);
  }

  ghost const EMPTY := Message(Six(VText([]), VText([]), VInt(0), VText([]), VText([]), VInt(0)), [])

  lemma SixCleared(s: Schema)
    requires Shape(s)
    ensures Cleared(s) == EMPTY
  {
    SixIs(Cleared(s).vals, VText([]), VText([]), VInt(0), VText([]), VText([]), VInt(0));
  }

  lemma ClearedIsEmpty()
    ensures Cleared(SCHEMA) == EMPTY
  {
    Numbers();
    Kinds();
    SixCleared(SCHEMA);
  }

  // The switch on tag >> 3, and the low byte of the tag each case compares.
  function CaseOf(tag: uint32): Option<Kind>
  {
    if tag / 8 == 1 && tag % 256 == 10 then Some(Text)
    else if tag / 8 == 2 && tag % 256 == 18 then Some(Text)
    else if tag / 8 == 3 && tag % 256 == 24 then Some(Number)
    else if tag / 8 == 4 && tag % 256 == 34 then Some(Text)
    else if tag / 8 == 5 && tag % 256 == 42 then Some(Text)
    else if tag / 8 == 6 && tag % 256 == 48 then Some(Number)
    else None
  }

  lemma SixCases(s: Schema, tag: uint32)
    requires Shape(s)
    ensures OwnKind(s, tag) == CaseOf(tag)
  {
    OwnTagIsExact(s, tag);
    assert KindOf(s, tag / 8).Some? <==> tag / 8 in {1, 2, 3, 4, 5, 6};
  }

  lemma Turn(bs: seq<byte>, m: Message, budget: nat)
    requires ReadTag(bs).Got?
    ensures PtrTurn(SCHEMA, CaseOf(ReadTag(bs).value), bs, m, budget)
    ensures StreamTurn(SCHEMA, CaseOf(ReadTag(bs).value), bs, m, budget)
  {
    Numbers();
    Kinds();
    SixCases(SCHEMA, ReadTag(bs).value);
    Turns(SCHEMA, bs, m, budget);
  }

  // ---------- serializing goes in field-number order ... ----------

  lemma SixInOrder(m: Message)
    ensures Serialize(SCHEMA, m) ==
            FieldBytes(1, Get(m.vals, 1)) + FieldBytes(2, Get(m.vals, 2)) + FieldBytes(3, Get(m.vals, 3)) +
            FieldBytes(4, Get(m.vals, 4)) + FieldBytes(5, Get(m.vals, 5)) + FieldBytes(6, Get(m.vals, 6)) +
            EncodeFields(m.unknown)
  {
    SixFields(SCHEMA, m, 1, 2, 3, 4, 5, 6);
  }

  lemma Joined(start: seq<byte>, b1: seq<byte>, b2: seq<byte>, b3: seq<byte>, b4: seq<byte>, b5: seq<byte>,
               b6: seq<byte>, u: seq<byte>)
    ensures start + b1 + b2 + b3 + b4 + b5 + b6 + u == start + (b1 + b2 + b3 + b4 + b5 + b6 + u)
  {
    Associative(start, b1, b2);
    Associative(start, b1 + b2, b3);
    Associative(start, b1 + b2 + b3, b4);
    Associative(start, b1 + b2 + b3 + b4, b5);
    Associative(start, b1 + b2 + b3 + b4 + b5, b6);
    Associative(start, b1 + b2 + b3 + b4 + b5 + b6, u);
  }

  lemma SixSerialized(v1: Value, v2: Value, v3: Value, v4: Value, v5: Value, v6: Value, unknown: seq<Field>,
                      start: seq<byte>)
    ensures start + Serialize(SCHEMA, Message(Six(v1, v2, v3, v4, v5, v6), unknown)) ==
            start + FieldBytes(1, v1) + FieldBytes(2, v2) + FieldBytes(3, v3) + FieldBytes(4, v4) +
            FieldBytes(5, v5) + FieldBytes(6, v6) + EncodeFields(unknown)
  {
    SixGet(v1, v2, v3, v4, v5, v6);
    SixInOrder(Message(Six(v1, v2, v3, v4, v5, v6), unknown));
    Joined(start, FieldBytes(1, v1), FieldBytes(2, v2), FieldBytes(3, v3), FieldBytes(4, v4), FieldBytes(5, v5),
           FieldBytes(6, v6), EncodeFields(unknown));
  }

  // ... but the size is added up strings first.
  lemma SixSized(v1: Value, v2: Value, v3: Value, v4: Value, v5: Value, v6: Value, unknown: seq<Field>)
    requires v1.VText? && v2.VText? && v3.VInt? && v4.VText? && v5.VText? && v6.VInt?
    ensures |Serialize(SCHEMA, Message(Six(v1, v2, v3, v4, v5, v6), unknown))| ==
            FieldsSize(unknown) + ValueSize(v1) + ValueSize(v2) + ValueSize(v4) + ValueSize(v5) + ValueSize(v3) +
            ValueSize(v6)
  {
    var vals := Six(v1, v2, v3, v4, v5, v6);
    SixGet(v1, v2, v3, v4, v5, v6);
    SizeIsExact(SCHEMA, Message(vals, unknown));
    SizesStart(SCHEMA, vals);
    SizeNext(SCHEMA, 0, vals);
    SizeNext(SCHEMA, 1, vals);
    SizeNext(SCHEMA, 2, vals);
    SizeNext(SCHEMA, 3, vals);
    SizeNext(SCHEMA, 4, vals);
    SizeNext(SCHEMA, 5, vals);
  }

  class ConnectRequest {
    var sessionid: Blob
    var neid: Blob
    var nodeside: int32
    var username: Blob
    var password: Blob
    var node: int32
    var unknown: seq<Field>
    var cachedSize: int32

    ghost function Value(): Message
      reads this
    {
      Message(Six(VText(sessionid), VText(neid), VInt(nodeside), VText(username), VText(password), VInt(node)),
              unknown)
    }

    // Which field number each field of the class is written and read under.
    lemma FieldNumbers()
      ensures Value().vals.Keys == {1, 2, 3, 4, 5, 6} && Value().unknown == unknown
      ensures Value().vals[1] == VText(sessionid)
      ensures Value().vals[2] == VText(neid)
      ensures Value().vals[3] == VInt(nodeside)
      ensures Value().vals[4] == VText(username)
      ensures Value().vals[5] == VText(password)
      ensures Value().vals[6] == VInt(node)
    {
      SixKeys(VText(sessionid), VText(neid), VInt(nodeside), VText(username), VText(password), VInt(node));
    }

    constructor ()
      ensures Value() == Cleared(SCHEMA)
    {
      sessionid, neid, username, password := [], [], [], [];
      nodeside, node := 0, 0;
      unknown, cachedSize := [], 0;
      new;
      ClearedIsEmpty();
    }

    method Clear()
      modifies this
      ensures Value() == Cleared(SCHEMA)
      ensures cachedSize == old(cachedSize)
    {
      sessionid, neid, username, password := [], [], [], [];
      nodeside, node := 0, 0;
      unknown := [];
      ClearedIsEmpty();
    }

    lemma Typed()
      ensures WellTyped(SCHEMA, Value())
    {
      Numbers();
      Kinds();
      SixTyped(SCHEMA, VText(sessionid), VText(neid), VInt(nodeside), VText(username), VText(password), VInt(node),
               unknown);
    }

    method MergeFrom(from: ConnectRequest)
      requires from != this
      modifies this
      ensures Value() == Merge(old(Value()), from.Value())
      ensures cachedSize == old(cachedSize)
    {
      SixMerged(VText(sessionid), VText(neid), VInt(nodeside), VText(username), VText(password), VInt(node),
                VText(from.sessionid), VText(from.neid), VInt(from.nodeside), VText(from.username),
                VText(from.password), VInt(from.node));
      unknown := unknown + from.unknown;
      if |from.sessionid| > 0 {
        sessionid := from.sessionid;
      }
      assert VText(sessionid) == Pick(VText(old(sessionid)), VText(from.sessionid));
      if |from.neid| > 0 {
        neid := from.neid;
      }
      assert VText(neid) == Pick(VText(old(neid)), VText(from.neid));
      if |from.username| > 0 {
        username := from.username;
      }
      assert VText(username) == Pick(VText(old(username)), VText(from.username));
      if |from.password| > 0 {
        password := from.password;
      }
      assert VText(password) == Pick(VText(old(password)), VText(from.password));
      if from.nodeside != 0 {
        nodeside := from.nodeside;
      }
      assert VInt(nodeside) == Pick(VInt(old(nodeside)), VInt(from.nodeside));
      if from.node != 0 {
        node := from.node;
      }
      assert VInt(node) == Pick(VInt(old(node)), VInt(from.node));
    }

    method CopyFrom(from: ConnectRequest)
      modifies this
      ensures Value() == old(from.Value())
      ensures cachedSize == old(cachedSize)
    {
      if from == this {
        return;
      }
      Clear();
      MergeFrom(from);
      from.Typed();
      MergeIdentity(SCHEMA, from.Value());
    }

    method InternalSwap(other: ConnectRequest)
      modifies this`sessionid, this`neid, this`nodeside, this`username, this`password, this`node, this`unknown
      modifies other`sessionid, other`neid, other`nodeside, other`username, other`password, other`node, other`unknown
      ensures Value() == old(other.Value()) && other.Value() == old(Value())
    {
      unknown, other.unknown := other.unknown, unknown;
      sessionid, other.sessionid := other.sessionid, sessionid;
      neid, other.neid := other.neid, neid;
      nodeside, other.nodeside := other.nodeside, nodeside;
      username, other.username := other.username, username;
      password, other.password := other.password, password;
      node, other.node := other.node, node;
    }

    // Storing v in field n.
    lemma Storing(n: int, v: Value)
      requires n in {1, 2, 3, 4, 5, 6}
      ensures Value().(vals := Value().vals[n := v]) ==
              Message(Six(if n == 1 then v else VText(sessionid), if n == 2 then v else VText(neid),
                      if n == 3 then v else VInt(nodeside), if n == 4 then v else VText(username),
                      if n == 5 then v else VText(password), if n == 6 then v else VInt(node)), unknown)
    {
      SixKeys(VText(sessionid), VText(neid), VInt(nodeside), VText(username), VText(password), VInt(node));
      SixIs(Value().vals[n := v], if n == 1 then v else VText(sessionid), if n == 2 then v else VText(neid),
            if n == 3 then v else VInt(nodeside), if n == 4 then v else VText(username),
            if n == 5 then v else VText(password), if n == 6 then v else VInt(node));
    }

    // ---------- _InternalParse ----------

    ghost predicate Stored(next: Option<nat>, buf: array<byte>, ptr: nat, r: Read<Message>)
      reads this, buf
    {
      match next
      case None => r.Bad?
      case Some(p) => ptr < p <= buf.Length && r == Got(Value(), buf[p..])
    }

    // The string cases of the switch.
    method ParseText(tag: uint32, ptr: nat, ctx: ParseContext) returns (next: Option<nat>)
      requires ptr <= ctx.buf.Length && CaseOf(tag) == Some(Text)
      modifies this
      ensures Stored(next, ctx.buf, ptr, ReadOwnField(Text, tag / 8, ctx.buf[ptr..], old(Value())))
    {
      var s := ReadStringAt(ctx.buf, ptr);
      if s.Null? || !Utf8.Valid(s.value) {
        return None;
      }
      Storing(tag / 8, VText(s.value));
      if tag / 8 == 1 && tag % 256 == 10 {
        sessionid := s.value;
      } else if tag / 8 == 2 && tag % 256 == 18 {
        neid := s.value;
      } else if tag / 8 == 4 && tag % 256 == 34 {
        username := s.value;
      } else if tag / 8 == 5 && tag % 256 == 42 {
        password := s.value;
      }
      next := Some(s.ptr);
    }

    // The number cases of the switch.
    method ParseNumber(tag: uint32, ptr: nat, ctx: ParseContext) returns (next: Option<nat>)
      requires ptr <= ctx.buf.Length && CaseOf(tag) == Some(Number)
      modifies this
      ensures Stored(next, ctx.buf, ptr, ReadOwnField(Number, tag / 8, ctx.buf[ptr..], old(Value())))
    {
      var v := ReadVarintAt(ctx.buf, ptr);
      if v.Null? {
        return None;
      }
      Storing(tag / 8, VInt(Truncate32(v.value)));
      if tag / 8 == 3 && tag % 256 == 24 {
        nodeside := Truncate32(v.value);
      } else if tag / 8 == 6 && tag % 256 == 48 {
        node := Truncate32(v.value);
      }
      next := Some(v.ptr);
    }

    // handle_unusual, for a tag that does not end the run.
    method KeepUnknown(tag: uint32, ptr: nat, ctx: ParseContext) returns (next: Option<nat>)
      requires ptr <= ctx.buf.Length
      modifies this`unknown
      ensures next.Some? ==> ptr <= next.value <= ctx.buf.Length
      ensures match ReadPayload(tag, ctx.buf[ptr..], ctx.depth)
              case Bad => next.None?
              case Got(f, rest) =>
                && next.Some? && rest == ctx.buf[next.value..]
                && Value() == old(Value()).(unknown := old(Value()).unknown + [f])
    {
      var f := ParseUnknown(ctx.buf, ptr, tag, ctx.depth);
      if f.Null? {
        return None;
      }
      unknown := unknown + [f.value];
      next := Some(f.ptr);
    }

    // Runs until the buffer ends, a tag ends it, or something is refused. Every turn
    // either leaves the loop or moves p forward, and nothing is read past the buffer.
    method InternalParse(ptr: nat, ctx: ParseContext) returns (end: Option<nat>)
      requires ptr <= ctx.buf.Length && ctx.lastTag == None
      modifies this, ctx
      ensures end.Some? ==> ptr <= end.value <= ctx.buf.Length
      ensures PtrParse(SCHEMA, ctx.buf[ptr..], old(Value()), ctx.depth) ==
              if end.None? then PtrFailure else PtrStopped(Value(), ctx.buf[end.value..], ctx.lastTag)
    {
      ghost var whole := PtrParse(SCHEMA, ctx.buf[ptr..], Value(), ctx.depth);
      var p := ptr;
      while p < ctx.buf.Length
        invariant ptr <= p <= ctx.buf.Length && ctx.lastTag == None
        invariant whole == PtrParse(SCHEMA, ctx.buf[p..], Value(), ctx.depth)
        decreases ctx.buf.Length - p
      {
        var t := ReadTagAt(ctx.buf, p);
        if t.Null? {
          return None;
        }
        var tag := t.value;
        var own := CaseOf(tag);
        Turn(ctx.buf[p..], Value(), ctx.depth);
        if own == Some(Text) {
          var next := ParseText(tag, t.ptr, ctx);
          if next.None? {
            return None;
          }
          p := next.value;
        } else if own == Some(Number) {
          var next := ParseNumber(tag, t.ptr, ctx);
          if next.None? {
            return None;
          }
          p := next.value;
        } else {
          if tag % 8 == WIRE_END_GROUP || tag == 0 {
            ctx.lastTag := Some(tag);
            return Some(t.ptr);
          }
          var next := KeepUnknown(tag, t.ptr, ctx);
          if next.None? {
            return None;
          }
          p := next.value;
        }
      }
      end := Some(p);
    }

    // The whole input at once: accepted when the parser ran to the end of the buffer.
    method ParseFromArray(buf: array<byte>, depth: nat) returns (accepted: bool)
      modifies this
      ensures accepted <==> Parse(SCHEMA, buf[..], Cleared(SCHEMA), depth).Some?
      ensures accepted ==> Value() == Parse(SCHEMA, buf[..], Cleared(SCHEMA), depth).value
    {
      Clear();
      var ctx := new ParseContext(buf, depth);
      var end := InternalParse(0, ctx);
      accepted := end.Some? && ctx.lastTag == None;
      assert buf[0..] == buf[..];
      PtrParseIsParse(SCHEMA, buf[..], Cleared(SCHEMA), depth);
    }

    // ---------- MergePartialFromCodedStream ----------

    method ReadText(tag: uint32, input: CodedInputStream) returns (ok: bool)
      requires input.Valid() && CaseOf(tag) == Some(Text)
      modifies this, input`pos
      ensures input.Valid() && input.pos >= old(input.pos)
      ensures var r := ReadOwnField(Text, tag / 8, old(input.Remaining()), old(Value()));
              if ok then r == Got(Value(), input.Remaining()) else r.Bad?
    {
      var s := input.ReadText();
      if s.None? {
        return false;
      }
      Storing(tag / 8, VText(s.value));
      if tag / 8 == 1 && tag % 256 == 10 {
        sessionid := s.value;
      } else if tag / 8 == 2 && tag % 256 == 18 {
        neid := s.value;
      } else if tag / 8 == 4 && tag % 256 == 34 {
        username := s.value;
      } else if tag / 8 == 5 && tag % 256 == 42 {
        password := s.value;
      }
      ok := Utf8.Valid(s.value);
    }

    method ReadNumber(tag: uint32, input: CodedInputStream) returns (ok: bool)
      requires input.Valid() && CaseOf(tag) == Some(Number)
      modifies this, input`pos
      ensures input.Valid() && input.pos >= old(input.pos)
      ensures var r := ReadOwnField(Number, tag / 8, old(input.Remaining()), old(Value()));
              if ok then r == Got(Value(), input.Remaining()) else r.Bad?
    {
      var v := input.ReadInt32();
      if v.None? {
        return false;
      }
      Storing(tag / 8, VInt(v.value));
      if tag / 8 == 3 && tag % 256 == 24 {
        nodeside := v.value;
      } else if tag / 8 == 6 && tag % 256 == 48 {
        node := v.value;
      }
      ok := true;
    }

    method MergePartialFromCodedStream(input: CodedInputStream) returns (ok: bool)
      requires input.Valid()
      modifies this, input
      ensures input.Valid()
      ensures StreamParse(SCHEMA, old(input.Remaining()), old(Value()), input.depth) ==
              if ok then StreamStopped(Value(), input.legitimateEnd) else StreamFailure
    {
      ghost var whole := StreamParse(SCHEMA, input.Remaining(), Value(), input.depth);
      while true
        invariant input.Valid()
        invariant whole == StreamParse(SCHEMA, input.Remaining(), Value(), input.depth)
        decreases input.buf.Length - input.pos
      {
        ghost var bs := input.Remaining();
        if ReadTag(bs).Got? {
          Turn(bs, Value(), input.depth);
        }
        var tag, known := input.ReadTagWithCutoff(TAG_CUTOFF);
        var own := CaseOf(tag);
        if known && own == Some(Text) {
          ok := ReadText(tag, input);
          if !ok {
            return;
          }
        } else if known && own == Some(Number) {
          ok := ReadNumber(tag, input);
          if !ok {
            return;
          }
        } else {
          if tag == 0 {
            return true;
          }
          var f := input.SkipField(tag);
          if f.None? {
            return false;
          }
          unknown := unknown + [f.value];
        }
      }
    }

    // The whole input at once: accepted when the stream was at its end.
    method ParseFromStream(buf: array<byte>, depth: nat) returns (accepted: bool)
      modifies this
      ensures accepted <==> Parse(SCHEMA, buf[..], Cleared(SCHEMA), depth).Some?
      ensures accepted ==> Value() == Parse(SCHEMA, buf[..], Cleared(SCHEMA), depth).value
    {
      Clear();
      var input := new CodedInputStream(buf, depth);
      var ok := MergePartialFromCodedStream(input);
      accepted := ok && input.legitimateEnd;
      assert buf[0..] == buf[..];
      StreamParseIsParse(SCHEMA, buf[..], Cleared(SCHEMA), depth);
    }

    // ---------- sizes and serializers ----------

    method ByteSizeLong() returns (total: nat)
      modifies this`cachedSize
      ensures total == |Serialize(SCHEMA, Value())| && cachedSize == ToCachedSize(total)
      ensures cachedSize == total <==> total < 0x8000_0000
    {
      SixSized(VText(sessionid), VText(neid), VInt(nodeside), VText(username), VText(password), VInt(node), unknown);
      total := 0;
      if unknown != [] {
        total := total + FieldsSize(unknown);
      }
      ghost var sum := FieldsSize(unknown);
      assert total == sum;
      if |sessionid| > 0 {
        total := total + 1 + StringSize(sessionid);
      }
      assert total == sum + ValueSize(VText(sessionid));
      sum := total;
      if |neid| > 0 {
        total := total + 1 + StringSize(neid);
      }
      assert total == sum + ValueSize(VText(neid));
      sum := total;
      if |username| > 0 {
        total := total + 1 + StringSize(username);
      }
      assert total == sum + ValueSize(VText(username));
      sum := total;
      if |password| > 0 {
        total := total + 1 + StringSize(password);
      }
      assert total == sum + ValueSize(VText(password));
      sum := total;
      if nodeside != 0 {
        total := total + 1 + Int32Size(nodeside);
      }
      assert total == sum + ValueSize(VInt(nodeside));
      sum := total;
      if node != 0 {
        total := total + 1 + Int32Size(node);
      }
      assert total == sum + ValueSize(VInt(node));
      cachedSize := ToCachedSize(total);
      CachedSizeExact(total);
    }

    method SerializeWithCachedSizes(output: CodedOutputStream)
      modifies output
      ensures output.bytes == old(output.bytes) + Serialize(SCHEMA, Value())
    {
      SixSerialized(VText(sessionid), VText(neid), VInt(nodeside), VText(username), VText(password), VInt(node),
                    unknown, output.bytes);
      output.WriteTextField(1, sessionid);
      output.WriteTextField(2, neid);
      output.WriteNumberField(3, nodeside);
      output.WriteTextField(4, username);
      output.WriteTextField(5, password);
      output.WriteNumberField(6, node);
      output.WriteUnknownFields(unknown);
    }

    // Writes the same bytes into the window of the array that starts at target, and
    // leaves the rest of the array as it was.
    method InternalSerializeWithCachedSizesToArray(buf: array<byte>, target: nat) returns (end: nat)
      requires target + |Serialize(SCHEMA, Value())| <= buf.Length
      modifies buf
      ensures end == target + |Serialize(SCHEMA, Value())|
      ensures buf[..] == Splice(old(buf[..]), target, Serialize(SCHEMA, Value()))
    {
      SixSerialized(VText(sessionid), VText(neid), VInt(nodeside), VText(username), VText(password), VInt(node),
                    unknown, []);
      assert [] + Serialize(SCHEMA, Value()) == Serialize(SCHEMA, Value());
      ghost var w := Window(buf[..], target, []);
      assert Splice(buf[..], target, []) == buf[..];
      end := WriteTextFieldToArray(1, sessionid, buf, target, w);
      w := w.Extend(FieldBytes(1, VText(sessionid)));
      end := WriteTextFieldToArray(2, neid, buf, end, w);
      w := w.Extend(FieldBytes(2, VText(neid)));
      end := WriteNumberFieldToArray(3, nodeside, buf, end, w);
      w := w.Extend(FieldBytes(3, VInt(nodeside)));
      end := WriteTextFieldToArray(4, username, buf, end, w);
      w := w.Extend(FieldBytes(4, VText(username)));
      end := WriteTextFieldToArray(5, password, buf, end, w);
      w := w.Extend(FieldBytes(5, VText(password)));
      end := WriteNumberFieldToArray(6, node, buf, end, w);
      w := w.Extend(FieldBytes(6, VInt(node)));
      end := WriteUnknownFieldsToArray(unknown, buf, end, w);
    }
  }
}
