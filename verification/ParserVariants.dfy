// The two parsers the code generator emits for every message, branch for branch,
// and the proof that both accept the same inputs and build the message of Parse.
module ParserVariants {
  import opened Wire
  import opened Fields
  import opened Grammar
  import opened Messages
  import Schemas
  import Utf8

  // The body of one `case` of the switch: the field's value is read and stored.
  function ReadOwnField(kind: Kind, num: int, bs: seq<byte>, m: Message): (r: Read<Message>)
    ensures r.Got? ==> |r.rest| < |bs| && SuffixOf(r.rest, bs)
  {
    match kind
    case Text =>
      (match ReadString(bs)
       case Bad => Bad
       case Got(t, rest) =>
         if Utf8.Valid(t) then Got(m.(vals := m.vals[num := VText(t)]), rest) else Bad)
    case Number =>
      (match ReadVarint(bs)
       case Bad => Bad
       case Got(v, rest) => Got(m.(vals := m.vals[num := VInt(Truncate32(v))]), rest))
  }

  function OwnTag(num: int, kind: Kind): int
  {
    num * 8 + if kind.Text? then WIRE_LEN else WIRE_VARINT
  }

  // switch (tag >> 3), then the comparison of the tag's low byte.
  predicate IsOwnTag(s: seq<FieldDesc>, tag: uint32)
  {
    KindOf(s, tag / 8).Some? && tag % 256 == OwnTag(tag / 8, KindOf(s, tag / 8).value)
  }

  // ---------- _InternalParse ----------

  // lastTag is what ctx->SetLastTag was given; None when the input simply ended.
  datatype PtrOutcome =
    | PtrFailure
    | PtrStopped(m: Message, rest: seq<byte>, lastTag: Option<uint32>)
  {
    predicate Accepted() { PtrStopped? && lastTag.None? }
  }

  function PtrParse(s: seq<FieldDesc>, bs: seq<byte>, m: Message, budget: nat): PtrOutcome
    decreases |bs|
  {
    if bs == [] then PtrStopped(m, bs, None)
    else
      match ReadTag(bs)
      case Bad => PtrFailure
      case Got(tag, afterTag) =>
        if IsOwnTag(s, tag) then
          match ReadOwnField(KindOf(s, tag / 8).value, tag / 8, afterTag, m)
          case Bad => PtrFailure
          case Got(m', rest) => PtrParse(s, rest, m', budget)
        else if tag % 8 == WIRE_END_GROUP || tag == 0 then PtrStopped(m, afterTag, Some(tag))
        else
          match ReadPayload(tag, afterTag, budget)
          case Bad => PtrFailure
          case Got(f, rest) => PtrParse(s, rest, m.(unknown := m.unknown + [f]), budget)
  }

  // ---------- MergePartialFromCodedStream ----------

  // legitimateEnd says whether the stream was at its end when tag 0 was returned.
  datatype StreamOutcome =
    | StreamFailure
    | StreamStopped(m: Message, legitimateEnd: bool)
  {
    predicate Accepted() { StreamStopped? && legitimateEnd }
  }

  const TAG_CUTOFF := 127

  function StreamParse(s: seq<FieldDesc>, bs: seq<byte>, m: Message, budget: nat): StreamOutcome
    decreases |bs|
  {
    if bs == [] then StreamStopped(m, true)
    else
      match ReadTag(bs)
      case Bad => StreamStopped(m, false)
      case Got(tag, afterTag) =>
        if 0 < tag <= TAG_CUTOFF && IsOwnTag(s, tag) then
          match ReadOwnField(KindOf(s, tag / 8).value, tag / 8, afterTag, m)
          case Bad => StreamFailure
          case Got(m', rest) => StreamParse(s, rest, m', budget)
        else if tag == 0 then StreamStopped(m, false)
        else
          match ReadPayload(tag, afterTag, budget)
          case Bad => StreamFailure
          case Got(f, rest) => StreamParse(s, rest, m.(unknown := m.unknown + [f]), budget)
  }

  // ---------- one turn of each loop, for the message classes ----------

  // The case of the switch a tag selects; None goes to handle_unusual.
  function OwnKind(s: seq<FieldDesc>, tag: uint32): Option<Kind>
  {
    if IsOwnTag(s, tag) then KindOf(s, tag / 8) else None
  }

  // With a well-formed tag at the front and the case `own` selected, this is what the
  // run of _InternalParse amounts to ...
  ghost predicate PtrTurn(s: seq<FieldDesc>, own: Option<Kind>, bs: seq<byte>, m: Message, budget: nat)
    requires ReadTag(bs).Got?
  {
    var tag, afterTag := ReadTag(bs).value, ReadTag(bs).rest;
    PtrParse(s, bs, m, budget) ==
    if own.Some? then
      var r := ReadOwnField(own.value, tag / 8, afterTag, m);
      if r.Bad? then PtrFailure else PtrParse(s, r.rest, r.value, budget)
    else if tag % 8 == WIRE_END_GROUP || tag == 0 then PtrStopped(m, afterTag, Some(tag))
    else
      var r := ReadPayload(tag, afterTag, budget);
      if r.Bad? then PtrFailure else PtrParse(s, r.rest, m.(unknown := m.unknown + [r.value]), budget)
  }

  // ... and the run of MergePartialFromCodedStream.
  ghost predicate StreamTurn(s: seq<FieldDesc>, own: Option<Kind>, bs: seq<byte>, m: Message, budget: nat)
    requires ReadTag(bs).Got?
  {
    var tag, afterTag := ReadTag(bs).value, ReadTag(bs).rest;
    StreamParse(s, bs, m, budget) ==
    if 0 < tag <= TAG_CUTOFF && own.Some? then
      var r := ReadOwnField(own.value, tag / 8, afterTag, m);
      if r.Bad? then StreamFailure else StreamParse(s, r.rest, r.value, budget)
    else if tag == 0 then StreamStopped(m, false)
    else
      var r := ReadPayload(tag, afterTag, budget);
      if r.Bad? then StreamFailure else StreamParse(s, r.rest, m.(unknown := m.unknown + [r.value]), budget)
  }

  lemma Turns(s: seq<FieldDesc>, bs: seq<byte>, m: Message, budget: nat)
    requires ReadTag(bs).Got?
    ensures PtrTurn(s, OwnKind(s, ReadTag(bs).value), bs, m, budget)
    ensures StreamTurn(s, OwnKind(s, ReadTag(bs).value), bs, m, budget)
  {
  }

  // ---------- agreement ----------

  function WireTypeOf(kind: Kind): int
  {
    if kind.Text? then WIRE_LEN else WIRE_VARINT
  }

  // Comparing one byte of the tag is enough, and own tags are below the cutoff.
  lemma OwnTagIsExact(s: Schema, tag: uint32)
    ensures IsOwnTag(s, tag) <==>
            KindOf(s, tag / 8).Some? && tag % 8 == WireTypeOf(KindOf(s, tag / 8).value)
    ensures IsOwnTag(s, tag) ==> 0 < tag <= 127 == TAG_CUTOFF
  {
    if KindOf(s, tag / 8).Some? {
      assert tag / 8 in Nums(s);
      var d :| d in s && d.num == tag / 8;
      assert tag < 128;
    }
  }

  // A whole record, read and then handed to Step.
  ghost function Committed(s: seq<FieldDesc>, m: Message, r: Read<Field>): Read<Message>
  {
    if r.Bad? || Step(s, m, r.value).None? then Bad else Got(Step(s, m, r.value).value, r.rest)
  }

  // The case of the switch does to the message what Step does with the whole record.
  lemma {:induction false} OwnFieldIsStep(s: Schema, tag: uint32, afterTag: seq<byte>, m: Message, budget: nat)
    requires IsOwnTag(s, tag)
    ensures ReadOwnField(KindOf(s, tag / 8).value, tag / 8, afterTag, m) ==
            Committed(s, m, ReadPayload(tag, afterTag, budget))
  {
    OwnTagIsExact(s, tag);
  }

  lemma OtherFieldIsKept(s: Schema, tag: uint32, afterTag: seq<byte>, m: Message, budget: nat)
    requires !IsOwnTag(s, tag) && ReadPayload(tag, afterTag, budget).Got?
    ensures var f := ReadPayload(tag, afterTag, budget).value;
            Step(s, m, f) == Some(m.(unknown := m.unknown + [f]))
  {
    OwnTagIsExact(s, tag);
  }

  // Parse, one record at a time.
  lemma ParseUnfold(s: seq<FieldDesc>, bs: seq<byte>, m: Message, budget: nat)
    requires bs != []
    ensures var r := Committed(s, m, ReadField(bs, budget));
            Parse(s, bs, m, budget) == if r.Bad? then None else Parse(s, r.rest, r.value, budget)
  {
    var r := ReadField(bs, budget);
    if r.Got? && ReadFields(r.rest, budget).Some? {
      assert ([r.value] + ReadFields(r.rest, budget).value)[1..] == ReadFields(r.rest, budget).value;
    }
  }

  // Each parser, one record at a time: a good record is committed, anything else
  // ends the run short of acceptance.
  lemma {:induction false} CommitOwn(s: Schema, bs: seq<byte>, m: Message, budget: nat)
    requires ReadTag(bs).Got? && IsOwnTag(s, ReadTag(bs).value)
    ensures var tag, afterTag := ReadTag(bs).value, ReadTag(bs).rest;
            ReadOwnField(KindOf(s, tag / 8).value, tag / 8, afterTag, m) == Committed(s, m, ReadField(bs, budget))
  {
    OwnFieldIsStep(s, ReadTag(bs).value, ReadTag(bs).rest, m, budget);
  }

  lemma CommitOther(s: Schema, bs: seq<byte>, m: Message, budget: nat)
    requires ReadTag(bs).Got? && !IsOwnTag(s, ReadTag(bs).value)
    ensures var r := ReadPayload(ReadTag(bs).value, ReadTag(bs).rest, budget);
            Committed(s, m, ReadField(bs, budget)) ==
            if r.Bad? then Bad else Got(m.(unknown := m.unknown + [r.value]), r.rest)
  {
    if ReadPayload(ReadTag(bs).value, ReadTag(bs).rest, budget).Got? {
      OtherFieldIsKept(s, ReadTag(bs).value, ReadTag(bs).rest, m, budget);
    }
  }

  // PtrParse on a whole record r, read and committed.
  ghost predicate PtrParseFollows(s: seq<FieldDesc>, bs: seq<byte>, m: Message, budget: nat, r: Read<Message>)
  {
    if r.Bad? then !PtrParse(s, bs, m, budget).Accepted()
    else PtrParse(s, bs, m, budget) == PtrParse(s, r.rest, r.value, budget)
  }

  lemma PtrParseFollowsOwn(s: Schema, bs: seq<byte>, m: Message, budget: nat)
    requires ReadTag(bs).Got? && IsOwnTag(s, ReadTag(bs).value)
    ensures PtrParseFollows(s, bs, m, budget, Committed(s, m, ReadField(bs, budget)))
  {
    CommitOwn(s, bs, m, budget);
  }

  lemma PtrParseFollowsOther(s: Schema, bs: seq<byte>, m: Message, budget: nat)
    requires ReadTag(bs).Got? && !IsOwnTag(s, ReadTag(bs).value)
    ensures PtrParseFollows(s, bs, m, budget, Committed(s, m, ReadField(bs, budget)))
  {
    CommitOther(s, bs, m, budget);
  }

  lemma PtrParseUnfold(s: Schema, bs: seq<byte>, m: Message, budget: nat)
    requires bs != []
    ensures PtrParseFollows(s, bs, m, budget, Committed(s, m, ReadField(bs, budget)))
  {
    if ReadTag(bs).Got? {
      if IsOwnTag(s, ReadTag(bs).value) {
        PtrParseFollowsOwn(s, bs, m, budget);
      } else {
        PtrParseFollowsOther(s, bs, m, budget);
      }
    }
  }

  // StreamParse on a whole record r, read and committed.
  ghost predicate StreamParseFollows(s: seq<FieldDesc>, bs: seq<byte>, m: Message, budget: nat, r: Read<Message>)
  {
    if r.Bad? then !StreamParse(s, bs, m, budget).Accepted()
    else StreamParse(s, bs, m, budget) == StreamParse(s, r.rest, r.value, budget)
  }

  lemma StreamParseFollowsOwn(s: Schema, bs: seq<byte>, m: Message, budget: nat)
    requires ReadTag(bs).Got? && IsOwnTag(s, ReadTag(bs).value)
    ensures StreamParseFollows(s, bs, m, budget, Committed(s, m, ReadField(bs, budget)))
  {
    OwnTagIsExact(s, ReadTag(bs).value);
    CommitOwn(s, bs, m, budget);
  }

  lemma StreamParseFollowsOther(s: Schema, bs: seq<byte>, m: Message, budget: nat)
    requires ReadTag(bs).Got? && !IsOwnTag(s, ReadTag(bs).value)
    ensures StreamParseFollows(s, bs, m, budget, Committed(s, m, ReadField(bs, budget)))
  {
    CommitOther(s, bs, m, budget);
  }

  lemma StreamParseUnfold(s: Schema, bs: seq<byte>, m: Message, budget: nat)
    requires bs != []
    ensures StreamParseFollows(s, bs, m, budget, Committed(s, m, ReadField(bs, budget)))
  {
    if ReadTag(bs).Got? {
      if IsOwnTag(s, ReadTag(bs).value) {
        StreamParseFollowsOwn(s, bs, m, budget);
      } else {
        StreamParseFollowsOther(s, bs, m, budget);
      }
    }
  }

  lemma {:induction false} PtrParseIsParse(s: Schema, bs: seq<byte>, m: Message, budget: nat)
    ensures PtrParse(s, bs, m, budget).Accepted() <==> Parse(s, bs, m, budget).Some?
    ensures PtrParse(s, bs, m, budget).Accepted() ==>
              PtrParse(s, bs, m, budget).m == Parse(s, bs, m, budget).value
    decreases |bs|
  {
    if bs != [] {
      PtrParseUnfold(s, bs, m, budget);
      ParseUnfold(s, bs, m, budget);
      var r := Committed(s, m, ReadField(bs, budget));
      if r.Got? {
        PtrParseIsParse(s, r.rest, r.value, budget);
      }
    }
  }

  lemma {:induction false} StreamParseIsParse(s: Schema, bs: seq<byte>, m: Message, budget: nat)
    ensures StreamParse(s, bs, m, budget).Accepted() <==> Parse(s, bs, m, budget).Some?
    ensures StreamParse(s, bs, m, budget).Accepted() ==>
              StreamParse(s, bs, m, budget).m == Parse(s, bs, m, budget).value
    decreases |bs|
  {
    if bs != [] {
      StreamParseUnfold(s, bs, m, budget);
      ParseUnfold(s, bs, m, budget);
      var r := Committed(s, m, ReadField(bs, budget));
      if r.Got? {
        StreamParseIsParse(s, r.rest, r.value, budget);
      }
    }
  }

  lemma {:induction false} VariantsAgree(s: Schema, bs: seq<byte>, m: Message, budget: nat)
    ensures PtrParse(s, bs, m, budget).Accepted() <==> StreamParse(s, bs, m, budget).Accepted()
    ensures PtrParse(s, bs, m, budget).Accepted() ==> PtrParse(s, bs, m, budget).m == StreamParse(s, bs, m, budget).m
  {
    PtrParseIsParse(s, bs, m, budget);
    StreamParseIsParse(s, bs, m, budget);
  }

  lemma {:induction false} EndGroupStops(s: Schema, num: FieldNumber, y: seq<byte>, m: Message, budget: nat)
    ensures var bs := EncodeTag(num, WIRE_END_GROUP) + y;
            && PtrParse(s, bs, m, budget) == PtrStopped(m, y, Some(MakeTag(num, WIRE_END_GROUP)))
            && StreamParse(s, bs, m, budget) == StreamFailure
  {
    var tag := MakeTag(num, WIRE_END_GROUP);
    TagRoundTrip(tag, y);
    OwnTagIsExact(s, tag);
    assert ReadPayload(tag, y, budget).Bad?;
  }

  // The exits do differ: after accepted records, a stray end-group tag makes the first
  // parser stop and remember the tag, and the second one fail. Neither is acceptance.
  lemma {:induction false} EndGroupExits(s: Schema, x: seq<byte>, num: FieldNumber, y: seq<byte>, m: Message,
                                         budget: nat)
    requires Parse(s, x, m, budget).Some?
    ensures PtrParse(s, x + (EncodeTag(num, WIRE_END_GROUP) + y), m, budget) ==
            PtrStopped(Parse(s, x, m, budget).value, y, Some(MakeTag(num, WIRE_END_GROUP)))
    ensures StreamParse(s, x + (EncodeTag(num, WIRE_END_GROUP) + y), m, budget) == StreamFailure
    decreases |x|
  {
    var tail := EncodeTag(num, WIRE_END_GROUP) + y;
    if x == [] {
      assert x + tail == tail;
      EndGroupStops(s, num, y, m, budget);
    } else {
      ParseUnfold(s, x, m, budget);
      ReadFieldLocal(x, budget, tail);
      PtrParseUnfold(s, x + tail, m, budget);
      StreamParseUnfold(s, x + tail, m, budget);
      var r := Committed(s, m, ReadField(x, budget));
      EndGroupExits(s, r.rest, num, y, r.value, budget);
    }
  }

  // After accepted records, each parser goes on with the rest from the message they gave.
  lemma {:induction false} AcceptedPrefix(s: Schema, x: seq<byte>, y: seq<byte>, m: Message, budget: nat)
    requires Parse(s, x, m, budget).Some?
    ensures PtrParse(s, x + y, m, budget) == PtrParse(s, y, Parse(s, x, m, budget).value, budget)
    ensures StreamParse(s, x + y, m, budget) == StreamParse(s, y, Parse(s, x, m, budget).value, budget)
    decreases |x|
  {
    if x == [] {
      assert x + y == y;
    } else {
      ParseUnfold(s, x, m, budget);
      ReadFieldLocal(x, budget, y);
      PtrParseUnfold(s, x + y, m, budget);
      StreamParseUnfold(s, x + y, m, budget);
      var r := Committed(s, m, ReadField(x, budget));
      AcceptedPrefix(s, r.rest, y, r.value, budget);
    }
  }

  // The tags, in numbers, on which _InternalParse stops where (tag & 7) == 4 or tag == 0 ...
  lemma {:induction false} PtrStops(s: Schema, bs: seq<byte>, m: Message, budget: nat)
    requires ReadTag(bs).Got?
    ensures ReadTag(bs).value % 8 == 4 || ReadTag(bs).value == 0 ==>
              PtrParse(s, bs, m, budget) == PtrStopped(m, ReadTag(bs).rest, Some(ReadTag(bs).value))
  {
    OwnTagIsExact(s, ReadTag(bs).value);
  }

  // ... and what MergePartialFromCodedStream makes of them, and both of a malformed tag.
  lemma {:induction false} OtherStops(s: Schema, bs: seq<byte>, m: Message, budget: nat)
    requires bs != []
    ensures ReadTag(bs).Bad? ==>
              PtrParse(s, bs, m, budget) == PtrFailure && StreamParse(s, bs, m, budget) == StreamStopped(m, false)
    ensures ReadTag(bs).Got? && ReadTag(bs).value == 0 ==> StreamParse(s, bs, m, budget) == StreamStopped(m, false)
    ensures ReadTag(bs).Got? && ReadTag(bs).value % 8 == 4 ==> StreamParse(s, bs, m, budget) == StreamFailure
    ensures PtrParse(s, [], m, budget) == PtrStopped(m, [], None)
    ensures StreamParse(s, [], m, budget) == StreamStopped(m, true)
  {
    if ReadTag(bs).Got? {
      OwnTagIsExact(s, ReadTag(bs).value);
    }
  }

  // The wire types 4, 6 and 7, the field number 0, and nothing else about the tag, make an
  // unknown record bad.
  lemma BadTags(tag: uint32, bs: seq<byte>, budget: nat)
    requires tag < 8 || tag % 8 == 4 || tag % 8 == 6 || tag % 8 == 7
    ensures ReadPayload(tag, bs, budget).Bad?
  {
  }

  // The tags with which each of the nine messages reads a field of its own.
  lemma {:induction false} OwnTags(tag: uint32)
    ensures IsOwnTag(Schemas.SESSION_REQUEST, tag) <==> tag in [10, 18]
    ensures IsOwnTag(Schemas.SESSION_RESPONSE, tag) <==> tag in [10]
    ensures IsOwnTag(Schemas.CONNECT_REQUEST, tag) <==> tag in [10, 18, 24, 34, 42, 48]
    ensures IsOwnTag(Schemas.COMMAND_REQUEST, tag) <==> tag in [10, 18, 26, 34]
    ensures IsOwnTag(Schemas.COMMAND_RESPONSE, tag) <==> tag in [10]
    ensures IsOwnTag(Schemas.STREAM_MESSAGE, tag) <==> tag in [10, 16, 26]
    ensures IsOwnTag(Schemas.TERMINAL_ACTION_REQUEST, tag) <==> tag in [10, 16]
    ensures IsOwnTag(Schemas.GENERIC_REQUEST, tag) <==> tag in [10]
    ensures IsOwnTag(Schemas.GENERIC_RESPONSE, tag) <==> tag in [8]
  {
    SchemaTags();
    OwnTagsOf(Schemas.SESSION_REQUEST, tag, [10, 18]);
    OwnTagsOf(Schemas.SESSION_RESPONSE, tag, [10]);
    OwnTagsOf(Schemas.CONNECT_REQUEST, tag, [10, 18, 24, 34, 42, 48]);
    OwnTagsOf(Schemas.COMMAND_REQUEST, tag, [10, 18, 26, 34]);
    OwnTagsOf(Schemas.COMMAND_RESPONSE, tag, [10]);
    OwnTagsOf(Schemas.STREAM_MESSAGE, tag, [10, 16, 26]);
    OwnTagsOf(Schemas.TERMINAL_ACTION_REQUEST, tag, [10, 16]);
    OwnTagsOf(Schemas.GENERIC_REQUEST, tag, [10]);
    OwnTagsOf(Schemas.GENERIC_RESPONSE, tag, [8]);
  }

  lemma SchemaTags()
    ensures HasTags(Schemas.SESSION_REQUEST, [10, 18]) && HasTags(Schemas.SESSION_RESPONSE, [10])
    ensures HasTags(Schemas.CONNECT_REQUEST, [10, 18, 24, 34, 42, 48])
    ensures HasTags(Schemas.COMMAND_REQUEST, [10, 18, 26, 34]) && HasTags(Schemas.COMMAND_RESPONSE, [10])
    ensures HasTags(Schemas.STREAM_MESSAGE, [10, 16, 26]) && HasTags(Schemas.TERMINAL_ACTION_REQUEST, [10, 16])
    ensures HasTags(Schemas.GENERIC_REQUEST, [10]) && HasTags(Schemas.GENERIC_RESPONSE, [8])
  {
  }

  ghost predicate HasTags(s: Schema, tags: seq<int>)
  {
    |tags| == |s| && forall i | 0 <= i < |s| :: tags[i] == OwnTag(s[i].num, s[i].kind)
  }

  lemma {:induction false} OwnTagsOf(s: Schema, tag: uint32, tags: seq<int>)
    requires HasTags(s, tags)
    ensures IsOwnTag(s, tag) <==> tag in tags
  {
    OwnTagIsExact(s, tag);
    forall i | 0 <= i < |s| ensures KindOf(s, s[i].num) == Some(s[i].kind) {
      KindOfMember(s, s[i]);
    }
    if KindOf(s, tag / 8).Some? {
      var d :| d in s && d.num == tag / 8;
      var i :| 0 <= i < |s| && s[i] == d;
    }
  }
}
