// The meaning of the generated message code, once for all nine messages: a message
// is described by its schema, parsing is a fold over the records of the input, and
// serializing writes the fields that are not at their default, then the unknown ones.
module Messages {
  import opened Wire
  import opened Fields
  import Utf8

  // int32 fields and (open) enum fields travel the same way.
  datatype Kind = Text | Number

  datatype FieldDesc = FieldDesc(num: FieldNumber, kind: Kind)

  datatype Value = VText(s: Blob) | VInt(i: int32)

  datatype Message = Message(vals: map<int, Value>, unknown: seq<Field>)

  predicate ValidSchema(s: seq<FieldDesc>)
  {
    && (forall i | 0 <= i < |s| :: s[i].num <= 15)
    && (forall i, j | 0 <= i < j < |s| :: s[i].num < s[j].num)
  }

  // Field numbers up to 15, in increasing order: every tag is one byte.
  type Schema = s: seq<FieldDesc> | ValidSchema(s) witness []

  function KindOf(s: seq<FieldDesc>, n: int): (k: Option<Kind>)
    ensures k.Some? <==> n in Nums(s)
  {
    if s == [] then None
    else if s[0].num == n then Some(s[0].kind)
    else KindOf(s[1..], n)
  }

  function Nums(s: seq<FieldDesc>): set<int>
  {
    set d | d in s :: d.num
  }

  lemma {:induction false} KindOfMember(s: Schema, d: FieldDesc)
    requires d in s
    ensures KindOf(s, d.num) == Some(d.kind)
  {
    if s[0] != d {
      KindOfMember(s[1..], d);
    }
  }

  predicate HasKind(v: Value, k: Kind)
  {
    if k.Text? then v.VText? else v.VInt?
  }

  ghost predicate WellTyped(s: Schema, m: Message)
  {
    && m.vals.Keys == Nums(s)
    && forall n | n in m.vals :: HasKind(m.vals[n], KindOf(s, n).value)
  }

  predicate IsDefault(v: Value)
  {
    v == VText([]) || v == VInt(0)
  }

  function DefaultOf(k: Kind): Value
  {
    if k.Text? then VText([]) else VInt(0)
  }

  // A message after Clear().
  function Cleared(s: Schema): Message
  {
    Message(map n | n in Nums(s) :: DefaultOf(KindOf(s, n).value), [])
  }

  // ---------- parsing ----------

  // The record is one of the message's own fields, with the wire type of its kind.
  predicate Recognises(s: seq<FieldDesc>, f: Field)
  {
    match KindOf(s, f.num)
    case None => false
    case Some(Text) => f.Len?
    case Some(Number) => f.Varint?
  }

  function ValueOf(f: Field): Value
    requires f.Len? || f.Varint?
  {
    if f.Len? then VText(f.data) else VInt(Truncate32(f.v))
  }

  // String fields must be UTF-8; nothing is asked of other records.
  predicate Admissible(s: seq<FieldDesc>, f: Field)
  {
    Recognises(s, f) && f.Len? ==> Utf8.Valid(f.data)
  }

  // One record: set its field, or refuse it, or keep it as unknown.
  function Step(s: seq<FieldDesc>, m: Message, f: Field): Option<Message>
  {
    if !Recognises(s, f) then Some(m.(unknown := m.unknown + [f]))
    else if !Admissible(s, f) then None
    else Some(m.(vals := m.vals[f.num := ValueOf(f)]))
  }

  function StepAll(s: seq<FieldDesc>, m: Message, fs: seq<Field>): Option<Message>
    decreases |fs|
  {
    if fs == [] then Some(m)
    else
      match Step(s, m, fs[0])
      case None => None
      case Some(m') => StepAll(s, m', fs[1..])
  }

  // Parsing `bs` into a message that already holds `m`; None when it is refused.
  function Parse(s: seq<FieldDesc>, bs: seq<byte>, m: Message, budget: nat): Option<Message>
  {
    match ReadFields(bs, budget)
    case None => None
    case Some(fs) => StepAll(s, m, fs)
  }

  // ---------- serializing ----------

  function FieldOf(num: FieldNumber, v: Value): Field
  {
    match v
    case VText(t) => Len(num, t)
    case VInt(i) => Varint(num, SignExtend(i))
  }

  // A field at its default is not written at all.
  function FieldsOf(num: FieldNumber, v: Value): seq<Field>
  {
    if IsDefault(v) then [] else [FieldOf(num, v)]
  }

  // The bytes of one field: none when it is at its default.
  function FieldBytes(num: FieldNumber, v: Value): seq<byte>
  {
    if IsDefault(v) then [] else EncodeField(FieldOf(num, v))
  }

  function Get(vals: map<int, Value>, n: int): Value
  {
    if n in vals then vals[n] else VText([])
  }

  function KnownFields(s: seq<FieldDesc>, vals: map<int, Value>): seq<Field>
  {
    if s == [] then []
    else FieldsOf(s[0].num, Get(vals, s[0].num)) + KnownFields(s[1..], vals)
  }

  function ToFields(s: seq<FieldDesc>, m: Message): seq<Field>
  {
    KnownFields(s, m.vals) + m.unknown
  }

  function Serialize(s: seq<FieldDesc>, m: Message): seq<byte>
  {
    EncodeFields(ToFields(s, m))
  }

  // ---------- merging ----------

  // The value of one field after a merge: the source's, unless that is its default.
  function Pick(a: Value, b: Value): Value
  {
    if IsDefault(b) then a else b
  }

  function MergeVals(a: map<int, Value>, b: map<int, Value>): map<int, Value>
  {
    map n | n in a :: if n in b then Pick(a[n], b[n]) else a[n]
  }

  function Merge(a: Message, b: Message): Message
  {
    Message(MergeVals(a.vals, b.vals), a.unknown + b.unknown)
  }

  lemma MergeValsAssociative(a: map<int, Value>, b: map<int, Value>, c: map<int, Value>)
    requires a.Keys == b.Keys == c.Keys
    ensures MergeVals(MergeVals(a, b), c) == MergeVals(a, MergeVals(b, c))
  {
    forall n | n in a
      ensures Pick(Pick(a[n], b[n]), c[n]) == Pick(a[n], Pick(b[n], c[n]))
    {
    }
    var left, right := MergeVals(MergeVals(a, b), c), MergeVals(a, MergeVals(b, c));
    assert forall n | n in a :: left[n] == Pick(Pick(a[n], b[n]), c[n]);
    assert forall n | n in a :: right[n] == Pick(a[n], Pick(b[n], c[n]));
  }

  lemma {:induction false} MergeAssociative(s: Schema, a: Message, b: Message, c: Message)
    requires WellTyped(s, a) && WellTyped(s, b) && WellTyped(s, c)
    ensures Merge(Merge(a, b), c) == Merge(a, Merge(b, c))
  {
    MergeValsAssociative(a.vals, b.vals, c.vals);
    Associative(a.unknown, b.unknown, c.unknown);
  }

  lemma {:induction false} MergeIdentity(s: Schema, m: Message)
    requires WellTyped(s, m)
    ensures Merge(Cleared(s), m) == m && Merge(m, Cleared(s)) == m
  {
    assert [] + m.unknown == m.unknown;
    MergeDefaults(s, m);
  }

  lemma MergeDefaults(s: Schema, m: Message)
    requires WellTyped(s, m)
    ensures MergeVals(Cleared(s).vals, m.vals) == m.vals == MergeVals(m.vals, Cleared(s).vals)
  {
    var none := Cleared(s).vals;
    forall n | n in m.vals
      ensures n in none && Pick(none[n], m.vals[n]) == m.vals[n] == Pick(m.vals[n], none[n])
    {
      assert HasKind(m.vals[n], KindOf(s, n).value);
    }
  }

  // ---------- what a sequence of records does ----------

  predicate AllAdmissible(s: seq<FieldDesc>, fs: seq<Field>)
  {
    forall f | f in fs :: Admissible(s, f)
  }

  function Unrecognised(s: seq<FieldDesc>, fs: seq<Field>): seq<Field>
  {
    if fs == [] then []
    else (if Recognises(s, fs[0]) then [] else [fs[0]]) + Unrecognised(s, fs[1..])
  }

  predicate Carries(s: seq<FieldDesc>, f: Field, n: int)
  {
    f.num == n && Recognises(s, f)
  }

  // Record i is the last one that carries field n.
  ghost predicate LastCarrier(s: seq<FieldDesc>, fs: seq<Field>, n: int, i: int)
  {
    && 0 <= i < |fs| && Carries(s, fs[i], n)
    && forall j | i < j < |fs| :: !Carries(s, fs[j], n)
  }

  lemma {:induction false} StepAllAccepts(s: seq<FieldDesc>, m: Message, fs: seq<Field>)
    ensures StepAll(s, m, fs).Some? <==> AllAdmissible(s, fs)
    decreases |fs|
  {
    if fs != [] {
      assert fs == [fs[0]] + fs[1..];
      if Step(s, m, fs[0]).Some? {
        StepAllAccepts(s, Step(s, m, fs[0]).value, fs[1..]);
      }
    }
  }

  // Known numbers with the wrong wire type and unlisted numbers are all kept, in
  // order of arrival; the set of fields never changes.
  lemma {:induction false} UnknownFieldsAreKept(s: seq<FieldDesc>, m: Message, fs: seq<Field>)
    requires StepAll(s, m, fs).Some?
    requires Nums(s) <= m.vals.Keys
    ensures StepAll(s, m, fs).value.unknown == m.unknown + Unrecognised(s, fs)
    ensures StepAll(s, m, fs).value.vals.Keys == m.vals.Keys
    decreases |fs|
  {
    if fs != [] {
      var m' := Step(s, m, fs[0]).value;
      UnknownFieldsAreKept(s, m', fs[1..]);
      if !Recognises(s, fs[0]) {
        Associative(m.unknown, [fs[0]], Unrecognised(s, fs[1..]));
      }
    }
  }

  // Last one wins: a field holds what its last carrier says, or what it held before.
  lemma {:induction false} LastOneWins(s: seq<FieldDesc>, m: Message, fs: seq<Field>, n: int)
    requires StepAll(s, m, fs).Some?
    requires n in m.vals
    ensures n in StepAll(s, m, fs).value.vals
    ensures forall i | LastCarrier(s, fs, n, i) :: StepAll(s, m, fs).value.vals[n] == ValueOf(fs[i])
    ensures (forall f | f in fs :: !Carries(s, f, n)) ==> StepAll(s, m, fs).value.vals[n] == m.vals[n]
    decreases |fs|
  {
    if fs != [] {
      var m', t := Step(s, m, fs[0]).value, fs[1..];
      LastOneWins(s, m', t, n);
      forall i | LastCarrier(s, fs, n, i)
        ensures StepAll(s, m, fs).value.vals[n] == ValueOf(fs[i])
      {
        if i > 0 {
          assert LastCarrier(s, t, n, i - 1);
        } else {
          assert forall f | f in t :: !Carries(s, f, n);
        }
      }
      if forall f | f in fs :: !Carries(s, f, n) {
        assert fs[0] in fs && forall f | f in t :: f in fs;
      }
    }
  }

  lemma {:induction false} StepAllOfConcat(s: seq<FieldDesc>, m: Message, a: seq<Field>, b: seq<Field>)
    ensures StepAll(s, m, a + b) ==
            match StepAll(s, m, a)
            case None => None
            case Some(m') => StepAll(s, m', b)
    decreases |a|
  {
    if a == [] {
      assert a + b == b;
    } else {
      assert (a + b)[1..] == a[1..] + b;
      if Step(s, m, a[0]).Some? {
        StepAllOfConcat(s, Step(s, m, a[0]).value, a[1..], b);
      }
    }
  }
}
