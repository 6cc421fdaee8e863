// The laws of the codec, for every schema, every input and every message:
// concatenation is merge, round trip, normalisation, order insensitivity,
// survival of unknown fields, and exact sizes.
module CodecLaws {
  import opened Wire
  import opened Fields
  import opened Grammar
  import opened Messages
  import Schemas
  import Utf8

  ghost predicate TextsValid(s: seq<FieldDesc>, vals: map<int, Value>)
  {
    forall n | n in Nums(s) && n in vals :: TextValid(vals[n])
  }

  ghost predicate NoneRecognised(s: seq<FieldDesc>, fs: seq<Field>)
  {
    forall f | f in fs :: !Recognises(s, f)
  }

  // A message that parsing can produce.
  ghost predicate WellFormed(s: Schema, m: Message, budget: nat)
  {
    && WellTyped(s, m)
    && TextsValid(s, m.vals)
    && NoneRecognised(s, m.unknown)
    && AllFit(m.unknown, budget)
  }

  // ---------- the records of a serialized message ----------

  // `b` written over `a` for the fields of `sub`.
  ghost function Overlay(sub: seq<FieldDesc>, a: map<int, Value>, b: map<int, Value>): map<int, Value>
  {
    map n | n in a :: if n in Nums(sub) && n in b && !IsDefault(b[n]) then b[n] else a[n]
  }

  predicate TextValid(v: Value)
  {
    v.VText? ==> Utf8.Valid(v.s)
  }

  // Writing one field and reading it back sets it, unless it was at its default.
  ghost function Assign(vals: map<int, Value>, n: int, v: Value): map<int, Value>
  {
    if IsDefault(v) then vals else vals[n := v]
  }

  lemma StepOwnField(s: Schema, d: FieldDesc, m: Message, v: Value)
    requires d in s && HasKind(v, d.kind)
    ensures StepAll(s, m, FieldsOf(d.num, v)) ==
            if TextValid(v) then Some(m.(vals := Assign(m.vals, d.num, v))) else None
  {
    StepOneOrNone(s, m, FieldsOf(d.num, v));
    if !IsDefault(v) {
      FieldOfCarries(s, d, v);
    }
  }

  lemma FieldOfCarries(s: Schema, d: FieldDesc, v: Value)
    requires d in s && HasKind(v, d.kind)
    ensures Recognises(s, FieldOf(d.num, v)) && FieldOf(d.num, v).num == d.num
    ensures ValueOf(FieldOf(d.num, v)) == v
    ensures Admissible(s, FieldOf(d.num, v)) <==> TextValid(v)
  {
    KindOfMember(s, d);
  }

  lemma OverlayFirst(sub: seq<FieldDesc>, a: map<int, Value>, b: map<int, Value>)
    requires sub != [] && sub[0].num in a && sub[0].num in b
    ensures Overlay(sub[1..], Assign(a, sub[0].num, b[sub[0].num]), b) == Overlay(sub, a, b)
  {
    NumsFirst(sub);
  }

  lemma NumsFirst(sub: seq<FieldDesc>)
    requires sub != []
    ensures Nums(sub) == {sub[0].num} + Nums(sub[1..])
  {
    assert sub == [sub[0]] + sub[1..];
  }

  lemma TextsValidFirst(sub: seq<FieldDesc>, vals: map<int, Value>)
    requires sub != [] && sub[0].num in vals
    ensures TextsValid(sub, vals) <==> TextValid(vals[sub[0].num]) && TextsValid(sub[1..], vals)
  {
    NumsFirst(sub);
  }

  lemma {:induction false} StepKnownFields(s: Schema, sub: seq<FieldDesc>, m: Message, vals: map<int, Value>)
    requires forall d | d in sub :: d in s && d.num in vals && d.num in m.vals && HasKind(vals[d.num], d.kind)
    ensures StepAll(s, m, KnownFields(sub, vals)) ==
            if TextsValid(sub, vals) then Some(m.(vals := Overlay(sub, m.vals, vals))) else None
    decreases |sub|
  {
    if sub == [] {
      assert Nums(sub) == {};
      assert Overlay(sub, m.vals, vals) == m.vals;
    } else {
      var d, t := sub[0], sub[1..];
      var v := vals[d.num];
      assert d in sub && forall d' | d' in t :: d' in sub;
      StepOwnField(s, d, m, v);
      StepAllOfConcat(s, m, FieldsOf(d.num, v), KnownFields(t, vals));
      TextsValidFirst(sub, vals);
      OverlayFirst(sub, m.vals, vals);
      StepKnownFields(s, t, m.(vals := Assign(m.vals, d.num, v)), vals);
    }
  }

  lemma StepOneOrNone(s: seq<FieldDesc>, m: Message, fs: seq<Field>)
    requires |fs| <= 1
    ensures StepAll(s, m, fs) == if fs == [] then Some(m) else Step(s, m, fs[0])
  {
    if fs != [] {
      assert fs[1..] == [];
    }
  }

  lemma {:induction false} StepUnrecognised(s: seq<FieldDesc>, m: Message, fs: seq<Field>)
    requires NoneRecognised(s, fs)
    ensures StepAll(s, m, fs) == Some(m.(unknown := m.unknown + fs))
    decreases |fs|
  {
    if fs == [] {
      assert m.unknown + [] == m.unknown;
    } else {
      StepUnrecognised(s, m.(unknown := m.unknown + [fs[0]]), fs[1..]);
      Associative(m.unknown, [fs[0]], fs[1..]);
      assert [fs[0]] + fs[1..] == fs;
    }
  }

  lemma OverlayAll(s: Schema, a: map<int, Value>, b: map<int, Value>)
    requires a.Keys == Nums(s) == b.Keys
    ensures Overlay(s, a, b) == MergeVals(a, b)
  {
  }

  // The records a message is written as, applied to another message, merge the two.
  lemma StepToFields(s: Schema, a: Message, b: Message)
    requires WellTyped(s, a) && WellTyped(s, b) && NoneRecognised(s, b.unknown)
    ensures StepAll(s, a, ToFields(s, b)) == if TextsValid(s, b.vals) then Some(Merge(a, b)) else None
  {
    forall d | d in s ensures HasKind(b.vals[d.num], d.kind) {
      KindOfMember(s, d);
    }
    StepKnownFields(s, s, a, b.vals);
    StepAllOfConcat(s, a, KnownFields(s, b.vals), b.unknown);
    OverlayAll(s, a.vals, b.vals);
    StepUnrecognised(s, a.(vals := MergeVals(a.vals, b.vals)), b.unknown);
  }

  lemma {:induction false} KnownFieldsFit(s: seq<FieldDesc>, vals: map<int, Value>, budget: nat)
    ensures AllFit(KnownFields(s, vals), budget)
    decreases |s|
  {
    if s != [] {
      KnownFieldsFit(s[1..], vals, budget);
      AllFitOfConcat(FieldsOf(s[0].num, Get(vals, s[0].num)), KnownFields(s[1..], vals), budget);
    }
  }

  lemma ToFieldsFit(s: seq<FieldDesc>, m: Message, budget: nat)
    ensures AllFit(ToFields(s, m), budget) <==> AllFit(m.unknown, budget)
  {
    KnownFieldsFit(s, m.vals, budget);
    AllFitOfConcat(KnownFields(s, m.vals), m.unknown, budget);
  }

  // ---------- concatenation is merge ----------

  // Accepted bytes followed by more bytes: the second part is parsed into the
  // message the first part gave.
  lemma ParseOfConcat(s: seq<FieldDesc>, x: seq<byte>, y: seq<byte>, m: Message, budget: nat)
    requires Parse(s, x, m, budget).Some?
    ensures Parse(s, x + y, m, budget) == Parse(s, y, Parse(s, x, m, budget).value, budget)
  {
    ReadFieldsOfConcat(x, y, budget);
    if ReadFields(y, budget).Some? {
      StepAllOfConcat(s, m, ReadFields(x, budget).value, ReadFields(y, budget).value);
    }
  }

  lemma {:induction false} ParseKeepsTyping(s: Schema, bs: seq<byte>, m: Message, budget: nat)
    requires WellTyped(s, m) && Parse(s, bs, m, budget).Some?
    ensures WellTyped(s, Parse(s, bs, m, budget).value)
  {
    StepAllKeepsTyping(s, m, ReadFields(bs, budget).value);
  }

  lemma {:induction false} StepAllKeepsTyping(s: Schema, m: Message, fs: seq<Field>)
    requires WellTyped(s, m) && StepAll(s, m, fs).Some?
    ensures WellTyped(s, StepAll(s, m, fs).value)
    decreases |fs|
  {
    if fs != [] {
      StepAllKeepsTyping(s, Step(s, m, fs[0]).value, fs[1..]);
    }
  }

  lemma ParseOfSerialized(s: Schema, a: Message, b: Message, budget: nat)
    requires WellTyped(s, a) && WellTyped(s, b) && NoneRecognised(s, b.unknown)
    ensures Parse(s, Serialize(s, b), a, budget) ==
            if TextsValid(s, b.vals) && AllFit(b.unknown, budget) then Some(Merge(a, b)) else None
  {
    FieldsRoundTrip(ToFields(s, b), budget);
    ToFieldsFit(s, b, budget);
    StepToFields(s, a, b);
  }

  lemma ConcatenationIsMerge(s: Schema, x: seq<byte>, b: Message, m: Message, budget: nat)
    requires WellTyped(s, m) && Parse(s, x, m, budget).Some?
    requires WellFormed(s, b, budget)
    ensures Parse(s, x + Serialize(s, b), m, budget) == Some(Merge(Parse(s, x, m, budget).value, b))
  {
    ParseOfConcat(s, x, Serialize(s, b), m, budget);
    ParseKeepsTyping(s, x, m, budget);
    ParseOfSerialized(s, Parse(s, x, m, budget).value, b, budget);
  }

  // The last carrier of field n in fs puts it back to its default, which it is not at in vals.
  ghost predicate Resets(s: seq<FieldDesc>, fs: seq<Field>, vals: map<int, Value>, n: int)
    requires n in vals
  {
    !IsDefault(vals[n]) && exists i :: LastCarrier(s, fs, n, i) && IsDefault(ValueOf(fs[i]))
  }

  // For any two accepted inputs the concatenation is the merge exactly when the second
  // resets no field: a default on the wire overwrites, a default in a merge does not.
  lemma {:induction false} ConcatenationIsMergeExactly(s: Schema, x: seq<byte>, y: seq<byte>, m: Message, budget: nat)
    requires WellTyped(s, m) && Parse(s, x, m, budget).Some? && Parse(s, y, Cleared(s), budget).Some?
    ensures var a, b := Parse(s, x, m, budget).value, Parse(s, y, Cleared(s), budget).value;
            Parse(s, x + y, m, budget) == Some(Merge(a, b)) <==>
            forall n | n in a.vals :: !Resets(s, ReadFields(y, budget).value, a.vals, n)
  {
    var a, b := Parse(s, x, m, budget).value, Parse(s, y, Cleared(s), budget).value;
    var fs := ReadFields(y, budget).value;
    ParseOfConcat(s, x, y, m, budget);
    ParseKeepsTyping(s, x, m, budget);
    StepAllAccepts(s, Cleared(s), fs);
    StepAllAccepts(s, a, fs);
    var r := StepAll(s, a, fs).value;
    UnknownFieldsAreKept(s, Cleared(s), fs);
    UnknownFieldsAreKept(s, a, fs);
    assert [] + Unrecognised(s, fs) == Unrecognised(s, fs);
    assert r.unknown == Merge(a, b).unknown;
    forall n | n in a.vals
      ensures n in r.vals && n in b.vals
      ensures r.vals[n] == Pick(a.vals[n], b.vals[n]) <==> !Resets(s, fs, a.vals, n)
    {
      ResetsExactly(s, fs, a, n);
    }
    assert r == Merge(a, b) <==> forall n | n in a.vals :: r.vals[n] == Merge(a, b).vals[n];
  }

  lemma ResetsExactly(s: Schema, fs: seq<Field>, a: Message, n: int)
    requires WellTyped(s, a) && n in a.vals && AllAdmissible(s, fs)
    ensures StepAll(s, a, fs).Some? && StepAll(s, Cleared(s), fs).Some?
    ensures var r, b := StepAll(s, a, fs).value, StepAll(s, Cleared(s), fs).value;
            && n in r.vals && n in b.vals
            && (r.vals[n] == Pick(a.vals[n], b.vals[n]) <==> !Resets(s, fs, a.vals, n))
  {
    StepAllAccepts(s, a, fs);
    StepAllAccepts(s, Cleared(s), fs);
    LastOneWins(s, a, fs, n);
    LastOneWins(s, Cleared(s), fs, n);
    if exists f :: f in fs && Carries(s, f, n) {
      var i := LastOf(s, fs, n);
      assert HasKind(a.vals[n], KindOf(s, n).value) && HasKind(ValueOf(fs[i]), KindOf(s, n).value);
    } else {
      assert IsDefault(Cleared(s).vals[n]);
    }
  }

  lemma {:induction false} LastOf(s: seq<FieldDesc>, fs: seq<Field>, n: int) returns (i: nat)
    requires exists f :: f in fs && Carries(s, f, n)
    ensures LastCarrier(s, fs, n, i)
    decreases |fs|
  {
    i := |fs| - 1;
    if !Carries(s, fs[i], n) {
      assert fs == fs[..i] + [fs[i]];
      i := LastOf(s, fs[..i], n);
    }
  }

  // It does reset in every schema and for every field: a value followed by the default.
  lemma {:induction false} ResetIsNotMerge(s: Schema, d: FieldDesc, v: Value, budget: nat)
    requires d in s && HasKind(v, d.kind) && TextValid(v) && !IsDefault(v)
    ensures var x, y := EncodeFields([FieldOf(d.num, v)]), EncodeFields([FieldOf(d.num, DefaultOf(d.kind))]);
            && Parse(s, x, Cleared(s), budget) == Some(SetTo(s, d.num, v))
            && Parse(s, y, Cleared(s), budget) == Some(Cleared(s))
            && Parse(s, x + y, Cleared(s), budget) == Some(Cleared(s))
            && Merge(SetTo(s, d.num, v), Cleared(s)) == SetTo(s, d.num, v) != Cleared(s)
  {
    var x, y := EncodeFields([FieldOf(d.num, v)]), EncodeFields([FieldOf(d.num, DefaultOf(d.kind))]);
    ParseOneField(s, d, v, Cleared(s), budget);
    ParseOneField(s, d, DefaultOf(d.kind), Cleared(s), budget);
    ParseOneField(s, d, DefaultOf(d.kind), SetTo(s, d.num, v), budget);
    ParseOfConcat(s, x, y, Cleared(s), budget);
    OneFieldSet(s, d, v);
    MergeIdentity(s, SetTo(s, d.num, v));
  }

  lemma OneFieldSet(s: Schema, d: FieldDesc, v: Value)
    requires d in s && HasKind(v, d.kind) && !IsDefault(v)
    ensures WellTyped(s, SetTo(s, d.num, v)) && SetTo(s, d.num, v) != Cleared(s)
    ensures Cleared(s).vals[d.num := DefaultOf(d.kind)] == Cleared(s).vals
    ensures SetTo(s, d.num, v).vals[d.num := DefaultOf(d.kind)] == Cleared(s).vals
  {
    KindOfMember(s, d);
    assert SetTo(s, d.num, v).vals[d.num] != Cleared(s).vals[d.num];
  }

  // The cleared message with one field set.
  ghost function SetTo(s: Schema, n: int, v: Value): Message
  {
    Message(Cleared(s).vals[n := v], [])
  }

  lemma {:induction false} ParseOneField(s: Schema, d: FieldDesc, v: Value, m: Message, budget: nat)
    requires d in s && HasKind(v, d.kind) && TextValid(v)
    ensures Parse(s, EncodeFields([FieldOf(d.num, v)]), m, budget) == Some(m.(vals := m.vals[d.num := v]))
  {
    var f := FieldOf(d.num, v);
    FieldOfCarries(s, d, v);
    FieldsRoundTrip([f], budget);
    StepOneOrNone(s, m, [f]);
  }

  // In bytes: a status of 1, then a status of 0.
  lemma {:induction false} ConcatenationNeedNotMerge(budget: nat)
    ensures var s := Schemas.GENERIC_RESPONSE;
            && Parse(s, [8, 1], Cleared(s), budget) == Some(SetTo(s, 1, VInt(1)))
            && Parse(s, [8, 0], Cleared(s), budget) == Some(Cleared(s))
            && Parse(s, [8, 1] + [8, 0], Cleared(s), budget) == Some(Cleared(s))
            && Merge(SetTo(s, 1, VInt(1)), Cleared(s)) != Cleared(s)
  {
    var s := Schemas.GENERIC_RESPONSE;
    ResetIsNotMerge(s, s[0], VInt(1), budget);
    StatusBytes(1);
    StatusBytes(0);
  }

  lemma StatusBytes(i: int32)
    requires 0 <= i < 128
    ensures EncodeFields([FieldOf(1, VInt(i))]) == [8, i]
  {
    var f := FieldOf(1, VInt(i));
    assert [f][1..] == [];
    assert EncodeTag(1, WIRE_VARINT) == [8] && EncodePayload(f) == [i];
    assert [8] + [i] + EncodeFields([]) == [8, i];
  }

  // ---------- round trip ----------

  lemma RoundTrip(s: Schema, m: Message, budget: nat)
    requires WellTyped(s, m) && NoneRecognised(s, m.unknown) && AllFit(m.unknown, budget)
    ensures Parse(s, Serialize(s, m), Cleared(s), budget) == if TextsValid(s, m.vals) then Some(m) else None
  {
    ParseOfSerialized(s, Cleared(s), m, budget);
    MergeIdentity(s, m);
  }

  // ... and the messages that come back are exactly the well-formed ones.
  lemma RoundTripExactly(s: Schema, m: Message, budget: nat)
    requires WellTyped(s, m)
    ensures Parse(s, Serialize(s, m), Cleared(s), budget) == Some(m) <==> WellFormed(s, m, budget)
  {
    if NoneRecognised(s, m.unknown) {
      ParseOfSerialized(s, Cleared(s), m, budget);
      MergeIdentity(s, m);
    } else {
      FieldsRoundTrip(ToFields(s, m), budget);
      if Parse(s, Serialize(s, m), Cleared(s), budget).Some? {
        UnknownFieldsAreKept(s, Cleared(s), ToFields(s, m));
        UnrecognisedOfConcat(s, KnownFields(s, m.vals), m.unknown);
        KnownFieldsAreRecognised(s, s, m);
        UnrecognisedIsShorter(s, m.unknown);
      }
    }
  }

  lemma {:induction false} KnownFieldsAreRecognised(s: Schema, sub: seq<FieldDesc>, m: Message)
    requires WellTyped(s, m) && forall d | d in sub :: d in s
    ensures Unrecognised(s, KnownFields(sub, m.vals)) == []
    decreases |sub|
  {
    if sub != [] {
      var d := sub[0];
      assert d in s && forall d' | d' in sub[1..] :: d' in sub;
      KindOfMember(s, d);
      KnownFieldsAreRecognised(s, sub[1..], m);
      UnrecognisedOfConcat(s, FieldsOf(d.num, m.vals[d.num]), KnownFields(sub[1..], m.vals));
      assert Recognises(s, FieldOf(d.num, m.vals[d.num]));
    }
  }

  lemma {:induction false} UnrecognisedOfConcat(s: seq<FieldDesc>, a: seq<Field>, b: seq<Field>)
    ensures Unrecognised(s, a + b) == Unrecognised(s, a) + Unrecognised(s, b)
    decreases |a|
  {
    if a == [] {
      assert a + b == b;
    } else {
      assert (a + b)[1..] == a[1..] + b;
      UnrecognisedOfConcat(s, a[1..], b);
    }
  }

  lemma {:induction false} UnrecognisedIsShorter(s: seq<FieldDesc>, fs: seq<Field>)
    ensures |Unrecognised(s, fs)| <= |fs|
    ensures |Unrecognised(s, fs)| == |fs| ==> NoneRecognised(s, fs)
    ensures NoneRecognised(s, Unrecognised(s, fs))
    decreases |fs|
  {
    if fs != [] {
      UnrecognisedIsShorter(s, fs[1..]);
      assert fs == [fs[0]] + fs[1..];
    }
  }

  // ---------- every parse result is well-formed; normalisation ----------

  lemma {:induction false} UnrecognisedFit(s: seq<FieldDesc>, fs: seq<Field>, budget: nat)
    requires AllFit(fs, budget)
    ensures AllFit(Unrecognised(s, fs), budget)
    decreases |fs|
  {
    if fs != [] {
      UnrecognisedFit(s, fs[1..], budget);
      AllFitOfConcat(if Recognises(s, fs[0]) then [] else [fs[0]], Unrecognised(s, fs[1..]), budget);
    }
  }

  lemma {:induction false} StepAllKeepsTextsValid(s: Schema, m: Message, fs: seq<Field>)
    requires TextsValid(s, m.vals) && StepAll(s, m, fs).Some?
    ensures TextsValid(s, StepAll(s, m, fs).value.vals)
    decreases |fs|
  {
    if fs != [] {
      StepAllKeepsTextsValid(s, Step(s, m, fs[0]).value, fs[1..]);
    }
  }

  lemma ParseResultIsWellFormed(s: Schema, bs: seq<byte>, m: Message, budget: nat)
    requires WellFormed(s, m, budget) && Parse(s, bs, m, budget).Some?
    ensures WellFormed(s, Parse(s, bs, m, budget).value, budget)
  {
    var fs := ReadFields(bs, budget).value;
    StepAllKeepsTyping(s, m, fs);
    StepAllKeepsTextsValid(s, m, fs);
    UnknownFieldsAreKept(s, m, fs);
    UnrecognisedIsShorter(s, fs);
    UnrecognisedFit(s, fs, budget);
    AllFitOfConcat(m.unknown, Unrecognised(s, fs), budget);
  }

  lemma ClearedIsWellFormed(s: Schema, budget: nat)
    ensures WellFormed(s, Cleared(s), budget)
  {
  }

  // Whatever spelling an accepted input uses, one parse and serialize makes it canonical.
  lemma NormalisationIsAFixpoint(s: Schema, x: seq<byte>, budget: nat)
    requires Parse(s, x, Cleared(s), budget).Some?
    ensures var m := Parse(s, x, Cleared(s), budget).value;
            Parse(s, Serialize(s, m), Cleared(s), budget) == Some(m)
  {
    ClearedIsWellFormed(s, budget);
    ParseResultIsWellFormed(s, x, Cleared(s), budget);
    RoundTripExactly(s, Parse(s, x, Cleared(s), budget).value, budget);
  }

  // ---------- what is written, and in which order ----------

  // A field of the message that is not at its default.
  ghost predicate SetField(s: seq<FieldDesc>, vals: map<int, Value>, f: Field)
    requires Nums(s) <= vals.Keys
  {
    exists d :: d in s && IsFieldOf(vals, d, f)
  }

  ghost predicate IsFieldOf(vals: map<int, Value>, d: FieldDesc, f: Field)
  {
    d.num in vals && !IsDefault(vals[d.num]) && f == FieldOf(d.num, vals[d.num])
  }

  lemma SetFieldFirst(s: seq<FieldDesc>, vals: map<int, Value>, f: Field)
    requires s != [] && Nums(s) <= vals.Keys
    ensures Nums(s[1..]) <= vals.Keys && s[0].num in vals
    ensures SetField(s, vals, f) <==> f in FieldsOf(s[0].num, vals[s[0].num]) || SetField(s[1..], vals, f)
  {
    assert s[0] in s && s[0].num in Nums(s);
    NumsFirst(s);
    assert forall d :: d in s <==> d == s[0] || d in s[1..];
    assert f in FieldsOf(s[0].num, vals[s[0].num]) <==> IsFieldOf(vals, s[0], f);
  }

  // The known fields are written in the order of their numbers, each that is not at its
  // default once, and nothing else.
  lemma {:induction false} KnownFieldsAreOrdered(s: Schema, vals: map<int, Value>)
    requires Nums(s) <= vals.Keys
    ensures forall f :: f in KnownFields(s, vals) <==> SetField(s, vals, f)
    ensures Increasing(KnownFields(s, vals))
    decreases |s|
  {
    if s != [] {
      NumsFirst(s);
      KnownFieldsAreOrdered(s[1..], vals);
      forall f ensures f in KnownFields(s, vals) <==> SetField(s, vals, f) {
        SetFieldFirst(s, vals, f);
      }
      var rest := KnownFields(s[1..], vals);
      forall i | 0 <= i < |rest| ensures s[0].num < rest[i].num {
        assert rest[i] in rest && SetField(s[1..], vals, rest[i]);
        var d :| d in s[1..] && IsFieldOf(vals, d, rest[i]);
        LaterIsGreater(s, d);
      }
      IncreasingInFront(FieldsOf(s[0].num, vals[s[0].num]), rest, s[0].num);
    }
  }

  ghost predicate Increasing(fs: seq<Field>)
  {
    forall i, j | 0 <= i < j < |fs| :: fs[i].num < fs[j].num
  }

  lemma IncreasingInFront(first: seq<Field>, rest: seq<Field>, num: int)
    requires |first| <= 1 && (forall f | f in first :: f.num == num)
    requires Increasing(rest) && forall i | 0 <= i < |rest| :: num < rest[i].num
    ensures Increasing(first + rest)
  {
  }

  lemma LaterIsGreater(s: Schema, d: FieldDesc)
    requires s != [] && d in s[1..]
    ensures s[0].num < d.num
  {
    var i :| 0 <= i < |s| - 1 && s[1..][i] == d;
    assert s[i + 1] == d;
  }

  // A cleared message has every field, empty or zero.
  lemma ClearedDefaults(s: Schema, n: int)
    requires n in Nums(s)
    ensures n in Cleared(s).vals && Cleared(s).unknown == []
    ensures Cleared(s).vals[n] == if KindOf(s, n).value.Text? then VText([]) else VInt(0)
  {
  }

  // ---------- values, in numbers ----------

  // Any varint on the wire, however long, sets a number field to the int32 it is cut to,
  // which is equal to it modulo 2^32.
  lemma {:induction false} NumberOnTheWire(s: Schema, d: FieldDesc, v: seq<byte>, m: Message, budget: nat)
    requires d in s && d.kind.Number? && IsVarint(v) && |v| <= 10
    ensures Parse(s, [8 * d.num] + v, m, budget) == Some(m.(vals := m.vals[d.num := VInt(Cut32(Digits(v)))]))
  {
    var n := Digits(v) % 0x1_0000_0000_0000_0000;
    NumberRecord(d.num, v, n, budget);
    NumberIsSet(s, d, n, m);
  }

  lemma NumberRecord(num: FieldNumber, v: seq<byte>, n: uint64, budget: nat)
    requires num <= 15 && SpellsNumber(v, n)
    ensures ReadFields([8 * num] + v, budget) == Some([Varint(num, n)])
  {
    OneRecord(Varint(num, n), 8 * num, v, budget);
  }

  lemma {:induction false} NumberIsSet(s: Schema, d: FieldDesc, n: uint64, m: Message)
    requires d in s && d.kind.Number?
    ensures StepAll(s, m, [Varint(d.num, n)]) == Some(m.(vals := m.vals[d.num := VInt(Truncate32(n))]))
  {
    KindOfMember(s, d);
    StepOneOrNone(s, m, [Varint(d.num, n)]);
  }

  // A string field takes the bytes as they are, if they are UTF-8, and refuses them otherwise.
  lemma {:induction false} TextOnTheWire(s: Schema, d: FieldDesc, text: Blob, m: Message, budget: nat)
    requires d in s && d.kind.Text?
    ensures Parse(s, [8 * d.num + 2] + EncodeVarint(|text|) + text, m, budget) ==
            if Utf8.Valid(text) then Some(m.(vals := m.vals[d.num := VText(text)])) else None
  {
    var f, size := Len(d.num, text), EncodeVarint(|text|);
    Associative([8 * d.num + 2], size, text);
    EncodingSpells(|text|);
    VarintFits(|text|);
    DataInFront(size, text);
    OneRecord(f, 8 * d.num + 2, size + text, budget);
    TextIsSet(s, d, text, m);
  }

  lemma {:induction false} TextIsSet(s: Schema, d: FieldDesc, text: Blob, m: Message)
    requires d in s && d.kind.Text?
    ensures StepAll(s, m, [Len(d.num, text)]) ==
            if Utf8.Valid(text) then Some(m.(vals := m.vals[d.num := VText(text)])) else None
  {
    KindOfMember(s, d);
    StepOneOrNone(s, m, [Len(d.num, text)]);
  }

  // ---------- order of records ----------

  // Two records that may be exchanged: not both kept as unknown, and not both the same field.
  predicate Independent(s: seq<FieldDesc>, f: Field, g: Field)
  {
    && (Recognises(s, f) || Recognises(s, g))
    && (Recognises(s, f) && Recognises(s, g) ==> f.num != g.num)
  }

  lemma StepsCommute(s: seq<FieldDesc>, m: Message, f: Field, g: Field)
    requires Independent(s, f, g)
    ensures StepAll(s, m, [f, g]) == StepAll(s, m, [g, f])
  {
    StepTwo(s, m, f, g);
    StepTwo(s, m, g, f);
    if Recognises(s, f) && Recognises(s, g) {
      assert m.vals[f.num := ValueOf(f)][g.num := ValueOf(g)] == m.vals[g.num := ValueOf(g)][f.num := ValueOf(f)];
    }
  }

  lemma StepTwo(s: seq<FieldDesc>, m: Message, f: Field, g: Field)
    ensures StepAll(s, m, [f, g]) ==
            match Step(s, m, f) case None => None case Some(m') => Step(s, m', g)
  {
    assert [f, g][1..] == [g];
    if Step(s, m, f).Some? {
      StepOneOrNone(s, Step(s, m, f).value, [g]);
    }
  }

  lemma SwappingFields(s: seq<FieldDesc>, m: Message, fx: seq<Field>, f: Field, g: Field, fy: seq<Field>)
    requires Independent(s, f, g)
    ensures StepAll(s, m, fx + [f, g] + fy) == StepAll(s, m, fx + [g, f] + fy)
  {
    StepAllOfConcat(s, m, fx + [f, g], fy);
    StepAllOfConcat(s, m, fx + [g, f], fy);
    StepAllOfConcat(s, m, fx, [f, g]);
    StepAllOfConcat(s, m, fx, [g, f]);
    if StepAll(s, m, fx).Some? {
      StepsCommute(s, StepAll(s, m, fx).value, f, g);
    }
  }

  // Exchanging two adjacent independent records, however each is spelled, changes
  // neither acceptance nor the message.
  lemma {:induction false} SwappingRecords(s: seq<FieldDesc>, x: seq<byte>, e: seq<byte>, e': seq<byte>, y: seq<byte>,
                        f: Field, f': Field, m: Message, budget: nat)
    requires Independent(s, f, f')
    ensures ReadFields(x, budget).Some? && ReadFields(e, budget) == Some([f]) && ReadFields(e', budget) == Some([f'])
            ==> Parse(s, x + e + e' + y, m, budget) == Parse(s, x + e' + e + y, m, budget)
  {
    ReadTwoRecords(x, e, e', y, f, f', budget);
    ReadTwoRecords(x, e', e, y, f', f, budget);
    if ReadFields(x, budget).Some? && ReadFields(y, budget).Some? {
      SwappingFields(s, m, ReadFields(x, budget).value, f, f', ReadFields(y, budget).value);
    }
  }

  lemma {:induction false} ReadTwoRecords(x: seq<byte>, e: seq<byte>, e': seq<byte>, y: seq<byte>,
      f: Field, f': Field, budget: nat)
    ensures ReadFields(x, budget).Some? && ReadFields(e, budget) == Some([f]) && ReadFields(e', budget) == Some([f'])
            ==> ReadFields(x + e + e' + y, budget) ==
                Prepend(ReadFields(x, budget).value + [f, f'], ReadFields(y, budget))
  {
    if ReadFields(x, budget).Some? && ReadFields(e, budget) == Some([f]) && ReadFields(e', budget) == Some([f']) {
      Associative(x, e, e');
      ReadFieldsOfConcat(e, e', budget);
      assert [f] + [f'] == [f, f'];
      ReadFieldsOfConcat(x, e + e', budget);
      ReadFieldsOfConcat(x + e + e', y, budget);
    }
  }

  // ---------- unknown records ----------

  // A record the schema does not recognise, put anywhere into an accepted input,
  // touches no field and takes its place among the unknown ones.
  lemma {:induction false} UnknownRecordSurvives(s: Schema, x: seq<byte>, e: seq<byte>, y: seq<byte>,
      f: Field, m: Message, budget: nat)
    requires WellTyped(s, m)
    requires Parse(s, x, m, budget).Some? && Parse(s, x + y, m, budget).Some?
    requires ReadFields(e, budget) == Some([f]) && !Recognises(s, f)
    ensures var before := Parse(s, x, m, budget).value;
            var without := Parse(s, x + y, m, budget).value;
            && before.unknown <= without.unknown
            && Parse(s, x + e + y, m, budget) ==
               Some(Message(without.vals, before.unknown + [f] + without.unknown[|before.unknown|..]))
  {
    var before := Parse(s, x, m, budget).value;
    ParseOfConcat(s, x, y, m, budget);
    ParseOfConcat(s, x, e, m, budget);
    StepOneOrNone(s, before, [f]);
    var with := before.(unknown := before.unknown + [f]);
    assert Parse(s, x + e, m, budget) == Some(with);
    ParseOfConcat(s, x + e, y, m, budget);
    var fy := ReadFields(y, budget).value;
    ParseKeepsTyping(s, x, m, budget);
    UnknownOnlyGrows(s, before, with.unknown, fy);
    UnknownFieldsAreKept(s, before, fy);
    UnknownFieldsAreKept(s, with, fy);
  }

  // The unknown fields already held play no part in what happens to the others.
  lemma {:induction false} UnknownOnlyGrows(s: Schema, m: Message, unknown: seq<Field>, fs: seq<Field>)
    requires StepAll(s, m, fs).Some?
    ensures StepAll(s, m.(unknown := unknown), fs).Some?
    ensures StepAll(s, m.(unknown := unknown), fs).value.vals == StepAll(s, m, fs).value.vals
    decreases |fs|
  {
    if fs != [] {
      var m' := Step(s, m, fs[0]).value;
      var n' := Step(s, m.(unknown := unknown), fs[0]).value;
      assert n' == m'.(unknown := n'.unknown);
      UnknownOnlyGrows(s, m', n'.unknown, fs[1..]);
    }
  }

  // Unknown fields are written after all known ones, as bytes that parse back to them
  // and to nothing else.
  lemma UnknownFieldsAreReEmitted(s: Schema, m: Message, budget: nat)
    requires WellFormed(s, m, budget)
    ensures Serialize(s, m) == EncodeFields(KnownFields(s, m.vals)) + EncodeFields(m.unknown)
    ensures Parse(s, EncodeFields(m.unknown), Cleared(s), budget) == Some(Cleared(s).(unknown := m.unknown))
  {
    EncodeFieldsOfConcat(KnownFields(s, m.vals), m.unknown);
    FieldsRoundTrip(m.unknown, budget);
    StepUnrecognised(s, Cleared(s), m.unknown);
    assert [] + m.unknown == m.unknown;
  }

  // ---------- sizes ----------

  function ValueSize(v: Value): nat
  {
    if IsDefault(v) then 0
    else match v
         case VText(t) => 1 + StringSize(t)
         case VInt(i) => 1 + Int32Size(i)
  }

  function KindSize(s: seq<FieldDesc>, kind: Kind, vals: map<int, Value>): nat
  {
    if s == [] then 0
    else (if s[0].kind == kind then ValueSize(Get(vals, s[0].num)) else 0) + KindSize(s[1..], kind, vals)
  }

  // ByteSizeLong adds up the unknown fields, then the strings, then the numbers.
  function ByteSize(s: seq<FieldDesc>, m: Message): nat
  {
    FieldsSize(m.unknown) + KindSize(s, Text, m.vals) + KindSize(s, Number, m.vals)
  }

  lemma ValueSizeExact(num: FieldNumber, v: Value)
    requires num <= 15
    ensures |EncodeFields(FieldsOf(num, v))| == ValueSize(v)
  {
    if !IsDefault(v) {
      var f := FieldOf(num, v);
      assert EncodeFields([f]) == EncodeField(f) + EncodeFields([]);
      FieldSizeExact(f);
      if v.VInt? {
        Int32OnTheWire(v.i, []);
      }
    }
  }

  lemma {:induction false} KnownSizeExact(s: seq<FieldDesc>, vals: map<int, Value>)
    requires forall d | d in s :: d.num <= 15
    ensures |EncodeFields(KnownFields(s, vals))| == KindSize(s, Text, vals) + KindSize(s, Number, vals)
    decreases |s|
  {
    if s != [] {
      KnownSizeExact(s[1..], vals);
      ValueSizeExact(s[0].num, Get(vals, s[0].num));
      EncodeFieldsOfConcat(FieldsOf(s[0].num, Get(vals, s[0].num)), KnownFields(s[1..], vals));
    }
  }

  lemma SizeIsExact(s: Schema, m: Message)
    ensures |Serialize(s, m)| == ByteSize(s, m)
  {
    KnownSizeExact(s, m.vals);
    FieldsSizeExact(m.unknown);
    EncodeFieldsOfConcat(KnownFields(s, m.vals), m.unknown);
  }

  // What cannot be told apart on the wire is the same message.
  lemma SerializeIsInjective(s: Schema, a: Message, b: Message, budget: nat)
    requires WellFormed(s, a, budget) && WellFormed(s, b, budget)
    requires Serialize(s, a) == Serialize(s, b)
    ensures a == b
  {
    RoundTrip(s, a, budget);
    RoundTrip(s, b, budget);
  }
}
