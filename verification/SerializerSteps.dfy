// How the straight-line serializers and size calculators of the message classes
// unfold the recursive specification, one field at a time.
module SerializerSteps {
  import opened Wire
  import opened Fields
  import opened Messages
  import opened CodecLaws

  // What remains to be written when the first i fields are done.
  ghost function Tail(s: Schema, i: nat, m: Message): seq<byte>
    requires i <= |s|
  {
    EncodeFields(KnownFields(s[i..], m.vals)) + EncodeFields(m.unknown)
  }

  lemma TailStarts(s: Schema, m: Message)
    ensures Serialize(s, m) == Tail(s, 0, m)
    ensures Tail(s, |s|, m) == EncodeFields(m.unknown)
  {
    assert s[0..] == s;
    EncodeFieldsOfConcat(KnownFields(s, m.vals), m.unknown);
    assert EncodeFields([]) + EncodeFields(m.unknown) == EncodeFields(m.unknown);
  }

  lemma TailNext(s: Schema, i: nat, num: FieldNumber, m: Message, done: seq<byte>)
    requires i < |s| && s[i].num == num
    ensures done + Tail(s, i, m) == done + FieldBytes(num, Get(m.vals, num)) + Tail(s, i + 1, m)
  {
    var v := Get(m.vals, s[i].num);
    assert s[i..][1..] == s[i + 1..];
    var rest := KnownFields(s[i + 1..], m.vals);
    EncodeFieldsOfConcat(FieldsOf(s[i].num, v), rest);
    OneField(s[i].num, v);
    Associative(FieldBytes(s[i].num, v), EncodeFields(rest), EncodeFields(m.unknown));
    Associative(done, FieldBytes(s[i].num, v), Tail(s, i + 1, m));
  }

  // The first field, and what is left when the last one is done.
  lemma TailFirst(s: Schema, num: FieldNumber, m: Message)
    requires |s| > 0 && s[0].num == num
    ensures Serialize(s, m) == FieldBytes(num, Get(m.vals, num)) + Tail(s, 1, m)
    ensures Tail(s, |s|, m) == EncodeFields(m.unknown)
  {
    TailStarts(s, m);
    TailNext(s, 0, num, m, []);
    assert [] + Tail(s, 0, m) == Tail(s, 0, m);
    var bytes := FieldBytes(num, Get(m.vals, num));
    assert [] + bytes == bytes;
  }

  ghost function Bytes(m: Message, num: FieldNumber): seq<byte>
  {
    FieldBytes(num, Get(m.vals, num))
  }

  lemma SingleField(s: Schema, m: Message, n1: FieldNumber)
    requires |s| == 1 && s[0].num == n1
    ensures Serialize(s, m) == Bytes(m, n1) + EncodeFields(m.unknown)
  {
    TailFirst(s, n1, m);
  }

  lemma ThreeFields(s: Schema, m: Message, n1: FieldNumber, n2: FieldNumber, n3: FieldNumber)
    requires |s| == 3 && s[0].num == n1 && s[1].num == n2 && s[2].num == n3
    ensures Serialize(s, m) == Bytes(m, n1) + Bytes(m, n2) + Bytes(m, n3) + EncodeFields(m.unknown)
  {
    TailFirst(s, n1, m);
    TailNext(s, 1, n2, m, Bytes(m, n1));
    TailNext(s, 2, n3, m, Bytes(m, n1) + Bytes(m, n2));
  }

  lemma SixFields(s: Schema, m: Message, n1: FieldNumber, n2: FieldNumber, n3: FieldNumber, n4: FieldNumber,
                  n5: FieldNumber, n6: FieldNumber)
    requires |s| == 6 && s[0].num == n1 && s[1].num == n2 && s[2].num == n3
    requires s[3].num == n4 && s[4].num == n5 && s[5].num == n6
    ensures Serialize(s, m) ==
            Bytes(m, n1) + Bytes(m, n2) + Bytes(m, n3) + Bytes(m, n4) + Bytes(m, n5) + Bytes(m, n6) +
            EncodeFields(m.unknown)
  {
    TailFirst(s, n1, m);
    var b := Bytes(m, n1);
    TailNext(s, 1, n2, m, b);
    b := b + Bytes(m, n2);
    TailNext(s, 2, n3, m, b);
    b := b + Bytes(m, n3);
    TailNext(s, 3, n4, m, b);
    b := b + Bytes(m, n4);
    TailNext(s, 4, n5, m, b);
    b := b + Bytes(m, n5);
    TailNext(s, 5, n6, m, b);
  }

  lemma OneField(num: FieldNumber, v: Value)
    ensures EncodeFields(FieldsOf(num, v)) == FieldBytes(num, v)
  {
    if !IsDefault(v) {
      var f := FieldOf(num, v);
      assert EncodeFields([f]) == EncodeField(f) + EncodeFields([]);
    }
  }

  // The size of the fields of one kind, from field i on.
  ghost function SizeFrom(s: Schema, i: nat, kind: Kind, vals: map<int, Value>): nat
    requires i <= |s|
  {
    KindSize(s[i..], kind, vals)
  }

  lemma SizesStart(s: Schema, vals: map<int, Value>)
    ensures KindSize(s, Text, vals) == SizeFrom(s, 0, Text, vals) && SizeFrom(s, |s|, Text, vals) == 0
    ensures KindSize(s, Number, vals) == SizeFrom(s, 0, Number, vals) && SizeFrom(s, |s|, Number, vals) == 0
  {
    assert s[0..] == s;
  }

  lemma SizeNext(s: Schema, i: nat, vals: map<int, Value>)
    requires i < |s|
    ensures SizeFrom(s, i, s[i].kind, vals) == ValueSize(Get(vals, s[i].num)) + SizeFrom(s, i + 1, s[i].kind, vals)
    ensures s[i].kind.Number? ==> SizeFrom(s, i, Text, vals) == SizeFrom(s, i + 1, Text, vals)
    ensures s[i].kind.Text? ==> SizeFrom(s, i, Number, vals) == SizeFrom(s, i + 1, Number, vals)
  {
    assert s[i..][1..] == s[i + 1..];
  }
}
