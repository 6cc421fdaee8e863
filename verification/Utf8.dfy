// UTF-8 validity, which every string field is checked for when it is parsed.
// `Valid` is the grammar of RFC 3629, section 4; `Encode` is the encoding of
// section 3; they are shown to describe the same byte strings.
module Utf8 {
  import opened Wire

  predicate Tail(b: byte) { 0x80 <= b <= 0xBF }

  predicate TwoBytes(s: seq<byte>)
  {
    |s| >= 2 && 0xC2 <= s[0] <= 0xDF && Tail(s[1])
  }

  predicate ThreeBytes(s: seq<byte>)
  {
    && |s| >= 3 && Tail(s[1]) && Tail(s[2])
    && (   (s[0] == 0xE0 && 0xA0 <= s[1])
        || 0xE1 <= s[0] <= 0xEC
        || (s[0] == 0xED && s[1] <= 0x9F)
        || 0xEE <= s[0] <= 0xEF)
  }

  predicate FourBytes(s: seq<byte>)
  {
    && |s| >= 4 && Tail(s[1]) && Tail(s[2]) && Tail(s[3])
    && (   (s[0] == 0xF0 && 0x90 <= s[1])
        || 0xF1 <= s[0] <= 0xF3
        || (s[0] == 0xF4 && s[1] <= 0x8F))
  }

  predicate Valid(s: seq<byte>)
  {
    if s == [] then true
    else if s[0] <= 0x7F then Valid(s[1..])
    else if TwoBytes(s) then Valid(s[2..])
    else if ThreeBytes(s) then Valid(s[3..])
    else if FourBytes(s) then Valid(s[4..])
    else false
  }

  // A character number that is not a surrogate.
  type Scalar = c: int | 0 <= c < 0xD800 || 0xE000 <= c <= 0x10FFFF

  function EncodeScalar(c: Scalar): (s: seq<byte>)
    ensures s != []
  {
    if c < 0x80 then [c]
    else if c < 0x800 then [0xC0 + c / 0x40, 0x80 + c % 0x40]
    else if c < 0x1_0000 then [0xE0 + c / 0x1000, 0x80 + c / 0x40 % 0x40, 0x80 + c % 0x40]
    else [0xF0 + c / 0x4_0000, 0x80 + c / 0x1000 % 0x40, 0x80 + c / 0x40 % 0x40, 0x80 + c % 0x40]
  }

  function Encode(cs: seq<Scalar>): seq<byte>
  {
    if cs == [] then [] else EncodeScalar(cs[0]) + Encode(cs[1..])
  }

  lemma {:induction false} EncodedIsValid(cs: seq<Scalar>)
    ensures Valid(Encode(cs))
  {
    if cs != [] {
      EncodedIsValid(cs[1..]);
      ValidAfterScalar(cs[0], Encode(cs[1..]));
    }
  }

  lemma ValidAfterScalar(c: Scalar, rest: seq<byte>)
    ensures Valid(EncodeScalar(c) + rest) <==> Valid(rest)
  {
    var e := EncodeScalar(c);
    assert (e + rest)[|e|..] == rest;
    assert forall i | 0 <= i < |e| :: (e + rest)[i] == e[i];
  }

  lemma DecodeTwo(s: seq<byte>, a: int, b: int) returns (c: Scalar)
    requires |s| == 2 && TwoBytes(s) && a == s[0] && b == s[1]
    ensures EncodeScalar(c) == s
  {
    c := (a - 0xC0) * 0x40 + (b - 0x80);
    assert c / 0x40 == a - 0xC0 && c % 0x40 == b - 0x80;
  }

  lemma DecodeThree(s: seq<byte>, a: int, b: int, d: int) returns (c: Scalar)
    requires |s| == 3 && ThreeBytes(s) && a == s[0] && b == s[1] && d == s[2]
    ensures EncodeScalar(c) == s
  {
    c := (a - 0xE0) * 0x1000 + (b - 0x80) * 0x40 + (d - 0x80);
    assert c / 0x40 == (a - 0xE0) * 0x40 + (b - 0x80) && c % 0x40 == d - 0x80;
    assert c / 0x1000 == a - 0xE0;
  }

  lemma DecodeFour(s: seq<byte>, a: int, b: int, d: int, e: int) returns (c: Scalar)
    requires |s| == 4 && FourBytes(s) && a == s[0] && b == s[1] && d == s[2] && e == s[3]
    ensures EncodeScalar(c) == s
  {
    c := (a - 0xF0) * 0x4_0000 + (b - 0x80) * 0x1000 + (d - 0x80) * 0x40 + (e - 0x80);
    assert c / 0x40 == (a - 0xF0) * 0x1000 + (b - 0x80) * 0x40 + (d - 0x80) && c % 0x40 == e - 0x80;
    assert c / 0x1000 == (a - 0xF0) * 0x40 + (b - 0x80);
    assert c / 0x4_0000 == a - 0xF0;
  }

  // The first character of a valid non-empty byte string.
  lemma FirstScalar(s: seq<byte>) returns (c: Scalar)
    requires s != [] && Valid(s)
    ensures EncodeScalar(c) <= s && Valid(s[|EncodeScalar(c)|..])
  {
    if s[0] <= 0x7F {
      c := s[0];
    } else if TwoBytes(s) {
      c := DecodeTwo(s[..2], s[0], s[1]);
    } else if ThreeBytes(s) {
      c := DecodeThree(s[..3], s[0], s[1], s[2]);
    } else {
      c := DecodeFour(s[..4], s[0], s[1], s[2], s[3]);
    }
  }

  lemma {:induction false} Decode(s: seq<byte>) returns (cs: seq<Scalar>)
    requires Valid(s)
    ensures Encode(cs) == s
    decreases |s|
  {
    if s == [] {
      cs := [];
    } else {
      var c := FirstScalar(s);
      var rest := Decode(s[|EncodeScalar(c)|..]);
      cs := [c] + rest;
    }
  }

  // The grammar admits exactly the encodings of sequences of scalar values.
  lemma ValidMeansEncoded(s: seq<byte>)
    ensures Valid(s) <==> exists cs :: Encode(cs) == s
  {
    if Valid(s) {
      var cs := Decode(s);
    }
    forall cs | Encode(cs) == s ensures Valid(s) {
      EncodedIsValid(cs);
    }
  }

  // ---------- the tables, in numbers ----------

  // What RFC 3629 says each character number is written as.
  predicate Spelled(c: int, s: seq<byte>)
  {
    if c <= 0x7F then s == [c]
    else if c <= 0x7FF then |s| == 2 && Tails(s) && c == Sum(s[0], 0xC0, 0x40, 0, 0, s[1])
    else if c <= 0xFFFF then |s| == 3 && Tails(s) && c == Sum(s[0], 0xE0, 0x1000, 0, s[1], s[2])
    else |s| == 4 && Tails(s) && c == Sum(s[0], 0xF0, 0x4_0000, s[1], s[2], s[3])
  }

  predicate Tails(s: seq<byte>)
  {
    forall i | 1 <= i < |s| :: 0x80 <= s[i] <= 0xBF
  }

  // The bits of a first byte and of up to three more; 0 stands for one that is not there.
  function Sum(first: int, mark: int, weight: int, b: int, d: int, e: int): int
  {
    (first - mark) * weight
    + (if b == 0 then 0 else (b - 0x80) * 0x1000) + (if d == 0 then 0 else (d - 0x80) * 0x40) + (e - 0x80)
  }

  lemma DivideTwice(c: nat)
    ensures c / 0x1000 == c / 0x40 / 0x40 && c / 0x4_0000 == c / 0x40 / 0x40 / 0x40
    ensures c == c / 0x40 * 0x40 + c % 0x40
    ensures c / 0x40 == c / 0x40 / 0x40 * 0x40 + c / 0x40 % 0x40
  {
  }

  lemma ScalarSpelled(c: Scalar)
    ensures 0 <= c <= 0x10FFFF && !(0xD800 <= c <= 0xDFFF)
    ensures Spelled(c, EncodeScalar(c))
  {
    DivideTwice(c);
    if c > 0x7F {
      DivideTwice(c / 0x40);
    }
  }

  // No continuation byte comes first, nothing is written longer than it need be, there are
  // no surrogates, and nothing lies beyond U+10FFFF.
  lemma Refused(a: byte, b: byte, rest: seq<byte>)
    requires || 0x80 <= a <= 0xC1 || 0xF5 <= a
             || (a == 0xE0 && b < 0xA0) || (a == 0xED && b > 0x9F)
             || (a == 0xF0 && b < 0x90) || (a == 0xF4 && b > 0x8F)
             || (0xC2 <= a && !(0x80 <= b <= 0xBF))
    ensures !Valid([a, b] + rest)
  {
  }
}
