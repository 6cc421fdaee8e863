// The bottom layer of the Protocol Buffers wire format: base 128 varints, tags,
// and the sign extension of 32-bit integers ("Base 128 Varints" and "Message
// Structure" of the Protocol Buffers Encoding guide).
module Wire {

  type byte = b: int | 0 <= b < 256
  type uint32 = n: int | 0 <= n < 0x1_0000_0000
  type uint64 = n: int | 0 <= n < 0x1_0000_0000_0000_0000
  type int32 = n: int | -0x8000_0000 <= n < 0x8000_0000

  // A std::string: its length must fit an int, as the casts in the generated code assume.
  type Blob = s: seq<byte> | |s| < 0x8000_0000 witness []

  const MAX_VARINT_BYTES: nat := 10

  datatype Option<+T> = None | Some(value: T)

  // The result of reading a value off the front of a byte string.
  datatype Read<+T> = Bad | Got(value: T, rest: seq<byte>)

  ghost predicate SuffixOf(rest: seq<byte>, bs: seq<byte>)
  {
    |rest| <= |bs| && bs[|bs| - |rest|..] == rest
  }

  // What a reader promises: it leaves a proper suffix of its input.
  ghost predicate Consumes<T>(bs: seq<byte>, r: Read<T>)
  {
    r.Got? ==> |r.rest| < |bs| && SuffixOf(r.rest, bs)
  }

  lemma SuffixTransitive(a: seq<byte>, b: seq<byte>, c: seq<byte>)
    requires SuffixOf(a, b) && SuffixOf(b, c)
    ensures SuffixOf(a, c)
  {
    assert c[|c| - |b|..][|b| - |a|..] == c[|c| - |a|..];
  }

  // ---------- varints ----------

  function EncodeVarint(n: nat): (bs: seq<byte>)
    ensures bs != []
  {
    if n < 128 then [n] else [128 + n % 128] + EncodeVarint(n / 128)
  }

  // The number spelled by at most `limit` varint bytes, not yet cut to any width.
  function ReadDigits(bs: seq<byte>, limit: nat): (r: Read<nat>)
    ensures Consumes(bs, r)
  {
    if limit == 0 || bs == [] then Bad
    else if bs[0] < 128 then Got(bs[0], bs[1..])
    else
      match ReadDigits(bs[1..], limit - 1)
      case Bad => Bad
      case Got(high, rest) => Got(bs[0] - 128 + 128 * high, rest)
  }

  function ReadVarint(bs: seq<byte>): (r: Read<uint64>)
    ensures Consumes(bs, r)
  {
    match ReadDigits(bs, MAX_VARINT_BYTES)
    case Bad => Bad
    case Got(n, rest) => Got(n % 0x1_0000_0000_0000_0000, rest)
  }

  function ReadTag(bs: seq<byte>): (r: Read<uint32>)
    ensures Consumes(bs, r)
  {
    match ReadDigits(bs, MAX_VARINT_BYTES)
    case Bad => Bad
    case Got(n, rest) => Got(n % 0x1_0000_0000, rest)
  }

  ghost function Pow128(k: nat): nat
  {
    if k == 0 then 1 else 128 * Pow128(k - 1)
  }

  // A number needs more than k bytes exactly when it is at least 128^k.
  lemma {:induction false} VarintLength(n: nat, k: nat)
    requires 0 < k
    ensures |EncodeVarint(n)| <= k <==> n < Pow128(k)
  {
    if n < 128 {
      Pow128Grows(k);
    } else if k == 1 {
      assert Pow128(1) == 128 * Pow128(0);
    } else {
      VarintLength(n / 128, k - 1);
    }
  }

  lemma {:induction false} Pow128Grows(k: nat)
    requires 0 < k
    ensures 128 <= Pow128(k)
  {
    if k == 1 {
      assert Pow128(1) == 128 * Pow128(0);
    } else {
      Pow128Grows(k - 1);
    }
  }

  lemma Pow128Values()
    ensures Pow128(1) == 0x80 && Pow128(2) == 0x4000 && Pow128(3) == 0x20_0000
    ensures Pow128(4) == 0x1000_0000 && Pow128(5) == 0x8_0000_0000
    ensures Pow128(9) == 0x8000_0000_0000_0000 && Pow128(10) == 0x40_0000_0000_0000_0000
  {
    assert Pow128(0) == 1;
    assert Pow128(1) == 0x80;
    assert Pow128(2) == 0x4000;
    assert Pow128(3) == 0x20_0000;
    assert Pow128(4) == 0x1000_0000;
    assert Pow128(5) == 0x8_0000_0000;
    assert Pow128(6) == 0x400_0000_0000;
    assert Pow128(7) == 0x2_0000_0000_0000;
    assert Pow128(8) == 0x100_0000_0000_0000;
    assert Pow128(9) == 0x8000_0000_0000_0000;
  }

  lemma {:induction false} ReadDigitsOfEncoding(n: nat, limit: nat, post: seq<byte>)
    requires |EncodeVarint(n)| <= limit
    ensures ReadDigits(EncodeVarint(n) + post, limit) == Got(n, post)
  {
    var bs := EncodeVarint(n) + post;
    if n < 128 {
      assert bs[1..] == post;
    } else {
      assert bs[1..] == EncodeVarint(n / 128) + post;
      ReadDigitsOfEncoding(n / 128, limit - 1, post);
    }
  }

  lemma VarintFits(n: uint64)
    ensures |EncodeVarint(n)| <= MAX_VARINT_BYTES
  {
    Pow128Values();
    VarintLength(n, MAX_VARINT_BYTES);
  }

  lemma DigitsToVarint(bs: seq<byte>, n: uint64, post: seq<byte>)
    requires ReadDigits(bs, MAX_VARINT_BYTES) == Got(n, post)
    ensures ReadVarint(bs) == Got(n, post)
  {
  }

  lemma DigitsToTag(bs: seq<byte>, tag: uint32, post: seq<byte>)
    requires ReadDigits(bs, MAX_VARINT_BYTES) == Got(tag, post)
    ensures ReadTag(bs) == Got(tag, post)
  {
  }

  lemma VarintRoundTrip(n: uint64, post: seq<byte>)
    ensures ReadVarint(EncodeVarint(n) + post) == Got(n, post)
  {
    VarintFits(n);
    ReadDigitsOfEncoding(n, MAX_VARINT_BYTES, post);
    DigitsToVarint(EncodeVarint(n) + post, n, post);
  }

  lemma TagRoundTrip(tag: uint32, post: seq<byte>)
    ensures ReadTag(EncodeVarint(tag) + post) == Got(tag, post)
  {
    VarintFits(tag);
    ReadDigitsOfEncoding(tag, MAX_VARINT_BYTES, post);
    DigitsToTag(EncodeVarint(tag) + post, tag, post);
  }

  // No varint is the beginning of another one.
  lemma VarintPrefixFree(a: nat, b: nat, x: seq<byte>, y: seq<byte>)
    requires EncodeVarint(a) + x == EncodeVarint(b) + y
    ensures a == b && x == y
  {
    var limit := |EncodeVarint(a)| + |EncodeVarint(b)|;
    ReadDigitsOfEncoding(a, limit, x);
    ReadDigitsOfEncoding(b, limit, y);
  }

  // Reading never looks past the bytes it consumes.
  lemma {:induction false} ReadDigitsLocal(bs: seq<byte>, limit: nat, post: seq<byte>)
    requires ReadDigits(bs, limit).Got?
    ensures ReadDigits(bs + post, limit) ==
            Got(ReadDigits(bs, limit).value, ReadDigits(bs, limit).rest + post)
  {
    assert (bs + post)[1..] == bs[1..] + post;
    if bs[0] >= 128 {
      ReadDigitsLocal(bs[1..], limit - 1, post);
    }
  }

  // ---------- what a varint spells ----------

  // All bytes but the last have their high bit set.
  ghost predicate IsVarint(d: seq<byte>)
  {
    && d != [] && d[|d| - 1] < 128
    && forall i | 0 <= i < |d| - 1 :: d[i] >= 128
  }

  // Seven bits a byte, the low ones first.
  function Digits(d: seq<byte>): nat
  {
    if d == [] then 0 else d[0] % 128 + 128 * Digits(d[1..])
  }

  lemma DigitInFront(b: byte, d: seq<byte>)
    requires b >= 128 && IsVarint(d)
    ensures IsVarint([b] + d) && Digits([b] + d) == b - 128 + 128 * Digits(d)
  {
    var e := [b] + d;
    assert e[1..] == d && e[|e| - 1] == d[|d| - 1];
    assert b % 128 == b - 128;
    forall i | 0 <= i < |e| - 1 ensures e[i] >= 128 {
      if i > 0 {
        assert e[i] == d[i - 1];
      }
    }
  }

  lemma OneDigit(b: byte)
    requires b < 128
    ensures IsVarint([b]) && Digits([b]) == b
  {
    assert [b][1..] == [];
  }

  lemma {:induction false} EncodingSpells(n: nat)
    ensures IsVarint(EncodeVarint(n)) && Digits(EncodeVarint(n)) == n
  {
    if n < 128 {
      OneDigit(n);
    } else {
      EncodingSpells(n / 128);
      DigitInFront(128 + n % 128, EncodeVarint(n / 128));
    }
  }

  lemma {:induction false} VarintTail(d: seq<byte>)
    requires IsVarint(d) && |d| > 1
    ensures d[0] >= 128 && IsVarint(d[1..])
  {
  }

  // The first of several digits, and the last one.
  lemma FirstDigit(d: seq<byte>, limit: nat, post: seq<byte>)
    requires IsVarint(d) && |d| > 1 && limit > 0
    requires ReadDigits(d[1..] + post, limit - 1) == if |d| <= limit then Got(Digits(d[1..]), post) else Bad
    ensures ReadDigits(d + post, limit) == if |d| <= limit then Got(Digits(d), post) else Bad
  {
    VarintTail(d);
    assert (d + post)[1..] == d[1..] + post && (d + post)[0] == d[0];
  }

  lemma LastDigit(d: seq<byte>, limit: nat, post: seq<byte>)
    requires IsVarint(d) && |d| == 1 && limit > 0
    ensures ReadDigits(d + post, limit) == Got(Digits(d), post)
  {
    assert (d + post)[1..] == post && (d + post)[0] == d[0] && d[1..] == [];
  }

  lemma {:induction false} SpellingIsRead(d: seq<byte>, limit: nat, post: seq<byte>)
    requires IsVarint(d)
    ensures ReadDigits(d + post, limit) == if |d| <= limit then Got(Digits(d), post) else Bad
  {
    if limit > 0 {
      if |d| == 1 {
        LastDigit(d, limit, post);
      } else {
        VarintTail(d);
        SpellingIsRead(d[1..], limit - 1, post);
        FirstDigit(d, limit, post);
      }
    }
  }

  lemma ReadInTurn(bs: seq<byte>, limit: nat)
    requires ReadDigits(bs, limit).Got? && bs[0] >= 128
    ensures var r, t := ReadDigits(bs, limit), ReadDigits(bs[1..], limit - 1);
            t.Got? && r.rest == t.rest && r.value == bs[0] - 128 + 128 * t.value
  {
  }

  lemma {:induction false} ReadIsSpelled(bs: seq<byte>, limit: nat) returns (d: seq<byte>)
    requires ReadDigits(bs, limit).Got?
    ensures IsVarint(d) && |d| <= limit && bs == d + ReadDigits(bs, limit).rest
    ensures Digits(d) == ReadDigits(bs, limit).value
  {
    if bs[0] < 128 {
      d := [bs[0]];
      OneDigit(bs[0]);
    } else {
      ReadInTurn(bs, limit);
      var t := ReadIsSpelled(bs[1..], limit - 1);
      d := [bs[0]] + t;
      DigitInFront(bs[0], t);
      InFront(bs, t, ReadDigits(bs, limit).rest);
    }
  }

  lemma InFront(bs: seq<byte>, t: seq<byte>, rest: seq<byte>)
    requires bs != [] && bs[1..] == t + rest
    ensures bs == [bs[0]] + t + rest
  {
  }

  // Exactly the spellings of up to ten bytes are read, as the number they spell, cut to 64
  // bits, or to 32 for a tag.
  lemma {:induction false} VarintsReadExactly(bs: seq<byte>, n: uint64, rest: seq<byte>)
    ensures ReadVarint(bs) == Got(n, rest) <==>
            exists d :: IsVarint(d) && |d| <= 10 && bs == d + rest && n == Digits(d) % 0x1_0000_0000_0000_0000
  {
    if ReadVarint(bs) == Got(n, rest) {
      var d := ReadIsSpelled(bs, MAX_VARINT_BYTES);
    }
    forall d | IsVarint(d) && |d| <= 10 && bs == d + rest && n == Digits(d) % 0x1_0000_0000_0000_0000
      ensures ReadVarint(bs) == Got(n, rest)
    {
      SpellingIsRead(d, MAX_VARINT_BYTES, rest);
    }
  }

  lemma {:induction false} TagsReadExactly(bs: seq<byte>, tag: uint32, rest: seq<byte>)
    ensures ReadTag(bs) == Got(tag, rest) <==>
            exists d :: IsVarint(d) && |d| <= 10 && bs == d + rest && tag == Digits(d) % 0x1_0000_0000
  {
    if ReadTag(bs) == Got(tag, rest) {
      var d := ReadIsSpelled(bs, MAX_VARINT_BYTES);
    }
    forall d | IsVarint(d) && |d| <= 10 && bs == d + rest && tag == Digits(d) % 0x1_0000_0000
      ensures ReadTag(bs) == Got(tag, rest)
    {
      SpellingIsRead(d, MAX_VARINT_BYTES, rest);
    }
  }

  // ---------- 32-bit integers on the wire ----------

  // int32 and enum values are widened to 64 bits before they are encoded ...
  function SignExtend(v: int32): uint64
  {
    if v < 0 then v + 0x1_0000_0000_0000_0000 else v
  }

  // ... and cut back to 32 bits when they are read.
  function Truncate32(n: uint64): int32
  {
    var low := n % 0x1_0000_0000;
    if low < 0x8000_0000 then low else low - 0x1_0000_0000
  }

  function VarintSize32(n: uint32): nat
  {
    if n < 0x80 then 1
    else if n < 0x4000 then 2
    else if n < 0x20_0000 then 3
    else if n < 0x1000_0000 then 4
    else 5
  }

  function Int32Size(v: int32): nat
  {
    if v < 0 then 10 else VarintSize32(v)
  }

  function StringSize(s: Blob): nat
  {
    VarintSize32(|s|) + |s|
  }

  // A number of any size, cut to 64 bits and then to 32.
  function Cut32(a: nat): int32
  {
    Truncate32(a % 0x1_0000_0000_0000_0000)
  }

  lemma CutIsModular(a: nat)
    ensures (a - Cut32(a)) % 0x1_0000_0000 == 0
  {
    var n := a % 0x1_0000_0000_0000_0000;
    WidthsAreModular(0, n);
    MultiplesAdd(a - n, n - Truncate32(n), a / 0x1_0000_0000_0000_0000 * 0x1_0000_0000);
  }

  lemma MultiplesAdd(a: int, b: int, k: int)
    requires a == k * 0x1_0000_0000 && b % 0x1_0000_0000 == 0
    ensures (a + b) % 0x1_0000_0000 == 0
  {
  }

  // The size a message remembers is an int.
  function ToCachedSize(size: nat): int32
  {
    Cut32(size)
  }

  // It is the size exactly when the size fits, and in any case equal to it modulo 2^32.
  lemma CachedSizeExact(size: nat)
    ensures ToCachedSize(size) == size <==> size < 0x8000_0000
    ensures (size - ToCachedSize(size)) % 0x1_0000_0000 == 0
  {
    CutIsModular(size);
  }

  lemma VarintSizeExact(n: uint32)
    ensures |EncodeVarint(n)| == VarintSize32(n)
  {
    Pow128Values();
    VarintLength(n, 1);
    VarintLength(n, 2);
    VarintLength(n, 3);
    VarintLength(n, 4);
    VarintLength(n, 5);
  }

  // Ten bytes for every negative number.
  lemma Int32SizeExact(v: int32)
    ensures |EncodeVarint(SignExtend(v))| == Int32Size(v)
  {
    if v < 0 {
      VarintFits(SignExtend(v));
      Pow128Values();
      VarintLength(SignExtend(v), 9);
    } else {
      VarintSizeExact(v);
    }
  }

  lemma TruncateUndoesSignExtend(v: int32)
    ensures Truncate32(SignExtend(v)) == v
  {
  }

  // Widening keeps the value modulo 2^64 and cutting back keeps it modulo 2^32, whatever
  // is on the wire.
  lemma WidthsAreModular(v: int32, n: uint64)
    ensures (SignExtend(v) - v) % 0x1_0000_0000_0000_0000 == 0
    ensures (n - Truncate32(n)) % 0x1_0000_0000 == 0
    ensures -0x8000_0000 <= Truncate32(n) < 0x8000_0000
  {
    var low := n % 0x1_0000_0000;
    assert low - Truncate32(n) in {0, 0x1_0000_0000};
  }

  lemma Int32OnTheWire(v: int32, post: seq<byte>)
    ensures |EncodeVarint(SignExtend(v))| == Int32Size(v)
    ensures ReadVarint(EncodeVarint(SignExtend(v)) + post) == Got(SignExtend(v), post)
    ensures Truncate32(SignExtend(v)) == v
  {
    Int32SizeExact(v);
    VarintRoundTrip(SignExtend(v), post);
    TruncateUndoesSignExtend(v);
  }
}
