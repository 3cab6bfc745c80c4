/** Base 128 varints: size, encoding into a buffer and decoding from one, with 64-bit arithmetic. */
module Varints {
  import opened Basics

  const TWO_63: nat := 0x8000_0000_0000_0000
  const TWO_64: nat := 0x1_0000_0000_0000_0000

  datatype Error =
    | IntOverflow | UnexpectedEOF | InvalidLength | EndGroupForNonGroup | IllegalTag
    | WrongWireType | UnexpectedEndOfGroup | IllegalWireType

  // ---- Encoding ----

  /** The varint of a number: seven bits per byte, least significant first, the top bit set on all but the last byte. */
  function VarintBytes(v: nat): (bytes: seq<Byte>)
    ensures bytes != []
  {
    if v < 128 then [v] else [v % 128 + 128] + VarintBytes(v / 128)
  }

  /** The number of bits needed to write a number. */
  function BitLength(x: nat): nat {
    if x == 0 then 0 else 1 + BitLength(x / 2)
  }

  /** The size of a varint, computed from the bit length of `x | 1`. */
  function Sov(x: nat): nat {
    (BitLength(if x % 2 == 0 then x + 1 else x) + 6) / 7
  }

  lemma BitLengthShift(x: nat)
    requires x >= 128
    ensures BitLength(x) == BitLength(x / 128) + 7
  {
    assert x / 2 / 2 / 2 / 2 / 2 / 2 / 2 == x / 128;
    assert BitLength(x) == BitLength(x / 2) + 1;
    assert BitLength(x / 2) == BitLength(x / 2 / 2) + 1;
    assert BitLength(x / 2 / 2) == BitLength(x / 2 / 2 / 2) + 1;
    assert BitLength(x / 2 / 2 / 2) == BitLength(x / 2 / 2 / 2 / 2) + 1;
    assert BitLength(x / 2 / 2 / 2 / 2) == BitLength(x / 2 / 2 / 2 / 2 / 2) + 1;
    assert BitLength(x / 2 / 2 / 2 / 2 / 2) == BitLength(x / 2 / 2 / 2 / 2 / 2 / 2) + 1;
    assert BitLength(x / 2 / 2 / 2 / 2 / 2 / 2) == BitLength(x / 2 / 2 / 2 / 2 / 2 / 2 / 2) + 1;
  }

  lemma BitLengthSmall(x: nat)
    requires 0 < x < 128
    ensures 1 <= BitLength(x) <= 7
  {
    assert x / 2 < 64 && x / 2 / 2 < 32 && x / 2 / 2 / 2 < 16 && x / 2 / 2 / 2 / 2 < 8;
    assert x / 2 / 2 / 2 / 2 / 2 < 4 && x / 2 / 2 / 2 / 2 / 2 / 2 < 2 && x / 2 / 2 / 2 / 2 / 2 / 2 / 2 == 0;
    BitLengthStep(x);
    BitLengthStep(x / 2);
    BitLengthStep(x / 2 / 2);
    BitLengthStep(x / 2 / 2 / 2);
    BitLengthStep(x / 2 / 2 / 2 / 2);
    BitLengthStep(x / 2 / 2 / 2 / 2 / 2);
    BitLengthStep(x / 2 / 2 / 2 / 2 / 2 / 2);
  }

  lemma BitLengthStep(x: nat)
    ensures BitLength(x) <= BitLength(x / 2) + 1
  {
  }

  /** The low bit does not matter to the length of a number above one. */
  lemma LowBit(x: nat)
    requires x >= 1
    ensures BitLength(if x % 2 == 0 then x + 1 else x) == BitLength(x)
  {
    assert (x + 1) / 2 == x / 2 || x % 2 == 1;
  }

  lemma SovSmall(v: nat)
    requires v < 128
    ensures Sov(v) == 1
  {
    BitLengthSmall(if v % 2 == 0 then v + 1 else v);
  }

  lemma SovShift(v: nat)
    requires v >= 128
    ensures Sov(v) == Sov(v / 128) + 1
  {
    LowBit(v);
    BitLengthShift(v);
    LowBit(v / 128);
  }

  /** The size formula is the length of the encoding. */
  lemma {:induction false} SovIsLength(v: nat)
    ensures Sov(v) == |VarintBytes(v)|
  {
    if v < 128 {
      SovSmall(v);
    } else {
      SovShift(v);
      SovIsLength(v / 128);
    }
  }

  /** The number written with the low seven bits of some bytes, least significant first. */
  ghost function Base128(bytes: seq<Byte>): nat {
    if bytes == [] then 0 else bytes[0] % 128 + 128 * Base128(bytes[1..])
  }

  /** A varint has the number in base 128, marks every byte but the last, and does not end in a needless zero. */
  lemma {:induction false} VarintMeans(v: nat)
    ensures var bytes := VarintBytes(v);
            && Base128(bytes) == v && bytes[|bytes| - 1] < 128 && (|bytes| > 1 ==> bytes[|bytes| - 1] > 0)
            && forall i | 0 <= i < |bytes| - 1 :: bytes[i] >= 128
  {
    if v >= 128 {
      VarintMeans(v / 128);
      var bytes, rest := VarintBytes(v), VarintBytes(v / 128);
      assert bytes[1..] == rest && bytes[|bytes| - 1] == rest[|rest| - 1];
    } else {
      assert Base128([v]) == v;
    }
  }

  // ---- Writing into a buffer ----

  ghost predicate ByteWritten(was: seq<Byte>, now: seq<Byte>, i: nat, bytes: seq<Byte>, k: int) {
    0 <= k < |was| && k < |now| ==> now[k] == if i <= k < i + |bytes| then bytes[k - i] else was[k]
  }

  /** A buffer has some bytes written at index `i`, and nothing else changed. */
  ghost predicate Written(was: seq<Byte>, now: seq<Byte>, i: nat, bytes: seq<Byte>) {
    i + |bytes| <= |was| == |now| && forall k :: ByteWritten(was, now, i, bytes, k)
  }

  lemma NothingWritten(s: seq<Byte>, i: nat)
    requires i <= |s|
    ensures Written(s, s, i, [])
  {
    forall k ensures ByteWritten(s, s, i, [], k) {
    }
  }

  /** One more byte behind bytes written before. */
  lemma WrittenBehind(was: seq<Byte>, mid: seq<Byte>, now: seq<Byte>, i: nat, bytes: seq<Byte>, b: Byte)
    requires Written(was, mid, i, bytes) && i + |bytes| < |was| && now == mid[i + |bytes| := b]
    ensures Written(was, now, i, bytes + [b])
  {
    forall k ensures ByteWritten(was, now, i, bytes + [b], k) {
      assert ByteWritten(was, mid, i, bytes, k);
    }
  }

  /** One more byte in front of bytes written before. */
  lemma WrittenBefore(was: seq<Byte>, mid: seq<Byte>, now: seq<Byte>, i: nat, bytes: seq<Byte>, b: Byte)
    requires Written(was, mid, i + 1, bytes) && now == mid[i := b]
    ensures Written(was, now, i, [b] + bytes)
  {
    forall k ensures ByteWritten(was, now, i, [b] + bytes, k) {
      assert ByteWritten(was, mid, i + 1, bytes, k);
    }
  }

  /** Writing in front of bytes written before. */
  lemma WrittenJoin(was: seq<Byte>, mid: seq<Byte>, now: seq<Byte>, i: nat, a: seq<Byte>, b: seq<Byte>)
    requires Written(was, mid, i + |a|, b) && Written(mid, now, i, a)
    ensures Written(was, now, i, a + b)
  {
    forall k ensures ByteWritten(was, now, i, a + b, k) {
      assert ByteWritten(was, mid, i + |a|, b, k) && ByteWritten(mid, now, i, a, k);
    }
  }

  lemma AllWritten(was: seq<Byte>, now: seq<Byte>, bytes: seq<Byte>)
    requires Written(was, now, 0, bytes) && |bytes| == |was|
    ensures now == bytes
  {
    forall k | 0 <= k < |now| ensures now[k] == bytes[k] {
      assert ByteWritten(was, now, 0, bytes, k);
    }
  }

  /** Write a varint so that it ends at `offset`; nothing else changes. */
  method EncodeVarint(dAtA: array<Byte>, offset: nat, v: nat) returns (base: nat)
    requires Sov(v) <= offset <= dAtA.Length
    modifies dAtA
    ensures base == offset - |VarintBytes(v)| && Written(old(dAtA[..]), dAtA[..], base, VarintBytes(v))
  {
    SovIsLength(v);
    base := offset - Sov(v);
    var o, rest := base, v;
    ghost var was: seq<Byte>, written: seq<Byte> := dAtA[..], [];
    NothingWritten(was, base);
    while rest >= 128
      invariant o == base + |written| && written + VarintBytes(rest) == VarintBytes(v)
      invariant Written(was, dAtA[..], base, written)
      decreases rest
    {
      var b: Byte := rest % 128 + 128;
      Regroup(written, [b], VarintBytes(rest / 128));
      ghost var before := dAtA[..];
      dAtA[o] := b;
      WrittenBehind(was, before, dAtA[..], base, written, b);
      written := written + [b];
      rest := rest / 128;
      o := o + 1;
    }
    ghost var before := dAtA[..];
    dAtA[o] := rest;
    WrittenBehind(was, before, dAtA[..], base, written, rest);
  }

  // ---- Decoding ----

  /** A decoded varint and the number of bytes it took. */
  datatype Varint = Varint(value: nat, size: nat) | BadVarint(error: Error)

  /** The weight of the bits in byte `k`. */
  function Weight(k: nat): nat { if k == 0 then 1 else 128 * Weight(k - 1) }

  /**
   The contribution of byte `k`, shifted left by seven bits `k` times in a 64-bit word: of the tenth byte one bit
   stays.
   */
  function Shifted(b: Byte, k: nat): nat { if k == 0 then b % 128 else (128 * Shifted(b, k - 1)) % TWO_64 }

  /** Decode the rest of a varint after `k` bytes have contributed `acc`. */
  function ReadVarint(s: seq<Byte>, k: nat, acc: nat): Varint
    decreases |s|
  {
    if k >= 10 then BadVarint(IntOverflow)
    else if s == [] then BadVarint(UnexpectedEOF)
    else
      var next := acc + Shifted(s[0], k);
      if s[0] < 128 then Varint(next, k + 1) else ReadVarint(s[1..], k + 1, next)
  }

  function DecodeVarint(s: seq<Byte>): Varint { ReadVarint(s, 0, 0) }

  lemma WeightNine()
    ensures Weight(9) == TWO_63
  {
    WeightEight();
  }

  lemma {:induction false} WeightGrows(j: nat, k: nat)
    requires j <= k
    ensures 0 < Weight(j) <= Weight(k)
  {
    if j < k {
      WeightGrows(j, k - 1);
    } else if k > 0 {
      WeightGrows(k - 1, k - 1);
    }
  }

  /** A number that still has high bits fits into 64 bits only in the first nine bytes. */
  lemma RoomLeft(w: nat, k: nat)
    requires w >= 2 && w * Weight(k) < TWO_64
    ensures k < 9
  {
    if k >= 9 {
      WeightNine();
      WeightGrows(9, k);
      assert w * Weight(k) >= 2 * Weight(k) by {
        MulMono(2, w, Weight(k));
      }
    }
  }

  lemma MulMono(a: nat, b: nat, c: nat)
    requires a <= b
    ensures a * c <= b * c
  {
    assert b * c == a * c + (b - a) * c;
  }

  lemma SplitWeight(w: nat, k: nat)
    ensures w * Weight(k) == w % 128 * Weight(k) + w / 128 * Weight(k + 1)
  {
    var q, r, c := w / 128, w % 128, Weight(k);
    assert Weight(k + 1) == 128 * c;
    Distribute(q, r, c);
  }

  lemma Distribute(q: nat, r: nat, c: nat)
    ensures (128 * q + r) * c == r * c + q * (128 * c)
  {
  }

  lemma {:induction false} ShiftedExact(b: Byte, k: nat, p: nat)
    requires p == b % 128 * Weight(k) && p < TWO_64
    ensures Shifted(b, k) == p
  {
    if k > 0 {
      var q := b % 128 * Weight(k - 1);
      TimesWeight(b % 128, k);
      ShiftedExact(b, k - 1, q);
      Truncated(128 * q, 0, p);
    }
  }

  lemma TimesWeight(x: nat, k: nat)
    requires k > 0
    ensures x * Weight(k) == 128 * (x * Weight(k - 1))
    ensures 0 <= x * Weight(k - 1) <= x * Weight(k)
  {
    Reorder(x, Weight(k - 1));
    MulNonNegative(x, Weight(k - 1));
  }

  lemma Reorder(x: nat, w: nat)
    ensures x * (128 * w) == 128 * (x * w)
  {
  }

  lemma ReadOne(b: Byte, rest: seq<Byte>, k: nat, acc: nat, p: nat)
    requires k <= 9 && p == b % 128 * Weight(k) && p < TWO_64
    ensures ReadVarint([b] + rest, k, acc) == if b < 128 then Varint(acc + p, k + 1)
            else ReadVarint(rest, k + 1, acc + p)
  {
    ShiftedExact(b, k, p);
    assert ([b] + rest)[0] == b && ([b] + rest)[1..] == rest;
  }

  /** Reading a varint anywhere in its bytes finishes with the number and consumes exactly its bytes. */
  lemma {:induction false} ReadBack(w: nat, rest: seq<Byte>, k: nat, acc: nat, p: nat)
    requires k <= 9 && p == w * Weight(k) && acc + p < TWO_64
    ensures ReadVarint(VarintBytes(w) + rest, k, acc) == Varint(acc + p, k + |VarintBytes(w)|)
    decreases w
  {
    if w < 128 {
      ReadOne(w, rest, k, acc, p);
    } else {
      var low, high := w % 128 * Weight(k), w / 128 * Weight(k + 1);
      SplitWeight(w, k);
      MulNonNegative(w % 128, Weight(k));
      MulNonNegative(w / 128, Weight(k + 1));
      RoomLeft(w, k);
      ReadOneMore(w, rest, k, acc, low);
      ReadBack(w / 128, rest, k + 1, acc + low, high);
    }
  }

  lemma ReadOneMore(w: nat, rest: seq<Byte>, k: nat, acc: nat, low: nat)
    requires w >= 128 && k <= 9 && low == w % 128 * Weight(k) && low < TWO_64
    ensures ReadVarint(VarintBytes(w) + rest, k, acc) == ReadVarint(VarintBytes(w / 128) + rest, k + 1, acc + low)
  {
    var b := w % 128 + 128;
    assert b % 128 == w % 128;
    assert VarintBytes(w) + rest == [b] + (VarintBytes(w / 128) + rest);
    ReadOne(b, VarintBytes(w / 128) + rest, k, acc, low);
  }

  lemma MulNonNegative(a: nat, b: nat)
    ensures a * b >= 0
  {
  }

  /** Decoding undoes encoding and leaves the rest of the buffer alone. */
  lemma VarintRoundTrip(v: nat, rest: seq<Byte>)
    requires v < TWO_64
    ensures DecodeVarint(VarintBytes(v) + rest) == Varint(v, |VarintBytes(v)|)
  {
    ReadBack(v, rest, 0, 0, v);
  }

  // ---- Bits that are or-ed into a word ----

  function BitOr(a: nat, b: nat): nat
    decreases a + b
  {
    if a == 0 && b == 0 then 0 else 2 * BitOr(a / 2, b / 2) + if a % 2 == 1 || b % 2 == 1 then 1 else 0
  }

  function Pow2(n: nat): nat { if n == 0 then 1 else 2 * Pow2(n - 1) }

  lemma {:induction false} BitOrZero(a: nat)
    ensures BitOr(0, a) == a
  {
    if a > 0 {
      BitOrZero(a / 2);
    }
  }

  /** Or-ing a multiple of a power of two into a number below it adds the two. */
  lemma {:induction false} BitOrAbove(a: nat, q: nat, n: nat, c: nat)
    requires a < Pow2(n) && c == q * Pow2(n)
    ensures BitOr(a, c) == a + c
  {
    if n == 0 {
      BitOrZero(c);
    } else {
      Reorder2(q, Pow2(n - 1));
      BitOrAbove(a / 2, q, n - 1, q * Pow2(n - 1));
    }
  }

  lemma Reorder2(x: nat, w: nat)
    ensures x * (2 * w) == 2 * (x * w) && x * w >= 0
  {
  }

  lemma {:induction false} WeightIsPower(k: nat)
    ensures Weight(k) == Pow2(7 * k)
  {
    if k > 0 {
      WeightIsPower(k - 1);
      SevenBits(7 * (k - 1));
    }
  }

  lemma SevenBits(n: nat)
    ensures Pow2(n + 7) == 128 * Pow2(n)
  {
    assert Pow2(n + 1) == 2 * Pow2(n);
    assert Pow2(n + 2) == 2 * Pow2(n + 1);
    assert Pow2(n + 3) == 2 * Pow2(n + 2);
    assert Pow2(n + 4) == 2 * Pow2(n + 3);
    assert Pow2(n + 5) == 2 * Pow2(n + 4);
    assert Pow2(n + 6) == 2 * Pow2(n + 5);
    assert Pow2(n + 7) == 2 * Pow2(n + 6);
  }

  /** The bits of byte `k` that stay in a 64-bit word. */
  function Kept(b: Byte, k: nat): nat { if k < 9 then b % 128 else b % 2 }

  /** The contribution of byte `k` is a multiple of the weight of that byte and leaves room below the next one. */
  lemma ShiftedBound(b: Byte, k: nat)
    requires k <= 9
    ensures Shifted(b, k) == Kept(b, k) * Weight(k)
    ensures Shifted(b, k) + Weight(k) <= if k < 9 then Weight(k + 1) else TWO_64
  {
    WeightNine();
    WeightGrows(k, k);
    if k < 9 {
      WeightGrows(k + 1, 9);
      MulMono(b % 128, 127, Weight(k));
      assert Weight(k + 1) == 127 * Weight(k) + Weight(k);
      ShiftedExact(b, k, b % 128 * Weight(k));
    } else {
      TopBit(b);
    }
  }

  /** Or-ing byte `k` into what the bytes before it gave is adding it, and the sum fits in 64 bits. */
  lemma OrIsAdd(b: Byte, k: nat, acc: nat)
    requires k <= 9 && acc < Weight(k)
    ensures BitOr(acc, Shifted(b, k)) == acc + Shifted(b, k) < if k < 9 then Weight(k + 1) else TWO_64
  {
    ShiftedBound(b, k);
    WeightIsPower(k);
    BitOrAbove(acc, Kept(b, k), 7 * k, Shifted(b, k));
  }

  /** Of the tenth byte only the lowest bit stays in the word. */
  lemma TopBit(b: Byte)
    ensures Shifted(b, 9) == b % 2 * TWO_63
  {
    WeightEight();
    var bits: nat, x := b % 128, 128 * Shifted(b, 8);
    ShiftedExact(b, 8, bits * 0x100_0000_0000_0000);
    assert x == bits * TWO_63;
    Parity(b);
    Truncated(x, bits / 2, bits % 2 * TWO_63);
  }

  lemma Parity(b: Byte)
    ensures b % 128 % 2 == b % 2
  {
  }

  lemma Truncated(x: nat, above: nat, r: nat)
    requires x == above * TWO_64 + r && r < TWO_64
    ensures x % TWO_64 == r
  {
  }

  lemma WeightEight()
    ensures Weight(8) == 0x100_0000_0000_0000
  {
    assert Weight(1) == 128 && Weight(2) == 128 * 128 && Weight(3) == 128 * 128 * 128;
    assert Weight(4) == 0x1000_0000 && Weight(5) == 0x8_0000_0000 && Weight(6) == 0x400_0000_0000;
  }

  lemma {:induction false} ReadVarintSize(s: seq<Byte>, k: nat, acc: nat)
    requires ReadVarint(s, k, acc).Varint?
    ensures k < ReadVarint(s, k, acc).size <= k + |s|
    decreases |s|
  {
    if s[0] >= 128 {
      ReadVarintSize(s[1..], k + 1, acc + Shifted(s[0], k));
    }
  }

  /** A varint that can be read is read the same whatever follows it. */
  lemma {:induction false} ReadVarintPrefix(s: seq<Byte>, rest: seq<Byte>, k: nat, acc: nat)
    requires ReadVarint(s, k, acc).Varint?
    ensures ReadVarint(s + rest, k, acc) == ReadVarint(s, k, acc)
    decreases |s|
  {
    assert (s + rest)[0] == s[0];
    if s[0] >= 128 {
      assert (s + rest)[1..] == s[1..] + rest;
      ReadVarintPrefix(s[1..], rest, k + 1, acc + Shifted(s[0], k));
    }
  }

  /** The decoding loop over a buffer. */
  method DecodeVarintAt(dAtA: seq<Byte>, index: nat) returns (r: Varint)
    requires index <= |dAtA|
    ensures r == DecodeVarint(dAtA[index..])
    ensures r.Varint? ==> r.value < TWO_64
  {
    var k: nat, value: nat := 0, 0;
    while true
      invariant index + k <= |dAtA|
      invariant k < 10 ==> value < Weight(k)
      invariant ReadVarint(dAtA[index + k..], k, value) == DecodeVarint(dAtA[index..])
      decreases |dAtA| - k
    {
      if 7 * k >= 64 {
        return BadVarint(IntOverflow);
      }
      if index + k >= |dAtA| {
        return BadVarint(UnexpectedEOF);
      }
      var b := dAtA[index + k];
      OrIsAdd(b, k, value);
      WeightBelowWord(k);
      value := BitOr(value, Shifted(b, k));
      k := k + 1;
      if b < 128 {
        return Varint(value, k);
      }
      assert dAtA[index + k - 1..][1..] == dAtA[index + k..];
    }
  }

  lemma WeightBelowWord(k: nat)
    requires k <= 9
    ensures k < 9 ==> Weight(k + 1) < TWO_64
  {
    WeightNine();
    if k < 9 {
      WeightGrows(k + 1, 9);
    }
  }
}
