/** The three running checksums of the firmware, and why each of them notices any change confined to one byte. */
module Checksums {
  import opened Basics
  import opened Bytes

  function Fold<S>(step: (S, Byte) -> S, state: S, data: seq<Byte>): S {
    if data == [] then state else step(Fold(step, state, data[..|data| - 1]), data[|data| - 1])
  }

  lemma {:induction false} FoldAppend<S>(step: (S, Byte) -> S, state: S, x: seq<Byte>, y: seq<Byte>)
    ensures Fold(step, state, x + y) == Fold(step, Fold(step, state, x), y)
  {
    if y == [] {
      assert x + y == x;
    } else {
      FoldAppend(step, state, x, y[..|y| - 1]);
      assert (x + y)[..|x + y| - 1] == x + y[..|y| - 1];
    }
  }

  /** A step loses nothing: neither the state before it nor the byte fed to it. */
  ghost predicate Injective<S(!new)>(step: (S, Byte) -> S) {
    && (forall s, t, b :: step(s, b) == step(t, b) ==> s == t)
    && (forall s, b, c :: step(s, b) == step(s, c) ==> b == c)
  }

  ghost predicate DifferOnlyAt(x: seq<Byte>, y: seq<Byte>, k: nat) {
    && |x| == |y| && k < |x| && x[k] != y[k]
    && forall j :: 0 <= j < |x| && j != k ==> x[j] == y[j]
  }

  /** Two inputs that differ in one byte never have the same checksum. */
  lemma {:induction false} OneByteChangeShows<S(!new)>(step: (S, Byte) -> S, state: S, x: seq<Byte>,
                                                           y: seq<Byte>, k: nat)
    requires Injective(step) && DifferOnlyAt(x, y, k)
    ensures Fold(step, state, x) != Fold(step, state, y)
  {
    var m := |x| - 1;
    if k < m {
      OneByteChangeShows(step, state, x[..m], y[..m], k);
    } else {
      assert x[..m] == y[..m];
    }
  }

  // ---- CRC-32, reflected, polynomial 0xEDB88320 ----

  function Crc32Bit(crc: bv32): bv32 {
    (crc >> 1) ^ (0xedb88320 & (0 - (crc & 1)))
  }

  function Crc32Bits(crc: bv32, n: nat): bv32 {
    if n == 0 then crc else Crc32Bit(Crc32Bits(crc, n - 1))
  }

  function Crc32Byte(crc: bv32, b: Byte): bv32 {
    Crc32Bits(crc ^ (b as bv32), 8)
  }

  lemma Crc32BitInjective(x: bv32, y: bv32)
    requires Crc32Bit(x) == Crc32Bit(y)
    ensures x == y
  {
  }

  lemma {:induction false} Crc32BitsInjective(x: bv32, y: bv32, n: nat)
    requires Crc32Bits(x, n) == Crc32Bits(y, n)
    ensures x == y
  {
    if n == 0 {
    } else {
      Crc32BitInjective(Crc32Bits(x, n - 1), Crc32Bits(y, n - 1));
      Crc32BitsInjective(x, y, n - 1);
    }
  }

  lemma Crc32ByteInjective(s: bv32, t: bv32, b: Byte, c: Byte)
    requires Crc32Byte(s, b) == Crc32Byte(t, c)
    ensures b == c ==> s == t
    ensures s == t ==> b == c
  {
    hide Crc32Bits;
    Crc32BitsInjective(s ^ (b as bv32), t ^ (c as bv32), 8);
    XorInjective32(s, t, b, c);
  }

  lemma XorInjective32(s: bv32, t: bv32, b: Byte, c: Byte)
    requires s ^ (b as bv32) == t ^ (c as bv32)
    ensures b == c ==> s == t
    ensures s == t ==> b == c
  {
  }

  lemma Crc32Injective()
    ensures Injective(Crc32Byte)
  {
    hide Crc32Byte;
    forall s: bv32, t: bv32, b: Byte | Crc32Byte(s, b) == Crc32Byte(t, b)
      ensures s == t
    {
      Crc32ByteInjective(s, t, b, b);
    }
    forall s: bv32, b: Byte, c: Byte | Crc32Byte(s, b) == Crc32Byte(s, c)
      ensures b == c
    {
      Crc32ByteInjective(s, s, b, c);
    }
  }

  // ---- CRC-8, polynomial 0x07 ----

  function Crc8Bit(crc: Byte): Byte {
    if crc & 0x80 != 0 then (crc << 1) ^ 0x07 else crc << 1
  }

  function Crc8Bits(crc: Byte, n: nat): Byte {
    if n == 0 then crc else Crc8Bit(Crc8Bits(crc, n - 1))
  }

  function Crc8Byte(crc: Byte, b: Byte): Byte {
    Crc8Bits(crc ^ b, 8)
  }

  lemma Crc8BitInjective(x: Byte, y: Byte)
    requires Crc8Bit(x) == Crc8Bit(y)
    ensures x == y
  {
  }

  lemma {:induction false} Crc8BitsInjective(x: Byte, y: Byte, n: nat)
    requires Crc8Bits(x, n) == Crc8Bits(y, n)
    ensures x == y
  {
    if n == 0 {
    } else {
      Crc8BitInjective(Crc8Bits(x, n - 1), Crc8Bits(y, n - 1));
      Crc8BitsInjective(x, y, n - 1);
    }
  }

  lemma Crc8Injective()
    ensures Injective(Crc8Byte)
  {
    forall s: Byte, t: Byte, b: Byte | Crc8Byte(s, b) == Crc8Byte(t, b)
      ensures s == t
    {
      Crc8BitsInjective(s ^ b, t ^ b, 8);
    }
    forall s: Byte, b: Byte, c: Byte | Crc8Byte(s, b) == Crc8Byte(s, c)
      ensures b == c
    {
      Crc8BitsInjective(s ^ b, s ^ c, 8);
    }
  }

  // ---- FNV-1a, 32 bits ----

  /** `hash ^= byte` reaches only the low eight bits of the hash. */
  function FnvXor(hash: nat, b: Byte): nat {
    256 * (hash / 256) + Value(ToByte(hash % 256) ^ b)
  }

  function FnvMultiply(hash: nat): nat {
    hash * 16777619 % TWO_32
  }

  function FnvByte(hash: nat, b: Byte): nat {
    FnvMultiply(FnvXor(hash, b))
  }

  /** 899433627 is the inverse of the FNV prime modulo 2^32, so multiplying by the prime loses nothing. */
  lemma FnvMultiplyInvertible(x: nat)
    requires x < TWO_32
    ensures FnvMultiply(x) * 899433627 % TWO_32 == x
  {
    var q, r := x * 16777619 / 0x1_0000_0000, x * 16777619 % 0x1_0000_0000;
    assert r == x * 16777619 - q * 0x1_0000_0000;
    assert 16777619 * 899433627 == 1 + 3513497 * 0x1_0000_0000;
    assert r * 899433627 == x + 0x1_0000_0000 * (3513497 * x - 899433627 * q);
    ModUnique(r * 899433627, 3513497 * x - 899433627 * q, x);
  }

  lemma ModUnique(n: int, q: int, r: int)
    requires n == r + 0x1_0000_0000 * q && 0 <= r < 0x1_0000_0000
    ensures n % 0x1_0000_0000 == r
  {
  }

  lemma FnvXorInjective(s: nat, t: nat, b: Byte, c: Byte)
    requires FnvXor(s, b) == FnvXor(t, c)
    ensures b == c ==> s == t
    ensures s == t ==> b == c
  {
    hide Value, ToByte;
    var p, q := ToByte(s % 256) ^ b, ToByte(t % 256) ^ c;
    ToByteOfValue(p);
    ToByteOfValue(q);
    ValueOfToByte(s % 256);
    ValueOfToByte(t % 256);
    XorInjective8(ToByte(s % 256), ToByte(t % 256), p, q, b, c);
  }

  lemma XorInjective8(s: Byte, t: Byte, p: Byte, q: Byte, b: Byte, c: Byte)
    requires p == s ^ b && q == t ^ c
    ensures p == q && b == c ==> s == t
    ensures p == q && s == t ==> b == c
  {
  }

  lemma FnvXorBound(hash: nat, b: Byte)
    requires hash < TWO_32
    ensures FnvXor(hash, b) < TWO_32
  {
    hide Value;
    ToByteOfValue(ToByte(hash % 256) ^ b);
  }

  /** The hash of any input stays below 2^32. */
  type Hash = h: nat | h < TWO_32 witness 0

  function FnvStep(hash: Hash, b: Byte): Hash {
    FnvByte(hash, b)
  }

  lemma FnvStepInjective(s: Hash, t: Hash, b: Byte, c: Byte)
    requires FnvStep(s, b) == FnvStep(t, c)
    ensures b == c ==> s == t
    ensures s == t ==> b == c
  {
    hide FnvXor, FnvMultiply;
    FnvXorBound(s, b);
    FnvXorBound(t, c);
    FnvMultiplyInvertible(FnvXor(s, b));
    FnvMultiplyInvertible(FnvXor(t, c));
    FnvXorInjective(s, t, b, c);
  }

  lemma FnvInjective()
    ensures Injective(FnvStep)
  {
    hide FnvStep;
    forall s: Hash, t: Hash, b: Byte | FnvStep(s, b) == FnvStep(t, b)
      ensures s == t
    {
      FnvStepInjective(s, t, b, b);
    }
    forall s: Hash, b: Byte, c: Byte | FnvStep(s, b) == FnvStep(s, c)
      ensures b == c
    {
      FnvStepInjective(s, s, b, c);
    }
  }

  // ---- check values ----

  /** The nine digits that published check values are about. */
  const DIGITS: seq<Byte> := [0x31, 0x32, 0x33, 0x34, 0x35, 0x36, 0x37, 0x38, 0x39]

  /** One state after another. */
  lemma {:induction false} FoldIs<S>(step: (S, Byte) -> S, data: seq<Byte>, states: seq<S>)
    requires |states| == |data| + 1
    requires forall i :: 0 <= i < |data| ==> step(states[i], data[i]) == states[i + 1]
    ensures Fold(step, states[0], data) == states[|data|]
  {
    if data == [] {
    } else {
      FoldIs(step, data[..|data| - 1], states[..|data|]);
    }
  }

  function Crc32Eight(crc: bv32): bv32 {
    var half := Crc32Bit(Crc32Bit(Crc32Bit(Crc32Bit(crc))));
    Crc32Bit(Crc32Bit(Crc32Bit(Crc32Bit(half))))
  }

  lemma Crc32ByteIs(crc: bv32, b: Byte, next: bv32)
    requires Crc32Eight(crc ^ (b as bv32)) == next
    ensures Crc32Byte(crc, b) == next
  {
    hide Crc32Bit;
    var x := crc ^ (b as bv32);
    assert Crc32Bits(x, 1) == Crc32Bit(Crc32Bits(x, 0)) == Crc32Bit(x);
    assert Crc32Bits(x, 2) == Crc32Bit(Crc32Bits(x, 1));
    assert Crc32Bits(x, 4) == Crc32Bit(Crc32Bit(Crc32Bits(x, 2)));
    assert Crc32Bits(x, 6) == Crc32Bit(Crc32Bit(Crc32Bits(x, 4)));
    assert Crc32Bits(x, 8) == Crc32Bit(Crc32Bit(Crc32Bits(x, 6)));
  }

  /** The published check value of CRC-32. */
  lemma Crc32CheckValue()
    ensures !Fold(Crc32Byte, 0xffffffff, DIGITS) == 0xcbf43926
  {
    Crc32ByteIs(0xffffffff, 0x31, 0x7c231048);
    Crc32ByteIs(0x7c231048, 0x32, 0xb0acbb32);
    Crc32ByteIs(0xb0acbb32, 0x33, 0x77b79c2d);
    Crc32ByteIs(0x77b79c2d, 0x34, 0x641c1f5c);
    Crc32ByteIs(0x641c1f5c, 0x35, 0x340ac5e3);
    Crc32ByteIs(0x340ac5e3, 0x36, 0xf68d2c9e);
    Crc32ByteIs(0xf68d2c9e, 0x37, 0xaffc9660);
    Crc32ByteIs(0xaffc9660, 0x38, 0x651f2550);
    Crc32ByteIs(0x651f2550, 0x39, 0x340bc6d9);
    hide Crc32Byte;
    FoldIs(Crc32Byte, DIGITS, [0xffffffff, 0x7c231048, 0xb0acbb32, 0x77b79c2d, 0x641c1f5c,
                               0x340ac5e3, 0xf68d2c9e, 0xaffc9660, 0x651f2550, 0x340bc6d9]);
  }

  /** The published check value of CRC-8. */
  lemma Crc8CheckValue()
    ensures Fold(Crc8Byte, 0, DIGITS) == 0xf4
  {
    assert Crc8Byte(0x00, 0x31) == 0x97;
    assert Crc8Byte(0x97, 0x32) == 0x72;
    assert Crc8Byte(0x72, 0x33) == 0xc0;
    assert Crc8Byte(0xc0, 0x34) == 0xc2;
    assert Crc8Byte(0xc2, 0x35) == 0xcb;
    assert Crc8Byte(0xcb, 0x36) == 0xfd;
    assert Crc8Byte(0xfd, 0x37) == 0x78;
    assert Crc8Byte(0x78, 0x38) == 0xc7;
    assert Crc8Byte(0xc7, 0x39) == 0xf4;
    hide Crc8Byte;
    FoldIs(Crc8Byte, DIGITS, [0x00, 0x97, 0x72, 0xc0, 0xc2, 0xcb, 0xfd, 0x78, 0xc7, 0xf4]);
  }

  /** The published FNV-1a hash of the letter a. */
  lemma FnvCheckValue()
    ensures Fold(FnvStep, 2166136261, [0x61]) == 0xe40c292c
  {
    LowByte();
    hide Value, ToByte, FnvXor;
    FoldIs(FnvStep, [0x61], [2166136261, 0xe40c292c]);
  }

  lemma LowByte()
    ensures FnvXor(2166136261, 0x61) == 2166136228
  {
    ByteNumber(0xc5, 197);
    assert Value(0xa4) == 164;
    hide Value, ToByte;
    assert 2166136261 == 256 * 8461469 + 197;
    assert (0xc5 as Byte) ^ 0x61 == 0xa4;
  }

  lemma ByteNumber(b: Byte, n: nat)
    requires Value(b) == n
    ensures ToByte(n) == b
  {
    hide Value, ToByte;
    ToByteOfValue(b);
  }
}
