/** Bytes as bit vectors, the numbers they stand for, and little-endian numbers of several bytes. */
module Bytes {
  import opened Basics

  type Byte = bv8

  // ---- bits, least significant first ----

  function Join(bits: seq<bool>): nat {
    if bits == [] then 0 else (if bits[0] then 1 else 0) + 2 * Join(bits[1..])
  }

  function Split(n: nat, k: nat): (bits: seq<bool>)
    ensures |bits| == k
  {
    if k == 0 then [] else [n % 2 == 1] + Split(n / 2, k - 1)
  }

  function Pow2(k: nat): (p: nat)
    ensures p > 0
  {
    if k == 0 then 1 else 2 * Pow2(k - 1)
  }

  lemma {:induction false} JoinSplit(n: nat, k: nat)
    requires n < Pow2(k)
    ensures Join(Split(n, k)) == n
  {
    if k == 0 {
    } else {
      JoinSplit(n / 2, k - 1);
      assert Split(n, k)[1..] == Split(n / 2, k - 1);
    }
  }

  lemma {:induction false} SplitJoin(bits: seq<bool>)
    ensures Split(Join(bits), |bits|) == bits
    ensures Join(bits) < Pow2(|bits|)
  {
    if bits == [] {
    } else {
      SplitJoin(bits[1..]);
    }
  }

  // ---- one byte ----

  function BitsOf(b: Byte): seq<bool> {
    [b & 1 != 0, b & 2 != 0, b & 4 != 0, b & 8 != 0, b & 16 != 0, b & 32 != 0, b & 64 != 0, b & 128 != 0]
  }

  function Mask(on: bool, bits: Byte): Byte {
    if on then bits else 0
  }

  function OfBits(s: seq<bool>): Byte
    requires |s| == 8
  {
    Mask(s[0], 1) | Mask(s[1], 2) | Mask(s[2], 4) | Mask(s[3], 8) |
    Mask(s[4], 16) | Mask(s[5], 32) | Mask(s[6], 64) | Mask(s[7], 128)
  }

  lemma BitsRoundTrip(s: seq<bool>)
    requires |s| == 8
    ensures BitsOf(OfBits(s)) == s
  {
  }

  lemma OfBitsOf(b: Byte)
    ensures OfBits(BitsOf(b)) == b
  {
  }

  /** The number a byte stands for. */
  function Value(b: Byte): nat {
    Join(BitsOf(b))
  }

  /** The byte that stands for a number below 256. */
  function ToByte(n: nat): Byte {
    OfBits(Split(n, 8))
  }

  lemma Pow2Of8()
    ensures Pow2(8) == 256
  {
    assert Pow2(4) == 16;
  }

  lemma ValueOfToByte(n: nat)
    requires n < 256
    ensures Value(ToByte(n)) == n
  {
    hide BitsOf, OfBits;
    Pow2Of8();
    BitsRoundTrip(Split(n, 8));
    JoinSplit(n, 8);
  }

  lemma ToByteOfValue(b: Byte)
    ensures Value(b) < 256
    ensures ToByte(Value(b)) == b
  {
    hide OfBits;
    Pow2Of8();
    assert |BitsOf(b)| == 8;
    hide BitsOf;
    SplitJoin(BitsOf(b));
    OfBitsOf(b);
  }

  // ---- little-endian numbers ----

  function Pow256(k: nat): (p: nat)
    ensures p > 0
  {
    if k == 0 then 1 else 256 * Pow256(k - 1)
  }

  /** The number a little-endian byte string stands for. */
  function LoadLe(s: seq<Byte>): nat {
    if s == [] then 0 else Value(s[0]) + 256 * LoadLe(s[1..])
  }

  function StoreLe(n: nat, width: nat): (s: seq<Byte>)
    ensures |s| == width
  {
    if width == 0 then [] else [ToByte(n % 256)] + StoreLe(n / 256, width - 1)
  }

  lemma Pow256Of4()
    ensures Pow256(4) == TWO_32
  {
    assert Pow256(2) == 65536;
  }

  lemma {:induction false} LoadOfStore(n: nat, width: nat)
    requires n < Pow256(width)
    ensures LoadLe(StoreLe(n, width)) == n
  {
    if width == 0 {
    } else {
      LoadOfStore(n / 256, width - 1);
      ValueOfToByte(n % 256);
      assert StoreLe(n, width)[1..] == StoreLe(n / 256, width - 1);
    }
  }

  lemma LoadStep(s: seq<Byte>)
    requires s != [] && Value(s[0]) < 256
    ensures LoadLe(s) % 256 == Value(s[0]) && LoadLe(s) / 256 == LoadLe(s[1..])
  {
    hide Value;
  }

  lemma {:induction false} StoreOfLoad(s: seq<Byte>)
    ensures StoreLe(LoadLe(s), |s|) == s
    ensures LoadLe(s) < Pow256(|s|)
  {
    hide Value, ToByte;
    if s == [] {
    } else {
      StoreOfLoad(s[1..]);
      ToByteOfValue(s[0]);
      LoadStep(s);
    }
  }

  lemma {:induction false} LoadSnoc(s: seq<Byte>, b: Byte)
    ensures LoadLe(s + [b]) == LoadLe(s) + Value(b) * Pow256(|s|)
  {
    hide Value;
    var v := Value(b);
    if s == [] {
      assert s + [b] == [b] && [b][1..] == [];
    } else {
      LoadSnoc(s[1..], b);
      assert (s + [b])[1..] == s[1..] + [b];
      assert 256 * (v * Pow256(|s| - 1)) == v * Pow256(|s|);
    }
  }

  lemma NothingLoaded(s: seq<Byte>)
    requires s == []
    ensures LoadLe(s) == 0
  {
  }

  /** `load_le`: shift the bytes in one by one. */
  method Load(data: seq<Byte>, offset: nat, width: nat) returns (value: nat)
    requires offset + width <= |data|
    ensures value == LoadLe(data[offset..offset + width])
  {
    hide Value, LoadLe;
    NothingLoaded(data[offset..offset]);
    value := 0;
    var weight := 1;
    for i := 0 to width
      invariant value == LoadLe(data[offset..offset + i]) && weight == Pow256(i)
    {
      LoadSnoc(data[offset..offset + i], data[offset + i]);
      assert data[offset..offset + i] + [data[offset + i]] == data[offset..offset + (i + 1)];
      value := value + Value(data[offset + i]) * weight;
      weight := weight * 256;
    }
  }

  lemma StoreStep(n: nat, width: nat)
    requires width > 0
    ensures StoreLe(n, width) == [ToByte(n % 256)] + StoreLe(n / 256, width - 1)
  {
  }

  lemma StoreNothing(n: nat)
    ensures StoreLe(n, 0) == []
  {
  }

  /** `store_le`: write the bytes one by one, lowest first. */
  method Store(data: array<Byte>, offset: nat, value: nat, width: nat)
    requires offset + width <= data.Length
    modifies data
    ensures data[offset..offset + width] == StoreLe(value, width)
    ensures forall j :: 0 <= j < data.Length && !(offset <= j < offset + width) ==> data[j] == old(data[j])
  {
    hide ToByte, StoreLe;
    var rest := value;
    for i := 0 to width
      invariant forall j :: 0 <= j < data.Length && !(offset <= j < offset + width) ==> data[j] == old(data[j])
      invariant data[offset..offset + i] + StoreLe(rest, width - i) == StoreLe(value, width)
    {
      ghost var before := data[offset..offset + i];
      data[offset + i] := ToByte(rest % 256);
      assert data[offset..offset + (i + 1)] == before + [ToByte(rest % 256)];
      StoreStep(rest, width - i);
      rest := rest / 256;
    }
    StoreNothing(rest);
  }

  /** Four bytes, the lowest first. */
  lemma LittleEndian(s: seq<Byte>)
    requires |s| == 4
    ensures LoadLe(s) == Value(s[0]) + 0x100 * Value(s[1]) + 0x1_0000 * Value(s[2]) + 0x100_0000 * Value(s[3])
  {
    hide Value;
    LoadsPair(s[2..]);
    LoadsPair(s);
    assert s[1..][1..] == s[2..];
  }

  lemma LoadsPair(s: seq<Byte>)
    requires |s| >= 2
    ensures LoadLe(s) == Value(s[0]) + 256 * (Value(s[1]) + 256 * LoadLe(s[1..][1..]))
    ensures |s| == 2 ==> LoadLe(s) == Value(s[0]) + 256 * Value(s[1])
  {
    hide Value;
    assert LoadLe(s[1..]) == Value(s[1]) + 256 * LoadLe(s[1..][1..]);
    if |s| == 2 { assert s[1..][1..] == []; }
  }

  function Worth(on: bool, n: nat): nat {
    if on then n else 0
  }

  /** The bits of a byte are worth 1, 2, 4, ..., 128. */
  lemma ValueIsBinary(b: Byte)
    ensures Value(b) == Worth(b & 1 != 0, 1) + Worth(b & 2 != 0, 2) + Worth(b & 4 != 0, 4) + Worth(b & 8 != 0, 8)
                        + Worth(b & 16 != 0, 16) + Worth(b & 32 != 0, 32) + Worth(b & 64 != 0, 64)
                        + Worth(b & 128 != 0, 128)
  {
    hide Join, Worth;
    JoinOf8(BitsOf(b));
  }

  lemma JoinOf8(s: seq<bool>)
    requires |s| == 8
    ensures Join(s) == Worth(s[0], 1) + Worth(s[1], 2) + Worth(s[2], 4) + Worth(s[3], 8)
                       + Worth(s[4], 16) + Worth(s[5], 32) + Worth(s[6], 64) + Worth(s[7], 128)
  {
    JoinOf4(s[4..]);
    JoinPair(s[2..], s[4..]);
    JoinPair(s, s[2..]);
  }

  lemma JoinOf4(s: seq<bool>)
    requires |s| == 4
    ensures Join(s) == Worth(s[0], 1) + Worth(s[1], 2) + Worth(s[2], 4) + Worth(s[3], 8)
  {
    JoinPair(s[2..], []);
    JoinPair(s, s[2..]);
  }

  lemma JoinPair(s: seq<bool>, rest: seq<bool>)
    requires |s| >= 2 && rest == s[2..]
    ensures Join(s) == Worth(s[0], 1) + Worth(s[1], 2) + 4 * Join(rest)
  {
    assert s[1..][1..] == rest;
    assert Join(s[1..]) == Worth(s[1], 1) + 2 * Join(rest);
  }
}
