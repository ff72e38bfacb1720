/** The 32-byte records of the log and their check byte. */
module BlackboxRecords {
  import opened Basics
  import opened Bytes
  import opened Checksums
  import opened FlashLayout

  const STRING: Byte := 0
  const STRUCTURED: Byte := 1
  const RECORD_SIZE: nat := 32
  const PAYLOAD_SIZE: nat := 25

  /** A record without its start marker and check byte, which follow from the rest. */
  datatype Record = Record(kind: Byte, timestamp: nat, payload: seq<Byte>) {
    predicate Valid() {
      timestamp < 0x1_0000_0000 && |payload| == PAYLOAD_SIZE
    }
  }

  function Body(r: Record): (s: seq<Byte>)
    requires r.Valid()
    ensures |s| == RECORD_SIZE - 1
  {
    [BLOCK_SOF, r.kind] + StoreLe(r.timestamp, 4) + r.payload
  }

  function Crc8(data: seq<Byte>): Byte {
    Fold(Crc8Byte, 0, data)
  }

  /** What is written to flash. */
  function Encode(r: Record): (s: seq<Byte>)
    requires r.Valid()
    ensures |s| == RECORD_SIZE
  {
    Body(r) + [Crc8(Body(r))]
  }

  /** `read`, up to the flash access: a wrong marker or check byte gives nothing. */
  function Decode(s: seq<Byte>): (r: Option<Record>)
    requires |s| == RECORD_SIZE
    ensures r.Some? ==> r.value.Valid()
  {
    if s[0] == BLOCK_SOF && s[31] == Crc8(s[..31]) then
      hide LoadLe;
      Pow256Of4();
      StoreOfLoad(s[2..6]);
      Some(Record(s[1], LoadLe(s[2..6]), s[6..31]))
    else None
  }

  lemma DecodeOfEncode(r: Record)
    requires r.Valid()
    ensures Decode(Encode(r)) == Some(r)
  {
    hide StoreLe, LoadLe, Crc8;
    var time, encoded := StoreLe(r.timestamp, 4), Encode(r);
    assert encoded[..31] == Body(r);
    assert encoded[2..6] == time;
    assert encoded[6..31] == r.payload;
    Pow256Of4();
    LoadOfStore(r.timestamp, 4);
  }

  /** Whatever 32 bytes are accepted, encoding the record read from them gives the same bytes. */
  lemma EncodeOfDecode(s: seq<Byte>)
    requires |s| == RECORD_SIZE && Decode(s).Some?
    ensures Encode(Decode(s).value) == s
  {
    hide StoreLe, LoadLe, Crc8;
    StoreOfLoad(s[2..6]);
    assert s[..31] == [s[0], s[1]] + s[2..6] + s[6..31];
    assert Body(Decode(s).value) == s[..31];
    assert s == s[..31] + [s[31]];
  }

  /** A stored record with one byte changed - whichever byte - is never read as a record. */
  lemma OneByteChangeRejected(s: seq<Byte>, s': seq<Byte>, k: nat)
    requires |s| == RECORD_SIZE && Decode(s).Some? && DifferOnlyAt(s, s', k)
    ensures Decode(s') == None
  {
    if k < 31 {
      Crc8Injective();
      OneByteChangeShows(Crc8Byte, 0, s[..31], s'[..31], k);
      assert s[31] == s'[31];
    } else {
      assert s[..31] == s'[..31];
    }
  }

  /** `CRC8_Calc`: bytes in a loop, bits in a loop inside it. */
  method CalculateCrc8(data: seq<Byte>) returns (crc: Byte)
    ensures crc == Crc8(data)
  {
    crc := 0;
    for i := 0 to |data|
      invariant crc == Fold(Crc8Byte, 0, data[..i])
    {
      ghost var before := crc;
      crc := crc ^ data[i];
      for j := 0 to 8
        invariant crc == Crc8Bits(before ^ data[i], j)
      {
        if crc & 0x80 != 0 {
          crc := (crc << 1) ^ 0x07;
        } else {
          crc := crc << 1;
        }
      }
      assert data[..i + 1][..i] == data[..i];
    }
    assert data[..|data|] == data;
  }

  /** Where each field of a stored record is, and which bytes its check value covers. */
  lemma RecordLayout(r: Record)
    requires r.Valid()
    ensures
      var data := Encode(r);
      && |data| == 32 && data[0] == 0xaa && data[1] == r.kind && LoadLe(data[2..6]) == r.timestamp
      && data[6..31] == r.payload && data[31] == Crc8(data[0..31])
  {
    hide StoreLe, LoadLe, Crc8;
    var time, encoded := StoreLe(r.timestamp, 4), Encode(r);
    assert encoded[0..31] == Body(r);
    assert encoded[2..6] == time;
    assert encoded[6..31] == r.payload;
    Pow256Of4();
    LoadOfStore(r.timestamp, 4);
  }

  /** The check value is the standard CRC-8. */
  lemma CheckByteIsStandard()
    ensures Crc8(DIGITS) == 0xf4
  {
    Crc8CheckValue();
  }
}
