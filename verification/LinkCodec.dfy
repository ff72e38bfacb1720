/** The ESP-NOW link frame: layout, CRC-32 (section 8 of RFC 1952), encoder and decoder. */
module LinkCodec {
  import opened Basics
  import opened Bytes
  import opened Checksums

  const FRAME_MAGIC: nat := 0x5848
  const FRAME_VERSION: Byte := 1
  const FRAME_HEADER_SIZE: nat := 20
  const MAX_PAYLOAD_SIZE: nat := 224
  const MAX_FRAME_SIZE: nat := 250
  const ACK_MESSAGE_ID: nat := 0
  const FLAG_RELIABLE: Byte := 1
  const FLAG_ACK: Byte := 2

  datatype Status = Ok | InvalidArg

  /** For a data frame `correlation` is the sender's session; an ACK carries the session in `sequence` and the
      acknowledged sequence number in `correlation`. */
  datatype Frame = Frame(flags: Byte, messageId: nat, sequence: nat, correlation: nat, payload: seq<Byte>) {
    predicate IsAck() {
      flags & FLAG_ACK != 0
    }

    predicate IsReliable() {
      flags & FLAG_RELIABLE != 0
    }
  }

  predicate InRange(f: Frame) {
    f.messageId < 0x1_0000 && f.sequence < TWO_32 && f.correlation < TWO_32 && |f.payload| <= MAX_PAYLOAD_SIZE
  }

  predicate KnownFlags(flags: Byte) {
    flags & !(FLAG_RELIABLE | FLAG_ACK) == 0
  }

  /** An ACK has message id 0, no payload, a non-zero correlation and is not itself reliable. */
  predicate AckShape(f: Frame) {
    f.IsAck() ==> f.messageId == ACK_MESSAGE_ID && f.payload == [] && !f.IsReliable() && f.correlation != 0
  }

  predicate WellFormed(f: Frame) {
    InRange(f) && KnownFlags(f.flags) && AckShape(f)
  }

  // ---- the CRC field ----

  function Narrow(x: bv32): Byte {
    (x & 0xff) as Byte
  }

  function StoreCrc(crc: bv32): (s: seq<Byte>)
    ensures |s| == 4
  {
    [Narrow(crc), Narrow(crc >> 8), Narrow(crc >> 16), Narrow(crc >> 24)]
  }

  function LoadCrc(s: seq<Byte>): bv32
    requires |s| == 4
  {
    (s[0] as bv32) | ((s[1] as bv32) << 8) | ((s[2] as bv32) << 16) | ((s[3] as bv32) << 24)
  }

  lemma CrcFieldRoundTrip(crc: bv32)
    ensures LoadCrc(StoreCrc(crc)) == crc
  {
  }

  lemma CrcFieldInjective(s: seq<Byte>, t: seq<Byte>)
    requires |s| == |t| == 4 && LoadCrc(s) == LoadCrc(t)
    ensures s == t
  {
    StoreOfLoadCrc(s);
    StoreOfLoadCrc(t);
  }

  lemma StoreOfLoadCrc(s: seq<Byte>)
    requires |s| == 4
    ensures StoreCrc(LoadCrc(s)) == s
  {
  }

  function FrameCrc(covered: seq<Byte>): bv32 {
    !Fold(Crc32Byte, 0xffffffff, covered)
  }

  lemma FrameCrcNoticesOneByte(x: seq<Byte>, y: seq<Byte>, k: nat)
    requires DifferOnlyAt(x, y, k)
    ensures FrameCrc(x) != FrameCrc(y)
  {
    Crc32Injective();
    OneByteChangeShows(Crc32Byte, 0xffffffff, x, y, k);
    NotInjective(Fold(Crc32Byte, 0xffffffff, x), Fold(Crc32Byte, 0xffffffff, y));
  }

  lemma NotInjective(a: bv32, b: bv32)
    ensures a != b ==> !a != !b
  {
  }

  // ---- frames ----

  /** The first sixteen bytes of a frame. */
  function Head(flags: Byte, messageId: nat, size: nat, sequence: nat, correlation: nat): (h: seq<Byte>)
    ensures |h| == 16
  {
    StoreLe(FRAME_MAGIC, 2) + [FRAME_VERSION, flags] + StoreLe(messageId, 2) + StoreLe(size, 2)
    + StoreLe(sequence, 4) + StoreLe(correlation, 4)
  }

  function HeadOf(f: Frame): (h: seq<Byte>)
    ensures |h| == 16
  {
    Head(f.flags, f.messageId, |f.payload|, f.sequence, f.correlation)
  }

  function Encode(f: Frame): (data: seq<Byte>)
    ensures |data| == FRAME_HEADER_SIZE + |f.payload|
  {
    HeadOf(f) + StoreCrc(FrameCrc(HeadOf(f) + f.payload)) + f.payload
  }

  /** The cheap check made in the Wi-Fi callback. */
  predicate QuickValidate(data: seq<Byte>) {
    && FRAME_HEADER_SIZE <= |data| <= MAX_FRAME_SIZE
    && LoadLe(data[..2]) == FRAME_MAGIC && data[2] == FRAME_VERSION
    && KnownFlags(data[3])
    && LoadLe(data[6..8]) <= MAX_PAYLOAD_SIZE
    && FRAME_HEADER_SIZE + LoadLe(data[6..8]) == |data|
  }

  function Fields(data: seq<Byte>): Frame
    requires |data| >= FRAME_HEADER_SIZE
  {
    Frame(data[3], LoadLe(data[4..6]), LoadLe(data[8..12]), LoadLe(data[12..16]), data[FRAME_HEADER_SIZE..])
  }

  function Decode(data: seq<Byte>): Option<Frame> {
    if QuickValidate(data)
       && LoadCrc(data[16..20]) == FrameCrc(data[..16] + data[FRAME_HEADER_SIZE..])
       && AckShape(Fields(data))
    then Some(Fields(data)) else None
  }

  // ---- the two directions of the codec ----

  lemma Pow256Values()
    ensures Pow256(2) == 0x1_0000 && Pow256(4) == TWO_32
  {
    Pow256Of4();
    assert Pow256(1) == 256;
  }

  lemma HeadFields(f: Frame)
    requires InRange(f)
    ensures
      var h := HeadOf(f);
      && LoadLe(h[..2]) == FRAME_MAGIC && h[2] == FRAME_VERSION && h[3] == f.flags
      && LoadLe(h[4..6]) == f.messageId && LoadLe(h[6..8]) == |f.payload|
      && LoadLe(h[8..12]) == f.sequence && LoadLe(h[12..16]) == f.correlation
  {
    hide LoadLe, StoreLe, Pow256;
    Pow256Values();
    LoadOfStore(FRAME_MAGIC, 2);
    LoadOfStore(f.messageId, 2);
    LoadOfStore(|f.payload|, 2);
    LoadOfStore(f.sequence, 4);
    LoadOfStore(f.correlation, 4);
    var h := HeadOf(f);
    assert h[..2] == StoreLe(FRAME_MAGIC, 2);
    assert h[4..6] == StoreLe(f.messageId, 2);
    assert h[6..8] == StoreLe(|f.payload|, 2);
    assert h[8..12] == StoreLe(f.sequence, 4);
    assert h[12..16] == StoreLe(f.correlation, 4);
  }

  lemma EncodeParts(f: Frame)
    ensures
      var data := Encode(f);
      && data[..16] == HeadOf(f) && data[16..20] == StoreCrc(FrameCrc(HeadOf(f) + f.payload))
      && data[FRAME_HEADER_SIZE..] == f.payload
      && data[..2] == HeadOf(f)[..2] && data[2] == HeadOf(f)[2] && data[3] == HeadOf(f)[3]
      && data[4..6] == HeadOf(f)[4..6] && data[6..8] == HeadOf(f)[6..8]
      && data[8..12] == HeadOf(f)[8..12] && data[12..16] == HeadOf(f)[12..16]
  {
    hide HeadOf, StoreCrc, FrameCrc;
  }

  /** Among frames whose fields fit, decoding undoes encoding exactly for the well-formed ones; the others are
      rejected. */
  lemma DecodeOfEncode(f: Frame)
    requires InRange(f)
    ensures Decode(Encode(f)) == if WellFormed(f) then Some(f) else None
  {
    EncodedIsValid(f);
    EncodedFields(f);
    EncodeParts(f);
    CrcFieldRoundTrip(FrameCrc(HeadOf(f) + f.payload));
    hide Encode, Fields, QuickValidate, LoadCrc, FrameCrc, HeadOf;
  }

  lemma EncodedFields(f: Frame)
    requires InRange(f)
    ensures Fields(Encode(f)) == f
  {
    HeadFields(f);
    EncodeParts(f);
    hide LoadLe, HeadOf, StoreCrc, FrameCrc, Encode;
  }

  lemma EncodedIsValid(f: Frame)
    requires InRange(f)
    ensures QuickValidate(Encode(f)) <==> KnownFlags(f.flags)
  {
    HeadFields(f);
    EncodeParts(f);
    hide LoadLe, HeadOf, StoreCrc, FrameCrc, Encode;
  }

  /** Every accepted byte string is the encoding of the frame it decodes to, so no two accepted strings mean the same
      frame and every decoded frame is well formed. */
  lemma EncodeOfDecode(data: seq<Byte>)
    requires Decode(data).Some?
    ensures WellFormed(Decode(data).value)
    ensures Encode(Decode(data).value) == data
  {
    hide LoadLe, StoreCrc, LoadCrc, FrameCrc, HeadOf, Encode;
    FieldsInRange(data);
    HeadFromData(data);
    StoreOfLoadCrc(data[16..20]);
    IsEncoding(Fields(data), data);
  }

  /** A byte string with the right parts is the encoding. */
  lemma IsEncoding(f: Frame, data: seq<Byte>)
    requires |data| >= FRAME_HEADER_SIZE && data[..16] == HeadOf(f) && data[FRAME_HEADER_SIZE..] == f.payload
    requires data[16..20] == StoreCrc(FrameCrc(data[..16] + data[FRAME_HEADER_SIZE..]))
    ensures data == Encode(f)
  {
    hide StoreCrc, FrameCrc, HeadOf;
    assert data == data[..16] + data[16..20] + data[FRAME_HEADER_SIZE..];
  }

  lemma FieldsInRange(data: seq<Byte>)
    requires QuickValidate(data)
    ensures InRange(Fields(data))
  {
    hide LoadLe;
    Pow256Values();
    StoreOfLoad(data[4..6]);
    StoreOfLoad(data[8..12]);
    StoreOfLoad(data[12..16]);
    hide Pow256;
  }

  lemma HeadFromData(data: seq<Byte>)
    requires QuickValidate(data)
    ensures HeadOf(Fields(data)) == data[..16]
  {
    hide LoadLe, StoreLe, Pow256;
    StoreOfLoad(data[..2]);
    StoreOfLoad(data[4..6]);
    StoreOfLoad(data[6..8]);
    StoreOfLoad(data[8..12]);
    StoreOfLoad(data[12..16]);
    assert data[..16] == data[..2] + [data[2], data[3]] + data[4..6] + data[6..8] + data[8..12] + data[12..16];
  }

  /** A frame changed in any single byte is rejected, wherever the byte is. */
  lemma OneByteChangeRejected(x: seq<Byte>, y: seq<Byte>, k: nat)
    requires Decode(x).Some? && DifferOnlyAt(x, y, k)
    ensures Decode(y) == None
  {
    hide LoadLe, LoadCrc, FrameCrc;
    if QuickValidate(y) {
      var cx, cy := x[..16] + x[FRAME_HEADER_SIZE..], y[..16] + y[FRAME_HEADER_SIZE..];
      if 16 <= k < 20 {
        assert cx == cy;
        assert x[16..20][k - 16] != y[16..20][k - 16];
        if LoadCrc(x[16..20]) == LoadCrc(y[16..20]) { CrcFieldInjective(x[16..20], y[16..20]); }
      } else {
        assert x[16..20] == y[16..20];
        FrameCrcNoticesOneByte(cx, cy, if k < 16 then k else k - 4);
      }
    }
  }

  // ---- the code ----

  /** `update_crc32`: two nested loops over bytes and bits. */
  method UpdateCrc32(start: bv32, data: seq<Byte>) returns (crc: bv32)
    ensures crc == Fold(Crc32Byte, start, data)
  {
    crc := start;
    assert data[..0] == [];
    for i := 0 to |data|
      invariant crc == Fold(Crc32Byte, start, data[..i])
    {
      ghost var mixed := crc ^ (data[i] as bv32);
      crc := crc ^ (data[i] as bv32);
      for bit := 0 to 8
        invariant crc == Crc32Bits(mixed, bit)
      {
        crc := (crc >> 1) ^ (0xedb88320 & (0 - (crc & 1)));
      }
      assert data[..i + 1][..i] == data[..i];
    }
    assert data[..|data|] == data;
  }

  method ComputeFrameCrc(data: seq<Byte>) returns (crc: bv32)
    requires |data| >= FRAME_HEADER_SIZE
    ensures crc == FrameCrc(data[..16] + data[FRAME_HEADER_SIZE..])
  {
    crc := UpdateCrc32(0xffffffff, data[..16]);
    crc := UpdateCrc32(crc, data[FRAME_HEADER_SIZE..]);
    FoldAppend(Crc32Byte, 0xffffffff, data[..16], data[FRAME_HEADER_SIZE..]);
    crc := !crc;
  }

  /** `decode_frame`. */
  method DecodeFrame(data: seq<Byte>) returns (result: Option<Frame>)
    ensures result == Decode(data)
  {
    hide LoadLe, LoadCrc, FrameCrc;
    if !QuickValidate(data) { return None; }
    var crc := ComputeFrameCrc(data);
    if LoadCrc(data[16..20]) != crc { return None; }
    var messageId := Load(data, 4, 2);
    var sequence := Load(data, 8, 4);
    var correlation := Load(data, 12, 4);
    var frame := Frame(data[3], messageId, sequence, correlation, data[FRAME_HEADER_SIZE..]);
    var ack := frame.IsAck();
    if ack && (frame.messageId != ACK_MESSAGE_ID || |frame.payload| != 0 || frame.IsReliable()) { return None; }
    if ack && frame.correlation == 0 { return None; }
    return Some(frame);
  }

  /** `memcpy`. */
  method Copy(output: array<Byte>, offset: nat, data: seq<Byte>)
    requires offset + |data| <= output.Length
    modifies output
    ensures output[offset..offset + |data|] == data
    ensures forall j :: 0 <= j < output.Length && !(offset <= j < offset + |data|) ==> output[j] == old(output[j])
  {
    forall j | offset <= j < offset + |data| { output[j] := data[j - offset]; }
  }

  /** `encode_frame`: header fields first with a zero CRC, payload next, and the CRC over both last. */
  method EncodeFrame(f: Frame, output: array<Byte>) returns (status: Status, size: nat)
    modifies output
    ensures status == if |f.payload| > MAX_PAYLOAD_SIZE || output.Length < FRAME_HEADER_SIZE + |f.payload|
                      then InvalidArg else Ok
    ensures status == Ok ==> size == FRAME_HEADER_SIZE + |f.payload| && output[..size] == Encode(f)
    ensures forall j :: (if status == Ok then size else 0) <= j < output.Length ==> output[j] == old(output[j])
  {
    hide HeadOf, StoreCrc, FrameCrc, Encode;
    if |f.payload| > MAX_PAYLOAD_SIZE || output.Length < FRAME_HEADER_SIZE + |f.payload| { return InvalidArg, 0; }
    size := FRAME_HEADER_SIZE + |f.payload|;
    WriteHead(f, output);
    Copy(output, FRAME_HEADER_SIZE, f.payload);
    assert output[FRAME_HEADER_SIZE..size] == f.payload;
    WriteCrc(output, size);
    ghost var data := output[..size];
    assert data[..16] == output[..16] && data[16..20] == output[16..20];
    assert data[FRAME_HEADER_SIZE..] == output[FRAME_HEADER_SIZE..size] == f.payload;
    IsEncoding(f, data);
    status := Ok;
  }

  /** The CRC over header and payload, put between them. */
  method WriteCrc(output: array<Byte>, size: nat)
    requires FRAME_HEADER_SIZE <= size <= output.Length
    modifies output
    ensures output[..16] == old(output[..16])
    ensures output[FRAME_HEADER_SIZE..size] == old(output[FRAME_HEADER_SIZE..size])
    ensures forall j :: FRAME_HEADER_SIZE <= j < output.Length ==> output[j] == old(output[j])
    ensures output[16..20] == StoreCrc(FrameCrc(output[..16] + output[FRAME_HEADER_SIZE..size]))
  {
    hide StoreCrc, FrameCrc;
    ghost var head, payload := output[..16], output[FRAME_HEADER_SIZE..size];
    var crc := ComputeFrameCrc(output[..size]);
    assert output[..size][..16] == head && output[..size][FRAME_HEADER_SIZE..] == payload;
    Copy(output, 16, StoreCrc(crc));
    assert output[..16] == head && output[FRAME_HEADER_SIZE..size] == payload;
  }

  method WriteHead(f: Frame, output: array<Byte>)
    requires output.Length >= FRAME_HEADER_SIZE
    modifies output
    ensures output[..16] == HeadOf(f)
    ensures forall j :: FRAME_HEADER_SIZE <= j < output.Length ==> output[j] == old(output[j])
  {
    hide StoreLe;
    WriteFormat(f, output);
    ghost var first := output[..8];
    Store(output, 8, f.sequence, 4);
    Store(output, 12, f.correlation, 4);
    assert output[..16] == output[..8] + output[8..12] + output[12..16] && output[..8] == first;
    ghost var head := output[..16];
    Store(output, 16, 0, 4);
    assert output[..16] == head;
  }

  /** The first half of the header. */
  method WriteFormat(f: Frame, output: array<Byte>)
    requires output.Length >= FRAME_HEADER_SIZE
    modifies output
    ensures output[..8] == StoreLe(FRAME_MAGIC, 2) + [FRAME_VERSION, f.flags] + StoreLe(f.messageId, 2)
                           + StoreLe(|f.payload|, 2)
    ensures forall j :: 8 <= j < output.Length ==> output[j] == old(output[j])
  {
    hide StoreLe;
    Store(output, 0, FRAME_MAGIC, 2);
    output[2] := FRAME_VERSION;
    output[3] := f.flags;
    ghost var start := output[..4];
    assert start == output[0..2] + [output[2], output[3]];
    Store(output, 4, f.messageId, 2);
    Store(output, 6, |f.payload|, 2);
    assert output[..8] == output[..4] + output[4..6] + output[6..8] && output[..4] == start;
  }

  // ---- the wire format ----

  /** Where each field of a frame is, and which bytes its check value covers. */
  lemma FrameLayout(f: Frame)
    requires InRange(f)
    ensures
      var data := Encode(f);
      && |data| == 20 + |f.payload|
      && LoadLe(data[0..2]) == 0x5848 && data[2] == 1 && data[3] == f.flags
      && LoadLe(data[4..6]) == f.messageId && LoadLe(data[6..8]) == |f.payload|
      && LoadLe(data[8..12]) == f.sequence && LoadLe(data[12..16]) == f.correlation
      && LoadCrc(data[16..20]) == FrameCrc(data[0..16] + f.payload)
      && data[20..] == f.payload
    ensures f.IsReliable() <==> f.flags & 1 != 0
    ensures f.IsAck() <==> f.flags & 2 != 0
    ensures KnownFlags(f.flags) <==> f.flags < 4
  {
    HeadFields(f);
    EncodeParts(f);
    CrcFieldRoundTrip(FrameCrc(HeadOf(f) + f.payload));
    hide LoadLe, HeadOf, StoreCrc, LoadCrc, FrameCrc, Encode;
    assert Encode(f)[0..16] == Encode(f)[..16] && Encode(f)[0..2] == Encode(f)[..2];
  }

  /** The check value is the standard CRC-32, stored lowest byte first. */
  lemma FrameCrcIsStandard()
    ensures FrameCrc(DIGITS) == 0xcbf43926
    ensures StoreCrc(0xcbf43926) == [0x26, 0x39, 0xf4, 0xcb]
  {
    Crc32CheckValue();
  }

  /** What a receiver accepts: known flags, and for an ACK no message id, no payload, not reliable and a number other
      than 0. */
  lemma AcceptedExactly(f: Frame)
    requires InRange(f)
    ensures Decode(Encode(f)) == Some(f) <==>
            && f.flags < 4
            && (f.flags & 2 != 0 ==> f.messageId == 0 && f.payload == [] && f.flags & 1 == 0 && f.correlation != 0)
  {
    DecodeOfEncode(f);
    FrameLayout(f);
    hide Encode, Decode;
  }
}
