/** The saved peers: a checksummed table of three slots, kept as one NVS record of 96 bytes. */
module PeerTable {
  import opened Basics
  import opened Bytes
  import opened Checksums

  const MAGIC: nat := 0x4e4f5750
  const VERSION: Byte := 1
  const SLOT_SIZE: nat := 28
  const HASHED: nat := 92
  const RECORD_SIZE: nat := 96
  const FNV_OFFSET: Hash := 2166136261

  datatype Slot = Slot(used: Byte, role: Byte, mac: seq<Byte>, lmk: seq<Byte>, channel: Byte, reserved: seq<Byte>) {
    predicate Shaped() {
      |mac| == 6 && |lmk| == 16 && |reserved| == 3
    }

    function Image(): seq<Byte> {
      [used, role] + mac + lmk + [channel] + reserved
    }
  }

  const EMPTY_SLOT := Slot(0, 0, [0, 0, 0, 0, 0, 0], [0, 0, 0, 0, 0, 0, 0, 0, 0, 0, 0, 0, 0, 0, 0, 0], 0, [0, 0, 0])

  /** What the callers see of a saved peer. */
  datatype Entry = Entry(lmk: seq<Byte>, channel: Byte, role: Byte)

  /** The table without its checksum, which is a function of the rest. */
  datatype Table = Table(count: nat, reserved: seq<Byte>, peers: seq<Slot>) {
    predicate Shaped() {
      count < 256 && |reserved| == 2 && |peers| == MAX_SAVED_PEERS && forall i :: 0 <= i < |peers| ==> peers[i].Shaped()
    }
  }

  /** `default_store`. */
  function DefaultTable(): (t: Table)
    ensures t.Shaped()
  {
    Table(0, [0, 0], [EMPTY_SLOT, EMPTY_SLOT, EMPTY_SLOT])
  }

  // ---- the record ----

  function Body(t: Table): (s: seq<Byte>)
    requires t.Shaped()
    ensures |s| == HASHED
  {
    StoreLe(MAGIC, 4) + [VERSION, ToByte(t.count)] + t.reserved + t.peers[0].Image() + t.peers[1].Image()
    + t.peers[2].Image()
  }

  function HashOf(data: seq<Byte>): Hash {
    Fold(FnvStep, FNV_OFFSET, data)
  }

  function Record(t: Table): (s: seq<Byte>)
    requires t.Shaped()
    ensures |s| == RECORD_SIZE
  {
    Body(t) + StoreLe(HashOf(Body(t)), 4)
  }

  function ParseSlot(s: seq<Byte>): (slot: Slot)
    requires |s| == SLOT_SIZE
    ensures slot.Shaped()
  {
    Slot(s[0], s[1], s[2..8], s[8..24], s[24], s[25..28])
  }

  function Parse(s: seq<Byte>): (t: Table)
    requires |s| == RECORD_SIZE
    ensures t.Shaped()
  {
    hide ParseSlot;
    ToByteOfValue(s[5]);
    Table(Value(s[5]), s[6..8], [ParseSlot(s[8..36]), ParseSlot(s[36..64]), ParseSlot(s[64..92])])
  }

  /** `valid_store`. */
  predicate ValidRecord(s: seq<Byte>)
    requires |s| == RECORD_SIZE
  {
    LoadLe(s[..4]) == MAGIC && s[4] == VERSION && Value(s[5]) <= MAX_SAVED_PEERS && LoadLe(s[92..]) == HashOf(s[..92])
  }

  lemma SlotRoundTrip(slot: Slot)
    requires slot.Shaped()
    ensures |slot.Image()| == SLOT_SIZE && ParseSlot(slot.Image()) == slot
  {
  }

  /** A table written and read back is the same table, and valid. */
  lemma RecordRoundTrip(t: Table)
    requires t.Shaped() && t.count <= MAX_SAVED_PEERS
    ensures ValidRecord(Record(t)) && Parse(Record(t)) == t
  {
    hide Record, Body, ParseSlot, ToByte, Value, ValidRecord, StoreLe, HashOf;
    RecordParts(t);
    RecordValid(t);
    SlotRoundTrip(t.peers[0]);
    SlotRoundTrip(t.peers[1]);
    SlotRoundTrip(t.peers[2]);
    ValueOfToByte(t.count);
    assert t.peers == [t.peers[0], t.peers[1], t.peers[2]];
  }

  lemma RecordParts(t: Table)
    requires t.Shaped()
    ensures
      var r := Record(t);
      && r[..4] == StoreLe(MAGIC, 4) && r[4] == VERSION && r[5] == ToByte(t.count) && r[6..8] == t.reserved
      && r[8..36] == t.peers[0].Image() && r[36..64] == t.peers[1].Image() && r[64..92] == t.peers[2].Image()
      && r[..92] == Body(t) && r[92..] == StoreLe(HashOf(Body(t)), 4)
  {
    hide StoreLe, ToByte, HashOf;
  }

  lemma RecordValid(t: Table)
    requires t.Shaped() && t.count <= MAX_SAVED_PEERS
    ensures ValidRecord(Record(t))
  {
    RecordParts(t);
    Pow256Of4();
    LoadOfStore(MAGIC, 4);
    LoadOfStore(HashOf(Body(t)), 4);
    ValueOfToByte(t.count);
    hide Record, Body, HashOf, StoreLe, LoadLe, ToByte, Value;
  }

  /** A record that differs from a valid one in a single byte is never valid. */
  lemma OneByteChangeRejected(s: seq<Byte>, s': seq<Byte>, k: nat)
    requires |s| == RECORD_SIZE && ValidRecord(s) && DifferOnlyAt(s, s', k)
    ensures !ValidRecord(s')
  {
    if k < HASHED {
      FnvInjective();
      OneByteChangeShows(FnvStep, FNV_OFFSET, s[..92], s'[..92], k);
      assert s[92..] == s'[92..];
    } else {
      assert s[..92] == s'[..92];
      StoreOfLoad(s[92..]);
      StoreOfLoad(s'[92..]);
      assert s[92..][k - 92] != s'[92..][k - 92];
    }
  }

  // ---- the table as a map ----

  function Contents(peers: seq<Slot>): map<seq<Byte>, Entry> {
    if peers == [] then map[]
    else
      var last := peers[|peers| - 1];
      var rest := Contents(peers[..|peers| - 1]);
      if last.used != 0 then rest[last.mac := Entry(last.lmk, last.channel, last.role)] else rest
  }

  function UsedCount(peers: seq<Slot>): nat {
    if peers == [] then 0 else UsedCount(peers[..|peers| - 1]) + if peers[|peers| - 1].used != 0 then 1 else 0
  }

  predicate Holds(slot: Slot, mac: seq<Byte>) {
    slot.used != 0 && slot.mac == mac
  }

  /** No address has two slots. */
  ghost predicate Distinct(peers: seq<Slot>) {
    forall i, j :: 0 <= i < j < |peers| && peers[i].used != 0 && peers[j].used != 0 ==> peers[i].mac != peers[j].mac
  }

  function EntryOf(slot: Slot): Entry {
    Entry(slot.lmk, slot.channel, slot.role)
  }

  ghost predicate HeldIn(peers: seq<Slot>, mac: seq<Byte>) {
    exists i :: 0 <= i < |peers| && Holds(peers[i], mac)
  }

  lemma {:induction false} ContentsAt(peers: seq<Slot>, mac: seq<Byte>)
    requires Distinct(peers)
    ensures mac in Contents(peers) <==> HeldIn(peers, mac)
    ensures forall i :: 0 <= i < |peers| && Holds(peers[i], mac) ==> Contents(peers)[mac] == EntryOf(peers[i])
  {
    if peers == [] {
    } else {
      var n := |peers| - 1;
      var rest := peers[..n];
      ContentsAt(rest, mac);
      assert forall i :: 0 <= i < n ==> rest[i] == peers[i];
      if mac in Contents(rest) {
        var i :| 0 <= i < |rest| && Holds(rest[i], mac);
        assert Holds(peers[i], mac);
      }
    }
  }

  lemma {:induction false} ContentsSize(peers: seq<Slot>)
    requires Distinct(peers)
    ensures |Contents(peers)| == UsedCount(peers)
  {
    if peers == [] {
    } else {
      var n := |peers| - 1;
      ContentsSize(peers[..n]);
      ContentsAt(peers[..n], peers[n].mac);
    }
  }

  lemma {:induction false} UsedCountUpdate(peers: seq<Slot>, k: nat, slot: Slot)
    requires k < |peers|
    ensures UsedCount(peers[k := slot]) + (if peers[k].used != 0 then 1 else 0)
         == UsedCount(peers) + (if slot.used != 0 then 1 else 0)
  {
    var n := |peers| - 1;
    if k < n {
      UsedCountUpdate(peers[..n], k, slot);
      assert peers[k := slot][..n] == peers[..n][k := slot];
    } else {
      assert peers[k := slot][..n] == peers[..n];
    }
  }

  lemma {:induction false} AllUsed(peers: seq<Slot>)
    ensures UsedCount(peers) <= |peers|
    ensures UsedCount(peers) == |peers| <==> forall i :: 0 <= i < |peers| ==> peers[i].used != 0
  {
    if peers == [] {
    } else {
      var n := |peers| - 1;
      AllUsed(peers[..n]);
      assert forall i :: 0 <= i < n ==> peers[..n][i] == peers[i];
    }
  }

  /** Filling the slot of an address, or a free slot for a new one, is an update of the map. */
  lemma FilledContents(peers: seq<Slot>, k: nat, slot: Slot)
    requires Distinct(peers) && k < |peers| && slot.used != 0
    requires Holds(peers[k], slot.mac) || (peers[k].used == 0 && slot.mac !in Contents(peers))
    ensures Distinct(peers[k := slot])
    ensures Contents(peers[k := slot]) == Contents(peers)[slot.mac := EntryOf(slot)]
  {
    var filled := peers[k := slot];
    NoOther(peers, k, slot.mac);
    assert Distinct(filled);
    forall mac
      ensures mac in Contents(filled) <==> mac in Contents(peers) || mac == slot.mac
      ensures mac in Contents(filled) ==>
                Contents(filled)[mac] == if mac == slot.mac then EntryOf(slot) else Contents(peers)[mac]
    {
      ContentsAt(peers, mac);
      ContentsAt(filled, mac);
      UpdatedHolds(peers, k, slot, mac);
    }
  }

  /** The address is in no slot but possibly this one. */
  lemma NoOther(peers: seq<Slot>, k: nat, mac: seq<Byte>)
    requires Distinct(peers) && k < |peers|
    requires Holds(peers[k], mac) || mac !in Contents(peers)
    ensures forall i :: 0 <= i < |peers| && i != k ==> !Holds(peers[i], mac)
  {
    ContentsAt(peers, mac);
  }

  lemma UpdatedHolds(peers: seq<Slot>, k: nat, slot: Slot, mac: seq<Byte>)
    requires k < |peers|
    ensures HeldIn(peers[k := slot], mac)
            <==> Holds(slot, mac) || exists i :: 0 <= i < |peers| && i != k && Holds(peers[i], mac)
    ensures HeldIn(peers, mac)
            <==> Holds(peers[k], mac) || exists i :: 0 <= i < |peers| && i != k && Holds(peers[i], mac)
  {
    var filled := peers[k := slot];
    assert forall i :: 0 <= i < |peers| && i != k ==> filled[i] == peers[i];
    assert filled[k] == slot;
  }

  /** Clearing the slot of an address removes it from the map. */
  lemma ClearedContents(peers: seq<Slot>, k: nat)
    requires Distinct(peers) && k < |peers| && peers[k].used != 0
    ensures Distinct(peers[k := EMPTY_SLOT])
    ensures Contents(peers[k := EMPTY_SLOT]) == Contents(peers) - {peers[k].mac}
  {
    var cleared := peers[k := EMPTY_SLOT];
    NoOther(peers, k, peers[k].mac);
    forall mac
      ensures mac in Contents(cleared) <==> mac in Contents(peers) && mac != peers[k].mac
      ensures mac in Contents(cleared) ==> Contents(cleared)[mac] == Contents(peers)[mac]
    {
      ContentsAt(peers, mac);
      ContentsAt(cleared, mac);
      UpdatedHolds(peers, k, EMPTY_SLOT, mac);
    }
  }

  // ---- the record as a map ----

  /** The table that the callers work on: the record, or the default table if the record is not valid. */
  function Loaded(record: seq<Byte>): (t: Table)
    requires |record| == RECORD_SIZE
    ensures t.Shaped()
  {
    if ValidRecord(record) then Parse(record) else DefaultTable()
  }

  ghost predicate Sound(t: Table) {
    t.Shaped() && Distinct(t.peers) && t.count == UsedCount(t.peers)
  }

  lemma {:induction false} NoneUsed(peers: seq<Slot>)
    requires forall i :: 0 <= i < |peers| ==> peers[i].used == 0
    ensures Contents(peers) == map[] && UsedCount(peers) == 0
  {
    if peers == [] {
    } else {
      NoneUsed(peers[..|peers| - 1]);
    }
  }

  lemma DefaultIsSound()
    ensures Sound(DefaultTable()) && Contents(DefaultTable().peers) == map[]
  {
    NoneUsed(DefaultTable().peers);
  }

  lemma SoundSize(t: Table)
    requires Sound(t)
    ensures t.count == |Contents(t.peers)| <= MAX_SAVED_PEERS
  {
    ContentsSize(t.peers);
    AllUsed(t.peers);
  }

  // ---- the stored format ----

  /** Where each field of the record is, and which bytes its hash covers. */
  lemma RecordLayout(t: Table, i: nat)
    requires t.Shaped() && i < 3
    ensures
      var data, at := Record(t), 8 + 28 * i;
      && |data| == 96 && LoadLe(data[0..4]) == 0x4e4f5750 && data[4] == 1 && Value(data[5]) == t.count
      && LoadLe(data[92..96]) == HashOf(data[0..92])
      && data[at] == t.peers[i].used && data[at + 1] == t.peers[i].role && data[at + 2..at + 8] == t.peers[i].mac
      && data[at + 8..at + 24] == t.peers[i].lmk && data[at + 24] == t.peers[i].channel
  {
    hide Record, Body, HashOf, StoreLe, LoadLe, ToByte, Value;
    RecordParts(t);
    Pow256Of4();
    LoadOfStore(MAGIC, 4);
    LoadOfStore(HashOf(Body(t)), 4);
    ValueOfToByte(t.count);
    var data, at := Record(t), 8 + 28 * i;
    assert data[0..4] == data[..4] && data[0..92] == data[..92] && data[92..96] == data[92..];
    if i == 0 { SlotAt(data, 8, t.peers[0]); } else if i == 1 { SlotAt(data, 36, t.peers[1]); } else {
      SlotAt(data, 64, t.peers[2]);
    }
  }

  lemma SlotAt(data: seq<Byte>, at: nat, slot: Slot)
    requires slot.Shaped() && at + 28 <= |data| && data[at..at + 28] == slot.Image()
    ensures data[at] == slot.used && data[at + 1] == slot.role && data[at + 2..at + 8] == slot.mac
    ensures data[at + 8..at + 24] == slot.lmk && data[at + 24] == slot.channel
  {
    var image := data[at..at + 28];
    SlotRoundTrip(slot);
    hide Slot.Image;
    assert forall k :: 0 <= k < 28 ==> image[k] == data[at + k];
    assert image[2..8] == data[at + 2..at + 8];
    assert image[8..24] == data[at + 8..at + 24];
    assert image[0] == data[at] && image[1] == data[at + 1] && image[24] == data[at + 24];
  }

  /** The hash is the standard FNV-1a. */
  lemma HashIsStandard()
    ensures HashOf([0x61]) == 0xe40c292c
  {
    FnvCheckValue();
  }

  /** What was stored is loaded; a stored record with one byte changed, or any other invalid one, is loaded as the empty
      table. */
  lemma LoadedBack(t: Table, record: seq<Byte>)
    requires t.Shaped() && t.count <= 3 && |record| == RECORD_SIZE
    ensures Loaded(Record(t)) == t
    ensures !ValidRecord(record) ==> Loaded(record) == DefaultTable() && Contents(Loaded(record).peers) == map[]
  {
    RecordRoundTrip(t);
    hide Record, Parse, ValidRecord, Contents;
    NoContents();
  }

  lemma NoContents()
    ensures Contents(DefaultTable().peers) == map[]
  {
    var e := EMPTY_SLOT;
    assert [e, e, e][..2] == [e, e] && [e, e][..1] == [e] && [e][..0] == [];
    assert Contents([e]) == map[];
    assert Contents([e, e]) == map[];
  }
}
