/** The operations on the saved peers: a read of the record, a change in place and one write of the whole record. */
module PeerStore {
  import opened Basics
  import opened Bytes
  import opened Checksums
  import opened PeerTable

  datatype Error = OK | NO_MEM | NOT_FOUND | INVALID_STATE | OTHER

  datatype Found = Found(mac: seq<Byte>, entry: Entry) | Missing

  /** The used slots, in order. */
  function UsedSlots(peers: seq<Slot>): seq<Slot> {
    if peers == [] then []
    else UsedSlots(peers[..|peers| - 1]) + if peers[|peers| - 1].used != 0 then [peers[|peers| - 1]] else []
  }

  lemma {:induction false} UsedSlotsFacts(peers: seq<Slot>)
    ensures |UsedSlots(peers)| == UsedCount(peers)
    ensures forall k :: 0 <= k < |UsedSlots(peers)| ==> HeldIn(peers, UsedSlots(peers)[k].mac)
    ensures forall slot :: slot in UsedSlots(peers) <==> slot in peers && slot.used != 0
  {
    if peers == [] {
    } else {
      var n := |peers| - 1;
      UsedSlotsFacts(peers[..n]);
      assert peers == peers[..n] + [peers[n]];
      forall k | 0 <= k < |UsedSlots(peers)|
        ensures HeldIn(peers, UsedSlots(peers)[k].mac)
      {
        var slot := UsedSlots(peers)[k];
        assert slot in UsedSlots(peers);
        var i :| 0 <= i < |peers| && peers[i] == slot;
        assert Holds(peers[i], slot.mac);
      }
    }
  }

  /** Filling the slot of an address, or a free slot for a new one, keeps the table sound. */
  lemma FilledSound(t: Table, k: nat, slot: Slot)
    requires Sound(t) && k < |t.peers| && slot.used != 0 && slot.Shaped()
    requires Holds(t.peers[k], slot.mac) || (t.peers[k].used == 0 && slot.mac !in Contents(t.peers))
    ensures
      var t' := t.(count := if t.peers[k].used == 0 then t.count + 1 else t.count, peers := t.peers[k := slot]);
      Sound(t') && Contents(t'.peers) == Contents(t.peers)[slot.mac := EntryOf(slot)]
  {
    hide Contents, Distinct, Holds;
    FilledContents(t.peers, k, slot);
    UsedCountUpdate(t.peers, k, slot);
    AllUsed(t.peers[k := slot]);
  }

  lemma ClearedSound(t: Table, k: nat)
    requires Sound(t) && k < |t.peers| && t.peers[k].used != 0
    ensures
      var t' := t.(count := if t.count > 0 then t.count - 1 else t.count, peers := t.peers[k := EMPTY_SLOT]);
      Sound(t') && Contents(t'.peers) == Contents(t.peers) - {t.peers[k].mac}
  {
    hide Contents, Distinct;
    ClearedContents(t.peers, k);
    UsedCountUpdate(t.peers, k, EMPTY_SLOT);
  }

  /** What was written is what is read. */
  lemma SoundRecord(t: Table)
    requires Sound(t)
    ensures ValidRecord(Record(t)) && Loaded(Record(t)) == t
  {
    SoundSize(t);
    RecordRoundTrip(t);
    hide Record, ValidRecord, Distinct, Contents, UsedCount;
  }

  class Store {
    /** The NVS record, as kept in flash and in its cache. */
    var record: seq<Byte>

    ghost predicate Valid()
      reads this
    {
      |record| == RECORD_SIZE && Sound(Loaded(record))
    }

    /** What is saved: a map of at most three peers. */
    ghost function Peers(): map<seq<Byte>, Entry>
      requires |record| == RECORD_SIZE
      reads this
    {
      Contents(Loaded(record).peers)
    }

    /** A first start: the default table. */
    constructor ()
      ensures Valid() && Peers() == map[]
    {
      hide Record, Loaded, DefaultTable, ValidRecord, Sound, Distinct, Contents, UsedCount;
      DefaultIsSound();
      SoundRecord(DefaultTable());
      record := Record(DefaultTable());
    }

    /** `calculate_checksum`. */
    static method CalculateChecksum(data: seq<Byte>) returns (hash: Hash)
      ensures hash == HashOf(data)
    {
      hash := FNV_OFFSET;
      for i := 0 to |data|
        invariant hash == Fold(FnvStep, FNV_OFFSET, data[..i])
      {
        assert data[..i + 1][..i] == data[..i];
        hash := FnvStep(hash, data[i]);
      }
      assert data[..|data|] == data;
    }

    /** Seal the table with its checksum and write the whole record, or nothing. */
    method Set(t: Table, ok: bool)
      requires Valid() && Sound(t)
      modifies this
      ensures Valid()
      ensures if ok then Loaded(record) == t && ValidRecord(record) else record == old(record)
    {
      SoundRecord(t);
      hide Loaded, ValidRecord, Distinct, Contents, UsedCount;
      if ok {
        var body := Body(t);
        var checksum := CalculateChecksum(body);
        record := body + StoreLe(checksum, 4);
      }
    }

    /** `load_store`: a record that is not valid reads as an empty table, and is replaced by one. */
    method LoadStore(resetOk: bool) returns (t: Table)
      requires Valid()
      modifies this
      ensures Valid() && t == Loaded(record) == old(Loaded(record))
      ensures old(ValidRecord(record)) ==> record == old(record)
    {
      var hash := CalculateChecksum(record[..HASHED]);
      if LoadLe(record[..4]) == MAGIC && record[4] == VERSION && Value(record[5]) <= MAX_SAVED_PEERS
         && LoadLe(record[HASHED..]) == hash {
        t := Parse(record);
      } else {
        DefaultIsSound();
        t := DefaultTable();
        Set(t, resetOk);
      }
    }

    /** The slot of this address, or the first free slot, or none. */
    static method FindSlot(peers: seq<Slot>, mac: seq<Byte>) returns (slot: nat)
      requires Distinct(peers)
      ensures slot <= |peers|
      ensures slot < |peers| ==>
                if peers[slot].used != 0 then Holds(peers[slot], mac) && mac in Contents(peers)
                else mac !in Contents(peers)
      ensures slot == |peers| ==> mac !in Contents(peers) && forall i :: 0 <= i < |peers| ==> peers[i].used != 0
    {
      ContentsAt(peers, mac);
      slot := |peers|;
      for i := 0 to |peers|
        invariant forall j :: 0 <= j < i ==> !Holds(peers[j], mac)
        invariant slot < i || slot == |peers|
        invariant slot < i ==> peers[slot].used == 0
        invariant slot == |peers| ==> forall j :: 0 <= j < i ==> peers[j].used != 0
      {
        if Holds(peers[i], mac) {
          slot := i;
          return;
        }
        if peers[i].used == 0 && slot == |peers| {
          slot := i;
        }
      }
    }

    /** The position of this address, or the length. */
    static method FindPeer(peers: seq<Slot>, mac: seq<Byte>) returns (slot: nat)
      requires Distinct(peers)
      ensures slot <= |peers|
      ensures if slot < |peers| then Holds(peers[slot], mac) && mac in Contents(peers) else mac !in Contents(peers)
    {
      slot := 0;
      ContentsAt(peers, mac);
      while slot < |peers|
        invariant slot <= |peers|
        invariant forall j :: 0 <= j < slot ==> !Holds(peers[j], mac)
      {
        if Holds(peers[slot], mac) {
          return;
        }
        slot := slot + 1;
      }
    }

    /** The run-time peers that a replacing save removes: all the old ones but the new one. */
    static method OtherPeers(peers: seq<Slot>, mac: seq<Byte>) returns (dropped: seq<seq<Byte>>)
      requires Distinct(peers)
      ensures forall m :: m in dropped <==> m in Contents(peers) && m != mac
    {
      dropped := [];
      for i := 0 to |peers|
        invariant forall m :: m in dropped <==> m != mac && exists j :: 0 <= j < i && Holds(peers[j], m)
      {
        if peers[i].used != 0 && peers[i].mac != mac {
          dropped := dropped + [peers[i].mac];
        }
      }
      forall m
        ensures m in dropped <==> m in Contents(peers) && m != mac
      {
        ContentsAt(peers, m);
      }
    }

    /** `save_peer`: update the slot of the same address or take a free slot; replacing clears the table first. */
    method SavePeer(mac: seq<Byte>, entry: Entry, replace: bool, resetOk: bool, saveOk: bool)
      returns (error: Error, dropped: seq<seq<Byte>>)
      requires Valid() && |mac| == 6 && |entry.lmk| == 16
      modifies this
      ensures Valid()
      ensures error == NO_MEM <==> !replace && mac !in old(Peers()) && |old(Peers())| == MAX_SAVED_PEERS
      ensures error == OK <==> error != NO_MEM && saveOk
      ensures error == OK ==> Peers() == (if replace then map[] else old(Peers()))[mac := entry] && ValidRecord(record)
      ensures error != OK ==> Peers() == old(Peers()) && (old(ValidRecord(record)) ==> record == old(record))
      ensures forall m :: m in dropped <==> error == OK && replace && m in old(Peers()) && m != mac
    {
      hide Loaded, ValidRecord, Distinct, Contents, UsedCount;
      var previous := LoadStore(resetOk);
      DefaultIsSound();
      SoundSize(previous);
      AllUsed(previous.peers);
      dropped := [];
      var t := if replace then DefaultTable() else previous;
      var slot := FindSlot(t.peers, mac);
      AllUsed(t.peers);
      if slot == |t.peers| {
        return NO_MEM, [];
      }
      var filled := EMPTY_SLOT.(used := 1, role := entry.role, mac := mac, lmk := entry.lmk, channel := entry.channel);
      FilledSound(t, slot, filled);
      t := t.(count := if t.peers[slot].used == 0 then t.count + 1 else t.count, peers := t.peers[slot := filled]);
      Set(t, saveOk);
      error := if saveOk then OK else OTHER;
      if saveOk && replace {
        dropped := OtherPeers(previous.peers, mac);
      }
    }

    /** `erase_peer`. */
    method ErasePeer(mac: seq<Byte>, resetOk: bool, saveOk: bool) returns (error: Error)
      requires Valid()
      modifies this
      ensures Valid()
      ensures error == NOT_FOUND <==> mac !in old(Peers())
      ensures error == OK <==> mac in old(Peers()) && saveOk
      ensures error == OK ==> Peers() == old(Peers()) - {mac} && ValidRecord(record)
      ensures error != OK ==> Peers() == old(Peers()) && (old(ValidRecord(record)) ==> record == old(record))
    {
      hide Loaded, ValidRecord, Distinct, Contents, UsedCount;
      var t := LoadStore(resetOk);
      var slot := FindPeer(t.peers, mac);
      if slot == |t.peers| {
        return NOT_FOUND;
      }
      ClearedSound(t, slot);
      t := t.(count := if t.count > 0 then t.count - 1 else t.count, peers := t.peers[slot := EMPTY_SLOT]);
      Set(t, saveOk);
      error := if saveOk then OK else OTHER;
    }

    /** `update_peer_channel`; `refreshed` is what the link is given as run-time peer, and `linkError` its answer. */
    method UpdatePeerChannel(mac: seq<Byte>, channel: Byte, resetOk: bool, saveOk: bool, linkError: Error)
        returns (error: Error, refreshed: Option<Entry>)
      requires Valid()
      modifies this
      ensures Valid()
      ensures error == if mac !in old(Peers()) then NOT_FOUND else if !saveOk then OTHER else linkError
      ensures refreshed == if mac in old(Peers()) && saveOk then Some(old(Peers())[mac].(channel := channel)) else None
      ensures refreshed.Some? ==> Peers() == old(Peers())[mac := refreshed.value] && ValidRecord(record)
      ensures refreshed == None ==> Peers() == old(Peers()) && (old(ValidRecord(record)) ==> record == old(record))
    {
      hide Loaded, ValidRecord, Distinct, Contents, UsedCount;
      var t := LoadStore(resetOk);
      var slot := FindPeer(t.peers, mac);
      if slot == |t.peers| {
        return NOT_FOUND, None;
      }
      var changed := t.peers[slot].(channel := channel);
      ContentsAt(t.peers, mac);
      FilledSound(t, slot, changed);
      t := t.(peers := t.peers[slot := changed]);
      Set(t, saveOk);
      if !saveOk { return OTHER, None; }
      return linkError, Some(EntryOf(changed));
    }

    /** `erase_all_peers`. */
    method EraseAllPeers(saveOk: bool) returns (error: Error)
      requires Valid()
      modifies this
      ensures Valid() && (error == OK <==> saveOk)
      ensures error == OK ==> Peers() == map[] && ValidRecord(record)
      ensures error != OK ==> record == old(record)
    {
      DefaultIsSound();
      Set(DefaultTable(), saveOk);
      error := if saveOk then OK else OTHER;
    }

    /** `retain_first_peer`: what is left is the first of the peers there were. */
    method RetainFirstPeer(resetOk: bool, saveOk: bool) returns (error: Error, dropped: seq<seq<Byte>>)
      requires Valid()
      modifies this
      ensures Valid()
      ensures error == OK <==> |old(Peers())| <= 1 || saveOk
      ensures error == OK ==> |Peers()| <= 1
      ensures error == OK ==> forall m :: m in Peers() ==> m in old(Peers()) && Peers()[m] == old(Peers())[m]
      ensures error == OK && old(Peers()) != map[] ==>
                && |UsedSlots(old(Loaded(record)).peers)| > 0
                && UsedSlots(old(Loaded(record)).peers)[0].mac in Peers()
      ensures error != OK ==> Peers() == old(Peers())
      ensures forall m :: m in dropped <==> error == OK && m in old(Peers()) && m !in Peers()
    {
      hide Loaded, ValidRecord, Distinct, Contents, UsedCount;
      var t := LoadStore(resetOk);
      SoundSize(t);
      dropped := [];
      FirstHeld(t.peers);
      if t.count <= 1 {
        return OK, [];
      }
      var slot := 0;
      while slot < |t.peers| && t.peers[slot].used == 0
        invariant slot <= |t.peers|
        invariant forall j :: 0 <= j < slot ==> t.peers[j].used == 0
      {
        slot := slot + 1;
      }
      if slot == |t.peers| {
        NoneUsed(t.peers);
        assert false;
      }
      FirstUsed(t.peers, slot);
      var first := t.peers[slot];
      assert Holds(t.peers[slot], first.mac);
      ContentsAt(t.peers, first.mac);
      error, dropped := SavePeer(first.mac, Entry(first.lmk, first.channel, first.role), true, resetOk, saveOk);
    }

    /** `read_saved_peer`: the used slots, in order. */
    method ReadSavedPeer(index: nat, resetOk: bool) returns (found: Found)
      requires Valid()
      modifies this
      ensures Valid() && Peers() == old(Peers())
      ensures found.Missing? <==> index >= |Peers()|
      ensures found.Found? ==> found.mac in Peers() && found.entry == Peers()[found.mac]
      ensures found.Found? ==> index < |UsedSlots(Loaded(record).peers)|
      ensures found.Found? ==> found.mac == UsedSlots(Loaded(record).peers)[index].mac
    {
      hide Loaded, ValidRecord, Distinct;
      var t := LoadStore(resetOk);
      SoundSize(t);
      UsedSlotsFacts(t.peers);
      var current := 0;
      for i := 0 to |t.peers|
        invariant current == |UsedSlots(t.peers[..i])| <= index
        invariant Valid() && t == Loaded(record) == old(Loaded(record))
      {
        assert t.peers[..i + 1][..i] == t.peers[..i];
        if t.peers[i].used != 0 {
          UsedPrefix(t.peers, i);
          if current == index {
            assert Holds(t.peers[i], t.peers[i].mac);
            ContentsAt(t.peers, t.peers[i].mac);
            return Found(t.peers[i].mac, EntryOf(t.peers[i]));
          }
          current := current + 1;
        }
      }
      assert t.peers[..|t.peers|] == t.peers;
      found := Missing;
    }

    /** The first used slot holds a saved peer. */
    static lemma FirstHeld(peers: seq<Slot>)
      requires Distinct(peers)
      ensures Contents(peers) != map[] ==> |UsedSlots(peers)| > 0 && UsedSlots(peers)[0].mac in Contents(peers)
    {
      ContentsSize(peers);
      UsedSlotsFacts(peers);
      if Contents(peers) != map[] { ContentsAt(peers, UsedSlots(peers)[0].mac); }
    }

    static lemma FirstUsed(peers: seq<Slot>, slot: nat)
      requires slot < |peers| && peers[slot].used != 0 && forall j :: 0 <= j < slot ==> peers[j].used == 0
      ensures |UsedSlots(peers)| > 0 && UsedSlots(peers)[0] == peers[slot]
    {
      NoneUsed(peers[..slot]);
      UsedSlotsFacts(peers[..slot]);
      UsedPrefix(peers, slot);
    }

    static lemma {:induction false} UsedPrefix(peers: seq<Slot>, i: nat)
      requires i < |peers| && peers[i].used != 0
      ensures |UsedSlots(peers[..i])| < |UsedSlots(peers)| && UsedSlots(peers)[|UsedSlots(peers[..i])|] == peers[i]
      decreases |peers|
    {
      var n := |peers| - 1;
      if i < n {
        UsedPrefix(peers[..n], i);
        assert peers[..n][..i] == peers[..i];
      }
    }
  }
}
