/** The log on top of the flash ring: texts and data are queued as records, one consumer writes them, and readers put
    texts together again. */
module Blackbox {
  import opened Basics
  import opened Bytes
  import opened BlackboxRecords
  import opened BlackboxText
  import opened FlashLayout
  import FlashRuns
  import CircularFlashBuffer

  const QUEUE_SIZE: nat := 64

  datatype Status = Ok | Fail | InvalidArg | InvalidState

  datatype Item = Write(record: Record) | EraseAll | Barrier

  function Writes(records: seq<Record>): seq<Item> {
    seq(|records|, i requires 0 <= i < |records| => Write(records[i]))
  }

  predicate AllQueued(queue: seq<Item>) {
    forall i :: 0 <= i < |queue| && queue[i].Write? ==> queue[i].record.Valid()
  }

  /** The records a reader gets from a ring, newest first, whatever its flash holds. */
  ghost function Recorded(g: Geometry, ring: FlashRuns.Ring): (rs: seq<Option<Record>>)
    requires FlashRuns.Shaped(g, ring) && g.blockSize == RECORD_SIZE
    ensures |rs| == ring.memory.count && forall i :: 0 <= i < |rs| && rs[i].Some? ==> rs[i].value.Valid()
  {
    seq(ring.memory.count, i requires 0 <= i => Decode(FlashRuns.ReadAt(g, ring, i)))
  }

  /** The readable records of a ring that has written `contents` and keeps the last `n`, newest first. */
  function Readable(contents: seq<Block>, n: nat): (rs: seq<Option<Record>>)
    requires n <= |contents| && forall k :: 0 <= k < |contents| ==> |contents[k]| == RECORD_SIZE
    ensures |rs| == n && forall i :: 0 <= i < n && rs[i].Some? ==> rs[i].value.Valid()
  {
    seq(n, i requires 0 <= i < n => Decode(contents[|contents| - 1 - i]))
  }

  function Encoded(records: seq<Record>): seq<Block>
    requires forall k :: 0 <= k < |records| ==> records[k].Valid()
  {
    seq(|records|, k requires 0 <= k < |records| => Encode(records[k]))
  }

  lemma {:induction false} StoredAllValid(ms: seq<Message>)
    requires AllValid(ms)
    ensures forall k :: 0 <= k < |StoredAll(ms)| ==> StoredAll(ms)[k].Valid()
  {
    if ms == [] {
    } else {
      StoredAllValid(ms[..|ms| - 1]);
      StoredSize(ms[|ms| - 1]);
    }
  }

  /** From the bytes in flash: a ring that has written the records of some messages and keeps the last `n` of them is
      read back as those messages, newest first, the oldest one possibly cut at a fragment. */
  lemma FlashDecodes(ms: seq<Message>, contents: seq<Block>, n: nat)
    requires AllValid(ms)
    requires forall k :: 0 <= k < |StoredAll(ms)| ==> StoredAll(ms)[k].Valid()
    requires contents == Encoded(StoredAll(ms)) && n <= |contents|
    ensures Walk(Readable(contents, n)) == Expected(ms, n)
  {
    hide Walk, Expected, Encode, Decode, StoredAll;
    var all := StoredAll(ms);
    forall i | 0 <= i < n
      ensures Readable(contents, n)[i] == Newest(all, n)[i]
    {
      DecodeOfEncode(all[|all| - 1 - i]);
    }
    assert Readable(contents, n) == Newest(all, n);
    UniqueDecoding(ms, n);
  }

  /** A ring that refines a list of records is read as that list. */
  lemma RecordedIsReadable(g: Geometry, ring: FlashRuns.Ring, list: seq<Block>)
    requires FlashRuns.Shaped(g, ring) && g.blockSize == RECORD_SIZE && ring.memory.count <= |list|
    requires forall k :: 0 <= k < |list| ==> |list[k]| == RECORD_SIZE
    requires forall i: nat :: i < ring.memory.count ==> FlashRuns.ReadAt(g, ring, i) == list[|list| - 1 - i]
    ensures Recorded(g, ring) == Readable(list, ring.memory.count)
  {
    hide FlashRuns.ReadAt, FlashRuns.Shaped, Decode;
  }

  class Log {
    const store: CircularFlashBuffer.Driver
    var queue: seq<Item>
    var enabled: bool

    /** The driver is attached to a flash, which may hold anything. */
    ghost predicate Valid()
      reads this, store, store.partition, store.pageBuffer
    {
      && store.Steady() && store.ready && store.blockSize == RECORD_SIZE
      && |queue| <= QUEUE_SIZE && AllQueued(queue)
    }

    ghost function Contents(): seq<Block>
      reads store
    {
      store.Contents()
    }

    /** What a reader gets. */
    ghost function Records(): (rs: seq<Option<Record>>)
      requires Valid()
      reads this, store, store.partition, store.pageBuffer
      ensures |rs| == store.blockCount && forall i :: 0 <= i < |rs| && rs[i].Some? ==> rs[i].value.Valid()
    {
      Recorded(store.Shape(), store.Ring())
    }

    constructor (driver: CircularFlashBuffer.Driver)
      requires driver.Steady() && driver.ready && driver.blockSize == RECORD_SIZE
      ensures Valid() && store == driver && queue == [] && enabled
    {
      store, queue, enabled := driver, [], true;
    }

    /** `queue_record` without waiting. */
    method QueueRecord(r: Record) returns (status: Status)
      requires |queue| <= QUEUE_SIZE
      modifies this`queue
      ensures status == if |old(queue)| < QUEUE_SIZE then Ok else Fail
      ensures queue == if status == Ok then old(queue) + [Write(r)] else old(queue)
    {
      if |queue| >= QUEUE_SIZE { return Fail; }
      queue := queue + [Write(r)];
      status := Ok;
    }

    /** `append_text` once it has the mutex: all the records of the text are queued, or none. */
    method AppendText(formatted: seq<Byte>, time: nat) returns (status: Status)
      requires Valid()
      modifies this`queue
      ensures Valid()
      ensures
        var m := Text(time % 0x1_0000_0000, Kept(formatted));
        && status == (if !enabled then InvalidState
                      else if |old(queue)| + |Stored(m)| <= QUEUE_SIZE then Ok else Fail)
        && queue == (if status == Ok then old(queue) + Writes(Stored(m)) else old(queue))
        && IsKept(formatted, m.text) && m.Valid()
    {
      KeptIsLongest(formatted);
      hide IsKept;
      if !enabled { return InvalidState; }
      var buf, timestamp := Kept(formatted), time % 0x1_0000_0000;
      FragmentCount(buf);
      StoredSize(Text(timestamp, buf));
      if |buf| < PAYLOAD_SIZE {
        assert Writes(Stored(Text(timestamp, buf))) == [Write(Record(STRING, timestamp, Padded(buf)))];
        status := QueueRecord(Record(STRING, timestamp, Padded(buf)));
      } else {
        status := QueueFragments(buf, timestamp);
      }
    }

    /** The loop over the fragments of a long text. */
    method QueueFragments(buf: seq<Byte>, timestamp: nat) returns (status: Status)
      requires |queue| <= QUEUE_SIZE && PAYLOAD_SIZE <= |buf| < TEXT_BUFFER_SIZE && NoNul(buf)
      modifies this`queue
      ensures
        var records := TextRecords(timestamp, Fragments(buf));
        && status == (if |old(queue)| + |records| <= QUEUE_SIZE then Ok else Fail)
        && queue == if status == Ok then old(queue) + Writes(records) else old(queue)
    {
      hide Fragments, CString, TextRecords, NoNul;
      FragmentCount(buf);
      var fragments := (|buf| + PAYLOAD_SIZE) / PAYLOAD_SIZE;
      if fragments > MAX_TEXT_FRAGMENTS { fragments := MAX_TEXT_FRAGMENTS; }
      ghost var records := TextRecords(timestamp, Fragments(buf));
      TextRecordsAt(timestamp, Fragments(buf));
      if QUEUE_SIZE - |queue| < fragments { return Fail; }
      for i := 0 to fragments
        invariant |queue| == |old(queue)| + i
        invariant queue == old(queue) + Writes(records[..i])
      {
        var payload := Payload(buf, i, fragments);
        assert Writes(records[..i + 1]) == Writes(records[..i]) + [Write(records[i])];
        status := QueueRecord(Record(STRING, timestamp, payload));
        if status != Ok { return; }
      }
      assert records[..fragments] == records;
      status := Ok;
    }

    /** The bytes of one fragment: 25 of the text, or what is left of it and a closing NUL. */
    static method Payload(buf: seq<Byte>, i: nat, fragments: nat) returns (payload: seq<Byte>)
      requires i < fragments == |Fragments(buf)| && NoNul(buf)
      ensures payload == Fragments(buf)[i]
    {
      hide Fragments, CString;
      FragmentAt(buf, i);
      var offset := i * PAYLOAD_SIZE;
      if i == fragments - 1 {
        var remaining := |buf| - offset;
        if remaining >= PAYLOAD_SIZE { remaining := PAYLOAD_SIZE - 1; }
        payload := Padded(buf[offset..offset + remaining]);
        assert buf[offset..offset + remaining] == buf[offset..];
      } else {
        payload := buf[offset..offset + PAYLOAD_SIZE];
      }
    }

    /** `append_typed` once it has the mutex. */
    method AppendTyped(kind: Byte, payload: seq<Byte>, time: nat) returns (status: Status)
      requires Valid()
      modifies this`queue
      ensures Valid()
      ensures status == (if |payload| > PAYLOAD_SIZE then InvalidArg else if !enabled then InvalidState
                         else if |old(queue)| < QUEUE_SIZE then Ok else Fail)
      ensures status != Ok ==> queue == old(queue)
      ensures status == Ok ==> queue == old(queue) + [Write(Record(kind, time % 0x1_0000_0000, Padded(payload)))]
      ensures status == Ok ==> Data(time % 0x1_0000_0000, payload).Valid()
    {
      if |payload| > PAYLOAD_SIZE { return InvalidArg; }
      if !enabled { return InvalidState; }
      status := QueueRecord(Record(kind, time % 0x1_0000_0000, Padded(payload)));
    }

    /** One turn of the consumer task: take the oldest item and carry it out. The result is what a waiting caller is
        told; a record whose page is not programmed is lost. */
    method Consume(programSucceeds: bool) returns (result: CircularFlashBuffer.Status)
      requires Valid() && queue != []
      modifies this`queue, store`log, store`nowWritePage, store`blockPageIndex, store`blockCount, store.pageBuffer,
        store.partition
      ensures Valid() && queue == old(queue)[1..] && (old(store.Valid()) ==> store.Valid())
      ensures result == match old(queue)[0]
                        case Write(_) => if !store.enabled then CircularFlashBuffer.NotSupported
                                         else if programSucceeds then CircularFlashBuffer.Ok
                                         else CircularFlashBuffer.InvalidState
                        case EraseAll => CircularFlashBuffer.Ok
                        case Barrier => CircularFlashBuffer.Ok
      ensures
        var before := old(store.Ring());
        store.Ring() == match old(queue)[0]
                        case Write(r) =>
                          if result == CircularFlashBuffer.Ok
                          then FlashRuns.Written(store.Shape(), before, Encode(r)) else before
                        case EraseAll => FlashRuns.Erased(store.Shape())
                        case Barrier => before
      ensures old(store.Valid()) ==>
                Contents() == match old(queue)[0]
                              case Write(r) => if result == CircularFlashBuffer.Ok then old(Contents()) + [Encode(r)]
                                               else old(Contents())
                              case EraseAll => []
                              case Barrier => old(Contents())
    {
      hide FlashRuns.Written, FlashRuns.Erased, FlashRuns.Shaped, Crc8;
      var item := queue[0];
      queue := queue[1..];
      match item
      case Write(r) =>
        var crc := CalculateCrc8(Body(r));
        result := store.WriteBlock(Body(r) + [crc], programSucceeds);
      case EraseAll =>
        result := store.EraseAll();
      case Barrier =>
        result := CircularFlashBuffer.Ok;
    }

    /** `read`. */
    method Read(index: nat) returns (r: Option<Record>)
      requires Valid()
      ensures r == if index < |Records()| then Records()[index] else None
    {
      hide FlashRuns.ReadAt, FlashRuns.Shaped, Crc8;
      var status, data := store.ReadBlock(index);
      if status != CircularFlashBuffer.Ok { return None; }
      var crc := CalculateCrc8(data[..RECORD_SIZE - 1]);
      assert Records()[index] == Decode(data);
      if data[0] != BLOCK_SOF || data[RECORD_SIZE - 1] != crc { return None; }
      r := Decode(data);
    }

    /** The loop of `read_text` that collects the earlier records of a text. */
    method Collect(index: nat, first: Option<Record>) returns (fragments: seq<Option<Record>>)
      requires Valid() && index < |Records()| && first == Records()[index] && EndsText(first)
      ensures
        var rs := Records()[index..];
        && 1 <= |fragments| <= |rs| && fragments == rs[..|fragments|]
        && TextAt(rs) == TextRecord(Reassembled(fragments), |fragments|)
    {
      hide CircularFlashBuffer.Driver.Steady, TextAt, Reassembled, Recorded;
      ghost var rs := Records();
      fragments := [first];
      while |fragments| < MAX_TEXT_FRAGMENTS && index + |fragments| < store.blockCount
        invariant 1 <= |fragments| <= MAX_TEXT_FRAGMENTS && index + |fragments| <= |rs|
        invariant fragments == rs[index..index + |fragments|]
        invariant forall i :: 0 < i < |fragments| ==> Continues(fragments[i], first.value.timestamp)
      {
        var previous := Read(index + |fragments|);
        if !Continues(previous, first.value.timestamp) { break; }
        fragments := fragments + [previous];
      }
      CollectedAll(rs[index..], fragments);
    }

    /** `read_text`: the text that ends at this record, in a buffer of 200 bytes and closed by a NUL. Every write stays
        inside the buffer whatever the flash holds. */
    method ReadText(index: nat) returns (text: array<Byte>, recordCount: nat)
      requires Valid()
      ensures fresh(text) && text.Length == TEXT_BUFFER_SIZE
      ensures
        var t := TextAt(if index <= |Records()| then Records()[index..] else []);
        && recordCount == t.recordCount && |t.text| < TEXT_BUFFER_SIZE
        && text[..|t.text|] == t.text && text[|t.text|] == 0
    {
      hide CircularFlashBuffer.Driver.Steady, Reassembled, Older, Recorded;
      text := new Byte[TEXT_BUFFER_SIZE](_ => 0);
      var first := Read(index);
      if !EndsText(first) { return text, 0; }
      var fragments := Collect(index, first);
      recordCount := |fragments|;
      Join(text, fragments);
    }

    /** The loop that copies the strings, oldest first, and closes the text. */
    static method Join(text: array<Byte>, fragments: seq<Option<Record>>)
      requires text.Length == TEXT_BUFFER_SIZE && 1 <= |fragments| <= MAX_TEXT_FRAGMENTS
      requires forall i :: 0 <= i < |fragments| ==> fragments[i].Some? && |fragments[i].value.payload| == PAYLOAD_SIZE
      requires 0 in fragments[0].value.payload
      modifies text
      ensures |Reassembled(fragments)| < TEXT_BUFFER_SIZE
      ensures text[..|Reassembled(fragments)|] == Reassembled(fragments) && text[|Reassembled(fragments)|] == 0
    {
      hide CString, Reassembled;
      var offset, i := 0, |fragments|;
      NothingReassembled(fragments[i..]);
      while i > 0
        invariant 0 <= i <= |fragments|
        invariant 0 <= offset <= PAYLOAD_SIZE * (|fragments| - i) - if i == 0 then 1 else 0
        invariant text[..offset] == Reassembled(fragments[i..])
      {
        var part := CString(fragments[i - 1].value.payload);
        PartLength(fragments[i - 1].value.payload);
        ReassembledNext(fragments, i);
        CopyTo(text, offset, part);
        offset := offset + |part|;
        i := i - 1;
      }
      assert fragments[0..] == fragments;
      text[offset] := 0;
    }

    /** `memcpy`. */
    static method CopyTo(text: array<Byte>, offset: nat, part: seq<Byte>)
      requires offset + |part| <= text.Length
      modifies text
      ensures text[..offset + |part|] == old(text[..offset]) + part
    {
      forall j | 0 <= j < |part| { text[offset + j] := part[j]; }
    }
  }

  lemma TextRecordsAt(timestamp: nat, fragments: seq<seq<Byte>>)
    ensures |TextRecords(timestamp, fragments)| == |fragments|
    ensures forall i :: 0 <= i < |fragments| ==>
              TextRecords(timestamp, fragments)[i] == Record(STRING, timestamp, fragments[i])
  {
  }

  lemma PartLength(payload: seq<Byte>)
    ensures |CString(payload)| <= |payload|
    ensures 0 in payload ==> |CString(payload)| < |payload|
  {
    CStringFacts(payload);
  }

  lemma ReassembledNext(fragments: seq<Option<Record>>, i: nat)
    requires 0 < i <= |fragments| && fragments[i - 1].Some?
    ensures Reassembled(fragments[i - 1..]) == Reassembled(fragments[i..]) + CString(fragments[i - 1].value.payload)
  {
    assert fragments[i - 1..][1..] == fragments[i..];
  }

  /** The loop of `read_text` collects exactly the records of the text. */
  lemma CollectedAll(rs: seq<Option<Record>>, fragments: seq<Option<Record>>)
    requires 1 <= |fragments| <= |rs| && |fragments| <= MAX_TEXT_FRAGMENTS && fragments == rs[..|fragments|]
    requires rs[0].Some? && EndsText(rs[0])
    requires forall i :: 0 < i < |fragments| ==> Continues(fragments[i], rs[0].value.timestamp)
    requires |fragments| < |rs| && |fragments| < MAX_TEXT_FRAGMENTS ==>
             !Continues(rs[|fragments|], rs[0].value.timestamp)
    ensures TextAt(rs) == TextRecord(Reassembled(fragments), |fragments|)
  {
    hide Reassembled, Continues, EndsText, Older, CString;
    assert forall i :: 0 <= i < |fragments| - 1 ==> rs[1..][i] == fragments[i + 1];
    OlderExact(rs[1..], rs[0].value.timestamp, |fragments| - 1, MAX_TEXT_FRAGMENTS - 1);
  }

  /** Whatever records a ring gives, valid or not, the text read fits the buffer with its closing NUL. */
  lemma TextFits(rs: seq<Option<Record>>)
    requires forall i :: 0 <= i < |rs| && rs[i].Some? ==> rs[i].value.Valid()
    ensures |TextAt(rs).text| < TEXT_BUFFER_SIZE
  {
    var k := TextAt(rs).recordCount;
    if k > 0 {
      PartLength(rs[0].value.payload);
      ReassembledBound(rs[1..k]);
      assert rs[..k][1..] == rs[1..k] && rs[..k][0] == rs[0];
    }
  }

  lemma {:induction false} ReassembledBound(rs: seq<Option<Record>>)
    requires forall i :: 0 <= i < |rs| && rs[i].Some? ==> rs[i].value.Valid()
    ensures |Reassembled(rs)| <= PAYLOAD_SIZE * |rs|
  {
    if rs == [] {
    } else {
      ReassembledBound(rs[1..]);
      if rs[0].Some? { PartLength(rs[0].value.payload); }
    }
  }
}
