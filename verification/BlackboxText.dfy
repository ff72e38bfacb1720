/** Long texts as runs of records, and how a reader walking from the newest record finds them again. */
module BlackboxText {
  import opened Basics
  import opened Bytes
  import opened BlackboxRecords

  const MAX_TEXT_FRAGMENTS: nat := 8
  const TEXT_BUFFER_SIZE: nat := MAX_TEXT_FRAGMENTS * PAYLOAD_SIZE

  // ---- C strings ----

  predicate NoNul(s: seq<Byte>) {
    forall i :: 0 <= i < |s| ==> s[i] != 0
  }

  /** The string before the first NUL, or all of it. */
  function CString(s: seq<Byte>): (text: seq<Byte>)
    ensures |text| <= |s| && NoNul(text)
  {
    if s == [] || s[0] == 0 then [] else [s[0]] + CString(s[1..])
  }

  lemma {:induction false} CStringFacts(s: seq<Byte>)
    ensures CString(s) == s[..|CString(s)|]
    ensures |CString(s)| < |s| ==> s[|CString(s)|] == 0
    ensures |CString(s)| == |s| <==> NoNul(s)
  {
    if s == [] || s[0] == 0 {
    } else {
      CStringFacts(s[1..]);
    }
  }

  lemma {:induction false} CStringOfPadded(text: seq<Byte>, rest: seq<Byte>)
    requires NoNul(text) && (rest == [] || rest[0] == 0)
    ensures CString(text + rest) == text
  {
    if text == [] {
      assert text + rest == rest;
    } else {
      CStringOfPadded(text[1..], rest);
      assert (text + rest)[1..] == text[1..] + rest;
    }
  }

  // ---- fragments ----

  function Zeros(n: nat): seq<Byte> {
    seq(n, _ => 0)
  }

  function Padded(s: seq<Byte>): (p: seq<Byte>)
    requires |s| <= PAYLOAD_SIZE
    ensures |p| == PAYLOAD_SIZE
  {
    s + Zeros(PAYLOAD_SIZE - |s|)
  }

  /** The bytes themselves, and zeros behind them. */
  lemma PaddedIs(s: seq<Byte>)
    requires |s| <= PAYLOAD_SIZE
    ensures Padded(s)[..|s|] == s && forall i :: |s| <= i < PAYLOAD_SIZE ==> Padded(s)[i] == 0
  {
  }

  /** Full payloads without NUL, then one with: possibly an empty text. */
  function Fragments(text: seq<Byte>): seq<seq<Byte>> {
    if |text| < PAYLOAD_SIZE then [Padded(text)] else [text[..PAYLOAD_SIZE]] + Fragments(text[PAYLOAD_SIZE..])
  }

  lemma {:induction false} FragmentCount(text: seq<Byte>)
    ensures |Fragments(text)| == |text| / PAYLOAD_SIZE + 1
  {
    if |text| < PAYLOAD_SIZE {
    } else {
      FragmentCount(text[PAYLOAD_SIZE..]);
    }
  }

  /** Fragment `i`: bytes `25 i` to `25 i + 25` of the text, the last one padded; only the last holds a NUL. */
  lemma {:induction false} FragmentAt(text: seq<Byte>, i: nat)
    requires NoNul(text) && i < |Fragments(text)|
    ensures PAYLOAD_SIZE * i <= |text| && |Fragments(text)[i]| == PAYLOAD_SIZE
    ensures i + 1 < |Fragments(text)| ==>
              PAYLOAD_SIZE * i + PAYLOAD_SIZE <= |text|
              && Fragments(text)[i] == text[PAYLOAD_SIZE * i..PAYLOAD_SIZE * i + PAYLOAD_SIZE]
    ensures i + 1 == |Fragments(text)| ==>
              |text| - PAYLOAD_SIZE * i < PAYLOAD_SIZE && Fragments(text)[i] == Padded(text[PAYLOAD_SIZE * i..])
    ensures NoNul(Fragments(text)[i]) <==> i + 1 < |Fragments(text)|
    ensures CString(Fragments(text)[i]) ==
            if i + 1 < |Fragments(text)| then Fragments(text)[i] else text[PAYLOAD_SIZE * i..]
  {
    if |text| < PAYLOAD_SIZE {
      CStringOfPadded(text, Zeros(PAYLOAD_SIZE - |text|));
      assert Padded(text)[|text|] == 0;
      assert text[PAYLOAD_SIZE * i..] == text;
    } else if i == 0 {
      CStringFacts(text[..PAYLOAD_SIZE]);
    } else {
      var rest := text[PAYLOAD_SIZE..];
      FragmentAt(rest, i - 1);
      assert rest[PAYLOAD_SIZE * (i - 1)..] == text[PAYLOAD_SIZE * i..];
    }
  }

  /** The text from its fragment `i` on. */
  function From(text: seq<Byte>, i: nat): seq<Byte> {
    if PAYLOAD_SIZE * i <= |text| then text[PAYLOAD_SIZE * i..] else []
  }

  lemma FragmentText(text: seq<Byte>, i: nat)
    requires NoNul(text) && i < |Fragments(text)|
    ensures From(text, i) == CString(Fragments(text)[i]) + if i + 1 < |Fragments(text)| then From(text, i + 1) else []
  {
    hide Fragments, CString, NoNul;
    FragmentAt(text, i);
    if i + 1 < |Fragments(text)| { FragmentAt(text, i + 1); }
  }

  // ---- reading back ----

  /** A record that can be an earlier part of a text whose last part bears this timestamp. */
  predicate Continues(r: Option<Record>, timestamp: nat) {
    r.Some? && r.value.kind == STRING && r.value.timestamp == timestamp && 0 !in r.value.payload
  }

  /** A record that can end a text. */
  predicate EndsText(r: Option<Record>) {
    r.Some? && r.value.kind == STRING && 0 in r.value.payload
  }

  /** How many records in a row, newest first, are earlier parts. */
  function Older(rs: seq<Option<Record>>, timestamp: nat, most: nat): (k: nat)
    ensures k <= most && k <= |rs|
    ensures forall i :: 0 <= i < k ==> Continues(rs[i], timestamp)
  {
    if most == 0 || rs == [] || !Continues(rs[0], timestamp) then 0 else 1 + Older(rs[1..], timestamp, most - 1)
  }

  /** The strings of some records, given newest first, put together oldest first. */
  function Reassembled(rs: seq<Option<Record>>): seq<Byte> {
    if rs == [] then []
    else Reassembled(rs[1..]) + if rs[0].Some? then CString(rs[0].value.payload) else []
  }

  datatype TextRecord = TextRecord(text: seq<Byte>, recordCount: nat)

  /** `read_text` at the first of these records, newest first. */
  function TextAt(rs: seq<Option<Record>>): (t: TextRecord)
    ensures t.recordCount <= |rs| && t.recordCount <= MAX_TEXT_FRAGMENTS
  {
    if rs == [] || !EndsText(rs[0]) then TextRecord([], 0)
    else
      var k := 1 + Older(rs[1..], rs[0].value.timestamp, MAX_TEXT_FRAGMENTS - 1);
      TextRecord(Reassembled(rs[..k]), k)
  }

  datatype Line = TextLine(text: seq<Byte>) | DataLine(record: Record)

  /** The documented way to read the log: from the newest record, past the records each text occupies. */
  function Walk(rs: seq<Option<Record>>): seq<Line>
    decreases |rs|
  {
    if rs == [] then []
    else
      var t := TextAt(rs);
      if t.recordCount > 0 then [TextLine(t.text)] + Walk(rs[t.recordCount..])
      else (if rs[0].Some? && rs[0].value.kind != STRING then [DataLine(rs[0].value)] else []) + Walk(rs[1..])
  }

  // ---- messages ----

  datatype Message = Text(timestamp: nat, text: seq<Byte>) | Data(timestamp: nat, payload: seq<Byte>) {
    predicate Valid() {
      timestamp < 0x1_0000_0000
      && if Text? then |text| < TEXT_BUFFER_SIZE && NoNul(text) else |payload| <= PAYLOAD_SIZE
    }
  }

  /** The text kept of a formatted one: up to its first NUL and at most 199 bytes. */
  function Kept(formatted: seq<Byte>): (text: seq<Byte>)
    ensures |text| < TEXT_BUFFER_SIZE && NoNul(text)
  {
    CString(if |formatted| < TEXT_BUFFER_SIZE then formatted else formatted[..TEXT_BUFFER_SIZE - 1])
  }

  /** The text is the longest start of the formatted one that has no NUL and leaves room for one in the buffer. */
  ghost predicate IsKept(formatted: seq<Byte>, text: seq<Byte>) {
    && |text| <= |formatted| && text == formatted[..|text|] && NoNul(text) && |text| <= 199
    && forall n :: |text| < n <= |formatted| && n <= 199 ==> !NoNul(formatted[..n])
  }

  lemma KeptIsLongest(formatted: seq<Byte>)
    ensures IsKept(formatted, Kept(formatted))
    ensures
      var text := Kept(formatted);
      |text| == |formatted| || |text| == 199 || formatted[|text|] == 0
  {
    var text := Kept(formatted);
    var room := if |formatted| < TEXT_BUFFER_SIZE then formatted else formatted[..TEXT_BUFFER_SIZE - 1];
    CStringFacts(room);
    hide CString, Kept;
    forall n | |text| < n <= |formatted| && n <= 199
      ensures !NoNul(formatted[..n])
    {
      assert formatted[..n][|text|] == room[|text|] == 0;
    }
  }

  /** There is one such text. */
  lemma KeptIsUnique(formatted: seq<Byte>, text: seq<Byte>)
    requires IsKept(formatted, text)
    ensures text == Kept(formatted)
  {
    KeptIsLongest(formatted);
    hide Kept;
  }

  function TextRecords(timestamp: nat, fragments: seq<seq<Byte>>): seq<Record> {
    seq(|fragments|, i requires 0 <= i < |fragments| => Record(STRING, timestamp, fragments[i]))
  }

  /** The records of a message, oldest first. */
  function Stored(m: Message): seq<Record>
    requires m.Valid()
  {
    match m
    case Text(timestamp, text) => TextRecords(timestamp, Fragments(text))
    case Data(timestamp, payload) => [Record(STRUCTURED, timestamp, Padded(payload))]
  }

  predicate AllValid(ms: seq<Message>) {
    forall i :: 0 <= i < |ms| ==> ms[i].Valid()
  }

  function StoredAll(ms: seq<Message>): seq<Record>
    requires AllValid(ms)
  {
    if ms == [] then [] else StoredAll(ms[..|ms| - 1]) + Stored(ms[|ms| - 1])
  }

  /** What is left of a message of which only the newest `n` records are kept: the end of the text, from a fragment
      boundary on. */
  function Rest(m: Message, n: nat): seq<Line>
    requires m.Valid() && 0 < n <= |Stored(m)|
  {
    match m
    case Text(_, text) =>
      [TextLine(From(text, |Stored(m)| - n))]
    case Data(timestamp, payload) => [DataLine(Record(STRUCTURED, timestamp, Padded(payload)))]
  }

  function Whole(m: Message): Line
    requires m.Valid()
  {
    if m.Text? then TextLine(m.text) else DataLine(Record(STRUCTURED, m.timestamp, Padded(m.payload)))
  }

  lemma RestOfAll(m: Message)
    requires m.Valid()
    ensures |Stored(m)| > 0 && Rest(m, |Stored(m)|) == [Whole(m)]
  {
    StoredSize(m);
  }

  /** The messages, newest first, as far as the newest `n` records reach. */
  function Expected(ms: seq<Message>, n: nat): seq<Line>
    requires AllValid(ms)
  {
    if ms == [] || n == 0 then []
    else
      var m := ms[|ms| - 1];
      StoredSize(m);
      if n >= |Stored(m)| then [Whole(m)] + Expected(ms[..|ms| - 1], n - |Stored(m)|) else Rest(m, n)
  }

  lemma StoredSize(m: Message)
    requires m.Valid()
    ensures 1 <= |Stored(m)| <= MAX_TEXT_FRAGMENTS
    ensures forall i :: 0 <= i < |Stored(m)| ==> Stored(m)[i].Valid()
  {
    if m.Text? {
      FragmentCount(m.text);
      forall i | 0 <= i < |Stored(m)|
        ensures Stored(m)[i].Valid()
      {
        FragmentAt(m.text, i);
      }
    }
  }

  /** The newest `n` of the records, newest first. */
  function Newest(all: seq<Record>, n: nat): seq<Option<Record>>
    requires n <= |all|
  {
    seq(n, i requires 0 <= i < n => Some(all[|all| - 1 - i]))
  }

  // ---- unique decoding ----

  lemma {:induction false} OlderExact(rs: seq<Option<Record>>, timestamp: nat, k: nat, most: nat)
    requires k <= |rs| && k <= most
    requires forall i :: 0 <= i < k ==> Continues(rs[i], timestamp)
    requires k < |rs| && k < most ==> !Continues(rs[k], timestamp)
    ensures Older(rs, timestamp, most) == k
  {
    if k == 0 {
    } else {
      OlderExact(rs[1..], timestamp, k - 1, most - 1);
    }
  }

  /** The newest `n` parts of a text, put together, are the end of the text. */
  lemma {:induction false} ReassembledText(text: seq<Byte>, timestamp: nat, n: nat)
    requires NoNul(text) && 0 < n <= |Fragments(text)|
    ensures Reassembled(Newest(TextRecords(timestamp, Fragments(text)), n)) == From(text, |Fragments(text)| - n)
  {
    hide Fragments, CString, NoNul, Reassembled, From;
    var records := TextRecords(timestamp, Fragments(text));
    FragmentText(text, |Fragments(text)| - n);
    ReassembledOldest(Newest(records, n));
    assert Newest(records, n)[..n - 1] == Newest(records, n - 1);
    if n > 1 {
      ReassembledText(text, timestamp, n - 1);
    } else {
      NothingReassembled(Newest(records, 0));
    }
  }

  lemma NothingReassembled(rs: seq<Option<Record>>)
    requires rs == []
    ensures Reassembled(rs) == []
  {
  }

  lemma {:induction false} ReassembledOldest(rs: seq<Option<Record>>)
    requires rs != [] && rs[|rs| - 1].Some?
    ensures Reassembled(rs) == CString(rs[|rs| - 1].value.payload) + Reassembled(rs[..|rs| - 1])
  {
    hide CString;
    var n := |rs| - 1;
    if n == 0 {
      assert rs[1..] == rs[..n] == [];
    } else {
      ReassembledOldest(rs[1..]);
      assert rs[1..][..n - 1] == rs[..n][1..];
      assert rs[1..][n - 1] == rs[n];
    }
  }

  /** The newest record of a message does not continue another text: it holds a NUL or is no text. */
  lemma NewestEnds(m: Message, timestamp: nat)
    requires m.Valid()
    ensures |Stored(m)| >= 1 && !Continues(Some(Stored(m)[|Stored(m)| - 1]), timestamp)
    ensures m.Text? ==> EndsText(Some(Stored(m)[|Stored(m)| - 1]))
  {
    StoredSize(m);
    if m.Text? { FragmentAt(m.text, |Stored(m)| - 1); }
  }

  lemma EarlierContinue(m: Message, i: nat)
    requires m.Valid() && m.Text? && i + 1 < |Stored(m)|
    ensures Continues(Some(Stored(m)[i]), m.timestamp)
  {
    FragmentAt(m.text, i);
  }

  /** At a text, the reader takes exactly its records, as many as are there, and gets the end of the text. */
  lemma TextIsFound(m: Message, rs: seq<Option<Record>>, n: nat)
    requires m.Valid() && m.Text? && 0 < n <= |Stored(m)| && n <= |rs|
    requires rs[..n] == Newest(Stored(m), n)
    requires n < |rs| ==> n == |Stored(m)| && !Continues(rs[n], m.timestamp)
    ensures TextAt(rs) == TextRecord(From(m.text, |Stored(m)| - n), n)
    ensures Rest(m, n) == [TextLine(TextAt(rs).text)]
  {
    hide Fragments, NoNul, From, Reassembled, Continues, EndsText;
    StoredSize(m);
    NewestEnds(m, m.timestamp);
    assert rs[0] == rs[..n][0] == Some(Stored(m)[|Stored(m)| - 1]);
    forall i | 0 <= i < n - 1
      ensures Continues(rs[1..][i], m.timestamp)
    {
      assert rs[1..][i] == rs[..n][i + 1];
      EarlierContinue(m, |Stored(m)| - 2 - i);
    }
    OlderExact(rs[1..], m.timestamp, n - 1, MAX_TEXT_FRAGMENTS - 1);
    ReassembledText(m.text, m.timestamp, n);
  }

  /** One message of the walk. */
  lemma WalkStep(m: Message, rs: seq<Option<Record>>, n: nat)
    requires m.Valid() && 0 < n <= |Stored(m)| && n <= |rs|
    requires rs[..n] == Newest(Stored(m), n)
    requires n < |rs| ==> n == |Stored(m)| && !Continues(rs[n], m.timestamp)
    ensures Walk(rs) == Rest(m, n) + Walk(rs[n..])
  {
    hide TextAt, Fragments, Continues, From, NoNul, Newest, TextRecords, Walk, Rest, Stored, Message.Valid;
    if m.Text? {
      TextIsFound(m, rs, n);
      WalkText(rs);
    } else {
      DataIsFound(m, rs, n);
      WalkData(rs);
    }
  }

  lemma WalkText(rs: seq<Option<Record>>)
    requires TextAt(rs).recordCount > 0
    ensures Walk(rs) == [TextLine(TextAt(rs).text)] + Walk(rs[TextAt(rs).recordCount..])
  {
    hide TextAt;
  }

  lemma WalkData(rs: seq<Option<Record>>)
    requires TextAt(rs).recordCount == 0 && rs != [] && rs[0].Some? && rs[0].value.kind != STRING
    ensures Walk(rs) == [DataLine(rs[0].value)] + Walk(rs[1..])
  {
    hide TextAt;
  }

  lemma DataIsFound(m: Message, rs: seq<Option<Record>>, n: nat)
    requires m.Valid() && m.Data? && 0 < n <= |Stored(m)| && n <= |rs| && rs[..n] == Newest(Stored(m), n)
    ensures n == 1 && rs[0].Some? && rs[0].value.kind != STRING
    ensures TextAt(rs).recordCount == 0 && Rest(m, n) == [DataLine(rs[0].value)]
  {
    StoredSize(m);
    assert rs[0] == rs[..1][0];
  }

  /** Whatever messages were stored and wherever the log has been cut, the walk gives back the messages newest first,
      the oldest one possibly as the end of its text. */
  lemma {:induction false} UniqueDecoding(ms: seq<Message>, n: nat)
    requires AllValid(ms) && n <= |StoredAll(ms)|
    ensures Walk(Newest(StoredAll(ms), n)) == Expected(ms, n)
  {
    hide Walk, Rest, Whole, Stored, Continues, Newest;
    if ms != [] && n > 0 {
      var before, m := ms[..|ms| - 1], ms[|ms| - 1];
      var rs, k := Newest(StoredAll(ms), n), |Stored(m)|;
      StoredSize(m);
      RestOfAll(m);
      NewestSplit(StoredAll(before), Stored(m), n);
      if n > k { NewestOfAll(before, m.timestamp); }
      WalkStep(m, rs, if n < k then n else k);
      UniqueDecoding(before, if n < k then 0 else n - k);
    } else {
      NewestSplit(StoredAll(ms), [], 0);
      WalkNothing(Newest(StoredAll(ms), n));
    }
  }

  lemma WalkNothing(rs: seq<Option<Record>>)
    requires rs == []
    ensures Walk(rs) == []
  {
  }

  /** The newest records of a log that ends in `last`. */
  lemma NewestSplit(all: seq<Record>, last: seq<Record>, n: nat)
    requires n <= |all| + |last|
    ensures
      var rs, k := Newest(all + last, n), if n < |last| then n else |last|;
      && |rs| == n && rs[..k] == Newest(last, k) && rs[k..] == Newest(all, n - k)
      && (k < n ==> rs[k] == Some(all[|all| - 1]))
  {
  }

  lemma NewestOfAll(ms: seq<Message>, timestamp: nat)
    requires AllValid(ms) && StoredAll(ms) != []
    ensures !Continues(Some(StoredAll(ms)[|StoredAll(ms)| - 1]), timestamp)
  {
    NewestEnds(ms[|ms| - 1], timestamp);
  }

  /** What was cut from a formatted text reads back as the longest start of it that could be kept, from its newest
      record on, whatever other messages are older. */
  lemma TextComesBack(ms: seq<Message>, timestamp: nat, formatted: seq<Byte>)
    requires AllValid(ms) && timestamp < 0x1_0000_0000
    ensures
      var m := Text(timestamp, Kept(formatted));
      var all := StoredAll(ms) + Stored(m);
      && TextAt(Newest(all, |all|)) == TextRecord(m.text, |Stored(m)|) && IsKept(formatted, m.text)
  {
    var m := Text(timestamp, Kept(formatted));
    var all, k := StoredAll(ms) + Stored(m), |Stored(m)|;
    KeptIsLongest(formatted);
    hide TextAt, Kept, Stored, Continues, From, Fragments;
    StoredSize(m);
    NewestSplit(StoredAll(ms), Stored(m), |all|);
    if StoredAll(ms) != [] { NewestOfAll(ms, timestamp); }
    TextIsFound(m, Newest(all, |all|), k);
    WholeText(m.text);
  }

  lemma WholeText(text: seq<Byte>)
    requires NoNul(text)
    ensures From(text, 0) == text
  {
  }

  /** The log of some messages is the records of one after those of the others. */
  lemma StoredInOrder(ms: seq<Message>, m: Message)
    requires AllValid(ms) && m.Valid()
    ensures AllValid(ms + [m]) && StoredAll(ms + [m]) == StoredAll(ms) + Stored(m) && StoredAll([]) == []
  {
    assert (ms + [m])[..|ms|] == ms;
  }
}
