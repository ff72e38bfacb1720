/** The log as interleaved steps: callers that hold the mutex one at a time, a bounded queue, and one consumer that
    works on its own. To the callers it all behaves like one list of messages. */
module BlackboxQueue {
  import opened Basics
  import opened Bytes
  import opened BlackboxRecords
  import opened BlackboxText
  import opened Blackbox
  import opened FlashLayout
  import FlashRuns

  /** What a caller asks for. The last three end with records of their own in the log. */
  datatype Operation = Append(message: Message) | Sync | EraseLog(marker: Message) | Switch(on: bool, marker: Message) {
    predicate Valid() {
      match this
      case Append(m) => m.Valid()
      case Sync => true
      case EraseLog(marker) => marker.Valid() && |Stored(marker)| == 1
      case Switch(_, marker) => marker.Valid() && |Stored(marker)| == 1
    }
  }

  datatype Action = Check(room: nat) | Put(item: Item) | Reset | Await | SetEnabled(on: bool)

  function Puts(records: seq<Record>): seq<Action> {
    seq(|records|, i requires 0 <= i < |records| => Put(Write(records[i])))
  }

  /** What each operation does while it holds the mutex. */
  function Script(op: Operation): seq<Action>
    requires op.Valid()
  {
    match op
    case Append(m) => [Check(|Stored(m)|)] + Puts(Stored(m))
    case Sync => [Put(Barrier), Await]
    case EraseLog(marker) => [Reset, Put(EraseAll), Await, Put(Write(Stored(marker)[0])), Put(Barrier), Await]
    case Switch(on, marker) =>
      if on then [SetEnabled(true), Put(Write(Stored(marker)[0])), Put(Barrier), Await]
      else [Put(Write(Stored(marker)[0])), Put(Barrier), Await, SetEnabled(false)]
  }

  /** The holder of the mutex: its operation, its position in the script, and the messages there were when it began. */
  datatype Job = Job(op: Operation, position: nat, entry: seq<Message>)

  /** `messages` is the list the callers see: it is changed by whole operations and read by no step. `flash` is what the
      consumer has asked of the flash ring. */
  datatype State = State(enabled: bool, queue: seq<Item>, hand: Option<Item>, log: seq<Record>, job: Option<Job>,
                         signalled: bool, messages: seq<Message>, flash: seq<FlashRuns.Operation>) {
    function Pending(): seq<Item> {
      (if hand.Some? then [hand.value] else []) + queue
    }

    predicate Acting() {
      job.Some? && job.value.op.Valid() && job.value.position < |Script(job.value.op)|
    }

    function Next(): Action
      requires Acting()
    {
      Script(job.value.op)[job.value.position]
    }
  }

  datatype Move = Take(op: Operation) | Act | Fetch | Finish

  /** `Put` waits for room and `Await` for the consumer's signal; nothing else waits. */
  predicate CanMove(s: State, m: Move) {
    match m
    case Take(op) => s.job.None? && op.Valid() && (op.Append? ==> s.enabled) && (op.Switch? ==> op.on != s.enabled)
    case Act => s.Acting() && (s.Next().Put? ==> |s.queue| < QUEUE_SIZE) && (s.Next().Await? ==> s.signalled)
    case Fetch => s.hand.None? && s.queue != []
    case Finish => s.hand.Some?
  }

  function Release(s: State): State {
    s.(job := if s.job.Some? && s.job.value.op.Valid() && s.job.value.position >= |Script(s.job.value.op)|
              then None else s.job)
  }

  /** The list the callers see, when a caller takes its next step. */
  function Listed(s: State): seq<Message>
    requires s.Acting()
  {
    match s.job.value.op
    case Append(m) => if s.job.value.position == |Stored(m)| then s.messages + [m] else s.messages
    case Sync => s.messages
    case EraseLog(marker) =>
      if s.job.value.position == 1 then [] else if s.job.value.position == 3 then [marker] else s.messages
    case Switch(on, marker) =>
      if s.job.value.position == (if on then 1 else 0) then s.messages + [marker] else s.messages
  }

  function Acted(s: State): State
    requires s.Acting()
  {
    var next := s.(job := Some(s.job.value.(position := s.job.value.position + 1)), messages := Listed(s));
    match s.Next()
    case Check(room) => if QUEUE_SIZE - |s.queue| < room then s.(job := None) else Release(next)
    case Put(item) =>
      Release(next.(queue := s.queue + [item], signalled := if item.Write? then s.signalled else false))
    case Reset => Release(next.(queue := []))
    case Await => Release(next)
    case SetEnabled(on) => Release(next.(enabled := on))
  }

  function Applied(log: seq<Record>, item: Item): seq<Record> {
    match item
    case Write(r) => log + [r]
    case EraseAll => []
    case Barrier => log
  }

  /** The ring operation that carries out an item, as the consumer does it. */
  function RingOperation(item: Item): seq<FlashRuns.Operation> {
    match item
    case Write(r) => if r.Valid() then [FlashRuns.Operation.Write(Encode(r))] else []
    case EraseAll => [FlashRuns.Operation.EraseAll]
    case Barrier => []
  }

  function Moved(s: State, m: Move): State
    requires CanMove(s, m)
  {
    match m
    case Take(op) => s.(job := Some(Job(op, 0, s.messages)))
    case Act => Acted(s)
    case Fetch => s.(hand := Some(s.queue[0]), queue := s.queue[1..])
    case Finish =>
      s.(hand := None, log := Applied(s.log, s.hand.value), signalled := s.signalled || !s.hand.value.Write?,
         flash := s.flash + RingOperation(s.hand.value))
  }

  // ---- the invariant ----

  /** The log once everything pending is done. */
  function Final(log: seq<Record>, pending: seq<Item>): seq<Record>
    decreases |pending|
  {
    if pending == [] then log else Final(Applied(log, pending[0]), pending[1..])
  }

  ghost predicate AllWrites(items: seq<Item>) {
    forall i :: 0 <= i < |items| ==> items[i].Write?
  }

  predicate Awaiting(s: State) {
    s.Acting() && s.Next().Await?
  }

  /** While a caller waits, its control item is the last one pending, or everything is done and it has been signalled;
      otherwise only records are pending. */
  ghost predicate Ordered(s: State) {
    if Awaiting(s) then
      if s.signalled then s.Pending() == []
      else s.Pending() != [] && !s.Pending()[|s.Pending()| - 1].Write? && AllWrites(s.Pending()[..|s.Pending()| - 1])
    else AllWrites(s.Pending())
  }

  /** The records of the message being appended that are already queued. */
  function Partial(s: State): seq<Record>
    requires s.job.Some? ==> s.job.value.op.Valid()
  {
    if s.job.Some? && s.job.value.op.Append? && 1 <= s.job.value.position <= |Stored(s.job.value.op.message)|
    then Stored(s.job.value.op.message)[..s.job.value.position - 1] else []
  }

  /** Between its first two steps an erase has dropped what was queued. */
  predicate Dropping(s: State) {
    s.job.Some? && s.job.value.op.EraseLog? && s.job.value.position == 1
  }

  /** The log, once everything pending is done, holds exactly the records of the messages, in order, and the first
      records of the one being appended. */
  ghost predicate Listing(s: State)
    requires s.job.Some? ==> s.job.value.op.Valid()
  {
    AllValid(s.messages)
    && (!Dropping(s) ==> Final(s.log, s.Pending()) == StoredAll(s.messages) + Partial(s))
  }

  /** What the current operation has done to the list so far. */
  ghost predicate JobKept(s: State) {
    s.job.Some? ==>
      var job := s.job.value;
      && job.op.Valid() && job.position < |Script(job.op)|
      && match job.op
         case Append(m) => s.messages == job.entry
         case Sync => s.messages == job.entry
         case EraseLog(marker) => job.position >= 2 ==> s.messages == if job.position <= 3 then [] else [marker]
         case Switch(on, marker) =>
           s.messages == if job.position <= (if on then 1 else 0) then job.entry else job.entry + [marker]
  }

  /** Room for the rest of a message, once checked, stays. */
  predicate RoomKept(s: State) {
    |s.queue| <= QUEUE_SIZE
    && (s.Acting() && s.job.value.op.Append? && s.job.value.position >= 1 ==>
          |s.queue| + |Script(s.job.value.op)| - s.job.value.position <= QUEUE_SIZE)
  }

  ghost predicate Inv(s: State) {
    JobKept(s) && Ordered(s) && Listing(s) && RoomKept(s)
  }

  ghost predicate Fresh(s: State) {
    s.queue == [] && s.hand == None && s.log == [] && s.job == None && s.messages == [] && s.flash == []
  }

  lemma FreshInv(s: State)
    requires Fresh(s)
    ensures Inv(s)
  {
  }

  // ---- the list of pending items ----

  lemma {:induction false} FinalSnoc(log: seq<Record>, pending: seq<Item>, item: Item)
    ensures Final(log, pending + [item]) == Applied(Final(log, pending), item)
    decreases |pending|
  {
    if pending == [] {
      assert [item][1..] == [];
    } else {
      FinalSnoc(Applied(log, pending[0]), pending[1..], item);
      assert (pending + [item])[1..] == pending[1..] + [item];
    }
  }

  lemma PutPending(s: State, item: Item)
    ensures s.(queue := s.queue + [item]).Pending() == s.Pending() + [item]
  {
  }

  // ---- steps ----

  lemma TakeInv(s: State, op: Operation)
    requires Inv(s) && CanMove(s, Take(op))
    ensures Inv(Moved(s, Take(op)))
  {
    ScriptShape(op, 0);
    var s' := Moved(s, Take(op));
    assert s'.Pending() == s.Pending() && Partial(s') == Partial(s);
  }

  /** The consumer is invisible: neither fetching an item nor finishing it changes what the log will hold. */
  lemma ConsumerInv(s: State, m: Move)
    requires Inv(s) && CanMove(s, m) && (m.Fetch? || m.Finish?)
    ensures Inv(Moved(s, m))
  {
    hide Stored, StoredAll, Script, AllValid, Ordered, Final;
    ConsumerFinal(s, m);
    ConsumerOrdered(s, m);
  }

  lemma ConsumerFinal(s: State, m: Move)
    requires CanMove(s, m) && (m.Fetch? || m.Finish?)
    ensures Final(Moved(s, m).log, Moved(s, m).Pending()) == Final(s.log, s.Pending())
  {
    var s' := Moved(s, m);
    if m.Fetch? {
      assert s'.Pending() == s.Pending();
    } else {
      assert s.Pending()[0] == s.hand.value && s.Pending()[1..] == s'.Pending();
    }
  }

  lemma ConsumerOrdered(s: State, m: Move)
    requires Ordered(s) && CanMove(s, m) && (m.Fetch? || m.Finish?)
    ensures Ordered(Moved(s, m))
  {
    if m.Fetch? {
      hide Script;
      assert Moved(s, m).Pending() == s.Pending();
    } else {
      FinishOrdered(s, Moved(s, m));
    }
  }

  lemma FinishOrdered(s: State, s': State)
    requires Ordered(s) && s.hand.Some? && s' == Moved(s, Finish)
    ensures Ordered(s')
  {
    hide Stored, StoredAll, Script, Applied, RingOperation, Operation.Valid;
    var p, p' := s.Pending(), s'.Pending();
    assert p == [s.hand.value] + p';
    assert forall i :: 0 <= i < |p'| ==> p'[i] == p[i + 1];
    if Awaiting(s) && |p| > 1 {
      assert p[0].Write? && p'[|p'| - 1] == p[|p| - 1];
      assert p'[..|p'| - 1] == p[..|p| - 1][1..];
    }
  }

  /** The shape of every script: records are not waited for, control items are waited for at once. */
  lemma ScriptShape(op: Operation, k: nat)
    requires op.Valid() && k < |Script(op)|
    ensures Script(op)[k].Put? && !Script(op)[k].item.Write? ==> k + 1 < |Script(op)| && Script(op)[k + 1].Await?
    ensures k + 1 < |Script(op)| && Script(op)[k + 1].Await? ==> Script(op)[k].Put? && !Script(op)[k].item.Write?
    ensures !Script(op)[0].Await?
  {
    if op.Append? { StoredSize(op.message); }
  }

  /** The script of an append. */
  lemma AppendScript(op: Operation, k: nat)
    requires op.Valid() && op.Append? && k < |Script(op)|
    ensures |Script(op)| == 1 + |Stored(op.message)| && |Stored(op.message)| >= 1
    ensures Script(op)[k] == if k == 0 then Check(|Stored(op.message)|) else Put(Write(Stored(op.message)[k - 1]))
  {
    StoredSize(op.message);
  }

  /** What an action does to the queue. */
  lemma ActPending(s: State)
    requires CanMove(s, Act)
    ensures
      var s' := Moved(s, Act);
      && s'.log == s.log && s'.hand == s.hand
      && match s.Next()
         case Put(item) => s'.Pending() == s.Pending() + [item] && s'.queue == s.queue + [item]
         case Reset => s'.queue == []
         case _ => s'.Pending() == s.Pending() && s'.queue == s.queue
  {
    hide Script, Listed;
    if s.Next().Put? { PutPending(s, s.Next().item); }
  }

  /** Where an action leaves the script. */
  lemma ActJob(s: State)
    requires CanMove(s, Act)
    ensures
      var s', k := Moved(s, Act), s.job.value.position;
      && (if s.Next().Check? && QUEUE_SIZE - |s.queue| < s.Next().room then s'.job == None && s'.messages == s.messages
          else s'.messages == Listed(s)
               && s'.job == if k + 1 < |Script(s.job.value.op)| then Some(s.job.value.(position := k + 1)) else None)
      && s'.signalled == if s.Next().Put? && !s.Next().item.Write? then false else s.signalled
  {
    hide Script, Listed;
  }

  lemma ActOrdered(s: State)
    requires Ordered(s) && CanMove(s, Act)
    ensures Ordered(Moved(s, Act))
  {
    var s', op, k := Moved(s, Act), s.job.value.op, s.job.value.position;
    ScriptShape(op, k);
    ActPending(s);
    ActJob(s);
    hide Script, Listed, Moved, Stored, Operation.Valid;
    if s.Next().Put? {
      assert (s.Pending() + [s.Next().item])[..|s.Pending()|] == s.Pending();
    } else if s.Next().Reset? {
      assert forall i :: 0 <= i < |s'.Pending()| ==> s'.Pending()[i] == s.Pending()[i];
    }
  }

  /** What an action does to the log to come. */
  lemma ActFinal(s: State)
    requires CanMove(s, Act)
    ensures
      var s' := Moved(s, Act);
      match s.Next()
      case Put(item) => Final(s'.log, s'.Pending()) == Applied(Final(s.log, s.Pending()), item)
      case Reset => true
      case _ => Final(s'.log, s'.Pending()) == Final(s.log, s.Pending())
  {
    ActPending(s);
    hide Script, Listed, Moved;
    if s.Next().Put? { FinalSnoc(s.log, s.Pending(), s.Next().item); }
  }

  lemma AppendInv(s: State)
    requires Inv(s) && CanMove(s, Act) && s.job.value.op.Append?
    ensures Inv(Moved(s, Act))
  {
    hide Script, Moved, Ordered, Final, Stored, StoredAll, AllValid, State.Pending;
    var m, k := s.job.value.op.message, s.job.value.position;
    ActOrdered(s);
    ActFinal(s);
    ActPending(s);
    ActJob(s);
    AppendScript(s.job.value.op, k);
    var s' := Moved(s, Act);
    if k > 0 {
      assert Stored(m)[..k] == Stored(m)[..k - 1] + [Stored(m)[k - 1]];
    }
    if k == |Stored(m)| {
      SnocMessage(s.messages, m);
      assert Stored(m)[..k] == Stored(m);
    }
  }

  lemma SyncInv(s: State)
    requires Inv(s) && CanMove(s, Act) && s.job.value.op.Sync?
    ensures Inv(Moved(s, Act))
  {
    hide Moved, Ordered, Final, State.Pending;
    ActOrdered(s);
    ActFinal(s);
    ActPending(s);
    ActJob(s);
    hide Moved, Ordered, Final, State.Pending;
  }

  lemma EraseInv(s: State)
    requires Inv(s) && CanMove(s, Act) && s.job.value.op.EraseLog?
    ensures Inv(Moved(s, Act))
  {
    hide Moved, Ordered, Final, State.Pending, Stored, StoredAll, AllValid;
    ActOrdered(s);
    ActFinal(s);
    ActPending(s);
    ActJob(s);
    OneMessage(s.job.value.op.marker);
    hide Moved, Ordered, Final, State.Pending, Stored, StoredAll, AllValid;
  }

  lemma SnocMessage(ms: seq<Message>, m: Message)
    requires AllValid(ms) && m.Valid()
    ensures AllValid(ms + [m]) && StoredAll(ms + [m]) == StoredAll(ms) + Stored(m)
  {
    assert (ms + [m])[..|ms|] == ms;
  }

  lemma OneMessage(m: Message)
    requires m.Valid()
    ensures AllValid([m]) && StoredAll([m]) == Stored(m)
    ensures AllValid([]) && StoredAll([]) == []
  {
    assert [m][..0] == [];
  }

  lemma SwitchInv(s: State)
    requires Inv(s) && CanMove(s, Act) && s.job.value.op.Switch?
    ensures Inv(Moved(s, Act))
  {
    hide Moved, Ordered, Final, State.Pending, Stored, StoredAll, AllValid;
    var marker, s' := s.job.value.op.marker, Moved(s, Act);
    ActOrdered(s);
    ActFinal(s);
    ActPending(s);
    ActJob(s);
    assert Stored(marker) == [Stored(marker)[0]];
    SnocMessage(s.messages, marker);
  }

  lemma MoveInv(s: State, m: Move)
    requires Inv(s) && CanMove(s, m)
    ensures Inv(Moved(s, m))
  {
    hide Inv, Moved;
    match m
    case Take(op) => TakeInv(s, op);
    case Act =>
      match s.job.value.op {
        case Append(_) => AppendInv(s);
        case Sync => SyncInv(s);
        case EraseLog(_) => EraseInv(s);
        case Switch(_, _) => SwitchInv(s);
      }
    case Fetch => ConsumerInv(s, m);
    case Finish => ConsumerInv(s, m);
  }

  // ---- runs ----

  predicate CanRun(s: State, moves: seq<Move>)
    decreases |moves|
  {
    moves == [] || (CanMove(s, moves[0]) && CanRun(Moved(s, moves[0]), moves[1..]))
  }

  function Run(s: State, moves: seq<Move>): State
    requires CanRun(s, moves)
    decreases |moves|
  {
    if moves == [] then s else Run(Moved(s, moves[0]), moves[1..])
  }

  lemma {:induction false} RunInv(s: State, moves: seq<Move>)
    requires Inv(s) && CanRun(s, moves)
    ensures Inv(Run(s, moves))
    decreases |moves|
  {
    hide Inv, CanMove, Moved;
    if moves == [] {
    } else {
      MoveInv(s, moves[0]);
      RunInv(Moved(s, moves[0]), moves[1..]);
    }
  }

  /** The last step of an operation: the caller returns. */
  predicate Returns(s: State) {
    CanMove(s, Act) && s.job.value.position + 1 == |Script(s.job.value.op)|
  }

  /** `sync` returns only when every record accepted before it, and nothing else, is written, in order. */
  lemma SyncIsLinear(s: State, moves: seq<Move>)
    requires Fresh(s) && CanRun(s, moves) && Returns(Run(s, moves)) && Run(s, moves).job.value.op.Sync?
    ensures
      var s' := Moved(Run(s, moves), Act);
      s'.job == None && AllValid(s'.messages) && s'.messages == Run(s, moves).job.value.entry
      && s'.log == StoredAll(s'.messages) && s'.Pending() == []
  {
    FreshInv(s);
    RunInv(s, moves);
    hide Run, CanRun, Fresh, StoredAll;
  }

  /** `erase_all` returns with exactly the reset marker in the log. */
  lemma EraseIsLinear(s: State, moves: seq<Move>)
    requires Fresh(s) && CanRun(s, moves) && Returns(Run(s, moves)) && Run(s, moves).job.value.op.EraseLog?
    ensures
      var marker := Run(s, moves).job.value.op.marker;
      var s' := Moved(Run(s, moves), Act);
      s'.job == None && s'.messages == [marker] && s'.log == Stored(marker) && s'.Pending() == []
  {
    FreshInv(s);
    RunInv(s, moves);
    OneMessage(Run(s, moves).job.value.op.marker);
    hide Run, CanRun, Fresh, StoredAll;
  }

  /** A message is accepted as a whole: once its room has been checked, queueing its records never waits and never
      fails, and no other record comes between them. */
  lemma AppendIsWhole(s: State, moves: seq<Move>)
    requires Fresh(s) && CanRun(s, moves)
    ensures
      var s' := Run(s, moves);
      s'.Acting() && s'.job.value.op.Append? && s'.job.value.position > 0 ==> CanMove(s', Act) && s'.Next().Put?
  {
    FreshInv(s);
    RunInv(s, moves);
    var s' := Run(s, moves);
    hide Run, CanRun, Fresh;
    if s'.Acting() && s'.job.value.op.Append? { AppendScript(s'.job.value.op, s'.job.value.position); }
  }

  /** At rest the log in flash holds exactly the records of the messages accepted since the last erase, in order, each
      message in one piece. */
  lemma RestingLog(s: State, moves: seq<Move>)
    requires Fresh(s) && CanRun(s, moves)
    ensures
      var s' := Run(s, moves);
      s'.Pending() == [] && s'.job == None ==> AllValid(s'.messages) && s'.log == StoredAll(s'.messages)
  {
    FreshInv(s);
    RunInv(s, moves);
    hide Run, CanRun, Fresh, StoredAll;
  }

  // ---- the flash ring ----

  ghost predicate AllGood(records: seq<Record>) {
    forall k :: 0 <= k < |records| ==> records[k].Valid()
  }

  /** The ring has been asked for exactly the records of the log. */
  ghost predicate FlashKept(s: State) {
    && AllGood(s.log) && AllQueued(s.Pending())
    && FlashRuns.ListAfter(s.flash) == Encoded(s.log)
    && RecordWrites(s.flash) && FlashRuns.Reboot !in s.flash
  }

  ghost predicate RecordWrites(operations: seq<FlashRuns.Operation>) {
    forall i :: 0 <= i < |operations| && operations[i].Write? ==>
      |operations[i].data| == RECORD_SIZE && IsMarked(operations[i].data)
  }

  lemma ScriptGood(op: Operation, k: nat)
    requires op.Valid() && k < |Script(op)| && Script(op)[k].Put? && Script(op)[k].item.Write?
    ensures Script(op)[k].item.record.Valid()
  {
    match op
    case Append(m) => StoredSize(m);
    case Sync =>
    case EraseLog(marker) => StoredSize(marker);
    case Switch(_, marker) => StoredSize(marker);
  }

  lemma EncodedSnoc(records: seq<Record>, r: Record)
    requires AllGood(records) && r.Valid()
    ensures AllGood(records + [r]) && Encoded(records + [r]) == Encoded(records) + [Encode(r)]
  {
    hide Encode;
    assert Encoded(records + [r])[..|records|] == Encoded(records);
  }

  lemma ListAfterSnoc(operations: seq<FlashRuns.Operation>, operation: FlashRuns.Operation)
    ensures
      var before := FlashRuns.ListAfter(operations);
      FlashRuns.ListAfter(operations + [operation]) ==
        match operation case Write(data) => before + [data] case EraseAll => [] case Reboot => before
  {
    assert (operations + [operation])[..|operations|] == operations;
  }

  lemma EncodedIsMarked(r: Record)
    requires r.Valid()
    ensures IsMarked(Encode(r))
  {
    hide Crc8, StoreLe;
  }

  lemma FinishFlash(s: State)
    requires FlashKept(s) && s.hand.Some?
    ensures FlashKept(Moved(s, Finish))
  {
    hide Encode, IsMarked, FlashRuns.ListAfter, Encoded;
    var s' := Moved(s, Finish);
    assert s.Pending() == [s.hand.value] + s'.Pending();
    assert forall i :: 0 <= i < |s'.Pending()| ==> s'.Pending()[i] == s.Pending()[i + 1];
    match s.hand.value
    case Write(r) =>
      assert s.Pending()[0] == Write(r);
      EncodedSnoc(s.log, r);
      EncodedIsMarked(r);
      ListAfterSnoc(s.flash, FlashRuns.Operation.Write(Encode(r)));
      assert s'.flash == s.flash + [FlashRuns.Operation.Write(Encode(r))];
    case EraseAll =>
      ListAfterSnoc(s.flash, FlashRuns.Operation.EraseAll);
      NothingEncoded();
    case Barrier =>
      assert s'.flash == s.flash;
  }

  lemma NothingEncoded()
    ensures Encoded([]) == []
  {
  }

  lemma MoveFlash(s: State, m: Move)
    requires FlashKept(s) && CanMove(s, m)
    ensures FlashKept(Moved(s, m))
  {
    hide Encoded, FlashRuns.ListAfter, RecordWrites, Script, Listed;
    match m
    case Take(_) => assert Moved(s, m).Pending() == s.Pending();
    case Act =>
      ActPending(s);
      if s.Next().Put? && s.Next().item.Write? { ScriptGood(s.job.value.op, s.job.value.position); }
      ActKeepsFlash(s);
      hide Moved;
      ActQueued(s, Moved(s, m));
    case Fetch => assert Moved(s, m).Pending() == s.Pending();
    case Finish => FinishFlash(s);
  }

  lemma ActKeepsFlash(s: State)
    requires CanMove(s, Act)
    ensures Moved(s, Act).flash == s.flash && Moved(s, Act).log == s.log
  {
    hide Script, Listed;
  }

  /** What is pending after an action was pending before, or has just been put. */
  lemma ActQueued(s: State, s': State)
    requires CanMove(s, Act) && AllQueued(s.Pending()) && s'.hand == s.hand
    requires s.Next().Put? && s.Next().item.Write? ==> s.Next().item.record.Valid()
    requires match s.Next()
             case Put(item) => s'.Pending() == s.Pending() + [item]
             case Reset => s'.queue == []
             case _ => s'.Pending() == s.Pending()
    ensures AllQueued(s'.Pending())
  {
    hide Script;
    if s.Next().Reset? {
      assert forall i :: 0 <= i < |s'.Pending()| ==> s'.Pending()[i] == s.Pending()[i];
    }
  }

  lemma {:induction false} RunFlash(s: State, moves: seq<Move>)
    requires FlashKept(s) && CanRun(s, moves)
    ensures FlashKept(Run(s, moves))
    decreases |moves|
  {
    hide FlashKept, CanMove, Moved;
    if moves == [] {
    } else {
      MoveFlash(s, moves[0]);
      RunFlash(Moved(s, moves[0]), moves[1..]);
    }
  }

  /** The ring of a run of the log, restarted or not. */
  function Operations(s: State, restarted: bool): seq<FlashRuns.Operation> {
    s.flash + if restarted then [FlashRuns.Reboot] else []
  }

  lemma OperationsKept(g: Geometry, s: State, restarted: bool)
    requires g.Valid() && g.blockSize == RECORD_SIZE && FlashKept(s) && (restarted ==> g.sectors >= 3)
    ensures
      var operations := Operations(s, restarted);
      && FlashRuns.WritesBlocks(g, operations) && FlashRuns.Rebootable(g, operations)
      && FlashRuns.ListAfter(operations) == Encoded(s.log)
  {
    hide IsMarked, Encoded, FlashRuns.ListAfter;
    ListAfterSnoc(s.flash, FlashRuns.Reboot);
    assert s.flash + [] == s.flash;
  }

  /** From callers to the bytes in flash and back. In every run of the log at rest, a reader who walks the flash ring
      that the consumer has written finds the accepted messages, newest first - also after a restart that rebuilds the
      ring from the flash alone. */
  lemma RestingLogIsReadable(g: Geometry, s: State, moves: seq<Move>, restarted: bool)
    requires g.Valid() && g.blockSize == RECORD_SIZE && (restarted ==> g.sectors >= 3)
    requires Fresh(s) && CanRun(s, moves) && Run(s, moves).Pending() == [] && Run(s, moves).job == None
    ensures
      var s' := Run(s, moves);
      var operations := Operations(s', restarted);
      && AllValid(s'.messages) && FlashRuns.WritesBlocks(g, operations)
      && var ring := FlashRuns.RingAfter(g, operations);
         Walk(Recorded(g, ring)) == Expected(s'.messages, ring.memory.count)
  {
    hide Run, CanRun, StoredAll, Walk, Expected, Readable, Recorded, FlashRuns.RingAfter, FlashRuns.LogAfter,
      FlashRuns.ListAfter, FlashRuns.Holds, FlashRuns.ReadAt, Encoded, FlashRuns.WritesBlocks, FlashRuns.Rebootable;
    FreshFlash(s);
    RunFlash(s, moves);
    RestingLog(s, moves);
    var s' := Run(s, moves);
    var operations := Operations(s', restarted);
    StoredAllValid(s'.messages);
    OperationsKept(g, s', restarted);
    FlashRuns.RingRefinesList(g, operations);
    var ring, list := FlashRuns.RingAfter(g, operations), FlashRuns.ListAfter(operations);
    EncodedSizes(s'.log);
    RecordedIsReadable(g, ring, list);
    FlashDecodes(s'.messages, list, ring.memory.count);
  }

  lemma FreshFlash(s: State)
    requires Fresh(s)
    ensures FlashKept(s)
  {
  }

  lemma EncodedSizes(records: seq<Record>)
    requires AllGood(records)
    ensures forall k :: 0 <= k < |Encoded(records)| ==> |Encoded(records)[k]| == RECORD_SIZE
  {
  }
}
