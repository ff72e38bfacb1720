/** Calls on the log return: nothing ever blocks for good, and each call has its effect. */
module BlackboxProgress {
  import opened Basics
  import opened Bytes
  import opened BlackboxRecords
  import opened BlackboxText
  import opened Blackbox
  import opened BlackboxQueue

  // ---- nothing blocks for good ----

  /** How many steps may still be taken before everything rests. */
  function StepsLeft(s: State): nat {
    (if s.Acting() then 3 * (|Script(s.job.value.op)| - s.job.value.position) else 0)
    + 2 * |s.queue| + if s.hand.Some? then 1 else 0
  }

  predicate AtRest(s: State) {
    s.job == None && s.hand == None && s.queue == []
  }

  lemma WayOn(s: State)
    requires Inv(s) && !AtRest(s)
    ensures CanMove(s, Act) || CanMove(s, Fetch) || CanMove(s, Finish)
  {
    hide Script, Listing, AllWrites;
    if s.job.Some? && !CanMove(s, Act) {
      assert s.Acting();
      if s.Next().Await? { assert Awaiting(s); }
    }
  }

  lemma Nearer(s: State, m: Move)
    requires JobKept(s) && CanMove(s, m) && !m.Take?
    ensures StepsLeft(Moved(s, m)) < StepsLeft(s)
  {
    hide Script, Listed, Applied, RingOperation, Stored, JobKept;
    KeptPosition(s);
    if m.Act? {
      hide Moved, Acted;
      ActNearer(s);
    }
  }

  lemma ActNearer(s: State)
    requires CanMove(s, Act)
    ensures StepsLeft(Moved(s, Act)) < StepsLeft(s)
  {
    hide Script, Listed, Stored, Operation.Valid, Applied;
  }

  lemma KeptPosition(s: State)
    requires JobKept(s)
    ensures s.job.Some? ==> s.Acting()
  {
  }

  /** In every state of every run that is not at rest some step other than a new call is possible, and each such step
      brings rest nearer: whatever the interleaving, every call returns after boundedly many steps. */
  lemma NothingBlocks(s: State, moves: seq<Move>, m: Move)
    requires Fresh(s) && CanRun(s, moves)
    ensures
      var r := Run(s, moves);
      && (!AtRest(r) ==> CanMove(r, Act) || CanMove(r, Fetch) || CanMove(r, Finish))
      && (CanMove(r, m) && !m.Take? ==> StepsLeft(Moved(r, m)) < StepsLeft(r))
  {
    hide Inv, Run, CanRun, Fresh, CanMove, Moved, AtRest, StepsLeft;
    FreshInv(s);
    RunInv(s, moves);
    var r := Run(s, moves);
    KeptJob(r);
    if !AtRest(r) { WayOn(r); }
    if CanMove(r, m) && !m.Take? { Nearer(r, m); }
  }

  lemma KeptJob(s: State)
    requires Inv(s)
    ensures JobKept(s)
  {
  }

  // ---- what each call does ----

  /** A call is possible: the message fits and the log is on; a marker is one record; the switch changes something. */
  predicate Callable(s: State, op: Operation) {
    match op
    case Append(m) => m.Valid() && s.enabled
    case Sync => true
    case EraseLog(marker) => marker.Valid() && |Stored(marker)| == 1
    case Switch(on, marker) => marker.Valid() && |Stored(marker)| == 1 && on != s.enabled
  }

  /** Queueing one record, which the consumer writes at once. */
  function Rounds(n: nat): seq<Move> {
    if n == 0 then [] else [Act, Fetch, Finish] + Rounds(n - 1)
  }

  /** A call with the consumer keeping up. */
  function Schedule(op: Operation): seq<Move>
    requires op.Append? ==> op.message.Valid()
  {
    match op
    case Append(m) => [Take(op), Act] + Rounds(|Stored(m)|)
    case Sync => [Take(op), Act, Fetch, Finish, Act]
    case EraseLog(_) => [Take(op), Act, Act, Fetch, Finish, Act, Act, Fetch, Finish, Act, Fetch, Finish, Act]
    case Switch(on, _) =>
      if on then [Take(op), Act, Act, Fetch, Finish, Act, Fetch, Finish, Act]
      else [Take(op), Act, Fetch, Finish, Act, Fetch, Finish, Act, Act]
  }

  /** The list of messages after a call, and whether the log is on. */
  function MessagesAfter(s: State, op: Operation): seq<Message> {
    match op
    case Append(m) => s.messages + [m]
    case Sync => s.messages
    case EraseLog(marker) => [marker]
    case Switch(_, marker) => s.messages + [marker]
  }

  function RecordsAfter(s: State, op: Operation): seq<Record>
    requires Callable(s, op)
  {
    match op
    case Append(m) => s.log + Stored(m)
    case Sync => s.log
    case EraseLog(marker) => Stored(marker)
    case Switch(_, marker) => s.log + Stored(marker)
  }

  ghost predicate Completed(s: State, op: Operation, s': State)
    requires Callable(s, op)
  {
    && AtRest(s') && s'.messages == MessagesAfter(s, op) && s'.log == RecordsAfter(s, op)
    && s'.enabled == if op.Switch? then op.on else s.enabled
  }

  lemma RunOne(s: State, m: Move, rest: seq<Move>)
    requires CanMove(s, m) && CanRun(Moved(s, m), rest)
    ensures CanRun(s, [m] + rest) && Run(s, [m] + rest) == Run(Moved(s, m), rest)
  {
    assert ([m] + rest)[1..] == rest;
  }

  /** The job stands at this position of its script and the consumer has nothing to do. */
  predicate Stands(s: State, op: Operation, position: nat) {
    s.job.Some? && s.job.value.op == op && s.job.value.position == position && s.queue == [] && s.hand == None
  }

  /** One record or control item: put by the caller, carried out by the consumer. */
  lemma PutRound(s: State, rest: seq<Move>)
    requires s.Acting() && s.Next().Put? && s.queue == [] && s.hand == None
    requires CanRun(Served(s), rest)
    ensures CanRun(s, [Act, Fetch, Finish] + rest) && Run(s, [Act, Fetch, Finish] + rest) == Run(Served(s), rest)
  {
    hide Script, Listed, Run, RingOperation;
    var s1 := Moved(s, Act);
    var s2 := Moved(s1, Fetch);
    assert Moved(s2, Finish) == Served(s);
    RunOne(s2, Finish, rest);
    RunOne(s1, Fetch, [Finish] + rest);
    RunOne(s, Act, [Fetch] + ([Finish] + rest));
    assert [Act, Fetch, Finish] + rest == [Act] + ([Fetch] + ([Finish] + rest));
  }

  /** The state after such a round. */
  function Served(s: State): State
    requires s.Acting() && s.Next().Put? && s.queue == [] && s.hand == None
  {
    var item := s.Next().item;
    var acted := Release(s.(job := Some(s.job.value.(position := s.job.value.position + 1)), messages := Listed(s)));
    acted.(log := Applied(s.log, item), flash := s.flash + RingOperation(item),
           signalled := (if item.Write? then s.signalled else false) || !item.Write?)
  }

  /** The caller is at this position of its script and the consumer has nothing to do, or the call is over. */
  ghost predicate Reached(s: State, op: Operation, position: nat, log: seq<Record>, messages: seq<Message>,
                          enabled: bool)
    requires op.Valid()
  {
    && (if position < |Script(op)| then Stands(s, op, position) else AtRest(s))
    && s.log == log && s.messages == messages && s.enabled == enabled
  }

  /** A step of the caller that puts nothing. */
  lemma PlainStep(s: State, op: Operation, position: nat, log: seq<Record>, messages: seq<Message>, enabled: bool)
    requires op.Valid() && position < |Script(op)| && Reached(s, op, position, log, messages, enabled)
    requires Script(op)[position].Reset? || Script(op)[position].SetEnabled?
             || (Script(op)[position].Await? && s.signalled)
    ensures CanMove(s, Act) && s.Acting()
    ensures Reached(Moved(s, Act), op, position + 1, log, Listed(s),
                    if Script(op)[position].SetEnabled? then Script(op)[position].on else enabled)
  {
    hide Script, Listed;
  }

  /** A step of the caller that puts something, which the consumer carries out. */
  lemma PutStep(s: State, op: Operation, position: nat, log: seq<Record>, messages: seq<Message>, enabled: bool)
    requires op.Valid() && position < |Script(op)| && Reached(s, op, position, log, messages, enabled)
    requires Script(op)[position].Put?
    ensures s.Acting() && s.Next().Put? && s.queue == [] && s.hand == None
    ensures Reached(Served(s), op, position + 1, Applied(log, Script(op)[position].item), Listed(s), enabled)
    ensures !Script(op)[position].item.Write? ==> Served(s).signalled
  {
    hide Script, Listed, Applied, RingOperation;
  }

  lemma TakeStep(s: State, op: Operation)
    requires AtRest(s) && Callable(s, op)
    ensures op.Valid() && CanMove(s, Take(op)) && Reached(Moved(s, Take(op)), op, 0, s.log, s.messages, s.enabled)
  {
    if op.Append? { StoredSize(op.message); }
    hide Stored;
  }

  lemma AppendLength(m: Message)
    requires m.Valid()
    ensures Append(m).Valid() && |Script(Append(m))| == 1 + |Stored(m)|
  {
  }

  lemma {:induction false} AppendRounds(s: State, m: Message, i: nat)
    requires m.Valid() && i < |Stored(m)| && Stands(s, Append(m), 1 + i)
    ensures
      var moves := Rounds(|Stored(m)| - i);
      && CanRun(s, moves)
      && var s' := Run(s, moves);
         AtRest(s') && s'.messages == s.messages + [m] && s'.log == s.log + Stored(m)[i..] && s'.enabled == s.enabled
    decreases |Stored(m)| - i
  {
    hide Stored, Served, Script;
    AppendLength(m);
    AppendScript(Append(m), 1 + i);
    PutStep(s, Append(m), 1 + i, s.log, s.messages, s.enabled);
    var k := |Stored(m)|;
    assert Stored(m)[i..] == [Stored(m)[i]] + Stored(m)[i + 1..];
    if i + 1 == k {
      assert Rounds(0) == [];
    } else {
      AppendRounds(Served(s), m, i + 1);
    }
    PutRound(s, Rounds(k - i - 1));
  }

  lemma AppendCompletes(s: State, m: Message)
    requires AtRest(s) && Callable(s, Append(m))
    ensures CanRun(s, Schedule(Append(m))) && Completed(s, Append(m), Run(s, Schedule(Append(m))))
  {
    hide Stored, Rounds;
    var op := Append(m);
    StoredSize(m);
    AppendScript(op, 0);
    var s1 := Moved(s, Take(op));
    var s2 := Moved(s1, Act);
    AppendRounds(s2, m, 0);
    assert Stored(m)[0..] == Stored(m);
    var rest := Rounds(|Stored(m)|);
    RunOne(s1, Act, rest);
    RunOne(s, Take(op), [Act] + rest);
    assert Schedule(op) == [Take(op)] + ([Act] + rest);
  }

  lemma RunNothing(s: State)
    ensures CanRun(s, []) && Run(s, []) == s
  {
  }

  lemma RunFirst(s: State, moves: seq<Move>)
    requires moves != [] && CanMove(s, moves[0]) && CanRun(Moved(s, moves[0]), moves[1..])
    ensures CanRun(s, moves) && Run(s, moves) == Run(Moved(s, moves[0]), moves[1..])
  {
  }

  lemma PutFirst(s: State, moves: seq<Move>)
    requires s.Acting() && s.Next().Put? && s.queue == [] && s.hand == None
    requires |moves| >= 3 && moves[..3] == [Act, Fetch, Finish] && CanRun(Served(s), moves[3..])
    ensures CanRun(s, moves) && Run(s, moves) == Run(Served(s), moves[3..])
  {
    hide Script, Listed, Run, CanRun, RingOperation, Served;
    PutRound(s, moves[3..]);
    assert moves == [Act, Fetch, Finish] + moves[3..];
  }

  lemma SyncCompletes(s: State)
    requires AtRest(s)
    ensures CanRun(s, Schedule(Sync)) && Completed(s, Sync, Run(s, Schedule(Sync)))
  {
    hide Run, CanRun, Moved, Served, CanMove;
    TakeStep(s, Sync);
    var s1 := Moved(s, Take(Sync));
    PutStep(s1, Sync, 0, s.log, s.messages, s.enabled);
    var s2 := Served(s1);
    PlainStep(s2, Sync, 1, s.log, s.messages, s.enabled);
    RunNothing(Moved(s2, Act));
    RunFirst(s2, [Act]);
    PutFirst(s1, [Act, Fetch, Finish, Act]);
    RunFirst(s, [Take(Sync), Act, Fetch, Finish, Act]);
  }

  lemma EraseCompletes(s: State, marker: Message)
    requires AtRest(s) && Callable(s, EraseLog(marker))
    ensures CanRun(s, Schedule(EraseLog(marker)))
    ensures Completed(s, EraseLog(marker), Run(s, Schedule(EraseLog(marker))))
  {
    hide Stored, Run, CanRun, Moved, Served, CanMove, Completed;
    var op := EraseLog(marker);
    TakeStep(s, op);
    var s1 := Moved(s, Take(op));
    PlainStep(s1, op, 0, s.log, s.messages, s.enabled);
    var s2 := Moved(s1, Act);
    PutStep(s2, op, 1, s.log, s.messages, s.enabled);
    MarkerCompletes(s, Served(s2), marker);
    PutFirst(s2, [Act, Fetch, Finish, Act, Act, Fetch, Finish, Act, Fetch, Finish, Act]);
    RunFirst(s1, [Act, Act, Fetch, Finish, Act, Act, Fetch, Finish, Act, Fetch, Finish, Act]);
    RunFirst(s, [Take(op), Act, Act, Fetch, Finish, Act, Act, Fetch, Finish, Act, Fetch, Finish, Act]);
  }

  /** The second half of an erase. */
  function MarkerMoves(): seq<Move> {
    [Act, Act, Fetch, Finish, Act, Fetch, Finish, Act]
  }

  lemma MarkerCompletes(s: State, s3: State, marker: Message)
    requires Callable(s, EraseLog(marker)) && Reached(s3, EraseLog(marker), 2, [], [], s.enabled) && s3.signalled
    ensures CanRun(s3, MarkerMoves()) && Completed(s, EraseLog(marker), Run(s3, MarkerMoves()))
  {
    hide Stored, Run, CanRun, Moved, Served, CanMove;
    var op := EraseLog(marker);
    PlainStep(s3, op, 2, [], [], s.enabled);
    var s4 := Moved(s3, Act);
    PutStep(s4, op, 3, [], [], s.enabled);
    var s5 := Served(s4);
    PutStep(s5, op, 4, [Stored(marker)[0]], [marker], s.enabled);
    var s6 := Served(s5);
    PlainStep(s6, op, 5, [Stored(marker)[0]], [marker], s.enabled);
    RunNothing(Moved(s6, Act));
    RunFirst(s6, [Act]);
    PutFirst(s5, [Act, Fetch, Finish, Act]);
    PutFirst(s4, [Act, Fetch, Finish, Act, Fetch, Finish, Act]);
    RunFirst(s3, MarkerMoves());
    assert Stored(marker) == [Stored(marker)[0]];
  }

  lemma SwitchOnCompletes(s: State, marker: Message)
    requires AtRest(s) && Callable(s, Switch(true, marker))
    ensures CanRun(s, Schedule(Switch(true, marker)))
    ensures Completed(s, Switch(true, marker), Run(s, Schedule(Switch(true, marker))))
  {
    hide Stored, Run, CanRun, Moved, Served, CanMove;
    var op, r := Switch(true, marker), Stored(marker)[0];
    TakeStep(s, op);
    var s1 := Moved(s, Take(op));
    PlainStep(s1, op, 0, s.log, s.messages, s.enabled);
    var s2 := Moved(s1, Act);
    PutStep(s2, op, 1, s.log, s.messages, true);
    var s3 := Served(s2);
    PutStep(s3, op, 2, s.log + [r], s.messages + [marker], true);
    var s4 := Served(s3);
    PlainStep(s4, op, 3, s.log + [r], s.messages + [marker], true);
    RunNothing(Moved(s4, Act));
    RunFirst(s4, [Act]);
    PutFirst(s3, [Act, Fetch, Finish, Act]);
    PutFirst(s2, [Act, Fetch, Finish, Act, Fetch, Finish, Act]);
    RunFirst(s1, [Act, Act, Fetch, Finish, Act, Fetch, Finish, Act]);
    RunFirst(s, [Take(op), Act, Act, Fetch, Finish, Act, Fetch, Finish, Act]);
    assert Stored(marker) == [r];
  }

  lemma SwitchOffCompletes(s: State, marker: Message)
    requires AtRest(s) && Callable(s, Switch(false, marker))
    ensures CanRun(s, Schedule(Switch(false, marker)))
    ensures Completed(s, Switch(false, marker), Run(s, Schedule(Switch(false, marker))))
  {
    hide Stored, Run, CanRun, Moved, Served, CanMove;
    var op, r := Switch(false, marker), Stored(marker)[0];
    TakeStep(s, op);
    var s1 := Moved(s, Take(op));
    PutStep(s1, op, 0, s.log, s.messages, true);
    var s2 := Served(s1);
    PutStep(s2, op, 1, s.log + [r], s.messages + [marker], true);
    var s3 := Served(s2);
    PlainStep(s3, op, 2, s.log + [r], s.messages + [marker], true);
    var s4 := Moved(s3, Act);
    PlainStep(s4, op, 3, s.log + [r], s.messages + [marker], true);
    RunNothing(Moved(s4, Act));
    RunFirst(s4, [Act]);
    RunFirst(s3, [Act, Act]);
    PutFirst(s2, [Act, Fetch, Finish, Act, Act]);
    PutFirst(s1, [Act, Fetch, Finish, Act, Fetch, Finish, Act, Act]);
    RunFirst(s, [Take(op), Act, Fetch, Finish, Act, Fetch, Finish, Act, Act]);
    assert Stored(marker) == [r];
  }

  /** Every call that is possible at rest can be made, and has exactly its effect: a message is added, nothing, the
      marker is all there is, the marker is added and the log is on or off. */
  lemma CallsComplete(s: State, op: Operation)
    requires AtRest(s) && Callable(s, op)
    ensures CanRun(s, Schedule(op)) && Completed(s, op, Run(s, Schedule(op)))
  {
    hide CanRun, Run, Completed, Schedule, Stored;
    match op
    case Append(m) => AppendCompletes(s, m);
    case Sync => SyncCompletes(s);
    case EraseLog(marker) => EraseCompletes(s, marker);
    case Switch(on, marker) => if on { SwitchOnCompletes(s, marker); } else { SwitchOffCompletes(s, marker); }
  }
}
