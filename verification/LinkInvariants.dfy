/** What every step of a single link keeps, whatever arrives and whatever the driver does. */
module LinkInvariants {
  import opened Basics
  import opened Bytes
  import opened LinkCodec
  import opened LinkSteps

  function Open(s: Link): nat {
    |s.finished| + if s.pending.Some? then 1 else 0
  }

  // ---- requests ----

  /** Every accepted request is in exactly one place - finished, outstanding or queued - and the callbacks come in the
      order of acceptance: the ids of finished, outstanding and queued requests, read in this order, are 0, 1, 2, ... */
  ghost predicate Conserved(s: Link) {
    && Open(s) + |s.txQueue| == s.accepted
    && |s.txQueue| <= TX_QUEUE_LENGTH
    && (forall i :: 0 <= i < |s.finished| ==> s.finished[i].request.id == i)
    && (s.pending.Some? ==> s.pending.value.request.id == |s.finished|)
    && (forall j :: 0 <= j < |s.txQueue| ==> s.txQueue[j].id == Open(s) + j)
  }

  // ---- the driver slot ----

  /** The owner mark tells truly whose frame the driver has. While the slot belongs to the outstanding request, the
      frame in it is that request's, unless the request is already over. */
  ghost predicate SlotIsTrue(s: Link) {
    match s.owner
    case NoOwner => s.flight == None
    case OwnerAck => s.flight.Some? && s.flight.value.AckFlight?
    case OwnerPending =>
      && s.flight.Some? && s.flight.value.DataFlight?
      && s.flight.value.id < Open(s)
      && (s.pending.Some? ==>
            s.flight.value == DataFlight(s.pending.value.request.id, s.pending.value.request.destination))
  }

  // ---- attempts ----

  /** How often a request's frame was handed to the driver. */
  function Count(submitted: seq<Submission>, id: nat): nat {
    if submitted == [] then 0
    else
      var last := submitted[|submitted| - 1];
      Count(submitted[..|submitted| - 1], id) + if last.DataFrame? && last.request.id == id then 1 else 0
  }

  ghost predicate IdsBelow(submitted: seq<Submission>, n: nat) {
    forall k :: 0 <= k < |submitted| && submitted[k].DataFrame? ==> submitted[k].request.id < n
  }

  lemma {:induction false} CountNone(submitted: seq<Submission>, id: nat)
    requires IdsBelow(submitted, id)
    ensures Count(submitted, id) == 0
  {
    if submitted == [] {
    } else {
      CountNone(submitted[..|submitted| - 1], id);
    }
  }

  ghost predicate OutcomeCounted(submitted: seq<Submission>, o: Outcome) {
    && Count(submitted, o.request.id) == o.attempts <= o.request.options.maxAttempts
    && (o.result == NoAck ==> o.attempts == o.request.options.maxAttempts)
  }

  /** Attempts are counted truly and never exceed the request's limit; `NoAck` means the limit was reached. */
  ghost predicate AttemptsBounded(s: Link) {
    && s.defaults.maxAttempts >= 1
    && IdsBelow(s.submitted, Open(s))
    && (forall j :: 0 <= j < |s.txQueue| ==> s.txQueue[j].options.maxAttempts >= 1)
    && (forall i :: 0 <= i < |s.finished| ==> OutcomeCounted(s.submitted, s.finished[i]))
    && (s.pending.Some? ==>
          Count(s.submitted, s.pending.value.request.id) == s.pending.value.attempts
            <= s.pending.value.request.options.maxAttempts
          && s.pending.value.request.options.maxAttempts >= 1)
  }

  // ---- cancellation ----

  /** The generation counter after `cancels` cancellations: 32 bits wide, starting at 1. */
  function GenerationAt(cancels: nat): nat {
    (1 + cancels) % TWO_32
  }

  ghost predicate Stamped(cancels: nat, r: Request) {
    r.generation == GenerationAt(r.cancels) && r.cancels <= cancels
  }

  ghost predicate OutcomeHonest(cancels: nat, o: Outcome) {
    && Stamped(cancels, o.request)
    && o.request.cancels <= o.cancelsNow <= cancels
    && (o.result == Cancelled <==> GenerationAt(o.request.cancels) != GenerationAt(o.cancelsNow))
  }

  ghost predicate FrameCurrent(cancels: nat, f: Submission) {
    f.DataFrame? ==>
      && Stamped(cancels, f.request)
      && f.request.cancels <= f.cancelsChecked <= f.cancelsNow <= cancels
      && GenerationAt(f.request.cancels) == GenerationAt(f.cancelsChecked)
  }

  /** The driver has a frame before the generation is looked at for the next one. */
  ghost predicate FramesOrdered(submitted: seq<Submission>) {
    forall j, k :: 0 <= j < k < |submitted| && submitted[j].DataFrame? && submitted[k].DataFrame? ==>
      submitted[j].cancelsNow <= submitted[k].cancelsChecked
  }

  /** The generation of a frame's request is the current one when it is looked at, and a request finishes with
      `Cancelled` exactly when its generation is not the current one any more. */
  ghost predicate CancellationKept(s: Link) {
    && s.generation == GenerationAt(s.cancels)
    && (forall j :: 0 <= j < |s.txQueue| ==> Stamped(s.cancels, s.txQueue[j]))
    && (s.pending.Some? ==> Stamped(s.cancels, s.pending.value.request))
    && (forall i :: 0 <= i < |s.finished| ==> OutcomeHonest(s.cancels, s.finished[i]))
    && (forall k :: 0 <= k < |s.submitted| ==> FrameCurrent(s.cancels, s.submitted[k]))
    && FramesOrdered(s.submitted)
  }

  // ---- sequence numbers ----

  /** The sequence number of the `n`-th request that got one: 1, 2, ..., 2^32 - 1, 1, 2, ... */
  function SequenceAt(n: nat): nat {
    1 + n % (TWO_32 - 1)
  }

  ghost predicate Sendable(r: Request) {
    |r.payload| <= MAX_PAYLOAD_SIZE && r.messageId != ACK_MESSAGE_ID
  }

  ghost predicate FrameNumbered(session: nat, starts: seq<Start>, f: Submission) {
    f.DataFrame? ==>
      && f.start < |starts|
      && f.request == starts[f.start].request
      && f.destination == f.request.destination
      && f.frame == FrameOf(session, starts[f.start])
  }

  /** Requests get consecutive sequence numbers in the order of acceptance, and every data frame carries the number,
      destination and content of the request it was made for. */
  ghost predicate Numbered(s: Link) {
    && s.session < TWO_32
    && s.nextSequence == SequenceAt(|s.starts|)
    && (forall i :: 0 <= i < |s.starts| ==>
          s.starts[i].sequence == SequenceAt(i) && Sendable(s.starts[i].request) && s.starts[i].request.id < Open(s))
    && (forall i, j :: 0 <= i < j < |s.starts| ==> s.starts[i].request.id < s.starts[j].request.id)
    && (s.pending.Some? ==>
          |s.starts| > 0 && s.pending.value.start == |s.starts| - 1
          && s.starts[|s.starts| - 1] == Start(s.pending.value.request, s.pending.value.sequence)
          && s.pending.value.frame == FrameOf(s.session, s.starts[|s.starts| - 1]))
    && (forall j :: 0 <= j < |s.txQueue| ==> Sendable(s.txQueue[j]))
    && (forall i :: 0 <= i < |s.finished| && s.finished[i].result == Acknowledged ==>
          Start(s.finished[i].request, s.finished[i].sequence) in s.starts)
    && (forall k :: 0 <= k < |s.submitted| ==> FrameNumbered(s.session, s.starts, s.submitted[k]))
  }

  // ---- acknowledgements given ----

  /** A reliable message of this origin and number was handed over. */
  ghost predicate HandedOver(handovers: seq<Handover>, source: Mac, session: nat, sequence: nat) {
    exists i :: 0 <= i < |handovers| && handovers[i].reliable && handovers[i].source == source
                && handovers[i].session == session && handovers[i].sequence == sequence
  }

  ghost predicate AckEarned(handovers: seq<Handover>, ack: Ack) {
    && ack.session < TWO_32 && ack.sequence < TWO_32 && ack.destination != BROADCAST
    && HandedOver(handovers, ack.destination, ack.session, ack.sequence)
  }

  ghost predicate PeerEarned(handovers: seq<Handover>, source: Mac, peer: Peer) {
    peer.hasRx ==>
      && peer.lastSession < TWO_32 && peer.lastSequence < TWO_32
      && HandedOver(handovers, source, peer.lastSession, peer.lastSequence)
  }

  ghost predicate AckFrameEarned(handovers: seq<Handover>, f: Submission) {
    f.AckFrame? ==>
      && AckEarned(handovers, f.ack) && f.destination == f.ack.destination
      && f.frame == Frame(FLAG_ACK, ACK_MESSAGE_ID, f.ack.session, f.ack.sequence, [])
  }

  /** An ACK is queued or sent only for a message that was handed over. */
  ghost predicate AcksEarned(s: Link) {
    && BROADCAST !in s.peers
    && (forall j :: 0 <= j < |s.ackQueue| ==> AckEarned(s.handovers, s.ackQueue[j]))
    && (forall k :: 0 <= k < |s.submitted| ==> AckFrameEarned(s.handovers, s.submitted[k]))
    && (forall source :: source in s.peers ==> PeerEarned(s.handovers, source, s.peers[source]))
  }

  ghost predicate Inv(s: Link) {
    && Conserved(s)
    && SlotIsTrue(s)
    && AttemptsBounded(s)
    && CancellationKept(s)
    && Numbered(s)
    && AcksEarned(s)
  }

  // ---- a fresh link ----

  ghost predicate Fresh(s: Link) {
    && s.session < TWO_32 && s.nextSequence == 1 && s.generation == 1 && s.defaults.maxAttempts >= 1
    && s.txQueue == [] && s.ackQueue == [] && s.pending == None && s.owner == NoOwner
    && BROADCAST !in s.peers && (forall source :: source in s.peers ==> !s.peers[source].hasRx)
    && s.cancels == 0 && s.accepted == 0 && s.flight == None && s.starts == [] && s.finished == []
    && s.submitted == [] && s.handovers == [] && s.samples == []
  }

  lemma FreshInv(s: Link)
    requires Fresh(s)
    ensures Inv(s)
  {
  }

  // ---- preservation, building block by building block ----

  lemma CancelInv(s: Link)
    requires Inv(s)
    ensures Inv(Cancel(s))
  {
    CancelsInv(s, 1);
  }

  lemma CancelsInv(s: Link, n: nat)
    requires Inv(s)
    ensures Inv(Cancels(s, n))
  {
    GenerationAfter(s.cancels, n);
  }

  lemma GenerationAfter(cancels: nat, n: nat)
    ensures GenerationAt(cancels + n) == (GenerationAt(cancels) + n) % TWO_32
  {
  }

  lemma SendInv(s: Link, destination: Mac, messageId: U16, payload: seq<Byte>, options: SendOptions)
    requires Inv(s)
    ensures Inv(Send(s, destination, messageId, payload, options))
  {
    hide Count, HandedOver, FrameOf, SequenceAt;
  }

  /** Finishing the outstanding request: the one condition is that the result is honest about staleness and attempts. */
  lemma FinishInv(s: Link, result: SendResult)
    requires Inv(s) && s.pending.Some?
    requires result == Cancelled <==> Stale(s)
    requires result == NoAck ==> s.pending.value.attempts == s.pending.value.request.options.maxAttempts
    ensures Inv(Finish(s, result))
  {
    var t, s' := s.pending.value, Finish(s, result);
    assert s.starts[|s.starts| - 1] in s.starts;
    forall i | 0 <= i < |s'.finished|
      ensures OutcomeCounted(s'.submitted, s'.finished[i]) && OutcomeHonest(s'.cancels, s'.finished[i])
    {
    }
    forall k | 0 <= k < |s'.submitted|
      ensures FrameNumbered(s'.session, s'.starts, s'.submitted[k]) && FrameCurrent(s'.cancels, s'.submitted[k])
      ensures AckFrameEarned(s'.handovers, s'.submitted[k])
    {
    }
  }

  lemma DropStaleInv(s: Link)
    requires Inv(s)
    ensures Inv(DropStale(s)) && !Stale(DropStale(s))
  {
    if Stale(s) { FinishInv(s, Cancelled); }
  }

  lemma CountSnoc(submitted: seq<Submission>, f: Submission, id: nat)
    ensures Count(submitted + [f], id) == Count(submitted, id) + if f.DataFrame? && f.request.id == id then 1 else 0
  {
    assert (submitted + [f])[..|submitted|] == submitted;
  }

  /** Handing the outstanding request's frame to the driver, with attempts left and the generation current when it was
      looked at. */
  lemma SubmitInv(s: Link, checked: nat, retry: bool, now: Tick)
    requires Inv(s) && s.pending.Some? && s.owner == NoOwner
    requires s.pending.value.request.cancels <= checked <= s.cancels
    requires GenerationAt(s.pending.value.request.cancels) == GenerationAt(checked)
    requires forall k :: 0 <= k < |s.submitted| && s.submitted[k].DataFrame? ==> s.submitted[k].cancelsNow <= checked
    requires s.pending.value.attempts < s.pending.value.request.options.maxAttempts
    ensures Inv(Submit(s, checked, retry, now))
  {
    SubmitAttempts(s, checked, retry, now);
    SubmitCancellation(s, checked, retry, now);
    SubmitNumbered(s, checked, retry, now);
    SubmitAcks(s, checked, retry, now);
    hide AttemptsBounded, CancellationKept, Numbered, AcksEarned;
  }

  lemma SubmitAttempts(s: Link, checked: nat, retry: bool, now: Tick)
    requires AttemptsBounded(s) && s.pending.Some?
    requires s.pending.value.attempts < s.pending.value.request.options.maxAttempts
    requires forall i :: 0 <= i < |s.finished| ==> s.finished[i].request.id != s.pending.value.request.id
    requires s.pending.value.request.id < Open(s)
    ensures AttemptsBounded(Submit(s, checked, retry, now))
  {
    var t, s' := s.pending.value, Submit(s, checked, retry, now);
    forall id: nat
      ensures Count(s'.submitted, id) == Count(s.submitted, id) + if id == t.request.id then 1 else 0
    {
      CountSnoc(s.submitted, s'.submitted[|s.submitted|], id);
    }
    hide Count;
    forall i | 0 <= i < |s'.finished|
      ensures OutcomeCounted(s'.submitted, s'.finished[i])
    {
      assert OutcomeCounted(s.submitted, s.finished[i]);
    }
  }

  lemma SubmitCancellation(s: Link, checked: nat, retry: bool, now: Tick)
    requires CancellationKept(s) && s.pending.Some?
    requires s.pending.value.request.cancels <= checked <= s.cancels
    requires GenerationAt(s.pending.value.request.cancels) == GenerationAt(checked)
    requires forall k :: 0 <= k < |s.submitted| && s.submitted[k].DataFrame? ==> s.submitted[k].cancelsNow <= checked
    ensures CancellationKept(Submit(s, checked, retry, now))
  {
    hide GenerationAt;
  }

  lemma SubmitNumbered(s: Link, checked: nat, retry: bool, now: Tick)
    requires Numbered(s) && s.pending.Some?
    ensures Numbered(Submit(s, checked, retry, now))
  {
    hide SequenceAt, FrameOf;
    assert s.starts[|s.starts| - 1] == Start(s.pending.value.request, s.pending.value.sequence);
  }

  lemma SubmitAcks(s: Link, checked: nat, retry: bool, now: Tick)
    requires AcksEarned(s) && s.pending.Some?
    ensures AcksEarned(Submit(s, checked, retry, now))
  {
    hide HandedOver;
  }

  /** What the look at the generation tells. */
  lemma CheckedFacts(s: Link)
    requires Inv(s) && s.pending.Some? && CanSubmit(s)
    ensures s.pending.value.request.cancels <= s.cancels
    ensures GenerationAt(s.pending.value.request.cancels) == GenerationAt(s.cancels)
    ensures forall k :: 0 <= k < |s.submitted| && s.submitted[k].DataFrame? ==> s.submitted[k].cancelsNow <= s.cancels
  {
    forall k | 0 <= k < |s.submitted| && s.submitted[k].DataFrame?
      ensures s.submitted[k].cancelsNow <= s.cancels
    {
      assert FrameCurrent(s.cancels, s.submitted[k]);
    }
  }

  lemma GiveUpInv(s: Link)
    requires Inv(s) && s.pending.Some?
    ensures Inv(GiveUp(s))
  {
    hide Inv, Finish;
    FinishInv(s, if Stale(s) then Cancelled else SubmitFailed);
  }

  lemma SubmitOrFinishInv(s: Link, retry: bool, io: Io)
    requires Inv(s) && s.pending.Some?
    requires s.pending.value.attempts < s.pending.value.request.options.maxAttempts
    ensures Inv(SubmitOrFinish(s, retry, io))
  {
    hide Inv, Submit, GiveUp;
    var s1 := if io.cancelled then Cancel(s) else s;
    CancelInv(s);
    CancelKeepsPending(s);
    if CanSubmit(s1) {
      var s2 := Cancels(s1, io.late);
      CheckedFacts(s1);
      CancelsInv(s1, io.late);
      if io.driverTakes { SubmitInv(s2, s1.cancels, retry, io.now); } else { GiveUpInv(s2); }
    } else {
      GiveUpInv(s1);
    }
  }

  lemma CancelKeepsPending(s: Link)
    ensures Cancel(s).pending == s.pending && Cancel(s).starts == s.starts
  {
  }

  function Popped(s: Link): Link
    requires s.txQueue != []
  {
    s.(txQueue := s.txQueue[1..])
  }

  lemma RejectInv(s: Link, result: SendResult)
    requires Inv(s) && s.txQueue != [] && s.pending == None && result != NoAck && result != Acknowledged
    requires result == Cancelled <==> s.txQueue[0].generation != s.generation
    ensures Inv(Reject(Popped(s), s.txQueue[0], result))
  {
    CountNone(s.submitted, s.txQueue[0].id);
    RejectOthers(s, result);
    hide Count, CancellationKept, Numbered, AcksEarned;
  }

  lemma RejectOthers(s: Link, result: SendResult)
    requires s.txQueue != [] && s.pending == None && result != Acknowledged && CancellationKept(s) && Numbered(s)
    requires AcksEarned(s) && Conserved(s) && (result == Cancelled <==> s.txQueue[0].generation != s.generation)
    ensures
      var s' := Reject(Popped(s), s.txQueue[0], result);
      CancellationKept(s') && Numbered(s') && AcksEarned(s')
  {
    hide HandedOver, FrameOf, SequenceAt;
  }

  lemma SequenceStep(n: nat)
    ensures
      var next := (SequenceAt(n) + 1) % TWO_32;
      SequenceAt(n + 1) == if next == 0 then 1 else next
  {
    var m := TWO_32 - 1;
    var q := n / m;
    assert n == q * m + n % m;
    if n % m + 1 < m {
      DivMod(n + 1, m, q, n % m + 1);
    } else {
      DivMod(n + 1, m, q + 1, 0);
    }
  }

  lemma DivMod(n: nat, m: nat, q: nat, r: nat)
    requires m == TWO_32 - 1 && n == q * m + r && r < m
    ensures n % m == r
  {
  }

  lemma BeginInv(s: Link)
    requires Inv(s) && s.txQueue != [] && s.pending == None && s.owner == NoOwner
    ensures Inv(Begin(Popped(s), s.txQueue[0]))
  {
    CountNone(s.submitted, s.txQueue[0].id);
    BeginNumbered(s);
    BeginOthers(s);
    hide Numbered, CancellationKept, AcksEarned, Count;
  }

  lemma BeginNumbered(s: Link)
    requires Numbered(s) && Conserved(s) && s.txQueue != [] && s.pending == None
    ensures Numbered(Begin(Popped(s), s.txQueue[0]))
  {
    SequenceStep(|s.starts|);
    hide SequenceAt, FrameOf;
    var s' := Begin(Popped(s), s.txQueue[0]);
    forall k | 0 <= k < |s'.submitted|
      ensures FrameNumbered(s'.session, s'.starts, s'.submitted[k])
    {
      assert FrameNumbered(s.session, s.starts, s.submitted[k]);
    }
  }

  lemma BeginOthers(s: Link)
    requires CancellationKept(s) && AcksEarned(s) && s.txQueue != [] && s.pending == None
    ensures CancellationKept(Begin(Popped(s), s.txQueue[0])) && AcksEarned(Begin(Popped(s), s.txQueue[0]))
  {
    hide GenerationAt, HandedOver, FrameOf;
  }

  lemma TakeNextInv(s: Link, io: Io)
    requires Inv(s)
    ensures Inv(TakeNext(s, io))
  {
    if s.pending == None && s.owner == NoOwner && s.txQueue != [] {
      var r := s.txQueue[0];
      if r.generation != s.generation {
        RejectInv(s, Cancelled);
      } else if !s.active {
        RejectInv(s, SubmitFailed);
      } else {
        BeginInv(s);
        assert r.options.maxAttempts >= 1;
        SubmitOrFinishInv(Begin(Popped(s), r), false, io);
      }
    }
  }

  lemma SubmitNextAckInv(s: Link, driverTakes: bool)
    requires Inv(s)
    ensures Inv(SubmitNextAck(s, driverTakes))
  {
    NextAckOthers(s, driverTakes);
    NextAckAttempts(s, driverTakes);
    hide AttemptsBounded, CancellationKept, Numbered, AcksEarned;
  }

  lemma NextAckAttempts(s: Link, driverTakes: bool)
    requires AttemptsBounded(s)
    ensures AttemptsBounded(SubmitNextAck(s, driverTakes))
  {
    var s' := SubmitNextAck(s, driverTakes);
    if |s'.submitted| > |s.submitted| {
      forall id: nat
        ensures Count(s'.submitted, id) == Count(s.submitted, id)
      {
        CountSnoc(s.submitted, s'.submitted[|s.submitted|], id);
      }
      hide Count;
      forall i | 0 <= i < |s'.finished|
        ensures OutcomeCounted(s'.submitted, s'.finished[i])
      {
        assert OutcomeCounted(s.submitted, s.finished[i]);
      }
    }
  }

  lemma NextAckOthers(s: Link, driverTakes: bool)
    requires CancellationKept(s) && Numbered(s) && AcksEarned(s)
    ensures
      var s' := SubmitNextAck(s, driverTakes);
      CancellationKept(s') && Numbered(s') && AcksEarned(s')
  {
    hide GenerationAt, HandedOver, FrameOf, SequenceAt;
    if s.ackQueue != [] { assert AckEarned(s.handovers, s.ackQueue[0]); }
  }

  lemma QueueAckInv(s: Link, ack: Ack)
    requires Inv(s) && AckEarned(s.handovers, ack)
    ensures Inv(QueueAck(s, ack))
  {
    hide Count, HandedOver, GenerationAt, FrameOf, SequenceAt;
  }

  lemma UpdateRttInv(s: Link, source: Mac, now: Tick)
    requires Inv(s) && s.pending.Some?
    ensures Inv(UpdateRtt(s, source, now))
    ensures UpdateRtt(s, source, now).pending == s.pending && UpdateRtt(s, source, now).generation == s.generation
  {
    hide Count, GenerationAt, FrameOf, SequenceAt, HandedOver, Sample;
  }

  lemma ProcessAckInv(s: Link, source: Mac, frame: Frame, now: Tick)
    requires Inv(s)
    ensures Inv(ProcessAck(s, source, frame, now))
  {
    hide Inv, Finish, UpdateRtt;
    DropStaleInv(s);
    var s1 := DropStale(s);
    if s1.pending.Some? {
      UpdateRttInv(s1, source, now);
      FinishInv(UpdateRtt(s1, source, now), Acknowledged);
    }
  }

  lemma MoreHandovers(handovers: seq<Handover>, h: Handover, source: Mac, session: nat, sequence: nat)
    requires HandedOver(handovers, source, session, sequence)
    ensures HandedOver(handovers + [h], source, session, sequence)
  {
    var i :| 0 <= i < |handovers| && handovers[i].reliable && handovers[i].source == source
             && handovers[i].session == session && handovers[i].sequence == sequence;
    assert (handovers + [h])[i] == handovers[i];
  }

  lemma HandOverInv(s: Link, source: Mac, frame: Frame)
    requires Inv(s)
    ensures Inv(HandOver(s, source, frame))
    ensures frame.IsReliable() ==>
              HandedOver(HandOver(s, source, frame).handovers, source, frame.correlation, frame.sequence)
  {
    hide Count, GenerationAt, FrameOf, SequenceAt;
    var s' := HandOver(s, source, frame);
    var h := s'.handovers[|s.handovers|];
    forall from, session, sequence | HandedOver(s.handovers, from, session, sequence)
      ensures HandedOver(s'.handovers, from, session, sequence)
    {
      MoreHandovers(s.handovers, h, from, session, sequence);
    }
  }

  lemma RememberInv(s: Link, source: Mac, frame: Frame)
    requires Inv(s) && source in s.peers && InRange(frame)
    requires HandedOver(s.handovers, source, frame.correlation, frame.sequence)
    ensures Inv(Remember(s, source, frame))
  {
  }

  /** The order of remembering, acknowledging and handing over within one step does not matter. */
  lemma AcceptanceOrder(s: Link, source: Mac, frame: Frame, ack: Ack)
    requires source in s.peers
    ensures HandOver(QueueAck(Remember(s, source, frame), ack), source, frame)
         == QueueAck(Remember(HandOver(s, source, frame), source, frame), ack)
  {
  }

  lemma ProcessFrameInv(s: Link, source: Mac, destination: Mac, frame: Frame, now: Tick)
    requires Inv(s) && InRange(frame)
    ensures Inv(ProcessFrame(s, source, destination, frame, now))
  {
    hide Inv, ProcessAck, HandOver, QueueAck, Remember, HandedOver;
    if frame.IsAck() {
      ProcessAckInv(s, source, frame, now);
    } else if frame.IsReliable() {
      var ack := Ack(source, frame.correlation, frame.sequence);
      var verdict := Judge(s, source, destination, frame);
      if verdict == Repeat {
        RepeatIsEarned(s, source, destination, frame);
        QueueAckInv(s, ack);
      } else if verdict == Take {
        HandOverInv(s, source, frame);
        HandOverKeepsPeers(s, source, frame);
        var s1 := HandOver(s, source, frame);
        RememberInv(s1, source, frame);
        HandOverKeepsPeers(s1, source, frame);
        assert source != BROADCAST by { KnownPeer(s, source); }
        QueueAckInv(Remember(s1, source, frame), ack);
        AcceptanceOrder(s, source, frame, ack);
      }
    } else {
      HandOverInv(s, source, frame);
    }
  }

  lemma KnownPeer(s: Link, source: Mac)
    requires Inv(s) && source in s.peers
    ensures source != BROADCAST
  {
  }

  lemma HandOverKeepsPeers(s: Link, source: Mac, frame: Frame)
    ensures HandOver(s, source, frame).peers == s.peers
    ensures source in s.peers ==> Remember(s, source, frame).handovers == s.handovers
  {
  }

  lemma RepeatIsEarned(s: Link, source: Mac, destination: Mac, frame: Frame)
    requires Inv(s) && Judge(s, source, destination, frame) == Repeat
    ensures AckEarned(s.handovers, Ack(source, frame.correlation, frame.sequence))
  {
  }

  lemma ReceiveInv(s: Link, source: Mac, destination: Mac, data: seq<Byte>, now: Tick)
    requires Inv(s)
    ensures Inv(Receive(s, source, destination, data, now))
  {
    hide Inv, ProcessFrame, Decode;
    if Decode(data).Some? {
      EncodeOfDecode(data);
      ProcessFrameInv(s, source, destination, Decode(data).value, now);
    }
  }

  lemma FreeSlotInv(s: Link)
    requires Inv(s)
    ensures Inv(s.(owner := NoOwner, flight := None))
  {
  }

  lemma RetimeInv(s: Link, waiting: bool, deadline: Tick)
    requires Inv(s) && s.pending.Some?
    ensures Inv(s.(pending := Some(s.pending.value.(waitingAck := waiting, deadlineTick := deadline))))
  {
  }

  lemma ProcessMacResultInv(s: Link, destination: Mac, success: bool, now: Tick)
    requires Inv(s)
    ensures Inv(ProcessMacResult(s, destination, success, now))
  {
    hide Inv, Finish;
    DropStaleInv(s);
    var s1 := DropStale(s);
    FreeSlotInv(s1);
    var free := s1.(owner := NoOwner, flight := None);
    if s1.pending.Some? {
      FinishInv(free, Sent);
      FinishInv(free, MacFailed);
      RetimeInv(free, true, After(now, TimeoutFor(s1, s1.pending.value.request)));
    }
  }

  lemma ProcessTimeoutInv(s: Link, io: Io)
    requires Inv(s)
    ensures Inv(ProcessTimeout(s, io))
  {
    hide Inv, Finish, SubmitOrFinish;
    if s.pending.Some? {
      var t := s.pending.value;
      var s1 := s.(pending := Some(t.(waitingAck := false)));
      RetimeInv(s, false, t.deadlineTick);
      AttemptsLeft(s);
      if Stale(s) {
        FinishInv(s, Cancelled);
      } else if t.attempts >= t.request.options.maxAttempts {
        FinishInv(s1, NoAck);
      } else {
        SubmitOrFinishInv(s1, true, io);
      }
    }
  }

  lemma AttemptsLeft(s: Link)
    requires Inv(s) && s.pending.Some?
    ensures s.pending.value.attempts <= s.pending.value.request.options.maxAttempts
  {
  }

  lemma DeactivateInv(s: Link)
    requires Inv(s)
    ensures Inv(Deactivate(s))
  {
    hide Inv, Cancel;
    CancelInv(s);
    SwitchedOffInv(Cancel(s));
  }

  lemma SwitchedOffInv(s: Link)
    requires Inv(s)
    ensures Inv(s.(active := false, owner := NoOwner, flight := None, ackQueue := []))
  {
    hide Count, HandedOver, GenerationAt, FrameOf, SequenceAt;
  }

  lemma ActivateInv(s: Link)
    requires Inv(s)
    ensures Inv(Activate(s))
  {
  }

  /** Setting up peers and handlers before anything is sent leaves the link fresh. */
  lemma SetUpIsFresh(s: Link, address: Mac, channel: nat, encrypted: bool, newKey: bool, driverTakes: bool, id: U16)
    requires Fresh(s)
    ensures Fresh(AddPeer(s, address, channel, encrypted, newKey, driverTakes))
    ensures Fresh(RemovePeer(s, address)) && Fresh(RegisterHandler(s, id)) && Fresh(Activate(s))
  {
  }

  /** Later on it keeps the invariant. */
  lemma PeersInv(s: Link, address: Mac, channel: nat, encrypted: bool, newKey: bool, driverTakes: bool, id: U16)
    requires Inv(s)
    ensures Inv(AddPeer(s, address, channel, encrypted, newKey, driverTakes))
    ensures Inv(RemovePeer(s, address)) && Inv(RegisterHandler(s, id))
  {
    hide Inv;
    PeersEarned(s);
    NewPeersInv(s, AddPeer(s, address, channel, encrypted, newKey, driverTakes).peers, s.handlers);
    NewPeersInv(s, RemovePeer(s, address).peers, s.handlers);
    NewPeersInv(s, s.peers, RegisterHandler(s, id).handlers);
  }

  lemma PeersEarned(s: Link)
    requires Inv(s)
    ensures BROADCAST !in s.peers
    ensures forall m :: m in s.peers ==> PeerEarned(s.handovers, m, s.peers[m])
  {
  }

  lemma NewPeersInv(s: Link, peers: map<Mac, Peer>, handlers: set<nat>)
    requires Inv(s) && BROADCAST !in peers && forall m :: m in peers ==> PeerEarned(s.handovers, m, peers[m])
    ensures Inv(s.(peers := peers, handlers := handlers))
  {
  }

  /** Every step a link takes on its own keeps the invariant. */
  lemma ActInv(s: Link, action: Action)
    requires Inv(s)
    ensures Inv(Act(s, action))
  {
    hide Inv, Send, Cancel, TakeNext, SubmitNextAck, ProcessMacResult, ProcessTimeout, DropStale, Deactivate;
    ActivateInv(s);
    match action
    case ActSend(destination, messageId, payload, options) => SendInv(s, destination, messageId, payload, options);
    case ActCancel => CancelInv(s);
    case ActTake(io) => TakeNextInv(s, io);
    case ActSubmitAck(driverTakes) => SubmitNextAckInv(s, driverTakes);
    case ActMacResult(success, now) =>
      if s.flight.Some? {
        var destination := match s.flight.value case DataFlight(_, d) => d case AckFlight(ack) => ack.destination;
        ProcessMacResultInv(s, destination, success, now);
      }
    case ActTimeout(io) => ProcessTimeoutInv(s, io);
    case ActDropStale => DropStaleInv(s);
    case ActDeactivate => DeactivateInv(s);
    case ActActivate =>
  }
}
