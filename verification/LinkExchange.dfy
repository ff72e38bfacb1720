/** One round trip between two links: whatever was lost before, a reliable message whose frame and whose ACK get through
    is handed over, once, and reported acknowledged. */
module LinkExchange {
  import opened Basics
  import opened Bytes
  import opened LinkCodec
  import opened LinkSteps
  import opened LinkInvariants
  import opened LinkTheorems
  import opened LinkProgress
  import opened LinkDelivery

  /** The receiver's message for the sender's newest request. */
  function MessageOf(e: Ends, w: World): Handover
    requires w.a.starts != []
  {
    var start := w.a.starts[|w.a.starts| - 1];
    Handover(e.A, w.a.session, start.sequence, start.request.messageId, start.request.payload, true,
             start.request.messageId in w.b.handlers)
  }

  function AckOf(e: Ends, w: World): Ack
    requires w.a.starts != []
  {
    Ack(e.A, w.a.session, w.a.starts[|w.a.starts| - 1].sequence)
  }

  /** A reliable request to the receiver is the newest one with a number, and the receiver knows the sender. */
  predicate Newest(e: Ends, w: World) {
    && w.a.starts != [] && |w.a.starts| <= TWO_32 - 1
    && w.a.starts[|w.a.starts| - 1].request.destination == e.B
    && w.a.starts[|w.a.starts| - 1].request.options.delivery == Reliable
    && e.A in w.b.peers && e.B != BROADCAST
  }

  /** Submission `k` of the sender is a frame of that request. */
  predicate IsNewestFrame(w: World, k: nat) {
    k < |w.a.submitted| && w.a.submitted[k].DataFrame? && w.a.submitted[k].start + 1 == |w.a.starts|
  }

  /** The message has been handed over before. */
  ghost predicate Known(e: Ends, w: World)
    requires w.a.starts != []
  {
    HandedOver(w.b.handovers, e.A, w.a.session, w.a.starts[|w.a.starts| - 1].sequence)
  }

  /** A frame of the newest request arrives: its message is handed over unless it was before, and it is acknowledged in
      either case, room permitting. */
  ghost predicate Arrives(e: Ends, w: World, b': Link)
    requires w.a.starts != []
  {
    && b'.handovers == w.b.handovers + (if Known(e, w) then [] else [MessageOf(e, w)])
    && b'.ackQueue == w.b.ackQueue + (if |w.b.ackQueue| < ACK_QUEUE_LENGTH then [AckOf(e, w)] else [])
    && b'.active == w.b.active && b'.flight == w.b.flight && b'.submitted == w.b.submitted
    && e.A in b'.peers
  }

  lemma FrameArrives(e: Ends, w: World, k: nat, now: Tick)
    requires e.Linked(w) && Newest(e, w) && IsNewestFrame(w, k)
    ensures e.Next(w, DeliverToB(k, now)).a == w.a
    ensures Arrives(e, w, e.Next(w, DeliverToB(k, now)).b)
  {
    hide Encode, Decode, Inv, FrameOf, Ends.Linked, Arrives, ProcessFrame, Recalls;
    LinkedInv(e, w);
    DataDecodes(w.a, k);
    NewestIs(w.a, k);
    LastNumber(e, w);
    NewestProcessed(e, w, now);
  }

  lemma LinkedInv(e: Ends, w: World)
    requires e.Linked(w)
    ensures Inv(w.a) && Inv(w.b) && SlotIsTrue(w.a) && SlotIsTrue(w.b)
  {
  }

  lemma NewestIs(a: Link, k: nat)
    requires Inv(a) && k < |a.submitted| && a.submitted[k].DataFrame? && a.submitted[k].start + 1 == |a.starts|
    ensures
      var start := a.starts[|a.starts| - 1];
      a.submitted[k].frame == FrameOf(a.session, start) && a.submitted[k].destination == start.request.destination
  {
    assert FrameNumbered(a.session, a.starts, a.submitted[k]);
  }

  /** The number the receiver remembers of the sender is the newest one exactly if that message was handed over, and
      never beyond it. */
  ghost predicate Recalls(e: Ends, w: World)
    requires w.a.starts != []
  {
    var number := w.a.starts[|w.a.starts| - 1].sequence;
    && e.A in w.b.peers
    && (Known(e, w) <==> w.b.peers[e.A].hasRx && w.b.peers[e.A].lastSequence == number)
    && (w.b.peers[e.A].hasRx ==> w.b.peers[e.A].lastSession == w.a.session && w.b.peers[e.A].lastSequence <= number)
  }

  lemma LastNumber(e: Ends, w: World)
    requires e.Linked(w) && Newest(e, w)
    ensures Recalls(e, w)
  {
    StartsByNumber(w.a);
    var peer := w.b.peers[e.A];
    assert PeerEarned(w.b.handovers, e.A, peer);
    hide Inv;
    if peer.hasRx {
      var i :| 0 <= i < |w.b.handovers| && w.b.handovers[i].reliable && w.b.handovers[i].source == e.A
               && w.b.handovers[i].session == peer.lastSession && w.b.handovers[i].sequence == peer.lastSequence;
      assert e.FromSender(w.b.handovers[i]);
      e.MessageByNumber(w.a, w.b.handovers[i]);
    }
  }

  lemma NewestProcessed(e: Ends, w: World, now: Tick)
    requires Newest(e, w) && Recalls(e, w)
    ensures
      var start := w.a.starts[|w.a.starts| - 1];
      Arrives(e, w, ProcessFrame(w.b, e.A, start.request.destination, FrameOf(w.a.session, start), now))
  {
    e.FlagsOf(w.a.session, w.a.starts[|w.a.starts| - 1]);
    hide Known;
  }

  /** A data frame on the wire decodes to what was submitted. */
  lemma DataDecodes(a: Link, k: nat)
    requires Inv(a) && k < |a.submitted| && a.submitted[k].DataFrame?
    ensures Decode(Encode(a.submitted[k].frame)) == Some(a.submitted[k].frame)
  {
    var f := a.submitted[k];
    assert FrameNumbered(a.session, a.starts, f);
    FlagsKnown(a.session, a.starts[f.start]);
    assert Sendable(a.starts[f.start].request);
    assert a.starts[f.start].sequence == SequenceAt(f.start);
    hide Encode, Decode, Inv;
    DecodeOfEncode(f.frame);
  }

  /** So does an ACK, if the number it acknowledges is not 0. */
  lemma AckDecodes(b: Link, k: nat)
    requires Inv(b) && k < |b.submitted| && b.submitted[k].AckFrame? && b.submitted[k].ack.sequence != 0
    ensures
      var f := b.submitted[k];
      && Decode(Encode(f.frame)) == Some(f.frame) && f.destination == f.ack.destination
      && f.frame.IsAck() && f.frame.sequence == f.ack.session && f.frame.correlation == f.ack.sequence
  {
    var f := b.submitted[k];
    assert AckFrameEarned(b.handovers, f);
    AckFrameFlags(f.ack);
    hide Encode, Decode, Inv;
    DecodeOfEncode(f.frame);
  }

  /** An ACK frame of the receiver for the outstanding request arrives: the request ends acknowledged. */
  lemma AckArrives(e: Ends, w: World, k: nat, now: Tick)
    requires Inv(w.a) && Inv(w.b) && w.a.pending.Some?
    requires k < |w.b.submitted| && w.b.submitted[k].AckFrame?
    requires w.b.submitted[k].ack == Ack(e.A, w.a.session, w.a.pending.value.sequence)
    requires w.a.pending.value.request.destination == e.B && w.a.pending.value.request.options.delivery == Reliable
    requires !Overtaken(w.a) && (w.a.pending.value.waitingAck || InDriver(w.a))
    ensures
      var w' := e.Next(w, DeliverToA(k, now));
      && w'.b == w.b && w'.a.pending == None
      && w'.a.finished == w.a.finished + [Settled(w.a, Acknowledged)]
  {
    hide Inv, Encode, Decode, ProcessAck;
    PendingNumbered(w.a);
    AckDecodes(w.b, k);
    AckSettles(w.a, e.B, w.b.submitted[k].frame, now);
  }

  lemma AckSettles(a: Link, source: Mac, f: Frame, now: Tick)
    requires Inv(a) && Awaits(a, source, f)
    ensures
      var a' := ProcessAck(a, source, f, now);
      a'.pending == None && a'.finished == a.finished + [Settled(a, Acknowledged)]
  {
    assert SlotIsTrue(a);
    hide Inv, UpdateRtt;
    UpdateRttFrame(a, source, now);
  }

  lemma PendingNumbered(a: Link)
    requires Inv(a) && a.pending.Some?
    ensures a.starts != [] && a.pending.value.sequence != 0
    ensures a.starts[|a.starts| - 1] == Start(a.pending.value.request, a.pending.value.sequence)
  {
  }

  // ---- a whole round trip ----

  /** The outstanding request of the sender is reliable, to the receiver and still current; its frame is in the driver
      or its ACK is awaited; the receiver knows the sender and can answer. */
  ghost predicate Outstanding(e: Ends, w: World) {
    && w.a.pending.Some? && |w.a.starts| <= TWO_32 - 1
    && w.a.pending.value.request.destination == e.B && w.a.pending.value.request.options.delivery == Reliable
    && !Overtaken(w.a) && (w.a.pending.value.waitingAck || InDriver(w.a))
    && e.A in w.b.peers && e.B != BROADCAST && w.b.active && w.b.flight == None && w.b.ackQueue == []
  }

  /** The world after the frame has arrived, the ACK has left and has arrived. */
  function RoundTrip(e: Ends, w: World, k: nat, t: Tick, u: Tick): World {
    var w1 := e.Next(w, DeliverToB(k, t));
    var w2 := e.Next(w1, MoveB(ActSubmitAck(true)));
    e.Next(w2, DeliverToA(|w1.b.submitted|, u))
  }

  lemma AckGoesOut(e: Ends, w: World)
    requires Inv(w.b) && w.b.active && w.b.flight == None && w.b.ackQueue != []
    ensures
      var w' := e.Next(w, MoveB(ActSubmitAck(true)));
      && w'.a == w.a && Inv(w'.b) && w'.b.handovers == w.b.handovers
      && |w'.b.submitted| == |w.b.submitted| + 1
      && w'.b.submitted[|w.b.submitted|].AckFrame? && w'.b.submitted[|w.b.submitted|].ack == w.b.ackQueue[0]
  {
    assert SlotIsTrue(w.b);
    AckLeaves(w.b, true);
    ActInv(w.b, ActSubmitAck(true));
    hide Inv;
  }

  /** Whatever was lost before: if one frame of the outstanding request and the ACK for it get through, the request ends
      acknowledged, and the receiver has handed its message over - once, however often a frame of it has arrived. */
  lemma OneRoundTripSuffices(e: Ends, worlds: seq<World>, moves: seq<Move>, k: nat, t: Tick, u: Tick)
    requires e.IsWorldRun(worlds, moves) && Outstanding(e, worlds[|moves|]) && IsNewestFrame(worlds[|moves|], k)
    ensures
      var w := worlds[|moves|];
      var w' := RoundTrip(e, w, k, t, u);
      && w.a.starts != []
      && w'.a.pending == None && w'.a.finished == w.a.finished + [Settled(w.a, Acknowledged)]
      && w'.b.handovers == w.b.handovers + (if Known(e, w) then [] else [MessageOf(e, w)])
  {
    e.RunLinked(worlds, moves);
    hide Ends.IsWorldRun;
    RoundTripCompletes(e, worlds[|moves|], k, t, u);
  }

  lemma RoundTripCompletes(e: Ends, w: World, k: nat, t: Tick, u: Tick)
    requires e.Linked(w) && Outstanding(e, w) && IsNewestFrame(w, k)
    ensures
      var w' := RoundTrip(e, w, k, t, u);
      && w.a.starts != []
      && w'.a.pending == None && w'.a.finished == w.a.finished + [Settled(w.a, Acknowledged)]
      && w'.b.handovers == w.b.handovers + (if Known(e, w) then [] else [MessageOf(e, w)])
  {
    PendingNumbered(w.a);
    e.NextInv(w, DeliverToB(k, t));
    FrameArrives(e, w, k, t);
    hide Inv, Ends.Linked, Known, Ends.Next;
    var w1 := e.Next(w, DeliverToB(k, t));
    AckGoesOut(e, w1);
    var w2 := e.Next(w1, MoveB(ActSubmitAck(true)));
    AckArrives(e, w2, |w1.b.submitted|, u);
  }

  // ---- from the queue ----

  /** A fresh exchange: a current reliable request to the receiver is next, the sender's driver takes it at once, its
      completion comes before or after the ACK. */
  ghost predicate Ready(e: Ends, w: World, io: Io) {
    && w.a.active && w.a.pending == None && w.a.flight == None && w.a.txQueue != []
    && w.a.txQueue[0].generation == w.a.generation && |w.a.starts| < TWO_32 - 1
    && w.a.txQueue[0].destination == e.B && w.a.txQueue[0].options.delivery == Reliable
    && io.driverTakes && !io.cancelled && io.late == 0
    && e.A in w.b.peers && e.B != BROADCAST && w.b.active && w.b.flight == None && w.b.ackQueue == []
  }

  /** The world once the request has been taken, and its frame perhaps been reported to have left. */
  function TakenWorld(e: Ends, w: World, io: Io, reported: bool, success: bool, now: Tick): World {
    var w1 := e.Next(w, MoveA(ActTake(io)));
    if reported then e.Next(w1, MoveA(ActMacResult(success, now))) else w1
  }

  /** The first frame of the request is out. */
  ghost predicate FirstOut(a: Link, a': Link, r: Request) {
    var n := |a.starts| + 1;
    && a'.pending.Some? && a'.pending.value.request == r && a'.pending.value.sequence == n
    && a'.pending.value.attempts == 1
    && |a'.starts| == n && a'.starts[n - 1] == Start(r, n)
    && |a'.submitted| == |a.submitted| + 1 && a'.submitted[|a.submitted|].DataFrame?
    && a'.submitted[|a.submitted|].start + 1 == n
    && a'.finished == a.finished && a'.session == a.session && a'.cancels == a.cancels
    && !Overtaken(a') && (a'.pending.value.waitingAck || InDriver(a'))
  }

  lemma FirstSubmission(a: Link, io: Io)
    requires Inv(a) && a.active && a.pending == None && a.flight == None && a.txQueue != []
    requires a.txQueue[0].generation == a.generation && |a.starts| < TWO_32 - 1
    requires io.driverTakes && !io.cancelled && io.late == 0
    ensures FirstOut(a, Act(a, ActTake(io)), a.txQueue[0])
  {
    GenerationFits(a);
    SmallMod(|a.starts|, TWO_32 - 1);
    assert SlotIsTrue(a);
    hide Inv;
    TakeProcessed(a, io);
    Uncancelled(a, io);
  }

  lemma Uncancelled(a: Link, io: Io)
    requires !io.cancelled && io.late == 0 && a.generation < TWO_32
    ensures Act(a, ActTake(io)).generation == a.generation && Act(a, ActTake(io)).session == a.session
  {
  }

  lemma Reported(a: Link, a': Link, r: Request, success: bool, now: Tick)
    requires FirstOut(a, a', r) && SlotIsTrue(a') && r.options.delivery == Reliable
    ensures FirstOut(a, Act(a', ActMacResult(success, now)), r)
  {
    hide TimeoutFor, After;
  }

  lemma TakenIsOutstanding(e: Ends, w: World, io: Io, reported: bool, success: bool, now: Tick)
    requires e.Linked(w) && Ready(e, w, io)
    ensures
      var w' := TakenWorld(e, w, io, reported, success, now);
      && e.Linked(w') && Outstanding(e, w') && w'.b == w.b && |w'.a.submitted| == |w.a.submitted| + 1
      && IsNewestFrame(w', |w.a.submitted|) && w'.a.pending.value.request == w.a.txQueue[0]
      && w'.a.pending.value.attempts == 1 && w'.a.finished == w.a.finished && w'.a.cancels == w.a.cancels
      && w'.a.pending.value.sequence == |w.a.starts| + 1 && |w'.a.starts| == |w.a.starts| + 1
      && w'.a.session == w.a.session
      && w'.a.starts[|w.a.starts|] == Start(w.a.txQueue[0], |w.a.starts| + 1)
  {
    hide Ends.Linked, Inv, Act;
    var w1 := e.Next(w, MoveA(ActTake(io)));
    LinkedInv(e, w);
    e.NextKeeps(w, MoveA(ActTake(io)));
    LinkedInv(e, w1);
    e.NextKeeps(w1, MoveA(ActMacResult(success, now)));
    FirstSubmission(w.a, io);
    Reported(w.a, w1.a, w.a.txQueue[0], success, now);
  }

  /** An undisturbed exchange, in every run: taken from the queue, delivered, acknowledged. The callback reports
      ACKNOWLEDGED after one attempt, and the receiver's handler has got the message, unchanged. */
  lemma ExchangeCompletes(e: Ends, worlds: seq<World>, moves: seq<Move>, io: Io, reported: bool, success: bool,
                          now: Tick, t: Tick, u: Tick)
    requires e.IsWorldRun(worlds, moves) && Ready(e, worlds[|moves|], io)
    ensures
      var w := worlds[|moves|];
      var r, n := w.a.txQueue[0], |w.a.starts| + 1;
      var w' := RoundTrip(e, TakenWorld(e, w, io, reported, success, now), |w.a.submitted|, t, u);
      && w'.a.pending == None
      && w'.a.finished == w.a.finished + [Outcome(r, Acknowledged, n, 1, w.a.cancels)]
      && w'.b.handovers == w.b.handovers + [Handover(e.A, w.a.session, n, r.messageId, r.payload, true,
                                                     r.messageId in w.b.handlers)]
  {
    e.RunLinked(worlds, moves);
    hide Ends.IsWorldRun;
    var w := worlds[|moves|];
    var w1 := TakenWorld(e, w, io, reported, success, now);
    LinkedInv(e, w);
    TakenIsOutstanding(e, w, io, reported, success, now);
    NewNumber(e, w, w1);
    hide Ends.Linked, Inv, RoundTrip, TakenWorld, Known;
    RoundTripCompletes(e, w1, |w.a.submitted|, t, u);
  }

  /** A number just given has not been handed over. */
  lemma NewNumber(e: Ends, w: World, w1: World)
    requires e.Linked(w) && w1.b == w.b && |w1.a.starts| == |w.a.starts| + 1 <= TWO_32 - 1
    requires w1.a.starts[|w.a.starts|].sequence == |w.a.starts| + 1
    ensures !Known(e, w1)
  {
    StartsByNumber(w.a);
    hide Inv;
    forall i | 0 <= i < |w.b.handovers| && e.FromSender(w.b.handovers[i])
      ensures w.b.handovers[i].sequence <= |w.a.starts|
    {
      e.MessageByNumber(w.a, w.b.handovers[i]);
    }
  }
}
