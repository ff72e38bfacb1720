/** Two links, one sending to the other over a network that may lose, repeat, delay and reorder every frame, among
    any other traffic. The sender is at address `A`, the receiver at address `B`; both run the whole link task, and
    the receiver's peer entry for the sender is not re-keyed or removed. */
module LinkDelivery {
  import opened Basics
  import opened Bytes
  import opened LinkCodec
  import opened LinkSteps
  import opened LinkInvariants
  import opened LinkTheorems

  datatype World = World(a: Link, b: Link)

  /** The network delivers any frame ever submitted, any number of times, at any time, in any order; a frame that is
      never delivered is lost. Strangers send whatever they like under other addresses. */
  datatype Move =
    | MoveA(action: Action)
    | MoveB(action: Action)
    | DeliverToB(k: nat, now: Tick)
    | DeliverToA(k: nat, now: Tick)
    | StrangerToA(source: Mac, destination: Mac, data: seq<Byte>, now: Tick)
    | StrangerToB(source: Mac, destination: Mac, data: seq<Byte>, now: Tick)

  /** The addresses of the sender and of the receiver. */
  datatype Ends = Ends(A: Mac, B: Mac) {

    predicate Reaches(f: Submission, address: Mac) {
      f.destination == address || f.destination == BROADCAST
    }

    function Next(w: World, m: Move): World {
      match m
      case MoveA(action) => w.(a := Act(w.a, action))
      case MoveB(action) => w.(b := Act(w.b, action))
      case DeliverToB(k, now) =>
        if k < |w.a.submitted| && Reaches(w.a.submitted[k], B)
        then w.(b := Receive(w.b, A, w.a.submitted[k].destination, Encode(w.a.submitted[k].frame), now)) else w
      case DeliverToA(k, now) =>
        if k < |w.b.submitted| && Reaches(w.b.submitted[k], A)
        then w.(a := Receive(w.a, B, w.b.submitted[k].destination, Encode(w.b.submitted[k].frame), now)) else w
      case StrangerToA(source, destination, data, now) =>
        if source == B then w else w.(a := Receive(w.a, source, destination, data, now))
      case StrangerToB(source, destination, data, now) =>
        if source == A then w else w.(b := Receive(w.b, source, destination, data, now))
    }

    lemma NextInv(w: World, m: Move)
      requires Inv(w.a) && Inv(w.b)
      ensures Inv(Next(w, m).a) && Inv(Next(w, m).b)
    {
      hide Inv, Act, Receive, Encode;
      match m
      case MoveA(action) => ActInv(w.a, action);
      case MoveB(action) => ActInv(w.b, action);
      case DeliverToB(k, now) =>
        if k < |w.a.submitted| {
          ReceiveInv(w.b, A, w.a.submitted[k].destination, Encode(w.a.submitted[k].frame), now);
        }
      case DeliverToA(k, now) =>
        if k < |w.b.submitted| {
          ReceiveInv(w.a, B, w.b.submitted[k].destination, Encode(w.b.submitted[k].frame), now);
        }
      case StrangerToA(source, destination, data, now) => ReceiveInv(w.a, source, destination, data, now);
      case StrangerToB(source, destination, data, now) => ReceiveInv(w.b, source, destination, data, now);
    }

    // ---- the relation between the two ends ----

    predicate FromSender(h: Handover) {
      h.source == A && h.reliable
    }

    /** The message handed over is one the sender addressed to `B`, reliably, under this sequence number. */
    ghost predicate Genuine(a: Link, h: Handover) {
      && h.session == a.session
      && exists j :: 0 <= j < |a.starts| && IsMessage(a.starts[j], h)
    }

    predicate IsMessage(start: Start, h: Handover) {
      && start.sequence == h.sequence
      && start.request.destination == B && start.request.options.delivery == Reliable
      && start.request.messageId == h.messageId && start.request.payload == h.payload
    }

    /** Reliable messages from the sender are genuine and come in strictly increasing sequence. */
    ghost predicate InOrder(a: Link, b: Link) {
      && (forall i :: 0 <= i < |b.handovers| && FromSender(b.handovers[i]) ==> Genuine(a, b.handovers[i]))
      && (forall i, j :: 0 <= i < j < |b.handovers| && FromSender(b.handovers[i]) && FromSender(b.handovers[j]) ==>
            b.handovers[i].sequence < b.handovers[j].sequence)
    }

    /** The receiver's peer entry remembers the newest of them. */
    ghost predicate Remembered(a: Link, b: Link) {
      if A in b.peers && b.peers[A].hasRx then
        && b.peers[A].lastSession == a.session
        && forall i :: 0 <= i < |b.handovers| && FromSender(b.handovers[i]) ==>
             b.handovers[i].sequence <= b.peers[A].lastSequence
      else forall i :: 0 <= i < |b.handovers| ==> !FromSender(b.handovers[i])
    }

    /** What the sender reports acknowledged has been handed over. */
    ghost predicate AcksTrue(a: Link, b: Link) {
      forall i :: 0 <= i < |a.finished| && a.finished[i].result == Acknowledged
                  && a.finished[i].request.destination == B ==>
                    HandedOver(b.handovers, A, a.session, a.finished[i].sequence)
    }

    ghost predicate Linked(w: World) {
      && Inv(w.a) && Inv(w.b)
      && InOrder(w.a, w.b)
      && Remembered(w.a, w.b)
      && AcksTrue(w.a, w.b)
    }

    // ---- the sender's side of a step ----

    /** What matters of the sender for the relation only grows, and nothing new is reported acknowledged by `B`. */
    ghost predicate SenderGrows(a: Link, a': Link) {
      && a'.session == a.session
      && a.starts <= a'.starts
      && a.finished <= a'.finished
      && forall i :: |a.finished| <= i < |a'.finished| ==>
           a'.finished[i].result != Acknowledged || a'.finished[i].request.destination != B
    }

    lemma SenderGrowsKeeps(a: Link, a': Link, b: Link)
      requires SenderGrows(a, a') && InOrder(a, b) && Remembered(a, b) && AcksTrue(a, b)
      ensures InOrder(a', b) && Remembered(a', b) && AcksTrue(a', b)
    {
      forall i | 0 <= i < |b.handovers| && FromSender(b.handovers[i])
        ensures Genuine(a', b.handovers[i])
      {
        var j :| 0 <= j < |a.starts| && IsMessage(a.starts[j], b.handovers[i]);
        assert a'.starts[j] == a.starts[j];
      }
      forall i | 0 <= i < |a'.finished| && a'.finished[i].result == Acknowledged
                 && a'.finished[i].request.destination == B
        ensures HandedOver(b.handovers, A, a'.session, a'.finished[i].sequence)
      {
        assert a'.finished[i] == a.finished[i];
      }
    }

    ghost predicate OwnStep(a: Link, a': Link) {
      SenderGrows(a, a') && a'.handovers == a.handovers && a'.peers == a.peers
    }

    lemma SubmitOrFinishGrows(a: Link, retry: bool, io: Io)
      requires a.pending.Some?
      ensures OwnStep(a, SubmitOrFinish(a, retry, io))
    {
    }

    lemma TakeNextGrows(a: Link, io: Io)
      ensures OwnStep(a, TakeNext(a, io))
    {
      if a.pending == None && a.txQueue != [] {
        var r := a.txQueue[0];
        SubmitOrFinishGrows(Begin(Popped(a), r), false, io);
        hide SubmitOrFinish;
      }
    }

    lemma ProcessTimeoutGrows(a: Link, io: Io)
      ensures OwnStep(a, ProcessTimeout(a, io))
    {
      if a.pending.Some? {
        SubmitOrFinishGrows(a.(pending := Some(a.pending.value.(waitingAck := false))), true, io);
        hide SubmitOrFinish;
      }
    }

    lemma ProcessMacResultGrows(a: Link, destination: Mac, success: bool, now: Tick)
      ensures OwnStep(a, ProcessMacResult(a, destination, success, now))
    {
    }

    lemma SmallStepsGrow(a: Link)
      ensures OwnStep(a, DropStale(a)) && OwnStep(a, Cancel(a)) && OwnStep(a, Deactivate(a)) && OwnStep(a, Activate(a))
    {
    }

    lemma SendGrows(a: Link, destination: Mac, messageId: U16, payload: seq<Byte>, options: SendOptions)
      ensures OwnStep(a, Send(a, destination, messageId, payload, options))
    {
      hide RequestFor;
    }

    lemma AckGrows(a: Link, driverTakes: bool)
      ensures OwnStep(a, SubmitNextAck(a, driverTakes))
    {
    }

    lemma ActGrows(a: Link, action: Action)
      requires Inv(a)
      ensures OwnStep(a, Act(a, action))
    {
      hide Inv, OwnStep, TakeNext, ProcessTimeout, ProcessMacResult, DropStale, Cancel, Deactivate, Activate, Send,
        SubmitNextAck;
      match action
      case ActSend(destination, messageId, payload, options) => SendGrows(a, destination, messageId, payload, options);
      case ActTake(io) => TakeNextGrows(a, io);
      case ActSubmitAck(driverTakes) => AckGrows(a, driverTakes);
      case ActTimeout(io) => ProcessTimeoutGrows(a, io);
      case ActMacResult(success, now) =>
        if a.flight.Some? {
          var destination := match a.flight.value case DataFlight(_, d) => d case AckFlight(ack) => ack.destination;
          ProcessMacResultGrows(a, destination, success, now);
        } else {
          StandingStill(a);
        }
      case _ => SmallStepsGrow(a);
    }

    lemma StandingStill(a: Link)
      ensures OwnStep(a, a)
    {
    }

    /** Receiving anything that is not an ACK from `B`. */
    lemma ReceiveGrows(a: Link, source: Mac, destination: Mac, data: seq<Byte>, now: Tick)
      requires source != B || (Decode(data).Some? ==> !Decode(data).value.IsAck())
      ensures SenderGrows(a, Receive(a, source, destination, data, now))
    {
      hide Decode;
    }

    // ---- the receiver's side of a step ----

    /** The receiver hands over nothing from the sender and remembers the same of it. */
    ghost predicate ReceiverKeeps(b: Link, b': Link) {
      && b.handovers <= b'.handovers
      && (forall i :: |b.handovers| <= i < |b'.handovers| ==> !FromSender(b'.handovers[i]))
      && (A in b'.peers <==> A in b.peers)
      && (A in b.peers ==>
            && b'.peers[A].hasRx == b.peers[A].hasRx
            && b'.peers[A].lastSession == b.peers[A].lastSession
            && b'.peers[A].lastSequence == b.peers[A].lastSequence)
    }

    lemma StillHandedOver(handovers: seq<Handover>, more: seq<Handover>, source: Mac, session: nat, sequence: nat)
      requires handovers <= more && HandedOver(handovers, source, session, sequence)
      ensures HandedOver(more, source, session, sequence)
    {
      var i :| 0 <= i < |handovers| && handovers[i].reliable && handovers[i].source == source
               && handovers[i].session == session && handovers[i].sequence == sequence;
      assert more[i] == handovers[i];
    }

    lemma AcksStayTrue(a: Link, b: Link, b': Link)
      requires b.handovers <= b'.handovers && AcksTrue(a, b)
      ensures AcksTrue(a, b')
    {
      forall i | 0 <= i < |a.finished| && a.finished[i].result == Acknowledged && a.finished[i].request.destination == B
        ensures HandedOver(b'.handovers, A, a.session, a.finished[i].sequence)
      {
        StillHandedOver(b.handovers, b'.handovers, A, a.session, a.finished[i].sequence);
      }
    }

    lemma ReceiverKeepsLinked(a: Link, b: Link, b': Link)
      requires ReceiverKeeps(b, b') && InOrder(a, b) && Remembered(a, b) && AcksTrue(a, b)
      ensures InOrder(a, b') && Remembered(a, b') && AcksTrue(a, b')
    {
      AcksStayTrue(a, b, b');
      forall i | 0 <= i < |b'.handovers| && FromSender(b'.handovers[i])
        ensures i < |b.handovers| && b'.handovers[i] == b.handovers[i]
      {
      }
    }

    lemma ReceiveKeeps(b: Link, source: Mac, destination: Mac, data: seq<Byte>, now: Tick)
      requires source != A || (Decode(data).Some? ==> !Decode(data).value.IsReliable() || Decode(data).value.IsAck())
      ensures ReceiverKeeps(b, Receive(b, source, destination, data, now))
    {
      hide Decode;
    }

    /** The sender's reliable frame at the receiver: taken once, in order, or not at all. */
    lemma FrameAtReceiver(a: Link, b: Link, f: Submission, now: Tick)
      requires InOrder(a, b) && Remembered(a, b) && AcksTrue(a, b)
      requires f.DataFrame? && FrameNumbered(a.session, a.starts, f) && Reaches(f, B)
      requires f.frame.IsReliable() && !f.frame.IsAck()
      ensures
        var b' := ProcessFrame(b, A, f.destination, f.frame, now);
        InOrder(a, b') && Remembered(a, b') && AcksTrue(a, b')
    {
      var b' := ProcessFrame(b, A, f.destination, f.frame, now);
      AcksStayTrue(a, b, b');
      hide AcksTrue, QueueAck;
      if Judge(b, A, f.destination, f.frame) == Take {
        var h := b'.handovers[|b.handovers|];
        assert IsMessage(a.starts[f.start], h);
        assert Genuine(a, h);
      }
    }

    lemma FlagsOf(session: nat, start: Start)
      ensures !FrameOf(session, start).IsAck()
      ensures FrameOf(session, start).IsReliable() <==> start.request.options.delivery == Reliable
      ensures KnownFlags(FrameOf(session, start).flags)
    {
    }

    lemma AckFlags(ack: Ack)
      ensures
        var f := Frame(FLAG_ACK, ACK_MESSAGE_ID, ack.session, ack.sequence, []);
        f.IsAck() && !f.IsReliable() && KnownFlags(f.flags)
    {
    }

    /** What a link submits decodes, when it decodes at all, to the very frame submitted. */
    lemma WireIsTransparent(s: Link, k: nat)
      requires Inv(s) && k < |s.submitted|
      ensures Decode(Encode(s.submitted[k].frame)).Some? ==>
              Decode(Encode(s.submitted[k].frame)).value == s.submitted[k].frame
      ensures s.submitted[k].DataFrame? ==>
                !s.submitted[k].frame.IsAck() && FrameNumbered(s.session, s.starts, s.submitted[k])
      ensures s.submitted[k].AckFrame? ==> s.submitted[k].frame.IsAck() && AckFrameEarned(s.handovers, s.submitted[k])
    {
      var f := s.submitted[k];
      assert FrameNumbered(s.session, s.starts, f) && AckFrameEarned(s.handovers, f);
      if f.DataFrame? {
        FlagsOf(s.session, s.starts[f.start]);
        assert Sendable(s.starts[f.start].request);
      } else {
        AckFlags(f.ack);
      }
      hide Encode, Decode, Inv;
      DecodeOfEncode(f.frame);
    }

    // ---- each move keeps the relation ----

    lemma DeliverToBKeeps(w: World, k: nat, now: Tick)
      requires Linked(w)
      ensures Linked(Next(w, DeliverToB(k, now)))
    {
      hide Inv, Encode, Decode, InOrder, Remembered, AcksTrue, ReceiverKeeps, ProcessFrame, FrameNumbered;
      NextInv(w, DeliverToB(k, now));
      if k < |w.a.submitted| && Reaches(w.a.submitted[k], B) {
        var f := w.a.submitted[k];
        var data := Encode(f.frame);
        WireIsTransparent(w.a, k);
        if f.DataFrame? && f.frame.IsReliable() && Decode(data).Some? {
          FrameAtReceiver(w.a, w.b, f, now);
        } else {
          ReceiveKeeps(w.b, A, f.destination, data, now);
          ReceiverKeepsLinked(w.a, w.b, Receive(w.b, A, f.destination, data, now));
        }
      }
    }

    /** An ACK from the receiver ends the sender's request only if the message was handed over. */
    lemma AckAtSender(a: Link, b: Link, f: Submission, now: Tick)
      requires Inv(a) && InOrder(a, b) && Remembered(a, b) && AcksTrue(a, b)
      requires f.AckFrame? && AckFrameEarned(b.handovers, f) && Reaches(f, A)
      ensures
        var a' := ProcessAck(a, B, f.frame, now);
        InOrder(a', b) && Remembered(a', b) && AcksTrue(a', b)
    {
      hide Inv;
      var a' := ProcessAck(a, B, f.frame, now);
      assert a'.starts == a.starts && a'.session == a.session;
      assert InOrder(a', b) && Remembered(a', b);
      forall i | 0 <= i < |a'.finished| && a'.finished[i].result == Acknowledged
                 && a'.finished[i].request.destination == B
        ensures HandedOver(b.handovers, A, a'.session, a'.finished[i].sequence)
      {
        if i < |a.finished| { assert a'.finished[i] == a.finished[i]; }
      }
    }

    lemma DeliverToAKeeps(w: World, k: nat, now: Tick)
      requires Linked(w)
      ensures Linked(Next(w, DeliverToA(k, now)))
    {
      hide Inv, Encode, Decode, InOrder, Remembered, AcksTrue, SenderGrows, ProcessAck, AckFrameEarned;
      NextInv(w, DeliverToA(k, now));
      if k < |w.b.submitted| && Reaches(w.b.submitted[k], A) {
        var f := w.b.submitted[k];
        var data := Encode(f.frame);
        WireIsTransparent(w.b, k);
        if f.AckFrame? && Decode(data).Some? {
          AckAtSender(w.a, w.b, f, now);
        } else {
          ReceiveGrows(w.a, B, f.destination, data, now);
          SenderGrowsKeeps(w.a, Receive(w.a, B, f.destination, data, now), w.b);
        }
      }
    }

    lemma NextKeeps(w: World, m: Move)
      requires Linked(w)
      ensures Linked(Next(w, m))
    {
      NextInv(w, m);
      hide Inv, Receive, InOrder, Remembered, AcksTrue, SenderGrows, ReceiverKeeps, Act, Decode, Encode;
      match m
      case MoveA(action) =>
        ActGrows(w.a, action);
        SenderGrowsKeeps(w.a, Act(w.a, action), w.b);
      case MoveB(action) =>
        ActGrows(w.b, action);
        SameReceiver(w.b, Act(w.b, action));
        ReceiverKeepsLinked(w.a, w.b, Act(w.b, action));
      case DeliverToB(k, now) => DeliverToBKeeps(w, k, now);
      case DeliverToA(k, now) => DeliverToAKeeps(w, k, now);
      case StrangerToA(source, destination, data, now) =>
        if source != B {
          ReceiveGrows(w.a, source, destination, data, now);
          SenderGrowsKeeps(w.a, Receive(w.a, source, destination, data, now), w.b);
        }
      case StrangerToB(source, destination, data, now) =>
        if source != A {
          ReceiveKeeps(w.b, source, destination, data, now);
          ReceiverKeepsLinked(w.a, w.b, Receive(w.b, source, destination, data, now));
        }
    }

    lemma SameReceiver(b: Link, b': Link)
      requires b'.handovers == b.handovers && b'.peers == b.peers
      ensures ReceiverKeeps(b, b')
    {
    }

    // ---- over whole runs ----

    ghost predicate IsWorldRun(worlds: seq<World>, moves: seq<Move>) {
      && |worlds| == |moves| + 1
      && Fresh(worlds[0].a) && Fresh(worlds[0].b)
      && forall i :: 0 <= i < |moves| ==> worlds[i + 1] == Next(worlds[i], moves[i])
    }

    lemma {:induction false} RunLinked(worlds: seq<World>, moves: seq<Move>)
      requires IsWorldRun(worlds, moves)
      ensures Linked(worlds[|moves|])
    {
      if moves == [] {
        FreshInv(worlds[0].a);
        FreshInv(worlds[0].b);
      } else {
        var n := |moves| - 1;
        hide Linked, Inv, Next, Fresh;
        assert worlds[..n + 1][0] == worlds[0];
        RunLinked(worlds[..n + 1], moves[..n]);
        assert worlds[..n + 1][n] == worlds[n];
        NextKeeps(worlds[n], moves[n]);
      }
    }

    /** Each reliable message handed over from the sender is one the sender sent to `B`, unchanged; no request is handed
        over twice; messages come in the order in which `send` accepted them; and every request reported acknowledged
        was handed over. */
    ghost predicate Delivered(a: Link, b: Link) {
      && (forall i :: 0 <= i < |b.handovers| && FromSender(b.handovers[i]) ==>
            && 1 <= b.handovers[i].sequence <= |a.starts|
            && IsMessage(a.starts[b.handovers[i].sequence - 1], b.handovers[i]))
      && (forall i, j :: 0 <= i < j < |b.handovers| && FromSender(b.handovers[i]) && FromSender(b.handovers[j]) ==>
            && 1 <= b.handovers[i].sequence < b.handovers[j].sequence <= |a.starts|
            && a.starts[b.handovers[i].sequence - 1].request.id < a.starts[b.handovers[j].sequence - 1].request.id)
      && (forall i :: 0 <= i < |a.finished| && a.finished[i].result == Acknowledged
                      && a.finished[i].request.destination == B ==>
            && 1 <= a.finished[i].sequence <= |a.starts|
            && a.starts[a.finished[i].sequence - 1].request == a.finished[i].request
            && HandedOver(b.handovers, A, a.session, a.finished[i].sequence))
    }

    /** Reliable delivery. In every state of every run in which at most 2^32 - 1 requests got a sequence number: each
        reliable message the receiver hands over from the sender is one the sender sent to it, unchanged; no request is
        handed over twice; messages come in the order in which `send` accepted them; and every request the sender
        reports acknowledged was handed over. */
    lemma ReliableDelivery(worlds: seq<World>, moves: seq<Move>)
      requires IsWorldRun(worlds, moves)
      requires |worlds[|moves|].a.starts| <= TWO_32 - 1
      ensures Delivered(worlds[|moves|].a, worlds[|moves|].b)
    {
      RunLinked(worlds, moves);
      hide IsWorldRun;
      LinkedMeansDelivered(worlds[|moves|]);
    }

    lemma LinkedMeansDelivered(w: World)
      requires Linked(w) && |w.a.starts| <= TWO_32 - 1
      ensures Delivered(w.a, w.b)
    {
      StartsByNumber(w.a);
      hide Inv;
      OrderMeansDelivered(w.a, w.b);
    }

    lemma OrderMeansDelivered(a: Link, b: Link)
      requires InOrder(a, b) && AcksTrue(a, b) && NumberedByPosition(a)
      ensures Delivered(a, b)
    {
      hide HandedOver, IsMessage, Genuine;
      forall i | 0 <= i < |b.handovers| && FromSender(b.handovers[i])
        ensures 1 <= b.handovers[i].sequence <= |a.starts|
        ensures IsMessage(a.starts[b.handovers[i].sequence - 1], b.handovers[i])
      {
        MessageByNumber(a, b.handovers[i]);
      }
    }

    lemma MessageByNumber(a: Link, h: Handover)
      requires NumberedByPosition(a) && Genuine(a, h)
      ensures 1 <= h.sequence <= |a.starts| && IsMessage(a.starts[h.sequence - 1], h)
    {
    }
  }

  /** A sequence number is one more than the position of its request among all that got one, positions follow the
      order of acceptance, and an acknowledged request is found at its number. */
  ghost predicate NumberedByPosition(a: Link) {
    && (forall j :: 0 <= j < |a.starts| ==> a.starts[j].sequence == j + 1)
    && (forall i, j :: 0 <= i < j < |a.starts| ==> a.starts[i].request.id < a.starts[j].request.id)
    && (forall i :: 0 <= i < |a.finished| && a.finished[i].result == Acknowledged ==>
          && 1 <= a.finished[i].sequence <= |a.starts|
          && a.starts[a.finished[i].sequence - 1].request == a.finished[i].request)
  }

  /** This holds until the 32-bit numbers wrap. */
  lemma StartsByNumber(a: Link)
    requires Inv(a) && |a.starts| <= TWO_32 - 1
    ensures NumberedByPosition(a)
  {
    hide Conserved, SlotIsTrue, AttemptsBounded, CancellationKept, AcksEarned, FrameNumbered;
    forall j | 0 <= j < |a.starts|
      ensures a.starts[j].sequence == j + 1
    {
      SmallMod(j, TWO_32 - 1);
    }
    forall i | 0 <= i < |a.finished| && a.finished[i].result == Acknowledged
      ensures 1 <= a.finished[i].sequence <= |a.starts|
      ensures a.starts[a.finished[i].sequence - 1].request == a.finished[i].request
    {
      assert Start(a.finished[i].request, a.finished[i].sequence) in a.starts;
    }
  }

  lemma SmallMod(j: nat, m: nat)
    requires j < m
    ensures j % m == j
  {
  }
}
