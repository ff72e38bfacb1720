/** The link task as the program has it - file-level state changed in place by API calls and event handlers - proved
    to do exactly the steps of `LinkSteps`. */
module LinkTask {
  import opened Basics
  import opened Bytes
  import opened LinkCodec
  import opened LinkSteps
  import opened LinkInvariants
  import opened LinkTheorems

  const RX_QUEUE_LENGTH: nat := 16

  datatype RxEvent = RxEvent(source: Mac, destination: Mac, data: seq<Byte>)
  datatype MacResult = MacResult(destination: Mac, success: bool)

  class Task {
    var active: bool
    var session: nat
    var nextSequence: nat
    var generation: nat
    var defaults: SendOptions
    var rxQueue: seq<RxEvent>
    var txQueue: seq<Request>
    var macQueue: seq<MacResult>
    var ackQueue: seq<Ack>
    var pending: Option<Transmission>
    var driverOwner: Owner
    var peers: map<Mac, Peer>
    var handlers: set<nat>
    // the record of everything observable; the program reads none of it
    var cancels: nat
    var accepted: nat
    var flight: Option<Flight>
    var starts: seq<Start>
    var finished: seq<Outcome>
    var submitted: seq<Submission>
    var handovers: seq<Handover>
    var samples: seq<RttSample>

    /** The value the step functions work on. */
    ghost function State(): Link
      reads this
    {
      Link(active, session, nextSequence, generation, defaults, txQueue, ackQueue, pending, driverOwner, peers,
           handlers, cancels, accepted, flight, starts, finished, submitted, handovers, samples)
    }

    /** `init`: a new session, everything else empty. */
    constructor (sessionId: nat)
      requires sessionId < TWO_32
      ensures Fresh(State()) && !active && session == if sessionId == 0 then 1 else sessionId
    {
      active := false;
      session := if sessionId == 0 then 1 else sessionId;
      nextSequence, generation := 1, 1;
      defaults := SendOptions(Reliable, Adaptive, DEFAULT_ACK_TIMEOUT_MS, 5, false);
      rxQueue, txQueue, macQueue, ackQueue := [], [], [], [];
      pending, driverOwner, peers, handlers := None, NoOwner, map[], {};
      cancels, accepted, flight := 0, 0, None;
      starts, finished, submitted, handovers, samples := [], [], [], [], [];
    }

    // ---- the API ----

    method Send(destination: Mac, messageId: U16, payload: seq<Byte>, options: SendOptions) returns (status: SendStatus)
      modifies this
      ensures State() == LinkSteps.Send(old(State()), destination, messageId, payload, options)
      ensures status == SendStatusOf(old(State()), destination, messageId, payload, options)
    {
      if !active { return InvalidState; }
      if |payload| > MAX_PAYLOAD_SIZE || messageId == ACK_MESSAGE_ID { return InvalidArgument; }
      var effective := options;
      if destination == BROADCAST {
        effective := effective.(delivery := BestEffort, allowPlaintext := true);
      } else {
        if destination !in peers { return NotFound; }
        if !peers[destination].encrypted && !effective.allowPlaintext { return InvalidState; }
      }
      if effective.maxAttempts == 0 { effective := effective.(maxAttempts := defaults.maxAttempts); }
      if |txQueue| >= TX_QUEUE_LENGTH { return NoMemory; }
      txQueue := txQueue + [Request(accepted, generation, cancels, destination, messageId, payload, effective)];
      accepted := accepted + 1;
      return Accepted;
    }

    method CancelTransmissions()
      modifies this`generation, this`cancels
      ensures State() == Cancel(old(State()))
    {
      generation := (generation + 1) % TWO_32;
      cancels := cancels + 1;
    }

    method SetPeerAckTimeout(address: Mac, ms: nat) returns (status: SendStatus)
      modifies this`peers
      ensures State() == LinkSteps.SetPeerAckTimeout(old(State()), address, ms)
      ensures status == if !(MIN_ACK_TIMEOUT_MS <= ms <= MAX_ACK_TIMEOUT_MS) then InvalidArgument
                        else if address !in old(peers) then NotFound else Accepted
    {
      if ms < MIN_ACK_TIMEOUT_MS || ms > MAX_ACK_TIMEOUT_MS { return InvalidArgument; }
      if address !in peers { return NotFound; }
      peers := peers[address := peers[address].(metrics := peers[address].metrics.(ackTimeout := ms))];
      return Accepted;
    }

    /** `add_peer`. */
    method AddPeer(address: Mac, channel: nat, encrypted: bool, newKey: bool, driverTakes: bool)
        returns (status: SendStatus)
      modifies this`peers
      ensures State() == LinkSteps.AddPeer(old(State()), address, channel, encrypted, newKey, driverTakes)
      ensures status == PeerStatusOf(old(State()), address, channel, driverTakes)
      ensures status == Accepted ==> address in peers && peers[address].encrypted == encrypted
      ensures old(Fresh(State())) ==> Fresh(State())
      ensures old(Inv(State())) ==> Inv(State())
    {
      hide Fresh, Inv;
      SetUpIsFreshHere(address, channel, encrypted, newKey, driverTakes);
      if address == BROADCAST || channel > 14 { return InvalidArgument; }
      if address !in peers && |peers| >= MAX_PEERS { return NoMemory; }
      if active && !driverTakes { return DriverError; }
      var entry := if address in peers then peers[address] else Peer(encrypted, NO_METRICS, false, 0, 0);
      var changedKey := address in peers && (newKey || encrypted != entry.encrypted);
      if changedKey { entry := entry.(hasRx := false); }
      if entry.metrics.ackTimeout == 0 {
        entry := entry.(metrics := entry.metrics.(ackTimeout := DEFAULT_ACK_TIMEOUT_MS));
      }
      peers := peers[address := entry.(encrypted := encrypted)];
      return Accepted;
    }

    lemma SetUpIsFreshHere(address: Mac, channel: nat, encrypted: bool, newKey: bool, driverTakes: bool)
      ensures
        var s' := LinkSteps.AddPeer(State(), address, channel, encrypted, newKey, driverTakes);
        (Fresh(State()) ==> Fresh(s')) && (Inv(State()) ==> Inv(s'))
    {
      hide Fresh, Inv, LinkSteps.AddPeer;
      if Fresh(State()) { SetUpIsFresh(State(), address, channel, encrypted, newKey, driverTakes, 1); }
      if Inv(State()) { PeersInv(State(), address, channel, encrypted, newKey, driverTakes, 1); }
    }

    /** `register_handler`. */
    method RegisterHandler(messageId: U16)
      modifies this`handlers
      ensures State() == LinkSteps.RegisterHandler(old(State()), messageId)
    {
      if messageId == ACK_MESSAGE_ID || (messageId !in handlers && |handlers| >= MAX_HANDLERS) { return; }
      handlers := handlers + {messageId};
    }

    /** `activate`, once the driver is up: from now on requests are accepted. */
    method Activate()
      modifies this`active
      ensures State() == LinkSteps.Activate(old(State())) && active
    {
      active := true;
    }

    /** `deactivate`. */
    method Deactivate()
      modifies this
      ensures State() == LinkSteps.Deactivate(old(State()))
      ensures old(active) ==> rxQueue == [] && macQueue == []
    {
      if !active { return; }
      active := false;
      CancelTransmissions();
      ResetTransmitState();
    }

    /** `reset_transmit_state`. */
    method ResetTransmitState()
      modifies this`driverOwner, this`flight, this`rxQueue, this`macQueue, this`ackQueue
      ensures State() == old(State()).(owner := NoOwner, flight := None, ackQueue := [])
      ensures rxQueue == [] && macQueue == []
    {
      ClearQueues();
      driverOwner, flight := NoOwner, None;
    }

    method ClearQueues()
      modifies this`rxQueue, this`macQueue, this`ackQueue
      ensures State() == old(State()).(ackQueue := []) && rxQueue == [] && macQueue == []
    {
      rxQueue, macQueue, ackQueue := [], [], [];
    }

    // ---- the outstanding request ----

    method FinishPending(result: SendResult)
      requires pending.Some?
      modifies this`pending, this`finished
      ensures State() == Finish(old(State()), result)
    {
      var t := pending.value;
      pending := None;
      finished := finished + [Outcome(t.request, result, t.sequence, t.attempts, cancels)];
    }

    method CancelPendingIfStale() returns (cancelled: bool)
      modifies this`pending, this`finished
      ensures cancelled <==> Stale(old(State()))
      ensures State() == DropStale(old(State()))
    {
      if pending.Some? && pending.value.request.generation != generation {
        FinishPending(Cancelled);
        return true;
      }
      return false;
    }

    /** `submit_pending`. */
    method SubmitPending(retry: bool, io: Io) returns (ok: bool)
      requires pending.Some?
      modifies this`generation, this`cancels, this`submitted, this`flight, this`pending, this`driverOwner
      ensures !ok ==> pending.Some?
      ensures
        var before := if io.cancelled then Cancel(old(State())) else old(State());
        && before.pending.Some?
        && ok == (CanSubmit(before) && io.driverTakes)
        && State() == if !CanSubmit(before) then before
                      else if ok then Submit(Cancels(before, io.late), before.cancels, retry, io.now)
                      else Cancels(before, io.late)
    {
      hide Submit;
      if io.cancelled { CancelTransmissions(); }
      if driverOwner != NoOwner { return false; }
      if pending.value.request.generation != generation { return false; }
      var checked := cancels;
      OthersCancel(io.late);
      if !io.driverTakes { return false; }
      HandToDriver(checked, retry, io.now);
      return true;
    }

    /** Other tasks and interrupts cancel some times. */
    method OthersCancel(n: nat)
      modifies this`generation, this`cancels
      ensures State() == Cancels(old(State()), n)
    {
      generation := (generation + n) % TWO_32;
      cancels := cancels + n;
    }

    /** `esp_now_send` took the frame. */
    method HandToDriver(checked: nat, retry: bool, now: Tick)
      requires pending.Some?
      modifies this`submitted, this`flight, this`pending, this`driverOwner
      ensures State() == Submit(old(State()), checked, retry, now)
    {
      NoteSubmission(checked);
      MarkSubmitted(retry, now);
    }

    /** The record of the submission. */
    method NoteSubmission(checked: nat)
      requires pending.Some?
      modifies this`submitted, this`flight
      ensures
        var n, t := old(State()), pending.value;
        State() == n.(flight := Some(DataFlight(t.request.id, t.request.destination)),
                      submitted := n.submitted
                        + [DataFrame(t.request.destination, t.frame, t.request, t.start, checked, n.cancels)])
    {
      var t := pending.value;
      submitted := submitted + [DataFrame(t.request.destination, t.frame, t.request, t.start, checked, cancels)];
      flight := Some(DataFlight(t.request.id, t.request.destination));
    }

    method MarkSubmitted(retry: bool, now: Tick)
      requires pending.Some?
      modifies this`pending, this`driverOwner
      ensures
        var n, t := old(State()), old(pending).value;
        State() == n.(owner := OwnerPending,
                      pending := Some(t.(retransmitted := t.retransmitted || retry, attempts := t.attempts + 1,
                                         waitingAck := false,
                                         firstSendTick := if t.firstSendTick == 0 then now else t.firstSendTick)))
    {
      var t := pending.value;
      if retry { t := t.(retransmitted := true); }
      t := t.(attempts := t.attempts + 1);
      if t.firstSendTick == 0 { t := t.(firstSendTick := now); }
      pending := Some(t.(waitingAck := false));
      driverOwner := OwnerPending;
    }

    /** Submit, and on failure finish the request as cancelled or as failed. */
    method SubmitOrGiveUp(retry: bool, io: Io)
      requires pending.Some?
      modifies this`generation, this`cancels, this`submitted, this`flight, this`pending, this`driverOwner, this`finished
      ensures State() == SubmitOrFinish(old(State()), retry, io)
    {
      hide Submit;
      var ok := SubmitPending(retry, io);
      if !ok {
        var cancelled := CancelPendingIfStale();
        if !cancelled { FinishPending(SubmitFailed); }
      }
    }

    method BeginTransmission(request: Request)
      modifies this`pending, this`starts, this`nextSequence
      ensures State() == Begin(old(State()), request)
    {
      var start := Start(request, nextSequence);
      pending := Some(Transmission(request, nextSequence, FrameOf(session, start), |starts|, 0, false, false, 0, 0));
      starts := starts + [start];
      nextSequence := (nextSequence + 1) % TWO_32;
      if nextSequence == 0 { nextSequence := 1; }
    }

    /** `start_send`. */
    method StartSend(request: Request, io: Io)
      modifies this`generation, this`cancels, this`submitted, this`flight, this`pending, this`driverOwner
      modifies this`starts, this`nextSequence, this`finished
      ensures State() == LinkSteps.StartSend(old(State()), request, io)
    {
      if request.generation != generation {
        finished := finished + [Outcome(request, Cancelled, 0, 0, cancels)];
        return;
      }
      if pending.Some? || !active {
        finished := finished + [Outcome(request, SubmitFailed, 0, 0, cancels)];
        return;
      }
      hide SubmitOrFinish;
      BeginTransmission(request);
      SubmitOrGiveUp(false, io);
    }

    // ---- reception ----

    method QueueAck(destination: Mac, sessionId: nat, sequence: nat)
      modifies this`ackQueue
      ensures State() == LinkSteps.QueueAck(old(State()), Ack(destination, sessionId, sequence))
    {
      if |ackQueue| < ACK_QUEUE_LENGTH { ackQueue := ackQueue + [Ack(destination, sessionId, sequence)]; }
    }

    /** `submit_next_ack`, behind the check of `link_task`. */
    method SubmitNextAck(driverTakes: bool)
      modifies this`ackQueue, this`submitted, this`flight, this`driverOwner
      ensures State() == LinkSteps.SubmitNextAck(old(State()), driverTakes)
    {
      if !active || driverOwner != NoOwner || ackQueue == [] { return; }
      var ack := ackQueue[0];
      ackQueue := ackQueue[1..];
      if driverTakes { HandAckToDriver(ack); }
    }

    method HandAckToDriver(ack: Ack)
      modifies this`submitted, this`flight, this`driverOwner
      ensures
        var n := old(State());
        State() == n.(owner := OwnerAck, flight := Some(AckFlight(ack)),
                      submitted := n.submitted
                        + [AckFrame(ack.destination,
                                    Frame(FLAG_ACK, ACK_MESSAGE_ID, ack.session, ack.sequence, []), ack)])
    {
      submitted := submitted
        + [AckFrame(ack.destination, Frame(FLAG_ACK, ACK_MESSAGE_ID, ack.session, ack.sequence, []), ack)];
      flight := Some(AckFlight(ack));
      driverOwner := OwnerAck;
    }

    method UpdateRtt(source: Mac, now: Tick)
      requires pending.Some?
      modifies this`peers, this`samples
      ensures State() == LinkSteps.UpdateRtt(old(State()), source, now)
    {
      if source !in peers || pending.value.retransmitted { return; }
      var rtt := Elapsed(now, pending.value.firstSendTick);
      if rtt < 1 { rtt := 1; }
      var m := peers[source].metrics;
      var smoothed := if m.smoothedRtt == 0 then rtt % 0x1_0000 else (7 * m.smoothedRtt + rtt) / 8 % 0x1_0000;
      var sampleCount, recentCount := m.sampleCount, m.recentCount;
      if recentCount < 3 { recentCount := recentCount + 1; }
      if sampleCount < 255 { sampleCount := sampleCount + 1; }
      var updated: Metrics :=
        RawMetrics(rtt % 0x1_0000, smoothed, Clamp(smoothed + 5, MIN_ACK_TIMEOUT_MS, MAX_ACK_TIMEOUT_MS),
                   m.recent[m.recentNext := rtt % 0x1_0000], sampleCount, recentCount, (m.recentNext + 1) % 3);
      assert updated == Sample(m, rtt);
      StoreSample(source, rtt, updated);
    }

    method StoreSample(source: Mac, rtt: nat, metrics: Metrics)
      requires pending.Some? && source in peers
      modifies this`peers, this`samples
      ensures
        var n := old(State());
        State() == n.(peers := n.peers[source := n.peers[source].(metrics := metrics)],
                      samples := n.samples + [RttSample(source, pending.value.request.id, rtt)])
    {
      peers := peers[source := peers[source].(metrics := metrics)];
      samples := samples + [RttSample(source, pending.value.request.id, rtt)];
    }

    /** `process_ack`. */
    method ProcessAck(source: Mac, frame: Frame, now: Tick)
      modifies this`pending, this`finished, this`peers, this`samples
      ensures State() == LinkSteps.ProcessAck(old(State()), source, frame, now)
    {
      var _ := CancelPendingIfStale();
      if pending == None { return; }
      var t := pending.value;
      if t.request.options.delivery != Reliable || t.request.destination != source
         || t.sequence != frame.correlation || session != frame.sequence { return; }
      if !t.waitingAck && driverOwner != OwnerPending { return; }
      UpdateRtt(source, now);
      FinishPending(Acknowledged);
    }

    /** `process_received_event`. */
    method ProcessReceivedEvent(event: RxEvent, now: Tick)
      modifies this`pending, this`finished, this`peers, this`samples, this`ackQueue, this`handovers
      ensures State() == Receive(old(State()), event.source, event.destination, event.data, now)
    {
      hide Decode, LinkSteps.QueueAck, HandOver, Remember, LinkSteps.ProcessAck;
      var decoded := DecodeFrame(event.data);
      if decoded == None { return; }
      var frame := decoded.value;
      if frame.IsAck() {
        ProcessAck(event.source, frame, now);
        return;
      }
      var reliable := frame.IsReliable();
      if reliable {
        if event.destination == BROADCAST || event.source !in peers { return; }
        var peer := peers[event.source];
        if peer.hasRx && peer.lastSession == frame.correlation {
          if frame.sequence == peer.lastSequence {
            QueueAck(event.source, frame.correlation, frame.sequence);
            return;
          }
          if frame.sequence < peer.lastSequence { return; }
        }
        RememberNumber(event.source, frame);
        QueueAck(event.source, frame.correlation, frame.sequence);
      }
      HandToHandler(event.source, frame);
    }

    method RememberNumber(source: Mac, frame: Frame)
      requires source in peers
      modifies this`peers
      ensures State() == Remember(old(State()), source, frame)
    {
      peers := peers[source := peers[source].(hasRx := true, lastSession := frame.correlation,
                                              lastSequence := frame.sequence)];
    }

    /** Find the handler and call it. */
    method HandToHandler(source: Mac, frame: Frame)
      modifies this`handovers
      ensures State() == HandOver(old(State()), source, frame)
    {
      handovers := handovers
        + [Handover(source, frame.correlation, frame.sequence, frame.messageId, frame.payload, frame.IsReliable(),
                    frame.messageId in handlers)];
    }

    // ---- completion and timeout ----

    /** `process_mac_result`. */
    method ProcessMacResult(event: MacResult, now: Tick)
      modifies this`pending, this`finished, this`driverOwner, this`flight
      ensures State() == LinkSteps.ProcessMacResult(old(State()), event.destination, event.success, now)
    {
      var _ := CancelPendingIfStale();
      if driverOwner == NoOwner { return; }
      var owner := driverOwner;
      FreeSlot();
      if owner == OwnerAck || pending == None || pending.value.request.destination != event.destination { return; }
      hide TimeoutFor;
      Settle(event.success, now);
    }

    method FreeSlot()
      modifies this`driverOwner, this`flight
      ensures State() == old(State()).(owner := NoOwner, flight := None)
    {
      driverOwner, flight := NoOwner, None;
    }

    /** The outstanding request's frame is through, or not. */
    method Settle(success: bool, now: Tick)
      requires pending.Some?
      modifies this`pending, this`finished
      ensures
        var n, t := old(State()), old(pending).value;
        State() == if t.request.options.delivery == BestEffort then Finish(n, if success then Sent else MacFailed)
                   else n.(pending := Some(t.(waitingAck := true,
                                              deadlineTick := After(now, TimeoutFor(n, t.request)))))
    {
      var t := pending.value;
      if !success {
        if t.request.options.delivery == BestEffort {
          FinishPending(MacFailed);
          return;
        }
      } else if t.request.options.delivery == BestEffort {
        FinishPending(Sent);
        return;
      }
      var timeout := TimeoutOf(t.request);
      pending := Some(t.(waitingAck := true, deadlineTick := After(now, timeout)));
    }

    /** `timeout_for`. */
    method TimeoutOf(request: Request) returns (ms: nat)
      ensures ms == TimeoutFor(State(), request)
    {
      if request.options.ackTimeoutMs != 0 { return request.options.ackTimeoutMs; }
      if request.options.timeoutMode == Adaptive && request.destination in peers
         && peers[request.destination].metrics.ackTimeout != 0 {
        return peers[request.destination].metrics.ackTimeout;
      }
      return defaults.ackTimeoutMs;
    }

    /** `process_timeout`. */
    method ProcessTimeout(io: Io)
      modifies this`generation, this`cancels, this`submitted, this`flight, this`pending, this`driverOwner, this`finished
      ensures State() == LinkSteps.ProcessTimeout(old(State()), io)
    {
      var stale := CancelPendingIfStale();
      if stale { return; }
      if pending == None || !pending.value.waitingAck || driverOwner != NoOwner { return; }
      if TickBefore(io.now, pending.value.deadlineTick) { return; }
      pending := Some(pending.value.(waitingAck := false));
      if pending.value.attempts >= pending.value.request.options.maxAttempts {
        FinishPending(NoAck);
        return;
      }
      hide SubmitOrFinish;
      SubmitOrGiveUp(true, io);
    }

    // ---- one round of `link_task` ----

    method PopRx() returns (event: RxEvent)
      requires rxQueue != []
      modifies this`rxQueue
      ensures event == old(rxQueue)[0] && rxQueue == old(rxQueue)[1..] && State() == old(State())
    {
      event, rxQueue := rxQueue[0], rxQueue[1..];
    }

    method DrainRx(now: Tick)
      modifies this`rxQueue, this`pending, this`finished, this`peers, this`samples, this`ackQueue, this`handovers
      ensures rxQueue == old(rxQueue)[|Taken(old(rxQueue))|..]
      ensures State() == Run(old(State()), Received(Taken(old(rxQueue)), now))
    {
      hide State, Run, Receive, Received;
      ghost var queue := rxQueue;
      var n := 0;
      NothingRun(State(), queue, [], now);
      while n < RX_QUEUE_LENGTH && rxQueue != []
        invariant n <= |queue| && n <= RX_QUEUE_LENGTH && rxQueue == queue[n..]
        invariant State() == Run(old(State()), Received(queue[..n], now))
        decreases RX_QUEUE_LENGTH - n
      {
        ReceivedNext(old(State()), queue, n, now);
        var event := PopRx();
        ProcessReceivedEvent(event, now);
        n := n + 1;
      }
      assert queue[..n] == Taken(queue);
    }

    method PopMac() returns (event: MacResult)
      requires macQueue != []
      modifies this`macQueue
      ensures event == old(macQueue)[0] && macQueue == old(macQueue)[1..] && State() == old(State())
    {
      event, macQueue := macQueue[0], macQueue[1..];
    }

    method DrainMac(now: Tick)
      modifies this`macQueue, this`pending, this`finished, this`driverOwner, this`flight
      ensures macQueue == []
      ensures State() == Run(old(State()), Completions(old(macQueue), now))
    {
      hide State, Run, LinkSteps.ProcessMacResult, Completions;
      ghost var queue, n := macQueue, 0;
      NothingRun(State(), [], queue, now);
      while macQueue != []
        invariant n <= |queue| && macQueue == queue[n..]
        invariant State() == Run(old(State()), Completions(queue[..n], now))
        decreases |macQueue|
      {
        CompletionsNext(old(State()), queue, n, now);
        var event := PopMac();
        ProcessMacResult(event, now);
        n := n + 1;
      }
      assert queue[..n] == queue;
    }

    /** What the dequeue loop looks at. */
    lemma TakeFields()
      ensures State().pending == pending && State().owner == driverOwner && State().txQueue == txQueue
    {
    }

    /** One turn of the dequeue loop. */
    method TakeOne(io: Io)
      requires pending == None && driverOwner == NoOwner && txQueue != []
      modifies this`txQueue, this`generation, this`cancels, this`submitted, this`flight, this`pending, this`driverOwner,
        this`finished, this`nextSequence, this`starts
      ensures State() == TakeNext(old(State()), io)
    {
      hide LinkSteps.StartSend;
      var request := txQueue[0];
      txQueue := txQueue[1..];
      StartSend(request, io);
    }

    /** The dequeue loop: stale requests are swept out without waiting for the driver. Where it stops early, further
        turns would change nothing. */
    method DrainTx(ios: seq<Io>)
      requires |ios| == TX_QUEUE_LENGTH
      modifies this`txQueue, this`generation, this`cancels, this`submitted, this`flight, this`pending, this`driverOwner,
        this`finished, this`nextSequence, this`starts
      ensures State() == Run(old(State()), Takes(ios))
    {
      hide State, Run, TakeNext, Takes;
      var n := 0;
      NothingTaken(State(), ios);
      while n < TX_QUEUE_LENGTH && pending == None && driverOwner == NoOwner && txQueue != []
        invariant n <= TX_QUEUE_LENGTH
        invariant State() == Run(old(State()), Takes(ios[..n]))
        decreases TX_QUEUE_LENGTH - n
      {
        TakesNext(old(State()), ios, n);
        TakeOne(ios[n]);
        n := n + 1;
      }
      TakeFields();
      TakesStop(old(State()), ios, n);
    }

    /** The body of the task loop, as a run of atomic steps: whatever was queued and however the driver answers, it is
        these steps in this order, so everything proved of all runs holds of the program. */
    method Round(now: Tick, ackTaken: bool, ios: seq<Io>, last: Io)
      requires |ios| == TX_QUEUE_LENGTH && Inv(State())
      modifies this
      ensures Inv(State()) && macQueue == [] && rxQueue == old(rxQueue)[|Taken(old(rxQueue))|..]
      ensures State() == Run(old(State()), RoundEvents(Taken(old(rxQueue)), old(macQueue), now, ackTaken, ios, last))
    {
      hide State, Inv, Run, LinkSteps.ProcessTimeout, LinkSteps.SubmitNextAck, DropStale, Received, Completions, Takes,
        RoundEvents;
      ghost var start, received, completed := State(), Taken(rxQueue), macQueue;
      RoundUnfolds(start, received, completed, now, ackTaken, ios, last);
      RunInv(start, RoundEvents(received, completed, now, ackTaken, ios, last));
      var _ := CancelPendingIfStale();
      DrainRx(now);
      DrainMac(now);
      SubmitNextAck(ackTaken);
      DrainTx(ios);
      ProcessTimeout(last);
    }
  }

  /** The received frames of one round. */
  function Taken(queue: seq<RxEvent>): seq<RxEvent> {
    if |queue| <= RX_QUEUE_LENGTH then queue else queue[..RX_QUEUE_LENGTH]
  }

  function Received(queue: seq<RxEvent>, now: Tick): seq<Event> {
    seq(|queue|, i requires 0 <= i < |queue| => Incoming(queue[i].source, queue[i].destination, queue[i].data, now))
  }

  function Completions(queue: seq<MacResult>, now: Tick): seq<Event> {
    seq(|queue|, i requires 0 <= i < |queue| => Completed(queue[i].destination, queue[i].success, now))
  }

  function Takes(ios: seq<Io>): seq<Event> {
    seq(|ios|, i requires 0 <= i < |ios| => Own(ActTake(ios[i])))
  }

  /** A round: received frames, completions, then an ACK, then requests, then the timeout. */
  function RoundEvents(received: seq<RxEvent>, completed: seq<MacResult>, now: Tick, ackTaken: bool, ios: seq<Io>,
                       last: Io): seq<Event>
  {
    [Own(ActDropStale)] + Received(received, now) + Completions(completed, now) + [Own(ActSubmitAck(ackTaken))]
    + Takes(ios) + [Own(ActTimeout(last))]
  }

  /** Everything a round does, place by place: a sweep first, every frame and every completion in the order in which
      they came, one ACK, up to sixteen requests, and the timeout last. */
  lemma RoundInOrder(received: seq<RxEvent>, completed: seq<MacResult>, now: Tick, ackTaken: bool, ios: seq<Io>,
                     last: Io)
    requires |ios| == TX_QUEUE_LENGTH
    ensures
      var events, r, c := RoundEvents(received, completed, now, ackTaken, ios, last), |received|, |completed|;
      && |events| == r + c + 19 && events[0] == Own(ActDropStale) && events[r + c + 18] == Own(ActTimeout(last))
      && (forall i :: 0 <= i < r ==>
            events[1 + i] == Incoming(received[i].source, received[i].destination, received[i].data, now))
      && (forall i :: 0 <= i < c ==>
            events[1 + r + i] == Completed(completed[i].destination, completed[i].success, now))
      && events[1 + r + c] == Own(ActSubmitAck(ackTaken))
      && (forall i :: 0 <= i < 16 ==> events[2 + r + c + i] == Own(ActTake(ios[i])))
  {
  }

  lemma NothingRun(s: Link, received: seq<RxEvent>, completed: seq<MacResult>, now: Tick)
    ensures Run(s, Received(received[..0], now)) == s && Run(s, Completions(completed[..0], now)) == s
  {
  }

  lemma NothingTaken(s: Link, ios: seq<Io>)
    ensures Run(s, Takes(ios[..0])) == s
  {
  }

  lemma ReceivedNext(s: Link, queue: seq<RxEvent>, n: nat, now: Tick)
    requires n < |queue|
    ensures Run(s, Received(queue[..n + 1], now))
         == Receive(Run(s, Received(queue[..n], now)), queue[n].source, queue[n].destination, queue[n].data, now)
  {
    hide Receive, Run;
    RunSnoc(s, Received(queue[..n], now), Incoming(queue[n].source, queue[n].destination, queue[n].data, now));
    assert Received(queue[..n + 1], now)
        == Received(queue[..n], now) + [Incoming(queue[n].source, queue[n].destination, queue[n].data, now)];
  }

  lemma CompletionsNext(s: Link, queue: seq<MacResult>, n: nat, now: Tick)
    requires n < |queue|
    ensures Run(s, Completions(queue[..n + 1], now))
         == LinkSteps.ProcessMacResult(Run(s, Completions(queue[..n], now)), queue[n].destination,
                                       queue[n].success, now)
  {
    hide LinkSteps.ProcessMacResult, Run;
    RunSnoc(s, Completions(queue[..n], now), Completed(queue[n].destination, queue[n].success, now));
    assert Completions(queue[..n + 1], now)
        == Completions(queue[..n], now) + [Completed(queue[n].destination, queue[n].success, now)];
  }

  lemma TakesNext(s: Link, ios: seq<Io>, n: nat)
    requires n < |ios|
    ensures Run(s, Takes(ios[..n + 1])) == TakeNext(Run(s, Takes(ios[..n])), ios[n])
  {
    hide TakeNext, Run;
    RunSnoc(s, Takes(ios[..n]), Own(ActTake(ios[n])));
    assert Takes(ios[..n + 1]) == Takes(ios[..n]) + [Own(ActTake(ios[n]))];
  }

  /** When there is nothing to take, taking on changes nothing. */
  lemma TakesStop(s: Link, ios: seq<Io>, n: nat)
    requires n <= |ios|
    requires
      var s' := Run(s, Takes(ios[..n]));
      n == |ios| || s'.pending.Some? || s'.owner != NoOwner || s'.txQueue == []
    ensures Run(s, Takes(ios)) == Run(s, Takes(ios[..n]))
  {
    assert ios == ios[..n] + ios[n..];
    assert Takes(ios) == Takes(ios[..n]) + Takes(ios[n..]);
    RunAppend(s, Takes(ios[..n]), Takes(ios[n..]));
    if n < |ios| { IdleTakes(Run(s, Takes(ios[..n])), ios[n..]); } else { assert Takes(ios[n..]) == []; }
  }

  lemma {:induction false} IdleTakes(s: Link, ios: seq<Io>)
    requires s.pending.Some? || s.owner != NoOwner || s.txQueue == []
    ensures Run(s, Takes(ios)) == s
  {
    if ios == [] {
    } else {
      var n := |ios| - 1;
      IdleTakes(s, ios[..n]);
      assert Takes(ios)[..n] == Takes(ios[..n]);
    }
  }

  lemma OneEvent(s: Link, e: Event)
    ensures Run(s, [e]) == Step(s, e)
  {
    assert [e][..0] == [];
  }

  lemma {:induction false} RunAppend(s: Link, x: seq<Event>, y: seq<Event>)
    ensures Run(s, x + y) == Run(Run(s, x), y)
  {
    if y == [] {
      assert x + y == x;
    } else {
      RunAppend(s, x, y[..|y| - 1]);
      assert (x + y)[..|x + y| - 1] == x + y[..|y| - 1];
    }
  }

  lemma RoundUnfolds(s: Link, received: seq<RxEvent>, completed: seq<MacResult>, now: Tick, ackTaken: bool,
                     ios: seq<Io>, last: Io)
    ensures
      var s1 := Run(Run(DropStale(s), Received(received, now)), Completions(completed, now));
      var s2 := Run(LinkSteps.SubmitNextAck(s1, ackTaken), Takes(ios));
      Run(s, RoundEvents(received, completed, now, ackTaken, ios, last)) == LinkSteps.ProcessTimeout(s2, last)
  {
    hide Run, LinkSteps.ProcessTimeout, LinkSteps.SubmitNextAck, DropStale, Received, Completions, Takes;
    var stale, rx, mac := [Own(ActDropStale)], Received(received, now), Completions(completed, now);
    OneEvent(s, Own(ActDropStale));
    RunAppend(s, stale, rx);
    RunAppend(s, stale + rx, mac);
    RunSnoc(s, stale + rx + mac, Own(ActSubmitAck(ackTaken)));
    RunAppend(s, stale + rx + mac + [Own(ActSubmitAck(ackTaken))], Takes(ios));
    RunSnoc(s, stale + rx + mac + [Own(ActSubmitAck(ackTaken))] + Takes(ios), Own(ActTimeout(last)));
  }
}
