/** What the link must do, in every state of every run: each event settles exactly what the record of the run says it
    settles, and nothing else. */
module LinkProgress {
  import opened Basics
  import opened Bytes
  import opened LinkCodec
  import opened LinkSteps
  import opened LinkInvariants
  import opened LinkTheorems
  import opened LinkTiming
  import opened LinkSessions

  // ---- reception of a message ----

  /** The last reliable message of this peer is of another session or of a lower number, or there is none. */
  predicate IsNews(handovers: seq<Handover>, source: Mac, f: Frame) {
    var k := LastOf(handovers, source);
    k == |handovers| || handovers[k].session != f.correlation || handovers[k].sequence < f.sequence
  }

  /** It is this very message. */
  predicate IsRepeat(handovers: seq<Handover>, source: Mac, f: Frame) {
    var k := LastOf(handovers, source);
    k < |handovers| && handovers[k].session == f.correlation && handovers[k].sequence == f.sequence
  }

  function MessageIn(s: Link, source: Mac, f: Frame): Handover {
    Handover(source, f.correlation, f.sequence, f.messageId, f.payload, f.IsReliable(), f.messageId in s.handlers)
  }

  /** A frame that is no ACK: a best-effort message is handed over; a reliable one sent to this link by a peer is handed
      over and acknowledged if it is news, acknowledged again if it is the last one, and otherwise dropped. An ACK that
      finds its queue full is lost. */
  ghost predicate ReceivesExactly(s: Link, s': Link, source: Mac, destination: Mac, f: Frame) {
    var fit := f.IsReliable() && destination != BROADCAST && source in s.peers;
    var news := fit && IsNews(s.handovers, source, f);
    var acked := news || (fit && IsRepeat(s.handovers, source, f));
    && s'.handovers == s.handovers + (if news || !f.IsReliable() then [MessageIn(s, source, f)] else [])
    && s'.ackQueue == s.ackQueue + (if acked && |s.ackQueue| < ACK_QUEUE_LENGTH
                                    then [Ack(source, f.correlation, f.sequence)] else [])
    && s' == s.(handovers := s'.handovers, ackQueue := s'.ackQueue, peers := s'.peers)
    && s'.peers.Keys == s.peers.Keys
    && (forall m :: m in s.peers && (m != source || !news) ==> s'.peers[m] == s.peers[m])
    && (news ==> s'.peers[source].metrics == s.peers[source].metrics
                 && s'.peers[source].encrypted == s.peers[source].encrypted)
  }

  lemma FrameReceived(s: Link, source: Mac, destination: Mac, f: Frame, now: Tick)
    requires Remembering(s) && !f.IsAck()
    ensures ReceivesExactly(s, ProcessFrame(s, source, destination, f, now), source, destination, f)
  {
    hide Judge, IsNews, IsRepeat;
    Judgement(s, source, destination, f);
  }

  /** What the peer entry remembers decides as the record does. */
  lemma Judgement(s: Link, source: Mac, destination: Mac, f: Frame)
    requires Remembering(s)
    ensures
      var fit := destination != BROADCAST && source in s.peers;
      && (Judge(s, source, destination, f) == Take <==> fit && IsNews(s.handovers, source, f))
      && (Judge(s, source, destination, f) == Repeat
          <==> fit && !IsNews(s.handovers, source, f) && IsRepeat(s.handovers, source, f))
    ensures IsRepeat(s.handovers, source, f) ==> !IsNews(s.handovers, source, f)
  {
    hide Rising, LastOf;
    if source in s.peers { assert RemembersLast(s.peers[source], s.handovers, source); }
  }

  /** Reception, in every run: what a frame does follows from what has been handed over before. Bytes that do not decode
      do nothing. */
  lemma ReceptionIsExact(s: Link, events: seq<Event>, source: Mac, destination: Mac, data: seq<Byte>, now: Tick)
    requires Fresh(s) && (Decode(data).Some? ==> !Decode(data).value.IsAck())
    ensures
      var r := Run(s, events);
      var r' := Step(r, Incoming(source, destination, data, now));
      if Decode(data) == None then r' == r else ReceivesExactly(r, r', source, destination, Decode(data).value)
  {
    FreshRemembering(s);
    RunRemembering(s, events);
    hide Run, Fresh, Decode, ProcessFrame, Remembering, ReceivesExactly;
    if Decode(data).Some? { FrameReceived(Run(s, events), source, destination, Decode(data).value, now); }
  }

  // ---- what the outstanding request has behind it ----

  /** It has been handed to the driver at least once, and it is marked exactly if more than once. */
  predicate Tried(s: Link) {
    s.pending.Some? ==>
      s.pending.value.attempts >= 1 && (s.pending.value.retransmitted <==> s.pending.value.attempts >= 2)
  }

  lemma SubmitTried(s: Link, retry: bool, io: Io)
    requires s.pending.Some? && s.pending.value.retransmitted == (s.pending.value.attempts >= 2)
    requires retry <==> s.pending.value.attempts >= 1
    ensures Tried(SubmitOrFinish(s, retry, io))
  {
  }

  lemma ActTried(s: Link, action: Action)
    requires Tried(s)
    ensures Tried(Act(s, action))
  {
    match action
    case ActTake(io) =>
      hide SubmitOrFinish;
      if s.pending == None && s.txQueue != [] { SubmitTried(Begin(Popped(s), s.txQueue[0]), false, io); }
    case ActTimeout(io) =>
      hide SubmitOrFinish;
      if s.pending.Some? { SubmitTried(s.(pending := Some(s.pending.value.(waitingAck := false))), true, io); }
    case _ =>
  }

  lemma ReceiveTried(s: Link, source: Mac, destination: Mac, data: seq<Byte>, now: Tick)
    requires Tried(s)
    ensures Tried(Receive(s, source, destination, data, now))
  {
    hide Decode, Sample;
  }

  lemma {:induction false} RunTried(s: Link, events: seq<Event>)
    requires Tried(s)
    ensures Tried(Run(s, events))
  {
    hide Tried, Act, Receive;
    if events == [] {
    } else {
      var before := Run(s, events[..|events| - 1]);
      RunTried(s, events[..|events| - 1]);
      match events[|events| - 1]
      case Own(action) => ActTried(before, action);
      case Incoming(source, destination, data, now) => ReceiveTried(before, source, destination, data, now);
      case Completed(destination, success, now) => CompletionTried(before, destination, success, now);
    }
  }

  lemma CompletionTried(s: Link, destination: Mac, success: bool, now: Tick)
    requires Tried(s)
    ensures Tried(ProcessMacResult(s, destination, success, now))
  {
  }

  // ---- outcomes ----

  /** The callback of the outstanding request, with this result. */
  function Settled(s: Link, result: SendResult): Outcome
    requires s.pending.Some?
  {
    var t := s.pending.value;
    Outcome(t.request, result, t.sequence, t.attempts, s.cancels)
  }

  /** A cancellation has reached the outstanding request. */
  predicate Overtaken(s: Link) {
    s.pending.Some? && s.pending.value.request.generation != s.generation
  }

  /** The outstanding request's own frame is in the driver. */
  predicate InDriver(s: Link) {
    s.pending.Some? && s.flight == Some(DataFlight(s.pending.value.request.id, s.pending.value.request.destination))
  }

  // ---- acknowledgement ----

  /** The ACK that the outstanding request waits for: of its peer, with its number and this link's session, while its
      frame is in the driver or its ACK is awaited. */
  predicate Awaits(s: Link, source: Mac, f: Frame) {
    && s.pending.Some? && !Overtaken(s)
    && s.pending.value.request.options.delivery == Reliable && s.pending.value.request.destination == source
    && s.pending.value.sequence == f.correlation && s.session == f.sequence
    && (s.pending.value.waitingAck || InDriver(s))
  }

  /** An ACK ends the request that waits for it, and no other. A request submitted just once gives one round-trip
      sample, the time since its submission and at least 1. */
  ghost predicate AcknowledgesExactly(s: Link, s': Link, source: Mac, f: Frame, now: Tick) {
    && s'.finished == s.finished + (if Overtaken(s) then [Settled(s, Cancelled)]
                                    else if Awaits(s, source, f) then [Settled(s, Acknowledged)] else [])
    && s'.pending == (if Overtaken(s) || Awaits(s, source, f) then None else s.pending)
    && (if Awaits(s, source, f) && source in s.peers && Count(s.submitted, s.pending.value.request.id) == 1 then
          var rtt := Lasted(s, now);
          && s'.samples == s.samples + [RttSample(source, s.pending.value.request.id, rtt)]
          && source in s'.peers && Measures(s.peers[source].metrics, s'.peers[source].metrics, rtt)
          && s'.peers == s.peers[source := s.peers[source].(metrics := s'.peers[source].metrics)]
        else s'.samples == s.samples && s'.peers == s.peers)
    && s' == s.(finished := s'.finished, pending := s'.pending, samples := s'.samples, peers := s'.peers)
  }

  lemma AckProcessed(s: Link, source: Mac, f: Frame, now: Tick)
    requires SlotIsTrue(s) && Tried(s)
    requires s.pending.Some? ==> Count(s.submitted, s.pending.value.request.id) == s.pending.value.attempts
    ensures AcknowledgesExactly(s, ProcessAck(s, source, f, now), source, f, now)
  {
    hide Count, Measures, UpdateRtt;
    if s.pending.Some? { MeasuredOnce(s, source, now); }
  }

  /** The sample of the outstanding request, if it is the first submission that is acknowledged. */
  lemma MeasuredOnce(s: Link, source: Mac, now: Tick)
    requires s.pending.Some?
    ensures
      var s', t := UpdateRtt(s, source, now), s.pending.value;
      && s' == s.(peers := s'.peers, samples := s'.samples)
      && (if source in s.peers && !t.retransmitted then
            && s'.samples == s.samples + [RttSample(source, t.request.id, Lasted(s, now))]
            && source in s'.peers
            && Measures(s.peers[source].metrics, s'.peers[source].metrics, Lasted(s, now))
            && s'.peers == s.peers[source := s.peers[source].(metrics := s'.peers[source].metrics)]
          else s' == s)
  {
    hide Sample, Measures;
    if source in s.peers { SampleIsExact(s.peers[source].metrics, Lasted(s, now)); }
  }

  /** How long ago the outstanding request was first submitted, in 32 bits and at least 1. */
  function Lasted(s: Link, now: Tick): nat {
    var elapsed := if s.pending.Some? then (now - s.pending.value.firstSendTick) % TWO_32 else 0;
    if elapsed == 0 then 1 else elapsed
  }

  /** Acknowledgement, in every run. */
  lemma AckIsExact(s: Link, events: seq<Event>, source: Mac, destination: Mac, data: seq<Byte>, now: Tick)
    requires Fresh(s) && Decode(data).Some? && Decode(data).value.IsAck()
    ensures
      var r := Run(s, events);
      AcknowledgesExactly(r, Step(r, Incoming(source, destination, data, now)), source, Decode(data).value, now)
  {
    hide Run, Fresh, Decode, ProcessAck, Inv, Tried, AcknowledgesExactly;
    Facts(s, events);
    AckProcessed(Run(s, events), source, Decode(data).value, now);
  }

  lemma Facts(s: Link, events: seq<Event>)
    requires Fresh(s)
    ensures Inv(Run(s, events)) && Tried(Run(s, events)) && SlotIsTrue(Run(s, events))
    ensures Run(s, events).pending.Some? ==>
              var t := Run(s, events).pending.value;
              Count(Run(s, events).submitted, t.request.id) == t.attempts
  {
    ReachableInv(s, events);
    RunTried(s, events);
  }

  // ---- completion ----

  /** How long to wait for an ACK of the request: as long as it asks for; if it leaves that open and wants to adapt, as
      its peer's last sample tells; otherwise the default. */
  predicate WaitsFor(s: Link, r: Request, ms: nat) {
    var adapted := if r.destination in s.peers then s.peers[r.destination].metrics.ackTimeout else 0;
    && (r.options.ackTimeoutMs != 0 ==> ms == r.options.ackTimeoutMs)
    && (r.options.ackTimeoutMs == 0 && r.options.timeoutMode == Adaptive && adapted != 0 ==> ms == adapted)
    && (r.options.ackTimeoutMs == 0 && (r.options.timeoutMode == Fixed || adapted == 0) ==>
          ms == s.defaults.ackTimeoutMs)
  }

  /** A completion frees the driver. If the frame in it is the outstanding request's and goes by the address
      completed, a best-effort request ends with what the driver reports, and a reliable one starts to wait for its
      ACK. */
  ghost predicate CompletesExactly(s: Link, s': Link, destination: Mac, success: bool, now: Tick) {
    var own := !Overtaken(s) && InDriver(s) && s.pending.value.request.destination == destination;
    && s'.flight == None && s'.owner == NoOwner
    && (if Overtaken(s) then s'.finished == s.finished + [Settled(s, Cancelled)] && s'.pending == None
        else if own && s.pending.value.request.options.delivery == BestEffort then
          && s'.finished == s.finished + [Settled(s, if success then Sent else MacFailed)]
          && s'.pending == None
        else if own then
          && s'.finished == s.finished && s'.pending.Some?
          && s'.pending.value.waitingAck
          && (exists ms: nat :: WaitsFor(s, s.pending.value.request, ms)
                                && s'.pending.value.deadlineTick == (now + ms) % TWO_32)
          && s'.pending.value == s.pending.value.(waitingAck := true, deadlineTick := s'.pending.value.deadlineTick)
        else s'.finished == s.finished && s'.pending == s.pending)
    && s' == s.(finished := s'.finished, pending := s'.pending, flight := None, owner := NoOwner)
  }

  lemma CompletionProcessed(s: Link, destination: Mac, success: bool, now: Tick)
    requires SlotIsTrue(s)
    ensures CompletesExactly(s, ProcessMacResult(s, destination, success, now), destination, success, now)
  {
    if s.pending.Some? { assert WaitsFor(s, s.pending.value.request, TimeoutFor(s, s.pending.value.request)); }
  }

  /** Completion, in every run and with any address. */
  lemma CompletionIsExact(s: Link, events: seq<Event>, destination: Mac, success: bool, now: Tick)
    requires Fresh(s)
    ensures
      var r := Run(s, events);
      CompletesExactly(r, Step(r, Completed(destination, success, now)), destination, success, now)
  {
    hide Run, Fresh, ProcessMacResult, Inv, Tried, CompletesExactly;
    Facts(s, events);
    CompletionProcessed(Run(s, events), destination, success, now);
  }

  // ---- submission ----

  /** The outstanding request is handed to the driver, or ends there: cancelled if a cancellation comes in between,
      failed if the driver refuses. `t` is the request as it stood. */
  ghost predicate SubmitsExactly(s: Link, t: Transmission, s': Link, io: Io) {
    var checked := s.cancels + if io.cancelled then 1 else 0;
    var lost := io.cancelled || (!io.driverTakes && io.late % TWO_32 != 0);
    && s'.cancels == checked + (if io.cancelled then 0 else io.late)
    && (if !io.cancelled && io.driverTakes then
          && s'.submitted == s.submitted + [DataFrame(t.request.destination, t.frame, t.request, t.start, checked,
                                                      s'.cancels)]
          && s'.flight == Some(DataFlight(t.request.id, t.request.destination)) && s'.finished == s.finished
          && s'.pending == Some(t.(attempts := t.attempts + 1, waitingAck := false, retransmitted := t.attempts >= 1,
                                   firstSendTick := if t.firstSendTick == 0 then io.now else t.firstSendTick))
        else
          && s'.submitted == s.submitted && s'.flight == None && s'.pending == None
          && s'.finished == s.finished + [Outcome(t.request, if lost then Cancelled else SubmitFailed, t.sequence,
                                                  t.attempts, s'.cancels)])
  }

  /** The deadline of the ACK has been reached: the signed distance to it is not negative. */
  predicate Due(t: Transmission, now: Tick) {
    (now - t.deadlineTick) % TWO_32 < TWO_31
  }

  /** The timeout: a request whose ACK is overdue is submitted again, the same frame, while its limit allows, and ends
      NO_ACK once it does not. */
  ghost predicate TimesOutExactly(s: Link, s': Link, io: Io) {
    if Overtaken(s) then s' == s.(finished := s.finished + [Settled(s, Cancelled)], pending := None)
    else if s.pending == None || !s.pending.value.waitingAck || s.flight.Some? || !Due(s.pending.value, io.now) then
      s' == s
    else if Count(s.submitted, s.pending.value.request.id) >= s.pending.value.request.options.maxAttempts then
      s' == s.(finished := s.finished + [Settled(s, NoAck)], pending := None)
    else
      && SubmitsExactly(s, s.pending.value, s', io)
      && s'.txQueue == s.txQueue && s'.ackQueue == s.ackQueue && s'.peers == s.peers && s'.handovers == s.handovers
      && s'.starts == s.starts && s'.nextSequence == s.nextSequence && s'.active == s.active
  }

  lemma SubmissionTried(s: Link, retry: bool, io: Io)
    requires s.pending.Some? && !Overtaken(s) && SlotIsTrue(s) && s.flight == None && s.generation < TWO_32
    requires s.pending.value.retransmitted == (s.pending.value.attempts >= 2)
    requires retry <==> s.pending.value.attempts >= 1
    ensures SubmitsExactly(s, s.pending.value, SubmitOrFinish(s, retry, io), io)
  {
  }

  lemma TimeoutProcessed(s: Link, io: Io)
    requires SlotIsTrue(s) && Tried(s) && s.generation < TWO_32
    requires s.pending.Some? ==> Count(s.submitted, s.pending.value.request.id) == s.pending.value.attempts
    ensures TimesOutExactly(s, ProcessTimeout(s, io), io)
  {
    hide Count, SubmitOrFinish, SubmitsExactly;
    if s.pending.Some? && s.flight == None && !Overtaken(s) {
      var s1 := s.(pending := Some(s.pending.value.(waitingAck := false)));
      SubmissionTried(s1, true, io);
      SubmissionFrame(s1, true, io);
      if SubmitsExactly(s1, s1.pending.value, SubmitOrFinish(s1, true, io), io) {
        FlagIsCleared(s, s1, SubmitOrFinish(s1, true, io), io);
      }
    }
  }

  lemma FlagIsCleared(s: Link, s1: Link, s': Link, io: Io)
    requires s.pending.Some? && s1 == s.(pending := Some(s.pending.value.(waitingAck := false)))
    requires SubmitsExactly(s1, s1.pending.value, s', io)
    ensures SubmitsExactly(s, s.pending.value, s', io)
  {
  }

  lemma SubmissionFrame(s: Link, retry: bool, io: Io)
    requires s.pending.Some?
    ensures
      var s' := SubmitOrFinish(s, retry, io);
      && s'.txQueue == s.txQueue && s'.ackQueue == s.ackQueue && s'.peers == s.peers && s'.handovers == s.handovers
      && s'.starts == s.starts && s'.nextSequence == s.nextSequence && s'.active == s.active
  {
  }

  /** The timeout, in every run. */
  lemma TimeoutIsExact(s: Link, events: seq<Event>, io: Io)
    requires Fresh(s)
    ensures TimesOutExactly(Run(s, events), Step(Run(s, events), Own(ActTimeout(io))), io)
  {
    hide Run, Fresh, ProcessTimeout, Inv, Tried, TimesOutExactly;
    Facts(s, events);
    GenerationFits(Run(s, events));
    TimeoutProcessed(Run(s, events), io);
  }

  /** The frame of a request under a number: its content, and the session that says who counts. */
  predicate CarriesRequest(f: Frame, s: Link, r: Request, sequence: nat) {
    && f.messageId == r.messageId && f.payload == r.payload && f.sequence == sequence && f.correlation == s.session
    && !f.IsAck() && KnownFlags(f.flags) && (f.IsReliable() <==> r.options.delivery == Reliable)
  }

  /** Taking the next request: if nothing is outstanding and the driver is idle, the oldest queued request leaves the
      queue. If it is current and the link is up, it gets the next number and goes to the driver; otherwise it ends
      there, unnumbered. */
  ghost predicate TakesExactly(s: Link, s': Link, io: Io) {
    if s.pending.Some? || s.flight.Some? || s.txQueue == [] then s' == s
    else
      var r, n := s.txQueue[0], SequenceAt(|s.starts|);
      && s'.txQueue == s.txQueue[1..] && s'.ackQueue == s.ackQueue && s'.peers == s.peers
      && s'.handovers == s.handovers && s'.active == s.active
      && (if r.generation != s.generation then
            s' == s.(txQueue := s'.txQueue, finished := s.finished + [Outcome(r, Cancelled, 0, 0, s.cancels)])
          else if !s.active then
            s' == s.(txQueue := s'.txQueue, finished := s.finished + [Outcome(r, SubmitFailed, 0, 0, s.cancels)])
          else
            && s'.starts == s.starts + [Start(r, n)]
            && exists t: Transmission :: CarriesRequest(t.frame, s, r, n) && SubmitsExactly(s, t, s', io)
                 && t == Transmission(r, n, t.frame, |s.starts|, 0, false, false, 0, 0))
  }

  lemma TakeProcessed(s: Link, io: Io)
    requires SlotIsTrue(s) && s.generation < TWO_32 && s.nextSequence == SequenceAt(|s.starts|)
    ensures TakesExactly(s, TakeNext(s, io), io)
  {
    hide SubmitOrFinish, SequenceAt, SubmitsExactly;
    if s.pending == None && s.flight == None && s.txQueue != [] {
      var r := s.txQueue[0];
      if r.generation == s.generation && s.active {
        var s1 := Begin(Popped(s), r);
        var t := s1.pending.value;
        FlagsKnown(s.session, Start(r, s.nextSequence));
        SubmissionTried(s1, false, io);
        SubmissionFrame(s1, false, io);
        SubmissionOfBegun(s, s1, SubmitOrFinish(s1, false, io), io);
        assert CarriesRequest(t.frame, s, r, s.nextSequence);
      }
    }
  }

  lemma FlagsKnown(session: nat, start: Start)
    ensures
      var f := FrameOf(session, start);
      && !f.IsAck() && KnownFlags(f.flags) && (f.IsReliable() <==> start.request.options.delivery == Reliable)
  {
  }

  lemma SubmissionOfBegun(s: Link, s1: Link, s': Link, io: Io)
    requires s1.pending.Some? && SubmitsExactly(s1, s1.pending.value, s', io)
    requires s1.cancels == s.cancels && s1.submitted == s.submitted && s1.finished == s.finished
    ensures SubmitsExactly(s, s1.pending.value, s', io)
  {
  }

  /** Taking a request, in every run. */
  lemma TakeIsExact(s: Link, events: seq<Event>, io: Io)
    requires Fresh(s)
    ensures TakesExactly(Run(s, events), Step(Run(s, events), Own(ActTake(io))), io)
  {
    hide Run, Fresh, TakeNext, Inv, Tried, TakesExactly;
    Facts(s, events);
    GenerationFits(Run(s, events));
    TakeProcessed(Run(s, events), io);
  }

  lemma GenerationFits(s: Link)
    requires Inv(s)
    ensures s.generation < TWO_32 && s.nextSequence == SequenceAt(|s.starts|)
  {
  }

  // ---- the API, ACKs leaving, cancellation ----

  predicate Reachable(s: Link, destination: Mac, options: SendOptions) {
    destination == BROADCAST
    || (destination in s.peers && (s.peers[destination].encrypted || options.allowPlaintext))
  }

  /** `send` takes a message exactly if the link is up, it fits, its id is not the ACK's, its destination may be sent to
      and there is room; each refusal says why. What is queued is the message, under the next id and the current
      generation; a broadcast is best-effort. */
  lemma SendIsExact(s: Link, destination: Mac, messageId: U16, payload: seq<Byte>, options: SendOptions)
    ensures
      var status := SendStatusOf(s, destination, messageId, payload, options);
      var s' := Send(s, destination, messageId, payload, options);
      var fits := |payload| <= 224 && messageId != 0;
      && (status == Accepted <==> s.active && fits && Reachable(s, destination, options) && |s.txQueue| < 16)
      && (status == InvalidArgument <==> s.active && !fits)
      && (status == NotFound <==> s.active && fits && destination != BROADCAST && destination !in s.peers)
      && (status == NoMemory <==> s.active && fits && Reachable(s, destination, options) && |s.txQueue| >= 16)
      && (status != Accepted ==> s' == s)
      && (status == Accepted ==>
            && |s'.txQueue| == |s.txQueue| + 1 && s'.txQueue[..|s.txQueue|] == s.txQueue
            && s' == s.(txQueue := s'.txQueue, accepted := s.accepted + 1)
            && var r := s'.txQueue[|s.txQueue|];
               && r.id == s.accepted && r.generation == s.generation && r.cancels == s.cancels
               && r.destination == destination && r.messageId == messageId && r.payload == payload
               && (r.options.delivery == Reliable <==> destination != BROADCAST && options.delivery == Reliable)
               && r.options.allowPlaintext == (options.allowPlaintext || destination == BROADCAST)
               && r.options.timeoutMode == options.timeoutMode && r.options.ackTimeoutMs == options.ackTimeoutMs
               && (options.maxAttempts != 0 ==> r.options.maxAttempts == options.maxAttempts)
               && (options.maxAttempts == 0 ==> r.options.maxAttempts == s.defaults.maxAttempts))
  {
    var s' := Send(s, destination, messageId, payload, options);
    if SendStatusOf(s, destination, messageId, payload, options) == Accepted {
      assert s'.txQueue == s.txQueue + [s'.txQueue[|s.txQueue|]];
    }
  }

  /** The oldest queued ACK goes out while the link is up and the driver idle; one the driver refuses is lost. */
  lemma AckLeaves(s: Link, driverTakes: bool)
    requires SlotIsTrue(s)
    ensures
      var s' := Act(s, ActSubmitAck(driverTakes));
      if !s.active || s.flight.Some? || s.ackQueue == [] then s' == s
      else
        && s'.ackQueue == s.ackQueue[1..]
        && (driverTakes ==>
              && s'.flight == Some(AckFlight(s.ackQueue[0])) && |s'.submitted| == |s.submitted| + 1
              && s'.submitted[..|s.submitted|] == s.submitted
              && var f := s'.submitted[|s.submitted|];
                 && f.AckFrame? && f.ack == s.ackQueue[0] && f.destination == f.ack.destination
                 && f.frame.IsAck() && f.frame.sequence == f.ack.session && f.frame.correlation == f.ack.sequence)
        && (!driverTakes ==> s'.submitted == s.submitted && s'.flight == None)
        && s' == s.(ackQueue := s'.ackQueue, submitted := s'.submitted, flight := s'.flight, owner := s'.owner)
  {
    if s.ackQueue != [] { AckFrameFlags(s.ackQueue[0]); }
  }

  lemma AckFrameFlags(ack: Ack)
    ensures
      var f := Frame(FLAG_ACK, ACK_MESSAGE_ID, ack.session, ack.sequence, []);
      f.IsAck() && !f.IsReliable() && KnownFlags(f.flags)
  {
  }

  /** The outstanding request ends cancelled once a cancellation has reached it, and stays otherwise. */
  lemma SweepIsExact(s: Link)
    ensures
      var s' := Act(s, ActDropStale);
      if Overtaken(s) then s' == s.(finished := s.finished + [Settled(s, Cancelled)], pending := None) else s' == s
  {
  }

  /** Switching off: no more requests, everything earlier overtaken, the driver and the ACKs forgotten; whatever is
      queued or outstanding still gets its callback. */
  lemma SwitchingOffIsExact(s: Link)
    requires s.generation < TWO_32
    ensures !s.active ==> Act(s, ActDeactivate) == s
    ensures s.active ==>
      var s' := Act(s, ActDeactivate);
      && !s'.active && s'.flight == None && s'.owner == NoOwner && s'.ackQueue == []
      && s'.cancels == s.cancels + 1 && s'.generation != s.generation
      && s' == s.(active := false, flight := None, owner := NoOwner, ackQueue := [], cancels := s'.cancels,
                  generation := s'.generation)
      && Act(s', ActActivate) == s'.(active := true)
  {
  }

  // ---- peers and handlers ----

  /** A peer is added or changed unless its address is the broadcast one, its channel is above 14, it would be the
      eighth, or the driver of an active link refuses it. */
  lemma AddingPeersIsExact(s: Link, address: Mac, channel: nat, encrypted: bool, newKey: bool, driverTakes: bool)
    ensures
      var status := PeerStatusOf(s, address, channel, driverTakes);
      var fits, room := address != BROADCAST && channel <= 14, address in s.peers || |s.peers| < 7;
      && (status == InvalidArgument <==> !fits)
      && (status == NoMemory <==> fits && !room)
      && (status == DriverError <==> fits && room && s.active && !driverTakes)
      && (status == Accepted <==> fits && room && (!s.active || driverTakes))
      && (status != Accepted ==> AddPeer(s, address, channel, encrypted, newKey, driverTakes) == s)
  {
  }

  /** Changing a peer's key or form forgets what was received of it; its measurements stay, and a first timeout is
      20 ms. */
  lemma AddedPeer(s: Link, address: Mac, channel: nat, encrypted: bool, newKey: bool, driverTakes: bool)
    requires PeerStatusOf(s, address, channel, driverTakes) == Accepted
    ensures
      var s' := AddPeer(s, address, channel, encrypted, newKey, driverTakes);
      && s' == s.(peers := s'.peers) && s'.peers.Keys == s.peers.Keys + {address}
      && (forall m :: m in s.peers && m != address ==> s'.peers[m] == s.peers[m])
      && s'.peers[address].encrypted == encrypted
      && (address !in s.peers ==>
            !s'.peers[address].hasRx
            && s'.peers[address].metrics == RawMetrics(0, 0, 20, [0, 0, 0], 0, 0, 0))
      && (address in s.peers ==>
            var peer, before := s'.peers[address], s.peers[address];
            && (peer.hasRx <==> before.hasRx && !newKey && encrypted == before.encrypted)
            && peer.lastSession == before.lastSession && peer.lastSequence == before.lastSequence
            && peer.metrics == before.metrics.(ackTimeout := if before.metrics.ackTimeout == 0 then 20
                                                             else before.metrics.ackTimeout))
  {
    hide PeerStatusOf;
  }

  /** Removing a peer leaves the others; a handler is registered for any id but the ACK's, 24 at most; a timeout set by
      hand is that of a known peer, from 8 to 100 ms. */
  lemma SettingUpIsExact(s: Link, address: Mac, id: U16, ms: nat)
    ensures
      var s' := RemovePeer(s, address);
      && s' == s.(peers := s'.peers) && s'.peers.Keys == s.peers.Keys - {address}
      && forall m :: m in s'.peers ==> s'.peers[m] == s.peers[m]
    ensures RegisterHandler(s, id)
         == if id != 0 && (id in s.handlers || |s.handlers| < 24) then s.(handlers := s.handlers + {id}) else s
    ensures
      var s' := SetPeerAckTimeout(s, address, ms);
      if 8 <= ms <= 100 && address in s.peers then
        && s' == s.(peers := s'.peers) && s'.peers.Keys == s.peers.Keys
        && (forall m :: m in s.peers && m != address ==> s'.peers[m] == s.peers[m])
        && s'.peers[address] == s.peers[address].(metrics := s.peers[address].metrics.(ackTimeout := ms))
      else s' == s
  {
    var s' := RegisterHandler(s, id);
    if id in s.handlers { assert s.handlers + {id} == s.handlers; }
  }
}
