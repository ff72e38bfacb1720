/** The link task as atomic steps on a value: requests, the one driver slot, ACKs, cancellation and timing. The
    state also carries a record of everything observable so far (requests accepted, callbacks made, frames handed to
    the driver, messages handed to handlers), which no step ever reads. */
module LinkSteps {
  import opened Basics
  import opened Bytes
  import opened LinkCodec

  /** A 32-bit tick count; one tick is one millisecond. */
  type Tick = t: nat | t < 0x1_0000_0000 witness 0

  type U16 = n: nat | n < 0x1_0000 witness 0

  const TWO_31: nat := 0x8000_0000
  const TX_QUEUE_LENGTH: nat := 16
  const ACK_QUEUE_LENGTH: nat := 8
  const MAX_PEERS: nat := 7
  const MAX_HANDLERS: nat := 24
  const DEFAULT_ACK_TIMEOUT_MS: nat := 20
  const MIN_ACK_TIMEOUT_MS: nat := 8
  const MAX_ACK_TIMEOUT_MS: nat := 100

  datatype Delivery = BestEffort | Reliable
  datatype TimeoutMode = Fixed | Adaptive
  datatype SendResult = Acknowledged | Sent | NoAck | SubmitFailed | MacFailed | Cancelled
  datatype SendStatus = Accepted | InvalidState | InvalidArgument | NotFound | NoMemory | DriverError

  datatype SendOptions = SendOptions(delivery: Delivery, timeoutMode: TimeoutMode, ackTimeoutMs: nat, maxAttempts: nat,
                                     allowPlaintext: bool)

  /** `id` stands for the callback and its context: it tells accepted requests apart. `cancels` is how many
      cancellations had been made when the request was accepted, of which `generation` keeps the low 32 bits. */
  datatype Request = Request(id: nat, generation: nat, cancels: nat, destination: Mac, messageId: U16,
                             payload: seq<Byte>, options: SendOptions)

  datatype Transmission = Transmission(request: Request, sequence: nat, frame: Frame, start: nat, attempts: nat,
                                       waitingAck: bool, retransmitted: bool, firstSendTick: Tick, deadlineTick: Tick)

  datatype RawMetrics = RawMetrics(lastRtt: nat, smoothedRtt: nat, ackTimeout: nat, recent: seq<nat>, sampleCount: nat,
                                   recentCount: nat, recentNext: nat)

  type Metrics = m: RawMetrics | |m.recent| == 3 && m.recentNext < 3 witness RawMetrics(0, 0, 0, [0, 0, 0], 0, 0, 0)

  datatype Peer = Peer(encrypted: bool, metrics: Metrics, hasRx: bool, lastSession: nat, lastSequence: nat)

  datatype Ack = Ack(destination: Mac, session: nat, sequence: nat)

  datatype Owner = NoOwner | OwnerPending | OwnerAck

  /** The frame the driver is busy with. */
  datatype Flight = DataFlight(id: nat, destination: Mac) | AckFlight(ack: Ack)

  /** A request that got a sequence number. */
  datatype Start = Start(request: Request, sequence: nat)

  /** A callback: for which request, with what result and sequence number, after how many attempts. `cancelsNow` is how
      many cancellations had been made when the generation was last looked at for it. */
  datatype Outcome = Outcome(request: Request, result: SendResult, sequence: nat, attempts: nat, cancelsNow: nat)

  /** A frame handed to the driver. `cancelsChecked` is how many cancellations had been made when the generation was
      looked at, `cancelsNow` how many when the driver had the frame. */
  datatype Submission = DataFrame(destination: Mac, frame: Frame, request: Request, start: nat, cancelsChecked: nat,
                                  cancelsNow: nat)
                      | AckFrame(destination: Mac, frame: Frame, ack: Ack)

  /** A message handed over after the duplicate check, with the handler found for it or without one. */
  datatype Handover = Handover(source: Mac, session: nat, sequence: nat, messageId: nat, payload: seq<Byte>,
                               reliable: bool, handled: bool)

  /** A round-trip sample: from which peer, for which request, how long. */
  datatype RttSample = RttSample(source: Mac, id: nat, rtt: nat)

  datatype Link = Link(
    active: bool, session: nat, nextSequence: nat, generation: nat, defaults: SendOptions,
    txQueue: seq<Request>, ackQueue: seq<Ack>, pending: Option<Transmission>, owner: Owner,
    peers: map<Mac, Peer>, handlers: set<nat>,
    // the record
    cancels: nat, accepted: nat, flight: Option<Flight>, starts: seq<Start>, finished: seq<Outcome>,
    submitted: seq<Submission>, handovers: seq<Handover>, samples: seq<RttSample>)

  // ---- timing ----

  /** Signed 32-bit comparison of wrapped tick counts: `now` is before `deadline`. */
  predicate TickBefore(now: Tick, deadline: Tick) {
    (now + TWO_32 - deadline) % TWO_32 >= TWO_31
  }

  function After(now: Tick, ms: nat): Tick {
    (now + ms) % TWO_32
  }

  function Clamp(x: nat, low: nat, high: nat): nat {
    if x < low then low else if x > high then high else x
  }

  function Elapsed(now: Tick, since: Tick): nat {
    (now + TWO_32 - since) % TWO_32
  }

  /** One round-trip sample; the fields are 16 and 8 bits wide. */
  function Sample(m: Metrics, rtt: nat): Metrics {
    var smoothed := if m.smoothedRtt == 0 then rtt % 0x1_0000 else (7 * m.smoothedRtt + rtt) / 8 % 0x1_0000;
    RawMetrics(rtt % 0x1_0000, smoothed, Clamp(smoothed + 5, MIN_ACK_TIMEOUT_MS, MAX_ACK_TIMEOUT_MS),
               m.recent[m.recentNext := rtt % 0x1_0000],
               if m.sampleCount < 255 then m.sampleCount + 1 else m.sampleCount,
               if m.recentCount < 3 then m.recentCount + 1 else m.recentCount,
               (m.recentNext + 1) % 3)
  }

  /** `update_rtt`: only a request that was never retransmitted yields a sample. */
  function UpdateRtt(s: Link, source: Mac, now: Tick): Link
    requires s.pending.Some?
  {
    if source !in s.peers || s.pending.value.retransmitted then s
    else
      var elapsed := Elapsed(now, s.pending.value.firstSendTick);
      var rtt := if elapsed < 1 then 1 else elapsed;
      var peer := s.peers[source];
      s.(peers := s.peers[source := peer.(metrics := Sample(peer.metrics, rtt))],
         samples := s.samples + [RttSample(source, s.pending.value.request.id, rtt)])
  }

  /** `timeout_for`. */
  function TimeoutFor(s: Link, r: Request): nat {
    if r.options.ackTimeoutMs != 0 then r.options.ackTimeoutMs
    else if r.options.timeoutMode == Adaptive && r.destination in s.peers
            && s.peers[r.destination].metrics.ackTimeout != 0
    then s.peers[r.destination].metrics.ackTimeout
    else s.defaults.ackTimeoutMs
  }

  // ---- the API ----

  /** `send`: the checks, the broadcast rule, the default for `max_attempts`, and the bounded queue. */
  function SendStatusOf(s: Link, destination: Mac, messageId: U16, payload: seq<Byte>, options: SendOptions):
    SendStatus
  {
    if !s.active then InvalidState
    else if |payload| > MAX_PAYLOAD_SIZE || messageId == ACK_MESSAGE_ID then InvalidArgument
    else if destination != BROADCAST && destination !in s.peers then NotFound
    else if destination != BROADCAST && !s.peers[destination].encrypted && !options.allowPlaintext then InvalidState
    else if |s.txQueue| >= TX_QUEUE_LENGTH then NoMemory
    else Accepted
  }

  function RequestFor(s: Link, destination: Mac, messageId: U16, payload: seq<Byte>, options: SendOptions): Request {
    var attempts := if options.maxAttempts == 0 then s.defaults.maxAttempts else options.maxAttempts;
    var effective :=
      if destination == BROADCAST then options.(delivery := BestEffort, allowPlaintext := true, maxAttempts := attempts)
      else options.(maxAttempts := attempts);
    Request(s.accepted, s.generation, s.cancels, destination, messageId, payload, effective)
  }

  function Send(s: Link, destination: Mac, messageId: U16, payload: seq<Byte>, options: SendOptions): Link {
    if SendStatusOf(s, destination, messageId, payload, options) != Accepted then s
    else s.(txQueue := s.txQueue + [RequestFor(s, destination, messageId, payload, options)],
            accepted := s.accepted + 1)
  }

  /** `cancel_transmissions`, from a task or from an interrupt. */
  function Cancel(s: Link): Link {
    s.(generation := (s.generation + 1) % TWO_32, cancels := s.cancels + 1)
  }

  /** Some cancellations in a row. */
  function Cancels(s: Link, n: nat): Link {
    s.(generation := (s.generation + n) % TWO_32, cancels := s.cancels + n)
  }

  // ---- the one outstanding request ----

  /** `finish_pending`. */
  function Finish(s: Link, result: SendResult): Link
    requires s.pending.Some?
  {
    var t := s.pending.value;
    s.(pending := None, finished := s.finished + [Outcome(t.request, result, t.sequence, t.attempts, s.cancels)])
  }

  predicate Stale(s: Link) {
    s.pending.Some? && s.pending.value.request.generation != s.generation
  }

  /** `cancel_pending_if_stale`. */
  function DropStale(s: Link): Link {
    if Stale(s) then Finish(s, Cancelled) else s
  }

  function FrameOf(session: nat, start: Start): Frame {
    var r := start.request;
    Frame(if r.options.delivery == Reliable then FLAG_RELIABLE else 0, r.messageId, start.sequence, session, r.payload)
  }

  /** What the world does while one frame is being submitted: whether the driver takes it, the tick count, whether a
      cancellation lands just before the generation is looked at, and how many land between that look and the driver. */
  datatype Io = Io(driverTakes: bool, now: Tick, cancelled: bool, late: nat)

  predicate CanSubmit(s: Link)
    requires s.pending.Some?
  {
    s.owner == NoOwner && s.pending.value.request.generation == s.generation
  }

  /** `esp_now_send` takes the frame of a request whose generation was looked at after `checked` cancellations. */
  function Submit(s: Link, checked: nat, retry: bool, now: Tick): Link
    requires s.pending.Some?
  {
    var t := s.pending.value;
    s.(owner := OwnerPending,
       flight := Some(DataFlight(t.request.id, t.request.destination)),
       submitted := s.submitted
         + [DataFrame(t.request.destination, t.frame, t.request, t.start, checked, s.cancels)],
       pending := Some(t.(retransmitted := t.retransmitted || retry, attempts := t.attempts + 1, waitingAck := false,
                          firstSendTick := if t.firstSendTick == 0 then now else t.firstSendTick)))
  }

  /** Submit the pending frame; on any failure finish the request as cancelled or failed. */
  function SubmitOrFinish(s: Link, retry: bool, io: Io): Link
    requires s.pending.Some?
  {
    var s1 := if io.cancelled then Cancel(s) else s;
    if CanSubmit(s1) then
      var s2 := Cancels(s1, io.late);
      if io.driverTakes then Submit(s2, s1.cancels, retry, io.now) else GiveUp(s2)
    else GiveUp(s1)
  }

  /** After a frame was not submitted. */
  function GiveUp(s: Link): Link
    requires s.pending.Some?
  {
    Finish(s, if Stale(s) then Cancelled else SubmitFailed)
  }

  /** A dequeued request that never becomes the outstanding one. */
  function Reject(s: Link, r: Request, result: SendResult): Link {
    s.(finished := s.finished + [Outcome(r, result, 0, 0, s.cancels)])
  }

  /** The request takes the next sequence number and becomes the outstanding one. */
  function Begin(s: Link, r: Request): Link {
    var next := (s.nextSequence + 1) % TWO_32;
    var start := Start(r, s.nextSequence);
    s.(pending := Some(Transmission(r, s.nextSequence, FrameOf(s.session, start), |s.starts|, 0, false, false, 0, 0)),
       starts := s.starts + [start],
       nextSequence := if next == 0 then 1 else next)
  }

  /** `start_send`. */
  function StartSend(s: Link, r: Request, io: Io): Link {
    if r.generation != s.generation then Reject(s, r, Cancelled)
    else if s.pending.Some? || !s.active then Reject(s, r, SubmitFailed)
    else SubmitOrFinish(Begin(s, r), false, io)
  }

  /** One round of the dequeue loop of `link_task`. */
  function TakeNext(s: Link, io: Io): Link {
    if s.pending.Some? || s.owner != NoOwner || s.txQueue == [] then s
    else StartSend(s.(txQueue := s.txQueue[1..]), s.txQueue[0], io)
  }

  // ---- reception ----

  /** `queue_ack`: a full queue drops the ACK. */
  function QueueAck(s: Link, ack: Ack): Link {
    if |s.ackQueue| >= ACK_QUEUE_LENGTH then s else s.(ackQueue := s.ackQueue + [ack])
  }

  /** `submit_next_ack`. */
  function SubmitNextAck(s: Link, driverTakes: bool): Link {
    if !s.active || s.owner != NoOwner || s.ackQueue == [] then s
    else
      var ack := s.ackQueue[0];
      var rest := s.(ackQueue := s.ackQueue[1..]);
      if !driverTakes then rest
      else rest.(owner := OwnerAck, flight := Some(AckFlight(ack)),
                 submitted := s.submitted
                   + [AckFrame(ack.destination, Frame(FLAG_ACK, ACK_MESSAGE_ID, ack.session, ack.sequence, []), ack)])
  }

  /** `process_ack`. */
  function ProcessAck(s: Link, source: Mac, frame: Frame, now: Tick): Link {
    var s1 := DropStale(s);
    if s1.pending == None then s1
    else
      var t := s1.pending.value;
      if t.request.options.delivery != Reliable || t.request.destination != source
         || t.sequence != frame.correlation || s1.session != frame.sequence then s1
      else if !t.waitingAck && s1.owner != OwnerPending then s1
      else Finish(UpdateRtt(s1, source, now), Acknowledged)
  }

  datatype Verdict = Drop | Repeat | Take

  /** The duplicate check for a reliable frame. */
  function Judge(s: Link, source: Mac, destination: Mac, frame: Frame): Verdict {
    if destination == BROADCAST || source !in s.peers then Drop
    else
      var peer := s.peers[source];
      if peer.hasRx && peer.lastSession == frame.correlation then
        if frame.sequence == peer.lastSequence then Repeat
        else if frame.sequence < peer.lastSequence then Drop
        else Take
      else Take
  }

  function HandOver(s: Link, source: Mac, frame: Frame): Link {
    s.(handovers := s.handovers
         + [Handover(source, frame.correlation, frame.sequence, frame.messageId, frame.payload, frame.IsReliable(),
                     frame.messageId in s.handlers)])
  }

  function Remember(s: Link, source: Mac, frame: Frame): Link
    requires source in s.peers
  {
    s.(peers := s.peers[source := s.peers[source].(hasRx := true, lastSession := frame.correlation,
                                                   lastSequence := frame.sequence)])
  }

  /** `process_received_event` for a frame that decodes. */
  function ProcessFrame(s: Link, source: Mac, destination: Mac, frame: Frame, now: Tick): Link {
    if frame.IsAck() then ProcessAck(s, source, frame, now)
    else if frame.IsReliable() then
      var ack := Ack(source, frame.correlation, frame.sequence);
      match Judge(s, source, destination, frame)
      case Drop => s
      case Repeat => QueueAck(s, ack)
      case Take => HandOver(QueueAck(Remember(s, source, frame), ack), source, frame)
    else HandOver(s, source, frame)
  }

  /** `process_received_event`. */
  function Receive(s: Link, source: Mac, destination: Mac, data: seq<Byte>, now: Tick): Link {
    match Decode(data)
    case None => s
    case Some(frame) => ProcessFrame(s, source, destination, frame, now)
  }

  // ---- completion and timeout ----

  /** `process_mac_result`: the driver reports that its frame left, or did not. */
  function ProcessMacResult(s: Link, destination: Mac, success: bool, now: Tick): Link {
    var s1 := DropStale(s);
    if s1.owner == NoOwner then s1
    else
      var free := s1.(owner := NoOwner, flight := None);
      if s1.owner == OwnerAck || s1.pending == None || s1.pending.value.request.destination != destination then free
      else if s1.pending.value.request.options.delivery == BestEffort
      then Finish(free, if success then Sent else MacFailed)
      else
        var t := s1.pending.value;
        free.(pending := Some(t.(waitingAck := true, deadlineTick := After(now, TimeoutFor(s1, t.request)))))
  }

  /** `process_timeout`. */
  function ProcessTimeout(s: Link, io: Io): Link {
    if Stale(s) then Finish(s, Cancelled)
    else if s.pending == None || !s.pending.value.waitingAck || s.owner != NoOwner then s
    else
      var t := s.pending.value;
      if TickBefore(io.now, t.deadlineTick) then s
      else
        var s1 := s.(pending := Some(t.(waitingAck := false)));
        if t.attempts >= t.request.options.maxAttempts then Finish(s1, NoAck)
        else SubmitOrFinish(s1, true, io)
  }

  // ---- radio life cycle ----

  /** `deactivate`: stop accepting, cancel, and forget the driver and the queued ACKs. */
  function Deactivate(s: Link): Link {
    if !s.active then s else Cancel(s).(active := false, owner := NoOwner, flight := None, ackQueue := [])
  }

  function Activate(s: Link): Link {
    s.(active := true)
  }

  /** `set_peer_ack_timeout`. */
  function SetPeerAckTimeout(s: Link, address: Mac, ms: nat): Link {
    if !(MIN_ACK_TIMEOUT_MS <= ms <= MAX_ACK_TIMEOUT_MS) || address !in s.peers then s
    else s.(peers := s.peers[address := s.peers[address].(metrics := s.peers[address].metrics.(ackTimeout := ms))])
  }

  // ---- peers and handlers ----

  function PeerStatusOf(s: Link, address: Mac, channel: nat, driverTakes: bool): SendStatus {
    if address == BROADCAST || channel > 14 then InvalidArgument
    else if address !in s.peers && |s.peers| >= MAX_PEERS then NoMemory
    else if s.active && !driverTakes then DriverError
    else Accepted
  }

  const NO_METRICS: Metrics := RawMetrics(0, 0, 0, [0, 0, 0], 0, 0, 0)

  /** `add_peer`: a new entry, or a known one whose received numbers are forgotten when its key or its form changes. */
  function AddPeer(s: Link, address: Mac, channel: nat, encrypted: bool, newKey: bool, driverTakes: bool): Link {
    if PeerStatusOf(s, address, channel, driverTakes) != Accepted then s
    else
      var old_ := if address in s.peers then s.peers[address] else Peer(encrypted, NO_METRICS, false, 0, 0);
      var timeout := if old_.metrics.ackTimeout == 0 then DEFAULT_ACK_TIMEOUT_MS else old_.metrics.ackTimeout;
      s.(peers := s.peers[address := Peer(encrypted, old_.metrics.(ackTimeout := timeout),
                                          old_.hasRx && !newKey && encrypted == old_.encrypted,
                                          old_.lastSession, old_.lastSequence)])
  }

  /** `remove_peer`. */
  function RemovePeer(s: Link, address: Mac): Link {
    s.(peers := map m | m in s.peers && m != address :: s.peers[m])
  }

  /** `register_handler`. */
  function RegisterHandler(s: Link, messageId: U16): Link {
    if messageId == ACK_MESSAGE_ID || (messageId !in s.handlers && |s.handlers| >= MAX_HANDLERS) then s
    else s.(handlers := s.handlers + {messageId})
  }

  // ---- everything a link can do on its own ----

  datatype Action =
    | ActSend(destination: Mac, messageId: U16, payload: seq<Byte>, options: SendOptions)
    | ActCancel
    | ActTake(io: Io)
    | ActSubmitAck(driverTakes: bool)
    | ActMacResult(success: bool, now: Tick)
    | ActTimeout(io: Io)
    | ActDropStale
    | ActDeactivate
    | ActActivate

  /** One atomic step. A completion event belongs to the frame the driver is busy with: one callback per frame. */
  function Act(s: Link, action: Action): Link {
    match action
    case ActSend(destination, messageId, payload, options) => Send(s, destination, messageId, payload, options)
    case ActCancel => Cancel(s)
    case ActTake(io) => TakeNext(s, io)
    case ActSubmitAck(driverTakes) => SubmitNextAck(s, driverTakes)
    case ActMacResult(success, now) =>
      if s.flight == None then s
      else
        var destination := match s.flight.value case DataFlight(_, d) => d case AckFlight(ack) => ack.destination;
        ProcessMacResult(s, destination, success, now)
    case ActTimeout(io) => ProcessTimeout(s, io)
    case ActDropStale => DropStale(s)
    case ActDeactivate => Deactivate(s)
    case ActActivate => Activate(s)
  }
}
