/** Two devices that hear each other do pair: message by message, in every order in which the results and the link's
    reports can come in, up to a result that is lost and asked for again. */
module PairingExchange {
  import opened Basics
  import opened PairingSteps
  import opened PairingInvariants
  import opened PairingResults
  import opened PairingAgreement
  import opened PairingProgress

  /** The radio of the receiver takes what the sender's radio sends. */
  predicate Heard(from: Node, to: Node, k: nat) {
    && k < |from.outbox| && ModeFor(from.runtime, from.outbox[k].destination).Some?
    && (from.outbox[k].destination == to.address || from.outbox[k].destination == BROADCAST)
    && Accepts(to.runtime, Sending(from, k)) && to.HasChannel()
  }

  /** The receiver once a message has crossed: the newest that the sender has accepted, or an earlier one. */
  function Hop(from: Node, to: Node, earlier: nat, channel: nat, io: Io): Node {
    var k := |from.outbox| - 1 - earlier;
    if k >= 0 && Heard(from, to, k) then Step(to, InMessage(Arriving(Sending(from, k), channel)), io) else to
  }

  /** One device's own step. */
  function Own(n: Node, input: Input, io: Io): Node {
    if n.HasChannel() then Step(n, input, io) else n
  }

  datatype Pair = Pair(x: Node, y: Node)

  /** How the last messages come in: the link reports the confirmation first, the result overtakes that report, or the
      result is lost and the initiator asks for it. */
  datatype Ending = ReportFirst | ResultFirst | ResultLost

  /** `x` finds the listening device `y`. */
  function Discovered(p: Pair, channels: seq<nat>, io: Io, ioY: Io): Pair
    requires channels != []
  {
    var c := channels[0];
    var y1 := Own(p.y, InListen, ioY);
    var x1 := Own(p.x, InStart(channels), io);
    var y2 := Hop(x1, y1, 0, c, ioY);
    var x2 := Hop(y2, x1, 1, c, io);
    var x3 := Hop(y2, x2, 0, c, io);
    Pair(x3, y2)
  }

  /** `x` asks, `y` offers a key, `x` takes it and confirms, `y` saves. */
  function Agreed(p: Pair, c: nat, io: Io, ioY: Io): Pair {
    var x4 := Own(p.x, InTick(false, true), io);
    var y3 := Hop(x4, p.y, 0, c, ioY);
    var x5 := Hop(y3, x4, 0, c, io);
    var y4 := Own(y3, InCallback(ResponseSent, y3.tx.token, true), ioY);
    var y5 := Hop(x5, y4, 0, c, ioY);
    Pair(x5, y5)
  }

  /** The result reaches `x`, and both sessions end. */
  function Ended(p: Pair, c: nat, ending: Ending, io: Io, ioY: Io): Pair {
    match ending
    case ReportFirst =>
      var x6 := Own(p.x, InCallback(ConfirmSent, p.x.tx.token, true), io);
      Pair(Hop(p.y, x6, 0, c, io), Own(p.y, InCallback(ResultSent, p.y.tx.token, true), ioY))
    case ResultFirst =>
      Pair(Hop(p.y, p.x, 0, c, io), Own(p.y, InCallback(ResultSent, p.y.tx.token, true), ioY))
    case ResultLost =>
      var x6 := Own(p.x, InCallback(ConfirmSent, p.x.tx.token, true), io);
      var y6 := Own(p.y, InCallback(ResultSent, p.y.tx.token, false), ioY);
      var x7 := Own(x6, InTick(false, true), io);
      var y7 := Hop(x7, y6, 0, c, ioY);
      Pair(Hop(y7, x7, 0, c, io), y7)
  }

  // ---- what the two need ----

  /** Both are idle and accept each other, and both have room for the other. */
  ghost predicate Compatible(p: Pair) {
    && NodeOk(p.x) && NodeOk(p.y) && p.x.phase == Idle && p.y.phase == Idle
    && p.x.address != p.y.address && RealAddress(p.x.address) && RealAddress(p.y.address)
    && FitsRole(p.x.config, p.y.config.localRole) && FitsRole(p.y.config, p.x.config.localRole)
    && RoomFor(p.y, p.x.address)
    && (p.x.config.replaceExisting || p.y.address in p.x.store || |p.x.store| < 3)
    && (p.y.config.replaceExisting || p.x.address in p.y.store || |p.y.store| < 3)
  }

  /** The key both will have: the one `y` has saved for `x`, or a new one. */
  function KeyOf(p: Pair, ioY: Io): Key {
    if p.x.address in p.y.store then p.y.store[p.x.address].key else ioY.key
  }

  /** `n'` has saved this peer with this key and role, and reported one outcome. */
  predicate PairedWith(n: Node, n': Node, peer: Mac, key: Key, channel: nat, role: nat, error: Error, initiator: bool) {
    && n'.phase == Idle
    && n'.store == (if n.config.replaceExisting then map[peer := Saved(key, channel, role)]
                    else n.store[peer := Saved(key, channel, role)])
    && Installed(n'.runtime, peer, key)
    && n'.reports == n.reports + [Report(peer, error, initiator, true)]
  }

  // ---- discovery ----

  /** `x` has found `y` and nobody else; `y` listens, ready to hear `x` in plaintext. */
  ghost predicate Found(p: Pair, d: Pair, nonce: nat, c: nat) {
    && Searched(p.x, d.x, nonce, c) && d.x.scan.candidates == [Candidate(p.y.address, p.y.config.localRole, true)]
    && Keeps(p.y, d.y) && d.y.phase == Listening && !d.y.initiator && d.y.tx == NO_TRANSACTION && !d.y.confirmPending
    && d.y.HasChannel() && p.x.address !in d.y.runtime
  }

  predicate Searched(n: Node, n': Node, nonce: nat, c: nat) {
    && Keeps(n, n') && n'.phase == Discovery && n'.initiator && !n'.confirmPending && n'.HasChannel()
    && n'.scan.channels[n'.scan.channelIndex] == c && !n'.scan.overflow
    && n'.tx == NO_TRANSACTION.(nonce := nonce, channel := c, token := n'.tx.token)
  }

  /** A broadcast is heard by everyone. */
  lemma BroadcastCrosses(from: Node, to: Node, earlier: nat, channel: nat, io: Io, message: Message)
    requires to.HasChannel() && earlier < |from.outbox|
    requires from.outbox[|from.outbox| - 1 - earlier] == Outgoing(BROADCAST, message, false)
    ensures Hop(from, to, earlier, channel, io)
         == Step(to, InMessage(Incoming(from.address, channel, message, false, true)), io)
  {
    hide Step;
  }

  /** A message to a device is heard if both radios have the same key for each other, or none. */
  lemma UnicastCrosses(from: Node, to: Node, channel: nat, io: Io, message: Message, reliable: bool)
    requires to.HasChannel() && to.address != BROADCAST && from.outbox != []
    requires from.outbox[|from.outbox| - 1] == Outgoing(to.address, message, reliable)
    requires to.address in from.runtime
    requires from.runtime[to.address] == if from.address in to.runtime then to.runtime[from.address] else Plain
    ensures Hop(from, to, 0, channel, io)
         == Step(to, InMessage(Incoming(from.address, channel, message, reliable, false)), io)
  {
    hide Step;
  }

  /** The pinged device is still listening, and its two answers are the last it sent. */
  ghost predicate Answered(n: Node, n': Node, a: Mac, nonce: nat) {
    && Keeps(n, n') && n'.phase == Listening && !n'.initiator && n'.tx == NO_TRANSACTION && !n'.confirmPending
    && n'.HasChannel() && a !in n'.runtime
    && |n'.outbox| >= 2
    && n'.outbox[|n'.outbox| - 2] == Outgoing(BROADCAST, DiscoveryInfo(a, nonce, n.config.localRole), false)
    && n'.outbox[|n'.outbox| - 1] == Outgoing(BROADCAST, DiscoveryResponse(a, nonce), false)
  }

  lemma PingCrosses(x1: Node, y: Node, nonce: nat, c: nat, ioY: Io)
    requires y.HasChannel() && y.phase == Idle && y.tx == NO_TRANSACTION && !y.confirmPending
    requires nonce != 0 && x1.outbox != [] && Good(ioY)
    requires x1.outbox[|x1.outbox| - 1] == Outgoing(BROADCAST, Ping(nonce), false)
    ensures Answered(y, Hop(x1, Own(y, InListen, ioY), 0, c, ioY), x1.address, nonce)
  {
    hide Step, Hop;
    ListenStarts(y, ioY);
    var y1 := Own(y, InListen, ioY);
    BroadcastCrosses(x1, y1, 0, c, ioY, Ping(nonce));
    PingIsAnswered(y1, Incoming(x1.address, c, Ping(nonce), false, true), ioY);
  }

  lemma AnswersCross(x1: Node, y: Node, y2: Node, nonce: nat, c: nat, io: Io)
    requires Searched(x1, x1, nonce, c) && x1.scan.candidates == [] && nonce != 0
    requires Answered(y, y2, x1.address, nonce) && y.config.localRole < 32 && y.address == y2.address
    ensures
      var x2 := Hop(y2, x1, 1, c, io);
      var x3 := Hop(y2, x2, 0, c, io);
      && Searched(x1, x3, nonce, c) && x3.scan.candidates == [Candidate(y.address, y.config.localRole, true)]
  {
    hide Step, Hop;
    var info, response := DiscoveryInfo(x1.address, nonce, y.config.localRole), DiscoveryResponse(x1.address, nonce);
    BroadcastCrosses(y2, x1, 1, c, io, info);
    AnswerIsCollected(x1, Incoming(y2.address, c, info, false, true), io);
    var x2 := Hop(y2, x1, 1, c, io);
    BroadcastCrosses(y2, x2, 0, c, io, response);
    assert FirstAt(x2.scan.candidates, y.address, 0);
    AnswerIsCollected(x2, Incoming(y2.address, c, response, false, true), io);
  }

  lemma Discovers(p: Pair, channels: seq<nat>, io: Io, ioY: Io)
    requires Compatible(p) && channels != [] && Good(io) && Good(ioY) && io.nonce != 0
    ensures Found(p, Discovered(p, channels, io, ioY), io.nonce, channels[0])
  {
    IdleParts(p.x);
    IdleParts(p.y);
    hide NodeOk, Step, Hop, Compatible;
    StartPings(p.x, channels, io);
    var x1 := Own(p.x, InStart(channels), io);
    PingCrosses(x1, p.y, io.nonce, channels[0], ioY);
    FitsBoth(p);
    AnswersCross(x1, p.y, Hop(x1, Own(p.y, InListen, ioY), 0, channels[0], ioY), io.nonce, channels[0], io);
  }

  lemma FitsBoth(p: Pair)
    requires Compatible(p)
    ensures p.y.config.localRole < 32 && p.x.config.localRole < 32
  {
    hide NodeOk;
  }

  lemma IdleParts(n: Node)
    requires NodeOk(n) && n.phase == Idle
    ensures n.HasChannel() && n.tx == NO_TRANSACTION && !n.confirmPending
  {
  }

  // ---- agreement ----

  predicate Newest(n: Node, o: Outgoing) {
    n.outbox != [] && n.outbox[|n.outbox| - 1] == o
  }

  /** `x` has the key installed for `y` and has sent its confirmation. */
  predicate Confirmed(n: Node, n': Node, phase: Phase, y: Mac, role: nat, nonce: nat, c: nat, key: Key) {
    && Keeps(n, n') && n'.phase == phase && n'.initiator && n'.HasChannel()
    && n'.tx == Transaction(y, nonce, n'.tx.token, c, role, key, true, false)
    && Installed(n'.runtime, y, key)
  }

  /** `y` has saved `x` under the key and is telling so. */
  predicate Told(n: Node, n': Node, x: Mac, role: nat, nonce: nat, c: nat, key: Key) {
    && n'.address == n.address && n'.config == n.config && n'.reports == n.reports && !n'.initiator && n'.HasChannel()
    && n'.phase == SendResult && n'.tx == Transaction(x, nonce, n'.tx.token, c, role, key, true, true)
    && n'.completed == n'.tx && Installed(n'.runtime, x, key)
    && n'.store == (if n.config.replaceExisting then map[x := Saved(key, c, role)]
                    else n.store[x := Saved(key, c, role)])
    && Newest(n', Outgoing(x, PairResult(nonce, OK), true))
  }

  predicate Asked(n: Node, n': Node, y: Mac, role: nat, nonce: nat, c: nat) {
    && Keeps(n, n') && Asking(n', Candidate(y, role, true), nonce, c) && n'.initiator
    && Newest(n', Outgoing(y, PairRequestV2(nonce, n.config.localRole), false))
  }

  predicate Offering(n: Node, n': Node, x: Mac, role: nat, nonce: nat, c: nat, key: Key) {
    && Keeps(n, n') && n'.phase == Responding && !n'.initiator && n'.HasChannel() && !n'.confirmPending
    && n'.tx == Transaction(x, nonce, n'.tx.token, c, role, key, true, false)
    && x in n'.runtime && n'.runtime[x] == Plain
    && Newest(n', Outgoing(x, PairResponseV2(nonce, key), false))
  }

  lemma Asks(n: Node, d: Node, y: Mac, role: nat, nonce: nat, c: nat, io: Io)
    requires Searched(n, d, nonce, c) && d.scan.candidates == [Candidate(y, role, true)] && FitsRole(n.config, role)
    requires Good(io)
    ensures Asked(n, Own(d, InTick(false, true), io), y, role, nonce, c)
  {
    hide Step;
    assert OnlyOneFits(d.config, d.scan.candidates, 0);
    TheOneIsAsked(d, 0, io);
  }

  lemma RequestCrosses(x4: Node, y: Node, nonce: nat, c: nat, role: nat, key: Key, ioY: Io)
    requires y.phase == Listening && !y.initiator && !y.confirmPending && y.HasChannel() && x4.address !in y.runtime
    requires RealAddress(y.address) && RealAddress(x4.address) && nonce != 0 && Good(ioY)
    requires FitsRole(y.config, role) && RoomFor(y, x4.address)
    requires y.address in x4.runtime && x4.runtime[y.address] == Plain
    requires Newest(x4, Outgoing(y.address, PairRequestV2(nonce, role), false))
    requires key == if x4.address in y.store then y.store[x4.address].key else ioY.key
    ensures Offering(y, Hop(x4, y, 0, c, ioY), x4.address, role, nonce, c, key)
  {
    hide Step, Hop;
    UnicastCrosses(x4, y, c, ioY, PairRequestV2(nonce, role), false);
    RequestIsOffered(y, Incoming(x4.address, c, PairRequestV2(nonce, role), false, false), ioY);
  }

  lemma OfferCrosses(n: Node, x4: Node, y: Node, y3: Node, role: nat, nonce: nat, c: nat, key: Key, io: Io)
    requires Asked(n, x4, y3.address, role, nonce, c) && y3.address == y.address && RealAddress(y.address)
    requires Offering(y, y3, x4.address, y3.tx.role, nonce, c, key) && RealAddress(x4.address) && nonce != 0 && Good(io)
    ensures
      var x5 := Hop(y3, x4, 0, c, io);
      && Confirmed(n, x5, Confirm, y.address, role, nonce, c, key)
      && Newest(x5, Outgoing(y.address, PairConfirm(nonce), true))
  {
    hide Step, Hop;
    UnicastCrosses(y3, x4, c, io, PairResponseV2(nonce, key), false);
    OfferIsTaken(x4, Incoming(y3.address, c, PairResponseV2(nonce, key), false, false), io);
  }

  lemma ConfirmCrosses(n: Node, x5: Node, y: Node, y3: Node, phase: Phase, role: nat, roleX: nat, nonce: nat, c: nat,
                       key: Key, ioY: Io)
    requires Confirmed(n, x5, phase, y.address, role, nonce, c, key)
    requires Newest(x5, Outgoing(y.address, PairConfirm(nonce), true))
    requires Offering(y, y3, x5.address, roleX, nonce, c, key) && RealAddress(x5.address) && RealAddress(y.address)
    requires nonce != 0 && Good(ioY) && (y.config.replaceExisting || x5.address in y.store || |y.store| < 3)
    ensures
      var y4 := Own(y3, InCallback(ResponseSent, y3.tx.token, true), ioY);
      Told(y, Hop(x5, y4, 0, c, ioY), x5.address, roleX, nonce, c, key)
  {
    hide Step, Hop;
    OfferLeft(y3, ioY);
    var y4 := Own(y3, InCallback(ResponseSent, y3.tx.token, true), ioY);
    UnicastCrosses(x5, y4, c, ioY, PairConfirm(nonce), true);
    ConfirmIsSaved(y4, Incoming(x5.address, c, PairConfirm(nonce), true, false), ioY);
  }

  ghost predicate AgreedOk(p: Pair, d: Pair, nonce: nat, c: nat, key: Key) {
    && Confirmed(p.x, d.x, Confirm, p.y.address, p.y.config.localRole, nonce, c, key)
    && Told(p.y, d.y, p.x.address, p.x.config.localRole, nonce, c, key)
  }

  lemma Agrees(p: Pair, d: Pair, nonce: nat, c: nat, io: Io, ioY: Io)
    requires Compatible(p) && Found(p, d, nonce, c) && nonce != 0 && Good(io) && Good(ioY)
    ensures AgreedOk(p, Agreed(d, c, io, ioY), nonce, c, KeyOf(p, ioY))
  {
    hide NodeOk, Step, Hop, Own, Asked, Offering, Confirmed, Told, Searched;
    var key, roleX, roleY := KeyOf(p, ioY), p.x.config.localRole, p.y.config.localRole;
    Asks(p.x, d.x, p.y.address, roleY, nonce, c, io);
    var x4 := Own(d.x, InTick(false, true), io);
    AskedParts(p.x, x4, p.y.address, roleY, nonce, c);
    RequestCrosses(x4, d.y, nonce, c, roleX, key, ioY);
    var y3 := Hop(x4, d.y, 0, c, ioY);
    OfferingParts(d.y, y3, p.x.address, roleX, nonce, c, key);
    OfferCrosses(p.x, x4, d.y, y3, roleY, nonce, c, key, io);
    var x5 := Hop(y3, x4, 0, c, io);
    ConfirmedParts(p.x, x5, Confirm, p.y.address, roleY, nonce, c, key);
    ConfirmCrosses(p.x, x5, d.y, y3, Confirm, roleY, roleX, nonce, c, key, ioY);
    ToldFrom(p.y, d.y, Hop(x5, Own(y3, InCallback(ResponseSent, y3.tx.token, true), ioY), 0, c, ioY), p.x.address,
             roleX, nonce, c, key);
  }

  lemma AskedParts(n: Node, n': Node, y: Mac, role: nat, nonce: nat, c: nat)
    requires Asked(n, n', y, role, nonce, c)
    ensures n'.address == n.address && y in n'.runtime && n'.runtime[y] == Plain
    ensures Newest(n', Outgoing(y, PairRequestV2(nonce, n.config.localRole), false))
  {
  }

  lemma OfferingParts(n: Node, n': Node, x: Mac, role: nat, nonce: nat, c: nat, key: Key)
    requires Offering(n, n', x, role, nonce, c, key)
    ensures n'.address == n.address && n'.tx.role == role
  {
  }

  lemma ConfirmedParts(n: Node, n': Node, phase: Phase, y: Mac, role: nat, nonce: nat, c: nat, key: Key)
    requires Confirmed(n, n', phase, y, role, nonce, c, key)
    ensures n'.address == n.address
  {
  }

  lemma ToldFrom(n: Node, d: Node, n': Node, x: Mac, role: nat, nonce: nat, c: nat, key: Key)
    requires Keeps(n, d) && Told(d, n', x, role, nonce, c, key)
    ensures Told(n, n', x, role, nonce, c, key)
  {
  }

  // ---- the end ----

  /** The result arrives while `x` waits for it, in either phase. */
  lemma ResultCrosses(n: Node, x: Node, y: Node, phase: Phase, role: nat, nonce: nat, c: nat, key: Key, io: Io)
    requires Confirmed(n, x, phase, y.address, role, nonce, c, key) && (phase == Confirm || phase == Result)
    requires Newest(y, Outgoing(x.address, PairResult(nonce, OK), true)) && Installed(y.runtime, x.address, key)
    requires RealAddress(x.address) && RealAddress(y.address) && Good(io) && nonce != 0
    requires n.config.replaceExisting || y.address in n.store || |n.store| < 3
    ensures PairedWith(n, Hop(y, x, 0, c, io), y.address, key, c, role, OK, true)
  {
    hide NodeOk, Step, Hop;
    UnicastCrosses(y, x, c, io, PairResult(nonce, OK), true);
    SuccessIsCommitted(x, Incoming(y.address, c, PairResult(nonce, OK), true, false), io);
  }

  lemma ReportComes(n: Node, x: Node, y: Mac, role: nat, nonce: nat, c: nat, key: Key, io: Io)
    requires Confirmed(n, x, Confirm, y, role, nonce, c, key) && nonce != 0
    ensures
      var x6 := Own(x, InCallback(ConfirmSent, x.tx.token, true), io);
      Confirmed(n, x6, Result, y, role, nonce, c, key) && x6.requestAttempt == 0
  {
    hide Step;
    ConfirmationDelivered(x, io);
  }

  /** The responder's session ends, its peer saved. */
  lemma ResponderEnds(n: Node, y: Node, x: Mac, role: nat, nonce: nat, c: nat, key: Key, done: bool, io: Io)
    requires Told(n, y, x, role, nonce, c, key) && nonce != 0
    ensures
      var y6 := Own(y, InCallback(ResultSent, y.tx.token, done), io);
      && PairedWith(n, y6, x, key, c, role, if done then OK else TIMEOUT, false)
      && y6.completed.nonce == nonce && y6.completed.peer == x && y6.HasChannel() && y6.address == n.address
  {
    hide Step;
    ResultLeft(y, done, io);
  }

  /** A query crosses and is answered: the answer is the newest message, and nothing else has changed. */
  lemma QueryCrosses(x7: Node, y: Node, nonce: nat, c: nat, key: Key, ioY: Io)
    requires Newest(x7, Outgoing(y.address, ResultQuery(nonce), true)) && Installed(x7.runtime, y.address, key)
    requires y.completed.nonce == nonce != 0 && y.completed.peer == x7.address && Installed(y.runtime, x7.address, key)
    requires RealAddress(x7.address) && RealAddress(y.address) && y.HasChannel() && Good(ioY)
    ensures
      var y7 := Hop(x7, y, 0, c, ioY);
      y7 == y.(outbox := y7.outbox) && Newest(y7, Outgoing(x7.address, PairResult(nonce, OK), true))
  {
    hide Step, Hop;
    UnicastCrosses(x7, y, c, ioY, ResultQuery(nonce), true);
    QueryIsAnswered(y, Incoming(x7.address, c, ResultQuery(nonce), true, false), ioY);
  }

  lemma Queries(n: Node, x6: Node, y: Mac, role: nat, nonce: nat, c: nat, key: Key, io: Io)
    requires Confirmed(n, x6, Result, y, role, nonce, c, key) && x6.requestAttempt == 0 && Good(io)
    ensures
      var x7 := Own(x6, InTick(false, true), io);
      Confirmed(n, x7, Result, y, role, nonce, c, key) && Newest(x7, Outgoing(y, ResultQuery(nonce), true))
  {
    hide Step;
    InitiatorDeadline(x6, io);
  }

  /** Both have saved each other with the same key; each reports one outcome. Only a result that was lost lets the
      responder report a timeout, although it has saved. */
  ghost predicate BothPaired(p: Pair, q: Pair, key: Key, c: nat, ending: Ending) {
    && PairedWith(p.x, q.x, p.y.address, key, c, p.y.config.localRole, OK, true)
    && PairedWith(p.y, q.y, p.x.address, key, c, p.x.config.localRole, if ending == ResultLost then TIMEOUT else OK,
                  false)
  }

  lemma Ends(p: Pair, d: Pair, nonce: nat, c: nat, key: Key, ending: Ending, io: Io, ioY: Io)
    requires Compatible(p) && AgreedOk(p, d, nonce, c, key) && nonce != 0 && Good(io) && Good(ioY)
    ensures BothPaired(p, Ended(d, c, ending, io, ioY), key, c, ending)
  {
    hide NodeOk, Step, Hop, Own, Confirmed, PairedWith;
    var x, y, roleX, roleY := p.x.address, p.y.address, p.x.config.localRole, p.y.config.localRole;
    ConfirmedParts(p.x, d.x, Confirm, y, roleY, nonce, c, key);
    ReportComes(p.x, d.x, y, roleY, nonce, c, key, io);
    var x6 := Own(d.x, InCallback(ConfirmSent, d.x.tx.token, true), io);
    ConfirmedParts(p.x, x6, Result, y, roleY, nonce, c, key);
    ResponderEnds(p.y, d.y, x, roleX, nonce, c, key, ending != ResultLost, ioY);
    match ending
    case ReportFirst => ResultCrosses(p.x, x6, d.y, Result, roleY, nonce, c, key, io);
    case ResultFirst => ResultCrosses(p.x, d.x, d.y, Confirm, roleY, nonce, c, key, io);
    case ResultLost =>
      var y6 := Own(d.y, InCallback(ResultSent, d.y.tx.token, false), ioY);
      Queries(p.x, x6, y, roleY, nonce, c, key, io);
      var x7 := Own(x6, InTick(false, true), io);
      AnswersLost(p, x7, y6, nonce, c, key, io, ioY);
  }

  lemma AnswersLost(p: Pair, x7: Node, y6: Node, nonce: nat, c: nat, key: Key, io: Io, ioY: Io)
    requires Compatible(p) && nonce != 0 && Good(io) && Good(ioY)
    requires Confirmed(p.x, x7, Result, p.y.address, p.y.config.localRole, nonce, c, key)
    requires Newest(x7, Outgoing(p.y.address, ResultQuery(nonce), true))
    requires PairedWith(p.y, y6, p.x.address, key, c, p.x.config.localRole, TIMEOUT, false)
    requires y6.completed.nonce == nonce && y6.completed.peer == p.x.address && y6.HasChannel()
    requires y6.address == p.y.address
    ensures
      var y7 := Hop(x7, y6, 0, c, ioY);
      && PairedWith(p.x, Hop(y7, x7, 0, c, io), p.y.address, key, c, p.y.config.localRole, OK, true)
      && PairedWith(p.y, y7, p.x.address, key, c, p.x.config.localRole, TIMEOUT, false)
  {
    hide NodeOk, Step, Hop;
    QueryCrosses(x7, y6, nonce, c, key, ioY);
    var y7 := Hop(x7, y6, 0, c, ioY);
    ResultCrosses(p.x, x7, y7, Result, p.y.config.localRole, nonce, c, key, io);
  }

  /** Pairing completes. Two idle devices that accept each other's roles and have room, one listening and one scanning
      its channel, end idle with each other saved under one key - whether the initiator hears of the result before or
      after the link has reported its confirmation, or has to ask for it. */
  lemma PairingCompletes(p: Pair, channels: seq<nat>, ending: Ending, io: Io, ioY: Io)
    requires Compatible(p) && channels != [] && Good(io) && Good(ioY) && io.nonce != 0
    ensures
      var d := Discovered(p, channels, io, ioY);
      var q := Ended(Agreed(d, channels[0], io, ioY), channels[0], ending, io, ioY);
      BothPaired(p, q, KeyOf(p, ioY), channels[0], ending)
  {
    hide NodeOk, Step, Hop, Own, Compatible, Found, AgreedOk, BothPaired, KeyOf, Discovered, Agreed, Ended;
    var c := channels[0];
    Discovers(p, channels, io, ioY);
    var d := Discovered(p, channels, io, ioY);
    Agrees(p, d, io.nonce, c, io, ioY);
    Ends(p, Agreed(d, c, io, ioY), io.nonce, c, KeyOf(p, ioY), ending, io, ioY);
  }
}
