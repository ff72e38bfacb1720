/** What a pairing device does when the radio, the link or the storage does not play along, and what it ignores. */
module PairingRefusals {
  import opened Basics
  import opened PairingSteps
  import opened PairingInvariants
  import opened PairingResults
  import opened PairingProgress

  // ---- messages that are not meant ----

  /** The message names the transaction under way, by its peer and its nonce. */
  predicate OfTransaction(n: Node, e: Incoming) {
    n.tx.nonce != 0 && e.source == n.tx.peer && e.message.nonce == n.tx.nonce
  }

  /** In this phase the message has something to say to this device: right kind, right form, right transaction, right
      address. */
  predicate Meant(n: Node, e: Incoming) {
    var responder := n.phase != Idle && !n.initiator;
    && e.message.nonce != 0
    && match e.message
       case Ping(_) => n.phase == Listening || n.phase == WaitConfirm
       case DiscoveryResponse(target, _) => n.phase == Discovery && target == n.address
       case DiscoveryInfo(target, _, role) => n.phase == Discovery && target == n.address && role < 32
       case PairRequest(_) => responder && (n.phase == Listening || (n.phase == WaitConfirm && OfTransaction(n, e)))
       case PairRequestV2(_, role) =>
         role < 32 && responder && (n.phase == Listening || (n.phase == WaitConfirm && OfTransaction(n, e)))
       case PairResponse(_, _) => n.phase == Response && OfTransaction(n, e) && !n.tx.extended
       case PairResponseV2(_, _) => n.phase == Response && OfTransaction(n, e) && n.tx.extended
       case PairConfirm(_) =>
         e.reliable && !e.broadcast && OfTransaction(n, e) && (n.phase == Responding || n.phase == WaitConfirm)
       case PairResult(_, error) =>
         !e.broadcast && (e.reliable || error == NO_MEM) && OfTransaction(n, e)
         && (n.phase == Confirm || n.phase == Result || (n.phase == Response && error != OK))
       case PairRefusal(target, _, error) =>
         e.broadcast && target == n.address && (e.reliable || error == NO_MEM) && OfTransaction(n, e)
         && (n.phase == Confirm || n.phase == Result || (n.phase == Response && error != OK))
       case ResultQuery(nonce) =>
         e.reliable && !e.broadcast && n.completed.nonce == nonce && n.completed.peer == e.source
         && e.source in n.runtime
  }

  /** Whatever is not meant changes nothing. */
  lemma UnmeantIsIgnored(n: Node, e: Incoming, io: Io)
    requires n.HasChannel() && !Meant(n, e)
    ensures Step(n, InMessage(e), io) == n
  {
    hide Finish, CommitInitiator, AcceptResponse, AnswerDiscovery, CollectCandidate, OfferKey, OpenTransaction,
      SavePeer;
    match e.message
    case PairResponse(_, lmk) => if n.phase == Response { WrongOfferIgnored(n, e, lmk, false, io); }
    case PairResponseV2(_, lmk) => if n.phase == Response { WrongOfferIgnored(n, e, lmk, true, io); }
    case _ =>
  }

  lemma WrongOfferIgnored(n: Node, e: Incoming, lmk: Key, extended: bool, io: Io)
    requires n.HasChannel() && (!OfTransaction(n, e) || n.tx.extended != extended)
    ensures AcceptResponse(n, e, lmk, extended, io) == n
  {
    hide NextChannel;
  }

  /** While a confirmation is awaited a ping is answered, and nothing else happens. */
  lemma PingWhileWaiting(n: Node, e: Incoming, io: Io)
    requires n.HasChannel() && n.phase == WaitConfirm && e.message.Ping? && e.message.nonce != 0
    ensures
      var n' := Step(n, InMessage(e), io);
      && n' == n.(outbox := n'.outbox)
      && Sends(n, n', IfTaken(io, Answers(n, e)))
  {
    hide AnswerDiscovery;
    AnswersWith(n, e, io);
  }

  // ---- the radio refuses ----

  /** A scan whose channel or ping is refused waits all the same, and remembers that it failed. */
  lemma SilentScan(n: Node, channels: seq<nat>, io: Io)
    requires n.HasChannel() && n.phase == Idle && n.tx == NO_TRANSACTION && channels != []
    requires !io.channelOk || !io.pingOk
    ensures
      var n' := Step(n, InStart(channels), io);
      && Searching(n', io.nonce, channels[0]) && Keeps(n, n') && n'.outbox == n.outbox && n'.scanError == OTHER
      && n'.scan.wifiChannel == if io.channelOk then channels[0] else n.scan.wifiChannel
  {
  }

  // ---- the driver refuses a peer ----

  lemma RefusedCandidate(n: Node, k: nat, io: Io)
    requires n.HasChannel() && n.phase == Discovery && n.initiator && !n.scan.overflow
    requires Good(io.(addOk := true)) && !io.addOk && OnlyOneFits(n.config, n.scan.candidates, k)
    ensures
      var n', c := Step(n, InTick(false, true), io), n.scan.candidates[k];
      var n1 := n.(tx := n.tx.(peer := c.address, extended := c.extended, role := c.role));
      ScanGoesOn(n1, n', io) && n'.scanError == OTHER
  {
    OneAcceptable(n.config, n.scan.candidates, k);
    hide AcceptableOnes, Acceptable, NextChannel, Finish, ScanGoesOn;
    var c := n.scan.candidates[k];
    var n1 := n.(tx := n.tx.(peer := c.address, extended := c.extended, role := c.role));
    NextScan(n1, OTHER, io);
    assert n1.(scanError := OTHER) == n.(tx := Named(n.tx, c), scanError := OTHER);
  }

  /** The scan goes on; only the driver may go on refusing peers. */
  ghost predicate ScanGoesOn(n: Node, n': Node, io: Io)
    requires n.HasChannel()
  {
    var again := n.scan.channelAttempt == 0;
    var next := if again then n.scan.channelIndex else (n.scan.channelIndex + 1) % |n.scan.channels|;
    && Searching(n', io.nonce, n.scan.channels[next]) && Keeps(n, n') && Undone(n, n')
    && Sends(n, n', [Outgoing(BROADCAST, Ping(io.nonce), false)])
  }

  lemma NextScan(n: Node, error: Error, io: Io)
    requires n.HasChannel() && n.initiator && io.pingOk && io.channelOk
    ensures
      var n' := NextChannel(n.(scanError := error), io);
      ScanGoesOn(n, n', io) && n'.scanError == error
  {
    hide Rollback, Undone;
    var advanced := n.(scanError := error, scan := Advanced(n.scan));
    UndoneByRollback(advanced);
    StillUndone(n, advanced, Rollback(advanced), NextChannel(n.(scanError := error), io));
    assert n.(scanError := error).(scan := Advanced(n.scan)) == advanced;
  }

  /** An offer whose sender the driver does not take, or whose confirmation the link does not take, is not confirmed. */
  lemma RefusedOffer(n: Node, e: Incoming, io: Io)
    requires n.HasChannel() && n.phase == Response && n.initiator && io.pingOk && io.channelOk
    requires !io.addOk || !io.sendOk
    requires if n.tx.extended then e.message.PairResponseV2? else e.message.PairResponse?
    requires e.message.nonce == n.tx.nonce != 0 && e.source == n.tx.peer != BROADCAST
    ensures
      var n' := Step(n, InMessage(e), io);
      && n'.phase == Discovery && Keeps(n, n') && n'.scanError == OTHER && n'.tx.nonce == io.nonce
      && Sends(n, n', [Outgoing(BROADCAST, Ping(io.nonce), false)])
      && (n.tx.peer != NO_MAC && !n.tx.committed ==>
            && (n.tx.peer !in n.store ==> n.tx.peer !in n'.runtime)
            && forall m :: m in n.store ==> Installed(n'.runtime, m, n.store[m].key))
  {
    hide NextChannel;
    var taken := TakeKey(n, e.message.lmk);
    NextScan(taken, OTHER, io);
    NextScan(InstallKey(taken), OTHER, io);
  }

  /** A request for whose sender there is no room in the driver, or whose answer the link does not take, is given up. */
  lemma RefusedRequester(n: Node, e: Incoming, io: Io)
    requires n.HasChannel() && n.phase == Listening && !n.initiator && (!io.addOk || !io.sendOk)
    requires (e.message.PairRequest? || e.message.PairRequestV2?) && e.message.nonce != 0 && RealAddress(e.source)
    requires Allowed(n.config, e.message) && RoomFor(n, e.source)
    ensures
      var n' := Step(n, InMessage(e), io);
      && n'.phase == Listening && n'.tx == NO_TRANSACTION && n'.outbox == n.outbox && n'.store == n.store
      && n'.reports == n.reports + [Report(e.source, OTHER, n.initiator, e.message.PairRequestV2?)]
      && (e.source !in n.store ==> e.source !in n'.runtime)
      && forall m :: m in n.store ==> Installed(n'.runtime, m, n.store[m].key)
  {
    hide Rollback, ReportResult, Sent, OpenTransaction;
    var n1 := OpenTransaction(n, e, io);
    BegunParts(n, e, io);
    OpenedGivenUp(n1, n1);
    OpenedGivenUp(n1, n1.(runtime := n1.runtime[e.source := Plain], phase := Responding));
  }

  lemma BegunParts(n: Node, e: Incoming, io: Io)
    requires e.message.PairRequest? || e.message.PairRequestV2?
    ensures
      var n1 := OpenTransaction(n, e, io);
      && n1.tx.nonce == e.message.nonce && n1.tx.peer == e.source && !n1.tx.committed
      && n1.tx.extended == e.message.PairRequestV2?
      && n1 == n.(tx := n1.tx, nextToken := n1.nextToken, ledger := n1.ledger)
  {
  }

  /** A transaction just opened, with its peer installed or not, leaves nothing when it is given up. */
  lemma OpenedGivenUp(n: Node, n1: Node)
    requires n.tx.nonce != 0 && n.tx.peer != NO_MAC && !n.tx.committed
    requires n1 == n.(runtime := n1.runtime, phase := n1.phase)
    ensures
      var n' := Rollback(ReportResult(n1, OTHER));
      && n'.phase == n1.phase && n'.tx == NO_TRANSACTION && n'.outbox == n.outbox && n'.store == n.store
      && n'.reports == n.reports + [Report(n.tx.peer, OTHER, n.initiator, n.tx.extended)]
      && (n.tx.peer !in n.store ==> n.tx.peer !in n'.runtime)
      && forall m :: m in n.store ==> Installed(n'.runtime, m, n.store[m].key)
  {
    hide Rollback, ReportResult;
    ReportedParts(n1, OTHER);
    UndoneByRollback(ReportResult(n1, OTHER));
    UndoneParts(ReportResult(n1, OTHER), Rollback(ReportResult(n1, OTHER)));
  }

  lemma ReportedParts(n: Node, error: Error)
    ensures ReportResult(n, error)
         == n.(reports := n.reports + [Report(n.tx.peer, error, n.initiator, n.tx.extended)])
  {
  }

  lemma UndoneParts(n: Node, n': Node)
    requires Undone(n, n') && n.tx.nonce != 0 && n.tx.peer != NO_MAC && !n.tx.committed
    ensures n.tx.peer !in n.store ==> n.tx.peer !in n'.runtime
    ensures forall m :: m in n.store ==> Installed(n'.runtime, m, n.store[m].key)
  {
  }

  /** An offer that has left, but whose peer the driver does not take with its key, is given up; a repeated request then
      changes nothing. */
  lemma RefusedKey(n: Node, e: Incoming, io: Io)
    requires n.HasChannel() && n.tx.nonce != 0 && !io.addOk
    ensures n.phase == Responding ==>
              ListensAgain(n, Step(n, InCallback(ResponseSent, n.tx.token, true), io), OTHER)
    ensures n.phase == WaitConfirm && (e.message.PairRequest? || e.message.PairRequestV2?) ==>
              Step(n, InMessage(e), io) == n
  {
    hide Rollback, ReportResult, ListensAgain, AcceptConfirm, OfferKey, OpenTransaction;
    GivenUp(n, OTHER);
  }
}
