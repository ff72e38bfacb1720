/** The pairing task as the program has it - one set of variables changed in place by events and timeouts - proved to do
    exactly the steps of `PairingSteps`. */
module PairingTask {
  import opened Basics
  import opened PairingSteps
  import opened PairingInvariants
  import opened PairingRuns
  import opened PairingResults

  class Task {
    const address: Mac
    var config: Config
    /** The peers in NVS, as the pairing task sees them. */
    var store: map<Mac, Saved>
    /** The peers registered with the link. */
    var runtime: map<Mac, Mode>
    var phase: Phase
    var transaction: Transaction
    var completed: Transaction
    var initiator: bool
    var peersSuspended: bool
    var confirmPending: bool
    var scanError: Error
    var requestAttempt: nat
    var nextToken: nat
    /** The candidates, the channels to scan and where the scan stands. */
    var scan: Scan
    // the record of what was met and done; the program reads none of it
    var ledger: Ledger
    var outbox: seq<Outgoing>
    var reports: seq<Report>

    /** The value the step functions work on. */
    ghost function State(): Node
      reads this
    {
      Node(address, config, store, runtime, phase, transaction, completed, initiator, peersSuspended, confirmPending,
           scanError, requestAttempt, nextToken, scan, ledger, outbox, reports)
    }

    constructor (mac: Mac, policy: Config, channel: nat)
      ensures State() == Node(mac, policy, map[], map[], Idle, NO_TRANSACTION, NO_TRANSACTION, false, false, false,
                              NOT_FOUND, 0, 1, Scan([], false, [0], 0, 0, channel, 1),
                              Ledger({}, {}, map[], map[], map[], {}, [], {}), [], [])
      ensures FreshNode(State()) && NodeOk(State())
    {
      address, config, store, runtime := mac, policy, map[], map[];
      phase, transaction, completed := Idle, NO_TRANSACTION, NO_TRANSACTION;
      initiator, peersSuspended, confirmPending := false, false, false;
      scanError, requestAttempt, nextToken := NOT_FOUND, 0, 1;
      scan := Scan([], false, [0], 0, 0, channel, 1);
      ledger, outbox, reports := Ledger({}, {}, map[], map[], map[], {}, [], {}), [], [];
      new;
      hide NodeOk;
      FreshNodeOk(State());
    }

    // ---- peers, reports, messages ----

    method RollbackTransaction()
      modifies this`runtime, this`peersSuspended, this`transaction, this`confirmPending
      ensures State() == Rollback(old(State()))
    {
      if transaction.nonce != 0 && transaction.peer != NO_MAC && !transaction.committed {
        runtime := Removed(runtime, transaction.peer);
        runtime := Restored(store, runtime);
        peersSuspended := false;
      }
      transaction := NO_TRANSACTION;
      confirmPending := false;
    }

    method Report(error: Error)
      modifies this`reports
      ensures State() == ReportResult(old(State()), error)
    {
      reports := reports + [PairingSteps.Report(transaction.peer, error, initiator, transaction.extended)];
    }

    method Finish(error: Error, io: Io)
      modifies this
      ensures State() == PairingSteps.Finish(old(State()), error, io)
    {
      hide Rollback, ReportResult, Restored;
      Report(error);
      RollbackTransaction();
      RestoreSuspended();
      LeaveSession(error, io);
    }

    method RestoreSuspended()
      modifies this`runtime, this`peersSuspended
      ensures
        var n := old(State());
        State() == if n.suspended then n.(runtime := Restored(n.store, n.runtime), suspended := false) else n
    {
      if peersSuspended {
        runtime := Restored(store, runtime);
        peersSuspended := false;
      }
    }

    method LeaveSession(error: Error, io: Io)
      modifies this`scan, this`phase
      ensures
        var n := old(State());
        State() == n.(phase := Idle,
                      scan := if n.initiator && error != OK && io.active
                              then n.scan.(wifiChannel := n.scan.restoreChannel) else n.scan)
    {
      if initiator && error != OK && io.active { scan := scan.(wifiChannel := scan.restoreChannel); }
      phase := Idle;
    }

    /** Back to listening after a failed transaction. */
    method ListenAgain(error: Error)
      modifies this
      ensures State() == Rollback(ReportResult(old(State()), error)).(phase := Listening)
    {
      hide Rollback, ReportResult;
      Report(error);
      RollbackTransaction();
      phase := Listening;
    }

    method Send(destination: Mac, message: Message, reliable: bool, ok: bool) returns (sent: bool)
      modifies this`outbox
      ensures State() == Sent(old(State()), destination, message, reliable, ok)
      ensures sent == SendOk(old(State()), destination, reliable, ok)
    {
      sent := ok && (destination == BROADCAST
                     || (destination in runtime && (!reliable || runtime[destination].Encrypted?)));
      if sent { outbox := outbox + [Outgoing(destination, message, reliable)]; }
    }

    /** `same_transaction`. */
    method IsSameTransaction(e: Incoming) returns (same: bool)
      ensures same == SameTransaction(State(), e)
    {
      same := transaction.nonce != 0 && e.source == transaction.peer && e.message.nonce == transaction.nonce;
    }

    /** `on_message`. */
    method Admits(e: Incoming) returns (admitted: bool)
      ensures admitted == Admitted(State(), e)
    {
      admitted := e.message.nonce != 0;
      match e.message
      case DiscoveryResponse(target, _) => admitted := admitted && target == address;
      case DiscoveryInfo(target, _, role) => admitted := admitted && target == address && role < 32;
      case PairRequestV2(_, role) => admitted := admitted && role < 32;
      case PairConfirm(_) => admitted := admitted && e.reliable && !e.broadcast;
      case ResultQuery(_) => admitted := admitted && e.reliable && !e.broadcast;
      case PairResult(_, error) => admitted := admitted && !e.broadcast && (e.reliable || error == NO_MEM);
      case PairRefusal(target, _, error) =>
        admitted := admitted && e.broadcast && target == address && (e.reliable || error == NO_MEM);
      case _ =>
    }

    method SetScanError(error: Error)
      modifies this`scanError
      ensures State() == old(State()).(scanError := error)
    {
      scanError := error;
    }

    method EnterPhase(next: Phase)
      modifies this`phase
      ensures State() == old(State()).(phase := next)
    {
      phase := next;
    }

    // ---- the initiator ----

    method ScanChannel(io: Io)
      requires State().HasChannel()
      modifies this
      ensures State() == PairingSteps.ScanChannel(old(State()), io)
    {
      hide Rollback, StartScan;
      RollbackTransaction();
      BeginScan(io);
    }

    /** A new transaction and a ping on the channel. */
    method BeginScan(io: Io)
      requires State().HasChannel()
      modifies this
      ensures State() == StartScan(old(State()), io)
    {
      hide Sent;
      NewTransaction(io);
      ClearCandidates(io);
      var sent := Send(BROADCAST, Ping(io.nonce), false, io.channelOk && io.pingOk);
    }

    method NewTransaction(io: Io)
      requires State().HasChannel()
      modifies this`transaction, this`ledger, this`nextToken, this`phase
      ensures
        var n := old(State());
        State() == n.(tx := NO_TRANSACTION.(nonce := io.nonce, channel := n.scan.channels[n.scan.channelIndex],
                                            token := n.nextToken),
                      nextToken := n.nextToken + 1, phase := Discovery,
                      ledger := n.ledger.(noncesUsed := n.ledger.noncesUsed + {io.nonce}))
    {
      transaction :=
        NO_TRANSACTION.(nonce := io.nonce, channel := scan.channels[scan.channelIndex], token := nextToken);
      ledger := ledger.(noncesUsed := ledger.noncesUsed + {io.nonce});
      nextToken := nextToken + 1;
      phase := Discovery;
    }

    /** No candidates yet; the radio goes to the transaction's channel. */
    method ClearCandidates(io: Io)
      modifies this`scan, this`scanError
      ensures
        var n := old(State());
        State() == n.(scan := n.scan.(candidates := [], overflow := false,
                                      wifiChannel := if io.channelOk then n.tx.channel else n.scan.wifiChannel),
                      scanError := if io.channelOk && io.pingOk then n.scanError else OTHER)
    {
      scan := scan.(candidates := [], overflow := false,
                    wifiChannel := if io.channelOk then transaction.channel else scan.wifiChannel);
      if !io.channelOk || !io.pingOk { scanError := OTHER; }
    }

    method NextChannel(io: Io)
      requires State().HasChannel()
      modifies this
      ensures State() == PairingSteps.NextChannel(old(State()), io)
    {
      hide PairingSteps.ScanChannel;
      scan := scan.(channelAttempt := scan.channelAttempt + 1);
      if scan.channelAttempt >= 2 {
        scan := scan.(channelAttempt := 0, channelIndex := (scan.channelIndex + 1) % |scan.channels|);
      }
      ScanChannel(io);
    }

    method CollectCandidate(e: Incoming)
      requires (e.message.DiscoveryResponse? || e.message.DiscoveryInfo?) && State().HasChannel()
      modifies this`scan
      ensures State() == PairingSteps.CollectCandidate(old(State()), e)
    {
      if e.message.nonce != transaction.nonce || e.channel != scan.channels[scan.channelIndex] { return; }
      var candidates := scan.candidates;
      var index := 0;
      while index < |candidates| && candidates[index].address != e.source
        invariant index <= |candidates|
        invariant FindCandidate(candidates, e.source) == index + FindCandidate(candidates[index..], e.source)
      {
        assert candidates[index..][1..] == candidates[index + 1..];
        index := index + 1;
      }
      if index == |candidates| {
        if |candidates| == MAX_CANDIDATES {
          scan := scan.(overflow := true);
          return;
        }
        candidates := candidates + [Candidate(e.source, 0, false)];
      }
      if e.message.DiscoveryInfo? {
        candidates := candidates[index := candidates[index].(extended := true, role := e.message.role)];
      }
      scan := scan.(candidates := candidates);
    }

    method RequestPair(ok: bool) returns (sent: bool)
      modifies this`outbox
      ensures State() == PairingSteps.RequestPair(old(State()), ok)
      ensures sent == SendOk(old(State()), old(transaction.peer), false, ok)
    {
      hide Sent, SendOk;
      if transaction.extended {
        sent := Send(transaction.peer, PairRequestV2(transaction.nonce, config.localRole), false, ok);
      } else {
        sent := Send(transaction.peer, PairRequest(transaction.nonce), false, ok);
      }
    }

    /** The loop of `choose_candidate`: the last acceptable candidate, and how many there are. */
    method CountAcceptable() returns (chosen: Candidate, accepted: nat)
      ensures accepted == |AcceptableOnes(config, scan.candidates)|
      ensures accepted > 0 ==> chosen == AcceptableOnes(config, scan.candidates)[accepted - 1]
    {
      chosen, accepted := Candidate(NO_MAC, 0, false), 0;
      for i := 0 to |scan.candidates|
        invariant accepted == |AcceptableOnes(config, scan.candidates[..i])|
        invariant accepted > 0 ==> chosen == AcceptableOnes(config, scan.candidates[..i])[accepted - 1]
      {
        AcceptableSnoc(config, scan.candidates[..i], scan.candidates[i]);
        assert scan.candidates[..i + 1] == scan.candidates[..i] + [scan.candidates[i]];
        if Acceptable(config, scan.candidates[i]) {
          chosen := scan.candidates[i];
          accepted := accepted + 1;
        }
      }
      assert scan.candidates[..|scan.candidates|] == scan.candidates;
    }

    /** The candidate becomes the transaction's peer, in plaintext. */
    method InstallTemporary(c: Candidate)
      modifies this`ledger, this`transaction, this`runtime, this`phase, this`requestAttempt
      ensures State() == Chosen(old(State()), c)
    {
      hide Named;
      NameCandidate(c);
      runtime := runtime[c.address := Plain];
      phase := Response;
      requestAttempt := 1;
    }

    method NameCandidate(c: Candidate)
      modifies this`ledger, this`transaction
      ensures
        var n := old(State());
        State() == n.(tx := Named(n.tx, c), ledger := n.ledger.(kinds := n.ledger.kinds[n.tx.nonce := c.extended]))
    {
      ledger := ledger.(kinds := ledger.kinds[transaction.nonce := c.extended]);
      transaction := transaction.(peer := c.address, extended := c.extended, role := c.role);
    }

    method ChooseCandidate(io: Io)
      requires State().HasChannel()
      modifies this
      ensures State() == PairingSteps.ChooseCandidate(old(State()), io)
    {
      hide PairingSteps.Finish, PairingSteps.NextChannel, PairingSteps.RequestPair, AcceptableOnes, Chosen, Named,
        SendOk;
      var chosen, accepted := CountAcceptable();
      if scan.overflow || accepted > 1 {
        Finish(INVALID_RESPONSE, io);
        return;
      }
      if accepted == 0 {
        NextChannel(io);
        return;
      }
      if !io.addOk {
        transaction := Named(transaction, chosen);
        scanError := OTHER;
        NextChannel(io);
        return;
      }
      InstallTemporary(chosen);
      var sent := RequestPair(io.sendOk);
      scanError := if sent then OK else OTHER;
    }

    method AcceptResponse(e: Incoming, lmk: Key, extended: bool, io: Io)
      requires State().HasChannel()
      modifies this
      ensures State() == PairingSteps.AcceptResponse(old(State()), e, lmk, extended, io)
    {
      hide PairingSteps.NextChannel, Sent, SendOk, TakeKey, InstallKey;
      var same := IsSameTransaction(e);
      if !same || transaction.extended != extended { return; }
      StoreKey(lmk);
      KeyTaken(old(State()), lmk);
      if !io.addOk {
        SetScanError(OTHER);
        NextChannel(io);
        return;
      }
      UseKey();
      ghost var installed := State();
      var sent := Send(transaction.peer, PairConfirm(transaction.nonce), true, io.sendOk);
      UnsentChangesNothing(installed, transaction.peer, PairConfirm(transaction.nonce), true, io.sendOk);
      SetScanError(if sent then OK else OTHER);
      if !sent { NextChannel(io); }
    }

    method StoreKey(lmk: Key)
      modifies this`transaction, this`ledger
      ensures State() == TakeKey(old(State()), lmk)
    {
      transaction := transaction.(lmk := lmk);
      ledger := ledger.(held := ledger.held + {lmk});
    }

    /** The peer gets the key, and the key is settled for the nonce. */
    method UseKey()
      modifies this`runtime, this`ledger, this`phase
      ensures State() == InstallKey(old(State())) && transaction == old(transaction)
    {
      runtime := runtime[transaction.peer := Encrypted(transaction.lmk)];
      ledger := ledger.(agreed := ledger.agreed[transaction.nonce :=
        Agreement(transaction.peer, transaction.lmk, transaction.extended)]);
      phase := Confirm;
    }

    /** `save_peer` as pairing sees it: the table is changed in NVS or not at all. */
    method SavePeer(io: Io) returns (error: Error)
      modifies this`store, this`runtime, this`ledger
      ensures error == SaveError(old(State()), io)
      ensures State() == if error == OK then PairingSteps.SavePeer(old(State())) else old(State())
    {
      if !config.replaceExisting && transaction.peer !in store && |store| >= MAX_SAVED_PEERS { return NO_MEM; }
      if !io.saveOk { return OTHER; }
      WriteStore();
      return OK;
    }

    /** The table after a successful write. */
    method WriteStore()
      modifies this`store, this`runtime, this`ledger
      ensures State() == PairingSteps.SavePeer(old(State()))
    {
      var entry := Saved(transaction.lmk, transaction.channel, transaction.role);
      if config.replaceExisting {
        runtime := map m | m in runtime && (m !in store || m == transaction.peer) :: runtime[m];
        store := map[transaction.peer := entry];
      } else {
        store := store[transaction.peer := entry];
      }
      ledger := ledger.(everSaved := ledger.everSaved + {(transaction.peer, transaction.lmk)});
    }

    method CommitInitiator(io: Io)
      modifies this
      ensures State() == PairingSteps.CommitInitiator(old(State()), io)
    {
      hide PairingSteps.Finish, SaveError;
      var error := SavePeer(io);
      if error == OK {
        ledger := ledger.(
          commits := ledger.commits + [Agreement(transaction.peer, transaction.lmk, transaction.extended)]);
      }
      transaction := transaction.(committed := error == OK);
      Finish(error, io);
    }

    // ---- the responder ----

    method AnswerDiscovery(e: Incoming, io: Io)
      modifies this`outbox
      ensures State() == PairingSteps.AnswerDiscovery(old(State()), e, io)
    {
      hide Sent;
      var info := Send(BROADCAST, DiscoveryInfo(e.source, e.message.nonce, config.localRole), false, io.sendOk);
      var response := Send(BROADCAST, DiscoveryResponse(e.source, e.message.nonce), false, io.sendOk);
    }

    method SuspendPeer(peer: Mac)
      modifies this`runtime, this`peersSuspended
      ensures State() == Suspend(old(State()), peer)
    {
      if peer in runtime {
        runtime := Removed(runtime, peer);
        peersSuspended := true;
      }
    }

    method OfferKey(extended: bool, io: Io)
      modifies this
      ensures State() == PairingSteps.OfferKey(old(State()), extended, io)
    {
      hide Sent, Rollback, ReportResult, SendOk;
      EnterPhase(Responding);
      var message := if extended then PairResponseV2(transaction.nonce, transaction.lmk)
                     else PairResponse(transaction.nonce, transaction.lmk);
      ghost var n1 := State();
      var sent := Send(transaction.peer, message, false, io.sendOk);
      UnsentChangesNothing(n1, transaction.peer, message, false, io.sendOk);
      if !sent { ListenAgain(OTHER); }
    }

    method RespondPair(e: Incoming, io: Io)
      requires e.message.PairRequest? || e.message.PairRequestV2?
      modifies this
      ensures State() == PairingSteps.RespondPair(old(State()), e, io)
    {
      hide Sent, PairingSteps.OfferKey, Rollback, ReportResult, CapacityAvailable;
      var extended := e.message.PairRequestV2?;
      if phase != Listening {
        var same := IsSameTransaction(e);
        if phase != WaitConfirm || !same || !io.addOk { return; }
        runtime := runtime[transaction.peer := Plain];
        OfferKey(extended, io);
        return;
      }
      if (extended && !RoleAllowed(config, e.message.role)) || (!extended && !config.allowLegacy) { return; }
      var available := HasRoomFor(e.source);
      if !available {
        if extended {
          var refused := Send(BROADCAST, PairRefusal(e.source, e.message.nonce, NO_MEM), false, io.sendOk);
        }
        return;
      }
      OpenTransaction(e, io);
      if !io.addOk {
        Report(OTHER);
        RollbackTransaction();
        return;
      }
      runtime := runtime[e.source := Plain];
      OfferKey(extended, io);
    }

    /** `capacity_available`. */
    method HasRoomFor(peer: Mac) returns (available: bool)
      ensures available == CapacityAvailable(State(), peer)
    {
      available := peer in store || |store| < config.peerLimit || config.replaceExisting;
    }

    method OpenTransaction(e: Incoming, io: Io)
      requires e.message.PairRequest? || e.message.PairRequestV2?
      modifies this`transaction, this`nextToken, this`ledger
      ensures State() == PairingSteps.OpenTransaction(old(State()), e, io)
    {
      var role := if e.message.PairRequestV2? then e.message.role else 0;
      transaction :=
        Transaction(e.source, e.message.nonce, nextToken, e.channel, role, io.key, e.message.PairRequestV2?, false);
      nextToken := nextToken + 1;
      if e.source in store {
        transaction := transaction.(lmk := store[e.source].key,
                                    role := if e.message.PairRequestV2? then role else store[e.source].role);
        ledger := ledger.(held := ledger.held + {transaction.lmk});
      } else {
        ledger := ledger.(held := ledger.held + {io.key},
                          births := ledger.births[io.key := Birth(e.source, e.message.nonce,
                                                                  e.message.PairRequestV2?)]);
      }
    }

    method AcceptConfirm(source: Mac, nonce: nat, io: Io)
      modifies this
      ensures State() == PairingSteps.AcceptConfirm(old(State()), source, nonce, io)
    {
      hide PairingSteps.Finish, SaveError, Sent, PairingSteps.SavePeer;
      if phase != WaitConfirm || transaction.nonce == 0 || source != transaction.peer || nonce != transaction.nonce {
        return;
      }
      var error := SavePeer(io);
      if error == OK {
        SaveKeepsTheRest(old(State()));
        MarkCommitted();
      }
      if !transaction.extended {
        Finish(error, io);
        return;
      }
      EnterPhase(SendResult);
      SetScanError(error);
      var sent := Send(transaction.peer, PairResult(transaction.nonce, error), true, io.sendOk);
    }

    method MarkCommitted()
      modifies this`transaction, this`completed, this`ledger
      ensures
        var n, tx := old(State()), old(transaction).(committed := true);
        State() == n.(tx := tx, completed := tx,
                      ledger := n.ledger.(confirmed := n.ledger.confirmed + {(tx.peer, tx.nonce)}))
    {
      transaction := transaction.(committed := true);
      completed := transaction;
      ledger := ledger.(confirmed := ledger.confirmed + {(transaction.peer, transaction.nonce)});
    }

    // ---- events ----

    /** `process_event` for the callbacks of the link. */
    method ProcessCallback(callback: Callback, token: nat, done: bool, io: Io)
      requires State().HasChannel()
      modifies this
      ensures State() == PairingSteps.ProcessCallback(old(State()), callback, token, done, io)
    {
      hide PairingSteps.Finish, PairingSteps.AcceptConfirm, PairingSteps.NextChannel, PairingSteps.CommitInitiator,
        Rollback, ReportResult;
      if token != transaction.token || transaction.nonce == 0 { return; }
      if callback == ResponseSent && phase == Responding {
        ResponseDone(done, io);
      } else if callback == ConfirmSent && phase == Confirm {
        ConfirmDone(done, io);
      } else if callback == ResultSent && phase == SendResult {
        Finish(if transaction.committed then (if done then OK else TIMEOUT) else scanError, io);
      }
    }

    /** The response is on the air: the key takes effect, and a confirmation that came early is accepted. */
    method ResponseDone(done: bool, io: Io)
      modifies this
      ensures
        var n := old(State());
        State() == if done && io.addOk then
                     var n1 := n.(runtime := n.runtime[n.tx.peer := Encrypted(n.tx.lmk)], phase := WaitConfirm);
                     if n1.confirmPending
                     then PairingSteps.AcceptConfirm(n1.(confirmPending := false), n1.tx.peer, n1.tx.nonce, io) else n1
                   else Rollback(ReportResult(n, if done then OTHER else FAIL)).(phase := Listening)
    {
      hide PairingSteps.AcceptConfirm, Rollback, ReportResult;
      if done && io.addOk {
        runtime := runtime[transaction.peer := Encrypted(transaction.lmk)];
        EnterPhase(WaitConfirm);
        if confirmPending {
          confirmPending := false;
          AcceptConfirm(transaction.peer, transaction.nonce, io);
        }
      } else {
        ListenAgain(if done then OTHER else FAIL);
      }
    }

    /** The confirmation has been acknowledged, or not. */
    method ConfirmDone(done: bool, io: Io)
      requires State().HasChannel()
      modifies this
      ensures
        var n := old(State());
        State() == if !done then PairingSteps.NextChannel(n.(scanError := TIMEOUT), io)
                   else if n.tx.extended then n.(phase := Result, requestAttempt := 0)
                   else PairingSteps.CommitInitiator(n, io)
    {
      hide PairingSteps.NextChannel, PairingSteps.CommitInitiator;
      if !done {
        SetScanError(TIMEOUT);
        NextChannel(io);
      } else if transaction.extended {
        phase := Result;
        requestAttempt := 0;
      } else {
        CommitInitiator(io);
      }
    }

    /** A result or a refusal. */
    method ProcessResult(e: Incoming, error: Error, io: Io)
      modifies this
      ensures State() == PairingSteps.ProcessResult(old(State()), e, error, io)
    {
      hide PairingSteps.Finish, PairingSteps.CommitInitiator;
      var same := IsSameTransaction(e);
      if same && (phase == Confirm || phase == Result || phase == Response) {
        if error == OK && phase != Response { CommitInitiator(io); } else if error != OK { Finish(error, io); }
      }
    }

    /** `process_event` for a message. */
    method ProcessMessage(e: Incoming, io: Io)
      requires State().HasChannel()
      modifies this
      ensures State() == PairingSteps.ProcessMessage(old(State()), e, io)
    {
      hide Sent, PairingSteps.AnswerDiscovery, Suspend, PairingSteps.CollectCandidate, PairingSteps.RespondPair,
        PairingSteps.AcceptResponse, PairingSteps.AcceptConfirm, PairingSteps.ProcessResult, Admitted;
      var admitted := Admits(e);
      if !admitted { return; }
      var same := IsSameTransaction(e);
      match e.message
      case ResultQuery(nonce) =>
        if completed.nonce != 0 && completed.peer == e.source && completed.nonce == nonce && e.source in runtime {
          var sent := Send(completed.peer, PairResult(completed.nonce, OK), true, io.sendOk);
        }
      case Ping(_) =>
        if phase == Listening {
          SuspendPeer(e.source);
          AnswerDiscovery(e, io);
        } else if phase == WaitConfirm {
          AnswerDiscovery(e, io);
        }
      case DiscoveryResponse(_, _) => if phase == Discovery { CollectCandidate(e); }
      case DiscoveryInfo(_, _, _) => if phase == Discovery { CollectCandidate(e); }
      case PairRequest(_) => if phase != Idle && !initiator { RespondPair(e, io); }
      case PairRequestV2(_, _) => if phase != Idle && !initiator { RespondPair(e, io); }
      case PairResponse(_, lmk) => if phase == Response { AcceptResponse(e, lmk, false, io); }
      case PairResponseV2(_, lmk) => if phase == Response { AcceptResponse(e, lmk, true, io); }
      case PairConfirm(nonce) =>
        if phase == Responding && same { confirmPending := true; }
        else { AcceptConfirm(e.source, nonce, io); }
      case PairResult(_, error) => ProcessResult(e, error, io);
      case PairRefusal(_, _, error) => ProcessResult(e, error, io);
    }

    // ---- time and sessions ----

    method AskAgain(io: Io)
      requires State().HasChannel()
      modifies this
      ensures State() == PairingSteps.AskAgain(old(State()), io)
    {
      hide PairingSteps.NextChannel, PairingSteps.RequestPair;
      requestAttempt := requestAttempt + 1;
      if requestAttempt <= REQUEST_ATTEMPTS {
        var sent := RequestPair(io.sendOk);
      } else {
        scanError := TIMEOUT;
        NextChannel(io);
      }
    }

    method QueryAgain(io: Io)
      requires State().HasChannel()
      modifies this
      ensures State() == PairingSteps.QueryAgain(old(State()), io)
    {
      hide PairingSteps.NextChannel, Sent;
      requestAttempt := requestAttempt + 1;
      if requestAttempt <= REQUEST_ATTEMPTS {
        var sent := Send(transaction.peer, ResultQuery(transaction.nonce), true, io.sendOk);
      } else {
        scanError := TIMEOUT;
        NextChannel(io);
      }
    }

    method PhaseTimeout(io: Io)
      requires State().HasChannel()
      modifies this
      ensures State() == PairingSteps.PhaseTimeout(old(State()), io)
    {
      hide PairingSteps.Finish, PairingSteps.ChooseCandidate, PairingSteps.NextChannel, PairingSteps.AskAgain,
        PairingSteps.QueryAgain, Rollback, ReportResult;
      match phase
      case Discovery => ChooseCandidate(io);
      case Response => AskAgain(io);
      case Confirm =>
        scanError := TIMEOUT;
        NextChannel(io);
      case Result => QueryAgain(io);
      case Responding => ListenAgain(TIMEOUT);
      case WaitConfirm => ListenAgain(TIMEOUT);
      case SendResult => Finish(if transaction.committed then TIMEOUT else scanError, io);
      case _ =>
    }

    method Tick(windowElapsed: bool, phaseElapsed: bool, io: Io)
      requires State().HasChannel()
      modifies this
      ensures State() == PairingSteps.Tick(old(State()), windowElapsed, phaseElapsed, io)
    {
      hide PairingSteps.Finish, PairingSteps.PhaseTimeout;
      if phase == Idle { return; }
      if !io.active {
        Finish(INVALID_STATE, io);
        return;
      }
      if windowElapsed {
        Finish(if !initiator || scanError == OK then TIMEOUT else scanError, io);
        return;
      }
      if phaseElapsed { PhaseTimeout(io); }
    }

    /** The START event; `list` is what `prepare_channels` lists. */
    method Start(list: seq<nat>, io: Io)
      requires list != []
      modifies this
      ensures State() == StartInitiator(old(State()), list, io)
    {
      hide PairingSteps.ScanChannel;
      if phase != Idle { return; }
      PrepareChannels(list);
      ScanChannel(io);
    }

    /** `prepare_channels`. */
    method PrepareChannels(list: seq<nat>)
      modifies this`initiator, this`scanError, this`scan
      ensures
        var n := old(State());
        State() == n.(initiator := true, scanError := NOT_FOUND,
                      scan := n.scan.(channels := list, channelIndex := 0, channelAttempt := 0,
                                      restoreChannel := n.scan.wifiChannel))
    {
      initiator, scanError := true, NOT_FOUND;
      scan := scan.(channels := list, channelIndex := 0, channelAttempt := 0, restoreChannel := scan.wifiChannel);
    }

    /** The LISTEN event. */
    method Listen()
      modifies this`initiator, this`scanError, this`phase
      ensures State() == StartResponder(old(State()))
    {
      if phase != Idle { return; }
      initiator, scanError, phase := false, NOT_FOUND, Listening;
    }

    method Cancel(io: Io)
      modifies this
      ensures State() == CancelSession(old(State()), io)
    {
      if phase != Idle { Finish(INVALID_STATE, io); }
    }

    /** `remove_saved_peer`. */
    method RemoveSavedPeer(peer: Mac, ok: bool)
      modifies this`store, this`runtime
      ensures State() == Forget(old(State()), peer, ok)
    {
      if phase != Idle || peer !in store || !ok { return; }
      store := Removed(store, peer);
      runtime := Removed(runtime, peer);
    }

    /** A restart: the peers come back from NVS, the session is gone. */
    method Restart()
      modifies this
      ensures State() == Restarted(old(State()))
    {
      hide Restored;
      runtime := Restored(store, map[]);
      ForgetSession();
      ForgetScan();
    }

    method ForgetSession()
      modifies this`phase, this`transaction, this`completed, this`initiator, this`peersSuspended, this`confirmPending
      ensures State() == old(State()).(phase := Idle, tx := NO_TRANSACTION, completed := NO_TRANSACTION,
                                       initiator := false, suspended := false, confirmPending := false)
    {
      ForgetTransactions();
      initiator, peersSuspended, confirmPending := false, false, false;
    }

    method ForgetTransactions()
      modifies this`phase, this`transaction, this`completed
      ensures State() == old(State()).(phase := Idle, tx := NO_TRANSACTION, completed := NO_TRANSACTION)
    {
      phase, transaction, completed := Idle, NO_TRANSACTION, NO_TRANSACTION;
    }

    method ForgetScan()
      modifies this`nextToken, this`scan
      ensures State() == old(State()).(nextToken := 1, scan := Scan([], false, [0], 0, 0, old(scan.wifiChannel), 1))
    {
      nextToken := 1;
      scan := Scan([], false, [0], 0, 0, scan.wifiChannel, 1);
    }

    // ---- one turn ----

    /** Everything the pairing task does for one event, timeout or call. It keeps the invariant of the device, and so:
        an idle device has every saved peer installed with its saved key; an initiator's session that ends without
        reporting success has left the saved peers as they were; and a responder stays within the peer limit. */
    method Turn(input: Input, io: Io)
      requires NodeOk(State()) && Sane(State(), input, io)
      modifies this
      ensures State() == Step(old(State()), input, io) && NodeOk(State())
      ensures phase == Idle ==> forall m :: m in store ==> m in runtime && runtime[m] == Encrypted(store[m].key)
      ensures old(InitiatorPhase(phase)) ==>
                if InitiatorPhase(phase) then store == old(store) && reports == old(reports)
                else SessionOver(old(State()), State())
      ensures old((phase == Listening || ResponderPhase(phase)) && config.peerLimit >= 1
                  && |store| <= config.peerLimit) ==>
                |store| <= old(config.peerLimit)
    {
      hide State, NodeOk, Sane, Step, StartInitiator, StartResponder, CancelSession, Restarted, Forget,
        PairingSteps.ProcessMessage, PairingSteps.ProcessCallback, PairingSteps.Tick, SessionOver;
      TurnFacts(State(), input, io);
      Dispatch(input, io);
      StateFields();
    }

    /** The task loop's branch on what has come in. */
    method Dispatch(input: Input, io: Io)
      requires State().HasChannel()
      modifies this
      ensures State() == Step(old(State()), input, io)
    {
      hide State, StartInitiator, StartResponder, CancelSession, Restarted, Forget, PairingSteps.ProcessMessage,
        PairingSteps.ProcessCallback, PairingSteps.Tick;
      match input
      case InStart(list) => if list != [] { Start(list, io); }
      case InListen => Listen();
      case InCancel => Cancel(io);
      case InRestart => Restart();
      case InForget(peer, ok) => RemoveSavedPeer(peer, ok);
      case InMessage(e) => ProcessMessage(e, io);
      case InCallback(callback, token, done) => ProcessCallback(callback, token, done, io);
      case InTick(windowElapsed, phaseElapsed) => Tick(windowElapsed, phaseElapsed, io);
    }

    twostate lemma StateFields()
      ensures State().phase == phase && State().store == store && State().runtime == runtime
              && State().reports == reports
      ensures State().config == config && old(State()).phase == old(phase) && old(State()).store == old(store)
      ensures old(State()).reports == old(reports) && old(State()).config == old(config)
    {
    }
  }

  /** What one turn keeps and leaves behind. */
  lemma TurnFacts(n: Node, input: Input, io: Io)
    requires NodeOk(n) && Sane(n, input, io)
    ensures n.HasChannel()
    ensures
      var n' := Step(n, input, io);
      && NodeOk(n')
      && (n'.phase == Idle ==>
            forall m :: m in n'.store ==> m in n'.runtime && n'.runtime[m] == Encrypted(n'.store[m].key))
      && (InitiatorPhase(n.phase) ==>
            if InitiatorPhase(n'.phase) then n'.store == n.store && n'.reports == n.reports else SessionOver(n, n'))
      && ((n.phase == Listening || ResponderPhase(n.phase)) && n.config.peerLimit >= 1
          && |n.store| <= n.config.peerLimit ==>
            |n'.store| <= n.config.peerLimit)
  {
    hide NodeOk, Step, SessionOver, InitiatorOutcome;
    StepFine(n, input, io);
    var n' := Step(n, input, io);
    IdleInstalled(n');
    if InitiatorPhase(n.phase) {
      InitiatorStep(n, input, io);
      OutcomeFacts(n, n');
    } else if (n.phase == Listening || ResponderPhase(n.phase)) && n.config.peerLimit >= 1
              && |n.store| <= n.config.peerLimit {
      ResponderKeepsLimit(n, input, io);
    }
  }

  lemma {:induction false} AcceptableSnoc(config: Config, candidates: seq<Candidate>, c: Candidate)
    ensures AcceptableOnes(config, candidates + [c])
         == AcceptableOnes(config, candidates) + if Acceptable(config, c) then [c] else []
  {
    hide Acceptable;
    if candidates == [] {
      assert [c][1..] == [];
    } else {
      AcceptableSnoc(config, candidates[1..], c);
      assert (candidates + [c])[1..] == candidates[1..] + [c];
    }
  }

  lemma KeyTaken(n: Node, lmk: Key)
    ensures TakeKey(n, lmk).tx == n.tx.(lmk := lmk) && TakeKey(n, lmk).scan == n.scan
    ensures InstallKey(n).tx == n.tx && InstallKey(n).scan == n.scan
  {
  }

  lemma UnsentChangesNothing(n: Node, destination: Mac, message: Message, reliable: bool, ok: bool)
    ensures !SendOk(n, destination, reliable, ok) ==> Sent(n, destination, message, reliable, ok) == n
  {
  }

  lemma SaveKeepsTheRest(n: Node)
    ensures
      var s := PairingSteps.SavePeer(n);
      s == n.(store := s.store, runtime := s.runtime, ledger := s.ledger) && s.ledger.confirmed == n.ledger.confirmed
  {
  }
}
