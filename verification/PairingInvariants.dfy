/** What every pairing step of one device keeps, whatever messages and callbacks it gets. */
module PairingInvariants {
  import opened Basics
  import opened PairingSteps

  // ---- phases ----

  predicate InitiatorPhase(p: Phase) {
    p == Discovery || p == Response || p == Confirm || p == Result
  }

  predicate ResponderPhase(p: Phase) {
    p == Responding || p == WaitConfirm || p == SendResult
  }

  /** Phases in which the transaction's key is installed for its peer. */
  predicate Keyed(p: Phase) {
    p == Confirm || p == Result || p == WaitConfirm || p == SendResult
  }

  predicate RealAddress(m: Mac) {
    m != NO_MAC && m != BROADCAST
  }

  /** The phase, the session flag, the role and the transaction fit together. */
  ghost predicate PhaseFits(n: Node) {
    && n.HasChannel()
    && (InitiatorPhase(n.phase) ==> n.initiator && n.tx.nonce != 0 && !n.tx.committed)
    && (n.phase == Listening || ResponderPhase(n.phase) ==> !n.initiator)
    && (n.phase == Idle || n.phase == Listening ==> n.tx == NO_TRANSACTION)
    && (n.phase == Idle ==> !n.suspended)
    && (n.phase == Discovery ==> n.tx.peer == NO_MAC)
    && (n.phase == Response || n.phase == Confirm || n.phase == Result || ResponderPhase(n.phase) ==>
          n.tx.nonce != 0 && RealAddress(n.tx.peer))
    && (n.phase == Responding || n.phase == WaitConfirm ==> !n.tx.committed)
    && (n.confirmPending ==> n.phase == Responding)
    && (Keyed(n.phase) ==> Installed(n.runtime, n.tx.peer, n.tx.lmk))
    && (n.tx.committed ==> n.tx.peer in n.store && n.store[n.tx.peer].key == n.tx.lmk)
  }

  ghost predicate CandidatesReal(candidates: seq<Candidate>) {
    forall i :: 0 <= i < |candidates| ==> RealAddress(candidates[i].address)
  }

  // ---- saved peers and run-time peers ----

  predicate Installed(runtime: map<Mac, Mode>, m: Mac, key: Key) {
    m in runtime && runtime[m] == Encrypted(key)
  }

  /** The peer being paired, while its old binding is out of force. */
  function Pairing(tx: Transaction): Option<Mac> {
    if tx.nonce != 0 && !tx.committed then Some(tx.peer) else None
  }

  /** A saved peer is installed with its saved key, unless it is the peer being paired or a session has suspended it. */
  ghost predicate BindingsLive(store: map<Mac, Saved>, runtime: map<Mac, Mode>, suspended: bool, pairing: Option<Mac>) {
    forall m :: m in store ==>
      RealAddress(m) && (Installed(runtime, m, store[m].key) || suspended || pairing == Some(m))
  }

  // ---- keys ----

  ghost predicate LedgerOk(address: Mac, l: Ledger) {
    && (forall p :: p in l.everSaved ==> p.1 in l.held)
    && (forall k :: k in l.births ==> k in l.held && k.owner == address)
    && (forall c :: c in l.agreed ==> c in l.kinds && l.kinds[c] == l.agreed[c].extended)
    && (forall c :: c in l.kinds ==> c in l.noncesUsed)
  }

  ghost predicate StoreTraced(l: Ledger, store: map<Mac, Saved>) {
    forall m :: m in store ==> (m, store[m].key) in l.everSaved
  }

  function CurrentKey(phase: Phase, tx: Transaction): Option<(Mac, Key)> {
    if Keyed(phase) then Some((tx.peer, tx.lmk)) else None
  }

  /** A key installed for a peer was saved for that peer, or is the one being paired. */
  ghost predicate RuntimeTraced(l: Ledger, runtime: map<Mac, Mode>, current: Option<(Mac, Key)>) {
    forall m :: m in runtime && runtime[m].Encrypted? ==>
      (m, runtime[m].key) in l.everSaved || current == Some((m, runtime[m].key))
  }

  /** The transaction's key and nonce, phase by phase: a responder's key was saved for the peer or generated for this
      transaction; an initiator's nonce is new until a request goes out under it and has no key until one is settled. */
  ghost predicate TransactionTraced(l: Ledger, phase: Phase, tx: Transaction) {
    && (ResponderPhase(phase) ==>
          tx.lmk in l.held
          && ((tx.peer, tx.lmk) in l.everSaved
              || (tx.lmk in l.births && l.births[tx.lmk] == Birth(tx.peer, tx.nonce, tx.extended))))
    && (phase == Discovery ==> tx.nonce in l.noncesUsed && tx.nonce !in l.kinds)
    && (phase == Response ==> tx.nonce in l.kinds && l.kinds[tx.nonce] == tx.extended && tx.nonce !in l.agreed)
    && (phase == Confirm || phase == Result ==>
          tx.lmk in l.held && tx.nonce in l.agreed && l.agreed[tx.nonce] == Agreement(tx.peer, tx.lmk, tx.extended))
    && (tx.committed && ResponderPhase(phase) ==> (tx.peer, tx.nonce) in l.confirmed)
  }

  // ---- messages sent ----

  ghost predicate OfferTraced(l: Ledger, m: Mac, nonce: nat, key: Key) {
    (m, key) in l.everSaved || (key in l.births && l.births[key].peer == m && l.births[key].nonce == nonce)
  }

  /** What a message sent says about its sender. */
  ghost predicate Backed(l: Ledger, m: Mac, message: Message) {
    match message
    case PairResponse(nonce, key) => RealAddress(m) && OfferTraced(l, m, nonce, key)
    case PairResponseV2(nonce, key) => RealAddress(m) && OfferTraced(l, m, nonce, key)
    case PairRequest(nonce) => nonce in l.kinds && !l.kinds[nonce]
    case PairRequestV2(nonce, _) => nonce in l.kinds && l.kinds[nonce]
    case PairConfirm(nonce) => RealAddress(m) && nonce in l.agreed && l.agreed[nonce].peer == m
    case PairResult(nonce, error) => RealAddress(m) && (error == OK ==> (m, nonce) in l.confirmed)
    case PairRefusal(_, _, error) => error != OK
    case _ => true
  }

  ghost predicate MessagesBacked(l: Ledger, outbox: seq<Outgoing>) {
    forall i :: 0 <= i < |outbox| ==> Backed(l, outbox[i].destination, outbox[i].message)
  }

  ghost predicate CompletedBacked(l: Ledger, completed: Transaction) {
    completed.nonce != 0 ==> RealAddress(completed.peer) && (completed.peer, completed.nonce) in l.confirmed
  }

  // ---- capacity ----

  ghost predicate CapacityKept(n: Node) {
    && |n.store| <= MAX_SAVED_PEERS
    && (n.phase == Responding || n.phase == WaitConfirm ==> CapacityAvailable(n, n.tx.peer))
  }

  ghost predicate NodeOk(n: Node) {
    && PhaseFits(n)
    && CandidatesReal(n.scan.candidates)
    && BindingsLive(n.store, n.runtime, n.suspended, Pairing(n.tx))
    && LedgerOk(n.address, n.ledger)
    && StoreTraced(n.ledger, n.store)
    && RuntimeTraced(n.ledger, n.runtime, CurrentKey(n.phase, n.tx))
    && TransactionTraced(n.ledger, n.phase, n.tx)
    && MessagesBacked(n.ledger, n.outbox)
    && CompletedBacked(n.ledger, n.completed)
    && CapacityKept(n)
  }

  /** A device before its first pairing, with peers restored at start-up. */
  ghost predicate FreshNode(n: Node) {
    && n.HasChannel() && n.phase == Idle && !n.suspended && !n.confirmPending
    && n.tx == NO_TRANSACTION && n.completed == NO_TRANSACTION && n.scan.candidates == []
    && n.store == map[] && n.runtime == map[]
    && n.ledger == Ledger({}, {}, map[], map[], map[], {}, [], {}) && n.outbox == []
  }

  lemma FreshNodeOk(n: Node)
    requires FreshNode(n)
    ensures NodeOk(n)
  {
  }

  /** A ledger only grows. */
  ghost predicate Extends(l: Ledger, l': Ledger) {
    && l.held <= l'.held && l.noncesUsed <= l'.noncesUsed && l.everSaved <= l'.everSaved && l.confirmed <= l'.confirmed
    && (forall k :: k in l.births ==> k in l'.births && l'.births[k] == l.births[k])
    && (forall c :: c in l.kinds ==> c in l'.kinds && l'.kinds[c] == l.kinds[c])
    && (forall c :: c in l.agreed ==> c in l'.agreed && l'.agreed[c] == l.agreed[c])
    && l.commits <= l'.commits
  }

  /** What every step keeps and lets grow. */
  ghost predicate Stepped(n: Node, n': Node) {
    NodeOk(n') && Extends(n.ledger, n'.ledger) && n'.address == n.address && n.outbox <= n'.outbox
  }

  // ---- building blocks ----

  /** Whatever was traced stays traced when the ledger grows. */
  lemma ExtendsKeeps(l: Ledger, l': Ledger, store: map<Mac, Saved>, runtime: map<Mac, Mode>,
                     current: Option<(Mac, Key)>, outbox: seq<Outgoing>, completed: Transaction)
    requires Extends(l, l')
    requires StoreTraced(l, store) && RuntimeTraced(l, runtime, current)
    requires MessagesBacked(l, outbox) && CompletedBacked(l, completed)
    ensures StoreTraced(l', store) && RuntimeTraced(l', runtime, current)
    ensures MessagesBacked(l', outbox) && CompletedBacked(l', completed)
  {
    forall i | 0 <= i < |outbox|
      ensures Backed(l', outbox[i].destination, outbox[i].message)
    {
      assert Backed(l, outbox[i].destination, outbox[i].message);
    }
  }

  lemma ExtendsRefl(l: Ledger)
    ensures Extends(l, l)
  {
  }

  lemma ExtendsTrans(l: Ledger, l': Ledger, l'': Ledger)
    requires Extends(l, l') && Extends(l', l'')
    ensures Extends(l, l'')
  {
  }

  lemma SentOk(n: Node, destination: Mac, message: Message, reliable: bool, ok: bool)
    requires NodeOk(n) && Backed(n.ledger, destination, message)
    ensures Stepped(n, Sent(n, destination, message, reliable, ok))
    ensures Sent(n, destination, message, reliable, ok)
            == n.(outbox := Sent(n, destination, message, reliable, ok).outbox)
  {
    ExtendsRefl(n.ledger);
    BackedSnoc(n.ledger, n.outbox, Outgoing(destination, message, reliable));
    hide BindingsLive, LedgerOk, StoreTraced, RuntimeTraced, MessagesBacked, Extends, Backed;
  }

  lemma BackedSnoc(l: Ledger, outbox: seq<Outgoing>, o: Outgoing)
    requires MessagesBacked(l, outbox) && Backed(l, o.destination, o.message)
    ensures MessagesBacked(l, outbox + [o])
  {
  }

  lemma RestoredIsLive(l: Ledger, store: map<Mac, Saved>, runtime: map<Mac, Mode>, current: Option<(Mac, Key)>)
    requires StoreTraced(l, store) && RuntimeTraced(l, runtime, current)
    requires forall m :: m in store ==> RealAddress(m)
    ensures BindingsLive(store, Restored(store, runtime), false, None)
    ensures RuntimeTraced(l, Restored(store, runtime), current)
  {
    var restored := Restored(store, runtime);
    forall m | m in restored && restored[m].Encrypted?
      ensures (m, restored[m].key) in l.everSaved || current == Some((m, restored[m].key))
    {
      if m in store { assert (m, store[m].key) in l.everSaved; } else { assert restored[m] == runtime[m]; }
    }
  }

  lemma RemovedIsTraced(l: Ledger, runtime: map<Mac, Mode>, p: Mac, key: Key)
    requires RuntimeTraced(l, runtime, None) || RuntimeTraced(l, runtime, Some((p, key)))
    ensures RuntimeTraced(l, Removed(runtime, p), None)
  {
  }

  lemma StoreIsReal(n: Node)
    requires NodeOk(n)
    ensures forall m :: m in n.store ==> RealAddress(m)
  {
  }

  /** Rolling back leaves no transaction, every saved peer installed or suspended, and no key that was not saved. */
  lemma RollbackFacts(n: Node)
    requires NodeOk(n)
    ensures
      var n' := Rollback(n);
      && n' == n.(runtime := n'.runtime, suspended := n'.suspended, tx := NO_TRANSACTION, confirmPending := false)
      && (n'.suspended ==> n.suspended)
      && RuntimeTraced(n.ledger, n'.runtime, None)
      && BindingsLive(n.store, n'.runtime, n'.suspended, None)
  {
    StoreIsReal(n);
    if n.tx.nonce != 0 && n.tx.peer != NO_MAC && !n.tx.committed {
      hide MessagesBacked, LedgerOk, Restored, Removed, BindingsLive, StoreTraced, RuntimeTraced;
      RemovedIsTraced(n.ledger, n.runtime, n.tx.peer, n.tx.lmk);
      RestoredIsLive(n.ledger, n.store, Removed(n.runtime, n.tx.peer), None);
    } else {
      hide MessagesBacked, LedgerOk, Restored, Removed;
      if n.tx.committed { assert (n.tx.peer, n.tx.lmk) in n.ledger.everSaved; }
    }
  }

  lemma ReportOk(n: Node, error: Error)
    requires NodeOk(n)
    ensures NodeOk(ReportResult(n, error))
  {
    hide BindingsLive, LedgerOk, StoreTraced, RuntimeTraced, MessagesBacked;
  }

  /** Back to listening after a failed transaction. */
  lemma ListenAgainOk(n: Node, error: Error)
    requires NodeOk(n) && n.phase != Idle && !n.initiator
    ensures Stepped(n, Rollback(ReportResult(n, error)).(phase := Listening))
  {
    hide Rollback, BindingsLive, LedgerOk, StoreTraced, RuntimeTraced, MessagesBacked, Extends, CandidatesReal;
    ReportOk(n, error);
    RollbackFacts(ReportResult(n, error));
    ExtendsRefl(n.ledger);
  }

  lemma FinishOk(n: Node, error: Error, io: Io)
    requires NodeOk(n)
    ensures
      var n' := Finish(n, error, io);
      && Stepped(n, n')
      && n'.phase == Idle && n'.store == n.store && n'.ledger == n.ledger && n'.outbox == n.outbox
      && n'.reports == n.reports + [Report(n.tx.peer, error, n.initiator, n.tx.extended)]
  {
    hide Rollback, BindingsLive, LedgerOk, StoreTraced, RuntimeTraced, MessagesBacked, CompletedBacked, Extends,
      Restored, CandidatesReal;
    var r := ReportResult(n, error);
    ReportOk(n, error);
    RollbackFacts(r);
    StoreIsReal(n);
    ExtendsRefl(n.ledger);
    RestoredIsLive(n.ledger, n.store, Rollback(r).runtime, None);
  }

  // ---- the initiator ----

  lemma NewNonceOk(address: Mac, l: Ledger, nonce: nat)
    requires LedgerOk(address, l) && nonce !in l.noncesUsed
    ensures
      var l' := l.(noncesUsed := l.noncesUsed + {nonce});
      LedgerOk(address, l') && Extends(l, l') && nonce !in l'.kinds && nonce in l'.noncesUsed
  {
  }

  /** Nothing is being paired: what a scan starts from. */
  ghost predicate Quiet(n: Node) {
    && n.HasChannel() && n.initiator && n.tx == NO_TRANSACTION && !n.confirmPending
    && |n.store| <= MAX_SAVED_PEERS
    && BindingsLive(n.store, n.runtime, n.suspended, None)
    && LedgerOk(n.address, n.ledger)
    && StoreTraced(n.ledger, n.store)
    && RuntimeTraced(n.ledger, n.runtime, None)
    && MessagesBacked(n.ledger, n.outbox)
    && CompletedBacked(n.ledger, n.completed)
  }

  lemma StartScanOk(n: Node, io: Io)
    requires Quiet(n) && FreshNonce(n, io)
    ensures Scanned(n, StartScan(n, io), io)
  {
    hide BindingsLive, LedgerOk, StoreTraced, RuntimeTraced, MessagesBacked, Extends, CompletedBacked, Backed;
    var l' := n.ledger.(noncesUsed := n.ledger.noncesUsed + {io.nonce});
    NewNonceOk(n.address, n.ledger, io.nonce);
    ExtendsKeeps(n.ledger, l', n.store, n.runtime, None, n.outbox, n.completed);
    BackedSnoc(l', n.outbox, Outgoing(BROADCAST, Ping(io.nonce), false));
    BindingsForPairing(n.store, n.runtime, n.suspended, Some(NO_MAC));
  }

  /** A scan step: a new nonce, the discovery phase, nothing saved. */
  ghost predicate Scanned(n: Node, n': Node, io: Io) {
    && Stepped(n, n') && n'.phase == Discovery && n'.store == n.store && n'.reports == n.reports
    && n'.ledger == n.ledger.(noncesUsed := n.ledger.noncesUsed + {io.nonce})
  }

  lemma NextChannelOk(n: Node, io: Io)
    requires NodeOk(n) && InitiatorPhase(n.phase) && FreshNonce(n, io)
    ensures Scanned(n, NextChannel(n, io), io)
  {
    var n1 := n.(scan := Advanced(n.scan));
    RollbackFacts(n1);
    StartScanOk(Rollback(n1), io);
    hide Rollback, BindingsLive, LedgerOk, StoreTraced, RuntimeTraced, MessagesBacked, Extends, StartScan;
  }

  lemma StartInitiatorOk(n: Node, channels: seq<nat>, io: Io)
    requires NodeOk(n) && FreshNonce(n, io) && channels != []
    ensures Stepped(n, StartInitiator(n, channels, io))
  {
    ExtendsRefl(n.ledger);
    if n.phase == Idle {
      var n1 := n.(initiator := true, scanError := NOT_FOUND,
                   scan := n.scan.(channels := channels, channelIndex := 0, channelAttempt := 0,
                                   restoreChannel := n.scan.wifiChannel));
      StartScanOk(Rollback(n1), io);
    }
    hide BindingsLive, LedgerOk, StoreTraced, RuntimeTraced, MessagesBacked, Extends, StartScan;
  }

  lemma BindingsForPairing(store: map<Mac, Saved>, runtime: map<Mac, Mode>, suspended: bool, pairing: Option<Mac>)
    requires BindingsLive(store, runtime, suspended, None)
    ensures BindingsLive(store, runtime, suspended, pairing)
  {
  }
}
