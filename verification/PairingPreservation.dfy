/** Every pairing step keeps the invariant of its device, and changes the ledger only as the input explains. */
module PairingPreservation {
  import opened Basics
  import opened PairingSteps
  import opened PairingInvariants

  /** A message from this source, if there is one. */
  predicate Says(m: Option<Incoming>, source: Mac, message: Message) {
    m.Some? && m.value.source == source && m.value.message == message
  }

  predicate SaysOk(m: Option<Incoming>, source: Mac, nonce: nat) {
    m.Some? && m.value.source == source && m.value.message.nonce == nonce
    && ((m.value.message.PairResult? && m.value.message.error == OK)
        || (m.value.message.PairRefusal? && m.value.message.error == OK))
  }

  predicate SaysResponse(m: Option<Incoming>, source: Mac, nonce: nat, key: Key) {
    Says(m, source, PairResponse(nonce, key)) || Says(m, source, PairResponseV2(nonce, key))
  }

  predicate SaysRequest(m: Option<Incoming>, birth: Birth) {
    m.Some? && m.value.source == birth.peer && m.value.message.nonce == birth.nonce
    && (if birth.extended then m.value.message.PairRequestV2? else m.value.message.PairRequest?)
  }

  /** A key is settled only by a response of the peer being asked, under the current nonce. */
  ghost predicate AgreedExplained(n: Node, n': Node, m: Option<Incoming>) {
    || n'.ledger.agreed == n.ledger.agreed
    || (&& n.phase == Response && n.tx.nonce !in n.ledger.agreed
        && n.tx.nonce in n'.ledger.agreed
        && n'.ledger.agreed[n.tx.nonce].peer == n.tx.peer
        && n'.ledger.agreed[n.tx.nonce].extended == n.tx.extended
        && n'.ledger.agreed == n.ledger.agreed[n.tx.nonce := n'.ledger.agreed[n.tx.nonce]]
        && SaysResponse(m, n.tx.peer, n.tx.nonce, n'.ledger.agreed[n.tx.nonce].key))
  }

  /** Only the transaction's peer is saved, with the transaction's key: by a responder on a confirmation, by an
      initiator on a successful result - or, with a legacy peer, on an acknowledged confirmation. */
  ghost predicate SavedExplained(n: Node, n': Node, m: Option<Incoming>) {
    || (n'.ledger.everSaved == n.ledger.everSaved && n'.ledger.commits == n.ledger.commits
        && n'.ledger.confirmed == n.ledger.confirmed)
    || (&& n'.ledger.everSaved == n.ledger.everSaved + {(n.tx.peer, n.tx.lmk)}
        && (n.phase == Confirm || n.phase == Result)
        && n'.ledger.commits == n.ledger.commits + [Agreement(n.tx.peer, n.tx.lmk, n.tx.extended)]
        && n'.ledger.confirmed == n.ledger.confirmed
        && (n.tx.extended ==> SaysOk(m, n.tx.peer, n.tx.nonce)))
    || (&& n'.ledger.everSaved == n.ledger.everSaved + {(n.tx.peer, n.tx.lmk)}
        && (n.phase == Responding || n.phase == WaitConfirm)
        && n'.ledger.commits == n.ledger.commits
        && n'.ledger.confirmed == n.ledger.confirmed + {(n.tx.peer, n.tx.nonce)}
        && (n.confirmPending || Says(m, n.tx.peer, PairConfirm(n.tx.nonce)))
        && (n'.tx.committed || n'.tx == NO_TRANSACTION))
  }

  /** A key is generated only for a request. */
  ghost predicate BirthsExplained(n: Node, n': Node, m: Option<Incoming>, io: Io) {
    || n'.ledger.births == n.ledger.births
    || (&& io.key in n'.ledger.births
        && n'.ledger.births == n.ledger.births[io.key := n'.ledger.births[io.key]]
        && SaysRequest(m, n'.ledger.births[io.key]))
  }

  /** Where a transaction in a keyed phase comes from. */
  ghost predicate TransactionExplained(n: Node, n': Node, m: Option<Incoming>, io: Io) {
    && (n'.phase == Confirm || n'.phase == Result ==>
          || ((n.phase == Confirm || n.phase == Result) && n'.tx == n.tx)
          || (n.phase == Response && n'.tx.nonce == n.tx.nonce))
    && (ResponderPhase(n'.phase) && !n'.tx.committed ==>
          || (ResponderPhase(n.phase) && n'.tx == n.tx && n'.ledger.confirmed == n.ledger.confirmed)
          || (n.phase == Listening && n'.ledger.confirmed == n.ledger.confirmed
              && (n'.tx.lmk == io.key || (n'.tx.peer, n'.tx.lmk) in n.ledger.everSaved)))
    && (n'.confirmPending ==>
          n'.tx == n.tx && (n.confirmPending || Says(m, n.tx.peer, PairConfirm(n.tx.nonce))))
  }

  ghost predicate Explained(n: Node, n': Node, m: Option<Incoming>, io: Io) {
    && AgreedExplained(n, n', m)
    && SavedExplained(n, n', m)
    && BirthsExplained(n, n', m, io)
    && TransactionExplained(n, n', m, io)
  }

  /** A step that leaves the ledger alone, up to a new nonce, and ends without a keyed transaction. */
  ghost predicate Quieted(n: Node, n': Node) {
    && (n'.phase == Idle || n'.phase == Listening || n'.phase == Discovery || n'.phase == Response)
    && n'.ledger.agreed == n.ledger.agreed && n'.ledger.everSaved == n.ledger.everSaved
    && n'.ledger.commits == n.ledger.commits && n'.ledger.confirmed == n.ledger.confirmed
    && n'.ledger.births == n.ledger.births
  }

  lemma QuietedExplained(n: Node, n': Node, m: Option<Incoming>, io: Io)
    requires NodeOk(n') && Quieted(n, n')
    ensures Explained(n, n', m, io)
  {
  }

  lemma UnchangedExplained(n: Node, n': Node, m: Option<Incoming>, io: Io)
    requires n'.ledger == n.ledger && n'.tx == n.tx && n'.phase == n.phase && n'.confirmPending == n.confirmPending
    ensures Explained(n, n', m, io)
  {
  }

  // ---- the initiator ----

  lemma NextChannelFine(n: Node, m: Option<Incoming>, io: Io)
    requires NodeOk(n) && InitiatorPhase(n.phase) && FreshNonce(n, io)
    ensures Stepped(n, NextChannel(n, io)) && Explained(n, NextChannel(n, io), m, io)
  {
    NextChannelOk(n, io);
    QuietedExplained(n, NextChannel(n, io), m, io);
    hide NodeOk, NextChannel, Explained, Extends;
  }

  lemma FinishFine(n: Node, error: Error, m: Option<Incoming>, io: Io)
    requires NodeOk(n)
    ensures Stepped(n, Finish(n, error, io)) && Explained(n, Finish(n, error, io), m, io)
  {
    FinishOk(n, error, io);
    QuietedExplained(n, Finish(n, error, io), m, io);
    hide NodeOk, Finish, Explained, Extends;
  }

  lemma ListenAgainFine(n: Node, error: Error, m: Option<Incoming>, io: Io)
    requires NodeOk(n) && n.phase != Idle && !n.initiator
    ensures
      var n' := Rollback(ReportResult(n, error)).(phase := Listening);
      Stepped(n, n') && Explained(n, n', m, io)
  {
    ListenAgainOk(n, error);
    QuietedExplained(n, Rollback(ReportResult(n, error)).(phase := Listening), m, io);
    hide NodeOk, Explained, Extends;
  }

  /** Fields that no invariant looks at. */
  lemma RetouchedOk(n: Node, scanError: Error, attempt: nat)
    requires NodeOk(n)
    ensures NodeOk(n.(scanError := scanError, requestAttempt := attempt))
  {
    hide BindingsLive, LedgerOk, StoreTraced, RuntimeTraced, MessagesBacked;
  }

  lemma {:induction false} AcceptableAreCandidates(config: Config, candidates: seq<Candidate>)
    requires CandidatesReal(candidates)
    ensures CandidatesReal(AcceptableOnes(config, candidates))
  {
    if candidates == [] {
    } else {
      AcceptableAreCandidates(config, candidates[1..]);
    }
  }

  lemma {:induction false} CollectedReal(candidates: seq<Candidate>, e: Incoming)
    requires CandidatesReal(candidates) && RealAddress(e.source)
    requires e.message.DiscoveryResponse? || e.message.DiscoveryInfo?
    ensures CandidatesReal(Collected(candidates, e))
  {
  }

  lemma RescannedOk(n: Node, scan: Scan)
    requires NodeOk(n) && scan.channelIndex < |scan.channels| && CandidatesReal(scan.candidates)
    ensures Stepped(n, n.(scan := scan))
  {
    ExtendsRefl(n.ledger);
    hide BindingsLive, LedgerOk, StoreTraced, RuntimeTraced, MessagesBacked, Extends, CandidatesReal;
  }

  lemma CollectFine(n: Node, e: Incoming, io: Io)
    requires NodeOk(n) && RealAddress(e.source) && (e.message.DiscoveryResponse? || e.message.DiscoveryInfo?)
    ensures Stepped(n, CollectCandidate(n, e)) && Explained(n, CollectCandidate(n, e), Some(e), io)
  {
    CollectedReal(n.scan.candidates, e);
    RescannedOk(n, n.scan);
    RescannedOk(n, n.scan.(overflow := true));
    RescannedOk(n, n.scan.(candidates := Collected(n.scan.candidates, e)));
    hide NodeOk, Stepped, Explained, Collected, FindCandidate;
    UnchangedExplained(n, CollectCandidate(n, e), Some(e), io);
  }

  lemma KindOk(address: Mac, l: Ledger, nonce: nat, extended: bool)
    requires LedgerOk(address, l) && nonce in l.noncesUsed && nonce !in l.kinds
    ensures
      var l' := l.(kinds := l.kinds[nonce := extended]);
      LedgerOk(address, l') && Extends(l, l') && nonce !in l'.agreed
  {
  }

  lemma PlainIsTraced(l: Ledger, runtime: map<Mac, Mode>, m: Mac, current: Option<(Mac, Key)>)
    requires RuntimeTraced(l, runtime, None)
             || (current.Some? && RuntimeTraced(l, runtime, current) && current.value.0 == m)
    ensures RuntimeTraced(l, runtime[m := Plain], None)
  {
  }

  lemma BindingsBut(store: map<Mac, Saved>, runtime: map<Mac, Mode>, suspended: bool, pairing: Option<Mac>, m: Mac,
                    mode: Mode)
    requires BindingsLive(store, runtime, suspended, pairing)
    requires pairing == Some(m) || pairing == None || pairing == Some(NO_MAC)
    ensures BindingsLive(store, runtime[m := mode], suspended, Some(m))
  {
  }

  lemma ChosenOk(n: Node, c: Candidate, io: Io)
    requires NodeOk(n) && n.phase == Discovery && RealAddress(c.address)
    ensures Stepped(n, Chosen(n, c)) && Quieted(n, Chosen(n, c))
  {
    hide BindingsLive, LedgerOk, StoreTraced, RuntimeTraced, MessagesBacked, CompletedBacked, Extends, CandidatesReal;
    var l' := n.ledger.(kinds := n.ledger.kinds[n.tx.nonce := c.extended]);
    KindOk(n.address, n.ledger, n.tx.nonce, c.extended);
    PlainIsTraced(n.ledger, n.runtime, c.address, None);
    ExtendsKeeps(n.ledger, l', n.store, n.runtime[c.address := Plain], None, n.outbox, n.completed);
    BindingsBut(n.store, n.runtime, n.suspended, Pairing(n.tx), c.address, Plain);
  }

  lemma NamedRollback(n: Node, c: Candidate, scanError: Error, scan: Scan)
    requires NodeOk(n) && n.phase == Discovery && RealAddress(c.address)
    requires scan.channelIndex < |scan.channels| && CandidatesReal(scan.candidates)
    ensures Quiet(Rollback(n.(tx := Named(n.tx, c), scanError := scanError, scan := scan)))
  {
    StoreIsReal(n);
    RemovedIsTraced(n.ledger, n.runtime, c.address, ZERO_KEY);
    RestoredIsLive(n.ledger, n.store, Removed(n.runtime, c.address), None);
    hide BindingsLive, LedgerOk, StoreTraced, RuntimeTraced, MessagesBacked, Restored, Removed, CandidatesReal;
  }

  lemma NamedNextChannelFine(n: Node, c: Candidate, m: Option<Incoming>, io: Io)
    requires NodeOk(n) && n.phase == Discovery && RealAddress(c.address) && FreshNonce(n, io)
    ensures
      var n' := NextChannel(n.(tx := Named(n.tx, c), scanError := OTHER), io);
      Stepped(n, n') && Explained(n, n', m, io)
  {
    var scan := Advanced(n.scan);
    NamedRollback(n, c, OTHER, scan);
    StartScanOk(Rollback(n.(tx := Named(n.tx, c), scanError := OTHER, scan := scan)), io);
    var n' := NextChannel(n.(tx := Named(n.tx, c), scanError := OTHER), io);
    assert Scanned(Rollback(n.(tx := Named(n.tx, c), scanError := OTHER, scan := scan)), n', io);
    hide NodeOk, Explained, Extends, NextChannel, StartScan;
    QuietedExplained(n, n', m, io);
  }

  lemma RequestPairOk(n: Node, ok: bool)
    requires NodeOk(n) && n.phase == Response
    ensures Stepped(n, RequestPair(n, ok)) && RequestPair(n, ok) == n.(outbox := RequestPair(n, ok).outbox)
  {
    var message := if n.tx.extended then PairRequestV2(n.tx.nonce, n.config.localRole) else PairRequest(n.tx.nonce);
    SentOk(n, n.tx.peer, message, false, ok);
    hide Sent, Stepped;
  }

  lemma ChooseFine(n: Node, io: Io)
    requires NodeOk(n) && n.phase == Discovery && FreshNonce(n, io)
    ensures Stepped(n, ChooseCandidate(n, io)) && Explained(n, ChooseCandidate(n, io), None, io)
  {
    AcceptableAreCandidates(n.config, n.scan.candidates);
    var accepted := AcceptableOnes(n.config, n.scan.candidates);
    hide AcceptableOnes, NodeOk, Finish, NextChannel, RequestPair, Explained, Quieted, Extends, Chosen;
    if n.scan.overflow || |accepted| > 1 {
      FinishFine(n, INVALID_RESPONSE, None, io);
    } else if accepted == [] {
      NextChannelFine(n, None, io);
    } else if !io.addOk {
      NamedNextChannelFine(n, accepted[0], None, io);
    } else {
      ChosenRequestFine(n, accepted[0], io);
    }
  }

  lemma ChosenRequestFine(n: Node, c: Candidate, io: Io)
    requires NodeOk(n) && n.phase == Discovery && RealAddress(c.address)
    ensures
      var chosen := Chosen(n, c);
      var error := if SendOk(chosen, chosen.tx.peer, false, io.sendOk) then OK else OTHER;
      var n' := RequestPair(chosen, io.sendOk).(scanError := error);
      Stepped(n, n') && Explained(n, n', None, io)
  {
    ChosenOk(n, c, io);
    var chosen := Chosen(n, c);
    RequestPairOk(chosen, io.sendOk);
    var error := if SendOk(chosen, chosen.tx.peer, false, io.sendOk) then OK else OTHER;
    var sent := RequestPair(chosen, io.sendOk);
    RetouchedOk(sent, error, sent.requestAttempt);
    ExtendsTrans(n.ledger, chosen.ledger, sent.ledger);
    var n' := sent.(scanError := error);
    hide NodeOk, RequestPair, Explained, Extends;
    QuietedExplained(n, n', None, io);
  }

  // ---- the key arrives ----

  lemma TakenKeyOk(n: Node, lmk: Key)
    requires NodeOk(n) && n.phase == Response
    ensures Stepped(n, TakeKey(n, lmk)) && Quieted(n, TakeKey(n, lmk))
  {
    hide CompletedBacked, BindingsLive, StoreTraced, RuntimeTraced, MessagesBacked, CandidatesReal;
    var l' := n.ledger.(held := n.ledger.held + {lmk});
    ExtendsKeeps(n.ledger, l', n.store, n.runtime, None, n.outbox, n.completed);
  }

  lemma SettledOk(address: Mac, l: Ledger, nonce: nat, a: Agreement)
    requires LedgerOk(address, l) && nonce in l.kinds && l.kinds[nonce] == a.extended && nonce !in l.agreed
    ensures
      var l' := l.(agreed := l.agreed[nonce := a]);
      LedgerOk(address, l') && Extends(l, l')
  {
  }

  lemma InstalledIsTraced(l: Ledger, runtime: map<Mac, Mode>, m: Mac, key: Key)
    requires RuntimeTraced(l, runtime, None)
    ensures RuntimeTraced(l, runtime[m := Encrypted(key)], Some((m, key)))
  {
  }

  lemma BindingsReplaced(store: map<Mac, Saved>, runtime: map<Mac, Mode>, suspended: bool, m: Mac, mode: Mode)
    requires BindingsLive(store, runtime, suspended, Some(m))
    ensures BindingsLive(store, runtime[m := mode], suspended, Some(m))
  {
  }

  lemma InstalledKeyOk(n: Node)
    requires NodeOk(n) && n.phase == Response && n.tx.lmk in n.ledger.held
    ensures Stepped(n, InstallKey(n))
  {
    hide BindingsLive, LedgerOk, StoreTraced, RuntimeTraced, MessagesBacked, CompletedBacked, Extends, CandidatesReal;
    var l' := n.ledger.(agreed := n.ledger.agreed[n.tx.nonce := Agreement(n.tx.peer, n.tx.lmk, n.tx.extended)]);
    SettledOk(n.address, n.ledger, n.tx.nonce, Agreement(n.tx.peer, n.tx.lmk, n.tx.extended));
    InstalledIsTraced(n.ledger, n.runtime, n.tx.peer, n.tx.lmk);
    ExtendsKeeps(n.ledger, l', n.store, n.runtime[n.tx.peer := Encrypted(n.tx.lmk)], Some((n.tx.peer, n.tx.lmk)),
                 n.outbox, n.completed);
    BindingsReplaced(n.store, n.runtime, n.suspended, n.tx.peer, Encrypted(n.tx.lmk));
  }

  lemma KeyedOk(n: Node, lmk: Key)
    requires NodeOk(n) && n.phase == Response
    ensures Stepped(n, InstallKey(TakeKey(n, lmk)))
  {
    TakenKeyOk(n, lmk);
    InstalledKeyOk(TakeKey(n, lmk));
    ExtendsTrans(n.ledger, TakeKey(n, lmk).ledger, InstallKey(TakeKey(n, lmk)).ledger);
    hide NodeOk, Extends;
  }

  lemma ConfirmSentOk(n: Node, ok: bool)
    requires NodeOk(n) && n.phase == Confirm
    ensures Stepped(n, Sent(n, n.tx.peer, PairConfirm(n.tx.nonce), true, ok))
  {
    SentOk(n, n.tx.peer, PairConfirm(n.tx.nonce), true, ok);
  }

  lemma AcceptResponseFine(n: Node, e: Incoming, lmk: Key, extended: bool, io: Io)
    requires NodeOk(n) && n.phase == Response && FreshNonce(n, io)
    requires e.message == if extended then PairResponseV2(e.message.nonce, lmk) else PairResponse(e.message.nonce, lmk)
    ensures
      var n' := AcceptResponse(n, e, lmk, extended, io);
      Stepped(n, n') && Explained(n, n', Some(e), io)
  {
    if !SameTransaction(n, e) || n.tx.extended != extended {
      ExtendsRefl(n.ledger);
      UnchangedExplained(n, n, Some(e), io);
    } else if !io.addOk {
      KeyRefusedFine(n, e, lmk, io);
    } else {
      KeyInstalledFine(n, e, lmk, extended, io);
    }
  }

  lemma KeyRefusedFine(n: Node, e: Incoming, lmk: Key, io: Io)
    requires NodeOk(n) && n.phase == Response && FreshNonce(n, io)
    ensures
      var n' := NextChannel(TakeKey(n, lmk).(scanError := OTHER), io);
      Stepped(n, n') && Explained(n, n', Some(e), io)
  {
    TakenKeyOk(n, lmk);
    var n1 := TakeKey(n, lmk);
    RetouchedOk(n1, OTHER, n1.requestAttempt);
    var n2 := n1.(scanError := OTHER);
    NextChannelOk(n2, io);
    var n' := NextChannel(n2, io);
    ExtendsTrans(n.ledger, n1.ledger, n'.ledger);
    hide NodeOk, NextChannel, Explained, Extends;
    QuietedExplained(n, n', Some(e), io);
  }

  lemma SettledExplained(n: Node, n': Node, e: Incoming, lmk: Key, extended: bool, io: Io)
    requires n.phase == Response && SameTransaction(n, e) && n.tx.extended == extended && n.tx.nonce !in n.ledger.agreed
    requires e.message == if extended then PairResponseV2(e.message.nonce, lmk) else PairResponse(e.message.nonce, lmk)
    requires n'.ledger.agreed == n.ledger.agreed[n.tx.nonce := Agreement(n.tx.peer, lmk, extended)]
    requires n'.ledger.everSaved == n.ledger.everSaved && n'.ledger.commits == n.ledger.commits
    requires n'.ledger.confirmed == n.ledger.confirmed && n'.ledger.births == n.ledger.births
    requires !n'.confirmPending && (n'.phase == Discovery || (n'.phase == Confirm && n'.tx.nonce == n.tx.nonce))
    ensures Explained(n, n', Some(e), io)
  {
  }

  lemma KeyInstalledFine(n: Node, e: Incoming, lmk: Key, extended: bool, io: Io)
    requires NodeOk(n) && n.phase == Response && FreshNonce(n, io) && SameTransaction(n, e) && n.tx.extended == extended
    requires e.message == if extended then PairResponseV2(e.message.nonce, lmk) else PairResponse(e.message.nonce, lmk)
    requires io.addOk
    ensures
      var n' := AcceptResponse(n, e, lmk, extended, io);
      Stepped(n, n') && Explained(n, n', Some(e), io)
  {
    KeyedOk(n, lmk);
    var n1 := InstallKey(TakeKey(n, lmk));
    var n' := AcceptResponse(n, e, lmk, extended, io);
    if SendOk(n1, n.tx.peer, true, io.sendOk) {
      ConfirmSentOk(n1, io.sendOk);
      var n2 := Sent(n1, n.tx.peer, PairConfirm(n.tx.nonce), true, io.sendOk);
      RetouchedOk(n2, OK, n2.requestAttempt);
      ExtendsTrans(n.ledger, n1.ledger, n2.ledger);
      assert n' == n2.(scanError := OK);
    } else {
      RetouchedOk(n1, OTHER, n1.requestAttempt);
      NextChannelOk(n1.(scanError := OTHER), io);
      ExtendsTrans(n.ledger, n1.ledger, n'.ledger);
    }
    NoTrace(n);
    NoTrace(n');
    hide NodeOk, Extends, NextChannel, Explained, Sent;
    SettledExplained(n, n', e, lmk, extended, io);
  }

  lemma NoTrace(n: Node)
    requires NodeOk(n)
    ensures n.confirmPending ==> n.phase == Responding
    ensures n.phase == Response ==> n.tx.nonce !in n.ledger.agreed
  {
  }

  // ---- saving ----

  predicate Savable(p: Phase) {
    p == Confirm || p == Result || p == WaitConfirm
  }

  lemma SavedBindings(n: Node)
    requires NodeOk(n) && Savable(n.phase)
    ensures
      var s := SavePeer(n);
      && BindingsLive(s.store, s.runtime, n.suspended, None)
      && Installed(s.runtime, n.tx.peer, n.tx.lmk)
      && n.tx.peer in s.store && s.store[n.tx.peer].key == n.tx.lmk
  {
    hide LedgerOk, StoreTraced, RuntimeTraced, MessagesBacked, CandidatesReal;
  }

  lemma SavedSize(n: Node, io: Io)
    requires |n.store| <= MAX_SAVED_PEERS && SaveError(n, io) == OK
    ensures |SavePeer(n).store| <= MAX_SAVED_PEERS
    ensures CapacityAvailable(n, n.tx.peer) && n.config.peerLimit >= 1 ==>
              |SavePeer(n).store| <= n.config.peerLimit || |SavePeer(n).store| <= |n.store|
  {
    if n.tx.peer in n.store {
      assert n.store[n.tx.peer := Saved(n.tx.lmk, n.tx.channel, n.tx.role)].Keys == n.store.Keys;
    }
  }

  lemma SavedTraces(n: Node)
    requires NodeOk(n) && Savable(n.phase)
    ensures
      var s := SavePeer(n);
      && Extends(n.ledger, s.ledger) && LedgerOk(n.address, s.ledger)
      && StoreTraced(s.ledger, s.store) && RuntimeTraced(s.ledger, s.runtime, None)
      && MessagesBacked(s.ledger, n.outbox) && CompletedBacked(s.ledger, n.completed)
  {
    hide MessagesBacked, CompletedBacked, BindingsLive, CandidatesReal;
    var s := SavePeer(n);
    ExtendsKeeps(n.ledger, s.ledger, n.store, n.runtime, CurrentKey(n.phase, n.tx), n.outbox, n.completed);
  }

  /** Finishing with a committed transaction: nothing to undo, only suspended peers to restore. */
  lemma CommittedFinish(n: Node, error: Error, io: Io)
    requires n.HasChannel() && n.tx.committed && |n.store| <= MAX_SAVED_PEERS && CandidatesReal(n.scan.candidates)
    requires BindingsLive(n.store, n.runtime, n.suspended, None) && LedgerOk(n.address, n.ledger)
    requires StoreTraced(n.ledger, n.store) && RuntimeTraced(n.ledger, n.runtime, None)
    requires MessagesBacked(n.ledger, n.outbox) && CompletedBacked(n.ledger, n.completed)
    ensures
      var n' := Finish(n, error, io);
      && NodeOk(n') && n'.phase == Idle && n'.tx == NO_TRANSACTION && !n'.confirmPending
      && n'.store == n.store && n'.ledger == n.ledger && n'.outbox == n.outbox && n'.address == n.address
      && n'.reports == n.reports + [Report(n.tx.peer, error, n.initiator, n.tx.extended)]
  {
    var runtime := if n.suspended then Restored(n.store, n.runtime) else n.runtime;
    if n.suspended {
      assert forall m :: m in n.store ==> RealAddress(m);
      RestoredIsLive(n.ledger, n.store, n.runtime, None);
    }
    CommittedFinishShape(n, error, io);
    var n' := Finish(n, error, io);
    assert BindingsLive(n'.store, n'.runtime, n'.suspended, None) && RuntimeTraced(n'.ledger, n'.runtime, None);
    hide BindingsLive, LedgerOk, StoreTraced, RuntimeTraced, MessagesBacked, Restored, CandidatesReal, Finish;
    IdleOk(n');
  }

  lemma CommittedFinishShape(n: Node, error: Error, io: Io)
    requires n.tx.committed
    ensures
      var n' := Finish(n, error, io);
      && n' == n.(runtime := if n.suspended then Restored(n.store, n.runtime) else n.runtime, suspended := false,
                  tx := NO_TRANSACTION, confirmPending := false, phase := Idle, scan := n'.scan,
                  reports := n.reports + [Report(n.tx.peer, error, n.initiator, n.tx.extended)])
      && n'.scan.channels == n.scan.channels && n'.scan.channelIndex == n.scan.channelIndex
      && n'.scan.candidates == n.scan.candidates
  {
    hide Restored;
  }

  lemma IdleOk(n: Node)
    requires n.phase == Idle && n.HasChannel() && n.tx == NO_TRANSACTION && !n.suspended && !n.confirmPending
    requires CandidatesReal(n.scan.candidates) && |n.store| <= MAX_SAVED_PEERS
    requires BindingsLive(n.store, n.runtime, n.suspended, None) && LedgerOk(n.address, n.ledger)
    requires StoreTraced(n.ledger, n.store) && RuntimeTraced(n.ledger, n.runtime, None)
    requires MessagesBacked(n.ledger, n.outbox) && CompletedBacked(n.ledger, n.completed)
    ensures NodeOk(n)
  {
  }

  lemma CommitsGrow(address: Mac, l: Ledger, a: Agreement, store: map<Mac, Saved>, runtime: map<Mac, Mode>,
                    outbox: seq<Outgoing>, completed: Transaction)
    requires LedgerOk(address, l) && StoreTraced(l, store) && RuntimeTraced(l, runtime, None)
    requires MessagesBacked(l, outbox) && CompletedBacked(l, completed)
    ensures
      var l' := l.(commits := l.commits + [a]);
      && LedgerOk(address, l') && Extends(l, l') && StoreTraced(l', store) && RuntimeTraced(l', runtime, None)
      && MessagesBacked(l', outbox) && CompletedBacked(l', completed)
  {
    ExtendsKeeps(l, l.(commits := l.commits + [a]), store, runtime, None, outbox, completed);
  }

  /** The initiator right after a successful save. */
  function Bound(n: Node): Node {
    var s := SavePeer(n);
    s.(tx := n.tx.(committed := true),
       ledger := s.ledger.(commits := n.ledger.commits + [Agreement(n.tx.peer, n.tx.lmk, n.tx.extended)]))
  }

  lemma BoundFacts(n: Node, io: Io)
    requires NodeOk(n) && Savable(n.phase) && SaveError(n, io) == OK
    ensures
      var c := Bound(n);
      && c.HasChannel() && c.tx.committed && |c.store| <= MAX_SAVED_PEERS && CandidatesReal(c.scan.candidates)
      && BindingsLive(c.store, c.runtime, c.suspended, None) && LedgerOk(c.address, c.ledger)
      && StoreTraced(c.ledger, c.store) && RuntimeTraced(c.ledger, c.runtime, None)
      && MessagesBacked(c.ledger, c.outbox) && CompletedBacked(c.ledger, c.completed)
      && Extends(n.ledger, c.ledger)
  {
    SavedBindings(n);
    SavedSize(n, io);
    SavedTraces(n);
    var s := SavePeer(n);
    CommitsGrow(n.address, s.ledger, Agreement(n.tx.peer, n.tx.lmk, n.tx.extended), s.store, s.runtime, n.outbox,
                n.completed);
    ExtendsTrans(n.ledger, s.ledger, Bound(n).ledger);
    hide BindingsLive, LedgerOk, StoreTraced, RuntimeTraced, MessagesBacked, Extends, CandidatesReal;
  }

  lemma BoundExplained(n: Node, n': Node, m: Option<Incoming>, io: Io)
    requires n.phase == Confirm || n.phase == Result
    requires n.tx.extended ==> SaysOk(m, n.tx.peer, n.tx.nonce)
    requires n'.ledger == Bound(n).ledger && n'.phase == Idle && !n'.confirmPending
    ensures Explained(n, n', m, io)
  {
  }

  lemma CommitFine(n: Node, m: Option<Incoming>, io: Io)
    requires NodeOk(n) && (n.phase == Confirm || n.phase == Result)
    requires n.tx.extended ==> SaysOk(m, n.tx.peer, n.tx.nonce)
    ensures Stepped(n, CommitInitiator(n, io)) && Explained(n, CommitInitiator(n, io), m, io)
    ensures CommitInitiator(n, io).phase == Idle
    ensures SaveError(n, io) != OK ==> CommitInitiator(n, io).store == n.store
    ensures CommitInitiator(n, io).reports
            == n.reports + [Report(n.tx.peer, SaveError(n, io), n.initiator, n.tx.extended)]
  {
    var error := SaveError(n, io);
    if error == OK {
      BoundFacts(n, io);
      CommittedFinish(Bound(n), OK, io);
      hide NodeOk, Finish, Extends, Explained, SavePeer;
      BoundExplained(n, Finish(Bound(n), OK, io), m, io);
    } else {
      InitiatorUncommitted(n);
      FinishOk(n, error, io);
      FinishFine(n, error, m, io);
      hide NodeOk, Finish, Extends, Explained;
    }
  }

  lemma InitiatorUncommitted(n: Node)
    requires NodeOk(n) && (n.phase == Confirm || n.phase == Result)
    ensures n.(tx := n.tx.(committed := false)) == n
  {
  }

  // ---- the responder ----

  lemma SentFine(n: Node, destination: Mac, message: Message, reliable: bool, ok: bool, m: Option<Incoming>, io: Io)
    requires NodeOk(n) && Backed(n.ledger, destination, message)
    ensures
      var n' := Sent(n, destination, message, reliable, ok);
      Stepped(n, n') && Explained(n, n', m, io)
  {
    SentOk(n, destination, message, reliable, ok);
    hide NodeOk, Stepped, Explained;
    UnchangedExplained(n, Sent(n, destination, message, reliable, ok), m, io);
  }

  lemma AnswerFine(n: Node, e: Incoming, m: Option<Incoming>, io: Io)
    requires NodeOk(n)
    ensures Stepped(n, AnswerDiscovery(n, e, io)) && Explained(n, AnswerDiscovery(n, e, io), m, io)
  {
    var info := DiscoveryInfo(e.source, e.message.nonce, n.config.localRole);
    SentOk(n, BROADCAST, info, false, io.sendOk);
    var n1 := Sent(n, BROADCAST, info, false, io.sendOk);
    SentOk(n1, BROADCAST, DiscoveryResponse(e.source, e.message.nonce), false, io.sendOk);
    hide NodeOk, Extends, Explained;
    UnchangedExplained(n, AnswerDiscovery(n, e, io), m, io);
  }

  lemma SuspendOk(n: Node, address: Mac)
    requires NodeOk(n) && n.phase == Listening
    ensures Stepped(n, Suspend(n, address)) && Suspend(n, address).phase == Listening
    ensures Suspend(n, address).ledger == n.ledger && Suspend(n, address).tx == n.tx
  {
    ExtendsRefl(n.ledger);
    RemovedIsTraced(n.ledger, n.runtime, address, ZERO_KEY);
    SuspendedBindings(n.store, n.runtime, n.suspended, Removed(n.runtime, address));
    hide BindingsLive, LedgerOk, StoreTraced, RuntimeTraced, MessagesBacked, Extends, CandidatesReal, Removed;
  }

  lemma SuspendedBindings(store: map<Mac, Saved>, runtime: map<Mac, Mode>, suspended: bool, runtime': map<Mac, Mode>)
    requires BindingsLive(store, runtime, suspended, None)
    ensures BindingsLive(store, runtime', true, None)
  {
  }

  lemma SuspendAnswerFine(n: Node, e: Incoming, io: Io)
    requires NodeOk(n) && n.phase == Listening
    ensures
      var n' := AnswerDiscovery(Suspend(n, e.source), e, io);
      Stepped(n, n') && Explained(n, n', Some(e), io)
  {
    SuspendOk(n, e.source);
    var n1 := Suspend(n, e.source);
    AnswerFine(n1, e, Some(e), io);
    var n' := AnswerDiscovery(n1, e, io);
    ExtendsTrans(n.ledger, n1.ledger, n'.ledger);
    AnswerShape(n1, e, io);
    hide NodeOk, Extends, Explained, Suspend, AnswerDiscovery;
    QuietedExplained(n, n', Some(e), io);
  }

  lemma AnswerShape(n: Node, e: Incoming, io: Io)
    ensures AnswerDiscovery(n, e, io) == n.(outbox := AnswerDiscovery(n, e, io).outbox)
  {
  }

  lemma BornOk(address: Mac, l: Ledger, key: Key, birth: Birth)
    requires LedgerOk(address, l) && key !in l.held && key.owner == address
    ensures
      var l' := l.(held := l.held + {key}, births := l.births[key := birth]);
      LedgerOk(address, l') && Extends(l, l')
  {
  }

  lemma HeldOk(address: Mac, l: Ledger, key: Key)
    requires LedgerOk(address, l)
    ensures
      var l' := l.(held := l.held + {key});
      LedgerOk(address, l') && Extends(l, l')
  {
  }

  lemma ExtendsMessages(l: Ledger, l': Ledger, n: Node)
    requires Extends(l, l') && n.ledger == l && NodeOk(n)
    ensures StoreTraced(l', n.store) && RuntimeTraced(l', n.runtime, CurrentKey(n.phase, n.tx))
    ensures MessagesBacked(l', n.outbox) && CompletedBacked(l', n.completed)
  {
    ExtendsKeeps(l, l', n.store, n.runtime, CurrentKey(n.phase, n.tx), n.outbox, n.completed);
  }

  /** The key of a transaction just opened was saved for this peer, or is new and recorded as generated for it. */
  lemma OpenedKeyOk(n: Node, e: Incoming, io: Io)
    requires NodeOk(n) && FreshKey(n, io) && RealAddress(e.source)
    requires e.message.PairRequest? || e.message.PairRequestV2?
    ensures
      var n1 := OpenTransaction(n, e, io);
      && LedgerOk(n.address, n1.ledger) && Extends(n.ledger, n1.ledger)
      && TransactionTraced(n1.ledger, Responding, n1.tx)
      && (n1.tx.lmk == io.key || (n1.tx.peer, n1.tx.lmk) in n.ledger.everSaved)
  {
    var n1 := OpenTransaction(n, e, io);
    if e.source in n.store {
      assert (e.source, n.store[e.source].key) in n.ledger.everSaved;
      HeldOk(n.address, n.ledger, n1.tx.lmk);
    } else {
      BornOk(n.address, n.ledger, io.key, Birth(e.source, e.message.nonce, e.message.PairRequestV2?));
    }
    hide LedgerOk, Extends;
  }

  /** A request opens a transaction and installs its sender in plaintext for the handshake. */
  lemma OpenedOk(n: Node, e: Incoming, io: Io)
    requires NodeOk(n) && n.phase == Listening && FreshKey(n, io) && RealAddress(e.source) && e.message.nonce != 0
    requires (e.message.PairRequest? || e.message.PairRequestV2?) && CapacityAvailable(n, e.source)
    ensures
      var n1 := OpenTransaction(n, e, io);
      var n2 := n1.(runtime := n1.runtime[e.source := Plain], phase := Responding);
      && Stepped(n, n2)
      && n2.ledger.agreed == n.ledger.agreed && n2.ledger.everSaved == n.ledger.everSaved
      && n2.ledger.commits == n.ledger.commits && n2.ledger.confirmed == n.ledger.confirmed
      && BirthsExplained(n, n2, Some(e), io)
      && (n2.tx.lmk == io.key || (n2.tx.peer, n2.tx.lmk) in n.ledger.everSaved)
      && !n2.confirmPending && !n2.tx.committed
      && Explained(n, n2, Some(e), io)
  {
    hide BindingsLive, LedgerOk, StoreTraced, RuntimeTraced, MessagesBacked, CompletedBacked, Extends, CandidatesReal;
    var n1 := OpenTransaction(n, e, io);
    OpenedKeyOk(n, e, io);
    ExtendsMessages(n.ledger, n1.ledger, n);
    PlainIsTraced(n1.ledger, n.runtime, e.source, None);
    BindingsBut(n.store, n.runtime, n.suspended, None, e.source, Plain);
  }

  lemma ReopenedOk(n: Node)
    requires NodeOk(n) && n.phase == WaitConfirm
    ensures Stepped(n, n.(runtime := n.runtime[n.tx.peer := Plain], phase := Responding))
  {
    ExtendsRefl(n.ledger);
    PlainIsTraced(n.ledger, n.runtime, n.tx.peer, CurrentKey(n.phase, n.tx));
    BindingsReplaced(n.store, n.runtime, n.suspended, n.tx.peer, Plain);
    hide BindingsLive, LedgerOk, StoreTraced, RuntimeTraced, MessagesBacked, Extends, CandidatesReal;
  }

  /** The key goes out, or the transaction is rolled back. */
  lemma OfferOk(n: Node, extended: bool, io: Io)
    requires NodeOk(n.(phase := Responding))
    ensures
      var n1, n' := n.(phase := Responding), OfferKey(n, extended, io);
      && Stepped(n1, n') && n'.ledger == n.ledger
      && (n' == n1.(outbox := n'.outbox) || (n'.phase == Listening && !n'.confirmPending))
  {
    var n1 := n.(phase := Responding);
    var message := if extended then PairResponseV2(n.tx.nonce, n.tx.lmk) else PairResponse(n.tx.nonce, n.tx.lmk);
    if SendOk(n1, n.tx.peer, false, io.sendOk) {
      SentOk(n1, n.tx.peer, message, false, io.sendOk);
    } else {
      ListenAgainOk(n1, OTHER);
    }
    hide NodeOk, Extends;
  }

  lemma OfferAgainFine(n: Node, extended: bool, m: Option<Incoming>, io: Io)
    requires NodeOk(n) && n.phase == WaitConfirm
    ensures
      var n' := OfferKey(n.(runtime := n.runtime[n.tx.peer := Plain]), extended, io);
      Stepped(n, n') && Explained(n, n', m, io)
  {
    hide NodeOk, Extends, OfferKey;
    ReopenedOk(n);
    var n0 := n.(runtime := n.runtime[n.tx.peer := Plain]);
    OfferOk(n0, extended, io);
    ExtendsTrans(n.ledger, n.ledger, OfferKey(n0, extended, io).ledger);
    NoTrace(n);
  }

  lemma OfferNewFine(n: Node, e: Incoming, io: Io)
    requires NodeOk(n) && n.phase == Listening && FreshKey(n, io) && RealAddress(e.source) && e.message.nonce != 0
    requires (e.message.PairRequest? || e.message.PairRequestV2?) && CapacityAvailable(n, e.source)
    ensures
      var n1 := OpenTransaction(n, e, io);
      var n' := OfferKey(n1.(runtime := n1.runtime[e.source := Plain]), e.message.PairRequestV2?, io);
      var n'' := Rollback(ReportResult(n1, OTHER));
      && Stepped(n, n') && Explained(n, n', Some(e), io)
      && Stepped(n, n'') && Explained(n, n'', Some(e), io)
  {
    OpenedOk(n, e, io);
    var n1 := OpenTransaction(n, e, io);
    var n2 := n1.(runtime := n1.runtime[e.source := Plain]);
    var n3 := n2.(phase := Responding);
    OfferOk(n2, e.message.PairRequestV2?, io);
    ListenAgainOk(n3, OTHER);
    var n' := OfferKey(n2, e.message.PairRequestV2?, io);
    var n'' := Rollback(ReportResult(n1, OTHER));
    RollbackForgetsRuntime(n1, n3);
    assert n'' == Rollback(ReportResult(n3, OTHER)).(phase := Listening);
    ExtendsTrans(n.ledger, n3.ledger, n'.ledger);
    hide NodeOk, Extends, OfferKey, OpenTransaction, Rollback;
    OfferedExplained(n, n3, n', e, io);
    OfferedExplained(n, n3, n'', e, io);
  }

  /** Rolling back removes the peer whatever its mode was. */
  lemma RollbackForgetsRuntime(n1: Node, n3: Node)
    requires n3 == n1.(runtime := n1.runtime[n1.tx.peer := Plain], phase := Responding)
    requires n1.tx.nonce != 0 && n1.tx.peer != NO_MAC && !n1.tx.committed && n1.phase == Listening
    ensures Rollback(ReportResult(n1, OTHER)) == Rollback(ReportResult(n3, OTHER)).(phase := Listening)
    ensures Rollback(ReportResult(n1, OTHER)).ledger == n1.ledger
    ensures !Rollback(ReportResult(n1, OTHER)).confirmPending
  {
    assert Removed(n1.runtime, n1.tx.peer) == Removed(n3.runtime, n1.tx.peer);
  }

  lemma OfferedExplained(n: Node, n3: Node, n': Node, e: Incoming, io: Io)
    requires n'.ledger == n3.ledger && Explained(n, n3, Some(e), io) && n3.phase == Responding && n.phase == Listening
    requires n3.ledger.agreed == n.ledger.agreed && n3.ledger.everSaved == n.ledger.everSaved
    requires n3.ledger.commits == n.ledger.commits && n3.ledger.confirmed == n.ledger.confirmed
    requires !n3.confirmPending && !n3.tx.committed
    requires n' == n3.(outbox := n'.outbox) || (n'.phase == Listening && !n'.confirmPending)
    ensures Explained(n, n', Some(e), io)
  {
  }

  lemma RespondFine(n: Node, e: Incoming, io: Io)
    requires NodeOk(n) && n.phase != Idle && FreshKey(n, io) && RealAddress(e.source) && e.message.nonce != 0
    requires e.message.PairRequest? || e.message.PairRequestV2?
    ensures Stepped(n, RespondPair(n, e, io)) && Explained(n, RespondPair(n, e, io), Some(e), io)
  {
    hide NodeOk, Explained, Extends, OfferKey, OpenTransaction, Rollback, Sent;
    ExtendsRefl(n.ledger);
    UnchangedExplained(n, n, Some(e), io);
    if n.phase != Listening {
      if n.phase == WaitConfirm { OfferAgainFine(n, e.message.PairRequestV2?, Some(e), io); }
    } else if !CapacityAvailable(n, e.source) {
      SentFine(n, BROADCAST, PairRefusal(e.source, e.message.nonce, NO_MEM), false, io.sendOk, Some(e), io);
    } else {
      OfferNewFine(n, e, io);
    }
  }

  // ---- confirmation ----

  /** A confirmation ends in a saved peer and a recorded confirmation, or changes neither. */
  ghost predicate ConfirmOutcome(n: Node, n': Node) {
    && !n'.confirmPending && (n'.phase == SendResult || n'.phase == Idle)
    && n'.ledger.agreed == n.ledger.agreed && n'.ledger.births == n.ledger.births
    && n'.ledger.commits == n.ledger.commits
    && (|| (n'.ledger.everSaved == n.ledger.everSaved && n'.ledger.confirmed == n.ledger.confirmed
            && (n'.phase == SendResult ==> n'.tx == n.tx))
        || (n'.ledger.everSaved == n.ledger.everSaved + {(n.tx.peer, n.tx.lmk)}
            && n'.ledger.confirmed == n.ledger.confirmed + {(n.tx.peer, n.tx.nonce)}
            && (n'.tx.committed || n'.tx == NO_TRANSACTION)))
  }

  lemma ConfirmedTraces(address: Mac, l: Ledger, p: (Mac, nat), store: map<Mac, Saved>, runtime: map<Mac, Mode>,
                        outbox: seq<Outgoing>, completed: Transaction)
    requires LedgerOk(address, l) && StoreTraced(l, store) && RuntimeTraced(l, runtime, None)
    requires MessagesBacked(l, outbox) && CompletedBacked(l, completed)
    ensures
      var l' := l.(confirmed := l.confirmed + {p});
      && LedgerOk(address, l') && Extends(l, l') && StoreTraced(l', store) && RuntimeTraced(l', runtime, None)
      && MessagesBacked(l', outbox) && CompletedBacked(l', completed)
  {
    ExtendsKeeps(l, l.(confirmed := l.confirmed + {p}), store, runtime, None, outbox, completed);
  }

  lemma LooserRuntime(l: Ledger, runtime: map<Mac, Mode>, current: Option<(Mac, Key)>)
    requires RuntimeTraced(l, runtime, None)
    ensures RuntimeTraced(l, runtime, current)
  {
  }

  /** The responder right after a successful save. */
  function Committed(n: Node): Node {
    var saved := SavePeer(n);
    var tx := n.tx.(committed := true);
    saved.(tx := tx, completed := tx, ledger := saved.ledger.(confirmed := n.ledger.confirmed + {(tx.peer, tx.nonce)}))
  }

  lemma CommittedFacts(n: Node, io: Io)
    requires NodeOk(n) && n.phase == WaitConfirm && SaveError(n, io) == OK
    ensures
      var c := Committed(n);
      && Extends(n.ledger, c.ledger) && LedgerOk(c.address, c.ledger) && c.tx.committed
      && BindingsLive(c.store, c.runtime, c.suspended, None) && Installed(c.runtime, c.tx.peer, c.tx.lmk)
      && c.tx.peer in c.store && c.store[c.tx.peer].key == c.tx.lmk
      && StoreTraced(c.ledger, c.store) && RuntimeTraced(c.ledger, c.runtime, None)
      && MessagesBacked(c.ledger, c.outbox) && CompletedBacked(c.ledger, c.completed)
      && |c.store| <= MAX_SAVED_PEERS
  {
    SavedBindings(n);
    SavedSize(n, io);
    SavedTraces(n);
    var s := SavePeer(n);
    ConfirmedTraces(n.address, s.ledger, (n.tx.peer, n.tx.nonce), s.store, s.runtime, n.outbox, n.completed);
    ExtendsTrans(n.ledger, s.ledger, Committed(n).ledger);
    hide BindingsLive, LedgerOk, StoreTraced, RuntimeTraced, MessagesBacked, Extends, CandidatesReal;
  }

  lemma WaitFacts(n: Node)
    requires NodeOk(n) && n.phase == WaitConfirm
    ensures n.HasChannel() && !n.initiator && !n.confirmPending && n.tx.nonce != 0 && RealAddress(n.tx.peer)
    ensures CandidatesReal(n.scan.candidates) && !n.tx.committed
  {
  }

  lemma CommittedShape(n: Node)
    ensures
      var c := Committed(n);
      && c.scan == n.scan && c.initiator == n.initiator && c.confirmPending == n.confirmPending && c.outbox == n.outbox
      && c.tx == n.tx.(committed := true) && c.address == n.address && (n.tx.peer, n.tx.nonce) in c.ledger.confirmed
  {
  }

  lemma SendingResultOk(n: Node, io: Io)
    requires NodeOk(n) && n.phase == WaitConfirm && SaveError(n, io) == OK
    ensures
      var c := Committed(n).(phase := SendResult, scanError := OK);
      NodeOk(c) && Backed(c.ledger, c.tx.peer, PairResult(c.tx.nonce, OK))
  {
    hide NodeOk, BindingsLive, LedgerOk, StoreTraced, RuntimeTraced, MessagesBacked, Extends, CandidatesReal, Committed;
    WaitFacts(n);
    CommittedFacts(n, io);
    CommittedKey(n);
    CommittedShape(n);
    var c := Committed(n).(phase := SendResult, scanError := OK);
    LooserRuntime(c.ledger, c.runtime, CurrentKey(c.phase, c.tx));
    SendResultOk(c);
  }

  lemma SendResultOk(c: Node)
    requires c.phase == SendResult && c.HasChannel() && !c.initiator && c.tx.committed && !c.confirmPending
    requires c.tx.nonce != 0 && RealAddress(c.tx.peer) && |c.store| <= MAX_SAVED_PEERS
    requires CandidatesReal(c.scan.candidates) && BindingsLive(c.store, c.runtime, c.suspended, None)
    requires Installed(c.runtime, c.tx.peer, c.tx.lmk) && c.tx.peer in c.store && c.store[c.tx.peer].key == c.tx.lmk
    requires LedgerOk(c.address, c.ledger) && StoreTraced(c.ledger, c.store)
    requires RuntimeTraced(c.ledger, c.runtime, CurrentKey(c.phase, c.tx))
    requires MessagesBacked(c.ledger, c.outbox) && CompletedBacked(c.ledger, c.completed)
    requires c.tx.lmk in c.ledger.held && (c.tx.peer, c.tx.lmk) in c.ledger.everSaved
    requires (c.tx.peer, c.tx.nonce) in c.ledger.confirmed
    ensures NodeOk(c)
  {
    hide BindingsLive, LedgerOk, StoreTraced, RuntimeTraced, MessagesBacked, CandidatesReal;
  }

  lemma CommittedKey(n: Node)
    requires NodeOk(n) && n.phase == WaitConfirm
    ensures Committed(n).tx.lmk in Committed(n).ledger.held
    ensures (n.tx.peer, n.tx.lmk) in Committed(n).ledger.everSaved
  {
    hide BindingsLive, LedgerOk, StoreTraced, RuntimeTraced, MessagesBacked, CandidatesReal;
  }

  lemma UnsavedResultOk(n: Node, error: Error)
    requires NodeOk(n) && n.phase == WaitConfirm && error != OK
    ensures
      var c := n.(phase := SendResult, scanError := error);
      NodeOk(c) && Backed(c.ledger, c.tx.peer, PairResult(c.tx.nonce, error))
  {
    hide BindingsLive, LedgerOk, StoreTraced, RuntimeTraced, MessagesBacked, CandidatesReal;
  }

  lemma AcceptConfirmOk(n: Node, io: Io)
    requires NodeOk(n) && n.phase == WaitConfirm
    ensures
      var n' := AcceptConfirm(n, n.tx.peer, n.tx.nonce, io);
      Stepped(n, n') && ConfirmOutcome(n, n')
  {
    var error := SaveError(n, io);
    if error == OK {
      SavedConfirmOk(n, io);
    } else {
      UnsavedConfirmOk(n, io);
    }
    hide NodeOk, Extends, AcceptConfirm;
  }

  lemma SavedConfirmOk(n: Node, io: Io)
    requires NodeOk(n) && n.phase == WaitConfirm && SaveError(n, io) == OK
    ensures
      var n' := AcceptConfirm(n, n.tx.peer, n.tx.nonce, io);
      Stepped(n, n') && ConfirmOutcome(n, n')
  {
    NoTrace(n);
    ExtendsRefl(n.ledger);
    CommittedFacts(n, io);
    var c := Committed(n);
    if n.tx.extended {
      SendingResultOk(n, io);
      SentOk(c.(phase := SendResult, scanError := OK), n.tx.peer, PairResult(n.tx.nonce, OK), true, io.sendOk);
      hide NodeOk, Extends, Sent;
    } else {
      CommittedFinish(c, OK, io);
      hide NodeOk, Extends, Finish;
    }
  }

  lemma UnsavedConfirmOk(n: Node, io: Io)
    requires NodeOk(n) && n.phase == WaitConfirm && SaveError(n, io) != OK
    ensures
      var n' := AcceptConfirm(n, n.tx.peer, n.tx.nonce, io);
      Stepped(n, n') && ConfirmOutcome(n, n')
  {
    var error := SaveError(n, io);
    NoTrace(n);
    ExtendsRefl(n.ledger);
    if n.tx.extended {
      UnsavedResultOk(n, error);
      SentOk(n.(phase := SendResult, scanError := error), n.tx.peer, PairResult(n.tx.nonce, error), true, io.sendOk);
      hide NodeOk, Extends, Sent;
    } else {
      FinishOk(n, error, io);
      NoTrace(Finish(n, error, io));
      hide NodeOk, Extends, Finish;
    }
  }
}
