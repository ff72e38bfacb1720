/** What pairing leaves behind on one device: bindings in force, failed sessions without effect, capacity. */
module PairingResults {
  import opened Basics
  import opened PairingSteps
  import opened PairingInvariants
  import opened PairingPreservation
  import opened PairingRuns
  import Sequences

  // ---- how the store can change ----

  lemma RollbackFrame(n: Node)
    ensures
      var n' := Rollback(n);
      n' == n.(runtime := n'.runtime, suspended := n'.suspended, tx := n'.tx, confirmPending := n'.confirmPending)
  {
  }

  /** Scanning on: the store and the reports stay. */
  predicate Scanning(n: Node, n': Node) {
    n'.phase == Discovery && n'.store == n.store && n'.reports == n.reports && n'.ledger.everSaved == n.ledger.everSaved
  }

  lemma NextChannelFrame(n: Node, io: Io)
    requires n.HasChannel()
    ensures Scanning(n, NextChannel(n, io))
  {
    RollbackFrame(n.(scan := Advanced(n.scan)));
    hide Rollback;
  }

  /** The session ends with one report, and with a success only from a commit. */
  predicate Ended(n: Node, n': Node, error: Error) {
    n'.phase == Idle && n'.reports == n.reports + [Report(n.tx.peer, error, n.initiator, n.tx.extended)]
  }

  lemma FinishFrame(n: Node, error: Error, io: Io)
    ensures Ended(n, Finish(n, error, io), error)
    ensures Finish(n, error, io).store == n.store && Finish(n, error, io).ledger == n.ledger
  {
    RollbackFrame(ReportResult(n, error));
    hide Rollback;
  }

  /** Neither the store nor its history moves. */
  predicate NothingSaved(n: Node, n': Node) {
    n'.store == n.store && n'.ledger.everSaved == n.ledger.everSaved
  }

  predicate PeerSaved(n: Node, n': Node) {
    n'.store == SavePeer(n).store && n'.ledger.everSaved == SavePeer(n).ledger.everSaved
  }

  /** What one step of an initiator does to the store: the session goes on, fails or is cut by a restart, or succeeds
      with its peer saved. */
  ghost predicate InitiatorOutcome(n: Node, n': Node) {
    || ((InitiatorPhase(n'.phase) || n'.phase == Idle) && NothingSaved(n, n') && n'.reports == n.reports)
    || (exists error :: error != OK && Ended(n, n', error) && NothingSaved(n, n'))
    || (Ended(n, n', OK) && PeerSaved(n, n')
        && n'.ledger.commits == n.ledger.commits + [Agreement(n.tx.peer, n.tx.lmk, n.tx.extended)])
  }

  lemma FailsCleanly(n: Node, error: Error, io: Io)
    requires error != OK
    ensures InitiatorOutcome(n, Finish(n, error, io))
  {
    FinishFrame(n, error, io);
  }

  lemma CommitOutcome(n: Node, io: Io)
    requires n.phase == Confirm || n.phase == Result
    ensures InitiatorOutcome(n, CommitInitiator(n, io))
  {
    hide Finish;
    if SaveError(n, io) == OK { FinishFrame(Bound(n), OK, io); }
    else {
      FinishFrame(n.(tx := n.tx.(committed := false)), SaveError(n, io), io);
      assert Ended(n, CommitInitiator(n, io), SaveError(n, io));
    }
  }

  lemma ChooseOutcome(n: Node, io: Io)
    requires n.HasChannel() && n.phase == Discovery
    ensures InitiatorOutcome(n, ChooseCandidate(n, io))
  {
    hide Finish, NextChannel;
    var accepted := AcceptableOnes(n.config, n.scan.candidates);
    if n.scan.overflow || |accepted| > 1 { FailsCleanly(n, INVALID_RESPONSE, io); }
    else if accepted == [] { NextChannelFrame(n, io); }
    else if !io.addOk { NextChannelFrame(n.(tx := Named(n.tx, accepted[0]), scanError := OTHER), io); }
  }

  lemma RetryOutcome(n: Node, n1: Node, io: Io)
    requires n.HasChannel() && NothingSaved(n, n1) && n1.reports == n.reports && n1.scan == n.scan
    ensures InitiatorOutcome(n, NextChannel(n1.(scanError := TIMEOUT), io))
  {
    hide NextChannel;
    NextChannelFrame(n1.(scanError := TIMEOUT), io);
  }

  /** Only the outbox, the scan and the count of attempts move. */
  lemma ContinuesOutcome(n: Node, n': Node)
    requires InitiatorPhase(n.phase) && n'.phase == n.phase && NothingSaved(n, n') && n'.reports == n.reports
    ensures InitiatorOutcome(n, n')
  {
  }

  lemma SentFrame(n: Node, destination: Mac, message: Message, reliable: bool, ok: bool)
    ensures
      var n' := Sent(n, destination, message, reliable, ok);
      n'.phase == n.phase && NothingSaved(n, n') && n'.reports == n.reports
  {
  }

  lemma AskOutcome(n: Node, io: Io)
    requires n.HasChannel() && (n.phase == Response || n.phase == Result)
    ensures InitiatorOutcome(n, AskAgain(n, io))
  {
    hide NextChannel, Sent, InitiatorOutcome;
    var n1 := n.(requestAttempt := n.requestAttempt + 1);
    if n1.requestAttempt <= REQUEST_ATTEMPTS {
      var request :=
        if n.tx.extended then PairRequestV2(n.tx.nonce, n.config.localRole) else PairRequest(n.tx.nonce);
      SentFrame(n1, n.tx.peer, request, false, io.sendOk);
      ContinuesOutcome(n, RequestPair(n1, io.sendOk));
    } else {
      RetryOutcome(n, n1, io);
    }
  }

  lemma QueryOutcome(n: Node, io: Io)
    requires n.HasChannel() && (n.phase == Response || n.phase == Result)
    ensures InitiatorOutcome(n, QueryAgain(n, io))
  {
    hide NextChannel, Sent, InitiatorOutcome;
    var n1 := n.(requestAttempt := n.requestAttempt + 1);
    if n1.requestAttempt <= REQUEST_ATTEMPTS {
      SentFrame(n1, n.tx.peer, ResultQuery(n.tx.nonce), true, io.sendOk);
      ContinuesOutcome(n, QueryAgain(n, io));
    } else {
      RetryOutcome(n, n1, io);
    }
  }

  lemma TimeoutOutcome(n: Node, io: Io)
    requires n.HasChannel() && InitiatorPhase(n.phase)
    ensures InitiatorOutcome(n, PhaseTimeout(n, io))
  {
    hide InitiatorOutcome, NextChannel, ChooseCandidate, AskAgain, QueryAgain;
    match n.phase
    case Discovery => ChooseOutcome(n, io);
    case Response => AskOutcome(n, io);
    case Result => QueryOutcome(n, io);
    case Confirm => RetryOutcome(n, n, io);
  }

  lemma TickOutcome(n: Node, windowElapsed: bool, phaseElapsed: bool, io: Io)
    requires n.HasChannel() && InitiatorPhase(n.phase)
    ensures InitiatorOutcome(n, Tick(n, windowElapsed, phaseElapsed, io))
  {
    hide Finish, PhaseTimeout;
    FailsCleanly(n, INVALID_STATE, io);
    FailsCleanly(n, if !n.initiator || n.scanError == OK then TIMEOUT else n.scanError, io);
    TimeoutOutcome(n, io);
  }

  lemma MessageOutcome(n: Node, e: Incoming, io: Io)
    requires NodeOk(n) && n.HasChannel() && InitiatorPhase(n.phase)
    ensures InitiatorOutcome(n, ProcessMessage(n, e, io))
  {
    hide NodeOk, AcceptResponse, AcceptConfirm, CollectCandidate, ProcessResult, AnswerDiscovery, RespondPair, Sent,
      Admitted, InitiatorOutcome;
    InitiatorIsInitiator(n);
    StayingOutcome(n, e, io);
    if e.message.DiscoveryResponse? || e.message.DiscoveryInfo? { CollectOutcome(n, e); }
    match e.message
    case PairResponse(_, lmk) => if n.phase == Response { ResponseOutcome(n, e, lmk, false, io); }
    case PairResponseV2(_, lmk) => if n.phase == Response { ResponseOutcome(n, e, lmk, true, io); }
    case PairResult(_, error) => ResultOutcome(n, e, error, io);
    case PairRefusal(_, _, error) => ResultOutcome(n, e, error, io);
    case _ =>
  }

  lemma StayingOutcome(n: Node, e: Incoming, io: Io)
    requires n.HasChannel() && InitiatorPhase(n.phase)
    ensures InitiatorOutcome(n, n)
    ensures InitiatorOutcome(n, Sent(n, n.completed.peer, PairResult(n.completed.nonce, OK), true, io.sendOk))
    ensures e.message.PairConfirm? ==> InitiatorOutcome(n, AcceptConfirm(n, e.source, e.message.nonce, io))
  {
    hide Collected, FindCandidate, Sent, InitiatorOutcome;
    ContinuesOutcome(n, n);
    SentFrame(n, n.completed.peer, PairResult(n.completed.nonce, OK), true, io.sendOk);
    ContinuesOutcome(n, Sent(n, n.completed.peer, PairResult(n.completed.nonce, OK), true, io.sendOk));
  }

  lemma CollectOutcome(n: Node, e: Incoming)
    requires n.HasChannel() && InitiatorPhase(n.phase) && (e.message.DiscoveryResponse? || e.message.DiscoveryInfo?)
    ensures InitiatorOutcome(n, CollectCandidate(n, e))
  {
    hide Collected, FindCandidate, InitiatorOutcome;
    ContinuesOutcome(n, CollectCandidate(n, e));
  }

  lemma ResponseOutcome(n: Node, e: Incoming, lmk: Key, extended: bool, io: Io)
    requires n.HasChannel() && n.phase == Response
    ensures InitiatorOutcome(n, AcceptResponse(n, e, lmk, extended, io))
  {
    hide NextChannel;
    NextChannelFrame(TakeKey(n, lmk).(scanError := OTHER), io);
    NextChannelFrame(InstallKey(TakeKey(n, lmk)).(scanError := OTHER), io);
  }

  lemma InitiatorIsInitiator(n: Node)
    requires NodeOk(n) && InitiatorPhase(n.phase)
    ensures n.initiator
  {
  }

  lemma ResultOutcome(n: Node, e: Incoming, error: Error, io: Io)
    requires InitiatorPhase(n.phase)
    ensures InitiatorOutcome(n, ProcessResult(n, e, error, io))
  {
    hide Finish, CommitInitiator;
    if SameTransaction(n, e) && n.phase != Discovery {
      if error != OK { FailsCleanly(n, error, io); } else if n.phase != Response { CommitOutcome(n, io); }
    }
  }

  /** One step of an initiator: the session goes on or fails with the store untouched, or ends in success. */
  lemma InitiatorStep(n: Node, input: Input, io: Io)
    requires NodeOk(n) && n.HasChannel() && InitiatorPhase(n.phase)
    ensures InitiatorOutcome(n, Step(n, input, io))
  {
    hide NodeOk, Finish, CommitInitiator, ProcessMessage, Tick, NextChannel;
    match input
    case InCancel => FailsCleanly(n, INVALID_STATE, io);
    case InMessage(e) => MessageOutcome(n, e, io);
    case InTick(windowElapsed, phaseElapsed) => TickOutcome(n, windowElapsed, phaseElapsed, io);
    case InCallback(callback, token, done) =>
      RetryOutcome(n, n, io);
      if n.phase == Confirm { CommitOutcome(n, io); }
    case _ =>
  }

  // ---- runs ----

  datatype Stimulus = Stimulus(input: Input, io: Io)

  /** A run in which every random number is new and every sender real. */
  predicate SaneRun(n: Node, run: seq<Stimulus>)
    decreases |run|
  {
    run == []
    || (n.HasChannel() && Sane(n, run[0].input, run[0].io) && SaneRun(Step(n, run[0].input, run[0].io), run[1..]))
  }

  function Run(n: Node, run: seq<Stimulus>): Node
    requires SaneRun(n, run)
    decreases |run|
  {
    if run == [] then n else Run(Step(n, run[0].input, run[0].io), run[1..])
  }

  lemma {:induction false} RunOk(n: Node, run: seq<Stimulus>)
    requires NodeOk(n) && SaneRun(n, run)
    ensures NodeOk(Run(n, run)) && n.outbox <= Run(n, run).outbox
    decreases |run|
  {
    hide NodeOk, Step;
    if run == [] {
    } else {
      StepFine(n, run[0].input, run[0].io);
      RunOk(Step(n, run[0].input, run[0].io), run[1..]);
    }
  }

  lemma IdleInstalled(n: Node)
    requires NodeOk(n)
    ensures n.phase == Idle ==> forall m :: m in n.store ==> m in n.runtime && n.runtime[m] == Encrypted(n.store[m].key)
  {
    if n.phase == Idle { assert BindingsLive(n.store, n.runtime, false, None); }
  }

  /** Whatever has happened, an idle device has every saved peer installed, encrypted, with the key it saved. */
  lemma IdleBindings(n: Node, run: seq<Stimulus>)
    requires FreshNode(n) && SaneRun(n, run)
    ensures
      var n' := Run(n, run);
      n'.phase == Idle ==> forall m :: m in n'.store ==> m in n'.runtime && n'.runtime[m] == Encrypted(n'.store[m].key)
  {
    FreshNodeOk(n);
    RunOk(n, run);
    hide FreshNode, Run, SaneRun, NodeOk;
    IdleInstalled(Run(n, run));
  }

  /** The session that is under way in `n` is still under way, step after step, up to the last one. */
  predicate SessionGoesOn(n: Node, run: seq<Stimulus>)
    requires SaneRun(n, run)
    decreases |run|
  {
    run == [] || (InitiatorPhase(n.phase) && SessionGoesOn(Step(n, run[0].input, run[0].io), run[1..]))
  }

  /** A session that is over: cut by a restart with nothing saved, or ended with one report, and unless that reports
      success with nothing saved. */
  ghost predicate SessionOver(n: Node, n': Node) {
    n'.phase == Idle
    && (|| (n'.reports == n.reports && n'.store == n.store)
        || (exists report :: n'.reports == n.reports + [report]
              && (if report.error == OK then report.peer in n'.store else n'.store == n.store)))
  }

  /** However an initiator's session ends, unless it reports success the saved peers are those from before. */
  lemma {:induction false} FailedSessionKeepsStore(n: Node, run: seq<Stimulus>)
    requires NodeOk(n) && SaneRun(n, run) && InitiatorPhase(n.phase) && SessionGoesOn(n, run)
    ensures
      var n' := Run(n, run);
      if InitiatorPhase(n'.phase) then n'.store == n.store && n'.reports == n.reports else SessionOver(n, n')
    decreases |run|
  {
    hide NodeOk, Step, InitiatorOutcome;
    if run == [] {
    } else {
      var n1 := Step(n, run[0].input, run[0].io);
      StepFine(n, run[0].input, run[0].io);
      InitiatorStep(n, run[0].input, run[0].io);
      OutcomeFacts(n, n1);
      if InitiatorPhase(n1.phase) { FailedSessionKeepsStore(n1, run[1..]); }
    }
  }

  lemma OutcomeFacts(n: Node, n': Node)
    requires InitiatorOutcome(n, n')
    ensures if InitiatorPhase(n'.phase) then n'.store == n.store && n'.reports == n.reports else SessionOver(n, n')
  {
  }

  /** The history of saved peers is the history of the store: what is new in it has just been stored. */
  lemma HistoryIsStored(n: Node, input: Input, io: Io)
    requires NodeOk(n) && n.HasChannel()
    ensures
      var n' := Step(n, input, io);
      forall p :: p in n'.ledger.everSaved && p !in n.ledger.everSaved ==> p.0 in n'.store && n'.store[p.0].key == p.1
  {
    hide NodeOk, Step;
    if InitiatorPhase(n.phase) { InitiatorStep(n, input, io); }
    else if n.phase == Idle { IdleStep(n, input, io); }
    else { ResponderStep(n, input, io); }
  }

  lemma IdleStep(n: Node, input: Input, io: Io)
    requires n.HasChannel() && n.phase == Idle
    ensures Step(n, input, io).ledger.everSaved == n.ledger.everSaved
  {
    hide Rollback, AnswerDiscovery;
    match input
    case InStart(channels) => if channels != [] {
      RollbackFrame(n.(initiator := true, scanError := NOT_FOUND,
                       scan := n.scan.(channels := channels, channelIndex := 0, channelAttempt := 0,
                                       restoreChannel := n.scan.wifiChannel)));
    }
    case _ =>
  }

  // ---- capacity ----

  /** The stores a responder's step can lead to. */
  ghost predicate ResponderOutcome(n: Node, n': Node, io: Io) {
    || NothingSaved(n, n')
    || ((n.phase == Responding || n.phase == WaitConfirm) && SaveError(n, io) == OK && PeerSaved(n, n'))
  }

  lemma ConfirmStore(n: Node, source: Mac, nonce: nat, io: Io)
    ensures
      var n' := AcceptConfirm(n, source, nonce, io);
      NothingSaved(n, n') || (n.phase == WaitConfirm && SaveError(n, io) == OK && PeerSaved(n, n'))
  {
    hide Finish;
    var error := SaveError(n, io);
    FinishFrame(if error == OK then Committed(n) else n, error, io);
  }

  lemma OpenStore(n: Node, e: Incoming, io: Io)
    requires e.message.PairRequest? || e.message.PairRequestV2?
    ensures NothingSaved(n, OpenTransaction(n, e, io))
  {
  }

  lemma RespondStore(n: Node, e: Incoming, io: Io)
    requires e.message.PairRequest? || e.message.PairRequestV2?
    ensures NothingSaved(n, RespondPair(n, e, io))
  {
    hide Rollback, OfferKey, OpenTransaction, CapacityAvailable;
    var extended := e.message.PairRequestV2?;
    OfferStore(n.(runtime := n.runtime[n.tx.peer := Plain]), extended, io);
    OpenStore(n, e, io);
    var n1 := OpenTransaction(n, e, io);
    RollbackFrame(ReportResult(n1, OTHER));
    OfferStore(n1.(runtime := n1.runtime[e.source := Plain]), extended, io);
  }

  lemma OfferStore(n: Node, extended: bool, io: Io)
    ensures NothingSaved(n, OfferKey(n, extended, io))
  {
    hide Rollback;
    RollbackFrame(ReportResult(n.(phase := Responding), OTHER));
  }

  lemma ResponderStep(n: Node, input: Input, io: Io)
    requires NodeOk(n) && n.HasChannel() && (n.phase == Listening || ResponderPhase(n.phase))
    ensures ResponderOutcome(n, Step(n, input, io), io)
  {
    hide NodeOk, Finish, ProcessMessage, ProcessCallback, Tick;
    FinishFrame(n, INVALID_STATE, io);
    match input
    case InMessage(e) => ResponderMessage(n, e, io);
    case InTick(windowElapsed, phaseElapsed) => ResponderTick(n, windowElapsed, phaseElapsed, io);
    case InCallback(callback, token, done) => ResponderCallback(n, callback, token, done, io);
    case _ =>
  }

  /** What would be saved does not depend on the step to `WaitConfirm`. */
  lemma KeyingSaves(n: Node, io: Io)
    ensures SaveError(Keying(n), io) == SaveError(n, io)
    ensures forall n' :: PeerSaved(Keying(n), n') ==> PeerSaved(n, n')
  {
  }

  lemma ResponderCallback(n: Node, callback: Callback, token: nat, done: bool, io: Io)
    requires n.HasChannel() && (n.phase == Listening || ResponderPhase(n.phase))
    ensures ResponderOutcome(n, ProcessCallback(n, callback, token, done, io), io)
  {
    hide Finish, AcceptConfirm, Rollback, CommitInitiator, NextChannel;
    hide SaveError, SavePeer;
    KeyingSaves(n, io);
    ConfirmStore(Keying(n), n.tx.peer, n.tx.nonce, io);
    RollbackFrame(ReportResult(n, if done then OTHER else FAIL));
    FinishFrame(n, if n.tx.committed then (if done then OK else TIMEOUT) else n.scanError, io);
  }

  lemma ResponderTimeout(n: Node, io: Io)
    requires n.HasChannel() && (n.phase == Listening || ResponderPhase(n.phase))
    ensures NothingSaved(n, PhaseTimeout(n, io))
  {
    hide Finish, Rollback, ChooseCandidate, AskAgain, QueryAgain, NextChannel;
    FinishFrame(n, if n.tx.committed then TIMEOUT else n.scanError, io);
    RollbackFrame(ReportResult(n, TIMEOUT));
  }

  lemma ResponderTick(n: Node, windowElapsed: bool, phaseElapsed: bool, io: Io)
    requires n.HasChannel() && (n.phase == Listening || ResponderPhase(n.phase))
    ensures NothingSaved(n, Tick(n, windowElapsed, phaseElapsed, io))
  {
    hide Finish, PhaseTimeout;
    FinishFrame(n, INVALID_STATE, io);
    FinishFrame(n, if !n.initiator || n.scanError == OK then TIMEOUT else n.scanError, io);
    ResponderTimeout(n, io);
  }

  lemma ResponderMessage(n: Node, e: Incoming, io: Io)
    requires n.HasChannel() && (n.phase == Listening || ResponderPhase(n.phase))
    ensures ResponderOutcome(n, ProcessMessage(n, e, io), io)
  {
    hide AcceptConfirm, RespondPair, AnswerDiscovery, AcceptResponse, CollectCandidate;
    match e.message
    case Ping(_) => AnswerShape(Suspend(n, e.source), e, io); AnswerShape(n, e, io);
    case PairRequest(_) => RespondStore(n, e, io);
    case PairRequestV2(_, _) => RespondStore(n, e, io);
    case PairConfirm(nonce) => ConfirmStore(n, e.source, nonce, io);
    case _ =>
  }

  /** A responder never grows the store past the peer limit. */
  lemma ResponderKeepsLimit(n: Node, input: Input, io: Io)
    requires NodeOk(n) && n.HasChannel() && (n.phase == Listening || ResponderPhase(n.phase)) && n.config.peerLimit >= 1
    requires |n.store| <= n.config.peerLimit
    ensures |Step(n, input, io).store| <= n.config.peerLimit
  {
    ResponderStep(n, input, io);
    LimitFacts(n);
    if SaveError(n, io) == OK { SavedSize(n, io); }
    hide NodeOk, Step, SavePeer;
  }

  lemma LimitFacts(n: Node)
    requires NodeOk(n)
    ensures |n.store| <= MAX_SAVED_PEERS
    ensures n.phase == Responding || n.phase == WaitConfirm ==> CapacityAvailable(n, n.tx.peer)
  {
  }

  /** An initiator does not look at the peer limit: its commit exceeds the limit exactly when the peer is new, the
      table is at the limit, there is a free slot and nothing is replaced. */
  lemma InitiatorLimit(n: Node, io: Io)
    requires |n.store| <= n.config.peerLimit && io.saveOk && n.config.peerLimit >= 1
    ensures
      |CommitInitiator(n, io).store| > n.config.peerLimit
      <==> (n.tx.peer !in n.store && |n.store| == n.config.peerLimit < MAX_SAVED_PEERS && !n.config.replaceExisting)
  {
    hide Finish;
    if SaveError(n, io) == OK { FinishFrame(Bound(n), OK, io); }
    else { FinishFrame(n.(tx := n.tx.(committed := false)), SaveError(n, io), io); }
    var saved := n.store[n.tx.peer := Saved(n.tx.lmk, n.tx.channel, n.tx.role)];
    assert saved.Keys == n.store.Keys + {n.tx.peer};
    assert |saved.Keys| == |saved| && |n.store.Keys| == |n.store|;
  }

  // ---- discovery ----

  /** Candidates are acceptable at two places. */
  ghost predicate SeveralAcceptable(config: Config, candidates: seq<Candidate>) {
    exists i, j :: 0 <= i < j < |candidates| && Acceptable(config, candidates[i]) && Acceptable(config, candidates[j])
  }

  /** The candidate at this place, and no other, is acceptable. */
  ghost predicate OnlyAcceptable(config: Config, candidates: seq<Candidate>, k: nat) {
    k < |candidates| && Acceptable(config, candidates[k])
    && forall i :: 0 <= i < |candidates| && i != k ==> !Acceptable(config, candidates[i])
  }

  lemma {:induction false} AcceptableOnesAre(config: Config, candidates: seq<Candidate>)
    ensures AcceptableOnes(config, candidates) == []
            <==> forall i :: 0 <= i < |candidates| ==> !Acceptable(config, candidates[i])
    ensures |AcceptableOnes(config, candidates)| > 1 <==> SeveralAcceptable(config, candidates)
    ensures |AcceptableOnes(config, candidates)| == 1 ==>
              exists k: nat ::
                OnlyAcceptable(config, candidates, k) && AcceptableOnes(config, candidates) == [candidates[k]]
  {
    if candidates == [] {
    } else {
      var rest := candidates[1..];
      AcceptableOnesAre(config, rest);
      assert forall i :: 0 <= i < |rest| ==> rest[i] == candidates[i + 1];
      if Acceptable(config, candidates[0]) {
        if AcceptableOnes(config, rest) == [] {
          assert OnlyAcceptable(config, candidates, 0);
        } else {
          var i :| 0 <= i < |rest| && Acceptable(config, rest[i]);
          assert Acceptable(config, candidates[0]) && Acceptable(config, candidates[i + 1]);
        }
      } else {
        AcceptableInRest(config, candidates);
      }
    }
  }

  lemma AcceptableInRest(config: Config, candidates: seq<Candidate>)
    requires candidates != [] && !Acceptable(config, candidates[0])
    ensures SeveralAcceptable(config, candidates) <==> SeveralAcceptable(config, candidates[1..])
    ensures forall k: nat :: OnlyAcceptable(config, candidates[1..], k) ==> OnlyAcceptable(config, candidates, k + 1)
  {
    var rest := candidates[1..];
    assert forall i :: 0 <= i < |rest| ==> rest[i] == candidates[i + 1];
    if SeveralAcceptable(config, candidates) {
      var i, j :| 0 <= i < j < |candidates| && Acceptable(config, candidates[i]) && Acceptable(config, candidates[j]);
      assert Acceptable(config, rest[i - 1]) && Acceptable(config, rest[j - 1]);
    }
    if SeveralAcceptable(config, rest) {
      var i, j :| 0 <= i < j < |rest| && Acceptable(config, rest[i]) && Acceptable(config, rest[j]);
      assert Acceptable(config, candidates[i + 1]) && Acceptable(config, candidates[j + 1]);
    }
    forall k: nat | OnlyAcceptable(config, rest, k)
      ensures OnlyAcceptable(config, candidates, k + 1)
    {
      forall i | 0 <= i < |candidates| && i != k + 1
        ensures !Acceptable(config, candidates[i])
      {
        if i > 0 { assert rest[i - 1] == candidates[i]; }
      }
    }
  }

  /** A device is asked to pair only if it is the one acceptable candidate; several, or more than fit, end the session;
      otherwise the scan goes on. */
  lemma PairsOnlyWithTheOne(n: Node, io: Io)
    requires n.HasChannel() && n.phase == Discovery
    ensures
      var n', c := ChooseCandidate(n, io), n.scan.candidates;
      && (n'.phase == Idle <==> n.scan.overflow || SeveralAcceptable(n.config, c))
      && (n'.phase == Response ==> exists k: nat :: OnlyAcceptable(n.config, c, k) && n'.tx.peer == c[k].address)
      && (n'.phase == Response || n'.phase == Idle || n'.phase == Discovery)
  {
    hide Finish, NextChannel, AcceptableOnes, SeveralAcceptable, OnlyAcceptable;
    AcceptableOnesAre(n.config, n.scan.candidates);
    var accepted := AcceptableOnes(n.config, n.scan.candidates);
    FinishFrame(n, INVALID_RESPONSE, io);
    NextChannelFrame(n, io);
    if accepted != [] { NextChannelFrame(n.(tx := Named(n.tx, accepted[0]), scanError := OTHER), io); }
  }

  /** Where the scan stands after some more tries. */
  function AdvancedBy(s: Scan, tries: nat): (r: Scan)
    requires s.channelIndex < |s.channels|
    ensures r.channelIndex < |r.channels| && r.channels == s.channels
  {
    if tries == 0 then s else Advanced(AdvancedBy(s, tries - 1))
  }

  /** The channels take turns, each for two tries. */
  lemma {:induction false} ChannelsTakeTurns(s: Scan, tries: nat)
    requires s.channelIndex < |s.channels| && s.channelAttempt == 0
    ensures AdvancedBy(s, tries).channelIndex == (s.channelIndex + tries / 2) % |s.channels|
    ensures AdvancedBy(s, tries).channelAttempt == tries % 2
  {
    if tries == 0 {
      SmallIndex(s.channelIndex, |s.channels|);
    } else {
      ChannelsTakeTurns(s, tries - 1);
      Halves(tries);
      NextIndex(s.channelIndex + (tries - 1) / 2, |s.channels|);
    }
  }

  lemma Halves(t: nat)
    requires t > 0
    ensures t % 2 == 0 ==> (t - 1) % 2 == 1 && t / 2 == (t - 1) / 2 + 1
    ensures t % 2 == 1 ==> (t - 1) % 2 == 0 && t / 2 == (t - 1) / 2
  {
  }

  lemma SmallIndex(i: nat, n: nat)
    requires i < n
    ensures i % n == i
  {
  }

  lemma NextIndex(i: nat, n: nat)
    requires n > 0
    ensures (i % n + 1) % n == (i + 1) % n
  {
    var q, r := i / n, i % n;
    assert i == q * n + r;
    if r + 1 == n {
      assert i + 1 == (q + 1) * n;
      WholeTurns(i + 1, n, q + 1, 0);
      WholeTurns(n, n, 1, 0);
    } else {
      WholeTurns(i + 1, n, q, r + 1);
      SmallIndex(r + 1, n);
    }
  }

  lemma WholeTurns(i: nat, n: nat, q: nat, r: nat)
    requires r < n && i == q * n + r
    ensures i % n == r
  {
    var p, s := i / n, i % n;
    assert i == p * n + s;
    assert (p - q) * n == p * n - q * n;
    Multiple(p - q, n);
  }

  lemma Multiple(d: int, n: int)
    requires n >= 0
    ensures d >= 1 ==> d * n >= n
    ensures d <= -1 ==> d * n <= -n
  {
    if d >= 1 {
      assert d * n == n + (d - 1) * n;
      Sequences.MulLe(0, d - 1, n);
    } else if d <= -1 {
      assert d * n == -n - (-d - 1) * n;
      Sequences.MulLe(0, -d - 1, n);
    }
  }
}
