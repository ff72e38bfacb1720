/** Every input of a pairing device keeps its invariant and changes its ledger only as the input explains. */
module PairingRuns {
  import opened Basics
  import opened PairingSteps
  import opened PairingInvariants
  import opened PairingPreservation

  lemma ConfirmExplained(n: Node, n1: Node, n': Node, m: Option<Incoming>, io: Io)
    requires ConfirmOutcome(n1, n') && NodeOk(n')
    requires n1.ledger == n.ledger && n1.tx == n.tx && (n.phase == Responding || n.phase == WaitConfirm)
    requires n.confirmPending || Says(m, n.tx.peer, PairConfirm(n.tx.nonce))
    ensures Explained(n, n', m, io)
  {
  }

  lemma ConfirmFine(n: Node, source: Mac, nonce: nat, m: Option<Incoming>, io: Io)
    requires NodeOk(n) && Says(m, source, PairConfirm(nonce))
    ensures
      var n' := AcceptConfirm(n, source, nonce, io);
      Stepped(n, n') && Explained(n, n', m, io)
  {
    hide NodeOk, Explained, Extends, AcceptConfirm, ConfirmOutcome;
    var n' := AcceptConfirm(n, source, nonce, io);
    if n.phase == WaitConfirm && n.tx.nonce != 0 && source == n.tx.peer && nonce == n.tx.nonce {
      AcceptConfirmOk(n, io);
      ConfirmExplained(n, n, n', m, io);
    } else {
      IgnoredConfirm(n, source, nonce, io);
      ExtendsRefl(n.ledger);
      UnchangedExplained(n, n', m, io);
    }
  }

  lemma IgnoredConfirm(n: Node, source: Mac, nonce: nat, io: Io)
    requires n.phase != WaitConfirm || n.tx.nonce == 0 || source != n.tx.peer || nonce != n.tx.nonce
    ensures AcceptConfirm(n, source, nonce, io) == n
  {
  }

  // ---- callbacks ----

  /** The responder's key is installed once its response is on the air. */
  function Keying(n: Node): Node {
    n.(runtime := n.runtime[n.tx.peer := Encrypted(n.tx.lmk)], phase := WaitConfirm, confirmPending := false)
  }

  lemma TraceWidened(l: Ledger, runtime: map<Mac, Mode>, m: Mac, key: Key)
    requires RuntimeTraced(l, runtime, None)
    ensures RuntimeTraced(l, runtime[m := Encrypted(key)], Some((m, key)))
  {
  }

  lemma KeyingOk(n: Node)
    requires NodeOk(n) && n.phase == Responding
    ensures Stepped(n, Keying(n))
  {
    ExtendsRefl(n.ledger);
    TraceWidened(n.ledger, n.runtime, n.tx.peer, n.tx.lmk);
    BindingsReplaced(n.store, n.runtime, n.suspended, n.tx.peer, Encrypted(n.tx.lmk));
    hide BindingsLive, LedgerOk, StoreTraced, RuntimeTraced, MessagesBacked, Extends, CandidatesReal;
  }

  lemma KeyingExplained(n: Node, m: Option<Incoming>, io: Io)
    requires n.phase == Responding
    ensures Explained(n, Keying(n), m, io)
  {
  }

  lemma KeyingFine(n: Node, io: Io)
    requires NodeOk(n) && n.phase == Responding
    ensures
      var n1 := n.(runtime := n.runtime[n.tx.peer := Encrypted(n.tx.lmk)], phase := WaitConfirm);
      var n' :=
        if n1.confirmPending then AcceptConfirm(n1.(confirmPending := false), n1.tx.peer, n1.tx.nonce, io) else n1;
      Stepped(n, n') && Explained(n, n', None, io)
  {
    hide NodeOk, Explained, Extends, AcceptConfirm, ConfirmOutcome;
    KeyingOk(n);
    KeyingExplained(n, None, io);
    var k := Keying(n);
    if n.confirmPending {
      var n' := AcceptConfirm(k, k.tx.peer, k.tx.nonce, io);
      AcceptConfirmOk(k, io);
      ConfirmExplained(n, k, n', None, io);
      ExtendsTrans(n.ledger, k.ledger, n'.ledger);
    } else {
      assert k == n.(runtime := n.runtime[n.tx.peer := Encrypted(n.tx.lmk)], phase := WaitConfirm);
    }
  }

  lemma WaitsForResult(n: Node)
    requires NodeOk(n) && n.phase == Confirm && n.tx.extended
    ensures Stepped(n, n.(phase := Result, requestAttempt := 0))
  {
    ExtendsRefl(n.ledger);
    hide BindingsLive, LedgerOk, StoreTraced, RuntimeTraced, MessagesBacked, Extends, CandidatesReal;
  }

  lemma WaitsExplained(n: Node, m: Option<Incoming>, io: Io)
    requires NodeOk(n) && n.phase == Confirm
    ensures Explained(n, n.(phase := Result, requestAttempt := 0), m, io)
  {
  }

  lemma RoleOf(n: Node)
    requires NodeOk(n)
    ensures n.HasChannel()
    ensures ResponderPhase(n.phase) || n.phase == Listening ==> !n.initiator && n.phase != Idle
  {
  }

  lemma RetryFine(n: Node, error: Error, attempt: nat, m: Option<Incoming>, io: Io)
    requires NodeOk(n) && InitiatorPhase(n.phase) && FreshNonce(n, io)
    ensures
      n.HasChannel() &&
      var n' := NextChannel(n.(scanError := error, requestAttempt := attempt), io);
      Stepped(n, n') && Explained(n, n', m, io)
  {
    hide NodeOk, NextChannel, Explained, Extends;
    RoleOf(n);
    RetouchedOk(n, error, attempt);
    var n1 := n.(scanError := error, requestAttempt := attempt);
    NextChannelOk(n1, io);
    QuietedExplained(n, NextChannel(n1, io), m, io);
  }

  lemma CallbackFine(n: Node, callback: Callback, token: nat, done: bool, io: Io)
    requires NodeOk(n) && FreshNonce(n, io)
    ensures
      n.HasChannel() &&
      var n' := ProcessCallback(n, callback, token, done, io);
      Stepped(n, n') && Explained(n, n', None, io)
  {
    hide NodeOk, NextChannel, Explained, Extends, AcceptConfirm, Rollback, CommitInitiator, Finish;
    RoleOf(n);
    ExtendsRefl(n.ledger);
    UnchangedExplained(n, n, None, io);
    if n.phase == Responding {
      KeyingFine(n, io);
      ListenAgainFine(n, if done then OTHER else FAIL, None, io);
    } else if n.phase == Confirm {
      if !done {
        RetryFine(n, TIMEOUT, n.requestAttempt, None, io);
        assert n.(scanError := TIMEOUT) == n.(scanError := TIMEOUT, requestAttempt := n.requestAttempt);
      } else if n.tx.extended {
        WaitsForResult(n);
        WaitsExplained(n, None, io);
      } else {
        CommitFine(n, None, io);
      }
    } else if n.phase == SendResult {
      FinishFine(n, if n.tx.committed then (if done then OK else TIMEOUT) else n.scanError, None, io);
    }
  }

  // ---- messages ----

  lemma QueryAnswerFine(n: Node, e: Incoming, io: Io)
    requires NodeOk(n) && n.completed.nonce != 0
    ensures
      var n' := Sent(n, n.completed.peer, PairResult(n.completed.nonce, OK), true, io.sendOk);
      Stepped(n, n') && Explained(n, n', Some(e), io)
  {
    CompletedIsBacked(n);
    hide NodeOk, Stepped, Explained, Sent;
    SentFine(n, n.completed.peer, PairResult(n.completed.nonce, OK), true, io.sendOk, Some(e), io);
  }

  lemma CompletedIsBacked(n: Node)
    requires NodeOk(n) && n.completed.nonce != 0
    ensures Backed(n.ledger, n.completed.peer, PairResult(n.completed.nonce, OK))
  {
  }

  lemma PendingFine(n: Node, e: Incoming, io: Io)
    requires NodeOk(n) && n.phase == Responding && SameTransaction(n, e) && e.message.PairConfirm?
    ensures
      var n' := n.(confirmPending := true);
      Stepped(n, n') && Explained(n, n', Some(e), io)
  {
    PendingOk(n);
    ExtendsRefl(n.ledger);
    hide NodeOk, Extends;
  }

  lemma PendingOk(n: Node)
    requires NodeOk(n) && n.phase == Responding
    ensures NodeOk(n.(confirmPending := true))
  {
    hide BindingsLive, LedgerOk, StoreTraced, RuntimeTraced, MessagesBacked, Extends, CandidatesReal;
  }

  lemma ResultFine(n: Node, e: Incoming, error: Error, io: Io)
    requires NodeOk(n)
    requires e.message == PairResult(e.message.nonce, error)
             || (e.message.PairRefusal? && e.message.error == error)
    ensures
      var n' := ProcessResult(n, e, error, io);
      Stepped(n, n') && Explained(n, n', Some(e), io)
  {
    hide NodeOk, Explained, Extends, CommitInitiator, Finish;
    ExtendsRefl(n.ledger);
    UnchangedExplained(n, n, Some(e), io);
    if SameTransaction(n, e) && (n.phase == Confirm || n.phase == Result || n.phase == Response) {
      if error == OK && n.phase != Response { CommitFine(n, Some(e), io); }
      else if error != OK { FinishFine(n, error, Some(e), io); }
    }
  }

  lemma PingFine(n: Node, e: Incoming, io: Io)
    requires NodeOk(n) && e.message.Ping? && e.message.nonce != 0
    ensures
      n.HasChannel() &&
      var n' := ProcessMessage(n, e, io);
      Stepped(n, n') && Explained(n, n', Some(e), io)
  {
    hide NodeOk, Explained, Extends, AnswerDiscovery, Suspend;
    RoleOf(n);
    ExtendsRefl(n.ledger);
    UnchangedExplained(n, n, Some(e), io);
    if n.phase == Listening { SuspendAnswerFine(n, e, io); }
    else if n.phase == WaitConfirm { AnswerFine(n, e, Some(e), io); }
  }

  lemma MessageFine(n: Node, e: Incoming, io: Io)
    requires NodeOk(n) && FreshNonce(n, io) && FreshKey(n, io) && RealAddress(e.source)
    ensures
      n.HasChannel() &&
      var n' := ProcessMessage(n, e, io);
      Stepped(n, n') && Explained(n, n', Some(e), io)
  {
    hide NodeOk, Explained, Extends, AnswerDiscovery, Suspend, RespondPair, CollectCandidate, AcceptResponse,
      AcceptConfirm, ProcessResult, Sent;
    RoleOf(n);
    ExtendsRefl(n.ledger);
    UnchangedExplained(n, n, Some(e), io);
    if Admitted(n, e) {
      match e.message
      case ResultQuery(_) => if n.completed.nonce != 0 { QueryAnswerFine(n, e, io); }
      case Ping(_) => PingFine(n, e, io);
      case DiscoveryResponse(_, _) => CollectFine(n, e, io);
      case DiscoveryInfo(_, _, _) => CollectFine(n, e, io);
      case PairRequest(_) => if n.phase != Idle { RespondFine(n, e, io); }
      case PairRequestV2(_, _) => if n.phase != Idle { RespondFine(n, e, io); }
      case PairResponse(_, lmk) => if n.phase == Response { AcceptResponseFine(n, e, lmk, false, io); }
      case PairResponseV2(_, lmk) => if n.phase == Response { AcceptResponseFine(n, e, lmk, true, io); }
      case PairConfirm(nonce) =>
        if n.phase == Responding && SameTransaction(n, e) { PendingFine(n, e, io); }
        else { ConfirmFine(n, e.source, nonce, Some(e), io); }
      case PairResult(_, error) => ResultFine(n, e, error, io);
      case PairRefusal(_, _, error) => ResultFine(n, e, error, io);
    }
  }

  // ---- time ----

  lemma AskAgainFine(n: Node, io: Io)
    requires NodeOk(n) && n.phase == Response && FreshNonce(n, io)
    ensures n.HasChannel() && Stepped(n, AskAgain(n, io)) && Explained(n, AskAgain(n, io), None, io)
  {
    hide NodeOk, Explained, Extends, RequestPair, NextChannel;
    RoleOf(n);
    RetouchedOk(n, n.scanError, n.requestAttempt + 1);
    var n1 := n.(requestAttempt := n.requestAttempt + 1);
    assert n1 == n.(scanError := n.scanError, requestAttempt := n.requestAttempt + 1);
    RequestPairOk(n1, io.sendOk);
    UnchangedExplained(n, RequestPair(n1, io.sendOk), None, io);
    RetryFine(n, TIMEOUT, n.requestAttempt + 1, None, io);
    assert n1.(scanError := TIMEOUT) == n.(scanError := TIMEOUT, requestAttempt := n.requestAttempt + 1);
  }

  lemma QueryAgainFine(n: Node, io: Io)
    requires NodeOk(n) && n.phase == Result && FreshNonce(n, io)
    ensures n.HasChannel() && Stepped(n, QueryAgain(n, io)) && Explained(n, QueryAgain(n, io), None, io)
  {
    hide NodeOk, Explained, Extends, Sent, NextChannel;
    RoleOf(n);
    RetouchedOk(n, n.scanError, n.requestAttempt + 1);
    var n1 := n.(requestAttempt := n.requestAttempt + 1);
    assert n1 == n.(scanError := n.scanError, requestAttempt := n.requestAttempt + 1);
    SentOk(n1, n1.tx.peer, ResultQuery(n1.tx.nonce), true, io.sendOk);
    UnchangedExplained(n, Sent(n1, n1.tx.peer, ResultQuery(n1.tx.nonce), true, io.sendOk), None, io);
    RetryFine(n, TIMEOUT, n.requestAttempt + 1, None, io);
    assert n1.(scanError := TIMEOUT) == n.(scanError := TIMEOUT, requestAttempt := n.requestAttempt + 1);
  }

  lemma TimeoutFine(n: Node, io: Io)
    requires NodeOk(n) && FreshNonce(n, io)
    ensures n.HasChannel() && Stepped(n, PhaseTimeout(n, io)) && Explained(n, PhaseTimeout(n, io), None, io)
  {
    hide NodeOk, Explained, Extends, ChooseCandidate, AskAgain, QueryAgain, NextChannel, Rollback, Finish;
    RoleOf(n);
    ExtendsRefl(n.ledger);
    UnchangedExplained(n, n, None, io);
    match n.phase
    case Discovery => ChooseFine(n, io);
    case Response => AskAgainFine(n, io);
    case Confirm =>
      RetryFine(n, TIMEOUT, n.requestAttempt, None, io);
      assert n.(scanError := TIMEOUT) == n.(scanError := TIMEOUT, requestAttempt := n.requestAttempt);
    case Result => QueryAgainFine(n, io);
    case Responding => ListenAgainFine(n, TIMEOUT, None, io);
    case WaitConfirm => ListenAgainFine(n, TIMEOUT, None, io);
    case SendResult => FinishFine(n, if n.tx.committed then TIMEOUT else n.scanError, None, io);
    case _ =>
  }

  lemma TickFine(n: Node, windowElapsed: bool, phaseElapsed: bool, io: Io)
    requires NodeOk(n) && FreshNonce(n, io)
    ensures
      n.HasChannel() &&
      var n' := Tick(n, windowElapsed, phaseElapsed, io);
      Stepped(n, n') && Explained(n, n', None, io)
  {
    hide NodeOk, Explained, Extends, Finish, PhaseTimeout;
    RoleOf(n);
    ExtendsRefl(n.ledger);
    UnchangedExplained(n, n, None, io);
    FinishFine(n, INVALID_STATE, None, io);
    FinishFine(n, if !n.initiator || n.scanError == OK then TIMEOUT else n.scanError, None, io);
    TimeoutFine(n, io);
  }

  // ---- sessions ----

  lemma StartFine(n: Node, channels: seq<nat>, io: Io)
    requires NodeOk(n) && FreshNonce(n, io) && channels != []
    ensures Stepped(n, StartInitiator(n, channels, io)) && Explained(n, StartInitiator(n, channels, io), None, io)
  {
    hide NodeOk, Explained, Extends, ScanChannel;
    StartInitiatorOk(n, channels, io);
    if n.phase == Idle {
      StartQuiet(n, channels, io);
      QuietedExplained(n, StartInitiator(n, channels, io), None, io);
    } else {
      UnchangedExplained(n, n, None, io);
    }
  }

  lemma StartQuiet(n: Node, channels: seq<nat>, io: Io)
    requires n.phase == Idle && channels != []
    ensures Quieted(n, StartInitiator(n, channels, io))
  {
  }

  lemma ListenFine(n: Node, io: Io)
    requires NodeOk(n)
    ensures Stepped(n, StartResponder(n)) && Explained(n, StartResponder(n), None, io)
  {
    ListenOk(n);
    hide NodeOk, Explained, Extends;
    if n.phase == Idle { QuietedExplained(n, StartResponder(n), None, io); }
    else { UnchangedExplained(n, n, None, io); }
  }

  lemma ListenOk(n: Node)
    requires NodeOk(n)
    ensures Stepped(n, StartResponder(n))
  {
    ExtendsRefl(n.ledger);
    hide BindingsLive, LedgerOk, StoreTraced, RuntimeTraced, MessagesBacked, Extends, CandidatesReal;
  }

  lemma ForgetFine(n: Node, address: Mac, ok: bool, io: Io)
    requires NodeOk(n)
    ensures Stepped(n, Forget(n, address, ok)) && Explained(n, Forget(n, address, ok), None, io)
  {
    ForgetOk(n, address, ok);
    hide NodeOk, Extends;
  }

  lemma ForgottenParts(l: Ledger, store: map<Mac, Saved>, runtime: map<Mac, Mode>, address: Mac)
    requires BindingsLive(store, runtime, false, None) && StoreTraced(l, store) && address in store
    ensures
      var store' := Removed(store, address);
      && BindingsLive(store', Removed(runtime, address), false, None) && StoreTraced(l, store')
      && |store'| < |store|
  {
    var store' := Removed(store, address);
    assert store'.Keys == store.Keys - {address};
    assert |store'.Keys| == |store.Keys| - 1 && |store'| == |store'.Keys| && |store| == |store.Keys|;
  }

  lemma ForgottenMaps(n: Node, address: Mac)
    requires NodeOk(n) && n.phase == Idle && address in n.store
    ensures
      var store := Removed(n.store, address);
      && BindingsLive(store, Removed(n.runtime, address), false, None) && StoreTraced(n.ledger, store)
      && |store| <= MAX_SAVED_PEERS && RuntimeTraced(n.ledger, Removed(n.runtime, address), None)
  {
    hide BindingsLive, LedgerOk, StoreTraced, RuntimeTraced, MessagesBacked, CandidatesReal, Removed;
    ForgottenParts(n.ledger, n.store, n.runtime, address);
    RemovedIsTraced(n.ledger, n.runtime, address, ZERO_KEY);
  }

  lemma ForgetOk(n: Node, address: Mac, ok: bool)
    requires NodeOk(n)
    ensures Stepped(n, Forget(n, address, ok))
  {
    ExtendsRefl(n.ledger);
    if n.phase == Idle && address in n.store && ok { ForgottenMaps(n, address); }
    hide BindingsLive, LedgerOk, StoreTraced, RuntimeTraced, MessagesBacked, Extends, CandidatesReal, Removed;
  }

  lemma RestartOk(n: Node)
    requires NodeOk(n)
    ensures Stepped(n, Restarted(n))
  {
    hide BindingsLive, LedgerOk, StoreTraced, RuntimeTraced, MessagesBacked, Extends, Restored;
    StoreIsReal(n);
    NothingTraced(n.ledger);
    RestoredIsLive(n.ledger, n.store, map[], None);
    ExtendsRefl(n.ledger);
  }

  lemma NothingTraced(l: Ledger)
    ensures RuntimeTraced(l, map[], None)
  {
  }

  lemma RestartFine(n: Node, io: Io)
    requires NodeOk(n)
    ensures Stepped(n, Restarted(n)) && Explained(n, Restarted(n), None, io)
  {
    hide NodeOk, Explained, Extends;
    RestartOk(n);
    QuietedExplained(n, Restarted(n), None, io);
  }

  // ---- all of it ----

  /** The message an input delivers, if it delivers one. */
  function MessageOf(input: Input): Option<Incoming> {
    if input.InMessage? then Some(input.e) else None
  }

  /** What a step may count on: a random number not used before and a key never met before, and messages with a real
      sender. */
  predicate Sane(n: Node, input: Input, io: Io) {
    FreshNonce(n, io) && FreshKey(n, io) && (input.InMessage? ==> RealAddress(input.e.source))
  }

  /** Every input keeps the invariant and has its effects explained. */
  lemma StepFine(n: Node, input: Input, io: Io)
    requires NodeOk(n) && Sane(n, input, io)
    ensures n.HasChannel()
    ensures Stepped(n, Step(n, input, io)) && Explained(n, Step(n, input, io), MessageOf(input), io)
  {
    hide NodeOk, Explained, Extends, StartInitiator, StartResponder, Restarted, Finish, Forget, ProcessMessage,
      ProcessCallback, Tick;
    RoleOf(n);
    ExtendsRefl(n.ledger);
    UnchangedExplained(n, n, None, io);
    match input
    case InStart(channels) => if channels != [] { StartFine(n, channels, io); }
    case InListen => ListenFine(n, io);
    case InCancel => FinishFine(n, INVALID_STATE, None, io);
    case InRestart => RestartFine(n, io);
    case InForget(address, ok) => ForgetFine(n, address, ok, io);
    case InMessage(e) => MessageFine(n, e, io);
    case InCallback(callback, token, done) => CallbackFine(n, callback, token, done, io);
    case InTick(windowElapsed, phaseElapsed) => TickFine(n, windowElapsed, phaseElapsed, io);
  }
}
