/** What a pairing device must do: each message, callback and deadline in the phase that waits for it has its effect,
    stated on the device before and after one step. */
module PairingProgress {
  import opened Basics
  import opened PairingSteps
  import opened PairingInvariants
  import opened PairingResults

  /** The world plays along: peers, messages and NVS writes are taken, the radio is on and follows. */
  predicate Good(io: Io) {
    io.addOk && io.sendOk && io.pingOk && io.saveOk && io.channelOk && io.active
  }

  /** What only a session's end or a saved peer changes. */
  predicate Keeps(n: Node, n': Node) {
    n'.address == n.address && n'.config == n.config && n'.store == n.store && n'.reports == n.reports
  }

  predicate Sends(n: Node, n': Node, more: seq<Outgoing>) {
    n'.outbox == n.outbox + more
  }

  /** What the link does not take is not sent. */
  function IfTaken(io: Io, more: seq<Outgoing>): seq<Outgoing> {
    if io.sendOk then more else []
  }

  lemma SentIs(n: Node, destination: Mac, message: Message, reliable: bool, ok: bool)
    requires destination == BROADCAST
             || (destination in n.runtime && (reliable ==> n.runtime[destination].Encrypted?))
    ensures SendOk(n, destination, reliable, ok) == ok
    ensures Sent(n, destination, message, reliable, ok)
         == n.(outbox := n.outbox + if ok then [Outgoing(destination, message, reliable)] else [])
  {
  }

  // ---- discovery ----

  /** A scan of one channel has begun: a transaction under this nonce without a peer, and no candidates yet. */
  predicate Searching(n: Node, nonce: nat, channel: nat) {
    && n.phase == Discovery && n.initiator && !n.confirmPending && n.HasChannel()
    && n.scan.channels[n.scan.channelIndex] == channel && n.scan.candidates == [] && !n.scan.overflow
    && n.tx.nonce == nonce && n.tx.channel == channel && n.tx.peer == NO_MAC && n.tx.lmk == ZERO_KEY
    && !n.tx.extended && !n.tx.committed
  }

  /** Starting to pair: a ping under a new nonce goes out on the first channel. */
  lemma StartPings(n: Node, channels: seq<nat>, io: Io)
    requires n.HasChannel() && n.phase == Idle && n.tx == NO_TRANSACTION && channels != [] && Good(io)
    ensures
      var n' := Step(n, InStart(channels), io);
      && Searching(n', io.nonce, channels[0]) && Keeps(n, n')
      && n'.scan.channels == channels && n'.scan.wifiChannel == channels[0]
      && n'.scan.restoreChannel == n.scan.wifiChannel && n'.runtime == n.runtime && n'.scanError == NOT_FOUND
      && n'.tx.token == n.nextToken < n'.nextToken
      && Sends(n, n', [Outgoing(BROADCAST, Ping(io.nonce), false)])
  {
  }

  lemma ListenStarts(n: Node, io: Io)
    requires n.HasChannel() && n.phase == Idle
    ensures
      var n' := Step(n, InListen, io);
      && n'.phase == Listening && !n'.initiator && Keeps(n, n') && n'.outbox == n.outbox && n'.tx == n.tx
      && n'.scanError == NOT_FOUND
      && n'.runtime == n.runtime && n'.confirmPending == n.confirmPending && n'.HasChannel() && n'.ledger == n.ledger
      && n'.completed == n.completed
  {
  }

  /** A listening device answers a ping twice, with its role and in the older form, and forgets the binding of whoever
      asks, so as to hear a request in plaintext. */
  lemma PingIsAnswered(n: Node, e: Incoming, io: Io)
    requires n.HasChannel() && n.phase == Listening && e.message.Ping? && e.message.nonce != 0
    ensures
      var n' := Step(n, InMessage(e), io);
      && n'.phase == Listening && Keeps(n, n') && n'.tx == n.tx && n'.initiator == n.initiator && n'.HasChannel()
      && n'.confirmPending == n.confirmPending && n'.ledger == n.ledger && n'.completed == n.completed
      && e.source !in n'.runtime
      && (forall m :: m in n.runtime && m != e.source ==> m in n'.runtime && n'.runtime[m] == n.runtime[m])
      && n'.suspended == (n.suspended || e.source in n.runtime)
      && Sends(n, n', IfTaken(io, Answers(n, e)))
  {
    hide AnswerDiscovery;
    AnswersWith(Suspend(n, e.source), e, io);
  }

  function Answers(n: Node, e: Incoming): seq<Outgoing> {
    [Outgoing(BROADCAST, DiscoveryInfo(e.source, e.message.nonce, n.config.localRole), false),
     Outgoing(BROADCAST, DiscoveryResponse(e.source, e.message.nonce), false)]
  }

  lemma AnswersWith(n: Node, e: Incoming, io: Io)
    ensures AnswerDiscovery(n, e, io) == n.(outbox := n.outbox + IfTaken(io, Answers(n, e)))
  {
    hide Sent;
    var info := DiscoveryInfo(e.source, e.message.nonce, n.config.localRole);
    var n1 := Sent(n, BROADCAST, info, false, io.sendOk);
    SentIs(n, BROADCAST, info, false, io.sendOk);
    SentIs(n1, BROADCAST, DiscoveryResponse(e.source, e.message.nonce), false, io.sendOk);
  }

  predicate Unknown(candidates: seq<Candidate>, address: Mac) {
    forall i :: 0 <= i < |candidates| ==> candidates[i].address != address
  }

  predicate FirstAt(candidates: seq<Candidate>, address: Mac, k: nat) {
    k < |candidates| && candidates[k].address == address
    && forall i :: 0 <= i < k ==> candidates[i].address != address
  }

  lemma {:induction false} FindFirst(candidates: seq<Candidate>, address: Mac)
    ensures
      var i := FindCandidate(candidates, address);
      if i == |candidates| then Unknown(candidates, address) else FirstAt(candidates, address, i)
  {
    if candidates == [] {
    } else {
      FindFirst(candidates[1..], address);
      assert forall i :: 1 <= i < |candidates| ==> candidates[i] == candidates[1..][i - 1];
    }
  }

  /** An answer under the current nonce, on the channel being scanned, makes its sender a candidate, four at most; the
      answer with a role tells the role of a new or a known candidate. Any other answer changes nothing. */
  lemma AnswerIsCollected(n: Node, e: Incoming, io: Io)
    requires n.HasChannel() && n.phase == Discovery
    requires e.message.DiscoveryResponse? || (e.message.DiscoveryInfo? && e.message.role < 32)
    requires e.message.target == n.address && e.message.nonce != 0
    ensures
      var n', c := Step(n, InMessage(e), io), n.scan.candidates;
      var info := e.message.DiscoveryInfo?;
      && n' == n.(scan := n.scan.(candidates := n'.scan.candidates, overflow := n'.scan.overflow))
      && (e.message.nonce != n.tx.nonce || e.channel != n.scan.channels[n.scan.channelIndex] ==> n' == n)
      && (e.message.nonce == n.tx.nonce && e.channel == n.scan.channels[n.scan.channelIndex] ==>
            && (Unknown(c, e.source) && |c| != 4 ==>
                  n'.scan.candidates == c + [Candidate(e.source, if info then e.message.role else 0, info)]
                  && n'.scan.overflow == n.scan.overflow)
            && (Unknown(c, e.source) && |c| == 4 ==> n'.scan.candidates == c && n'.scan.overflow)
            && (forall k: nat :: FirstAt(c, e.source, k) ==>
                  n'.scan.candidates == c[k := if info then Candidate(e.source, e.message.role, true) else c[k]]
                  && n'.scan.overflow == n.scan.overflow))
  {
    hide Collected;
    FindFirst(n.scan.candidates, e.source);
    CollectedIs(n.scan.candidates, e);
    hide FindCandidate;
  }

  lemma CollectedIs(c: seq<Candidate>, e: Incoming)
    requires e.message.DiscoveryResponse? || e.message.DiscoveryInfo?
    ensures
      var c', info := Collected(c, e), e.message.DiscoveryInfo?;
      && (Unknown(c, e.source) ==> c' == c + [Candidate(e.source, if info then e.message.role else 0, info)])
      && (forall k: nat :: FirstAt(c, e.source, k) ==>
            c' == c[k := if info then Candidate(e.source, e.message.role, true) else c[k]])
  {
    FindFirst(c, e.source);
    hide FindCandidate;
  }

  // ---- choice ----

  predicate FitsRole(config: Config, role: nat) {
    role < 32 && (config.acceptedRoles == {} || role in config.acceptedRoles)
  }

  /** An announced role must be accepted; a candidate of the older form must be allowed. */
  predicate Fits(config: Config, c: Candidate) {
    if c.extended then FitsRole(config, c.role) else config.allowLegacy
  }

  /** The candidate at this place fits, and no other does. */
  ghost predicate OnlyOneFits(config: Config, candidates: seq<Candidate>, k: nat) {
    k < |candidates| && Fits(config, candidates[k])
    && forall i :: 0 <= i < |candidates| && i != k ==> !Fits(config, candidates[i])
  }

  ghost predicate SeveralFit(config: Config, candidates: seq<Candidate>) {
    exists i, j :: 0 <= i < j < |candidates| && Fits(config, candidates[i]) && Fits(config, candidates[j])
  }

  ghost predicate NoneFits(config: Config, candidates: seq<Candidate>) {
    forall i :: 0 <= i < |candidates| ==> !Fits(config, candidates[i])
  }

  /** The request to the transaction's peer has gone out in plaintext. */
  predicate Asking(n: Node, c: Candidate, nonce: nat, channel: nat) {
    && n.phase == Response && n.HasChannel()
    && n.tx == Transaction(c.address, nonce, n.tx.token, channel, c.role, ZERO_KEY, c.extended, false)
    && c.address in n.runtime && n.runtime[c.address] == Plain
  }

  function Request(n: Node, c: Candidate): Message {
    if c.extended then PairRequestV2(n.tx.nonce, n.config.localRole) else PairRequest(n.tx.nonce)
  }

  lemma {:induction false} OneAcceptable(config: Config, candidates: seq<Candidate>, k: nat)
    requires OnlyOneFits(config, candidates, k)
    ensures AcceptableOnes(config, candidates) == [candidates[k]]
  {
    if k == 0 {
      NoneAcceptable(config, candidates[1..]);
    } else {
      assert !Fits(config, candidates[0]);
      OneAcceptable(config, candidates[1..], k - 1);
    }
  }

  lemma {:induction false} NoneAcceptable(config: Config, candidates: seq<Candidate>)
    requires NoneFits(config, candidates)
    ensures AcceptableOnes(config, candidates) == []
  {
    if candidates == [] {
    } else {
      NoneAcceptable(config, candidates[1..]);
    }
  }

  lemma FitIsAcceptable(config: Config, candidates: seq<Candidate>)
    ensures SeveralFit(config, candidates) <==> SeveralAcceptable(config, candidates)
    ensures NoneFits(config, candidates) <==> forall i :: 0 <= i < |candidates| ==> !Acceptable(config, candidates[i])
  {
  }

  /** Once the answers are in, the one acceptable candidate is asked, in the form it announced. */
  lemma TheOneIsAsked(n: Node, k: nat, io: Io)
    requires n.HasChannel() && n.phase == Discovery && !n.scan.overflow && io.addOk && io.active
    requires OnlyOneFits(n.config, n.scan.candidates, k)
    requires n.tx.lmk == ZERO_KEY && !n.tx.committed
    ensures
      var n', c := Step(n, InTick(false, true), io), n.scan.candidates[k];
      && Asking(n', c, n.tx.nonce, n.tx.channel) && Keeps(n, n') && n'.tx.token == n.tx.token
      && n'.initiator == n.initiator && n'.confirmPending == n.confirmPending && n'.requestAttempt == 1
      && n'.scanError == (if io.sendOk then OK else OTHER)
      && (forall m :: m in n.runtime && m != c.address ==> m in n'.runtime && n'.runtime[m] == n.runtime[m])
      && Sends(n, n', IfTaken(io, [Outgoing(c.address, Request(n, c), false)]))
  {
    hide AcceptableOnes, Acceptable, Fits, NextChannel, Finish, Sent, SendOk;
    OneAcceptable(n.config, n.scan.candidates, k);
    var c := n.scan.candidates[k];
    SentIs(Chosen(n, c), c.address, Request(n, c), false, io.sendOk);
  }

  // ---- the request at the responder ----

  predicate Allowed(config: Config, m: Message) {
    if m.PairRequestV2? then FitsRole(config, m.role) else config.allowLegacy
  }

  predicate RoomFor(n: Node, address: Mac) {
    address in n.store || |n.store| < n.config.peerLimit || n.config.replaceExisting
  }

  function Offer(m: Message, key: Key): Message
    requires m.PairRequest? || m.PairRequestV2?
  {
    if m.PairRequestV2? then PairResponseV2(m.nonce, key) else PairResponse(m.nonce, key)
  }

  /** A request that a listening device allows and has room for is answered in plaintext with a key: the saved one of a
      known peer, a new one otherwise. */
  lemma RequestIsOffered(n: Node, e: Incoming, io: Io)
    requires n.HasChannel() && n.phase == Listening && !n.initiator && Good(io)
    requires (e.message.PairRequest? || e.message.PairRequestV2?) && e.message.nonce != 0 && e.source != BROADCAST
    requires Allowed(n.config, e.message) && RoomFor(n, e.source)
    ensures
      var n', known := Step(n, InMessage(e), io), e.source in n.store;
      var key := if known then n.store[e.source].key else io.key;
      var role := if e.message.PairRequestV2? then e.message.role else if known then n.store[e.source].role else 0;
      && n'.phase == Responding && Keeps(n, n') && n'.initiator == n.initiator && n'.HasChannel()
      && n'.confirmPending == n.confirmPending && n'.completed == n.completed && n'.suspended == n.suspended
      && n'.tx.token == n.nextToken < n'.nextToken
      && n'.tx == Transaction(e.source, e.message.nonce, n'.tx.token, e.channel, role, key, e.message.PairRequestV2?,
                              false)
      && n'.runtime == n.runtime[e.source := Plain]
      && Sends(n, n', [Outgoing(e.source, Offer(e.message, key), false)])
  {
    hide OfferKey, Removed;
    var begun := OpenTransaction(n, e, io);
    OfferSends(begun.(runtime := begun.runtime[e.source := Plain]), e.message, io);
  }

  lemma OfferSends(n: Node, m: Message, io: Io)
    requires (m.PairRequest? || m.PairRequestV2?) && m.nonce == n.tx.nonce && io.sendOk
    requires n.tx.peer in n.runtime && n.tx.peer != BROADCAST
    ensures OfferKey(n, m.PairRequestV2?, io)
         == n.(phase := Responding, outbox := n.outbox + [Outgoing(n.tx.peer, Offer(m, n.tx.lmk), false)])
  {
    hide Rollback, ReportResult, Sent, SendOk;
    SentIs(n.(phase := Responding), n.tx.peer, Offer(m, n.tx.lmk), false, true);
  }

  /** Otherwise nothing is opened; an extended request for which there is no room is told so. */
  lemma RequestIsRefused(n: Node, e: Incoming, io: Io)
    requires n.HasChannel() && n.phase == Listening && !n.initiator
    requires (e.message.PairRequest? || e.message.PairRequestV2?) && e.message.nonce != 0
    requires !Allowed(n.config, e.message) || !RoomFor(n, e.source)
    ensures
      var n' := Step(n, InMessage(e), io);
      && n' == n.(outbox := n'.outbox)
      && Sends(n, n', if e.message.PairRequestV2? && Allowed(n.config, e.message)
                      then IfTaken(io, [Outgoing(BROADCAST, PairRefusal(e.source, e.message.nonce, NO_MEM), false)])
                      else [])
  {
    hide OfferKey, OpenTransaction;
  }

  /** A request repeated under the same nonce, while its confirmation is awaited, gets the same key again. */
  lemma RequestIsRepeated(n: Node, e: Incoming, io: Io)
    requires n.HasChannel() && n.phase == WaitConfirm && !n.initiator && Good(io)
    requires (e.message.PairRequest? || e.message.PairRequestV2?) && e.message.nonce == n.tx.nonce != 0
    requires e.source == n.tx.peer != BROADCAST && (e.message.PairRequestV2? ==> e.message.role < 32)
    ensures
      var n' := Step(n, InMessage(e), io);
      && n' == n.(runtime := n.runtime[n.tx.peer := Plain], phase := Responding, outbox := n'.outbox)
      && Sends(n, n', [Outgoing(n.tx.peer, Offer(e.message, n.tx.lmk), false)])
  {
    hide OfferKey, OpenTransaction;
    OfferSends(n.(runtime := n.runtime[n.tx.peer := Plain]), e.message, io);
  }

  // ---- the offer at the initiator ----

  /** The offered key is installed and confirmed under encryption. */
  lemma OfferIsTaken(n: Node, e: Incoming, io: Io)
    requires n.HasChannel() && n.phase == Response && Good(io)
    requires if n.tx.extended then e.message.PairResponseV2? else e.message.PairResponse?
    requires e.message.nonce == n.tx.nonce != 0 && e.source == n.tx.peer != BROADCAST
    ensures
      var n' := Step(n, InMessage(e), io);
      && n'.phase == Confirm && Keeps(n, n') && n'.tx == n.tx.(lmk := e.message.lmk) && n'.HasChannel()
      && n'.initiator == n.initiator && n'.confirmPending == n.confirmPending && n'.scanError == OK
      && n'.runtime == n.runtime[n.tx.peer := Encrypted(e.message.lmk)]
      && Sends(n, n', [Outgoing(n.tx.peer, PairConfirm(n.tx.nonce), true)])
  {
    hide NextChannel, Sent, SendOk;
    SentIs(InstallKey(TakeKey(n, e.message.lmk)), n.tx.peer, PairConfirm(n.tx.nonce), true, true);
  }

  // ---- saving ----

  predicate Room(n: Node) {
    n.config.replaceExisting || n.tx.peer in n.store || |n.store| < 3
  }

  /** The transaction's peer is saved with its key, channel and role: beside the others, or in their place. */
  predicate Stored(n: Node, n': Node) {
    var entry := Saved(n.tx.lmk, n.tx.channel, n.tx.role);
    n'.store == if n.config.replaceExisting then map[n.tx.peer := entry] else n.store[n.tx.peer := entry]
  }

  function SaveFailure(n: Node): Error {
    if Room(n) then OTHER else NO_MEM
  }

  /** The session is over, with one report. */
  predicate EndsWith(n: Node, n': Node, error: Error) {
    && n'.phase == Idle && n'.tx == NO_TRANSACTION && !n'.confirmPending && !n'.suspended
    && n'.reports == n.reports + [Report(n.tx.peer, error, n.initiator, n.tx.extended)]
    && n'.address == n.address && n'.config == n.config && n'.outbox == n.outbox
  }

  lemma FinishEnds(n: Node, error: Error, io: Io)
    ensures EndsWith(n, Finish(n, error, io), error)
    ensures Finish(n, error, io).store == n.store && Finish(n, error, io).completed == n.completed
    ensures n.scan == Finish(n, error, io).scan.(wifiChannel := n.scan.wifiChannel)
    ensures n.tx.committed && n.tx.peer in n.store && Installed(n.runtime, n.tx.peer, n.store[n.tx.peer].key) ==>
              Installed(Finish(n, error, io).runtime, n.tx.peer, n.store[n.tx.peer].key)
    ensures Finish(n, error, io).scan.wifiChannel ==
            if n.initiator && error != OK && io.active then n.scan.restoreChannel else n.scan.wifiChannel
  {
    hide Removed;
  }

  /** The initiator's commit, once the responder has told its success: saved and reported, or the error reported. */
  ghost predicate Commits(n: Node, n': Node, io: Io) {
    if Room(n) && io.saveOk then
      && EndsWith(n, n', OK) && Stored(n, n') && Installed(n'.runtime, n.tx.peer, n.tx.lmk)
      && n'.completed == n.completed
    else EndsWith(n, n', SaveFailure(n)) && n'.store == n.store
  }

  lemma SaveIs(n: Node, io: Io)
    ensures SaveError(n, io) == if Room(n) && io.saveOk then OK else SaveFailure(n)
    ensures Stored(n, SavePeer(n))
    ensures n.tx.peer in n.runtime ==>
              n.tx.peer in SavePeer(n).runtime && SavePeer(n).runtime[n.tx.peer] == n.runtime[n.tx.peer]
    ensures SavePeer(n) == n.(store := SavePeer(n).store, runtime := SavePeer(n).runtime, ledger := SavePeer(n).ledger)
  {
  }

  lemma CommitCommits(n: Node, io: Io)
    requires Installed(n.runtime, n.tx.peer, n.tx.lmk)
    ensures Commits(n, CommitInitiator(n, io), io)
  {
    hide Finish, SavePeer, SaveError, Room;
    SaveIs(n, io);
    var s := SavePeer(n);
    var bound := s.(tx := n.tx.(committed := true),
                    ledger := s.ledger.(commits := n.ledger.commits
                                          + [Agreement(n.tx.peer, n.tx.lmk, n.tx.extended)]));
    FinishEnds(bound, OK, io);
    FinishEnds(n.(tx := n.tx.(committed := false)), SaveError(n, io), io);
  }

  /** The success of the responder, whether it comes before or after the link has confirmed the confirmation. */
  lemma SuccessIsCommitted(n: Node, e: Incoming, io: Io)
    requires n.HasChannel() && (n.phase == Confirm || n.phase == Result)
    requires n.tx.nonce != 0 && Installed(n.runtime, n.tx.peer, n.tx.lmk)
    requires e.message == PairResult(n.tx.nonce, OK) && e.source == n.tx.peer && e.reliable && !e.broadcast
    ensures Commits(n, Step(n, InMessage(e), io), io)
  {
    hide CommitInitiator, Finish, Commits, Installed;
    CommitCommits(n, io);
  }

  /** A failure told by the responder, or its refusal, ends the session with that error. */
  lemma FailureIsReported(n: Node, e: Incoming, io: Io)
    requires n.HasChannel() && (n.phase == Response || n.phase == Confirm || n.phase == Result)
    requires e.source == n.tx.peer && e.message.nonce == n.tx.nonce != 0
    requires
      || (e.message.PairResult? && !e.broadcast)
      || (e.message.PairRefusal? && e.broadcast && e.message.target == n.address)
    requires e.message.error != OK && (e.reliable || e.message.error == NO_MEM)
    ensures
      var n' := Step(n, InMessage(e), io);
      EndsWith(n, n', e.message.error) && n'.store == n.store
  {
    hide Finish, CommitInitiator;
    FinishEnds(n, e.message.error, io);
  }

  /** What the responder does with the confirmation: the peer is saved and remembered as completed, or it is not; a
      legacy session ends there, an extended one tells the outcome. */
  ghost predicate Confirms(n: Node, n': Node, io: Io) {
    var error := if Room(n) && io.saveOk then OK else SaveFailure(n);
    && (if error == OK then Stored(n, n') && n'.completed == n.tx.(committed := true)
        else n'.store == n.store && n'.completed == n.completed)
    && (if n.tx.extended then
          && n'.phase == SendResult && n'.tx == n.tx.(committed := n.tx.committed || error == OK)
          && n'.scanError == error
          && Installed(n'.runtime, n.tx.peer, n.tx.lmk) && n'.HasChannel()
          && n'.address == n.address && n'.config == n.config && n'.reports == n.reports
          && n'.initiator == n.initiator && n'.confirmPending == n.confirmPending
          && Sends(n, n', IfTaken(io, [Outgoing(n.tx.peer, PairResult(n.tx.nonce, error), true)]))
        else
          EndsWith(n, n', error))
  }

  lemma ConfirmConfirms(n: Node, io: Io)
    requires n.phase == WaitConfirm && n.tx.nonce != 0 && n.tx.peer != BROADCAST && n.HasChannel()
    requires Installed(n.runtime, n.tx.peer, n.tx.lmk)
    ensures Confirms(n, AcceptConfirm(n, n.tx.peer, n.tx.nonce, io), io)
  {
    hide Finish, SavePeer, SaveError, Room;
    SaveIs(n, io);
    var s, tx := SavePeer(n), n.tx.(committed := true);
    var saved := s.(tx := tx, completed := tx,
                    ledger := s.ledger.(confirmed := n.ledger.confirmed + {(tx.peer, tx.nonce)}));
    FinishEnds(if SaveError(n, io) == OK then saved else n, SaveError(n, io), io);
  }

  lemma ConfirmIsSaved(n: Node, e: Incoming, io: Io)
    requires n.HasChannel() && n.phase == WaitConfirm && n.tx.nonce != 0 && n.tx.peer != BROADCAST
    requires Installed(n.runtime, n.tx.peer, n.tx.lmk)
    requires e.message == PairConfirm(n.tx.nonce) && e.source == n.tx.peer && e.reliable && !e.broadcast
    ensures Confirms(n, Step(n, InMessage(e), io), io)
  {
    hide AcceptConfirm, Confirms;
    ConfirmConfirms(n, io);
  }

  // ---- callbacks of the link ----

  /** The key offer has left: the key is installed and the confirmation awaited - or dealt with, if it came early. */
  lemma OfferLeft(n: Node, io: Io)
    requires n.HasChannel() && n.phase == Responding && n.tx.nonce != 0 && n.tx.peer != BROADCAST && io.addOk
    ensures
      var n' := Step(n, InCallback(ResponseSent, n.tx.token, true), io);
      var keyed := n.(runtime := n.runtime[n.tx.peer := Encrypted(n.tx.lmk)], phase := WaitConfirm,
                      confirmPending := false);
      if n.confirmPending then Confirms(keyed, n', io) else n' == keyed
  {
    hide AcceptConfirm, Confirms;
    ConfirmConfirms(n.(runtime := n.runtime[n.tx.peer := Encrypted(n.tx.lmk)], phase := WaitConfirm,
                       confirmPending := false), io);
  }

  /** A confirmation that comes before the key offer is reported sent is kept for then. */
  lemma EarlyConfirmIsKept(n: Node, e: Incoming, io: Io)
    requires n.HasChannel() && n.phase == Responding && n.tx.nonce != 0
    requires e.message == PairConfirm(n.tx.nonce) && e.source == n.tx.peer && e.reliable && !e.broadcast
    ensures Step(n, InMessage(e), io) == n.(confirmPending := true)
  {
  }

  /** The link has delivered the confirmation: an extended pairing waits for the result, a legacy one is committed. */
  lemma ConfirmationDelivered(n: Node, io: Io)
    requires n.HasChannel() && n.phase == Confirm && n.tx.nonce != 0 && Installed(n.runtime, n.tx.peer, n.tx.lmk)
    ensures
      var n' := Step(n, InCallback(ConfirmSent, n.tx.token, true), io);
      if n.tx.extended then n' == n.(phase := Result, requestAttempt := 0) else Commits(n, n', io)
  {
    hide CommitInitiator, Finish, Commits, Installed;
    CommitCommits(n, io);
  }

  /** The result has been delivered, or not: the responder's session is over, and what it saved stays. */
  lemma ResultLeft(n: Node, done: bool, io: Io)
    requires n.HasChannel() && n.phase == SendResult && n.tx.nonce != 0
    ensures
      var n' := Step(n, InCallback(ResultSent, n.tx.token, done), io);
      && EndsWith(n, n', if !n.tx.committed then n.scanError else if done then OK else TIMEOUT)
      && n'.store == n.store && n'.completed == n.completed && n'.HasChannel()
      && (n.tx.committed && n.tx.peer in n.store && Installed(n.runtime, n.tx.peer, n.store[n.tx.peer].key) ==>
            Installed(n'.runtime, n.tx.peer, n.store[n.tx.peer].key))
  {
    hide Finish;
    FinishEnds(n, if n.tx.committed then (if done then OK else TIMEOUT) else n.scanError, io);
  }

  // ---- asking for a result that was lost ----

  /** The last completed pairing is told again to its peer. */
  lemma QueryIsAnswered(n: Node, e: Incoming, io: Io)
    requires n.HasChannel() && e.message.ResultQuery? && e.reliable && !e.broadcast
    requires e.message.nonce == n.completed.nonce != 0 && e.source == n.completed.peer != BROADCAST
    requires e.source in n.runtime && n.runtime[e.source].Encrypted?
    ensures
      var n' := Step(n, InMessage(e), io);
      && n' == n.(outbox := n'.outbox)
      && Sends(n, n', IfTaken(io, [Outgoing(e.source, PairResult(e.message.nonce, OK), true)]))
  {
  }

  // ---- deadlines ----

  /** The temporary peer of an uncommitted transaction is gone, and every saved peer is back in force. */
  ghost predicate Undone(n: Node, n': Node) {
    n.tx.nonce != 0 && n.tx.peer != NO_MAC && !n.tx.committed ==>
      && !n'.suspended && (n.tx.peer !in n.store ==> n.tx.peer !in n'.runtime)
      && (forall m :: m in n.store ==> Installed(n'.runtime, m, n.store[m].key))
      && (forall m :: m in n.runtime && m != n.tx.peer && m !in n.store ==>
            m in n'.runtime && n'.runtime[m] == n.runtime[m])
  }

  /** The scan goes on: the same channel a second time, or the next one, under a new nonce. */
  ghost predicate ScansOn(n: Node, n': Node, io: Io)
    requires n.HasChannel()
  {
    var again := n.scan.channelAttempt == 0;
    var next := if again then n.scan.channelIndex else (n.scan.channelIndex + 1) % |n.scan.channels|;
    && Searching(n', io.nonce, n.scan.channels[next]) && Keeps(n, n') && Undone(n, n')
    && n'.scan.channels == n.scan.channels && n'.scan.channelIndex == next
    && n'.scan.channelAttempt == (if again then 1 else 0)
    && n'.scan.wifiChannel == n.scan.channels[next] && n'.tx.token == n.nextToken < n'.nextToken
    && Sends(n, n', [Outgoing(BROADCAST, Ping(io.nonce), false)])
  }

  lemma UndoneByRollback(n: Node)
    ensures
      var n' := Rollback(n);
      && Undone(n, n') && n'.tx == NO_TRANSACTION && !n'.confirmPending
      && n' == n.(runtime := n'.runtime, suspended := n'.suspended, tx := n'.tx, confirmPending := n'.confirmPending)
  {
  }

  lemma NextChannelScans(n: Node, io: Io)
    requires n.HasChannel() && n.initiator && CanScan(io)
    ensures ScansOn(n, NextChannel(n, io), io) && NextChannel(n, io).scanError == n.scanError
  {
    hide Rollback, Undone;
    var advanced := n.(scan := Advanced(n.scan));
    UndoneByRollback(advanced);
    StillUndone(n, advanced, Rollback(advanced), NextChannel(n, io));
  }

  lemma StillUndone(n: Node, n1: Node, n2: Node, n3: Node)
    requires Undone(n1, n2) && n1.tx == n.tx && n1.store == n.store && n1.runtime == n.runtime
             && n3.runtime == n2.runtime
    requires n3.suspended == n2.suspended
    ensures Undone(n, n3)
  {
  }

  /** A listening device gives up a transaction: one report, and nothing left of it. */
  ghost predicate ListensAgain(n: Node, n': Node, error: Error) {
    && n'.phase == Listening && n'.tx == NO_TRANSACTION && !n'.confirmPending && Undone(n, n')
    && n'.reports == n.reports + [Report(n.tx.peer, error, n.initiator, n.tx.extended)]
    && n' == n.(phase := Listening, tx := NO_TRANSACTION, confirmPending := false, runtime := n'.runtime,
                suspended := n'.suspended, reports := n'.reports)
  }

  lemma GivenUp(n: Node, error: Error)
    ensures ListensAgain(n, Rollback(ReportResult(n, error)).(phase := Listening), error)
  {
    hide Rollback, Undone;
    var r := ReportResult(n, error);
    UndoneByRollback(r);
    StillUndone(n, r, Rollback(r), Rollback(r).(phase := Listening));
  }

  /** A message goes to the transaction's peer once more, and this is counted. */
  predicate AsksAgain(n: Node, n': Node, o: Outgoing, io: Io) {
    n' == n.(requestAttempt := n.requestAttempt + 1, outbox := n.outbox + IfTaken(io, [o]))
  }

  /** The radio is on and follows, and takes a ping. */
  predicate CanScan(io: Io) {
    io.pingOk && io.channelOk && io.active
  }

  /** The deadline of the session, or the radio: a session that has either against it ends. */
  lemma SessionEnds(n: Node, windowElapsed: bool, phaseElapsed: bool, io: Io)
    requires n.HasChannel()
    ensures
      var n' := Step(n, InTick(windowElapsed, phaseElapsed), io);
      && (n.phase == Idle || (io.active && !windowElapsed && !phaseElapsed) ==> n' == n)
      && (n.phase != Idle && !io.active ==> EndsWith(n, n', INVALID_STATE) && n'.store == n.store)
      && (n.phase != Idle && io.active && windowElapsed ==>
            EndsWith(n, n', if n.initiator && n.scanError != OK then n.scanError else TIMEOUT) && n'.store == n.store)
  {
    hide Finish, PhaseTimeout;
    FinishEnds(n, INVALID_STATE, io);
    FinishEnds(n, if !n.initiator || n.scanError == OK then TIMEOUT else n.scanError, io);
  }

  /** The deadline of a phase of the initiator: it asks or queries three times in all, and then scans on; the choice
      among candidates is made, in vain if none or several are acceptable. */
  lemma InitiatorDeadline(n: Node, io: Io)
    requires n.HasChannel() && InitiatorPhase(n.phase) && n.initiator && CanScan(io)
    requires n.phase == Response ==> n.tx.peer in n.runtime
    requires n.phase == Result ==> n.tx.peer in n.runtime && n.runtime[n.tx.peer].Encrypted?
    ensures
      var n', c := Step(n, InTick(false, true), io), n.scan.candidates;
      && (n.phase == Discovery && (n.scan.overflow || SeveralFit(n.config, c)) ==>
            EndsWith(n, n', INVALID_RESPONSE) && n'.store == n.store)
      && (n.phase == Discovery && !n.scan.overflow && NoneFits(n.config, c) ==>
            ScansOn(n, n', io) && n'.scanError == n.scanError)
      && (n.phase == Response && n.requestAttempt < 3 ==>
            AsksAgain(n, n', Outgoing(n.tx.peer, Request(n, Candidate(n.tx.peer, n.tx.role, n.tx.extended)), false),
                      io))
      && (n.phase == Result && n.requestAttempt < 3 ==>
            AsksAgain(n, n', Outgoing(n.tx.peer, ResultQuery(n.tx.nonce), true), io))
      && (n.phase == Confirm || (n.phase != Discovery && n.requestAttempt >= 3) ==>
            ScansOn(n, n', io) && n'.scanError == TIMEOUT)
  {
    hide Finish, NextChannel, ScansOn;
    match n.phase
    case Discovery =>
      AcceptableOnesAre(n.config, n.scan.candidates);
      FitIsAcceptable(n.config, n.scan.candidates);
      FinishEnds(n, INVALID_RESPONSE, io);
      NextChannelScans(n, io);
      hide AcceptableOnes, Acceptable, Fits;
    case Response => RepeatedRequest(n, io);
    case Result => RepeatedQuery(n, io);
    case Confirm =>
      NextChannelScans(n.(scanError := TIMEOUT), io);
      ScansFrom(n, n.(scanError := TIMEOUT), NextChannel(n.(scanError := TIMEOUT), io), io);
  }

  lemma ScansFrom(n: Node, n1: Node, n': Node, io: Io)
    requires n.HasChannel() && n1 == n.(scanError := n1.scanError, requestAttempt := n1.requestAttempt)
    requires ScansOn(n1, n', io)
    ensures ScansOn(n, n', io)
  {
  }

  lemma RepeatedRequest(n: Node, io: Io)
    requires n.HasChannel() && n.phase == Response && n.initiator && CanScan(io) && n.tx.peer in n.runtime
    ensures
      var n' := AskAgain(n, io);
      if n.requestAttempt < 3 then
        AsksAgain(n, n', Outgoing(n.tx.peer, Request(n, Candidate(n.tx.peer, n.tx.role, n.tx.extended)), false), io)
      else ScansOn(n, n', io) && n'.scanError == TIMEOUT
  {
    hide NextChannel, ScansOn;
    var n1 := n.(requestAttempt := n.requestAttempt + 1, scanError := TIMEOUT);
    if n.requestAttempt >= 3 {
      NextChannelScans(n1, io);
      ScansFrom(n, n1, NextChannel(n1, io), io);
    }
  }

  lemma RepeatedQuery(n: Node, io: Io)
    requires n.HasChannel() && n.phase == Result && n.initiator && CanScan(io)
    requires n.tx.peer in n.runtime && n.runtime[n.tx.peer].Encrypted?
    ensures
      var n' := QueryAgain(n, io);
      if n.requestAttempt < 3 then AsksAgain(n, n', Outgoing(n.tx.peer, ResultQuery(n.tx.nonce), true), io)
      else ScansOn(n, n', io) && n'.scanError == TIMEOUT
  {
    hide NextChannel, ScansOn;
    var n1 := n.(requestAttempt := n.requestAttempt + 1, scanError := TIMEOUT);
    if n.requestAttempt >= 3 {
      NextChannelScans(n1, io);
      ScansFrom(n, n1, NextChannel(n1, io), io);
    }
  }

  /** The deadline of a phase of the responder: an unconfirmed transaction is given up, a saved one ends the session. */
  lemma ResponderDeadline(n: Node, io: Io)
    requires n.HasChannel() && (n.phase == Listening || ResponderPhase(n.phase)) && io.active
    ensures
      var n' := Step(n, InTick(false, true), io);
      && (n.phase == Listening ==> n' == n)
      && (n.phase == Responding || n.phase == WaitConfirm ==> ListensAgain(n, n', TIMEOUT))
      && (n.phase == SendResult ==>
            EndsWith(n, n', if n.tx.committed then TIMEOUT else n.scanError) && n'.store == n.store)
  {
    hide Finish, ListensAgain, Rollback, ReportResult;
    GivenUp(n, TIMEOUT);
    FinishEnds(n, if n.tx.committed then TIMEOUT else n.scanError, io);
  }

  /** What the link could not deliver: an offer is given up, a confirmation starts the next try. Callbacks of any other
      transaction are ignored. */
  lemma UndeliveredIsGivenUp(n: Node, io: Io)
    requires n.HasChannel() && n.tx.nonce != 0 && CanScan(io)
    ensures n.phase == Responding ==>
              ListensAgain(n, Step(n, InCallback(ResponseSent, n.tx.token, false), io), FAIL)
    ensures n.phase == Confirm && n.initiator ==>
              ScansOn(n, Step(n, InCallback(ConfirmSent, n.tx.token, false), io), io)
    ensures forall callback, token, done ::
              token != n.tx.token ==> Step(n, InCallback(callback, token, done), io) == n
  {
    hide NextChannel, ScansOn, Rollback, ReportResult, ListensAgain, Finish, AcceptConfirm, CommitInitiator;
    GivenUp(n, FAIL);
    if n.phase == Confirm && n.initiator {
      NextChannelScans(n.(scanError := TIMEOUT), io);
      ScansFrom(n, n.(scanError := TIMEOUT), NextChannel(n.(scanError := TIMEOUT), io), io);
    }
  }

  // ---- calls ----

  /** Cancelling ends a session. */
  lemma CancelEnds(n: Node, io: Io)
    requires n.HasChannel()
    ensures
      var n' := Step(n, InCancel, io);
      if n.phase == Idle then n' == n else EndsWith(n, n', INVALID_STATE) && n'.store == n.store
  {
    hide Finish;
    FinishEnds(n, INVALID_STATE, io);
  }

  /** Forgetting a saved peer removes it and its binding, outside a session only. */
  lemma ForgettingIsExact(n: Node, address: Mac, ok: bool, io: Io)
    requires n.HasChannel()
    ensures
      var n' := Step(n, InForget(address, ok), io);
      if n.phase != Idle || address !in n.store || !ok then n' == n
      else
        && n' == n.(store := n'.store, runtime := n'.runtime)
        && n'.store.Keys == n.store.Keys - {address} && n'.runtime.Keys == n.runtime.Keys - {address}
        && (forall m :: m in n'.store ==> n'.store[m] == n.store[m])
        && (forall m :: m in n'.runtime ==> n'.runtime[m] == n.runtime[m])
  {
  }

  /** A restart leaves just the saved peers, in force. */
  lemma RestartKeepsPeers(n: Node, io: Io)
    requires n.HasChannel()
    ensures
      var n' := Step(n, InRestart, io);
      && n'.phase == Idle && n'.tx == NO_TRANSACTION && n'.completed == NO_TRANSACTION && !n'.suspended
      && !n'.initiator && !n'.confirmPending && n'.HasChannel() && n'.scan.candidates == [] && !n'.scan.overflow
      && n'.nextToken == 1
      && Keeps(n, n') && n'.outbox == n.outbox && n'.ledger == n.ledger
      && n'.runtime.Keys == n.store.Keys && forall m :: m in n.store ==> Installed(n'.runtime, m, n.store[m].key)
  {
  }
}
