/** The pairing task as atomic steps on a value: discovery, key exchange, confirmation, commit, rollback. The state
    also carries a record (keys ever held, nonces used, keys agreed, peers ever saved, messages ever sent, results
    reported) that no step reads. */
module PairingSteps {
  import opened Basics

  const NO_MAC: Mac := 0
  const MAX_CANDIDATES: nat := MAX_SAVED_PEERS + 1
  const REQUEST_ATTEMPTS: nat := 3

  datatype Error = OK | FAIL | NO_MEM | INVALID_STATE | INVALID_RESPONSE | TIMEOUT | NOT_FOUND | OTHER

  /** A link key. `owner` is the device that generated it; a generated key is never one its device has met before. */
  datatype Key = Key(owner: Mac, serial: nat)

  const ZERO_KEY := Key(NO_MAC, 0)

  datatype Mode = Plain | Encrypted(key: Key)

  datatype Saved = Saved(key: Key, channel: nat, role: nat)

  datatype Config = Config(localRole: nat, acceptedRoles: set<nat>, peerLimit: nat, replaceExisting: bool,
                           allowLegacy: bool)

  datatype Phase = Idle | Listening | Discovery | Response | Confirm | Result | Responding | WaitConfirm | SendResult

  /** `nonce` 0 means no transaction. */
  datatype Transaction = Transaction(peer: Mac, nonce: nat, token: nat, channel: nat, role: nat, lmk: Key,
                                     extended: bool, committed: bool)

  const NO_TRANSACTION := Transaction(NO_MAC, 0, 0, 0, 0, ZERO_KEY, false, false)

  datatype Candidate = Candidate(address: Mac, role: nat, extended: bool)

  datatype Message =
    | Ping(nonce: nat)
    | DiscoveryResponse(target: Mac, nonce: nat)
    | DiscoveryInfo(target: Mac, nonce: nat, role: nat)
    | PairRequest(nonce: nat)
    | PairRequestV2(nonce: nat, role: nat)
    | PairResponse(nonce: nat, lmk: Key)
    | PairResponseV2(nonce: nat, lmk: Key)
    | PairConfirm(nonce: nat)
    | PairResult(nonce: nat, error: Error)
    | PairRefusal(target: Mac, nonce: nat, error: Error)
    | ResultQuery(nonce: nat)

  /** A message accepted for sending. */
  datatype Outgoing = Outgoing(destination: Mac, message: Message, reliable: bool)

  /** A message that came in. */
  datatype Incoming = Incoming(source: Mac, channel: nat, message: Message, reliable: bool, broadcast: bool)

  datatype Birth = Birth(peer: Mac, nonce: nat, extended: bool)
  datatype Agreement = Agreement(peer: Mac, key: Key, extended: bool)
  datatype Report = Report(peer: Mac, error: Error, initiator: bool, extended: bool)

  /** What a device has met and done: keys it ever held, nonces it used, transactions its keys were generated for, the
      kind of request made under a nonce, the key settled under a nonce, peers ever saved with which key, commits made
      as initiator, and transactions confirmed as responder. */
  datatype Ledger = Ledger(held: set<Key>, noncesUsed: set<nat>, births: map<Key, Birth>, kinds: map<nat, bool>,
                           agreed: map<nat, Agreement>, everSaved: set<(Mac, Key)>, commits: seq<Agreement>,
                           confirmed: set<(Mac, nat)>)

  /** Where the initiator's scan stands. */
  datatype Scan = Scan(candidates: seq<Candidate>, overflow: bool, channels: seq<nat>, channelIndex: nat,
                       channelAttempt: nat, wifiChannel: nat, restoreChannel: nat)

  /** A device. A pairing session is active exactly when the phase is not `Idle`. */
  datatype Node = Node(
    address: Mac, config: Config, store: map<Mac, Saved>, runtime: map<Mac, Mode>,
    phase: Phase, tx: Transaction, completed: Transaction, initiator: bool,
    suspended: bool, confirmPending: bool, scanError: Error, requestAttempt: nat, nextToken: nat, scan: Scan,
    // the record
    ledger: Ledger, outbox: seq<Outgoing>, reports: seq<Report>) {

    predicate HasChannel() {
      scan.channelIndex < |scan.channels|
    }
  }

  /** How the world answers during one step: whether the driver takes a peer, the link takes a message (a discovery
      ping has its own answer), NVS takes a write and the radio takes a channel; whether the link is active; and what
      the random generator gives. */
  datatype Io = Io(addOk: bool, sendOk: bool, pingOk: bool, saveOk: bool, channelOk: bool, active: bool, nonce: nat,
                   key: Key)

  predicate FreshNonce(n: Node, io: Io) {
    io.nonce != 0 && io.nonce !in n.ledger.noncesUsed
  }

  predicate FreshKey(n: Node, io: Io) {
    io.key.owner == n.address && io.key !in n.ledger.held
  }

  // ---- peers ----

  function Removed<V>(peers: map<Mac, V>, m: Mac): map<Mac, V> {
    map k | k in peers && k != m :: peers[k]
  }

  /** `restore_peers`: every saved peer back at run time, encrypted, with its saved key. */
  function Restored(store: map<Mac, Saved>, runtime: map<Mac, Mode>): map<Mac, Mode> {
    runtime + map m | m in store :: Encrypted(store[m].key)
  }

  /** `rollback_transaction`. */
  function Rollback(n: Node): Node {
    var undone :=
      if n.tx.nonce != 0 && n.tx.peer != NO_MAC && !n.tx.committed
      then n.(runtime := Restored(n.store, Removed(n.runtime, n.tx.peer)), suspended := false)
      else n;
    undone.(tx := NO_TRANSACTION, confirmPending := false)
  }

  function ReportResult(n: Node, error: Error): Node {
    n.(reports := n.reports + [Report(n.tx.peer, error, n.initiator, n.tx.extended)])
  }

  /** `finish`. */
  function Finish(n: Node, error: Error, io: Io): Node {
    var n1 := Rollback(ReportResult(n, error));
    var n2 := if n1.suspended then n1.(runtime := Restored(n1.store, n1.runtime), suspended := false) else n1;
    n2.(phase := Idle,
        scan := if n2.initiator && error != OK && io.active
                then n2.scan.(wifiChannel := n2.scan.restoreChannel) else n2.scan)
  }

  /** `send`, as far as pairing can see: unicast needs a known peer, an encrypted one unless plaintext is allowed. */
  predicate CanSend(n: Node, destination: Mac, plain: bool) {
    destination == BROADCAST
    || (destination in n.runtime && (plain || n.runtime[destination].Encrypted?))
  }

  function Sent(n: Node, destination: Mac, message: Message, reliable: bool, ok: bool): Node {
    if ok && CanSend(n, destination, !reliable)
    then n.(outbox := n.outbox + [Outgoing(destination, message, reliable)]) else n
  }

  predicate SendOk(n: Node, destination: Mac, reliable: bool, ok: bool) {
    ok && CanSend(n, destination, !reliable)
  }

  // ---- the initiator: discovery ----

  /** `scan_channel` after the rollback: a new nonce and token, and a ping on the channel. */
  function StartScan(n: Node, io: Io): Node
    requires n.HasChannel()
  {
    var channel := n.scan.channels[n.scan.channelIndex];
    var n1 := n.(tx := NO_TRANSACTION.(nonce := io.nonce, channel := channel, token := n.nextToken),
                 nextToken := n.nextToken + 1, phase := Discovery,
                 scan := n.scan.(candidates := [], overflow := false,
                                 wifiChannel := if io.channelOk then channel else n.scan.wifiChannel),
                 ledger := n.ledger.(noncesUsed := n.ledger.noncesUsed + {io.nonce}),
                 scanError := if io.channelOk && io.pingOk then n.scanError else OTHER);
    Sent(n1, BROADCAST, Ping(io.nonce), false, io.channelOk && io.pingOk)
  }

  /** `scan_channel`. */
  function ScanChannel(n: Node, io: Io): Node
    requires n.HasChannel()
  {
    StartScan(Rollback(n), io)
  }

  /** Two tries on each channel, round and round. */
  function Advanced(s: Scan): Scan
    requires s.channelIndex < |s.channels|
  {
    if s.channelAttempt + 1 >= 2 then s.(channelAttempt := 0, channelIndex := (s.channelIndex + 1) % |s.channels|)
    else s.(channelAttempt := s.channelAttempt + 1)
  }

  /** `next_channel`. */
  function NextChannel(n: Node, io: Io): Node
    requires n.HasChannel()
  {
    ScanChannel(n.(scan := Advanced(n.scan)), io)
  }

  function FindCandidate(candidates: seq<Candidate>, address: Mac): (i: nat)
    ensures i <= |candidates|
    ensures i < |candidates| ==> candidates[i].address == address
  {
    if candidates == [] then 0
    else if candidates[0].address == address then 0
    else 1 + FindCandidate(candidates[1..], address)
  }

  function Collected(candidates: seq<Candidate>, e: Incoming): seq<Candidate>
    requires e.message.DiscoveryResponse? || e.message.DiscoveryInfo?
  {
    var i := FindCandidate(candidates, e.source);
    var known := if i == |candidates| then candidates + [Candidate(e.source, 0, false)] else candidates;
    if e.message.DiscoveryInfo? then known[i := known[i].(extended := true, role := e.message.role)] else known
  }

  /** `collect_candidate`. */
  function CollectCandidate(n: Node, e: Incoming): Node
    requires e.message.DiscoveryResponse? || e.message.DiscoveryInfo?
    requires n.HasChannel()
  {
    var s := n.scan;
    if e.message.nonce != n.tx.nonce || e.channel != s.channels[s.channelIndex] then n
    else if FindCandidate(s.candidates, e.source) == |s.candidates| == MAX_CANDIDATES
    then n.(scan := s.(overflow := true))
    else n.(scan := s.(candidates := Collected(s.candidates, e)))
  }

  predicate RoleAllowed(config: Config, role: nat) {
    role < 32 && (config.acceptedRoles == {} || role in config.acceptedRoles)
  }

  predicate Acceptable(config: Config, c: Candidate) {
    if c.extended then RoleAllowed(config, c.role) else config.allowLegacy
  }

  function AcceptableOnes(config: Config, candidates: seq<Candidate>): seq<Candidate> {
    if candidates == [] then []
    else (if Acceptable(config, candidates[0]) then [candidates[0]] else []) + AcceptableOnes(config, candidates[1..])
  }

  /** `request_pair`. */
  function RequestPair(n: Node, ok: bool): Node {
    Sent(n, n.tx.peer, if n.tx.extended then PairRequestV2(n.tx.nonce, n.config.localRole) else PairRequest(n.tx.nonce),
         false, ok)
  }

  /** The transaction names the candidate as its peer. */
  function Named(t: Transaction, c: Candidate): Transaction {
    t.(peer := c.address, extended := c.extended, role := c.role)
  }

  /** The candidate is installed as a plaintext peer for the handshake. */
  function Chosen(n: Node, c: Candidate): Node {
    n.(tx := Named(n.tx, c), runtime := n.runtime[c.address := Plain], phase := Response, requestAttempt := 1,
       ledger := n.ledger.(kinds := n.ledger.kinds[n.tx.nonce := c.extended]))
  }

  /** `choose_candidate`: exactly one acceptable candidate, or an error, or the next channel. */
  function ChooseCandidate(n: Node, io: Io): Node
    requires n.HasChannel()
  {
    var accepted := AcceptableOnes(n.config, n.scan.candidates);
    if n.scan.overflow || |accepted| > 1 then Finish(n, INVALID_RESPONSE, io)
    else if accepted == [] then NextChannel(n, io)
    else if !io.addOk then NextChannel(n.(tx := Named(n.tx, accepted[0]), scanError := OTHER), io)
    else
      var chosen := Chosen(n, accepted[0]);
      var error := if SendOk(chosen, chosen.tx.peer, false, io.sendOk) then OK else OTHER;
      RequestPair(chosen, io.sendOk).(scanError := error)
  }

  predicate SameTransaction(n: Node, e: Incoming) {
    n.tx.nonce != 0 && e.source == n.tx.peer && e.message.nonce == n.tx.nonce
  }

  /** The key received becomes the transaction's. */
  function TakeKey(n: Node, lmk: Key): Node {
    n.(tx := n.tx.(lmk := lmk), ledger := n.ledger.(held := n.ledger.held + {lmk}))
  }

  /** The key is installed and settled for this nonce. */
  function InstallKey(n: Node): Node {
    n.(runtime := n.runtime[n.tx.peer := Encrypted(n.tx.lmk)], phase := Confirm,
       ledger := n.ledger.(agreed := n.ledger.agreed[n.tx.nonce := Agreement(n.tx.peer, n.tx.lmk, n.tx.extended)]))
  }

  /** `accept_response`: install the key and confirm, encrypted; any failure moves on to the next channel. */
  function AcceptResponse(n: Node, e: Incoming, lmk: Key, extended: bool, io: Io): Node
    requires n.HasChannel()
  {
    if !SameTransaction(n, e) || n.tx.extended != extended then n
    else if !io.addOk then NextChannel(TakeKey(n, lmk).(scanError := OTHER), io)
    else if SendOk(InstallKey(TakeKey(n, lmk)), n.tx.peer, true, io.sendOk)
    then Sent(InstallKey(TakeKey(n, lmk)), n.tx.peer, PairConfirm(n.tx.nonce), true, io.sendOk).(scanError := OK)
    else NextChannel(InstallKey(TakeKey(n, lmk)).(scanError := OTHER), io)
  }

  // ---- saving ----

  /** `save_peer`: update the entry of the same address, or take a free slot, or - replacing - clear the table first;
      NVS takes the whole table or nothing. */
  function SaveError(n: Node, io: Io): Error {
    if !n.config.replaceExisting && n.tx.peer !in n.store && |n.store| >= MAX_SAVED_PEERS then NO_MEM
    else if io.saveOk then OK else OTHER
  }

  function SavePeer(n: Node): Node {
    var entry := Saved(n.tx.lmk, n.tx.channel, n.tx.role);
    n.(store := if n.config.replaceExisting then map[n.tx.peer := entry] else n.store[n.tx.peer := entry],
       runtime := if n.config.replaceExisting
                  then map m | m in n.runtime && (m !in n.store || m == n.tx.peer) :: n.runtime[m] else n.runtime,
       ledger := n.ledger.(everSaved := n.ledger.everSaved + {(n.tx.peer, n.tx.lmk)}))
  }

  /** `commit_initiator`. */
  function CommitInitiator(n: Node, io: Io): Node {
    var error := SaveError(n, io);
    if error == OK then
      var saved := SavePeer(n);
      Finish(saved.(tx := n.tx.(committed := true),
                    ledger := saved.ledger.(
                      commits := n.ledger.commits + [Agreement(n.tx.peer, n.tx.lmk, n.tx.extended)])),
             OK, io)
    else Finish(n.(tx := n.tx.(committed := false)), error, io)
  }

  // ---- the responder ----

  predicate CapacityAvailable(n: Node, address: Mac) {
    address in n.store || |n.store| < n.config.peerLimit || n.config.replaceExisting
  }

  /** `discovery_response`: the V2 announcement first, then the V1 answer. */
  function AnswerDiscovery(n: Node, e: Incoming, io: Io): Node {
    var n1 := Sent(n, BROADCAST, DiscoveryInfo(e.source, e.message.nonce, n.config.localRole), false, io.sendOk);
    Sent(n1, BROADCAST, DiscoveryResponse(e.source, e.message.nonce), false, io.sendOk)
  }

  /** `suspend_peer`: an encrypted peer would drop the plaintext handshake. */
  function Suspend(n: Node, address: Mac): Node {
    if address in n.runtime then n.(runtime := Removed(n.runtime, address), suspended := true) else n
  }

  /** Send the key, in the form of the request just received, and wait for the driver to report it sent. */
  function OfferKey(n: Node, extended: bool, io: Io): Node {
    var message := if extended then PairResponseV2(n.tx.nonce, n.tx.lmk) else PairResponse(n.tx.nonce, n.tx.lmk);
    var n1 := n.(phase := Responding);
    if SendOk(n1, n.tx.peer, false, io.sendOk) then Sent(n1, n.tx.peer, message, false, io.sendOk)
    else Rollback(ReportResult(n1, OTHER)).(phase := Listening)
  }

  /** The new transaction of a responder: the saved key of a known peer, or a new key. */
  function OpenTransaction(n: Node, e: Incoming, io: Io): Node
    requires e.message.PairRequest? || e.message.PairRequestV2?
  {
    var extended := e.message.PairRequestV2?;
    var known := e.source in n.store;
    var key := if known then n.store[e.source].key else io.key;
    var role := if extended then e.message.role else if known then n.store[e.source].role else 0;
    n.(tx := Transaction(e.source, e.message.nonce, n.nextToken, e.channel, role, key, extended, false),
       nextToken := n.nextToken + 1,
       ledger := n.ledger.(held := n.ledger.held + {key},
                           births := if known then n.ledger.births
                                     else n.ledger.births[key := Birth(e.source, e.message.nonce, extended)]))
  }

  /** `respond_pair`. */
  function RespondPair(n: Node, e: Incoming, io: Io): Node
    requires e.message.PairRequest? || e.message.PairRequestV2?
  {
    var extended := e.message.PairRequestV2?;
    if n.phase != Listening then
      if n.phase != WaitConfirm || !SameTransaction(n, e) || !io.addOk then n
      else OfferKey(n.(runtime := n.runtime[n.tx.peer := Plain]), extended, io)
    else if (if extended then !RoleAllowed(n.config, e.message.role) else !n.config.allowLegacy) then n
    else if !CapacityAvailable(n, e.source) then
      if extended then Sent(n, BROADCAST, PairRefusal(e.source, e.message.nonce, NO_MEM), false, io.sendOk) else n
    else
      var n1 := OpenTransaction(n, e, io);
      if !io.addOk then Rollback(ReportResult(n1, OTHER))
      else OfferKey(n1.(runtime := n1.runtime[e.source := Plain]), extended, io)
  }

  /** `accept_confirm`. */
  function AcceptConfirm(n: Node, source: Mac, nonce: nat, io: Io): Node {
    if n.phase != WaitConfirm || n.tx.nonce == 0 || source != n.tx.peer || nonce != n.tx.nonce then n
    else
      var error := SaveError(n, io);
      var n1 :=
        if error == OK then
          var saved := SavePeer(n);
          var tx := n.tx.(committed := true);
          saved.(tx := tx, completed := tx,
                 ledger := saved.ledger.(confirmed := n.ledger.confirmed + {(tx.peer, tx.nonce)}))
        else n;
      if !n1.tx.extended then Finish(n1, error, io)
      else Sent(n1.(phase := SendResult, scanError := error), n1.tx.peer, PairResult(n1.tx.nonce, error), true,
                io.sendOk)
  }

  // ---- callbacks of the link ----

  datatype Callback = ResponseSent | ConfirmSent | ResultSent

  /** A send callback; `done` means SENT for the response and ACKNOWLEDGED for the others. */
  function ProcessCallback(n: Node, callback: Callback, token: nat, done: bool, io: Io): Node
    requires n.HasChannel()
  {
    if token != n.tx.token || n.tx.nonce == 0 then n
    else if callback == ResponseSent && n.phase == Responding then
      if done && io.addOk then
        var n1 := n.(runtime := n.runtime[n.tx.peer := Encrypted(n.tx.lmk)], phase := WaitConfirm);
        if n1.confirmPending then AcceptConfirm(n1.(confirmPending := false), n1.tx.peer, n1.tx.nonce, io) else n1
      else Rollback(ReportResult(n, if done then OTHER else FAIL)).(phase := Listening)
    else if callback == ConfirmSent && n.phase == Confirm then
      if !done then NextChannel(n.(scanError := TIMEOUT), io)
      else if n.tx.extended then n.(phase := Result, requestAttempt := 0)
      else CommitInitiator(n, io)
    else if callback == ResultSent && n.phase == SendResult then
      Finish(n, if n.tx.committed then (if done then OK else TIMEOUT) else n.scanError, io)
    else n
  }

  // ---- messages ----

  /** What `on_message` lets through: messages addressed to this device, confirmations and queries reliable and
      unicast, a successful result only reliable. */
  predicate Admitted(n: Node, e: Incoming) {
    && e.message.nonce != 0
    && match e.message
       case DiscoveryResponse(target, _) => target == n.address
       case DiscoveryInfo(target, _, role) => target == n.address && role < 32
       case PairRequestV2(_, role) => role < 32
       case PairConfirm(_) => e.reliable && !e.broadcast
       case ResultQuery(_) => e.reliable && !e.broadcast
       case PairResult(_, error) => !e.broadcast && (e.reliable || error == NO_MEM)
       case PairRefusal(target, _, error) => e.broadcast && target == n.address && (e.reliable || error == NO_MEM)
       case _ => true
  }

  /** The result of the responder, or its refusal, at the initiator. */
  function ProcessResult(n: Node, e: Incoming, error: Error, io: Io): Node {
    if !SameTransaction(n, e) || n.phase !in {Confirm, Result, Response} then n
    else if error == OK && n.phase != Response then CommitInitiator(n, io)
    else if error != OK then Finish(n, error, io)
    else n
  }

  /** `process_event` for a message. */
  function ProcessMessage(n: Node, e: Incoming, io: Io): Node
    requires n.HasChannel()
  {
    if !Admitted(n, e) then n
    else match e.message
    case ResultQuery(nonce) =>
      if n.completed.nonce != 0 && n.completed.peer == e.source && n.completed.nonce == nonce && e.source in n.runtime
      then Sent(n, n.completed.peer, PairResult(n.completed.nonce, OK), true, io.sendOk) else n
    case Ping(_) =>
      if n.phase == Listening then AnswerDiscovery(Suspend(n, e.source), e, io)
      else if n.phase == WaitConfirm then AnswerDiscovery(n, e, io) else n
    case DiscoveryResponse(_, _) => if n.phase == Discovery then CollectCandidate(n, e) else n
    case DiscoveryInfo(_, _, _) => if n.phase == Discovery then CollectCandidate(n, e) else n
    case PairRequest(_) => if n.phase != Idle && !n.initiator then RespondPair(n, e, io) else n
    case PairRequestV2(_, _) => if n.phase != Idle && !n.initiator then RespondPair(n, e, io) else n
    case PairResponse(_, lmk) => if n.phase == Response then AcceptResponse(n, e, lmk, false, io) else n
    case PairResponseV2(_, lmk) => if n.phase == Response then AcceptResponse(n, e, lmk, true, io) else n
    case PairConfirm(nonce) =>
      if n.phase == Responding && SameTransaction(n, e) then n.(confirmPending := true)
      else AcceptConfirm(n, e.source, nonce, io)
    case PairResult(_, error) => ProcessResult(n, e, error, io)
    case PairRefusal(_, _, error) => ProcessResult(n, e, error, io)
  }

  // ---- time ----

  /** No response yet: ask again, three times in all, then move on. */
  function AskAgain(n: Node, io: Io): Node
    requires n.HasChannel()
  {
    var n1 := n.(requestAttempt := n.requestAttempt + 1);
    if n1.requestAttempt <= REQUEST_ATTEMPTS then RequestPair(n1, io.sendOk)
    else NextChannel(n1.(scanError := TIMEOUT), io)
  }

  /** No result yet: query for it, three times in all, then move on. */
  function QueryAgain(n: Node, io: Io): Node
    requires n.HasChannel()
  {
    var n1 := n.(requestAttempt := n.requestAttempt + 1);
    if n1.requestAttempt <= REQUEST_ATTEMPTS then Sent(n1, n1.tx.peer, ResultQuery(n1.tx.nonce), true, io.sendOk)
    else NextChannel(n1.(scanError := TIMEOUT), io)
  }

  /** The deadline of the current phase has passed. */
  function PhaseTimeout(n: Node, io: Io): Node
    requires n.HasChannel()
  {
    match n.phase
    case Discovery => ChooseCandidate(n, io)
    case Response => AskAgain(n, io)
    case Confirm => NextChannel(n.(scanError := TIMEOUT), io)
    case Result => QueryAgain(n, io)
    case Responding => Rollback(ReportResult(n, TIMEOUT)).(phase := Listening)
    case WaitConfirm => Rollback(ReportResult(n, TIMEOUT)).(phase := Listening)
    case SendResult => Finish(n, if n.tx.committed then TIMEOUT else n.scanError, io)
    case _ => n
  }

  /** `tick`. */
  function Tick(n: Node, windowElapsed: bool, phaseElapsed: bool, io: Io): Node
    requires n.HasChannel()
  {
    if n.phase == Idle then n
    else if !io.active then Finish(n, INVALID_STATE, io)
    else if windowElapsed then Finish(n, if !n.initiator || n.scanError == OK then TIMEOUT else n.scanError, io)
    else if phaseElapsed then PhaseTimeout(n, io)
    else n
  }

  // ---- sessions ----

  /** `start_pairing` and its event; `channels` is what `prepare_channels` lists. */
  function StartInitiator(n: Node, channels: seq<nat>, io: Io): Node
    requires channels != []
  {
    if n.phase != Idle then n
    else ScanChannel(n.(initiator := true, scanError := NOT_FOUND,
                        scan := n.scan.(channels := channels, channelIndex := 0, channelAttempt := 0,
                                        restoreChannel := n.scan.wifiChannel)), io)
  }

  /** `enter_pairing_mode` and its event. */
  function StartResponder(n: Node): Node {
    if n.phase != Idle then n
    else n.(initiator := false, scanError := NOT_FOUND, phase := Listening)
  }

  /** `leave_pairing_mode`. */
  function CancelSession(n: Node, io: Io): Node {
    if n.phase != Idle then Finish(n, INVALID_STATE, io) else n
  }

  /** `remove_saved_peer`, refused during a session. */
  function Forget(n: Node, address: Mac, ok: bool): Node {
    if n.phase != Idle || address !in n.store || !ok then n
    else n.(store := Removed(n.store, address), runtime := Removed(n.runtime, address))
  }

  /** A restart at any moment: the saved peers come back, the session and the last completed pairing are gone. */
  function Restarted(n: Node): Node {
    n.(runtime := Restored(n.store, map[]), phase := Idle, tx := NO_TRANSACTION, completed := NO_TRANSACTION,
       initiator := false, suspended := false, confirmPending := false, nextToken := 1,
       scan := Scan([], false, [0], 0, 0, n.scan.wifiChannel, 1))
  }

  // ---- everything a device can do ----

  datatype Input =
    | InStart(channels: seq<nat>)
    | InListen
    | InCancel
    | InRestart
    | InForget(address: Mac, ok: bool)
    | InMessage(e: Incoming)
    | InCallback(callback: Callback, token: nat, done: bool)
    | InTick(windowElapsed: bool, phaseElapsed: bool)

  function Step(n: Node, input: Input, io: Io): Node
    requires n.HasChannel()
  {
    match input
    case InStart(channels) => if channels == [] then n else StartInitiator(n, channels, io)
    case InListen => StartResponder(n)
    case InCancel => CancelSession(n, io)
    case InRestart => Restarted(n)
    case InForget(address, ok) => Forget(n, address, ok)
    case InMessage(e) => ProcessMessage(n, e, io)
    case InCallback(callback, token, done) => ProcessCallback(n, callback, token, done, io)
    case InTick(windowElapsed, phaseElapsed) => Tick(n, windowElapsed, phaseElapsed, io)
  }
}
