/** Two devices pairing over the air: when the initiator of an extended pairing saves the responder, the responder has
    already saved the initiator with the same key. */
module PairingAgreement {
  import opened Basics
  import opened PairingSteps
  import opened PairingInvariants
  import opened PairingPreservation
  import opened PairingRuns
  import opened PairingResults

  // ---- the world ----

  /** What was put on the air, and how it was encrypted. */
  datatype Packet = Packet(source: Mac, destination: Mac, mode: Mode, message: Message, reliable: bool)

  /** Two devices, everything ever transmitted by them, and everything each has received. What is on the air may arrive
      any number of times, in any order, or never; what was received may be processed in the same way. */
  datatype World = World(x: Node, y: Node, air: set<Packet>, inX: set<Incoming>, inY: set<Incoming>)

  function Swapped(w: World): World {
    World(w.y, w.x, w.air, w.inY, w.inX)
  }

  /** A radio drops what is not in the form its run-time peer asks for: the right key, or plaintext. Broadcasts are
      never encrypted. */
  predicate Accepts(runtime: map<Mac, Mode>, p: Packet) {
    p.destination == BROADCAST
    || (if p.source in runtime then p.mode == runtime[p.source] else p.mode.Plain?)
  }

  function Arriving(p: Packet, channel: nat): Incoming {
    Incoming(p.source, channel, p.message, p.reliable, p.destination == BROADCAST)
  }

  /** Where a message received by `a` had been sent to. */
  function SentTo(a: Mac, e: Incoming): Mac {
    if e.broadcast then BROADCAST else a
  }

  function ModeFor(runtime: map<Mac, Mode>, destination: Mac): Option<Mode> {
    if destination == BROADCAST then Some(Plain)
    else if destination in runtime then Some(runtime[destination])
    else None
  }

  /** What one device can do: take an input, transmit something it had accepted for sending, receive from the air. */
  datatype Action = Local(input: Input, io: Io) | Transmit(k: nat) | Receive(p: Packet, channel: nat)

  /** A message processed is one received, or comes from some third device. */
  predicate Possible(w: World, a: Action) {
    match a
    case Local(input, io) =>
      Sane(w.x, input, io) && w.x.HasChannel()
      && (input.InMessage? ==> input.e in w.inX || (input.e.source != w.y.address && input.e.source != w.x.address))
    case Transmit(k) => k < |w.x.outbox| && ModeFor(w.x.runtime, w.x.outbox[k].destination).Some?
    case Receive(p, channel) =>
      p in w.air && p.source != w.x.address && (p.destination == w.x.address || p.destination == BROADCAST)
      && Accepts(w.x.runtime, p)
  }

  function Sending(n: Node, k: nat): Packet
    requires k < |n.outbox| && ModeFor(n.runtime, n.outbox[k].destination).Some?
  {
    var o := n.outbox[k];
    Packet(n.address, o.destination, ModeFor(n.runtime, o.destination).value, o.message, o.reliable)
  }

  function Act(w: World, a: Action): World
    requires Possible(w, a)
  {
    match a
    case Local(input, io) => w.(x := Step(w.x, input, io))
    case Transmit(k) => w.(air := w.air + {Sending(w.x, k)})
    case Receive(p, channel) => w.(inX := w.inX + {Arriving(p, channel)})
  }

  /** A move of either device. */
  datatype Move = Move(first: bool, action: Action)

  predicate CanMove(w: World, m: Move) {
    Possible(if m.first then w else Swapped(w), m.action)
  }

  function Moved(w: World, m: Move): World
    requires CanMove(w, m)
  {
    if m.first then Act(w, m.action) else Swapped(Act(Swapped(w), m.action))
  }

  // ---- what one device knows about the other: `a` with ledger `la`, and its peer `b` with ledger `lb` ----

  /** Everything received by `a` from `b` is backed by the ledger of `b`. */
  ghost predicate ReceivedBacked(a: Mac, b: Mac, lb: Ledger, inbox: set<Incoming>) {
    forall e :: e in inbox && e.source == b ==> Backed(lb, SentTo(a, e), e.message)
  }

  ghost predicate AirBacked(b: Mac, lb: Ledger, air: set<Packet>) {
    forall p :: p in air && p.source == b ==> Backed(lb, p.destination, p.message)
  }

  predicate AgreedWith(la: Ledger, nonce: nat, b: Mac) {
    nonce in la.agreed && la.agreed[nonce].peer == b
  }

  /** A confirmation at `b` follows an agreement at `a`. */
  ghost predicate ConfirmsFollow(a: Mac, la: Ledger, b: Mac, lb: Ledger) {
    forall nonce :: (a, nonce) in lb.confirmed ==> AgreedWith(la, nonce, b)
  }

  /** So does one that is still pending. */
  predicate PendingFollows(a: Mac, la: Ledger, b: Mac, pending: bool, tx: Transaction) {
    pending && tx.peer == a ==> AgreedWith(la, tx.nonce, b)
  }

  /** A key generated by `b` for a request of `a` belongs to a request of that kind. */
  ghost predicate BirthsFollow(a: Mac, la: Ledger, lb: Ledger) {
    forall k :: k in lb.births && lb.births[k].peer == a ==>
      lb.births[k].nonce in la.kinds && la.kinds[lb.births[k].nonce] == lb.births[k].extended
  }

  /** A key agreed by `a` with `b` was offered by `b`. */
  ghost predicate AgreementsOffered(a: Mac, la: Ledger, b: Mac, lb: Ledger) {
    forall nonce :: AgreedWith(la, nonce, b) ==> OfferTraced(lb, a, nonce, la.agreed[nonce].key)
  }

  /** A key that `b` generated in an extended pairing is saved by `a` only after `b` has saved it. */
  ghost predicate SavedAfter(a: Mac, la: Ledger, b: Mac, lb: Ledger) {
    forall k :: (b, k) in la.everSaved && k in lb.births && lb.births[k].peer == a && lb.births[k].extended ==>
      (a, k) in lb.everSaved
  }

  /** While `b` holds an unsaved key, agreed by `a` under the current nonce, it has not confirmed that nonce. */
  ghost predicate NotYetConfirmed(a: Mac, la: Ledger, b: Mac, lb: Ledger, phase: Phase, tx: Transaction) {
    ResponderPhase(phase) && !tx.committed && tx.peer == a && (a, tx.lmk) !in lb.everSaved
    && AgreedWith(la, tx.nonce, b) && la.agreed[tx.nonce].key == tx.lmk ==>
      (a, tx.nonce) !in lb.confirmed
  }

  /** An encrypted success on the air, under the key agreed for its nonce, means that the key is saved. */
  ghost predicate SuccessMeansSaved(a: Mac, la: Ledger, b: Mac, lb: Ledger, air: set<Packet>) {
    forall p :: p in air ==> SuccessSaved(a, la, b, lb, p)
  }

  predicate SuccessSaved(a: Mac, la: Ledger, b: Mac, lb: Ledger, p: Packet) {
    p.source == b && p.destination == a && p.message.PairResult? && p.message.error == OK
    && AgreedWith(la, p.message.nonce, b) && la.agreed[p.message.nonce].extended
    && p.mode == Encrypted(la.agreed[p.message.nonce].key) ==>
      (a, la.agreed[p.message.nonce].key) in lb.everSaved
  }

  /** A success received by `a` for its current transaction means that its key is saved by `b`. */
  ghost predicate ReceivedSuccess(a: Mac, b: Mac, lb: Ledger, inbox: set<Incoming>, phase: Phase, tx: Transaction) {
    (phase == Confirm || phase == Result) && tx.peer == b && tx.extended ==>
      forall e :: e in inbox && SaysOk(Some(e), b, tx.nonce) ==> (a, tx.lmk) in lb.everSaved
  }

  /** The agreement: whatever `a` committed as an initiator of an extended pairing with `b` is saved by `b`. */
  ghost predicate CommitsMatched(a: Mac, la: Ledger, b: Mac, lb: Ledger) {
    forall c :: c in la.commits && c.peer == b && c.extended ==> (a, c.key) in lb.everSaved
  }

  /** `a` holds no key of `b` that `b` has not met. */
  ghost predicate KeysMet(la: Ledger, b: Mac, lb: Ledger) {
    forall k :: (b, k) in la.everSaved && k.owner == b ==> k in lb.held
  }

  ghost predicate Knows(x: Node, y: Node, air: set<Packet>, inX: set<Incoming>) {
    var a, la, b, lb := x.address, x.ledger, y.address, y.ledger;
    && ReceivedBacked(a, b, lb, inX) && AirBacked(b, lb, air)
    && ConfirmsFollow(a, la, b, lb) && PendingFollows(a, la, b, y.confirmPending, y.tx)
    && BirthsFollow(a, la, lb) && AgreementsOffered(a, la, b, lb)
    && SavedAfter(a, la, b, lb) && NotYetConfirmed(a, la, b, lb, y.phase, y.tx)
    && SuccessMeansSaved(a, la, b, lb, air) && ReceivedSuccess(a, b, lb, inX, x.phase, x.tx)
    && CommitsMatched(a, la, b, lb) && KeysMet(la, b, lb)
  }

  ghost predicate Joint(w: World) {
    && NodeOk(w.x) && NodeOk(w.y) && w.x.address != w.y.address && RealAddress(w.x.address) && RealAddress(w.y.address)
    && Knows(w.x, w.y, w.air, w.inX) && Knows(w.y, w.x, w.air, w.inY)
  }

  ghost predicate Start(w: World) {
    && FreshNode(w.x) && FreshNode(w.y) && w.air == {} && w.inX == {} && w.inY == {}
    && w.x.address != w.y.address && RealAddress(w.x.address) && RealAddress(w.y.address)
  }

  lemma StartJoint(w: World)
    requires Start(w)
    ensures Joint(w)
  {
    FreshNodeOk(w.x);
    FreshNodeOk(w.y);
  }

  lemma SwapJoint(w: World)
    requires Joint(w)
    ensures Joint(Swapped(w))
  {
    hide NodeOk, Knows;
  }

  // ---- a local step of `a`: what `a` knows about `b` ----

  lemma BackedGrows(l: Ledger, l': Ledger, m: Mac, message: Message)
    requires Extends(l, l') && Backed(l, m, message)
    ensures Backed(l', m, message)
  {
  }

  lemma SavedAfterKept(x: Node, x': Node, y: Node, inX: set<Incoming>, m: Option<Incoming>)
    requires NodeOk(x) && LedgerOk(y.address, y.ledger) && x.address != y.address
    requires SavedExplained(x, x', m) && x'.address == x.address
    requires m.Some? && m.value.source == y.address ==> m.value in inX
    requires SavedAfter(x.address, x.ledger, y.address, y.ledger)
    requires ReceivedSuccess(x.address, y.address, y.ledger, inX, x.phase, x.tx)
    requires AgreementsOffered(x.address, x.ledger, y.address, y.ledger) && BirthsFollow(x.address, x.ledger, y.ledger)
    ensures SavedAfter(x'.address, x'.ledger, y.address, y.ledger)
  {
    TracedParts(x);
    hide NodeOk, CommitsMatched;
    var lb := y.ledger;
    forall k | (y.address, k) in x'.ledger.everSaved && k in lb.births && lb.births[k].peer == x.address
               && lb.births[k].extended
      ensures (x.address, k) in lb.everSaved
    {
      if (y.address, k) !in x.ledger.everSaved && (x.phase == Confirm || x.phase == Result) && !x.tx.extended {
        assert AgreedWith(x.ledger, x.tx.nonce, y.address);
      }
    }
  }

  /** The facts about a transaction that the two-device argument needs. */
  lemma TracedParts(x: Node)
    requires NodeOk(x)
    ensures LedgerOk(x.address, x.ledger) && TransactionTraced(x.ledger, x.phase, x.tx)
    ensures ResponderPhase(x.phase) || x.phase == Confirm || x.phase == Result ==> RealAddress(x.tx.peer)
  {
  }

  lemma KeysMetKept(x: Node, x': Node, y: Node, m: Option<Incoming>)
    requires NodeOk(x) && LedgerOk(y.address, y.ledger) && x.address != y.address
    requires SavedExplained(x, x', m)
    requires KeysMet(x.ledger, y.address, y.ledger) && AgreementsOffered(x.address, x.ledger, y.address, y.ledger)
    ensures KeysMet(x'.ledger, y.address, y.ledger)
  {
    TracedParts(x);
    hide NodeOk;
    forall k | (y.address, k) in x'.ledger.everSaved && k.owner == y.address
      ensures k in y.ledger.held
    {
      if (y.address, k) !in x.ledger.everSaved && (x.phase == Confirm || x.phase == Result) {
        assert AgreedWith(x.ledger, x.tx.nonce, y.address);
      }
    }
  }

  lemma CommitsKept(x: Node, x': Node, y: Node, inX: set<Incoming>, m: Option<Incoming>)
    requires SavedExplained(x, x', m) && x'.address == x.address
    requires m.Some? && m.value.source == y.address ==> m.value in inX
    requires CommitsMatched(x.address, x.ledger, y.address, y.ledger)
    requires ReceivedSuccess(x.address, y.address, y.ledger, inX, x.phase, x.tx)
    ensures CommitsMatched(x'.address, x'.ledger, y.address, y.ledger)
  {
  }

  lemma SuccessKept(x: Node, x': Node, y: Node, inX: set<Incoming>, m: Option<Incoming>, io: Io)
    requires NodeOk(x) && TransactionExplained(x, x', m, io) && x'.address == x.address
    requires ReceivedBacked(x.address, y.address, y.ledger, inX)
    requires ConfirmsFollow(x.address, x.ledger, y.address, y.ledger)
    requires ReceivedSuccess(x.address, y.address, y.ledger, inX, x.phase, x.tx)
    ensures ReceivedSuccess(x'.address, y.address, y.ledger, inX, x'.phase, x'.tx)
  {
    TracedParts(x);
    hide NodeOk;
    if (x'.phase == Confirm || x'.phase == Result) && x'.tx.peer == y.address && x'.tx.extended {
      forall e | e in inX && SaysOk(Some(e), y.address, x'.tx.nonce)
        ensures (x.address, x'.tx.lmk) in y.ledger.everSaved
      {
        assert Backed(y.ledger, SentTo(x.address, e), e.message);
        assert (x.address, x'.tx.nonce) in y.ledger.confirmed;
        assert AgreedWith(x.ledger, x'.tx.nonce, y.address);
      }
    }
  }

  lemma AgreementsKept(x: Node, x': Node, y: Node, inX: set<Incoming>, m: Option<Incoming>)
    requires AgreedExplained(x, x', m) && x'.address == x.address
    requires m.Some? && m.value.source == y.address ==> m.value in inX
    requires ReceivedBacked(x.address, y.address, y.ledger, inX)
    requires AgreementsOffered(x.address, x.ledger, y.address, y.ledger)
    ensures AgreementsOffered(x'.address, x'.ledger, y.address, y.ledger)
  {
    forall nonce | AgreedWith(x'.ledger, nonce, y.address)
      ensures OfferTraced(y.ledger, x.address, nonce, x'.ledger.agreed[nonce].key)
    {
      if nonce in x.ledger.agreed {
        assert x'.ledger.agreed[nonce] == x.ledger.agreed[nonce];
        assert AgreedWith(x.ledger, nonce, y.address);
      } else {
        assert Backed(y.ledger, SentTo(x.address, m.value), m.value.message);
      }
    }
  }

  lemma ConfirmedKept(x: Node, x': Node, y: Node, air: set<Packet>, m: Option<Incoming>)
    requires Extends(x.ledger, x'.ledger) && AgreedExplained(x, x', m) && x'.address == x.address
    requires ConfirmsFollow(x.address, x.ledger, y.address, y.ledger) && BirthsFollow(x.address, x.ledger, y.ledger)
    requires PendingFollows(x.address, x.ledger, y.address, y.confirmPending, y.tx)
    requires NotYetConfirmed(x.address, x.ledger, y.address, y.ledger, y.phase, y.tx)
    ensures ConfirmsFollow(x'.address, x'.ledger, y.address, y.ledger) && BirthsFollow(x'.address, x'.ledger, y.ledger)
    ensures PendingFollows(x'.address, x'.ledger, y.address, y.confirmPending, y.tx)
    ensures NotYetConfirmed(x'.address, x'.ledger, y.address, y.ledger, y.phase, y.tx)
  {
    forall nonce | (x.address, nonce) in y.ledger.confirmed
      ensures AgreedWith(x'.ledger, nonce, y.address)
    {
      assert AgreedWith(x.ledger, nonce, y.address);
    }
  }

  lemma AirKept(x: Node, x': Node, y: Node, air: set<Packet>)
    requires Extends(x.ledger, x'.ledger) && x'.address == x.address && RealAddress(x.address)
    requires AirBacked(y.address, y.ledger, air) && ConfirmsFollow(x.address, x.ledger, y.address, y.ledger)
    requires SuccessMeansSaved(x.address, x.ledger, y.address, y.ledger, air)
    ensures SuccessMeansSaved(x'.address, x'.ledger, y.address, y.ledger, air)
  {
    forall p | p in air
      ensures SuccessSaved(x'.address, x'.ledger, y.address, y.ledger, p)
    {
      assert SuccessSaved(x.address, x.ledger, y.address, y.ledger, p);
      if p.source == y.address && p.destination == x.address && p.message.PairResult? && p.message.error == OK {
        assert Backed(y.ledger, p.destination, p.message);
        assert AgreedWith(x.ledger, p.message.nonce, y.address);
      }
    }
  }

  /** `a` steps: what it knows about `b`. */
  lemma KnowsAfterOwnStep(x: Node, x': Node, y: Node, air: set<Packet>, inX: set<Incoming>, m: Option<Incoming>, io: Io)
    requires NodeOk(x) && NodeOk(y) && x.address != y.address && RealAddress(x.address)
    requires Knows(x, y, air, inX) && Stepped(x, x') && Explained(x, x', m, io)
    requires m.Some? && m.value.source == y.address ==> m.value in inX
    ensures Knows(x', y, air, inX)
  {
    TracedParts(y);
    hide NodeOk, ReceivedBacked, AirBacked, ConfirmsFollow, BirthsFollow, AgreementsOffered, SavedAfter, Extends,
      SuccessMeansSaved, CommitsMatched, KeysMet, LedgerOk, AgreedExplained, SavedExplained, BirthsExplained,
      TransactionExplained, ReceivedSuccess, NotYetConfirmed, PendingFollows, TransactionTraced;
    SavedAfterKept(x, x', y, inX, m);
    KeysMetKept(x, x', y, m);
    CommitsKept(x, x', y, inX, m);
    SuccessKept(x, x', y, inX, m, io);
    AgreementsKept(x, x', y, inX, m);
    ConfirmedKept(x, x', y, air, m);
    AirKept(x, x', y, air);
  }

  // ---- a local step of `a`: what `b` knows about `a` ----

  lemma GrowingFacts(x: Node, y: Node, y': Node, air: set<Packet>, inX: set<Incoming>)
    requires Extends(y.ledger, y'.ledger) && y'.address == y.address
    requires ReceivedBacked(x.address, y.address, y.ledger, inX) && AirBacked(y.address, y.ledger, air)
    requires AgreementsOffered(x.address, x.ledger, y.address, y.ledger)
    requires SuccessMeansSaved(x.address, x.ledger, y.address, y.ledger, air)
    requires CommitsMatched(x.address, x.ledger, y.address, y.ledger) && KeysMet(x.ledger, y.address, y.ledger)
    requires ReceivedSuccess(x.address, y.address, y.ledger, inX, x.phase, x.tx)
    ensures ReceivedBacked(x.address, y'.address, y'.ledger, inX) && AirBacked(y'.address, y'.ledger, air)
    ensures AgreementsOffered(x.address, x.ledger, y'.address, y'.ledger)
    ensures SuccessMeansSaved(x.address, x.ledger, y'.address, y'.ledger, air)
    ensures CommitsMatched(x.address, x.ledger, y'.address, y'.ledger) && KeysMet(x.ledger, y'.address, y'.ledger)
    ensures ReceivedSuccess(x.address, y'.address, y'.ledger, inX, x.phase, x.tx)
  {
    BackedAllGrow(x.address, y.address, y.ledger, y'.ledger, air, inX);
    forall nonce | AgreedWith(x.ledger, nonce, y.address)
      ensures OfferTraced(y'.ledger, x.address, nonce, x.ledger.agreed[nonce].key)
    {
      assert OfferTraced(y.ledger, x.address, nonce, x.ledger.agreed[nonce].key);
    }
    forall p | p in air
      ensures SuccessSaved(x.address, x.ledger, y'.address, y'.ledger, p)
    {
      assert SuccessSaved(x.address, x.ledger, y.address, y.ledger, p);
    }
  }

  lemma BackedAllGrow(a: Mac, b: Mac, lb: Ledger, lb': Ledger, air: set<Packet>, inX: set<Incoming>)
    requires Extends(lb, lb') && ReceivedBacked(a, b, lb, inX) && AirBacked(b, lb, air)
    ensures ReceivedBacked(a, b, lb', inX) && AirBacked(b, lb', air)
  {
    hide Backed, Extends;
    forall e | e in inX && e.source == b
      ensures Backed(lb', SentTo(a, e), e.message)
    {
      BackedGrows(lb, lb', SentTo(a, e), e.message);
    }
    forall p | p in air && p.source == b
      ensures Backed(lb', p.destination, p.message)
    {
      BackedGrows(lb, lb', p.destination, p.message);
    }
  }

  lemma ConfirmsStepped(x: Node, y: Node, y': Node, inY: set<Incoming>, m: Option<Incoming>, io: Io)
    requires SavedExplained(y, y', m) && TransactionExplained(y, y', m, io) && y'.address == y.address
    requires m.Some? && m.value.source == x.address ==> m.value in inY
    requires ReceivedBacked(y.address, x.address, x.ledger, inY)
    requires ConfirmsFollow(x.address, x.ledger, y.address, y.ledger)
    requires PendingFollows(x.address, x.ledger, y.address, y.confirmPending, y.tx)
    ensures ConfirmsFollow(x.address, x.ledger, y'.address, y'.ledger)
    ensures PendingFollows(x.address, x.ledger, y'.address, y'.confirmPending, y'.tx)
  {
    if m.Some? && m.value.source == x.address {
      assert Backed(x.ledger, SentTo(y.address, m.value), m.value.message);
    }
  }

  lemma BirthsStepped(x: Node, y: Node, y': Node, inY: set<Incoming>, m: Option<Incoming>, io: Io)
    requires BirthsExplained(y, y', m, io) && y'.address == y.address && FreshKey(y, io) && Extends(y.ledger, y'.ledger)
    requires m.Some? && m.value.source == x.address ==> m.value in inY
    requires ReceivedBacked(y.address, x.address, x.ledger, inY)
    requires BirthsFollow(x.address, x.ledger, y.ledger) && SavedAfter(x.address, x.ledger, y.address, y.ledger)
    requires KeysMet(x.ledger, y.address, y.ledger)
    ensures BirthsFollow(x.address, x.ledger, y'.ledger) && SavedAfter(x.address, x.ledger, y'.address, y'.ledger)
  {
    if m.Some? && m.value.source == x.address {
      assert Backed(x.ledger, SentTo(y.address, m.value), m.value.message);
    }
  }

  lemma NotYetStepped(x: Node, y: Node, y': Node, m: Option<Incoming>, io: Io)
    requires LedgerOk(y.address, y.ledger) && Extends(y.ledger, y'.ledger) && y'.address == y.address && FreshKey(y, io)
    requires TransactionExplained(y, y', m, io) && AgreementsOffered(x.address, x.ledger, y.address, y.ledger)
    requires y.tx.committed && ResponderPhase(y.phase) ==> (y.tx.peer, y.tx.lmk) in y.ledger.everSaved
    requires NotYetConfirmed(x.address, x.ledger, y.address, y.ledger, y.phase, y.tx)
    ensures NotYetConfirmed(x.address, x.ledger, y'.address, y'.ledger, y'.phase, y'.tx)
  {
    if ResponderPhase(y'.phase) && !y'.tx.committed && y'.tx.peer == x.address
       && (x.address, y'.tx.lmk) !in y'.ledger.everSaved
       && AgreedWith(x.ledger, y'.tx.nonce, y.address) && x.ledger.agreed[y'.tx.nonce].key == y'.tx.lmk {
      assert OfferTraced(y.ledger, x.address, y'.tx.nonce, y'.tx.lmk);
    }
  }

  lemma CommittedIsSaved(y: Node)
    requires NodeOk(y)
    ensures y.tx.committed ==> (y.tx.peer, y.tx.lmk) in y.ledger.everSaved
  {
  }

  /** `b` steps: what `a` knows about it. */
  lemma KnowsAfterPeerStep(x: Node, y: Node, y': Node, air: set<Packet>, inX: set<Incoming>, inY: set<Incoming>,
                           m: Option<Incoming>, io: Io)
    requires NodeOk(x) && NodeOk(y) && x.address != y.address
    requires Knows(x, y, air, inX) && ReceivedBacked(y.address, x.address, x.ledger, inY)
    requires Stepped(y, y') && Explained(y, y', m, io) && FreshKey(y, io)
    requires m.Some? && m.value.source == x.address ==> m.value in inY
    ensures Knows(x, y', air, inX)
  {
    TracedParts(y);
    CommittedIsSaved(y);
    hide NodeOk, ReceivedBacked, AirBacked, ConfirmsFollow, BirthsFollow, AgreementsOffered, SavedAfter, Extends,
      SuccessMeansSaved, CommitsMatched, KeysMet, LedgerOk, AgreedExplained, SavedExplained, BirthsExplained,
      TransactionExplained, ReceivedSuccess, NotYetConfirmed, PendingFollows, TransactionTraced;
    GrowingFacts(x, y, y', air, inX);
    ConfirmsStepped(x, y, y', inY, m, io);
    BirthsStepped(x, y, y', inY, m, io);
    NotYetStepped(x, y, y', m, io);
  }

  // ---- the air ----

  /** What device `b` puts on the air keeps what `a` knows: the heart of the agreement. An encrypted success can only
      leave under a key that is saved, or under the key of a transaction that is then still unconfirmed. */
  lemma SendingIsSound(x: Node, y: Node, k: nat)
    requires NodeOk(y) && x.address != y.address && RealAddress(x.address) && LedgerOk(x.address, x.ledger)
    requires k < |y.outbox| && ModeFor(y.runtime, y.outbox[k].destination).Some?
    requires BirthsFollow(x.address, x.ledger, y.ledger)
    requires AgreementsOffered(x.address, x.ledger, y.address, y.ledger)
    requires SavedAfter(x.address, x.ledger, y.address, y.ledger)
    requires NotYetConfirmed(x.address, x.ledger, y.address, y.ledger, y.phase, y.tx)
    requires AgreementsOffered(y.address, y.ledger, x.address, x.ledger)
    ensures SuccessSaved(x.address, x.ledger, y.address, y.ledger, Sending(y, k))
  {
    SendingParts(y, k);
    CommittedIsSaved(y);
    hide NodeOk;
    var p := Sending(y, k);
    if p.source == y.address && p.destination == x.address && p.message.PairResult? && p.message.error == OK
       && AgreedWith(x.ledger, p.message.nonce, y.address) && x.ledger.agreed[p.message.nonce].extended
       && p.mode == Encrypted(x.ledger.agreed[p.message.nonce].key) {
      var key := x.ledger.agreed[p.message.nonce].key;
      assert OfferTraced(y.ledger, x.address, p.message.nonce, key);
      assert (y.phase == Confirm || y.phase == Result) && y.tx.peer == x.address ==>
        AgreedWith(y.ledger, y.tx.nonce, x.address);
    }
  }

  lemma SendingParts(y: Node, k: nat)
    requires NodeOk(y) && k < |y.outbox| && ModeFor(y.runtime, y.outbox[k].destination).Some?
    ensures Backed(y.ledger, y.outbox[k].destination, y.outbox[k].message)
    ensures LedgerOk(y.address, y.ledger) && TransactionTraced(y.ledger, y.phase, y.tx)
    ensures
      var mode := ModeFor(y.runtime, y.outbox[k].destination).value;
      mode.Encrypted? ==>
        (y.outbox[k].destination, mode.key) in y.ledger.everSaved
        || (Keyed(y.phase) && y.tx.peer == y.outbox[k].destination && y.tx.lmk == mode.key)
  {
  }

  lemma TransmitKept(x: Node, y: Node, air: set<Packet>, inX: set<Incoming>, inY: set<Incoming>, k: nat)
    requires NodeOk(x) && NodeOk(y) && x.address != y.address && RealAddress(x.address)
    requires k < |y.outbox| && ModeFor(y.runtime, y.outbox[k].destination).Some?
    requires Knows(x, y, air, inX) && Knows(y, x, air, inY)
    ensures Knows(x, y, air + {Sending(y, k)}, inX)
    ensures Knows(y, x, air + {Sending(y, k)}, inY)
  {
    hide NodeOk, ReceivedBacked, ConfirmsFollow, BirthsFollow, AgreementsOffered, SavedAfter,
      CommitsMatched, KeysMet, LedgerOk, ReceivedSuccess, NotYetConfirmed, PendingFollows, TransactionTraced,
      SuccessSaved, Backed, AirBacked, SuccessMeansSaved, ModeFor, Keyed;
    SendingParts(y, k);
    TracedParts(x);
    SendingIsSound(x, y, k);
    AirGrows(x, y, air, Sending(y, k));
    OwnAirKept(x, y, air, inY, Sending(y, k));
  }

  lemma AirGrows(x: Node, y: Node, air: set<Packet>, p: Packet)
    requires AirBacked(y.address, y.ledger, air) && Backed(y.ledger, p.destination, p.message)
    requires SuccessMeansSaved(x.address, x.ledger, y.address, y.ledger, air)
    requires SuccessSaved(x.address, x.ledger, y.address, y.ledger, p)
    ensures AirBacked(y.address, y.ledger, air + {p})
    ensures SuccessMeansSaved(x.address, x.ledger, y.address, y.ledger, air + {p})
  {
  }

  lemma OwnAirKept(x: Node, y: Node, air: set<Packet>, inY: set<Incoming>, p: Packet)
    requires x.address != y.address && p.source == y.address && Knows(y, x, air, inY)
    ensures Knows(y, x, air + {p}, inY)
  {
    hide ReceivedBacked, ConfirmsFollow, BirthsFollow, AgreementsOffered, SavedAfter,
      CommitsMatched, KeysMet, ReceivedSuccess, NotYetConfirmed, PendingFollows, SuccessSaved, Backed;
    OwnAirIsNoNews(x, y, p);
  }

  lemma OwnAirIsNoNews(x: Node, y: Node, p: Packet)
    requires p.source == y.address && x.address != y.address
    ensures SuccessSaved(y.address, y.ledger, x.address, x.ledger, p)
  {
  }

  /** What arrives at `a`: a success for its current transaction arrived under the key of that transaction. */
  lemma ReceiveKept(x: Node, y: Node, air: set<Packet>, inX: set<Incoming>, p: Packet, channel: nat)
    requires NodeOk(x) && RealAddress(x.address) && p in air && p.source != x.address
    requires p.destination == x.address || p.destination == BROADCAST
    requires Accepts(x.runtime, p) && Knows(x, y, air, inX)
    ensures Knows(x, y, air, inX + {Arriving(p, channel)})
  {
    ArrivingSound(x, y, air, p, channel);
    hide NodeOk, AirBacked, ConfirmsFollow, BirthsFollow, AgreementsOffered, SavedAfter, SuccessMeansSaved,
      CommitsMatched, KeysMet, NotYetConfirmed, PendingFollows, Backed, SaysOk;
  }

  lemma ArrivingSound(x: Node, y: Node, air: set<Packet>, p: Packet, channel: nat)
    requires NodeOk(x) && RealAddress(x.address) && p in air
    requires p.destination == x.address || p.destination == BROADCAST
    requires Accepts(x.runtime, p) && AirBacked(y.address, y.ledger, air)
    requires SuccessMeansSaved(x.address, x.ledger, y.address, y.ledger, air)
    ensures
      var e := Arriving(p, channel);
      && (e.source == y.address ==> Backed(y.ledger, SentTo(x.address, e), e.message))
      && (((x.phase == Confirm || x.phase == Result) && x.tx.peer == y.address && x.tx.extended
           && SaysOk(Some(e), y.address, x.tx.nonce)) ==>
            (x.address, x.tx.lmk) in y.ledger.everSaved)
  {
    KeyedParts(x);
    hide NodeOk;
    assert SuccessSaved(x.address, x.ledger, y.address, y.ledger, p);
  }

  lemma KeyedParts(x: Node)
    requires NodeOk(x)
    ensures Keyed(x.phase) ==> Installed(x.runtime, x.tx.peer, x.tx.lmk)
    ensures TransactionTraced(x.ledger, x.phase, x.tx)
  {
  }

  // ---- every move ----

  lemma ActJoint(w: World, a: Action)
    requires Joint(w) && Possible(w, a)
    ensures Joint(Act(w, a))
  {
    hide NodeOk, Knows, Step, Explained, Extends, Sane;
    match a
    case Local(input, io) =>
      LocalJoint(w, input, io);
    case Transmit(k) => TransmitKept(w.y, w.x, w.air, w.inY, w.inX, k);
    case Receive(p, channel) => ReceiveKept(w.x, w.y, w.air, w.inX, p, channel);
  }

  lemma LocalJoint(w: World, input: Input, io: Io)
    requires Joint(w) && Possible(w, Local(input, io))
    ensures Joint(Act(w, Local(input, io)))
  {
    hide NodeOk, Step, Explained, Extends, FreshNonce;
    StepFine(w.x, input, io);
    var x' := Step(w.x, input, io);
    KnowsReceived(w);
    hide Knows;
    KnowsAfterOwnStep(w.x, x', w.y, w.air, w.inX, MessageOf(input), io);
    KnowsAfterPeerStep(w.y, w.x, x', w.air, w.inY, w.inX, MessageOf(input), io);
  }

  lemma KnowsReceived(w: World)
    requires Joint(w)
    ensures ReceivedBacked(w.x.address, w.y.address, w.y.ledger, w.inX)
  {
    hide NodeOk;
  }

  lemma MoveJoint(w: World, m: Move)
    requires Joint(w) && CanMove(w, m)
    ensures Joint(Moved(w, m))
  {
    hide Joint, Act, Possible;
    if m.first {
      ActJoint(w, m.action);
    } else {
      SwapJoint(w);
      ActJoint(Swapped(w), m.action);
      SwapJoint(Act(Swapped(w), m.action));
    }
  }

  // ---- runs ----

  predicate CanRun(w: World, moves: seq<Move>)
    decreases |moves|
  {
    moves == [] || (CanMove(w, moves[0]) && CanRun(Moved(w, moves[0]), moves[1..]))
  }

  function WorldRun(w: World, moves: seq<Move>): World
    requires CanRun(w, moves)
    decreases |moves|
  {
    if moves == [] then w else WorldRun(Moved(w, moves[0]), moves[1..])
  }

  lemma {:induction false} RunJoint(w: World, moves: seq<Move>)
    requires Joint(w) && CanRun(w, moves)
    ensures Joint(WorldRun(w, moves))
    decreases |moves|
  {
    hide Joint, CanMove, Moved;
    if moves == [] {
    } else {
      MoveJoint(w, moves[0]);
      RunJoint(Moved(w, moves[0]), moves[1..]);
    }
  }

  /** After any run from a fresh start, each device's commits as initiator of an extended pairing with the other are
      matched: the other has saved it, with the same key. */
  lemma TwoPartyAgreement(w: World, moves: seq<Move>)
    requires Start(w) && CanRun(w, moves)
    ensures
      var w' := WorldRun(w, moves);
      && CommitsMatched(w'.x.address, w'.x.ledger, w'.y.address, w'.y.ledger)
      && CommitsMatched(w'.y.address, w'.y.ledger, w'.x.address, w'.x.ledger)
  {
    StartJoint(w);
    RunJoint(w, moves);
    hide Start, CanRun, WorldRun, NodeOk;
  }

  /** When an initiator reports the success of an extended pairing, it has stored a key for the responder that the
      responder had stored for it before. */
  lemma SuccessIsMutual(w: World, moves: seq<Move>, input: Input, io: Io)
    requires Start(w) && CanRun(w, moves)
    requires Possible(WorldRun(w, moves), Local(input, io)) && InitiatorPhase(WorldRun(w, moves).x.phase)
    ensures
      var w' := WorldRun(w, moves);
      var x' := Step(w'.x, input, io);
      x'.reports == w'.x.reports + [Report(w'.y.address, OK, true, true)] ==>
        w'.y.address in x'.store && (w'.x.address, x'.store[w'.y.address].key) in w'.y.ledger.everSaved
  {
    hide NodeOk, Knows, WorldRun, Start, CanRun, Step;
    StartJoint(w);
    RunJoint(w, moves);
    var w' := WorldRun(w, moves);
    var x' := Step(w'.x, input, io);
    ActJoint(w', Local(input, io));
    MatchedCommits(Act(w', Local(input, io)));
    StepFine(w'.x, input, io);
    InitiatorStep(w'.x, input, io);
    if x'.reports == w'.x.reports + [Report(w'.y.address, OK, true, true)] {
      assert x'.reports[|w'.x.reports|] == Report(w'.y.address, OK, true, true);
      SuccessCommits(w'.x, x', w'.y.address);
      assert Agreement(w'.y.address, x'.store[w'.y.address].key, true) in x'.ledger.commits;
    }
  }

  lemma SuccessCommits(x: Node, x': Node, b: Mac)
    requires InitiatorOutcome(x, x') && x'.reports == x.reports + [Report(b, OK, true, true)]
    ensures b in x'.store && Agreement(b, x'.store[b].key, true) in x'.ledger.commits
  {
    assert x'.reports[|x.reports|] == Report(b, OK, true, true);
    assert x.reports != x'.reports;
  }

  lemma MatchedCommits(w: World)
    requires Joint(w)
    ensures CommitsMatched(w.x.address, w.x.ledger, w.y.address, w.y.ledger)
  {
    hide NodeOk;
  }
}
