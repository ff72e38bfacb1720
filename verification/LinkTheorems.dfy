/** What the link guarantees over whole runs: one link on its own, and two links over a network that loses, repeats,
    delays and reorders frames. */
module LinkTheorems {
  import opened Basics
  import opened Bytes
  import opened LinkCodec
  import opened LinkSteps
  import opened LinkInvariants

  // ---- runs of one link ----

  /** Something the link does, a frame that arrives, or a completion event with whatever address it carries. */
  datatype Event =
    | Own(action: Action)
    | Incoming(source: Mac, destination: Mac, data: seq<Byte>, now: Tick)
    | Completed(destination: Mac, success: bool, now: Tick)

  function Step(s: Link, e: Event): Link {
    match e
    case Own(action) => Act(s, action)
    case Incoming(source, destination, data, now) => Receive(s, source, destination, data, now)
    case Completed(destination, success, now) => ProcessMacResult(s, destination, success, now)
  }

  lemma StepInv(s: Link, e: Event)
    requires Inv(s)
    ensures Inv(Step(s, e))
  {
    match e
    case Own(action) => ActInv(s, action);
    case Incoming(source, destination, data, now) => ReceiveInv(s, source, destination, data, now);
    case Completed(destination, success, now) => ProcessMacResultInv(s, destination, success, now);
  }

  /** The state after a list of events. */
  function Run(s: Link, events: seq<Event>): Link {
    if events == [] then s else Step(Run(s, events[..|events| - 1]), events[|events| - 1])
  }

  lemma {:induction false} RunInv(s: Link, events: seq<Event>)
    requires Inv(s)
    ensures Inv(Run(s, events))
  {
    if events == [] {
    } else {
      hide Inv, Step;
      RunInv(s, events[..|events| - 1]);
      StepInv(Run(s, events[..|events| - 1]), events[|events| - 1]);
    }
  }

  /** Every state of every run of a link that starts fresh satisfies the invariant. */
  lemma ReachableInv(s: Link, events: seq<Event>)
    requires Fresh(s)
    ensures Inv(Run(s, events))
  {
    FreshInv(s);
    RunInv(s, events);
  }

  lemma RunSnoc(s: Link, events: seq<Event>, e: Event)
    ensures Run(s, events + [e]) == Step(Run(s, events), e)
  {
    assert (events + [e])[..|events|] == events;
  }

  /** Request conservation, in every state of every run: each request ever accepted is finished with exactly one
      callback, or outstanding, or queued - never two of these and never none. */
  lemma EveryRequestInOnePlace(s: Link, events: seq<Event>, id: nat)
    requires Fresh(s) && id < Run(s, events).accepted
    ensures
      var r := Run(s, events);
      var done := exists i :: 0 <= i < |r.finished| && r.finished[i].request.id == id;
      var outstanding := r.pending.Some? && r.pending.value.request.id == id;
      var queued := exists j :: 0 <= j < |r.txQueue| && r.txQueue[j].id == id;
      && ((done && !outstanding && !queued) || (!done && outstanding && !queued) || (!done && !outstanding && queued))
      && forall i, j :: 0 <= i < j < |r.finished| ==> r.finished[i].request.id != r.finished[j].request.id
  {
    ReachableInv(s, events);
    hide Run, Fresh;
    OnePlace(Run(s, events), id);
  }

  lemma OnePlace(s: Link, id: nat)
    requires Conserved(s) && id < s.accepted
    ensures
      var done := exists i :: 0 <= i < |s.finished| && s.finished[i].request.id == id;
      var outstanding := s.pending.Some? && s.pending.value.request.id == id;
      var queued := exists j :: 0 <= j < |s.txQueue| && s.txQueue[j].id == id;
      && ((done && !outstanding && !queued) || (!done && outstanding && !queued) || (!done && !outstanding && queued))
      && forall i, j :: 0 <= i < j < |s.finished| ==> s.finished[i].request.id != s.finished[j].request.id
  {
    if id < |s.finished| { assert s.finished[id].request.id == id; }
    if id >= Open(s) { assert s.txQueue[id - Open(s)].id == id; }
  }

  /** No frame was handed to the driver, or just one and the driver was idle before. */
  ghost predicate HandsOverOne(s: Link, s': Link) {
    || s'.submitted == s.submitted
    || (|s'.submitted| == |s.submitted| + 1 && s'.submitted[..|s.submitted|] == s.submitted
        && s.flight == None && s'.flight.Some?)
  }

  lemma SubmitOrFinishHandsOver(s: Link, retry: bool, io: Io)
    requires s.pending.Some? && s.flight == None
    ensures HandsOverOne(s, SubmitOrFinish(s, retry, io))
  {
  }

  lemma TakeNextHandsOver(s: Link, io: Io)
    requires SlotIsTrue(s)
    ensures HandsOverOne(s, TakeNext(s, io))
  {
    if s.pending == None && s.owner == NoOwner && s.txQueue != [] {
      SubmitOrFinishHandsOver(Begin(Popped(s), s.txQueue[0]), false, io);
      hide SubmitOrFinish;
    }
  }

  lemma TimeoutHandsOver(s: Link, io: Io)
    requires SlotIsTrue(s)
    ensures HandsOverOne(s, ProcessTimeout(s, io))
  {
    if s.pending.Some? && s.owner == NoOwner {
      SubmitOrFinishHandsOver(s.(pending := Some(s.pending.value.(waitingAck := false))), true, io);
      hide SubmitOrFinish;
    }
  }

  lemma ActHandsOverOne(s: Link, action: Action)
    requires Inv(s)
    ensures HandsOverOne(s, Act(s, action))
  {
    assert SlotIsTrue(s);
    hide Inv, TakeNext, ProcessTimeout;
    match action
    case ActTake(io) => TakeNextHandsOver(s, io);
    case ActTimeout(io) => TimeoutHandsOver(s, io);
    case _ =>
  }

  lemma ArrivalsHandOverNothing(s: Link, source: Mac, destination: Mac, data: seq<Byte>, success: bool, now: Tick)
    ensures Receive(s, source, destination, data, now).submitted == s.submitted
    ensures ProcessMacResult(s, destination, success, now).submitted == s.submitted
  {
    hide Decode, UpdateRtt;
    UpdateRttFrame(s, source, now);
    UpdateRttFrame(DropStale(s), source, now);
  }

  lemma UpdateRttFrame(s: Link, source: Mac, now: Tick)
    ensures s.pending.Some? ==>
              var s' := UpdateRtt(s, source, now); s' == s.(peers := s'.peers, samples := s'.samples)
  {
    hide Sample;
  }

  /** At most one frame is in the driver, in every run and whatever happens next: a step hands over a frame only while
      the driver is idle, and one at most. */
  lemma OneFrameInDriver(s: Link, events: seq<Event>, e: Event)
    requires Fresh(s)
    ensures HandsOverOne(Run(s, events), Step(Run(s, events), e))
  {
    ReachableInv(s, events);
    var r := Run(s, events);
    hide Fresh, Run, Inv, Act, Receive, ProcessMacResult;
    match e
    case Own(action) => ActHandsOverOne(r, action);
    case Incoming(source, destination, data, now) => ArrivalsHandOverNothing(r, source, destination, data, true, now);
    case Completed(destination, success, now) => ArrivalsHandOverNothing(r, 0, destination, [], success, now);
  }

  /** A completion event, in every run and with whatever address, settles or re-times only the request whose frame was
      in the driver, however late it comes: also after an early ACK ended that request, and after a cancellation. */
  lemma CompletionCreditedToItsOwner(s: Link, events: seq<Event>, destination: Mac, success: bool, now: Tick)
    requires Fresh(s)
    ensures
      var r := Run(s, events);
      var s' := Step(r, Completed(destination, success, now));
      && s'.flight == None
      && |r.finished| <= |s'.finished| <= |r.finished| + 1 && s'.finished[..|r.finished|] == r.finished
      && (|s'.finished| > |r.finished| ==>
            var o := s'.finished[|r.finished|];
            || (o.result == Cancelled && Stale(r))
            || (r.flight == Some(DataFlight(o.request.id, o.request.destination))
                && o.request.destination == destination && o.result == if success then Sent else MacFailed))
      && (s'.pending.Some? && s'.pending != r.pending ==>
            r.flight == Some(DataFlight(s'.pending.value.request.id, destination)))
  {
    ReachableInv(s, events);
    hide Fresh, Run;
    CompletionCredited(Run(s, events), destination, success, now);
  }

  lemma CompletionCredited(s: Link, destination: Mac, success: bool, now: Tick)
    requires SlotIsTrue(s)
    ensures
      var s' := ProcessMacResult(s, destination, success, now);
      && s'.flight == None
      && |s.finished| <= |s'.finished| <= |s.finished| + 1 && s'.finished[..|s.finished|] == s.finished
      && (|s'.finished| > |s.finished| ==>
            var o := s'.finished[|s.finished|];
            || (o.result == Cancelled && Stale(s))
            || (s.flight == Some(DataFlight(o.request.id, o.request.destination))
                && o.request.destination == destination && o.result == if success then Sent else MacFailed))
      && (s'.pending.Some? && s'.pending != s.pending ==>
            s.flight == Some(DataFlight(s'.pending.value.request.id, destination)))
  {
  }

  // ---- cancellation ----

  /** Two generation counts look alike exactly when a whole number of 2^32 cancellations lies between them. */
  lemma GenerationsMeet(c: nat, d: nat)
    requires c <= d
    ensures GenerationAt(c) == GenerationAt(d) <==> (d - c) % TWO_32 == 0
  {
    var p, q := (1 + c) / TWO_32, (1 + d) / TWO_32;
    assert 1 + c == p * TWO_32 + GenerationAt(c) && 1 + d == q * TWO_32 + GenerationAt(d);
    if GenerationAt(c) == GenerationAt(d) {
      assert d - c == (q - p) * TWO_32;
    }
  }

  /** Cancellation `c`, the first one being 1, landed between the look at the generation and the driver. */
  predicate Slips(f: Submission, c: nat) {
    f.DataFrame? && f.cancelsChecked < c <= f.cancelsNow
  }

  /** The request of this frame was accepted after cancellation `c`, or the 32-bit generation came full circle. */
  predicate AcceptedAfter(f: Submission, c: nat)
    requires f.DataFrame?
  {
    c <= f.request.cancels || f.cancelsChecked - f.request.cancels >= TWO_32
  }

  /** The generation is looked at before each hand-over, and no cancellation has reached the request then. A
      cancellation can still land before the driver has that one frame; at most one frame slips past a cancellation in
      this way, and after a frame that was handed over past it, every other frame belongs to a request accepted later.
      A request ends cancelled exactly if a cancellation has reached it when the generation is last looked at for it.
      Each clause as long as the generation has not come full circle. */
  ghost predicate CancelledExactly(submitted: seq<Submission>, finished: seq<Outcome>) {
    && (forall k :: 0 <= k < |submitted| && submitted[k].DataFrame?
                    && submitted[k].cancelsChecked - submitted[k].request.cancels < TWO_32 ==>
          submitted[k].request.cancels == submitted[k].cancelsChecked)
    && (forall c: nat, j, k :: 0 <= j < k < |submitted| && submitted[j].DataFrame? && submitted[k].DataFrame?
                               && c <= submitted[j].cancelsNow ==>
          !Slips(submitted[k], c) && AcceptedAfter(submitted[k], c))
    && (forall i :: 0 <= i < |finished| && finished[i].cancelsNow - finished[i].request.cancels < TWO_32 ==>
          (finished[i].result == Cancelled <==> finished[i].request.cancels < finished[i].cancelsNow))
  }

  /** Cancellation is exact in every state of every run. */
  lemma CancellationIsExact(s: Link, events: seq<Event>)
    requires Fresh(s)
    ensures CancelledExactly(Run(s, events).submitted, Run(s, events).finished)
  {
    ReachableInv(s, events);
    hide Fresh, Run, CancelledExactly, CancellationKept;
    CancellationExact(Run(s, events));
  }

  lemma CancellationExact(s: Link)
    requires CancellationKept(s)
    ensures CancelledExactly(s.submitted, s.finished)
  {
    forall k | 0 <= k < |s.submitted| && s.submitted[k].DataFrame?
               && s.submitted[k].cancelsChecked - s.submitted[k].request.cancels < TWO_32
      ensures s.submitted[k].request.cancels == s.submitted[k].cancelsChecked
    {
      assert FrameCurrent(s.cancels, s.submitted[k]);
      GenerationsMeet(s.submitted[k].request.cancels, s.submitted[k].cancelsChecked);
    }
    forall i | 0 <= i < |s.finished| && s.finished[i].cancelsNow - s.finished[i].request.cancels < TWO_32
      ensures s.finished[i].result == Cancelled <==> s.finished[i].request.cancels < s.finished[i].cancelsNow
    {
      assert OutcomeHonest(s.cancels, s.finished[i]);
      GenerationsMeet(s.finished[i].request.cancels, s.finished[i].cancelsNow);
    }
  }

  /** A cancellation that lands after the generation was looked at for an outcome, and before the callback is made,
      changes nothing but the count of cancellations: it may be taken to come after the callback. */
  lemma LateCancellationComesAfter(s: Link, result: SendResult)
    requires s.pending.Some?
    ensures
      var late, early := Finish(Cancel(s), result), Cancel(Finish(s, result));
      && late.(finished := s.finished) == early.(finished := s.finished)
      && |late.finished| == |early.finished| == |s.finished| + 1
      && late.finished[|s.finished|].(cancelsNow := s.cancels) == early.finished[|s.finished|]
  {
  }

  /** Cancelling, and sweeping out the cancelled request, leave queued requests, queued ACKs and the driver alone. */
  lemma CancellationSpares(s: Link)
    ensures
      var s' := DropStale(Cancel(s));
      && s'.txQueue == s.txQueue && s'.ackQueue == s.ackQueue && s'.owner == s.owner && s'.flight == s.flight
      && s'.submitted == s.submitted && s'.peers == s.peers && s'.handovers == s.handovers
      && (s.pending.Some? && s.pending.value.request.generation == s.generation < TWO_32 ==> s'.pending == None)
  {
  }

  // ---- attempts ----

  /** In every state of every run no request, outstanding or over, has been submitted more often than its limit, and
      `NoAck` has been reported only after exactly that many attempts. */
  lemma RetriesAreBounded(s: Link, events: seq<Event>)
    requires Fresh(s)
    ensures
      var r := Run(s, events);
      && (r.pending.Some? ==>
            Count(r.submitted, r.pending.value.request.id) <= r.pending.value.request.options.maxAttempts)
      && forall i :: 0 <= i < |r.finished| ==>
           var o := r.finished[i];
           && Count(r.submitted, o.request.id) == o.attempts <= o.request.options.maxAttempts
           && (o.result == NoAck ==> Count(r.submitted, o.request.id) == o.request.options.maxAttempts)
  {
    ReachableInv(s, events);
    hide Fresh, Run, Count, Conserved, SlotIsTrue, CancellationKept, Numbered, AcksEarned;
    var r := Run(s, events);
    forall i | 0 <= i < |r.finished|
      ensures OutcomeCounted(r.submitted, r.finished[i])
    {
    }
  }
}
