/** Time in the link: wrapped ticks, round-trip samples over whole runs, and the peer timeouts. */
module LinkTiming {
  import opened Basics
  import opened Bytes
  import opened LinkCodec
  import opened LinkSteps
  import opened LinkInvariants
  import opened LinkTheorems

  /** Wrapped tick comparison agrees with unbounded time for distances below 2^31, in both directions. */
  lemma WrappedComparison(now: nat, deadline: nat)
    requires now < deadline + TWO_31 && deadline <= now + TWO_31
    ensures TickBefore(now % TWO_32, deadline % TWO_32) <==> now < deadline
  {
    var p, q := now / TWO_32, deadline / TWO_32;
    assert now == p * TWO_32 + now % TWO_32 && deadline == q * TWO_32 + deadline % TWO_32;
    var x := now % TWO_32 + TWO_32 - deadline % TWO_32;
    assert x == now - deadline + (1 + q - p) * TWO_32;
  }

  // ---- round-trip samples ----

  /** The samples of one peer, in order. */
  function Trail(samples: seq<RttSample>, source: Mac): seq<nat> {
    if samples == [] then []
    else
      var last := samples[|samples| - 1];
      Trail(samples[..|samples| - 1], source) + if last.source == source then [last.rtt] else []
  }

  /** The next smoothed value, without a limit on its size. */
  function Exact(smoothed: nat, rtt: nat): nat {
    if smoothed == 0 then rtt else (7 * smoothed + rtt) / 8
  }

  /** The smoothed value that some samples mean. */
  function Smooth(rtts: seq<nat>): nat {
    if rtts == [] then 0 else Exact(Smooth(rtts[..|rtts| - 1]), rtts[|rtts| - 1])
  }

  /** No sample so far has pushed the smoothed value over 16 bits. */
  predicate Uncut(rtts: seq<nat>) {
    rtts == [] || (Uncut(rtts[..|rtts| - 1]) && Smooth(rtts) < 0x1_0000)
  }

  /** What one sample does to the metrics: the last value and its place among the last three, the smoothed value, the
      counts up to their limits, and a timeout of 5 ms more than the smoothed value, at least 8 and at most 100 ms. */
  predicate Measures(m: Metrics, m': Metrics, rtt: nat) {
    && m'.lastRtt == rtt % 0x1_0000
    && m'.smoothedRtt == Exact(m.smoothedRtt, rtt) % 0x1_0000
    && (m'.ackTimeout == m'.smoothedRtt + 5 || m'.ackTimeout == 8 > m'.smoothedRtt + 5
        || m'.ackTimeout == 100 < m'.smoothedRtt + 5)
    && 8 <= m'.ackTimeout <= 100
    && (forall i :: 0 <= i < 3 ==> m'.recent[i] == if i == m.recentNext then m'.lastRtt else m.recent[i])
    && m'.recentNext == (m.recentNext + 1) % 3
    && (m'.recentCount == m.recentCount + 1 || (m'.recentCount == m.recentCount >= 3))
    && (m'.sampleCount == m.sampleCount + 1 || (m'.sampleCount == m.sampleCount >= 255))
    && (m.recentCount <= 3 ==> m'.recentCount <= 3) && (m.sampleCount <= 255 ==> m'.sampleCount <= 255)
  }

  /** One sample is smoothed as it means exactly if the result fits 16 bits. */
  lemma SampleIsExact(m: Metrics, rtt: nat)
    ensures Sample(m, rtt).smoothedRtt == Exact(m.smoothedRtt, rtt) <==> Exact(m.smoothedRtt, rtt) < 0x1_0000
    ensures Measures(m, Sample(m, rtt), rtt)
  {
  }

  lemma {:induction false} SmoothWithin(rtts: seq<nat>, low: nat, high: nat)
    requires rtts != [] && 1 <= low && forall i :: 0 <= i < |rtts| ==> low <= rtts[i] <= high
    ensures low <= Smooth(rtts) <= high
  {
    if |rtts| == 1 {
      assert rtts[..0] == [];
    } else {
      SmoothWithin(rtts[..|rtts| - 1], low, high);
    }
  }

  /** A sample is of a request that ended acknowledged by this peer and was submitted no more than once. */
  ghost predicate SampleEarned(s: Link, sample: RttSample) {
    && sample.rtt >= 1 && sample.id < |s.finished|
    && var o := s.finished[sample.id];
       o.result == Acknowledged && o.request.destination == sample.source && o.attempts <= 1
  }

  /** The outstanding request has been submitted at most once, unless it is marked. */
  predicate MarkedWhenRepeated(s: Link) {
    s.pending.Some? ==> s.pending.value.retransmitted || s.pending.value.attempts <= 1
  }

  ghost predicate Measured(s: Link) {
    && MarkedWhenRepeated(s)
    && (forall k :: 0 <= k < |s.samples| ==> SampleEarned(s, s.samples[k]))
    && (forall m :: m in s.peers ==> SmoothedFrom(s.peers[m], Trail(s.samples, m)))
  }

  predicate SmoothedFrom(peer: Peer, trail: seq<nat>) {
    Uncut(trail) ==> peer.metrics.smoothedRtt == Smooth(trail)
  }

  /** No peer has been measured yet. */
  ghost predicate Unmeasured(s: Link) {
    s.samples == [] && forall m :: m in s.peers ==> s.peers[m].metrics.smoothedRtt == 0
  }

  /** Measurements and what was received stay, callbacks are only added. */
  ghost predicate MeasuresKept(s: Link, s': Link) {
    && s'.peers == s.peers && s'.samples == s.samples && s'.handovers == s.handovers && s.finished <= s'.finished
    && (MarkedWhenRepeated(s) ==> MarkedWhenRepeated(s'))
  }

  lemma KeptMeasured(s: Link, s': Link)
    requires Measured(s) && MeasuresKept(s, s')
    ensures Measured(s')
  {
    hide SmoothedFrom, Trail;
    forall k | 0 <= k < |s'.samples|
      ensures SampleEarned(s', s'.samples[k])
    {
      assert SampleEarned(s, s.samples[k]);
    }
  }

  lemma SubmitKeeps(s: Link, retry: bool, io: Io)
    requires s.pending.Some? && (retry || s.pending.value.attempts == 0)
    ensures MeasuresKept(s, SubmitOrFinish(s, retry, io))
  {
  }

  lemma TakeKeeps(s: Link, io: Io)
    ensures MeasuresKept(s, TakeNext(s, io))
  {
    hide SubmitOrFinish;
    if s.pending == None && s.owner == NoOwner && s.txQueue != [] {
      SubmitKeeps(Begin(Popped(s), s.txQueue[0]), false, io);
    }
  }

  lemma TimeoutKeeps(s: Link, io: Io)
    ensures MeasuresKept(s, ProcessTimeout(s, io))
  {
    hide SubmitOrFinish;
    if s.pending.Some? { SubmitKeeps(s.(pending := Some(s.pending.value.(waitingAck := false))), true, io); }
  }

  lemma ActKeeps(s: Link, action: Action)
    ensures MeasuresKept(s, Act(s, action))
  {
    hide TakeNext, ProcessTimeout, ProcessMacResult;
    match action
    case ActTake(io) => TakeKeeps(s, io);
    case ActTimeout(io) => TimeoutKeeps(s, io);
    case ActMacResult(success, now) =>
      if s.flight.Some? {
        CompletionKeeps(s, match s.flight.value case DataFlight(_, d) => d case AckFlight(ack) => ack.destination,
                        success, now);
      }
    case _ =>
  }

  lemma CompletionKeeps(s: Link, destination: Mac, success: bool, now: Tick)
    ensures MeasuresKept(s, ProcessMacResult(s, destination, success, now))
  {
  }

  /** A reception other than of an accepted ACK: at most a stale request ends, or a frame is handed over
      and remembered. */
  lemma ReceiveOther(s: Link, source: Mac, destination: Mac, data: seq<Byte>, now: Tick)
    requires Measured(s)
    requires Decode(data).Some? ==> !Decode(data).value.IsAck()
    ensures Measured(Receive(s, source, destination, data, now))
  {
    hide Measured;
    OtherFrame(s, source, destination, data, now);
    SameMetrics(s, Receive(s, source, destination, data, now));
  }

  /** Only what was received of a peer changes. */
  ghost predicate MetricsKept(s: Link, s': Link) {
    && s'.pending == s.pending && s'.finished == s.finished && s'.samples == s.samples
    && forall m :: m in s'.peers ==> m in s.peers && s'.peers[m].metrics == s.peers[m].metrics
  }

  lemma OtherFrame(s: Link, source: Mac, destination: Mac, data: seq<Byte>, now: Tick)
    requires Decode(data).Some? ==> !Decode(data).value.IsAck()
    ensures MetricsKept(s, Receive(s, source, destination, data, now))
  {
    hide Decode;
  }

  lemma SameMetrics(s: Link, s': Link)
    requires Measured(s) && MetricsKept(s, s')
    ensures Measured(s')
  {
    hide Trail, Uncut, Smooth;
    forall k | 0 <= k < |s'.samples|
      ensures SampleEarned(s', s'.samples[k])
    {
      assert SampleEarned(s, s.samples[k]);
    }
  }

  lemma TrailSnoc(samples: seq<RttSample>, sample: RttSample, source: Mac)
    ensures Trail(samples + [sample], source)
         == Trail(samples, source) + if sample.source == source then [sample.rtt] else []
  {
    assert (samples + [sample])[..|samples|] == samples;
  }

  lemma SmoothSnoc(peer: Peer, trail: seq<nat>, rtt: nat)
    requires SmoothedFrom(peer, trail)
    ensures SmoothedFrom(peer.(metrics := Sample(peer.metrics, rtt)), trail + [rtt])
  {
    hide Sample;
    assert (trail + [rtt])[..|trail|] == trail;
    SampleIsExact(peer.metrics, rtt);
  }

  /** An accepted ACK: one sample at most, of a request that ends here. */
  lemma AckMeasured(s: Link, source: Mac, now: Tick)
    requires Measured(s) && Conserved(s) && s.pending.Some? && s.pending.value.request.destination == source
    ensures Measured(Finish(UpdateRtt(s, source, now), Acknowledged))
  {
    hide Sample, Uncut, Smooth, SmoothedFrom, Trail;
    var s' := Finish(UpdateRtt(s, source, now), Acknowledged);
    forall k | 0 <= k < |s'.samples|
      ensures SampleEarned(s', s'.samples[k])
    {
      if k < |s.samples| { assert SampleEarned(s, s.samples[k]); }
    }
    if source in s.peers && !s.pending.value.retransmitted {
      var sample := s'.samples[|s.samples|];
      forall m | m in s'.peers
        ensures SmoothedFrom(s'.peers[m], Trail(s'.samples, m))
      {
        TrailSnoc(s.samples, sample, m);
        SmoothSnoc(s.peers[m], Trail(s.samples, m), sample.rtt);
        assert Trail(s.samples, m) + [] == Trail(s.samples, m);
      }
    }
  }

  lemma ReceiveMeasured(s: Link, source: Mac, destination: Mac, data: seq<Byte>, now: Tick)
    requires Measured(s) && Inv(s)
    ensures Measured(Receive(s, source, destination, data, now))
  {
    hide Measured, Decode, UpdateRtt;
    if Decode(data).Some? && Decode(data).value.IsAck() {
      DropStaleInv(s);
      var s1 := DropStale(s);
      DropKeeps(s);
      KeptMeasured(s, s1);
      if s1.pending.Some? && s1.pending.value.request.destination == source { AckMeasured(s1, source, now); }
    } else {
      ReceiveOther(s, source, destination, data, now);
    }
  }

  lemma DropKeeps(s: Link)
    ensures MeasuresKept(s, DropStale(s))
  {
  }

  lemma {:induction false} RunMeasured(s: Link, events: seq<Event>)
    requires Measured(s) && Inv(s)
    ensures Measured(Run(s, events))
  {
    hide Measured, Inv, Act, Receive, ProcessMacResult, MeasuresKept;
    if events == [] {
    } else {
      var before := Run(s, events[..|events| - 1]);
      RunInv(s, events[..|events| - 1]);
      RunMeasured(s, events[..|events| - 1]);
      match events[|events| - 1]
      case Own(action) =>
        ActKeeps(before, action);
        KeptMeasured(before, Act(before, action));
      case Incoming(source, destination, data, now) => ReceiveMeasured(before, source, destination, data, now);
      case Completed(destination, success, now) =>
        CompletionKeeps(before, destination, success, now);
        KeptMeasured(before, ProcessMacResult(before, destination, success, now));
    }
  }

  /** In every state of every run: each sample is of a request submitted no more than once (Karn's rule); and the
      smoothed round-trip time of a peer is 0 before its first sample, and afterwards lies between its smallest and its
      largest sample, as long as no sample has pushed it over 16 bits. */
  lemma SmoothedWithinSamples(s: Link, events: seq<Event>, m: Mac, low: nat, high: nat)
    requires Fresh(s) && Unmeasured(s) && m in Run(s, events).peers
    requires 1 <= low
    requires forall i :: 0 <= i < |Trail(Run(s, events).samples, m)| ==>
             low <= Trail(Run(s, events).samples, m)[i] <= high
    ensures
      var r := Run(s, events);
      var trail, smoothed := Trail(r.samples, m), r.peers[m].metrics.smoothedRtt;
      && (forall k :: 0 <= k < |r.samples| ==>
            r.samples[k].rtt >= 1 && Count(r.submitted, r.samples[k].id) <= 1)
      && (trail == [] ==> smoothed == 0)
      && (trail != [] && Uncut(trail) ==> low <= smoothed <= high)
  {
    hide Run, Fresh, Count, Trail;
    FreshMeasured(s);
    ReachableInv(s, events);
    FreshInv(s);
    RunMeasured(s, events);
    var r := Run(s, events);
    SamplesCounted(r);
    if Trail(r.samples, m) != [] { SmoothWithin(Trail(r.samples, m), low, high); }
  }

  lemma FreshMeasured(s: Link)
    requires Fresh(s) && Unmeasured(s)
    ensures Measured(s)
  {
  }

  lemma SamplesCounted(s: Link)
    requires Inv(s) && Measured(s)
    ensures forall k :: 0 <= k < |s.samples| ==> s.samples[k].rtt >= 1 && Count(s.submitted, s.samples[k].id) <= 1
  {
    hide Count, Trail, SmoothedFrom, SlotIsTrue, CancellationKept, Numbered, AcksEarned;
    forall k | 0 <= k < |s.samples|
      ensures s.samples[k].rtt >= 1 && Count(s.submitted, s.samples[k].id) <= 1
    {
      assert SampleEarned(s, s.samples[k]);
      assert OutcomeCounted(s.submitted, s.finished[s.samples[k].id]);
    }
  }

  // ---- peer timeouts ----

  /** Every peer waits between 8 and 100 ms for an ACK. */
  ghost predicate TimeoutsInRange(peers: map<Mac, Peer>) {
    forall m :: m in peers ==> MIN_ACK_TIMEOUT_MS <= peers[m].metrics.ackTimeout <= MAX_ACK_TIMEOUT_MS
  }

  lemma ReceiveKeepsTimeouts(s: Link, source: Mac, destination: Mac, data: seq<Byte>, now: Tick)
    requires TimeoutsInRange(s.peers)
    ensures TimeoutsInRange(Receive(s, source, destination, data, now).peers)
  {
    hide Decode, Sample;
    if source in s.peers { SampleInRange(s.peers[source].metrics); }
  }

  lemma SampleInRange(m: Metrics)
    ensures forall rtt: nat :: MIN_ACK_TIMEOUT_MS <= Sample(m, rtt).ackTimeout <= MAX_ACK_TIMEOUT_MS
  {
  }

  /** Whatever a link does and whatever it receives, every peer's timeout stays in range. */
  lemma {:induction false} TimeoutsStayInRange(s: Link, events: seq<Event>)
    requires TimeoutsInRange(s.peers)
    ensures TimeoutsInRange(Run(s, events).peers)
  {
    hide TimeoutsInRange, Act, Receive, ProcessMacResult;
    if events == [] {
    } else {
      TimeoutsStayInRange(s, events[..|events| - 1]);
      var s1 := Run(s, events[..|events| - 1]);
      match events[|events| - 1]
      case Own(action) => ActKeeps(s1, action);
      case Incoming(source, destination, data, now) => ReceiveKeepsTimeouts(s1, source, destination, data, now);
      case Completed(destination, success, now) => CompletionKeeps(s1, destination, success, now);
    }
  }

  /** So it does when it is set by hand, which disturbs nothing else the link guarantees. */
  lemma SetterKeepsTimeouts(s: Link, address: Mac, ms: nat)
    requires Inv(s) && TimeoutsInRange(s.peers)
    ensures
      var s' := SetPeerAckTimeout(s, address, ms);
      && Inv(s') && TimeoutsInRange(s'.peers)
      && (address in s.peers ==>
            (s'.peers[address].metrics.ackTimeout == ms
             <==> (MIN_ACK_TIMEOUT_MS <= ms <= MAX_ACK_TIMEOUT_MS || s.peers[address].metrics.ackTimeout == ms)))
  {
    SetterInv(s, address, ms);
    hide Inv;
  }

  lemma SetterInv(s: Link, address: Mac, ms: nat)
    requires Inv(s)
    ensures Inv(SetPeerAckTimeout(s, address, ms))
  {
  }
}
