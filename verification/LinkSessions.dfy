/** What a receiver remembers of each peer over whole runs, and when it hands a message over a second time. */
module LinkSessions {
  import opened Basics
  import opened Bytes
  import opened LinkCodec
  import opened LinkSteps
  import opened LinkInvariants
  import opened LinkTheorems
  import opened LinkTiming

  /** A reliable message of this peer. */
  predicate Reliably(h: Handover, source: Mac) {
    h.reliable && h.source == source
  }

  /** The position of the last reliable message of a peer, or the length. */
  function LastOf(handovers: seq<Handover>, source: Mac): (k: nat)
    ensures k <= |handovers|
    ensures k < |handovers| ==> Reliably(handovers[k], source)
    ensures forall i :: 0 <= i < |handovers| && Reliably(handovers[i], source) ==> i <= k < |handovers|
  {
    if handovers == [] then 0
    else
      var n := |handovers| - 1;
      if Reliably(handovers[n], source) then n
      else
        var k := LastOf(handovers[..n], source);
        assert forall i :: 0 <= i < n ==> handovers[..n][i] == handovers[i];
        if k == n then n + 1 else k
  }

  /** The peer entry remembers the last reliable message handed over. */
  predicate RemembersLast(peer: Peer, handovers: seq<Handover>, source: Mac) {
    var k := LastOf(handovers, source);
    if k < |handovers| then
      peer.hasRx && peer.lastSession == handovers[k].session && peer.lastSequence == handovers[k].sequence
    else !peer.hasRx
  }

  /** From one reliable message of a peer to a later one, all messages of that peer are of one session. */
  predicate SameSession(handovers: seq<Handover>, source: Mac, i: nat, j: nat)
    requires i < j < |handovers|
  {
    && Reliably(handovers[i], source) && Reliably(handovers[j], source)
    && forall k :: i <= k <= j && Reliably(handovers[k], source) ==> handovers[k].session == handovers[j].session
  }

  /** Within an unbroken session the numbers rise. */
  ghost predicate Rising(handovers: seq<Handover>, source: Mac) {
    forall i, j :: 0 <= i < j < |handovers| && SameSession(handovers, source, i, j) ==>
      handovers[i].sequence < handovers[j].sequence
  }

  ghost predicate Remembering(s: Link) {
    forall m :: m in s.peers ==> RemembersLast(s.peers[m], s.handovers, m) && Rising(s.handovers, m)
  }

  lemma LastSnoc(handovers: seq<Handover>, h: Handover, source: Mac)
    ensures
      var k := LastOf(handovers, source);
      LastOf(handovers + [h], source) ==
        if Reliably(h, source) then |handovers| else if k < |handovers| then k else |handovers| + 1
  {
    assert (handovers + [h])[..|handovers|] == handovers;
  }

  lemma RisingSnoc(handovers: seq<Handover>, h: Handover, source: Mac)
    requires Rising(handovers, source)
    requires Reliably(h, source) ==>
               var k := LastOf(handovers, source);
               k < |handovers| && handovers[k].session == h.session ==> handovers[k].sequence < h.sequence
    ensures Rising(handovers + [h], source)
  {
    hide SameSession, LastOf;
    var more := handovers + [h];
    forall i, j | 0 <= i < j < |more| && SameSession(more, source, i, j)
      ensures more[i].sequence < more[j].sequence
    {
      if j < |handovers| {
        SessionPrefix(handovers, h, source, i, j);
      } else {
        RisesPast(handovers, h, source, i);
      }
    }
  }

  lemma SessionPrefix(handovers: seq<Handover>, h: Handover, source: Mac, i: nat, j: nat)
    requires i < j < |handovers| && SameSession(handovers + [h], source, i, j)
    ensures SameSession(handovers, source, i, j)
  {
    assert forall k :: 0 <= k < |handovers| ==> (handovers + [h])[k] == handovers[k];
  }

  lemma RisesPast(handovers: seq<Handover>, h: Handover, source: Mac, i: nat)
    requires Rising(handovers, source) && i < |handovers| && SameSession(handovers + [h], source, i, |handovers|)
    requires Reliably(h, source) ==>
               var k := LastOf(handovers, source);
               k < |handovers| && handovers[k].session == h.session ==> handovers[k].sequence < h.sequence
    ensures handovers[i].sequence < h.sequence
  {
    var more, k := handovers + [h], LastOf(handovers, source);
    assert forall q :: 0 <= q < |handovers| ==> more[q] == handovers[q];
    assert more[|handovers|] == h && Reliably(more[i], source);
    assert i <= k < |handovers|;
    assert Reliably(more[k], source);
    if i < k { assert SameSession(handovers, source, i, k); }
  }

  lemma NotFromPeer(peer: Peer, handovers: seq<Handover>, h: Handover, m: Mac)
    requires RemembersLast(peer, handovers, m) && Rising(handovers, m) && !Reliably(h, m)
    ensures RemembersLast(peer, handovers + [h], m) && Rising(handovers + [h], m)
  {
    LastSnoc(handovers, h, m);
    RisingSnoc(handovers, h, m);
  }

  lemma FromPeer(peer: Peer, handovers: seq<Handover>, h: Handover, m: Mac)
    requires RemembersLast(peer, handovers, m) && Rising(handovers, m) && Reliably(h, m)
    requires peer.hasRx && peer.lastSession == h.session ==> peer.lastSequence < h.sequence
    ensures
      var peer' := peer.(hasRx := true, lastSession := h.session, lastSequence := h.sequence);
      RemembersLast(peer', handovers + [h], m) && Rising(handovers + [h], m)
  {
    LastSnoc(handovers, h, m);
    RisingSnoc(handovers, h, m);
  }

  lemma HandOverRemembering(s: Link, source: Mac, frame: Frame)
    requires Remembering(s) && !frame.IsReliable()
    ensures Remembering(HandOver(s, source, frame))
  {
    hide RemembersLast, Rising;
    var s' := HandOver(s, source, frame);
    forall m | m in s'.peers
      ensures RemembersLast(s'.peers[m], s'.handovers, m) && Rising(s'.handovers, m)
    {
      NotFromPeer(s.peers[m], s.handovers, s'.handovers[|s.handovers|], m);
    }
  }

  lemma TakeRemembering(s: Link, source: Mac, destination: Mac, frame: Frame, ack: Ack)
    requires Remembering(s) && frame.IsReliable() && Judge(s, source, destination, frame) == Take
    ensures Remembering(HandOver(QueueAck(Remember(s, source, frame), ack), source, frame))
  {
    hide RemembersLast, Rising;
    var s' := HandOver(QueueAck(Remember(s, source, frame), ack), source, frame);
    var h := s'.handovers[|s.handovers|];
    forall m | m in s'.peers
      ensures RemembersLast(s'.peers[m], s'.handovers, m) && Rising(s'.handovers, m)
    {
      if m == source { FromPeer(s.peers[m], s.handovers, h, m); } else { NotFromPeer(s.peers[m], s.handovers, h, m); }
    }
  }

  /** An ACK changes nothing of what is remembered. */
  lemma AckRemembering(s: Link, source: Mac, frame: Frame, now: Tick)
    requires Remembering(s)
    ensures Remembering(ProcessAck(s, source, frame, now))
  {
    hide Sample, LastOf, Rising;
  }

  lemma ReceiveRemembering(s: Link, source: Mac, destination: Mac, data: seq<Byte>, now: Tick)
    requires Remembering(s)
    ensures Remembering(Receive(s, source, destination, data, now))
  {
    hide Remembering, Decode, ProcessAck, HandOver, Remember, Judge;
    match Decode(data)
    case None =>
    case Some(frame) =>
      if frame.IsAck() {
        AckRemembering(s, source, frame, now);
      } else if frame.IsReliable() {
        var ack := Ack(source, frame.correlation, frame.sequence);
        match Judge(s, source, destination, frame) {
          case Drop =>
          case Repeat => QueueAckRemembering(s, ack);
          case Take => TakeRemembering(s, source, destination, frame, ack);
        }
      } else {
        HandOverRemembering(s, source, frame);
      }
  }

  lemma QueueAckRemembering(s: Link, ack: Ack)
    requires Remembering(s)
    ensures Remembering(QueueAck(s, ack))
  {
    hide RemembersLast, Rising;
  }

  lemma KeptRemembering(s: Link, s': Link)
    requires Remembering(s) && MeasuresKept(s, s')
    ensures Remembering(s')
  {
    hide RemembersLast, Rising;
  }

  lemma {:induction false} RunRemembering(s: Link, events: seq<Event>)
    requires Remembering(s)
    ensures Remembering(Run(s, events))
  {
    hide Remembering, Act, Receive, ProcessMacResult, MeasuresKept;
    if events == [] {
    } else {
      var before := Run(s, events[..|events| - 1]);
      RunRemembering(s, events[..|events| - 1]);
      match events[|events| - 1]
      case Own(action) =>
        ActKeeps(before, action);
        KeptRemembering(before, Act(before, action));
      case Incoming(source, destination, data, now) => ReceiveRemembering(before, source, destination, data, now);
      case Completed(destination, success, now) =>
        CompletionKeeps(before, destination, success, now);
        KeptRemembering(before, ProcessMacResult(before, destination, success, now));
    }
  }

  lemma FreshRemembering(s: Link)
    requires Fresh(s)
    ensures Remembering(s)
  {
  }

  /** The message of this frame. */
  predicate IsOf(h: Handover, source: Mac, f: Frame) {
    Reliably(h, source) && h.session == f.correlation && h.sequence == f.sequence
  }

  /** In every run: a frame that has been handed over is taken again exactly if the last reliable message of its peer
      was of another session or, in the same session, of a lower number - and neither can be unless a message of
      another session has come in between. */
  lemma TakenAgainIffSessionChanged(s: Link, events: seq<Event>, source: Mac, destination: Mac, f: Frame, i: nat)
    requires Fresh(s) && source in Run(s, events).peers && destination != BROADCAST
    requires i < |Run(s, events).handovers| && IsOf(Run(s, events).handovers[i], source, f)
    ensures
      var r := Run(s, events);
      var k := LastOf(r.handovers, source);
      && i <= k < |r.handovers|
      && (Judge(r, source, destination, f) == Take
          <==> r.handovers[k].session != f.correlation || r.handovers[k].sequence < f.sequence)
      && (Judge(r, source, destination, f) == Take ==>
            exists j :: i < j < |r.handovers| && Reliably(r.handovers[j], source)
                && r.handovers[j].session != f.correlation)
  {
    FreshRemembering(s);
    RunRemembering(s, events);
    var r := Run(s, events);
    hide Run, Fresh;
    assert RemembersLast(r.peers[source], r.handovers, source) && Rising(r.handovers, source);
    hide Remembering, Rising, SameSession;
    SameOrOther(r.handovers, source, f, i);
    assert Reliably(r.handovers[i], source);
  }

  /** After a frame's message, the last one of its peer is the same or a later one of the session, or another session
      has come in between. */
  lemma SameOrOther(handovers: seq<Handover>, source: Mac, f: Frame, i: nat)
    requires Rising(handovers, source) && i < |handovers| && IsOf(handovers[i], source, f)
    ensures
      var k := LastOf(handovers, source);
      && i <= k < |handovers|
      && (handovers[k].session != f.correlation || handovers[k].sequence < f.sequence ==>
            exists j :: i < j < |handovers| && Reliably(handovers[j], source) && handovers[j].session != f.correlation)
  {
    var k := LastOf(handovers, source);
    if i < k && SameSession(handovers, source, i, k) { assert handovers[i].sequence < handovers[k].sequence; }
  }
}
