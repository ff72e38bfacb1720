/** The shown charge: a ratchet on an interpolated estimate, kept over deep sleep in three numbered copies. */
module BatteryLevel {
  import opened Basics
  import Interp

  const COPIES: nat := 3
  const HALF: nat := 0x8000_0000

  /** A copy in RTC memory: it passes its checks or it does not. */
  datatype Copy = Invalid | Valid(percent: nat, charging: bool, sequence: nat)

  /** `sequence_newer`: a signed 32-bit difference. */
  predicate SequenceNewer(candidate: nat, reference: nat) {
    0 < (candidate - reference) % TWO_32 < HALF
  }

  /** The choice of `restore_rtc_state`, copy by copy. */
  function Newest(copies: seq<Copy>): Copy {
    if copies == [] then Invalid
    else
      var best, last := Newest(copies[..|copies| - 1]), copies[|copies| - 1];
      if last.Valid? && (best.Invalid? || SequenceNewer(last.sequence, best.sequence)) then last else best
  }

  /** The copies, and the variables that a deep sleep clears. */
  datatype State = State(copies: seq<Copy>, initialized: bool, statusValid: bool, percent: nat, charging: bool,
                         sequence: nat)

  /** `restore_rtc_state`. */
  function Restored(s: State): State {
    var newest := Newest(s.copies);
    if s.initialized then s
    else if newest.Invalid? then s.(initialized := true)
    else s.(initialized := true, statusValid := true, percent := newest.percent, charging := newest.charging,
            sequence := newest.sequence)
  }

  function Ratcheted(s: State, estimate: nat, charging: bool): nat {
    if !s.statusValid then estimate
    else if charging then (if s.percent > estimate then s.percent else estimate)
    else if s.percent < estimate then s.percent else estimate
  }

  /** The copies when the first `written` of them hold the new record. */
  function Overwritten(copies: seq<Copy>, record: Copy, written: nat): (r: seq<Copy>)
    requires written <= |copies|
    ensures |r| == |copies| && forall i :: 0 <= i < |r| ==> r[i] == if i < written then record else copies[i]
  {
    seq(written, _ => record) + copies[written..]
  }

  /** `update` up to the writing of the first `written` copies. */
  function Updated(s: State, estimate: nat, charging: bool, written: nat): State
    requires |s.copies| == COPIES && written <= COPIES
  {
    var r := Restored(s);
    var shown, number := Ratcheted(r, estimate, charging), (r.sequence + 1) % TWO_32;
    State(Overwritten(s.copies, Copy.Valid(shown, charging, number), written), true, true, shown, charging, number)
  }

  /** Deep sleep or a power failure: only the copies stay. */
  function Woken(s: State): State {
    State(s.copies, false, false, 0, false, 0)
  }

  /** What is or would be shown. */
  function Shown(s: State): Copy {
    var r := Restored(s);
    if r.statusValid then Copy.Valid(r.percent, r.charging, r.sequence) else Invalid
  }

  class Battery {
    var rtcRecords: seq<Copy>
    var initialized: bool
    var statusValid: bool
    var percent: nat
    var isCharging: bool
    var currentSequence: nat

    function Snapshot(): State
      reads this
    {
      State(rtcRecords, initialized, statusValid, percent, isCharging, currentSequence)
    }

    constructor (copies: seq<Copy>)
      requires |copies| == COPIES
      ensures Snapshot() == Woken(Snapshot()) && rtcRecords == copies
    {
      rtcRecords, initialized, statusValid, percent, isCharging, currentSequence := copies, false, false, 0, false, 0;
    }

    method RestoreRtcState()
      requires !initialized && |rtcRecords| == COPIES
      modifies this`initialized, this`statusValid, this`percent, this`isCharging, this`currentSequence
      ensures Snapshot() == Restored(old(Snapshot()))
    {
      initialized := true;
      var newest := Invalid;
      for i := 0 to |rtcRecords|
        invariant newest == Newest(rtcRecords[..i])
      {
        var record := rtcRecords[i];
        assert rtcRecords[..i + 1][..i] == rtcRecords[..i];
        if record.Valid? && (newest.Invalid? || SequenceNewer(record.sequence, newest.sequence)) { newest := record; }
      }
      assert rtcRecords[..|rtcRecords|] == rtcRecords;
      if newest.Invalid? { return; }
      currentSequence, percent, isCharging, statusValid := newest.sequence, newest.percent, newest.charging, true;
    }

    /** `persist_rtc_state`; power may fail when only the first `written` copies are written. */
    method PersistRtcState(shown: nat, charging: bool, written: nat)
      requires |rtcRecords| == COPIES && written <= COPIES
      modifies this`rtcRecords, this`currentSequence
      ensures currentSequence == (old(currentSequence) + 1) % TWO_32
      ensures rtcRecords == Overwritten(old(rtcRecords), Copy.Valid(shown, charging, currentSequence), written)
    {
      currentSequence := (currentSequence + 1) % TWO_32;
      var record := Copy.Valid(shown, charging, currentSequence);
      for i := 0 to written
        invariant currentSequence == (old(currentSequence) + 1) % TWO_32
        invariant rtcRecords == Overwritten(old(rtcRecords), record, i)
      {
        rtcRecords := rtcRecords[i := record];
      }
    }

    method Update(estimate: nat, charging: bool, written: nat) returns (shown: nat)
      requires |rtcRecords| == COPIES && written <= COPIES
      modifies this
      ensures Snapshot() == Updated(old(Snapshot()), estimate, charging, written)
      ensures Copy.Valid(shown, charging, currentSequence) == Shown(Snapshot())
    {
      if !initialized { RestoreRtcState(); }
      shown := estimate;
      if statusValid {
        if charging {
          shown := if percent > estimate then percent else estimate;
        } else {
          shown := if percent < estimate then percent else estimate;
        }
      }
      percent, isCharging, statusValid := shown, charging, true;
      PersistRtcState(shown, charging, written);
    }
  }

  // ---- recovery ----

  /** How many numbers a copy is behind. */
  function Age(number: nat, copy: Copy): nat
    requires copy.Valid?
  {
    (number - copy.sequence) % TWO_32
  }

  /** The copies are the newest record and older ones, none more than `span` numbers behind. */
  ghost predicate Behind(copies: seq<Copy>, newest: Copy, span: nat) {
    newest.Valid? && newest.sequence < TWO_32
    && forall i :: 0 <= i < |copies| && copies[i].Valid? ==>
         copies[i].sequence < TWO_32 && Age(newest.sequence, copies[i]) <= span
         && (Age(newest.sequence, copies[i]) == 0 ==> copies[i] == newest)
  }

  lemma AgesCompare(number: nat, a: Copy, b: Copy)
    requires a.Valid? && b.Valid? && a.sequence < TWO_32 && b.sequence < TWO_32 && number < TWO_32
    requires Age(number, a) < HALF && Age(number, b) < HALF
    ensures SequenceNewer(a.sequence, b.sequence) <==> Age(number, a) < Age(number, b)
  {
    var x: int, y: int := Age(number, a), Age(number, b);
    Residue(number, a.sequence);
    Residue(number, b.sequence);
    var k: int := (if number >= b.sequence then 0 else 1) - if number >= a.sequence then 0 else 1;
    SameResidue(y - x, a.sequence - b.sequence, k);
  }

  lemma OwnAge(copy: Copy)
    requires copy.Valid?
    ensures Age(copy.sequence, copy) == 0
  {
  }

  lemma Residue(n: nat, m: nat)
    requires n < TWO_32 && m < TWO_32
    ensures (n - m) % TWO_32 == if n >= m then n - m else n - m + TWO_32
  {
  }

  lemma SameResidue(a: int, b: int, k: int)
    requires a - b == k * TWO_32
    ensures a % TWO_32 == b % TWO_32
  {
  }

  /** Restoring finds the newest record whenever one copy of it is intact, also across the wrap of the numbers. */
  lemma {:induction false} NewestIsFound(copies: seq<Copy>, newest: Copy, span: nat)
    requires Behind(copies, newest, span) && span < HALF
    ensures Newest(copies).Invalid? <==> forall i :: 0 <= i < |copies| ==> copies[i].Invalid?
    ensures Newest(copies).Valid? ==> Newest(copies) in copies
    ensures newest in copies <==> Newest(copies) == newest
  {
    hide SequenceNewer, Age;
    OwnAge(newest);
    if copies == [] {
    } else {
      var n := |copies| - 1;
      NewestIsFound(copies[..n], newest, span);
      assert copies == copies[..n] + [copies[n]];
      var best := Newest(copies[..n]);
      if best.Valid? && copies[n].Valid? {
        var i :| 0 <= i < n && copies[..n][i] == best;
        assert copies[i] == best;
        AgesCompare(newest.sequence, copies[n], best);
      }
    }
  }

  // ---- runs ----

  /** A complete update; an update cut short by a power failure after some copies; a deep sleep; a copy going bad. */
  datatype Event =
    | Update(estimate: nat, charging: bool)
    | CutUpdate(estimate: nat, charging: bool, written: nat)
    | Sleep
    | Corrupt(i: nat)

  function After(s: State, e: Event): State
    requires |s.copies| == COPIES && (e.CutUpdate? ==> e.written <= COPIES) && (e.Corrupt? ==> e.i < COPIES)
  {
    match e
    case Update(estimate, charging) => Updated(s, estimate, charging, COPIES)
    case CutUpdate(estimate, charging, written) => Woken(Updated(s, estimate, charging, written))
    case Sleep => Woken(s)
    case Corrupt(i) => s.(copies := s.copies[i := Invalid])
  }

  /** The newest record is shown, and one copy of it at least is intact; `span` cut updates may have come in between. */
  ghost predicate Inv(s: State, span: nat) {
    && |s.copies| == COPIES && span < HALF - 1
    && Shown(s).Valid? && Shown(s) in s.copies && Behind(s.copies, Shown(s), span)
  }

  /** A copy may go bad as long as another one of the newest record remains; a cut update finds less than 2^31 - 2 cut
      ones before it. */
  ghost predicate Survivable(s: State, span: nat, e: Event)
    requires |s.copies| == COPIES
  {
    match e
    case Update(_, _) => true
    case CutUpdate(_, _, written) => written <= COPIES && span < HALF - 2
    case Sleep => true
    case Corrupt(i) => i < COPIES && Shown(s) in s.copies[i := Invalid]
  }

  function SpanAfter(span: nat, e: Event): nat {
    match e
    case Update(_, _) => 0
    case CutUpdate(_, _, _) => span + 1
    case _ => span
  }

  lemma ShownIsKept(s: State, span: nat)
    requires Inv(s, span)
    ensures Shown(Woken(s)) == Shown(s)
    ensures Restored(s).statusValid
            && Shown(s) == Copy.Valid(Restored(s).percent, Restored(s).charging, Restored(s).sequence)
  {
    NewestIsFound(s.copies, Shown(s), span);
  }

  lemma NextNumber(n: nat, copy: Copy)
    requires n < TWO_32 && copy.Valid? && copy.sequence < TWO_32 && Age(n, copy) < HALF
    ensures Age((n + 1) % TWO_32, copy) == Age(n, copy) + 1
  {
    Residue(n, copy.sequence);
    Residue((n + 1) % TWO_32, copy.sequence);
  }

  lemma WrittenBehind(s: State, span: nat, record: Copy, written: nat)
    requires Inv(s, span) && written <= COPIES
    requires record.Valid? && record.sequence == (Shown(s).sequence + 1) % TWO_32
    ensures Behind(Overwritten(s.copies, record, written), record, if written == COPIES then 0 else span + 1)
  {
    var copies := Overwritten(s.copies, record, written);
    Residue(record.sequence, record.sequence);
    forall i | 0 <= i < |copies| && copies[i].Valid?
      ensures copies[i].sequence < TWO_32
              && Age(record.sequence, copies[i]) <= (if written == COPIES then 0 else span + 1)
      ensures Age(record.sequence, copies[i]) == 0 ==> copies[i] == record
    {
      if i >= written {
        assert copies[i] == s.copies[i];
        NextNumber(Shown(s).sequence, s.copies[i]);
      }
    }
  }

  lemma UpdateStep(s: State, span: nat, estimate: nat, charging: bool, written: nat)
    requires Inv(s, span) && written <= COPIES
    ensures
      var u := Updated(s, estimate, charging, written);
      && u.percent == Ratcheted(Restored(s), estimate, charging)
      && Shown(u) == Copy.Valid(u.percent, charging, u.sequence)
      && Behind(u.copies, Shown(u), if written == COPIES then 0 else span + 1)
      && |u.copies| == COPIES && (written > 0 ==> Shown(u) in u.copies)
      && (written == 0 ==> u.copies == s.copies)
  {
    ShownIsKept(s, span);
    var u := Updated(s, estimate, charging, written);
    WrittenBehind(s, span, Shown(u), written);
    if written > 0 { assert u.copies[0] == Shown(u); }
  }

  /** The estimates that reached a copy. */
  function Written(events: seq<Event>): seq<nat> {
    if events == [] then []
    else
      (match events[0]
       case Update(estimate, _) => [estimate]
       case CutUpdate(estimate, _, written) => if written > 0 then [estimate] else []
       case _ => []) + Written(events[1..])
  }

  /** The largest of a start and some estimates while charging, the smallest while discharging. */
  ghost predicate IsExtreme(charging: bool, x: nat, start: nat, estimates: seq<nat>) {
    && (x == start || x in estimates)
    && (if charging then start <= x else x <= start)
    && forall i :: 0 <= i < |estimates| ==> if charging then estimates[i] <= x else x <= estimates[i]
  }

  lemma ExtremeOfBoth(charging: bool, x: nat, y: nat, start: nat, first: seq<nat>, rest: seq<nat>)
    requires IsExtreme(charging, y, start, first) && IsExtreme(charging, x, y, rest)
    ensures IsExtreme(charging, x, start, first + rest)
  {
  }

  lemma ExtremeOfOne(s: State, estimate: nat, charging: bool)
    requires s.statusValid
    ensures IsExtreme(charging, Ratcheted(s, estimate, charging), s.percent, [estimate])
  {
  }

  /** One event: what is shown afterwards is what was shown, or the ratcheted estimate of this update. */
  lemma EventStep(s: State, span: nat, e: Event)
    requires Inv(s, span) && Survivable(s, span, e)
    ensures Inv(After(s, e), SpanAfter(span, e))
    ensures Shown(After(s, e)).percent ==
            if e.Update? || (e.CutUpdate? && e.written > 0) then Ratcheted(Restored(s), e.estimate, e.charging)
            else Shown(s).percent
  {
    match e
    case Update(estimate, charging) => UpdateStep(s, span, estimate, charging, COPIES);
    case CutUpdate(estimate, charging, written) => CutStep(s, span, estimate, charging, written);
    case Sleep => ShownIsKept(s, span);
    case Corrupt(i) => CorruptStep(s, span, i);
  }

  lemma CutStep(s: State, span: nat, estimate: nat, charging: bool, written: nat)
    requires Inv(s, span) && written <= COPIES && span < HALF - 2
    ensures
      var s' := Woken(Updated(s, estimate, charging, written));
      && Inv(s', span + 1)
      && Shown(s').percent == if written == 0 then Shown(s).percent else Ratcheted(Restored(s), estimate, charging)
  {
    hide Updated, Ratcheted, Newest;
    ShownIsKept(s, span);
    UpdateStep(s, span, estimate, charging, written);
    var u := Updated(s, estimate, charging, written);
    if written > 0 {
      NewestIsFound(u.copies, Shown(u), span + 1);
    } else {
      assert Woken(u) == Woken(s);
    }
  }

  lemma CorruptStep(s: State, span: nat, i: nat)
    requires Inv(s, span) && i < COPIES && Shown(s) in s.copies[i := Invalid]
    ensures Inv(After(s, Corrupt(i)), span) && Shown(After(s, Corrupt(i))) == Shown(s)
  {
    var copies := s.copies[i := Invalid];
    assert Behind(copies, Shown(s), span);
    NewestIsFound(copies, Shown(s), span);
    NewestIsFound(s.copies, Shown(s), span);
  }

  ghost predicate SurvivableRun(s: State, span: nat, events: seq<Event>)
    decreases |events|
  {
    events == []
    || (|s.copies| == COPIES && Survivable(s, span, events[0])
        && SurvivableRun(After(s, events[0]), SpanAfter(span, events[0]), events[1..]))
  }

  ghost function Run(s: State, span: nat, events: seq<Event>): State
    requires SurvivableRun(s, span, events)
    decreases |events|
  {
    if events == [] then s else Run(After(s, events[0]), SpanAfter(span, events[0]), events[1..])
  }

  predicate AllCharging(events: seq<Event>, charging: bool) {
    forall i :: 0 <= i < |events| && (events[i].Update? || events[i].CutUpdate?) ==> events[i].charging == charging
  }

  /** Over any run of complete and cut updates, deep sleeps and failing copies, the shown charge never rises while
      discharging and never falls while charging: it is the smallest, or the largest, of what was shown first and of all
      estimates since that reached a copy. */
  lemma {:induction false} Ratchet(s: State, span: nat, events: seq<Event>, charging: bool)
    requires Inv(s, span) && SurvivableRun(s, span, events) && AllCharging(events, charging)
    ensures Shown(Run(s, span, events)).Valid?
    ensures if charging then Shown(Run(s, span, events)).percent >= Shown(s).percent
            else Shown(Run(s, span, events)).percent <= Shown(s).percent
    ensures IsExtreme(charging, Shown(Run(s, span, events)).percent, Shown(s).percent, Written(events))
    decreases |events|
  {
    if events == [] {
    } else {
      hide Inv, Survivable, SpanAfter, Shown, After, IsExtreme, Written;
      var e := events[0];
      RatchetStep(s, span, e, charging);
      assert AllCharging(events[1..], charging);
      Ratchet(After(s, e), SpanAfter(span, e), events[1..], charging);
      WrittenHead(events);
      ExtremeOfBoth(charging, Shown(Run(s, span, events)).percent, Shown(After(s, e)).percent, Shown(s).percent,
                    Written([e]), Written(events[1..]));
    }
  }

  lemma WrittenHead(events: seq<Event>)
    requires events != []
    ensures Written(events) == Written([events[0]]) + Written(events[1..])
  {
    assert [events[0]][1..] == [];
  }

  lemma RatchetStep(s: State, span: nat, e: Event, charging: bool)
    requires Inv(s, span) && Survivable(s, span, e) && AllCharging([e], charging)
    ensures Inv(After(s, e), SpanAfter(span, e)) && Shown(After(s, e)).Valid? && Shown(s).Valid?
    ensures if charging then Shown(After(s, e)).percent >= Shown(s).percent
            else Shown(After(s, e)).percent <= Shown(s).percent
    ensures IsExtreme(charging, Shown(After(s, e)).percent, Shown(s).percent, Written([e]))
  {
    hide Inv, Newest, Ratcheted;
    EventStep(s, span, e);
    ShownIsKept(s, span);
    assert [e][1..] == [];
    if e.Update? || e.CutUpdate? { ExtremeOfOne(Restored(s), e.estimate, e.charging); }
    assert [e][0] == e;
  }

  /** A complete update, whatever the copies held before, is where such a run starts. */
  lemma CompleteUpdateStarts(s: State, estimate: nat, charging: bool)
    requires |s.copies| == COPIES
    ensures Inv(Updated(s, estimate, charging, COPIES), 0)
    ensures
      var shown := Shown(Updated(s, estimate, charging, COPIES)).percent;
      if Shown(s).Valid? then IsExtreme(charging, shown, Shown(s).percent, [estimate]) else shown == estimate
  {
    hide Newest;
    var u := Updated(s, estimate, charging, COPIES);
    OwnAge(Shown(u));
    assert u.copies[0] == Shown(u);
  }

  /** The ratchet from any content of the copies: after one complete update, over any survivable run. */
  lemma RatchetFromAnywhere(s: State, estimate: nat, first: bool, events: seq<Event>, charging: bool)
    requires |s.copies| == COPIES && AllCharging(events, charging)
    requires SurvivableRun(Updated(s, estimate, first, COPIES), 0, events)
    ensures
      var u := Updated(s, estimate, first, COPIES);
      && Shown(Run(u, 0, events)).Valid?
      && if charging then Shown(Run(u, 0, events)).percent >= Shown(u).percent
         else Shown(Run(u, 0, events)).percent <= Shown(u).percent
    ensures
      var u := Updated(s, estimate, first, COPIES);
      IsExtreme(charging, Shown(Run(u, 0, events)).percent, Shown(u).percent, Written(events))
  {
    hide Updated, Inv;
    CompleteUpdateStarts(s, estimate, first);
    Ratchet(Updated(s, estimate, first, COPIES), 0, events, charging);
  }

  /** After a failing copy, what is shown on waking is what was shown before exactly if a copy of the newest record is
      intact. An older copy alone brings an older charge back. */
  lemma CorruptionShows(s: State, span: nat, i: nat)
    requires Inv(s, span) && i < COPIES
    ensures Shown(Woken(After(s, Corrupt(i)))) == Shown(s) <==> Shown(s) in s.copies[i := Invalid]
    ensures
      var woken, left := Shown(Woken(After(s, Corrupt(i)))), s.copies[i := Invalid];
      (woken.Valid? && woken.percent == Shown(s).percent)
      <==> Shown(s) in left || (Newest(left).Valid? && Newest(left).percent == Shown(s).percent)
  {
    var copies := s.copies[i := Invalid];
    assert Behind(copies, Shown(s), span);
    NewestIsFound(copies, Shown(s), span);
  }

  /** A discharge from 60 to 40, cut after the first copy; that copy goes bad; on waking 60 is shown again. */
  lemma OldChargeReturns()
    ensures
      var old60 := Copy.Valid(60, false, 7);
      var s := Woken(State([old60, old60, old60], true, true, 60, false, 7));
      var cut := After(s, CutUpdate(40, false, 1));
      var bad := After(cut, Corrupt(0));
      Shown(cut).percent == 40 && Shown(bad).percent == 60
  {
    hide Newest;
    var old60, new40 := Copy.Valid(60, false, 7), Copy.Valid(40, false, 8);
    NewestOfThree(old60, old60, old60);
    NewestOfThree(new40, old60, old60);
    NewestOfThree(Invalid, old60, old60);
    assert Overwritten([old60, old60, old60], new40, 1) == [new40, old60, old60];
    assert [new40, old60, old60][0 := Invalid] == [Invalid, old60, old60];
  }

  lemma NewestOfThree(a: Copy, b: Copy, c: Copy)
    ensures
      var ab := if b.Valid? && (a.Invalid? || SequenceNewer(b.sequence, a.sequence)) then b else a;
      Newest([a, b, c]) == if c.Valid? && (ab.Invalid? || SequenceNewer(c.sequence, ab.sequence)) then c else ab
  {
    assert [a, b, c][..2] == [a, b] && [a, b][..1] == [a] && [a][..0] == [];
    assert Newest([a]) == a;
  }

  // ---- the estimate ----

  /** `estimate_percent`, from an interpolated value. */
  function Rounded(value: real): nat {
    var rounded := (value + 0.5).Floor;
    if rounded < 0 then 0 else if rounded > 100 then 100 else rounded
  }

  /** The estimate is the nearest whole number, within 0 and 100. */
  lemma RoundedIsNearest(value: real)
    ensures Rounded(value) <= 100
    ensures 0.0 <= value <= 100.0 ==> Rounded(value) as real - 0.5 <= value < Rounded(value) as real + 0.5
    ensures value < 0.0 ==> Rounded(value) == 0
    ensures value > 100.0 ==> Rounded(value) == 100
  {
  }

  /** A higher voltage never gives a lower estimate, for any curve of rising voltages and percentages. */
  lemma EstimateIsMonotone(voltages: seq<real>, percents: seq<real>, v: real, y: real, v': real, y': real)
    requires Interp.TableOk(true, voltages, percents) && Interp.Rising(percents) && v <= v'
    requires Interp.IsValueAt(true, voltages, percents, v, y) && Interp.IsValueAt(true, voltages, percents, v', y')
    ensures Rounded(y) <= Rounded(y') <= 100
  {
    Interp.InterpolationIsMonotone(true, voltages, percents, v, y, v', y');
  }
}
