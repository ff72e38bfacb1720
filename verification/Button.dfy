/** The push button: a scan every 10 ms, and what its event trace says about the presses. */
module Button {
  import opened Basics

  const DEBOUNCE_MS: nat := 5
  const LONG_MS: nat := 1000
  const SUPER_LONG_MS: nat := 3000
  const DOUBLE_CLICK_MS: nat := 250
  const SCAN_TICK_MS: nat := 10
  const CLICKS_WRAP: nat := 8

  datatype Event = SHORT_PRESS | DOUBLE_CLICK | LONG_PRESS | SUPER_LONG_PRESS | SHORT_THEN_LONG | RELEASE | PRESS

  /** The counters: 32-bit times, a click count of three bits, and two flags. */
  datatype State = State(ticks: nat, gapTicks: nat, clickCount: nat, isLongSent: bool, isSuperSent: bool)

  const INITIAL := State(0, 0, 0, false, false)

  datatype Outcome = Outcome(state: State, events: seq<Event>)

  function ScanPressed(s: State): Outcome {
    var ticks := (s.ticks + SCAN_TICK_MS) % TWO_32;
    var pressed := if s.ticks <= DEBOUNCE_MS < ticks then [PRESS] else [];
    var isLong := ticks >= LONG_MS && !s.isLongSent;
    var isSuper := ticks >= SUPER_LONG_MS && !s.isSuperSent;
    Outcome(State(ticks, 0, if isLong || isSuper then 0 else s.clickCount,
                  s.isLongSent || isLong, s.isSuperSent || isSuper),
            pressed
            + (if isLong then [if s.clickCount == 1 then SHORT_THEN_LONG else LONG_PRESS] else [])
            + (if isSuper then [SUPER_LONG_PRESS] else []))
  }

  function ScanReleased(s: State): Outcome {
    var valid := s.ticks > DEBOUNCE_MS;
    var clicks := if valid && !s.isLongSent then (s.clickCount + 1) % CLICKS_WRAP else s.clickCount;
    var released := if valid then [RELEASE] else [];
    var s1 := if s.ticks > 0 then State(0, s.gapTicks, clicks, false, false) else s;
    if clicks == 0 then Outcome(s1, released)
    else
      var gap := (s.gapTicks + SCAN_TICK_MS) % TWO_32;
      if gap > DOUBLE_CLICK_MS
      then Outcome(s1.(clickCount := 0, gapTicks := 0), released + [if clicks == 1 then SHORT_PRESS else DOUBLE_CLICK])
      else Outcome(s1.(gapTicks := gap), released)
  }

  /** `_run_state_machine` for one sample. */
  function Scan(s: State, pressed: bool): Outcome {
    if pressed then ScanPressed(s) else ScanReleased(s)
  }

  class Button {
    var ticks: nat
    var gapTicks: nat
    var clickCount: nat
    var isLongSent: bool
    var isSuperSent: bool
    /** The events handed to the event queue. */
    var posted: seq<Event>

    function Counters(): State
      reads this
    {
      State(ticks, gapTicks, clickCount, isLongSent, isSuperSent)
    }

    constructor ()
      ensures Counters() == INITIAL && posted == []
    {
      ticks, gapTicks, clickCount, isLongSent, isSuperSent, posted := 0, 0, 0, false, false, [];
    }

    method RunStateMachine(nowPressed: bool)
      modifies this
      ensures Counters() == Scan(old(Counters()), nowPressed).state
      ensures posted == old(posted) + Scan(old(Counters()), nowPressed).events
    {
      if nowPressed { HandlePressed(); } else { HandleReleased(); }
    }

    method HandlePressed()
      modifies this
      ensures Counters() == ScanPressed(old(Counters())).state
      ensures posted == old(posted) + ScanPressed(old(Counters())).events
    {
      var previousTicks := ticks;
      ticks := (ticks + SCAN_TICK_MS) % TWO_32;
      var events := [];
      if previousTicks <= DEBOUNCE_MS && ticks > DEBOUNCE_MS { events := events + [PRESS]; }
      gapTicks := 0;
      if ticks >= LONG_MS && !isLongSent {
        events := events + [if clickCount == 1 then SHORT_THEN_LONG else LONG_PRESS];
        isLongSent := true;
        clickCount := 0;
      }
      if ticks >= SUPER_LONG_MS && !isSuperSent {
        events := events + [SUPER_LONG_PRESS];
        isSuperSent := true;
        clickCount := 0;
      }
      posted := posted + events;
    }

    method HandleReleased()
      modifies this
      ensures Counters() == ScanReleased(old(Counters())).state
      ensures posted == old(posted) + ScanReleased(old(Counters())).events
    {
      var events := [];
      if ticks > 0 {
        if ticks > DEBOUNCE_MS {
          if !isLongSent { clickCount := (clickCount + 1) % CLICKS_WRAP; }
          events := events + [RELEASE];
        }
        ticks := 0;
        isLongSent := false;
        isSuperSent := false;
      }
      if clickCount > 0 {
        gapTicks := (gapTicks + SCAN_TICK_MS) % TWO_32;
        if gapTicks > DOUBLE_CLICK_MS {
          events := events + [if clickCount == 1 then SHORT_PRESS else DOUBLE_CLICK];
          clickCount := 0;
          gapTicks := 0;
        }
      }
      posted := posted + events;
    }
  }

  // ---- traces ----

  function After(s: State, samples: seq<bool>): State {
    if samples == [] then s else Scan(After(s, samples[..|samples| - 1]), samples[|samples| - 1]).state
  }

  /** The events of each scan. */
  function Trace(s: State, samples: seq<bool>): seq<seq<Event>> {
    if samples == [] then []
    else Trace(s, samples[..|samples| - 1])
         + [Scan(After(s, samples[..|samples| - 1]), samples[|samples| - 1]).events]
  }

  lemma {:induction false} TraceAppend(s: State, x: seq<bool>, y: seq<bool>)
    ensures After(s, x + y) == After(After(s, x), y)
    ensures Trace(s, x + y) == Trace(s, x) + Trace(After(s, x), y)
  {
    hide Scan;
    if y == [] {
      assert x + y == x;
    } else {
      TraceAppend(s, x, y[..|y| - 1]);
      assert (x + y)[..|x + y| - 1] == x + y[..|y| - 1];
    }
  }

  function Repeat(pressed: bool, n: nat): seq<bool> {
    seq(n, _ => pressed)
  }

  lemma RepeatSnoc(pressed: bool, n: nat)
    requires n > 0
    ensures Repeat(pressed, n) != [] && Repeat(pressed, n)[n - 1] == pressed && |Repeat(pressed, n)| == n
    ensures Repeat(pressed, n)[..n - 1] == Repeat(pressed, n - 1)
  {
  }

  // ---- the declarative reading ----

  /** One press: how many samples it lasts and how many released samples follow. */
  datatype Stroke = Stroke(pressed: nat, released: nat)

  const LONG_SAMPLES: nat := 100
  const SUPER_LONG_SAMPLES: nat := 300
  const GESTURE_SAMPLES: nat := 26

  function Samples(strokes: seq<Stroke>): seq<bool> {
    if strokes == [] then []
    else Repeat(true, strokes[0].pressed) + Repeat(false, strokes[0].released) + Samples(strokes[1..])
  }

  /** Every press and every gap lasts at least one sample, but for the gap after the last press. */
  predicate Proper(strokes: seq<Stroke>) {
    forall i :: 0 <= i < |strokes| ==> strokes[i].pressed > 0 && (i + 1 < |strokes| ==> strokes[i].released > 0)
  }

  /** The samples of a press until its 32-bit time wraps: more than 49 days. */
  const WRAP_SAMPLES: nat := TWO_32 / SCAN_TICK_MS

  /** The press ends before its time wraps; or it goes on, and one sample beyond the wrap does not show yet. */
  predicate Measurable(stroke: Stroke) {
    stroke.pressed <= WRAP_SAMPLES || (stroke.pressed == WRAP_SAMPLES + 1 && stroke.released == 0)
  }

  predicate AllMeasurable(strokes: seq<Stroke>) {
    forall i :: 0 <= i < |strokes| ==> Measurable(strokes[i])
  }

  /** Events of sample `i` of a press that follows `clicks` short clicks. */
  function PressEvents(clicks: nat, i: nat): seq<Event> {
    if i == 0 then [PRESS]
    else if i + 1 == LONG_SAMPLES then [if clicks == 1 then SHORT_THEN_LONG else LONG_PRESS]
    else if i + 1 == SUPER_LONG_SAMPLES then [SUPER_LONG_PRESS]
    else []
  }

  /** Events of sample `i` after a press, when the gesture has `clicks` short clicks by now. */
  function GapEvents(clicks: nat, i: nat): seq<Event> {
    if i == 0 then [RELEASE]
    else if i + 1 == GESTURE_SAMPLES && clicks > 0 then [if clicks == 1 then SHORT_PRESS else DOUBLE_CLICK]
    else []
  }

  function PressRun(clicks: nat, p: nat): (run: seq<seq<Event>>)
    ensures |run| == p
  {
    seq(p, i requires 0 <= i => PressEvents(clicks, i))
  }

  function GapRun(clicks: nat, r: nat): (run: seq<seq<Event>>)
    ensures |run| == r
  {
    seq(r, i requires 0 <= i => GapEvents(clicks, i))
  }

  function Counted(wrap: bool, clicks: nat): nat {
    if wrap then clicks % CLICKS_WRAP else clicks
  }

  /** The clicks of the gesture once this press is over; a long press ends the gesture. */
  function Clicks(wrap: bool, clicks: nat, stroke: Stroke): nat {
    if stroke.pressed >= LONG_SAMPLES then 0 else Counted(wrap, clicks + 1)
  }

  function Carried(clicks: nat, stroke: Stroke): nat {
    if stroke.released >= GESTURE_SAMPLES then 0 else clicks
  }

  /** The events that the presses mean, scan by scan; with `wrap`, clicks are counted in three bits. */
  function Reading(wrap: bool, clicks: nat, strokes: seq<Stroke>): seq<seq<Event>>
    decreases |strokes|
  {
    if strokes == [] then []
    else
      var stroke := strokes[0];
      var now := Clicks(wrap, clicks, stroke);
      PressRun(clicks, stroke.pressed) + GapRun(now, stroke.released)
      + Reading(wrap, Carried(now, stroke), strokes[1..])
  }

  // ---- the machine reads correctly ----

  /** Between strokes. */
  predicate AtRest(s: State, clicks: nat) {
    s.ticks == 0 && !s.isLongSent && !s.isSuperSent && s.clickCount == clicks < CLICKS_WRAP
    && (clicks == 0 ==> s.gapTicks == 0)
  }

  function Held(clicks: nat, p: nat): State {
    State(SCAN_TICK_MS * p, 0, if p >= LONG_SAMPLES then 0 else clicks, p >= LONG_SAMPLES, p >= SUPER_LONG_SAMPLES)
  }

  lemma FirstPress(s: State, clicks: nat)
    requires AtRest(s, clicks)
    ensures Scan(s, true) == Outcome(Held(clicks, 1), PressEvents(clicks, 0))
  {
  }

  lemma NextPress(clicks: nat, p: nat)
    requires 0 < p < WRAP_SAMPLES
    ensures Scan(Held(clicks, p), true) == Outcome(Held(clicks, p + 1), PressEvents(clicks, p))
  {
  }

  lemma {:induction false} PressTrace(s: State, clicks: nat, p: nat)
    requires AtRest(s, clicks) && 0 < p <= WRAP_SAMPLES
    ensures After(s, Repeat(true, p)) == Held(clicks, p)
    ensures Trace(s, Repeat(true, p)) == PressRun(clicks, p)
  {
    hide Scan, Held, PressEvents, Repeat, AtRest;
    RepeatSnoc(true, p);
    assert PressRun(clicks, p) == PressRun(clicks, p - 1) + [PressEvents(clicks, p - 1)];
    if p > 1 {
      PressTrace(s, clicks, p - 1);
      NextPress(clicks, p - 1);
    } else {
      NoSamples(s, true);
      FirstPress(s, clicks);
    }
  }

  lemma NoSamples(s: State, pressed: bool)
    ensures After(s, Repeat(pressed, 0)) == s && Trace(s, Repeat(pressed, 0)) == []
  {
    assert Repeat(pressed, 0) == [];
  }

  function Open(clicks: nat, r: nat): State {
    State(0, if clicks == 0 || r >= GESTURE_SAMPLES then 0 else SCAN_TICK_MS * r,
          if r >= GESTURE_SAMPLES then 0 else clicks, false, false)
  }

  lemma FirstRelease(clicks: nat, p: nat, r: nat)
    requires clicks < CLICKS_WRAP && 0 < p
    ensures
      var now := Clicks(true, clicks, Stroke(p, r));
      Scan(Held(clicks, p), false) == Outcome(Open(now, 1), GapEvents(now, 0))
  {
  }

  lemma NextRelease(clicks: nat, r: nat)
    requires 0 < r && clicks < CLICKS_WRAP
    ensures Scan(Open(clicks, r), false) == Outcome(Open(clicks, r + 1), GapEvents(clicks, r))
  {
  }

  /** The gap after a press of `p` samples. */
  lemma {:induction false} GapTrace(clicks: nat, p: nat, r: nat)
    requires clicks < CLICKS_WRAP && 0 < p && r > 0
    ensures
      var now := Clicks(true, clicks, Stroke(p, r));
      && After(Held(clicks, p), Repeat(false, r)) == Open(now, r)
      && Trace(Held(clicks, p), Repeat(false, r)) == GapRun(now, r)
  {
    hide Scan, Held, Open, GapEvents, Repeat;
    RepeatSnoc(false, r);
    var now := Clicks(true, clicks, Stroke(p, r));
    assert GapRun(now, r) == GapRun(now, r - 1) + [GapEvents(now, r - 1)];
    if r > 1 {
      GapTrace(clicks, p, r - 1);
      NextRelease(now, r - 1);
    } else {
      NoSamples(Held(clicks, p), false);
      FirstRelease(clicks, p, r);
    }
  }

  // ---- presses past the wrap ----

  /** The state one sample after the wrap. */
  function Wrapped(): State {
    State((SCAN_TICK_MS * WRAP_SAMPLES + SCAN_TICK_MS) % TWO_32, 0, 0, true, true)
  }

  /** The sample that wraps posts nothing; the next pressed one posts a second PRESS, the next released
      one no RELEASE. */
  lemma WrapSteps(clicks: nat)
    ensures Scan(Held(clicks, WRAP_SAMPLES), true) == Outcome(Wrapped(), [])
    ensures Scan(Wrapped(), true).events == [PRESS]
    ensures Scan(Wrapped(), false).events == []
  {
  }

  lemma {:induction false} TraceAt(s: State, samples: seq<bool>, k: nat)
    requires k < |samples|
    ensures |Trace(s, samples)| == |samples|
    ensures Trace(s, samples)[k] == Scan(After(s, samples[..k]), samples[k]).events
  {
    hide Scan;
    var n := |samples| - 1;
    TraceLength(s, samples[..n]);
    if k >= n {
    } else {
      TraceAt(s, samples[..n], k);
      assert samples[..n][..k] == samples[..k];
    }
  }

  lemma {:induction false} TraceLength(s: State, samples: seq<bool>)
    ensures |Trace(s, samples)| == |samples|
  {
    if samples == [] {
    } else {
      TraceLength(s, samples[..|samples| - 1]);
    }
  }

  lemma PressPrefix(strokes: seq<Stroke>, k: nat)
    requires strokes != [] && k <= strokes[0].pressed
    ensures |Samples(strokes)| >= strokes[0].pressed + strokes[0].released
    ensures Samples(strokes)[..k] == Repeat(true, k)
    ensures k < strokes[0].pressed ==> Samples(strokes)[k]
    ensures k == strokes[0].pressed && strokes[0].released > 0 ==> !Samples(strokes)[k]
  {
  }

  lemma ReadingAt(clicks: nat, strokes: seq<Stroke>, k: nat)
    requires strokes != [] && k < strokes[0].pressed + strokes[0].released
    ensures k < |Reading(true, clicks, strokes)|
    ensures k < strokes[0].pressed ==> Reading(true, clicks, strokes)[k] == PressEvents(clicks, k)
    ensures k == strokes[0].pressed ==> Reading(true, clicks, strokes)[k] == [RELEASE]
  {
    hide PressEvents;
  }

  lemma AfterWrap(s: State, clicks: nat)
    requires AtRest(s, clicks)
    ensures After(s, Repeat(true, WRAP_SAMPLES + 1)) == Wrapped()
    ensures Trace(s, Repeat(true, WRAP_SAMPLES + 1)) == PressRun(clicks, WRAP_SAMPLES) + [[]]
  {
    hide Scan, Held, AtRest, Wrapped;
    PressTrace(s, clicks, WRAP_SAMPLES);
    RepeatSnoc(true, WRAP_SAMPLES + 1);
    WrapSteps(clicks);
  }

  /** A press that is not measurable is read wrongly: a second PRESS, or no RELEASE. */
  lemma UnmeasurableShows(s: State, clicks: nat, strokes: seq<Stroke>)
    requires AtRest(s, clicks) && Proper(strokes) && strokes != [] && !Measurable(strokes[0])
    ensures Trace(s, Samples(strokes)) != Reading(true, clicks, strokes)
  {
    var k := WRAP_SAMPLES + 1;
    hide Scan, Held, AtRest, Wrapped, Reading, Trace, After, Samples;
    PressPrefix(strokes, k);
    AfterWrap(s, clicks);
    WrapSteps(clicks);
    TraceAt(s, Samples(strokes), k);
    ReadingAt(clicks, strokes, k);
  }

  /** For any presses, the trace is the one they mean, with clicks counted in three bits, exactly if no press lasts
      until its time wraps. */
  lemma {:induction false} TraceIsReading(s: State, clicks: nat, strokes: seq<Stroke>)
    requires AtRest(s, clicks) && Proper(strokes)
    ensures Trace(s, Samples(strokes)) == Reading(true, clicks, strokes) <==> AllMeasurable(strokes)
    decreases |strokes|
  {
    if strokes == [] {
    } else if !Measurable(strokes[0]) {
      UnmeasurableShows(s, clicks, strokes);
    } else if strokes[0].pressed > WRAP_SAMPLES {
      LastSample(s, clicks, strokes);
    } else {
      MeasuredStroke(s, clicks, strokes);
    }
  }

  lemma LastSample(s: State, clicks: nat, strokes: seq<Stroke>)
    requires AtRest(s, clicks) && Proper(strokes) && strokes != [] && strokes[0].released == 0
    requires strokes[0].pressed == WRAP_SAMPLES + 1
    ensures Trace(s, Samples(strokes)) == Reading(true, clicks, strokes) && AllMeasurable(strokes)
  {
    hide Scan, Held, AtRest, Wrapped, Trace, After, PressEvents;
    assert strokes[1..] == [] && |strokes| == 1;
    AfterWrap(s, clicks);
    assert Samples(strokes) == Repeat(true, WRAP_SAMPLES + 1);
    LateEvents(clicks);
    assert PressRun(clicks, WRAP_SAMPLES + 1) == PressRun(clicks, WRAP_SAMPLES) + [PressEvents(clicks, WRAP_SAMPLES)];
  }

  lemma LateEvents(clicks: nat)
    ensures PressEvents(clicks, WRAP_SAMPLES) == []
  {
  }

  /** A press that ends in time, and the strokes after it. */
  lemma MeasuredStroke(s: State, clicks: nat, strokes: seq<Stroke>)
    requires AtRest(s, clicks) && Proper(strokes) && strokes != [] && strokes[0].pressed <= WRAP_SAMPLES
    ensures Trace(s, Samples(strokes)) == Reading(true, clicks, strokes) <==> AllMeasurable(strokes)
    decreases |strokes|, 0
  {
    var stroke := strokes[0];
    var p, r, now := stroke.pressed, stroke.released, Clicks(true, clicks, stroke);
    var rest := Samples(strokes[1..]);
    assert AllMeasurable(strokes) <==> AllMeasurable(strokes[1..]) by {
      assert forall i :: 0 < i < |strokes| ==> strokes[i] == strokes[1..][i - 1];
    }
    PressTrace(s, clicks, p);
    TraceAppend(s, Repeat(true, p), Repeat(false, r));
    TraceAppend(s, Repeat(true, p) + Repeat(false, r), rest);
    hide Scan, Held, PressEvents, GapEvents;
    if r > 0 {
      GapTrace(clicks, p, r);
      OpenAtRest(now, stroke);
      TraceIsReading(Open(now, r), Carried(now, stroke), strokes[1..]);
      assert Trace(s, Samples(strokes))
          == PressRun(clicks, p) + GapRun(now, r) + Trace(Open(now, r), rest);
      SamePrefix(PressRun(clicks, p) + GapRun(now, r), Trace(Open(now, r), rest),
                 Reading(true, Carried(now, stroke), strokes[1..]));
    } else {
      assert strokes[1..] == [] && Repeat(false, r) == [];
    }
  }

  lemma OpenAtRest(clicks: nat, stroke: Stroke)
    requires clicks < CLICKS_WRAP && stroke.released > 0
    ensures AtRest(Open(clicks, stroke.released), Carried(clicks, stroke))
  {
  }

  lemma SamePrefix<T>(x: seq<T>, y: seq<T>, z: seq<T>)
    ensures x + y == x + z <==> y == z
  {
    assert (x + y)[|x|..] == y && (x + z)[|x|..] == z;
  }

  lemma {:induction false} IdleTrace(r: nat)
    ensures After(INITIAL, Repeat(false, r)) == INITIAL
    ensures Trace(INITIAL, Repeat(false, r)) == seq(r, _ => [])
  {
    if r > 0 {
      RepeatSnoc(false, r);
      IdleTrace(r - 1);
    } else {
      assert Repeat(false, 0) == [];
    }
  }

  /** From the start: idle samples mean nothing, and presses mean their reading, exactly if no press lasts until its
      time wraps. */
  lemma ButtonReadsCorrectly(idle: nat, strokes: seq<Stroke>)
    requires Proper(strokes)
    ensures Trace(INITIAL, Repeat(false, idle) + Samples(strokes)) == seq(idle, _ => []) + Reading(true, 0, strokes)
            <==> AllMeasurable(strokes)
  {
    hide Scan, Reading, Samples;
    IdleTrace(idle);
    TraceAppend(INITIAL, Repeat(false, idle), Samples(strokes));
    TraceIsReading(INITIAL, 0, strokes);
    SamePrefix(seq(idle, _ => []), Trace(INITIAL, Samples(strokes)), Reading(true, 0, strokes));
  }

  /** One press and its release are read correctly exactly if the press lasts no more than 2^32 / 10 samples. */
  lemma HeldPressWraps(p: nat, r: nat)
    requires p > 0 && r > 0
    ensures Trace(INITIAL, Repeat(true, p) + Repeat(false, r)) == Reading(true, 0, [Stroke(p, r)]) <==>
            p <= WRAP_SAMPLES
  {
    hide Scan, Reading;
    assert Samples([Stroke(p, r)]) == Repeat(true, p) + Repeat(false, r) by {
      assert [Stroke(p, r)][1..] == [];
    }
    assert AllMeasurable([Stroke(p, r)]) <==> Measurable([Stroke(p, r)][0]);
    TraceIsReading(INITIAL, 0, [Stroke(p, r)]);
  }

  /** Whether the three-bit count tells the same as the true one wherever it is looked at. */
  predicate CountTells(clicks: nat, strokes: seq<Stroke>)
    decreases |strokes|
  {
    strokes == []
    || (var stroke := strokes[0];
        var now := Clicks(false, clicks, stroke);
        && (stroke.pressed >= LONG_SAMPLES ==> clicks < CLICKS_WRAP || clicks % CLICKS_WRAP != 1)
        && (stroke.released >= GESTURE_SAMPLES ==> now < CLICKS_WRAP || now % CLICKS_WRAP > 1)
        && CountTells(Carried(now, stroke), strokes[1..]))
  }

  /** The trace is the true reading exactly when no gesture is decided on a count of 8, 9, 16, 17, ... clicks - for a
      closing long press 9, 17, ... -, where three bits mislead. In particular it is for gestures of fewer than 8. */
  lemma {:induction false} ThreeBitsSuffice(clicks: nat, strokes: seq<Stroke>)
    requires Proper(strokes)
    ensures Reading(true, clicks % CLICKS_WRAP, strokes) == Reading(false, clicks, strokes) <==>
            CountTells(clicks, strokes)
    decreases |strokes|
  {
    if strokes == [] {
    } else {
      var stroke := strokes[0];
      var wrapped, now := Clicks(true, clicks % CLICKS_WRAP, stroke), Clicks(false, clicks, stroke);
      NextCount(clicks);
      assert wrapped == now % CLICKS_WRAP;
      ThreeBitsSuffice(Carried(now, stroke), strokes[1..]);
      StrokeSplits(clicks, strokes);
      StrokeTells(clicks, stroke);
    }
  }

  lemma NextCount(clicks: nat)
    ensures (clicks % CLICKS_WRAP + 1) % CLICKS_WRAP == (clicks + 1) % CLICKS_WRAP
  {
  }

  function StrokeEvents(wrap: bool, clicks: nat, stroke: Stroke): seq<seq<Event>> {
    PressRun(clicks, stroke.pressed) + GapRun(Clicks(wrap, clicks, stroke), stroke.released)
  }

  lemma StrokeSplits(clicks: nat, strokes: seq<Stroke>)
    requires strokes != []
    ensures
      var stroke := strokes[0];
      var w, t := Reading(true, clicks % CLICKS_WRAP, strokes), Reading(false, clicks, strokes);
      w == t <==>
        StrokeEvents(true, clicks % CLICKS_WRAP, stroke) == StrokeEvents(false, clicks, stroke)
        && Reading(true, Carried(Clicks(true, clicks % CLICKS_WRAP, stroke), stroke), strokes[1..])
           == Reading(false, Carried(Clicks(false, clicks, stroke), stroke), strokes[1..])
  {
    var stroke := strokes[0];
    var n := stroke.pressed + stroke.released;
    var w, t := Reading(true, clicks % CLICKS_WRAP, strokes), Reading(false, clicks, strokes);
    assert w[..n] == StrokeEvents(true, clicks % CLICKS_WRAP, stroke);
    assert t[..n] == StrokeEvents(false, clicks, stroke);
    assert w[n..] == Reading(true, Carried(Clicks(true, clicks % CLICKS_WRAP, stroke), stroke), strokes[1..]);
    assert t[n..] == Reading(false, Carried(Clicks(false, clicks, stroke), stroke), strokes[1..]);
    assert w == w[..n] + w[n..] && t == t[..n] + t[n..];
  }

  lemma StrokeTells(clicks: nat, stroke: Stroke)
    requires stroke.pressed > 0
    ensures
      StrokeEvents(true, clicks % CLICKS_WRAP, stroke) == StrokeEvents(false, clicks, stroke)
      <==>
      && (stroke.pressed >= LONG_SAMPLES ==> clicks < CLICKS_WRAP || clicks % CLICKS_WRAP != 1)
      && (stroke.released >= GESTURE_SAMPLES ==>
            var now := Clicks(false, clicks, stroke); now < CLICKS_WRAP || now % CLICKS_WRAP > 1)
  {
    var w, t := StrokeEvents(true, clicks % CLICKS_WRAP, stroke), StrokeEvents(false, clicks, stroke);
    var p := stroke.pressed;
    NextCount(clicks);
    if p >= LONG_SAMPLES { assert w[99] == PressEvents(clicks % CLICKS_WRAP, 99) && t[99] == PressEvents(clicks, 99); }
    if stroke.released >= GESTURE_SAMPLES {
      assert w[p + 25] == GapEvents(Clicks(true, clicks % CLICKS_WRAP, stroke), 25);
      assert t[p + 25] == GapEvents(Clicks(false, clicks, stroke), 25);
    }
  }

  ghost predicate ReportsNoClick(trace: seq<seq<Event>>) {
    forall k :: 0 <= k < |trace| ==> SHORT_PRESS !in trace[k] && DOUBLE_CLICK !in trace[k]
  }

  /** Eight quick clicks and a pause. */
  function EightClicks(): seq<Stroke> {
    seq(7, _ => Stroke(1, 1)) + [Stroke(1, GESTURE_SAMPLES)]
  }

  /** Of eight quick clicks the button reports none, although they are a double click by their true reading. */
  lemma EightClicksAreLost()
    ensures ReportsNoClick(Trace(INITIAL, Samples(EightClicks())))
    ensures !ReportsNoClick(Reading(false, 0, EightClicks())) && !CountTells(0, EightClicks())
  {
    hide Scan, Trace, Samples;
    var clicks := EightClicks();
    EightClicksCounted(clicks, 0);
    QuickClicks(clicks, 0, true);
    QuickClicks(clicks, 0, false);
    assert AllMeasurable(clicks) && Proper(clicks);
    TraceIsReading(INITIAL, 0, clicks);
  }

  /** Quick clicks report nothing until the pause after the eighth, and there it depends on the count. */
  lemma {:induction false} QuickClicks(strokes: seq<Stroke>, clicks: nat, wrap: bool)
    requires clicks + |strokes| == 8 && strokes != [] && strokes[|strokes| - 1] == Stroke(1, GESTURE_SAMPLES)
    requires forall i :: 0 <= i < |strokes| - 1 ==> strokes[i] == Stroke(1, 1)
    ensures ReportsNoClick(Reading(wrap, clicks, strokes)) <==> wrap
    decreases |strokes|
  {
    hide ReportsNoClick, PressRun, GapRun;
    var now := Clicks(wrap, clicks, strokes[0]);
    var rest := Reading(wrap, Carried(now, strokes[0]), strokes[1..]);
    PressNoClick(clicks);
    GapClick(now, strokes[0].released);
    NoClickSplits(PressRun(clicks, 1), GapRun(now, strokes[0].released));
    NoClickSplits(PressRun(clicks, 1) + GapRun(now, strokes[0].released), rest);
    if |strokes| == 1 {
      NoEvents(rest);
    } else {
      QuickClicks(strokes[1..], clicks + 1, wrap);
    }
  }

  lemma PressNoClick(clicks: nat)
    ensures ReportsNoClick(PressRun(clicks, 1))
  {
  }

  lemma NoEvents(trace: seq<seq<Event>>)
    requires trace == []
    ensures ReportsNoClick(trace)
  {
  }

  lemma GapClick(clicks: nat, r: nat)
    requires r <= GESTURE_SAMPLES
    ensures ReportsNoClick(GapRun(clicks, r)) <==> r < GESTURE_SAMPLES || clicks == 0
  {
    if r == GESTURE_SAMPLES { assert GapRun(clicks, r)[r - 1] == GapEvents(clicks, r - 1); }
  }

  lemma NoClickSplits(x: seq<seq<Event>>, y: seq<seq<Event>>)
    ensures ReportsNoClick(x + y) <==> ReportsNoClick(x) && ReportsNoClick(y)
  {
    if ReportsNoClick(x + y) {
      assert forall k :: 0 <= k < |x| ==> (x + y)[k] == x[k];
      assert forall k :: 0 <= k < |y| ==> (x + y)[|x| + k] == y[k];
    }
  }

  lemma {:induction false} EightClicksCounted(strokes: seq<Stroke>, clicks: nat)
    requires clicks + |strokes| == 8 && strokes != [] && strokes[|strokes| - 1] == Stroke(1, GESTURE_SAMPLES)
    requires forall i :: 0 <= i < |strokes| - 1 ==> strokes[i] == Stroke(1, 1)
    ensures !CountTells(clicks, strokes)
    decreases |strokes|
  {
    if |strokes| <= 1 {
    } else {
      EightClicksCounted(strokes[1..], clicks + 1);
    }
  }

  /** Every sequence of samples is some idle time and some strokes. */
  lemma {:induction false} EverySequenceIsStrokes(samples: seq<bool>) returns (idle: nat, strokes: seq<Stroke>)
    ensures samples == Repeat(false, idle) + Samples(strokes)
    ensures forall i :: 0 <= i < |strokes| ==> 0 < strokes[i].pressed <= |samples|
    ensures forall i :: 0 <= i < |strokes| - 1 ==> strokes[i].released > 0
  {
    hide Repeat, Samples;
    idle, strokes := 0, [];
    if samples == [] {
      Nothing();
    } else {
      idle, strokes := EverySequenceIsStrokes(samples[1..]);
      assert samples == [samples[0]] + samples[1..];
      if !samples[0] {
        Before(false, idle, Samples(strokes));
        idle := idle + 1;
      } else if idle > 0 || strokes == [] {
        NewPress(idle, strokes);
        strokes := [Stroke(1, idle)] + strokes;
        idle := 0;
      } else {
        LongerPress(strokes);
        strokes := [Stroke(strokes[0].pressed + 1, strokes[0].released)] + strokes[1..];
      }
    }
  }

  lemma Nothing()
    ensures Repeat(false, 0) + Samples([]) == []
  {
  }

  lemma Before(pressed: bool, n: nat, rest: seq<bool>)
    ensures [pressed] + (Repeat(pressed, n) + rest) == Repeat(pressed, n + 1) + rest
  {
  }

  lemma NewPress(idle: nat, strokes: seq<Stroke>)
    ensures [true] + (Repeat(false, idle) + Samples(strokes)) == Repeat(false, 0) + Samples([Stroke(1, idle)] + strokes)
  {
    assert ([Stroke(1, idle)] + strokes)[1..] == strokes;
    assert Repeat(true, 1) == [true];
  }

  lemma LongerPress(strokes: seq<Stroke>)
    requires strokes != []
    ensures
      var longer := [Stroke(strokes[0].pressed + 1, strokes[0].released)] + strokes[1..];
      [true] + (Repeat(false, 0) + Samples(strokes)) == Repeat(false, 0) + Samples(longer)
  {
    var longer := [Stroke(strokes[0].pressed + 1, strokes[0].released)] + strokes[1..];
    assert longer[1..] == strokes[1..];
    var rest := Repeat(false, strokes[0].released) + Samples(strokes[1..]);
    assert Samples(strokes) == Repeat(true, strokes[0].pressed) + rest;
    assert Samples(longer) == Repeat(true, strokes[0].pressed + 1) + rest;
    Before(true, strokes[0].pressed, rest);
  }
}
