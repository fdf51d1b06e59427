/** The replay of recorded process data: cursors over a fault-free run and a faulty one. */
module TepReplay {
  import opened Wrappers
  import opened Numbers
  import Scoring

  /** One recorded sample; None when its number cannot be read, 0 when the column is absent. */
  datatype Row = Row(sample: Option<int>, flow: real)

  datatype Mode = Normal | Fault

  datatype Cursor = Cursor(mode: Mode, freeIdx: nat, faultIdx: nat)

  datatype Source = FreeRun | FaultRun

  /** Which recorded row a tick emits. */
  datatype Emission = Emission(source: Source, index: nat)

  const FAULT_ONSET_SAMPLE := 161
  const FAULT_LEAD_IN := 20

  // ---------------------------------------------------------------- where the fault window starts

  predicate NearOnset(row: Row) {
    row.sample.Some? && row.sample.value >= FAULT_ONSET_SAMPLE - FAULT_LEAD_IN
  }

  /** The same fraction of the run as the lead-in has of 960 samples. */
  function FallbackIndex(count: nat): nat {
    Min((FAULT_ONSET_SAMPLE - FAULT_LEAD_IN) * count / 960, Max(count - 1, 0))
  }

  function StartFrom(rows: seq<Row>, i: nat): nat
    requires i <= |rows|
    decreases |rows| - i
  {
    if i == |rows| then FallbackIndex(|rows|)
    else if NearOnset(rows[i]) then i
    else StartFrom(rows, i + 1)
  }

  function FaultStart(rows: seq<Row>): nat { StartFrom(rows, 0) }

  /** The first row near the onset, when there is one; in any case a row, when there is one. */
  lemma {:induction false} StartIsFirst(rows: seq<Row>, i: nat)
    requires i <= |rows| && forall j :: 0 <= j < i ==> !NearOnset(rows[j])
    ensures rows != [] ==> StartFrom(rows, i) < |rows|
    ensures (exists k :: 0 <= k < |rows| && NearOnset(rows[k])) ==> FirstNear(rows, StartFrom(rows, i))
    ensures (forall k :: 0 <= k < |rows| ==> rows[k].sample == None || rows[k].sample.value < 141) ==>
      StartFrom(rows, i) == Min(141 * |rows| / 960, Max(|rows| - 1, 0))
    decreases |rows| - i
  {
    if i < |rows| && !NearOnset(rows[i]) { StartIsFirst(rows, i + 1); }
  }

  /** The first row that is at most 20 samples before sample 161. */
  ghost predicate FirstNear(rows: seq<Row>, n: nat) {
    && n < |rows| && rows[n].sample.Some? && rows[n].sample.value >= 141
    && forall j :: 0 <= j < n ==> rows[j].sample == None || rows[j].sample.value < 141
  }

  // ---------------------------------------------------------------- samples per tick

  /** Rounding to the nearest integer, halves to the even one. */
  function Round(x: real): int {
    var low := x.Floor;
    var rest := x - low as real;
    if rest < 0.5 || (rest == 0.5 && low % 2 == 0) then low else low + 1
  }

  function Skip(fraction: real): (skip: real)
    ensures 0.0 <= skip <= 0.95
  {
    if fraction < 0.0 then 0.0 else if fraction > 0.95 then 0.95 else fraction
  }

  function FaultStep(fraction: real): (step: nat)
    ensures step >= 1
  {
    Max(1, Round(1.0 / (1.0 - Skip(fraction))))
  }

  lemma Reciprocal(left: real)
    requires 0.05 <= left <= 1.0
    ensures 1.0 <= 1.0 / left <= 20.0
  {
    assert 1.0 / left * left == 1.0;
  }

  lemma RoundNear(x: real)
    ensures -0.5 <= Round(x) as real - x <= 0.5
  {
  }

  lemma RoundTies(x: real)
    requires x - x.Floor as real == 0.5
    ensures Round(x) % 2 == 0
  {
  }

  /** Of a fraction between 0 and 19 twentieths that is skipped, the step is the reciprocal of the rest to the
      nearest integer, of two equally near the even one, and so between 1 and 20; outside it is that of the nearer
      limit. */
  lemma StepRange(fraction: real)
    ensures 1 <= FaultStep(fraction) <= 20
    ensures 0.0 <= fraction <= 0.95 ==>
      var exact := 1.0 / (1.0 - fraction);
      && -0.5 <= FaultStep(fraction) as real - exact <= 0.5
      && (exact - exact.Floor as real == 0.5 ==> FaultStep(fraction) % 2 == 0)
    ensures fraction <= 0.0 ==> FaultStep(fraction) == 1
    ensures fraction >= 0.95 ==> FaultStep(fraction) == 20
  {
    var kept := 1.0 - Skip(fraction);
    var exact := 1.0 / kept;
    Reciprocal(kept);
    RoundNear(exact);
    if exact - exact.Floor as real == 0.5 { RoundTies(exact); }
    if fraction >= 0.95 { assert kept == 0.05 && exact == 20.0; }
    if fraction <= 0.0 { assert kept == 1.0 && exact == 1.0; }
  }

  // ---------------------------------------------------------------- one tick

  predicate IsOnsetTransient(row: Row) {
    row.sample.Some? && FAULT_ONSET_SAMPLE <= row.sample.value <= FAULT_ONSET_SAMPLE + 1
  }

  function Selected(rows: seq<Row>, i: nat): (j: nat)
    requires i < |rows|
    ensures i <= j < |rows|
    ensures IsOnsetTransient(rows[j]) ==> j == |rows| - 1
    ensures forall k :: i <= k < j ==> IsOnsetTransient(rows[k])
    decreases |rows| - i
  {
    if IsOnsetTransient(rows[i]) && i < |rows| - 1 then Selected(rows, i + 1) else i
  }

  datatype Control = Trigger | Reset(freeIdx: nat) | Tick(stride: nat)

  /** The recorded data and the setting that one engine runs with. */
  datatype Recording = Recording(freeRows: seq<Row>, faultRows: seq<Row>, skipFraction: real) {
    predicate Playable() { freeRows != [] && faultRows != [] }

    function FirstCursor(): Cursor { Cursor(Normal, 0, 0) }

    /** A reset picks a random row; a normal tick moves on by one or two. */
    predicate Allowed(c: Control) {
      match c
      case Trigger => true
      case Reset(i) => i < Max(|freeRows|, 1)
      case Tick(stride) => stride == 1 || stride == 2
    }

    predicate InRange(c: Cursor) {
      c.freeIdx < Max(|freeRows|, 1) && c.faultIdx < Max(|faultRows|, 1)
    }

    /** What a tick emits; None where Python raises an IndexError, for want of rows. */
    function Emits(c: Cursor): Option<Emission>
      requires InRange(c)
    {
      match c.mode
      case Normal => if freeRows == [] then None else Some(Emission(FreeRun, c.freeIdx))
      case Fault => if faultRows == [] then None else Some(Emission(FaultRun, Selected(faultRows, c.faultIdx)))
    }

    function After(c: Cursor, e: Control): (after: Cursor)
      requires InRange(c) && Allowed(e)
      ensures InRange(after)
    {
      match e
      case Trigger =>
        StartIsFirst(faultRows, 0);
        c.(mode := Fault, faultIdx := FaultStart(faultRows))
      case Reset(i) => c.(mode := Normal, freeIdx := i)
      case Tick(stride) =>
        if Emits(c) == None then c
        else if c.mode == Normal then c.(freeIdx := (c.freeIdx + stride) % |freeRows|)
        else c.(faultIdx := Min(Selected(faultRows, c.faultIdx) + FaultStep(skipFraction), |faultRows| - 1))
    }
  }

  // ---------------------------------------------------------------- runs

  ghost predicate AllAllowed(r: Recording, events: seq<Control>) {
    forall e :: e in events ==> r.Allowed(e)
  }

  ghost function Run(r: Recording, start: Cursor, events: seq<Control>): (c: Cursor)
    requires r.InRange(start) && AllAllowed(r, events)
    ensures r.InRange(c)
  {
    if events == [] then start
    else
      assert events == events[..|events| - 1] + [events[|events| - 1]];
      r.After(Run(r, start, events[..|events| - 1]), events[|events| - 1])
  }

  /** The ticks of the run that find the engine in fault mode. */
  ghost function FaultTicks(r: Recording, start: Cursor, events: seq<Control>): nat
    requires r.InRange(start) && AllAllowed(r, events)
  {
    if events == [] then 0
    else
      assert events == events[..|events| - 1] + [events[|events| - 1]];
      var before := FaultTicks(r, start, events[..|events| - 1]);
      if events[|events| - 1].Tick? && Run(r, start, events[..|events| - 1]).mode == Fault then before + 1 else before
  }

  ghost predicate NoTrigger(events: seq<Control>) { forall e :: e in events ==> !e.Trigger? }

  function Last(r: Recording): nat { Max(|r.faultRows| - 1, 0) }

  lemma EventMoves(r: Recording, c: Cursor, e: Control)
    requires r.InRange(c) && r.Allowed(e) && !e.Trigger?
    ensures r.After(c, e).faultIdx >= c.faultIdx
    ensures e.Tick? && c.mode == Fault ==> r.After(c, e).faultIdx >= Min(c.faultIdx + FaultStep(r.skipFraction), Last(r))
  {
  }

  predicate IsTransient(row: Row) { row.sample == Some(161) || row.sample == Some(162) }

  /** A tick in normal mode emits the row under the fault-free cursor and moves that one on by the stride, around
      the end. */
  lemma NormalTickMoves(r: Recording, c: Cursor, stride: nat)
    requires r.InRange(c) && r.Allowed(Tick(stride)) && r.freeRows != [] && c.mode == Normal
    ensures r.Emits(c) == Some(Emission(FreeRun, c.freeIdx))
    ensures
      var after := r.After(c, Tick(stride));
      && after.mode == Normal && after.faultIdx == c.faultIdx
      && (c.freeIdx + stride < |r.freeRows| ==> after.freeIdx == c.freeIdx + stride)
      && (c.freeIdx + stride >= |r.freeRows| ==> after.freeIdx == (c.freeIdx + stride) % |r.freeRows|)
  {
  }

  /** A tick in fault mode emits the first row from the fault cursor on that is no transient, or the last row, and
      moves that cursor on from there by the step, up to the last row. */
  lemma FaultTickMoves(r: Recording, c: Cursor, stride: nat) returns (i: nat)
    requires r.InRange(c) && r.Allowed(Tick(stride)) && r.faultRows != [] && c.mode == Fault
    ensures r.Emits(c) == Some(Emission(FaultRun, i)) && c.faultIdx <= i < |r.faultRows|
    ensures forall k :: c.faultIdx <= k < i ==> IsTransient(r.faultRows[k])
    ensures i == |r.faultRows| - 1 || !IsTransient(r.faultRows[i])
    ensures r.After(c, Tick(stride)) == Cursor(Fault, c.freeIdx, Min(i + FaultStep(r.skipFraction), |r.faultRows| - 1))
  {
    i := Selected(r.faultRows, c.faultIdx);
  }

  /** A trigger moves to the start of the fault window, a reset to the given fault-free row; neither moves the other
      cursor. */
  lemma ControlMoves(r: Recording, c: Cursor, i: nat)
    requires r.InRange(c)
    ensures r.After(c, Trigger) == Cursor(Fault, c.freeIdx, StartFrom(r.faultRows, 0))
    ensures r.Allowed(Reset(i)) ==> r.After(c, Reset(i)) == Cursor(Normal, i, c.faultIdx)
  {
  }

  lemma OneMore(base: nat, ticks: nat, step: nat, idx: nat, after: nat, last: nat)
    requires idx >= Min(base + ticks * step, last) && after >= Min(idx + step, last)
    ensures after >= Min(base + (ticks + 1) * step, last)
  {
    assert (ticks + 1) * step == ticks * step + step;
  }

  ghost predicate Advanced(r: Recording, start: Cursor, c: Cursor, ticks: nat) {
    && start.faultIdx <= c.faultIdx
    && c.faultIdx >= Min(start.faultIdx + ticks * FaultStep(r.skipFraction), Last(r))
  }

  lemma EventAdvances(r: Recording, start: Cursor, c: Cursor, ticks: nat, e: Control)
    requires r.InRange(c) && r.Allowed(e) && !e.Trigger? && Advanced(r, start, c, ticks)
    ensures Advanced(r, start, r.After(c, e), if e.Tick? && c.mode == Fault then ticks + 1 else ticks)
  {
    EventMoves(r, c, e);
    if e.Tick? && c.mode == Fault {
      OneMore(start.faultIdx, ticks, FaultStep(r.skipFraction), c.faultIdx, r.After(c, e).faultIdx, Last(r));
    }
  }

  lemma OneEventMore(r: Recording, start: Cursor, front: seq<Control>, e: Control)
    requires r.InRange(start) && AllAllowed(r, front + [e])
    ensures AllAllowed(r, front) && r.Allowed(e)
    ensures Run(r, start, front + [e]) == r.After(Run(r, start, front), e)
    ensures
      var ticks := FaultTicks(r, start, front);
      FaultTicks(r, start, front + [e]) == if e.Tick? && Run(r, start, front).mode == Fault then ticks + 1 else ticks
  {
    assert (front + [e])[..|front|] == front;
    assert forall x :: x in front ==> x in front + [e];
    assert e in front + [e];
  }

  /** The run and its fault ticks as numbers, so that no step of the proof has to unfold them. */
  lemma {:induction false} Advances(r: Recording, start: Cursor, events: seq<Control>) returns (c: Cursor, ticks: nat)
    requires r.InRange(start) && AllAllowed(r, events) && NoTrigger(events)
    ensures c == Run(r, start, events) && ticks == FaultTicks(r, start, events) && Advanced(r, start, c, ticks)
  {
    c, ticks := start, 0;
    if events != [] {
      var front, last := events[..|events| - 1], events[|events| - 1];
      assert events == front + [last];
      c, ticks := Advances(r, start, front);
      OneEventMore(r, start, front, last);
      EventAdvances(r, start, c, ticks, last);
      ticks := if last.Tick? && c.mode == Fault then ticks + 1 else ticks;
      c := r.After(c, last);
    }
  }

  /** Between triggers the fault cursor never goes back, and every tick in fault mode moves it on by at least
      the step, as far as the last row. */
  lemma FaultCursorAdvances(r: Recording, start: Cursor, events: seq<Control>)
    requires r.InRange(start) && AllAllowed(r, events) && NoTrigger(events)
    ensures Advanced(r, start, Run(r, start, events), FaultTicks(r, start, events))
  {
    var c, ticks := Advances(r, start, events);
  }

  /** After a trigger the cursor is on the last row, for good, once the ticks in fault mode times the step
      cover the rest of the run. */
  lemma FaultCursorSettles(r: Recording, before: Cursor, events: seq<Control>)
    requires r.InRange(before) && AllAllowed(r, events) && NoTrigger(events) && r.faultRows != []
    requires r.After(before, Trigger).faultIdx
      + FaultTicks(r, r.After(before, Trigger), events) * FaultStep(r.skipFraction) >= |r.faultRows| - 1
    ensures Run(r, r.After(before, Trigger), events).faultIdx == |r.faultRows| - 1
  {
    FaultCursorAdvances(r, r.After(before, Trigger), events);
  }

  /** No tick of any run emits the controller transient at the onset, unless the recording ends with it. */
  lemma TransientOnlyLast(r: Recording, events: seq<Control>)
    requires AllAllowed(r, events)
    ensures
      match r.Emits(Run(r, r.FirstCursor(), events))
      case Some(Emission(FaultRun, i)) =>
        i < |r.faultRows| && (IsTransient(r.faultRows[i]) ==> i == |r.faultRows| - 1)
      case Some(Emission(FreeRun, i)) => i < |r.freeRows|
      case None => !r.Playable()
  {
  }

  // ---------------------------------------------------------------- the emitted flow value

  function Deviation(raw: real): real { (raw - 41.12) / 0.539 }

  /** The source mean goes to the centre of the band, one source deviation to a tenth of its width. */
  function Unclamped(low: real, high: real, z: real): real {
    (low + high) / 2.0 + z * (high - low) * 0.10
  }

  function Clamp(low: real, high: real, value: real): real {
    var inner := (high - low) * 0.3;
    MaxReal(low - inner, MinReal(high + inner * 1.5, value))
  }

  function FlowValue(low: real, high: real, raw: real): real {
    Clamp(low, high, Unclamped(low, high, Deviation(raw)))
  }

  lemma Product(z: real, bound: real, width: real)
    requires width > 0.0
    ensures z * width > bound * width <==> z > bound
  {
    if z > bound { var p := Scoring.Product(z - bound, width); }
    if z <= bound { Scoring.Scale(z, bound, width); }
  }

  lemma Negated(z: real, width: real, spread: real, opposite: real)
    requires spread == z * width && opposite == -z
    ensures opposite * width == -spread
  {
  }

  lemma Above(z: real, width: real, spread: real)
    requires width > 0.0 && spread == z * width
    ensures spread > 5.5 * width <==> z > 5.5
  {
    Product(z, 5.5, width);
  }

  /** The value in terms of its spread around the centre. */
  lemma Spread(low: real, high: real, z: real) returns (spread: real)
    requires low < high
    ensures Unclamped(low, high, z) == (low + high) / 2.0 + 0.1 * spread
    ensures spread > 5.5 * (high - low) <==> z > 5.5
    ensures -spread > 5.5 * (high - low) <==> -z > 5.5
  {
    spread := z * (high - low);
    Above(z, high - low, spread);
    Negated(z, high - low, spread, -z);
    Above(-z, high - low, -spread);
  }

  /** How far the unclamped value leaves the band, in units of the band. */
  lemma Overshoots(low: real, high: real, z: real)
    requires low < high
    ensures Unclamped(low, high, z) - high > 0.05 * (high - low) <==> z > 5.5
    ensures low - Unclamped(low, high, z) > 0.05 * (high - low) <==> z < -5.5
  {
    var value := Unclamped(low, high, z);
    var spread := Spread(low, high, z);
    OutOfBand(low, high, spread, value);
  }

  lemma OutOfBand(low: real, high: real, spread: real, value: real)
    requires low < high && value == (low + high) / 2.0 + 0.1 * spread
    ensures value - high > 0.05 * (high - low) <==> spread > 5.5 * (high - low)
    ensures low - value > 0.05 * (high - low) <==> -spread > 5.5 * (high - low)
  {
  }

  lemma MarginAbove(value: real, t: Scoring.Thresholds, fraction: real)
    requires t.normalMin < t.normalMax && fraction >= 0.0
    ensures
      var limit := fraction * (t.normalMax - t.normalMin);
      var outside := value - t.normalMax > limit || t.normalMin - value > limit;
      Scoring.Exceeds(Scoring.StaticMargin(value, t), fraction) <==> outside
  {
    var width := t.normalMax - t.normalMin;
    if value < t.normalMin { Ratio(t.normalMin - value, fraction, width); }
    if value > t.normalMax { Ratio(value - t.normalMax, fraction, width); }
    assert fraction * width >= 0.0 by { Scoring.Scale(0.0, width, fraction); }
  }

  lemma Ratio(overshoot: real, fraction: real, width: real)
    requires width > 0.0
    ensures overshoot / width > fraction <==> overshoot > fraction * width
  {
    Product(overshoot / width, fraction, width);
    assert overshoot / width * width == overshoot;
  }

  /** Clamping to the physical limits neither hides nor makes an excursion. */
  lemma ClampKeeps(low: real, high: real, value: real)
    requires low < high
    ensures Clamp(low, high, value) - high > 0.05 * (high - low) <==> value - high > 0.05 * (high - low)
    ensures low - Clamp(low, high, value) > 0.05 * (high - low) <==> low - value > 0.05 * (high - low)
  {
  }

  /** The value is the centre of the band plus a tenth of its width for each source deviation, kept between three
      tenths of the width below the band and nine twentieths above it. */
  lemma FlowIs(low: real, high: real, raw: real)
    requires low < high
    ensures
      var width, value := high - low, FlowValue(low, high, raw);
      var exact := (low + high) / 2.0 + width / 10.0 * ((raw - 41.12) / 0.539);
      && low - 0.3 * width <= value <= high + 0.45 * width
      && (low - 0.3 * width <= exact <= high + 0.45 * width ==> value == exact)
      && (exact < low - 0.3 * width ==> value == low - 0.3 * width)
      && (exact > high + 0.45 * width ==> value == high + 0.45 * width)
  {
    FlowExact(low, high, Deviation(raw));
  }

  lemma FlowExact(low: real, high: real, z: real)
    ensures Unclamped(low, high, z) == (low + high) / 2.0 + (high - low) / 10.0 * z
  {
    var width := high - low;
    assert z * width * 0.10 == width / 10.0 * z;
  }

  /** With the shipped tolerance of 5% of the band, a flow reading is statically anomalous exactly when its
      source value lies more than 5.5 deviations from the fault-free mean. */
  lemma FlowAnomalousIff(t: Scoring.Thresholds, raw: real)
    requires t.normalMin < t.normalMax
    ensures
      var value := FlowValue(t.normalMin, t.normalMax, raw);
      Scoring.Exceeds(Scoring.StaticMargin(value, t), 0.05) <==> raw > 41.12 + 5.5 * 0.539 || raw < 41.12 - 5.5 * 0.539
  {
    var z := Deviation(raw);
    Overshoots(t.normalMin, t.normalMax, z);
    ClampKeeps(t.normalMin, t.normalMax, Unclamped(t.normalMin, t.normalMax, z));
    MarginAbove(FlowValue(t.normalMin, t.normalMax, raw), t, 0.05);
  }

  // ---------------------------------------------------------------- the engine

  class TepReplayEngine {
    const recording: Recording
    var mode: Mode
    var freeIdx: nat
    var faultIdx: nat

    function At(): Cursor
      reads this
    {
      Cursor(mode, freeIdx, faultIdx)
    }

    ghost predicate Valid()
      reads this
    {
      recording.InRange(At())
    }

    constructor (recording: Recording)
      ensures Valid() && this.recording == recording && At() == recording.FirstCursor()
    {
      this.recording := recording;
      mode, freeIdx, faultIdx := Normal, 0, 0;
    }

    method FaultStartIndex() returns (index: nat)
      ensures index == FaultStart(recording.faultRows)
    {
      for i := 0 to |recording.faultRows|
        invariant FaultStart(recording.faultRows) == StartFrom(recording.faultRows, i)
      {
        var row := recording.faultRows[i];
        if row.sample == None { continue; }
        if row.sample.value >= FAULT_ONSET_SAMPLE - FAULT_LEAD_IN { return i; }
      }
      index := FallbackIndex(|recording.faultRows|);
    }

    method TriggerFault()
      requires Valid()
      modifies this
      ensures Valid() && At() == recording.After(old(At()), Trigger)
    {
      StartIsFirst(recording.faultRows, 0);
      mode := Fault;
      faultIdx := FaultStartIndex();
    }

    method ResetReplay(random: nat)
      requires Valid() && recording.Allowed(Reset(random))
      modifies this
      ensures Valid() && At() == recording.After(old(At()), Reset(random))
    {
      mode := Normal;
      freeIdx := random;
    }

    /** Leaves the cursor on the selected row. */
    method SelectFaultRow() returns (index: nat)
      requires Valid() && recording.faultRows != []
      modifies this`faultIdx
      ensures index == faultIdx == Selected(recording.faultRows, old(faultIdx))
    {
      while IsOnsetTransient(recording.faultRows[faultIdx]) && faultIdx < |recording.faultRows| - 1
        invariant faultIdx < |recording.faultRows|
        invariant Selected(recording.faultRows, faultIdx) == Selected(recording.faultRows, old(faultIdx))
        decreases |recording.faultRows| - faultIdx
      {
        faultIdx := Min(faultIdx + 1, |recording.faultRows| - 1);
      }
      index := faultIdx;
    }

    method Advance(stride: nat) returns (emitted: Option<Emission>)
      requires Valid() && recording.Allowed(Tick(stride))
      modifies this
      ensures Valid() && At() == recording.After(old(At()), Tick(stride))
      ensures emitted == recording.Emits(old(At()))
    {
      if mode == Normal {
        if recording.freeRows == [] { return None; }
        emitted := Some(Emission(FreeRun, freeIdx));
        freeIdx := (freeIdx + stride) % |recording.freeRows|;
      } else {
        if recording.faultRows == [] { return None; }
        var index := SelectFaultRow();
        emitted := Some(Emission(FaultRun, index));
        faultIdx := Min(faultIdx + FaultStep(recording.skipFraction), |recording.faultRows| - 1);
      }
    }
  }
}
