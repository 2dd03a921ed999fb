/** The OPL management processor: periodic surveillance of a person with a detected oral
    potentially-malignant lesion, with biopsies at a per-entity interval and probabilistic
    detection of progression to cancer.

    The processor's construction-time samples form a `Policy`; the uniform draws and the
    biopsy-interval draw of one call form a `Draws`. The cancer-flags collaborator is a
    function on the entity's `treatment` attributes. */
module OPLManage {
  import opened Entities

  /** Follow-up longer than this many days discharges the entity to regular screening. */
  const DischargeDays := 1825

  const AppointmentName := "OPL surveillance appointment"
  const BiopsyName := "Biopsy"
  const FollowupDetection := "Cancer first detected at OPL followup"
  const BiopsyDetection := "Cancer first detected at regular biopsy"

  /** Appointment interval (days), test sensitivity and test specificity of one processor
      instance. */
  datatype Policy = Policy(appInt: int, sensitivity: real, specificity: real)

  /** Conversion of a sampled float to an integer: truncation toward zero. */
  function Truncate(x: real): int {
    if x >= 0.0 then x.Floor else -((-x).Floor)
  }

  /** Builds the policy from the three construction-time samples; the interval sample is
      truncated toward zero. */
  function MakePolicy(appIntSample: real, sensitivity: real, specificity: real): (p: Policy)
    ensures p.sensitivity == sensitivity && p.specificity == specificity
    ensures 0.0 <= appIntSample ==> 0.0 <= p.appInt as real <= appIntSample < p.appInt as real + 1.0
    ensures appIntSample < 0.0 ==> p.appInt as real - 1.0 < appIntSample <= p.appInt as real <= 0.0
  {
    Policy(Truncate(appIntSample), sensitivity, specificity)
  }

  /** The random inputs of one call: the false-positive and false-negative uniform draws
      and the uniform integer biopsy interval. */
  datatype Draws = Draws(falsePos: real, falseNeg: real, screenInt: int)

  predicate ValidDraws(d: Draws) {
    && 0.0 <= d.falsePos < 1.0
    && 0.0 <= d.falseNeg < 1.0
    && 1 <= d.screenInt <= 10
  }

  /** The next surveillance appointment has not been reached yet. */
  predicate Guarded(e: Entity) {
    e.clock.timeSysp > e.clock.allTime
  }

  /** Appointments since the last biopsy, as the call finds the lazily created counter. */
  function CountAtEntry(e: Entity): int {
    e.opl.countBiopsyInt.GetOr(0)
  }

  /** The biopsy interval the call uses: the entity's own, or the fresh draw when the
      attribute is absent or 0. */
  function IntervalAtEntry(d: Draws, e: Entity): int {
    if e.opl.screenInt.GetOr(0) == 0 then d.screenInt else e.opl.screenInt.value
  }

  /** Counter values the processor can meet: a non-negative count and an interval that is
      either unset (0) or a value the interval draw can produce. */
  predicate CountersOk(e: Entity) {
    && (e.opl.countBiopsyInt.Some? ==> e.opl.countBiopsyInt.value >= 0)
    && (e.opl.screenInt.Some? ==> 0 <= e.opl.screenInt.value <= 10)
  }

  /** Both counters exist, the interval is in [1, 10] and the count does not exceed it. */
  predicate CountersSet(e: Entity) {
    && e.opl.countBiopsyInt.Some?
    && e.opl.screenInt.Some?
    && 1 <= e.opl.screenInt.value <= 10
    && 0 <= e.opl.countBiopsyInt.value <= e.opl.screenInt.value
  }

  /** The call runs with follow-up already past the discharge threshold. */
  predicate Discharges(e: Entity) {
    !Guarded(e) && e.opl.timeFU.Some? && e.opl.timeFU.value > DischargeDays
  }

  /** The biopsy interval has been reached and the entity has cancer. */
  predicate DetectsAtBiopsy(d: Draws, e: Entity) {
    !Guarded(e) && CountAtEntry(e) >= IntervalAtEntry(d, e) && e.flags.hasCancer == 1
  }

  /** Before the interval, the visual screen of a person with cancer is a true positive. */
  predicate DetectsAtFollowup(p: Policy, d: Draws, e: Entity) {
    && !Guarded(e)
    && CountAtEntry(e) < IntervalAtEntry(d, e)
    && e.flags.hasCancer != 0
    && d.falseNeg <= p.sensitivity
  }

  predicate DetectsCancer(p: Policy, d: Draws, e: Entity) {
    DetectsAtBiopsy(d, e) || DetectsAtFollowup(p, d, e)
  }

  /** Before the interval, the visual screen of a person without cancer is a false positive. */
  predicate FalsePositive(p: Policy, d: Draws, e: Entity) {
    && !Guarded(e)
    && CountAtEntry(e) < IntervalAtEntry(d, e)
    && e.flags.hasCancer == 0
    && d.falsePos > p.specificity
  }

  /** The call logs a biopsy: scheduled, after a false positive, or after a true positive. */
  predicate BiopsyDone(p: Policy, d: Draws, e: Entity) {
    && !Guarded(e)
    && (CountAtEntry(e) >= IntervalAtEntry(d, e) || FalsePositive(p, d, e) || DetectsAtFollowup(p, d, e))
  }

  /** The counter a non-guarded call leaves: one more appointment below the interval,
      0 after any biopsy except the one that follows a true-positive screen. */
  function NextCount(p: Policy, d: Draws, e: Entity): int {
    if CountAtEntry(e) < IntervalAtEntry(d, e) && !FalsePositive(p, d, e) then CountAtEntry(e) + 1 else 0
  }

  /** The detection outcome, relative to the entity `e` the call started from. */
  predicate Detected(e: Entity, r: Entity, cancerFlags: Treatment -> Treatment) {
    && r.state == S3_0
    && r.currentState == CancerLabel
    && r.flags.cancerDetected == 1
    && r.flags.cancerScreenDetected == 1
    && r.flags.timeCancerDetected == Some(e.clock.allTime)
    && r.clock.timeSysp == e.clock.timeSysp
    && r.treatment == cancerFlags(e.treatment)
  }

  /** Follow-up clock: created at 0, then advanced by the appointment interval until it
      passes the discharge threshold, which sends the entity back to regular screening. */
  function FollowUpClock(appInt: int, e: Entity): Entity {
    match e.opl.timeFU
    case None => e.(opl := e.opl.(timeFU := Some(0)))
    case Some(t) =>
      if t > DischargeDays then
        e.(opl := e.opl.(status := Some(9)), state := S1_0, currentState := ScreeningLabel)
      else
        e.(opl := e.opl.(timeFU := Some(t + appInt)))
  }

  /** Lazy creation of the biopsy counter (0 when absent) and of the per-entity biopsy
      interval (the draw when absent or 0). */
  function InitCounters(screenInt: int, o: OplRecord): OplRecord {
    o.(countBiopsyInt := Some(o.countBiopsyInt.GetOr(0)),
       screenInt := Some(if o.screenInt.GetOr(0) == 0 then screenInt else o.screenInt.value))
  }

  /** The part of a non-guarded call before the biopsy decision. */
  function Prepare(appInt: int, screenInt: int, e: Entity): Entity {
    var e1 := FollowUpClock(appInt, e.(opl := e.opl.(detected := 1)));
    e1.(opl := InitCounters(screenInt, e1.opl))
  }

  function LogResource(name: string, e: Entity): Entity {
    e.(history := e.history.(resources := e.history.resources + [Stamp(name, e.clock.allTime)]))
  }

  function SetCount(count: int, e: Entity): Entity {
    e.(opl := e.opl.(countBiopsyInt := Some(count)))
  }

  /** Schedules the next appointment one interval later. */
  function Reschedule(appInt: int, e: Entity): Entity {
    e.(clock := e.clock.(timeSysp := e.clock.timeSysp + appInt as real))
  }

  /** The side effects of a cancer detection, with event label `how`. */
  function Detect(how: string, cancerFlags: Treatment -> Treatment, e: Entity): Entity {
    e.(history := e.history.(events := e.history.events + [Stamp(how, e.clock.allTime)]),
       flags := e.flags.(cancerScreenDetected := 1, cancerDetected := 1,
                         timeCancerDetected := Some(e.clock.allTime)),
       state := S3_0,
       treatment := cancerFlags(e.treatment),
       currentState := CancerLabel)
  }

  /** An appointment before the biopsy interval is reached. */
  function BelowInterval(p: Policy, d: Draws, cancerFlags: Treatment -> Treatment, e: Entity): Entity
    requires e.opl.countBiopsyInt.Some?
  {
    var e1 := LogResource(AppointmentName, SetCount(e.opl.countBiopsyInt.value + 1, e));
    if e1.flags.hasCancer == 0 then
      var e2 := if d.falsePos > p.specificity then SetCount(0, LogResource(BiopsyName, e1)) else e1;
      Reschedule(p.appInt, e2)
    else if d.falseNeg > p.sensitivity then
      Reschedule(p.appInt, e1)
    else
      Detect(FollowupDetection, cancerFlags, LogResource(BiopsyName, e1))
  }

  /** The appointment at which the biopsy interval is reached. */
  function AtInterval(p: Policy, cancerFlags: Treatment -> Treatment, e: Entity): Entity {
    var e1 := LogResource(BiopsyName, LogResource(AppointmentName, SetCount(0, e)));
    if e1.flags.hasCancer == 1 then Detect(BiopsyDetection, cancerFlags, e1)
    else Reschedule(p.appInt, e1)
  }

  /** One invocation of the processor on `e`. The properties of its outcome are stated by
      the lemmas below, one aspect each. */
  function Process(p: Policy, d: Draws, cancerFlags: Treatment -> Treatment, e: Entity): (r: Entity)
    requires ValidDraws(d)
    // every call marks the OPL as detected; a guarded call changes nothing else
    ensures r.opl.detected == 1
    ensures Guarded(e) ==> r == e.(opl := e.opl.(detected := 1))
    // attributes owned by other components are never written
    ensures r.clock.allTime == e.clock.allTime && r.clock.timeDeath == e.clock.timeDeath
    ensures r.clock.natHistDeathAge == e.clock.natHistDeathAge
    ensures r.flags.hasCancer == e.flags.hasCancer && r.flags.hasDentist == e.flags.hasDentist
    ensures r.history.utility == e.history.utility
    ensures LabelConsistent(e) ==> LabelConsistent(r)
  {
    if Guarded(e) then e.(opl := e.opl.(detected := 1))
    else
      var e1 := Prepare(p.appInt, d.screenInt, e);
      if e1.opl.countBiopsyInt.value < e1.opl.screenInt.value then BelowInterval(p, d, cancerFlags, e1)
      else AtInterval(p, cancerFlags, e1)
  }

  /** Follow-up clock: created at 0 on the first non-guarded call, then advanced by exactly
      the appointment interval while it is at most 1825 days; past that the entity is
      discharged to regular screening (unless the same call detects cancer). */
  lemma FollowUpClockRule(p: Policy, d: Draws, cancerFlags: Treatment -> Treatment, e: Entity)
    requires ValidDraws(d)
    ensures var r := Process(p, d, cancerFlags, e);
            && (!Guarded(e) && e.opl.timeFU.None? ==> r.opl.timeFU == Some(0))
            && (!Guarded(e) && e.opl.timeFU.Some? && e.opl.timeFU.value <= DischargeDays ==>
                  r.opl.timeFU == Some(e.opl.timeFU.value + p.appInt))
            && (Discharges(e) ==> r.opl.timeFU == e.opl.timeFU && r.opl.status == Some(9))
            && (Discharges(e) && !DetectsCancer(p, d, e) ==> r.state == S1_0 && r.currentState == ScreeningLabel)
            && (!Discharges(e) ==> r.opl.status == e.opl.status)
  {
  }

  /** The biopsy interval is fixed on first use and the counter counts appointments since the
      last biopsy: incremented below the interval, reset to 0 by any biopsy. */
  lemma CounterRule(p: Policy, d: Draws, cancerFlags: Treatment -> Treatment, e: Entity)
    requires ValidDraws(d)
    ensures var r := Process(p, d, cancerFlags, e);
            && (!Guarded(e) ==> r.opl.screenInt == Some(IntervalAtEntry(d, e)))
            && (!Guarded(e) ==>
                  r.opl.countBiopsyInt == Some(NextCount(p, d, e)))
  {
    if !Guarded(e) {
      var e1 := Prepare(p.appInt, d.screenInt, e);
      if CountAtEntry(e) < IntervalAtEntry(d, e) {
        assert Process(p, d, cancerFlags, e) == BelowInterval(p, d, cancerFlags, e1);
      } else {
        assert Process(p, d, cancerFlags, e) == AtInterval(p, cancerFlags, e1);
      }
    }
  }

  /** After any non-guarded call the interval lies in [1, 10] and the count within
      [0, interval]; a guarded call keeps the counters as they were. */
  lemma CounterBounds(p: Policy, d: Draws, cancerFlags: Treatment -> Treatment, e: Entity)
    requires ValidDraws(d)
    ensures CountersOk(e) && !Guarded(e) ==> CountersSet(Process(p, d, cancerFlags, e))
    ensures CountersOk(e) ==> CountersOk(Process(p, d, cancerFlags, e))
  {
    CounterRule(p, d, cancerFlags, e);
  }

  /** Histories are append-only and every new entry carries the current clock: one
      appointment per non-guarded call, then a biopsy exactly when one is performed, and a
      detection event exactly when cancer is found. */
  lemma HistoryRule(p: Policy, d: Draws, cancerFlags: Treatment -> Treatment, e: Entity)
    requires ValidDraws(d)
    ensures var r := Process(p, d, cancerFlags, e);
            && (!Guarded(e) ==>
                  r.history.resources == e.history.resources + [Stamp(AppointmentName, e.clock.allTime)]
                    + (if BiopsyDone(p, d, e) then [Stamp(BiopsyName, e.clock.allTime)] else []))
            && (Guarded(e) ==> r.history.resources == e.history.resources)
            && r.history.events == e.history.events
                 + (if DetectsAtBiopsy(d, e) then [Stamp(BiopsyDetection, e.clock.allTime)]
                    else if DetectsAtFollowup(p, d, e) then [Stamp(FollowupDetection, e.clock.allTime)]
                    else [])
  {
    if !Guarded(e) {
      var e1 := Prepare(p.appInt, d.screenInt, e);
      if CountAtEntry(e) < IntervalAtEntry(d, e) {
        assert Process(p, d, cancerFlags, e) == BelowInterval(p, d, cancerFlags, e1);
      } else {
        assert Process(p, d, cancerFlags, e) == AtInterval(p, cancerFlags, e1);
      }
    }
  }

  /** A call either detects cancer (at the regular biopsy when the entity has cancer, or by a
      true-positive screen before it) or schedules the next appointment exactly one interval
      later, leaving the detection attributes and the label alone. */
  lemma DetectionRule(p: Policy, d: Draws, cancerFlags: Treatment -> Treatment, e: Entity)
    requires ValidDraws(d)
    ensures var r := Process(p, d, cancerFlags, e);
            && (DetectsCancer(p, d, e) ==> Detected(e, r, cancerFlags))
            && (!Guarded(e) && !DetectsCancer(p, d, e) ==>
                  && r.clock.timeSysp == e.clock.timeSysp + p.appInt as real
                  && r.flags == e.flags
                  && r.treatment == e.treatment
                  && r.state == (if Discharges(e) then S1_0 else e.state)
                  && r.currentState == (if Discharges(e) then ScreeningLabel else e.currentState))
  {
    if DetectsCancer(p, d, e) {
      DetectingCall(p, d, cancerFlags, e);
    } else if !Guarded(e) {
      OtherCall(p, d, cancerFlags, e);
    }
  }

  lemma DetectingCall(p: Policy, d: Draws, cancerFlags: Treatment -> Treatment, e: Entity)
    requires ValidDraws(d) && DetectsCancer(p, d, e)
    ensures Detected(e, Process(p, d, cancerFlags, e), cancerFlags)
  {
    var e1 := Prepare(p.appInt, d.screenInt, e);
    if CountAtEntry(e) < IntervalAtEntry(d, e) {
      assert Process(p, d, cancerFlags, e) == BelowInterval(p, d, cancerFlags, e1);
    } else {
      assert Process(p, d, cancerFlags, e) == AtInterval(p, cancerFlags, e1);
    }
  }

  lemma OtherCall(p: Policy, d: Draws, cancerFlags: Treatment -> Treatment, e: Entity)
    requires ValidDraws(d) && !Guarded(e) && !DetectsCancer(p, d, e)
    ensures var r := Process(p, d, cancerFlags, e);
            && r.clock.timeSysp == e.clock.timeSysp + p.appInt as real
            && r.flags == e.flags
            && r.treatment == e.treatment
            && r.state == (if Discharges(e) then S1_0 else e.state)
            && r.currentState == (if Discharges(e) then ScreeningLabel else e.currentState)
  {
    var e1 := Prepare(p.appInt, d.screenInt, e);
    if CountAtEntry(e) < IntervalAtEntry(d, e) {
      assert Process(p, d, cancerFlags, e) == BelowInterval(p, d, cancerFlags, e1);
    } else {
      assert Process(p, d, cancerFlags, e) == AtInterval(p, cancerFlags, e1);
    }
  }
}
