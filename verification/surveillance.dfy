/** Bounded runs of OPL surveillance: the clock repeatedly reaches the next scheduled
    appointment and the OPL processor runs while the entity is in state 2.0. Each visit
    carries the processor's policy (it is rebuilt on every dispatch) and the call's draws. */
module Surveillance {
  import opened Entities
  import opened OPLManage

  datatype Visit = Visit(policy: Policy, draws: Draws)

  predicate ValidVisits(vs: seq<Visit>) {
    forall i :: 0 <= i < |vs| ==> ValidDraws(vs[i].draws)
  }

  /** The clock moved forward to the scheduled appointment when that lies ahead. */
  function ToAppointment(e: Entity): Entity {
    if e.clock.timeSysp > e.clock.allTime then e.(clock := e.clock.(allTime := e.clock.timeSysp)) else e
  }

  /** One surveillance cycle. */
  function Cycle(v: Visit, cancerFlags: Treatment -> Treatment, e: Entity): Entity
    requires ValidDraws(v.draws)
  {
    var e1 := ToAppointment(e);
    if e1.state == S2_0 then Process(v.policy, v.draws, cancerFlags, e1) else e1
  }

  /** A run of surveillance cycles, one per visit. */
  function Surveil(vs: seq<Visit>, cancerFlags: Treatment -> Treatment, e: Entity): Entity
    requires ValidVisits(vs)
    decreases |vs|
  {
    if |vs| == 0 then e else Surveil(vs[1..], cancerFlags, Cycle(vs[0], cancerFlags, e))
  }

  /** The histories of `r` extend those of `e`, and nothing in them is later than the clock,
      which has not gone back. */
  predicate HistoryGrows(e: Entity, r: Entity) {
    && e.history.resources <= r.history.resources
    && e.history.events <= r.history.events
    && r.history.utility == e.history.utility
    && r.clock.allTime >= e.clock.allTime
    && (StampsUpTo(e.history.resources, e.clock.allTime) ==> StampsUpTo(r.history.resources, r.clock.allTime))
    && (StampsUpTo(e.history.events, e.clock.allTime) ==> StampsUpTo(r.history.events, r.clock.allTime))
  }

  /** Counters stay valid, the disease flag is untouched, and a detection or a discharge is
      never undone. */
  predicate FlagsKept(e: Entity, r: Entity) {
    && (CountersOk(e) ==> CountersOk(r))
    && r.flags.hasCancer == e.flags.hasCancer
    && (e.flags.cancerDetected == 1 ==> r.flags.cancerDetected == 1)
    && (e.opl.status == Some(9) ==> r.opl.status == Some(9))
  }

  lemma CycleHistory(v: Visit, cancerFlags: Treatment -> Treatment, e: Entity)
    requires ValidDraws(v.draws)
    ensures HistoryGrows(e, Cycle(v, cancerFlags, e))
  {
    var e1 := ToAppointment(e);
    if e1.state == S2_0 {
      HistoryRule(v.policy, v.draws, cancerFlags, e1);
    }
  }

  lemma CycleFlags(v: Visit, cancerFlags: Treatment -> Treatment, e: Entity)
    requires ValidDraws(v.draws)
    ensures FlagsKept(e, Cycle(v, cancerFlags, e))
  {
    var e1 := ToAppointment(e);
    if e1.state == S2_0 {
      CounterBounds(v.policy, v.draws, cancerFlags, e1);
      DetectionRule(v.policy, v.draws, cancerFlags, e1);
      FollowUpClockRule(v.policy, v.draws, cancerFlags, e1);
    }
  }

  /** Over any run, histories only grow, the clock never goes back, and no entry is stamped
      later than the clock. */
  lemma {:induction false} SurveilHistory(vs: seq<Visit>, cancerFlags: Treatment -> Treatment, e: Entity)
    requires ValidVisits(vs)
    ensures HistoryGrows(e, Surveil(vs, cancerFlags, e))
    decreases |vs|
  {
    if |vs| > 0 {
      var e1 := Cycle(vs[0], cancerFlags, e);
      CycleHistory(vs[0], cancerFlags, e);
      SurveilHistory(vs[1..], cancerFlags, e1);
    }
  }

  /** Over any run, the counters stay valid and a detection or a discharge is never undone. */
  lemma {:induction false} SurveilFlags(vs: seq<Visit>, cancerFlags: Treatment -> Treatment, e: Entity)
    requires ValidVisits(vs)
    ensures FlagsKept(e, Surveil(vs, cancerFlags, e))
    decreases |vs|
  {
    if |vs| > 0 {
      var e1 := Cycle(vs[0], cancerFlags, e);
      CycleFlags(vs[0], cancerFlags, e);
      SurveilFlags(vs[1..], cancerFlags, e1);
    }
  }

  /** Biopsies a run has added to the history of `e`, as `r`. */
  function Added(e: Entity, r: Entity, name: string): int {
    Occurrences(r.history.resources, name) - Occurrences(e.history.resources, name)
  }

  /** One cycle's effect on biopsies `b`, appointments `a` and the counter (`c0` before, `c1`
      after), with `k` the interval plus one: nothing, an appointment that raises the count,
      or an appointment with the scheduled biopsy once the count has reached the interval. */
  predicate BiopsyStep(k: int, b: int, a: int, c0: int, c1: int) {
    || (a == 0 && b == 0 && c1 == c0)
    || (a == 1 && b == 0 && c1 == c0 + 1)
    || (a == 1 && b == 1 && c1 == 0 && c0 + 1 == k)
  }

  /** A non-guarded call for a person without cancer under a test that never gives a false
      positive: below the interval it logs one appointment and raises the count; at the
      interval it logs the appointment and the scheduled biopsy and resets the count. */
  lemma NoFalsePositiveVisit(v: Visit, cancerFlags: Treatment -> Treatment, e: Entity)
    requires ValidDraws(v.draws) && v.policy.specificity >= 1.0
    requires e.flags.hasCancer == 0 && CountersSet(e) && !Guarded(e)
    ensures var r := Process(v.policy, v.draws, cancerFlags, e);
            var c, t := e.opl.countBiopsyInt.value, e.clock.allTime;
            && CountersSet(r) && r.opl.screenInt == e.opl.screenInt
            && ((c < e.opl.screenInt.value
                 && r.history.resources == e.history.resources + [Stamp(AppointmentName, t)]
                 && r.opl.countBiopsyInt == Some(c + 1))
             || (c == e.opl.screenInt.value
                 && r.history.resources == e.history.resources + [Stamp(AppointmentName, t), Stamp(BiopsyName, t)]
                 && r.opl.countBiopsyInt == Some(0)))
  {
    HistoryRule(v.policy, v.draws, cancerFlags, e);
    CounterRule(v.policy, v.draws, cancerFlags, e);
    CounterBounds(v.policy, v.draws, cancerFlags, e);
    if e.opl.countBiopsyInt.value < e.opl.screenInt.value {
      assert !BiopsyDone(v.policy, v.draws, e);
    } else {
      assert BiopsyDone(v.policy, v.draws, e);
    }
  }

  /** The call that brings a person without cancer, not yet counted, into surveillance under
      a test that never gives a false positive: it fixes the interval to the call's draw,
      counts one appointment and logs no biopsy. */
  lemma EntryVisit(v: Visit, cancerFlags: Treatment -> Treatment, e: Entity)
    requires ValidDraws(v.draws) && v.policy.specificity >= 1.0
    requires e.flags.hasCancer == 0 && !Guarded(e)
    requires e.opl.countBiopsyInt.None? && e.opl.screenInt.None?
    ensures var r := Process(v.policy, v.draws, cancerFlags, e);
            && r.opl.screenInt == Some(v.draws.screenInt) && r.opl.countBiopsyInt == Some(1)
            && r.history.resources == e.history.resources + [Stamp(AppointmentName, e.clock.allTime)]
  {
    HistoryRule(v.policy, v.draws, cancerFlags, e);
    CounterRule(v.policy, v.draws, cancerFlags, e);
    assert !BiopsyDone(v.policy, v.draws, e);
  }

  /** A person entering surveillance: in 2.0 with neither counter created yet. */
  predicate Entering(e: Entity) {
    e.state == S2_0 && e.opl.countBiopsyInt.None? && e.opl.screenInt.None?
  }

  /** Counting what a visit appended: one appointment, and a biopsy when `biopsy`. */
  lemma AddedCounts(e: Entity, r: Entity, t: real, biopsy: bool)
    requires r.history.resources == e.history.resources +
               (if biopsy then [Stamp(AppointmentName, t), Stamp(BiopsyName, t)] else [Stamp(AppointmentName, t)])
    ensures Added(e, r, AppointmentName) == 1
    ensures Added(e, r, BiopsyName) == (if biopsy then 1 else 0)
  {
    var appt, biopsyStamp := Stamp(AppointmentName, t), Stamp(BiopsyName, t);
    var added := if biopsy then [appt, biopsyStamp] else [appt];
    assert [appt, biopsyStamp][..1] == [appt] && [appt][..0] == [];
    assert |AppointmentName| != |BiopsyName|;
    assert Occurrences([appt], AppointmentName) == 1 && Occurrences([appt], BiopsyName) == 0;
    OccurrencesAppend(e.history.resources, added, AppointmentName);
    OccurrencesAppend(e.history.resources, added, BiopsyName);
  }

  /** One cycle of a person without cancer under a test that never gives a false positive,
      who carries counters or is just entering surveillance: nothing happens, or an
      appointment without biopsy raises the count by one, or the count has reached the
      interval and an appointment with the scheduled biopsy resets it. The entry visit fixes
      the interval to its draw. */
  lemma NoFalsePositiveCycle(v: Visit, cancerFlags: Treatment -> Treatment, e: Entity)
    requires ValidDraws(v.draws) && v.policy.specificity >= 1.0
    requires e.flags.hasCancer == 0 && (CountersSet(e) || Entering(e))
    ensures var r := Cycle(v, cancerFlags, e);
            && CountersSet(r) && r.flags.hasCancer == 0
            && r.opl.screenInt == (if Entering(e) then Some(v.draws.screenInt) else e.opl.screenInt)
            && BiopsyStep(r.opl.screenInt.value + 1, Added(e, r, BiopsyName), Added(e, r, AppointmentName),
                          CountAtEntry(e), r.opl.countBiopsyInt.value)
  {
    var e1 := ToAppointment(e);
    if e1.state == S2_0 {
      var r := Process(v.policy, v.draws, cancerFlags, e1);
      assert Cycle(v, cancerFlags, e) == r;
      if CountersSet(e) {
        NoFalsePositiveVisit(v, cancerFlags, e1);
        AddedCounts(e, r, e1.clock.allTime, e.opl.countBiopsyInt.value == e.opl.screenInt.value);
      } else {
        EntryVisit(v, cancerFlags, e1);
        AddedCounts(e, r, e1.clock.allTime, false);
      }
    }
  }

  /** The biopsy balance of a run: `b` biopsies, each closing an interval of `k` - 1
      appointments plus its own, account for the `a` appointments and the counter moving from
      `c0` to `c1`. */
  predicate Balanced(k: int, b: int, a: int, c0: int, c1: int) {
    b * k + c1 == a + c0
  }

  /** The arithmetic of one step of the biopsy balance: totals `b`, `a` split into the first
      cycle's `b1`, `a1` and the rest's `b2`, `a2`. */
  lemma BalanceStep(k: int, b: int, a: int, b1: int, a1: int, c0: int, c1: int, b2: int, a2: int, c2: int)
    requires BiopsyStep(k, b1, a1, c0, c1)
    requires Balanced(k, b2, a2, c1, c2)
    requires b == b1 + b2 && a == a1 + a2
    ensures Balanced(k, b, a, c0, c2)
  {
    if b1 == 1 {
      assert b * k == k + b2 * k;
    }
  }

  /** The balance of a run carried back over the cycle before it, which started from count
      `c0`. */
  lemma BalanceAcross(k: int, c0: int, e: Entity, e1: Entity, r: Entity)
    requires CountersSet(e1) && CountersSet(r)
    requires BiopsyStep(k, Added(e, e1, BiopsyName), Added(e, e1, AppointmentName), c0, e1.opl.countBiopsyInt.value)
    requires Balanced(k, Added(e1, r, BiopsyName), Added(e1, r, AppointmentName),
                      e1.opl.countBiopsyInt.value, r.opl.countBiopsyInt.value)
    ensures Balanced(k, Added(e, r, BiopsyName), Added(e, r, AppointmentName), c0, r.opl.countBiopsyInt.value)
  {
    BalanceStep(k, Added(e, r, BiopsyName), Added(e, r, AppointmentName),
                Added(e, e1, BiopsyName), Added(e, e1, AppointmentName),
                c0, e1.opl.countBiopsyInt.value,
                Added(e1, r, BiopsyName), Added(e1, r, AppointmentName), r.opl.countBiopsyInt.value);
  }

  /** The visits after the first keep their draws valid and their specificity. */
  lemma SpecificTail(vs: seq<Visit>)
    requires ValidVisits(vs) && |vs| >= 1
    requires forall i :: 0 <= i < |vs| ==> vs[i].policy.specificity >= 1.0
    ensures ValidVisits(vs[1..])
    ensures forall i :: 0 <= i < |vs[1..]| ==> vs[1..][i].policy.specificity >= 1.0
  {
  }

  /** Scenario of a person without cancer under a test of specificity at least 1: biopsies
      happen only at the interval boundary. Over any run, from the visit that brings the
      person into surveillance or from any later point, every biopsy is preceded by exactly
      `interval` appointments without one: biopsies times (interval + 1) plus the final count
      equals appointments plus the initial count; an extra false-positive biopsy would break
      the balance. Entering, the interval is the first visit's draw and the count starts at 0. */
  lemma {:induction false} NoFalsePositiveBiopsies(vs: seq<Visit>, cancerFlags: Treatment -> Treatment, e: Entity)
    requires ValidVisits(vs)
    requires forall i :: 0 <= i < |vs| ==> vs[i].policy.specificity >= 1.0
    requires e.flags.hasCancer == 0 && (CountersSet(e) || (Entering(e) && |vs| >= 1))
    ensures var r := Surveil(vs, cancerFlags, e);
            && CountersSet(r)
            && r.opl.screenInt == (if Entering(e) then Some(vs[0].draws.screenInt) else e.opl.screenInt)
            && Balanced(r.opl.screenInt.value + 1, Added(e, r, BiopsyName), Added(e, r, AppointmentName),
                        CountAtEntry(e), r.opl.countBiopsyInt.value)
    decreases |vs|
  {
    if |vs| > 0 {
      var e1 := Cycle(vs[0], cancerFlags, e);
      var r := Surveil(vs, cancerFlags, e);
      assert r == Surveil(vs[1..], cancerFlags, e1);
      SpecificTail(vs);
      NoFalsePositiveCycle(vs[0], cancerFlags, e);
      assert !Entering(e1) && CountAtEntry(e1) == e1.opl.countBiopsyInt.value;
      NoFalsePositiveBiopsies(vs[1..], cancerFlags, e1);
      BalanceAcross(e1.opl.screenInt.value + 1, CountAtEntry(e), e, e1, r);
    }
  }

  /** Once the entity has left surveillance, further visits only move its clock: state,
      label, flags, OPL attributes and histories stay as they are. */
  lemma {:induction false} SurveilOutside(vs: seq<Visit>, cancerFlags: Treatment -> Treatment, e: Entity)
    requires ValidVisits(vs) && e.state != S2_0
    ensures Surveil(vs, cancerFlags, e) == e.(clock := Surveil(vs, cancerFlags, e).clock)
    decreases |vs|
  {
    if |vs| > 0 {
      SurveilOutside(vs[1..], cancerFlags, Cycle(vs[0], cancerFlags, e));
    }
  }

  /** Scenario of a person with cancer under a test of sensitivity at least 1: the first
      surveillance visit detects the cancer, whether or not the interval is reached. The
      entity moves to 3.0 with the detection stamped at that visit's time and stays there
      for the rest of the run. */
  lemma SensitiveScreenDetects(vs: seq<Visit>, cancerFlags: Treatment -> Treatment, e: Entity)
    requires ValidVisits(vs) && |vs| >= 1 && vs[0].policy.sensitivity >= 1.0
    requires e.state == S2_0 && e.flags.hasCancer == 1
    ensures var r1, t := Cycle(vs[0], cancerFlags, e), ToAppointment(e).clock.allTime;
            && r1.state == S3_0 && r1.flags.cancerDetected == 1
            && r1.flags.timeCancerDetected == Some(t)
            && Surveil(vs, cancerFlags, e).state == S3_0
            && Surveil(vs, cancerFlags, e).flags == r1.flags
  {
    var e1 := ToAppointment(e);
    DetectionRule(vs[0].policy, vs[0].draws, cancerFlags, e1);
    assert DetectsCancer(vs[0].policy, vs[0].draws, e1);
    SurveilOutside(vs[1..], cancerFlags, Cycle(vs[0], cancerFlags, e));
  }

  /** Visits after which a person with cancer in surveillance is certainly detected or
      discharged: the appointments left before the biopsy interval, plus the biopsy itself. */
  function DetectionBudget(e: Entity): int {
    var c := CountAtEntry(e);
    var s := if e.opl.screenInt.GetOr(0) == 0 then 10 else e.opl.screenInt.value;
    if c >= s then 1 else s - c + 1
  }

  /** The entity has left surveillance: detected with cancer (3.0), or discharged to regular
      screening (1.0, `OPLStatus` 9). */
  predicate LeftSurveillance(r: Entity) {
    || (r.state == S3_0 && r.flags.cancerDetected == 1)
    || (r.state == S1_0 && r.opl.status == Some(9))
  }

  /** One visit to a person with cancer in 2.0: it detects or discharges, or it keeps the
      entity in 2.0 with a strictly smaller budget. */
  lemma BudgetStep(v: Visit, cancerFlags: Treatment -> Treatment, e: Entity)
    requires ValidDraws(v.draws) && CountersOk(e)
    requires e.state == S2_0 && e.flags.hasCancer == 1
    ensures var r1 := Cycle(v, cancerFlags, e);
            || LeftSurveillance(r1)
            || (&& r1.state == S2_0 && r1.flags.hasCancer == 1 && CountersOk(r1)
                && DetectionBudget(r1) <= DetectionBudget(e) - 1)
  {
    var e1 := ToAppointment(e);
    DetectionRule(v.policy, v.draws, cancerFlags, e1);
    FollowUpClockRule(v.policy, v.draws, cancerFlags, e1);
    CounterRule(v.policy, v.draws, cancerFlags, e1);
    CounterBounds(v.policy, v.draws, cancerFlags, e1);
  }

  /** A person with cancer in state 2.0 leaves surveillance, detected or discharged, within
      the budget of visits. */
  lemma {:induction false} DetectedWithinBudget(vs: seq<Visit>, cancerFlags: Treatment -> Treatment, e: Entity)
    requires ValidVisits(vs) && CountersOk(e)
    requires e.state == S2_0 && e.flags.hasCancer == 1
    requires |vs| >= DetectionBudget(e)
    ensures LeftSurveillance(Surveil(vs, cancerFlags, e))
    decreases |vs|
  {
    var r1 := Cycle(vs[0], cancerFlags, e);
    assert Surveil(vs, cancerFlags, e) == Surveil(vs[1..], cancerFlags, r1);
    BudgetStep(vs[0], cancerFlags, e);
    if LeftSurveillance(r1) {
      SurveilOutside(vs[1..], cancerFlags, r1);
    } else {
      DetectedWithinBudget(vs[1..], cancerFlags, r1);
    }
  }

  /** Detection guarantee: a person with cancer in OPL surveillance is detected, or
      discharged to regular screening, within eleven visits whatever the draws: at most ten
      appointments fill the biopsy interval and the biopsy that follows finds the cancer. */
  lemma DetectedWithinElevenVisits(vs: seq<Visit>, cancerFlags: Treatment -> Treatment, e: Entity)
    requires ValidVisits(vs) && |vs| >= 11 && CountersOk(e)
    requires e.state == S2_0 && e.flags.hasCancer == 1
    ensures LeftSurveillance(Surveil(vs, cancerFlags, e))
  {
    DetectedWithinBudget(vs, cancerFlags, e);
  }
}
