/** The per-entity loop of the sequencer: one pass sets up a new entity, resolves the
    dentist-access branch, lets the clock collaborator advance time, runs the state handlers
    and either leaves the loop (death or error) or goes round again. The cohort loop then
    collects each finished entity into index-aligned result lists.

    Processors whose source is not part of this model (initialisation, natural history, the
    clock, screening, treatment, follow-up, terminal care, cancer flags) are parameters of a
    pass; the OPL processor is the one of module `OPLManage`. */
module Sequencer {
  import opened Entities
  import OPLManage
  import Surveillance

  /** An entry of the loop-local natural-history or QALY lists; only collaborators touch them. */
  datatype Record = Record(name: string, value: real, time: real)

  const DeathEvent := "Entity dies"
  const DeadUtility := "Dead"
  /** Days the system-process clock moves on for a person without a dentist. */
  const NoDentistWait := 1000.0
  /** How far past the natural-history death age a person in remission is moved. */
  const RemissionOffset := 0.0001

  /** Draws the OPL processor's random calls can produce. */
  type OplDraws = d: OPLManage.Draws | OPLManage.ValidDraws(d) witness OPLManage.Draws(0.0, 0.0, 1)

  /** The OPL processor's construction-time samples: appointment interval, sensitivity and
      specificity. */
  datatype OplSamples = OplSamples(appInt: real, sensitivity: real, specificity: real)

  /** What one pass of the loop calls out to. Each pass rebuilds its processors, so the OPL
      processor's construction samples and its draws belong to the pass. */
  datatype Collaborators = Collaborators(
    applyInit: Entity -> Entity,
    natHistOCa: (Entity, seq<Record>) -> (Entity, seq<Record>),
    checkTime: (Entity, seq<Record>, seq<Record>) -> (Entity, seq<Record>, seq<Record>),
    screenAppt: Entity -> Entity,
    oplSamples: OplSamples,
    oplDraws: OplDraws,
    cancerFlags: Treatment -> Treatment,
    incidentCancer: Entity -> Entity,
    followup: Entity -> Entity,
    terminal: Entity -> Entity)

  /** The entity with the loop-local `events`, `natHist` and `QALY` lists. */
  datatype Loop = Loop(entity: Entity, events: seq<Stamp>, natHist: seq<Record>, qaly: seq<Record>)

  /** A newly created entity receives its demographics and then its natural history. */
  function Initialise(c: Collaborators, l: Loop): Loop {
    if l.entity.state == S0_0 then
      var (e, n) := c.natHistOCa(c.applyInit(l.entity), l.natHist);
      l.(entity := e, natHist := n)
    else l
  }

  /** The dentist-access node: a valid flag picks regular screening or no access; any other
      value (or none) moves the entity to 0.9 and leaves its label alone. */
  function DentistNode(e: Entity): (r: Entity)
    ensures e.state != S0_1 ==> r == e
    ensures e.state == S0_1 && e.flags.hasDentist == Some(1) ==> r == e.(state := S1_0, currentState := ScreeningLabel)
    ensures e.state == S0_1 && e.flags.hasDentist == Some(0) ==> r == e.(state := S1_8, currentState := NoDentistLabel)
    ensures e.state == S0_1 && e.flags.hasDentist != Some(0) && e.flags.hasDentist != Some(1) ==> r == e.(state := S0_9)
    ensures LabelConsistent(e) ==> LabelConsistent(r)
  {
    if e.state != S0_1 then e
    else if e.flags.hasDentist == Some(1) then e.(state := S1_0, currentState := ScreeningLabel)
    else if e.flags.hasDentist == Some(0) then e.(state := S1_8, currentState := NoDentistLabel)
    else e.(state := S0_9)
  }

  /** The part of a pass before the clock. */
  function Setup(c: Collaborators, l: Loop): Loop {
    var l1 := Initialise(c, l);
    l1.(entity := DentistNode(l1.entity))
  }

  /** A new entity (0.0) is initialised and then meets the dentist-access node in the same
      pass; any other entity meets the node directly. The clock never sees an entity in 0.1. */
  lemma SetupRule(c: Collaborators, l: Loop)
    ensures var r := Setup(c, l);
            && r.entity.state != S0_1
            && r.events == l.events && r.qaly == l.qaly
            && (l.entity.state != S0_0 ==> r == l.(entity := DentistNode(l.entity)))
            && (l.entity.state == S0_0 ==>
                  var (e, n) := c.natHistOCa(c.applyInit(l.entity), l.natHist);
                  r.entity == DentistNode(e) && r.natHist == n)
  {
  }

  /** The clock collaborator moves to the next scheduled event. */
  function Advance(c: Collaborators, l: Loop): Loop {
    var (e, n, q) := c.checkTime(l.entity, l.natHist, l.qaly);
    l.(entity := e, natHist := n, qaly := q)
  }

  /** The codes with a handler, in the order the loop tests them. */
  const Handlers: seq<StateCode> := [S1_0, S1_8, S2_0, S3_0, S4_0, S4_8, S5_0]

  /** What the loop does for a code, given the entity in that code. */
  type Handler = (StateCode, Entity) -> Entity

  /** Independent tests, in order, from the `i`-th code on: each handler runs when the
      entity is in its code at the moment its test is reached. */
  function RunFrom(h: Handler, i: nat, e: Entity): Entity
    decreases |Handlers| - i
  {
    if i >= |Handlers| then e
    else RunFrom(h, i + 1, if e.state == Handlers[i] then h(Handlers[i], e) else e)
  }

  function Dispatch(h: Handler, e: Entity): Entity {
    RunFrom(h, 0, e)
  }

  /** Tests of codes the entity is not in, from the `i`-th to before the `j`-th, pass it over. */
  lemma {:induction false} SkipHandlers(h: Handler, i: nat, j: nat, e: Entity)
    requires i <= j <= |Handlers|
    requires forall k :: i <= k < j ==> Handlers[k] != e.state
    ensures RunFrom(h, i, e) == RunFrom(h, j, e)
    decreases j - i
  {
    if i < j {
      SkipHandlers(h, i + 1, j, e);
    }
  }

  /** An entity in a code without a handler (0.0, 0.1, 0.9, 100, 99) passes dispatch untouched. */
  lemma UnhandledUntouched(h: Handler, e: Entity)
    requires e.state !in Handlers
    ensures Dispatch(h, e) == e
  {
    SkipHandlers(h, 0, |Handlers|, e);
  }

  /** The handler of the entity's code runs, and dispatch carries on with the codes after it. */
  lemma HandlerRuns(h: Handler, i: nat, e: Entity)
    requires i < |Handlers| && e.state == Handlers[i]
    ensures Dispatch(h, e) == RunFrom(h, i + 1, h(Handlers[i], e))
  {
    HandlersDistinct();
    SkipHandlers(h, 0, i, e);
  }

  /** No code has two handlers. */
  lemma HandlersDistinct()
    ensures forall a, b :: 0 <= a < b < |Handlers| ==> Handlers[a] != Handlers[b]
  {
  }

  /** A handler that moves the entity to a code tested later has that code's handler run in
      the same pass. */
  lemma LaterCodeSamePass(h: Handler, i: nat, j: nat, e: Entity)
    requires i < j < |Handlers| && e.state == Handlers[i]
    requires h(Handlers[i], e).state == Handlers[j]
    ensures Dispatch(h, e) == RunFrom(h, j + 1, h(Handlers[j], h(Handlers[i], e)))
  {
    HandlerRuns(h, i, e);
    HandlersDistinct();
    SkipHandlers(h, i + 1, j, h(Handlers[i], e));
  }

  /** A handler that leaves the entity in a code not tested later (an earlier or the same
      code, or one without a handler) ends dispatch: the new code waits for the next pass. */
  lemma OtherCodeWaits(h: Handler, i: nat, e: Entity)
    requires i < |Handlers| && e.state == Handlers[i]
    requires forall k :: i < k < |Handlers| ==> Handlers[k] != h(Handlers[i], e).state
    ensures Dispatch(h, e) == h(Handlers[i], e)
  {
    HandlerRuns(h, i, e);
    SkipHandlers(h, i + 1, |Handlers|, h(Handlers[i], e));
  }

  /** The handler of one code in a pass. */
  function Handle(c: Collaborators, code: StateCode, e: Entity): Entity {
    match code
    case S1_0 => c.screenAppt(e)
    case S1_8 => e.(clock := e.clock.(timeSysp := e.clock.timeSysp + NoDentistWait))
    case S2_0 => OPLManage.Process(OplPolicy(c), c.oplDraws, c.cancerFlags, e)
    case S3_0 => c.incidentCancer(e)
    case S4_0 => c.followup(e)
    case S4_8 => e.(clock := e.clock.(allTime := e.clock.natHistDeathAge + RemissionOffset))
    case S5_0 => c.terminal(e)
    case _ => e
  }

  /** The policy of the OPL processor the pass constructs. */
  function OplPolicy(c: Collaborators): OPLManage.Policy {
    OPLManage.MakePolicy(c.oplSamples.appInt, c.oplSamples.sensitivity, c.oplSamples.specificity)
  }

  function HandlerOf(c: Collaborators): Handler {
    (code, e) => Handle(c, code, e)
  }

  /** Without a dentist the system-process clock moves on 1000 days, nothing else changes. */
  lemma NoDentistDispatch(c: Collaborators, e: Entity)
    requires e.state == S1_8
    ensures Dispatch(HandlerOf(c), e) == e.(clock := e.clock.(timeSysp := e.clock.timeSysp + 1000.0))
  {
    OtherCodeWaits(HandlerOf(c), 1, e);
  }

  /** In remission the simulation clock jumps just past the natural-history death age. */
  lemma RemissionDispatch(c: Collaborators, e: Entity)
    requires e.state == S4_8
    ensures Dispatch(HandlerOf(c), e) == e.(clock := e.clock.(allTime := e.clock.natHistDeathAge + 0.0001))
  {
    OtherCodeWaits(HandlerOf(c), 5, e);
  }

  /** Under OPL surveillance, a call that detects cancer hands the entity to cancer treatment
      in the same pass. */
  lemma OplDetectionDispatch(c: Collaborators, e: Entity)
    requires e.state == S2_0
    requires OPLManage.DetectsCancer(OplPolicy(c), c.oplDraws, e)
    ensures Dispatch(HandlerOf(c), e) ==
              RunFrom(HandlerOf(c), 4, c.incidentCancer(OPLManage.Process(OplPolicy(c), c.oplDraws, c.cancerFlags, e)))
  {
    OPLManage.DetectionRule(OplPolicy(c), c.oplDraws, c.cancerFlags, e);
    LaterCodeSamePass(HandlerOf(c), 2, 3, e);
  }

  /** Under OPL surveillance, any other call (a guarded one, a plain appointment, a discharge
      to 1.0) ends dispatch: the discharged entity is screened in the next pass. */
  lemma OplOtherDispatch(c: Collaborators, e: Entity)
    requires e.state == S2_0
    requires !OPLManage.DetectsCancer(OplPolicy(c), c.oplDraws, e)
    ensures Dispatch(HandlerOf(c), e) == OPLManage.Process(OplPolicy(c), c.oplDraws, c.cancerFlags, e)
  {
    OPLManage.DetectionRule(OplPolicy(c), c.oplDraws, c.cancerFlags, e);
    var r := OPLManage.Process(OplPolicy(c), c.oplDraws, c.cancerFlags, e);
    assert r.state == S2_0 || r.state == S1_0;
    OtherCodeWaits(HandlerOf(c), 2, e);
  }

  /** How a pass ends: `Exit` leaves the loop. */
  datatype Step = Continue(loop: Loop) | Exit(loop: Loop)

  /** Death records the event in the loop-local list and a zero-utility entry on the entity,
      then leaves; an error leaves without recording; any other code goes round again. */
  function Finish(l: Loop): (r: Step)
    ensures r.Exit? <==> l.entity.state == S100 || l.entity.state == S99
    ensures l.entity.state != S100 ==> r.loop == l
    ensures l.entity.state == S100 ==>
              var e, t := l.entity, l.entity.clock.timeDeath;
              && r.loop.events == l.events + [Stamp(DeathEvent, t)]
              && r.loop.entity.history.utility == e.history.utility + [UtilityEntry(DeadUtility, 0.0, t)]
              && r.loop.entity == e.(history := r.loop.entity.history)
              && r.loop.entity.history.resources == e.history.resources
              && r.loop.entity.history.events == e.history.events
              && r.loop.natHist == l.natHist && r.loop.qaly == l.qaly
  {
    var e := l.entity;
    if e.state == S100 then
      var t := e.clock.timeDeath;
      Exit(l.(events := l.events + [Stamp(DeathEvent, t)],
              entity := e.(history := e.history.(utility := e.history.utility + [UtilityEntry(DeadUtility, 0.0, t)]))))
    else if e.state == S99 then Exit(l)
    else Continue(l)
  }

  /** One iteration of the `while True` body. */
  function Pass(c: Collaborators, l: Loop): Step {
    var l1 := Advance(c, Setup(c, l));
    Finish(l1.(entity := Dispatch(HandlerOf(c), l1.entity)))
  }

  /** A pass over an entity in OPL surveillance, whose clock collaborator moves the entity
      to its next scheduled appointment and whose OPL call does not find cancer, is one
      surveillance cycle: the pass goes round again with the cycle's entity. */
  lemma PassIsCycle(c: Collaborators, l: Loop)
    requires l.entity.state == S2_0
    requires c.checkTime(l.entity, l.natHist, l.qaly).0 == Surveillance.ToAppointment(l.entity)
    requires !OPLManage.DetectsCancer(OplPolicy(c), c.oplDraws, Surveillance.ToAppointment(l.entity))
    ensures Pass(c, l).Continue?
    ensures Pass(c, l).loop.entity == Surveillance.Cycle(Surveillance.Visit(OplPolicy(c), c.oplDraws), c.cancerFlags, l.entity)
  {
    var e1 := Surveillance.ToAppointment(l.entity);
    var l1 := Advance(c, Setup(c, l));
    assert Setup(c, l) == l;
    assert l1.entity == e1;
    OplOtherDispatch(c, e1);
    var r := OPLManage.Process(OplPolicy(c), c.oplDraws, c.cancerFlags, e1);
    StaysInSurveillance(OplPolicy(c), c.oplDraws, c.cancerFlags, e1);
    assert Pass(c, l) == Finish(l1.(entity := r));
  }

  /** An OPL call from 2.0 that does not find cancer leaves the entity in 2.0 or discharges
      it to 1.0. */
  lemma StaysInSurveillance(p: OPLManage.Policy, d: OplDraws, cancerFlags: Treatment -> Treatment, e: Entity)
    requires e.state == S2_0 && !OPLManage.DetectsCancer(p, d, e)
    ensures OPLManage.Process(p, d, cancerFlags, e).state in {S2_0, S1_0}
  {
    OPLManage.DetectionRule(p, d, cancerFlags, e);
  }

  /** The loop finished in death with the death recorded last on both lists. */
  predicate DeathRecorded(l: Loop) {
    var t := l.entity.clock.timeDeath;
    && |l.events| > 0 && l.events[|l.events| - 1] == Stamp(DeathEvent, t)
    && |l.entity.history.utility| > 0
    && l.entity.history.utility[|l.entity.history.utility| - 1] == UtilityEntry(DeadUtility, 0.0, t)
  }

  /** The outcome of a loop given the collaborators of each pass: it left, or the passes ran
      out first. */
  datatype Outcome = Finished(loop: Loop) | OutOfFuel(loop: Loop)

  function Run(cs: seq<Collaborators>, l: Loop): (r: Outcome)
    ensures r.Finished? ==> r.loop.entity.state == S100 || r.loop.entity.state == S99
    ensures r.Finished? && r.loop.entity.state == S100 ==> DeathRecorded(r.loop)
    ensures r.Finished? ==> |cs| > 0
    decreases |cs|
  {
    if |cs| == 0 then OutOfFuel(l)
    else
      match Pass(cs[0], l)
      case Exit(l1) => Finished(l1)
      case Continue(l1) => Run(cs[1..], l1)
  }

  /** A pass that goes round again leaves the rest of the run to the remaining passes. */
  lemma RunContinues(cs: seq<Collaborators>, l: Loop)
    requires |cs| > 0 && Pass(cs[0], l).Continue?
    ensures Run(cs, l) == Run(cs[1..], Pass(cs[0], l).loop)
  {
  }

  /** The clock collaborator of a pass keeps an entity in 0.9 there. */
  ghost predicate KeepsInvalidAccess(c: Collaborators) {
    forall e: Entity, n: seq<Record>, q: seq<Record> ::
      e.state == S0_9 ==> c.checkTime(e, n, q).0.state == S0_9
  }

  /** Every pass's clock collaborator keeps an entity in 0.9 there. */
  ghost predicate AllKeepInvalidAccess(cs: seq<Collaborators>)
    decreases |cs|
  {
    |cs| > 0 ==> KeepsInvalidAccess(cs[0]) && AllKeepInvalidAccess(cs[1..])
  }

  /** Entity in 0.9, or about to be sent there by the dentist-access node. */
  predicate InvalidAccess(e: Entity) {
    e.state == S0_9 || (e.state == S0_1 && e.flags.hasDentist != Some(0) && e.flags.hasDentist != Some(1))
  }

  /** A pass from an invalid access flag goes round again in 0.9 when the clock leaves it there. */
  lemma InvalidAccessPass(c: Collaborators, l: Loop)
    requires KeepsInvalidAccess(c) && InvalidAccess(l.entity)
    ensures Pass(c, l).Continue? && Pass(c, l).loop.entity.state == S0_9
  {
    var l0 := Setup(c, l);
    assert l0.entity.state == S0_9;
    var l1 := Advance(c, l0);
    assert c.checkTime(l0.entity, l0.natHist, l0.qaly).0.state == S0_9;
    UnhandledUntouched(HandlerOf(c), l1.entity);
  }

  /** An invalid dentist-access flag does not stop the simulation: when the clock collaborator
      leaves the code alone, every pass goes round again. */
  lemma {:induction false} InvalidAccessNeverExits(cs: seq<Collaborators>, l: Loop)
    requires AllKeepInvalidAccess(cs) && InvalidAccess(l.entity)
    ensures Run(cs, l).OutOfFuel? && InvalidAccess(Run(cs, l).loop.entity)
    decreases |cs|
  {
    if |cs| > 0 {
      InvalidAccessPass(cs[0], l);
      RunContinues(cs, l);
      InvalidAccessNeverExits(cs[1..], Pass(cs[0], l).loop);
    }
  }

  /** The cohort's result lists; the events list is kept but never written. */
  datatype Results = Results(
    entities: seq<Entity>,
    resourceList: seq<seq<Stamp>>,
    eventsList: seq<seq<Stamp>>,
    qalyList: seq<seq<UtilityEntry>>)

  /** Entry `i` of the resource and QALY lists is the history of entity `i`. */
  predicate Aligned(res: Results) {
    && |res.resourceList| == |res.entities|
    && |res.qalyList| == |res.entities|
    && (forall i :: 0 <= i < |res.entities| ==>
          res.resourceList[i] == res.entities[i].history.resources && res.qalyList[i] == res.entities[i].history.utility)
  }

  /** The appends after an entity's loop. */
  function Collect(res: Results, e: Entity): Results {
    Results(res.entities + [e], res.resourceList + [e.history.resources], res.eventsList, res.qalyList + [e.history.utility])
  }

  /** A created entity and the collaborators of each pass of its loop. */
  datatype Person = Person(created: Entity, passes: seq<Collaborators>)

  /** Every entity collected from index `from` on left its loop in death or error. */
  predicate EndedFrom(res: Results, from: nat) {
    forall i :: from <= i < |res.entities| ==> res.entities[i].state == S100 || res.entities[i].state == S99
  }

  /** The cohort loop, or the index of the first entity whose loop did not finish. */
  datatype Cohort = Done(results: Results) | Hung(results: Results, index: nat)

  /** The outcome of a person's own loop, started fresh with empty local lists. */
  function OutcomeOf(p: Person): Outcome {
    Run(p.passes, Loop(p.created, [], [], []))
  }

  /** The outcome of each person's loop. */
  function Outcomes(people: seq<Person>): (r: seq<Outcome>)
    ensures |r| == |people|
    ensures forall i :: 0 <= i < |r| ==> Settled(r[i])
  {
    seq(|people|, i requires 0 <= i < |people| => OutcomeOf(people[i]))
  }

  /** A loop that finished ended in death or error. */
  predicate Settled(o: Outcome) {
    o.Finished? ==> o.loop.entity.state == S100 || o.loop.entity.state == S99
  }

  /** The cohort loop over the outcomes: each finished entity is collected; the first loop
      that does not finish stops the cohort. */
  function CollectAll(outs: seq<Outcome>, res: Results): Cohort
    decreases |outs|
  {
    if |outs| == 0 then Done(res)
    else if outs[0].OutOfFuel? then Hung(res, |res.entities|)
    else CollectAll(outs[1..], Collect(res, outs[0].loop.entity))
  }

  function Simulate(people: seq<Person>, res: Results): Cohort
  {
    CollectAll(Outcomes(people), res)
  }

  /** Collecting an entity that ended keeps the lists aligned and its predecessors in place. */
  lemma CollectRule(res: Results, e: Entity, from: nat)
    requires e.state == S100 || e.state == S99
    ensures var r := Collect(res, e);
            && (Aligned(res) ==> Aligned(r))
            && r.entities[..|res.entities|] == res.entities
            && (EndedFrom(res, from) ==> EndedFrom(r, from))
  {
  }

  lemma EndedBefore(res: Results, k: nat)
    requires k < |res.entities| && EndedFrom(res, k + 1)
    requires res.entities[k].state == S100 || res.entities[k].state == S99
    ensures EndedFrom(res, k)
  {
  }

  /** The cohort loop grows the entity, resource and QALY lists by one aligned entry per
      finished entity, never writes the events list, and collects only entities that died or
      hit an error; a loop that does not finish stops the cohort at that entity's index. */
  lemma {:induction false} CollectAllRule(outs: seq<Outcome>, res: Results)
    requires forall i :: 0 <= i < |outs| ==> Settled(outs[i])
    ensures var r := CollectAll(outs, res);
            && (Aligned(res) ==> Aligned(r.results))
            && r.results.eventsList == res.eventsList
            && |res.entities| <= |r.results.entities| && r.results.entities[..|res.entities|] == res.entities
            && (r.Done? ==> |r.results.entities| == |res.entities| + |outs|)
            && (r.Hung? ==> r.index == |r.results.entities| < |res.entities| + |outs|)
            && (r.Hung? ==> outs[r.index - |res.entities|].OutOfFuel?)
            && (forall k :: 0 <= k < |r.results.entities| - |res.entities| ==>
                  outs[k].Finished? && r.results.entities[|res.entities| + k] == outs[k].loop.entity)
            && EndedFrom(r.results, |res.entities|)
    decreases |outs|
  {
    if |outs| > 0 && outs[0].Finished? {
      assert Settled(outs[0]);
      var res1 := Collect(res, outs[0].loop.entity);
      CollectRule(res, outs[0].loop.entity, |res.entities|);
      assert forall i :: 0 <= i < |outs[1..]| ==> Settled(outs[1..][i]) by {
        forall i | 0 <= i < |outs[1..]| ensures Settled(outs[1..][i]) {
          assert outs[1..][i] == outs[i + 1];
        }
      }
      CollectAllRule(outs[1..], res1);
      var r := CollectAll(outs[1..], res1);
      var k := |res.entities|;
      assert r.results.entities[..k] == res1.entities[..k];
      assert r.results.entities[k] == res1.entities[..k + 1][k];
      EndedBefore(r.results, k);
      forall j | 0 <= j < |r.results.entities| - k
        ensures outs[j].Finished? && r.results.entities[k + j] == outs[j].loop.entity
      {
        if j > 0 {
          assert outs[1..][j - 1] == outs[j];
          assert r.results.entities[|res1.entities| + (j - 1)] == outs[1..][j - 1].loop.entity;
        }
      }
    }
  }

  /** The cohort's result lists, from the sequencer's empty lists, hold one aligned entry per
      person, in the order of the people, up to the first loop that does not finish; entry
      `i` is the entity person `i`'s loop finished with; the events list stays empty. */
  lemma {:induction false} SimulateRule(people: seq<Person>)
    ensures var r := Simulate(people, Results([], [], [], []));
            && Aligned(r.results) && r.results.eventsList == []
            && (r.Done? ==> |r.results.entities| == |people|)
            && (r.Hung? ==> r.index == |r.results.entities| < |people| && OutcomeOf(people[r.index]).OutOfFuel?)
            && (forall i :: 0 <= i < |r.results.entities| ==>
                  OutcomeOf(people[i]).Finished? && r.results.entities[i] == OutcomeOf(people[i]).loop.entity)
            && EndedFrom(r.results, 0)
  {
    var outs, base := Outcomes(people), Results([], [], [], []);
    CollectAllRule(outs, base);
    CollectedFromEmpty(outs, base);
    CollectedInOrder(people, outs, CollectAll(outs, base));
  }

  /** From empty lists, the `k`-th collected entity is the `k`-th outcome's. */
  lemma CollectedFromEmpty(outs: seq<Outcome>, base: Results)
    requires |base.entities| == 0
    requires forall i :: 0 <= i < |outs| ==> Settled(outs[i])
    ensures var r := CollectAll(outs, base);
            && (r.Hung? ==> r.index < |outs| && outs[r.index].OutOfFuel?)
            && |r.results.entities| <= |outs|
            && forall k :: 0 <= k < |r.results.entities| ==>
                 outs[k].Finished? && r.results.entities[k] == outs[k].loop.entity
  {
    CollectAllRule(outs, base);
    var es := CollectAll(outs, base).results.entities;
    forall k | 0 <= k < |es| ensures outs[k].Finished? && es[k] == outs[k].loop.entity {
      assert es[|base.entities| + k] == es[k];
    }
  }

  /** Outcome `i` of the cohort is person `i`'s loop. */
  lemma OutcomesAt(people: seq<Person>, i: nat)
    requires i < |people|
    ensures Outcomes(people)[i] == OutcomeOf(people[i])
  {
  }

  /** Collected in the order of the outcomes means collected in the order of the people. */
  lemma CollectedInOrder(people: seq<Person>, outs: seq<Outcome>, r: Cohort)
    requires outs == Outcomes(people)
    requires r.Hung? ==> r.index < |outs| && outs[r.index].OutOfFuel?
    requires |r.results.entities| <= |outs|
    requires forall k :: 0 <= k < |r.results.entities| ==>
               outs[k].Finished? && r.results.entities[k] == outs[k].loop.entity
    ensures r.Hung? ==> r.index < |people| && OutcomeOf(people[r.index]).OutOfFuel?
    ensures forall i :: 0 <= i < |r.results.entities| ==>
              OutcomeOf(people[i]).Finished? && r.results.entities[i] == OutcomeOf(people[i]).loop.entity
  {
    if r.Hung? {
      OutcomesAt(people, r.index);
    }
    forall i | 0 <= i < |r.results.entities|
      ensures OutcomeOf(people[i]).Finished? && r.results.entities[i] == OutcomeOf(people[i]).loop.entity
    {
      OutcomesAt(people, i);
    }
  }
}
