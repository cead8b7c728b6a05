/**
 What happens without causal delivery: a queued unit may be found without a ready bundle, contrary to the remark
 beside GetNext, and then the unit is never queued again and the worker never used again.
 */
module StuckBundles {
  import opened Bundles
  import opened Conflation
  import opened ConflationLaws
  import opened Tables
  import opened Diffs
  import opened System
  import opened SystemSafety
  import opened SystemRuns
  import opened SystemHistory

  /** A unit that is flagged, but is not on its way to any worker. */
  ghost predicate LostUnit(s: State, hub: string) {
    hub in s.units && s.units[hub].inReadyQueue && hub !in s.queue && HeldHub(s.dispatcher) != Some(hub)
  }

  /** A worker that waits for a job, but is not in the pool. */
  ghost predicate LostWorker(s: State, w: nat) {
    w < |s.workers| && Free(s.workers[w]) && w !in s.pool && HeldWorker(s.dispatcher) != Some(w)
  }

  /** A fetch strands its unit and its worker if and only if no bundle of the unit is ready; otherwise neither. */
  lemma FetchStrandsExactly(setup: Setup, s: State)
    requires Inv(setup, s) && Enabled(setup, s, Fetch)
    ensures var s', d := Next(setup, s, Fetch), s.dispatcher;
      && UnitInv(setup.cfg, UnitOf(setup.cfg, s.units, d.hub))
      && var stuck := FirstReady(setup.cfg, UnitOf(setup.cfg, s.units, d.hub).elements, 0).None?;
         && (LostUnit(s', d.hub) <==> stuck)
         && (LostWorker(s', d.worker) <==> stuck)
         && (s'.dispatcher.Handing? <==> !stuck)
  {
    hide HubsOk, JobsOk, DbOk, Serial, Ordered, WellFormed, NewUnit, ElementOk, SingleFlight, AnyInProcess, FirstReady,
      GetNext;
    HeldUnit(setup, s);
    GetNextKeepsHub(setup.cfg, UnitOf(setup.cfg, s.units, s.dispatcher.hub), s.dispatcher.hub, s.received, s.history);
    FetchNoneExactly(setup.cfg, UnitOf(setup.cfg, s.units, s.dispatcher.hub));
  }

  lemma FetchNoneExactly(cfg: Config, u: Unit)
    requires WellFormed(cfg) && Consistent(cfg, u)
    ensures GetNext(cfg, u).1.None? <==> FirstReady(cfg, u.elements, 0).None?
  {
  }

  lemma InsertKeepsFlag(cfg: Config, u: Unit, b: Bundle, token: int)
    requires UnitInv(cfg, u) && b.bundleType in cfg.priorityOf && u.inReadyQueue
    ensures Conflation.Insert(cfg, u, b, token).inReadyQueue
  {
    InsertKeepsInv(cfg, u, b, token);
  }

  /** Nothing brings a lost unit back: not a new bundle, not even the one that was missing. */
  lemma LostUnitStaysLost(setup: Setup, s: State, step: Step, hub: string)
    requires Inv(setup, s) && Enabled(setup, s, step) && LostUnit(s, hub)
    ensures LostUnit(Next(setup, s, step), hub)
  {
    hide HubsOk, WorkersOk, JobsOk, DbOk, Serial, Ordered, WellFormed, NewUnit, ElementOk, SingleFlight, AnyInProcess,
      FirstReady, GetNext, Conflation.Insert, Conflation.Report, ApplyOp, Diff, InFlight;
    match step
    case Insert(b, token) =>
      EnabledUnit(setup, s, b.hub);
      if b.hub == hub { InsertKeepsFlag(setup.cfg, s.units[hub], b, token); }
    case Report(w, ok) =>
      EnabledJob(setup, s, w);
      InFlightIsBusy(setup.cfg, UnitOf(setup.cfg, s.units, s.workers[w].pc.job.hub), s.workers[w].pc.job.fetched);
    case _ =>
  }

  lemma LostWorkerStaysLost(setup: Setup, s: State, step: Step, w: nat)
    requires Inv(setup, s) && Enabled(setup, s, step) && LostWorker(s, w)
    ensures LostWorker(Next(setup, s, step), w)
  {
    hide HubsOk, QueueOk, JobsOk, DbOk, Serial, Ordered, WellFormed, NewUnit, GetNext, Conflation.Insert, Conflation.Report,
      ApplyOp, Diff;
  }

  /** No bundle of a lost unit is ever handled again, whatever arrives, and its worker never handles one. */
  lemma {:induction false} LostForever(setup: Setup, s: State, steps: seq<Step>, hub: string, w: nat)
    requires Inv(setup, s) && ValidRun(setup, s, steps) && LostUnit(s, hub) && LostWorker(s, w)
    ensures LostUnit(Run(setup, s, steps), hub) && LostWorker(Run(setup, s, steps), w)
    ensures forall x :: !HasJobOf(Run(setup, s, steps).dispatcher, Run(setup, s, steps).workers, x, hub)
    ensures forall t :: MaxOk(Run(setup, s, steps).history, hub, t) == MaxOk(s.history, hub, t)
    decreases |steps|
  {
    hide Inv, Enabled, Next, LostUnit, LostWorker, MaxOk;
    if steps == [] {
      LostUnitHasNoJob(setup, s, hub);
    } else {
      StepKeepsInv(setup, s, steps[0]);
      LostUnitStaysLost(setup, s, steps[0], hub);
      LostWorkerStaysLost(setup, s, steps[0], w);
      LostUnitHandlesNothing(setup, s, steps[0], hub);
      LostForever(setup, Next(setup, s, steps[0]), steps[1..], hub, w);
    }
  }

  lemma LostUnitHasNoJob(setup: Setup, s: State, hub: string)
    requires Inv(setup, s) && LostUnit(s, hub)
    ensures forall x :: !HasJobOf(s.dispatcher, s.workers, x, hub)
  {
    hide HubsOk, QueueOk, WorkersOk, DbOk, Serial, Ordered, WellFormed, InFlight, ElementOk, SingleFlight, FirstReady,
      AnyInProcess;
    forall x | JobAt(s.dispatcher, s.workers, x).Some? ensures !HasJobOf(s.dispatcher, s.workers, x, hub) {
      var job := JobAt(s.dispatcher, s.workers, x).value;
      InFlightIsBusy(setup.cfg, UnitOf(setup.cfg, s.units, job.hub), job.fetched);
    }
  }

  lemma LostUnitHandlesNothing(setup: Setup, s: State, step: Step, hub: string)
    requires Inv(setup, s) && Enabled(setup, s, step) && LostUnit(s, hub)
    ensures forall t :: MaxOk(Next(setup, s, step).history, hub, t) == MaxOk(s.history, hub, t)
  {
    hide HubsOk, QueueOk, WorkersOk, JobsOk, DbOk, Serial, Ordered, WellFormed, NewUnit, GetNext, Conflation.Insert,
      Conflation.Report, ApplyOp, Diff, MaxOk, LostUnit, HasJobOf;
    if step.Report? {
      OnlyHandler(setup, s, step.worker);
      LostUnitHasNoJob(setup, s, hub);
      var pc := s.workers[step.worker].pc;
      OtherJob(s, step.worker, hub);
      forall t { DoneMore(s.history, Attempt(pc.job.fetched.bundle, Executed(pc), step.ok), hub, t); }
    }
  }

  lemma OtherJob(s: State, w: nat, hub: string)
    requires JobAt(s.dispatcher, s.workers, OfWorker(w)).Some?
    requires !HasJobOf(s.dispatcher, s.workers, OfWorker(w), hub)
    ensures JobAt(s.dispatcher, s.workers, OfWorker(w)).value.hub != hub
  {
  }

  // ---------------------------------------------------------------- who strands a unit

  /** A flagged unit has a ready bundle and is on its way to a worker. */
  ghost predicate OnItsWay(cfg: Config, s: State, hub: string) {
    var u := UnitOf(cfg, s.units, hub);
    u.inReadyQueue ==>
      && WellFormed(cfg) && |u.elements| == |cfg.slots| && SomeReady(cfg, u.elements)
      && (hub in s.queue || HeldHub(s.dispatcher) == Some(hub))
  }

  /**
   An arrival for a unit that is queued or held, which replaces its only ready bundle, or joins none, with one that
   depends on a generation not processed yet.
   */
  ghost predicate Unreadies(setup: Setup, s: State, step: Step, hub: string)
    requires Inv(setup, s) && Enabled(setup, s, step)
  {
    step.Insert? && step.bundle.hub == hub &&
    (EnabledUnit(setup, s, hub);
     var u, p := UnitOf(setup.cfg, s.units, hub), setup.cfg.priorityOf[step.bundle.bundleType];
     && u.inReadyQueue
     && Accepts(u.elements[p], step.bundle)
     && !DependencyMet(setup.cfg, u.elements, p, step.bundle)
     && forall q: nat | q < |u.elements| && q != p :: !Ready(setup.cfg, u.elements, q))
  }

  lemma ArrivalKeepsReady(cfg: Config, u: Unit, b: Bundle, token: int)
    requires UnitInv(cfg, u) && b.bundleType in cfg.priorityOf
    requires u.inReadyQueue ==> SomeReady(cfg, u.elements)
    requires var p := cfg.priorityOf[b.bundleType];
      u.inReadyQueue ==>
        || !Accepts(u.elements[p], b)
        || DependencyMet(cfg, u.elements, p, b)
        || exists q: nat :: q < |u.elements| && q != p && Ready(cfg, u.elements, q)
    ensures var v := Conflation.Insert(cfg, u, b, token);
      |v.elements| == |cfg.slots| && (v.inReadyQueue ==> SomeReady(cfg, v.elements))
  {
    hide WellFormed, Ready, SomeReady;
    InsertAnnounces(cfg, u, b, token);
    FirstReadyIsSome(cfg, u.elements);
    FirstReadyIsSome(cfg, Conflation.Insert(cfg, u, b, token).elements);
    if u.inReadyQueue {
      QueuedStaysReadyExact(cfg, u, b, token);
    }
  }

  lemma ArrivalKeepsOnItsWay(setup: Setup, s: State, b: Bundle, token: int, hub: string)
    requires Inv(setup, s) && Enabled(setup, s, Step.Insert(b, token)) && OnItsWay(setup.cfg, s, hub)
    requires !Unreadies(setup, s, Step.Insert(b, token), hub)
    ensures OnItsWay(setup.cfg, Next(setup, s, Step.Insert(b, token)), hub)
  {
    hide HubsOk, QueueOk, WorkersOk, JobsOk, DbOk, Serial, Ordered, WellFormed, NewUnit, ElementOk, SingleFlight,
      AnyInProcess, FirstReady, Conflation.Insert, Ready, SomeReady;
    EnabledUnit(setup, s, b.hub);
    if b.hub == hub {
      ArrivalKeepsReady(setup.cfg, UnitOf(setup.cfg, s.units, hub), b, token);
    }
  }

  lemma FetchKeepsOnItsWay(setup: Setup, s: State, hub: string)
    requires Inv(setup, s) && Enabled(setup, s, Fetch) && OnItsWay(setup.cfg, s, hub)
    ensures OnItsWay(setup.cfg, Next(setup, s, Fetch), hub)
  {
    hide HubsOk, QueueOk, WorkersOk, JobsOk, DbOk, Serial, Ordered, WellFormed, NewUnit, ElementOk, SingleFlight,
      AnyInProcess, FirstReady, GetNext, Ready, SomeReady;
    HeldUnit(setup, s);
    var u := UnitOf(setup.cfg, s.units, s.dispatcher.hub);
    GetNextTakesLowest(setup.cfg, u);
    if hub == s.dispatcher.hub {
      assert GetNext(setup.cfg, u).1.Some?;
      assert !GetNext(setup.cfg, u).0.inReadyQueue;
    } else {
      assert UnitOf(setup.cfg, Next(setup, s, Fetch).units, hub) == UnitOf(setup.cfg, s.units, hub);
    }
  }

  lemma ReportKeepsOnItsWay(setup: Setup, s: State, w: nat, ok: bool, hub: string)
    requires Inv(setup, s) && Enabled(setup, s, Step.Report(w, ok)) && OnItsWay(setup.cfg, s, hub)
    ensures OnItsWay(setup.cfg, Next(setup, s, Step.Report(w, ok)), hub)
  {
    hide HubsOk, QueueOk, WorkersOk, JobsOk, DbOk, Serial, Ordered, NewUnit, ElementOk, SingleFlight, AnyInProcess,
      FirstReady, Conflation.Report, Ready, SomeReady;
    EnabledJob(setup, s, w);
    var job := s.workers[w].pc.job;
    var u := UnitOf(setup.cfg, s.units, job.hub);
    InFlightIsBusy(setup.cfg, u, job.fetched);
    ReportAnnounces(setup.cfg, u, job.fetched, ok);
  }

  lemma MoveKeepsOnItsWay(setup: Setup, s: State, step: Step, hub: string)
    requires Inv(setup, s) && Enabled(setup, s, step) && OnItsWay(setup.cfg, s, hub)
    requires !step.Insert? && !step.Fetch? && !step.Report?
    ensures OnItsWay(setup.cfg, Next(setup, s, step), hub)
  {
    hide HubsOk, QueueOk, WorkersOk, JobsOk, DbOk, Serial, Ordered, WellFormed, NewUnit, SomeReady, ApplyOp, Diff;
    if step.Dequeue? {
      assert s.queue == [s.queue[0]] + s.queue[1..];
    }
  }

  /** Only such an arrival can take the ready bundle, or the way, from a flagged unit. */
  lemma StepKeepsOnItsWay(setup: Setup, s: State, step: Step, hub: string)
    requires Inv(setup, s) && Enabled(setup, s, step) && OnItsWay(setup.cfg, s, hub)
    requires !Unreadies(setup, s, step, hub)
    ensures OnItsWay(setup.cfg, Next(setup, s, step), hub)
  {
    hide Inv, Next, OnItsWay, Unreadies, Enabled;
    match step
    case Insert(b, token) => ArrivalKeepsOnItsWay(setup, s, b, token, hub);
    case Fetch => FetchKeepsOnItsWay(setup, s, hub);
    case Report(w, ok) => ReportKeepsOnItsWay(setup, s, w, ok, hub);
    case _ => MoveKeepsOnItsWay(setup, s, step, hub);
  }

  ghost predicate UnreadiedDuring(setup: Setup, s: State, steps: seq<Step>, hub: string)
    requires Inv(setup, s) && ValidRun(setup, s, steps)
    decreases |steps|
  {
    steps != [] &&
    (|| Unreadies(setup, s, steps[0], hub)
     || (StepKeepsInv(setup, s, steps[0]); UnreadiedDuring(setup, Next(setup, s, steps[0]), steps[1..], hub)))
  }

  lemma {:induction false} LostByAnArrival(setup: Setup, s: State, steps: seq<Step>, hub: string)
    requires Inv(setup, s) && ValidRun(setup, s, steps) && OnItsWay(setup.cfg, s, hub)
    ensures UnreadiedDuring(setup, s, steps, hub) || OnItsWay(setup.cfg, Run(setup, s, steps), hub)
    decreases |steps|
  {
    hide Inv, Enabled, Next, OnItsWay, Unreadies;
    if steps != [] && !Unreadies(setup, s, steps[0], hub) {
      StepKeepsInv(setup, s, steps[0]);
      StepKeepsOnItsWay(setup, s, steps[0], hub);
      LostByAnArrival(setup, Next(setup, s, steps[0]), steps[1..], hub);
    }
  }

  /**
   A run from the start that strands a unit contains an arrival that broke, while the unit was queued or held, the
   condition under which its flag stays true.
   */
  lemma StrandedByAnArrival(setup: Setup, steps: seq<Step>, hub: string)
    requires WellFormed(setup.cfg) && RunFromStart(setup, steps) && LostUnit(Reached(setup, steps), hub)
    ensures Inv(setup, Init(setup)) && UnreadiedDuring(setup, Init(setup), steps, hub)
  {
    hide Inv, ValidRun, UnreadiedDuring, Run, SomeReady;
    InitInv(setup);
    LostByAnArrival(setup, Init(setup), steps, hub);
  }

  /** Every step that puts a unit in the ready queue puts one with a ready bundle there. */
  lemma QueuedWithReadyBundle(setup: Setup, s: State, step: Step, hub: string)
    requires Inv(setup, s) && Enabled(setup, s, step)
    requires hub !in s.queue && hub in Next(setup, s, step).queue
    ensures var u := UnitOf(setup.cfg, Next(setup, s, step).units, hub);
            |u.elements| == |setup.cfg.slots| && SomeReady(setup.cfg, u.elements)
  {
    hide HubsOk, QueueOk, WorkersOk, JobsOk, DbOk, Serial, Ordered, NewUnit, ElementOk, SingleFlight, AnyInProcess,
      FirstReady, Conflation.Insert, Conflation.Report, GetNext, Ready, SomeReady, Diff, ApplyOp;
    match step
    case Insert(b, token) =>
      EnabledUnit(setup, s, b.hub);
      InsertAnnounces(setup.cfg, UnitOf(setup.cfg, s.units, b.hub), b, token);
    case Report(w, ok) =>
      EnabledJob(setup, s, w);
      var job := s.workers[w].pc.job;
      ReportAnnounces(setup.cfg, UnitOf(setup.cfg, s.units, job.hub), job.fetched, ok);
    case _ =>
  }

  // ---------------------------------------------------------------- the types of this program

  const MANAGED_CLUSTERS_TYPE := "ManagedClustersStatusBundle"
  const CLUSTERS_PER_POLICY_TYPE := "ClustersPerPolicyBundle"
  const COMPLIANCE_STATUS_TYPE := "ComplianceStatusBundle"
  const MINIMAL_COMPLIANCE_TYPE := "MinimalComplianceStatusBundle"

  /** The four registrations: compliance depends on clusters per policy. */
  const REGISTERED: Config := Config(
    [Slot(MANAGED_CLUSTERS_TYPE, None), Slot(CLUSTERS_PER_POLICY_TYPE, None),
     Slot(COMPLIANCE_STATUS_TYPE, Some(CLUSTERS_PER_POLICY_TYPE)), Slot(MINIMAL_COMPLIANCE_TYPE, None)],
    map[MANAGED_CLUSTERS_TYPE := 0, CLUSTERS_PER_POLICY_TYPE := 1, COMPLIANCE_STATUS_TYPE := 2, MINIMAL_COMPLIANCE_TYPE := 3])

  /**
   By name: managed clusters come first, then clusters per policy, compliance and minimal compliance; compliance depends
   on clusters per policy, and nothing else depends on anything.
   */
  lemma RegisteredTypes()
    ensures WellFormed(REGISTERED) && |REGISTERED.slots| == 4
    ensures REGISTERED.priorityOf == map["ManagedClustersStatusBundle" := 0, "ClustersPerPolicyBundle" := 1,
                                         "ComplianceStatusBundle" := 2, "MinimalComplianceStatusBundle" := 3]
    ensures forall t | t in REGISTERED.priorityOf ::
              REGISTERED.slots[REGISTERED.priorityOf[t]] ==
              Slot(t, if t == "ComplianceStatusBundle" then Some("ClustersPerPolicyBundle") else None)
    ensures forall p | 0 <= p < 4 :: DependencyOf(REGISTERED, p) == if p == 2 then Some(1) else None
  {
    TypesDiffer();
    assert IsRank(REGISTERED, [0, 0, 1, 0]);
  }

  /** In every run over these types, a compliance bundle is handled only after the placements it is based on. */
  lemma ComplianceAfterPlacements(setup: Setup, s: State, j: nat) returns (i: nat)
    requires Inv(setup, s) && setup.cfg == REGISTERED && j < |s.history|
    requires s.history[j].bundle.bundleType == "ComplianceStatusBundle"
    requires s.history[j].bundle.dependencyGeneration.Some? && s.history[j].bundle.dependencyGeneration.value > 0
    ensures i < j && s.history[i].ok && s.history[i].bundle.hub == s.history[j].bundle.hub
    ensures s.history[i].bundle.bundleType == "ClustersPerPolicyBundle"
    ensures s.history[i].bundle.generation >= s.history[j].bundle.dependencyGeneration.value
  {
    hide HubsOk, QueueOk, WorkersOk, JobsOk, DbOk, Serial, Ordered;
    RegisteredTypes();
    i := DependencyFirst(REGISTERED, s.history, j);
  }

  lemma TypesDiffer()
    ensures MANAGED_CLUSTERS_TYPE != CLUSTERS_PER_POLICY_TYPE && MANAGED_CLUSTERS_TYPE != COMPLIANCE_STATUS_TYPE
    ensures MANAGED_CLUSTERS_TYPE != MINIMAL_COMPLIANCE_TYPE && CLUSTERS_PER_POLICY_TYPE != COMPLIANCE_STATUS_TYPE
    ensures CLUSTERS_PER_POLICY_TYPE != MINIMAL_COMPLIANCE_TYPE && COMPLIANCE_STATUS_TYPE != MINIMAL_COMPLIANCE_TYPE
  {
    assert MANAGED_CLUSTERS_TYPE[1] == 'a' && CLUSTERS_PER_POLICY_TYPE[1] == 'l' && COMPLIANCE_STATUS_TYPE[1] == 'o'
      && MINIMAL_COMPLIANCE_TYPE[1] == 'i';
  }

  // ---------------------------------------------------------------- a run that strands a unit

  function Compliance(hub: string, generation: nat, base: nat): Bundle {
    Bundle(COMPLIANCE_STATUS_TYPE, hub, generation, Some(base), ComplianceStatus([]))
  }

  /** Two compliance bundles arrive, the second one ahead of the placement bundle it depends on. */
  function StrandingRun(hub: string): seq<Step> {
    [Register(0), Step.Insert(Compliance(hub, 1, 0), 0), Step.Insert(Compliance(hub, 2, 1), 0), Dequeue, Acquire, Fetch]
  }

  function UnitOnce(hub: string): Unit
    requires WellFormed(REGISTERED)
  {
    Conflation.Insert(REGISTERED, NewUnit(REGISTERED), Compliance(hub, 1, 0), 0)
  }

  function UnitTwice(hub: string): Unit
    requires WellFormed(REGISTERED)
  {
    Conflation.Insert(REGISTERED, UnitOnce(hub), Compliance(hub, 2, 1), 0)
  }

  /** The first bundle is ready and gets the unit queued, the second replaces it and is not. */
  lemma ReadyThenNot(hub: string)
    requires WellFormed(REGISTERED)
    ensures UnitOnce(hub).inReadyQueue && UnitTwice(hub).inReadyQueue
    ensures UnitInv(REGISTERED, UnitTwice(hub)) && FirstReady(REGISTERED, UnitTwice(hub).elements, 0).None?
  {
    RegisteredTypes();
    TypesDiffer();
    NewUnitInv(REGISTERED);
    var u, b1, b2 := NewUnit(REGISTERED), Compliance(hub, 1, 0), Compliance(hub, 2, 1);
    var v := Store(u, 2, b1, 0);
    IdleReady(REGISTERED, v.elements, 2);
    assert Ready(REGISTERED, v.elements, 2);
    InsertKeepsInv(REGISTERED, u, b1, 0);
    InsertKeepsInv(REGISTERED, UnitOnce(hub), b2, 0);
    var w := UnitTwice(hub);
    assert w.elements[2].bundle == Some(b2);
    forall p | 0 <= p < 4 ensures !Ready(REGISTERED, w.elements, p) {
      IdleReady(REGISTERED, w.elements, p);
    }
  }

  ghost function Stranding(): Setup {
    Setup(REGISTERED, 1, map[])
  }

  /** Where the run is: everything a step depends on. */
  ghost predicate At(s: State, units: map<string, Unit>, queue: seq<string>, d: Dispatcher, pool: seq<nat>) {
    s.units == units && s.queue == queue && s.dispatcher == d && s.pool == pool && s.workers == [Worker(Waiting, [])]
  }

  lemma Registers(s: State)
    requires Inv(Stranding(), s) && s == Init(Stranding())
    ensures Enabled(Stranding(), s, Register(0)) && At(Next(Stranding(), s, Register(0)), map[], [], Dequeuing, [0])
  {
  }

  lemma Inserts(s: State, hub: string)
    requires Inv(Stranding(), s)
    ensures At(s, map[], [], Dequeuing, [0]) ==>
              && Enabled(Stranding(), s, Step.Insert(Compliance(hub, 1, 0), 0))
              && At(Next(Stranding(), s, Step.Insert(Compliance(hub, 1, 0), 0)),
                    map[hub := UnitOnce(hub)], [hub], Dequeuing, [0])
    ensures At(s, map[hub := UnitOnce(hub)], [hub], Dequeuing, [0]) ==>
              && Enabled(Stranding(), s, Step.Insert(Compliance(hub, 2, 1), 0))
              && At(Next(Stranding(), s, Step.Insert(Compliance(hub, 2, 1), 0)),
                    map[hub := UnitTwice(hub)], [hub], Dequeuing, [0])
  {
    hide FirstReady, HubsOk, QueueOk, WorkersOk, JobsOk, DbOk, Serial, Ordered, Conflation.Insert;
    ReadyThenNot(hub);
    TypesDiffer();
  }

  lemma Dispatches(s: State, hub: string, u: Unit)
    requires Inv(Stranding(), s)
    ensures At(s, map[hub := u], [hub], Dequeuing, [0]) ==>
              Enabled(Stranding(), s, Dequeue) && At(Next(Stranding(), s, Dequeue), map[hub := u], [], Acquiring(hub), [0])
    ensures At(s, map[hub := u], [], Acquiring(hub), [0]) ==>
              Enabled(Stranding(), s, Acquire) && At(Next(Stranding(), s, Acquire), map[hub := u], [], Fetching(hub, 0), [])
  {
    hide FirstReady, HubsOk, QueueOk, WorkersOk, JobsOk, DbOk, Serial, Ordered, WellFormed;
  }

  /** The run is possible, and strands the unit together with the only worker. */
  lemma StrandingRunStrands(hub: string)
    ensures Inv(Stranding(), Init(Stranding())) && ValidRun(Stranding(), Init(Stranding()), StrandingRun(hub))
    ensures var s := Run(Stranding(), Init(Stranding()), StrandingRun(hub));
            LostUnit(s, hub) && LostWorker(s, 0)
  {
    hide WellFormed, UnitOnce, UnitTwice, FirstReady, NewUnit, HubsOk, QueueOk, WorkersOk, JobsOk, DbOk, Serial, Ordered,
      LostUnit, LostWorker, Next, Enabled, Compliance;
    RegisteredTypes();
    ReadyThenNot(hub);
    var setup, run, u := Stranding(), StrandingRun(hub), UnitTwice(hub);
    InitInv(setup);
    var s0 := Init(setup);
    Registers(s0);
    RunStep(setup, s0, run);
    var s1 := Next(setup, s0, run[0]);
    Inserts(s1, hub);
    RunStep(setup, s1, run[1..]);
    var s2 := Next(setup, s1, run[1]);
    Inserts(s2, hub);
    RunStep(setup, s2, run[1..][1..]);
    var s3 := Next(setup, s2, run[2]);
    Dispatches(s3, hub, u);
    RunStep(setup, s3, run[1..][1..][1..]);
    var s4 := Next(setup, s3, Dequeue);
    Dispatches(s4, hub, u);
    RunStep(setup, s4, run[1..][1..][1..][1..]);
    var s5 := Next(setup, s4, Acquire);
    FetchIsNext(s5);
    FetchStrandsExactly(setup, s5);
    RunStep(setup, s5, run[1..][1..][1..][1..][1..]);
    assert run[1..][1..][1..][1..][1..][1..] == [];
  }

  lemma FetchIsNext(s: State)
    ensures s.dispatcher.Fetching? ==> Enabled(Stranding(), s, Fetch)
  {
  }

  lemma RunStep(setup: Setup, s: State, steps: seq<Step>)
    requires Inv(setup, s) && steps != [] && Enabled(setup, s, steps[0])
    ensures Inv(setup, Next(setup, s, steps[0]))
    ensures ValidRun(setup, s, steps) <==> ValidRun(setup, Next(setup, s, steps[0]), steps[1..])
    ensures ValidRun(setup, s, steps) ==> Run(setup, s, steps) == Run(setup, Next(setup, s, steps[0]), steps[1..])
  {
    StepKeepsInv(setup, s, steps[0]);
  }
}
