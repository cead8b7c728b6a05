/** Under causal delivery nothing gets stuck: every unit and every worker is always in exactly one place. */
module SystemLiveness {
  import opened Bundles
  import opened Conflation
  import opened Tables
  import opened Diffs
  import opened System
  import opened SystemSafety
  import opened SystemRuns

  // ---------------------------------------------------------------- invariant

  /** A unit whose pending bundles were causally delivered, and which is flagged only if it has one. */
  ghost predicate CausalUnit(cfg: Config, u: Unit) {
    UnitInv(cfg, u) && CausallyClosed(cfg, u.elements) && (u.inReadyQueue ==> AnyPending(u.elements))
  }

  ghost predicate CausalUnits(cfg: Config, units: map<string, Unit>) {
    forall h :: CausalUnit(cfg, UnitOf(cfg, units, h))
  }

  /** Every flagged unit is on its way to a worker. */
  ghost predicate NoLostUnit(units: map<string, Unit>, queue: seq<string>, held: Option<string>) {
    forall h | h in units && units[h].inReadyQueue :: h in queue || held == Some(h)
  }

  /** Every free worker can be acquired, or was. */
  ghost predicate NoLostWorker(workers: seq<Worker>, pool: seq<nat>, held: Option<nat>) {
    forall w | 0 <= w < |workers| && Free(workers[w]) :: w in pool || held == Some(w)
  }

  ghost predicate CausalInv(setup: Setup, s: State) {
    && Inv(setup, s)
    && CausalUnits(setup.cfg, s.units)
    && NoLostUnit(s.units, s.queue, HeldHub(s.dispatcher))
    && NoLostWorker(s.workers, s.pool, HeldWorker(s.dispatcher))
  }

  /** A bundle arrives after what it depends on, or is refused as old. */
  ghost predicate CausalStep(setup: Setup, s: State, step: Step)
    requires Inv(setup, s) && Enabled(setup, s, step)
  {
    step.Insert? ==>
      (EnabledUnit(setup, s, step.bundle.hub);
       CausalArrival(setup.cfg, UnitOf(setup.cfg, s.units, step.bundle.hub), step.bundle))
  }

  predicate CausalArrival(cfg: Config, u: Unit, b: Bundle)
    requires WellFormed(cfg) && |u.elements| == |cfg.slots| && b.bundleType in cfg.priorityOf
  {
    !Accepts(u.elements[cfg.priorityOf[b.bundleType]], b) || Causal(cfg, u.elements, b)
  }

  // ---------------------------------------------------------------- what each operation keeps

  lemma InsertKeepsCausal(cfg: Config, u: Unit, b: Bundle, token: int)
    requires CausalUnit(cfg, u) && b.bundleType in cfg.priorityOf && CausalArrival(cfg, u, b)
    ensures CausalUnit(cfg, Conflation.Insert(cfg, u, b, token))
  {
    hide WellFormed, CausallyClosed;
    InsertKeepsInv(cfg, u, b, token);
    CausalInsertExact(cfg, u, b, token);
    InsertChanges(cfg, u, b, token);
    FlaggedHasBundle(cfg, u, b, token);
  }

  lemma FlaggedHasBundle(cfg: Config, u: Unit, b: Bundle, token: int)
    requires CausalUnit(cfg, u) && b.bundleType in cfg.priorityOf
    ensures Conflation.Insert(cfg, u, b, token).inReadyQueue ==> AnyPending(Conflation.Insert(cfg, u, b, token).elements)
  {
    var p := cfg.priorityOf[b.bundleType];
    if Accepts(u.elements[p], b) {
      assert Conflation.Insert(cfg, u, b, token).elements[p].bundle.Some?;
    }
  }

  lemma GetNextKeepsCausal(cfg: Config, u: Unit)
    requires CausalUnit(cfg, u) && u.inReadyQueue
    ensures GetNext(cfg, u).1.Some? && CausalUnit(cfg, GetNext(cfg, u).0) && !GetNext(cfg, u).0.inReadyQueue
  {
    NoStuckBundle(cfg, u);
    GetNextKeepsInv(cfg, u);
    var v := GetNext(cfg, u).0;
    assert forall i | 0 <= i < |u.elements| ::
        v.elements[i].bundle == u.elements[i].bundle && Known(v.elements[i]) == Known(u.elements[i]);
    SameKnownKeepsClosed(cfg, u.elements, v.elements);
  }

  lemma SameKnownKeepsClosed(cfg: Config, els: seq<Element>, els': seq<Element>)
    requires WellFormed(cfg) && |els| == |els'| == |cfg.slots| && CausallyClosed(cfg, els)
    requires forall i | 0 <= i < |els| :: els'[i].bundle.Some? ==> els'[i].bundle == els[i].bundle
    requires forall i | 0 <= i < |els| :: Known(els'[i]) == Known(els[i])
    ensures CausallyClosed(cfg, els')
  {
    forall p | 0 <= p < |els'| && els'[p].bundle.Some?
      ensures els'[p].bundle.value.bundleType in cfg.priorityOf && Causal(cfg, els', els'[p].bundle.value)
    {
      assert Causal(cfg, els, els[p].bundle.value);
    }
  }

  lemma ReportKeepsCausal(cfg: Config, u: Unit, f: Fetched, ok: bool)
    requires CausalUnit(cfg, u) && InFlight(cfg, u, f)
    ensures CausalUnit(cfg, Conflation.Report(cfg, u, f.metadata, ok))
  {
    hide WellFormed, CausallyClosed, AnyInProcess;
    ReportKeepsInv(cfg, u, f, ok);
    ReportOutcome(cfg, u, f, ok);
    var p, v := cfg.priorityOf[f.metadata.bundleType], Conflation.Report(cfg, u, f.metadata, ok);
    assert forall i | 0 <= i < |u.elements| && i != p :: v.elements[i] == u.elements[i];
    SameKnownKeepsClosed(cfg, u.elements, v.elements);
    InFlightIsBusy(cfg, u, f);
    AnnouncedHasBundle(cfg, u.(elements := v.elements));
  }

  lemma AnnouncedHasBundle(cfg: Config, u: Unit)
    requires WellFormed(cfg) && |u.elements| == |cfg.slots| && !u.inReadyQueue
    ensures AddToReadyQueueIfNeeded(cfg, u).inReadyQueue ==> AnyPending(u.elements)
  {
    var p := FirstReady(cfg, u.elements, 0);
    if p.Some? { assert u.elements[p.value].bundle.Some?; }
  }

  // ---------------------------------------------------------------- steps

  lemma CausalUnitAt(setup: Setup, s: State, hub: string)
    requires CausalInv(setup, s)
    ensures CausalUnit(setup.cfg, UnitOf(setup.cfg, s.units, hub))
  {
  }

  lemma OneUnitChanged(cfg: Config, units: map<string, Unit>, hub: string, v: Unit)
    requires CausalUnits(cfg, units) && CausalUnit(cfg, v)
    ensures CausalUnits(cfg, units[hub := v])
  {
    hide CausalUnit, NewUnit;
    var units' := units[hub := v];
    forall h ensures CausalUnit(cfg, UnitOf(cfg, units', h)) {
      assert CausalUnit(cfg, UnitOf(cfg, units, h));
    }
  }

  lemma AnnounceLosesNoUnit(
    cfg: Config, units: map<string, Unit>, queue: seq<string>, held: Option<string>, hub: string, v: Unit)
    requires NoLostUnit(units, queue, held)
    ensures NoLostUnit(units[hub := v], Announce(queue, hub, UnitOf(cfg, units, hub), v), held)
  {
  }

  lemma InitCausalInv(setup: Setup)
    requires WellFormed(setup.cfg)
    ensures CausalInv(setup, Init(setup))
  {
    InitInv(setup);
    NewUnitInv(setup.cfg);
  }

  lemma InsertStepCausal(setup: Setup, s: State, b: Bundle, token: int)
    requires CausalInv(setup, s) && Enabled(setup, s, Step.Insert(b, token)) && CausalStep(setup, s, Step.Insert(b, token))
    ensures CausalInv(setup, Next(setup, s, Step.Insert(b, token)))
  {
    hide HubsOk, QueueOk, WorkersOk, JobsOk, DbOk, Serial, Ordered, WellFormed, Conflation.Insert, NewUnit, CausalUnits,
      NoLostUnit, NoLostWorker;
    InsertStep(setup, s, b, token);
    EnabledUnit(setup, s, b.hub);
    CausalUnitAt(setup, s, b.hub);
    var u := UnitOf(setup.cfg, s.units, b.hub);
    InsertKeepsCausal(setup.cfg, u, b, token);
    var v := Conflation.Insert(setup.cfg, u, b, token);
    OneUnitChanged(setup.cfg, s.units, b.hub, v);
    AnnounceLosesNoUnit(setup.cfg, s.units, s.queue, HeldHub(s.dispatcher), b.hub, v);
  }

  lemma FetchStepCausal(setup: Setup, s: State)
    requires CausalInv(setup, s) && Enabled(setup, s, Fetch)
    ensures CausalInv(setup, Next(setup, s, Fetch)) && Next(setup, s, Fetch).dispatcher.Handing?
  {
    hide HubsOk, QueueOk, WorkersOk, JobsOk, DbOk, Serial, Ordered, WellFormed, GetNext, NewUnit, ElementOk, SingleFlight,
      FirstReady, AnyInProcess, CausallyClosed, AnyPending, CausalUnits;
    FetchStep(setup, s);
    HeldUnit(setup, s);
    CausalUnitAt(setup, s, s.dispatcher.hub);
    var u := UnitOf(setup.cfg, s.units, s.dispatcher.hub);
    GetNextKeepsCausal(setup.cfg, u);
    OneUnitChanged(setup.cfg, s.units, s.dispatcher.hub, GetNext(setup.cfg, u).0);
  }

  lemma ReportStepCausal(setup: Setup, s: State, w: nat, ok: bool)
    requires CausalInv(setup, s) && Enabled(setup, s, Step.Report(w, ok))
    ensures CausalInv(setup, Next(setup, s, Step.Report(w, ok)))
  {
    hide HubsOk, QueueOk, WorkersOk, JobsOk, DbOk, Serial, Ordered, WellFormed, Conflation.Report, NewUnit, ElementOk,
      SingleFlight, FirstReady, AnyInProcess, CausallyClosed, AnyPending, CausalUnits, NoLostUnit;
    ReportStep(setup, s, w, ok);
    EnabledJob(setup, s, w);
    var job := s.workers[w].pc.job;
    CausalUnitAt(setup, s, job.hub);
    var u := UnitOf(setup.cfg, s.units, job.hub);
    ReportKeepsCausal(setup.cfg, u, job.fetched, ok);
    var v := Conflation.Report(setup.cfg, u, job.fetched.metadata, ok);
    OneUnitChanged(setup.cfg, s.units, job.hub, v);
    AnnounceLosesNoUnit(setup.cfg, s.units, s.queue, HeldHub(s.dispatcher), job.hub, v);
  }

  /** The other steps move units and workers, but lose none. */
  lemma MoveStepCausal(setup: Setup, s: State, step: Step)
    requires CausalInv(setup, s) && Enabled(setup, s, step)
    requires !step.Insert? && !step.Fetch? && !step.Report?
    ensures CausalInv(setup, Next(setup, s, step))
  {
    hide HubsOk, QueueOk, JobsOk, DbOk, Serial, Ordered, WellFormed, CausalUnits, Diff, ApplyOp;
    StepKeepsInv(setup, s, step);
  }

  /** Under causal delivery, no step strands a unit, a bundle or a worker. */
  lemma StepKeepsCausalInv(setup: Setup, s: State, step: Step)
    requires CausalInv(setup, s) && Enabled(setup, s, step) && CausalStep(setup, s, step)
    ensures CausalInv(setup, Next(setup, s, step))
  {
    hide Inv, Next, CausalUnits, NoLostUnit, NoLostWorker;
    match step
    case Insert(b, token) => InsertStepCausal(setup, s, b, token);
    case Fetch => FetchStepCausal(setup, s);
    case Report(w, ok) => ReportStepCausal(setup, s, w, ok);
    case _ => MoveStepCausal(setup, s, step);
  }

  /** And only then: an arrival that is neither refused nor causally delivered breaks it at once. */
  lemma CausalStepExact(setup: Setup, s: State, step: Step)
    requires CausalInv(setup, s) && Enabled(setup, s, step)
    ensures CausalInv(setup, Next(setup, s, step)) <==> CausalStep(setup, s, step)
  {
    hide HubsOk, QueueOk, WorkersOk, JobsOk, DbOk, Serial, Ordered, WellFormed, Conflation.Insert, NewUnit, CausallyClosed,
      NoLostUnit, NoLostWorker, Causal;
    if CausalStep(setup, s, step) {
      StepKeepsCausalInv(setup, s, step);
    } else {
      var b := step.bundle;
      EnabledUnit(setup, s, b.hub);
      CausalUnitAt(setup, s, b.hub);
      CausalInsertExact(setup.cfg, UnitOf(setup.cfg, s.units, b.hub), b, step.token);
      var units' := Next(setup, s, step).units;
      assert !CausalUnit(setup.cfg, UnitOf(setup.cfg, units', b.hub));
    }
  }

  /** A run in which every bundle is causally delivered. */
  ghost predicate CausalRun(setup: Setup, s: State, steps: seq<Step>)
    requires Inv(setup, s) && ValidRun(setup, s, steps)
    decreases |steps|
  {
    steps == [] ||
    (CausalStep(setup, s, steps[0]) &&
     (StepKeepsInv(setup, s, steps[0]); CausalRun(setup, Next(setup, s, steps[0]), steps[1..])))
  }

  lemma {:induction false} RunKeepsCausalInv(setup: Setup, s: State, steps: seq<Step>)
    requires CausalInv(setup, s) && ValidRun(setup, s, steps) && CausalRun(setup, s, steps)
    ensures CausalInv(setup, Run(setup, s, steps))
    decreases |steps|
  {
    hide Inv, Next, CausalUnits, NoLostUnit, NoLostWorker, CausalStep;
    if steps != [] {
      StepKeepsInv(setup, s, steps[0]);
      StepKeepsCausalInv(setup, s, steps[0]);
      RunKeepsCausalInv(setup, Next(setup, s, steps[0]), steps[1..]);
    }
  }

  // ---------------------------------------------------------------- single placement

  /** GetNext never fails: the unit the dispatcher holds has a ready bundle. */
  lemma HeldUnitHasReadyBundle(setup: Setup, s: State, hub: string)
    requires CausalInv(setup, s) && (hub in s.queue || HeldHub(s.dispatcher) == Some(hub))
    ensures var u := UnitOf(setup.cfg, s.units, hub);
      && UnitInv(setup.cfg, u)
      && GetNext(setup.cfg, u).1.Some?
  {
    hide HubsOk, WorkersOk, JobsOk, DbOk, Serial, Ordered, GetNext;
    CausalUnitAt(setup, s, hub);
    GetNextKeepsCausal(setup.cfg, UnitOf(setup.cfg, s.units, hub));
  }

  /**
   A unit is in exactly one place: idle, once in the ready queue, in the dispatcher's hand, or in process as exactly
   one job. It is flagged exactly in the second and the third, and an idle unit holds no bundle at all.
   */
  lemma SinglePlacement(setup: Setup, s: State, hub: string)
    requires CausalInv(setup, s)
    ensures var u, queued, held := UnitOf(setup.cfg, s.units, hub), hub in s.queue, HeldHub(s.dispatcher) == Some(hub);
      && (u.inReadyQueue <==> queued || held)
      && !(queued && held)
      && (AnyInProcess(u.elements) <==> exists x :: HasJobOf(s.dispatcher, s.workers, x, hub))
      && !(u.inReadyQueue && AnyInProcess(u.elements))
      && (!u.inReadyQueue && !AnyInProcess(u.elements) ==> !AnyPending(u.elements))
    ensures multiset(s.queue)[hub] <= 1
    ensures forall x, y | HasJobOf(s.dispatcher, s.workers, x, hub) && HasJobOf(s.dispatcher, s.workers, y, hub) :: x == y
  {
    hide HubsOk, WorkersOk, DbOk, Serial, Ordered, WellFormed, FirstReady, InFlight, CausallyClosed;
    CausalUnitAt(setup, s, hub);
    var u := UnitOf(setup.cfg, s.units, hub);
    OnceInQueue(s.queue, hub);
    if !AnyInProcess(u.elements) {
      NoStuckBundle(setup.cfg, u);
    } else {
      assert Busy(setup.cfg, s.units, hub);
    }
    forall x | HasJobOf(s.dispatcher, s.workers, x, hub) ensures AnyInProcess(u.elements) {
      assert JobAt(s.dispatcher, s.workers, x).Some?;
      InFlightIsBusy(setup.cfg, u, JobAt(s.dispatcher, s.workers, x).value.fetched);
    }
  }

  lemma {:induction false} OnceInQueue(queue: seq<string>, hub: string)
    requires NoDuplicates(queue)
    ensures multiset(queue)[hub] <= 1
  {
    if queue != [] {
      var last := queue[|queue| - 1];
      assert queue == queue[..|queue| - 1] + [last];
      OnceInQueue(queue[..|queue| - 1], hub);
      if last == hub { assert hub !in multiset(queue[..|queue| - 1]); }
    }
  }

  // ---------------------------------------------------------------- workers

  /** Handing a job over and registering never wait: the queue of an acquired worker is empty, the pool has room. */
  lemma ChannelsHaveRoom(setup: Setup, s: State)
    requires Inv(setup, s)
    ensures s.dispatcher.Handing? ==> Enabled(setup, s, Hand)
    ensures forall w | 0 <= w < |s.workers| && s.workers[w].pc.Registering? :: Enabled(setup, s, Register(w))
  {
    hide HubsOk, QueueOk, JobsOk, DbOk, Serial, Ordered, WellFormed;
    forall w | 0 <= w < |s.workers| && s.workers[w].pc.Registering? ensures |s.pool| < setup.size {
      assert w !in s.pool;
      assert NoDuplicates(s.pool + [w]);
      DistinctBelow(s.pool + [w], setup.size);
    }
  }

  lemma {:induction false} DistinctBelow(pool: seq<nat>, n: nat)
    requires NoDuplicates(pool) && forall w | w in pool :: w < n
    ensures |pool| <= n
  {
    AsSet(pool);
    SubsetSize((set w | w in pool), Below(n));
  }

  lemma {:induction false} AsSet<T(!new)>(s: seq<T>)
    requires NoDuplicates(s)
    ensures |set x | x in s| == |s|
  {
    if s != [] {
      var front, last := s[..|s| - 1], s[|s| - 1];
      AsSet(front);
      assert (set x | x in s) == (set x | x in front) + {last};
    }
  }

  function Below(n: nat): (s: set<nat>)
    ensures |s| == n && forall w: nat :: w in s <==> w < n
  {
    if n == 0 then {} else Below(n - 1) + {n - 1}
  }

  lemma {:induction false} SubsetSize<T>(a: set<T>, b: set<T>)
    requires a <= b
    ensures |a| <= |b|
  {
    if a != {} {
      var x :| x in a;
      SubsetSize(a - {x}, b - {x});
    }
  }

  function Unregistered(workers: seq<Worker>): set<nat> {
    set w: nat | w < |workers| && workers[w].pc.Registering?
  }

  /** Workers with a job, received or waiting in their queue. */
  function Occupied(workers: seq<Worker>): set<nat> {
    set w: nat | w < |workers| && WorkerJob(workers[w]).Some?
  }

  function InHand(d: Dispatcher): set<nat> {
    if HeldWorker(d).Some? then {HeldWorker(d).value} else {}
  }

  /** No worker is lost: those not yet in the pool, in it, in the dispatcher's hand and occupied are all there are. */
  lemma WorkersAreConserved(setup: Setup, s: State)
    requires CausalInv(setup, s)
    ensures |Unregistered(s.workers)| + |s.pool| + |InHand(s.dispatcher)| + |Occupied(s.workers)| == setup.size
  {
    hide HubsOk, QueueOk, JobsOk, DbOk, Serial, Ordered, WellFormed, CausalUnits, NoLostUnit, Unregistered, Occupied,
      InHand;
    var pooled := set w | w in s.pool;
    AsSet(s.pool);
    forall w: nat
      ensures Is(Unregistered(s.workers), w) + Is(pooled, w) + Is(InHand(s.dispatcher), w) + Is(Occupied(s.workers), w) ==
              Is(Below(setup.size), w)
    {
      WorkerPlace(s.workers, s.pool, s.dispatcher, setup.size, w);
    }
    FourParts(Unregistered(s.workers), pooled, InHand(s.dispatcher), Occupied(s.workers), Below(setup.size));
  }

  function Is(places: set<nat>, w: nat): nat {
    if w in places then 1 else 0
  }

  lemma FourParts(a: set<nat>, b: set<nat>, c: set<nat>, d: set<nat>, all: set<nat>)
    requires forall w: nat :: Is(a, w) + Is(b, w) + Is(c, w) + Is(d, w) == Is(all, w)
    ensures |a| + |b| + |c| + |d| == |all|
  {
    forall w: nat ensures w in all <==> w in a + b + c + d {
      assert Is(a, w) + Is(b, w) + Is(c, w) + Is(d, w) == Is(all, w);
    }
    forall w: nat | w in a ensures w !in b + c + d { assert Is(a, w) + Is(b, w) + Is(c, w) + Is(d, w) == Is(all, w); }
    forall w: nat | w in b ensures w !in c + d { assert Is(a, w) + Is(b, w) + Is(c, w) + Is(d, w) == Is(all, w); }
    forall w: nat | w in c ensures w !in d { assert Is(a, w) + Is(b, w) + Is(c, w) + Is(d, w) == Is(all, w); }
    assert all == a + (b + (c + d));
  }

  /** A worker is in exactly one place. */
  lemma WorkerPlace(workers: seq<Worker>, pool: seq<nat>, d: Dispatcher, size: nat, w: nat)
    requires WorkersOk(size, pool, workers, HeldWorker(d)) && NoLostWorker(workers, pool, HeldWorker(d))
    ensures Is(Unregistered(workers), w) + (if w in pool then 1 else 0) + Is(InHand(d), w) + Is(Occupied(workers), w) ==
            if w < size then 1 else 0
  {
    if w < size {
      assert Free(workers[w]) ==> w in pool || HeldWorker(d) == Some(w);
    }
  }

  /** The ready queue never exceeds the number of units. */
  lemma QueueIsBounded(setup: Setup, s: State)
    requires Inv(setup, s)
    ensures |s.queue| <= |s.units|
  {
    AsSet(s.queue);
    SubsetSize((set h | h in s.queue), s.units.Keys);
  }
}
