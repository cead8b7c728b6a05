/** When nothing new arrives and handlers succeed, every step lowers a measure, and the end is agreement. */
module SystemProgress {
  import opened Conflation
  import opened Drain
  import opened Tables
  import opened Diffs
  import opened Retry
  import opened System
  import opened SystemRuns
  import opened SystemHistory
  import opened SystemRest
  import opened SystemLiveness

  // ---------------------------------------------------------------- the measure

  ghost function Pick(units: map<string, Unit>): (h: string)
    requires units != map[]
    ensures h in units
  {
    var h :| h in units; h
  }

  ghost function TotalBacklog(units: map<string, Unit>): nat
    decreases |units|
  {
    if units == map[] then 0
    else Backlog(units[Pick(units)].elements) + TotalBacklog(units - {Pick(units)})
  }

  lemma {:induction false} TotalBacklogAt(units: map<string, Unit>, h: string)
    requires h in units
    ensures TotalBacklog(units) == Backlog(units[h].elements) + TotalBacklog(units - {h})
    decreases |units|
  {
    var g := Pick(units);
    if g != h {
      TotalBacklogAt(units - {g}, h);
      TotalBacklogAt(units - {h}, g);
      assert units - {g} - {h} == units - {h} - {g};
    }
  }

  lemma {:induction false} NothingPending(els: seq<Element>)
    requires !AnyPending(els)
    ensures Backlog(els) == 0
  {
    if els != [] {
      assert els[0].bundle.None?;
      assert forall i | 0 <= i < |els| - 1 :: els[1..][i] == els[i + 1];
      NothingPending(els[1..]);
    }
  }

  lemma TotalBacklogUpdate(cfg: Config, units: map<string, Unit>, h: string, v: Unit)
    ensures TotalBacklog(units[h := v]) ==
            TotalBacklog(units) - Backlog(UnitOf(cfg, units, h).elements) + Backlog(v.elements)
  {
    TotalBacklogAt(units[h := v], h);
    assert units[h := v] - {h} == units - {h};
    if h in units {
      TotalBacklogAt(units, h);
    } else {
      NothingPending(NewUnit(cfg).elements);
      assert units - {h} == units;
    }
  }

  function Total(workers: seq<Worker>, weight: Worker -> nat): nat {
    if workers == [] then 0 else weight(workers[0]) + Total(workers[1..], weight)
  }

  lemma {:induction false} TotalUpdate(workers: seq<Worker>, weight: Worker -> nat, w: nat, after: Worker)
    requires w < |workers|
    ensures Total(workers[w := after], weight) == Total(workers, weight) - weight(workers[w]) + weight(after)
  {
    if w == 0 {
      assert workers[w := after][1..] == workers[1..];
    } else {
      assert workers[w := after][1..] == workers[1..][w - 1 := after];
      TotalUpdate(workers[1..], weight, w - 1, after);
    }
  }

  /** How many phases a worker has before it is free again. */
  function Phases(w: Worker): nat {
    if w.jobs != [] then 4
    else match w.pc
      case Registering => 1
      case Waiting => 0
      case Started(_) => 3
      case Sending(_, _, _, _, _) => 2
  }

  function Unsent(w: Worker): nat {
    if w.pc.Sending? && w.pc.next <= |w.pc.plan| then |w.pc.plan| - w.pc.next else 0
  }

  function DispatcherPhases(d: Dispatcher): nat {
    match d
    case Dequeuing => 0
    case Acquiring(_) => 7
    case Fetching(_, _) => 6
    case Handing(_, _) => 5
  }

  datatype Measure = Measure(backlog: nat, phases: nat, unsent: nat)

  /** Generations still to be handled, then phases of units and workers on their way, then statements to be sent. */
  ghost function MeasureOf(s: State): Measure {
    Measure(TotalBacklog(s.units),
            8 * |s.queue| + DispatcherPhases(s.dispatcher) + Total(s.workers, Phases),
            Total(s.workers, Unsent))
  }

  predicate Less(a: Measure, b: Measure) {
    || a.backlog < b.backlog
    || (a.backlog == b.backlog && a.phases < b.phases)
    || (a.backlog == b.backlog && a.phases == b.phases && a.unsent < b.unsent)
  }

  lemma FetchKeepsBacklog(setup: Setup, s: State)
    requires Inv(setup, s) && Enabled(setup, s, Fetch)
    ensures TotalBacklog(Next(setup, s, Fetch).units) == TotalBacklog(s.units)
  {
    hide HubsOk, QueueOk, WorkersOk, JobsOk, DbOk, Serial, Ordered, WellFormed, GetNext, NewUnit, TotalBacklog, Backlog;
    HeldUnit(setup, s);
    var u := UnitOf(setup.cfg, s.units, s.dispatcher.hub);
    GetNextKeepsBacklog(setup.cfg, u);
    TotalBacklogUpdate(setup.cfg, s.units, s.dispatcher.hub, GetNext(setup.cfg, u).0);
  }

  lemma ReportChangesBacklog(setup: Setup, s: State, w: nat, ok: bool)
    requires Inv(setup, s) && Enabled(setup, s, Step.Report(w, ok))
    ensures var total := TotalBacklog(Next(setup, s, Step.Report(w, ok)).units);
            if ok then total < TotalBacklog(s.units) else total == TotalBacklog(s.units)
  {
    hide HubsOk, QueueOk, WorkersOk, JobsOk, DbOk, Serial, Ordered, WellFormed, Conflation.Report, NewUnit, TotalBacklog,
      Backlog;
    EnabledJob(setup, s, w);
    var job := s.workers[w].pc.job;
    var u := UnitOf(setup.cfg, s.units, job.hub);
    ReportLowersBacklog(setup.cfg, u, job.fetched, ok);
    TotalBacklogUpdate(setup.cfg, s.units, job.hub, Conflation.Report(setup.cfg, u, job.fetched.metadata, ok));
  }

  /** What a step of one worker does to the sums. */
  lemma WorkerStepSums(setup: Setup, s: State, w: nat, after: Worker)
    requires w < |s.workers|
    ensures Total(s.workers[w := after], Phases) == Total(s.workers, Phases) - Phases(s.workers[w]) + Phases(after)
    ensures Total(s.workers[w := after], Unsent) == Total(s.workers, Unsent) - Unsent(s.workers[w]) + Unsent(after)
  {
    TotalUpdate(s.workers, Phases, w, after);
    TotalUpdate(s.workers, Unsent, w, after);
  }

  /**
   Every step but an arrival and a failure report lowers the measure, whatever was delivered: there are no endless
   runs of such steps.
   */
  lemma StepLowersMeasure(setup: Setup, s: State, step: Step)
    requires Inv(setup, s) && Enabled(setup, s, step)
    requires !step.Insert? && (step.Report? ==> step.ok)
    ensures Less(MeasureOf(Next(setup, s, step)), MeasureOf(s))
  {
    hide HubsOk, QueueOk, JobsOk, DbOk, Serial, Ordered, WellFormed, TotalBacklog, Total, Diff, ApplyOp, Conflation.Report,
      GetNext, NewUnit;
    match step
    case Dequeue =>
    case Acquire =>
    case Fetch => FetchKeepsBacklog(setup, s);
    case Hand =>
      var w := s.dispatcher.worker;
      WorkerStepSums(setup, s, w, s.workers[w].(jobs := s.workers[w].jobs + [s.dispatcher.job]));
    case Register(w) =>
      WorkerStepSums(setup, s, w, s.workers[w].(pc := Waiting));
    case Receive(w) =>
      WorkerStepSums(setup, s, w, Worker(Started(s.workers[w].jobs[0]), s.workers[w].jobs[1..]));
    case Read(w, plan) =>
      WorkerStepSums(setup, s, w, s.workers[w].(pc := Sending(s.workers[w].pc.job, plan, 0, [], false)));
    case Execute(w, works) =>
      WorkerStepSums(setup, s, w, s.workers[w].(pc := ExecuteOne(s.workers[w].pc, works)));
    case Report(w, ok) => ReportChangesBacklog(setup, s, w, ok);
  }

  // ---------------------------------------------------------------- progress

  /** Steps of the system itself, without failures. */
  predicate Smooth(step: Step) {
    !step.Insert? && (step.Execute? ==> step.works) && (step.Report? ==> step.ok)
  }

  predicate Healthy(s: State) {
    forall w | 0 <= w < |s.workers| && s.workers[w].pc.Sending? :: !s.workers[w].pc.failed
  }

  predicate Quiescent(s: State) {
    s.queue == [] && s.dispatcher.Dequeuing? && forall w | 0 <= w < |s.workers| :: Free(s.workers[w])
  }

  lemma SmoothStepsKeepHealthy(setup: Setup, s: State, step: Step)
    requires Inv(setup, s) && Enabled(setup, s, step) && Smooth(step) && Healthy(s)
    ensures Healthy(Next(setup, s, step)) && Next(setup, s, step).received == s.received
  {
    hide HubsOk, QueueOk, WorkersOk, JobsOk, DbOk, Serial, Ordered, WellFormed, Diff, ApplyOp, Conflation.Report, GetNext,
      NewUnit, Replay;
  }

  lemma BusyWorkerSteps(setup: Setup, s: State, w: nat) returns (step: Step)
    requires Inv(setup, s) && Healthy(s) && w < |s.workers| && !Free(s.workers[w])
    ensures Enabled(setup, s, step) && Smooth(step)
  {
    hide HubsOk, QueueOk, JobsOk, Serial, Ordered, WellFormed, Diff, Replay;
    ChannelsHaveRoom(setup, s);
    match s.workers[w].pc
    case Registering => step := Register(w);
    case Waiting => step := Receive(w);
    case Started(job) =>
      var b := job.fetched.bundle;
      var plan := PlanExists(Diff(s.db, b.hub, b.contents));
      step := Read(w, plan);
    case Sending(_, plan, next, _, _) =>
      assert SenderOk(Replay(setup.initial, s.history), s.db, s.workers[w].pc);
      step := if next < |plan| then Execute(w, true) else Step.Report(w, true);
  }

  /** The system is never deadlocked: unless everything is at rest, some party can go on. */
  lemma SomeStepIsEnabled(setup: Setup, s: State) returns (step: Step)
    requires CausalInv(setup, s) && Healthy(s) && setup.size > 0 && !Quiescent(s)
    ensures Enabled(setup, s, step) && Smooth(step)
  {
    hide HubsOk, QueueOk, JobsOk, DbOk, Serial, Ordered, WellFormed, Diff, Replay, CausalUnits, NoLostUnit;
    if w :| 0 <= w < |s.workers| && !Free(s.workers[w]) {
      step := BusyWorkerSteps(setup, s, w);
    } else {
      ChannelsHaveRoom(setup, s);
      match s.dispatcher
      case Dequeuing => step := Dequeue;
      case Acquiring(_) =>
        assert Free(s.workers[0]);
        step := Acquire;
      case Fetching(_, _) => step := Fetch;
      case Handing(_, _) => step := Hand;
    }
  }

  /** Everything received was handled, newest generations last, and the tables show it, kind by kind. */
  ghost predicate Agreement(setup: Setup, s: State) {
    && s.db == Replay(setup.initial, s.history)
    && (forall hub :: !AnyPending(UnitOf(setup.cfg, s.units, hub).elements))
    && (forall hub, p | 0 <= p < |setup.cfg.slots| ::
          MaxOk(s.history, hub, setup.cfg.slots[p].bundleType) == MaxGen(s.received, hub, setup.cfg.slots[p].bundleType))
    && (forall hub, p, kind | 0 <= p < |setup.cfg.slots| &&
                              Carries(s.received, setup.cfg.slots[p].bundleType, kind) &&
                              Trusted(setup.initial, s.received, kind) ::
          ShowsNewest(s, hub, setup.cfg.slots[p].bundleType, kind))
  }

  /** At rest, every unit has handled the newest generation it received of every type, and the tables show it. */
  lemma RestIsAgreement(setup: Setup, s: State)
    requires CausalInv(setup, s) && Quiescent(s)
    ensures Agreement(setup, s)
  {
    hide HubsOk, QueueOk, WorkersOk, JobsOk, DbOk, Serial, Ordered, WellFormed, Diff, Replay, CausalUnits, NoLostUnit,
      MaxOk, MaxGen, ShowsNewest, Carries, Trusted, AllReceived;
    TablesAreSerial(setup, s);
    forall hub ensures !AnyPending(UnitOf(setup.cfg, s.units, hub).elements) {
      SinglePlacement(setup, s, hub);
    }
    forall hub, p | 0 <= p < |setup.cfg.slots|
      ensures MaxOk(s.history, hub, setup.cfg.slots[p].bundleType) == MaxGen(s.received, hub, setup.cfg.slots[p].bundleType)
    {
      NewestWins(setup, s, hub, p);
      assert UnitOf(setup.cfg, s.units, hub).elements[p].bundle.None?;
    }
    forall hub, p, kind | 0 <= p < |setup.cfg.slots| && Carries(s.received, setup.cfg.slots[p].bundleType, kind) &&
                          Trusted(setup.initial, s.received, kind)
      ensures ShowsNewest(s, hub, setup.cfg.slots[p].bundleType, kind)
    {
      CaughtUpShows(setup, s, hub, setup.cfg.slots[p].bundleType, kind);
    }
  }

  /**
   At rest a hub's (policy, cluster) rows are those of the newest clusters-per-policy bundle it sent, whatever failed
   and was left in the tables on the way.
   */
  lemma RowsAtRest(setup: Setup, s: State, hub: string, p: nat)
    requires CausalInv(setup, s) && Quiescent(s) && p < |setup.cfg.slots|
    requires forall b | b in s.received :: b.contents.ClustersPerPolicy? <==> b.bundleType == setup.cfg.slots[p].bundleType
    ensures var newest := MaxGen(s.received, hub, setup.cfg.slots[p].bundleType);
      newest > 0 ==>
        exists b :: b in s.received && b.hub == hub && b.contents.ClustersPerPolicy? && b.generation == newest &&
                    StatusRows(s.db, hub) == Pairs(hub, b.contents.placements)
  {
    hide HubsOk, QueueOk, WorkersOk, JobsOk, DbOk, Serial, Ordered, WellFormed, CausalUnits, NoLostUnit, MaxOk, MaxGen,
      StatusRows, Pairs, Replay;
    RestIsAgreement(setup, s);
    assert Carries(s.received, setup.cfg.slots[p].bundleType, Placements);
    assert Trusted(setup.initial, s.received, Placements);
    assert ShowsNewest(s, hub, setup.cfg.slots[p].bundleType, Placements);
  }

  /**
   Eventual agreement: from every state reached under causal delivery the system can finish on its own, and when
   nothing is left to do, the newest generation received of every type of every hub was handled successfully.
   */
  lemma {:induction false} EventualAgreement(setup: Setup, s: State) returns (steps: seq<Step>)
    requires CausalInv(setup, s) && Healthy(s) && setup.size > 0
    ensures ValidRun(setup, s, steps) && forall i | 0 <= i < |steps| :: Smooth(steps[i])
    ensures var s' := Run(setup, s, steps);
      s'.received == s.received && Quiescent(s') && CausalInv(setup, s') && Agreement(setup, s')
    decreases MeasureOf(s).backlog, MeasureOf(s).phases, MeasureOf(s).unsent
  {
    hide Inv, Enabled, Next, CausalUnits, NoLostUnit, NoLostWorker, CausalStep, MeasureOf, Quiescent, Healthy, Agreement;
    if Quiescent(s) {
      steps := [];
      RestIsAgreement(setup, s);
    } else {
      var step := SomeStepIsEnabled(setup, s);
      StepKeepsInv(setup, s, step);
      NotAnArrival(setup, s, step);
      StepKeepsCausalInv(setup, s, step);
      SmoothStepsKeepHealthy(setup, s, step);
      StepLowersMeasure(setup, s, step);
      var rest := EventualAgreement(setup, Next(setup, s, step));
      steps := [step] + rest;
      assert steps[1..] == rest;
    }
  }

  lemma NotAnArrival(setup: Setup, s: State, step: Step)
    requires Inv(setup, s) && Enabled(setup, s, step) && !step.Insert?
    ensures CausalStep(setup, s, step)
  {
  }

  // ---------------------------------------------------------------- recovery

  function Failing(w: Worker): nat {
    if w.pc.Sending? && w.pc.failed then 1 else 0
  }

  /** A failing handler goes on to its end and reports; no other handler fails meanwhile. */
  lemma FailingWorkerSteps(setup: Setup, s: State, w: nat) returns (step: Step)
    requires Inv(setup, s) && w < |s.workers| && s.workers[w].pc.Sending? && s.workers[w].pc.failed
    ensures Enabled(setup, s, step) && !step.Insert? && Next(setup, s, step).received == s.received
    ensures var s' := Next(setup, s, step);
      || Total(s'.workers, Failing) < Total(s.workers, Failing)
      || (Total(s'.workers, Failing) == Total(s.workers, Failing) && Total(s'.workers, Unsent) < Total(s.workers, Unsent))
  {
    hide HubsOk, QueueOk, WorkersOk, JobsOk, Serial, Ordered, WellFormed, Diff, ApplyOp, ApplyOps, Replay, Total, SameHub,
      Conflation.Report;
    var pc := s.workers[w].pc;
    assert SenderOk(Replay(setup.initial, s.history), s.db, pc);
    var after;
    if pc.next < |pc.plan| {
      step := Execute(w, true);
      after := s.workers[w].(pc := ExecuteOne(pc, true));
    } else {
      step := Step.Report(w, false);
      after := Worker(Registering, s.workers[w].jobs);
    }
    TotalUpdate(s.workers, Failing, w, after);
    TotalUpdate(s.workers, Unsent, w, after);
  }

  lemma {:induction false} FailuresEnd(setup: Setup, s: State) returns (steps: seq<Step>)
    requires CausalInv(setup, s)
    ensures ValidRun(setup, s, steps) && forall i | 0 <= i < |steps| :: !steps[i].Insert?
    ensures var s' := Run(setup, s, steps); CausalInv(setup, s') && Healthy(s') && s'.received == s.received
    decreases Total(s.workers, Failing), Total(s.workers, Unsent)
  {
    hide Inv, Enabled, Next, CausalUnits, NoLostUnit, NoLostWorker, CausalStep, Total;
    if w :| 0 <= w < |s.workers| && s.workers[w].pc.Sending? && s.workers[w].pc.failed {
      var step := FailingWorkerSteps(setup, s, w);
      StepKeepsInv(setup, s, step);
      NotAnArrival(setup, s, step);
      StepKeepsCausalInv(setup, s, step);
      var rest := FailuresEnd(setup, Next(setup, s, step));
      steps := [step] + rest;
      assert steps[1..] == rest;
    } else {
      steps := [];
    }
  }

  lemma {:induction false} RunsCompose(setup: Setup, s: State, a: seq<Step>, b: seq<Step>)
    requires Inv(setup, s) && ValidRun(setup, s, a) && ValidRun(setup, Run(setup, s, a), b)
    ensures ValidRun(setup, s, a + b) && Run(setup, s, a + b) == Run(setup, Run(setup, s, a), b)
    decreases |a|
  {
    hide Inv, Enabled, Next;
    if a == [] {
      assert a + b == b;
    } else {
      StepKeepsInv(setup, s, a[0]);
      RunsCompose(setup, Next(setup, s, a[0]), a[1..], b);
      assert (a + b)[1..] == a[1..] + b;
    }
  }

  /** The same from any state reached under causal delivery, in the middle of failures included: nothing is lost. */
  lemma AgreementAfterFailures(setup: Setup, s: State) returns (steps: seq<Step>)
    requires CausalInv(setup, s) && setup.size > 0
    ensures ValidRun(setup, s, steps) && forall i | 0 <= i < |steps| :: !steps[i].Insert?
    ensures var s' := Run(setup, s, steps);
      s'.received == s.received && Quiescent(s') && CausalInv(setup, s') && Agreement(setup, s')
  {
    hide Inv, CausalUnits, NoLostUnit, NoLostWorker, Quiescent, Healthy, Agreement, ValidRun, Run;
    var failing := FailuresEnd(setup, s);
    var rest := EventualAgreement(setup, Run(setup, s, failing));
    RunsCompose(setup, s, failing, rest);
    steps := failing + rest;
  }

  // ---------------------------------------------------------------- all runs

  /** Nothing can happen but an arrival or a failure. */
  ghost predicate AtAnEnd(setup: Setup, s: State) {
    forall step | Smooth(step) :: !Enabled(setup, s, step)
  }

  /**
   Every run without arrivals and failures that cannot be continued ends at rest and in agreement; and the measure
   falls along every run of at least one such step, so that none goes on forever.
   */
  lemma {:induction false} EverySmoothRunAgrees(setup: Setup, s: State, steps: seq<Step>)
    requires CausalInv(setup, s) && Healthy(s) && setup.size > 0
    requires ValidRun(setup, s, steps) && forall i | 0 <= i < |steps| :: Smooth(steps[i])
    ensures var s' := Run(setup, s, steps);
      && s'.received == s.received && CausalInv(setup, s')
      && (steps != [] ==> Less(MeasureOf(s'), MeasureOf(s)))
      && (AtAnEnd(setup, s') ==> Quiescent(s') && Agreement(setup, s'))
    decreases |steps|
  {
    hide Inv, Enabled, Next, CausalUnits, NoLostUnit, NoLostWorker, CausalStep, MeasureOf, Quiescent, Healthy, Agreement;
    if steps == [] {
      if Quiescent(s) {
        RestIsAgreement(setup, s);
      } else {
        var step := SomeStepIsEnabled(setup, s);
      }
    } else {
      StepKeepsInv(setup, s, steps[0]);
      NotAnArrival(setup, s, steps[0]);
      StepKeepsCausalInv(setup, s, steps[0]);
      SmoothStepsKeepHealthy(setup, s, steps[0]);
      StepLowersMeasure(setup, s, steps[0]);
      EverySmoothRunAgrees(setup, Next(setup, s, steps[0]), steps[1..]);
    }
  }

  // ---------------------------------------------------------------- from the start

  /** A run of the process from its start, in which every bundle is causally delivered. */
  ghost predicate CausalRunFromStart(setup: Setup, steps: seq<Step>)
    requires WellFormed(setup.cfg)
  {
    RunFromStart(setup, steps) &&
    (InitInv(setup);
     CausalRun(setup, Init(setup), steps))
  }

  /**
   Whatever was causally delivered, interleaved and failed since the process started, it can finish on its own, and then
   has handled the newest bundle of every type of every hub, and the tables show these bundles.
   */
  lemma EveryCausalRunCanAgree(setup: Setup, steps: seq<Step>) returns (more: seq<Step>)
    requires WellFormed(setup.cfg) && setup.size > 0 && CausalRunFromStart(setup, steps)
    ensures forall i | 0 <= i < |more| :: !more[i].Insert?
    ensures RunFromStart(setup, steps + more)
    ensures var s := Reached(setup, steps + more);
      s.received == Reached(setup, steps).received && Quiescent(s) && Agreement(setup, s)
  {
    hide Inv, CausalUnits, NoLostUnit, NoLostWorker, Quiescent, Agreement, ValidRun, Run, CausalRun, Init;
    InitCausalInv(setup);
    RunKeepsCausalInv(setup, Init(setup), steps);
    more := AgreementAfterFailures(setup, Run(setup, Init(setup), steps));
    RunsCompose(setup, Init(setup), steps, more);
  }

  /**
   And for all runs: whenever a causally delivered run from the start, with any failures, reaches a state in which
   nothing but an arrival can happen, everything is at rest and in agreement.
   */
  lemma EveryCausalRunEndsInAgreement(setup: Setup, steps: seq<Step>)
    requires WellFormed(setup.cfg) && setup.size > 0 && CausalRunFromStart(setup, steps)
    requires OnlyArrivals(setup, Reached(setup, steps))
    ensures Quiescent(Reached(setup, steps)) && Agreement(setup, Reached(setup, steps))
  {
    hide Inv, CausalUnits, NoLostUnit, NoLostWorker, Quiescent, Agreement, ValidRun, Run, CausalRun, Init, Enabled;
    InitCausalInv(setup);
    RunKeepsCausalInv(setup, Init(setup), steps);
    OnlyRestIsAnEnd(setup, Run(setup, Init(setup), steps));
  }

  ghost predicate OnlyArrivals(setup: Setup, s: State) {
    forall step: Step | Enabled(setup, s, step) :: step.Insert?
  }

  lemma OnlyRestIsAnEnd(setup: Setup, s: State)
    requires CausalInv(setup, s) && setup.size > 0
    ensures OnlyArrivals(setup, s) ==> Quiescent(s) && Agreement(setup, s)
  {
    hide Inv, CausalUnits, NoLostUnit, NoLostWorker, Quiescent, Agreement, Enabled;
    if w :| 0 <= w < |s.workers| && s.workers[w].pc.Sending? && s.workers[w].pc.failed {
      var step := FailingWorkerSteps(setup, s, w);
    } else if Quiescent(s) {
      RestIsAgreement(setup, s);
    } else {
      var step := SomeStepIsEnabled(setup, s);
    }
  }

  // ---------------------------------------------------------------- bounded waiting

  function Dequeues(steps: seq<Step>): nat {
    if steps == [] then 0 else (if steps[0].Dequeue? then 1 else 0) + Dequeues(steps[1..])
  }

  lemma QueueMovesUp(setup: Setup, s: State, step: Step, i: nat)
    requires Inv(setup, s) && Enabled(setup, s, step) && i < |s.queue|
    ensures var s' := Next(setup, s, step);
      if !step.Dequeue? then i < |s'.queue| && s'.queue[i] == s.queue[i]
      else if i == 0 then s'.dispatcher == Acquiring(s.queue[0])
      else i - 1 < |s'.queue| && s'.queue[i - 1] == s.queue[i]
  {
    hide HubsOk, QueueOk, WorkersOk, JobsOk, DbOk, Serial, Ordered, WellFormed, Diff, ApplyOp, Conflation.Report, GetNext,
      NewUnit, Replay, Conflation.Insert;
  }

  /** Bounded waiting: the i-th unit of the queue is in the dispatcher's hand after i + 1 dequeues. */
  lemma {:induction false} ServedInTurn(setup: Setup, s: State, steps: seq<Step>, i: nat) returns (n: nat)
    requires Inv(setup, s) && ValidRun(setup, s, steps) && i < |s.queue| && Dequeues(steps) > i
    ensures n <= |steps| && Dequeues(steps[..n]) == i + 1 && ValidRun(setup, s, steps[..n])
    ensures Run(setup, s, steps[..n]).dispatcher == Acquiring(s.queue[i])
    decreases |steps|
  {
    hide Inv, Enabled, Next;
    StepKeepsInv(setup, s, steps[0]);
    QueueMovesUp(setup, s, steps[0], i);
    var s1 := Next(setup, s, steps[0]);
    if steps[0].Dequeue? && i == 0 {
      n := 1;
      assert steps[..1][1..] == [];
      assert Run(setup, s1, []) == s1;
    } else {
      var j := if steps[0].Dequeue? then i - 1 else i;
      var m := ServedInTurn(setup, s1, steps[1..], j);
      n := m + 1;
      assert steps[..n][1..] == steps[1..][..m];
    }
  }
}
