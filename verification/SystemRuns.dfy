/** Runs: any sequence of steps, from any state where the invariant holds. */
module SystemRuns {
  import opened Bundles
  import opened Conflation
  import opened Tables
  import opened Diffs
  import opened System
  import opened SystemSafety

  lemma InitInv(setup: Setup)
    requires WellFormed(setup.cfg)
    ensures Inv(setup, Init(setup))
  {
    NewUnitInv(setup.cfg);
    var s := Init(setup);
    forall h ensures HubOk(setup.cfg, UnitOf(setup.cfg, s.units, h), h, s.received, s.history) {
    }
    assert forall x :: JobAt(s.dispatcher, s.workers, x).None?;
    assert forall h :: !Busy(setup.cfg, s.units, h);
  }

  /** A working worker has an empty queue, and no other worker sends for its hub. */
  lemma OnlyHandler(setup: Setup, s: State, w: nat)
    requires Inv(setup, s) && w < |s.workers| && (s.workers[w].pc.Started? || s.workers[w].pc.Sending?)
    ensures s.workers[w].jobs == [] && !Free(s.workers[w])
    ensures JobAt(s.dispatcher, s.workers, OfWorker(w)) == Some(s.workers[w].pc.job)
    ensures s.workers[w].pc.job.fetched.bundle.hub == s.workers[w].pc.job.hub
    ensures forall i | 0 <= i < |s.workers| && i != w :: !SendsFor(s.workers[i], s.workers[w].pc.job.hub)
  {
    hide HubsOk, QueueOk, DbOk, Serial, Ordered, WellFormed, UnitInv, InFlight;
    var job := s.workers[w].pc.job;
    assert JobAt(s.dispatcher, s.workers, OfWorker(w)) == Some(job);
    forall i | 0 <= i < |s.workers| && i != w ensures !SendsFor(s.workers[i], job.hub) {
      if s.workers[i].pc.Sending? {
        assert JobAt(s.dispatcher, s.workers, OfWorker(i)) == Some(s.workers[i].pc.job);
      }
    }
  }

  lemma InsertStep(setup: Setup, s: State, b: Bundle, token: int)
    requires Inv(setup, s) && b.bundleType in setup.cfg.priorityOf
    ensures Inv(setup, Next(setup, s, Step.Insert(b, token)))
  {
    hide HubsOk, QueueOk, WorkersOk, JobsOk, DbOk, Serial, Ordered, WellFormed, Conflation.Insert, NewUnit;
    EnabledUnit(setup, s, b.hub);
    var u := UnitOf(setup.cfg, s.units, b.hub);
    InsertKeepsInv(setup.cfg, u, b, token);
    InsertKeepsHubs(setup.cfg, s.units, b, token, s.received, s.history);
    AnnounceKeepsQueue(setup.cfg, s.units, s.queue, HeldHub(s.dispatcher), b.hub, Conflation.Insert(setup.cfg, u, b, token));
    InsertKeepsJobs(setup.cfg, s.units, s.received, s.dispatcher, s.workers, b, token);
  }

  lemma DequeueStep(setup: Setup, s: State)
    requires Inv(setup, s) && Enabled(setup, s, Dequeue)
    ensures Inv(setup, Next(setup, s, Dequeue))
  {
    hide HubsOk, QueueOk, WorkersOk, JobsOk, DbOk, Serial, Ordered, WellFormed;
    DequeueKeepsQueue(setup.cfg, s.units, s.queue);
    SameJobs(setup.cfg, s.units, s.received, s.dispatcher, s.workers, Acquiring(s.queue[0]), s.workers);
  }

  lemma AcquireStep(setup: Setup, s: State)
    requires Inv(setup, s) && Enabled(setup, s, Acquire)
    ensures Inv(setup, Next(setup, s, Acquire))
  {
    hide HubsOk, QueueOk, WorkersOk, JobsOk, DbOk, Serial, Ordered, WellFormed;
    AcquireKeepsWorkers(setup.size, s.pool, s.workers);
    SameJobs(setup.cfg, s.units, s.received, s.dispatcher, s.workers, Fetching(s.dispatcher.hub, s.pool[0]), s.workers);
  }

  lemma HeldUnit(setup: Setup, s: State)
    requires Inv(setup, s) && HeldHub(s.dispatcher).Some?
    ensures UnitInv(setup.cfg, UnitOf(setup.cfg, s.units, s.dispatcher.hub))
    ensures UnitOf(setup.cfg, s.units, s.dispatcher.hub).inReadyQueue
    ensures HubOk(setup.cfg, UnitOf(setup.cfg, s.units, s.dispatcher.hub), s.dispatcher.hub, s.received, s.history)
  {
    EnabledUnit(setup, s, s.dispatcher.hub);
  }

  lemma FetchStep(setup: Setup, s: State)
    requires Inv(setup, s) && Enabled(setup, s, Fetch)
    ensures Inv(setup, Next(setup, s, Fetch))
  {
    hide HubsOk, QueueOk, JobsOk, DbOk, Serial, Ordered, WellFormed, GetNext, NewUnit, ElementOk, SingleFlight, FirstReady,
      AnyInProcess, JobAt;
    HeldUnit(setup, s);
    var cfg, hub := setup.cfg, s.dispatcher.hub;
    var u := UnitOf(cfg, s.units, hub);
    GetNextKeepsHub(cfg, u, hub, s.received, s.history);
    FetchKeepsHubs(cfg, s.units, hub, s.received, s.history);
    var (v, next) := GetNext(cfg, u);
    FetchKeepsQueue(cfg, s.units, s.queue, hub, v);
    if next.Some? {
      FetchKeepsJobs(cfg, s.units, s.received, s.dispatcher, s.workers, s.dispatcher.worker, v, Job(hub, next.value));
    } else {
      FetchNoneKeepsJobs(cfg, s.units, s.received, s.dispatcher, s.workers);
    }
  }

  lemma FetchNoneKeepsJobs(
    cfg: Config, units: map<string, Unit>, received: seq<Bundle>, d: Dispatcher, workers: seq<Worker>)
    requires JobsOk(cfg, units, received, d, workers) && d.Fetching?
    ensures JobsOk(cfg, units[d.hub := UnitOf(cfg, units, d.hub)], received, Dequeuing, workers)
  {
    SameJobs(cfg, units, received, d, workers, Dequeuing, workers);
    hide NewUnit, JobAt, JobOk;
    var units' := units[d.hub := UnitOf(cfg, units, d.hub)];
    forall h ensures UnitOf(cfg, units', h) == UnitOf(cfg, units, h) && (Busy(cfg, units', h) <==> Busy(cfg, units, h)) {
    }
  }

  lemma HandStep(setup: Setup, s: State)
    requires Inv(setup, s) && Enabled(setup, s, Hand)
    ensures Inv(setup, Next(setup, s, Hand))
  {
    hide HubsOk, QueueOk, JobsOk, DbOk, Serial, Ordered, WellFormed;
    var w, job := s.dispatcher.worker, s.dispatcher.job;
    var workers' := s.workers[w := s.workers[w].(jobs := s.workers[w].jobs + [job])];
    HandKeepsWorkers(setup.size, s.pool, s.workers, w, job);
    HandedJobAt(s.dispatcher, s.workers, w, job);
    MoveKeepsJobs(setup.cfg, s.units, s.received, s.dispatcher, s.workers, Dequeuing, workers', OfDispatcher, OfWorker(w));
    SameSenders(Replay(setup.initial, s.history), s.workers, workers', s.db);
  }

  lemma HandedJobAt(d: Dispatcher, workers: seq<Worker>, w: nat, job: Job)
    requires d == Handing(w, job) && w < |workers| && Free(workers[w])
    ensures var workers' := workers[w := workers[w].(jobs := workers[w].jobs + [job])];
      && JobAt(Dequeuing, workers', OfWorker(w)) == JobAt(d, workers, OfDispatcher)
      && JobAt(Dequeuing, workers', OfDispatcher).None? && JobAt(d, workers, OfWorker(w)).None?
      && forall x | x != OfDispatcher && x != OfWorker(w) :: JobAt(Dequeuing, workers', x) == JobAt(d, workers, x)
  {
  }

  lemma RegisterStep(setup: Setup, s: State, w: nat)
    requires Inv(setup, s) && Enabled(setup, s, Register(w))
    ensures Inv(setup, Next(setup, s, Register(w)))
  {
    hide HubsOk, QueueOk, WorkersOk, JobsOk, DbOk, Serial, Ordered, WellFormed;
    var workers' := s.workers[w := s.workers[w].(pc := Waiting)];
    RegisterKeepsWorkers(setup.size, s.pool, s.workers, HeldWorker(s.dispatcher), w);
    SameJobs(setup.cfg, s.units, s.received, s.dispatcher, s.workers, s.dispatcher, workers');
    SameSenders(Replay(setup.initial, s.history), s.workers, workers', s.db);
  }

  lemma ReceiveStep(setup: Setup, s: State, w: nat)
    requires Inv(setup, s) && Enabled(setup, s, Receive(w))
    ensures Inv(setup, Next(setup, s, Receive(w)))
  {
    hide HubsOk, QueueOk, JobsOk, DbOk, Serial, Ordered, WellFormed;
    var after := Worker(Started(s.workers[w].jobs[0]), s.workers[w].jobs[1..]);
    BusyKeepsWorkers(setup.size, s.pool, s.workers, HeldWorker(s.dispatcher), w, after);
    SameJobs(setup.cfg, s.units, s.received, s.dispatcher, s.workers, s.dispatcher, s.workers[w := after]);
    SameSenders(Replay(setup.initial, s.history), s.workers, s.workers[w := after], s.db);
  }

  lemma ReadStep(setup: Setup, s: State, w: nat, plan: seq<Op>)
    requires Inv(setup, s) && Enabled(setup, s, Read(w, plan))
    ensures Inv(setup, Next(setup, s, Read(w, plan)))
  {
    hide HubsOk, QueueOk, WorkersOk, JobsOk, DbOk, Serial, Ordered, WellFormed, Diff;
    OnlyHandler(setup, s, w);
    var after := s.workers[w].(pc := Sending(s.workers[w].pc.job, plan, 0, [], false));
    BusyKeepsWorkers(setup.size, s.pool, s.workers, HeldWorker(s.dispatcher), w, after);
    SameJobs(setup.cfg, s.units, s.received, s.dispatcher, s.workers, s.dispatcher, s.workers[w := after]);
    ReadKeepsDb(Replay(setup.initial, s.history), s.workers, s.db, w, plan);
  }

  lemma ExecuteStep(setup: Setup, s: State, w: nat, works: bool)
    requires Inv(setup, s) && Enabled(setup, s, Execute(w, works))
    ensures Inv(setup, Next(setup, s, Execute(w, works)))
  {
    hide HubsOk, QueueOk, WorkersOk, JobsOk, DbOk, Serial, Ordered, WellFormed, ApplyOp;
    OnlyHandler(setup, s, w);
    var after := s.workers[w].(pc := ExecuteOne(s.workers[w].pc, works));
    BusyKeepsWorkers(setup.size, s.pool, s.workers, HeldWorker(s.dispatcher), w, after);
    SameJobs(setup.cfg, s.units, s.received, s.dispatcher, s.workers, s.dispatcher, s.workers[w := after]);
    ExecuteKeepsDb(Replay(setup.initial, s.history), s.workers, s.db, w, works);
  }

  /** What the attempt that ends adds to the history. */
  lemma ReportExtendsHistory(setup: Setup, s: State, w: nat, ok: bool)
    requires Inv(setup, s) && Enabled(setup, s, Report(w, ok))
    ensures var a := Attempt(s.workers[w].pc.job.fetched.bundle, Executed(s.workers[w].pc), ok);
            Serial(setup.initial, s.history + [a]) && Ordered(setup.cfg, s.history + [a])
  {
    hide HubsOk, QueueOk, WorkersOk, JobsOk, Diff, Replay, MaxOk, MaxGen, AnyInProcess, FirstReady, ApplyOps;
    EnabledJob(setup, s, w);
    var job := s.workers[w].pc.job;
    EnabledUnit(setup, s, job.hub);
    HubUpToDate(setup, s, job.hub);
    var a := Attempt(job.fetched.bundle, Executed(s.workers[w].pc), ok);
    assert (s.history + [a])[..|s.history|] == s.history;
    var before := Replay(setup.initial, s.history);
    if s.workers[w].pc.Sending? {
      var pc := s.workers[w].pc;
      assert SenderOk(before, s.db, pc);
      assert pc.plan[..|pc.plan|] == pc.plan;
    }
    assert AttemptOk(before, a);
  }

  lemma HubUpToDate(setup: Setup, s: State, hub: string)
    requires Inv(setup, s)
    ensures UnitInv(setup.cfg, UnitOf(setup.cfg, s.units, hub))
    ensures UpToDate(setup.cfg, UnitOf(setup.cfg, s.units, hub), hub, s.received, s.history)
  {
    assert HubOk(setup.cfg, UnitOf(setup.cfg, s.units, hub), hub, s.received, s.history);
  }

  lemma ReportStep(setup: Setup, s: State, w: nat, ok: bool)
    requires Inv(setup, s) && Enabled(setup, s, Report(w, ok))
    ensures Inv(setup, Next(setup, s, Report(w, ok)))
  {
    hide HubsOk, QueueOk, WorkersOk, JobsOk, DbOk, Serial, Ordered, WellFormed, Conflation.Report, NewUnit, ElementOk,
      SingleFlight, AnyInProcess, FirstReady, ApplyOps, Replay, MaxOk, JobAt;
    OnlyHandler(setup, s, w);
    EnabledJob(setup, s, w);
    var cfg, pc, job := setup.cfg, s.workers[w].pc, s.workers[w].pc.job;
    var u := UnitOf(cfg, s.units, job.hub);
    InFlightIsBusy(cfg, u, job.fetched);
    ReportKeepsInv(cfg, u, job.fetched, ok);
    var a := Attempt(job.fetched.bundle, Executed(pc), ok);
    ReportExtendsHistory(setup, s, w, ok);
    ReplayMore(setup.initial, s.history, a);
    ReportKeepsHubs(cfg, s.units, job, ok, Executed(pc), s.received, s.history);
    var v := Conflation.Report(cfg, u, job.fetched.metadata, ok);
    AnnounceKeepsQueue(cfg, s.units, s.queue, HeldHub(s.dispatcher), job.hub, v);
    BusyKeepsWorkers(setup.size, s.pool, s.workers, HeldWorker(s.dispatcher), w, Worker(Registering, []));
    ReportKeepsJobs(cfg, s.units, s.received, s.dispatcher, s.workers, w, v, job);
    ReportKeepsDb(Replay(setup.initial, s.history), s.workers, s.db, w);
  }

  /** The invariant is inductive: no step, of any party, under any failure or order of delivery, breaks it. */
  lemma StepKeepsInv(setup: Setup, s: State, step: Step)
    requires Inv(setup, s) && Enabled(setup, s, step)
    ensures Inv(setup, Next(setup, s, step))
  {
    hide Inv, Next;
    match step
    case Insert(b, token) => InsertStep(setup, s, b, token);
    case Dequeue => DequeueStep(setup, s);
    case Acquire => AcquireStep(setup, s);
    case Fetch => FetchStep(setup, s);
    case Hand => HandStep(setup, s);
    case Register(w) => RegisterStep(setup, s, w);
    case Receive(w) => ReceiveStep(setup, s, w);
    case Read(w, plan) => ReadStep(setup, s, w, plan);
    case Execute(w, works) => ExecuteStep(setup, s, w, works);
    case Report(w, ok) => ReportStep(setup, s, w, ok);
  }

  // ---------------------------------------------------------------- runs

  ghost predicate ValidRun(setup: Setup, s: State, steps: seq<Step>)
    requires Inv(setup, s)
    decreases |steps|
  {
    steps == [] ||
    (Enabled(setup, s, steps[0]) &&
     (StepKeepsInv(setup, s, steps[0]); ValidRun(setup, Next(setup, s, steps[0]), steps[1..])))
  }

  ghost function Run(setup: Setup, s: State, steps: seq<Step>): (s': State)
    requires Inv(setup, s) && ValidRun(setup, s, steps)
    ensures Inv(setup, s')
    decreases |steps|
  {
    if steps == [] then s
    else
      StepKeepsInv(setup, s, steps[0]);
      Run(setup, Next(setup, s, steps[0]), steps[1..])
  }

  /** A run of the process from its start. */
  ghost predicate RunFromStart(setup: Setup, steps: seq<Step>)
    requires WellFormed(setup.cfg)
  {
    InitInv(setup);
    ValidRun(setup, Init(setup), steps)
  }

  ghost function Reached(setup: Setup, steps: seq<Step>): (s: State)
    requires WellFormed(setup.cfg) && RunFromStart(setup, steps)
    ensures Inv(setup, s)
  {
    InitInv(setup);
    Run(setup, Init(setup), steps)
  }
}
