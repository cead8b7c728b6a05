/**
 The whole process as a step relation: transport inserts, the dispatcher and the database workers interleave, and
 handlers run their statements one at a time on shared tables. A failing handler may have run any part of its
 statements.
 */
module System {
  import opened Bundles
  import opened Conflation
  import opened Tables
  import opened Diffs

  /** A bundle on its way from GetNext to ReportResult; `hub` names the unit that gave it out. */
  datatype Job = Job(hub: string, fetched: Fetched)

  datatype Worker = Worker(pc: WorkerPc, jobs: seq<Job>)

  /** Where a worker's loop is. A sender has run `done` out of the first `next` operations of its plan. */
  datatype WorkerPc =
    | Registering
    | Waiting
    | Started(job: Job)
    | Sending(job: Job, plan: seq<Op>, next: nat, done: seq<Op>, failed: bool)

  /** Where the dispatcher's loop is: what it has dequeued and acquired so far. */
  datatype Dispatcher =
    | Dequeuing
    | Acquiring(hub: string)
    | Fetching(hub: string, worker: nat)
    | Handing(worker: nat, job: Job)

  /** A handler that ran: what reached the tables, and what was reported. */
  datatype Attempt = Attempt(bundle: Bundle, executed: seq<Op>, ok: bool)

  /** `received` and `history` record what arrived and what was attempted; no step depends on them. */
  datatype State = State(
    units: map<string, Unit>,
    queue: seq<string>,
    dispatcher: Dispatcher,
    pool: seq<nat>,
    workers: seq<Worker>,
    db: Table,
    received: seq<Bundle>,
    history: seq<Attempt>)

  datatype Setup = Setup(cfg: Config, size: nat, initial: Table)

  datatype Step =
    | Insert(bundle: Bundle, token: int)
    | Dequeue
    | Acquire
    | Fetch
    | Hand
    | Register(worker: nat)
    | Receive(worker: nat)
    | Read(worker: nat, plan: seq<Op>)
    | Execute(worker: nat, works: bool)
    | Report(worker: nat, ok: bool)

  function Init(setup: Setup): State {
    State(map[], [], Dequeuing, [], seq(setup.size, i => Worker(Registering, [])), setup.initial, [], [])
  }

  // ---------------------------------------------------------------- what was received and done

  /** The newest generation received of a type; 0 if none. */
  function MaxGen(received: seq<Bundle>, hub: string, bundleType: string): nat {
    if received == [] then 0
    else
      var last, rest := received[|received| - 1], MaxGen(received[..|received| - 1], hub, bundleType);
      if last.hub == hub && last.bundleType == bundleType then Max(rest, last.generation) else rest
  }

  /** The newest generation of a type that was handled successfully; 0 if none. */
  function MaxOk(history: seq<Attempt>, hub: string, bundleType: string): nat {
    if history == [] then 0
    else
      var last, rest := history[|history| - 1], MaxOk(history[..|history| - 1], hub, bundleType);
      if last.ok && last.bundle.hub == hub && last.bundle.bundleType == bundleType then Max(rest, last.bundle.generation)
      else rest
  }

  /** The tables after the attempts, one after the other. */
  function Replay(initial: Table, history: seq<Attempt>): Table {
    if history == [] then initial
    else ApplyOps(history[|history| - 1].executed, Replay(initial, history[..|history| - 1]))
  }

  // ---------------------------------------------------------------- where the jobs are

  datatype Holder = OfDispatcher | OfWorker(worker: nat)

  function WorkerJob(w: Worker): Option<Job> {
    if w.jobs != [] then Some(w.jobs[0])
    else if w.pc.Started? || w.pc.Sending? then Some(w.pc.job)
    else None
  }

  function JobAt(d: Dispatcher, workers: seq<Worker>, x: Holder): Option<Job> {
    match x
    case OfDispatcher => if d.Handing? then Some(d.job) else None
    case OfWorker(w) => if w < |workers| then WorkerJob(workers[w]) else None
  }

  predicate HasJobOf(d: Dispatcher, workers: seq<Worker>, x: Holder, hub: string) {
    JobAt(d, workers, x).Some? && JobAt(d, workers, x).value.hub == hub
  }

  /** The unit in the dispatcher's hand. */
  function HeldHub(d: Dispatcher): Option<string> {
    if d.Acquiring? || d.Fetching? then Some(d.hub) else None
  }

  function HeldWorker(d: Dispatcher): Option<nat> {
    if d.Fetching? || d.Handing? then Some(d.worker) else None
  }

  // ---------------------------------------------------------------- invariant

  ghost predicate NoDuplicates<T(!new)>(s: seq<T>) {
    forall i, j | 0 <= i < j < |s| :: s[i] != s[j]
  }

  /** A unit's pending bundles are its own hub's, and were received. */
  ghost predicate AtHome(u: Unit, hub: string, received: seq<Bundle>) {
    forall i | 0 <= i < |u.elements| && u.elements[i].bundle.Some? ::
      u.elements[i].bundle.value.hub == hub && u.elements[i].bundle.value in received
  }

  /** What a unit knows is the newest generation received, and what it processed the newest one that succeeded. */
  ghost predicate UpToDate(cfg: Config, u: Unit, hub: string, received: seq<Bundle>, history: seq<Attempt>)
    requires |u.elements| == |cfg.slots|
  {
    forall p | 0 <= p < |cfg.slots| ::
      && Known(u.elements[p]) == MaxGen(received, hub, cfg.slots[p].bundleType)
      && u.elements[p].lastProcessed == MaxOk(history, hub, cfg.slots[p].bundleType)
  }

  ghost predicate HubOk(cfg: Config, u: Unit, hub: string, received: seq<Bundle>, history: seq<Attempt>) {
    UnitInv(cfg, u) && AtHome(u, hub, received) && UpToDate(cfg, u, hub, received, history)
  }

  ghost predicate HubsOk(cfg: Config, units: map<string, Unit>, received: seq<Bundle>, history: seq<Attempt>) {
    forall h :: HubOk(cfg, UnitOf(cfg, units, h), h, received, history)
  }

  /** Queued and held units are flagged, and no unit is there twice. */
  ghost predicate QueueOk(cfg: Config, units: map<string, Unit>, queue: seq<string>, held: Option<string>) {
    && NoDuplicates(queue)
    && (forall h | h in queue :: h in units && units[h].inReadyQueue)
    && (held.Some? ==> held.value in units && units[held.value].inReadyQueue && held.value !in queue)
  }

  predicate Free(w: Worker) {
    w.pc.Waiting? && w.jobs == []
  }

  /** A worker in the pool or in the dispatcher's hand is free, and is there only once. */
  ghost predicate WorkersOk(size: nat, pool: seq<nat>, workers: seq<Worker>, held: Option<nat>) {
    && |workers| == size
    && NoDuplicates(pool)
    && (forall w | w in pool :: w < |workers| && Free(workers[w]))
    && (held.Some? ==> held.value < |workers| && Free(workers[held.value]) && held.value !in pool)
    && (forall w | 0 <= w < |workers| && workers[w].jobs != [] :: workers[w].pc.Waiting? && |workers[w].jobs| == 1)
  }

  predicate Busy(cfg: Config, units: map<string, Unit>, hub: string) {
    AnyInProcess(UnitOf(cfg, units, hub).elements)
  }

  ghost predicate JobOk(cfg: Config, u: Unit, received: seq<Bundle>, job: Job) {
    && UnitInv(cfg, u)
    && InFlight(cfg, u, job.fetched)
    && job.fetched.bundle.hub == job.hub && job.fetched.bundle in received
  }

  /** Every bundle in process is one job's, a unit has at most one job, and a job's bundle is in process. */
  ghost predicate JobsOk(
    cfg: Config, units: map<string, Unit>, received: seq<Bundle>, d: Dispatcher, workers: seq<Worker>) {
    && (forall x | JobAt(d, workers, x).Some? ::
          JobOk(cfg, UnitOf(cfg, units, JobAt(d, workers, x).value.hub), received, JobAt(d, workers, x).value))
    && (forall x, y | JobAt(d, workers, x).Some? && JobAt(d, workers, y).Some? &&
                      JobAt(d, workers, x).value.hub == JobAt(d, workers, y).value.hub :: x == y)
    && (forall h | Busy(cfg, units, h) :: exists x :: HasJobOf(d, workers, x, h))
  }

  /** A sender works from the differences with the tables as the finished attempts left them. */
  ghost predicate SenderOk(before: Table, db: Table, pc: WorkerPc)
    requires pc.Sending?
  {
    var b := pc.job.fetched.bundle;
    && Elements(pc.plan) == Diff(before, b.hub, b.contents)
    && pc.next <= |pc.plan|
    && Elements(pc.done) <= Elements(pc.plan)
    && (!pc.failed ==> pc.done == pc.plan[..pc.next])
    && SameHub(db, ApplyOps(pc.done, before), b.hub)
  }

  ghost predicate SendsFor(w: Worker, hub: string) {
    w.pc.Sending? && w.pc.job.fetched.bundle.hub == hub
  }

  /** Apart from what the senders did to their own hubs, the tables are those of the finished attempts. */
  ghost predicate DbOk(before: Table, workers: seq<Worker>, db: Table) {
    && (forall w | 0 <= w < |workers| && workers[w].pc.Sending? :: SenderOk(before, db, workers[w].pc))
    && (forall h | (forall w | 0 <= w < |workers| :: !SendsFor(workers[w], h)) :: SameHub(db, before, h))
  }

  /** An attempt that acted on a part of the differences, on all of them if it succeeded. */
  ghost predicate AttemptOk(before: Table, a: Attempt) {
    var diff := Diff(before, a.bundle.hub, a.bundle.contents);
    Elements(a.executed) <= diff && (a.ok ==> Elements(a.executed) == diff)
  }

  /** The attempts are as if each had run alone, on the tables the ones before it left. */
  ghost predicate Serial(initial: Table, history: seq<Attempt>) {
    history == [] ||
    (Serial(initial, history[..|history| - 1]) &&
     AttemptOk(Replay(initial, history[..|history| - 1]), history[|history| - 1]))
  }

  /** An attempt is newer than every success of its type, and what it depends on had succeeded before. */
  ghost predicate InOrder(cfg: Config, before: seq<Attempt>, b: Bundle) {
    && WellFormed(cfg)
    && b.bundleType in cfg.priorityOf
    && MaxOk(before, b.hub, b.bundleType) < b.generation
    && match cfg.slots[cfg.priorityOf[b.bundleType]].dependency
       case None => true
       case Some(t) => b.dependencyGeneration.Some? && b.dependencyGeneration.value <= MaxOk(before, b.hub, t)
  }

  ghost predicate Ordered(cfg: Config, history: seq<Attempt>) {
    history == [] ||
    (Ordered(cfg, history[..|history| - 1]) &&
     InOrder(cfg, history[..|history| - 1], history[|history| - 1].bundle))
  }

  /** Nothing is handled that was not received. */
  ghost predicate AllReceived(history: seq<Attempt>, received: seq<Bundle>) {
    forall i | 0 <= i < |history| :: history[i].bundle in received
  }

  ghost predicate Inv(setup: Setup, s: State) {
    && WellFormed(setup.cfg)
    && HubsOk(setup.cfg, s.units, s.received, s.history)
    && QueueOk(setup.cfg, s.units, s.queue, HeldHub(s.dispatcher))
    && WorkersOk(setup.size, s.pool, s.workers, HeldWorker(s.dispatcher))
    && JobsOk(setup.cfg, s.units, s.received, s.dispatcher, s.workers)
    && DbOk(Replay(setup.initial, s.history), s.workers, s.db)
    && Serial(setup.initial, s.history) && Ordered(setup.cfg, s.history) && AllReceived(s.history, s.received)
  }

  // ---------------------------------------------------------------- steps

  /** What a step waits for, and what it is free to choose. */
  ghost predicate Enabled(setup: Setup, s: State, step: Step) {
    match step
    case Insert(b, _) => b.bundleType in setup.cfg.priorityOf
    case Dequeue => s.dispatcher.Dequeuing? && s.queue != []
    case Acquire => s.dispatcher.Acquiring? && s.pool != []
    case Fetch => s.dispatcher.Fetching?
    case Hand => s.dispatcher.Handing? && s.dispatcher.worker < |s.workers| && |s.workers[s.dispatcher.worker].jobs| < 1
    case Register(w) => w < |s.workers| && s.workers[w].pc.Registering? && |s.pool| < setup.size
    case Receive(w) => w < |s.workers| && s.workers[w].pc.Waiting? && s.workers[w].jobs != []
    case Read(w, plan) =>
      && w < |s.workers| && s.workers[w].pc.Started?
      && var b := s.workers[w].pc.job.fetched.bundle;
         Elements(plan) == Diff(s.db, b.hub, b.contents)
    case Execute(w, _) =>
      w < |s.workers| && s.workers[w].pc.Sending? && s.workers[w].pc.next < |s.workers[w].pc.plan|
    case Report(w, ok) => w < |s.workers| && MayReport(s.workers[w].pc, ok)
  }

  /** A handler fails before its first statement, or ends after its last; it succeeds only if no statement failed. */
  predicate MayReport(pc: WorkerPc, ok: bool) {
    match pc
    case Started(_) => !ok
    case Sending(_, plan, next, _, failed) => next == |plan| && (ok ==> !failed)
    case _ => false
  }

  /** A unit is enqueued when an operation raises its flag. */
  function Announce(queue: seq<string>, hub: string, before: Unit, after: Unit): seq<string> {
    if after.inReadyQueue && !before.inReadyQueue then queue + [hub] else queue
  }

  function DoInsert(cfg: Config, s: State, b: Bundle, token: int): State
    requires WellFormed(cfg) && b.bundleType in cfg.priorityOf
    requires |UnitOf(cfg, s.units, b.hub).elements| == |cfg.slots|
  {
    var u := UnitOf(cfg, s.units, b.hub);
    var v := Conflation.Insert(cfg, u, b, token);
    s.(units := s.units[b.hub := v], queue := Announce(s.queue, b.hub, u, v), received := s.received + [b])
  }

  /** On errNoReadyBundle the dispatcher goes on, and neither the unit's flag nor the worker comes back. */
  function DoFetch(cfg: Config, s: State): State
    requires s.dispatcher.Fetching? && WellFormed(cfg) && Consistent(cfg, UnitOf(cfg, s.units, s.dispatcher.hub))
  {
    var hub := s.dispatcher.hub;
    var (u, next) := GetNext(cfg, UnitOf(cfg, s.units, hub));
    match next
    case None => s.(units := s.units[hub := u], dispatcher := Dequeuing)
    case Some(f) => s.(units := s.units[hub := u], dispatcher := Handing(s.dispatcher.worker, Job(hub, f)))
  }

  function Executed(pc: WorkerPc): seq<Op> {
    if pc.Sending? then pc.done else []
  }

  function DoReport(cfg: Config, s: State, w: nat, ok: bool): State
    requires WellFormed(cfg) && w < |s.workers| && MayReport(s.workers[w].pc, ok)
    requires JobOk(cfg, UnitOf(cfg, s.units, s.workers[w].pc.job.hub), s.received, s.workers[w].pc.job)
  {
    var pc := s.workers[w].pc;
    var u := UnitOf(cfg, s.units, pc.job.hub);
    var v := Conflation.Report(cfg, u, pc.job.fetched.metadata, ok);
    s.(units := s.units[pc.job.hub := v],
       queue := Announce(s.queue, pc.job.hub, u, v),
       workers := s.workers[w := Worker(Registering, s.workers[w].jobs)],
       history := s.history + [Attempt(pc.job.fetched.bundle, Executed(pc), ok)])
  }

  function ExecuteOne(pc: WorkerPc, works: bool): WorkerPc
    requires pc.Sending? && pc.next < |pc.plan|
  {
    if works then pc.(next := pc.next + 1, done := pc.done + [pc.plan[pc.next]])
    else pc.(next := pc.next + 1, failed := true)
  }

  function Next(setup: Setup, s: State, step: Step): State
    requires Inv(setup, s) && Enabled(setup, s, step)
  {
    match step
    case Insert(b, token) => EnabledUnit(setup, s, b.hub); DoInsert(setup.cfg, s, b, token)
    case Dequeue => s.(queue := s.queue[1..], dispatcher := Acquiring(s.queue[0]))
    case Acquire => s.(pool := s.pool[1..], dispatcher := Fetching(s.dispatcher.hub, s.pool[0]))
    case Fetch => EnabledUnit(setup, s, s.dispatcher.hub); DoFetch(setup.cfg, s)
    case Hand =>
      var w := s.dispatcher.worker;
      s.(dispatcher := Dequeuing,
         workers := s.workers[w := s.workers[w].(jobs := s.workers[w].jobs + [s.dispatcher.job])])
    case Register(w) =>
      s.(pool := s.pool + [w], workers := s.workers[w := s.workers[w].(pc := Waiting)])
    case Receive(w) =>
      s.(workers := s.workers[w := Worker(Started(s.workers[w].jobs[0]), s.workers[w].jobs[1..])])
    case Read(w, plan) =>
      s.(workers := s.workers[w := s.workers[w].(pc := Sending(s.workers[w].pc.job, plan, 0, [], false))])
    case Execute(w, works) =>
      var pc := s.workers[w].pc;
      s.(workers := s.workers[w := s.workers[w].(pc := ExecuteOne(pc, works))],
         db := if works then ApplyOp(pc.plan[pc.next], s.db) else s.db)
    case Report(w, ok) => EnabledJob(setup, s, w); DoReport(setup.cfg, s, w, ok)
  }

  lemma EnabledUnit(setup: Setup, s: State, hub: string)
    requires Inv(setup, s)
    ensures UnitInv(setup.cfg, UnitOf(setup.cfg, s.units, hub))
  {
    assert HubOk(setup.cfg, UnitOf(setup.cfg, s.units, hub), hub, s.received, s.history);
  }

  lemma EnabledJob(setup: Setup, s: State, w: nat)
    requires Inv(setup, s) && w < |s.workers| && (s.workers[w].pc.Started? || s.workers[w].pc.Sending?)
    ensures WorkerJob(s.workers[w]) == Some(s.workers[w].pc.job)
    ensures JobOk(setup.cfg, UnitOf(setup.cfg, s.units, s.workers[w].pc.job.hub), s.received, s.workers[w].pc.job)
  {
    assert JobAt(s.dispatcher, s.workers, OfWorker(w)) == Some(s.workers[w].pc.job);
  }
}
