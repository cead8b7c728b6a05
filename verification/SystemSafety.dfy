/** Every step keeps the invariant, whatever arrives and whatever fails. */
module SystemSafety {
  import opened Bundles
  import opened Conflation
  import opened Tables
  import opened Diffs
  import opened Retry
  import opened System

  // ---------------------------------------------------------------- units

  lemma ReceivedMore(received: seq<Bundle>, b: Bundle, hub: string, bundleType: string)
    ensures MaxGen(received + [b], hub, bundleType) ==
            if b.hub == hub && b.bundleType == bundleType then Max(MaxGen(received, hub, bundleType), b.generation)
            else MaxGen(received, hub, bundleType)
  {
    assert (received + [b])[..|received|] == received;
  }

  lemma DoneMore(history: seq<Attempt>, a: Attempt, hub: string, bundleType: string)
    ensures MaxOk(history + [a], hub, bundleType) ==
            if a.ok && a.bundle.hub == hub && a.bundle.bundleType == bundleType
            then Max(MaxOk(history, hub, bundleType), a.bundle.generation)
            else MaxOk(history, hub, bundleType)
  {
    assert (history + [a])[..|history|] == history;
  }

  lemma InsertKeepsHub(
    cfg: Config, u: Unit, b: Bundle, token: int, hub: string, received: seq<Bundle>, history: seq<Attempt>)
    requires HubOk(cfg, u, hub, received, history) && b.bundleType in cfg.priorityOf
    ensures b.hub != hub ==> HubOk(cfg, u, hub, received + [b], history)
    ensures b.hub == hub ==> HubOk(cfg, Conflation.Insert(cfg, u, b, token), hub, received + [b], history)
  {
    hide MaxGen, MaxOk;
    forall t { ReceivedMore(received, b, hub, t); }
    if b.hub == hub {
      InsertKeepsInv(cfg, u, b, token);
      InsertChanges(cfg, u, b, token);
      InsertStores(cfg, u, b, token);
    }
  }

  lemma InsertStores(cfg: Config, u: Unit, b: Bundle, token: int)
    requires UnitInv(cfg, u) && b.bundleType in cfg.priorityOf
    ensures var e, e' := u.elements[cfg.priorityOf[b.bundleType]],
                         Conflation.Insert(cfg, u, b, token).elements[cfg.priorityOf[b.bundleType]];
            e'.bundle == Some(b) || e' == e
  {
  }

  lemma InsertKeepsHubs(cfg: Config, units: map<string, Unit>, b: Bundle, token: int,
                        received: seq<Bundle>, history: seq<Attempt>)
    requires HubsOk(cfg, units, received, history) && b.bundleType in cfg.priorityOf
    requires UnitInv(cfg, UnitOf(cfg, units, b.hub))
    ensures HubsOk(cfg, units[b.hub := Conflation.Insert(cfg, UnitOf(cfg, units, b.hub), b, token)], received + [b], history)
  {
    hide WellFormed, ElementOk, SingleFlight, AnyInProcess, FirstReady, AtHome, UpToDate, Conflation.Insert, NewUnit;
    var u := UnitOf(cfg, units, b.hub);
    var units' := units[b.hub := Conflation.Insert(cfg, u, b, token)];
    forall h ensures HubOk(cfg, UnitOf(cfg, units', h), h, received + [b], history) {
      InsertKeepsHub(cfg, UnitOf(cfg, units, h), b, token, h, received, history);
    }
  }

  lemma GetNextKeepsHub(cfg: Config, u: Unit, hub: string, received: seq<Bundle>, history: seq<Attempt>)
    requires HubOk(cfg, u, hub, received, history) && u.inReadyQueue
    ensures var (v, next) := GetNext(cfg, u);
      && HubOk(cfg, v, hub, received, history)
      && (next.None? ==> v == u)
      && (next.Some? ==> !v.inReadyQueue && JobOk(cfg, v, received, Job(hub, next.value)))
  {
    hide MaxGen, MaxOk, InFlight, WellFormed, Ready;
    GetNextKeepsInv(cfg, u);
    var p := FirstReady(cfg, u.elements, 0);
    if p.Some? {
      assert ElementOk(cfg.slots[p.value], u.elements[p.value]);
      ReadyHasBundle(cfg, u.elements, p.value);
    }
  }

  lemma ReadyHasBundle(cfg: Config, els: seq<Element>, p: nat)
    requires WellFormed(cfg) && |els| == |cfg.slots| && p < |els| && Ready(cfg, els, p)
    ensures els[p].bundle.Some?
  {
  }

  lemma FetchKeepsHubs(cfg: Config, units: map<string, Unit>, hub: string, received: seq<Bundle>, history: seq<Attempt>)
    requires HubsOk(cfg, units, received, history)
    requires UnitInv(cfg, UnitOf(cfg, units, hub)) && UnitOf(cfg, units, hub).inReadyQueue
    ensures HubsOk(cfg, units[hub := GetNext(cfg, UnitOf(cfg, units, hub)).0], received, history)
  {
    hide WellFormed, ElementOk, SingleFlight, AnyInProcess, FirstReady, AtHome, UpToDate, GetNext, NewUnit;
    var u := UnitOf(cfg, units, hub);
    GetNextKeepsHub(cfg, u, hub, received, history);
    var units' := units[hub := GetNext(cfg, u).0];
    forall h ensures HubOk(cfg, UnitOf(cfg, units', h), h, received, history) {
      assert HubOk(cfg, UnitOf(cfg, units, h), h, received, history);
    }
  }

  lemma ReportKeepsHub(
    cfg: Config, u: Unit, job: Job, ok: bool, executed: seq<Op>, received: seq<Bundle>, history: seq<Attempt>)
    requires HubOk(cfg, u, job.hub, received, history) && JobOk(cfg, u, received, job)
    ensures HubOk(cfg, Conflation.Report(cfg, u, job.fetched.metadata, ok), job.hub, received,
                  history + [Attempt(job.fetched.bundle, executed, ok)])
  {
    hide MaxGen, MaxOk, Conflation.Report;
    var a := Attempt(job.fetched.bundle, executed, ok);
    forall t { DoneMore(history, a, job.hub, t); }
    ReportKeepsInv(cfg, u, job.fetched, ok);
    ReportOutcome(cfg, u, job.fetched, ok);
  }

  lemma ReportKeepsHubs(
    cfg: Config, units: map<string, Unit>, job: Job, ok: bool, executed: seq<Op>,
    received: seq<Bundle>, history: seq<Attempt>)
    requires HubsOk(cfg, units, received, history) && JobOk(cfg, UnitOf(cfg, units, job.hub), received, job)
    ensures HubsOk(cfg, units[job.hub := Conflation.Report(cfg, UnitOf(cfg, units, job.hub), job.fetched.metadata, ok)],
                   received, history + [Attempt(job.fetched.bundle, executed, ok)])
  {
    hide WellFormed, ElementOk, SingleFlight, AnyInProcess, FirstReady, AtHome, UpToDate, Conflation.Report, NewUnit;
    var u := UnitOf(cfg, units, job.hub);
    var a := Attempt(job.fetched.bundle, executed, ok);
    var units' := units[job.hub := Conflation.Report(cfg, u, job.fetched.metadata, ok)];
    forall h ensures HubOk(cfg, UnitOf(cfg, units', h), h, received, history + [a]) {
      if h == job.hub {
        ReportKeepsHub(cfg, u, job, ok, executed, received, history);
      } else {
        OtherHubDone(cfg, UnitOf(cfg, units, h), h, received, history, a);
      }
    }
  }

  lemma OtherHubDone(cfg: Config, u: Unit, hub: string, received: seq<Bundle>, history: seq<Attempt>, a: Attempt)
    requires HubOk(cfg, u, hub, received, history) && a.bundle.hub != hub
    ensures HubOk(cfg, u, hub, received, history + [a])
  {
    hide MaxGen, MaxOk, WellFormed, ElementOk, SingleFlight, AnyInProcess, FirstReady;
    forall t { DoneMore(history, a, hub, t); }
  }

  // ---------------------------------------------------------------- queue

  lemma AnnounceKeepsQueue(
    cfg: Config, units: map<string, Unit>, queue: seq<string>, held: Option<string>, hub: string, v: Unit)
    requires QueueOk(cfg, units, queue, held)
    requires UnitOf(cfg, units, hub).inReadyQueue ==> v.inReadyQueue
    ensures QueueOk(cfg, units[hub := v], Announce(queue, hub, UnitOf(cfg, units, hub), v), held)
  {
  }

  lemma DequeueKeepsQueue(cfg: Config, units: map<string, Unit>, queue: seq<string>)
    requires QueueOk(cfg, units, queue, None) && queue != []
    ensures QueueOk(cfg, units, queue[1..], Some(queue[0]))
  {
    assert queue[0] in queue;
    forall h | h in queue[1..] ensures h in queue && h != queue[0] {
      var i :| 0 <= i < |queue[1..]| && queue[1..][i] == h;
      assert queue[i + 1] == h;
    }
  }

  lemma FetchKeepsQueue(cfg: Config, units: map<string, Unit>, queue: seq<string>, hub: string, v: Unit)
    requires QueueOk(cfg, units, queue, Some(hub))
    ensures QueueOk(cfg, units[hub := v], queue, None)
  {
  }

  // ---------------------------------------------------------------- workers

  lemma AcquireKeepsWorkers(size: nat, pool: seq<nat>, workers: seq<Worker>)
    requires WorkersOk(size, pool, workers, None) && pool != []
    ensures WorkersOk(size, pool[1..], workers, Some(pool[0]))
  {
    assert pool[0] in pool;
    forall w | w in pool[1..] ensures w in pool && w != pool[0] {
      var i :| 0 <= i < |pool[1..]| && pool[1..][i] == w;
      assert pool[i + 1] == w;
    }
  }

  lemma HandKeepsWorkers(size: nat, pool: seq<nat>, workers: seq<Worker>, w: nat, job: Job)
    requires WorkersOk(size, pool, workers, Some(w))
    ensures WorkersOk(size, pool, workers[w := workers[w].(jobs := workers[w].jobs + [job])], None)
  {
  }

  lemma RegisterKeepsWorkers(size: nat, pool: seq<nat>, workers: seq<Worker>, held: Option<nat>, w: nat)
    requires WorkersOk(size, pool, workers, held) && w < |workers| && workers[w].pc.Registering?
    ensures WorkersOk(size, pool + [w], workers[w := workers[w].(pc := Waiting)], held)
  {
  }

  /** A busy worker is neither in the pool nor in the dispatcher's hand. */
  lemma BusyKeepsWorkers(size: nat, pool: seq<nat>, workers: seq<Worker>, held: Option<nat>, w: nat, after: Worker)
    requires WorkersOk(size, pool, workers, held) && w < |workers| && !Free(workers[w]) && after.jobs == []
    ensures WorkersOk(size, pool, workers[w := after], held)
  {
  }

  // ---------------------------------------------------------------- jobs

  /** Jobs stay good when they stay where they are, or one moves to another place. */
  lemma MoveKeepsJobs(
    cfg: Config, units: map<string, Unit>, received: seq<Bundle>,
    d: Dispatcher, workers: seq<Worker>, d': Dispatcher, workers': seq<Worker>, from: Holder, to: Holder)
    requires JobsOk(cfg, units, received, d, workers)
    requires forall x | x != from && x != to :: JobAt(d', workers', x) == JobAt(d, workers, x)
    requires JobAt(d', workers', to) == JobAt(d, workers, from)
    requires from != to ==> JobAt(d', workers', from).None? && JobAt(d, workers, to).None?
    ensures JobsOk(cfg, units, received, d', workers')
  {
    hide JobOk, JobAt;
    forall h | Busy(cfg, units, h) ensures exists x :: HasJobOf(d', workers', x, h) {
      var x :| HasJobOf(d, workers, x, h);
      assert HasJobOf(d', workers', if x == from then to else x, h);
    }
  }

  lemma SameJobs(
    cfg: Config, units: map<string, Unit>, received: seq<Bundle>,
    d: Dispatcher, workers: seq<Worker>, d': Dispatcher, workers': seq<Worker>)
    requires JobsOk(cfg, units, received, d, workers)
    requires forall x :: JobAt(d', workers', x) == JobAt(d, workers, x)
    ensures JobsOk(cfg, units, received, d', workers')
  {
    hide JobsOk, JobAt;
    MoveKeepsJobs(cfg, units, received, d, workers, d', workers', OfDispatcher, OfDispatcher);
  }

  lemma InsertKeepsJobs(cfg: Config, units: map<string, Unit>, received: seq<Bundle>, d: Dispatcher, workers: seq<Worker>,
                        b: Bundle, token: int)
    requires JobsOk(cfg, units, received, d, workers) && b.bundleType in cfg.priorityOf
    requires UnitInv(cfg, UnitOf(cfg, units, b.hub))
    ensures JobsOk(cfg, units[b.hub := Conflation.Insert(cfg, UnitOf(cfg, units, b.hub), b, token)], received + [b], d, workers)
  {
    hide JobAt, WellFormed, ElementOk, SingleFlight, AnyInProcess, FirstReady, InFlight, Conflation.Insert, NewUnit;
    var u := UnitOf(cfg, units, b.hub);
    var v := Conflation.Insert(cfg, u, b, token);
    var units' := units[b.hub := v];
    InsertKeepsInv(cfg, u, b, token);
    forall x | JobAt(d, workers, x).Some?
      ensures JobOk(cfg, UnitOf(cfg, units', JobAt(d, workers, x).value.hub), received + [b], JobAt(d, workers, x).value)
    {
      var job := JobAt(d, workers, x).value;
      assert JobOk(cfg, UnitOf(cfg, units, job.hub), received, job);
      if job.hub == b.hub {
        InsertKeepsInFlight(cfg, u, b, token, job.fetched);
      }
    }
    forall h | Busy(cfg, units', h) ensures Busy(cfg, units, h) {
    }
  }

  /** The new job is its unit's only one: the unit was queued, so nothing of it was in process. */
  lemma FetchKeepsJobs(cfg: Config, units: map<string, Unit>, received: seq<Bundle>, d: Dispatcher, workers: seq<Worker>,
                       w: nat, v: Unit, job: Job)
    requires JobsOk(cfg, units, received, d, workers) && d.Fetching?
    requires UnitInv(cfg, UnitOf(cfg, units, job.hub)) && UnitOf(cfg, units, job.hub).inReadyQueue
    requires JobOk(cfg, v, received, job)
    ensures JobsOk(cfg, units[job.hub := v], received, Handing(w, job), workers)
  {
    hide InFlight, NewUnit;
    hide JobAt, NewUnit, WellFormed, ElementOk, SingleFlight, FirstReady;
    var d' := Handing(w, job);
    var units' := units[job.hub := v];
    HandingJobAt(d, workers, w, job);
    forall x | JobAt(d, workers, x).Some? ensures JobAt(d, workers, x).value.hub != job.hub {
      var other := JobAt(d, workers, x).value;
      assert JobOk(cfg, UnitOf(cfg, units, other.hub), received, other);
      InFlightIsBusy(cfg, UnitOf(cfg, units, other.hub), other.fetched);
    }
    forall h | Busy(cfg, units', h) ensures exists x :: HasJobOf(d', workers, x, h) {
      if h == job.hub {
        assert HasJobOf(d', workers, OfDispatcher, h);
      } else {
        assert Busy(cfg, units, h);
        var x :| HasJobOf(d, workers, x, h);
        assert HasJobOf(d', workers, x, h);
      }
    }
  }

  lemma HandingJobAt(d: Dispatcher, workers: seq<Worker>, w: nat, job: Job)
    requires d.Fetching?
    ensures JobAt(d, workers, OfDispatcher).None?
    ensures JobAt(Handing(w, job), workers, OfDispatcher) == Some(job)
    ensures forall x | x != OfDispatcher :: JobAt(Handing(w, job), workers, x) == JobAt(d, workers, x)
  {
  }

  lemma InFlightIsBusy(cfg: Config, u: Unit, f: Fetched)
    requires UnitInv(cfg, u) && InFlight(cfg, u, f)
    ensures AnyInProcess(u.elements) && !u.inReadyQueue
  {
    assert u.elements[cfg.priorityOf[f.metadata.bundleType]].inProcess;
  }

  /** The job that ends was its unit's only one. */
  lemma ReportKeepsJobs(cfg: Config, units: map<string, Unit>, received: seq<Bundle>, d: Dispatcher, workers: seq<Worker>,
                        w: nat, v: Unit, job: Job)
    requires JobsOk(cfg, units, received, d, workers) && w < |workers| && workers[w].jobs == []
    requires JobAt(d, workers, OfWorker(w)) == Some(job)
    requires UnitInv(cfg, v) && !AnyInProcess(v.elements)
    ensures JobsOk(cfg, units[job.hub := v], received, d, workers[w := Worker(Registering, [])])
  {
    hide JobAt, NewUnit, WellFormed, ElementOk, SingleFlight, FirstReady, AnyInProcess;
    var workers' := workers[w := Worker(Registering, [])];
    var units' := units[job.hub := v];
    RegisteringJobAt(d, workers, w);
    forall x | JobAt(d, workers', x).Some?
      ensures JobAt(d, workers', x).value.hub != job.hub && JobAt(d, workers', x) == JobAt(d, workers, x)
    {
      assert x != OfWorker(w) && JobAt(d, workers', x) == JobAt(d, workers, x);
      assert JobAt(d, workers, OfWorker(w)).value.hub == job.hub;
    }
    forall h | Busy(cfg, units', h) ensures exists x :: HasJobOf(d, workers', x, h) {
      assert h != job.hub;
      assert Busy(cfg, units, h);
      var x :| HasJobOf(d, workers, x, h);
      assert HasJobOf(d, workers', x, h);
    }
  }

  lemma RegisteringJobAt(d: Dispatcher, workers: seq<Worker>, w: nat)
    requires w < |workers|
    ensures JobAt(d, workers[w := Worker(Registering, [])], OfWorker(w)).None?
    ensures forall x | x != OfWorker(w) :: JobAt(d, workers[w := Worker(Registering, [])], x) == JobAt(d, workers, x)
  {
  }

  // ---------------------------------------------------------------- tables

  lemma DiffHub(t: Table, hub: string, contents: Contents)
    ensures forall o | o in Diff(t, hub, contents) :: o.hub == hub
  {
    hide StatusRows, Pairs, NonCompliantRows, FindStatus, FindCluster, FindSummary, ClusterRows, AggregateRows, VersionAt;
    match contents
    case ClustersPerPolicy(objs) => PairsPolicies(hub, objs);
    case ComplianceStatus(objs) =>
    case ManagedClusters(objs) =>
    case MinimalComplianceStatus(objs) =>
  }

  lemma SameSenders(before: Table, workers: seq<Worker>, workers': seq<Worker>, db: Table)
    requires DbOk(before, workers, db) && |workers'| == |workers|
    requires forall w | 0 <= w < |workers| ::
               workers[w].pc.Sending? || workers'[w].pc.Sending? ==> workers'[w].pc == workers[w].pc
    ensures DbOk(before, workers', db)
  {
    hide SenderOk, SameHub;
    forall h | forall w | 0 <= w < |workers'| :: !SendsFor(workers'[w], h) ensures SameHub(db, before, h) {
      assert forall w | 0 <= w < |workers| :: SendsFor(workers[w], h) <==> SendsFor(workers'[w], h);
    }
  }

  /** A handler that starts is the only one of its hub, so it reads what the finished attempts left. */
  lemma ReadKeepsDb(before: Table, workers: seq<Worker>, db: Table, w: nat, plan: seq<Op>)
    requires DbOk(before, workers, db) && w < |workers| && workers[w].pc.Started?
    requires var b := workers[w].pc.job.fetched.bundle;
      && Elements(plan) == Diff(db, b.hub, b.contents)
      && forall i | 0 <= i < |workers| :: !SendsFor(workers[i], b.hub)
    ensures DbOk(before, workers[w := workers[w].(pc := Sending(workers[w].pc.job, plan, 0, [], false))], db)
  {
    hide Diff, SameHub;
    var b := workers[w].pc.job.fetched.bundle;
    var pc := Sending(workers[w].pc.job, plan, 0, [], false);
    var workers' := workers[w := workers[w].(pc := pc)];
    DiffLocal(db, before, b.hub, b.contents);
    assert SenderOk(before, db, pc);
    hide SenderOk;
    forall h | forall i | 0 <= i < |workers'| :: !SendsFor(workers'[i], h) ensures SameHub(db, before, h) {
      assert forall i | 0 <= i < |workers| && i != w :: SendsFor(workers[i], h) <==> SendsFor(workers'[i], h);
    }
  }

  /** One statement of one handler changes no other hub's rows. */
  lemma ExecuteKeepsSender(before: Table, db: Table, pc: WorkerPc, works: bool)
    requires pc.Sending? && SenderOk(before, db, pc) && pc.next < |pc.plan|
    ensures SenderOk(before, if works then ApplyOp(pc.plan[pc.next], db) else db, ExecuteOne(pc, works))
    ensures pc.plan[pc.next].hub == pc.job.fetched.bundle.hub
  {
    hide Diff, ApplyOp;
    var b := pc.job.fetched.bundle;
    var op := pc.plan[pc.next];
    DiffHub(before, b.hub, b.contents);
    assert op in Elements(pc.plan);
    assert pc.plan[..pc.next + 1] == pc.plan[..pc.next] + [op];
    if works {
      ApplyOpsAppend(pc.done, op, before);
    }
  }

  lemma OneOpLocal(op: Op, db: Table, hub: string)
    requires op.hub != hub
    ensures SameHub(ApplyOp(op, db), db, hub)
  {
  }

  lemma SenderElsewhere(before: Table, db: Table, db': Table, pc: WorkerPc)
    requires pc.Sending? && SenderOk(before, db, pc) && SameHub(db', db, pc.job.fetched.bundle.hub)
    ensures SenderOk(before, db', pc)
  {
  }

  lemma ExecuteKeepsDb(before: Table, workers: seq<Worker>, db: Table, w: nat, works: bool)
    requires DbOk(before, workers, db)
    requires w < |workers| && workers[w].pc.Sending? && workers[w].pc.next < |workers[w].pc.plan|
    requires forall i | 0 <= i < |workers| && i != w :: !SendsFor(workers[i], workers[w].pc.job.fetched.bundle.hub)
    ensures var pc := workers[w].pc;
            DbOk(before, workers[w := workers[w].(pc := ExecuteOne(pc, works))],
                 if works then ApplyOp(pc.plan[pc.next], db) else db)
  {
    hide ApplyOp, SenderOk;
    var pc := workers[w].pc;
    var hub := pc.job.fetched.bundle.hub;
    var workers' := workers[w := workers[w].(pc := ExecuteOne(pc, works))];
    var db' := if works then ApplyOp(pc.plan[pc.next], db) else db;
    ExecuteKeepsSender(before, db, pc, works);
    forall h | h != hub ensures SameHub(db', db, h) {
      if works { OneOpLocal(pc.plan[pc.next], db, h); }
    }
    forall i | 0 <= i < |workers'| && workers'[i].pc.Sending? ensures SenderOk(before, db', workers'[i].pc) {
      if i != w {
        assert !SendsFor(workers[i], hub);
        SenderElsewhere(before, db, db', workers[i].pc);
      }
    }
    forall h | forall i | 0 <= i < |workers'| :: !SendsFor(workers'[i], h) ensures SameHub(db', before, h) {
      assert !SendsFor(workers'[w], h);
      assert forall i | 0 <= i < |workers| :: SendsFor(workers[i], h) <==> SendsFor(workers'[i], h);
      assert SameHub(db', db, h) && SameHub(db, before, h);
    }
  }

  /** The tables after one more attempt, seen from its hub and from the others. */
  lemma ReplayMore(initial: Table, history: seq<Attempt>, a: Attempt)
    ensures Replay(initial, history + [a]) == ApplyOps(a.executed, Replay(initial, history))
  {
    assert (history + [a])[..|history|] == history;
  }

  /** What a handler elsewhere did is the same beside one more finished attempt. */
  lemma SenderBesideReport(before: Table, after: Table, db: Table, pc: WorkerPc)
    requires pc.Sending? && SenderOk(before, db, pc) && SameHub(after, before, pc.job.fetched.bundle.hub)
    ensures SenderOk(after, db, pc)
  {
    var b := pc.job.fetched.bundle;
    DiffLocal(before, after, b.hub, b.contents);
    DiffHub(before, b.hub, b.contents);
    hide Diff, ApplyOps;
    forall o | o in pc.done ensures o.hub == b.hub { assert o in Elements(pc.done); }
    HubLocal(pc.done, before, after, b.hub);
  }

  lemma ReportKeepsDb(before: Table, workers: seq<Worker>, db: Table, w: nat)
    requires DbOk(before, workers, db) && w < |workers| && (workers[w].pc.Started? || workers[w].pc.Sending?)
    requires var hub := workers[w].pc.job.fetched.bundle.hub;
             forall i | 0 <= i < |workers| && i != w :: !SendsFor(workers[i], hub)
    ensures DbOk(ApplyOps(Executed(workers[w].pc), before), workers[w := Worker(Registering, [])], db)
  {
    hide ApplyOps, Diff, SenderOk;
    var pc := workers[w].pc;
    var hub := pc.job.fetched.bundle.hub;
    var after := ApplyOps(Executed(pc), before);
    var workers' := workers[w := Worker(Registering, [])];
    ReportedHub(before, workers, db, w);
    forall i | 0 <= i < |workers'| && workers'[i].pc.Sending? ensures SenderOk(after, db, workers'[i].pc) {
      assert !SendsFor(workers[i], hub);
      SenderBesideReport(before, after, db, workers[i].pc);
    }
    forall h | forall i | 0 <= i < |workers'| :: !SendsFor(workers'[i], h) ensures SameHub(db, after, h) {
      if h != hub {
        assert forall i | 0 <= i < |workers| :: SendsFor(workers[i], h) ==> i != w && SendsFor(workers'[i], h);
        assert SameHub(db, before, h) && SameHub(after, before, h);
      }
    }
  }

  lemma ReportedHub(before: Table, workers: seq<Worker>, db: Table, w: nat)
    requires DbOk(before, workers, db) && w < |workers| && (workers[w].pc.Started? || workers[w].pc.Sending?)
    requires var hub := workers[w].pc.job.fetched.bundle.hub;
             forall i | 0 <= i < |workers| && i != w :: !SendsFor(workers[i], hub)
    ensures var hub, after := workers[w].pc.job.fetched.bundle.hub, ApplyOps(Executed(workers[w].pc), before);
            SameHub(db, after, hub) && forall h | h != hub :: SameHub(after, before, h)
  {
    hide Diff;
    var pc := workers[w].pc;
    var b := pc.job.fetched.bundle;
    DiffHub(before, b.hub, b.contents);
    forall o | o in Executed(pc) ensures o.hub == b.hub { assert o in Elements(pc.done); }
    if pc.Started? {
      assert forall i | 0 <= i < |workers| :: !SendsFor(workers[i], b.hub);
    }
    hide ApplyOps, SenderOk;
    forall h | h != b.hub { OtherHubsUntouched(Executed(pc), before, b.hub, h); }
  }
}
