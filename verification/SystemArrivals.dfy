/** What arrives reaches its unit, through the manager's delivery, and is handed out with the metadata it came with. */
module SystemArrivals {
  import opened Bundles
  import opened Conflation
  import opened ConflationLaws
  import opened Tables
  import opened Diffs
  import opened System
  import opened SystemSafety
  import opened SystemRuns

  // ---------------------------------------------------------------- delivery

  /** An arrival is a delivery by the manager: it changes the bundle's own unit, and the queue by at most that unit. */
  lemma ArrivalIsDelivery(setup: Setup, s: State, b: Bundle, token: int)
    requires Inv(setup, s) && b.bundleType in setup.cfg.priorityOf
    ensures forall h | h in s.units :: |s.units[h].elements| == |setup.cfg.slots|
    ensures var s' := Next(setup, s, Step.Insert(b, token));
      && s'.units == Deliver(setup.cfg, s.units, b, token)
      && Delivered(setup.cfg, s.units, s'.units, b, token)
      && s'.queue == s.queue + (if s'.units[b.hub].inReadyQueue && !UnitOf(setup.cfg, s.units, b.hub).inReadyQueue
                                then [b.hub] else [])
      && s' == s.(units := s'.units, queue := s'.queue, received := s.received + [b])
  {
    hide HubsOk, QueueOk, WorkersOk, JobsOk, DbOk, Serial, Ordered, WellFormed, Conflation.Insert, NewUnit, ElementOk,
      SingleFlight, AnyInProcess, FirstReady, Delivered;
    forall h | h in s.units ensures |s.units[h].elements| == |setup.cfg.slots| {
      EnabledUnit(setup, s, h);
    }
    EnabledUnit(setup, s, b.hub);
    DeliverReaches(setup.cfg, s.units, b, token);
  }

  // ---------------------------------------------------------------- tokens

  /** The bundles that arrived, each with the token of the transport that came with it. */
  function ArrivalsOf(steps: seq<Step>): set<(Bundle, int)> {
    set i | 0 <= i < |steps| && steps[i].Insert? :: (steps[i].bundle, steps[i].token)
  }

  ghost predicate UnitCarries(u: Unit, arrivals: set<(Bundle, int)>) {
    forall i | 0 <= i < |u.elements| && u.elements[i].bundle.Some? ::
      u.elements[i].metadata.Some? && (u.elements[i].bundle.value, u.elements[i].metadata.value.token) in arrivals
  }

  /** Every pending bundle, and every bundle handed out, is with the token it arrived with. */
  ghost predicate TokensMatch(cfg: Config, s: State, arrivals: set<(Bundle, int)>) {
    && (forall h :: UnitCarries(UnitOf(cfg, s.units, h), arrivals))
    && (forall x | JobAt(s.dispatcher, s.workers, x).Some? ::
          var f := JobAt(s.dispatcher, s.workers, x).value.fetched;
          (f.bundle, f.metadata.token) in arrivals)
  }

  lemma ReportKeepsTokens(cfg: Config, u: Unit, f: Fetched, ok: bool, arrivals: set<(Bundle, int)>)
    requires UnitInv(cfg, u) && InFlight(cfg, u, f) && UnitCarries(u, arrivals)
    ensures UnitCarries(Conflation.Report(cfg, u, f.metadata, ok), arrivals)
  {
  }

  lemma InsertKeepsTokens(cfg: Config, u: Unit, b: Bundle, token: int, arrivals: set<(Bundle, int)>)
    requires UnitInv(cfg, u) && b.bundleType in cfg.priorityOf && UnitCarries(u, arrivals)
    ensures UnitCarries(Conflation.Insert(cfg, u, b, token), arrivals + {(b, token)})
  {
    hide Conflation.Insert, UnitInv;
    InsertKeepsNewest(cfg, u, b, token);
  }

  /** A job that is somewhere after a step was somewhere before it, or was handed out by it. */
  lemma JobFromBefore(setup: Setup, s: State, step: Step, x: Holder) returns (y: Holder)
    requires Inv(setup, s) && Enabled(setup, s, step)
    requires JobAt(Next(setup, s, step).dispatcher, Next(setup, s, step).workers, x).Some?
    ensures (step.Fetch? && x == OfDispatcher) ||
            JobAt(Next(setup, s, step).dispatcher, Next(setup, s, step).workers, x) == JobAt(s.dispatcher, s.workers, y)
  {
    hide HubsOk, QueueOk, JobsOk, DbOk, Serial, Ordered, WellFormed, Conflation.Insert, Conflation.Report, NewUnit, GetNext,
      Diff, ApplyOp;
    y := if step.Hand? && x == OfWorker(s.dispatcher.worker) then OfDispatcher else x;
  }

  lemma FetchedToken(setup: Setup, s: State, arrivals: set<(Bundle, int)>)
    requires Inv(setup, s) && Enabled(setup, s, Fetch) && TokensMatch(setup.cfg, s, arrivals)
    ensures var d := Next(setup, s, Fetch).dispatcher;
      d.Handing? ==> (d.job.fetched.bundle, d.job.fetched.metadata.token) in arrivals
    ensures UnitCarries(UnitOf(setup.cfg, Next(setup, s, Fetch).units, s.dispatcher.hub), arrivals)
  {
    hide HubsOk, QueueOk, WorkersOk, JobsOk, DbOk, Serial, Ordered, WellFormed, NewUnit, GetNext, ElementOk, SingleFlight,
      AnyInProcess, FirstReady, UnitCarries;
    HeldUnit(setup, s);
    GetNextKeepsTokens(setup.cfg, UnitOf(setup.cfg, s.units, s.dispatcher.hub), arrivals);
  }

  lemma GetNextKeepsTokens(cfg: Config, u: Unit, arrivals: set<(Bundle, int)>)
    requires UnitInv(cfg, u) && UnitCarries(u, arrivals)
    ensures UnitCarries(GetNext(cfg, u).0, arrivals)
    ensures GetNext(cfg, u).1.Some? ==>
              (GetNext(cfg, u).1.value.bundle, GetNext(cfg, u).1.value.metadata.token) in arrivals
  {
    hide WellFormed, GetNext, Ready;
    GetNextTakesLowest(cfg, u);
  }

  lemma StepUnits(setup: Setup, s: State, step: Step, h: string, arrivals: set<(Bundle, int)>)
    requires Inv(setup, s) && Enabled(setup, s, step) && TokensMatch(setup.cfg, s, arrivals)
    ensures UnitCarries(UnitOf(setup.cfg, Next(setup, s, step).units, h), arrivals + ArrivalsOf([step]))
  {
    hide HubsOk, QueueOk, WorkersOk, JobsOk, DbOk, Serial, Ordered, WellFormed, Conflation.Insert, Conflation.Report,
      NewUnit, GetNext, Diff, ApplyOp, ElementOk, SingleFlight, AnyInProcess, FirstReady, InFlight;
    assert UnitCarries(UnitOf(setup.cfg, s.units, h), arrivals);
    match step
    case Insert(b, token) =>
      assert [step][0] == step && (b, token) in ArrivalsOf([step]);
      EnabledUnit(setup, s, b.hub);
      InsertKeepsTokens(setup.cfg, UnitOf(setup.cfg, s.units, b.hub), b, token, arrivals);
    case Fetch => FetchedToken(setup, s, arrivals);
    case Report(w, ok) =>
      EnabledJob(setup, s, w);
      var job := s.workers[w].pc.job;
      ReportKeepsTokens(setup.cfg, UnitOf(setup.cfg, s.units, job.hub), job.fetched, ok, arrivals);
    case _ =>
  }

  lemma StepKeepsTokens(setup: Setup, s: State, step: Step, arrivals: set<(Bundle, int)>)
    requires Inv(setup, s) && Enabled(setup, s, step) && TokensMatch(setup.cfg, s, arrivals)
    ensures TokensMatch(setup.cfg, Next(setup, s, step), arrivals + ArrivalsOf([step]))
  {
    hide Inv, Next, Enabled, UnitCarries, ArrivalsOf, JobAt;
    var s' := Next(setup, s, step);
    forall h { StepUnits(setup, s, step, h, arrivals); }
    forall x | JobAt(s'.dispatcher, s'.workers, x).Some?
      ensures var f := JobAt(s'.dispatcher, s'.workers, x).value.fetched;
              (f.bundle, f.metadata.token) in arrivals + ArrivalsOf([step])
    {
      if step.Fetch? && x == OfDispatcher {
        FetchedToken(setup, s, arrivals);
        DispatcherJob(s');
      } else {
        var y := JobFromBefore(setup, s, step, x);
      }
    }
  }

  lemma DispatcherJob(s: State)
    ensures JobAt(s.dispatcher, s.workers, OfDispatcher).Some? ==>
              s.dispatcher.Handing? && JobAt(s.dispatcher, s.workers, OfDispatcher) == Some(s.dispatcher.job)
  {
  }

  lemma {:induction false} RunKeepsTokens(setup: Setup, s: State, steps: seq<Step>, arrivals: set<(Bundle, int)>)
    requires Inv(setup, s) && ValidRun(setup, s, steps) && TokensMatch(setup.cfg, s, arrivals)
    ensures TokensMatch(setup.cfg, Run(setup, s, steps), arrivals + ArrivalsOf(steps))
    decreases |steps|
  {
    hide Inv, Next, Enabled, TokensMatch;
    if steps == [] {
      assert arrivals + ArrivalsOf(steps) == arrivals;
    } else {
      StepKeepsInv(setup, s, steps[0]);
      StepKeepsTokens(setup, s, steps[0], arrivals);
      RunKeepsTokens(setup, Next(setup, s, steps[0]), steps[1..], arrivals + ArrivalsOf([steps[0]]));
      ArrivalsSplit(steps);
      assert arrivals + ArrivalsOf([steps[0]]) + ArrivalsOf(steps[1..]) == arrivals + ArrivalsOf(steps);
    }
  }

  lemma ArrivalsSplit(steps: seq<Step>)
    requires steps != []
    ensures ArrivalsOf(steps) == ArrivalsOf([steps[0]]) + ArrivalsOf(steps[1..])
  {
    forall a | a in ArrivalsOf(steps) ensures a in ArrivalsOf([steps[0]]) + ArrivalsOf(steps[1..]) {
      var i :| 0 <= i < |steps| && steps[i].Insert? && a == (steps[i].bundle, steps[i].token);
      if i == 0 {
        assert [steps[0]][0] == steps[0];
      } else {
        assert steps[1..][i - 1] == steps[i];
      }
    }
    forall a | a in ArrivalsOf([steps[0]]) + ArrivalsOf(steps[1..]) ensures a in ArrivalsOf(steps) {
      if i :| 0 <= i < |steps[1..]| && steps[1..][i].Insert? && a == (steps[1..][i].bundle, steps[1..][i].token) {
        assert steps[i + 1] == steps[1..][i];
      } else {
        assert [steps[0]][0] == steps[0];
      }
    }
  }

  /** In every run, the metadata handed out with a bundle carries the token that arrived with this very bundle. */
  lemma HandedOutAsArrived(setup: Setup, steps: seq<Step>)
    requires WellFormed(setup.cfg) && RunFromStart(setup, steps)
    ensures TokensMatch(setup.cfg, Reached(setup, steps), ArrivalsOf(steps))
  {
    hide Inv, ValidRun, Run, WellFormed;
    InitInv(setup);
    NothingArrived(setup);
    RunKeepsTokens(setup, Init(setup), steps, {});
    assert {} + ArrivalsOf(steps) == ArrivalsOf(steps);
  }

  lemma NothingArrived(setup: Setup)
    ensures TokensMatch(setup.cfg, Init(setup), {})
  {
    var s := Init(setup);
    assert forall x :: JobAt(s.dispatcher, s.workers, x).None?;
  }
}
