/**
 What runs amount to, whatever arrives and whatever fails: handlers are isolated, their effects are those of a serial
 order, newer bundles win, and dependencies are handled first.
 */
module SystemHistory {
  import opened Bundles
  import opened Conflation
  import opened Tables
  import opened Diffs
  import opened Retry
  import opened System
  import opened SystemSafety
  import opened SystemRuns

  // ---------------------------------------------------------------- isolation

  ghost predicate WritesFor(s: State, step: Step, hub: string) {
    step.Execute? && step.worker < |s.workers| && SendsFor(s.workers[step.worker], hub)
  }

  lemma OthersKeepHub(setup: Setup, s: State, step: Step, hub: string)
    requires Inv(setup, s) && Enabled(setup, s, step) && !WritesFor(s, step, hub)
    ensures SameHub(Next(setup, s, step).db, s.db, hub)
  {
    hide HubsOk, QueueOk, JobsOk, Serial, Ordered, WellFormed, ApplyOp, Diff;
    if step.Execute? {
      var pc := s.workers[step.worker].pc;
      ExecuteKeepsSender(Replay(setup.initial, s.history), s.db, pc, step.works);
      OneOpLocal(pc.plan[pc.next], s.db, hub);
    } else {
      SameHubRefl(s.db, hub);
    }
  }

  /** A hub's rows change only by a statement of the one job, of all those in the system, that the hub has. */
  lemma OnlyTheHandlerWrites(setup: Setup, s: State, step: Step, hub: string)
    requires Inv(setup, s) && Enabled(setup, s, step)
    ensures !SameHub(Next(setup, s, step).db, s.db, hub) ==>
              && step.Execute? && s.workers[step.worker].pc.job.hub == hub
              && forall x | HasJobOf(s.dispatcher, s.workers, x, hub) :: x == OfWorker(step.worker)
  {
    hide HubsOk, QueueOk, DbOk, Serial, Ordered, WellFormed, ApplyOp, Diff, SameHub;
    if WritesFor(s, step, hub) {
      OnlyHandler(setup, s, step.worker);
    } else {
      OthersKeepHub(setup, s, step, hub);
    }
  }

  /** The steps by which worker w itself acts on the tables or ends its job. */
  predicate ActsFor(step: Step, w: nat) {
    (step.Execute? || step.Report?) && step.worker == w
  }

  /** Until worker w acts, its job stays with it and its hub's rows stay as they are. */
  lemma StepLeavesHandler(setup: Setup, s: State, step: Step, w: nat)
    requires Inv(setup, s) && Enabled(setup, s, step) && !ActsFor(step, w)
    requires w < |s.workers| && (s.workers[w].pc.Started? || s.workers[w].pc.Sending?)
    ensures var s' := Next(setup, s, step);
      && w < |s'.workers| && (s'.workers[w].pc.Started? || s'.workers[w].pc.Sending?)
      && s'.workers[w].pc.job == s.workers[w].pc.job
      && (s.workers[w].pc.Sending? ==> s'.workers[w].pc == s.workers[w].pc)
      && SameHub(s'.db, s.db, s.workers[w].pc.job.hub)
  {
    hide HubsOk, QueueOk, Serial, Ordered, WellFormed, ApplyOp, Diff, JobsOk, DbOk, SameHub;
    OnlyHandler(setup, s, w);
    OthersKeepHub(setup, s, step, s.workers[w].pc.job.hub);
  }

  lemma SameHubTrans(t1: Table, t2: Table, t3: Table, hub: string)
    requires SameHub(t1, t2, hub) && SameHub(t2, t3, hub)
    ensures SameHub(t1, t3, hub)
  {
  }

  lemma {:induction false} RunLeavesHandler(setup: Setup, s: State, steps: seq<Step>, w: nat)
    requires Inv(setup, s) && ValidRun(setup, s, steps)
    requires forall i | 0 <= i < |steps| :: !ActsFor(steps[i], w)
    requires w < |s.workers| && s.workers[w].pc.Sending?
    ensures var s' := Run(setup, s, steps);
      && w < |s'.workers| && s'.workers[w].pc == s.workers[w].pc
      && SameHub(s'.db, s.db, s.workers[w].pc.job.hub)
    decreases |steps|
  {
    hide Inv, Enabled, Next, SameHub;
    if steps == [] {
      SameHubRefl(s.db, s.workers[w].pc.job.hub);
    } else {
      StepKeepsInv(setup, s, steps[0]);
      var s1 := Next(setup, s, steps[0]);
      StepLeavesHandler(setup, s, steps[0], w);
      RunLeavesHandler(setup, s1, steps[1..], w);
      SameHubTrans(Run(setup, s, steps).db, s1.db, s.db, s.workers[w].pc.job.hub);
    }
  }

  lemma SameHubRefl(t: Table, hub: string)
    ensures SameHub(t, t, hub)
  {
  }

  /**
   Read-modify-write isolation: after a handler read its hub's rows and before it sends its first statement, however
   long that takes and whatever else happens, its plan stays the difference between the bundle and the tables.
   */
  lemma PlanStaysCurrent(setup: Setup, s: State, steps: seq<Step>)
    requires Inv(setup, s) && ValidRun(setup, s, steps)
    requires steps != [] && steps[0].Read?
    requires forall i | 1 <= i < |steps| :: !ActsFor(steps[i], steps[0].worker)
    ensures var s', w, b := Run(setup, s, steps), steps[0].worker, s.workers[steps[0].worker].pc.job.fetched.bundle;
      && Elements(steps[0].plan) == Diff(s'.db, b.hub, b.contents)
      && w < |s'.workers| && s'.workers[w].pc == Sending(s.workers[w].pc.job, steps[0].plan, 0, [], false)
  {
    hide HubsOk, QueueOk, Serial, Ordered, WellFormed, Diff, JobsOk, DbOk, SameHub;
    var w, plan := steps[0].worker, steps[0].plan;
    OnlyHandler(setup, s, w);
    StepKeepsInv(setup, s, steps[0]);
    var s1 := Next(setup, s, steps[0]);
    var b := s.workers[w].pc.job.fetched.bundle;
    RunLeavesHandler(setup, s1, steps[1..], w);
    DiffLocal(Run(setup, s1, steps[1..]).db, s.db, b.hub, b.contents);
  }

  // ---------------------------------------------------------------- serial order

  /** When no handler is sending, the tables are those of the attempts one after the other, each run alone. */
  lemma TablesAreSerial(setup: Setup, s: State)
    requires Inv(setup, s)
    requires forall w | 0 <= w < |s.workers| :: !s.workers[w].pc.Sending?
    ensures s.db == Replay(setup.initial, s.history) && Serial(setup.initial, s.history)
  {
    hide HubsOk, QueueOk, Serial, Ordered, WellFormed, Diff, JobsOk, Replay;
    forall k ensures Lookup(s.db, k) == Lookup(Replay(setup.initial, s.history), k) {
      assert SameHub(s.db, Replay(setup.initial, s.history), k.hub);
    }
    SameRowsEqual(s.db, Replay(setup.initial, s.history));
  }

  /** Hub by hub: a hub no handler is sending for has the rows the attempts left, whatever others are doing. */
  lemma HubIsSerial(setup: Setup, s: State, hub: string)
    requires Inv(setup, s)
    requires forall w | 0 <= w < |s.workers| :: !SendsFor(s.workers[w], hub)
    ensures SameHub(s.db, Replay(setup.initial, s.history), hub)
  {
  }

  lemma {:induction false} ReplayKeepsWellTyped(initial: Table, history: seq<Attempt>)
    requires WellTyped(initial)
    ensures WellTyped(Replay(initial, history))
  {
    hide WellTyped;
    if history != [] {
      ReplayKeepsWellTyped(initial, history[..|history| - 1]);
      OpsKeepWellTyped(history[|history| - 1].executed, Replay(initial, history[..|history| - 1]));
    }
  }

  /** Each attempt acted on a part of the differences it found; each success made the tables agree with its bundle. */
  lemma {:induction false} AttemptMeans(initial: Table, history: seq<Attempt>, i: nat)
    requires Serial(initial, history) && i < |history|
    ensures AttemptOk(Replay(initial, history[..i]), history[i])
    ensures var before, b := Replay(initial, history[..i]), history[i].bundle;
      history[i].ok && ValidContents(b.contents) && WellTyped(initial) && Comparable(before, b.hub, b.contents) ==>
        Replay(initial, history[..i + 1]) == Target(before, b.hub, b.contents)
    decreases |history|
  {
    hide Diff, Target, ApplyOps, ValidContents, WellTyped, Comparable;
    var front := history[..|history| - 1];
    if i < |front| {
      AttemptMeans(initial, front, i);
      assert front[..i] == history[..i] && front[..i + 1] == history[..i + 1];
    } else {
      assert history[..i] == front && history[..i + 1] == history;
      var before, a := Replay(initial, front), history[i];
      if a.ok && ValidContents(a.bundle.contents) && WellTyped(initial) &&
         Comparable(before, a.bundle.hub, a.bundle.contents)
      {
        ReplayKeepsWellTyped(initial, front);
        DiffExact(before, a.bundle.hub, a.bundle.contents, a.executed);
      }
    }
  }

  // ---------------------------------------------------------------- newest wins

  lemma {:induction false} MaxGenIsNewest(received: seq<Bundle>, hub: string, bundleType: string)
    ensures forall b | b in received && b.hub == hub && b.bundleType == bundleType ::
              b.generation <= MaxGen(received, hub, bundleType)
    ensures MaxGen(received, hub, bundleType) > 0 ==>
              exists b :: b in received && b.hub == hub && b.bundleType == bundleType &&
                          b.generation == MaxGen(received, hub, bundleType)
  {
    if received != [] {
      var front := received[..|received| - 1];
      MaxGenIsNewest(front, hub, bundleType);
      assert received == front + [received[|received| - 1]];
      if MaxGen(received, hub, bundleType) == MaxGen(front, hub, bundleType) > 0 {
        var b :| b in front && b.hub == hub && b.bundleType == bundleType && b.generation == MaxGen(front, hub, bundleType);
        assert b in received;
      } else if MaxGen(received, hub, bundleType) > 0 {
        assert received[|received| - 1] in received;
      }
    }
  }

  /**
   For every hub and registered type: the newest generation a unit knows of is the newest one received, a pending one
   is newer than the last success, and the last success is the newest one that succeeded.
   */
  lemma NewestWins(setup: Setup, s: State, hub: string, p: nat)
    requires Inv(setup, s) && p < |setup.cfg.slots|
    ensures var u, t := UnitOf(setup.cfg, s.units, hub), setup.cfg.slots[p].bundleType;
      && |u.elements| == |setup.cfg.slots|
      && (if u.elements[p].bundle.Some?
          then u.elements[p].bundle.value.generation == MaxGen(s.received, hub, t) > u.elements[p].lastProcessed
          else u.elements[p].lastProcessed == MaxGen(s.received, hub, t))
      && u.elements[p].lastProcessed == MaxOk(s.history, hub, t)
  {
    hide QueueOk, WorkersOk, Serial, Ordered, WellFormed, JobsOk, DbOk;
    HubUpToDate(setup, s, hub);
    var u := UnitOf(setup.cfg, s.units, hub);
    assert ElementOk(setup.cfg.slots[p], u.elements[p]);
  }

  lemma {:induction false} MaxOkWitness(history: seq<Attempt>, hub: string, bundleType: string)
    ensures forall i | 0 <= i < |history| && history[i].ok && history[i].bundle.hub == hub &&
                       history[i].bundle.bundleType == bundleType ::
              history[i].bundle.generation <= MaxOk(history, hub, bundleType)
    ensures MaxOk(history, hub, bundleType) > 0 ==>
              exists i :: 0 <= i < |history| && history[i].ok && history[i].bundle.hub == hub &&
                          history[i].bundle.bundleType == bundleType &&
                          history[i].bundle.generation == MaxOk(history, hub, bundleType)
  {
    if history != [] {
      var front := history[..|history| - 1];
      MaxOkWitness(front, hub, bundleType);
      forall i | 0 <= i < |history| - 1 ensures history[i] == front[i] {}
      if MaxOk(history, hub, bundleType) == MaxOk(front, hub, bundleType) > 0 {
        var i :| 0 <= i < |front| && front[i].ok && front[i].bundle.hub == hub &&
                 front[i].bundle.bundleType == bundleType && front[i].bundle.generation == MaxOk(front, hub, bundleType);
        assert history[i] == front[i];
      } else if MaxOk(history, hub, bundleType) > 0 {
        assert history[|history| - 1].ok;
      }
    }
  }

  lemma {:induction false} OrderedAt(cfg: Config, history: seq<Attempt>, j: nat)
    requires Ordered(cfg, history) && j < |history|
    ensures InOrder(cfg, history[..j], history[j].bundle)
    decreases |history|
  {
    hide InOrder;
    var front := history[..|history| - 1];
    if j < |front| {
      OrderedAt(cfg, front, j);
      assert front[..j] == history[..j];
    } else {
      assert history[..j] == front;
    }
  }

  /** Successes of one hub and type are strictly increasing; no attempt is ever made at what a success made old. */
  lemma SuccessesIncrease(cfg: Config, history: seq<Attempt>, i: nat, j: nat)
    requires Ordered(cfg, history) && i < j < |history|
    requires history[i].ok && history[i].bundle.hub == history[j].bundle.hub
    requires history[i].bundle.bundleType == history[j].bundle.bundleType
    ensures history[i].bundle.generation < history[j].bundle.generation
  {
    OrderedAt(cfg, history, j);
    MaxOkWitness(history[..j], history[j].bundle.hub, history[j].bundle.bundleType);
    assert history[..j][i] == history[i];
  }

  /** Before a bundle is handled at all, the generation it depends on was handled successfully. */
  lemma DependencyFirst(cfg: Config, history: seq<Attempt>, j: nat) returns (i: nat)
    requires Ordered(cfg, history) && j < |history|
    requires WellFormed(cfg) && history[j].bundle.bundleType in cfg.priorityOf
    requires cfg.slots[cfg.priorityOf[history[j].bundle.bundleType]].dependency.Some?
    requires history[j].bundle.dependencyGeneration.Some? && history[j].bundle.dependencyGeneration.value > 0
    ensures i < j && history[i].ok && history[i].bundle.hub == history[j].bundle.hub
    ensures cfg.slots[cfg.priorityOf[history[j].bundle.bundleType]].dependency == Some(history[i].bundle.bundleType)
    ensures history[i].bundle.generation >= history[j].bundle.dependencyGeneration.value
  {
    OrderedAt(cfg, history, j);
    var t := cfg.slots[cfg.priorityOf[history[j].bundle.bundleType]].dependency.value;
    MaxOkWitness(history[..j], history[j].bundle.hub, t);
    i :| 0 <= i < |history[..j]| && history[..j][i].ok && history[..j][i].bundle.hub == history[j].bundle.hub &&
         history[..j][i].bundle.bundleType == t &&
         history[..j][i].bundle.generation == MaxOk(history[..j], history[j].bundle.hub, t);
  }

  /** The same for a bundle that is still being handled: what it depends on is already in the history. */
  lemma InProcessInOrder(setup: Setup, s: State, x: Holder)
    requires Inv(setup, s) && JobAt(s.dispatcher, s.workers, x).Some?
    ensures InOrder(setup.cfg, s.history, JobAt(s.dispatcher, s.workers, x).value.fetched.bundle)
  {
    hide QueueOk, WorkersOk, Serial, Ordered, DbOk, MaxOk, MaxGen, AnyInProcess, FirstReady;
    var job := JobAt(s.dispatcher, s.workers, x).value;
    HubUpToDate(setup, s, job.hub);
    assert JobOk(setup.cfg, UnitOf(setup.cfg, s.units, job.hub), s.received, job);
  }
}
