/** What the tables hold: the rows the last successful bundles ask for, across the protocol and the handlers. */
module SystemRows {
  import opened Bundles
  import opened Conflation
  import opened Tables
  import opened Diffs
  import opened Retry
  import opened System
  import opened SystemSafety
  import opened SystemRuns
  import opened SystemHistory

  // ---------------------------------------------------------------- the row set

  predicate Places(a: Attempt, hub: string) {
    a.bundle.hub == hub && a.bundle.contents.ClustersPerPolicy?
  }

  /** The last clusters-per-policy bundle of the hub that was handled successfully. */
  function LastPlaced(history: seq<Attempt>, hub: string): (b: Option<Bundle>)
    ensures b.Some? ==> b.value.contents.ClustersPerPolicy?
  {
    if history == [] then None
    else
      var last := history[|history| - 1];
      if last.ok && Places(last, hub) then Some(last.bundle) else LastPlaced(history[..|history| - 1], hub)
  }

  /** No clusters-per-policy attempt that failed since then left anything behind. */
  predicate CleanSince(history: seq<Attempt>, hub: string) {
    if history == [] then true
    else
      var last := history[|history| - 1];
      if last.ok && Places(last, hub) then true
      else (Places(last, hub) ==> last.executed == []) && CleanSince(history[..|history| - 1], hub)
  }

  predicate KeepsStatusKeys(o: Op) {
    !o.InsertStatus? && !o.DropPolicy? && !o.DropClusterStatus?
  }

  lemma {:induction false} UpdatesKeepKeys(ops: seq<Op>, t: Table, hub: string)
    requires forall o | o in ops :: KeepsStatusKeys(o)
    ensures StatusRows(ApplyOps(ops, t), hub) == StatusRows(t, hub)
  {
    if ops != [] {
      var front, last := ops[..|ops| - 1], ops[|ops| - 1];
      assert last in ops;
      UpdatesKeepKeys(front, t, hub);
      var mid := ApplyOps(front, t);
      forall k: Key | k.ComplianceKey? ensures k in ApplyOp(last, mid) <==> k in mid {
        assert Lookup(ApplyOp(last, mid), k) == After(last, k, Lookup(mid, k));
        assert After(last, k, Lookup(mid, k)).Some? <==> Lookup(mid, k).Some?;
      }
    }
  }

  lemma OnlyPlacementsChangeKeys(t: Table, a: Attempt, hub: string)
    requires AttemptOk(t, a) && (Places(a, hub) ==> a.executed == [])
    ensures StatusRows(ApplyOps(a.executed, t), hub) == StatusRows(t, hub)
  {
    hide ApplyOps, PlacementDiff;
    DiffHub(t, a.bundle.hub, a.bundle.contents);
    forall o | o in a.executed ensures o in Diff(t, a.bundle.hub, a.bundle.contents) { assert o in Elements(a.executed); }
    if a.bundle.hub != hub {
      OtherHubsUntouched(a.executed, t, a.bundle.hub, hub);
      SameStatusRows(ApplyOps(a.executed, t), t, hub);
    } else if a.executed == [] {
      NothingExecuted(t);
    } else {
      UpdatesKeepKeys(a.executed, t, hub);
    }
  }

  lemma NothingExecuted(t: Table)
    ensures ApplyOps([], t) == t
  {
  }

  lemma SameStatusRows(t1: Table, t2: Table, hub: string)
    requires SameHub(t1, t2, hub)
    ensures StatusRows(t1, hub) == StatusRows(t2, hub)
  {
    forall k: Key | k.hub == hub { SameMembers(t1, t2, hub, k); }
  }

  lemma PlacementKeys(t: Table, hub: string, objs: seq<PolicyClusters>)
    ensures StatusRows(PlacementTarget(t, hub, objs), hub) == Pairs(hub, objs)
  {
    PairsPolicies(hub, objs);
  }

  /** Whatever else was handled, or failed part-way, in between. */
  lemma {:induction false} RowSetOfHistory(initial: Table, history: seq<Attempt>, hub: string)
    requires Serial(initial, history) && CleanSince(history, hub)
    ensures LastPlaced(history, hub).Some? ==>
              StatusRows(Replay(initial, history), hub) == Pairs(hub, LastPlaced(history, hub).value.contents.placements)
  {
    hide Diff, ApplyOps, StatusRows, Pairs, PlacementDiff, PlacementTarget;
    if history != [] {
      var front, last := history[..|history| - 1], history[|history| - 1];
      var before := Replay(initial, front);
      if last.ok && Places(last, hub) {
        PlacementAttempt(before, last, hub);
        PlacementKeys(before, hub, last.bundle.contents.placements);
      } else {
        RowSetOfHistory(initial, front, hub);
        OnlyPlacementsChangeKeys(before, last, hub);
      }
    }
  }

  lemma PlacementAttempt(t: Table, a: Attempt, hub: string)
    requires AttemptOk(t, a) && a.ok && Places(a, hub)
    ensures ApplyOps(a.executed, t) == PlacementTarget(t, hub, a.bundle.contents.placements)
  {
    PlacementExact(t, hub, a.bundle.contents.placements, a.executed);
  }

  /** The last success of a type is the newest one. */
  lemma {:induction false} LastPlacedIsNewest(cfg: Config, history: seq<Attempt>, hub: string, bundleType: string)
    requires Ordered(cfg, history)
    requires forall i | 0 <= i < |history| ::
               history[i].bundle.contents.ClustersPerPolicy? <==> history[i].bundle.bundleType == bundleType
    ensures LastPlaced(history, hub).None? ==> MaxOk(history, hub, bundleType) == 0
    ensures LastPlaced(history, hub).Some? ==>
              && LastPlaced(history, hub).value.generation == MaxOk(history, hub, bundleType) > 0
              && LastPlaced(history, hub).value.bundleType == bundleType
              && exists i :: 0 <= i < |history| && history[i].bundle == LastPlaced(history, hub).value
  {
    hide WellFormed;
    if history != [] {
      var front, last := history[..|history| - 1], history[|history| - 1];
      assert forall i | 0 <= i < |front| :: front[i] == history[i];
      LastPlacedIsNewest(cfg, front, hub, bundleType);
      if last.ok && Places(last, hub) {
        assert history[|history| - 1].bundle == last.bundle;
      } else if LastPlaced(front, hub).Some? {
        var i :| 0 <= i < |front| && front[i].bundle == LastPlaced(front, hub).value;
        assert history[i].bundle == LastPlaced(front, hub).value;
      }
    }
  }

  /**
   The row-set invariant of protocol and handlers together: once a clusters-per-policy bundle of the hub succeeded,
   and while no handler of the hub is sending, the hub's (policy, cluster) keys are exactly those of the received
   bundle whose generation is the unit's lastProcessed, if later failed attempts at newer ones left nothing behind.
   */
  lemma RowSetInvariant(setup: Setup, s: State, hub: string, p: nat)
    requires Inv(setup, s) && p < |setup.cfg.slots|
    requires forall b | b in s.received :: b.contents.ClustersPerPolicy? <==> b.bundleType == setup.cfg.slots[p].bundleType
    requires forall w | 0 <= w < |s.workers| :: !SendsFor(s.workers[w], hub)
    requires CleanSince(s.history, hub)
    ensures var u := UnitOf(setup.cfg, s.units, hub);
      |u.elements| == |setup.cfg.slots| &&
      if u.elements[p].lastProcessed == 0 then LastPlaced(s.history, hub).None?
      else
        && LastPlaced(s.history, hub).Some?
        && var b := LastPlaced(s.history, hub).value;
           && b in s.received && b.generation == u.elements[p].lastProcessed
           && StatusRows(s.db, hub) == Pairs(hub, b.contents.placements)
  {
    hide HubsOk, QueueOk, WorkersOk, JobsOk, WellFormed, Serial, Ordered, Diff, Replay, StatusRows, Pairs, MaxOk, MaxGen,
      CleanSince, LastPlaced, SameHub;
    HubUpToDate(setup, s, hub);
    HubIsSerial(setup, s, hub);
    SameStatusRows(s.db, Replay(setup.initial, s.history), hub);
    RowSetOfHistory(setup.initial, s.history, hub);
    LastPlacedIsNewest(setup.cfg, s.history, hub, setup.cfg.slots[p].bundleType);
  }

  // ---------------------------------------------------------------- failures leave no trace

  /** The tables if only the successful bundles had been handled, each at once and completely. */
  function Successes(initial: Table, history: seq<Attempt>): Table {
    if history == [] then initial
    else
      var last, before := history[|history| - 1], Successes(initial, history[..|history| - 1]);
      if last.ok then Target(before, last.bundle.hub, last.bundle.contents) else before
  }

  /** Bundles are well formed, their versions agree with what they find, and failed batches were rolled back. */
  ghost predicate Atomic(initial: Table, history: seq<Attempt>) {
    history == [] ||
    var front, last := history[..|history| - 1], history[|history| - 1];
    && Atomic(initial, front)
    && ValidContents(last.bundle.contents)
    && Comparable(Successes(initial, front), last.bundle.hub, last.bundle.contents)
    && (!last.ok ==> last.executed == [])
  }

  /** Statement-by-statement interleaved, the handlers do what their bundles ask for, one success after the other. */
  lemma {:induction false} InterleavingMeansSuccesses(initial: Table, history: seq<Attempt>)
    requires WellTyped(initial) && Serial(initial, history) && Atomic(initial, history)
    ensures Replay(initial, history) == Successes(initial, history) && WellTyped(Replay(initial, history))
  {
    hide Diff, Target, ApplyOps, ValidContents, WellTyped, Comparable;
    if history != [] {
      var front, last := history[..|history| - 1], history[|history| - 1];
      InterleavingMeansSuccesses(initial, front);
      OpsKeepWellTyped(last.executed, Replay(initial, front));
      if last.ok {
        DiffExact(Replay(initial, front), last.bundle.hub, last.bundle.contents, last.executed);
      } else {
        NothingExecuted(Replay(initial, front));
      }
    }
  }

  /** The serialized tables of a whole run, whenever no handler is in the middle of its statements. */
  lemma RunMeansSuccesses(setup: Setup, steps: seq<Step>)
    requires WellFormed(setup.cfg) && RunFromStart(setup, steps)
    requires var s := Reached(setup, steps);
      && (forall w | 0 <= w < |s.workers| :: !s.workers[w].pc.Sending?)
      && WellTyped(setup.initial) && Atomic(setup.initial, s.history)
    ensures Reached(setup, steps).db == Successes(setup.initial, Reached(setup, steps).history)
  {
    hide Inv, Serial, ValidRun, Atomic, WellTyped, Replay, Successes, Reached;
    var s := Reached(setup, steps);
    TablesAreSerial(setup, s);
    InterleavingMeansSuccesses(setup.initial, s.history);
  }
}
