/** Failed attempts, and the independence of leaf hubs. */
module Retry {
  import opened Bundles
  import opened Tables
  import opened Diffs

  /** The row a successful handler leaves at key k, from the row it found there. */
  function TargetRow(hub: string, contents: Contents, k: Key, r: Option<Row>): Option<Row> {
    if k.hub != hub then r else
    match contents
    case ClustersPerPolicy(objs) =>
      if !k.ComplianceKey? then r
      else if k !in Pairs(hub, objs) then None
      else if r.Some? then r else Some(ComplianceRow(ERROR_NONE, Unknown))
    case ComplianceStatus(objs) =>
      if k.ComplianceKey? && r.Some? then Some(WithStatus(r.value, ReportedStatus(objs, k.policy, k.cluster))) else r
    case ManagedClusters(objs) =>
      if !k.ClusterKey? then r
      else if FindCluster(objs, k.name).None? then None
      else Some(ClusterRow(FindCluster(objs, k.name).value,
                           if r.Some? && r.value.ClusterRow? then r.value.error else ERROR_NONE))
    case MinimalComplianceStatus(objs) =>
      if !k.AggregateKey? then r
      else match FindSummary(objs, k.policy)
        case None => None
        case Some(o) => Some(AggregateRow(o.appliedClusters, o.nonCompliantClusters))
  }

  lemma TargetByRow(t: Table, hub: string, contents: Contents, k: Key)
    requires ValidContents(contents)
    ensures Lookup(Target(t, hub, contents), k) == TargetRow(hub, contents, k, Lookup(t, k))
  {
    match contents
    case ClustersPerPolicy(objs) => PairsPolicies(hub, objs);
    case ComplianceStatus(objs) =>
    case ManagedClusters(objs) =>
      if k.ClusterKey? {
        FindClusterIs(objs, k.name);
        assert FindCluster(objs, k.name).Some? && k.hub == hub ==> k in ClusterKeys(hub, objs);
      }
    case MinimalComplianceStatus(objs) =>
      if k.AggregateKey? {
        FindSummaryIs(objs, k.policy);
        assert FindSummary(objs, k.policy).Some? && k.hub == hub ==> k in SummaryKeys(hub, objs);
      }
  }

  /** Handling a bundle again changes nothing. */
  lemma TargetRowTwice(hub: string, contents: Contents, k: Key, r: Option<Row>)
    ensures TargetRow(hub, contents, k, TargetRow(hub, contents, k, r)) == TargetRow(hub, contents, k, r)
  {
  }

  lemma {:induction false} PlanExists(ops: set<Op>) returns (plan: seq<Op>)
    ensures Elements(plan) == ops
  {
    if ops == {} {
      plan := [];
    } else {
      var o :| o in ops;
      var rest := PlanExists(ops - {o});
      plan := [o] + rest;
      assert Elements(plan) == {o} + Elements(rest);
    }
  }

  /** One attempt that ran only some of its operations: each row is as it was, or already as the bundle wants it. */
  lemma PartialRow(t: Table, hub: string, contents: Contents, some: seq<Op>, k: Key)
    requires ValidContents(contents) && WellTyped(t) && Comparable(t, hub, contents)
    requires Elements(some) <= Diff(t, hub, contents)
    ensures Lookup(ApplyOps(some, t), k) == Lookup(t, k)
         || Lookup(ApplyOps(some, t), k) == TargetRow(hub, contents, k, Lookup(t, k))
  {
    DiffCompatible(t, hub, contents);
    if o :| o in Elements(some) && Touches(o, k) {
      TouchedRow(some, t, k, o);
      var all := PlanExists(Diff(t, hub, contents));
      assert o in Elements(all);
      TouchedRow(all, t, k, o);
      DiffExact(t, hub, contents, all);
      TargetByRow(t, hub, contents, k);
    } else {
      forall o | o in some ensures !Touches(o, k) { assert o in Elements(some); }
      UntouchedRow(some, t, k);
    }
  }

  lemma PartialStaysComparable(t: Table, hub: string, contents: Contents, some: seq<Op>)
    requires ValidContents(contents) && WellTyped(t) && Comparable(t, hub, contents)
    requires Elements(some) <= Diff(t, hub, contents)
    ensures WellTyped(ApplyOps(some, t)) && Comparable(ApplyOps(some, t), hub, contents)
  {
    OpsKeepWellTyped(some, t);
    if contents.ManagedClusters? {
      var after := ApplyOps(some, t);
      var objs := contents.clusters;
      forall o | o in objs && VersionAt(after, ClusterKey(hub, o.name)) == Some(o.resourceVersion)
        ensures after[ClusterKey(hub, o.name)].payload == o
      {
        var k := ClusterKey(hub, o.name);
        FindClusterIs(objs, o.name);
        PartialRow(t, hub, contents, some, k);
        if Lookup(after, k) == Lookup(t, k) {
          assert VersionAt(t, k) == Some(o.resourceVersion);
        }
      }
    }
  }

  /**
   Retry convergence: whatever part of a failed attempt reached the table, what the bundle makes of the table
   is the same as if the attempt had never been made.
   */
  lemma RetryConverges(t: Table, hub: string, contents: Contents, some: seq<Op>)
    requires ValidContents(contents) && WellTyped(t) && Comparable(t, hub, contents)
    requires Elements(some) <= Diff(t, hub, contents)
    ensures Target(ApplyOps(some, t), hub, contents) == Target(t, hub, contents)
  {
    hide Target, TargetRow, ApplyOps, Diff, WellTyped, Comparable;
    forall k ensures Lookup(Target(ApplyOps(some, t), hub, contents), k) == Lookup(Target(t, hub, contents), k) {
      PartialRow(t, hub, contents, some, k);
      TargetByRow(t, hub, contents, k);
      TargetByRow(ApplyOps(some, t), hub, contents, k);
      TargetRowTwice(hub, contents, k, Lookup(t, k));
    }
    SameRowsEqual(Target(ApplyOps(some, t), hub, contents), Target(t, hub, contents));
  }

  /** The table after a series of failed attempts with the same bundle, each ran in part on what the last one left. */
  ghost predicate FailedAttempts(t: Table, hub: string, contents: Contents, attempts: seq<seq<Op>>)
    decreases |attempts|
  {
    attempts == [] ||
    (Elements(attempts[0]) <= Diff(t, hub, contents) &&
     FailedAttempts(ApplyOps(attempts[0], t), hub, contents, attempts[1..]))
  }

  function AfterAttempts(t: Table, attempts: seq<seq<Op>>): Table
    decreases |attempts|
  {
    if attempts == [] then t else AfterAttempts(ApplyOps(attempts[0], t), attempts[1..])
  }

  /** However often a handler fails part-way, the first complete run ends where a clean first run would have. */
  lemma {:induction false} EventualSuccess(
    t: Table, hub: string, contents: Contents, attempts: seq<seq<Op>>, clean: seq<Op>, final: seq<Op>)
    requires ValidContents(contents) && WellTyped(t) && Comparable(t, hub, contents)
    requires FailedAttempts(t, hub, contents, attempts)
    requires Elements(clean) == Diff(t, hub, contents)
    requires Elements(final) == Diff(AfterAttempts(t, attempts), hub, contents)
    ensures ApplyOps(final, AfterAttempts(t, attempts)) == ApplyOps(clean, t)
    decreases |attempts|
  {
    DiffExact(t, hub, contents, clean);
    if attempts == [] {
      DiffExact(t, hub, contents, final);
    } else {
      var t1 := ApplyOps(attempts[0], t);
      PartialStaysComparable(t, hub, contents, attempts[0]);
      RetryConverges(t, hub, contents, attempts[0]);
      var clean1 := PlanExists(Diff(t1, hub, contents));
      EventualSuccess(t1, hub, contents, attempts[1..], clean1, final);
      DiffExact(t1, hub, contents, clean1);
    }
  }

  // ---------------------------------------------------------------- hubs are independent

  lemma SameMembers(t1: Table, t2: Table, hub: string, k: Key)
    requires SameHub(t1, t2, hub) && k.hub == hub
    ensures k in t1 <==> k in t2
    ensures k in t1 ==> t1[k] == t2[k]
  {
    assert Lookup(t1, k) == Lookup(t2, k);
  }

  lemma PlacementDiffLocal(t1: Table, t2: Table, hub: string, objs: seq<PolicyClusters>)
    requires SameHub(t1, t2, hub)
    ensures PlacementDiff(t1, hub, objs) == PlacementDiff(t2, hub, objs)
  {
    PairsPolicies(hub, objs);
    forall k: Key | k.hub == hub { SameMembers(t1, t2, hub, k); }
    assert StatusRows(t1, hub) == StatusRows(t2, hub);
  }

  lemma ComplianceDiffLocal(t1: Table, t2: Table, hub: string, objs: seq<PolicyCompliance>)
    requires SameHub(t1, t2, hub)
    ensures ComplianceDiff(t1, hub, objs) == ComplianceDiff(t2, hub, objs)
  {
    forall k: Key | k.hub == hub { SameMembers(t1, t2, hub, k); }
    assert NonCompliantRows(t1, hub) == NonCompliantRows(t2, hub);
    assert forall k: Key | k.hub == hub :: StatusAt(t1, k) == StatusAt(t2, k);
  }

  lemma ClusterDiffLocal(t1: Table, t2: Table, hub: string, objs: seq<ManagedCluster>)
    requires SameHub(t1, t2, hub)
    ensures ClusterDiff(t1, hub, objs) == ClusterDiff(t2, hub, objs)
  {
    hide SameHub;
    forall k: Key | k.hub == hub ensures VersionAt(t1, k) == VersionAt(t2, k) { SameMembers(t1, t2, hub, k); }
    SameClusterRows(t1, t2, hub);
  }

  lemma SameClusterRows(t1: Table, t2: Table, hub: string)
    requires SameHub(t1, t2, hub)
    ensures ClusterRows(t1, hub) == ClusterRows(t2, hub)
  {
    forall k: Key | k.hub == hub { SameMembers(t1, t2, hub, k); }
  }

  lemma VersionsLocal(t1: Table, t2: Table, hub: string, objs: seq<ManagedCluster>)
    requires SameHub(t1, t2, hub)
    ensures VersionsAgree(t1, hub, objs) <==> VersionsAgree(t2, hub, objs)
  {
    forall o: ManagedCluster { SameMembers(t1, t2, hub, ClusterKey(hub, o.name)); }
  }

  lemma SummaryDiffLocal(t1: Table, t2: Table, hub: string, objs: seq<MinimalCompliance>)
    requires SameHub(t1, t2, hub)
    ensures SummaryDiff(t1, hub, objs) == SummaryDiff(t2, hub, objs)
  {
    forall k: Key | k.hub == hub { SameMembers(t1, t2, hub, k); }
    assert AggregateRows(t1, hub) == AggregateRows(t2, hub);
  }

  /** What a handler decides depends only on its own hub's rows. */
  lemma DiffLocal(t1: Table, t2: Table, hub: string, contents: Contents)
    requires SameHub(t1, t2, hub)
    ensures Diff(t1, hub, contents) == Diff(t2, hub, contents)
    ensures Comparable(t1, hub, contents) <==> Comparable(t2, hub, contents)
  {
    hide SameHub, PlacementDiff, ComplianceDiff, ClusterDiff, SummaryDiff, VersionsAgree;
    match contents
    case ClustersPerPolicy(objs) => PlacementDiffLocal(t1, t2, hub, objs);
    case ComplianceStatus(objs) => ComplianceDiffLocal(t1, t2, hub, objs);
    case ManagedClusters(objs) => ClusterDiffLocal(t1, t2, hub, objs); VersionsLocal(t1, t2, hub, objs);
    case MinimalComplianceStatus(objs) => SummaryDiffLocal(t1, t2, hub, objs);
  }
}
