/**
 Snapshots that saw too little. The four snapshot queries drop their error, and an early end of the rows goes
 unnoticed, so a handler may work from a part of the table and report success. For each handler: exactly when its
 operations still do what they should, and an input for which they do not.
 */
module TruncatedReads {
  import opened Bundles
  import opened Tables
  import opened Diffs

  /** What a query delivered before it ended. */
  ghost predicate PartOf(seen: Table, t: Table) {
    forall k | k in seen :: k in t && t[k] == seen[k]
  }

  /** No INSERT meets an existing row, which the database would refuse or store a second time. */
  ghost predicate InsertsAreNew(ops: seq<Op>, t: Table) {
    forall o, k | o in ops && k in Created(o) && !o.UpsertAggregate? :: k !in t
  }

  lemma NoOperations(ops: seq<Op>)
    requires Elements(ops) == {}
    ensures ops == []
  {
    SomeOperation(ops);
  }

  lemma SomeOperation(ops: seq<Op>)
    ensures ops != [] ==> Elements(ops) != {}
  {
    if ops != [] { assert ops[0] in Elements(ops); }
  }

  // ---------------------------------------------------------------- clusters per policy

  /** A row the read missed is dropped all the same when another row of its unlisted policy was seen. */
  ghost predicate DroppedWithPolicy(seen: Table, hub: string, objs: seq<PolicyClusters>, k: Key) {
    k.ComplianceKey? && k.policy !in PlacementPolicies(objs) &&
    exists seenKey :: seenKey in StatusRows(seen, hub) && seenKey.ComplianceKey? && seenKey.policy == k.policy
  }

  /**
   No INSERT meets an existing row and the hub's keys become the bundle's, if and only if every row the query missed
   belongs to a policy the bundle does not list and of which it delivered another row.
   */
  lemma PlacementReadExact(t: Table, seen: Table, hub: string, objs: seq<PolicyClusters>, ops: seq<Op>)
    requires PartOf(seen, t) && Elements(ops) == PlacementDiff(seen, hub, objs)
    ensures InsertsAreNew(ops, t) && StatusRows(ApplyOps(ops, t), hub) == Pairs(hub, objs) <==>
            forall k | k in StatusRows(t, hub) && k !in seen :: DroppedWithPolicy(seen, hub, objs, k)
  {
    hide PlacementDiff, ApplyOps, DroppedWithPolicy, Pairs;
    PlacementKeysExact(t, seen, hub, objs, ops);
    forall k | k in StatusRows(t, hub) && k !in seen && k in Pairs(hub, objs)
      ensures !InsertsAreNew(ops, t) && !DroppedWithPolicy(seen, hub, objs, k)
    {
      MissedPairClashes(t, seen, hub, objs, ops, k);
    }
    forall o, k | o in ops && k in Created(o) && k in t ensures k in StatusRows(t, hub) && k !in seen && k in Pairs(hub, objs) {
      InsertedPair(seen, hub, objs, ops, o, k);
    }
  }

  lemma MissedPairClashes(t: Table, seen: Table, hub: string, objs: seq<PolicyClusters>, ops: seq<Op>, k: Key)
    requires Elements(ops) == PlacementDiff(seen, hub, objs)
    requires k in t && k !in seen && k in Pairs(hub, objs)
    ensures !InsertsAreNew(ops, t) && !DroppedWithPolicy(seen, hub, objs, k)
  {
    PairsPolicies(hub, objs);
    var o := PlacementOpFor(seen, hub, objs, k);
    PlacementTouch(seen, hub, objs, o, k);
    assert o in Elements(ops) && k in Created(o);
  }

  lemma InsertedPair(seen: Table, hub: string, objs: seq<PolicyClusters>, ops: seq<Op>, o: Op, k: Key)
    requires Elements(ops) == PlacementDiff(seen, hub, objs) && o in ops && k in Created(o)
    ensures k.ComplianceKey? && k.hub == hub && k !in seen && k in Pairs(hub, objs)
  {
    assert o in Elements(ops);
    PairsPolicies(hub, objs);
  }

  /** The rows alone, if an INSERT of an existing row left a single row there. */
  lemma PlacementKeysExact(t: Table, seen: Table, hub: string, objs: seq<PolicyClusters>, ops: seq<Op>)
    requires PartOf(seen, t) && Elements(ops) == PlacementDiff(seen, hub, objs)
    ensures StatusRows(ApplyOps(ops, t), hub) == Pairs(hub, objs) <==>
            forall k | k in StatusRows(t, hub) && k !in seen ::
              k in Pairs(hub, objs) || DroppedWithPolicy(seen, hub, objs, k)
  {
    var after := ApplyOps(ops, t);
    forall k
      ensures (k in StatusRows(after, hub) <==> k in Pairs(hub, objs)) <==>
              (k in StatusRows(t, hub) && k !in seen ==> k in Pairs(hub, objs) || DroppedWithPolicy(seen, hub, objs, k))
    {
      TruncatedRow(t, seen, hub, objs, ops, k);
    }
  }

  lemma TruncatedRow(t: Table, seen: Table, hub: string, objs: seq<PolicyClusters>, ops: seq<Op>, k: Key)
    requires PartOf(seen, t)
    requires Elements(ops) == PlacementDiff(seen, hub, objs)
    ensures (k in StatusRows(ApplyOps(ops, t), hub) <==> k in Pairs(hub, objs)) <==>
            (k in StatusRows(t, hub) && k !in seen ==> k in Pairs(hub, objs) || DroppedWithPolicy(seen, hub, objs, k))
  {
    hide PlacementDiff, Pairs, DroppedWithPolicy;
    PairsPolicies(hub, objs);
    if (k in Pairs(hub, objs) && k !in seen) || (k in StatusRows(seen, hub) && k !in Pairs(hub, objs)) {
      var o := PlacementOpFor(seen, hub, objs, k);
      assert o in Elements(ops);
      TruncatedTouched(t, seen, hub, objs, ops, o, k);
    } else if k.hub == hub && DroppedWithPolicy(seen, hub, objs, k) {
      PolicyDropFor(seen, hub, objs, k);
      assert DropPolicy(hub, k.policy) in Elements(ops);
      TruncatedTouched(t, seen, hub, objs, ops, DropPolicy(hub, k.policy), k);
    } else if o :| o in Elements(ops) && Touches(o, k) {
      TruncatedTouched(t, seen, hub, objs, ops, o, k);
    } else {
      forall o | o in ops ensures !Touches(o, k) { assert o in Elements(ops); }
      UntouchedRow(ops, t, k);
      assert k in ApplyOps(ops, t) <==> Lookup(ApplyOps(ops, t), k).Some?;
    }
  }

  lemma TruncatedTouched(
    t: Table, seen: Table, hub: string, objs: seq<PolicyClusters>, ops: seq<Op>, o: Op, k: Key)
    requires PartOf(seen, t)
    requires Elements(ops) == PlacementDiff(seen, hub, objs) && o in ops && Touches(o, k)
    ensures (k in StatusRows(ApplyOps(ops, t), hub) <==> k in Pairs(hub, objs))
    ensures k !in seen ==> k in Pairs(hub, objs) || DroppedWithPolicy(seen, hub, objs, k)
  {
    hide PlacementDiff, Pairs, DroppedWithPolicy;
    assert o in Elements(ops);
    PairsPolicies(hub, objs);
    PlacementDiffCompatible(seen, hub, objs);
    PlacementTouch(seen, hub, objs, o, k);
    TouchedRow(ops, t, k, o);
    if !o.InsertStatus? { DroppedBy(seen, hub, objs, o, k); }
    assert k in ApplyOps(ops, t) <==> Lookup(ApplyOps(ops, t), k).Some?;
  }

  lemma PolicyDropFor(seen: Table, hub: string, objs: seq<PolicyClusters>, k: Key)
    requires DroppedWithPolicy(seen, hub, objs, k) && k.hub == hub
    ensures k.ComplianceKey?
    ensures DropPolicy(hub, k.policy) in PlacementDiff(seen, hub, objs) && Touches(DropPolicy(hub, k.policy), k)
  {
  }

  lemma DroppedBy(seen: Table, hub: string, objs: seq<PolicyClusters>, o: Op, k: Key)
    requires o in PlacementDiff(seen, hub, objs) && Touches(o, k) && !o.InsertStatus?
    ensures k in seen || DroppedWithPolicy(seen, hub, objs, k)
  {
    if o.DropClusterStatus? {
      assert k == ComplianceKey(o.hub, o.policy, o.cluster);
    } else {
      var seenKey :| seenKey in StatusRows(seen, hub) && seenKey.policy !in PlacementPolicies(objs)
                     && o == DropPolicy(hub, seenKey.policy);
    }
  }

  /** A missed row the bundle lists is inserted again; one it does not list stays. */
  lemma PlacementReadFails(hub: string, policy: string, cluster: string)
    ensures var k := ComplianceKey(hub, policy, cluster);
      var t := map[k := ComplianceRow(ERROR_NONE, NonCompliant)];
      && InsertStatus(hub, policy, cluster, ERROR_NONE, Unknown) in
           PlacementDiff(map[], hub, [PolicyClusters(policy, [cluster])])
      && k in Created(InsertStatus(hub, policy, cluster, ERROR_NONE, Unknown)) && k in t
      && forall ops | Elements(ops) == PlacementDiff(map[], hub, []) :: k in ApplyOps(ops, t)
  {
    var k := ComplianceKey(hub, policy, cluster);
    var t := map[k := ComplianceRow(ERROR_NONE, NonCompliant)];
    var objs := [PolicyClusters(policy, [cluster])];
    assert objs[0].clusters[0] == cluster && k in Pairs(hub, objs);
    assert PlacementDiff(map[], hub, []) == {};
    forall ops | Elements(ops) == PlacementDiff(map[], hub, []) ensures k in ApplyOps(ops, t) {
      NoOperations(ops);
    }
  }

  // ---------------------------------------------------------------- compliance status

  /** Some other row that shows its policy in the snapshot. */
  ghost predicate PolicySeen(seen: Table, hub: string, policy: string) {
    exists k :: k in NonCompliantRows(seen, hub) && k.policy == policy
  }

  /** What becomes right all the same of a row the query missed. */
  ghost predicate Recovered(t: Table, seen: Table, hub: string, objs: seq<PolicyCompliance>, k: Key)
    requires k in StatusRows(t, hub)
  {
    var reported := ReportedStatus(objs, k.policy, k.cluster);
    || StatusAt(t, k) == Some(reported)
    || reported != Compliant
    || (FindStatus(objs, k.policy).None? && PolicySeen(seen, hub, k.policy))
  }

  /**
   Every row gets the status the bundle reports if and only if each row the query missed has that status already, is
   reported as not compliant, or falls with its unlisted policy of which another row was delivered. Otherwise a stale
   status stays, and the handler reports success.
   */
  lemma ComplianceReadExact(t: Table, seen: Table, hub: string, objs: seq<PolicyCompliance>, ops: seq<Op>)
    requires PartOf(seen, t) && WellTyped(t) && ValidContents(ComplianceStatus(objs))
    requires Elements(ops) == ComplianceDiff(seen, hub, objs)
    ensures ApplyOps(ops, t) == ComplianceTarget(t, hub, objs) <==>
            forall k | k in StatusRows(t, hub) && k !in seen :: Recovered(t, seen, hub, objs, k)
  {
    hide ComplianceDiff, ApplyOps, Recovered, StatusRows, ComplianceTarget, WellTyped, ValidContents;
    var after, target := ApplyOps(ops, t), ComplianceTarget(t, hub, objs);
    forall k ensures Lookup(after, k) == Lookup(target, k) <==>
                     (k in StatusRows(t, hub) && k !in seen ==> Recovered(t, seen, hub, objs, k))
    {
      ComplianceReadRow(t, seen, hub, objs, ops, k);
    }
    if forall k | k in StatusRows(t, hub) && k !in seen :: Recovered(t, seen, hub, objs, k) {
      SameRowsEqual(after, target);
    }
  }

  lemma ComplianceReadRow(t: Table, seen: Table, hub: string, objs: seq<PolicyCompliance>, ops: seq<Op>, k: Key)
    requires PartOf(seen, t) && WellTyped(t) && ValidContents(ComplianceStatus(objs))
    requires Elements(ops) == ComplianceDiff(seen, hub, objs)
    ensures Lookup(ApplyOps(ops, t), k) == Lookup(ComplianceTarget(t, hub, objs), k) <==>
            (k in StatusRows(t, hub) && k !in seen ==> Recovered(t, seen, hub, objs, k))
  {
    hide ComplianceDiff, ApplyOps, WellTyped, ValidContents;
    ComplianceDiffCompatible(seen, hub, objs);
    ComplianceOpsReport(seen, hub, objs);
    if o :| o in Elements(ops) && Touches(o, k) {
      TouchedRow(ops, t, k, o);
      ComplianceTouched(t, seen, hub, objs, o, k);
    } else {
      forall o | o in ops ensures !Touches(o, k) { assert o in Elements(ops); }
      UntouchedRow(ops, t, k);
      ComplianceUntouched(t, seen, hub, objs, k);
    }
  }

  /** A touched row gets the reported status; if the query missed it, that could be foretold. */
  lemma ComplianceTouched(t: Table, seen: Table, hub: string, objs: seq<PolicyCompliance>, o: Op, k: Key)
    requires PartOf(seen, t) && ValidContents(ComplianceStatus(objs))
    requires o in ComplianceDiff(seen, hub, objs) && Touches(o, k)
    ensures Effect(o, Lookup(t, k)) == Lookup(ComplianceTarget(t, hub, objs), k)
    ensures k in StatusRows(t, hub) && k !in seen ==> Recovered(t, seen, hub, objs, k)
  {
    ComplianceOpsReport(seen, hub, objs);
    FindStatusIs(objs, k.policy);
  }

  lemma ComplianceUntouched(t: Table, seen: Table, hub: string, objs: seq<PolicyCompliance>, k: Key)
    requires PartOf(seen, t) && WellTyped(t) && ValidContents(ComplianceStatus(objs))
    requires forall o | o in ComplianceDiff(seen, hub, objs) :: !Touches(o, k)
    ensures Lookup(t, k) == Lookup(ComplianceTarget(t, hub, objs), k) <==>
            (k in StatusRows(t, hub) && k !in seen ==> Recovered(t, seen, hub, objs, k))
  {
    hide ComplianceDiff;
    if k in StatusRows(t, hub) && t[k].status != ReportedStatus(objs, k.policy, k.cluster) &&
       (k in seen || Recovered(t, seen, hub, objs, k))
    {
      var o := RecoveringOp(t, seen, hub, objs, k);
    }
  }

  lemma RecoveringOp(t: Table, seen: Table, hub: string, objs: seq<PolicyCompliance>, k: Key) returns (o: Op)
    requires PartOf(seen, t) && WellTyped(t) && ValidContents(ComplianceStatus(objs))
    requires k in StatusRows(t, hub) && t[k].status != ReportedStatus(objs, k.policy, k.cluster)
    requires k in seen || Recovered(t, seen, hub, objs, k)
    ensures o in ComplianceDiff(seen, hub, objs) && Touches(o, k)
  {
    FindStatusIs(objs, k.policy);
    assert WellTyped(seen);
    if k in seen {
      assert k in StatusRows(seen, hub);
      o := ComplianceOpFor(seen, hub, objs, k);
    } else if ReportedStatus(objs, k.policy, k.cluster) != Compliant {
      var i :| 0 <= i < |objs| && objs[i] == FindStatus(objs, k.policy).value;
      o := SetClusterStatus(hub, k.policy, k.cluster, ReportedStatus(objs, k.policy, k.cluster));
      assert StatusAt(seen, ComplianceKey(hub, objs[i].policyId, k.cluster)).None?;
    } else {
      var row :| row in NonCompliantRows(seen, hub) && row.policy == k.policy;
      o := SetPolicyStatus(hub, k.policy, Compliant);
    }
  }

  /** A missed row of a policy that is compliant by now keeps its old status. */
  lemma ComplianceReadFails(hub: string, policy: string, cluster: string, ops: seq<Op>)
    requires Elements(ops) == ComplianceDiff(map[], hub, [PolicyCompliance(policy, [], [])])
    ensures var k := ComplianceKey(hub, policy, cluster);
      var t := map[k := ComplianceRow(ERROR_NONE, NonCompliant)];
      && ApplyOps(ops, t) == t
      && ReportedStatus([PolicyCompliance(policy, [], [])], policy, cluster) == Compliant
  {
    assert Elements(ops) == {};
    NoOperations(ops);
  }

  // ---------------------------------------------------------------- managed clusters

  /**
   No INSERT meets an existing row and the hub's clusters become the bundle's, if and only if the query missed none of
   them and equal resource versions mean equal payloads.
   */
  lemma ClusterReadExact(t: Table, seen: Table, hub: string, objs: seq<ManagedCluster>, ops: seq<Op>)
    requires PartOf(seen, t) && WellTyped(t) && ValidContents(ManagedClusters(objs))
    requires Elements(ops) == ClusterDiff(seen, hub, objs)
    ensures InsertsAreNew(ops, t) && ApplyOps(ops, t) == ClusterTarget(t, hub, objs) <==>
            ClusterRows(t, hub) <= seen.Keys && VersionsAgree(t, hub, objs)
  {
    hide ClusterDiff, ApplyOps, ClusterTarget, VersionsAgree, WellTyped, ValidContents;
    if ClusterRows(t, hub) <= seen.Keys {
      SameClusterDiff(t, seen, hub, objs);
      ClusterExactIff(t, hub, objs, ops);
      ClusterInsertsAreNew(t, hub, objs, ops);
    } else {
      var k :| k in ClusterRows(t, hub) && k !in seen;
      MissedCluster(t, seen, hub, objs, ops, k);
    }
  }

  lemma SameClusterDiff(t: Table, seen: Table, hub: string, objs: seq<ManagedCluster>)
    requires PartOf(seen, t) && ClusterRows(t, hub) <= seen.Keys
    ensures ClusterDiff(seen, hub, objs) == ClusterDiff(t, hub, objs)
  {
    forall k: Key | k.ClusterKey? && k.hub == hub ensures VersionAt(seen, k) == VersionAt(t, k) {
      assert k in t ==> k in ClusterRows(t, hub);
    }
    assert ClusterRows(seen, hub) == ClusterRows(t, hub);
  }

  lemma ClusterInsertsAreNew(t: Table, hub: string, objs: seq<ManagedCluster>, ops: seq<Op>)
    requires WellTyped(t) && Elements(ops) == ClusterDiff(t, hub, objs)
    ensures InsertsAreNew(ops, t)
  {
    forall o, k | o in ops && k in Created(o) ensures k !in t {
      assert o in Elements(ops);
    }
  }

  /** A missed cluster is inserted again if the bundle has it, and stays if not. */
  lemma MissedCluster(t: Table, seen: Table, hub: string, objs: seq<ManagedCluster>, ops: seq<Op>, k: Key)
    requires PartOf(seen, t) && ValidContents(ManagedClusters(objs)) && Elements(ops) == ClusterDiff(seen, hub, objs)
    requires k in ClusterRows(t, hub) && k !in seen
    ensures FindCluster(objs, k.name).Some? ==> !InsertsAreNew(ops, t)
    ensures FindCluster(objs, k.name).None? ==>
              Lookup(ApplyOps(ops, t), k) == Lookup(t, k) && Lookup(ClusterTarget(t, hub, objs), k).None?
  {
    FindClusterIs(objs, k.name);
    match FindCluster(objs, k.name)
    case Some(c) =>
      assert InsertCluster(hub, c, ERROR_NONE) in Elements(ops) && k in Created(InsertCluster(hub, c, ERROR_NONE));
    case None =>
      ClusterOps(seen, hub, objs);
      forall o | o in ops ensures !Touches(o, k) { assert o in Elements(ops); }
      UntouchedRow(ops, t, k);
  }

  /** A missed cluster that is gone by now stays in the table. */
  lemma ClusterReadFails(hub: string, c: ManagedCluster, ops: seq<Op>)
    requires Elements(ops) == ClusterDiff(map[], hub, [])
    ensures var t := map[ClusterKey(hub, c.name) := ClusterRow(c, ERROR_NONE)];
            ApplyOps(ops, t) == t && ClusterTarget(t, hub, []) == map[]
  {
    assert Elements(ops) == {};
    NoOperations(ops);
  }

  // ---------------------------------------------------------------- minimal compliance

  /** The aggregated rows become the bundle's if and only if the bundle lists every policy the query missed. */
  lemma SummaryReadExact(t: Table, seen: Table, hub: string, objs: seq<MinimalCompliance>, ops: seq<Op>)
    requires PartOf(seen, t) && ValidContents(MinimalComplianceStatus(objs))
    requires Elements(ops) == SummaryDiff(seen, hub, objs)
    ensures ApplyOps(ops, t) == SummaryTarget(t, hub, objs) <==>
            forall k | k in AggregateRows(t, hub) && k !in seen :: FindSummary(objs, k.policy).Some?
  {
    hide SummaryDiff, ApplyOps, SummaryTarget, ValidContents;
    var after, target := ApplyOps(ops, t), SummaryTarget(t, hub, objs);
    forall k ensures Lookup(after, k) == Lookup(target, k) <==>
                     (k in AggregateRows(t, hub) && k !in seen ==> FindSummary(objs, k.policy).Some?)
    {
      SummaryReadRow(t, seen, hub, objs, ops, k);
    }
    if forall k | k in AggregateRows(t, hub) && k !in seen :: FindSummary(objs, k.policy).Some? {
      SameRowsEqual(after, target);
    }
  }

  lemma SummaryReadRow(t: Table, seen: Table, hub: string, objs: seq<MinimalCompliance>, ops: seq<Op>, k: Key)
    requires PartOf(seen, t) && ValidContents(MinimalComplianceStatus(objs))
    requires Elements(ops) == SummaryDiff(seen, hub, objs)
    ensures Lookup(ApplyOps(ops, t), k) == Lookup(SummaryTarget(t, hub, objs), k) <==>
            (k in AggregateRows(t, hub) && k !in seen ==> FindSummary(objs, k.policy).Some?)
  {
    hide ApplyOps;
    SummaryDiffCompatible(seen, hub, objs);
    SummaryOps(seen, hub, objs);
    if k.AggregateKey? { FindSummaryIs(objs, k.policy); }
    if o :| o in Elements(ops) && Touches(o, k) {
      TouchedRow(ops, t, k, o);
      SummaryTouchedAnywhere(t, seen, hub, objs, o, k);
    } else {
      forall o | o in ops ensures !Touches(o, k) { assert o in Elements(ops); }
      UntouchedRow(ops, t, k);
      SummaryUntouchedBySeen(t, seen, hub, objs, k);
    }
  }

  lemma SummaryTouchedAnywhere(t: Table, seen: Table, hub: string, objs: seq<MinimalCompliance>, o: Op, k: Key)
    requires PartOf(seen, t) && ValidContents(MinimalComplianceStatus(objs))
    requires o in SummaryDiff(seen, hub, objs) && Touches(o, k)
    ensures Effect(o, Lookup(t, k)) == Lookup(SummaryTarget(t, hub, objs), k)
    ensures k !in seen ==> FindSummary(objs, k.policy).Some?
  {
    SummaryOps(seen, hub, objs);
    FindSummaryIs(objs, k.policy);
    if o.UpsertAggregate? {
      assert k in SummaryKeys(hub, objs);
    } else {
      var row :| row in AggregateRows(seen, hub) && o == DropAggregate(hub, row.policy);
      assert row == k;
    }
  }

  lemma SummaryUntouchedBySeen(t: Table, seen: Table, hub: string, objs: seq<MinimalCompliance>, k: Key)
    requires PartOf(seen, t)
    requires forall o | o in SummaryDiff(seen, hub, objs) :: !Touches(o, k)
    ensures Lookup(t, k) == Lookup(SummaryTarget(t, hub, objs), k) <==>
            (k in AggregateRows(t, hub) && k !in seen ==> FindSummary(objs, k.policy).Some?)
  {
    if k.AggregateKey? && k.hub == hub {
      FindSummaryIs(objs, k.policy);
      if k in seen || FindSummary(objs, k.policy).Some? {
        var o := SummaryOpFor(seen, hub, objs, k);
      }
    }
  }

  /** A missed policy that the bundle does not list stays. */
  lemma SummaryReadFails(hub: string, policy: string, ops: seq<Op>)
    requires Elements(ops) == SummaryDiff(map[], hub, [])
    ensures var t := map[AggregateKey(hub, policy) := AggregateRow(1, 0)];
            ApplyOps(ops, t) == t && SummaryTarget(t, hub, []) == map[]
  {
    assert Elements(ops) == {};
    NoOperations(ops);
  }
}
