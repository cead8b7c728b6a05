/**
 The policies handlers: loops that compare a bundle with a snapshot and call the batch builder. Each is proved to
 emit exactly the differences, each once, and its batch to make the table agree with the bundle. The table `t` is what
 the handler's query delivered; TruncatedReads.dfy says what becomes of the table if that was not all of it.
 */
module PoliciesDbSyncer {
  import opened Bundles
  import opened Tables
  import opened Diffs
  import opened Statements
  import opened BatchBuilders
  import opened PoliciesBatch
  import opened Snapshots

  /** What running a batch does to the tables. */
  function RunBatch(batch: seq<Statement>, t: Table): Table
    requires Sound(batch)
  {
    ApplyOps(BatchOps(batch).value, t)
  }

  /** No operation is performed twice. */
  ghost predicate Once(ops: seq<Op>) {
    forall o :: multiset(ops)[o] <= 1
  }

  /** Calls of pairwise different rows may be batched in any grouping and order. */
  lemma BatchingPreservesMeaning(batch: seq<Statement>, calls: seq<Op>, t: Table)
    requires Sound(batch) && multiset(BatchOps(batch).value) == multiset(calls)
    requires Compatible(Elements(calls))
    ensures Elements(BatchOps(batch).value) == Elements(calls)
    ensures RunBatch(batch, t) == ApplyOps(calls, t)
    ensures Once(calls) ==> Once(BatchOps(batch).value)
  {
    var ops := BatchOps(batch).value;
    forall o ensures o in ops <==> o in calls {
      assert o in ops <==> o in multiset(ops);
      assert o in calls <==> o in multiset(calls);
    }
    OrderDoesNotMatter(ops, calls, t);
  }

  lemma CollectFirst(batch: seq<Statement>, op: Op)
    requires op.InsertStatus? || op.DropPolicy?
    ensures Collect(CommandOf(op).value, PrefixOf(op), Batching(batch, []), op) == Batching(batch, [op])
  {
    hide ArgsFor;
    SizeOf(CommandOf(op).value, PrefixOf(op), [op]);
    assert [] + [op] == [op];
  }

  lemma SmallIsSized(command: Command, prefix: seq<Value>, op: Op)
    requires Fits(command, prefix, [op])
    ensures Sized(command, |prefix + ArgsFor([op])|)
  {
    hide ArgsFor;
    SizeOf(command, prefix, [op]);
  }

  lemma NothingPerformed()
    ensures BatchOps([]) == Some([])
  {
  }

  /** What a database reads from the printed statements of one insert and one policy delete. */
  lemma InsertThenDrop(hub: string, insert: Op, drop: Op)
    requires insert.InsertStatus? && drop.DropPolicy? && drop.hub == hub
    ensures BatchOps(Rest(InsertCompliance, [], [insert]) + Rest(DeletePolicies, [Text(hub)], [drop])) == Some([insert, drop])
  {
    hide StatementOps, MakeStatement, ArgsFor, ValuesOf, Sized, FlushSize, WellShaped, BatchOps, KindOps, ArgsOf;
    SmallIsSized(InsertCompliance, [], insert);
    SmallIsSized(DeletePolicies, [Text(hub)], drop);
    NothingPerformed();
    var s1 := MakeStatement(InsertCompliance, [], [insert]);
    QueueOne([], InsertCompliance, [], [insert]);
    assert [] + [s1] == [s1] && [] + [insert] == [insert] && [insert] + [drop] == [insert, drop];
    QueueOne([s1], DeletePolicies, [Text(hub)], [drop]);
  }

  lemma LastOneCounts(hub: string, policy: string, cluster: string)
    ensures var drop, insert := DropPolicy(hub, policy), InsertStatus(hub, policy, cluster, ERROR_NONE, Unknown);
      && ComplianceKey(hub, policy, cluster) in ApplyOps([drop, insert], map[])
      && ComplianceKey(hub, policy, cluster) !in ApplyOps([insert, drop], map[])
  {
    var drop, insert := DropPolicy(hub, policy), InsertStatus(hub, policy, cluster, ERROR_NONE, Unknown);
    var k := ComplianceKey(hub, policy, cluster);
    ApplyOpsAppend([drop], insert, map[]);
    ApplyOpsAppend([insert], drop, map[]);
    assert [drop] + [insert] == [drop, insert] && [insert] + [drop] == [insert, drop];
    assert Lookup(ApplyOps([drop, insert], map[]), k).Some?;
    assert Lookup(ApplyOps([insert, drop], map[]), k).None?;
  }

  /** For calls about the same row the order does matter: the builder prints inserts before deletes and loses the row. */
  method RegroupingNeedsDisjointCalls(hub: string, policy: string, cluster: string)
    returns (batch: seq<Statement>, ghost calls: seq<Op>)
    ensures calls == [DropPolicy(hub, policy), InsertStatus(hub, policy, cluster, ERROR_NONE, Unknown)]
    ensures Sound(batch) && multiset(BatchOps(batch).value) == multiset(calls)
    ensures ComplianceKey(hub, policy, cluster) in ApplyOps(calls, map[])
    ensures ComplianceKey(hub, policy, cluster) !in RunBatch(batch, map[])
  {
    hide PoliciesBatchBuilder.Valid, Collect, BatchOps, Sound, MakeStatement, Rest, ApplyOps, DropsIn, WithinLimit;
    ghost var drop, insert := DropPolicy(hub, policy), InsertStatus(hub, policy, cluster, ERROR_NONE, Unknown);
    CollectFirst([], drop);
    CollectFirst([], insert);
    LastOneCounts(hub, policy, cluster);
    InsertThenDrop(hub, insert, drop);
    var builder := new PoliciesBatchBuilder(hub);
    builder.DeletePolicy(policy);
    builder.Insert(policy, cluster, ERROR_NONE, Unknown);
    ghost var order;
    batch, order := builder.Build();
    calls := builder.calls;
    NothingRemains();
    NothingDropped(order);
    NoRowDrops([], hub, []);
    assert batch == Rest(InsertCompliance, [], [insert]) + Rest(DeletePolicies, [Text(hub)], [drop]);
  }

  lemma NothingDropped(order: seq<string>)
    requires EachPolicyOnce(order, [])
    ensures order == []
  {
    FirstTwo(order);
  }

  /** What one more call, not made before, adds. */
  lemma OneMore(calls: seq<Op>, op: Op)
    ensures Elements(calls + [op]) == Elements(calls) + {op}
    ensures op !in calls && Once(calls) ==> Once(calls + [op])
  {
    if op !in calls { assert multiset(calls)[op] == 0; }
    assert multiset(calls + [op]) == multiset(calls) + multiset{op};
  }

  // ---------------------------------------------------------------- clusters per policy

  /** The differences of one policy of the bundle. */
  function PolicyDiff(t: Table, hub: string, o: PolicyClusters): set<Op> {
    (set c | c in o.clusters && ComplianceKey(hub, o.policyId, c) !in t :: InsertStatus(hub, o.policyId, c, ERROR_NONE, Unknown)) +
    (set k | k in StatusRows(t, hub) && k.policy == o.policyId && k.cluster !in o.clusters ::
       DropClusterStatus(hub, k.policy, k.cluster))
  }

  function PoliciesDiff(t: Table, hub: string, objs: seq<PolicyClusters>): set<Op> {
    set i, op | 0 <= i < |objs| && op in PolicyDiff(t, hub, objs[i]) :: op
  }

  /** The differences policy by policy, and the policies that are gone, are the differences of the bundle. */
  lemma PlacementByPolicy(t: Table, hub: string, objs: seq<PolicyClusters>)
    requires ValidContents(ClustersPerPolicy(objs))
    ensures PlacementDiff(t, hub, objs) == PoliciesDiff(t, hub, objs) +
              set k | k in StatusRows(t, hub) && k.policy !in PlacementPolicies(objs) :: DropPolicy(hub, k.policy)
  {
    forall op | op in PoliciesDiff(t, hub, objs) ensures op in PlacementDiff(t, hub, objs) {
      var i :| 0 <= i < |objs| && op in PolicyDiff(t, hub, objs[i]);
      var k := ComplianceKey(hub, op.policy, op.cluster);
      assert op.InsertStatus? ==> k in Pairs(hub, objs);
      if op.DropClusterStatus? {
        assert k in StatusRows(t, hub) && k.policy in PlacementPolicies(objs);
        assert k !in Pairs(hub, objs);
      }
    }
    forall op | op in PlacementDiff(t, hub, objs) && !op.DropPolicy? ensures op in PoliciesDiff(t, hub, objs) {
      var k := ComplianceKey(hub, op.policy, op.cluster);
      if op.InsertStatus? {
        var i :| 0 <= i < |objs| && op.cluster in objs[i].clusters && objs[i].policyId == op.policy;
        assert op in PolicyDiff(t, hub, objs[i]);
      } else {
        var i :| 0 <= i < |objs| && objs[i].policyId == op.policy;
        assert k !in Pairs(hub, objs);
        assert op in PolicyDiff(t, hub, objs[i]);
      }
    }
  }

  method HandleClusterPerPolicy(builder: PoliciesBatchBuilder, o: PolicyClusters, clustersFromDB: set<string>,
                                ghost t: Table)
    requires builder.Valid() && Once(builder.calls) && Distinct(o.clusters)
    requires forall c :: c in clustersFromDB <==> ComplianceKey(builder.base.leafHubName, o.policyId, c) in t
    requires forall op | op in builder.calls :: (op.InsertStatus? || op.DropClusterStatus?) && op.policy != o.policyId
    modifies builder, builder.base
    ensures builder.Valid() && Once(builder.calls)
    ensures Elements(builder.calls) == old(Elements(builder.calls)) + PolicyDiff(t, builder.base.leafHubName, o)
  {
    hide PoliciesBatchBuilder.Valid, PoliciesBatchBuilder.Held, Collect, Once;
    ghost var hub := builder.base.leafHubName;
    var remaining := clustersFromDB;
    for i := 0 to |o.clusters|
      invariant builder.Valid() && Once(builder.calls)
      invariant forall c :: c in remaining <==> c in clustersFromDB && c !in o.clusters[..i]
      invariant forall op | op in builder.calls ::
                  || op in old(builder.calls)
                  || (op.InsertStatus? && op.policy == o.policyId && op.cluster in o.clusters[..i])
      invariant Elements(builder.calls) == old(Elements(builder.calls)) +
                  set c | c in o.clusters[..i] && c !in clustersFromDB :: InsertStatus(hub, o.policyId, c, ERROR_NONE, Unknown)
    {
      var cluster := o.clusters[i];
      assert o.clusters[..i + 1] == o.clusters[..i] + [cluster];
      assert cluster !in o.clusters[..i];
      if cluster !in remaining {
        OneMore(builder.calls, InsertStatus(hub, o.policyId, cluster, ERROR_NONE, Unknown));
        builder.Insert(o.policyId, cluster, ERROR_NONE, Unknown);
      } else {
        remaining := remaining - {cluster};
      }
    }
    assert o.clusters[..|o.clusters|] == o.clusters;
    forall c | c in remaining ensures DropClusterStatus(hub, o.policyId, c) !in builder.calls {
    }
    DeleteStale(builder, o.policyId, remaining);
    PolicyDiffIs(t, hub, o, clustersFromDB, remaining);
  }

  method DeleteStale(builder: PoliciesBatchBuilder, policy: string, clusters: set<string>)
    requires builder.Valid() && Once(builder.calls)
    requires forall c | c in clusters :: DropClusterStatus(builder.base.leafHubName, policy, c) !in builder.calls
    modifies builder, builder.base
    ensures builder.Valid() && Once(builder.calls)
    ensures Elements(builder.calls) == old(Elements(builder.calls)) +
              set c | c in clusters :: DropClusterStatus(builder.base.leafHubName, policy, c)
  {
    hide PoliciesBatchBuilder.Valid, PoliciesBatchBuilder.Held, Collect, Once;
    ghost var hub := builder.base.leafHubName;
    var rest := clusters;
    while rest != {}
      invariant builder.Valid() && Once(builder.calls) && rest <= clusters
      invariant forall c | c in rest :: DropClusterStatus(hub, policy, c) !in builder.calls
      invariant Elements(builder.calls) == old(Elements(builder.calls)) +
                  set c | c in clusters - rest :: DropClusterStatus(hub, policy, c)
      decreases |rest|
    {
      var cluster :| cluster in rest;
      OneMore(builder.calls, DropClusterStatus(hub, policy, cluster));
      builder.DeleteClusterStatus(policy, cluster);
      rest := rest - {cluster};
    }
  }

  lemma PolicyDiffIs(t: Table, hub: string, o: PolicyClusters, clustersFromDB: set<string>, stale: set<string>)
    requires forall c :: c in clustersFromDB <==> ComplianceKey(hub, o.policyId, c) in t
    requires forall c :: c in stale <==> c in clustersFromDB && c !in o.clusters
    ensures PolicyDiff(t, hub, o) ==
              (set c | c in o.clusters && c !in clustersFromDB :: InsertStatus(hub, o.policyId, c, ERROR_NONE, Unknown)) +
              (set c | c in stale :: DropClusterStatus(hub, o.policyId, c))
  {
    forall c | c in stale ensures DropClusterStatus(hub, o.policyId, c) in PolicyDiff(t, hub, o) {
      assert ComplianceKey(hub, o.policyId, c) in StatusRows(t, hub);
    }
  }

  /** What the policies handled so far contributed. */
  lemma PoliciesDiffOps(t: Table, hub: string, objs: seq<PolicyClusters>)
    ensures forall op | op in PoliciesDiff(t, hub, objs) ::
              (op.InsertStatus? || op.DropClusterStatus?) && op.policy in PlacementPolicies(objs)
  {
  }

  lemma GonePolicies(t: Table, hub: string, objs: seq<PolicyClusters>, rows: map<string, set<string>>, gone: set<string>)
    requires IsPlacementSnapshot(t, hub, rows)
    requires forall p :: p in gone <==> p in rows && p !in PlacementPolicies(objs)
    ensures (set p | p in gone :: DropPolicy(hub, p)) ==
            set k | k in StatusRows(t, hub) && k.policy !in PlacementPolicies(objs) :: DropPolicy(hub, k.policy)
  {
    forall p | p in gone ensures exists k :: k in StatusRows(t, hub) && k.ComplianceKey? && k.policy == p {
      var c :| c in rows[p];
      assert ComplianceKey(hub, p, c) in StatusRows(t, hub);
    }
    forall k | k in StatusRows(t, hub) ensures k.policy in rows {
      assert k == ComplianceKey(hub, k.policy, k.cluster);
    }
  }

  lemma NoPlacements(t: Table, hub: string)
    ensures PlacementPolicies([]) == {} && PoliciesDiff(t, hub, []) == {} && Once([])
  {
  }

  /** One more object of a bundle whose objects have different policies. */
  lemma NextPlacement(t: Table, hub: string, objs: seq<PolicyClusters>, i: nat)
    requires ValidContents(ClustersPerPolicy(objs)) && i < |objs|
    ensures objs[i].policyId !in PlacementPolicies(objs[..i]) && Distinct(objs[i].clusters)
    ensures PlacementPolicies(objs[..i + 1]) == PlacementPolicies(objs[..i]) + {objs[i].policyId}
    ensures PoliciesDiff(t, hub, objs[..i + 1]) == PoliciesDiff(t, hub, objs[..i]) + PolicyDiff(t, hub, objs[i])
  {
    hide PolicyDiff;
    var more := objs[..i + 1];
    assert forall j | 0 <= j < i :: more[j] == objs[..i][j];
    assert more[i] == objs[i];
    forall op | op in PoliciesDiff(t, hub, objs[..i]) ensures op in PoliciesDiff(t, hub, more) {
      var j :| 0 <= j < i && op in PolicyDiff(t, hub, objs[..i][j]);
      assert op in PolicyDiff(t, hub, more[j]);
    }
    forall p | p in PlacementPolicies(objs[..i]) ensures p in PlacementPolicies(more) {
      var j :| 0 <= j < i && objs[..i][j].policyId == p;
      assert more[j].policyId == p;
    }
  }

  /** The rows of policies that are not among the first objects. */
  ghost predicate Leftover<T>(rows: map<string, T>, snapshot: map<string, T>, policies: set<string>) {
    && (forall p :: p in rows <==> p in snapshot && p !in policies)
    && (forall p | p in rows :: rows[p] == snapshot[p])
  }

  method HandlePlacedPolicies(
    builder: PoliciesBatchBuilder, objs: seq<PolicyClusters>, snapshot: map<string, set<string>>, ghost t: Table)
    returns (rows: map<string, set<string>>)
    requires builder.Valid() && builder.calls == [] && ValidContents(ClustersPerPolicy(objs))
    requires IsPlacementSnapshot(t, builder.base.leafHubName, snapshot)
    modifies builder, builder.base
    ensures builder.Valid() && Once(builder.calls)
    ensures Elements(builder.calls) == PoliciesDiff(t, builder.base.leafHubName, objs)
    ensures Leftover(rows, snapshot, PlacementPolicies(objs))
  {
    hide PoliciesBatchBuilder.Valid, PoliciesBatchBuilder.Held, Collect, PolicyDiff, PlacementPolicies, PoliciesDiff, Once;
    ghost var hub := builder.base.leafHubName;
    NoPlacements(t, hub);
    rows := snapshot;
    for i := 0 to |objs|
      invariant builder.Valid() && Once(builder.calls)
      invariant Elements(builder.calls) == PoliciesDiff(t, hub, objs[..i])
      invariant Leftover(rows, snapshot, PlacementPolicies(objs[..i]))
    {
      var o := objs[i];
      NextPlacement(t, hub, objs, i);
      PoliciesDiffOps(t, hub, objs[..i]);
      assert forall op | op in builder.calls :: op in Elements(builder.calls);
      var clustersFromDB := if o.policyId in rows then rows[o.policyId] else {};
      HandleClusterPerPolicy(builder, o, clustersFromDB, t);
      rows := rows - {o.policyId};
    }
    assert objs[..|objs|] == objs;
  }

  method DropMissingPolicies(builder: PoliciesBatchBuilder, policies: set<string>)
    requires builder.Valid() && Once(builder.calls)
    requires forall op | op in builder.calls :: !op.DropPolicy?
    modifies builder, builder.base
    ensures builder.Valid() && Once(builder.calls)
    ensures Elements(builder.calls) == old(Elements(builder.calls)) +
              set p | p in policies :: DropPolicy(builder.base.leafHubName, p)
  {
    hide PoliciesBatchBuilder.Valid, PoliciesBatchBuilder.Held, Collect, Once;
    ghost var hub := builder.base.leafHubName;
    var rest := policies;
    while rest != {}
      invariant builder.Valid() && Once(builder.calls) && rest <= policies
      invariant forall op | op in builder.calls :: op.DropPolicy? ==> op.policy in policies - rest
      invariant Elements(builder.calls) == old(Elements(builder.calls)) + set p | p in policies - rest :: DropPolicy(hub, p)
      decreases |rest|
    {
      var p :| p in rest;
      OneMore(builder.calls, DropPolicy(hub, p));
      builder.DeletePolicy(p);
      rest := rest - {p};
    }
  }

  /** The hub's keys become the bundle's pairs; each difference is performed by exactly one row of one statement. */
  method HandleClustersPerPolicyBundle(t: Table, hub: string, objs: seq<PolicyClusters>) returns (batch: seq<Statement>)
    requires ValidContents(ClustersPerPolicy(objs))
    ensures Sound(batch)
    ensures Elements(BatchOps(batch).value) == PlacementDiff(t, hub, objs) && Once(BatchOps(batch).value)
    ensures RunBatch(batch, t) == PlacementTarget(t, hub, objs)
  {
    hide PoliciesBatchBuilder.Valid, PoliciesBatchBuilder.Held, Collect, Once, PlacementDiff, PlacementTarget, PolicyDiff, PlacementPolicies, Sound, BatchOps,
      ApplyOps, Compatible;
    var complianceRowsFromDB := GetComplianceStatusByLeafHub(t, hub);
    var batchBuilder := new PoliciesBatchBuilder(hub);
    var rows := HandlePlacedPolicies(batchBuilder, objs, complianceRowsFromDB, t);
    PoliciesDiffOps(t, hub, objs);
    assert forall op | op in batchBuilder.calls :: op in Elements(batchBuilder.calls);
    DropMissingPolicies(batchBuilder, rows.Keys);
    GonePolicies(t, hub, objs, complianceRowsFromDB, rows.Keys);
    PlacementByPolicy(t, hub, objs);
    PlacementDiffCompatible(t, hub, objs);
    ghost var calls := batchBuilder.calls;
    ghost var order;
    batch, order := batchBuilder.Build();
    BatchingPreservesMeaning(batch, calls, t);
    PlacementExact(t, hub, objs, calls);
  }

  // ---------------------------------------------------------------- compliance status

  /** The rows of one policy of the bundle whose status is not the reported one. */
  function StatusDiff(t: Table, hub: string, o: PolicyCompliance): set<Op> {
    (set c | c in o.nonCompliant && StatusAt(t, ComplianceKey(hub, o.policyId, c)) != Some(NonCompliant) ::
       SetClusterStatus(hub, o.policyId, c, NonCompliant)) +
    (set c | c in o.unknown && StatusAt(t, ComplianceKey(hub, o.policyId, c)) != Some(Unknown) ::
       SetClusterStatus(hub, o.policyId, c, Unknown)) +
    (set k | k in NonCompliantRows(t, hub) && k.policy == o.policyId && k.cluster !in o.nonCompliant + o.unknown ::
       SetClusterStatus(hub, k.policy, k.cluster, Compliant))
  }

  function StatusesDiff(t: Table, hub: string, objs: seq<PolicyCompliance>): set<Op> {
    set i, op | 0 <= i < |objs| && op in StatusDiff(t, hub, objs[i]) :: op
  }

  /** Policies of the table that the bundle does not list are compliant everywhere. */
  function MissingDiff(t: Table, hub: string, objs: seq<PolicyCompliance>): set<Op> {
    set k | k in NonCompliantRows(t, hub) && k.policy !in ReportedPolicies(objs) ::
      SetPolicyStatus(hub, k.policy, Compliant)
  }

  function ReportedPolicies(objs: seq<PolicyCompliance>): set<string> {
    set i | 0 <= i < |objs| :: objs[i].policyId
  }

  /** The differences policy by policy, and the policies that are missing, are the differences of the bundle. */
  lemma ComplianceByPolicy(t: Table, hub: string, objs: seq<PolicyCompliance>)
    requires ValidContents(ComplianceStatus(objs))
    ensures ComplianceDiff(t, hub, objs) == StatusesDiff(t, hub, objs) + MissingDiff(t, hub, objs)
  {
    hide ComplianceDiff, StatusesDiff, MissingDiff;
    StatusesDiffOps(t, hub, objs);
    forall op | op in StatusesDiff(t, hub, objs) { StatusOpListed(t, hub, objs, op); }
    forall op | op in ComplianceDiff(t, hub, objs) && op.SetClusterStatus? { ComplianceOpPolicy(t, hub, objs, op); }
    forall op { PolicyOps(t, hub, objs, op); }
  }

  lemma PolicyOps(t: Table, hub: string, objs: seq<PolicyCompliance>, op: Op)
    requires ValidContents(ComplianceStatus(objs))
    ensures op in ComplianceDiff(t, hub, objs) && !op.SetClusterStatus? <==>
            op in MissingDiff(t, hub, objs)
  {
    hide FindStatus, NonCompliantRows;
    forall p ensures p in ReportedPolicies(objs) <==> FindStatus(objs, p).Some? { FindStatusIs(objs, p); }
  }

  lemma StatusOpListed(t: Table, hub: string, objs: seq<PolicyCompliance>, op: Op)
    requires ValidContents(ComplianceStatus(objs))
    requires op in StatusesDiff(t, hub, objs)
    ensures op in ComplianceDiff(t, hub, objs)
  {
    var i :| 0 <= i < |objs| && op in StatusDiff(t, hub, objs[i]);
    FindStatusIs(objs, objs[i].policyId);
  }

  lemma ComplianceOpPolicy(t: Table, hub: string, objs: seq<PolicyCompliance>, op: Op)
    requires ValidContents(ComplianceStatus(objs))
    requires op in ComplianceDiff(t, hub, objs) && op.SetClusterStatus?
    ensures op in StatusesDiff(t, hub, objs)
  {
    FindStatusIs(objs, op.policy);
    ComplianceOpsReport(t, hub, objs);
    var i :| 0 <= i < |objs| && objs[i] == FindStatus(objs, op.policy).value;
    assert op in StatusDiff(t, hub, objs[i]);
  }

  lemma NoStatuses(t: Table, hub: string)
    ensures ReportedPolicies([]) == {} && StatusesDiff(t, hub, []) == {} && Once([])
  {
  }

  lemma NextStatus(t: Table, hub: string, objs: seq<PolicyCompliance>, i: nat)
    requires ValidContents(ComplianceStatus(objs)) && i < |objs|
    ensures objs[i].policyId !in ReportedPolicies(objs[..i]) && ValidContents(ComplianceStatus([objs[i]]))
    ensures ReportedPolicies(objs[..i + 1]) == ReportedPolicies(objs[..i]) + {objs[i].policyId}
    ensures StatusesDiff(t, hub, objs[..i + 1]) == StatusesDiff(t, hub, objs[..i]) + StatusDiff(t, hub, objs[i])
  {
    hide StatusDiff;
    var more := objs[..i + 1];
    assert forall j | 0 <= j < i :: more[j] == objs[..i][j];
    assert more[i] == objs[i];
    forall op | op in StatusesDiff(t, hub, objs[..i]) ensures op in StatusesDiff(t, hub, more) {
      var j :| 0 <= j < i && op in StatusDiff(t, hub, objs[..i][j]);
      assert op in StatusDiff(t, hub, more[j]);
    }
    forall p | p in ReportedPolicies(objs[..i]) ensures p in ReportedPolicies(more) {
      var j :| 0 <= j < i && objs[..i][j].policyId == p;
      assert more[j].policyId == p;
    }
  }

  /** No update of one of these clusters was made. */
  ghost predicate Unreported(calls: seq<Op>, hub: string, policy: string, clusters: set<string>) {
    forall c, s | c in clusters :: SetClusterStatus(hub, policy, c, s) !in calls
  }

  /** Updates the listed clusters that are not in the table with that status, and marks all of them as handled. */
  method UpdateListed(builder: PoliciesBatchBuilder, policy: string, listed: seq<string>, status: Status,
                      withStatus: set<string>, clustersFromDB: set<string>) returns (rest: set<string>)
    requires builder.Valid() && Once(builder.calls) && Distinct(listed)
    requires Unreported(builder.calls, builder.base.leafHubName, policy, set c | c in listed)
    modifies builder, builder.base
    ensures builder.Valid() && Once(builder.calls)
    ensures Elements(builder.calls) == old(Elements(builder.calls)) +
              set c | c in listed && c !in withStatus :: SetClusterStatus(builder.base.leafHubName, policy, c, status)
    ensures rest == clustersFromDB - set c | c in listed
  {
    hide PoliciesBatchBuilder.Valid, PoliciesBatchBuilder.Held, Collect, Once;
    ghost var hub := builder.base.leafHubName;
    rest := clustersFromDB;
    for i := 0 to |listed|
      invariant builder.Valid() && Once(builder.calls)
      invariant rest == clustersFromDB - set c | c in listed[..i]
      invariant forall op | op in builder.calls ::
                  op in old(builder.calls) || (op.SetClusterStatus? && op.cluster in listed[..i])
      invariant Elements(builder.calls) == old(Elements(builder.calls)) +
                  set c | c in listed[..i] && c !in withStatus :: SetClusterStatus(hub, policy, c, status)
    {
      var cluster := listed[i];
      assert listed[..i + 1] == listed[..i] + [cluster];
      assert cluster !in listed[..i];
      if cluster !in withStatus {
        OneMore(builder.calls, SetClusterStatus(hub, policy, cluster, status));
        builder.UpdateClusterCompliance(policy, cluster, status);
      }
      rest := rest - {cluster};
    }
    assert listed[..|listed|] == listed;
  }

  method UpdateRest(builder: PoliciesBatchBuilder, policy: string, clusters: set<string>)
    requires builder.Valid() && Once(builder.calls)
    requires Unreported(builder.calls, builder.base.leafHubName, policy, clusters)
    modifies builder, builder.base
    ensures builder.Valid() && Once(builder.calls)
    ensures Elements(builder.calls) == old(Elements(builder.calls)) +
              set c | c in clusters :: SetClusterStatus(builder.base.leafHubName, policy, c, Compliant)
  {
    hide PoliciesBatchBuilder.Valid, PoliciesBatchBuilder.Held, Collect, Once;
    ghost var hub := builder.base.leafHubName;
    var rest := clusters;
    while rest != {}
      invariant builder.Valid() && Once(builder.calls) && rest <= clusters
      invariant Unreported(builder.calls, hub, policy, rest)
      invariant Elements(builder.calls) == old(Elements(builder.calls)) +
                  set c | c in clusters - rest :: SetClusterStatus(hub, policy, c, Compliant)
      decreases |rest|
    {
      var cluster :| cluster in rest;
      OneMore(builder.calls, SetClusterStatus(hub, policy, cluster, Compliant));
      builder.UpdateClusterCompliance(policy, cluster, Compliant);
      rest := rest - {cluster};
    }
  }

  method HandlePolicyComplianceStatus(builder: PoliciesBatchBuilder, o: PolicyCompliance,
                                      fromDB: NonCompliantClusterSets, ghost t: Table)
    requires builder.Valid() && Once(builder.calls) && WellTyped(t) && ValidContents(ComplianceStatus([o]))
    requires PolicySnapshot(t, builder.base.leafHubName, o.policyId, fromDB)
    requires forall op | op in builder.calls :: op.SetClusterStatus? && op.policy != o.policyId
    modifies builder, builder.base
    ensures builder.Valid() && Once(builder.calls)
    ensures Elements(builder.calls) == old(Elements(builder.calls)) + StatusDiff(t, builder.base.leafHubName, o)
  {
    hide PoliciesBatchBuilder.Valid, PoliciesBatchBuilder.Held, Collect, Once, StatusDiff;
    ghost var hub := builder.base.leafHubName;
    ghost var before := builder.calls;
    assert [o][0] == o;
    var clustersFromDB := fromDB.nonCompliant + fromDB.unknown;
    clustersFromDB := UpdateListed(builder, o.policyId, o.nonCompliant, NonCompliant, fromDB.nonCompliant, clustersFromDB);
    forall op | op in builder.calls ensures op in Elements(builder.calls) {}
    clustersFromDB := UpdateListed(builder, o.policyId, o.unknown, Unknown, fromDB.unknown, clustersFromDB);
    forall op | op in builder.calls ensures op in Elements(builder.calls) {}
    UpdateRest(builder, o.policyId, clustersFromDB);
    StatusDiffIs(t, hub, o, fromDB);
  }

  ghost predicate PolicySnapshot(t: Table, hub: string, policy: string, fromDB: NonCompliantClusterSets) {
    && (forall c :: c in fromDB.nonCompliant <==> StatusAt(t, ComplianceKey(hub, policy, c)) == Some(NonCompliant))
    && (forall c :: c in fromDB.unknown <==> StatusAt(t, ComplianceKey(hub, policy, c)) == Some(Unknown))
  }

  lemma NotCompliant(t: Table, hub: string, k: Key)
    requires WellTyped(t) && k in NonCompliantRows(t, hub)
    ensures StatusAt(t, k) == Some(NonCompliant) || StatusAt(t, k) == Some(Unknown)
  {
    match t[k].status
    case Compliant =>
    case NonCompliant =>
    case Unknown =>
  }

  lemma StatusDiffIs(t: Table, hub: string, o: PolicyCompliance, fromDB: NonCompliantClusterSets)
    requires WellTyped(t) && PolicySnapshot(t, hub, o.policyId, fromDB)
    ensures StatusDiff(t, hub, o) ==
              (set c | c in o.nonCompliant && c !in fromDB.nonCompliant :: SetClusterStatus(hub, o.policyId, c, NonCompliant)) +
              (set c | c in o.unknown && c !in fromDB.unknown :: SetClusterStatus(hub, o.policyId, c, Unknown)) +
              (set c | c in fromDB.nonCompliant + fromDB.unknown - (set c | c in o.nonCompliant) - (set c | c in o.unknown) ::
                 SetClusterStatus(hub, o.policyId, c, Compliant))
  {
    forall c | c in fromDB.nonCompliant + fromDB.unknown ensures ComplianceKey(hub, o.policyId, c) in NonCompliantRows(t, hub) {
    }
    forall k | k in NonCompliantRows(t, hub) && k.policy == o.policyId
      ensures k.cluster in fromDB.nonCompliant + fromDB.unknown
    {
      assert k == ComplianceKey(hub, o.policyId, k.cluster);
      NotCompliant(t, hub, k);
    }
  }

  lemma StatusesDiffOps(t: Table, hub: string, objs: seq<PolicyCompliance>)
    ensures forall op | op in StatusesDiff(t, hub, objs) :: op.SetClusterStatus? && op.policy in ReportedPolicies(objs)
  {
  }

  lemma MissingPolicies(
    t: Table, hub: string, objs: seq<PolicyCompliance>, rows: map<string, NonCompliantClusterSets>, gone: set<string>)
    requires WellTyped(t) && IsComplianceSnapshot(t, hub, rows)
    requires forall p :: p in gone <==> p in rows && p !in ReportedPolicies(objs)
    ensures (set p | p in gone :: SetPolicyStatus(hub, p, Compliant)) == MissingDiff(t, hub, objs)
  {
    forall p | p in gone ensures exists k :: k in NonCompliantRows(t, hub) && k.ComplianceKey? && k.policy == p {
      var c :| c in rows[p].nonCompliant + rows[p].unknown;
      assert ComplianceKey(hub, p, c) in NonCompliantRows(t, hub);
    }
    forall k | k in NonCompliantRows(t, hub) ensures k.policy in rows {
      assert k == ComplianceKey(hub, k.policy, k.cluster);
      NotCompliant(t, hub, k);
    }
  }

  method HandleReportedPolicies(
    builder: PoliciesBatchBuilder, objs: seq<PolicyCompliance>, snapshot: map<string, NonCompliantClusterSets>, ghost t: Table)
    returns (rows: map<string, NonCompliantClusterSets>)
    requires builder.Valid() && builder.calls == [] && WellTyped(t) && ValidContents(ComplianceStatus(objs))
    requires IsComplianceSnapshot(t, builder.base.leafHubName, snapshot)
    modifies builder, builder.base
    ensures builder.Valid() && Once(builder.calls)
    ensures Elements(builder.calls) == StatusesDiff(t, builder.base.leafHubName, objs)
    ensures Leftover(rows, snapshot, ReportedPolicies(objs))
  {
    hide PoliciesBatchBuilder.Valid, PoliciesBatchBuilder.Held, Collect, StatusDiff, ReportedPolicies, StatusesDiff, Once, WellTyped;
    ghost var hub := builder.base.leafHubName;
    NoStatuses(t, hub);
    rows := snapshot;
    for i := 0 to |objs|
      invariant builder.Valid() && Once(builder.calls)
      invariant Elements(builder.calls) == StatusesDiff(t, hub, objs[..i])
      invariant Leftover(rows, snapshot, ReportedPolicies(objs[..i]))
    {
      var o := objs[i];
      NextStatus(t, hub, objs, i);
      StatusesDiffOps(t, hub, objs[..i]);
      assert forall op | op in builder.calls :: op in Elements(builder.calls);
      var fromDB := if o.policyId in rows then rows[o.policyId] else NonCompliantClusterSets({}, {});
      HandlePolicyComplianceStatus(builder, o, fromDB, t);
      rows := rows - {o.policyId};
    }
    assert objs[..|objs|] == objs;
  }

  method UpdateMissing(builder: PoliciesBatchBuilder, policies: set<string>)
    requires builder.Valid() && Once(builder.calls)
    requires forall op | op in builder.calls :: !op.SetPolicyStatus?
    modifies builder, builder.base
    ensures builder.Valid() && Once(builder.calls)
    ensures Elements(builder.calls) == old(Elements(builder.calls)) +
              set p | p in policies :: SetPolicyStatus(builder.base.leafHubName, p, Compliant)
  {
    hide PoliciesBatchBuilder.Valid, PoliciesBatchBuilder.Held, Collect, Once;
    ghost var hub := builder.base.leafHubName;
    var rest := policies;
    while rest != {}
      invariant builder.Valid() && Once(builder.calls) && rest <= policies
      invariant forall op | op in builder.calls :: op.SetPolicyStatus? ==> op.policy in policies - rest
      invariant Elements(builder.calls) == old(Elements(builder.calls)) +
                  set p | p in policies - rest :: SetPolicyStatus(hub, p, Compliant)
      decreases |rest|
    {
      var p :| p in rest;
      OneMore(builder.calls, SetPolicyStatus(hub, p, Compliant));
      builder.UpdatePolicyCompliance(p, Compliant);
      rest := rest - {p};
    }
  }

  /** Every row of the hub gets the status the bundle reports, although compliant rows are never read. */
  method HandleComplianceBundle(t: Table, hub: string, objs: seq<PolicyCompliance>) returns (batch: seq<Statement>)
    requires WellTyped(t) && ValidContents(ComplianceStatus(objs))
    ensures Sound(batch)
    ensures Elements(BatchOps(batch).value) == ComplianceDiff(t, hub, objs) && Once(BatchOps(batch).value)
    ensures RunBatch(batch, t) == ComplianceTarget(t, hub, objs)
  {
    hide PoliciesBatchBuilder.Valid, PoliciesBatchBuilder.Held, Collect, Once, ComplianceDiff, ComplianceTarget, StatusDiff, ReportedPolicies, Sound, BatchOps,
      ApplyOps, Compatible, WellTyped;
    var nonCompliantRowsFromDB := GetNonCompliantClustersByLeafHub(t, hub);
    var batchBuilder := new PoliciesBatchBuilder(hub);
    var rows := HandleReportedPolicies(batchBuilder, objs, nonCompliantRowsFromDB, t);
    StatusesDiffOps(t, hub, objs);
    assert forall op | op in batchBuilder.calls :: op in Elements(batchBuilder.calls);
    UpdateMissing(batchBuilder, rows.Keys);
    MissingPolicies(t, hub, objs, nonCompliantRowsFromDB, rows.Keys);
    ComplianceByPolicy(t, hub, objs);
    ComplianceDiffCompatible(t, hub, objs);
    ghost var calls := batchBuilder.calls;
    ghost var order;
    batch, order := batchBuilder.Build();
    BatchingPreservesMeaning(batch, calls, t);
    ComplianceExact(t, hub, objs, calls);
  }

  // ---------------------------------------------------------------- minimal compliance

  /**
   No batch: each summary is written at once, then the policies the bundle does not list are deleted, and the first
   call that fails ends the handler with what was done so far.
   */
  method HandleMinimalComplianceBundle(t: Table, hub: string, objs: seq<MinimalCompliance>, failingCall: Option<nat>)
    returns (ok: bool, t': Table, ops: seq<Op>)
    requires ValidContents(MinimalComplianceStatus(objs))
    ensures t' == ApplyOps(ops, t) && Elements(ops) <= SummaryDiff(t, hub, objs)
    ensures ok ==> Elements(ops) == SummaryDiff(t, hub, objs) && t' == SummaryTarget(t, hub, objs)
    ensures !ok ==> failingCall == Some(|ops|)
    ensures failingCall.None? ==> ok
  {
    hide ApplyOp, SummaryTarget, Compatible, SummaryDiff;
    var policyIDsFromDB := GetPolicyIDsByLeafHub(t, hub);
    t', ops := t, [];
    for i := 0 to |objs|
      invariant t' == ApplyOps(ops, t)
      invariant Elements(ops) == Upserts(hub, objs[..i])
      invariant forall p :: p in policyIDsFromDB <==>
                  AggregateKey(hub, p) in t && forall o | o in objs[..i] :: o.policyId != p
    {
      var o := objs[i];
      assert objs[..i + 1] == objs[..i] + [o];
      UpsertsInDiff(t, hub, objs, i);
      if failingCall == Some(|ops|) {
        return false, t', ops;
      }
      var op := UpsertAggregate(hub, o.policyId, o.appliedClusters, o.nonCompliantClusters);
      ApplyOpsAppend(ops, op, t);
      OneMore(ops, op);
      t', ops := ApplyOp(op, t'), ops + [op];
      policyIDsFromDB := policyIDsFromDB - {o.policyId};
    }
    assert objs[..|objs|] == objs;
    ghost var gone := policyIDsFromDB;
    SummaryDiffIs(t, hub, objs, gone);
    while policyIDsFromDB != {}
      invariant policyIDsFromDB <= gone && t' == ApplyOps(ops, t)
      invariant Elements(ops) == Upserts(hub, objs) + set p | p in gone - policyIDsFromDB :: DropAggregate(hub, p)
      decreases |policyIDsFromDB|
    {
      var p :| p in policyIDsFromDB;
      if failingCall == Some(|ops|) {
        return false, t', ops;
      }
      var op := DropAggregate(hub, p);
      ApplyOpsAppend(ops, op, t);
      OneMore(ops, op);
      t', ops := ApplyOp(op, t'), ops + [op];
      policyIDsFromDB := policyIDsFromDB - {p};
    }
    SummaryExact(t, hub, objs, ops);
    ok := true;
  }

  function Upserts(hub: string, objs: seq<MinimalCompliance>): set<Op> {
    set o | o in objs :: UpsertAggregate(hub, o.policyId, o.appliedClusters, o.nonCompliantClusters)
  }

  lemma UpsertsInDiff(t: Table, hub: string, objs: seq<MinimalCompliance>, i: nat)
    requires i <= |objs|
    ensures Upserts(hub, objs[..i]) <= SummaryDiff(t, hub, objs)
  {
  }

  lemma SummaryDiffIs(t: Table, hub: string, objs: seq<MinimalCompliance>, gone: set<string>)
    requires forall p :: p in gone <==> AggregateKey(hub, p) in t && forall o | o in objs :: o.policyId != p
    ensures SummaryDiff(t, hub, objs) ==
              Upserts(hub, objs) + set p | p in gone :: DropAggregate(hub, p)
  {
    forall p { FindSummaryIs(objs, p); }
    forall k | k in AggregateRows(t, hub) ensures k == AggregateKey(hub, k.policy) {
    }
    forall p | p in gone ensures AggregateKey(hub, p) in AggregateRows(t, hub) && FindSummary(objs, p).None? {
    }
  }
}
