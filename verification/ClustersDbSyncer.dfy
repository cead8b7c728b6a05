/** The managed clusters handler: a diff by resourceVersion. */
module ClustersDbSyncer {
  import opened Bundles
  import opened Tables
  import opened Diffs
  import opened Statements
  import opened BatchBuilders
  import opened Snapshots
  import opened PoliciesDbSyncer

  /** The differences of one cluster of the bundle: none when the stored resourceVersion is the bundle's. */
  function OneClusterDiff(t: Table, hub: string, o: ManagedCluster): set<Op> {
    match VersionAt(t, ClusterKey(hub, o.name))
    case None => {InsertCluster(hub, o, ERROR_NONE)}
    case Some(version) => if version == o.resourceVersion then {} else {UpdateCluster(hub, o.name, o)}
  }

  function ClustersDiff(t: Table, hub: string, objs: seq<ManagedCluster>): set<Op> {
    set i, op | 0 <= i < |objs| && op in OneClusterDiff(t, hub, objs[i]) :: op
  }

  function ClusterNames(objs: seq<ManagedCluster>): set<string> {
    set i | 0 <= i < |objs| :: objs[i].name
  }

  lemma ClusterDiffByObject(t: Table, hub: string, objs: seq<ManagedCluster>)
    requires ValidContents(ManagedClusters(objs))
    ensures ClusterDiff(t, hub, objs) == ClustersDiff(t, hub, objs) +
              set k | k in ClusterRows(t, hub) && k.name !in ClusterNames(objs) :: DropCluster(hub, k.name)
  {
    forall n ensures n in ClusterNames(objs) <==> FindCluster(objs, n).Some? { FindClusterIs(objs, n); }
    forall op | op in ClusterDiff(t, hub, objs) && !op.DropCluster? ensures op in ClustersDiff(t, hub, objs) {
      var i :| 0 <= i < |objs| && objs[i] == op.payload;
      assert op in OneClusterDiff(t, hub, objs[i]);
    }
  }

  lemma NoClusters(t: Table, hub: string)
    ensures ClusterNames([]) == {} && ClustersDiff(t, hub, []) == {} && Once([])
  {
  }

  lemma NextCluster(t: Table, hub: string, objs: seq<ManagedCluster>, i: nat)
    requires ValidContents(ManagedClusters(objs)) && i < |objs|
    ensures objs[i].name !in ClusterNames(objs[..i])
    ensures ClusterNames(objs[..i + 1]) == ClusterNames(objs[..i]) + {objs[i].name}
    ensures ClustersDiff(t, hub, objs[..i + 1]) == ClustersDiff(t, hub, objs[..i]) + OneClusterDiff(t, hub, objs[i])
    ensures forall op | op in ClustersDiff(t, hub, objs[..i]) :: op !in OneClusterDiff(t, hub, objs[i])
    ensures forall op | op in ClustersDiff(t, hub, objs[..i]) :: !op.DropCluster?
  {
    var more := objs[..i + 1];
    assert forall j | 0 <= j < i :: more[j] == objs[..i][j];
    assert more[i] == objs[i];
    forall op | op in ClustersDiff(t, hub, objs[..i]) ensures op in ClustersDiff(t, hub, more) {
      var j :| 0 <= j < i && op in OneClusterDiff(t, hub, objs[..i][j]);
      assert op in OneClusterDiff(t, hub, more[j]);
    }
    forall n | n in ClusterNames(objs[..i]) ensures n in ClusterNames(more) {
      var j :| 0 <= j < i && objs[..i][j].name == n;
      assert more[j].name == n;
    }
  }

  method HandleListedClusters(
    builder: ManagedClustersBatchBuilder, objs: seq<ManagedCluster>, snapshot: map<string, string>, ghost t: Table)
    returns (rest: map<string, string>)
    requires builder.Valid() && builder.calls == [] && ValidContents(ManagedClusters(objs))
    requires IsVersionSnapshot(t, builder.base.leafHubName, snapshot)
    modifies builder, builder.base
    ensures builder.Valid() && Once(builder.calls)
    ensures Elements(builder.calls) == ClustersDiff(t, builder.base.leafHubName, objs)
    ensures Leftover(rest, snapshot, ClusterNames(objs))
  {
    hide ManagedClustersBatchBuilder.Valid, ClusterNames, ClustersDiff, Once;
    ghost var hub := builder.base.leafHubName;
    NoClusters(t, hub);
    rest := snapshot;
    for i := 0 to |objs|
      invariant builder.Valid() && Once(builder.calls)
      invariant Elements(builder.calls) == ClustersDiff(t, hub, objs[..i])
      invariant Leftover(rest, snapshot, ClusterNames(objs[..i]))
    {
      var cluster := objs[i];
      NextCluster(t, hub, objs, i);
      assert VersionAt(t, ClusterKey(hub, cluster.name)) ==
             if cluster.name in rest then Some(rest[cluster.name]) else None;
      assert forall op | op in builder.calls :: op in Elements(builder.calls);
      if cluster.name !in rest {
        OneMore(builder.calls, InsertCluster(hub, cluster, ERROR_NONE));
        builder.Insert(cluster, ERROR_NONE);
      } else {
        var resourceVersionFromDB := rest[cluster.name];
        rest := rest - {cluster.name};
        if cluster.resourceVersion != resourceVersionFromDB {
          OneMore(builder.calls, UpdateCluster(hub, cluster.name, cluster));
          builder.Update(cluster.name, cluster);
        }
      }
    }
    assert objs[..|objs|] == objs;
  }

  method DeleteClusters(builder: ManagedClustersBatchBuilder, names: set<string>)
    requires builder.Valid() && Once(builder.calls)
    requires forall op | op in builder.calls :: !op.DropCluster?
    modifies builder, builder.base
    ensures builder.Valid() && Once(builder.calls)
    ensures Elements(builder.calls) == old(Elements(builder.calls)) +
              set n | n in names :: DropCluster(builder.base.leafHubName, n)
  {
    hide ManagedClustersBatchBuilder.Valid, Once;
    ghost var hub := builder.base.leafHubName;
    var rest := names;
    while rest != {}
      invariant builder.Valid() && Once(builder.calls) && rest <= names
      invariant forall op | op in builder.calls :: op.DropCluster? ==> op.name in names - rest
      invariant Elements(builder.calls) == old(Elements(builder.calls)) + set n | n in names - rest :: DropCluster(hub, n)
      decreases |rest|
    {
      var n :| n in rest;
      OneMore(builder.calls, DropCluster(hub, n));
      builder.Delete(n);
      rest := rest - {n};
    }
  }

  lemma GoneClusters(t: Table, hub: string, objs: seq<ManagedCluster>, rows: map<string, string>, gone: set<string>)
    requires WellTyped(t) && IsVersionSnapshot(t, hub, rows)
    requires forall n :: n in gone <==> n in rows && n !in ClusterNames(objs)
    ensures (set n | n in gone :: DropCluster(hub, n)) ==
            set k | k in ClusterRows(t, hub) && k.name !in ClusterNames(objs) :: DropCluster(hub, k.name)
  {
    forall k | k in ClusterRows(t, hub) ensures k.name in rows {
      assert k == ClusterKey(hub, k.name) && t[k].ClusterRow?;
    }
    forall n | n in gone ensures ClusterKey(hub, n) in ClusterRows(t, hub) {
      assert VersionAt(t, ClusterKey(hub, n)).Some?;
    }
  }

  /**
   Inserts the new names, deletes the missing ones and updates exactly those whose resourceVersion differs, each
   once; the hub's clusters become the bundle's if and only if equal versions mean equal payloads.
   */
  method HandleManagedClustersBundle(t: Table, hub: string, objs: seq<ManagedCluster>) returns (batch: seq<Statement>)
    requires WellTyped(t) && ValidContents(ManagedClusters(objs))
    ensures Sound(batch)
    ensures Elements(BatchOps(batch).value) == ClusterDiff(t, hub, objs) && Once(BatchOps(batch).value)
    ensures RunBatch(batch, t) == ClusterTarget(t, hub, objs) <==> VersionsAgree(t, hub, objs)
  {
    hide ManagedClustersBatchBuilder.Valid, Once, ClusterDiff, ClusterTarget, OneClusterDiff, ClusterNames, Sound,
      BatchOps, ApplyOps, Compatible, WellTyped;
    var clustersFromDB := GetManagedClustersByLeafHub(t, hub);
    var batchBuilder := new ManagedClustersBatchBuilder(hub);
    var rest := HandleListedClusters(batchBuilder, objs, clustersFromDB, t);
    ListedOps(t, hub, objs);
    assert forall op | op in batchBuilder.calls :: op in Elements(batchBuilder.calls);
    DeleteClusters(batchBuilder, rest.Keys);
    GoneClusters(t, hub, objs, clustersFromDB, rest.Keys);
    ClusterDiffByObject(t, hub, objs);
    ClusterDiffCompatible(t, hub, objs);
    ghost var calls := batchBuilder.calls;
    batch := batchBuilder.Build();
    BatchingPreservesMeaning(batch, calls, t);
    ClusterExactIff(t, hub, objs, calls);
  }

  lemma ListedOps(t: Table, hub: string, objs: seq<ManagedCluster>)
    ensures forall op | op in ClustersDiff(t, hub, objs) :: !op.DropCluster?
  {
  }
}
