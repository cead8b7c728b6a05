/**
 The policies batch builder: the base builder's inserts, policy updates and policy deletes, plus updates of single
 rows, flushed like the others, and deletes of single rows, grouped by policy and never flushed.
 */
module PoliciesBatch {
  import opened Bundles
  import opened Tables
  import opened Placeholders
  import opened Statements
  import opened BatchBuilders

  /** The row deletes whose policy is in a set, in call order. */
  function DropsIn(drops: seq<Op>, policies: set<string>): seq<Op> {
    if drops == [] then []
    else
      var last := drops[|drops| - 1];
      DropsIn(drops[..|drops| - 1], policies) +
      (if last.DropClusterStatus? && last.policy in policies then [last] else [])
  }

  ghost predicate RowDrops(hub: string, drops: seq<Op>) {
    forall i | 0 <= i < |drops| :: drops[i].DropClusterStatus? && drops[i].hub == hub
  }

  /** Each policy's list starts with the hub and the policy, followed by the clusters dropped from it, in call order. */
  ghost predicate Grouped(hub: string, groups: map<string, seq<Value>>, drops: seq<Op>) {
    && RowDrops(hub, drops)
    && (forall p | p in groups ::
          DropsIn(drops, {p}) != [] && groups[p] == [Text(hub), Text(p)] + ArgsFor(DropsIn(drops, {p})))
    && (forall p | p !in groups :: DropsIn(drops, {p}) == [])
  }

  lemma {:induction false} DropsInNone(drops: seq<Op>)
    ensures DropsIn(drops, {}) == []
  {
    if drops != [] { DropsInNone(drops[..|drops| - 1]); }
  }

  lemma {:induction false} DropsInFit(hub: string, drops: seq<Op>, p: string)
    requires RowDrops(hub, drops)
    ensures Fits(DeleteClusterStatuses, [Text(hub), Text(p)], DropsIn(drops, {p}))
  {
    if drops != [] { DropsInFit(hub, drops[..|drops| - 1], p); }
  }

  /** Deleting group by group deletes every row once: the groups partition the calls. */
  lemma {:induction false} DropsInSplit(drops: seq<Op>, policies: set<string>, p: string)
    requires p in policies
    ensures multiset(DropsIn(drops, policies)) ==
              multiset(DropsIn(drops, {p})) + multiset(DropsIn(drops, policies - {p}))
  {
    if drops != [] {
      DropsInSplit(drops[..|drops| - 1], policies, p);
    }
  }

  lemma {:induction false} DropsInAll(hub: string, drops: seq<Op>, policies: set<string>)
    requires RowDrops(hub, drops)
    requires forall i | 0 <= i < |drops| :: drops[i].policy in policies
    ensures DropsIn(drops, policies) == drops
  {
    if drops != [] { DropsInAll(hub, drops[..|drops| - 1], policies); }
  }

  lemma {:induction false} DropIsGrouped(drops: seq<Op>, i: nat)
    requires i < |drops| && drops[i].DropClusterStatus?
    ensures DropsIn(drops, {drops[i].policy}) != []
  {
    if i < |drops| - 1 { DropIsGrouped(drops[..|drops| - 1], i); }
  }

  lemma GroupOne(hub: string, groups: map<string, seq<Value>>, drops: seq<Op>, op: Op)
    requires Grouped(hub, groups, drops) && op.DropClusterStatus? && op.hub == hub
    ensures Grouped(hub,
                    groups[op.policy := (if op.policy in groups then groups[op.policy] else [Text(hub), Text(op.policy)])
                                        + [Text(op.cluster)]],
                    drops + [op])
  {
    hide ArgsFor, DropsIn;
    var more := drops + [op];
    forall p { DropsInOneMore(drops, op, p); }
    var group := DropsIn(drops, {op.policy});
    ArgsForOneMore(group, op);
    if op.policy !in groups {
      NoArgs();
      assert [Text(hub), Text(op.policy)] + ArgsFor(group) == [Text(hub), Text(op.policy)];
    }
    Regrouped([Text(hub), Text(op.policy)], ArgsFor(group), [Text(op.cluster)]);
  }

  lemma DropsInOneMore(drops: seq<Op>, op: Op, p: string)
    requires op.DropClusterStatus?
    ensures DropsIn(drops + [op], {p}) == if p == op.policy then DropsIn(drops, {p}) + [op] else DropsIn(drops, {p})
  {
    assert (drops + [op])[..|drops|] == drops;
  }

  lemma ArgsForOneMore(ops: seq<Op>, op: Op)
    ensures ArgsFor(ops + [op]) == ArgsFor(ops) + ValuesOf(op)
  {
    assert (ops + [op])[..|ops|] == ops;
  }

  /** Five kinds of calls make up all the calls of a policies builder. */
  ghost predicate Sum(calls: seq<Op>, a: seq<Op>, b: seq<Op>, c: seq<Op>, d: seq<Op>, e: seq<Op>) {
    multiset(calls) == multiset(a) + multiset(b) + multiset(c) + multiset(d) + multiset(e)
  }

  /** The calls a policies builder holds back, by kind. */
  datatype HeldCalls = HeldCalls(
    inserts: seq<Op>, policyUpdates: seq<Op>, policyDrops: seq<Op>, clusterUpdates: seq<Op>, rowDrops: seq<Op>)

  /** One DELETE per policy, in some order. */
  function RowDropStatements(hub: string, drops: seq<Op>, order: seq<string>): seq<Statement> {
    seq(|order|, i requires 0 <= i < |order| => RowDropStatement(hub, drops, order[i]))
  }

  function RowDropStatement(hub: string, drops: seq<Op>, p: string): Statement {
    MakeStatement(DeleteClusterStatuses, [Text(hub), Text(p)], DropsIn(drops, {p}))
  }

  /** Each policy with row deletes once. */
  ghost predicate EachPolicyOnce(order: seq<string>, drops: seq<Op>) {
    && (forall p :: p in order <==> DropsIn(drops, {p}) != [])
    && (forall i, j | 0 <= i < j < |order| :: order[i] != order[j])
  }

  /** A per-policy delete passes the limit if and only if more than 49998 clusters are dropped from the policy. */
  lemma RowDropsExceed(hub: string, drops: seq<Op>, p: string)
    requires RowDrops(hub, drops)
    ensures |RowDropStatement(hub, drops, p).args| > MAX_ARGS_IN_STATEMENT <==> |DropsIn(drops, {p})| > 49998
  {
    DropsInFit(hub, drops, p);
    ArgsOfGroup(hub, p, DropsIn(drops, {p}));
  }

  class PoliciesBatchBuilder {
    const base: BaseBatchBuilder
    var updateClusterComplianceArgs: seq<Value>
    var updateClusterComplianceRowsCount: nat
    var deleteClusterComplianceArgs: map<string, seq<Value>>

    ghost var clusterOps: seq<Op>
    ghost var clusterLog: seq<Op>
    ghost var drops: seq<Op>
    /** All calls, in call order. */
    ghost var calls: seq<Op>

    ghost predicate Valid()
      reads this, base
    {
      && base.Valid()
      && base.insertCommand == InsertCompliance
      && base.updateCommand == UpdatePolicies
      && base.deleteCommand == DeletePolicies
      && Holds(UpdateClusters, [], updateClusterComplianceArgs, updateClusterComplianceRowsCount, clusterOps)
      && Conserved(base.batch, UpdateClusters, clusterOps, clusterLog)
      && Grouped(base.leafHubName, deleteClusterComplianceArgs, drops)
      && Sum(calls, base.insertLog, base.updateLog, clusterLog, base.deleteLog, drops)
      && Unused(base.batch)
    }

    ghost function Held(): HeldCalls
      reads this, base
    {
      HeldCalls(base.insertOps, base.updateOps, base.deleteOps, clusterOps, drops)
    }

    lemma HeldInserts()
      requires Valid()
      ensures Holds(InsertCompliance, [], base.insertArgs, base.insertRowsCount, Held().inserts)
      ensures base.insertRowsCount == |Held().inserts|
    {
    }

    constructor (leafHubName: string)
      ensures Valid() && fresh(base) && calls == [] && base.leafHubName == leafHubName
      ensures base.batch == [] && Held() == HeldCalls([], [], [], [], [])
    {
      base := new BaseBatchBuilder(InsertCompliance, UpdatePolicies, DeletePolicies, leafHubName);
      updateClusterComplianceArgs, updateClusterComplianceRowsCount := [], 0;
      deleteClusterComplianceArgs := map[];
      clusterOps, clusterLog, drops, calls := [], [], [], [];
      new;
      forall c { NothingYet(c); }
    }

    method Insert(policy: string, cluster: string, error: string, status: Status)
      requires Valid()
      modifies this`calls, base
      ensures Valid() && calls == old(calls) + [InsertStatus(base.leafHubName, policy, cluster, error, status)]
      ensures var after := Collect(InsertCompliance, [], Batching(old(base.batch), old(Held().inserts)),
                                   InsertStatus(base.leafHubName, policy, cluster, error, status));
              base.batch == after.batch && Held() == old(Held()).(inserts := after.held)
    {
      hide Conserved, Holds, Grouped, Sum, Collect, BaseBatchBuilder.Valid;
      ghost var op := InsertStatus(base.leafHubName, policy, cluster, error, status);
      SumOne(op);
      base.Insert([Text(policy), Text(cluster), Text(base.leafHubName), Text(error), Text(StatusText(status))], op);
      calls := calls + [op];
    }

    method UpdatePolicyCompliance(policy: string, status: Status)
      requires Valid()
      modifies this`calls, base
      ensures Valid() && calls == old(calls) + [SetPolicyStatus(base.leafHubName, policy, status)]
      ensures var after := Collect(UpdatePolicies, [], Batching(old(base.batch), old(Held().policyUpdates)),
                                   SetPolicyStatus(base.leafHubName, policy, status));
              base.batch == after.batch && Held() == old(Held()).(policyUpdates := after.held)
    {
      hide Conserved, Holds, Grouped, Sum, Collect, BaseBatchBuilder.Valid;
      ghost var op := SetPolicyStatus(base.leafHubName, policy, status);
      SumOne(op);
      base.Update([Text(policy), Text(base.leafHubName), Text(StatusText(status))], op);
      calls := calls + [op];
    }

    method DeletePolicy(policy: string)
      requires Valid()
      modifies this`calls, base
      ensures Valid() && calls == old(calls) + [DropPolicy(base.leafHubName, policy)]
      ensures var after := Collect(DeletePolicies, [Text(base.leafHubName)], Batching(old(base.batch), old(Held().policyDrops)),
                                   DropPolicy(base.leafHubName, policy));
              base.batch == after.batch && Held() == old(Held()).(policyDrops := after.held)
    {
      hide Conserved, Holds, Grouped, Sum, Collect, BaseBatchBuilder.Valid;
      ghost var op := DropPolicy(base.leafHubName, policy);
      SumOne(op);
      base.Delete([Text(policy)], op);
      calls := calls + [op];
    }

    method UpdateClusterCompliance(policy: string, cluster: string, status: Status)
      requires Valid()
      modifies this, base`batch
      ensures Valid() && calls == old(calls) + [SetClusterStatus(base.leafHubName, policy, cluster, status)]
      ensures var after := Collect(UpdateClusters, [], Batching(old(base.batch), old(Held().clusterUpdates)),
                                   SetClusterStatus(base.leafHubName, policy, cluster, status));
              base.batch == after.batch && Held() == old(Held()).(clusterUpdates := after.held)
    {
      hide Conserved, Holds, Grouped, Sum, Sound, Collect, BaseBatchBuilder.Valid;
      ghost var op := SetClusterStatus(base.leafHubName, policy, cluster, status);
      SumOne(op);
      calls := calls + [op];
      CollectClusterUpdate([Text(policy), Text(cluster), Text(base.leafHubName), Text(StatusText(status))], op);
    }

    method CollectClusterUpdate(row: seq<Value>, ghost op: Op)
      requires base.Valid() && UpdateClusters !in {base.insertCommand, base.updateCommand, base.deleteCommand}
      requires Holds(UpdateClusters, [], updateClusterComplianceArgs, updateClusterComplianceRowsCount, clusterOps)
      requires Conserved(base.batch, UpdateClusters, clusterOps, clusterLog)
      requires CommandOf(op) == Some(UpdateClusters) && row == ValuesOf(op)
      modifies this`updateClusterComplianceArgs, this`updateClusterComplianceRowsCount, this`clusterOps, this`clusterLog
      modifies base`batch
      ensures base.Valid()
      ensures Holds(UpdateClusters, [], updateClusterComplianceArgs, updateClusterComplianceRowsCount, clusterOps)
      ensures Conserved(base.batch, UpdateClusters, clusterOps, clusterLog) && clusterLog == old(clusterLog) + [op]
      ensures Batching(base.batch, clusterOps) == Collect(UpdateClusters, [], Batching(old(base.batch), old(clusterOps)), op)
      ensures forall c, others, log | c != UpdateClusters && Conserved(old(base.batch), c, others, log) ::
                Conserved(base.batch, c, others, log)
    {
      hide Conserved, Fits, Holds, Sound, MakeStatement, Sized, ArgsFor;
      CollectOne(UpdateClusters, [], updateClusterComplianceArgs, updateClusterComplianceRowsCount, clusterOps, op);
      LogOne(base.batch, UpdateClusters, clusterOps, clusterLog, op);
      updateClusterComplianceArgs := updateClusterComplianceArgs + row;
      updateClusterComplianceRowsCount := updateClusterComplianceRowsCount + 1;
      clusterOps, clusterLog := clusterOps + [op], clusterLog + [op];
      if MAX_ARGS_IN_STATEMENT < |updateClusterComplianceArgs| {
        FlushClusterUpdates();
        updateClusterComplianceArgs, updateClusterComplianceRowsCount, clusterOps := [], 0, [];
        NoCalls(UpdateClusters, []);
      }
    }

    method FlushClusterUpdates()
      requires updateClusterComplianceRowsCount == |clusterOps| > 0
      requires updateClusterComplianceArgs == [] + ArgsFor(clusterOps)
      requires Sound(base.batch) && Fits(UpdateClusters, [], clusterOps)
      requires Sized(UpdateClusters, |updateClusterComplianceArgs|)
      modifies base`batch
      ensures Printed(old(base.batch), base.batch, UpdateClusters, clusterOps)
      ensures base.batch == old(base.batch) + [MakeStatement(UpdateClusters, [], clusterOps)]
    {
      var placeholders := BaseBatchBuilder.GenerateRowsArgs(
        UpdateClusters, updateClusterComplianceArgs, updateClusterComplianceRowsCount, clusterOps);
      base.Queue(UpdateClusters, placeholders, updateClusterComplianceArgs, [], clusterOps);
    }

    method DeleteClusterStatus(policy: string, cluster: string)
      requires Valid()
      modifies this`calls, this`drops, this`deleteClusterComplianceArgs
      ensures Valid() && calls == old(calls) + [DropClusterStatus(base.leafHubName, policy, cluster)]
      ensures base.batch == old(base.batch)
      ensures Held() == old(Held()).(rowDrops := old(Held().rowDrops) +
                                                 [DropClusterStatus(base.leafHubName, policy, cluster)])
    {
      hide Conserved, Holds, Grouped, Sum, Collect, BaseBatchBuilder.Valid;
      ghost var op := DropClusterStatus(base.leafHubName, policy, cluster);
      SumOne(op);
      GroupOne(base.leafHubName, deleteClusterComplianceArgs, drops, op);
      var group := [Text(base.leafHubName), Text(policy)];
      if policy in deleteClusterComplianceArgs {
        group := deleteClusterComplianceArgs[policy];
      }
      deleteClusterComplianceArgs := deleteClusterComplianceArgs[policy := group + [Text(cluster)]];
      drops, calls := drops + [op], calls + [op];
    }

    lemma SumOne(op: Op)
      requires Sum(calls, base.insertLog, base.updateLog, clusterLog, base.deleteLog, drops)
      ensures Sum(calls + [op], base.insertLog + [op], base.updateLog, clusterLog, base.deleteLog, drops)
      ensures Sum(calls + [op], base.insertLog, base.updateLog + [op], clusterLog, base.deleteLog, drops)
      ensures Sum(calls + [op], base.insertLog, base.updateLog, clusterLog + [op], base.deleteLog, drops)
      ensures Sum(calls + [op], base.insertLog, base.updateLog, clusterLog, base.deleteLog + [op], drops)
      ensures Sum(calls + [op], base.insertLog, base.updateLog, clusterLog, base.deleteLog, drops + [op])
    {
    }

    /**
     The batch performs every call exactly once: what was flushed, then policy inserts, updates and deletes, then
     updates and deletes of single rows.
     */
    method Build() returns (batch: seq<Statement>, ghost order: seq<string>)
      requires Valid()
      modifies base`batch
      ensures Sound(batch)
      ensures multiset(BatchOps(batch).value) == multiset(calls)
      ensures EachPolicyOnce(order, drops)
      ensures WithinLimit(Remainder())
      ensures batch == old(base.batch) + Remainder() + RowDropStatements(base.leafHubName, drops, order)
    {
      hide Conserved, Fits, Holds, Sound, Grouped, BatchOps, RowDropStatements, EachPolicyOnce, MakeStatement, WithinLimit,
        BaseBatchBuilder.Valid, Rest;
      base.Build();
      ghost var built := base.batch;
      FinishClusterUpdates();
      WithinTwo(base.Remainder(), Rest(UpdateClusters, [], clusterOps));
      ghost var done;
      order, done := BuildRowDrops();
      batch := base.batch;
      BatchHolds(batch, base.insertLog, base.updateLog, clusterLog, base.deleteLog, done, [], [], []);
    }

    /** What Build is still to print, up to the deletes of single rows. */
    ghost function Remainder(): seq<Statement>
      reads this, base
    {
      base.Remainder() + Rest(UpdateClusters, [], clusterOps)
    }

    method FinishClusterUpdates()
      requires Holds(UpdateClusters, [], updateClusterComplianceArgs, updateClusterComplianceRowsCount, clusterOps)
      requires Sound(base.batch)
      modifies base`batch
      ensures Printed(old(base.batch), base.batch, UpdateClusters, clusterOps)
      ensures base.batch == old(base.batch) + Rest(UpdateClusters, [], clusterOps)
      ensures WithinLimit(Rest(UpdateClusters, [], clusterOps))
    {
      hide Conserved, Sound, Fits, Rest, Printed, MakeStatement, Holds, ArgsFor, FlushSize, Sized, WithinLimit;
      WithinHolds(UpdateClusters, [], updateClusterComplianceArgs, updateClusterComplianceRowsCount, clusterOps);
      PrintedNothing(base.batch, UpdateClusters, []);
      if updateClusterComplianceRowsCount > 0 {
        FlushClusterUpdates();
      }
    }

    /** One DELETE per policy, in whatever order the map is walked. */
    method BuildRowDrops() returns (ghost order: seq<string>, ghost done: seq<Op>)
      requires Sound(base.batch) && Conserved(base.batch, DeleteClusterStatuses, [], [])
      requires Grouped(base.leafHubName, deleteClusterComplianceArgs, drops)
      modifies base`batch
      ensures Sound(base.batch) && Conserved(base.batch, DeleteClusterStatuses, [], done)
      ensures multiset(done) == multiset(drops)
      ensures forall c, others, log | c != DeleteClusterStatuses && Conserved(old(base.batch), c, others, log) ::
                Conserved(base.batch, c, others, log)
      ensures EachPolicyOnce(order, drops)
      ensures base.batch == old(base.batch) + RowDropStatements(base.leafHubName, drops, order)
    {
      hide Conserved, Sound, Grouped, DropsIn, MakeStatement, RowDropStatement, EachPolicyOnce, RowDropStatements;
      var policies := deleteClusterComplianceArgs.Keys;
      order, done := [], [];
      GroupsCover(base.leafHubName, deleteClusterComplianceArgs, drops);
      NoRowDrops(base.batch, base.leafHubName, drops);
      while policies != {}
        invariant policies <= deleteClusterComplianceArgs.Keys
        invariant Sound(base.batch) && Conserved(base.batch, DeleteClusterStatuses, [], done)
        invariant multiset(done) + multiset(DropsIn(drops, policies)) == multiset(drops)
        invariant forall c, others, log | c != DeleteClusterStatuses && Conserved(old(base.batch), c, others, log) ::
                    Conserved(base.batch, c, others, log)
        invariant Walked(order, deleteClusterComplianceArgs.Keys - policies)
        invariant base.batch == old(base.batch) + RowDropStatements(base.leafHubName, drops, order)
        decreases |policies|
      {
        var policy :| policy in policies;
        DropsInSplit(drops, policies, policy);
        QueueRowDrops(policy, done);
        OneMoreRowDrop(old(base.batch), base.leafHubName, drops, order, policy);
        policies, done := policies - {policy}, done + DropsIn(drops, {policy});
        order := order + [policy];
      }
      DropsInNone(drops);
      WalkedAll(base.leafHubName, order, deleteClusterComplianceArgs, drops);
    }

    method QueueRowDrops(policy: string, ghost done: seq<Op>)
      requires Sound(base.batch) && Conserved(base.batch, DeleteClusterStatuses, [], done)
      requires Grouped(base.leafHubName, deleteClusterComplianceArgs, drops) && policy in deleteClusterComplianceArgs
      modifies base`batch
      ensures Sound(base.batch) && Conserved(base.batch, DeleteClusterStatuses, [], done + DropsIn(drops, {policy}))
      ensures forall c, others, log | c != DeleteClusterStatuses && Conserved(old(base.batch), c, others, log) ::
                Conserved(base.batch, c, others, log)
      ensures base.batch == old(base.batch) + [RowDropStatement(base.leafHubName, drops, policy)]
    {
      hide Conserved, Sound, ArgsFor, DropsIn, Fits;
      ghost var group := DropsIn(drops, {policy});
      DropsInFit(base.leafHubName, drops, policy);
      LogAll(base.batch, DeleteClusterStatuses, done, group);
      var args := deleteClusterComplianceArgs[policy];
      ArgsOfGroup(base.leafHubName, policy, group);
      var placeholders := GenerateArgsList(|args| - 2, 3, map[]);
      base.Queue(DeleteClusterStatuses, placeholders, args, [Text(base.leafHubName), Text(policy)], group);
    }
  }

  ghost predicate Walked(order: seq<string>, policies: set<string>) {
    && (forall p :: p in order <==> p in policies)
    && (forall i, j | 0 <= i < j < |order| :: order[i] != order[j])
  }

  lemma NoRowDrops(batch: seq<Statement>, hub: string, drops: seq<Op>)
    ensures batch + RowDropStatements(hub, drops, []) == batch
  {
  }

  lemma OneMoreRowDrop(batch: seq<Statement>, hub: string, drops: seq<Op>, order: seq<string>, p: string)
    ensures batch + RowDropStatements(hub, drops, order + [p]) ==
            batch + RowDropStatements(hub, drops, order) + [RowDropStatement(hub, drops, p)]
  {
    hide RowDropStatement;
    assert RowDropStatements(hub, drops, order + [p]) ==
           RowDropStatements(hub, drops, order) + [RowDropStatement(hub, drops, p)];
  }

  lemma WalkedAll(hub: string, order: seq<string>, groups: map<string, seq<Value>>, drops: seq<Op>)
    requires Grouped(hub, groups, drops) && Walked(order, groups.Keys)
    ensures EachPolicyOnce(order, drops)
  {
  }

  lemma WithinTwo(a: seq<Statement>, b: seq<Statement>)
    requires WithinLimit(a) && WithinLimit(b)
    ensures WithinLimit(a + b)
  {
  }

  /** Whatever the number of clusters, one statement deletes them all: from 49999 on it passes the limit. */
  method OversizedDelete(hub: string, policy: string, clusters: seq<string>) returns (batch: seq<Statement>)
    requires clusters != []
    ensures |batch| == 1 && batch[0].command == DeleteClusterStatuses && |batch[0].args| == 2 + |clusters|
    ensures |clusters| == 49999 ==> |batch[0].args| == MAX_ARGS_IN_STATEMENT + 1
  {
    hide PoliciesBatchBuilder.Valid, MakeStatement, Rest, Sound, BatchOps, DropsIn, EachPolicyOnce, RowDropStatements,
      RowDropStatement, WithinLimit, Collect;
    var builder := new PoliciesBatchBuilder(hub);
    for i := 0 to |clusters|
      invariant fresh(builder) && fresh(builder.base) && builder.Valid() && builder.base.leafHubName == hub
      invariant builder.base.batch == [] && builder.Held() == HeldCalls([], [], [], [], builder.drops)
      invariant |builder.drops| == i
      invariant forall j | 0 <= j < i :: builder.drops[j] == DropClusterStatus(hub, policy, clusters[j])
    {
      builder.DeleteClusterStatus(policy, clusters[i]);
    }
    ghost var order;
    batch, order := builder.Build();
    NothingRemains();
    OneGroup(hub, policy, builder.drops, order);
  }

  /** With 10000 inserts held back, one more prints a statement of 50005 arguments. */
  method OversizedInsert(hub: string, policy: string, clusters: seq<string>) returns (batch: seq<Statement>)
    requires |clusters| == 10001
    ensures |batch| == 1 && batch[0].command == InsertCompliance && |batch[0].args| == MAX_ARGS_IN_STATEMENT + 5
  {
    hide PoliciesBatchBuilder.Valid, MakeStatement, Sound, BatchOps, DropsIn, EachPolicyOnce, RowDropStatements,
      RowDropStatement, Collect, FlushSize;
    FlushSizes();
    var builder := new PoliciesBatchBuilder(hub);
    for i := 0 to |clusters|
      invariant fresh(builder) && fresh(builder.base) && builder.Valid() && builder.base.leafHubName == hub
      invariant i <= 10000 ==> builder.base.batch == [] && |builder.Held().inserts| == i
      invariant i == 10001 ==>
                  |builder.base.batch| == 1 && builder.Held().inserts == [] && |builder.base.batch[0].args| == 50005
      invariant i == 10001 ==> builder.base.batch[0].command == InsertCompliance
    {
      ghost var before := Batching(builder.base.batch, builder.Held().inserts);
      builder.HeldInserts();
      FlushesExactly(InsertCompliance, [], builder.base.insertArgs, builder.base.insertRowsCount, before,
                     InsertStatus(hub, policy, clusters[i], "", Unknown));
      builder.Insert(policy, clusters[i], "", Unknown);
    }
    batch := builder.base.batch;
  }

  lemma NothingRemains()
    ensures forall command, prefix :: Rest(command, prefix, []) == []
  {
  }

  /** Drops of one policy make one statement. */
  lemma OneGroup(hub: string, policy: string, drops: seq<Op>, order: seq<string>)
    requires RowDrops(hub, drops) && drops != [] && forall i | 0 <= i < |drops| :: drops[i].policy == policy
    requires EachPolicyOnce(order, drops)
    ensures RowDropStatements(hub, drops, order) == [RowDropStatement(hub, drops, policy)]
    ensures RowDropStatement(hub, drops, policy).command == DeleteClusterStatuses
    ensures |RowDropStatement(hub, drops, policy).args| == 2 + |drops|
  {
    DropsInAll(hub, drops, {policy});
    DropsInFit(hub, drops, policy);
    ArgsOfGroup(hub, policy, drops);
    forall p | p != policy ensures p !in order {
      DropsOfOthers(drops, policy, p);
    }
    FirstTwo(order);
    assert policy in order;
  }

  lemma FirstTwo<T>(s: seq<T>)
    ensures s != [] ==> s[0] in s
    ensures |s| > 1 ==> s[1] in s
  {
  }

  lemma {:induction false} DropsOfOthers(drops: seq<Op>, policy: string, p: string)
    requires forall i | 0 <= i < |drops| :: drops[i].DropClusterStatus? && drops[i].policy == policy
    requires p != policy
    ensures DropsIn(drops, {p}) == []
  {
    if drops != [] { DropsOfOthers(drops[..|drops| - 1], policy, p); }
  }

  ghost predicate Unused(batch: seq<Statement>) {
    && Conserved(batch, DeleteClusterStatuses, [], []) && Conserved(batch, InsertManagedClusters, [], [])
    && Conserved(batch, UpdatePayloads, [], []) && Conserved(batch, DeleteManagedClusters, [], [])
  }

  lemma ArgsOfGroup(hub: string, p: string, group: seq<Op>)
    requires Fits(DeleteClusterStatuses, [Text(hub), Text(p)], group)
    ensures |ArgsFor(group)| == |group|
  {
    ArgAt(DeleteClusterStatuses, group, 0, 0);
  }

  lemma {:induction false} LogAll(batch: seq<Statement>, command: Command, log: seq<Op>, ops: seq<Op>)
    requires Conserved(batch, command, [], log)
    ensures Conserved(batch, command, ops, log + ops)
    decreases |ops|
  {
    hide Conserved;
    if ops == [] {
      assert log + ops == log;
    } else {
      var front, last := ops[..|ops| - 1], ops[|ops| - 1];
      LogAll(batch, command, log, front);
      LogOne(batch, command, front, log + front, last);
      assert front + [last] == ops && log + front + [last] == log + ops;
    }
  }

  lemma GroupsCover(hub: string, groups: map<string, seq<Value>>, drops: seq<Op>)
    requires Grouped(hub, groups, drops)
    ensures DropsIn(drops, groups.Keys) == drops
  {
    forall i | 0 <= i < |drops| ensures drops[i].policy in groups.Keys {
      DropIsGrouped(drops, i);
    }
    DropsInAll(hub, drops, groups.Keys);
  }
}
