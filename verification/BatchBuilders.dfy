/**
 The batch builders: calls are collected as flat argument lists and row counts, printed as a statement when a list
 grows past the limit, and what is left is printed by Build.
 */
module BatchBuilders {
  import opened Bundles
  import opened Tables
  import opened Placeholders
  import opened Statements

  /** The flat arguments and the row count of calls that were collected but not printed yet. */
  ghost predicate Holds(command: Command, prefix: seq<Value>, args: seq<Value>, rowsCount: nat, ops: seq<Op>) {
    && Fits(command, prefix, ops)
    && args == prefix + ArgsFor(ops)
    && rowsCount == |ops|
    && |args| <= MAX_ARGS_IN_STATEMENT
  }

  /**
   The statements of one command, followed by the calls not printed yet, hold every call of the log exactly once and
   in call order; so do their listed arguments.
   */
  ghost predicate Conserved(batch: seq<Statement>, command: Command, ops: seq<Op>, log: seq<Op>) {
    && KindOps(batch, command) + ops == log
    && ArgsOf(batch, command) + ArgsFor(ops) == ArgsFor(log)
  }

  /** A database can read every statement; none is empty, oversized or misnumbered. */
  ghost predicate Sound(batch: seq<Statement>) {
    BatchOps(batch).Some? && forall s | s in batch :: WellShaped(s)
  }

  /** A builder's statements, and the calls of one kind that it holds back. */
  datatype Batching = Batching(batch: seq<Statement>, held: seq<Op>)

  /** One more call: held back, or printed with all that are held once the arguments are too many. */
  function Collect(command: Command, prefix: seq<Value>, before: Batching, op: Op): Batching {
    var held := before.held + [op];
    if MAX_ARGS_IN_STATEMENT < |prefix + ArgsFor(held)|
    then Batching(before.batch + [MakeStatement(command, prefix, held)], [])
    else Batching(before.batch, held)
  }

  /** What Build prints of the calls of one kind. */
  function Rest(command: Command, prefix: seq<Value>, held: seq<Op>): seq<Statement> {
    if held == [] then [] else [MakeStatement(command, prefix, held)]
  }

  /**
   A statement is printed in mid-stream exactly when one more row passes the limit, and then has exactly the first size
   above it; what Build prints stays within the limit.
   */
  lemma FlushesExactly(command: Command, prefix: seq<Value>, args: seq<Value>, rowsCount: nat, before: Batching, op: Op)
    requires Holds(command, prefix, args, rowsCount, before.held)
    requires CommandOf(op) == Some(command) && PrefixOf(op) == prefix
    ensures var after := Collect(command, prefix, before, op);
      if MAX_ARGS_IN_STATEMENT < PrefixCount(command) + (rowsCount + 1) * Width(command)
      then
        && |after.batch| == |before.batch| + 1 && after.held == []
        && after.batch[|before.batch|].command == command
        && |after.batch[|before.batch|].args| == FlushSize(command) > MAX_ARGS_IN_STATEMENT
      else after == Batching(before.batch, before.held + [op])
    ensures WithinLimit(Rest(command, prefix, before.held))
  {
    hide FlushSize, PlaceholderText, CommandOf, PrefixOf, Width, ArgsFor;
    var held := before.held + [op];
    SizeOf(command, prefix, before.held);
    SizeOf(command, prefix, held);
    if MAX_ARGS_IN_STATEMENT < PrefixCount(command) + (rowsCount + 1) * Width(command) {
      FirstAbove(command, rowsCount);
    }
  }

  class BaseBatchBuilder {
    const insertCommand: Command
    const updateCommand: Command
    const deleteCommand: Command
    const leafHubName: string
    var batch: seq<Statement>
    var insertArgs: seq<Value>
    var insertRowsCount: nat
    var updateArgs: seq<Value>
    var updateRowsCount: nat
    var deleteArgs: seq<Value>
    var deleteRowsCount: nat

    /** The calls behind the collected arguments, and everything ever handed to the builder. */
    ghost var insertOps: seq<Op>
    ghost var updateOps: seq<Op>
    ghost var deleteOps: seq<Op>
    ghost var insertLog: seq<Op>
    ghost var updateLog: seq<Op>
    ghost var deleteLog: seq<Op>

    ghost predicate Commands() {
      && PrefixCount(insertCommand) == 0 == PrefixCount(updateCommand)
      && PrefixCount(deleteCommand) == 1
      && insertCommand != updateCommand
    }

    ghost predicate Collected()
      reads this
    {
      && Holds(insertCommand, [], insertArgs, insertRowsCount, insertOps)
      && Holds(updateCommand, [], updateArgs, updateRowsCount, updateOps)
      && Holds(deleteCommand, [Text(leafHubName)], deleteArgs, deleteRowsCount, deleteOps)
    }

    ghost predicate Valid()
      reads this
    {
      && Commands() && Collected() && Sound(batch)
      && Conserved(batch, insertCommand, insertOps, insertLog)
      && Conserved(batch, updateCommand, updateOps, updateLog)
      && Conserved(batch, deleteCommand, deleteOps, deleteLog)
    }

    /** The statements of commands that are not this builder's own are left alone. */
    ghost predicate KeepsOthers(before: seq<Statement>, after: seq<Statement>) {
      forall c, others, log | c !in {insertCommand, updateCommand, deleteCommand} && Conserved(before, c, others, log) ::
        Conserved(after, c, others, log)
    }

    constructor (insertCommand: Command, updateCommand: Command, deleteCommand: Command, leafHubName: string)
      requires PrefixCount(insertCommand) == 0 == PrefixCount(updateCommand)
      requires PrefixCount(deleteCommand) == 1 && insertCommand != updateCommand
      ensures Valid() && batch == [] && insertOps == updateOps == deleteOps == []
      ensures this.leafHubName == leafHubName && insertLog == updateLog == deleteLog == []
      ensures this.insertCommand == insertCommand && this.updateCommand == updateCommand
      ensures this.deleteCommand == deleteCommand
    {
      this.insertCommand, this.updateCommand, this.deleteCommand := insertCommand, updateCommand, deleteCommand;
      this.leafHubName := leafHubName;
      batch, insertArgs, updateArgs, deleteArgs := [], [], [], [Text(leafHubName)];
      insertRowsCount, updateRowsCount, deleteRowsCount := 0, 0, 0;
      insertOps, updateOps, deleteOps, insertLog, updateLog, deleteLog := [], [], [], [], [], [];
    }

    method Insert(row: seq<Value>, ghost op: Op)
      requires Valid() && CommandOf(op) == Some(insertCommand) && row == ValuesOf(op)
      modifies this
      ensures Valid()
      ensures Batching(batch, insertOps) == Collect(insertCommand, [], Batching(old(batch), old(insertOps)), op)
      ensures updateOps == old(updateOps) && deleteOps == old(deleteOps)
      ensures insertLog == old(insertLog) + [op] && updateLog == old(updateLog) && deleteLog == old(deleteLog)
      ensures KeepsOthers(old(batch), batch)
    {
      hide Conserved, Sound, Fits, Holds, CommandOf, PrefixOf, ValuesOf, ArgsFor, MakeStatement, Sized, PrefixCount;
      NoPrefix(op);
      CollectOne(insertCommand, [], insertArgs, insertRowsCount, insertOps, op);
      LogOne(batch, insertCommand, insertOps, insertLog, op);
      insertArgs := insertArgs + row;
      insertRowsCount := insertRowsCount + 1;
      insertOps, insertLog := insertOps + [op], insertLog + [op];
      if MAX_ARGS_IN_STATEMENT < |insertArgs| {
        FlushInserts();
        insertArgs, insertRowsCount, insertOps := [], 0, [];
        NoCalls(insertCommand, []);
      }
    }

    method FlushInserts()
      requires insertRowsCount == |insertOps| > 0 && insertArgs == [] + ArgsFor(insertOps)
      requires Commands() && Sound(batch) && Fits(insertCommand, [], insertOps)
      requires Sized(insertCommand, |insertArgs|)
      modifies this`batch
      ensures Printed(old(batch), batch, insertCommand, insertOps)
      ensures batch == old(batch) + [MakeStatement(insertCommand, [], insertOps)]
    {
      var placeholders := GenerateRowsArgs(insertCommand, insertArgs, insertRowsCount, insertOps);
      Queue(insertCommand, placeholders, insertArgs, [], insertOps);
    }

    method Update(row: seq<Value>, ghost op: Op)
      requires Valid() && CommandOf(op) == Some(updateCommand) && row == ValuesOf(op)
      modifies this
      ensures Valid()
      ensures Batching(batch, updateOps) == Collect(updateCommand, [], Batching(old(batch), old(updateOps)), op)
      ensures insertOps == old(insertOps) && deleteOps == old(deleteOps)
      ensures updateLog == old(updateLog) + [op] && insertLog == old(insertLog) && deleteLog == old(deleteLog)
      ensures KeepsOthers(old(batch), batch)
    {
      hide Conserved, Sound, Fits, Holds, CommandOf, PrefixOf, ValuesOf, ArgsFor, MakeStatement, Sized, PrefixCount;
      NoPrefix(op);
      CollectOne(updateCommand, [], updateArgs, updateRowsCount, updateOps, op);
      LogOne(batch, updateCommand, updateOps, updateLog, op);
      updateArgs := updateArgs + row;
      updateRowsCount := updateRowsCount + 1;
      updateOps, updateLog := updateOps + [op], updateLog + [op];
      if MAX_ARGS_IN_STATEMENT < |updateArgs| {
        FlushUpdates();
        updateArgs, updateRowsCount, updateOps := [], 0, [];
        NoCalls(updateCommand, []);
      }
    }

    method FlushUpdates()
      requires updateRowsCount == |updateOps| > 0 && updateArgs == [] + ArgsFor(updateOps)
      requires Commands() && Sound(batch) && Fits(updateCommand, [], updateOps)
      requires Sized(updateCommand, |updateArgs|)
      modifies this`batch
      ensures Printed(old(batch), batch, updateCommand, updateOps)
      ensures batch == old(batch) + [MakeStatement(updateCommand, [], updateOps)]
    {
      var placeholders := GenerateRowsArgs(updateCommand, updateArgs, updateRowsCount, updateOps);
      Queue(updateCommand, placeholders, updateArgs, [], updateOps);
    }

    method Delete(row: seq<Value>, ghost op: Op)
      requires Valid() && CommandOf(op) == Some(deleteCommand) && row == ValuesOf(op)
      requires PrefixOf(op) == [Text(leafHubName)]
      modifies this
      ensures Valid()
      ensures Batching(batch, deleteOps) ==
                Collect(deleteCommand, [Text(leafHubName)], Batching(old(batch), old(deleteOps)), op)
      ensures insertOps == old(insertOps) && updateOps == old(updateOps)
      ensures deleteLog == old(deleteLog) + [op] && insertLog == old(insertLog) && updateLog == old(updateLog)
      ensures KeepsOthers(old(batch), batch)
    {
      hide Conserved, Sound, Fits, Holds, CommandOf, PrefixOf, ValuesOf, ArgsFor, MakeStatement, Sized, PrefixCount;
      CollectOne(deleteCommand, [Text(leafHubName)], deleteArgs, deleteRowsCount, deleteOps, op);
      LogOne(batch, deleteCommand, deleteOps, deleteLog, op);
      deleteArgs := deleteArgs + row;
      deleteRowsCount := deleteRowsCount + 1;
      deleteOps, deleteLog := deleteOps + [op], deleteLog + [op];
      if MAX_ARGS_IN_STATEMENT < |deleteArgs| {
        FlushDeletes();
        deleteArgs, deleteRowsCount, deleteOps := [Text(leafHubName)], 0, [];
        NoCalls(deleteCommand, [Text(leafHubName)]);
      }
    }

    method FlushDeletes()
      requires deleteRowsCount == |deleteOps| > 0 && deleteArgs == [Text(leafHubName)] + ArgsFor(deleteOps)
      requires Commands() && Sound(batch) && Fits(deleteCommand, [Text(leafHubName)], deleteOps)
      requires Sized(deleteCommand, |deleteArgs|)
      modifies this`batch
      ensures Printed(old(batch), batch, deleteCommand, deleteOps)
      ensures batch == old(batch) + [MakeStatement(deleteCommand, [Text(leafHubName)], deleteOps)]
    {
      var placeholders := GenerateArgsList(deleteRowsCount, 2, map[]);
      Queue(deleteCommand, placeholders, deleteArgs, [Text(leafHubName)], deleteOps);
    }

    /** Appends a printed statement to the batch. */
    method Queue(command: Command, placeholders: string, args: seq<Value>, ghost prefix: seq<Value>, ghost ops: seq<Op>)
      requires Sound(batch) && Fits(command, prefix, ops) && ops != []
      requires Sized(command, |args|)
      requires Statement(command, placeholders, args) == MakeStatement(command, prefix, ops)
      modifies this`batch
      ensures Printed(old(batch), batch, command, ops)
      ensures batch == old(batch) + [MakeStatement(command, prefix, ops)]
    {
      PrintOne(batch, command, prefix, ops);
      batch := batch + [Statement(command, placeholders, args)];
    }

    /** The generators of VALUES statements: the column count is recovered from the arguments. */
    static method GenerateRowsArgs(command: Command, args: seq<Value>, rowsCount: nat, ghost ops: seq<Op>)
      returns (placeholders: string)
      requires Fits(command, [], ops) && args == ArgsFor(ops) && rowsCount == |ops| > 0
      ensures placeholders == PlaceholderText(command, rowsCount)
    {
      ArgAt(command, ops, 0, 0);
      ColumnCount(|args|, rowsCount, Width(command));
      placeholders := GenerateInsertOrUpdateArgs(rowsCount, |args| / rowsCount, ColumnCasts(command));
    }

    /** Prints what is left; the builder is spent after it. */
    method Build()
      requires Valid()
      modifies this`batch
      ensures Sound(batch)
      ensures Conserved(batch, insertCommand, [], insertLog)
      ensures Conserved(batch, updateCommand, [], updateLog)
      ensures Conserved(batch, deleteCommand, [], deleteLog)
      ensures KeepsOthers(old(batch), batch)
      // inserts first, deletes last, and nothing above the limit
      ensures batch == old(batch) + Remainder()
      ensures WithinLimit(Remainder())
    {
      hide Conserved, Sound, Rest, Printed, Holds, WithinLimit, PrefixCount;
      ghost var b0 := batch;
      FinishInserts();
      ghost var b1 := batch;
      FinishUpdates();
      ghost var b2 := batch;
      FinishDeletes();
      WithinAll(Rest(insertCommand, [], insertOps), Rest(updateCommand, [], updateOps),
                Rest(deleteCommand, [Text(leafHubName)], deleteOps));
      CommandsDiffer();
      PrintedInTurn(b0, b1, b2, batch, insertCommand, updateCommand, deleteCommand, insertOps, updateOps, deleteOps);
    }

    lemma CommandsDiffer()
      requires Commands()
      ensures insertCommand != updateCommand && insertCommand != deleteCommand && updateCommand != deleteCommand
    {
    }

    method FinishInserts()
      requires Commands() && Holds(insertCommand, [], insertArgs, insertRowsCount, insertOps) && Sound(batch)
      modifies this`batch
      ensures Printed(old(batch), batch, insertCommand, insertOps)
      ensures batch == old(batch) + Rest(insertCommand, [], insertOps)
      ensures WithinLimit(Rest(insertCommand, [], insertOps)) && Sound(batch)
    {
      hide Conserved, Sound, Fits, Rest, MakeStatement, Holds, ArgsFor, FlushSize, Sized, WithinLimit, PrefixCount;
      WithinHolds(insertCommand, [], insertArgs, insertRowsCount, insertOps);
      PrintedNothing(batch, insertCommand, []);
      if insertRowsCount > 0 {
        FlushInserts();
      }
    }

    method FinishUpdates()
      requires Commands() && Holds(updateCommand, [], updateArgs, updateRowsCount, updateOps) && Sound(batch)
      modifies this`batch
      ensures Printed(old(batch), batch, updateCommand, updateOps)
      ensures batch == old(batch) + Rest(updateCommand, [], updateOps)
      ensures WithinLimit(Rest(updateCommand, [], updateOps)) && Sound(batch)
    {
      hide Conserved, Sound, Fits, Rest, MakeStatement, Holds, ArgsFor, FlushSize, Sized, WithinLimit, PrefixCount;
      WithinHolds(updateCommand, [], updateArgs, updateRowsCount, updateOps);
      PrintedNothing(batch, updateCommand, []);
      if updateRowsCount > 0 {
        FlushUpdates();
      }
    }

    method FinishDeletes()
      requires Commands() && Holds(deleteCommand, [Text(leafHubName)], deleteArgs, deleteRowsCount, deleteOps) && Sound(batch)
      modifies this`batch
      ensures Printed(old(batch), batch, deleteCommand, deleteOps)
      ensures batch == old(batch) + Rest(deleteCommand, [Text(leafHubName)], deleteOps)
      ensures WithinLimit(Rest(deleteCommand, [Text(leafHubName)], deleteOps)) && Sound(batch)
    {
      hide Conserved, Sound, Fits, Rest, MakeStatement, Holds, ArgsFor, FlushSize, Sized, WithinLimit, PrefixCount;
      WithinHolds(deleteCommand, [Text(leafHubName)], deleteArgs, deleteRowsCount, deleteOps);
      PrintedNothing(batch, deleteCommand, [Text(leafHubName)]);
      if deleteRowsCount > 0 {
        FlushDeletes();
      }
    }

    /** What Build is still to print. */
    ghost function Remainder(): seq<Statement>
      reads this
    {
      Rest(insertCommand, [], insertOps) + Rest(updateCommand, [], updateOps) +
      Rest(deleteCommand, [Text(leafHubName)], deleteOps)
    }
  }

  ghost predicate WithinLimit(batch: seq<Statement>) {
    forall s | s in batch :: |s.args| <= MAX_ARGS_IN_STATEMENT
  }

  lemma WithinAll(a: seq<Statement>, b: seq<Statement>, c: seq<Statement>)
    requires WithinLimit(a) && WithinLimit(b) && WithinLimit(c)
    ensures WithinLimit(a + b + c)
  {
  }

  /** What is known of calls that are held back. */
  lemma WithinHolds(command: Command, prefix: seq<Value>, args: seq<Value>, rowsCount: nat, ops: seq<Op>)
    requires Holds(command, prefix, args, rowsCount, ops)
    ensures Fits(command, prefix, ops) && rowsCount == |ops| && args == prefix + ArgsFor(ops)
    ensures Sized(command, |args|) && WithinLimit(Rest(command, prefix, ops))
    ensures Rest(command, prefix, ops) == if rowsCount > 0 then [MakeStatement(command, prefix, ops)] else []
  {
    hide PlaceholderText, ArgsFor, FlushSize, CommandOf, PrefixOf;
  }

  lemma PrintedNothing(batch: seq<Statement>, command: Command, prefix: seq<Value>)
    ensures Printed(batch, batch, command, []) && batch + Rest(command, prefix, []) == batch
  {
  }

  lemma PrintedInTurn(
    b0: seq<Statement>, b1: seq<Statement>, b2: seq<Statement>, b3: seq<Statement>,
    c1: Command, c2: Command, c3: Command, ops1: seq<Op>, ops2: seq<Op>, ops3: seq<Op>)
    requires Printed(b0, b1, c1, ops1) && Printed(b1, b2, c2, ops2) && Printed(b2, b3, c3, ops3)
    requires c1 != c2 && c1 != c3 && c2 != c3
    ensures Sound(b0) ==> Sound(b3)
    ensures forall log | Conserved(b0, c1, ops1, log) :: Conserved(b3, c1, [], log)
    ensures forall log | Conserved(b0, c2, ops2, log) :: Conserved(b3, c2, [], log)
    ensures forall log | Conserved(b0, c3, ops3, log) :: Conserved(b3, c3, [], log)
    ensures forall c, others, log | c !in {c1, c2, c3} && Conserved(b0, c, others, log) :: Conserved(b3, c, others, log)
  {
    hide Conserved, Sound;
  }

  /** Printing the pending calls `ops` of a command loses nothing, and does not disturb the other commands. */
  ghost predicate Printed(before: seq<Statement>, after: seq<Statement>, command: Command, ops: seq<Op>) {
    && (Sound(before) ==> Sound(after))
    && (forall log | Conserved(before, command, ops, log) :: Conserved(after, command, [], log))
    && (forall c, others, log | c != command && Conserved(before, c, others, log) :: Conserved(after, c, others, log))
  }

  lemma PrintOne(batch: seq<Statement>, command: Command, prefix: seq<Value>, ops: seq<Op>)
    requires Fits(command, prefix, ops) && ops != []
    requires Sized(command, |prefix + ArgsFor(ops)|)
    ensures Printed(batch, batch + [MakeStatement(command, prefix, ops)], command, ops)
  {
    hide KindOps, ArgsOf, ArgsFor, BatchOps, MakeStatement, Fits, WellShaped;
    var after := batch + [MakeStatement(command, prefix, ops)];
    QueueOne(batch, command, prefix, ops);
    NoArgs();
    forall log | Conserved(batch, command, ops, log) ensures Conserved(after, command, [], log) {
    }
    forall c, others, log | c != command && Conserved(batch, c, others, log) ensures Conserved(after, c, others, log) {
      assert KindOps(after, c) == KindOps(batch, c) && ArgsOf(after, c) == ArgsOf(batch, c);
    }
  }

  lemma NoPrefix(op: Op)
    requires CommandOf(op).Some? && PrefixCount(CommandOf(op).value) == 0
    ensures PrefixOf(op) == []
  {
  }

  lemma NoArgs()
    ensures ArgsFor([]) == []
  {
  }

  /** Collecting one more call keeps the flat arguments those of the calls, and adds one row's width. */
  lemma CollectOne(command: Command, prefix: seq<Value>, args: seq<Value>, rowsCount: nat, ops: seq<Op>, op: Op)
    requires Holds(command, prefix, args, rowsCount, ops) && CommandOf(op) == Some(command) && PrefixOf(op) == prefix
    ensures Fits(command, prefix, ops + [op])
    ensures args + ValuesOf(op) == prefix + ArgsFor(ops + [op])
    ensures Sized(command, |args + ValuesOf(op)|)
    ensures rowsCount + 1 == |ops + [op]|
    ensures |args + ValuesOf(op)| <= MAX_ARGS_IN_STATEMENT ==>
              Holds(command, prefix, args + ValuesOf(op), rowsCount + 1, ops + [op])
  {
    hide FlushSize, ValuesOf, CommandOf, PrefixOf, Width, PrefixCount;
    assert (ops + [op])[..|ops|] == ops;
    Regrouped(prefix, ArgsFor(ops), ValuesOf(op));
    SizeOf(command, prefix, ops);
    SizeOf(command, prefix, ops + [op]);
    if MAX_ARGS_IN_STATEMENT < |args + ValuesOf(op)| { FirstAbove(command, |ops|); }
  }

  lemma SizeOf(command: Command, prefix: seq<Value>, ops: seq<Op>)
    requires Fits(command, prefix, ops)
    ensures |prefix + ArgsFor(ops)| == PrefixCount(command) + |ops| * Width(command)
  {
    ArgAt(command, ops, 0, 0);
  }

  lemma NoCalls(command: Command, prefix: seq<Value>)
    requires |prefix| == PrefixCount(command)
    ensures Holds(command, prefix, prefix, 0, [])
  {
  }

  lemma NothingYet(command: Command)
    ensures Conserved([], command, [], [])
  {
  }

  lemma Regrouped<T>(a: seq<T>, b: seq<T>, c: seq<T>)
    ensures a + (b + c) == a + b + c
  {
  }

  lemma LogOne(batch: seq<Statement>, command: Command, ops: seq<Op>, log: seq<Op>, op: Op)
    requires Conserved(batch, command, ops, log)
    ensures Conserved(batch, command, ops + [op], log + [op])
  {
    hide KindOps, ArgsOf, ValuesOf;
    assert (ops + [op])[..|ops|] == ops;
    assert (log + [op])[..|log|] == log;
    Regrouped(KindOps(batch, command), ops, [op]);
    Regrouped(ArgsOf(batch, command), ArgsFor(ops), ValuesOf(op));
  }

  /** A sound batch with nothing pending performs the logs of its eight kinds of statements. */
  lemma BatchHolds(batch: seq<Statement>, inserts: seq<Op>, policies: seq<Op>, clusters: seq<Op>, drops: seq<Op>,
                   rowDrops: seq<Op>, newClusters: seq<Op>, payloads: seq<Op>, clusterDrops: seq<Op>)
    requires Sound(batch)
    requires Conserved(batch, InsertCompliance, [], inserts) && Conserved(batch, UpdatePolicies, [], policies)
    requires Conserved(batch, UpdateClusters, [], clusters) && Conserved(batch, DeletePolicies, [], drops)
    requires Conserved(batch, DeleteClusterStatuses, [], rowDrops)
    requires Conserved(batch, InsertManagedClusters, [], newClusters)
    requires Conserved(batch, UpdatePayloads, [], payloads) && Conserved(batch, DeleteManagedClusters, [], clusterDrops)
    ensures BatchOps(batch).Some?
    ensures multiset(BatchOps(batch).value) ==
              multiset(inserts) + multiset(policies) + multiset(clusters) + multiset(drops) + multiset(rowDrops) +
              multiset(newClusters) + multiset(payloads) + multiset(clusterDrops)
  {
    hide KindOps, ArgsOf, ArgsFor, BatchOps;
    KindsCover(batch);
    KindLog(batch, InsertCompliance, inserts);
    KindLog(batch, UpdatePolicies, policies);
    KindLog(batch, UpdateClusters, clusters);
    KindLog(batch, DeletePolicies, drops);
    KindLog(batch, DeleteClusterStatuses, rowDrops);
    KindLog(batch, InsertManagedClusters, newClusters);
    KindLog(batch, UpdatePayloads, payloads);
    KindLog(batch, DeleteManagedClusters, clusterDrops);
  }

  lemma KindLog(batch: seq<Statement>, command: Command, log: seq<Op>)
    requires Conserved(batch, command, [], log)
    ensures KindOps(batch, command) == log && ArgsOf(batch, command) == ArgsFor(log)
  {
    assert KindOps(batch, command) + [] == KindOps(batch, command);
    assert ArgsOf(batch, command) + [] == ArgsOf(batch, command);
  }

  // ---------------------------------------------------------------- managed clusters

  class ManagedClustersBatchBuilder {
    const base: BaseBatchBuilder
    /** All calls, in call order. */
    ghost var calls: seq<Op>

    ghost predicate Valid()
      reads this, base
    {
      && base.Valid()
      && base.insertCommand == InsertManagedClusters
      && base.updateCommand == UpdatePayloads
      && base.deleteCommand == DeleteManagedClusters
      && multiset(calls) == multiset(base.insertLog) + multiset(base.updateLog) + multiset(base.deleteLog)
      && (forall c | c in {InsertCompliance, UpdatePolicies, UpdateClusters, DeletePolicies, DeleteClusterStatuses} ::
            Conserved(base.batch, c, [], []))
    }

    constructor (leafHubName: string)
      ensures Valid() && fresh(base) && calls == [] && base.leafHubName == leafHubName
      ensures base.batch == [] && base.insertOps == base.updateOps == base.deleteOps == []
    {
      base := new BaseBatchBuilder(InsertManagedClusters, UpdatePayloads, DeleteManagedClusters, leafHubName);
      calls := [];
      new;
      forall c { NothingYet(c); }
    }

    method Insert(payload: ManagedCluster, error: string)
      requires Valid()
      modifies this, base
      ensures Valid() && calls == old(calls) + [InsertCluster(base.leafHubName, payload, error)]
      ensures Batching(base.batch, base.insertOps) ==
                Collect(InsertManagedClusters, [], Batching(old(base.batch), old(base.insertOps)),
                        InsertCluster(base.leafHubName, payload, error))
      ensures base.updateOps == old(base.updateOps) && base.deleteOps == old(base.deleteOps)
    {
      hide Conserved, Collect, BaseBatchBuilder.Valid;
      ghost var op := InsertCluster(base.leafHubName, payload, error);
      base.Insert([Text(base.leafHubName), Payload(payload), Text(error)], op);
      calls := calls + [op];
    }

    method Update(clusterName: string, payload: ManagedCluster)
      requires Valid()
      modifies this, base
      ensures Valid() && calls == old(calls) + [UpdateCluster(base.leafHubName, clusterName, payload)]
      ensures Batching(base.batch, base.updateOps) ==
                Collect(UpdatePayloads, [], Batching(old(base.batch), old(base.updateOps)),
                        UpdateCluster(base.leafHubName, clusterName, payload))
      ensures base.insertOps == old(base.insertOps) && base.deleteOps == old(base.deleteOps)
    {
      hide Conserved, Collect, BaseBatchBuilder.Valid;
      ghost var op := UpdateCluster(base.leafHubName, clusterName, payload);
      base.Update([Text(base.leafHubName), Payload(payload), Text(clusterName)], op);
      calls := calls + [op];
    }

    method Delete(clusterName: string)
      requires Valid()
      modifies this, base
      ensures Valid() && calls == old(calls) + [DropCluster(base.leafHubName, clusterName)]
      ensures Batching(base.batch, base.deleteOps) ==
                Collect(DeleteManagedClusters, [Text(base.leafHubName)], Batching(old(base.batch), old(base.deleteOps)),
                        DropCluster(base.leafHubName, clusterName))
      ensures base.insertOps == old(base.insertOps) && base.updateOps == old(base.updateOps)
    {
      hide Conserved, Collect, BaseBatchBuilder.Valid;
      ghost var op := DropCluster(base.leafHubName, clusterName);
      base.Delete([Text(clusterName)], op);
      calls := calls + [op];
    }

    /** The batch performs every call exactly once. */
    method Build() returns (batch: seq<Statement>)
      requires Valid()
      modifies base`batch
      ensures Sound(batch)
      ensures multiset(BatchOps(batch).value) == multiset(calls)
      ensures batch == old(base.batch) + base.Remainder() && WithinLimit(base.Remainder())
    {
      hide Conserved, Sound, BatchOps, WithinLimit, BaseBatchBuilder.Valid, BaseBatchBuilder.Remainder;
      base.Build();
      batch := base.batch;
      BatchHolds(batch, [], [], [], [], [], base.insertLog, base.updateLog, base.deleteLog);
      assert multiset(calls) == multiset(base.insertLog) + multiset(base.updateLog) + multiset(base.deleteLog);
    }
  }
}
