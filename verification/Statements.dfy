/**
 Batch statements and what they mean. A statement is its command (the fixed SQL text around the placeholders), the
 printed placeholders and the arguments; its meaning is found by reading the placeholders and looking the arguments up.
 */
module Statements {
  import opened Bundles
  import opened Tables
  import opened Placeholders

  datatype Value = Text(text: string) | Payload(cluster: ManagedCluster)

  datatype Command =
    | InsertCompliance
    | UpdatePolicies
    | UpdateClusters
    | DeletePolicies
    | DeleteClusterStatuses
    | InsertManagedClusters
    | UpdatePayloads
    | DeleteManagedClusters

  datatype Statement = Statement(command: Command, placeholders: string, args: seq<Value>)

  const MAX_ARGS_IN_STATEMENT := 50000
  const UUID := "uuid"
  const JSONB := "jsonb"
  const COMPLIANCE_TYPE := "status.compliance_type"

  /** The casts the columns of a statement's row need to have the types of the table. */
  function ColumnCasts(command: Command): (casts: Casts)
    ensures PlainCasts(casts)
  {
    match command
    case InsertCompliance => map[1 := UUID]
    case UpdatePolicies => map[1 := UUID, 3 := COMPLIANCE_TYPE]
    case UpdateClusters => map[1 := UUID, 4 := COMPLIANCE_TYPE]
    case InsertManagedClusters => map[2 := JSONB]
    case UpdatePayloads => map[2 := JSONB]
    case _ => map[]
  }

  function Width(command: Command): nat {
    match command
    case InsertCompliance => 5
    case UpdateClusters => 4
    case UpdatePolicies => 3
    case InsertManagedClusters => 3
    case UpdatePayloads => 3
    case _ => 1
  }

  /** How many arguments stand before the listed ones: the hub, and the policy of a per-policy delete. */
  function PrefixCount(command: Command): nat {
    match command
    case DeletePolicies => 1
    case DeleteManagedClusters => 1
    case DeleteClusterStatuses => 2
    case _ => 0
  }

  /** What a value in a statement stands for, by the column it is stored in or compared with. */
  datatype Column = PolicyId | ClusterName | LeafHub | ErrorText | ComplianceStatusOf | ClusterResource

  /** The columns of a statement's row, in the order of the table or of the column list in the SQL text. */
  function Columns(command: Command): seq<Column> {
    match command
    case InsertCompliance => [PolicyId, ClusterName, LeafHub, ErrorText, ComplianceStatusOf]
    case UpdatePolicies => [PolicyId, LeafHub, ComplianceStatusOf]
    case UpdateClusters => [PolicyId, ClusterName, LeafHub, ComplianceStatusOf]
    case DeletePolicies => [PolicyId]
    case DeleteClusterStatuses => [ClusterName]
    case InsertManagedClusters => [LeafHub, ClusterResource, ErrorText]
    case UpdatePayloads => [LeafHub, ClusterResource, ClusterName]
    case DeleteManagedClusters => [ClusterName]
  }

  /** The columns compared with the arguments before the listed ones. */
  function PrefixColumns(command: Command): seq<Column> {
    match command
    case DeletePolicies => [LeafHub]
    case DeleteManagedClusters => [LeafHub]
    case DeleteClusterStatuses => [LeafHub, PolicyId]
    case _ => []
  }

  /** An UPDATE joins the table with a list of values, whose columns have no type but the one they are cast to. */
  predicate IsUpdate(command: Command) {
    command.UpdatePolicies? || command.UpdateClusters? || command.UpdatePayloads?
  }

  predicate IsDelete(command: Command) {
    command.DeletePolicies? || command.DeleteClusterStatuses? || command.DeleteManagedClusters?
  }

  /** The SQL type a value must be cast to, by what it is: identifiers and resources in rows, statuses in updates. */
  function SqlType(command: Command, column: Column): Option<string> {
    if IsDelete(command) then None
    else match column
      case PolicyId => Some("uuid")
      case ClusterResource => Some("jsonb")
      case ComplianceStatusOf => if IsUpdate(command) then Some("status.compliance_type") else None
      case _ => None
  }

  /** The field of a call that belongs in a column. */
  function FieldOf(op: Op, column: Column): Option<Value> {
    match column
    case LeafHub => Some(Text(op.hub))
    case PolicyId => if op.InsertCluster? || op.UpdateCluster? || op.DropCluster? then None else Some(Text(op.policy))
    case ClusterName =>
      if op.InsertStatus? || op.SetClusterStatus? || op.DropClusterStatus? then Some(Text(op.cluster))
      else if op.UpdateCluster? || op.DropCluster? then Some(Text(op.name))
      else None
    case ErrorText => if op.InsertStatus? || op.InsertCluster? then Some(Text(op.error)) else None
    case ComplianceStatusOf =>
      if op.InsertStatus? || op.SetPolicyStatus? || op.SetClusterStatus? then Some(Text(StatusText(op.status))) else None
    case ClusterResource => if op.InsertCluster? || op.UpdateCluster? then Some(Payload(op.payload)) else None
  }

  function StatusText(s: Status): string {
    match s
    case Compliant => "compliant"
    case NonCompliant => "non_compliant"
    case Unknown => "unknown"
  }

  function ParseStatus(s: string): Option<Status> {
    if s == "compliant" then Some(Compliant)
    else if s == "non_compliant" then Some(NonCompliant)
    else if s == "unknown" then Some(Unknown)
    else None
  }

  // ---------------------------------------------------------------- the row of a builder call

  function CommandOf(op: Op): Option<Command> {
    match op
    case InsertStatus(_, _, _, _, _) => Some(InsertCompliance)
    case SetPolicyStatus(_, _, _) => Some(UpdatePolicies)
    case SetClusterStatus(_, _, _, _) => Some(UpdateClusters)
    case DropPolicy(_, _) => Some(DeletePolicies)
    case DropClusterStatus(_, _, _) => Some(DeleteClusterStatuses)
    case InsertCluster(_, _, _) => Some(InsertManagedClusters)
    case UpdateCluster(_, _, _) => Some(UpdatePayloads)
    case DropCluster(_, _) => Some(DeleteManagedClusters)
    case _ => None
  }

  function PrefixOf(op: Op): seq<Value> {
    match op
    case DropPolicy(h, _) => [Text(h)]
    case DropCluster(h, _) => [Text(h)]
    case DropClusterStatus(h, p, _) => [Text(h), Text(p)]
    case _ => []
  }

  function ValuesOf(op: Op): seq<Value> {
    match op
    case InsertStatus(h, p, c, e, s) => [Text(p), Text(c), Text(h), Text(e), Text(StatusText(s))]
    case SetPolicyStatus(h, p, s) => [Text(p), Text(h), Text(StatusText(s))]
    case SetClusterStatus(h, p, c, s) => [Text(p), Text(c), Text(h), Text(StatusText(s))]
    case DropPolicy(_, p) => [Text(p)]
    case DropClusterStatus(_, _, c) => [Text(c)]
    case InsertCluster(h, payload, e) => [Text(h), Payload(payload), Text(e)]
    case UpdateCluster(h, n, payload) => [Text(h), Payload(payload), Text(n)]
    case DropCluster(_, n) => [Text(n)]
    case _ => []
  }

  function ArgsFor(ops: seq<Op>): seq<Value> {
    if ops == [] then [] else ArgsFor(ops[..|ops| - 1]) + ValuesOf(ops[|ops| - 1])
  }

  // ---------------------------------------------------------------- reading a statement

  /** A database accepts a row if each placeholder has an argument and is cast to the type of its column. */
  predicate TokensFit(ts: seq<Token>, argCount: nat, command: Command) {
    && |ts| == |Columns(command)|
    && forall j | 0 <= j < |ts| :: 1 <= ts[j].index <= argCount && ts[j].cast == SqlType(command, Columns(command)[j])
  }

  function Bind(ts: seq<Token>, args: seq<Value>): (row: seq<Value>)
    requires forall j | 0 <= j < |ts| :: 1 <= ts[j].index <= |args|
    ensures |row| == |ts| && forall j | 0 <= j < |ts| :: row[j] == args[ts[j].index - 1]
  {
    if ts == [] then []
    else
      var last := |ts| - 1;
      Bind(ts[..last], args) + [args[ts[last].index - 1]]
  }

  function AllText(row: seq<Value>): bool {
    forall v | v in row :: v.Text?
  }

  /** The operation a row of values stands for under a command; None is a type error. */
  function OpOf(command: Command, prefix: seq<Value>, row: seq<Value>): Option<Op> {
    if |row| != Width(command) || |prefix| != PrefixCount(command) || !AllText(prefix) then None
    else match command
      case InsertCompliance =>
        if !AllText(row) || ParseStatus(row[4].text).None? then None
        else Some(InsertStatus(row[2].text, row[0].text, row[1].text, row[3].text, ParseStatus(row[4].text).value))
      case UpdatePolicies =>
        if !AllText(row) || ParseStatus(row[2].text).None? then None
        else Some(SetPolicyStatus(row[1].text, row[0].text, ParseStatus(row[2].text).value))
      case UpdateClusters =>
        if !AllText(row) || ParseStatus(row[3].text).None? then None
        else Some(SetClusterStatus(row[2].text, row[0].text, row[1].text, ParseStatus(row[3].text).value))
      case DeletePolicies =>
        if !AllText(row) then None else Some(DropPolicy(prefix[0].text, row[0].text))
      case DeleteClusterStatuses =>
        if !AllText(row) then None else Some(DropClusterStatus(prefix[0].text, prefix[1].text, row[0].text))
      case InsertManagedClusters =>
        if !(row[0].Text? && row[1].Payload? && row[2].Text?) then None
        else Some(InsertCluster(row[0].text, row[1].cluster, row[2].text))
      case UpdatePayloads =>
        if !(row[0].Text? && row[1].Payload? && row[2].Text?) then None
        else Some(UpdateCluster(row[0].text, row[2].text, row[1].cluster))
      case DeleteManagedClusters =>
        if !AllText(row) then None else Some(DropCluster(prefix[0].text, row[0].text))
  }

  /** VALUES statements list rows; DELETE statements list the members of their IN clause, one value each. */
  function Grid(command: Command, placeholders: string): Option<seq<seq<Token>>> {
    if PrefixCount(command) == 0 then ParseRows(placeholders)
    else match ParseWholeList(placeholders)
      case None => None
      case Some(ts) => Some(seq(|ts|, i requires 0 <= i < |ts| => [ts[i]]))
  }

  function ReadRows(command: Command, grid: seq<seq<Token>>, args: seq<Value>): Option<seq<Op>>
    requires PrefixCount(command) <= |args|
  {
    if grid == [] then Some([])
    else
      var last := |grid| - 1;
      if !TokensFit(grid[last], |args|, command) then None
      else
        var front := ReadRows(command, grid[..last], args);
        var op := OpOf(command, args[..PrefixCount(command)], Bind(grid[last], args));
        if front.None? || op.None? then None else Some(front.value + [op.value])
  }

  /** What executing the statement does to the tables, row by row. */
  function StatementOps(s: Statement): Option<seq<Op>> {
    if |s.args| < PrefixCount(s.command) then None
    else match Grid(s.command, s.placeholders)
      case None => None
      case Some(grid) => ReadRows(s.command, grid, s.args)
  }

  function BatchOps(batch: seq<Statement>): Option<seq<Op>> {
    if batch == [] then Some([])
    else
      var front := BatchOps(batch[..|batch| - 1]);
      var last := StatementOps(batch[|batch| - 1]);
      if front.None? || last.None? then None else Some(front.value + last.value)
  }

  /** The operations of all statements of one command, in order. */
  function KindOps(batch: seq<Statement>, command: Command): seq<Op> {
    if batch == [] then []
    else
      var s := batch[|batch| - 1];
      KindOps(batch[..|batch| - 1], command) +
      (if s.command == command && StatementOps(s).Some? then StatementOps(s).value else [])
  }

  /** The listed arguments of all statements of one command, in order. */
  function ArgsOf(batch: seq<Statement>, command: Command): seq<Value> {
    if batch == [] then []
    else
      var s := batch[|batch| - 1];
      ArgsOf(batch[..|batch| - 1], command) +
      (if s.command == command && PrefixCount(command) <= |s.args| then s.args[PrefixCount(command)..] else [])
  }

  // ---------------------------------------------------------------- printing a statement

  function PlaceholderText(command: Command, rows: nat): string {
    if PrefixCount(command) == 0 then RowsText(0, rows, Width(command), ColumnCasts(command))
    else ListText(0, rows, PrefixCount(command) + 1, map[])
  }

  function MakeStatement(command: Command, prefix: seq<Value>, ops: seq<Op>): Statement {
    Statement(command, PlaceholderText(command, |ops|), prefix + ArgsFor(ops))
  }

  ghost predicate Fits(command: Command, prefix: seq<Value>, ops: seq<Op>) {
    |prefix| == PrefixCount(command) &&
    forall i | 0 <= i < |ops| :: CommandOf(ops[i]) == Some(command) && PrefixOf(ops[i]) == prefix
  }

  lemma RowReadsBack(op: Op)
    requires CommandOf(op).Some?
    ensures OpOf(CommandOf(op).value, PrefixOf(op), ValuesOf(op)) == Some(op)
    ensures |ValuesOf(op)| == Width(CommandOf(op).value)
  {
    assert op.UpdateCluster? ==> OpOf(CommandOf(op).value, PrefixOf(op), ValuesOf(op)) == Some(op);
  }

  lemma {:induction false} ArgAt(command: Command, ops: seq<Op>, i: nat, j: nat)
    requires forall k | 0 <= k < |ops| :: CommandOf(ops[k]) == Some(command)
    ensures |ArgsFor(ops)| == |ops| * Width(command)
    ensures i < |ops| && j < Width(command) ==>
              && 0 <= i * Width(command) + j < |ArgsFor(ops)|
              && |ValuesOf(ops[i])| == Width(command)
              && ArgsFor(ops)[i * Width(command) + j] == ValuesOf(ops[i])[j]
  {
    hide CommandOf, PrefixOf, ValuesOf, OpOf, Width;
    if ops != [] {
      var front := ops[..|ops| - 1];
      ArgAt(command, front, i, j);
      RowReadsBack(ops[|ops| - 1]);
      assert |ops| * Width(command) == |front| * Width(command) + Width(command);
      if i < |front| && j < Width(command) {
        RowReadsBack(ops[i]);
        WithinRows(i, |front|, j, Width(command));
      }
    }
  }

  lemma WithinRows(i: nat, rows: nat, j: nat, w: nat)
    requires i < rows && j < w
    ensures i * w + j < rows * w
  {
    assert rows * w == (i + 1) * w + (rows - i - 1) * w;
  }

  /** Row i of a printed statement binds the values of the i-th call. */
  lemma BindsRow(command: Command, prefix: seq<Value>, ops: seq<Op>, i: nat, ts: seq<Token>)
    requires Fits(command, prefix, ops) && i < |ops| && NumbersRow(command, ts, i)
    ensures TokensFit(ts, |prefix + ArgsFor(ops)|, command)
    ensures Bind(ts, prefix + ArgsFor(ops)) == ValuesOf(ops[i])
  {
    hide CommandOf, PrefixOf, ValuesOf, OpOf, Width, ArgsFor, ColumnCasts, Columns, SqlType, CastOf;
    RowReadsBack(ops[i]);
    ColumnsOfRow(command);
    forall j | 0 <= j < |ts|
      ensures 1 <= ts[j].index <= |prefix + ArgsFor(ops)|
      ensures ts[j].cast == SqlType(command, Columns(command)[j])
      ensures (prefix + ArgsFor(ops))[ts[j].index - 1] == ValuesOf(ops[i])[j]
    {
      ArgAt(command, ops, i, j);
      CastIsType(command, j);
    }
  }

  lemma ColumnsOfRow(command: Command)
    ensures |Columns(command)| == Width(command) && |PrefixColumns(command)| == PrefixCount(command)
  {
  }

  /** The cast printed for a column is the SQL type of what the column holds. */
  lemma CastIsType(command: Command, j: nat)
    requires j < |Columns(command)|
    ensures CastOf(ColumnCasts(command), j + 1) == SqlType(command, Columns(command)[j])
  {
  }

  /** Every value of a call's row, and every argument before the rows, is the field that belongs in its column. */
  lemma ValuesAreFields(op: Op)
    requires CommandOf(op).Some?
    ensures var command := CommandOf(op).value;
      && |ValuesOf(op)| == |Columns(command)| && |PrefixOf(op)| == |PrefixColumns(command)|
      && (forall j | 0 <= j < |ValuesOf(op)| :: FieldOf(op, Columns(command)[j]) == Some(ValuesOf(op)[j]))
      && (forall j | 0 <= j < |PrefixOf(op)| :: FieldOf(op, PrefixColumns(command)[j]) == Some(PrefixOf(op)[j]))
  {
    var command := CommandOf(op).value;
    forall j | 0 <= j < |ValuesOf(op)| ensures FieldOf(op, Columns(command)[j]) == Some(ValuesOf(op)[j]) {
    }
  }

  /**
   In the printed statement of any calls, the placeholder in row i and column j is cast to the SQL type of the field of
   call i that the column holds, and its argument is that field.
   */
  lemma PrintedCasts(command: Command, prefix: seq<Value>, ops: seq<Op>, i: nat, j: nat)
    requires Fits(command, prefix, ops) && i < |ops| && j < |Columns(command)|
    ensures var s := MakeStatement(command, prefix, ops);
      var grid := Grid(command, s.placeholders);
      && grid.Some? && |grid.value| == |ops| && j < |grid.value[i]|
      && var token := grid.value[i][j];
         && token.cast == SqlType(command, Columns(command)[j])
         && 1 <= token.index <= |s.args|
         && FieldOf(ops[i], Columns(command)[j]) == Some(s.args[token.index - 1])
  {
    hide ArgsFor, ValuesOf, PlaceholderText, Grid, CommandOf, PrefixOf, NumbersRow, Columns, SqlType, FieldOf, Width;
    var grid := PrintedGrid(command, |ops|);
    BindsRow(command, prefix, ops, i, grid[i]);
    ValuesAreFields(ops[i]);
  }

  /** Row i column j of the grid is the placeholder of the argument right after the prefix and i full rows. */
  ghost predicate Numbers(command: Command, grid: seq<seq<Token>>, rows: nat) {
    && |grid| == rows
    && forall i | 0 <= i < rows :: NumbersRow(command, grid[i], i)
  }

  ghost predicate NumbersRow(command: Command, ts: seq<Token>, i: nat) {
    && |ts| == Width(command)
    && forall j | 0 <= j < |ts| ::
         ts[j] == Token(PrefixCount(command) + i * Width(command) + j + 1, CastOf(ColumnCasts(command), j + 1))
  }

  lemma TokenLetters()
    ensures TokenText(Token(1, Some("uuid"))) == "$1::uuid" && TokenText(Token(2, None)) == "$2"
    ensures TokenText(Token(3, Some("status.compliance_type"))) == "$3::status.compliance_type"
  {
  }

  lemma ListOfThree(casts: Casts)
    ensures ListText(0, 3, 1, casts) ==
            TokenText(ListToken(0, 1, casts)) + ", " + (TokenText(ListToken(1, 1, casts)) + ", " + TokenText(ListToken(2, 1, casts)))
  {
    hide TokenText, ListToken;
    assert ListText(2, 3, 1, casts) == TokenText(ListToken(2, 1, casts)) + "" + ListText(3, 3, 1, casts);
    assert ListText(2, 3, 1, casts) == TokenText(ListToken(2, 1, casts));
    assert ListText(1, 3, 1, casts) == TokenText(ListToken(1, 1, casts)) + ", " + ListText(2, 3, 1, casts);
  }

  lemma OneRow(columns: nat, casts: Casts)
    ensures RowsText(0, 1, columns, casts) == "(" + ListText(0, columns, 1, casts) + ")"
  {
    hide ListText;
    assert RowsText(0, 1, columns, casts) == "(" + ListText(0, columns, 1, casts) + ")" + "" + RowsText(1, 1, columns, casts);
  }

  /** One row of a policy update, and the list of a delete of one policy, letter by letter. */
  lemma PrintedLetters()
    ensures PlaceholderText(UpdatePolicies, 1) ==
            "(" + ("$1::uuid" + ", " + ("$2" + ", " + "$3::status.compliance_type")) + ")"
    ensures PlaceholderText(DeletePolicies, 1) == "$2"
  {
    hide TokenText, RowsText, ListText;
    TokenLetters();
    OneRow(3, ColumnCasts(UpdatePolicies));
    ListOfThree(ColumnCasts(UpdatePolicies));
    OneInList();
  }

  lemma OneInList()
    ensures ListText(0, 1, 2, map[]) == "$2"
  {
    hide TokenText;
    TokenLetters();
    assert ListText(0, 1, 2, map[]) == TokenText(ListToken(0, 2, map[])) + "" + ListText(1, 1, 2, map[]);
  }

  /** The texts the snapshot query filters by and its row loop compares with are those the statements write. */
  lemma StatusTexts(s: Status)
    ensures StatusText(s) == "compliant" <==> s == Compliant
    ensures StatusText(s) == "non_compliant" <==> s == NonCompliant
    ensures StatusText(s) == "unknown" <==> s == Unknown
    ensures ParseStatus(StatusText(s)) == Some(s)
  {
  }

  lemma PrintedGrid(command: Command, rows: nat) returns (grid: seq<seq<Token>>)
    ensures Grid(command, PlaceholderText(command, rows)) == Some(grid)
    ensures Numbers(command, grid, rows)
  {
    hide RowsText, ListText, ParseRows, ParseList, RowTokens, ListTokens;
    if PrefixCount(command) == 0 {
      RowsRoundTrip(rows, Width(command), ColumnCasts(command));
      grid := RowTokens(0, rows, Width(command), ColumnCasts(command));
      forall i | 0 <= i < rows ensures NumbersRow(command, grid[i], i) {
      }
    } else {
      ListRoundTrip(rows, PrefixCount(command) + 1, map[], "");
      var text := ListText(0, rows, PrefixCount(command) + 1, map[]);
      assert text + "" == text;
      var ts := ListTokens(0, rows, PrefixCount(command) + 1, map[]);
      grid := seq(|ts|, i requires 0 <= i < |ts| => [ts[i]]);
    }
  }

  lemma {:induction false} PrintedReads(
    command: Command, prefix: seq<Value>, ops: seq<Op>, grid: seq<seq<Token>>, n: nat)
    requires Fits(command, prefix, ops) && n <= |ops| && Numbers(command, grid, |ops|)
    ensures ReadRows(command, grid[..n], prefix + ArgsFor(ops)) == Some(ops[..n])
  {
    hide Bind, OpOf, ArgsFor, NumbersRow, ColumnCasts, Columns, SqlType;
    if n > 0 {
      PrintedReads(command, prefix, ops, grid, n - 1);
      assert grid[..n][..n - 1] == grid[..n - 1];
      BindsRow(command, prefix, ops, n - 1, grid[n - 1]);
      RowReadsBack(ops[n - 1]);
      assert (prefix + ArgsFor(ops))[..|prefix|] == prefix;
      assert ops[..n] == ops[..n - 1] + [ops[n - 1]];
    }
  }

  /** A statement means exactly the calls it was printed from, in order. */
  lemma StatementMeansItsCalls(command: Command, prefix: seq<Value>, ops: seq<Op>)
    requires Fits(command, prefix, ops)
    ensures StatementOps(MakeStatement(command, prefix, ops)) == Some(ops)
  {
    var grid := PrintedGrid(command, |ops|);
    PrintedReads(command, prefix, ops, grid, |ops|);
    assert grid[..|ops|] == grid && ops[..|ops|] == ops;
  }

  /**
   The arguments of a statement match its placeholders, it has at least one row, and its size is bounded; only a
   per-policy delete has no bound.
   */
  ghost predicate WellShaped(s: Statement) {
    var w, prefix := Width(s.command), PrefixCount(s.command);
    && prefix + w <= |s.args|
    && (|s.args| - prefix) % w == 0
    && s.placeholders == PlaceholderText(s.command, (|s.args| - prefix) / w)
    && Sized(s.command, |s.args|)
  }

  /** The first number of arguments above the limit that a statement can have: the prefix and whole rows. */
  function FlushSize(command: Command): nat {
    PrefixCount(command) + ((MAX_ARGS_IN_STATEMENT - PrefixCount(command)) / Width(command) + 1) * Width(command)
  }

  /** Statements have at most the limit or exactly the first size above it; per-policy deletes have any size. */
  predicate Sized(command: Command, n: nat) {
    command != DeleteClusterStatuses ==> n <= MAX_ARGS_IN_STATEMENT || n == FlushSize(command)
  }

  /** The sizes of statements printed in mid-stream. */
  lemma FlushSizes()
    ensures FlushSize(InsertCompliance) == 50005 && FlushSize(UpdateClusters) == 50004
    ensures forall c | c in {UpdatePolicies, DeletePolicies, InsertManagedClusters, UpdatePayloads, DeleteManagedClusters} ::
              FlushSize(c) == 50001
  {
  }

  /** One row more than fits makes a list exactly the first size above the limit. */
  lemma FirstAbove(command: Command, n: nat)
    requires PrefixCount(command) + n * Width(command) <= MAX_ARGS_IN_STATEMENT
    requires MAX_ARGS_IN_STATEMENT < PrefixCount(command) + (n + 1) * Width(command)
    ensures PrefixCount(command) + (n + 1) * Width(command) == FlushSize(command)
  {
    match command
    case InsertCompliance =>
    case UpdateClusters =>
    case UpdatePolicies =>
    case InsertManagedClusters =>
    case UpdatePayloads =>
    case _ =>
  }

  /** What queueing one more printed statement adds to a batch. */
  lemma QueueOne(batch: seq<Statement>, command: Command, prefix: seq<Value>, ops: seq<Op>)
    requires Fits(command, prefix, ops) && ops != []
    requires Sized(command, |prefix + ArgsFor(ops)|)
    ensures var s := MakeStatement(command, prefix, ops);
      && (BatchOps(batch).Some? ==> BatchOps(batch + [s]) == Some(BatchOps(batch).value + ops))
      && WellShaped(s)
      && forall c ::
           && ArgsOf(batch + [s], c) == ArgsOf(batch, c) + (if c == command then ArgsFor(ops) else [])
           && KindOps(batch + [s], c) == KindOps(batch, c) + (if c == command then ops else [])
  {
    hide StatementOps, WellShaped, ArgsFor, Fits;
    var s := MakeStatement(command, prefix, ops);
    StatementMeansItsCalls(command, prefix, ops);
    PrintedIsWellShaped(command, prefix, ops);
    assert (batch + [s])[..|batch|] == batch;
    assert |prefix| == PrefixCount(command) by { FitsPrefix(command, prefix, ops); }
    assert s.args[PrefixCount(command)..] == ArgsFor(ops);
  }

  lemma FitsPrefix(command: Command, prefix: seq<Value>, ops: seq<Op>)
    requires Fits(command, prefix, ops)
    ensures |prefix| == PrefixCount(command)
  {
  }

  lemma PrintedIsWellShaped(command: Command, prefix: seq<Value>, ops: seq<Op>)
    requires Fits(command, prefix, ops) && ops != []
    requires Sized(command, |prefix + ArgsFor(ops)|)
    ensures WellShaped(MakeStatement(command, prefix, ops))
  {
    hide PlaceholderText;
    ArgAt(command, ops, 0, 0);
    RowCount(|ArgsFor(ops)|, |ops|, Width(command));
  }

  function Times(ops: seq<Op>, o: Op): nat {
    multiset(ops)[o]
  }

  lemma {:induction false} TimesCover(batch: seq<Statement>, o: Op)
    requires BatchOps(batch).Some?
    ensures Times(BatchOps(batch).value, o) ==
              Times(KindOps(batch, InsertCompliance), o) + Times(KindOps(batch, UpdatePolicies), o) +
              Times(KindOps(batch, UpdateClusters), o) + Times(KindOps(batch, DeletePolicies), o) +
              Times(KindOps(batch, DeleteClusterStatuses), o) + Times(KindOps(batch, InsertManagedClusters), o) +
              Times(KindOps(batch, UpdatePayloads), o) + Times(KindOps(batch, DeleteManagedClusters), o)
  {
    hide KindOps, StatementOps;
    if batch == [] {
      forall c { NoKindOps(c, o); }
    } else {
      TimesCover(batch[..|batch| - 1], o);
      forall c { KindStep(batch, c, o); }
    }
  }

  /** A readable batch performs the operations of its statements, kind by kind, and nothing else. */
  lemma KindsCover(batch: seq<Statement>)
    requires BatchOps(batch).Some?
    ensures multiset(BatchOps(batch).value) ==
              multiset(KindOps(batch, InsertCompliance)) + multiset(KindOps(batch, UpdatePolicies)) +
              multiset(KindOps(batch, UpdateClusters)) + multiset(KindOps(batch, DeletePolicies)) +
              multiset(KindOps(batch, DeleteClusterStatuses)) + multiset(KindOps(batch, InsertManagedClusters)) +
              multiset(KindOps(batch, UpdatePayloads)) + multiset(KindOps(batch, DeleteManagedClusters))
  {
    hide KindOps, BatchOps;
    var ops := multiset(BatchOps(batch).value);
    var sum := multiset(KindOps(batch, InsertCompliance)) + multiset(KindOps(batch, UpdatePolicies)) +
               multiset(KindOps(batch, UpdateClusters)) + multiset(KindOps(batch, DeletePolicies)) +
               multiset(KindOps(batch, DeleteClusterStatuses)) + multiset(KindOps(batch, InsertManagedClusters)) +
               multiset(KindOps(batch, UpdatePayloads)) + multiset(KindOps(batch, DeleteManagedClusters));
    forall o ensures ops[o] == sum[o] { TimesCover(batch, o); }
  }

  lemma NoKindOps(c: Command, o: Op)
    ensures Times(KindOps([], c), o) == 0
  {
  }

  lemma KindStep(batch: seq<Statement>, c: Command, o: Op)
    requires batch != [] && BatchOps(batch).Some?
    ensures var last := batch[|batch| - 1];
      && StatementOps(last).Some?
      && Times(KindOps(batch, c), o) ==
           Times(KindOps(batch[..|batch| - 1], c), o) +
           (if last.command == c then Times(StatementOps(last).value, o) else 0)
  {
    hide StatementOps;
  }

  lemma QuotientIs(n: nat, q: int, r: int, w: int)
    requires n > 0 && n * q + r == n * w && 0 <= r < n
    ensures q == w
  {
    if q < w {
      AtLeastOnce(n, q, w);
    } else if q > w {
      AtLeastOnce(n, w, q);
    }
  }

  lemma AtLeastOnce(n: nat, low: int, high: int)
    requires low < high
    ensures n * high >= n * low + n
  {
    var k := high - low - 1;
    assert n * k >= 0;
    assert high == low + 1 + k;
    assert n * (low + 1 + k) == n * low + n + n * k;
  }

  /** The generators recover the column count as the number of arguments divided by the number of rows. */
  lemma ColumnCount(args: nat, rows: nat, w: nat)
    requires rows > 0 && args == rows * w
    ensures args / rows == w
  {
    QuotientIs(rows, args / rows, args % rows, w);
  }

  lemma RowCount(args: nat, rows: nat, w: nat)
    requires w > 0 && args == rows * w
    ensures args / w == rows && args % w == 0 && (rows > 0 ==> w <= args)
  {
    QuotientIs(w, args / w, args % w, rows);
    if rows > 0 {
      assert args == w + (rows - 1) * w;
    }
  }
}
