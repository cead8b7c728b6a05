/**
 The status tables, on values: one map from row key to row, and the row operations that SQL statements perform.
 Every operation belongs to one leaf hub.
 */
module Tables {
  import opened Bundles

  datatype Status = Compliant | NonCompliant | Unknown

  datatype Key =
    | ComplianceKey(hub: string, policy: string, cluster: string)
    | ClusterKey(hub: string, name: string)
    | AggregateKey(hub: string, policy: string)

  datatype Row =
    | ComplianceRow(error: string, status: Status)
    | ClusterRow(payload: ManagedCluster, error: string)
    | AggregateRow(appliedClusters: int, nonCompliantClusters: int)

  type Table = map<Key, Row>

  datatype Op =
    | InsertStatus(hub: string, policy: string, cluster: string, error: string, status: Status)
    | SetPolicyStatus(hub: string, policy: string, status: Status)
    | SetClusterStatus(hub: string, policy: string, cluster: string, status: Status)
    | DropPolicy(hub: string, policy: string)
    | DropClusterStatus(hub: string, policy: string, cluster: string)
    | InsertCluster(hub: string, payload: ManagedCluster, error: string)
    | UpdateCluster(hub: string, name: string, payload: ManagedCluster)
    | DropCluster(hub: string, name: string)
    | UpsertAggregate(hub: string, policy: string, appliedClusters: int, nonCompliantClusters: int)
    | DropAggregate(hub: string, policy: string)

  /** The rows an operation's WHERE clause, or its inserted values, speak about. */
  predicate Touches(op: Op, k: Key) {
    k.hub == op.hub &&
    match op
    case InsertStatus(_, p, c, _, _) => k.ComplianceKey? && k.policy == p && k.cluster == c
    case SetPolicyStatus(_, p, _) => k.ComplianceKey? && k.policy == p
    case SetClusterStatus(_, p, c, _) => k.ComplianceKey? && k.policy == p && k.cluster == c
    case DropPolicy(_, p) => k.ComplianceKey? && k.policy == p
    case DropClusterStatus(_, p, c) => k.ComplianceKey? && k.policy == p && k.cluster == c
    case InsertCluster(_, payload, _) => k.ClusterKey? && k.name == payload.name
    case UpdateCluster(_, n, _) => k.ClusterKey? && k.name == n
    case DropCluster(_, n) => k.ClusterKey? && k.name == n
    case UpsertAggregate(_, p, _, _) => k.AggregateKey? && k.policy == p
    case DropAggregate(_, p) => k.AggregateKey? && k.policy == p
  }

  function WithStatus(r: Row, s: Status): Row {
    match r
    case ComplianceRow(e, _) => ComplianceRow(e, s)
    case _ => r
  }

  function WithPayload(r: Row, payload: ManagedCluster): Row {
    match r
    case ClusterRow(_, e) => ClusterRow(payload, e)
    case _ => r
  }

  /** What becomes of a row the operation touches; None means there is no such row. */
  function Effect(op: Op, r: Option<Row>): Option<Row> {
    match op
    case InsertStatus(_, _, _, e, s) => Some(ComplianceRow(e, s))
    case SetPolicyStatus(_, _, s) => if r.None? then None else Some(WithStatus(r.value, s))
    case SetClusterStatus(_, _, _, s) => if r.None? then None else Some(WithStatus(r.value, s))
    case DropPolicy(_, _) => None
    case DropClusterStatus(_, _, _) => None
    case InsertCluster(_, payload, e) => Some(ClusterRow(payload, e))
    case UpdateCluster(_, _, payload) => if r.None? then None else Some(WithPayload(r.value, payload))
    case DropCluster(_, _) => None
    case UpsertAggregate(_, _, a, n) => Some(AggregateRow(a, n))
    case DropAggregate(_, _) => None
  }

  function Lookup(t: Table, k: Key): Option<Row> {
    if k in t then Some(t[k]) else None
  }

  /** The row with key k after the operation, from the row before it. */
  function After(op: Op, k: Key, r: Option<Row>): Option<Row> {
    if Touches(op, k) then Effect(op, r) else r
  }

  /** The keys an operation may add to a table. */
  function Created(op: Op): set<Key> {
    match op
    case InsertStatus(h, p, c, _, _) => {ComplianceKey(h, p, c)}
    case InsertCluster(h, payload, _) => {ClusterKey(h, payload.name)}
    case UpsertAggregate(h, p, _, _) => {AggregateKey(h, p)}
    case _ => {}
  }

  function ApplyOp(op: Op, t: Table): (t': Table)
    ensures forall k :: Lookup(t', k) == After(op, k, Lookup(t, k))
  {
    map k | k in t.Keys + Created(op) && After(op, k, Lookup(t, k)).Some? :: After(op, k, Lookup(t, k)).value
  }

  function ApplyOps(ops: seq<Op>, t: Table): Table {
    if ops == [] then t
    else ApplyOp(ops[|ops| - 1], ApplyOps(ops[..|ops| - 1], t))
  }

  function Elements(ops: seq<Op>): set<Op> {
    set o | o in ops
  }

  /** No two different operations speak about the same row. */
  ghost predicate Compatible(ops: set<Op>) {
    forall x, y, k | x in ops && y in ops && Touches(x, k) && Touches(y, k) :: x == y
  }

  ghost predicate SameRows(t1: Table, t2: Table) {
    forall k :: Lookup(t1, k) == Lookup(t2, k)
  }

  lemma SameRowsEqual(t1: Table, t2: Table)
    requires SameRows(t1, t2)
    ensures t1 == t2
  {
    forall k ensures k in t1 <==> k in t2 {
      assert Lookup(t1, k) == Lookup(t2, k);
    }
    forall k | k in t1 ensures t1[k] == t2[k] {
      assert Lookup(t1, k) == Lookup(t2, k);
    }
  }

  lemma ApplyOpsAppend(ops: seq<Op>, op: Op, t: Table)
    ensures ApplyOps(ops + [op], t) == ApplyOp(op, ApplyOps(ops, t))
  {
    assert (ops + [op])[..|ops|] == ops;
  }

  lemma EffectTwice(op: Op, r: Option<Row>)
    ensures Effect(op, Effect(op, r)) == Effect(op, r)
  {
  }

  /** A row no operation speaks about is left alone. */
  lemma {:induction false} UntouchedRow(ops: seq<Op>, t: Table, k: Key)
    requires forall o | o in ops :: !Touches(o, k)
    ensures Lookup(ApplyOps(ops, t), k) == Lookup(t, k)
  {
    if ops != [] {
      UntouchedRow(ops[..|ops| - 1], t, k);
    }
  }

  /** Among compatible operations, the one that speaks about a row decides it, wherever it comes in the order. */
  lemma {:induction false} TouchedRow(ops: seq<Op>, t: Table, k: Key, op: Op)
    requires Compatible(Elements(ops)) && op in ops && Touches(op, k)
    ensures Lookup(ApplyOps(ops, t), k) == Effect(op, Lookup(t, k))
  {
    var front, last := ops[..|ops| - 1], ops[|ops| - 1];
    assert ops == front + [last];
    assert forall o | o in front :: o in Elements(ops);
    assert Compatible(Elements(front));
    if op in front {
      TouchedRow(front, t, k, op);
      if Touches(last, k) {
        assert last in Elements(ops) && op in Elements(ops);
        EffectTwice(op, Lookup(t, k));
      }
    } else {
      forall o | o in front ensures !Touches(o, k) {
        assert o in Elements(ops) && op in Elements(ops);
      }
      UntouchedRow(front, t, k);
    }
  }

  /** The outcome of compatible operations depends only on which operations there are, not on order or repetition. */
  lemma OrderDoesNotMatter(a: seq<Op>, b: seq<Op>, t: Table)
    requires Elements(a) == Elements(b) && Compatible(Elements(a))
    ensures ApplyOps(a, t) == ApplyOps(b, t)
  {
    forall k ensures Lookup(ApplyOps(a, t), k) == Lookup(ApplyOps(b, t), k) {
      if op :| op in Elements(a) && Touches(op, k) {
        TouchedRow(a, t, k, op);
        assert op in Elements(b);
        TouchedRow(b, t, k, op);
      } else {
        assert forall o | o in a :: o in Elements(a);
        assert forall o | o in b :: o in Elements(b);
        UntouchedRow(a, t, k);
        UntouchedRow(b, t, k);
      }
    }
    SameRowsEqual(ApplyOps(a, t), ApplyOps(b, t));
  }

  // ---------------------------------------------------------------- hubs

  ghost predicate SameHub(t1: Table, t2: Table, hub: string) {
    forall k: Key | k.hub == hub :: Lookup(t1, k) == Lookup(t2, k)
  }

  /** Operations of one hub depend on, and change, only that hub's rows. */
  lemma {:induction false} HubLocal(ops: seq<Op>, t1: Table, t2: Table, hub: string)
    requires forall o | o in ops :: o.hub == hub
    requires SameHub(t1, t2, hub)
    ensures SameHub(ApplyOps(ops, t1), ApplyOps(ops, t2), hub)
  {
    if ops != [] {
      HubLocal(ops[..|ops| - 1], t1, t2, hub);
    }
  }

  lemma OtherHubsUntouched(ops: seq<Op>, t: Table, hub: string, other: string)
    requires forall o | o in ops :: o.hub == hub
    requires other != hub
    ensures SameHub(ApplyOps(ops, t), t, other)
  {
    forall k: Key | k.hub == other ensures Lookup(ApplyOps(ops, t), k) == Lookup(t, k) {
      UntouchedRow(ops, t, k);
    }
  }
}
