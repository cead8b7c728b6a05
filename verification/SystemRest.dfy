/** The rows the newest bundles ask for: what the tables hold, kind by kind, once the newest bundle was handled. */
module SystemRest {
  import opened Bundles
  import opened Conflation
  import opened Tables
  import opened Diffs
  import opened System
  import opened SystemSafety
  import opened SystemHistory
  import opened SystemRows

  datatype Kind = Placements | Compliances | Clusters | Summaries

  function KindOf(contents: Contents): Kind {
    match contents
    case ClustersPerPolicy(_) => Placements
    case ComplianceStatus(_) => Compliances
    case ManagedClusters(_) => Clusters
    case MinimalComplianceStatus(_) => Summaries
  }

  /** Bundles of this type, and only those, have contents of this kind. */
  ghost predicate Carries(received: seq<Bundle>, bundleType: string, kind: Kind) {
    forall b | b in received :: b.bundleType == bundleType <==> KindOf(b.contents) == kind
  }

  predicate Concerns(a: Attempt, hub: string, kind: Kind) {
    a.bundle.hub == hub && KindOf(a.bundle.contents) == kind
  }

  /** The last attempt at a bundle of the kind, successful or not. */
  function LastOf(history: seq<Attempt>, hub: string, kind: Kind): (a: Option<Attempt>)
    ensures a.Some? ==> Concerns(a.value, hub, kind)
  {
    if history == [] then None
    else
      var last := history[|history| - 1];
      if Concerns(last, hub, kind) then Some(last) else LastOf(history[..|history| - 1], hub, kind)
  }

  /**
   Once the newest bundle of a type succeeded, no attempt of that type came after it, since an attempt is always newer
   than every success before it: what earlier failures left behind was under the tables this success started from.
   */
  lemma {:induction false} NewestIsLast(
    cfg: Config, received: seq<Bundle>, history: seq<Attempt>, hub: string, bundleType: string, kind: Kind)
    requires Ordered(cfg, history) && AllReceived(history, received) && Carries(received, bundleType, kind)
    requires MaxOk(history, hub, bundleType) == MaxGen(received, hub, bundleType)
    ensures match LastOf(history, hub, kind)
            case None => MaxGen(received, hub, bundleType) == 0
            case Some(a) =>
              a.ok && a.bundle in received && a.bundle.generation == MaxGen(received, hub, bundleType) > 0
  {
    hide WellFormed, MaxGen;
    if history != [] {
      var front, last := history[..|history| - 1], history[|history| - 1];
      assert forall i | 0 <= i < |front| :: front[i] == history[i];
      assert last.bundle in received;
      MaxGenIsNewest(received, hub, bundleType);
      if !Concerns(last, hub, kind) {
        NewestIsLast(cfg, received, front, hub, bundleType, kind);
      }
    }
  }

  // ---------------------------------------------------------------- what a bundle's rows are

  /** A row of the compliance table inserted after the last compliance attempt of its hub. */
  predicate InsertedSince(history: seq<Attempt>, k: Key) {
    if history == [] then false
    else
      var last := history[|history| - 1];
      !Concerns(last, k.hub, Compliances) &&
      (Inserts(last.executed, k) || InsertedSince(history[..|history| - 1], k))
  }

  predicate Inserts(ops: seq<Op>, k: Key) {
    exists o | o in ops :: o.InsertStatus? && Touches(o, k)
  }

  /**
   The hub's rows of the bundle's kind are the bundle's. A compliance row that was inserted since the last compliance
   bundle is unknown; any other has the status this bundle reports.
   */
  ghost predicate Shows(t: Table, history: seq<Attempt>, b: Bundle) {
    match b.contents
    case ClustersPerPolicy(objs) => StatusRows(t, b.hub) == Pairs(b.hub, objs)
    case ComplianceStatus(objs) =>
      forall k | k in StatusRows(t, b.hub) ::
        StatusAt(t, k) == Some(if InsertedSince(history, k) then Unknown else ReportedStatus(objs, k.policy, k.cluster))
    case ManagedClusters(objs) => forall n :: PayloadAt(t, ClusterKey(b.hub, n)) == FindCluster(objs, n)
    case MinimalComplianceStatus(objs) => forall p :: Lookup(t, AggregateKey(b.hub, p)) == SummaryRow(objs, p)
  }

  function PayloadAt(t: Table, k: Key): Option<ManagedCluster> {
    if k in t && t[k].ClusterRow? then Some(t[k].payload) else None
  }

  function SummaryRow(objs: seq<MinimalCompliance>, policy: string): Option<Row> {
    match FindSummary(objs, policy)
    case None => None
    case Some(o) => Some(AggregateRow(o.appliedClusters, o.nonCompliantClusters))
  }

  // ---------------------------------------------------------------- versions determine payloads

  ghost predicate AllValid(received: seq<Bundle>) {
    forall b | b in received :: ValidContents(b.contents)
  }

  predicate SendsCluster(b: Bundle, hub: string, c: ManagedCluster) {
    b.hub == hub && b.contents.ManagedClusters? && c in b.contents.clusters
  }

  /** A payload the hub sent, or that was in the tables from the start. */
  ghost predicate Sent(initial: Table, received: seq<Bundle>, hub: string, c: ManagedCluster) {
    || PayloadAt(initial, ClusterKey(hub, c.name)) == Some(c)
    || exists b :: b in received && SendsCluster(b, hub, c)
  }

  /** An equal resource version means an equal payload, in all that a hub ever sent. */
  ghost predicate VersionsDetermine(initial: Table, received: seq<Bundle>) {
    && (forall k | PayloadAt(initial, k).Some? :: k.ClusterKey? && PayloadAt(initial, k).value.name == k.name)
    && (forall hub, c, d | Sent(initial, received, hub, c) && Sent(initial, received, hub, d) ::
          c.name == d.name && c.resourceVersion == d.resourceVersion ==> c == d)
  }

  /** What is needed of the contents of bundles and of the tables at the start for the rows of each kind. */
  ghost predicate Trusted(initial: Table, received: seq<Bundle>, kind: Kind) {
    match kind
    case Placements => true
    case Compliances => WellTyped(initial) && AllValid(received)
    case Clusters => WellTyped(initial) && AllValid(received) && VersionsDetermine(initial, received)
    case Summaries => AllValid(received)
  }

  ghost predicate PayloadsSent(initial: Table, received: seq<Bundle>, t: Table) {
    forall k | PayloadAt(t, k).Some? ::
      k.ClusterKey? && PayloadAt(t, k).value.name == k.name && Sent(initial, received, k.hub, PayloadAt(t, k).value)
  }

  lemma {:induction false} StoredWasSent(initial: Table, received: seq<Bundle>, history: seq<Attempt>)
    requires Serial(initial, history) && AllReceived(history, received) && AllValid(received)
    requires VersionsDetermine(initial, received)
    ensures PayloadsSent(initial, received, Replay(initial, history))
  {
    hide ValidContents, Diff, ApplyOps, Sent, PayloadsSent;
    if history == [] {
      FromTheStart(initial, received);
    } else {
      var front, last := history[..|history| - 1], history[|history| - 1];
      assert forall i | 0 <= i < |front| :: front[i] == history[i];
      StoredWasSent(initial, received, front);
      assert last.bundle in received;
      AttemptStoresSent(initial, received, Replay(initial, front), last);
    }
  }

  lemma FromTheStart(initial: Table, received: seq<Bundle>)
    requires VersionsDetermine(initial, received)
    ensures PayloadsSent(initial, received, initial)
  {
    forall k | PayloadAt(initial, k).Some? ensures Sent(initial, received, k.hub, PayloadAt(initial, k).value) {
      assert k == ClusterKey(k.hub, PayloadAt(initial, k).value.name);
    }
  }

  lemma AttemptStoresSent(initial: Table, received: seq<Bundle>, t: Table, a: Attempt)
    requires PayloadsSent(initial, received, t) && AttemptOk(t, a)
    requires a.bundle in received && ValidContents(a.bundle.contents)
    ensures PayloadsSent(initial, received, ApplyOps(a.executed, t))
  {
    hide ValidContents, Diff, ApplyOps, Sent;
    var after := ApplyOps(a.executed, t);
    DiffCompatible(t, a.bundle.hub, a.bundle.contents);
    forall k | PayloadAt(after, k).Some?
      ensures k.ClusterKey? && PayloadAt(after, k).value.name == k.name
      ensures Sent(initial, received, k.hub, PayloadAt(after, k).value)
    {
      assert Lookup(after, k).Some?;
      if o :| o in Elements(a.executed) && Touches(o, k) {
        TouchedRow(a.executed, t, k, o);
        StoredPayload(initial, received, t, a.bundle, o, k);
      } else {
        forall o | o in a.executed ensures !Touches(o, k) { assert o in Elements(a.executed); }
        UntouchedRow(a.executed, t, k);
        assert PayloadAt(t, k) == PayloadAt(after, k);
      }
    }
  }

  lemma StoredPayload(initial: Table, received: seq<Bundle>, t: Table, b: Bundle, o: Op, k: Key)
    requires PayloadsSent(initial, received, t) && b in received && ValidContents(b.contents)
    requires o in Diff(t, b.hub, b.contents) && Touches(o, k)
    requires Effect(o, Lookup(t, k)).Some? && Effect(o, Lookup(t, k)).value.ClusterRow?
    ensures k.ClusterKey? && Effect(o, Lookup(t, k)).value.payload.name == k.name
    ensures Sent(initial, received, k.hub, Effect(o, Lookup(t, k)).value.payload)
  {
    match b.contents
    case ManagedClusters(objs) =>
      ClusterOps(t, b.hub, objs);
      FindClusterIs(objs, k.name);
    case _ =>
  }

  lemma SentVersionsAgree(initial: Table, received: seq<Bundle>, t: Table, b: Bundle)
    requires VersionsDetermine(initial, received) && PayloadsSent(initial, received, t)
    requires b in received && b.contents.ManagedClusters?
    ensures VersionsAgree(t, b.hub, b.contents.clusters)
  {
    hide Sent;
    forall o | o in b.contents.clusters && VersionAt(t, ClusterKey(b.hub, o.name)) == Some(o.resourceVersion)
      ensures t[ClusterKey(b.hub, o.name)].payload == o
    {
      var k := ClusterKey(b.hub, o.name);
      SentByBundle(initial, received, b, o);
      assert PayloadAt(t, k) == Some(t[k].payload);
    }
  }

  lemma SentByBundle(initial: Table, received: seq<Bundle>, b: Bundle, c: ManagedCluster)
    requires b in received && b.contents.ManagedClusters? && c in b.contents.clusters
    ensures Sent(initial, received, b.hub, c)
  {
    assert SendsCluster(b, b.hub, c);
  }

  // ---------------------------------------------------------------- rows after the last attempt

  lemma {:induction false} LastShows(initial: Table, received: seq<Bundle>, history: seq<Attempt>, hub: string, kind: Kind)
    requires Serial(initial, history) && AllReceived(history, received) && Trusted(initial, received, kind)
    requires LastOf(history, hub, kind).Some? && LastOf(history, hub, kind).value.ok
    ensures Shows(Replay(initial, history), history, LastOf(history, hub, kind).value.bundle)
  {
    hide Diff, ApplyOps, Shows, Trusted;
    var front, last := history[..|history| - 1], history[|history| - 1];
    var before := Replay(initial, front);
    assert forall i | 0 <= i < |front| :: front[i] == history[i];
    assert last.bundle in received;
    if Concerns(last, hub, kind) {
      TrustedBefore(initial, received, front, last, kind);
      SuccessShows(before, history);
    } else {
      LastShows(initial, received, front, hub, kind);
      OthersKeepShown(before, history, LastOf(front, hub, kind).value.bundle);
    }
  }

  /** What a success of the kind needs of the tables it starts from. */
  ghost predicate MayTrust(t: Table, b: Bundle) {
    match b.contents
    case ClustersPerPolicy(_) => true
    case ComplianceStatus(_) => WellTyped(t) && ValidContents(b.contents)
    case ManagedClusters(objs) => WellTyped(t) && ValidContents(b.contents) && VersionsAgree(t, b.hub, objs)
    case MinimalComplianceStatus(_) => ValidContents(b.contents)
  }

  lemma TrustedBefore(initial: Table, received: seq<Bundle>, front: seq<Attempt>, last: Attempt, kind: Kind)
    requires Serial(initial, front) && AllReceived(front, received) && Trusted(initial, received, kind)
    requires last.bundle in received && KindOf(last.bundle.contents) == kind
    ensures MayTrust(Replay(initial, front), last.bundle)
  {
    hide ValidContents, WellTyped, VersionsDetermine, VersionsAgree, Serial;
    if kind == Compliances || kind == Clusters {
      ReplayKeepsWellTyped(initial, front);
    }
    if kind == Clusters {
      StoredWasSent(initial, received, front);
      SentVersionsAgree(initial, received, Replay(initial, front), last.bundle);
    }
  }

  lemma SuccessShows(before: Table, history: seq<Attempt>)
    requires history != [] && history[|history| - 1].ok && AttemptOk(before, history[|history| - 1])
    requires MayTrust(before, history[|history| - 1].bundle)
    ensures Shows(ApplyOps(history[|history| - 1].executed, before), history, history[|history| - 1].bundle)
  {
    hide ApplyOps, PlacementDiff, ComplianceDiff, ClusterDiff, SummaryDiff, VersionsAgree, ValidContents;
    var a := history[|history| - 1];
    var b := a.bundle;
    match b.contents
    case ClustersPerPolicy(objs) =>
      PlacementExact(before, b.hub, objs, a.executed);
      PlacementKeys(before, b.hub, objs);
    case ComplianceStatus(objs) =>
      ComplianceExact(before, b.hub, objs, a.executed);
      ComplianceTargetShows(before, history, b.hub, objs);
    case ManagedClusters(objs) =>
      ClusterExactIff(before, b.hub, objs, a.executed);
      ClusterTargetShows(before, b.hub, objs);
    case MinimalComplianceStatus(objs) =>
      SummaryExact(before, b.hub, objs, a.executed);
      SummaryTargetShows(before, b.hub, objs);
  }

  lemma ComplianceTargetShows(t: Table, history: seq<Attempt>, hub: string, objs: seq<PolicyCompliance>)
    requires WellTyped(t) && history != [] && Concerns(history[|history| - 1], hub, Compliances)
    ensures var target := ComplianceTarget(t, hub, objs);
      forall k | k in StatusRows(target, hub) ::
        StatusAt(target, k) == Some(if InsertedSince(history, k) then Unknown
                                    else ReportedStatus(objs, k.policy, k.cluster))
  {
  }

  lemma ClusterTargetShows(t: Table, hub: string, objs: seq<ManagedCluster>)
    ensures forall n :: PayloadAt(ClusterTarget(t, hub, objs), ClusterKey(hub, n)) == FindCluster(objs, n)
  {
    forall n ensures PayloadAt(ClusterTarget(t, hub, objs), ClusterKey(hub, n)) == FindCluster(objs, n) {
      FindClusterIs(objs, n);
      assert FindCluster(objs, n).Some? ==> ClusterKey(hub, n) in ClusterKeys(hub, objs);
    }
  }

  lemma SummaryTargetShows(t: Table, hub: string, objs: seq<MinimalCompliance>)
    ensures forall p :: Lookup(SummaryTarget(t, hub, objs), AggregateKey(hub, p)) == SummaryRow(objs, p)
  {
    forall p ensures Lookup(SummaryTarget(t, hub, objs), AggregateKey(hub, p)) == SummaryRow(objs, p) {
      FindSummaryIs(objs, p);
      assert FindSummary(objs, p).Some? ==> AggregateKey(hub, p) in SummaryKeys(hub, objs);
    }
  }

  // ---------------------------------------------------------------- other attempts

  /** An attempt of another hub or kind, complete or not, leaves the rows of a kind as they were shown. */
  lemma OthersKeepShown(before: Table, history: seq<Attempt>, b: Bundle)
    requires history != [] && AttemptOk(before, history[|history| - 1])
    requires !Concerns(history[|history| - 1], b.hub, KindOf(b.contents))
    requires Shows(before, history[..|history| - 1], b)
    ensures Shows(ApplyOps(history[|history| - 1].executed, before), history, b)
  {
    hide ApplyOps, Diff, StatusRows, Pairs;
    var a := history[|history| - 1];
    var after := ApplyOps(a.executed, before);
    match b.contents
    case ClustersPerPolicy(_) => PlacedKeysKept(before, a, b.hub);
    case ComplianceStatus(objs) => ShownStatusesKept(before, history, b);
    case ManagedClusters(_) =>
      forall n ensures Lookup(after, ClusterKey(b.hub, n)) == Lookup(before, ClusterKey(b.hub, n)) {
        OtherKindKeepsRow(before, a, ClusterKey(b.hub, n), Clusters);
      }
      assert forall n :: PayloadAt(after, ClusterKey(b.hub, n)) == PayloadAt(before, ClusterKey(b.hub, n));
    case MinimalComplianceStatus(_) =>
      forall p { OtherKindKeepsRow(before, a, AggregateKey(b.hub, p), Summaries); }
  }

  lemma PlacedKeysKept(before: Table, a: Attempt, hub: string)
    requires AttemptOk(before, a) && !Concerns(a, hub, Placements)
    ensures StatusRows(ApplyOps(a.executed, before), hub) == StatusRows(before, hub)
  {
    OnlyPlacementsChangeKeys(before, a, hub);
  }

  predicate RowOf(k: Key, kind: Kind) {
    match kind
    case Placements => k.ComplianceKey?
    case Compliances => k.ComplianceKey?
    case Clusters => k.ClusterKey?
    case Summaries => k.AggregateKey?
  }

  /** The operations of a bundle concern its own table only. */
  lemma DiffTable(t: Table, hub: string, contents: Contents, o: Op, k: Key)
    requires o in Diff(t, hub, contents) && Touches(o, k)
    ensures RowOf(k, KindOf(contents)) && k.hub == hub
  {
    DiffHub(t, hub, contents);
  }

  lemma OtherKindKeepsRow(before: Table, a: Attempt, k: Key, kind: Kind)
    requires AttemptOk(before, a) && (a.bundle.hub != k.hub || !RowOf(k, KindOf(a.bundle.contents)))
    ensures Lookup(ApplyOps(a.executed, before), k) == Lookup(before, k)
  {
    hide ApplyOps, Diff;
    forall o | o in a.executed ensures !Touches(o, k) {
      assert o in Elements(a.executed);
      if Touches(o, k) { DiffTable(before, a.bundle.hub, a.bundle.contents, o, k); }
    }
    UntouchedRow(a.executed, before, k);
  }

  lemma ShownStatusesKept(before: Table, history: seq<Attempt>, b: Bundle)
    requires history != [] && AttemptOk(before, history[|history| - 1])
    requires b.contents.ComplianceStatus? && !Concerns(history[|history| - 1], b.hub, Compliances)
    requires Shows(before, history[..|history| - 1], b)
    ensures Shows(ApplyOps(history[|history| - 1].executed, before), history, b)
  {
    hide ApplyOps, Diff;
    var a := history[|history| - 1];
    var after := ApplyOps(a.executed, before);
    forall k | k in StatusRows(after, b.hub)
      ensures StatusAt(after, k) == Some(if InsertedSince(history, k) then Unknown
                                         else ReportedStatus(b.contents.statuses, k.policy, k.cluster))
    {
      assert Lookup(after, k).Some?;
      if Concerns(a, b.hub, Placements) {
        PlacementOutcome(before, a, k);
        assert Inserts(a.executed, k) || k in StatusRows(before, b.hub);
      } else {
        OtherKindKeepsRow(before, a, k, Compliances);
        NoInserts(before, a, k);
        assert k in StatusRows(before, b.hub);
      }
    }
  }

  lemma NoInserts(before: Table, a: Attempt, k: Key)
    requires AttemptOk(before, a) && !Concerns(a, k.hub, Placements)
    ensures !Inserts(a.executed, k)
  {
    DiffHub(before, a.bundle.hub, a.bundle.contents);
    forall o | o in a.executed ensures !(o.InsertStatus? && Touches(o, k)) { assert o in Elements(a.executed); }
  }

  /** What a part of a placement batch does to a row that is there after it: inserted as unknown, or left as it was. */
  lemma PlacementOutcome(before: Table, a: Attempt, k: Key)
    requires AttemptOk(before, a) && a.bundle.contents.ClustersPerPolicy? && Lookup(ApplyOps(a.executed, before), k).Some?
    ensures Lookup(ApplyOps(a.executed, before), k) ==
            if Inserts(a.executed, k) then Some(ComplianceRow(ERROR_NONE, Unknown)) else Lookup(before, k)
  {
    hide ApplyOps, PlacementDiff;
    var objs := a.bundle.contents.placements;
    PlacementDiffCompatible(before, a.bundle.hub, objs);
    if o :| o in Elements(a.executed) && Touches(o, k) {
      PlacementTouch(before, a.bundle.hub, objs, o, k);
      TouchedRow(a.executed, before, k, o);
    } else {
      forall o | o in a.executed ensures !Touches(o, k) { assert o in Elements(a.executed); }
      UntouchedRow(a.executed, before, k);
    }
  }

  // ---------------------------------------------------------------- errors

  predicate EverInserted(history: seq<Attempt>, k: Key) {
    exists i | 0 <= i < |history| :: Inserts(history[i].executed, k)
  }

  /** The error of a row, from what it was: the operations that keep a row keep its error. */
  lemma {:induction false} ErrorThroughOps(ops: seq<Op>, t: Table, k: Key)
    requires k.ComplianceKey? && (Lookup(t, k).Some? ==> Lookup(t, k).value.ComplianceRow?)
    requires forall o | o in ops && o.InsertStatus? :: o.error == "none"
    ensures var after := Lookup(ApplyOps(ops, t), k);
      after.Some? ==>
        && after.value.ComplianceRow?
        && (if Inserts(ops, k) then after.value.error == "none"
            else Lookup(t, k).Some? && after.value.error == Lookup(t, k).value.error)
  {
    if ops != [] {
      var front, last := ops[..|ops| - 1], ops[|ops| - 1];
      assert ops == front + [last] && last in ops;
      ErrorThroughOps(front, t, k);
      var mid := ApplyOps(front, t);
      assert Lookup(ApplyOps(ops, t), k) == After(last, k, Lookup(mid, k));
    }
  }

  lemma InsertedWithoutError(t: Table, a: Attempt)
    requires AttemptOk(t, a)
    ensures forall o | o in a.executed && o.InsertStatus? :: o.error == "none"
  {
    forall o | o in a.executed && o.InsertStatus? ensures o.error == "none" { assert o in Elements(a.executed); }
  }

  /**
   Over any attempts, complete or not: a compliance row has the error it was inserted with, or, if it was there from
   the start and never inserted, the error it had then. Status updates never change it.
   */
  lemma {:induction false} ErrorsAreKept(initial: Table, history: seq<Attempt>, k: Key)
    requires Serial(initial, history) && WellTyped(initial) && k.ComplianceKey?
    ensures var row := Lookup(Replay(initial, history), k);
      row.Some? ==>
        && row.value.ComplianceRow?
        && (if EverInserted(history, k) then row.value.error == "none"
            else k in initial && initial[k].ComplianceRow? && row.value.error == initial[k].error)
  {
    hide Diff, ApplyOps, Inserts;
    if history != [] {
      var front, last := history[..|history| - 1], history[|history| - 1];
      ErrorsAreKept(initial, front, k);
      RowTyped(initial, front, k);
      InsertedWithoutError(Replay(initial, front), last);
      ErrorThroughOps(last.executed, Replay(initial, front), k);
      assert forall i | 0 <= i < |front| :: front[i] == history[i];
    }
  }

  lemma RowTyped(initial: Table, history: seq<Attempt>, k: Key)
    requires WellTyped(initial) && k.ComplianceKey?
    ensures Lookup(Replay(initial, history), k).Some? ==> Lookup(Replay(initial, history), k).value.ComplianceRow?
  {
    ReplayKeepsWellTyped(initial, history);
  }

  // ---------------------------------------------------------------- the tables of a state

  /** The newest bundle of the type was handled successfully, and the hub's rows of its kind are the bundle's. */
  ghost predicate ShowsNewest(s: State, hub: string, bundleType: string, kind: Kind) {
    match LastOf(s.history, hub, kind)
    case None => MaxGen(s.received, hub, bundleType) == 0
    case Some(a) =>
      && a.ok && a.bundle in s.received && a.bundle.generation == MaxGen(s.received, hub, bundleType)
      && Shows(s.db, s.history, a.bundle)
  }

  /** A type whose newest generation succeeded shows in the tables, whatever failed on the way. */
  lemma CaughtUpShows(setup: Setup, s: State, hub: string, bundleType: string, kind: Kind)
    requires Inv(setup, s) && s.db == Replay(setup.initial, s.history)
    requires Carries(s.received, bundleType, kind) && Trusted(setup.initial, s.received, kind)
    requires MaxOk(s.history, hub, bundleType) == MaxGen(s.received, hub, bundleType)
    ensures ShowsNewest(s, hub, bundleType, kind)
  {
    hide HubsOk, QueueOk, WorkersOk, JobsOk, DbOk, Serial, Ordered, WellFormed, Replay, MaxOk, MaxGen, Shows, Trusted,
      AllReceived, Carries;
    NewestIsLast(setup.cfg, s.received, s.history, hub, bundleType, kind);
    if LastOf(s.history, hub, kind).Some? {
      LastShows(setup.initial, s.received, s.history, hub, kind);
    }
  }
}
