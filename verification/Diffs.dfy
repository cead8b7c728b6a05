/**
 What a handler must do: the differences between a full-state bundle and a leaf hub's rows, as a set of row
 operations, and the table that results. The two are defined independently and proved to agree.
 */
module Diffs {
  import opened Bundles
  import opened Tables

  const ERROR_NONE := "none"

  // ---------------------------------------------------------------- what a bundle must satisfy

  ghost predicate Distinct<T(!new)>(s: seq<T>) {
    forall i, j | 0 <= i < j < |s| :: s[i] != s[j]
  }

  /** Names are distinct within a bundle, and no cluster is reported both non-compliant and unknown. */
  ghost predicate ValidContents(contents: Contents) {
    match contents
    case ClustersPerPolicy(objs) =>
      && (forall i, j | 0 <= i < j < |objs| :: objs[i].policyId != objs[j].policyId)
      && (forall i | 0 <= i < |objs| :: Distinct(objs[i].clusters))
    case ComplianceStatus(objs) =>
      && (forall i, j | 0 <= i < j < |objs| :: objs[i].policyId != objs[j].policyId)
      && (forall i | 0 <= i < |objs| ::
            && Distinct(objs[i].nonCompliant) && Distinct(objs[i].unknown)
            && forall c | c in objs[i].nonCompliant :: c !in objs[i].unknown)
    case ManagedClusters(objs) =>
      forall i, j | 0 <= i < j < |objs| :: objs[i].name != objs[j].name
    case MinimalComplianceStatus(objs) =>
      forall i, j | 0 <= i < j < |objs| :: objs[i].policyId != objs[j].policyId
  }

  /** Every key holds a row of its own table. */
  ghost predicate WellTyped(t: Table) {
    forall k | k in t ::
      match k
      case ComplianceKey(_, _, _) => t[k].ComplianceRow?
      case ClusterKey(_, _) => t[k].ClusterRow?
      case AggregateKey(_, _) => t[k].AggregateRow?
  }

  lemma {:induction false} OpsKeepWellTyped(ops: seq<Op>, t: Table)
    requires WellTyped(t)
    ensures WellTyped(ApplyOps(ops, t))
  {
    if ops != [] {
      var before := ApplyOps(ops[..|ops| - 1], t);
      OpsKeepWellTyped(ops[..|ops| - 1], t);
      var after := ApplyOps(ops, t);
      forall k | k in after
        ensures match k
                case ComplianceKey(_, _, _) => after[k].ComplianceRow?
                case ClusterKey(_, _) => after[k].ClusterRow?
                case AggregateKey(_, _) => after[k].AggregateRow?
      {
        assert Lookup(after, k) == After(ops[|ops| - 1], k, Lookup(before, k));
      }
    }
  }

  function StatusRows(t: Table, hub: string): set<Key> {
    set k | k in t && k.ComplianceKey? && k.hub == hub
  }

  // ---------------------------------------------------------------- clusters per policy

  function Pairs(hub: string, objs: seq<PolicyClusters>): set<Key> {
    set i, c | 0 <= i < |objs| && c in objs[i].clusters :: ComplianceKey(hub, objs[i].policyId, c)
  }

  function PlacementPolicies(objs: seq<PolicyClusters>): set<string> {
    set i | 0 <= i < |objs| :: objs[i].policyId
  }

  /** Rows are only inserted or deleted; the status of a row that stays is another bundle's business. */
  function PlacementDiff(t: Table, hub: string, objs: seq<PolicyClusters>): set<Op> {
    (set k | k in Pairs(hub, objs) && k !in t && k.ComplianceKey? ::
       InsertStatus(hub, k.policy, k.cluster, ERROR_NONE, Unknown)) +
    (set k | k in StatusRows(t, hub) && k.policy in PlacementPolicies(objs) && k !in Pairs(hub, objs) ::
       DropClusterStatus(hub, k.policy, k.cluster)) +
    (set k | k in StatusRows(t, hub) && k.policy !in PlacementPolicies(objs) :: DropPolicy(hub, k.policy))
  }

  /** The hub's keys are the bundle's pairs; rows that stay are unchanged, new ones are unknown. */
  function PlacementTarget(t: Table, hub: string, objs: seq<PolicyClusters>): Table {
    map k | k in t.Keys + Pairs(hub, objs) && (k.ComplianceKey? && k.hub == hub ==> k in Pairs(hub, objs)) ::
      if k in t then t[k] else ComplianceRow(ERROR_NONE, Unknown)
  }

  lemma PairsPolicies(hub: string, objs: seq<PolicyClusters>)
    ensures forall k | k in Pairs(hub, objs) :: k.ComplianceKey? && k.hub == hub && k.policy in PlacementPolicies(objs)
  {
  }

  lemma PlacementDiffCompatible(t: Table, hub: string, objs: seq<PolicyClusters>)
    ensures Compatible(PlacementDiff(t, hub, objs))
    ensures forall o | o in PlacementDiff(t, hub, objs) :: o.hub == hub
  {
    PairsPolicies(hub, objs);
  }

  lemma PlacementTouch(t: Table, hub: string, objs: seq<PolicyClusters>, o: Op, k: Key)
    requires o in PlacementDiff(t, hub, objs) && Touches(o, k)
    ensures o.InsertStatus? || o.DropClusterStatus? || o.DropPolicy?
    ensures o.InsertStatus? ==> k in Pairs(hub, objs) && k !in t && o.error == ERROR_NONE && o.status == Unknown
    ensures !o.InsertStatus? ==> k !in Pairs(hub, objs)
  {
    PairsPolicies(hub, objs);
  }

  lemma PlacementOpFor(t: Table, hub: string, objs: seq<PolicyClusters>, k: Key) returns (o: Op)
    requires (k in Pairs(hub, objs) && k !in t) || (k in StatusRows(t, hub) && k !in Pairs(hub, objs))
    ensures o in PlacementDiff(t, hub, objs) && Touches(o, k)
  {
    PairsPolicies(hub, objs);
    o := if k !in t then InsertStatus(hub, k.policy, k.cluster, ERROR_NONE, Unknown)
         else if k.policy in PlacementPolicies(objs) then DropClusterStatus(hub, k.policy, k.cluster)
         else DropPolicy(hub, k.policy);
  }

  lemma PlacementExact(t: Table, hub: string, objs: seq<PolicyClusters>, ops: seq<Op>)
    requires Elements(ops) == PlacementDiff(t, hub, objs)
    ensures ApplyOps(ops, t) == PlacementTarget(t, hub, objs)
  {
    var target := PlacementTarget(t, hub, objs);
    PairsPolicies(hub, objs);
    PlacementDiffCompatible(t, hub, objs);
    forall k ensures Lookup(ApplyOps(ops, t), k) == Lookup(target, k) {
      if o :| o in Elements(ops) && Touches(o, k) {
        PlacementTouch(t, hub, objs, o, k);
        TouchedRow(ops, t, k, o);
      } else {
        forall o | o in ops ensures !Touches(o, k) { assert o in Elements(ops); }
        UntouchedRow(ops, t, k);
        if (k in Pairs(hub, objs) && k !in t) || (k in StatusRows(t, hub) && k !in Pairs(hub, objs)) {
          var o := PlacementOpFor(t, hub, objs, k);
          assert o in Elements(ops);
        }
      }
    }
    SameRowsEqual(ApplyOps(ops, t), target);
  }

  /** Row by row: rows that stay are as they were, new ones unknown and without error, and no other table is touched. */
  lemma PlacementRowsExact(t: Table, hub: string, objs: seq<PolicyClusters>, ops: seq<Op>)
    requires Elements(ops) == PlacementDiff(t, hub, objs)
    ensures StatusRows(ApplyOps(ops, t), hub) == Pairs(hub, objs)
    ensures forall k | k in Pairs(hub, objs) ::
              ApplyOps(ops, t)[k] == if k in t then t[k] else ComplianceRow("none", Unknown)
    ensures forall k: Key | !(k.ComplianceKey? && k.hub == hub) :: Lookup(ApplyOps(ops, t), k) == Lookup(t, k)
  {
    hide PlacementDiff, ApplyOps, Pairs;
    PairsPolicies(hub, objs);
    PlacementExact(t, hub, objs, ops);
  }

  /** Every inserted row is new: no INSERT meets an existing row. */
  lemma PlacementInsertsAreNew(t: Table, hub: string, objs: seq<PolicyClusters>)
    ensures forall o, k | o in PlacementDiff(t, hub, objs) && k in Created(o) :: k !in t
  {
  }

  // ---------------------------------------------------------------- compliance status

  function FindStatus(objs: seq<PolicyCompliance>, policy: string): Option<PolicyCompliance> {
    if objs == [] then None
    else if objs[0].policyId == policy then Some(objs[0])
    else FindStatus(objs[1..], policy)
  }

  lemma {:induction false} FindStatusIs(objs: seq<PolicyCompliance>, policy: string)
    ensures match FindStatus(objs, policy)
            case None => forall i | 0 <= i < |objs| :: objs[i].policyId != policy
            case Some(o) => o in objs && o.policyId == policy
    ensures ValidContents(ComplianceStatus(objs)) ==>
              forall i | 0 <= i < |objs| && objs[i].policyId == policy :: FindStatus(objs, policy) == Some(objs[i])
  {
    if objs != [] {
      FindStatusIs(objs[1..], policy);
      if objs[0].policyId != policy {
        forall i | 0 <= i < |objs| && objs[i].policyId == policy
          ensures ValidContents(ComplianceStatus(objs)) ==> FindStatus(objs, policy) == Some(objs[i])
        {
          assert objs[i] == objs[1..][i - 1];
        }
      }
    }
  }

  /** A cluster is compliant unless the bundle lists it; a policy missing from the bundle is all compliant. */
  function ReportedStatus(objs: seq<PolicyCompliance>, policy: string, cluster: string): Status {
    match FindStatus(objs, policy)
    case None => Compliant
    case Some(o) => if cluster in o.nonCompliant then NonCompliant else if cluster in o.unknown then Unknown else Compliant
  }

  /** In terms of the bundle's lists: non-compliant and unknown as listed under the policy, compliant otherwise. */
  lemma ReportedMeans(objs: seq<PolicyCompliance>, policy: string, cluster: string)
    requires ValidContents(ComplianceStatus(objs))
    ensures ReportedStatus(objs, policy, cluster) == NonCompliant <==>
            exists i :: 0 <= i < |objs| && objs[i].policyId == policy && cluster in objs[i].nonCompliant
    ensures ReportedStatus(objs, policy, cluster) == Unknown <==>
            exists i :: 0 <= i < |objs| && objs[i].policyId == policy && cluster in objs[i].unknown
  {
    FindStatusIs(objs, policy);
    if FindStatus(objs, policy).Some? {
      var i :| 0 <= i < |objs| && objs[i] == FindStatus(objs, policy).value;
    }
  }

  function StatusAt(t: Table, k: Key): Option<Status> {
    if k in t && t[k].ComplianceRow? then Some(t[k].status) else None
  }

  /** The rows GetNonCompliantClustersByLeafHub selects. */
  function NonCompliantRows(t: Table, hub: string): set<Key> {
    set k | k in StatusRows(t, hub) && StatusAt(t, k) != Some(Compliant)
  }

  function ComplianceDiff(t: Table, hub: string, objs: seq<PolicyCompliance>): set<Op> {
    (set i, c | 0 <= i < |objs| && c in objs[i].nonCompliant &&
                StatusAt(t, ComplianceKey(hub, objs[i].policyId, c)) != Some(NonCompliant) ::
       SetClusterStatus(hub, objs[i].policyId, c, NonCompliant)) +
    (set i, c | 0 <= i < |objs| && c in objs[i].unknown &&
                StatusAt(t, ComplianceKey(hub, objs[i].policyId, c)) != Some(Unknown) ::
       SetClusterStatus(hub, objs[i].policyId, c, Unknown)) +
    (set k | k in NonCompliantRows(t, hub) && FindStatus(objs, k.policy).Some? &&
             ReportedStatus(objs, k.policy, k.cluster) == Compliant ::
       SetClusterStatus(hub, k.policy, k.cluster, Compliant)) +
    (set k | k in NonCompliantRows(t, hub) && FindStatus(objs, k.policy).None? :: SetPolicyStatus(hub, k.policy, Compliant))
  }

  function ComplianceTarget(t: Table, hub: string, objs: seq<PolicyCompliance>): Table {
    map k | k in t ::
      if k.ComplianceKey? && k.hub == hub then WithStatus(t[k], ReportedStatus(objs, k.policy, k.cluster)) else t[k]
  }

  /** A cluster update carries the status the bundle reports for the cluster, a policy update says compliant. */
  predicate ReportsStatus(hub: string, objs: seq<PolicyCompliance>, o: Op) {
    o.hub == hub &&
    match o
    case SetClusterStatus(_, p, c, s) => FindStatus(objs, p).Some? && s == ReportedStatus(objs, p, c)
    case SetPolicyStatus(_, p, s) => FindStatus(objs, p).None? && s == Compliant
    case _ => false
  }

  lemma ComplianceOpsReport(t: Table, hub: string, objs: seq<PolicyCompliance>)
    requires ValidContents(ComplianceStatus(objs))
    ensures forall o | o in ComplianceDiff(t, hub, objs) :: ReportsStatus(hub, objs, o)
  {
    forall o | o in ComplianceDiff(t, hub, objs) ensures ReportsStatus(hub, objs, o) {
      FindStatusIs(objs, o.policy);
    }
  }

  lemma ComplianceDiffCompatible(t: Table, hub: string, objs: seq<PolicyCompliance>)
    requires ValidContents(ComplianceStatus(objs))
    ensures Compatible(ComplianceDiff(t, hub, objs))
  {
    ComplianceOpsReport(t, hub, objs);
  }

  /** A row whose status differs from the reported one is updated, although compliant rows are never read. */
  lemma ComplianceOpFor(t: Table, hub: string, objs: seq<PolicyCompliance>, k: Key) returns (o: Op)
    requires ValidContents(ComplianceStatus(objs)) && WellTyped(t)
    requires k in StatusRows(t, hub) && t[k].status != ReportedStatus(objs, k.policy, k.cluster)
    ensures o in ComplianceDiff(t, hub, objs) && Touches(o, k)
  {
    FindStatusIs(objs, k.policy);
    match FindStatus(objs, k.policy)
    case None =>
      o := SetPolicyStatus(hub, k.policy, Compliant);
      assert k in NonCompliantRows(t, hub);
    case Some(r) =>
      var i :| 0 <= i < |objs| && objs[i] == r;
      o := SetClusterStatus(hub, k.policy, k.cluster, ReportedStatus(objs, k.policy, k.cluster));
      if ReportedStatus(objs, k.policy, k.cluster) == Compliant {
        assert k in NonCompliantRows(t, hub);
      } else {
        assert StatusAt(t, ComplianceKey(hub, objs[i].policyId, k.cluster)) == Some(t[k].status);
      }
  }

  lemma ComplianceExact(t: Table, hub: string, objs: seq<PolicyCompliance>, ops: seq<Op>)
    requires ValidContents(ComplianceStatus(objs)) && WellTyped(t)
    requires Elements(ops) == ComplianceDiff(t, hub, objs)
    ensures ApplyOps(ops, t) == ComplianceTarget(t, hub, objs)
  {
    var target := ComplianceTarget(t, hub, objs);
    ComplianceDiffCompatible(t, hub, objs);
    ComplianceOpsReport(t, hub, objs);
    forall k ensures Lookup(ApplyOps(ops, t), k) == Lookup(target, k) {
      if k in StatusRows(t, hub) && t[k].status != ReportedStatus(objs, k.policy, k.cluster) {
        var o := ComplianceOpFor(t, hub, objs, k);
        assert o in Elements(ops);
        TouchedRow(ops, t, k, o);
      } else if o :| o in Elements(ops) && Touches(o, k) {
        TouchedRow(ops, t, k, o);
      } else {
        forall o | o in ops ensures !Touches(o, k) { assert o in Elements(ops); }
        UntouchedRow(ops, t, k);
      }
    }
    SameRowsEqual(ApplyOps(ops, t), target);
  }

  /** Row by row: the reported status beside the error that was there, the same rows, and nothing else touched. */
  lemma ComplianceRowsExact(t: Table, hub: string, objs: seq<PolicyCompliance>, ops: seq<Op>)
    requires ValidContents(ComplianceStatus(objs)) && WellTyped(t)
    requires Elements(ops) == ComplianceDiff(t, hub, objs)
    ensures ApplyOps(ops, t).Keys == t.Keys
    ensures forall k | k in StatusRows(t, hub) ::
              t[k].ComplianceRow? &&
              ApplyOps(ops, t)[k] == ComplianceRow(t[k].error, ReportedStatus(objs, k.policy, k.cluster))
    ensures forall k | k in t && k !in StatusRows(t, hub) :: ApplyOps(ops, t)[k] == t[k]
  {
    hide ComplianceDiff, ApplyOps;
    ComplianceExact(t, hub, objs, ops);
  }

  // ---------------------------------------------------------------- managed clusters

  function FindCluster(objs: seq<ManagedCluster>, name: string): Option<ManagedCluster> {
    if objs == [] then None
    else if objs[0].name == name then Some(objs[0])
    else FindCluster(objs[1..], name)
  }

  lemma {:induction false} FindClusterIs(objs: seq<ManagedCluster>, name: string)
    ensures match FindCluster(objs, name)
            case None => forall i | 0 <= i < |objs| :: objs[i].name != name
            case Some(o) => o in objs && o.name == name
    ensures ValidContents(ManagedClusters(objs)) ==>
              forall i | 0 <= i < |objs| && objs[i].name == name :: FindCluster(objs, name) == Some(objs[i])
  {
    if objs != [] {
      FindClusterIs(objs[1..], name);
      if objs[0].name != name {
        forall i | 0 <= i < |objs| && objs[i].name == name
          ensures ValidContents(ManagedClusters(objs)) ==> FindCluster(objs, name) == Some(objs[i])
        {
          assert objs[i] == objs[1..][i - 1];
        }
      }
    }
  }

  function ClusterRows(t: Table, hub: string): set<Key> {
    set k | k in t && k.ClusterKey? && k.hub == hub
  }

  /** The resourceVersion GetManagedClustersByLeafHub reads for a cluster. */
  function VersionAt(t: Table, k: Key): Option<string> {
    if k in t && t[k].ClusterRow? then Some(t[k].payload.resourceVersion) else None
  }

  function ClusterDiff(t: Table, hub: string, objs: seq<ManagedCluster>): set<Op> {
    (set o | o in objs && VersionAt(t, ClusterKey(hub, o.name)).None? :: InsertCluster(hub, o, ERROR_NONE)) +
    (set o | o in objs && VersionAt(t, ClusterKey(hub, o.name)).Some? &&
             VersionAt(t, ClusterKey(hub, o.name)).value != o.resourceVersion :: UpdateCluster(hub, o.name, o)) +
    (set k | k in ClusterRows(t, hub) && FindCluster(objs, k.name).None? :: DropCluster(hub, k.name))
  }

  /** Names and payloads are the bundle's; a row that stays keeps its error column. */
  function ClusterTarget(t: Table, hub: string, objs: seq<ManagedCluster>): Table {
    (map k | k in t && !(k.ClusterKey? && k.hub == hub) :: t[k]) +
    (map k | k in ClusterKeys(hub, objs) && k.ClusterKey? && FindCluster(objs, k.name).Some? ::
       ClusterRow(FindCluster(objs, k.name).value, if k in t && t[k].ClusterRow? then t[k].error else ERROR_NONE))
  }

  function ClusterKeys(hub: string, objs: seq<ManagedCluster>): set<Key> {
    set o | o in objs :: ClusterKey(hub, o.name)
  }

  /** A stored payload with the resourceVersion the bundle sends is the payload the bundle sends. */
  ghost predicate VersionsAgree(t: Table, hub: string, objs: seq<ManagedCluster>) {
    forall o | o in objs && VersionAt(t, ClusterKey(hub, o.name)) == Some(o.resourceVersion) ::
      t[ClusterKey(hub, o.name)].payload == o
  }

  /** Only new names are inserted, and an update is emitted exactly for another resourceVersion of a known name. */
  predicate CarriesCluster(t: Table, hub: string, objs: seq<ManagedCluster>, o: Op) {
    o.hub == hub &&
    match o
    case InsertCluster(_, c, e) =>
      && FindCluster(objs, c.name) == Some(c) && e == ERROR_NONE
      && VersionAt(t, ClusterKey(hub, c.name)).None?
    case UpdateCluster(_, n, c) =>
      && FindCluster(objs, n) == Some(c) && n == c.name
      && VersionAt(t, ClusterKey(hub, n)).Some?
      && VersionAt(t, ClusterKey(hub, n)) != Some(c.resourceVersion)
    case DropCluster(_, n) => FindCluster(objs, n).None?
    case _ => false
  }

  lemma ClusterOps(t: Table, hub: string, objs: seq<ManagedCluster>)
    requires ValidContents(ManagedClusters(objs))
    ensures forall o | o in ClusterDiff(t, hub, objs) :: CarriesCluster(t, hub, objs, o)
  {
    forall o | o in ClusterDiff(t, hub, objs) ensures CarriesCluster(t, hub, objs, o) {
      if o.InsertCluster? || o.UpdateCluster? {
        FindClusterIs(objs, o.payload.name);
      }
    }
  }

  lemma ClusterDiffCompatible(t: Table, hub: string, objs: seq<ManagedCluster>)
    requires ValidContents(ManagedClusters(objs))
    ensures Compatible(ClusterDiff(t, hub, objs))
  {
    hide ClusterDiff;
    ClusterOps(t, hub, objs);
  }

  /** A touched row gets what the bundle says. */
  lemma ClusterTouched(t: Table, hub: string, objs: seq<ManagedCluster>, o: Op, k: Key)
    requires ValidContents(ManagedClusters(objs)) && WellTyped(t)
    requires o in ClusterDiff(t, hub, objs) && Touches(o, k)
    ensures Effect(o, Lookup(t, k)) == Lookup(ClusterTarget(t, hub, objs), k)
  {
    ClusterOps(t, hub, objs);
    FindClusterIs(objs, k.name);
    if !o.DropCluster? {
      assert k in ClusterKeys(hub, objs);
    }
  }

  /** A row of the hub that no operation speaks about already has the version the bundle sends. */
  lemma ClusterUntouched(t: Table, hub: string, objs: seq<ManagedCluster>, k: Key)
    requires ValidContents(ManagedClusters(objs)) && WellTyped(t)
    requires forall o | o in ClusterDiff(t, hub, objs) :: !Touches(o, k)
    ensures k in ClusterRows(t, hub) ==>
              && FindCluster(objs, k.name).Some?
              && FindCluster(objs, k.name).value.resourceVersion == t[k].payload.resourceVersion
    ensures k !in t ==> k !in ClusterKeys(hub, objs)
  {
    if k.ClusterKey? && k.hub == hub {
      FindClusterIs(objs, k.name);
      if VersionAt(t, k) != FoundVersion(objs, k.name) {
        var o := ClusterOpFor(t, hub, objs, k);
      }
    }
  }

  function FoundVersion(objs: seq<ManagedCluster>, name: string): Option<string> {
    match FindCluster(objs, name)
    case None => None
    case Some(c) => Some(c.resourceVersion)
  }

  lemma ClusterOpFor(t: Table, hub: string, objs: seq<ManagedCluster>, k: Key) returns (o: Op)
    requires ValidContents(ManagedClusters(objs)) && WellTyped(t)
    requires k.ClusterKey? && k.hub == hub && VersionAt(t, k) != FoundVersion(objs, k.name)
    ensures o in ClusterDiff(t, hub, objs) && Touches(o, k)
  {
    FindClusterIs(objs, k.name);
    match FindCluster(objs, k.name)
    case None => o := DropCluster(hub, k.name);
    case Some(c) => o := if k !in t then InsertCluster(hub, c, ERROR_NONE) else UpdateCluster(hub, c.name, c);
  }

  /** The stored payload of k may differ from the bundle's only under an equal resourceVersion. */
  ghost predicate RowAgrees(t: Table, hub: string, objs: seq<ManagedCluster>, k: Key) {
    k in ClusterRows(t, hub) && t[k].ClusterRow? && FindCluster(objs, k.name).Some? &&
    FindCluster(objs, k.name).value.resourceVersion == t[k].payload.resourceVersion ==>
      FindCluster(objs, k.name).value == t[k].payload
  }

  lemma ClusterRowOutcome(t: Table, hub: string, objs: seq<ManagedCluster>, ops: seq<Op>, k: Key)
    requires ValidContents(ManagedClusters(objs)) && WellTyped(t)
    requires Elements(ops) == ClusterDiff(t, hub, objs)
    ensures Lookup(ApplyOps(ops, t), k) == Lookup(ClusterTarget(t, hub, objs), k) <==> RowAgrees(t, hub, objs, k)
  {
    ClusterDiffCompatible(t, hub, objs);
    ClusterOps(t, hub, objs);
    hide ClusterDiff;
    if o :| o in Elements(ops) && Touches(o, k) {
      TouchedRow(ops, t, k, o);
      ClusterTouched(t, hub, objs, o, k);
    } else {
      forall o | o in ops ensures !Touches(o, k) { assert o in Elements(ops); }
      UntouchedRow(ops, t, k);
      ClusterUntouched(t, hub, objs, k);
      if k.ClusterKey? { FindClusterIs(objs, k.name); }
    }
  }

  /**
   The managed clusters rows become exactly the bundle's if and only if equal resource versions mean equal payloads:
   that is all the comparison looks at.
   */
  lemma ClusterExactIff(t: Table, hub: string, objs: seq<ManagedCluster>, ops: seq<Op>)
    requires ValidContents(ManagedClusters(objs)) && WellTyped(t)
    requires Elements(ops) == ClusterDiff(t, hub, objs)
    ensures ApplyOps(ops, t) == ClusterTarget(t, hub, objs) <==> VersionsAgree(t, hub, objs)
  {
    hide ClusterDiff, ClusterTarget, ApplyOps;
    VersionsAgreeByRow(t, hub, objs);
    forall k { ClusterRowOutcome(t, hub, objs, ops, k); }
    if VersionsAgree(t, hub, objs) {
      SameRowsEqual(ApplyOps(ops, t), ClusterTarget(t, hub, objs));
    }
  }

  lemma VersionsAgreeByRow(t: Table, hub: string, objs: seq<ManagedCluster>)
    requires ValidContents(ManagedClusters(objs)) && WellTyped(t)
    ensures VersionsAgree(t, hub, objs) <==> forall k :: RowAgrees(t, hub, objs, k)
  {
    forall k | k in ClusterRows(t, hub) { FindClusterIs(objs, k.name); }
    forall o | o in objs { FindClusterIs(objs, o.name); }
    if VersionsAgree(t, hub, objs) {
      forall k ensures RowAgrees(t, hub, objs, k) {
        assert k.ClusterKey? && k.hub == hub ==> k == ClusterKey(hub, k.name);
      }
    } else {
      var o :| o in objs && VersionAt(t, ClusterKey(hub, o.name)) == Some(o.resourceVersion)
               && t[ClusterKey(hub, o.name)].payload != o;
      assert !RowAgrees(t, hub, objs, ClusterKey(hub, o.name));
    }
  }

  // ---------------------------------------------------------------- minimal compliance

  function FindSummary(objs: seq<MinimalCompliance>, policy: string): Option<MinimalCompliance> {
    if objs == [] then None
    else if objs[0].policyId == policy then Some(objs[0])
    else FindSummary(objs[1..], policy)
  }

  lemma {:induction false} FindSummaryIs(objs: seq<MinimalCompliance>, policy: string)
    ensures match FindSummary(objs, policy)
            case None => forall i | 0 <= i < |objs| :: objs[i].policyId != policy
            case Some(o) => o in objs && o.policyId == policy
    ensures ValidContents(MinimalComplianceStatus(objs)) ==>
              forall i | 0 <= i < |objs| && objs[i].policyId == policy :: FindSummary(objs, policy) == Some(objs[i])
  {
    if objs != [] {
      FindSummaryIs(objs[1..], policy);
      if objs[0].policyId != policy {
        forall i | 0 <= i < |objs| && objs[i].policyId == policy
          ensures ValidContents(MinimalComplianceStatus(objs)) ==> FindSummary(objs, policy) == Some(objs[i])
        {
          assert objs[i] == objs[1..][i - 1];
        }
      }
    }
  }

  function AggregateRows(t: Table, hub: string): set<Key> {
    set k | k in t && k.AggregateKey? && k.hub == hub
  }

  /** Every summary is written; policies of the table that are not in the bundle are deleted. */
  function SummaryDiff(t: Table, hub: string, objs: seq<MinimalCompliance>): set<Op> {
    (set o | o in objs :: UpsertAggregate(hub, o.policyId, o.appliedClusters, o.nonCompliantClusters)) +
    (set k | k in AggregateRows(t, hub) && FindSummary(objs, k.policy).None? :: DropAggregate(hub, k.policy))
  }

  function SummaryKeys(hub: string, objs: seq<MinimalCompliance>): set<Key> {
    set o | o in objs :: AggregateKey(hub, o.policyId)
  }

  function SummaryTarget(t: Table, hub: string, objs: seq<MinimalCompliance>): Table {
    (map k | k in t && !(k.AggregateKey? && k.hub == hub) :: t[k]) +
    (map k | k in SummaryKeys(hub, objs) && k.AggregateKey? && FindSummary(objs, k.policy).Some? ::
       AggregateRow(FindSummary(objs, k.policy).value.appliedClusters,
                    FindSummary(objs, k.policy).value.nonCompliantClusters))
  }

  predicate CarriesSummary(hub: string, objs: seq<MinimalCompliance>, o: Op) {
    o.hub == hub &&
    match o
    case UpsertAggregate(_, p, a, n) => FindSummary(objs, p) == Some(MinimalCompliance(p, a, n))
    case DropAggregate(_, p) => FindSummary(objs, p).None?
    case _ => false
  }

  lemma SummaryOps(t: Table, hub: string, objs: seq<MinimalCompliance>)
    requires ValidContents(MinimalComplianceStatus(objs))
    ensures forall o | o in SummaryDiff(t, hub, objs) :: CarriesSummary(hub, objs, o)
  {
    forall o | o in SummaryDiff(t, hub, objs) ensures CarriesSummary(hub, objs, o) {
      FindSummaryIs(objs, o.policy);
    }
  }

  lemma SummaryDiffCompatible(t: Table, hub: string, objs: seq<MinimalCompliance>)
    requires ValidContents(MinimalComplianceStatus(objs))
    ensures Compatible(SummaryDiff(t, hub, objs))
  {
    SummaryOps(t, hub, objs);
  }

  lemma SummaryTouched(t: Table, hub: string, objs: seq<MinimalCompliance>, o: Op, k: Key)
    requires ValidContents(MinimalComplianceStatus(objs))
    requires o in SummaryDiff(t, hub, objs) && Touches(o, k)
    ensures Effect(o, Lookup(t, k)) == Lookup(SummaryTarget(t, hub, objs), k)
  {
    SummaryOps(t, hub, objs);
    FindSummaryIs(objs, k.policy);
    if o.UpsertAggregate? {
      assert k in SummaryKeys(hub, objs);
    }
  }

  lemma SummaryUntouched(t: Table, hub: string, objs: seq<MinimalCompliance>, k: Key)
    requires ValidContents(MinimalComplianceStatus(objs))
    requires forall o | o in SummaryDiff(t, hub, objs) :: !Touches(o, k)
    ensures Lookup(SummaryTarget(t, hub, objs), k) == Lookup(t, k)
  {
    if k.AggregateKey? && k.hub == hub && (k in t || FindSummary(objs, k.policy).Some?) {
      var o := SummaryOpFor(t, hub, objs, k);
    }
  }

  lemma SummaryOpFor(t: Table, hub: string, objs: seq<MinimalCompliance>, k: Key) returns (o: Op)
    requires k.AggregateKey? && k.hub == hub && (k in t || FindSummary(objs, k.policy).Some?)
    ensures o in SummaryDiff(t, hub, objs) && Touches(o, k)
  {
    FindSummaryIs(objs, k.policy);
    match FindSummary(objs, k.policy)
    case None => o := DropAggregate(hub, k.policy);
    case Some(s) => o := UpsertAggregate(hub, s.policyId, s.appliedClusters, s.nonCompliantClusters);
  }

  lemma SummaryExact(t: Table, hub: string, objs: seq<MinimalCompliance>, ops: seq<Op>)
    requires ValidContents(MinimalComplianceStatus(objs))
    requires Elements(ops) == SummaryDiff(t, hub, objs)
    ensures ApplyOps(ops, t) == SummaryTarget(t, hub, objs)
  {
    hide SummaryDiff, SummaryTarget;
    SummaryDiffCompatible(t, hub, objs);
    forall k ensures Lookup(ApplyOps(ops, t), k) == Lookup(SummaryTarget(t, hub, objs), k) {
      if o :| o in Elements(ops) && Touches(o, k) {
        TouchedRow(ops, t, k, o);
        SummaryTouched(t, hub, objs, o, k);
      } else {
        forall o | o in ops ensures !Touches(o, k) { assert o in Elements(ops); }
        UntouchedRow(ops, t, k);
        SummaryUntouched(t, hub, objs, k);
      }
    }
    SameRowsEqual(ApplyOps(ops, t), SummaryTarget(t, hub, objs));
  }

  // ---------------------------------------------------------------- all bundles

  function Diff(t: Table, hub: string, contents: Contents): set<Op> {
    match contents
    case ClustersPerPolicy(objs) => PlacementDiff(t, hub, objs)
    case ComplianceStatus(objs) => ComplianceDiff(t, hub, objs)
    case ManagedClusters(objs) => ClusterDiff(t, hub, objs)
    case MinimalComplianceStatus(objs) => SummaryDiff(t, hub, objs)
  }

  function Target(t: Table, hub: string, contents: Contents): Table {
    match contents
    case ClustersPerPolicy(objs) => PlacementTarget(t, hub, objs)
    case ComplianceStatus(objs) => ComplianceTarget(t, hub, objs)
    case ManagedClusters(objs) => ClusterTarget(t, hub, objs)
    case MinimalComplianceStatus(objs) => SummaryTarget(t, hub, objs)
  }

  ghost predicate Comparable(t: Table, hub: string, contents: Contents) {
    contents.ManagedClusters? ==> VersionsAgree(t, hub, contents.clusters)
  }

  lemma DiffCompatible(t: Table, hub: string, contents: Contents)
    requires ValidContents(contents)
    ensures Compatible(Diff(t, hub, contents))
    ensures forall o | o in Diff(t, hub, contents) :: o.hub == hub
  {
    match contents
    case ClustersPerPolicy(objs) => PlacementDiffCompatible(t, hub, objs);
    case ComplianceStatus(objs) => ComplianceDiffCompatible(t, hub, objs); ComplianceOpsReport(t, hub, objs);
    case ManagedClusters(objs) => ClusterDiffCompatible(t, hub, objs); ClusterOps(t, hub, objs);
    case MinimalComplianceStatus(objs) => SummaryDiffCompatible(t, hub, objs); SummaryOps(t, hub, objs);
  }

  /** Running all the differences, in any order, makes the table agree with the bundle. */
  lemma DiffExact(t: Table, hub: string, contents: Contents, ops: seq<Op>)
    requires ValidContents(contents) && WellTyped(t) && Comparable(t, hub, contents)
    requires Elements(ops) == Diff(t, hub, contents)
    ensures ApplyOps(ops, t) == Target(t, hub, contents)
  {
    match contents
    case ClustersPerPolicy(objs) => PlacementExact(t, hub, objs, ops);
    case ComplianceStatus(objs) => ComplianceExact(t, hub, objs, ops);
    case ManagedClusters(objs) => ClusterExactIff(t, hub, objs, ops);
    case MinimalComplianceStatus(objs) => SummaryExact(t, hub, objs, ops);
  }
}
