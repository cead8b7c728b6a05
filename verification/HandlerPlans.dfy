/** The step relation's handlers are the handlers: what they emit is what a handler may read itself to do. */
module HandlerPlans {
  import opened Bundles
  import opened Tables
  import opened Diffs
  import opened Statements
  import opened BatchBuilders
  import opened System
  import PoliciesDbSyncer
  import ClustersDbSyncer

  /** The handler of each kind of bundle emits exactly the differences. */
  method Handle(t: Table, hub: string, contents: Contents) returns (plan: seq<Op>)
    requires WellTyped(t) && ValidContents(contents)
    ensures Elements(plan) == Diff(t, hub, contents)
  {
    hide PlacementDiff, ComplianceDiff, ClusterDiff, SummaryDiff, BatchOps, Sound, WellTyped;
    match contents
    case ClustersPerPolicy(objs) =>
      var batch := PoliciesDbSyncer.HandleClustersPerPolicyBundle(t, hub, objs);
      plan := Performed(batch);
    case ComplianceStatus(objs) =>
      var batch := PoliciesDbSyncer.HandleComplianceBundle(t, hub, objs);
      plan := Performed(batch);
    case ManagedClusters(objs) =>
      var batch := ClustersDbSyncer.HandleManagedClustersBundle(t, hub, objs);
      plan := Performed(batch);
    case MinimalComplianceStatus(objs) =>
      var ok, t', ops := PoliciesDbSyncer.HandleMinimalComplianceBundle(t, hub, objs, None);
      plan := ops;
  }

  function Performed(batch: seq<Statement>): seq<Op>
    requires Sound(batch)
  {
    BatchOps(batch).value
  }

  /** So a worker that starts may take the step of the system with the plan its handler makes of the tables it finds. */
  method HandlerPlan(setup: Setup, s: State, w: nat) returns (plan: seq<Op>)
    requires w < |s.workers| && s.workers[w].pc.Started?
    requires WellTyped(s.db) && ValidContents(s.workers[w].pc.job.fetched.bundle.contents)
    ensures Enabled(setup, s, Read(w, plan))
  {
    hide Diff, WellTyped, ValidContents;
    var b := s.workers[w].pc.job.fetched.bundle;
    plan := Handle(s.db, b.hub, b.contents);
  }
}
