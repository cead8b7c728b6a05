/**
 What the handlers read: a leaf hub's rows, grouped as the queries' row loops group them. `delivered` is what the query
 delivered: as its error is dropped and an early end goes unnoticed, it may be a part of the table.
 */
module Snapshots {
  import opened Bundles
  import opened Tables
  import opened Diffs

  datatype NonCompliantClusterSets = NonCompliantClusterSets(nonCompliant: set<string>, unknown: set<string>)

  /** The clusters with a row, by policy. */
  ghost predicate IsPlacementSnapshot(t: Table, hub: string, rows: map<string, set<string>>) {
    && (forall p, c :: ComplianceKey(hub, p, c) in t <==> p in rows && c in rows[p])
    && (forall p | p in rows :: rows[p] != {})
  }

  /** The clusters that are not compliant, by policy and status. */
  ghost predicate IsComplianceSnapshot(t: Table, hub: string, rows: map<string, NonCompliantClusterSets>) {
    && (forall p, c :: StatusAt(t, ComplianceKey(hub, p, c)) == Some(NonCompliant) <==> p in rows && c in rows[p].nonCompliant)
    && (forall p, c :: StatusAt(t, ComplianceKey(hub, p, c)) == Some(Unknown) <==> p in rows && c in rows[p].unknown)
    && (forall p | p in rows :: rows[p].nonCompliant + rows[p].unknown != {})
  }

  ghost predicate IsVersionSnapshot(t: Table, hub: string, rows: map<string, string>) {
    forall n :: VersionAt(t, ClusterKey(hub, n)) == if n in rows then Some(rows[n]) else None
  }

  method GetComplianceStatusByLeafHub(delivered: Table, hub: string) returns (result: map<string, set<string>>)
    ensures IsPlacementSnapshot(delivered, hub, result)
  {
    result := map[];
    var rows := StatusRows(delivered, hub);
    while rows != {}
      invariant rows <= StatusRows(delivered, hub)
      invariant forall p, c :: (p in result && c in result[p]) <==>
                  ComplianceKey(hub, p, c) in delivered && ComplianceKey(hub, p, c) !in rows
      invariant forall p | p in result :: result[p] != {}
      decreases |rows|
    {
      var row :| row in rows;
      rows := rows - {row};
      assert row == ComplianceKey(hub, row.policy, row.cluster);
      if row.policy !in result {
        result := result[row.policy := {row.cluster}];
      } else {
        result := result[row.policy := result[row.policy] + {row.cluster}];
      }
    }
    forall p, c ensures ComplianceKey(hub, p, c) in delivered <==> p in result && c in result[p] {
    }
  }

  method GetNonCompliantClustersByLeafHub(delivered: Table, hub: string) returns (result: map<string, NonCompliantClusterSets>)
    requires WellTyped(delivered)
    ensures IsComplianceSnapshot(delivered, hub, result)
  {
    result := map[];
    var rows := NonCompliantRows(delivered, hub);
    while rows != {}
      invariant rows <= NonCompliantRows(delivered, hub)
      invariant forall p, c :: (p in result && c in result[p].nonCompliant) <==>
                  StatusAt(delivered, ComplianceKey(hub, p, c)) == Some(NonCompliant) && ComplianceKey(hub, p, c) !in rows
      invariant forall p, c :: (p in result && c in result[p].unknown) <==>
                  StatusAt(delivered, ComplianceKey(hub, p, c)) == Some(Unknown) && ComplianceKey(hub, p, c) !in rows
      invariant forall p | p in result :: result[p].nonCompliant + result[p].unknown != {}
      decreases |rows|
    {
      var row :| row in rows;
      rows := rows - {row};
      assert row == ComplianceKey(hub, row.policy, row.cluster);
      var sets := if row.policy in result then result[row.policy] else NonCompliantClusterSets({}, {});
      if delivered[row].status == NonCompliant {
        sets := sets.(nonCompliant := sets.nonCompliant + {row.cluster});
      } else if delivered[row].status == Unknown {
        sets := sets.(unknown := sets.unknown + {row.cluster});
      }
      result := result[row.policy := sets];
      assert row.cluster in sets.nonCompliant + sets.unknown;
    }
    forall p, c
      ensures StatusAt(delivered, ComplianceKey(hub, p, c)) == Some(NonCompliant) <==> p in result && c in result[p].nonCompliant
      ensures StatusAt(delivered, ComplianceKey(hub, p, c)) == Some(Unknown) <==> p in result && c in result[p].unknown
    {
    }
  }

  method GetManagedClustersByLeafHub(delivered: Table, hub: string) returns (result: map<string, string>)
    requires WellTyped(delivered)
    ensures IsVersionSnapshot(delivered, hub, result)
  {
    result := map[];
    var rows := ClusterRows(delivered, hub);
    while rows != {}
      invariant rows <= ClusterRows(delivered, hub)
      invariant forall n :: (if n in result then Some(result[n]) else None) ==
                  if ClusterKey(hub, n) in rows then None else VersionAt(delivered, ClusterKey(hub, n))
      decreases |rows|
    {
      var row :| row in rows;
      rows := rows - {row};
      assert row == ClusterKey(hub, row.name);
      result := result[row.name := delivered[row].payload.resourceVersion];
    }
  }

  method GetPolicyIDsByLeafHub(delivered: Table, hub: string) returns (result: set<string>)
    ensures forall p :: p in result <==> AggregateKey(hub, p) in delivered
  {
    var rows := AggregateRows(delivered, hub);
    result := {};
    while rows != {}
      invariant rows <= AggregateRows(delivered, hub)
      invariant forall p :: p in result <==> AggregateKey(hub, p) in delivered && AggregateKey(hub, p) !in rows
      decreases |rows|
    {
      var row :| row in rows;
      rows := rows - {row};
      assert row == AggregateKey(hub, row.policy);
      result := result + {row.policy};
    }
    forall p ensures p in result <==> AggregateKey(hub, p) in delivered {
    }
  }
}
