/** The bundles a leaf hub sends, as the conflation and database layers see them. */
module Bundles {

  datatype Option<+T> = None | Some(value: T)

  /** The clusters one policy is placed on. */
  datatype PolicyClusters = PolicyClusters(policyId: string, clusters: seq<string>)

  /** The clusters of one policy that are not compliant; every other cluster is compliant. */
  datatype PolicyCompliance = PolicyCompliance(policyId: string, nonCompliant: seq<string>, unknown: seq<string>)

  /** A managed cluster resource: `body` stands for everything but name and version. */
  datatype ManagedCluster = ManagedCluster(name: string, resourceVersion: string, body: string)

  datatype MinimalCompliance = MinimalCompliance(policyId: string, appliedClusters: int, nonCompliantClusters: int)

  /** The full state carried by a bundle; its kind decides which handler runs. */
  datatype Contents =
    | ClustersPerPolicy(placements: seq<PolicyClusters>)
    | ComplianceStatus(statuses: seq<PolicyCompliance>)
    | ManagedClusters(clusters: seq<ManagedCluster>)
    | MinimalComplianceStatus(summaries: seq<MinimalCompliance>)

  /** `dependencyGeneration` is None for a bundle that is not a DependantBundle. */
  datatype Bundle = Bundle(
    bundleType: string,
    hub: string,
    generation: nat,
    dependencyGeneration: Option<nat>,
    contents: Contents)

  function Max(a: nat, b: nat): nat {
    if a < b then b else a
  }
}
