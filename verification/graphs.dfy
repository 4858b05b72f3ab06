// The graph both projections read: typed nodes filed under their ids, and
// edges between ids that need not be loaded.
module Graphs {
  import opened Common
  import opened Figures

  datatype Kind = Pod | K8sNode | PVC | Service | External | NetAppAggr | NetAppNode | NetAppSVM

  // The workload that owns a pod, where one was resolved.
  datatype Workload = Workload(kind: string, name: string)

  datatype Node = Node(
    id: string,
    name: string,
    kind: Kind,
    labels: map<string, string>,
    application: string,
    owner: Option<Workload>)

  datatype EdgeType =
    | PodCallsPod
    | PodCallsService
    | ServiceSelectsPod
    | PodMountsPVC
    | PodToNode
    | PVCToNetAppAggr
    | StorageFlow

  datatype Edge = Edge(kind: EdgeType, source: string, target: string, labels: map<string, string>, io: Option<IOMetrics>)

  // rawNames maps a composed cluster identity to the name the upstream used.
  datatype Graph = Graph(nodes: map<string, Node>, edges: seq<Edge>, rawNames: map<string, string>)

  // A missing label reads as the empty string.
  function Label(labels: map<string, string>, key: string): string {
    if key in labels then labels[key] else ""
  }

  function RawName(g: Graph, cluster: string): string {
    if cluster in g.rawNames then g.rawNames[cluster] else cluster
  }

  // A composed identity reads as the name it was composed from, and a name that
  // is no identity as itself.
  lemma RawNameIs(g: Graph, identity: string, raw: string)
    ensures RawName(g.(rawNames := g.rawNames[identity := raw]), identity) == raw
    ensures identity !in g.rawNames ==> RawName(g, identity) == identity
  {
  }

  // Every node is filed under its own id.
  ghost predicate Keyed(g: Graph) {
    forall id :: id in g.nodes ==> g.nodes[id].id == id
  }

  // ---- ids ----

  function PodID(cluster: string, uid: string): string {
    cluster + "/" + uid
  }

  function K8sNodeID(cluster: string, name: string): string {
    cluster + "/" + name
  }

  function PVCID(cluster: string, ns: string, claim: string): string {
    cluster + "/" + ns + "/" + claim
  }

  function ServiceID(cluster: string, ns: string, service: string): string {
    cluster + "/" + ns + "/" + service
  }

  function NetAppAggrID(ontapCluster: string, aggr: string): string {
    "netapp/" + ontapCluster + "/aggr/" + aggr
  }

  function NetAppNodeID(ontapCluster: string, node: string): string {
    "netapp/" + ontapCluster + "/" + node
  }

  function NetAppSVMID(ontapCluster: string, svm: string): string {
    "netapp/" + ontapCluster + "/svm/" + svm
  }

  function ExternalID(value: string): string {
    "external/" + value
  }

  // An external destination is identified by its whole label, after a prefix.
  lemma ExternalIs(value: string)
    ensures |ExternalID(value)| == 9 + |value| && ExternalID(value)[..9] == "external/" && ExternalID(value)[9..] == value
  {
  }

  // The id of an aggregate's owning controller, or the empty string.
  function OwnerID(n: Node): string {
    var oc, node := Label(n.labels, "ontap_cluster"), Label(n.labels, "node");
    if n.kind == NetAppAggr && oc != "" && node != "" then NetAppNodeID(oc, node) else ""
  }

  // The owning controllers, where loaded, of the aggregates among ids.
  function Owners(g: Graph, ids: set<string>): set<string> {
    set id | id in ids && id in g.nodes && OwnerID(g.nodes[id]) in g.nodes :: OwnerID(g.nodes[id])
  }
}
