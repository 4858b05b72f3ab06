// The storage projection: resolve the requested roots, keep the units they
// reach, and draw the kept paths, the roots and the owning controllers.
module StorageProjection {
  import opened Common
  import opened Figures
  import opened Graphs
  import opened FlowUnits
  import opened FlowWeights

  datatype RootKind =
    | NoRoot
    | ONTAPClusterRoot
    | ONTAPNodeRoot
    | AggrRoot
    | SVMRoot
    | HostRoot
    | PodRoot
    | ClaimRoot
    | VolumeRoot
    | ApplicationRoot

  datatype Ref = Ref(namespace: string, name: string)
  datatype ONTAPRef = ONTAPRef(ontapCluster: string, name: string)

  datatype Roots = Roots(
    kind: RootKind,
    names: set<string>,
    qualified: set<ONTAPRef>,
    pods: set<Ref>,
    claims: set<Ref>)

  // An empty set of clusters or namespaces filters nothing.
  datatype Scope = Scope(clusters: set<string>, namespaces: set<string>, roots: Roots)

  predicate IsStorage(k: Kind) {
    k == NetAppAggr || k == NetAppNode || k == NetAppSVM
  }

  predicate HasRoots(r: Roots) {
    r.kind != NoRoot && (r.names != {} || r.qualified != {} || r.pods != {} || r.claims != {})
  }

  // A bare value names the component on every filer, a qualified one on its own.
  predicate Rooted(n: Node, r: Roots) {
    n.name in r.names || ONTAPRef(Label(n.labels, "ontap_cluster"), n.name) in r.qualified
  }

  function RefOf(n: Node): Ref {
    Ref(Label(n.labels, "namespace"), n.name)
  }

  predicate IsStorageRoot(n: Node, r: Roots) {
    HasRoots(r) &&
    match r.kind
    case ONTAPClusterRoot => IsStorage(n.kind) && Label(n.labels, "ontap_cluster") in r.names
    case ONTAPNodeRoot => n.kind == NetAppNode && n.name in r.names
    case AggrRoot => n.kind == NetAppAggr && Rooted(n, r)
    case SVMRoot => n.kind == NetAppSVM && Rooted(n, r)
    case _ => false
  }

  // A claim a pvc or pv root names.
  predicate IsClaimRoot(n: Node, r: Roots) {
    HasRoots(r) && n.kind == PVC &&
    match r.kind
    case ClaimRoot => RefOf(n) in r.claims
    case VolumeRoot => Label(n.labels, "volumename") != "" && Label(n.labels, "volumename") in r.names
    case _ => false
  }

  predicate IsWorkloadRoot(n: Node, r: Roots) {
    || IsClaimRoot(n, r)
    || (HasRoots(r) &&
        match r.kind
        case HostRoot => n.kind == K8sNode && n.name in r.names
        case PodRoot => n.kind == Pod && RefOf(n) in r.pods
        case ApplicationRoot => n.kind == Pod && n.application != "" && n.application in r.names
        case _ => false)
  }

  // A claim of a rooted application retains its path and is not drawn by itself.
  predicate IsClaimHit(n: Node, r: Roots) {
    && HasRoots(r) && r.kind == ApplicationRoot && n.kind == PVC
    && n.application != "" && n.application in r.names
  }

  function StorageRoots(g: Graph, r: Roots): set<string> {
    set id | id in g.nodes && IsStorageRoot(g.nodes[id], r)
  }

  function WorkloadRoots(g: Graph, r: Roots): set<string> {
    set id | id in g.nodes && IsWorkloadRoot(g.nodes[id], r)
  }

  function ClaimRoots(g: Graph, r: Roots): set<string> {
    set id | id in g.nodes && IsClaimRoot(g.nodes[id], r)
  }

  function ClaimHits(g: Graph, r: Roots): set<string> {
    set id | id in g.nodes && IsClaimHit(g.nodes[id], r)
  }

  // The cluster and namespace gate of the Kubernetes side.
  predicate WorkloadPasses(g: Graph, n: Node, scope: Scope) {
    && (scope.clusters != {} && !IsStorage(n.kind) ==> RawName(g, Label(n.labels, "cluster")) in scope.clusters)
    && (scope.namespaces != {} && (n.kind == Pod || n.kind == PVC) ==> Label(n.labels, "namespace") in scope.namespaces)
  }

  predicate Reaches(u: Unit, ids: set<string>) {
    exists id :: id in u.Ids() && id in ids
  }

  predicate PassesAt(g: Graph, scope: Scope, id: string) {
    id == "" || (id in g.nodes && WorkloadPasses(g, g.nodes[id], scope))
  }

  predicate Passes(g: Graph, scope: Scope, u: Unit) {
    PassesAt(g, scope, u.Claim()) && PassesAt(g, scope, u.Pod()) && PassesAt(g, scope, u.Host())
  }

  predicate Keeps(g: Graph, scope: Scope, u: Unit) {
    && (u.Sink() ==> u.Claim() in ClaimRoots(g, scope.roots))
    && (|| Reaches(u, StorageRoots(g, scope.roots))
        || Reaches(u, WorkloadRoots(g, scope.roots))
        || Reaches(u, ClaimHits(g, scope.roots)))
    && Passes(g, scope, u)
  }

  function Retained(g: Graph, scope: Scope, units: seq<Unit>): seq<Unit> {
    if units == [] then []
    else
      var before := Retained(g, scope, units[..|units| - 1]);
      if Keeps(g, scope, units[|units| - 1]) then before + [units[|units| - 1]] else before
  }

  function PathIds(units: seq<Unit>): set<string> {
    if units == [] then {}
    else PathIds(units[..|units| - 1]) + SetOf(units[|units| - 1].Ids())
  }

  // Nodes drawn before the parent sweep: loaded path nodes and admitted roots.
  function Admitted(g: Graph, scope: Scope, units: seq<Unit>): set<string> {
    PathIds(units) * g.nodes.Keys
    + StorageRoots(g, scope.roots)
    + set id | id in WorkloadRoots(g, scope.roots) && WorkloadPasses(g, g.nodes[id], scope)
  }

  datatype View = View(nodes: map<string, Node>, edges: seq<Edge>)

  function Kept(g: Graph, scope: Scope): seq<Unit> {
    Retained(g, scope, Units(g))
  }

  function DrawnIds(g: Graph, scope: Scope): (ids: set<string>)
    ensures ids <= g.nodes.Keys
  {
    var admitted := Admitted(g, scope, Kept(g, scope));
    admitted + Owners(g, admitted)
  }

  function Drawn(g: Graph, ids: set<string>): map<string, Node>
    requires ids <= g.nodes.Keys
  {
    map id | id in ids :: g.nodes[id]
  }

  // What a projection of g is, up to the order in which its edges are listed.
  ghost predicate IsProjection(g: Graph, scope: Scope, view: View) {
    && view.nodes == Drawn(g, DrawnIds(g, scope))
    && Weighted(view.edges, HopsOf(Kept(g, scope)))
  }

  method Retain(g: Graph, scope: Scope, units: seq<Unit>) returns (retained: seq<Unit>)
    ensures retained == Retained(g, scope, units)
  {
    hide Keeps;
    var storage, workload := StorageRoots(g, scope.roots), WorkloadRoots(g, scope.roots);
    var hits, roots := ClaimHits(g, scope.roots), ClaimRoots(g, scope.roots);
    retained := [];
    for i := 0 to |units|
      invariant retained == Retained(g, scope, units[..i])
    {
      var u := units[i];
      assert units[..i + 1][..i] == units[..i];
      KeepsWhen(g, scope, u);
      if u.Sink() && u.Claim() !in roots {
        continue;
      }
      if !Reaches(u, storage) && !Reaches(u, workload) && !Reaches(u, hits) {
        continue;
      }
      if !Passes(g, scope, u) {
        continue;
      }
      retained := retained + [u];
    }
    assert units[..|units|] == units;
  }

  lemma KeepsWhen(g: Graph, scope: Scope, u: Unit)
    ensures Keeps(g, scope, u) <==>
              && (u.Sink() ==> u.Claim() in ClaimRoots(g, scope.roots))
              && (|| Reaches(u, StorageRoots(g, scope.roots))
                  || Reaches(u, WorkloadRoots(g, scope.roots))
                  || Reaches(u, ClaimHits(g, scope.roots)))
              && Passes(g, scope, u)
  {
    hide StorageRoots, WorkloadRoots, ClaimHits, ClaimRoots, Reaches, Passes;
  }

  method AddIds(start: set<string>, own: seq<string>) returns (ids: set<string>)
    ensures ids == start + SetOf(own)
  {
    ids := start;
    for j := 0 to |own|
      invariant ids == start + SetOf(own[..j])
    {
      ids := ids + {own[j]};
      assert own[..j + 1] == own[..j] + [own[j]];
    }
    assert own[..|own|] == own;
  }

  method CollectPathIds(units: seq<Unit>) returns (ids: set<string>)
    ensures ids == PathIds(units)
  {
    ids := {};
    for i := 0 to |units|
      invariant ids == PathIds(units[..i])
    {
      assert units[..i + 1][..i] == units[..i];
      ids := AddIds(ids, units[i].Ids());
    }
    assert units[..|units|] == units;
  }

  method ProjectStorage(g: Graph, scope: Scope) returns (view: View)
    ensures IsProjection(g, scope, view)
  {
    hide Units, Retained, PathIds, StorageRoots, WorkloadRoots, Owners, HopsOf, Weighted;
    var units := ExtractFlowUnits(g);
    var retained := Retain(g, scope, units);
    var path := CollectPathIds(retained);
    RootsLoaded(g, scope.roots);
    var admitted :=
      path * g.nodes.Keys
      + StorageRoots(g, scope.roots)
      + set id | id in WorkloadRoots(g, scope.roots) && WorkloadPasses(g, g.nodes[id], scope);
    assert admitted == Admitted(g, scope, retained);
    var edges := WeightRetained(retained);
    view := View(map id | id in admitted + Owners(g, admitted) :: g.nodes[id], edges);
  }

  lemma RootsLoaded(g: Graph, r: Roots)
    ensures StorageRoots(g, r) <= g.nodes.Keys && WorkloadRoots(g, r) <= g.nodes.Keys
    ensures forall ids :: Owners(g, ids) <= g.nodes.Keys
  {
    hide IsStorageRoot, IsWorkloadRoot;
  }
}
