// The default projection: prune what is disconnected, filter what is out of
// scope, and re-add one step of edge partners and the owning controllers.
module Projection {
  import opened Figures
  import opened Graphs

  // An empty set of clusters or namespaces filters nothing; an inventory keeps
  // disconnected elements.
  datatype Scope = Scope(clusters: set<string>, namespaces: set<string>, inventory: bool)

  datatype View = View(nodes: map<string, Node>, edges: seq<Edge>)

  // ---- the connectivity prune ----

  predicate Connects(e: Edge) {
    e.kind == PodCallsPod || e.kind == PodCallsService || e.kind == ServiceSelectsPod
  }

  ghost predicate ConnectedBy(edges: seq<Edge>, id: string) {
    exists e :: e in edges && Connects(e) && (e.source == id || e.target == id)
  }

  ghost predicate MountedBy(edges: seq<Edge>, pvc: string, pod: string) {
    exists e :: e in edges && e.kind == PodMountsPVC && e.target == pvc && e.source == pod
  }

  ghost predicate Connected(g: Graph, id: string) {
    ConnectedBy(g.edges, id)
  }

  ghost predicate MountedByConnected(g: Graph, id: string) {
    exists pod :: MountedBy(g.edges, id, pod) && ConnectedBy(g.edges, pod)
  }

  // Pods and claims that hang off no connectivity edge.
  ghost predicate IsExcluded(g: Graph, id: string) {
    && id in g.nodes
    && ((g.nodes[id].kind == Pod && !Connected(g, id)) || (g.nodes[id].kind == PVC && !MountedByConnected(g, id)))
  }

  ghost function Excluded(g: Graph, scope: Scope): set<string> {
    if scope.inventory then {} else set id | id in g.nodes && IsExcluded(g, id)
  }

  lemma {:induction false} OneMoreEdge(edges: seq<Edge>, e: Edge)
    ensures forall id :: ConnectedBy(edges + [e], id) <==> ConnectedBy(edges, id) || (Connects(e) && (e.source == id || e.target == id))
    ensures forall pvc, pod :: MountedBy(edges + [e], pvc, pod) <==>
              MountedBy(edges, pvc, pod) || (e.kind == PodMountsPVC && e.target == pvc && e.source == pod)
  {
    hide Connects;
    var more := edges + [e];
    assert more[|edges|] == e && e in more;
    assert forall x :: x in edges ==> x in more;
  }

  function MountersOf(mounters: map<string, set<string>>, pvc: string): set<string> {
    if pvc in mounters then mounters[pvc] else {}
  }

  method ConnectedEnds(edges: seq<Edge>) returns (ends: set<string>, mounters: map<string, set<string>>)
    ensures forall id :: id in ends <==> ConnectedBy(edges, id)
    ensures forall pvc, pod :: pod in MountersOf(mounters, pvc) <==> MountedBy(edges, pvc, pod)
  {
    hide ConnectedBy, MountedBy;
    ends, mounters := {}, map[];
    NoEdges();
    for i := 0 to |edges|
      invariant forall id :: id in ends <==> ConnectedBy(edges[..i], id)
      invariant forall pvc, pod :: pod in MountersOf(mounters, pvc) <==> MountedBy(edges[..i], pvc, pod)
    {
      var e := edges[i];
      OneMoreEdge(edges[..i], e);
      assert edges[..i + 1] == edges[..i] + [e];
      if Connects(e) {
        ends := ends + {e.source, e.target};
      } else if e.kind == PodMountsPVC {
        mounters := mounters[e.target := MountersOf(mounters, e.target) + {e.source}];
      }
    }
    assert edges[..|edges|] == edges;
  }

  lemma NoEdges()
    ensures forall id :: !ConnectedBy([], id)
    ensures forall pvc, pod :: !MountedBy([], pvc, pod)
  {
  }

  method ConnectivityExcluded(g: Graph) returns (excluded: set<string>)
    ensures forall id :: id in excluded <==> IsExcluded(g, id)
  {
    hide ConnectedBy, MountedBy;
    var ends, mounters := ConnectedEnds(g.edges);
    excluded := {};
    var left := g.nodes.Keys;
    while left != {}
      invariant left <= g.nodes.Keys
      invariant forall id :: id in excluded <==> id in g.nodes.Keys - left && IsExcluded(g, id)
    {
      var id: string :| id in left;
      left := left - {id};
      match g.nodes[id].kind
      case Pod =>
        if id !in ends {
          excluded := excluded + {id};
        }
      case PVC =>
        var kept := MountersOf(mounters, id) * ends;
        assert kept == {} <==> !MountedByConnected(g, id) by {
          assert forall pod :: pod in kept <==> MountedBy(g.edges, id, pod) && ConnectedBy(g.edges, pod);
        }
        if kept == {} {
          excluded := excluded + {id};
        }
      case _ =>
    }
  }

  // ---- admission ----

  predicate Deferred(k: Kind) {
    k == K8sNode || k == NetAppAggr || k == NetAppNode
  }

  predicate NodePasses(g: Graph, n: Node, scope: Scope) {
    && (scope.clusters != {} ==>
          n.kind != External
          && (n.kind == NetAppAggr || n.kind == NetAppNode || RawName(g, Label(n.labels, "cluster")) in scope.clusters))
    && (scope.namespaces != {} ==> n.kind == External || Label(n.labels, "namespace") in scope.namespaces)
  }

  predicate InfraPasses(g: Graph, n: Node, scope: Scope, referenced: bool) {
    && (scope.clusters != {} ==> RawName(g, Label(n.labels, "cluster")) in scope.clusters)
    && ((scope.inventory && scope.namespaces == {}) || referenced)
  }

  predicate NetAppPasses(scope: Scope, referenced: bool) {
    (scope.inventory && scope.clusters == {} && scope.namespaces == {}) || referenced
  }

  predicate PassesNonCluster(n: Node, scope: Scope) {
    scope.namespaces != {} ==>
      || n.kind == External || n.kind == K8sNode || n.kind == NetAppAggr || n.kind == NetAppNode
      || Label(n.labels, "namespace") in scope.namespaces
  }

  ghost predicate Direct(g: Graph, scope: Scope, id: string) {
    && id in g.nodes && id !in Excluded(g, scope)
    && !Deferred(g.nodes[id].kind) && NodePasses(g, g.nodes[id], scope)
  }

  // Some admitted pod says it runs there.
  ghost predicate Hosts(g: Graph, scope: Scope, id: string) {
    id != "" && exists p :: Direct(g, scope, p) && g.nodes[p].kind == Pod && Label(g.nodes[p].labels, "node") == id
  }

  // Some admitted claim is stored there.
  ghost predicate Stores(g: Graph, scope: Scope, id: string) {
    exists e :: e in g.edges && e.kind == PVCToNetAppAggr && e.target == id && Direct(g, scope, e.source)
  }

  ghost predicate AdmittedAggr(g: Graph, scope: Scope, id: string) {
    && id in g.nodes && id !in Excluded(g, scope) && g.nodes[id].kind == NetAppAggr
    && NetAppPasses(scope, Stores(g, scope, id))
  }

  ghost predicate OwnsAdmitted(g: Graph, scope: Scope, id: string) {
    exists a :: AdmittedAggr(g, scope, a) && OwnerID(g.nodes[a]) == id && id != ""
  }

  // filterNodes: what is admitted before any edge is looked at for partners.
  ghost predicate IsPrimary(g: Graph, scope: Scope, id: string) {
    || Direct(g, scope, id)
    || (&& id in g.nodes && id !in Excluded(g, scope) && g.nodes[id].kind == K8sNode
        && InfraPasses(g, g.nodes[id], scope, Hosts(g, scope, id)))
    || AdmittedAggr(g, scope, id)
    || (&& id in g.nodes && id !in Excluded(g, scope) && g.nodes[id].kind == NetAppNode
        && NetAppPasses(scope, OwnsAdmitted(g, scope, id)))
  }

  ghost function Primary(g: Graph, scope: Scope): set<string> {
    set id | id in g.nodes && IsPrimary(g, scope, id)
  }

  // ---- edges and their partners ----

  predicate Readdable(g: Graph, scope: Scope, excluded: set<string>, id: string) {
    id !in excluded && id in g.nodes && PassesNonCluster(g.nodes[id], scope)
  }

  predicate Keeps(g: Graph, scope: Scope, primary: set<string>, excluded: set<string>, e: Edge) {
    if e.source in primary && e.target in primary then true
    else if e.source in primary then Readdable(g, scope, excluded, e.target)
    else e.target in primary && Readdable(g, scope, excluded, e.source)
  }

  function KeptEdges(g: Graph, scope: Scope, primary: set<string>, excluded: set<string>, edges: seq<Edge>): seq<Edge> {
    if edges == [] then []
    else
      var before, last := KeptEdges(g, scope, primary, excluded, edges[..|edges| - 1]), edges[|edges| - 1];
      if Keeps(g, scope, primary, excluded, last) then before + [last] else before
  }

  function Ends(edges: seq<Edge>): set<string> {
    if edges == [] then {} else Ends(edges[..|edges| - 1]) + {edges[|edges| - 1].source, edges[|edges| - 1].target}
  }

  // The in-scope set is the one at entry: a re-added partner never brings in
  // partners of its own.
  method FilterEdges(g: Graph, scope: Scope, primary: set<string>, excluded: set<string>) returns (nodes: set<string>, out: seq<Edge>)
    ensures out == KeptEdges(g, scope, primary, excluded, g.edges)
    ensures nodes == primary + Ends(out)
  {
    nodes, out := primary, [];
    for i := 0 to |g.edges|
      invariant out == KeptEdges(g, scope, primary, excluded, g.edges[..i])
      invariant nodes == primary + Ends(out)
    {
      var e := g.edges[i];
      assert g.edges[..i + 1][..i] == g.edges[..i];
      assert (out + [e])[..|out|] == out;
      var srcOK, tgtOK := e.source in primary, e.target in primary;
      if srcOK && tgtOK {
        out := out + [e];
        continue;
      }
      if !srcOK && !tgtOK {
        continue;
      }
      var partner := if srcOK then e.target else e.source;
      if !Readdable(g, scope, excluded, partner) {
        continue;
      }
      nodes := nodes + {partner};
      out := out + [e];
    }
    assert g.edges[..|g.edges|] == g.edges;
  }

  ghost function ViewEdges(g: Graph, scope: Scope): seq<Edge> {
    KeptEdges(g, scope, Primary(g, scope), Excluded(g, scope), g.edges)
  }

  ghost function InView(g: Graph, scope: Scope): set<string> {
    var drawn := Primary(g, scope) + Ends(ViewEdges(g, scope));
    drawn + Owners(g, drawn)
  }

  ghost function ViewOf(g: Graph, scope: Scope): View {
    View(map id | id in InView(g, scope) && id in g.nodes :: g.nodes[id], ViewEdges(g, scope))
  }

  // Given what filterNodes admitted and the prune excluded.
  method Finish(g: Graph, scope: Scope, primary: set<string>, excluded: set<string>) returns (view: View)
    requires primary == Primary(g, scope) && excluded == Excluded(g, scope)
    ensures view == ViewOf(g, scope)
  {
    hide Primary, Excluded, Owners, KeptEdges;
    var nodes, edges := FilterEdges(g, scope, primary, excluded);
    // The parent sweep comes last: an aggregate re-added as a partner still
    // needs its controller.
    var all := nodes + Owners(g, nodes);
    view := View(map id | id in all && id in g.nodes :: g.nodes[id], edges);
  }

  // Nodes judged by themselves, and the hosts their pods name.
  method AdmitDirect(g: Graph, scope: Scope, excluded: set<string>) returns (direct: set<string>, hosts: set<string>)
    requires excluded == Excluded(g, scope)
    ensures forall id :: id in direct <==> Direct(g, scope, id)
    ensures forall id :: id in hosts <==> Hosts(g, scope, id)
  {
    hide Excluded, NodePasses;
    direct, hosts := {}, {};
    var left := g.nodes.Keys;
    while left != {}
      invariant left <= g.nodes.Keys
      invariant forall id :: id in direct <==> id in g.nodes.Keys - left && Direct(g, scope, id)
      invariant forall id :: id in hosts <==>
                  id != "" && exists p :: p in direct && g.nodes[p].kind == Pod && Label(g.nodes[p].labels, "node") == id
    {
      var id: string :| id in left;
      left := left - {id};
      var n := g.nodes[id];
      if id in excluded || Deferred(n.kind) || !NodePasses(g, n, scope) {
        continue;
      }
      direct := direct + {id};
      if n.kind == Pod {
        var host := Label(n.labels, "node");
        if host != "" {
          hosts := hosts + {host};
        }
      }
    }
    assert forall id :: id in direct <==> Direct(g, scope, id);
  }

  ghost predicate ReferencedBy(edges: seq<Edge>, direct: set<string>, id: string) {
    exists e :: e in edges && e.kind == PVCToNetAppAggr && e.target == id && e.source in direct
  }

  lemma MoreReferences(edges: seq<Edge>, e: Edge, direct: set<string>)
    ensures forall id :: ReferencedBy(edges + [e], direct, id) <==>
              ReferencedBy(edges, direct, id) || (e.kind == PVCToNetAppAggr && e.target == id && e.source in direct)
  {
    assert (edges + [e])[|edges|] == e;
    assert forall x :: x in edges + [e] <==> x in edges || x == e;
  }

  lemma NoReferences(direct: set<string>)
    ensures forall id :: !ReferencedBy([], direct, id)
  {
  }

  method ReferencedAggrs(g: Graph, scope: Scope, direct: set<string>) returns (aggrs: set<string>)
    requires forall id :: id in direct <==> Direct(g, scope, id)
    ensures forall id :: id in aggrs <==> Stores(g, scope, id)
  {
    hide Direct, ReferencedBy;
    aggrs := {};
    NoReferences(direct);
    for i := 0 to |g.edges|
      invariant forall id :: id in aggrs <==> ReferencedBy(g.edges[..i], direct, id)
    {
      var e := g.edges[i];
      MoreReferences(g.edges[..i], e, direct);
      assert g.edges[..i + 1] == g.edges[..i] + [e];
      if e.kind == PVCToNetAppAggr && e.source in direct {
        aggrs := aggrs + {e.target};
      }
    }
    assert g.edges[..|g.edges|] == g.edges;
    StoresAreReferenced(g, scope, direct);
  }

  lemma StoresAreReferenced(g: Graph, scope: Scope, direct: set<string>)
    requires forall id :: id in direct <==> Direct(g, scope, id)
    ensures forall id :: ReferencedBy(g.edges, direct, id) <==> Stores(g, scope, id)
  {
    hide Direct;
  }

  function OwnedBy(g: Graph, aggrs: set<string>): set<string>
    requires aggrs <= g.nodes.Keys
  {
    set id | id in aggrs && OwnerID(g.nodes[id]) != "" :: OwnerID(g.nodes[id])
  }

  lemma OwnedAreOwners(g: Graph, scope: Scope, aggrs: set<string>)
    requires aggrs <= g.nodes.Keys && forall id :: id in aggrs <==> AdmittedAggr(g, scope, id)
    ensures forall id :: id in OwnedBy(g, aggrs) <==> OwnsAdmitted(g, scope, id)
  {
    hide AdmittedAggr, OwnerID;
  }

  method FilterNodes(g: Graph, scope: Scope, excluded: set<string>) returns (out: set<string>)
    requires excluded == Excluded(g, scope)
    ensures out == Primary(g, scope)
  {
    hide Excluded, Direct, Hosts, Stores, InfraPasses, NetAppPasses, OwnerID, NodePasses, OwnedBy, OwnsAdmitted;
    DirectIn(g, scope);
    var direct, hosts := AdmitDirect(g, scope, excluded);
    var stores := ReferencedAggrs(g, scope, direct);
    var k8s := set id | id in g.nodes && id !in excluded && g.nodes[id].kind == K8sNode && InfraPasses(g, g.nodes[id], scope, id in hosts);
    var aggrs := set id | id in g.nodes && id !in excluded && g.nodes[id].kind == NetAppAggr && NetAppPasses(scope, id in stores);
    OwnedAreOwners(g, scope, aggrs);
    var owned := OwnedBy(g, aggrs);
    var ctrls := set id | id in g.nodes && id !in excluded && g.nodes[id].kind == NetAppNode && NetAppPasses(scope, id in owned);
    out := direct + k8s + aggrs + ctrls;
  }

  lemma DirectIn(g: Graph, scope: Scope)
    ensures forall id :: Direct(g, scope, id) ==> id in g.nodes
  {
  }

  method Project(g: Graph, scope: Scope) returns (view: View)
    ensures view == ViewOf(g, scope)
  {
    hide IsExcluded, Primary, ViewOf;
    var excluded: set<string> := {};
    if !scope.inventory {
      excluded := ConnectivityExcluded(g);
      ExcludedLoaded(g);
    }
    assert excluded == Excluded(g, scope);
    var primary := FilterNodes(g, scope, excluded);
    view := Finish(g, scope, primary, excluded);
  }

  lemma ExcludedLoaded(g: Graph)
    ensures forall id :: IsExcluded(g, id) ==> id in g.nodes
  {
  }

  // ---- safety ----

  lemma {:induction false} KeptMembers(g: Graph, scope: Scope, primary: set<string>, excluded: set<string>, edges: seq<Edge>)
    ensures forall e :: e in KeptEdges(g, scope, primary, excluded, edges) <==> e in edges && Keeps(g, scope, primary, excluded, e)
  {
    hide Keeps;
    if edges != [] {
      KeptMembers(g, scope, primary, excluded, edges[..|edges| - 1]);
      assert edges == edges[..|edges| - 1] + [edges[|edges| - 1]];
    }
  }

  lemma {:induction false} EndsMembers(edges: seq<Edge>)
    ensures forall id :: id in Ends(edges) <==> exists e :: e in edges && (e.source == id || e.target == id)
  {
    if edges != [] {
      EndsMembers(edges[..|edges| - 1]);
      assert edges == edges[..|edges| - 1] + [edges[|edges| - 1]];
    }
  }

  // Every kept edge has both ends in the view, at least one of them admitted in
  // its own right.
  lemma {:induction false} EdgesAnchored(g: Graph, scope: Scope, e: Edge)
    requires e in ViewOf(g, scope).edges
    ensures e in g.edges
    ensures e.source in ViewOf(g, scope).nodes && e.target in ViewOf(g, scope).nodes
    ensures e.source in Primary(g, scope) || e.target in Primary(g, scope)
  {
    hide IsPrimary, Excluded, Owners, KeptEdges, Ends, PassesNonCluster;
    KeptMembers(g, scope, Primary(g, scope), Excluded(g, scope), g.edges);
    EndsMembers(ViewEdges(g, scope));
    assert e in ViewEdges(g, scope);
    assert Keeps(g, scope, Primary(g, scope), Excluded(g, scope), e);
  }

  // Owning controllers, where loaded, are controllers.
  ghost predicate OwnersTyped(g: Graph) {
    forall id :: id in g.nodes && OwnerID(g.nodes[id]) in g.nodes ==> g.nodes[OwnerID(g.nodes[id])].kind == NetAppNode
  }

  lemma {:induction false} PrimaryNotExcluded(g: Graph, scope: Scope, id: string)
    requires IsPrimary(g, scope, id)
    ensures id in g.nodes && id !in Excluded(g, scope)
  {
    hide Excluded, NodePasses, InfraPasses, NetAppPasses, Hosts, Stores, OwnsAdmitted;
  }

  // Nothing the prune dropped comes back as somebody's partner.
  lemma {:induction false} ExcludedStaysOut(g: Graph, scope: Scope, id: string)
    requires OwnersTyped(g) && id in ViewOf(g, scope).nodes
    ensures id !in Excluded(g, scope)
  {
    hide IsPrimary, KeptEdges, Ends, PassesNonCluster, OwnerID;
    var primary, excluded := Primary(g, scope), Excluded(g, scope);
    KeptMembers(g, scope, primary, excluded, g.edges);
    EndsMembers(ViewEdges(g, scope));
    if id in primary {
      PrimaryNotExcluded(g, scope, id);
    } else if id in Ends(ViewEdges(g, scope)) {
      var e :| e in ViewEdges(g, scope) && (e.source == id || e.target == id);
      assert Keeps(g, scope, primary, excluded, e);
    }
  }

  // Under a namespace filter no namespaced node of another namespace is drawn,
  // as a partner either; under a cluster filter none of another cluster is
  // admitted in its own right.
  lemma {:induction false} FiltersHold(g: Graph, scope: Scope, id: string)
    requires OwnersTyped(g) && id in ViewOf(g, scope).nodes
    ensures scope.namespaces != {} && (g.nodes[id].kind == Pod || g.nodes[id].kind == PVC || g.nodes[id].kind == Service) ==>
              Label(g.nodes[id].labels, "namespace") in scope.namespaces
    ensures scope.clusters != {} && id in Primary(g, scope) && g.nodes[id].kind != NetAppAggr && g.nodes[id].kind != NetAppNode ==>
              RawName(g, Label(g.nodes[id].labels, "cluster")) in scope.clusters
  {
    hide KeptEdges, Ends, Excluded, Hosts, Stores, OwnsAdmitted, Label, RawName;
    var primary, excluded := Primary(g, scope), Excluded(g, scope);
    KeptMembers(g, scope, primary, excluded, g.edges);
    EndsMembers(ViewEdges(g, scope));
    OwnersAreControllers(g, primary + Ends(ViewEdges(g, scope)));
    if id !in primary && id in Ends(ViewEdges(g, scope)) {
      var e :| e in ViewEdges(g, scope) && (e.source == id || e.target == id);
      assert Keeps(g, scope, primary, excluded, e);
    }
  }

  // A drawn aggregate's controller, where loaded, is drawn, however the
  // aggregate came in.
  lemma {:induction false} ControllersPresent(g: Graph, scope: Scope, id: string)
    requires OwnersTyped(g) && id in ViewOf(g, scope).nodes && g.nodes[id].kind == NetAppAggr
    requires OwnerID(g.nodes[id]) in g.nodes
    ensures OwnerID(g.nodes[id]) in ViewOf(g, scope).nodes
  {
    hide Primary, KeptEdges, Ends, OwnerID;
    OwnersAreControllers(g, Primary(g, scope) + Ends(ViewEdges(g, scope)));
  }

  lemma OwnersAreControllers(g: Graph, ids: set<string>)
    requires OwnersTyped(g)
    ensures forall id :: id in Owners(g, ids) ==> id in g.nodes && g.nodes[id].kind == NetAppNode
  {
    hide OwnerID;
  }

  // ---- order ----

  ghost predicate Reordered(a: Graph, b: Graph) {
    a.nodes == b.nodes && a.rawNames == b.rawNames && forall e :: e in a.edges <==> e in b.edges
  }

  lemma {:induction false} ExcludedSame(a: Graph, b: Graph, scope: Scope)
    requires Reordered(a, b)
    ensures Excluded(a, scope) == Excluded(b, scope)
  {
    hide ConnectedBy, MountedBy;
    EdgesSame(a.edges, b.edges);
    forall id ensures MountedByConnected(a, id) <==> MountedByConnected(b, id) {
      if MountedByConnected(a, id) {
        var pod :| MountedBy(a.edges, id, pod) && ConnectedBy(a.edges, pod);
        assert MountedBy(b.edges, id, pod);
      }
      if MountedByConnected(b, id) {
        var pod :| MountedBy(b.edges, id, pod) && ConnectedBy(b.edges, pod);
        assert MountedBy(a.edges, id, pod);
      }
    }
  }

  lemma {:induction false} EdgesSame(a: seq<Edge>, b: seq<Edge>)
    requires forall e :: e in a <==> e in b
    ensures forall id :: ConnectedBy(a, id) <==> ConnectedBy(b, id)
    ensures forall pvc, pod :: MountedBy(a, pvc, pod) <==> MountedBy(b, pvc, pod)
  {
    hide Connects;
    EdgesHeld(a, b);
    EdgesHeld(b, a);
  }

  lemma {:induction false} EdgesHeld(a: seq<Edge>, b: seq<Edge>)
    requires forall e :: e in a ==> e in b
    ensures forall id :: ConnectedBy(a, id) ==> ConnectedBy(b, id)
    ensures forall pvc, pod :: MountedBy(a, pvc, pod) ==> MountedBy(b, pvc, pod)
  {
    hide Connects;
    forall id | ConnectedBy(a, id) ensures ConnectedBy(b, id) {
      var e :| e in a && Connects(e) && (e.source == id || e.target == id);
      assert e in b;
    }
    forall pvc, pod | MountedBy(a, pvc, pod) ensures MountedBy(b, pvc, pod) {
      var e :| e in a && e.kind == PodMountsPVC && e.target == pvc && e.source == pod;
      assert e in b;
    }
  }

  lemma {:induction false} NodePassesSame(a: Graph, b: Graph, scope: Scope)
    requires a.rawNames == b.rawNames
    ensures forall n :: NodePasses(a, n, scope) <==> NodePasses(b, n, scope)
    ensures forall n, r :: InfraPasses(a, n, scope, r) <==> InfraPasses(b, n, scope, r)
  {
  }

  lemma {:induction false} DirectSame(a: Graph, b: Graph, scope: Scope)
    requires Reordered(a, b)
    ensures forall id :: Direct(a, scope, id) <==> Direct(b, scope, id)
  {
    hide Excluded, NodePasses;
    ExcludedSame(a, b, scope);
    NodePassesSame(a, b, scope);
  }

  lemma {:induction false} HostsSame(a: Graph, b: Graph, scope: Scope, id: string)
    requires Reordered(a, b) && Hosts(a, scope, id)
    ensures Hosts(b, scope, id)
  {
    hide Direct;
    DirectSame(a, b, scope);
    DirectIn(a, scope);
    var p :| Direct(a, scope, p) && a.nodes[p].kind == Pod && Label(a.nodes[p].labels, "node") == id;
    assert Direct(b, scope, p);
  }

  lemma {:induction false} StoresSame(a: Graph, b: Graph, scope: Scope, id: string)
    requires Reordered(a, b) && Stores(a, scope, id)
    ensures Stores(b, scope, id)
  {
    hide Direct;
    DirectSame(a, b, scope);
    var e :| e in a.edges && e.kind == PVCToNetAppAggr && e.target == id && Direct(a, scope, e.source);
    assert e in b.edges;
  }

  lemma {:induction false} AggrSame(a: Graph, b: Graph, scope: Scope)
    requires Reordered(a, b)
    ensures forall id :: AdmittedAggr(a, scope, id) <==> AdmittedAggr(b, scope, id)
  {
    hide Excluded, Stores;
    ExcludedSame(a, b, scope);
    forall id ensures Stores(a, scope, id) <==> Stores(b, scope, id) {
      if Stores(a, scope, id) { StoresSame(a, b, scope, id); }
      if Stores(b, scope, id) { StoresSame(b, a, scope, id); }
    }
  }

  lemma {:induction false} OwnsSame(a: Graph, b: Graph, scope: Scope, id: string)
    requires Reordered(a, b) && OwnsAdmitted(a, scope, id)
    ensures OwnsAdmitted(b, scope, id)
  {
    hide AdmittedAggr, OwnerID;
    AggrSame(a, b, scope);
    AggrLoaded(a, scope);
    var x :| AdmittedAggr(a, scope, x) && OwnerID(a.nodes[x]) == id && id != "";
    assert AdmittedAggr(b, scope, x);
  }

  lemma AggrLoaded(g: Graph, scope: Scope)
    ensures forall id :: AdmittedAggr(g, scope, id) ==> id in g.nodes
  {
  }

  lemma {:induction false} PrimarySame(a: Graph, b: Graph, scope: Scope)
    requires Reordered(a, b)
    ensures Primary(a, scope) == Primary(b, scope)
  {
    hide Excluded, Direct, Hosts, AdmittedAggr, OwnsAdmitted, InfraPasses, NetAppPasses;
    ExcludedSame(a, b, scope);
    NodePassesSame(a, b, scope);
    DirectSame(a, b, scope);
    AggrSame(a, b, scope);
    forall id ensures (Hosts(a, scope, id) <==> Hosts(b, scope, id)) && (OwnsAdmitted(a, scope, id) <==> OwnsAdmitted(b, scope, id)) {
      if Hosts(a, scope, id) { HostsSame(a, b, scope, id); }
      if Hosts(b, scope, id) { HostsSame(b, a, scope, id); }
      if OwnsAdmitted(a, scope, id) { OwnsSame(a, b, scope, id); }
      if OwnsAdmitted(b, scope, id) { OwnsSame(b, a, scope, id); }
    }
  }

  // The node and edge sets do not depend on the order the edges are listed in.
  lemma {:induction false} EdgeOrderIsFree(a: Graph, b: Graph, scope: Scope)
    requires Reordered(a, b)
    ensures ViewOf(a, scope).nodes == ViewOf(b, scope).nodes
    ensures forall e :: e in ViewOf(a, scope).edges <==> e in ViewOf(b, scope).edges
  {
    hide Excluded, Primary, KeptEdges, Ends, OwnerID, PassesNonCluster;
    ExcludedSame(a, b, scope);
    PrimarySame(a, b, scope);
    var primary, excluded := Primary(a, scope), Excluded(a, scope);
    KeptMembers(a, scope, primary, excluded, a.edges);
    KeptMembers(b, scope, primary, excluded, b.edges);
    EndsMembers(ViewEdges(a, scope));
    EndsMembers(ViewEdges(b, scope));
    assert forall e :: Keeps(a, scope, primary, excluded, e) <==> Keeps(b, scope, primary, excluded, e);
    assert Ends(ViewEdges(a, scope)) == Ends(ViewEdges(b, scope));
  }
}
