// Projecting an unfiltered view of a well-typed graph again changes nothing.
module ProjectionTwice {
  import opened Figures
  import opened Graphs
  import opened Projection

  // Each kind of edge joins loaded nodes of its own kinds.
  ghost predicate EdgeTyped(g: Graph, e: Edge) {
    && e.source in g.nodes && e.target in g.nodes
    && var from, to := g.nodes[e.source].kind, g.nodes[e.target].kind;
       match e.kind
       case PodMountsPVC => from == Pod && to == PVC
       case PodToNode => from == Pod && to == K8sNode
       case PVCToNetAppAggr => from == PVC && to == NetAppAggr
       case StorageFlow => false
       case _ => (from == Pod || from == Service || from == External) && (to == Pod || to == Service || to == External)
  }

  ghost predicate WellTyped(g: Graph) {
    OwnersTyped(g) && forall e :: e in g.edges ==> EdgeTyped(g, e)
  }

  ghost predicate Unfiltered(scope: Scope) {
    scope.clusters == {} && scope.namespaces == {}
  }

  ghost function Again(g: Graph, scope: Scope): Graph {
    Graph(ViewOf(g, scope).nodes, ViewOf(g, scope).edges, g.rawNames)
  }

  lemma {:induction false} DirectUnfiltered(g: Graph, scope: Scope, id: string)
    requires Unfiltered(scope)
    ensures Direct(g, scope, id) <==> id in g.nodes && id !in Excluded(g, scope) && !Deferred(g.nodes[id].kind)
  {
    hide Excluded;
  }

  lemma {:induction false} DirectIsPrimary(g: Graph, scope: Scope)
    ensures forall id :: Direct(g, scope, id) ==> id in Primary(g, scope)
    ensures forall id :: AdmittedAggr(g, scope, id) ==> id in Primary(g, scope)
  {
    hide Excluded, NodePasses, Hosts, Stores, OwnsAdmitted, NetAppPasses, InfraPasses;
  }

  lemma {:induction false} BothPrimaryKept(g: Graph, scope: Scope, e: Edge)
    requires e in g.edges && e.source in Primary(g, scope) && e.target in Primary(g, scope)
    ensures e in ViewOf(g, scope).edges
  {
    hide Primary, Excluded, KeptEdges, Readdable;
    KeptMembers(g, scope, Primary(g, scope), Excluded(g, scope), g.edges);
  }

  lemma {:induction false} PrimaryInView(g: Graph, scope: Scope)
    ensures forall id :: id in Primary(g, scope) ==> id in ViewOf(g, scope).nodes
    ensures forall id :: id in ViewOf(g, scope).nodes ==> id in g.nodes && ViewOf(g, scope).nodes[id] == g.nodes[id]
  {
    hide IsPrimary, KeptEdges, Ends, Owners, Excluded;
  }

  // ---- the prune finds nothing more ----

  lemma {:induction false} ConnectionKept(g: Graph, scope: Scope, e: Edge)
    requires WellTyped(g) && Unfiltered(scope) && e in g.edges && Connects(e)
    ensures e in ViewOf(g, scope).edges
  {
    hide Excluded, Primary, ViewOf, OwnersTyped, Direct;
    assert EdgeTyped(g, e);
    EndNotExcluded(g, scope, e);
    DirectUnfiltered(g, scope, e.source);
    DirectUnfiltered(g, scope, e.target);
    DirectIsPrimary(g, scope);
    BothPrimaryKept(g, scope, e);
  }

  lemma {:induction false} EndNotExcluded(g: Graph, scope: Scope, e: Edge)
    requires EdgeTyped(g, e) && e in g.edges && Connects(e)
    ensures e.source !in Excluded(g, scope) && e.target !in Excluded(g, scope)
  {
    hide MountedByConnected;
    assert Connected(g, e.source) && Connected(g, e.target);
  }

  lemma {:induction false} MountKept(g: Graph, scope: Scope, e: Edge)
    requires WellTyped(g) && Unfiltered(scope) && e in g.edges && e.kind == PodMountsPVC && Connected(g, e.source)
    ensures e in ViewOf(g, scope).edges
  {
    hide Primary, ViewOf, OwnersTyped, Direct, ConnectedBy;
    assert EdgeTyped(g, e);
    assert MountedBy(g.edges, e.target, e.source);
    assert MountedByConnected(g, e.target);
    DirectUnfiltered(g, scope, e.source);
    DirectUnfiltered(g, scope, e.target);
    DirectIsPrimary(g, scope);
    BothPrimaryKept(g, scope, e);
  }

  lemma {:induction false} StillConnected(g: Graph, scope: Scope, id: string)
    requires WellTyped(g) && Unfiltered(scope) && Connected(g, id)
    ensures Connected(Again(g, scope), id)
  {
    hide WellTyped, ViewOf, Connects;
    var e :| e in g.edges && Connects(e) && (e.source == id || e.target == id);
    ConnectionKept(g, scope, e);
  }

  lemma {:induction false} StillMounted(g: Graph, scope: Scope, id: string)
    requires WellTyped(g) && Unfiltered(scope) && MountedByConnected(g, id)
    ensures MountedByConnected(Again(g, scope), id)
  {
    hide WellTyped, ViewOf, ConnectedBy;
    var pod :| MountedBy(g.edges, id, pod) && ConnectedBy(g.edges, pod);
    var e :| e in g.edges && e.kind == PodMountsPVC && e.target == id && e.source == pod;
    MountKept(g, scope, e);
    StillConnected(g, scope, pod);
    assert MountedBy(Again(g, scope).edges, id, pod);
  }

  lemma {:induction false} NothingMoreExcluded(g: Graph, scope: Scope)
    requires WellTyped(g) && Unfiltered(scope)
    ensures Excluded(Again(g, scope), scope) == {}
  {
    hide ViewOf, Connected, MountedByConnected, EdgeTyped;
    PrimaryInView(g, scope);
    var h := Again(g, scope);
    forall id | id in h.nodes && !scope.inventory ensures !IsExcluded(h, id) {
      ExcludedStaysOut(g, scope, id);
      if g.nodes[id].kind == Pod { StillConnected(g, scope, id); }
      if g.nodes[id].kind == PVC { StillMounted(g, scope, id); }
    }
  }

  // ---- admission is the same ----

  lemma {:induction false} DirectAgain(g: Graph, scope: Scope)
    requires WellTyped(g) && Unfiltered(scope)
    ensures forall id :: Direct(Again(g, scope), scope, id) <==> Direct(g, scope, id)
  {
    hide ViewOf, Excluded, EdgeTyped, Direct, Primary;
    var h := Again(g, scope);
    NothingMoreExcluded(g, scope);
    PrimaryInView(g, scope);
    DirectIsPrimary(g, scope);
    DirectIn(g, scope);
    forall id ensures Direct(h, scope, id) <==> Direct(g, scope, id) {
      DirectUnfiltered(h, scope, id);
      DirectUnfiltered(g, scope, id);
      if id in h.nodes { ExcludedStaysOut(g, scope, id); }
    }
  }

  lemma {:induction false} HostsAgain(g: Graph, scope: Scope, id: string)
    requires WellTyped(g) && Unfiltered(scope)
    ensures Hosts(Again(g, scope), scope, id) <==> Hosts(g, scope, id)
  {
    hide ViewOf, EdgeTyped, Direct, Primary;
    var h := Again(g, scope);
    DirectAgain(g, scope);
    PrimaryInView(g, scope);
    DirectIsPrimary(g, scope);
    DirectIn(g, scope);
    DirectIn(h, scope);
    if Hosts(g, scope, id) {
      var p :| Direct(g, scope, p) && g.nodes[p].kind == Pod && Label(g.nodes[p].labels, "node") == id;
      assert Direct(h, scope, p);
    }
    if Hosts(h, scope, id) {
      var p :| Direct(h, scope, p) && h.nodes[p].kind == Pod && Label(h.nodes[p].labels, "node") == id;
      assert Direct(g, scope, p);
    }
  }

  lemma {:induction false} EdgesFrom(g: Graph, scope: Scope)
    ensures forall e :: e in ViewOf(g, scope).edges ==> e in g.edges
  {
    hide Primary, Excluded, KeptEdges, Keeps;
    KeptMembers(g, scope, Primary(g, scope), Excluded(g, scope), g.edges);
  }

  lemma {:induction false} StoresAgain(g: Graph, scope: Scope, id: string)
    requires WellTyped(g) && Unfiltered(scope)
    ensures Stores(Again(g, scope), scope, id) <==> Stores(g, scope, id)
  {
    hide ViewOf, Direct, Primary, Excluded, OwnersTyped;
    var h := Again(g, scope);
    DirectAgain(g, scope);
    EdgesFrom(g, scope);
    DirectIsPrimary(g, scope);
    if Stores(g, scope, id) {
      var e :| e in g.edges && e.kind == PVCToNetAppAggr && e.target == id && Direct(g, scope, e.source);
      assert EdgeTyped(g, e);
      AggrNotExcluded(g, scope, id);
      BothPrimaryKept(g, scope, e);
    }
    if Stores(h, scope, id) {
      var e :| e in h.edges && e.kind == PVCToNetAppAggr && e.target == id && Direct(h, scope, e.source);
      assert e in g.edges;
    }
  }

  lemma AggrNotExcluded(g: Graph, scope: Scope, id: string)
    ensures id in g.nodes && Deferred(g.nodes[id].kind) ==> id !in Excluded(g, scope)
  {
  }

  lemma {:induction false} AggrAgain(g: Graph, scope: Scope)
    requires WellTyped(g) && Unfiltered(scope)
    ensures forall id :: AdmittedAggr(Again(g, scope), scope, id) <==> AdmittedAggr(g, scope, id)
  {
    hide ViewOf, Stores, Primary, Excluded, OwnersTyped, EdgeTyped, NetAppPasses;
    var h := Again(g, scope);
    PrimaryInView(g, scope);
    DirectIsPrimary(g, scope);
    forall id ensures AdmittedAggr(h, scope, id) <==> AdmittedAggr(g, scope, id) {
      StoresAgain(g, scope, id);
      AggrNotExcluded(g, scope, id);
      AggrNotExcluded(h, scope, id);
      assert AdmittedAggr(g, scope, id) ==> id in Primary(g, scope);
    }
  }

  lemma {:induction false} OwnsAgain(g: Graph, scope: Scope, id: string)
    requires WellTyped(g) && Unfiltered(scope)
    ensures OwnsAdmitted(Again(g, scope), scope, id) <==> OwnsAdmitted(g, scope, id)
  {
    hide ViewOf, AdmittedAggr, Primary, OwnersTyped, EdgeTyped, OwnerID;
    var h := Again(g, scope);
    AggrAgain(g, scope);
    AggrLoaded(g, scope);
    AggrLoaded(h, scope);
    PrimaryInView(g, scope);
    if OwnsAdmitted(g, scope, id) {
      var a :| AdmittedAggr(g, scope, a) && OwnerID(g.nodes[a]) == id && id != "";
      assert AdmittedAggr(h, scope, a);
    }
    if OwnsAdmitted(h, scope, id) {
      var a :| AdmittedAggr(h, scope, a) && OwnerID(h.nodes[a]) == id && id != "";
      assert AdmittedAggr(g, scope, a);
    }
  }

  lemma {:induction false} PrimaryAgain(g: Graph, scope: Scope)
    requires WellTyped(g) && Unfiltered(scope)
    ensures Primary(Again(g, scope), scope) == Primary(g, scope)
  {
    hide ViewOf, AdmittedAggr, Direct, Hosts, OwnsAdmitted, OwnersTyped, EdgeTyped, OwnerID, InfraPasses, NetAppPasses, Excluded;
    var h := Again(g, scope);
    PrimaryInView(g, scope);
    AggrAgain(g, scope);
    AggrLoaded(g, scope);
    DirectAgain(g, scope);
    DirectIn(g, scope);
    forall id ensures IsPrimary(h, scope, id) <==> IsPrimary(g, scope, id) {
      OwnsAgain(g, scope, id);
      HostsAgain(g, scope, id);
      AggrNotExcluded(g, scope, id);
      AggrNotExcluded(h, scope, id);
      InfraSame(g, h, scope, id);
      assert IsPrimary(g, scope, id) && id in g.nodes ==> id in Primary(g, scope);
    }
  }

  lemma InfraSame(g: Graph, h: Graph, scope: Scope, id: string)
    requires Unfiltered(scope)
    ensures id in g.nodes && id in h.nodes ==>
              forall r :: InfraPasses(g, g.nodes[id], scope, r) <==> InfraPasses(h, h.nodes[id], scope, r)
  {
  }

  // ---- nothing is lost and nothing added ----

  lemma {:induction false} AllKept(g: Graph, scope: Scope, primary: set<string>, excluded: set<string>, edges: seq<Edge>)
    requires forall i :: 0 <= i < |edges| ==> Keeps(g, scope, primary, excluded, edges[i])
    ensures KeptEdges(g, scope, primary, excluded, edges) == edges
  {
    hide Keeps;
    if edges != [] {
      AllKept(g, scope, primary, excluded, edges[..|edges| - 1]);
    }
  }

  lemma {:induction false} EdgeKeptAgain(g: Graph, scope: Scope, e: Edge)
    requires WellTyped(g) && Unfiltered(scope) && e in ViewOf(g, scope).edges
    ensures Keeps(Again(g, scope), scope, Primary(g, scope), {}, e)
  {
    hide ViewOf, Primary, WellTyped;
    EdgesAnchored(g, scope, e);
  }

  lemma {:induction false} EdgesAgain(g: Graph, scope: Scope)
    requires WellTyped(g) && Unfiltered(scope)
    ensures ViewEdges(Again(g, scope), scope) == ViewOf(g, scope).edges
  {
    hide ViewOf, Primary, WellTyped, KeptEdges, Keeps, Excluded;
    var h := Again(g, scope);
    NothingMoreExcluded(g, scope);
    PrimaryAgain(g, scope);
    forall i | 0 <= i < |h.edges| ensures Keeps(h, scope, Primary(g, scope), {}, h.edges[i]) {
      EdgeKeptAgain(g, scope, h.edges[i]);
    }
    AllKept(h, scope, Primary(g, scope), {}, h.edges);
  }

  // An unfiltered view, inventory or not, is its own projection: same nodes,
  // same edges in the same order.
  lemma {:induction false} ProjectionIsIdempotent(g: Graph, scope: Scope)
    requires WellTyped(g) && Unfiltered(scope)
    ensures ViewOf(Again(g, scope), scope) == ViewOf(g, scope)
  {
    hide Primary, WellTyped, KeptEdges, Keeps, Excluded, OwnerID, Ends;
    var h := Again(g, scope);
    EdgesAgain(g, scope);
    PrimaryAgain(g, scope);
    PrimaryInView(g, scope);
    var drawn := Primary(g, scope) + Ends(ViewEdges(g, scope));
    assert Primary(h, scope) + Ends(ViewEdges(h, scope)) == drawn;
    DrawnLoaded(g, scope);
    assert InView(g, scope) == drawn + Owners(g, drawn);
    assert InView(h, scope) == drawn + Owners(h, drawn);
    OwnersAgain(g, h, drawn);
  }

  lemma {:induction false} DrawnLoaded(g: Graph, scope: Scope)
    ensures forall id :: id in Primary(g, scope) + Ends(ViewEdges(g, scope)) ==> id in g.nodes
  {
    hide KeptEdges, Ends, Excluded, IsPrimary;
    EndsMembers(ViewEdges(g, scope));
    forall id | id in Ends(ViewEdges(g, scope)) ensures id in g.nodes {
      var e :| e in ViewEdges(g, scope) && (e.source == id || e.target == id);
      EdgesAnchored(g, scope, e);
      PrimaryInView(g, scope);
    }
  }

  lemma {:induction false} OwnersAgain(g: Graph, h: Graph, drawn: set<string>)
    requires forall id :: id in drawn ==> id in g.nodes && id in h.nodes && h.nodes[id] == g.nodes[id]
    requires forall id :: id in h.nodes <==> id in drawn + Owners(g, drawn)
    ensures Owners(h, drawn) == Owners(g, drawn)
  {
    hide OwnerID;
    forall id | id in drawn ensures OwnerID(h.nodes[id]) in h.nodes <==> OwnerID(g.nodes[id]) in g.nodes {
      OwnersLoaded(g, drawn);
    }
  }

  lemma OwnersLoaded(g: Graph, ids: set<string>)
    ensures forall id :: id in Owners(g, ids) ==> id in g.nodes
    ensures forall id :: id in ids && id in g.nodes && OwnerID(g.nodes[id]) in g.nodes ==> OwnerID(g.nodes[id]) in Owners(g, ids)
  {
    hide OwnerID;
  }
}
