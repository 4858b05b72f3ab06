// What the default projection admits and draws, read off the graph's own edges
// and labels.
module ProjectionScope {
  import opened Graphs
  import opened Projection

  // ---- the prune ----

  // On a call between pods, a call to a Service, or a Service's selection.
  ghost predicate Joined(g: Graph, id: string) {
    exists e :: e in g.edges && (e.kind == PodCallsPod || e.kind == PodCallsService || e.kind == ServiceSelectsPod)
                && (e.source == id || e.target == id)
  }

  // Mounted by a pod that is.
  ghost predicate MountedByJoined(g: Graph, id: string) {
    exists e :: e in g.edges && e.kind == PodMountsPVC && e.target == id && Joined(g, e.source)
  }

  ghost predicate Survives(g: Graph, scope: Scope, id: string)
    requires id in g.nodes
  {
    scope.inventory
    || ((g.nodes[id].kind == Pod ==> Joined(g, id)) && (g.nodes[id].kind == PVC ==> MountedByJoined(g, id)))
  }

  lemma {:induction false} PrunedIff(g: Graph, scope: Scope, id: string)
    requires id in g.nodes
    ensures id in Excluded(g, scope) <==> !Survives(g, scope, id)
  {
    ConnectedIsJoined(g, id);
    if MountedByConnected(g, id) {
      var pod :| MountedBy(g.edges, id, pod) && ConnectedBy(g.edges, pod);
      ConnectedIsJoined(g, pod);
    }
    if MountedByJoined(g, id) {
      var e :| e in g.edges && e.kind == PodMountsPVC && e.target == id && Joined(g, e.source);
      ConnectedIsJoined(g, e.source);
      assert MountedBy(g.edges, id, e.source);
    }
  }

  lemma ConnectedIsJoined(g: Graph, id: string)
    ensures ConnectedBy(g.edges, id) <==> Joined(g, id)
  {
  }

  // ---- what is admitted in its own right ----

  ghost predicate ClusterOK(g: Graph, scope: Scope, n: Node) {
    scope.clusters == {} || RawName(g, Label(n.labels, "cluster")) in scope.clusters
  }

  ghost predicate NamespaceOK(scope: Scope, n: Node) {
    scope.namespaces == {} || Label(n.labels, "namespace") in scope.namespaces
  }

  // Pods, claims, Services and the like stand on their own labels; a Kubernetes
  // node, an aggregate or a controller is admitted because an admitted pod,
  // claim or aggregate refers to it, or by an inventory none of whose filters
  // could have excluded it.
  ghost predicate Admits(g: Graph, scope: Scope, id: string)
    requires id in g.nodes
  {
    var n := g.nodes[id];
    match n.kind
    case External => scope.clusters == {}
    case K8sNode =>
      && ClusterOK(g, scope, n)
      && (|| (scope.inventory && scope.namespaces == {})
          || (id != "" && exists p :: p in Primary(g, scope) && g.nodes[p].kind == Pod && Label(g.nodes[p].labels, "node") == id))
    case NetAppAggr =>
      || (scope.inventory && scope.clusters == {} && scope.namespaces == {})
      || exists e :: e in g.edges && e.kind == PVCToNetAppAggr && e.target == id && e.source in Primary(g, scope)
                     && !Deferred(g.nodes[e.source].kind)
    case NetAppNode =>
      || (scope.inventory && scope.clusters == {} && scope.namespaces == {})
      || (id != "" && exists a :: a in Primary(g, scope) && g.nodes[a].kind == NetAppAggr && OwnerID(g.nodes[a]) == id)
    case _ => Survives(g, scope, id) && ClusterOK(g, scope, n) && NamespaceOK(scope, n)
  }

  lemma DeferredKinds(k: Kind)
    ensures Deferred(k) <==> k == K8sNode || k == NetAppAggr || k == NetAppNode
  {
  }

  lemma {:induction false} DirectIff(g: Graph, scope: Scope, id: string)
    requires id in g.nodes
    ensures Direct(g, scope, id) <==> !Deferred(g.nodes[id].kind) && id in Primary(g, scope)
    ensures !Deferred(g.nodes[id].kind) ==> (Direct(g, scope, id) <==> Admits(g, scope, id))
  {
    hide Excluded, Label, RawName, Survives, Hosts, Stores, OwnsAdmitted, InfraPasses, NetAppPasses;
    PrunedIff(g, scope, id);
    if g.nodes[id].kind != Pod && g.nodes[id].kind != PVC { OnlyPodsPruned(g, scope, id); }
  }

  lemma OnlyPodsPruned(g: Graph, scope: Scope, id: string)
    requires id in g.nodes && g.nodes[id].kind != Pod && g.nodes[id].kind != PVC
    ensures Survives(g, scope, id)
  {
  }

  lemma {:induction false} HostAdmitted(g: Graph, scope: Scope, id: string)
    requires id in g.nodes && g.nodes[id].kind == K8sNode
    ensures id in Primary(g, scope) <==> Admits(g, scope, id)
  {
    hide Excluded, Label, RawName, Survives, Stores, OwnsAdmitted, Primary, NodePasses, NetAppPasses;
    PrunedIff(g, scope, id);
    OnlyPodsPruned(g, scope, id);
    PrimaryLoaded(g, scope);
    PrimaryIs(g, scope, id);
    if Hosts(g, scope, id) {
      var p :| Direct(g, scope, p) && g.nodes[p].kind == Pod && Label(g.nodes[p].labels, "node") == id;
      DirectIff(g, scope, p);
    }
    if p :| p in Primary(g, scope) && g.nodes[p].kind == Pod && Label(g.nodes[p].labels, "node") == id {
      DirectIff(g, scope, p);
    }
  }

  lemma {:induction false} AggrAdmitted(g: Graph, scope: Scope, id: string)
    requires id in g.nodes && g.nodes[id].kind == NetAppAggr
    ensures id in Primary(g, scope) <==> Admits(g, scope, id)
  {
    hide Excluded, Label, RawName, Survives, Hosts, OwnsAdmitted, Primary, NodePasses, InfraPasses;
    PrunedIff(g, scope, id);
    OnlyPodsPruned(g, scope, id);
    PrimaryLoaded(g, scope);
    PrimaryIs(g, scope, id);
    if Stores(g, scope, id) {
      var e :| e in g.edges && e.kind == PVCToNetAppAggr && e.target == id && Direct(g, scope, e.source);
      DirectIff(g, scope, e.source);
    }
    if e :| e in g.edges && e.kind == PVCToNetAppAggr && e.target == id && e.source in Primary(g, scope) && !Deferred(g.nodes[e.source].kind) {
      PrimaryIs(g, scope, e.source);
      DirectIff(g, scope, e.source);
    }
  }

  lemma {:induction false} ControllerAdmitted(g: Graph, scope: Scope, id: string)
    requires id in g.nodes && g.nodes[id].kind == NetAppNode
    ensures id in Primary(g, scope) <==> Admits(g, scope, id)
  {
    hide Excluded, Label, RawName, Survives, Hosts, Stores, Primary, NodePasses, InfraPasses, OwnerID;
    PrunedIff(g, scope, id);
    OnlyPodsPruned(g, scope, id);
    PrimaryLoaded(g, scope);
    PrimaryIs(g, scope, id);
    if OwnsAdmitted(g, scope, id) {
      var a :| AdmittedAggr(g, scope, a) && OwnerID(g.nodes[a]) == id && id != "";
      PrimaryIs(g, scope, a);
    }
    if a :| a in Primary(g, scope) && g.nodes[a].kind == NetAppAggr && OwnerID(g.nodes[a]) == id {
      PrimaryIs(g, scope, a);
    }
  }

  lemma PrimaryIs(g: Graph, scope: Scope, id: string)
    ensures id in Primary(g, scope) <==> id in g.nodes && IsPrimary(g, scope, id)
    ensures id in Primary(g, scope) && g.nodes[id].kind == NetAppAggr ==> AdmittedAggr(g, scope, id)
  {
    hide Excluded, NodePasses, InfraPasses, NetAppPasses, Hosts, Stores, OwnsAdmitted;
  }

  lemma PrimaryLoaded(g: Graph, scope: Scope)
    ensures Primary(g, scope) <= g.nodes.Keys
  {
    hide IsPrimary;
  }

  // The admitted set, by kind, edges and labels alone.
  lemma {:induction false} AdmittedIff(g: Graph, scope: Scope, id: string)
    ensures id in Primary(g, scope) <==> id in g.nodes && Admits(g, scope, id)
  {
    if id in g.nodes {
      var k := g.nodes[id].kind;
      DeferredKinds(k);
      if !Deferred(k) {
        DirectIff(g, scope, id);
      } else if k == K8sNode {
        HostAdmitted(g, scope, id);
      } else if k == NetAppAggr {
        AggrAdmitted(g, scope, id);
      } else {
        ControllerAdmitted(g, scope, id);
      }
    }
  }

  // ---- what is drawn ----

  // Fit to be drawn beside an admitted neighbour: not pruned, and of a requested
  // namespace if it has one at all; the cluster filter does not matter.
  ghost predicate FitPartner(g: Graph, scope: Scope, id: string) {
    && id in g.nodes && Survives(g, scope, id)
    && (|| g.nodes[id].kind == External || g.nodes[id].kind == K8sNode
        || g.nodes[id].kind == NetAppAggr || g.nodes[id].kind == NetAppNode
        || NamespaceOK(scope, g.nodes[id]))
  }

  ghost predicate FitEnd(g: Graph, scope: Scope, id: string) {
    id in Primary(g, scope) || FitPartner(g, scope, id)
  }

  // An edge is kept exactly when one end is admitted and the other is, too, or
  // is fit to be its partner.
  lemma {:induction false} EdgeDrawnIff(g: Graph, scope: Scope, e: Edge)
    ensures e in ViewOf(g, scope).edges <==>
              && e in g.edges && (e.source in Primary(g, scope) || e.target in Primary(g, scope))
              && FitEnd(g, scope, e.source) && FitEnd(g, scope, e.target)
  {
    hide Primary, Excluded, Survives, Label, KeptEdges;
    KeptMembers(g, scope, Primary(g, scope), Excluded(g, scope), g.edges);
    FitIsReaddable(g, scope, e.source);
    FitIsReaddable(g, scope, e.target);
  }

  lemma FitIsReaddable(g: Graph, scope: Scope, id: string)
    ensures Readdable(g, scope, Excluded(g, scope), id) <==> FitPartner(g, scope, id)
  {
    hide Excluded, Survives, Label;
    if id in g.nodes { PrunedIff(g, scope, id); }
  }

  // A node is drawn exactly when it is loaded and admitted, or an end of a kept
  // edge, or the owner of an aggregate that is one of those.
  ghost predicate DrawnItself(g: Graph, scope: Scope, id: string) {
    && id in g.nodes
    && (id in Primary(g, scope) || exists e :: e in ViewOf(g, scope).edges && (e.source == id || e.target == id))
  }

  lemma {:induction false} NodeDrawnIff(g: Graph, scope: Scope, id: string)
    ensures id in ViewOf(g, scope).nodes <==>
              || DrawnItself(g, scope, id)
              || (id in g.nodes && exists a :: DrawnItself(g, scope, a) && OwnerID(g.nodes[a]) == id)
    ensures id in ViewOf(g, scope).nodes ==> ViewOf(g, scope).nodes[id] == g.nodes[id]
  {
    hide Primary, Excluded, OwnerID, Ends, ViewEdges;
    var drawn := Primary(g, scope) + Ends(ViewEdges(g, scope));
    EndsMembers(ViewEdges(g, scope));
    forall x | x in g.nodes ensures x in drawn <==> DrawnItself(g, scope, x) {
    }
    if a :| DrawnItself(g, scope, a) && OwnerID(g.nodes[a]) == id && id in g.nodes {
      assert a in drawn && OwnerID(g.nodes[a]) in g.nodes;
    }
  }

  // So, unfiltered and short of an inventory, a loaded pod is drawn exactly when
  // a call or a selection ends at it, and a loaded claim exactly when such a pod
  // mounts it.
  lemma {:induction false} UnfilteredDrawnIff(g: Graph, scope: Scope, id: string)
    requires OwnersTyped(g) && scope == Scope({}, {}, false) && id in g.nodes
    ensures g.nodes[id].kind == Pod ==> (id in ViewOf(g, scope).nodes <==> Joined(g, id))
    ensures g.nodes[id].kind == PVC ==> (id in ViewOf(g, scope).nodes <==> MountedByJoined(g, id))
  {
    hide Primary, OwnerID, ViewOf, Joined, MountedByJoined, Excluded;
    AdmittedIff(g, scope, id);
    NodeDrawnIff(g, scope, id);
    PrunedIff(g, scope, id);
    if id in ViewOf(g, scope).nodes {
      ExcludedStaysOut(g, scope, id);
    }
  }
}
