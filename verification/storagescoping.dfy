// What a storage request keeps and draws, read off the nodes' own labels: which
// nodes its root value names, and which of them its filters let through.
module StorageScoping {
  import opened Common
  import opened Graphs
  import opened FlowUnits
  import opened FlowWeights
  import opened StorageProjection
  import opened StorageSafety

  // ---- what a root value names ----

  ghost predicate NamesStorage(r: Roots, n: Node) {
    var oc := Label(n.labels, "ontap_cluster");
    || (r.kind == ONTAPClusterRoot && (n.kind == NetAppAggr || n.kind == NetAppNode || n.kind == NetAppSVM) && oc in r.names)
    || (r.kind == ONTAPNodeRoot && n.kind == NetAppNode && n.name in r.names)
    || (r.kind == AggrRoot && n.kind == NetAppAggr && (n.name in r.names || ONTAPRef(oc, n.name) in r.qualified))
    || (r.kind == SVMRoot && n.kind == NetAppSVM && (n.name in r.names || ONTAPRef(oc, n.name) in r.qualified))
  }

  ghost predicate NamesWorkload(r: Roots, n: Node) {
    || (r.kind == HostRoot && n.kind == K8sNode && n.name in r.names)
    || (r.kind == PodRoot && n.kind == Pod && Ref(Label(n.labels, "namespace"), n.name) in r.pods)
    || (r.kind == ApplicationRoot && n.kind == Pod && n.application != "" && n.application in r.names)
    || (n.kind == PVC && ClaimNamed(n, r))
  }

  ghost predicate NamesApplicationClaim(r: Roots, n: Node) {
    r.kind == ApplicationRoot && n.kind == PVC && n.application != "" && n.application in r.names
  }

  lemma {:induction false} RootsAreNamed(n: Node, r: Roots)
    ensures IsStorageRoot(n, r) <==> NamesStorage(r, n)
    ensures IsWorkloadRoot(n, r) <==> NamesWorkload(r, n)
    ensures IsClaimHit(n, r) <==> NamesApplicationClaim(r, n)
    ensures IsClaimRoot(n, r) <==> n.kind == PVC && ClaimNamed(n, r)
  {
    hide Label;
    ClaimRootNamed(n, r);
  }

  // ---- what the filters let through ----

  ghost predicate InFilters(g: Graph, scope: Scope, n: Node) {
    && (scope.clusters == {} || IsStorage(n.kind) || RawName(g, Label(n.labels, "cluster")) in scope.clusters)
    && (scope.namespaces == {} || !(n.kind == Pod || n.kind == PVC) || Label(n.labels, "namespace") in scope.namespaces)
  }

  // A claim, pod or host of the path, where it has one, is loaded and passes.
  ghost predicate EndPasses(g: Graph, scope: Scope, id: string) {
    id != "" ==> id in g.nodes && InFilters(g, scope, g.nodes[id])
  }

  // A unit is kept exactly when a node of its path is named, an unmounted
  // claim's only by a pvc or pv root naming the claim, and its claim, pod and
  // host are loaded and pass the filters.
  lemma {:induction false} UnitKeptIff(g: Graph, scope: Scope, u: Unit)
    ensures Keeps(g, scope, u) <==>
              && (exists id :: id in u.Ids() && id in g.nodes && Names(scope.roots, g.nodes[id]))
              && (u.Sink() ==> u.Claim() in g.nodes && g.nodes[u.Claim()].kind == PVC && ClaimNamed(g.nodes[u.Claim()], scope.roots))
              && EndPasses(g, scope, u.Claim()) && EndPasses(g, scope, u.Pod()) && EndPasses(g, scope, u.Host())
  {
    hide IsStorageRoot, IsWorkloadRoot, IsClaimRoot, IsClaimHit, NamesStorage, NamesWorkload, NamesApplicationClaim, ClaimNamed, Label;
    forall n: Node
      ensures IsStorageRoot(n, scope.roots) <==> NamesStorage(scope.roots, n)
      ensures IsWorkloadRoot(n, scope.roots) <==> NamesWorkload(scope.roots, n)
      ensures IsClaimHit(n, scope.roots) <==> NamesApplicationClaim(scope.roots, n)
      ensures IsClaimRoot(n, scope.roots) <==> n.kind == PVC && ClaimNamed(n, scope.roots)
    {
      RootsAreNamed(n, scope.roots);
    }
    if id :| id in u.Ids() && id in g.nodes && Names(scope.roots, g.nodes[id]) {
      assert id in StorageRoots(g, scope.roots) || id in WorkloadRoots(g, scope.roots) || id in ClaimHits(g, scope.roots);
    }
  }

  ghost predicate Names(r: Roots, n: Node) {
    NamesStorage(r, n) || NamesWorkload(r, n) || NamesApplicationClaim(r, n)
  }

  // Drawn in its own right: loaded and on a kept path, or named and let through;
  // a storage root is never filtered, a claim of a named application not drawn
  // by itself.
  ghost predicate DrawnItself(g: Graph, scope: Scope, id: string) {
    && id in g.nodes
    && (|| (exists i :: 0 <= i < |Kept(g, scope)| && id in Kept(g, scope)[i].Ids())
        || NamesStorage(scope.roots, g.nodes[id])
        || (NamesWorkload(scope.roots, g.nodes[id]) && InFilters(g, scope, g.nodes[id])))
  }

  // And beside those only the loaded controllers that own a drawn aggregate.
  lemma {:induction false} DrawnIff(g: Graph, scope: Scope, view: View, id: string)
    requires IsProjection(g, scope, view)
    ensures id in view.nodes <==>
              || DrawnItself(g, scope, id)
              || (id in g.nodes && exists a :: DrawnItself(g, scope, a) && OwnerID(g.nodes[a]) == id)
    ensures id in view.nodes ==> view.nodes[id] == g.nodes[id]
  {
    hide Kept, PathIds, IsStorageRoot, IsWorkloadRoot, NamesStorage, NamesWorkload, OwnerID, Weighted, Label;
    var units := Kept(g, scope);
    var admitted := Admitted(g, scope, units);
    forall x ensures x in admitted <==> DrawnItself(g, scope, x) {
      PathFrom(units, x);
      if x in g.nodes {
        RootsAreNamed(g.nodes[x], scope.roots);
      }
    }
    if id in Owners(g, admitted) {
      var a :| a in admitted && a in g.nodes && OwnerID(g.nodes[a]) in g.nodes && OwnerID(g.nodes[a]) == id;
      assert DrawnItself(g, scope, a);
    }
    if a :| DrawnItself(g, scope, a) && OwnerID(g.nodes[a]) == id && id in g.nodes {
      assert a in admitted && OwnerID(g.nodes[a]) in g.nodes;
    }
  }
}
