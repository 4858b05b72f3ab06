// What a storage projection never draws, and what adding roots never takes away.
module StorageSafety {
  import opened Common
  import opened Figures
  import opened Graphs
  import opened FlowUnits
  import opened FlowWeights
  import opened StorageProjection
  import opened StorageConservation
  import opened StorageClaims

  // Loaded nodes on the storage tiers, and owning controllers, are NetApp nodes.
  ghost predicate TypedTiers(g: Graph, role: string -> Role) {
    forall id :: id in g.nodes ==>
      && ((role(id) == AtController || role(id) == AtAggr || role(id) == AtSVM) ==> IsStorage(g.nodes[id].kind))
      && (OwnerID(g.nodes[id]) in g.nodes ==> IsStorage(g.nodes[OwnerID(g.nodes[id])].kind))
  }

  lemma {:induction false} PathFrom(units: seq<Unit>, id: string)
    ensures id in PathIds(units) <==> exists i :: 0 <= i < |units| && id in units[i].Ids()
  {
    if units != [] {
      var init := units[..|units| - 1];
      PathFrom(init, id);
      assert forall i :: 0 <= i < |init| ==> init[i] == units[i];
      if id in PathIds(units) {
        if id in PathIds(init) {
          var i :| 0 <= i < |init| && id in init[i].Ids();
          assert id in units[i].Ids();
        } else {
          assert id in units[|units| - 1].Ids();
        }
      }
    }
  }

  lemma {:induction false} IdOnPath(u: Unit, id: string)
    requires id in u.Ids()
    ensures || id == u.SVM() || id == u.Claim() || (!u.Sink() && id == u.Pod()) || (u.aggr != "" && id == u.aggr)
            || (u.ctrl != "" && id == u.ctrl) || (u.nodeHop.Some? && id == u.Host())
  {
    hide Named;
    if id in Named(u.aggr) { NamedId(u.aggr, id); }
    if id in Named(u.ctrl) { NamedId(u.ctrl, id); }
  }

  lemma NamedId(name: string, id: string)
    ensures id in Named(name) <==> name != "" && id == name
  {
  }

  lemma {:induction false} PathNodePasses(g: Graph, scope: Scope, role: string -> Role, u: Unit, id: string)
    requires UnitOK(u, role) && Passes(g, scope, u) && TypedTiers(g, role)
    requires id in u.Ids() && id in g.nodes && !IsStorage(g.nodes[id].kind)
    ensures WorkloadPasses(g, g.nodes[id], scope)
  {
    hide IsStorage, WorkloadPasses, TierOf;
    IdOnPath(u, id);
    assert u.Claim() != "";
    assert u.podHop.Some? ==> u.Pod() != "";
    assert u.nodeHop.Some? ==> u.Host() != "";
  }

  // Every pod, claim and Kubernetes node drawn passes the filters, read off its
  // own labels, whatever the root kind.
  lemma {:induction false} DrawnNodesPass(g: Graph, scope: Scope, view: View, role: string -> Role, id: string)
    requires IsProjection(g, scope, view) && TierChain(TiersOf(g.edges), role) && TypedTiers(g, role)
    requires id in view.nodes
    requires var k := view.nodes[id].kind; k != NetAppAggr && k != NetAppNode && k != NetAppSVM
    ensures scope.clusters != {} ==> RawName(g, Label(view.nodes[id].labels, "cluster")) in scope.clusters
    ensures scope.namespaces != {} && (view.nodes[id].kind == Pod || view.nodes[id].kind == PVC) ==>
              Label(view.nodes[id].labels, "namespace") in scope.namespaces
  {
    DrawnPasses(g, scope, view, role, id);
  }

  lemma {:induction false} DrawnPasses(g: Graph, scope: Scope, view: View, role: string -> Role, id: string)
    requires IsProjection(g, scope, view) && TierChain(TiersOf(g.edges), role) && TypedTiers(g, role)
    requires id in view.nodes && !IsStorage(view.nodes[id].kind)
    ensures WorkloadPasses(g, view.nodes[id], scope)
  {
    hide TierChain, TiersOf, WorkloadPasses, Weighted, UnitFrom, UnitOK, Kept, PathIds, Passes, Reaches, IsStorage;
    var units := Kept(g, scope);
    if id in PathIds(units) {
      PathFrom(units, id);
      KeptFrom(g, scope);
      var i :| 0 <= i < |units| && id in units[i].Ids();
      UnitFromOK(g.nodes, TiersOf(g.edges), role, units[i]);
      PathNodePasses(g, scope, role, units[i], id);
    } else if id in StorageRoots(g, scope.roots) {
      RootIsStorage(g.nodes[id], scope.roots);
    }
  }

  lemma RootIsStorage(n: Node, r: Roots)
    requires IsStorageRoot(n, r)
    ensures IsStorage(n.kind)
  {
  }

  // ---- unmounted claims ----

  lemma {:induction false} RootReaches(g: Graph, scope: Scope, u: Unit)
    requires u.Claim() in ClaimRoots(g, scope.roots)
    ensures Reaches(u, WorkloadRoots(g, scope.roots))
  {
    assert u.Claim() in WorkloadRoots(g, scope.roots);
    assert u.Ids()[1] == u.Claim();
  }

  lemma {:induction false} SinkKept(g: Graph, scope: Scope, u: Unit)
    requires u.Sink() && u.nodeHop.None? && u.Claim() != ""
    ensures Keeps(g, scope, u) <==> u.Claim() in ClaimRoots(g, scope.roots) && WorkloadPasses(g, g.nodes[u.Claim()], scope)
  {
    hide Reaches, WorkloadPasses, IsClaimRoot;
    if u.Claim() in ClaimRoots(g, scope.roots) {
      RootReaches(g, scope, u);
    }
  }

  // A claim no pod mounts is drawn exactly when a pvc or pv root names it and
  // it passes the filters.
  lemma {:induction false} UnmountedDrawnIffRoot(g: Graph, scope: Scope, view: View, role: string -> Role, claim: Edge)
    requires IsProjection(g, scope, view) && TierChain(TiersOf(g.edges), role)
    requires claim in TiersOf(g.edges).svmPVC && Mounters(TiersOf(g.edges), claim) == []
    ensures PairOf(claim) in PairsOf(view.edges) <==>
              && claim.target in g.nodes && g.nodes[claim.target].kind == PVC
              && ClaimNamed(g.nodes[claim.target], scope.roots)
              && var labels := g.nodes[claim.target].labels;
                 && (scope.clusters == {} || RawName(g, Label(labels, "cluster")) in scope.clusters)
                 && (scope.namespaces == {} || Label(labels, "namespace") in scope.namespaces)
  {
    hide TierChain, TiersOf, IsProjection, Mounters, PairsOf, ClaimNamed, IsClaimRoot, WorkloadPasses, Label, RawName;
    UnmountedDrawn(g, scope, view, role, claim);
    if claim.target in g.nodes {
      ClaimRootNamed(g.nodes[claim.target], scope.roots);
      if g.nodes[claim.target].kind == PVC { ClaimPasses(g, scope, g.nodes[claim.target]); }
    }
  }

  lemma ClaimRootNamed(n: Node, r: Roots)
    ensures IsClaimRoot(n, r) <==> n.kind == PVC && ClaimNamed(n, r)
  {
    hide Label;
  }

  lemma ClaimPasses(g: Graph, scope: Scope, n: Node)
    requires n.kind == PVC
    ensures WorkloadPasses(g, n, scope) <==>
              && (scope.clusters == {} || RawName(g, Label(n.labels, "cluster")) in scope.clusters)
              && (scope.namespaces == {} || Label(n.labels, "namespace") in scope.namespaces)
  {
    hide Label, RawName;
  }

  // Named by namespace and name under a pvc root, or by its bound volume under
  // a pv root.
  ghost predicate ClaimNamed(n: Node, r: Roots) {
    || (r.kind == ClaimRoot && Ref(Label(n.labels, "namespace"), n.name) in r.claims)
    || (r.kind == VolumeRoot && Label(n.labels, "volumename") != "" && Label(n.labels, "volumename") in r.names)
  }

  lemma {:induction false} UnmountedDrawn(g: Graph, scope: Scope, view: View, role: string -> Role, claim: Edge)
    requires IsProjection(g, scope, view) && TierChain(TiersOf(g.edges), role)
    requires claim in TiersOf(g.edges).svmPVC && Mounters(TiersOf(g.edges), claim) == []
    ensures PairOf(claim) in PairsOf(view.edges) <==>
              claim.target in ClaimRoots(g, scope.roots) && WorkloadPasses(g, g.nodes[claim.target], scope)
  {
    hide TierChain, TiersOf, WorkloadPasses, ClaimRoots, Joins, TierOf, DistinctTargets, OfClaim, Retained, MakeUnit, Mounters,
      UnitsOf, Keeps;
    var t := TiersOf(g.edges);
    ClaimJoins(t, role, claim);
    ClaimTargetNamed(claim, role);
    ChainHasDistinctClaims(t, role);
    var sink := MakeUnit(g.nodes, t, claim, None, 1);
    SinkOf(g.nodes, t, claim);
    SinkKept(g, scope, sink);
    UnitsOfOneClaim(g.nodes, t, |t.svmPVC|, claim);
    assert t.svmPVC[..|t.svmPVC|] == t.svmPVC;
    RetainedOfClaim(g, scope, Units(g), claim);
    assert UnitsOfClaim(g.nodes, t, claim) == [sink];
    RetainedOne(g, scope, sink);
    DrawnIffContributed(g, scope, view, role, claim);
  }

  lemma ClaimTargetNamed(claim: Edge, role: string -> Role)
    requires Joins(claim, SVMToPVC, role, AtSVM, AtClaim)
    ensures claim.target != ""
  {
  }

  lemma SinkOf(nodes: map<string, Node>, t: Tiers, claim: Edge)
    ensures var u := MakeUnit(nodes, t, claim, None, 1); u.Sink() && u.nodeHop.None? && u.claimHop == claim
  {
  }

  lemma {:induction false} RetainedOne(g: Graph, scope: Scope, u: Unit)
    ensures Retained(g, scope, [u]) == if Keeps(g, scope, u) then [u] else []
  {
    hide Keeps;
    assert [u][..0] == [];
  }

  lemma {:induction false} DrawnIffContributed(g: Graph, scope: Scope, view: View, role: string -> Role, claim: Edge)
    requires IsProjection(g, scope, view) && TierChain(TiersOf(g.edges), role) && claim in TiersOf(g.edges).svmPVC
    ensures PairOf(claim) in PairsOf(view.edges) <==> OfClaim(Kept(g, scope), claim) != []
  {
    hide TierChain, TiersOf, Kept, Joins, TierOf, OfClaim, UnitFrom, UnitOK, Keeps, HopsOf, FirstEdge, Contrib, DrawnIds;
    var units := Kept(g, scope);
    KeptFrom(g, scope);
    ClaimJoins(TiersOf(g.edges), role, claim);
    forall j | 0 <= j < |units|
      ensures UnitOK(units[j], role) && (PairOf(units[j].claimHop) == PairOf(claim) <==> units[j].claimHop == claim)
    {
      OfOneClaim(g.nodes, TiersOf(g.edges), role, units[j], claim);
    }
    ClaimContrib(units, role, claim);
    if OfClaim(units, claim) != [] {
      DrawnPair(view.edges, HopsOf(units), PairOf(claim));
    }
  }

  // ---- dangling edges ----

  // The NetApp nodes the tier chain names are loaded.
  ghost predicate NetAppLoaded(g: Graph) {
    var t := TiersOf(g.edges);
    && (forall i :: 0 <= i < |t.svmPVC| ==> t.svmPVC[i].source in g.nodes)
    && (forall i :: 0 <= i < |t.aggrSVM| ==> t.aggrSVM[i].source in g.nodes && t.aggrSVM[i].target in g.nodes)
    && (forall i :: 0 <= i < |t.nodeAggr| ==> t.nodeAggr[i].source in g.nodes)
  }

  ghost predicate UnitLoaded(g: Graph, u: Unit) {
    && u.SVM() in g.nodes && u.Claim() in g.nodes
    && (u.podHop.Some? ==> u.Pod() in g.nodes) && (u.nodeHop.Some? ==> u.Host() in g.nodes)
    && (u.aggr != "" ==> u.aggr in g.nodes) && (u.ctrl != "" ==> u.ctrl in g.nodes)
  }

  lemma {:induction false} LastSourceLoaded(g: Graph, edges: seq<Edge>, key: By)
    requires forall i :: 0 <= i < |edges| ==> edges[i].source in g.nodes
    ensures Last(edges, key).Some? ==> Last(edges, key).value.source in g.nodes
  {
    hide Last, Matches;
    LastFound(edges, key);
  }

  lemma {:induction false} KeptUnitLoaded(g: Graph, scope: Scope, role: string -> Role, u: Unit)
    requires TierChain(TiersOf(g.edges), role) && NetAppLoaded(g)
    requires UnitFrom(g.nodes, TiersOf(g.edges), u) && Passes(g, scope, u)
    ensures UnitLoaded(g, u)
  {
    hide TiersOf, TierOf, Last, All, AggrOf, Mounters, WorkloadPasses, TierChain;
    var t := TiersOf(g.edges);
    UnitFromOK(g.nodes, t, role, u);
    var i :| 0 <= i < |t.svmPVC| && Belongs(g.nodes, t, u, t.svmPVC[i]);
    LastSourceLoaded(g, t.aggrSVM, Between(u.aggr, u.SVM()));
    LastSourceLoaded(g, t.nodeAggr, Into(u.aggr));
    assert u.Claim() != "";
  }

  lemma {:induction false} HopEndsOnPath(u: Unit, role: string -> Role, e: Edge)
    requires UnitOK(u, role) && e in u.Hops()
    ensures e.source in u.Ids() && e.target in u.Ids()
  {
    hide TierOf, Named;
    var ids := u.Ids();
    assert ids[0] == u.SVM() && ids[1] == u.Claim();
    NamedId(u.aggr, u.aggr);
    NamedId(u.ctrl, u.ctrl);
    HopOneOf(u, e);
    assert u.podHop.Some? ==> ids[2] == u.Pod();
    assert u.nodeHop.Some? ==> ids[|ids| - 1] == u.Host();
  }

  lemma {:induction false} HopOneOf(u: Unit, e: Edge)
    requires e in u.Hops()
    ensures e == u.claimHop || u.podHop == Some(e) || u.aggrHop == Some(e) || u.ctrlHop == Some(e) || u.nodeHop == Some(e)
  {
  }

  lemma {:induction false} UnitIdsLoaded(g: Graph, u: Unit, id: string)
    requires UnitLoaded(g, u) && id in u.Ids()
    ensures id in g.nodes
  {
    IdOnPath(u, id);
  }

  lemma {:induction false} HopsFrom(units: seq<Unit>, k: nat)
    requires k < |HopsOf(units)|
    ensures exists i :: 0 <= i < |units| && HopsOf(units)[k].unit == units[i] && HopsOf(units)[k].edge in units[i].Hops()
  {
    var n := |units| - 1;
    var before := HopsOf(units[..n]);
    if k < |before| {
      HopsFrom(units[..n], k);
      var i :| 0 <= i < n && before[k].unit == units[..n][i] && before[k].edge in units[..n][i].Hops();
      assert before[k].unit == units[i];
    } else {
      var u := units[n];
      assert HopsOf(units)[k] == UnitHops(u)[k - |before|];
      assert u.Hops()[k - |before|] in u.Hops();
    }
  }

  // No drawn edge dangles.
  lemma {:induction false} NoEdgeDangles(g: Graph, scope: Scope, view: View, role: string -> Role, j: nat)
    requires IsProjection(g, scope, view) && TierChain(TiersOf(g.edges), role) && NetAppLoaded(g)
    requires j < |view.edges|
    ensures view.edges[j].source in view.nodes && view.edges[j].target in view.nodes
  {
    hide TierChain, TiersOf, Kept, TierOf, UnitFrom, UnitOK, HopsOf, FirstEdge, Contrib, PathIds, Passes, NetAppLoaded, UnitLoaded,
      Owners, StorageRoots, WorkloadRoots, Summed;
    var units := Kept(g, scope);
    var p := PairOf(view.edges[j]);
    HopOfPair(HopsOf(units), p);
    var k :| 0 <= k < |HopsOf(units)| && PairOf(HopsOf(units)[k].edge) == p;
    HopsFrom(units, k);
    var e := HopsOf(units)[k].edge;
    var i :| 0 <= i < |units| && HopsOf(units)[k].unit == units[i] && e in units[i].Hops();
    KeptFrom(g, scope);
    UnitFromOK(g.nodes, TiersOf(g.edges), role, units[i]);
    KeptUnitLoaded(g, scope, role, units[i]);
    HopEndsOnPath(units[i], role, e);
    UnitIdsLoaded(g, units[i], e.source);
    UnitIdsLoaded(g, units[i], e.target);
    PathFrom(units, e.source);
    PathFrom(units, e.target);
  }

  // ---- more roots, more of the graph ----

  // The same kind of root, with at least the same values.
  ghost predicate Widens(a: Scope, b: Scope) {
    && b.clusters == a.clusters && b.namespaces == a.namespaces && b.roots.kind == a.roots.kind
    && a.roots.names <= b.roots.names && a.roots.qualified <= b.roots.qualified
    && a.roots.pods <= b.roots.pods && a.roots.claims <= b.roots.claims
  }

  lemma {:induction false} RootsWiden(g: Graph, a: Scope, b: Scope)
    requires Widens(a, b)
    ensures StorageRoots(g, a.roots) <= StorageRoots(g, b.roots) && WorkloadRoots(g, a.roots) <= WorkloadRoots(g, b.roots)
    ensures ClaimRoots(g, a.roots) <= ClaimRoots(g, b.roots) && ClaimHits(g, a.roots) <= ClaimHits(g, b.roots)
  {
    hide IsStorageRoot, IsWorkloadRoot, IsClaimRoot, IsClaimHit;
    forall n: Node
      ensures IsStorageRoot(n, a.roots) ==> IsStorageRoot(n, b.roots)
      ensures IsWorkloadRoot(n, a.roots) ==> IsWorkloadRoot(n, b.roots)
      ensures IsClaimRoot(n, a.roots) ==> IsClaimRoot(n, b.roots)
      ensures IsClaimHit(n, a.roots) ==> IsClaimHit(n, b.roots)
    {
      NodeWidens(n, a, b);
    }
  }

  lemma {:induction false} NodeWidens(n: Node, a: Scope, b: Scope)
    requires Widens(a, b)
    ensures IsStorageRoot(n, a.roots) ==> IsStorageRoot(n, b.roots)
    ensures IsWorkloadRoot(n, a.roots) ==> IsWorkloadRoot(n, b.roots)
    ensures IsClaimRoot(n, a.roots) ==> IsClaimRoot(n, b.roots)
    ensures IsClaimHit(n, a.roots) ==> IsClaimHit(n, b.roots)
  {
    hide Label;
  }

  lemma {:induction false} ReachesMore(u: Unit, ids: set<string>, ids': set<string>)
    requires ids <= ids' && Reaches(u, ids)
    ensures Reaches(u, ids')
  {
    var id :| id in u.Ids() && id in ids;
  }

  lemma {:induction false} KeepsMore(g: Graph, a: Scope, b: Scope, u: Unit)
    requires Widens(a, b) && Keeps(g, a, u)
    ensures Keeps(g, b, u)
  {
    hide StorageRoots, WorkloadRoots, ClaimRoots, ClaimHits, Reaches;
    RootsWiden(g, a, b);
    if Reaches(u, StorageRoots(g, a.roots)) { ReachesMore(u, StorageRoots(g, a.roots), StorageRoots(g, b.roots)); }
    if Reaches(u, WorkloadRoots(g, a.roots)) { ReachesMore(u, WorkloadRoots(g, a.roots), WorkloadRoots(g, b.roots)); }
    if Reaches(u, ClaimHits(g, a.roots)) { ReachesMore(u, ClaimHits(g, a.roots), ClaimHits(g, b.roots)); }
  }

  ghost predicate DrawsMore(a: seq<Unit>, b: seq<Unit>) {
    && PathIds(a) <= PathIds(b)
    && forall p :: FirstEdge(HopsOf(a), p).Some? ==> FirstEdge(HopsOf(b), p).Some?
  }

  lemma {:induction false} BothDrawMore(a: seq<Unit>, b: seq<Unit>, u: Unit)
    requires DrawsMore(a, b)
    ensures DrawsMore(a, b + [u]) && DrawsMore(a + [u], b + [u])
  {
    hide FirstEdge, UnitHops, SetOf, HopsOf, PathIds;
    RetainedMore(a, u);
    RetainedMore(b, u);
    forall p
      ensures FirstEdge(HopsOf(a), p).Some? ==> FirstEdge(HopsOf(b + [u]), p).Some?
      ensures FirstEdge(HopsOf(a + [u]), p).Some? ==> FirstEdge(HopsOf(b + [u]), p).Some?
    {
      ContribAppend(HopsOf(a), UnitHops(u), p);
      ContribAppend(HopsOf(b), UnitHops(u), p);
    }
  }

  lemma {:induction false} RetainsMore(g: Graph, a: Scope, b: Scope, units: seq<Unit>)
    requires Widens(a, b)
    ensures DrawsMore(Retained(g, a, units), Retained(g, b, units))
  {
    hide Keeps, DrawsMore;
    if units == [] {
      DrawNothing();
    } else {
      var n := |units| - 1;
      RetainsMore(g, a, b, units[..n]);
      if Keeps(g, a, units[n]) { KeepsMore(g, a, b, units[n]); }
      BothDrawMore(Retained(g, a, units[..n]), Retained(g, b, units[..n]), units[n]);
    }
  }

  lemma DrawNothing()
    ensures DrawsMore([], [])
  {
  }

  lemma {:induction false} RetainedMore(units: seq<Unit>, u: Unit)
    ensures HopsOf(units + [u]) == HopsOf(units) + UnitHops(u)
    ensures PathIds(units + [u]) == PathIds(units) + SetOf(u.Ids())
  {
    hide UnitHops, SetOf;
    assert (units + [u])[..|units + [u]| - 1] == units;
  }

  // Adding root values of the same kind only adds nodes and edges.
  lemma {:induction false} MoreRootsDrawMore(g: Graph, a: Scope, b: Scope, va: View, vb: View)
    requires Widens(a, b) && IsProjection(g, a, va) && IsProjection(g, b, vb)
    ensures va.nodes.Keys <= vb.nodes.Keys
    ensures forall id :: id in va.nodes ==> vb.nodes[id] == va.nodes[id]
    ensures PairsOf(va.edges) <= PairsOf(vb.edges)
  {
    hide Units, Retained, PathIds, StorageRoots, WorkloadRoots, HopsOf, FirstEdge, Contrib, WorkloadPasses, OwnerID, Summed;
    RootsWiden(g, a, b);
    RetainsMore(g, a, b, Units(g));
    ScopeSame(g, a, b);
    forall p | p in PairsOf(va.edges) ensures p in PairsOf(vb.edges) {
      var hops := HopsOf(Kept(g, b));
      HopOfPair(hops, p);
      var k :| 0 <= k < |hops| && PairOf(hops[k].edge) == p;
    }
  }

  lemma ScopeSame(g: Graph, a: Scope, b: Scope)
    requires Widens(a, b)
    ensures forall n :: WorkloadPasses(g, n, a) <==> WorkloadPasses(g, n, b)
  {
  }

  // ---- presence ----

  lemma {:induction false} SumPresent(units: seq<Unit>, f: Figure)
    ensures Sum(Shares(units, f)).Some? <==> exists i :: 0 <= i < |units| && UnitShare(units[i], f).Some?
  {
    hide UnitShare, Sum, Shares;
    if units == [] {
      NoShares(f);
    } else {
      var n := |units| - 1;
      SumPresent(units[..n], f);
      assert units == units[..n] + [units[n]];
      SharesOfAppend(units[..n], units[n], f);
      forall i | 0 <= i < n && UnitShare(units[..n][i], f).Some? ensures UnitShare(units[i], f).Some? {
      }
    }
  }

  lemma {:induction false} ChangeNeedsBase(units: seq<Unit>, flow: Flow)
    requires Sum(Shares(units, Change(flow))).Some?
    ensures Sum(Shares(units, Base(flow))).Some?
  {
    hide Sum, Shares;
    SumPresent(units, Change(flow));
    SumPresent(units, Base(flow));
    var i :| 0 <= i < |units| && UnitShare(units[i], Change(flow)).Some?;
    assert UnitShare(units[i], Base(flow)).Some?;
  }

  lemma {:induction false} FirstFillFrom(claimTier: bool, units: seq<Unit>)
    requires FirstFill(claimTier, units).Some?
    ensures exists i :: 0 <= i < |units| && Fills(claimTier, units[i]) && units[i].claimHop.io == FirstFill(claimTier, units)
  {
    hide Fills;
    var n := |units| - 1;
    if FirstFill(claimTier, units[..n]).Some? {
      FirstFillFrom(claimTier, units[..n]);
      var i :| 0 <= i < n && Fills(claimTier, units[..n][i]) && units[..n][i].claimHop.io == FirstFill(claimTier, units[..n]);
      assert Fills(claimTier, units[i]);
    }
  }

  lemma {:induction false} SummedTidy(claimTier: bool, units: seq<Unit>)
    ensures Summed(claimTier, units).Some? ==> Tidy(Summed(claimTier, units).value)
  {
    hide Sum, Shares, FirstFill, ScaleFlow, ShareOf;
    if FirstFill(claimTier, units).Some? {
      if Sum(Shares(units, Change(ReadOps))).Some? { ChangeNeedsBase(units, ReadOps); }
      if Sum(Shares(units, Change(WriteOps))).Some? { ChangeNeedsBase(units, WriteOps); }
      if Sum(Shares(units, Change(ReadBytes))).Some? { ChangeNeedsBase(units, ReadBytes); }
      if Sum(Shares(units, Change(WriteBytes))).Some? { ChangeNeedsBase(units, WriteBytes); }
      FirstFillFrom(claimTier, units);
      var i :| 0 <= i < |units| && Fills(claimTier, units[i]) && units[i].claimHop.io == FirstFill(claimTier, units);
      if ScaleFlow(units[i].claimHop.io, units[i].n).1 {
        ScaleFlowShares(units[i].claimHop.io, units[i].n);
        var flow :| ShareOf(units[i].claimHop.io, units[i].n, Base(flow)).Some?;
        assert UnitShare(units[i], Base(flow)).Some?;
        SumPresent(units, Base(flow));
        BaseMeasures(Totals(units), flow);
      }
    }
  }

  lemma BaseMeasures(io: IOMetrics, flow: Flow)
    requires Get(io, Base(flow)).Some?
    ensures Measured(io)
  {
  }

  // On any graph at all: a drawn edge that carries figures carries a
  // measurement, so a ceiling never stands alone, and a change never stands
  // without the figure it is a change of.
  lemma {:induction false} DrawnFiguresAreTidy(g: Graph, scope: Scope, view: View, i: nat)
    requires IsProjection(g, scope, view) && i < |view.edges| && view.edges[i].io.Some?
    ensures Tidy(view.edges[i].io.value)
  {
    hide Kept, HopsOf, FirstEdge, Contrib, Summed, Tidy, DrawnIds, TierOf;
    var p := PairOf(view.edges[i]);
    var hops := HopsOf(Kept(g, scope));
    SummedTidy(TierOf(FirstEdge(hops, p).value) == SVMToPVC, Contrib(hops, p));
  }

  // Two projections of the same graph differ at most in the order of edges.
  lemma {:induction false} ProjectionIsUnique(g: Graph, scope: Scope, va: View, vb: View, i: nat)
    requires IsProjection(g, scope, va) && IsProjection(g, scope, vb) && i < |va.edges|
    ensures va.nodes == vb.nodes && va.edges[i] in vb.edges
  {
    hide Kept, HopsOf, Contrib, Summed, DrawnIds, TierOf, FirstEdge, WeighedEdge;
    DrawnPair(vb.edges, HopsOf(Kept(g, scope)), PairOf(va.edges[i]));
  }
}
