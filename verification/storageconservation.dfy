// What flows into a tier flows out of it: the totals a storage projection
// draws conserve at every aggregate, claim, pod and SVM, whichever units the
// roots and filters kept.
module StorageConservation {
  import opened Common
  import opened Figures
  import opened Graphs
  import opened FlowUnits
  import opened FlowWeights
  import opened StorageProjection

  // Which tier an id belongs to.
  datatype Role = AtController | AtAggr | AtSVM | AtClaim | AtPod | AtHost

  ghost predicate Joins(e: Edge, t: Tier, role: string -> Role, from: Role, to: Role) {
    TierOf(e) == t && e.source != "" && e.target != "" && role(e.source) == from && role(e.target) == to
  }

  ghost predicate AllJoin(edges: seq<Edge>, t: Tier, role: string -> Role, from: Role, to: Role) {
    forall i :: 0 <= i < |edges| ==> Joins(edges[i], t, role, from, to)
  }

  ghost predicate DistinctTargets(edges: seq<Edge>) {
    forall i, j :: 0 <= i < j < |edges| ==> edges[i].target != edges[j].target
  }

  ghost predicate DistinctSources(edges: seq<Edge>) {
    forall i, j :: 0 <= i < j < |edges| ==> edges[i].source != edges[j].source
  }

  ghost predicate DistinctPairs(edges: seq<Edge>) {
    forall i, j :: 0 <= i < j < |edges| ==> PairOf(edges[i]) != PairOf(edges[j])
  }

  // A stamped claim's aggregate feeds the claim's SVM.
  ghost predicate StampsBacked(t: Tiers) {
    forall i :: 0 <= i < |t.svmPVC| && ClaimAggr(t.svmPVC[i]) != "" ==>
      Last(t.aggrSVM, Between(ClaimAggr(t.svmPVC[i]), t.svmPVC[i].source)).Some?
  }

  // The fixed tier chain: each edge joins neighbouring tiers, a claim has one
  // SVM, an aggregate one owner, a pod one host, and no pair is drawn twice.
  ghost predicate TierChain(t: Tiers, role: string -> Role) {
    && AllJoin(t.nodeAggr, NodeToAggr, role, AtController, AtAggr) && DistinctTargets(t.nodeAggr)
    && AllJoin(t.aggrSVM, AggrToSVM, role, AtAggr, AtSVM) && DistinctPairs(t.aggrSVM)
    && AllJoin(t.svmPVC, SVMToPVC, role, AtSVM, AtClaim) && DistinctTargets(t.svmPVC)
    && AllJoin(t.pvcPod, PVCToPod, role, AtClaim, AtPod) && DistinctPairs(t.pvcPod)
    && AllJoin(t.podNode, PodToHost, role, AtPod, AtHost) && DistinctSources(t.podNode)
    && StampsBacked(t)
  }

  // ---- the shape of one unit ----

  ghost predicate HopOK(e: Option<Edge>, t: Tier, role: string -> Role, from: Role, to: Role) {
    e.Some? ==> Joins(e.value, t, role, from, to)
  }

  ghost predicate UnitOK(u: Unit, role: string -> Role) {
    && Joins(u.claimHop, SVMToPVC, role, AtSVM, AtClaim)
    && HopOK(u.podHop, PVCToPod, role, AtClaim, AtPod) && (u.podHop.Some? ==> u.podHop.value.source == u.Claim())
    && HopOK(u.aggrHop, AggrToSVM, role, AtAggr, AtSVM)
    && (u.aggrHop.Some? <==> u.aggr != "")
    && (u.aggrHop.Some? ==> PairOf(u.aggrHop.value) == (u.aggr, u.SVM()))
    && HopOK(u.ctrlHop, NodeToAggr, role, AtController, AtAggr)
    && (u.ctrlHop.Some? <==> u.ctrl != "")
    && (u.ctrlHop.Some? ==> PairOf(u.ctrlHop.value) == (u.ctrl, u.aggr))
    && HopOK(u.nodeHop, PodToHost, role, AtPod, AtHost)
    && (u.nodeHop.Some? ==> u.podHop.Some? && u.nodeHop.value.source == u.Pod())
    && u.n > 0
  }

  lemma {:induction false} LastFound(edges: seq<Edge>, key: By)
    ensures Last(edges, key).Some? ==>
              Matches(Last(edges, key).value, key) && exists i :: 0 <= i < |edges| && edges[i] == Last(edges, key).value
    ensures Last(edges, key).None? ==> forall i :: 0 <= i < |edges| ==> !Matches(edges[i], key)
  {
    hide Matches;
    if edges != [] {
      LastFound(edges[..|edges| - 1], key);
    }
  }

  lemma {:induction false} LastJoins(edges: seq<Edge>, key: By, t: Tier, role: string -> Role, from: Role, to: Role)
    requires AllJoin(edges, t, role, from, to)
    ensures HopOK(Last(edges, key), t, role, from, to)
  {
    hide Joins, Last;
    LastFound(edges, key);
  }

  lemma {:induction false} AllFound(edges: seq<Edge>, key: By)
    ensures forall i :: 0 <= i < |All(edges, key)| ==> All(edges, key)[i] in edges && Matches(All(edges, key)[i], key)
    ensures All(edges, key) == [] <==> forall i :: 0 <= i < |edges| ==> !Matches(edges[i], key)
  {
    hide Matches;
    if edges != [] {
      var init := edges[..|edges| - 1];
      AllFound(init, key);
      assert edges == init + [edges[|edges| - 1]];
      assert forall i :: 0 <= i < |init| ==> edges[i] == init[i];
      assert All(edges, key) == All(init, key) + if Matches(edges[|edges| - 1], key) then [edges[|edges| - 1]] else [];
    }
  }

  // Whichever way a claim found its aggregate, the hop to its SVM exists.
  lemma {:induction false} AggrHopExists(t: Tiers, claim: Edge)
    requires StampsBacked(t) && claim in t.svmPVC
    ensures AggrOf(t, claim) != "" ==> AggrHop(t, AggrOf(t, claim), claim).Some?
  {
    hide Last, All, TierOf, Stamped;
    var incoming := All(t.aggrSVM, Into(claim.source));
    if ClaimAggr(claim) == "" && |incoming| == 1 {
      AllFound(t.aggrSVM, Into(claim.source));
      LastFound(t.aggrSVM, Between(incoming[0].source, claim.source));
    }
  }

  lemma {:induction false} MakeUnitOK(nodes: map<string, Node>, t: Tiers, role: string -> Role, claim: Edge, pod: Option<Edge>, n: nat)
    requires TierChain(t, role) && claim in t.svmPVC && n > 0
    requires HopOK(pod, PVCToPod, role, AtClaim, AtPod) && (pod.Some? ==> pod.value.source == claim.target)
    ensures UnitOK(MakeUnit(nodes, t, claim, pod, n), role)
  {
    hide Last, TierOf, AggrOf;
    var aggr := AggrOf(t, claim);
    AggrHopExists(t, claim);
    LastJoins(t.aggrSVM, Between(aggr, claim.source), AggrToSVM, role, AtAggr, AtSVM);
    LastFound(t.aggrSVM, Between(aggr, claim.source));
    LastJoins(t.nodeAggr, Into(aggr), NodeToAggr, role, AtController, AtAggr);
    LastFound(t.nodeAggr, Into(aggr));
    if pod.Some? {
      LastJoins(t.podNode, From(pod.value.target), PodToHost, role, AtPod, AtHost);
      LastFound(t.podNode, From(pod.value.target));
    }
  }

  // What every unit of a claim has in common with the claim.
  ghost predicate Belongs(nodes: map<string, Node>, t: Tiers, u: Unit, claim: Edge) {
    && u.claimHop == claim
    && u == MakeUnit(nodes, t, claim, u.podHop, u.n)
    && (u.podHop.None? <==> Mounters(t, claim) == [])
    && (u.podHop.Some? ==> u.podHop.value in Mounters(t, claim))
    && u.n == (if Mounters(t, claim) == [] then 1 else |Mounters(t, claim)|)
  }

  lemma {:induction false} ClaimUnitsBelong(nodes: map<string, Node>, t: Tiers, claim: Edge)
    ensures forall i :: 0 <= i < |UnitsOfClaim(nodes, t, claim)| ==> Belongs(nodes, t, UnitsOfClaim(nodes, t, claim)[i], claim)
    ensures |UnitsOfClaim(nodes, t, claim)| == if Mounters(t, claim) == [] then 1 else |Mounters(t, claim)|
  {
    hide Mounters, AggrOf, AggrHop, CtrlHop, HostHop, Owner;
  }

  ghost predicate UnitFrom(nodes: map<string, Node>, t: Tiers, u: Unit) {
    exists i :: 0 <= i < |t.svmPVC| && Belongs(nodes, t, u, t.svmPVC[i])
  }

  lemma {:induction false} UnitsBelong(nodes: map<string, Node>, t: Tiers, k: nat)
    requires k <= |t.svmPVC|
    ensures forall i :: 0 <= i < |UnitsOf(nodes, t, t.svmPVC[..k])| ==> UnitFrom(nodes, t, UnitsOf(nodes, t, t.svmPVC[..k])[i])
  {
    hide Belongs, UnitsOfClaim;
    if k > 0 {
      UnitsBelong(nodes, t, k - 1);
      ClaimUnitsBelong(nodes, t, t.svmPVC[k - 1]);
      assert t.svmPVC[..k][..k - 1] == t.svmPVC[..k - 1];
    }
  }

  lemma {:induction false} UnitFromOK(nodes: map<string, Node>, t: Tiers, role: string -> Role, u: Unit)
    requires TierChain(t, role) && UnitFrom(nodes, t, u)
    ensures UnitOK(u, role)
  {
    hide UnitOK, All, MakeUnit, TierOf;
    var i :| 0 <= i < |t.svmPVC| && Belongs(nodes, t, u, t.svmPVC[i]);
    AllFound(t.pvcPod, From(u.Claim()));
    MakeUnitOK(nodes, t, role, u.claimHop, u.podHop, u.n);
  }

  lemma {:induction false} RetainedFrom(g: Graph, scope: Scope, units: seq<Unit>)
    ensures forall i :: 0 <= i < |Retained(g, scope, units)| ==>
              Retained(g, scope, units)[i] in units && Keeps(g, scope, Retained(g, scope, units)[i])
  {
    hide Keeps;
    if units != [] {
      RetainedFrom(g, scope, units[..|units| - 1]);
      assert forall u :: u in units[..|units| - 1] ==> u in units;
    }
  }

  lemma {:induction false} KeptFrom(g: Graph, scope: Scope)
    ensures forall i :: 0 <= i < |Kept(g, scope)| ==>
              UnitFrom(g.nodes, TiersOf(g.edges), Kept(g, scope)[i]) && Keeps(g, scope, Kept(g, scope)[i])
  {
    hide UnitFrom, Keeps, TiersOf, UnitsOf, Retained;
    var t := TiersOf(g.edges);
    UnitsBelong(g.nodes, t, |t.svmPVC|);
    assert t.svmPVC[..|t.svmPVC|] == t.svmPVC;
    RetainedFrom(g, scope, Units(g));
  }

  // ---- a unit's contribution to a choice of edges ----

  function ListedFlow(u: Unit, e: Option<Edge>, chosen: Pair -> bool, f: Figure): Option<real> {
    if e.Some? && chosen(PairOf(e.value)) then UnitShare(u, f) else None
  }

  function UnitFlow(u: Unit, chosen: Pair -> bool, f: Figure): Option<real> {
    Add(Add(Add(Add(ListedFlow(u, Some(u.claimHop), chosen, f), ListedFlow(u, u.podHop, chosen, f)),
                ListedFlow(u, u.aggrHop, chosen, f)),
            ListedFlow(u, u.ctrlHop, chosen, f)),
        ListedFlow(u, u.nodeHop, chosen, f))
  }

  lemma {:induction false} HopFlowAppend(a: seq<Hop>, b: seq<Hop>, chosen: Pair -> bool, f: Figure)
    ensures HopFlow(a + b, chosen, f) == Add(HopFlow(a, chosen, f), HopFlow(b, chosen, f))
  {
    hide UnitShare, Add;
    if b == [] {
      assert a + b == a;
      AddLaws(HopFlow(a, chosen, f), None, None);
    } else {
      var n := |b| - 1;
      assert (a + b)[..|a + b| - 1] == a + b[..n];
      HopFlowAppend(a, b[..n], chosen, f);
      AddLaws(HopFlow(a, chosen, f), HopFlow(b[..n], chosen, f), UnitShare(b[n].unit, f));
    }
  }

  function HopList(u: Unit, e: Option<Edge>): seq<Hop> {
    if e.Some? then [Hop(u, e.value)] else []
  }

  lemma {:induction false} HopListFlow(u: Unit, e: Option<Edge>, chosen: Pair -> bool, f: Figure)
    ensures HopFlow(HopList(u, e), chosen, f) == ListedFlow(u, e, chosen, f)
  {
    hide UnitShare;
    if e.Some? {
      var hops := [Hop(u, e.value)];
      assert hops[..0] == [];
    }
  }

  lemma {:induction false} UnitHopsFlow(u: Unit, chosen: Pair -> bool, f: Figure)
    ensures HopFlow(UnitHops(u), chosen, f) == UnitFlow(u, chosen, f)
  {
    hide HopFlow, ListedFlow, Add;
    var a, b, c, d, e :=
      HopList(u, Some(u.claimHop)), HopList(u, u.podHop), HopList(u, u.aggrHop), HopList(u, u.ctrlHop), HopList(u, u.nodeHop);
    assert UnitHops(u) == a + b + c + d + e;
    HopListFlow(u, Some(u.claimHop), chosen, f);
    HopListFlow(u, u.podHop, chosen, f);
    HopListFlow(u, u.aggrHop, chosen, f);
    HopListFlow(u, u.ctrlHop, chosen, f);
    HopListFlow(u, u.nodeHop, chosen, f);
    HopFlowAppend(a, b, chosen, f);
    HopFlowAppend(a + b, c, chosen, f);
    HopFlowAppend(a + b + c, d, chosen, f);
    HopFlowAppend(a + b + c + d, e, chosen, f);
  }

  // Where every unit's two contributions agree with a third, so do the totals.
  lemma {:induction false} FlowsAdd(units: seq<Unit>, a: Pair -> bool, b: Pair -> bool, c: Pair -> bool, f: Figure)
    requires forall i :: 0 <= i < |units| ==> UnitFlow(units[i], a, f) == Add(UnitFlow(units[i], b, f), UnitFlow(units[i], c, f))
    ensures HopFlow(HopsOf(units), a, f) == Add(HopFlow(HopsOf(units), b, f), HopFlow(HopsOf(units), c, f))
  {
    hide UnitFlow, Add, UnitHops, HopFlow;
    if units == [] {
      EmptyFlow(a, f);
      EmptyFlow(b, f);
      EmptyFlow(c, f);
      AddLaws(None, None, None);
    } else {
      var n := |units| - 1;
      var init, hops := HopsOf(units[..n]), UnitHops(units[n]);
      FlowsAdd(units[..n], a, b, c, f);
      AppendFlow(init, units[n], a, f);
      AppendFlow(init, units[n], b, f);
      AppendFlow(init, units[n], c, f);
      Interchange(HopFlow(init, b, f), HopFlow(init, c, f), UnitFlow(units[n], b, f), UnitFlow(units[n], c, f));
    }
  }

  lemma EmptyFlow(chosen: Pair -> bool, f: Figure)
    ensures HopFlow([], chosen, f) == None
  {
  }

  lemma {:induction false} AppendFlow(init: seq<Hop>, u: Unit, chosen: Pair -> bool, f: Figure)
    ensures HopFlow(init + UnitHops(u), chosen, f) == Add(HopFlow(init, chosen, f), UnitFlow(u, chosen, f))
  {
    hide UnitFlow, Add, UnitHops, HopFlow;
    HopFlowAppend(init, UnitHops(u), chosen, f);
    UnitHopsFlow(u, chosen, f);
  }

  lemma Interchange(a: Option<real>, b: Option<real>, c: Option<real>, d: Option<real>)
    ensures Add(Add(a, b), Add(c, d)) == Add(Add(a, c), Add(b, d))
  {
  }

  // ---- the tiers ----

  function Entering(id: string): Pair -> bool {
    (p: Pair) => p.1 == id
  }

  function Leaving(id: string): Pair -> bool {
    (p: Pair) => p.0 == id
  }

  function Nowhere(): Pair -> bool {
    (p: Pair) => false
  }

  ghost predicate AggrlessClaim(t: Tiers, id: string) {
    exists i :: 0 <= i < |t.svmPVC| && t.svmPVC[i].target == id && AggrOf(t, t.svmPVC[i]) == ""
  }

  ghost function ToAggrless(t: Tiers, svm: string): Pair -> bool {
    (p: Pair) => p.0 == svm && AggrlessClaim(t, p.1)
  }

  lemma {:induction false} Conserves(g: Graph, scope: Scope, view: View, a: Pair -> bool, b: Pair -> bool, c: Pair -> bool, f: Figure)
    requires IsProjection(g, scope, view)
    requires forall i :: 0 <= i < |Kept(g, scope)| ==>
               UnitFlow(Kept(g, scope)[i], a, f) == Add(UnitFlow(Kept(g, scope)[i], b, f), UnitFlow(Kept(g, scope)[i], c, f))
    ensures FlowOver(view.edges, a, f) == Add(FlowOver(view.edges, b, f), FlowOver(view.edges, c, f))
  {
    hide Weighted, FlowOver, HopFlow, HopsOf, Kept, UnitFlow, DrawnIds, Add;
    FlowsAdd(Kept(g, scope), a, b, c, f);
    FlowByHops(view.edges, HopsOf(Kept(g, scope)), a, f);
    FlowByHops(view.edges, HopsOf(Kept(g, scope)), b, f);
    FlowByHops(view.edges, HopsOf(Kept(g, scope)), c, f);
  }

  lemma {:induction false} ConservesNode(g: Graph, scope: Scope, view: View, id: string, f: Figure)
    requires IsProjection(g, scope, view)
    requires forall i :: 0 <= i < |Kept(g, scope)| ==>
               UnitFlow(Kept(g, scope)[i], Entering(id), f) == UnitFlow(Kept(g, scope)[i], Leaving(id), f)
    ensures FlowOver(view.edges, Entering(id), f) == FlowOver(view.edges, Leaving(id), f)
  {
    hide IsProjection, FlowOver, Kept, UnitFlow, Entering, Leaving, Nowhere;
    forall i | 0 <= i < |Kept(g, scope)|
      ensures UnitFlow(Kept(g, scope)[i], Entering(id), f)
              == Add(UnitFlow(Kept(g, scope)[i], Leaving(id), f), UnitFlow(Kept(g, scope)[i], Nowhere(), f))
    {
      NoFlow(Kept(g, scope)[i], f);
    }
    Conserves(g, scope, view, Entering(id), Leaving(id), Nowhere(), f);
    NoFlowOver(view.edges, f);
  }

  lemma NoFlow(u: Unit, f: Figure)
    ensures UnitFlow(u, Nowhere(), f) == None
  {
  }

  lemma {:induction false} NoFlowOver(out: seq<Edge>, f: Figure)
    ensures FlowOver(out, Nowhere(), f) == None
  {
    if out != [] {
      NoFlowOver(out[..|out| - 1], f);
    }
  }

  lemma {:induction false} AggrUnit(u: Unit, role: string -> Role, id: string, f: Figure)
    requires UnitOK(u, role) && role(id) == AtAggr
    requires u.aggr == id ==> u.ctrl != ""
    ensures UnitFlow(u, Entering(id), f) == UnitFlow(u, Leaving(id), f)
  {
    hide UnitShare, TierOf;
  }

  lemma {:induction false} ClaimUnit(u: Unit, role: string -> Role, id: string, f: Figure)
    requires UnitOK(u, role) && role(id) == AtClaim
    requires u.Claim() == id ==> u.podHop.Some?
    ensures UnitFlow(u, Entering(id), f) == UnitFlow(u, Leaving(id), f)
  {
    hide UnitShare, TierOf;
  }

  lemma {:induction false} PodUnit(u: Unit, role: string -> Role, id: string, f: Figure)
    requires UnitOK(u, role) && role(id) == AtPod
    requires u.podHop.Some? && u.Pod() == id ==> u.nodeHop.Some?
    ensures UnitFlow(u, Entering(id), f) == UnitFlow(u, Leaving(id), f)
  {
    hide UnitShare, TierOf;
  }

  lemma {:induction false} SVMUnit(u: Unit, role: string -> Role, t: Tiers, id: string, f: Figure)
    requires UnitOK(u, role) && role(id) == AtSVM
    requires AggrlessClaim(t, u.Claim()) <==> u.aggr == ""
    ensures UnitFlow(u, Leaving(id), f) == Add(UnitFlow(u, Entering(id), f), UnitFlow(u, ToAggrless(t, id), f))
  {
    hide UnitShare, TierOf, AggrlessClaim;
  }

  // At an owned aggregate, what its controller pushes is what its SVMs take.
  lemma {:induction false} OwnedAggregatesConserve(g: Graph, scope: Scope, view: View, role: string -> Role, id: string, f: Figure)
    requires IsProjection(g, scope, view) && TierChain(TiersOf(g.edges), role)
    requires role(id) == AtAggr && Owner(TiersOf(g.edges), id) != ""
    ensures FlowOver(view.edges, Entering(id), f) == FlowOver(view.edges, Leaving(id), f)
  {
    hide IsProjection, FlowOver, Kept, UnitFlow, Entering, Leaving, Keeps, UnitOK, TierChain, TiersOf;
    KeptFrom(g, scope);
    forall i | 0 <= i < |Kept(g, scope)|
      ensures UnitFlow(Kept(g, scope)[i], Entering(id), f) == UnitFlow(Kept(g, scope)[i], Leaving(id), f)
    {
      UnitFromOK(g.nodes, TiersOf(g.edges), role, Kept(g, scope)[i]);
      AggrUnit(Kept(g, scope)[i], role, id, f);
    }
    ConservesNode(g, scope, view, id, f);
  }

  // At a mounted claim, what the SVM serves is what its pods take.
  lemma {:induction false} MountedClaimsConserve(g: Graph, scope: Scope, view: View, role: string -> Role, id: string, f: Figure)
    requires IsProjection(g, scope, view) && TierChain(TiersOf(g.edges), role)
    requires role(id) == AtClaim && All(TiersOf(g.edges).pvcPod, From(id)) != []
    ensures FlowOver(view.edges, Entering(id), f) == FlowOver(view.edges, Leaving(id), f)
  {
    hide IsProjection, FlowOver, Kept, UnitFlow, Entering, Leaving, Keeps, UnitOK, TierChain, TiersOf;
    KeptFrom(g, scope);
    forall i | 0 <= i < |Kept(g, scope)|
      ensures UnitFlow(Kept(g, scope)[i], Entering(id), f) == UnitFlow(Kept(g, scope)[i], Leaving(id), f)
    {
      UnitFromOK(g.nodes, TiersOf(g.edges), role, Kept(g, scope)[i]);
      ClaimUnit(Kept(g, scope)[i], role, id, f);
    }
    ConservesNode(g, scope, view, id, f);
  }

  // At a pod scheduled on a loaded node, what it mounts is what the node takes.
  lemma {:induction false} HostedPodsConserve(g: Graph, scope: Scope, view: View, role: string -> Role, id: string, f: Figure)
    requires IsProjection(g, scope, view) && TierChain(TiersOf(g.edges), role)
    requires role(id) == AtPod && Last(TiersOf(g.edges).podNode, From(id)).Some?
    requires Last(TiersOf(g.edges).podNode, From(id)).value.target in g.nodes
    ensures FlowOver(view.edges, Entering(id), f) == FlowOver(view.edges, Leaving(id), f)
  {
    hide IsProjection, FlowOver, Kept, UnitFlow, Entering, Leaving, Keeps, UnitOK, TierChain, TiersOf;
    KeptFrom(g, scope);
    forall i | 0 <= i < |Kept(g, scope)|
      ensures UnitFlow(Kept(g, scope)[i], Entering(id), f) == UnitFlow(Kept(g, scope)[i], Leaving(id), f)
    {
      UnitFromOK(g.nodes, TiersOf(g.edges), role, Kept(g, scope)[i]);
      PodUnit(Kept(g, scope)[i], role, id, f);
    }
    ConservesNode(g, scope, view, id, f);
  }

  lemma {:induction false} AggrlessWhen(nodes: map<string, Node>, t: Tiers, u: Unit)
    requires UnitFrom(nodes, t, u) && DistinctTargets(t.svmPVC)
    ensures AggrlessClaim(t, u.Claim()) <==> u.aggr == ""
  {
    hide Last, All, AggrOf, AggrHop, CtrlHop, Owner, HostHop;
    var i :| 0 <= i < |t.svmPVC| && Belongs(nodes, t, u, t.svmPVC[i]);
    if AggrlessClaim(t, u.Claim()) {
      var j :| 0 <= j < |t.svmPVC| && t.svmPVC[j].target == u.Claim() && AggrOf(t, t.svmPVC[j]) == "";
      assert i == j;
    }
  }

  // An SVM serves what its aggregates push and what its aggregate-less claims take.
  lemma {:induction false} SVMsConserve(g: Graph, scope: Scope, view: View, role: string -> Role, id: string, f: Figure)
    requires IsProjection(g, scope, view) && TierChain(TiersOf(g.edges), role) && role(id) == AtSVM
    ensures FlowOver(view.edges, Leaving(id), f)
            == Add(FlowOver(view.edges, Entering(id), f), FlowOver(view.edges, ToAggrless(TiersOf(g.edges), id), f))
  {
    hide IsProjection, FlowOver, Kept, UnitFlow, Entering, Leaving, ToAggrless, Keeps, UnitOK, TiersOf, UnitFrom, AggrlessClaim;
    var t := TiersOf(g.edges);
    KeptFrom(g, scope);
    forall i | 0 <= i < |Kept(g, scope)|
      ensures UnitFlow(Kept(g, scope)[i], Leaving(id), f)
              == Add(UnitFlow(Kept(g, scope)[i], Entering(id), f), UnitFlow(Kept(g, scope)[i], ToAggrless(t, id), f))
    {
      UnitFromOK(g.nodes, t, role, Kept(g, scope)[i]);
      AggrlessWhen(g.nodes, t, Kept(g, scope)[i]);
      SVMUnit(Kept(g, scope)[i], role, t, id, f);
    }
    Conserves(g, scope, view, Leaving(id), Entering(id), ToAggrless(t, id), f);
  }
}
