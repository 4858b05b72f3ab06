// Cutting a storage-flow graph into units: one per claim and mounting pod,
// each with every hop of its path through the tier chain.
module FlowUnits {
  import opened Common
  import opened Figures
  import opened Graphs

  datatype Tier = NodeToAggr | AggrToSVM | SVMToPVC | PVCToPod | PodToHost | NoTier

  function TierOf(e: Edge): Tier {
    var tier := Label(e.labels, "tier");
    if e.kind != StorageFlow then NoTier
    else if tier == "node-aggr" then NodeToAggr
    else if tier == "aggr-svm" then AggrToSVM
    else if tier == "svm-pvc" then SVMToPVC
    else if tier == "pvc-pod" then PVCToPod
    else if tier == "pod-node" then PodToHost
    else NoTier
  }

  const CLAIM_AGGR := "claim_aggr"

  function TierEdges(edges: seq<Edge>, t: Tier): seq<Edge> {
    if edges == [] then []
    else
      var before := TierEdges(edges[..|edges| - 1], t);
      if TierOf(edges[|edges| - 1]) == t then before + [edges[|edges| - 1]] else before
  }

  datatype Tiers = Tiers(nodeAggr: seq<Edge>, aggrSVM: seq<Edge>, svmPVC: seq<Edge>, pvcPod: seq<Edge>, podNode: seq<Edge>)

  function TiersOf(edges: seq<Edge>): Tiers {
    Tiers(TierEdges(edges, NodeToAggr), TierEdges(edges, AggrToSVM), TierEdges(edges, SVMToPVC),
          TierEdges(edges, PVCToPod), TierEdges(edges, PodToHost))
  }

  // Only storage-flow edges stand on a tier, the one their label spells.
  lemma TierIs(e: Edge)
    ensures TierOf(e) == NodeToAggr <==> e.kind == StorageFlow && Label(e.labels, "tier") == "node-aggr"
    ensures TierOf(e) == AggrToSVM <==> e.kind == StorageFlow && Label(e.labels, "tier") == "aggr-svm"
    ensures TierOf(e) == SVMToPVC <==> e.kind == StorageFlow && Label(e.labels, "tier") == "svm-pvc"
    ensures TierOf(e) == PVCToPod <==> e.kind == StorageFlow && Label(e.labels, "tier") == "pvc-pod"
    ensures TierOf(e) == PodToHost <==> e.kind == StorageFlow && Label(e.labels, "tier") == "pod-node"
  {
    hide Label;
    assert |"node-aggr"| != |"aggr-svm"| && |"node-aggr"| != |"svm-pvc"|;
    assert "aggr-svm"[0] == 'a' && "pod-node"[0] == 'p' && "svm-pvc"[0] == 's' && "pvc-pod"[0] == 'p';
  }

  // What an index looks edges up by.
  datatype By = Into(id: string) | From(id: string) | Between(source: string, target: string)

  predicate Matches(e: Edge, key: By) {
    match key
    case Into(id) => e.target == id
    case From(id) => e.source == id
    case Between(s, t) => e.source == s && e.target == t
  }

  // A later edge overwrites an earlier one under the same key.
  function Last(edges: seq<Edge>, key: By): Option<Edge> {
    if edges == [] then None
    else if Matches(edges[|edges| - 1], key) then Some(edges[|edges| - 1])
    else Last(edges[..|edges| - 1], key)
  }

  function All(edges: seq<Edge>, key: By): (found: seq<Edge>)
    ensures |found| <= |edges|
  {
    if edges == [] then []
    else
      var before := All(edges[..|edges| - 1], key);
      if Matches(edges[|edges| - 1], key) then before + [edges[|edges| - 1]] else before
  }

  function ClaimAggr(e: Edge): string {
    Label(e.labels, CLAIM_AGGR)
  }

  predicate Stamped(claims: seq<Edge>) {
    exists i :: 0 <= i < |claims| && ClaimAggr(claims[i]) != ""
  }

  // claimAggrOf: the stamp, or, where no claim at all is stamped, the one
  // aggregate that feeds the claim's SVM.
  function ClaimAggrOf(claim: Edge, incoming: seq<Edge>, stamped: bool): string {
    if ClaimAggr(claim) != "" then ClaimAggr(claim)
    else if !stamped && |incoming| == 1 then incoming[0].source
    else ""
  }

  // One claim and one mounting pod, or an unmounted claim alone (a sink). aggr
  // and ctrl are empty for a claim without an aggregate or an owner.
  datatype Unit = Unit(
    claimHop: Edge,
    podHop: Option<Edge>,
    aggr: string,
    aggrHop: Option<Edge>,
    ctrl: string,
    ctrlHop: Option<Edge>,
    nodeHop: Option<Edge>,
    n: nat)
  {
    function Claim(): string { claimHop.target }
    function SVM(): string { claimHop.source }
    function Sink(): bool { podHop.None? }
    function Pod(): string { if podHop.Some? then podHop.value.target else "" }
    function Host(): string { if nodeHop.Some? then nodeHop.value.target else "" }

    // Every hop of the path, in the order they are collected.
    function Hops(): seq<Edge> {
      [claimHop] + Listed(podHop) + Listed(aggrHop) + Listed(ctrlHop) + Listed(nodeHop)
    }

    // Every node on the path.
    function Ids(): seq<string> {
      [SVM(), Claim()] + (if Sink() then [] else [Pod()]) + Named(aggr) + Named(ctrl)
      + (if nodeHop.Some? then [Host()] else [])
    }
  }

  function Listed(e: Option<Edge>): seq<Edge> {
    if e.Some? then [e.value] else []
  }

  function Named(id: string): seq<string> {
    if id == "" then [] else [id]
  }

  // A pod's host counts only where it is a loaded node.
  function HostHop(nodes: map<string, Node>, t: Tiers, pod: Option<Edge>): Option<Edge> {
    if pod.None? then None
    else
      var hop := Last(t.podNode, From(pod.value.target));
      if hop.Some? && hop.value.target in nodes then hop else None
  }

  function OwnerHop(t: Tiers, aggr: string): Option<Edge> {
    Last(t.nodeAggr, Into(aggr))
  }

  function Owner(t: Tiers, aggr: string): string {
    if OwnerHop(t, aggr).Some? then OwnerHop(t, aggr).value.source else ""
  }

  function AggrHop(t: Tiers, aggr: string, claim: Edge): Option<Edge> {
    if aggr == "" then None else Last(t.aggrSVM, Between(aggr, claim.source))
  }

  function CtrlHop(t: Tiers, aggr: string): Option<Edge> {
    if Owner(t, aggr) == "" then None else OwnerHop(t, aggr)
  }

  function AggrOf(t: Tiers, claim: Edge): string {
    ClaimAggrOf(claim, All(t.aggrSVM, Into(claim.source)), Stamped(t.svmPVC))
  }

  // A claim's aggregate is the one stamped on it; in a graph that stamps no claim
  // at all it is the only one that feeds the claim's SVM; otherwise it has none.
  lemma {:induction false} AggrIs(t: Tiers, claim: Edge)
    ensures Label(claim.labels, "claim_aggr") != "" ==> AggrOf(t, claim) == Label(claim.labels, "claim_aggr")
    ensures Label(claim.labels, "claim_aggr") == "" ==>
              if (forall i :: 0 <= i < |t.svmPVC| ==> Label(t.svmPVC[i].labels, "claim_aggr") == "") && FedByOne(t, claim.source)
              then exists i :: 0 <= i < |t.aggrSVM| && t.aggrSVM[i].target == claim.source && AggrOf(t, claim) == t.aggrSVM[i].source
              else AggrOf(t, claim) == ""
  {
    hide Label, All, OnlyAt;
    AllOne(t.aggrSVM, claim.source);
    if All(t.aggrSVM, Into(claim.source)) != [] { AllFirst(t.aggrSVM, claim.source); }
    assert Stamped(t.svmPVC) <==> exists i :: 0 <= i < |t.svmPVC| && ClaimAggr(t.svmPVC[i]) != "";
  }

  // Exactly one hop of that tier enters the SVM.
  ghost predicate FedByOne(t: Tiers, svm: string) {
    exists i :: OnlyAt(t.aggrSVM, svm, i)
  }

  lemma {:induction false} AllNone(edges: seq<Edge>, id: string)
    ensures All(edges, Into(id)) == [] <==> forall i :: 0 <= i < |edges| ==> edges[i].target != id
  {
    if edges != [] {
      AllNone(edges[..|edges| - 1], id);
    }
  }

  lemma {:induction false} AllFirst(edges: seq<Edge>, id: string)
    requires All(edges, Into(id)) != []
    ensures exists i :: 0 <= i < |edges| && edges[i].target == id && All(edges, Into(id))[0] == edges[i]
  {
    var init := edges[..|edges| - 1];
    if All(init, Into(id)) != [] {
      AllFirst(init, id);
      var i :| 0 <= i < |init| && init[i].target == id && All(init, Into(id))[0] == init[i];
      assert edges[i] == init[i];
    } else {
      assert edges[|init|].target == id;
    }
  }

  ghost predicate OnlyAt(edges: seq<Edge>, id: string, i: int) {
    && 0 <= i < |edges| && edges[i].target == id
    && forall j :: 0 <= j < |edges| && edges[j].target == id ==> j == i
  }

  lemma {:induction false} AllOne(edges: seq<Edge>, id: string)
    ensures |All(edges, Into(id))| == 1 <==> exists i :: OnlyAt(edges, id, i)
  {
    if edges != [] {
      var n := |edges| - 1;
      var init := edges[..n];
      AllNone(init, id);
      if edges[n].target == id {
        if i :| OnlyAt(edges, id, i) {
          assert i == n;
          assert forall j :: 0 <= j < n ==> init[j] == edges[j];
        }
        if All(init, Into(id)) == [] {
          assert forall j :: 0 <= j < n ==> init[j] == edges[j];
          assert OnlyAt(edges, id, n);
        }
      } else {
        AllOne(init, id);
        forall i | 0 <= i < n ensures OnlyAt(init, id, i) <==> OnlyAt(edges, id, i) {
          assert forall j :: 0 <= j < n ==> init[j] == edges[j];
        }
      }
    }
  }

  function MakeUnit(nodes: map<string, Node>, t: Tiers, claim: Edge, pod: Option<Edge>, n: nat): Unit {
    var aggr := AggrOf(t, claim);
    Unit(claim, pod, aggr, AggrHop(t, aggr, claim), Owner(t, aggr), CtrlHop(t, aggr), HostHop(nodes, t, pod), n)
  }

  function Mounters(t: Tiers, claim: Edge): seq<Edge> {
    All(t.pvcPod, From(claim.target))
  }

  function UnitsOfClaim(nodes: map<string, Node>, t: Tiers, claim: Edge): seq<Unit> {
    var mounters := Mounters(t, claim);
    if mounters == [] then [MakeUnit(nodes, t, claim, None, 1)]
    else seq(|mounters|, i requires 0 <= i < |mounters| => MakeUnit(nodes, t, claim, Some(mounters[i]), |mounters|))
  }

  function UnitsOf(nodes: map<string, Node>, t: Tiers, claims: seq<Edge>): seq<Unit> {
    if claims == [] then []
    else UnitsOf(nodes, t, claims[..|claims| - 1]) + UnitsOfClaim(nodes, t, claims[|claims| - 1])
  }

  function Units(g: Graph): seq<Unit> {
    var t := TiersOf(g.edges);
    UnitsOf(g.nodes, t, t.svmPVC)
  }

  // ---- the extraction, with the indexes it builds ----

  ghost predicate IndexedInto(m: map<string, Edge>, edges: seq<Edge>) {
    forall id ::
      && (id in m <==> Last(edges, Into(id)).Some?)
      && (id in m ==> Last(edges, Into(id)) == Some(m[id]))
  }

  ghost predicate IndexedFrom(m: map<string, Edge>, edges: seq<Edge>) {
    forall id ::
      && (id in m <==> Last(edges, From(id)).Some?)
      && (id in m ==> Last(edges, From(id)) == Some(m[id]))
  }

  ghost predicate IndexedBetween(m: map<(string, string), Edge>, edges: seq<Edge>) {
    forall p ::
      && (p in m <==> Last(edges, Between(p.0, p.1)).Some?)
      && (p in m ==> Last(edges, Between(p.0, p.1)) == Some(m[p]))
  }

  function Group(m: map<string, seq<Edge>>, id: string): seq<Edge> {
    if id in m then m[id] else []
  }

  ghost predicate GroupedInto(m: map<string, seq<Edge>>, edges: seq<Edge>) {
    forall id :: Group(m, id) == All(edges, Into(id))
  }

  ghost predicate GroupedFrom(m: map<string, seq<Edge>>, edges: seq<Edge>) {
    forall id :: Group(m, id) == All(edges, From(id))
  }

  method SplitTiers(edges: seq<Edge>) returns (t: Tiers)
    ensures t == TiersOf(edges)
  {
    t := Tiers([], [], [], [], []);
    for i := 0 to |edges|
      invariant t == TiersOf(edges[..i])
    {
      var e := edges[i];
      assert edges[..i + 1][..i] == edges[..i];
      match TierOf(e)
      case NodeToAggr => t := t.(nodeAggr := t.nodeAggr + [e]);
      case AggrToSVM => t := t.(aggrSVM := t.aggrSVM + [e]);
      case SVMToPVC => t := t.(svmPVC := t.svmPVC + [e]);
      case PVCToPod => t := t.(pvcPod := t.pvcPod + [e]);
      case PodToHost => t := t.(podNode := t.podNode + [e]);
      case NoTier =>
    }
    assert edges[..|edges|] == edges;
  }

  method IndexOwners(edges: seq<Edge>) returns (m: map<string, Edge>)
    ensures IndexedInto(m, edges)
  {
    m := map[];
    for i := 0 to |edges|
      invariant IndexedInto(m, edges[..i])
    {
      assert edges[..i + 1][..i] == edges[..i];
      m := m[edges[i].target := edges[i]];
    }
    assert edges[..|edges|] == edges;
  }

  method IndexHosts(edges: seq<Edge>) returns (m: map<string, Edge>)
    ensures IndexedFrom(m, edges)
  {
    m := map[];
    for i := 0 to |edges|
      invariant IndexedFrom(m, edges[..i])
    {
      assert edges[..i + 1][..i] == edges[..i];
      m := m[edges[i].source := edges[i]];
    }
    assert edges[..|edges|] == edges;
  }

  method IndexAggrs(edges: seq<Edge>) returns (m: map<(string, string), Edge>, incoming: map<string, seq<Edge>>)
    ensures IndexedBetween(m, edges) && GroupedInto(incoming, edges)
  {
    m, incoming := map[], map[];
    for i := 0 to |edges|
      invariant IndexedBetween(m, edges[..i]) && GroupedInto(incoming, edges[..i])
    {
      var e := edges[i];
      assert edges[..i + 1][..i] == edges[..i];
      m := m[(e.source, e.target) := e];
      incoming := incoming[e.target := Group(incoming, e.target) + [e]];
    }
    assert edges[..|edges|] == edges;
  }

  method GroupMounters(edges: seq<Edge>) returns (m: map<string, seq<Edge>>)
    ensures GroupedFrom(m, edges)
  {
    m := map[];
    for i := 0 to |edges|
      invariant GroupedFrom(m, edges[..i])
    {
      var e := edges[i];
      assert edges[..i + 1][..i] == edges[..i];
      m := m[e.source := Group(m, e.source) + [e]];
    }
    assert edges[..|edges|] == edges;
  }

  method AnyStamped(claims: seq<Edge>) returns (stamped: bool)
    ensures stamped == Stamped(claims)
  {
    stamped := false;
    for i := 0 to |claims|
      invariant stamped <==> exists j :: 0 <= j < i && ClaimAggr(claims[j]) != ""
    {
      if ClaimAggr(claims[i]) != "" {
        stamped := true;
      }
    }
  }

  // The hops above a claim, each only where the claim resolved its endpoint.
  method Upstream(t: Tiers, claim: Edge, ownerOf: map<string, Edge>, aggrSVMOf: map<(string, string), Edge>,
                  incoming: map<string, seq<Edge>>, stamped: bool)
    returns (aggr: string, aggrHop: Option<Edge>, ctrl: string, ctrlHop: Option<Edge>)
    requires IndexedInto(ownerOf, t.nodeAggr) && IndexedBetween(aggrSVMOf, t.aggrSVM)
    requires GroupedInto(incoming, t.aggrSVM) && stamped == Stamped(t.svmPVC)
    ensures aggr == AggrOf(t, claim) && aggrHop == AggrHop(t, aggr, claim)
    ensures ctrl == Owner(t, aggr) && ctrlHop == CtrlHop(t, aggr)
  {
    hide Last, All, ClaimAggrOf, Stamped;
    aggr := ClaimAggrOf(claim, Group(incoming, claim.source), stamped);
    aggrHop, ctrl, ctrlHop := None, "", None;
    var key := (aggr, claim.source);
    if aggr != "" && key in aggrSVMOf {
      aggrHop := Some(aggrSVMOf[key]);
    }
    if aggr in ownerOf {
      ctrl := ownerOf[aggr].source;
      if ctrl != "" {
        ctrlHop := Some(ownerOf[aggr]);
      }
    }
    assert key in aggrSVMOf <==> Last(t.aggrSVM, Between(key.0, key.1)).Some?;
  }

  method ClaimUnits(nodes: map<string, Node>, t: Tiers, claim: Edge, above: Unit, mounters: seq<Edge>, nodeOf: map<string, Edge>)
    returns (own: seq<Unit>)
    requires IndexedFrom(nodeOf, t.podNode) && mounters == Mounters(t, claim)
    requires above == MakeUnit(nodes, t, claim, None, 1)
    ensures own == UnitsOfClaim(nodes, t, claim)
  {
    hide Last, All, AggrOf, AggrHop, CtrlHop, Owner;
    if mounters == [] {
      own := [above];
    } else {
      own := [];
      for j := 0 to |mounters|
        invariant |own| == j
        invariant forall k :: 0 <= k < j ==> own[k] == MakeUnit(nodes, t, claim, Some(mounters[k]), |mounters|)
      {
        var pod := mounters[j].target;
        var nodeHop := if pod in nodeOf && nodeOf[pod].target in nodes then Some(nodeOf[pod]) else None;
        own := own + [above.(podHop := Some(mounters[j]), nodeHop := nodeHop, n := |mounters|)];
      }
    }
  }

  method ExtractFlowUnits(g: Graph) returns (units: seq<Unit>)
    ensures units == Units(g)
  {
    hide Last, All, TierEdges, TierOf, ClaimAggrOf, Stamped, UnitsOfClaim, AggrOf, AggrHop, CtrlHop, Owner;
    var t := SplitTiers(g.edges);
    var ownerOf := IndexOwners(t.nodeAggr);
    var aggrSVMOf, incoming := IndexAggrs(t.aggrSVM);
    var mountersOf := GroupMounters(t.pvcPod);
    var nodeOf := IndexHosts(t.podNode);
    var stamped := AnyStamped(t.svmPVC);
    units := [];
    for i := 0 to |t.svmPVC|
      invariant units == UnitsOf(g.nodes, t, t.svmPVC[..i])
    {
      var claim := t.svmPVC[i];
      var aggr, aggrHop, ctrl, ctrlHop := Upstream(t, claim, ownerOf, aggrSVMOf, incoming, stamped);
      var above := Unit(claim, None, aggr, aggrHop, ctrl, ctrlHop, None, 1);
      var own := ClaimUnits(g.nodes, t, claim, above, Group(mountersOf, claim.target), nodeOf);
      assert t.svmPVC[..i + 1][..i] == t.svmPVC[..i];
      units := units + own;
    }
    assert t.svmPVC[..|t.svmPVC|] == t.svmPVC;
  }
}
