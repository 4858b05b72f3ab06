// The assembler of the storage-flow graph, and why what it emits is the fixed
// tier chain that the projection's conservation laws need.
module FlowAssembly {
  import opened Common
  import opened Figures
  import opened Graphs
  import opened FlowUnits
  import opened FlowWeights
  import opened StorageConservation

  // One claim's resolved place on the chain; aggr and ctrl may be empty.
  datatype Chain = Chain(pvc: string, svm: string, aggr: string, ctrl: string, io: Option<IOMetrics>)

  // What the storage join and the pod listing already decided: one chain per
  // claim, the pods that mount each claim and the node id each pod names.
  datatype Plan = Plan(
    chains: seq<Chain>,
    mounters: map<string, seq<string>>,
    hosts: map<string, string>,
    sinkUnmounted: bool)

  function MountersOf(plan: Plan, pvc: string): seq<string> {
    if pvc in plan.mounters then plan.mounters[pvc] else []
  }

  function HostOf(plan: Plan, pod: string): string {
    if pod in plan.hosts then plan.hosts[pod] else ""
  }

  // The identities on one tier never appear on another, a claim has one chain
  // and an aggregate one owner.
  ghost predicate PlanOK(plan: Plan, role: string -> Role, ctrlOf: string -> string) {
    && (forall i, j :: 0 <= i < j < |plan.chains| ==> plan.chains[i].pvc != plan.chains[j].pvc)
    && (forall i :: 0 <= i < |plan.chains| ==> ChainOK(plan, plan.chains[i], role, ctrlOf))
  }

  ghost predicate ChainOK(plan: Plan, c: Chain, role: string -> Role, ctrlOf: string -> string) {
    && c.pvc != "" && role(c.pvc) == AtClaim && c.svm != "" && role(c.svm) == AtSVM
    && (c.aggr != "" ==> role(c.aggr) == AtAggr && c.ctrl == ctrlOf(c.aggr))
    && (c.ctrl != "" ==> role(c.ctrl) == AtController)
    && forall i :: 0 <= i < |MountersOf(plan, c.pvc)| ==> PodOK(plan, MountersOf(plan, c.pvc)[i], role)
  }

  ghost predicate PodOK(plan: Plan, pod: string, role: string -> Role) {
    pod != "" && role(pod) == AtPod && (HostOf(plan, pod) != "" ==> role(HostOf(plan, pod)) == AtHost)
  }

  function TierTag(t: Tier): string {
    match t
    case NodeToAggr => "node-aggr"
    case AggrToSVM => "aggr-svm"
    case SVMToPVC => "svm-pvc"
    case PVCToPod => "pvc-pod"
    case PodToHost => "pod-node"
    case NoTier => ""
  }

  function TierEdge(t: Tier, source: string, target: string, labels: map<string, string>, io: Option<IOMetrics>): Edge {
    Edge(StorageFlow, source, target, map["tier" := TierTag(t)] + labels, io)
  }

  lemma TagsDiffer()
    ensures forall t, t' :: t != t' ==> TierTag(t) != TierTag(t')
  {
    assert "node-aggr"[0] != "aggr-svm"[0] && "node-aggr"[0] != "svm-pvc"[0] && "node-aggr"[0] != "pvc-pod"[0];
    assert "node-aggr"[0] != "pod-node"[0] && "aggr-svm"[0] != "svm-pvc"[0] && "aggr-svm"[0] != "pvc-pod"[0];
    assert "aggr-svm"[0] != "pod-node"[0] && "svm-pvc"[0] != "pvc-pod"[0] && "svm-pvc"[0] != "pod-node"[0];
    assert "pvc-pod"[1] != "pod-node"[1];
  }

  lemma {:induction false} TierEdgeTier(t: Tier, source: string, target: string, labels: map<string, string>, io: Option<IOMetrics>)
    requires "tier" !in labels && t != NoTier
    ensures TierOf(TierEdge(t, source, target, labels, io)) == t
    ensures ClaimAggr(TierEdge(t, source, target, labels, io)) == Label(labels, CLAIM_AGGR)
  {
    hide TierTag;
    var e := TierEdge(t, source, target, labels, io);
    TagsDiffer();
    Tags();
    assert Label(e.labels, "tier") == TierTag(t);
    assert "tier" != CLAIM_AGGR by { assert |"tier"| != |CLAIM_AGGR|; }
  }

  lemma Tags()
    ensures TierTag(NodeToAggr) == "node-aggr" && TierTag(AggrToSVM) == "aggr-svm" && TierTag(SVMToPVC) == "svm-pvc"
    ensures TierTag(PVCToPod) == "pvc-pod" && TierTag(PodToHost) == "pod-node" && TierTag(NoTier) == ""
  {
  }

  // ---- what is emitted ----

  // An emitted edge is of one tier and names what the plan says of its ends.
  ghost predicate EdgeOK(plan: Plan, e: Edge, pairs: set<Pair>, role: string -> Role, ctrlOf: string -> string) {
    match TierOf(e)
    case NodeToAggr => Joins(e, NodeToAggr, role, AtController, AtAggr) && e.source == ctrlOf(e.target)
    case AggrToSVM => Joins(e, AggrToSVM, role, AtAggr, AtSVM)
    case SVMToPVC =>
      && Joins(e, SVMToPVC, role, AtSVM, AtClaim)
      && (exists c :: c in plan.chains && PairOf(e) == (c.svm, c.pvc) && ClaimAggr(e) == c.aggr && e.io == c.io)
      && (ClaimAggr(e) != "" ==> role(ClaimAggr(e)) == AtAggr && (ClaimAggr(e), e.source) in pairs)
    case PVCToPod => Joins(e, PVCToPod, role, AtClaim, AtPod)
    case PodToHost => Joins(e, PodToHost, role, AtPod, AtHost) && e.target == HostOf(plan, e.source)
    case NoTier => false
  }

  ghost predicate Emitted(plan: Plan, out: seq<Edge>, pairs: set<Pair>, role: string -> Role, ctrlOf: string -> string) {
    && DistinctPairs(out) && pairs == PairsOf(out)
    && forall i :: 0 <= i < |out| ==> EdgeOK(plan, out[i], pairs, role, ctrlOf)
  }

  function EmitPairs(pairs: set<Pair>, source: string, target: string): set<Pair> {
    if source == "" || target == "" then pairs else pairs + {(source, target)}
  }

  lemma {:induction false} EdgeStaysOK(plan: Plan, e: Edge, pairs: set<Pair>, more: set<Pair>, role: string -> Role, ctrlOf: string -> string)
    requires EdgeOK(plan, e, pairs, role, ctrlOf) && pairs <= more
    ensures EdgeOK(plan, e, more, role, ctrlOf)
  {
    hide TierOf, Joins;
  }

  lemma {:induction false} EmitKeeps(plan: Plan, out: seq<Edge>, pairs: set<Pair>, e: Edge, role: string -> Role, ctrlOf: string -> string)
    requires Emitted(plan, out, pairs, role, ctrlOf) && PairOf(e) !in pairs
    requires EdgeOK(plan, e, pairs, role, ctrlOf)
    ensures Emitted(plan, out + [e], pairs + {PairOf(e)}, role, ctrlOf)
  {
    hide EdgeOK;
    PairsOfMore(out, e);
    var more := out + [e];
    forall i | 0 <= i < |out| ensures PairOf(out[i]) in pairs {
    }
    forall i | 0 <= i < |more| ensures EdgeOK(plan, more[i], pairs + {PairOf(e)}, role, ctrlOf) {
      EdgeStaysOK(plan, more[i], pairs, pairs + {PairOf(e)}, role, ctrlOf);
    }
  }

  // One edge per pair, and none with a missing end.
  method Emit(out0: seq<Edge>, seen0: set<Pair>, e: Edge, ghost plan: Plan, ghost role: string -> Role, ghost ctrlOf: string -> string)
    returns (out: seq<Edge>, seen: set<Pair>)
    requires Emitted(plan, out0, seen0, role, ctrlOf)
    requires e.source != "" && e.target != "" ==> EdgeOK(plan, e, seen0, role, ctrlOf)
    ensures Emitted(plan, out, seen, role, ctrlOf) && seen == EmitPairs(seen0, e.source, e.target)
  {
    hide Emitted, EdgeOK;
    out, seen := out0, seen0;
    if e.source == "" || e.target == "" {
      return;
    }
    if (e.source, e.target) in seen {
      return;
    }
    EmitKeeps(plan, out, seen, e, role, ctrlOf);
    seen := seen + {(e.source, e.target)};
    out := out + [e];
  }

  // ---- the pairs a plan calls for ----

  function PodPairs(plan: Plan, pvc: string, pods: seq<string>): set<Pair> {
    if pods == [] then {}
    else
      var pod := pods[|pods| - 1];
      EmitPairs(EmitPairs(PodPairs(plan, pvc, pods[..|pods| - 1]), pvc, pod), pod, HostOf(plan, pod))
  }

  function ChainPairs(plan: Plan, c: Chain): set<Pair> {
    if MountersOf(plan, c.pvc) == [] && !plan.sinkUnmounted then {}
    else
      EmitPairs(EmitPairs(EmitPairs({}, c.ctrl, c.aggr), c.aggr, c.svm), c.svm, c.pvc)
      + PodPairs(plan, c.pvc, MountersOf(plan, c.pvc))
  }

  function PlanPairs(plan: Plan, k: nat): set<Pair>
    requires k <= |plan.chains|
  {
    if k == 0 then {} else PlanPairs(plan, k - 1) + ChainPairs(plan, plan.chains[k - 1])
  }

  // Some pod the plan lists as a mounter of the claim.
  ghost predicate Mounts(plan: Plan, pvc: string, pod: string) {
    pvc in plan.mounters && pod in plan.mounters[pvc]
  }

  // A hop of the claim's own chain: down to the claim, on to a pod that mounts
  // it, or from such a pod to its host.
  ghost predicate HopOfChain(plan: Plan, c: Chain, p: Pair) {
    || p == (c.ctrl, c.aggr) || p == (c.aggr, c.svm) || p == (c.svm, c.pvc)
    || (p.0 == c.pvc && Mounts(plan, c.pvc, p.1))
    || (Mounts(plan, c.pvc, p.0) && p.0 in plan.hosts && p.1 == plan.hosts[p.0])
  }

  // The pairs called for are the hops, with both ends named, of the claims that
  // some pod mounts, or of all claims where unmounted ones are drawn too.
  lemma {:induction false} PlanPairsAre(plan: Plan, p: Pair)
    ensures p in PlanPairs(plan, |plan.chains|) <==>
              && p.0 != "" && p.1 != ""
              && exists i :: 0 <= i < |plan.chains| && HopOfChain(plan, plan.chains[i], p)
                   && (plan.sinkUnmounted || exists pod :: Mounts(plan, plan.chains[i].pvc, pod))
  {
    hide HopOfChain, ChainPairs, Mounts;
    PairsUpTo(plan, |plan.chains|, p);
    forall i | 0 <= i < |plan.chains|
      ensures p in ChainPairs(plan, plan.chains[i]) <==>
                && p.0 != "" && p.1 != "" && HopOfChain(plan, plan.chains[i], p)
                && (plan.sinkUnmounted || exists pod :: Mounts(plan, plan.chains[i].pvc, pod))
    {
      ChainPairsAre(plan, plan.chains[i], p);
    }
  }

  lemma {:induction false} PairsUpTo(plan: Plan, k: nat, p: Pair)
    requires k <= |plan.chains|
    ensures p in PlanPairs(plan, k) <==> exists i :: 0 <= i < k && p in ChainPairs(plan, plan.chains[i])
  {
    hide ChainPairs;
    if k > 0 {
      PairsUpTo(plan, k - 1, p);
    }
  }

  lemma {:induction false} ChainPairsAre(plan: Plan, c: Chain, p: Pair)
    ensures p in ChainPairs(plan, c) <==>
              && p.0 != "" && p.1 != "" && HopOfChain(plan, c, p)
              && (plan.sinkUnmounted || exists pod :: Mounts(plan, c.pvc, pod))
  {
    hide PodPairs;
    var pods := MountersOf(plan, c.pvc);
    PodPairsAre(plan, c.pvc, pods, p);
    MountersAre(plan, c.pvc);
    assert pods != [] ==> Mounts(plan, c.pvc, pods[0]) by { if pods != [] { assert pods[0] in pods; } }
  }

  lemma MountersAre(plan: Plan, pvc: string)
    ensures forall pod :: pod in MountersOf(plan, pvc) <==> Mounts(plan, pvc, pod)
  {
  }

  lemma {:induction false} PodPairsAre(plan: Plan, pvc: string, pods: seq<string>, p: Pair)
    ensures p in PodPairs(plan, pvc, pods) <==>
              && p.0 != "" && p.1 != ""
              && ((p.0 == pvc && p.1 in pods) || (p.0 in pods && p.0 in plan.hosts && p.1 == plan.hosts[p.0]))
  {
    if pods != [] {
      var init, pod := pods[..|pods| - 1], pods[|pods| - 1];
      PodPairsAre(plan, pvc, init, p);
      assert pods == init + [pod];
    }
  }

  method EmitUpstream(out0: seq<Edge>, seen0: set<Pair>, c: Chain, ghost plan: Plan, ghost role: string -> Role, ghost ctrlOf: string -> string)
    returns (out: seq<Edge>, seen: set<Pair>)
    requires Emitted(plan, out0, seen0, role, ctrlOf) && c in plan.chains && ChainOK(plan, c, role, ctrlOf)
    ensures Emitted(plan, out, seen, role, ctrlOf)
    ensures seen == EmitPairs(EmitPairs(EmitPairs(seen0, c.ctrl, c.aggr), c.aggr, c.svm), c.svm, c.pvc)
  {
    hide Emitted, TierOf, TierEdge;
    var owner := TierEdge(NodeToAggr, c.ctrl, c.aggr, map[], None);
    TierEdgeOf(NodeToAggr, c.ctrl, c.aggr, map[], None);
    out, seen := Emit(out0, seen0, owner, plan, role, ctrlOf);
    var hop := TierEdge(AggrToSVM, c.aggr, c.svm, map[], None);
    TierEdgeOf(AggrToSVM, c.aggr, c.svm, map[], None);
    out, seen := Emit(out, seen, hop, plan, role, ctrlOf);
    var labels: map<string, string> := if c.aggr != "" then map[CLAIM_AGGR := c.aggr] else map[];
    var claim := TierEdge(SVMToPVC, c.svm, c.pvc, labels, c.io);
    assert |CLAIM_AGGR| != |"tier"|;
    TierEdgeOf(SVMToPVC, c.svm, c.pvc, labels, c.io);
    out, seen := Emit(out, seen, claim, plan, role, ctrlOf);
  }

  lemma {:induction false} TierEdgeOf(t: Tier, source: string, target: string, labels: map<string, string>, io: Option<IOMetrics>)
    requires "tier" !in labels && t != NoTier
    ensures var e := TierEdge(t, source, target, labels, io);
            && TierOf(e) == t && ClaimAggr(e) == Label(labels, CLAIM_AGGR)
            && e.source == source && e.target == target && e.io == io
  {
    hide TierOf, TierTag, ClaimAggr;
    TierEdgeTier(t, source, target, labels, io);
  }

  lemma PodPairsNone(plan: Plan, pvc: string)
    ensures PodPairs(plan, pvc, []) == {}
  {
  }

  lemma PodPairsMore(plan: Plan, pvc: string, pods: seq<string>, pod: string, seen: set<Pair>)
    ensures EmitPairs(EmitPairs(seen + PodPairs(plan, pvc, pods), pvc, pod), pod, HostOf(plan, pod))
            == seen + PodPairs(plan, pvc, pods + [pod])
  {
    assert (pods + [pod])[..|pods|] == pods;
  }

  lemma PodNamed(plan: Plan, pod: string, role: string -> Role)
    requires PodOK(plan, pod, role)
    ensures pod != "" && role(pod) == AtPod && (HostOf(plan, pod) != "" ==> role(HostOf(plan, pod)) == AtHost)
  {
  }

  method EmitPods(out0: seq<Edge>, seen0: set<Pair>, pvc: string, pods: seq<string>, plan: Plan, ghost role: string -> Role, ghost ctrlOf: string -> string)
    returns (out: seq<Edge>, seen: set<Pair>)
    requires Emitted(plan, out0, seen0, role, ctrlOf) && pvc != "" && role(pvc) == AtClaim
    requires forall i :: 0 <= i < |pods| ==> PodOK(plan, pods[i], role)
    ensures Emitted(plan, out, seen, role, ctrlOf) && seen == seen0 + PodPairs(plan, pvc, pods)
  {
    hide Emitted, TierOf, TierEdge, TierTag, PodPairs, EmitPairs, PodOK, HostOf;
    out, seen := out0, seen0;
    PodPairsNone(plan, pvc);
    var labels: map<string, string> := if |pods| > 1 then map["attribution" := "split"] else map[];
    assert |"attribution"| != |"tier"|;
    for i := 0 to |pods|
      invariant Emitted(plan, out, seen, role, ctrlOf) && seen == seen0 + PodPairs(plan, pvc, pods[..i])
    {
      var pod := pods[i];
      assert pods[..i + 1][..i] == pods[..i];
      PodPairsMore(plan, pvc, pods[..i], pod, seen0);
      assert pods[..i + 1] == pods[..i] + [pod];
      PodNamed(plan, pod, role);
      TierEdgeOf(PVCToPod, pvc, pod, labels, None);
      out, seen := Emit(out, seen, TierEdge(PVCToPod, pvc, pod, labels, None), plan, role, ctrlOf);
      TierEdgeOf(PodToHost, pod, HostOf(plan, pod), map[], None);
      out, seen := Emit(out, seen, TierEdge(PodToHost, pod, HostOf(plan, pod), map[], None), plan, role, ctrlOf);
    }
    assert pods[..|pods|] == pods;
  }

  lemma ChainPairsAdd(plan: Plan, c: Chain, seen: set<Pair>)
    requires MountersOf(plan, c.pvc) != [] || plan.sinkUnmounted
    ensures EmitPairs(EmitPairs(EmitPairs(seen, c.ctrl, c.aggr), c.aggr, c.svm), c.svm, c.pvc)
            + PodPairs(plan, c.pvc, MountersOf(plan, c.pvc))
            == seen + ChainPairs(plan, c)
  {
    hide PodPairs;
  }

  method EmitChain(out0: seq<Edge>, seen0: set<Pair>, c: Chain, plan: Plan, ghost role: string -> Role, ghost ctrlOf: string -> string)
    returns (out: seq<Edge>, seen: set<Pair>)
    requires Emitted(plan, out0, seen0, role, ctrlOf) && c in plan.chains && ChainOK(plan, c, role, ctrlOf)
    ensures Emitted(plan, out, seen, role, ctrlOf) && seen == seen0 + ChainPairs(plan, c)
  {
    hide Emitted, ChainOK, PodPairs, EmitPairs;
    out, seen := out0, seen0;
    var mounters := MountersOf(plan, c.pvc);
    if |mounters| == 0 && !plan.sinkUnmounted {
      return;
    }
    ChainParts(plan, c, role, ctrlOf);
    ChainPairsAdd(plan, c, seen0);
    out, seen := EmitUpstream(out, seen, c, plan, role, ctrlOf);
    out, seen := EmitPods(out, seen, c.pvc, mounters, plan, role, ctrlOf);
  }

  // Every pair the plan calls for is emitted once, and the result is the fixed
  // tier chain, whatever the order of chains and mounters.
  method StorageFlowEdges(plan: Plan, ghost role: string -> Role, ghost ctrlOf: string -> string) returns (out: seq<Edge>)
    requires PlanOK(plan, role, ctrlOf)
    ensures TierChain(TiersOf(out), role)
    ensures DistinctPairs(out) && PairsOf(out) == PlanPairs(plan, |plan.chains|)
  {
    hide Emitted, ChainOK, TierChain, TiersOf, ChainPairs;
    out := [];
    var seen: set<Pair> := {};
    NothingEmitted(plan, role, ctrlOf);
    for i := 0 to |plan.chains|
      invariant Emitted(plan, out, seen, role, ctrlOf) && seen == PlanPairs(plan, i)
    {
      out, seen := EmitChain(out, seen, plan.chains[i], plan, role, ctrlOf);
    }
    EmittedPairs(plan, out, seen, role, ctrlOf);
    EmittedIsChain(plan, out, seen, role, ctrlOf);
  }

  lemma NothingEmitted(plan: Plan, role: string -> Role, ctrlOf: string -> string)
    ensures Emitted(plan, [], {}, role, ctrlOf)
  {
  }

  lemma ChainParts(plan: Plan, c: Chain, role: string -> Role, ctrlOf: string -> string)
    requires ChainOK(plan, c, role, ctrlOf)
    ensures c.pvc != "" && role(c.pvc) == AtClaim
    ensures forall i :: 0 <= i < |MountersOf(plan, c.pvc)| ==> PodOK(plan, MountersOf(plan, c.pvc)[i], role)
  {
  }

  lemma EmittedPairs(plan: Plan, out: seq<Edge>, pairs: set<Pair>, role: string -> Role, ctrlOf: string -> string)
    requires Emitted(plan, out, pairs, role, ctrlOf)
    ensures DistinctPairs(out) && PairsOf(out) == pairs
  {
  }

  // ---- emitted edges are the tier chain ----

  lemma {:induction false} TierMembers(edges: seq<Edge>, t: Tier)
    ensures forall i :: 0 <= i < |TierEdges(edges, t)| ==> TierEdges(edges, t)[i] in edges && TierOf(TierEdges(edges, t)[i]) == t
    ensures DistinctPairs(edges) ==> DistinctPairs(TierEdges(edges, t))
  {
    hide TierOf;
    if edges != [] {
      var init, last := edges[..|edges| - 1], edges[|edges| - 1];
      TierMembers(init, t);
      assert edges == init + [last];
      var found := TierEdges(init, t);
      if DistinctPairs(edges) {
        forall i | 0 <= i < |found| ensures PairOf(found[i]) != PairOf(last) {
          var j :| 0 <= j < |init| && init[j] == found[i];
          assert PairOf(edges[j]) != PairOf(edges[|init|]);
        }
      }
    }
  }

  lemma {:induction false} TierHolds(edges: seq<Edge>, t: Tier, e: Edge)
    requires e in edges && TierOf(e) == t
    ensures e in TierEdges(edges, t)
  {
    hide TierOf;
    var init, last := edges[..|edges| - 1], edges[|edges| - 1];
    assert edges == init + [last];
    if e != last { TierHolds(init, t, e); }
  }

  lemma {:induction false} TierOK(plan: Plan, out: seq<Edge>, pairs: set<Pair>, role: string -> Role, ctrlOf: string -> string, t: Tier)
    requires Emitted(plan, out, pairs, role, ctrlOf)
    ensures forall i :: 0 <= i < |TierEdges(out, t)| ==>
              EdgeOK(plan, TierEdges(out, t)[i], pairs, role, ctrlOf) && TierOf(TierEdges(out, t)[i]) == t
    ensures DistinctPairs(TierEdges(out, t))
  {
    hide EdgeOK, TierOf;
    TierMembers(out, t);
  }

  lemma {:induction false} OneSVMPerClaim(plan: Plan, role: string -> Role, ctrlOf: string -> string, pairs: set<Pair>, a: Edge, b: Edge)
    requires PlanOK(plan, role, ctrlOf) && TierOf(a) == SVMToPVC && TierOf(b) == SVMToPVC && a.target == b.target
    requires EdgeOK(plan, a, pairs, role, ctrlOf) && EdgeOK(plan, b, pairs, role, ctrlOf)
    ensures PairOf(a) == PairOf(b)
  {
    hide TierOf, ChainOK, Joins;
    var c :| c in plan.chains && PairOf(a) == (c.svm, c.pvc) && ClaimAggr(a) == c.aggr && a.io == c.io;
    var d :| d in plan.chains && PairOf(b) == (d.svm, d.pvc) && ClaimAggr(b) == d.aggr && b.io == d.io;
    var i :| 0 <= i < |plan.chains| && plan.chains[i] == c;
    var j :| 0 <= j < |plan.chains| && plan.chains[j] == d;
  }

  lemma {:induction false} StampBacked(plan: Plan, out: seq<Edge>, pairs: set<Pair>, role: string -> Role, ctrlOf: string -> string, e: Edge)
    requires Emitted(plan, out, pairs, role, ctrlOf) && EdgeOK(plan, e, pairs, role, ctrlOf)
    requires TierOf(e) == SVMToPVC && ClaimAggr(e) != ""
    ensures Last(TierEdges(out, AggrToSVM), Between(ClaimAggr(e), e.source)).Some?
  {
    hide TierOf, TierEdges, Last;
    var k :| 0 <= k < |out| && PairOf(out[k]) == (ClaimAggr(e), e.source);
    assert TierOf(out[k]) == AggrToSVM;
    TierHolds(out, AggrToSVM, out[k]);
    LastFound(TierEdges(out, AggrToSVM), Between(ClaimAggr(e), e.source));
  }

  lemma {:induction false} EmittedIsChain(plan: Plan, out: seq<Edge>, pairs: set<Pair>, role: string -> Role, ctrlOf: string -> string)
    requires PlanOK(plan, role, ctrlOf) && Emitted(plan, out, pairs, role, ctrlOf)
    ensures TierChain(TiersOf(out), role)
  {
    hide TierOf, TierEdges, Emitted, PlanOK, Last, Joins;
    TierOK(plan, out, pairs, role, ctrlOf, NodeToAggr);
    TierOK(plan, out, pairs, role, ctrlOf, AggrToSVM);
    TierOK(plan, out, pairs, role, ctrlOf, SVMToPVC);
    TierOK(plan, out, pairs, role, ctrlOf, PVCToPod);
    TierOK(plan, out, pairs, role, ctrlOf, PodToHost);
    var t := TiersOf(out);
    forall i, j | 0 <= i < j < |t.svmPVC| ensures t.svmPVC[i].target != t.svmPVC[j].target {
      if t.svmPVC[i].target == t.svmPVC[j].target {
        OneSVMPerClaim(plan, role, ctrlOf, pairs, t.svmPVC[i], t.svmPVC[j]);
      }
    }
    forall i | 0 <= i < |t.svmPVC| && ClaimAggr(t.svmPVC[i]) != ""
      ensures Last(t.aggrSVM, Between(ClaimAggr(t.svmPVC[i]), t.svmPVC[i].source)).Some?
    {
      StampBacked(plan, out, pairs, role, ctrlOf, t.svmPVC[i]);
    }
  }
}
