// What a drawn claim carries: as many n-th parts of its measurement as it has
// retained mounters, so its own measurement exactly when all are retained.
module StorageClaims {
  import opened Common
  import opened Figures
  import opened Graphs
  import opened FlowUnits
  import opened FlowWeights
  import opened StorageProjection
  import opened StorageConservation

  function OfClaim(units: seq<Unit>, claim: Edge): seq<Unit> {
    if units == [] then []
    else
      var before := OfClaim(units[..|units| - 1], claim);
      if units[|units| - 1].claimHop == claim then before + [units[|units| - 1]] else before
  }

  lemma {:induction false} OfClaimAppend(a: seq<Unit>, b: seq<Unit>, claim: Edge)
    ensures OfClaim(a + b, claim) == OfClaim(a, claim) + OfClaim(b, claim)
  {
    if b == [] {
      assert a + b == a;
    } else {
      var n := |b| - 1;
      assert (a + b)[..|a + b| - 1] == a + b[..n];
      OfClaimAppend(a, b[..n], claim);
    }
  }

  lemma {:induction false} OfClaimMembers(units: seq<Unit>, claim: Edge)
    ensures forall i :: 0 <= i < |OfClaim(units, claim)| ==> OfClaim(units, claim)[i] in units && OfClaim(units, claim)[i].claimHop == claim
  {
    if units != [] {
      var init := units[..|units| - 1];
      OfClaimMembers(init, claim);
      assert forall u :: u in init ==> u in units;
    }
  }

  lemma {:induction false} OfClaimWhole(units: seq<Unit>, claim: Edge)
    requires forall i :: 0 <= i < |units| ==> units[i].claimHop == claim
    ensures OfClaim(units, claim) == units
  {
    if units != [] {
      OfClaimWhole(units[..|units| - 1], claim);
    }
  }

  lemma {:induction false} OfClaimNone(units: seq<Unit>, claim: Edge)
    requires forall i :: 0 <= i < |units| ==> units[i].claimHop != claim
    ensures OfClaim(units, claim) == []
  {
    if units != [] {
      OfClaimNone(units[..|units| - 1], claim);
    }
  }

  // ---- the contributions to a claim's own edge ----

  lemma {:induction false} ContribAppend(a: seq<Hop>, b: seq<Hop>, p: Pair)
    ensures Contrib(a + b, p) == Contrib(a, p) + Contrib(b, p)
    ensures FirstEdge(a + b, p) == if FirstEdge(a, p).Some? then FirstEdge(a, p) else FirstEdge(b, p)
  {
    if b == [] {
      assert a + b == a;
    } else {
      var n := |b| - 1;
      assert (a + b)[..|a + b| - 1] == a + b[..n];
      ContribAppend(a, b[..n], p);
    }
  }

  lemma {:induction false} HopListContrib(u: Unit, e: Option<Edge>, p: Pair)
    ensures var here := e.Some? && PairOf(e.value) == p;
            && Contrib(HopList(u, e), p) == (if here then [u] else [])
            && FirstEdge(HopList(u, e), p) == if here then e else None
  {
    if e.Some? {
      var hops := [Hop(u, e.value)];
      assert hops[..0] == [];
    }
  }

  // Only the claim's own hop joins its SVM to it.
  lemma {:induction false} UnitHopsContrib(u: Unit, role: string -> Role, claim: Edge)
    requires UnitOK(u, role) && Joins(claim, SVMToPVC, role, AtSVM, AtClaim)
    requires PairOf(u.claimHop) == PairOf(claim) <==> u.claimHop == claim
    ensures Contrib(UnitHops(u), PairOf(claim)) == if u.claimHop == claim then [u] else []
    ensures FirstEdge(UnitHops(u), PairOf(claim)) == if u.claimHop == claim then Some(claim) else None
  {
    hide Contrib, FirstEdge, TierOf;
    var p := PairOf(claim);
    var a, b, c, d, e :=
      HopList(u, Some(u.claimHop)), HopList(u, u.podHop), HopList(u, u.aggrHop), HopList(u, u.ctrlHop), HopList(u, u.nodeHop);
    assert UnitHops(u) == a + b + c + d + e;
    HopListContrib(u, Some(u.claimHop), p);
    HopListContrib(u, u.podHop, p);
    HopListContrib(u, u.aggrHop, p);
    HopListContrib(u, u.ctrlHop, p);
    HopListContrib(u, u.nodeHop, p);
    ContribAppend(a, b, p);
    ContribAppend(a + b, c, p);
    ContribAppend(a + b + c, d, p);
    ContribAppend(a + b + c + d, e, p);
  }

  lemma {:induction false} ClaimContrib(units: seq<Unit>, role: string -> Role, claim: Edge)
    requires Joins(claim, SVMToPVC, role, AtSVM, AtClaim)
    requires forall i :: 0 <= i < |units| ==>
               UnitOK(units[i], role) && (PairOf(units[i].claimHop) == PairOf(claim) <==> units[i].claimHop == claim)
    ensures Contrib(HopsOf(units), PairOf(claim)) == OfClaim(units, claim)
    ensures FirstEdge(HopsOf(units), PairOf(claim)) == if OfClaim(units, claim) == [] then None else Some(claim)
  {
    hide Contrib, FirstEdge, UnitOK, UnitHops, Joins;
    if units == [] {
      NoHops(PairOf(claim));
    } else {
      var n := |units| - 1;
      ClaimContrib(units[..n], role, claim);
      UnitHopsContrib(units[n], role, claim);
      ContribAppend(HopsOf(units[..n]), UnitHops(units[n]), PairOf(claim));
    }
  }

  lemma NoHops(p: Pair)
    ensures Contrib([], p) == [] && FirstEdge([], p) == None
  {
  }

  // How many shares the claim's measurement is cut into.
  function Parts(t: Tiers, claim: Edge): nat {
    if Mounters(t, claim) == [] then 1 else |Mounters(t, claim)|
  }

  lemma {:induction false} OfOneClaim(nodes: map<string, Node>, t: Tiers, role: string -> Role, u: Unit, claim: Edge)
    requires TierChain(t, role) && UnitFrom(nodes, t, u) && claim in t.svmPVC
    ensures UnitOK(u, role) && Joins(claim, SVMToPVC, role, AtSVM, AtClaim)
    ensures PairOf(u.claimHop) == PairOf(claim) <==> u.claimHop == claim
    ensures u.claimHop == claim ==> u.n == Parts(t, claim) > 0
  {
    hide UnitOK, MakeUnit, Mounters;
    UnitFromOK(nodes, t, role, u);
    var i :| 0 <= i < |t.svmPVC| && Belongs(nodes, t, u, t.svmPVC[i]);
    var j :| 0 <= j < |t.svmPVC| && t.svmPVC[j] == claim;
  }

  // Every figure of a drawn claim is k parts in n of its own, k being how many
  // of its units were retained.
  lemma {:induction false} ClaimCarriesItsParts(g: Graph, scope: Scope, view: View, role: string -> Role, i: nat, claim: Edge, f: Figure)
    requires IsProjection(g, scope, view) && TierChain(TiersOf(g.edges), role)
    requires claim in TiersOf(g.edges).svmPVC
    requires i < |view.edges| && PairOf(view.edges[i]) == PairOf(claim)
    ensures var k, share := |OfClaim(Kept(g, scope), claim)|, ShareOf(claim.io, Parts(TiersOf(g.edges), claim), f);
            && k > 0
            && view.edges[i] == WeighedEdge(claim, OfClaim(Kept(g, scope), claim))
            && FigureOf(view.edges[i].io, f) == if share.None? then None else Some(Times(k, share.value))
  {
    hide Keeps, UnitFrom, UnitOK, TierChain, TiersOf, Kept, Summed, Contrib, FirstEdge, Sum, ShareOf, OfClaim, DrawnIds, TierOf, Joins,
      Parts, Times, HopsOf;
    var t, units := TiersOf(g.edges), Kept(g, scope);
    KeptFrom(g, scope);
    forall j | 0 <= j < |units|
      ensures UnitOK(units[j], role) && (PairOf(units[j].claimHop) == PairOf(claim) <==> units[j].claimHop == claim)
      ensures units[j].claimHop == claim ==> units[j].n == Parts(t, claim)
    {
      OfOneClaim(g.nodes, t, role, units[j], claim);
    }
    ClaimJoins(t, role, claim);
    ClaimContrib(units, role, claim);
    var own := OfClaim(units, claim);
    OfClaimMembers(units, claim);
    SummedFigure(TierOf(claim) == SVMToPVC, own, f);
    assert forall j :: 0 <= j < |own| ==> Shares(own, f)[j] == ShareOf(claim.io, Parts(t, claim), f);
    SumOfCopies(Shares(own, f), ShareOf(claim.io, Parts(t, claim), f));
  }

  lemma {:induction false} ClaimJoins(t: Tiers, role: string -> Role, claim: Edge)
    requires TierChain(t, role) && claim in t.svmPVC
    ensures Joins(claim, SVMToPVC, role, AtSVM, AtClaim) && TierOf(claim) == SVMToPVC
  {
    hide TierOf;
    var j :| 0 <= j < |t.svmPVC| && t.svmPVC[j] == claim;
  }

  // ---- all mounters retained ----

  lemma {:induction false} UnitsOfOneClaim(nodes: map<string, Node>, t: Tiers, k: nat, claim: Edge)
    requires k <= |t.svmPVC| && DistinctTargets(t.svmPVC)
    ensures OfClaim(UnitsOf(nodes, t, t.svmPVC[..k]), claim)
            == if claim in t.svmPVC[..k] then UnitsOfClaim(nodes, t, claim) else []
  {
    hide UnitsOfClaim, Belongs, OfClaim;
    if k == 0 {
      OfClaimNone([], claim);
    } else {
      var before, last := t.svmPVC[..k - 1], t.svmPVC[k - 1];
      UnitsOfOneClaim(nodes, t, k - 1, claim);
      assert t.svmPVC[..k][..k - 1] == before && t.svmPVC[..k] == before + [last];
      OfClaimAppend(UnitsOf(nodes, t, before), UnitsOfClaim(nodes, t, last), claim);
      ClaimHopsOf(nodes, t, last);
      if last == claim {
        OfClaimWhole(UnitsOfClaim(nodes, t, last), claim);
      } else {
        OfClaimNone(UnitsOfClaim(nodes, t, last), claim);
      }
    }
  }

  lemma ClaimHopsOf(nodes: map<string, Node>, t: Tiers, claim: Edge)
    ensures forall i :: 0 <= i < |UnitsOfClaim(nodes, t, claim)| ==> UnitsOfClaim(nodes, t, claim)[i].claimHop == claim
    ensures |UnitsOfClaim(nodes, t, claim)| == Parts(t, claim)
  {
    hide Mounters, AggrOf, AggrHop, CtrlHop, HostHop, Owner;
  }

  lemma {:induction false} RetainedOfClaim(g: Graph, scope: Scope, units: seq<Unit>, claim: Edge)
    ensures OfClaim(Retained(g, scope, units), claim) == Retained(g, scope, OfClaim(units, claim))
  {
    hide Keeps;
    if units != [] {
      var n := |units| - 1;
      RetainedOfClaim(g, scope, units[..n], claim);
      assert units == units[..n] + [units[n]];
      var own := OfClaim(units[..n], claim);
      assert (own + [units[n]])[..|own|] == own;
      var kept := Retained(g, scope, units[..n]);
      assert (kept + [units[n]])[..|kept|] == kept;
    }
  }

  lemma {:induction false} RetainedAll(g: Graph, scope: Scope, units: seq<Unit>)
    requires forall i :: 0 <= i < |units| ==> Keeps(g, scope, units[i])
    ensures Retained(g, scope, units) == units
  {
    hide Keeps;
    if units != [] {
      RetainedAll(g, scope, units[..|units| - 1]);
    }
  }

  // Every unit of the claim, one for each pod that mounts it, was retained.
  ghost predicate AllKept(g: Graph, scope: Scope, claim: Edge) {
    var units := UnitsOfClaim(g.nodes, TiersOf(g.edges), claim);
    forall i :: 0 <= i < |units| ==> Keeps(g, scope, units[i])
  }

  lemma {:induction false} AllKeptUnits(g: Graph, scope: Scope, claim: Edge)
    requires AllKept(g, scope, claim) && DistinctTargets(TiersOf(g.edges).svmPVC) && claim in TiersOf(g.edges).svmPVC
    ensures OfClaim(Kept(g, scope), claim) == UnitsOfClaim(g.nodes, TiersOf(g.edges), claim)
  {
    hide Keeps, UnitsOfClaim, UnitsOf, TiersOf, Retained, OfClaim, DistinctTargets;
    var t := TiersOf(g.edges);
    UnitsOfOneClaim(g.nodes, t, |t.svmPVC|, claim);
    assert t.svmPVC[..|t.svmPVC|] == t.svmPVC;
    RetainedOfClaim(g, scope, Units(g), claim);
    RetainedAll(g, scope, UnitsOfClaim(g.nodes, t, claim));
  }

  predicate Measured(io: IOMetrics) {
    io.readOps.Some? || io.writeOps.Some? || io.readBytes.Some? || io.writeBytes.Some?
    || io.readLatency.Some? || io.writeLatency.Some?
  }

  // Something is measured, and no change stands without its figure.
  predicate Tidy(io: IOMetrics) {
    && Measured(io)
    && (io.readOpsDelta.Some? ==> io.readOps.Some?) && (io.writeOpsDelta.Some? ==> io.writeOps.Some?)
    && (io.readBytesDelta.Some? ==> io.readBytes.Some?) && (io.writeBytesDelta.Some? ==> io.writeBytes.Some?)
    && (io.readLatencyDelta.Some? ==> io.readLatency.Some?) && (io.writeLatencyDelta.Some? ==> io.writeLatency.Some?)
  }

  lemma {:induction false} WholeFigure(own: seq<Unit>, claim: Edge, f: Figure)
    requires own != [] && forall j :: 0 <= j < |own| ==> own[j].claimHop == claim && own[j].n == |own|
    requires claim.io.Some?
    requires Get(claim.io.value, f).Some? ==> Get(claim.io.value, Base(f.flow)).Some?
    ensures Sum(Shares(own, f)) == Get(claim.io.value, f)
  {
    hide Sum, Times, Get;
    var share := ShareOf(claim.io, |own|, f);
    assert forall j :: 0 <= j < |own| ==> Shares(own, f)[j] == share;
    SumOfCopies(Shares(own, f), share);
    if share.Some? {
      TimesLaws(|own|, Get(claim.io.value, f).value);
    }
  }

  lemma {:induction false} FirstFillOfClaim(own: seq<Unit>, claim: Edge)
    requires forall j :: 0 <= j < |own| ==> own[j].claimHop == claim && own[j].n > 0
    ensures own != [] && claim.io.Some? && Measured(claim.io.value) ==> FirstFill(true, own) == claim.io
    ensures claim.io.None? ==> FirstFill(true, own) == None
  {
    if own != [] {
      FirstFillOfClaim(own[..|own| - 1], claim);
    }
  }

  lemma {:induction false} SummedWhole(own: seq<Unit>, claim: Edge)
    requires own != [] && forall j :: 0 <= j < |own| ==> own[j].claimHop == claim && own[j].n == |own|
    requires claim.io.Some? ==> Tidy(claim.io.value)
    ensures Summed(true, own) == claim.io
  {
    hide Sum, Shares, FirstFill;
    FirstFillOfClaim(own, claim);
    if claim.io.Some? {
      WholeFigure(own, claim, Base(ReadOps));
      WholeFigure(own, claim, Base(WriteOps));
      WholeFigure(own, claim, Base(ReadBytes));
      WholeFigure(own, claim, Base(WriteBytes));
      WholeFigure(own, claim, Change(ReadOps));
      WholeFigure(own, claim, Change(WriteOps));
      WholeFigure(own, claim, Change(ReadBytes));
      WholeFigure(own, claim, Change(WriteBytes));
    }
  }

  // A claim whose every mounter is retained, and likewise the path of an
  // unmounted claim, is drawn with exactly the measurement it was built with.
  lemma {:induction false} RetainedClaimIsWhole(g: Graph, scope: Scope, view: View, role: string -> Role, claim: Edge)
    requires IsProjection(g, scope, view) && TierChain(TiersOf(g.edges), role)
    requires claim in TiersOf(g.edges).svmPVC && AllKept(g, scope, claim)
    requires claim.io.Some? ==> Tidy(claim.io.value)
    ensures Projected(claim, claim.io) in view.edges
  {
    hide Keeps, UnitFrom, UnitOK, TierChain, TiersOf, Kept, Summed, Contrib, Sum, OfClaim, DrawnIds, TierOf, Joins,
      Parts, UnitsOfClaim, Tidy, AllKept, HopsOf, DistinctTargets;
    var t, units := TiersOf(g.edges), Kept(g, scope);
    var own := UnitsOfClaim(g.nodes, t, claim);
    ChainHasDistinctClaims(t, role);
    AllKeptUnits(g, scope, claim);
    ClaimHopsOf(g.nodes, t, claim);
    KeptFrom(g, scope);
    forall j | 0 <= j < |units|
      ensures UnitOK(units[j], role) && (PairOf(units[j].claimHop) == PairOf(claim) <==> units[j].claimHop == claim)
      ensures units[j].claimHop == claim ==> units[j].n == Parts(t, claim) > 0
    {
      OfOneClaim(g.nodes, t, role, units[j], claim);
    }
    ClaimJoins(t, role, claim);
    ClaimContrib(units, role, claim);
    OfClaimMembers(units, claim);
    SomeParts(t, claim);
    SummedWhole(own, claim);
    DrawnPair(view.edges, HopsOf(units), PairOf(claim));
  }

  lemma SomeParts(t: Tiers, claim: Edge)
    ensures Parts(t, claim) > 0
  {
    hide Mounters;
  }

  lemma ChainHasDistinctClaims(t: Tiers, role: string -> Role)
    requires TierChain(t, role)
    ensures DistinctTargets(t.svmPVC)
  {
  }

  lemma {:induction false} DrawnPair(out: seq<Edge>, hops: seq<Hop>, p: Pair)
    requires Weighted(out, hops) && FirstEdge(hops, p).Some?
    ensures WeighedEdge(FirstEdge(hops, p).value, Contrib(hops, p)) in out
  {
    hide WeighedEdge, Contrib;
    HopOfPair(hops, p);
    var j :| 0 <= j < |hops| && PairOf(hops[j].edge) == p;
    var i :| 0 <= i < |out| && PairOf(out[i]) == p;
  }

  lemma {:induction false} HopOfPair(hops: seq<Hop>, p: Pair)
    requires FirstEdge(hops, p).Some?
    ensures exists j :: 0 <= j < |hops| && PairOf(hops[j].edge) == p
  {
    if FirstEdge(hops[..|hops| - 1], p).Some? {
      HopOfPair(hops[..|hops| - 1], p);
      var j :| 0 <= j < |hops| - 1 && PairOf(hops[..|hops| - 1][j].edge) == p;
      assert PairOf(hops[j].edge) == p;
    } else {
      assert PairOf(hops[|hops| - 1].edge) == p;
    }
  }
}
