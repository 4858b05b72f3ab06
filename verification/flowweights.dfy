// Summing each retained edge's measurement over the units that pass through
// it, and reading a total over any choice of edges straight off the units.
module FlowWeights {
  import opened Common
  import opened Figures
  import opened Graphs
  import opened FlowUnits

  type Pair = (string, string)

  function PairOf(e: Edge): Pair {
    (e.source, e.target)
  }

  datatype Hop = Hop(unit: Unit, edge: Edge)

  function UnitHops(u: Unit): (hops: seq<Hop>)
    ensures |hops| == |u.Hops()|
  {
    seq(|u.Hops()|, i requires 0 <= i < |u.Hops()| => Hop(u, u.Hops()[i]))
  }

  function HopsOf(units: seq<Unit>): seq<Hop> {
    if units == [] then [] else HopsOf(units[..|units| - 1]) + UnitHops(units[|units| - 1])
  }

  // The first edge met between a pair of ids, and the units that pass it.
  function FirstEdge(hops: seq<Hop>, p: Pair): (e: Option<Edge>)
    ensures e.Some? ==> PairOf(e.value) == p
  {
    if hops == [] then None
    else
      var first := FirstEdge(hops[..|hops| - 1], p);
      if first.Some? then first
      else if PairOf(hops[|hops| - 1].edge) == p then Some(hops[|hops| - 1].edge)
      else None
  }

  function Contrib(hops: seq<Hop>, p: Pair): seq<Unit> {
    if hops == [] then []
    else
      var before := Contrib(hops[..|hops| - 1], p);
      if PairOf(hops[|hops| - 1].edge) == p then before + [hops[|hops| - 1].unit] else before
  }

  // ---- one edge's sum ----

  function UnitShare(u: Unit, f: Figure): Option<real> {
    ShareOf(u.claimHop.io, u.n, f)
  }

  function Shares(units: seq<Unit>, f: Figure): (shares: seq<Option<real>>)
    ensures |shares| == |units|
  {
    seq(|units|, i requires 0 <= i < |units| => UnitShare(units[i], f))
  }

  predicate HasLatency(io: Option<IOMetrics>) {
    io.Some? && (io.value.readLatency.Some? || io.value.writeLatency.Some?)
  }

  // A unit gives an edge something: a flow share, or, on the claim's own edge,
  // a latency.
  predicate Fills(claimTier: bool, u: Unit) {
    ScaleFlow(u.claimHop.io, u.n).1 || (claimTier && HasLatency(u.claimHop.io))
  }

  function FirstFill(claimTier: bool, units: seq<Unit>): (io: Option<IOMetrics>)
  {
    if units == [] then None
    else
      var before := FirstFill(claimTier, units[..|units| - 1]);
      if before.Some? then before
      else if Fills(claimTier, units[|units| - 1]) then units[|units| - 1].claimHop.io
      else None
  }

  function Totals(units: seq<Unit>): IOMetrics {
    NO_IO.(readOps := Sum(Shares(units, Base(ReadOps))),
           writeOps := Sum(Shares(units, Base(WriteOps))),
           readBytes := Sum(Shares(units, Base(ReadBytes))),
           writeBytes := Sum(Shares(units, Base(WriteBytes))),
           readOpsDelta := Sum(Shares(units, Change(ReadOps))),
           writeOpsDelta := Sum(Shares(units, Change(WriteOps))),
           readBytesDelta := Sum(Shares(units, Change(ReadBytes))),
           writeBytesDelta := Sum(Shares(units, Change(WriteBytes))))
  }

  // The claim's latency, its change beside it, and the ceiling, verbatim.
  function WithClaim(acc: IOMetrics, claim: IOMetrics): IOMetrics {
    acc.(readLatency := claim.readLatency,
         writeLatency := claim.writeLatency,
         readLatencyDelta := if claim.readLatency.Some? then claim.readLatencyDelta else None,
         writeLatencyDelta := if claim.writeLatency.Some? then claim.writeLatencyDelta else None,
         maxIOPS := claim.maxIOPS,
         maxBytes := claim.maxBytes)
  }

  function Summed(claimTier: bool, units: seq<Unit>): Option<IOMetrics> {
    var first := FirstFill(claimTier, units);
    if first.None? then None
    else Some(if claimTier then WithClaim(Totals(units), first.value) else Totals(units))
  }

  lemma FillsMeansMeasured(claimTier: bool, u: Unit)
    requires Fills(claimTier, u)
    ensures u.claimHop.io.Some?
  {
  }

  lemma {:induction false} SharesOfAppend(units: seq<Unit>, u: Unit, f: Figure)
    ensures Sum(Shares(units + [u], f)) == Add(Sum(Shares(units, f)), UnitShare(u, f))
  {
    hide Add, UnitShare;
    var all := Shares(units + [u], f);
    assert all[..|all| - 1] == Shares(units, f);
  }

  lemma {:induction false} TotalsOfAppend(units: seq<Unit>, u: Unit, flow: Flow)
    ensures Sum(Shares(units + [u], Base(flow))) == Add(Sum(Shares(units, Base(flow))), UnitShare(u, Base(flow)))
    ensures Sum(Shares(units + [u], Change(flow))) == Add(Sum(Shares(units, Change(flow))), UnitShare(u, Change(flow)))
  {
    hide Sum, Shares, Add, UnitShare;
    SharesOfAppend(units, u, Base(flow));
    SharesOfAppend(units, u, Change(flow));
  }

  // One step of the accumulation.
  function Accumulate(acc: IOMetrics, share: IOMetrics): IOMetrics {
    acc.(readOps := Add(acc.readOps, share.readOps),
         writeOps := Add(acc.writeOps, share.writeOps),
         readBytes := Add(acc.readBytes, share.readBytes),
         writeBytes := Add(acc.writeBytes, share.writeBytes),
         readOpsDelta := Add(acc.readOpsDelta, share.readOpsDelta),
         writeOpsDelta := Add(acc.writeOpsDelta, share.writeOpsDelta),
         readBytesDelta := Add(acc.readBytesDelta, share.readBytesDelta),
         writeBytesDelta := Add(acc.writeBytesDelta, share.writeBytesDelta))
  }

  lemma {:induction false} AccumulateAdds(units: seq<Unit>, u: Unit)
    ensures Totals(units + [u]) == Accumulate(Totals(units), ScaleFlow(u.claimHop.io, u.n).0)
    ensures !ScaleFlow(u.claimHop.io, u.n).1 ==> Totals(units + [u]) == Totals(units)
  {
    hide Sum, Shares, Add, ScaleFlow, ShareOf;
    TotalsOfAppend(units, u, ReadOps);
    TotalsOfAppend(units, u, WriteOps);
    TotalsOfAppend(units, u, ReadBytes);
    TotalsOfAppend(units, u, WriteBytes);
    var share := ScaleFlow(u.claimHop.io, u.n).0;
    ScaleFlowShares(u.claimHop.io, u.n);
    assert Get(share, Base(ReadOps)) == UnitShare(u, Base(ReadOps)) && Get(share, Change(ReadOps)) == UnitShare(u, Change(ReadOps));
    assert Get(share, Base(WriteOps)) == UnitShare(u, Base(WriteOps)) && Get(share, Change(WriteOps)) == UnitShare(u, Change(WriteOps));
    assert Get(share, Base(ReadBytes)) == UnitShare(u, Base(ReadBytes)) && Get(share, Change(ReadBytes)) == UnitShare(u, Change(ReadBytes));
    assert Get(share, Base(WriteBytes)) == UnitShare(u, Base(WriteBytes)) && Get(share, Change(WriteBytes)) == UnitShare(u, Change(WriteBytes));
    if !ScaleFlow(u.claimHop.io, u.n).1 {
      NoShareNoFigure(u, share);
      AddNothing(Totals(units));
    }
  }

  lemma NoShareNoFigure(u: Unit, share: IOMetrics)
    requires share == ScaleFlow(u.claimHop.io, u.n).0 && !ScaleFlow(u.claimHop.io, u.n).1
    ensures share == NO_IO
  {
  }

  lemma AddNothing(acc: IOMetrics)
    ensures Accumulate(acc, NO_IO) == acc
  {
  }

  method SumUnitShares(claimTier: bool, units: seq<Unit>) returns (io: Option<IOMetrics>)
    ensures io == Summed(claimTier, units)
  {
    hide Totals, ScaleFlow, Accumulate, Sum, Shares;
    var acc := NO_IO;
    var filled := false;
    var claimIO: Option<IOMetrics> := None;
    NoTotals();
    for i := 0 to |units|
      invariant acc == Totals(units[..i])
      invariant filled <==> FirstFill(claimTier, units[..i]).Some?
      invariant claimIO == FirstFill(claimTier, units[..i])
    {
      var u := units[i];
      assert units[..i + 1] == units[..i] + [u];
      AccumulateAdds(units[..i], u);
      if Fills(claimTier, u) { FillsMeansMeasured(claimTier, u); }
      var share, ok := ScaleFlow(u.claimHop.io, u.n).0, ScaleFlow(u.claimHop.io, u.n).1;
      if !ok {
        if claimTier && HasLatency(u.claimHop.io) {
          filled := true;
          if claimIO.None? {
            claimIO := u.claimHop.io;
          }
        }
        continue;
      }
      acc := Accumulate(acc, share);
      filled := true;
      if claimIO.None? {
        claimIO := u.claimHop.io;
      }
    }
    assert units[..|units|] == units;
    if !filled {
      return None;
    }
    if claimTier && claimIO.Some? {
      acc := WithClaim(acc, claimIO.value);
    }
    return Some(acc);
  }

  lemma NoTotals()
    ensures Totals([]) == NO_IO
  {
    assert forall f :: Shares([], f) == [];
  }

  // Every flow figure of an edge is the sum of the shares of its units, and is
  // absent exactly when no unit has one.
  lemma {:induction false} SummedFigure(claimTier: bool, units: seq<Unit>, f: Figure)
    ensures FigureOf(Summed(claimTier, units), f) == Sum(Shares(units, f))
  {
    hide Sum, Shares;
    assert Get(Totals(units), f) == Sum(Shares(units, f)) by {
      match f.flow
      case ReadOps =>
      case WriteOps =>
      case ReadBytes =>
      case WriteBytes =>
    }
    if FirstFill(claimTier, units).None? {
      UnfilledSumsToNothing(claimTier, units, f);
    }
  }

  lemma {:induction false} UnfilledSumsToNothing(claimTier: bool, units: seq<Unit>, f: Figure)
    requires FirstFill(claimTier, units).None?
    ensures Sum(Shares(units, f)).None?
  {
    hide ScaleFlow, ShareOf;
    if units == [] {
      assert Shares(units, f) == [];
    } else {
      var n, u := |units| - 1, units[|units| - 1];
      assert units == units[..n] + [u];
      if Fills(claimTier, u) { FillsMeansMeasured(claimTier, u); }
      UnfilledSumsToNothing(claimTier, units[..n], f);
      SharesOfAppend(units[..n], u, f);
      ScaleFlowShares(u.claimHop.io, u.n);
      assert ShareOf(u.claimHop.io, u.n, Base(f.flow)).None?;
      NoBaseNoShare(u.claimHop.io, u.n, f);
    }
  }

  lemma NoBaseNoShare(io: Option<IOMetrics>, n: int, f: Figure)
    requires ShareOf(io, n, Base(f.flow)).None?
    ensures ShareOf(io, n, f).None?
  {
  }

  // ---- all edges ----

  // The internal stamp never leaves; everything else is copied.
  function Projected(e: Edge, io: Option<IOMetrics>): Edge {
    Edge(e.kind, e.source, e.target, e.labels - {CLAIM_AGGR}, io)
  }

  function WeighedEdge(first: Edge, units: seq<Unit>): Edge {
    Projected(first, Summed(TierOf(first) == SVMToPVC, units))
  }

  // One edge per pair the hops pass, each with the sum over its units, in any
  // order.
  ghost predicate Weighted(out: seq<Edge>, hops: seq<Hop>) {
    && (forall i, j :: 0 <= i < j < |out| ==> PairOf(out[i]) != PairOf(out[j]))
    && (forall i :: 0 <= i < |out| ==>
          && FirstEdge(hops, PairOf(out[i])).Some?
          && out[i] == WeighedEdge(FirstEdge(hops, PairOf(out[i])).value, Contrib(hops, PairOf(out[i]))))
    && (forall i :: 0 <= i < |hops| ==> PairOf(hops[i].edge) in PairsOf(out))
  }

  ghost function PairsOf(out: seq<Edge>): set<Pair> {
    set i | 0 <= i < |out| :: PairOf(out[i])
  }

  datatype Acc = Acc(edge: Edge, contrib: seq<Unit>)

  ghost predicate Collected(byPair: map<Pair, Acc>, hops: seq<Hop>) {
    forall p ::
      && (p in byPair <==> FirstEdge(hops, p).Some?)
      && (p in byPair ==> FirstEdge(hops, p) == Some(byPair[p].edge) && byPair[p].contrib == Contrib(hops, p))
      && (p !in byPair ==> Contrib(hops, p) == [])
  }

  lemma {:induction false} CollectMore(byPair: map<Pair, Acc>, hops: seq<Hop>, h: Hop)
    requires Collected(byPair, hops)
    ensures var p := PairOf(h.edge);
            var acc := if p in byPair then byPair[p] else Acc(h.edge, []);
            Collected(byPair[p := acc.(contrib := acc.contrib + [h.unit])], hops + [h])
  {
    assert (hops + [h])[..|hops + [h]| - 1] == hops;
  }

  method CollectUnit(start: map<Pair, Acc>, ghost before: seq<Hop>, u: Unit) returns (byPair: map<Pair, Acc>)
    requires Collected(start, before)
    ensures Collected(byPair, before + UnitHops(u))
  {
    hide Collected;
    byPair := start;
    var edges := u.Hops();
    ghost var hops := UnitHops(u);
    assert before + hops[..0] == before;
    for j := 0 to |edges|
      invariant Collected(byPair, before + hops[..j])
    {
      var e := edges[j];
      CollectMore(byPair, before + hops[..j], Hop(u, e));
      assert before + hops[..j + 1] == before + hops[..j] + [Hop(u, e)];
      var acc := if PairOf(e) in byPair then byPair[PairOf(e)] else Acc(e, []);
      byPair := byPair[PairOf(e) := acc.(contrib := acc.contrib + [u])];
    }
    assert hops[..|edges|] == hops;
  }

  method CollectHops(retained: seq<Unit>) returns (byPair: map<Pair, Acc>)
    ensures Collected(byPair, HopsOf(retained))
  {
    hide Collected, UnitHops;
    byPair := map[];
    NothingCollected();
    for i := 0 to |retained|
      invariant Collected(byPair, HopsOf(retained[..i]))
    {
      byPair := CollectUnit(byPair, HopsOf(retained[..i]), retained[i]);
      assert retained[..i + 1][..i] == retained[..i];
    }
    assert retained[..|retained|] == retained;
  }

  lemma NothingCollected()
    ensures Collected(map[], [])
  {
  }

  method WeightRetained(retained: seq<Unit>) returns (out: seq<Edge>)
    ensures Weighted(out, HopsOf(retained))
  {
    hide HopsOf, FirstEdge, Contrib, Summed, TierOf;
    var byPair := CollectHops(retained);
    out := [];
    var left := byPair.Keys;
    while left != {}
      invariant left <= byPair.Keys
      invariant PairsOf(out) == byPair.Keys - left
      invariant forall i, j :: 0 <= i < j < |out| ==> PairOf(out[i]) != PairOf(out[j])
      invariant forall i :: 0 <= i < |out| ==>
                  && PairOf(out[i]) in byPair
                  && out[i] == WeighedEdge(byPair[PairOf(out[i])].edge, byPair[PairOf(out[i])].contrib)
    {
      var p: Pair :| p in left;
      var acc := byPair[p];
      assert FirstEdge(HopsOf(retained), p).Some?;
      var io := SumUnitShares(TierOf(acc.edge) == SVMToPVC, acc.contrib);
      PairsOfMore(out, Projected(acc.edge, io));
      assert p !in PairsOf(out);
      forall i | 0 <= i < |out| ensures PairOf(out[i]) != p { assert PairOf(out[i]) in PairsOf(out); }
      out := out + [Projected(acc.edge, io)];
      left := left - {p};
    }
    forall i | 0 <= i < |HopsOf(retained)| ensures PairOf(HopsOf(retained)[i].edge) in byPair {
      HopHasEdge(HopsOf(retained), i);
    }
  }

  lemma PairsOfMore(out: seq<Edge>, e: Edge)
    ensures PairsOf(out + [e]) == PairsOf(out) + {PairOf(e)}
  {
    var more := out + [e];
    assert forall i :: 0 <= i < |out| ==> more[i] == out[i];
    forall p | p in PairsOf(out) ensures p in PairsOf(more) {
      var i :| 0 <= i < |out| && PairOf(out[i]) == p;
      assert PairOf(more[i]) == p;
    }
    assert PairOf(more[|out|]) == PairOf(e);
  }

  lemma {:induction false} HopHasEdge(hops: seq<Hop>, i: nat)
    requires i < |hops|
    ensures FirstEdge(hops, PairOf(hops[i].edge)).Some?
  {
    if i < |hops| - 1 {
      HopHasEdge(hops[..|hops| - 1], i);
    }
  }

  // ---- totals over a choice of edges ----

  // The total of a figure over the chosen edges of a view.
  function FlowOver(out: seq<Edge>, chosen: Pair -> bool, f: Figure): Option<real> {
    if out == [] then None
    else
      var before := FlowOver(out[..|out| - 1], chosen, f);
      if chosen(PairOf(out[|out| - 1])) then Add(before, FigureOf(out[|out| - 1].io, f)) else before
  }

  // The same, unit by unit and hop by hop.
  function HopFlow(hops: seq<Hop>, chosen: Pair -> bool, f: Figure): Option<real> {
    if hops == [] then None
    else
      var before := HopFlow(hops[..|hops| - 1], chosen, f);
      if chosen(PairOf(hops[|hops| - 1].edge)) then Add(before, UnitShare(hops[|hops| - 1].unit, f)) else before
  }

  lemma {:induction false} HopFlowSame(hops: seq<Hop>, a: Pair -> bool, b: Pair -> bool, f: Figure)
    requires forall i :: 0 <= i < |hops| ==> a(PairOf(hops[i].edge)) == b(PairOf(hops[i].edge))
    ensures HopFlow(hops, a, f) == HopFlow(hops, b, f)
  {
    hide UnitShare, Add;
    if hops != [] {
      HopFlowSame(hops[..|hops| - 1], a, b, f);
    }
  }

  lemma {:induction false} HopFlowSplits(hops: seq<Hop>, a: Pair -> bool, b: Pair -> bool, ab: Pair -> bool, f: Figure)
    requires forall p :: ab(p) <==> a(p) || b(p)
    requires forall p :: !(a(p) && b(p))
    ensures HopFlow(hops, ab, f) == Add(HopFlow(hops, a, f), HopFlow(hops, b, f))
  {
    hide UnitShare, Add;
    if hops == [] {
      AddLaws(None, None, None);
    } else {
      var init := hops[..|hops| - 1];
      HopFlowSplits(init, a, b, ab, f);
      var x, y, z := HopFlow(init, a, f), HopFlow(init, b, f), UnitShare(hops[|hops| - 1].unit, f);
      AddLaws(x, y, z);
      AddLaws(x, z, y);
      AddLaws(y, z, x);
    }
  }

  lemma {:induction false} HopFlowOfPair(hops: seq<Hop>, p: Pair, f: Figure)
    ensures HopFlow(hops, q => q == p, f) == Sum(Shares(Contrib(hops, p), f))
  {
    hide UnitShare, Add, Sum, Shares;
    if hops == [] {
      NoShares(f);
    } else {
      HopFlowOfPair(hops[..|hops| - 1], p, f);
      SharesOfAppend(Contrib(hops[..|hops| - 1], p), hops[|hops| - 1].unit, f);
    }
  }

  lemma NoShares(f: Figure)
    ensures Sum(Shares([], f)) == None
  {
    assert Shares([], f) == [];
  }

  lemma {:induction false} FlowOfListed(out: seq<Edge>, hops: seq<Hop>, chosen: Pair -> bool, f: Figure)
    requires forall i, j :: 0 <= i < j < |out| ==> PairOf(out[i]) != PairOf(out[j])
    requires forall i :: 0 <= i < |out| ==> FigureOf(out[i].io, f) == Sum(Shares(Contrib(hops, PairOf(out[i])), f))
    ensures FlowOver(out, chosen, f) == HopFlow(hops, p => chosen(p) && p in PairsOf(out), f)
  {
    hide Sum, Shares, Contrib, Add, HopFlow, PairsOf, FigureOf;
    if out == [] {
      NoneListed(hops, chosen, f);
    } else {
      var n := |out| - 1;
      var init, e := out[..n], out[n];
      FlowOfListed(init, hops, chosen, f);
      assert out == init + [e];
      PairsOfMore(init, e);
      assert PairOf(e) !in PairsOf(init) by { NotListed(init, PairOf(e)); }
      var all := (p: Pair) => chosen(p) && p in PairsOf(out);
      var before := (p: Pair) => chosen(p) && p in PairsOf(init);
      var one := (p: Pair) => chosen(p) && p == PairOf(e);
      HopFlowSplits(hops, before, one, all, f);
      OneChosen(hops, chosen, PairOf(e), f);
      AddLaws(HopFlow(hops, before, f), None, None);
    }
  }

  lemma NotListed(out: seq<Edge>, p: Pair)
    requires forall i :: 0 <= i < |out| ==> PairOf(out[i]) != p
    ensures p !in PairsOf(out)
  {
  }

  lemma {:induction false} OneChosen(hops: seq<Hop>, chosen: Pair -> bool, p: Pair, f: Figure)
    ensures HopFlow(hops, q => chosen(q) && q == p, f)
            == if chosen(p) then Sum(Shares(Contrib(hops, p), f)) else None
  {
    hide Sum, Shares, Contrib, HopFlow;
    var one := (q: Pair) => chosen(q) && q == p;
    if chosen(p) {
      HopFlowSame(hops, one, q => q == p, f);
      HopFlowOfPair(hops, p, f);
    } else {
      NoneChosen(hops, one, f);
    }
  }

  lemma {:induction false} NoneChosen(hops: seq<Hop>, chosen: Pair -> bool, f: Figure)
    requires forall i :: 0 <= i < |hops| ==> !chosen(PairOf(hops[i].edge))
    ensures HopFlow(hops, chosen, f) == None
  {
    hide UnitShare, Add;
    if hops != [] {
      NoneChosen(hops[..|hops| - 1], chosen, f);
    }
  }

  lemma {:induction false} NoneListed(hops: seq<Hop>, chosen: Pair -> bool, f: Figure)
    ensures HopFlow(hops, p => chosen(p) && p in PairsOf([]), f) == None
  {
    assert PairsOf([]) == {};
    NoneChosen(hops, p => chosen(p) && p in PairsOf([]), f);
  }

  // Whatever edges are chosen, the view's total over them is the units' total
  // over the hops they make across them.
  lemma {:induction false} FlowByHops(out: seq<Edge>, hops: seq<Hop>, chosen: Pair -> bool, f: Figure)
    requires Weighted(out, hops)
    ensures FlowOver(out, chosen, f) == HopFlow(hops, chosen, f)
  {
    hide Sum, Shares, Contrib, Add, HopFlow, PairsOf, FigureOf, Summed, FlowOver, FirstEdge, TierOf;
    forall i | 0 <= i < |out|
      ensures FigureOf(out[i].io, f) == Sum(Shares(Contrib(hops, PairOf(out[i])), f))
    {
      var first := FirstEdge(hops, PairOf(out[i])).value;
      SummedFigure(TierOf(first) == SVMToPVC, Contrib(hops, PairOf(out[i])), f);
    }
    FlowOfListed(out, hops, chosen, f);
    var listed := (p: Pair) => chosen(p) && p in PairsOf(out);
    forall i | 0 <= i < |hops| ensures chosen(PairOf(hops[i].edge)) == listed(PairOf(hops[i].edge)) {
      assert PairOf(hops[i].edge) in PairsOf(out);
    }
    HopFlowSame(hops, chosen, listed, f);
  }
}
