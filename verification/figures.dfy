// Storage measurements: optional figures, how one is split between mounting
// pods and how the shares are added back up.
module Figures {
  import opened Common

  datatype IOMetrics = IOMetrics(
    readOps: Option<real>,
    writeOps: Option<real>,
    readBytes: Option<real>,
    writeBytes: Option<real>,
    readLatency: Option<real>,
    writeLatency: Option<real>,
    maxIOPS: Option<real>,
    maxBytes: Option<real>,
    readOpsDelta: Option<real>,
    writeOpsDelta: Option<real>,
    readBytesDelta: Option<real>,
    writeBytesDelta: Option<real>,
    readLatencyDelta: Option<real>,
    writeLatencyDelta: Option<real>)

  const NO_IO: IOMetrics :=
    IOMetrics(None, None, None, None, None, None, None, None, None, None, None, None, None, None)

  // The four figures that flow through the tiers, and the change of each.
  datatype Flow = ReadOps | WriteOps | ReadBytes | WriteBytes
  datatype Figure = Base(flow: Flow) | Change(flow: Flow)

  function Get(io: IOMetrics, f: Figure): Option<real> {
    match f
    case Base(ReadOps) => io.readOps
    case Base(WriteOps) => io.writeOps
    case Base(ReadBytes) => io.readBytes
    case Base(WriteBytes) => io.writeBytes
    case Change(ReadOps) => io.readOpsDelta
    case Change(WriteOps) => io.writeOpsDelta
    case Change(ReadBytes) => io.readBytesDelta
    case Change(WriteBytes) => io.writeBytesDelta
  }

  // A figure of an edge that may carry no measurement at all.
  function FigureOf(io: Option<IOMetrics>, f: Figure): Option<real> {
    if io.None? then None else Get(io.value, f)
  }

  // divPtr
  function Div(x: Option<real>, n: nat): Option<real>
    requires n > 0
  {
    if x.None? then None else Some(x.value / n as real)
  }

  // addPtr
  function Add(dst: Option<real>, src: Option<real>): Option<real> {
    if src.None? then dst
    else if dst.None? then src
    else Some(dst.value + src.value)
  }

  // scaleFlow: one share of n, and whether any flow figure was there to share.
  function ScaleFlow(io: Option<IOMetrics>, n: int): (share: (IOMetrics, bool)) {
    if io.None? || n <= 0 then (NO_IO, false)
    else
      var m := io.value;
      (NO_IO.(readOps := Div(m.readOps, n),
              readOpsDelta := if m.readOps.Some? then Div(m.readOpsDelta, n) else None,
              writeOps := Div(m.writeOps, n),
              writeOpsDelta := if m.writeOps.Some? then Div(m.writeOpsDelta, n) else None,
              readBytes := Div(m.readBytes, n),
              readBytesDelta := if m.readBytes.Some? then Div(m.readBytesDelta, n) else None,
              writeBytes := Div(m.writeBytes, n),
              writeBytesDelta := if m.writeBytes.Some? then Div(m.writeBytesDelta, n) else None),
       m.readOps.Some? || m.writeOps.Some? || m.readBytes.Some? || m.writeBytes.Some?)
  }

  // What one of n mounters owes to a figure: an equal part of it, and of its
  // change only where the figure itself is known.
  function ShareOf(io: Option<IOMetrics>, n: int, f: Figure): Option<real> {
    if io.None? || n <= 0 || Get(io.value, Base(f.flow)).None? then None
    else Div(Get(io.value, f), n)
  }

  lemma {:induction false} ScaleFlowShares(io: Option<IOMetrics>, n: int)
    ensures forall f :: Get(ScaleFlow(io, n).0, f) == ShareOf(io, n, f)
    ensures ScaleFlow(io, n).1 <==> exists flow :: ShareOf(io, n, Base(flow)).Some?
  {
    forall f ensures Get(ScaleFlow(io, n).0, f) == ShareOf(io, n, f) {
      match f.flow
      case ReadOps =>
      case WriteOps =>
      case ReadBytes =>
      case WriteBytes =>
    }
    assert ScaleFlow(io, n).1 <==>
             || ShareOf(io, n, Base(ReadOps)).Some? || ShareOf(io, n, Base(WriteOps)).Some?
             || ShareOf(io, n, Base(ReadBytes)).Some? || ShareOf(io, n, Base(WriteBytes)).Some?;
    forall flow | ShareOf(io, n, Base(flow)).Some? ensures ScaleFlow(io, n).1 {
      match flow
      case ReadOps =>
      case WriteOps =>
      case ReadBytes =>
      case WriteBytes =>
    }
  }

  // ---- absent figures are neutral, not zero ----

  lemma AddLaws(a: Option<real>, b: Option<real>, c: Option<real>)
    ensures Add(a, None) == a && Add(None, a) == a
    ensures Add(a, b) == Add(b, a)
    ensures Add(Add(a, b), c) == Add(a, Add(b, c))
    ensures Add(a, b).None? <==> a.None? && b.None?
  {
  }

  function Sum(xs: seq<Option<real>>): Option<real> {
    if xs == [] then None else Add(Sum(xs[..|xs| - 1]), xs[|xs| - 1])
  }

  lemma {:induction false} SumAppend(xs: seq<Option<real>>, ys: seq<Option<real>>)
    ensures Sum(xs + ys) == Add(Sum(xs), Sum(ys))
  {
    if ys == [] {
      assert xs + ys == xs;
    } else {
      var n := |ys| - 1;
      assert (xs + ys)[..|xs + ys| - 1] == xs + ys[..n];
      SumAppend(xs, ys[..n]);
    }
  }

  lemma {:induction false} SumTakeOut(xs: seq<Option<real>>, i: nat)
    requires i < |xs|
    ensures Sum(xs) == Add(Sum(xs[..i] + xs[i + 1..]), xs[i])
    ensures multiset(xs) == multiset(xs[..i] + xs[i + 1..]) + multiset{xs[i]}
  {
    hide Sum, Add;
    var before, x, after := xs[..i], xs[i], xs[i + 1..];
    assert xs == before + ([x] + after);
    SumAppend(before, after);
    SumAppend(before, [x] + after);
    SumAppend([x], after);
    SumOne(x);
    AddLaws(Sum(before), x, Sum(after));
    AddLaws(Sum(before), Sum(after), x);
    AddLaws(x, Sum(after), x);
  }

  lemma SumOne(x: Option<real>)
    ensures Sum([x]) == x
  {
    assert [x][..0] == [];
  }

  // The order in which shares are added does not matter.
  lemma {:induction false} SumOrderFree(xs: seq<Option<real>>, ys: seq<Option<real>>)
    requires multiset(xs) == multiset(ys)
    ensures Sum(xs) == Sum(ys)
  {
    if xs == [] {
      assert |multiset(ys)| == 0;
    } else {
      var n, x := |xs| - 1, xs[|xs| - 1];
      assert x in multiset(xs) && x in ys;
      var i :| 0 <= i < |ys| && ys[i] == x;
      SumTakeOut(xs, n);
      SumTakeOut(ys, i);
      var xs', ys' := xs[..n] + xs[n + 1..], ys[..i] + ys[i + 1..];
      assert multiset(xs') == multiset(xs) - multiset{x} == multiset(ys) - multiset{x} == multiset(ys');
      SumOrderFree(xs', ys');
    }
  }

  function Times(k: nat, v: real): real {
    k as real * v
  }

  lemma TimesLaws(k: nat, v: real)
    ensures Times(1, v) == v
    ensures k > 0 ==> Times(k - 1, v) + v == Times(k, v)
    ensures k > 0 ==> Times(k, v / k as real) == v
  {
    if k > 0 {
      assert (k - 1) as real == k as real - 1.0;
      assert v / k as real * k as real == v;
    }
  }

  // Equal shares add up: k of them make k times one.
  lemma {:induction false} SumOfCopies(xs: seq<Option<real>>, x: Option<real>)
    requires forall i :: 0 <= i < |xs| ==> xs[i] == x
    ensures x.None? || xs == [] ==> Sum(xs) == None
    ensures x.Some? && xs != [] ==> Sum(xs) == Some(Times(|xs|, x.value))
  {
    hide Times;
    if |xs| == 1 {
      assert xs == [x];
      SumOne(x);
      if x.Some? { TimesLaws(1, x.value); }
    } else if xs != [] {
      SumOfCopies(xs[..|xs| - 1], x);
      if x.Some? { TimesLaws(|xs|, x.value); }
    }
  }
}
