// Loading one cluster's routing state for one destination address: four scoped
// reads, each de-duplicated before the next is derived from it.
module RouteStore {
  import opened Ordering
  import opened VersionStore

  datatype Svc = Svc(externalIPs: seq<string>, loadBalancerIPs: seq<string>, selector: seq<string>)
  datatype Gw = Gw(selector: seq<string>, hosts: seq<string>)
  datatype Vs = Vs(bound: seq<string>, spec: string)
  type Labels = seq<string>

  // The four version tables, and equally any part of them read out.
  datatype Tables = Tables(services: seq<Row<Svc>>, deploys: seq<Row<Labels>>, gateways: seq<Row<Gw>>, vses: seq<Row<Vs>>)

  predicate HasIngressIP(s: Svc, ip: string) {
    ip in s.externalIPs || ip in s.loadBalancerIPs
  }

  predicate ContainsAll(super: seq<string>, sub: seq<string>) {
    forall i :: 0 <= i < |sub| ==> sub[i] in super
  }

  predicate ContainsAny(a: seq<string>, b: seq<string>) {
    exists i :: 0 <= i < |b| && b[i] in a
  }

  function KeyOf<P>(r: Row<P>): string {
    r.ns + "/" + r.name
  }

  // A query selects on immutable columns; under the unique-rows flag it also
  // prunes on valid_to.
  function Asks<P>(p: Row<P> -> bool, at: int, prune: bool): Row<P> -> bool {
    (r: Row<P>) => p(r) && r.vf <= at && (prune ==> at < r.vt)
  }

  // Rows are then de-duplicated, and liveness is decided last.
  function Fetch<P>(rows: seq<Row<P>>, p: Row<P> -> bool, at: int, prune: bool := false): seq<Row<P>> {
    Live(Deduped(Where(rows, Asks(p, at, prune))), at)
  }

  function InCluster<P>(cluster: string): Row<P> -> bool {
    (r: Row<P>) => r.cluster == cluster
  }

  function ServesIP(cluster: string, ip: string): Row<Svc> -> bool {
    (r: Row<Svc>) => r.cluster == cluster && HasIngressIP(r.payload, ip)
  }

  function Runs(cluster: string, nss: seq<string>, selector: seq<string>): Row<Labels> -> bool {
    (r: Row<Labels>) => r.cluster == cluster && r.ns in nss && ContainsAll(r.payload, selector)
  }

  function Fronts(cluster: string, nss: seq<string>, labels: seq<string>): Row<Gw> -> bool {
    (r: Row<Gw>) => r.cluster == cluster && r.ns in nss && ContainsAll(labels, r.payload.selector)
  }

  function Binds(cluster: string, refs: seq<string>): Row<Vs> -> bool {
    (r: Row<Vs>) => r.cluster == cluster && ContainsAny(r.payload.bound, refs)
  }

  function Backs(cluster: string, keys: set<string>): Row<Svc> -> bool {
    (r: Row<Svc>) => r.cluster == cluster && KeyOf(r) in keys
  }

  // ---- what each read hands to the next ----

  function AddAllNew(xs: seq<string>, more: seq<string>): seq<string> {
    if more == [] then xs else AddNew(AddAllNew(xs, more[..|more| - 1]), more[|more| - 1])
  }

  function Namespaces(rows: seq<Row<Svc>>): seq<string> {
    if rows == [] then [] else AddNew(Namespaces(rows[..|rows| - 1]), rows[|rows| - 1].ns)
  }

  // An empty selector selects every pod, and is left out.
  function Selectors(rows: seq<Row<Svc>>): seq<seq<string>> {
    if rows == [] then []
    else
      var before := Selectors(rows[..|rows| - 1]);
      var selector := rows[|rows| - 1].payload.selector;
      if selector == [] then before else AddNew(before, selector)
  }

  function DeployRows(rows: seq<Row<Labels>>, cluster: string, nss: seq<string>, selectors: seq<seq<string>>, at: int,
                      prune: bool := false): seq<Row<Labels>> {
    if selectors == [] then []
    else
      DeployRows(rows, cluster, nss, selectors[..|selectors| - 1], at, prune)
      + Where(rows, Asks(Runs(cluster, nss, selectors[|selectors| - 1]), at, prune))
  }

  function LabelUnion(rows: seq<Row<Labels>>): seq<string> {
    if rows == [] then [] else AddAllNew(LabelUnion(rows[..|rows| - 1]), rows[|rows| - 1].payload)
  }

  // Both ways a VirtualService may name a gateway.
  function Refs(rows: seq<Row<Gw>>): seq<string> {
    if rows == [] then [] else AddAllNew(Refs(rows[..|rows| - 1]), [KeyOf(rows[|rows| - 1]), rows[|rows| - 1].name])
  }

  // destOf gives the Service keys a VirtualService routes to.
  function Dests(rows: seq<Row<Vs>>, destOf: Row<Vs> -> set<string>): set<string> {
    if rows == [] then {} else Dests(rows[..|rows| - 1], destOf) + destOf(rows[|rows| - 1])
  }

  // ---- LoadTrafficAt ----

  function BoundVSes(t: Tables, cluster: string, gws: seq<Row<Gw>>, at: int, prune: bool): seq<Row<Vs>> {
    var refs := Refs(gws);
    if refs == [] then [] else Fetch(t.vses, Binds(cluster, refs), at, prune)
  }

  function LoadBound(t: Tables, cluster: string, destOf: Row<Vs> -> set<string>, svcs: seq<Row<Svc>>, deps: seq<Row<Labels>>,
                     gws: seq<Row<Gw>>, at: int, prune: bool): Tables {
    var vses := BoundVSes(t, cluster, gws, at, prune);
    Tables(svcs + Fetch(t.services, Backs(cluster, Dests(vses, destOf)), at, prune), deps, gws, vses)
  }

  function LiveDeploys(t: Tables, cluster: string, nss: seq<string>, selectors: seq<seq<string>>, at: int, prune: bool): seq<Row<Labels>> {
    Live(Deduped(DeployRows(t.deploys, cluster, nss, selectors, at, prune)), at)
  }

  function FrontGateways(t: Tables, cluster: string, nss: seq<string>, deps: seq<Row<Labels>>, at: int, prune: bool): seq<Row<Gw>> {
    var labels := LabelUnion(deps);
    if labels == [] then [] else Fetch(t.gateways, Fronts(cluster, nss, labels), at, prune)
  }

  function LoadTraffic(t: Tables, cluster: string, destOf: Row<Vs> -> set<string>, ip: string, at: int, prune: bool := false): Tables {
    var svcs := Fetch(t.services, ServesIP(cluster, ip), at, prune);
    var nss, selectors := Namespaces(svcs), Selectors(svcs);
    if nss == [] || selectors == [] then Tables(svcs, [], [], [])
    else
      var deps := LiveDeploys(t, cluster, nss, selectors, at, prune);
      LoadBound(t, cluster, destOf, svcs, deps, FrontGateways(t, cluster, nss, deps, at, prune), at, prune)
  }

  // ---- what the reads discard ----

  function Discarded<P>(rows: seq<Row<P>>): int {
    |rows| - |Deduped(rows)|
  }

  function DiscardedBy<P>(rows: seq<Row<P>>, p: Row<P> -> bool, at: int, prune: bool): int {
    Discarded(Where(rows, Asks(p, at, prune)))
  }

  function DiscardedGateways(t: Tables, cluster: string, nss: seq<string>, deps: seq<Row<Labels>>, at: int, prune: bool): int {
    var labels := LabelUnion(deps);
    if labels == [] then 0 else DiscardedBy(t.gateways, Fronts(cluster, nss, labels), at, prune)
  }

  function DiscardedBound(t: Tables, cluster: string, destOf: Row<Vs> -> set<string>, gws: seq<Row<Gw>>, at: int, prune: bool): int {
    var refs := Refs(gws);
    var vses := BoundVSes(t, cluster, gws, at, prune);
    (if refs == [] then 0 else DiscardedBy(t.vses, Binds(cluster, refs), at, prune))
    + DiscardedBy(t.services, Backs(cluster, Dests(vses, destOf)), at, prune)
  }

  // Over all the reads of one load.
  function Collapsed(t: Tables, cluster: string, destOf: Row<Vs> -> set<string>, ip: string, at: int, prune: bool): int {
    var svcs := Fetch(t.services, ServesIP(cluster, ip), at, prune);
    var nss, selectors := Namespaces(svcs), Selectors(svcs);
    DiscardedBy(t.services, ServesIP(cluster, ip), at, prune)
    + if nss == [] || selectors == [] then 0
      else
        var deps := LiveDeploys(t, cluster, nss, selectors, at, prune);
        Discarded(DeployRows(t.deploys, cluster, nss, selectors, at, prune))
        + DiscardedGateways(t, cluster, nss, deps, at, prune)
        + DiscardedBound(t, cluster, destOf, FrontGateways(t, cluster, nss, deps, at, prune), at, prune)
  }

  method HandOnServices(svcs: seq<Row<Svc>>) returns (nss: seq<string>, selectors: seq<seq<string>>)
    ensures nss == Namespaces(svcs) && selectors == Selectors(svcs)
  {
    nss, selectors := [], [];
    for i := 0 to |svcs|
      invariant nss == Namespaces(svcs[..i]) && selectors == Selectors(svcs[..i])
    {
      var r := svcs[i];
      assert svcs[..i + 1][..i] == svcs[..i];
      if r.ns !in nss {
        nss := nss + [r.ns];
      }
      if |r.payload.selector| > 0 && r.payload.selector !in selectors {
        selectors := selectors + [r.payload.selector];
      }
    }
    assert svcs[..|svcs|] == svcs;
  }

  method AddStrings(start: seq<string>, more: seq<string>) returns (xs: seq<string>)
    ensures xs == AddAllNew(start, more)
  {
    xs := start;
    for i := 0 to |more|
      invariant xs == AddAllNew(start, more[..i])
    {
      assert more[..i + 1][..i] == more[..i];
      if more[i] !in xs {
        xs := xs + [more[i]];
      }
    }
    assert more[..|more|] == more;
  }

  // The rows of one result set, de-duplicated and filtered by the reader.
  method ReadLive<P>(reader: Reader, rows: seq<Row<P>>, at: int) returns (live: seq<Row<P>>)
    modifies reader
    ensures live == Live(Deduped(rows), at)
    ensures reader.collapsed == old(reader.collapsed) + Discarded(rows) >= old(reader.collapsed)
    ensures reader.warned == (old(reader.warned) || (reader.uniqueRows && Discarded(rows) > 0))
  {
    hide Live, Deduped;
    var a := new Row<P>[|rows|](i requires 0 <= i < |rows| => rows[i]);
    assert a[..] == rows;
    var n := reader.DedupLiveAtCounted(a, at);
    live := a[..n];
  }

  method ReadDeploys(rows: seq<Row<Labels>>, cluster: string, nss: seq<string>, selectors: seq<seq<string>>, at: int, prune: bool)
    returns (deps: seq<Row<Labels>>)
    ensures deps == DeployRows(rows, cluster, nss, selectors, at, prune)
  {
    deps := [];
    for i := 0 to |selectors|
      invariant deps == DeployRows(rows, cluster, nss, selectors[..i], at, prune)
    {
      assert selectors[..i + 1][..i] == selectors[..i];
      deps := deps + Where(rows, Asks(Runs(cluster, nss, selectors[i]), at, prune));
    }
    assert selectors[..|selectors|] == selectors;
  }

  method HandOnLabels(deps: seq<Row<Labels>>) returns (labels: seq<string>)
    ensures labels == LabelUnion(deps)
  {
    labels := [];
    for i := 0 to |deps|
      invariant labels == LabelUnion(deps[..i])
    {
      assert deps[..i + 1][..i] == deps[..i];
      labels := AddStrings(labels, deps[i].payload);
    }
    assert deps[..|deps|] == deps;
  }

  method HandOnRefs(gws: seq<Row<Gw>>) returns (refs: seq<string>)
    ensures refs == Refs(gws)
  {
    refs := [];
    for i := 0 to |gws|
      invariant refs == Refs(gws[..i])
    {
      assert gws[..i + 1][..i] == gws[..i];
      refs := AddStrings(refs, [KeyOf(gws[i]), gws[i].name]);
    }
    assert gws[..|gws|] == gws;
  }

  method ReadBound(reader: Reader, t: Tables, cluster: string, destOf: Row<Vs> -> set<string>, gws: seq<Row<Gw>>, at: int)
    returns (vses: seq<Row<Vs>>, backends: seq<Row<Svc>>)
    modifies reader
    ensures vses == BoundVSes(t, cluster, gws, at, reader.uniqueRows)
    ensures backends == Fetch(t.services, Backs(cluster, Dests(vses, destOf)), at, reader.uniqueRows)
    ensures reader.collapsed == old(reader.collapsed) + DiscardedBound(t, cluster, destOf, gws, at, reader.uniqueRows) >= old(reader.collapsed)
    ensures reader.warned == (old(reader.warned) || (reader.uniqueRows && DiscardedBound(t, cluster, destOf, gws, at, reader.uniqueRows) > 0))
  {
    hide Live, Deduped, Where, Refs, Dests, Discarded;
    var refs := HandOnRefs(gws);
    vses := [];
    if |refs| > 0 {
      vses := ReadLive(reader, Where(t.vses, Asks(Binds(cluster, refs), at, reader.uniqueRows)), at);
    }
    backends := ReadLive(reader, Where(t.services, Asks(Backs(cluster, Dests(vses, destOf)), at, reader.uniqueRows)), at);
  }

  // Every read passes through the reader, which counts what it discards.
  method LoadTrafficAt(reader: Reader, t: Tables, cluster: string, destOf: Row<Vs> -> set<string>, ip: string, at: int) returns (w: Tables)
    modifies reader
    ensures w == LoadTraffic(t, cluster, destOf, ip, at, reader.uniqueRows)
    ensures reader.collapsed == old(reader.collapsed) + Collapsed(t, cluster, destOf, ip, at, reader.uniqueRows) >= old(reader.collapsed)
    ensures reader.warned == (old(reader.warned) || (reader.uniqueRows && Collapsed(t, cluster, destOf, ip, at, reader.uniqueRows) > 0))
  {
    hide Live, Deduped, Where, Namespaces, Selectors, DeployRows, LabelUnion, BoundVSes, Dests, Discarded, DiscardedBound;
    var prune := reader.uniqueRows;
    var svcs := ReadLive(reader, Where(t.services, Asks(ServesIP(cluster, ip), at, prune)), at);
    var nss, selectors := HandOnServices(svcs);
    if |nss| == 0 || |selectors| == 0 {
      return Tables(svcs, [], [], []);
    }
    var rows := ReadDeploys(t.deploys, cluster, nss, selectors, at, prune);
    var deps := ReadLive(reader, rows, at);
    var labels := HandOnLabels(deps);
    var gws := [];
    if |labels| > 0 {
      gws := ReadLive(reader, Where(t.gateways, Asks(Fronts(cluster, nss, labels), at, prune)), at);
    }
    var vses, backends := ReadBound(reader, t, cluster, destOf, gws, at);
    w := Tables(svcs + backends, deps, gws, vses);
  }

  // ---- several addresses ----

  // appendUnseen: a row version is kept the first time it is met.
  function AppendUnseen<P>(out: seq<Row<P>>, r: Row<P>): seq<Row<P>> {
    if HasSlot(out, SlotKey(r)) then out else out + [r]
  }

  function UnionRows<P>(out: seq<Row<P>>, more: seq<Row<P>>): seq<Row<P>> {
    if more == [] then out else AppendUnseen(UnionRows(out, more[..|more| - 1]), more[|more| - 1])
  }

  function LoadAll(t: Tables, cluster: string, destOf: Row<Vs> -> set<string>, ips: seq<string>, at: int, prune: bool := false): Tables {
    if ips == [] then Tables([], [], [], [])
    else
      var out := LoadAll(t, cluster, destOf, ips[..|ips| - 1], at, prune);
      var w := LoadTraffic(t, cluster, destOf, ips[|ips| - 1], at, prune);
      Tables(UnionRows(out.services, w.services), UnionRows(out.deploys, w.deploys),
             UnionRows(out.gateways, w.gateways), UnionRows(out.vses, w.vses))
  }

  function CollapsedAll(t: Tables, cluster: string, destOf: Row<Vs> -> set<string>, ips: seq<string>, at: int, prune: bool): int {
    if ips == [] then 0
    else CollapsedAll(t, cluster, destOf, ips[..|ips| - 1], at, prune) + Collapsed(t, cluster, destOf, ips[|ips| - 1], at, prune)
  }

  method AppendRows<P>(start: seq<Row<P>>, more: seq<Row<P>>, seen0: set<string>) returns (out: seq<Row<P>>, seen: set<string>)
    requires forall k :: k in seen0 <==> HasSlot(start, k)
    ensures out == UnionRows(start, more)
    ensures forall k :: k in seen <==> HasSlot(out, k)
  {
    hide SlotKey, HasSlot;
    out, seen := start, seen0;
    for i := 0 to |more|
      invariant out == UnionRows(start, more[..i])
      invariant forall k :: k in seen <==> HasSlot(out, k)
    {
      assert more[..i + 1][..i] == more[..i];
      var k := SlotKey(more[i]);
      if k !in seen {
        HasSlotMore(out, more[i]);
        seen := seen + {k};
        out := out + [more[i]];
      }
    }
    assert more[..|more|] == more;
  }

  lemma HasSlotMore<P>(out: seq<Row<P>>, r: Row<P>)
    ensures forall k :: HasSlot(out + [r], k) <==> HasSlot(out, k) || k == SlotKey(r)
  {
    hide SlotKey;
    var more := out + [r];
    assert more[|out|] == r;
    forall k | HasSlot(out, k) ensures HasSlot(more, k) {
      var i :| 0 <= i < |out| && SlotKey(out[i]) == k;
      assert SlotKey(more[i]) == k;
    }
    forall k | HasSlot(more, k) ensures HasSlot(out, k) || k == SlotKey(r) {
      var i :| 0 <= i < |more| && SlotKey(more[i]) == k;
      if i < |out| { assert SlotKey(out[i]) == k; }
    }
  }

  method LoadSnapshot(reader: Reader, t: Tables, cluster: string, destOf: Row<Vs> -> set<string>, ips: seq<string>, at: int)
    returns (out: Tables)
    modifies reader
    ensures out == LoadAll(t, cluster, destOf, ips, at, reader.uniqueRows)
    ensures reader.collapsed == old(reader.collapsed) + CollapsedAll(t, cluster, destOf, ips, at, reader.uniqueRows)
  {
    hide LoadTraffic, UnionRows, HasSlot, Collapsed;
    out := Tables([], [], [], []);
    var svcSeen, depSeen, gwSeen, vsSeen: set<string> := {}, {}, {}, {};
    NothingSeen<Svc>();
    NothingSeen<Labels>();
    NothingSeen<Gw>();
    NothingSeen<Vs>();
    for i := 0 to |ips|
      invariant out == LoadAll(t, cluster, destOf, ips[..i], at, reader.uniqueRows)
      invariant reader.collapsed == old(reader.collapsed) + CollapsedAll(t, cluster, destOf, ips[..i], at, reader.uniqueRows)
      invariant forall k :: k in svcSeen <==> HasSlot(out.services, k)
      invariant forall k :: k in depSeen <==> HasSlot(out.deploys, k)
      invariant forall k :: k in gwSeen <==> HasSlot(out.gateways, k)
      invariant forall k :: k in vsSeen <==> HasSlot(out.vses, k)
    {
      assert ips[..i + 1][..i] == ips[..i];
      var w := LoadTrafficAt(reader, t, cluster, destOf, ips[i], at);
      var services, deploys, gateways, vses;
      services, svcSeen := AppendRows(out.services, w.services, svcSeen);
      deploys, depSeen := AppendRows(out.deploys, w.deploys, depSeen);
      gateways, gwSeen := AppendRows(out.gateways, w.gateways, gwSeen);
      vses, vsSeen := AppendRows(out.vses, w.vses, vsSeen);
      out := Tables(services, deploys, gateways, vses);
    }
    assert ips[..|ips|] == ips;
  }

  lemma NothingSeen<P>()
    ensures forall k :: !HasSlot<P>([], k)
  {
  }
}
