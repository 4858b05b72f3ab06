// Why the scoped load may stand in for the whole live table: any rows between
// what it loads and what is live give the same gateways, the same bound
// VirtualServices and the same backends.
module RouteScoping {
  import opened VersionStore
  import opened RouteStore
  import opened RouteSnapshot

  // ---- tables as the writer leaves them ----

  ghost predicate PlainNames<P>(r: Row<P>) {
    '\0' !in r.cluster && '\0' !in r.ns
  }

  // No name holds a NUL, and rewriting a version never changes its payload.
  ghost predicate PlainTable<P>(rows: seq<Row<P>>) {
    && (forall i :: 0 <= i < |rows| ==> PlainNames(rows[i]))
    && forall i, j :: 0 <= i < |rows| && 0 <= j < |rows| && SlotKey(rows[i]) == SlotKey(rows[j]) ==> rows[i].payload == rows[j].payload
  }

  ghost predicate PlainTables(t: Tables) {
    PlainTable(t.services) && PlainTable(t.deploys) && PlainTable(t.gateways) && PlainTable(t.vses)
  }

  // A predicate on what a version never changes.
  ghost predicate OnVersion<P(!new)>(p: Row<P> -> bool) {
    forall a: Row<P>, b: Row<P> {:trigger p(a), p(b)} ::
      a.cluster == b.cluster && a.ns == b.ns && a.name == b.name && a.vf == b.vf && a.payload == b.payload ==> p(a) == p(b)
  }

  lemma {:induction false} OnVersionIsSlotConstant<P(!new)>(rows: seq<Row<P>>, p: Row<P> -> bool)
    requires PlainTable(rows) && OnVersion(p)
    ensures SlotConstant(rows, p)
  {
    hide SlotKey;
    forall i, j | 0 <= i < |rows| && 0 <= j < |rows| && SlotKey(rows[i]) == SlotKey(rows[j]) ensures p(rows[i]) == p(rows[j]) {
      assert PlainNames(rows[i]) && PlainNames(rows[j]);
      SlotKeyInjective(rows[i], rows[j]);
    }
  }

  lemma {:induction false} WinnerWhere<P>(rows: seq<Row<P>>, p: Row<P> -> bool, key: string)
    requires SlotConstant(rows, p)
    ensures var w := Winner(rows, key); Winner(Where(rows, p), key) == if w != [] && p(w[0]) then w else []
  {
    hide SlotKey, Winner;
    WinnerAmong(rows, p, key);
    WinnerIsNewest(rows, key);
    WinnerIsNewest(Where(rows, p), key);
    WhereMembers(rows, p);
    if Winner(Where(rows, p), key) != [] {
      var w, v := Winner(Where(rows, p), key)[0], Winner(rows, key)[0];
      var i :| 0 <= i < |rows| && rows[i] == w;
      var j :| 0 <= j < |rows| && rows[j] == v;
      assert p(rows[i]) == p(rows[j]);
    }
  }

  // What a fetch returns: the current version of a slot, if it passes and lives.
  lemma {:induction false} FetchMembers<P(!new)>(rows: seq<Row<P>>, p: Row<P> -> bool, at: int, r: Row<P>)
    requires PlainTable(rows) && OnVersion(p)
    ensures r in Fetch(rows, p, at) <==> Winner(rows, SlotKey(r)) == [r] && p(r) && LiveAt(r, at)
  {
    hide SlotKey, Deduped, Winner, Live, PlainTable, Where;
    var q := Asks(p, at, false);
    assert OnVersion(q);
    OnVersionIsSlotConstant(rows, q);
    WinnerWhere(rows, q, SlotKey(r));
    DedupedMembers(Where(rows, q), r);
    LiveMembers(Deduped(Where(rows, q)), at);
  }

  function Authoritative(t: Tables, cluster: string, at: int): Tables {
    Tables(Fetch(t.services, InCluster(cluster), at), Fetch(t.deploys, InCluster(cluster), at),
           Fetch(t.gateways, InCluster(cluster), at), Fetch(t.vses, InCluster(cluster), at))
  }

  // A narrower fetch is the live table narrowed.
  lemma {:induction false} FetchNarrows<P(!new)>(rows: seq<Row<P>>, cluster: string, p: Row<P> -> bool, at: int, r: Row<P>)
    requires PlainTable(rows) && OnVersion(p) && (p(r) ==> r.cluster == cluster)
    ensures r in Fetch(rows, p, at) <==> r in Fetch(rows, InCluster(cluster), at) && p(r)
  {
    hide Fetch, PlainTable, Winner, SlotKey;
    assert OnVersion(InCluster<P>(cluster));
    FetchMembers(rows, p, at, r);
    FetchMembers(rows, InCluster(cluster), at, r);
  }

  // ---- the deploy read, over several selectors at once ----

  lemma {:induction false} WinnerAppend<P>(a: seq<Row<P>>, b: seq<Row<P>>, key: string)
    ensures var x, y := Winner(a, key), Winner(b, key);
            Winner(a + b, key) == if x == [] then y else if y != [] && y[0].ingest > x[0].ingest then y else x
  {
    hide SlotKey;
    if b == [] {
      assert a + b == a;
    } else {
      var n := |b| - 1;
      assert (a + b)[..|a + b| - 1] == a + b[..n];
      WinnerAppend(a, b[..n], key);
    }
  }

  ghost predicate RunsAny(cluster: string, nss: seq<string>, selectors: seq<seq<string>>, r: Row<Labels>) {
    exists i :: 0 <= i < |selectors| && Runs(cluster, nss, selectors[i])(r)
  }

  lemma {:induction false} RunsAnyMore(cluster: string, nss: seq<string>, selectors: seq<seq<string>>, r: Row<Labels>)
    requires selectors != []
    ensures RunsAny(cluster, nss, selectors, r) <==>
              RunsAny(cluster, nss, selectors[..|selectors| - 1], r) || Runs(cluster, nss, selectors[|selectors| - 1])(r)
  {
    hide Runs;
    var init := selectors[..|selectors| - 1];
    if RunsAny(cluster, nss, init, r) {
      var i :| 0 <= i < |init| && Runs(cluster, nss, init[i])(r);
      assert Runs(cluster, nss, selectors[i])(r);
    }
    if RunsAny(cluster, nss, selectors, r) {
      var i :| 0 <= i < |selectors| && Runs(cluster, nss, selectors[i])(r);
      assert i < |init| ==> Runs(cluster, nss, init[i])(r);
    }
  }

  lemma {:induction false} DeployWinner(rows: seq<Row<Labels>>, cluster: string, nss: seq<string>, selectors: seq<seq<string>>, at: int, key: string)
    requires PlainTable(rows)
    ensures var w := Winner(rows, key);
            Winner(DeployRows(rows, cluster, nss, selectors, at), key)
            == if w != [] && w[0].vf <= at && RunsAny(cluster, nss, selectors, w[0]) then w else []
  {
    hide SlotKey, Winner, PlainTable, Where, RunsAny;
    if selectors == [] {
      NoWinner<Labels>(key);
      NoneRun(cluster, nss);
    } else {
      var init, sel := selectors[..|selectors| - 1], selectors[|selectors| - 1];
      DeployWinner(rows, cluster, nss, init, at, key);
      var q := Asks(Runs(cluster, nss, sel), at, false);
      assert OnVersion(q);
      OnVersionIsSlotConstant(rows, q);
      WinnerWhere(rows, q, key);
      WinnerAppend(DeployRows(rows, cluster, nss, init, at), Where(rows, q), key);
      if Winner(rows, key) != [] { RunsAnyMore(cluster, nss, selectors, Winner(rows, key)[0]); }
    }
  }

  lemma NoWinner<P>(key: string)
    ensures Winner<P>([], key) == []
  {
  }

  lemma NoneRun(cluster: string, nss: seq<string>)
    ensures forall r :: !RunsAny(cluster, nss, [], r)
  {
  }

  lemma {:induction false} DeploysLoaded(rows: seq<Row<Labels>>, cluster: string, nss: seq<string>, selectors: seq<seq<string>>, at: int, r: Row<Labels>)
    requires PlainTable(rows)
    ensures r in Live(Deduped(DeployRows(rows, cluster, nss, selectors, at)), at) <==>
              r in Fetch(rows, InCluster(cluster), at) && RunsAny(cluster, nss, selectors, r)
  {
    hide SlotKey, Winner, PlainTable, Deduped, Live, DeployRows, Fetch;
    var all := DeployRows(rows, cluster, nss, selectors, at);
    DeployWinner(rows, cluster, nss, selectors, at, SlotKey(r));
    DedupedMembers(all, r);
    LiveMembers(Deduped(all), at);
    assert OnVersion(InCluster<Labels>(cluster));
    FetchMembers(rows, InCluster(cluster), at, r);
  }

  // ---- what one load holds ----

  lemma {:induction false} NamespacesMembers(rows: seq<Row<Svc>>, i: nat)
    requires i < |rows|
    ensures rows[i].ns in Namespaces(rows)
    ensures rows[i].payload.selector != [] ==> rows[i].payload.selector in Selectors(rows)
  {
    if i < |rows| - 1 {
      NamespacesMembers(rows[..|rows| - 1], i);
    }
  }

  lemma {:induction false} LabelUnionMembers(rows: seq<Row<Labels>>, i: nat)
    requires i < |rows|
    ensures forall l :: l in rows[i].payload ==> l in LabelUnion(rows)
  {
    hide AddAllNew;
    AddedMembers(LabelUnion(rows[..|rows| - 1]), rows[|rows| - 1].payload);
    if i < |rows| - 1 {
      LabelUnionMembers(rows[..|rows| - 1], i);
    }
  }

  lemma {:induction false} RefsMembers(rows: seq<Row<Gw>>, i: nat)
    requires i < |rows|
    ensures KeyOf(rows[i]) in Refs(rows) && rows[i].name in Refs(rows)
  {
    hide AddAllNew;
    var pair := [KeyOf(rows[|rows| - 1]), rows[|rows| - 1].name];
    AddedMembers(Refs(rows[..|rows| - 1]), pair);
    assert pair[0] in pair && pair[1] in pair;
    if i < |rows| - 1 {
      RefsMembers(rows[..|rows| - 1], i);
    }
  }

  lemma {:induction false} DestsMembers(rows: seq<Row<Vs>>, destOf: Row<Vs> -> set<string>, i: nat)
    requires i < |rows|
    ensures destOf(rows[i]) <= Dests(rows, destOf)
  {
    if i < |rows| - 1 {
      DestsMembers(rows[..|rows| - 1], destOf, i);
    }
  }

  ghost predicate Subset(a: Tables, b: Tables) {
    && (forall r :: r in a.services ==> r in b.services)
    && (forall r :: r in a.deploys ==> r in b.deploys)
    && (forall r :: r in a.gateways ==> r in b.gateways)
    && (forall r :: r in a.vses ==> r in b.vses)
  }

  // Everything an answer about ip can turn on, of the live tables d.
  ghost predicate CoversServices(l: Tables, d: Tables, ip: string) {
    forall r :: r in d.services && HasIngressIP(r.payload, ip) ==> r in l.services
  }

  ghost predicate CoversDeploys(l: Tables, d: Tables, o: Owner, at: int)
    requires o.Owner?
  {
    forall r :: r in d.deploys && Backing(r, o, at) ==> r in l.deploys
  }

  ghost predicate CoversGateways(l: Tables, d: Tables, o: Owner, at: int)
    requires o.Owner?
  {
    forall r, labels ::
      r in d.gateways && labels != [] && FromDeploys(l.deploys, labels) && Carries(r, o, labels, at) ==> r in l.gateways
  }

  ghost predicate CoversBound(l: Tables, d: Tables, destOf: Row<Vs> -> set<string>) {
    && (forall vs, gw :: vs in d.vses && gw in l.gateways && BoundTo(vs, gw.ns, gw.name) ==> vs in l.vses)
    && (forall r, vs :: r in d.services && vs in l.vses && KeyOf(r) in destOf(vs) ==> r in l.services)
  }

  // The owner is some live Service that carries the address.
  ghost predicate NamedBy(rows: seq<Row<Svc>>, ip: string, o: Owner) {
    o.Owner? && exists i :: 0 <= i < |rows| && HasIngressIP(rows[i].payload, ip) && rows[i].ns == o.ns && rows[i].payload.selector == o.selector
  }

  ghost predicate FromDeploys(rows: seq<Row<Labels>>, labels: seq<string>) {
    forall l :: l in labels ==> exists i :: 0 <= i < |rows| && l in rows[i].payload
  }

  lemma {:induction false} ServicesLoaded(t: Tables, cluster: string, ip: string, at: int, r: Row<Svc>)
    requires PlainTable(t.services)
    ensures r in Fetch(t.services, ServesIP(cluster, ip), at) <==>
              r in Fetch(t.services, InCluster(cluster), at) && HasIngressIP(r.payload, ip)
  {
    hide Fetch, PlainTable, HasIngressIP;
    assert OnVersion(ServesIP(cluster, ip));
    FetchNarrows(t.services, cluster, ServesIP(cluster, ip), at, r);
    FetchCluster(t.services, cluster, at, r);
  }

  lemma {:induction false} FetchCluster<P(!new)>(rows: seq<Row<P>>, cluster: string, at: int, r: Row<P>)
    requires PlainTable(rows)
    ensures r in Fetch(rows, InCluster(cluster), at) ==> r.cluster == cluster && LiveAt(r, at)
  {
    hide Fetch, PlainTable, Winner, SlotKey;
    assert OnVersion(InCluster<P>(cluster));
    FetchMembers(rows, InCluster(cluster), at, r);
  }

  lemma {:induction false} GatewaysLoaded(t: Tables, cluster: string, nss: seq<string>, labels: seq<string>, at: int, r: Row<Gw>)
    requires PlainTable(t.gateways)
    ensures r in Fetch(t.gateways, Fronts(cluster, nss, labels), at) <==>
              r in Fetch(t.gateways, InCluster(cluster), at) && r.cluster == cluster && r.ns in nss && ContainsAll(labels, r.payload.selector)
  {
    hide Fetch, PlainTable, ContainsAll;
    assert OnVersion(Fronts(cluster, nss, labels));
    FetchNarrows(t.gateways, cluster, Fronts(cluster, nss, labels), at, r);
  }

  lemma {:induction false} VSesLoaded(t: Tables, cluster: string, refs: seq<string>, at: int, r: Row<Vs>)
    requires PlainTable(t.vses)
    ensures r in Fetch(t.vses, Binds(cluster, refs), at) <==>
              r in Fetch(t.vses, InCluster(cluster), at) && r.cluster == cluster && ContainsAny(r.payload.bound, refs)
  {
    hide Fetch, PlainTable, ContainsAny;
    assert OnVersion(Binds(cluster, refs));
    FetchNarrows(t.vses, cluster, Binds(cluster, refs), at, r);
  }

  lemma {:induction false} BackendsLoaded(t: Tables, cluster: string, keys: set<string>, at: int, r: Row<Svc>)
    requires PlainTable(t.services)
    ensures r in Fetch(t.services, Backs(cluster, keys), at) <==>
              r in Fetch(t.services, InCluster(cluster), at) && r.cluster == cluster && KeyOf(r) in keys
  {
    hide Fetch, PlainTable;
    assert OnVersion(Backs(cluster, keys));
    FetchNarrows(t.services, cluster, Backs(cluster, keys), at, r);
  }

  lemma {:induction false} LoadIsLive(t: Tables, cluster: string, destOf: Row<Vs> -> set<string>, ip: string, at: int)
    requires PlainTables(t)
    ensures Subset(LoadTraffic(t, cluster, destOf, ip, at), Authoritative(t, cluster, at))
  {
    hide Fetch, PlainTable, Namespaces, Selectors, LabelUnion, Refs, Dests, DeployRows, Live, Deduped, HasIngressIP, ContainsAll,
      ContainsAny;
    var l := LoadTraffic(t, cluster, destOf, ip, at);
    var svcs := Fetch(t.services, ServesIP(cluster, ip), at);
    var nss, selectors := Namespaces(svcs), Selectors(svcs);
    forall r | r in l.services ensures r in Fetch(t.services, InCluster(cluster), at) {
      ServicesLoaded(t, cluster, ip, at, r);
      BackendsLoaded(t, cluster, Dests(l.vses, destOf), at, r);
    }
    forall r | r in l.deploys ensures r in Fetch(t.deploys, InCluster(cluster), at) {
      DeploysLoaded(t.deploys, cluster, nss, selectors, at, r);
    }
    forall r | r in l.gateways ensures r in Fetch(t.gateways, InCluster(cluster), at) {
      GatewaysLoaded(t, cluster, nss, LabelUnion(l.deploys), at, r);
    }
    forall r | r in l.vses ensures r in Fetch(t.vses, InCluster(cluster), at) {
      VSesLoaded(t, cluster, Refs(l.gateways), at, r);
    }
  }

  lemma {:induction false} LoadCoversServices(t: Tables, cluster: string, destOf: Row<Vs> -> set<string>, ip: string, at: int)
    requires PlainTables(t)
    ensures CoversServices(LoadTraffic(t, cluster, destOf, ip, at), Authoritative(t, cluster, at), ip)
  {
    hide Fetch, PlainTable, Namespaces, Selectors, LabelUnion, Refs, Dests, DeployRows, Live, Deduped, HasIngressIP, ContainsAll,
      ContainsAny;
    forall r | r in Fetch(t.services, InCluster(cluster), at) && HasIngressIP(r.payload, ip)
      ensures r in LoadTraffic(t, cluster, destOf, ip, at).services
    {
      ServicesLoaded(t, cluster, ip, at, r);
    }
  }

  // The owner's namespace and selector are among those handed to the next read.
  lemma {:induction false} OwnerHandedOn(t: Tables, cluster: string, ip: string, at: int, o: Owner)
    requires o.Owner? && o.selector != [] && PlainTables(t) && NamedBy(Authoritative(t, cluster, at).services, ip, o)
    ensures var svcs := Fetch(t.services, ServesIP(cluster, ip), at);
            o.ns in Namespaces(svcs) && o.selector in Selectors(svcs)
  {
    hide Fetch, PlainTable, Namespaces, Selectors, HasIngressIP;
    var rows := Fetch(t.services, InCluster(cluster), at);
    var i :| 0 <= i < |rows| && HasIngressIP(rows[i].payload, ip) && rows[i].ns == o.ns && rows[i].payload.selector == o.selector;
    var svcs := Fetch(t.services, ServesIP(cluster, ip), at);
    assert rows[i] in rows;
    ServicesLoaded(t, cluster, ip, at, rows[i]);
    var j :| 0 <= j < |svcs| && svcs[j] == rows[i];
    NamespacesMembers(svcs, j);
  }

  lemma {:induction false} LoadCoversDeploys(t: Tables, cluster: string, destOf: Row<Vs> -> set<string>, ip: string, at: int, o: Owner)
    requires o.Owner? && o.selector != [] && PlainTables(t) && NamedBy(Authoritative(t, cluster, at).services, ip, o)
    ensures CoversDeploys(LoadTraffic(t, cluster, destOf, ip, at), Authoritative(t, cluster, at), o, at)
  {
    hide Fetch, PlainTable, Namespaces, Selectors, LabelUnion, Refs, Dests, DeployRows, Live, Deduped, HasIngressIP, ContainsAll,
      ContainsAny, NamedBy, RunsAny;
    var svcs := Fetch(t.services, ServesIP(cluster, ip), at);
    var nss, selectors := Namespaces(svcs), Selectors(svcs);
    OwnerHandedOn(t, cluster, ip, at, o);
    forall r | r in Fetch(t.deploys, InCluster(cluster), at) && Backing(r, o, at)
      ensures r in LoadTraffic(t, cluster, destOf, ip, at).deploys
    {
      FetchCluster(t.deploys, cluster, at, r);
      RunsOne(cluster, nss, selectors, o.selector, r);
      DeploysLoaded(t.deploys, cluster, nss, selectors, at, r);
    }
  }

  lemma {:induction false} RunsOne(cluster: string, nss: seq<string>, selectors: seq<seq<string>>, selector: seq<string>, r: Row<Labels>)
    requires selector in selectors && Runs(cluster, nss, selector)(r)
    ensures RunsAny(cluster, nss, selectors, r)
  {
    hide Runs;
    var i :| 0 <= i < |selectors| && selectors[i] == selector;
  }

  lemma {:induction false} FromUnion(rows: seq<Row<Labels>>, labels: seq<string>)
    requires FromDeploys(rows, labels)
    ensures ContainsAll(LabelUnion(rows), labels)
  {
    hide LabelUnion;
    forall k | 0 <= k < |labels| ensures labels[k] in LabelUnion(rows) {
      assert labels[k] in labels;
      var i :| 0 <= i < |rows| && labels[k] in rows[i].payload;
      LabelUnionMembers(rows, i);
    }
  }

  lemma ContainsAllTransitive(a: seq<string>, b: seq<string>, c: seq<string>)
    requires ContainsAll(a, b) && ContainsAll(b, c)
    ensures ContainsAll(a, c)
  {
    forall i | 0 <= i < |c| ensures c[i] in a {
      var j :| 0 <= j < |b| && b[j] == c[i];
    }
  }

  lemma {:induction false} LoadCoversGateways(t: Tables, cluster: string, destOf: Row<Vs> -> set<string>, ip: string, at: int, o: Owner)
    requires o.Owner? && o.selector != [] && PlainTables(t) && NamedBy(Authoritative(t, cluster, at).services, ip, o)
    ensures CoversGateways(LoadTraffic(t, cluster, destOf, ip, at), Authoritative(t, cluster, at), o, at)
  {
    hide Fetch, PlainTable, Namespaces, Selectors, LabelUnion, Refs, Dests, DeployRows, Live, Deduped, HasIngressIP, ContainsAll,
      ContainsAny, NamedBy, FromDeploys;
    var svcs := Fetch(t.services, ServesIP(cluster, ip), at);
    var nss := Namespaces(svcs);
    OwnerHandedOn(t, cluster, ip, at, o);
    var l := LoadTraffic(t, cluster, destOf, ip, at);
    forall r, labels | r in Fetch(t.gateways, InCluster(cluster), at) && labels != [] && FromDeploys(l.deploys, labels) && Carries(r, o, labels, at)
      ensures r in l.gateways
    {
      FetchCluster(t.gateways, cluster, at, r);
      FromUnion(l.deploys, labels);
      ContainsAllTransitive(LabelUnion(l.deploys), labels, r.payload.selector);
      ContainsSome(LabelUnion(l.deploys), labels);
      GatewaysLoaded(t, cluster, nss, LabelUnion(l.deploys), at, r);
    }
  }

  lemma ContainsSome(a: seq<string>, b: seq<string>)
    requires ContainsAll(a, b) && b != []
    ensures a != []
  {
    assert b[0] in a;
  }

  lemma {:induction false} LoadCoversBound(t: Tables, cluster: string, destOf: Row<Vs> -> set<string>, ip: string, at: int)
    requires PlainTables(t)
    ensures CoversBound(LoadTraffic(t, cluster, destOf, ip, at), Authoritative(t, cluster, at), destOf)
  {
    hide Fetch, PlainTable, Namespaces, Selectors, LabelUnion, Refs, Dests, DeployRows, Live, Deduped, HasIngressIP, ContainsAll,
      ContainsAny, BoundTo, KeyOf;
    var l := LoadTraffic(t, cluster, destOf, ip, at);
    forall vs, gw | vs in Fetch(t.vses, InCluster(cluster), at) && gw in l.gateways && BoundTo(vs, gw.ns, gw.name)
      ensures vs in l.vses
    {
      FetchCluster(t.vses, cluster, at, vs);
      BoundByRef(l.gateways, gw, vs);
      VSesLoaded(t, cluster, Refs(l.gateways), at, vs);
    }
    forall r, vs | r in Fetch(t.services, InCluster(cluster), at) && vs in l.vses && KeyOf(r) in destOf(vs)
      ensures r in l.services
    {
      FetchCluster(t.services, cluster, at, r);
      var i :| 0 <= i < |l.vses| && l.vses[i] == vs;
      DestsMembers(l.vses, destOf, i);
      BackendsLoaded(t, cluster, Dests(l.vses, destOf), at, r);
    }
  }

  lemma {:induction false} BoundByRef(gws: seq<Row<Gw>>, gw: Row<Gw>, vs: Row<Vs>)
    requires gw in gws && BoundTo(vs, gw.ns, gw.name)
    ensures Refs(gws) != [] && ContainsAny(vs.payload.bound, Refs(gws))
  {
    hide Refs;
    var i :| 0 <= i < |gws| && gws[i] == gw;
    RefsMembers(gws, i);
    var ref := if KeyOf(gw) in vs.payload.bound then KeyOf(gw) else gw.name;
    var j :| 0 <= j < |Refs(gws)| && Refs(gws)[j] == ref;
  }

  // ---- the answer ----

  // One live row per Service: liveness is exclusive.
  ghost predicate Exclusive(rows: seq<Row<Svc>>) {
    forall a, b :: a in rows && b in rows && SameIdentity(a, b) ==> a == b
  }

  lemma {:induction false} LeastOfOne(rows: seq<Row<Svc>>, selector: seq<string>)
    requires rows != [] && forall i :: 0 <= i < |rows| ==> rows[i].payload.selector == selector
    ensures LeastSelector(rows) == selector
  {
    hide JoinSel;
    if |rows| > 1 {
      LeastOfOne(rows[..|rows| - 1], selector);
    }
  }

  // Where Services are live once each, the owner is read off any of its rows.
  lemma {:induction false} OwnerIs(rows: seq<Row<Svc>>, ip: string, at: int)
    requires forall a, b :: a in OwnersOf(rows, ip, at) && b in OwnersOf(rows, ip, at) && SameIdentity(a, b) ==> a == b
    ensures IngressFor(rows, ip, at)
            == var owners := OwnersOf(rows, ip, at);
               if owners != [] && forall i :: 0 <= i < |owners| ==> owners[i] == owners[0]
               then Owner(owners[0].ns, owners[0].payload.selector) else NoOwner
  {
    hide LeastSelector, OwnersOf;
    var owners := OwnersOf(rows, ip, at);
    if owners != [] && OneIdentity(owners) {
      forall i | 0 <= i < |owners| ensures owners[i] == owners[0] {
        assert owners[i] in owners && owners[0] in owners;
      }
      LeastOfOne(owners, owners[0].payload.selector);
    }
  }

  lemma {:induction false} SameOwner(w: Tables, d: Tables, ip: string, at: int)
    requires Exclusive(d.services)
    requires forall r :: r in w.services ==> r in d.services
    requires CoversServices(w, d, ip)
    ensures IngressFor(w.services, ip, at) == IngressFor(d.services, ip, at)
  {
    hide IngressFor, SameIdentity, HasIngressIP, OwnersOf;
    OwnersMembers(w.services, ip, at);
    OwnersMembers(d.services, ip, at);
    OwnerIs(w.services, ip, at);
    OwnerIs(d.services, ip, at);
    var a, b := OwnersOf(w.services, ip, at), OwnersOf(d.services, ip, at);
    assert forall r :: r in a <==> r in b;
    assert forall i :: 0 <= i < |a| ==> a[i] in b;
    assert forall i :: 0 <= i < |b| ==> b[i] in a;
  }

  lemma {:induction false} OwnerNamed(rows: seq<Row<Svc>>, ip: string, at: int)
    requires Exclusive(rows) && IngressFor(rows, ip, at).Owner?
    ensures NamedBy(rows, ip, IngressFor(rows, ip, at))
  {
    hide IngressFor, SameIdentity, HasIngressIP, OwnersOf;
    OwnersMembers(rows, ip, at);
    OwnerIs(rows, ip, at);
    var owners := OwnersOf(rows, ip, at);
    assert owners[0] in owners && owners[0] in rows;
    var i :| 0 <= i < |rows| && rows[i] == owners[0];
  }

  lemma {:induction false} SameLabels(w: Tables, d: Tables, o: Owner, at: int)
    requires o.Owner? && CoversDeploys(w, d, o, at)
    requires forall r :: r in w.deploys ==> r in d.deploys
    ensures LabelsOf(w.deploys, o, at).Found? <==> LabelsOf(d.deploys, o, at).Found?
    ensures LabelsOf(d.deploys, o, at).Found? ==>
              forall l :: l in LabelsOf(w.deploys, o, at).labels <==> l in LabelsOf(d.deploys, o, at).labels
  {
    hide LabelsOf, Backing;
    LabelsMembers(w.deploys, o, at);
    LabelsMembers(d.deploys, o, at);
    BackingSame(w.deploys, d.deploys, o, at);
    BackingSame(d.deploys, w.deploys, o, at);
  }

  lemma {:induction false} BackingSame(a: seq<Row<Labels>>, b: seq<Row<Labels>>, o: Owner, at: int)
    requires o.Owner? && forall r :: r in a && Backing(r, o, at) ==> r in b
    ensures Backed(a, o, at) ==> Backed(b, o, at)
    ensures forall l :: Offers(a, o, at, l) ==> Offers(b, o, at, l)
  {
    hide Backing;
    if Backed(a, o, at) {
      var i :| 0 <= i < |a| && Backing(a[i], o, at);
      assert a[i] in a && a[i] in b;
      var j :| 0 <= j < |b| && b[j] == a[i];
    }
    forall l | Offers(a, o, at, l) ensures Offers(b, o, at, l) {
      var i :| 0 <= i < |a| && Backing(a[i], o, at) && l in a[i].payload;
      assert a[i] in a && a[i] in b;
      var j :| 0 <= j < |b| && b[j] == a[i];
      assert Backing(b[j], o, at);
    }
  }

  lemma {:induction false} CarriesSame(r: Row<Gw>, o: Owner, a: seq<string>, b: seq<string>, at: int)
    requires o.Owner? && forall l :: l in a <==> l in b
    ensures Carries(r, o, a, at) <==> Carries(r, o, b, at)
  {
  }

  // Labels found for an owner that selects something are never none.
  lemma {:induction false} LabelsFound(rows: seq<Row<Labels>>, o: Owner, at: int)
    requires o.Owner? && o.selector != [] && LabelsOf(rows, o, at).Found?
    ensures LabelsOf(rows, o, at).labels != [] && FromDeploys(rows, LabelsOf(rows, o, at).labels)
  {
    hide LabelsOf;
    LabelsMembers(rows, o, at);
    var i :| 0 <= i < |rows| && Backing(rows[i], o, at);
    assert o.selector[0] in rows[i].payload;
    assert Offers(rows, o, at, o.selector[0]);
    forall l | l in LabelsOf(rows, o, at).labels ensures exists j :: 0 <= j < |rows| && l in rows[j].payload {
      assert Offers(rows, o, at, l);
      var j :| 0 <= j < |rows| && Backing(rows[j], o, at) && l in rows[j].payload;
    }
  }

  lemma {:induction false} FromMore(a: seq<Row<Labels>>, b: seq<Row<Labels>>, o: Owner, at: int)
    requires o.Owner? && (forall r :: r in a && Backing(r, o, at) ==> r in b) && LabelsOf(a, o, at).Found?
    ensures FromDeploys(b, LabelsOf(a, o, at).labels)
  {
    hide LabelsOf, Backing;
    LabelsMembers(a, o, at);
    forall l | l in LabelsOf(a, o, at).labels ensures exists j :: 0 <= j < |b| && l in b[j].payload {
      assert Offers(a, o, at, l);
      var i :| 0 <= i < |a| && Backing(a[i], o, at) && l in a[i].payload;
      assert a[i] in a && a[i] in b;
      var j :| 0 <= j < |b| && b[j] == a[i];
    }
  }

  lemma {:induction false} LoadCovers(t: Tables, cluster: string, destOf: Row<Vs> -> set<string>, ip: string, at: int)
    requires PlainTables(t) && Exclusive(Authoritative(t, cluster, at).services)
    ensures var l, d := LoadTraffic(t, cluster, destOf, ip, at), Authoritative(t, cluster, at);
            var o := IngressFor(d.services, ip, at);
            && Subset(l, d) && CoversServices(l, d, ip) && CoversBound(l, d, destOf)
            && (o.Owner? && o.selector != [] ==> CoversDeploys(l, d, o, at) && CoversGateways(l, d, o, at))
  {
    hide LoadTraffic, Authoritative, Subset, CoversServices, CoversBound, CoversDeploys, CoversGateways, IngressFor, Exclusive, NamedBy;
    var d := Authoritative(t, cluster, at);
    LoadIsLive(t, cluster, destOf, ip, at);
    LoadCoversServices(t, cluster, destOf, ip, at);
    LoadCoversBound(t, cluster, destOf, ip, at);
    if IngressFor(d.services, ip, at).Owner? && IngressFor(d.services, ip, at).selector != [] {
      OwnerNamed(d.services, ip, at);
      LoadCoversDeploys(t, cluster, destOf, ip, at, IngressFor(d.services, ip, at));
      LoadCoversGateways(t, cluster, destOf, ip, at, IngressFor(d.services, ip, at));
    }
  }

  // The rows w lie between the scoped load for ip and the live tables.
  ghost predicate Between(t: Tables, cluster: string, destOf: Row<Vs> -> set<string>, ip: string, at: int, w: Tables) {
    Subset(LoadTraffic(t, cluster, destOf, ip, at), w) && Subset(w, Authoritative(t, cluster, at))
  }

  // Any rows between the scoped load and the live tables name the same gateways.
  lemma {:induction false} CandidatesPreserved(t: Tables, cluster: string, destOf: Row<Vs> -> set<string>, ip: string, at: int, w: Tables, gw: Row<Gw>)
    requires PlainTables(t) && Exclusive(Authoritative(t, cluster, at).services)
    requires Between(t, cluster, destOf, ip, at, w)
    requires var o := IngressFor(Authoritative(t, cluster, at).services, ip, at); o.Owner? ==> o.selector != []
    ensures gw in Candidates(w, ip, at) <==> gw in Candidates(Authoritative(t, cluster, at), ip, at)
    ensures gw in Candidates(w, ip, at) ==> gw in LoadTraffic(t, cluster, destOf, ip, at).gateways
  {
    hide LoadTraffic, Authoritative, IngressFor, Exclusive, LabelsOf, CarriedBy, FromDeploys, HasIngressIP, CoversBound, Backing, Carries;
    var l, d := LoadTraffic(t, cluster, destOf, ip, at), Authoritative(t, cluster, at);
    var o := IngressFor(d.services, ip, at);
    LoadCovers(t, cluster, destOf, ip, at);
    SameOwner(w, d, ip, at);
    if o.Owner? {
      SameLabels(w, d, o, at);
      if LabelsOf(d.deploys, o, at).Found? {
        var inW, inD := LabelsOf(w.deploys, o, at).labels, LabelsOf(d.deploys, o, at).labels;
        CarriedMembers(w.gateways, o, inW, at);
        CarriedMembers(d.gateways, o, inD, at);
        CarriesSame(gw, o, inW, inD, at);
        LabelsFound(d.deploys, o, at);
        FromMore(d.deploys, l.deploys, o, at);
      }
    }
  }

  // And of each such gateway, the same bound VirtualServices and the same
  // Services behind them.
  lemma {:induction false} BindingsPreserved(t: Tables, cluster: string, destOf: Row<Vs> -> set<string>, ip: string, at: int, w: Tables, gw: Row<Gw>, vs: Row<Vs>)
    requires PlainTables(t) && Exclusive(Authoritative(t, cluster, at).services)
    requires Between(t, cluster, destOf, ip, at, w)
    requires var o := IngressFor(Authoritative(t, cluster, at).services, ip, at); o.Owner? ==> o.selector != []
    requires gw in Candidates(w, ip, at) && Bound(vs, gw.ns, gw.name, at)
    ensures vs in w.vses <==> vs in Authoritative(t, cluster, at).vses
    ensures vs in w.vses ==>
              forall r :: KeyOf(r) in destOf(vs) ==> (r in w.services <==> r in Authoritative(t, cluster, at).services)
  {
    hide LoadTraffic, Authoritative, IngressFor, Exclusive, Candidates, BoundTo, KeyOf, CoversServices, CoversDeploys, CoversGateways;
    LoadCovers(t, cluster, destOf, ip, at);
    CandidatesPreserved(t, cluster, destOf, ip, at, w, gw);
  }

  // ---- several addresses at once ----

  lemma {:induction false} UnionMembers<P(!new)>(out: seq<Row<P>>, more: seq<Row<P>>, d: seq<Row<P>>)
    requires DistinctSlots(d)
    requires (forall r :: r in out ==> r in d) && (forall r :: r in more ==> r in d)
    ensures forall r :: r in UnionRows(out, more) <==> r in out || r in more
  {
    hide SlotKey;
    if more != [] {
      var init, last := more[..|more| - 1], more[|more| - 1];
      assert more == init + [last];
      UnionMembers(out, init, d);
      var before := UnionRows(out, init);
      if HasSlot(before, SlotKey(last)) {
        var i :| 0 <= i < |before| && SlotKey(before[i]) == SlotKey(last);
        assert before[i] in before && before[i] in d && last in d;
        OneOfSlot(d, before[i], last);
      }
    }
  }

  lemma OneOfSlot<P>(d: seq<Row<P>>, a: Row<P>, b: Row<P>)
    requires DistinctSlots(d) && a in d && b in d && SlotKey(a) == SlotKey(b)
    ensures a == b
  {
    hide SlotKey;
    var i :| 0 <= i < |d| && d[i] == a;
    var j :| 0 <= j < |d| && d[j] == b;
  }

  lemma {:induction false} LiveDistinct<P>(rows: seq<Row<P>>, at: int)
    requires DistinctSlots(rows)
    ensures DistinctSlots(Live(rows, at))
    ensures forall i :: 0 <= i < |Live(rows, at)| ==> exists j :: 0 <= j < |rows| && rows[j] == Live(rows, at)[i]
  {
    hide SlotKey, LiveAt;
    if rows != [] {
      var init, last := rows[..|rows| - 1], rows[|rows| - 1];
      LiveDistinct(init, at);
      var found := Live(init, at);
      forall i | 0 <= i < |found| ensures SlotKey(found[i]) != SlotKey(last) && exists j :: 0 <= j < |rows| && rows[j] == found[i] {
        var j :| 0 <= j < |init| && init[j] == found[i];
        assert rows[j] == found[i];
      }
      assert rows[|rows| - 1] == last;
    }
  }

  lemma {:induction false} FetchDistinct<P(!new)>(rows: seq<Row<P>>, p: Row<P> -> bool, at: int, r: Row<P>)
    ensures DistinctSlots(Fetch(rows, p, at))
  {
    hide Live, Deduped, Where, DistinctSlots;
    DedupedMembers(Where(rows, Asks(p, at, false)), r);
    LiveDistinct(Deduped(Where(rows, Asks(p, at, false))), at);
  }

  lemma {:induction false} AuthoritativeDistinct(t: Tables, cluster: string, at: int)
    ensures var d := Authoritative(t, cluster, at);
            DistinctSlots(d.services) && DistinctSlots(d.deploys) && DistinctSlots(d.gateways) && DistinctSlots(d.vses)
  {
    hide Fetch, DistinctSlots;
    FetchDistinct(t.services, InCluster(cluster), at, Row("", "", "", 0, 0, 0, Svc([], [], [])));
    FetchDistinct(t.deploys, InCluster(cluster), at, Row("", "", "", 0, 0, 0, []));
    FetchDistinct(t.gateways, InCluster(cluster), at, Row("", "", "", 0, 0, 0, Gw([], [])));
    FetchDistinct(t.vses, InCluster(cluster), at, Row("", "", "", 0, 0, 0, Vs([], "")));
  }

  // The union over several addresses lies between each one's load and the live
  // tables, so loading more addresses never changes an answer.
  lemma {:induction false} UnionIsBetween(t: Tables, cluster: string, destOf: Row<Vs> -> set<string>, ips: seq<string>, at: int)
    requires PlainTables(t)
    ensures Subset(LoadAll(t, cluster, destOf, ips, at), Authoritative(t, cluster, at))
    ensures forall i :: 0 <= i < |ips| ==> Between(t, cluster, destOf, ips[i], at, LoadAll(t, cluster, destOf, ips, at))
  {
    hide LoadTraffic, Authoritative, UnionRows, DistinctSlots, PlainTables;
    if ips != [] {
      var init, last := ips[..|ips| - 1], ips[|ips| - 1];
      UnionIsBetween(t, cluster, destOf, init, at);
      LoadIsLive(t, cluster, destOf, last, at);
      AuthoritativeDistinct(t, cluster, at);
      var d, w, l := Authoritative(t, cluster, at), LoadAll(t, cluster, destOf, init, at), LoadTraffic(t, cluster, destOf, last, at);
      UnionMembers(w.services, l.services, d.services);
      UnionMembers(w.deploys, l.deploys, d.deploys);
      UnionMembers(w.gateways, l.gateways, d.gateways);
      UnionMembers(w.vses, l.vses, d.vses);
      assert Subset(w, LoadAll(t, cluster, destOf, ips, at));
      forall i | 0 <= i < |ips| ensures Between(t, cluster, destOf, ips[i], at, LoadAll(t, cluster, destOf, ips, at)) {
        if i < |init| {
          assert Between(t, cluster, destOf, init[i], at, w) && ips[i] == init[i];
        }
      }
    }
  }

  // ---- an owner that selects nothing ----

  lemma {:induction false} FetchOne<P(!new)>(r: Row<P>, cluster: string, at: int)
    requires PlainNames(r) && r.cluster == cluster && LiveAt(r, at)
    ensures PlainTable([r]) && forall x :: x in Fetch([r], InCluster(cluster), at) <==> x == r
  {
    hide SlotKey, Fetch;
    assert OnVersion(InCluster<P>(cluster));
    assert [r][..0] == [];
    forall x ensures x in Fetch([r], InCluster(cluster), at) <==> x == r {
      FetchMembers([r], InCluster(cluster), at, x);
    }
  }

  // With an empty owning selector nothing past the Service is loaded.
  lemma {:induction false} EmptySelectorLoadsNothing(t: Tables, cluster: string, destOf: Row<Vs> -> set<string>, ip: string, at: int)
    requires PlainTables(t) && Exclusive(Authoritative(t, cluster, at).services)
    requires IngressFor(Authoritative(t, cluster, at).services, ip, at).Owner?
    requires IngressFor(Authoritative(t, cluster, at).services, ip, at).selector == []
    ensures Candidates(LoadTraffic(t, cluster, destOf, ip, at), ip, at) == []
  {
    hide IngressFor, SameIdentity, HasIngressIP, OwnersOf, Fetch, Namespaces, PlainTable;
    var rows := Fetch(t.services, InCluster(cluster), at);
    var svcs := Fetch(t.services, ServesIP(cluster, ip), at);
    OwnersMembers(rows, ip, at);
    OwnerIs(rows, ip, at);
    var owners := OwnersOf(rows, ip, at);
    forall i | 0 <= i < |svcs| ensures svcs[i].payload.selector == [] {
      assert svcs[i] in svcs;
      ServicesLoaded(t, cluster, ip, at, svcs[i]);
      FetchCluster(t.services, cluster, at, svcs[i]);
      assert svcs[i] in owners;
      var j :| 0 <= j < |owners| && owners[j] == svcs[i];
    }
    NoSelectors(svcs);
  }

  lemma {:induction false} NoSelectors(svcs: seq<Row<Svc>>)
    requires forall i :: 0 <= i < |svcs| ==> svcs[i].payload.selector == []
    ensures Selectors(svcs) == []
  {
    if svcs != [] {
      NoSelectors(svcs[..|svcs| - 1]);
    }
  }

  lemma {:induction false} OneGatewayAnswers(d: Tables, ip: string, at: int, o: Owner, dep: Row<Labels>, gw: Row<Gw>)
    requires IngressFor(d.services, ip, at) == o && o.Owner? && o.selector == []
    requires dep in d.deploys && LiveAt(dep, at) && dep.ns == o.ns
    requires gw in d.gateways && LiveAt(gw, at) && gw.ns == o.ns && ContainsAll(dep.payload, gw.payload.selector)
    ensures gw in Candidates(d, ip, at)
  {
    hide IngressFor, LabelsOf, CarriedBy;
    var i :| 0 <= i < |d.deploys| && d.deploys[i] == dep;
    LabelsMembers(d.deploys, o, at);
    assert Backing(d.deploys[i], o, at);
    var labels := LabelsOf(d.deploys, o, at).labels;
    forall k | 0 <= k < |gw.payload.selector| ensures gw.payload.selector[k] in labels {
      assert Offers(d.deploys, o, at, gw.payload.selector[k]);
    }
    CarriedMembers(d.gateways, o, labels, at);
  }

  // The same Services beside other Deployments and Gateways.
  function With(t: Tables, deploys: seq<Row<Labels>>, gateways: seq<Row<Gw>>): Tables {
    t.(deploys := deploys, gateways := gateways)
  }

  ghost predicate ScopedAgrees(t: Tables, cluster: string, destOf: Row<Vs> -> set<string>, ip: string, at: int) {
    forall gw :: gw in Candidates(LoadTraffic(t, cluster, destOf, ip, at), ip, at)
                 <==> gw in Candidates(Authoritative(t, cluster, at), ip, at)
  }

  lemma {:induction false} EmptySelectorLoses(t: Tables, cluster: string, destOf: Row<Vs> -> set<string>, ip: string, at: int)
    requires PlainTables(t) && Exclusive(Authoritative(t, cluster, at).services) && '\0' !in cluster
    requires var o := IngressFor(Authoritative(t, cluster, at).services, ip, at); o.Owner? && o.selector == [] && '\0' !in o.ns
    ensures exists deploys, gateways ::
              && PlainTable(deploys) && PlainTable(gateways)
              && !ScopedAgrees(With(t, deploys, gateways), cluster, destOf, ip, at)
  {
    hide LoadTraffic, IngressFor, Exclusive, Candidates, Fetch, PlainTable, SlotKey;
    var o := IngressFor(Authoritative(t, cluster, at).services, ip, at);
    var dep := Row(cluster, o.ns, "deploy", at, at + 1, 0, ["app"]);
    var gw := Row(cluster, o.ns, "gateway", at, at + 1, 0, Gw(["app"], []));
    FetchOne(dep, cluster, at);
    FetchOne(gw, cluster, at);
    var t' := With(t, [dep], [gw]);
    EmptySelectorLoadsNothing(t', cluster, destOf, ip, at);
    OneGatewayAnswers(Authoritative(t', cluster, at), ip, at, o, dep, gw);
    assert gw !in Candidates(LoadTraffic(t', cluster, destOf, ip, at), ip, at);
    assert !ScopedAgrees(t', cluster, destOf, ip, at);
  }

  // The scoped load is faithful beside all Deployments and Gateways exactly
  // when the Service that owns the address selects something.
  lemma {:induction false} ScopedLoadFaithfulIff(t: Tables, cluster: string, destOf: Row<Vs> -> set<string>, ip: string, at: int)
    requires PlainTables(t) && Exclusive(Authoritative(t, cluster, at).services) && '\0' !in cluster
    requires var o := IngressFor(Authoritative(t, cluster, at).services, ip, at); o.Owner? && '\0' !in o.ns
    ensures IngressFor(Authoritative(t, cluster, at).services, ip, at).selector != [] <==>
              forall deploys, gateways :: PlainTable(deploys) && PlainTable(gateways) ==>
                ScopedAgrees(With(t, deploys, gateways), cluster, destOf, ip, at)
  {
    hide LoadTraffic, IngressFor, Exclusive, Candidates, Fetch, PlainTable;
    if IngressFor(Authoritative(t, cluster, at).services, ip, at).selector == [] {
      EmptySelectorLoses(t, cluster, destOf, ip, at);
    } else {
      forall deploys, gateways | PlainTable(deploys) && PlainTable(gateways)
        ensures ScopedAgrees(With(t, deploys, gateways), cluster, destOf, ip, at)
      {
        var t' := With(t, deploys, gateways);
        LoadIsLive(t', cluster, destOf, ip, at);
        forall gw
          ensures gw in Candidates(LoadTraffic(t', cluster, destOf, ip, at), ip, at)
                  <==> gw in Candidates(Authoritative(t', cluster, at), ip, at)
        {
          CandidatesPreserved(t', cluster, destOf, ip, at, LoadTraffic(t', cluster, destOf, ip, at), gw);
        }
      }
    }
  }
}
