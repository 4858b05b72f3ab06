// The answers of a resolution, read off the rows themselves: who owns an
// address, which gateways serve it, what binds to a gateway, and exactly which
// rows a load holds.
module RouteAnswers {
  import opened Ordering
  import opened StringOrder
  import opened VersionStore
  import opened RouteStore
  import opened RouteSnapshot
  import opened RouteScoping

  // ---- the owner ----

  // The i-th row is live and lists the address, external or load-balancer.
  ghost predicate OnAddress(rows: seq<Row<Svc>>, i: int, ip: string, at: int) {
    && 0 <= i < |rows| && rows[i].vf <= at < rows[i].vt
    && (ip in rows[i].payload.externalIPs || ip in rows[i].payload.loadBalancerIPs)
  }

  // An address has an owner exactly when the live rows that list it are all of
  // one (namespace, name); the answer is that namespace and, of those rows'
  // selectors, the least as a joined string.
  lemma {:induction false} OwnerIff(rows: seq<Row<Svc>>, ip: string, at: int)
    ensures var o := IngressFor(rows, ip, at);
            && (o.Owner? <==>
                  && (exists i :: OnAddress(rows, i, ip, at))
                  && forall i, j :: OnAddress(rows, i, ip, at) && OnAddress(rows, j, ip, at) ==>
                       rows[i].ns == rows[j].ns && rows[i].name == rows[j].name)
            && (o.Owner? ==> exists i :: OnAddress(rows, i, ip, at) && o == Owner(rows[i].ns, rows[i].payload.selector))
            && (o.Owner? ==> forall i :: OnAddress(rows, i, ip, at) ==> !Less(JoinSel(rows[i].payload.selector), JoinSel(o.selector)))
  {
    hide LeastSelector, JoinSel, Less;
    var owners := OwnersOf(rows, ip, at);
    OwnersMembers(rows, ip, at);
    forall i | OnAddress(rows, i, ip, at) ensures rows[i] in owners {
      assert rows[i] in rows;
    }
    forall k | 0 <= k < |owners| ensures exists i :: OnAddress(rows, i, ip, at) && rows[i] == owners[k] {
      assert owners[k] in owners;
      var i :| 0 <= i < |rows| && rows[i] == owners[k];
      assert OnAddress(rows, i, ip, at);
    }
    if owners != [] {
      LeastIsOne(owners);
      var k :| 0 <= k < |owners| && owners[k].payload.selector == LeastSelector(owners);
      var i :| OnAddress(rows, i, ip, at) && rows[i] == owners[k];
      forall j | OnAddress(rows, j, ip, at) ensures !Less(JoinSel(rows[j].payload.selector), JoinSel(LeastSelector(owners))) {
        var l :| 0 <= l < |owners| && owners[l] == rows[j];
      }
    }
  }

  lemma {:induction false} LeastIsOne(rows: seq<Row<Svc>>)
    requires rows != []
    ensures exists k :: 0 <= k < |rows| && rows[k].payload.selector == LeastSelector(rows)
    ensures forall k :: 0 <= k < |rows| ==> !Less(JoinSel(rows[k].payload.selector), JoinSel(LeastSelector(rows)))
  {
    hide JoinSel, Less;
    LessIsTotal();
    if |rows| == 1 {
      assert rows[0].payload.selector == LeastSelector(rows);
    } else {
      var init := rows[..|rows| - 1];
      LeastIsOne(init);
      var k :| 0 <= k < |init| && init[k].payload.selector == LeastSelector(init);
      assert rows[k] == init[k];
      assert rows[|init|].payload.selector == LeastSelector(rows) || rows[k].payload.selector == LeastSelector(rows);
      forall i | 0 <= i < |rows| ensures !Less(JoinSel(rows[i].payload.selector), JoinSel(LeastSelector(rows))) {
        assert i < |init| ==> rows[i] == init[i];
      }
    }
  }

  // Selectors compare as their entries joined by NUL.
  lemma JoinSelIs(a: string, b: string)
    ensures JoinSel([]) == "" && JoinSel([a]) == a && JoinSel([a, b]) == a + ['\0'] + b
  {
    assert [a, b][..1] == [a];
  }

  // ---- the gateways ----

  // The i-th Deployment is live in the namespace and carries the whole selector.
  ghost predicate Backs(rows: seq<Row<Labels>>, i: int, ns: string, selector: seq<string>, at: int) {
    && 0 <= i < |rows| && rows[i].vf <= at < rows[i].vt && rows[i].ns == ns
    && forall l :: l in selector ==> l in rows[i].payload
  }

  // A gateway is an answer exactly when the address has an owner that some
  // Deployment backs, and it is a live gateway of the owner's namespace whose
  // every selector entry is a label of one such Deployment or another.
  lemma {:induction false} CandidateIff(w: Tables, ip: string, at: int, gw: Row<Gw>)
    ensures gw in Candidates(w, ip, at) <==>
              var o := IngressFor(w.services, ip, at);
              && o.Owner? && (exists i :: Backs(w.deploys, i, o.ns, o.selector, at))
              && gw in w.gateways && gw.vf <= at < gw.vt && gw.ns == o.ns
              && forall l :: l in gw.payload.selector ==>
                   exists i :: Backs(w.deploys, i, o.ns, o.selector, at) && l in w.deploys[i].payload
  {
    hide IngressFor, LabelsOf, CarriedBy;
    var o := IngressFor(w.services, ip, at);
    if o.Owner? {
      LabelsMembers(w.deploys, o, at);
      forall i | 0 <= i < |w.deploys| ensures Backing(w.deploys[i], o, at) <==> Backs(w.deploys, i, o.ns, o.selector, at) {
        AllContained(w.deploys[i].payload, o.selector);
      }
      if Backed(w.deploys, o, at) {
        var i :| 0 <= i < |w.deploys| && Backing(w.deploys[i], o, at);
        assert Backs(w.deploys, i, o.ns, o.selector, at);
      }
      if LabelsOf(w.deploys, o, at).Found? {
        var labels := LabelsOf(w.deploys, o, at).labels;
        CarriedMembers(w.gateways, o, labels, at);
        AllContained(labels, gw.payload.selector);
        forall l ensures l in labels <==> exists i :: Backs(w.deploys, i, o.ns, o.selector, at) && l in w.deploys[i].payload {
          OfferedIs(w.deploys, o, at, l);
        }
      }
    }
  }

  lemma OfferedIs(rows: seq<Row<Labels>>, o: Owner, at: int, l: string)
    requires o.Owner?
    ensures Offers(rows, o, at, l) <==> exists i :: Backs(rows, i, o.ns, o.selector, at) && l in rows[i].payload
  {
    forall i | 0 <= i < |rows| ensures Backing(rows[i], o, at) <==> Backs(rows, i, o.ns, o.selector, at) {
      AllContained(rows[i].payload, o.selector);
    }
    if i :| Backs(rows, i, o.ns, o.selector, at) && l in rows[i].payload {
      assert Backing(rows[i], o, at);
    }
  }

  lemma AllContained(a: seq<string>, b: seq<string>)
    ensures ContainsAll(a, b) <==> forall l :: l in b ==> l in a
  {
    if ContainsAll(a, b) {
      forall l | l in b ensures l in a {
        var i :| 0 <= i < |b| && b[i] == l;
      }
    }
    assert forall i :: 0 <= i < |b| ==> b[i] in b;
  }

  lemma AnyContained(a: seq<string>, b: seq<string>)
    ensures ContainsAny(a, b) <==> exists l :: l in a && l in b
  {
    if l :| l in a && l in b {
      var i :| 0 <= i < |b| && b[i] == l;
    }
  }

  // ---- what binds to a gateway ----

  function SlashAt(ref: string): (i: nat)
    ensures i <= |ref| && '/' !in ref[..i]
    ensures i < |ref| ==> ref[i] == '/'
  {
    if ref == [] || ref[0] == '/' then 0
    else
      var i := 1 + SlashAt(ref[1..]);
      assert ref[..i] == [ref[0]] + ref[1..][..i - 1];
      i
  }

  // The gateway a reference means: its own namespace and name, or, unqualified,
  // that name in the namespace of whoever refers to it.
  function Target(fromNS: string, ref: string): (string, string) {
    var i := SlashAt(ref);
    if i < |ref| then (ref[..i], ref[i + 1..]) else (fromNS, ref)
  }

  // A VirtualService binds to a gateway at an instant exactly when it is live and
  // one of its references means that gateway.
  lemma {:induction false} BindsIff(vs: Row<Vs>, ns: string, name: string, at: int)
    requires '/' !in ns && '/' !in name
    ensures Bound(vs, ns, name, at) <==>
              && vs.vf <= at < vs.vt
              && exists i :: 0 <= i < |vs.payload.bound| && Target(vs.ns, vs.payload.bound[i]) == (ns, name)
  {
    hide SlashAt;
    var refs := vs.payload.bound;
    TargetOf(vs.ns, ns, name);
    forall i | 0 <= i < |refs| && Target(vs.ns, refs[i]) == (ns, name) ensures BoundTo(vs, ns, name) {
      var k := SlashAt(refs[i]);
      if k < |refs[i]| {
        assert refs[i] == refs[i][..k] + "/" + refs[i][k + 1..];
      }
      assert refs[i] in refs;
    }
    if ns + "/" + name in refs {
      var i :| 0 <= i < |refs| && refs[i] == ns + "/" + name;
    } else if vs.ns == ns && name in refs {
      var i :| 0 <= i < |refs| && refs[i] == name;
    }
  }

  lemma NotWithin(ref: string, i: nat, k: nat)
    requires i <= |ref| && k < |ref| && ref[k] == '/' && '/' !in ref[..i]
    ensures i <= k
  {
    assert forall j :: 0 <= j < i ==> ref[j] in ref[..i];
  }

  lemma TargetOf(fromNS: string, ns: string, name: string)
    requires '/' !in ns && '/' !in name
    ensures Target(fromNS, ns + "/" + name) == (ns, name) && Target(fromNS, name) == (fromNS, name)
  {
    hide SlashAt;
    var ref := ns + "/" + name;
    var i := SlashAt(ref);
    assert ref[|ns|] == '/';
    assert forall k :: 0 <= k < |ns| ==> ref[k] == ns[k] && ns[k] in ns;
    NotWithin(ref, i, |ns|);
    assert ref[..|ns|] == ns && ref[|ns| + 1..] == name;
    var j := SlashAt(name);
    assert forall k :: 0 <= k < |name| ==> name[k] in name;
    assert j == |name|;
  }

  // ---- what a load holds, and no more ----

  ghost predicate OnIP(r: Row<Svc>, ip: string) {
    ip in r.payload.externalIPs || ip in r.payload.loadBalancerIPs
  }

  // A Service of the address lives in that namespace.
  ghost predicate FrontedIn(d: Tables, ip: string, ns: string) {
    exists i :: 0 <= i < |d.services| && OnIP(d.services[i], ip) && d.services[i].ns == ns
  }

  // A Service of the address selects something, and the labels satisfy it.
  ghost predicate SelectedFor(d: Tables, ip: string, labels: seq<string>) {
    exists i ::
      && 0 <= i < |d.services| && OnIP(d.services[i], ip) && d.services[i].payload.selector != []
      && forall l :: l in d.services[i].payload.selector ==> l in labels
  }

  // Of the live tables, a load holds the Services of the address and those its
  // VirtualServices route to, the Deployments those Services may select, the
  // gateways those Deployments' labels may carry, and the VirtualServices that
  // name one of them, qualified or not.
  lemma {:induction false} LoadIs(t: Tables, cluster: string, destOf: Row<Vs> -> set<string>, ip: string, at: int)
    requires PlainTables(t)
    ensures var l, d := LoadTraffic(t, cluster, destOf, ip, at), Authoritative(t, cluster, at);
            && (forall r :: r in l.deploys <==> r in d.deploys && FrontedIn(d, ip, r.ns) && SelectedFor(d, ip, r.payload))
            && (forall r :: r in l.gateways <==>
                  && r in d.gateways && FrontedIn(d, ip, r.ns)
                  && (exists i :: 0 <= i < |l.deploys| && l.deploys[i].payload != [])
                  && forall x :: x in r.payload.selector ==> exists i :: 0 <= i < |l.deploys| && x in l.deploys[i].payload)
            && (forall r :: r in l.vses <==>
                  && r in d.vses
                  && exists i :: 0 <= i < |l.gateways|
                       && (l.gateways[i].ns + "/" + l.gateways[i].name in r.payload.bound || l.gateways[i].name in r.payload.bound))
            && (forall r :: r in l.services <==>
                  && r in d.services
                  && (OnIP(r, ip) || exists i :: 0 <= i < |l.vses| && r.ns + "/" + r.name in destOf(l.vses[i])))
  {
    hide LoadTraffic, Authoritative, PlainTables;
    LoadedDeploys(t, cluster, destOf, ip, at);
    LoadedGateways(t, cluster, destOf, ip, at);
    LoadedVSes(t, cluster, destOf, ip, at);
    LoadedServices(t, cluster, destOf, ip, at);
  }

  // The Services read first are those of the address.
  lemma {:induction false} FirstRead(t: Tables, cluster: string, ip: string, at: int)
    requires PlainTables(t)
    ensures var svcs, d := Fetch(t.services, ServesIP(cluster, ip), at), Fetch(t.services, InCluster(cluster), at);
            && (forall r :: r in svcs <==> r in d && OnIP(r, ip))
            && (forall ns :: ns in Namespaces(svcs) <==> exists i :: 0 <= i < |d| && OnIP(d[i], ip) && d[i].ns == ns)
            && (forall sel :: sel in Selectors(svcs) <==> sel != [] && exists i :: 0 <= i < |d| && OnIP(d[i], ip) && d[i].payload.selector == sel)
  {
    hide Fetch, PlainTable, Namespaces, Selectors;
    var svcs, d := Fetch(t.services, ServesIP(cluster, ip), at), Fetch(t.services, InCluster(cluster), at);
    forall r ensures r in svcs <==> r in d && OnIP(r, ip) {
      ServicesLoaded(t, cluster, ip, at, r);
    }
    HandedOn(svcs);
    forall i | 0 <= i < |svcs| ensures exists j :: 0 <= j < |d| && d[j] == svcs[i] && OnIP(d[j], ip) {
      assert svcs[i] in svcs;
    }
    forall j | 0 <= j < |d| && OnIP(d[j], ip) ensures exists i :: 0 <= i < |svcs| && svcs[i] == d[j] {
      assert d[j] in d && d[j] in svcs;
    }
  }

  lemma {:induction false} HandedOn(svcs: seq<Row<Svc>>)
    ensures forall ns :: ns in Namespaces(svcs) <==> exists i :: 0 <= i < |svcs| && svcs[i].ns == ns
    ensures forall sel :: sel in Selectors(svcs) <==> sel != [] && exists i :: 0 <= i < |svcs| && svcs[i].payload.selector == sel
  {
    if svcs != [] {
      var init := svcs[..|svcs| - 1];
      HandedOn(init);
      assert forall i :: 0 <= i < |init| ==> init[i] == svcs[i];
    }
  }

  lemma {:induction false} UnionIs(rows: seq<Row<Labels>>)
    ensures forall l :: l in LabelUnion(rows) <==> exists i :: 0 <= i < |rows| && l in rows[i].payload
  {
    hide AddAllNew;
    if rows != [] {
      var init := rows[..|rows| - 1];
      UnionIs(init);
      AddedMembers(LabelUnion(init), rows[|rows| - 1].payload);
      assert forall i :: 0 <= i < |init| ==> init[i] == rows[i];
    }
  }

  lemma {:induction false} RefsAre(rows: seq<Row<Gw>>)
    ensures forall ref :: ref in Refs(rows) <==>
              exists i :: 0 <= i < |rows| && (ref == rows[i].ns + "/" + rows[i].name || ref == rows[i].name)
  {
    hide AddAllNew;
    if rows != [] {
      var init, last := rows[..|rows| - 1], rows[|rows| - 1];
      RefsAre(init);
      AddedMembers(Refs(init), [KeyOf(last), last.name]);
      assert forall i :: 0 <= i < |init| ==> init[i] == rows[i];
    }
  }

  lemma {:induction false} DestsAre(rows: seq<Row<Vs>>, destOf: Row<Vs> -> set<string>)
    ensures forall k :: k in Dests(rows, destOf) <==> exists i :: 0 <= i < |rows| && k in destOf(rows[i])
  {
    if rows != [] {
      var init := rows[..|rows| - 1];
      DestsAre(init, destOf);
      assert forall i :: 0 <= i < |init| ==> init[i] == rows[i];
    }
  }

  lemma {:induction false} LoadedDeploys(t: Tables, cluster: string, destOf: Row<Vs> -> set<string>, ip: string, at: int)
    requires PlainTables(t)
    ensures var l, d := LoadTraffic(t, cluster, destOf, ip, at), Authoritative(t, cluster, at);
            forall r :: r in l.deploys <==> r in d.deploys && FrontedIn(d, ip, r.ns) && SelectedFor(d, ip, r.payload)
  {
    hide Fetch, PlainTable, Namespaces, Selectors, LabelUnion, Refs, Dests, DeployRows, Live, Deduped, ContainsAll, OnIP, RunsAny;
    var d := Authoritative(t, cluster, at);
    var svcs := Fetch(t.services, ServesIP(cluster, ip), at);
    var nss, selectors := Namespaces(svcs), Selectors(svcs);
    FirstRead(t, cluster, ip, at);
    forall r ensures r in LoadTraffic(t, cluster, destOf, ip, at).deploys <==>
                     r in d.deploys && FrontedIn(d, ip, r.ns) && SelectedFor(d, ip, r.payload)
    {
      DeploysLoaded(t.deploys, cluster, nss, selectors, at, r);
      FetchCluster(t.deploys, cluster, at, r);
      if r in d.deploys {
        RunsAnyIs(d, cluster, ip, nss, selectors, r);
      }
    }
  }

  lemma {:induction false} RunsAnyIs(d: Tables, cluster: string, ip: string, nss: seq<string>, selectors: seq<seq<string>>, r: Row<Labels>)
    requires r.cluster == cluster
    requires forall ns :: ns in nss <==> FrontedIn(d, ip, ns)
    requires forall sel :: sel in selectors <==>
               sel != [] && exists i :: 0 <= i < |d.services| && OnIP(d.services[i], ip) && d.services[i].payload.selector == sel
    ensures RunsAny(cluster, nss, selectors, r) <==> FrontedIn(d, ip, r.ns) && SelectedFor(d, ip, r.payload)
    ensures SelectedFor(d, ip, r.payload) ==> selectors != []
  {
    hide OnIP, FrontedIn, ContainsAll;
    if RunsAny(cluster, nss, selectors, r) {
      var k :| 0 <= k < |selectors| && Runs(cluster, nss, selectors[k])(r);
      assert selectors[k] in selectors;
      AllContained(r.payload, selectors[k]);
      var i :| 0 <= i < |d.services| && OnIP(d.services[i], ip) && d.services[i].payload.selector == selectors[k];
    }
    if SelectedFor(d, ip, r.payload) {
      var i :| 0 <= i < |d.services| && OnIP(d.services[i], ip) && d.services[i].payload.selector != []
        && forall l :: l in d.services[i].payload.selector ==> l in r.payload;
      var sel := d.services[i].payload.selector;
      AllContained(r.payload, sel);
      assert sel in selectors;
      var k :| 0 <= k < |selectors| && selectors[k] == sel;
      assert FrontedIn(d, ip, r.ns) ==> Runs(cluster, nss, selectors[k])(r);
    }
  }

  lemma {:induction false} LoadedGateways(t: Tables, cluster: string, destOf: Row<Vs> -> set<string>, ip: string, at: int)
    requires PlainTables(t)
    ensures var l, d := LoadTraffic(t, cluster, destOf, ip, at), Authoritative(t, cluster, at);
            forall r :: r in l.gateways <==>
              && r in d.gateways && FrontedIn(d, ip, r.ns)
              && (exists i :: 0 <= i < |l.deploys| && l.deploys[i].payload != [])
              && forall x :: x in r.payload.selector ==> exists i :: 0 <= i < |l.deploys| && x in l.deploys[i].payload
  {
    hide Fetch, PlainTable, Namespaces, Selectors, LabelUnion, Refs, Dests, DeployRows, Live, Deduped, ContainsAll, OnIP;
    var l, d := LoadTraffic(t, cluster, destOf, ip, at), Authoritative(t, cluster, at);
    var svcs := Fetch(t.services, ServesIP(cluster, ip), at);
    var nss := Namespaces(svcs);
    FirstRead(t, cluster, ip, at);
    UnionIs(l.deploys);
    var labels := LabelUnion(l.deploys);
    SomeLabel(l.deploys, labels);
    forall r ensures r in l.gateways <==>
                     && r in d.gateways && FrontedIn(d, ip, r.ns)
                     && (exists i :: 0 <= i < |l.deploys| && l.deploys[i].payload != [])
                     && forall x :: x in r.payload.selector ==> exists i :: 0 <= i < |l.deploys| && x in l.deploys[i].payload
    {
      GatewaysLoaded(t, cluster, nss, labels, at, r);
      FetchCluster(t.gateways, cluster, at, r);
      AllContained(labels, r.payload.selector);
    }
  }

  lemma SomeLabel(rows: seq<Row<Labels>>, labels: seq<string>)
    requires forall l :: l in labels <==> exists i :: 0 <= i < |rows| && l in rows[i].payload
    ensures labels != [] <==> exists i :: 0 <= i < |rows| && rows[i].payload != []
  {
    if labels != [] {
      assert labels[0] in labels;
    }
    if i :| 0 <= i < |rows| && rows[i].payload != [] {
      assert rows[i].payload[0] in rows[i].payload;
      assert rows[i].payload[0] in labels;
    }
  }

  lemma {:induction false} LoadedVSes(t: Tables, cluster: string, destOf: Row<Vs> -> set<string>, ip: string, at: int)
    requires PlainTables(t)
    ensures var l, d := LoadTraffic(t, cluster, destOf, ip, at), Authoritative(t, cluster, at);
            forall r :: r in l.vses <==>
              && r in d.vses
              && exists i :: 0 <= i < |l.gateways|
                   && (l.gateways[i].ns + "/" + l.gateways[i].name in r.payload.bound || l.gateways[i].name in r.payload.bound)
  {
    hide Fetch, PlainTable, Namespaces, Selectors, LabelUnion, Refs, Dests, DeployRows, Live, Deduped, ContainsAny;
    var l, d := LoadTraffic(t, cluster, destOf, ip, at), Authoritative(t, cluster, at);
    RefsAre(l.gateways);
    var refs := Refs(l.gateways);
    forall r ensures r in l.vses <==>
                     && r in d.vses
                     && exists i :: 0 <= i < |l.gateways|
                          && (l.gateways[i].ns + "/" + l.gateways[i].name in r.payload.bound || l.gateways[i].name in r.payload.bound)
    {
      VSesLoaded(t, cluster, refs, at, r);
      FetchCluster(t.vses, cluster, at, r);
      AnyContained(r.payload.bound, refs);
      NamesGateway(l.gateways, refs, r.payload.bound);
    }
  }

  lemma NamesGateway(gws: seq<Row<Gw>>, refs: seq<string>, bound: seq<string>)
    requires forall ref :: ref in refs <==>
               exists i :: 0 <= i < |gws| && (ref == gws[i].ns + "/" + gws[i].name || ref == gws[i].name)
    ensures (exists x :: x in bound && x in refs) <==>
              exists i :: 0 <= i < |gws| && (gws[i].ns + "/" + gws[i].name in bound || gws[i].name in bound)
    ensures (exists x :: x in bound && x in refs) ==> refs != []
  {
    if i :| 0 <= i < |gws| && (gws[i].ns + "/" + gws[i].name in bound || gws[i].name in bound) {
      assert gws[i].name in refs && gws[i].ns + "/" + gws[i].name in refs;
    }
  }

  lemma {:induction false} LoadedServices(t: Tables, cluster: string, destOf: Row<Vs> -> set<string>, ip: string, at: int)
    requires PlainTables(t)
    ensures var l, d := LoadTraffic(t, cluster, destOf, ip, at), Authoritative(t, cluster, at);
            forall r :: r in l.services <==>
              && r in d.services
              && (OnIP(r, ip) || exists i :: 0 <= i < |l.vses| && r.ns + "/" + r.name in destOf(l.vses[i]))
  {
    hide Fetch, PlainTable, Namespaces, Selectors, LabelUnion, Refs, Dests, DeployRows, Live, Deduped, OnIP;
    var l, d := LoadTraffic(t, cluster, destOf, ip, at), Authoritative(t, cluster, at);
    FirstRead(t, cluster, ip, at);
    DestsAre(l.vses, destOf);
    forall r ensures r in l.services <==>
                     && r in d.services
                     && (OnIP(r, ip) || exists i :: 0 <= i < |l.vses| && r.ns + "/" + r.name in destOf(l.vses[i]))
    {
      BackendsLoaded(t, cluster, Dests(l.vses, destOf), at, r);
      FetchCluster(t.services, cluster, at, r);
    }
  }
}
