// Resolving a destination address in memory, over rows already loaded: the
// owning Service, its Deployments' labels, the gateways they carry, and what is
// bound to each gateway.
module RouteSnapshot {
  import opened VersionStore
  import opened RouteStore
  import opened StringOrder

  datatype Owner = NoOwner | Owner(ns: string, selector: seq<string>)
  datatype Found = NotFound | Found(labels: seq<string>)

  predicate Owns(r: Row<Svc>, ip: string, at: int) {
    LiveAt(r, at) && HasIngressIP(r.payload, ip)
  }

  function OwnersOf(rows: seq<Row<Svc>>, ip: string, at: int): seq<Row<Svc>> {
    if rows == [] then []
    else
      var before := OwnersOf(rows[..|rows| - 1], ip, at);
      if Owns(rows[|rows| - 1], ip, at) then before + [rows[|rows| - 1]] else before
  }

  // A selector set as one string, for the tie-break between rows of one Service.
  function JoinSel(sel: seq<string>): string {
    if sel == [] then []
    else if |sel| == 1 then sel[0]
    else JoinSel(sel[..|sel| - 1]) + ['\0'] + sel[|sel| - 1]
  }

  predicate SameIdentity(a: Row<Svc>, b: Row<Svc>) {
    a.ns == b.ns && a.name == b.name
  }

  predicate OneIdentity(rows: seq<Row<Svc>>) {
    forall i :: 0 <= i < |rows| ==> SameIdentity(rows[i], rows[0])
  }

  function LeastSelector(rows: seq<Row<Svc>>): (sel: seq<string>)
    requires rows != []
  {
    if |rows| == 1 then rows[0].payload.selector
    else
      var before, last := LeastSelector(rows[..|rows| - 1]), rows[|rows| - 1].payload.selector;
      if Less(JoinSel(last), JoinSel(before)) then last else before
  }

  // Hop 1: the one Service that owns the address, or no answer.
  function IngressFor(rows: seq<Row<Svc>>, ip: string, at: int): Owner {
    var owners := OwnersOf(rows, ip, at);
    if owners == [] || !OneIdentity(owners) then NoOwner
    else Owner(owners[0].ns, LeastSelector(owners))
  }

  predicate Backing(r: Row<Labels>, o: Owner, at: int)
    requires o.Owner?
  {
    LiveAt(r, at) && r.ns == o.ns && ContainsAll(r.payload, o.selector)
  }

  // Hop 2: the labels of all Deployments the Service selects.
  function LabelsOf(rows: seq<Row<Labels>>, o: Owner, at: int): Found
    requires o.Owner?
  {
    if rows == [] then NotFound
    else
      var before, last := LabelsOf(rows[..|rows| - 1], o, at), rows[|rows| - 1];
      if !Backing(last, o, at) then before
      else Found(AddAllNew(if before.Found? then before.labels else [], last.payload))
  }

  predicate Carries(r: Row<Gw>, o: Owner, labels: seq<string>, at: int)
    requires o.Owner?
  {
    LiveAt(r, at) && r.ns == o.ns && ContainsAll(labels, r.payload.selector)
  }

  function CarriedBy(rows: seq<Row<Gw>>, o: Owner, labels: seq<string>, at: int): seq<Row<Gw>>
    requires o.Owner?
  {
    if rows == [] then []
    else
      var before := CarriedBy(rows[..|rows| - 1], o, labels, at);
      if Carries(rows[|rows| - 1], o, labels, at) then before + [rows[|rows| - 1]] else before
  }

  // Hop 3: the gateways of the Service's own namespace those labels carry.
  function Candidates(w: Tables, ip: string, at: int): seq<Row<Gw>> {
    var o := IngressFor(w.services, ip, at);
    if o.NoOwner? then []
    else
      var found := LabelsOf(w.deploys, o, at);
      if found.NotFound? then [] else CarriedBy(w.gateways, o, found.labels, at)
  }

  predicate BoundTo(vs: Row<Vs>, gwNS: string, gwName: string) {
    gwNS + "/" + gwName in vs.payload.bound || (vs.ns == gwNS && gwName in vs.payload.bound)
  }

  predicate Bound(vs: Row<Vs>, gwNS: string, gwName: string, at: int) {
    LiveAt(vs, at) && BoundTo(vs, gwNS, gwName)
  }

  // ---- the loops ----

  lemma {:induction false} MoreOwners(before: seq<Row<Svc>>, r: Row<Svc>)
    ensures OneIdentity([r]) && LeastSelector([r]) == r.payload.selector
    ensures before != [] && OneIdentity(before) && SameIdentity(r, before[0]) ==>
              && OneIdentity(before + [r]) && (before + [r])[0] == before[0]
              && LeastSelector(before + [r])
                 == if Less(JoinSel(r.payload.selector), JoinSel(LeastSelector(before))) then r.payload.selector else LeastSelector(before)
  {
    hide JoinSel, Less;
    assert (before + [r])[..|before|] == before;
  }

  method IngressServiceFor(rows: seq<Row<Svc>>, ip: string, at: int) returns (o: Owner)
    ensures o == IngressFor(rows, ip, at)
  {
    hide Owns, JoinSel, Less, OneIdentity, LeastSelector;
    var ok := false;
    var ns, name: string := "", "";
    var selector: seq<string> := [];
    for i := 0 to |rows|
      invariant ok <==> OwnersOf(rows[..i], ip, at) != []
      invariant ok ==> OneIdentity(OwnersOf(rows[..i], ip, at))
      invariant ok ==> ns == OwnersOf(rows[..i], ip, at)[0].ns && name == OwnersOf(rows[..i], ip, at)[0].name
      invariant ok ==> selector == LeastSelector(OwnersOf(rows[..i], ip, at))
    {
      var r := rows[i];
      ghost var before := OwnersOf(rows[..i], ip, at);
      assert rows[..i + 1][..i] == rows[..i];
      if !Owns(r, ip, at) {
        continue;
      }
      MoreOwners(before, r);
      if !ok {
        assert before + [r] == [r];
        ns, name, selector, ok := r.ns, r.name, r.payload.selector, true;
        continue;
      }
      if r.ns != ns || r.name != name {
        TwoOwners(rows, i, ip, at);
        return NoOwner;
      }
      if Less(JoinSel(r.payload.selector), JoinSel(selector)) {
        selector := r.payload.selector;
      }
    }
    assert rows[..|rows|] == rows;
    o := if ok then Owner(ns, selector) else NoOwner;
  }

  lemma {:induction false} OwnersPrefix(rows: seq<Row<Svc>>, k: nat, ip: string, at: int)
    requires k <= |rows|
    ensures OwnersOf(rows[..k], ip, at) <= OwnersOf(rows, ip, at)
    decreases |rows| - k
  {
    hide Owns;
    if k == |rows| {
      assert rows[..k] == rows;
    } else {
      OwnersPrefix(rows, k + 1, ip, at);
      assert rows[..k + 1][..k] == rows[..k];
    }
  }

  // A second identity settles it: the address has no one owner.
  lemma {:induction false} TwoOwners(rows: seq<Row<Svc>>, i: nat, ip: string, at: int)
    requires i < |rows| && Owns(rows[i], ip, at)
    requires OwnersOf(rows[..i], ip, at) != [] && !SameIdentity(rows[i], OwnersOf(rows[..i], ip, at)[0])
    ensures IngressFor(rows, ip, at) == NoOwner
  {
    hide Owns;
    assert rows[..i + 1][..i] == rows[..i];
    OwnersPrefix(rows, i + 1, ip, at);
    var all, before := OwnersOf(rows, ip, at), OwnersOf(rows[..i], ip, at);
    assert (before + [rows[i]]) <= all;
    assert all[|before|] == rows[i] && all[0] == before[0];
  }

  method ResolveIPToGateways(w: Tables, ip: string, at: int) returns (cands: seq<Row<Gw>>)
    ensures cands == Candidates(w, ip, at)
  {
    hide IngressFor, Backing, Carries;
    var o := IngressServiceFor(w.services, ip, at);
    if o.NoOwner? {
      return [];
    }
    var found := NotFound;
    for i := 0 to |w.deploys|
      invariant found == LabelsOf(w.deploys[..i], o, at)
    {
      var r := w.deploys[i];
      assert w.deploys[..i + 1][..i] == w.deploys[..i];
      if !Backing(r, o, at) {
        continue;
      }
      var labels := AddStrings(if found.Found? then found.labels else [], r.payload);
      found := Found(labels);
    }
    assert w.deploys[..|w.deploys|] == w.deploys;
    if found.NotFound? {
      return [];
    }
    cands := [];
    for i := 0 to |w.gateways|
      invariant cands == CarriedBy(w.gateways[..i], o, found.labels, at)
    {
      var r := w.gateways[i];
      assert w.gateways[..i + 1][..i] == w.gateways[..i];
      if Carries(r, o, found.labels, at) {
        cands := cands + [r];
      }
    }
    assert w.gateways[..|w.gateways|] == w.gateways;
  }

  // ---- what each hop holds ----

  lemma {:induction false} OwnersMembers(rows: seq<Row<Svc>>, ip: string, at: int)
    ensures forall r :: r in OwnersOf(rows, ip, at) <==> r in rows && Owns(r, ip, at)
  {
    hide Owns;
    if rows != [] {
      OwnersMembers(rows[..|rows| - 1], ip, at);
      assert rows == rows[..|rows| - 1] + [rows[|rows| - 1]];
    }
  }

  lemma {:induction false} AddedMembers(xs: seq<string>, more: seq<string>)
    ensures forall x :: x in AddAllNew(xs, more) <==> x in xs || x in more
  {
    if more != [] {
      AddedMembers(xs, more[..|more| - 1]);
      assert more == more[..|more| - 1] + [more[|more| - 1]];
    }
  }

  ghost predicate Backed(rows: seq<Row<Labels>>, o: Owner, at: int)
    requires o.Owner?
  {
    exists i :: 0 <= i < |rows| && Backing(rows[i], o, at)
  }

  ghost predicate Offers(rows: seq<Row<Labels>>, o: Owner, at: int, l: string)
    requires o.Owner?
  {
    exists i :: 0 <= i < |rows| && Backing(rows[i], o, at) && l in rows[i].payload
  }

  lemma OffersMore(init: seq<Row<Labels>>, last: Row<Labels>, o: Owner, at: int)
    requires o.Owner?
    ensures Backed(init + [last], o, at) <==> Backed(init, o, at) || Backing(last, o, at)
    ensures forall l :: Offers(init + [last], o, at, l) <==> Offers(init, o, at, l) || (Backing(last, o, at) && l in last.payload)
  {
    hide Backing;
    var rows := init + [last];
    assert rows[|init|] == last;
    assert forall i :: 0 <= i < |init| ==> rows[i] == init[i];
    forall l | Offers(init, o, at, l) ensures Offers(rows, o, at, l) {
      var i :| 0 <= i < |init| && Backing(init[i], o, at) && l in init[i].payload;
      assert Backing(rows[i], o, at);
    }
    if Backed(init, o, at) {
      var i :| 0 <= i < |init| && Backing(init[i], o, at);
      assert Backing(rows[i], o, at);
    }
  }

  // Somebody backs the Service, and every label found belongs to one of them.
  lemma {:induction false} LabelsMembers(rows: seq<Row<Labels>>, o: Owner, at: int)
    requires o.Owner?
    ensures LabelsOf(rows, o, at).Found? <==> Backed(rows, o, at)
    ensures LabelsOf(rows, o, at).Found? ==> forall l :: l in LabelsOf(rows, o, at).labels <==> Offers(rows, o, at, l)
    ensures LabelsOf(rows, o, at).NotFound? ==> forall l :: !Offers(rows, o, at, l)
  {
    hide Backing, AddAllNew, Backed, Offers;
    if rows == [] {
      NoOffers(o, at);
    } else {
      var init, last := rows[..|rows| - 1], rows[|rows| - 1];
      LabelsMembers(init, o, at);
      assert rows == init + [last];
      OffersMore(init, last, o, at);
      var before := LabelsOf(init, o, at);
      AddedMembers(if before.Found? then before.labels else [], last.payload);
    }
  }

  lemma NoOffers(o: Owner, at: int)
    requires o.Owner?
    ensures !Backed([], o, at) && forall l :: !Offers([], o, at, l)
  {
  }

  lemma {:induction false} CarriedMembers(rows: seq<Row<Gw>>, o: Owner, labels: seq<string>, at: int)
    requires o.Owner?
    ensures forall r :: r in CarriedBy(rows, o, labels, at) <==> r in rows && Carries(r, o, labels, at)
  {
    hide Carries;
    if rows != [] {
      CarriedMembers(rows[..|rows| - 1], o, labels, at);
      assert rows == rows[..|rows| - 1] + [rows[|rows| - 1]];
    }
  }
}
