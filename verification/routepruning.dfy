// The reader under the unique-rows flag: what pruning in the query leaves
// unchanged, and when its count of discarded rows stays at nothing.
module RoutePruning {
  import opened VersionStore
  import opened RouteStore
  import opened RouteSnapshot
  import opened RouteScoping

  // One physical row for each version, as the flag asserts of the writer.
  ghost predicate UniqueTables(t: Tables) {
    DistinctSlots(t.services) && DistinctSlots(t.deploys) && DistinctSlots(t.gateways) && DistinctSlots(t.vses)
  }

  // The rows of a version slot have all ended by the instant, or none has.
  ghost predicate EndsAgree(t: Tables, at: int) {
    && SlotConstant(t.services, NotEnded(at)) && SlotConstant(t.deploys, NotEnded(at))
    && SlotConstant(t.gateways, NotEnded(at)) && SlotConstant(t.vses, NotEnded(at))
  }

  lemma UniqueEndsAgree(t: Tables, at: int)
    requires UniqueTables(t)
    ensures EndsAgree(t, at)
  {
    hide DistinctSlots, SlotConstant;
    DistinctIsConstant(t.services, NotEnded(at));
    DistinctIsConstant(t.deploys, NotEnded(at));
    DistinctIsConstant(t.gateways, NotEnded(at));
    DistinctIsConstant(t.vses, NotEnded(at));
  }

  // ---- pruning leaves each read as it was ----

  lemma {:induction false} WherePruned<P>(rows: seq<Row<P>>, p: Row<P> -> bool, at: int)
    ensures Where(rows, Asks(p, at, true)) == Where(Where(rows, Asks(p, at, false)), NotEnded(at))
  {
    if rows != [] {
      var init, r := rows[..|rows| - 1], rows[|rows| - 1];
      WherePruned(init, p, at);
      var some := Where(init, Asks(p, at, false));
      assert (some + [r])[..|some|] == some;
    }
  }

  lemma {:induction false} WhereAppend<P>(a: seq<Row<P>>, b: seq<Row<P>>, p: Row<P> -> bool)
    ensures Where(a + b, p) == Where(a, p) + Where(b, p)
  {
    if b == [] {
      assert a + b == a;
    } else {
      var n := |b| - 1;
      assert (a + b)[..|a + b| - 1] == a + b[..n];
      WhereAppend(a, b[..n], p);
    }
  }

  ghost predicate From<P>(some: seq<Row<P>>, rows: seq<Row<P>>) {
    forall i :: 0 <= i < |some| ==> some[i] in rows
  }

  lemma ConstantFrom<P>(some: seq<Row<P>>, rows: seq<Row<P>>, p: Row<P> -> bool)
    requires From(some, rows) && SlotConstant(rows, p)
    ensures SlotConstant(some, p)
  {
    hide SlotKey;
    forall i, j | 0 <= i < |some| && 0 <= j < |some| && SlotKey(some[i]) == SlotKey(some[j]) ensures p(some[i]) == p(some[j]) {
      var k :| 0 <= k < |rows| && rows[k] == some[i];
      var l :| 0 <= l < |rows| && rows[l] == some[j];
    }
  }

  lemma {:induction false} PrunedRead<P>(some: seq<Row<P>>, rows: seq<Row<P>>, at: int)
    requires From(some, rows) && SlotConstant(rows, NotEnded(at)) && Begun(some, at)
    ensures Live(Deduped(Where(some, NotEnded(at))), at) == Live(Deduped(some), at)
  {
    hide SlotKey, Deduped, Live, Where, From, SlotConstant, Begun;
    ConstantFrom(some, rows, NotEnded(at));
    PruneKeepsOrder(some, at);
  }

  lemma {:induction false} FetchPruned<P>(rows: seq<Row<P>>, p: Row<P> -> bool, at: int)
    requires SlotConstant(rows, NotEnded(at))
    ensures Fetch(rows, p, at, true) == Fetch(rows, p, at, false)
  {
    hide Deduped, Live, Where, SlotConstant;
    WherePruned(rows, p, at);
    WhereMembers(rows, Asks(p, at, false));
    PrunedRead(Where(rows, Asks(p, at, false)), rows, at);
  }

  lemma {:induction false} DeployRowsPruned(rows: seq<Row<Labels>>, cluster: string, nss: seq<string>, selectors: seq<seq<string>>, at: int)
    ensures DeployRows(rows, cluster, nss, selectors, at, true) == Where(DeployRows(rows, cluster, nss, selectors, at, false), NotEnded(at))
    ensures From(DeployRows(rows, cluster, nss, selectors, at, false), rows) && Begun(DeployRows(rows, cluster, nss, selectors, at, false), at)
  {
    hide Where, Runs;
    if selectors == [] {
      NothingWhere<Labels>(NotEnded(at));
    } else {
      var init, q := selectors[..|selectors| - 1], Runs(cluster, nss, selectors[|selectors| - 1]);
      DeployRowsPruned(rows, cluster, nss, init, at);
      WherePruned(rows, q, at);
      WhereMembers(rows, Asks(q, at, false));
      WhereAppend(DeployRows(rows, cluster, nss, init, at, false), Where(rows, Asks(q, at, false)), NotEnded(at));
    }
  }

  lemma NothingWhere<P>(p: Row<P> -> bool)
    ensures Where([], p) == []
  {
  }

  // A reader that prunes loads the very same rows, in the same order.
  lemma {:induction false} PrunedLoadIsSame(t: Tables, cluster: string, destOf: Row<Vs> -> set<string>, ip: string, at: int)
    requires EndsAgree(t, at)
    ensures LoadTraffic(t, cluster, destOf, ip, at, true) == LoadTraffic(t, cluster, destOf, ip, at, false)
  {
    hide Fetch, Deduped, Live, Where, SlotConstant, Namespaces, Selectors, LabelUnion, Refs, Dests, DeployRows, From, Begun;
    FetchPruned(t.services, ServesIP(cluster, ip), at);
    var svcs := Fetch(t.services, ServesIP(cluster, ip), at);
    var nss, selectors := Namespaces(svcs), Selectors(svcs);
    DeployRowsPruned(t.deploys, cluster, nss, selectors, at);
    PrunedRead(DeployRows(t.deploys, cluster, nss, selectors, at, false), t.deploys, at);
    var deps := LiveDeploys(t, cluster, nss, selectors, at, false);
    FetchPruned(t.gateways, Fronts(cluster, nss, LabelUnion(deps)), at);
    var gws := FrontGateways(t, cluster, nss, deps, at, false);
    FetchPruned(t.vses, Binds(cluster, Refs(gws)), at);
    var vses := BoundVSes(t, cluster, gws, at, false);
    FetchPruned(t.services, Backs(cluster, Dests(vses, destOf)), at);
  }

  lemma {:induction false} PrunedUnionIsSame(t: Tables, cluster: string, destOf: Row<Vs> -> set<string>, ips: seq<string>, at: int)
    requires EndsAgree(t, at)
    ensures LoadAll(t, cluster, destOf, ips, at, true) == LoadAll(t, cluster, destOf, ips, at, false)
  {
    hide LoadTraffic, EndsAgree;
    if ips != [] {
      PrunedUnionIsSame(t, cluster, destOf, ips[..|ips| - 1], at);
      PrunedLoadIsSame(t, cluster, destOf, ips[|ips| - 1], at);
    }
  }

  // So the scoped load of a reader under the unique-rows flag preserves the
  // answer just as well.
  lemma {:induction false} PrunedCandidatesPreserved(t: Tables, cluster: string, destOf: Row<Vs> -> set<string>, ip: string, at: int, w: Tables, gw: Row<Gw>)
    requires UniqueTables(t) && PlainTables(t) && Exclusive(Authoritative(t, cluster, at).services)
    requires Subset(LoadTraffic(t, cluster, destOf, ip, at, true), w) && Subset(w, Authoritative(t, cluster, at))
    requires var o := IngressFor(Authoritative(t, cluster, at).services, ip, at); o.Owner? ==> o.selector != []
    ensures gw in Candidates(w, ip, at) <==> gw in Candidates(Authoritative(t, cluster, at), ip, at)
    ensures forall ips :: ip in ips ==>
              (gw in Candidates(LoadAll(t, cluster, destOf, ips, at, true), ip, at) <==> gw in Candidates(Authoritative(t, cluster, at), ip, at))
  {
    hide LoadTraffic, LoadAll, Authoritative, IngressFor, Exclusive, Candidates, UniqueTables, PlainTables, Subset, EndsAgree;
    UniqueEndsAgree(t, at);
    PrunedLoadIsSame(t, cluster, destOf, ip, at);
    CandidatesPreserved(t, cluster, destOf, ip, at, w, gw);
    forall ips | ip in ips
      ensures gw in Candidates(LoadAll(t, cluster, destOf, ips, at, true), ip, at) <==> gw in Candidates(Authoritative(t, cluster, at), ip, at)
    {
      var i :| 0 <= i < |ips| && ips[i] == ip;
      PrunedUnionIsSame(t, cluster, destOf, ips, at);
      UnionIsBetween(t, cluster, destOf, ips, at);
      CandidatesPreserved(t, cluster, destOf, ip, at, LoadAll(t, cluster, destOf, ips, at), gw);
    }
  }

  // ---- when the count stays at nothing ----

  lemma {:induction false} NothingDiscarded<P>(rows: seq<Row<P>>, p: Row<P> -> bool, at: int, prune: bool)
    requires DistinctSlots(rows)
    ensures DiscardedBy(rows, p, at, prune) == 0
  {
    hide Deduped, Where, DistinctSlots;
    WhereDistinct(rows, Asks(p, at, prune));
    NothingCollapsesIff(Where(rows, Asks(p, at, prune)));
  }

  ghost predicate Matches(r: Row<Labels>, cluster: string, nss: seq<string>, selector: seq<string>, at: int, prune: bool) {
    Asks(Runs(cluster, nss, selector), at, prune)(r)
  }

  // Some row answers the queries for two of the selectors.
  ghost predicate MatchesTwo(rows: seq<Row<Labels>>, cluster: string, nss: seq<string>, selectors: seq<seq<string>>, at: int, prune: bool) {
    exists k, i, j ::
      && 0 <= k < |rows| && 0 <= i < j < |selectors|
      && Matches(rows[k], cluster, nss, selectors[i], at, prune) && Matches(rows[k], cluster, nss, selectors[j], at, prune)
  }

  ghost predicate MatchesOne(r: Row<Labels>, cluster: string, nss: seq<string>, selectors: seq<seq<string>>, at: int, prune: bool) {
    exists i :: 0 <= i < |selectors| && Matches(r, cluster, nss, selectors[i], at, prune)
  }

  lemma {:induction false} DeployRowsMembers(rows: seq<Row<Labels>>, cluster: string, nss: seq<string>, selectors: seq<seq<string>>, at: int, prune: bool)
    ensures forall r :: r in DeployRows(rows, cluster, nss, selectors, at, prune) <==>
                        r in rows && MatchesOne(r, cluster, nss, selectors, at, prune)
  {
    hide Where, Asks, Runs;
    if selectors != [] {
      var init, last := selectors[..|selectors| - 1], selectors[|selectors| - 1];
      DeployRowsMembers(rows, cluster, nss, init, at, prune);
      WhereMembers(rows, Asks(Runs(cluster, nss, last), at, prune));
      forall r ensures MatchesOne(r, cluster, nss, selectors, at, prune) <==>
                       MatchesOne(r, cluster, nss, init, at, prune) || Matches(r, cluster, nss, last, at, prune)
      {
        MatchesMore(r, cluster, nss, selectors, at, prune);
      }
    }
  }

  lemma MatchesMore(r: Row<Labels>, cluster: string, nss: seq<string>, selectors: seq<seq<string>>, at: int, prune: bool)
    requires selectors != []
    ensures MatchesOne(r, cluster, nss, selectors, at, prune) <==>
            MatchesOne(r, cluster, nss, selectors[..|selectors| - 1], at, prune) || Matches(r, cluster, nss, selectors[|selectors| - 1], at, prune)
  {
    hide Matches;
    var init := selectors[..|selectors| - 1];
    assert forall i :: 0 <= i < |init| ==> init[i] == selectors[i];
    if MatchesOne(r, cluster, nss, init, at, prune) {
      var i :| 0 <= i < |init| && Matches(r, cluster, nss, init[i], at, prune);
      assert Matches(r, cluster, nss, selectors[i], at, prune);
    }
    if MatchesOne(r, cluster, nss, selectors, at, prune) {
      var i :| 0 <= i < |selectors| && Matches(r, cluster, nss, selectors[i], at, prune);
      assert i < |init| ==> Matches(r, cluster, nss, init[i], at, prune);
    }
  }

  // Two lists of a unique table's rows, each unique: together they are unique
  // exactly when they share no row.
  lemma {:induction false} DistinctAppend<P>(a: seq<Row<P>>, b: seq<Row<P>>, rows: seq<Row<P>>)
    requires DistinctSlots(rows) && From(a, rows) && From(b, rows) && DistinctSlots(b)
    ensures DistinctSlots(a + b) <==> DistinctSlots(a) && forall i :: 0 <= i < |b| ==> b[i] !in a
  {
    hide SlotKey;
    var all := a + b;
    assert forall i :: 0 <= i < |a| ==> all[i] == a[i];
    assert forall i :: 0 <= i < |b| ==> all[|a| + i] == b[i];
    forall i, j | 0 <= i < |a| && 0 <= j < |b| && SlotKey(a[i]) == SlotKey(b[j]) ensures b[j] in a {
      OneOfSlot(rows, a[i], b[j]);
    }
    if i, j :| 0 <= j < |b| && 0 <= i < |a| && b[j] == a[i] {
      assert SlotKey(all[i]) == SlotKey(all[|a| + j]);
    }
    if !DistinctSlots(a) {
      var i, j :| 0 <= i < j < |a| && SlotKey(a[i]) == SlotKey(a[j]);
      assert SlotKey(all[i]) == SlotKey(all[j]);
    }
  }

  lemma {:induction false} DeployRowsDistinct(rows: seq<Row<Labels>>, cluster: string, nss: seq<string>, selectors: seq<seq<string>>, at: int, prune: bool)
    requires DistinctSlots(rows)
    ensures DistinctSlots(DeployRows(rows, cluster, nss, selectors, at, prune)) <==> !MatchesTwo(rows, cluster, nss, selectors, at, prune)
  {
    hide Where, Asks, Runs, DistinctSlots, MatchesTwo, MatchesOne;
    if selectors == [] {
      NoneTwice(rows, cluster, nss, at, prune);
    } else {
      var init, last := selectors[..|selectors| - 1], selectors[|selectors| - 1];
      var a, b := DeployRows(rows, cluster, nss, init, at, prune), Where(rows, Asks(Runs(cluster, nss, last), at, prune));
      DeployRowsDistinct(rows, cluster, nss, init, at, prune);
      DeployRowsMembers(rows, cluster, nss, init, at, prune);
      WhereMembers(rows, Asks(Runs(cluster, nss, last), at, prune));
      WhereDistinct(rows, Asks(Runs(cluster, nss, last), at, prune));
      assert From(a, rows) && From(b, rows);
      DistinctAppend(a, b, rows);
      TwoMore(rows, cluster, nss, selectors, at, prune);
      if k :| 0 <= k < |rows| && Matches(rows[k], cluster, nss, last, at, prune) && MatchesOne(rows[k], cluster, nss, init, at, prune) {
        assert rows[k] in rows && rows[k] in a && rows[k] in b;
        var i :| 0 <= i < |b| && b[i] == rows[k];
      }
      if i :| 0 <= i < |b| && b[i] in a {
        assert b[i] in b;
        var k :| 0 <= k < |rows| && rows[k] == b[i];
      }
    }
  }

  lemma NoneTwice(rows: seq<Row<Labels>>, cluster: string, nss: seq<string>, at: int, prune: bool)
    ensures !MatchesTwo(rows, cluster, nss, [], at, prune) && DistinctSlots<Labels>([])
  {
  }

  lemma {:induction false} TwoMore(rows: seq<Row<Labels>>, cluster: string, nss: seq<string>, selectors: seq<seq<string>>, at: int, prune: bool)
    requires selectors != []
    ensures var init, last := selectors[..|selectors| - 1], selectors[|selectors| - 1];
            MatchesTwo(rows, cluster, nss, selectors, at, prune) <==>
              || MatchesTwo(rows, cluster, nss, init, at, prune)
              || exists k :: 0 <= k < |rows| && Matches(rows[k], cluster, nss, last, at, prune) && MatchesOne(rows[k], cluster, nss, init, at, prune)
  {
    hide Matches;
    var n := |selectors| - 1;
    var init, last := selectors[..n], selectors[n];
    if MatchesTwo(rows, cluster, nss, selectors, at, prune) {
      var k, i, j :| 0 <= k < |rows| && 0 <= i < j < |selectors|
        && Matches(rows[k], cluster, nss, selectors[i], at, prune) && Matches(rows[k], cluster, nss, selectors[j], at, prune);
      assert Matches(rows[k], cluster, nss, init[i], at, prune);
      assert j < n ==> Matches(rows[k], cluster, nss, init[j], at, prune);
    }
    if MatchesTwo(rows, cluster, nss, init, at, prune) {
      var k, i, j :| 0 <= k < |rows| && 0 <= i < j < |init|
        && Matches(rows[k], cluster, nss, init[i], at, prune) && Matches(rows[k], cluster, nss, init[j], at, prune);
      assert Matches(rows[k], cluster, nss, selectors[i], at, prune) && Matches(rows[k], cluster, nss, selectors[j], at, prune);
    }
    if k :| 0 <= k < |rows| && Matches(rows[k], cluster, nss, last, at, prune) && MatchesOne(rows[k], cluster, nss, init, at, prune) {
      var i :| 0 <= i < |init| && Matches(rows[k], cluster, nss, init[i], at, prune);
      assert Matches(rows[k], cluster, nss, selectors[i], at, prune) && Matches(rows[k], cluster, nss, selectors[n], at, prune);
    }
  }

  // Some Deployment row answers for two selectors of the Services on the address.
  ghost predicate SelectedTwice(t: Tables, cluster: string, ip: string, at: int, prune: bool) {
    var svcs := Fetch(t.services, ServesIP(cluster, ip), at, prune);
    MatchesTwo(t.deploys, cluster, Namespaces(svcs), Selectors(svcs), at, prune)
  }

  // Over tables with one row for each version, a load discards rows exactly
  // when some Deployment row answers for two of the selectors handed on.
  lemma {:induction false} UniqueCollapsesIff(t: Tables, cluster: string, destOf: Row<Vs> -> set<string>, ip: string, at: int, prune: bool)
    requires UniqueTables(t)
    ensures Collapsed(t, cluster, destOf, ip, at, prune) > 0 <==> SelectedTwice(t, cluster, ip, at, prune)
  {
    hide DiscardedBy, Deduped, DistinctSlots, DeployRows, MatchesTwo, Fetch, Namespaces, Selectors, LabelUnion, Refs, Dests, LiveDeploys,
      BoundVSes, FrontGateways;
    var svcs := Fetch(t.services, ServesIP(cluster, ip), at, prune);
    var nss, selectors := Namespaces(svcs), Selectors(svcs);
    var deps := LiveDeploys(t, cluster, nss, selectors, at, prune);
    var gws := FrontGateways(t, cluster, nss, deps, at, prune);
    var vses := BoundVSes(t, cluster, gws, at, prune);
    NothingDiscarded(t.services, ServesIP(cluster, ip), at, prune);
    NothingDiscarded(t.gateways, Fronts(cluster, nss, LabelUnion(deps)), at, prune);
    NothingDiscarded(t.vses, Binds(cluster, Refs(gws)), at, prune);
    NothingDiscarded(t.services, Backs(cluster, Dests(vses, destOf)), at, prune);
    if nss == [] || selectors == [] {
      NoneHandedOn(t.deploys, cluster, nss, selectors, at, prune);
    } else {
      var rows := DeployRows(t.deploys, cluster, nss, selectors, at, prune);
      DeployRowsDistinct(t.deploys, cluster, nss, selectors, at, prune);
      NothingCollapsesIff(rows);
    }
  }

  lemma NoneHandedOn(rows: seq<Row<Labels>>, cluster: string, nss: seq<string>, selectors: seq<seq<string>>, at: int, prune: bool)
    requires nss == [] || selectors == []
    ensures !MatchesTwo(rows, cluster, nss, selectors, at, prune)
  {
  }

  lemma {:induction false} FetchAll<P>(rows: seq<Row<P>>, p: Row<P> -> bool, at: int, prune: bool)
    requires DistinctSlots(rows) && forall i :: 0 <= i < |rows| ==> p(rows[i]) && LiveAt(rows[i], at)
    ensures Fetch(rows, p, at, prune) == rows
  {
    hide Deduped, DistinctSlots, Where, Live;
    AllWhere(rows, Asks(p, at, prune));
    NothingCollapsesIff(rows);
    AllLive(rows, at);
  }

  lemma {:induction false} AllWhere<P>(rows: seq<Row<P>>, p: Row<P> -> bool)
    requires forall i :: 0 <= i < |rows| ==> p(rows[i])
    ensures Where(rows, p) == rows
  {
    if rows != [] {
      AllWhere(rows[..|rows| - 1], p);
    }
  }

  lemma {:induction false} AllLive<P>(rows: seq<Row<P>>, at: int)
    requires forall i :: 0 <= i < |rows| ==> LiveAt(rows[i], at)
    ensures Live(rows, at) == rows
  {
    if rows != [] {
      AllLive(rows[..|rows| - 1], at);
    }
  }

  // The input: two live Services on one address, one Deployment that carries
  // both of their labels, and every version in one row.
  lemma {:induction false} TwoSelectorsCollapse(c: string, ns: string, ip: string, at: int, destOf: Row<Vs> -> set<string>, prune: bool)
    requires '\0' !in c && '\0' !in ns
    ensures var a := Row(c, ns, "a", at, at + 1, 0, Svc([ip], [], ["x"]));
            var b := Row(c, ns, "b", at, at + 1, 0, Svc([ip], [], ["y"]));
            var t := Tables([a, b], [Row(c, ns, "d", at, at + 1, 0, ["x", "y"])], [], []);
            UniqueTables(t) && Collapsed(t, c, destOf, ip, at, prune) > 0
  {
    hide SlotKey, Collapsed, Fetch;
    var a := Row(c, ns, "a", at, at + 1, 0, Svc([ip], [], ["x"]));
    var b := Row(c, ns, "b", at, at + 1, 0, Svc([ip], [], ["y"]));
    var d := Row(c, ns, "d", at, at + 1, 0, ["x", "y"]);
    var t := Tables([a, b], [d], [], []);
    SlotKeyInjective(a, b);
    assert UniqueTables(t);
    FetchAll(t.services, ServesIP(c, ip), at, prune);
    assert [a, b][..1] == [a] && [a][..0] == [];
    assert Namespaces([a]) == [ns] && Namespaces([a, b]) == [ns];
    assert Selectors([a]) == [["x"]];
    assert ["x"][0] != ["y"][0];
    assert Selectors([a, b]) == [["x"], ["y"]];
    var selectors := [["x"], ["y"]];
    assert Matches(t.deploys[0], c, [ns], selectors[0], at, prune) && Matches(t.deploys[0], c, [ns], selectors[1], at, prune);
    UniqueCollapsesIff(t, c, destOf, ip, at, prune);
  }
}
