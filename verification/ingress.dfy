// Which cluster, and which Service, an address enters by: two folds whose
// answers depend only on what was found, never on the order it came in.
module Ingress {
  import opened Common
  import opened VersionStore
  import opened RouteStore
  import opened RouteSnapshot

  // ---- the ingress cluster ----

  predicate IsDigit(c: char) {
    '0' <= c <= '9'
  }

  // Every run of digits becomes one zero.
  function FamilyFrom(name: string, inDigits: bool): string {
    if name == [] then []
    else if IsDigit(name[0]) then (if inDigits then [] else ['0']) + FamilyFrom(name[1..], true)
    else [name[0]] + FamilyFrom(name[1..], false)
  }

  function ClusterFamilyKey(name: string): string {
    FamilyFrom(name, false)
  }

  function SkipDigits(s: string): (r: string)
    ensures |r| <= |s|
  {
    if s != [] && IsDigit(s[0]) then SkipDigits(s[1..]) else s
  }

  // Equal but for the digits of their numbers, however many.
  predicate SameButNumbers(a: string, b: string)
    decreases |a|
  {
    if a == [] || b == [] then a == b
    else if '0' <= a[0] <= '9' && '0' <= b[0] <= '9' then SameButNumbers(SkipDigits(a[1..]), SkipDigits(b[1..]))
    else a[0] == b[0] && SameButNumbers(a[1..], b[1..])
  }

  lemma {:induction false} KeyInDigits(s: string)
    ensures FamilyFrom(s, true) == FamilyFrom(SkipDigits(s), false)
    ensures SkipDigits(s) != [] ==> !IsDigit(SkipDigits(s)[0])
  {
    if s != [] && IsDigit(s[0]) {
      KeyInDigits(s[1..]);
    }
  }

  // Two clusters are of one family exactly when their names differ in nothing
  // but numbers; the sentinel collides with no other name.
  lemma {:induction false} SameFamilyIff(a: string, b: string)
    ensures ClusterFamilyKey(a) == ClusterFamilyKey(b) <==> SameButNumbers(a, b)
    decreases |a|
  {
    var x, y := ClusterFamilyKey(a), ClusterFamilyKey(b);
    if a != [] && b != [] {
      KeyOpens(a);
      KeyOpens(b);
      if IsDigit(a[0]) && IsDigit(b[0]) {
        KeyInDigits(a[1..]);
        KeyInDigits(b[1..]);
        SameFamilyIff(SkipDigits(a[1..]), SkipDigits(b[1..]));
      } else if a[0] == b[0] {
        SameFamilyIff(a[1..], b[1..]);
      }
    } else {
      if a != [] { KeyOpens(a); }
      if b != [] { KeyOpens(b); }
    }
  }

  lemma KeyOpens(s: string)
    requires s != []
    ensures var key := ClusterFamilyKey(s);
            key == if IsDigit(s[0]) then ['0'] + FamilyFrom(s[1..], true) else [s[0]] + FamilyFrom(s[1..], false)
    ensures ClusterFamilyKey(s) != [] && ClusterFamilyKey(s)[0] == (if IsDigit(s[0]) then '0' else s[0])
    ensures ClusterFamilyKey(s)[1..] == FamilyFrom(s[1..], IsDigit(s[0]))
  {
  }

  datatype Pick = NoIngress | Ambiguous | Picked(cluster: string)

  ghost function Family(caller: string, g: set<string>): set<string> {
    set c | c in g && ClusterFamilyKey(c) == ClusterFamilyKey(caller)
  }

  ghost function Only(s: set<string>): string
    requires |s| == 1
  {
    var c :| c in s;
    c
  }

  // The precedence table over an address's candidate clusters g.
  ghost function PickOf(caller: string, g: set<string>): Pick {
    var f := Family(caller, g);
    if |f| == 1 then Picked(Only(f))
    else if |f| > 1 then (if caller in f then Picked(caller) else Ambiguous)
    else if |g| == 1 then Picked(Only(g))
    else if |g| > 1 then (if caller in g then Picked(caller) else Ambiguous)
    else NoIngress
  }

  method PickOneIP(caller: string, cands: seq<string>) returns (pick: Pick)
    ensures pick == PickOf(caller, SetOf(cands))
  {
    hide ClusterFamilyKey, PickOf, Family, SetOf;
    NoFamily(caller);
    var callerFamily := ClusterFamilyKey(caller);
    var seen: set<string> := {};
    var family: seq<string> := [];
    var callerInG, callerInF, total, only := false, false, 0, "";
    for i := 0 to |cands|
      invariant seen == SetOf(cands[..i])
      invariant total == |seen| && (total > 0 ==> only in seen)
      invariant SetOf(family) == Family(caller, seen) && |family| == |Family(caller, seen)|
      invariant callerInG == (caller in seen) && callerInF == (caller in Family(caller, seen))
    {
      var c := cands[i];
      assert cands[..i + 1] == cands[..i] + [c];
      SetOfMore(cands[..i], c);
      if c in seen {
        assert seen + {c} == seen;
        continue;
      }
      SetOfMore(family, c);
      FamilyMore(caller, seen, c);
      seen := seen + {c};
      total := total + 1;
      only := c;
      if c == caller {
        callerInG := true;
      }
      if ClusterFamilyKey(c) == callerFamily {
        family := family + [c];
        if c == caller {
          callerInF := true;
        }
      }
    }
    assert cands[..|cands|] == cands;
    PickTable(caller, seen, family, only);
    if total == 0 {
      return NoIngress;
    }
    if |family| == 1 {
      return Picked(family[0]);
    }
    if |family| > 1 {
      return if callerInF then Picked(caller) else Ambiguous;
    }
    if total == 1 {
      return Picked(only);
    }
    pick := if callerInG then Picked(caller) else Ambiguous;
  }

  lemma PickTable(caller: string, g: set<string>, family: seq<string>, only: string)
    requires SetOf(family) == Family(caller, g) && |family| == |Family(caller, g)| && (|g| > 0 ==> only in g)
    ensures PickOf(caller, g)
            == if |g| == 0 then NoIngress
               else if |family| == 1 then Picked(family[0])
               else if |family| > 1 then (if caller in Family(caller, g) then Picked(caller) else Ambiguous)
               else if |g| == 1 then Picked(only)
               else if caller in g then Picked(caller) else Ambiguous
  {
    hide ClusterFamilyKey, Only;
    if |g| == 0 { NoFamily(caller); }
    if |g| == 1 { OnlyIs(g, only); }
    if |family| == 1 {
      assert family[0] in SetOf(family);
      OnlyIs(Family(caller, g), family[0]);
    }
  }

  lemma SetOfMore(xs: seq<string>, x: string)
    ensures SetOf(xs + [x]) == SetOf(xs) + {x}
    ensures SetOf<string>([]) == {}
  {
    assert (xs + [x])[|xs|] == x;
  }

  lemma FamilyMore(caller: string, seen: set<string>, c: string)
    requires c !in seen
    ensures c !in Family(caller, seen)
    ensures Family(caller, seen + {c})
            == Family(caller, seen) + if ClusterFamilyKey(c) == ClusterFamilyKey(caller) then {c} else {}
  {
    hide ClusterFamilyKey;
  }

  lemma NoFamily(caller: string)
    ensures Family(caller, {}) == {} && SetOf<string>([]) == {}
  {
  }

  lemma OnlyIs(s: set<string>, x: string)
    requires |s| == 1 && x in s
    ensures Only(s) == x
  {
    var y := Only(s);
    assert |s - {x}| == 0;
    assert y in s - {x} || y == x;
  }

  // A caller that is a candidate is of its own family, so the table's last
  // tie-break is never reached.
  lemma LastTieBreakUnused(caller: string, g: set<string>)
    ensures Family(caller, g) == {} ==> caller !in g
  {
    hide ClusterFamilyKey;
    assert caller in g ==> caller in Family(caller, g);
  }

  // All addresses must agree on one cluster.
  ghost function Agreement(picks: set<Pick>): Pick {
    var clusters := set p | p in picks && p.Picked? :: p.cluster;
    if Ambiguous in picks then Ambiguous
    else if clusters == {} then NoIngress
    else if |clusters| > 1 || NoIngress in picks then Ambiguous
    else Picked(Only(clusters))
  }

  ghost function PicksOf(caller: string, perIP: seq<seq<string>>): set<Pick> {
    set i | 0 <= i < |perIP| :: PickOf(caller, SetOf(perIP[i]))
  }

  lemma AgreementCases(picks: set<Pick>, c: string)
    ensures Ambiguous in picks ==> Agreement(picks) == Ambiguous
    ensures (exists d :: d != c && Picked(d) in picks) && Picked(c) in picks ==> Agreement(picks) == Ambiguous
    ensures (forall d :: Picked(d) !in picks) && Ambiguous !in picks ==> Agreement(picks) == NoIngress
    ensures Picked(c) in picks && NoIngress in picks ==> Agreement(picks) == Ambiguous
    ensures Picked(c) in picks && NoIngress !in picks && Ambiguous !in picks && (forall d :: Picked(d) in picks ==> d == c)
            ==> Agreement(picks) == Picked(c)
  {
    hide Only;
    var clusters := set p | p in picks && p.Picked? :: p.cluster;
    assert forall d :: d in clusters <==> Picked(d) in picks;
    if Picked(c) in picks {
      if d :| d != c && Picked(d) in picks {
        assert {c, d} <= clusters && |{c, d}| == 2;
        SubsetSize({c, d}, clusters);
      }
      if forall d :: Picked(d) in picks ==> d == c {
        assert clusters == {c};
        OnlyIs(clusters, c);
      }
    }
  }

  lemma SubsetSize(a: set<string>, b: set<string>)
    requires a <= b
    ensures |a| <= |b|
  {
    assert b == a + (b - a);
  }

  method PickIngressCluster(caller: string, perIP: seq<seq<string>>) returns (pick: Pick)
    ensures pick == Agreement(PicksOf(caller, perIP))
  {
    hide PickOf, Agreement;
    var picked, anyPick, anyNone := "", false, false;
    for i := 0 to |perIP|
      invariant Ambiguous !in PicksOf(caller, perIP[..i])
      invariant anyNone == (NoIngress in PicksOf(caller, perIP[..i]))
      invariant forall c :: Picked(c) in PicksOf(caller, perIP[..i]) <==> anyPick && c == picked
    {
      PicksMore(caller, perIP, i);
      var one := PickOneIP(caller, perIP[i]);
      AgreementCases(PicksOf(caller, perIP), picked);
      match one
      case Ambiguous => return Ambiguous;
      case NoIngress => anyNone := true;
      case Picked(c) =>
        if anyPick && c != picked {
          return Ambiguous;
        }
        picked, anyPick := c, true;
    }
    assert perIP[..|perIP|] == perIP;
    AgreementCases(PicksOf(caller, perIP), picked);
    if !anyPick {
      return NoIngress;
    }
    if anyNone {
      return Ambiguous;
    }
    pick := Picked(picked);
  }

  lemma PicksMore(caller: string, perIP: seq<seq<string>>, i: nat)
    requires i < |perIP|
    ensures PicksOf(caller, perIP[..i + 1]) == PicksOf(caller, perIP[..i]) + {PickOf(caller, SetOf(perIP[i]))}
    ensures PicksOf(caller, perIP[..i + 1]) <= PicksOf(caller, perIP)
  {
    hide PickOf;
    var more := perIP[..i + 1];
    assert forall k :: 0 <= k < i ==> more[k] == perIP[..i][k];
    assert more[i] == perIP[i];
    forall p | p in PicksOf(caller, perIP[..i]) ensures p in PicksOf(caller, more) {
      var k :| 0 <= k < i && PickOf(caller, SetOf(perIP[..i][k])) == p;
      assert PickOf(caller, SetOf(more[k])) == p;
    }
    assert PickOf(caller, SetOf(more[i])) in PicksOf(caller, more);
    forall p | p in PicksOf(caller, more) ensures p in PicksOf(caller, perIP) {
      var k :| 0 <= k < |more| && PickOf(caller, SetOf(more[k])) == p;
      assert PickOf(caller, SetOf(perIP[k])) == p;
    }
  }

  // Every address of a has one in b with the same candidates.
  ghost predicate Matched(a: seq<seq<string>>, b: seq<seq<string>>) {
    forall i :: 0 <= i < |a| ==> exists j :: 0 <= j < |b| && SetOf(b[j]) == SetOf(a[i])
  }

  // Addresses in any order, however often, with their candidates in any order,
  // however often, pick alike.
  lemma {:induction false} PickIsOrderFree(caller: string, a: seq<seq<string>>, b: seq<seq<string>>)
    requires Matched(a, b) && Matched(b, a)
    ensures Agreement(PicksOf(caller, a)) == Agreement(PicksOf(caller, b))
  {
    hide PickOf, Agreement, SetOf, Matched, PicksOf;
    PicksWithin(caller, a, b);
    PicksWithin(caller, b, a);
    assert PicksOf(caller, a) == PicksOf(caller, b);
  }

  lemma {:induction false} PicksWithin(caller: string, a: seq<seq<string>>, b: seq<seq<string>>)
    requires Matched(a, b)
    ensures PicksOf(caller, a) <= PicksOf(caller, b)
  {
    hide PickOf, SetOf;
    forall p | p in PicksOf(caller, a) ensures p in PicksOf(caller, b) {
      var i :| 0 <= i < |a| && PickOf(caller, SetOf(a[i])) == p;
      var j :| 0 <= j < |b| && SetOf(b[j]) == SetOf(a[i]);
      assert PickOf(caller, SetOf(b[j])) == p;
    }
  }

  // ---- the ingress Service ----

  datatype Identity = Identity(ns: string, name: string)
  datatype Entry = Unique(id: Identity) | AmbiguousEntry | Incomplete

  function IdentitiesOf(rows: seq<Row<Svc>>): set<Identity> {
    set r | r in rows :: Identity(r.ns, r.name)
  }

  // A collision on one address outranks an address with no owner, which
  // outranks owners that disagree.
  ghost function EntryOf(perIP: set<set<Identity>>): Entry {
    if exists ids :: ids in perIP && |ids| > 1 then AmbiguousEntry
    else if perIP == {} || {} in perIP then Incomplete
    else if exists a, b :: a in perIP && b in perIP && a != b then AmbiguousEntry
    else
      var ids :| ids in perIP;
      var id :| id in ids;
      Unique(id)
  }

  ghost function PerIP(rows: seq<Row<Svc>>, ips: seq<string>, at: int): set<set<Identity>> {
    set i | 0 <= i < |ips| :: IdentitiesOf(OwnersOf(rows, ips[i], at))
  }

  method IngressServiceIdentity(rows: seq<Row<Svc>>, ips: seq<string>, at: int) returns (entry: Entry)
    ensures entry == EntryOf(PerIP(rows, ips, at))
  {
    hide OwnersOf, EntryOf, IdentitiesOf;
    var agreed := Identity("", "");
    var found, anyEmpty, disagree := false, false, false;
    for i := 0 to |ips|
      invariant forall ids :: ids in PerIP(rows, ips[..i], at) ==> ids == {} || exists id :: ids == {id}
      invariant anyEmpty == ({} in PerIP(rows, ips[..i], at))
      invariant found ==> {agreed} in PerIP(rows, ips[..i], at)
      invariant !found ==> forall id :: {id} !in PerIP(rows, ips[..i], at)
      invariant !disagree ==> forall id :: {id} in PerIP(rows, ips[..i], at) ==> id == agreed
      invariant disagree ==> exists a, b :: {a} in PerIP(rows, ips[..i], at) && {b} in PerIP(rows, ips[..i], at) && a != b
    {
      PerIPMore(rows, ips, i, at);
      var ids := IdentitiesOf(OwnersOf(rows, ips[i], at));
      if |ids| > 1 {
        CollisionIsAmbiguous(PerIP(rows, ips, at), ids);
        return AmbiguousEntry;
      }
      if |ids| == 0 {
        anyEmpty := true;
        continue;
      }
      var id :| id in ids;
      OneIdentity(ids, id);
      if found && id != agreed {
        disagree := true;
      }
      agreed, found := id, true;
    }
    assert ips[..|ips|] == ips;
    Conclude(PerIP(rows, ips, at), agreed, found, anyEmpty, disagree);
    if anyEmpty || !found {
      return Incomplete;
    }
    if disagree {
      return AmbiguousEntry;
    }
    entry := Unique(agreed);
  }

  lemma OneIdentity(ids: set<Identity>, id: Identity)
    requires id in ids && |ids| == 1
    ensures ids == {id}
  {
    assert |ids - {id}| == 0;
    assert ids == (ids - {id}) + {id};
  }

  lemma PerIPMore(rows: seq<Row<Svc>>, ips: seq<string>, i: nat, at: int)
    requires i < |ips|
    ensures PerIP(rows, ips[..i + 1], at) == PerIP(rows, ips[..i], at) + {IdentitiesOf(OwnersOf(rows, ips[i], at))}
    ensures IdentitiesOf(OwnersOf(rows, ips[i], at)) in PerIP(rows, ips, at)
  {
    hide OwnersOf, IdentitiesOf;
    var more := ips[..i + 1];
    assert more[i] == ips[i];
    forall ids | ids in PerIP(rows, ips[..i], at) ensures ids in PerIP(rows, more, at) {
      var k :| 0 <= k < i && IdentitiesOf(OwnersOf(rows, ips[..i][k], at)) == ids;
      assert more[k] == ips[..i][k];
    }
    forall ids | ids in PerIP(rows, more, at) ensures ids in PerIP(rows, ips[..i], at) + {IdentitiesOf(OwnersOf(rows, ips[i], at))} {
      var k :| 0 <= k < |more| && IdentitiesOf(OwnersOf(rows, more[k], at)) == ids;
      assert k < i ==> more[k] == ips[..i][k];
    }
  }

  lemma CollisionIsAmbiguous(perIP: set<set<Identity>>, ids: set<Identity>)
    requires ids in perIP && |ids| > 1
    ensures EntryOf(perIP) == AmbiguousEntry
  {
  }

  lemma Conclude(perIP: set<set<Identity>>, agreed: Identity, found: bool, anyEmpty: bool, disagree: bool)
    requires forall ids :: ids in perIP ==> ids == {} || exists id :: ids == {id}
    requires anyEmpty == ({} in perIP)
    requires found ==> {agreed} in perIP
    requires !found ==> forall id :: {id} !in perIP
    requires !disagree ==> forall id :: {id} in perIP ==> id == agreed
    requires disagree ==> exists a, b :: {a} in perIP && {b} in perIP && a != b
    ensures EntryOf(perIP)
            == if anyEmpty || !found then Incomplete else if disagree then AmbiguousEntry else Unique(agreed)
  {
    forall ids | ids in perIP ensures |ids| <= 1 {
      if ids != {} {
        var id :| ids == {id};
      }
    }
    if !anyEmpty && !found {
      assert perIP == {};
    }
    if !anyEmpty && found && disagree {
      var a, b :| {a} in perIP && {b} in perIP && a != b;
      assert a in {a} && a !in {b};
    }
    if !anyEmpty && found && !disagree {
      forall ids | ids in perIP ensures ids == {agreed} {
        var id :| ids == {id};
      }
    }
  }

  // The addresses in any order, however often, name the same Service.
  lemma {:induction false} EntryIsOrderFree(rows: seq<Row<Svc>>, a: seq<string>, b: seq<string>, at: int)
    requires forall ip :: ip in a <==> ip in b
    ensures EntryOf(PerIP(rows, a, at)) == EntryOf(PerIP(rows, b, at))
  {
    hide OwnersOf, EntryOf, IdentitiesOf;
    PerIPWithin(rows, a, b, at);
    PerIPWithin(rows, b, a, at);
    assert PerIP(rows, a, at) == PerIP(rows, b, at);
  }

  lemma {:induction false} PerIPWithin(rows: seq<Row<Svc>>, a: seq<string>, b: seq<string>, at: int)
    requires forall ip :: ip in a ==> ip in b
    ensures PerIP(rows, a, at) <= PerIP(rows, b, at)
  {
    hide OwnersOf, IdentitiesOf;
    forall ids | ids in PerIP(rows, a, at) ensures ids in PerIP(rows, b, at) {
      var i :| 0 <= i < |a| && IdentitiesOf(OwnersOf(rows, a[i], at)) == ids;
      assert a[i] in b;
      var j :| 0 <= j < |b| && b[j] == a[i];
    }
  }
}
