// Choosing the gateway, or the server, whose host pattern serves a request
// host most specifically.
module GatewayResolve {
  import opened Ordering
  import opened StringOrder

  datatype Gateway = Gateway(name: string, hosts: seq<string>)

  datatype Pat = Pat(gw: string, pattern: string, score: int, idx: int)

  predicate IsWild(p: string) {
    p != [] && p[0] == '*'
  }

  // An exact name outranks any wildcard; a longer suffix outranks a shorter.
  function Specificity(p: string): int {
    if IsWild(p) then |p| else |p| + 1_000_000
  }

  function CutAt(h: string, c: char): (i: nat)
    ensures i <= |h|
    ensures i < |h| ==> h[i] == c
  {
    if h == [] || h[0] == c then 0 else 1 + CutAt(h[1..], c)
  }

  // The binding prefix before the first slash says who may bind, not who is served.
  function SanitizeServerHost(h: string): string {
    var i := CutAt(h, '/');
    if i < |h| then h[i + 1..] else h
  }

  predicate HasSuffix(s: string, suffix: string) {
    |suffix| <= |s| && s[|s| - |suffix|..] == suffix
  }

  // Two names, either of which may be a wildcard, match when one covers the other.
  predicate HostMatches(p: string, h: string) {
    if IsWild(p) && IsWild(h) then
      if |p| < |h| then HasSuffix(h[1..], p[1..]) else HasSuffix(p[1..], h[1..])
    else if IsWild(p) then HasSuffix(h, p[1..])
    else if IsWild(h) then HasSuffix(p, h[1..])
    else p == h
  }

  // ---- the order of patterns ----

  predicate IntLess(a: int, b: int) {
    a < b
  }

  predicate GwIdxLess(a: (string, int), b: (string, int)) {
    PairLess(Less, IntLess, a, b)
  }

  predicate NameLess(a: (string, (string, int)), b: (string, (string, int))) {
    PairLess(Less, GwIdxLess, a, b)
  }

  predicate RankLess(a: (int, (string, (string, int))), b: (int, (string, (string, int)))) {
    PairLess(IntLess, NameLess, a, b)
  }

  function Key(p: Pat): (int, (string, (string, int))) {
    (-p.score, (p.pattern, (p.gw, p.idx)))
  }

  // Most specific first, then pattern, then gateway name, then declaration.
  predicate PatLess(a: Pat, b: Pat) {
    RankLess(Key(a), Key(b))
  }

  lemma PatLessIsTotal()
    ensures TotalOrder(PatLess)
  {
    hide Less, TotalOrder;
    LessIsTotal();
    assert TotalOrder(IntLess) by { IntLessIsTotal(); }
    PairIsTotal(Less, IntLess, GwIdxLess);
    PairIsTotal(Less, GwIdxLess, NameLess);
    PairIsTotal(IntLess, NameLess, RankLess);
    KeyedIsTotal();
  }

  lemma IntLessIsTotal()
    ensures TotalOrder(IntLess)
  {
  }

  lemma KeyedIsTotal()
    requires TotalOrder(RankLess)
    ensures TotalOrder(PatLess)
  {
    hide RankLess;
    assert forall a, b :: Key(a) == Key(b) ==> a == b;
  }

  function PatOf(key: string, idx: int, host: string): Pat {
    var p := SanitizeServerHost(host);
    Pat(key, p, Specificity(p), idx)
  }

  function NewPats(key: string, idx: int, hosts: seq<string>): (pats: seq<Pat>)
    ensures |pats| == |hosts|
  {
    seq(|hosts|, i requires 0 <= i < |hosts| => PatOf(key, idx, hosts[i]))
  }

  function GatewayPats(gws: seq<Gateway>): seq<Pat> {
    if gws == [] then [] else GatewayPats(gws[..|gws| - 1]) + NewPats(gws[|gws| - 1].name, 0, gws[|gws| - 1].hosts)
  }

  function SetPats(hostSets: seq<seq<string>>): seq<Pat> {
    if hostSets == [] then [] else SetPats(hostSets[..|hostSets| - 1]) + NewPats("", |hostSets| - 1, hostSets[|hostSets| - 1])
  }

  // A repeated row changes no first match, so sorting also compacts.
  function SortPats(pats: seq<Pat>): seq<Pat> {
    SortUnique(pats, PatLess)
  }

  predicate Serves(p: Pat, host: string, allow: set<string>) {
    p.gw in allow && HostMatches(p.pattern, host)
  }

  // The first pattern of an allowed gateway that matches.
  function FirstMatch(pats: seq<Pat>, host: string, allow: set<string>): (found: seq<Pat>)
    ensures |found| <= 1
    ensures found != [] ==> found[0] in pats && Serves(found[0], host, allow)
    ensures found == [] ==> forall p :: p in pats ==> !Serves(p, host, allow)
  {
    if pats == [] then []
    else if Serves(pats[0], host, allow) then [pats[0]]
    else FirstMatch(pats[1..], host, allow)
  }

  method ResolveAmong(gws: seq<Gateway>, host: string, candidates: seq<string>) returns (found: bool, gw: string)
    ensures var first := FirstMatch(SortPats(GatewayPats(gws)), host, set c | c in candidates);
            found == (first != []) && (found ==> gw == first[0].gw)
    ensures Scored(GatewayPats(gws))
  {
    hide SortPats, GatewayPats, HostMatches;
    GatewayPatsScored(gws);
    if |candidates| == 0 {
      NobodyAllowed(SortPats(GatewayPats(gws)), host);
      return false, "";
    }
    var allow := set c | c in candidates;
    var pats := SortPats(GatewayPats(gws));
    assert pats[0..] == pats;
    for i := 0 to |pats|
      invariant FirstMatch(pats[i..], host, allow) == FirstMatch(pats, host, allow)
    {
      var p := pats[i];
      assert pats[i..][1..] == pats[i + 1..];
      if p.gw !in allow {
        continue;
      }
      if HostMatches(p.pattern, host) {
        return true, p.gw;
      }
    }
    return false, "";
  }

  lemma {:induction false} NobodyAllowed(pats: seq<Pat>, host: string)
    ensures FirstMatch(pats, host, {}) == []
  {
    hide HostMatches;
  }

  method PickHosts(hostSets: seq<seq<string>>, host: string) returns (found: bool, idx: int)
    ensures var first := FirstMatch(SortPats(SetPats(hostSets)), host, {""});
            found == (first != []) && (found ==> idx == first[0].idx)
    ensures Scored(SetPats(hostSets))
  {
    hide SortPats, HostMatches, NewPats;
    SetPatsScored(hostSets);
    var pats: seq<Pat> := [];
    for i := 0 to |hostSets|
      invariant pats == SetPats(hostSets[..i])
    {
      assert hostSets[..i + 1][..i] == hostSets[..i];
      pats := pats + NewPats("", i, hostSets[i]);
    }
    assert hostSets[..|hostSets|] == hostSets;
    var sorted := SortPats(pats);
    AllSetPats(hostSets);
    SortedMembers(pats);
    assert sorted[0..] == sorted;
    for i := 0 to |sorted|
      invariant FirstMatch(sorted[i..], host, {""}) == FirstMatch(sorted, host, {""})
    {
      assert sorted[i..][1..] == sorted[i + 1..];
      assert sorted[i] in sorted;
      if HostMatches(sorted[i].pattern, host) {
        return true, sorted[i].idx;
      }
    }
    return false, 0;
  }

  lemma {:induction false} AllSetPats(hostSets: seq<seq<string>>)
    ensures forall p :: p in SetPats(hostSets) ==> p.gw == ""
  {
    if hostSets != [] {
      AllSetPats(hostSets[..|hostSets| - 1]);
    }
  }

  lemma {:induction false} SortedMembers(pats: seq<Pat>)
    ensures forall p :: p in SortPats(pats) <==> p in pats
    ensures Sorted(SortPats(pats), PatLess)
  {
    hide SortUnique, PatLess, TotalOrder, Sorted;
    PatLessIsTotal();
    SortUniqueOf(pats, PatLess);
  }

  // ---- the choice ----

  // Scanning the sorted list finds the least of all that serve.
  lemma {:induction false} FirstIsLeast(s: seq<Pat>, host: string, allow: set<string>, q: Pat)
    requires Sorted(s, PatLess) && q in s && Serves(q, host, allow)
    ensures FirstMatch(s, host, allow) != []
    ensures FirstMatch(s, host, allow)[0] == q || PatLess(FirstMatch(s, host, allow)[0], q)
  {
    hide PatLess, Serves;
    if !Serves(s[0], host, allow) {
      assert s == [s[0]] + s[1..];
      FirstIsLeast(s[1..], host, allow, q);
    } else {
      var i :| 0 <= i < |s| && s[i] == q;
      assert i > 0 ==> PatLess(s[0], s[i]);
    }
  }

  // Made by NewPats, so scored by its own pattern.
  ghost predicate Scored(pats: seq<Pat>) {
    forall p :: p in pats ==> p.score == Specificity(p.pattern)
  }

  lemma {:induction false} GatewayPatsScored(gws: seq<Gateway>)
    ensures Scored(GatewayPats(gws))
  {
    if gws != [] {
      GatewayPatsScored(gws[..|gws| - 1]);
    }
  }

  lemma {:induction false} SetPatsScored(hostSets: seq<seq<string>>)
    ensures Scored(SetPats(hostSets))
  {
    if hostSets != [] {
      SetPatsScored(hostSets[..|hostSets| - 1]);
    }
  }

  lemma DropDrop(s: string, i: nat, j: nat)
    requires i + j <= |s|
    ensures s[i..][j..] == s[i + j..]
  {
  }

  lemma SuffixTransitive(x: string, a: string, b: string)
    requires HasSuffix(x, a) && HasSuffix(a, b)
    ensures HasSuffix(x, b)
  {
    DropDrop(x, |x| - |a|, |a| - |b|);
  }

  lemma SuffixesNest(h: string, a: string, b: string)
    requires HasSuffix(h, a) && HasSuffix(h, b) && |b| <= |a|
    ensures HasSuffix(a, b)
  {
    DropDrop(h, |h| - |a|, |a| - |b|);
  }

  // Of two patterns that match one host, the higher-ranked covers no host the
  // other does not.
  lemma {:induction false} HigherIsNarrower(p: string, q: string, h: string, x: string)
    requires !IsWild(h) && !IsWild(x) && HostMatches(p, h) && HostMatches(q, h)
    requires Specificity(p) >= Specificity(q)
    requires HostMatches(p, x)
    ensures HostMatches(q, x)
  {
    if IsWild(p) {
      if IsWild(q) {
        SuffixesNest(h, p[1..], q[1..]);
        SuffixTransitive(x, p[1..], q[1..]);
      }
    }
  }

  // Of the patterns of gateways, or of server host sets, the chosen one serves
  // the host, and the hosts it covers are covered by every other candidate's
  // matching pattern.
  lemma {:induction false} ChoiceIsMostSpecific(pats: seq<Pat>, host: string, allow: set<string>, q: Pat, x: string)
    requires Scored(pats) && !IsWild(host) && !IsWild(x)
    requires q in pats && Serves(q, host, allow)
    ensures var first := FirstMatch(SortPats(pats), host, allow);
            first != [] && (HostMatches(first[0].pattern, x) ==> HostMatches(q.pattern, x))
  {
    hide SortPats, HostMatches, Specificity, Less;
    SortedMembers(pats);
    FirstIsLeast(SortPats(pats), host, allow, q);
    var p := FirstMatch(SortPats(pats), host, allow)[0];
    assert p in pats && p.score >= q.score;
    if HostMatches(p.pattern, x) {
      HigherIsNarrower(p.pattern, q.pattern, host, x);
    }
  }

  // Equally specific matching patterns are the same pattern; the smaller
  // gateway name is chosen, and of one name's sets the first declared.
  lemma {:induction false} TieGoesToName(pats: seq<Pat>, host: string, allow: set<string>, q: Pat)
    requires Scored(pats) && !IsWild(host) && q in pats && Serves(q, host, allow)
    ensures var first := FirstMatch(SortPats(pats), host, allow);
            first != [] && (first[0].score == q.score ==>
              && first[0].pattern == q.pattern
              && (Less(first[0].gw, q.gw) || (first[0].gw == q.gw && first[0].idx <= q.idx)))
  {
    hide SortPats, Less;
    SortedMembers(pats);
    FirstIsLeast(SortPats(pats), host, allow, q);
    var p := FirstMatch(SortPats(pats), host, allow)[0];
    assert p in pats;
    if p.score == q.score {
      SameScoreSamePattern(p.pattern, q.pattern, host);
      LessIsTotal();
    }
  }

  lemma {:induction false} SameScoreSamePattern(p: string, q: string, h: string)
    requires !IsWild(h) && HostMatches(p, h) && HostMatches(q, h)
    requires Specificity(p) == Specificity(q) && IsWild(p) == IsWild(q)
    ensures p == q
  {
    if IsWild(p) {
      assert p[1..] == q[1..];
      assert p == [p[0]] + p[1..] && q == [q[0]] + q[1..];
    }
  }

  // ---- declaration order ----

  // Some gateway of that name declares the host.
  ghost predicate Declares(gws: seq<Gateway>, name: string, host: string) {
    exists i :: 0 <= i < |gws| && gws[i].name == name && host in gws[i].hosts
  }

  // Every name declares the same hosts, whatever the order or repetition.
  ghost predicate SameGateways(a: seq<Gateway>, b: seq<Gateway>) {
    forall name, host :: Declares(a, name, host) <==> Declares(b, name, host)
  }

  lemma {:induction false} DeclaresMore(gws: seq<Gateway>, gw: Gateway, name: string, host: string)
    ensures Declares(gws + [gw], name, host) <==> Declares(gws, name, host) || (gw.name == name && host in gw.hosts)
  {
    var more := gws + [gw];
    assert more[|gws|] == gw;
    assert forall i :: 0 <= i < |gws| ==> more[i] == gws[i];
  }

  lemma NewPatsMembers(key: string, idx: int, hosts: seq<string>, p: Pat)
    ensures p in NewPats(key, idx, hosts) <==> exists h :: h in hosts && p == PatOf(key, idx, h)
  {
    hide PatOf;
    var pats := NewPats(key, idx, hosts);
    if p in pats {
      var i :| 0 <= i < |pats| && pats[i] == p;
      assert hosts[i] in hosts && p == PatOf(key, idx, hosts[i]);
    }
    if h :| h in hosts && p == PatOf(key, idx, h) {
      var i :| 0 <= i < |hosts| && hosts[i] == h;
      assert pats[i] == p;
    }
  }

  // The rows built are those of the declared hosts, and of nothing else.
  lemma {:induction false} GatewayPatsMembers(gws: seq<Gateway>, p: Pat)
    ensures p in GatewayPats(gws) <==> exists h :: Declares(gws, p.gw, h) && p == PatOf(p.gw, 0, h)
  {
    hide Declares, NewPats, PatOf;
    if gws == [] {
      NothingDeclared();
    } else {
      var init, gw := gws[..|gws| - 1], gws[|gws| - 1];
      assert gws == init + [gw];
      GatewayPatsMembers(init, p);
      NewPatsMembers(gw.name, 0, gw.hosts, p);
      forall h ensures Declares(gws, p.gw, h) <==> Declares(init, p.gw, h) || (gw.name == p.gw && h in gw.hosts) {
        DeclaresMore(init, gw, p.gw, h);
      }
      PatNamed(gw.name, 0);
    }
  }

  lemma NothingDeclared()
    ensures forall name, host :: !Declares([], name, host)
  {
  }

  lemma PatNamed(key: string, idx: int)
    ensures forall h :: PatOf(key, idx, h).gw == key
  {
  }

  // The order in which gateways and their hosts are declared, and stating one
  // twice, make no difference to the choice.
  lemma {:induction false} DeclarationOrderFree(a: seq<Gateway>, b: seq<Gateway>, host: string, allow: set<string>)
    requires SameGateways(a, b)
    ensures FirstMatch(SortPats(GatewayPats(a)), host, allow) == FirstMatch(SortPats(GatewayPats(b)), host, allow)
  {
    hide GatewayPats, PatLess, SortUnique, TotalOrder, Declares, PatOf;
    forall p ensures p in GatewayPats(a) <==> p in GatewayPats(b) {
      GatewayPatsMembers(a, p);
      GatewayPatsMembers(b, p);
    }
    PatLessIsTotal();
    SortUniqueSame(GatewayPats(a), GatewayPats(b), PatLess);
  }

  // Gateways merely listed in another order declare the same.
  lemma {:induction false} ReorderedDeclareSame(a: seq<Gateway>, b: seq<Gateway>)
    requires multiset(a) == multiset(b)
    ensures SameGateways(a, b)
  {
    forall name, host ensures Declares(a, name, host) <==> Declares(b, name, host) {
      if Declares(a, name, host) { DeclaredIn(a, b, name, host); }
      if Declares(b, name, host) { DeclaredIn(b, a, name, host); }
    }
  }

  lemma DeclaredIn(a: seq<Gateway>, b: seq<Gateway>, name: string, host: string)
    requires multiset(a) == multiset(b) && Declares(a, name, host)
    ensures Declares(b, name, host)
  {
    var i :| 0 <= i < |a| && a[i].name == name && host in a[i].hosts;
    assert a[i] in multiset(a);
    assert a[i] in b;
  }

  // ---- what the helpers mean ----

  // Whatever stands before the first slash is dropped, and nothing else.
  lemma {:induction false} SanitizeIs(binding: string, host: string)
    requires '/' !in binding
    ensures SanitizeServerHost(binding + "/" + host) == host
    ensures SanitizeServerHost(binding) == binding
  {
    CutAfter(binding, "/" + host);
    CutAfter(binding, "");
    assert binding + ("/" + host) == binding + "/" + host;
    assert (binding + "/" + host)[|binding| + 1..] == host;
    assert binding + "" == binding;
  }

  lemma {:induction false} CutAfter(a: string, rest: string)
    requires '/' !in a && (rest == "" || rest[0] == '/')
    ensures CutAt(a + rest, '/') == |a|
  {
    if a == [] {
      assert a + rest == rest;
    } else {
      assert (a + rest)[1..] == a[1..] + rest;
      CutAfter(a[1..], rest);
    }
  }

  // A plain host is matched by its own name and by a wildcard over any suffix
  // of it, and by no other pattern.
  lemma {:induction false} MatchesPlainHost(p: string, host: string)
    requires !IsWild(host)
    ensures HostMatches(p, host) <==> p == host || (exists i :: 0 <= i <= |host| && p == "*" + host[i..])
  {
    if IsWild(p) && HasSuffix(host, p[1..]) {
      var i := |host| - (|p| - 1);
      assert p == "*" + host[i..];
    }
    if i :| 0 <= i <= |host| && p == "*" + host[i..] {
      assert p[1..] == host[i..];
    }
    if p == host {
      assert !IsWild(p);
    }
  }

  // A plain pattern is matched by a wildcard host over any suffix of it.
  lemma {:induction false} MatchesPlainPattern(p: string, suffix: string)
    requires !IsWild(p)
    ensures HostMatches(p, "*" + suffix) <==> exists i :: 0 <= i <= |p| && suffix == p[i..]
  {
    assert ("*" + suffix)[1..] == suffix;
    if HasSuffix(p, suffix) { assert suffix == p[|p| - |suffix|..]; }
  }

  // Two wildcards match when one suffix ends in the other.
  lemma MatchesWildHost(a: string, b: string)
    ensures HostMatches("*" + a, "*" + b) <==>
              (exists i :: 0 <= i <= |b| && a == b[i..]) || (exists i :: 0 <= i <= |a| && b == a[i..])
  {
    assert ("*" + a)[1..] == a && ("*" + b)[1..] == b;
    if HasSuffix(b, a) { assert a == b[|b| - |a|..]; }
    if HasSuffix(a, b) { assert b == a[|a| - |b|..]; }
    if i :| 0 <= i <= |b| && a == b[i..] { assert HasSuffix(b, a); }
    if i :| 0 <= i <= |a| && b == a[i..] { assert HasSuffix(a, b); }
  }

  // An exact name outranks every wildcard short of a million characters, and of
  // two wildcards the longer outranks the shorter.
  lemma ExactOutranks(exact: string, a: string, b: string)
    requires !IsWild(exact) && |a| < 1_000_000
    ensures Specificity("*" + a) <= Specificity(exact)
    ensures |b| < |a| ==> Specificity("*" + b) < Specificity("*" + a)
    ensures exact != "" ==> Specificity("*" + a) < Specificity(exact)
  {
  }
}
