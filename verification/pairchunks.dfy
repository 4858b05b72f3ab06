// Reading many namespaced objects through a few queries: each query restricts
// namespace and name by two independent alternations, and the rows of cross
// pairs are dropped afterwards.
module PairChunks {
  import opened Common
  import opened GreedySplits
  import opened Ordering
  import opened StringOrder
  import opened Matchers
  import opened Selectors
  import opened ScopeChunks

  // (namespace, name)
  type NamePair = (string, string)
  type Series = map<string, string>

  predicate NamePairLess(a: NamePair, b: NamePair) {
    PairLess(Less, Less, a, b)
  }

  lemma NamePairLessIsTotal()
    ensures TotalOrder(NamePairLess)
  {
    hide Less, TotalOrder;
    LessIsTotal();
    PairIsTotal(Less, Less, NamePairLess);
  }

  predicate Usable(p: NamePair) {
    p.0 != "" && p.1 != ""
  }

  function UsableOf(pairs: seq<NamePair>): seq<NamePair> {
    if pairs == [] then []
    else
      var before, last := UsableOf(pairs[..|pairs| - 1]), pairs[|pairs| - 1];
      if Usable(last) then before + [last] else before
  }

  function SortedNamePairs(pairs: seq<NamePair>): seq<NamePair> {
    SortUnique(UsableOf(pairs), NamePairLess)
  }

  lemma {:induction false} UsableMembers(pairs: seq<NamePair>)
    ensures forall p :: p in UsableOf(pairs) <==> p in pairs && Usable(p)
  {
    if pairs != [] {
      UsableMembers(pairs[..|pairs| - 1]);
      assert pairs == pairs[..|pairs| - 1] + [pairs[|pairs| - 1]];
    }
  }

  lemma {:induction false} SortedPairsMembers(pairs: seq<NamePair>)
    ensures forall p :: p in SortedNamePairs(pairs) <==> p in pairs && Usable(p)
    ensures NoRepeats(SortedNamePairs(pairs))
  {
    hide NamePairLess, SortUnique, UsableOf, Usable;
    UsableMembers(pairs);
    NamePairLessIsTotal();
    SortUniqueOf(UsableOf(pairs), NamePairLess);
    SortedHasNoRepeats(SortedNamePairs(pairs));
  }

  lemma SortedHasNoRepeats(s: seq<NamePair>)
    requires TotalOrder(NamePairLess) && Sorted(s, NamePairLess)
    ensures NoRepeats(s)
  {
    hide NamePairLess;
    forall i, j | 0 <= i < j < |s| ensures s[i] != s[j] {
      assert NamePairLess(s[i], s[j]);
    }
  }

  // The same pairs in any order, repeated or beside unusable ones, chunk alike.
  lemma {:induction false} SortedPairsSame(a: seq<NamePair>, b: seq<NamePair>)
    requires forall p :: Usable(p) ==> (p in a <==> p in b)
    ensures SortedNamePairs(a) == SortedNamePairs(b)
  {
    hide NamePairLess, SortUnique, UsableOf, Usable;
    UsableMembers(a);
    UsableMembers(b);
    NamePairLessIsTotal();
    SortUniqueSame(UsableOf(a), UsableOf(b), NamePairLess);
  }

  // ---- the cost of a chunk ----

  function NamespacesOf(chunk: seq<NamePair>): seq<string> {
    if chunk == [] then [] else AddNew(NamespacesOf(chunk[..|chunk| - 1]), chunk[|chunk| - 1].0)
  }

  function NamesOf(chunk: seq<NamePair>): seq<string> {
    if chunk == [] then [] else AddNew(NamesOf(chunk[..|chunk| - 1]), chunk[|chunk| - 1].1)
  }

  const PLAIN: Bounds := Bounds(0, 0, 0)

  // namespace=~"…",<label>=~"…" without the two alternations.
  function Wrapper(name: string): nat {
    |"namespace"| + 4 + 1 + |name| + 4
  }

  function PairCost(chunk: seq<NamePair>, name: string): nat {
    Wrapper(name) + ChunkCost(NamespacesOf(chunk), PLAIN) + ChunkCost(NamesOf(chunk), PLAIN)
  }

  // Each side's alternatives are counted apart, and one pair is never dropped.
  predicate PairsFit(chunk: seq<NamePair>, name: string, budget: int) {
    && (|chunk| > 1 && budget > 0 ==> PairCost(chunk, name) <= budget)
    && |NamespacesOf(chunk)| <= MAX_ALTERNATION_VALUES && |NamesOf(chunk)| <= MAX_ALTERNATION_VALUES
  }

  function PairsFitting(name: string, budget: int): seq<NamePair> -> bool {
    chunk => PairsFit(chunk, name, budget)
  }

  function ValueCost(v: string, n: nat): nat {
    Base(v, PLAIN) + if n > 0 then 1 else 0
  }

  function AddCost(xs: seq<string>, v: string): nat {
    if v in xs then 0 else ValueCost(v, |xs|)
  }

  lemma {:induction false} CostOfNew(xs: seq<string>, v: string)
    ensures ChunkCost(AddNew(xs, v), PLAIN) == ChunkCost(xs, PLAIN) + AddCost(xs, v)
  {
    hide ChunkCost, Base;
    CostOfMore(xs, v, PLAIN);
  }

  lemma {:induction false} CostOfPair(chunk: seq<NamePair>, p: NamePair, name: string)
    ensures NamespacesOf(chunk + [p]) == AddNew(NamespacesOf(chunk), p.0)
    ensures NamesOf(chunk + [p]) == AddNew(NamesOf(chunk), p.1)
    ensures PairCost(chunk + [p], name)
            == PairCost(chunk, name) + AddCost(NamespacesOf(chunk), p.0) + AddCost(NamesOf(chunk), p.1)
  {
    hide ChunkCost, Base, AddCost;
    assert (chunk + [p])[..|chunk|] == chunk;
    CostOfNew(NamespacesOf(chunk), p.0);
    CostOfNew(NamesOf(chunk), p.1);
  }

  lemma OnePairFits(p: NamePair, name: string, budget: int)
    ensures PairsFit([p], name, budget) && NamespacesOf([p]) == [p.0] && NamesOf([p]) == [p.1]
    ensures PairCost([], name) == Wrapper(name) && NamespacesOf([]) == [] && NamesOf([]) == []
    ensures PairCost([p], name) == Wrapper(name) + ValueCost(p.0, 0) + ValueCost(p.1, 0)
  {
    hide Base;
    CostOfPair([], p, name);
    assert [] + [p] == [p];
  }

  method ChunkNamePairs(pairs: seq<NamePair>, name: string, budget: int) returns (chunks: seq<seq<NamePair>>)
    ensures Flatten(chunks) == SortedNamePairs(pairs)
    ensures AllFit(chunks, PairsFitting(name, budget)) && NoneEmpty(chunks) && Tight(chunks, PairsFitting(name, budget))
  {
    hide PairsFit, PairCost, ValueCost, SortedNamePairs, NamespacesOf, NamesOf, Tight;
    var sorted := SortedNamePairs(pairs);
    ghost var fits := PairsFitting(name, budget);
    chunks := [];
    if |sorted| == 0 {
      OneTight<NamePair>([], fits);
      return;
    }
    var cur: seq<NamePair> := [];
    var namespaces: seq<string> := [];
    var names: seq<string> := [];
    var used := Wrapper(name);
    OnePairFits(sorted[0], name, budget);
    OneTight([sorted[0]], fits);
    for i := 0 to |sorted|
      invariant Flatten(chunks) + cur == sorted[..i]
      invariant AllFit(chunks, fits)
      invariant NoneEmpty(chunks)
      invariant namespaces == NamespacesOf(cur) && names == NamesOf(cur) && used == PairCost(cur, name)
      invariant cur == [] <==> i == 0
      invariant i == 0 ==> chunks == []
      invariant i > 0 ==> PairsFit(cur, name, budget) && Tight(chunks + [cur], fits)
    {
      var p := sorted[i];
      var add := 0;
      if p.0 !in namespaces {
        add := add + ValueCost(p.0, |namespaces|);
      }
      if p.1 !in names {
        add := add + ValueCost(p.1, |names|);
      }
      var overCount :=
        || (p.0 !in namespaces && |namespaces| >= MAX_ALTERNATION_VALUES)
        || (p.1 !in names && |names| >= MAX_ALTERNATION_VALUES);
      CostOfPair(cur, p, name);
      OnePairFits(p, name, budget);
      FlattenMore(chunks, cur);
      assert sorted[..i + 1] == sorted[..i] + [p];
      FitsWithMore(cur, p, name, budget, add);
      if |cur| > 0 {
        TightMore(chunks, cur, p, fits);
      }
      if |cur| > 0 && ((budget > 0 && used + add > budget) || overCount) {
        chunks := chunks + [cur];
        cur, namespaces, names, used := [], [], [], Wrapper(name);
        add := ValueCost(p.0, 0) + ValueCost(p.1, 0);
      }
      assert [] + [p] == [p];
      assert chunks == [] ==> chunks + [[p]] == [[p]];
      namespaces := AddNew(namespaces, p.0);
      names := AddNew(names, p.1);
      cur := cur + [p];
      used := used + add;
    }
    FlattenMore(chunks, cur);
    assert sorted[..|sorted|] == sorted;
    chunks := chunks + [cur];
  }

  // The pass's own test decides exactly whether the pair still fits.
  lemma {:induction false} FitsWithMore(cur: seq<NamePair>, p: NamePair, name: string, budget: int, add: nat)
    requires cur != [] ==> PairsFit(cur, name, budget)
    requires add == AddCost(NamespacesOf(cur), p.0) + AddCost(NamesOf(cur), p.1)
    ensures PairsFit(cur + [p], name, budget) <==>
              cur == []
              || (&& !(budget > 0 && PairCost(cur, name) + add > budget)
                  && !(p.0 !in NamespacesOf(cur) && |NamespacesOf(cur)| >= MAX_ALTERNATION_VALUES)
                  && !(p.1 !in NamesOf(cur) && |NamesOf(cur)| >= MAX_ALTERNATION_VALUES))
  {
    hide PairCost, AddCost, NamespacesOf, NamesOf;
    CostOfPair(cur, p, name);
    OnePairFits(p, name, budget);
    assert cur == [] ==> cur + [p] == [p];
  }

  // ---- a cost does not depend on order ----

  function WithoutAt(s: seq<string>, i: nat): (r: seq<string>)
    requires i < |s|
    ensures |r| == |s| - 1
  {
    s[..i] + s[i + 1..]
  }

  lemma {:induction false} CostWithout(s: seq<string>, i: nat)
    requires i < |s|
    ensures ChunkCost(s, PLAIN)
            == ChunkCost(WithoutAt(s, i), PLAIN) + Base(s[i], PLAIN) + if WithoutAt(s, i) != [] then 1 else 0
  {
    hide Base, ChunkCost;
    var before, after := s[..i], s[i + 1..];
    assert s == before + ([s[i]] + after);
    CostOfAppend([s[i]], after, PLAIN);
    CostOfAppend(before, [s[i]] + after, PLAIN);
    CostOfAppend(before, after, PLAIN);
    CostOfMore([], s[i], PLAIN);
    assert [] + [s[i]] == [s[i]];
    NoCost();
  }

  lemma NoCost()
    ensures ChunkCost([], PLAIN) == 0
  {
  }

  lemma {:induction false} WithoutMembers(s: seq<string>, i: nat)
    requires i < |s| && NoRepeats(s)
    ensures NoRepeats(WithoutAt(s, i))
    ensures forall x :: x in WithoutAt(s, i) <==> x in s && x != s[i]
  {
    var r := WithoutAt(s, i);
    assert forall j :: 0 <= j < |r| ==> r[j] == s[if j < i then j else j + 1];
    forall x | x in s && x != s[i] ensures x in r {
      var j :| 0 <= j < |s| && s[j] == x;
      assert r[if j < i then j else j - 1] == x;
    }
  }

  lemma {:induction false} SameCost(a: seq<string>, b: seq<string>)
    requires NoRepeats(a) && NoRepeats(b) && forall x :: x in a <==> x in b
    ensures ChunkCost(a, PLAIN) == ChunkCost(b, PLAIN) && |a| == |b|
    decreases |a|
  {
    hide Base, ChunkCost, WithoutAt, NoRepeats;
    assert |b| > 0 ==> b[0] in b && b[0] in a;
    if a != [] {
      assert a[0] in a;
      var i :| 0 <= i < |b| && b[i] == a[0];
      WithoutMembers(a, 0);
      WithoutMembers(b, i);
      CostWithout(a, 0);
      CostWithout(b, i);
      SameCost(WithoutAt(a, 0), WithoutAt(b, i));
    }
  }

  lemma {:induction false} AddNewKeeps(xs: seq<string>, v: string)
    requires NoRepeats(xs)
    ensures NoRepeats(AddNew(xs, v)) && forall x :: x in AddNew(xs, v) <==> x in xs || x == v
  {
  }

  lemma {:induction false} SidesOf(chunk: seq<NamePair>)
    ensures NoRepeats(NamespacesOf(chunk)) && NoRepeats(NamesOf(chunk))
    ensures forall i :: 0 <= i < |chunk| ==> chunk[i].0 in NamespacesOf(chunk) && chunk[i].1 in NamesOf(chunk)
    ensures (forall i :: 0 <= i < |chunk| ==> Usable(chunk[i])) ==> "" !in NamespacesOf(chunk) && "" !in NamesOf(chunk)
    ensures chunk != [] ==> NamespacesOf(chunk) != [] && NamesOf(chunk) != []
  {
    if chunk != [] {
      var init, last := chunk[..|chunk| - 1], chunk[|chunk| - 1];
      SidesOf(init);
      AddNewKeeps(NamespacesOf(init), last.0);
      AddNewKeeps(NamesOf(init), last.1);
      assert forall i :: 0 <= i < |init| ==> chunk[i] == init[i];
    }
  }

  // ---- no split is shorter ----

  // Fewer alternatives never cost more.
  lemma {:induction false} SubCost(a: seq<string>, b: seq<string>)
    requires NoRepeats(a) && NoRepeats(b) && forall x :: x in a ==> x in b
    ensures ChunkCost(a, PLAIN) <= ChunkCost(b, PLAIN) && |a| <= |b|
    decreases |a|
  {
    hide Base, ChunkCost, WithoutAt, NoRepeats;
    if a == [] {
      NoCost();
    } else {
      assert a[0] in a;
      var i :| 0 <= i < |b| && b[i] == a[0];
      WithoutMembers(a, 0);
      WithoutMembers(b, i);
      CostWithout(a, 0);
      CostWithout(b, i);
      SubCost(WithoutAt(a, 0), WithoutAt(b, i));
    }
  }

  lemma {:induction false} SideMembers(chunk: seq<NamePair>)
    ensures forall x :: x in NamespacesOf(chunk) <==> exists i :: 0 <= i < |chunk| && chunk[i].0 == x
    ensures forall x :: x in NamesOf(chunk) <==> exists i :: 0 <= i < |chunk| && chunk[i].1 == x
  {
    if chunk != [] {
      var init, last := chunk[..|chunk| - 1], chunk[|chunk| - 1];
      SideMembers(init);
      assert forall i :: 0 <= i < |init| ==> init[i] == chunk[i];
      assert chunk[|init|] == last;
    }
  }

  lemma {:induction false} RunOfPairsFits(chunk: seq<NamePair>, i: nat, j: nat, name: string, budget: int)
    requires i <= j <= |chunk| && PairsFit(chunk, name, budget)
    ensures PairsFit(chunk[i..j], name, budget)
  {
    hide ChunkCost, NamespacesOf, NamesOf;
    var run := chunk[i..j];
    SidesOf(chunk);
    SidesOf(run);
    SideMembers(run);
    assert forall k :: 0 <= k < |run| ==> run[k] == chunk[i + k];
    SubCost(NamespacesOf(run), NamespacesOf(chunk));
    SubCost(NamesOf(run), NamesOf(chunk));
  }

  // No way of cutting the same pairs into runs that meet the same bounds has
  // fewer of them.
  lemma {:induction false} PairChunksAreFewest(tight: seq<seq<NamePair>>, other: seq<seq<NamePair>>, name: string, budget: int)
    requires Flatten(tight) == Flatten(other) && NoneEmpty(tight)
    requires Tight(tight, PairsFitting(name, budget)) && AllFit(other, PairsFitting(name, budget))
    ensures |tight| <= |other|
  {
    hide PairsFit, Flatten, Tight, AllFit;
    var fits := PairsFitting(name, budget);
    forall chunk, i, j | 0 <= i <= j <= |chunk| && fits(chunk) ensures fits(chunk[i..j]) {
      RunOfPairsFits(chunk, i, j, name, budget);
    }
    TightIsFewest(tight, other, fits);
  }

  // ---- what a chunk renders ----

  lemma {:induction false} RegexLength(key: string, vals: seq<string>)
    ensures |RegexText(key, EscapedAlts(vals))| == |key| + 4 + ChunkCost(vals, PLAIN)
  {
    hide EscapeLiteral, QuoteMeta, Join, ChunkCost;
    CostIsRendered(vals, "", PLAIN);
    assert Prefixed("", vals) == EscapedAlts(vals) by {
      assert forall i :: 0 <= i < |vals| ==> "" + EscapeLiteral(QuoteMeta(vals[i])) == EscapeLiteral(QuoteMeta(vals[i]));
    }
  }

  lemma {:induction false} QuoteLengthens(v: string)
    ensures |EscapeLiteral(v)| <= |EscapeLiteral(QuoteMeta(v))|
  {
    hide EscapeChar, IsMeta;
    if v != [] {
      QuoteLengthens(v[1..]);
      EscapeAppend(QuoteChar(v[0]), QuoteMeta(v[1..]));
      QuoteCharLengthens(v[0]);
    }
  }

  lemma QuoteCharLengthens(c: char)
    ensures |EscapeChar(c)| <= |EscapeLiteral(QuoteChar(c))|
  {
    EscapeAppend(['\\'], [c]);
    assert [c][1..] == [];
    assert ['\\', c] == ['\\'] + [c];
  }

  // A matcher renders no longer than its values cost in regex form.
  lemma {:induction false} MatcherLength(key: string, xs: seq<string>)
    requires NoRepeats(xs) && xs != [] && "" !in xs
    ensures |MatcherText(key, xs)| == 1
    ensures |MatcherText(key, xs)[0]| <= |key| + 4 + ChunkCost(xs, PLAIN)
  {
    hide EscapeLiteral, QuoteMeta, Join, ChunkCost, Normalised, RegexText;
    var vals := Normalised(xs);
    NormalisedMembers(xs);
    NormalisedNoRepeats(xs);
    assert xs[0] in xs && xs[0] in vals;
    SameCost(vals, xs);
    RegexLength(key, vals);
    if |vals| == 1 {
      QuoteLengthens(vals[0]);
      CostOfMore([], vals[0], PLAIN);
      assert vals == [] + [vals[0]];
    }
  }

  lemma {:induction false} NormalisedNoRepeats(xs: seq<string>)
    ensures NoRepeats(Normalised(xs))
  {
    hide SortedUnique, NonEmpty, Less;
    LessIsTotal();
    SortedUniqueOf(NonEmpty(xs));
    var s := Normalised(xs);
    forall i, j | 0 <= i < j < |s| ensures s[i] != s[j] {
      assert Less(s[i], s[j]);
    }
  }

  function PairSelector(chunk: seq<NamePair>, name: string): string {
    Join(MatcherText("namespace", NamespacesOf(chunk)) + MatcherText(name, NamesOf(chunk)), ",")
  }

  // What a chunk of several pairs renders, wrappers and comma included, is
  // within the budget it was packed under.
  lemma {:induction false} RenderedWithinBudget(chunk: seq<NamePair>, name: string, budget: int)
    requires |chunk| > 1 && budget > 0 && PairsFit(chunk, name, budget)
    requires forall i :: 0 <= i < |chunk| ==> Usable(chunk[i])
    ensures |PairSelector(chunk, name)| <= budget
  {
    hide MatcherText, ChunkCost, NamespacesOf, NamesOf, Join;
    SidesOf(chunk);
    MatcherLength("namespace", NamespacesOf(chunk));
    MatcherLength(name, NamesOf(chunk));
    var a, b := MatcherText("namespace", NamespacesOf(chunk)), MatcherText(name, NamesOf(chunk));
    assert a + b == [a[0], b[0]];
    JoinTwo(a[0], b[0]);
  }

  // With several values on either side the cost is that length exactly.
  lemma {:induction false} PairCostIsRendered(chunk: seq<NamePair>, name: string)
    requires forall i :: 0 <= i < |chunk| ==> Usable(chunk[i])
    requires |NamespacesOf(chunk)| > 1 && |NamesOf(chunk)| > 1
    ensures |PairSelector(chunk, name)| == PairCost(chunk, name)
  {
    hide MatcherText, ChunkCost, NamespacesOf, NamesOf, Join;
    SidesOf(chunk);
    SeveralLength("namespace", NamespacesOf(chunk));
    SeveralLength(name, NamesOf(chunk));
    var a, b := MatcherText("namespace", NamespacesOf(chunk)), MatcherText(name, NamesOf(chunk));
    assert a + b == [a[0], b[0]];
    JoinTwo(a[0], b[0]);
  }

  lemma {:induction false} SeveralLength(key: string, xs: seq<string>)
    requires NoRepeats(xs) && |xs| > 1 && "" !in xs
    ensures |MatcherText(key, xs)| == 1 && |MatcherText(key, xs)[0]| == |key| + 4 + ChunkCost(xs, PLAIN)
  {
    hide EscapeLiteral, QuoteMeta, Join, ChunkCost, Normalised, RegexText;
    var vals := Normalised(xs);
    NormalisedMembers(xs);
    NormalisedNoRepeats(xs);
    SameCost(vals, xs);
    RegexLength(key, vals);
  }

  lemma JoinTwo(a: string, b: string)
    ensures Join([a, b], ",") == a + "," + b
  {
    assert [a, b][1..] == [b];
  }

  // ---- the exact read ----

  function PairOf(s: Series, name: string): NamePair {
    (Value(s, "namespace"), Value(s, name))
  }

  // What the upstream lets through for a chunk: two independent alternations.
  predicate Upstream(chunk: seq<NamePair>, name: string, s: Series) {
    MatchesAll(MatcherFor("namespace", NamespacesOf(chunk)) + MatcherFor(name, NamesOf(chunk)), s)
  }

  // That is, every row whose namespace is one of the chunk's and whose name is
  // one of the chunk's, cross pairs included.
  lemma {:induction false} UpstreamIff(chunk: seq<NamePair>, name: string, s: Series)
    requires chunk != [] && forall i :: 0 <= i < |chunk| ==> Usable(chunk[i])
    ensures Upstream(chunk, name, s) <==>
              exists i, j :: 0 <= i < |chunk| && 0 <= j < |chunk| && Value(s, "namespace") == chunk[i].0 && Value(s, name) == chunk[j].1
  {
    hide MatcherFor, MatchesAll, NamespacesOf, NamesOf, Value;
    SidesOf(chunk);
    SideMembers(chunk);
    MatcherAccepts("namespace", NamespacesOf(chunk), s);
    MatcherAccepts(name, NamesOf(chunk), s);
    MatchesAppend(MatcherFor("namespace", NamespacesOf(chunk)), MatcherFor(name, NamesOf(chunk)), s);
    SomeUsable(NamespacesOf(chunk));
    SomeUsable(NamesOf(chunk));
  }

  lemma SomeUsable(xs: seq<string>)
    requires xs != [] && "" !in xs
    ensures HasValue(xs)
  {
    assert xs[0] in xs;
  }

  function Answer(rows: seq<Series>, chunk: seq<NamePair>, name: string): seq<Series> {
    if rows == [] then []
    else
      var before := Answer(rows[..|rows| - 1], chunk, name);
      if Upstream(chunk, name, rows[|rows| - 1]) then before + [rows[|rows| - 1]] else before
  }

  function Kept(rows: seq<Series>, name: string, pairs: seq<NamePair>): seq<Series> {
    if rows == [] then []
    else
      var before := Kept(rows[..|rows| - 1], name, pairs);
      if PairOf(rows[|rows| - 1], name) in pairs then before + [rows[|rows| - 1]] else before
  }

  method KeepNamePairs(rows: seq<Series>, name: string, pairs: seq<NamePair>) returns (out: seq<Series>)
    ensures out == Kept(rows, name, pairs)
  {
    var want: set<NamePair> := {};
    for i := 0 to |pairs|
      invariant want == set p | p in pairs[..i]
    {
      want := want + {pairs[i]};
      assert pairs[..i + 1] == pairs[..i] + [pairs[i]];
    }
    assert pairs[..|pairs|] == pairs;
    out := [];
    for i := 0 to |rows|
      invariant out == Kept(rows[..i], name, pairs)
    {
      assert rows[..i + 1][..i] == rows[..i];
      if PairOf(rows[i], name) in want {
        out := out + [rows[i]];
      }
    }
    assert rows[..|rows|] == rows;
  }

  // A wanted row always gets through its own chunk's alternations.
  lemma {:induction false} WantedGetsThrough(chunk: seq<NamePair>, name: string, s: Series)
    requires PairOf(s, name) in chunk && Usable(PairOf(s, name))
    ensures Upstream(chunk, name, s)
  {
    hide NamespacesOf, NamesOf, MatcherFor, MatchesAll;
    SidesOf(chunk);
    var i :| 0 <= i < |chunk| && chunk[i] == PairOf(s, name);
    MatcherAccepts("namespace", NamespacesOf(chunk), s);
    MatcherAccepts(name, NamesOf(chunk), s);
    MatchesAppend(MatcherFor("namespace", NamespacesOf(chunk)), MatcherFor(name, NamesOf(chunk)), s);
  }

  // Filtering a chunk's answer with the chunk's own pairs leaves exactly its
  // rows: no cross pair, and none lost upstream.
  lemma {:induction false} ChunkReadIsExact(rows: seq<Series>, chunk: seq<NamePair>, name: string)
    requires forall i :: 0 <= i < |chunk| ==> Usable(chunk[i])
    ensures Kept(Answer(rows, chunk, name), name, chunk) == Kept(rows, name, chunk)
  {
    hide Upstream;
    if rows != [] {
      var init, last := rows[..|rows| - 1], rows[|rows| - 1];
      ChunkReadIsExact(init, chunk, name);
      if PairOf(last, name) in chunk {
        WantedGetsThrough(chunk, name, last);
      }
      var got := Answer(init, chunk, name);
      assert (got + [last])[..|got|] == got;
    }
  }

  // All chunks' reads, one after the other.
  function ReadAll(rows: seq<Series>, chunks: seq<seq<NamePair>>, name: string): seq<Series> {
    if chunks == [] then []
    else
      var chunk := chunks[|chunks| - 1];
      ReadAll(rows, chunks[..|chunks| - 1], name) + Kept(Answer(rows, chunk, name), name, chunk)
  }

  lemma {:induction false} KeptSplits(rows: seq<Series>, name: string, a: seq<NamePair>, b: seq<NamePair>)
    requires forall p :: !(p in a && p in b)
    ensures multiset(Kept(rows, name, a + b)) == multiset(Kept(rows, name, a)) + multiset(Kept(rows, name, b))
  {
    if rows != [] {
      var init, last := rows[..|rows| - 1], rows[|rows| - 1];
      KeptSplits(init, name, a, b);
      var p := PairOf(last, name);
      assert p in a + b <==> p in a || p in b;
    }
  }

  lemma {:induction false} KeptNothing(rows: seq<Series>, name: string)
    ensures Kept(rows, name, []) == []
  {
    if rows != [] {
      KeptNothing(rows[..|rows| - 1], name);
    }
  }

  lemma {:induction false} ReadAllIsKept(rows: seq<Series>, chunks: seq<seq<NamePair>>, name: string)
    requires NoRepeats(Flatten(chunks)) && forall i :: 0 <= i < |Flatten(chunks)| ==> Usable(Flatten(chunks)[i])
    ensures multiset(ReadAll(rows, chunks, name)) == multiset(Kept(rows, name, Flatten(chunks)))
  {
    hide Answer, Kept, Usable;
    if chunks == [] {
      KeptNothing(rows, name);
    } else {
      var init, chunk := chunks[..|chunks| - 1], chunks[|chunks| - 1];
      var a, all := Flatten(init), Flatten(chunks);
      assert all == a + chunk;
      assert forall i :: 0 <= i < |a| ==> all[i] == a[i];
      assert forall i :: 0 <= i < |chunk| ==> all[|a| + i] == chunk[i];
      ReadAllIsKept(rows, init, name);
      ChunkReadIsExact(rows, chunk, name);
      KeptSplits(rows, name, a, chunk);
    }
  }

  // However the pairs are chunked, the reads together return every row of a
  // wanted pair once, and nothing else.
  lemma {:induction false} PairReadIsExact(rows: seq<Series>, pairs: seq<NamePair>, chunks: seq<seq<NamePair>>, name: string)
    requires Flatten(chunks) == SortedNamePairs(pairs)
    ensures multiset(ReadAll(rows, chunks, name)) == multiset(Kept(rows, name, UsableOf(pairs)))
  {
    hide ReadAll, Kept, SortedNamePairs, UsableOf, Usable;
    SortedPairsMembers(pairs);
    UsableMembers(pairs);
    var s := SortedNamePairs(pairs);
    assert forall i :: 0 <= i < |s| ==> s[i] in s;
    ReadAllIsKept(rows, chunks, name);
    KeptSame(rows, name, s, UsableOf(pairs));
  }

  lemma {:induction false} KeptSame(rows: seq<Series>, name: string, a: seq<NamePair>, b: seq<NamePair>)
    requires forall p :: p in a <==> p in b
    ensures Kept(rows, name, a) == Kept(rows, name, b)
  {
    if rows != [] {
      KeptSame(rows[..|rows| - 1], name, a, b);
    }
  }
}
