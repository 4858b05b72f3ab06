// Splitting a large scope over several queries: each within a byte budget and
// a bound on its alternatives, and as few of them as any split could be.
module ScopeChunks {
  import opened GreedySplits
  import opened Matchers
  import opened Selectors

  const MAX_ALTERNATION_VALUES: int := 100
  // The ".*" a suffix-mode branch is prefixed with.
  const TOKEN_BRANCH_OVERHEAD: int := 2

  // A bound that is not positive bounds nothing.
  datatype Bounds = Bounds(budget: int, overhead: int, maxValues: int)

  // Literal values: looked up exactly up to a hundred alternatives.
  function ScopeBounds(budget: int): Bounds {
    Bounds(budget, 0, MAX_ALTERNATION_VALUES)
  }

  // Suffix-mode tokens are never looked up, so only their bytes are bounded.
  function TokenBounds(budget: int): Bounds {
    Bounds(budget, TOKEN_BRANCH_OVERHEAD, 0)
  }

  // The rendered cost of one value, its separator apart.
  function Base(v: string, b: Bounds): nat {
    |EscapeLiteral(QuoteMeta(v))| + if b.overhead > 0 then b.overhead else 0
  }

  function ChunkCost(chunk: seq<string>, b: Bounds): nat {
    if chunk == [] then 0
    else ChunkCost(chunk[..|chunk| - 1], b) + Base(chunk[|chunk| - 1], b) + if |chunk| > 1 then 1 else 0
  }

  predicate InBounds(chunk: seq<string>, b: Bounds) {
    && (b.budget > 0 ==> ChunkCost(chunk, b) <= b.budget)
    && (b.maxValues > 0 ==> |chunk| <= b.maxValues)
  }

  // What a chunk must meet; one value alone is never dropped, however long.
  predicate Fits(chunk: seq<string>, b: Bounds) {
    |chunk| > 1 ==> InBounds(chunk, b)
  }

  function Fitting(b: Bounds): seq<string> -> bool {
    chunk => Fits(chunk, b)
  }

  lemma {:induction false} CostOfMore(chunk: seq<string>, v: string, b: Bounds)
    ensures ChunkCost(chunk + [v], b) == ChunkCost(chunk, b) + Base(v, b) + if chunk != [] then 1 else 0
  {
    hide Base;
    assert (chunk + [v])[..|chunk|] == chunk;
  }

  // One pass, closing a chunk when the next value would overrun it.
  method ChunkScope(values: seq<string>, b: Bounds) returns (chunks: seq<seq<string>>)
    ensures Flatten(chunks) == values && AllFit(chunks, Fitting(b)) && NoneEmpty(chunks) && Tight(chunks, Fitting(b))
  {
    hide Fits, ChunkCost, Base, Tight, InBounds;
    chunks := [];
    if values == [] {
      OneTight<string>([], Fitting(b));
      return;
    }
    var cur: seq<string> := [];
    var used := 0;
    OneFits(values[0], b);
    OneTight([values[0]], Fitting(b));
    for i := 0 to |values|
      invariant Flatten(chunks) + cur == values[..i]
      invariant AllFit(chunks, Fitting(b))
      invariant NoneEmpty(chunks)
      invariant used == ChunkCost(cur, b) && Fits(cur, b)
      invariant cur == [] <==> i == 0
      invariant i == 0 ==> chunks == []
      invariant i > 0 ==> Tight(chunks + [cur], Fitting(b))
    {
      var v := values[i];
      var base := Base(v, b);
      var cost := if |cur| > 0 then base + 1 else base;
      var overBytes := b.budget > 0 && used + cost > b.budget;
      var overCount := b.maxValues > 0 && |cur| >= b.maxValues;
      CostOfMore(cur, v, b);
      CostOfMore([], v, b);
      FitsMore(cur, v, b);
      OneFits(v, b);
      assert values[..i + 1] == values[..i] + [v];
      if |cur| > 0 && (overBytes || overCount) {
        TightMore(chunks, cur, v, Fitting(b));
        FlattenMore(chunks, cur);
        chunks := chunks + [cur];
        cur, used := [], 0;
        cost := base;
      } else if |cur| > 0 {
        TightMore(chunks, cur, v, Fitting(b));
      }
      assert [] + [v] == [v];
      assert chunks == [] ==> chunks + [[v]] == [[v]];
      cur := cur + [v];
      used := used + cost;
    }
    FlattenMore(chunks, cur);
    assert values[..|values|] == values;
    chunks := chunks + [cur];
  }

  lemma OneFits(v: string, b: Bounds)
    ensures Fits([v], b) && Fits([], b) && ChunkCost([], b) == 0
  {
  }

  // The pass's own test decides exactly whether the value still fits.
  lemma FitsMore(cur: seq<string>, v: string, b: Bounds)
    ensures cur != [] ==>
              (Fits(cur + [v], b) <==>
                !(b.budget > 0 && ChunkCost(cur, b) + Base(v, b) + 1 > b.budget) && !(b.maxValues > 0 && |cur| >= b.maxValues))
  {
    hide ChunkCost, Base;
    CostOfMore(cur, v, b);
  }

  // ---- no split is shorter ----

  lemma {:induction false} CostOfAppend(x: seq<string>, y: seq<string>, b: Bounds)
    ensures ChunkCost(x + y, b) == ChunkCost(x, b) + ChunkCost(y, b) + if x != [] && y != [] then 1 else 0
  {
    hide Base;
    if y == [] {
      assert x + y == x;
    } else {
      var n := |y| - 1;
      assert (x + y)[..|x + y| - 1] == x + y[..n];
      CostOfAppend(x, y[..n], b);
    }
  }

  // Any run of values inside a chunk that fits also fits.
  lemma {:induction false} RunFits(chunk: seq<string>, i: nat, j: nat, b: Bounds)
    requires i <= j <= |chunk| && Fits(chunk, b)
    ensures Fits(chunk[i..j], b)
  {
    hide ChunkCost;
    var before, run, after := chunk[..i], chunk[i..j], chunk[j..];
    assert chunk == before + (run + after);
    CostOfAppend(run, after, b);
    CostOfAppend(before, run + after, b);
  }

  // No way of cutting the same values into runs that meet the same bounds has
  // fewer of them.
  lemma {:induction false} TightIsShortest(tight: seq<seq<string>>, other: seq<seq<string>>, b: Bounds)
    requires Flatten(tight) == Flatten(other) && Tight(tight, Fitting(b)) && NoneEmpty(tight) && AllFit(other, Fitting(b))
    ensures |tight| <= |other|
  {
    hide Fits, Flatten, Tight, AllFit;
    forall chunk, i, j | 0 <= i <= j <= |chunk| && Fitting(b)(chunk) ensures Fitting(b)(chunk[i..j]) {
      RunFits(chunk, i, j, b);
    }
    TightIsFewest(tight, other, Fitting(b));
  }

  // ---- the cost is what is rendered ----

  function Prefixed(prefix: string, values: seq<string>): seq<string> {
    seq(|values|, i requires 0 <= i < |values| => prefix + EscapeLiteral(QuoteMeta(values[i])))
  }

  lemma {:induction false} JoinLength(parts: seq<string>, p: string)
    ensures |Join(parts + [p], "|")| == |Join(parts, "|")| + |p| + if parts != [] then 1 else 0
  {
    if parts == [] {
      assert parts + [p] == [p];
    } else {
      assert (parts + [p])[1..] == parts[1..] + [p];
      JoinLength(parts[1..], p);
    }
  }

  // A chunk's cost is the exact length of its rendered alternation, prefix of
  // every branch included.
  lemma {:induction false} CostIsRendered(chunk: seq<string>, prefix: string, b: Bounds)
    requires |prefix| == if b.overhead > 0 then b.overhead else 0
    ensures ChunkCost(chunk, b) == |Join(Prefixed(prefix, chunk), "|")|
  {
    hide EscapeLiteral, QuoteMeta, Join;
    if chunk == [] {
      NothingJoined();
    } else {
      var n := |chunk| - 1;
      CostIsRendered(chunk[..n], prefix, b);
      assert Prefixed(prefix, chunk) == Prefixed(prefix, chunk[..n]) + [prefix + EscapeLiteral(QuoteMeta(chunk[n]))];
      JoinLength(Prefixed(prefix, chunk[..n]), prefix + EscapeLiteral(QuoteMeta(chunk[n])));
    }
  }

  lemma NothingJoined()
    ensures Join([], "|") == []
  {
  }

  // So a chunk of several values fits exactly when what it renders is within the
  // budget, and, for values looked up exactly, there are no more than a hundred.
  lemma {:induction false} ChunkRendersWithinBudget(chunk: seq<string>, budget: int)
    requires |chunk| > 1 && budget > 0
    ensures Fits(chunk, ScopeBounds(budget)) <==> |Join(EscapedAlts(chunk), "|")| <= budget && |chunk| <= 100
    ensures Fits(chunk, TokenBounds(budget)) <==> |Join(Prefixed(".*", chunk), "|")| <= budget
  {
    hide ChunkCost, Join, EscapeLiteral, QuoteMeta;
    CostIsRendered(chunk, "", ScopeBounds(budget));
    CostIsRendered(chunk, ".*", TokenBounds(budget));
    assert Prefixed("", chunk) == EscapedAlts(chunk) by {
      assert forall v: string {:trigger EscapeLiteral(QuoteMeta(v))} :: "" + EscapeLiteral(QuoteMeta(v)) == EscapeLiteral(QuoteMeta(v));
    }
  }
}
