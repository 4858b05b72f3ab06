// Cutting a list into runs greedily: a run is closed only when the next element
// does not fit, and where every run of a fitting run fits, no other cut is
// shorter.
module GreedySplits {

  function Flatten<T>(chunks: seq<seq<T>>): seq<T> {
    if chunks == [] then [] else Flatten(chunks[..|chunks| - 1]) + chunks[|chunks| - 1]
  }

  ghost predicate NoneEmpty<T>(chunks: seq<seq<T>>) {
    forall i :: 0 <= i < |chunks| ==> chunks[i] != []
  }

  ghost predicate AllFit<T>(chunks: seq<seq<T>>, fits: seq<T> -> bool) {
    forall i :: 0 <= i < |chunks| ==> fits(chunks[i])
  }

  // No chunk had room for the element that opens the next one.
  ghost predicate Tight<T>(chunks: seq<seq<T>>, fits: seq<T> -> bool) {
    forall i :: 0 <= i < |chunks| - 1 ==> Full(chunks, i, fits)
  }

  ghost predicate Full<T>(chunks: seq<seq<T>>, i: nat, fits: seq<T> -> bool)
    requires i + 1 < |chunks|
  {
    chunks[i + 1] != [] && !fits(chunks[i] + [chunks[i + 1][0]])
  }

  // Any run inside a chunk that fits also fits.
  ghost predicate RunsFit<T(!new)>(fits: seq<T> -> bool) {
    forall chunk, i, j {:trigger fits(chunk[i..j])} :: 0 <= i <= j <= |chunk| && fits(chunk) ==> fits(chunk[i..j])
  }

  lemma {:induction false} FlattenMore<T>(chunks: seq<seq<T>>, c: seq<T>)
    ensures Flatten(chunks + [c]) == Flatten(chunks) + c
  {
    assert (chunks + [c])[..|chunks|] == chunks;
  }

  lemma {:induction false} TightMore<T>(chunks: seq<seq<T>>, cur: seq<T>, v: T, fits: seq<T> -> bool)
    requires Tight(chunks + [cur], fits) && cur != []
    ensures Tight(chunks + [cur + [v]], fits)
    ensures !fits(cur + [v]) ==> Tight(chunks + [cur] + [[v]], fits)
  {
    var was, grown, closed := chunks + [cur], chunks + [cur + [v]], chunks + [cur] + [[v]];
    assert was[|chunks|] == cur && grown[|chunks|] == cur + [v] && closed[|chunks|] == cur && closed[|chunks| + 1] == [v];
    forall i | 0 <= i < |chunks| ensures Full(grown, i, fits) && Full(closed, i, fits) {
      assert Full(was, i, fits);
      assert was[i] == chunks[i] && grown[i] == chunks[i] && closed[i] == chunks[i];
      assert was[i + 1] == closed[i + 1] && was[i + 1][0] == grown[i + 1][0];
    }
  }

  lemma OneTight<T>(c: seq<T>, fits: seq<T> -> bool)
    ensures Tight([], fits) && Tight([c], fits)
  {
  }

  // ---- no split is shorter ----

  // Where the j-th chunk begins.
  function Start<T>(chunks: seq<seq<T>>, j: nat): nat
    requires j <= |chunks|
  {
    |Flatten(chunks[..j])|
  }

  lemma {:induction false} ChunkAt<T>(chunks: seq<seq<T>>, j: nat)
    requires j < |chunks|
    ensures Start(chunks, j) + |chunks[j]| == Start(chunks, j + 1) <= |Flatten(chunks)|
    ensures Flatten(chunks)[Start(chunks, j)..Start(chunks, j + 1)] == chunks[j]
  {
    var n := |chunks| - 1;
    var init := chunks[..n];
    assert chunks[..j + 1][..j] == chunks[..j];
    if j == n {
      assert chunks[..j + 1] == chunks;
    } else {
      ChunkAt(init, j);
      assert init[..j] == chunks[..j] && init[..j + 1] == chunks[..j + 1];
    }
  }

  lemma SliceOfSlice<T>(s: seq<T>, lo: nat, hi: nat, from: nat, to: nat)
    requires from <= to <= hi - lo && lo <= hi <= |s|
    ensures s[lo..hi][from..to] == s[lo + from..lo + to]
  {
    assert forall k :: 0 <= k < to - from ==> s[lo..hi][from..to][k] == s[lo..hi][from + k] == s[lo + from + k];
  }

  // Had the other split got further, the tight one's chunk would have had room.
  lemma {:induction false} WouldFit<T(!new)>(tight: seq<seq<T>>, other: seq<seq<T>>, j: nat, fits: seq<T> -> bool)
    requires RunsFit(fits) && Flatten(tight) == Flatten(other) && AllFit(other, fits)
    requires 0 < j < |tight| && j <= |other| && tight[j] != []
    requires Start(other, j - 1) <= Start(tight, j - 1) && Start(tight, j) < Start(other, j)
    ensures fits(tight[j - 1] + [tight[j][0]])
  {
    hide Flatten;
    var values := Flatten(tight);
    ChunkAt(tight, j - 1);
    ChunkAt(tight, j);
    ChunkAt(other, j - 1);
    var from, to := Start(tight, j - 1) - Start(other, j - 1), Start(tight, j) + 1 - Start(other, j - 1);
    assert fits(other[j - 1][from..to]);
    SliceOfSlice(values, Start(other, j - 1), Start(other, j), from, to);
    assert values[Start(tight, j)..Start(tight, j + 1)][0] == tight[j][0];
    assert values[Start(tight, j)] == tight[j][0];
    assert values[Start(tight, j - 1)..Start(tight, j) + 1] == values[Start(tight, j - 1)..Start(tight, j)] + [tight[j][0]];
  }

  // After the same number of chunks, the tight split has covered at least as
  // much as any other.
  lemma {:induction false} StaysAhead<T(!new)>(tight: seq<seq<T>>, other: seq<seq<T>>, j: nat, fits: seq<T> -> bool)
    requires RunsFit(fits) && Flatten(tight) == Flatten(other) && Tight(tight, fits) && AllFit(other, fits)
    requires j <= |tight| && j <= |other|
    ensures Start(other, j) <= Start(tight, j)
  {
    hide Flatten, AllFit, RunsFit;
    assert tight[..|tight|] == tight;
    if j > 0 {
      StaysAhead(tight, other, j - 1, fits);
      ChunkAt(other, j - 1);
      if j < |tight| {
        assert Full(tight, j - 1, fits);
        if Start(tight, j) < Start(other, j) {
          WouldFit(tight, other, j, fits);
        }
      }
    }
  }

  // No way of cutting the same list into fitting runs has fewer of them.
  lemma {:induction false} TightIsFewest<T(!new)>(tight: seq<seq<T>>, other: seq<seq<T>>, fits: seq<T> -> bool)
    requires RunsFit(fits) && Flatten(tight) == Flatten(other)
    requires Tight(tight, fits) && NoneEmpty(tight) && AllFit(other, fits)
    ensures |tight| <= |other|
  {
    hide Flatten, Tight, RunsFit, AllFit;
    if |tight| > |other| {
      StaysAhead(tight, other, |other|, fits);
      assert other[..|other|] == other;
      ChunkAt(tight, |other|);
    }
  }
}
