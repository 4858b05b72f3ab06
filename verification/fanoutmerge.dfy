// Folding the answers of several backends into one vector: each series once,
// where it was first met, and no answer at all if a backend failed.
module FanoutMerge {

  // A series is identified by its label set; fingerprints are taken to be exact.
  datatype Sample<S> = Sample(series: S, value: real)
  datatype Part<S> = Missing | Present(sample: Sample<S>)

  type Vector<S> = seq<Sample<S>>

  function Samples<S>(part: seq<Part<S>>): Vector<S> {
    if part == [] then []
    else
      var before := Samples(part[..|part| - 1]);
      if part[|part| - 1].Missing? then before else before + [part[|part| - 1].sample]
  }

  // All parts' samples, in backend order.
  function Flat<S>(parts: seq<seq<Part<S>>>): Vector<S> {
    if parts == [] then [] else Flat(parts[..|parts| - 1]) + Samples(parts[|parts| - 1])
  }

  predicate Holds<S(==)>(out: Vector<S>, series: S) {
    exists i :: 0 <= i < |out| && out[i].series == series
  }

  // A later copy replaces the kept one only where the greater value is wanted.
  function Better<S>(kept: Sample<S>, s: Sample<S>, keepMax: bool): Sample<S> {
    if keepMax && s.value > kept.value then s else kept
  }

  function Place<S(==)>(out: Vector<S>, s: Sample<S>, keepMax: bool): Vector<S> {
    if Holds(out, s.series)
    then seq(|out|, i requires 0 <= i < |out| => if out[i].series == s.series then Better(out[i], s, keepMax) else out[i])
    else out + [s]
  }

  function MergeOnto<S(==)>(out: Vector<S>, flat: Vector<S>, keepMax: bool): Vector<S> {
    if flat == [] then out else Place(MergeOnto(out, flat[..|flat| - 1], keepMax), flat[|flat| - 1], keepMax)
  }

  function Merged<S(==)>(parts: seq<seq<Part<S>>>, keepMax: bool): Vector<S> {
    MergeOnto([], Flat(parts), keepMax)
  }

  ghost predicate OnceEach<S>(out: Vector<S>) {
    forall i, j :: 0 <= i < j < |out| ==> out[i].series != out[j].series
  }

  // ---- the merge loop ----

  ghost predicate Indexed<S>(seen: map<S, nat>, out: Vector<S>) {
    && (forall s :: s in seen ==> seen[s] < |out| && out[seen[s]].series == s)
    && (forall i :: 0 <= i < |out| ==> out[i].series in seen && seen[out[i].series] == i)
  }

  lemma IndexedPlace<S>(seen: map<S, nat>, out: Vector<S>, s: Sample<S>, keepMax: bool)
    requires Indexed(seen, out)
    ensures Holds(out, s.series) <==> s.series in seen
    ensures s.series in seen ==>
              && Place(out, s, keepMax) == out[seen[s.series] := Better(out[seen[s.series]], s, keepMax)]
              && Indexed(seen, Place(out, s, keepMax))
    ensures s.series !in seen ==> Indexed(seen[s.series := |out|], out + [s])
  {
  }

  // The samples that disagreed with the copy kept when they were met.
  function Conflicts<S(==)>(out: Vector<S>, flat: Vector<S>, keepMax: bool): nat {
    if flat == [] then 0
    else
      var init, s := flat[..|flat| - 1], flat[|flat| - 1];
      Conflicts(out, init, keepMax) + if Disagrees(MergeOnto(out, init, keepMax), s) then 1 else 0
  }

  predicate Disagrees<S(==)>(out: Vector<S>, s: Sample<S>) {
    exists i :: 0 <= i < |out| && out[i].series == s.series && out[i].value != s.value
  }

  lemma DisagreesAt<S>(seen: map<S, nat>, out: Vector<S>, s: Sample<S>)
    requires Indexed(seen, out)
    ensures Disagrees(out, s) <==> s.series in seen && out[seen[s.series]].value != s.value
  {
  }

  lemma {:induction false} FlatMore<S>(out: Vector<S>, flat: Vector<S>, s: Sample<S>, keepMax: bool)
    ensures MergeOnto(out, flat + [s], keepMax) == Place(MergeOnto(out, flat, keepMax), s, keepMax)
    ensures Conflicts(out, flat + [s], keepMax)
            == Conflicts(out, flat, keepMax) + if Disagrees(MergeOnto(out, flat, keepMax), s) then 1 else 0
  {
    hide Place, Disagrees;
    assert (flat + [s])[..|flat|] == flat;
  }

  method MergePart<S(==)>(part: seq<Part<S>>, keepMax: bool, out0: Vector<S>, seen0: map<S, nat>, conflicts0: nat, ghost flat: Vector<S>)
    returns (out: Vector<S>, seen: map<S, nat>, conflicts: nat)
    requires Indexed(seen0, out0) && out0 == MergeOnto([], flat, keepMax) && conflicts0 == Conflicts([], flat, keepMax)
    ensures Indexed(seen, out)
    ensures out == MergeOnto([], flat + Samples(part), keepMax) && conflicts == Conflicts([], flat + Samples(part), keepMax)
  {
    hide Indexed, Place, Disagrees, MergeOnto, Conflicts, Holds;
    out, seen, conflicts := out0, seen0, conflicts0;
    ghost var done: Vector<S> := [];
    assert flat + done == flat;
    for i := 0 to |part|
      invariant done == Samples(part[..i])
      invariant Indexed(seen, out)
      invariant out == MergeOnto([], flat + done, keepMax) && conflicts == Conflicts([], flat + done, keepMax)
    {
      assert part[..i + 1][..i] == part[..i];
      if part[i].Missing? {
        continue;
      }
      var s := part[i].sample;
      IndexedPlace(seen, out, s, keepMax);
      DisagreesAt(seen, out, s);
      FlatMore([], flat + done, s, keepMax);
      assert flat + (done + [s]) == flat + done + [s];
      done := done + [s];
      if s.series in seen {
        IndexIn(seen, out, s.series);
        var at := seen[s.series];
        if out[at].value != s.value {
          conflicts := conflicts + 1;
          if keepMax && s.value > out[at].value {
            out := out[at := s];
          }
        }
        continue;
      }
      PlaceNew(out, s, keepMax);
      seen := seen[s.series := |out|];
      out := out + [s];
    }
    assert part[..|part|] == part;
  }

  lemma IndexIn<S>(seen: map<S, nat>, out: Vector<S>, series: S)
    requires Indexed(seen, out) && series in seen
    ensures seen[series] < |out|
    ensures out[seen[series] := out[seen[series]]] == out
  {
  }

  lemma PlaceNew<S>(out: Vector<S>, s: Sample<S>, keepMax: bool)
    ensures !Holds(out, s.series) ==> Place(out, s, keepMax) == out + [s]
  {
  }

  method MergeVectors<S(==)>(parts: seq<seq<Part<S>>>, keepMax: bool) returns (out: Vector<S>, conflicts: nat)
    ensures out == Merged(parts, keepMax) && conflicts == Conflicts([], Flat(parts), keepMax)
  {
    hide Indexed, MergeOnto, Conflicts, Samples;
    out, conflicts := [], 0;
    var seen: map<S, nat> := map[];
    NothingMerged<S>(keepMax);
    for i := 0 to |parts|
      invariant Indexed(seen, out)
      invariant out == MergeOnto([], Flat(parts[..i]), keepMax) && conflicts == Conflicts([], Flat(parts[..i]), keepMax)
    {
      assert parts[..i + 1][..i] == parts[..i];
      out, seen, conflicts := MergePart(parts[i], keepMax, out, seen, conflicts, Flat(parts[..i]));
    }
    assert parts[..|parts|] == parts;
  }

  lemma NothingMerged<S>(keepMax: bool)
    ensures Indexed<S>(map[], []) && MergeOnto<S>([], [], keepMax) == [] && Conflicts<S>([], [], keepMax) == 0
  {
  }

  // ---- what the result holds ----

  // The series in the order in which they are first met.
  function FirstMet<S(==)>(flat: Vector<S>): seq<S> {
    if flat == [] then []
    else
      var before, last := FirstMet(flat[..|flat| - 1]), flat[|flat| - 1].series;
      if last in before then before else before + [last]
  }

  // The first value of a series, or its greatest.
  function Value<S(==)>(flat: Vector<S>, series: S, keepMax: bool): (v: seq<real>)
    ensures |v| <= 1
  {
    if flat == [] then []
    else
      var before, last := Value(flat[..|flat| - 1], series, keepMax), flat[|flat| - 1];
      if last.series != series then before
      else if before == [] || (keepMax && last.value > before[0]) then [last.value]
      else before
  }

  lemma {:induction false} ValueIs<S>(flat: Vector<S>, series: S)
    ensures Value(flat, series, false) == [] <==> !Holds(flat, series)
    ensures Value(flat, series, true) == [] <==> !Holds(flat, series)
    ensures Value(flat, series, false) != [] ==>
              exists i :: 0 <= i < |flat| && flat[i] == Sample(series, Value(flat, series, false)[0])
                          && forall j :: 0 <= j < i ==> flat[j].series != series
    ensures Value(flat, series, true) != [] ==>
              && (exists i :: 0 <= i < |flat| && flat[i] == Sample(series, Value(flat, series, true)[0]))
              && forall j :: 0 <= j < |flat| && flat[j].series == series ==> flat[j].value <= Value(flat, series, true)[0]
  {
    if flat != [] {
      var init := flat[..|flat| - 1];
      ValueIs(init, series);
      assert flat == init + [flat[|flat| - 1]];
      assert forall i :: 0 <= i < |init| ==> flat[i] == init[i];
    }
  }

  ghost predicate Describes<S>(out: Vector<S>, flat: Vector<S>, keepMax: bool) {
    && |out| == |FirstMet(flat)|
    && forall i :: 0 <= i < |out| ==>
         out[i].series == FirstMet(flat)[i] && Value(flat, out[i].series, keepMax) == [out[i].value]
  }

  lemma {:induction false} FirstMetMembers<S>(flat: Vector<S>, series: S)
    ensures series in FirstMet(flat) <==> Holds(flat, series)
    ensures forall i, j :: 0 <= i < j < |FirstMet(flat)| ==> FirstMet(flat)[i] != FirstMet(flat)[j]
  {
    if flat != [] {
      var init := flat[..|flat| - 1];
      FirstMetMembers(init, series);
      assert flat == init + [flat[|flat| - 1]];
      assert forall i :: 0 <= i < |init| ==> flat[i] == init[i];
    }
  }

  // Each contributed series appears once, in first-appearance order, with the
  // first contributor's value, or the greatest where that is asked for.
  lemma {:induction false} MergeDescribes<S>(flat: Vector<S>, keepMax: bool)
    ensures Describes(MergeOnto([], flat, keepMax), flat, keepMax)
    ensures OnceEach(MergeOnto([], flat, keepMax))
  {
    hide Holds;
    if flat != [] {
      var init, s := flat[..|flat| - 1], flat[|flat| - 1];
      MergeDescribes(init, keepMax);
      FirstMetMembers(init, s.series);
      ValueIs(init, s.series);
      MergedHolds(init, s.series, keepMax);
    }
    OnceIf(flat, keepMax);
  }

  lemma MergedHolds<S>(flat: Vector<S>, series: S, keepMax: bool)
    requires Describes(MergeOnto([], flat, keepMax), flat, keepMax)
    ensures Holds(MergeOnto([], flat, keepMax), series) <==> series in FirstMet(flat)
  {
    var out := MergeOnto([], flat, keepMax);
    if series in FirstMet(flat) {
      var i :| 0 <= i < |out| && FirstMet(flat)[i] == series;
      assert out[i].series == series;
    }
  }

  lemma OnceIf<S>(flat: Vector<S>, keepMax: bool)
    ensures Describes(MergeOnto([], flat, keepMax), flat, keepMax) ==> OnceEach(MergeOnto([], flat, keepMax))
  {
    hide MergeOnto;
    if flat != [] {
      FirstMetMembers(flat, flat[0].series);
    }
  }

  // ---- merging in stages ----

  lemma {:induction false} MergeOntoAppend<S>(out: Vector<S>, a: Vector<S>, b: Vector<S>, keepMax: bool)
    ensures MergeOnto(out, a + b, keepMax) == MergeOnto(MergeOnto(out, a, keepMax), b, keepMax)
  {
    hide Place;
    if b == [] {
      assert a + b == a;
    } else {
      var n := |b| - 1;
      assert (a + b)[..|a + b| - 1] == a + b[..n];
      MergeOntoAppend(out, a, b[..n], keepMax);
    }
  }

  lemma {:induction false} MergeOfOnce<S>(out: Vector<S>, keepMax: bool)
    requires OnceEach(out)
    ensures MergeOnto([], out, keepMax) == out
  {
    if out != [] {
      var n := |out| - 1;
      MergeOfOnce(out[..n], keepMax);
      assert !Holds(out[..n], out[n].series);
      assert out == out[..n] + [out[n]];
    }
  }

  // Merging a prefix of the backends first and the rest onto it gives the same
  // vector as merging all of them at once.
  lemma {:induction false} MergesInStages<S>(a: Vector<S>, b: Vector<S>, keepMax: bool)
    ensures MergeOnto([], MergeOnto([], a, keepMax) + b, keepMax) == MergeOnto([], a + b, keepMax)
  {
    hide Place;
    var first := MergeOnto([], a, keepMax);
    MergeDescribes(a, keepMax);
    MergeOfOnce(first, keepMax);
    MergeOntoAppend([], first, b, keepMax);
    MergeOntoAppend([], a, b, keepMax);
  }

  // Under keepMax, which value a series ends with depends only on what was
  // contributed, not on the order of backends.
  lemma {:induction false} MaxIsOrderFree<S(!new)>(a: Vector<S>, b: Vector<S>, x: Sample<S>)
    requires multiset(a) == multiset(b)
    ensures x in MergeOnto([], a, true) <==> x in MergeOnto([], b, true)
  {
    hide Place, Value, FirstMet, MergeOnto, Holds;
    MergeDescribes(a, true);
    MergeDescribes(b, true);
    MaxSame(a, b, x.series);
    InResult(a, x);
    InResult(b, x);
  }

  lemma {:induction false} InResult<S(!new)>(flat: Vector<S>, x: Sample<S>)
    requires Describes(MergeOnto([], flat, true), flat, true)
    ensures x in MergeOnto([], flat, true) <==> Value(flat, x.series, true) == [x.value]
  {
    hide MergeOnto, Value;
    var out := MergeOnto([], flat, true);
    FirstMetMembers(flat, x.series);
    ValueIs(flat, x.series);
    if Value(flat, x.series, true) == [x.value] {
      var i :| 0 <= i < |out| && FirstMet(flat)[i] == x.series;
      assert out[i] == x;
    }
  }

  lemma {:induction false} MaxSame<S(!new)>(a: Vector<S>, b: Vector<S>, series: S)
    requires multiset(a) == multiset(b)
    ensures Value(a, series, true) == Value(b, series, true)
  {
    hide Value;
    ValueIs(a, series);
    ValueIs(b, series);
    assert forall s :: s in a <==> s in multiset(a);
    assert forall s :: s in b <==> s in multiset(b);
    MaxCovers(a, b, series);
    MaxCovers(b, a, series);
  }

  lemma MaxCovers<S(!new)>(a: Vector<S>, b: Vector<S>, series: S)
    requires forall s :: s in a ==> s in b
    ensures Value(a, series, true) != [] ==> Value(b, series, true) != [] && Value(a, series, true)[0] <= Value(b, series, true)[0]
  {
    hide Value;
    ValueIs(a, series);
    ValueIs(b, series);
    if Value(a, series, true) != [] {
      var i :| 0 <= i < |a| && a[i] == Sample(series, Value(a, series, true)[0]);
      assert a[i] in b;
      var j :| 0 <= j < |b| && b[j] == a[i];
      assert Holds(b, series);
    }
  }

  // ---- the fan-out ----

  datatype Leg<S> = Failed(error: string) | Answered(part: seq<Part<S>>)
  datatype Answer<S> = Error | Result(vector: Vector<S>)

  // Fail closed: one failed leg and there is no answer.
  function Issue<S(==)>(legs: seq<Leg<S>>, keepMax: bool): Answer<S> {
    if exists i :: 0 <= i < |legs| && legs[i].Failed? then Error
    else Result(Merged(seq(|legs|, i requires 0 <= i < |legs| => legs[i].part), keepMax))
  }

  // Legs finish in any order and each writes its own slot; only the order of
  // backends decides the answer.
  method IssueInOrder<S(==)>(legs: seq<Leg<S>>, arrival: seq<nat>, keepMax: bool) returns (answer: Answer<S>)
    requires forall i :: 0 <= i < |arrival| ==> arrival[i] < |legs|
    requires forall i :: 0 <= i < |legs| ==> i in arrival
    ensures answer == Issue(legs, keepMax)
  {
    hide Merged;
    var parts := new seq<Part<S>>[|legs|](i => []);
    for k := 0 to |arrival|
      invariant forall i :: 0 <= i < |legs| && i in arrival[..k] ==> legs[i].Answered? && parts[i] == legs[i].part
    {
      var i := arrival[k];
      if legs[i].Failed? {
        return Error;
      }
      parts[i] := legs[i].part;
      assert arrival[..k + 1] == arrival[..k] + [i];
    }
    assert arrival[..|arrival|] == arrival;
    var out, _ := MergeVectors(parts[..], keepMax);
    assert parts[..] == seq(|legs|, i requires 0 <= i < |legs| => legs[i].part);
    answer := Result(out);
  }

  lemma {:induction false} FlatHolds<S>(parts: seq<seq<Part<S>>>, series: S)
    ensures Holds(Flat(parts), series) <==> exists i :: 0 <= i < |parts| && Holds(Samples(parts[i]), series)
  {
    hide Samples;
    if parts != [] {
      var init, last := parts[..|parts| - 1], parts[|parts| - 1];
      FlatHolds(init, series);
      assert forall i :: 0 <= i < |init| ==> init[i] == parts[i];
      HoldsAppend(Flat(init), Samples(last), series);
    }
  }

  lemma HoldsAppend<S>(a: Vector<S>, b: Vector<S>, series: S)
    ensures Holds(a + b, series) <==> Holds(a, series) || Holds(b, series)
  {
    var all := a + b;
    assert forall i :: 0 <= i < |a| ==> all[i] == a[i];
    assert forall i :: 0 <= i < |b| ==> all[|a| + i] == b[i];
  }

  // A vector lists the series of the samples that are there.
  lemma {:induction false} SamplesHold<S>(part: seq<Part<S>>, series: S)
    ensures Holds(Samples(part), series) <==> exists i :: 0 <= i < |part| && part[i].Present? && part[i].sample.series == series
  {
    if part != [] {
      var init, last := part[..|part| - 1], part[|part| - 1];
      SamplesHold(init, series);
      assert forall i :: 0 <= i < |init| ==> init[i] == part[i];
      if last.Present? {
        HoldsAppend(Samples(init), [last.sample], series);
        assert Holds([last.sample], series) <==> [last.sample][0].series == series;
      }
    }
  }

  // There is no answer exactly when some leg failed; otherwise it lists exactly
  // the series some backend contributed.
  lemma {:induction false} FailsClosed<S>(legs: seq<Leg<S>>, keepMax: bool, series: S)
    ensures Issue(legs, keepMax).Error? <==> exists i :: 0 <= i < |legs| && legs[i].Failed?
    ensures Issue(legs, keepMax).Result? ==>
              (Holds(Issue(legs, keepMax).vector, series) <==>
                exists i, j :: 0 <= i < |legs| && legs[i].Answered? && 0 <= j < |legs[i].part|
                  && legs[i].part[j].Present? && legs[i].part[j].sample.series == series)
  {
    hide Holds, Samples, Flat, MergeOnto, Describes, OnceEach, FirstMet;
    if Issue(legs, keepMax).Result? {
      var parts := seq(|legs|, i requires 0 <= i < |legs| => legs[i].part);
      FlatHolds(parts, series);
      MergeDescribes(Flat(parts), keepMax);
      MergedHolds(Flat(parts), series, keepMax);
      FirstMetMembers(Flat(parts), series);
      forall i | 0 <= i < |parts|
        ensures Holds(Samples(parts[i]), series) <==>
                  exists j :: 0 <= j < |legs[i].part| && legs[i].part[j].Present? && legs[i].part[j].sample.series == series
      {
        SamplesHold(parts[i], series);
      }
    }
  }
}
