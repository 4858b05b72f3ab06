// The reader's side of the version store: collapsing rewritten rows to the
// newest of each version slot, then keeping the versions live at an instant.
module VersionStore {
  import opened Decimal

  // One physical row of a version table. Times are milliseconds.
  datatype Row<P> = Row(cluster: string, ns: string, name: string, vf: int, vt: int, ingest: nat, payload: P)

  function SlotKey<P>(r: Row<P>): string {
    r.cluster + ['\0'] + r.ns + ['\0'] + r.name + ['\0'] + Itoa(r.vf)
  }

  // Two rows are versions of one slot exactly when all four parts agree, as no
  // name holds a NUL.
  lemma {:induction false} SlotKeyInjective<P>(a: Row<P>, b: Row<P>)
    requires '\0' !in a.cluster && '\0' !in b.cluster && '\0' !in a.ns && '\0' !in b.ns
    ensures SlotKey(a) == SlotKey(b) <==> a.cluster == b.cluster && a.ns == b.ns && a.name == b.name && a.vf == b.vf
  {
    hide Itoa;
    if SlotKey(a) == SlotKey(b) {
      var ta, tb := a.ns + ['\0'] + (a.name + ['\0'] + Itoa(a.vf)), b.ns + ['\0'] + (b.name + ['\0'] + Itoa(b.vf));
      assert SlotKey(a) == a.cluster + ['\0'] + ta;
      assert SlotKey(b) == b.cluster + ['\0'] + tb;
      SplitAtFirst(a.cluster, ta, b.cluster, tb, '\0');
      SplitAtFirst(a.ns, a.name + ['\0'] + Itoa(a.vf), b.ns, b.name + ['\0'] + Itoa(b.vf), '\0');
      ItoaPlain(a.vf);
      ItoaPlain(b.vf);
      SplitAtLast(a.name, Itoa(a.vf), b.name, Itoa(b.vf), '\0');
      ItoaInjective(a.vf, b.vf);
    }
  }

  predicate LiveAt<P>(r: Row<P>, at: int) {
    r.vf <= at < r.vt
  }

  function Live<P>(rows: seq<Row<P>>, at: int): seq<Row<P>> {
    if rows == [] then []
    else
      var before := Live(rows[..|rows| - 1], at);
      if LiveAt(rows[|rows| - 1], at) then before + [rows[|rows| - 1]] else before
  }

  function Where<P>(rows: seq<Row<P>>, p: Row<P> -> bool): seq<Row<P>> {
    if rows == [] then []
    else
      var before := Where(rows[..|rows| - 1], p);
      if p(rows[|rows| - 1]) then before + [rows[|rows| - 1]] else before
  }

  predicate HasSlot<P>(rows: seq<Row<P>>, key: string) {
    exists i :: 0 <= i < |rows| && SlotKey(rows[i]) == key
  }

  // The same rows, the one sharing r's slot replaced where r is newer.
  function Updated<P>(out: seq<Row<P>>, r: Row<P>): (after: seq<Row<P>>)
    ensures |after| == |out|
  {
    seq(|out|, i requires 0 <= i < |out| => if SlotKey(out[i]) == SlotKey(r) && r.ingest > out[i].ingest then r else out[i])
  }

  // A row of a slot already met competes for it; a new slot goes to the end.
  function Place<P>(out: seq<Row<P>>, r: Row<P>): seq<Row<P>> {
    if HasSlot(out, SlotKey(r)) then Updated(out, r) else out + [r]
  }

  function Deduped<P>(rows: seq<Row<P>>): seq<Row<P>> {
    if rows == [] then [] else Place(Deduped(rows[..|rows| - 1]), rows[|rows| - 1])
  }

  ghost predicate DistinctSlots<P>(rows: seq<Row<P>>) {
    forall i, j :: 0 <= i < j < |rows| ==> SlotKey(rows[i]) != SlotKey(rows[j])
  }

  // ---- the in-place pass ----

  ghost predicate Indexes<P>(idx: map<string, nat>, out: seq<Row<P>>) {
    && (forall k :: k in idx ==> idx[k] < |out| && SlotKey(out[idx[k]]) == k)
    && (forall i :: 0 <= i < |out| ==> SlotKey(out[i]) in idx && idx[SlotKey(out[i])] == i)
  }

  lemma IndexedSlot<P>(idx: map<string, nat>, out: seq<Row<P>>, r: Row<P>)
    requires Indexes(idx, out)
    ensures HasSlot(out, SlotKey(r)) <==> SlotKey(r) in idx
    ensures DistinctSlots(out)
  {
    hide SlotKey;
  }

  lemma UpdatedAt<P>(idx: map<string, nat>, out: seq<Row<P>>, r: Row<P>)
    requires Indexes(idx, out) && SlotKey(r) in idx
    ensures var i := idx[SlotKey(r)];
            && Updated(out, r) == (if r.ingest > out[i].ingest then out[i := r] else out)
            && Indexes(idx, Updated(out, r))
  {
    hide SlotKey;
    IndexedSlot(idx, out, r);
    var i := idx[SlotKey(r)];
    assert forall j :: 0 <= j < |out| && j != i ==> SlotKey(out[j]) != SlotKey(r);
  }

  // The surviving rows are compacted into the front of the same array.
  method DedupLatest<P>(a: array<Row<P>>) returns (n: nat)
    modifies a
    ensures n <= a.Length && a[..n] == Deduped(old(a[..]))
  {
    hide SlotKey, Updated, HasSlot, Indexes;
    if a.Length < 2 {
      ShortIsDeduped(a[..]);
      return a.Length;
    }
    ghost var rows := a[..];
    var idx: map<string, nat> := map[];
    n := 0;
    NothingIndexed<P>();
    for i := 0 to a.Length
      invariant n <= i && a[..n] == Deduped(rows[..i])
      invariant Indexes(idx, a[..n])
      invariant forall j :: i <= j < a.Length ==> a[j] == rows[j]
    {
      var r := a[i];
      var k := SlotKey(r);
      ghost var out := a[..n];
      assert rows[..i + 1][..i] == rows[..i];
      IndexedSlot(idx, out, r);
      if k in idx {
        UpdatedAt(idx, out, r);
        IndexBounds(idx, out, k);
        var at := idx[k];
        if r.ingest > a[at].ingest {
          a[at] := r;
        }
        assert a[..n] == Updated(out, r);
        continue;
      }
      IndexMore(idx, out, r);
      idx := idx[k := n];
      a[n] := r;
      n := n + 1;
      assert a[..n] == out + [r];
    }
    assert rows[..a.Length] == rows;
  }

  lemma NothingIndexed<P>()
    ensures Indexes<P>(map[], [])
  {
  }

  lemma IndexBounds<P>(idx: map<string, nat>, out: seq<Row<P>>, k: string)
    requires Indexes(idx, out) && k in idx
    ensures idx[k] < |out|
  {
  }

  lemma IndexMore<P>(idx: map<string, nat>, out: seq<Row<P>>, r: Row<P>)
    requires Indexes(idx, out) && SlotKey(r) !in idx
    ensures Indexes(idx[SlotKey(r) := |out|], out + [r])
  {
    hide SlotKey;
  }

  lemma ShortIsDeduped<P>(rows: seq<Row<P>>)
    requires |rows| < 2
    ensures Deduped(rows) == rows
  {
    if |rows| == 1 {
      assert rows[..0] == [];
    }
  }

  // The reader keeps a lifetime count of discarded rows, and complains once if
  // its writer was said to leave none.
  class Reader {
    const uniqueRows: bool
    var collapsed: nat
    var warned: bool

    constructor (uniqueRows: bool)
      ensures this.uniqueRows == uniqueRows && collapsed == 0 && !warned
    {
      this.uniqueRows := uniqueRows;
      collapsed := 0;
      warned := false;
    }

    // The count grows by exactly the duplicates discarded; dropping a version
    // that is not live is not a collapse.
    method DedupLiveAtCounted<P>(a: array<Row<P>>, at: int) returns (n: nat)
      modifies this, a
      ensures n <= a.Length && a[..n] == Live(Deduped(old(a[..])), at)
      ensures collapsed == old(collapsed) + a.Length - |Deduped(old(a[..]))| >= old(collapsed)
      ensures warned == (old(warned) || (uniqueRows && a.Length > |Deduped(old(a[..]))|))
    {
      hide SlotKey, Deduped, Live;
      var kept := DedupLatest(a);
      assert |a[..kept]| == kept;
      var discarded := a.Length - kept;
      if discarded > 0 {
        collapsed := collapsed + discarded;
        if uniqueRows {
          warned := true;
        }
      }
      n := KeepLive(a, kept, at);
    }
  }

  method KeepLive<P>(a: array<Row<P>>, kept: nat, at: int) returns (n: nat)
    requires kept <= a.Length
    modifies a
    ensures n <= kept && a[..n] == Live(old(a[..kept]), at)
  {
    hide LiveAt;
    ghost var rows := a[..kept];
    n := 0;
    for i := 0 to kept
      invariant n <= i && a[..n] == Live(rows[..i], at)
      invariant forall j :: i <= j < kept ==> a[j] == rows[j]
    {
      assert rows[..i + 1][..i] == rows[..i];
      if LiveAt(a[i], at) {
        ghost var out := a[..n];
        a[n] := a[i];
        n := n + 1;
        assert a[..n] == out + [rows[i]];
      }
    }
    assert rows[..kept] == rows;
  }

  // ---- what survives: one newest row per slot ----

  // The first row of the highest sequence number in a slot: what FINAL keeps.
  function Winner<P>(rows: seq<Row<P>>, key: string): (w: seq<Row<P>>)
    ensures |w| <= 1
  {
    if rows == [] then []
    else
      var before, last := Winner(rows[..|rows| - 1], key), rows[|rows| - 1];
      if SlotKey(last) != key then before
      else if before == [] || last.ingest > before[0].ingest then [last]
      else before
  }

  lemma {:induction false} WinnerIsNewest<P>(rows: seq<Row<P>>, key: string)
    ensures Winner(rows, key) == [] <==> !HasSlot(rows, key)
    ensures Winner(rows, key) != [] ==>
              var w := Winner(rows, key)[0];
              && w in rows && SlotKey(w) == key
              && forall i :: 0 <= i < |rows| && SlotKey(rows[i]) == key ==> rows[i].ingest <= w.ingest
  {
    hide SlotKey;
    if rows != [] {
      var init := rows[..|rows| - 1];
      WinnerIsNewest(init, key);
      assert rows == init + [rows[|rows| - 1]];
      assert forall i :: 0 <= i < |init| ==> rows[i] == init[i];
    }
  }

  // The order in which slots were first met.
  function Slots<P>(rows: seq<Row<P>>): (keys: seq<string>)
  {
    if rows == [] then []
    else
      var before := Slots(rows[..|rows| - 1]);
      if SlotKey(rows[|rows| - 1]) in before then before else before + [SlotKey(rows[|rows| - 1])]
  }

  ghost predicate IsFinal<P>(rows: seq<Row<P>>, out: seq<Row<P>>) {
    && |out| == |Slots(rows)|
    && forall i :: 0 <= i < |out| ==> SlotKey(out[i]) == Slots(rows)[i] && Winner(rows, Slots(rows)[i]) == [out[i]]
  }

  lemma {:induction false} SlotsDistinct<P>(rows: seq<Row<P>>)
    ensures forall i, j :: 0 <= i < j < |Slots(rows)| ==> Slots(rows)[i] != Slots(rows)[j]
    ensures forall key :: key in Slots(rows) <==> HasSlot(rows, key)
  {
    hide SlotKey;
    if rows != [] {
      var init := rows[..|rows| - 1];
      SlotsDistinct(init);
      assert rows == init + [rows[|rows| - 1]];
      forall key ensures HasSlot(rows, key) <==> HasSlot(init, key) || key == SlotKey(rows[|rows| - 1]) {
        if HasSlot(init, key) {
          var i :| 0 <= i < |init| && SlotKey(init[i]) == key;
          assert SlotKey(rows[i]) == key;
        }
        assert SlotKey(rows[|init|]) == SlotKey(rows[|rows| - 1]);
      }
    }
  }

  // The pass returns, in first-met slot order, exactly the newest row of every
  // slot.
  lemma {:induction false} DedupedIsFinal<P>(rows: seq<Row<P>>)
    ensures IsFinal(rows, Deduped(rows))
  {
    hide SlotKey;
    if rows != [] {
      var init, r := rows[..|rows| - 1], rows[|rows| - 1];
      DedupedIsFinal(init);
      SlotsDistinct(init);
      PlaceSlot(init, r);
    }
  }

  lemma {:induction false} PlaceSlot<P>(init: seq<Row<P>>, r: Row<P>)
    requires IsFinal(init, Deduped(init))
    ensures HasSlot(Deduped(init), SlotKey(r)) <==> SlotKey(r) in Slots(init)
    ensures SlotKey(r) !in Slots(init) ==> Winner(init, SlotKey(r)) == []
  {
    hide SlotKey;
    SlotsDistinct(init);
    WinnerIsNewest(init, SlotKey(r));
    var out := Deduped(init);
    if SlotKey(r) in Slots(init) {
      var i :| 0 <= i < |out| && Slots(init)[i] == SlotKey(r);
      assert SlotKey(out[i]) == SlotKey(r);
    }
  }

  lemma {:induction false} DedupedMembers<P>(rows: seq<Row<P>>, r: Row<P>)
    ensures r in Deduped(rows) <==> Winner(rows, SlotKey(r)) == [r]
    ensures DistinctSlots(Deduped(rows))
  {
    hide SlotKey;
    DedupedIsFinal(rows);
    SlotsDistinct(rows);
    WinnerIsNewest(rows, SlotKey(r));
    var out := Deduped(rows);
    if Winner(rows, SlotKey(r)) == [r] {
      assert SlotKey(r) in Slots(rows);
      var i :| 0 <= i < |out| && Slots(rows)[i] == SlotKey(r);
      assert out[i] == r;
    }
  }

  // ---- predicates that hold of a whole slot may be pushed into the query ----

  ghost predicate SlotConstant<P>(rows: seq<Row<P>>, p: Row<P> -> bool) {
    forall i, j :: 0 <= i < |rows| && 0 <= j < |rows| && SlotKey(rows[i]) == SlotKey(rows[j]) ==> p(rows[i]) == p(rows[j])
  }

  // p agrees with r on every row of r's slot.
  ghost predicate AgreesWith<P>(rows: seq<Row<P>>, r: Row<P>, p: Row<P> -> bool) {
    forall i :: 0 <= i < |rows| && SlotKey(rows[i]) == SlotKey(r) ==> p(rows[i]) == p(r)
  }

  lemma {:induction false} WhereUpdated<P>(out: seq<Row<P>>, r: Row<P>, p: Row<P> -> bool)
    requires AgreesWith(out, r, p)
    ensures Where(Updated(out, r), p) == if p(r) then Updated(Where(out, p), r) else Where(out, p)
  {
    hide SlotKey;
    if out != [] {
      var init := out[..|out| - 1];
      WhereUpdated(init, r, p);
      assert Updated(out, r)[..|out| - 1] == Updated(init, r);
    }
  }

  lemma {:induction false} WhereHasSlot<P>(rows: seq<Row<P>>, key: string, p: Row<P> -> bool)
    ensures HasSlot(Where(rows, p), key) ==> HasSlot(rows, key)
    ensures HasSlot(rows, key) ==>
              HasSlot(Where(rows, p), key) || forall i :: 0 <= i < |rows| && SlotKey(rows[i]) == key ==> !p(rows[i])
  {
    hide SlotKey;
    WhereMembers(rows, p);
    if HasSlot(Where(rows, p), key) {
      var i :| 0 <= i < |Where(rows, p)| && SlotKey(Where(rows, p)[i]) == key;
      assert Where(rows, p)[i] in Where(rows, p);
    }
    forall i | 0 <= i < |rows| && SlotKey(rows[i]) == key && p(rows[i]) ensures HasSlot(Where(rows, p), key) {
      assert rows[i] in Where(rows, p);
    }
  }

  lemma {:induction false} WhereMembers<P>(rows: seq<Row<P>>, p: Row<P> -> bool)
    ensures forall r :: r in Where(rows, p) <==> r in rows && p(r)
    ensures forall i :: 0 <= i < |Where(rows, p)| ==> Where(rows, p)[i] in rows && p(Where(rows, p)[i])
  {
    if rows != [] {
      var init := rows[..|rows| - 1];
      WhereMembers(init, p);
      assert rows == init + [rows[|rows| - 1]];
      assert forall i :: 0 <= i < |Where(init, p)| ==> Where(rows, p)[i] == Where(init, p)[i];
    }
  }

  // De-duplicating what a slot-constant predicate selects is selecting from the
  // de-duplicated rows.
  lemma {:induction false} DedupCommutes<P>(rows: seq<Row<P>>, p: Row<P> -> bool)
    requires SlotConstant(rows, p)
    ensures Deduped(Where(rows, p)) == Where(Deduped(rows), p)
  {
    hide SlotKey, Updated;
    if rows != [] {
      var init, r := rows[..|rows| - 1], rows[|rows| - 1];
      assert forall i :: 0 <= i < |init| ==> rows[i] == init[i];
      DedupCommutes(init, p);
      DedupedFrom(init);
      assert AgreesWith(Deduped(init), r, p);
      PlaceCommutes(Deduped(init), r, p);
      assert p(r) ==> (Where(init, p) + [r])[..|Where(init, p)|] == Where(init, p);
    }
  }

  lemma {:induction false} DedupedFrom<P>(rows: seq<Row<P>>)
    ensures forall i :: 0 <= i < |Deduped(rows)| ==> exists j :: 0 <= j < |rows| && rows[j] == Deduped(rows)[i]
  {
    hide SlotKey;
    DedupedIsFinal(rows);
    forall i | 0 <= i < |Deduped(rows)| ensures exists j :: 0 <= j < |rows| && rows[j] == Deduped(rows)[i] {
      WinnerIsNewest(rows, Slots(rows)[i]);
      assert Winner(rows, Slots(rows)[i])[0] == Deduped(rows)[i];
    }
  }

  lemma {:induction false} PlaceCommutes<P>(out: seq<Row<P>>, r: Row<P>, p: Row<P> -> bool)
    requires AgreesWith(out, r, p)
    ensures Where(Place(out, r), p) == if p(r) then Place(Where(out, p), r) else Where(out, p)
  {
    hide SlotKey, Updated;
    var key := SlotKey(r);
    WhereHasSlot(out, key, p);
    if HasSlot(out, key) {
      WhereUpdated(out, r, p);
      var i :| 0 <= i < |out| && SlotKey(out[i]) == key;
      assert p(out[i]) == p(r);
    } else {
      assert (out + [r])[..|out|] == out;
    }
  }

  // ---- pruning on valid_to ----

  function NotEnded<P>(at: int): Row<P> -> bool {
    (r: Row<P>) => at < r.vt
  }

  // What the reader returns with and without the pruning predicate, of the rows
  // that had begun by the instant.
  function Unpruned<P>(rows: seq<Row<P>>, at: int): seq<Row<P>> {
    Live(Deduped(rows), at)
  }

  function Pruned<P>(rows: seq<Row<P>>, at: int): seq<Row<P>> {
    Live(Deduped(Where(rows, NotEnded(at))), at)
  }

  ghost predicate Begun<P>(rows: seq<Row<P>>, at: int) {
    forall i :: 0 <= i < |rows| ==> rows[i].vf <= at
  }

  // The newest row of the slot has ended while an older one of it has not.
  ghost predicate StaleTwin<P>(rows: seq<Row<P>>, at: int, key: string) {
    && Winner(rows, key) != [] && !LiveAt(Winner(rows, key)[0], at)
    && exists i :: 0 <= i < |rows| && SlotKey(rows[i]) == key && LiveAt(rows[i], at)
  }

  lemma {:induction false} LiveMembers<P>(rows: seq<Row<P>>, at: int)
    ensures forall r :: r in Live(rows, at) <==> r in rows && LiveAt(r, at)
  {
    if rows != [] {
      LiveMembers(rows[..|rows| - 1], at);
      assert rows == rows[..|rows| - 1] + [rows[|rows| - 1]];
    }
  }

  // Where the newest row passes, selecting first does not change the winner.
  lemma {:induction false} WinnerAmong<P>(rows: seq<Row<P>>, p: Row<P> -> bool, key: string)
    ensures Winner(rows, key) != [] && p(Winner(rows, key)[0]) ==> Winner(Where(rows, p), key) == Winner(rows, key)
    ensures Winner(Where(rows, p), key) != [] ==> Winner(rows, key) != [] && Winner(Where(rows, p), key)[0].ingest <= Winner(rows, key)[0].ingest
  {
    hide SlotKey;
    if rows != [] {
      var init := rows[..|rows| - 1];
      WinnerAmong(init, p, key);
      var r := rows[|rows| - 1];
      assert p(r) ==> (Where(init, p) + [r])[..|Where(init, p)|] == Where(init, p);
      LowerSelected(init, p, key);
    }
  }

  // If the winner fails p, any selected row of the slot is older or as old.
  lemma {:induction false} LowerSelected<P>(rows: seq<Row<P>>, p: Row<P> -> bool, key: string)
    ensures Winner(Where(rows, p), key) != [] ==> Winner(rows, key) != [] && Winner(Where(rows, p), key)[0].ingest <= Winner(rows, key)[0].ingest
  {
    hide SlotKey;
    WinnerIsNewest(rows, key);
    WinnerIsNewest(Where(rows, p), key);
    WhereMembers(rows, p);
    if Winner(Where(rows, p), key) != [] {
      var w := Winner(Where(rows, p), key)[0];
      var i :| 0 <= i < |rows| && rows[i] == w;
    }
  }

  lemma {:induction false} PrunedMembers<P>(rows: seq<Row<P>>, at: int, r: Row<P>)
    requires Begun(rows, at)
    ensures r in Unpruned(rows, at) <==> Winner(rows, SlotKey(r)) == [r] && LiveAt(r, at)
    ensures r in Pruned(rows, at) <==> Winner(Where(rows, NotEnded(at)), SlotKey(r)) == [r]
  {
    hide SlotKey, Deduped;
    DedupedMembers(rows, r);
    DedupedMembers(Where(rows, NotEnded(at)), r);
    LiveMembers(Deduped(rows), at);
    LiveMembers(Deduped(Where(rows, NotEnded(at))), at);
    WinnerIsNewest(Where(rows, NotEnded(at)), SlotKey(r));
    WhereMembers(rows, NotEnded(at));
    if Winner(Where(rows, NotEnded(at)), SlotKey(r)) == [r] {
      var i :| 0 <= i < |rows| && rows[i] == r;
      assert LiveAt(r, at);
    }
  }

  lemma {:induction false} StaleTwinLeaks<P>(rows: seq<Row<P>>, at: int, key: string)
    requires Begun(rows, at) && StaleTwin(rows, at, key)
    ensures exists r :: r in Pruned(rows, at) && r !in Unpruned(rows, at)
  {
    hide SlotKey, Pruned, Unpruned, Winner;
    var i :| 0 <= i < |rows| && SlotKey(rows[i]) == key && LiveAt(rows[i], at);
    var some := Where(rows, NotEnded(at));
    WhereMembers(rows, NotEnded(at));
    assert rows[i] in some;
    var j :| 0 <= j < |some| && some[j] == rows[i];
    WinnerIsNewest(some, key);
    WinnerIsNewest(rows, key);
    var w := Winner(some, key)[0];
    PrunedMembers(rows, at, w);
    assert w in some && NotEnded(at)(w);
  }

  lemma {:induction false} NoTwinNoLeak<P>(rows: seq<Row<P>>, at: int, r: Row<P>)
    requires Begun(rows, at) && !StaleTwin(rows, at, SlotKey(r))
    ensures r in Pruned(rows, at) <==> r in Unpruned(rows, at)
  {
    hide SlotKey, Pruned, Unpruned, Winner;
    var key, some := SlotKey(r), Where(rows, NotEnded(at));
    PrunedMembers(rows, at, r);
    WhereMembers(rows, NotEnded(at));
    WinnerIsNewest(rows, key);
    WinnerIsNewest(some, key);
    WinnerAmong(rows, NotEnded(at), key);
    if Winner(some, key) == [r] {
      var i :| 0 <= i < |rows| && rows[i] == r;
      assert LiveAt(rows[i], at);
      assert NotEnded(at)(Winner(rows, key)[0]);
    }
  }

  // Pruning in the query returns the same versions exactly when no slot holds an
  // ended newest row beside an older one still live.
  lemma {:induction false} PruneIsSafeIff<P>(rows: seq<Row<P>>, at: int)
    requires Begun(rows, at)
    ensures (forall r :: r in Pruned(rows, at) <==> r in Unpruned(rows, at)) <==> (forall key :: !StaleTwin(rows, at, key))
  {
    hide SlotKey, Pruned, Unpruned, StaleTwin, Begun;
    if forall key :: !StaleTwin(rows, at, key) {
      forall r ensures r in Pruned(rows, at) <==> r in Unpruned(rows, at) {
        NoTwinNoLeak(rows, at, r);
      }
    } else {
      var key :| StaleTwin(rows, at, key);
      StaleTwinLeaks(rows, at, key);
      var r :| r in Pruned(rows, at) && r !in Unpruned(rows, at);
    }
  }

  // The rewrite that closes a version, beside the open row it rewrites: pruning
  // drops the closing row and a dead version reads as live.
  lemma {:induction false} PruneLeaks(open: Row<int>, close: Row<int>, at: int)
    requires close == open.(vt := close.vt, ingest := open.ingest + 1)
    requires open.vf <= close.vt <= at < open.vt
    ensures Unpruned([open, close], at) == []
    ensures Pruned([open, close], at) == [open]
  {
    hide SlotKey;
    var rows := [open, close];
    assert SlotKey(open) == SlotKey(close) by { SameSlot(open, close); }
    assert rows[..1] == [open] && [open][..0] == [];
    assert Deduped([open]) == [open];
    assert HasSlot([open], SlotKey(close)) by { assert SlotKey([open][0]) == SlotKey(close); }
    assert Deduped(rows) == [close];
    assert [close][..0] == [];
    assert Where([open], NotEnded(at)) == [open];
    assert Where(rows, NotEnded(at)) == [open];
    assert Live([close], at) == [] && Live([open], at) == [open];
  }

  lemma SameSlot<P>(a: Row<P>, b: Row<P>)
    requires a.cluster == b.cluster && a.ns == b.ns && a.name == b.name && a.vf == b.vf
    ensures SlotKey(a) == SlotKey(b)
  {
  }

  // The pass discards nothing exactly when slots are unique.
  lemma {:induction false} NothingCollapsesIff<P>(rows: seq<Row<P>>)
    ensures |Deduped(rows)| == |rows| <==> DistinctSlots(rows)
    ensures |Deduped(rows)| <= |rows|
    ensures DistinctSlots(rows) ==> Deduped(rows) == rows
  {
    hide SlotKey;
    if rows != [] {
      var init, r := rows[..|rows| - 1], rows[|rows| - 1];
      NothingCollapsesIff(init);
      assert rows == init + [r];
      DedupedIsFinal(init);
      PlaceSlot(init, r);
      SlotsDistinct(init);
      if DistinctSlots(init) {
        assert DistinctSlots(rows) <==> !HasSlot(init, SlotKey(r)) by { DistinctMore(init, r); }
      } else {
        var i, j :| 0 <= i < j < |init| && SlotKey(init[i]) == SlotKey(init[j]);
        assert rows[i] == init[i] && rows[j] == init[j];
      }
    }
  }

  lemma DistinctMore<P>(init: seq<Row<P>>, r: Row<P>)
    requires DistinctSlots(init)
    ensures DistinctSlots(init + [r]) <==> !HasSlot(init, SlotKey(r))
  {
    hide SlotKey;
    var rows := init + [r];
    assert forall i :: 0 <= i < |init| ==> rows[i] == init[i];
    if HasSlot(init, SlotKey(r)) {
      var i :| 0 <= i < |init| && SlotKey(init[i]) == SlotKey(r);
      assert SlotKey(rows[i]) == SlotKey(rows[|init|]);
    }
  }

  // Where the rows of a slot end on one side of the instant, pruning changes
  // nothing at all, order included.
  lemma {:induction false} PruneKeepsOrder<P>(rows: seq<Row<P>>, at: int)
    requires Begun(rows, at) && SlotConstant(rows, NotEnded(at))
    ensures Pruned(rows, at) == Unpruned(rows, at)
  {
    hide SlotKey, Deduped;
    DedupCommutes(rows, NotEnded(at));
    DedupedFrom(rows);
    forall i | 0 <= i < |Deduped(rows)| ensures Deduped(rows)[i].vf <= at {
      var j :| 0 <= j < |rows| && rows[j] == Deduped(rows)[i];
    }
    LiveTwice(Deduped(rows), at);
  }

  // So does it where slots are unique.
  lemma {:induction false} UniqueSlotsPrune<P>(rows: seq<Row<P>>, at: int)
    requires Begun(rows, at) && DistinctSlots(rows)
    ensures Pruned(rows, at) == Unpruned(rows, at)
  {
    hide SlotKey, Deduped, Live, Where;
    DistinctIsConstant(rows, NotEnded(at));
    PruneKeepsOrder(rows, at);
  }

  lemma DistinctIsConstant<P>(rows: seq<Row<P>>, p: Row<P> -> bool)
    requires DistinctSlots(rows)
    ensures SlotConstant(rows, p)
  {
    hide SlotKey;
  }

  lemma {:induction false} WhereDistinct<P>(rows: seq<Row<P>>, p: Row<P> -> bool)
    requires DistinctSlots(rows)
    ensures DistinctSlots(Where(rows, p))
  {
    hide SlotKey;
    if rows != [] {
      var init, r := rows[..|rows| - 1], rows[|rows| - 1];
      WhereDistinct(init, p);
      WhereMembers(init, p);
      assert rows == init + [r];
      var some := Where(init, p);
      forall i | 0 <= i < |some| ensures SlotKey(some[i]) != SlotKey(r) {
        var j :| 0 <= j < |init| && init[j] == some[i];
        assert rows[j] == init[j];
      }
    }
  }

  lemma {:induction false} LiveTwice<P>(rows: seq<Row<P>>, at: int)
    requires Begun(rows, at)
    ensures Live(Where(rows, NotEnded(at)), at) == Live(rows, at)
  {
    if rows != [] {
      var init, r := rows[..|rows| - 1], rows[|rows| - 1];
      LiveTwice(init, at);
      var some := Where(init, NotEnded(at));
      assert (some + [r])[..|some|] == some;
      assert r.vf <= at;
    }
  }
}
