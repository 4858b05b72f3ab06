// What the query-result cache means, independently of how it is stored: a
// sequence of entries, most recently used first. The class in querycache.dfy
// refines these functions and the guard's state machine steps through them.
module CacheSpec {

  // A result vector. The nil vector and the empty one differ in Go, and the
  // cache turns the first into the second.
  datatype Vector = NilVector | Vector(samples: seq<nat>) {
    function Len(): nat {
      if NilVector? then 0 else |samples|
    }

    function NonNil(): Vector {
      if NilVector? then Vector([]) else this
    }
  }

  datatype CacheKey = CacheKey(store: nat, query: string, ts: int)

  datatype Entry = Entry(key: CacheKey, vec: Vector, cost: nat, expires: int)

  datatype Lookup = Miss | Hit(vec: Vector)

  function EntryCost(v: Vector): nat {
    if v.Len() > 1 then v.Len() else 1
  }

  function Total(order: seq<Entry>): nat {
    if order == [] then 0 else Total(order[..|order| - 1]) + order[|order| - 1].cost
  }

  // The position of k in the recency order, or its length.
  function Find(order: seq<Entry>, k: CacheKey): (i: nat)
    ensures i <= |order|
    ensures i < |order| ==> order[i].key == k
    ensures forall j :: 0 <= j < i ==> order[j].key != k
  {
    if order == [] then 0
    else if order[0].key == k then 0
    else 1 + Find(order[1..], k)
  }

  function DropAt(order: seq<Entry>, i: nat): (rest: seq<Entry>)
    requires i < |order|
    ensures |rest| == |order| - 1
  {
    order[..i] + order[i + 1..]
  }

  function Without(order: seq<Entry>, k: CacheKey): seq<Entry> {
    var i := Find(order, k);
    if i < |order| then DropAt(order, i) else order
  }

  // Evict from the back until what is left costs at most room.
  function Fit(order: seq<Entry>, room: nat): seq<Entry> {
    if Total(order) <= room then order else Fit(order[..|order| - 1], room)
  }

  ghost predicate DistinctKeys(order: seq<Entry>) {
    forall i, j :: 0 <= i < j < |order| ==> order[i].key != order[j].key
  }

  ghost predicate HonestCosts(order: seq<Entry>) {
    forall i :: 0 <= i < |order| ==> order[i].cost == EntryCost(order[i].vec)
  }

  // The invariant of the whole cache.
  ghost predicate WellFormed(order: seq<Entry>, max: nat) {
    DistinctKeys(order) && HonestCosts(order) && Total(order) <= max
  }

  function GetResult(order: seq<Entry>, k: CacheKey, now: int): Lookup {
    var i := Find(order, k);
    if i < |order| && now < order[i].expires then Hit(order[i].vec) else Miss
  }

  function GetState(order: seq<Entry>, k: CacheKey, now: int): seq<Entry> {
    var i := Find(order, k);
    if i == |order| then order
    else if now < order[i].expires then [order[i]] + DropAt(order, i)
    else DropAt(order, i)
  }

  function MakeEntry(k: CacheKey, v: Vector, expires: int): Entry {
    Entry(k, v.NonNil(), EntryCost(v), expires)
  }

  function PutState(order: seq<Entry>, k: CacheKey, v: Vector, expires: int, max: nat): seq<Entry> {
    if EntryCost(v) > max then order
    else [MakeEntry(k, v, expires)] + Fit(Without(order, k), max - EntryCost(v))
  }

  // An empty result is charged one unit, any other one for each series.
  lemma CostIs(v: Vector)
    ensures EntryCost(NilVector) == 1 && EntryCost(Vector([])) == 1
    ensures v.Vector? && v.samples != [] ==> EntryCost(v) == |v.samples|
  {
  }

  // ---- totals ----

  lemma {:induction false} TotalAppend(a: seq<Entry>, b: seq<Entry>)
    ensures Total(a + b) == Total(a) + Total(b)
  {
    if b == [] {
      assert a + b == a;
    } else {
      var n := |b| - 1;
      assert (a + b)[..|a + b| - 1] == a + b[..n];
      TotalAppend(a, b[..n]);
    }
  }

  lemma {:induction false} TotalCons(e: Entry, order: seq<Entry>)
    ensures Total([e] + order) == e.cost + Total(order)
  {
    TotalAppend([e], order);
    assert [e][..0] == [];
  }

  lemma {:induction false} TotalMiddle(before: seq<Entry>, e: Entry, after: seq<Entry>)
    ensures Total(before + ([e] + after)) == Total(before + after) + e.cost
  {
    hide Total;
    TotalAppend(before, [e] + after);
    TotalCons(e, after);
    TotalAppend(before, after);
  }

  lemma {:induction false} TotalDropAt(order: seq<Entry>, i: nat)
    requires i < |order|
    ensures Total(order) == Total(DropAt(order, i)) + order[i].cost
  {
    hide Total;
    TotalMiddle(order[..i], order[i], order[i + 1..]);
    assert order[..i] + ([order[i]] + order[i + 1..]) == order;
  }

  // ---- Fit is the longest prefix that fits ----

  lemma {:induction false} FitIsLongestPrefix(order: seq<Entry>, room: nat)
    ensures Fit(order, room) <= order
    ensures Total(Fit(order, room)) <= room
    ensures forall n :: |Fit(order, room)| < n <= |order| ==> Total(order[..n]) > room
    decreases |order|
  {
    if Total(order) > room {
      var shorter := order[..|order| - 1];
      FitIsLongestPrefix(shorter, room);
      forall n | |Fit(order, room)| < n <= |order|
        ensures Total(order[..n]) > room
      {
        if n < |order| {
          assert order[..n] == shorter[..n];
        } else {
          assert order[..n] == order;
        }
      }
    }
  }

  // ---- lookups by key ----

  lemma {:induction false} FindUnique(order: seq<Entry>, i: nat)
    requires DistinctKeys(order) && i < |order|
    ensures Find(order, order[i].key) == i
  {
    var j := Find(order, order[i].key);
    assert j <= i;
  }

  lemma {:induction false} WithoutLacks(order: seq<Entry>, k: CacheKey)
    requires DistinctKeys(order)
    ensures DistinctKeys(Without(order, k))
    ensures forall e :: e in Without(order, k) <==> e in order && e.key != k
  {
    var i := Find(order, k);
    if i < |order| {
      var rest := Without(order, k);
      forall e | e in order && e.key != k ensures e in rest {
        var j :| 0 <= j < |order| && order[j] == e;
        if j < i { assert rest[j] == e; } else { assert rest[j - 1] == e; }
      }
      forall e | e in rest ensures e in order && e.key != k {
        var j :| 0 <= j < |rest| && rest[j] == e;
        if j < i { assert order[j] == e; } else { assert order[j + 1] == e; }
      }
    } else {
      forall e | e in order ensures e.key != k {
        var j :| 0 <= j < |order| && order[j] == e;
      }
    }
  }

  // An entry is found exactly when the key is resident.
  lemma {:induction false} FindResident(order: seq<Entry>, k: CacheKey)
    ensures Find(order, k) < |order| <==> exists e :: e in order && e.key == k
  {
    if Find(order, k) < |order| {
      assert order[Find(order, k)] in order;
    } else {
      forall e | e in order ensures e.key != k {
        var j :| 0 <= j < |order| && order[j] == e;
      }
    }
  }

  // ---- every operation keeps the invariant ----

  lemma {:induction false} DropAtKeepsWellFormed(order: seq<Entry>, i: nat, max: nat)
    requires WellFormed(order, max) && i < |order|
    ensures WellFormed(DropAt(order, i), max)
    ensures forall e :: e in DropAt(order, i) ==> e.key != order[i].key
  {
    TotalDropAt(order, i);
    var rest := DropAt(order, i);
    assert forall j :: 0 <= j < |rest| ==> rest[j] == order[if j < i then j else j + 1];
  }

  lemma {:induction false} ConsKeepsWellFormed(e: Entry, rest: seq<Entry>, max: nat)
    requires DistinctKeys(rest) && HonestCosts(rest) && e.cost == EntryCost(e.vec)
    requires forall x :: x in rest ==> x.key != e.key
    requires e.cost + Total(rest) <= max
    ensures WellFormed([e] + rest, max)
  {
    TotalCons(e, rest);
    var all := [e] + rest;
    assert forall j :: 1 <= j < |all| ==> all[j] == rest[j - 1] && rest[j - 1] in rest;
  }

  lemma {:induction false} GetKeepsWellFormed(order: seq<Entry>, k: CacheKey, now: int, max: nat)
    requires WellFormed(order, max)
    ensures WellFormed(GetState(order, k, now), max)
  {
    var i := Find(order, k);
    if i < |order| {
      DropAtKeepsWellFormed(order, i, max);
      TotalDropAt(order, i);
      if now < order[i].expires {
        ConsKeepsWellFormed(order[i], DropAt(order, i), max);
      }
    }
  }

  lemma {:induction false} PrefixKeepsDistinct(rest: seq<Entry>, order: seq<Entry>)
    requires rest <= order && DistinctKeys(order) && HonestCosts(order)
    ensures DistinctKeys(rest) && HonestCosts(rest)
    ensures forall x :: x in rest ==> x in order
  {
    assert forall i :: 0 <= i < |rest| ==> rest[i] == order[i];
  }

  lemma {:induction false} WithoutKeepsWellFormed(order: seq<Entry>, k: CacheKey, max: nat)
    requires WellFormed(order, max)
    ensures WellFormed(Without(order, k), max)
  {
    if Find(order, k) < |order| {
      DropAtKeepsWellFormed(order, Find(order, k), max);
    }
  }

  lemma {:induction false} PutKeepsWellFormed(order: seq<Entry>, k: CacheKey, v: Vector, expires: int, max: nat)
    requires WellFormed(order, max)
    ensures WellFormed(PutState(order, k, v, expires, max), max)
  {
    if EntryCost(v) <= max {
      var others, room := Without(order, k), max - EntryCost(v);
      WithoutLacks(order, k);
      WithoutKeepsWellFormed(order, k, max);
      FitIsLongestPrefix(others, room);
      PrefixKeepsDistinct(Fit(others, room), others);
      ConsKeepsWellFormed(MakeEntry(k, v, expires), Fit(others, room), max);
    }
  }

  // ---- what a caller observes ----

  // A hit returns the resident unexpired vector and drops nothing; a miss
  // leaves no entry for the key at all, expired or not.
  lemma {:induction false} GetObserves(order: seq<Entry>, k: CacheKey, now: int)
    requires DistinctKeys(order)
    ensures GetResult(order, k, now).Hit? <==>
              exists e :: e in order && e.key == k && now < e.expires
    ensures GetResult(order, k, now).Hit? ==>
              forall e :: e in GetState(order, k, now) <==> e in order
    ensures GetResult(order, k, now).Hit? ==>
              GetState(order, k, now)[0].key == k && GetState(order, k, now)[0].vec == GetResult(order, k, now).vec
    ensures GetResult(order, k, now).Miss? ==>
              forall e :: e in GetState(order, k, now) <==> e in order && e.key != k
  {
    var i := Find(order, k);
    WithoutLacks(order, k);
    FindResident(order, k);
    if i < |order| {
      assert order[i] in order;
      forall e | e in order && e.key == k ensures e == order[i] {
        var j :| 0 <= j < |order| && order[j] == e;
      }
    }
  }

  // Reading back what was just put yields it (nil read back as empty) until it
  // expires; a result larger than the whole budget changes nothing.
  lemma {:induction false} PutThenGet(order: seq<Entry>, k: CacheKey, v: Vector, expires: int, max: nat, now: int)
    ensures EntryCost(v) > max ==> PutState(order, k, v, expires, max) == order
    ensures EntryCost(v) <= max ==>
              GetResult(PutState(order, k, v, expires, max), k, now)
              == if now < expires then Hit(if v.NilVector? then Vector([]) else v) else Miss
  {
  }

  // A put keeps, of the previous recency order without k, exactly the longest
  // prefix that still fits beside the new entry.
  lemma {:induction false} PutKeepsLongestPrefix(order: seq<Entry>, k: CacheKey, v: Vector, expires: int, max: nat)
    requires EntryCost(v) <= max
    ensures var after := PutState(order, k, v, expires, max);
            && |after| > 0
            && after[0] == MakeEntry(k, v, expires)
            && after[1..] <= Without(order, k)
            && Total(after[1..]) + EntryCost(v) <= max
            && forall n :: |after[1..]| < n <= |Without(order, k)| ==>
                 Total(Without(order, k)[..n]) + EntryCost(v) > max
  {
    FitIsLongestPrefix(Without(order, k), max - EntryCost(v));
  }

  // The series resident in all entries together.
  function Resident(order: seq<Entry>): nat {
    if order == [] then 0 else Resident(order[..|order| - 1]) + order[|order| - 1].vec.Len()
  }

  // So the budget bounds the entries of a cache as well as its series.
  lemma {:induction false} BudgetBoundsBoth(order: seq<Entry>, max: nat)
    requires HonestCosts(order) && Total(order) <= max
    ensures |order| <= max && Resident(order) <= max
  {
    CostsCover(order);
  }

  lemma {:induction false} CostsCover(order: seq<Entry>)
    requires HonestCosts(order)
    ensures |order| <= Total(order) && Resident(order) <= Total(order)
  {
    if order != [] {
      CostsCover(order[..|order| - 1]);
    }
  }
}
