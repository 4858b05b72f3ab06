// The query-result cache as the program keeps it: a doubly linked list in
// recency order, a map from key to list element, and a running total. Every
// method is proved against the recency sequence of CacheSpec.
module QueryCaches {
  import opened Common
  import opened CacheSpec

  const DEFAULT_TTL: int := 60_000_000_000

  class Element {
    const entry: Entry
    var prev: Element?
    var next: Element?

    constructor (entry: Entry)
      ensures this.entry == entry && prev == null && next == null
    {
      this.entry := entry;
      prev, next := null, null;
    }
  }

  ghost function At(elems: seq<Element>, i: int): Element? {
    if 0 <= i < |elems| then elems[i] else null
  }

  ghost function Dropped(elems: seq<Element>, i: nat): (rest: seq<Element>)
    requires i < |elems|
    ensures |rest| == |elems| - 1
  {
    elems[..i] + elems[i + 1..]
  }

  lemma {:induction false} DroppedNeighbours(elems: seq<Element>, i: nat)
    requires NoRepeats(elems) && i < |elems|
    ensures NoRepeats(Dropped(elems, i)) && elems[i] !in Dropped(elems, i)
    ensures forall x :: x in Dropped(elems, i) ==> x in elems
    ensures forall j :: -1 <= j < i ==> At(Dropped(elems, i), j) == At(elems, j)
    ensures forall j :: i <= j < |elems| ==> At(Dropped(elems, i), j) == At(elems, j + 1)
  {
  }

  // A doubly linked list; elems is what a traversal from front meets.
  class RecencyList {
    var front: Element?
    var back: Element?
    ghost var elems: seq<Element>

    ghost predicate Valid()
      reads this, elems
    {
      && NoRepeats(elems)
      && front == At(elems, 0)
      && back == At(elems, |elems| - 1)
      && (forall i {:trigger elems[i].prev} :: 0 <= i < |elems| ==> elems[i].prev == At(elems, i - 1))
      && (forall i {:trigger elems[i].next} :: 0 <= i < |elems| ==> elems[i].next == At(elems, i + 1))
    }

    constructor ()
      ensures Valid() && elems == []
    {
      front, back := null, null;
      elems := [];
    }

    method PushFront(e: Element)
      requires Valid() && e !in elems
      modifies this, e, elems
      ensures Valid() && elems == [e] + old(elems)
    {
      e.prev := null;
      e.next := front;
      if front == null {
        back := e;
      } else {
        front.prev := e;
      }
      front := e;
      elems := [e] + elems;
    }

    method Remove(e: Element, ghost i: nat)
      requires Valid() && i < |elems| && elems[i] == e
      modifies this, elems
      ensures Valid() && elems == Dropped(old(elems), i)
      ensures e !in elems && forall j :: 0 <= j < |elems| ==> elems[j] in old(elems)
    {
      ghost var was := elems;
      var before, after := e.prev, e.next;
      assert before == At(was, i - 1) && after == At(was, i + 1);
      if before == null {
        front := after;
      } else {
        before.next := after;
      }
      if after == null {
        back := before;
      } else {
        after.prev := before;
      }
      elems := Dropped(was, i);
      DroppedNeighbours(was, i);
      forall j | 0 <= j < |elems|
        ensures elems[j].prev == At(elems, j - 1) && elems[j].next == At(elems, j + 1)
      {
        if j < i {
          assert elems[j] == was[j];
        } else {
          assert elems[j] == was[j + 1];
        }
      }
    }

    method MoveToFront(e: Element, ghost i: nat)
      requires Valid() && i < |elems| && elems[i] == e
      modifies this, elems
      ensures Valid() && elems == [e] + Dropped(old(elems), i)
    {
      Remove(e, i);
      PushFront(e);
    }
  }

  ghost function EntriesOf(elems: seq<Element>): (order: seq<Entry>)
    ensures |order| == |elems|
    ensures forall i :: 0 <= i < |elems| ==> order[i] == elems[i].entry
  {
    seq(|elems|, i requires 0 <= i < |elems| => elems[i].entry)
  }

  // The map holds exactly the listed elements, each under its own key.
  ghost predicate Indexes(items: map<CacheKey, Element>, elems: seq<Element>) {
    && (forall i :: 0 <= i < |elems| ==>
          elems[i].entry.key in items && items[elems[i].entry.key] == elems[i])
    && (forall k :: k in items ==> items[k] in elems && items[k].entry.key == k)
  }

  lemma {:induction false} IndexesDrop(items: map<CacheKey, Element>, elems: seq<Element>, i: nat)
    requires Indexes(items, elems) && i < |elems| && DistinctKeys(EntriesOf(elems))
    ensures Indexes(items - {elems[i].entry.key}, Dropped(elems, i))
  {
    var rest := Dropped(elems, i);
    var order := EntriesOf(elems);
    forall j | 0 <= j < |rest|
      ensures rest[j] in elems && rest[j].entry.key != elems[i].entry.key
    {
      var j' := if j < i then j else j + 1;
      assert rest[j] == elems[j'];
      assert order[j'].key != order[i].key;
    }
    forall k | k in items && k != elems[i].entry.key
      ensures items[k] in rest
    {
      var j :| 0 <= j < |elems| && elems[j] == items[k];
      assert rest[if j < i then j else j - 1] == elems[j];
    }
  }

  lemma {:induction false} IndexesCons(items: map<CacheKey, Element>, elems: seq<Element>, e: Element)
    requires Indexes(items, elems) && e.entry.key !in items
    ensures Indexes(items[e.entry.key := e], [e] + elems)
  {
    var all := [e] + elems;
    assert forall j :: 1 <= j < |all| ==> all[j] == elems[j - 1];
    forall k | k in items ensures items[k] in all {
      var j :| 0 <= j < |elems| && elems[j] == items[k];
      assert all[j + 1] == items[k];
    }
    assert all[0] == e;
  }

  lemma {:induction false} IndexesMoved(items: map<CacheKey, Element>, elems: seq<Element>, i: nat)
    requires Indexes(items, elems) && i < |elems|
    ensures Indexes(items, [elems[i]] + Dropped(elems, i))
  {
    var all := [elems[i]] + Dropped(elems, i);
    forall x | x in elems ensures x in all {
      var j :| 0 <= j < |elems| && elems[j] == x;
      assert all[if j == i then 0 else if j < i then j + 1 else j] == x;
    }
    forall x | x in all ensures x in elems {
    }
    forall j | 0 <= j < |all| ensures all[j].entry.key in items && items[all[j].entry.key] == all[j] {
      assert all[j] in elems;
    }
  }

  // The map answers what a scan of the list would.
  lemma {:induction false} IndexesFind(items: map<CacheKey, Element>, elems: seq<Element>, k: CacheKey)
    requires Indexes(items, elems) && DistinctKeys(EntriesOf(elems))
    ensures k in items <==> Find(EntriesOf(elems), k) < |elems|
    ensures k in items ==> items[k] == elems[Find(EntriesOf(elems), k)]
  {
    if k in items {
      var i :| 0 <= i < |elems| && elems[i] == items[k];
      FindUnique(EntriesOf(elems), i);
    }
  }

  lemma {:induction false} DroppedEntries(elems: seq<Element>, i: nat)
    requires i < |elems|
    ensures EntriesOf(Dropped(elems, i)) == DropAt(EntriesOf(elems), i)
  {
  }

  lemma {:induction false} MovedEntries(elems: seq<Element>, i: nat)
    requires i < |elems|
    ensures var moved := [elems[i]] + Dropped(elems, i);
            && EntriesOf(moved) == [EntriesOf(elems)[i]] + DropAt(EntriesOf(elems), i)
            && forall j :: 0 <= j < |elems| ==> moved[j] in elems
  {
    assert elems == elems[..i] + [elems[i]] + elems[i + 1..];
  }

  lemma {:induction false} ConsEntries(e: Element, elems: seq<Element>)
    ensures EntriesOf([e] + elems) == [e.entry] + EntriesOf(elems)
  {
  }

  // List, map and running total describe one well-formed recency sequence.
  ghost predicate Consistent(items: map<CacheKey, Element>, elems: seq<Element>, size: int, max: nat) {
    && Indexes(items, elems)
    && WellFormed(EntriesOf(elems), max)
    && size == Total(EntriesOf(elems))
  }

  lemma {:induction false} ConsistentDrop(items: map<CacheKey, Element>, elems: seq<Element>, size: int, max: nat, i: nat)
    requires Consistent(items, elems, size, max) && i < |elems|
    ensures Consistent(items - {elems[i].entry.key}, Dropped(elems, i), size - elems[i].entry.cost, max)
    ensures EntriesOf(Dropped(elems, i)) == DropAt(EntriesOf(elems), i)
  {
    IndexesDrop(items, elems, i);
    DropAtKeepsWellFormed(EntriesOf(elems), i, max);
    hide Total;
    TotalDropAt(EntriesOf(elems), i);
    DroppedEntries(elems, i);
  }

  lemma {:induction false} ConsistentMove(items: map<CacheKey, Element>, elems: seq<Element>, size: int, max: nat, i: nat)
    requires Consistent(items, elems, size, max) && i < |elems|
    ensures Consistent(items, [elems[i]] + Dropped(elems, i), size, max)
    ensures EntriesOf([elems[i]] + Dropped(elems, i)) == [EntriesOf(elems)[i]] + DropAt(EntriesOf(elems), i)
    ensures forall j :: 0 <= j < |elems| ==> ([elems[i]] + Dropped(elems, i))[j] in elems
  {
    hide Total;
    var order := EntriesOf(elems);
    IndexesMoved(items, elems, i);
    DropAtKeepsWellFormed(order, i, max);
    TotalDropAt(order, i);
    ConsKeepsWellFormed(order[i], DropAt(order, i), max);
    TotalCons(order[i], DropAt(order, i));
    hide DropAt, Dropped;
    MovedEntries(elems, i);
  }

  lemma {:induction false} ConsistentCons(items: map<CacheKey, Element>, elems: seq<Element>, size: int, max: nat, e: Element)
    requires Consistent(items, elems, size, max)
    requires e.entry.cost == EntryCost(e.entry.vec) && size + e.entry.cost <= max
    requires forall x :: x in EntriesOf(elems) ==> x.key != e.entry.key
    ensures Consistent(items[e.entry.key := e], [e] + elems, size + e.entry.cost, max)
    ensures EntriesOf([e] + elems) == [e.entry] + EntriesOf(elems)
    ensures e !in elems
  {
    hide Total;
    var order := EntriesOf(elems);
    FindResident(order, e.entry.key);
    IndexesFind(items, elems, e.entry.key);
    IndexesCons(items, elems, e);
    ConsKeepsWellFormed(e.entry, order, max);
    TotalCons(e.entry, order);
    ConsEntries(e, elems);
  }

  class QueryCache {
    const max: nat
    const ttl: int
    const ll: RecencyList
    var items: map<CacheKey, Element>
    var size: int
    // What the recorder last saw: the resident-series gauge and the evictions.
    var gauge: int
    var evictions: nat

    ghost function Order(): seq<Entry>
      reads this, ll
    {
      EntriesOf(ll.elems)
    }

    // Between the steps of a put the gauge lags; everything else always holds.
    ghost predicate Linked()
      reads this, ll, ll.elems
    {
      ll.Valid() && Consistent(items, ll.elems, size, max)
    }

    ghost predicate Valid()
      reads this, ll, ll.elems
    {
      Linked() && gauge == size
    }

    // A cache exists only for a positive budget; New gives null otherwise.
    constructor (max: nat, ttl: int)
      requires max > 0
      ensures Valid() && Order() == [] && evictions == 0
      ensures this.max == max
      ensures this.ttl == if ttl <= 0 then DEFAULT_TTL else ttl
      ensures fresh(ll)
    {
      this.max := max;
      this.ttl := if ttl <= 0 then DEFAULT_TTL else ttl;
      ll := new RecencyList();
      items := map[];
      size, gauge, evictions := 0, 0, 0;
    }

    static method New(maxSeries: int, ttl: int) returns (c: QueryCache?)
      ensures c == null <==> maxSeries <= 0
      ensures c != null ==> fresh(c) && fresh(c.ll) && c.Valid() && c.Order() == [] && c.max == maxSeries
      ensures c != null ==> c.ttl == if ttl <= 0 then DEFAULT_TTL else ttl
    {
      if maxSeries <= 0 {
        return null;
      }
      c := new QueryCache(maxSeries, ttl);
    }

    method RemoveLocked(el: Element, ghost i: nat)
      requires Linked() && i < |ll.elems| && ll.elems[i] == el
      modifies this, ll, ll.elems
      ensures Linked() && Order() == DropAt(old(Order()), i)
      ensures forall i :: 0 <= i < |ll.elems| ==> ll.elems[i] in old(ll.elems)
      ensures gauge == old(gauge) && evictions == old(evictions)
    {
      hide RecencyList.Valid, Consistent, DropAt, Dropped, EntriesOf;
      ConsistentDrop(items, ll.elems, size, max, i);
      ll.Remove(el, i);
      items := items - {el.entry.key};
      size := size - el.entry.cost;
    }

    method Get(k: CacheKey, now: int) returns (r: Lookup)
      requires Valid()
      modifies this, ll, ll.elems
      ensures Valid()
      ensures r == GetResult(old(Order()), k, now)
      ensures Order() == GetState(old(Order()), k, now)
      ensures forall i :: 0 <= i < |ll.elems| ==> ll.elems[i] in old(ll.elems)
      ensures evictions == old(evictions)
    {
      hide RecencyList.Valid, Consistent, DropAt, Dropped, EntriesOf, Find;
      ghost var i := FindItem(k);
      if k !in items {
        return Miss;
      }
      var el := items[k];
      if !(now < el.entry.expires) {
        RemoveLocked(el, i);
        gauge := size;
        return Miss;
      }
      ConsistentMove(items, ll.elems, size, max, i);
      ll.MoveToFront(el, i);
      return Hit(el.entry.vec);
    }

    // A result larger than the whole budget is not cached; otherwise the
    // least recently used entries give way until it fits.
    method Put(k: CacheKey, v: Vector, now: int)
      requires Valid()
      modifies this, ll, ll.elems
      ensures Valid()
      ensures Order() == PutState(old(Order()), k, v, now + ttl, max)
      ensures forall i :: 0 <= i < |ll.elems| ==> ll.elems[i] in old(ll.elems) || fresh(ll.elems[i])
      ensures evictions == old(evictions)
                           + if EntryCost(v) > max then 0
                             else |Without(old(Order()), k)| - |Order()| + 1
    {
      hide RecencyList.Valid, Consistent, DropAt, Dropped, EntriesOf, Fit, Find, Total, EntryCost;
      var cost := EntryCost(v);
      if cost > max {
        return;
      }
      ghost var others := Without(Order(), k);
      ghost var i := FindItem(k);
      PutFacts(k, cost);
      if k in items {
        RemoveLocked(items[k], i);
      }
      assert Order() == others;
      EvictUntilFits(cost);
      Insert(k, v, cost, now);
      gauge := size;
    }

    method EvictUntilFits(cost: nat)
      requires Linked() && cost <= max
      modifies this, ll, ll.elems
      ensures Linked() && size + cost <= max
      ensures Order() == Fit(old(Order()), max - cost)
      ensures forall i :: 0 <= i < |ll.elems| ==> ll.elems[i] in old(ll.elems)
      ensures evictions == old(evictions) + |old(Order())| - |Order()|
      ensures gauge == old(gauge)
    {
      hide RecencyList.Valid, Consistent, Dropped, EntriesOf, Fit, DropAt, Total;
      while size + cost > max
        invariant Linked()
        invariant forall i :: 0 <= i < |ll.elems| ==> ll.elems[i] in old(ll.elems)
        invariant Fit(Order(), max - cost) == Fit(old(Order()), max - cost)
        invariant evictions == old(evictions) + |old(Order())| - |Order()|
        invariant gauge == old(gauge)
        decreases |Order()|
      {
        ghost var last := BackItem(max - cost);
        var back := ll.back;
        if back == null {
          break;
        }
        RemoveLocked(back, last);
        evictions := evictions + 1;
      }
      ghost var _ := BackItem(max - cost);
    }

    method Insert(k: CacheKey, v: Vector, cost: nat, now: int)
      requires Linked() && cost == EntryCost(v) && size + cost <= max
      requires forall x :: x in Order() ==> x.key != k
      modifies this, ll, ll.elems
      ensures Linked() && Order() == [MakeEntry(k, v, now + ttl)] + old(Order())
      ensures forall i :: 0 <= i < |ll.elems| ==> ll.elems[i] in old(ll.elems) || fresh(ll.elems[i])
      ensures gauge == old(gauge) && evictions == old(evictions)
    {
      var e := new Element(MakeEntry(k, v, now + ttl));
      hide RecencyList.Valid, Consistent, EntriesOf;
      ConsistentCons(items, ll.elems, size, max, e);
      ll.PushFront(e);
      items := items[k := e];
      size := size + cost;
    }

    // The map answers what a scan of the list would.
    lemma {:induction false} FindItem(k: CacheKey) returns (i: nat)
      requires Linked()
      ensures i == Find(Order(), k)
      ensures k in items <==> i < |ll.elems|
      ensures k in items ==> items[k] == ll.elems[i] && Order()[i] == items[k].entry
    {
      hide RecencyList.Valid, Total;
      i := Find(Order(), k);
      IndexesFind(items, ll.elems, k);
    }

    // While the resident total is over room there is a back entry, and dropping
    // it is one step of Fit; once it is not, Fit is done.
    lemma {:induction false} BackItem(room: nat) returns (i: int)
      requires Linked()
      ensures i == |Order()| - 1 == |ll.elems| - 1
      ensures ll.back == if i < 0 then null else ll.elems[i]
      ensures size > room ==> i >= 0 && Fit(Order(), room) == Fit(DropAt(Order(), i), room)
      ensures size <= room ==> Fit(Order(), room) == Order()
    {
      i := |ll.elems| - 1;
      if i >= 0 {
        assert DropAt(Order(), i) == Order()[..i];
      }
    }

    lemma {:induction false} PutFacts(k: CacheKey, cost: nat)
      requires Linked() && cost <= max
      ensures forall x :: x in Fit(Without(Order(), k), max - cost) ==> x.key != k
    {
      hide RecencyList.Valid, Indexes, Total;
      var others := Without(Order(), k);
      WithoutLacks(Order(), k);
      FitIsLongestPrefix(others, max - cost);
      assert forall i :: 0 <= i < |Fit(others, max - cost)| ==> Fit(others, max - cost)[i] == others[i] && others[i] in others;
    }
  }
}
