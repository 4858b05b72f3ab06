// Total orders, their lexicographic lift, and the sorted, repetition-free list
// of a collection.
module Ordering {

  ghost predicate TotalOrder<T(!new)>(less: (T, T) -> bool) {
    && (forall a, b :: less(a, b) || less(b, a) || a == b)
    && (forall a, b :: !(less(a, b) && less(b, a)))
    && (forall a, b, c :: less(a, b) && less(b, c) ==> less(a, c))
  }

  predicate Lex<T(==)>(less: (T, T) -> bool, a: seq<T>, b: seq<T>) {
    if b == [] then false
    else if a == [] then true
    else if a[0] != b[0] then less(a[0], b[0])
    else Lex(less, a[1..], b[1..])
  }

  lemma {:induction false} LexTrichotomy<T(!new)>(less: (T, T) -> bool, a: seq<T>, b: seq<T>)
    requires TotalOrder(less)
    ensures Lex(less, a, b) || Lex(less, b, a) || a == b
    ensures !(Lex(less, a, b) && Lex(less, b, a))
  {
    if a != [] && b != [] && a[0] == b[0] {
      LexTrichotomy(less, a[1..], b[1..]);
      assert a == [a[0]] + a[1..] && b == [b[0]] + b[1..];
    }
  }

  lemma {:induction false} LexTransitive<T(!new)>(less: (T, T) -> bool, a: seq<T>, b: seq<T>, c: seq<T>)
    requires TotalOrder(less) && Lex(less, a, b) && Lex(less, b, c)
    ensures Lex(less, a, c)
  {
    if a != [] && a[0] == b[0] && b[0] == c[0] {
      LexTransitive(less, a[1..], b[1..], c[1..]);
    }
  }

  // A total order on elements makes one on lists of them.
  lemma {:induction false} LexIsTotal<T(!new)>(less: (T, T) -> bool, lex: (seq<T>, seq<T>) -> bool)
    requires TotalOrder(less)
    requires forall a, b :: lex(a, b) <==> Lex(less, a, b)
    ensures TotalOrder(lex)
  {
    hide Lex;
    forall a, b ensures (lex(a, b) || lex(b, a) || a == b) && !(lex(a, b) && lex(b, a)) {
      LexTrichotomy(less, a, b);
    }
    forall a, b, c | lex(a, b) && lex(b, c) ensures lex(a, c) {
      LexTransitive(less, a, b, c);
    }
  }

  // And one on pairs, the first half deciding.
  predicate PairLess<A(==), B>(lessA: (A, A) -> bool, lessB: (B, B) -> bool, x: (A, B), y: (A, B)) {
    lessA(x.0, y.0) || (x.0 == y.0 && lessB(x.1, y.1))
  }

  lemma {:induction false} PairIsTotal<A(!new), B(!new)>(lessA: (A, A) -> bool, lessB: (B, B) -> bool, less: ((A, B), (A, B)) -> bool)
    requires TotalOrder(lessA) && TotalOrder(lessB)
    requires forall x, y :: less(x, y) <==> PairLess(lessA, lessB, x, y)
    ensures TotalOrder(less)
  {
  }

  // ---- lists without repetition ----

  // In the order in which values are first met.
  function AddNew<T(==)>(xs: seq<T>, x: T): seq<T> {
    if x in xs then xs else xs + [x]
  }

  // ---- sorted lists ----

  ghost predicate Sorted<T>(s: seq<T>, less: (T, T) -> bool) {
    forall i, j :: 0 <= i < j < |s| ==> less(s[i], s[j])
  }

  // Put v where it belongs, unless it is there already.
  function Insert<T(==)>(s: seq<T>, v: T, less: (T, T) -> bool): (r: seq<T>)
    ensures r != []
  {
    if s == [] then [v]
    else if s[0] == v then s
    else if less(v, s[0]) then [v] + s
    else [s[0]] + Insert(s[1..], v, less)
  }

  // Sort and compact, as a fold.
  function SortUnique<T(==)>(values: seq<T>, less: (T, T) -> bool): seq<T> {
    if values == [] then [] else Insert(SortUnique(values[..|values| - 1], less), values[|values| - 1], less)
  }

  lemma {:induction false} InsertMembers<T(!new)>(s: seq<T>, v: T, less: (T, T) -> bool)
    ensures forall x :: x in Insert(s, v, less) <==> x in s || x == v
  {
    if s != [] {
      InsertMembers(s[1..], v, less);
      assert s == [s[0]] + s[1..];
    }
  }

  lemma {:induction false} InsertSorts<T(!new)>(s: seq<T>, v: T, less: (T, T) -> bool)
    requires TotalOrder(less) && Sorted(s, less)
    ensures Sorted(Insert(s, v, less), less)
  {
    if s != [] && s[0] != v {
      if less(v, s[0]) {
        forall j | 0 <= j < |s| ensures less(v, s[j]) {
          assert j > 0 ==> less(s[0], s[j]);
        }
      } else {
        var rest := Insert(s[1..], v, less);
        InsertSorts(s[1..], v, less);
        InsertMembers(s[1..], v, less);
        forall j | 0 <= j < |rest| ensures less(s[0], rest[j]) {
          assert rest[j] in rest;
          if rest[j] != v {
            var k :| 0 <= k < |s[1..]| && s[1..][k] == rest[j];
            assert s[k + 1] == rest[j];
          }
        }
      }
    }
  }

  lemma {:induction false} SortUniqueOf<T(!new)>(values: seq<T>, less: (T, T) -> bool)
    requires TotalOrder(less)
    ensures Sorted(SortUnique(values, less), less)
    ensures forall x :: x in SortUnique(values, less) <==> x in values
  {
    hide Insert, Sorted, TotalOrder;
    if values == [] {
      NothingSorted(less);
    } else {
      var n := |values| - 1;
      SortUniqueOf(values[..n], less);
      InsertSorts(SortUnique(values[..n], less), values[n], less);
      InsertMembers(SortUnique(values[..n], less), values[n], less);
      assert values == values[..n] + [values[n]];
    }
  }

  lemma NothingSorted<T>(less: (T, T) -> bool)
    ensures Sorted([], less)
  {
  }

  // A sorted list is determined by its members.
  lemma {:induction false} SortedIsUnique<T(!new)>(a: seq<T>, b: seq<T>, less: (T, T) -> bool)
    requires TotalOrder(less) && Sorted(a, less) && Sorted(b, less) && forall x :: x in a <==> x in b
    ensures a == b
  {
    hide TotalOrder;
    assert |b| > 0 ==> b[0] in b && b[0] in a;
    if a != [] {
      assert a[0] in a;
      FirstsAgree(a, b, less);
      assert a == [a[0]] + a[1..] && b == [b[0]] + b[1..];
      forall x ensures x in a[1..] <==> x in b[1..] {
        TailMembers(a, x, less);
        TailMembers(b, x, less);
      }
      SortedIsUnique(a[1..], b[1..], less);
    }
  }

  lemma {:induction false} FirstsAgree<T(!new)>(a: seq<T>, b: seq<T>, less: (T, T) -> bool)
    requires TotalOrder(less) && Sorted(a, less) && Sorted(b, less) && a != [] && b != [] && a[0] in b && b[0] in a
    ensures a[0] == b[0]
  {
    var i :| 0 <= i < |b| && b[i] == a[0];
    var j :| 0 <= j < |a| && a[j] == b[0];
    assert i > 0 ==> less(b[0], b[i]);
    assert j > 0 ==> less(a[0], a[j]);
  }

  lemma {:induction false} TailMembers<T(!new)>(a: seq<T>, x: T, less: (T, T) -> bool)
    requires TotalOrder(less) && Sorted(a, less) && a != []
    ensures x in a[1..] <==> x in a && x != a[0]
  {
    assert a == [a[0]] + a[1..];
    if x in a[1..] {
      var i :| 0 <= i < |a[1..]| && a[1..][i] == x;
      assert less(a[0], a[i + 1]);
    }
  }

  // Order and repetition of the values never matter.
  lemma {:induction false} SortUniqueSame<T(!new)>(a: seq<T>, b: seq<T>, less: (T, T) -> bool)
    requires TotalOrder(less) && forall x :: x in a <==> x in b
    ensures SortUnique(a, less) == SortUnique(b, less)
  {
    hide SortUnique, Sorted, TotalOrder;
    SortUniqueOf(a, less);
    SortUniqueOf(b, less);
    SortedIsUnique(SortUnique(a, less), SortUnique(b, less), less);
  }
}
