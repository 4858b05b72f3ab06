// Byte order on strings.
module StringOrder {
  import opened Ordering

  predicate CharLess(a: char, b: char) {
    a < b
  }

  predicate Less(a: string, b: string) {
    Lex(CharLess, a, b)
  }

  lemma LessIsTotal()
    ensures TotalOrder(Less)
  {
    hide Lex;
    assert TotalOrder(CharLess);
    LexIsTotal(CharLess, Less);
  }

  function SortedUnique(values: seq<string>): seq<string> {
    SortUnique(values, Less)
  }

  lemma {:induction false} SortedUniqueOf(values: seq<string>)
    ensures Sorted(SortedUnique(values), Less)
    ensures forall x :: x in SortedUnique(values) <==> x in values
  {
    hide Less, TotalOrder, Sorted, SortUnique;
    LessIsTotal();
    SortUniqueOf(values, Less);
  }

  lemma {:induction false} SortedListUnique(a: seq<string>, b: seq<string>)
    requires Sorted(a, Less) && Sorted(b, Less) && forall x :: x in a <==> x in b
    ensures a == b
  {
    hide Less, TotalOrder, Sorted;
    LessIsTotal();
    SortedIsUnique(a, b, Less);
  }

  lemma {:induction false} SortedUniqueSame(a: seq<string>, b: seq<string>)
    requires forall x :: x in a <==> x in b
    ensures SortedUnique(a) == SortedUnique(b)
  {
    hide Less, TotalOrder, SortUnique;
    LessIsTotal();
    SortUniqueSame(a, b, Less);
  }
}
