// The answer of a label query: label maps made distinct by an exact identity
// string, in an order that depends only on which maps there are.
module LabelSets {
  import opened Common
  import opened Ordering
  import opened StringOrder
  import opened Decimal
  import opened Matchers

  type LabelMap = map<string, string>
  type Entry = (string, string)

  const METRIC_NAME := "__name__"

  // ---- a map as its sorted entries ----

  // The elements of a set in byte order.
  ghost function SortedSet(s: set<string>): seq<string>
    decreases |s|
  {
    if s == {} then []
    else
      var x :| x in s;
      Insert(SortedSet(s - {x}), x, Less)
  }

  lemma {:induction false} SortedSetOf(s: set<string>)
    ensures Sorted(SortedSet(s), Less) && forall x :: x in SortedSet(s) <==> x in s
    decreases |s|
  {
    hide Less, Insert, Sorted;
    LessIsTotal();
    if s == {} {
      NothingSorted(Less);
    } else {
      var x := SortedSetPick(s);
      SortedSetOf(s - {x});
      InsertSorts(SortedSet(s - {x}), x, Less);
      InsertMembers(SortedSet(s - {x}), x, Less);
    }
  }

  // Some element of s was put last.
  lemma SortedSetPick(s: set<string>) returns (x: string)
    requires s != {}
    ensures x in s && SortedSet(s) == Insert(SortedSet(s - {x}), x, Less)
  {
    hide Less, Insert;
    x :| x in s && SortedSet(s) == Insert(SortedSet(s - {x}), x, Less);
  }

  method SortedKeys(m: LabelMap) returns (keys: seq<string>)
    ensures keys == SortedSet(m.Keys)
  {
    hide Less, Insert, SortedSet, Sorted;
    LessIsTotal();
    NothingSorted(Less);
    keys := [];
    var left := m.Keys;
    while left != {}
      invariant left <= m.Keys
      invariant Sorted(keys, Less) && forall x :: x in keys <==> x in m.Keys - left
    {
      var k: string :| k in left;
      InsertSorts(keys, k, Less);
      InsertMembers(keys, k, Less);
      keys := Insert(keys, k, Less);
      left := left - {k};
    }
    SortedSetOf(m.Keys);
    SortedListUnique(keys, SortedSet(m.Keys));
  }

  ghost function EntriesAt(m: LabelMap, keys: seq<string>): (entries: seq<Entry>)
    requires forall i :: 0 <= i < |keys| ==> keys[i] in m
    ensures |entries| == |keys|
  {
    seq(|keys|, i requires 0 <= i < |keys| => (keys[i], m[keys[i]]))
  }

  ghost function Entries(m: LabelMap): seq<Entry> {
    SortedSetOf(m.Keys);
    KeysHeld(m);
    EntriesAt(m, SortedSet(m.Keys))
  }

  lemma KeysHeld(m: LabelMap)
    ensures forall i :: 0 <= i < |SortedSet(m.Keys)| ==> SortedSet(m.Keys)[i] in m
  {
    hide SortedSet;
    SortedSetOf(m.Keys);
    assert forall i :: 0 <= i < |SortedSet(m.Keys)| ==> SortedSet(m.Keys)[i] in SortedSet(m.Keys);
  }

  // A map is determined by its sorted entries.
  lemma {:induction false} EntriesDetermine(a: LabelMap, b: LabelMap)
    requires Entries(a) == Entries(b)
    ensures a == b
  {
    hide SortedSet;
    SortedSetOf(a.Keys);
    SortedSetOf(b.Keys);
    var ka, kb := SortedSet(a.Keys), SortedSet(b.Keys);
    KeysHeld(a);
    KeysHeld(b);
    assert forall i :: 0 <= i < |ka| ==> Entries(a)[i] == (ka[i], a[ka[i]]);
    assert forall i :: 0 <= i < |kb| ==> Entries(b)[i] == (kb[i], b[kb[i]]);
    assert ka == kb;
    assert a.Keys == b.Keys;
    forall k | k in a ensures a[k] == b[k] {
      assert k in ka;
      var i :| 0 <= i < |ka| && ka[i] == k;
      assert Entries(a)[i] == Entries(b)[i];
    }
  }

  // ---- the identity string ----

  function Field(s: string): string {
    Itoa(|s|) + ":" + s
  }

  function Encode(entries: seq<Entry>): string {
    if entries == [] then []
    else Field(entries[0].0) + Field(entries[0].1) + Encode(entries[1..])
  }

  ghost function LabelSetID(m: LabelMap): string {
    Encode(Entries(m))
  }

  // One length-prefixed field, and what follows it.
  function ReadField(s: string): (r: Option<(string, string)>)
    ensures r.Some? ==> |r.value.1| < |s|
  {
    var i := IndexOf(s, ':');
    if i == |s| then None
    else
      var n, rest := ValueOf(s[..i]), s[i + 1..];
      if 0 <= n <= |rest| then Some((rest[..n], rest[n..])) else None
  }

  function Decode(s: string): Option<seq<Entry>>
    decreases |s|
  {
    if s == [] then Some([])
    else
      var k := ReadField(s);
      if k.None? then None
      else
        var v := ReadField(k.value.1);
        if v.None? then None
        else
          var rest := Decode(v.value.1);
          if rest.None? then None else Some([(k.value.0, v.value.0)] + rest.value)
  }

  lemma {:induction false} FieldReadBack(s: string, rest: string)
    ensures ReadField(Field(s) + rest) == Some((s, rest))
  {
    hide Digits, ValueOf, IndexOf, Itoa;
    var n := Itoa(|s|);
    var all := Field(s) + rest;
    assert all == n + [':'] + (s + rest);
    ItoaReadBack(|s|);
    ItoaPlain(|s|);
    var i := IndexOf(all, ':');
    assert all[|n|] == ':';
    assert forall j :: 0 <= j < |n| ==> all[j] == n[j];
    assert i == |n|;
    assert all[..i] == n && all[i + 1..] == s + rest;
  }

  // The encoding can be read back for any keys and values, so no label value
  // can forge a separator.
  lemma {:induction false} EncodeReadBack(entries: seq<Entry>)
    ensures Decode(Encode(entries)) == Some(entries)
  {
    hide Field, ReadField;
    if entries != [] {
      var k, v, rest := entries[0].0, entries[0].1, Encode(entries[1..]);
      assert Encode(entries) == Field(k) + (Field(v) + rest);
      FieldReadBack(k, Field(v) + rest);
      FieldReadBack(v, rest);
      EncodeReadBack(entries[1..]);
      FieldNotEmpty(k, Field(v) + rest);
      assert entries == [(k, v)] + entries[1..];
    }
  }

  lemma FieldNotEmpty(s: string, rest: string)
    ensures Field(s) + rest != []
  {
    hide Itoa;
    assert |Field(s)| > 0;
  }

  // Two label maps share an identity string exactly when they are the same map.
  lemma {:induction false} IDIsInjective(a: LabelMap, b: LabelMap)
    ensures LabelSetID(a) == LabelSetID(b) <==> a == b
  {
    hide Encode, Decode, Entries;
    if LabelSetID(a) == LabelSetID(b) {
      EncodeReadBack(Entries(a));
      EncodeReadBack(Entries(b));
      EntriesDetermine(a, b);
    }
  }

  method MakeID(m: LabelMap, keys: seq<string>) returns (id: string)
    requires keys == SortedSet(m.Keys)
    ensures id == LabelSetID(m)
  {
    hide SortedSet, Field;
    KeysHeld(m);
    ghost var entries := Entries(m);
    id := [];
    for i := 0 to |keys|
      invariant id == Encode(entries[..i])
    {
      var k := keys[i];
      EncodeMore(entries[..i], entries[i]);
      assert entries[..i + 1] == entries[..i] + [entries[i]];
      id := id + Field(k) + Field(m[k]);
    }
    assert entries[..|entries|] == entries;
  }

  lemma {:induction false} EncodeMore(entries: seq<Entry>, e: Entry)
    ensures Encode(entries + [e]) == Encode(entries) + Field(e.0) + Field(e.1)
  {
    hide Field;
    if entries == [] {
      assert entries + [e] == [e] && [e][1..] == [];
    } else {
      assert (entries + [e])[1..] == entries[1..] + [e];
      EncodeMore(entries[1..], e);
    }
  }

  // ---- distinct label sets ----

  function Stripped(m: LabelMap): LabelMap {
    m - {METRIC_NAME}
  }

  // Only the metric name is left out.
  lemma StrippedIs(m: LabelMap, key: string)
    ensures key in Stripped(m) <==> key in m && key != "__name__"
    ensures key in Stripped(m) ==> Stripped(m)[key] == m[key]
  {
  }

  // A missing sample contributes nothing; the first of equal maps is kept.
  function LabelSetsOf(vec: seq<Option<LabelMap>>): seq<LabelMap> {
    if vec == [] then []
    else
      var before, last := LabelSetsOf(vec[..|vec| - 1]), vec[|vec| - 1];
      if last.None? then before else AddNew(before, Stripped(last.value))
  }

  method CollectLabelSets(vec: seq<Option<LabelMap>>) returns (sets: seq<LabelMap>)
    ensures sets == LabelSetsOf(vec)
  {
    hide SortedSet, LabelSetID, HasID;
    NoIDs();
    sets := [];
    var seen: set<string> := {};
    for i := 0 to |vec|
      invariant sets == LabelSetsOf(vec[..i])
      invariant forall id :: id in seen <==> HasID(sets, id)
    {
      assert vec[..i + 1][..i] == vec[..i];
      if vec[i].None? {
        continue;
      }
      var m := Stripped(vec[i].value);
      var keys := SortedKeys(m);
      var id := MakeID(m, keys);
      SeenMeansHeld(sets, m);
      if id in seen {
        continue;
      }
      SeenMore(sets, m);
      seen := seen + {id};
      sets := sets + [m];
    }
    assert vec[..|vec|] == vec;
  }

  ghost predicate HasID(sets: seq<LabelMap>, id: string) {
    exists j :: 0 <= j < |sets| && LabelSetID(sets[j]) == id
  }

  lemma NoIDs()
    ensures forall id :: !HasID([], id)
  {
  }

  lemma SeenMeansHeld(sets: seq<LabelMap>, m: LabelMap)
    ensures HasID(sets, LabelSetID(m)) <==> m in sets
  {
    hide LabelSetID;
    if m in sets {
      var j :| 0 <= j < |sets| && sets[j] == m;
      assert LabelSetID(sets[j]) == LabelSetID(m);
    }
    forall j | 0 <= j < |sets| && LabelSetID(sets[j]) == LabelSetID(m) ensures sets[j] == m {
      IDIsInjective(sets[j], m);
    }
  }

  lemma SeenMore(sets: seq<LabelMap>, m: LabelMap)
    ensures forall id :: HasID(sets + [m], id) <==> HasID(sets, id) || id == LabelSetID(m)
  {
    hide LabelSetID;
    var more := sets + [m];
    assert LabelSetID(more[|sets|]) == LabelSetID(m);
    forall id | HasID(sets, id) ensures HasID(more, id) {
      var j :| 0 <= j < |sets| && LabelSetID(sets[j]) == id;
      assert LabelSetID(more[j]) == id;
    }
    forall id | HasID(more, id) ensures HasID(sets, id) || id == LabelSetID(m) {
      var j :| 0 <= j < |more| && LabelSetID(more[j]) == id;
      assert j < |sets| ==> LabelSetID(sets[j]) == id;
    }
  }

  // ---- the order ----

  predicate EntryLess(a: Entry, b: Entry) {
    PairLess(Less, Less, a, b)
  }

  predicate EntriesLess(a: seq<Entry>, b: seq<Entry>) {
    Lex(EntryLess, a, b)
  }

  ghost predicate MapLess(a: LabelMap, b: LabelMap) {
    EntriesLess(Entries(a), Entries(b))
  }

  lemma {:induction false} EntriesLessIsTotal()
    ensures TotalOrder(EntriesLess)
  {
    hide Less, TotalOrder, Lex;
    LessIsTotal();
    PairIsTotal(Less, Less, EntryLess);
    LexIsTotal(EntryLess, EntriesLess);
  }

  lemma {:induction false} MapLessIsTotal()
    ensures TotalOrder(MapLess)
  {
    hide EntriesLess, Entries;
    EntriesLessIsTotal();
    forall a, b ensures MapLess(a, b) || MapLess(b, a) || a == b {
      if Entries(a) == Entries(b) { EntriesDetermine(a, b); }
    }
  }

  function Sign(less: bool, equal: bool): int {
    if less then -1 else if equal then 0 else 1
  }

  // Key by key, a key's value deciding between equal keys; a longer set last.
  method CompareLabelSets(a: seq<Entry>, b: seq<Entry>) returns (c: int)
    ensures c == Sign(EntriesLess(a, b), a == b)
  {
    hide Less, Lex;
    LessIsTotal();
    var n := if |a| < |b| then |a| else |b|;
    assert a[0..] == a && b[0..] == b;
    for i := 0 to n
      invariant a[..i] == b[..i]
      invariant EntriesLess(a, b) <==> EntriesLess(a[i..], b[i..])
    {
      LexFirst(a[i..], b[i..]);
      assert a[i..][1..] == a[i + 1..] && b[i..][1..] == b[i + 1..];
      if a[i].0 != b[i].0 {
        return if Less(a[i].0, b[i].0) then -1 else 1;
      }
      if a[i].1 != b[i].1 {
        return if Less(a[i].1, b[i].1) then -1 else 1;
      }
      assert a[..i + 1] == a[..i] + [a[i]] && b[..i + 1] == b[..i] + [b[i]];
    }
    LexShort(a[n..], b[n..]);
    assert a == a[..n] + a[n..] && b == b[..n] + b[n..];
    c := if |a| < |b| then -1 else if |a| == |b| then 0 else 1;
  }

  lemma LexFirst(a: seq<Entry>, b: seq<Entry>)
    requires a != [] && b != []
    ensures EntriesLess(a, b) <==>
              if a[0] == b[0] then EntriesLess(a[1..], b[1..])
              else if a[0].0 != b[0].0 then Less(a[0].0, b[0].0) else Less(a[0].1, b[0].1)
  {
    hide Less;
    LessIsTotal();
  }

  lemma LexShort(a: seq<Entry>, b: seq<Entry>)
    requires a == [] || b == []
    ensures EntriesLess(a, b) <==> a == [] && b != []
  {
  }

  // The comparison is a total order and calls only equal maps equal.
  lemma {:induction false} ComparisonIsExact(a: LabelMap, b: LabelMap)
    ensures Sign(EntriesLess(Entries(a), Entries(b)), Entries(a) == Entries(b)) == 0 <==> a == b
    ensures TotalOrder(MapLess)
  {
    hide EntriesLess, Entries;
    MapLessIsTotal();
    EntriesLessIsTotal();
    if Entries(a) == Entries(b) { EntriesDetermine(a, b); }
  }

  // ---- the result ----

  ghost function Result(vec: seq<Option<LabelMap>>): seq<LabelMap> {
    SortUnique(LabelSetsOf(vec), (a, b) => MapLess(a, b))
  }

  ghost predicate Contributes(vec: seq<Option<LabelMap>>, m: LabelMap) {
    exists i :: 0 <= i < |vec| && vec[i].Some? && Stripped(vec[i].value) == m
  }

  lemma {:induction false} LabelSetsMembers(vec: seq<Option<LabelMap>>)
    ensures forall m :: m in LabelSetsOf(vec) <==> Contributes(vec, m)
    ensures NoRepeats(LabelSetsOf(vec))
  {
    if vec != [] {
      var init, last := vec[..|vec| - 1], vec[|vec| - 1];
      LabelSetsMembers(init);
      forall m ensures Contributes(vec, m) <==> Contributes(init, m) || (last.Some? && Stripped(last.value) == m) {
        if Contributes(init, m) {
          var i :| 0 <= i < |init| && init[i].Some? && Stripped(init[i].value) == m;
          assert vec[i] == init[i];
        }
        if last.Some? && Stripped(last.value) == m { assert vec[|init|] == last; }
        if Contributes(vec, m) {
          var i :| 0 <= i < |vec| && vec[i].Some? && Stripped(vec[i].value) == m;
          assert i < |init| ==> init[i] == vec[i];
        }
      }
    }
  }

  // Answers that contribute the same label maps, in whatever order and however
  // often, give the same list.
  lemma {:induction false} ResultIsOfSet(a: seq<Option<LabelMap>>, b: seq<Option<LabelMap>>)
    requires forall m :: Contributes(a, m) <==> Contributes(b, m)
    ensures Result(a) == Result(b)
    ensures forall m :: m in Result(a) <==> Contributes(a, m)
  {
    hide LabelSetsOf, MapLess, SortUnique, Contributes, TotalOrder;
    LabelSetsMembers(a);
    LabelSetsMembers(b);
    MapLessTotal();
    SortUniqueSame(LabelSetsOf(a), LabelSetsOf(b), (x, y) => MapLess(x, y));
    SortUniqueOf(LabelSetsOf(a), (x, y) => MapLess(x, y));
  }

  lemma MapLessTotal()
    ensures TotalOrder((a, b) => MapLess(a, b))
  {
    hide MapLess;
    MapLessIsTotal();
  }
}
