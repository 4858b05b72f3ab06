// Request dimensions pushed into a query: how a set of values becomes one
// matcher, and which series the whole rendered selector lets through.
module Selectors {
  import opened Common
  import opened Matchers
  import opened StringOrder

  const UNKNOWN := "unknown"

  datatype LabelKeys = LabelKeys(az: string, env: string)

  datatype Selector = Selector(az: seq<string>, env: seq<string>, cluster: seq<string>, namespace: seq<string>)

  // Which dimensions a query accepts.
  datatype Dims = Dims(az: bool, env: bool, cluster: bool, namespace: bool, namespaceOrAbsent: bool)

  function OrDefault(k: LabelKeys): LabelKeys {
    LabelKeys(if k.az == "" then "az" else k.az, if k.env == "" then "env" else k.env)
  }

  // A key that is not configured is the built-in one; a configured one stands.
  lemma DefaultKeys(k: LabelKeys)
    ensures OrDefault(LabelKeys("", "")) == LabelKeys("az", "env")
    ensures k.az != "" ==> OrDefault(k).az == k.az
    ensures k.env != "" ==> OrDefault(k).env == k.env
    ensures k.az == "" ==> OrDefault(k).az == "az"
    ensures k.env == "" ==> OrDefault(k).env == "env"
  {
  }

  // ---- value sets ----

  function NonEmpty(values: seq<string>): seq<string> {
    if values == [] then []
    else
      var before, last := NonEmpty(values[..|values| - 1]), values[|values| - 1];
      if last == "" then before else before + [last]
  }

  function Normalised(values: seq<string>): seq<string> {
    SortedUnique(NonEmpty(values))
  }

  // Duplicates are dropped on the way and the rest sorted at the end.
  method NormaliseValues(values: seq<string>) returns (out: seq<string>)
    ensures out == Normalised(values)
  {
    hide SortedUnique;
    var seen: set<string> := {};
    var kept: seq<string> := [];
    for i := 0 to |values|
      invariant forall x :: x in kept <==> x in NonEmpty(values[..i])
      invariant forall x :: x in seen <==> x in kept
    {
      var v := values[i];
      assert values[..i + 1][..i] == values[..i];
      if v == "" {
        continue;
      }
      if v in seen {
        continue;
      }
      seen := seen + {v};
      kept := kept + [v];
    }
    assert values[..|values|] == values;
    SortedUniqueSame(kept, NonEmpty(values));
    out := SortedUnique(kept);
  }

  lemma {:induction false} NonEmptyMembers(values: seq<string>)
    ensures forall x :: x in NonEmpty(values) <==> x in values && x != ""
  {
    if values != [] {
      NonEmptyMembers(values[..|values| - 1]);
      assert values == values[..|values| - 1] + [values[|values| - 1]];
    }
  }

  lemma {:induction false} NormalisedMembers(values: seq<string>)
    ensures forall x :: x in Normalised(values) <==> x in values && x != ""
    ensures Normalised(values) == [] <==> forall x :: x in values ==> x == ""
  {
    hide SortedUnique, NonEmpty;
    NonEmptyMembers(values);
    SortedUniqueOf(NonEmpty(values));
    var out := Normalised(values);
    assert out != [] ==> out[0] in out;
  }

  ghost predicate SameValues(a: seq<string>, b: seq<string>) {
    forall x :: x != "" ==> (x in a <==> x in b)
  }

  lemma {:induction false} NormalisedSame(a: seq<string>, b: seq<string>)
    requires SameValues(a, b)
    ensures Normalised(a) == Normalised(b)
  {
    hide SortedUnique, NonEmpty;
    NonEmptyMembers(a);
    NonEmptyMembers(b);
    SortedUniqueSame(NonEmpty(a), NonEmpty(b));
  }

  lemma {:induction false} NormalisedTwice(values: seq<string>)
    ensures Normalised(Normalised(values)) == Normalised(values)
  {
    hide SortedUnique, NonEmpty;
    NonEmptyMembers(values);
    NonEmptyMembers(Normalised(values));
    SortedUniqueOf(NonEmpty(values));
    SortedUniqueOf(NonEmpty(Normalised(values)));
    SortedListUnique(Normalised(Normalised(values)), Normalised(values));
  }

  // ---- one dimension as text ----

  function EscapedAlts(vals: seq<string>): seq<string> {
    seq(|vals|, i requires 0 <= i < |vals| => EscapeLiteral(QuoteMeta(vals[i])))
  }

  function RegexText(key: string, alts: seq<string>): string {
    key + "=~" + ['"'] + Join(alts, "|") + ['"']
  }

  function MatcherText(key: string, values: seq<string>): seq<string> {
    var vals := Normalised(values);
    if vals == [] then []
    else if |vals| == 1 then [key + "=" + ['"'] + EscapeLiteral(vals[0]) + ['"']]
    else [RegexText(key, EscapedAlts(vals))]
  }

  function MatcherOrAbsentText(key: string, values: seq<string>): seq<string> {
    var vals := Normalised(values);
    if vals == [] then [] else [RegexText(key, EscapedAlts(vals) + [""])]
  }

  function ClusterMatcherText(values: seq<string>): seq<string> {
    var vals := Normalised(values);
    if vals == [] then []
    else if UNKNOWN !in vals then MatcherText("cluster", vals)
    else [RegexText("cluster", EscapedAlts(vals) + [""])]
  }

  function Render(s: Selector, d: Dims, keys: LabelKeys): string {
    var k := OrDefault(keys);
    Join((if d.az then MatcherText(k.az, s.az) else [])
         + (if d.env then MatcherText(k.env, s.env) else [])
         + (if d.cluster then ClusterMatcherText(s.cluster) else [])
         + (if d.namespace then MatcherText("namespace", s.namespace) else [])
         + (if d.namespaceOrAbsent then MatcherOrAbsentText("namespace", s.namespace) else []),
         ",")
  }

  // A query's fixed matchers and the request's, in braces unless there are none.
  function SelectorBraces(fixed: string, req: string): string {
    if fixed == "" && req == "" then ""
    else if req == "" then "{" + fixed + "}"
    else if fixed == "" then "{" + req + "}"
    else "{" + fixed + "," + req + "}"
  }

  // ---- the matchers that text stands for ----

  function MatcherFor(key: string, values: seq<string>): seq<Matcher> {
    var vals := Normalised(values);
    if vals == [] then []
    else if |vals| == 1 then [Matcher(key, Equal, vals[0])]
    else [Matcher(key, Regex, Alternation(vals))]
  }

  function MatcherOrAbsentFor(key: string, values: seq<string>): seq<Matcher> {
    var vals := Normalised(values);
    if vals == [] then [] else [Matcher(key, Regex, Alternation(vals + [""]))]
  }

  function ClusterMatcherFor(values: seq<string>): seq<Matcher> {
    var vals := Normalised(values);
    if UNKNOWN !in vals then MatcherFor("cluster", values)
    else [Matcher("cluster", Regex, Alternation(vals + [""]))]
  }

  function MatchersFor(s: Selector, d: Dims, keys: LabelKeys): seq<Matcher> {
    var k := OrDefault(keys);
    (if d.az then MatcherFor(k.az, s.az) else [])
    + (if d.env then MatcherFor(k.env, s.env) else [])
    + (if d.cluster then ClusterMatcherFor(s.cluster) else [])
    + (if d.namespace then MatcherFor("namespace", s.namespace) else [])
    + (if d.namespaceOrAbsent then MatcherOrAbsentFor("namespace", s.namespace) else [])
  }

  lemma {:induction false} EscapeAppend(a: string, b: string)
    ensures EscapeLiteral(a + b) == EscapeLiteral(a) + EscapeLiteral(b)
  {
    hide EscapeChar;
    if a == [] {
      assert a + b == b;
    } else {
      assert (a + b)[1..] == a[1..] + b;
      EscapeAppend(a[1..], b);
    }
  }

  lemma EscapeBar()
    ensures EscapeLiteral("|") == "|" && EscapeLiteral([]) == []
  {
    assert "|"[1..] == [];
  }

  // Escaping each alternative and joining is escaping the joined alternation.
  lemma {:induction false} EscapeJoin(parts: seq<string>)
    ensures EscapeLiteral(Join(parts, "|")) == Join(seq(|parts|, i requires 0 <= i < |parts| => EscapeLiteral(parts[i])), "|")
  {
    hide EscapeLiteral;
    EscapeBar();
    var escaped := seq(|parts|, i requires 0 <= i < |parts| => EscapeLiteral(parts[i]));
    if |parts| > 1 {
      var rest := parts[1..];
      EscapeJoin(rest);
      assert escaped[1..] == seq(|rest|, i requires 0 <= i < |rest| => EscapeLiteral(rest[i]));
      EscapeAppend(parts[0], "|");
      EscapeAppend(parts[0] + "|", Join(rest, "|"));
    }
  }

  function PrintEach(ms: seq<Matcher>): seq<string> {
    seq(|ms|, i requires 0 <= i < |ms| => Print(ms[i]))
  }

  lemma {:induction false} RegexTextPrints(key: string, vals: seq<string>)
    ensures RegexText(key, EscapedAlts(vals)) == Print(Matcher(key, Regex, Alternation(vals)))
    ensures RegexText(key, EscapedAlts(vals) + [""]) == Print(Matcher(key, Regex, Alternation(vals + [""])))
  {
    hide EscapeLiteral, QuoteMeta, Join;
    EscapeJoin(Quoted(vals));
    EscapeJoin(Quoted(vals + [""]));
    NothingQuoted();
    var more := vals + [""];
    assert EscapedAlts(vals) == seq(|vals|, i requires 0 <= i < |vals| => EscapeLiteral(Quoted(vals)[i]));
    assert EscapedAlts(vals) + [""] == seq(|more|, i requires 0 <= i < |more| => EscapeLiteral(Quoted(more)[i]));
  }

  lemma NothingQuoted()
    ensures EscapeLiteral(QuoteMeta("")) == "" && QuoteMeta("") == ""
  {
  }

  lemma {:induction false} MatcherTextPrints(key: string, values: seq<string>)
    ensures MatcherText(key, values) == PrintEach(MatcherFor(key, values))
    ensures MatcherOrAbsentText(key, values) == PrintEach(MatcherOrAbsentFor(key, values))
  {
    hide Normalised, EscapeLiteral, RegexText, Alternation, EscapedAlts;
    RegexTextPrints(key, Normalised(values));
  }

  lemma {:induction false} ClusterTextPrints(values: seq<string>)
    ensures ClusterMatcherText(values) == PrintEach(ClusterMatcherFor(values))
  {
    hide Normalised, EscapeLiteral, RegexText, Alternation, EscapedAlts, MatcherText, MatcherFor;
    RegexTextPrints("cluster", Normalised(values));
    NormalisedTwice(values);
    MatcherTextPrints("cluster", Normalised(values));
    MatcherForSame(values);
    NoMatcher(values);
  }

  lemma MatcherForSame(values: seq<string>)
    ensures MatcherFor("cluster", Normalised(values)) == MatcherFor("cluster", values)
  {
    hide Normalised;
    NormalisedTwice(values);
  }

  lemma NoMatcher(values: seq<string>)
    ensures Normalised(values) == [] ==> MatcherFor("cluster", values) == []
  {
  }

  lemma PrintEachAppend(a: seq<Matcher>, b: seq<Matcher>)
    ensures PrintEach(a + b) == PrintEach(a) + PrintEach(b)
  {
    hide Print;
  }

  // The fragment is the print of the matchers it stands for.
  lemma {:induction false} RenderPrints(s: Selector, d: Dims, keys: LabelKeys)
    ensures Render(s, d, keys) == PrintAll(MatchersFor(s, d, keys))
  {
    hide MatcherText, MatcherOrAbsentText, ClusterMatcherText, MatcherFor, MatcherOrAbsentFor, ClusterMatcherFor, Join, Print;
    var k := OrDefault(keys);
    MatcherTextPrints(k.az, s.az);
    MatcherTextPrints(k.env, s.env);
    ClusterTextPrints(s.cluster);
    MatcherTextPrints("namespace", s.namespace);
    var a := if d.az then MatcherFor(k.az, s.az) else [];
    var b := if d.env then MatcherFor(k.env, s.env) else [];
    var c := if d.cluster then ClusterMatcherFor(s.cluster) else [];
    var e := if d.namespace then MatcherFor("namespace", s.namespace) else [];
    var f := if d.namespaceOrAbsent then MatcherOrAbsentFor("namespace", s.namespace) else [];
    PrintEachAppend(a, b);
    PrintEachAppend(a + b, c);
    PrintEachAppend(a + b + c, e);
    PrintEachAppend(a + b + c + e, f);
    assert PrintEach([]) == [];
  }

  // Requests that name the same values, in any order and however often, render
  // the same query.
  lemma {:induction false} RenderIsOfSets(a: Selector, b: Selector, d: Dims, keys: LabelKeys)
    requires SameValues(a.az, b.az) && SameValues(a.env, b.env)
    requires SameValues(a.cluster, b.cluster) && SameValues(a.namespace, b.namespace)
    ensures Render(a, d, keys) == Render(b, d, keys)
  {
    hide Normalised, EscapedAlts, RegexText, EscapeLiteral, SameValues, Join;
    NormalisedSame(a.az, b.az);
    NormalisedSame(a.env, b.env);
    NormalisedSame(a.cluster, b.cluster);
    NormalisedSame(a.namespace, b.namespace);
  }

  // ---- what the matchers let through ----

  function Value(series: map<string, string>, name: string): string {
    if name in series then series[name] else ""
  }

  predicate Matches(m: Matcher, series: map<string, string>) {
    var v := Value(series, m.name);
    match m.op
    case Equal => v == m.val
    case NotEqual => v != m.val
    case Regex => Runnable(m.val) && Accepts(m.val, v, Some(0))
    case NotRegex => Runnable(m.val) && !Accepts(m.val, v, Some(0))
  }

  // A missing label reads as the empty string; an unequal matcher lets through
  // what its equal twin does not, and an expression is run on the whole value.
  lemma MatchesIs(m: Matcher, series: map<string, string>)
    ensures m.name in series ==> Value(series, m.name) == series[m.name]
    ensures m.name !in series ==> Value(series, m.name) == ""
    ensures Matches(m.(op := NotEqual), series) <==> !Matches(m.(op := Equal), series)
    ensures Runnable(m.val) ==> (Matches(m.(op := NotRegex), series) <==> !Matches(m.(op := Regex), series))
    ensures !Runnable(m.val) ==> !Matches(m.(op := NotRegex), series) && !Matches(m.(op := Regex), series)
  {
    hide Accepts, Runnable;
  }

  predicate MatchesAll(ms: seq<Matcher>, series: map<string, string>) {
    forall i :: 0 <= i < |ms| ==> Matches(ms[i], series)
  }

  predicate HasValue(values: seq<string>) {
    exists i :: 0 <= i < |values| && values[i] != ""
  }

  // A series without the label is in the bucket of unknown clusters.
  function Bucket(cluster: string): string {
    if cluster == "" then UNKNOWN else cluster
  }

  lemma BucketIs(cluster: string)
    ensures Bucket("") == "unknown" && (cluster != "" ==> Bucket(cluster) == cluster)
  {
  }

  predicate Wanted(values: seq<string>, v: string) {
    HasValue(values) ==> v != "" && v in values
  }

  lemma {:induction false} HasValueIff(values: seq<string>)
    ensures HasValue(values) <==> Normalised(values) != []
  {
    hide Normalised;
    NormalisedMembers(values);
    if HasValue(values) {
      var i :| 0 <= i < |values| && values[i] != "";
      assert values[i] in values;
    } else {
      assert forall x :: x in values ==> x == "";
    }
  }

  // One value or many, the matcher accepts exactly the wanted values.
  lemma {:induction false} MatcherAccepts(key: string, values: seq<string>, series: map<string, string>)
    ensures MatchesAll(MatcherFor(key, values), series) <==> Wanted(values, Value(series, key))
  {
    hide Normalised, Accepts, Runnable, Alternation, HasValue;
    var vals := Normalised(values);
    HasValueIff(values);
    NormalisedMembers(values);
    if |vals| > 1 {
      AlternationAccepts(vals, Value(series, key));
      AlternationRuns(vals);
    } else if |vals| == 1 {
      assert forall x :: x in vals <==> x == vals[0];
    }
  }

  lemma InWithEmpty(vals: seq<string>, x: string)
    ensures x in vals + [""] <==> x in vals || x == ""
  {
    assert (vals + [""])[|vals|] == "";
    if x in vals {
      var i :| 0 <= i < |vals| && vals[i] == x;
      assert (vals + [""])[i] == x;
    }
  }

  lemma OneMatcher(m: Matcher, series: map<string, string>)
    ensures MatchesAll([m], series) <==> Matches(m, series)
  {
    hide Matches;
    assert [m][0] == m;
  }

  // The or-absent form also lets a series without the label through.
  lemma {:induction false} OrAbsentAccepts(key: string, values: seq<string>, series: map<string, string>)
    ensures MatchesAll(MatcherOrAbsentFor(key, values), series) <==>
              Value(series, key) == "" || Wanted(values, Value(series, key))
  {
    hide Normalised, Accepts, Runnable, Alternation, HasValue;
    var vals := Normalised(values);
    HasValueIff(values);
    NormalisedMembers(values);
    AlternationAccepts(vals + [""], Value(series, key));
    AlternationRuns(vals + [""]);
    InWithEmpty(vals, Value(series, key));
    OneMatcher(Matcher(key, Regex, Alternation(vals + [""])), series);
  }

  // The cluster matcher accepts a series exactly when its bucket is wanted.
  lemma {:induction false} ClusterAccepts(values: seq<string>, series: map<string, string>)
    ensures MatchesAll(ClusterMatcherFor(values), series) <==> Wanted(values, Bucket(Value(series, "cluster")))
  {
    hide Normalised, Accepts, Runnable, Alternation, HasValue, MatcherFor;
    var vals := Normalised(values);
    HasValueIff(values);
    NormalisedMembers(values);
    MatcherAccepts("cluster", values, series);
    AlternationAccepts(vals + [""], Value(series, "cluster"));
    AlternationRuns(vals + [""]);
    InWithEmpty(vals, Value(series, "cluster"));
    OneMatcher(Matcher("cluster", Regex, Alternation(vals + [""])), series);
    assert |UNKNOWN| > 0;
    assert UNKNOWN in vals ==> vals != [];
  }

  ghost predicate InScope(s: Selector, d: Dims, keys: LabelKeys, series: map<string, string>) {
    var k := OrDefault(keys);
    && (d.az ==> Wanted(s.az, Value(series, k.az)))
    && (d.env ==> Wanted(s.env, Value(series, k.env)))
    && (d.cluster ==> Wanted(s.cluster, Bucket(Value(series, "cluster"))))
    && (d.namespace ==> Wanted(s.namespace, Value(series, "namespace")))
    && (d.namespaceOrAbsent ==> Value(series, "namespace") == "" || Wanted(s.namespace, Value(series, "namespace")))
  }

  lemma MatchesAppend(a: seq<Matcher>, b: seq<Matcher>, series: map<string, string>)
    ensures MatchesAll(a + b, series) <==> MatchesAll(a, series) && MatchesAll(b, series)
  {
    hide Matches;
    var all := a + b;
    assert forall i :: 0 <= i < |a| ==> all[i] == a[i];
    assert forall i :: 0 <= i < |b| ==> all[|a| + i] == b[i];
  }

  lemma {:induction false} MatchersForAccept(s: Selector, d: Dims, keys: LabelKeys, series: map<string, string>)
    ensures MatchesAll(MatchersFor(s, d, keys), series) <==> InScope(s, d, keys, series)
  {
    hide MatcherFor, MatcherOrAbsentFor, ClusterMatcherFor, MatchesAll, Wanted, Bucket;
    var k := OrDefault(keys);
    MatcherAccepts(k.az, s.az, series);
    MatcherAccepts(k.env, s.env, series);
    ClusterAccepts(s.cluster, series);
    MatcherAccepts("namespace", s.namespace, series);
    OrAbsentAccepts("namespace", s.namespace, series);
    var a := if d.az then MatcherFor(k.az, s.az) else [];
    var b := if d.env then MatcherFor(k.env, s.env) else [];
    var c := if d.cluster then ClusterMatcherFor(s.cluster) else [];
    var e := if d.namespace then MatcherFor("namespace", s.namespace) else [];
    var f := if d.namespaceOrAbsent then MatcherOrAbsentFor("namespace", s.namespace) else [];
    MatchesAppend(a, b, series);
    MatchesAppend(a + b, c, series);
    MatchesAppend(a + b + c, e, series);
    MatchesAppend(a + b + c + e, f, series);
    NothingMatched(series);
  }

  lemma NothingMatched(series: map<string, string>)
    ensures MatchesAll([], series)
  {
  }

  // ---- end to end ----

  ghost predicate NoBreaks(values: seq<string>) {
    forall i :: 0 <= i < |values| ==> '\n' !in values[i]
  }

  ghost predicate GoodKey(key: string) {
    LabelName(key)
  }

  ghost predicate GoodRequest(s: Selector, keys: LabelKeys) {
    && NoBreaks(s.az) && NoBreaks(s.env) && NoBreaks(s.cluster) && NoBreaks(s.namespace)
    && GoodKey(OrDefault(keys).az) && GoodKey(OrDefault(keys).env)
  }

  lemma {:induction false} QuoteNoBreak(v: string)
    requires '\n' !in v
    ensures '\n' !in QuoteMeta(v)
  {
    if v != [] {
      QuoteNoBreak(v[1..]);
      assert v[0] in v;
    }
  }

  lemma {:induction false} AlternationNoBreak(vals: seq<string>)
    requires NoBreaks(vals)
    ensures '\n' !in Alternation(vals)
  {
    hide QuoteMeta;
    if vals != [] {
      QuoteNoBreak(vals[0]);
      if |vals| > 1 {
        AlternationNoBreak(vals[1..]);
        assert Quoted(vals)[1..] == Quoted(vals[1..]);
      }
    }
  }

  lemma {:induction false} NormalisedNoBreaks(values: seq<string>)
    requires NoBreaks(values)
    ensures NoBreaks(Normalised(values)) && NoBreaks(Normalised(values) + [""])
  {
    hide Normalised;
    NormalisedMembers(values);
    var vals := Normalised(values);
    forall i | 0 <= i < |vals| ensures '\n' !in vals[i] {
      assert vals[i] in vals && vals[i] in values;
      var j :| 0 <= j < |values| && values[j] == vals[i];
    }
  }

  ghost predicate AllPrintable(ms: seq<Matcher>) {
    forall i :: 0 <= i < |ms| ==> Printable(ms[i])
  }

  lemma {:induction false} MatcherPrintable(key: string, values: seq<string>)
    requires GoodKey(key) && NoBreaks(values)
    ensures AllPrintable(MatcherFor(key, values)) && AllPrintable(MatcherOrAbsentFor(key, values))
  {
    hide Normalised, Alternation, LabelName;
    NormalisedNoBreaks(values);
    AlternationNoBreak(Normalised(values));
    AlternationNoBreak(Normalised(values) + [""]);
  }

  lemma FixedKeys()
    ensures GoodKey("cluster") && GoodKey("namespace")
  {
  }

  lemma {:induction false} MatchersPrintable(s: Selector, d: Dims, keys: LabelKeys)
    requires GoodRequest(s, keys)
    ensures AllPrintable(MatchersFor(s, d, keys))
  {
    hide MatcherFor, MatcherOrAbsentFor, Normalised, Printable, NoBreaks, GoodKey;
    FixedKeys();
    var k := OrDefault(keys);
    MatcherPrintable(k.az, s.az);
    MatcherPrintable(k.env, s.env);
    MatcherPrintable("cluster", s.cluster);
    MatcherPrintable("namespace", s.namespace);
    ClusterPrintable(s.cluster);
  }

  lemma {:induction false} ClusterPrintable(values: seq<string>)
    requires NoBreaks(values)
    ensures AllPrintable(ClusterMatcherFor(values))
  {
    hide Normalised, Alternation, LabelName, MatcherFor;
    FixedKeys();
    MatcherPrintable("cluster", values);
    NormalisedNoBreaks(values);
    AlternationNoBreak(Normalised(values) + [""]);
  }

  lemma {:induction false} PrintAllAppend(a: seq<Matcher>, b: seq<Matcher>)
    ensures PrintAll(a + b)
            == if a == [] then PrintAll(b) else if b == [] then PrintAll(a) else PrintAll(a) + "," + PrintAll(b)
    ensures PrintAll(a) == "" <==> a == []
  {
    hide Print;
    PrintEachAppend(a, b);
    JoinAppend(PrintEach(a), PrintEach(b));
    if a != [] {
      PrintNotEmpty(a[0]);
      JoinNotEmpty(PrintEach(a));
    }
  }

  lemma PrintNotEmpty(m: Matcher)
    ensures Print(m) != ""
  {
  }

  lemma JoinNotEmpty(parts: seq<string>)
    requires parts != [] && parts[0] != ""
    ensures Join(parts, ",") != ""
  {
  }

  lemma {:induction false} JoinAppend(a: seq<string>, b: seq<string>)
    ensures Join(a + b, ",") == if a == [] then Join(b, ",") else if b == [] then Join(a, ",") else Join(a, ",") + "," + Join(b, ",")
  {
    if a == [] {
      assert a + b == b;
    } else if b == [] {
      assert a + b == a;
    } else {
      assert (a + b)[1..] == a[1..] + b;
      JoinAppend(a[1..], b);
    }
  }

  lemma {:induction false} BracesPrint(fixed: seq<Matcher>, req: seq<Matcher>)
    ensures SelectorBraces(PrintAll(fixed), PrintAll(req))
            == if fixed + req == [] then "" else "{" + PrintAll(fixed + req) + "}"
  {
    hide PrintAll;
    PrintAllAppend(fixed, req);
    PrintAllAppend(req, []);
    assert req + [] == req;
    assert fixed + [] == fixed;
    assert [] + req == req;
  }

  // A query rendered with the request's dimensions selects, of the series its
  // own matchers select, exactly those in scope: read back by the parser, for
  // every series and whatever the values hold short of a line break.
  lemma {:induction false} RenderedQuerySelects(before: string, fixed: seq<Matcher>, s: Selector, d: Dims, keys: LabelKeys, rest: string, series: map<string, string>)
    requires '{' !in before && '{' !in rest
    requires AllPrintable(fixed) && GoodRequest(s, keys)
    ensures var ms := Parse(before + SelectorBraces(PrintAll(fixed), Render(s, d, keys)) + rest);
            ms.Some? && (MatchesAll(ms.value, series) <==> MatchesAll(fixed, series) && InScope(s, d, keys, series))
  {
    hide Render, MatchersFor, PrintAll, Parse, MatchesAll, InScope, GoodRequest, Printable;
    var req := MatchersFor(s, d, keys);
    RenderPrints(s, d, keys);
    MatchersPrintable(s, d, keys);
    MatchersForAccept(s, d, keys, series);
    MatchesAppend(fixed, req, series);
    BracesPrint(fixed, req);
    var ms := fixed + req;
    assert AllPrintable(ms);
    if ms == [] {
      NoBraces(before + "" + rest);
      NothingMatched(series);
    } else {
      var query := before + ("{" + PrintAll(ms) + "}") + rest;
      assert query == before + ['{'] + PrintAll(ms) + ['}'] + rest;
      ParseReadsBack(before, ms, rest);
    }
  }

  lemma NoBraces(query: string)
    requires '{' !in query
    ensures Parse(query) == Some([])
  {
    var i := IndexOf(query, '{');
  }

  // A dimension is rendered exactly when it reaches the query with a value: the
  // attribution of an empty answer to the request is right in both directions.
  lemma {:induction false} RendersIffReaches(s: Selector, d: Dims, keys: LabelKeys)
    ensures Render(s, d, keys) != "" <==>
              || (d.az && HasValue(s.az)) || (d.env && HasValue(s.env)) || (d.cluster && HasValue(s.cluster))
              || ((d.namespace || d.namespaceOrAbsent) && HasValue(s.namespace))
  {
    hide Normalised, PrintAll, HasValue, Render, Alternation;
    RenderPrints(s, d, keys);
    PrintAllAppend(MatchersFor(s, d, keys), []);
    HasValueIff(s.az);
    HasValueIff(s.env);
    HasValueIff(s.cluster);
    HasValueIff(s.namespace);
    assert UNKNOWN in Normalised(s.cluster) ==> Normalised(s.cluster) != [];
  }
}
