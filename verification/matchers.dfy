// Label matchers as text: printing a literal or an alternation into a query,
// and reading the matchers of a query back.
module Matchers {
  import opened Common

  datatype Op = Equal | NotEqual | Regex | NotRegex

  datatype Matcher = Matcher(name: string, op: Op, val: string)

  // ---- printing ----

  predicate IsMeta(c: char) {
    c in ['\\', '.', '+', '*', '?', '(', ')', '|', '[', ']', '{', '}', '^', '$']
  }

  function QuoteChar(c: char): string {
    if IsMeta(c) then ['\\', c] else [c]
  }

  // A regular expression that matches s and nothing else.
  function QuoteMeta(s: string): string {
    if s == [] then [] else QuoteChar(s[0]) + QuoteMeta(s[1..])
  }

  function EscapeChar(c: char): string {
    if c == '\\' || c == '"' then ['\\', c] else [c]
  }

  // s inside a double-quoted string literal.
  function EscapeLiteral(s: string): string {
    if s == [] then [] else EscapeChar(s[0]) + EscapeLiteral(s[1..])
  }

  function Join(parts: seq<string>, sep: string): string {
    if parts == [] then []
    else if |parts| == 1 then parts[0]
    else parts[0] + sep + Join(parts[1..], sep)
  }

  function Quoted(values: seq<string>): (r: seq<string>)
    ensures |r| == |values|
  {
    seq(|values|, i requires 0 <= i < |values| => QuoteMeta(values[i]))
  }

  function Alternation(values: seq<string>): string {
    Join(Quoted(values), "|")
  }

  function OpText(op: Op): string {
    match op
    case Equal => "="
    case NotEqual => "!="
    case Regex => "=~"
    case NotRegex => "!~"
  }

  function Print(m: Matcher): string {
    m.name + OpText(m.op) + ['"'] + EscapeLiteral(m.val) + ['"']
  }

  function PrintAll(ms: seq<Matcher>): string {
    Join(seq(|ms|, i requires 0 <= i < |ms| => Print(ms[i])), ",")
  }

  // ---- reading an alternation back ----

  // Split on every bar that no backslash escapes, dropping the escapes.
  function Split(re: string, cur: string): (alts: seq<string>)
    ensures alts != []
  {
    if re == [] then [cur]
    else if re[0] == '\\' && |re| > 1 then Split(re[2..], cur + [re[1]])
    else if re[0] == '|' then [cur] + Split(re[1..], [])
    else Split(re[1..], cur + [re[0]])
  }

  method SplitQuotedAlternation(re: string) returns (out: seq<string>)
    ensures out == Split(re, [])
  {
    out := [];
    var cur: string := [];
    var i := 0;
    while i < |re|
      invariant i <= |re|
      invariant out + Split(re[i..], cur) == Split(re, [])
    {
      var c := re[i];
      if c == '\\' && i + 1 < |re| {
        i := i + 1;
        cur := cur + [re[i]];
      } else if c == '|' {
        out := out + [cur];
        cur := [];
      } else {
        cur := cur + [c];
      }
      i := i + 1;
    }
    out := out + [cur];
  }

  lemma SplitChar(c: char, s: string, cur: string)
    ensures Split(QuoteChar(c) + s, cur) == Split(s, cur + [c])
  {
    assert (['\\', c] + s)[2..] == s;
    assert ([c] + s)[1..] == s;
  }

  lemma {:induction false} SplitQuoted(v: string, rest: string, cur: string)
    ensures Split(QuoteMeta(v) + rest, cur) == Split(rest, cur + v)
  {
    hide QuoteChar, Split;
    if v == [] {
      assert QuoteMeta(v) + rest == rest && cur + v == cur;
    } else {
      var more := QuoteMeta(v[1..]) + rest;
      assert QuoteMeta(v) + rest == QuoteChar(v[0]) + more;
      SplitChar(v[0], more, cur);
      SplitQuoted(v[1..], rest, cur + [v[0]]);
      assert cur + v == cur + [v[0]] + v[1..];
    }
  }

  // Splitting a rendered alternation gives the alternatives back, whatever
  // metacharacters, bars or quotes they hold.
  lemma {:induction false} SplitAlternation(values: seq<string>)
    requires values != []
    ensures Split(Alternation(values), []) == values
  {
    hide QuoteMeta;
    if |values| == 1 {
      SplitQuoted(values[0], [], []);
      assert Alternation(values) == QuoteMeta(values[0]) + [];
      assert [] + values[0] == values[0];
    } else {
      var rest := Alternation(values[1..]);
      assert Quoted(values)[1..] == Quoted(values[1..]);
      assert Alternation(values) == QuoteMeta(values[0]) + (['|'] + rest);
      SplitQuoted(values[0], ['|'] + rest, []);
      assert (['|'] + rest)[1..] == rest;
      assert [] + values[0] == values[0];
      SplitAlternation(values[1..]);
      assert values == [values[0]] + values[1..];
    }
  }

  // ---- what an anchored alternation accepts ----

  // An escape stands for its own character unless that is a letter or digit,
  // which name classes and control characters.
  predicate EscapesItself(c: char) {
    c < '\U{80}' && !('a' <= c <= 'z' || 'A' <= c <= 'Z' || '0' <= c <= '9')
  }

  // Means something other than itself where no backslash precedes it.
  predicate IsOperator(c: char) {
    c in ".+*?()[]{}^$"
  }

  // Nothing but literal characters, escapes that stand for themselves and bars.
  predicate Runnable(re: string) {
    if re == [] then true
    else if re[0] == '\\' then |re| > 1 && EscapesItself(re[1]) && Runnable(re[2..])
    else !IsOperator(re[0]) && Runnable(re[1..])
  }

  // The expression ^(?:re)$ over escaped literals and bars, run on x directly:
  // at counts how much of x the current alternative has matched. Anything else
  // in the expression is refused, never read as a literal.
  predicate Accepts(re: string, x: string, at: Option<nat>) {
    if re == [] then at == Some(|x|)
    else if re[0] == '\\' then |re| > 1 && EscapesItself(re[1]) && Accepts(re[2..], x, Step(x, at, re[1]))
    else if re[0] == '|' then at == Some(|x|) || Accepts(re[1..], x, Some(0))
    else !IsOperator(re[0]) && Accepts(re[1..], x, Step(x, at, re[0]))
  }

  lemma OperatorsRefused(c: char, rest: string, x: string, at: Option<nat>)
    ensures c in ".+*?()[]{}^$" ==> !Accepts([c] + rest, x, at)
    ensures 'a' <= c <= 'z' || 'A' <= c <= 'Z' || '0' <= c <= '9' ==> !Accepts(['\\', c] + rest, x, at)
  {
  }

  function Step(x: string, at: Option<nat>, c: char): Option<nat> {
    if at.Some? && at.value < |x| && x[at.value] == c then Some(at.value + 1) else None
  }

  // How far the characters of cur get in x.
  function Progress(x: string, cur: string): Option<nat> {
    if cur <= x then Some(|cur|) else None
  }

  lemma StepProgress(x: string, cur: string, c: char)
    ensures Step(x, Progress(x, cur), c) == Progress(x, cur + [c])
    ensures Progress(x, cur) == Some(|x|) <==> cur == x
  {
  }

  // Running the expression and splitting it tell the same strings apart.
  lemma {:induction false} AcceptsIffSplit(re: string, x: string, cur: string)
    ensures Accepts(re, x, Progress(x, cur)) ==> x in Split(re, cur)
    ensures Runnable(re) ==> (Accepts(re, x, Progress(x, cur)) <==> x in Split(re, cur))
  {
    hide Progress, Step, IsOperator, EscapesItself;
    StepProgress(x, cur, 'a');
    if re != [] {
      if re[0] == '\\' {
        if |re| > 1 {
          StepProgress(x, cur, re[1]);
          AcceptsIffSplit(re[2..], x, cur + [re[1]]);
        }
      } else if re[0] == '|' {
        AcceptsIffSplit(re[1..], x, []);
        ProgressNone(x);
        BarIsNoOperator();
      } else {
        StepProgress(x, cur, re[0]);
        AcceptsIffSplit(re[1..], x, cur + [re[0]]);
      }
    }
  }

  lemma BarIsNoOperator()
    ensures !IsOperator('|') && EscapesItself('\\')
  {
  }

  // What a value or an alternation of values renders to needs no more than that:
  // every operator in it is escaped.
  lemma {:induction false} QuotedRuns(v: string, rest: string)
    ensures Runnable(QuoteMeta(v) + rest) <==> Runnable(rest)
  {
    hide Runnable, QuoteChar;
    if v == [] {
      assert QuoteMeta(v) + rest == rest;
    } else {
      var more := QuoteMeta(v[1..]) + rest;
      assert QuoteMeta(v) + rest == QuoteChar(v[0]) + more;
      QuotedRuns(v[1..], rest);
      CharRuns(v[0], more);
    }
  }

  lemma CharRuns(c: char, rest: string)
    ensures Runnable(QuoteChar(c) + rest) <==> Runnable(rest)
  {
    assert (['\\', c] + rest)[2..] == rest;
    assert ([c] + rest)[1..] == rest;
  }

  lemma {:induction false} AlternationRuns(values: seq<string>)
    ensures Runnable(Alternation(values))
  {
    hide QuoteMeta;
    if |values| == 1 {
      QuotedRuns(values[0], []);
      assert Alternation(values) == QuoteMeta(values[0]) + [];
    } else if |values| > 1 {
      var rest := Alternation(values[1..]);
      assert Quoted(values)[1..] == Quoted(values[1..]);
      assert Alternation(values) == QuoteMeta(values[0]) + (['|'] + rest);
      AlternationRuns(values[1..]);
      QuotedRuns(values[0], ['|'] + rest);
      assert (['|'] + rest)[1..] == rest;
      BarIsNoOperator();
    }
  }

  lemma ProgressNone(x: string)
    ensures Progress(x, []) == Some(0)
  {
  }

  // An alternation of quoted values accepts exactly those values.
  lemma {:induction false} AlternationAccepts(values: seq<string>, x: string)
    requires values != []
    ensures Accepts(Alternation(values), x, Some(0)) <==> x in values
  {
    hide Accepts, Split, Alternation, Runnable;
    AlternationRuns(values);
    AcceptsIffSplit(Alternation(values), x, []);
    ProgressNone(x);
    SplitAlternation(values);
  }

  // ---- reading a query's matchers back ----

  // The value of the literal that opens s (past its opening quote) and what
  // follows its closing one; an escape the printer never writes is refused.
  function ReadLiteral(s: string, acc: string): Option<(string, string)> {
    if s == [] || s[0] == '\n' then None
    else if s[0] == '"' then Some((acc, s[1..]))
    else if s[0] == '\\' then
      if |s| > 1 && (s[1] == '\\' || s[1] == '"') then ReadLiteral(s[2..], acc + [s[1]]) else None
    else ReadLiteral(s[1..], acc + [s[0]])
  }

  // Of the escapes only a backslash's and a quote's are read.
  lemma EscapeRead(c: char, rest: string, acc: string)
    ensures ReadLiteral(['\\', c] + rest, acc) == if c == '\\' || c == '"' then ReadLiteral(rest, acc + [c]) else None
  {
    assert (['\\', c] + rest)[2..] == rest;
  }

  lemma {:induction false} LiteralShrinks(s: string, acc: string)
    ensures ReadLiteral(s, acc).Some? ==> |ReadLiteral(s, acc).value.1| < |s|
  {
    if s != [] && s[0] != '\n' && s[0] != '"' {
      if s[0] == '\\' {
        if |s| > 1 { LiteralShrinks(s[2..], acc + [s[1]]); }
      } else {
        LiteralShrinks(s[1..], acc + [s[0]]);
      }
    }
  }

  lemma ReadChar(c: char, s: string, acc: string)
    requires c != '\n'
    ensures ReadLiteral(EscapeChar(c) + s, acc) == ReadLiteral(s, acc + [c])
  {
    assert (['\\', c] + s)[2..] == s;
    assert ([c] + s)[1..] == s;
  }

  // Unquoting undoes the printer's escapes.
  lemma {:induction false} LiteralReadBack(v: string, rest: string, acc: string)
    requires '\n' !in v
    ensures ReadLiteral(EscapeLiteral(v) + ['"'] + rest, acc) == Some((acc + v, rest))
  {
    hide ReadLiteral;
    var all := EscapeLiteral(v) + ['"'] + rest;
    if v == [] {
      assert all == ['"'] + rest;
      assert acc + v == acc;
      ClosingQuote(rest, acc);
    } else {
      assert v[0] in v;
      var more := EscapeLiteral(v[1..]) + ['"'] + rest;
      assert all == EscapeChar(v[0]) + more;
      ReadChar(v[0], more, acc);
      LiteralReadBack(v[1..], rest, acc + [v[0]]);
      assert acc + v == acc + [v[0]] + v[1..];
    }
  }

  lemma ClosingQuote(rest: string, acc: string)
    ensures ReadLiteral(['"'] + rest, acc) == Some((acc, rest))
  {
  }

  predicate IsNameChar(c: char) {
    c == '_' || 'a' <= c <= 'z' || 'A' <= c <= 'Z' || '0' <= c <= '9'
  }

  // A label name as the query language knows it.
  ghost predicate LabelName(name: string) {
    && name != []
    && forall i :: 0 <= i < |name| ==>
         var c := name[i]; c == '_' || ('a' <= c <= 'z') || ('A' <= c <= 'Z') || ('0' <= c <= '9')
  }

  lemma LabelNameReads(name: string)
    requires LabelName(name)
    ensures forall i :: 0 <= i < |name| ==> IsNameChar(name[i])
  {
  }

  // Names end at what follows them in a query.
  lemma NameStops()
    ensures forall c :: c in " ,=!~\"{}-./:@[`" ==> !IsNameChar(c)
  {
  }

  function NameLength(s: string): (n: nat)
    ensures n <= |s|
    ensures forall i :: 0 <= i < n ==> IsNameChar(s[i])
    ensures n < |s| ==> !IsNameChar(s[n])
  {
    if s == [] || !IsNameChar(s[0]) then 0 else 1 + NameLength(s[1..])
  }

  function SkipSeparators(s: string): (r: string)
    ensures |r| <= |s|
  {
    if s != [] && (s[0] == ' ' || s[0] == ',') then SkipSeparators(s[1..]) else s
  }

  predicate StartsWith(s: string, c: char, d: char) {
    |s| > 1 && s[0] == c && s[1] == d
  }

  function ReadOp(s: string): Option<(Op, string)> {
    if StartsWith(s, '=', '~') then Some((Regex, s[2..]))
    else if StartsWith(s, '!', '~') then Some((NotRegex, s[2..]))
    else if StartsWith(s, '!', '=') then Some((NotEqual, s[2..]))
    else if s != [] && s[0] == '=' then Some((Equal, s[1..]))
    else None
  }

  // One matcher, and what is left of the text.
  function ReadMatcher(s: string): (r: Option<(Matcher, string)>)
    ensures r.Some? ==> |r.value.1| < |s|
  {
    var n := NameLength(s);
    if n == 0 then None
    else
      var op := ReadOp(s[n..]);
      if op.None? || op.value.1 == [] || op.value.1[0] != '"' then None
      else
        LiteralShrinks(op.value.1[1..], []);
        var lit := ReadLiteral(op.value.1[1..], []);
        if lit.None? then None else Some((Matcher(s[..n], op.value.0, lit.value.0), lit.value.1))
  }

  function ReadMatchers(s: string): Option<seq<Matcher>>
    decreases |s|
  {
    var t := SkipSeparators(s);
    if t == [] then None
    else if t[0] == '}' then Some([])
    else
      var m := ReadMatcher(t);
      if m.None? then None
      else
        var rest := ReadMatchers(m.value.1);
        if rest.None? then None else Some([m.value.0] + rest.value)
  }

  function IndexOf(s: string, c: char): (i: nat)
    ensures i <= |s|
    ensures i < |s| ==> s[i] == c
    ensures forall j :: 0 <= j < i ==> s[j] != c
  {
    if s == [] || s[0] == c then 0 else 1 + IndexOf(s[1..], c)
  }

  // parseSelector: the matchers of the first braces; none without braces.
  function Parse(query: string): Option<seq<Matcher>> {
    var open := IndexOf(query, '{');
    if open == |query| then Some([]) else ReadMatchers(query[open + 1..])
  }

  method ParseSelector(query: string) returns (ok: bool, out: seq<Matcher>)
    ensures ok <==> Parse(query).Some?
    ensures ok ==> Parse(query) == Some(out)
  {
    hide ReadMatcher;
    ok, out := true, [];
    var open := IndexOf(query, '{');
    if open == |query| {
      return;
    }
    var s := query[open + 1..];
    ghost var all := ReadMatchers(s);
    while true
      invariant all.Some? <==> ReadMatchers(s).Some?
      invariant all.Some? ==> all.value == out + ReadMatchers(s).value
      decreases |s|
    {
      var t := SkipSeparators(s);
      if t == [] {
        return false, [];
      }
      if t[0] == '}' {
        assert out + [] == out;
        return true, out;
      }
      var m := ReadMatcher(t);
      if m.None? {
        return false, [];
      }
      out := out + [m.value.0];
      s := m.value.1;
    }
  }

  ghost predicate Printable(m: Matcher) {
    LabelName(m.name) && '\n' !in m.val
  }

  lemma {:induction false} NameReadBack(name: string, rest: string)
    requires forall i :: 0 <= i < |name| ==> IsNameChar(name[i])
    requires rest == [] || !IsNameChar(rest[0])
    ensures NameLength(name + rest) == |name|
  {
    hide IsNameChar;
    if name == [] {
      assert name + rest == rest;
    } else {
      assert (name + rest)[1..] == name[1..] + rest;
      NameReadBack(name[1..], rest);
    }
  }

  lemma OpReadBack(op: Op, rest: string)
    requires rest != [] && rest[0] == '"'
    ensures ReadOp(OpText(op) + rest) == Some((op, rest))
    ensures !IsNameChar((OpText(op) + rest)[0])
  {
    var s := OpText(op) + rest;
    assert s[|OpText(op)|..] == rest;
  }

  lemma {:induction false} MatcherReadBack(m: Matcher, rest: string)
    requires Printable(m)
    ensures ReadMatcher(Print(m) + rest) == Some((m, rest))
    ensures IsNameChar((Print(m) + rest)[0])
  {
    hide IsNameChar, NameLength, ReadOp, ReadLiteral, EscapeLiteral, OpText;
    var lit := ['"'] + (EscapeLiteral(m.val) + ['"'] + rest);
    var afterName := OpText(m.op) + lit;
    assert Print(m) + rest == m.name + afterName;
    LabelNameReads(m.name);
    OpReadBack(m.op, lit);
    NameReadBack(m.name, afterName);
    assert (m.name + afterName)[..|m.name|] == m.name;
    assert (m.name + afterName)[|m.name|..] == afterName;
    assert lit[1..] == EscapeLiteral(m.val) + ['"'] + rest;
    LiteralReadBack(m.val, rest, []);
    assert [] + m.val == m.val;
  }

  // The character a literal opens with, and what follows it.
  function FirstOf(s: string): (r: (char, string))
    requires s != []
    ensures |r.1| < |s|
  {
    if s[0] == '\\' && |s| > 1 then (s[1], s[2..]) else (s[0], s[1..])
  }

  lemma LiteralStep(s: string, acc: string)
    requires ReadLiteral(s, acc).Some? && s[0] != '"'
    ensures var r := FirstOf(s);
            && r.0 != '\n' && s == EscapeChar(r.0) + r.1
            && ReadLiteral(s, acc) == ReadLiteral(r.1, acc + [r.0])
  {
  }

  lemma {:induction false} LiteralReadOnly(s: string, acc: string)
    requires ReadLiteral(s, acc).Some?
    ensures var r := ReadLiteral(s, acc).value;
            && acc <= r.0 && '\n' !in r.0[|acc|..]
            && s == EscapeLiteral(r.0[|acc|..]) + ['"'] + r.1
  {
    var r := ReadLiteral(s, acc).value;
    if s[0] == '"' {
      assert r.0[|acc|..] == [] && s == [] + ['"'] + s[1..];
    } else {
      hide ReadLiteral, EscapeChar;
      LiteralStep(s, acc);
      var c, tail := FirstOf(s).0, FirstOf(s).1;
      LiteralReadOnly(tail, acc + [c]);
      var t := r.0[|acc + [c]|..];
      assert r.0[|acc|..] == [c] + t;
      assert ([c] + t)[1..] == t;
    }
  }

  // And no other text is read as a matcher: what is read prints to what was
  // there.
  lemma {:induction false} MatcherReadOnly(s: string)
    requires ReadMatcher(s).Some?
    ensures var r := ReadMatcher(s).value; s == Print(r.0) + r.1 && r.0.name != [] && '\n' !in r.0.val
  {
    hide ReadLiteral, EscapeLiteral, NameLength, ReadOp, OpText, Print;
    var n := NameLength(s);
    var op := ReadOp(s[n..]).value;
    OpReadOnly(s[n..]);
    LiteralShrinks(op.1[1..], []);
    LiteralReadOnly(op.1[1..], []);
    var r := ReadMatcher(s).value;
    assert r.0.val[0..] == r.0.val;
    assert op.1 == ['"'] + op.1[1..];
    assert s == s[..n] + s[n..];
    PrintSplits(r.0, r.1);
  }

  lemma PrintSplits(m: Matcher, rest: string)
    ensures Print(m) + rest == m.name + (OpText(m.op) + (['"'] + (EscapeLiteral(m.val) + ['"'] + rest)))
  {
    hide OpText, EscapeLiteral;
  }

  lemma OpReadOnly(s: string)
    requires ReadOp(s).Some?
    ensures s == OpText(ReadOp(s).value.0) + ReadOp(s).value.1
  {
  }

  // Spaces and commas before a matcher are passed over.
  lemma SeparatorsPassed(s: string)
    ensures ReadMatchers([' '] + s) == ReadMatchers(s) && ReadMatchers([','] + s) == ReadMatchers(s)
  {
    assert ([','] + s)[1..] == s && ([' '] + s)[1..] == s;
  }

  lemma NameIsNoSeparator(c: char)
    requires IsNameChar(c)
    ensures c != ' ' && c != ',' && c != '}' && c != '{'
  {
  }

  lemma {:induction false} MatchersReadBack(ms: seq<Matcher>, rest: string)
    requires forall i :: 0 <= i < |ms| ==> Printable(ms[i])
    ensures ReadMatchers(PrintAll(ms) + ['}'] + rest) == Some(ms)
  {
    hide IsNameChar, ReadMatcher, Print, Printable;
    var all := PrintAll(ms) + ['}'] + rest;
    if ms == [] {
      assert all == ['}'] + rest;
    } else {
      var texts := seq(|ms|, i requires 0 <= i < |ms| => Print(ms[i]));
      var tail := ms[1..];
      assert texts[1..] == seq(|tail|, i requires 0 <= i < |tail| => Print(tail[i]));
      MatchersReadBack(tail, rest);
      var after := (if tail == [] then [] else [',']) + (PrintAll(tail) + ['}'] + rest);
      assert all == Print(ms[0]) + after;
      MatcherReadBack(ms[0], after);
      NameIsNoSeparator(all[0]);
      assert ms == [ms[0]] + tail;
      if tail != [] {
        assert after[1..] == PrintAll(tail) + ['}'] + rest;
        SeparatorsPassed(PrintAll(tail) + ['}'] + rest);
      }
    }
  }

  // Reading a rendered query gives back exactly the matchers it was rendered
  // from, in order, whatever their values hold short of a line break.
  lemma {:induction false} ParseReadsBack(before: string, ms: seq<Matcher>, rest: string)
    requires '{' !in before
    requires forall i :: 0 <= i < |ms| ==> Printable(ms[i])
    ensures Parse(before + ['{'] + PrintAll(ms) + ['}'] + rest) == Some(ms)
  {
    hide ReadMatchers, PrintAll, IndexOf;
    var query := before + ['{'] + PrintAll(ms) + ['}'] + rest;
    FirstBrace(before, PrintAll(ms) + ['}'] + rest);
    assert query == before + ['{'] + (PrintAll(ms) + ['}'] + rest);
    assert query[|before| + 1..] == PrintAll(ms) + ['}'] + rest;
    MatchersReadBack(ms, rest);
  }

  lemma FirstBrace(before: string, after: string)
    requires '{' !in before
    ensures IndexOf(before + ['{'] + after, '{') == |before|
  {
    var s := before + ['{'] + after;
    var i := IndexOf(s, '{');
    assert s[|before|] == '{';
    assert forall j :: 0 <= j < |before| ==> s[j] == before[j] && before[j] in before;
  }
}
