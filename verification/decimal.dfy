// Decimal numerals and separators, as far as the string encodings of the
// program rely on them: a numeral can be read back, and holds no separator.
module Decimal {

  function Digit(d: nat): char
    requires d < 10
  {
    '0' + d as char
  }

  function Digits(n: nat): (s: string)
    ensures s != [] && forall i :: 0 <= i < |s| ==> '0' <= s[i] <= '9'
  {
    if n < 10 then [Digit(n)] else Digits(n / 10) + [Digit(n % 10)]
  }

  function Itoa(i: int): string {
    if i < 0 then "-" + Digits(-i) else Digits(i)
  }

  function ValueOf(s: string): int {
    if s == [] then 0
    else ValueOf(s[..|s| - 1]) * 10 + (s[|s| - 1] as int - '0' as int)
  }

  lemma {:induction false} DigitsReadBack(n: nat)
    ensures ValueOf(Digits(n)) == n
  {
    var s := Digits(n);
    if n < 10 {
      assert s[..0] == [];
    } else {
      DigitsReadBack(n / 10);
      assert s[..|s| - 1] == Digits(n / 10);
    }
  }

  lemma {:induction false} ItoaReadBack(i: int)
    ensures Itoa(i) != []
    ensures Itoa(i)[0] == '-' <==> i < 0
    ensures i == if i < 0 then -ValueOf(Itoa(i)[1..]) else ValueOf(Itoa(i))
  {
    hide Digits, ValueOf;
    if i < 0 {
      assert Itoa(i)[1..] == Digits(-i);
      DigitsReadBack(-i);
    } else {
      DigitsReadBack(i);
      assert '0' <= Digits(i)[0];
    }
  }

  lemma {:induction false} ItoaInjective(a: int, b: int)
    requires Itoa(a) == Itoa(b)
    ensures a == b
  {
    hide Digits, ValueOf, Itoa;
    ItoaReadBack(a);
    ItoaReadBack(b);
  }

  lemma {:induction false} ItoaPlain(i: int)
    ensures forall j :: 0 <= j < |Itoa(i)| ==> Itoa(i)[j] == '-' || '0' <= Itoa(i)[j] <= '9'
  {
  }

  // The last separator splits a string in one way only.
  lemma {:induction false} SplitAtLast(a: string, b: string, a': string, b': string, c: char)
    requires a + [c] + b == a' + [c] + b'
    requires c !in b && c !in b'
    ensures a == a' && b == b'
  {
    var s := a + [c] + b;
    assert s[|a|] == c && s[|a'|] == c;
    assert forall i :: |a| < i < |s| ==> s[i] == b[i - |a| - 1] && s[i] in b;
    assert forall i :: |a'| < i < |s| ==> s[i] == b'[i - |a'| - 1] && s[i] in b';
    assert a == s[..|a|] && a' == s[..|a'|];
    assert b == s[|a| + 1..] && b' == s[|a'| + 1..];
  }

  // So does the first one.
  lemma {:induction false} SplitAtFirst(a: string, b: string, a': string, b': string, c: char)
    requires a + [c] + b == a' + [c] + b'
    requires c !in a && c !in a'
    ensures a == a' && b == b'
  {
    var s := a + [c] + b;
    assert s[|a|] == c && s[|a'|] == c;
    assert forall i :: 0 <= i < |a| ==> s[i] == a[i] && s[i] in a;
    assert forall i :: 0 <= i < |a'| ==> s[i] == a'[i] && s[i] in a';
    assert a == s[..|a|] && a' == s[..|a'|];
    assert b == s[|a| + 1..] && b' == s[|a'| + 1..];
  }
}
