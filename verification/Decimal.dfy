/** Decimal text of integers, as produced by Go's `%d` and `big.Int.String`,
    and the two splitting facts every colon-separated identifier rests on. */
module Decimal {

  datatype Option<+T> = None | Some(value: T)

  function Min(a: int, b: int): int { if a <= b then a else b }

  ghost predicate Increasing(at: seq<nat>) { forall i, j | 0 <= i < j < |at| :: at[i] < at[j] }

  predicate IsDigit(c: char) { '0' <= c <= '9' }

  predicate AllDigits(s: string) { forall i | 0 <= i < |s| :: IsDigit(s[i]) }

  function Digit(d: nat): (c: char)
    requires d < 10
    ensures IsDigit(c) && DigitValue(c) == d
  {
    ('0' as int + d) as char
  }

  function DigitValue(c: char): nat
    requires IsDigit(c)
  {
    c as int - '0' as int
  }

  function NatString(n: nat): string {
    if n < 10 then [Digit(n)] else NatString(n / 10) + [Digit(n % 10)]
  }

  /** Reads a run of digits; leading zeros are allowed. */
  function ParseNat(s: string): nat
    requires AllDigits(s)
  {
    if s == [] then 0 else 10 * ParseNat(s[..|s| - 1]) + DigitValue(s[|s| - 1])
  }

  function IntString(x: int): string {
    if x < 0 then "-" + NatString(-x) else NatString(x)
  }

  /** Printing a natural number gives digits only, no redundant leading zero, and reads back. */
  lemma {:induction false} NatStringReadsBack(n: nat)
    ensures |NatString(n)| > 0 && AllDigits(NatString(n))
    ensures NatString(n)[0] == '0' ==> n == 0 && |NatString(n)| == 1
    ensures ParseNat(NatString(n)) == n
  {
    if n >= 10 {
      NatStringReadsBack(n / 10);
      var s := NatString(n);
      assert s[..|s| - 1] == NatString(n / 10);
    } else {
      assert NatString(n)[..0] == [];
    }
  }

  /** Padding on the left with zeros does not change the number read. */
  lemma {:induction false} LeadingZeros(k: nat, s: string)
    requires AllDigits(s)
    ensures AllDigits(Zeros(k) + s) && ParseNat(Zeros(k) + s) == ParseNat(s)
  {
    var t := Zeros(k) + s;
    if s != [] {
      LeadingZeros(k, s[..|s| - 1]);
      assert t[..|t| - 1] == Zeros(k) + s[..|s| - 1];
    } else if k > 0 {
      LeadingZeros(k - 1, s);
      assert t[..|t| - 1] == Zeros(k - 1) + s;
    } else {
      assert t == s;
    }
  }

  function Zeros(k: nat): string { seq(k, _ => '0') }

  predicate IntText(s: string) { s != [] && AllDigits(if s[0] == '-' then s[1..] else s) }

  function ParseInt(s: string): int
    requires IntText(s)
  {
    if s[0] == '-' then 0 - ParseNat(s[1..]) else ParseNat(s)
  }

  /** Decimal text of an integer reads back and holds no separator. */
  lemma IntStringReadsBack(x: int)
    ensures IntText(IntString(x)) && ParseInt(IntString(x)) == x
    ensures ':' !in IntString(x) && '|' !in IntString(x)
  {
    var n: nat := if x < 0 then -x else x;
    NatStringReadsBack(n);
    var t := NatString(n);
    hide NatString;
    hide ParseNat;
    assert (['-'] + t)[1..] == t;
    assert IsDigit(t[0]);
  }

  lemma IntStringInjective(x: int, y: int)
    ensures IntString(x) == IntString(y) ==> x == y
    ensures ':' !in IntString(x) && '|' !in IntString(x) && IntString(x) != []
  {
    hide IntString;
    hide ParseInt;
    IntStringReadsBack(x);
    IntStringReadsBack(y);
  }

  /** A separator absent from both prefixes fixes where the prefix ends. */
  lemma SplitAtFirst(c: char, a: string, b: string, a': string, b': string)
    requires c !in a && c !in a'
    requires a + [c] + b == a' + [c] + b'
    ensures a == a' && b == b'
  {
    var s := a + [c] + b;
    assert s[|a|] == c && s[|a'|] == c;
    assert forall i | 0 <= i < |a| :: s[i] == a[i];
    assert forall i | 0 <= i < |a'| :: s[i] == a'[i];
    assert a == s[..|a|] && a' == s[..|a'|];
    assert b == s[|a| + 1..] && b' == s[|a'| + 1..];
  }

  /** A separator absent from both suffixes fixes where the suffix starts. */
  lemma SplitAtLast(c: char, a: string, b: string, a': string, b': string)
    requires c !in b && c !in b'
    requires a + [c] + b == a' + [c] + b'
    ensures a == a' && b == b'
  {
    var s := a + [c] + b;
    assert s[|a|] == c && s[|a'|] == c;
    assert forall i | |a| < i < |s| :: s[i] == b[i - |a| - 1];
    assert forall i | |a'| < i < |s| :: s[i] == b'[i - |a'| - 1];
    assert a == s[..|a|] && a' == s[..|a'|];
    assert b == s[|a| + 1..] && b' == s[|a'| + 1..];
  }

  /** First position of `c`, or the length of `s` when it does not occur. */
  function IndexOf(s: string, c: char): (i: nat)
    ensures i <= |s|
  {
    if s == [] || s[0] == c then 0 else 1 + IndexOf(s[1..], c)
  }

  lemma {:induction false} IndexOfSplit(a: string, c: char, b: string)
    requires c !in a
    ensures IndexOf(a, c) == |a| == IndexOf(a + [c] + b, c)
  {
    var s := a + [c] + b;
    if a == [] {
      assert s[0] == c;
    } else {
      IndexOfSplit(a[1..], c, b);
      assert s[0] == a[0] && s[1..] == a[1..] + [c] + b;
    }
  }

  /** Last position of `c`; zero when it does not occur. */
  function LastIndexOf(s: string, c: char): (i: nat)
    ensures i <= |s|
  {
    if s == [] then 0
    else if s[|s| - 1] == c then |s| - 1
    else LastIndexOf(s[..|s| - 1], c)
  }

  lemma {:induction false} LastIndexOfSplit(a: string, c: char, b: string)
    requires c !in b
    ensures LastIndexOf(a + [c] + b, c) == |a|
  {
    var s := a + [c] + b;
    if b == [] {
      assert s == a + [c];
    } else {
      LastIndexOfSplit(a, c, b[..|b| - 1]);
      assert s[..|s| - 1] == a + [c] + b[..|b| - 1] && s[|s| - 1] == b[|b| - 1];
    }
  }
}
