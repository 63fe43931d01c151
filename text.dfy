// String helpers that the framework's extension methods provide and that the
// modelled code calls: prefix and suffix tests, one-suffix trimming, character
// removal and replacement, splitting and joining, and decimal rendering of
// integers (C#'s int.ToString() for the invariant culture).
module Text {

  predicate StartsWith(s: string, prefix: string)
  {
    |prefix| <= |s| && s[..|prefix|] == prefix
  }

  predicate EndsWith(s: string, suffix: string)
  {
    |suffix| <= |s| && s[|s| - |suffix|..] == suffix
  }

  /** The framework's TrimEnd(string): drops `suffix` once when `s` ends with it. */
  function TrimSuffix(s: string, suffix: string): (r: string)
    ensures EndsWith(s, suffix) ==> r + suffix == s
    ensures !EndsWith(s, suffix) ==> r == s
  {
    if EndsWith(s, suffix) then s[..|s| - |suffix|] else s
  }

  /** The framework's Remove(string) for a one-character text: drops every `c`. */
  function RemoveChar(s: string, c: char): (r: string)
    ensures c !in r
    ensures forall x :: x in r ==> x in s
    ensures c !in s ==> r == s
  {
    if s == [] then []
    else if s[0] == c then RemoveChar(s[1..], c)
    else [s[0]] + RemoveChar(s[1..], c)
  }

  /** Removing a character keeps every other character of the string. */
  lemma {:induction false} RemoveCharKeeps(s: string, c: char)
    ensures forall x :: x in s && x != c ==> x in RemoveChar(s, c)
  {
    if s != [] {
      RemoveCharKeeps(s[1..], c);
      assert s == [s[0]] + s[1..];
    }
  }

  /** String.Replace for one-character texts: every `c` becomes `d`. */
  function ReplaceChar(s: string, c: char, d: char): (r: string)
    ensures |r| == |s|
    ensures forall i :: 0 <= i < |s| ==> r[i] == (if s[i] == c then d else s[i])
  {
    if s == [] then []
    else [if s[0] == c then d else s[0]] + ReplaceChar(s[1..], c, d)
  }

  /** String.Split(char): the pieces between occurrences of `c`, empty pieces kept. */
  function Split(s: string, c: char): (r: seq<string>)
    ensures |r| >= 1
    ensures forall k :: 0 <= k < |r| ==> c !in r[k]
  {
    if s == [] then [""]
    else
      var rest := Split(s[1..], c);
      if s[0] == c then [""] + rest else [[s[0]] + rest[0]] + rest[1..]
  }

  /** String.Join / the framework's ToString(separator). */
  function Join(parts: seq<string>, sep: string): string
  {
    if parts == [] then ""
    else if |parts| == 1 then parts[0]
    else parts[0] + sep + Join(parts[1..], sep)
  }

  /** The framework's WithPrefix: an empty text stays empty. */
  function WithPrefix(prefix: string, s: string): (r: string)
    ensures s == "" ==> r == ""
    ensures s != "" ==> r == prefix + s
  {
    if s == "" then "" else prefix + s
  }

  /** The framework's OnlyWhen: the text when the condition holds, otherwise empty. */
  function OnlyWhen(s: string, condition: bool): string
  {
    if condition then s else ""
  }

  function Digit(d: nat): char
    requires d < 10
  {
    "0123456789"[d]
  }

  /** Decimal digits of a natural number, with no leading zeros. */
  function NatToString(n: nat): (r: string)
    ensures |r| >= 1
    ensures n >= 10 ==> |r| >= 2
    ensures forall k :: 0 <= k < |r| ==> r[k] in "0123456789"
  {
    if n < 10 then [Digit(n)] else NatToString(n / 10) + [Digit(n % 10)]
  }

  /** int.ToString(): a minus sign before the digits of a negative number. */
  function IntToString(i: int): (r: string)
    ensures |r| >= 1
    ensures i >= 0 ==> r == NatToString(i)
    ensures i < 0 ==> r == "-" + NatToString(-i)
  {
    if i < 0 then "-" + NatToString(-i) else NatToString(i)
  }

  lemma {:induction false} NatToStringInjective(a: nat, b: nat)
    requires NatToString(a) == NatToString(b)
    ensures a == b
  {
    var sa, sb := NatToString(a), NatToString(b);
    if a < 10 && b < 10 {
      assert sa[0] == Digit(a) && sb[0] == Digit(b);
    } else if a >= 10 && b >= 10 {
      assert NatToString(a / 10) == sa[..|sa| - 1];
      assert NatToString(b / 10) == sb[..|sb| - 1];
      NatToStringInjective(a / 10, b / 10);
      assert sa[|sa| - 1] == Digit(a % 10) && sb[|sb| - 1] == Digit(b % 10);
    }
  }

  /** Different integers have different texts. */
  lemma IntToStringInjective(a: int, b: int)
    requires IntToString(a) == IntToString(b)
    ensures a == b
  {
    var sa, sb := IntToString(a), IntToString(b);
    assert sa[0] == '-' <==> a < 0 by {
      if a >= 0 { assert sa[0] in "0123456789"; }
    }
    assert sb[0] == '-' <==> b < 0 by {
      if b >= 0 { assert sb[0] in "0123456789"; }
    }
    if a < 0 {
      assert sa[1..] == NatToString(-a) && sb[1..] == NatToString(-b);
      NatToStringInjective(-a, -b);
    } else {
      NatToStringInjective(a, b);
    }
  }

  lemma {:induction false} SplitWithout(s: string, c: char)
    requires c !in s
    ensures Split(s, c) == [s]
  {
    if s != [] {
      SplitWithout(s[1..], c);
      assert [s[0]] + s[1..] == s;
    }
  }

  lemma {:induction false} SplitAt(a: string, c: char, b: string)
    requires c !in a
    ensures Split(a + [c] + b, c) == [a] + Split(b, c)
  {
    if a == [] {
      assert a + [c] + b == [c] + b;
      assert ([c] + b)[1..] == b;
    } else {
      var w := a + [c] + b;
      assert w[0] == a[0] && w[1..] == a[1..] + [c] + b;
      SplitAt(a[1..], c, b);
      assert [a[0]] + a[1..] == a;
    }
  }

  /** A text holding `c` splits into at least two pieces. */
  lemma {:induction false} SplitWith(s: string, c: char)
    requires c in s
    ensures |Split(s, c)| >= 2
  {
    if s[0] != c {
      SplitWith(s[1..], c);
    }
  }

  lemma SplitTwo(a: string, c: char, b: string)
    requires c !in a && c !in b
    ensures c in a + [c] + b
    ensures Split(a + [c] + b, c) == [a, b]
  {
    assert (a + [c] + b)[|a|] == c;
    SplitAt(a, c, b);
    SplitWithout(b, c);
  }

  lemma StartsWithExtend(x: string, prefix: string, more: string)
    requires StartsWith(x, prefix)
    ensures StartsWith(x + more, prefix)
  {
    assert (x + more)[..|prefix|] == x[..|prefix|];
  }

  lemma StartsWithBehind(head: string, x: string, prefix: string)
    requires StartsWith(x, prefix)
    ensures StartsWith(head + x, head + prefix)
  {
    assert (head + x)[..|head + prefix|] == head + x[..|prefix|];
  }
}
