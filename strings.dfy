/** The JavaScript string operations the dashboard relies on: `toLowerCase`
    (on ASCII letters), `endsWith`, `includes`, and the decimal rendering of an
    integer inside a template literal. */
module Strings {

  /** `toLowerCase` on one character; only the ASCII letters A-Z change. */
  function LowerChar(c: char): char
  {
    if 'A' <= c <= 'Z' then (c as int + 32) as char else c
  }

  function ToLower(s: string): (r: string)
    ensures |r| == |s|
    ensures forall i :: 0 <= i < |s| ==> r[i] == LowerChar(s[i])
  {
    seq(|s|, i requires 0 <= i < |s| => LowerChar(s[i]))
  }


  /** `s.endsWith(suffix)`. */
  predicate EndsWith(s: string, suffix: string)
  {
    |suffix| <= |s| && s[|s| - |suffix|..] == suffix
  }

  /** `s.startsWith(prefix)`. */
  predicate StartsWith(s: string, prefix: string)
  {
    |prefix| <= |s| && s[..|prefix|] == prefix
  }

  /** `s.includes(sub)`: `sub` occurs in `s` at some position. */
  predicate Contains(s: string, sub: string)
    decreases |s|
  {
    StartsWith(s, sub) || (s != [] && Contains(s[1..], sub))
  }

  /** `sub` occurs in `s` starting at position `at`. */
  predicate OccursAt(s: string, sub: string, at: nat)
  {
    at + |sub| <= |s| && s[at..at + |sub|] == sub
  }

  /** `includes` finds an occurrence exactly when there is one. */
  lemma {:induction false} ContainsIffOccurs(s: string, sub: string)
    ensures Contains(s, sub) <==> exists at: nat :: OccursAt(s, sub, at)
    decreases |s|
  {
    if StartsWith(s, sub) {
      assert OccursAt(s, sub, 0);
    } else if s != [] {
      ContainsIffOccurs(s[1..], sub);
      if at: nat :| OccursAt(s, sub, at) {
        assert at != 0;
        assert s[1..][at - 1..at - 1 + |sub|] == s[at..at + |sub|];
        assert OccursAt(s[1..], sub, at - 1);
      }
      if at: nat :| OccursAt(s[1..], sub, at) {
        assert s[at + 1..at + 1 + |sub|] == s[1..][at..at + |sub|];
        assert OccursAt(s, sub, at + 1);
      }
    }
  }


  predicate IsDigit(c: char)
  {
    '0' <= c <= '9'
  }

  function DigitChar(d: nat): (c: char)
    requires d < 10
    ensures IsDigit(c)
  {
    (48 + d) as char
  }

  /** The decimal digits of `n`, most significant first, as `${n}` prints them. */
  function NatToString(n: nat): string
  {
    if n < 10 then [DigitChar(n)] else NatToString(n / 10) + [DigitChar(n % 10)]
  }

  /** The rendering is a non-empty string of digits. */
  lemma {:induction false} NatToStringDigits(n: nat)
    ensures |NatToString(n)| >= 1
    ensures forall i :: 0 <= i < |NatToString(n)| ==> IsDigit(NatToString(n)[i])
  {
    if n >= 10 {
      NatToStringDigits(n / 10);
    }
  }

  /** `${i}` for an integer: a minus sign before the digits of a negative number. */
  function IntToString(i: int): string
  {
    if i < 0 then "-" + NatToString(-i) else NatToString(i)
  }

  /** Different numbers print differently. */
  lemma {:induction false} NatToStringInjective(m: nat, n: nat)
    requires NatToString(m) == NatToString(n)
    ensures m == n
    decreases m
  {
    NatToStringDigits(m);
    NatToStringDigits(n);
    if m >= 10 && n >= 10 {
      var a, b := NatToString(m / 10), NatToString(n / 10);
      NatToStringDigits(m / 10);
      NatToStringDigits(n / 10);
      assert a + [DigitChar(m % 10)] == b + [DigitChar(n % 10)];
      assert |a| == |b|;
      assert DigitChar(m % 10) == (a + [DigitChar(m % 10)])[|a|] == (b + [DigitChar(n % 10)])[|b|] == DigitChar(n % 10);
      assert a == (a + [DigitChar(m % 10)])[..|a|] == (b + [DigitChar(n % 10)])[..|b|] == b;
      NatToStringInjective(m / 10, n / 10);
    }
  }

  predicate NoDash(s: string)
  {
    forall i :: 0 <= i < |s| ==> s[i] != '-'
  }

  lemma NatToStringNoDash(n: nat)
    ensures NoDash(NatToString(n))
  {
    NatToStringDigits(n);
  }

  /** In `x + "-" + d` with `d` dash-free, the last dash is the one after `x`. */
  lemma LastDash(x: string, d: string)
    requires NoDash(d)
    ensures (x + "-" + d)[|x|] == '-'
    ensures forall i :: |x| < i < |x + "-" + d| ==> (x + "-" + d)[i] != '-'
  {
    var k := x + "-" + d;
    assert forall i :: |x| < i < |k| ==> k[i] == d[i - |x| - 1];
  }

  /** A string ending in a dash and a dash-free part splits uniquely at that dash. */
  lemma SplitAtLastDash(x: string, d: string, y: string, e: string)
    requires NoDash(d) && NoDash(e)
    requires x + "-" + d == y + "-" + e
    ensures x == y && d == e
  {
    var k := x + "-" + d;
    LastDash(x, d);
    LastDash(y, e);
    assert x == k[..|x|] == y;
    assert d == k[|x| + 1..] == e;
  }
}
