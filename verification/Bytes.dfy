/** Byte strings and the ASCII classes the format recognizers share. A char stands for one byte. */
module Bytes {
  predicate IsAscii(c: char) { c as int < 0x80 }
  predicate IsDigit(c: char) { '0' <= c <= '9' }
  predicate IsAlpha(c: char) { 'A' <= c <= 'Z' || 'a' <= c <= 'z' }
  predicate IsHex(c: char) { IsDigit(c) || 'A' <= c <= 'F' || 'a' <= c <= 'f' }

  /** Length of what stands at the front of a string, or 0. */
  type Recognizer = string -> nat

  /** Index of the first byte satisfying `stop`, or the length. */
  function FirstOf(s: string, stop: char -> bool): (i: nat)
    ensures i <= |s| && (i < |s| ==> stop(s[i])) && forall k :: 0 <= k < i ==> !stop(s[k])
  {
    if s == [] || stop(s[0]) then 0 else 1 + FirstOf(s[1..], stop)
  }

  /** The scanning loops of the source. */
  method FindFirst(s: string, stop: char -> bool) returns (i: nat)
    ensures i == FirstOf(s, stop)
  {
    i := 0;
    while i < |s| && !stop(s[i])
      invariant i <= |s|
      invariant FirstOf(s, stop) == i + FirstOf(s[i..], stop)
    {
      assert s[i..][1..] == s[i + 1..];
      i := i + 1;
    }
  }

  /** A split at a byte that cannot occur earlier is the split at its first occurrence. */
  lemma {:induction false} FirstOfSplit(a: string, b: string, stop: char -> bool)
    requires forall k :: 0 <= k < |a| ==> !stop(a[k])
    requires b == [] || stop(b[0])
    ensures FirstOf(a + b, stop) == |a|
    decreases |a|
  {
    if a == [] {
      assert a + b == b;
    } else {
      assert (a + b)[1..] == a[1..] + b;
      FirstOfSplit(a[1..], b, stop);
    }
  }

  /** Decimal digits without leading zeros. */
  function Decimal(n: nat): string {
    if n < 10 then [('0' as int + n) as char] else Decimal(n / 10) + [('0' as int + n % 10) as char]
  }

  function DigitValue(c: char): nat
    requires IsDigit(c)
  {
    c as int - '0' as int
  }

  /** Parts joined by a separator. */
  function Join(sep: char, parts: seq<string>): string {
    if parts == [] then [] else if |parts| == 1 then parts[0] else parts[0] + [sep] + Join(sep, parts[1..])
  }

  lemma JoinCons(sep: char, head: string, parts: seq<string>)
    requires parts != []
    ensures Join(sep, [head] + parts) == head + [sep] + Join(sep, parts)
  {
    assert ([head] + parts)[1..] == parts;
  }

  lemma AppendAround(head: string, sep: string, rest: string, b: string)
    ensures head + sep + rest + b == head + sep + (rest + b)
  {
  }

  lemma TakeSplit(s: string, u: nat, n: nat)
    requires u + n <= |s|
    ensures s[..u + n][..u] == s[..u] && s[..u + n][u..] == s[u..][..n] && s[u..][n..] == s[u + n..]
  {
  }

  lemma SplitAround(s: string, n: nat)
    requires n < |s|
    ensures s == s[..n] + [s[n]] + s[n + 1..]
  {
  }

  lemma Bracketed(s: string)
    requires |s| >= 2
    ensures s == [s[0]] + s[1..|s| - 1] + [s[|s| - 1]]
  {
  }
}
