/** Greedy loops over characters, for any recognizer of one character. */
module Greedy {
  import opened Bytes

  /** Length of the longest run a greedy loop takes. */
  function Longest(unit: Recognizer, s: string): (n: nat)
    ensures n <= |s|
    decreases |s|
  {
    var u := unit(s);
    if u == 0 || u > |s| then 0 else u + Longest(unit, s[u..])
  }

  /** Zero or more texts of one character each. */
  ghost predicate Repeated(text: string -> bool, s: string) {
    s == [] || exists n: nat :: 0 < n <= |s| && text(s[..n]) && Repeated(text, s[n..])
  }

  /** A greedy test takes a character, and takes every one whatever follows. */
  ghost predicate IsUnitOf(unit: Recognizer, text: string -> bool) {
    (forall s :: FindsUnit(unit, text, s)) && (forall t, rest :: TakesUnit(unit, text, t, rest))
  }

  ghost predicate FindsUnit(unit: Recognizer, text: string -> bool, s: string) {
    var u := unit(s);
    u > 0 ==> u <= |s| && text(s[..u])
  }

  ghost predicate TakesUnit(unit: Recognizer, text: string -> bool, t: string, rest: string) {
    text(t) ==> t != [] && unit(t + rest) == |t|
  }

  /** What a greedy loop takes is a run, and no character follows it. */
  lemma {:induction false} LongestSound(unit: Recognizer, text: string -> bool, s: string)
    requires IsUnitOf(unit, text)
    ensures var n := Longest(unit, s); Repeated(text, s[..n]) && unit(s[n..]) == 0
    decreases |s|
  {
    var u := unit(s);
    assert FindsUnit(unit, text, s);
    if u == 0 {
      assert s[0..] == s;
    } else {
      LongestSound(unit, text, s[u..]);
      TakeSplit(s, u, Longest(unit, s[u..]));
    }
  }

  /** The first character of a run is the one the greedy test takes. */
  lemma RepeatedHead(unit: Recognizer, text: string -> bool, s: string) returns (n: nat)
    requires IsUnitOf(unit, text) && Repeated(text, s) && s != []
    ensures 0 < n == unit(s) <= |s| && text(s[..n]) && Repeated(text, s[n..])
  {
    n :| 0 < n <= |s| && text(s[..n]) && Repeated(text, s[n..]);
    assert TakesUnit(unit, text, s[..n], s[n..]);
    assert s == s[..n] + s[n..];
  }

  /** A greedy loop takes all of a run and then goes on with what follows. */
  lemma {:induction false} LongestComplete(unit: Recognizer, text: string -> bool, a: string, b: string)
    requires IsUnitOf(unit, text) && Repeated(text, a)
    ensures Longest(unit, a + b) == |a| + Longest(unit, b)
    decreases |a|
  {
    if a == [] {
      assert a + b == b;
    } else {
      var n := RepeatedHead(unit, text, a);
      LongestComplete(unit, text, a[n..], b);
      assert TakesUnit(unit, text, a[..n], a[n..] + b);
      Reassociate(a, b, n);
    }
  }

  lemma Reassociate(a: string, b: string, n: nat)
    requires n <= |a|
    ensures a + b == a[..n] + (a[n..] + b) && (a + b)[n..] == a[n..] + b
  {
  }

  /** Every byte of a run is a byte of a character. */
  lemma {:induction false} RepeatedBytes(text: string -> bool, holds: char -> bool, s: string)
    requires Repeated(text, s)
    requires forall t :: AllHold(text, holds, t)
    ensures forall i :: 0 <= i < |s| ==> holds(s[i])
    decreases |s|
  {
    if s != [] {
      var n: nat :| 0 < n <= |s| && text(s[..n]) && Repeated(text, s[n..]);
      assert AllHold(text, holds, s[..n]);
      RepeatedBytes(text, holds, s[n..]);
      forall i | 0 <= i < |s| ensures holds(s[i]) {
        if i < n { assert s[i] == s[..n][i]; } else { assert s[i] == s[n..][i - n]; }
      }
    }
  }

  ghost predicate AllHold(text: string -> bool, holds: char -> bool, t: string) {
    text(t) ==> forall i :: 0 <= i < |t| ==> holds(t[i])
  }

  // ---------------------------------------------------------------------------------------
  // The loops
  // ---------------------------------------------------------------------------------------

  /** `run` takes one `unit` after the other. */
  ghost predicate Repeats(unit: Recognizer, run: Recognizer, s: string, pos: nat)
    requires pos <= |s|
  {
    var u := unit(s[pos..]);
    pos + u <= |s| && run(s[pos..]) == if u == 0 then 0 else u + run(s[pos + u..])
  }

  ghost predicate StopsAt(unit: Recognizer, stop: char, s: string) {
    s == [] || s[0] == stop ==> unit(s) == 0
  }

  /** A loop over units that no `stop` byte starts. */
  ghost predicate IsRunOf(unit: Recognizer, run: Recognizer, stop: char) {
    && (forall s, pos: nat :: pos <= |s| ==> Repeats(unit, run, s, pos))
    && (forall s: string :: StopsAt(unit, stop, s))
  }

  lemma RunStep(unit: Recognizer, run: Recognizer, stop: char, s: string, pos: nat)
    requires IsRunOf(unit, run, stop) && pos <= |s|
    ensures var u := unit(s[pos..]);
      pos + u <= |s| && run(s[pos..]) == if u == 0 then 0 else u + run(s[pos + u..])
    ensures pos == |s| || s[pos] == stop ==> run(s[pos..]) == 0
  {
    assert Repeats(unit, run, s, pos) && StopsAt(unit, stop, s[pos..]);
  }

  lemma LongestRepeats(unit: Recognizer, text: string -> bool, s: string, pos: nat)
    requires IsUnitOf(unit, text) && pos <= |s|
    ensures var u := unit(s[pos..]);
      pos + u <= |s| && Longest(unit, s[pos..]) == if u == 0 then 0 else u + Longest(unit, s[pos + u..])
  {
    assert FindsUnit(unit, text, s[pos..]);
    LongestMove(unit, s, pos);
  }

  lemma LongestMove(unit: Recognizer, s: string, pos: nat)
    requires pos <= |s| && pos + unit(s[pos..]) <= |s|
    ensures var u := unit(s[pos..]);
      Longest(unit, s[pos..]) == if u == 0 then 0 else u + Longest(unit, s[pos + u..])
  {
    assert s[pos..][unit(s[pos..])..] == s[pos + unit(s[pos..])..];
  }

  /** The loops over single characters of a class. */
  method ParseLongest(unit: Recognizer, ghost text: string -> bool, s: string) returns (n: nat)
    requires IsUnitOf(unit, text)
    ensures n == Longest(unit, s)
  {
    n := 0;
    assert s[0..] == s;
    while n < |s|
      invariant n <= |s|
      invariant Longest(unit, s) == n + Longest(unit, s[n..])
    {
      LongestRepeats(unit, text, s, n);
      var u := unit(s[n..]);
      if u == 0 { return; }
      n := n + u;
    }
  }

  /**
   The loops that go on to a `stop` byte, to the end, or to a byte that starts no unit:
   those of literals, of quoted strings and of pointer tokens.
   */
  method ParseUntil(unit: Recognizer, ghost run: Recognizer, stop: char, s: string) returns (n: nat)
    requires IsRunOf(unit, run, stop)
    ensures n == run(s) <= |s|
  {
    n := 0;
    assert s[0..] == s;
    while n < |s| && s[n] != stop
      invariant n <= |s|
      invariant run(s) == n + run(s[n..])
    {
      RunStep(unit, run, stop, s, n);
      var u := unit(s[n..]);
      if u == 0 { return; }
      n := n + u;
    }
    RunStep(unit, run, stop, s, n);
  }

  /** Two tests that agree on some strings and all their ends take the same runs there. */
  lemma {:induction false} SameLongest(a: Recognizer, b: Recognizer, s: string)
    requires forall i: nat :: i <= |s| ==> SameUnit(a, b, s[i..])
    ensures Longest(a, s) == Longest(b, s)
    decreases |s|
  {
    assert s[0..] == s && SameUnit(a, b, s[0..]);
    var u := a(s);
    if 0 < u <= |s| {
      forall i: nat | i <= |s| - u ensures SameUnit(a, b, s[u..][i..]) {
        assert s[u..][i..] == s[u + i..] && SameUnit(a, b, s[u + i..]);
      }
      SameLongest(a, b, s[u..]);
    }
  }

  ghost predicate SameUnit(a: Recognizer, b: Recognizer, s: string) { a(s) == b(s) }
}
