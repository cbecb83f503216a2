/** Counting the indices of a sequence that satisfy a predicate. */
module Counting {
  ghost function Indices(n: nat): (s: set<nat>)
    ensures |s| == n && forall i: nat :: i in s <==> i < n
  {
    if n == 0 then {} else Indices(n - 1) + {n - 1}
  }

  ghost function Hits<T>(p: T -> bool, xs: seq<T>): (s: set<nat>)
    ensures forall i: nat :: i in s <==> i < |xs| && p(xs[i])
  {
    set i: nat | i < |xs| && p(xs[i])
  }

  ghost function Tally<T>(p: T -> bool, xs: seq<T>): nat {
    |Hits(p, xs)|
  }

  lemma {:induction false} ShiftSize(s: set<nat>, t: set<nat>)
    requires forall i: nat :: i in t <==> i > 0 && i - 1 in s
    ensures |t| == |s|
    decreases |s|
  {
    if s == {} {
      assert t == {};
    } else {
      var x :| x in s;
      assert x + 1 in t;
      ShiftSize(s - {x}, t - {x + 1});
    }
  }

  lemma TallyHead<T>(p: T -> bool, xs: seq<T>)
    requires xs != []
    ensures Tally(p, xs) == (if p(xs[0]) then 1 else 0) + Tally(p, xs[1..])
  {
    var all := Hits(p, xs);
    var shifted := all - {0};
    ShiftSize(Hits(p, xs[1..]), shifted);
    if p(xs[0]) {
      assert 0 in all;
    } else {
      assert shifted == all;
    }
  }

  lemma TallyOne<T>(p: T -> bool, x: T)
    ensures Tally(p, [x]) == if p(x) then 1 else 0
  {
    TallyHead(p, [x]);
    assert Hits(p, []) == {};
  }

  lemma SubsetSize(a: set<nat>, b: set<nat>)
    requires a <= b
    ensures |a| <= |b| && (|a| == |b| ==> a == b)
  {
    assert b == a + (b - a);
  }

  ghost predicate Only<T>(p: T -> bool, xs: seq<T>, i: nat) {
    i < |xs| && p(xs[i]) && forall j: nat :: j < |xs| && p(xs[j]) ==> j == i
  }

  /** What the usual counts say. */
  lemma TallyMeans<T>(p: T -> bool, xs: seq<T>)
    ensures Tally(p, xs) <= |xs|
    ensures Tally(p, xs) == |xs| <==> forall i: nat :: i < |xs| ==> p(xs[i])
    ensures Tally(p, xs) > 0 <==> exists i: nat :: i < |xs| && p(xs[i])
    ensures Tally(p, xs) == 1 <==> exists i: nat :: Only(p, xs, i)
  {
    var hits := Hits(p, xs);
    SubsetSize(hits, Indices(|xs|));
    if forall i: nat :: i < |xs| ==> p(xs[i]) { assert hits == Indices(|xs|); }
    if hits != {} {
      var x :| x in hits;
      SubsetSize({x}, hits);
      if |hits| == 1 {
        assert forall j :: j in hits ==> j == x;
        assert Only(p, xs, x);
      }
      if i: nat :| Only(p, xs, i) { assert hits == {i}; }
    }
  }
}
