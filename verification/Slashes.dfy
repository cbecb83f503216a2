/** Texts after slashes, the form of paths and of JSON Pointers, for any recognizer of runs. */
module Slashes {
  import opened Bytes
  import opened Scan
  import opened Separated

  /** Length of `*( "/" segment )` at the front. */
  function SlashedLen(run: Recognizer, s: string): (n: nat)
    ensures n <= |s|
    decreases |s|
  {
    if s == [] || s[0] != '/' then 0
    else
      var n := run(s[1..]);
      if 1 + n > |s| then 0 else 1 + n + SlashedLen(run, s[1 + n..])
  }

  lemma SlashStep(run: Recognizer, s: string, pos: nat)
    requires pos <= |s|
    ensures SlashedLen(run, s[pos..]) ==
            if pos < |s| && s[pos] == '/' then
              var n := run(s[pos + 1..]);
              if pos + 1 + n > |s| then 0 else 1 + n + SlashedLen(run, s[pos + 1 + n..])
            else 0
  {
    if pos < |s| && s[pos] == '/' {
      assert s[pos..][1..] == s[pos + 1..];
      var n := run(s[pos + 1..]);
      if pos + 1 + n <= |s| { assert s[pos..][1 + n..] == s[pos + 1 + n..]; }
    }
  }

  ghost function SegmentText(k: Class, utf8: bool): string -> bool {
    t => Star(k, utf8, t)
  }

  function PrintSlashed(segments: seq<string>): string {
    if segments == [] then [] else "/" + segments[0] + PrintSlashed(segments[1..])
  }

  predicate AtSlash(s: string) { s == [] || s[0] == '/' }

  /** A run takes exactly the texts of `ok` up to a slash. */
  ghost predicate TakesRun(run: Recognizer, ok: string -> bool, t: string, rest: string) {
    ok(t) && AtSlash(rest) ==> run(t + rest) == |t|
  }

  ghost predicate FindsRun(run: Recognizer, ok: string -> bool, s: string) {
    run(s) <= |s| && ok(s[..run(s)])
  }

  ghost predicate Segments(run: Recognizer, ok: string -> bool) {
    (forall s :: FindsRun(run, ok, s)) && (forall t, rest :: TakesRun(run, ok, t, rest))
  }

  lemma RunIsSegments(run: Recognizer, ok: string -> bool, k: Class, utf8: bool)
    requires !MayStart(k, utf8, '/')
    requires IsRun(run, k, utf8) && ok == SegmentText(k, utf8)
    ensures Segments(run, ok)
  {
    forall s ensures FindsRun(run, ok, s) {
      assert ReadsRun(run, k, utf8, s);
      SpanSound(k, utf8, s);
    }
    forall t, rest ensures TakesRun(run, ok, t, rest) {
      if ok(t) && AtSlash(rest) {
        assert ReadsRun(run, k, utf8, t + rest);
        NoStart(k, utf8, rest);
        RunUpTo(k, utf8, t, rest);
      }
    }
  }

  lemma {:induction false} SlashedSound(run: Recognizer, ok: string -> bool, s: string) returns (segments: seq<string>)
    requires Segments(run, ok)
    ensures AllOk(ok, segments) && PrintSlashed(segments) == s[..SlashedLen(run, s)]
    decreases |s|
  {
    segments := [];
    if s != [] && s[0] == '/' {
      var rest := s[1..];
      var n := run(rest);
      assert FindsRun(run, ok, rest);
      var more := SlashedSound(run, ok, s[1 + n..]);
      segments := [rest[..n]] + more;
      assert segments[1..] == more;
      assert s[..SlashedLen(run, s)] == "/" + rest[..n] + s[1 + n..][..SlashedLen(run, s) - 1 - n];
    }
  }

  lemma SlashedStart(segments: seq<string>)
    ensures AtSlash(PrintSlashed(segments))
  {
  }

  lemma {:induction false} SlashedComplete(run: Recognizer, ok: string -> bool, segments: seq<string>)
    requires Segments(run, ok) && AllOk(ok, segments)
    ensures SlashedLen(run, PrintSlashed(segments)) == |PrintSlashed(segments)|
    decreases |segments|
  {
    if segments != [] {
      var t, rest := segments[0], PrintSlashed(segments[1..]);
      SlashedComplete(run, ok, segments[1..]);
      SlashedStart(segments[1..]);
      assert TakesRun(run, ok, t, rest);
      var s := PrintSlashed(segments);
      assert s[1..] == t + rest;
      assert s[1 + |t|..] == rest;
    }
  }
}
