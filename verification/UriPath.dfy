/** Paths of URI references (section 3.3 of RFC 3986), for any recognizer of segment characters. */
module UriPath {
  import opened Bytes
  import opened Scan
  import opened Separated
  import opened Slashes

  function SegmentRun(utf8: bool): Recognizer {
    s => Span(PChar, utf8, s)
  }

  /** Segments without a colon, which start a relative path. */
  function NoColonRun(utf8: bool): Recognizer {
    s => Span(PCharNoColon, utf8, s)
  }

  /** Length of a nonempty first segment and the segments after it, or 0. */
  function RootedLen(first: Recognizer, run: Recognizer, s: string): nat {
    var n := first(s);
    if n == 0 || n > |s| then 0 else n + SlashedLen(run, s[n..])
  }

  /** Length of a "/" that no second one follows and its segments, or 0. */
  function AbsoluteLen(run: Recognizer, s: string): nat {
    if s == [] || s[0] != '/' then 0 else 1 + RootedLen(run, run, s[1..])
  }

  /** `parse_path_abempty`, whose loop the other path forms repeat. */
  method ParsePathAbempty(ghost run: Recognizer, s: string, utf8: bool) returns (pos: nat)
    requires IsRun(run, PChar, utf8)
    ensures pos == SlashedLen(run, s)
  {
    pos := 0;
    assert s[0..] == s;
    while pos < |s| && s[pos] == '/'
      invariant pos <= |s|
      invariant SlashedLen(run, s) == pos + SlashedLen(run, s[pos..])
      decreases |s| - pos
    {
      SlashStep(run, s, pos);
      var n := ParseRunAs(PChar, run, s[pos + 1..], utf8);
      pos := pos + 1 + n;
    }
    SlashStep(run, s, pos);
  }

  /** `parse_path_rootless` and `parse_path_noscheme`, which differ in the first segment. */
  method ParsePathRooted(k: Class, ghost first: Recognizer, ghost run: Recognizer, s: string, utf8: bool)
    returns (pos: nat)
    requires IsRun(first, k, utf8) && IsRun(run, PChar, utf8)
    ensures pos == RootedLen(first, run, s)
  {
    pos := ParseRunAs(k, first, s, utf8);
    if pos == 0 { return 0; }
    var more := ParsePathAbempty(run, s[pos..], utf8);
    pos := pos + more;
  }

  /** `parse_path_absolute`. */
  method ParsePathAbsolute(ghost run: Recognizer, s: string, utf8: bool) returns (pos: nat)
    requires IsRun(run, PChar, utf8)
    ensures pos == AbsoluteLen(run, s)
  {
    if |s| < 1 || s[0] != '/' { return 0; }
    var nz := ParseRunAs(PChar, run, s[1..], utf8);
    if nz == 0 { return 1; }
    var more := ParsePathAbempty(run, s[1..][nz..], utf8);
    pos := 1 + nz + more;
  }

  // ---------------------------------------------------------------------------------------
  // The grammar
  // ---------------------------------------------------------------------------------------

  /** A path without a leading slash. */
  function PrintRooted(segments: seq<string>): string {
    if segments == [] then [] else segments[0] + PrintSlashed(segments[1..])
  }

  /** Segments of which the first is not empty. */
  ghost predicate AreRooted(first: string -> bool, ok: string -> bool, segments: seq<string>) {
    segments != [] && segments[0] != [] && first(segments[0]) && AllOk(ok, segments[1..])
  }

  /** A path is taken whole exactly when it is spelled by segments of which the first is not empty. */
  lemma RootedSound(first: Recognizer, firstOk: string -> bool, run: Recognizer, ok: string -> bool, s: string)
    returns (segments: seq<string>)
    requires Segments(first, firstOk) && Segments(run, ok) && s != [] && RootedLen(first, run, s) == |s|
    ensures AreRooted(firstOk, ok, segments) && PrintRooted(segments) == s
  {
    var n := first(s);
    assert FindsRun(first, firstOk, s);
    var more := SlashedSound(run, ok, s[n..]);
    segments := [s[..n]] + more;
    assert segments[1..] == more;
    assert s == s[..n] + s[n..];
  }

  lemma RootedComplete(
    first: Recognizer, firstOk: string -> bool, run: Recognizer, ok: string -> bool, segments: seq<string>)
    requires Segments(first, firstOk) && Segments(run, ok) && AreRooted(firstOk, ok, segments)
    ensures var s := PrintRooted(segments); s != [] && RootedLen(first, run, s) == |s|
  {
    var t, rest := segments[0], PrintSlashed(segments[1..]);
    SlashedComplete(run, ok, segments[1..]);
    SlashedStart(segments[1..]);
    assert TakesRun(first, firstOk, t, rest);
    assert PrintRooted(segments)[|t|..] == rest;
  }

  // ---------------------------------------------------------------------------------------
  // Bytes of a path
  // ---------------------------------------------------------------------------------------

  predicate EndsPath(c: char) { c == '?' || c == '#' }

  ghost predicate Pathlike(s: string) { forall i :: 0 <= i < |s| ==> !EndsPath(s[i]) }

  lemma SegmentBytes(k: Class, utf8: bool, t: string)
    requires (k.PChar? || k.PCharNoColon?) && Star(k, utf8, t)
    ensures forall i :: 0 <= i < |t| ==> !EndsPath(t[i]) && t[i] != '/' && (k.PCharNoColon? ==> t[i] != ':')
  {
    RunBytes(k, utf8, t);
  }

  lemma {:induction false} SlashedBytes(utf8: bool, segments: seq<string>)
    requires AllOk(SegmentText(PChar, utf8), segments)
    ensures Pathlike(PrintSlashed(segments))
    decreases |segments|
  {
    if segments != [] {
      assert SegmentText(PChar, utf8)(segments[0]);
      SegmentBytes(PChar, utf8, segments[0]);
      SlashedBytes(utf8, segments[1..]);
    }
  }

  // ---------------------------------------------------------------------------------------
  // ASCII
  // ---------------------------------------------------------------------------------------

  ghost predicate AllAscii(s: string) { forall i :: 0 <= i < |s| ==> IsAscii(s[i]) }

  ghost predicate AgreesOn(a: Recognizer, b: Recognizer, s: string) { AllAscii(s) ==> a(s) == b(s) }

  ghost predicate Agree(a: Recognizer, b: Recognizer) { forall s :: AgreesOn(a, b, s) }

  lemma {:induction false} AsciiSlashed(a: Recognizer, b: Recognizer, s: string)
    requires Agree(a, b) && AllAscii(s)
    ensures SlashedLen(a, s) == SlashedLen(b, s)
    decreases |s|
  {
    if s != [] && s[0] == '/' {
      assert AgreesOn(a, b, s[1..]);
      var n := a(s[1..]);
      if 1 + n <= |s| { AsciiSlashed(a, b, s[1 + n..]); }
    }
  }

  lemma AsciiRooted(firstA: Recognizer, firstB: Recognizer, a: Recognizer, b: Recognizer, s: string)
    requires Agree(firstA, firstB) && Agree(a, b) && AllAscii(s)
    ensures RootedLen(firstA, a, s) == RootedLen(firstB, b, s)
  {
    assert AgreesOn(firstA, firstB, s);
    var n := firstA(s);
    if n <= |s| { AsciiSlashed(a, b, s[n..]); }
  }
}
