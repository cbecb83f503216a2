/** URI references (Appendix A of RFC 3986, with non-ASCII UTF-8 as unreserved when allowed). */
module Uri {
  import opened Values
  import opened Bytes
  import opened Scheme
  import opened Scan
  import opened Separated
  import opened Slashes
  import opened UriPath
  import A = UriAuthority

  predicate IsSlash(c: char) { c == '/' }
  predicate IsHash(c: char) { c == '#' }

  // ---------------------------------------------------------------------------------------
  // The recognizer
  // ---------------------------------------------------------------------------------------

  predicate OpensNet(h: string) { |h| >= 2 && h[0] == '/' && h[1] == '/' }

  /** An authority after two slashes, with segments. */
  predicate IsNet(authority: string -> bool, run: Recognizer, h: string)
    requires OpensNet(h)
  {
    var end := 2 + FirstOf(h[2..], IsSlash);
    authority(h[2..end]) && SlashedLen(run, h[end..]) == |h| - end
  }

  /** A hier-part or relative-part; the two differ in the first segment of a path without a slash. */
  predicate IsHier(authority: string -> bool, first: Recognizer, run: Recognizer, h: string) {
    if OpensNet(h) then IsNet(authority, run, h)
    else if h != [] && h[0] == '/' then AbsoluteLen(run, h) == |h|
    else h == [] || RootedLen(first, run, h) == |h|
  }

  predicate IsFragmentPart(query: string -> bool, p: string) {
    p == [] || (p[0] == '#' && query(p[1..]))
  }

  /** The optional query and fragment. */
  predicate IsSuffix(query: string -> bool, p: string) {
    if p != [] && p[0] == '?' then
      var end := 1 + FirstOf(p[1..], IsHash);
      query(p[1..end]) && IsFragmentPart(query, p[end..])
    else IsFragmentPart(query, p)
  }

  /** What follows the scheme. */
  predicate IsRest(hier: string -> bool, query: string -> bool, s: string) {
    var end := FirstOf(s, EndsPath);
    hier(s[..end]) && IsSuffix(query, s[end..])
  }

  function AuthorityCheck(utf8: bool): string -> bool { a => A.IsAuthority(a, utf8) }
  function QueryCheck(utf8: bool): string -> bool { q => Span(QueryChar, utf8, q) == |q| }

  function FirstRun(relative: bool, utf8: bool): Recognizer {
    if relative then NoColonRun(utf8) else SegmentRun(utf8)
  }

  function HierCheck(relative: bool, utf8: bool): string -> bool {
    h => IsHier(AuthorityCheck(utf8), FirstRun(relative, utf8), SegmentRun(utf8), h)
  }

  predicate IsSchemed(rest: string -> bool, s: string) {
    var n := SchemeLen(s);
    0 < n < |s| && s[n] == ':' && rest(s[n + 1..])
  }

  function RestCheck(relative: bool, utf8: bool): string -> bool {
    s => IsRest(HierCheck(relative, utf8), QueryCheck(utf8), s)
  }

  predicate IsUriReference(s: string, requireScheme: bool, utf8: bool) {
    IsSchemed(RestCheck(false, utf8), s) || (!requireScheme && RestCheck(true, utf8)(s))
  }

  /** `parse_scheme`. */
  method ParseScheme(s: string) returns (n: nat)
    ensures n == SchemeLen(s)
  {
    if |s| == 0 { return 0; }
    if !IsAlpha(s[0]) { return 0; }
    var more := FindFirst(s[1..], NotSchemeChar);
    return 1 + more;
  }

  lemma AuthorityWhole(s: string, utf8: bool)
    requires forall i :: 0 <= i < |s| ==> !A.EndsAuthority(s[i])
    ensures A.AuthorityLen(s, utf8) == |s| <==> AuthorityCheck(utf8)(s)
  {
    assert s + [] == s;
    FirstOfSplit(s, [], A.EndsAuthority);
    assert s[..|s|] == s;
    if s == [] { EmptyAuthority(utf8); }
  }

  lemma EmptyAuthority(utf8: bool)
    ensures A.IsAuthority([], utf8)
  {
  }

  ghost predicate ReadsRuns(first: Recognizer, run: Recognizer, k: Class, utf8: bool) {
    IsRun(first, k, utf8) && IsRun(run, PChar, utf8)
  }

  /** The branches of `parse_hier_or_relative_part`, on the path component. */
  method ParsePath(
    authority: string -> bool, ghost first: Recognizer, ghost run: Recognizer, s: string, k: Class, utf8: bool)
    returns (ok: bool)
    requires ReadsRuns(first, run, k, utf8) && authority == AuthorityCheck(utf8) && Pathlike(s)
    ensures ok <==> IsHier(authority, first, run, s)
  {
    if |s| >= 2 && s[0] == '/' && s[1] == '/' {
      ok := ParseNet(authority, run, s, utf8);
      return;
    }
    if |s| >= 1 && s[0] == '/' {
      var n := ParsePathAbsolute(run, s, utf8);
      return n == |s|;
    }
    if |s| == 0 { return true; }
    var n := ParsePathRooted(k, first, run, s, utf8);
    return n == |s|;
  }

  method ParseNet(authority: string -> bool, ghost run: Recognizer, s: string, utf8: bool) returns (ok: bool)
    requires IsRun(run, PChar, utf8) && authority == AuthorityCheck(utf8) && Pathlike(s) && OpensNet(s)
    ensures ok <==> IsNet(authority, run, s)
  {
    var slash := FindFirst(s[2..], IsSlash);
    var end := 2 + slash;
    AuthorityWhole(s[2..end], utf8);
    var n := A.ParseAuthority(s[2..end], utf8);
    if n != end - 2 { return false; }
    var m := ParsePathAbempty(run, s[end..], utf8);
    return end + m == |s|;
  }

  /** `parse_hier_or_relative_part`: the bytes taken, or -1. */
  method ParseHierOrRelativePart(s: string, relative: bool, utf8: bool) returns (n: int)
    ensures var end := FirstOf(s, EndsPath);
      n == if HierCheck(relative, utf8)(s[..end]) then end else -1
  {
    var end := FindFirst(s, EndsPath);
    RunsRead(relative, utf8);
    var k := if relative then PCharNoColon else PChar;
    var ok := ParsePath(AuthorityCheck(utf8), FirstRun(relative, utf8), SegmentRun(utf8), s[..end], k, utf8);
    return if ok then end else -1;
  }

  lemma RunsRead(relative: bool, utf8: bool)
    ensures ReadsRuns(FirstRun(relative, utf8), SegmentRun(utf8), if relative then PCharNoColon else PChar, utf8)
  {
  }

  /** `parse_query_or_fragment` consuming all. */
  method ParseQueryOrFragment(s: string, utf8: bool) returns (ok: bool)
    ensures ok <==> QueryCheck(utf8)(s)
  {
    var n := ParseRun(QueryChar, utf8, s);
    return n == |s|;
  }

  /** The query and fragment, which both kinds of reference end in. */
  method ParseSuffix(s: string, utf8: bool) returns (ok: bool)
    ensures ok <==> IsSuffix(QueryCheck(utf8), s)
  {
    var rest := s;
    if |s| > 0 && s[0] == '?' {
      var hash := FindFirst(s[1..], IsHash);
      ok := ParseQueryOrFragment(s[1..1 + hash], utf8);
      if !ok { return; }
      rest := s[1 + hash..];
    }
    if |rest| > 0 && rest[0] == '#' {
      ok := ParseQueryOrFragment(rest[1..], utf8);
      return;
    }
    return rest == [];
  }

  /** `try_parse_relative_ref`, and `try_parse_full_uri` after the scheme. */
  method ParseRest(s: string, relative: bool, utf8: bool) returns (ok: bool)
    ensures ok <==> RestCheck(relative, utf8)(s)
  {
    var n := ParseHierOrRelativePart(s, relative, utf8);
    if n < 0 { return false; }
    ok := ParseSuffix(s[n..], utf8);
  }

  /** `try_parse_full_uri`. */
  method TryParseFullUri(s: string, utf8: bool) returns (ok: bool)
    ensures ok <==> IsSchemed(RestCheck(false, utf8), s)
  {
    var n := ParseScheme(s);
    if n == 0 { return false; }
    if n >= |s| || s[n] != ':' { return false; }
    ok := ParseRest(s[n + 1..], false, utf8);
  }

  /** `parse_uri_reference`. */
  method ParseUriReference(s: string, requireScheme: bool, utf8: bool) returns (ok: bool)
    ensures ok == IsUriReference(s, requireScheme, utf8)
    ensures ok <==> exists r :: Derives(r, s, requireScheme, utf8)
  {
    ReferenceLanguage(s, requireScheme, utf8);
    if |s| == 0 {
      EmptyReference(utf8);
      return !requireScheme;
    }
    ok := TryParseFullUri(s, utf8);
    if ok { return true; }
    if requireScheme { return false; }
    ok := ParseRest(s, true, utf8);
  }

  lemma EmptyReference(utf8: bool)
    ensures !IsSchemed(RestCheck(false, utf8), []) && RestCheck(true, utf8)([])
  {
  }

  // ---------------------------------------------------------------------------------------
  // The grammar
  // ---------------------------------------------------------------------------------------

  datatype Hier =
    | Net(authority: A.Authority, segments: seq<string>)
    | Absolute(segments: seq<string>)
    | Rootless(segments: seq<string>)
    | Empty

  datatype Reference = Reference(
    scheme: Option<string>, hier: Hier, query: Option<string>, fragment: Option<string>)

  function PrintHier(h: Hier): string {
    match h
    case Net(a, segments) => "//" + A.PrintAuthority(a) + PrintSlashed(segments)
    case Absolute(segments) => "/" + PrintRooted(segments)
    case Rootless(segments) => PrintRooted(segments)
    case Empty => ""
  }

  function PrintFragment(f: Option<string>): string { if f.Some? then "#" + f.value else "" }

  function PrintSuffix(q: Option<string>, f: Option<string>): string {
    (if q.Some? then "?" + q.value else "") + PrintFragment(f)
  }

  function PrintRest(r: Reference): string { PrintHier(r.hier) + PrintSuffix(r.query, r.fragment) }

  function Print(r: Reference): string {
    if r.scheme.Some? then r.scheme.value + ":" + PrintRest(r) else PrintRest(r)
  }

  ghost function FirstText(relative: bool, utf8: bool): string -> bool {
    SegmentText(if relative then PCharNoColon else PChar, utf8)
  }

  ghost predicate IsHierOf(h: Hier, relative: bool, utf8: bool) {
    var ok := SegmentText(PChar, utf8);
    match h
    case Net(a, segments) => A.IsWellFormed(a, utf8) && AllOk(ok, segments)
    case Absolute(segments) => segments == [] || AreRooted(ok, ok, segments)
    case Rootless(segments) => AreRooted(FirstText(relative, utf8), ok, segments)
    case Empty => true
  }

  ghost predicate IsQueryOf(q: Option<string>, utf8: bool) { q.Some? ==> Star(QueryChar, utf8, q.value) }

  /** A relative reference has no colon in the first segment of a path without a slash. */
  ghost predicate IsReference(r: Reference, utf8: bool) {
    && (r.scheme.Some? ==> IsScheme(r.scheme.value))
    && IsHierOf(r.hier, r.scheme.None?, utf8)
    && IsQueryOf(r.query, utf8) && IsQueryOf(r.fragment, utf8)
  }

  ghost predicate HostShadowed(h: Hier) { h.Net? && A.Shadowed(h.authority.host) }

  // ---------------------------------------------------------------------------------------
  // Paths with and without an authority
  // ---------------------------------------------------------------------------------------

  lemma RunsAreSegments(relative: bool, utf8: bool)
    ensures Segments(FirstRun(relative, utf8), FirstText(relative, utf8))
    ensures Segments(SegmentRun(utf8), SegmentText(PChar, utf8))
  {
    RunsRead(relative, utf8);
    RunIsSegments(FirstRun(relative, utf8), FirstText(relative, utf8), if relative then PCharNoColon else PChar, utf8);
    RunIsSegments(SegmentRun(utf8), SegmentText(PChar, utf8), PChar, utf8);
  }

  lemma NetSound(authority: string -> bool, run: Recognizer, ok: string -> bool, h: string)
    returns (a: string, segments: seq<string>)
    requires Segments(run, ok) && OpensNet(h) && IsNet(authority, run, h)
    ensures authority(a) && AllOk(ok, segments) && h == "//" + a + PrintSlashed(segments)
  {
    var end := 2 + FirstOf(h[2..], IsSlash);
    a := h[2..end];
    segments := SlashedSound(run, ok, h[end..]);
    assert h == "//" + h[2..end] + h[end..];
  }

  lemma NetTaken(authority: string -> bool, run: Recognizer, ok: string -> bool, a: string, segments: seq<string>)
    requires Segments(run, ok) && AllOk(ok, segments) && forall i :: 0 <= i < |a| ==> !IsSlash(a[i])
    ensures var h := "//" + a + PrintSlashed(segments); OpensNet(h) && (IsNet(authority, run, h) <==> authority(a))
  {
    var p := PrintSlashed(segments);
    var h := "//" + a + p;
    SlashedComplete(run, ok, segments);
    SlashedStart(segments);
    assert h[2..] == a + p;
    FirstOfSplit(a, p, IsSlash);
    assert h[2..2 + |a|] == a && h[2 + |a|..] == p;
  }

  lemma AbsoluteSound(run: Recognizer, ok: string -> bool, h: string) returns (segments: seq<string>)
    requires Segments(run, ok) && h != [] && h[0] == '/' && AbsoluteLen(run, h) == |h|
    ensures (segments == [] || AreRooted(ok, ok, segments)) && h == "/" + PrintRooted(segments)
  {
    segments := [];
    if h[1..] != [] { segments := RootedSound(run, ok, run, ok, h[1..]); }
    assert h == "/" + h[1..];
  }

  lemma AbsoluteTaken(run: Recognizer, ok: string -> bool, segments: seq<string>)
    requires Segments(run, ok) && (segments == [] || AreRooted(ok, ok, segments))
    ensures var h := "/" + PrintRooted(segments); AbsoluteLen(run, h) == |h|
  {
    var h := "/" + PrintRooted(segments);
    assert h[1..] == PrintRooted(segments);
    if segments == [] {
      assert FindsRun(run, ok, []);
    } else {
      RootedComplete(run, ok, run, ok, segments);
    }
  }

  lemma HierSound(h: string, relative: bool, utf8: bool) returns (hier: Hier)
    requires HierCheck(relative, utf8)(h)
    ensures IsHierOf(hier, relative, utf8) && !HostShadowed(hier) && PrintHier(hier) == h
  {
    var run, ok := SegmentRun(utf8), SegmentText(PChar, utf8);
    RunsAreSegments(relative, utf8);
    if OpensNet(h) {
      var a, segments := NetSound(AuthorityCheck(utf8), run, ok, h);
      var authority := A.AuthoritySound(a, utf8);
      hier := Net(authority, segments);
    } else if h != [] && h[0] == '/' {
      var segments := AbsoluteSound(run, ok, h);
      hier := Absolute(segments);
    } else if h == [] {
      hier := Empty;
    } else {
      var segments := RootedSound(FirstRun(relative, utf8), FirstText(relative, utf8), run, ok, h);
      hier := Rootless(segments);
    }
  }

  /** The first segment of a rooted path. */
  lemma RootedStart(k: Class, utf8: bool, segments: seq<string>)
    requires k.PChar? || k.PCharNoColon?
    requires AreRooted(SegmentText(k, utf8), SegmentText(PChar, utf8), segments)
    ensures var h := PrintRooted(segments); h != [] && h[0] == segments[0][0] && h[0] != '/' && Pathlike(h)
  {
    SegmentBytes(k, utf8, segments[0]);
    SlashedBytes(utf8, segments[1..]);
  }

  lemma NetBytes(a: A.Authority, segments: seq<string>, utf8: bool)
    requires A.IsWellFormed(a, utf8) && AllOk(SegmentText(PChar, utf8), segments)
    ensures Pathlike(PrintHier(Net(a, segments)))
    ensures var t := A.PrintAuthority(a); forall i :: 0 <= i < |t| ==> !IsSlash(t[i])
  {
    A.AuthorityBytes(a, utf8);
    SlashedBytes(utf8, segments);
  }

  /** A well-formed path is accepted exactly when its host is not shadowed. */
  lemma HierTaken(hier: Hier, relative: bool, utf8: bool)
    requires IsHierOf(hier, relative, utf8)
    ensures HierCheck(relative, utf8)(PrintHier(hier)) <==> !HostShadowed(hier)
    ensures Pathlike(PrintHier(hier))
  {
    var run, ok, h := SegmentRun(utf8), SegmentText(PChar, utf8), PrintHier(hier);
    RunsAreSegments(relative, utf8);
    match hier {
      case Net(a, segments) =>
        NetBytes(a, segments, utf8);
        NetTaken(AuthorityCheck(utf8), run, ok, A.PrintAuthority(a), segments);
        A.AuthorityTaken(a, utf8);
      case Absolute(segments) =>
        if segments != [] { RootedStart(PChar, utf8, segments); }
        AbsoluteTaken(run, ok, segments);
      case Rootless(segments) =>
        RootedStart(if relative then PCharNoColon else PChar, utf8, segments);
        RootedComplete(FirstRun(relative, utf8), FirstText(relative, utf8), run, ok, segments);
      case Empty =>
    }
  }

  // ---------------------------------------------------------------------------------------
  // Query and fragment
  // ---------------------------------------------------------------------------------------

  lemma QueryLanguage(q: string, utf8: bool)
    ensures QueryCheck(utf8)(q) <==> Star(QueryChar, utf8, q)
  {
    StarIsSpan(QueryChar, utf8, q);
  }

  lemma QueryBytes(q: string, utf8: bool)
    requires Star(QueryChar, utf8, q)
    ensures forall i :: 0 <= i < |q| ==> !IsHash(q[i])
  {
    RunBytes(QueryChar, utf8, q);
  }

  lemma SuffixSplit(query: string -> bool, p: string) returns (q: Option<string>, f: Option<string>)
    requires IsSuffix(query, p)
    ensures p == PrintSuffix(q, f) && (q.Some? ==> query(q.value)) && (f.Some? ==> query(f.value))
  {
    var at := if p != [] && p[0] == '?' then 1 + FirstOf(p[1..], IsHash) else 0;
    q := if at > 0 then Some(p[1..at]) else None;
    f := if at == |p| then None else Some(p[at + 1..]);
  }

  lemma SuffixJoin(query: string -> bool, q: Option<string>, f: Option<string>)
    requires (q.Some? ==> query(q.value)) && (f.Some? ==> query(f.value))
    requires q.Some? ==> forall i :: 0 <= i < |q.value| ==> !IsHash(q.value[i])
    ensures var p := PrintSuffix(q, f); IsSuffix(query, p) && (p == [] || EndsPath(p[0]))
  {
    var p, tail := PrintSuffix(q, f), PrintFragment(f);
    assert f.Some? ==> tail[1..] == f.value;
    if q.Some? {
      assert p[1..] == q.value + tail;
      FirstOfSplit(q.value, tail, IsHash);
      assert p[1..1 + |q.value|] == q.value && p[1 + |q.value|..] == tail;
    } else {
      assert p == tail;
    }
  }

  lemma RestSound(s: string, relative: bool, utf8: bool) returns (r: Reference)
    requires RestCheck(relative, utf8)(s)
    ensures PrintRest(r) == s && r.scheme.None? && IsHierOf(r.hier, relative, utf8) && !HostShadowed(r.hier)
    ensures IsQueryOf(r.query, utf8) && IsQueryOf(r.fragment, utf8)
  {
    var h, p := RestSplit(HierCheck(relative, utf8), QueryCheck(utf8), s);
    var hier := HierSound(h, relative, utf8);
    var q, f := QueriesSound(p, utf8);
    r := Reference(None, hier, q, f);
  }

  lemma RestSplit(hier: string -> bool, query: string -> bool, s: string) returns (h: string, p: string)
    requires IsRest(hier, query, s)
    ensures s == h + p && hier(h) && IsSuffix(query, p)
  {
    var end := FirstOf(s, EndsPath);
    h, p := s[..end], s[end..];
  }

  lemma QueriesSound(p: string, utf8: bool) returns (q: Option<string>, f: Option<string>)
    requires IsSuffix(QueryCheck(utf8), p)
    ensures p == PrintSuffix(q, f) && IsQueryOf(q, utf8) && IsQueryOf(f, utf8)
  {
    q, f := SuffixSplit(QueryCheck(utf8), p);
    if q.Some? { QueryLanguage(q.value, utf8); }
    if f.Some? { QueryLanguage(f.value, utf8); }
  }

  /** A path without query marks and a suffix are found again in what they print. */
  lemma RestJoin(hier: string -> bool, query: string -> bool, h: string, p: string)
    requires Pathlike(h) && (p == [] || EndsPath(p[0])) && IsSuffix(query, p)
    ensures IsRest(hier, query, h + p) <==> hier(h)
  {
    FirstOfSplit(h, p, EndsPath);
    assert (h + p)[..|h|] == h && (h + p)[|h|..] == p;
  }

  lemma RestTaken(r: Reference, relative: bool, utf8: bool)
    requires IsHierOf(r.hier, relative, utf8) && IsQueryOf(r.query, utf8) && IsQueryOf(r.fragment, utf8)
    ensures RestCheck(relative, utf8)(PrintRest(r)) <==> !HostShadowed(r.hier)
  {
    HierTaken(r.hier, relative, utf8);
    if r.query.Some? {
      QueryLanguage(r.query.value, utf8);
      QueryBytes(r.query.value, utf8);
    }
    if r.fragment.Some? { QueryLanguage(r.fragment.value, utf8); }
    SuffixJoin(QueryCheck(utf8), r.query, r.fragment);
    RestJoin(HierCheck(relative, utf8), QueryCheck(utf8), PrintHier(r.hier), PrintSuffix(r.query, r.fragment));
  }

  // ---------------------------------------------------------------------------------------
  // Schemes
  // ---------------------------------------------------------------------------------------

  lemma SchemedJoin(rest: string -> bool, t: string, p: string)
    requires IsScheme(t)
    ensures IsSchemed(rest, t + ":" + p) <==> rest(p)
  {
    var s := t + ":" + p;
    assert s == t + (":" + p);
    SchemeTaken(t, ":" + p);
    assert s[|t| + 1..] == p;
  }

  lemma SchemedSplit(rest: string -> bool, s: string) returns (t: string, p: string)
    requires IsSchemed(rest, s)
    ensures IsScheme(t) && rest(p) && s == t + ":" + p
  {
    var n := SchemeLen(s);
    t, p := s[..n], s[n + 1..];
    SplitAround(s, n);
    SchemeBytes(s);
  }

  /** Without a scheme, the text before any colon holds a byte no scheme has. */
  lemma NoScheme(rest: string -> bool, head: string, tail: string)
    requires forall i :: 0 <= i < |head| ==> head[i] != ':'
    requires tail == [] || (NotSchemeChar(tail[0]) && tail[0] != ':')
    ensures !IsSchemed(rest, head + tail)
  {
    var s := head + tail;
    SchemeBytes(s);
    if tail != [] { assert s[|head|] == tail[0]; }
  }

  lemma SchemelessStart(r: Reference, utf8: bool) returns (head: string, tail: string)
    requires IsReference(r, utf8) && r.scheme.None?
    ensures PrintRest(r) == head + tail
    ensures forall i :: 0 <= i < |head| ==> head[i] != ':'
    ensures tail == [] || tail[0] == '/' || EndsPath(tail[0])
  {
    var p := PrintSuffix(r.query, r.fragment);
    if r.hier.Rootless? {
      tail := RootlessStart(r.hier.segments, p, utf8);
      head := r.hier.segments[0];
    } else {
      head, tail := [], PrintHier(r.hier) + p;
    }
  }

  lemma RootlessStart(segments: seq<string>, p: string, utf8: bool) returns (tail: string)
    requires AreRooted(SegmentText(PCharNoColon, utf8), SegmentText(PChar, utf8), segments)
    requires p == [] || EndsPath(p[0])
    ensures PrintRooted(segments) + p == segments[0] + tail
    ensures forall i :: 0 <= i < |segments[0]| ==> segments[0][i] != ':'
    ensures tail == [] || tail[0] == '/' || EndsPath(tail[0])
  {
    tail := PrintSlashed(segments[1..]) + p;
    SegmentBytes(PCharNoColon, utf8, segments[0]);
    SlashedStart(segments[1..]);
  }

  /** With a scheme, the colon after it ends the first segment of a relative path too early. */
  lemma SchemedIsNotRelative(t: string, p: string, utf8: bool)
    requires IsScheme(t)
    ensures !RestCheck(true, utf8)(t + ":" + p)
  {
    var s := t + ":" + p;
    var end := FirstOf(s, EndsPath);
    assert forall i :: 0 <= i < |t| ==> s[i] == t[i];
    assert s[|t|] == ':';
    if end <= |t| { assert false; }
    var h := s[..end];
    if RestCheck(true, utf8)(s) {
      var hier := HierSound(h, true, utf8);
      ColonInside(hier, t, h, utf8);
    }
  }

  lemma ColonInside(hier: Hier, t: string, h: string, utf8: bool)
    requires IsScheme(t) && |t| < |h| && h[..|t|] == t && h[|t|] == ':' && IsHierOf(hier, true, utf8)
    ensures PrintHier(hier) != h
  {
    assert h[0] == t[0];
    if hier.Rootless? {
      var segments := hier.segments;
      SegmentBytes(PCharNoColon, utf8, segments[0]);
      SlashedStart(segments[1..]);
      if PrintHier(hier) == h { FirstColon(t, h, segments[0], PrintSlashed(segments[1..])); }
    }
  }

  lemma FirstColon(t: string, h: string, head: string, tail: string)
    requires IsScheme(t) && |t| < |h| && h[..|t|] == t && h[|t|] == ':'
    requires (forall i :: 0 <= i < |head| ==> head[i] != ':') && AtSlash(tail)
    ensures h != head + tail
  {
    var at := |head|;
    if at < |t| { assert h[at] == t[at] != '/'; }
  }

  // ---------------------------------------------------------------------------------------
  // The language
  // ---------------------------------------------------------------------------------------

  /** Every accepted string is a reference of the grammar, with a host that nothing shadows. */
  lemma ReferenceSound(s: string, requireScheme: bool, utf8: bool) returns (r: Reference)
    requires IsUriReference(s, requireScheme, utf8)
    ensures IsReference(r, utf8) && !HostShadowed(r.hier) && Print(r) == s && (requireScheme ==> r.scheme.Some?)
  {
    if IsSchemed(RestCheck(false, utf8), s) {
      var t, p := SchemedSplit(RestCheck(false, utf8), s);
      r := RestSound(p, false, utf8);
      r := r.(scheme := Some(t));
    } else {
      r := RestSound(s, true, utf8);
    }
  }

  /**
   A reference of the grammar is accepted exactly when its host is not an IPv4 address with more
   characters after it (such as "1.2.3.4abc"), and it has a scheme if one is required.
   */
  lemma ReferenceAccepted(r: Reference, requireScheme: bool, utf8: bool)
    requires IsReference(r, utf8)
    ensures IsUriReference(Print(r), requireScheme, utf8) <==>
            !HostShadowed(r.hier) && (requireScheme ==> r.scheme.Some?)
  {
    RestTaken(r, r.scheme.None?, utf8);
    if r.scheme.Some? {
      SchemedJoin(RestCheck(false, utf8), r.scheme.value, PrintRest(r));
      SchemedIsNotRelative(r.scheme.value, PrintRest(r), utf8);
    } else {
      var head, tail := SchemelessStart(r, utf8);
      NoScheme(RestCheck(false, utf8), head, tail);
    }
  }

  /** A reference of the grammar with that text, with a scheme if one is required, and a host that nothing shadows. */
  ghost predicate Derives(r: Reference, s: string, requireScheme: bool, utf8: bool) {
    && IsReference(r, utf8) && Print(r) == s && (requireScheme ==> r.scheme.Some?)
    && !HostShadowed(r.hier)
  }

  lemma ReferenceLanguage(s: string, requireScheme: bool, utf8: bool)
    ensures IsUriReference(s, requireScheme, utf8) <==> exists r :: Derives(r, s, requireScheme, utf8)
  {
    if IsUriReference(s, requireScheme, utf8) {
      var r := ReferenceSound(s, requireScheme, utf8);
      assert Derives(r, s, requireScheme, utf8);
    }
    if r :| Derives(r, s, requireScheme, utf8) { ReferenceAccepted(r, requireScheme, utf8); }
  }

  /** A reference with nothing but a shadowed host, such as "//1.2.3.4abc", is refused. */
  lemma ShadowedRefused(host: string, utf8: bool)
    requires A.IsHost(host, utf8) && A.Shadowed(host)
    ensures var r := Reference(None, Net(A.Authority(None, host, None), []), None, None);
      IsReference(r, utf8) && Print(r) == "//" + host && !IsUriReference(Print(r), false, utf8)
  {
    var r := Reference(None, Net(A.Authority(None, host, None), []), None, None);
    HostPrinted(host);
    ReferenceAccepted(r, false, utf8);
  }

  lemma HostPrinted(host: string)
    ensures Print(Reference(None, Net(A.Authority(None, host, None), []), None, None)) == "//" + host
  {
    var a := A.Authority(None, host, None);
    assert A.PrintAuthority(a) == host;
    assert PrintHier(Net(a, [])) == "//" + host;
  }

  lemma ShadowedExample()
    ensures !IsUriReference("//" + A.SHADOWED, false, false)
  {
    A.ShadowedExample();
    ShadowedRefused(A.SHADOWED, false);
  }

  // ---------------------------------------------------------------------------------------
  // ASCII
  // ---------------------------------------------------------------------------------------

  ghost predicate SameOn(a: string -> bool, b: string -> bool, s: string) { AllAscii(s) ==> a(s) == b(s) }

  ghost predicate Same(a: string -> bool, b: string -> bool) { forall s :: SameOn(a, b, s) }

  lemma AsciiRuns(relative: bool)
    ensures Agree(FirstRun(relative, true), FirstRun(relative, false))
  {
    var a, b := FirstRun(relative, true), FirstRun(relative, false);
    forall s ensures AgreesOn(a, b, s) {
      if AllAscii(s) { AsciiSpan(if relative then PCharNoColon else PChar, s); }
    }
  }

  lemma AsciiChecks()
    ensures Same(AuthorityCheck(true), AuthorityCheck(false)) && Same(QueryCheck(true), QueryCheck(false))
  {
    forall s ensures SameOn(AuthorityCheck(true), AuthorityCheck(false), s) {
      if AllAscii(s) { A.AsciiAuthority(s); }
    }
    forall s ensures SameOn(QueryCheck(true), QueryCheck(false), s) {
      if AllAscii(s) { AsciiSpan(QueryChar, s); }
    }
  }

  lemma SameHier(
    authorityA: string -> bool, authorityB: string -> bool, firstA: Recognizer, firstB: Recognizer,
    a: Recognizer, b: Recognizer, h: string)
    requires Same(authorityA, authorityB) && Agree(firstA, firstB) && Agree(a, b) && AllAscii(h)
    ensures IsHier(authorityA, firstA, a, h) == IsHier(authorityB, firstB, b, h)
  {
    if OpensNet(h) {
      var end := 2 + FirstOf(h[2..], IsSlash);
      assert SameOn(authorityA, authorityB, h[2..end]);
      AsciiSlashed(a, b, h[end..]);
    } else if h != [] && h[0] == '/' {
      AsciiRooted(a, b, a, b, h[1..]);
    } else {
      AsciiRooted(firstA, firstB, a, b, h);
    }
  }

  lemma AsciiHier(relative: bool)
    ensures Same(HierCheck(relative, true), HierCheck(relative, false))
  {
    AsciiRuns(relative);
    AsciiRuns(false);
    AsciiChecks();
    forall h ensures SameOn(HierCheck(relative, true), HierCheck(relative, false), h) {
      if AllAscii(h) {
        SameHier(AuthorityCheck(true), AuthorityCheck(false), FirstRun(relative, true), FirstRun(relative, false),
                 SegmentRun(true), SegmentRun(false), h);
      }
    }
  }

  lemma SameRest(
    hierA: string -> bool, hierB: string -> bool, queryA: string -> bool, queryB: string -> bool, s: string)
    requires Same(hierA, hierB) && Same(queryA, queryB) && AllAscii(s)
    ensures IsRest(hierA, queryA, s) == IsRest(hierB, queryB, s)
  {
    var end := FirstOf(s, EndsPath);
    assert SameOn(hierA, hierB, s[..end]);
    SameSuffix(queryA, queryB, s[end..]);
  }

  lemma SameSuffix(queryA: string -> bool, queryB: string -> bool, p: string)
    requires Same(queryA, queryB) && AllAscii(p)
    ensures IsSuffix(queryA, p) == IsSuffix(queryB, p)
  {
    var at := if p != [] && p[0] == '?' then 1 + FirstOf(p[1..], IsHash) else 0;
    if at > 0 { assert SameOn(queryA, queryB, p[1..at]); }
    if at < |p| { assert SameOn(queryA, queryB, p[at..][1..]); }
  }

  /** On ASCII input, allowing UTF-8 never changes the answer. */
  lemma AsciiReference(s: string, requireScheme: bool)
    requires AllAscii(s)
    ensures IsUriReference(s, requireScheme, true) == IsUriReference(s, requireScheme, false)
  {
    AsciiChecks();
    AsciiHier(true);
    AsciiHier(false);
    SameRest(HierCheck(true, true), HierCheck(true, false), QueryCheck(true), QueryCheck(false), s);
    var n := SchemeLen(s);
    if n < |s| {
      SameRest(HierCheck(false, true), HierCheck(false, false), QueryCheck(true), QueryCheck(false), s[n + 1..]);
    }
  }
}
