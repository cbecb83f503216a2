/** URI schemes (section 3.1 of RFC 3986), and the test whether a reference is absolute. */
module Scheme {
  import opened Bytes

  predicate NotSchemeChar(c: char) { !(IsAlpha(c) || IsDigit(c) || c == '+' || c == '-' || c == '.') }

  predicate IsScheme(t: string) {
    t != [] && IsAlpha(t[0]) && forall i :: 0 <= i < |t| ==> !NotSchemeChar(t[i])
  }

  /** Length of the scheme at the front, or 0. */
  function SchemeLen(s: string): (n: nat)
    ensures n <= |s|
  {
    if s == [] || !IsAlpha(s[0]) then 0 else 1 + FirstOf(s[1..], NotSchemeChar)
  }

  /** A reference that starts with a scheme and a colon. */
  predicate IsAbsolute(s: string) {
    var n := SchemeLen(s);
    0 < n < |s| && s[n] == ':'
  }

  ghost predicate HasScheme(s: string, t: string, rest: string) { IsScheme(t) && s == t + ":" + rest }

  /** `uri_resolver_is_absolute`. */
  method UriResolverIsAbsolute(s: string) returns (ok: bool)
    ensures ok == IsAbsolute(s)
    ensures ok <==> exists t, rest :: HasScheme(s, t, rest)
  {
    AbsoluteLanguage(s);
    if |s| < 2 { return false; }
    if !IsAlpha(s[0]) { return false; }
    var i := 1;
    while i < |s|
      invariant 1 <= i <= |s|
      invariant FirstOf(s[1..], NotSchemeChar) == i - 1 + FirstOf(s[i..], NotSchemeChar)
    {
      assert s[i..][1..] == s[i + 1..];
      if s[i] == ':' { return true; }
      if NotSchemeChar(s[i]) { return false; }
      i := i + 1;
    }
    return false;
  }

  lemma SchemeTaken(t: string, rest: string)
    requires IsScheme(t) && rest != [] && NotSchemeChar(rest[0])
    ensures SchemeLen(t + rest) == |t|
  {
    assert (t + rest)[1..] == t[1..] + rest;
    FirstOfSplit(t[1..], rest, NotSchemeChar);
  }

  lemma SchemeBytes(s: string)
    ensures forall i :: 0 <= i < SchemeLen(s) ==> !NotSchemeChar(s[i])
  {
    forall i | 0 < i < SchemeLen(s) ensures !NotSchemeChar(s[i]) {
      assert s[i] == s[1..][i - 1];
    }
  }

  /** Absolute are exactly the references with a scheme. */
  lemma AbsoluteLanguage(s: string)
    ensures IsAbsolute(s) <==> exists t, rest :: HasScheme(s, t, rest)
  {
    if IsAbsolute(s) {
      var n := SchemeLen(s);
      SchemeBytes(s);
      assert HasScheme(s, s[..n], s[n + 1..]);
    }
    if t, rest :| HasScheme(s, t, rest) {
      assert t + ":" + rest == t + (":" + rest);
      SchemeTaken(t, ":" + rest);
    }
  }
}
