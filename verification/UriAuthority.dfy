/** Authorities of URI references (section 3.2 of RFC 3986). */
module UriAuthority {
  import opened Values
  import opened Bytes
  import opened Scan
  import opened Ipv4
  import opened Ipv6

  predicate NotDigit(c: char) { !IsDigit(c) }
  predicate NotDigitDot(c: char) { !IsDigit(c) && c != '.' }
  predicate NotHex(c: char) { !IsHex(c) }
  predicate IsFutureChar(c: char) { IsUnreserved(c) || IsSubDelim(c) || c == ':' }
  predicate NotFutureChar(c: char) { !IsFutureChar(c) }
  predicate IsAt(c: char) { c == '@' }
  predicate IsColon(c: char) { c == ':' }
  predicate IsClose(c: char) { c == ']' }
  predicate EndsAuthority(c: char) { c == '/' || c == '?' || c == '#' }

  // ---------------------------------------------------------------------------------------
  // The recognizer
  // ---------------------------------------------------------------------------------------

  predicate OpensFuture(s: string) { s != [] && (s[0] == 'v' || s[0] == 'V') }

  /** Length of the IPvFuture at the front, or 0. */
  function FutureLen(s: string): nat {
    if |s| < 4 || !OpensFuture(s) then 0
    else
      var dot := 1 + FirstOf(s[1..], NotHex);
      if dot == 1 || dot >= |s| || s[dot] != '.' then 0
      else
        var n := FirstOf(s[dot + 1..], NotFutureChar);
        if n == 0 then 0 else dot + 1 + n
  }

  predicate IsIpBody(body: string) {
    if OpensFuture(body) then FutureLen(body) == |body| else IsIpv6(body)
  }

  /** Length of the bracketed address at the front, or 0. */
  function IpLiteralLen(s: string): (n: nat)
    ensures n <= |s|
  {
    if |s| < 2 || s[0] != '[' then 0
    else
      var end := 1 + FirstOf(s[1..], IsClose);
      if end < |s| && IsIpBody(s[1..end]) then end + 1 else 0
  }

  /** Length of the host name at the front: digits and dots forming an IPv4 address end it. */
  function HostNameLen(s: string, utf8: bool): nat {
    var run := FirstOf(s, NotDigitDot);
    if run > 0 && Octets(s[..run], 4) then run else Span(RegChar, utf8, s)
  }

  predicate OpensLiteral(s: string) { s != [] && s[0] == '[' }

  function HostLen(s: string, utf8: bool): nat {
    if s == [] then 0 else if OpensLiteral(s) then IpLiteralLen(s) else HostNameLen(s, utf8)
  }

  predicate IsPortPart(p: string) {
    p == [] || (p[0] == ':' && FirstOf(p[1..], NotDigit) == |p| - 1)
  }

  predicate IsHostPort(h: string, utf8: bool) {
    if OpensLiteral(h) then IpLiteralLen(h) > 0 && IsPortPart(h[IpLiteralLen(h)..])
    else
      var c := FirstOf(h, IsColon);
      HostLen(h[..c], utf8) == c && IsPortPart(h[c..])
  }

  predicate IsUserPart(u: string, utf8: bool) { Span(UserChar, utf8, u) == |u| }

  function UserCheck(utf8: bool): string -> bool { u => IsUserPart(u, utf8) }
  function HostPortCheck(utf8: bool): string -> bool { h => IsHostPort(h, utf8) }

  /** An "@" ends the user part. */
  predicate IsSplitAuthority(user: string -> bool, hostPort: string -> bool, a: string) {
    var at := FirstOf(a, IsAt);
    if at < |a| then user(a[..at]) && hostPort(a[at + 1..]) else hostPort(a)
  }

  predicate IsAuthority(a: string, utf8: bool) {
    IsSplitAuthority(UserCheck(utf8), HostPortCheck(utf8), a)
  }

  /** Length of the authority up to a slash, a question mark or a hash, or 0. */
  function AuthorityLen(s: string, utf8: bool): nat {
    var end := FirstOf(s, EndsAuthority);
    if IsAuthority(s[..end], utf8) then end else 0
  }

  /** `parse_ipv_future`. */
  method ParseIpvFuture(s: string) returns (n: nat)
    ensures n == FutureLen(s)
  {
    if |s| < 4 { return 0; }
    if s[0] != 'v' && s[0] != 'V' { return 0; }
    var hex := FindFirst(s[1..], NotHex);
    if hex == 0 { return 0; }
    var pos := 1 + hex;
    if pos >= |s| || s[pos] != '.' { return 0; }
    pos := pos + 1;
    var tail := FindFirst(s[pos..], NotFutureChar);
    if tail == 0 { return 0; }
    return pos + tail;
  }

  /** `parse_ip_literal`. */
  method ParseIpLiteral(s: string) returns (n: nat)
    ensures n == IpLiteralLen(s)
  {
    if |s| < 2 || s[0] != '[' { return 0; }
    var close := FindFirst(s[1..], IsClose);
    var end := 1 + close;
    if end == |s| { return 0; }
    var body := s[1..end];
    if |body| >= 1 && (body[0] == 'v' || body[0] == 'V') {
      var f := ParseIpvFuture(body);
      return if f == |body| then end + 1 else 0;
    }
    var ok := ParseIpv6(body);
    return if ok then end + 1 else 0;
  }

  /** `parse_host`. */
  method ParseHost(s: string, utf8: bool) returns (n: nat)
    ensures n == HostLen(s, utf8)
  {
    if |s| == 0 { return 0; }
    if s[0] == '[' {
      n := ParseIpLiteral(s);
      return;
    }
    var run := FindFirst(s, NotDigitDot);
    if run > 0 {
      var ok := ParseIpv4(s[..run]);
      if ok { return run; }
    }
    n := ParseRun(RegChar, utf8, s);
  }

  /** The host and port of `parse_authority`. */
  method ParseHostPort(h: string, utf8: bool) returns (ok: bool)
    ensures ok <==> IsHostPort(h, utf8)
  {
    var pos: nat;
    if 0 < |h| && h[0] == '[' {
      pos := ParseIpLiteral(h);
      if pos == 0 { return false; }
    } else {
      pos := FindFirst(h, IsColon);
      var n := ParseHost(h[..pos], utf8);
      if n != pos { return false; }
    }
    if pos < |h| && h[pos] == ':' {
      var port := FindFirst(h[pos + 1..], NotDigit);
      assert h[pos..][1..] == h[pos + 1..];
      if pos + 1 + port != |h| { return false; }
      pos := |h|;
    }
    return pos == |h|;
  }

  /** `parse_authority`. */
  method ParseAuthority(s: string, utf8: bool) returns (n: nat)
    ensures n == AuthorityLen(s, utf8)
  {
    var end := FindFirst(s, EndsAuthority);
    var a := s[..end];
    var at := FindFirst(a, IsAt);
    var rest := a;
    if at < |a| {
      var user := ParseRun(UserChar, utf8, a[..at]);
      if user != at { return 0; }
      rest := a[at + 1..];
    }
    var ok := ParseHostPort(rest, utf8);
    return if ok then end else 0;
  }

  // ---------------------------------------------------------------------------------------
  // The grammar
  // ---------------------------------------------------------------------------------------

  datatype Authority = Authority(user: Option<string>, host: string, port: Option<string>)

  function PrintUser(user: Option<string>): string {
    if user.Some? then user.value + "@" else ""
  }

  function PrintPort(port: Option<string>): string {
    if port.Some? then ":" + port.value else ""
  }

  function PrintAuthority(a: Authority): string {
    PrintUser(a.user) + (a.host + PrintPort(a.port))
  }

  predicate IsFutureOf(body: string, v: char, hex: string, tail: string) {
    && body == [v] + hex + "." + tail && (v == 'v' || v == 'V')
    && hex != [] && (forall i :: 0 <= i < |hex| ==> IsHex(hex[i]))
    && tail != [] && (forall i :: 0 <= i < |tail| ==> IsFutureChar(tail[i]))
  }

  ghost predicate IsFuture(body: string) {
    exists v, hex, tail :: IsFutureOf(body, v, hex, tail)
  }

  ghost predicate IsLiteralOf(t: string, body: string) {
    t == "[" + body + "]" && (IsIpv6(body) || IsFuture(body))
  }

  ghost predicate IsIpLiteral(t: string) {
    exists body :: IsLiteralOf(t, body)
  }

  ghost predicate IsHostName(t: string, utf8: bool) {
    IsAddress(t) || Star(RegChar, utf8, t)
  }

  ghost predicate IsHost(t: string, utf8: bool) {
    IsIpLiteral(t) || IsHostName(t, utf8)
  }

  ghost predicate IsWellFormed(a: Authority, utf8: bool) {
    && (a.user.Some? ==> Star(UserChar, utf8, a.user.value))
    && IsHost(a.host, utf8)
    && (a.port.Some? ==> AllDigits(a.port.value))
  }

  ghost predicate ShadowedBy(host: string, address: string, more: string) {
    host == address + more && IsAddress(address) && more != [] && NotDigitDot(more[0])
  }

  /** An IPv4 address with more characters after it, the first no digit and no dot. */
  ghost predicate Shadowed(host: string) {
    exists address, more :: ShadowedBy(host, address, more)
  }

  // ---------------------------------------------------------------------------------------
  // Hosts
  // ---------------------------------------------------------------------------------------

  lemma FutureSound(body: string)
    requires OpensFuture(body) && FutureLen(body) == |body|
    ensures IsFuture(body)
  {
    var dot := 1 + FirstOf(body[1..], NotHex);
    var hex, tail := body[1..dot], body[dot + 1..];
    assert body == [body[0]] + hex + "." + tail;
    assert hex == body[1..][..dot - 1];
    assert IsFutureOf(body, body[0], hex, tail);
  }

  lemma FutureComplete(body: string, v: char, hex: string, tail: string)
    requires IsFutureOf(body, v, hex, tail)
    ensures OpensFuture(body) && FutureLen(body) == |body|
  {
    var dot := 1 + |hex|;
    assert body[1..] == hex + ("." + tail);
    FirstOfSplit(hex, "." + tail, NotHex);
    assert body[dot] == '.';
    assert body[dot + 1..] == tail == tail + [];
    FirstOfSplit(tail, [], NotFutureChar);
  }

  lemma FutureLanguage(body: string)
    ensures OpensFuture(body) && FutureLen(body) == |body| <==> IsFuture(body)
  {
    if OpensFuture(body) && FutureLen(body) == |body| { FutureSound(body); }
    if v, hex, tail :| IsFutureOf(body, v, hex, tail) { FutureComplete(body, v, hex, tail); }
  }

  predicate InLiteral(c: char) { IsHex(c) || IsFutureChar(c) }

  lemma IpBodyBytes(body: string)
    requires IsIpv6(body) || IsFuture(body)
    ensures forall i :: 0 <= i < |body| ==> InLiteral(body[i])
  {
    if IsIpv6(body) {
      Ipv6Bytes(body);
    } else {
      var v, hex, tail :| IsFutureOf(body, v, hex, tail);
    }
  }

  lemma IpBodyLanguage(body: string)
    ensures IsIpBody(body) <==> IsIpv6(body) || IsFuture(body)
  {
    FutureLanguage(body);
    if IsIpv6(body) { Ipv6Bytes(body); }
  }

  lemma LiteralSound(s: string)
    requires IpLiteralLen(s) > 0
    ensures IsIpLiteral(s[..IpLiteralLen(s)])
  {
    var end := IpLiteralLen(s) - 1;
    IpBodyLanguage(s[1..end]);
    assert s[..end + 1] == "[" + s[1..end] + "]";
    assert IsLiteralOf(s[..end + 1], s[1..end]);
  }

  lemma LiteralComplete(t: string, rest: string)
    requires IsIpLiteral(t)
    ensures OpensLiteral(t) && IpLiteralLen(t + rest) == |t|
  {
    var body :| IsLiteralOf(t, body);
    IpBodyBytes(body);
    IpBodyLanguage(body);
    BracketsTaken(t + rest, body, rest);
  }

  lemma BracketsTaken(s: string, body: string, rest: string)
    requires s == "[" + body + "]" + rest && IsIpBody(body) && forall i :: 0 <= i < |body| ==> InLiteral(body[i])
    ensures IpLiteralLen(s) == |body| + 2
  {
    assert s[1..] == body + ("]" + rest);
    FirstOfSplit(body, "]" + rest, IsClose);
    assert s[1..|body| + 1] == body;
  }

  lemma AddressRun(address: string, more: string)
    requires IsAddress(address) && (more == [] || NotDigitDot(more[0]))
    ensures var s := address + more;
      FirstOf(s, NotDigitDot) == |address| > 0 && s[..|address|] == address && Octets(address, 4)
  {
    AddressLanguage(address);
    AddressBytes(address, 4);
    FirstOfSplit(address, more, NotDigitDot);
  }

  /** A host name is taken whole exactly when it is one and not shadowed. */
  lemma HostNameLanguage(t: string, utf8: bool)
    ensures HostNameLen(t, utf8) == |t| <==> IsHostName(t, utf8) && !Shadowed(t)
  {
    var run := FirstOf(t, NotDigitDot);
    if run > 0 && Octets(t[..run], 4) {
      AddressLanguage(t[..run]);
      assert run == |t| ==> t[..run] == t;
      if run < |t| { ShadowAhead(t, run); } else { WholeAddress(t, t[..run]); }
    } else {
      NoAddressAhead(t, run);
      StarIsSpan(RegChar, utf8, t);
    }
  }

  lemma ShadowAhead(t: string, run: nat)
    requires run == FirstOf(t, NotDigitDot) < |t| && IsAddress(t[..run])
    ensures Shadowed(t)
  {
    TailFirst(t, run);
    IsShadowed(t, t[..run], t[run..]);
  }

  lemma TailFirst(t: string, n: nat)
    requires n < |t|
    ensures t == t[..n] + t[n..] && t[n..] != [] && t[n..][0] == t[n]
  {
  }

  lemma IsShadowed(host: string, address: string, more: string)
    requires host == address + more && IsAddress(address) && more != [] && NotDigitDot(more[0])
    ensures Shadowed(host)
  {
    assert ShadowedBy(host, address, more);
  }

  /** "1.2.3.4abc". */
  const SHADOWED := Dotted(1, 2, 3, 4) + "abc"

  /** A reg-name of the grammar that an IPv4 address shadows. */
  lemma ShadowedExample()
    ensures IsHost(SHADOWED, false) && Shadowed(SHADOWED)
  {
    var address := Dotted(1, 2, 3, 4);
    assert IsDotted(address, 1, 2, 3, 4);
    PlainAfterAddress(address, "abc");
    IsShadowed(address + "abc", address, "abc");
  }

  lemma PlainAfterAddress(address: string, more: string)
    requires IsAddress(address) && forall i :: 0 <= i < |more| ==> IsAlpha(more[i])
    ensures Star(RegChar, false, address + more)
  {
    AddressLanguage(address);
    AddressBytes(address, 4);
    PlainRun(RegChar, false, address + more);
  }

  lemma WholeAddress(t: string, address: string)
    requires t == address && IsAddress(address) && FirstOf(t, NotDigitDot) == |t|
    ensures IsAddress(t) && !Shadowed(t)
  {
    OnlyDigitsAndDots(t);
  }

  lemma OnlyDigitsAndDots(t: string)
    requires FirstOf(t, NotDigitDot) == |t|
    ensures !Shadowed(t)
  {
    forall address, more ensures !ShadowedBy(t, address, more) {
      assert t == address + more && more != [] ==> t[|address|] == more[0];
    }
  }

  lemma NoAddressAhead(t: string, run: nat)
    requires run == FirstOf(t, NotDigitDot) && !(run > 0 && Octets(t[..run], 4))
    ensures !IsAddress(t) && !Shadowed(t)
  {
    if address, more :| ShadowedBy(t, address, more) { AddressRun(address, more); }
    if IsAddress(t) {
      assert t == t + [];
      AddressRun(t, []);
    }
  }

  predicate NotInHost(c: char) { IsAt(c) || EndsAuthority(c) }

  lemma HostNameBytes(t: string, utf8: bool)
    requires IsHostName(t, utf8)
    ensures forall i :: 0 <= i < |t| ==> !NotInHost(t[i]) && t[i] != ':' && t[i] != '['
  {
    if IsAddress(t) {
      AddressLanguage(t);
      AddressBytes(t, 4);
    } else {
      RunBytes(RegChar, utf8, t);
    }
  }

  lemma HostBytes(t: string, utf8: bool)
    requires IsHost(t, utf8)
    ensures forall i :: 0 <= i < |t| ==> !NotInHost(t[i])
  {
    if IsIpLiteral(t) {
      var body :| IsLiteralOf(t, body);
      IpBodyBytes(body);
    } else {
      HostNameBytes(t, utf8);
    }
  }

  /** A literal starts with a bracket, so no address shadows it. */
  lemma LiteralNotShadowed(t: string)
    requires OpensLiteral(t)
    ensures !Shadowed(t)
  {
    if address, more :| ShadowedBy(t, address, more) {
      AddressRun(address, more);
    }
  }

  // ---------------------------------------------------------------------------------------
  // Host and port
  // ---------------------------------------------------------------------------------------

  lemma PortSound(p: string) returns (port: Option<string>)
    requires IsPortPart(p)
    ensures PrintPort(port) == p && (port.Some? ==> AllDigits(port.value))
  {
    port := if p == [] then None else Some(p[1..]);
  }

  lemma PortTaken(port: Option<string>)
    requires port.Some? ==> AllDigits(port.value)
    ensures var p := PrintPort(port); IsPortPart(p) && (p == [] || IsColon(p[0]))
  {
    if port.Some? {
      FirstOfSplit(port.value, [], NotDigit);
      assert port.value + [] == port.value == PrintPort(port)[1..];
    }
  }

  lemma HostSplit(h: string, utf8: bool) returns (host: string, p: string)
    requires IsHostPort(h, utf8)
    ensures h == host + p && IsPortPart(p) && IsHost(host, utf8) && !Shadowed(host)
  {
    var n := HostEnd(h, utf8);
    host, p := h[..n], h[n..];
  }

  lemma HostEnd(h: string, utf8: bool) returns (n: nat)
    requires IsHostPort(h, utf8)
    ensures n <= |h| && IsPortPart(h[n..]) && IsHost(h[..n], utf8) && !Shadowed(h[..n])
  {
    if OpensLiteral(h) {
      n := IpLiteralLen(h);
      LiteralSound(h);
      LiteralNotShadowed(h[..n]);
    } else {
      n := FirstOf(h, IsColon);
      HostSound(h[..n], utf8);
    }
  }

  lemma HostPortSound(h: string, utf8: bool) returns (host: string, port: Option<string>)
    requires IsHostPort(h, utf8)
    ensures h == host + PrintPort(port) && IsHost(host, utf8) && !Shadowed(host)
    ensures port.Some? ==> AllDigits(port.value)
  {
    var p;
    host, p := HostSplit(h, utf8);
    port := PortSound(p);
  }

  lemma HostSound(t: string, utf8: bool)
    requires !OpensLiteral(t) && HostLen(t, utf8) == |t|
    ensures IsHostName(t, utf8) && !Shadowed(t)
  {
    HostNameLanguage(t, utf8);
    if t == [] { EmptyHost(utf8); }
  }

  lemma EmptyHost(utf8: bool)
    ensures HostNameLen([], utf8) == 0
  {
  }

  /** A host and port are taken exactly when the host is not shadowed. */
  lemma HostPortTaken(host: string, port: Option<string>, utf8: bool)
    requires IsHost(host, utf8) && (port.Some? ==> AllDigits(port.value))
    ensures IsHostPort(host + PrintPort(port), utf8) <==> !Shadowed(host)
  {
    var p := PrintPort(port);
    var h := host + p;
    PortTaken(port);
    assert h[|host|..] == p;
    if IsIpLiteral(host) {
      LiteralComplete(host, p);
      LiteralNotShadowed(host);
    } else {
      HostNameBytes(host, utf8);
      FirstOfSplit(host, p, IsColon);
      assert h[..|host|] == host;
      HostNameLanguage(host, utf8);
      if host == [] { EmptyHost(utf8); }
    }
  }

  // ---------------------------------------------------------------------------------------
  // Authorities
  // ---------------------------------------------------------------------------------------

  lemma SplitSound(user: string -> bool, hostPort: string -> bool, s: string) returns (u: Option<string>, h: string)
    requires IsSplitAuthority(user, hostPort, s)
    ensures s == PrintUser(u) + h && hostPort(h) && (u.Some? ==> user(u.value))
  {
    var at := FirstOf(s, IsAt);
    if at < |s| {
      u, h := Some(s[..at]), s[at + 1..];
    } else {
      u, h := None, s;
    }
  }

  ghost predicate NoAt(s: string) { forall i :: 0 <= i < |s| ==> !IsAt(s[i]) }

  lemma SplitTaken(user: string -> bool, hostPort: string -> bool, u: Option<string>, h: string)
    requires (u.Some? ==> NoAt(u.value)) && NoAt(h)
    ensures IsSplitAuthority(user, hostPort, PrintUser(u) + h) <==> (u.Some? ==> user(u.value)) && hostPort(h)
  {
    var s := PrintUser(u) + h;
    if u.Some? {
      assert s == u.value + ("@" + h);
      FirstOfSplit(u.value, "@" + h, IsAt);
      assert s[..|u.value|] == u.value && s[|u.value| + 1..] == h;
    } else {
      assert s == h == h + [];
      FirstOfSplit(h, [], IsAt);
    }
  }

  lemma AuthoritySound(s: string, utf8: bool) returns (a: Authority)
    requires IsAuthority(s, utf8)
    ensures IsWellFormed(a, utf8) && !Shadowed(a.host) && PrintAuthority(a) == s
  {
    var u, h := SplitSound(UserCheck(utf8), HostPortCheck(utf8), s);
    var host, port := HostPortSound(h, utf8);
    a := Authority(u, host, port);
    UserLanguage(u, utf8);
  }

  lemma UserLanguage(u: Option<string>, utf8: bool)
    ensures u.Some? ==> (UserCheck(utf8)(u.value) <==> Star(UserChar, utf8, u.value))
  {
    if u.Some? { StarIsSpan(UserChar, utf8, u.value); }
  }

  lemma HostPortBytes(host: string, port: Option<string>, utf8: bool)
    requires IsHost(host, utf8) && (port.Some? ==> AllDigits(port.value))
    ensures var h := host + PrintPort(port); forall i :: 0 <= i < |h| ==> !NotInHost(h[i])
  {
    HostBytes(host, utf8);
  }

  lemma UserBytes(t: string, utf8: bool)
    requires Star(UserChar, utf8, t)
    ensures forall i :: 0 <= i < |t| ==> !NotInHost(t[i])
  {
    RunBytes(UserChar, utf8, t);
  }

  /** A well-formed authority holds none of the bytes that end one. */
  lemma AuthorityBytes(a: Authority, utf8: bool)
    requires IsWellFormed(a, utf8)
    ensures var s := PrintAuthority(a); forall i :: 0 <= i < |s| ==> !EndsAuthority(s[i])
  {
    HostPortBytes(a.host, a.port, utf8);
    if a.user.Some? { UserBytes(a.user.value, utf8); }
  }

  /** A well-formed authority is accepted exactly when its host is not shadowed. */
  lemma AuthorityTaken(a: Authority, utf8: bool)
    requires IsWellFormed(a, utf8)
    ensures IsAuthority(PrintAuthority(a), utf8) <==> !Shadowed(a.host)
  {
    var h := a.host + PrintPort(a.port);
    HostPortTaken(a.host, a.port, utf8);
    HostPortBytes(a.host, a.port, utf8);
    UserLanguage(a.user, utf8);
    if a.user.Some? { UserBytes(a.user.value, utf8); }
    SplitTaken(UserCheck(utf8), HostPortCheck(utf8), a.user, h);
  }

  // ---------------------------------------------------------------------------------------
  // ASCII
  // ---------------------------------------------------------------------------------------

  ghost predicate AllAscii(s: string) { forall i :: 0 <= i < |s| ==> IsAscii(s[i]) }

  lemma AsciiHost(t: string)
    requires AllAscii(t)
    ensures HostLen(t, true) == HostLen(t, false)
  {
    AsciiSpan(RegChar, t);
  }

  lemma AsciiHostPort(h: string)
    requires AllAscii(h)
    ensures IsHostPort(h, true) <==> IsHostPort(h, false)
  {
    if !OpensLiteral(h) { AsciiHost(h[..FirstOf(h, IsColon)]); }
  }

  lemma AsciiAuthority(s: string)
    requires AllAscii(s)
    ensures IsAuthority(s, true) <==> IsAuthority(s, false)
  {
    var at := FirstOf(s, IsAt);
    AsciiSpan(UserChar, s[..at]);
    if at < |s| { AsciiHostPort(s[at + 1..]); } else { AsciiHostPort(s); }
  }
}
