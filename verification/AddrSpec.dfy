/** Mail addresses (section 3.4.1 of RFC 5322, section 4.1.3 of RFC 5321, with the UTF-8 of RFC 6531). */
module AddrSpec {
  import opened Bytes
  import opened Greedy
  import opened Scan
  import opened Separated
  import opened Ipv4
  import opened Ipv6

  const MAX_LOCAL_PART := 64
  const MAX_DOMAIN := 255

  // ---------------------------------------------------------------------------------------
  // The recognizer
  // ---------------------------------------------------------------------------------------

  function AtomItem(utf8: bool): Recognizer {
    s => Span(AText, utf8, s)
  }

  /** Length of the dot-atom at the front, or 0. */
  function DotAtomLen(item: Recognizer, finalDot: bool, s: string): nat {
    ListLen(item, '.', finalDot, s)
  }

  /** Length of the quoted string at the front, or 0. */
  function QuotedLen(run: Recognizer, s: string): nat {
    if |s| < 2 || s[0] != '"' then 0
    else
      var n := run(s[1..]);
      if 1 + n < |s| && s[1 + n] == '"' then n + 2 else 0
  }

  function LocalLen(s: string, utf8: bool): nat {
    if s == [] then 0
    else if s[0] == '"' then QuotedLen(QuotedRun(utf8), s)
    else DotAtomLen(AtomItem(utf8), false, s)
  }

  predicate IsLetDig(c: char) { IsAlpha(c) || IsDigit(c) }

  predicate IsLdh(t: string) {
    t != [] && IsLetDig(t[0]) && t[|t| - 1] != '-' && forall i :: 0 <= i < |t| ==> IsLetDig(t[i]) || t[i] == '-'
  }

  predicate HasAlpha(t: string) {
    exists i :: 0 <= i < |t| && IsAlpha(t[i])
  }

  predicate IsGeneral(s: string, utf8: bool) {
    var colon := FirstOf(s, c => c == ':');
    && 0 < colon < |s| - 1
    && IsLdh(s[..colon]) && s[..colon] != "IPv6" && HasAlpha(s[..colon])
    && Span(DContent, utf8, s[colon + 1..]) == |s| - colon - 1
  }

  predicate IsIpv6Literal(s: string) {
    |s| >= 5 && s[..5] == "IPv6:" && IsIpv6(s[5..])
  }

  predicate IsLiteralBody(s: string, utf8: bool) {
    Octets(s, 4) || IsIpv6Literal(s) || IsGeneral(s, utf8)
  }

  function LiteralLen(s: string, utf8: bool): nat {
    if |s| < 2 || s[0] != '[' then 0
    else
      var end := 1 + FirstOf(s[1..], c => c == ']');
      if end < |s| && IsLiteralBody(s[1..end], utf8) then end + 1 else 0
  }

  function DomainLen(s: string, utf8: bool): nat {
    if s == [] then 0
    else if s[0] == '[' then LiteralLen(s, utf8)
    else DotAtomLen(AtomItem(utf8), true, s)
  }

  function LocalItem(utf8: bool): Recognizer { s => LocalLen(s, utf8) }
  function DomainItem(utf8: bool): Recognizer { s => DomainLen(s, utf8) }

  predicate IsMailbox(local: Recognizer, domain: Recognizer, s: string) {
    var n := local(s);
    && 0 < n <= MAX_LOCAL_PART && n < |s| && s[n] == '@'
    && 0 < |s| - n - 1 <= MAX_DOMAIN
    && domain(s[n + 1..]) == |s| - n - 1
  }

  predicate IsAddrSpec(s: string, utf8: bool) {
    IsMailbox(LocalItem(utf8), DomainItem(utf8), s)
  }

  /** `parse_dot_atom`. */
  method ParseDotAtom(s: string, utf8: bool, finalDot: bool) returns (pos: nat)
    ensures pos == DotAtomLen(AtomItem(utf8), finalDot, s)
  {
    AtomsAreRuns(utf8);
    pos := ParseAtoms(AtomItem(utf8), s, utf8, finalDot);
  }

  lemma AtomsAreRuns(utf8: bool)
    ensures IsRun(AtomItem(utf8), AText, utf8)
  {
    forall s ensures ReadsRun(AtomItem(utf8), AText, utf8, s) {}
  }

  /** The loop of `parse_dot_atom`. */
  method ParseAtoms(ghost item: Recognizer, s: string, utf8: bool, finalDot: bool) returns (pos: nat)
    requires IsRun(item, AText, utf8)
    ensures pos == DotAtomLen(item, finalDot, s)
  {
    pos := ParseRunAs(AText, item, s, utf8);
    if pos == 0 { return 0; }
    while pos < |s| && s[pos] == '.'
      invariant 0 < pos <= |s|
      invariant DotAtomLen(item, finalDot, s) == ListTail(item, '.', finalDot, s, pos)
      decreases |s| - pos
    {
      var next := ParseRunAs(AText, item, s[pos + 1..], utf8);
      ListTailStep(item, '.', finalDot, s, pos);
      if next == 0 {
        if finalDot && pos + 1 == |s| { return |s|; }
        return 0;
      }
      pos := pos + 1 + next;
    }
  }

  function QuotedRun(utf8: bool): Recognizer {
    s => Span(QContent, utf8, s)
  }

  lemma QuotedIsRun(utf8: bool)
    ensures IsRunOf(Units(QContent, utf8), QuotedRun(utf8), '"')
  {
    forall s ensures ReadsRun(QuotedRun(utf8), QContent, utf8, s) {}
    SpansAreRuns(QContent, utf8, Units(QContent, utf8), QuotedRun(utf8), '"');
  }

  /** `parse_quoted_string`. */
  method ParseQuotedString(s: string, utf8: bool) returns (n: nat)
    ensures n == QuotedLen(QuotedRun(utf8), s)
  {
    if |s| < 2 || s[0] != '"' { return 0; }
    QuotedIsRun(utf8);
    var pos := ParseUntil(Units(QContent, utf8), QuotedRun(utf8), '"', s[1..]);
    if pos + 1 >= |s| || s[pos + 1] != '"' { return 0; }
    return pos + 2;
  }

  method ParseLocalPart(s: string, utf8: bool) returns (n: nat)
    ensures n == LocalLen(s, utf8)
  {
    if |s| == 0 { return 0; }
    if s[0] == '"' {
      n := ParseQuotedString(s, utf8);
    } else {
      n := ParseDotAtom(s, utf8, false);
    }
  }

  /** `parse_ldh_str`. */
  method ParseLdhStr(s: string) returns (ok: bool)
    ensures ok <==> IsLdh(s)
  {
    if |s| == 0 { return false; }
    if !IsLetDig(s[0]) { return false; }
    for i := 0 to |s|
      invariant forall k :: 0 <= k < i ==> IsLetDig(s[k]) || s[k] == '-'
    {
      if !IsLetDig(s[i]) && s[i] != '-' { return false; }
    }
    return s[|s| - 1] != '-';
  }

  /** `parse_general_address_literal`. */
  method ParseGeneralAddressLiteral(s: string, utf8: bool) returns (ok: bool)
    ensures ok <==> IsGeneral(s, utf8)
  {
    var colon := FindFirst(s, c => c == ':');
    if colon == 0 || colon == |s| || colon >= |s| - 1 { return false; }
    var tag := s[..colon];
    ok := ParseLdhStr(tag);
    if !ok { return false; }
    if colon == 4 && tag == "IPv6" { return false; }
    var i := 0;
    while i < colon && !IsAlpha(tag[i])
      invariant 0 <= i <= colon
      invariant forall k :: 0 <= k < i ==> !IsAlpha(tag[k])
    {
      i := i + 1;
    }
    if i == colon { return false; }
    var n := ParseRun(DContent, utf8, s[colon + 1..]);
    return n == |s| - colon - 1;
  }

  method ParseDomainLiteralBody(s: string, utf8: bool) returns (ok: bool)
    ensures ok <==> IsLiteralBody(s, utf8)
  {
    ok := ParseIpv4(s);
    if ok { return true; }
    if |s| >= 5 && s[..5] == "IPv6:" {
      ok := ParseIpv6(s[5..]);
      if ok { return true; }
    }
    ok := ParseGeneralAddressLiteral(s, utf8);
  }

  method ParseDomainLiteral(s: string, utf8: bool) returns (n: nat)
    ensures n == LiteralLen(s, utf8)
  {
    if |s| < 2 || s[0] != '[' { return 0; }
    var end := FindFirst(s[1..], c => c == ']');
    if 1 + end == |s| { return 0; }
    var ok := ParseDomainLiteralBody(s[1..1 + end], utf8);
    if !ok { return 0; }
    return end + 2;
  }

  method ParseDomain(s: string, utf8: bool) returns (n: nat)
    ensures n == DomainLen(s, utf8)
  {
    if |s| == 0 { return 0; }
    if s[0] == '[' {
      n := ParseDomainLiteral(s, utf8);
    } else {
      n := ParseDotAtom(s, utf8, true);
    }
  }

  ghost predicate ReadsParts(local: Recognizer, domain: Recognizer, utf8: bool) {
    (forall s :: ReadsLocal(local, s, utf8)) && (forall s :: ReadsDomain(domain, s, utf8))
  }

  ghost predicate ReadsLocal(local: Recognizer, s: string, utf8: bool) { local(s) == LocalLen(s, utf8) }
  ghost predicate ReadsDomain(domain: Recognizer, s: string, utf8: bool) { domain(s) == DomainLen(s, utf8) }

  lemma PartsRead(utf8: bool)
    ensures ReadsParts(LocalItem(utf8), DomainItem(utf8), utf8)
  {
    forall s ensures ReadsLocal(LocalItem(utf8), s, utf8) {}
    forall s ensures ReadsDomain(DomainItem(utf8), s, utf8) {}
  }

  /** `parse_addr_spec`. */
  method ParseAddrSpec(s: string, utf8: bool) returns (ok: bool)
    ensures ok == IsAddrSpec(s, utf8)
    ensures ok <==> exists local, domain :: Splits(s, local, domain, utf8)
  {
    AddrSpecLanguage(s, utf8);
    PartsRead(utf8);
    ok := ParseMailbox(LocalItem(utf8), DomainItem(utf8), s, utf8);
  }

  method ParseMailbox(ghost local: Recognizer, ghost domain: Recognizer, s: string, utf8: bool) returns (ok: bool)
    requires ReadsParts(local, domain, utf8)
    ensures ok <==> IsMailbox(local, domain, s)
  {
    var localLen := ParseLocalAs(local, domain, s, utf8);
    if localLen == 0 { return false; }
    if localLen > MAX_LOCAL_PART { return false; }
    if localLen >= |s| { return false; }
    if s[localLen] != '@' { return false; }
    var rest := s[localLen + 1..];
    if |rest| == 0 { return false; }
    if |rest| > MAX_DOMAIN { return false; }
    var consumed := ParseDomainAs(local, domain, rest, utf8);
    return consumed == |rest|;
  }

  method ParseLocalAs(ghost local: Recognizer, ghost domain: Recognizer, s: string, utf8: bool) returns (n: nat)
    requires ReadsParts(local, domain, utf8)
    ensures n == local(s)
  {
    assert ReadsLocal(local, s, utf8);
    n := ParseLocalPart(s, utf8);
  }

  method ParseDomainAs(ghost local: Recognizer, ghost domain: Recognizer, s: string, utf8: bool) returns (n: nat)
    requires ReadsParts(local, domain, utf8)
    ensures n == domain(s)
  {
    assert ReadsDomain(domain, s, utf8);
    n := ParseDomain(s, utf8);
  }

  // ---------------------------------------------------------------------------------------
  // The grammar
  // ---------------------------------------------------------------------------------------

  ghost function AtomText(utf8: bool): string -> bool {
    t => t != [] && Star(AText, utf8, t)
  }

  predicate AtomStop(c: char) { c == '.' || c == '@' }

  ghost predicate IsQuoted(t: string, body: string, utf8: bool) {
    t == "\"" + body + "\"" && Star(QContent, utf8, body)
  }

  /** A dot-atom or a quoted string. */
  ghost predicate IsLocal(t: string, utf8: bool) {
    || (exists parts :: Spells(AtomText(utf8), '.', t, parts, false))
    || (exists body :: IsQuoted(t, body, utf8))
  }

  ghost predicate IsTagged(t: string, tag: string, content: string, utf8: bool) {
    && t == tag + ":" + content
    && IsLdh(tag) && HasAlpha(tag) && tag != "IPv6"
    && content != [] && Star(DContent, utf8, content)
  }

  /** An IPv4 address, an IPv6 literal or a tagged literal. */
  ghost predicate IsLiteral(t: string, utf8: bool) {
    || IsAddress(t)
    || (|t| >= 5 && t[..5] == "IPv6:" && (IsTextForm(t[5..]) || IsOverrun(t[5..])))
    || (exists tag, content :: IsTagged(t, tag, content, utf8))
  }

  ghost predicate IsBracketed(t: string, body: string, utf8: bool) {
    t == "[" + body + "]" && IsLiteral(body, utf8)
  }

  /** A dot-atom with at most one final dot, or a literal in brackets. */
  ghost predicate IsDomain(t: string, utf8: bool) {
    || (exists parts, final :: Spells(AtomText(utf8), '.', t, parts, final))
    || (exists body :: IsBracketed(t, body, utf8))
  }

  ghost predicate Splits(s: string, local: string, domain: string, utf8: bool) {
    && s == local + "@" + domain
    && |local| <= 64 && |domain| <= 255
    && IsLocal(local, utf8) && IsDomain(domain, utf8)
  }

  // ---------------------------------------------------------------------------------------
  // Pieces of the proof
  // ---------------------------------------------------------------------------------------

  lemma AtomsRecognized(utf8: bool)
    ensures Recognizes(AtomItem(utf8), AtomText(utf8), AtomStop)
    ensures AtomItem(utf8)([]) == 0
  {
    var item, ok := AtomItem(utf8), AtomText(utf8);
    forall s ensures Finds(item, ok, s) {
      SpanSound(AText, utf8, s);
    }
    forall t, rest ensures Takes(item, ok, AtomStop, t, rest) {
      if ok(t) && (rest == [] || AtomStop(rest[0])) { AtomTaken(t, rest, utf8); }
    }
  }

  lemma AtomTaken(t: string, rest: string, utf8: bool)
    requires Star(AText, utf8, t) && (rest == [] || AtomStop(rest[0]))
    ensures Span(AText, utf8, t + rest) == |t|
  {
    RunUpTo(AText, utf8, t, rest);
  }

  /** A run of atoms does not start with a quote or a bracket. */
  lemma AtomStart(t: string, utf8: bool)
    requires t != [] && Star(AText, utf8, t)
    ensures t[0] != '"' && t[0] != '['
  {
    var n := StarHead(AText, utf8, t);
  }

  lemma SpelledStart(t: string, parts: seq<string>, final: bool, utf8: bool)
    requires Spells(AtomText(utf8), '.', t, parts, final)
    ensures t != [] && t[0] != '"' && t[0] != '['
  {
    assert AtomText(utf8)(parts[0]);
    AtomStart(parts[0], utf8);
    assert t[0] == parts[0][0];
  }

  lemma LocalSound(s: string, utf8: bool)
    requires LocalLen(s, utf8) > 0
    ensures LocalLen(s, utf8) <= |s| && IsLocal(s[..LocalLen(s, utf8)], utf8)
  {
    var n := LocalLen(s, utf8);
    if s[0] == '"' {
      QuotedSound(s, utf8);
    } else {
      AtomsSound(s, utf8);
    }
  }

  lemma AtomsSound(s: string, utf8: bool)
    requires DotAtomLen(AtomItem(utf8), false, s) > 0
    ensures var n := DotAtomLen(AtomItem(utf8), false, s);
            n <= |s| && exists parts :: Spells(AtomText(utf8), '.', s[..n], parts, false)
  {
    AtomsRecognized(utf8);
    var parts, final := ListSound(AtomItem(utf8), AtomText(utf8), AtomStop, '.', false, s);
  }

  lemma QuotedSound(s: string, utf8: bool)
    requires QuotedLen(QuotedRun(utf8), s) > 0
    ensures var n := QuotedLen(QuotedRun(utf8), s); 2 <= n <= |s| && exists body :: IsQuoted(s[..n], body, utf8)
  {
    var n := QuotedLen(QuotedRun(utf8), s);
    SpanSound(QContent, utf8, s[1..]);
    var body := s[1..][..n - 2];
    assert s[..n] == "\"" + body + "\"";
    assert IsQuoted(s[..n], body, utf8);
  }

  /** The local part is found whatever domain follows the "@". */
  lemma LocalComplete(local: string, domain: string, utf8: bool)
    requires IsLocal(local, utf8)
    ensures local != [] && LocalLen(local + "@" + domain, utf8) == |local|
  {
    var rest := "@" + domain;
    assert local + "@" + domain == local + rest;
    if parts :| Spells(AtomText(utf8), '.', local, parts, false) {
      AtomsComplete(local, parts, rest, utf8);
    } else {
      var body :| IsQuoted(local, body, utf8);
      QuotedComplete(local, body, rest, utf8);
    }
  }

  lemma AtomsComplete(local: string, parts: seq<string>, rest: string, utf8: bool)
    requires Spells(AtomText(utf8), '.', local, parts, false) && rest != [] && rest[0] == '@'
    ensures local != [] && LocalLen(local + rest, utf8) == |local|
  {
    SpelledStart(local, parts, false, utf8);
    AtomsRecognized(utf8);
    assert local == Join('.', parts);
    ListComplete(AtomItem(utf8), AtomText(utf8), AtomStop, '.', false, parts, rest);
  }

  lemma QuotedComplete(t: string, body: string, rest: string, utf8: bool)
    requires IsQuoted(t, body, utf8)
    ensures QuotedLen(QuotedRun(utf8), t + rest) == |t|
  {
    var s, close := t + rest, "\"" + rest;
    assert s[1..] == body + close;
    NoStart(QContent, utf8, close);
    RunUpTo(QContent, utf8, body, close);
  }

  lemma ColonSplit(t: string, tag: string, content: string)
    requires t == tag + ":" + content && forall i :: 0 <= i < |tag| ==> tag[i] != ':'
    ensures FirstOf(t, c => c == ':') == |tag| && t[..|tag|] == tag && t[|tag| + 1..] == content
  {
    assert t == tag + (":" + content);
    FirstOfSplit(tag, ":" + content, c => c == ':');
  }

  lemma GeneralSound(s: string, utf8: bool)
    requires IsGeneral(s, utf8)
    ensures exists tag, content :: IsTagged(s, tag, content, utf8)
  {
    var colon := FirstOf(s, c => c == ':');
    var tag, content := s[..colon], s[colon + 1..];
    StarIsSpan(DContent, utf8, content);
    SplitAround(s, colon);
    assert IsTagged(s, tag, content, utf8);
  }

  lemma GeneralComplete(s: string, tag: string, content: string, utf8: bool)
    requires IsTagged(s, tag, content, utf8)
    ensures IsGeneral(s, utf8)
  {
    ColonSplit(s, tag, content);
    StarIsSpan(DContent, utf8, content);
  }

  lemma GeneralIsTagged(s: string, utf8: bool)
    ensures IsGeneral(s, utf8) <==> exists tag, content :: IsTagged(s, tag, content, utf8)
  {
    if IsGeneral(s, utf8) { GeneralSound(s, utf8); }
    if tag, content :| IsTagged(s, tag, content, utf8) { GeneralComplete(s, tag, content, utf8); }
  }

  lemma BodyIsLiteral(s: string, utf8: bool)
    ensures IsLiteralBody(s, utf8) <==> IsLiteral(s, utf8)
  {
    AddressLanguage(s);
    if |s| >= 5 { Ipv6Language(s[5..]); }
    GeneralIsTagged(s, utf8);
  }

  /** No literal holds a closing bracket. */
  lemma LiteralBytes(s: string, utf8: bool)
    requires IsLiteral(s, utf8)
    ensures forall i :: 0 <= i < |s| ==> s[i] != ']'
  {
    if IsAddress(s) {
      AddressLanguage(s);
      AddressBytes(s, 4);
    } else if |s| >= 5 && s[..5] == "IPv6:" && (IsTextForm(s[5..]) || IsOverrun(s[5..])) {
      Ipv6Language(s[5..]);
      Ipv6Bytes(s[5..]);
      forall i | 0 <= i < |s| ensures s[i] != ']' {
        if i < 5 { assert s[i] == s[..5][i]; } else { assert s[i] == s[5..][i - 5]; }
      }
    } else {
      var tag, content :| IsTagged(s, tag, content, utf8);
      RunBytes(DContent, utf8, content);
    }
  }

  lemma BracketSplit(s: string, body: string)
    requires s == "[" + body + "]" && forall i :: 0 <= i < |body| ==> body[i] != ']'
    ensures 1 + FirstOf(s[1..], c => c == ']') == |s| - 1 && s[1..|s| - 1] == body
  {
    assert s[1..] == body + "]";
    FirstOfSplit(body, "]", c => c == ']');
  }

  lemma DomainLanguage(s: string, utf8: bool)
    ensures s != [] && DomainLen(s, utf8) == |s| <==> IsDomain(s, utf8)
  {
    AtomsRecognized(utf8);
    ListLanguage(AtomItem(utf8), AtomText(utf8), AtomStop, '.', true, s);
    if parts, final :| Spells(AtomText(utf8), '.', s, parts, final) {
      SpelledStart(s, parts, final, utf8);
    }
    LiteralLanguage(s, utf8);
  }

  lemma LiteralLanguage(s: string, utf8: bool)
    ensures s != [] && s[0] == '[' && LiteralLen(s, utf8) == |s| <==> exists body :: IsBracketed(s, body, utf8)
  {
    if s != [] && s[0] == '[' && LiteralLen(s, utf8) == |s| { BracketSound(s, utf8); }
    if body :| IsBracketed(s, body, utf8) { BracketComplete(s, body, utf8); }
  }

  lemma LiteralEnd(s: string, utf8: bool) returns (end: nat)
    requires LiteralLen(s, utf8) == |s| > 0
    ensures |s| >= 2 && end == |s| - 1 && s[0] == '[' && s[end] == ']' && IsLiteralBody(s[1..end], utf8)
  {
    end := 1 + FirstOf(s[1..], c => c == ']');
  }

  lemma BracketSound(s: string, utf8: bool)
    requires s != [] && s[0] == '[' && LiteralLen(s, utf8) == |s|
    ensures exists body :: IsBracketed(s, body, utf8)
  {
    var end := LiteralEnd(s, utf8);
    var body := s[1..end];
    BodyIsLiteral(body, utf8);
    Bracketed(s);
    assert IsBracketed(s, body, utf8);
  }

  lemma BracketComplete(s: string, body: string, utf8: bool)
    requires IsBracketed(s, body, utf8)
    ensures s != [] && s[0] == '[' && LiteralLen(s, utf8) == |s|
  {
    LiteralBytes(body, utf8);
    BracketSplit(s, body);
    BodyIsLiteral(body, utf8);
  }

  lemma AddrSpecSound(s: string, utf8: bool)
    requires IsAddrSpec(s, utf8)
    ensures exists local, domain :: Splits(s, local, domain, utf8)
  {
    var n := LocalLen(s, utf8);
    var local, domain := s[..n], s[n + 1..];
    SplitAround(s, n);
    assert IsLocal(local, utf8) by { LocalSound(s, utf8); }
    assert IsDomain(domain, utf8) by { DomainLanguage(domain, utf8); }
    assert Splits(s, local, domain, utf8);
  }

  lemma AddrSpecComplete(s: string, local: string, domain: string, utf8: bool)
    requires Splits(s, local, domain, utf8)
    ensures IsAddrSpec(s, utf8)
  {
    LocalComplete(local, domain, utf8);
    DomainLanguage(domain, utf8);
    assert s[|local| + 1..] == domain;
  }

  /**
   Exactly the strings that split into a local part of 1 to 64 bytes, "@" and a domain of 1 to 255
   bytes are accepted: the greedy end of the local part never loses a split.
   */
  lemma AddrSpecLanguage(s: string, utf8: bool)
    ensures IsAddrSpec(s, utf8) <==> exists local, domain :: Splits(s, local, domain, utf8)
  {
    if IsAddrSpec(s, utf8) { AddrSpecSound(s, utf8); }
    if local, domain :| Splits(s, local, domain, utf8) { AddrSpecComplete(s, local, domain, utf8); }
  }
}
