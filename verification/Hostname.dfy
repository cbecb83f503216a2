/** Host names (section 2.1 of RFC 1123, section 2.3.4 of RFC 1035), with the source's UTF-8 extension. */
module Hostname {
  import opened Bytes
  import opened Greedy
  import opened Scan
  import opened Separated

  const MAX_HOSTNAME_LEN := 253
  const MAX_LABEL_LEN := 63

  function LabelRun(utf8: bool): Recognizer {
    s => Span(LabelChar, utf8, s)
  }

  /** Length of the label at the front, or 0. */
  function LabelLen(run: Recognizer, s: string): (n: nat)
    ensures n <= |s|
  {
    var n := run(s);
    if 0 < n <= |s| && n <= MAX_LABEL_LEN && s[0] != '-' && s[n - 1] != '-' && (n == |s| || s[n] == '.') then n else 0
  }

  function LabelItem(utf8: bool): Recognizer {
    s => LabelLen(LabelRun(utf8), s)
  }

  /** Labels with dots between them, and perhaps one after the last. */
  predicate IsLabels(item: Recognizer, s: string) {
    s != [] && ListLen(item, '.', true, s) == |s|
  }

  predicate IsHostname(s: string, utf8: bool) {
    |s| <= MAX_HOSTNAME_LEN && IsLabels(LabelItem(utf8), s)
  }

  /** `consume_label_char`. */
  function ConsumeLabelChar(unit: Recognizer, s: string, allowHyphen: bool): nat
    requires s != []
  {
    if s[0] == '-' && !allowHyphen then 0 else unit(s)
  }

  /** A character is at most four bytes and ends in a hyphen only by being one. */
  ghost predicate EndsAsStarted(unit: Recognizer, s: string) {
    var u := unit(s);
    u > 0 ==> u <= |s| && u <= 4 && (s[u - 1] == '-' <==> s[0] == '-')
  }

  ghost predicate IsLabelRun(unit: Recognizer, run: Recognizer) {
    IsRunOf(unit, run, '.') && forall s :: EndsAsStarted(unit, s)
  }

  lemma LabelsAreRuns(utf8: bool)
    ensures IsLabelRun(Units(LabelChar, utf8), LabelRun(utf8))
  {
    forall s ensures ReadsRun(LabelRun(utf8), LabelChar, utf8, s) {}
    SpansAreRuns(LabelChar, utf8, Units(LabelChar, utf8), LabelRun(utf8), '.');
    forall s ensures EndsAsStarted(Units(LabelChar, utf8), s) { LastByte(s, utf8); }
  }

  lemma LastByte(s: string, utf8: bool)
    ensures var u := Unit(LabelChar, utf8, s);
      u > 0 ==> u <= |s| && u <= 4 && (s[u - 1] == '-' <==> s[0] == '-')
  {
  }

  /** `parse_label`. */
  method ParseLabel(s: string, utf8: bool) returns (n: nat)
    ensures n == LabelLen(LabelRun(utf8), s)
  {
    LabelsAreRuns(utf8);
    n := ParseLabelBy(Units(LabelChar, utf8), LabelRun(utf8), s);
  }

  /** `parse_label`, with `unit` for the characters of a label. */
  method ParseLabelBy(unit: Recognizer, ghost run: Recognizer, s: string) returns (n: nat)
    requires IsLabelRun(unit, run)
    ensures n == LabelLen(run, s)
  {
    if |s| == 0 { return 0; }
    var first := ConsumeLabelChar(unit, s, false);
    LabelStart(unit, run, s);
    if first == 0 { return 0; }
    var pos: nat, lastCharStart: nat := first, 0;
    while pos < |s| && s[pos] != '.'
      invariant first <= pos <= |s|
      invariant lastCharStart < pos
      invariant run(s) == pos + run(s[pos..])
      invariant s[pos - 1] == '-' <==> s[lastCharStart] == '-'
      invariant pos == first || pos <= MAX_LABEL_LEN
      invariant pos == first ==> lastCharStart == 0
      decreases |s| - pos
    {
      var u := ParseNext(unit, run, s, pos);
      if u == 0 { return 0; }
      lastCharStart := pos;
      pos := pos + u;
      if pos > MAX_LABEL_LEN { return 0; }
    }
    RunStep(unit, run, '.', s, pos);
    var lastStart := if lastCharStart > 0 then lastCharStart else 0;
    if pos > first && s[lastStart] == '-' { return 0; }
    return pos;
  }

  lemma LabelStart(unit: Recognizer, run: Recognizer, s: string)
    requires IsLabelRun(unit, run) && s != []
    ensures var first := ConsumeLabelChar(unit, s, false);
      if first == 0 then LabelLen(run, s) == 0
      else
        && first <= |s| && first <= 4 && s[0] != '-' && s[first - 1] != '-'
        && run(s) == first + run(s[first..])
  {
    assert s[0..] == s;
    RunStep(unit, run, '.', s, 0);
    assert EndsAsStarted(unit, s);
  }

  /** A further character; a byte that starts none ends the run. */
  method ParseNext(unit: Recognizer, ghost run: Recognizer, s: string, pos: nat) returns (u: nat)
    requires IsLabelRun(unit, run) && pos < |s| && run(s) == pos + run(s[pos..])
    ensures u == 0 ==> run(s) == pos
    ensures u > 0 ==> pos + u <= |s| && (s[pos + u - 1] == '-' <==> s[pos] == '-')
    ensures u > 0 ==> run(s) == pos + u + run(s[pos + u..])
  {
    u := ConsumeLabelChar(unit, s[pos..], true);
    RunStep(unit, run, '.', s, pos);
    assert EndsAsStarted(unit, s[pos..]);
  }

  /** `parse_hostname`. */
  method ParseHostname(s: string, utf8: bool) returns (ok: bool)
    ensures ok == IsHostname(s, utf8)
    ensures ok <==>
            |s| <= 253 && exists labels, final :: Spells(LabelText(utf8), '.', s, labels, final)
  {
    HostnameLanguage(s, utf8);
    if |s| == 0 { return false; }
    if |s| > MAX_HOSTNAME_LEN { return false; }
    LabelsRead(utf8);
    ok := ParseLabels(LabelItem(utf8), s, utf8);
  }

  ghost predicate ReadsLabels(item: Recognizer, utf8: bool) {
    forall s :: ReadsLabel(item, s, utf8)
  }

  ghost predicate ReadsLabel(item: Recognizer, s: string, utf8: bool) {
    item(s) == LabelLen(LabelRun(utf8), s)
  }

  lemma LabelsRead(utf8: bool)
    ensures ReadsLabels(LabelItem(utf8), utf8)
  {
    forall s ensures ReadsLabel(LabelItem(utf8), s, utf8) {}
  }

  /** The loop of `parse_hostname`. */
  method ParseLabels(ghost item: Recognizer, s: string, utf8: bool) returns (ok: bool)
    requires s != [] && ReadsLabels(item, utf8)
    ensures ok <==> IsLabels(item, s)
  {
    var pos: nat := 0;
    assert s[0..] == s;
    while pos < |s|
      invariant pos < |s|
      invariant IsLabels(item, s) <==> IsLabels(item, s[pos..])
      decreases |s| - pos
    {
      var n := ParseLabelOf(item, s[pos..], utf8);
      LabelStep(item, s, pos);
      if n == 0 { return false; }
      pos := pos + n;
      if pos == |s| { break; }
      if s[pos] != '.' { return false; }
      pos := pos + 1;
      if pos == |s| { return true; }
    }
    return true;
  }

  method ParseLabelOf(ghost item: Recognizer, s: string, utf8: bool) returns (n: nat)
    requires ReadsLabels(item, utf8)
    ensures n == item(s) <= |s|
  {
    assert ReadsLabel(item, s, utf8);
    n := ParseLabel(s, utf8);
  }

  lemma LabelStep(item: Recognizer, s: string, pos: nat)
    requires pos < |s|
    ensures var n := item(s[pos..]);
      IsLabels(item, s[pos..]) <==>
        && 0 < n && pos + n <= |s|
        && (pos + n == |s| || (s[pos + n] == '.' && (pos + n + 1 == |s| || IsLabels(item, s[pos + n + 1..]))))
  {
    var t := s[pos..];
    var n := item(t);
    if 0 < n < |t| {
      assert t[n] == s[pos + n] && t[n + 1..] == s[pos + n + 1..];
      ListBound(item, '.', true, t[n + 1..]);
    }
  }

  // ---------------------------------------------------------------------------------------
  // The language
  // ---------------------------------------------------------------------------------------

  ghost predicate IsLabel(t: string, utf8: bool) {
    1 <= |t| <= 63 && Star(LabelChar, utf8, t) && t[0] != '-' && t[|t| - 1] != '-'
  }

  ghost function LabelText(utf8: bool): string -> bool {
    t => IsLabel(t, utf8)
  }

  lemma LabelsRecognized(utf8: bool)
    ensures Recognizes(LabelItem(utf8), LabelText(utf8), c => c == '.')
  {
    var item, ok, stop := LabelItem(utf8), LabelText(utf8), (c: char) => c == '.';
    forall s ensures Finds(item, ok, s) {
      SpanSound(LabelChar, utf8, s);
    }
    forall t, rest ensures Takes(item, ok, stop, t, rest) {
      if ok(t) && (rest == [] || rest[0] == '.') { LabelTaken(t, rest, utf8); }
    }
  }

  lemma LabelTaken(t: string, rest: string, utf8: bool)
    requires IsLabel(t, utf8) && (rest == [] || rest[0] == '.')
    ensures LabelLen(LabelRun(utf8), t + rest) == |t|
  {
    RunUpTo(LabelChar, utf8, t, rest);
  }

  /**
   Exactly the names of at most 253 bytes are accepted that consist of one or more labels joined by
   dots, with at most one dot after the last.
   */
  lemma HostnameLanguage(s: string, utf8: bool)
    ensures IsHostname(s, utf8) <==>
            |s| <= 253 && exists labels, final :: Spells(LabelText(utf8), '.', s, labels, final)
  {
    LabelsRecognized(utf8);
    ListLanguage(LabelItem(utf8), LabelText(utf8), c => c == '.', '.', true, s);
  }
}
