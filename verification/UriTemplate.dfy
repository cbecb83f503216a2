/** URI templates (sections 2.1 to 2.4 of RFC 6570, any valid non-ASCII UTF-8 taken as a literal). */
module UriTemplate {
  import opened Values
  import opened Bytes
  import opened Greedy
  import opened Scan
  import opened Separated
  import Ipv4

  const MAX_PREFIX := 9999

  // ---------------------------------------------------------------------------------------
  // The recognizer
  // ---------------------------------------------------------------------------------------

  predicate IsOperator(c: char) { c in "+#./;?&=,!@|" }

  predicate NotDigit(c: char) { !IsDigit(c) }

  function LiteralRun(): Recognizer {
    s => Span(Literal, true, s)
  }

  /** Length of the literals up to a brace or the end, or 0. */
  function LiteralsLen(run: Recognizer, s: string): nat {
    var n := run(s);
    if n == |s| || (n < |s| && s[n] == '{') then n else 0
  }

  function NameRun(): Recognizer {
    s => Span(VarChar, false, s)
  }

  /** Length of the dotted name at the front, or 0. */
  function NameLen(s: string): nat {
    ListLen(NameRun(), '.', false, s)
  }

  predicate OpensModifier(s: string) { s != [] && (s[0] == ':' || s[0] == '*') }

  /** Length of the modifier at the front, or 0. */
  function ModifierLen(s: string): nat {
    if s == [] then 0
    else if s[0] == '*' then 1
    else if s[0] == ':' && |s| >= 2 && '1' <= s[1] <= '9' then
      var digits := FirstOf(s[1..], NotDigit);
      if 1 <= digits <= 4 then 1 + digits else 0
    else 0
  }

  function NameItem(): Recognizer {
    s => NameLen(s)
  }

  /** Length of the name and its modifier, or 0. */
  function SpecLen(name: Recognizer, s: string): nat {
    var n := name(s);
    if n == 0 || n > |s| then 0
    else if OpensModifier(s[n..]) then
      var m := ModifierLen(s[n..]);
      if m == 0 then 0 else n + m
    else n
  }

  function SpecItem(): Recognizer {
    s => SpecLen(NameItem(), s)
  }

  function VariablesLen(item: Recognizer, s: string): nat {
    ListLen(item, ',', false, s)
  }

  function OperatorLen(s: string): nat {
    if |s| > 1 && IsOperator(s[1]) then 1 else 0
  }

  /** Length of the expression at the front, braces included, or 0. */
  function ExpressionLen(item: Recognizer, s: string): nat {
    if |s| < 2 || s[0] != '{' then 0
    else
      var at := 1 + OperatorLen(s);
      var n := VariablesLen(item, s[at..]);
      if n > 0 && at + n < |s| && s[at + n] == '}' then at + n + 1 else 0
  }

  function TextItem(): Recognizer {
    s => LiteralsLen(LiteralRun(), s)
  }

  function PartLen(text: Recognizer, item: Recognizer, s: string): nat {
    if s == [] then 0 else if s[0] == '{' then ExpressionLen(item, s) else text(s)
  }

  function PartItem(): Recognizer {
    s => PartLen(TextItem(), SpecItem(), s)
  }

  /** Expressions and runs of literals, to the end. */
  predicate IsTemplate(s: string) {
    Longest(PartItem(), s) == |s|
  }

  /** What a name is, seen from inside one of its runs. */
  ghost function NameFrom(run: Recognizer, s: string, pos: nat): nat
    requires pos <= |s|
  {
    var at := pos + run(s[pos..]);
    if at <= |s| then ListTail(run, '.', false, s, at) else 0
  }

  /** `parse_literals_run`. */
  method ParseLiteralsRun(unit: Recognizer, ghost run: Recognizer, s: string) returns (n: nat)
    requires IsRunOf(unit, run, '{')
    ensures n == LiteralsLen(run, s)
  {
    n := ParseUntil(unit, run, '{', s);
    if n < |s| && s[n] != '{' { return 0; }
  }

  lemma NameDot(unit: Recognizer, run: Recognizer, s: string, pos: nat)
    requires IsRunOf(unit, run, '.') && pos < |s| && s[pos] == '.'
    ensures var u := unit(s[pos + 1..]);
      && pos + 1 + u <= |s|
      && NameFrom(run, s, pos) == if u > 0 then NameFrom(run, s, pos + 1 + u) else 0
  {
    RunStep(unit, run, '.', s, pos);
    RunStep(unit, run, '.', s, pos + 1);
    ListTailStep(run, '.', false, s, pos);
  }

  lemma NameMore(unit: Recognizer, run: Recognizer, s: string, pos: nat)
    requires IsRunOf(unit, run, '.') && pos <= |s| && (pos < |s| ==> s[pos] != '.')
    ensures var u := unit(s[pos..]);
      pos + u <= |s| && NameFrom(run, s, pos) == if u > 0 then NameFrom(run, s, pos + u) else pos
  {
    RunStep(unit, run, '.', s, pos);
  }

  lemma RunStart(unit: Recognizer, run: Recognizer, s: string)
    requires IsRunOf(unit, run, '.')
    ensures var u := unit(s); u <= |s| && run(s) == if u == 0 then 0 else u + run(s[u..])
  {
    assert s[0..] == s;
    RunStep(unit, run, '.', s, 0);
  }

  lemma NameFirst(run: Recognizer, s: string, u: nat)
    requires u <= |s| && run(s) == if u == 0 then 0 else u + run(s[u..])
    ensures ListLen(run, '.', false, s) == if u > 0 then NameFrom(run, s, u) else 0
  {
  }

  lemma NameStart(unit: Recognizer, run: Recognizer, s: string)
    requires IsRunOf(unit, run, '.')
    ensures var u := unit(s);
      u <= |s| && ListLen(run, '.', false, s) == if u > 0 then NameFrom(run, s, u) else 0
  {
    RunStart(unit, run, s);
    NameFirst(run, s, unit(s));
  }

  /** A turn of the loop of `parse_varname`. */
  method ParseRunTurn(unit: Recognizer, ghost run: Recognizer, s: string, n: nat) returns (next: nat, done: bool)
    requires IsRunOf(unit, run, '.') && n < |s|
    ensures done ==> next == NameFrom(run, s, n)
    ensures !done ==> n < next <= |s| && NameFrom(run, s, next) == NameFrom(run, s, n)
  {
    if s[n] == '.' {
      NameDot(unit, run, s, n);
      var u := unit(s[n + 1..]);
      if u == 0 { return 0, true; }
      return n + 1 + u, false;
    }
    NameMore(unit, run, s, n);
    var u := unit(s[n..]);
    return n + u, u == 0;
  }

  /** The loop of `parse_varname`. */
  method ParseDottedRuns(unit: Recognizer, ghost run: Recognizer, s: string) returns (n: nat)
    requires IsRunOf(unit, run, '.')
    ensures n == ListLen(run, '.', false, s)
  {
    NameStart(unit, run, s);
    n := unit(s);
    if n == 0 { return 0; }
    while n < |s|
      invariant 0 < n <= |s|
      invariant ListLen(run, '.', false, s) == NameFrom(run, s, n)
    {
      var next, done := ParseRunTurn(unit, run, s, n);
      if done { return next; }
      n := next;
    }
    NameMore(unit, run, s, n);
  }

  /** `parse_varname`. */
  method ParseVarname(s: string) returns (n: nat)
    ensures n == NameLen(s)
  {
    SpansAreRuns(VarChar, false, Units(VarChar, false), NameRun(), '.');
    n := ParseDottedRuns(Units(VarChar, false), NameRun(), s);
  }

  /** `parse_modifier`. */
  method ParseModifier(s: string) returns (n: nat)
    ensures n == ModifierLen(s)
  {
    if |s| == 0 { return 0; }
    if s[0] == '*' { return 1; }
    if s[0] == ':' {
      if |s| < 2 { return 0; }
      if s[1] < '1' || s[1] > '9' { return 0; }
      var digits := FindFirst(s[1..], NotDigit);
      if digits < 1 || digits > 4 { return 0; }
      return 1 + digits;
    }
    return 0;
  }

  ghost predicate ReadsSpec(item: Recognizer, s: string) {
    item(s) == SpecLen(NameItem(), s) <= |s|
  }

  ghost predicate ReadsSpecs(item: Recognizer) {
    forall t :: ReadsSpec(item, t)
  }

  /** `parse_varspec`. */
  method ParseVarspec(ghost item: Recognizer, s: string) returns (pos: nat)
    requires ReadsSpecs(item)
    ensures pos == item(s) <= |s|
  {
    ghost var name := NameItem();
    assert ReadsSpec(item, s);
    pos := ParseVarname(s);
    assert pos == name(s);
    if pos == 0 { return; }
    ListBound(NameRun(), '.', false, s);
    if pos < |s| && (s[pos] == ':' || s[pos] == '*') {
      var m := ParseModifier(s[pos..]);
      if m == 0 { return 0; }
      pos := pos + m;
    }
  }

  /** `parse_variable_list`. */
  method ParseVariableList(ghost item: Recognizer, s: string) returns (pos: nat)
    requires ReadsSpecs(item)
    ensures pos == VariablesLen(item, s)
  {
    pos := ParseVarspec(item, s);
    if pos == 0 { return; }
    while pos < |s| && s[pos] == ','
      invariant 0 < pos <= |s|
      invariant VariablesLen(item, s) == ListTail(item, ',', false, s, pos)
      decreases |s| - pos
    {
      ListTailStep(item, ',', false, s, pos);
      var m := ParseVarspec(item, s[pos + 1..]);
      if m == 0 { return 0; }
      pos := pos + 1 + m;
    }
  }

  lemma SpecsAreRead()
    ensures ReadsSpecs(SpecItem())
  {
    forall t ensures ReadsSpec(SpecItem(), t) {}
  }

  /** `parse_expression`. */
  method ParseExpression(ghost item: Recognizer, s: string) returns (n: nat)
    requires ReadsSpecs(item)
    ensures n == ExpressionLen(item, s)
  {
    if |s| < 2 || s[0] != '{' { return 0; }
    var pos := 1;
    if pos < |s| && IsOperator(s[pos]) { pos := pos + 1; }
    var vl := ParseVariableList(item, s[pos..]);
    if vl == 0 { return 0; }
    pos := pos + vl;
    if pos >= |s| || s[pos] != '}' { return 0; }
    return pos + 1;
  }

  ghost predicate ReadsParts(part: Recognizer) {
    forall s :: ReadsPart(part, s)
  }

  ghost predicate ReadsPart(part: Recognizer, s: string) {
    part(s) == PartLen(TextItem(), SpecItem(), s) <= |s|
  }

  lemma PartsAreRead()
    ensures ReadsParts(PartItem())
  {
    forall s ensures ReadsPart(PartItem(), s) {}
  }

  /** An expression or a run of literals. */
  method ParsePart(ghost part: Recognizer, s: string) returns (n: nat)
    requires s != [] && ReadsParts(part)
    ensures n == part(s) <= |s|
  {
    assert ReadsPart(part, s);
    if s[0] == '{' {
      SpecsAreRead();
      n := ParseExpression(SpecItem(), s);
    } else {
      LiteralsAreRuns();
      n := ParseLiteralsRun(Units(Literal, true), LiteralRun(), s);
    }
  }

  lemma LiteralsAreRuns()
    ensures IsRunOf(Units(Literal, true), LiteralRun(), '{')
  {
    SpansAreRuns(Literal, true, Units(Literal, true), LiteralRun(), '{');
  }

  /** `parse_uri_template`. */
  method ParseUriTemplate(s: string) returns (ok: bool)
    ensures ok == IsTemplate(s)
    ensures ok <==> exists parts :: AreParts(parts) && Print(parts) == s
  {
    TemplateLanguage(s);
    PartsAreRead();
    ok := ParseParts(PartItem(), s);
  }

  /** The loop of `parse_uri_template`. */
  method ParseParts(ghost part: Recognizer, s: string) returns (ok: bool)
    requires ReadsParts(part)
    ensures ok <==> Longest(part, s) == |s|
  {
    var pos := 0;
    assert s[0..] == s;
    while pos < |s|
      invariant 0 <= pos <= |s|
      invariant Longest(part, s) == pos + Longest(part, s[pos..])
    {
      var n := ParsePart(part, s[pos..]);
      LongestMove(part, s, pos);
      if n == 0 { return false; }
      pos := pos + n;
    }
    return true;
  }

  // ---------------------------------------------------------------------------------------
  // Templates and their printer
  // ---------------------------------------------------------------------------------------

  datatype Modifier = Whole | Explode | Prefix(length: nat)

  /** A variable: its dotted name as runs of variable characters, and its modifier. */
  datatype VarSpec = VarSpec(name: seq<string>, modifier: Modifier)

  datatype Part =
    | Literals(text: string)
    | Expression(operator: Option<char>, variables: seq<VarSpec>)

  function PrintModifier(m: Modifier): string {
    match m
    case Whole => ""
    case Explode => "*"
    case Prefix(n) => ":" + Decimal(n)
  }

  function PrintSpec(v: VarSpec): string {
    Join('.', v.name) + PrintModifier(v.modifier)
  }

  function PrintOperator(op: Option<char>): string {
    if op.Some? then [op.value] else ""
  }

  function PrintSpecs(vs: seq<VarSpec>): seq<string> {
    seq(|vs|, i requires 0 <= i < |vs| => PrintSpec(vs[i]))
  }

  function PrintPart(p: Part): string {
    match p
    case Literals(t) => t
    case Expression(op, vs) => "{" + PrintOperator(op) + Join(',', PrintSpecs(vs)) + "}"
  }

  function Print(parts: seq<Part>): string {
    if parts == [] then "" else PrintPart(parts[0]) + Print(parts[1..])
  }

  ghost function RunText(): string -> bool {
    t => t != [] && Star(VarChar, false, t)
  }

  ghost predicate IsSpec(v: VarSpec) {
    && v.name != [] && AllOk(RunText(), v.name)
    && (v.modifier.Prefix? ==> 1 <= v.modifier.length <= MAX_PREFIX)
  }

  ghost predicate AreSpecs(vs: seq<VarSpec>) {
    forall i :: 0 <= i < |vs| ==> IsSpec(vs[i])
  }

  ghost predicate IsPart(p: Part) {
    match p
    case Literals(t) => t != [] && Star(Literal, true, t)
    case Expression(op, vs) => (op.Some? ==> IsOperator(op.value)) && vs != [] && AreSpecs(vs)
  }

  ghost predicate AreParts(parts: seq<Part>) {
    forall i :: 0 <= i < |parts| ==> IsPart(parts[i])
  }

  // ---------------------------------------------------------------------------------------
  // Names and modifiers
  // ---------------------------------------------------------------------------------------

  predicate RunStop(c: char) { c in ".:*,}" }
  predicate SpecStop(c: char) { c == ',' || c == '}' }

  lemma RunTaken(t: string, rest: string)
    requires t != [] && Star(VarChar, false, t) && (rest == [] || RunStop(rest[0]))
    ensures Span(VarChar, false, t + rest) == |t|
  {
    RunUpTo(VarChar, false, t, rest);
  }

  lemma RunsRecognized(item: Recognizer, ok: string -> bool)
    requires item == NameRun() && ok == RunText()
    ensures Recognizes(item, ok, RunStop)
  {
    forall s ensures Finds(item, ok, s) {
      SpanSound(VarChar, false, s);
    }
    forall t, rest ensures Takes(item, ok, RunStop, t, rest) {
      if ok(t) && (rest == [] || RunStop(rest[0])) { RunTaken(t, rest); }
    }
  }

  function Power(n: nat): nat { if n == 0 then 1 else 10 * Power(n - 1) }

  /** A number of so many digits. */
  lemma {:induction false} DigitsPower(t: string)
    requires Ipv4.AllDigits(t)
    ensures Ipv4.Value(t) < Power(|t|) && (t != [] && t[0] != '0' ==> Power(|t| - 1) <= Ipv4.Value(t))
    decreases |t|
  {
    if t != [] {
      var init, d := t[..|t| - 1], DigitValue(t[|t| - 1]);
      DigitsPower(init);
      assert Ipv4.Value(t) == Ipv4.Value(init) * 10 + d;
      if init != [] { assert init[0] == t[0]; }
    }
  }

  lemma {:induction false} PowerGrows(m: nat, n: nat)
    requires m <= n
    ensures Power(m) <= Power(n)
    decreases n
  {
    if m < n { PowerGrows(m, n - 1); }
  }

  lemma DigitsBound(t: string)
    requires Ipv4.AllDigits(t) && t != [] && t[0] != '0'
    ensures |t| <= 4 <==> Ipv4.Value(t) <= MAX_PREFIX
  {
    DigitsPower(t);
    assert Power(2) == 100 && Power(4) == 10000;
    if |t| <= 4 { PowerGrows(|t|, 4); } else { PowerGrows(4, |t| - 1); }
  }

  lemma DigitsFirst(t: string, rest: string)
    requires Ipv4.AllDigits(t) && (rest == [] || NotDigit(rest[0]))
    ensures FirstOf(t + rest, NotDigit) == |t|
  {
    FirstOfSplit(t, rest, NotDigit);
  }

  lemma ModifierTaken(m: Modifier, rest: string)
    requires !m.Whole? && (m.Prefix? ==> 1 <= m.length <= MAX_PREFIX)
    requires rest == [] || NotDigit(rest[0])
    ensures var t := PrintModifier(m); OpensModifier(t + rest) && ModifierLen(t + rest) == |t| > 0
  {
    if m.Prefix? {
      var digits := Decimal(m.length);
      Ipv4.DecimalValue(m.length);
      DigitsBound(digits);
      var s := ":" + digits + rest;
      assert s[1..] == digits + rest;
      DigitsFirst(digits, rest);
    }
  }

  lemma ModifierSound(s: string) returns (m: Modifier)
    requires OpensModifier(s) && ModifierLen(s) > 0
    ensures ModifierLen(s) <= |s| && PrintModifier(m) == s[..ModifierLen(s)]
    ensures m.Prefix? ==> 1 <= m.length <= MAX_PREFIX
  {
    if s[0] == '*' {
      m := Explode;
    } else {
      var digits := s[1..ModifierLen(s)];
      assert digits == s[1..][..ModifierLen(s) - 1];
      assert digits[0] == s[1];
      m := Prefix(Ipv4.Value(digits));
      Ipv4.ValueDecimal(digits);
      DigitsBound(digits);
      assert s[..ModifierLen(s)] == ":" + digits;
    }
  }

  // ---------------------------------------------------------------------------------------
  // Variables
  // ---------------------------------------------------------------------------------------

  ghost predicate Prints(v: VarSpec, t: string) { IsSpec(v) && PrintSpec(v) == t }

  ghost function SpecText(): string -> bool {
    t => exists v :: Prints(v, t)
  }

  ghost predicate IsName(name: seq<string>, t: string) {
    name != [] && AllOk(RunText(), name) && t == Join('.', name)
  }

  ghost function NameText(): string -> bool {
    t => exists name :: IsName(name, t)
  }

  predicate NameStop(c: char) { c in ":*,}" }

  lemma NameTaken(t: string, name: seq<string>, rest: string)
    requires IsName(name, t) && (rest == [] || NameStop(rest[0]))
    ensures t != [] && NameLen(t + rest) == |t|
  {
    RunsRecognized(NameRun(), RunText());
    ListComplete(NameRun(), RunText(), RunStop, '.', false, name, rest);
  }

  lemma NameFound(s: string)
    requires NameLen(s) > 0
    ensures NameLen(s) <= |s| && NameText()(s[..NameLen(s)])
  {
    RunsRecognized(NameRun(), RunText());
    var name, final := ListSound(NameRun(), RunText(), RunStop, '.', false, s);
    assert IsName(name, s[..NameLen(s)]);
  }

  lemma NamesRecognized()
    ensures Recognizes(NameItem(), NameText(), NameStop)
  {
    var item, ok := NameItem(), NameText();
    forall s ensures Finds(item, ok, s) {
      if item(s) > 0 { NameFound(s); }
    }
    forall t, rest ensures Takes(item, ok, NameStop, t, rest) {
      if ok(t) && (rest == [] || NameStop(rest[0])) {
        var name :| IsName(name, t);
        NameTaken(t, name, rest);
      }
    }
  }

  ghost predicate IsModifier(m: Modifier) {
    m.Prefix? ==> 1 <= m.length <= MAX_PREFIX
  }

  /** A name and a modifier at the front of a string. */
  lemma SpecSplit(item: Recognizer, ok: string -> bool, s: string) returns (n: nat, m: Modifier)
    requires Recognizes(item, ok, NameStop) && SpecLen(item, s) > 0
    ensures n <= SpecLen(item, s) <= |s| && ok(s[..n]) && IsModifier(m)
    ensures s[..SpecLen(item, s)] == s[..n] + PrintModifier(m)
  {
    n, m := item(s), Whole;
    assert Finds(item, ok, s);
    if OpensModifier(s[n..]) {
      m := ModifierSound(s[n..]);
      assert s[..SpecLen(item, s)] == s[..n] + s[n..][..SpecLen(item, s) - n];
    }
  }

  lemma SpecJoin(item: Recognizer, ok: string -> bool, name: string, tail: string)
    requires Recognizes(item, ok, NameStop) && ok(name) && (tail == [] || NameStop(tail[0]))
    ensures name != []
    ensures var m := ModifierLen(tail);
      SpecLen(item, name + tail) == if !OpensModifier(tail) then |name| else if m == 0 then 0 else |name| + m
  {
    assert Takes(item, ok, NameStop, name, tail);
    assert (name + tail)[|name|..] == tail;
  }

  lemma ModifierTail(m: Modifier, rest: string)
    requires IsModifier(m) && (rest == [] || SpecStop(rest[0]))
    ensures var tail := PrintModifier(m) + rest;
      && (tail == [] || NameStop(tail[0]))
      && (OpensModifier(tail) <==> !m.Whole?)
      && (!m.Whole? ==> ModifierLen(tail) == |PrintModifier(m)| > 0)
  {
    if !m.Whole? { ModifierTaken(m, rest); }
  }

  lemma SpecSound(item: Recognizer, s: string) returns (v: VarSpec)
    requires Recognizes(item, NameText(), NameStop) && SpecLen(item, s) > 0
    ensures SpecLen(item, s) <= |s| && Prints(v, s[..SpecLen(item, s)])
  {
    var n, m := SpecSplit(item, NameText(), s);
    var name := NameOf(s[..n]);
    v := VarSpec(name, m);
  }

  lemma NameOf(t: string) returns (name: seq<string>)
    requires NameText()(t)
    ensures IsName(name, t)
  {
    name :| IsName(name, t);
  }

  lemma NameIsText(name: seq<string>)
    requires name != [] && AllOk(RunText(), name)
    ensures NameText()(Join('.', name))
  {
    assert IsName(name, Join('.', name));
  }

  lemma SpecTaken(item: Recognizer, ok: string -> bool, v: VarSpec, rest: string)
    requires Recognizes(item, ok, NameStop) && ok(Join('.', v.name)) && IsModifier(v.modifier)
    requires rest == [] || SpecStop(rest[0])
    ensures PrintSpec(v) != [] && SpecLen(item, PrintSpec(v) + rest) == |PrintSpec(v)|
  {
    var name, tail := Join('.', v.name), PrintModifier(v.modifier) + rest;
    ModifierTail(v.modifier, rest);
    SpecJoin(item, ok, name, tail);
    assert PrintSpec(v) + rest == name + tail;
  }

  lemma SpecFound(s: string)
    requires SpecLen(NameItem(), s) > 0
    ensures var n := SpecLen(NameItem(), s); n <= |s| && SpecText()(s[..n])
  {
    NamesRecognized();
    var v := SpecSound(NameItem(), s);
    assert Prints(v, s[..SpecLen(NameItem(), s)]);
  }

  lemma SpecsRecognized(item: Recognizer, ok: string -> bool)
    requires item == SpecItem() && ok == SpecText()
    ensures Recognizes(item, ok, SpecStop)
  {
    forall s ensures Finds(item, ok, s) {
      if item(s) > 0 { SpecFound(s); }
    }
    forall t, rest ensures Takes(item, ok, SpecStop, t, rest) {
      if ok(t) && (rest == [] || SpecStop(rest[0])) {
        var v :| Prints(v, t);
        NamesRecognized();
        NameIsText(v.name);
        SpecTaken(NameItem(), NameText(), v, rest);
      }
    }
  }

  lemma {:induction false} SpecsOf(texts: seq<string>) returns (vs: seq<VarSpec>)
    requires AllOk(SpecText(), texts)
    ensures AreSpecs(vs) && PrintSpecs(vs) == texts
    decreases |texts|
  {
    if texts == [] {
      vs := [];
    } else {
      assert SpecText()(texts[0]);
      var v := SpecOf(texts[0]);
      var more := SpecsOf(texts[1..]);
      vs := [v] + more;
      PrintCons(v, more);
      assert texts == [texts[0]] + texts[1..];
    }
  }

  lemma SpecOf(t: string) returns (v: VarSpec)
    requires SpecText()(t)
    ensures Prints(v, t)
  {
    v :| Prints(v, t);
  }

  lemma PrintCons(v: VarSpec, vs: seq<VarSpec>)
    ensures PrintSpecs([v] + vs) == [PrintSpec(v)] + PrintSpecs(vs)
  {
  }

  lemma PrintedAreOk(vs: seq<VarSpec>)
    requires AreSpecs(vs)
    ensures AllOk(SpecText(), PrintSpecs(vs))
  {
    forall i | 0 <= i < |vs| ensures SpecText()(PrintSpecs(vs)[i]) {
      assert Prints(vs[i], PrintSpecs(vs)[i]);
    }
  }

  // ---------------------------------------------------------------------------------------
  // Expressions
  // ---------------------------------------------------------------------------------------

  ghost predicate IsReader(item: Recognizer) { Recognizes(item, SpecText(), SpecStop) }

  lemma VariablesSound(item: Recognizer, s: string) returns (vs: seq<VarSpec>)
    requires IsReader(item) && VariablesLen(item, s) > 0
    ensures var n := VariablesLen(item, s);
            n <= |s| && vs != [] && AreSpecs(vs) && s[..n] == Join(',', PrintSpecs(vs))
  {
    var texts, final := ListSound(item, SpecText(), SpecStop, ',', false, s);
    vs := SpecsOf(texts);
  }

  lemma VariablesTaken(item: Recognizer, vs: seq<VarSpec>, rest: string)
    requires IsReader(item) && AreSpecs(vs) && vs != [] && rest != [] && rest[0] == '}'
    ensures var t := Join(',', PrintSpecs(vs)); t != [] && VariablesLen(item, t + rest) == |t|
  {
    PrintedAreOk(vs);
    ListComplete(item, SpecText(), SpecStop, ',', false, PrintSpecs(vs), rest);
  }

  /** A variable starts with no operator. */
  lemma VariableStart(vs: seq<VarSpec>)
    requires AreSpecs(vs) && vs != []
    ensures var t := Join(',', PrintSpecs(vs)); t != [] && !IsOperator(t[0])
  {
    var run := vs[0].name[0];
    assert RunText()(run);
    var n := StarHead(VarChar, false, run);
    assert !IsOperator(run[0]);
    assert PrintSpec(vs[0])[0] == run[0];
    assert Join(',', PrintSpecs(vs))[0] == PrintSpec(vs[0])[0];
  }

  lemma ExpressionSound(item: Recognizer, s: string) returns (p: Part)
    requires IsReader(item) && ExpressionLen(item, s) > 0
    ensures ExpressionLen(item, s) <= |s|
    ensures p.Expression? && IsPart(p) && PrintPart(p) == s[..ExpressionLen(item, s)]
  {
    var op, m := ExpressionSplit(item, s);
    var at := 1 + |PrintOperator(op)|;
    var vs := VariablesSound(item, s[at..]);
    p := Expression(op, vs);
    Braced(s, op, m);
  }

  lemma ExpressionSplit(item: Recognizer, s: string) returns (op: Option<char>, m: nat)
    requires ExpressionLen(item, s) > 0
    ensures op.Some? ==> |s| > 1 && IsOperator(op.value) && s[1] == op.value
    ensures var at := 1 + |PrintOperator(op)|;
      && at + m < |s| && s[0] == '{' && s[at + m] == '}'
      && 0 < m == VariablesLen(item, s[at..]) && ExpressionLen(item, s) == at + m + 1
  {
    op := OperatorOf(s);
    m := VariablesLen(item, s[1 + |PrintOperator(op)|..]);
  }

  function OperatorOf(s: string): (op: Option<char>)
    requires |s| > 1
    ensures |PrintOperator(op)| == OperatorLen(s) && (op.Some? ==> IsOperator(op.value) && op.value == s[1])
  {
    if IsOperator(s[1]) then Some(s[1]) else None
  }

  lemma Braced(s: string, op: Option<char>, m: nat)
    requires var at := 1 + |PrintOperator(op)|;
      at + m < |s| && s[0] == '{' && s[at + m] == '}' && (op.Some? ==> s[1] == op.value)
    ensures var at := 1 + |PrintOperator(op)|;
      s[..at + m + 1] == "{" + PrintOperator(op) + s[at..][..m] + "}"
  {
    var at := 1 + |PrintOperator(op)|;
    assert s[..at] == "{" + PrintOperator(op);
    assert s[..at + m + 1] == s[..at] + s[at..][..m] + "}";
  }

  lemma ExpressionTaken(item: Recognizer, p: Part, rest: string)
    requires IsReader(item) && p.Expression? && IsPart(p)
    ensures var t := PrintPart(p); |t| > 0 && t[0] == '{' && ExpressionLen(item, t + rest) == |t|
  {
    var list := Join(',', PrintSpecs(p.variables));
    VariableStart(p.variables);
    VariablesTaken(item, p.variables, "}" + rest);
    BracesTaken(item, p.operator, list, rest);
  }

  lemma BracesTaken(item: Recognizer, op: Option<char>, list: string, rest: string)
    requires (op.Some? ==> IsOperator(op.value)) && list != [] && !IsOperator(list[0])
    requires VariablesLen(item, list + ("}" + rest)) == |list|
    ensures var t := "{" + PrintOperator(op) + list + "}"; ExpressionLen(item, t + rest) == |t|
  {
    var head, tail := "{" + PrintOperator(op), list + ("}" + rest);
    var s := "{" + PrintOperator(op) + list + "}" + rest;
    assert s == head + tail;
    assert OperatorLen(s) == |PrintOperator(op)| by {
      assert s[1] == if op.Some? then op.value else list[0];
    }
    assert s[|head|..] == tail;
    assert s[|head| + |list|] == tail[|list|];
  }

  // ---------------------------------------------------------------------------------------
  // Templates
  // ---------------------------------------------------------------------------------------

  lemma PartAhead(p: Part, more: seq<Part>)
    requires IsPart(p) && AreParts(more)
    ensures AreParts([p] + more) && Print([p] + more) == PrintPart(p) + Print(more)
  {
    assert ([p] + more)[1..] == more;
  }

  ghost predicate Spelled(p: Part, t: string) { IsPart(p) && PrintPart(p) == t }

  ghost predicate FindsPart(part: Recognizer, s: string) {
    var n := part(s);
    0 < n ==> n <= |s| && exists p :: Spelled(p, s[..n])
  }

  predicate AtBrace(s: string) { s == [] || s[0] == '{' }

  /** Literals in front of a template join the literals it starts with. */
  ghost predicate JoinsText(part: Recognizer, t: string, rest: string) {
    t != [] && Star(Literal, true, t) && (AtBrace(rest) || part(rest) > 0) ==>
      part(t + rest) == |t| + if AtBrace(rest) then 0 else part(rest)
  }

  ghost predicate TakesExpression(part: Recognizer, p: Part, rest: string) {
    p.Expression? && IsPart(p) ==> PrintPart(p) != [] && part(PrintPart(p) + rest) == |PrintPart(p)|
  }

  ghost predicate IsPartReader(part: Recognizer) {
    && (forall s :: FindsPart(part, s))
    && (forall t, rest :: JoinsText(part, t, rest))
    && (forall p, rest :: TakesExpression(part, p, rest))
  }

  lemma LiteralStart(t: string)
    requires t != [] && Star(Literal, true, t)
    ensures t[0] != '{'
  {
    var u := StarHead(Literal, true, t);
  }

  lemma LiteralsJoin(run: Recognizer, t: string, rest: string)
    requires run(t + rest) == |t| + run(rest) && (AtBrace(rest) ==> run(rest) == 0)
    requires AtBrace(rest) || LiteralsLen(run, rest) > 0
    ensures LiteralsLen(run, t + rest) == |t| + if AtBrace(rest) then 0 else LiteralsLen(run, rest)
  {
    var n := run(rest);
    assert n < |rest| ==> (t + rest)[|t| + n] == rest[n];
  }

  lemma SpanJoin(t: string, rest: string)
    requires Star(Literal, true, t)
    ensures var run := LiteralRun(); run(t + rest) == |t| + run(rest) && (AtBrace(rest) ==> run(rest) == 0)
  {
    SpanComplete(Literal, true, t, rest);
    if AtBrace(rest) { NoStart(Literal, true, rest); }
  }

  lemma TextJoins(t: string, rest: string)
    requires t != [] && Star(Literal, true, t) && (AtBrace(rest) || TextItem()(rest) > 0)
    ensures (t + rest)[0] != '{' && TextItem()(t + rest) == |t| + if AtBrace(rest) then 0 else TextItem()(rest)
  {
    LiteralStart(t);
    SpanJoin(t, rest);
    LiteralsJoin(LiteralRun(), t, rest);
  }

  lemma PartFound(part: Recognizer, s: string)
    requires part == PartItem() && IsReader(SpecItem())
    ensures FindsPart(part, s)
  {
    var n := part(s);
    if n > 0 {
      if s[0] == '{' {
        var p := ExpressionSound(SpecItem(), s);
        assert Spelled(p, s[..n]);
      } else {
        SpanSound(Literal, true, s);
        assert Spelled(Literals(s[..n]), s[..n]);
      }
    }
  }

  lemma PartsRecognized(part: Recognizer)
    requires part == PartItem()
    ensures IsPartReader(part)
  {
    SpecsRecognized(SpecItem(), SpecText());
    forall s ensures FindsPart(part, s) { PartFound(part, s); }
    forall t, rest ensures JoinsText(part, t, rest) {
      if t != [] && Star(Literal, true, t) && (AtBrace(rest) || part(rest) > 0) { TextJoins(t, rest); }
    }
    forall p: Part, rest ensures TakesExpression(part, p, rest) {
      if p.Expression? && IsPart(p) { ExpressionTaken(SpecItem(), p, rest); }
    }
  }

  lemma {:induction false} TemplateSound(part: Recognizer, s: string) returns (parts: seq<Part>)
    requires IsPartReader(part) && Longest(part, s) == |s|
    ensures AreParts(parts) && Print(parts) == s
    decreases |s|
  {
    if s == [] {
      parts := [];
    } else {
      var n := part(s);
      assert FindsPart(part, s);
      var p :| Spelled(p, s[..n]);
      var more := TemplateSound(part, s[n..]);
      parts := [p] + more;
      PartAhead(p, more);
      assert s == s[..n] + s[n..];
    }
  }

  lemma LiteralsTaken(part: Recognizer, t: string, rest: string)
    requires t != [] && Longest(part, rest) == |rest|
    requires part(t + rest) == |t| + if AtBrace(rest) then 0 else part(rest)
    ensures Longest(part, t + rest) == |t + rest|
  {
    var s := t + rest;
    if AtBrace(rest) {
      assert s[|t|..] == rest;
    } else {
      var m := part(rest);
      assert s[|t| + m..] == rest[m..];
    }
  }

  lemma {:induction false} TemplateComplete(part: Recognizer, parts: seq<Part>)
    requires IsPartReader(part) && AreParts(parts)
    ensures var s := Print(parts); Longest(part, s) == |s|
    decreases |parts|
  {
    if parts != [] {
      var p, rest := parts[0], Print(parts[1..]);
      TemplateComplete(part, parts[1..]);
      if p.Literals? {
        assert JoinsText(part, p.text, rest);
        LiteralsTaken(part, p.text, rest);
      } else {
        assert TakesExpression(part, p, rest);
        assert (PrintPart(p) + rest)[|PrintPart(p)|..] == rest;
      }
    }
  }

  /**
   Exactly the printed forms of templates are accepted, although a name gives up at a dot that no
   variable character follows and a prefix at its fifth digit.
   */
  lemma TemplateLanguage(s: string)
    ensures IsTemplate(s) <==> exists parts :: AreParts(parts) && Print(parts) == s
  {
    PartsRecognized(PartItem());
    if IsTemplate(s) {
      var parts := TemplateSound(PartItem(), s);
    }
    if parts :| AreParts(parts) && Print(parts) == s { TemplateComplete(PartItem(), parts); }
  }
}
