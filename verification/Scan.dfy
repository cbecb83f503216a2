/**
 Runs of characters. Each recognizer consumes runs of some class of characters, where a character
 is an ASCII byte, a percent-encoded triple, an escape pair or a UTF-8 sequence. The classes are
 those of RFC 3986, 5322, 5321, 1123, 6570 and 6901; `Unit` is the greedy test of the source and
 `UnitText`, `Star` are the grammar.
 */
module Scan {
  import opened Bytes
  import opened Greedy
  import opened Utf8

  datatype Class =
    | PChar | PCharNoColon | RegChar | UserChar | QueryChar
    | AText | QContent | DContent
    | LabelChar
    | Literal | VarChar
    | PointerChar

  predicate IsUnreserved(c: char) { IsAlpha(c) || IsDigit(c) || c in "-._~" }
  predicate IsSubDelim(c: char) { c in "!$&'()*+,;=" }
  predicate IsVChar(c: char) { 0x21 <= c as int <= 0x7E }
  predicate IsWsp(c: char) { c == ' ' || c == '\t' }

  /** The single ASCII bytes of a class. */
  predicate IsPlain(k: Class, c: char) {
    match k
    case PChar => IsUnreserved(c) || IsSubDelim(c) || c == ':' || c == '@'
    case PCharNoColon => IsUnreserved(c) || IsSubDelim(c) || c == '@'
    case RegChar => IsUnreserved(c) || IsSubDelim(c)
    case UserChar => IsUnreserved(c) || IsSubDelim(c) || c == ':'
    case QueryChar => IsUnreserved(c) || IsSubDelim(c) || c in ":@/?"
    case AText => IsAlpha(c) || IsDigit(c) || c in "!#$%&'*+-/=?^_`{|}~"
    case QContent => c as int == 33 || 35 <= c as int <= 91 || 93 <= c as int <= 126 || IsWsp(c)
    case DContent => 33 <= c as int <= 90 || 94 <= c as int <= 126
    case LabelChar => IsAlpha(c) || IsDigit(c) || c == '-'
    case Literal =>
      var b := c as int;
      b == 0x21 || 0x23 <= b <= 0x24 || b == 0x26 || 0x28 <= b <= 0x3B || b == 0x3D || 0x3F <= b <= 0x5B
      || b == 0x5D || b == 0x5F || 0x61 <= b <= 0x7A || b == 0x7E
    case VarChar => IsAlpha(c) || IsDigit(c) || c == '_'
    case PointerChar => IsAscii(c) && c != '/' && c != '~'
  }

  predicate HasPct(k: Class) {
    k in {PChar, PCharNoColon, RegChar, UserChar, QueryChar, Literal, VarChar}
  }

  /** Whether a class takes non-ASCII UTF-8 sequences, given the recognizer's flag. */
  predicate IsWide(k: Class, utf8: bool) {
    match k
    case Literal | PointerChar => true
    case VarChar => false
    case _ => utf8
  }

  predicate StartsPct(s: string) { |s| >= 3 && s[0] == '%' && IsHex(s[1]) && IsHex(s[2]) }

  /** A backslash pair of a quoted string, or a tilde escape of a JSON Pointer. */
  predicate StartsPair(k: Class, s: string) {
    && |s| >= 2
    && ((k.QContent? && s[0] == '\\' && (IsVChar(s[1]) || IsWsp(s[1])))
        || (k.PointerChar? && s[0] == '~' && (s[1] == '0' || s[1] == '1')))
  }

  predicate IsPct(t: string) { |t| == 3 && StartsPct(t) }
  predicate IsPair(k: Class, t: string) { |t| == 2 && StartsPair(k, t) }

  /** Bytes taken by the character of the class at the front, or 0. */
  function Unit(k: Class, utf8: bool, s: string): nat {
    if s == [] then 0
    else if IsAscii(s[0]) then
      if s[0] == '%' && HasPct(k) then if StartsPct(s) then 3 else 0
      else if s[0] == '\\' && k.QContent? then if StartsPair(k, s) then 2 else 0
      else if s[0] == '~' && k.PointerChar? then if StartsPair(k, s) then 2 else 0
      else if IsPlain(k, s[0]) then 1 else 0
    else if IsWide(k, utf8) then SeqLen(s)
    else 0
  }

  // ---------------------------------------------------------------------------------------
  // The grammar of a character and of a run
  // ---------------------------------------------------------------------------------------

  ghost predicate UnitText(k: Class, utf8: bool, t: string) {
    || (|t| == 1 && IsAscii(t[0]) && IsPlain(k, t[0]))
    || (HasPct(k) && IsPct(t))
    || IsPair(k, t)
    || (IsWide(k, utf8) && exists v :: v >= 0x80 && IsEncoding(t, v))
  }

  function Units(k: Class, utf8: bool): Recognizer { s => Unit(k, utf8, s) }
  ghost function Texts(k: Class, utf8: bool): string -> bool { t => UnitText(k, utf8, t) }

  /** Zero or more characters of the class. */
  ghost predicate Star(k: Class, utf8: bool, s: string) { Repeated(Texts(k, utf8), s) }

  /** Length of the longest run a greedy loop takes. */
  function Span(k: Class, utf8: bool, s: string): (n: nat)
    ensures n <= |s|
  {
    Longest(Units(k, utf8), s)
  }

  /** The greedy test takes a grammatical character, and recognizes every one whatever follows. */
  lemma UnitSound(k: Class, utf8: bool, s: string)
    requires Unit(k, utf8, s) > 0
    ensures Unit(k, utf8, s) <= |s| && UnitText(k, utf8, s[..Unit(k, utf8, s)])
  {
    if IsAscii(s[0]) {
      AsciiSound(k, utf8, s);
    } else {
      AcceptedIsEncoded(s);
      assert IsEncoding(s[..SeqLen(s)], Decode(s));
      assert Decode(s) >= 0x80;
    }
  }

  lemma AsciiSound(k: Class, utf8: bool, s: string)
    requires Unit(k, utf8, s) > 0 && IsAscii(s[0])
    ensures Unit(k, utf8, s) <= |s| && UnitText(k, utf8, s[..Unit(k, utf8, s)])
  {
    var u := Unit(k, utf8, s);
    if u == 1 { assert s[..1] == [s[0]]; }
  }

  lemma UnitComplete(k: Class, utf8: bool, t: string, rest: string)
    requires UnitText(k, utf8, t)
    ensures t != [] && Unit(k, utf8, t + rest) == |t|
  {
    var s := t + rest;
    if |t| == 1 && IsAscii(t[0]) && IsPlain(k, t[0]) {
    } else if HasPct(k) && IsPct(t) {
      assert StartsPct(s);
    } else if IsPair(k, t) {
      assert StartsPair(k, s);
    } else {
      var v :| v >= 0x80 && IsEncoding(t, v);
      EncodedIsAccepted(v, rest);
    }
  }

  lemma UnitsAreTexts(k: Class, utf8: bool)
    ensures IsUnitOf(Units(k, utf8), Texts(k, utf8))
  {
    forall s ensures FindsUnit(Units(k, utf8), Texts(k, utf8), s) {
      if Unit(k, utf8, s) > 0 { UnitSound(k, utf8, s); }
    }
    forall t, rest ensures TakesUnit(Units(k, utf8), Texts(k, utf8), t, rest) {
      if UnitText(k, utf8, t) { UnitComplete(k, utf8, t, rest); }
    }
  }

  // ---------------------------------------------------------------------------------------
  // Runs of a class
  // ---------------------------------------------------------------------------------------

  method ParseRun(k: Class, utf8: bool, s: string) returns (n: nat)
    ensures n == Span(k, utf8, s)
  {
    UnitsAreTexts(k, utf8);
    n := ParseLongest(Units(k, utf8), Texts(k, utf8), s);
  }

  /** A recognizer that is the greedy run of a class. */
  ghost predicate IsRun(run: Recognizer, k: Class, utf8: bool) {
    forall s :: ReadsRun(run, k, utf8, s)
  }

  ghost predicate ReadsRun(run: Recognizer, k: Class, utf8: bool, s: string) {
    run(s) == Span(k, utf8, s)
  }

  method ParseRunAs(k: Class, ghost run: Recognizer, s: string, utf8: bool) returns (n: nat)
    requires IsRun(run, k, utf8)
    ensures n == run(s) <= |s|
  {
    assert ReadsRun(run, k, utf8, s);
    n := ParseRun(k, utf8, s);
  }

  /** What a greedy loop takes is a run, and no character follows it. */
  lemma SpanSound(k: Class, utf8: bool, s: string)
    ensures var n := Span(k, utf8, s);
            Star(k, utf8, s[..n]) && Unit(k, utf8, s[n..]) == 0
  {
    UnitsAreTexts(k, utf8);
    LongestSound(Units(k, utf8), Texts(k, utf8), s);
  }

  lemma StarHead(k: Class, utf8: bool, s: string) returns (n: nat)
    requires Star(k, utf8, s) && s != []
    ensures 0 < n == Unit(k, utf8, s) <= |s| && Star(k, utf8, s[n..])
  {
    UnitsAreTexts(k, utf8);
    n := RepeatedHead(Units(k, utf8), Texts(k, utf8), s);
  }

  /** A greedy loop takes all of a run and then goes on with what follows. */
  lemma SpanComplete(k: Class, utf8: bool, a: string, b: string)
    requires Star(k, utf8, a)
    ensures Span(k, utf8, a + b) == |a| + Span(k, utf8, b)
  {
    UnitsAreTexts(k, utf8);
    LongestComplete(Units(k, utf8), Texts(k, utf8), a, b);
  }

  /** A string is a run exactly when a greedy loop consumes it. */
  lemma StarIsSpan(k: Class, utf8: bool, s: string)
    ensures Star(k, utf8, s) <==> Span(k, utf8, s) == |s|
  {
    SpanSound(k, utf8, s);
    assert s[..|s|] == s;
    if Star(k, utf8, s) {
      SpanComplete(k, utf8, s, []);
      assert s + [] == s;
    }
  }

  /** Plain characters are a run. */
  lemma {:induction false} PlainRun(k: Class, utf8: bool, s: string)
    requires forall i :: 0 <= i < |s| ==> IsAscii(s[i]) && IsPlain(k, s[i]) && s[i] !in "%~\\"
    ensures Star(k, utf8, s) && Span(k, utf8, s) == |s|
    decreases |s|
  {
    if s != [] {
      PlainRun(k, utf8, s[1..]);
      assert Unit(k, utf8, s) == 1;
    }
    StarIsSpan(k, utf8, s);
  }

  /** A run up to a byte that starts no character of the class is the greedy run. */
  lemma RunUpTo(k: Class, utf8: bool, a: string, b: string)
    requires Star(k, utf8, a)
    requires b == [] || Unit(k, utf8, b) == 0
    ensures Span(k, utf8, a + b) == |a|
  {
    SpanComplete(k, utf8, a, b);
  }

  /** The first byte of a character. */
  predicate MayStart(k: Class, utf8: bool, c: char) {
    if IsAscii(c) then
      IsPlain(k, c) || (c == '%' && HasPct(k)) || (c == '\\' && k.QContent?) || (c == '~' && k.PointerChar?)
    else IsWide(k, utf8)
  }

  /** No character starts at the end or at a byte that starts none. */
  lemma NoStart(k: Class, utf8: bool, s: string)
    requires s == [] || !MayStart(k, utf8, s[0])
    ensures Unit(k, utf8, s) == 0 && Span(k, utf8, s) == 0
  {
  }

  lemma SpansAreRuns(k: Class, utf8: bool, unit: Recognizer, run: Recognizer, stop: char)
    requires unit == Units(k, utf8) && IsRun(run, k, utf8)
    requires IsAscii(stop) && !MayStart(k, utf8, stop)
    ensures IsRunOf(unit, run, stop)
  {
    forall s, pos: nat | pos <= |s| ensures Repeats(unit, run, s, pos) {
      SpanRepeats(k, utf8, unit, run, s, pos);
    }
    forall s: string ensures StopsAt(unit, stop, s) {
      if s == [] || s[0] == stop { NoStart(k, utf8, s); }
    }
  }

  lemma SpanRepeats(k: Class, utf8: bool, unit: Recognizer, run: Recognizer, s: string, pos: nat)
    requires unit == Units(k, utf8) && IsRun(run, k, utf8) && pos <= |s|
    ensures Repeats(unit, run, s, pos)
  {
    UnitsAreTexts(k, utf8);
    LongestRepeats(unit, Texts(k, utf8), s, pos);
    RunIsLongest(run, k, utf8, unit, s[pos..]);
    RunIsLongest(run, k, utf8, unit, s[pos + unit(s[pos..])..]);
  }

  lemma RunIsLongest(run: Recognizer, k: Class, utf8: bool, unit: Recognizer, s: string)
    requires IsRun(run, k, utf8) && unit == Units(k, utf8)
    ensures run(s) == Longest(unit, s)
  {
    assert ReadsRun(run, k, utf8, s);
  }

  /** Every ASCII byte of a run is one the class allows somewhere in a character. */
  predicate MayOccur(k: Class, c: char) {
    IsPlain(k, c) || (HasPct(k) && (c == '%' || IsHex(c)))
    || (k.QContent? && (c == '\\' || IsVChar(c) || IsWsp(c)))
    || (k.PointerChar? && c in "~01")
  }

  lemma UnitBytes(k: Class, utf8: bool, t: string)
    requires UnitText(k, utf8, t)
    ensures forall i :: 0 <= i < |t| && IsAscii(t[i]) ==> MayOccur(k, t[i])
  {
    if IsWide(k, utf8) && exists v :: v >= 0x80 && IsEncoding(t, v) {
      var v :| v >= 0x80 && IsEncoding(t, v);
      assert forall i :: 0 <= i < |t| ==> t[i] as int >= 0x80;
    }
  }

  lemma RunBytes(k: Class, utf8: bool, s: string)
    requires Star(k, utf8, s)
    ensures forall i :: 0 <= i < |s| && IsAscii(s[i]) ==> MayOccur(k, s[i])
  {
    var holds := (c: char) => IsAscii(c) ==> MayOccur(k, c);
    forall t ensures AllHold(Texts(k, utf8), holds, t) {
      if UnitText(k, utf8, t) { UnitBytes(k, utf8, t); }
    }
    RepeatedBytes(Texts(k, utf8), holds, s);
    forall i | 0 <= i < |s| && IsAscii(s[i]) ensures MayOccur(k, s[i]) {
      assert holds(s[i]);
    }
  }

  /** On ASCII bytes the flag makes no difference. */
  lemma AsciiSpan(k: Class, s: string)
    requires forall i :: 0 <= i < |s| ==> IsAscii(s[i])
    ensures Span(k, true, s) == Span(k, false, s)
  {
    forall i: nat | i <= |s| ensures SameUnit(Units(k, true), Units(k, false), s[i..]) {
      AsciiUnit(k, s[i..]);
    }
    SameLongest(Units(k, true), Units(k, false), s);
  }

  lemma AsciiUnit(k: Class, s: string)
    requires s != [] ==> IsAscii(s[0])
    ensures Unit(k, true, s) == Unit(k, false, s)
  {
  }
}
