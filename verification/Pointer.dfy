/**
 JSON Pointers (sections 3 and 4 of RFC 6901): the recognizer, the tokens of a pointer, and the
 literal path into which a `$ref` to it is decoded.
 */
module Pointer {
  import opened Bytes
  import opened Utf8
  import opened Greedy
  import opened Scan
  import opened Separated
  import opened Slashes
  import opened RefDecoder

  // ---------------------------------------------------------------------------------------
  // Tokens and their spelling
  // ---------------------------------------------------------------------------------------

  function EscapeChar(c: char): string {
    if c == '~' then "~0" else if c == '/' then "~1" else [c]
  }

  function Escape(token: string): string {
    if token == [] then [] else EscapeChar(token[0]) + Escape(token[1..])
  }

  /** The pointer that names a list of tokens. */
  function Print(tokens: seq<string>): string {
    if tokens == [] then [] else "/" + Escape(tokens[0]) + Print(tokens[1..])
  }

  /** A token whose spelling is well-formed UTF-8. */
  ghost predicate IsToken(token: string) {
    Star(PointerChar, true, Escape(token))
  }

  ghost predicate AllTokens(tokens: seq<string>) { forall t :: t in tokens ==> IsToken(t) }

  ghost predicate Names(tokens: seq<string>, s: string) {
    s == Print(tokens) && AllTokens(tokens)
  }

  // ---------------------------------------------------------------------------------------
  // The recognizer
  // ---------------------------------------------------------------------------------------

  function TokenRun(): Recognizer {
    s => Span(PointerChar, true, s)
  }

  /** Slashes and runs of token characters, to the end. */
  predicate IsPointer(s: string) { SlashedLen(TokenRun(), s) == |s| }

  /** `parse_json_pointer`. */
  method ParseJsonPointer(s: string) returns (ok: bool)
    ensures ok == IsPointer(s)
    ensures ok <==> exists tokens :: Names(tokens, s)
  {
    PointerLanguage(s);
    TokensAreRuns();
    ok := ParseTokens(Units(PointerChar, true), TokenRun(), s);
  }

  lemma TokensAreRuns()
    ensures IsRun(TokenRun(), PointerChar, true)
    ensures IsRunOf(Units(PointerChar, true), TokenRun(), '/')
  {
    forall s ensures ReadsRun(TokenRun(), PointerChar, true, s) {}
    SpansAreRuns(PointerChar, true, Units(PointerChar, true), TokenRun(), '/');
  }

  /** The loop of `parse_json_pointer`. */
  method ParseTokens(unit: Recognizer, ghost run: Recognizer, s: string) returns (ok: bool)
    requires IsRunOf(unit, run, '/')
    ensures ok <==> SlashedLen(run, s) == |s|
  {
    var pos := 0;
    assert s[0..] == s;
    while pos < |s|
      invariant pos <= |s|
      invariant SlashedLen(run, s) == pos + SlashedLen(run, s[pos..])
    {
      var stopped, next := ParseTurn(unit, run, s, pos);
      if stopped { return false; }
      pos := next;
    }
    return true;
  }

  /** A turn of the loop: a slash and the characters up to the next one, unless a byte starts none. */
  method ParseTurn(unit: Recognizer, ghost run: Recognizer, s: string, pos: nat) returns (stopped: bool, next: nat)
    requires IsRunOf(unit, run, '/') && pos < |s|
    ensures stopped ==> pos + SlashedLen(run, s[pos..]) < |s|
    ensures !stopped ==> pos < next <= |s|
    ensures !stopped ==> pos + SlashedLen(run, s[pos..]) == next + SlashedLen(run, s[next..])
  {
    SlashStep(run, s, pos);
    if s[pos] != '/' { return true, pos; }
    var n := ParseUntil(unit, run, '/', s[pos + 1..]);
    next := pos + 1 + n;
    SlashStep(run, s, next);
    return next < |s| && s[next] != '/', next;
  }

  // ---------------------------------------------------------------------------------------
  // The language
  // ---------------------------------------------------------------------------------------

  /** The token an escaped text spells. */
  function Unescape(s: string): string {
    if s == [] then []
    else if |s| >= 2 && s[0] == '~' && s[1] == '0' then "~" + Unescape(s[2..])
    else if |s| >= 2 && s[0] == '~' && s[1] == '1' then "/" + Unescape(s[2..])
    else [s[0]] + Unescape(s[1..])
  }

  lemma {:induction false} EscapeConcat(a: string, b: string)
    ensures Escape(a + b) == Escape(a) + Escape(b)
    decreases |a|
  {
    if a == [] {
      assert a + b == b;
    } else {
      assert (a + b)[1..] == a[1..] + b;
      EscapeConcat(a[1..], b);
    }
  }

  lemma {:induction false} PlainText(t: string)
    requires forall i :: 0 <= i < |t| ==> t[i] != '~' && t[i] != '/'
    ensures Escape(t) == t
    decreases |t|
  {
    if t != [] { PlainText(t[1..]); }
  }

  /** A character of a pointer spells one or more characters of a token. */
  lemma UnitIsEscaped(t: string) returns (token: string)
    requires UnitText(PointerChar, true, t)
    ensures Escape(token) == t
  {
    if IsPair(PointerChar, t) {
      var c := if t[1] == '0' then '~' else '/';
      token := [c];
      assert token[1..] == [];
      assert EscapeChar(c) == t;
    } else {
      forall i | 0 <= i < |t| ensures t[i] != '~' && t[i] != '/' {
        if exists v :: v >= 0x80 && IsEncoding(t, v) {
          var v :| v >= 0x80 && IsEncoding(t, v);
          assert t[i] as int >= 0x80;
        }
      }
      PlainText(t);
      token := t;
    }
  }

  /** Every escaped text is the spelling of some token. */
  lemma {:induction false} RunIsEscaped(s: string) returns (token: string)
    requires Star(PointerChar, true, s)
    ensures Escape(token) == s
    decreases |s|
  {
    if s == [] {
      token := [];
    } else {
      var n := TokenHead(s);
      var head := UnitIsEscaped(s[..n]);
      var rest := RunIsEscaped(s[n..]);
      token := head + rest;
      EscapeParts(head, rest, s, n);
    }
  }

  lemma EscapeParts(a: string, b: string, s: string, n: nat)
    requires n <= |s| && Escape(a) == s[..n] && Escape(b) == s[n..]
    ensures Escape(a + b) == s
  {
    EscapeConcat(a, b);
  }

  lemma TokenHead(s: string) returns (n: nat)
    requires Star(PointerChar, true, s) && s != []
    ensures 0 < n <= |s| && UnitText(PointerChar, true, s[..n]) && Star(PointerChar, true, s[n..])
  {
    n := StarHead(PointerChar, true, s);
    UnitSound(PointerChar, true, s);
  }

  ghost function TokenText(): string -> bool { SegmentText(PointerChar, true) }

  lemma {:induction false} TokensOf(texts: seq<string>) returns (tokens: seq<string>)
    requires AllOk(TokenText(), texts)
    ensures Print(tokens) == PrintSlashed(texts) && AllTokens(tokens)
    decreases |texts|
  {
    tokens := [];
    if texts != [] {
      assert TokenText()(texts[0]);
      var token := RunIsEscaped(texts[0]);
      var more := TokensOf(texts[1..]);
      tokens := [token] + more;
      assert tokens[1..] == more;
    }
  }

  lemma {:induction false} TextsOf(tokens: seq<string>) returns (texts: seq<string>)
    requires AllTokens(tokens)
    ensures Print(tokens) == PrintSlashed(texts) && AllOk(TokenText(), texts)
    decreases |tokens|
  {
    texts := [];
    if tokens != [] {
      assert tokens[0] in tokens;
      var more := TextsOf(tokens[1..]);
      texts := [Escape(tokens[0])] + more;
      assert texts[1..] == more;
    }
  }

  lemma TokensRecognized()
    ensures Segments(TokenRun(), TokenText())
  {
    TokensAreRuns();
    RunIsSegments(TokenRun(), TokenText(), PointerChar, true);
  }

  lemma PointerSound(s: string) returns (tokens: seq<string>)
    requires IsPointer(s)
    ensures Names(tokens, s)
  {
    TokensRecognized();
    var texts := SlashedSound(TokenRun(), TokenText(), s);
    tokens := TokensOf(texts);
    assert s[..|s|] == s;
  }

  lemma PointerComplete(tokens: seq<string>, s: string)
    requires Names(tokens, s)
    ensures IsPointer(s)
  {
    TokensRecognized();
    var texts := TextsOf(tokens);
    SlashedComplete(TokenRun(), TokenText(), texts);
  }

  /** Exactly the spellings of token lists are accepted. */
  lemma PointerLanguage(s: string)
    ensures IsPointer(s) <==> exists tokens :: Names(tokens, s)
  {
    if IsPointer(s) { var tokens := PointerSound(s); }
    if tokens :| Names(tokens, s) { PointerComplete(tokens, s); }
  }

  lemma {:induction false} EscapeNoSlash(token: string)
    ensures forall i :: 0 <= i < |Escape(token)| ==> Escape(token)[i] != '/'
    decreases |token|
  {
    if token != [] { EscapeNoSlash(token[1..]); }
  }

  lemma {:induction false} EscapeInjective(a: string, b: string)
    requires Escape(a) == Escape(b)
    ensures a == b
    decreases |a|
  {
    UnescapeEscape(a);
    UnescapeEscape(b);
  }

  lemma {:induction false} UnescapeEscape(token: string)
    ensures Unescape(Escape(token)) == token
    decreases |token|
  {
    if token != [] {
      var c, rest := token[0], Escape(token[1..]);
      UnescapeEscape(token[1..]);
      assert (EscapeChar(c) + rest)[|EscapeChar(c)|..] == rest;
    }
  }

  /** A pointer starts with a slash and the text of its first token, which ends at the next slash. */
  lemma PrintSplit(tokens: seq<string>) returns (text: string, rest: string)
    requires tokens != []
    ensures text == Escape(tokens[0]) && rest == Print(tokens[1..])
    ensures Print(tokens) == "/" + (text + rest)
    ensures |text| == FirstOf(Print(tokens)[1..], c => c == '/')
  {
    text, rest := Escape(tokens[0]), Print(tokens[1..]);
    EscapeNoSlash(tokens[0]);
    assert "/" + text + rest == "/" + (text + rest);
    assert Print(tokens)[1..] == text + rest;
    FirstOfSplit(text, rest, c => c == '/');
  }

  /** A pointer names only one token list. */
  lemma {:induction false} TokensUnique(a: seq<string>, b: seq<string>)
    requires Print(a) == Print(b)
    ensures a == b
    decreases |a|
  {
    if a != [] && b != [] {
      var t, x := PrintSplit(a);
      var u, y := PrintSplit(b);
      assert t + x == Print(a)[1..] == u + y;
      assert t == (t + x)[..|t|] && u == (u + y)[..|u|];
      assert x == (t + x)[|t|..] && y == (u + y)[|u|..];
      EscapeInjective(a[0], b[0]);
      TokensUnique(a[1..], b[1..]);
      assert a == [a[0]] + a[1..] && b == [b[0]] + b[1..];
    }
  }

  // ---------------------------------------------------------------------------------------
  // Decoding a $ref
  // ---------------------------------------------------------------------------------------

  /** The text between the two replacements: slashes restored, tildes still escaped. */
  function HalfChar(c: char): string {
    if c == '~' then "~0" else [c]
  }

  function Half(text: string): string {
    if text == [] then [] else HalfChar(text[0]) + Half(text[1..])
  }

  function HalfPath(tokens: seq<string>): string {
    if tokens == [] then [] else "/" + Half(tokens[0]) + HalfPath(tokens[1..])
  }

  lemma GsubPlain(c: char, more: string, digit: char, to: char)
    requires c != '~'
    ensures Gsub([c] + more, digit, to) == [c] + Gsub(more, digit, to)
  {
    assert ([c] + more)[1..] == more;
  }

  lemma GsubHit(more: string, digit: char, to: char)
    ensures Gsub(['~', digit] + more, digit, to) == [to] + Gsub(more, digit, to)
  {
    assert (['~', digit] + more)[2..] == more;
  }

  lemma GsubMiss(d: char, more: string, digit: char, to: char)
    requires d != digit && d != '~'
    ensures Gsub(['~', d] + more, digit, to) == ['~', d] + Gsub(more, digit, to)
  {
    var s := ['~', d] + more;
    assert s[1..] == [d] + more;
    GsubPlain(d, more, digit, to);
    assert ['~'] + ([d] + Gsub(more, digit, to)) == ['~', d] + Gsub(more, digit, to);
  }

  lemma FirstPassChar(c: char, more: string)
    ensures Gsub(EscapeChar(c) + more, '1', '/') == HalfChar(c) + Gsub(more, '1', '/')
  {
    if c == '~' {
      GsubMiss('0', more, '1', '/');
    } else if c == '/' {
      GsubHit(more, '1', '/');
    } else {
      GsubPlain(c, more, '1', '/');
    }
  }

  lemma {:induction false} FirstPass(token: string, rest: string)
    ensures Gsub(Escape(token) + rest, '1', '/') == Half(token) + Gsub(rest, '1', '/')
    decreases |token|
  {
    if token == [] {
      assert Escape(token) + rest == rest;
      assert Half(token) + Gsub(rest, '1', '/') == Gsub(rest, '1', '/');
    } else {
      var c, more := token[0], Escape(token[1..]) + rest;
      FirstPass(token[1..], rest);
      assert Escape(token) + rest == EscapeChar(c) + more;
      FirstPassChar(c, more);
      assert Half(token) + Gsub(rest, '1', '/') == HalfChar(c) + (Half(token[1..]) + Gsub(rest, '1', '/'));
    }
  }

  lemma SecondPassChar(c: char, more: string)
    ensures Gsub(HalfChar(c) + more, '0', '~') == [c] + Gsub(more, '0', '~')
  {
    if c == '~' { GsubHit(more, '0', '~'); } else { GsubPlain(c, more, '0', '~'); }
  }

  lemma {:induction false} SecondPass(text: string, rest: string)
    ensures Gsub(Half(text) + rest, '0', '~') == text + Gsub(rest, '0', '~')
    decreases |text|
  {
    if text == [] {
      assert Half(text) + rest == rest;
      assert text + Gsub(rest, '0', '~') == Gsub(rest, '0', '~');
    } else {
      var c, more := text[0], Half(text[1..]) + rest;
      SecondPass(text[1..], rest);
      assert Half(text) + rest == HalfChar(c) + more;
      SecondPassChar(c, more);
      HeadTail(text, Gsub(rest, '0', '~'));
    }
  }

  lemma HeadTail(text: string, rest: string)
    requires text != []
    ensures text + rest == [text[0]] + (text[1..] + rest)
  {
  }

  lemma {:induction false} FirstPasses(tokens: seq<string>)
    ensures Gsub(Print(tokens), '1', '/') == HalfPath(tokens)
    decreases |tokens|
  {
    if tokens != [] {
      FirstPasses(tokens[1..]);
      var rest := Print(tokens[1..]);
      FirstPass(tokens[0], rest);
      assert Print(tokens) == ['/'] + (Escape(tokens[0]) + rest);
      GsubPlain('/', Escape(tokens[0]) + rest, '1', '/');
      assert HalfPath(tokens) == ['/'] + (Half(tokens[0]) + HalfPath(tokens[1..]));
    }
  }

  lemma {:induction false} SecondPasses(tokens: seq<string>)
    ensures Gsub(HalfPath(tokens), '0', '~') == PrintSlashed(tokens)
    decreases |tokens|
  {
    if tokens != [] {
      SecondPasses(tokens[1..]);
      var rest := HalfPath(tokens[1..]);
      SecondPass(tokens[0], rest);
      assert HalfPath(tokens) == ['/'] + (Half(tokens[0]) + rest);
      GsubPlain('/', Half(tokens[0]) + rest, '0', '~');
      assert PrintSlashed(tokens) == ['/'] + (tokens[0] + PrintSlashed(tokens[1..]));
    }
  }

  /**
   A fragment pointer that the URI unescape leaves alone decodes to the literal path of its tokens,
   the string that `new_path` builds from the root.
   */
  lemma RefDecodes(unescape: string -> string, tokens: seq<string>)
    requires unescape("#" + Print(tokens)) == "#" + Print(tokens)
    ensures DecodeRef(unescape, "#" + Print(tokens)) == "#" + PrintSlashed(tokens)
  {
    FirstPasses(tokens);
    SecondPasses(tokens);
    GsubPlain('#', Print(tokens), '1', '/');
    GsubPlain('#', HalfPath(tokens), '0', '~');
  }
}
