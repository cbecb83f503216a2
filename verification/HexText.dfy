/**
 Hexadecimal text as numbers: which characters are digits, which texts spell a group of an IPv6 address,
 and which a byte after a percent sign.
 */
module HexText {
  import opened Bytes
  import opened Scan
  import opened Ipv6

  const LOWER: string := "0123456789abcdef"
  const UPPER: string := "0123456789ABCDEF"

  /** The digit of a value, in either case. */
  predicate IsDigitOf(c: char, v: nat) { v < 16 && (c == LOWER[v] || c == UPPER[v]) }

  function Nibble(c: char): nat
    requires IsHex(c)
  {
    if IsDigit(c) then c as int - '0' as int
    else if 'a' <= c <= 'f' then c as int - 'a' as int + 10
    else c as int - 'A' as int + 10
  }

  /** A hexadecimal digit is the digit of some value below 16, in either case. */
  lemma HexDigitIs(c: char)
    ensures IsHex(c) <==> exists v: nat :: IsDigitOf(c, v)
    ensures IsHex(c) ==> IsDigitOf(c, Nibble(c))
  {
    if IsHex(c) { assert IsDigitOf(c, Nibble(c)); }
    if v: nat :| IsDigitOf(c, v) { DigitValueIs(c, v); }
  }

  lemma DigitValueIs(c: char, v: nat)
    requires IsDigitOf(c, v)
    ensures IsHex(c) && Nibble(c) == v
  {
  }

  // ---------------------------------------------------------------------------------------
  // Numbers
  // ---------------------------------------------------------------------------------------

  /** Base 16, the last digit last, leading zeros allowed. */
  predicate SpellsHex(t: string, v: nat)
    decreases |t|
  {
    if |t| <= 1 then t != [] && IsDigitOf(t[0], v)
    else IsDigitOf(t[|t| - 1], v % 16) && SpellsHex(t[..|t| - 1], v / 16)
  }

  /** The number that some hexadecimal digits spell. */
  function HexValue(t: string): nat
    requires forall i :: 0 <= i < |t| ==> IsHex(t[i])
    decreases |t|
  {
    if t == [] then 0 else HexValue(t[..|t| - 1]) * 16 + Nibble(t[|t| - 1])
  }

  function Power16(n: nat): nat { if n == 0 then 1 else 16 * Power16(n - 1) }

  lemma {:induction false} HexReads(t: string)
    requires t != [] && forall i :: 0 <= i < |t| ==> IsHex(t[i])
    ensures SpellsHex(t, HexValue(t)) && HexValue(t) < Power16(|t|)
    decreases |t|
  {
    var init, c := t[..|t| - 1], t[|t| - 1];
    HexDigitIs(c);
    if |t| > 1 {
      HexReads(init);
      Split(HexValue(init), Nibble(c));
    } else {
      assert HexValue(init) == 0;
    }
  }

  lemma Split(x: nat, y: nat)
    requires y < 16
    ensures (x * 16 + y) / 16 == x && (x * 16 + y) % 16 == y
  {
  }

  lemma {:induction false} SpelledIsHex(t: string, v: nat)
    requires SpellsHex(t, v)
    ensures (forall i :: 0 <= i < |t| ==> IsHex(t[i])) && HexValue(t) == v
    decreases |t|
  {
    if |t| <= 1 {
      DigitValueIs(t[0], v);
      assert HexValue(t[..0]) == 0;
    } else {
      DigitValueIs(t[|t| - 1], v % 16);
      SpelledIsHex(t[..|t| - 1], v / 16);
      forall i | 0 <= i < |t| ensures IsHex(t[i]) {
        if i < |t| - 1 { assert t[..|t| - 1][i] == t[i]; }
      }
    }
  }

  // ---------------------------------------------------------------------------------------
  // Groups
  // ---------------------------------------------------------------------------------------

  /** A group of an IPv6 address: a number of 16 bits in one to four digits. */
  predicate SpellsGroup(t: string, v: nat) { v < 0x10000 && |t| <= 4 && SpellsHex(t, v) }

  lemma GroupLanguage(t: string)
    ensures IsGroup(t) <==> exists v: nat :: SpellsGroup(t, v)
  {
    if IsGroup(t) {
      HexReads(t);
      PowerBound(|t|);
      assert SpellsGroup(t, HexValue(t));
    }
    if v: nat :| SpellsGroup(t, v) { SpelledIsHex(t, v); }
  }

  lemma PowerBound(n: nat)
    requires n <= 4
    ensures Power16(n) <= 0x10000
  {
    assert Power16(1) == 16 && Power16(2) == 256 && Power16(3) == 4096 && Power16(4) == 65536;
  }

  /** A number without leading zeros, in the given digits. */
  function Hex(v: nat, digits: string): string
    requires |digits| == 16
  {
    if v < 16 then [digits[v]] else Hex(v / 16, digits) + [digits[v % 16]]
  }

  lemma {:induction false} HexSpells(v: nat, digits: string, n: nat)
    requires digits in {LOWER, UPPER} && n > 0 && v < Power16(n)
    ensures SpellsHex(Hex(v, digits), v) && |Hex(v, digits)| <= n
    decreases v
  {
    if v >= 16 {
      assert n > 1;
      HexSpells(v / 16, digits, n - 1);
      var t := Hex(v, digits);
      assert t[..|t| - 1] == Hex(v / 16, digits);
    }
  }

  /** The usual spelling of a number of 16 bits is a group, in either case. */
  lemma HexIsGroup(v: nat, digits: string)
    requires v < 0x10000 && digits in {LOWER, UPPER}
    ensures IsGroup(Hex(v, digits)) && SpellsGroup(Hex(v, digits), v)
  {
    assert Power16(1) == 16 && Power16(2) == 256 && Power16(3) == 4096 && Power16(4) == 65536;
    HexSpells(v, digits, 4);
    GroupLanguage(Hex(v, digits));
  }

  // ---------------------------------------------------------------------------------------
  // Addresses
  // ---------------------------------------------------------------------------------------

  /** Eight numbers, each spelled in one to four digits, with colons between. */
  ghost predicate SpellsAddress(s: string, pieces: seq<string>, vs: seq<nat>) {
    |pieces| == |vs| == 8 && s == Join(':', pieces) && forall i :: 0 <= i < 8 ==> SpellsGroup(pieces[i], vs[i])
  }

  /** The full forms of hexadecimal groups are the spellings of eight numbers. */
  lemma FullForms(s: string)
    ensures (exists pieces :: IsFull(s, pieces, false)) <==> exists pieces, vs :: SpellsAddress(s, pieces, vs)
  {
    if pieces :| IsFull(s, pieces, false) {
      forall i | 0 <= i < 8 ensures exists v: nat :: SpellsGroup(pieces[i], v) { GroupLanguage(pieces[i]); }
      var vs := seq(8, i requires 0 <= i < 8 => ValueOf(pieces[i]));
      forall i | 0 <= i < 8 ensures SpellsGroup(pieces[i], vs[i]) {
        GroupLanguage(pieces[i]);
        HexReads(pieces[i]);
        PowerBound(|pieces[i]|);
      }
      assert SpellsAddress(s, pieces, vs);
    }
    if pieces, vs :| SpellsAddress(s, pieces, vs) {
      forall i | 0 <= i < |pieces| ensures IsGroup(pieces[i]) {
        assert SpellsGroup(pieces[i], vs[i]);
        GroupLanguage(pieces[i]);
      }
      assert IsFull(s, pieces, false);
    }
  }

  function ValueOf(t: string): nat { if forall i :: 0 <= i < |t| ==> IsHex(t[i]) then HexValue(t) else 0 }

  /** Any eight numbers of 16 bits are accepted, in either case; and a full form says which ones it spells. */
  lemma EightNumbers(vs: seq<nat>, digits: string)
    requires |vs| == 8 && digits in {LOWER, UPPER} && forall i :: 0 <= i < 8 ==> vs[i] < 0x10000
    ensures IsIpv6(Join(':', seq(8, i requires 0 <= i < 8 => Hex(vs[i], digits))))
  {
    var pieces := seq(8, i requires 0 <= i < 8 => Hex(vs[i], digits));
    forall i | 0 <= i < 8 ensures IsGroup(pieces[i]) { HexIsGroup(vs[i], digits); }
    FullAccepted(Join(':', pieces), pieces, false);
  }

  // ---------------------------------------------------------------------------------------
  // Percent triples
  // ---------------------------------------------------------------------------------------

  /** A byte after a percent sign. */
  predicate SpellsByte(t: string, b: nat) {
    b < 256 && |t| == 3 && t[0] == '%' && IsDigitOf(t[1], b / 16) && IsDigitOf(t[2], b % 16)
  }

  lemma TripleLanguage(t: string)
    ensures IsPct(t) <==> exists b: nat :: SpellsByte(t, b)
  {
    if IsPct(t) {
      HexDigitIs(t[1]);
      HexDigitIs(t[2]);
      var b := 16 * Nibble(t[1]) + Nibble(t[2]);
      assert b / 16 == Nibble(t[1]) && b % 16 == Nibble(t[2]);
      assert SpellsByte(t, b);
    }
    if b: nat :| SpellsByte(t, b) {
      DigitValueIs(t[1], b / 16);
      DigitValueIs(t[2], b % 16);
    }
  }

  /** The triple of every byte, in either case, is taken whole whatever follows. */
  lemma TripleTaken(k: Class, utf8: bool, b: nat, digits: string, rest: string)
    requires HasPct(k) && b < 256 && digits in {LOWER, UPPER}
    ensures Unit(k, utf8, "%" + [digits[b / 16], digits[b % 16]] + rest) == 3
  {
    var t := "%" + [digits[b / 16], digits[b % 16]];
    assert SpellsByte(t, b);
    TripleLanguage(t);
    UnitComplete(k, utf8, t, rest);
  }
}
