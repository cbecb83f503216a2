/** The strict UTF-8 sequence test against the encoding of section 3 of RFC 3629. */
module Utf8 {

  function Byte(s: string, i: nat): int
    requires i < |s|
  {
    s[i] as int
  }

  predicate IsCont(b: int) { 0x80 <= b <= 0xBF }

  /** `utf8_seq_len`: length of the sequence at the front, or 0. */
  function SeqLen(s: string): nat {
    if |s| < 1 then 0
    else
      var first := Byte(s, 0);
      if first <= 0x7F then 1
      else if first < 0xC2 then 0
      else if first <= 0xDF then
        if |s| < 2 || !IsCont(Byte(s, 1)) then 0 else 2
      else if first <= 0xEF then
        if |s| < 3 then 0
        else
          var low := if first == 0xE0 then 0xA0 else 0x80;
          var high := if first == 0xED then 0x9F else 0xBF;
          if Byte(s, 1) < low || Byte(s, 1) > high then 0
          else if !IsCont(Byte(s, 2)) then 0
          else 3
      else if first <= 0xF4 then
        if |s| < 4 then 0
        else
          var low := if first == 0xF0 then 0x90 else 0x80;
          var high := if first == 0xF4 then 0x8F else 0xBF;
          if Byte(s, 1) < low || Byte(s, 1) > high then 0
          else if !IsCont(Byte(s, 2)) || !IsCont(Byte(s, 3)) then 0
          else 4
      else 0
  }

  /** A Unicode scalar value: a code point that is not a surrogate. */
  predicate IsScalar(v: int) {
    0 <= v <= 0x10FFFF && !(0xD800 <= v <= 0xDFFF)
  }

  /** The bit-distribution table of section 3 of RFC 3629. */
  function Encode(v: int): string
    requires IsScalar(v)
  {
    if v < 0x80 then [v as char]
    else if v < 0x800 then [(0xC0 + v / 0x40) as char, (0x80 + v % 0x40) as char]
    else if v < 0x10000 then
      [(0xE0 + v / 0x1000) as char, (0x80 + v / 0x40 % 0x40) as char, (0x80 + v % 0x40) as char]
    else
      [(0xF0 + v / 0x40000) as char, (0x80 + v / 0x1000 % 0x40) as char,
       (0x80 + v / 0x40 % 0x40) as char, (0x80 + v % 0x40) as char]
  }

  /** The value an accepted sequence carries. */
  function Decode(s: string): int
    requires SeqLen(s) > 0
  {
    match SeqLen(s)
    case 1 => Byte(s, 0)
    case 2 => (Byte(s, 0) - 0xC0) * 0x40 + (Byte(s, 1) - 0x80)
    case 3 => (Byte(s, 0) - 0xE0) * 0x1000 + (Byte(s, 1) - 0x80) * 0x40 + (Byte(s, 2) - 0x80)
    case _ =>
      (Byte(s, 0) - 0xF0) * 0x40000 + (Byte(s, 1) - 0x80) * 0x1000
      + (Byte(s, 2) - 0x80) * 0x40 + (Byte(s, 3) - 0x80)
  }

  // --- base-64 digits ---

  lemma Digits2(x: int, y: int)
    requires 0 <= y < 0x40
    ensures (x * 0x40 + y) / 0x40 == x && (x * 0x40 + y) % 0x40 == y
  {
  }

  lemma Digits3(x: int, y: int, z: int)
    requires 0 <= x && 0 <= y < 0x40 && 0 <= z < 0x40
    ensures var v := x * 0x1000 + y * 0x40 + z;
            v / 0x1000 == x && v / 0x40 % 0x40 == y && v % 0x40 == z
  {
    var v := x * 0x1000 + y * 0x40 + z;
    Digits2(x * 0x40 + y, z);
    assert v == (x * 0x40 + y) * 0x40 + z;
    Digits2(x, y);
  }

  lemma Digits4(t: int, x: int, y: int, z: int)
    requires 0 <= t && 0 <= x < 0x40 && 0 <= y < 0x40 && 0 <= z < 0x40
    ensures var v := t * 0x40000 + x * 0x1000 + y * 0x40 + z;
            v / 0x40000 == t && v / 0x1000 % 0x40 == x && v / 0x40 % 0x40 == y && v % 0x40 == z
  {
    var v := t * 0x40000 + x * 0x1000 + y * 0x40 + z;
    Digits3(t * 0x40 + x, y, z);
    assert v == (t * 0x40 + x) * 0x1000 + y * 0x40 + z;
    Digits2(t, x);
  }

  /** An accepted sequence is the encoding of a scalar value. */
  lemma AcceptedIsEncoded(s: string)
    requires SeqLen(s) > 0
    ensures SeqLen(s) <= |s| && IsScalar(Decode(s)) && Encode(Decode(s)) == s[..SeqLen(s)]
  {
    match SeqLen(s)
    case 1 =>
    case 2 => Digits2(Byte(s, 0) - 0xC0, Byte(s, 1) - 0x80);
    case 3 => AcceptedThree(s);
    case _ => AcceptedFour(s);
  }

  lemma AcceptedThree(s: string)
    requires SeqLen(s) == 3
    ensures 3 <= |s| && IsScalar(Decode(s)) && Encode(Decode(s)) == s[..3]
  {
    Digits3(Byte(s, 0) - 0xE0, Byte(s, 1) - 0x80, Byte(s, 2) - 0x80);
    var v := Decode(s);
    assert 0x800 <= v < 0x10000;
    assert Encode(v) == [s[0], s[1], s[2]];
  }

  lemma AcceptedFour(s: string)
    requires SeqLen(s) == 4
    ensures 4 <= |s| && IsScalar(Decode(s)) && Encode(Decode(s)) == s[..4]
  {
    Digits4(Byte(s, 0) - 0xF0, Byte(s, 1) - 0x80, Byte(s, 2) - 0x80, Byte(s, 3) - 0x80);
    var v := Decode(s);
    assert 0x10000 <= v <= 0x10FFFF;
    assert Encode(v) == [s[0], s[1], s[2], s[3]];
  }

  /** The encoding of every scalar value is accepted, whatever follows it. */
  lemma EncodedIsAccepted(v: int, rest: string)
    requires IsScalar(v)
    ensures SeqLen(Encode(v) + rest) == |Encode(v)| && Decode(Encode(v) + rest) == v
  {
    var s := Encode(v) + rest;
    assert forall i :: 0 <= i < |Encode(v)| ==> s[i] == Encode(v)[i];
    if v < 0x80 {
    } else if v < 0x800 {
    } else if v < 0x10000 {
      EncodedThree(v, s);
    } else {
      EncodedFour(v, s);
    }
  }

  lemma EncodedThree(v: int, s: string)
    requires IsScalar(v) && 0x800 <= v < 0x10000 && 3 <= |s|
    requires s[0] == Encode(v)[0] && s[1] == Encode(v)[1] && s[2] == Encode(v)[2]
    ensures SeqLen(s) == 3 && Decode(s) == v
  {
    var x, y, z := v / 0x1000, v / 0x40 % 0x40, v % 0x40;
    assert v / 0x40 == x * 0x40 + y;
    assert v == x * 0x1000 + y * 0x40 + z;
    assert Byte(s, 0) == 0xE0 + x && Byte(s, 1) == 0x80 + y && Byte(s, 2) == 0x80 + z;
    assert x == 0 ==> y >= 0x20;
    assert x == 0xD ==> y < 0x20;
  }

  lemma EncodedFour(v: int, s: string)
    requires IsScalar(v) && 0x10000 <= v && 4 <= |s|
    requires forall i :: 0 <= i < 4 ==> s[i] == Encode(v)[i]
    ensures SeqLen(s) == 4 && Decode(s) == v
  {
    var t, x, y, z := v / 0x40000, v / 0x1000 % 0x40, v / 0x40 % 0x40, v % 0x40;
    assert v / 0x1000 == t * 0x40 + x;
    assert v / 0x40 == t * 0x1000 + x * 0x40 + y;
    assert v == t * 0x40000 + x * 0x1000 + y * 0x40 + z;
    assert Byte(s, 0) == 0xF0 + t && Byte(s, 1) == 0x80 + x && Byte(s, 2) == 0x80 + y && Byte(s, 3) == 0x80 + z;
    assert t == 0 ==> x >= 0x10;
    assert t == 4 ==> x < 0x10;
  }

  ghost predicate IsEncoding(s: string, v: int) {
    IsScalar(v) && s == Encode(v)
  }

  /**
   A length n is returned exactly when the first n bytes encode a scalar value; the value is unique,
   so no accepted sequence is a proper prefix of another.
   */
  lemma SeqLenExact(s: string, n: nat)
    requires 0 < n <= |s|
    ensures SeqLen(s) == n <==> exists v :: IsEncoding(s[..n], v)
    ensures forall v, v' :: IsEncoding(s[..n], v) && IsEncoding(s[..n], v') ==> v == v'
  {
    forall v | IsEncoding(s[..n], v) ensures SeqLen(s) == n && v == Decode(s) {
      EncodedIsAccepted(v, s[n..]);
      assert s == Encode(v) + s[n..];
    }
    if SeqLen(s) == n {
      AcceptedIsEncoded(s);
      assert IsEncoding(s[..n], Decode(s));
    }
  }

  lemma PrefixFree(a: string, b: string, v: int, v': int)
    requires IsEncoding(a, v) && IsEncoding(b, v') && a <= b
    ensures a == b && v == v'
  {
    EncodedIsAccepted(v, b[|a|..]);
    assert b == Encode(v) + b[|a|..];
    EncodedIsAccepted(v', []);
    assert b == Encode(v') + [];
  }
}
