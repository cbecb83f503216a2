/** Dotted-decimal addresses (section 3.2.2 of RFC 3986). */
module Ipv4 {
  import opened Bytes

  function DigitRun(s: string, most: nat): (n: nat)
    ensures n <= |s| && n <= most && forall i :: 0 <= i < n ==> IsDigit(s[i])
    ensures n == |s| || n == most || !IsDigit(s[n])
  {
    if s == [] || most == 0 || !IsDigit(s[0]) then 0 else 1 + DigitRun(s[1..], most - 1)
  }

  function Value(digits: string): nat
    requires forall i :: 0 <= i < |digits| ==> IsDigit(digits[i])
  {
    if digits == [] then 0 else Value(digits[..|digits| - 1]) * 10 + DigitValue(digits[|digits| - 1])
  }

  /** An octet stands at the front: digits, no leading zero, at most 255. */
  predicate StartsOctet(s: string) {
    var d := DigitRun(s, 3);
    d > 0 && !(s[0] == '0' && |s| > 1 && IsDigit(s[1])) && Value(s[..d]) <= 255
  }

  /** The rest of an address with `left` octets to go. */
  predicate Octets(s: string, left: nat)
    decreases |s|
  {
    var d := DigitRun(s, 3);
    && left > 0 && StartsOctet(s)
    && if left == 1 then d == |s| else d < |s| && s[d] == '.' && Octets(s[d + 1..], left - 1)
  }

  /** `parse_ipv4`. */
  method ParseIpv4(s: string) returns (ok: bool)
    ensures ok == Octets(s, 4)
    ensures ok <==> IsAddress(s)
  {
    AddressLanguage(s);
    var pos: nat, left: nat := 0, 4;
    while left > 0
      invariant left <= 4 && pos <= |s|
      invariant Octets(s, 4) <==> OctetsLeft(s[pos..], left)
    {
      var good, n := ParseTurn(s[pos..], left);
      if !good { return false; }
      assert s[pos..][n..] == s[pos + n..];
      pos, left := pos + n, left - 1;
    }
    return pos == |s|;
  }

  /** One turn of the loop: an octet, and a dot after all but the last. */
  method ParseTurn(s: string, left: nat) returns (ok: bool, n: nat)
    requires left > 0
    ensures ok ==> n <= |s|
    ensures OctetsLeft(s, left) <==> ok && OctetsLeft(s[n..], left - 1)
  {
    ok, n := ParseOctet(s);
    if ok && left > 1 {
      if n >= |s| || s[n] != '.' { return false, n; }
      n := n + 1;
    }
  }

  ghost predicate OctetsLeft(s: string, left: nat) {
    if left == 0 then s == [] else Octets(s, left)
  }

  /** The digits of a turn. */
  method ParseOctet(s: string) returns (ok: bool, digits: nat)
    ensures ok <==> StartsOctet(s)
    ensures ok ==> digits == DigitRun(s, 3)
  {
    if |s| == 0 || !IsDigit(s[0]) { return false, 0; }
    if s[0] == '0' && 1 < |s| && IsDigit(s[1]) { return false, 0; }
    var value;
    value, digits := ScanOctet(s);
    return value <= 255, digits;
  }

  /** The inner loop: at most three digits and their value. */
  method ScanOctet(s: string) returns (value: nat, digits: nat)
    ensures digits == DigitRun(s, 3) && value == Value(s[..digits])
  {
    value, digits := 0, 0;
    while digits < |s| && IsDigit(s[digits]) && digits < 3
      invariant digits <= |s| && digits <= 3
      invariant forall k :: 0 <= k < digits ==> IsDigit(s[k])
      invariant value == Value(s[..digits])
      invariant DigitRun(s, 3) == digits + DigitRun(s[digits..], 3 - digits)
    {
      assert s[..digits + 1][..digits] == s[..digits];
      assert s[digits..][1..] == s[digits + 1..];
      value := value * 10 + DigitValue(s[digits]);
      digits := digits + 1;
    }
  }

  // ---------------------------------------------------------------------------------------
  // The language
  // ---------------------------------------------------------------------------------------

  function Dotted(a: nat, b: nat, c: nat, d: nat): string {
    Decimal(a) + "." + Decimal(b) + "." + Decimal(c) + "." + Decimal(d)
  }

  ghost predicate IsAddress(s: string) {
    exists a: nat, b: nat, c: nat, d: nat :: IsDotted(s, a, b, c, d)
  }

  predicate IsDotted(s: string, a: nat, b: nat, c: nat, d: nat) {
    a <= 255 && b <= 255 && c <= 255 && d <= 255 && s == Dotted(a, b, c, d)
  }

  predicate AllDigits(t: string) {
    forall i :: 0 <= i < |t| ==> IsDigit(t[i])
  }

  /** Digits without a leading zero are the decimal spelling of their value. */
  lemma {:induction false} ValueDecimal(t: string)
    requires AllDigits(t) && t != [] && (|t| > 1 ==> t[0] != '0')
    ensures t == Decimal(Value(t)) && (t[0] != '0' ==> Value(t) > 0)
    decreases |t|
  {
    var last := |t| - 1;
    var init := t[..last];
    if last == 0 {
      assert init == [];
    } else {
      ValueDecimal(init);
      var v, d := Value(init), DigitValue(t[last]);
      assert Value(t) == v * 10 + d && v > 0;
      assert (v * 10 + d) / 10 == v && (v * 10 + d) % 10 == d;
      assert t == init + [t[last]];
    }
  }

  lemma {:induction false} DecimalValue(n: nat)
    ensures var t := Decimal(n);
            AllDigits(t) && t != [] && (n > 0 ==> t[0] != '0') && (|t| > 1 ==> t[0] != '0') && Value(t) == n
    decreases n
  {
    var t := Decimal(n);
    if n < 10 {
      assert t[..0] == [];
    } else {
      DecimalValue(n / 10);
      assert t[..|t| - 1] == Decimal(n / 10);
    }
  }

  lemma OctetLength(n: nat)
    requires n <= 255
    ensures |Decimal(n)| <= 3
  {
    if n >= 100 { assert Decimal(n) == Decimal(n / 10) + [('0' as int + n % 10) as char]; }
  }

  lemma {:induction false} RunTaken(t: string, rest: string, most: nat)
    requires AllDigits(t) && |t| <= most && (|t| == most || rest == [] || !IsDigit(rest[0]))
    ensures DigitRun(t + rest, most) == |t|
    decreases |t|
  {
    if t == [] {
      assert t + rest == rest;
    } else {
      assert (t + rest)[1..] == t[1..] + rest;
      RunTaken(t[1..], rest, most - 1);
    }
  }

  /** The decimal spelling of an octet is taken whole and has its value. */
  lemma OctetTaken(n: nat, rest: string)
    requires n <= 255 && (rest == [] || !IsDigit(rest[0]))
    ensures var t := Decimal(n);
      t != [] && AllDigits(t) && (|t| > 1 ==> t[0] != '0') && Value(t) == n && DigitRun(t + rest, 3) == |t|
  {
    DecimalValue(n);
    OctetLength(n);
    RunTaken(Decimal(n), rest, 3);
  }

  lemma OctetsStep(n: nat, rest: string, left: nat)
    requires n <= 255 && left > 1
    ensures Octets(Decimal(n) + "." + rest, left) <==> Octets(rest, left - 1)
  {
    var t, s := Decimal(n), Decimal(n) + "." + rest;
    OctetTaken(n, "." + rest);
    assert s == t + ("." + rest);
    assert s[..|t|] == t && s[|t| + 1..] == rest;
    assert |t| == 1 ==> s[1] == '.';
  }

  lemma OctetsLast(n: nat)
    requires n <= 255
    ensures Octets(Decimal(n), 1)
  {
    OctetTaken(n, []);
    assert Decimal(n) + [] == Decimal(n);
    assert Decimal(n)[..|Decimal(n)|] == Decimal(n);
  }

  lemma OctetsHead(s: string, left: nat) returns (n: nat, rest: string)
    requires Octets(s, left) && left > 1
    ensures n <= 255 && s == Decimal(n) + "." + rest && Octets(rest, left - 1)
  {
    var d := DigitRun(s, 3);
    n, rest := Value(s[..d]), s[d + 1..];
    ValueDecimal(s[..d]);
    assert s == s[..d] + "." + s[d + 1..];
  }

  /** Exactly four decimal octets without leading zeros are accepted. */
  lemma AddressLanguage(s: string)
    ensures Octets(s, 4) <==> IsAddress(s)
  {
    if Octets(s, 4) { AddressSound(s); }
    if a: nat, b: nat, c: nat, d: nat :| IsDotted(s, a, b, c, d) { AddressComplete(s, a, b, c, d); }
  }

  lemma DottedNested(a: nat, b: nat, c: nat, d: nat)
    ensures Dotted(a, b, c, d)
         == Decimal(a) + "." + (Decimal(b) + "." + (Decimal(c) + "." + Decimal(d)))
  {
  }

  lemma AddressSound(s: string)
    requires Octets(s, 4)
    ensures IsAddress(s)
  {
    var a, r := OctetsHead(s, 4);
    var b, q := OctetsHead(r, 3);
    var c, p := OctetsHead(q, 2);
    assert p[..|p|] == p;
    ValueDecimal(p);
    DottedNested(a, b, c, Value(p));
    assert IsDotted(s, a, b, c, Value(p));
  }

  lemma AddressComplete(s: string, a: nat, b: nat, c: nat, d: nat)
    requires IsDotted(s, a, b, c, d)
    ensures Octets(s, 4)
  {
    OctetsLast(d);
    OctetsStep(c, Decimal(d), 2);
    OctetsStep(b, Decimal(c) + "." + Decimal(d), 3);
    OctetsStep(a, Decimal(b) + "." + (Decimal(c) + "." + Decimal(d)), 4);
    DottedNested(a, b, c, d);
  }

  /** The bytes of an address. */
  lemma {:induction false} AddressBytes(s: string, left: nat)
    requires Octets(s, left)
    ensures forall i :: 0 <= i < |s| ==> IsDigit(s[i]) || s[i] == '.'
    ensures left > 1 ==> '.' in s
    decreases left
  {
    if left > 1 {
      var d := DigitRun(s, 3);
      AddressBytes(s[d + 1..], left - 1);
      forall i | 0 <= i < |s| ensures IsDigit(s[i]) || s[i] == '.' {
        if i > d { assert s[i] == s[d + 1..][i - d - 1]; }
      }
    }
  }
}
