/**
 IPv6 text forms (section 2.2 of RFC 4291): eight groups, or at most seven with one "::", an IPv4
 tail counting as two. The recognizer accepts exactly these, and one family more: with a "::", a
 single ":" after the last group is not noticed.
 */
module Ipv6 {
  import opened Bytes
  import opened Ipv4

  // ---------------------------------------------------------------------------------------
  // The recognizer
  // ---------------------------------------------------------------------------------------

  function HexRun(s: string, most: nat): (n: nat)
    ensures n <= |s| && n <= most && forall i :: 0 <= i < n ==> IsHex(s[i])
    ensures n == |s| || n == most || !IsHex(s[n])
  {
    if s == [] || most == 0 || !IsHex(s[0]) then 0 else 1 + HexRun(s[1..], most - 1)
  }

  /** A dot comes before any colon. */
  predicate DotAhead(s: string) {
    s != [] && s[0] != ':' && (s[0] == '.' || DotAhead(s[1..]))
  }

  /** The decision after the loop. */
  predicate Settled(groups: nat, seen: bool, lastWasGroup: bool) {
    (lastWasGroup || seen) && if seen then groups <= 7 else groups == 8
  }

  predicate StartsGap(s: string) { |s| >= 2 && s[0] == ':' && s[1] == ':' }

  /** The loop from the start of a group, with `groups` counted and a "::" seen or not. */
  predicate Groups(s: string, groups: nat, seen: bool)
    requires s != []
    decreases |s|, 0
  {
    if DotAhead(s) then Octets(s, 4) && Settled(groups + 2, seen, true)
    else
      var g := HexRun(s, 4);
      && g > 0
      && AfterGroup(s[g..], groups + 1, seen)
  }

  /** What follows a hex group: the end, a "::", or a ":". */
  predicate AfterGroup(s: string, groups: nat, seen: bool)
    decreases |s|, 0
  {
    if s == [] then Settled(groups, seen, true)
    else if StartsGap(s) then !seen && AfterGap(s[2..], groups)
    else s[0] == ':' && if |s| == 1 then Settled(groups, seen, false) else Groups(s[1..], groups, seen)
  }

  /** What follows a "::". */
  predicate AfterGap(s: string, groups: nat)
    decreases |s|, 1
  {
    if s == [] then Settled(groups, true, false) else Groups(s, groups, true)
  }

  predicate IsIpv6(s: string) {
    if StartsGap(s) then AfterGap(s[2..], 0)
    else if s == [] then Settled(0, false, false)
    else s[0] != ':' && Groups(s, 0, false)
  }

  /** `parse_ipv6_group`. */
  method ParseIpv6Group(s: string) returns (digits: nat)
    ensures digits == HexRun(s, 4)
  {
    digits := 0;
    while digits < 4 && digits < |s| && IsHex(s[digits])
      invariant digits <= 4 && digits <= |s|
      invariant HexRun(s, 4) == digits + HexRun(s[digits..], 4 - digits)
    {
      assert s[digits..][1..] == s[digits + 1..];
      digits := digits + 1;
    }
  }

  /** The look-ahead for an IPv4 tail. */
  method HasDot(s: string) returns (hasDot: bool)
    ensures hasDot <==> DotAhead(s)
  {
    var k := 0;
    while k < |s|
      invariant k <= |s|
      invariant DotAhead(s) <==> DotAhead(s[k..])
    {
      if s[k] == '.' { return true; }
      if s[k] == ':' { return false; }
      assert s[k..][1..] == s[k + 1..];
      k := k + 1;
    }
    return false;
  }

  /** `parse_ipv6`. */
  method ParseIpv6(s: string) returns (ok: bool)
    ensures ok == IsIpv6(s)
    ensures ok <==> IsTextForm(s) || IsOverrun(s)
  {
    Ipv6Language(s);
    ok := ParseGroups(s);
  }

  /** The loop of `parse_ipv6`. */
  method ParseGroups(s: string) returns (ok: bool)
    ensures ok == IsIpv6(s)
  {
    var pos: nat, groups: nat := 0, 0;
    var seenCompression, lastWasGroup := false, false;
    if |s| >= 2 && s[0] == ':' && s[1] == ':' {
      seenCompression := true;
      pos := 2;
    } else if |s| >= 1 && s[0] == ':' {
      return false;
    }
    while pos < |s|
      invariant pos <= |s|
      invariant pos < |s| ==> !lastWasGroup && (IsIpv6(s) <==> Groups(s[pos..], groups, seenCompression))
      invariant pos == |s| ==> (IsIpv6(s) <==> Settled(groups, seenCompression, lastWasGroup))
      decreases |s| - pos
    {
      ghost var rest := s[pos..];
      var failed, n;
      failed, n, groups, seenCompression, lastWasGroup := ParseTurn(s[pos..], groups, seenCompression);
      if failed { return false; }
      assert rest[n..] == s[pos + n..];
      pos := pos + n;
    }
    if !lastWasGroup && !seenCompression { return false; }
    if seenCompression {
      if groups > 7 { return false; }
      return true;
    }
    return groups == 8;
  }

  /** One turn of the loop: an IPv4 tail, or a hex group and the separator after it. */
  method ParseTurn(s: string, groups: nat, seen: bool)
    returns (failed: bool, n: nat, groups': nat, seen': bool, lastWasGroup: bool)
    requires s != []
    ensures failed ==> !Groups(s, groups, seen)
    ensures !failed ==> 0 < n <= |s|
    ensures !failed && n == |s| ==> (Groups(s, groups, seen) <==> Settled(groups', seen', lastWasGroup))
    ensures !failed && n < |s| ==> !lastWasGroup && (Groups(s, groups, seen) <==> Groups(s[n..], groups', seen'))
  {
    failed, n, groups', seen', lastWasGroup := false, 0, groups, seen, false;
    var hasDot := HasDot(s);
    if hasDot {
      var tail := ParseIpv4(s);
      return !tail, |s|, groups + 2, seen, true;
    }
    var g := ParseIpv6Group(s);
    if g == 0 { return true, n, groups', seen', lastWasGroup; }
    groups', lastWasGroup := groups + 1, true;
    var rest := s[g..];
    if rest == [] { return failed, g, groups', seen', lastWasGroup; }
    if rest[0] != ':' { return true, n, groups', seen', lastWasGroup; }
    if 1 < |rest| && rest[1] == ':' {
      if seen { return true, n, groups', seen', lastWasGroup; }
      assert s[g + 2..] == rest[2..];
      assert Groups(s, groups, seen) <==> AfterGroup(rest, groups', seen);
      assert AfterGroup(rest, groups', seen) <==> AfterGap(rest[2..], groups');
      return false, g + 2, groups', true, false;
    }
    assert s[g + 1..] == rest[1..];
    return false, g + 1, groups', seen, false;
  }

  // ---------------------------------------------------------------------------------------
  // The grammar
  // ---------------------------------------------------------------------------------------

  predicate IsGroup(t: string) {
    1 <= |t| <= 4 && forall i :: 0 <= i < |t| ==> IsHex(t[i])
  }

  ghost predicate AllGroups(pieces: seq<string>) {
    forall i :: 0 <= i < |pieces| ==> IsGroup(pieces[i])
  }

  /** Groups, the last of which is an IPv4 address when `tail` says so. */
  ghost predicate ArePieces(pieces: seq<string>, tail: bool) {
    if tail then pieces != [] && AllGroups(pieces[..|pieces| - 1]) && IsAddress(pieces[|pieces| - 1])
    else AllGroups(pieces)
  }

  /** An IPv4 tail counts as two groups. */
  function Weight(pieces: seq<string>, tail: bool): nat { |pieces| + if tail then 1 else 0 }

  ghost predicate IsFull(s: string, pieces: seq<string>, tail: bool) {
    ArePieces(pieces, tail) && Weight(pieces, tail) == 8 && s == Join(':', pieces)
  }

  ghost predicate IsCompressed(s: string, left: seq<string>, right: seq<string>, tail: bool) {
    && AllGroups(left) && ArePieces(right, tail) && |left| + Weight(right, tail) <= 7
    && s == Join(':', left) + "::" + Join(':', right)
  }

  /** The text forms of section 2.2 of RFC 4291. */
  ghost predicate IsTextForm(s: string) {
    || (exists pieces, tail :: IsFull(s, pieces, tail))
    || (exists left, right, tail :: IsCompressed(s, left, right, tail))
  }

  /** The extra family: a compressed form of hex groups with one more ":" at the end. */
  ghost predicate IsOverrunOf(s: string, left: seq<string>, right: seq<string>) {
    && AllGroups(left) && AllGroups(right) && right != [] && |left| + |right| <= 7
    && s == Join(':', left) + "::" + Join(':', right) + ":"
  }

  ghost predicate IsOverrun(s: string) {
    exists left, right :: IsOverrunOf(s, left, right)
  }

  predicate EndsInSingleColon(s: string) {
    |s| > 0 && s[|s| - 1] == ':' && (|s| == 1 || s[|s| - 2] != ':')
  }

  // ---------------------------------------------------------------------------------------
  // One group
  // ---------------------------------------------------------------------------------------

  lemma {:induction false} HexTaken(t: string, rest: string, most: nat)
    requires |t| <= most && (forall i :: 0 <= i < |t| ==> IsHex(t[i])) && (rest == [] || !IsHex(rest[0]))
    ensures HexRun(t + rest, most) == |t|
    decreases |t|
  {
    if t == [] {
      assert t + rest == rest;
    } else {
      assert (t + rest)[1..] == t[1..] + rest;
      HexTaken(t[1..], rest, most - 1);
    }
  }

  lemma {:induction false} NoDotAhead(t: string, rest: string)
    requires (forall i :: 0 <= i < |t| ==> IsHex(t[i])) && (rest == [] || rest[0] == ':')
    ensures !DotAhead(t + rest)
    decreases |t|
  {
    if t == [] {
      assert t + rest == rest;
    } else {
      assert (t + rest)[1..] == t[1..] + rest;
      NoDotAhead(t[1..], rest);
    }
  }

  /** A group followed by a colon or the end is consumed as a group. */
  lemma GroupTaken(t: string, rest: string, groups: nat, seen: bool)
    requires IsGroup(t) && (rest == [] || rest[0] == ':')
    ensures Groups(t + rest, groups, seen) <==> AfterGroup(rest, groups + 1, seen)
  {
    HexTaken(t, rest, 4);
    NoDotAhead(t, rest);
    assert (t + rest)[|t|..] == rest;
  }

  lemma {:induction false} DotInAddress(s: string)
    requires (forall i :: 0 <= i < |s| ==> s[i] != ':') && '.' in s
    ensures DotAhead(s)
    decreases |s|
  {
    if s[0] != '.' {
      assert '.' in s[1..] by {
        var i :| 0 <= i < |s| && s[i] == '.';
        assert s[1..][i - 1] == '.';
      }
      DotInAddress(s[1..]);
    }
  }

  lemma AddressTaken(s: string, groups: nat, seen: bool)
    requires IsAddress(s)
    ensures s != [] && (Groups(s, groups, seen) <==> Settled(groups + 2, seen, true))
  {
    AddressLanguage(s);
    AddressBytes(s, 4);
    DotInAddress(s);
  }

  // ---------------------------------------------------------------------------------------
  // Lists of pieces
  // ---------------------------------------------------------------------------------------

  lemma RegroupGap(head: string, left: string, right: string)
    ensures head + ":" + (left + "::" + right) == head + ":" + left + "::" + right
  {
  }

  lemma PiecesTail(pieces: seq<string>, tail: bool)
    requires ArePieces(pieces, tail) && |pieces| > 1
    ensures IsGroup(pieces[0]) && ArePieces(pieces[1..], tail)
  {
    if tail {
      assert pieces[0] == pieces[..|pieces| - 1][0];
      assert pieces[1..][..|pieces[1..]| - 1] == pieces[..|pieces| - 1][1..];
    }
  }

  lemma PiecesCons(head: string, pieces: seq<string>, tail: bool)
    requires IsGroup(head) && ArePieces(pieces, tail)
    ensures ArePieces([head] + pieces, tail)
  {
    var all := [head] + pieces;
    if tail { assert all[..|all| - 1] == [head] + pieces[..|pieces| - 1]; }
  }

  lemma PieceEnds(piece: string)
    requires IsGroup(piece) || IsAddress(piece)
    ensures piece != [] && piece[0] != ':' && piece[|piece| - 1] != ':'
  {
    if IsAddress(piece) {
      AddressLanguage(piece);
      AddressBytes(piece, 4);
    }
  }

  /** Joined pieces neither start nor end with a colon. */
  lemma {:induction false} JoinEnds(pieces: seq<string>, tail: bool)
    requires ArePieces(pieces, tail) && pieces != []
    ensures var s := Join(':', pieces); s != [] && s[0] != ':' && s[|s| - 1] != ':'
    decreases |pieces|
  {
    if |pieces| == 1 {
      PieceEnds(pieces[0]);
    } else {
      PiecesTail(pieces, tail);
      PieceEnds(pieces[0]);
      JoinEnds(pieces[1..], tail);
    }
  }

  // ---------------------------------------------------------------------------------------
  // Completeness
  // ---------------------------------------------------------------------------------------

  /** A group, a colon, and more that does not start with a colon. */
  lemma MoreTaken(head: string, more: string, groups: nat, seen: bool)
    requires IsGroup(head) && more != [] && more[0] != ':'
    ensures Groups(head + ":" + more, groups, seen) <==> Groups(more, groups + 1, seen)
  {
    var rest := ":" + more;
    GroupTaken(head, rest, groups, seen);
    assert head + ":" + more == head + rest;
    assert rest[1..] == more;
  }

  lemma {:induction false} PiecesAccepted(pieces: seq<string>, tail: bool, groups: nat, seen: bool)
    requires ArePieces(pieces, tail) && pieces != []
    ensures Join(':', pieces) != []
    ensures Groups(Join(':', pieces), groups, seen) <==> Settled(groups + Weight(pieces, tail), seen, true)
    decreases |pieces|
  {
    JoinEnds(pieces, tail);
    if |pieces| > 1 {
      PiecesTail(pieces, tail);
      JoinEnds(pieces[1..], tail);
      PiecesAccepted(pieces[1..], tail, groups + 1, seen);
      MoreTaken(pieces[0], Join(':', pieces[1..]), groups, seen);
      assert groups + 1 + Weight(pieces[1..], tail) == groups + Weight(pieces, tail);
    } else if tail {
      AddressTaken(pieces[0], groups, seen);
    } else {
      LastGroup(pieces[0], groups, seen);
    }
  }

  lemma LastGroup(s: string, groups: nat, seen: bool)
    requires IsGroup(s)
    ensures Groups(s, groups, seen) <==> Settled(groups + 1, seen, true)
  {
    GroupTaken(s, [], groups, seen);
    assert s + [] == s;
  }

  /** Hex groups before a colon or the end are all counted. */
  lemma {:induction false} HexPrefix(pieces: seq<string>, b: string, groups: nat, seen: bool)
    requires AllGroups(pieces) && pieces != [] && (b == [] || b[0] == ':')
    ensures Join(':', pieces) + b != []
    ensures Groups(Join(':', pieces) + b, groups, seen) <==> AfterGroup(b, groups + |pieces|, seen)
    decreases |pieces|
  {
    JoinEnds(pieces, false);
    if |pieces| == 1 {
      GroupTaken(pieces[0], b, groups, seen);
    } else {
      var more := Join(':', pieces[1..]);
      JoinEnds(pieces[1..], false);
      HexPrefix(pieces[1..], b, groups + 1, seen);
      AppendAround(pieces[0], ":", more, b);
      MoreTaken(pieces[0], more + b, groups, seen);
    }
  }

  /** A left side, a "::" and more. */
  lemma GapAccepted(left: seq<string>, right: string)
    requires AllGroups(left)
    ensures IsIpv6(Join(':', left) + "::" + right) <==> AfterGap(right, |left|)
  {
    var s, b := Join(':', left) + "::" + right, "::" + right;
    assert b[2..] == right;
    if left == [] {
      assert s == b;
    } else {
      assert s == Join(':', left) + b;
      JoinEnds(left, false);
      HexPrefix(left, b, 0, false);
      assert AfterGroup(b, |left|, false) <==> AfterGap(right, |left|);
    }
  }

  lemma FullAccepted(s: string, pieces: seq<string>, tail: bool)
    requires IsFull(s, pieces, tail)
    ensures IsIpv6(s)
  {
    JoinEnds(pieces, tail);
    PiecesAccepted(pieces, tail, 0, false);
  }

  lemma CompressedAccepted(s: string, left: seq<string>, right: seq<string>, tail: bool)
    requires IsCompressed(s, left, right, tail)
    ensures IsIpv6(s)
  {
    GapAccepted(left, Join(':', right));
    if right != [] {
      JoinEnds(right, tail);
      PiecesAccepted(right, tail, |left|, true);
    }
  }

  lemma OverrunAccepted(s: string, left: seq<string>, right: seq<string>)
    requires IsOverrunOf(s, left, right)
    ensures IsIpv6(s)
  {
    var tail := Join(':', right) + ":";
    GapAccepted(left, tail);
    assert s == Join(':', left) + "::" + tail;
    HexPrefix(right, ":", |left|, true);
    assert AfterGroup(":", |left| + |right|, true) <==> Settled(|left| + |right|, true, false);
  }

  // ---------------------------------------------------------------------------------------
  // Soundness
  // ---------------------------------------------------------------------------------------

  /** The ways a turn of the loop can go. */
  datatype Turn = Address | End | Gap | Over | More

  lemma Unfold(s: string, groups: nat, seen: bool) returns (t: Turn, head: string, more: string)
    requires s != [] && Groups(s, groups, seen)
    ensures t.Address? ==> IsAddress(s) && Settled(groups + 2, seen, true)
    ensures !t.Address? ==> IsGroup(head)
    ensures t.End? ==> s == head && Settled(groups + 1, seen, true)
    ensures t.Gap? ==> !seen && s == head + "::" + more && AfterGap(more, groups + 1)
    ensures t.Over? ==> s == head + ":" && Settled(groups + 1, seen, false)
    ensures t.More? ==> more != [] && s == head + ":" + more && Groups(more, groups + 1, seen)
  {
    head, more := [], [];
    if DotAhead(s) {
      t := Address;
      AddressLanguage(s);
    } else {
      var g := HexRun(s, 4);
      var rest := s[g..];
      head := s[..g];
      assert AfterGroup(rest, groups + 1, seen);
      assert s == head + rest;
      if rest == [] {
        t := End;
      } else if StartsGap(rest) {
        t, more := Gap, rest[2..];
        assert rest == "::" + more;
      } else if |rest| == 1 {
        t := Over;
      } else {
        t, more := More, rest[1..];
        assert rest == ":" + more;
      }
    }
  }

  /** What the loop accepts after a "::". */
  lemma {:induction false} TailSound(s: string, groups: nat) returns (pieces: seq<string>, tail: bool, overrun: bool)
    requires s != [] && Groups(s, groups, true)
    ensures pieces != [] && ArePieces(pieces, tail) && groups + Weight(pieces, tail) <= 7
    ensures if overrun then !tail && s == Join(':', pieces) + ":" else s == Join(':', pieces)
    decreases |s|
  {
    var t, head, more := Unfold(s, groups, true);
    if t.More? {
      var p;
      p, tail, overrun := TailSound(more, groups + 1);
      pieces := [head] + p;
      PiecesCons(head, p, tail);
      JoinCons(':', head, p);
      AppendAround(head, ":", Join(':', p), ":");
    } else {
      pieces, tail, overrun := [if t.Address? then s else head], t.Address?, t.Over?;
    }
  }

  /** What is read before a "::": eight pieces, or hex groups up to a "::" and what may follow it. */
  ghost predicate IsHead(s: string, groups: nat, pieces: seq<string>, tail: bool, gap: bool, right: string) {
    && pieces != [] && ArePieces(pieces, tail)
    && if gap then !tail && s == Join(':', pieces) + "::" + right && AfterGap(right, groups + |pieces|)
       else s == Join(':', pieces) && groups + Weight(pieces, tail) == 8
  }

  lemma HeadMore(
    s: string, groups: nat, head: string, more: string, pieces: seq<string>, tail: bool, gap: bool, right: string)
    requires IsGroup(head) && s == head + ":" + more && IsHead(more, groups + 1, pieces, tail, gap, right)
    ensures IsHead(s, groups, [head] + pieces, tail, gap, right)
  {
    PiecesCons(head, pieces, tail);
    JoinCons(':', head, pieces);
    RegroupGap(head, Join(':', pieces), right);
  }

  /** What the loop accepts before a "::". */
  lemma {:induction false} HeadSound(s: string, groups: nat)
    returns (pieces: seq<string>, tail: bool, gap: bool, right: string)
    requires s != [] && Groups(s, groups, false)
    ensures IsHead(s, groups, pieces, tail, gap, right)
    decreases |s|
  {
    var t, head, more := Unfold(s, groups, false);
    right := more;
    if t.More? {
      var p;
      p, tail, gap, right := HeadSound(more, groups + 1);
      pieces := [head] + p;
      HeadMore(s, groups, head, more, p, tail, gap, right);
    } else {
      pieces, tail, gap := [if t.Address? then s else head], t.Address?, t.Gap?;
    }
  }

  lemma GapSound(s: string, left: seq<string>, right: string)
    requires s == Join(':', left) + "::" + right && AllGroups(left) && AfterGap(right, |left|)
    ensures IsTextForm(s) || IsOverrun(s)
  {
    if right == [] {
      assert IsCompressed(s, left, [], false);
    } else {
      var pieces, tail, overrun := TailSound(right, |left|);
      if overrun {
        assert s == Join(':', left) + "::" + Join(':', pieces) + ":";
        assert IsOverrunOf(s, left, pieces);
      } else {
        assert IsCompressed(s, left, pieces, tail);
      }
    }
  }

  lemma Ipv6Sound(s: string)
    requires IsIpv6(s)
    ensures IsTextForm(s) || IsOverrun(s)
  {
    if StartsGap(s) {
      assert s == Join(':', []) + "::" + s[2..];
      GapSound(s, [], s[2..]);
    } else {
      var pieces, tail, gap, right := HeadSound(s, 0);
      if gap { GapSound(s, pieces, right); } else { assert IsFull(s, pieces, tail); }
    }
  }

  // ---------------------------------------------------------------------------------------
  // The language
  // ---------------------------------------------------------------------------------------

  /** The accepted language: the text forms, and the overruns. */
  lemma Ipv6Language(s: string)
    ensures IsIpv6(s) <==> IsTextForm(s) || IsOverrun(s)
  {
    if IsIpv6(s) { Ipv6Sound(s); }
    if pieces, tail :| IsFull(s, pieces, tail) { FullAccepted(s, pieces, tail); }
    if left, right, tail :| IsCompressed(s, left, right, tail) { CompressedAccepted(s, left, right, tail); }
    if left, right :| IsOverrunOf(s, left, right) { OverrunAccepted(s, left, right); }
  }

  lemma TextFormEnd(s: string)
    requires IsTextForm(s)
    ensures !EndsInSingleColon(s)
  {
    if pieces, tail :| IsFull(s, pieces, tail) {
      JoinEnds(pieces, tail);
    } else {
      var left, right, tail :| IsCompressed(s, left, right, tail);
      if right != [] { JoinEnds(right, tail); }
    }
  }

  lemma OverrunEnd(s: string)
    requires IsOverrun(s)
    ensures EndsInSingleColon(s)
  {
    var left, right :| IsOverrunOf(s, left, right);
    JoinEnds(right, false);
    var text := Join(':', right);
    assert s[|s| - 2] == text[|text| - 1];
  }

  /** `parse_ipv6` accepts a text form exactly when the string does not end in a single colon. */
  lemma Ipv6Exact(s: string)
    ensures IsIpv6(s) && !EndsInSingleColon(s) <==> IsTextForm(s)
    ensures IsIpv6(s) && EndsInSingleColon(s) <==> IsOverrun(s)
  {
    Ipv6Language(s);
    if IsTextForm(s) { TextFormEnd(s); }
    if IsOverrun(s) { OverrunEnd(s); }
  }

  /** The smallest overrun. */
  lemma OverrunExample()
    ensures IsIpv6("::1:") && !IsTextForm("::1:")
  {
    assert Join(':', []) + "::" + Join(':', ["1"]) + ":" == "::1:";
    assert IsOverrunOf("::1:", [], ["1"]);
    Ipv6Exact("::1:");
  }

  /** Only hex digits, colons and dots occur. */
  predicate OnlyAddressBytes(s: string) {
    forall i :: 0 <= i < |s| ==> IsHex(s[i]) || s[i] == ':' || s[i] == '.'
  }

  lemma {:induction false} JoinBytes(pieces: seq<string>, tail: bool)
    requires ArePieces(pieces, tail)
    ensures OnlyAddressBytes(Join(':', pieces))
    decreases |pieces|
  {
    if |pieces| == 1 {
      if tail {
        AddressLanguage(pieces[0]);
        AddressBytes(pieces[0], 4);
      }
    } else if |pieces| > 1 {
      PiecesTail(pieces, tail);
      JoinBytes(pieces[1..], tail);
    }
  }

  lemma Ipv6Bytes(s: string)
    requires IsIpv6(s)
    ensures OnlyAddressBytes(s)
  {
    Ipv6Language(s);
    if pieces, tail :| IsFull(s, pieces, tail) {
      JoinBytes(pieces, tail);
    } else if left, right, tail :| IsCompressed(s, left, right, tail) {
      JoinBytes(left, false);
      JoinBytes(right, tail);
    } else {
      var left, right :| IsOverrunOf(s, left, right);
      JoinBytes(left, false);
      JoinBytes(right, false);
    }
  }
}
