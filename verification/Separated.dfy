/** Lists of items with a separator between them, for any item recognizer. */
module Separated {
  import opened Bytes

  /** Length of `item *(sep item)` at the front, with one more separator at the very end if allowed; or 0. */
  function ListLen(item: Recognizer, sep: char, finalSep: bool, s: string): nat
    decreases |s|
  {
    var n := item(s);
    if n == 0 || n > |s| then 0
    else if n < |s| && s[n] == sep then
      var m := ListLen(item, sep, finalSep, s[n + 1..]);
      if m > 0 then n + 1 + m else if finalSep && n + 1 == |s| then |s| else 0
    else n
  }

  /**
   The recognizer takes exactly the texts of `ok`, provided a byte of `stop` (or nothing) follows,
   and only takes such texts.
   */
  ghost predicate Recognizes(item: Recognizer, ok: string -> bool, stop: char -> bool) {
    && (forall s :: Finds(item, ok, s))
    && (forall t, rest :: Takes(item, ok, stop, t, rest))
  }

  ghost predicate Finds(item: Recognizer, ok: string -> bool, s: string) {
    var n := item(s);
    n > 0 ==> n <= |s| && ok(s[..n])
  }

  ghost predicate Takes(item: Recognizer, ok: string -> bool, stop: char -> bool, t: string, rest: string) {
    ok(t) && (rest == [] || stop(rest[0])) ==> t != [] && item(t + rest) == |t|
  }

  ghost predicate AllOk(ok: string -> bool, parts: seq<string>) {
    forall i :: 0 <= i < |parts| ==> ok(parts[i])
  }

  function Final(sep: char, final: bool): string { if final then [sep] else [] }

  ghost predicate Spells(ok: string -> bool, sep: char, s: string, parts: seq<string>, final: bool) {
    parts != [] && AllOk(ok, parts) && s == Join(sep, parts) + Final(sep, final)
  }

  lemma {:induction false} ListSound(
    item: Recognizer, ok: string -> bool, stop: char -> bool, sep: char, finalSep: bool, s: string)
    returns (parts: seq<string>, final: bool)
    requires Recognizes(item, ok, stop) && ListLen(item, sep, finalSep, s) > 0
    ensures var n := ListLen(item, sep, finalSep, s);
            n <= |s| && Spells(ok, sep, s[..n], parts, final) && (final ==> finalSep && n == |s|)
    decreases |s|
  {
    var n, len := item(s), ListLen(item, sep, finalSep, s);
    assert Finds(item, ok, s);
    var head := s[..n];
    parts, final := [head], false;
    assert AllOk(ok, parts);
    if n < |s| && s[n] == sep {
      var rest := s[n + 1..];
      var m := ListLen(item, sep, finalSep, rest);
      assert s == head + [sep] + rest;
      if m > 0 {
        var more;
        more, final := ListSound(item, ok, stop, sep, finalSep, rest);
        parts := [head] + more;
        JoinCons(sep, head, more);
        AppendAround(head, [sep], Join(sep, more), Final(sep, final));
        assert s[..len] == head + [sep] + rest[..m];
      } else {
        final := true;
        assert s[..len] == head + [sep];
      }
    }
  }

  /** One item, a separator, and a list. */
  lemma ListStep(
    item: Recognizer, ok: string -> bool, stop: char -> bool, sep: char, finalSep: bool, t: string, more: string)
    requires Recognizes(item, ok, stop) && stop(sep) && ok(t) && ListLen(item, sep, finalSep, more) > 0
    ensures ListLen(item, sep, finalSep, t + [sep] + more) == |t| + 1 + ListLen(item, sep, finalSep, more)
  {
    var s, tail := t + [sep] + more, [sep] + more;
    assert Takes(item, ok, stop, t, tail);
    assert s == t + tail;
    assert s[|t| + 1..] == more;
  }

  lemma {:induction false} ListComplete(
    item: Recognizer, ok: string -> bool, stop: char -> bool, sep: char, finalSep: bool,
    parts: seq<string>, rest: string)
    requires Recognizes(item, ok, stop) && stop(sep)
    requires parts != [] && AllOk(ok, parts)
    requires rest == [] || (stop(rest[0]) && rest[0] != sep)
    ensures Join(sep, parts) != []
    ensures ListLen(item, sep, finalSep, Join(sep, parts) + rest) == |Join(sep, parts)|
    decreases |parts|
  {
    var t := parts[0];
    var s := Join(sep, parts) + rest;
    if |parts| == 1 {
      assert Takes(item, ok, stop, t, rest);
    } else {
      var more := Join(sep, parts[1..]);
      ListComplete(item, ok, stop, sep, finalSep, parts[1..], rest);
      ListStep(item, ok, stop, sep, finalSep, t, more + rest);
      AppendAround(t, [sep], more, rest);
    }
  }

  /** A list with a final separator. */
  lemma {:induction false} FinalComplete(
    item: Recognizer, ok: string -> bool, stop: char -> bool, sep: char, parts: seq<string>)
    requires Recognizes(item, ok, stop) && stop(sep) && item([]) == 0
    requires parts != [] && AllOk(ok, parts)
    ensures var s := Join(sep, parts) + [sep]; ListLen(item, sep, true, s) == |s|
    decreases |parts|
  {
    var t := parts[0];
    var s := Join(sep, parts) + [sep];
    if |parts| == 1 {
      assert Takes(item, ok, stop, t, [sep]);
      assert s[|t| + 1..] == [];
    } else {
      var more := Join(sep, parts[1..]) + [sep];
      FinalComplete(item, ok, stop, sep, parts[1..]);
      ListStep(item, ok, stop, sep, true, t, more);
      AppendAround(t, [sep], Join(sep, parts[1..]), [sep]);
    }
  }

  /** The whole string is a list exactly when it is spelled by some parts. */
  lemma ListLanguage(item: Recognizer, ok: string -> bool, stop: char -> bool, sep: char, finalSep: bool, s: string)
    requires Recognizes(item, ok, stop) && stop(sep) && item([]) == 0
    ensures s != [] && ListLen(item, sep, finalSep, s) == |s| <==>
            exists parts, final :: Spells(ok, sep, s, parts, final) && (final ==> finalSep)
  {
    if s != [] && ListLen(item, sep, finalSep, s) == |s| {
      var parts, final := ListSound(item, ok, stop, sep, finalSep, s);
      assert s[..|s|] == s;
    }
    if parts, final :| Spells(ok, sep, s, parts, final) && (final ==> finalSep) {
      if final {
        FinalComplete(item, ok, stop, sep, parts);
      } else {
        ListComplete(item, ok, stop, sep, finalSep, parts, []);
        assert s + [] == s;
      }
    }
  }

  lemma {:induction false} ListBound(item: Recognizer, sep: char, finalSep: bool, s: string)
    ensures ListLen(item, sep, finalSep, s) <= |s|
    decreases |s|
  {
    var n := item(s);
    if 0 < n < |s| && s[n] == sep { ListBound(item, sep, finalSep, s[n + 1..]); }
  }

  /** The list seen from the end of an item at `pos`, as the loops go on. */
  function ListTail(item: Recognizer, sep: char, finalSep: bool, s: string, pos: nat): nat
    requires pos <= |s|
  {
    if pos < |s| && s[pos] == sep then
      var m := ListLen(item, sep, finalSep, s[pos + 1..]);
      if m > 0 then pos + 1 + m else if finalSep && pos + 1 == |s| then |s| else 0
    else pos
  }

  lemma ListTailStep(item: Recognizer, sep: char, finalSep: bool, s: string, pos: nat)
    requires pos < |s| && s[pos] == sep
    ensures var rest := s[pos + 1..];
      var next := item(rest);
      ListTail(item, sep, finalSep, s, pos) ==
        if 0 < next <= |rest| then ListTail(item, sep, finalSep, s, pos + 1 + next)
        else if finalSep && pos + 1 == |s| then |s| else 0
  {
    var rest := s[pos + 1..];
    var next := item(rest);
    if 0 < next < |rest| && rest[next] == sep {
      assert rest[next + 1..] == s[pos + 1 + next + 1..];
    }
  }
}
