/**
 The characters that the formats are written in, letter by letter as the standards list them, and the
 proof that the scanners' tests are these.
 */
module Alphabets {
  import opened Bytes
  import opened Utf8
  import opened Scan
  import opened HexText
  import S = Scheme
  import A = AddrSpec
  import U = UriAuthority
  import P = UriTemplate

  const DIGITS: string := "0123456789"
  const LOWER_CASE: string := "abcdefghijklmnopqrstuvwxyz"
  const UPPER_CASE: string := "ABCDEFGHIJKLMNOPQRSTUVWXYZ"

  predicate IsLetter(c: char) { c in LOWER_CASE || c in UPPER_CASE }

  lemma LettersAre(c: char)
    ensures IsAlpha(c) <==> IsLetter(c)
    ensures IsDigit(c) <==> c in DIGITS
  {
  }

  predicate IsAlphanumeric(c: char) { IsLetter(c) || c in DIGITS }

  /** Section 2.3 of RFC 3986. */
  predicate IsUnreservedChar(c: char) { IsAlphanumeric(c) || c == '-' || c == '.' || c == '_' || c == '~' }

  /** Section 2.2 of RFC 3986. */
  const SUB_DELIMS: set<char> := {'!', '$', '&', '\'', '(', ')', '*', '+', ',', ';', '='}

  /** The printing characters of ASCII that are no letters and no digits. */
  const PUNCTUATION: set<char> := {
    '!', '"', '#', '$', '%', '&', '\'', '(', ')', '*', '+', ',', '-', '.', '/', ':', ';', '<', '=', '>', '?', '@',
    '[', '\\', ']', '^', '_', '`', '{', '|', '}', '~'}

  predicate IsPrinting(c: char) { IsAlphanumeric(c) || c in PUNCTUATION }

  /** The single characters of a class. */
  predicate IsListed(k: Class, c: char) {
    match k
    case PChar => IsUnreservedChar(c) || c in SUB_DELIMS || c in {':', '@'}
    case PCharNoColon => IsUnreservedChar(c) || c in SUB_DELIMS || c == '@'
    case RegChar => IsUnreservedChar(c) || c in SUB_DELIMS
    case UserChar => IsUnreservedChar(c) || c in SUB_DELIMS || c == ':'
    case QueryChar => IsUnreservedChar(c) || c in SUB_DELIMS || c in {':', '@', '/', '?'}
    case AText =>
      IsAlphanumeric(c)
      || c in {'!', '#', '$', '%', '&', '\'', '*', '+', '-', '/', '=', '?', '^', '_', '`', '{', '|', '}', '~'}
    case QContent => (IsPrinting(c) && c !in {'"', '\\'}) || c in {' ', '\t'}
    case DContent => IsPrinting(c) && c !in {'[', '\\', ']'}
    case LabelChar => IsAlphanumeric(c) || c == '-'
    case Literal => IsPrinting(c) && c !in {'"', '\'', '%', '<', '>', '\\', '^', '`', '{', '|', '}'}
    case VarChar => IsAlphanumeric(c) || c == '_'
    case PointerChar => c as int < 128 && c !in {'/', '~'}
  }

  /** The classes of RFC 3986 and RFC 6570 take percent triples. */
  predicate TakesTriples(k: Class) {
    match k
    case PChar | PCharNoColon | RegChar | UserChar | QueryChar | Literal | VarChar => true
    case AText | QContent | DContent | LabelChar | PointerChar => false
  }

  /** Literals of templates and pointer tokens are any Unicode; elsewhere it is for the flag to say. */
  predicate TakesUnicode(k: Class, utf8: bool) {
    match k
    case Literal | PointerChar => true
    case VarChar => false
    case PChar | PCharNoColon | RegChar | UserChar | QueryChar | AText | QContent | DContent | LabelChar => utf8
  }

  /** A character of a class as the standards have it. */
  ghost predicate IsCharacter(k: Class, utf8: bool, t: string) {
    || (|t| == 1 && IsListed(k, t[0]))
    || (TakesTriples(k) && exists b: nat :: SpellsByte(t, b))
    || (k.QContent? && |t| == 2 && t[0] == '\\' && (IsPrinting(t[1]) || t[1] in {' ', '\t'}))
    || (k.PointerChar? && (t == "~0" || t == "~1"))
    || (TakesUnicode(k, utf8) && exists v :: v >= 0x80 && IsEncoding(t, v))
  }

  lemma PrintingAre(c: char)
    ensures IsVChar(c) <==> IsPrinting(c)
  {
    LettersAre(c);
  }

  lemma AlphanumericAre(c: char)
    ensures IsAlpha(c) || IsDigit(c) <==> IsAlphanumeric(c)
    ensures IsAlphanumeric(c) ==> c as int < 128
  {
    LettersAre(c);
  }

  lemma UnreservedAre(c: char)
    ensures IsUnreserved(c) <==> IsUnreservedChar(c)
    ensures IsSubDelim(c) <==> c in SUB_DELIMS
    ensures IsUnreserved(c) || IsSubDelim(c) ==> c as int < 128
  {
    AlphanumericAre(c);
  }

  /** The ranges of the source, without the printing characters that are left out. */
  lemma RangesAre(c: char)
    ensures IsPlain(QContent, c) <==> (IsVChar(c) && c !in {'"', '\\'}) || c in {' ', '\t'}
    ensures IsPlain(DContent, c) <==> IsVChar(c) && c !in {'[', '\\', ']'}
    ensures IsPlain(Literal, c) <==>
            IsVChar(c) && c !in {'"', '\'', '%', '<', '>', '\\', '^', '`', '{', '|', '}'}
  {
  }

  lemma UriIsListed(k: Class, c: char)
    requires k in {PChar, PCharNoColon, RegChar, UserChar, QueryChar}
    ensures IsAscii(c) && IsPlain(k, c) <==> IsListed(k, c)
  {
    UnreservedAre(c);
  }

  lemma PlainIsListed(k: Class, c: char)
    ensures IsAscii(c) && IsPlain(k, c) <==> IsListed(k, c)
  {
    match k
    case PChar | PCharNoColon | RegChar | UserChar | QueryChar => UriIsListed(k, c);
    case AText | LabelChar | VarChar => AlphanumericAre(c);
    case QContent | DContent | Literal => RangeIsListed(k, c);
    case PointerChar =>
  }

  lemma RangeIsListed(k: Class, c: char)
    requires k in {QContent, DContent, Literal}
    ensures IsAscii(c) && IsPlain(k, c) <==> IsListed(k, c)
  {
    PrintingAre(c);
    RangesAre(c);
  }

  /** The scanners' characters are exactly these. */
  lemma CharactersAre(k: Class, utf8: bool, t: string)
    ensures UnitText(k, utf8, t) <==> IsCharacter(k, utf8, t)
  {
    if |t| == 1 { PlainIsListed(k, t[0]); }
    if |t| == 2 { PrintingAre(t[1]); }
    TripleLanguage(t);
  }

  /** Section 3.1 of RFC 3986. */
  lemma SchemeCharsAre(c: char)
    ensures !S.NotSchemeChar(c) <==> IsAlphanumeric(c) || c in {'+', '-', '.'}
  {
    LettersAre(c);
  }

  /** An address of a future version, section 3.2.2 of RFC 3986. */
  lemma FutureCharsAre(c: char)
    ensures U.IsFutureChar(c) <==> IsUnreservedChar(c) || c in SUB_DELIMS || c == ':'
  {
    LettersAre(c);
  }

  /** The tag of an address literal, section 4.1.3 of RFC 5321. */
  lemma TagsAre(t: string)
    ensures A.IsLdh(t) <==>
      t != [] && IsAlphanumeric(t[0]) && IsAlphanumeric(t[|t| - 1])
      && forall i :: 0 <= i < |t| ==> IsAlphanumeric(t[i]) || t[i] == '-'
    ensures A.HasAlpha(t) <==> exists i :: 0 <= i < |t| && IsLetter(t[i])
  {
    forall i | 0 <= i < |t|
      ensures A.IsLetDig(t[i]) <==> IsAlphanumeric(t[i])
      ensures IsAlpha(t[i]) <==> IsLetter(t[i])
    {
      LettersAre(t[i]);
    }
  }

  /** Section 2.2 of RFC 6570. */
  lemma OperatorsAre(c: char)
    ensures P.IsOperator(c) <==> c in {'+', '#', '.', '/', ';', '?', '&', '=', ',', '!', '@', '|'}
  {
  }
}
