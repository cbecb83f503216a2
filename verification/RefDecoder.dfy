/** Decoding a `$ref` into the literal path or id under which schemas are registered. */
module RefDecoder {
  /** `gsub` of a tilde and a digit by one character. */
  function Gsub(s: string, digit: char, to: char): string {
    if s == [] then []
    else if |s| >= 2 && s[0] == '~' && s[1] == digit then [to] + Gsub(s[2..], digit, to)
    else [s[0]] + Gsub(s[1..], digit, to)
  }

  /** `decode_ref`; the URI unescape is a library call. */
  function DecodeRef(unescape: string -> string, ref: string): string {
    Gsub(Gsub(unescape(ref), '1', '/'), '0', '~')
  }
}
