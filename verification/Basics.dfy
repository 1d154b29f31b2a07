/** What several modules share: an optional value, bytes, and Python's str.strip. */
module Basics {

  datatype Option<T> = None | Some(value: T)

  type Byte = b: int | 0 <= b < 256

  type Bytes = seq<Byte>

  lemma {:induction false} Associative<T>(a: seq<T>, b: seq<T>, c: seq<T>)
    ensures (a + b) + c == a + (b + c)
  {
  }

  /** What Python counts as white space in text. */
  predicate White(c: char) {
    || '\t' <= c <= '\r' || '\U{1C}' <= c <= ' ' || c in ['\U{85}', '\U{A0}', '\U{1680}']
    || '\U{2000}' <= c <= '\U{200A}' || c in ['\U{2028}', '\U{2029}', '\U{202F}', '\U{205F}', '\U{3000}']
  }

  function StripLeft(s: string): string { if s != "" && White(s[0]) then StripLeft(s[1..]) else s }

  function StripRight(s: string): string { if s != "" && White(s[|s| - 1]) then StripRight(s[..|s| - 1]) else s }

  function Strip(s: string): string { StripRight(StripLeft(s)) }
}
