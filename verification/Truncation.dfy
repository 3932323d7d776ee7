/**
 `truncate_str` of both judges: text longer than 4096 bytes is sliced at a byte position, which
 panics if that position lies within a character.
 */
module Truncation {
  type Byte = n: int | 0 <= n < 256

  const OUTPUT_MAX: nat := 4096

  /** A byte of UTF-8 that does not start a character. */
  predicate Inner(b: Byte) { 0x80 <= b < 0xC0 }

  predicate Cuts(s: seq<Byte>) { |s| > OUTPUT_MAX && Inner(s[OUTPUT_MAX]) }

  /** 4095 times the letter `a`, and an accented letter that straddles the limit. */
  function Accented(): (s: seq<Byte>)
    ensures Cuts(s) && |s| == 4097
  {
    seq(OUTPUT_MAX - 1, _ => 0x61) + [0xC3, 0xA9]
  }
}
