/** Text facts the path grammars use: UTF-8 lengths, control characters, ASCII case. */
module Text {

  function Utf8Width(c: char): nat {
    if c < 0x80 as char then 1
    else if c < 0x800 as char then 2
    else if c < 0x1_0000 as char then 3
    else 4
  }

  /** The length of `s` in bytes, as Rust's `str::len` counts it. */
  function Utf8Length(s: string): nat {
    if s == "" then 0 else Utf8Width(s[0]) + Utf8Length(s[1..])
  }

  /** `char::is_control`: the Unicode category Cc. */
  predicate IsControl(c: char) {
    c < 0x20 as char || 0x7F as char <= c <= 0x9F as char
  }

  function AsciiLower(c: char): char {
    if 'A' <= c <= 'Z' then c - 'A' + 'a' else c
  }

  predicate EqIgnoreAsciiCase(a: string, b: string) {
    |a| == |b| && forall i :: 0 <= i < |a| ==> AsciiLower(a[i]) == AsciiLower(b[i])
  }
}
