/** Blank text, as `str::trim` sees it. */
module Text {
  /** The Unicode White_Space characters. */
  predicate IsWhitespace(c: char) {
    var u := c as int;
    9 <= u <= 13 || u in {0x20, 0x85, 0xA0, 0x1680, 0x2028, 0x2029, 0x202F, 0x205F, 0x3000} || 0x2000 <= u <= 0x200A
  }

  predicate Blank(text: string) { forall i :: 0 <= i < |text| ==> IsWhitespace(text[i]) }
}
