/** JSON string escaping (json_escape in src/output.rs) and a decoder that follows section 7 of
    RFC 8259. */
module JsonText {
  import opened Wrappers

  // ------------------------------------------------------------ the encoder

  /** `char::is_control`: the Unicode category Cc. */
  predicate IsControl(c: char) { c as int < 0x20 || 0x7F <= c as int <= 0x9F }

  function HexDigit(n: nat): char
    requires n < 16
  {
    if n < 10 then (n + 48) as char else (n + 87) as char
  }

  /** Four lower-case hexadecimal digits. */
  function Hex4(n: nat): string
    requires n < 0x10000
  {
    [HexDigit(n / 0x1000), HexDigit(n / 0x100 % 16), HexDigit(n / 0x10 % 16), HexDigit(n % 16)]
  }

  function EscapeChar(c: char): string {
    if c == '"' then "\\\""
    else if c == '\\' then "\\\\"
    else if c == '\n' then "\\n"
    else if c == '\r' then "\\r"
    else if c == '\t' then "\\t"
    else if IsControl(c) then "\\u" + Hex4(c as int)
    else [c]
  }

  function Escaped(input: string): string {
    if input == "" then "" else Escaped(input[..|input| - 1]) + EscapeChar(input[|input| - 1])
  }

  method JsonEscape(input: string) returns (escaped: string)
    ensures escaped == Escaped(input)
  {
    escaped := "";
    for i := 0 to |input|
      invariant escaped == Escaped(input[..i])
    {
      assert input[..i + 1][..i] == input[..i];
      var c := input[i];
      match c {
        case '"' => escaped := escaped + "\\\"";
        case '\\' => escaped := escaped + "\\\\";
        case '\n' => escaped := escaped + "\\n";
        case '\r' => escaped := escaped + "\\r";
        case '\t' => escaped := escaped + "\\t";
        case _ =>
          if IsControl(c) {
            escaped := escaped + "\\u" + Hex4(c as int);
          } else {
            escaped := escaped + [c];
          }
      }
    }
    assert input[..|input|] == input;
  }

  // ------------------------------------------------------------ the decoder

  function HexValue(c: char): (n: Option<nat>)
    ensures n.Some? ==> n.value < 16
  {
    if '0' <= c <= '9' then Some(c as int - 48)
    else if 'a' <= c <= 'f' then Some(c as int - 87)
    else if 'A' <= c <= 'F' then Some(c as int - 55)
    else None
  }

  /** The code unit that four hexadecimal digits name. */
  function CodeUnit(text: string): (n: Option<nat>)
    ensures n.Some? ==> n.value < 0x10000
  {
    if |text| < 4 then None
    else
      var a, b, c, d := HexValue(text[0]), HexValue(text[1]), HexValue(text[2]), HexValue(text[3]);
      if a.None? || b.None? || c.None? || d.None? then None
      else Some(a.value * 0x1000 + b.value * 0x100 + c.value * 0x10 + d.value)
  }

  predicate IsHighSurrogate(n: nat) { 0xD800 <= n <= 0xDBFF }

  predicate IsLowSurrogate(n: nat) { 0xDC00 <= n <= 0xDFFF }

  function FromSurrogates(high: nat, low: nat): char
    requires IsHighSurrogate(high) && IsLowSurrogate(low)
  {
    (0x10000 + (high - 0xD800) * 0x400 + (low - 0xDC00)) as char
  }

  /** The characters of the two-letter escapes. */
  function ShortEscape(c: char): Option<char> {
    if c == '"' || c == '\\' || c == '/' then Some(c)
    else if c == 'b' then Some(8 as char)
    else if c == 'f' then Some(12 as char)
    else if c == 'n' then Some('\n')
    else if c == 'r' then Some('\r')
    else if c == 't' then Some('\t')
    else None
  }

  /** One character of a JSON string and how many characters of text it takes. A surrogate counts
      only in a pair. */
  function DecodeChar(text: string): (r: Option<(char, nat)>)
    ensures r.Some? ==> 0 < r.value.1 <= |text|
  {
    if text == "" || text[0] == '"' || text[0] as int < 0x20 then None
    else if text[0] != '\\' then Some((text[0], 1))
    else if |text| < 2 then None
    else if text[1] != 'u' then
      var short := ShortEscape(text[1]);
      if short.None? then None else Some((short.value, 2))
    else
      var unit := CodeUnit(text[2..]);
      if unit.None? || IsLowSurrogate(unit.value) then None
      else if !IsHighSurrogate(unit.value) then Some((unit.value as char, 6))
      else if |text| < 12 || text[6] != '\\' || text[7] != 'u' then None
      else
        var low := CodeUnit(text[8..]);
        if low.None? || !IsLowSurrogate(low.value) then None
        else Some((FromSurrogates(unit.value, low.value), 12))
  }

  /** The string up to its closing quotation mark, and the text after that mark. */
  function Decode(text: string): Option<(string, string)>
    decreases |text|
  {
    if text == "" then None
    else if text[0] == '"' then Some(("", text[1..]))
    else
      var next := DecodeChar(text);
      if next.None? then None
      else
        var rest := Decode(text[next.value.1..]);
        if rest.None? then None else Some(([next.value.0] + rest.value.0, rest.value.1))
  }

  // ------------------------------------------------------------ the round trip

  lemma HexReadsBack(n: nat)
    requires n < 16
    ensures HexValue(HexDigit(n)) == Some(n)
  {}

  lemma HexSum(n: nat)
    requires n < 0x10000
    ensures n / 0x1000 < 16
    ensures n / 0x1000 * 0x1000 + n / 0x100 % 16 * 0x100 + n / 0x10 % 16 * 0x10 + n % 16 == n
  {
    assert n / 0x100 == n / 0x10 / 0x10 && n / 0x1000 == n / 0x100 / 0x10;
  }

  lemma Hex4ReadsBack(n: nat, rest: string)
    requires n < 0x10000
    ensures CodeUnit(Hex4(n) + rest) == Some(n)
  {
    hide HexDigit, HexValue;
    HexSum(n);
    HexReadsBack(n / 0x1000);
    HexReadsBack(n / 0x100 % 16);
    HexReadsBack(n / 0x10 % 16);
    HexReadsBack(n % 16);
  }

  /** Each escaped character decodes to itself and leaves what follows it. */
  lemma CharReadsBack(c: char, rest: string)
    ensures var text := EscapeChar(c) + rest;
            && text[0] != '"' && DecodeChar(text) == Some((c, |EscapeChar(c)|))
            && text[|EscapeChar(c)|..] == rest
  {
    if IsControl(c) && c != '\n' && c != '\r' && c != '\t' {
      hide Hex4, CodeUnit;
      Hex4ReadsBack(c as int, rest);
      HexIsFour(c as int);
      assert ("\\u" + Hex4(c as int) + rest)[2..] == Hex4(c as int) + rest;
    }
  }

  /** Escaped text holds no control character and is as short as it can be: two letters for the five
      characters that have such an escape, six for other control characters, one for the rest. */
  lemma EscapeIsShort(c: char)
    ensures forall i :: 0 <= i < |EscapeChar(c)| ==> !IsControl(EscapeChar(c)[i])
    ensures |EscapeChar(c)| == if c in {'"', '\\', '\n', '\r', '\t'} then 2
                               else if c as int < 0x20 || 0x7F <= c as int <= 0x9F then 6 else 1
  {}

  lemma HexIsFour(n: nat)
    requires n < 0x10000
    ensures |Hex4(n)| == 4
  {}

  lemma {:induction false} ReadsBackBefore(input: string, text: string)
    requires Decode(text).Some?
    ensures Decode(Escaped(input) + text) == Some((input + Decode(text).value.0, Decode(text).value.1))
    decreases |input|
  {
    hide EscapeChar, DecodeChar;
    if input == "" {
      assert Escaped(input) + text == text;
      assert input + Decode(text).value.0 == Decode(text).value.0;
    } else {
      var last := |input| - 1;
      var c, head := input[last], input[..last];
      var after := EscapeChar(c) + text;
      CharReadsBack(c, text);
      assert Decode(after) == Some(([c] + Decode(text).value.0, Decode(text).value.1));
      ReadsBackBefore(head, after);
      assert Escaped(head) + after == Escaped(input) + text;
      assert head + ([c] + Decode(text).value.0) == input + Decode(text).value.0;
    }
  }

  /** A decoder recovers every string from its escaped form between quotation marks, wherever in a
      document it stands. */
  lemma EscapedReadsBack(input: string, rest: string)
    ensures Decode(Escaped(input) + "\"" + rest) == Some((input, rest))
  {
    hide EscapeChar, DecodeChar;
    var text := "\"" + rest;
    assert text[1..] == rest;
    ReadsBackBefore(input, text);
    assert Escaped(input) + text == Escaped(input) + "\"" + rest;
    assert input + "" == input;
  }

  /** So no two strings escape alike. */
  lemma EscapingIsInjective(a: string, b: string)
    requires Escaped(a) == Escaped(b)
    ensures a == b
  {
    EscapedReadsBack(a, "");
    EscapedReadsBack(b, "");
  }
}
