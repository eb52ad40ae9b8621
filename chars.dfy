/** Character classes used by the log patterns and by Python's number
    conversions. */
module Chars {

  /** The bases the log uses: hexadecimal for byte tokens, decimal for
      measurement values. */
  type Radix = b: nat | b == 10 || b == 16 witness 10

  /** Whitespace as Python's str.isspace() sees it. The regular-expression
      class `\s` and str.split() with no argument use this set. */
  predicate IsSpace(c: char) {
    var n := c as int;
    (0x09 <= n <= 0x0D) || (0x1C <= n <= 0x20) || n == 0x85 || n == 0xA0 || n == 0x1680 ||
    (0x2000 <= n <= 0x200A) || n == 0x2028 || n == 0x2029 || n == 0x202F || n == 0x205F || n == 0x3000
  }

  /** The whitespace float() strips from both ends of its argument. float()
      first turns every non-ASCII whitespace character into a space and then
      strips only the ASCII characters `\t`, `\n`, `\v`, `\f`, `\r` and the
      space, so the separators U+001C to U+001F, whitespace to str.isspace(),
      are kept and make the conversion fail. */
  predicate IsFloatSpace(c: char) {
    IsSpace(c) && !(0x1C <= c as int <= 0x1F)
  }

  /** The regular-expression class `\w`, restricted to ASCII. */
  predicate IsWordChar(c: char) {
    'a' <= c <= 'z' || 'A' <= c <= 'Z' || '0' <= c <= '9' || c == '_'
  }

  /** A digit of `base`; hexadecimal letters in either case. */
  predicate IsDigit(c: char, base: Radix) {
    '0' <= c <= '9' || (base == 16 && ('a' <= c <= 'f' || 'A' <= c <= 'F'))
  }

  function DigitValue(c: char, base: Radix): (d: nat)
    requires IsDigit(c, base)
    ensures d < base
    ensures ('0' <= c <= '9') == (d < 10)
  {
    if '0' <= c <= '9' then c as int - '0' as int
    else if 'a' <= c <= 'f' then c as int - 'a' as int + 10
    else c as int - 'A' as int + 10
  }

  /** The upper-case digit of `base` whose value is `d`. */
  function DigitChar(d: nat, base: Radix): (c: char)
    requires d < base
    ensures IsDigit(c, base) && DigitValue(c, base) == d
    ensures c != '0' <==> d != 0
  {
    if d < 10 then ('0' as int + d) as char else ('A' as int + d - 10) as char
  }
}
