/** The two number conversions the extractor calls: int(token, 16) for byte
    tokens and float(text) for measurement values, restricted to what can be
    written with ASCII characters. */
module Numbers {
  import opened Wrappers
  import opened Chars
  import opened Scan

  /** Value of a string of digits of `base`, most significant digit first. */
  function DigitsValue(u: string, base: Radix): nat
    requires forall k :: 0 <= k < |u| ==> IsDigit(u[k], base)
  {
    if u == [] then 0 else DigitsValue(u[..|u| - 1], base) * base + DigitValue(u[|u| - 1], base)
  }

  /** Shortest upper-case digit string of `n` in `base`; DigitsValue reads it back. */
  function ToDigits(n: nat, base: Radix): (u: string)
    ensures u != [] && forall k :: 0 <= k < |u| ==> IsDigit(u[k], base)
    ensures DigitsValue(u, base) == n
    ensures |u| > 1 ==> u[0] != '0'
    decreases n
  {
    if n < base then [DigitChar(n, base)]
    else
      var u := ToDigits(n / base, base) + [DigitChar(n % base, base)];
      assert u[..|u| - 1] == ToDigits(n / base, base);
      u
  }

  /** `s[i..j]` is a digit group as Python's numeric literals allow it:
      digits, with single underscores each between two digits. */
  predicate IsGroupAt(s: string, i: nat, j: nat, base: Radix)
    requires i <= j <= |s|
  {
    && i < j
    && forall k :: i <= k < j ==>
         IsDigit(s[k], base) || (s[k] == '_' && i < k < j - 1 && BetweenDigits(s, k, base))
  }

  /** The characters on both sides of position `k` are digits. */
  predicate BetweenDigits(s: string, k: nat, base: Radix)
    requires 0 < k < |s| - 1
  {
    IsDigit(s[k - 1], base) && IsDigit(s[k + 1], base)
  }

  /** Every character is a digit or an underscore. */
  predicate DigitsOrUnderscores(u: string, base: Radix) {
    forall k :: 0 <= k < |u| ==> IsDigit(u[k], base) || u[k] == '_'
  }

  lemma {:induction false} SliceDigitsOrUnderscores(s: string, i: nat, j: nat, base: Radix)
    requires i <= j <= |s|
    requires forall k :: i <= k < j ==> IsDigit(s[k], base) || s[k] == '_'
    ensures DigitsOrUnderscores(s[i..j], base)
  {
    assert forall k :: 0 <= k < j - i ==> s[i..j][k] == s[i + k];
  }

  /** End of the longest digit group that starts at `i`. */
  function GroupEnd(s: string, i: nat, base: Radix): (j: nat)
    requires i < |s| && IsDigit(s[i], base)
    ensures i < j <= |s|
    ensures IsGroupAt(s, i, j, base)
    ensures j == |s| || (!IsDigit(s[j], base) && !(s[j] == '_' && j + 1 < |s| && IsDigit(s[j + 1], base)))
    decreases |s| - i
  {
    if i + 1 < |s| && IsDigit(s[i + 1], base) then
      var j := GroupEnd(s, i + 1, base);
      GroupExtend(s, i, i + 1, j, base);
      j
    else if i + 2 < |s| && s[i + 1] == '_' && IsDigit(s[i + 2], base) then
      var j := GroupEnd(s, i + 2, base);
      GroupExtend(s, i, i + 2, j, base);
      j
    else i + 1
  }

  /** A digit, optionally followed by an underscore, in front of a group is a group. */
  lemma {:induction false} GroupExtend(s: string, i: nat, m: nat, j: nat, base: Radix)
    requires i < m <= i + 2 && m < j <= |s|
    requires IsDigit(s[i], base) && (m == i + 1 || s[i + 1] == '_')
    requires IsGroupAt(s, m, j, base)
    ensures IsGroupAt(s, i, j, base)
  {
    assert IsDigit(s[m], base);
    if m == i + 2 {
      assert BetweenDigits(s, i + 1, base);
    }
  }

  /** The digits of `u`, underscores dropped. */
  function Digits(u: string): (d: string)
    ensures |d| <= |u|
    ensures forall c :: c in d ==> c in u && c != '_'
  {
    if u == [] then [] else (if u[0] == '_' then [] else [u[0]]) + Digits(u[1..])
  }

  lemma {:induction false} DigitsOfDigitString(u: string, base: Radix)
    requires forall k :: 0 <= k < |u| ==> IsDigit(u[k], base)
    ensures Digits(u) == u
  {
    if u != [] {
      DigitsOfDigitString(u[1..], base);
    }
  }

  /** Value of the digit group `s[i..j]`, underscores ignored. */
  function GroupValue(s: string, i: nat, j: nat, base: Radix): nat
    requires i <= j <= |s|
    requires forall k :: i <= k < j ==> IsDigit(s[k], base) || s[k] == '_'
  {
    SliceDigitsOrUnderscores(s, i, j, base);
    var u := s[i..j];
    assert forall c :: c in Digits(u) ==> IsDigit(c, base) by {
      forall c | c in Digits(u) ensures IsDigit(c, base) {
        var k :| 0 <= k < |u| && u[k] == c;
      }
    }
    DigitsValue(Digits(u), base)
  }

  /** A digit group that runs exactly from `q` to the end of `t`, and its value. */
  function GroupToEnd(t: string, q: nat, base: Radix): (r: Option<nat>)
    ensures r.Some? ==> q < |t| && IsGroupAt(t, q, |t|, base)
    ensures r.Some? ==> forall k :: q <= k < |t| ==> IsDigit(t[k], base) || t[k] == '_'
    ensures r.Some? ==> r.value == GroupValue(t, q, |t|, base)
  {
    if q < |t| && IsDigit(t[q], base) && GroupEnd(t, q, base) == |t| then
      Some(GroupValue(t, q, |t|, base))
    else None
  }

  /** Length of an optional leading sign. */
  function SignLength(t: string): nat {
    if |t| > 0 && (t[0] == '+' || t[0] == '-') then 1 else 0
  }

  predicate IsNegative(t: string) {
    |t| > 0 && t[0] == '-'
  }

  /** Python's int(t, 16) for a token without surrounding whitespace: an
      optional sign, an optional `0x`/`0X` prefix that may be followed by one
      underscore, then a digit group. None stands for the ValueError. */
  function ParseInt16(t: string): (r: Option<int>)
  {
    var p := SignLength(t);
    var q := if OccursAt(t, p, "0x") || OccursAt(t, p, "0X") then
               (if OccursAt(t, p + 2, "_") then p + 3 else p + 2)
             else p;
    match GroupToEnd(t, q, 16)
    case None => None
    case Some(v) =>
      var n: int := v;
      Some(if IsNegative(t) then -n else n)
  }

  /** A token int(t, 16) accepts is made of hexadecimal digits, underscores,
      the prefix letter and a sign. */
  lemma {:induction false} ParseInt16Alphabet(t: string)
    requires ParseInt16(t).Some?
    ensures forall k :: 0 <= k < |t| ==> IsDigit(t[k], 16) || t[k] in "_xX+-"
  {
    var p := SignLength(t);
    var q := if OccursAt(t, p, "0x") || OccursAt(t, p, "0X") then
               (if OccursAt(t, p + 2, "_") then p + 3 else p + 2)
             else p;
    assert GroupToEnd(t, q, 16).Some?;
    forall k | 0 <= k < |t| ensures IsDigit(t[k], 16) || t[k] in "_xX+-" {
      if k >= q {
        assert t[k] == t[q..][k - q];
      } else if k < p {
        assert t[k] == t[0];
      } else if k < p + 2 {
        assert t[p..p + 2] == "0x" || t[p..p + 2] == "0X";
        assert t[k] == t[p..p + 2][k - p];
      } else {
        assert t[p + 2..p + 3] == "_";
        assert t[k] == t[p + 2..p + 3][0];
      }
    }
  }

  /** A plain hexadecimal token converts to the value of its digits, with no
      bound on its size. */
  lemma {:induction false} PlainHexToken(t: string)
    requires t != [] && forall k :: 0 <= k < |t| ==> IsDigit(t[k], 16)
    ensures ParseInt16(t) == Some(DigitsValue(t, 16))
  {
    assert SignLength(t) == 0 && !IsNegative(t);
    assert !OccursAt(t, 0, "0x") && !OccursAt(t, 0, "0X") by {
      if |t| >= 2 {
        assert IsDigit(t[1], 16);
        assert t[0..2][1] == t[1];
      }
    }
    var j := GroupEnd(t, 0, 16);
    assert j == |t|;
    assert t[0..|t|] == t;
    DigitsOfDigitString(t, 16);
    assert GroupToEnd(t, 0, 16) == Some(DigitsValue(t, 16));
  }

  /** Formatting a number in hexadecimal and converting it back gives the number. */
  lemma {:induction false} HexRoundTrip(n: nat)
    ensures ParseInt16(ToDigits(n, 16)) == Some(n)
  {
    PlainHexToken(ToDigits(n, 16));
  }

  datatype Number = Finite(value: real) | Infinite(negative: bool) | NaN

  function Pow10(e: nat): (r: nat)
    ensures r >= 1
  {
    if e == 0 then 1 else 10 * Pow10(e - 1)
  }

  /** m * 10^e as an exact real. */
  function Scale(m: nat, e: int): real {
    if e >= 0 then (m * Pow10(e)) as real else m as real / Pow10(-e) as real
  }

  function LowerAscii(s: string): (r: string)
    ensures |r| == |s|
  {
    if s == [] then []
    else [if 'A' <= s[0] <= 'Z' then (s[0] as int + 32) as char else s[0]] + LowerAscii(s[1..])
  }

  /** `s` with the whitespace float() ignores removed at both ends. */
  function Trim(s: string): (t: string)
    ensures |t| <= |s|
    ensures t == [] || (!IsFloatSpace(t[0]) && !IsFloatSpace(t[|t| - 1]))
    decreases |s|
  {
    if s != [] && IsFloatSpace(s[0]) then Trim(s[1..])
    else if s != [] && IsFloatSpace(s[|s| - 1]) then Trim(s[..|s| - 1])
    else s
  }

  /** A decimal literal without sign: digits, an optional fraction, an
      optional exponent; at least one digit before the exponent. */
  function ParseDecimal(u: string): Option<real> {
    var i1 := if 0 < |u| && IsDigit(u[0], 10) then GroupEnd(u, 0, 10) else 0;
    var hasPoint := i1 < |u| && u[i1] == '.';
    var f0 := if hasPoint then i1 + 1 else i1;
    var f1 := if hasPoint && f0 < |u| && IsDigit(u[f0], 10) then GroupEnd(u, f0, 10) else f0;
    if i1 == 0 && f1 == f0 then None
    else
      var whole := if i1 == 0 then 0 else GroupValue(u, 0, i1, 10);
      var fraction := if f1 == f0 then 0 else GroupValue(u, f0, f1, 10);
      var k := |Digits(u[f0..f1])|;
      var m := whole * Pow10(k) + fraction;
      if f1 == |u| then Some(Scale(m, -k))
      else if u[f1] == 'e' || u[f1] == 'E' then
        var x := u[f1 + 1..];
        match GroupToEnd(x, SignLength(x), 10)
        case None => None
        case Some(e) =>
          var n: int := e;
          Some(Scale(m, (if IsNegative(x) then -n else n) - k))
      else None
  }

  /** Python's float(s): surrounding whitespace ignored, an optional sign,
      then `inf`, `infinity` or `nan` in any letter case, or a decimal
      literal. The value is kept exact. None stands for the ValueError. */
  function ParseFloat(s: string): (r: Option<Number>)
    ensures r.Some? ==> Trim(s) != []
  {
    var t := Trim(s);
    var p := SignLength(t);
    var word := LowerAscii(t[p..]);
    if word == "inf" || word == "infinity" then Some(Infinite(IsNegative(t)))
    else if word == "nan" then Some(NaN)
    else match ParseDecimal(t[p..])
      case None => None
      case Some(x) => Some(Finite(if IsNegative(t) then -x else x))
  }
}
