/** ASCII text helpers shared by the model: the JavaScript string operations the
    dashboard relies on (case mapping, trimming, `includes`, `split`, `padStart`,
    `charAt`) and the decimal printing and parsing of numbers (`String(n)`,
    `parseInt`, `parseFloat`). Strings are sequences of characters; only ASCII
    letters have a case. */
module Text {

  /** A JavaScript number as this model sees it: NaN or a finite value. */
  datatype Num = NaN | Finite(value: real)

  // ---------------------------------------------------------------------------
  // Characters and digits

  /** Value of a digit character in bases up to 16, or -1 when it is none. */
  function DigitValue(c: char): int
  {
    if '0' <= c <= '9' then c as int - '0' as int
    else if 'a' <= c <= 'f' then c as int - 'a' as int + 10
    else if 'A' <= c <= 'F' then c as int - 'A' as int + 10
    else -1
  }

  predicate IsDigitIn(c: char, radix: nat) { 0 <= DigitValue(c) < radix }

  predicate AllDigitsIn(s: string, radix: nat)
  {
    forall i :: 0 <= i < |s| ==> IsDigitIn(s[i], radix)
  }

  /** The value of a digit string read most significant digit first. */
  function DigitsValue(s: string, radix: nat): nat
    requires AllDigitsIn(s, radix)
  {
    if s == [] then 0
    else DigitsValue(s[..|s| - 1], radix) * radix + DigitValue(s[|s| - 1])
  }

  /** The decimal digit character for d. */
  function DigitChar(d: nat): (c: char)
    requires d < 10
    ensures IsDigitIn(c, 10) && DigitValue(c) == d
  {
    (('0' as int) + d) as char
  }

  /** JavaScript's whitespace as far as ASCII goes. */
  predicate IsSpace(c: char)
  {
    c == ' ' || c == '\t' || c == '\n' || c == '\r' || c == '\U{B}' || c == '\U{C}'
  }

  // ---------------------------------------------------------------------------
  // Printing numbers: String(n) / n.toString()

  /** Decimal text of a natural number, without leading zeros. */
  function NatToString(n: nat): (r: string)
    ensures |r| >= 1 && AllDigitsIn(r, 10)
    ensures DigitsValue(r, 10) == n
    ensures |r| > 1 ==> r[0] != '0'
    ensures n < 10 <==> |r| == 1
    decreases n
  {
    if n < 10 then [DigitChar(n)]
    else
      var prefix := NatToString(n / 10);
      var r := prefix + [DigitChar(n % 10)];
      assert r[..|r| - 1] == prefix;
      r
  }

  /** A number with k + 1 decimal digits prints as k + 1 characters. */
  lemma {:induction false} NatToStringLength(n: nat, k: nat)
    requires Pow10(k) <= n < 10 * Pow10(k)
    ensures |NatToString(n)| == k + 1
  {
    if k > 0 {
      var q := n / 10;
      assert 10 * Pow10(k - 1) <= n < 10 * (10 * Pow10(k - 1));
      assert Pow10(k - 1) <= q < 10 * Pow10(k - 1);
      NatToStringLength(q, k - 1);
      assert NatToString(n) == NatToString(q) + [DigitChar(n % 10)];
    }
  }

  /** Decimal text of an integer, with a leading '-' when it is negative. */
  function IntToString(n: int): string
  {
    if n < 0 then "-" + NatToString(-n) else NatToString(n)
  }

  // ---------------------------------------------------------------------------
  // Parsing numbers

  /** The longest prefix of s made of digits of the given base. */
  function LeadingDigits(s: string, radix: nat): (r: string)
    ensures r <= s && AllDigitsIn(r, radix)
    ensures |r| < |s| ==> !IsDigitIn(s[|r|], radix)
    ensures r == [] <==> s == [] || !IsDigitIn(s[0], radix)
  {
    if s != [] && IsDigitIn(s[0], radix) then [s[0]] + LeadingDigits(s[1..], radix) else []
  }

  /** `s.trimStart()` restricted to ASCII whitespace. */
  function TrimStart(s: string): (r: string)
    ensures r == [] || !IsSpace(r[0])
    ensures |r| <= |s| && r == s[|s| - |r|..]
  {
    if s != [] && IsSpace(s[0]) then TrimStart(s[1..]) else s
  }

  /** `s.trimEnd()` restricted to ASCII whitespace. */
  function TrimEnd(s: string): (r: string)
    ensures r == [] || !IsSpace(r[|r| - 1])
    ensures r <= s
  {
    if s != [] && IsSpace(s[|s| - 1]) then TrimEnd(s[..|s| - 1]) else s
  }

  /** `s.trim()` restricted to ASCII whitespace. */
  function Trim(s: string): (r: string)
    ensures r == [] || (!IsSpace(r[0]) && !IsSpace(r[|r| - 1]))
    ensures |r| <= |s|
  {
    var t := TrimStart(s);
    var r := TrimEnd(t);
    assert r != [] ==> r[0] == t[0];
    r
  }

  predicate AllSpace(s: string)
  {
    forall i :: 0 <= i < |s| ==> IsSpace(s[i])
  }

  lemma {:induction false} TrimStartEmpty(s: string)
    ensures TrimStart(s) == [] <==> AllSpace(s)
  {
    if s != [] {
      TrimStartEmpty(s[1..]);
      assert forall i :: 1 <= i < |s| ==> s[i] == s[1..][i - 1];
    }
  }

  lemma {:induction false} TrimEndEmpty(s: string)
    ensures TrimEnd(s) == [] <==> AllSpace(s)
  {
    if s != [] {
      TrimEndEmpty(s[..|s| - 1]);
      assert forall i :: 0 <= i < |s| - 1 ==> s[i] == s[..|s| - 1][i];
    }
  }

  /** A text trims to nothing exactly when it is all whitespace. */
  lemma TrimEmptyIffBlank(s: string)
    ensures Trim(s) == [] <==> AllSpace(s)
  {
    TrimStartEmpty(s);
    TrimEndEmpty(TrimStart(s));
  }

  /** The value of a run of digits, or NaN for an empty run. */
  function DigitsNum(digits: string, radix: nat): (n: Num)
    requires AllDigitsIn(digits, radix)
    ensures n.NaN? <==> digits == []
  {
    if digits == [] then NaN else Finite(DigitsValue(digits, radix) as real)
  }

  function Negate(n: Num): (m: Num)
    ensures m.NaN? <==> n.NaN?
    ensures n.Finite? && n.value == n.value.Floor as real ==> m.value == m.value.Floor as real
  {
    match n
    case NaN => NaN
    case Finite(v) =>
      var k := v.Floor;
      assert v == k as real ==> -v == (-k) as real && ((-k) as real).Floor == -k;
      Finite(-v)
  }

  /** The unsigned part of `parseInt`: a `0x`/`0X` prefix selects base 16, and the
      longest run of digits that follows is the value. */
  function ParseIntDigits(u: string): (n: Num)
    ensures n.Finite? ==> n.value >= 0.0 && n.value == n.value.Floor as real
    ensures u != [] && IsDigitIn(u[0], 10) && !(|u| >= 2 && u[0] == '0' && (u[1] == 'x' || u[1] == 'X')) ==>
              n == Finite(DigitsValue(LeadingDigits(u, 10), 10) as real)
    ensures u == [] || !IsDigitIn(u[0], 10) ==> n.NaN?
  {
    if |u| >= 2 && u[0] == '0' && (u[1] == 'x' || u[1] == 'X') then DigitsNum(LeadingDigits(u[2..], 16), 16)
    else DigitsNum(LeadingDigits(u, 10), 10)
  }

  /** `parseInt(s)` without a radix argument: leading whitespace is skipped, one sign
      is read, then the digits as above; no digit at all gives NaN. The value is
      always a whole number; text starting with a decimal digit (and no `0x`) is
      read as its leading decimal digits; text starting with anything but a digit
      or a sign is NaN. */
  function ParseInt(s: string): (n: Num)
    ensures n.Finite? ==> n.value == n.value.Floor as real
    ensures var t := TrimStart(s);
            t != [] && IsDigitIn(t[0], 10) && !(|t| >= 2 && t[0] == '0' && (t[1] == 'x' || t[1] == 'X')) ==>
              n == Finite(DigitsValue(LeadingDigits(t, 10), 10) as real)
    ensures var t := TrimStart(s); t == [] || !(IsDigitIn(t[0], 10) || t[0] == '-' || t[0] == '+') ==> n.NaN?
  {
    var t := TrimStart(s);
    if t != [] && t[0] == '-' then Negate(ParseIntDigits(t[1..]))
    else if t != [] && t[0] == '+' then ParseIntDigits(t[1..])
    else ParseIntDigits(t)
  }

  function Pow10(k: nat): (p: nat)
    ensures p >= 1
  {
    if k == 0 then 1 else 10 * Pow10(k - 1)
  }

  /** The unsigned part of `parseFloat`: the integer digits and an optional '.'
      with fraction digits. */
  function ParseFloatDigits(u: string): (n: Num)
    ensures LeadingDigits(u, 10) != [] ==> n.Finite?
    ensures n.Finite? ==> var w := DigitsValue(LeadingDigits(u, 10), 10) as real; w <= n.value < w + 1.0
    ensures u == [] || !(IsDigitIn(u[0], 10) || u[0] == '.') ==> n.NaN?
  {
    var whole := LeadingDigits(u, 10);
    var after := u[|whole|..];
    var frac := if after != [] && after[0] == '.' then LeadingDigits(after[1..], 10) else [];
    FractionBelowOne(frac);
    if whole == [] && frac == [] then NaN
    else Finite(DigitsValue(whole, 10) as real + DigitsValue(frac, 10) as real / Pow10(|frac|) as real)
  }

  /** Fraction digits are worth less than one. */
  lemma FractionBelowOne(frac: string)
    requires AllDigitsIn(frac, 10)
    ensures 0.0 <= DigitsValue(frac, 10) as real / Pow10(|frac|) as real < 1.0
  {
    DigitsValueBelowPow10(frac);
    var a, b := DigitsValue(frac, 10), Pow10(|frac|);
    QuotientBelowOne(a as real, b as real);
  }

  lemma QuotientBelowOne(a: real, b: real)
    requires 0.0 <= a < b
    ensures 0.0 <= a / b < 1.0
  {
    assert (a / b) * b == a;
  }

  /** A run of k digits is worth less than 10^k. */
  lemma {:induction false} DigitsValueBelowPow10(s: string)
    requires AllDigitsIn(s, 10)
    ensures DigitsValue(s, 10) < Pow10(|s|)
  {
    if s != [] {
      var front := s[..|s| - 1];
      DigitsValueBelowPow10(front);
      assert DigitsValue(s, 10) == DigitsValue(front, 10) * 10 + DigitValue(s[|s| - 1]);
    }
  }

  /** `parseFloat(s)` for plain decimal text: leading whitespace, one sign, then the
      digits as above; no digit at all gives NaN. Text starting with a decimal
      digit gives a number whose whole part is those leading digits; text starting
      with anything but a digit, a sign or '.' is NaN. */
  function ParseFloat(s: string): (n: Num)
    ensures var t := TrimStart(s);
            t != [] && IsDigitIn(t[0], 10) ==>
              var w := DigitsValue(LeadingDigits(t, 10), 10) as real; n.Finite? && w <= n.value < w + 1.0
    ensures var t := TrimStart(s); t == [] || !(IsDigitIn(t[0], 10) || t[0] == '-' || t[0] == '+' || t[0] == '.') ==> n.NaN?
  {
    var t := TrimStart(s);
    if t != [] && t[0] == '-' then Negate(ParseFloatDigits(t[1..]))
    else if t != [] && t[0] == '+' then ParseFloatDigits(t[1..])
    else ParseFloatDigits(t)
  }

  lemma {:induction false} LeadingDigitsOfDigits(s: string, radix: nat)
    requires AllDigitsIn(s, radix)
    ensures LeadingDigits(s, radix) == s
  {
    if s != [] {
      LeadingDigitsOfDigits(s[1..], radix);
      assert [s[0]] + s[1..] == s;
    }
  }

  /** The leading digits of a digit string followed by a non-digit are that string. */
  lemma {:induction false} LeadingDigitsUpTo(digits: string, rest: string, radix: nat)
    requires AllDigitsIn(digits, radix)
    requires rest != [] && !IsDigitIn(rest[0], radix)
    ensures LeadingDigits(digits + rest, radix) == digits
  {
    if digits != [] {
      LeadingDigitsUpTo(digits[1..], rest, radix);
      assert (digits + rest)[1..] == digits[1..] + rest;
      assert [digits[0]] + digits[1..] == digits;
    }
  }

  /** Text that starts with a digit is not trimmed. */
  lemma TrimStartOfDigits(s: string)
    requires s != [] && IsDigitIn(s[0], 10)
    ensures TrimStart(s) == s
  {
  }

  lemma ParseIntDigitsOfDigits(d: string)
    requires d != [] && AllDigitsIn(d, 10)
    ensures ParseIntDigits(d) == Finite(DigitsValue(d, 10) as real)
  {
    LeadingDigitsOfDigits(d, 10);
    assert |d| >= 2 ==> IsDigitIn(d[1], 10);
  }

  lemma ParseFloatDigitsOfDigits(d: string)
    requires AllDigitsIn(d, 10)
    requires d != []
    ensures ParseFloatDigits(d) == Finite(DigitsValue(d, 10) as real)
  {
    LeadingDigitsOfDigits(d, 10);
    assert d[|d|..] == [];
  }

  /** `parseInt` and `parseFloat` of the digits of m. */
  lemma ParseOfDigitText(d: string, m: nat)
    requires d != [] && AllDigitsIn(d, 10) && DigitsValue(d, 10) == m
    ensures ParseInt(d) == Finite(m as real) && ParseFloat(d) == Finite(m as real)
  {
    UnsignedDigitText(d);
    ParseIntDigitsOfDigits(d);
    ParseFloatDigitsOfDigits(d);
  }

  /** Digit text is neither trimmed nor signed, so both parsers read it whole. */
  lemma UnsignedDigitText(d: string)
    requires d != [] && AllDigitsIn(d, 10)
    ensures ParseInt(d) == ParseIntDigits(d) && ParseFloat(d) == ParseFloatDigits(d)
  {
    assert IsDigitIn(d[0], 10);
    TrimStartOfDigits(d);
  }

  /** `parseInt` and `parseFloat` of the digits of m after a '-' sign. */
  lemma ParseOfNegatedDigitText(d: string, m: nat)
    requires d != [] && AllDigitsIn(d, 10) && DigitsValue(d, 10) == m
    ensures ParseInt("-" + d) == Finite(-(m as real)) && ParseFloat("-" + d) == Finite(-(m as real))
  {
    ParseIntDigitsOfDigits(d);
    ParseFloatDigitsOfDigits(d);
    MinusPrefix(d);
  }

  lemma MinusPrefix(d: string)
    ensures ("-" + d)[1..] == d && TrimStart("-" + d) == "-" + d && ("-" + d)[0] == '-'
  {
    assert ("-" + d)[1..] == d;
  }

  lemma ParseOfNatToString(n: nat)
    ensures ParseInt(NatToString(n)) == Finite(n as real)
    ensures ParseFloat(NatToString(n)) == Finite(n as real)
  {
    ParseOfDigitText(NatToString(n), n);
  }

  lemma ParseOfNegatedNatToString(n: nat)
    ensures ParseInt("-" + NatToString(n)) == Finite(-(n as real))
    ensures ParseFloat("-" + NatToString(n)) == Finite(-(n as real))
  {
    ParseOfNegatedDigitText(NatToString(n), n);
  }

  /** Reading back the printed text of an integer gives the integer. */
  lemma ParseIntOfIntToString(n: int)
    ensures ParseInt(IntToString(n)) == Finite(n as real)
    ensures ParseFloat(IntToString(n)) == Finite(n as real)
  {
    if n < 0 {
      var m: nat := -n;
      assert IntToString(n) == "-" + NatToString(m);
      ParseOfNegatedNatToString(m);
      assert -(m as real) == n as real;
    } else {
      assert IntToString(n) == NatToString(n);
      ParseOfNatToString(n);
    }
  }

  /** Distinct integers print differently. */
  lemma IntToStringInjective(a: int, b: int)
    requires IntToString(a) == IntToString(b)
    ensures a == b
  {
    ParseIntOfIntToString(a);
    ParseIntOfIntToString(b);
  }

  // ---------------------------------------------------------------------------
  // Case mapping (ASCII only)

  function LowerChar(c: char): char
  {
    if 'A' <= c <= 'Z' then (c as int + 32) as char else c
  }

  function UpperChar(c: char): char
  {
    if 'a' <= c <= 'z' then (c as int - 32) as char else c
  }

  /** `s.toLowerCase()`. */
  function Lower(s: string): string
  {
    seq(|s|, i requires 0 <= i < |s| => LowerChar(s[i]))
  }

  /** `s.toUpperCase()`. */
  function Upper(s: string): string
  {
    seq(|s|, i requires 0 <= i < |s| => UpperChar(s[i]))
  }

  // ---------------------------------------------------------------------------
  // Searching, slicing, padding, splitting

  /** `s.includes(sub)`. */
  function Contains(s: string, sub: string): bool
  {
    sub <= s || (s != [] && Contains(s[1..], sub))
  }

  /** `s.charAt(0)`: the first character, or '' for the empty string. */
  function CharAt0(s: string): string
  {
    if s == [] then "" else s[..1]
  }

  /** `s.slice(0, n)` for n >= 0. */
  function Prefix(s: string, n: nat): (r: string)
    ensures r <= s && |r| == if |s| < n then |s| else n
  {
    if |s| <= n then s else s[..n]
  }

  /** `s.padStart(n, '0')`. */
  function PadZero(s: string, n: nat): (r: string)
    ensures |r| == if |s| < n then n else |s|
    ensures r[|r| - |s|..] == s
    ensures forall i :: 0 <= i < |r| - |s| ==> r[i] == '0'
  {
    if |s| >= n then s else seq(n - |s|, _ => '0') + s
  }

  /** `s.split(sep)` for a one-character separator. */
  function Split(s: string, sep: char): (parts: seq<string>)
    ensures |parts| >= 1
    ensures forall k :: 0 <= k < |parts| ==> sep !in parts[k]
  {
    if s == [] then [""]
    else if s[0] == sep then [""] + Split(s[1..], sep)
    else
      var rest := Split(s[1..], sep);
      [[s[0]] + rest[0]] + rest[1..]
  }

  /** `parts.join(sep)`. */
  function Join(parts: seq<string>, sep: char): string
    requires |parts| >= 1
  {
    if |parts| == 1 then parts[0] else parts[0] + [sep] + Join(parts[1..], sep)
  }

  /** Joining the pieces of a split with the same separator restores the text. */
  lemma {:induction false} JoinSplit(s: string, sep: char)
    ensures Join(Split(s, sep), sep) == s
  {
    if s == [] {
    } else if s[0] == sep {
      JoinSplit(s[1..], sep);
      var rest := Split(s[1..], sep);
      assert Split(s, sep) == [""] + rest;
      assert ([""] + rest)[1..] == rest;
      assert s == [sep] + s[1..];
    } else {
      JoinSplit(s[1..], sep);
      var rest := Split(s[1..], sep);
      var parts := [[s[0]] + rest[0]] + rest[1..];
      assert parts[1..] == rest[1..];
      if |rest| == 1 {
        assert Join(parts, sep) == [s[0]] + rest[0];
      } else {
        assert Join(rest, sep) == rest[0] + [sep] + Join(rest[1..], sep);
        assert Join(parts, sep) == [s[0]] + rest[0] + [sep] + Join(rest[1..], sep);
      }
      assert s == [s[0]] + s[1..];
    }
  }
}
