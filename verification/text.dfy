/**
 Text primitives shared by the model: ASCII digits, Go's `strconv.ParseInt(s, 10, 64)`
 (and `strconv.Atoi`, which agrees with it on every input the model meets),
 `strings.ToLower`, `strings.HasPrefix` and `strings.HasSuffix`.
 Strings are sequences of Unicode scalar values.
 */
module Text {

  predicate IsDigit(c: char) {
    '0' <= c <= '9'
  }

  predicate AllDigits(s: string) {
    forall i | 0 <= i < |s| :: IsDigit(s[i])
  }

  function DigitValue(c: char): nat
    requires IsDigit(c)
  {
    c as int - '0' as int
  }

  function DigitChar(d: nat): char
    requires d < 10
  {
    ('0' as int + d) as char
  }

  /** Value of a run of decimal digits, most significant digit first. */
  function DigitsValue(s: string): nat
    requires AllDigits(s)
  {
    if |s| == 0 then 0 else DigitsValue(s[..|s| - 1]) * 10 + DigitValue(s[|s| - 1])
  }

  /** The decimal digits of `n`, without leading zeros. */
  function FormatNat(n: nat): (s: string)
    ensures |s| > 0 && AllDigits(s)
    ensures s[0] == '0' ==> n == 0
  {
    if n < 10 then [DigitChar(n)] else FormatNat(n / 10) + [DigitChar(n % 10)]
  }

  /** `strconv.FormatInt(n, 10)`: a minus sign for negative numbers, then the digits. */
  function FormatInt(n: int): string {
    if n < 0 then "-" + FormatNat(-n) else FormatNat(n)
  }

  predicate IsSign(c: char) {
    c == '+' || c == '-'
  }

  /** The inputs `strconv.ParseInt(s, 10, 64)` accepts: an optional sign, then at least one digit. */
  predicate IsDecimal(s: string) {
    if |s| > 0 && IsSign(s[0]) then |s| > 1 && AllDigits(s[1..]) else |s| > 0 && AllDigits(s)
  }

  /**
   `strconv.ParseInt(s, 10, 64)` with its error discarded, as the callers here do:
   the value of a well-formed decimal, and 0 for anything else (the empty string,
   a lone sign, any non-digit character, underscores).
   */
  function ParseInt(s: string): (r: int)
    ensures !IsDecimal(s) ==> r == 0
    ensures |s| > 0 && AllDigits(s) ==> r == DigitsValue(s) && r >= 0
    ensures IsDecimal(s) && s[0] == '+' ==> r == DigitsValue(s[1..])
    ensures IsDecimal(s) && s[0] == '-' ==> r == -(DigitsValue(s[1..]) as int)
  {
    if !IsDecimal(s) then 0
    else if s[0] == '-' then -(DigitsValue(s[1..]) as int)
    else if s[0] == '+' then DigitsValue(s[1..])
    else DigitsValue(s)
  }

  lemma {:induction false} DigitsValueOfFormatNat(n: nat)
    ensures DigitsValue(FormatNat(n)) == n
  {
    if n >= 10 {
      var s := FormatNat(n);
      assert s[..|s| - 1] == FormatNat(n / 10);
      DigitsValueOfFormatNat(n / 10);
    }
  }

  /** Parsing inverts formatting, so every integer has a text ParseInt reads back exactly. */
  lemma ParseIntOfFormatInt(n: int)
    ensures IsDecimal(FormatInt(n))
    ensures ParseInt(FormatInt(n)) == n
  {
    if n < 0 {
      ParseNegative(-n);
    } else {
      ParseNonNegative(n);
    }
  }

  lemma ParseNonNegative(m: nat)
    ensures IsDecimal(FormatNat(m))
    ensures ParseInt(FormatNat(m)) == m
  {
    var d := FormatNat(m);
    assert IsDigit(d[0]);
    DigitsValueOfFormatNat(m);
  }

  lemma ParseNegative(m: nat)
    ensures IsDecimal("-" + FormatNat(m))
    ensures ParseInt("-" + FormatNat(m)) == -(m as int)
  {
    var d := FormatNat(m);
    var s := "-" + d;
    assert s[0] == '-' && s[1..] == d;
    DigitsValueOfFormatNat(m);
  }

  /**
   `unicode.ToLower` restricted to what the comparisons in this model can observe:
   ASCII capitals, and the two non-ASCII letters whose lower case is ASCII
   (U+0130 LATIN CAPITAL LETTER I WITH DOT ABOVE and U+212A KELVIN SIGN).
   */
  function LowerChar(c: char): char {
    if 'A' <= c <= 'Z' then (c as int + 32) as char
    else if c == '\U{130}' then 'i'
    else if c == '\U{212A}' then 'k'
    else c
  }

  /** `strings.ToLower`, character by character. */
  function Lower(s: string): string {
    seq(|s|, i requires 0 <= i < |s| => LowerChar(s[i]))
  }

  lemma LowerIdempotent(s: string)
    ensures Lower(Lower(s)) == Lower(s)
  {
  }

  /** Lower case leaves a text of lower-case ASCII letters as it is. */
  lemma LowerOfLowercase(s: string)
    requires forall i | 0 <= i < |s| :: 'a' <= s[i] <= 'z'
    ensures Lower(s) == s
  {
  }

  /**
   `strings.ToUpper` on ASCII letters. The model applies it only to the
   language codes "en" and "ru", where this is exact.
   */
  function UpperAscii(s: string): string {
    seq(|s|, i requires 0 <= i < |s| => if 'a' <= s[i] <= 'z' then (s[i] as int - 32) as char else s[i])
  }

  /** The two language codes the model upper-cases, as `strings.ToUpper` gives them. */
  lemma UpperLangCodes()
    ensures UpperAscii("en") == "EN" && UpperAscii("ru") == "RU"
  {
  }

  predicate HasPrefix(s: string, p: string) {
    |p| <= |s| && s[..|p|] == p
  }

  predicate HasSuffix(s: string, p: string) {
    |p| <= |s| && s[|s| - |p|..] == p
  }
}
