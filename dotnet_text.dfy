/** The three pieces of .NET text handling the order-processing code relies on:
    `string.IsNullOrWhiteSpace`, `int.TryParse` (with its default
    NumberStyles.Integer and invariant-culture signs) and `int.ToString()`. */
module DotNetText {

  import opened Wrappers

  const Int32Min: int := -0x8000_0000
  const Int32Max: int := 0x7fff_ffff

  /** `char.IsWhiteSpace`: the Unicode space, line and paragraph separators
      plus the control characters U+0009..U+000D and U+0085. */
  function IsWhiteSpace(c: char): (b: bool)
    ensures IsParseWhite(c) ==> b
    ensures IsDigit(c) || 'A' <= c <= 'Z' || 'a' <= c <= 'z' ==> !b
  {
    || '\U{0009}' <= c <= '\U{000D}'
    || c == ' ' || c == '\U{0085}' || c == '\U{00A0}' || c == '\U{1680}'
    || '\U{2000}' <= c <= '\U{200A}'
    || c == '\U{2028}' || c == '\U{2029}' || c == '\U{202F}' || c == '\U{205F}' || c == '\U{3000}'
  }

  /** `string.IsNullOrWhiteSpace`: null, empty, or nothing but white space. */
  function IsNullOrWhiteSpace(s: Option<string>): (b: bool)
    ensures s.None? || s == Some("") ==> b
    ensures s.Some? && (forall i :: 0 <= i < |s.value| ==> IsParseWhite(s.value[i])) ==> b
    ensures s.Some? && (exists i :: 0 <= i < |s.value| && !IsWhiteSpace(s.value[i])) ==> !b
  {
    match s
    case None => true
    case Some(t) => forall i :: 0 <= i < |t| ==> IsWhiteSpace(t[i])
  }

  // ---------------------------------------------------------------------------
  // int.ToString()

  predicate IsDigit(c: char) {
    '0' <= c <= '9'
  }

  predicate AllDigits(s: string) {
    forall i :: 0 <= i < |s| ==> IsDigit(s[i])
  }

  function DigitChar(d: nat): (c: char)
    requires d < 10
    ensures IsDigit(c) && c as int - '0' as int == d
  {
    ('0' as int + d) as char
  }

  /** The decimal digits of `n`, most significant first, without leading zeros. */
  function Decimal(n: nat): (s: string)
    ensures |s| > 0 && AllDigits(s)
    ensures n < 10 <==> |s| == 1
    ensures s[0] == '0' ==> n == 0
  {
    if n < 10 then [DigitChar(n)] else Decimal(n / 10) + [DigitChar(n % 10)]
  }

  /** `int.ToString()` with the invariant culture's minus sign. */
  function FormatInt(n: int): (s: string)
    ensures |s| > 0
    ensures s[0] == '-' <==> n < 0
    ensures n < 0 ==> s[1..] == Decimal(-n)
    ensures n >= 0 ==> s == Decimal(n)
  {
    if n < 0 then "-" + Decimal(-n) else Decimal(n)
  }

  // ---------------------------------------------------------------------------
  // int.TryParse(string, out int)

  /** The white space NumberStyles.AllowLeadingWhite and AllowTrailingWhite skip. */
  predicate IsParseWhite(c: char) {
    '\t' <= c <= '\r' || c == ' '
  }

  /** Drops the leading white space: the result does not start with white
      space; `TrimStartDropsOnlyWhite` shows it is a suffix of `s` and that
      everything dropped was white space. */
  function TrimStart(s: string): (t: string)
    ensures |t| <= |s|
    ensures |t| > 0 ==> !IsParseWhite(t[0])
  {
    if |s| > 0 && IsParseWhite(s[0]) then TrimStart(s[1..]) else s
  }

  lemma {:induction false} TrimStartDropsOnlyWhite(s: string)
    ensures TrimStart(s) == s[|s| - |TrimStart(s)|..]
    ensures forall i :: 0 <= i < |s| - |TrimStart(s)| ==> IsParseWhite(s[i])
  {
    if |s| > 0 && IsParseWhite(s[0]) {
      TrimStartDropsOnlyWhite(s[1..]);
      assert s[1..][|s| - 1 - |TrimStart(s)|..] == s[|s| - |TrimStart(s)|..];
      assert forall i :: 1 <= i < |s| - |TrimStart(s)| ==> s[i] == s[1..][i - 1];
    }
  }

  /** Drops the trailing white space: the result does not end with white
      space; `TrimEndDropsOnlyWhite` shows it is a prefix of `s` and that
      everything dropped was white space. */
  function TrimEnd(s: string): (t: string)
    ensures |t| <= |s|
    ensures |t| > 0 ==> !IsParseWhite(t[|t| - 1])
  {
    if |s| > 0 && IsParseWhite(s[|s| - 1]) then TrimEnd(s[..|s| - 1]) else s
  }

  lemma {:induction false} TrimEndDropsOnlyWhite(s: string)
    ensures TrimEnd(s) == s[..|TrimEnd(s)|]
    ensures forall i :: |TrimEnd(s)| <= i < |s| ==> IsParseWhite(s[i])
  {
    if |s| > 0 && IsParseWhite(s[|s| - 1]) {
      TrimEndDropsOnlyWhite(s[..|s| - 1]);
      assert s[..|s| - 1][..|TrimEnd(s)|] == s[..|TrimEnd(s)|];
    }
  }

  /** The value of a string of decimal digits (leading zeros allowed). */
  function DigitsValue(s: string): nat
    requires AllDigits(s)
  {
    if |s| == 0 then 0 else DigitsValue(s[..|s| - 1]) * 10 + (s[|s| - 1] as int - '0' as int)
  }

  function Signed(negative: bool, magnitude: nat): int {
    if negative then -(magnitude as int) else magnitude
  }

  /** The digits after an optional sign: at least one digit, nothing else, and
      a signed value that fits in 32 bits. */
  function ParseDigits(negative: bool, digits: string): Option<int>
  {
    if |digits| == 0 || !AllDigits(digits) then None
    else
      var v := Signed(negative, DigitsValue(digits));
      if Int32Min <= v <= Int32Max then Some(v) else None
  }

  /** `int.TryParse`: `None` for the `false` return, `Some(v)` for `true` with
      `v` in the out parameter. A null string does not parse. */
  function TryParseInt32(s: Option<string>): (r: Option<int>)
    ensures s.None? ==> r.None?
    ensures r.Some? ==> Int32Min <= r.value <= Int32Max
  {
    match s
    case None => None
    case Some(text) =>
      var t := TrimEnd(TrimStart(text));
      if |t| > 0 && (t[0] == '-' || t[0] == '+') then ParseDigits(t[0] == '-', t[1..])
      else ParseDigits(false, t)
  }

  // ---------------------------------------------------------------------------
  // Round trip

  lemma {:induction false} DecimalValue(n: nat)
    ensures DigitsValue(Decimal(n)) == n
  {
    if n >= 10 {
      DecimalValue(n / 10);
      var s := Decimal(n);
      assert s[..|s| - 1] == Decimal(n / 10);
    }
  }

  lemma TrimmedFormat(n: int)
    ensures TrimEnd(TrimStart(FormatInt(n))) == FormatInt(n)
  {
    var s := FormatInt(n);
    assert !IsParseWhite(s[0]);
    assert TrimStart(s) == s;
    assert IsDigit(s[|s| - 1]) by {
      if n < 0 { assert s[|s| - 1] == Decimal(-n)[|s| - 2]; }
    }
  }

  /** The printed digits of a magnitude, after either sign, read back to the
      signed value whenever it fits in 32 bits. */
  lemma ParseDigitsOfDecimal(negative: bool, magnitude: nat)
    requires Int32Min <= Signed(negative, magnitude) <= Int32Max
    ensures ParseDigits(negative, Decimal(magnitude)) == Some(Signed(negative, magnitude))
  {
    DecimalValue(magnitude);
  }

  /** Text with no surrounding white space that starts with a digit is read
      as unsigned digits ... */
  lemma TryParseUnsigned(text: string)
    requires TrimEnd(TrimStart(text)) == text && |text| > 0 && IsDigit(text[0])
    ensures TryParseInt32(Some(text)) == ParseDigits(false, text)
  {
    assert text[0] != '-' && text[0] != '+';
  }

  /** ... and text that starts with a minus sign as the negated digits after it. */
  lemma TryParseNegative(text: string)
    requires TrimEnd(TrimStart(text)) == text && |text| > 0 && text[0] == '-'
    ensures TryParseInt32(Some(text)) == ParseDigits(true, text[1..])
  {
  }

  lemma ParseNegativeFormat(n: int)
    requires Int32Min <= n < 0
    ensures TryParseInt32(Some(FormatInt(n))) == Some(n)
  {
    TrimmedFormat(n);
    TryParseNegative(FormatInt(n));
    ParseDigitsOfDecimal(true, -n);
  }

  lemma ParseNonNegativeFormat(n: int)
    requires 0 <= n <= Int32Max
    ensures TryParseInt32(Some(FormatInt(n))) == Some(n)
  {
    TrimmedFormat(n);
    TryParseUnsigned(FormatInt(n));
    ParseDigitsOfDecimal(false, n);
  }

  /** Every 32-bit integer, written by `int.ToString()`, parses back to itself. */
  lemma ParseFormatRoundTrip(n: int)
    requires Int32Min <= n <= Int32Max
    ensures TryParseInt32(Some(FormatInt(n))) == Some(n)
  {
    if n < 0 {
      ParseNegativeFormat(n);
    } else {
      ParseNonNegativeFormat(n);
    }
  }

  /** Text that is not a number, and the empty string, are refused. */
  lemma ParseRejectsNonNumbers()
    ensures TryParseInt32(Some("abc")).None?
    ensures TryParseInt32(Some("")).None?
  {
    var t := TrimStart("abc");
    assert t == "abc";
    assert TrimEnd(t) == "abc";
    assert !IsDigit("abc"[0]);
  }
}
