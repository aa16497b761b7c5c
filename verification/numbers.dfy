/**
 * Integer text: Swift's `Int(String)` initializer, string interpolation of
 * an `Int`, and the digit predicates `Character.isNumber` and ICU `\d`.
 */
module Numbers {
  import opened Base

  /** Swift's `Int` is 64 bits wide on the app's targets. */
  const INT64_MIN: int := -0x8000_0000_0000_0000
  const INT64_MAX: int := 0x7FFF_FFFF_FFFF_FFFF

  predicate InInt64(n: int) {
    INT64_MIN <= n <= INT64_MAX
  }

  predicate IsAsciiDigit(c: char) {
    '0' <= c <= '9'
  }

  predicate IsSign(c: char) {
    c == '+' || c == '-'
  }

  predicate AllAsciiDigits(s: string) {
    forall i :: 0 <= i < |s| ==> IsAsciiDigit(s[i])
  }

  /** ICU's `\d` (Unicode decimal digits, general category Nd), restricted
      to the ASCII, Arabic-Indic and fullwidth digit blocks. */
  predicate IsDecimalDigit(c: char) {
    || IsAsciiDigit(c)
    || ('\U{660}' <= c <= '\U{669}')
    || ('\U{FF10}' <= c <= '\U{FF19}')
  }

  /** `Character.isNumber`: every decimal digit, plus the numeric
      characters that are not decimal digits (superscripts, vulgar
      fractions, Roman numerals and the CJK numeral ideographs). */
  predicate IsNumber(c: char) {
    || IsDecimalDigit(c)
    || c == '\U{B2}' || c == '\U{B3}' || c == '\U{B9}'
    || ('\U{BC}' <= c <= '\U{BE}')
    || ('\U{2160}' <= c <= '\U{2188}')
    || IsCjkNumeral(c)
  }

  /** The CJK numeral ideographs 〇 一 二 三 四 五 六 七 八 九 十 百 千 万 萬. */
  predicate IsCjkNumeral(c: char) {
    || c == '〇' || c == '一' || c == '二' || c == '三' || c == '四'
    || c == '五' || c == '六' || c == '七' || c == '八' || c == '九'
    || c == '十' || c == '百' || c == '千' || c == '万' || c == '萬'
  }

  function DigitValue(c: char): nat
    requires IsAsciiDigit(c)
  {
    (c as int) - ('0' as int)
  }

  function DigitChar(d: nat): (c: char)
    requires d < 10
    ensures IsAsciiDigit(c) && DigitValue(c) == d
  {
    (('0' as int) + d) as char
  }

  /** The value of a run of ASCII digits, most significant first. */
  function DigitsValue(s: string): nat
    requires AllAsciiDigits(s)
    decreases |s|
  {
    if s == [] then 0 else DigitsValue(s[..|s| - 1]) * 10 + DigitValue(s[|s| - 1])
  }

  /** Swift's `Int(s)`: an optional `+` or `-`, then one or more ASCII
      digits and nothing else; a value outside the 64-bit range is nil.
      Leading zeros and a `+` sign are accepted, so "007" and "+7" are 7. */
  function ParseInt(s: string): (r: Option<int>)
    ensures r.Some? ==> InInt64(r.value)
    ensures r.Some? ==> |s| >= 1 && !(|s| == 1 && IsSign(s[0]))
    ensures r.Some? ==> forall i :: 0 <= i < |s| ==> IsAsciiDigit(s[i]) || (i == 0 && IsSign(s[i]))
    ensures s != [] && AllAsciiDigits(s) ==>
              r == (if DigitsValue(s) <= INT64_MAX then Some(DigitsValue(s)) else None)
    ensures |s| >= 2 && s[0] == '+' && AllAsciiDigits(s[1..]) ==>
              r == (if DigitsValue(s[1..]) <= INT64_MAX then Some(DigitsValue(s[1..])) else None)
    ensures |s| >= 2 && s[0] == '-' && AllAsciiDigits(s[1..]) ==>
              r == (if DigitsValue(s[1..]) <= -INT64_MIN then Some(0 - (DigitsValue(s[1..]) as int)) else None)
  {
    if s == [] then None
    else
      var body := if IsSign(s[0]) then s[1..] else s;
      if body == [] || !AllAsciiDigits(body) then None
      else
        var v: int := if s[0] == '-' then 0 - (DigitsValue(body) as int) else DigitsValue(body);
        if InInt64(v) then Some(v) else None
  }

  /** Decimal rendering of a natural number, without leading zeros. */
  function NatString(n: nat): (r: string)
    ensures |r| >= 1 && AllAsciiDigits(r)
    ensures DigitsValue(r) == n
    decreases n
  {
    if n < 10 then [DigitChar(n)]
    else
      var r := NatString(n / 10) + [DigitChar(n % 10)];
      assert r[..|r| - 1] == NatString(n / 10);
      r
  }

  /** Swift's `"\(n)"` for an `Int`: a minus sign for negative values. */
  function DecimalString(n: int): (r: string)
    ensures |r| >= 1
    ensures forall i :: 0 <= i < |r| ==> IsAsciiDigit(r[i]) || (i == 0 && r[i] == '-')
  {
    if n < 0 then "-" + NatString(-n) else NatString(n)
  }

  /** `Int("\(n)") == n` for every 64-bit integer. */
  lemma DecimalRoundTrip(n: int)
    requires InInt64(n)
    ensures ParseInt(DecimalString(n)) == Some(n)
  {
    var s := DecimalString(n);
    if n < 0 {
      assert s[1..] == NatString(-n);
    } else {
      assert !IsSign(s[0]);
    }
  }

  /** The characters `Character.isNumber` keeps, in order. */
  function NumberChars(s: string): (r: string)
    ensures |r| <= |s|
    decreases |s|
  {
    if s == [] then ""
    else (if IsNumber(s[0]) then [s[0]] else "") + NumberChars(s[1..])
  }

  /** `filter { $0.isNumber }` keeps only number characters and every one
      of them, and leaves a run of ASCII digits alone; `NumberCharsConcat`
      says that it keeps them in order. */
  lemma {:induction false} NumberCharsShape(s: string)
    ensures forall i :: 0 <= i < |NumberChars(s)| ==> IsNumber(NumberChars(s)[i])
    ensures forall c :: c in s && IsNumber(c) ==> c in NumberChars(s)
    ensures AllAsciiDigits(s) ==> NumberChars(s) == s
    decreases |s|
  {
    if s != [] {
      NumberCharsShape(s[1..]);
      assert s == [s[0]] + s[1..];
      forall c | c in s && IsNumber(c) ensures c in NumberChars(s) {
        if c != s[0] {
          assert c in s[1..];
        }
      }
    }
  }

  /** The filter reads the text piece by piece: what it keeps of `a + b`
      is what it keeps of `a` followed by what it keeps of `b`, so order
      and repetitions are kept; a single character is kept exactly when it
      is a number. */
  lemma {:induction false} NumberCharsConcat(a: string, b: string)
    ensures NumberChars(a + b) == NumberChars(a) + NumberChars(b)
    ensures |a| == 1 ==> NumberChars(a) == (if IsNumber(a[0]) then a else "")
    decreases |a|
  {
    if a != [] {
      assert (a + b)[1..] == a[1..] + b;
      NumberCharsConcat(a[1..], b);
    } else {
      assert a + b == b;
    }
  }

  /** "+7" and "007" are read as 7; a lone sign is not a number. */
  lemma ParseIntExamples()
    ensures ParseInt("+7") == Some(7)
    ensures ParseInt("007") == Some(7)
    ensures ParseInt("-") == None
  {
    assert "+7"[1..] == "7";
    assert DigitsValue("007"[..2]) == 0;
  }
}
