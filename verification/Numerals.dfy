/** Numbers written as text, in bases up to sixteen. */
module Numerals {
  import opened Wrappers

  /** ASCII without a quotation mark. */
  predicate IsPlain(text: string) {
    forall k :: 0 <= k < |text| ==> text[k] != '"' && text[k] as int < 128
  }

  function DigitChar(d: nat): char
    requires d < 16
  {
    if d < 10 then '0' + d as char else 'a' + (d - 10) as char
  }

  function DigitOf(c: char): Option<nat> {
    if '0' <= c <= '9' then Some((c as int - '0' as int) as nat)
    else if 'a' <= c <= 'f' then Some((c as int - 'a' as int + 10) as nat)
    else if 'A' <= c <= 'F' then Some((c as int - 'A' as int + 10) as nat)
    else None
  }

  function Power(base: nat, width: nat): nat {
    if width == 0 then 1 else base * Power(base, width - 1)
  }

  /** The last `width` digits of n. */
  function Digits(n: nat, base: nat, width: nat): (text: string)
    requires 1 < base <= 16
    ensures |text| == width
  {
    if width == 0 then "" else Digits(n / base, base, width - 1) + [DigitChar(n % base)]
  }

  function NumberOf(text: string, base: nat): Option<nat>
    requires 1 < base <= 16
  {
    if text == "" then Some(0)
    else
      var high, low := NumberOf(text[..|text| - 1], base), DigitOf(text[|text| - 1]);
      if high.Some? && low.Some? && low.value < base then Some(base * high.value + low.value) else None
  }

  lemma DigitRoundTrip(d: nat)
    requires d < 16
    ensures DigitOf(DigitChar(d)) == Some(d) && DigitChar(d) != '"' && DigitChar(d) as int < 128
  {
  }

  lemma QuotientFits(n: nat, base: nat, bound: nat)
    requires base > 0 && n < base * bound
    ensures n / base < bound && n == base * (n / base) + n % base
  {
    assert base * (bound - n / base) == base * bound - base * (n / base) > 0;
  }

  lemma AppendDigit(text: string, base: nat, high: nat, low: nat)
    requires 1 < base <= 16 && low < base && NumberOf(text, base) == Some(high) && IsPlain(text)
    ensures NumberOf(text + [DigitChar(low)], base) == Some(base * high + low) && IsPlain(text + [DigitChar(low)])
  {
    hide DigitChar, DigitOf;
    DigitRoundTrip(low);
    assert (text + [DigitChar(low)])[..|text|] == text;
  }

  /** The last digit, and what the others are the digits of. */
  lemma SplitDigit(n: nat, base: nat, width: nat) returns (high: nat, low: nat)
    requires 1 < base <= 16 && width > 0 && n < Power(base, width)
    ensures low < base && high < Power(base, width - 1) && n == base * high + low
    ensures Digits(n, base, width) == Digits(high, base, width - 1) + [DigitChar(low)]
  {
    high, low := n / base, n % base;
    QuotientFits(n, base, Power(base, width - 1));
  }

  lemma {:induction false} DigitsRoundTrip(n: nat, base: nat, width: nat)
    requires 1 < base <= 16 && n < Power(base, width)
    ensures NumberOf(Digits(n, base, width), base) == Some(n)
    ensures IsPlain(Digits(n, base, width))
    decreases width
  {
    if width > 0 {
      hide NumberOf, DigitChar, IsPlain, Digits, Power;
      var high, low := SplitDigit(n, base, width);
      DigitsRoundTrip(high, base, width - 1);
      AppendDigit(Digits(high, base, width - 1), base, high, low);
    }
  }

  predicate AllDigits(text: string) {
    text != "" && forall k :: 0 <= k < |text| ==> '0' <= text[k] <= '9'
  }

  lemma {:induction false} DigitsAreANumber(text: string)
    requires forall k :: 0 <= k < |text| ==> '0' <= text[k] <= '9'
    ensures NumberOf(text, 10).Some?
  {
    if text != "" {
      DigitsAreANumber(text[..|text| - 1]);
    }
  }

  /** The shortest decimal numeral. */
  function Decimal(n: nat): string {
    if n < 10 then [DigitChar(n)] else Decimal(n / 10) + [DigitChar(n % 10)]
  }

  lemma {:induction false} DecimalRoundTrip(n: nat)
    ensures AllDigits(Decimal(n)) && NumberOf(Decimal(n), 10) == Some(n)
  {
    hide DigitOf;
    if n < 10 {
      DigitRoundTrip(n);
      assert Decimal(n)[..0] == "";
    } else {
      DecimalRoundTrip(n / 10);
      DigitRoundTrip(n % 10);
      assert Decimal(n)[..|Decimal(n)| - 1] == Decimal(n / 10);
    }
  }

  function Zeros(count: nat): (text: string)
    ensures |text| == count
  {
    if count == 0 then "" else Zeros(count - 1) + "0"
  }

  lemma {:induction false} ZerosAreDigits(count: nat)
    ensures forall k :: 0 <= k < count ==> Zeros(count)[k] == '0'
  {
    if count > 0 {
      ZerosAreDigits(count - 1);
    }
  }

  lemma {:induction false} ZerosInFront(count: nat, text: string)
    ensures NumberOf(Zeros(count) + text, 10) == NumberOf(text, 10)
  {
    if text == "" {
      assert Zeros(count) + text == Zeros(count);
      if count > 0 {
        ZerosInFront(count - 1, "");
        assert Zeros(count - 1) + "" == Zeros(count - 1) && Zeros(count)[..count - 1] == Zeros(count - 1);
      }
    } else {
      var shorter := text[..|text| - 1];
      ZerosInFront(count, shorter);
      assert (Zeros(count) + text)[..count + |text| - 1] == Zeros(count) + shorter;
    }
  }

  lemma DecimalGrows(high: nat, low: nat)
    requires high > 0 && low < 10
    ensures Decimal(10 * high + low) == Decimal(high) + [DigitChar(low)]
  {
    assert (10 * high + low) / 10 == high && (10 * high + low) % 10 == low;
  }

  lemma ReadDigit(text: string) returns (low: nat)
    requires AllDigits(text)
    ensures low < 10 && text == text[..|text| - 1] + [DigitChar(low)]
    ensures var high := NumberOf(text[..|text| - 1], 10); high.Some? ==> NumberOf(text, 10) == Some(10 * high.value + low)
  {
    var last := text[|text| - 1];
    low := last as int - '0' as int;
    assert DigitOf(last) == Some(low) && DigitChar(low) == last;
  }

  lemma SmallDecimals(low: nat)
    requires low < 10
    ensures Decimal(low) == [DigitChar(low)] && Decimal(0) == "0"
  {
  }

  /** One more digit behind a number with zeros in front of it. */
  lemma ReadsOn(shorter: string, zeros: nat, high: nat, low: nat) returns (count: nat)
    requires low < 10 && shorter == Zeros(zeros) + Decimal(high)
    ensures shorter + [DigitChar(low)] == Zeros(count) + Decimal(10 * high + low)
  {
    hide DigitChar;
    SmallDecimals(low);
    if high == 0 {
      count := zeros + 1;
      assert Zeros(count) == Zeros(zeros) + "0";
    } else {
      hide Decimal;
      count := zeros;
      DecimalGrows(high, low);
      assert shorter + [DigitChar(low)] == Zeros(zeros) + (Decimal(high) + [DigitChar(low)]);
    }
  }

  lemma OneDigitReads(text: string)
    requires AllDigits(text) && |text| == 1
    ensures NumberOf(text, 10).Some? && text == Zeros(0) + Decimal(NumberOf(text, 10).value)
  {
    var low := ReadDigit(text);
    SmallDecimals(low);
    assert text[..0] == "" && NumberOf("", 10) == Some(0);
  }

  /** A string of digits is a number with zeros in front of it, and reads as that number. */
  lemma {:induction false} DigitsReadAs(text: string) returns (count: nat)
    requires AllDigits(text)
    ensures NumberOf(text, 10).Some? && text == Zeros(count) + Decimal(NumberOf(text, 10).value)
  {
    hide NumberOf, Zeros, Decimal, DigitChar;
    if |text| == 1 {
      OneDigitReads(text);
      count := 0;
    } else {
      var shorter := text[..|text| - 1];
      var low := ReadDigit(text);
      var zeros := DigitsReadAs(shorter);
      count := ReadsOn(shorter, zeros, NumberOf(shorter, 10).value, low);
    }
  }
}
