/**
 * The timer field's text and `Number(text) || null`.
 *
 * JavaScript's Number() is modelled only on the input the number-pad keyboard
 * produces: after trimming whitespace the text is a string of decimal digits
 * (the empty string reads as 0, as in JavaScript); any other text reads as NaN.
 */
module TimerText {
  import opened Wrappers
  import opened Strings

  predicate IsDigit(c: char) {
    '0' <= c <= '9'
  }

  predicate AllDigits(s: string) {
    forall k :: 0 <= k < |s| ==> IsDigit(s[k])
  }

  function DigitValue(c: char): (d: nat)
    requires IsDigit(c)
    ensures d < 10
  {
    c as int - '0' as int
  }

  function DigitChar(d: nat): (c: char)
    requires d < 10
    ensures IsDigit(c) && DigitValue(c) == d
  {
    ('0' as int + d) as char
  }

  function Pow10(n: nat): (p: nat)
    ensures p >= 1
  {
    if n == 0 then 1 else 10 * Pow10(n - 1)
  }

  /** The value of a string of decimal digits, most significant first; leading zeros are allowed. */
  function DigitsValue(s: string): (v: nat)
    requires AllDigits(s)
    ensures v < Pow10(|s|)
  {
    if s == [] then 0 else 10 * DigitsValue(s[..|s| - 1]) + DigitValue(s[|s| - 1])
  }

  /** The canonical decimal rendering of `n`: digits only, never empty, no leading zero. */
  function Decimal(n: nat): (s: string)
    ensures |s| >= 1 && AllDigits(s)
    ensures s[0] != '0' || n == 0
  {
    if n < 10 then [DigitChar(n)] else Decimal(n / 10) + [DigitChar(n % 10)]
  }

  /** Reading back a rendered number gives the number. */
  lemma {:induction false} DigitsValueOfDecimal(n: nat)
    ensures DigitsValue(Decimal(n)) == n
  {
    var s := Decimal(n);
    if n >= 10 {
      DigitsValueOfDecimal(n / 10);
      assert s[..|s| - 1] == Decimal(n / 10);
    } else {
      assert s[..|s| - 1] == [];
    }
  }

  /** A leading zero does not change the value. */
  lemma {:induction false} DigitsValueLeadingZero(s: string)
    requires AllDigits(s)
    ensures AllDigits(['0'] + s) && DigitsValue(['0'] + s) == DigitsValue(s)
  {
    var z := ['0'] + s;
    if s != [] {
      var p := s[..|s| - 1];
      DigitsValueLeadingZero(p);
      assert z[..|z| - 1] == ['0'] + p;
    } else {
      assert z[..|z| - 1] == [];
    }
  }

  /** Any run of leading zeros, as in "007", does not change the value. */
  lemma {:induction false} DigitsValueLeadingZeros(zeros: string, s: string)
    requires forall k :: 0 <= k < |zeros| ==> zeros[k] == '0'
    requires AllDigits(s)
    ensures AllDigits(zeros + s) && DigitsValue(zeros + s) == DigitsValue(s)
  {
    if zeros != [] {
      DigitsValueLeadingZeros(zeros[1..], s);
      DigitsValueLeadingZero(zeros[1..] + s);
      assert zeros + s == ['0'] + (zeros[1..] + s);
    } else {
      assert zeros + s == s;
    }
  }

  /** Digits only ever read as a number whose digits are all zero exactly when it is 0. */
  lemma {:induction false} DigitsValueZero(s: string)
    requires AllDigits(s)
    ensures DigitsValue(s) == 0 <==> forall k :: 0 <= k < |s| ==> s[k] == '0'
  {
    if s != [] {
      var p := s[..|s| - 1];
      DigitsValueZero(p);
      assert forall k :: 0 <= k < |p| ==> p[k] == s[k];
    }
  }

  /** `Number(text)` on the modelled input: Some(value), or None for NaN. */
  function ToNumber(text: string): (v: Option<nat>)
    ensures v.Some? <==> AllDigits(Trim(text))
    ensures v.Some? ==> v.value == DigitsValue(Trim(text))
    ensures AllSpace(text) ==> v == Some(0)
  {
    var t := Trim(text);
    if AllDigits(t) then Some(DigitsValue(t)) else None
  }

  /**
   * `timerEnabled ? Number(text) || null : null`: a positive duration, or None
   * when the timer is off, the text is not a number, or the number is 0.
   */
  function ParseTimer(enabled: bool, text: string): (r: Option<nat>)
    ensures !enabled ==> r == None
    ensures r.Some? ==> r.value > 0
    ensures enabled && ToNumber(text).Some? && ToNumber(text).value > 0 ==> r == ToNumber(text)
    ensures enabled && (ToNumber(text) == None || ToNumber(text) == Some(0)) ==> r == None
  {
    if !enabled then None
    else
      match ToNumber(text)
      case None => None
      case Some(n) => if n == 0 then None else Some(n)
  }

  /** Switching the timer off discards whatever was typed. */
  lemma TimerOffIgnoresText(text: string)
    ensures ParseTimer(false, text) == None
  {
  }

  /** An empty or all-blank field gives no timer even when the timer is on. */
  lemma BlankTextGivesNoTimer(text: string)
    requires AllSpace(text)
    ensures ParseTimer(true, text) == None
  {
  }

  /** A field of zeros (such as "0" or "000") gives no timer. */
  lemma {:induction false} ZeroTextGivesNoTimer(text: string)
    requires |text| > 0 && forall k :: 0 <= k < |text| ==> text[k] == '0'
    ensures ParseTimer(true, text) == None
  {
    TrimOfTrimmed(text);
    DigitsValueZero(text);
  }

  /** A positive number typed (with any surrounding whitespace) is the stored duration. */
  lemma {:induction false} DecimalTextGivesTimer(n: nat, before: string, after: string)
    requires n > 0 && AllSpace(before) && AllSpace(after)
    ensures ParseTimer(true, before + Decimal(n) + after) == Some(n)
  {
    TrimPadded(before, Decimal(n), after);
    DigitsValueOfDecimal(n);
  }

  /** A zero-padded positive number, such as "007", is stored as that number. */
  lemma {:induction false} ZeroPaddedTextGivesTimer(n: nat, zeros: string)
    requires n > 0 && forall k :: 0 <= k < |zeros| ==> zeros[k] == '0'
    ensures ParseTimer(true, zeros + Decimal(n)) == Some(n)
  {
    var d := Decimal(n);
    var text := zeros + d;
    DigitsValueLeadingZeros(zeros, d);
    DigitsValueOfDecimal(n);
    DigitTextIsTrimmed(text);
    assert ToNumber(text) == Some(n);
  }

  /** Digit text has no whitespace to trim. */
  lemma DigitTextIsTrimmed(s: string)
    requires s != [] && AllDigits(s)
    ensures Trim(s) == s
  {
    assert IsDigit(s[0]) && IsDigit(s[|s| - 1]);
    TrimOfTrimmed(s);
  }

  /** A character that is neither a digit nor whitespace makes the field read as NaN: no timer. */
  lemma NonDigitGivesNoTimer(text: string, k: nat)
    requires k < |text| && !IsDigit(text[k]) && !IsSpace(text[k])
    ensures ParseTimer(true, text) == None
  {
  }
}
