/**
 Reading a day key as a number, as `int(key)` does when the listing sorts the days (app.py:101).
 Only plain ASCII decimal digits are accepted; leading zeros are allowed, so "01" and "1" both
 denote day 1 while remaining different keys.
 */
module DayKeys {
  import opened Common

  predicate IsDigit(ch: char)
  {
    '0' <= ch <= '9'
  }

  predicate AllDigits(s: string)
  {
    forall i :: 0 <= i < |s| ==> IsDigit(s[i])
  }

  function DigitValue(ch: char): (v: nat)
    requires IsDigit(ch)
    ensures v < 10
  {
    ch as int - '0' as int
  }

  function DigitChar(v: nat): (ch: char)
    requires v < 10
    ensures IsDigit(ch) && DigitValue(ch) == v
  {
    ('0' as int + v) as char
  }

  /** The number a digit string denotes, most significant digit first. */
  function DigitsValue(s: string): nat
    requires AllDigits(s)
    decreases |s|
  {
    if s == [] then 0 else DigitsValue(s[..|s| - 1]) * 10 + DigitValue(s[|s| - 1])
  }

  /**
   The number a day key denotes, or None when `int()` would reject it. A key written without
   leading zeros is exactly the decimal spelling of its number.
   */
  function ParseDayKey(s: string): (r: Option<nat>)
    ensures r.Some? <==> |s| > 0 && AllDigits(s)
    ensures r.Some? && (|s| == 1 || s[0] != '0') ==> Decimal(r.value) == s
  {
    if |s| > 0 && AllDigits(s) then
      assert |s| == 1 || s[0] != '0' ==> Decimal(DigitsValue(s)) == s by {
        if |s| == 1 || s[0] != '0' {
          DecimalOfDigits(s);
        }
      }
      Some(DigitsValue(s))
    else
      None
  }

  /** A digit string whose first digit is not zero denotes at least that digit. */
  lemma {:induction false} DigitsValueAtLeastFirst(s: string)
    requires |s| > 0 && AllDigits(s)
    ensures DigitsValue(s) >= DigitValue(s[0])
    decreases |s|
  {
    if |s| > 1 {
      var t := s[..|s| - 1];
      DigitsValueAtLeastFirst(t);
      assert t[0] == s[0];
    }
  }

  /** Spelling out the number of a digit string without leading zeros gives the string back. */
  lemma {:induction false} DecimalOfDigits(s: string)
    requires |s| > 0 && AllDigits(s)
    requires |s| == 1 || s[0] != '0'
    ensures Decimal(DigitsValue(s)) == s
    decreases |s|
  {
    var last := s[|s| - 1];
    assert DigitChar(DigitValue(last)) == last;
    if |s| == 1 {
      assert s[..0] == [];
      assert s == [last];
    } else {
      var t := s[..|s| - 1];
      assert t[0] == s[0];
      DecimalOfDigits(t);
      DigitsValueAtLeastFirst(t);
      var n := DigitsValue(s);
      assert n == DigitsValue(t) * 10 + DigitValue(last);
      assert n / 10 == DigitsValue(t) && n % 10 == DigitValue(last);
      assert s == t + [last];
    }
  }

  /** The decimal spelling of `n`, without leading zeros. */
  function Decimal(n: nat): (s: string)
    ensures |s| > 0 && AllDigits(s)
    ensures n >= 10 ==> s[0] != '0'
    decreases n
  {
    if n < 10 then [DigitChar(n)] else Decimal(n / 10) + [DigitChar(n % 10)]
  }

  /** Reading back the decimal spelling of a day number gives that number. */
  lemma {:induction false} ParseDecimal(n: nat)
    ensures ParseDayKey(Decimal(n)) == Some(n)
    decreases n
  {
    var s := Decimal(n);
    if n >= 10 {
      ParseDecimal(n / 10);
      assert s[..|s| - 1] == Decimal(n / 10);
      assert DigitsValue(s) == (n / 10) * 10 + n % 10;
    } else {
      assert s[..|s| - 1] == [];
    }
  }

  /** A leading zero does not change the number a key denotes. */
  lemma {:induction false} LeadingZeroIgnored(s: string)
    requires AllDigits(s)
    ensures AllDigits("0" + s) && DigitsValue("0" + s) == DigitsValue(s)
    decreases |s|
  {
    var t := "0" + s;
    if s != [] {
      LeadingZeroIgnored(s[..|s| - 1]);
      assert t[..|t| - 1] == "0" + s[..|s| - 1];
    }
  }

  /**
   A leading "0" never changes how a key reads: "01" and "1" both read as 1, and a key that is
   not a digit string stays rejected with a zero in front.
   */
  lemma ParseLeadingZero(s: string)
    requires |s| > 0
    ensures ParseDayKey("0" + s) == ParseDayKey(s)
  {
    var t := "0" + s;
    if AllDigits(s) {
      LeadingZeroIgnored(s);
    } else {
      var i :| 0 <= i < |s| && !IsDigit(s[i]);
      assert t[i + 1] == s[i];
    }
  }
}
