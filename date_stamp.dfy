/**
 * The date stamp of the export folder (`getDate` and `padNumber` of
 * CC_ExportCleans.js), with the calendar date as parameters instead of the
 * clock. Because `padNumber` hands back a number when it does not pad, the
 * `+` that assembles the stamp adds numbers whenever neither month nor day
 * was padded.
 */
module DateStamp {
  import opened Strings
  import opened JsValues

  /** `padNumber`: a `0`-prefixed string when the decimal form is one character, the number itself otherwise. */
  function PadNumber(num: int): (r: JsValue)
    ensures r.Str? <==> 0 <= num < 10
    ensures r.Num? ==> r == Num(num)
  {
    if |NumberToString(num)| < 2 then Str("0" + NumberToString(num)) else Num(num)
  }

  /** At least two decimal digits: what `PadNumber` turns into when it is concatenated. */
  function Padded(n: nat): string
  {
    if n < 10 then "0" + Decimal(n) else Decimal(n)
  }

  /**
   * `PadNumber` pads exactly the one-digit naturals; negative numbers already
   * have two characters. As text the result always reads back as the number.
   */
  lemma PadNumberPadsSingleDigits(num: int)
    ensures PadNumber(num).Str? <==> 0 <= num < 10
    ensures PadNumber(num).Num? ==> PadNumber(num) == Num(num)
    ensures num >= 0 ==> ToStr(PadNumber(num)) == Padded(num)
  {
  }

  /** `Padded(n)` has at least two digits and reads back as `n`. */
  lemma {:induction false} PaddedRoundTrip(n: nat)
    ensures |Padded(n)| >= 2 && AllDigits(Padded(n))
    ensures ParseDecimal(Padded(n)) == n
  {
    DecimalRoundTrip(n);
    if n < 10 {
      ParseLeadingZero(Decimal(n));
    }
  }

  /** `getDate` for day of month `day`, calendar month `month` (`getMonth() + 1`) and four-digit year `fullYear`. */
  function GetDate(day: int, month: int, fullYear: int): (r: JsValue)
    ensures r.Num? <==> !(0 <= month < 10) && !(0 <= day < 10)
    ensures r.Num? ==> r.n == month + day + Rem(fullYear, 100)
  {
    Plus(Plus(PadNumber(month), PadNumber(day)), Num(Rem(fullYear, 100)))
  }

  /**
   * For a calendar date: when month or day is a single digit the stamp is the
   * text month, day (two digits each) and the unpadded year of the century;
   * when both have two digits the three numbers are added.
   */
  lemma GetDateCases(day: int, month: int, fullYear: int)
    requires 1 <= day <= 31 && 1 <= month <= 12
    ensures (month < 10 || day < 10) ==>
              GetDate(day, month, fullYear)
              == Str(Padded(month) + Padded(day) + NumberToString(Rem(fullYear, 100)))
    ensures (month >= 10 && day >= 10) ==>
              GetDate(day, month, fullYear) == Num(month + day + Rem(fullYear, 100))
  {
    PadNumberPadsSingleDigits(day);
    PadNumberPadsSingleDigits(month);
  }

  /** 8 May 2024 gives the text `050824`. */
  lemma GetDateSpringExample()
    ensures GetDate(8, 5, 2024) == Str("050824")
  {
    GetDateCases(8, 5, 2024);
    assert Decimal(24) == "24";
  }

  /** 10 October 2024 gives the number 44, not `101024`. */
  lemma GetDateAddsLateInYear()
    ensures GetDate(10, 10, 2024) == Num(44)
  {
    GetDateCases(10, 10, 2024);
  }

  /** 5 January 2009 gives `01059`: the year of the century is not padded. */
  lemma GetDateShortYear()
    ensures GetDate(5, 1, 2009) == Str("01059")
  {
    GetDateCases(5, 1, 2009);
  }

  /** The `MMDDYY` stamp the folder name is meant to carry: every part two digits, always text. */
  function StampMMDDYY(day: nat, month: nat, fullYear: nat): string
  {
    Padded(month) + Padded(day) + Padded(fullYear % 100)
  }

  /** For a calendar date the stamp has six digits, and month, day and year of the century read back from it. */
  lemma {:induction false} StampMMDDYYRoundTrip(day: nat, month: nat, fullYear: nat)
    requires 1 <= day <= 31 && 1 <= month <= 12
    ensures var s := StampMMDDYY(day, month, fullYear);
            |s| == 6 && AllDigits(s)
            && ParseDecimal(s[0..2]) == month
            && ParseDecimal(s[2..4]) == day
            && ParseDecimal(s[4..6]) == fullYear % 100
  {
    var m, d, y := Padded(month), Padded(day), Padded(fullYear % 100);
    PaddedRoundTrip(month);
    PaddedRoundTrip(day);
    PaddedRoundTrip(fullYear % 100);
    var s := m + d + y;
    assert s[0..2] == m && s[2..4] == d && s[4..6] == y;
  }

  /** Where the written stamp is text its characters agree with the intended one; only the year may lose a digit. */
  lemma StampAgreesWhenText(day: nat, month: nat, fullYear: nat)
    requires 1 <= day <= 31 && 1 <= month <= 12
    requires month < 10 || day < 10
    requires fullYear % 100 >= 10
    ensures GetDate(day, month, fullYear) == Str(StampMMDDYY(day, month, fullYear))
  {
    GetDateCases(day, month, fullYear);
  }
}
