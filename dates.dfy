/** The `YYYY-MM-DD` date keys of app.js (`formatDate`). */
module Dates {
  import opened Wrappers
  import opened Strings

  /** `s.padStart(2, '0')` */
  function PadStart2(s: string): (r: string)
  {
    if |s| >= 2 then s else if |s| == 1 then "0" + s else "00"
  }

  /** Two decimal digits for 0 <= n < 100, as `String(n).padStart(2, '0')` writes them. */
  lemma {:induction false} PadTwoDigits(n: nat)
    requires n < 100
    ensures |PadStart2(NatToString(n))| == 2
    ensures IsDigit(PadStart2(NatToString(n))[0]) && IsDigit(PadStart2(NatToString(n))[1])
    ensures DigitsValue(PadStart2(NatToString(n))) == n
  {
    var r := PadStart2(NatToString(n));
    if n < 10 {
      assert r == ['0', Digit(n)];
      assert r[..1] == ['0'];
      assert DigitValue(r[1]) == n;
      assert r[..1][..0] == [];
      assert DigitsValue(r[..1]) == 0;
    } else {
      assert NatToString(n / 10) == [Digit(n / 10)];
      assert NatToString(n) == [Digit(n / 10)] + [Digit(n % 10)];
      assert r == [Digit(n / 10), Digit(n % 10)];
      assert r[..1] == [Digit(n / 10)];
      assert DigitValue(r[0]) == n / 10 && DigitValue(r[1]) == n % 10;
      assert r[..1][..0] == [];
      assert DigitsValue(r[..1]) == n / 10;
    }
  }

  /**
   * `formatDate(date)`: the year as `String` writes it (not padded), the
   * month `getMonth() + 1` and the day `getDate()` padded to two digits.
   */
  function FormatDate(year: int, month0: nat, day: nat): (key: string)
    requires month0 < 12 && 1 <= day <= 31
    ensures 1000 <= year <= 9999 ==> |key| == 10
    ensures |key| >= 7 && key[|key| - 6] == '-' && key[|key| - 3] == '-'
  {
    PadTwoDigits(month0 + 1);
    PadTwoDigits(day);
    YearLength(year);
    IntToString(year) + "-" + PadStart2(NatToString(month0 + 1)) + "-" + PadStart2(NatToString(day))
  }

  lemma YearLength(year: int)
    ensures 1000 <= year <= 9999 ==> |IntToString(year)| == 4
  {
    if 1000 <= year <= 9999 {
      var d1 := year / 10;
      var d2 := d1 / 10;
      var d3 := d2 / 10;
      assert 100 <= d1 < 1000 && 10 <= d2 < 100 && 1 <= d3 < 10;
      assert |NatToString(d3)| == 1;
      assert |NatToString(d2)| == 2;
      assert |NatToString(d1)| == 3;
      assert |NatToString(year)| == 4;
    }
  }

  /** Reads a date key back into (year, month index, day); the inverse of FormatDate. */
  function ParseDateKey(key: string): (r: Option<(int, nat, nat)>)
  {
    if |key| < 7 || key[|key| - 6] != '-' || key[|key| - 3] != '-' then None
    else
      var mm := key[|key| - 5..|key| - 3];
      var dd := key[|key| - 2..];
      if !AllDigits(mm) || !AllDigits(dd) then None
      else
        var month := DigitsValue(mm);
        var day := DigitsValue(dd);
        match ParseInt(key[..|key| - 6])
        case None => None
        case Some(year) => if 1 <= month then Some((year, month - 1, day)) else None
  }

  /** Every key FormatDate writes reads back as the date it was made from. */
  lemma FormatDateRoundTrip(year: int, month0: nat, day: nat)
    requires month0 < 12 && 1 <= day <= 31
    ensures ParseDateKey(FormatDate(year, month0, day)) == Some((year, month0, day))
  {
    var y := IntToString(year);
    var mm := PadStart2(NatToString(month0 + 1));
    var dd := PadStart2(NatToString(day));
    PadTwoDigits(month0 + 1);
    PadTwoDigits(day);
    assert AllDigits(mm) && AllDigits(dd);
    IntToStringRoundTrip(year);
    ParseParts(y, mm, dd, year);
    assert FormatDate(year, month0, day) == y + "-" + mm + "-" + dd;
  }

  /** Reading a key assembled from a year text and two-digit month and day texts. */
  lemma ParseParts(y: string, mm: string, dd: string, year: int)
    requires |mm| == 2 && |dd| == 2 && AllDigits(mm) && AllDigits(dd)
    requires ParseInt(y) == Some(year) && DigitsValue(mm) >= 1
    ensures ParseDateKey(y + "-" + mm + "-" + dd) == Some((year, DigitsValue(mm) - 1, DigitsValue(dd)))
  {
    var key := y + "-" + mm + "-" + dd;
    KeyParts(y, mm, dd);
    var yearText := key[..|key| - 6];
    assert yearText == y;
    assert ParseInt(yearText) == Some(year);
    assert key[|key| - 5..|key| - 3] == mm && key[|key| - 2..] == dd;
  }

  /** Where the three parts of a date key sit. */
  lemma KeyParts(y: string, mm: string, dd: string)
    requires |mm| == 2 && |dd| == 2
    ensures var key := y + "-" + mm + "-" + dd;
      |key| == |y| + 6 && key[|key| - 6] == '-' && key[|key| - 3] == '-' &&
      key[..|key| - 6] == y && key[|key| - 5..|key| - 3] == mm && key[|key| - 2..] == dd
  {
    var key := y + "-" + mm + "-" + dd;
    assert key == y + ("-" + mm + "-" + dd);
  }

  /** Distinct dates get distinct keys. */
  lemma FormatDateInjective(y1: int, m1: nat, d1: nat, y2: int, m2: nat, d2: nat)
    requires m1 < 12 && 1 <= d1 <= 31 && m2 < 12 && 1 <= d2 <= 31
    requires FormatDate(y1, m1, d1) == FormatDate(y2, m2, d2)
    ensures y1 == y2 && m1 == m2 && d1 == d2
  {
    FormatDateRoundTrip(y1, m1, d1);
    FormatDateRoundTrip(y2, m2, d2);
  }
}
