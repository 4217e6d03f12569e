/**
  The query window of `getTimeRange`: the calendar dates and hours of the
  instant `before` (now plus the look-back offset) and of `now`, rendered as
  the strings the market service expects. Reading the clock, resolving the
  Europe/Budapest zone and the hour arithmetic happen outside the model: the
  two instants arrive already broken down into civil fields.
*/
module TimeRange {
  import opened Decimal

  /** A wall-clock reading in the reference time zone, to the hour. */
  datatype CivilTime = CivilTime(year: int, month: int, day: int, hour: int)

  /** The `Times` record: dates as `YYYY-MM-DD`, hours as plain decimal numbers. */
  datatype Times = Times(startDate: string, endDate: string, startHour: string, endHour: string)

  /** The field ranges `time.Time.Date` and `time.Time.Hour` produce for years 0 to 9999. */
  predicate ValidDate(y: int, m: int, d: int)
  {
    0 <= y <= 9999 && 1 <= m <= 12 && 1 <= d <= 31
  }

  predicate ValidTime(t: CivilTime)
  {
    ValidDate(t.year, t.month, t.day) && 0 <= t.hour <= 23
  }

  predicate SameDay(a: CivilTime, b: CivilTime)
  {
    a.year == b.year && a.month == b.month && a.day == b.day
  }

  /** Text made of digits and dashes only: it carries no markup. */
  predicate DigitsAndDashes(s: string)
  {
    forall i :: 0 <= i < |s| ==> IsDigit(s[i]) || s[i] == '-'
  }

  /** Three fields joined by dashes hold only digits and dashes when the fields do. */
  lemma JoinedDigitsAndDashes(a: string, b: string, c: string)
    requires DigitsAndDashes(a) && DigitsAndDashes(b) && DigitsAndDashes(c)
    ensures DigitsAndDashes(a + "-" + b + "-" + c)
  {
  }

  /** Three digit groups of widths 4, 2 and 2 joined by dashes, read back position by position. */
  lemma FieldsLayout(a: string, b: string, c: string)
    ensures |a| == 4 && |b| == 2 && |c| == 2 ==> var s := a + "-" + b + "-" + c;
      && |s| == 10 && s[4] == '-' && s[7] == '-'
      && s[..4] == a && s[5..7] == b && s[8..] == c
  {
    var s := a + "-" + b + "-" + c;
    if |a| == 4 && |b| == 2 && |c| == 2 {
      assert s[..4] == a;
      assert s[5..7] == b;
      assert s[8..] == c;
    }
  }

  /** The zero-padded fields of a valid date: widths 4, 2 and 2, each denoting its field. */
  lemma ValidDateFields(y: int, m: int, d: int)
    ensures ValidDate(y, m, d) ==>
      && |ZeroPad(y, 4)| == 4 && AllDigits(ZeroPad(y, 4)) && DigitsValue(ZeroPad(y, 4)) == y
      && |ZeroPad(m, 2)| == 2 && AllDigits(ZeroPad(m, 2)) && DigitsValue(ZeroPad(m, 2)) == m
      && |ZeroPad(d, 2)| == 2 && AllDigits(ZeroPad(d, 2)) && DigitsValue(ZeroPad(d, 2)) == d
  {
    if ValidDate(y, m, d) {
      assert Pow10(4) == 10000 && Pow10(2) == 100;
      ZeroPadValue(y, 4);
      ZeroPadValue(m, 2);
      ZeroPadValue(d, 2);
    }
  }

  /**
    `fmt.Sprintf("%04d-%02d-%02d", y, m, d)`, the extended calendar-date form
    of ISO 8601: a valid date renders as ten characters, four year digits, a
    dash, two month digits, a dash, two day digits, and each digit group
    denotes its field.
  */
  function FormatDate(y: int, m: int, d: int): (s: string)
    ensures DigitsAndDashes(s)
    ensures ValidDate(y, m, d) ==>
      && |s| == 10 && s[4] == '-' && s[7] == '-'
      && AllDigits(s[..4]) && DigitsValue(s[..4]) == y
      && AllDigits(s[5..7]) && DigitsValue(s[5..7]) == m
      && AllDigits(s[8..]) && DigitsValue(s[8..]) == d
  {
    var a, b, c := ZeroPad(y, 4), ZeroPad(m, 2), ZeroPad(d, 2);
    PaddedDigitsAndDashes(y, 4);
    PaddedDigitsAndDashes(m, 2);
    PaddedDigitsAndDashes(d, 2);
    JoinedDigitsAndDashes(a, b, c);
    ValidDateFields(y, m, d);
    FieldsLayout(a, b, c);
    a + "-" + b + "-" + c
  }

  /** A zero-padded number holds digits and at most a leading minus sign. */
  lemma PaddedDigitsAndDashes(n: int, width: nat)
    ensures DigitsAndDashes(ZeroPad(n, width))
  {
    var r := ZeroPad(n, width);
    if n < 0 {
      forall i | 1 <= i < |r|
        ensures IsDigit(r[i])
      {
        assert r[i] == r[1..][i - 1];
      }
    }
  }

  /**
    The window from `before` to `now`, as `getTimeRange` renders it: the
    start fields come from `before` and the end fields from `now`, dates in
    the `YYYY-MM-DD` form and hours as unpadded decimal numbers. On valid
    instants the two dates are equal exactly when both instants fall on the
    same calendar day, and the hours denote the two hours; no field carries
    markup.
  */
  function GetTimeRange(before: CivilTime, now: CivilTime): (r: Times)
    ensures r.startDate == FormatDate(before.year, before.month, before.day)
    ensures r.endDate == FormatDate(now.year, now.month, now.day)
    ensures r.startHour == Itoa(before.hour) && r.endHour == Itoa(now.hour)
    ensures ValidTime(before) && ValidTime(now) ==> (r.startDate == r.endDate <==> SameDay(before, now))
    ensures ValidTime(before) ==> AllDigits(r.startHour) && DigitsValue(r.startHour) == before.hour
    ensures ValidTime(now) ==> AllDigits(r.endHour) && DigitsValue(r.endHour) == now.hour
    ensures DigitsAndDashes(r.startDate) && DigitsAndDashes(r.endDate)
    ensures DigitsAndDashes(r.startHour) && DigitsAndDashes(r.endHour)
  {
    FormatDateInjective(before.year, before.month, before.day, now.year, now.month, now.day);
    ItoaDigitsAndDashes(before.hour);
    ItoaDigitsAndDashes(now.hour);
    Times(FormatDate(before.year, before.month, before.day),
          FormatDate(now.year, now.month, now.day),
          Itoa(before.hour), Itoa(now.hour))
  }

  /** A decimal rendering holds digits and at most a leading minus sign. */
  lemma ItoaDigitsAndDashes(n: int)
    ensures DigitsAndDashes(Itoa(n))
  {
    var r := Itoa(n);
    if n < 0 {
      forall i | 1 <= i < |r|
        ensures IsDigit(r[i])
      {
        assert r[i] == r[1..][i - 1];
      }
    }
  }

  // ---------------------------------------------------------------------------
  // Properties

  /** On valid dates the rendering is injective: equal strings mean equal dates. */
  lemma FormatDateInjective(y1: int, m1: int, d1: int, y2: int, m2: int, d2: int)
    ensures ValidDate(y1, m1, d1) && ValidDate(y2, m2, d2) ==>
      (FormatDate(y1, m1, d1) == FormatDate(y2, m2, d2) <==> (y1, m1, d1) == (y2, m2, d2))
  {
    var s1, s2 := FormatDate(y1, m1, d1), FormatDate(y2, m2, d2);
    if ValidDate(y1, m1, d1) && ValidDate(y2, m2, d2) && s1 == s2 {
      assert s1[..4] == s2[..4] && s1[5..7] == s2[5..7] && s1[8..] == s2[8..];
    }
  }

  /** A date of the 21st century, shown as the service receives it. */
  lemma FormatDateExample()
    ensures FormatDate(2024, 3, 7) == "2024-03-07"
  {
    assert NatToString(2024) == "2024" by {
      assert NatToString(202) == "202" by {
        assert NatToString(20) == "20";
      }
    }
  }
}
