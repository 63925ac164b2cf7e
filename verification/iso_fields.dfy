/** Reading a time back from its text (section 15.9.1.15 of ECMA-262 5.1). */
module IsoFields {
  import opened Decimals
  import opened Timestamps

  /** The fields of a text with a year of `p` characters. */
  datatype Fields = Fields(month: string, day: string, hours: string, minutes: string, seconds: string, ms: string)

  function FieldsAt(s: string, p: nat): Fields
    requires |s| == p + 20
  {
    Fields(s[p + 1..p + 3], s[p + 4..p + 6], s[p + 7..p + 9], s[p + 10..p + 12], s[p + 13..p + 15], s[p + 16..p + 19])
  }

  /** `-MM-DDTHH:mm:ss.sssZ` after the year. */
  predicate HasForm(s: string, p: nat) {
    && |s| == p + 20
    && s[p] == '-' && s[p + 3] == '-' && s[p + 6] == 'T' && s[p + 9] == ':' && s[p + 12] == ':' && s[p + 15] == '.'
    && s[p + 19] == 'Z'
  }

  predicate AreNumbers(f: Fields) {
    && AreDigits(f.month) && AreDigits(f.day) && AreDigits(f.hours)
    && AreDigits(f.minutes) && AreDigits(f.seconds) && AreDigits(f.ms)
  }

  /** The days of a month (1 to 12) in a year. */
  function DaysIn(month: nat, y: int): int
    requires 1 <= month <= 12
  {
    [31, if IsLeap(y) then 29 else 28, 31, 30, 31, 30, 31, 31, 30, 31, 30, 31][month - 1]
  }

  /** The days of the year before the month. */
  function DaysBefore(month: nat, y: int): int
    requires 1 <= month <= 12
  {
    if month == 1 then 0 else DaysBefore(month - 1, y) + DaysIn(month - 1, y)
  }

  /** The time that the fields mean. */
  function TimeOf(y: int, f: Fields): int
    requires AreNumbers(f) && 1 <= Denoted(f.month) <= 12
  {
    86400000 * (DayFromYear(y) + DaysBefore(Denoted(f.month), y) + Denoted(f.day) - 1)
    + 3600000 * Denoted(f.hours) + 60000 * Denoted(f.minutes) + 1000 * Denoted(f.seconds) + Denoted(f.ms)
  }

  predicate InRange(y: int, f: Fields)
    requires AreNumbers(f)
  {
    && 1 <= Denoted(f.month) <= 12 && 1 <= Denoted(f.day) <= DaysIn(Denoted(f.month), y)
    && Denoted(f.hours) < 24 && Denoted(f.minutes) < 60 && Denoted(f.seconds) < 60 && Denoted(f.ms) < 1000
  }

  lemma {:induction false} PadDenotes(n: nat, w: nat)
    requires n < PowTen(w)
    ensures AreDigits(Pad(n, w)) && Denoted(Pad(n, w)) == n
  {
    if w > 0 {
      PadDenotes(n / 10, w - 1);
      DenotedSnoc(Pad(n / 10, w - 1), '0' + (n % 10) as char);
    }
  }

  /** The day count starts at the first of January 1970. */
  lemma Epoch()
    ensures DayFromYear(1970) == 0
  {
  }

  lemma {:induction false} MonthsAreTheirDays(month: nat, y: int)
    requires 1 <= month <= 12
    ensures DaysBefore(month, y) == MonthStart(month - 1, IsLeap(y))
    ensures DaysIn(month, y) == MonthStart(month, IsLeap(y)) - MonthStart(month - 1, IsLeap(y))
  {
    if month > 1 {
      MonthsAreTheirDays(month - 1, y);
    }
  }

  /** Every time's year, with a sign and six digits outside the years 0 to 9999. */
  lemma YearReads(y: int)
    requires -1000000 < y < 1000000
    ensures if 0 <= y <= 9999 then |YearText(y)| == 4 && AreDigits(YearText(y)) && Denoted(YearText(y)) == y
            else |YearText(y)| == 7 && YearText(y)[0] == (if y < 0 then '-' else '+')
                 && AreDigits(YearText(y)[1..]) && Denoted(YearText(y)[1..]) == if y < 0 then -y else y
  {
    Powers();
    if 0 <= y <= 9999 {
      PadDenotes(y, 4);
    } else {
      PadDenotes(if y < 0 then -y else y, 6);
      assert YearText(y)[1..] == Pad(if y < 0 then -y else y, 6);
    }
  }

  function FieldsOf(dayInYear: int, y: int, ms: nat): Fields
    requires 0 <= dayInYear < YearLength(y)
  {
    var d := MonthDayOf(dayInYear, IsLeap(y));
    Fields(Pad(d.month, 2), Pad(d.day, 2), Pad(ms / 3600000, 2), Pad(ms / 60000 % 60, 2), Pad(ms / 1000 % 60, 2),
      Pad(ms % 1000, 3))
  }

  lemma Sliced(y: string, f: Fields, s: string)
    requires |f.month| == |f.day| == |f.hours| == |f.minutes| == |f.seconds| == 2 && |f.ms| == 3
    requires s == y + ("-" + ((f.month + ("-" + f.day)) + ("T" +
      (f.hours + (":" + (f.minutes + (":" + (f.seconds + ("." + (f.ms + "Z"))))))))))
    ensures HasForm(s, |y|) && FieldsAt(s, |y|) == f && s[..|y|] == y
  {
    var p := |y|;
    assert s == y + "-" + f.month + "-" + f.day + "T" + f.hours + ":" + f.minutes + ":" + f.seconds + "." + f.ms + "Z";
    assert s[p + 1..p + 3] == f.month && s[p + 4..p + 6] == f.day && s[p + 7..p + 9] == f.hours;
    assert s[p + 10..p + 12] == f.minutes && s[p + 13..p + 15] == f.seconds && s[p + 16..p + 19] == f.ms;
  }

  lemma IsoIsSliced(y: int, dayInYear: int, ms: nat)
    requires 0 <= dayInYear < YearLength(y)
    ensures var s, p := IsoOf(y, dayInYear, ms), |YearText(y)|;
      HasForm(s, p) && FieldsAt(s, p) == FieldsOf(dayInYear, y, ms) && s[..p] == YearText(y)
  {
    hide Pad, MonthDayOf, YearText;
    Sliced(YearText(y), FieldsOf(dayInYear, y, ms), IsoOf(y, dayInYear, ms));
  }

  lemma DateRead(dayInYear: int, y: int)
    requires 0 <= dayInYear < YearLength(y)
    ensures var d := MonthDayOf(dayInYear, IsLeap(y));
      && 1 <= d.month <= 12 && 1 <= d.day <= DaysIn(d.month, y) <= 31
      && DaysBefore(d.month, y) + d.day - 1 == dayInYear
  {
    var m := MonthFrom(dayInYear, IsLeap(y), 0);
    hide MonthStart, DaysIn, DaysBefore;
    MonthsAreTheirDays(m + 1, y);
    MonthLength(m, IsLeap(y));
  }

  lemma FieldsRead(dayInYear: int, y: int, ms: nat)
    requires 0 <= dayInYear < YearLength(y) && ms < 86400000
    ensures var f := FieldsOf(dayInYear, y, ms);
      && AreNumbers(f) && InRange(y, f)
      && TimeOf(y, f) == 86400000 * (DayFromYear(y) + dayInYear) + ms
  {
    hide MonthDayOf, DaysIn, DaysBefore, Pad, Denoted, AreDigits, IsLeap, DayFromYear;
    var d := MonthDayOf(dayInYear, IsLeap(y));
    DateRead(dayInYear, y);
    ClockFields(ms);
    Powers();
    PadDenotes(d.month, 2);
    PadDenotes(d.day, 2);
    PadDenotes(ms / 3600000, 2);
    PadDenotes(ms / 60000 % 60, 2);
    PadDenotes(ms / 1000 % 60, 2);
    PadDenotes(ms % 1000, 3);
  }

  lemma ClockFields(ms: nat)
    requires ms < 86400000
    ensures ms / 3600000 < 24
    ensures ms == 3600000 * (ms / 3600000) + 60000 * (ms / 60000 % 60) + 1000 * (ms / 1000 % 60) + ms % 1000
  {
    var s, m, h := ms / 1000, ms / 60000, ms / 3600000;
    assert m == s / 60 && h == m / 60;
    assert ms == 1000 * s + ms % 1000 && s == 60 * m + s % 60 && m == 60 * h + m % 60;
  }

  /**
   * A time's text has the standard's form, with the year's digits in front, and
   * its fields are in their ranges and mean the time.
   */
  lemma IsoReads(t: int)
    requires IsTime(t)
    ensures var s, y := IsoString(t), Year(t);
      var p := if 0 <= y <= 9999 then 4 else 7;
      && HasForm(s, p) && AreNumbers(FieldsAt(s, p)) && InRange(y, FieldsAt(s, p))
      && TimeOf(y, FieldsAt(s, p)) == t && s[..p] == YearText(y)
  {
    hide Year, YearText, IsoOf, HasForm, FieldsOf, AreNumbers, InRange, TimeOf, DayFromYear, YearLength;
    var y := Year(t);
    YearIsBounded(t);
    YearReads(y);
    YearFits(t);
    IsoIsSliced(y, DayInYear(t, y), TimeInDay(t));
    FieldsRead(DayInYear(t, y), y, TimeInDay(t));
  }
}
