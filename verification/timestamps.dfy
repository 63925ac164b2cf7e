/** `Date.prototype.toISOString` (sections 15.9.1 and 15.9.1.15 of ECMA-262 5.1). */
module Timestamps {
  import opened Decimals
  import opened Registry

  /** The days from the epoch to the first day of the year. */
  function DayFromYear(y: int): int {
    365 * (y - 1970) + (y - 1969) / 4 - (y - 1901) / 100 + (y - 1601) / 400
  }

  predicate IsLeap(y: int) {
    y % 4 == 0 && (y % 100 != 0 || y % 400 == 0)
  }

  function YearLength(y: int): int {
    if IsLeap(y) then 366 else 365
  }

  lemma EveryFourth(y: int)
    ensures (y - 1968) / 4 - (y - 1969) / 4 == if y % 4 == 0 then 1 else 0
  {
  }

  lemma EveryHundredth(y: int)
    ensures (y - 1900) / 100 - (y - 1901) / 100 == if y % 100 == 0 then 1 else 0
    ensures y % 100 == 0 ==> y % 4 == 0
  {
  }

  lemma EveryFourHundredth(y: int)
    ensures (y - 1600) / 400 - (y - 1601) / 400 == if y % 400 == 0 then 1 else 0
    ensures y % 400 == 0 ==> y % 100 == 0
  {
  }

  lemma NextYear(y: int)
    ensures DayFromYear(y + 1) == DayFromYear(y) + YearLength(y)
  {
    EveryFourth(y);
    EveryHundredth(y);
    EveryFourHundredth(y);
  }

  const FIRST_YEAR := -271821

  /** The largest year, from `y` on, that begins on or before the day. */
  function YearFrom(day: int, y: int): (r: int)
    requires DayFromYear(y) <= day
    ensures r >= y && DayFromYear(r) <= day < DayFromYear(r) + YearLength(r)
    decreases day - DayFromYear(y)
  {
    NextYear(y);
    if day < DayFromYear(y + 1) then y else YearFrom(day, y + 1)
  }

  /** The time values a date can have: 10^8 days on either side of the epoch. */
  predicate IsTime(t: int) {
    -8640000000000000 <= t <= 8640000000000000
  }

  function Day(t: int): int {
    t / 86400000
  }

  function Year(t: int): int
    requires IsTime(t)
  {
    YearFrom(Day(t), FIRST_YEAR)
  }

  /** The day of a year on which a month (0 to 12) begins. */
  function MonthStart(month: nat, leap: bool): int
    requires month <= 12
  {
    var extra := if leap then 1 else 0;
    if month == 0 then 0
    else if month == 1 then 31
    else if month == 2 then 59 + extra
    else if month == 3 then 90 + extra
    else if month == 4 then 120 + extra
    else if month == 5 then 151 + extra
    else if month == 6 then 181 + extra
    else if month == 7 then 212 + extra
    else if month == 8 then 243 + extra
    else if month == 9 then 273 + extra
    else if month == 10 then 304 + extra
    else if month == 11 then 334 + extra
    else 365 + extra
  }

  /** The last month, from `month` on, that begins on or before the day of the year. */
  function MonthFrom(dayInYear: int, leap: bool, month: nat): (r: nat)
    requires month < 12 && MonthStart(month, leap) <= dayInYear < MonthStart(12, leap)
    ensures month <= r < 12 && MonthStart(r, leap) <= dayInYear < MonthStart(r + 1, leap)
    decreases 12 - month
  {
    if dayInYear < MonthStart(month + 1, leap) then month else MonthFrom(dayInYear, leap, month + 1)
  }

  /** `n` in decimal, in exactly `w` digits. */
  function Pad(n: nat, w: nat): (s: string)
    ensures |s| == w
  {
    if w == 0 then "" else Pad(n / 10, w - 1) + ['0' + (n % 10) as char]
  }

  function YearText(y: int): string {
    if 0 <= y <= 9999 then Pad(y, 4) else if y < 0 then "-" + Pad(-y, 6) else "+" + Pad(y, 6)
  }

  /** A month, counted from 1, and a day of it. */
  datatype MonthDay = MonthDay(month: nat, day: nat)

  function MonthDayOf(dayInYear: int, leap: bool): MonthDay
    requires 0 <= dayInYear < if leap then 366 else 365
  {
    var month := MonthFrom(dayInYear, leap, 0);
    MonthDay(month + 1, dayInYear - MonthStart(month, leap) + 1)
  }

  function MonthDayText(d: MonthDay): string {
    Pad(d.month, 2) + ("-" + Pad(d.day, 2))
  }

  function SecondsText(ms: nat): string {
    Pad(ms / 1000 % 60, 2) + ("." + (Pad(ms % 1000, 3) + "Z"))
  }

  function MinutesText(ms: nat): string {
    Pad(ms / 60000 % 60, 2) + (":" + SecondsText(ms))
  }

  function ClockText(ms: nat): string {
    Pad(ms / 3600000, 2) + (":" + MinutesText(ms))
  }

  function AfterYear(y: int, dayInYear: int, ms: nat): string
    requires 0 <= dayInYear < YearLength(y)
  {
    "-" + (MonthDayText(MonthDayOf(dayInYear, IsLeap(y))) + ("T" + ClockText(ms)))
  }

  function IsoOf(y: int, dayInYear: int, ms: nat): string
    requires 0 <= dayInYear < YearLength(y)
  {
    YearText(y) + AfterYear(y, dayInYear, ms)
  }

  function DayInYear(t: int, y: int): int {
    Day(t) - DayFromYear(y)
  }

  function TimeInDay(t: int): nat {
    t % 86400000
  }

  function IsoString(t: int): string
    requires IsTime(t)
  {
    IsoOf(Year(t), DayInYear(t, Year(t)), TimeInDay(t))
  }

  // ---- The order of texts ----

  lemma {:induction false} LessConcat(a: string, b: string, x: string, y: string)
    requires |a| == |b| && TextLess(a, b)
    ensures TextLess(a + x, b + y)
  {
    assert (a + x)[1..] == a[1..] + x && (b + y)[1..] == b[1..] + y;
    if a[0] == b[0] {
      LessConcat(a[1..], b[1..], x, y);
    }
  }

  lemma {:induction false} LessAfter(a: string, x: string, y: string)
    requires TextLess(x, y)
    ensures TextLess(a + x, a + y)
  {
    if a == "" {
      assert a + x == x && a + y == y;
    } else {
      LessAfter(a[1..], x, y);
      assert (a + x)[1..] == a[1..] + x && (a + y)[1..] == a[1..] + y;
    }
  }

  lemma {:induction false} LessIsAsymmetric(a: string, b: string)
    requires TextLess(a, b)
    ensures !TextLess(b, a) && a != b
  {
    if a != "" && a[0] == b[0] {
      LessIsAsymmetric(a[1..], b[1..]);
    }
  }

  lemma {:induction false} PadLess(n: nat, m: nat, w: nat)
    requires n < m < PowTen(w)
    ensures TextLess(Pad(n, w), Pad(m, w))
  {
    var c, d := ['0' + (n % 10) as char], ['0' + (m % 10) as char];
    if n / 10 < m / 10 {
      PadLess(n / 10, m / 10, w - 1);
      LessConcat(Pad(n / 10, w - 1), Pad(m / 10, w - 1), c, d);
    } else {
      assert n / 10 == m / 10 && n % 10 < m % 10;
      LessAfter(Pad(n / 10, w - 1), c, d);
    }
  }

  /** A field of fixed width, a separator and the rest: the field decides, then the rest. */
  lemma FieldLess(n: nat, m: nat, w: nat, x: string, y: string)
    requires n <= m < PowTen(w) && (n == m ==> TextLess(x, y))
    ensures TextLess(Pad(n, w) + x, Pad(m, w) + y)
  {
    if n < m {
      PadLess(n, m, w);
      LessConcat(Pad(n, w), Pad(m, w), x, y);
    } else {
      LessAfter(Pad(n, w), x, y);
    }
  }

  lemma Powers()
    ensures PowTen(2) == 100 && PowTen(3) == 1000 && PowTen(4) == 10000 && PowTen(6) == 1000000
  {
    assert PowTen(1) == 10 && PowTen(5) == 100000;
  }

  lemma SecondsLess(a: nat, b: nat)
    requires a < b && a / 60000 == b / 60000
    ensures TextLess(SecondsText(a), SecondsText(b))
  {
    Powers();
    var s, r := a / 1000, b / 1000;
    assert s / 60 == a / 60000 && r / 60 == b / 60000 && s <= r;
    if s == r {
      PadLess(a % 1000, b % 1000, 3);
      LessConcat(Pad(a % 1000, 3), Pad(b % 1000, 3), "Z", "Z");
      LessAfter(".", Pad(a % 1000, 3) + "Z", Pad(b % 1000, 3) + "Z");
    }
    FieldLess(s % 60, r % 60, 2, "." + (Pad(a % 1000, 3) + "Z"), "." + (Pad(b % 1000, 3) + "Z"));
  }

  lemma MinutesLess(a: nat, b: nat)
    requires a < b && a / 3600000 == b / 3600000
    ensures TextLess(MinutesText(a), MinutesText(b))
  {
    Powers();
    var m, n := a / 60000, b / 60000;
    assert m / 60 == a / 3600000 && n / 60 == b / 3600000 && m <= n;
    if m == n {
      SecondsLess(a, b);
      LessAfter(":", SecondsText(a), SecondsText(b));
    }
    FieldLess(m % 60, n % 60, 2, ":" + SecondsText(a), ":" + SecondsText(b));
  }

  lemma ClockLess(a: nat, b: nat)
    requires a < b < 86400000
    ensures TextLess(ClockText(a), ClockText(b))
  {
    Powers();
    if a / 3600000 == b / 3600000 {
      MinutesLess(a, b);
      LessAfter(":", MinutesText(a), MinutesText(b));
    }
    FieldLess(a / 3600000, b / 3600000, 2, ":" + MinutesText(a), ":" + MinutesText(b));
  }

  lemma MonthsInOrder(m: nat, n: nat, leap: bool)
    requires m < n <= 12
    ensures MonthStart(m + 1, leap) <= MonthStart(n, leap)
  {
  }

  lemma MonthLength(m: nat, leap: bool)
    requires m < 12
    ensures MonthStart(m + 1, leap) - MonthStart(m, leap) <= 31
  {
  }

  predicate InMonth(day: int, leap: bool, month: nat) {
    month < 12 && MonthStart(month, leap) <= day < MonthStart(month + 1, leap)
  }

  lemma MonthOrder(a: int, b: int, leap: bool, m: nat, n: nat)
    requires a <= b && InMonth(a, leap, m) && InMonth(b, leap, n)
    ensures m <= n && a - MonthStart(m, leap) < 31 && b - MonthStart(n, leap) < 31
  {
    if n < m {
      MonthsInOrder(n, m, leap);
    }
    MonthLength(m, leap);
    MonthLength(n, leap);
  }

  lemma MonthDayOrder(a: int, b: int, leap: bool)
    requires 0 <= a <= b < if leap then 366 else 365
    ensures var x, y := MonthDayOf(a, leap), MonthDayOf(b, leap);
      && x.month <= y.month < 100
      && (x.month == y.month ==> x.day <= y.day < 100 && (x.day == y.day <==> a == b))
  {
    MonthOrder(a, b, leap, MonthFrom(a, leap, 0), MonthFrom(b, leap, 0));
  }

  lemma TwoFieldsLess(m: nat, n: nat, i: nat, j: nat, x: string, y: string)
    requires m <= n < 100 && (m == n ==> i <= j < 100 && (i == j ==> TextLess(x, y)))
    ensures TextLess(Pad(m, 2) + ("-" + Pad(i, 2)) + x, Pad(n, 2) + ("-" + Pad(j, 2)) + y)
  {
    Powers();
    if m == n {
      FieldLess(i, j, 2, x, y);
      LessAfter("-", Pad(i, 2) + x, Pad(j, 2) + y);
    }
    FieldLess(m, n, 2, "-" + (Pad(i, 2) + x), "-" + (Pad(j, 2) + y));
    assert Pad(m, 2) + ("-" + Pad(i, 2)) + x == Pad(m, 2) + ("-" + (Pad(i, 2) + x));
    assert Pad(n, 2) + ("-" + Pad(j, 2)) + y == Pad(n, 2) + ("-" + (Pad(j, 2) + y));
  }

  lemma MonthDayLess(a: MonthDay, b: MonthDay, x: string, y: string)
    requires a.month <= b.month < 100
    requires a.month == b.month ==> a.day <= b.day < 100 && (a.day == b.day ==> TextLess(x, y))
    ensures TextLess(MonthDayText(a) + x, MonthDayText(b) + y)
  {
    TwoFieldsLess(a.month, b.month, a.day, b.day, x, y);
  }

  /** Later in the same year is later in the order of texts. */
  lemma AfterYearLess(y: int, a: int, p: nat, b: int, q: nat)
    requires 0 <= a <= b < YearLength(y) && (a == b ==> p < q < 86400000)
    ensures TextLess(AfterYear(y, a, p), AfterYear(y, b, q))
  {
    var d, e := MonthDayOf(a, IsLeap(y)), MonthDayOf(b, IsLeap(y));
    if a == b {
      ClockLess(p, q);
      LessAfter("T", ClockText(p), ClockText(q));
    }
    MonthDayOrder(a, b, IsLeap(y));
    MonthDayLess(d, e, "T" + ClockText(p), "T" + ClockText(q));
    LessAfter("-", MonthDayText(d) + ("T" + ClockText(p)), MonthDayText(e) + ("T" + ClockText(q)));
  }

  // ---- The order of year texts ----

  /** Two years that are written in order: both or neither extended, and not two different negative ones. */
  predicate WrittenInOrder(y: int, z: int) {
    && (y > 9999 <==> z > 9999)
    && (y >= 0 || z >= 0 || y == z)
  }

  /** The first character tells negative, extended and four-digit years apart: `+` < `-` < `0`. */
  lemma YearHead(y: int)
    ensures YearText(y) != ""
    ensures y < 0 ==> YearText(y)[0] == '-'
    ensures y > 9999 ==> YearText(y)[0] == '+'
    ensures 0 <= y <= 9999 ==> YearText(y)[0] >= '0'
  {
    if 0 <= y <= 9999 {
      PadHead(y, 4);
    }
  }

  lemma HeadLess(a: string, b: string, x: string, y: string)
    requires a != "" && b != "" && a[0] < b[0]
    ensures TextLess(a + x, b + y)
  {
    assert (a + x)[0] == a[0] && (b + y)[0] == b[0];
  }

  /** An earlier year is written before a later one, or after it, whatever follows. */
  lemma YearTextLess(y: int, z: int, v: string, w: string)
    requires -1000000 < y < z < 1000000
    ensures
      if WrittenInOrder(y, z) then TextLess(YearText(y) + v, YearText(z) + w)
      else TextLess(YearText(z) + w, YearText(y) + v)
  {
    Powers();
    YearHead(y);
    YearHead(z);
    if z < 0 {
      PadLess(-z, -y, 6);
      LessAfter("-", Pad(-z, 6), Pad(-y, 6));
      LessConcat(YearText(z), YearText(y), w, v);
    } else if y < 0 && z <= 9999 {
      HeadLess(YearText(y), YearText(z), v, w);
    } else if z <= 9999 {
      PadLess(y, z, 4);
      LessConcat(YearText(y), YearText(z), v, w);
    } else if y <= 9999 {
      HeadLess(YearText(z), YearText(y), w, v);
    } else {
      PadLess(y, z, 6);
      LessAfter("+", Pad(y, 6), Pad(z, 6));
      LessConcat(YearText(y), YearText(z), v, w);
    }
  }

  // ---- The order of years ----

  lemma {:induction false} YearsInOrder(y: int, z: int)
    requires y < z
    ensures DayFromYear(y) + YearLength(y) <= DayFromYear(z)
    decreases z - y
  {
    NextYear(y);
    if y + 1 < z {
      YearsInOrder(y + 1, z);
    }
  }

  predicate InYear(day: int, y: int) {
    DayFromYear(y) <= day < DayFromYear(y) + YearLength(y)
  }

  /** The year of a time is the only one whose days include its day. */
  lemma YearIsUnique(t: int, y: int)
    requires IsTime(t) && InYear(Day(t), y)
    ensures Year(t) == y
  {
    if Year(t) < y {
      YearsInOrder(Year(t), y);
    } else if y < Year(t) {
      YearsInOrder(y, Year(t));
    }
  }

  /** A time of the years 0 to 9999, whose text has the plain four-digit form. */
  predicate IsPlain(t: int) {
    IsTime(t) && 0 <= Year(t) <= 9999
  }

  lemma CalendarOrder(t: int, u: int, y: int, z: int)
    requires t < u && InYear(Day(t), y) && InYear(Day(u), z)
    ensures y <= z
    ensures y == z ==> Day(t) <= Day(u) && (Day(t) == Day(u) ==> t % 86400000 < u % 86400000)
  {
    if z < y {
      YearsInOrder(z, y);
    }
  }

  lemma CalendarIsMonotone(t: int, u: int)
    requires IsTime(t) && IsTime(u) && Year(t) > Year(u)
    ensures t > u
  {
    if t <= u {
      YearsInOrder(Year(u), Year(t));
    }
  }

  /** The fields of two times are in order. */
  lemma CalendarFields(t: int, u: int, y: int, z: int)
    requires t < u && InYear(Day(t), y) && InYear(Day(u), z)
    ensures 0 <= DayInYear(t, y) < YearLength(y) && 0 <= DayInYear(u, z) < YearLength(z)
    ensures y <= z
    ensures y == z ==>
      DayInYear(t, y) <= DayInYear(u, z) &&
        (DayInYear(t, y) == DayInYear(u, z) ==> TimeInDay(t) < TimeInDay(u) < 86400000)
  {
    CalendarOrder(t, u, y, z);
  }

  lemma YearFits(t: int)
    requires IsTime(t)
    ensures InYear(Day(t), Year(t))
  {
  }

  lemma YearIsBounded(t: int)
    requires IsTime(t)
    ensures -1000000 < Year(t) < 1000000
  {
  }

  /** The earlier of two times has the lesser text if their years are written in order, else the greater one. */
  lemma OrderOfTexts(t: int, u: int)
    requires IsTime(t) && IsTime(u) && t < u
    ensures
      if WrittenInOrder(Year(t), Year(u)) then TextLess(IsoString(t), IsoString(u))
      else TextLess(IsoString(u), IsoString(t))
  {
    var y, z := Year(t), Year(u);
    YearFits(t);
    YearFits(u);
    CalendarFields(t, u, y, z);
    var a, b := DayInYear(t, y), DayInYear(u, z);
    if y == z {
      AfterYearLess(y, a, TimeInDay(t), b, TimeInDay(u));
      LessAfter(YearText(y), AfterYear(y, a, TimeInDay(t)), AfterYear(z, b, TimeInDay(u)));
    } else {
      YearIsBounded(t);
      YearIsBounded(u);
      YearTextLess(y, z, AfterYear(y, a, TimeInDay(t)), AfterYear(z, b, TimeInDay(u)));
    }
  }

  /**
   * The order of the texts is the order of the times exactly if both years or
   * neither are after 9999, and the two are not different years before 0; and
   * different times always have different texts.
   */
  lemma TextOrderIsTimeOrder(t: int, u: int)
    requires IsTime(t) && IsTime(u)
    ensures (TextLess(IsoString(t), IsoString(u)) <==> t < u) <==> WrittenInOrder(Year(t), Year(u))
    ensures IsoString(t) == IsoString(u) <==> t == u
  {
    if t < u {
      OrderOfTexts(t, u);
    } else if u < t {
      OrderOfTexts(u, t);
    }
    OneOrder(IsoString(t), IsoString(u));
  }

  lemma OneOrder(a: string, b: string)
    ensures !(TextLess(a, b) && TextLess(b, a)) && (TextLess(a, b) || TextLess(b, a) ==> a != b)
    ensures !TextLess(a, a)
  {
    NotLessThanItself(a);
    if TextLess(a, b) {
      LessIsAsymmetric(a, b);
    }
  }

  lemma {:induction false} NotLessThanItself(s: string)
    ensures !TextLess(s, s)
  {
    if s != "" {
      NotLessThanItself(s[1..]);
    }
  }

  /** The first and the last moment around the year 9999: one millisecond later the text is less. */
  lemma LastPlainMoment()
    ensures IsPlain(253402300799999) && Year(253402300800000) == 10000
    ensures TextLess(IsoString(253402300800000), IsoString(253402300799999))
  {
    LastYears();
    YearIsUnique(253402300799999, 9999);
    YearIsUnique(253402300800000, 10000);
    OrderOfTexts(253402300799999, 253402300800000);
  }

  lemma LastYears()
    ensures InYear(Day(253402300799999), 9999) && InYear(Day(253402300800000), 10000)
  {
    assert DayFromYear(9999) == 2932532;
    assert DayFromYear(10000) == 2932897;
  }

  lemma {:induction false} PadHead(n: nat, w: nat)
    requires w > 0
    ensures Pad(n, w)[0] >= '0'
  {
    if w > 1 {
      PadHead(n / 10, w - 1);
    }
  }
}
