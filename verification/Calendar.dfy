/** Days since the epoch: exact integer arithmetic over the proleptic Gregorian calendar. */
module Calendar {

  /** The leap rule of Appendix C of RFC 3339. */
  predicate IsLeapYear(year: int) { year % 4 == 0 && (year % 100 != 0 || year % 400 == 0) }

  function DaysInMonth(year: int, month: int): nat {
    if month in {1, 3, 5, 7, 8, 10, 12} then 31
    else if month in {4, 6, 9, 11} then 30
    else if month == 2 then if IsLeapYear(year) then 29 else 28
    else 0
  }

  /** The day count; division rounds down. */
  function DaysFromCivil(year: int, month: int, day: int): int {
    var y := year - if month <= 2 then 1 else 0;
    var era := y / 400;
    var yoe := y - era * 400;
    var mp := month + if month > 2 then -3 else 9;
    var doy := (153 * mp + 2) / 5 + day - 1;
    var doe := yoe * 365 + yoe / 4 - yoe / 100 + doy;
    era * 146097 + doe - 719468
  }

  datatype Date = Date(year: int, month: int, day: int)
  {
    predicate Valid() { 1 <= month <= 12 && 1 <= day <= DaysInMonth(year, month) }

    function Days(): int { DaysFromCivil(year, month, day) }

    /** The calendar's next day. */
    function Next(): Date
      requires Valid()
    {
      if day < DaysInMonth(year, month) then Date(year, month, day + 1)
      else if month < 12 then Date(year, month + 1, 1)
      else Date(year + 1, 1, 1)
    }

    predicate Before(that: Date) {
      year < that.year || (year == that.year && (month < that.month || (month == that.month && day < that.day)))
    }
  }

  // A year that starts in March puts the leap day at its end.

  function MarchYear(d: Date): int { d.year - if d.month <= 2 then 1 else 0 }

  function MarchMonth(d: Date): int { d.month + if d.month > 2 then -3 else 9 }

  function DayOfYear(d: Date): int { (153 * MarchMonth(d) + 2) / 5 + d.day - 1 }

  function YearStart(y: int): int { 365 * y + y / 4 - y / 100 + y / 400 - 719468 }

  lemma DaysAre(d: Date)
    ensures d.Days() == YearStart(MarchYear(d)) + DayOfYear(d)
  {
    var y := MarchYear(d);
    var era, yoe := y / 400, y - y / 400 * 400;
    assert y / 100 == 4 * era + yoe / 100;
    assert y / 4 == 100 * era + yoe / 4;
  }

  lemma YearLength(y: int)
    ensures YearStart(y + 1) - YearStart(y) == if IsLeapYear(y + 1) then 366 else 365
  {
    assert (y + 1) / 4 - y / 4 == if (y + 1) % 4 == 0 then 1 else 0;
    assert (y + 1) / 100 - y / 100 == if (y + 1) % 100 == 0 then 1 else 0;
    assert (y + 1) / 400 - y / 400 == if (y + 1) % 400 == 0 then 1 else 0;
    assert (y + 1) % 400 == 0 ==> (y + 1) % 100 == 0;
    assert (y + 1) % 100 == 0 ==> (y + 1) % 4 == 0;
  }

  /** The epoch is day zero. */
  lemma EpochIsZero()
    ensures Date(1970, 1, 1).Days() == 0
  {}

  /** The calendar successor of every valid date is valid, and its count is one more. */
  lemma NextIsOneMore(d: Date)
    requires d.Valid()
    ensures d.Next().Valid() && d.Next().Days() == d.Days() + 1
  {
    DaysAre(d);
    DaysAre(d.Next());
    if d.day == DaysInMonth(d.year, d.month) { MonthEnd(d); }
  }

  /** The last day of a month is followed by the first of the next; February ends the March year. */
  lemma MonthEnd(d: Date)
    requires d.Valid() && d.day == DaysInMonth(d.year, d.month)
    ensures d.Next().Valid()
    ensures YearStart(MarchYear(d.Next())) + DayOfYear(d.Next()) == YearStart(MarchYear(d)) + DayOfYear(d) + 1
  {
    if d.month == 2 {
      YearLength(d.year - 1);
    } else {
      assert MarchYear(d.Next()) == MarchYear(d) && MarchMonth(d.Next()) == MarchMonth(d) + 1;
      MonthStarts(d.year, d.month);
    }
  }

  lemma MonthStarts(year: int, month: int)
    requires 1 <= month <= 12 && month != 2
    ensures var mp := month + if month > 2 then -3 else 9;
            (153 * (mp + 1) + 2) / 5 == (153 * mp + 2) / 5 + DaysInMonth(year, month)
  {}

  lemma DayOfYearFits(d: Date)
    requires d.Valid()
    ensures 0 <= DayOfYear(d) < if IsLeapYear(MarchYear(d) + 1) then 366 else 365
  {}

  /** Within one March year a later date has a later day of the year. */
  lemma DayOfYearGrows(c: Date, d: Date)
    requires c.Valid() && d.Valid() && c.Before(d) && MarchYear(c) == MarchYear(d)
    ensures DayOfYear(c) < DayOfYear(d)
  {
    if MarchMonth(c) < MarchMonth(d) {
      MonthFits(c);
      MonthsGrow(MarchMonth(c) + 1, MarchMonth(d));
    }
  }

  lemma MonthFits(c: Date)
    requires c.Valid()
    ensures MarchMonth(c) < 11 ==> DayOfYear(c) < (153 * (MarchMonth(c) + 1) + 2) / 5
  {}

  lemma MonthsGrow(m: int, n: int)
    requires 0 <= m <= n
    ensures (153 * m + 2) / 5 <= (153 * n + 2) / 5
  {}

  lemma {:induction false} YearsGrow(y: int, z: int)
    requires y < z
    ensures YearStart(y + 1) <= YearStart(z)
    decreases z - y
  {
    if y + 1 < z {
      YearsGrow(y, z - 1);
      YearLength(z - 1);
    }
  }

  /** Strictly increasing along the calendar. */
  lemma DaysGrow(c: Date, d: Date)
    requires c.Valid() && d.Valid() && c.Before(d)
    ensures c.Days() < d.Days()
  {
    DaysAre(c);
    DaysAre(d);
    DayOfYearFits(c);
    DayOfYearFits(d);
    if MarchYear(c) == MarchYear(d) {
      DayOfYearGrows(c, d);
    } else {
      YearLength(MarchYear(c));
      YearsGrow(MarchYear(c), MarchYear(d));
    }
  }

  lemma DaysInjective(c: Date, d: Date)
    requires c.Valid() && d.Valid() && c.Days() == d.Days()
    ensures c == d
  {
    if c.Before(d) { DaysGrow(c, d); }
    if d.Before(c) { DaysGrow(d, c); }
  }

  /** Every integer is the day of some valid date, so the count is one to one and onto. */
  lemma {:induction false} DaysOnto(n: int) returns (d: Date)
    ensures d.Valid() && d.Days() == n
    decreases if n < 0 then -n else n
  {
    if n == 0 {
      d := Date(1970, 1, 1);
      EpochIsZero();
    } else if n > 0 {
      var p := DaysOnto(n - 1);
      NextIsOneMore(p);
      d := p.Next();
    } else {
      var p := DaysOnto(n + 1);
      d := Previous(p);
    }
  }

  lemma Previous(p: Date) returns (d: Date)
    requires p.Valid()
    ensures d.Valid() && d.Days() == p.Days() - 1
  {
    d := if p.day > 1 then Date(p.year, p.month, p.day - 1)
         else if p.month > 1 then Date(p.year, p.month - 1, DaysInMonth(p.year, p.month - 1))
         else Date(p.year - 1, 12, 31);
    NextIsOneMore(d);
  }
}
