/** Which timetable service ids run today, resolved from the rows of GTFS
    `calendar_dates.txt` (exception type 1: service added on that date,
    2: service removed), and the weekday/holiday classification of every
    service id by the weekday of its calendar dates. */
module ServiceCalendar {
  import opened Common

  /** A row of `calendar_dates.txt`; the date is `YYYYMMDD` text. */
  datatype CalendarDate = CalendarDate(serviceId: string, date: string, exceptionType: string)

  const ServiceAdded: string := "1"
  const ServiceRemoved: string := "2"

  // ---------------------------------------------------------------------
  // Gregorian dates, as Python's `datetime.date` computes them

  datatype Date = Date(year: int, month: int, day: int)

  predicate IsLeapYear(y: int)
  {
    y % 4 == 0 && (y % 100 != 0 || y % 400 == 0)
  }

  function DaysInMonth(y: int, m: int): (n: int)
    requires 1 <= m <= 12
    ensures 28 <= n <= 31
  {
    if m == 2 then (if IsLeapYear(y) then 29 else 28)
    else if m in {4, 6, 9, 11} then 30
    else 31
  }

  /** A date `datetime` can represent (years 1 to 9999). */
  predicate ValidDate(d: Date)
  {
    1 <= d.year <= 9999 && 1 <= d.month <= 12 && 1 <= d.day <= DaysInMonth(d.year, d.month)
  }

  /** `datetime.strptime(s, '%Y%m%d')` on eight-digit text; `None` stands
      for the `ValueError` it raises on text that is not a real date. */
  function ParseDate(s: string): (r: Option<Date>)
    ensures r.Some? ==> ValidDate(r.value)
    ensures r.Some? ==> |s| == 8 && AllDigits(s)
  {
    if |s| == 8 && AllDigits(s) then
      var d := Date(DigitsValue(s[..4]), DigitsValue(s[4..6]), DigitsValue(s[6..]));
      if ValidDate(d) then Some(d) else None
    else None
  }

  /** Days in the years before `y` (`_days_before_year`). */
  function DaysBeforeYear(y: int): int
  {
    var p := y - 1;
    p * 365 + p / 4 - p / 100 + p / 400
  }

  /** Days in the months of year `y` before month `m` (`_days_before_month`). */
  function DaysBeforeMonth(y: int, m: int): int
    requires 1 <= m <= 12
  {
    (if m > 2 && IsLeapYear(y) then 1 else 0) +
    (if m == 1 then 0 else if m == 2 then 31 else if m == 3 then 59 else if m == 4 then 90
     else if m == 5 then 120 else if m == 6 then 151 else if m == 7 then 181 else if m == 8 then 212
     else if m == 9 then 243 else if m == 10 then 273 else if m == 11 then 304 else 334)
  }

  /** `date.toordinal()`: 1 for 1 January of year 1. */
  function Ordinal(d: Date): int
    requires 1 <= d.month <= 12
  {
    DaysBeforeYear(d.year) + DaysBeforeMonth(d.year, d.month) + d.day
  }

  /** `date.weekday()`: Monday is 0, Saturday 5, Sunday 6. */
  function Weekday(d: Date): (w: int)
    requires 1 <= d.month <= 12
    ensures 0 <= w < 7
  {
    (Ordinal(d) + 6) % 7
  }

  /** The calendar day after `d`. */
  function NextDay(d: Date): Date
    requires ValidDate(d)
  {
    if d.day < DaysInMonth(d.year, d.month) then Date(d.year, d.month, d.day + 1)
    else if d.month < 12 then Date(d.year, d.month + 1, 1)
    else Date(d.year + 1, 1, 1)
  }

  lemma MonthLengthsAddUp(y: int, m: int)
    requires 1 <= m < 12
    ensures DaysBeforeMonth(y, m + 1) == DaysBeforeMonth(y, m) + DaysInMonth(y, m)
  {
  }

  /** Each year has 365 days, 366 in a leap year. */
  lemma YearLengthsAddUp(y: int)
    ensures DaysBeforeYear(y + 1) == DaysBeforeYear(y) + DaysBeforeMonth(y, 12) + DaysInMonth(y, 12)
  {
    var p := y - 1;
    DivStep4(p);
    DivStep100(p);
    DivStep400(p);
    assert (p + 1) % 400 == 0 ==> (p + 1) % 100 == 0 && (p + 1) % 4 == 0;
    assert (p + 1) % 100 == 0 ==> (p + 1) % 4 == 0;
  }

  lemma DivStep4(p: int)
    ensures (p + 1) / 4 == p / 4 + (if (p + 1) % 4 == 0 then 1 else 0)
  {
  }

  lemma DivStep100(p: int)
    ensures (p + 1) / 100 == p / 100 + (if (p + 1) % 100 == 0 then 1 else 0)
  {
  }

  lemma DivStep400(p: int)
    ensures (p + 1) / 400 == p / 400 + (if (p + 1) % 400 == 0 then 1 else 0)
  {
  }

  /** Consecutive days have consecutive ordinals. */
  lemma NextDayOrdinal(d: Date)
    requires ValidDate(d) && d.year < 9999
    ensures ValidDate(NextDay(d))
    ensures Ordinal(NextDay(d)) == Ordinal(d) + 1
  {
    if d.day < DaysInMonth(d.year, d.month) {
    } else if d.month < 12 {
      MonthLengthsAddUp(d.year, d.month);
    } else {
      YearLengthsAddUp(d.year);
    }
  }

  /** The weekday advances by one (modulo 7) from each day to the next. */
  lemma NextDayAdvancesWeekday(d: Date)
    requires ValidDate(d) && d.year < 9999
    ensures ValidDate(NextDay(d))
    ensures Weekday(NextDay(d)) == (Weekday(d) + 1) % 7
  {
    NextDayOrdinal(d);
    WeekdayStep(Ordinal(d), Ordinal(NextDay(d)));
  }

  lemma WeekdayStep(o: int, o': int)
    requires o' == o + 1
    ensures (o' + 6) % 7 == ((o + 6) % 7 + 1) % 7
  {
  }

  /** A calibration point: 1 January 2024 was a Monday. */
  lemma FirstOfJanuary2024IsMonday()
    ensures ValidDate(Date(2024, 1, 1)) && Weekday(Date(2024, 1, 1)) == 0
  {
    assert DaysBeforeYear(2024) == 738885;
  }

  /** Saturday or Sunday (`date_obj.weekday() >= 5`). */
  predicate IsWeekend(d: Date)
    requires 1 <= d.month <= 12
  {
    Weekday(d) >= 5
  }

  // ---------------------------------------------------------------------
  // the active services of today

  /** Today is a holiday iff some row of today carries exception type 1. */
  predicate IsTodayHoliday(rows: seq<CalendarDate>, today: string)
  {
    exists i :: 0 <= i < |rows| && rows[i].date == today && rows[i].exceptionType == ServiceAdded
  }

  /** Every service id that some row adds, on whatever date. */
  function HolidayServiceIds(rows: seq<CalendarDate>): set<string>
  {
    set i | 0 <= i < |rows| && rows[i].exceptionType == ServiceAdded :: rows[i].serviceId
  }

  /** The service ids today starts from before today's own exceptions: the
      holiday ids on a holiday, otherwise the trips' ids that are not. */
  function BaseServices(rows: seq<CalendarDate>, tripServiceIds: set<string>, today: string): set<string>
  {
    if IsTodayHoliday(rows, today) then HolidayServiceIds(rows)
    else tripServiceIds - HolidayServiceIds(rows)
  }

  /** What the last row of today for service `s` says: `Some(true)` when it
      adds the service, `Some(false)` when it removes it, `None` when today
      has no add or remove row for `s`. */
  function TodayOverride(rows: seq<CalendarDate>, today: string, s: string): Option<bool>
  {
    if rows == [] then None
    else
      var last := rows[|rows| - 1];
      if last.date == today && last.serviceId == s && last.exceptionType in {ServiceAdded, ServiceRemoved}
      then Some(last.exceptionType == ServiceAdded)
      else TodayOverride(rows[..|rows| - 1], today, s)
  }

  predicate ActiveAfter(rows: seq<CalendarDate>, today: string, s: string, base: set<string>)
  {
    match TodayOverride(rows, today, s)
    case Some(added) => added
    case None => s in base
  }

  /** The active-service set of today: start from the base set, then apply
      today's rows in file order, adding the services of type-1 rows and
      discarding those of type-2 rows. A service therefore runs iff the last
      of today's rows for it adds it, or there is none and it is in the base
      set. */
  method ResolveActiveServices(rows: seq<CalendarDate>, tripServiceIds: set<string>, today: string)
    returns (active: set<string>)
    ensures forall s :: s in active <==> ActiveAfter(rows, today, s, BaseServices(rows, tripServiceIds, today))
  {
    var isTodayHoliday := false;
    var holidayIds: set<string> := {};
    var i := 0;
    while i < |rows|
      invariant 0 <= i <= |rows|
      invariant isTodayHoliday <==> IsTodayHoliday(rows[..i], today)
      invariant holidayIds == HolidayServiceIds(rows[..i])
    {
      if rows[i].date == today && rows[i].exceptionType == ServiceAdded {
        isTodayHoliday := true;
      }
      if rows[i].exceptionType == ServiceAdded {
        holidayIds := holidayIds + {rows[i].serviceId};
      }
      assert rows[..i + 1] == rows[..i] + [rows[i]];
      i := i + 1;
    }
    assert rows[..i] == rows;
    active := if isTodayHoliday then holidayIds else tripServiceIds - holidayIds;
    ghost var base := active;
    i := 0;
    while i < |rows|
      invariant 0 <= i <= |rows|
      invariant forall s :: s in active <==> ActiveAfter(rows[..i], today, s, base)
    {
      var row := rows[i];
      assert rows[..i + 1][..i] == rows[..i];
      if row.date == today {
        if row.exceptionType == ServiceAdded {
          active := active + {row.serviceId};
        } else if row.exceptionType == ServiceRemoved {
          active := active - {row.serviceId};
        }
      }
      i := i + 1;
    }
    assert rows[..i] == rows;
  }

  /** A service that today's rows only ever add is active, whatever the
      base set. */
  lemma {:induction false} OnlyAddedTodayIsActive(rows: seq<CalendarDate>, today: string, s: string)
    requires exists i :: 0 <= i < |rows| && rows[i] == CalendarDate(s, today, ServiceAdded)
    requires forall i :: 0 <= i < |rows| ==> rows[i] != CalendarDate(s, today, ServiceRemoved)
    ensures TodayOverride(rows, today, s) == Some(true)
  {
    var last := rows[|rows| - 1];
    if !(last.date == today && last.serviceId == s && last.exceptionType in {ServiceAdded, ServiceRemoved}) {
      var i :| 0 <= i < |rows| && rows[i] == CalendarDate(s, today, ServiceAdded);
      assert i < |rows| - 1;
      assert rows[..|rows| - 1][i] == rows[i];
      OnlyAddedTodayIsActive(rows[..|rows| - 1], today, s);
    }
  }

  /** A service that today's rows only ever remove is not active, whatever
      the base set. */
  lemma {:induction false} OnlyRemovedTodayIsInactive(rows: seq<CalendarDate>, today: string, s: string)
    requires exists i :: 0 <= i < |rows| && rows[i] == CalendarDate(s, today, ServiceRemoved)
    requires forall i :: 0 <= i < |rows| ==> rows[i] != CalendarDate(s, today, ServiceAdded)
    ensures TodayOverride(rows, today, s) == Some(false)
  {
    var last := rows[|rows| - 1];
    if !(last.date == today && last.serviceId == s && last.exceptionType in {ServiceAdded, ServiceRemoved}) {
      var i :| 0 <= i < |rows| && rows[i] == CalendarDate(s, today, ServiceRemoved);
      assert i < |rows| - 1;
      assert rows[..|rows| - 1][i] == rows[i];
      OnlyRemovedTodayIsInactive(rows[..|rows| - 1], today, s);
    }
  }

  /** Without any row of today for `s`, its membership is that of the base
      set. */
  lemma {:induction false} UntouchedTodayKeepsBase(rows: seq<CalendarDate>, today: string, s: string)
    requires forall i :: 0 <= i < |rows| ==> rows[i].date != today || rows[i].serviceId != s
    ensures TodayOverride(rows, today, s) == None
  {
    if rows != [] {
      UntouchedTodayKeepsBase(rows[..|rows| - 1], today, s);
    }
  }

  // ---------------------------------------------------------------------
  // weekday / holiday classification

  datatype ServiceClasses = ServiceClasses(weekday: set<string>, holiday: set<string>)

  /** Classifies every row's service id by the weekday of the row's date:
      Saturday and Sunday put it in the holiday set, other days in the
      weekday set (an id may land in both). A date `strptime` rejects makes
      the whole load fail, which is `None`. */
  method ClassifyServices(rows: seq<CalendarDate>) returns (r: Option<ServiceClasses>)
    ensures r.None? <==> exists i :: 0 <= i < |rows| && ParseDate(rows[i].date).None?
    ensures r.Some? ==> forall s ::
      s in r.value.holiday <==>
        exists i :: 0 <= i < |rows| && rows[i].serviceId == s && IsWeekend(ParseDate(rows[i].date).value)
    ensures r.Some? ==> forall s ::
      s in r.value.weekday <==>
        exists i :: 0 <= i < |rows| && rows[i].serviceId == s && !IsWeekend(ParseDate(rows[i].date).value)
  {
    var weekday: set<string> := {};
    var holiday: set<string> := {};
    var i := 0;
    while i < |rows|
      invariant 0 <= i <= |rows|
      invariant forall j :: 0 <= j < i ==> ParseDate(rows[j].date).Some?
      invariant forall s :: s in holiday <==>
        exists j :: 0 <= j < i && rows[j].serviceId == s && IsWeekend(ParseDate(rows[j].date).value)
      invariant forall s :: s in weekday <==>
        exists j :: 0 <= j < i && rows[j].serviceId == s && !IsWeekend(ParseDate(rows[j].date).value)
    {
      var date := ParseDate(rows[i].date);
      if date.None? {
        return None;
      }
      if IsWeekend(date.value) {
        holiday := holiday + {rows[i].serviceId};
      } else {
        weekday := weekday + {rows[i].serviceId};
      }
      i := i + 1;
    }
    r := Some(ServiceClasses(weekday, holiday));
  }
}
