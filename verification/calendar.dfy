/**
  The UTC calendar from 1970 on, and what it guarantees of the 1830-day search horizon of cron schedules.
  */
module Calendar {
  import opened Schedules

  datatype Date = Date(year: int, month: int, day: int)

  predicate Leap(year: int) { year % 4 == 0 && (year % 100 != 0 || year % 400 == 0) }

  function DaysIn(year: int, month: int): int {
    if month == 2 then if Leap(year) then 29 else 28
    else if month in {4, 6, 9, 11} then 30
    else 31
  }

  function NextDate(d: Date): Date {
    if d.day < DaysIn(d.year, d.month) then d.(day := d.day + 1)
    else if d.month < 12 then Date(d.year, d.month + 1, 1)
    else Date(d.year + 1, 1, 1)
  }

  /** The date `n` days after 1 January 1970. */
  function DateOf(n: nat): (d: Date)
    ensures 1 <= d.month <= 12 && 1 <= d.day <= DaysIn(d.year, d.month)
  {
    if n == 0 then Date(1970, 1, 1) else NextDate(DateOf(n - 1))
  }

  /** Monday counts as 0. */
  function WeekdayOf(n: nat): int { (n + 3) % 7 }

  /** Days are counted from a Thursday. */
  lemma DayZero()
    ensures DateOf(0) == Date(1970, 1, 1) && WeekdayOf(0) == 3
  {
  }

  /** UTC wall-clock time of a minute since the epoch; instants before the epoch are read as day 0. */
  function Utc(minute: int): Local {
    var day := if minute < 0 then 0 else minute / 1440;
    var date := DateOf(day);
    Local(minute % 60, minute / 60 % 24, date.day, date.month, WeekdayOf(day))
  }

  lemma MinuteParts(day: nat, hour: int, minute: int)
    requires 0 <= hour < 24 && 0 <= minute < 60
    ensures var m := day * 1440 + hour * 60 + minute;
            m / 1440 == day && m / 60 % 24 == hour && m % 60 == minute
  {
    var m := day * 1440 + hour * 60 + minute;
    assert m / 60 == day * 24 + hour;
  }

  lemma UtcOf(day: nat, hour: int, minute: int)
    requires 0 <= hour < 24 && 0 <= minute < 60
    ensures Utc(day * 1440 + hour * 60 + minute)
         == Local(minute, hour, DateOf(day).day, DateOf(day).month, WeekdayOf(day))
  {
    MinuteParts(day, hour, minute);
  }

  // ---------- Moving through months ----------

  lemma {:induction false} WithinMonth(n: nat, k: nat)
    requires DateOf(n).day + k <= DaysIn(DateOf(n).year, DateOf(n).month)
    ensures DateOf(n + k) == DateOf(n).(day := DateOf(n).day + k)
  {
    if k > 0 {
      WithinMonth(n, k - 1);
    }
  }

  function NextMonth(d: Date): Date {
    if d.month < 12 then Date(d.year, d.month + 1, 1) else Date(d.year + 1, 1, 1)
  }

  lemma ToNextMonth(n: nat) returns (first: nat)
    ensures n < first <= n + 31 && DateOf(first) == NextMonth(DateOf(n))
  {
    var k := DaysIn(DateOf(n).year, DateOf(n).month) - DateOf(n).day;
    WithinMonth(n, k);
    first := n + k + 1;
  }

  /** The number of months to go from one month to the next of another name. */
  function MonthsTo(from: int, month: int): int { if from < month then month - from else month - from + 12 }

  /** The first day of any given month comes within 372 days. */
  lemma {:induction false} MonthComesIn(n: nat, month: int, steps: nat) returns (first: nat)
    requires 1 <= month <= 12 && steps == MonthsTo(DateOf(n).month, month)
    ensures n < first <= n + 31 * steps && DateOf(first).month == month && DateOf(first).day == 1
    decreases steps
  {
    first := ToNextMonth(n);
    if steps > 1 {
      first := MonthComesIn(first, month, steps - 1);
    }
  }

  lemma MonthComes(n: nat, month: int) returns (first: nat)
    requires 1 <= month <= 12
    ensures n < first <= n + 372 && DateOf(first).month == month && DateOf(first).day == 1
  {
    first := MonthComesIn(n, month, MonthsTo(DateOf(n).month, month));
  }

  /** Every year has day `day` of this month. */
  predicate EveryYear(month: int, day: int) {
    1 <= month <= 12 && 1 <= day <= if month == 2 then 28 else DaysIn(1970, month)
  }

  lemma DayComes(n: nat, month: int, day: int) returns (at: nat)
    requires EveryYear(month, day)
    ensures n < at <= n + 402 && DateOf(at).month == month && DateOf(at).day == day
  {
    var first := MonthComes(n, month);
    WithinMonth(first, day - 1);
    at := first + day - 1;
  }

  lemma DaysTo(n: nat, weekday: int) returns (k: nat)
    requires 0 <= weekday < 7
    ensures k < 7 && WeekdayOf(n + k) == weekday
  {
    k := (weekday - WeekdayOf(n)) % 7;
  }

  lemma WeekdayComes(n: nat, month: int, weekday: int) returns (at: nat)
    requires 1 <= month <= 12 && 0 <= weekday < 7
    ensures n < at <= n + 378 && DateOf(at).month == month && WeekdayOf(at) == weekday
  {
    var first := MonthComes(n, month);
    var k := DaysTo(first, weekday);
    WithinMonth(first, k);
    at := first + k;
  }

  // ---------- The horizon is long enough ----------

  /** A restriction on weekdays, or a selected date that every year has. */
  ghost predicate Recurs(cron: Cron) {
    !cron.weekdayWildcard || exists month, day :: month in cron.month && day in cron.day && EveryYear(month, day)
  }

  lemma MatchingDay(cron: Cron, n: nat) returns (at: nat)
    requires Parsed(cron) && Recurs(cron)
    ensures n < at <= n + 402
    ensures forall hour, minute :: hour in cron.hour && minute in cron.minute ==>
              Matches(cron, Local(minute, hour, DateOf(at).day, DateOf(at).month, WeekdayOf(at)))
  {
    if !cron.weekdayWildcard {
      var month :| month in cron.month;
      var weekday :| weekday in cron.weekday;
      at := WeekdayComes(n, month, (weekday - 1) % 7);
      assert (WeekdayOf(at) + 1) % 7 == weekday;
    } else {
      var month, day :| month in cron.month && day in cron.day && EveryYear(month, day);
      at := DayComes(n, month, day);
    }
  }

  /** A recurring UTC expression always has a next occurrence within the horizon. */
  lemma RecurringAlwaysFires(cron: Cron, afterMs: int)
    requires Parsed(cron) && Recurs(cron) && afterMs >= -MS_PER_MINUTE
    ensures Next(Repeating(cron, Utc), afterMs).Some?
  {
    var first := MinuteAfter(afterMs);
    assert first >= 0;
    var today: nat := first / 1440;
    var at := MatchingDay(cron, today);
    var hour :| hour in cron.hour;
    var minute :| minute in cron.minute;
    UtcOf(at, hour, minute);
    var m := at * 1440 + hour * 60 + minute;
    assert first <= m <= first + HORIZON_MINUTES;
    SearchIsLeast(cron, Utc, first, first + HORIZON_MINUTES);
  }

  // ---------- Where it is not ----------

  ghost predicate LeapDay(d: Date) { d.month == 2 && d.day == 29 }

  /** The `days` days from `n` on, a whole month, hold no leap day. */
  lemma QuietMonth(n: nat, next: nat)
    requires DateOf(n).day == 1 && DateOf(n).month != 2
    requires next == n + DaysIn(DateOf(n).year, DateOf(n).month)
    ensures DateOf(next) == NextMonth(DateOf(n))
    ensures forall k :: n <= k < next ==> !LeapDay(DateOf(k))
  {
    forall k | n <= k < next ensures DateOf(k) == DateOf(n).(day := k - n + 1) {
      WithinMonth(n, k - n);
    }
  }

  lemma February(n: nat, next: nat)
    requires DateOf(n).day == 1 && DateOf(n).month == 2
    requires next == n + DaysIn(DateOf(n).year, DateOf(n).month)
    ensures DateOf(next) == NextMonth(DateOf(n))
    ensures forall k :: n <= k < next ==> (LeapDay(DateOf(k)) <==> k == n + 28)
  {
    forall k | n <= k < next ensures DateOf(k) == DateOf(n).(day := k - n + 1) {
      WithinMonth(n, k - n);
    }
  }

  function YearFromMarch(year: int): int { if Leap(year + 1) then 366 else 365 }

  lemma MarchToSeptember(n: nat)
    requires DateOf(n).month == 3 && DateOf(n).day == 1
    ensures DateOf(n + 184) == Date(DateOf(n).year, 9, 1)
    ensures forall k :: n <= k < n + 184 ==> !LeapDay(DateOf(k))
  {
    QuietMonth(n, n + 31);
    QuietMonth(n + 31, n + 61);
    QuietMonth(n + 61, n + 92);
    QuietMonth(n + 92, n + 122);
    QuietMonth(n + 122, n + 153);
    QuietMonth(n + 153, n + 184);
  }

  lemma SeptemberToFebruary(n: nat)
    requires DateOf(n).month == 9 && DateOf(n).day == 1
    ensures DateOf(n + 153) == Date(DateOf(n).year + 1, 2, 1)
    ensures forall k :: n <= k < n + 153 ==> !LeapDay(DateOf(k))
  {
    QuietMonth(n, n + 30);
    QuietMonth(n + 30, n + 61);
    QuietMonth(n + 61, n + 91);
    QuietMonth(n + 91, n + 122);
    QuietMonth(n + 122, n + 153);
  }

  /** From one 1 March to the next: a leap day only at the end, and only when the new year is a leap year. */
  lemma MarchToMarch(n: nat, year: int)
    requires DateOf(n) == Date(year, 3, 1)
    ensures DateOf(n + YearFromMarch(year)) == Date(year + 1, 3, 1)
    ensures forall k :: n <= k < n + YearFromMarch(year) ==> (LeapDay(DateOf(k)) <==> k == n + 365)
  {
    MarchToSeptember(n);
    SeptemberToFebruary(n + 184);
    February(n + 337, n + YearFromMarch(year));
  }

  lemma {:induction false} MarchOf(year: int) returns (n: nat)
    requires year >= 1970
    ensures DateOf(n) == Date(year, 3, 1)
    decreases year
  {
    if year == 1970 {
      QuietMonth(0, 31);
      February(31, 59);
      n := 59;
    } else {
      var before := MarchOf(year - 1);
      MarchToMarch(before, year - 1);
      n := before + YearFromMarch(year - 1);
    }
  }

  /** No leap day in the 1830 days from 1 March 2096 on. */
  lemma NoLeapDayFor(march: nat, k: nat)
    requires DateOf(march) == Date(2096, 3, 1) && march <= k <= march + 1830
    ensures !LeapDay(DateOf(k))
  {
    MarchToMarch(march, 2096);
    MarchToMarch(march + 365, 2097);
    MarchToMarch(march + 730, 2098);
    MarchToMarch(march + 1095, 2099);
    MarchToMarch(march + 1460, 2100);
    QuietMonth(march + 1825, march + 1825 + 31);
  }

  lemma WholeMinute(m: int)
    ensures m * MS_PER_MINUTE % MS_PER_MINUTE == 0 && m * MS_PER_MINUTE / MS_PER_MINUTE == m
    ensures MinuteAfter(m * MS_PER_MINUTE) == m + 1
  {
  }

  lemma WildcardRecurs(cron: Cron)
    requires Parsed(cron) && cron.dayWildcard
    ensures Recurs(cron)
  {
    var month :| month in cron.month;
    assert EveryYear(month, 1);
  }

  /** Without a recurring date or a weekday, only a leap day can match. */
  lemma OnlyLeapDays(cron: Cron, n: nat, t: Local)
    requires Parsed(cron) && !Recurs(cron) && t.month == DateOf(n).month && t.day == DateOf(n).day
    requires Matches(cron, t)
    ensures LeapDay(DateOf(n))
  {
    if cron.dayWildcard {
      WildcardRecurs(cron);
      assert false;
    }
    assert !EveryYear(t.month, t.day);
  }

  /** An expression without a recurring date has no next occurrence after the last minute of February 2096. */
  lemma LeapDaysRunOut(cron: Cron) returns (march: nat, afterMs: nat)
    requires Parsed(cron) && !Recurs(cron)
    ensures DateOf(march) == Date(2096, 3, 1) && afterMs == (march * 1440 - 1) * MS_PER_MINUTE
    ensures Next(Repeating(cron, Utc), afterMs).None?
  {
    march := MarchOf(2096);
    var first := march * 1440;
    afterMs := (first - 1) * MS_PER_MINUTE;
    WholeMinute(first - 1);
    forall m | first <= m <= first + HORIZON_MINUTES
      ensures !Matches(cron, Utc(m))
    {
      NoMatch(cron, march, m);
    }
    SearchIsLeast(cron, Utc, first, first + HORIZON_MINUTES);
  }

  lemma NoMatch(cron: Cron, march: nat, m: int)
    requires Parsed(cron) && !Recurs(cron) && DateOf(march) == Date(2096, 3, 1)
    requires march * 1440 <= m <= march * 1440 + HORIZON_MINUTES
    ensures !Matches(cron, Utc(m))
  {
    var today: nat := m / 1440;
    NoLeapDayFor(march, today);
    if Matches(cron, Utc(m)) {
      OnlyLeapDays(cron, today, Utc(m));
      assert false;
    }
  }

  /** In UTC an expression always has a next occurrence exactly when it recurs every year or by the week. */
  lemma AlwaysFiresExactlyWhenRecurring(cron: Cron)
    requires Parsed(cron)
    ensures Recurs(cron) <==> forall afterMs :: afterMs >= -MS_PER_MINUTE ==> Next(Repeating(cron, Utc), afterMs).Some?
  {
    if Recurs(cron) {
      forall afterMs | afterMs >= -MS_PER_MINUTE ensures Next(Repeating(cron, Utc), afterMs).Some? {
        RecurringAlwaysFires(cron, afterMs);
      }
    } else {
      var march, afterMs := LeapDaysRunOut(cron);
    }
  }
}
