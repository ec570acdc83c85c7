/** The part of `System.DateTime` the weather proxy relies on: Gregorian
    dates from 0001-01-01 to 9999-12-31, `.Date`, and whole-day `AddDays`. */
module Calendar {
  import opened Wrappers

  datatype DateTime = DateTime(year: int, month: int, day: int, hour: int, minute: int, second: int)

  predicate IsLeapYear(year: int) {
    year % 4 == 0 && (year % 100 != 0 || year % 400 == 0)
  }

  function DaysInMonth(year: int, month: int): (n: int)
    requires 1 <= month <= 12
    ensures 28 <= n <= 31
  {
    if month == 2 then (if IsLeapYear(year) then 29 else 28)
    else if month == 4 || month == 6 || month == 9 || month == 11 then 30
    else 31
  }

  /** A value a `DateTime` can hold (whole seconds; ticks below a second
      play no part here). */
  predicate Valid(d: DateTime) {
    && 1 <= d.year <= 9999
    && 1 <= d.month <= 12
    && 1 <= d.day <= DaysInMonth(d.year, d.month)
    && 0 <= d.hour < 24 && 0 <= d.minute < 60 && 0 <= d.second < 60
  }

  /** `.Date`: the same day at midnight. */
  function Date(d: DateTime): (r: DateTime)
    ensures r.hour == 0 && r.minute == 0 && r.second == 0
    ensures r.year == d.year && r.month == d.month && r.day == d.day
    ensures Valid(d) ==> Valid(r)
  {
    d.(hour := 0, minute := 0, second := 0)
  }

  /** The same time one day later; `None` past 9999-12-31, where `AddDays`
      throws. */
  function NextDay(d: DateTime): (r: Option<DateTime>)
    requires Valid(d)
    ensures r.None? <==> d.year == 9999 && d.month == 12 && d.day == 31
    ensures r.Some? ==> Valid(r.value)
  {
    if d.day < DaysInMonth(d.year, d.month) then Some(d.(day := d.day + 1))
    else if d.month < 12 then Some(d.(month := d.month + 1, day := 1))
    else if d.year < 9999 then Some(d.(year := d.year + 1, month := 1, day := 1))
    else None
  }

  /** `AddDays(n)` for a whole number of days: `None` when the result would
      pass 9999-12-31. */
  function AddDays(d: DateTime, n: nat): (r: Option<DateTime>)
    requires Valid(d)
    ensures r.Some? ==> Valid(r.value)
    decreases n
  {
    if n == 0 then Some(d)
    else match AddDays(d, n - 1)
      case None => None
      case Some(e) => NextDay(e)
  }

  /** The integer `Year + Month + Day`. */
  function DaySum(d: DateTime): int {
    d.year + d.month + d.day
  }

  /** Moving to the next day either stays in the month, adding one to the
      day and to the day sum, or starts a new month on day 1 and lowers
      the day sum by at least 26; a day before the 28th always stays. */
  lemma NextDaySum(d: DateTime)
    requires Valid(d) && NextDay(d).Some?
    ensures var n := NextDay(d).value;
            || (n.day == d.day + 1 && DaySum(n) == DaySum(d) + 1)
            || (n.day == 1 && DaySum(n) + 26 <= DaySum(d))
    ensures d.day < 28 ==> NextDay(d).value.day == d.day + 1 && DaySum(NextDay(d).value) == DaySum(d) + 1
  {
  }

  /** Consecutive days `ds` (each the day after the one before). */
  predicate Consecutive(ds: seq<DateTime>) {
    && (forall k :: 0 <= k < |ds| ==> Valid(ds[k]))
    && (forall k :: 0 <= k < |ds| - 1 ==> NextDay(ds[k]) == Some(ds[k + 1]))
  }

  /** Within a run of consecutive days from `ds[i]` to `ds[j]`, either no
      month starts, and day and day sum grow by `j - i`, or one does, and the
      day sum ends at least 27 below where a month-free run would be. */
  lemma {:induction false} RunSum(ds: seq<DateTime>, i: nat, j: nat)
    requires Consecutive(ds) && i <= j < |ds| && j - i < 28
    ensures || (ds[j].day == ds[i].day + (j - i) && DaySum(ds[j]) == DaySum(ds[i]) + (j - i))
            || (ds[j].day <= j - i && DaySum(ds[j]) <= DaySum(ds[i]) + (j - i) - 27)
    decreases j - i
  {
    if j > i {
      RunSum(ds, i, j - 1);
      assert NextDay(ds[j - 1]) == Some(ds[j]);
      NextDaySum(ds[j - 1]);
    }
  }

  /** Two days fewer than 27 days apart in a run of consecutive days never
      share a day sum (2021-02-28 and 2021-03-27, 27 days apart, do). */
  lemma ConsecutiveSumsDiffer(ds: seq<DateTime>, i: nat, j: nat)
    requires Consecutive(ds) && i < j < |ds| && j - i < 27
    ensures DaySum(ds[i]) != DaySum(ds[j])
  {
    RunSum(ds, i, j);
  }
}
