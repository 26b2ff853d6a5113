/**
 Calendar dates as the algorithm uses them: a .NET-style date-time (a calendar
 day plus a tick count within that day), the `<` comparison, `AddYears(1)`, and
 the generator of the yearly rebalancing dates.
 */
module Dates {

  /** Largest year a .NET DateTime can hold. */
  const MaxYear: int := 9999
  /** 100-nanosecond ticks in one day. */
  const TicksPerDay: int := 864_000_000_000

  datatype Date = Date(year: int, month: int, day: int)

  /** A point in time: a calendar day and the ticks elapsed since its midnight. */
  datatype DateTime = DateTime(date: Date, ticks: int)

  /** Outcome of a calendar computation that .NET may refuse with ArgumentOutOfRangeException. */
  datatype Result<T> = Ok(value: T) | OutOfRange

  predicate IsLeapYear(y: int) {
    y % 4 == 0 && (y % 100 != 0 || y % 400 == 0)
  }

  function DaysInMonth(y: int, m: int): int {
    if m == 2 then (if IsLeapYear(y) then 29 else 28)
    else if m == 4 || m == 6 || m == 9 || m == 11 then 30
    else 31
  }

  /** The values a DateTime can take. */
  predicate Valid(t: DateTime) {
    && 1 <= t.date.year <= MaxYear
    && 1 <= t.date.month <= 12
    && 1 <= t.date.day <= DaysInMonth(t.date.year, t.date.month)
    && 0 <= t.ticks < TicksPerDay
  }

  /** `a < b` on DateTime: chronological, i.e. lexicographic on (year, month, day, ticks). */
  predicate Before(a: DateTime, b: DateTime) {
    || a.date.year < b.date.year
    || (a.date.year == b.date.year && a.date.month < b.date.month)
    || (a.date.year == b.date.year && a.date.month == b.date.month && a.date.day < b.date.day)
    || (a.date == b.date && a.ticks < b.ticks)
  }

  /**
   `t.AddYears(1)`: the same month, day and time of day one year later; a day the
   target month lacks (February 29 in a common year) becomes that month's last day;
   a resulting year outside 1..9999 is refused.
   */
  function AddYears(t: DateTime): (r: Result<DateTime>)
    ensures r.Ok? <==> 1 <= t.date.year + 1 <= MaxYear
    ensures r.Ok? ==> Before(t, r.value) && r.value.date.year == t.date.year + 1
  {
    var y := t.date.year + 1;
    if y < 1 || y > MaxYear then OutOfRange
    else
      var n := DaysInMonth(y, t.date.month);
      var d := if t.date.day > n then n else t.date.day;
      Ok(DateTime(Date(y, t.date.month, d), t.ticks))
  }

  /** On a valid date AddYears keeps month, time of day and day, except that February 29 becomes February 28. */
  lemma AddYearsOfValid(t: DateTime)
    requires Valid(t) && t.date.year < MaxYear
    ensures AddYears(t).Ok? && Valid(AddYears(t).value)
    ensures AddYears(t).value.date.month == t.date.month && AddYears(t).value.ticks == t.ticks
    ensures AddYears(t).value.date.day
            == if t.date.month == 2 && t.date.day == 29 && !IsLeapYear(t.date.year + 1) then 28 else t.date.day
  {
  }

  /** Adds `prefix` in front of a successful outcome; a refusal stays a refusal. */
  function Prepend(prefix: seq<DateTime>, r: Result<seq<DateTime>>): Result<seq<DateTime>> {
    match r
    case Ok(rest) => Ok(prefix + rest)
    case OutOfRange => OutOfRange
  }

  lemma PrependConcat(a: seq<DateTime>, b: seq<DateTime>, r: Result<seq<DateTime>>)
    ensures Prepend(a, Prepend(b, r)) == Prepend(a + b, r)
    ensures Prepend([], r) == r
  {
    if r.Ok? {
      assert a + (b + r.value) == (a + b) + r.value;
      assert [] + r.value == r.value;
    }
  }

  /**
   Specification of the rebalancing dates: start, start + 1 year, ... as long as a
   date is strictly before `end`; OutOfRange when stepping past a kept date leaves
   the DateTime range.
   */
  function YearlyDates(start: DateTime, end: DateTime): Result<seq<DateTime>>
    decreases end.date.year - start.date.year
  {
    if !Before(start, end) then Ok([])
    else match AddYears(start)
      case OutOfRange => OutOfRange
      case Ok(next) => Prepend([start], YearlyDates(next, end))
  }

  /** Builds the list by appending in a loop, as the algorithm's initialisation does. */
  method GenerateRebalancingDates(start: DateTime, end: DateTime) returns (r: Result<seq<DateTime>>)
    ensures r == YearlyDates(start, end)
  {
    var dates: seq<DateTime> := [];
    var current := start;
    PrependConcat([], [], YearlyDates(start, end));
    while Before(current, end)
      invariant YearlyDates(start, end) == Prepend(dates, YearlyDates(current, end))
      decreases end.date.year - current.date.year
    {
      dates := dates + [current];
      var next := AddYears(current);
      if next.OutOfRange? {
        return OutOfRange;
      }
      PrependConcat(dates[..|dates| - 1], [current], YearlyDates(next.value, end));
      assert dates[..|dates| - 1] + [current] == dates;
      current := next.value;
    }
    assert dates + [] == dates;
    r := Ok(dates);
  }

  predicate StrictlyIncreasing(ds: seq<DateTime>) {
    forall i, j :: 0 <= i < j < |ds| ==> Before(ds[i], ds[j])
  }

  /** Year-by-year shape of a successful schedule. */
  lemma {:induction false} YearlyDatesShape(start: DateTime, end: DateTime)
    requires YearlyDates(start, end).Ok?
    ensures var ds := YearlyDates(start, end).value;
      && (|ds| == 0 <==> !Before(start, end))
      && (|ds| > 0 ==> ds[0] == start)
      && (forall i :: 0 <= i < |ds| ==> Before(ds[i], end))
      && (forall i :: 0 <= i < |ds| - 1 ==> AddYears(ds[i]) == Ok(ds[i + 1]))
      && (|ds| > 0 ==> AddYears(ds[|ds| - 1]).Ok? && !Before(AddYears(ds[|ds| - 1]).value, end))
    decreases end.date.year - start.date.year
  {
    if Before(start, end) {
      var next := AddYears(start).value;
      YearlyDatesShape(next, end);
      var rest := YearlyDates(next, end).value;
      assert YearlyDates(start, end).value == [start] + rest;
    }
  }

  /** The schedule is strictly increasing. */
  lemma {:induction false} YearlyDatesIncreasing(start: DateTime, end: DateTime)
    requires YearlyDates(start, end).Ok?
    ensures StrictlyIncreasing(YearlyDates(start, end).value)
    ensures forall i :: 0 <= i < |YearlyDates(start, end).value| ==> !Before(YearlyDates(start, end).value[i], start)
    decreases end.date.year - start.date.year
  {
    if Before(start, end) {
      var next := AddYears(start).value;
      YearlyDatesIncreasing(next, end);
      var rest := YearlyDates(next, end).value;
      var ds := YearlyDates(start, end).value;
      assert ds == [start] + rest;
      forall i, j | 0 <= i < j < |ds| ensures Before(ds[i], ds[j]) {
        if i == 0 {
          assert !Before(rest[j - 1], next);
          assert Before(start, next);
        }
      }
      forall i | 0 <= i < |ds| ensures !Before(ds[i], start) {
        if i > 0 {
          assert !Before(rest[i - 1], next);
        }
      }
    }
  }

  /** Every date of a schedule starting at a valid date is valid. */
  lemma {:induction false} YearlyDatesValid(start: DateTime, end: DateTime)
    requires Valid(start) && YearlyDates(start, end).Ok?
    ensures forall i :: 0 <= i < |YearlyDates(start, end).value| ==> Valid(YearlyDates(start, end).value[i])
    decreases end.date.year - start.date.year
  {
    if Before(start, end) {
      AddYearsOfValid(start);
      var next := AddYears(start).value;
      YearlyDatesValid(next, end);
      assert YearlyDates(start, end).value == [start] + YearlyDates(next, end).value;
    }
  }

  /** The only refusal is stepping past 9999: with an end before year 9999 the schedule always succeeds. */
  lemma {:induction false} YearlyDatesInRange(start: DateTime, end: DateTime)
    requires 0 <= start.date.year && end.date.year < MaxYear
    ensures YearlyDates(start, end).Ok?
    decreases end.date.year - start.date.year
  {
    if Before(start, end) {
      YearlyDatesInRange(AddYears(start).value, end);
    }
  }
}
