/** Calendar month arithmetic: apps/billing/schedule.py:9-14, 27-40. */
module Calendar {
  import opened Prelude

  const MAX_YEAR: int := 9999
  const MAX_OCCURRENCES: nat := 60

  /** The year is not bounded here; ToDate refuses what datetime.date refuses. */
  datatype Date = Date(year: int, month: int, day: int)

  datatype DateError = EndBeforeFirst | YearOutOfRange

  predicate Leap(year: int) { year % 4 == 0 && (year % 100 != 0 || year % 400 == 0) }

  function MonthLength(year: int, month: int): int {
    if month == 2 then (if Leap(year) then 29 else 28)
    else if month in {4, 6, 9, 11} then 30
    else 31
  }

  predicate Valid(d: Date) {
    1 <= d.month <= 12 && 1 <= d.day <= MonthLength(d.year, d.month)
  }

  predicate Representable(d: Date) { Valid(d) && 1 <= d.year <= MAX_YEAR }

  /** The Gregorian months. */
  lemma MonthLengths(year: int, m: int)
    ensures m == 1 || m == 3 || m == 5 || m == 7 || m == 8 || m == 10 || m == 12 ==> MonthLength(year, m) == 31
    ensures m == 4 || m == 6 || m == 9 || m == 11 ==> MonthLength(year, m) == 30
    ensures year % 400 == 0 || (year % 4 == 0 && year % 100 != 0) ==> MonthLength(year, 2) == 29
    ensures year % 4 != 0 || (year % 100 == 0 && year % 400 != 0) ==> MonthLength(year, 2) == 28
  {
  }

  predicate Leq(a: Date, b: Date) {
    a.year < b.year || (a.year == b.year && (a.month < b.month || (a.month == b.month && a.day <= b.day)))
  }

  /** `months` calendar months later, on the same day or the last day of a shorter month. */
  function Shift(d: Date, months: int): Date {
    var index := d.month - 1 + months;
    var year, month := d.year + index / 12, index % 12 + 1;
    var length := MonthLength(year, month);
    Date(year, month, if d.day < length then d.day else length)
  }

  function ToDate(d: Date): Result<Date, DateError> {
    if 1 <= d.year <= MAX_YEAR then Ok(d) else Err(YearOutOfRange)
  }

  function AddMonths(d: Date, months: int): Result<Date, DateError> { ToDate(Shift(d, months)) }

  /** Months since year 0; consecutive months have consecutive numbers. */
  function MonthNumber(d: Date): int { 12 * d.year + d.month - 1 }

  /** Every date of the series is valid, lies exactly `i` months after the first, and carries the
      first day of month clamped to its own month: shifting never drifts. */
  lemma ShiftIsExact(d: Date, i: int)
    requires Valid(d)
    ensures Valid(Shift(d, i))
    ensures MonthNumber(Shift(d, i)) == MonthNumber(d) + i
    ensures Shift(d, i).day == if d.day < MonthLength(Shift(d, i).year, Shift(d, i).month) then d.day
                               else MonthLength(Shift(d, i).year, Shift(d, i).month)
    ensures Shift(d, 0) == d
  {
  }

  /** One date per month: validity, month number and clamped day determine the date. */
  lemma ShiftIsUnique(d: Date, i: int, e: Date)
    requires Valid(d) && Valid(e) && MonthNumber(e) == MonthNumber(d) + i
    requires e.day == if d.day < MonthLength(e.year, e.month) then d.day else MonthLength(e.year, e.month)
    ensures e == Shift(d, i)
  {
    ShiftIsExact(d, i);
  }

  lemma LeqIsMonthOrder(a: Date, b: Date)
    requires Valid(a) && Valid(b)
    ensures Leq(a, b) <==> MonthNumber(a) < MonthNumber(b) || (MonthNumber(a) == MonthNumber(b) && a.day <= b.day)
  {
  }

  /** The series is strictly increasing. */
  lemma ShiftIncreases(d: Date, i: int, j: int)
    requires Valid(d) && i < j
    ensures Leq(Shift(d, i), Shift(d, j)) && !Leq(Shift(d, j), Shift(d, i))
  {
    ShiftIsExact(d, i);
    ShiftIsExact(d, j);
    LeqIsMonthOrder(Shift(d, i), Shift(d, j));
    LeqIsMonthOrder(Shift(d, j), Shift(d, i));
  }

  /** The offsets in [0, 60) whose date is not after the end. */
  ghost function Occurrences(first: Date, end: Date): set<nat> {
    set i: nat | i < MAX_OCCURRENCES && Leq(Shift(first, i), end)
  }

  ghost function Interval(n: nat): (s: set<nat>)
    ensures |s| == n && forall i: nat :: i in s <==> i < n
  {
    if n == 0 then {} else
      var rest := Interval(n - 1);
      assert n - 1 !in rest;
      rest + {n - 1}
  }

  lemma LaterIsAfter(first: Date, end: Date, i: nat, j: nat)
    requires Valid(first) && Valid(end) && i < j && !Leq(Shift(first, i), end)
    ensures !Leq(Shift(first, j), end)
  {
    ShiftIncreases(first, i, j);
    ShiftIsExact(first, i);
    ShiftIsExact(first, j);
    LeqIsMonthOrder(Shift(first, i), end);
    LeqIsMonthOrder(Shift(first, j), end);
    LeqIsMonthOrder(Shift(first, i), Shift(first, j));
  }

  /** The dates not after the end are an initial segment of the series. */
  lemma OccurrencesAreInitial(first: Date, end: Date, count: nat)
    requires Valid(first) && Valid(end) && count <= MAX_OCCURRENCES
    requires forall i: nat :: i < count ==> Leq(Shift(first, i), end)
    requires count < MAX_OCCURRENCES ==> !Leq(Shift(first, count), end)
    ensures |Occurrences(first, end)| == count
  {
    forall i: nat ensures i in Occurrences(first, end) <==> i in Interval(count) {
      if i > count && count < MAX_OCCURRENCES { LaterIsAfter(first, end, count, i); }
    }
    assert Occurrences(first, end) == Interval(count);
  }

  lemma YearsGrow(d: Date, i: nat, j: nat)
    requires Valid(d) && i <= j
    ensures d.year <= Shift(d, i).year <= Shift(d, j).year
  {
  }

  /** The number of monthly occurrences up to the end date. It raises when the end precedes the first
      date, and also when the date after the last occurrence has no representation, because the loop
      computes that date too. */
  ghost function Count(first: Date, end: Date): Result<nat, DateError> {
    if !Leq(first, end) then Err(EndBeforeFirst)
    else if Shift(first, |Occurrences(first, end)|).year > MAX_YEAR then Err(YearOutOfRange)
    else Ok(|Occurrences(first, end)|)
  }

  method CountMonthlyOccurrences(first: Date, end: Date) returns (r: Result<nat, DateError>)
    requires Representable(first) && Representable(end)
    ensures r == Count(first, end)
    ensures r.Ok? ==> 1 <= r.value <= MAX_OCCURRENCES && Leq(Shift(first, r.value - 1), end)
    ensures r.Ok? && r.value < MAX_OCCURRENCES ==> !Leq(Shift(first, r.value), end)
  {
    if !Leq(first, end) {
      return Err(EndBeforeFirst);
    }
    var count, current := 0, first;
    ShiftIsExact(first, 0);
    while Leq(current, end) && count < MAX_OCCURRENCES
      invariant count <= MAX_OCCURRENCES && current == Shift(first, count) && Representable(current)
      invariant forall i: nat :: i < count ==> Leq(Shift(first, i), end)
      decreases MAX_OCCURRENCES - count
    {
      count := count + 1;
      var next := AddMonths(first, count);
      ShiftIsExact(first, count);
      YearsGrow(first, 0, count);
      if next.Err? {
        OverflowIsLast(first, end, count);
        return Err(YearOutOfRange);
      }
      current := next.value;
    }
    OccurrencesAreInitial(first, end, count);
    r := Ok(if count < 1 then 1 else count);
  }

  /** A date beyond the last year is after every representable end. */
  lemma OverflowIsLast(first: Date, end: Date, count: nat)
    requires Representable(first) && Representable(end) && count <= MAX_OCCURRENCES
    requires forall i: nat :: i < count ==> Leq(Shift(first, i), end)
    requires Shift(first, count).year > MAX_YEAR
    ensures |Occurrences(first, end)| == count
  {
    OccurrencesAreInitial(first, end, count);
  }

  /** The months from the first date to December of the last year. */
  function MonthsLeft(first: Date): int { 12 * MAX_YEAR + 11 - MonthNumber(first) }

  lemma LastMonth(first: Date, i: int)
    requires Valid(first)
    ensures Shift(first, i).year > MAX_YEAR <==> i > MonthsLeft(first)
    ensures i == MonthsLeft(first) ==> Shift(first, i) == Date(MAX_YEAR, 12, first.day)
  {
    ShiftIsExact(first, i);
  }

  /** Every date up to one that is not after the end is not after the end. */
  lemma EarlierIsBefore(first: Date, end: Date, i: nat, j: nat)
    requires Valid(first) && Valid(end) && i <= j && Leq(Shift(first, j), end)
    ensures Leq(Shift(first, i), end)
  {
    if !Leq(Shift(first, i), end) && i < j { LaterIsAfter(first, end, i, j); }
  }

  lemma OverflowCounted(first: Date, end: Date)
    requires Representable(first) && Representable(end) && end.year == MAX_YEAR && end.month == 12
    requires first.day <= end.day && MonthsLeft(first) < MAX_OCCURRENCES
    ensures |Occurrences(first, end)| == MonthsLeft(first) + 1
  {
    var m: nat := MonthsLeft(first);
    LastMonth(first, m);
    LastMonth(first, m + 1);
    forall i: nat | i < m + 1 ensures Leq(Shift(first, i), end) { EarlierIsBefore(first, end, i, m); }
    OccurrencesAreInitial(first, end, m + 1);
  }

  lemma CountReachesEnd(first: Date, end: Date) returns (n: nat)
    requires Representable(first) && Representable(end) && Leq(first, end)
    ensures n == |Occurrences(first, end)| && 1 <= n <= MAX_OCCURRENCES && Leq(Shift(first, n - 1), end)
  {
    n := 0;
    ShiftIsExact(first, 0);
    while n < MAX_OCCURRENCES && Leq(Shift(first, n), end)
      invariant n <= MAX_OCCURRENCES && forall i: nat :: i < n ==> Leq(Shift(first, i), end)
    {
      n := n + 1;
    }
    OccurrencesAreInitial(first, end, n);
  }

  /** The overflow, on the dates alone: the end lies in December of the last year, no earlier in the month than
      the first day, and the first date at most 59 months before. */
  lemma CountOverflowsIff(first: Date, end: Date)
    requires Representable(first) && Representable(end) && Leq(first, end)
    ensures Count(first, end) == Err(YearOutOfRange)
            <==> end.year == MAX_YEAR && end.month == 12 && first.day <= end.day && MonthsLeft(first) < MAX_OCCURRENCES
  {
    if end.year == MAX_YEAR && end.month == 12 && first.day <= end.day && MonthsLeft(first) < MAX_OCCURRENCES {
      OverflowCounted(first, end);
      LastMonth(first, MonthsLeft(first) + 1);
    } else {
      var n := CountReachesEnd(first, end);
      LastMonth(first, n);
      LastMonth(first, n - 1);
      ShiftIsExact(first, n - 1);
    }
  }

  /** The overflow is real: one occurrence fits, yet the count raises. */
  lemma CountRaisesInDecember9999()
    ensures var first, end := Date(9999, 12, 1), Date(9999, 12, 31);
      && Representable(first) && Representable(end)
      && |Occurrences(first, end)| == 1 && Count(first, end) == Err(YearOutOfRange)
  {
    var first, end := Date(9999, 12, 1), Date(9999, 12, 31);
    OverflowIsLast(first, end, 1);
  }
}
