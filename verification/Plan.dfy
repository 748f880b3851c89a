/** Instalment and recurrence plans: apps/billing/schedule.py:17-48 and
    apps/billing/services.py:61-109, 379-385. */
module Plan {
  import opened Prelude
  import opened Calendar
  import Text

  const INSTALLMENT_MIN: int := 2
  const INSTALLMENT_MAX: int := 48
  const RECURRING_MAX: int := 60
  const CHARGE_MIN_AMOUNT_CENTS: int := 250
  const CONTROL_MAX: nat := 15

  // ---- fair splitting -----------------------------------------------------------------------

  function Share(total: int, parts: int, i: nat): int
    requires parts >= 1
  {
    total / parts + if i < total % parts then 1 else 0
  }

  function Shares(total: int, parts: int): seq<int>
    requires parts >= 1
  {
    seq(parts, i requires 0 <= i => Share(total, parts, i))
  }

  function Sum(s: seq<int>): int {
    if s == [] then 0 else Sum(s[..|s| - 1]) + s[|s| - 1]
  }

  lemma {:induction false} SharesPrefixSum(total: int, parts: int, k: nat)
    requires 1 <= k <= parts
    ensures Sum(Shares(total, parts)[..k]) == k * (total / parts) + if k < total % parts then k else total % parts
  {
    var s := Shares(total, parts);
    assert s[..k][..k - 1] == s[..k - 1];
    if k > 1 {
      SharesPrefixSum(total, parts, k - 1);
    } else {
      assert s[..0] == [];
    }
    assert k * (total / parts) == (k - 1) * (total / parts) + total / parts;
  }

  /** Money is conserved, the parts are non-increasing and differ by at most one cent. */
  lemma SplitIsFair(total: int, parts: int)
    requires parts >= 1
    ensures var s := Shares(total, parts);
      && |s| == parts && Sum(s) == total
      && (forall i, j :: 0 <= i <= j < parts ==> s[j] <= s[i] <= s[j] + 1)
      && (forall i :: 0 <= i < parts ==> total / parts <= s[i] <= total / parts + 1)
  {
    var s := Shares(total, parts);
    SharesPrefixSum(total, parts, parts);
    assert s[..parts] == s;
  }

  method SplitAmountCents(total: int, parts: int) returns (r: Result<seq<int>, string>)
    ensures parts < 1 <==> r.Err?
    ensures r.Ok? ==> r.value == Shares(total, parts)
  {
    if parts < 1 {
      return Err("parts deve ser >= 1");
    }
    var base, rem := total / parts, total % parts;
    var amounts := new int[parts](_ => base);
    for i := 0 to rem
      invariant forall k :: 0 <= k < parts ==> amounts[k] == base + if k < i then 1 else 0
    {
      amounts[i] := amounts[i] + 1;
    }
    assert amounts[..] == Shares(total, parts);
    r := Ok(amounts[..]);
  }

  // ---- due dates ----------------------------------------------------------------------------

  function DueDates(first: Date, count: nat): Result<seq<Date>, DateError> {
    if count == 0 then Ok([]) else
      match DueDates(first, count - 1)
      case Err(e) => Err(e)
      case Ok(front) =>
        match AddMonths(first, count - 1)
        case Err(e) => Err(e)
        case Ok(d) => Ok(front + [d])
  }

  lemma {:induction false} DueDatesAreMonthly(first: Date, count: nat)
    requires Representable(first)
    ensures DueDates(first, count).Ok? <==> count == 0 || Shift(first, count - 1).year <= MAX_YEAR
    ensures DueDates(first, count).Ok? ==>
      && |DueDates(first, count).value| == count
      && forall i :: 0 <= i < count ==> DueDates(first, count).value[i] == Shift(first, i)
  {
    if count > 0 {
      DueDatesAreMonthly(first, count - 1);
      YearsGrow(first, 0, count - 1);
      if count > 1 { YearsGrow(first, count - 2, count - 1); }
    }
  }

  // ---- the plan -----------------------------------------------------------------------------

  datatype Kind = Simple | Installment | Recurring
  datatype PlanError = InstallmentCountOutOfRange | RecurrenceNeedsEnd | RecurrenceCountOutOfRange
      | BadDates(error: DateError)
  datatype Schedule = Schedule(amounts: seq<int>, dues: seq<Date>)

  function WithDates(amounts: seq<int>, dues: Result<seq<Date>, DateError>): Result<Schedule, PlanError> {
    match dues
    case Err(e) => Err(BadDates(e))
    case Ok(ds) => Ok(Schedule(amounts, ds))
  }

  /** `installments == Some(0)` counts as not given, as a falsy number does. */
  ghost function PlanFor(kind: Kind, due: Date, amount: int, installments: Option<int>, end: Option<Date>)
    : Result<Schedule, PlanError>
  {
    var given := if installments.Some? then installments.value else 0;
    match kind
    case Simple => Ok(Schedule([amount], [due]))
    case Installment =>
      if given < INSTALLMENT_MIN || given > INSTALLMENT_MAX then Err(InstallmentCountOutOfRange)
      else WithDates(Shares(amount, given), DueDates(due, given))
    case Recurring =>
      if end.None? && given == 0 then Err(RecurrenceNeedsEnd)
      else if given == 0 && Count(due, end.value).Err? then Err(BadDates(Count(due, end.value).error))
      else
        var count := if given != 0 then given else Count(due, end.value).value;
        if count < 1 || count > RECURRING_MAX then Err(RecurrenceCountOutOfRange)
        else WithDates(seq(count, _ => amount), DueDates(due, count))
  }

  method ResolveOccurrencePlan(kind: Kind, due: Date, amount: int, installments: Option<int>, end: Option<Date>)
    returns (r: Result<Schedule, PlanError>)
    requires Representable(due) && (end.Some? ==> Representable(end.value))
    ensures r == PlanFor(kind, due, amount, installments, end)
  {
    var given := if installments.Some? then installments.value else 0;
    match kind {
      case Simple =>
        r := Ok(Schedule([amount], [due]));
      case Installment =>
        if given < INSTALLMENT_MIN || given > INSTALLMENT_MAX {
          return Err(InstallmentCountOutOfRange);
        }
        var amounts := SplitAmountCents(amount, given);
        r := WithDates(amounts.value, DueDates(due, given));
      case Recurring =>
        if end.None? && given == 0 {
          return Err(RecurrenceNeedsEnd);
        }
        var count := given;
        if given == 0 {
          var counted := CountMonthlyOccurrences(due, end.value);
          if counted.Err? {
            return Err(BadDates(counted.error));
          }
          count := counted.value;
        }
        if count < 1 || count > RECURRING_MAX {
          return Err(RecurrenceCountOutOfRange);
        }
        r := WithDates(seq(count, _ => amount), DueDates(due, count));
    }
  }

  /** The dates of a plan: one per month, never drifting, strictly increasing. */
  ghost predicate MonthlyDates(due: Date, dues: seq<Date>) {
    && (forall i :: 0 <= i < |dues| ==> Representable(dues[i]) && dues[i] == Shift(due, i))
    && (forall i, j :: 0 <= i < j < |dues| ==> Leq(dues[i], dues[j]) && !Leq(dues[j], dues[i]))
  }

  lemma DueDatesAreOrdered(due: Date, count: nat)
    requires Representable(due) && DueDates(due, count).Ok?
    ensures |DueDates(due, count).value| == count && MonthlyDates(due, DueDates(due, count).value)
  {
    DueDatesAreMonthly(due, count);
    var dues := DueDates(due, count).value;
    forall i | 0 <= i < count ensures Representable(dues[i]) {
      ShiftIsExact(due, i);
      YearsGrow(due, i, count - 1);
    }
    forall i, j | 0 <= i < j < count ensures Leq(dues[i], dues[j]) && !Leq(dues[j], dues[i]) {
      ShiftIncreases(due, i, j);
    }
  }

  lemma SharesArePositive(amount: int, parts: int)
    requires amount >= CHARGE_MIN_AMOUNT_CENTS && 1 <= parts <= INSTALLMENT_MAX
    ensures forall i :: 0 <= i < parts ==> Shares(amount, parts)[i] > 0
  {
    SplitIsFair(amount, parts);
  }

  /** Main result: every accepted plan pairs as many positive amounts as strictly increasing monthly
      dates; an instalment plan conserves the total, a recurrence repeats it, and a recurrence
      planned from an end date stops at that date. */
  lemma PlanIsWellFormed(kind: Kind, due: Date, amount: int, installments: Option<int>, end: Option<Date>)
    requires Representable(due) && amount >= CHARGE_MIN_AMOUNT_CENTS && (end.Some? ==> Representable(end.value))
    requires PlanFor(kind, due, amount, installments, end).Ok?
    ensures var p := PlanFor(kind, due, amount, installments, end).value;
      && 1 <= |p.amounts| == |p.dues| <= RECURRING_MAX
      && MonthlyDates(due, p.dues)
      && (forall i :: 0 <= i < |p.amounts| ==> p.amounts[i] > 0)
      && (kind.Installment? ==> Sum(p.amounts) == amount && p.amounts == Shares(amount, |p.amounts|))
      && (!kind.Installment? ==> forall i :: 0 <= i < |p.amounts| ==> p.amounts[i] == amount)
      && (kind.Recurring? && (installments.None? || installments.value == 0) ==>
            Leq(p.dues[|p.dues| - 1], end.value))
  {
    var p := PlanFor(kind, due, amount, installments, end).value;
    var n := |p.amounts|;
    match kind
    case Simple =>
      ShiftIsExact(due, 0);
    case Installment =>
      DueDatesAreOrdered(due, n);
      SplitIsFair(amount, n);
      SharesArePositive(amount, n);
    case Recurring =>
      DueDatesAreOrdered(due, n);
      if installments.None? || installments.value == 0 {
        CountStopsAtEnd(due, end.value);
      }
  }

  /** When there is a plan and how many parts it has: one, or the instalments asked for, or the occurrences
      asked for, or the months up to the end date. */
  lemma PlanExistsIff(kind: Kind, due: Date, amount: int, installments: Option<int>, end: Option<Date>)
    requires Representable(due) && (end.Some? ==> Representable(end.value))
    ensures var (p, given) := (PlanFor(kind, due, amount, installments, end),
                               if installments.Some? then installments.value else 0);
      match kind
      case Simple => p == Ok(Schedule([amount], [due]))
      case Installment =>
        && (p.Ok? <==> 2 <= given <= 48 && Shift(due, given - 1).year <= MAX_YEAR)
        && (p.Ok? ==> |p.value.amounts| == given)
        && (p.Err? ==> (p.error == InstallmentCountOutOfRange <==> !(2 <= given <= 48)))
      case Recurring =>
        if given == 0 && end.None? then p == Err(RecurrenceNeedsEnd)
        else if given == 0 && Count(due, end.value).Err? then p == Err(BadDates(Count(due, end.value).error))
        else
          var n := if given == 0 then Count(due, end.value).value else given;
          && (p.Ok? <==> 1 <= n <= 60 && Shift(due, n - 1).year <= MAX_YEAR)
          && (p.Ok? ==> |p.value.amounts| == n)
          && (p.Err? ==> (p.error == RecurrenceCountOutOfRange <==> !(1 <= n <= 60)))
  {
    var given := if installments.Some? then installments.value else 0;
    match kind
    case Simple =>
    case Installment =>
      if 2 <= given <= 48 { DatedIff(Shares(amount, given), due); }
    case Recurring =>
      if given != 0 || (end.Some? && Count(due, end.value).Ok?) {
        var n := if given == 0 then Count(due, end.value).value else given;
        if 1 <= n <= 60 { DatedIff(seq(n, _ => amount), due); }
      }
  }

  lemma DatedIff(amounts: seq<int>, due: Date)
    requires Representable(due) && amounts != []
    ensures var p := WithDates(amounts, DueDates(due, |amounts|));
      && (p.Ok? <==> Shift(due, |amounts| - 1).year <= MAX_YEAR)
      && (if p.Ok? then p.value.amounts == amounts else p.error.BadDates?)
  {
    DueDatesAreMonthly(due, |amounts|);
  }

  lemma CountStopsAtEnd(first: Date, end: Date)
    requires Representable(first) && Representable(end) && Count(first, end).Ok?
    ensures Count(first, end).value >= 1 && Leq(Shift(first, Count(first, end).value - 1), end)
  {
    var n := CountReachesEnd(first, end);
  }

  /** The minimum of a charge is checked on the total only: the parts of an instalment plan reach the
      minimum exactly when the total allows it for every part. */
  lemma PartsReachMinimum(amount: int, parts: int)
    requires parts >= 1
    ensures (forall i :: 0 <= i < parts ==> Shares(amount, parts)[i] >= CHARGE_MIN_AMOUNT_CENTS)
            <==> amount >= parts * CHARGE_MIN_AMOUNT_CENTS
  {
    SplitIsFair(amount, parts);
    var s, q := Shares(amount, parts), amount / parts;
    assert s[parts - 1] == q;
    if q >= CHARGE_MIN_AMOUNT_CENTS {
      MulOrder(parts, CHARGE_MIN_AMOUNT_CENTS, q);
    } else {
      MulOrder(parts, q + 1, CHARGE_MIN_AMOUNT_CENTS);
    }
  }

  lemma MulOrder(k: nat, a: int, b: int)
    requires a <= b
    ensures k * a <= k * b
  {
  }

  lemma PartBelowMinimum()
    ensures PlanFor(Installment, Date(2026, 1, 1), 250, Some(48), None).Ok?
    ensures var p := PlanFor(Installment, Date(2026, 1, 1), 250, Some(48), None).value;
      p.amounts[47] == 5 < CHARGE_MIN_AMOUNT_CENTS
  {
    DueDatesAreMonthly(Date(2026, 1, 1), 48);
  }

  // ---- control numbers and part keys ----------------------------------------------------------

  datatype ControlError = ControlMissing | ControlTooLong

  function NormalizeSeuNumero(value: string): (r: Result<string, ControlError>)
    ensures r.Ok? ==> 1 <= |r.value| <= CONTROL_MAX
  {
    var text := Text.Strip(value);
    if text == "" then Err(ControlMissing) else if |text| > CONTROL_MAX then Err(ControlTooLong) else Ok(text)
  }

  function Suffix(number: nat, total: nat): string
    requires 1 <= number <= total <= RECURRING_MAX
  {
    "-" + if total > 9 && number < 10 then "0" + Text.Decimal(number) else Text.Decimal(number)
  }

  /** The stem is cut so that the whole control number fits in fifteen characters. */
  function ControlNumber(stem: string, number: nat, total: nat): string
    requires 1 <= number <= total <= RECURRING_MAX
  {
    var suffix := Suffix(number, total);
    Take(if stem == "" then "COB" else stem, CONTROL_MAX - |suffix|) + suffix
  }

  function Take(s: string, n: int): string {
    if n <= 0 then "" else if n < |s| then s[..n] else s
  }

  function SuffixLength(total: nat): nat { if total > 9 then 3 else 2 }

  lemma SuffixShape(number: nat, total: nat)
    requires 1 <= number <= total <= RECURRING_MAX
    ensures |Suffix(number, total)| == SuffixLength(total)
    ensures var s := Suffix(number, total);
      Text.AllDigits(s[1..]) && Text.ParseNat(s[1..]) == number
  {
    Text.ParseDecimal(number);
    var d := Text.Decimal(number);
    if number >= 10 { assert Text.Decimal(number / 10) == [Text.Digit(number / 10)]; }
    var s := Suffix(number, total);
    if total > 9 && number < 10 {
      assert s[1..] == "0" + d;
      Text.ParseConcat("0", d);
      assert Text.ParseNat("0") == 0 by { assert "0"[..0] == ""; }
    } else {
      assert s[1..] == d;
    }
  }

  /** Control numbers fit the gateway's fifteen characters and identify the part. */
  lemma ControlNumbersAreDistinct(stem: string, i: nat, j: nat, total: nat)
    requires 1 <= i <= total && 1 <= j <= total <= RECURRING_MAX
    ensures 1 <= |ControlNumber(stem, i, total)| <= CONTROL_MAX
    ensures ControlNumber(stem, i, total) == ControlNumber(stem, j, total) ==> i == j
  {
    SuffixShape(i, total);
    SuffixShape(j, total);
    var n := SuffixLength(total);
    var a, b := ControlNumber(stem, i, total), ControlNumber(stem, j, total);
    assert a[|a| - n..] == Suffix(i, total);
    assert b[|b| - n..] == Suffix(j, total);
  }

  /** The control number of a part, spelled out: as much of the stem as fits, a dash, and the number of the
      part in as many digits as the count of parts has. */
  lemma ControlNumberIs(stem: string, number: nat, total: nat)
    requires 1 <= number <= total <= RECURRING_MAX
    ensures var width := if total > 9 then 2 else 1;
      && number < Text.Pow10(width)
      && var (text, whole) := (ControlNumber(stem, number, total), if stem == "" then "COB" else stem);
         var kept := if |whole| < 14 - width then whole else whole[..14 - width];
         text == kept + "-" + Text.Padded(number, width)
  {
    var width := if total > 9 then 2 else 1;
    assert Text.Pow10(1) == 10 && Text.Pow10(2) == 100;
    PaddedIs(number, width);
    SuffixShape(number, total);
  }

  lemma PaddedIs(number: nat, width: nat)
    requires (width == 1 && number < 10) || (width == 2 && number < 100)
    ensures Text.Pow10(1) == 10 && Text.Pow10(2) == 100
    ensures Text.Padded(number, width) == if width == 2 && number < 10 then "0" + Text.Decimal(number)
                                          else Text.Decimal(number)
  {
    assert Text.Pow10(0) == 1 && Text.Padded(0, 0) == "";
    assert Text.Padded(number % 10, 1) == [Text.Digit(number % 10)];
    if width == 2 { assert Text.Padded(number / 10, 1) == [Text.Digit(number / 10)]; }
  }

  /** The idempotency key of part `index` of a plan. */
  function PartKey(key: string, index: nat): string {
    if index == 1 then key else key + ":" + Text.Decimal(index)
  }

  lemma PartKeysAreDistinct(key: string, i: nat, j: nat)
    requires PartKey(key, i) == PartKey(key, j)
    ensures i == j
  {
    Text.ParseDecimal(i);
    Text.ParseDecimal(j);
    var n := |key| + 1;
    if i != 1 && j != 1 {
      assert PartKey(key, i)[n..] == Text.Decimal(i);
      assert PartKey(key, j)[n..] == Text.Decimal(j);
    }
  }
}
