/** IBS/CBS base and taxes: apps/fiscal/rtc_assessment.py. Money counts cents; rates count
    ten-thousandths, the precision of the rate columns and of the quantized settings. */
module RtcAssessment {
  import opened Rounding

  const UNIT: int := 10000

  datatype Period = Test2026 | Transition | Full2033

  function PeriodFor(year: int): Period {
    if year <= 2026 then Test2026 else if year <= 2032 then Transition else Full2033
  }

  /** Quantizes a rate to four decimals. */
  function QRate(value: real): int { HalfUp(value * 10000.0) }

  datatype Settings = Settings(cbs: real, ibs: real)

  const DEFAULTS: Settings := Settings(0.009, 0.001)

  datatype Rates = Rates(cbs: int, ibsUf: int, ibsMun: int)

  function RatesFor(period: Period, s: Settings): Rates {
    if period.Test2026? then Rates(QRate(s.cbs), QRate(s.ibs), 0) else Rates(QRate(s.cbs), 5, 5)
  }

  /** n ten-thousandths of a cent, rounded half away from zero to whole cents. */
  function ToCents(n: int): int {
    if n >= 0 then (n + UNIT / 2) / UNIT else -((-n + UNIT / 2) / UNIT)
  }

  /** A tax on an amount of cents at a rate, rounded to the cent. */
  function Tax(cents: int, rate: int): int { ToCents(cents * rate) }

  lemma ToCentsIsHalfUp(n: int)
    ensures ToCents(n) == QMoney(n as real / 1000000.0)
  {
    var x := n as real / 10000.0;
    assert n as real / 1000000.0 * 100.0 == x;
    HalfUpIsNearest(x, ToCents(n));
  }

  datatype Input = Input(
    amountCents: int, iss: int, pis: int, cofins: int, year: int, discount: real, adjustment: real)

  datatype Assessment = Assessment(
    period: Period, serv: int, iss: int, pis: int, cofins: int, discount: int, adjustment: int, base: nat,
    rates: Rates, ibsRate: int, cbs: int, ibsUf: int, ibsMun: int, ibs: int)

  function Clamp(x: int): nat { if x < 0 then 0 else x }

  /** The base of a period from the amount, its deductions and its rounded taxes. */
  function Base(period: Period, serv: int, discount: int, adjustment: int, iss: int, pis: int, cofins: int): nat {
    var gross := serv - discount - adjustment - iss;
    Clamp(if period.Test2026? then gross - pis - cofins else gross)
  }

  function Assess(i: Input, s: Settings): Assessment {
    var serv := QMoney(i.amountCents as real / 100.0);
    var period := PeriodFor(i.year);
    var iss, pis, cofins := Tax(serv, i.iss), Tax(serv, i.pis), Tax(serv, i.cofins);
    var discount, adjustment := QMoney(i.discount), QMoney(i.adjustment);
    var base := Base(period, serv, discount, adjustment, iss, pis, cofins);
    var rates := RatesFor(period, s);
    var cbs, ibsUf, ibsMun := Tax(base, rates.cbs), Tax(base, rates.ibsUf), Tax(base, rates.ibsMun);
    Assessment(period, serv, iss, pis, cofins, discount, adjustment, base, rates, rates.ibsUf + rates.ibsMun,
               cbs, ibsUf, ibsMun, QMoney((ibsUf + ibsMun) as real / 100.0))
  }

  lemma WholeCents(cents: int)
    ensures QMoney(cents as real / 100.0) == cents
  {
    assert cents as real / 100.0 * 100.0 == cents as real;
    HalfUpIsNearest(cents as real, cents);
  }

  lemma Unfold(i: Input, s: Settings)
    ensures var r, a := Assess(i, s), i.amountCents;
      && r.serv == a && r.ibs == r.ibsUf + r.ibsMun
      && r.base == Base(PeriodFor(i.year), a, QMoney(i.discount), QMoney(i.adjustment),
                        Tax(a, i.iss), Tax(a, i.pis), Tax(a, i.cofins))
  {
    WholeCents(i.amountCents);
    WholeCents(Assess(i, s).ibsUf + Assess(i, s).ibsMun);
  }

  /** The base with nothing rounded, in ten-thousandths of a cent, clamped at zero. */
  function ExactBase(i: Input): real {
    var a := i.amountCents;
    var rates := if PeriodFor(i.year).Test2026? then a * i.iss + a * i.pis + a * i.cofins else a * i.iss;
    var gross := (UNIT * a - rates) as real - (i.discount + i.adjustment) * 1000000.0;
    if gross < 0.0 then 0.0 else gross
  }

  /** The same with the two deductions rounded to the cent. */
  function CentBase(i: Input): nat {
    var a := i.amountCents;
    var gross := UNIT * (a - QMoney(i.discount) - QMoney(i.adjustment)) - a * i.iss;
    Clamp(if PeriodFor(i.year).Test2026? then gross - a * i.pis - a * i.cofins else gross)
  }

  function Tolerance(period: Period): int { if period.Test2026? then 3 * UNIT / 2 else UNIT / 2 }

  lemma ToCentsIsNear(n: int)
    ensures n - UNIT / 2 <= UNIT * ToCents(n) <= n + UNIT / 2
  {
  }

  /** Rounding three taxes moves the base by at most 1.5 cents, rounding one by at most half a cent. */
  lemma BaseIsNearCents(i: Input, s: Settings)
    ensures CentBase(i) - Tolerance(PeriodFor(i.year)) <= UNIT * Assess(i, s).base
            <= CentBase(i) + Tolerance(PeriodFor(i.year))
  {
    Unfold(i, s);
    ToCentsIsNear(i.amountCents * i.iss);
    ToCentsIsNear(i.amountCents * i.pis);
    ToCentsIsNear(i.amountCents * i.cofins);
  }

  /** Rounding a deduction moves it by at most half a cent, and not at all when it is in whole cents. */
  lemma DeductionIsNear(x: real)
    ensures -5000.0 <= (UNIT * QMoney(x)) as real - x * 1000000.0 <= 5000.0
    ensures x * 100.0 == QMoney(x) as real ==> (UNIT * QMoney(x)) as real == x * 1000000.0
  {
    HalfUpIsNearest(x * 100.0, QMoney(x));
  }

  predicate WholeCentDeductions(i: Input) {
    i.discount * 100.0 == QMoney(i.discount) as real && i.adjustment * 100.0 == QMoney(i.adjustment) as real
  }

  lemma CentBaseIsNear(i: Input)
    ensures ExactBase(i) - 10000.0 <= CentBase(i) as real <= ExactBase(i) + 10000.0
    ensures WholeCentDeductions(i) ==> CentBase(i) as real == ExactBase(i)
  {
    DeductionIsNear(i.discount);
    DeductionIsNear(i.adjustment);
  }

  /** The base is within 1.5 cents of the exact one in the test year and within half a cent later, and within
      one cent more when the deductions are not in whole cents. */
  lemma BaseIsNearExact(i: Input, s: Settings)
    ensures var slack := Tolerance(PeriodFor(i.year)) as real + if WholeCentDeductions(i) then 0.0 else 10000.0;
      ExactBase(i) - slack <= (UNIT * Assess(i, s).base) as real <= ExactBase(i) + slack
  {
    BaseIsNearCents(i, s);
    CentBaseIsNear(i);
  }

  /** Each tax is the exact product of the base and its own rate, within half a cent. */
  lemma TaxesAreNearExact(i: Input, s: Settings)
    ensures var r := Assess(i, s);
      && r.base * r.rates.cbs - UNIT / 2 <= UNIT * r.cbs <= r.base * r.rates.cbs + UNIT / 2
      && r.base * r.rates.ibsUf - UNIT / 2 <= UNIT * r.ibsUf <= r.base * r.rates.ibsUf + UNIT / 2
      && r.base * r.rates.ibsMun - UNIT / 2 <= UNIT * r.ibsMun <= r.base * r.rates.ibsMun + UNIT / 2
      && r.ibsRate == r.rates.ibsUf + r.rates.ibsMun
  {
    var r := Assess(i, s);
    ToCentsIsNear(r.base * r.rates.cbs);
    ToCentsIsNear(r.base * r.rates.ibsUf);
    ToCentsIsNear(r.base * r.rates.ibsMun);
  }

  /** The default rates: 0.9% CBS; the IBS is 0.1% for the state in 2026 and 0.05% for each share later. */
  lemma DefaultRates(period: Period)
    ensures RatesFor(period, DEFAULTS) == if period.Test2026? then Rates(90, 10, 0) else Rates(90, 5, 5)
  {
    HalfUpIsNearest(90.0, 90);
    HalfUpIsNearest(10.0, 10);
  }

  lemma TaxNonNegative(cents: nat, rate: nat)
    ensures Tax(cents, rate) >= 0
  {
    assert cents * rate >= 0;
  }

  /** With non-negative rates and deductions the base lies between zero and the service amount. */
  lemma BaseInRange(i: Input, s: Settings)
    requires i.amountCents >= 0 && i.iss >= 0 && i.pis >= 0 && i.cofins >= 0
    requires i.discount >= 0.0 && i.adjustment >= 0.0
    ensures 0 <= Assess(i, s).base <= Assess(i, s).serv == i.amountCents
  {
    Unfold(i, s);
    TaxNonNegative(i.amountCents, i.iss);
    TaxNonNegative(i.amountCents, i.pis);
    TaxNonNegative(i.amountCents, i.cofins);
  }

  lemma MulMonotone(a: int, b: int, k: nat)
    requires a <= b
    ensures a * k <= b * k
  {
  }

  /** A rounded tax never falls with the amount, and its rise exceeds the exact rise by less than a cent. */
  lemma TaxRise(a: nat, b: nat, rate: nat)
    requires a <= b
    ensures Tax(a, rate) <= Tax(b, rate)
    ensures UNIT * (Tax(b, rate) - Tax(a, rate)) < (b - a) * rate + UNIT
    ensures rate <= UNIT ==> Tax(b, rate) - Tax(a, rate) <= b - a
  {
    MulMonotone(0, a, rate);
    MulMonotone(a, b, rate);
    assert (b - a) * rate == b * rate - a * rate;
    if rate <= UNIT { MulMonotone(rate, UNIT, b - a); }
  }

  /** From 2027 on the base never falls when the amount grows. */
  lemma TransitionBaseIsMonotone(i: Input, more: nat, s: Settings)
    requires 0 <= i.amountCents <= more && 0 <= i.iss <= UNIT && i.year > 2026
    ensures Assess(i, s).base <= Assess(i.(amountCents := more), s).base
  {
    Unfold(i, s);
    Unfold(i.(amountCents := more), s);
    TaxRise(i.amountCents, more, i.iss);
  }

  /** In the test year, with rates summing to at most one, raising the amount never lowers the base
      by more than two cents: three roundings that rise together cost less than three. */
  lemma TestBaseNearlyMonotone(i: Input, more: nat, s: Settings)
    requires 0 <= i.amountCents <= more && i.year <= 2026
    requires i.iss >= 0 && i.pis >= 0 && i.cofins >= 0 && i.iss + i.pis + i.cofins <= UNIT
    ensures Assess(i.(amountCents := more), s).base >= Assess(i, s).base - 2
  {
    var a, d := i.amountCents, more - i.amountCents;
    Unfold(i, s);
    Unfold(i.(amountCents := more), s);
    TaxRise(a, more, i.iss);
    TaxRise(a, more, i.pis);
    TaxRise(a, more, i.cofins);
    assert d * i.iss + d * i.pis + d * i.cofins == (i.iss + i.pis + i.cofins) * d;
    MulMonotone(i.iss + i.pis + i.cofins, UNIT, d);
  }

  /** How much the three rounded taxes rise with the amount. */
  function TaxesRise(i: Input, more: int): int {
    Tax(more, i.iss) - Tax(i.amountCents, i.iss) + Tax(more, i.pis) - Tax(i.amountCents, i.pis)
    + Tax(more, i.cofins) - Tax(i.amountCents, i.cofins)
  }

  /** Exactly when a larger amount keeps the base: there is none to lose, or the rounded taxes rise by no more
      than the amount. */
  lemma TestBaseKeptIff(i: Input, more: nat, s: Settings)
    requires 0 <= i.amountCents <= more && i.year <= 2026
    ensures Assess(i, s).base <= Assess(i.(amountCents := more), s).base
            <==> Assess(i, s).base == 0 || TaxesRise(i, more) <= more - i.amountCents
  {
    Unfold(i, s);
    Unfold(i.(amountCents := more), s);
  }

  /** That is so when the rise leaves two cents after its exact taxes, and always with at most one rate. */
  lemma TestBaseIsMonotoneWhen(i: Input, more: nat, s: Settings)
    requires 0 <= i.amountCents <= more && i.year <= 2026
    requires i.iss >= 0 && i.pis >= 0 && i.cofins >= 0 && i.iss + i.pis + i.cofins <= UNIT
    requires
      || (more - i.amountCents) * (UNIT - (i.iss + i.pis + i.cofins)) >= 2 * UNIT
      || (i.iss == 0 && i.pis == 0) || (i.iss == 0 && i.cofins == 0) || (i.pis == 0 && i.cofins == 0)
    ensures Assess(i, s).base <= Assess(i.(amountCents := more), s).base
  {
    TestBaseKeptIff(i, more, s);
    var a, d := i.amountCents, more - i.amountCents;
    TaxRise(a, more, i.iss);
    TaxRise(a, more, i.pis);
    TaxRise(a, more, i.cofins);
    NoTax(a);
    NoTax(more);
    Spread(d, i.iss, i.pis, i.cofins);
  }

  lemma NoTax(cents: int)
    ensures Tax(cents, 0) == 0
  {
  }

  lemma Spread(d: int, x: int, y: int, z: int)
    ensures d * (UNIT - (x + y + z)) == d * UNIT - d * x - d * y - d * z
  {
    assert d * (x + y + z) == d * x + d * y + d * z;
  }

  /** The two cents are reached: in the test year the base is not monotone. */
  lemma TestBaseFallsByTwoCents()
    ensures var i := Input(101, 3300, 3300, 3300, 2026, 0.0, 0.0);
      && Assess(i, DEFAULTS).base == 2
      && Assess(i.(amountCents := 102), DEFAULTS).base == 0
  {
    Unfold(Input(101, 3300, 3300, 3300, 2026, 0.0, 0.0), DEFAULTS);
    Unfold(Input(102, 3300, 3300, 3300, 2026, 0.0, 0.0), DEFAULTS);
    HalfUpIsNearest(0.0, 0);
  }

  /** A rounded share exceeds its exact share by at most half a cent, and never doubles it. */
  lemma ShareAtMost(n: nat)
    ensures UNIT * ToCents(n) <= n + UNIT / 2 && UNIT / 2 * ToCents(n) <= n
  {
  }

  lemma Whole(base: nat, total: int)
    requires UNIT * total < UNIT * (base + 1) || (base <= 1 && UNIT / 2 * total < UNIT / 2 * (base + 1))
    ensures total <= base
  {
  }

  lemma ThreeShares(base: nat, p: nat, q: nat, r: nat)
    requires p + q + r <= base * (3 * UNIT / 4 - 1)
    ensures ToCents(p) + ToCents(q) + ToCents(r) <= base
  {
    ShareAtMost(p);
    ShareAtMost(q);
    ShareAtMost(r);
    var total := ToCents(p) + ToCents(q) + ToCents(r);
    assert UNIT * total <= 7499 * base + 15000 && 5000 * total <= 7499 * base;
    Whole(base, total);
  }

  lemma TwoShares(base: nat, p: nat, q: nat)
    requires p + q <= base * (UNIT - 1)
    ensures ToCents(p) + ToCents(q) <= base
  {
    ShareAtMost(p);
    ShareAtMost(q);
    var total := ToCents(p) + ToCents(q);
    assert UNIT * total <= 9999 * base + 10000;
    if base == 0 { assert 5000 * total <= 0; } else { Whole(base, total); }
  }

  /** Three taxes stay within any base while their rates sum to less than three quarters. */
  lemma ThreeTaxes(base: nat, x: nat, y: nat, z: nat)
    requires x + y + z < 3 * UNIT / 4
    ensures Tax(base, x) + Tax(base, y) + Tax(base, z) <= base
  {
    MulMonotone(0, base, x);
    MulMonotone(0, base, y);
    MulMonotone(0, base, z);
    assert base * x + base * y + base * z == (x + y + z) * base;
    MulMonotone(x + y + z, 3 * UNIT / 4 - 1, base);
    ThreeShares(base, base * x, base * y, base * z);
  }

  /** Two taxes do while their rates sum to less than one. */
  lemma TwoTaxes(base: nat, x: nat, y: nat)
    requires x + y < UNIT
    ensures Tax(base, x) + Tax(base, y) <= base
  {
    MulMonotone(0, base, x);
    MulMonotone(0, base, y);
    assert base * x + base * y == (x + y) * base;
    MulMonotone(x + y, UNIT - 1, base);
    TwoShares(base, base * x, base * y);
  }

  /** Neither bound can be raised: at three quarters and at one the rounded taxes exceed a base of two cents
      and of one cent. */
  lemma TaxBoundsAreSharp()
    ensures Tax(2, UNIT / 4) + Tax(2, UNIT / 4) + Tax(2, UNIT / 4) == 3
    ensures Tax(1, UNIT / 2) + Tax(1, UNIT / 2) == 2
  {
  }

  /** The IBS is the sum of its two shares, and the taxes never exceed the base while the applied rates sum
      to less than three quarters, or to less than one in the test year, when one of the three is zero. */
  lemma TaxesWithinBase(i: Input, s: Settings)
    ensures var r := Assess(i, s); r.ibs == r.ibsUf + r.ibsMun
    ensures var r := Assess(i, s);
      r.rates.cbs >= 0 && r.rates.ibsUf >= 0
      && r.rates.cbs + r.rates.ibsUf + r.rates.ibsMun < (if r.period.Test2026? then UNIT else 3 * UNIT / 4)
      ==> r.cbs + r.ibs <= r.base
  {
    Unfold(i, s);
    var r := Assess(i, s);
    if r.rates.cbs >= 0 && r.rates.ibsUf >= 0 {
      if r.period.Test2026? && r.rates.cbs + r.rates.ibsUf < UNIT {
        NoTax(r.base);
        TwoTaxes(r.base, r.rates.cbs, r.rates.ibsUf);
      } else if r.rates.cbs + r.rates.ibsUf + r.rates.ibsMun < 3 * UNIT / 4 {
        ThreeTaxes(r.base, r.rates.cbs, r.rates.ibsUf, r.rates.ibsMun);
      }
    }
  }

  lemma DefaultTaxesWithinBase(i: Input)
    ensures Assess(i, DEFAULTS).cbs + Assess(i, DEFAULTS).ibs <= Assess(i, DEFAULTS).base
  {
    HalfUpIsNearest(90.0, 90);
    HalfUpIsNearest(10.0, 10);
    TaxesWithinBase(i, DEFAULTS);
  }

  /** `t` is a nearest whole number of cents to n ten-thousandths of a cent, and the one further from zero when
      two are equally near. */
  ghost predicate IsRounded(n: int, t: int) {
    if n >= 0 then 2 * UNIT * t - UNIT <= 2 * n < 2 * UNIT * t + UNIT
    else 2 * UNIT * t - UNIT < 2 * n <= 2 * UNIT * t + UNIT
  }

  lemma TaxIsRounded(cents: int, rate: int)
    ensures IsRounded(cents * rate, Tax(cents, rate))
  {
  }

  ghost predicate IsRoundedDeduction(x: real, cents: int) {
    if x >= 0.0 then cents as real - 0.5 <= x * 100.0 < cents as real + 0.5
    else cents as real - 0.5 < x * 100.0 <= cents as real + 0.5
  }

  /** Every field of an assessment, read off its inputs: each tax is rounded from its own rate, the deductions and
      the ISS leave the base, PIS and COFINS leave it in the test year only, and it is never negative. */
  lemma AssessmentIs(i: Input, s: Settings)
    ensures var r := Assess(i, s);
      && r.serv == i.amountCents
      && r.period == (if i.year <= 2026 then Test2026 else if i.year <= 2032 then Transition else Full2033)
      && IsRounded(r.serv * i.iss, r.iss) && IsRounded(r.serv * i.pis, r.pis) && IsRounded(r.serv * i.cofins, r.cofins)
      && IsRoundedDeduction(i.discount, r.discount) && IsRoundedDeduction(i.adjustment, r.adjustment)
      && var left := r.serv - r.discount - r.adjustment - r.iss - (if i.year <= 2026 then r.pis + r.cofins else 0);
         r.base == (if left >= 0 then left else 0)
    ensures var r := Assess(i, s);
      && IsRounded(r.base * r.rates.cbs, r.cbs) && IsRounded(r.base * r.rates.ibsUf, r.ibsUf)
      && IsRounded(r.base * r.rates.ibsMun, r.ibsMun)
      && r.ibs == r.ibsUf + r.ibsMun && r.ibsRate == r.rates.ibsUf + r.rates.ibsMun
  {
    Unfold(i, s);
    TaxIsRounded(i.amountCents, i.iss);
    TaxIsRounded(i.amountCents, i.pis);
    TaxIsRounded(i.amountCents, i.cofins);
    var r := Assess(i, s);
    HalfUpIsNearest(i.discount * 100.0, r.discount);
    HalfUpIsNearest(i.adjustment * 100.0, r.adjustment);
    TaxIsRounded(r.base, r.rates.cbs);
    TaxIsRounded(r.base, r.rates.ibsUf);
    TaxIsRounded(r.base, r.rates.ibsMun);
  }

  /** The rates in force: both settings quantized to four decimals in the test year, and later the CBS setting
      with two fixed shares of 0.05%. */
  lemma RatesAre(period: Period, s: Settings)
    ensures var r := RatesFor(period, s);
      && IsQuantized(s.cbs, r.cbs)
      && (if period == Test2026 then IsQuantized(s.ibs, r.ibsUf) && r.ibsMun == 0 else r.ibsUf == 5 && r.ibsMun == 5)
  {
    HalfUpIsNearest(s.cbs * 10000.0, QRate(s.cbs));
    HalfUpIsNearest(s.ibs * 10000.0, QRate(s.ibs));
  }

  ghost predicate IsQuantized(x: real, q: int) {
    if x >= 0.0 then q as real - 0.5 <= x * 10000.0 < q as real + 0.5
    else q as real - 0.5 < x * 10000.0 <= q as real + 0.5
  }
}
