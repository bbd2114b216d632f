/** The depreciation engine: how much value an asset loses over a date range
    and what its book value becomes, by the straight-line or the
    declining-balance method. Money is exact (`real`). */
module Depreciation {
  import opened Types

  /** What a depreciation computation returns: the amount depreciated and
      the new book value. */
  datatype Quote = Quote(amount: real, newValue: real)

  /** Whole calendar months from `start` to `end`; day and time of day are
      ignored, and the count is negative when `end` is in an earlier month. */
  function MonthsBetween(start: Date, end: Date): int
  {
    (end.year - start.year) * 12 + (end.month - start.month)
  }

  /** For calendar months (1 to 12), a positive month count means the
      window runs forward in time, and a window running forward in time
      never counts negative months. */
  lemma MonthsFollowOrder(start: Date, end: Date)
    requires 1 <= start.month <= 12 && 1 <= end.month <= 12
    ensures MonthsBetween(start, end) > 0 ==> Before(start, end)
    ensures Before(start, end) ==> MonthsBetween(start, end) >= 0
  {
  }

  /** Day and time of day do not count: the first of January to the first
      of June is five months. */
  lemma JanuaryToJuneIsFiveMonths(day1: nat, day2: nat)
    ensures MonthsBetween(Date(2023, 1, day1), Date(2023, 6, day2)) == 5
  {
  }

  function Max(a: real, b: real): real
  {
    if a >= b then a else b
  }

  /** The current value counts only when it is set and non-zero. */
  predicate HasCurrentValue(a: IntelligenceAsset)
  {
    a.currentValue.Some? && a.currentValue.value != 0.0
  }

  /** The book value a computation starts from: the current value when it
      counts, the initial value otherwise. */
  function BookValue(a: IntelligenceAsset): real
  {
    if HasCurrentValue(a) then a.currentValue.value else a.initialValue
  }

  /** The new value both methods return once months are positive: the
      salvage value or, when above it, the current value if it counts and
      otherwise the initial value less the amount. The amount is subtracted
      only from the initial value, and only when no current value counts. */
  function ValueAfter(a: IntelligenceAsset, salvage: real, amount: real): (r: real)
    ensures r >= salvage
    ensures HasCurrentValue(a) ==> r == Max(salvage, a.currentValue.value)
  {
    Max(salvage, if HasCurrentValue(a) then a.currentValue.value else a.initialValue - amount)
  }

  /** Straight-line depreciation: the depreciable base (initial value less
      salvage) spread evenly over the useful life, for the months elapsed. */
  function LinearDepreciation(a: IntelligenceAsset, start: Date, end: Date, salvage: real): (r: Result<Quote>)
    ensures MonthsBetween(start, end) <= 0 ==> r == Success(Quote(0.0, BookValue(a)))
    ensures MonthsBetween(start, end) > 0 && a.usefulLifeMonths == 0 ==> r == Failure(DivisionByZero)
    ensures MonthsBetween(start, end) > 0 && a.usefulLifeMonths != 0 ==>
      && r.Success?
      && r.value.amount == (a.initialValue - salvage) * (MonthsBetween(start, end) as real) / (a.usefulLifeMonths as real)
      && r.value.newValue >= salvage
  {
    var months := MonthsBetween(start, end);
    if months <= 0 then Success(Quote(0.0, BookValue(a)))
    else if a.usefulLifeMonths == 0 then Failure(DivisionByZero)
    else
      var base := a.initialValue - salvage;
      var monthlyRate := 1.0 / (a.usefulLifeMonths as real);
      var amount := base * monthlyRate * (months as real);
      Success(Quote(amount, ValueAfter(a, salvage, amount)))
  }

  /** Where the declining-balance schedule ends: the accumulated amount, the
      running value, and whether it stopped early at the salvage floor. */
  datatype Run = Run(amount: real, running: real, stoppedEarly: bool)

  /** The declining-balance schedule with `months` months left, from an
      accumulated `amount` and a `running` value: each month takes `rate` of
      the running value, unless that would take it below `salvage`, in which
      case the final month takes exactly what is left above salvage and the
      schedule stops. */
  function Schedule(amount: real, running: real, rate: real, salvage: real, months: nat): Run
    decreases months
  {
    if months == 0 then Run(amount, running, false)
    else
      var monthly := running * rate;
      if running - monthly < salvage then Run(amount + (running - salvage), running, true)
      else Schedule(amount + monthly, running - monthly, rate, salvage, months - 1)
  }

  /** One month of the schedule. */
  lemma ScheduleStep(amount: real, running: real, rate: real, salvage: real, months: nat)
    requires months > 0
    ensures var monthly := running * rate;
      Schedule(amount, running, rate, salvage, months)
        == if running - monthly < salvage then Run(amount + (running - salvage), running, true)
           else Schedule(amount + monthly, running - monthly, rate, salvage, months - 1)
  {
  }

  /** The schedule's invariant: what is accumulated plus what is still
      running equals where it began; an early stop leaves exactly the salvage
      value; a schedule that runs to the end stays at or above salvage; and
      with a non-negative rate from a value at or above a non-negative
      salvage, the amount taken lies between nothing and everything above
      salvage. */
  lemma {:induction false} ScheduleInvariant(amount: real, running: real, rate: real, salvage: real, months: nat)
    ensures var r := Schedule(amount, running, rate, salvage, months);
      && (!r.stoppedEarly ==> r.amount + r.running == amount + running)
      && (r.stoppedEarly ==> r.amount == amount + running - salvage)
      && (months > 0 && !r.stoppedEarly ==> r.running >= salvage)
      && (rate >= 0.0 && 0.0 <= salvage <= running ==> amount <= r.amount <= amount + running - salvage)
    decreases months
  {
    if months > 0 {
      var monthly := running * rate;
      if running - monthly >= salvage {
        if rate >= 0.0 && 0.0 <= salvage <= running {
          assert monthly >= 0.0;
        }
        ScheduleInvariant(amount + monthly, running - monthly, rate, salvage, months - 1);
      }
    }
  }

  /** Declining-balance depreciation as a value: the schedule from the book
      value at `rateMultiplier / usefulLifeMonths` per month. */
  function DecliningBalanceValue(a: IntelligenceAsset, start: Date, end: Date, salvage: real, rateMultiplier: real): Result<Quote>
  {
    var months := MonthsBetween(start, end);
    if months <= 0 then Success(Quote(0.0, BookValue(a)))
    else if a.usefulLifeMonths == 0 then Failure(DivisionByZero)
    else
      var run := Schedule(0.0, BookValue(a), rateMultiplier / (a.usefulLifeMonths as real), salvage, months);
      Success(Quote(run.amount, ValueAfter(a, salvage, run.amount)))
  }

  /** Declining-balance depreciation, month by month, stopping early at the
      salvage floor. */
  method DecliningBalanceDepreciation(a: IntelligenceAsset, start: Date, end: Date, salvage: real, rateMultiplier: real)
    returns (r: Result<Quote>)
    ensures r == DecliningBalanceValue(a, start, end, salvage, rateMultiplier)
  {
    var months := MonthsBetween(start, end);
    if months <= 0 {
      return Success(Quote(0.0, BookValue(a)));
    }
    if a.usefulLifeMonths == 0 {
      return Failure(DivisionByZero);
    }
    var rate := rateMultiplier / (a.usefulLifeMonths as real);
    var currentValue := BookValue(a);
    var amount := 0.0;
    ghost var run := Schedule(0.0, currentValue, rate, salvage, months);
    var i := 0;
    while i < months
      invariant 0 <= i <= months
      invariant Schedule(amount, currentValue, rate, salvage, months - i) == run
    {
      var monthly := currentValue * rate;
      ScheduleStep(amount, currentValue, rate, salvage, months - i);
      if currentValue - monthly < salvage {
        amount := amount + (currentValue - salvage);
        break;
      }
      amount := amount + monthly;
      currentValue := currentValue - monthly;
      i := i + 1;
    }
    assert amount == run.amount;
    r := Success(Quote(amount, ValueAfter(a, salvage, amount)));
  }

  /** Depreciation by the asset's own method, as a value. */
  function Depreciation(a: IntelligenceAsset, start: Date, end: Date, salvage: real, rateMultiplier: real): Result<Quote>
  {
    match a.depreciationMethod
    case Linear => LinearDepreciation(a, start, end, salvage)
    case DecliningBalance => DecliningBalanceValue(a, start, end, salvage, rateMultiplier)
  }

  /** Depreciation by the asset's own method. */
  method CalculateDepreciation(a: IntelligenceAsset, start: Date, end: Date, salvage: real, rateMultiplier: real)
    returns (r: Result<Quote>)
    ensures r == Depreciation(a, start, end, salvage, rateMultiplier)
  {
    match a.depreciationMethod
    case Linear =>
      r := LinearDepreciation(a, start, end, salvage);
    case DecliningBalance =>
      r := DecliningBalanceDepreciation(a, start, end, salvage, rateMultiplier);
  }

  /** A range of zero or negative months changes nothing, by either method:
      the amount is zero and the value is the book value. The only failure is
      a zero-month life over a positive number of months. */
  lemma {:induction false} NoMonthsNoDepreciation(a: IntelligenceAsset, start: Date, end: Date, salvage: real, rateMultiplier: real)
    ensures MonthsBetween(start, end) <= 0 ==>
      Depreciation(a, start, end, salvage, rateMultiplier) == Success(Quote(0.0, BookValue(a)))
    ensures Depreciation(a, start, end, salvage, rateMultiplier).Failure? <==>
      MonthsBetween(start, end) > 0 && a.usefulLifeMonths == 0
  {
  }

  /** Once months are positive, the new value is never below salvage; an
      asset whose current value is set and non-zero keeps that value (raised
      to salvage if below it) whatever amount is depreciated. Every asset the
      ledger creates has such a value. */
  lemma {:induction false} NewValueNotBelowSalvage(a: IntelligenceAsset, start: Date, end: Date, salvage: real, rateMultiplier: real)
    requires MonthsBetween(start, end) > 0 && a.usefulLifeMonths != 0
    ensures var r := Depreciation(a, start, end, salvage, rateMultiplier);
      && r.Success?
      && r.value.newValue >= salvage
      && (HasCurrentValue(a) ==> r.value.newValue == Max(salvage, a.currentValue.value))
      && (!HasCurrentValue(a) ==> r.value.newValue == Max(salvage, a.initialValue - r.value.amount))
  {
  }

  /** Declining-balance amounts: with a non-negative multiplier and a
      positive life, from a book value at or above a non-negative salvage,
      the amount lies between zero and the book value less salvage; when the
      schedule stops early it is exactly the book value less salvage. */
  lemma {:induction false} DecliningBalanceBounds(a: IntelligenceAsset, start: Date, end: Date, salvage: real, rateMultiplier: real)
    requires a.depreciationMethod == DecliningBalance
    requires rateMultiplier >= 0.0 && a.usefulLifeMonths > 0
    requires 0.0 <= salvage <= BookValue(a)
    ensures var r := Depreciation(a, start, end, salvage, rateMultiplier);
      && r.Success?
      && 0.0 <= r.value.amount <= BookValue(a) - salvage
      && (MonthsBetween(start, end) > 0
          && Schedule(0.0, BookValue(a), rateMultiplier / (a.usefulLifeMonths as real), salvage, MonthsBetween(start, end)).stoppedEarly
          ==> r.value.amount == BookValue(a) - salvage)
  {
    var months := MonthsBetween(start, end);
    if months > 0 {
      var rate := rateMultiplier / (a.usefulLifeMonths as real);
      assert rate >= 0.0;
      ScheduleInvariant(0.0, BookValue(a), rate, salvage, months);
    }
  }

  /** Without a current value that counts, the declining-balance new value is
      the schedule's final running value, or exactly salvage when it stopped
      early: the separately computed `max(salvage, initial - amount)` agrees
      with the loop. */
  lemma {:induction false} DecliningNewValueIsFinalRunning(a: IntelligenceAsset, start: Date, end: Date, salvage: real, rateMultiplier: real)
    requires a.depreciationMethod == DecliningBalance && !HasCurrentValue(a)
    requires MonthsBetween(start, end) > 0 && a.usefulLifeMonths != 0
    ensures var run := Schedule(0.0, a.initialValue, rateMultiplier / (a.usefulLifeMonths as real), salvage, MonthsBetween(start, end));
      Depreciation(a, start, end, salvage, rateMultiplier)
        == Success(Quote(run.amount, if run.stoppedEarly then salvage else run.running))
  {
    var rate := rateMultiplier / (a.usefulLifeMonths as real);
    ScheduleInvariant(0.0, a.initialValue, rate, salvage, MonthsBetween(start, end));
  }

  /** The worked example: a 10000 asset with a twelve-month life and no
      current value, depreciated from January to June (five months) at the
      default double-declining rate, loses more than half its value, more
      than the straight-line method takes over the same months. */
  lemma DecliningExampleExceedsLinear(a: IntelligenceAsset, day1: nat, day2: nat)
    requires a.initialValue == 10000.0 && a.usefulLifeMonths == 12 && a.currentValue == None
    ensures var start, end := Date(2023, 1, day1), Date(2023, 6, day2);
      var declining := Depreciation(a.(depreciationMethod := DecliningBalance), start, end, 0.0, 2.0);
      var linear := Depreciation(a.(depreciationMethod := Linear), start, end, 0.0, 2.0);
      && declining.Success? && linear.Success?
      && declining.value.amount > 5000.0 > linear.value.amount
      && declining.value.newValue < 5000.0
  {
    var rate := 2.0 / 12.0;
    assert Schedule(0.0, 10000.0, rate, 0.0, 5) == Schedule(10000.0 * rate, 10000.0 - 10000.0 * rate, rate, 0.0, 4);
    var v1 := 10000.0 - 10000.0 * rate;
    assert v1 == 10000.0 * 5.0 / 6.0;
    var v2 := v1 - v1 * rate;
    assert Schedule(10000.0 * rate, v1, rate, 0.0, 4) == Schedule(10000.0 - v2, v2, rate, 0.0, 3);
    var v3 := v2 - v2 * rate;
    assert Schedule(10000.0 - v2, v2, rate, 0.0, 3) == Schedule(10000.0 - v3, v3, rate, 0.0, 2);
    var v4 := v3 - v3 * rate;
    assert Schedule(10000.0 - v3, v3, rate, 0.0, 2) == Schedule(10000.0 - v4, v4, rate, 0.0, 1);
    var v5 := v4 - v4 * rate;
    assert Schedule(10000.0 - v4, v4, rate, 0.0, 1) == Schedule(10000.0 - v5, v5, rate, 0.0, 0);
    assert v5 == 10000.0 * 3125.0 / 7776.0;
  }

  /** The same example for an asset as the ledger creates it, with its
      current value set to its initial value: the amount is the same, but
      the new value stays 10000, because a non-zero current value is taken
      whatever the amount. */
  lemma DecliningExampleCreatedAsset(a: IntelligenceAsset, day1: nat, day2: nat)
    requires a.initialValue == 10000.0 && a.usefulLifeMonths == 12 && a.currentValue == Some(10000.0)
    ensures var declining := Depreciation(a.(depreciationMethod := DecliningBalance), Date(2023, 1, day1), Date(2023, 6, day2), 0.0, 2.0);
      && declining.Success?
      && declining.value.amount > 5000.0
      && declining.value.newValue == 10000.0
  {
    DecliningExampleExceedsLinear(a.(currentValue := None), day1, day2);
  }

  /** Real-arithmetic helper for the nonlinear step of `ScheduleNeverExhausts`. */
  lemma PositiveProduct(x: real, y: real)
    requires x > 0.0 && y > 0.0
    ensures x * y > 0.0
  {
  }

  /** Real-arithmetic helper for the rate bound in `DecliningFullLifeBelowLinear`. */
  lemma QuotientBelowOne(x: real, y: real)
    requires 0.0 <= x < y
    ensures x / y < 1.0
  {
  }

  /** With no salvage floor and a monthly rate below one, the schedule
      never stops early and never uses up the running value. */
  lemma {:induction false} ScheduleNeverExhausts(amount: real, running: real, rate: real, months: nat)
    requires 0.0 <= rate < 1.0 && running > 0.0
    ensures var r := Schedule(amount, running, rate, 0.0, months);
      !r.stoppedEarly && r.running > 0.0 && r.amount < amount + running
    decreases months
  {
    if months > 0 {
      var monthly := running * rate;
      PositiveProduct(running, 1.0 - rate);
      assert running - monthly == running * (1.0 - rate);
      ScheduleNeverExhausts(amount + monthly, running - monthly, rate, months - 1);
    }
  }

  /** Declining balance does not always take more than straight line: over
      the whole useful life, with no salvage and a rate multiplier below the
      life in months, straight line takes the full initial value while
      declining balance always leaves part of it. For 10000 over 12 months
      at the default multiplier, declining balance takes about 8878. */
  lemma DecliningFullLifeBelowLinear(a: IntelligenceAsset, start: Date, end: Date, rateMultiplier: real)
    requires a.currentValue == None && a.initialValue > 0.0 && a.usefulLifeMonths > 0
    requires MonthsBetween(start, end) == a.usefulLifeMonths
    requires 0.0 <= rateMultiplier < a.usefulLifeMonths as real
    ensures var declining := Depreciation(a.(depreciationMethod := DecliningBalance), start, end, 0.0, rateMultiplier);
      var linear := Depreciation(a.(depreciationMethod := Linear), start, end, 0.0, rateMultiplier);
      && declining.Success? && linear.Success?
      && linear.value.amount == a.initialValue
      && 0.0 < a.initialValue - declining.value.amount
  {
    var life := a.usefulLifeMonths as real;
    var rate := rateMultiplier / life;
    QuotientBelowOne(rateMultiplier, life);
    ScheduleNeverExhausts(0.0, a.initialValue, rate, a.usefulLifeMonths);
  }
}
