/**
 * The investor engine: an investor's principal earns a flat monthly profit
 * (never compounded) for every whole month since the start date; payments
 * of any kind reduce what is pending.  A Closed investor is settled and
 * accrues nothing.
 */
module InvestorCalculations {
  import opened Wrappers
  import opened Dates
  import opened Money
  import Seqs

  datatype InvestmentType = Finance | Tender | InterestRatePlan
  datatype InvestorStatus = OnTrack | Delayed | Closed
  datatype PaymentType = Principal | Profit | Interest

  datatype InvestorPayment = InvestorPayment(
    id: string,
    amount: real,
    paymentDate: Date,
    paymentType: PaymentType,
    remarks: Option<string>)

  datatype Investor = Investor(
    id: string,
    name: string,
    investmentAmount: real,
    investmentType: InvestmentType,
    profitRate: real,
    startDate: Date,
    status: InvestorStatus,
    payments: seq<InvestorPayment>)

  datatype InvestorMetrics = InvestorMetrics(
    currentBalance: real,
    accumulatedProfit: real,
    totalPaid: real,
    missedMonths: int,
    monthlyProfit: real,
    status: InvestorStatus)

  datatype InvestorSummary = InvestorSummary(
    totalInvestors: nat,
    totalInvestment: real,
    totalProfitEarned: real,
    totalPaidToInvestors: real,
    totalPendingProfit: real,
    overallProfitLoss: real)

  function PaymentAmount(p: InvestorPayment): real {
    p.amount
  }

  /** Every payment counts, whatever its `payment_type`. */
  function TotalPaid(payments: seq<InvestorPayment>): (r: real)
    ensures payments == [] ==> r == 0.0
  {
    Seqs.Sum(payments, PaymentAmount)
  }

  /**
   * Whole month-anniversaries of `start` reached by `now`: the difference
   * in months, one less when today's day of the month is before the start
   * day, and never negative.
   */
  function MonthsCompleted(start: Date, now: Date): (n: nat)
    ensures var f := MonthIndex(now) - MonthIndex(start) - (if now.day < start.day then 1 else 0);
            n as int == if f > 0 then f else 0
  {
    var months := (now.year - start.year) * 12 + (now.month - start.month);
    var months' := if now.day < start.day then months - 1 else months;
    if months' > 0 then months' else 0
  }

  /** For every k >= 1: the k-th anniversary has been reached exactly when k is at most the months completed. */
  lemma MonthsCompletedCountsAnniversaries(start: Date, now: Date, k: nat)
    requires k >= 1
    ensures NotAfter(AddMonths(start, k), now) <==> k <= MonthsCompleted(start, now)
  {
  }

  /** `calculateInvestorMetrics`. */
  function Metrics(investor: Investor, now: Date): (r: InvestorMetrics)
    ensures r.totalPaid == TotalPaid(investor.payments)
    ensures r.missedMonths >= 0
    ensures investor.status == Closed ==>
              && r.status == Closed && r.missedMonths == 0 && r.currentBalance == 0.0 && r.monthlyProfit == 0.0
              && r.accumulatedProfit == Max(0.0, r.totalPaid - investor.investmentAmount)
    ensures investor.status != Closed ==>
              r == Accrual(investor.investmentAmount, investor.profitRate, MonthsCompleted(investor.startDate, now), TotalPaid(investor.payments))
  {
    var totalPaid := TotalPaid(investor.payments);
    if investor.status == Closed then
      InvestorMetrics(0.0, Max(0.0, totalPaid - investor.investmentAmount), totalPaid, 0, 0.0, Closed)
    else
      Accrual(investor.investmentAmount, investor.profitRate, MonthsCompleted(investor.startDate, now), totalPaid)
  }

  /** The metrics of an open investor from its principal, rate, whole months completed and total paid. */
  function Accrual(investmentAmount: real, profitRate: real, monthsCompleted: nat, totalPaid: real): (r: InvestorMetrics)
    ensures r.totalPaid == totalPaid && r.status != Closed
    ensures r.monthlyProfit == investmentAmount * (profitRate / 100.0)
    ensures r.accumulatedProfit == r.monthlyProfit * monthsCompleted as real
    ensures r.status == Delayed <==> r.accumulatedProfit - totalPaid > Epsilon
    ensures r.currentBalance == investmentAmount + Max(0.0, r.accumulatedProfit - totalPaid)
    ensures r.missedMonths == MissedMonths(r.accumulatedProfit - totalPaid, r.monthlyProfit)
  {
    var monthlyProfit := investmentAmount * (profitRate / 100.0);
    var accumulatedProfit := monthlyProfit * monthsCompleted as real;
    var pendingProfit := accumulatedProfit - totalPaid;
    var missedMonths := MissedMonths(pendingProfit, monthlyProfit);
    var status := if pendingProfit > Epsilon then Delayed else OnTrack;
    var currentBalance := investmentAmount + Max(0.0, pendingProfit);
    InvestorMetrics(currentBalance, accumulatedProfit, totalPaid, missedMonths, monthlyProfit, status)
  }

  /**
   * Missed months, `Math.floor(Math.max(0, pendingProfit) / monthlyProfit)`:
   * the whole monthly profits the pending profit covers,
   * `missed * monthly <= pending < (missed + 1) * monthly`; none when the
   * monthly profit is not positive.
   */
  function MissedMonths(pendingProfit: real, monthlyProfit: real): (n: nat)
    ensures monthlyProfit <= 0.0 ==> n == 0
    ensures monthlyProfit > 0.0 ==>
              n as real * monthlyProfit <= Max(0.0, pendingProfit) < (n + 1) as real * monthlyProfit
  {
    if monthlyProfit > 0.0 then WholeMultiples(Max(0.0, pendingProfit), monthlyProfit, 0) else 0
  }

  /** The number of whole `monthly` amounts in `pending`, counting up from `n`. */
  function WholeMultiples(pending: real, monthly: real, n: nat): (r: nat)
    requires monthly > 0.0 && n as real * monthly <= pending
    ensures r as real * monthly <= pending < (r + 1) as real * monthly
    decreases (pending / monthly).Floor - n
  {
    FloorBracket(pending, monthly);
    BelowFloor(pending, monthly, n);
    if (n + 1) as real * monthly > pending then n
    else
      BelowFloor(pending, monthly, n + 1);
      WholeMultiples(pending, monthly, n + 1)
  }

  /** A whole number of monthly amounts that fits in `pending` is at most the floor of the quotient. */
  lemma BelowFloor(pending: real, monthly: real, n: nat)
    requires monthly > 0.0 && n as real * monthly <= pending
    ensures n <= (pending / monthly).Floor
  {
    ScaleBack(n as real, monthly, pending);
    assert n as real <= pending / monthly < (pending / monthly).Floor as real + 1.0;
  }

  /** The count agrees with the floor of the quotient, as in the original expression. */
  lemma MissedMonthsIsFloor(pendingProfit: real, monthlyProfit: real)
    requires monthlyProfit > 0.0
    ensures MissedMonths(pendingProfit, monthlyProfit) == (Max(0.0, pendingProfit) / monthlyProfit).Floor
  {
    var pending := Max(0.0, pendingProfit);
    var n := MissedMonths(pendingProfit, monthlyProfit);
    ScaleBack(n as real, monthlyProfit, pending);
    ScaleBack((n + 1) as real, monthlyProfit, pending);
    assert n as real <= pending / monthlyProfit < n as real + 1.0;
  }

  /** Dividing a bracket by the positive monthly amount. */
  lemma ScaleBack(x: real, monthly: real, pending: real)
    requires monthly > 0.0
    ensures x * monthly <= pending ==> x <= pending / monthly
    ensures pending < x * monthly ==> pending / monthly < x
  {
    var q := pending / monthly;
    assert q * monthly == pending;
    if x * monthly <= pending && x > q {
      MultiplyBoth(q, x, monthly);
    }
    if pending < x * monthly && q >= x {
      MultiplyBoth(x, q, monthly);
    }
  }

  /** The whole number of `monthly` amounts in `pending` brackets it. */
  lemma FloorBracket(pending: real, monthly: real)
    requires monthly > 0.0
    ensures var n := (pending / monthly).Floor;
            n as real * monthly <= pending < (n + 1) as real * monthly
  {
    var q := pending / monthly;
    var n := q.Floor;
    assert n as real <= q < n as real + 1.0;
    assert q * monthly == pending;
    MultiplyBoth(n as real, q, monthly);
    MultiplyBoth(q, n as real + 1.0, monthly);
    assert (n + 1) as real == n as real + 1.0;
    assert pending < (n as real + 1.0) * monthly;
  }

  lemma MultiplyBoth(a: real, b: real, c: real)
    requires c > 0.0 && a <= b
    ensures a * c <= b * c
    ensures a < b ==> a * c < b * c
  {
  }

  /** The metrics never look at the investment type. */
  lemma MetricsIgnoreInvestmentType(investor: Investor, now: Date, t: InvestmentType)
    ensures Metrics(investor.(investmentType := t), now) == Metrics(investor, now)
  {
  }

  /** A Closed investor's metrics do not depend on the start date or on today. */
  lemma ClosedIgnoresDates(investor: Investor, now: Date, start: Date, later: Date)
    requires investor.status == Closed
    ensures Metrics(investor.(startDate := start), later) == Metrics(investor, now)
  {
  }

  /** A payment of any type lowers the pending profit of an open investor by its amount. */
  lemma PaymentReducesPending(investor: Investor, now: Date, p: InvestorPayment)
    requires investor.status != Closed
    ensures var before := Metrics(investor, now);
            var after := Metrics(investor.(payments := investor.payments + [p]), now);
            && after.accumulatedProfit == before.accumulatedProfit
            && after.totalPaid == before.totalPaid + p.amount
  {
    Seqs.SumAppend(investor.payments, [p], PaymentAmount);
    assert [p][1..] == [];
  }

  // ---------------------------------------------------------------- summary

  function InvestmentOf(investor: Investor): real {
    investor.investmentAmount
  }

  function PaidTo(now: Date): Investor -> real {
    investor => Metrics(investor, now).totalPaid
  }

  function EarnedBy(now: Date): Investor -> real {
    investor => Metrics(investor, now).accumulatedProfit
  }

  /** Each investor's pending profit, clamped at zero. */
  function PendingOf(now: Date): Investor -> real {
    investor => var m := Metrics(investor, now); Max(0.0, m.accumulatedProfit - m.totalPaid)
  }

  /** The summary as sums over all investors. */
  function Summary(investors: seq<Investor>, now: Date): (r: InvestorSummary)
    ensures r.totalPendingProfit >= 0.0
  {
    var totalInvestment := Seqs.Sum(investors, InvestmentOf);
    var totalPaid := Seqs.Sum(investors, PaidTo(now));
    Seqs.SumNonNegative(investors, PendingOf(now));
    InvestorSummary(
      |investors|,
      totalInvestment,
      Seqs.Sum(investors, EarnedBy(now)),
      totalPaid,
      Seqs.Sum(investors, PendingOf(now)),
      totalPaid - totalInvestment)
  }

  /** `calculateInvestorSummary`: one pass over the investors, accumulating into the summary record. */
  method CalculateInvestorSummary(investors: seq<Investor>, now: Date) returns (summary: InvestorSummary)
    ensures summary == Summary(investors, now)
    ensures summary.totalInvestors == |investors|
    ensures summary.overallProfitLoss == summary.totalPaidToInvestors - summary.totalInvestment
    ensures summary.totalPendingProfit >= 0.0
  {
    summary := InvestorSummary(|investors|, 0.0, 0.0, 0.0, 0.0, 0.0);
    var i := 0;
    while i < |investors|
      invariant 0 <= i <= |investors|
      invariant summary.totalInvestors == |investors| && summary.overallProfitLoss == 0.0
      invariant summary.totalInvestment == Seqs.Sum(investors[..i], InvestmentOf)
      invariant summary.totalPaidToInvestors == Seqs.Sum(investors[..i], PaidTo(now))
      invariant summary.totalProfitEarned == Seqs.Sum(investors[..i], EarnedBy(now))
      invariant summary.totalPendingProfit == Seqs.Sum(investors[..i], PendingOf(now))
    {
      var investor := investors[i];
      var metrics := Metrics(investor, now);
      var pendingProfit := Max(0.0, metrics.accumulatedProfit - metrics.totalPaid);
      Seqs.SumStep(investors, i, InvestmentOf);
      Seqs.SumStep(investors, i, PaidTo(now));
      Seqs.SumStep(investors, i, EarnedBy(now));
      Seqs.SumStep(investors, i, PendingOf(now));
      summary := summary.(
        totalInvestment := summary.totalInvestment + investor.investmentAmount,
        totalPaidToInvestors := summary.totalPaidToInvestors + metrics.totalPaid,
        totalProfitEarned := summary.totalProfitEarned + metrics.accumulatedProfit,
        totalPendingProfit := summary.totalPendingProfit + pendingProfit);
      i := i + 1;
    }
    assert investors[..i] == investors;
    summary := summary.(overallProfitLoss := summary.totalPaidToInvestors - summary.totalInvestment);
  }

  /** The summary does not depend on the order of the investors. */
  lemma SummaryOrderIrrelevant(investors: seq<Investor>, reordered: seq<Investor>, now: Date)
    requires multiset(reordered) == multiset(investors)
    ensures Summary(reordered, now) == Summary(investors, now)
  {
    assert |reordered| == |multiset(reordered)| == |multiset(investors)| == |investors|;
    Seqs.SumPermutation(reordered, investors, InvestmentOf);
    Seqs.SumPermutation(reordered, investors, PaidTo(now));
    Seqs.SumPermutation(reordered, investors, EarnedBy(now));
    Seqs.SumPermutation(reordered, investors, PendingOf(now));
  }
}
