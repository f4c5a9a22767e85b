/**
 * The loan engine: what a loan is worth today, derived from its terms, its
 * repayment transactions and the current date `now`.
 *
 * Three products share one envelope: Finance (flat monthly interest over a
 * fixed number of months), Tender (a discount loan repaid within a number of
 * days) and InterestRate (interest compounding month by month on the unpaid
 * part).  A loan's status is recomputed from scratch on every call.
 */
module PlanCalculations {
  import opened Wrappers
  import opened Dates
  import opened Money
  import Seqs

  datatype LoanType = Finance | Tender | InterestRate
  datatype DurationUnit = Days | Weeks | Months
  datatype LoanStatus = Active | Completed | Overdue

  /**
   * The type-specific terms of a loan.  A missing field is `None`; the
   * engine reads a missing rate as 0 and treats a missing or zero duration
   * as "no final due date".
   */
  datatype Plan =
    | FinancePlan(interestRate: Option<real>, durationInMonths: Option<nat>)
    | TenderPlan(durationInDays: Option<nat>)
    | InterestRatePlan(interestRate: Option<real>, durationValue: Option<nat>, durationUnit: Option<DurationUnit>)

  datatype Transaction = Transaction(id: string, amount: real, paymentDate: Date)

  datatype Loan = Loan(
    id: string,
    customerName: string,
    phone: string,
    plan: Plan,
    loanAmount: real,
    givenAmount: real,
    startDate: Date,
    transactions: seq<Transaction>,
    createdAt: Date)

  /** What the monthly schedule of an InterestRate loan yields. */
  datatype Details = Details(balance: real, nextDueDate: Option<Date>, status: LoanStatus)

  /** The running state of the monthly schedule. */
  datatype ScheduleState = ScheduleState(principal: real, hasOverdueInterest: bool)

  function TypeOf(plan: Plan): LoanType {
    match plan
    case FinancePlan(_, _) => Finance
    case TenderPlan(_) => Tender
    case InterestRatePlan(_, _, _) => InterestRate
  }

  /** `loan.interestRate || 0`: percent per month, 0 when absent or for a Tender loan. */
  function Rate(plan: Plan): real {
    match plan
    case FinancePlan(r, _) => r.GetOr(0.0)
    case TenderPlan(_) => 0.0
    case InterestRatePlan(r, _, _) => r.GetOr(0.0)
  }

  // ---------------------------------------------------------------- amounts paid

  function Amount(tx: Transaction): real {
    tx.amount
  }

  /** The sum of all transaction amounts; an absent list is the empty sequence. */
  function AmountPaid(txs: seq<Transaction>): (r: real)
    ensures txs == [] ==> r == 0.0
  {
    Seqs.Sum(txs, Amount)
  }

  /** Recording one more transaction raises the amount paid by exactly its amount. */
  lemma AmountPaidRecord(txs: seq<Transaction>, tx: Transaction)
    ensures AmountPaid(txs + [tx]) == AmountPaid(txs) + tx.amount
  {
    Seqs.SumAppend(txs, [tx], Amount);
    assert [tx][1..] == [];
  }

  /** The amount paid does not depend on the order of the transactions. */
  lemma AmountPaidPermutation(a: seq<Transaction>, b: seq<Transaction>)
    requires multiset(a) == multiset(b)
    ensures AmountPaid(a) == AmountPaid(b)
  {
    Seqs.SumPermutation(a, b, Amount);
  }

  /** The amounts of the transactions dated from `lo` to `hi`, both included. */
  function Windowed(lo: Date, hi: Date): Transaction -> real {
    (tx: Transaction) => if NotAfter(lo, tx.paymentDate) && NotAfter(tx.paymentDate, hi) then tx.amount else 0.0
  }

  function PaidBetween(txs: seq<Transaction>, lo: Date, hi: Date): real {
    Seqs.Sum(txs, Windowed(lo, hi))
  }

  /** The first and the last day of the month with index `index`. */
  function MonthStart(index: int): Date {
    FromMonthIndex(index, 1)
  }

  function MonthEnd(index: int): Date {
    FromMonthIndex(index, 31)
  }

  lemma InMonth(d: Date, index: int)
    ensures NotAfter(MonthStart(index), d) && NotAfter(d, MonthEnd(index)) <==> MonthIndex(d) == index
  {
  }

  /** The payments made in the calendar month with index `index`. */
  function PaidInMonth(txs: seq<Transaction>, index: int): real {
    PaidBetween(txs, MonthStart(index), MonthEnd(index))
  }

  // ---------------------------------------------------------------- final due date

  /** The duration field the loan's type needs is missing (or zero). */
  predicate MissingDuration(plan: Plan) {
    match plan
    case FinancePlan(_, months) => months.None? || months.value == 0
    case TenderPlan(days) => days.None? || days.value == 0
    case InterestRatePlan(_, value, unit) => value.None? || value.value == 0 || unit.None?
  }

  /**
   * `calculateFinalDueDate`: the start date advanced by the loan's duration;
   * weeks count as seven days.
   */
  function FinalDueDate(loan: Loan): (r: Option<Date>)
    ensures r.None? <==> MissingDuration(loan.plan)
    ensures r.Some? ==> Before(loan.startDate, r.value)
  {
    var start := loan.startDate;
    match loan.plan
    case FinancePlan(_, months) =>
      if months.None? || months.value == 0 then None else Some(AddMonths(start, months.value))
    case TenderPlan(days) =>
      if days.None? || days.value == 0 then None else Some(AddDays(start, days.value))
    case InterestRatePlan(_, value, unit) =>
      if value.None? || value.value == 0 || unit.None? then None
      else match unit.value
        case Days => Some(AddDays(start, value.value))
        case Weeks => Some(AddDays(start, value.value * 7))
        case Months => Some(AddMonths(start, value.value))
  }

  // ---------------------------------------------------------------- the monthly schedule

  function MonthlyInterest(principal: real, rate: real): real {
    principal * (rate / 100.0)
  }

  /** The number of calendar months from the start month up to, not including, the month of `now`. */
  function ElapsedMonths(start: Date, now: Date): (n: nat)
    ensures MonthIndex(now) > MonthIndex(start) ==> MonthIndex(start) + n == MonthIndex(now)
    ensures MonthIndex(now) <= MonthIndex(start) ==> n == 0
  {
    if MonthIndex(now) > MonthIndex(start) then MonthIndex(now) - MonthIndex(start) else 0
  }

  /**
   * The schedule after its first `k` months, the first being the month with
   * index `first`: each month the interest on the running principal, less
   * what was paid in that month, is added to the principal.
   */
  function Schedule(loanAmount: real, rate: real, txs: seq<Transaction>, first: int, k: nat): ScheduleState
    decreases k
  {
    if k == 0 then ScheduleState(loanAmount, false)
    else
      var s := Schedule(loanAmount, rate, txs, first, k - 1);
      var unpaid := MonthlyInterest(s.principal, rate) - PaidInMonth(txs, first + k - 1);
      ScheduleState(s.principal + unpaid, s.hasOverdueInterest || unpaid > 0.0)
  }

  /** The interest of month `j` of the schedule (counted from 0) that its payments left unpaid. */
  function UnpaidInterest(loanAmount: real, rate: real, txs: seq<Transaction>, first: int, j: nat): real {
    MonthlyInterest(Schedule(loanAmount, rate, txs, first, j).principal, rate) - PaidInMonth(txs, first + j)
  }

  /** The month after `k` elapsed months: the principal grows by the unpaid interest of month `k`. */
  lemma ScheduleRecurrence(loanAmount: real, rate: real, txs: seq<Transaction>, first: int, k: nat)
    ensures var before := Schedule(loanAmount, rate, txs, first, k).principal;
            Schedule(loanAmount, rate, txs, first, k + 1).principal
            == before + MonthlyInterest(before, rate) - PaidInMonth(txs, first + k)
  {
    assert k + 1 - 1 == k;
  }

  /** One month of the schedule, as the loop performs it. */
  lemma ScheduleStep(loanAmount: real, rate: real, txs: seq<Transaction>, first: int, k: nat)
    ensures var s := Schedule(loanAmount, rate, txs, first, k);
            var unpaid := MonthlyInterest(s.principal, rate) - PaidBetween(txs, MonthStart(first + k), MonthEnd(first + k));
            Schedule(loanAmount, rate, txs, first, k + 1) == ScheduleState(s.principal + unpaid, s.hasOverdueInterest || unpaid > 0.0)
  {
    assert k + 1 - 1 == k;
  }

  /** The overdue flag is set exactly when some elapsed month left interest unpaid. */
  lemma {:induction false} OverdueIffSomeMonthUnpaid(loanAmount: real, rate: real, txs: seq<Transaction>, first: int, k: nat)
    ensures Schedule(loanAmount, rate, txs, first, k).hasOverdueInterest
            <==> exists j: nat :: j < k && UnpaidInterest(loanAmount, rate, txs, first, j) > 0.0
    decreases k
  {
    if k > 0 {
      var before := Schedule(loanAmount, rate, txs, first, k - 1).hasOverdueInterest;
      var unpaid := UnpaidInterest(loanAmount, rate, txs, first, k - 1);
      OverdueIffSomeMonthUnpaid(loanAmount, rate, txs, first, k - 1);
      OverdueStep(loanAmount, rate, txs, first, k - 1);
      if exists j: nat :: j < k && UnpaidInterest(loanAmount, rate, txs, first, j) > 0.0 {
        var j: nat :| j < k && UnpaidInterest(loanAmount, rate, txs, first, j) > 0.0;
        if j < k - 1 {
          assert before;
        }
      }
      if before {
        var j: nat :| j < k - 1 && UnpaidInterest(loanAmount, rate, txs, first, j) > 0.0;
        assert j < k;
      }
    }
  }

  lemma OverdueStep(loanAmount: real, rate: real, txs: seq<Transaction>, first: int, k: nat)
    ensures Schedule(loanAmount, rate, txs, first, k + 1).hasOverdueInterest
            == (Schedule(loanAmount, rate, txs, first, k).hasOverdueInterest || UnpaidInterest(loanAmount, rate, txs, first, k) > 0.0)
  {
    assert k + 1 - 1 == k;
  }

  /** The schedule only looks at what was paid in each of its months. */
  lemma {:induction false} ScheduleDependsOnMonthlyPayments(loanAmount: real, rate: real, a: seq<Transaction>, b: seq<Transaction>, first: int, k: nat)
    requires forall m :: first <= m < first + k ==> PaidInMonth(a, m) == PaidInMonth(b, m)
    ensures Schedule(loanAmount, rate, a, first, k) == Schedule(loanAmount, rate, b, first, k)
    decreases k
  {
    if k > 0 {
      ScheduleDependsOnMonthlyPayments(loanAmount, rate, a, b, first, k - 1);
    }
  }

  lemma PaidBetweenNonNegative(txs: seq<Transaction>, lo: Date, hi: Date)
    requires forall i :: 0 <= i < |txs| ==> txs[i].amount >= 0.0
    ensures PaidBetween(txs, lo, hi) >= 0.0
  {
    Seqs.SumNonNegative(txs, Windowed(lo, hi));
  }

  /** The due date of the next monthly instalment: the start day in this month, or next month once it has passed. */
  function NextMonthlyDueDate(start: Date, now: Date): (r: Date)
    ensures Before(now, r)
    ensures r.day == start.day
    ensures MonthIndex(r) == MonthIndex(now) || MonthIndex(r) == MonthIndex(now) + 1
    ensures MonthIndex(r) == MonthIndex(now) + 1 ==> start.day <= now.day
  {
    var d := Date(now.year, now.month, start.day);
    if NotAfter(d, now) then AddMonths(d, 1) else d
  }

  /** The schedule's state once every fully elapsed month of the loan has been compounded. */
  function ScheduleNow(loan: Loan, now: Date): ScheduleState {
    Schedule(loan.loanAmount, Rate(loan.plan), loan.transactions, MonthIndex(loan.startDate), ElapsedMonths(loan.startDate, now))
  }

  /** `getInterestRateCalculationDetails`: balance, next due date and sub-status of the monthly schedule. */
  function InterestRateDetails(loan: Loan, now: Date): (r: Details)
    ensures r.balance >= 0.0
    ensures r.status == Completed ==> r.balance == 0.0 && r.nextDueDate == None
    ensures r.status != Completed ==> r.balance >= Epsilon && r.nextDueDate.Some? && Before(now, r.nextDueDate.value)
    ensures r.status != Completed ==> (r.status == Overdue <==> ScheduleNow(loan, now).hasOverdueInterest)
  {
    var txs := loan.transactions;
    if loan.loanAmount <= 0.0 && |txs| == 0 then Details(0.0, None, Completed)
    else
      var s := ScheduleNow(loan, now);
      var balance := Max(0.0, s.principal - PaidBetween(txs, FirstOfMonth(now), now));
      if balance < Epsilon then Details(0.0, None, Completed)
      else Details(balance, Some(NextMonthlyDueDate(loan.startDate, now)), if s.hasOverdueInterest then Overdue else Active)
  }

  /**
   * The month loop of `getInterestRateCalculationDetails`: from the first day
   * of the start month up to the first day of the current month, each month's
   * interest less that month's payments is added to the principal.
   */
  method CompoundElapsedMonths(loan: Loan, now: Date) returns (currentPrincipal: real, hasOverdueInterest: bool)
    ensures ScheduleState(currentPrincipal, hasOverdueInterest) == ScheduleNow(loan, now)
  {
    var txs := loan.transactions;
    var rate := Rate(loan.plan);
    currentPrincipal := loan.loanAmount;
    hasOverdueInterest := false;
    var monthIterator := FirstOfMonth(loan.startDate);
    var lastFullMonthStart := FirstOfMonth(now);
    ghost var first := MonthIndex(loan.startDate);
    ghost var elapsed := ElapsedMonths(loan.startDate, now);
    ghost var i: nat := 0;
    OrdinalInjective(monthIterator, MonthStart(first));

    while Before(monthIterator, lastFullMonthStart)
      invariant i <= elapsed
      invariant monthIterator == MonthStart(first + i)
      invariant ScheduleState(currentPrincipal, hasOverdueInterest) == Schedule(loan.loanAmount, rate, txs, first, i)
      decreases elapsed - i
    {
      ScheduleStep(loan.loanAmount, rate, txs, first, i);
      var interestForMonth := MonthlyInterest(currentPrincipal, rate);
      var paidThisMonth := PaidBetween(txs, monthIterator, MonthEnd(MonthIndex(monthIterator)));
      var unpaidInterest := interestForMonth - paidThisMonth;
      if unpaidInterest > 0.0 {
        currentPrincipal := currentPrincipal + unpaidInterest;
        hasOverdueInterest := true;
      } else {
        currentPrincipal := currentPrincipal + unpaidInterest;
      }
      monthIterator := AddMonths(monthIterator, 1);
      i := i + 1;
    }
    assert i == elapsed;
  }

  /** `getInterestRateCalculationDetails`: the early exit, the month loop, then this month's payments and the next due date. */
  method ComputeInterestRateDetails(loan: Loan, now: Date) returns (r: Details)
    ensures r == InterestRateDetails(loan, now)
  {
    var txs := loan.transactions;
    if loan.loanAmount <= 0.0 && |txs| == 0 {
      return Details(0.0, None, Completed);
    }
    var currentPrincipal, hasOverdueInterest := CompoundElapsedMonths(loan, now);
    var lastFullMonthStart := FirstOfMonth(now);
    var paidThisCurrentMonth := PaidBetween(txs, lastFullMonthStart, now);
    currentPrincipal := currentPrincipal - paidThisCurrentMonth;
    var balance := Max(0.0, currentPrincipal);
    if balance < Epsilon {
      return Details(0.0, None, Completed);
    }
    var nextDueDate := Date(now.year, now.month, loan.startDate.day);
    if NotAfter(nextDueDate, now) {
      nextDueDate := AddMonths(nextDueDate, 1);
    }
    var status := if hasOverdueInterest then Overdue else Active;
    r := Details(balance, Some(nextDueDate), status);
  }

  /** The InterestRate schedule once the loan is past its early exit, as a formula. */
  lemma InterestRateOutcome(loan: Loan, now: Date)
    requires !(loan.loanAmount <= 0.0 && loan.transactions == [])
    ensures var remaining := ScheduleNow(loan, now).principal - PaidBetween(loan.transactions, FirstOfMonth(now), now);
            var r := InterestRateDetails(loan, now);
            && (Max(0.0, remaining) < Epsilon ==> r == Details(0.0, None, Completed))
            && (Max(0.0, remaining) >= Epsilon ==> r.balance == remaining && r.status != Completed)
  {
  }

  // ---------------------------------------------------------------- totals, balance, profit, status

  /** The Finance total: the principal plus the flat monthly interest for every month of the term. */
  function FinanceTotal(loanAmount: real, interestRate: Option<real>, durationInMonths: Option<nat>): real {
    var monthlyInterest := loanAmount * (interestRate.GetOr(0.0) / 100.0);
    var totalInterest := monthlyInterest * (durationInMonths.GetOr(0) as real);
    loanAmount + totalInterest
  }

  /** `calculateTotalAmount`: the loan's total liability. */
  function TotalAmount(loan: Loan, now: Date): (r: real)
    ensures TypeOf(loan.plan) == Tender ==> r == loan.loanAmount
    ensures TypeOf(loan.plan) == InterestRate
            ==> r == InterestRateDetails(loan, now).balance + AmountPaid(loan.transactions)
  {
    match loan.plan
    case FinancePlan(rate, months) => FinanceTotal(loan.loanAmount, rate, months)
    case TenderPlan(_) => loan.loanAmount
    case InterestRatePlan(_, _, _) => InterestRateDetails(loan, now).balance + AmountPaid(loan.transactions)
  }

  /** With non-negative terms a Finance loan never owes less than its principal. */
  lemma FinanceTotalCoversPrincipal(loanAmount: real, interestRate: Option<real>, durationInMonths: Option<nat>)
    requires loanAmount >= 0.0 && interestRate.GetOr(0.0) >= 0.0
    ensures FinanceTotal(loanAmount, interestRate, durationInMonths) >= loanAmount
  {
    var monthlyInterest := loanAmount * (interestRate.GetOr(0.0) / 100.0);
    assert monthlyInterest >= 0.0;
    assert monthlyInterest * (durationInMonths.GetOr(0) as real) >= 0.0;
  }

  /** `calculateBalance`: what is still owed today, never negative. */
  function Balance(loan: Loan, now: Date): (r: real)
    ensures r >= 0.0
    ensures TypeOf(loan.plan) == InterestRate ==> r == InterestRateDetails(loan, now).balance
    ensures TypeOf(loan.plan) != InterestRate
            ==> r == Max(0.0, TotalAmount(loan, now) - AmountPaid(loan.transactions))
  {
    if TypeOf(loan.plan) == InterestRate then InterestRateDetails(loan, now).balance
    else Max(0.0, TotalAmount(loan, now) - AmountPaid(loan.transactions))
  }

  /** `calculateLoanProfit`. */
  function Profit(loan: Loan, now: Date): (r: real)
    ensures TypeOf(loan.plan) == Finance ==> r == TotalAmount(loan, now) - loan.givenAmount
    ensures TypeOf(loan.plan) == Tender ==> r == loan.loanAmount - loan.givenAmount
    ensures TypeOf(loan.plan) == InterestRate ==> r >= 0.0
  {
    match loan.plan
    case FinancePlan(_, _) => TotalAmount(loan, now) - loan.givenAmount
    case TenderPlan(_) => loan.loanAmount - loan.givenAmount
    case InterestRatePlan(_, _, _) =>
      // `loan.givenAmount || loan.loanAmount`: a zero given amount falls back to the principal
      var given := if loan.givenAmount != 0.0 then loan.givenAmount else loan.loanAmount;
      Max(0.0, TotalAmount(loan, now) - given)
  }

  /** A Finance loan's profit is its interest for the whole term plus the discount `loanAmount - givenAmount`. */
  lemma FinanceProfitIsInterestPlusDiscount(loan: Loan, now: Date)
    requires loan.plan.FinancePlan?
    ensures Profit(loan, now)
            == loan.loanAmount * (Rate(loan.plan) / 100.0) * (loan.plan.durationInMonths.GetOr(0) as real)
               + (loan.loanAmount - loan.givenAmount)
  {
  }

  /** `calculateNextDueDate`. */
  function NextDueDate(loan: Loan, now: Date): (r: Option<Date>)
    ensures Balance(loan, now) <= 0.0 ==> r == None
    ensures Balance(loan, now) > 0.0 && TypeOf(loan.plan) != InterestRate ==> r == FinalDueDate(loan)
    ensures Balance(loan, now) > 0.0 && TypeOf(loan.plan) == InterestRate
            ==> r.Some? && Before(now, r.value)
  {
    if Balance(loan, now) <= 0.0 then None
    else if TypeOf(loan.plan) == InterestRate then InterestRateDetails(loan, now).nextDueDate
    else FinalDueDate(loan)
  }

  /** The final due date exists and lies strictly before today. */
  predicate PastFinalDueDate(loan: Loan, now: Date) {
    var d := FinalDueDate(loan);
    d.Some? && Before(d.value, now)
  }

  /**
   * `getLoanStatus`: Completed once the balance is at most 0.01; otherwise
   * Overdue after the final due date or, for InterestRate, when the monthly
   * schedule is overdue; otherwise Active.
   */
  function Status(loan: Loan, now: Date): (r: LoanStatus)
    ensures r == Completed <==> Balance(loan, now) <= Epsilon
    ensures r == Overdue <==> (Balance(loan, now) > Epsilon
              && (PastFinalDueDate(loan, now)
                  || (TypeOf(loan.plan) == InterestRate && InterestRateDetails(loan, now).status == Overdue)))
  {
    if Balance(loan, now) <= Epsilon then Completed
    else if PastFinalDueDate(loan, now) then Overdue
    else if TypeOf(loan.plan) == InterestRate && InterestRateDetails(loan, now).status == Overdue then Overdue
    else Active
  }

  /**
   * An open InterestRate loan whose final due date has not passed is
   * Overdue exactly when some elapsed month left interest unpaid.
   */
  lemma InterestRateOverdueIffUnpaidMonth(loan: Loan, now: Date)
    requires loan.plan.InterestRatePlan?
    requires Balance(loan, now) > Epsilon && !PastFinalDueDate(loan, now)
    ensures Status(loan, now) == Overdue
            <==> exists j: nat :: j < ElapsedMonths(loan.startDate, now)
                   && UnpaidInterest(loan.loanAmount, Rate(loan.plan), loan.transactions, MonthIndex(loan.startDate), j) > 0.0
  {
    OverdueIffSomeMonthUnpaid(loan.loanAmount, Rate(loan.plan), loan.transactions, MonthIndex(loan.startDate), ElapsedMonths(loan.startDate, now));
  }

  /** A Finance or Tender loan without transactions owes its whole total. */
  lemma BalanceWithoutTransactions(loan: Loan, now: Date)
    requires TypeOf(loan.plan) != InterestRate && loan.transactions == []
    requires TotalAmount(loan, now) >= 0.0
    ensures Balance(loan, now) == TotalAmount(loan, now)
  {
  }

  // ---------------------------------------------------------------- which transactions matter

  /** A transaction the InterestRate schedule ignores: before the start month or after today. */
  predicate OutsideSchedule(tx: Transaction, start: Date, now: Date) {
    MonthIndex(tx.paymentDate) < MonthIndex(start) || Before(now, tx.paymentDate)
  }

  lemma PaidBetweenAppend(a: seq<Transaction>, b: seq<Transaction>, lo: Date, hi: Date)
    ensures PaidBetween(a + b, lo, hi) == PaidBetween(a, lo, hi) + PaidBetween(b, lo, hi)
  {
    Seqs.SumAppend(a, b, Windowed(lo, hi));
  }

  lemma PaidBetweenSingle(tx: Transaction, lo: Date, hi: Date)
    ensures PaidBetween([tx], lo, hi)
            == if NotAfter(lo, tx.paymentDate) && NotAfter(tx.paymentDate, hi) then tx.amount else 0.0
  {
    assert [tx][1..] == [];
    assert Seqs.Sum([tx], Windowed(lo, hi)) == Windowed(lo, hi)(tx) + Seqs.Sum([tx][1..], Windowed(lo, hi));
  }

  lemma PaidBetweenNone(txs: seq<Transaction>, lo: Date, hi: Date)
    requires forall i :: 0 <= i < |txs| ==> Before(txs[i].paymentDate, lo) || Before(hi, txs[i].paymentDate)
    ensures PaidBetween(txs, lo, hi) == 0.0
  {
    Seqs.SumZero(txs, Windowed(lo, hi));
  }

  /**
   * Recording transactions dated before the start month or after today does
   * not change the InterestRate outcome, for a loan that has started by the
   * current month and has a positive amount (as the API's validation demands).
   */
  lemma IgnoredTransactions(loan: Loan, now: Date, extra: seq<Transaction>)
    requires loan.loanAmount > 0.0
    requires MonthIndex(loan.startDate) <= MonthIndex(now)
    requires forall i :: 0 <= i < |extra| ==> OutsideSchedule(extra[i], loan.startDate, now)
    ensures InterestRateDetails(loan.(transactions := loan.transactions + extra), now)
            == InterestRateDetails(loan, now)
  {
    var txs := loan.transactions;
    var more := txs + extra;
    var first := MonthIndex(loan.startDate);
    var k := ElapsedMonths(loan.startDate, now);
    forall m | first <= m < first + k
      ensures PaidInMonth(more, m) == PaidInMonth(txs, m)
    {
      PaidBetweenAppend(txs, extra, MonthStart(m), MonthEnd(m));
      PaidBetweenNone(extra, MonthStart(m), MonthEnd(m));
    }
    ScheduleDependsOnMonthlyPayments(loan.loanAmount, Rate(loan.plan), more, txs, first, k);
    PaidBetweenAppend(txs, extra, FirstOfMonth(now), now);
    PaidBetweenNone(extra, FirstOfMonth(now), now);
  }

  /** The InterestRate outcome does not depend on the order of the transactions. */
  lemma TransactionOrderIrrelevant(loan: Loan, now: Date, reordered: seq<Transaction>)
    requires multiset(reordered) == multiset(loan.transactions)
    ensures InterestRateDetails(loan.(transactions := reordered), now) == InterestRateDetails(loan, now)
    ensures AmountPaid(reordered) == AmountPaid(loan.transactions)
  {
    var txs := loan.transactions;
    var first := MonthIndex(loan.startDate);
    var k := ElapsedMonths(loan.startDate, now);
    assert |reordered| == |multiset(reordered)| == |multiset(txs)| == |txs|;
    forall m | first <= m < first + k
      ensures PaidInMonth(reordered, m) == PaidInMonth(txs, m)
    {
      Seqs.SumPermutation(reordered, txs, Windowed(MonthStart(m), MonthEnd(m)));
    }
    ScheduleDependsOnMonthlyPayments(loan.loanAmount, Rate(loan.plan), reordered, txs, first, k);
    Seqs.SumPermutation(reordered, txs, Windowed(FirstOfMonth(now), now));
    AmountPaidPermutation(reordered, txs);
  }

  /**
   * Paying at least the balance settles the loan: for an InterestRate loan
   * the payment must be dated in the current month and not after today.
   */
  lemma PayingTheBalanceCompletes(loan: Loan, now: Date, tx: Transaction)
    requires tx.amount >= Balance(loan, now)
    requires TypeOf(loan.plan) == InterestRate
             ==> loan.loanAmount > 0.0 && MonthIndex(tx.paymentDate) == MonthIndex(now) && NotAfter(tx.paymentDate, now)
    ensures var paid := loan.(transactions := loan.transactions + [tx]);
            Balance(paid, now) == 0.0 && Status(paid, now) == Completed
  {
    if TypeOf(loan.plan) == InterestRate {
      PayingInterestRateBalance(loan, now, tx);
    } else {
      AmountPaidRecord(loan.transactions, tx);
    }
  }

  lemma PayingInterestRateBalance(loan: Loan, now: Date, tx: Transaction)
    requires TypeOf(loan.plan) == InterestRate && loan.loanAmount > 0.0
    requires MonthIndex(tx.paymentDate) == MonthIndex(now) && NotAfter(tx.paymentDate, now)
    requires tx.amount >= InterestRateDetails(loan, now).balance
    ensures InterestRateDetails(loan.(transactions := loan.transactions + [tx]), now) == Details(0.0, None, Completed)
  {
    var paid := loan.(transactions := loan.transactions + [tx]);
    var txs := loan.transactions;
    var first := MonthIndex(loan.startDate);
    var k := ElapsedMonths(loan.startDate, now);
    forall m | first <= m < first + k
      ensures PaidInMonth(txs + [tx], m) == PaidInMonth(txs, m)
    {
      PaidBetweenAppend(txs, [tx], MonthStart(m), MonthEnd(m));
      PaidBetweenNone([tx], MonthStart(m), MonthEnd(m));
    }
    ScheduleDependsOnMonthlyPayments(loan.loanAmount, Rate(loan.plan), txs + [tx], txs, first, k);
    assert ScheduleNow(paid, now) == ScheduleNow(loan, now);
    PaidBetweenAppend(txs, [tx], FirstOfMonth(now), now);
    PaidBetweenSingle(tx, FirstOfMonth(now), now);
    var sNow := ScheduleNow(loan, now).principal;
    var before := PaidBetween(txs, FirstOfMonth(now), now);
    assert PaidBetween(txs + [tx], FirstOfMonth(now), now) == before + tx.amount;
    var oldBalance := Max(0.0, sNow - before);
    var newBalance := Max(0.0, sNow - (before + tx.amount));
    assert InterestRateDetails(loan, now).balance == if oldBalance < Epsilon then 0.0 else oldBalance;
    assert newBalance < Epsilon;
  }
}
