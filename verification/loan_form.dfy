/**
 * The loan entry form: the checks on the amounts, the record submitted to
 * the engine, the reset when the loan type changes, and the live previews
 * shown while typing.
 */
module LoanForm {
  import opened Wrappers
  import opened Dates
  import opened PlanCalculations

  /** The form's fields; an unselected loan type is `None`, an empty numeric field is `None` where the form allows null. */
  datatype FormState = FormState(
    customerName: string,
    phone: string,
    loanType: Option<LoanType>,
    startDate: Date,
    loanAmount: real,
    givenAmount: real,
    interestRate: Option<real>,
    durationInMonths: Option<nat>,
    durationInDays: Option<nat>,
    durationValue: Option<nat>,
    durationUnit: Option<DurationUnit>)

  datatype FormError = GivenNotBelowRepayment | GivenAboveLoanAmount

  /** The flat loan record sent to the server; `None` is `null`. */
  datatype LoanData = LoanData(
    customerName: string,
    phone: string,
    loanType: LoanType,
    startDate: Date,
    loanAmount: real,
    givenAmount: real,
    interestRate: Option<real>,
    durationInMonths: Option<nat>,
    durationInDays: Option<nat>,
    durationValue: Option<nat>,
    durationUnit: Option<DurationUnit>)

  datatype SubmitOutcome = Rejected(error: FormError) | NoLoanType | Submitted(data: LoanData)

  predicate ChargesInterest(t: Option<LoanType>) {
    t == Some(Finance) || t == Some(InterestRate)
  }

  /**
   * `validateForm`: a Tender loan must hand out less than is repaid; a
   * Finance or InterestRate loan may not hand out more than its amount
   * (equal is allowed, and a non-positive given amount is never refused).
   */
  function ValidateForm(f: FormState): (r: Option<FormError>)
    ensures r == Some(GivenNotBelowRepayment) <==> f.loanType == Some(Tender) && f.givenAmount >= f.loanAmount
    ensures r == Some(GivenAboveLoanAmount)
            <==> ChargesInterest(f.loanType) && f.givenAmount > f.loanAmount && f.givenAmount > 0.0
    ensures f.loanType.None? ==> r.None?
  {
    if f.loanType == Some(Tender) && f.givenAmount >= f.loanAmount then Some(GivenNotBelowRepayment)
    else if ChargesInterest(f.loanType) && f.givenAmount > f.loanAmount && f.givenAmount > 0.0 then Some(GivenAboveLoanAmount)
    else None
  }

  /** The given amount that is submitted: for Finance and InterestRate a non-positive entry stands for the full loan amount. */
  function FinalGivenAmount(f: FormState): (r: real)
    ensures ChargesInterest(f.loanType) && f.givenAmount <= 0.0 ==> r == f.loanAmount
    ensures !(ChargesInterest(f.loanType) && f.givenAmount <= 0.0) ==> r == f.givenAmount
  {
    if ChargesInterest(f.loanType) && f.givenAmount <= 0.0 then f.loanAmount else f.givenAmount
  }

  /**
   * `handleSubmit`: validation first, then the loan type must be chosen;
   * the submitted record carries only the fields of its type.
   */
  function Submit(f: FormState): (r: SubmitOutcome)
    ensures ValidateForm(f).Some? ==> r == Rejected(ValidateForm(f).value)
    ensures ValidateForm(f).None? && f.loanType.None? ==> r == NoLoanType
    ensures r.Submitted? <==> ValidateForm(f).None? && f.loanType.Some?
    ensures r.Submitted? ==> r.data.loanType == f.loanType.value && r.data.givenAmount == FinalGivenAmount(f)
                             && r.data.loanAmount == f.loanAmount && r.data.startDate == f.startDate
                             && r.data.customerName == f.customerName && r.data.phone == f.phone
  {
    match ValidateForm(f)
    case Some(e) => Rejected(e)
    case None =>
      match f.loanType
      case None => NoLoanType
      case Some(t) =>
        Submitted(LoanData(
          f.customerName, f.phone, t, f.startDate, f.loanAmount, FinalGivenAmount(f),
          if t == Finance || t == InterestRate then f.interestRate else None,
          if t == Finance then f.durationInMonths else None,
          if t == Tender then f.durationInDays else None,
          if t == InterestRate then f.durationValue else None,
          if t == InterestRate then f.durationUnit else None))
  }

  /** The submitted fields that belong to another loan type are null. */
  predicate OnlyTypeFields(d: LoanData) {
    && (d.loanType == Tender ==> d.interestRate.None?)
    && (d.loanType != Finance ==> d.durationInMonths.None?)
    && (d.loanType != Tender ==> d.durationInDays.None?)
    && (d.loanType != InterestRate ==> d.durationValue.None? && d.durationUnit.None?)
  }

  /** A submitted record keeps the fields of its type from the form and nulls every other. */
  lemma SubmitKeepsOnlyTypeFields(f: FormState)
    requires Submit(f).Submitted?
    ensures OnlyTypeFields(Submit(f).data)
    ensures var d := Submit(f).data;
            && (d.loanType != Tender ==> d.interestRate == f.interestRate)
            && (d.loanType == Finance ==> d.durationInMonths == f.durationInMonths)
            && (d.loanType == Tender ==> d.durationInDays == f.durationInDays)
            && (d.loanType == InterestRate ==> d.durationValue == f.durationValue && d.durationUnit == f.durationUnit)
  {
  }

  /** A submitted Finance or InterestRate loan never hands out more than its amount; a Tender loan hands out less. */
  lemma SubmittedGivenWithinLoan(f: FormState)
    requires Submit(f).Submitted?
    ensures var d := Submit(f).data;
            && (d.loanType == Tender ==> d.givenAmount < d.loanAmount)
            && (d.loanType != Tender && d.loanAmount > 0.0 ==> 0.0 < d.givenAmount <= d.loanAmount)
  {
  }

  // ------------------------------------------------------------ the engine's view

  /** How the engine reads a stored flat record: the plan of its type, built from that type's fields. */
  function PlanOf(d: LoanData): (p: Plan)
    ensures TypeOf(p) == d.loanType
  {
    match d.loanType
    case Finance => FinancePlan(d.interestRate, d.durationInMonths)
    case Tender => TenderPlan(d.durationInDays)
    case InterestRate => InterestRatePlan(d.interestRate, d.durationValue, d.durationUnit)
  }

  /** The flat record of a plan: the fields of the other types are null. */
  function Flatten(p: Plan, customerName: string, phone: string, startDate: Date, loanAmount: real, givenAmount: real): (d: LoanData)
    ensures d.loanType == TypeOf(p) && OnlyTypeFields(d)
  {
    match p
    case FinancePlan(rate, months) =>
      LoanData(customerName, phone, Finance, startDate, loanAmount, givenAmount, rate, months, None, None, None)
    case TenderPlan(days) =>
      LoanData(customerName, phone, Tender, startDate, loanAmount, givenAmount, None, None, days, None, None)
    case InterestRatePlan(rate, value, unit) =>
      LoanData(customerName, phone, InterestRate, startDate, loanAmount, givenAmount, rate, None, None, value, unit)
  }

  /** A record that keeps only its type's fields is exactly the flat form of its plan: nothing is lost in storing it. */
  lemma FlattenPlanOf(d: LoanData)
    requires OnlyTypeFields(d)
    ensures Flatten(PlanOf(d), d.customerName, d.phone, d.startDate, d.loanAmount, d.givenAmount) == d
  {
  }

  lemma PlanOfFlatten(p: Plan, customerName: string, phone: string, startDate: Date, loanAmount: real, givenAmount: real)
    ensures PlanOf(Flatten(p, customerName, phone, startDate, loanAmount, givenAmount)) == p
  {
  }

  /** The new loan the server stores for a submitted record, before any repayment. */
  function NewLoan(d: LoanData, id: string, createdAt: Date): (l: Loan)
    ensures TypeOf(l.plan) == d.loanType && l.transactions == []
    ensures l.loanAmount == d.loanAmount && l.givenAmount == d.givenAmount
  {
    Loan(id, d.customerName, d.phone, PlanOf(d), d.loanAmount, d.givenAmount, d.startDate, [], createdAt)
  }

  // ------------------------------------------------------------------- reset

  /**
   * The reset when the loan type changes: on a new loan the amounts, rate
   * and durations return to their defaults; an edited loan keeps its values.
   */
  function ResetForTypeChange(f: FormState, isEditing: bool): (r: FormState)
    ensures isEditing ==> r == f
    ensures !isEditing ==> r.loanAmount == 0.0 && r.givenAmount == 0.0 && r.interestRate == Some(2.0)
                           && r.durationInMonths == Some(1) && r.durationInDays == Some(1)
                           && r.durationValue == Some(12) && r.durationUnit == Some(Months)
    ensures r.customerName == f.customerName && r.phone == f.phone
            && r.loanType == f.loanType && r.startDate == f.startDate
  {
    if isEditing then f
    else f.(loanAmount := 0.0, givenAmount := 0.0, interestRate := Some(2.0),
            durationInMonths := Some(1), durationInDays := Some(1),
            durationValue := Some(12), durationUnit := Some(Months))
  }

  /** Resetting twice is resetting once. */
  lemma ResetIdempotent(f: FormState, isEditing: bool)
    ensures ResetForTypeChange(ResetForTypeChange(f, isEditing), isEditing) == ResetForTypeChange(f, isEditing)
  {
  }

  // ----------------------------------------------------------------- previews

  /** `totalFinanceAmount`: the amount plus the monthly interest times the months, missing fields read as 0. */
  function TotalFinanceAmount(f: FormState): real {
    var monthlyInterest := f.loanAmount * (f.interestRate.GetOr(0.0) / 100.0);
    f.loanAmount + monthlyInterest * (f.durationInMonths.GetOr(0) as real)
  }

  /** `totalFinanceProfit`: the total less the given amount, or less the loan amount when nothing positive was given. */
  function TotalFinanceProfit(f: FormState): real {
    var effectiveGiven := if f.givenAmount > 0.0 then f.givenAmount else f.loanAmount;
    TotalFinanceAmount(f) - effectiveGiven
  }

  function TotalTenderProfit(f: FormState): real {
    f.loanAmount - f.givenAmount
  }

  /** `firstMonthInterest`: one month's interest on the full amount. */
  function FirstMonthInterest(f: FormState): real {
    f.loanAmount * f.interestRate.GetOr(0.0) / 100.0
  }

  /** The Finance previews agree with what the engine computes for the loan the form submits. */
  lemma FinancePreviewsMatchEngine(f: FormState, id: string, createdAt: Date, now: Date)
    requires Submit(f).Submitted? && f.loanType == Some(Finance)
    ensures var l := NewLoan(Submit(f).data, id, createdAt);
            TotalAmount(l, now) == TotalFinanceAmount(f) && Profit(l, now) == TotalFinanceProfit(f)
  {
  }

  /** The Tender preview agrees with the engine's profit of the submitted loan. */
  lemma TenderPreviewMatchesEngine(f: FormState, id: string, createdAt: Date, now: Date)
    requires Submit(f).Submitted? && f.loanType == Some(Tender)
    ensures Profit(NewLoan(Submit(f).data, id, createdAt), now) == TotalTenderProfit(f)
  {
  }

  /** The first-month preview is the interest the InterestRate schedule charges in the loan's first month. */
  lemma FirstMonthInterestMatchesSchedule(f: FormState, id: string, createdAt: Date, txs: seq<Transaction>)
    requires Submit(f).Submitted? && f.loanType == Some(InterestRate)
    ensures var l := NewLoan(Submit(f).data, id, createdAt);
            FirstMonthInterest(f)
            == MonthlyInterest(Schedule(l.loanAmount, Rate(l.plan), txs, MonthIndex(l.startDate), 0).principal, Rate(l.plan))
  {
  }
}
