/**
 * The investor entry form: its defaults, the required-field guard and the
 * record it saves, merged over the investor being edited.
 */
module InvestorForm {
  import opened Wrappers
  import opened Dates
  import opened InvestorCalculations

  /** The form's fields; an unselected investment type is `None`. */
  datatype FormState = FormState(
    name: string,
    investmentAmount: real,
    investmentType: Option<InvestmentType>,
    profitRate: real,
    startDate: Date,
    status: InvestorStatus)

  /** The saved fields of a new investor. */
  datatype InvestorData = InvestorData(
    name: string,
    investmentAmount: real,
    investmentType: InvestmentType,
    profitRate: real,
    startDate: Date,
    status: InvestorStatus)

  datatype SubmitOutcome = MissingFields | Add(data: InvestorData) | Update(investor: Investor)

  /** `getInitialState`: a blank form dated today. */
  function InitialState(today: Date): (f: FormState)
    ensures f.name == [] && f.investmentAmount == 0.0 && f.investmentType.None?
    ensures f.profitRate == 0.0 && f.startDate == today && f.status == OnTrack
  {
    FormState([], 0.0, None, 0.0, today, OnTrack)
  }

  /** The form filled from the investor being edited. */
  function EditState(inv: Investor): FormState {
    FormState(inv.name, inv.investmentAmount, Some(inv.investmentType), inv.profitRate, inv.startDate, inv.status)
  }

  /** The required-field guard: a name, a positive amount, a chosen type and a positive rate. */
  predicate Complete(f: FormState) {
    f.name != [] && f.investmentAmount > 0.0 && f.investmentType.Some? && f.profitRate > 0.0
  }

  /**
   * `handleSubmit`: refused unless complete; a new investor is added with
   * the form's fields; an edited investor gets the form's fields spread over
   * it, so its id and payments stay.
   */
  function Submit(f: FormState, toEdit: Option<Investor>): (r: SubmitOutcome)
    ensures r.MissingFields? <==> !Complete(f)
    ensures Complete(f) && toEdit.None?
            ==> r == Add(InvestorData(f.name, f.investmentAmount, f.investmentType.value, f.profitRate, f.startDate, f.status))
    ensures Complete(f) && toEdit.Some? ==> (
              && r.Update?
              && r.investor.id == toEdit.value.id && r.investor.payments == toEdit.value.payments
              && r.investor.name == f.name && r.investor.investmentAmount == f.investmentAmount
              && Some(r.investor.investmentType) == f.investmentType && r.investor.profitRate == f.profitRate
              && r.investor.startDate == f.startDate && r.investor.status == f.status)
  {
    if !Complete(f) then MissingFields
    else
      var data := InvestorData(f.name, f.investmentAmount, f.investmentType.value, f.profitRate, f.startDate, f.status);
      match toEdit
      case None => Add(data)
      case Some(inv) =>
        Update(inv.(name := data.name, investmentAmount := data.investmentAmount,
                    investmentType := data.investmentType, profitRate := data.profitRate,
                    startDate := data.startDate, status := data.status))
  }

  /** A blank form is never saved. */
  lemma InitialStateRefused(today: Date, toEdit: Option<Investor>)
    ensures Submit(InitialState(today), toEdit) == MissingFields
  {
  }

  /** Saving an edit form unchanged gives back the investor, provided its own fields pass the guard. */
  lemma EditUnchangedIsIdentity(inv: Investor)
    requires inv.name != [] && inv.investmentAmount > 0.0 && inv.profitRate > 0.0
    ensures Submit(EditState(inv), Some(inv)) == Update(inv)
  {
  }
}
