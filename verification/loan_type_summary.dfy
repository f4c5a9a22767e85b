/**
 * The summary panel of one loan type: four totals accumulated over its
 * loans, and the three bars drawn from them.
 */
module LoanTypeSummary {
  import opened Dates
  import opened PlanCalculations
  import opened SimpleBarGraph
  import Seqs

  datatype Totals = Totals(totalProfit: real, totalPrincipal: real, totalGiven: real, totalCollected: real)

  /** The accumulator object the `reduce` callback updates in place. */
  class Accumulator {
    var totalProfit: real
    var totalPrincipal: real
    var totalGiven: real
    var totalCollected: real

    /** The initial value `{0, 0, 0, 0}`. */
    constructor ()
      ensures totalProfit == 0.0 && totalPrincipal == 0.0 && totalGiven == 0.0 && totalCollected == 0.0
    {
      totalProfit := 0.0;
      totalPrincipal := 0.0;
      totalGiven := 0.0;
      totalCollected := 0.0;
    }

    function Current(): Totals
      reads this
    {
      Totals(totalProfit, totalPrincipal, totalGiven, totalCollected)
    }

    /** One step of the reduction: each total grows by the loan's share. */
    method Add(loan: Loan, now: Date)
      modifies this
      ensures totalProfit == old(totalProfit) + Profit(loan, now)
      ensures totalPrincipal == old(totalPrincipal) + loan.loanAmount
      ensures totalGiven == old(totalGiven) + loan.givenAmount
      ensures totalCollected == old(totalCollected) + AmountPaid(loan.transactions)
    {
      totalProfit := totalProfit + Profit(loan, now);
      totalPrincipal := totalPrincipal + loan.loanAmount;
      totalGiven := totalGiven + loan.givenAmount;
      totalCollected := totalCollected + AmountPaid(loan.transactions);
    }
  }

  function ProfitAt(now: Date): Loan -> real {
    (loan: Loan) => Profit(loan, now)
  }

  function PrincipalOf(loan: Loan): real {
    loan.loanAmount
  }

  function GivenOf(loan: Loan): real {
    loan.givenAmount
  }

  function CollectedOf(loan: Loan): real {
    AmountPaid(loan.transactions)
  }

  /** The totals as sums over the loans. */
  function SummaryOf(loans: seq<Loan>, now: Date): Totals {
    Totals(Seqs.Sum(loans, ProfitAt(now)), Seqs.Sum(loans, PrincipalOf),
           Seqs.Sum(loans, GivenOf), Seqs.Sum(loans, CollectedOf))
  }

  /** `summary`: the reduction over the loans, in list order. */
  method Summarize(loans: seq<Loan>, now: Date) returns (r: Totals)
    ensures r == SummaryOf(loans, now)
  {
    var acc := new Accumulator();
    var i := 0;
    while i < |loans|
      invariant 0 <= i <= |loans|
      invariant acc.Current() == SummaryOf(loans[..i], now)
    {
      SummaryStep(loans, i, now);
      acc.Add(loans[i], now);
      i := i + 1;
    }
    assert loans[..i] == loans;
    r := acc.Current();
  }

  /** The totals of one more loan: each grows by that loan's share. */
  lemma SummaryStep(loans: seq<Loan>, i: nat, now: Date)
    requires i < |loans|
    ensures var before := SummaryOf(loans[..i], now);
            SummaryOf(loans[..i + 1], now)
            == Totals(before.totalProfit + Profit(loans[i], now), before.totalPrincipal + loans[i].loanAmount,
                      before.totalGiven + loans[i].givenAmount, before.totalCollected + AmountPaid(loans[i].transactions))
  {
    Seqs.SumStep(loans, i, ProfitAt(now));
    Seqs.SumStep(loans, i, PrincipalOf);
    Seqs.SumStep(loans, i, GivenOf);
    Seqs.SumStep(loans, i, CollectedOf);
  }

  /** No loans, no totals. */
  lemma EmptySummary(now: Date)
    ensures SummaryOf([], now) == Totals(0.0, 0.0, 0.0, 0.0)
  {
  }

  /** The totals do not depend on the order of the loans. */
  lemma SummaryOrderIrrelevant(loans: seq<Loan>, reordered: seq<Loan>, now: Date)
    requires multiset(reordered) == multiset(loans)
    ensures SummaryOf(reordered, now) == SummaryOf(loans, now)
  {
    Seqs.SumPermutation(reordered, loans, ProfitAt(now));
    Seqs.SumPermutation(reordered, loans, PrincipalOf);
    Seqs.SumPermutation(reordered, loans, GivenOf);
    Seqs.SumPermutation(reordered, loans, CollectedOf);
  }

  /** The totals of two lists together are the sums of their totals. */
  lemma SummaryAppend(a: seq<Loan>, b: seq<Loan>, now: Date)
    ensures var s := SummaryOf(a + b, now);
            var x := SummaryOf(a, now);
            var y := SummaryOf(b, now);
            s == Totals(x.totalProfit + y.totalProfit, x.totalPrincipal + y.totalPrincipal,
                        x.totalGiven + y.totalGiven, x.totalCollected + y.totalCollected)
  {
    Seqs.SumAppend(a, b, ProfitAt(now));
    Seqs.SumAppend(a, b, PrincipalOf);
    Seqs.SumAppend(a, b, GivenOf);
    Seqs.SumAppend(a, b, CollectedOf);
  }

  /** `graphData`: the Given, Collected and Profit bars, in that order, with their colours; `tr` translates the captions. */
  function GraphData(s: Totals, tr: string -> string): (r: seq<BarData>)
    ensures |r| == 3
    ensures r[0].value == s.totalGiven && r[1].value == s.totalCollected && r[2].value == s.totalProfit
    ensures r[0].caption == tr("Total Given") && r[1].caption == tr("Total Collected") && r[2].caption == tr("Total Profit")
  {
    [ BarData(tr("Total Given"), s.totalGiven, "bg-yellow-500"),
      BarData(tr("Total Collected"), s.totalCollected, "bg-blue-500"),
      BarData(tr("Total Profit"), s.totalProfit, "bg-green-500") ]
  }
}
