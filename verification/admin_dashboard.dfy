/**
 * The admin dashboard: the loan list narrowed by a type filter and a search
 * box, and the overall totals over every loan.
 */
module AdminDashboard {
  import opened Wrappers
  import opened Dates
  import opened Text
  import opened PlanCalculations
  import Seqs

  /** The type tabs: `'All'` or one loan type. */
  datatype TypeFilter = All | OnlyType(loanType: LoanType)

  function OfType(t: LoanType): Loan -> bool {
    (loan: Loan) => TypeOf(loan.plan) == t
  }

  /**
   * A loan matches a trimmed, non-blank search term when its trimmed
   * lower-cased name contains the lower-cased term, or its phone is
   * non-empty and contains the term as typed.
   */
  predicate MatchesSearch(loan: Loan, trimmedSearch: string) {
    Contains(ToLower(Trim(loan.customerName)), ToLower(trimmedSearch))
    || (loan.phone != [] && Contains(loan.phone, trimmedSearch))
  }

  function SearchMatcher(trimmedSearch: string): Loan -> bool {
    (loan: Loan) => MatchesSearch(loan, trimmedSearch)
  }

  function ByType(loans: seq<Loan>, filter: TypeFilter): (r: seq<Loan>)
    ensures filter.All? ==> r == loans
    ensures forall i :: 0 <= i < |r| ==> filter.OnlyType? ==> TypeOf(r[i].plan) == filter.loanType
  {
    match filter
    case All => loans
    case OnlyType(t) => Seqs.Filter(loans, OfType(t))
  }

  /** `filteredLoans`: the type filter first, then the search term if it is not blank. */
  function FilteredLoans(loans: seq<Loan>, filter: TypeFilter, searchTerm: string): (r: seq<Loan>)
    ensures |r| <= |loans|
    ensures forall i :: 0 <= i < |r| ==> filter.OnlyType? ==> TypeOf(r[i].plan) == filter.loanType
    ensures Trim(searchTerm) != [] ==> forall i :: 0 <= i < |r| ==> MatchesSearch(r[i], Trim(searchTerm))
  {
    var byType := ByType(loans, filter);
    var trimmed := Trim(searchTerm);
    if trimmed == [] then byType else Seqs.Filter(byType, SearchMatcher(trimmed))
  }

  /** The `'All'` tab with a blank search shows every loan, in order. */
  lemma AllWithBlankSearchIsIdentity(loans: seq<Loan>, searchTerm: string)
    requires forall i :: 0 <= i < |searchTerm| ==> IsSpace(searchTerm[i])
    ensures FilteredLoans(loans, All, searchTerm) == loans
  {
    TrimAllSpace(searchTerm);
  }

  /** The shown loans keep the order of the full list. */
  lemma FilteredIsSubsequence(loans: seq<Loan>, filter: TypeFilter, searchTerm: string)
    ensures Seqs.IsSubsequence(FilteredLoans(loans, filter, searchTerm), loans)
  {
    var byType := ByType(loans, filter);
    if filter.OnlyType? {
      Seqs.FilterIsSubsequence(loans, OfType(filter.loanType));
    } else {
      Seqs.SubsequenceOfSelf(loans);
    }
    if Trim(searchTerm) != [] {
      Seqs.FilterIsSubsequence(byType, SearchMatcher(Trim(searchTerm)));
      Seqs.SubsequenceTransitive(Seqs.Filter(byType, SearchMatcher(Trim(searchTerm))), byType, loans);
    }
  }

  /** A loan is shown exactly when it passes the type filter and, for a non-blank term, matches the search. */
  lemma FilteredMembership(loans: seq<Loan>, filter: TypeFilter, searchTerm: string, loan: Loan)
    ensures loan in FilteredLoans(loans, filter, searchTerm)
            <==> && loan in loans
                 && (filter.OnlyType? ==> TypeOf(loan.plan) == filter.loanType)
                 && (Trim(searchTerm) != [] ==> MatchesSearch(loan, Trim(searchTerm)))
  {
    if filter.OnlyType? {
      Seqs.FilterMembership(loans, OfType(filter.loanType), loan);
    }
    var byType := ByType(loans, filter);
    if Trim(searchTerm) != [] {
      Seqs.FilterMembership(byType, SearchMatcher(Trim(searchTerm)), loan);
    }
  }

  // ------------------------------------------------------------------- totals

  datatype OverallSummary = OverallSummary(totalProfit: real, totalCollected: real, totalPending: real)

  function ProfitAt(now: Date): Loan -> real {
    (loan: Loan) => Profit(loan, now)
  }

  function CollectedOf(loan: Loan): real {
    AmountPaid(loan.transactions)
  }

  function PendingAt(now: Date): Loan -> real {
    (loan: Loan) => Balance(loan, now)
  }

  /**
   * `overallSummary`: profit, amount collected and balance still due,
   * accumulated over every loan (not only the filtered ones).
   */
  method ComputeOverallSummary(loans: seq<Loan>, now: Date) returns (r: OverallSummary)
    ensures r.totalProfit == Seqs.Sum(loans, ProfitAt(now))
    ensures r.totalCollected == Seqs.Sum(loans, CollectedOf)
    ensures r.totalPending == Seqs.Sum(loans, PendingAt(now))
    ensures r.totalPending >= 0.0
  {
    var totalProfit := 0.0;
    var totalCollected := 0.0;
    var totalPending := 0.0;
    var i := 0;
    while i < |loans|
      invariant 0 <= i <= |loans|
      invariant totalProfit == Seqs.Sum(loans[..i], ProfitAt(now))
      invariant totalCollected == Seqs.Sum(loans[..i], CollectedOf)
      invariant totalPending == Seqs.Sum(loans[..i], PendingAt(now))
      invariant totalPending >= 0.0
    {
      Seqs.SumStep(loans, i, ProfitAt(now));
      Seqs.SumStep(loans, i, CollectedOf);
      Seqs.SumStep(loans, i, PendingAt(now));
      totalProfit := totalProfit + Profit(loans[i], now);
      totalCollected := totalCollected + AmountPaid(loans[i].transactions);
      totalPending := totalPending + Balance(loans[i], now);
      i := i + 1;
    }
    assert loans[..i] == loans;
    r := OverallSummary(totalProfit, totalCollected, totalPending);
  }

  /** The totals do not depend on the order of the loans. */
  lemma TotalsOrderIrrelevant(loans: seq<Loan>, reordered: seq<Loan>, now: Date)
    requires multiset(reordered) == multiset(loans)
    ensures Seqs.Sum(reordered, ProfitAt(now)) == Seqs.Sum(loans, ProfitAt(now))
    ensures Seqs.Sum(reordered, CollectedOf) == Seqs.Sum(loans, CollectedOf)
    ensures Seqs.Sum(reordered, PendingAt(now)) == Seqs.Sum(loans, PendingAt(now))
  {
    Seqs.SumPermutation(reordered, loans, ProfitAt(now));
    Seqs.SumPermutation(reordered, loans, CollectedOf);
    Seqs.SumPermutation(reordered, loans, PendingAt(now));
  }
}
