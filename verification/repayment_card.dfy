/**
 * The repayment card of one loan type: the open loans of that type sorted by
 * customer name, the search box's suggestions, and the guard on recording a
 * payment.
 */
module RepaymentCard {
  import opened Wrappers
  import opened Dates
  import opened Text
  import opened PlanCalculations
  import Seqs

  // ------------------------------------------------------------ name order

  /** The order `localeCompare` gives names, taken here as code-point lexicographic order. */
  predicate NameLeq(a: string, b: string)
    decreases |a|
  {
    a == [] || (b != [] && (a[0] < b[0] || (a[0] == b[0] && NameLeq(a[1..], b[1..]))))
  }

  lemma {:induction false} NameLeqTotal(a: string, b: string)
    ensures NameLeq(a, b) || NameLeq(b, a)
    decreases |a|
  {
    if a != [] && b != [] && a[0] == b[0] {
      NameLeqTotal(a[1..], b[1..]);
    }
  }

  lemma {:induction false} NameLeqTransitive(a: string, b: string, c: string)
    requires NameLeq(a, b) && NameLeq(b, c)
    ensures NameLeq(a, c)
    decreases |a|
  {
    if a != [] && a[0] == b[0] && b[0] == c[0] {
      NameLeqTransitive(a[1..], b[1..], c[1..]);
    }
  }

  predicate SortedByName(s: seq<Loan>) {
    forall i, j :: 0 <= i < j < |s| ==> NameLeq(s[i].customerName, s[j].customerName)
  }

  /** Puts a loan into a name-sorted list after every loan whose name is strictly smaller. */
  function InsertByName(x: Loan, s: seq<Loan>): (r: seq<Loan>)
    requires SortedByName(s)
    ensures multiset(r) == multiset(s) + multiset{x}
    ensures SortedByName(r)
    decreases |s|
  {
    if s == [] then [x]
    else if NameLeq(x.customerName, s[0].customerName) then
      InsertFront(x, s);
      [x] + s
    else
      SortedTail(s);
      var rest := InsertByName(x, s[1..]);
      InsertAfterHead(x, s, rest);
      [s[0]] + rest
  }

  lemma SortedTail(s: seq<Loan>)
    requires SortedByName(s) && s != []
    ensures SortedByName(s[1..])
    ensures forall k :: 0 <= k < |s[1..]| ==> NameLeq(s[0].customerName, s[1..][k].customerName)
  {
  }

  /** A loan that sorts after the head goes into the tail, behind the head. */
  lemma InsertAfterHead(x: Loan, s: seq<Loan>, rest: seq<Loan>)
    requires SortedByName(s) && s != [] && !NameLeq(x.customerName, s[0].customerName)
    requires SortedByName(rest) && multiset(rest) == multiset(s[1..]) + multiset{x}
    ensures multiset([s[0]] + rest) == multiset(s) + multiset{x}
    ensures SortedByName([s[0]] + rest)
  {
    SortedTail(s);
    NameLeqTotal(x.customerName, s[0].customerName);
    InsertBehind(s[0], rest, x, s[1..]);
    assert s == [s[0]] + s[1..];
  }

  lemma InsertFront(x: Loan, s: seq<Loan>)
    requires SortedByName(s) && s != [] && NameLeq(x.customerName, s[0].customerName)
    ensures SortedByName([x] + s)
  {
    var r := [x] + s;
    forall i, j | 0 <= i < j < |r|
      ensures NameLeq(r[i].customerName, r[j].customerName)
    {
      if i == 0 && j > 1 {
        NameLeqTransitive(x.customerName, s[0].customerName, s[j - 1].customerName);
      }
    }
  }

  lemma InsertBehind(y: Loan, rest: seq<Loan>, x: Loan, tail: seq<Loan>)
    requires SortedByName(rest) && multiset(rest) == multiset(tail) + multiset{x}
    requires NameLeq(y.customerName, x.customerName)
    requires forall k :: 0 <= k < |tail| ==> NameLeq(y.customerName, tail[k].customerName)
    ensures SortedByName([y] + rest)
  {
    var r := [y] + rest;
    forall i, j | 0 <= i < j < |r|
      ensures NameLeq(r[i].customerName, r[j].customerName)
    {
      if i == 0 {
        var z := rest[j - 1];
        assert z in multiset(rest);
        if z != x {
          assert z in multiset(tail);
          var k :| 0 <= k < |tail| && tail[k] == z;
        }
      }
    }
  }

  /** `sort((a, b) => a.customerName.localeCompare(b.customerName))`, as an insertion sort. */
  function SortByName(s: seq<Loan>): (r: seq<Loan>)
    ensures multiset(r) == multiset(s)
    ensures SortedByName(r)
    decreases |s|
  {
    if s == [] then []
    else
      assert s == [s[0]] + s[1..];
      InsertByName(s[0], SortByName(s[1..]))
  }

  // ------------------------------------------------------------ selectors

  /** The card's loans: those of its type that are not yet completed. */
  function IsOpenOfType(loanType: LoanType, now: Date): Loan -> bool {
    (loan: Loan) => TypeOf(loan.plan) == loanType && Status(loan, now) != Completed
  }

  /** `activeLoans`: the open loans of the card's type, sorted by customer name. */
  function ActiveLoans(loans: seq<Loan>, loanType: LoanType, now: Date): (r: seq<Loan>)
    ensures SortedByName(r)
    ensures multiset(r) == multiset(Seqs.Filter(loans, IsOpenOfType(loanType, now)))
  {
    SortByName(Seqs.Filter(loans, IsOpenOfType(loanType, now)))
  }

  /** A loan is listed exactly when it is of the card's type and not completed. */
  lemma ActiveLoansMembership(loans: seq<Loan>, loanType: LoanType, now: Date, loan: Loan)
    ensures loan in ActiveLoans(loans, loanType, now)
            <==> loan in loans && TypeOf(loan.plan) == loanType && Status(loan, now) != Completed
  {
    var kept := Seqs.Filter(loans, IsOpenOfType(loanType, now));
    Seqs.FilterMembership(loans, IsOpenOfType(loanType, now), loan);
    assert loan in ActiveLoans(loans, loanType, now) <==> loan in multiset(kept);
  }

  /** A suggestion matches by lower-cased name or by phone (the term trimmed but not lower-cased). */
  predicate MatchesSuggestion(loan: Loan, lowered: string, trimmed: string) {
    Contains(ToLower(loan.customerName), lowered) || Contains(loan.phone, trimmed)
  }

  function SuggestionMatcher(lowered: string, trimmed: string): Loan -> bool {
    (loan: Loan) => MatchesSuggestion(loan, lowered, trimmed)
  }

  const MaxSuggestions: nat := 5

  /** `searchResults`: nothing for an empty or blank term; otherwise the first five matching active loans. */
  function SearchResults(activeLoans: seq<Loan>, searchTerm: string): (r: seq<Loan>)
    ensures |r| <= MaxSuggestions
    ensures Trim(ToLower(searchTerm)) == [] ==> r == []
    ensures forall i :: 0 <= i < |r| ==> r[i] in activeLoans
    ensures forall i :: 0 <= i < |r| ==> MatchesSuggestion(r[i], Trim(ToLower(searchTerm)), Trim(searchTerm))
  {
    if searchTerm == [] then []
    else
      var lowered := Trim(ToLower(searchTerm));
      if lowered == [] then []
      else Seqs.Take(Seqs.Filter(activeLoans, SuggestionMatcher(lowered, Trim(searchTerm))), MaxSuggestions)
  }

  /** A blank search term (only white space) gives no suggestions. */
  lemma BlankSearchNoResults(activeLoans: seq<Loan>, searchTerm: string)
    requires forall i :: 0 <= i < |searchTerm| ==> IsSpace(searchTerm[i])
    ensures SearchResults(activeLoans, searchTerm) == []
  {
    var lowered := ToLower(searchTerm);
    assert forall i :: 0 <= i < |lowered| ==> IsSpace(lowered[i]) by {
      forall i | 0 <= i < |lowered|
        ensures IsSpace(lowered[i])
      {
        assert lowered[i] == ToLowerChar(searchTerm[i]);
      }
    }
    TrimAllSpace(lowered);
  }

  /** The suggestions keep the order of the active loans. */
  lemma SearchResultsKeepOrder(activeLoans: seq<Loan>, searchTerm: string)
    ensures Seqs.IsSubsequence(SearchResults(activeLoans, searchTerm), activeLoans)
  {
    var lowered := Trim(ToLower(searchTerm));
    if searchTerm != [] && lowered != [] {
      var matching := Seqs.Filter(activeLoans, SuggestionMatcher(lowered, Trim(searchTerm)));
      Seqs.FilterIsSubsequence(activeLoans, SuggestionMatcher(lowered, Trim(searchTerm)));
      var r := Seqs.Take(matching, MaxSuggestions);
      Seqs.SubsequencePrefix(matching, activeLoans, |r|);
    }
  }

  /** Fewer than five matches are all suggested; otherwise exactly five are. */
  lemma SearchResultsAreFirstMatches(activeLoans: seq<Loan>, searchTerm: string)
    requires Trim(ToLower(searchTerm)) != []
    ensures var matching := Seqs.Filter(activeLoans, SuggestionMatcher(Trim(ToLower(searchTerm)), Trim(searchTerm)));
            SearchResults(activeLoans, searchTerm)
            == if |matching| <= MaxSuggestions then matching else matching[..MaxSuggestions]
  {
  }

  // ------------------------------------------------------------ submission

  datatype SubmitOutcome =
    | MissingLoanOrAmount
    | InvalidAmount
    | RecordPayment(loanId: string, amount: real)

  /**
   * `handleSubmit`: a loan must be selected and the amount field non-empty;
   * the amount must parse (`parse` stands for `parseFloat`, `None` for NaN)
   * to a positive number.
   */
  function Submit(selected: Option<Loan>, amount: string, parse: string -> Option<real>): (r: SubmitOutcome)
    ensures r == MissingLoanOrAmount <==> selected.None? || amount == []
    ensures r.RecordPayment?
            <==> selected.Some? && amount != [] && parse(amount).Some? && parse(amount).value > 0.0
    ensures r.RecordPayment? ==> r.loanId == selected.value.id && r.amount == parse(amount).value
  {
    if selected.None? || amount == [] then MissingLoanOrAmount
    else
      match parse(amount)
      case None => InvalidAmount
      case Some(v) => if v <= 0.0 then InvalidAmount else RecordPayment(selected.value.id, v)
  }

  /** The balance shown for the selected loan; 0 when none is selected. */
  function ShownBalance(selected: Option<Loan>, now: Date): (b: real)
    ensures b >= 0.0
    ensures selected.Some? ==> b == Balance(selected.value, now)
  {
    match selected
    case None => 0.0
    case Some(loan) => Balance(loan, now)
  }

  /** The note that the amount exceeds the balance: shown exactly when a loan is selected and the amount parses above its balance. */
  predicate OverBalanceNote(selected: Option<Loan>, amount: string, parse: string -> Option<real>, now: Date) {
    selected.Some? && parse(amount).Some? && parse(amount).value > ShownBalance(selected, now)
  }

  /** A payment that triggers the note is larger than what the loan still owes, and is recorded all the same. */
  lemma OverBalanceNoteDoesNotBlock(selected: Option<Loan>, amount: string, parse: string -> Option<real>, now: Date)
    requires OverBalanceNote(selected, amount, parse, now) && amount != []
    ensures Submit(selected, amount, parse) == RecordPayment(selected.value.id, parse(amount).value)
    ensures parse(amount).value > Balance(selected.value, now)
  {
  }
}
