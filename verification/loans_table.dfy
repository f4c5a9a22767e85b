/**
 * The loans table: the set of selected rows behind the check boxes, the
 * header check box, bulk deletion, and the highlight of each row.
 */
module LoansTable {
  import opened Wrappers
  import opened Dates
  import opened Money
  import opened PlanCalculations

  /** The ids of the shown loans: `new Set(loans.map(loan => loan.id))`. */
  function AllIds(loans: seq<Loan>): (r: set<string>)
    ensures forall i :: 0 <= i < |loans| ==> loans[i].id in r
    ensures forall id :: id in r ==> exists i :: 0 <= i < |loans| && loans[i].id == id
    ensures |r| <= |loans|
    decreases |loans|
  {
    if loans == [] then {}
    else
      var rest := AllIds(loans[1..]);
      IdsOfTail(loans, rest);
      {loans[0].id} + rest
  }

  /** An id found in the tail is found in the whole list. */
  lemma IdsOfTail(loans: seq<Loan>, rest: set<string>)
    requires loans != []
    requires forall id :: id in rest ==> exists i :: 0 <= i < |loans[1..]| && loans[1..][i].id == id
    ensures forall id :: id in rest ==> exists i :: 0 <= i < |loans| && loans[i].id == id
  {
    forall id | id in rest
      ensures exists i :: 0 <= i < |loans| && loans[i].id == id
    {
      var j :| 0 <= j < |loans[1..]| && loans[1..][j].id == id;
      assert loans[j + 1].id == id;
    }
  }

  predicate DistinctIds(loans: seq<Loan>) {
    forall i, j :: 0 <= i < j < |loans| ==> loans[i].id != loans[j].id
  }

  /** With distinct ids there are as many ids as loans. */
  lemma {:induction false} AllIdsSize(loans: seq<Loan>)
    requires DistinctIds(loans)
    ensures |AllIds(loans)| == |loans|
    decreases |loans|
  {
    if loans != [] {
      AllIdsSize(loans[1..]);
    }
  }

  /** `handleSelectOne`'s set update: the id is removed if present and added otherwise. */
  function Toggle(selected: set<string>, id: string): (r: set<string>)
    ensures id in r <==> id !in selected
    ensures forall other :: other != id ==> (other in r <==> other in selected)
  {
    if id in selected then selected - {id} else selected + {id}
  }

  /** Toggling the same row twice restores the selection. */
  lemma ToggleTwice(selected: set<string>, id: string)
    ensures Toggle(Toggle(selected, id), id) == selected
  {
  }

  /** Toggles of different rows can be done in either order. */
  lemma ToggleCommutes(selected: set<string>, a: string, b: string)
    ensures Toggle(Toggle(selected, a), b) == Toggle(Toggle(selected, b), a)
  {
  }

  /** The selection state of the table. */
  class Selection {
    var selectedIds: set<string>
    var deleteConfirmOpen: bool

    constructor ()
      ensures selectedIds == {} && !deleteConfirmOpen
    {
      selectedIds := {};
      deleteConfirmOpen := false;
    }

    /** `handleSelectAll`: checking selects every shown loan, unchecking clears the selection. */
    method SelectAll(checked: bool, loans: seq<Loan>)
      modifies this
      ensures checked ==> selectedIds == AllIds(loans)
      ensures !checked ==> selectedIds == {}
      ensures deleteConfirmOpen == old(deleteConfirmOpen)
    {
      if checked {
        selectedIds := AllIds(loans);
      } else {
        selectedIds := {};
      }
    }

    /** `handleSelectOne`: a copy of the set with the id deleted if present, added otherwise. */
    method SelectOne(loanId: string)
      modifies this
      ensures selectedIds == Toggle(old(selectedIds), loanId)
      ensures deleteConfirmOpen == old(deleteConfirmOpen)
    {
      var newSelectedIds := selectedIds;
      if loanId in newSelectedIds {
        newSelectedIds := newSelectedIds - {loanId};
      } else {
        newSelectedIds := newSelectedIds + {loanId};
      }
      selectedIds := newSelectedIds;
    }

    /** `handleDeleteSelected`: the confirmation opens only when something is selected. */
    method DeleteSelected()
      modifies this
      ensures deleteConfirmOpen == (old(deleteConfirmOpen) || |old(selectedIds)| > 0)
      ensures selectedIds == old(selectedIds)
    {
      if |selectedIds| > 0 {
        deleteConfirmOpen := true;
      }
    }

    /** `handleConfirmDelete`: the selected ids are handed to the bulk delete, then the selection is emptied and the dialog closed. */
    method ConfirmDelete() returns (deleted: set<string>)
      modifies this
      ensures deleted == old(selectedIds)
      ensures selectedIds == {} && !deleteConfirmOpen
    {
      deleted := selectedIds;
      selectedIds := {};
      deleteConfirmOpen := false;
    }
  }

  // ------------------------------------------------------------ header check box

  /** The header box is checked when there are loans and as many selected ids as loans. */
  predicate HeaderChecked(numSelected: nat, numLoans: nat) {
    numLoans > 0 && numSelected == numLoans
  }

  /** The header box is indeterminate when some but fewer ids than loans are selected. */
  predicate HeaderIndeterminate(numSelected: nat, numLoans: nat) {
    numSelected > 0 && numSelected < numLoans
  }

  /** The header box is never both checked and indeterminate; with nothing selected it is neither. */
  lemma HeaderStatesExclusive(numSelected: nat, numLoans: nat)
    ensures !(HeaderChecked(numSelected, numLoans) && HeaderIndeterminate(numSelected, numLoans))
    ensures numSelected == 0 ==> !HeaderChecked(numSelected, numLoans) && !HeaderIndeterminate(numSelected, numLoans)
  {
  }

  /** After "select all" on loans with distinct ids the header box is checked. */
  lemma SelectAllChecksHeader(loans: seq<Loan>)
    requires loans != [] && DistinctIds(loans)
    ensures HeaderChecked(|AllIds(loans)|, |loans|)
  {
    AllIdsSize(loans);
  }

  /**
   * The header rule compares counts only: a selection kept from before the
   * list was filtered can have as many ids as the shown loans without
   * containing them all, and the box then shows checked.
   */
  lemma HeaderCheckedByStaleSelection(a: Loan, b: Loan)
    requires a.id == "A" && b.id == "B"
    ensures var selected := {"A", "C"};
            HeaderChecked(|selected|, |[a, b]|) && b.id !in selected
  {
    var selected: set<string> := {"A", "C"};
    assert "A" != "C";
    assert |selected| == 2;
  }

  /** The header rule by contents: every shown loan is selected. */
  predicate AllShownSelected(selected: set<string>, loans: seq<Loan>) {
    loans != [] && AllIds(loans) <= selected
  }

  /** Checked by contents holds right after "select all", whatever the ids, and fails once any shown row is unticked. */
  lemma AllShownSelectedAgreesWithSelection(loans: seq<Loan>, selected: set<string>, i: nat)
    requires loans != [] && i < |loans|
    ensures AllShownSelected(AllIds(loans), loans)
    ensures loans[i].id in selected ==> !AllShownSelected(Toggle(selected, loans[i].id), loans)
  {
  }

  // ------------------------------------------------------------ row highlight

  datatype Highlight = CompletedRow | OverdueRow | DueToday | Plain

  /** `getRowHighlightClass`, by priority: completed, then overdue, then due today, else none. */
  function RowHighlight(loan: Loan, today: Date): (r: Highlight)
    ensures r == CompletedRow <==> Status(loan, today) == Completed
    ensures r == OverdueRow <==> Status(loan, today) == Overdue
    ensures r == DueToday <==> Status(loan, today) == Active && NextDueDate(loan, today) == Some(today)
  {
    var status := Status(loan, today);
    if status == Completed then CompletedRow
    else if status == Overdue then OverdueRow
    else if NextDueDate(loan, today) == Some(today) then DueToday
    else Plain
  }

  function HighlightClass(h: Highlight): string {
    match h
    case CompletedRow => "bg-status-active/5"
    case OverdueRow => "bg-status-overdue/5"
    case DueToday => "bg-accent/10"
    case Plain => ""
  }

  /** Each highlight has its own class, and only a plain row has none. */
  lemma HighlightClassesDistinct(a: Highlight, b: Highlight)
    ensures HighlightClass(a) == HighlightClass(b) <==> a == b
    ensures HighlightClass(a) == "" <==> a == Plain
  {
  }

  /** An InterestRate loan is never highlighted as due today: its next due date always lies after today. */
  lemma InterestRateNeverDueToday(loan: Loan, today: Date)
    requires loan.plan.InterestRatePlan?
    ensures RowHighlight(loan, today) != DueToday
  {
  }

  /** A Finance or Tender loan is highlighted as due today exactly when it is open and its final due date is today. */
  lemma DueTodayIsFinalDueDate(loan: Loan, today: Date)
    requires !loan.plan.InterestRatePlan?
    ensures RowHighlight(loan, today) == DueToday
            <==> Balance(loan, today) > Epsilon && FinalDueDate(loan) == Some(today)
  {
  }
}
