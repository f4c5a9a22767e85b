/**
 * Notifications: the unread counter, and the periodic check that creates
 * one "loan overdue" notification per overdue loan that does not already
 * have an unread one.  The server calls are left to the caller: the check
 * receives the unread notifications already fetched and returns the batch
 * to create.
 */
module NotificationContext {
  import opened Wrappers
  import opened Dates
  import opened PlanCalculations
  import Seqs

  /** A stored notification; `loanId` is `null` for notifications about no loan. */
  datatype Notification = Notification(id: string, loanId: Option<string>, title: string, message: string, isRead: bool)

  /** A notification to create, before the server gives it an id. */
  datatype NewNotification = NewNotification(loanId: string, title: string, message: string, isRead: bool)

  datatype CheckOutcome = Skipped | Checked(batch: seq<NewNotification>, createCalled: bool)

  predicate IsUnread(n: Notification) {
    !n.isRead
  }

  /** `unreadCount`: the number of notifications not yet read. */
  function UnreadCount(notifications: seq<Notification>): (n: nat)
    ensures n <= |notifications|
  {
    Seqs.Count(notifications, IsUnread)
  }

  /** The counter is the length of the list of unread notifications. */
  lemma UnreadCountIsUnreadList(notifications: seq<Notification>)
    ensures UnreadCount(notifications) == |Seqs.Filter(notifications, IsUnread)|
    ensures forall i :: 0 <= i < |Seqs.Filter(notifications, IsUnread)| ==> !Seqs.Filter(notifications, IsUnread)[i].isRead
  {
    Seqs.CountIsFilterLength(notifications, IsUnread);
  }

  /** `existingUnread.map(n => n.loan_id).filter(Boolean)`, as a set: the non-empty loan ids. */
  function UnreadLoanIds(existingUnread: seq<Notification>): (r: set<string>)
    ensures forall id :: id in r <==> id != [] && exists i :: 0 <= i < |existingUnread| && existingUnread[i].loanId == Some(id)
  {
    set i | 0 <= i < |existingUnread| && existingUnread[i].loanId.Some? && existingUnread[i].loanId.value != []
      :: existingUnread[i].loanId.value
  }

  /** `id.slice(-4)`: the last four characters, or all of a shorter id. */
  function LastFour(s: string): (r: string)
    ensures |r| == if |s| <= 4 then |s| else 4
    ensures r == s[|s| - |r|..]
  {
    if |s| <= 4 then s else s[|s| - 4..]
  }

  /** The notification of an overdue loan. */
  function OverdueNotice(loan: Loan): (n: NewNotification)
    ensures n.loanId == loan.id && !n.isRead
  {
    NewNotification(
      loan.id,
      "Loan Overdue: " + loan.customerName,
      "The loan for " + loan.customerName + " (ID: ..." + LastFour(loan.id) + ") is overdue.",
      false)
  }

  function IsOverdueAt(now: Date): Loan -> bool {
    (loan: Loan) => Status(loan, now) == Overdue
  }

  function BatchIds(batch: seq<NewNotification>): set<string> {
    set k | 0 <= k < |batch| :: batch[k].loanId
  }

  lemma BatchIdsSnoc(batch: seq<NewNotification>, n: NewNotification)
    ensures BatchIds(batch + [n]) == BatchIds(batch) + {n.loanId}
  {
    var longer := batch + [n];
    forall id | id in BatchIds(longer)
      ensures id in BatchIds(batch) + {n.loanId}
    {
      var k :| 0 <= k < |longer| && longer[k].loanId == id;
      if k < |batch| {
        assert batch[k] == longer[k];
      }
    }
    forall id | id in BatchIds(batch) + {n.loanId}
      ensures id in BatchIds(longer)
    {
      if id == n.loanId {
        assert longer[|batch|] == n;
      } else {
        var k :| 0 <= k < |batch| && batch[k].loanId == id;
        assert longer[k] == batch[k];
      }
    }
  }

  /** The notices the overdue loans would get, one per loan and in order. */
  function NoticesOf(loans: seq<Loan>): (r: seq<NewNotification>)
    ensures |r| == |loans|
    ensures forall i :: 0 <= i < |loans| ==> r[i] == OverdueNotice(loans[i])
  {
    seq(|loans|, i requires 0 <= i < |loans| => OverdueNotice(loans[i]))
  }

  /**
   * The `forEach` of `checkOverdueLoans`: walks the overdue loans in order
   * and gives a loan a notice unless its id is already in `unreadLoanIds`,
   * which starts as the ids with an unread notification and grows with
   * every notice added.
   */
  method CollectNotices(overdueLoans: seq<Loan>, initial: set<string>) returns (batch: seq<NewNotification>)
    ensures DistinctLoanIds(batch)
    ensures forall k :: 0 <= k < |batch| ==> batch[k].loanId !in initial
    ensures forall k :: 0 <= k < |batch| ==> batch[k] in NoticesOf(overdueLoans)
    ensures forall j :: 0 <= j < |overdueLoans| ==> overdueLoans[j].id in initial || overdueLoans[j].id in BatchIds(batch)
  {
    var unreadLoanIds := initial;
    batch := [];
    var i := 0;
    while i < |overdueLoans|
      invariant 0 <= i <= |overdueLoans|
      invariant unreadLoanIds == initial + BatchIds(batch)
      invariant DistinctLoanIds(batch)
      invariant forall k :: 0 <= k < |batch| ==> batch[k].loanId !in initial
      invariant forall k :: 0 <= k < |batch| ==> batch[k] in NoticesOf(overdueLoans)
      invariant forall j :: 0 <= j < i ==> overdueLoans[j].id in unreadLoanIds
    {
      var loan := overdueLoans[i];
      if loan.id !in unreadLoanIds {
        var notice := NoticesOf(overdueLoans)[i];
        AddNotice(batch, notice, initial, NoticesOf(overdueLoans));
        batch := batch + [notice];
        unreadLoanIds := unreadLoanIds + {loan.id};
      }
      i := i + 1;
    }
  }

  predicate DistinctLoanIds(batch: seq<NewNotification>) {
    forall a, b :: 0 <= a < b < |batch| ==> batch[a].loanId != batch[b].loanId
  }

  /** Adding a notice for a loan id that is neither unread nor in the batch keeps the batch's properties. */
  lemma AddNotice(batch: seq<NewNotification>, n: NewNotification, initial: set<string>, notices: seq<NewNotification>)
    requires DistinctLoanIds(batch) && n.loanId !in initial + BatchIds(batch)
    requires forall k :: 0 <= k < |batch| ==> batch[k].loanId !in initial
    requires forall k :: 0 <= k < |batch| ==> batch[k] in notices
    requires n in notices
    ensures DistinctLoanIds(batch + [n])
    ensures forall k :: 0 <= k < |batch + [n]| ==> (batch + [n])[k].loanId !in initial
    ensures forall k :: 0 <= k < |batch + [n]| ==> (batch + [n])[k] in notices
    ensures BatchIds(batch + [n]) == BatchIds(batch) + {n.loanId}
  {
    BatchIdsSnoc(batch, n);
    var longer := batch + [n];
    forall a, b | 0 <= a < b < |longer|
      ensures longer[a].loanId != longer[b].loanId
    {
      if b == |batch| {
        assert longer[a] == batch[a];
      } else {
        assert longer[a] == batch[a] && longer[b] == batch[b];
      }
    }
  }

  /** Every notice is created unread. */
  lemma NoticesAreUnread(overdueLoans: seq<Loan>, batch: seq<NewNotification>)
    requires forall k :: 0 <= k < |batch| ==> batch[k] in NoticesOf(overdueLoans)
    ensures forall k :: 0 <= k < |batch| ==> !batch[k].isRead
  {
  }

  /** Ids covered for every kept loan are covered for every loan of the list that satisfies the test. */
  lemma FilterCovered(loans: seq<Loan>, p: Loan -> bool, covered: set<string>)
    requires forall i :: 0 <= i < |Seqs.Filter(loans, p)| ==> Seqs.Filter(loans, p)[i].id in covered
    ensures forall j :: 0 <= j < |loans| && p(loans[j]) ==> loans[j].id in covered
  {
    var kept := Seqs.Filter(loans, p);
    forall j | 0 <= j < |loans| && p(loans[j])
      ensures loans[j].id in covered
    {
      var i :| 0 <= i < |kept| && kept[i] == loans[j];
    }
  }

  /** A notice among those of the overdue loans belongs to an overdue loan of the list. */
  lemma NoticeOfOverdueLoan(loans: seq<Loan>, now: Date, n: NewNotification)
    requires n in NoticesOf(Seqs.Filter(loans, IsOverdueAt(now)))
    ensures exists loan :: loan in loans && Status(loan, now) == Overdue && n == OverdueNotice(loan)
  {
    var overdueLoans := Seqs.Filter(loans, IsOverdueAt(now));
    var i :| 0 <= i < |overdueLoans| && NoticesOf(overdueLoans)[i] == n;
    var loan := overdueLoans[i];
    assert loan in loans && IsOverdueAt(now)(loan);
  }

  /**
   * `checkOverdueLoans`: nothing without a user, without loans or while
   * loading; otherwise a notice for each overdue loan that has no unread
   * notification yet, at most one per loan id; the create call is made only
   * for a non-empty batch.
   */
  method CheckOverdueLoans(hasUser: bool, loans: seq<Loan>, isLoading: bool, existingUnread: seq<Notification>, now: Date)
    returns (r: CheckOutcome)
    ensures r.Skipped? <==> !hasUser || loans == [] || isLoading
    ensures r.Checked? ==> (r.createCalled <==> r.batch != [])
    ensures r.Checked? ==> DistinctLoanIds(r.batch)
    ensures r.Checked? ==> forall k :: 0 <= k < |r.batch| ==> r.batch[k].loanId !in UnreadLoanIds(existingUnread) && !r.batch[k].isRead
    ensures r.Checked? ==> forall k :: 0 <= k < |r.batch| ==> r.batch[k] in NoticesOf(Seqs.Filter(loans, IsOverdueAt(now)))
    ensures r.Checked? ==> forall j :: 0 <= j < |loans| && Status(loans[j], now) == Overdue ==>
              loans[j].id in UnreadLoanIds(existingUnread) || loans[j].id in BatchIds(r.batch)
  {
    if !hasUser || loans == [] || isLoading {
      return Skipped;
    }
    var overdueLoans := Seqs.Filter(loans, IsOverdueAt(now));
    var batch := CollectNotices(overdueLoans, UnreadLoanIds(existingUnread));
    NoticesAreUnread(overdueLoans, batch);
    FilterCovered(loans, IsOverdueAt(now), UnreadLoanIds(existingUnread) + BatchIds(batch));
    r := Checked(batch, batch != []);
  }
}
