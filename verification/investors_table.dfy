/**
 * The investors table: the next payout date of each investor and the cells
 * and controls of its row.
 */
module InvestorsTable {
  import opened Wrappers
  import opened Dates
  import opened InvestorCalculations

  /** How many whole months after the start the next payout falls: none if the start is still ahead, otherwise one past the months completed. */
  function PayoutMonths(start: Date, today: Date): nat {
    if Before(today, start) then 0 else MonthsCompleted(start, today) + 1
  }

  /** The next payout: the start date moved on by whole months until it lies after today. */
  function NextPayout(start: Date, today: Date): (r: Date)
    ensures Before(today, r)
    ensures Before(today, start) ==> r == start
  {
    var k := PayoutMonths(start, today);
    assert Before(today, AddMonths(start, k)) by {
      if k > 0 {
        MonthsCompletedCountsAnniversaries(start, today, k);
      }
    }
    AddMonths(start, k)
  }

  /** No earlier month-anniversary of the start date lies after today: the next payout is the first one that does. */
  lemma NextPayoutIsFirst(start: Date, today: Date, j: nat)
    requires j < PayoutMonths(start, today)
    ensures NotAfter(AddMonths(start, j), today)
  {
    if j > 0 {
      MonthsCompletedCountsAnniversaries(start, today, j);
    } else {
      assert AddMonths(start, 0) == start;
    }
  }

  /** `calculateNextPayoutDate`: step the date on by one month while it is not after today. */
  method CalculateNextPayoutDate(start: Date, today: Date) returns (nextPayout: Date)
    ensures nextPayout == NextPayout(start, today)
    ensures Before(today, nextPayout)
  {
    nextPayout := start;
    var k: nat := 0;
    assert AddMonths(start, 0) == start;
    while NotAfter(nextPayout, today)
      invariant k <= PayoutMonths(start, today)
      invariant nextPayout == AddMonths(start, k)
      decreases PayoutMonths(start, today) - k
    {
      nextPayout := AddMonths(nextPayout, 1);
      k := k + 1;
    }
    if k < PayoutMonths(start, today) {
      NextPayoutIsFirst(start, today, k);
    }
  }

  // ------------------------------------------------------------------ a row

  datatype InvestorRow = InvestorRow(
    profitLoss: real,
    profitLossIsGain: bool,
    missedMonthsAlert: bool,
    statusChip: string,
    nextPayout: Option<Date>,
    payDisabled: bool)

  /** `getStatusChip`: the colour classes of a status. */
  function StatusChip(status: InvestorStatus): string {
    match status
    case OnTrack => "bg-green-100 text-green-800"
    case Delayed => "bg-yellow-100 text-yellow-800"
    case Closed => "bg-gray-100 text-gray-800"
  }

  /** The three statuses are told apart by their chips. */
  lemma StatusChipsDistinct(a: InvestorStatus, b: InvestorStatus)
    ensures StatusChip(a) == StatusChip(b) <==> a == b
  {
    if a != b {
      assert StatusChip(a)[5] != StatusChip(b)[5];
    }
  }

  /**
   * One row: the profit or loss is what was paid out less the investment;
   * a Closed investor has no next payout (`'N/A'`) and its Pay button is
   * disabled.
   */
  function Row(investor: Investor, today: Date): (r: InvestorRow)
    ensures r.profitLoss == TotalPaid(investor.payments) - investor.investmentAmount
    ensures r.profitLossIsGain <==> r.profitLoss >= 0.0
    ensures r.nextPayout.None? <==> investor.status == Closed
    ensures r.payDisabled <==> investor.status == Closed
    ensures r.nextPayout.Some? ==> Before(today, r.nextPayout.value)
    ensures r.missedMonthsAlert <==> Metrics(investor, today).missedMonths > 0
    ensures r.statusChip == StatusChip(Metrics(investor, today).status)
  {
    var metrics := Metrics(investor, today);
    var profitLoss := metrics.totalPaid - investor.investmentAmount;
    InvestorRow(
      profitLoss,
      profitLoss >= 0.0,
      metrics.missedMonths > 0,
      StatusChip(metrics.status),
      if investor.status != Closed then Some(NextPayout(investor.startDate, today)) else None,
      investor.status == Closed)
  }

  /** A Closed investor's row wears the Closed chip and shows no missed months. */
  lemma ClosedRow(investor: Investor, today: Date)
    requires investor.status == Closed
    ensures Row(investor, today).statusChip == StatusChip(Closed)
    ensures !Row(investor, today).missedMonthsAlert
  {
  }
}
