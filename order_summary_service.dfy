/**
 * internal/service/order_summary.go: the order-summary service. The repository
 * and the month-range getter are the functions it calls; they are parameters.
 */
module OrderSummaryService {
  import opened Wrappers
  import opened Errors
  import opened Datetime
  import opened DecimalText
  import opened Model
  import opened OrderSummaryRepo

  /** `CustomerOrderSummaryGetter.Calculate`: one summary, or an error. */
  type CalculateFn = (int, CustomerOrderSummaryGetCriteria) -> Result<CustomerOrderSummary, Error>

  /** `CustomerOrderSummaryGetter.GetLastOrderDate`: one time, or an error. */
  type LastOrderFn = (int, CustomerOrderSummaryGetCriteria) -> Result<Time, Error>

  /** `Getter.GetMonthStartAndEnd`: the first and last instants of the month `k` months back. */
  type MonthRangeFn = int -> (Time, Time)

  /**
   * `GetCustomerTotalSummary`: one all-time query with the caller's type and
   * status filters; a repository error comes back wrapped, with nothing else.
   */
  function GetCustomerTotalSummary(calculate: CalculateFn, customerId: int, orderType: seq<string>, excludeStatus: seq<string>)
    : (r: Result<CustomerOrderSummary, Error>)
    ensures var row := calculate(customerId, Criteria(orderType, None, None, excludeStatus));
      && (r.Success? <==> row.Success?)
      && (r.Success? ==> r.value == row.value)
      && (r.Failure? ==> Text(r.error) == "error getting customer order summary" + ": " + Text(row.error)
                         && forall s :: Is(r.error, s) <==> Is(row.error, s))
  {
    var criteria := Criteria(orderType, None, None, excludeStatus);
    var totalCos := calculate(customerId, criteria);
    if totalCos.Failure? then Failure(Wrapf("error getting customer order summary", totalCos.error))
    else totalCos
  }

  /**
   * `GetLastOrderDate`: the caller chooses the order types only; cancelled
   * orders are always excluded and no time range is applied.
   */
  function GetLastOrderDate(lastOrder: LastOrderFn, customerId: int, orderType: seq<string>): (r: Result<Time, Error>)
    ensures var row := lastOrder(customerId, Criteria(orderType, None, None, ["CANCELLED"]));
      && (r.Success? <==> row.Success?)
      && (r.Success? ==> r.value == row.value)
      && (r.Failure? ==> Text(r.error) == "error getting last order on" + ": " + Text(row.error)
                         && forall s :: Is(r.error, s) <==> Is(row.error, s))
  {
    var criteria := Criteria(orderType, None, None, ["CANCELLED"]);
    var lastOrderDate := lastOrder(customerId, criteria);
    if lastOrderDate.Failure? then Failure(Wrapf("error getting last order on", lastOrderDate.error))
    else lastOrderDate
  }

  /** The filters of the query for the month `month` months back. */
  function MonthCriteria(monthRange: MonthRangeFn, orderType: seq<string>, excludeStatus: seq<string>, month: int)
    : CustomerOrderSummaryGetCriteria
  {
    Criteria(orderType, Some(monthRange(month).0), Some(monthRange(month).1), excludeStatus)
  }

  /**
   * `GetCustomerMonthlySummaries`: one query per month, for the months 1, 2, …,
   * `months` back in that order (so the current month is not included). The
   * first failing month ends the loop and the partial list is dropped.
   * `offsets` records the month offsets the repository was asked for.
   */
  method GetCustomerMonthlySummaries(calculate: CalculateFn, monthRange: MonthRangeFn,
                                     customerId: int, orderType: seq<string>, excludeStatus: seq<string>, months: int)
    returns (r: Result<seq<CustomerMonthlyOrderSummary>, Error>, ghost offsets: seq<int>)
    ensures forall i :: 0 <= i < |offsets| ==> offsets[i] == i + 1
    ensures months <= 0 ==> r.Success? && r.value == [] && offsets == []
    ensures r.Success? <==>
      forall k :: 1 <= k <= months ==> calculate(customerId, MonthCriteria(monthRange, orderType, excludeStatus, k)).Success?
    ensures r.Success? ==>
      && |r.value| == |offsets| == (if months < 0 then 0 else months)
      && forall i :: 0 <= i < |r.value| ==>
           r.value[i] == CustomerMonthlyOrderSummary(
             calculate(customerId, MonthCriteria(monthRange, orderType, excludeStatus, i + 1)).value,
             monthRange(i + 1).0)
    ensures r.Failure? ==>
      var k := |offsets|;
      var row := calculate(customerId, MonthCriteria(monthRange, orderType, excludeStatus, k));
      && 1 <= k <= months
      && (forall j :: 1 <= j < k ==> calculate(customerId, MonthCriteria(monthRange, orderType, excludeStatus, j)).Success?)
      && row.Failure?
      && r.error == Wrapf("error getting customer order summary for month " + Digits(k), row.error)
  {
    var criteria := Criteria(orderType, None, None, excludeStatus);
    var monthlySummaries: seq<CustomerMonthlyOrderSummary> := [];
    offsets := [];
    var month := 1;
    while month <= months
      invariant 1 <= month <= (if months < 1 then 1 else months + 1)
      invariant |monthlySummaries| == |offsets| == month - 1
      invariant criteria.orderType == orderType && criteria.excludeStatus == excludeStatus
      invariant forall i :: 0 <= i < |offsets| ==> offsets[i] == i + 1
      invariant forall j :: 1 <= j < month ==>
        calculate(customerId, MonthCriteria(monthRange, orderType, excludeStatus, j)).Success?
      invariant forall i :: 0 <= i < |monthlySummaries| ==>
        monthlySummaries[i] == CustomerMonthlyOrderSummary(
             calculate(customerId, MonthCriteria(monthRange, orderType, excludeStatus, i + 1)).value,
             monthRange(i + 1).0)
    {
      var (start, end) := monthRange(month);
      criteria := criteria.(startTime := Some(start), endTime := Some(end));
      assert criteria == MonthCriteria(monthRange, orderType, excludeStatus, month);
      offsets := offsets + [month];

      var cos := calculate(customerId, criteria);
      if cos.Failure? {
        return Failure(Wrapf("error getting customer order summary for month " + Digits(month), cos.error)), offsets;
      }

      monthlySummaries := monthlySummaries + [CustomerMonthlyOrderSummary(cos.value, start)];
      month := month + 1;
    }
    r := Success(monthlySummaries);
  }

  /**
   * The total summary reaches the repository's `Calculate` with no range: it
   * binds only the customer, the excluded statuses and the types.
   */
  lemma TotalSummaryHasNoRange(customerId: int, orderType: seq<string>, excludeStatus: seq<string>)
    ensures var c := Criteria(orderType, None, None, excludeStatus);
      && !HasRange(c)
      && |CalculateArgs(customerId, c)| == 1 + |excludeStatus| + |orderType|
      && forall i :: 0 <= i < |CalculateArgs(customerId, c)| ==> !CalculateArgs(customerId, c)[i].TimeParam?
  {
    var c := Criteria(orderType, None, None, excludeStatus);
    CalculateArgsOrder(customerId, c);
    var ps := CalculateArgs(customerId, c);
    forall i | 0 <= i < |ps|
      ensures !ps[i].TimeParam?
    {
      if 1 <= i < 1 + |excludeStatus| {
        assert ps[1 + (i - 1)] == StringParam(excludeStatus[i - 1]);
      } else if i >= 1 + |excludeStatus| {
        assert ps[1 + |excludeStatus| + (i - 1 - |excludeStatus|)] == StringParam(orderType[i - 1 - |excludeStatus|]);
      }
    }
  }

  /**
   * Whatever types the caller asks for, the last-order query excludes the
   * status CANCELLED: it carries a `NOT IN` clause and binds "CANCELLED" last.
   */
  lemma LastOrderExcludesCancelled(customerId: int, orderType: seq<string>)
    ensures var c := Criteria(orderType, None, None, ["CANCELLED"]);
      var ps := LastOrderArgs(customerId, c);
      && |ps| == 2 + |orderType|
      && ps[|ps| - 1] == StringParam("CANCELLED")
      && Sql(StatusNotIn) in LastOrderSql(c)
  {
    var c := Criteria(orderType, None, None, ["CANCELLED"]);
    LastOrderArgsOrder(customerId, c);
    var ps := LastOrderArgs(customerId, c);
    assert ps[1 + |orderType| + 0] == StringParam("CANCELLED");
    var q0 := AddJoin([Sql(LastOrderSelect)], c) + LastOrderBase;
    var q1 := AddIn(q0, TypeNameIn, orderType);
    InExpands(StatusNotIn, ["CANCELLED"]);
    var q := LastOrderSql(c);
    assert q == q1 + In(StatusNotIn, ["CANCELLED"]).0 + [Sql(LatestFirst)];
    assert q[|q1|] == Sql(StatusNotIn);
  }

  /**
   * With the clock-driven getter and a reading on day 28 or before, the month
   * asked for at offset k is exactly k months before the current one: the current
   * month is never summarised and the months go back in time one by one. Every
   * call of the getter is taken to read the same instant `now`.
   */
  lemma MonthlyMonthsGoBack(now: Time, monthRange: MonthRangeFn, months: int)
    requires Valid(now) && now.day <= 28
    requires forall k :: monthRange(k) == GetMonthStartAndEnd(now, k)
    ensures forall k :: 1 <= k <= months ==>
      MonthIndex(monthRange(k).0.year, monthRange(k).0.month) == MonthIndex(now.year, now.month) - k
      && monthRange(k).0.day == 1
  {
    forall k | 1 <= k <= months
      ensures MonthIndex(monthRange(k).0.year, monthRange(k).0.month) == MonthIndex(now.year, now.month) - k
      ensures monthRange(k).0.day == 1
    {
      assert monthRange(k) == GetMonthStartAndEnd(now, k);
    }
  }

  /**
   * With the corrected getter the same holds on every day of the month, and
   * each month's range covers it whole: from day 1 to its last day. Here too
   * every call of the getter reads the same instant `now`.
   */
  lemma MonthlyMonthsGoBackCorrected(now: Time, monthRange: MonthRangeFn, months: int)
    requires Valid(now)
    requires forall k :: monthRange(k) == MonthStartAndEnd(now, k)
    ensures forall k :: 1 <= k <= months ==>
      var (start, end) := monthRange(k);
      && MonthIndex(start.year, start.month) == MonthIndex(now.year, now.month) - k
      && Valid(start) && start == Time(start.year, start.month, 1, 0, 0, 0, 0)
      && end == Time(start.year, start.month, DaysIn(start.year, start.month), 23, 59, 59, 0)
  {
    forall k | 1 <= k <= months
      ensures var (start, end) := monthRange(k);
        && MonthIndex(start.year, start.month) == MonthIndex(now.year, now.month) - k
        && Valid(start) && start == Time(start.year, start.month, 1, 0, 0, 0, 0)
        && end == Time(start.year, start.month, DaysIn(start.year, start.month), 23, 59, 59, 0)
    {
      assert monthRange(k) == MonthStartAndEnd(now, k);
    }
  }
}
