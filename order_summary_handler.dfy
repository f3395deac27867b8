/**
 * internal/handler/rest/order_summary.go: the order-summary endpoint. The
 * parsed path parameter and the bound query string are inputs; the three
 * service calls are the functions the handler is given.
 */
module OrderSummaryHandler {
  import opened Wrappers
  import opened Errors
  import opened Datetime
  import opened Model
  import opened RestJson

  /** The bound query string; `months` is absent when the request does not give it. */
  datatype SummaryQuery = SummaryQuery(orderType: seq<string>, excludeStatus: seq<string>, months: Option<int>)

  /** The `default=3` of the `months` form tag. */
  const DefaultMonths := 3

  function Months(q: SummaryQuery): int {
    q.months.GetOr(DefaultMonths)
  }

  type TotalSummaryFn = (int, seq<string>, seq<string>) -> Result<CustomerOrderSummary, Error>
  type LastOrderDateFn = (int, seq<string>) -> Result<Option<Time>, Error>
  type MonthlySummariesFn = (int, seq<string>, seq<string>, int) -> Result<seq<CustomerMonthlyOrderSummary>, Error>

  /** One month of the response: amounts copied, the month written "2006-01". */
  function MonthlyResponse(s: CustomerMonthlyOrderSummary): CustomerOrderMonthlySummaryResponse {
    CustomerOrderMonthlySummaryResponse(s.summary.totalAmount, s.summary.orderCount, FormatYearMonth(s.month))
  }

  /** `lastOrderedOn`: the formatted date when there is one and it is not the zero time, else "". */
  function LastOrderedOn(lastOrderDate: Option<Time>): string {
    if lastOrderDate.Some? && !IsZero(lastOrderDate.value) then FormatDateTime(lastOrderDate.value) else ""
  }

  /** The response field is empty exactly when there is no date to show. */
  lemma LastOrderedOnEmptyIffNoDate(lastOrderDate: Option<Time>)
    ensures LastOrderedOn(lastOrderDate) == "" <==> lastOrderDate.None? || IsZero(lastOrderDate.value)
    ensures lastOrderDate.Some? && !IsZero(lastOrderDate.value) ==>
      LastOrderedOn(lastOrderDate) == FormatDateTime(lastOrderDate.value)
  {
    if lastOrderDate.Some? {
      FormatDateTimeNonEmpty(lastOrderDate.value);
    }
  }

  /**
   * What the 200 body says about the three service results: the totals copied,
   * the last order date when known, and one entry per month in the same order.
   */
  predicate IsResponseFor(response: OrderSummaryResponse, summary: CustomerOrderSummary,
                          lastOrderDate: Option<Time>, monthly: seq<CustomerMonthlyOrderSummary>)
  {
    var s := response.summary;
    && s.totalAmount == summary.totalAmount
    && s.totalOrders == summary.orderCount
    && s.lastOrderedOn == LastOrderedOn(lastOrderDate)
    && |s.monthlySummary| == |monthly|
    && forall i :: 0 <= i < |monthly| ==> s.monthlySummary[i] == MonthlyResponse(monthly[i])
  }

  /**
   * The response assembly: the totals, the conditional `lastOrderedOn`, then
   * one appended entry per month.
   */
  method BuildResponse(summary: CustomerOrderSummary, lastOrderDate: Option<Time>, monthly: seq<CustomerMonthlyOrderSummary>)
    returns (response: OrderSummaryResponse)
    ensures IsResponseFor(response, summary, lastOrderDate, monthly)
  {
    response := OrderSummaryResponse(CustomerOrderSummaryResponse(summary.totalAmount, summary.orderCount, "", []));
    if lastOrderDate.Some? && !IsZero(lastOrderDate.value) {
      response := response.(summary := response.summary.(lastOrderedOn := FormatDateTime(lastOrderDate.value)));
    }
    ghost var lastOrderedOn := response.summary.lastOrderedOn;
    assert lastOrderedOn == LastOrderedOn(lastOrderDate);

    var i := 0;
    while i < |monthly|
      invariant 0 <= i <= |monthly|
      invariant response.summary.totalAmount == summary.totalAmount
      invariant response.summary.totalOrders == summary.orderCount
      invariant response.summary.lastOrderedOn == lastOrderedOn
      invariant |response.summary.monthlySummary| == i
      invariant forall j :: 0 <= j < i ==> response.summary.monthlySummary[j] == MonthlyResponse(monthly[j])
    {
      var entry := MonthlyResponse(monthly[i]);
      response := response.(summary := response.summary.(monthlySummary := response.summary.monthlySummary + [entry]));
      i := i + 1;
    }
  }

  /**
   * `GetCustomerOrderSummary`. 400 for a customer id that is not an integer,
   * a query that does not bind, or a month count below 1, each before any
   * service call; then the service calls in the order total, last date,
   * monthly, the first error answering 500 with its text; else 200 with the
   * totals copied, the last order date when known, and one entry per month in
   * the service's order.
   */
  method GetCustomerOrderSummary(customerId: Option<int>, query: Result<SummaryQuery, Error>,
                                 totalSummary: TotalSummaryFn, lastOrderDate: LastOrderDateFn,
                                 monthlySummaries: MonthlySummariesFn)
    returns (reply: Reply<OrderSummaryResponse>)
    ensures customerId.None? ==> reply == ErrorReply(ErrorResponse(StatusBadRequest, Text(Sentinel(InvalidCustomerId))))
    ensures customerId.Some? && query.Failure? ==> reply == ErrorReply(ErrorResponse(StatusBadRequest, Text(query.error)))
    ensures customerId.Some? && query.Success? && Months(query.value) <= 0 ==>
      reply == ErrorReply(ErrorResponse(StatusBadRequest, Text(Sentinel(MonthsMustBeGreaterThanZero))))
    ensures customerId.Some? && query.Success? && Months(query.value) > 0 ==>
      var id, q := customerId.value, query.value;
      var total := totalSummary(id, q.orderType, q.excludeStatus);
      var last := lastOrderDate(id, q.orderType);
      var monthly := monthlySummaries(id, q.orderType, q.excludeStatus, Months(q));
      && (total.Failure? ==> reply == ErrorReply(ErrorResponse(StatusInternalServerError, Text(total.error))))
      && (total.Success? && last.Failure? ==>
            reply == ErrorReply(ErrorResponse(StatusInternalServerError, Text(last.error))))
      && (total.Success? && last.Success? && monthly.Failure? ==>
            reply == ErrorReply(ErrorResponse(StatusInternalServerError, Text(monthly.error))))
      && (total.Success? && last.Success? && monthly.Success? ==>
            && reply.DataReply? && reply.Status() == StatusOK
            && IsResponseFor(reply.body.data, total.value, last.value, monthly.value))
  {
    if customerId.None? {
      return ResponseError(StatusBadRequest, Some(Sentinel(InvalidCustomerId)));
    }
    var id := customerId.value;
    if query.Failure? {
      return ResponseError(StatusBadRequest, Some(query.error));
    }
    var req := query.value;
    var months := Months(req);
    if months <= 0 {
      return ResponseError(StatusBadRequest, Some(Sentinel(MonthsMustBeGreaterThanZero)));
    }

    var summary := totalSummary(id, req.orderType, req.excludeStatus);
    if summary.Failure? {
      return ResponseError(StatusInternalServerError, Some(summary.error));
    }
    var last := lastOrderDate(id, req.orderType);
    if last.Failure? {
      return ResponseError(StatusInternalServerError, Some(last.error));
    }
    var monthly := monthlySummaries(id, req.orderType, req.excludeStatus, months);
    if monthly.Failure? {
      return ResponseError(StatusInternalServerError, Some(monthly.error));
    }

    var response := BuildResponse(summary.value, last.value, monthly.value);
    reply := ResponseData(response);
  }

  /**
   * With normalised months in years 0..9999, the response labels are as
   * distinct as the service's months: two entries share a label only when
   * they summarise the same calendar month.
   */
  lemma MonthLabelsIdentifyMonths(ms: seq<CustomerMonthlyOrderSummary>, i: int, j: int)
    requires 0 <= i < |ms| && 0 <= j < |ms|
    requires Valid(ms[i].month) && 0 <= ms[i].month.year <= 9999
    requires Valid(ms[j].month) && 0 <= ms[j].month.year <= 9999
    requires MonthlyResponse(ms[i]).month == MonthlyResponse(ms[j]).month
    ensures ms[i].month.year == ms[j].month.year && ms[i].month.month == ms[j].month.month
  {
    FormatYearMonthInjective(ms[i].month, ms[j].month);
  }

  /** `GetUserTransactions`: 200 with the parsed user id, or 0 when it does not parse. */
  function GetUserTransactions(userId: Option<int>): (r: Reply<int>)
    ensures r.DataReply? && r.Status() == StatusOK
    ensures r.body.data == (if userId.Some? then userId.value else 0)
  {
    ResponseData(userId.GetOr(0))
  }
}
