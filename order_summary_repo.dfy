/**
 * internal/repo/order_summary.go: the two order queries. Each grows its query
 * text clause by clause and its parameter list alongside; the database is a
 * function from (query text, parameters) to the scanned row or an error.
 */
module OrderSummaryRepo {
  import opened Wrappers
  import opened Errors
  import opened Datetime
  import opened Model

  /** The fixed SQL fragments the two queries are assembled from. */
  datatype Fragment =
    | CalculateSelect   // the summing SELECT, up to `orders.customer_id = `
    | LineEnd           // the newline that ends the base query of `Calculate`
    | CompletedBetween  // ` AND orders.completed_at BETWEEN `
    | And               // ` AND `
    | StatusNotIn       // ` AND orders.status NOT IN `
    | TypeNameIn        // ` AND order_types.name IN `
    | Open              // `(`
    | Comma             // `, `
    | Close             // `)`
    | LastOrderSelect   // the SELECT of `GetLastOrderDate`
    | OrderTypeJoin     // ` INNER JOIN order_types on …`
    | LastOrderWhere    // ` WHERE orders.organization_id = 2 AND orders.customer_id = `
    | LatestFirst       // ` ORDER BY orders.created_at DESC LIMIT 1`

  function FragmentText(f: Fragment): string {
    match f
    case CalculateSelect =>
      "\n\tSELECT\n\t\tIFNULL(SUM(amount), 0) AS amount,\n\t\tCOUNT(amount) AS count\n\tFROM\n\t\torders"
      + "\n\tINNER JOIN\n\t\torder_types ON orders.type_id = order_types.id"
      + "\n\tWHERE\n\t\torders.organization_id = 2\n\t\tAND orders.customer_id = "
    case LineEnd => "\n"
    case CompletedBetween => " AND orders.completed_at BETWEEN "
    case And => " AND "
    case StatusNotIn => " AND orders.status NOT IN "
    case TypeNameIn => " AND order_types.name IN "
    case Open => "("
    case Comma => ", "
    case Close => ")"
    case LastOrderSelect => "\n\tSELECT created_at \n\tFROM orders \n\t"
    case OrderTypeJoin => " INNER JOIN order_types on orders.type_id = order_types.id"
    case LastOrderWhere => " WHERE orders.organization_id = 2 AND orders.customer_id = "
    case LatestFirst => " ORDER BY orders.created_at DESC LIMIT 1"
  }

  /** A piece of query text: a fixed fragment, or one bind marker `?`. */
  datatype Piece = Sql(fragment: Fragment) | Bind

  type Query = seq<Piece>

  function PieceText(p: Piece): string {
    match p
    case Sql(f) => FragmentText(f)
    case Bind => "?"
  }

  /** The query text the driver receives (`Rebind` keeps `?` markers as they are). */
  function Render(q: Query): string {
    if q == [] then "" else Render(q[..|q| - 1]) + PieceText(q[|q| - 1])
  }


  /** Number of bind markers in a query. */
  function BindCount(q: Query): nat {
    multiset(q)[Bind]
  }

  /** A query argument: the customer id, a time bound, or a string from a filter list. */
  datatype Param = IntParam(n: int) | TimeParam(t: Time) | StringParam(s: string)

  function StringParams(values: seq<string>): seq<Param> {
    seq(|values|, i requires 0 <= i < |values| => StringParam(values[i]))
  }

  /** The `?, ?, …, ?` list that replaces `?` inside `(?)` for `n` values. */
  function BindList(n: nat): Query
    requires n >= 1
  {
    if n == 1 then [Bind] else BindList(n - 1) + [Sql(Comma), Bind]
  }

  /** `clause + "(?)"` once expanded over `n` values. */
  function InClause(clause: Fragment, n: nat): Query
    requires n >= 1
  {
    [Sql(clause), Sql(Open)] + BindList(n) + [Sql(Close)]
  }

  /** `sqlx.In(clause + "(?)", values)` for a non-empty slice: the expanded clause and its arguments. */
  function In(clause: Fragment, values: seq<string>): (Query, seq<Param>)
    requires |values| > 0
  {
    (InClause(clause, |values|), StringParams(values))
  }

  /** The list of markers for `n` values holds exactly `n` markers, and starts and ends with one. */
  lemma {:induction false} BindListShape(n: nat)
    requires n >= 1
    ensures BindCount(BindList(n)) == n
    ensures BindList(n)[0] == Bind && BindList(n)[|BindList(n)| - 1] == Bind
  {
    if n > 1 {
      BindListShape(n - 1);
      assert multiset(BindList(n)) == multiset(BindList(n - 1)) + multiset([Sql(Comma), Bind]);
    }
  }

  /**
   * `sqlx.In` expands `(?)` into one marker per value and returns the values
   * as arguments in order, the expanded text staying inside the clause's parentheses.
   */
  lemma InExpands(clause: Fragment, values: seq<string>)
    requires |values| > 0
    ensures var (q, args) := In(clause, values);
      && BindCount(q) == |args| == |values|
      && (forall i :: 0 <= i < |values| ==> args[i] == StringParam(values[i]))
      && q[0] == Sql(clause) && q[1] == Sql(Open) && q[2] == Bind
      && q[|q| - 2] == Bind && q[|q| - 1] == Sql(Close)
  {
    var q := InClause(clause, |values|);
    var list := BindList(|values|);
    BindListShape(|values|);
    assert q == [Sql(clause), Sql(Open)] + list + [Sql(Close)];
    assert q[2] == list[0] && q[|q| - 2] == list[|list| - 1];
    assert multiset(q) == multiset([Sql(clause), Sql(Open)]) + multiset(list) + multiset([Sql(Close)]);
  }

  /** The base query of `Calculate`: organization 2 and one customer. */
  const CalculateBase: Query := [Sql(CalculateSelect), Bind, Sql(LineEnd)]

  const RangeClause: Query := [Sql(CompletedBetween), Bind, Sql(And), Bind]

  const LastOrderBase: Query := [Sql(LastOrderWhere), Bind]

  /** The time range is bound only when both ends are given. */
  predicate HasRange(c: CustomerOrderSummaryGetCriteria) {
    c.startTime.Some? && c.endTime.Some?
  }

  /** The range step: the `BETWEEN` clause and its two bounds, when both bounds are set. */
  function AddRange(q: Query, c: CustomerOrderSummaryGetCriteria): Query {
    if HasRange(c) then q + RangeClause else q
  }

  function AddRangeArgs(ps: seq<Param>, c: CustomerOrderSummaryGetCriteria): seq<Param> {
    if HasRange(c) then ps + [TimeParam(c.startTime.value), TimeParam(c.endTime.value)] else ps
  }

  /** An `IN` step: the expanded clause and its values, when there are values. */
  function AddIn(q: Query, clause: Fragment, values: seq<string>): Query {
    if |values| > 0 then q + In(clause, values).0 else q
  }

  function AddInArgs(ps: seq<Param>, clause: Fragment, values: seq<string>): seq<Param> {
    if |values| > 0 then ps + In(clause, values).1 else ps
  }

  /** The query `Calculate` sends: base, time range, excluded statuses, order types. */
  function CalculateSql(c: CustomerOrderSummaryGetCriteria): Query {
    AddIn(AddIn(AddRange(CalculateBase, c), StatusNotIn, c.excludeStatus), TypeNameIn, c.orderType)
  }

  /** The arguments `Calculate` binds, in the order of its clauses. */
  function CalculateArgs(customerId: int, c: CustomerOrderSummaryGetCriteria): seq<Param> {
    AddInArgs(AddInArgs(AddRangeArgs([IntParam(customerId)], c), StatusNotIn, c.excludeStatus), TypeNameIn, c.orderType)
  }

  /** The join with `order_types`, only when order types are asked for. */
  function AddJoin(q: Query, c: CustomerOrderSummaryGetCriteria): Query {
    if |c.orderType| > 0 then q + [Sql(OrderTypeJoin)] else q
  }

  /** The query `GetLastOrderDate` sends: join if typed, customer, types, excluded statuses, newest first. */
  function LastOrderSql(c: CustomerOrderSummaryGetCriteria): Query {
    AddIn(AddIn(AddJoin([Sql(LastOrderSelect)], c) + LastOrderBase, TypeNameIn, c.orderType), StatusNotIn, c.excludeStatus)
      + [Sql(LatestFirst)]
  }

  /** The arguments `GetLastOrderDate` binds, in the order of its clauses. */
  function LastOrderArgs(customerId: int, c: CustomerOrderSummaryGetCriteria): seq<Param> {
    AddInArgs(AddInArgs([IntParam(customerId)], TypeNameIn, c.orderType), StatusNotIn, c.excludeStatus)
  }

  lemma BindCountAppend(a: Query, b: Query)
    ensures BindCount(a + b) == BindCount(a) + BindCount(b)
  {
    assert multiset(a + b) == multiset(a) + multiset(b);
  }

  lemma PieceMarkers(p: Piece)
    ensures BindCount([p]) == if p == Bind then 1 else 0
  {
    assert multiset([p]) == multiset{p};
  }

  /** The customer filter of `Calculate` holds one marker. */
  lemma CalculateBaseMarkers()
    ensures BindCount(CalculateBase) == 1
  {
    PieceMarkers(Sql(CalculateSelect));
    PieceMarkers(Bind);
    PieceMarkers(Sql(LineEnd));
    BindCountAppend([Sql(CalculateSelect)], [Bind]);
    BindCountAppend([Sql(CalculateSelect)] + [Bind], [Sql(LineEnd)]);
    assert CalculateBase == [Sql(CalculateSelect)] + [Bind] + [Sql(LineEnd)];
  }

  /** The range clause holds one marker per bound. */
  lemma RangeClauseMarkers()
    ensures BindCount(RangeClause) == 2
  {
    PieceMarkers(Sql(CompletedBetween));
    PieceMarkers(Bind);
    PieceMarkers(Sql(And));
    BindCountAppend([Sql(CompletedBetween)], [Bind]);
    BindCountAppend([Sql(And)], [Bind]);
    BindCountAppend([Sql(CompletedBetween)] + [Bind], [Sql(And)] + [Bind]);
    assert RangeClause == [Sql(CompletedBetween)] + [Bind] + ([Sql(And)] + [Bind]);
  }

  /** An `IN` step adds one marker per value. */
  lemma AddInMarkers(q: Query, clause: Fragment, values: seq<string>)
    ensures BindCount(AddIn(q, clause, values)) == BindCount(q) + |values|
  {
    if |values| > 0 {
      InExpands(clause, values);
      BindCountAppend(q, In(clause, values).0);
    }
  }

  /** An `IN` step keeps the arguments bound so far and puts its values after them, in order. */
  lemma AddInArgsStep(ps: seq<Param>, clause: Fragment, values: seq<string>)
    ensures var ps' := AddInArgs(ps, clause, values);
      && |ps'| == |ps| + |values|
      && (forall i :: 0 <= i < |ps| ==> ps'[i] == ps[i])
      && (forall i :: 0 <= i < |values| ==> ps'[|ps| + i] == StringParam(values[i]))
  {
    if |values| > 0 {
      InExpands(clause, values);
    }
  }

  /** An `IN` step only appends to the query. */
  lemma AddInKeepsPrefix(q: Query, clause: Fragment, values: seq<string>)
    ensures var q' := AddIn(q, clause, values);
      |q'| >= |q| && forall i :: 0 <= i < |q| ==> q'[i] == q[i]
  {
  }

  /** `Calculate` binds exactly one argument per marker: 1 + 2·[range] + |excluded| + |types| of them. */
  lemma CalculateBindsEveryMarker(customerId: int, c: CustomerOrderSummaryGetCriteria)
    ensures BindCount(CalculateSql(c)) == |CalculateArgs(customerId, c)|
    ensures |CalculateArgs(customerId, c)| == 1 + (if HasRange(c) then 2 else 0) + |c.excludeStatus| + |c.orderType|
  {
    var q0, p0 := AddRange(CalculateBase, c), AddRangeArgs([IntParam(customerId)], c);
    CalculateBaseMarkers();
    RangeClauseMarkers();
    BindCountAppend(CalculateBase, RangeClause);
    var q1, p1 := AddIn(q0, StatusNotIn, c.excludeStatus), AddInArgs(p0, StatusNotIn, c.excludeStatus);
    AddInMarkers(q0, StatusNotIn, c.excludeStatus);
    AddInArgsStep(p0, StatusNotIn, c.excludeStatus);
    AddInMarkers(q1, TypeNameIn, c.orderType);
    AddInArgsStep(p1, TypeNameIn, c.orderType);
  }

  /**
   * `Calculate` binds the customer first, then the two range bounds when both
   * are given, then the excluded statuses, then the order types.
   */
  lemma CalculateArgsOrder(customerId: int, c: CustomerOrderSummaryGetCriteria)
    ensures var ps, r := CalculateArgs(customerId, c), if HasRange(c) then 2 else 0;
      && |ps| == 1 + r + |c.excludeStatus| + |c.orderType|
      && ps[0] == IntParam(customerId)
      && (HasRange(c) ==> ps[1] == TimeParam(c.startTime.value) && ps[2] == TimeParam(c.endTime.value))
      && (forall i :: 0 <= i < |c.excludeStatus| ==> ps[1 + r + i] == StringParam(c.excludeStatus[i]))
      && (forall i :: 0 <= i < |c.orderType| ==> ps[1 + r + |c.excludeStatus| + i] == StringParam(c.orderType[i]))
  {
    var p0 := AddRangeArgs([IntParam(customerId)], c);
    var p1 := AddInArgs(p0, StatusNotIn, c.excludeStatus);
    AddInArgsStep(p0, StatusNotIn, c.excludeStatus);
    AddInArgsStep(p1, TypeNameIn, c.orderType);
  }

  /**
   * Every `Calculate` query starts with the organization-2 and customer filter,
   * followed by the range clause exactly when both bounds are set.
   */
  lemma CalculateStartsWithBase(c: CustomerOrderSummaryGetCriteria)
    ensures var q := CalculateSql(c);
      && |q| >= |CalculateBase| && q[..|CalculateBase|] == CalculateBase
      && (HasRange(c) ==> |q| >= |CalculateBase| + |RangeClause| && q[|CalculateBase|..|CalculateBase| + |RangeClause|] == RangeClause)
      && (!HasRange(c) && |q| > |CalculateBase| ==> q[|CalculateBase|] in {Sql(StatusNotIn), Sql(TypeNameIn)})
  {
    var q0 := AddRange(CalculateBase, c);
    var q1 := AddIn(q0, StatusNotIn, c.excludeStatus);
    var q := CalculateSql(c);
    AddInKeepsPrefix(q0, StatusNotIn, c.excludeStatus);
    AddInKeepsPrefix(q1, TypeNameIn, c.orderType);
    assert q[..|CalculateBase|] == CalculateBase;
    if HasRange(c) {
      assert q[|CalculateBase|..|CalculateBase| + |RangeClause|] == RangeClause;
    } else if |q| > |CalculateBase| {
      if |c.excludeStatus| > 0 {
        InExpands(StatusNotIn, c.excludeStatus);
        assert q[|CalculateBase|] == q1[|CalculateBase|];
      } else {
        InExpands(TypeNameIn, c.orderType);
      }
    }
  }

  /** Either bound missing gives exactly the range-free query and arguments. */
  lemma CalculateRangeNeedsBoth(customerId: int, c: CustomerOrderSummaryGetCriteria)
    requires c.startTime.None? || c.endTime.None?
    ensures var plain := c.(startTime := None, endTime := None);
      CalculateSql(c) == CalculateSql(plain) && CalculateArgs(customerId, c) == CalculateArgs(customerId, plain)
  {
  }

  /** The select, the optional join and the customer filter of `GetLastOrderDate` hold one marker. */
  lemma LastOrderBaseMarkers(c: CustomerOrderSummaryGetCriteria)
    ensures BindCount(AddJoin([Sql(LastOrderSelect)], c) + LastOrderBase) == 1
  {
    PieceMarkers(Sql(LastOrderSelect));
    PieceMarkers(Sql(OrderTypeJoin));
    PieceMarkers(Sql(LastOrderWhere));
    PieceMarkers(Bind);
    BindCountAppend([Sql(LastOrderSelect)], [Sql(OrderTypeJoin)]);
    BindCountAppend([Sql(LastOrderWhere)], [Bind]);
    assert LastOrderBase == [Sql(LastOrderWhere)] + [Bind];
    BindCountAppend(AddJoin([Sql(LastOrderSelect)], c), LastOrderBase);
  }

  /** `GetLastOrderDate` binds exactly one argument per marker: 1 + |types| + |excluded| of them. */
  lemma LastOrderBindsEveryMarker(customerId: int, c: CustomerOrderSummaryGetCriteria)
    ensures BindCount(LastOrderSql(c)) == |LastOrderArgs(customerId, c)|
    ensures |LastOrderArgs(customerId, c)| == 1 + |c.orderType| + |c.excludeStatus|
  {
    var q0, p0 := AddJoin([Sql(LastOrderSelect)], c) + LastOrderBase, [IntParam(customerId)];
    LastOrderBaseMarkers(c);
    PieceMarkers(Sql(LatestFirst));
    var q1, p1 := AddIn(q0, TypeNameIn, c.orderType), AddInArgs(p0, TypeNameIn, c.orderType);
    AddInMarkers(q0, TypeNameIn, c.orderType);
    AddInArgsStep(p0, TypeNameIn, c.orderType);
    var q2 := AddIn(q1, StatusNotIn, c.excludeStatus);
    AddInMarkers(q1, StatusNotIn, c.excludeStatus);
    AddInArgsStep(p1, StatusNotIn, c.excludeStatus);
    BindCountAppend(q2, [Sql(LatestFirst)]);
  }

  /** `GetLastOrderDate` binds the customer, then the order types, then the excluded statuses. */
  lemma LastOrderArgsOrder(customerId: int, c: CustomerOrderSummaryGetCriteria)
    ensures var ps := LastOrderArgs(customerId, c);
      && |ps| == 1 + |c.orderType| + |c.excludeStatus|
      && ps[0] == IntParam(customerId)
      && (forall i :: 0 <= i < |c.orderType| ==> ps[1 + i] == StringParam(c.orderType[i]))
      && (forall i :: 0 <= i < |c.excludeStatus| ==> ps[1 + |c.orderType| + i] == StringParam(c.excludeStatus[i]))
  {
    var p1 := AddInArgs([IntParam(customerId)], TypeNameIn, c.orderType);
    AddInArgsStep([IntParam(customerId)], TypeNameIn, c.orderType);
    AddInArgsStep(p1, StatusNotIn, c.excludeStatus);
  }

  /**
   * The last-order query selects from `orders`, joins `order_types` exactly
   * when types are asked for, and always ends newest-first with limit 1.
   */
  lemma LastOrderShape(c: CustomerOrderSummaryGetCriteria)
    ensures var q := LastOrderSql(c);
      && |q| >= 3 && q[0] == Sql(LastOrderSelect) && q[|q| - 1] == Sql(LatestFirst)
      && (q[1] == Sql(OrderTypeJoin) <==> |c.orderType| > 0)
  {
    var q0 := AddJoin([Sql(LastOrderSelect)], c) + LastOrderBase;
    var q1 := AddIn(q0, TypeNameIn, c.orderType);
    AddInKeepsPrefix(q0, TypeNameIn, c.orderType);
    AddInKeepsPrefix(q1, StatusNotIn, c.excludeStatus);
    var q := LastOrderSql(c);
    assert q[0] == q0[0] && q[1] == q0[1];
  }

  /** The text sent for the last order date ends with `ORDER BY orders.created_at DESC LIMIT 1`. */
  lemma LastOrderTextEndsLatestFirst(c: CustomerOrderSummaryGetCriteria)
    ensures var text, suffix := Render(LastOrderSql(c)), FragmentText(LatestFirst);
      |text| >= |suffix| && text[|text| - |suffix|..] == suffix
  {
    var q := LastOrderSql(c);
    assert q[..|q| - 1] + [q[|q| - 1]] == q;
  }

  /** With one excluded status and nothing else, `Calculate` adds one `NOT IN (?)` clause and one argument. */
  lemma CalculateExcludeOneStatus(customerId: int)
    ensures CalculateSql(Criteria([], None, None, ["CANCELLED"]))
      == CalculateBase + [Sql(StatusNotIn), Sql(Open), Bind, Sql(Close)]
    ensures CalculateArgs(customerId, Criteria([], None, None, ["CANCELLED"]))
      == [IntParam(customerId), StringParam("CANCELLED")]
  {
    assert BindList(1) == [Bind];
    assert StringParams(["CANCELLED"]) == [StringParam("CANCELLED")];
  }

  /** `Calculate`: the scanned summary; the zero summary when there is no row; otherwise the wrapped error. */
  method Calculate(customerId: int, criteria: CustomerOrderSummaryGetCriteria,
                   db: (string, seq<Param>) -> Result<CustomerOrderSummary, Error>)
    returns (r: Result<CustomerOrderSummary, Error>)
    ensures var row := db(Render(CalculateSql(criteria)), CalculateArgs(customerId, criteria));
      && (row.Success? ==> r == row)
      && (row.Failure? && Is(row.error, NoRows) ==> r == Success(ZeroSummary))
      && (row.Failure? && !Is(row.error, NoRows) ==> r == Failure(Wrapf("error getting order summary", row.error)))
  {
    var params: seq<Param> := [];
    var query := CalculateBase;
    params := params + [IntParam(customerId)];

    if criteria.startTime.Some? && criteria.endTime.Some? {
      query := query + RangeClause;
      params := params + [TimeParam(criteria.startTime.value), TimeParam(criteria.endTime.value)];
    }
    assert query == AddRange(CalculateBase, criteria);
    assert params == AddRangeArgs([IntParam(customerId)], criteria);

    if |criteria.excludeStatus| > 0 {
      var (inQuery, args) := In(StatusNotIn, criteria.excludeStatus);
      query := query + inQuery;
      params := params + args;
    }
    assert query == AddIn(AddRange(CalculateBase, criteria), StatusNotIn, criteria.excludeStatus);
    assert params == AddInArgs(AddRangeArgs([IntParam(customerId)], criteria), StatusNotIn, criteria.excludeStatus);

    if |criteria.orderType| > 0 {
      var (inQuery, args) := In(TypeNameIn, criteria.orderType);
      query := query + inQuery;
      params := params + args;
    }
    assert query == CalculateSql(criteria);
    assert params == CalculateArgs(customerId, criteria);

    var row := db(Render(query), params);
    if row.Failure? {
      if Is(row.error, NoRows) {
        return Success(ZeroSummary);
      }
      return Failure(Wrapf("error getting order summary", row.error));
    }
    r := row;
  }

  /** `GetLastOrderDate`: the newest order's time; the zero time when there is none; otherwise the wrapped error. */
  method GetLastOrderDate(customerId: int, criteria: CustomerOrderSummaryGetCriteria,
                          db: (string, seq<Param>) -> Result<Time, Error>)
    returns (r: Result<Time, Error>)
    ensures var row := db(Render(LastOrderSql(criteria)), LastOrderArgs(customerId, criteria));
      && (row.Success? ==> r == row)
      && (row.Failure? && Is(row.error, NoRows) ==> r == Success(ZeroTime) && IsZero(r.value))
      && (row.Failure? && !Is(row.error, NoRows) ==> r == Failure(Wrapf("error getting last order", row.error)))
  {
    var params: seq<Param> := [];
    var query := [Sql(LastOrderSelect)];
    if |criteria.orderType| > 0 {
      query := query + [Sql(OrderTypeJoin)];
    }
    query := query + LastOrderBase;
    params := params + [IntParam(customerId)];
    assert query == AddJoin([Sql(LastOrderSelect)], criteria) + LastOrderBase;
    assert params == [IntParam(customerId)];

    if |criteria.orderType| > 0 {
      var (inQuery, args) := In(TypeNameIn, criteria.orderType);
      query := query + inQuery;
      params := params + args;
    }
    assert query == AddIn(AddJoin([Sql(LastOrderSelect)], criteria) + LastOrderBase, TypeNameIn, criteria.orderType);
    assert params == AddInArgs([IntParam(customerId)], TypeNameIn, criteria.orderType);

    if |criteria.excludeStatus| > 0 {
      var (inQuery, args) := In(StatusNotIn, criteria.excludeStatus);
      query := query + inQuery;
      params := params + args;
    }

    query := query + [Sql(LatestFirst)];
    assert query == LastOrderSql(criteria);
    assert params == LastOrderArgs(customerId, criteria);

    var row := db(Render(query), params);
    if row.Failure? {
      if Is(row.error, NoRows) {
        return Success(ZeroTime);
      }
      return Failure(Wrapf("error getting last order", row.error));
    }
    r := row;
  }
}
