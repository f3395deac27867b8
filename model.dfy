/** The records of internal/model: wallets, ledger transactions, request bodies and order summaries. */
module Model {
  import opened Wrappers
  import opened Datetime
  import opened TransactionType

  /** Exact money: shopspring/decimal values are rationals of arbitrary precision. */
  type Money = real

  /** A 128-bit UUID, compared by value. */
  datatype Uuid = Uuid(value: nat)

  /** A row of the `wallets` table. */
  datatype Wallet = Wallet(id: Uuid, userId: Uuid, name: string, balance: Money, createdAt: Time, updatedAt: Time)

  /** A row of the `transactions` table; `relatedWalletId` is the nullable counterparty. */
  datatype Transaction = Transaction(
    id: Uuid,
    walletId: Uuid,
    txnType: TransactionType,
    amount: Money,
    relatedWalletId: Option<Uuid>,
    createdAt: Time)

  /** Request bodies, as decoded by the JSON binder. */
  datatype AmountRequest = AmountRequest(amount: Money)
  datatype TransferRequest = TransferRequest(amount: Money, destinationWalletId: string)

  /** Filters of an order-summary query; an absent time is Go's nil. */
  datatype CustomerOrderSummaryGetCriteria = Criteria(
    orderType: seq<string>,
    startTime: Option<Time>,
    endTime: Option<Time>,
    excludeStatus: seq<string>)

  datatype CustomerOrderSummary = CustomerOrderSummary(totalAmount: Money, orderCount: int)

  /** The zero value Go leaves in a summary that no row was scanned into. */
  const ZeroSummary := CustomerOrderSummary(0.0, 0)

  datatype CustomerMonthlyOrderSummary = CustomerMonthlyOrderSummary(summary: CustomerOrderSummary, month: Time)

  datatype CustomerOrderMonthlySummaryResponse = CustomerOrderMonthlySummaryResponse(
    orderAmount: Money,
    orderCount: int,
    month: string)

  /** `lastOrderedOn` is omitted from the JSON when it is "". */
  datatype CustomerOrderSummaryResponse = CustomerOrderSummaryResponse(
    totalAmount: Money,
    totalOrders: int,
    lastOrderedOn: string,
    monthlySummary: seq<CustomerOrderMonthlySummaryResponse>)

  datatype OrderSummaryResponse = OrderSummaryResponse(summary: CustomerOrderSummaryResponse)
}
