# wallet-app core, modelled in Dafny

This project models the service core of the Go program `wallet-app`, which has two parts.

The **wallet API** consists of:
- the HTTP handlers for reading a wallet, depositing, withdrawing and transferring;
- the wallet service, which refuses non-positive deposits and prefixes errors with `service.Deposit`;
- the wallet repository. Its deposit is one database transaction: it locks the wallet row, raises the balance, appends a `deposit` ledger record and commits, all or nothing.

The **order-summary API** consists of:
- the handler that checks the customer id and the query and then builds the response;
- the service that asks for the all-time totals, the last order date and one summary per past month;
- the repository that assembles the two SQL queries clause by clause, with their bind arguments;
- the calendar helpers `GetMonthStartAndEnd` and `GetLastDayOfMonth`.

Alongside these are the configuration validation, the JSON envelopes of `pkg/restjson`, and the transaction type.

How the program's pieces are represented:
- **Errors** are values. The datatype covers sentinels, `errors.New` and `fmt.Errorf("…: %w")` wrapping. `Text` gives the text `Error()` returns, and `Is` models `errors.Is`.
- **The wallet store** is a class. Its `wallets` map and `records` sequence stand for the two tables. `Deposit` stages its writes and assigns them only at commit, so an early return leaves both tables unchanged, as the deferred rollback does.
- **Outside calls become parameters.** This covers `uuid.Parse`, the database, the clock, `uuid.New` and the services a handler calls. A database failure at any step of a deposit is injected through a `Fault` value.
- **Calendar arithmetic** follows Go's `time.Date`/`AddDate` normalisation, including the overflow of a day that does not exist in the target month.

## Model

| member | source | states |
|---|---|---|
| Errors.Wrapf | internal/service/wallet.go:39 | a `%w` wrap prefixes the text with "prefix: " and keeps every sentinel recognisable to `errors.Is` |
| TransactionType.IsValid | internal/model/transtraction_type.go:13-19 | a type is valid exactly when it is one of the three constants, compared without case folding |
| TransactionType.ExactlyThreeValid | internal/model/transtraction_type.go:6-10 | the three constants are distinct, so exactly three values are valid |
| TransactionType.OtherSpellingsInvalid | internal/model/transtraction_type.go:14-18 | "", capitalised and truncated spellings are rejected |
| RestJson.ToLower | pkg/restjson/response.go:25 | lower-casing keeps the length, leaves no capital letter, turns each capital into the same letter in lower case, and keeps every other character |
| RestJson.ToLowerIdempotent | pkg/restjson/response.go:25 | lower-casing a lower-cased text changes nothing |
| RestJson.LoweredStatusTexts | pkg/restjson/response.go:25 | the default messages are "ok", "bad request", "not found" and "internal server error" |
| RestJson.ResponseError | pkg/restjson/response.go:22-33 | an error envelope whose HTTP status and code are `code`; its message is the error's text when there is one, else the lower-cased status text |
| RestJson.ResponseData | pkg/restjson/response.go:36-43 | always status 200, with the data unchanged |
| RestJson.ResponseErrorTable | pkg/restjson/response_test.go:29-50 | the two test rows: a given error gives its text; no error with 404 gives "not found" |
| Config.FirstUnsetFromIsFirst | internal/config/config.go:74-104 | the scan stops at the first unset variable, and every earlier one is set |
| Config.Validate | internal/config/config.go:74-104 | no error iff all seven variables are set; otherwise the error names the FIRST unset variable in check order and wraps `ErrEnvVarsNotSet` |
| Config.ValidateErrorIsEnvVarsNotSet | internal/config/config.go:76-100 | every validation error satisfies `errors.Is(err, ErrEnvVarsNotSet)` |
| Config.ValidateIgnoresUncheckedFields | internal/config/config.go:13-30 | ENV, the pool sizes and the connection lifetime never affect validation |
| Config.Load | internal/config/config.go:39-72 | the configuration is returned as read even when invalid; the error is exactly `validate()`'s: absent iff every variable is set, else the first unset variable's name wrapping `ErrEnvVarsNotSet` |
| Config.LoadTable | internal/config/config_test.go:14-147 | the load test and the seven missing-variable rows, each with its variable-named error |
| Datetime.DaysIn | pkg/datetime/datetime.go:33-39 | month lengths are 28..31, and February has 29 days exactly in leap years |
| Datetime.NormMonth | pkg/datetime/datetime.go:25 | month normalisation lands in 1..12 without changing the absolute month |
| Datetime.NormDay | pkg/datetime/datetime.go:36 | day normalisation keeps an in-range day; day 0 is the last day of the previous month; an overflow carries into the next month |
| Datetime.Date | pkg/datetime/datetime.go:26-27 | `time.Date` yields a normalised time with the clock as given; after the month is normalised, an in-range day is kept, day 0 is the previous month's last day, and a day past the end carries into the next month |
| Datetime.AddDate | pkg/datetime/datetime.go:25 | `AddDate` adds to the fields and normalises as `time.Date` does: the clock is kept; the shifted month is normalised; the shifted day is kept when in range, day 0 goes to the previous month's last day, and an overflow carries into the next month |
| Datetime.GetLastDayOfMonth | pkg/datetime/datetime.go:33-39 | as written: the month's length when the day exists in the next month, otherwise the next month's length |
| Datetime.LastDayOfMidMonth | pkg/datetime/datetime.go:33-39 | for a day of 28 or less, the result is the true length of the month |
| Datetime.LastDayOfMonthCases | pkg/datetime/datetime.go:34-36 | the three steps land on the last day of the month or, after an overflow, of the next month |
| Datetime.GetMonthStartAndEnd | pkg/datetime/datetime.go:22-30 | as written: start is midnight on day 1 and end is 23:59:59 of the same month, not before start; the month is the target or, when `now`'s day overflows, the one after; for a day of 28 or less it is exactly `offset` months back, ending on its last day |
| Datetime.ShiftedMonth | pkg/datetime/datetime.go:25 | `now.AddDate(0, -k, 0)` keeps the day in the target month when it exists there, else overflows into the next month |
| Datetime.MonthRangeMidMonth | pkg/datetime/datetime.go:22-30 | from day 28 or earlier, offset k gives the whole calendar month k months back |
| Datetime.LastDayOfMonth | pkg/datetime/datetime.go:33-39 | corrected: the true length of `t`'s month, for every day |
| Datetime.MonthStartAndEnd | pkg/datetime/datetime.go:22-30 | corrected: the whole month exactly `offset` months back, from day 1 00:00:00 to its last day 23:59:59 |
| Datetime.LastDayOfMonthFebruary | pkg/datetime/datetime_test.go:89-97 | February 2023 has 28 days; February 2024 has 29 |
| Datetime.LastDayOfMonthNovember | pkg/datetime/datetime_test.go:84-87 | November 2023 has 30 days |
| Datetime.LastDayOfMonthJanuary | pkg/datetime/datetime_test.go:99-102 | January 2023 has 31 days |
| Datetime.LastDayOfMonthDecember | pkg/datetime/datetime_test.go:104-107 | December 2023 has 31 days, across the year boundary |
| Datetime.MonthStartAndEndCurrentMonth | pkg/datetime/datetime_test.go:21-26 | offset 0 from November 15, 2023 gives November 1–30 |
| Datetime.MonthStartAndEndLastMonth | pkg/datetime/datetime_test.go:28-33 | offset 1 gives October 1–31 |
| Datetime.MonthStartAndEndTwoMonthsAgo | pkg/datetime/datetime_test.go:35-40 | offset 2 gives September 1–30 |
| Datetime.MonthStartAndEndAcrossYear | pkg/datetime/datetime_test.go:42-47 | one month before January 2024 is December 2023 |
| Datetime.MonthStartAndEndFromDecember | pkg/datetime/datetime_test.go:49-54 | one month before December 2023 is November 2023 |
| Datetime.MonthStartAndEndLeapFebruary | pkg/datetime/datetime_test.go:56-61 | one month before March 2024 is February 1–29 |
| Datetime.LastDayOfMonthOverflows | pkg/datetime/datetime.go:33-39 | for January 31, 2023, the code as written gives 28 where the corrected version gives 31 |
| Datetime.MonthStartAndEndSkipsMonth | pkg/datetime/datetime.go:22-30 | one month before March 31, 2024, the code as written starts in March; the corrected version starts in February |
| Datetime.MonthStartAndEndCutsEnd | pkg/datetime/datetime.go:22-30 | two months before May 31, 2024, the code as written ends on March 30; the corrected version ends on March 31 |
| Datetime.FormatDateTimeNonEmpty | internal/handler/rest/order_summary.go:88-90 | a formatted date-time is at least 19 characters, so "" never stands for a real date |
| Datetime.FormatYearMonthReadsBack | internal/handler/rest/order_summary.go:96 | "2006-01" output for years 0..9999 is 4 digits, '-', 2 digits, which read back as the year and the month |
| Datetime.FormatYearMonthInjective | internal/handler/rest/order_summary.go:96 | two times get the same month label only when they share year and month |
| Datetime.FormatYearMonthExamples | internal/handler/rest/order_summary_test.go:83-88 | March and February 2025 format as "2025-03" and "2025-02" |
| DecimalText.Digits | internal/service/order_summary.go:85 | `%d` output is non-empty decimal digits with no leading zero |
| DecimalText.DigitsValue | internal/service/order_summary.go:85 | decimal text reads back as the number written |
| DecimalText.DigitsInjective | internal/service/order_summary.go:85 | different month numbers give different error messages |
| DecimalText.Padded | internal/handler/rest/order_summary.go:96 | a zero-padded field of digits is as long as the width, or longer when the number needs it |
| DecimalText.PaddedValue | internal/handler/rest/order_summary.go:96 | a zero-padded field reads back as its number |
| OrderSummaryRepo.BindListShape | internal/repo/order_summary.go:52-58 | the expanded list for n values holds exactly n markers and begins and ends with one |
| OrderSummaryRepo.InExpands | internal/repo/order_summary.go:52-58 | `sqlx.In` puts one marker per value inside the clause's parentheses and returns the values, in order, as arguments |
| OrderSummaryRepo.CalculateBindsEveryMarker | internal/repo/order_summary.go:23-77 | the summary query has exactly as many markers as arguments: 1 + 2·[range] + excluded statuses + order types |
| OrderSummaryRepo.CalculateArgsOrder | internal/repo/order_summary.go:43-71 | arguments are the customer id, then both range bounds, then the excluded statuses, then the types, in order |
| OrderSummaryRepo.CalculateStartsWithBase | internal/repo/order_summary.go:30-49 | every summary query starts with the organization-2 and customer filter, followed by BETWEEN exactly when both bounds are set |
| OrderSummaryRepo.CalculateRangeNeedsBoth | internal/repo/order_summary.go:45-49 | a missing start or end drops the range clause and its arguments completely |
| OrderSummaryRepo.CalculateExcludeOneStatus | internal/repo/order_summary_test.go:68-83 | one excluded status adds a single `NOT IN (?)` clause and a single argument |
| OrderSummaryRepo.LastOrderBindsEveryMarker | internal/repo/order_summary.go:94-131 | the last-order query has exactly as many markers as arguments: 1 + types + excluded statuses |
| OrderSummaryRepo.LastOrderArgsOrder | internal/repo/order_summary.go:105-129 | arguments are the customer id, then the types, then the excluded statuses, in order |
| OrderSummaryRepo.LastOrderShape | internal/repo/order_summary.go:96-131 | the query selects from `orders`, joins `order_types` iff types are given, and ends with ORDER BY … LIMIT 1 |
| OrderSummaryRepo.LastOrderTextEndsLatestFirst | internal/repo/order_summary.go:131 | the query text ends with `ORDER BY orders.created_at DESC LIMIT 1` |
| OrderSummaryRepo.Calculate | internal/repo/order_summary.go:23-87 | the database gets exactly the specified text and arguments; a row passes through, no row gives the zero summary, any other error is wrapped |
| OrderSummaryRepo.GetLastOrderDate | internal/repo/order_summary.go:89-147 | the database gets exactly the specified text and arguments; a row passes through, no row gives the zero time, any other error is wrapped |
| OrderSummaryService.GetCustomerTotalSummary | internal/service/order_summary.go:35-49 | one query with no time range and the caller's filters; success iff the query succeeds, with the value unchanged; an error is wrapped and keeps its sentinels |
| OrderSummaryService.GetLastOrderDate | internal/service/order_summary.go:51-65 | one query with the caller's types and CANCELLED excluded; success iff the query succeeds; an error is wrapped |
| OrderSummaryService.GetCustomerMonthlySummaries | internal/service/order_summary.go:67-95 | months 1, 2, … are queried in that order; success iff every month up to `months` succeeds; then one entry per month, in order, with its summary and range start; otherwise the first failing month k aborts with "…for month k" wrapping its error, and nothing is returned |
| OrderSummaryService.TotalSummaryHasNoRange | internal/service/order_summary.go:38-43 | the all-time query binds no time argument |
| OrderSummaryService.LastOrderExcludesCancelled | internal/service/order_summary.go:54-59 | whatever types are requested, the last-order query has a NOT IN clause and binds "CANCELLED" last |
| OrderSummaryService.MonthlyMonthsGoBack | internal/service/order_summary.go:77-81 | with the clock getter on day 28 or earlier, and one clock reading for the whole loop, month k is exactly k months before now and starts on day 1, so the current month is never included |
| OrderSummaryService.MonthlyMonthsGoBackCorrected | internal/service/order_summary.go:77-81 | with the corrected getter, on any day, month k is exactly k months back and its range runs from day 1 00:00:00 to its last day 23:59:59 |
| OrderSummaryHandler.LastOrderedOnEmptyIffNoDate | internal/handler/rest/order_summary.go:88-90 | `lastOrderedOn` is "" iff there is no date or it is the zero time; otherwise it is the formatted date |
| OrderSummaryHandler.BuildResponse | internal/handler/rest/order_summary.go:81-98 | totals copied, `lastOrderedOn` as above, and one monthly entry per service month in the same order, with amounts copied and the month written "2006-01" |
| OrderSummaryHandler.GetCustomerOrderSummary | internal/handler/rest/order_summary.go:37-101 | 400 for a non-integer customer id, a query that fails to bind, or months ≤ 0 (default 3), all before any service call; then total, last date and monthly are called in order, and the first error is a 500 with its text; otherwise 200 with the response above |
| OrderSummaryHandler.MonthLabelsIdentifyMonths | internal/handler/rest/order_summary.go:92-98 | two response entries share a month label only when they summarise the same calendar month |
| OrderSummaryHandler.GetUserTransactions | internal/handler/rest/order_summary.go:103-106 | always 200, with the parsed user id, or 0 when it does not parse |
| WalletRepo.FindWallet | internal/repo/wallet.go:80-89 | the row is found iff the wallet id exists and belongs to the user |
| WalletRepo.QueryWallet | internal/repo/wallet.go:82-89 | the lookup returns the row, `sql.ErrNoRows` exactly when there is none, or the driver's failure |
| WalletRepo.Credit | internal/repo/wallet.go:91-97 | the credited wallet's balance rises by `amount` and its `updated_at` is set; no other wallet and no other field changes; ids and non-negative balances are kept |
| WalletRepo.DepositRecord | internal/repo/wallet.go:99-106 | the new record has the given id, wallet, amount and time, type `deposit` (a valid type), and no counterparty |
| WalletRepo.DepositResult | internal/repo/wallet.go:62-119 | a deposit succeeds iff both ids parse, the wallet is the user's and no database step fails; it then returns the deposit record for that wallet |
| WalletRepo.DepositResultErrors | internal/repo/wallet.go:63-116 | a bad id gives its wrapped parse error; a wallet that is not the user's gives `ErrWalletNotFound`, which no other path produces; a failed commit fails the deposit |
| WalletRepo.CreditTotal | internal/repo/wallet.go:91-97 | a credit adds exactly `amount` to the money held across all wallets |
| WalletRepo.DepositKeepsLedgerBalanced | internal/repo/wallet.go:91-112 | a successful deposit adds `amount` to the wallets' total and records exactly that amount, so total balance minus total deposited is unchanged |
| WalletRepo.WalletStore.constructor | internal/repo/wallet.go:25-27 | a new store holds the given wallets and an empty ledger |
| WalletRepo.WalletStore.GetWalletTransactions | internal/repo/wallet.go:29-31 | always succeeds with the two fixed ids "1234" and "5678" |
| WalletRepo.WalletStore.RetrieveWalletByUserIdAndWalletId | internal/repo/wallet.go:35-59 | fixed messages for an id that does not parse; the user's wallet when it exists; nothing when there is no row; any other driver error passed through |
| WalletRepo.WalletStore.Deposit | internal/repo/wallet.go:62-119 | returns `DepositResult`; on success the wallet is credited and the record appended; on failure both tables are unchanged; record ids stay distinct |
| WalletService.ServiceDepositResult | internal/service/wallet.go:33-42 | a non-positive amount is refused before the store is reached; otherwise the store's result, with its error prefixed "service.Deposit" |
| WalletService.ServiceDepositKeepsBalancesNonNegative | internal/service/wallet.go:35-37 | a deposit the service accepts has a positive amount, raises that wallet's balance and keeps every balance non-negative |
| WalletService.WalletServiceImpl.constructor | internal/service/wallet.go:21-23 | the service wraps the given store |
| WalletService.WalletServiceImpl.GetWalletTransactions | internal/service/wallet.go:25-27 | the store's answer, passed through |
| WalletService.WalletServiceImpl.GetWalletInfo | internal/service/wallet.go:29-31 | the store's answer, passed through |
| WalletService.WalletServiceImpl.Deposit | internal/service/wallet.go:33-42 | returns `ServiceDepositResult`; the store changes only on success, by a credit plus one appended record |
| WalletHandler.MapWriteError | internal/handler/wallet.go:76-83 | `ErrWalletNotFound` anywhere in the chain gives 404 with the error text; insufficient funds gives the given code where it applies; anything else gives 500 with a fixed message |
| WalletHandler.GetWalletTransactions | internal/handler/wallet.go:31-35 | 200 with the service's list; its error is ignored |
| WalletHandler.GetWalletInfo | internal/handler/wallet.go:37-53 | an empty path parameter gives 400 without calling the service; a service error gives 500 with its text; otherwise 200 with the wallet or null |
| WalletHandler.Deposit | internal/handler/wallet.go:57-86 | 400 for an empty path parameter or an unbound body; 200 iff the service succeeds; 404 iff its error is `ErrWalletNotFound`; any other service error is 500 "failed to process deposit" |
| WalletHandler.Withdraw | internal/handler/wallet.go:90-118 | as Deposit, and insufficient funds gives 400 with the error text |
| WalletHandler.Transfer | internal/handler/wallet.go:122-155 | as Withdraw; a destination id equal to the source id gives 400 before the service is called |
| WalletHandler.MissingWalletIsNotFound | internal/handler/wallet.go:75-79 | through service and store, a wallet that is not the user's gives 404 "service.Deposit: wallet not found" |
| WalletHandler.NonPositiveAmountIsInternalError | internal/handler/wallet.go:66-81 | a zero or negative amount passes binding and is refused by the service as a 500 |
| WalletHandler.ExistingWalletDepositSucceeds | internal/handler/wallet.go:75-85 | end to end, a deposit into the user's wallet gives 200 with the deposit record for that amount |

## Left out

- Withdraw and Transfer below the handlers: the source implements neither in the wallet service or the wallet repository; only the handler's service interface declares them. So only their handlers are modelled, with the service as a parameter.
- Concurrency: the `FOR UPDATE` row lock and isolation between concurrent deposits are not modelled. Each deposit runs alone against the store.
- SQL execution. The database is a function from the query text and the arguments to the scanned row or an error. `Rebind` is the identity, since `?` markers are kept.
- The `sqlx.In` error branches. `In` is only called with a non-empty slice, where it cannot fail, so the "error building … query" paths are unreachable and not modelled.
- Reading the environment. Viper, the `.env` file selection and `ENV=prod` are outside the model. `Config.Load` receives the values as read, with a missing string as "" and a missing number as 0.
- Request parsing:
  - Gin's query and JSON binding and `strconv.Atoi` are inputs. A parsed customer id arrives as an `Option`, and a bound query or body as a `Result`.
  - The range limits of `Atoi` are not modelled.
  - The `required` binding tag is taken as already checked.
- JSON encoding. The nil-versus-empty distinction of `monthlySummary`, the `omitempty` of `lastOrderedOn` and the decimal text of amounts are not modelled. `Reply` holds the values that are encoded.
- Clocks, time zones and randomness. `time.Now`, `uuid.New` and the clock behind `Getter` are parameters. `time.Local` and `t.Location()` are not modelled: every time is in one zone.
- RestJson.ToLower: folds only ASCII A–Z, where `strings.ToLower` folds all of Unicode. The program lowers only `http.StatusText` output, which is always ASCII, so nothing it does is affected.
- OrderSummaryService.MonthlyMonthsGoBack: assumes every call of the month-range getter reads the same instant. The getter reads the clock again on each call, so a loop that crosses a month boundary (say from 23:59:59 on the last day of a month to 00:00 on the first of the next) computes its later offsets from the new month. Months can then repeat or be skipped; the lemma does not cover that case. OrderSummaryService.MonthlyMonthsGoBackCorrected makes the same assumption.
- RestJson.StatusText: only 200, 400, 404 and 500 are given their texts; other codes give "".
- Money is an exact rational (`real`), as `shopspring/decimal` is; floating point plays no part.
- Datetime.NormDay: it covers day 0 up to 28 days past the month's end. This is every day these functions produce. Larger carries that `time.Date` also accepts are not modelled.
- Datetime.FormatYearMonthReadsBack: the read-back holds for normalised times in years 0..9999 only; a five-digit or negative year has a longer field.
- WalletService.WalletServiceImpl.Deposit: its contract ties the result and new state to `ServiceDepositResult` and `Credit`. The ledger balance and non-negativity follow from that through `WalletRepo.DepositKeepsLedgerBalanced` and `WalletService.ServiceDepositKeepsBalancesNonNegative`, rather than being repeated in the method's `ensures`.
- WalletRepo.WalletStore.Deposit: the fresh id from `uuid.New` is assumed distinct from every existing record id, which is what its precondition on `newId` states.
- HTTP routing (`internal/server/http.go`), the database connection pool and `main` are not part of this model.

## Findings

| source | as written | input that shows it | evidently intended | confidence | as-written member | corrected member |
|---|---|---|---|---|---|---|
| pkg/datetime/datetime.go:33-39 | `t.AddDate(0, 1, 0)` keeps `t`'s day, so a day the next month lacks overflows into the month after, and the day before the 1st of that month is in the NEXT month | January 31, 2023 gives 28 | the number of days in `t`'s own month (31) | not executed | Datetime.LastDayOfMonthOverflows | Datetime.LastDayOfMonth |
| pkg/datetime/datetime.go:22-30 | `now.AddDate(0, -monthOffset, 0)` keeps `now`'s day; if the target month lacks that day the date overflows, so the range is for the wrong month, or its end comes from the overflowing `GetLastDayOfMonth` | March 31, 2024, offset 1 gives March 2024 instead of February; May 31, 2024, offset 2 gives March ending on the 30th | the whole calendar month exactly `monthOffset` months back | not executed | Datetime.MonthStartAndEndSkipsMonth, Datetime.MonthStartAndEndCutsEnd | Datetime.MonthStartAndEnd |
