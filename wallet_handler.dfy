/**
 * internal/handler/wallet.go: the HTTP handlers of the wallet API. Path
 * parameters and the decoded body are inputs; the service is passed as the
 * functions the handler calls, so a reply that does not depend on them shows
 * the service was not called.
 */
module WalletHandler {
  import opened Wrappers
  import opened Errors
  import opened Datetime
  import opened Model
  import opened RestJson
  import opened WalletRepo
  import opened WalletService

  /** Error replies of the write handlers: 404 for a missing wallet, the given code for a short balance, 500 otherwise. */
  function MapWriteError<T>(err: Error, insufficientCode: Option<int>, hidden: string): (r: Reply<T>)
    ensures r.ErrorReply?
    ensures Is(err, WalletNotFound) ==> r.error == ErrorResponse(StatusNotFound, Text(err))
    ensures !Is(err, WalletNotFound) && insufficientCode.Some? && Is(err, InsufficientFunds) ==>
      r.error == ErrorResponse(insufficientCode.value, Text(err))
    ensures !Is(err, WalletNotFound) && (insufficientCode.None? || !Is(err, InsufficientFunds)) ==>
      r.error == ErrorResponse(StatusInternalServerError, hidden)
  {
    if Is(err, WalletNotFound) then ResponseError(StatusNotFound, Some(err))
    else if insufficientCode.Some? && Is(err, InsufficientFunds) then ResponseError(insufficientCode.value, Some(err))
    else ResponseError(StatusInternalServerError, Some(New(hidden)))
  }

  /** Answers 200 with whatever list the service gave; its error is ignored. */
  function GetWalletTransactions(result: seq<string>, err: Option<Error>): (r: Reply<seq<string>>)
    ensures r.DataReply? && r.Status() == StatusOK && r.body.data == result
  {
    ResponseData(result)
  }

  /**
   * 400 for an empty path parameter (without calling the service), 500 with
   * the service's own error text, else 200 with the wallet, or with null when
   * the service found none.
   */
  function GetWalletInfo(userId: string, walletId: string, getWalletInfo: (string, string) -> Result<Option<Wallet>, Error>): (r: Reply<Option<Wallet>>)
    ensures userId == "" || walletId == "" ==> r == ErrorReply(ErrorResponse(StatusBadRequest, "userId or walletId is invalid"))
    ensures userId != "" && walletId != "" ==>
      var result := getWalletInfo(userId, walletId);
      && (result.Failure? ==> r == ErrorReply(ErrorResponse(StatusInternalServerError, Text(result.error))))
      && (result.Success? ==> r == DataReply(Response(StatusOK, result.value)))
  {
    if |userId| == 0 || |walletId| == 0 then
      ResponseError(StatusBadRequest, Some(New("userId or walletId is invalid")))
    else
      var result := getWalletInfo(userId, walletId);
      if result.Failure? then ResponseError(StatusInternalServerError, Some(result.error))
      else ResponseData(result.value)
  }

  /**
   * 400 for an empty path parameter or a body that does not bind, 404 with
   * the error text when the wallet is missing, a fixed 500 message for every
   * other failure, and 200 with the new ledger record.
   */
  function Deposit(userId: string, walletId: string, body: Result<AmountRequest, Error>,
                   deposit: (string, string, Money) -> Result<Transaction, Error>): (r: Reply<Transaction>)
    ensures userId == "" || walletId == "" ==> r == ErrorReply(ErrorResponse(StatusBadRequest, "userId or walletId is invalid in path"))
    ensures userId != "" && walletId != "" && body.Failure? ==> r == ErrorReply(ErrorResponse(StatusBadRequest, Text(body.error)))
    ensures r.Status() in {StatusOK, StatusBadRequest, StatusNotFound, StatusInternalServerError}
    ensures userId != "" && walletId != "" && body.Success? ==>
      var result := deposit(userId, walletId, body.value.amount);
      && (r.Status() == StatusOK <==> result.Success?)
      && (result.Success? ==> r == DataReply(Response(StatusOK, result.value)))
      && (r.Status() == StatusNotFound <==> result.Failure? && Is(result.error, WalletNotFound))
      && (r.Status() == StatusNotFound ==> r == ErrorReply(ErrorResponse(StatusNotFound, Text(result.error))))
      && (result.Failure? && !Is(result.error, WalletNotFound) ==>
            r == ErrorReply(ErrorResponse(StatusInternalServerError, "failed to process deposit")))
      && (r.Status() == StatusInternalServerError ==> r == ErrorReply(ErrorResponse(StatusInternalServerError, "failed to process deposit")))
  {
    if userId == "" || walletId == "" then
      ResponseError(StatusBadRequest, Some(New("userId or walletId is invalid in path")))
    else if body.Failure? then ResponseError(StatusBadRequest, Some(body.error))
    else
      var transaction := deposit(userId, walletId, body.value.amount);
      if transaction.Failure? then MapWriteError(transaction.error, None, "failed to process deposit")
      else ResponseData(transaction.value)
  }

  /** As `Deposit`, and a short balance is a 400 that carries the error text. */
  function Withdraw(userId: string, walletId: string, body: Result<AmountRequest, Error>,
                    withdraw: (string, string, Money) -> Result<Transaction, Error>): (r: Reply<Transaction>)
    ensures userId == "" || walletId == "" ==> r == ErrorReply(ErrorResponse(StatusBadRequest, "userId or walletId is invalid in path"))
    ensures userId != "" && walletId != "" && body.Failure? ==> r == ErrorReply(ErrorResponse(StatusBadRequest, Text(body.error)))
    ensures r.Status() in {StatusOK, StatusBadRequest, StatusNotFound, StatusInternalServerError}
    ensures userId != "" && walletId != "" && body.Success? ==>
      var result := withdraw(userId, walletId, body.value.amount);
      && (r.Status() == StatusOK <==> result.Success?)
      && (result.Success? ==> r == DataReply(Response(StatusOK, result.value)))
      && (r.Status() == StatusNotFound <==> result.Failure? && Is(result.error, WalletNotFound))
      && (r.Status() == StatusBadRequest <==> result.Failure? && !Is(result.error, WalletNotFound) && Is(result.error, InsufficientFunds))
      && (r.ErrorReply? && r.Status() != StatusInternalServerError ==> r.error.message == Text(result.error))
      && (r.Status() == StatusInternalServerError ==> r == ErrorReply(ErrorResponse(StatusInternalServerError, "failed to process withdrawal")))
  {
    if userId == "" || walletId == "" then
      ResponseError(StatusBadRequest, Some(New("userId or walletId is invalid in path")))
    else if body.Failure? then ResponseError(StatusBadRequest, Some(body.error))
    else
      var transaction := withdraw(userId, walletId, body.value.amount);
      if transaction.Failure? then MapWriteError(transaction.error, Some(StatusBadRequest), "failed to process withdrawal")
      else ResponseData(transaction.value)
  }

  /**
   * As `Withdraw` for the source wallet, and a destination id spelled exactly
   * like the source id is refused with 400 before the service is called.
   */
  function Transfer(sourceUserId: string, sourceWalletId: string, body: Result<TransferRequest, Error>,
                    transfer: (string, string, string, Money) -> Result<Transaction, Error>): (r: Reply<Transaction>)
    ensures sourceUserId == "" || sourceWalletId == "" ==>
      r == ErrorReply(ErrorResponse(StatusBadRequest, "source userId or source walletId is invalid in path"))
    ensures sourceUserId != "" && sourceWalletId != "" && body.Failure? ==> r == ErrorReply(ErrorResponse(StatusBadRequest, Text(body.error)))
    ensures sourceUserId != "" && sourceWalletId != "" && body.Success? && body.value.destinationWalletId == sourceWalletId ==>
      r == ErrorReply(ErrorResponse(StatusBadRequest, "source and destination wallets cannot be the same"))
    ensures r.Status() in {StatusOK, StatusBadRequest, StatusNotFound, StatusInternalServerError}
    ensures sourceUserId != "" && sourceWalletId != "" && body.Success? && body.value.destinationWalletId != sourceWalletId ==>
      var result := transfer(sourceUserId, sourceWalletId, body.value.destinationWalletId, body.value.amount);
      && (r.Status() == StatusOK <==> result.Success?)
      && (result.Success? ==> r == DataReply(Response(StatusOK, result.value)))
      && (r.Status() == StatusNotFound <==> result.Failure? && Is(result.error, WalletNotFound))
      && (r.Status() == StatusBadRequest <==> result.Failure? && !Is(result.error, WalletNotFound) && Is(result.error, InsufficientFunds))
      && (r.ErrorReply? && r.Status() != StatusInternalServerError ==> r.error.message == Text(result.error))
      && (r.Status() == StatusInternalServerError ==> r == ErrorReply(ErrorResponse(StatusInternalServerError, "failed to process transfer")))
  {
    if sourceUserId == "" || sourceWalletId == "" then
      ResponseError(StatusBadRequest, Some(New("source userId or source walletId is invalid in path")))
    else if body.Failure? then ResponseError(StatusBadRequest, Some(body.error))
    else if sourceWalletId == body.value.destinationWalletId then
      ResponseError(StatusBadRequest, Some(New("source and destination wallets cannot be the same")))
    else
      var transaction := transfer(sourceUserId, sourceWalletId, body.value.destinationWalletId, body.value.amount);
      if transaction.Failure? then MapWriteError(transaction.error, Some(StatusBadRequest), "failed to process transfer")
      else ResponseData(transaction.value)
  }

  /** The deposit handler wired to the service over a store, with a fault-free database. */
  function DepositThroughService(wallets: map<Uuid, Wallet>, parseId: string -> Result<Uuid, Error>, newId: Uuid, createdAt: Time,
                                 userId: string, walletId: string, body: Result<AmountRequest, Error>): Reply<Transaction>
  {
    Deposit(userId, walletId, body, (u, w, a) => ServiceDepositResult(wallets, parseId, u, w, a, newId, createdAt, NoFault))
  }

  /** End to end, a wallet that is not the user's is a 404 whose message names both layers. */
  lemma MissingWalletIsNotFound(wallets: map<Uuid, Wallet>, parseId: string -> Result<Uuid, Error>, newId: Uuid, createdAt: Time,
                                userId: string, walletId: string, amount: Money)
    requires userId != "" && walletId != "" && amount > 0.0
    requires parseId(userId).Success? && parseId(walletId).Success?
    requires !DepositTargetExists(wallets, parseId, userId, walletId)
    ensures DepositThroughService(wallets, parseId, newId, createdAt, userId, walletId, Success(AmountRequest(amount)))
      == ErrorReply(ErrorResponse(StatusNotFound, "service.Deposit: wallet not found"))
  {
    var repo := DepositResult(wallets, parseId, userId, walletId, amount, newId, createdAt, NoFault);
    assert repo == Failure(Sentinel(WalletNotFound));
    var service := ServiceDepositResult(wallets, parseId, userId, walletId, amount, newId, createdAt, NoFault);
    assert service == Failure(Wrapf("service.Deposit", Sentinel(WalletNotFound)));
    assert Is(service.error, WalletNotFound);
  }

  /**
   * The request binding only requires the amount to be present, so a zero or
   * negative amount reaches the service, whose refusal is reported as a 500.
   */
  lemma NonPositiveAmountIsInternalError(wallets: map<Uuid, Wallet>, parseId: string -> Result<Uuid, Error>, newId: Uuid, createdAt: Time,
                                         userId: string, walletId: string, amount: Money)
    requires userId != "" && walletId != "" && amount <= 0.0
    ensures DepositThroughService(wallets, parseId, newId, createdAt, userId, walletId, Success(AmountRequest(amount)))
      == ErrorReply(ErrorResponse(StatusInternalServerError, "failed to process deposit"))
  {
    var service := ServiceDepositResult(wallets, parseId, userId, walletId, amount, newId, createdAt, NoFault);
    assert !Is(service.error, WalletNotFound);
  }

  /** End to end, a deposit into an existing wallet answers 200 with a deposit record of that amount. */
  lemma ExistingWalletDepositSucceeds(wallets: map<Uuid, Wallet>, parseId: string -> Result<Uuid, Error>, newId: Uuid, createdAt: Time,
                                      userId: string, walletId: string, amount: Money)
    requires userId != "" && walletId != "" && amount > 0.0
    requires DepositTargetExists(wallets, parseId, userId, walletId)
    ensures DepositThroughService(wallets, parseId, newId, createdAt, userId, walletId, Success(AmountRequest(amount)))
      == DataReply(Response(StatusOK, DepositRecord(newId, parseId(walletId).value, amount, createdAt)))
  {
    var repo := DepositResult(wallets, parseId, userId, walletId, amount, newId, createdAt, NoFault);
    assert repo.Success?;
  }
}
