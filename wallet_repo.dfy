/**
 * internal/repo/wallet.go: the wallet store. The two tables are fields of the
 * store; a deposit is one database transaction that locks the wallet row,
 * raises its balance and appends a ledger record.
 */
module WalletRepo {
  import opened Wrappers
  import opened Errors
  import opened Datetime
  import opened Model
  import TT = TransactionType

  /** The database calls a deposit makes, in order. */
  datatype Step = Begin | Lookup | Update | Insert | Commit

  /** Which database call fails, and with what error; the driver is not part of this model. */
  datatype Fault = NoFault | FailAt(step: Step, cause: Error)

  function FaultAt(fault: Fault, step: Step): (e: Option<Error>)
    ensures e.Some? <==> fault.FailAt? && fault.step == step
    ensures e.Some? ==> e.value == fault.cause
  {
    if fault.FailAt? && fault.step == step then Some(fault.cause) else None
  }

  /** `WHERE user_id = $1 AND id = $2`: the row with that id, provided it belongs to that user. */
  function FindWallet(wallets: map<Uuid, Wallet>, userId: Uuid, walletId: Uuid): (w: Option<Wallet>)
    ensures w.Some? <==> walletId in wallets && wallets[walletId].id == walletId && wallets[walletId].userId == userId
    ensures w.Some? ==> w.value == wallets[walletId] && w.value.id == walletId && w.value.userId == userId
  {
    if walletId in wallets && wallets[walletId].id == walletId && wallets[walletId].userId == userId
    then Some(wallets[walletId]) else None
  }

  /** `GetContext` on that query: the row, `sql.ErrNoRows` if there is none, or the driver's failure. */
  function QueryWallet(wallets: map<Uuid, Wallet>, userId: Uuid, walletId: Uuid, failure: Option<Error>): (r: Result<Wallet, Error>)
    ensures failure.Some? ==> r == Failure(failure.value)
    ensures failure.None? && r.Success? ==> FindWallet(wallets, userId, walletId) == Some(r.value)
    ensures failure.None? && r.Failure? ==> r.error == Sentinel(NoRows) && FindWallet(wallets, userId, walletId).None?
  {
    if failure.Some? then Failure(failure.value)
    else match FindWallet(wallets, userId, walletId)
      case Some(w) => Success(w)
      case None => Failure(Sentinel(NoRows))
  }

  /** Every wallet is stored under its own id. */
  ghost predicate KeyedById(wallets: map<Uuid, Wallet>) {
    forall id :: id in wallets ==> wallets[id].id == id
  }

  function RecordIds(records: seq<Transaction>): set<Uuid> {
    set t | t in records :: t.id
  }

  /** Ledger records have pairwise distinct ids. */
  ghost predicate DistinctIds(records: seq<Transaction>) {
    forall i, j :: 0 <= i < j < |records| ==> records[i].id != records[j].id
  }

  ghost predicate NonNegative(wallets: map<Uuid, Wallet>) {
    forall id :: id in wallets ==> wallets[id].balance >= 0.0
  }

  /** The committed effect of the UPDATE statement: the balance rises by `amount` and `updated_at` is set. */
  function Credit(wallets: map<Uuid, Wallet>, walletId: Uuid, amount: Money, updatedAt: Time): (r: map<Uuid, Wallet>)
    requires walletId in wallets
    ensures r.Keys == wallets.Keys
    ensures r[walletId].balance == wallets[walletId].balance + amount && r[walletId].updatedAt == updatedAt
    ensures var w, w' := wallets[walletId], r[walletId];
      w'.id == w.id && w'.userId == w.userId && w'.name == w.name && w'.createdAt == w.createdAt
    ensures forall id :: id in wallets && id != walletId ==> r[id] == wallets[id]
    ensures KeyedById(wallets) ==> KeyedById(r)
    ensures NonNegative(wallets) && amount >= 0.0 ==> NonNegative(r)
  {
    wallets[walletId := wallets[walletId].(balance := wallets[walletId].balance + amount, updatedAt := updatedAt)]
  }

  /** The record step 3 builds: a deposit of `amount` into `walletId`, with no counterparty. */
  function DepositRecord(id: Uuid, walletId: Uuid, amount: Money, createdAt: Time): (t: Transaction)
    ensures t.id == id && t.walletId == walletId && t.amount == amount && t.createdAt == createdAt
    ensures t.txnType == TT.Deposit && TT.IsValid(t.txnType) && t.relatedWalletId.None?
  {
    Transaction(id, walletId, TT.Deposit, amount, None, createdAt)
  }

  /** None of the errors coming from outside the repository is its own `ErrWalletNotFound`. */
  predicate ForeignCauses(parseId: string -> Result<Uuid, Error>, userIdStr: string, walletIdStr: string, fault: Fault) {
    && (parseId(userIdStr).Failure? ==> !Is(parseId(userIdStr).error, WalletNotFound))
    && (parseId(walletIdStr).Failure? ==> !Is(parseId(walletIdStr).error, WalletNotFound))
    && (fault.FailAt? ==> !Is(fault.cause, WalletNotFound))
  }

  /** Both ids parse and the wallet row exists for that user. */
  predicate DepositTargetExists(wallets: map<Uuid, Wallet>, parseId: string -> Result<Uuid, Error>, userIdStr: string, walletIdStr: string) {
    parseId(userIdStr).Success? && parseId(walletIdStr).Success?
    && FindWallet(wallets, parseId(userIdStr).value, parseId(walletIdStr).value).Some?
  }

  /** The result `Deposit` returns, as a function of the state before it. */
  function DepositResult(
    wallets: map<Uuid, Wallet>, parseId: string -> Result<Uuid, Error>,
    userIdStr: string, walletIdStr: string, amount: Money, newId: Uuid, createdAt: Time, fault: Fault): (r: Result<Transaction, Error>)
    ensures r.Success? <==> DepositTargetExists(wallets, parseId, userIdStr, walletIdStr) && fault == NoFault
    ensures r.Success? ==> r.value == DepositRecord(newId, parseId(walletIdStr).value, amount, createdAt) && r.value.walletId in wallets
  {
    var userId := parseId(userIdStr);
    var walletId := parseId(walletIdStr);
    if userId.Failure? then Failure(Wrapf("invalid user ID format", userId.error))
    else if walletId.Failure? then Failure(Wrapf("invalid wallet ID format", walletId.error))
    else if fault.FailAt? && fault.step == Begin then Failure(Wrapf("failed to begin transaction", fault.cause))
    else
      var row := QueryWallet(wallets, userId.value, walletId.value, FaultAt(fault, Lookup));
      if row.Failure? then
        if Is(row.error, NoRows) then Failure(Sentinel(WalletNotFound))
        else Failure(Wrapf("failed to retrieve wallet for deposit", row.error))
      else if fault.FailAt? && fault.step == Update then Failure(Wrapf("failed to update wallet balance for deposit", fault.cause))
      else if fault.FailAt? && fault.step == Insert then Failure(Wrapf("failed to create deposit transaction record", fault.cause))
      else if fault.FailAt? && fault.step == Commit then Failure(Wrapf("failed to commit deposit transaction", fault.cause))
      else Success(DepositRecord(newId, walletId.value, amount, createdAt))
  }

  /**
   * The failures of `Deposit`: a malformed id is reported with its parse error
   * wrapped; a wallet that is not the user's is `ErrWalletNotFound`, and that
   * error arises from nothing else when no outside error is itself one; a
   * failing commit always fails the deposit.
   */
  lemma DepositResultErrors(
    wallets: map<Uuid, Wallet>, parseId: string -> Result<Uuid, Error>,
    userIdStr: string, walletIdStr: string, amount: Money, newId: Uuid, createdAt: Time, fault: Fault)
    ensures var r := DepositResult(wallets, parseId, userIdStr, walletIdStr, amount, newId, createdAt, fault);
      && (parseId(userIdStr).Failure? ==>
            r == Failure(Wrapf("invalid user ID format", parseId(userIdStr).error)))
      && (parseId(userIdStr).Success? && parseId(walletIdStr).Failure? ==>
            r == Failure(Wrapf("invalid wallet ID format", parseId(walletIdStr).error)))
      && ((parseId(userIdStr).Success? && parseId(walletIdStr).Success? && fault == NoFault
           && !DepositTargetExists(wallets, parseId, userIdStr, walletIdStr)) ==> r == Failure(Sentinel(WalletNotFound)))
      && (ForeignCauses(parseId, userIdStr, walletIdStr, fault) && r.Failure? && Is(r.error, WalletNotFound) ==>
            && parseId(userIdStr).Success? && parseId(walletIdStr).Success? && FaultAt(fault, Begin).None?
            && (FaultAt(fault, Lookup).None? ==> !DepositTargetExists(wallets, parseId, userIdStr, walletIdStr))
            && (FaultAt(fault, Lookup).Some? ==> Is(fault.cause, NoRows)))
      && (fault.FailAt? && fault.step == Commit ==> r.Failure?)
  {
  }

  /** Sum of the balances of all wallets. */
  ghost function Total(wallets: map<Uuid, Wallet>): Money
    decreases |wallets.Keys|
  {
    if wallets == map[] then 0.0
    else
      var id :| id in wallets;
      wallets[id].balance + Total(wallets - {id})
  }

  /** The sum may be split at any wallet, whichever one `Total` happened to pick. */
  lemma {:induction false} TotalRemove(wallets: map<Uuid, Wallet>, id: Uuid)
    requires id in wallets
    ensures Total(wallets) == wallets[id].balance + Total(wallets - {id})
    decreases |wallets.Keys|
  {
    var j :| j in wallets && Total(wallets) == wallets[j].balance + Total(wallets - {j});
    if j != id {
      assert (wallets - {j}).Keys == wallets.Keys - {j};
      assert (wallets - {id}).Keys == wallets.Keys - {id};
      TotalRemove(wallets - {j}, id);
      TotalRemove(wallets - {id}, j);
      assert wallets - {j} - {id} == wallets - {id} - {j};
    }
  }

  /** A credit adds exactly its amount to the money held in all wallets together. */
  lemma CreditTotal(wallets: map<Uuid, Wallet>, walletId: Uuid, amount: Money, updatedAt: Time)
    requires walletId in wallets
    ensures Total(Credit(wallets, walletId, amount, updatedAt)) == Total(wallets) + amount
  {
    var credited := Credit(wallets, walletId, amount, updatedAt);
    TotalRemove(wallets, walletId);
    TotalRemove(credited, walletId);
    assert credited - {walletId} == wallets - {walletId};
  }

  /** Sum of the amounts of the deposit records in the ledger. */
  function Deposited(records: seq<Transaction>): Money {
    if records == [] then 0.0
    else
      var last := records[|records| - 1];
      Deposited(records[..|records| - 1]) + (if last.txnType == TT.Deposit then last.amount else 0.0)
  }

  lemma DepositedAppend(records: seq<Transaction>, t: Transaction)
    ensures Deposited(records + [t]) == Deposited(records) + (if t.txnType == TT.Deposit then t.amount else 0.0)
  {
    assert (records + [t])[..|records|] == records;
  }

  /**
   * A successful deposit's two writes balance: the wallets together hold the
   * amount more, and the new record accounts for exactly that amount, so the
   * money in the wallets minus the money deposited is unchanged.
   */
  lemma DepositKeepsLedgerBalanced(
    wallets: map<Uuid, Wallet>, records: seq<Transaction>, parseId: string -> Result<Uuid, Error>,
    userIdStr: string, walletIdStr: string, amount: Money, newId: Uuid, updatedAt: Time, createdAt: Time, fault: Fault)
    requires DepositResult(wallets, parseId, userIdStr, walletIdStr, amount, newId, createdAt, fault).Success?
    ensures var t := DepositResult(wallets, parseId, userIdStr, walletIdStr, amount, newId, createdAt, fault).value;
      var credited := Credit(wallets, t.walletId, amount, updatedAt);
      && Total(credited) == Total(wallets) + amount
      && Total(credited) - Deposited(records + [t]) == Total(wallets) - Deposited(records)
  {
    var t := DepositResult(wallets, parseId, userIdStr, walletIdStr, amount, newId, createdAt, fault).value;
    CreditTotal(wallets, t.walletId, amount, updatedAt);
    DepositedAppend(records, t);
  }

  lemma AppendFreshKeepsDistinct(records: seq<Transaction>, t: Transaction)
    requires DistinctIds(records) && t.id !in RecordIds(records)
    ensures DistinctIds(records + [t])
  {
    forall i | 0 <= i < |records|
      ensures records[i].id != t.id
    {
      assert records[i] in records;
    }
  }

  class WalletStore {
    /** The `wallets` table, keyed by wallet id. */
    var wallets: map<Uuid, Wallet>
    /** The `transactions` table, in insertion order. */
    var records: seq<Transaction>
    /** `uuid.Parse`. */
    const parseId: string -> Result<Uuid, Error>

    ghost predicate Valid()
      reads this
    {
      KeyedById(wallets) && DistinctIds(records)
    }

    constructor (parseId: string -> Result<Uuid, Error>, wallets: map<Uuid, Wallet>)
      requires KeyedById(wallets)
      ensures Valid()
      ensures this.parseId == parseId && this.wallets == wallets && records == []
    {
      this.parseId := parseId;
      this.wallets := wallets;
      records := [];
    }

    /** A placeholder that answers two fixed ids and never fails. */
    function GetWalletTransactions(): (r: Result<seq<string>, Error>)
      ensures r.Success? && r.value == ["1234", "5678"]
    {
      Success(["1234", "5678"])
    }

    /**
     * The wallet with that id if it belongs to that user, nothing if there is
     * none, one of two fixed messages for an id that does not parse, and the
     * driver's failure otherwise.
     */
    function RetrieveWalletByUserIdAndWalletId(userIdStr: string, walletIdStr: string, failure: Option<Error>): (r: Result<Option<Wallet>, Error>)
      reads this
      ensures parseId(userIdStr).Failure? ==> r == Failure(New("invalid user ID format"))
      ensures parseId(userIdStr).Success? && parseId(walletIdStr).Failure? ==> r == Failure(New("invalid wallet ID format"))
      ensures r.Success? && r.value.Some? ==>
        && parseId(userIdStr).Success? && parseId(walletIdStr).Success? && failure.None?
        && r.value.value.id == parseId(walletIdStr).value && r.value.value.userId == parseId(userIdStr).value
        && parseId(walletIdStr).value in wallets && r.value.value == wallets[parseId(walletIdStr).value]
      ensures parseId(userIdStr).Success? && parseId(walletIdStr).Success? && failure.None? ==>
        r.Success? && (r.value.Some? <==> FindWallet(wallets, parseId(userIdStr).value, parseId(walletIdStr).value).Some?)
      ensures parseId(userIdStr).Success? && parseId(walletIdStr).Success? && failure.Some? ==>
        (if Is(failure.value, NoRows) then r == Success(None) else r == Failure(failure.value))
    {
      var userId := parseId(userIdStr);
      var walletId := parseId(walletIdStr);
      if userId.Failure? then Failure(New("invalid user ID format"))
      else if walletId.Failure? then Failure(New("invalid wallet ID format"))
      else
        var row := QueryWallet(wallets, userId.value, walletId.value, failure);
        if row.Success? then Success(Some(row.value))
        else if Is(row.error, NoRows) then Success(None)
        else Failure(row.error)
    }

    /**
     * Credits `amount` to the user's wallet and appends a deposit record, all
     * or nothing. `newId` is the id `uuid.New` draws, `updatedAt` and
     * `createdAt` the two clock readings.
     */
    method Deposit(userIdStr: string, walletIdStr: string, amount: Money, newId: Uuid, updatedAt: Time, createdAt: Time, fault: Fault)
      returns (r: Result<Transaction, Error>)
      requires Valid()
      requires newId !in RecordIds(records)
      modifies this
      ensures Valid()
      ensures r == DepositResult(old(wallets), parseId, userIdStr, walletIdStr, amount, newId, createdAt, fault)
      ensures r.Success? ==> wallets == Credit(old(wallets), r.value.walletId, amount, updatedAt) && records == old(records) + [r.value]
      ensures r.Failure? ==> wallets == old(wallets) && records == old(records)
    {
      var userId := parseId(userIdStr);
      if userId.Failure? {
        return Failure(Wrapf("invalid user ID format", userId.error));
      }
      var walletId := parseId(walletIdStr);
      if walletId.Failure? {
        return Failure(Wrapf("invalid wallet ID format", walletId.error));
      }
      if fault.FailAt? && fault.step == Begin {
        return Failure(Wrapf("failed to begin transaction", fault.cause));
      }
      // Writes go to the open transaction; they reach the tables only at commit,
      // and every early return rolls them back.
      var txWallets, txRecords := wallets, records;

      // 1. Retrieve and lock the wallet row.
      var row := QueryWallet(txWallets, userId.value, walletId.value, FaultAt(fault, Lookup));
      if row.Failure? {
        if Is(row.error, NoRows) {
          return Failure(Sentinel(WalletNotFound));
        }
        return Failure(Wrapf("failed to retrieve wallet for deposit", row.error));
      }

      // 2. Update the wallet balance.
      var newBalance := row.value.balance + amount;
      if fault.FailAt? && fault.step == Update {
        return Failure(Wrapf("failed to update wallet balance for deposit", fault.cause));
      }
      txWallets := txWallets[walletId.value := txWallets[walletId.value].(balance := newBalance, updatedAt := updatedAt)];

      // 3. Create the transaction record.
      var transaction := DepositRecord(newId, walletId.value, amount, createdAt);
      if fault.FailAt? && fault.step == Insert {
        return Failure(Wrapf("failed to create deposit transaction record", fault.cause));
      }
      txRecords := txRecords + [transaction];

      if fault.FailAt? && fault.step == Commit {
        return Failure(Wrapf("failed to commit deposit transaction", fault.cause));
      }
      AppendFreshKeepsDistinct(records, transaction);
      wallets, records := txWallets, txRecords;
      r := Success(transaction);
    }
  }
}
