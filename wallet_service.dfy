/** internal/service/wallet.go: the wallet service, a thin layer over the wallet store. */
module WalletService {
  import opened Wrappers
  import opened Errors
  import opened Datetime
  import opened Model
  import opened WalletRepo

  /** The result the service's `Deposit` returns, as a function of the store before the call. */
  function ServiceDepositResult(
    wallets: map<Uuid, Wallet>, parseId: string -> Result<Uuid, Error>,
    userIdStr: string, walletIdStr: string, amount: Money, newId: Uuid, createdAt: Time, fault: Fault): (r: Result<Transaction, Error>)
    ensures amount <= 0.0 ==> r == Failure(New("deposit amount must be positive"))
    ensures amount > 0.0 ==>
      var repo := DepositResult(wallets, parseId, userIdStr, walletIdStr, amount, newId, createdAt, fault);
      && (r.Success? <==> repo.Success?)
      && (r.Success? ==> r.value == repo.value)
      && (r.Failure? ==> r.error == Wrapf("service.Deposit", repo.error))
  {
    if amount <= 0.0 then Failure(New("deposit amount must be positive"))
    else
      var repo := DepositResult(wallets, parseId, userIdStr, walletIdStr, amount, newId, createdAt, fault);
      if repo.Failure? then Failure(Wrapf("service.Deposit", repo.error)) else repo
  }

  /** A deposit the service accepts moves a positive amount, so it never makes a balance negative. */
  lemma ServiceDepositKeepsBalancesNonNegative(
    wallets: map<Uuid, Wallet>, parseId: string -> Result<Uuid, Error>,
    userIdStr: string, walletIdStr: string, amount: Money, newId: Uuid, createdAt: Time, updatedAt: Time, fault: Fault)
    requires NonNegative(wallets)
    requires ServiceDepositResult(wallets, parseId, userIdStr, walletIdStr, amount, newId, createdAt, fault).Success?
    ensures var t := ServiceDepositResult(wallets, parseId, userIdStr, walletIdStr, amount, newId, createdAt, fault).value;
      t.amount > 0.0 && t.walletId in wallets
      && NonNegative(Credit(wallets, t.walletId, t.amount, updatedAt))
      && Credit(wallets, t.walletId, t.amount, updatedAt)[t.walletId].balance > wallets[t.walletId].balance
  {
  }

  class WalletServiceImpl {
    const wRepo: WalletStore

    constructor (wRepo: WalletStore)
      ensures this.wRepo == wRepo
    {
      this.wRepo := wRepo;
    }

    /** Passes the store's answer through. */
    function GetWalletTransactions(): (r: Result<seq<string>, Error>)
      ensures r == wRepo.GetWalletTransactions()
    {
      wRepo.GetWalletTransactions()
    }

    /** Passes the store's answer through: a wallet, nothing, or the store's error. */
    function GetWalletInfo(userId: string, walletId: string, failure: Option<Error>): (r: Result<Option<Wallet>, Error>)
      reads wRepo
      ensures r == wRepo.RetrieveWalletByUserIdAndWalletId(userId, walletId, failure)
    {
      wRepo.RetrieveWalletByUserIdAndWalletId(userId, walletId, failure)
    }

    /**
     * Refuses an amount that is not positive without touching the store;
     * otherwise deposits through the store and prefixes its error.
     */
    method Deposit(userId: string, walletId: string, amount: Money, newId: Uuid, updatedAt: Time, createdAt: Time, fault: Fault)
      returns (r: Result<Transaction, Error>)
      requires wRepo.Valid()
      requires newId !in RecordIds(wRepo.records)
      modifies wRepo
      ensures wRepo.Valid()
      ensures r == ServiceDepositResult(old(wRepo.wallets), wRepo.parseId, userId, walletId, amount, newId, createdAt, fault)
      ensures r.Success? ==> wRepo.wallets == Credit(old(wRepo.wallets), r.value.walletId, amount, updatedAt)
                             && wRepo.records == old(wRepo.records) + [r.value]
      ensures r.Failure? ==> wRepo.wallets == old(wRepo.wallets) && wRepo.records == old(wRepo.records)
    {
      if amount <= 0.0 {
        return Failure(New("deposit amount must be positive"));
      }
      var transaction := wRepo.Deposit(userId, walletId, amount, newId, updatedAt, createdAt, fault);
      if transaction.Failure? {
        return Failure(Wrapf("service.Deposit", transaction.error));
      }
      r := transaction;
    }
  }
}
