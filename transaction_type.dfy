/** model.TransactionType: the kinds of ledger record, as the strings stored in the `type` column. */
module TransactionType {

  /** Go's `type TransactionType string`: any string can be converted to it. */
  type TransactionType = string

  const Deposit: TransactionType := "deposit"
  const Withdrawal: TransactionType := "withdrawal"
  const Transfer: TransactionType := "transfer"

  const AllTypes: set<TransactionType> := {Deposit, Withdrawal, Transfer}

  /** `IsValid`: one of the three constants, compared exactly (no case folding). */
  predicate IsValid(tt: TransactionType)
    ensures IsValid(tt) <==> tt in AllTypes
  {
    tt == Deposit || tt == Withdrawal || tt == Transfer
  }

  /** Exactly three values are valid, and the three constants are distinct. */
  lemma ExactlyThreeValid()
    ensures Deposit != Withdrawal && Deposit != Transfer && Withdrawal != Transfer
    ensures |AllTypes| == 3
  {
  }

  /** The empty string and other spellings of the constants are not valid. */
  lemma OtherSpellingsInvalid()
    ensures !IsValid("") && !IsValid("Deposit") && !IsValid("DEPOSIT") && !IsValid("withdraw")
  {
  }
}
