/**
 * Go error values as far as this program uses them: package-level sentinels
 * compared by identity, fresh errors from `errors.New`/`fmt.Errorf` without `%w`,
 * and `fmt.Errorf("<prefix>: %w", inner)` wrapping.
 */
module Errors {

  /** The sentinel error variables that callers test with `errors.Is`. */
  datatype Sentinel =
    | WalletNotFound              // repo.ErrWalletNotFound
    | InsufficientFunds           // repo.ErrInsufficientFunds
    | EnvVarsNotSet               // config.ErrEnvVarsNotSet
    | InvalidCustomerId           // model.ErrInvalidCustomerID
    | MonthsMustBeGreaterThanZero // model.ErrMonthsMustBeGreaterThanZero
    | NoRows                      // database/sql.ErrNoRows

  datatype Error =
    | Sentinel(kind: Sentinel)
    | New(text: string)
    | Wrap(prefix: string, inner: Error)

  function SentinelText(s: Sentinel): string {
    match s
    case WalletNotFound => "wallet not found"
    case InsufficientFunds => "insufficient funds"
    case EnvVarsNotSet => "env vars not set"
    case InvalidCustomerId => "invalid customerId"
    case MonthsMustBeGreaterThanZero => "months must be greater than 0"
    case NoRows => "sql: no rows in result set"
  }

  /** The text `err.Error()` returns. */
  function Text(e: Error): string {
    match e
    case Sentinel(s) => SentinelText(s)
    case New(t) => t
    case Wrap(p, inner) => p + ": " + Text(inner)
  }

  /** `errors.Is(e, s)`: `s` is found somewhere along the `%w` chain of `e`. */
  predicate Is(e: Error, s: Sentinel) {
    match e
    case Sentinel(k) => k == s
    case New(_) => false
    case Wrap(_, inner) => Is(inner, s)
  }

  /** `fmt.Errorf(prefix + ": %w", inner)`: the text is prefixed and every sentinel stays recognisable. */
  function Wrapf(prefix: string, inner: Error): (e: Error)
    ensures Text(e) == prefix + ": " + Text(inner)
    ensures forall s :: Is(e, s) <==> Is(inner, s)
  {
    Wrap(prefix, inner)
  }
}
