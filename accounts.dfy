/** The account record of the single demo user and the two tiers it can be
    in, plus the abstraction of a request's `amount` field. */
module Accounts {

  datatype Option<T> = None | Some(value: T)

  datatype Tier = Basic | Verified

  function TierName(t: Tier): string {
    match t
    case Basic => "Basic"
    case Verified => "Verified"
  }

  /** One entry of the user table: tier, largest single payment allowed,
      and whether bank transfers are enabled. */
  datatype Account = Account(status: Tier, limit: nat, canTransferBank: bool)

  const BasicLimit: nat := 2000000
  const VerifiedLimit: nat := 20000000

  /** The record the user table is seeded with at process start. */
  const InitialAccount: Account := Account(Basic, BasicLimit, false)

  /** The record a successful identity verification writes. */
  const VerifiedAccount: Account := Account(Verified, VerifiedLimit, true)

  /** The only two records the program ever stores. */
  predicate IsTierRecord(a: Account) {
    a == InitialAccount || a == VerifiedAccount
  }

  /** The `amount` field of a request body after `int(...)`: an integer, the
      key absent (which the handlers read as 0), or a value `int` rejects. */
  datatype Amount = Parsed(value: int) | Missing | Unparseable

  /** The integer a handler goes on with, or None when it must answer
      "invalid amount". */
  function AmountValue(a: Amount): (r: Option<int>)
    ensures r.None? <==> a.Unparseable?
    ensures r.Some? ==> r.value == (if a.Parsed? then a.value else 0)
  {
    match a
    case Parsed(v) => Some(v)
    case Missing => Some(0)
    case Unparseable => None
  }
}
