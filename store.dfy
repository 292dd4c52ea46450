/** The process-wide user table and the handlers that read and write it. */
module Store {
  import opened Accounts
  import opened Handlers
  import opened Lifecycle

  /** The one user every request is served for. */
  const CurrentUser: string := "user_123"

  class AccountStore {
    var users: map<string, Account>

    /** The table holds exactly the current user, with one of the two tier
        records. */
    ghost predicate Valid()
      reads this
    {
      users.Keys == {CurrentUser} && IsTierRecord(users[CurrentUser])
    }

    function Current(): Account
      reads this
      requires Valid()
    {
      users[CurrentUser]
    }

    /** The table as seeded at process start. */
    constructor ()
      ensures Valid()
      ensures users == map[CurrentUser := InitialAccount]
      ensures Current() == Account(Basic, 2000000, false)
    {
      users := map[CurrentUser := InitialAccount];
    }

    /** The QRIS payment endpoint: reads the record, never writes it. */
    method Pay(amount: Amount, merchant: Option<string>, now: nat) returns (r: Response)
      requires Valid()
      ensures r == QrisPayment(Current(), amount, merchant, now)
    {
      var acc := users[CurrentUser];
      r := QrisPayment(acc, amount, merchant, now);
    }

    /** The eKYC endpoint: on approval overwrites the current user's entry
        with the Verified record; on a missing field leaves the table as it
        was. */
    method Kyc(nik: Option<string>, name: Option<string>, now: nat) returns (r: Response)
      requires Valid()
      modifies this
      ensures Valid()
      ensures Outcome(Current(), r) == KycVerification(old(Current()), nik, name, now)
      ensures Filled(nik) && Filled(name) ==> users == old(users)[CurrentUser := VerifiedAccount]
      ensures !(Filled(nik) && Filled(name)) ==> users == old(users)
      ensures old(Current()).status == Verified ==> Current().status == Verified
    {
      if !Filled(nik) || !Filled(name) {
        return InvalidRequest(MissingIdentityError);
      }
      users := users[CurrentUser := VerifiedAccount];
      r := KycApproved(StampedId("KYC-", now), nik.value, "Approved", true, KycMessage);
    }

    /** Serving any request: the table moves as one step of the lifecycle. */
    method Serve(req: Request) returns (r: Response)
      requires Valid()
      modifies this
      ensures Valid()
      ensures Outcome(Current(), r) == Step(old(Current()), req)
      ensures !req.StartKyc? ==> users == old(users)
    {
      match req
      case PayQris(amount, merchant, now) =>
        r := Pay(amount, merchant, now);
      case BankVaWebhook(amount, now) =>
        r := VaWebhook(amount, now);
      case StartKyc(nik, name, now) =>
        r := Kyc(nik, name, now);
    }
  }

  /** A fresh table refuses a 2,500,000 payment, approves eKYC for nik
      "1234" and name "Alice", and then accepts the same payment. */
  method LimitLiftedByKyc(t1: nat, t2: nat, t3: nat) returns (before: Response, kyc: Response, after: Response)
    ensures before.LimitExceeded? && before.errorCode == "LIMIT_EXCEEDED"
    ensures before.message == DenialMessage(InitialAccount)
    ensures kyc.KycApproved? && kyc.nik == "1234" && kyc.dukcapilMatch
    ensures after.PaymentDone? && after.amount == Money(2500000, "IDR") && after.status == "Success"
  {
    var store := new AccountStore();
    before := store.Pay(Parsed(2500000), None, t1);
    kyc := store.Kyc(Some("1234"), Some("Alice"), t2);
    after := store.Pay(Parsed(2500000), None, t3);
  }
}
