/** The account record over a sequence of requests served one after another:
    the two-tier state machine Basic -> Verified. */
module Lifecycle {
  import opened Accounts
  import opened Handlers

  /** A request to one of the three endpoints, with the second it arrives in. */
  datatype Request =
    | PayQris(amount: Amount, merchant: Option<string>, now: nat)
    | BankVaWebhook(amount: Amount, now: nat)
    | StartKyc(nik: Option<string>, name: Option<string>, now: nat)

  /** A request that the eKYC handler approves. */
  predicate ApprovedKyc(req: Request) {
    req.StartKyc? && Filled(req.nik) && Filled(req.name)
  }

  /** Serving one request against the stored record. */
  function Step(acc: Account, req: Request): (o: Outcome)
    ensures ApprovedKyc(req) ==> o.account == VerifiedAccount
    ensures !ApprovedKyc(req) ==> o.account == acc
  {
    match req
    case PayQris(amount, merchant, now) => Outcome(acc, QrisPayment(acc, amount, merchant, now))
    case BankVaWebhook(amount, now) => Outcome(acc, VaWebhook(amount, now))
    case StartKyc(nik, name, now) => KycVerification(acc, nik, name, now)
  }

  /** The record after serving `reqs` in order. */
  function Run(acc: Account, reqs: seq<Request>): (r: Account)
    ensures r == acc || r == VerifiedAccount
    ensures acc == VerifiedAccount ==> r == VerifiedAccount
    decreases |reqs|
  {
    if reqs == [] then acc else Run(Step(acc, reqs[0]).account, reqs[1..])
  }

  /** The replies to `reqs` served in order. */
  function Replies(acc: Account, reqs: seq<Request>): (rs: seq<Response>)
    ensures |rs| == |reqs|
    decreases |reqs|
  {
    if reqs == [] then []
    else [Step(acc, reqs[0]).response] + Replies(Step(acc, reqs[0]).account, reqs[1..])
  }

  /** The reply to the i-th request is what serving it gives against the
      record left by the requests before it. */
  lemma {:induction false} RepliesAt(acc: Account, reqs: seq<Request>, i: nat)
    requires i < |reqs|
    ensures Replies(acc, reqs)[i] == Step(Run(acc, reqs[..i]), reqs[i]).response
    decreases i
  {
    var next := Step(acc, reqs[0]).account;
    if i == 0 {
      assert reqs[..0] == [];
    } else {
      RepliesAt(next, reqs[1..], i - 1);
      assert reqs[..i][0] == reqs[0];
      assert reqs[..i][1..] == reqs[1..][..i - 1];
    }
  }

  predicate SomeApprovedKyc(reqs: seq<Request>) {
    exists i :: 0 <= i < |reqs| && ApprovedKyc(reqs[i])
  }

  /** Starting from either tier record, the record after any run is the
      Verified one exactly when it started there or an approved eKYC
      request was served, and the start record otherwise. */
  lemma {:induction false} RunOutcome(acc: Account, reqs: seq<Request>)
    requires IsTierRecord(acc)
    ensures Run(acc, reqs) == (if acc == VerifiedAccount || SomeApprovedKyc(reqs) then VerifiedAccount else acc)
    decreases |reqs|
  {
    if reqs != [] {
      var next := Step(acc, reqs[0]).account;
      RunOutcome(next, reqs[1..]);
      if SomeApprovedKyc(reqs[1..]) {
        var i :| 0 <= i < |reqs[1..]| && ApprovedKyc(reqs[1..][i]);
        assert ApprovedKyc(reqs[i + 1]);
      }
      if SomeApprovedKyc(reqs) && !ApprovedKyc(reqs[0]) {
        var i :| 0 <= i < |reqs| && ApprovedKyc(reqs[i]);
        assert ApprovedKyc(reqs[1..][i - 1]);
      }
    }
  }

  /** No request sequence returns a Verified account to Basic; this follows
      from the contract of `Run`. */
  lemma NeverDowngraded(acc: Account, reqs: seq<Request>)
    requires acc.status == Verified
    ensures Run(acc, reqs).status == Verified
  {
  }

  /** From process start, the account is Verified after a run exactly when
      the run contained an approved eKYC request. */
  lemma FromStart(reqs: seq<Request>)
    ensures Run(InitialAccount, reqs).status == Verified <==> SomeApprovedKyc(reqs)
    ensures !SomeApprovedKyc(reqs) ==> Run(InitialAccount, reqs) == InitialAccount
  {
    RunOutcome(InitialAccount, reqs);
  }

  /** A payment of 2,500,000 is refused on the start record, an eKYC request
      for nik "1234" and name "Alice" is approved, and the same payment then
      succeeds for that amount in IDR. */
  lemma PaymentAllowedAfterKyc(t1: nat, t2: nat, t3: nat)
    ensures var reqs := [PayQris(Parsed(2500000), None, t1),
                         StartKyc(Some("1234"), Some("Alice"), t2),
                         PayQris(Parsed(2500000), None, t3)];
            var rs := Replies(InitialAccount, reqs);
            && rs[0].LimitExceeded? && rs[0].errorCode == "LIMIT_EXCEEDED"
            && rs[1].KycApproved? && rs[1].nik == "1234"
            && rs[2].PaymentDone? && rs[2].amount == Money(2500000, "IDR")
            && Run(InitialAccount, reqs) == VerifiedAccount
  {
    var reqs := [PayQris(Parsed(2500000), None, t1),
                 StartKyc(Some("1234"), Some("Alice"), t2),
                 PayQris(Parsed(2500000), None, t3)];
    assert reqs[1..][1..] == [reqs[2]];
    assert Step(InitialAccount, reqs[0]).account == InitialAccount;
    assert Step(InitialAccount, reqs[1]).account == VerifiedAccount;
    assert Replies(VerifiedAccount, [reqs[2]])[0] == QrisPayment(VerifiedAccount, Parsed(2500000), None, t3);
    assert Replies(InitialAccount, reqs)
        == [Step(InitialAccount, reqs[0]).response]
           + ([Step(InitialAccount, reqs[1]).response] + Replies(VerifiedAccount, [reqs[2]]));
    assert Run(VerifiedAccount, [reqs[2]]) == VerifiedAccount;
  }
}
