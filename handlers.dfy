/** The decision logic of the three request handlers: the QRIS payment
    (limit-checked against the account record), the bank virtual-account
    top-up webhook (no check, no account) and the eKYC submission (which
    yields the record to store next). Each handler is a function of the
    request fields, the record it reads and the wall-clock second that
    stamps its identifier. */
module Handlers {
  import opened Accounts
  import opened Numerals

  const InvalidAmountError: string := "Jumlah tidak valid"
  const MissingIdentityError: string := "NIK dan Nama harus diisi"
  const LimitExceededCode: string := "LIMIT_EXCEEDED"
  const Currency: string := "IDR"
  const DefaultMerchant: string := "Warung Kopi"
  const TopUpSource: string := "Bank BCA (via Webhook)"
  const PaymentMessage: string := "Payment Context & Transfer Context (Wallet) dipanggil."
  const TopUpMessage: string := "Funding Context & Transfer Context (Wallet) dipanggil."
  const KycMessage: string := "KYC Context memanggil Dukcapil API. Akun di-upgrade ke Verified."

  datatype Money = Money(value: int, currency: string)

  /** A handler's JSON reply together with its HTTP status. */
  datatype Response =
    | InvalidRequest(error: string)
    | LimitExceeded(errorCode: string, message: string)
    | PaymentDone(paymentId: string, merchantName: string, amount: Money, status: string, message: string)
    | TopUpDone(topupId: string, source: string, amount: Money, status: string, message: string)
    | KycApproved(submissionId: string, nik: string, status: string, dukcapilMatch: bool, message: string)
  {
    /** 400 for the two error replies, 200 for the three success replies. */
    function Code(): (c: nat)
      ensures c == 200 || c == 400
    {
      if InvalidRequest? || LimitExceeded? then 400 else 200
    }
  }

  /** The record to store after a request, and the reply to it. */
  datatype Outcome = Outcome(account: Account, response: Response)

  /** An identifier made of a prefix and the integer part of `time.time()`. */
  function StampedId(prefix: string, now: nat): (id: string)
    ensures |prefix| < |id| && id[..|prefix|] == prefix
    ensures AllDigits(id[|prefix|..]) && ParseDecimal(id[|prefix|..]) == now
    ensures now != 0 ==> id[|prefix|] != '0'
    ensures now == 0 ==> |id| == |prefix| + 1
  {
    DecimalRoundTrip(now);
    assert (prefix + Decimal(now))[|prefix|..] == Decimal(now);
    prefix + Decimal(now)
  }

  /** The digits after the prefix are exactly the canonical numeral of the
      timestamp: no other all-digit suffix without a leading zero reads back
      as `now`. */
  lemma {:induction false} CanonicalNumeral(s: string, n: nat)
    requires 0 < |s| && AllDigits(s) && ParseDecimal(s) == n
    requires n != 0 ==> s[0] != '0'
    requires n == 0 ==> |s| == 1
    ensures s == Decimal(n)
    decreases |s|
  {
    var init := s[..|s| - 1];
    if |s| == 1 {
      assert ParseDecimal(init) == 0;
    } else {
      assert s[0] == init[0];
      var m := ParseDecimal(init);
      assert n == 10 * m + DigitValue(s[|s| - 1]);
      if m == 0 {
        InitZeroHasZeroLead(init);
      }
      assert m != 0;
      CanonicalNumeral(init, m);
      assert n / 10 == m && n % 10 == DigitValue(s[|s| - 1]);
      assert s == init + [s[|s| - 1]];
    }
  }

  /** A non-empty numeral of value 0 starts with '0'. */
  lemma {:induction false} InitZeroHasZeroLead(s: string)
    requires 0 < |s| && AllDigits(s) && ParseDecimal(s) == 0
    ensures s[0] == '0'
    decreases |s|
  {
    if |s| > 1 {
      assert s[..|s| - 1][0] == s[0];
      InitZeroHasZeroLead(s[..|s| - 1]);
    }
  }

  /** The contract of `StampedId` leaves exactly one identifier: the
      prefix followed by `str(now)`. */
  lemma StampedIdDetermined(prefix: string, now: nat, id: string)
    requires |prefix| < |id| && id[..|prefix|] == prefix
    requires AllDigits(id[|prefix|..]) && ParseDecimal(id[|prefix|..]) == now
    requires now != 0 ==> id[|prefix|] != '0'
    requires now == 0 ==> |id| == |prefix| + 1
    ensures id == prefix + Decimal(now)
  {
    var tail := id[|prefix|..];
    CanonicalNumeral(tail, now);
    assert id == id[..|prefix|] + tail;
  }

  ghost predicate OccursAt(s: string, part: string, k: int) {
    0 <= k <= |s| - |part| && s[k..k + |part|] == part
  }

  ghost predicate Mentions(s: string, part: string) {
    exists k :: OccursAt(s, part, k)
  }

  /** The denial text: it names the tier and states the limit with
      thousands separators after "Rp ". */
  function DenialMessage(acc: Account): (m: string)
    ensures Mentions(m, TierName(acc.status))
    ensures Mentions(m, "Rp " + Grouped(acc.limit))
  {
    var pre := "Transaksi gagal. Akun ";
    var t := TierName(acc.status);
    var mid := " tidak dapat bertransaksi di atas ";
    var g := "Rp " + Grouped(acc.limit);
    var m := pre + t + mid + g + ".";
    assert OccursAt(m, t, |pre|);
    assert OccursAt(m, g, |pre| + |t| + |mid|);
    m
  }

  /** From position `k` to the closing period, `m` holds a number that reads
      back, separators dropped, as `limit`; "Rp " stands just before it. */
  ghost predicate StatesAmountAt(m: string, k: int, limit: nat) {
    && 3 <= k < |m|
    && m[k - 3..k] == "Rp "
    && m[|m| - 1] == '.'
    && AllDigits(StripSeparators(m[k..|m| - 1]))
    && ParseDecimal(StripSeparators(m[k..|m| - 1])) == limit
  }

  /** The number the denial text ends with is the account's limit. */
  lemma DenialMessageStatesLimit(acc: Account)
    ensures exists k :: StatesAmountAt(DenialMessage(acc), k, acc.limit)
  {
    var m := DenialMessage(acc);
    var g := Grouped(acc.limit);
    var k := |m| - 1 - |g|;
    assert m[k..|m| - 1] == g;
    assert m[k - 3..k] == "Rp ";
    GroupedRoundTrip(acc.limit);
    assert StatesAmountAt(m, k, acc.limit);
  }

  /** The denial a Basic account gets: "... Akun Basic ... Rp 2,000,000." */
  lemma InitialDenialMessage()
    ensures DenialMessage(InitialAccount)
         == "Transaksi gagal. Akun " + "Basic" + " tidak dapat bertransaksi di atas Rp " + "2,000,000" + "."
  {
    GroupedLimits();
  }

  /** The limit policy: a payment passes when it does not exceed the limit. */
  predicate WithinLimit(amount: int, acc: Account) {
    amount <= acc.limit
  }

  /** The QRIS payment handler, given the record it reads from the store. */
  function QrisPayment(acc: Account, amount: Amount, merchant: Option<string>, now: nat): (r: Response)
    ensures r.InvalidRequest? <==> amount.Unparseable?
    ensures r.InvalidRequest? ==> r.error == InvalidAmountError
    ensures r.LimitExceeded? <==> !amount.Unparseable? && !WithinLimit(AmountValue(amount).value, acc)
    ensures r.LimitExceeded? ==> r.errorCode == LimitExceededCode && r.message == DenialMessage(acc)
    ensures r.PaymentDone? <==> !amount.Unparseable? && WithinLimit(AmountValue(amount).value, acc)
    ensures r.PaymentDone? ==>
              && r.amount == Money(AmountValue(amount).value, Currency)
              && r.status == "Success"
              && r.merchantName == (if merchant.Some? then merchant.value else DefaultMerchant)
              && r.paymentId == StampedId("PAY-QRIS-", now)
    ensures r.Code() == 200 <==> r.PaymentDone?
  {
    match AmountValue(amount)
    case None => InvalidRequest(InvalidAmountError)
    case Some(v) =>
      if !WithinLimit(v, acc) then
        LimitExceeded(LimitExceededCode, DenialMessage(acc))
      else
        var name := match merchant case Some(m) => m case None => DefaultMerchant;
        PaymentDone(StampedId("PAY-QRIS-", now), name, Money(v, Currency), "Success", PaymentMessage)
  }

  /** The bank virtual-account webhook: any integer amount is accepted, and
      no account record is consulted. */
  function VaWebhook(amount: Amount, now: nat): (r: Response)
    ensures r.InvalidRequest? <==> amount.Unparseable?
    ensures r.InvalidRequest? ==> r.error == InvalidAmountError
    ensures !amount.Unparseable? ==>
              && r.TopUpDone?
              && r.amount == Money(AmountValue(amount).value, Currency)
              && r.status == "Success"
              && r.source == TopUpSource
              && r.topupId == StampedId("VA-BCA-", now)
    ensures r.Code() == 200 <==> !amount.Unparseable?
  {
    match AmountValue(amount)
    case None => InvalidRequest(InvalidAmountError)
    case Some(v) => TopUpDone(StampedId("VA-BCA-", now), TopUpSource, Money(v, Currency), "Success", TopUpMessage)
  }

  /** A request field that Python treats as true: present and non-empty. */
  predicate Filled(field: Option<string>) {
    field.Some? && field.value != ""
  }

  /** The eKYC handler: with both fields filled, the record becomes the
      Verified one whatever the fields say; otherwise nothing changes. */
  function KycVerification(acc: Account, nik: Option<string>, name: Option<string>, now: nat): (o: Outcome)
    ensures !(Filled(nik) && Filled(name)) ==>
              o.account == acc && o.response == InvalidRequest(MissingIdentityError)
    ensures Filled(nik) && Filled(name) ==>
              && o.account == VerifiedAccount
              && o.response.KycApproved?
              && o.response.nik == nik.value
              && o.response.status == "Approved"
              && o.response.dukcapilMatch
              && o.response.submissionId == StampedId("KYC-", now)
    ensures o.account == acc || o.account.status == Verified
    ensures o.response.Code() == 200 <==> o.account == VerifiedAccount && Filled(nik) && Filled(name)
  {
    if !Filled(nik) || !Filled(name) then
      Outcome(acc, InvalidRequest(MissingIdentityError))
    else
      Outcome(VerifiedAccount, KycApproved(StampedId("KYC-", now), nik.value, "Approved", true, KycMessage))
  }

  /** The limit boundary is inclusive: exactly the limit is paid, one more is
      refused. */
  lemma LimitBoundary(acc: Account, merchant: Option<string>, now: nat)
    ensures QrisPayment(acc, Parsed(acc.limit), merchant, now).PaymentDone?
    ensures QrisPayment(acc, Parsed(acc.limit + 1), merchant, now).LimitExceeded?
  {
  }

  /** An absent amount behaves as an amount of zero in both handlers. */
  lemma MissingAmountIsZero(acc: Account, merchant: Option<string>, now: nat)
    ensures QrisPayment(acc, Missing, merchant, now) == QrisPayment(acc, Parsed(0), merchant, now)
    ensures VaWebhook(Missing, now) == VaWebhook(Parsed(0), now)
  {
  }

  /** Verification only widens what may be paid: every payment the Basic
      record allows, the Verified record allows with the same reply. */
  lemma UpgradeOnlyWidens(amount: Amount, merchant: Option<string>, now: nat)
    ensures QrisPayment(InitialAccount, amount, merchant, now).PaymentDone? ==>
              QrisPayment(VerifiedAccount, amount, merchant, now)
              == QrisPayment(InitialAccount, amount, merchant, now)
  {
  }

  /** The upgrade does not depend on the identity submitted or on the
      record it replaces, and submitting twice is the same as once. */
  lemma KycUpgradeUnconditional(a1: Account, a2: Account, nik1: Option<string>, name1: Option<string>,
                                nik2: Option<string>, name2: Option<string>, t1: nat, t2: nat)
    requires Filled(nik1) && Filled(name1) && Filled(nik2) && Filled(name2)
    ensures KycVerification(a1, nik1, name1, t1).account == KycVerification(a2, nik2, name2, t2).account
    ensures KycVerification(KycVerification(a1, nik1, name1, t1).account, nik2, name2, t2).account
         == KycVerification(a1, nik1, name1, t1).account
  {
  }
}
