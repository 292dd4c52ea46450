# Account tiers and the spending-limit gate of a mock e-wallet API

This project models the request-handling core of a mock digital-wallet
backend (`app.py`). One user, `user_123`, has a record with a tier (`Basic`
or `Verified`), a single-payment limit and a bank-transfer flag. The
process starts with Basic, 2,000,000 IDR and no bank transfers. Three
endpoints use that record:

- **QRIS payment** reads the record. It refuses an amount above the limit
  with `LIMIT_EXCEEDED` and a message that names the tier and shows the
  limit with thousands separators. Otherwise it returns a success record.
- **Bank virtual-account webhook** never looks at the record. It accepts
  any integer amount.
- **eKYC** checks that `nik` and `name` are present and non-empty. It then
  overwrites the record with the Verified one (20,000,000 IDR, bank
  transfers on), whatever identity was submitted.

Modules:

- `Numerals` (`numerals.dfy`): the decimal numeral used in identifiers
  and Python's `{:,}` grouping used in the denial message. Lemmas prove
  that dropping the separators and reading the digits back gives the
  number, and that a comma sits exactly before each group of three digits.
- `Accounts` (`accounts.dfy`): the tiers, the record, the two records the
  program stores, and the `amount` field as parsed
  (`Parsed(int) | Missing | Unparseable`).
- `Handlers` (`handlers.dfy`): each handler as a function of the request
  fields, the record it reads, and the wall-clock second used in its
  identifier. Each returns a `Response` that knows its HTTP status. The
  eKYC handler also returns the record to store next.
- `Lifecycle` (`lifecycle.dfy`): requests served in sequence. Lemmas prove
  that the record is Verified exactly when an approved eKYC request was
  served, and that nothing ever returns it to Basic.
- `Store` (`store.dfy`): the user table as a class with a `map` field,
  mirroring the global `USER_STATUS` dictionary. `Pay` reads it. `Kyc`
  overwrites the entry in place. `Serve` dispatches any request. A client
  method replays the deny / verify / allow scenario against the class
  contracts.

The clock (`int(time.time())`) is a parameter `now: nat` of each handler.
The identifier is the prefix followed by the plain numeral of `now`.

Two consequences of the code that the model keeps:

- Amounts may be negative: `int()` accepts any integer, so a negative
  amount passes the check at app.py:37 and is echoed back. `Parsed(int)`
  does the same.
- The lookup `USER_STATUS.get("user_123")` (app.py:33) has no not-found
  path, because the one seeded user is always present. The class
  invariant `Valid()` states this.

## Model

| member | source | states |
|---|---|---|
| `Numerals.Decimal` | app.py:48 | the numeral of a timestamp is non-empty, all digits, without a leading zero unless it is 0, and one digit long exactly below 10 |
| `Numerals.DecimalRoundTrip` | app.py:48 | reading the numeral of `n` back gives `n` |
| `Numerals.StripGrouped` | app.py:41 | removing the commas from the `{:,}` rendering leaves the plain numeral |
| `Numerals.GroupedRoundTrip` | app.py:41 | the `{:,}` rendering with commas removed is all digits and reads back as `n` |
| `Numerals.GroupedShape` | app.py:41 | in the `{:,}` rendering a comma sits exactly at every fourth position from the right, every other character is a digit, and it never starts with a comma |
| `Numerals.Grouped` | app.py:41 | the `{:,}` rendering adds one comma per complete group of three digits to the plain numeral (length digits + (digits - 1) / 3), starts with a digit and ends with the numeral's last digit |
| `Numerals.GroupedLimits` | app.py:41 | the two limits render as "2,000,000" and "20,000,000" |
| `Handlers.DenialMessage` | app.py:41 | the denial message contains the tier name and "Rp " followed by the limit with thousands separators |
| `Handlers.DenialMessageStatesLimit` | app.py:39-42 | the number between "Rp " and the closing period of the denial message reads back, separators dropped, as the account's limit |
| `Handlers.InitialDenialMessage` | app.py:41 | a Basic account's denial reads "Transaksi gagal. Akun Basic tidak dapat bertransaksi di atas Rp 2,000,000." |
| `Accounts.AmountValue` | app.py:27-30 | an amount is rejected exactly when `int()` fails; a missing amount becomes 0 and a parsed one keeps its value |
| `Handlers.StampedId` | app.py:48 | an identifier starts with its prefix and the rest is all digits reading back as the timestamp, with no leading zero (a single "0" for timestamp 0), as `str(int(time.time()))` gives; the same function makes the ids at app.py:77 and app.py:115 |
| `Handlers.StampedIdDetermined` | app.py:48 | any string meeting the contract of `StampedId` is exactly the prefix followed by the plain numeral of the timestamp |
| `Handlers.WithinLimit` | app.py:37 | the limit policy: an amount passes exactly when it is at most the record's limit (inclusive) |
| `Handlers.Response.Code` | app.py:30 | a reply's HTTP status is 200 or 400: 400 for the invalid-input error (app.py:30, 70, 100) and the limit denial (app.py:42), 200 for the payment, top-up and eKYC successes (app.py:57, 86, 121) |
| `Handlers.Filled` | app.py:99 | a field passes the `not nik or not name` test exactly when it is present and is not the empty string |
| `Handlers.QrisPayment` | app.py:26-57 | an unparseable amount gives the 400 "Jumlah tidak valid" error; otherwise the reply is a 400 `LIMIT_EXCEEDED` denial exactly when the amount (0 when missing) exceeds the limit, carrying the denial message; otherwise it is a 200 success with that amount in IDR, status "Success", the given merchant or "Warung Kopi", and a `PAY-QRIS-` identifier |
| `Handlers.VaWebhook` | app.py:66-86 | with no account argument and no limit check, every parseable amount gives a 200 top-up of that amount in IDR from the BCA source with a `VA-BCA-` identifier; an unparseable one gives the 400 "Jumlah tidak valid" error |
| `Handlers.KycVerification` | app.py:95-121 | a missing or empty `nik` or `name` gives the 400 error and keeps the record; otherwise the record becomes Verified / 20,000,000 / bank transfers on, and the 200 reply echoes `nik` with status "Approved", `dukcapil_match` true and a `KYC-` identifier; the record never leaves Verified |
| `Handlers.LimitBoundary` | app.py:37 | the limit is inclusive: paying exactly the limit succeeds, one more is refused |
| `Handlers.MissingAmountIsZero` | app.py:27-30 | an absent amount behaves exactly as an amount of 0 in both the payment and the webhook handler |
| `Handlers.UpgradeOnlyWidens` | app.py:37 | any payment the Basic record allows, the Verified record allows with the same reply |
| `Handlers.KycUpgradeUnconditional` | app.py:106-111 | the record after an approved eKYC does not depend on the identity submitted or on the previous record, and a second approval changes nothing |
| `Lifecycle.Step` | app.py:20-121 | only an approved eKYC request changes the record, and it sets it to the Verified record; payments and webhooks leave the record unchanged |
| `Lifecycle.Run` | app.py:107-111 | the record after serving a request sequence is either the starting one or the Verified one, and a Verified start stays Verified |
| `Lifecycle.RepliesAt` | app.py:20-121 | the reply to the i-th request of a sequence is what serving that request gives against the record left by the requests before it |
| `Lifecycle.RunOutcome` | app.py:107-111 | from either tier record, the record after any request sequence is the Verified one exactly when it began Verified or the sequence contains an approved eKYC request; otherwise it is the starting record |
| `Lifecycle.NeverDowngraded` | app.py:107-111 | no request sequence returns a Verified account to Basic |
| `Lifecycle.FromStart` | app.py:7-13 | from the seeded record, the account is Verified after a sequence exactly when it contained an approved eKYC request, and is untouched otherwise |
| `Lifecycle.PaymentAllowedAfterKyc` | app.py:37-57 | a 2,500,000 payment is denied on the seeded record; eKYC for "1234"/"Alice" is approved; the same payment then succeeds with that amount in IDR and the record is Verified |
| `Store.AccountStore.Valid` | app.py:7-13 | the user table holds exactly the key `user_123`, and its record is one of the two tier records (the seeded one or the one written at app.py:107-111) |
| `Store.AccountStore.constructor` | app.py:7-13 | the table starts with exactly `user_123` at Basic, 2,000,000, no bank transfers |
| `Store.AccountStore.Pay` | app.py:32-57 | the payment endpoint answers as `QrisPayment` on the current record and, having no modifies clause, changes nothing |
| `Store.AccountStore.Kyc` | app.py:95-121 | the endpoint stores and answers as `KycVerification` on the old record; approval overwrites only the `user_123` entry with the Verified record; rejection leaves the table untouched; Verified is never lost |
| `Store.AccountStore.Serve` | app.py:20-121 | serving any request moves the table exactly as one lifecycle `Step`, and only eKYC requests can change it |
| `Store.LimitLiftedByKyc` | app.py:37-57 | against the class contracts alone: a fresh table denies 2,500,000 with `LIMIT_EXCEEDED` and the Basic denial message, approves eKYC, then accepts 2,500,000 IDR with status "Success" |

## Left out

- Flask routing, the `index` page, `request.json` parsing and `app.run`
  are framework I/O. The model starts from already-parsed request fields.
  A body that is not JSON, or JSON that is not an object, fails inside
  Flask or at `data.get` (app.py:26-28, 66-68, 95-97) before any handler
  logic runs. Those failures are not modelled.
- The `time.sleep` delays simulate latency and carry no logic. Logging
  calls are side effects only.
- `time.time()` is read from the wall clock. It is the parameter `now`.
- Python's `int()` coercion is abstracted into the `Amount` datatype. Not
  modelled: float truncation, numeric strings, and the uncaught
  `TypeError` (an HTTP 500) for a JSON `null`, array or object amount.
- Only strings and absence are modelled for `merchant`, `nik` and `name`.
  A JSON `null` merchant (echoed as `null`) and the truthiness of
  non-string JSON values for `nik`/`name` are not modelled.
- `Numerals.Grouped` renders only non-negative integers. The only values
  the program formats are the two positive limits.
- Concurrency: requests are served one at a time. The model does not cover
  races on the unguarded global dictionary.
- The Indonesian success messages are kept as fixed constants and nothing
  is proved about their wording.
