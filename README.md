# Transaction approval engine and its audit record, in Dafny

This project models the core of a small card-transaction service. A
`Transaction` has a PAN (primary account number), a type name, an amount in
minor currency units, a numeric currency code and a status. `process` runs
five checks in a fixed order and stops at the first one that fails:

1. the status is ACTIVE (`"00"`);
2. the type resolves;
3. the currency resolves;
4. the PAN is valid for the type;
5. the amount is at most the type's maximum.

A failed check overwrites the status with DECLINED (`"02"`) and writes one
ERROR cause line. Passing all five sets APPROVED (`"01"`). On every exit the
finalisation then writes exactly one entry. That entry is the audit record
when the type and the currency resolve. Otherwise formatting throws, and the
entry is the ERROR line "Error during logging transaction: " followed by the
lookup's message. The audit record masks the PAN, labels the status
"Approved" or "Declined", and carries a nested payload `data.transaction`.

## Layout

One module per source file, plus three helper modules:

- `wrappers.dfy` (`Wrappers`): `Option` for Java references that may be null,
  and `Result` for computations that may throw.
- `java_strings.dfy` (`JavaStrings`): how Java shows `null` in a string
  concatenation, `Integer.toString`, and `Long.parseLong` on a digit string
  (`DigitsValue`, with its inverse `NatToString`).
- `enums.dfy` (`Enums`): the first-match search that all three `fromCode`
  lookups use.
- `transaction_type.dfy`, `currency_code.dfy`, `transaction_status.dfy`: the
  three constant tables. Each is a datatype with a total lookup that returns
  `Option`.
- `transaction.dfy` (`Transactions`): the `Transaction` class. The four final
  fields are `const`; `status` is a `var` that only `SetStatus` writes. The
  Java field `type` is called `kind`, because `type` is a Dafny keyword.
- `pan_validator.dfy` (`PanValidator`): the 16-digit structural check and the
  inclusive range for each type.
- `logging_service.dfy` (`Logging`): `MaskPan`, the status label, the amount
  text, the audit record, and the `AuditLog` sink. The sink is a sequence of
  `(level, message)` entries.
- `payment_service.dfy` (`Payments`): `Evaluate` is the pure decision.
  `RunChecks` is the body of the `try`, with its early returns. `Process`
  runs `RunChecks` and then the `finally` logging.

The imperative methods are proved against pure specification functions.
`RunChecks` leaves the transaction at `Decided(old value)` and appends
`CauseEntries(old value)`. `Process` appends `ProcessEntries(old value, now)`.
The lemmas then state the pipeline's properties about those functions.

Where the documentation and the code disagree, the model follows the code:

- `TransactionType.fromCode` matches the constant's name (`"APP"`), not its
  numeric code (`"01"`). This is so even though the constructor comment of
  `Transaction` describes the type as `"01"`, and the lookup's own comment
  lists `"3RI"`, which does not resolve.
- The cause line of the PAN check shows the PAN unmasked. Only the audit
  record masks it.

## Model

| member | source | states |
|---|---|---|
| `JavaStrings.DigitsValue` | src/main/java/com/transaction/processing/util/PANValidator.java:22 | the value of an n-digit string is below 10^n |
| `JavaStrings.NatToString` | src/main/java/com/transaction/processing/service/PaymentService.java:59 | decimal text is all digits, has no leading zero, and reads back as the same number |
| `JavaStrings.IntToString` | src/main/java/com/transaction/processing/service/PaymentService.java:59 | a non-negative int prints as digits without a leading zero that read back as it; a negative one prints as '-', a non-zero digit first, and digits that read back as its magnitude |
| `JavaStrings.IntToStringRoundTrip` | src/main/java/com/transaction/processing/service/PaymentService.java:59 | parsing the printed amount gives the amount back |
| `JavaStrings.IntToStringMinValue` | src/main/java/com/transaction/processing/service/PaymentService.java:59 | Integer.MIN_VALUE prints as "-2147483648" |
| `JavaStrings.DigitsValueAppend` | src/main/java/com/transaction/processing/util/PANValidator.java:22 | the value of a concatenation is the left part shifted by the right part's length, plus the right part |
| `Enums.FirstMatch` | src/main/java/com/transaction/processing/model/TransactionType.java:41-47 | the result is the first constant whose key equals the code; None exactly when no key equals it, null included |
| `TransactionTypes.FromCode` | src/main/java/com/transaction/processing/model/TransactionType.java:41-47 | resolves to t exactly when the code is t's name; any other string, or null, fails |
| `TransactionTypes.MissMessage` | src/main/java/com/transaction/processing/model/TransactionType.java:47 | the exception message is "Invalid transaction type code: " followed by the code as Java renders it, "null" for null |
| `TransactionTypes.NamesAndCodesDistinct` | src/main/java/com/transaction/processing/model/TransactionType.java:8-10 | different types have different names and different numeric codes |
| `TransactionTypes.FromCodeRoundTrip` | src/main/java/com/transaction/processing/model/TransactionType.java:41-46 | fromCode(t.name()) is t |
| `TransactionTypes.FromCodeExamples` | src/main/java/com/transaction/processing/model/TransactionType.java:37-47 | "TRI" and "APP" resolve; "01", "3RI", "UNKNOWN" and null do not |
| `CurrencyCodes.FromNumericCode` | src/main/java/com/transaction/processing/model/CurrencyCode.java:40-46 | resolves to c exactly when the code is c's numeric code; anything else, or null, fails |
| `CurrencyCodes.MissMessage` | src/main/java/com/transaction/processing/model/CurrencyCode.java:46 | the exception message is "Invalid currency code: " followed by the code as Java renders it, "null" for null |
| `CurrencyCodes.NumericCodesDistinct` | src/main/java/com/transaction/processing/model/CurrencyCode.java:8-9 | the two currencies differ in numeric and in alpha code |
| `CurrencyCodes.FromNumericCodeRoundTrip` | src/main/java/com/transaction/processing/model/CurrencyCode.java:40-45 | fromNumericCode(c.getNumericCode()) is c |
| `CurrencyCodes.FromNumericCodeResolves` | src/main/java/com/transaction/processing/model/CurrencyCode.java:8-46 | exactly "978" (EUR, "eur") and "840" (USD, "usd") resolve |
| `CurrencyCodes.FromNumericCodeExamples` | src/main/java/com/transaction/processing/model/CurrencyCode.java:46 | "999", "EUR" and null are lookup failures |
| `TransactionStatuses.FromCode` | src/main/java/com/transaction/processing/model/TransactionStatus.java:34-40 | resolves to s exactly when the code is s's code; anything else fails |
| `TransactionStatuses.CodesDistinct` | src/main/java/com/transaction/processing/model/TransactionStatus.java:8-10 | the three status codes are pairwise distinct |
| `TransactionStatuses.FromCodeRoundTrip` | src/main/java/com/transaction/processing/model/TransactionStatus.java:34-39 | fromCode(s.getCode()) is s |
| `TransactionStatuses.FromCodeResolves` | src/main/java/com/transaction/processing/model/TransactionStatus.java:8-40 | exactly "00", "01" and "02" resolve |
| `Transactions.Transaction.constructor` | src/main/java/com/transaction/processing/model/Transaction.java:28-34 | all five arguments are stored as given, without validation |
| `Transactions.Transaction.SetStatus` | src/main/java/com/transaction/processing/model/Transaction.java:56-58 | status becomes the argument and nothing else changes |
| `PanValidator.IsValidPanForType` | src/main/java/com/transaction/processing/util/PANValidator.java:16-34 | valid only if non-null and exactly 16 ASCII digits; then valid iff the value lies in the type's inclusive range |
| `PanValidator.ParseCannotOverflow` | src/main/java/com/transaction/processing/util/PANValidator.java:22 | a 16-digit value is at most 9999999999999999, below Long.MAX_VALUE |
| `PanValidator.MalformedIsInvalid` | src/main/java/com/transaction/processing/util/PANValidator.java:18 | null, a wrong length or any non-digit makes the PAN invalid for every type |
| `PanValidator.ValidForAtMostOneType` | src/main/java/com/transaction/processing/util/PANValidator.java:26-30 | the ranges are disjoint: no PAN is valid for two types |
| `PanValidator.RangeBoundsAreValid` | src/main/java/com/transaction/processing/util/PANValidator.java:24-30 | the low and high end of each range are valid, and one above the high end is not |
| `PanValidator.TestCases` | src/test/java/com/transaction/processing/service/PANValidatorTest.java:11-76 | the in-range, out-of-range, short, long, null and empty cases of the tests, plus the all-nines PAN that the payment tests use |
| `Logging.MaskPan` | src/main/java/com/transaction/processing/service/LoggingService.java:107-115 | null stays null; another length than 16 is unchanged; at 16 the first 6 and last 4 are kept and the 6 between become '*' |
| `Logging.MaskPanIdempotent` | src/main/java/com/transaction/processing/service/LoggingService.java:107-115 | masking twice is masking once |
| `Logging.MaskPanHidesMiddle` | src/main/java/com/transaction/processing/service/LoggingService.java:111-112 | PANs that differ only in the middle six characters mask alike |
| `Logging.MaskPanExamples` | src/main/java/com/transaction/processing/service/LoggingService.java:107-115 | "1000000000000000" masks to "100000******0000"; a non-digit 16-character string is masked too; a 6-character one and null pass through |
| `Logging.StatusLabel` | src/main/java/com/transaction/processing/service/LoggingService.java:71 | "Approved" iff the status is "01", "Declined" for every other code |
| `Logging.FormatMinorUnits` | src/main/java/com/transaction/processing/service/LoggingService.java:70 | the text of a non-negative amount is a whole part without leading zeros, '.', two digits, and reads back as the amount in minor units |
| `Logging.FormatAmount` | src/main/java/com/transaction/processing/service/LoggingService.java:70 | the same text for a non-negative amount; a negative amount is '-' before the text of its magnitude |
| `Logging.MinorUnitsTextIsUnique` | src/main/java/com/transaction/processing/service/LoggingService.java:70 | any text of that shape that reads back as the amount is exactly the text FormatMinorUnits prints |
| `Logging.AmountTextIsUnique` | src/main/java/com/transaction/processing/service/LoggingService.java:70 | any signed amount text of the amount is exactly the text FormatAmount prints |
| `Logging.FormatAmountExamples` | src/main/java/com/transaction/processing/service/LoggingService.java:70 | 1000 is "10.00", 0 is "0.00", 5 is "0.05", -5 is "-0.05" |
| `Logging.FormatTransactionLog` | src/main/java/com/transaction/processing/service/LoggingService.java:68-95 | a null status throws NullPointerException; else an unknown currency, then an unknown type, throws IllegalArgumentException with the lookup's message; otherwise the payload holds the masked PAN, the type's numeric code, the raw amount, the currency code and the raw status |
| `Logging.FormatAmountMinValue` | src/main/java/com/transaction/processing/service/LoggingService.java:70 | Integer.MIN_VALUE minor units format as "-21474836.48" |
| `Logging.Summary` | src/main/java/com/transaction/processing/service/LoggingService.java:93-94 | the line starts with "Processed transaction with card number ", the masked PAN, " on " and the timestamp; contains ", amount ", the amount text, a space and the alphabetic currency code; and ends with ", status ", the label and ". Return transaction details: "; between head and tail there is exactly ", amount ", the amount text, a space and the alphabetic currency code |
| `Logging.PayloadTypeIsNumericCode` | src/main/java/com/transaction/processing/service/LoggingService.java:79 | the payload's type is the numeric code of the named type ("APP" gives "01") |
| `Logging.FormatDependsOnClockOnlyInTimestamp` | src/main/java/com/transaction/processing/service/LoggingService.java:68-95 | two formattings of the same state differ only in the timestamp |
| `Logging.LoggingTestCase` | src/test/java/com/transaction/processing/service/LoggingServiceTest.java:39-66 | the approved APP line, up to its payload, is exactly the head, "100000******0000", " on ", the timestamp, ", amount 10.00 eur", ", status Approved" and the tail |
| `Logging.AuditLog.Log` | src/main/java/com/transaction/processing/service/LoggingService.java:51-60 | appends exactly one (level, message) entry |
| `Logging.AuditLog.LogError` | src/main/java/com/transaction/processing/service/LoggingService.java:41-43 | appends exactly one ERROR entry with the message |
| `Logging.AuditLog.LogTransaction` | src/main/java/com/transaction/processing/service/LoggingService.java:31-34 | appends one INFO entry with the record, or appends nothing and returns the exception formatting threw |
| `Payments.EvaluateIsFirstFailure` | src/main/java/com/transaction/processing/service/PaymentService.java:24-64 | approval iff every check passes; a decline names exactly the first failing check in the order status, type, currency, PAN, amount |
| `Payments.CauseMessage` | src/main/java/com/transaction/processing/service/PaymentService.java:24-61 | each cause line is its check's fixed text followed by the rejected field: the status, type, currency or PAN as Java renders it, or the amount printed as `Integer.toString` prints it, which parses back as the amount |
| `Payments.CauseMessageIdentifiesCheck` | src/main/java/com/transaction/processing/service/PaymentService.java:26-59 | two checks never write the same cause line, whatever the transactions |
| `Payments.MissMessagesDiffer` | src/main/java/com/transaction/processing/service/PaymentService.java:68-71 | the logging-failure line of a type miss never equals that of a currency miss |
| `Payments.RunChecks` | src/main/java/com/transaction/processing/service/PaymentService.java:22-65 | the status becomes the decision's code, no other field changes, and the log gains the cause entries |
| `Payments.Process` | src/main/java/com/transaction/processing/service/PaymentService.java:21-74 | returns the same object with only its status changed; the log gains the cause line, if any, then the finalisation entry |
| `Payments.InactiveDeclinesFirst` | src/main/java/com/transaction/processing/service/PaymentService.java:24-27 | a status other than "00" declines at the first check, and its cause line ends in the new status "02" |
| `Payments.FinalStatusIsTerminal` | src/main/java/com/transaction/processing/service/PaymentService.java:24-65 | the final status is "01" or "02", never "00" nor null, and "01" exactly on approval |
| `Payments.ApprovedIff` | src/main/java/com/transaction/processing/service/PaymentService.java:24-64 | approved iff ACTIVE, the currency resolves, and the type resolves with a valid PAN and an amount at most its maximum |
| `Payments.CauseLineIsFirstFailure` | src/main/java/com/transaction/processing/service/PaymentService.java:24-61 | the single cause line is the one of the first failing check |
| `Payments.NoCauseLineWhenAllPass` | src/main/java/com/transaction/processing/service/PaymentService.java:63-64 | passing every check writes no cause line and approves |
| `Payments.AmountLimitIsUpperBoundOnly` | src/main/java/com/transaction/processing/service/PaymentService.java:57 | the limit is inclusive and has no lower bound: negative amounts pass |
| `Payments.FinalisationWritesOneEntry` | src/main/java/com/transaction/processing/service/PaymentService.java:67-72 | exactly one finalisation entry; INFO iff type and currency resolve, otherwise "Error during logging transaction: " and the lookup's message |
| `Payments.ProcessLogShape` | src/main/java/com/transaction/processing/service/PaymentService.java:24-72 | approval logs one INFO record reading "Approved"; a decline logs its cause line and then the finalisation entry, whose record reads "Declined" |
| `Payments.PaymentApprovedCases` | src/test/java/com/transaction/processing/service/PaymentServiceTest.java:10-29 | the approved test approves; with the APP limit of 5000 the amount 5000 and the amount -1 are approved and 5001 is declined by the amount check |
| `Payments.PaymentDeclineCases` | src/test/java/com/transaction/processing/service/PaymentServiceTest.java:31-113 | the already-approved status is declined by the status check, the unknown type "INVALID_TYPE" by the type check, and the unknown currency "999" by the currency check |
| `Payments.PaymentInvalidPanCase` | src/test/java/com/transaction/processing/service/PaymentServiceTest.java:73-92 | the PAN of sixteen nines is declined by the PAN check |
| `Payments.ApprovedScenario` | src/test/java/com/transaction/processing/service/PaymentServiceTest.java:11-29 | running the approved test through the methods yields "01" and one INFO entry |
| `Payments.InactiveScenario` | src/test/java/com/transaction/processing/service/PaymentServiceTest.java:32-50 | running the pre-approved test yields "02", the cause line "Transaction status is not active: 02", then a "Declined" record |

## Left out

- The log file: the file name built from the current date, the `FileWriter`
  append, and the report on standard error when writing fails. All of these
  are I/O. The sink is an in-memory sequence of entries instead.
- The line prefix `HH:mm:ss.SSS LEVEL:`. It is a clock reading; an entry keeps
  only its level and its message.
- The audit timestamp `dd.MM.yyyy HH:mm`. It is a clock reading, so it is the
  parameter `now`.
- Serialisation of the payload by Jackson, and its `"{}"` fallback. This is a
  foreign library. The payload is the nested datatype `Details`, and
  `Logging.Summary` renders the audit line only up to the serialised payload.
- Logging.MaskPan: it counts Unicode scalar values, because a Dafny `string`
  is a sequence of them. Java's `length()` and `substring` count UTF-16 code
  units. So a PAN holding a character outside the Basic Multilingual Plane
  masks differently: fourteen digits and one emoji are sixteen units in Java,
  and are masked there, but fifteen characters here, and are passed through.
  Java strings holding lone surrogates cannot be written in the model at all.
- Logging.FormatAmount: it always writes '.' as the decimal separator.
  `String.format("%.2f", …)` uses the default locale's separator and digits, so a German
  locale prints "10,00". The double division `amount / 100.0` is replaced by
  exact integer arithmetic. For an `int` amount, rounding that double to two
  places gives the exact two-decimal value.
- The static `LoggingService` in Java becomes an explicit `AuditLog` object
  that is passed to `Process`.
- The getters of `Transaction` are not separate members. The fields are read
  directly, and the four final ones are `const`.
- `Transaction.toString`: it is display only.
- `App.java`: it is a demonstration entry point that prints to the console.
- A `NullPointerException` from `logTransaction`, when it is called directly
  on a transaction with a null status, is returned as a value
  (`Thrown.NullPointer`). It is not propagated. `Process` never reaches it.
- A null `transaction` argument to `process`. Dafny references here are
  non-null, so the `NullPointerException` it would raise is not modelled.
- Java `int` is the subset type `Int32`. The source does no `int` arithmetic
  that could wrap: it compares the amount with the limit, prints it with
  `Integer.toString`, and divides it as a double (`amount / 100.0`). The model
  negates and divides the amount in unbounded integers only to render it.
  That agrees with Java over the whole range: -2147483648 prints as
  "-2147483648" (`JavaStrings.IntToStringMinValue`) and formats as
  "-21474836.48" (`Logging.FormatAmountMinValue`).
