# Debt worker: validators and message processor

A Dafny model of the core of the DebtService worker of towech-financeApp: the field
validators of `src/utils/validator.ts` and the message processor of
`src/MessageProcessor.ts`.

- `wrappers.dfy` — `Option` and `Result` (the outcome of a collaborator call that may throw).
- `text.dfy` — the ECMAScript string operations the source relies on: decimal numerals
  (`parseInt` of a leading digit run, `String(n)`), `split` on one character and `trim`
  with the exact WhiteSpace and LineTerminator set of ECMAScript.
- `validator.dfy` — `validateAmount`, `validateConcept`, `validateLoaner` and
  `validateDate` as functions. `validateDate` is modelled as written: the format regex
  anchored only at the start, `date.split('-')`, the `parseInt` of the pieces, and the
  month switch. It is proved equal to the Gregorian calendar on ten-character input.
- `ledger.dfy` — the debt record, the document store (`DbDebts.add` and the ownership
  lookup) as a class over a map of debts, and the transaction requestor
  (`RabbitRequest.sendWithResponse`) as a class that logs every call and every request it
  publishes. Either collaborator can be offline, in which case its call throws; the
  requestor can also publish and then get no reply, which throws as well.
- `message_processor.dfy` — `process`, `addDebt` and `payDebt` as methods over the store
  and the requestor. Their outcome is stated by the two-state predicates `AddDebtDone`
  and `PayDebtDone`: which status comes back, in which order the checks run, and what the
  store and the requestor hold afterwards.

The model follows the code where it departs from its own comments:

- `addDebt` merges the amount validator's errors when the concept or the date check fails
  (src/MessageProcessor.ts:65 and :69). So a blank concept or a malformed date is not
  reported by the field checks. (A date text that mongoose cannot cast still makes the
  save fail; see `MessageProcessor.AddDebt` under "Left out".) `ReportedErrors` describes the map the handler really builds,
  `PerFieldErrors` the map each check would give on its own, and
  `ReportedErrorsDropConceptAndDate` relates the two.
- The day check for 30-day months compares the whole third `-`-separated piece with `"31"`.
  So `"2023-04-31"` is refused but `"2023-04-31T10:00:00Z"` is accepted
  (`ThirtyFirstOfAprilWithTime`).
- `payDebt` is documented as adding a payment to the debt (src/MessageProcessor.ts:89-94),
  but it returns the fetched debt unchanged. It appends no payment and leaves `completed`
  untouched. The model does the same. `CreditKeepsDebtCovered` shows that the clamped
  payment, once appended, would keep the paid total within the debt's amount.

## Model

| member | source | states |
|---|---|---|
| Text.NatToString | src/MessageProcessor.ts:125 | the payment number in the annotation is written with decimal digits only, with no leading zero, and has the value of the number |
| Text.NatToStringOfNumeral | src/MessageProcessor.ts:125 | every decimal numeral without a leading zero is the text written for its own value (the inverse of NatToString) |
| Text.JoinSplit | src/utils/validator.ts:76 | `split('-')` loses nothing: joining the pieces with `-` gives the date text back, and no piece holds a `-` |
| Text.SplitFirstPiece | src/utils/validator.ts:76 | the first piece of a split is the text before the first separator, and the other pieces are the split of the text after it |
| Text.ParseLeadingInt | src/utils/validator.ts:83-88 | `parseInt` of a text made only of digits is the value of those digits |
| Text.ParseLeadingIntStops | src/utils/validator.ts:83-88 | `parseInt` stops at the first character that is not a digit: digits followed by anything else read as the value of the digits alone |
| Text.Split | src/utils/validator.ts:76 | `split` always yields at least one piece (with JoinSplit and SplitFirstPiece, which fix the pieces themselves) |
| Text.LeadingDigitsBeforeSeparator | src/utils/validator.ts:83 | `parseInt` of the day piece reads the same digits as `parseInt` of the whole text after the second `-` |
| Text.Trim | src/utils/validator.ts:51 | `trim()` gives the empty string exactly when the text is all whitespace, and otherwise starts and ends with a character that is not whitespace |
| Text.TrimIsInnerText | src/utils/validator.ts:56 | `trim()` gives exactly the part of the text between its leading and its trailing whitespace |
| Text.TrimIdempotent | src/utils/validator.ts:134 | the trimmed loaner or concept is left unchanged by a second trim |
| Validator.ValidateAmount | src/utils/validator.ts:21-37 | valid exactly when the error map is empty, exactly when the parse gave a number; the only possible error is "Amount is not a number" under `amount`; the rounded amount is the parsed cents, whatever their sign |
| Validator.ValidateConcept | src/utils/validator.ts:47-58 | valid exactly when the error map is empty, exactly when the concept is not all whitespace; the only possible error is "Concept must not be empty" under `concept`; the trimmed text is `trim(concept)` |
| Validator.ValidateLoaner | src/utils/validator.ts:124-136 | valid exactly when the error map is empty, exactly when the loaner is not all whitespace; the only possible error is "Loaner cannot be empty" under `loaner`; the trimmed text is `trim(loaner)` |
| Validator.ValidateDate | src/utils/validator.ts:68-113 | valid exactly when the error map is empty; the only key is `date`; the error is the format message exactly when the regex fails, and "Invalid date" when the regex passes but the date is refused |
| Validator.MatchesDateFormat | src/utils/validator.ts:71-72 | a text the regex accepts has at least ten characters, the first ten shaped YYYY-MM-DD with digits in every numeric place |
| Validator.RejectedByCalendar | src/utils/validator.ts:80-106 | the month switch refuses nothing outside February and the 30-day months; in a 30-day month it refuses exactly a day piece of "31"; in February it refuses no day below 29, and the 29th exactly when the year is not a leap year |
| Validator.DateFormatIsRanges | src/utils/validator.ts:71-73 | the regex accepts exactly the texts whose first ten characters are YYYY-MM-DD with a month from 1 to 12 and a day from 1 to 31 |
| Validator.FormatIgnoresTrailingText | src/utils/validator.ts:71-72 | the regex is anchored only at the start: text appended after an accepted date is not looked at |
| Validator.DatePieces | src/utils/validator.ts:76 | for a text that passes the regex, `split('-')` yields at least three pieces: the year digits, the month digits, and the day text up to the next `-` |
| Validator.CalendarCheckOf | src/utils/validator.ts:80-106 | the month switch in terms of the date text: February needs a day below 29 or the 29th of a leap year, 30-day months refuse a day piece of exactly "31", other months accept |
| Validator.FebruaryAfter29th | src/utils/validator.ts:82-86 | in February a day above 29 gives "Invalid date" |
| Validator.February29th | src/utils/validator.ts:87-92 | the 29th of February is valid exactly when the year is divisible by 400, or by 4 and not by 100 |
| Validator.ThirtyDayMonths | src/utils/validator.ts:96-103 | in April, June, September and November the date is invalid exactly when the day piece is "31" |
| Validator.ThirtyOneDayMonths | src/utils/validator.ts:104-106 | in every other month each day the regex admits is valid |
| Validator.ValidateDateIsCalendar | src/utils/validator.ts:68-113 | on ten-character input validateDate accepts exactly the YYYY-MM-DD texts naming a day of the Gregorian calendar, checked against an independent days-in-month table |
| Validator.WellFormedDateIsCalendar | src/utils/validator.ts:74-106 | a ten-character text that passes the regex is valid exactly when its year, month and day form a calendar date |
| Validator.ThirtyFirstOfAprilWithTime | src/utils/validator.ts:96-102 | "2023-04-31" is refused while "2023-04-31T10:00:00Z" is accepted, because the whole day piece is compared with "31" |
| Validator.LeapDayExample | src/utils/validator.ts:87-92 | "2024-02-29" is valid |
| Validator.NonLeapDayExample | src/utils/validator.ts:87-92 | "2023-02-29" is not valid |
| Validator.ThirteenthMonthExample | src/utils/validator.ts:71-73 | "2024-13-01" fails the format test itself |
| Ledger.OwnershipOf | src/MessageProcessor.ts:103-104 | the ownership check is valid exactly when the debt exists and belongs to the user, exactly when its error map is empty; a valid check carries the stored debt and an invalid one carries none |
| Ledger.DebtStore.Add | src/databse/dbDebts.ts:34-47 | an online store saves the debt under a fresh id with the given fields, no payments, not completed and created now, and returns it; an offline store throws and changes nothing |
| Ledger.DebtStore.ValidateDebtOwnership | src/MessageProcessor.ts:103 | an online store answers with the ownership check over its debts; an offline one throws |
| Ledger.TransactionRequestor.SendWithResponse | src/utils/rabbitRequest.ts:10-28 | every call is logged as an attempt; a requestor that cannot connect throws having published nothing; a connected one publishes exactly one request with the given queue, type and payload, and then either throws for want of a reply or answers |
| MessageProcessor.Route | src/MessageProcessor.ts:30-38 | "add" and only "add" goes to addDebt; "debt-payment" and only "debt-payment" goes to payDebt |
| MessageProcessor.Process | src/MessageProcessor.ts:25-39 | each routed message, whose payload holds its request's fields, has its handler's outcome; any other type gets "Unsupported function type: <type>" and touches neither the store nor the requestor |
| MessageProcessor.ReportedErrors | src/MessageProcessor.ts:53-69 | the merged error map only ever holds `loaner` and `amount`: `loaner` exactly when the loaner is blank, `amount` exactly when the amount is not a number; it is empty exactly when both are fine |
| MessageProcessor.PerFieldErrors | src/MessageProcessor.ts:55-69 | the map each check would give on its own holds only the four field keys, and each key exactly when its own check fails |
| MessageProcessor.ReportedErrorsDropConceptAndDate | src/MessageProcessor.ts:63-69 | the merged map is the per-field error map with the concept and date entries dropped, although those entries are present whenever the concept is blank or the date invalid |
| MessageProcessor.CheckNewDebt | src/MessageProcessor.ts:53-69 | the four checks, run in the source's order with its merges, leave exactly ReportedErrors |
| MessageProcessor.NewDebtRecord | src/MessageProcessor.ts:75-81 | the store receives the rounded amount, the trimmed concept and loaner, the date as received and the user id verbatim |
| MessageProcessor.AddDebt | src/MessageProcessor.ts:49-87 | 422 "Invalid Fields" with the merged map and no store write when it is non-empty; 500 when the store throws; otherwise the stored debt with type "add" and status 200 |
| MessageProcessor.TotalPaid | src/MessageProcessor.ts:111-113 | the amount already paid is never negative when no payment is, and never positive when no payment is positive |
| MessageProcessor.TotalPaidAppend | src/MessageProcessor.ts:111-113 | the amount already paid over two runs of payments is the sum of their totals |
| MessageProcessor.TotalPaidFirst | src/MessageProcessor.ts:111-113 | the left fold of `reduce` equals the first payment plus the total of the rest |
| MessageProcessor.Credited | src/MessageProcessor.ts:117-122 | the credited amount never exceeds the payment, never takes the paid total past the debt, and is the payment unless it is exactly what is missing |
| MessageProcessor.CreditKeepsDebtCovered | src/MessageProcessor.ts:115-122 | appending the credited payment keeps the paid total within the debt's amount, and reaches it exactly when the payment covers what is missing |
| MessageProcessor.PaidSoFar | src/MessageProcessor.ts:117-128 | NaN exactly for an amount that is not a number; otherwise the smaller of the debt's amount and the paid total plus the payment |
| MessageProcessor.FixedTwo | src/MessageProcessor.ts:125-128 | `toFixed(2)` of cents / 100: digits, a point and exactly two digits, whose value is the cents, with no leading zero before the units unless the units are zero |
| MessageProcessor.FixedTwoOfFigure | src/MessageProcessor.ts:125-128 | conversely, every figure with two decimals and no superfluous leading zero is the one `toFixed(2)` writes for its value, so the text is determined by the cents |
| MessageProcessor.FormatCents | src/MessageProcessor.ts:125-128 | a figure with two decimals, sign included, reads back as the same number of cents, and starts with `-` exactly for a negative amount |
| MessageProcessor.FiguresReadBack | src/MessageProcessor.ts:125-128 | the `X.XX/Y.YY` part of the annotation reads back as the paid total and the debt's amount |
| MessageProcessor.Annotation | src/MessageProcessor.ts:125-128 | the annotation of a numeric payment starts with the concept and reads back as the payment's number, the paid total and the debt's amount; one written with "NaN" does not read back |
| MessageProcessor.PayDebt | src/MessageProcessor.ts:96-145 | 500 when the store throws; 403 with the ownership errors before anything else; 422 for an amount that is not a number, with no request sent; 500 when the requestor throws, with the request published when the requestor connected but got no reply; otherwise one request to the transaction queue and the fetched debt unchanged with type "add" and status 200; the debt is never written, and the logged annotation is the one for the fetched debt |

## Left out

- Validator.ValidateAmount: takes the outcome of `parseFloat` and `Math.round((x + Number.EPSILON) * 100)` as its input (a number of cents, or NaN). The float parsing, the rounding, and Infinity are not modelled.
- Validator.ValidateConcept: the `null` branch is left out. The source calls `trim()` on `null` there and would throw.
- Validator.ValidateLoaner: the `null` branch is left out for the same reason.
- MessageProcessor.FixedTwo: renders integer cents exactly. The double rounding of `toFixed` for amounts beyond about 2^53 cents is not modelled.
- Ledger.DebtStore.ValidateDebtOwnership: `Validator.validateDebtOwnership` is called at src/MessageProcessor.ts:103 but is not defined in src/utils/validator.ts, so it is not part of this model. It is taken as a lookup of the stored debt by id and owner. Its error map (`debt`, "The debt does not exist or does not belong to the user") is a placeholder.
- Ledger.TransactionRequestor.SendWithResponse: the content of the transaction service's reply is not modelled. A call that gets a reply returns the position of its request in the log. Whether the connection or the reply fails is a fixed property of the requestor (`connected`, `answering`). The channel and correlation id of the AMQP library are left out.
- MessageProcessor.Process: requires the payload to hold the fields of its request type. A message without a payload, an "add" payload without `user_id`, and a "debt-payment" payload without `amount` are not modelled. In the source the first throws at the logger line before the handler's `try` (src/MessageProcessor.ts:50 and :97) and gets no reply; the second is stored with no owner and answered 200; the third gets 403 from a non-owner and 500 otherwise.
- MessageProcessor.Process: `AmqpMessage.errorMessage` belongs to a library that is not part of this model. Its default status is taken as 400.
- MessageProcessor.PayDebt: the `logger.debug` line is returned as the `logged` out-parameter instead of being written. The other `logger` calls are left out.
- MessageProcessor.AddDebt: the `new Date()` of the store is the `now` parameter. Mongoose's cast of the date text to a `Date` (src/databse/dbDebts.ts:17 and :40) is not modelled, and the store keeps any text. In the source a text that cannot be cast makes `save()` reject, so addDebt answers 500 where the model stores the debt.
- `OTHER_CATEGORYID`, `OTHER_CATEGORYID_OUT` (unused) and `TRANSACTION_QUEUE` come from the environment. The queue name is a `Config` parameter; the source falls back to "transactionQueue" when the variable is unset.
- `src/index.ts` (AMQP connection, consume loop, acknowledgements, replies, mongoose connection) is I/O bootstrap and is not modelled.
- `src/databse/dbDebts.ts` beyond `add` is commented-out code and is not modelled. The schema stores payments as references to transactions, and the model keeps a payment's transaction and amount together, as the `reduce` reads them.
- Concurrent payments on one debt are not modelled. The source has no mechanism for them.
