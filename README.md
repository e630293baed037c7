# Payment lifecycle interpreter — a Dafny model

This project models the core of a line-oriented payment command interpreter.
Each input line is tokenized. The first token names a command (CREATE, AUTHORIZE,
CAPTURE, VOID, REFUND, SETTLE, and the report, LIST, AUDIT and EXIT commands), and
the other tokens are its arguments. The lifecycle commands validate their
arguments, read a payment record from a process-wide store keyed by payment id,
check the record's state, and write back a record in which only specific fields
have changed.

Layout (one module per source file):

- `types.dfy` (`Types`): the eight payment states, the payment record, the error
  kinds, and the `Reply` of a command (its status plus the new store contents).
- `amounts.dfy` (`Amounts`): amounts as exact decimals, with integer cents and
  the stored two-decimal text.
- `validators.dfy` (`Validators`): the four argument validators.
- `tokenizer.dfy` (`Tokenizer`): trimming, splitting on whitespace runs, the
  malformed-line rule and the comment rule.
- `store.dfy` (`Store`): the store as a class `PaymentStore` with a `map` field
  and get / upsert / list methods.
- One file per handler: `payment_service.dfy` (CREATE), `authorize_payment.dfy`,
  `capture_payment.dfy`, `settle_payment.dfy`, `void_payment.dfy`,
  `refund_payment.dfy`. Each has a pure `XxxStep(m, args, …): Reply` that states
  the handler's behaviour on store contents `m`. Each also has a method on a
  `PaymentStore` that does the read-modify-write the source does, and whose
  `ensures` ties its status and new store to `XxxStep`.
- `handle_command.dfy` (`HandleCommand`): the dispatcher, as a function
  `Handle` and a method `HandleLine` on the store.
- `lifecycle.dfy` (`Lifecycle`): properties that hold across commands. These are
  the transition table, the fields no command changes, the record invariant
  every command keeps, whole sessions of lines, and idempotent replays.
- `tokenizer_examples.dfy` and `scenarios.dfy`: the tokenizer's unit-test lines,
  and concrete command sequences, derived from the general lemmas.

The allowed currencies are a parameter `allowedCurrencies: set<string>`, because
`src/config/index.js` is not part of this model. The scenarios use `{"MYR"}`.

## Model

| member | source | states |
|---|---|---|
| Types.Arg | src/utils/validators.ts:9-10 | an argument position past the end reads as missing (`undefined`), otherwise as that argument |
| Amounts.Cents | src/lib/paymentService/index.ts:12-14 | cents are non-negative and within half a cent of 100 × the amount, rounding half up |
| Amounts.ParseAmount | src/utils/validators.ts:14 | a text of digits only is that whole number; an accepted text is non-empty and holds only digits and points, with fewer digits after the point than characters |
| Amounts.ParseAccepted | src/utils/validators.ts:14 | an accepted text is either all digits, denoting that whole number, or digits, exactly one point and digits, denoting the whole part and the digits after the point (so "1.2.3" is refused) |
| Amounts.ParsePointed | src/utils/validators.ts:14 | conversely, any digits, a point and digits, with at least one digit in all ("5.5", ".5", "012.30", "7."), are accepted with that whole part and those fraction digits |
| Amounts.TwoDecimalCents | src/lib/paymentService/index.ts:12-14 | any text of digits, a point and two digits, leading zeros included, gives exactly the cents it spells: 100 × whole + 10 × a + b |
| Amounts.FormatCents | src/lib/paymentService/index.ts:43 | the text is digits, a point and exactly two digits, with no leading zero in the whole part unless it is "0" (FormatCentsRoundTrip parses it back to the same cents) |
| Amounts.FormatCentsRoundTrip | src/lib/paymentService/index.ts:43-44 | the stored two-decimal text parses back to the same whole part and two digits, and to exactly the same cents |
| Validators.ValidateArgsLength | src/utils/validators.ts:3-7 | fails iff fewer than `minLength` arguments; the error names the command (CREATE by default) |
| Validators.ValidateRequired | src/utils/validators.ts:9-11 | passes iff the value is present and non-empty; otherwise a Required error naming the field and command |
| Validators.ValidateAmount | src/utils/validators.ts:13-19 | succeeds iff the text is a number and its value is strictly positive; on success returns that amount; otherwise InvalidAmount |
| Validators.ValidateCurrency | src/utils/validators.ts:21-25 | passes iff the code is in the allow-list; otherwise UnsupportedCurrency naming it |
| Tokenizer.Trim | src/lib/tokenParser.ts:2 | the result has no whitespace at either end, is empty iff the line is all whitespace, and is exactly the text between the line's leading whitespace run and a trailing all-whitespace rest |
| Tokenizer.Split | src/lib/tokenParser.ts:6 | at least one part, none containing whitespace (what the parts are is stated by SplitSeparated and SeparatedSplit) |
| Tokenizer.SplitSeparated | src/lib/tokenParser.ts:6 | the text is the parts in order with a non-empty, maximal whitespace run between each two: parts[0] + w1 + parts[1] + … + parts[n] |
| Tokenizer.SeparatedSplit | src/lib/tokenParser.ts:6 | conversely, any parts that make up the text in that way are exactly its split, so the split is unique |
| Tokenizer.WordsAre | src/lib/tokenParser.ts:2-6 | the words of a line are xs iff the trimmed line is xs separated by maximal whitespace runs |
| Tokenizer.Join | src/lib/tokenParser.ts:30 | no contract of its own: pieces joined by single spaces, described by JoinSeparators and inverted by SplitJoin |
| Tokenizer.JoinSeparators | src/lib/tokenParser.ts:30 | joining whitespace-free pieces adds one space between neighbours and no other whitespace: its length is the pieces' total length plus one less than their number |
| Tokenizer.FindIndex | src/lib/tokenParser.ts:15 | None iff the token is absent; otherwise the index of its first occurrence |
| Tokenizer.ParseWords | src/lib/tokenParser.ts:7-32 | blank iff the first word is empty; malformed iff it starts with `#`; without a comment the tokens are all the words; with one, the first `#` word stands at index k ≥ 4, the tokens are the k words before it and the comment is the words after it joined by single spaces |
| Tokenizer.ParseTokens | src/lib/tokenParser.ts:1-33 | a command has at least one token, the first not starting with `#`, and a line with a comment keeps at least four tokens, none of them `#` (the full case split is in ParseBlank, ParseMalformed, ParseWithoutComment and ParseWithComment) |
| Tokenizer.ParseBlank | src/lib/tokenParser.ts:2-9 | a line parses as blank iff it is empty or all whitespace |
| Tokenizer.ParseMalformed | src/lib/tokenParser.ts:11-13 | a line is malformed iff its first non-space character is `#`, so `#abc` is malformed as well as `#` |
| Tokenizer.ParseTokensWords | src/lib/tokenParser.ts:6-29 | tokens are non-empty, contain no whitespace, the first does not start with `#`, and they are a prefix of the line's words |
| Tokenizer.ParseWithoutComment | src/lib/tokenParser.ts:15-26 | without a comment the tokens are all the words, and any standalone `#` among them first occurs at index 1–3 |
| Tokenizer.ParseWithComment | src/lib/tokenParser.ts:28-32 | with a comment there are at least 4 tokens and no `#` among them, the comment is the words after the marker joined by single spaces, and the words are tokens + `#` + the comment's words (or tokens + `#` when the comment is empty) |
| Tokenizer.SplitJoin | src/lib/tokenParser.ts:29-30 | splitting words joined by single spaces gives the words back |
| Tokenizer.ParseJoinedWithoutMarker | src/lib/tokenParser.ts:18-20 | a line of words with no standalone `#` parses to exactly those words with no comment |
| Tokenizer.ParseJoinedWithMarker | src/lib/tokenParser.ts:23-32 | a first `#` at index k < 4 keeps every word as a token (even with a later `#`); at k ≥ 4 the tokens are the words before it and the comment is the words after it, joined |
| TokenizerExamples.PlainLine | __tests__/parser.tests.ts:7-11 | "CREATE P1 10.00 MYR M01" gives its five words and no comment |
| TokenizerExamples.CommentAfterFour | __tests__/parser.tests.ts:13-17 | a `#` at index 4 starts the comment "retry later" |
| TokenizerExamples.MarkerAsArgument | __tests__/parser.tests.ts:19-23 | a `#` at index 1 is an ordinary token |
| TokenizerExamples.LeadingMarker | __tests__/parser.tests.ts:25-27 | "# CREATE P1" is malformed |
| TokenizerExamples.WhitespaceOnly | __tests__/parser.tests.ts:29-31 | "   " is blank |
| TokenizerExamples.SettleComment | __tests__/parser.tests.ts:33-37 | four tokens are kept and "settlement batch" is the comment |
| Store.Lookup | src/config/store.ts:5-8 | None exactly when nothing is stored under the id, otherwise the stored record |
| Store.Upsert | src/config/store.ts:10-12 | the key is added, maps to the new record, and every other entry is unchanged |
| Store.UpsertOnlyTouches | src/config/store.ts:10-12 | an upsert loses no entry, adds at most its own key (the key set grows by at most one), and keeps the key set when the key existed |
| Store.PaymentStore.GetPayment | src/config/store.ts:5-8 | returns None iff no record is stored under the id, otherwise the stored record |
| Store.PaymentStore.UpsertPayment | src/config/store.ts:10-12 | the new store is the old one with the id mapped to the record |
| Store.PaymentStore.GetAllPayments | src/config/store.ts:14-16 | returns as many records as there are keys; every listed record is stored and every stored record is listed; each key's record appears exactly once |
| PaymentService.NewPayment | src/lib/paymentService/index.ts:41-48 | a new record is INITIATED, carries the given id, cents, currency and merchant, stores the two-decimal text of the cents, and has no optional field |
| PaymentService.CreateStep | src/lib/paymentService/index.ts:6-51 | fewer than 4 arguments fail with the count error; every failed validation leaves the store unchanged; a new id stores the new record; identical details succeed with nothing changed; different details fail with a conflict and rewrite the record as FAILED; only `args[0]` is touched |
| PaymentService.CreatePayment | src/lib/paymentService/index.ts:6-51 | the read-modify-write on the store has exactly CreateStep's status and new store |
| AuthorizePayment.AuthorizedState | src/lib/paymentService/authorizePayment.ts:31-34 | PRE_SETTLEMENT_REVIEW iff cents ≥ 10000, AUTHORIZED iff cents < 10000 |
| AuthorizePayment.AuthorizeStep | src/lib/paymentService/authorizePayment.ts:11-41 | succeeds iff the id is given, stored and INITIATED; not-found and invalid-transition errors leave the store unchanged; on success only `state` changes, to the threshold state |
| AuthorizePayment.Authorize | src/lib/paymentService/authorizePayment.ts:11-41 | the method's status and new store are AuthorizeStep's |
| AuthorizePayment.AuthorizeTwiceFails | src/lib/paymentService/authorizePayment.ts:21-25 | a second AUTHORIZE fails as an invalid transition and changes nothing |
| AuthorizePayment.AuthorizeThresholdBoundary | src/lib/paymentService/authorizePayment.ts:31-34 | 10000 cents go to review, 9999 do not |
| CapturePayment.CaptureStep | src/lib/paymentService/capturePayment.ts:11-39 | succeeds iff the id is stored in AUTHORIZED or PRE_SETTLEMENT_REVIEW; errors leave the store unchanged; on success only `state` changes, to CAPTURED |
| CapturePayment.Capture | src/lib/paymentService/capturePayment.ts:11-39 | the method's status and new store are CaptureStep's |
| CapturePayment.CaptureTwiceFails | src/lib/paymentService/capturePayment.ts:21-29 | a second CAPTURE fails (CAPTURED is not accepted) and changes nothing |
| SettlePayment.SettleStep | src/lib/paymentService/settlePayment.ts:11-39 | succeeds iff the id is stored in CAPTURED or SETTLED; an already SETTLED record is left as is; errors leave the store unchanged; on success only `state` changes, to SETTLED |
| SettlePayment.Settle | src/lib/paymentService/settlePayment.ts:11-39 | the method's status and new store are SettleStep's; it skips the write for a SETTLED record |
| SettlePayment.SettleIdempotent | src/lib/paymentService/settlePayment.ts:25-37 | settling twice gives the same reply as settling once |
| VoidPayment.VoidStep | src/lib/paymentService/voidPayment.ts:11-43 | fewer than 2 arguments, an empty reason, an unknown id or a state outside INITIATED/AUTHORIZED/PRE_SETTLEMENT_REVIEW fail, in that order, with the store unchanged; on success only `state` (to VOIDED) and `reasonCode` change |
| VoidPayment.Void | src/lib/paymentService/voidPayment.ts:11-43 | the method's status and new store are VoidStep's |
| VoidPayment.VoidTwiceFails | src/lib/paymentService/voidPayment.ts:23-32 | a second VOID fails (VOIDED is not accepted) and changes nothing |
| RefundPayment.Refunded | src/lib/paymentService/refundPayment.ts:47-55 | the refunded record is REFUNDED, records the refund cents and their text, and keeps id, amount, cents, currency, merchant and reasonCode |
| RefundPayment.RefundStep | src/lib/paymentService/refundPayment.ts:13-61 | a missing amount fails even though the count check asks for one argument; a bad amount fails before the lookup; then not-found; already-refunded before invalid-transition; then the over-refund bound; errors leave the store unchanged; on success the refunded record, with refunded cents ≤ amount cents |
| RefundPayment.Refund | src/lib/paymentService/refundPayment.ts:13-61 | the method's status and new store are RefundStep's |
| RefundPayment.RefundBoundary | src/lib/paymentService/refundPayment.ts:42-46 | refunding exactly the amount succeeds; one cent more fails with the over-refund error |
| HandleCommand.SettlementReport | src/lib/reports/settlement.ts:5-8 | succeeds iff a non-empty batch id is given |
| HandleCommand.PaymentStatusReport | src/lib/reports/paymentStatus.ts:5-8 | succeeds iff a non-empty payment id is given; with no argument the count error names CREATE (the default) |
| HandleCommand.Dispatch | src/lib/handleCommand.ts:19-49 | each lifecycle name runs its own handler with the arguments; other known names never change the store; EXIT iff the Exit status; any other name, matched case-sensitively, fails as unknown and changes nothing |
| HandleCommand.Handle | src/lib/handleCommand.ts:12-18 | a blank line succeeds with the store unchanged; a malformed line fails with the store unchanged; otherwise the first token is dispatched on the remaining tokens |
| HandleCommand.HandleLine | src/lib/handleCommand.ts:12-50 | the method's status and new store are Handle's |
| Lifecycle.Transition | src/lib/handleCommand.ts:19-31 | no contract of its own: the transition table (stay, any state to FAILED, INITIATED to AUTHORIZED or review, on to CAPTURED and SETTLED, VOID before capture, REFUND after it); HandleStep proves every line follows it |
| Lifecycle.HandleStep | src/lib/handleCommand.ts:19-31 | every command keeps a stored record's id, amount, cents, currency and merchant, and moves its state only along an edge of the transition table |
| Lifecycle.HandleKeys | src/lib/handleCommand.ts:17-31 | no command removes a record; a command touches at most the record named by its first argument, and one without arguments changes nothing |
| Lifecycle.TerminalRecordsStay | src/lib/paymentService/index.ts:25-37 | a VOIDED, REFUNDED or FAILED record changes only through a conflicting CREATE, which fails and sets FAILED |
| Lifecycle.FieldOwnership | src/lib/paymentService/voidPayment.ts:36-40 | `reasonCode` is written only by VOID, the refund fields only by REFUND, and `createConflictReason` by nothing |
| Lifecycle.HandleValid | src/types/index.ts:12-24 | every command keeps the record invariant: the id matches the key, the amount text matches the cents, refunded cents are within the amount, and the optional fields match the state |
| Lifecycle.Session | src/index.ts:5-12 | no contract of its own: lines run in order on the store the previous one left, a failing line does not stop the rest, and EXIT ends the session (SessionExit) |
| Lifecycle.SessionExit | src/lib/handleCommand.ts:44-46 | an EXIT line ends the session: the store is left as it was and no later line runs |
| Lifecycle.SessionValid | src/lib/handleCommand.ts:12-50 | every sequence of lines keeps the record invariant |
| Lifecycle.SessionKeepsIdentity | src/lib/handleCommand.ts:12-50 | over any sequence of lines a stored record stays stored, keeps its identity fields, and stays terminal once terminal |
| Lifecycle.CreateReplay | src/lib/paymentService/index.ts:25-30 | after a successful CREATE, repeating it succeeds and changes nothing |
| Lifecycle.CreateConflict | src/lib/paymentService/index.ts:31-37 | a CREATE that differs in merchant, cents or currency fails with a conflict and leaves the record FAILED with its identity fields kept |
| Lifecycle.CreateIgnoresExtraArgs | src/lib/paymentService/index.ts:7-23 | arguments beyond the fourth do not affect CREATE |
| Lifecycle.CommentIgnored | src/lib/handleCommand.ts:17-31 | two lines with the same tokens give the same reply, whatever their comments |
| Scenarios.RefundStory | src/lib/handleCommand.ts:19-31 | CREATE P1 10.00 MYR M01, AUTHORIZE P1, CAPTURE P1, REFUND P1 5.00 from the empty store leave exactly P1, refunded by 500 cents |
| Scenarios.RefundedRecord | src/lib/paymentService/refundPayment.ts:50-55 | that record is REFUNDED with amount "10.00" (1000 cents) and refund "5.00" (500 cents) |
| Scenarios.RefundAgainLine | src/lib/paymentService/refundPayment.ts:31-35 | a further REFUND P1 1.00 fails as already refunded and changes nothing |
| Scenarios.ReviewAtThreshold | src/lib/paymentService/authorizePayment.ts:31-34 | a payment created with 100.00 is authorized into PRE_SETTLEMENT_REVIEW |
| Scenarios.NoReviewBelowThreshold | src/lib/paymentService/authorizePayment.ts:31-34 | a payment created with 99.99 is authorized into AUTHORIZED |
| Scenarios.CaseSensitiveNames | src/lib/handleCommand.ts:47-48 | a lower-case "create" is an unknown command |

## Left out

- Floating-point amounts. The source reads amounts with `parseFloat` (src/utils/validators.ts:14), then applies `toFixed(2)` and `Math.round` (src/lib/paymentService/index.ts:13-14). The model uses an exact grammar instead: digits, optionally a point and digits, at least one digit. Its values are exact, and cents are rounded half up once.
  - The model rejects text that `parseFloat` would accept: trailing garbage (`10abc`), signs, exponents, `Infinity`, and leading whitespace.
  - Binary rounding effects are not reproduced: `1.005` gives 101 cents here, not 100.
  - Very large amounts, which `toFixed` prints in exponential notation, are not modelled.
- RefundPayment.RefundStep: the refund cents are computed with the same exact conversion as CREATE. In the source they are `roundToTwo(amount) * 100` without a final rounding (src/lib/paymentService/refundPayment.ts:19-20). In binary floating point that product need not be a whole number; for example 1.10 × 100 is slightly above 110. So the source can refuse a full refund that the model accepts.
- `roundToTwo` lives in src/utils/index.js, which is not part of this model.
- `allowedCurrencies` comes from src/config/index.js, which is not part of this model. It is a parameter here.
- Output: the texts of messages and errors (errors are modelled as kinds), `console.log`/`console.table`, and the debug print for one payment id (src/lib/paymentService/index.ts:15-17).
- The SETTLEMENT, STATUS, LIST and AUDIT reports: only their argument checks and the fact that they change nothing are modelled.
- EXIT: `process.exit` is modelled as the status `Exit`, at which `Lifecycle.Session` stops.
- The comment of a line is handed to `HandleLine`, but no handler uses it (the source ignores it as well).
- The front end (src/index.ts) is modelled only as `Lifecycle.Session`: lines run in order, and an error does not stop the next line (src/index.ts:5-12). Reading lines from a file or a terminal, prompts, and how an error is reported are left out.
- Store.PaymentStore.GetAllPayments: the order of the list is not modelled. The source lists records in the map's insertion order; here the order is unspecified, and `order` only says which key each element came from.
- The JavaScript `Map` shared by all modules is a single `PaymentStore` object passed to each handler method.
