/** Shared types of the payment lifecycle: the closed set of payment states,
    the payment record, the error kinds a command can fail with, and the
    reply every command produces (a status and the store it leaves behind). */
module Types {

  datatype Option<+T> = None | Some(value: T)

  /** The eight lifecycle states; no other state exists. */
  datatype PaymentState =
    | INITIATED
    | AUTHORIZED
    | PRE_SETTLEMENT_REVIEW
    | CAPTURED
    | SETTLED
    | VOIDED
    | REFUNDED
    | FAILED

  /** A payment record. The first six fields are always present; the
      optional ones are written only by the commands named beside them. */
  datatype Payment = Payment(
    id: string,
    amount: string,           // the amount rounded to two decimals, as text
    amountCents: int,
    currency: string,
    merchantId: string,
    state: PaymentState,
    reasonCode: Option<string>,          // written by VOID
    refundedAmount: Option<string>,      // written by REFUND
    refundedAmountCents: Option<int>,    // written by REFUND
    createConflictReason: Option<string> // declared, never written
  )

  /** The stored records, keyed by payment id. */
  type Payments = map<string, Payment>

  /** Error kinds; the literal message texts are not modelled. */
  datatype Error =
    | MalformedLine
    | InsufficientArgs(command: string)
    | Required(field: string, command: string)
    | InvalidAmount
    | UnsupportedCurrency(currency: string)
    | NotFound(id: string)
    | InvalidTransition(id: string, current: PaymentState)
    | AlreadyRefunded(id: string)
    | Conflict(id: string)
    | RefundExceedsAmount(id: string)
    | UnknownCommand(name: string)

  /** Outcome of a validator: it either passes or fails with an error. */
  datatype Check = Pass | Fail(error: Error)

  /** Outcome of a whole command: success, failure (thrown in the source)
      or a request to end the process. */
  datatype Status = Ok | Failed(error: Error) | Exit

  /** What a command leaves behind: its status and the new store contents. */
  datatype Reply = Reply(status: Status, payments: Payments)

  /** The argument at position i, or None when the list is shorter
      (an out-of-range index is `undefined` in the source). */
  function Arg(args: seq<string>, i: nat): (r: Option<string>)
    ensures r.Some? <==> i < |args|
    ensures r.Some? ==> r.value == args[i]
  {
    if i < |args| then Some(args[i]) else None
  }
}
