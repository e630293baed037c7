/** REFUND: a CAPTURED or SETTLED payment moves to REFUNDED and records the
    refunded amount, which may not exceed the original amount. */
module RefundPayment {
  import opened Types
  import opened Amounts
  import opened Validators
  import opened Store

  /** The states REFUND accepts. */
  predicate CanRefund(s: PaymentState)
  {
    s == CAPTURED || s == SETTLED
  }

  /** Whether the arguments pass REFUND's validations (which need only one
      argument by count, but a present, non-empty, valid amount second). */
  predicate RefundArgsValid(args: seq<string>)
  {
    |args| >= 2 && args[0] != "" && args[1] != "" && ValidateAmount(args[1]).AmountOk?
  }

  /** The cents of a validated refund amount. */
  function RefundCents(args: seq<string>): nat
    requires RefundArgsValid(args)
  {
    Cents(ValidateAmount(args[1]).amount)
  }

  /** The record after a refund of the given cents. */
  function Refunded(p: Payment, cents: nat): (q: Payment)
    ensures q.state == REFUNDED
    ensures q.refundedAmountCents == Some(cents) && q.refundedAmount == Some(FormatCents(cents))
    ensures q.id == p.id && q.amount == p.amount && q.amountCents == p.amountCents
    ensures q.currency == p.currency && q.merchantId == p.merchantId
    ensures q.reasonCode == p.reasonCode && q.createConflictReason == p.createConflictReason
  {
    p.(state := REFUNDED, refundedAmount := Some(FormatCents(cents)), refundedAmountCents := Some(cents))
  }

  /** REFUND on store contents m. */
  function RefundStep(m: Payments, args: seq<string>, command: string): (r: Reply)
    ensures r.status.Ok? <==>
      RefundArgsValid(args) && args[0] in m && CanRefund(m[args[0]].state) && RefundCents(args) <= m[args[0]].amountCents
    ensures !r.status.Ok? ==> r.status.Failed? && r.payments == m
    ensures |args| == 1 && args[0] != "" ==> r.status == Failed(Required("Amount", command))
    // the amount is validated before the lookup
    ensures |args| >= 2 && args[0] != "" && args[1] != "" && !ValidateAmount(args[1]).AmountOk? ==>
      r.status == Failed(InvalidAmount)
    ensures RefundArgsValid(args) && args[0] !in m ==> r.status == Failed(NotFound(args[0]))
    // "already refunded" comes before the general state check and the amount bound
    ensures RefundArgsValid(args) && args[0] in m && m[args[0]].state == REFUNDED ==>
      r.status == Failed(AlreadyRefunded(args[0]))
    ensures RefundArgsValid(args) && args[0] in m && m[args[0]].state != REFUNDED && !CanRefund(m[args[0]].state) ==>
      r.status == Failed(InvalidTransition(args[0], m[args[0]].state))
    ensures RefundArgsValid(args) && args[0] in m && CanRefund(m[args[0]].state) && RefundCents(args) > m[args[0]].amountCents ==>
      r.status == Failed(RefundExceedsAmount(args[0]))
    ensures r.status.Ok? ==>
      var id := args[0];
      && OnlyTouches(m, r.payments, id) && r.payments.Keys == m.Keys
      && r.payments[id] == Refunded(m[id], RefundCents(args))
      && r.payments[id].refundedAmountCents.value <= r.payments[id].amountCents
  {
    var c0 := ValidateArgsLength(args, 1, command);
    if c0.Fail? then Reply(Failed(c0.error), m)
    else
      var c1 := ValidateRequired(Arg(args, 0), "Payment ID", command);
      if c1.Fail? then Reply(Failed(c1.error), m)
      else
        var id := args[0];
        var c2 := ValidateRequired(Arg(args, 1), "Amount", command);
        if c2.Fail? then Reply(Failed(c2.error), m)
        else match ValidateAmount(args[1])
          case AmountError(e) => Reply(Failed(e), m)
          case AmountOk(amount) =>
            var cents := Cents(amount);
            match Lookup(m, id)
            case None => Reply(Failed(NotFound(id)), m)
            case Some(payment) =>
              if payment.state == REFUNDED then Reply(Failed(AlreadyRefunded(id)), m)
              else if !CanRefund(payment.state) then Reply(Failed(InvalidTransition(id, payment.state)), m)
              else if cents > payment.amountCents then Reply(Failed(RefundExceedsAmount(id)), m)
              else
                var p := Refunded(payment, cents);
                UpsertOnlyTouches(m, id, p);
                Reply(Ok, Upsert(m, id, p))
  }

  /** REFUND on the store; the comment is not used. */
  method Refund(store: PaymentStore, args: seq<string>, command: string, comment: Option<string>)
    returns (status: Status)
    modifies store
    ensures Reply(status, store.payments) == RefundStep(old(store.payments), args, command)
  {
    var check := ValidateArgsLength(args, 1, command);
    if check.Fail? { return Failed(check.error); }
    check := ValidateRequired(Arg(args, 0), "Payment ID", command);
    if check.Fail? { return Failed(check.error); }
    var paymentId := args[0];
    check := ValidateRequired(Arg(args, 1), "Amount", command);
    if check.Fail? { return Failed(check.error); }
    var refundAmount := ValidateAmount(args[1]);
    if refundAmount.AmountError? { return Failed(refundAmount.error); }
    var refundAmountCents := Cents(refundAmount.amount);
    var payment := store.GetPayment(paymentId);
    if payment.None? { return Failed(NotFound(paymentId)); }
    if payment.value.state == REFUNDED { return Failed(AlreadyRefunded(paymentId)); }
    if !CanRefund(payment.value.state) {
      return Failed(InvalidTransition(paymentId, payment.value.state));
    }
    if refundAmountCents > payment.value.amountCents {
      return Failed(RefundExceedsAmount(paymentId));
    }
    store.UpsertPayment(paymentId, Refunded(payment.value, refundAmountCents));
    return Ok;
  }

  /** The refund bound: the full amount can be refunded, one cent more cannot. */
  lemma RefundBoundary(m: Payments, args: seq<string>, command: string)
    requires RefundArgsValid(args) && args[0] in m && CanRefund(m[args[0]].state)
    ensures RefundCents(args) == m[args[0]].amountCents ==> RefundStep(m, args, command).status == Ok
    ensures RefundCents(args) == m[args[0]].amountCents + 1 ==>
      RefundStep(m, args, command) == Reply(Failed(RefundExceedsAmount(args[0])), m)
  {
  }
}
