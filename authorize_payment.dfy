/** AUTHORIZE: an INITIATED payment moves to AUTHORIZED, or to
    PRE_SETTLEMENT_REVIEW when its amount reaches the review threshold. */
module AuthorizePayment {
  import opened Types
  import opened Validators
  import opened Store

  /** Amounts of 100.00 and more (in cents, inclusive) go to review. */
  const ReviewThresholdCents: int := 10000

  /** The state an authorized payment of the given cents moves to. */
  function AuthorizedState(amountCents: int): (s: PaymentState)
    ensures s == PRE_SETTLEMENT_REVIEW <==> amountCents >= ReviewThresholdCents
    ensures s == AUTHORIZED <==> amountCents < ReviewThresholdCents
  {
    if amountCents >= ReviewThresholdCents then PRE_SETTLEMENT_REVIEW else AUTHORIZED
  }

  /** AUTHORIZE on store contents m. */
  function AuthorizeStep(m: Payments, args: seq<string>, command: string): (r: Reply)
    ensures r.status.Ok? <==> |args| >= 1 && args[0] != "" && args[0] in m && m[args[0]].state == INITIATED
    ensures !r.status.Ok? ==> r.status.Failed? && r.payments == m
    ensures |args| >= 1 && args[0] != "" && args[0] !in m ==> r.status == Failed(NotFound(args[0]))
    ensures |args| >= 1 && args[0] != "" && args[0] in m && m[args[0]].state != INITIATED ==>
      r.status == Failed(InvalidTransition(args[0], m[args[0]].state))
    ensures r.status.Ok? ==>
      var id := args[0];
      && OnlyTouches(m, r.payments, id) && r.payments.Keys == m.Keys
      && r.payments[id] == m[id].(state := AuthorizedState(m[id].amountCents))
  {
    var c0 := ValidateArgsLength(args, 1, command);
    if c0.Fail? then Reply(Failed(c0.error), m)
    else
      var c1 := ValidateRequired(Arg(args, 0), "Payment ID", command);
      if c1.Fail? then Reply(Failed(c1.error), m)
      else
        var id := args[0];
        match Lookup(m, id)
        case None => Reply(Failed(NotFound(id)), m)
        case Some(payment) =>
          if payment.state != INITIATED then Reply(Failed(InvalidTransition(id, payment.state)), m)
          else
            var p := payment.(state := AuthorizedState(payment.amountCents));
            UpsertOnlyTouches(m, id, p);
            Reply(Ok, Upsert(m, id, p))
  }

  /** AUTHORIZE on the store; the comment is not used. */
  method Authorize(store: PaymentStore, args: seq<string>, command: string, comment: Option<string>)
    returns (status: Status)
    modifies store
    ensures Reply(status, store.payments) == AuthorizeStep(old(store.payments), args, command)
  {
    var check := ValidateArgsLength(args, 1, command);
    if check.Fail? { return Failed(check.error); }
    check := ValidateRequired(Arg(args, 0), "Payment ID", command);
    if check.Fail? { return Failed(check.error); }
    var paymentId := args[0];
    var payment := store.GetPayment(paymentId);
    if payment.None? { return Failed(NotFound(paymentId)); }
    if payment.value.state != INITIATED {
      return Failed(InvalidTransition(paymentId, payment.value.state));
    }
    var newState := AuthorizedState(payment.value.amountCents);
    store.UpsertPayment(paymentId, payment.value.(state := newState));
    return Ok;
  }

  /** A second AUTHORIZE always fails: neither result state is INITIATED. */
  lemma AuthorizeTwiceFails(m: Payments, args: seq<string>, command: string)
    requires AuthorizeStep(m, args, command).status.Ok?
    ensures var m' := AuthorizeStep(m, args, command).payments;
      AuthorizeStep(m', args, command) == Reply(Failed(InvalidTransition(args[0], m'[args[0]].state)), m')
  {
  }

  /** The threshold examples: 100.00 goes to review, 99.99 does not. */
  lemma AuthorizeThresholdBoundary(m: Payments, id: string)
    requires id != "" && id in m && m[id].state == INITIATED
    ensures m[id].amountCents == 10000 ==> AuthorizeStep(m, [id], "AUTHORIZE").payments[id].state == PRE_SETTLEMENT_REVIEW
    ensures m[id].amountCents == 9999 ==> AuthorizeStep(m, [id], "AUTHORIZE").payments[id].state == AUTHORIZED
  {
  }
}
