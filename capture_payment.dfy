/** CAPTURE: an AUTHORIZED or PRE_SETTLEMENT_REVIEW payment moves to CAPTURED. */
module CapturePayment {
  import opened Types
  import opened Validators
  import opened Store

  /** The states CAPTURE accepts. */
  predicate CanCapture(s: PaymentState)
  {
    s == AUTHORIZED || s == PRE_SETTLEMENT_REVIEW
  }

  /** CAPTURE on store contents m. */
  function CaptureStep(m: Payments, args: seq<string>, command: string): (r: Reply)
    ensures r.status.Ok? <==> |args| >= 1 && args[0] != "" && args[0] in m && CanCapture(m[args[0]].state)
    ensures !r.status.Ok? ==> r.status.Failed? && r.payments == m
    ensures |args| >= 1 && args[0] != "" && args[0] !in m ==> r.status == Failed(NotFound(args[0]))
    ensures |args| >= 1 && args[0] != "" && args[0] in m && !CanCapture(m[args[0]].state) ==>
      r.status == Failed(InvalidTransition(args[0], m[args[0]].state))
    ensures r.status.Ok? ==>
      var id := args[0];
      && OnlyTouches(m, r.payments, id) && r.payments.Keys == m.Keys
      && r.payments[id] == m[id].(state := CAPTURED)
  {
    var c0 := ValidateArgsLength(args, 1, command);
    if c0.Fail? then Reply(Failed(c0.error), m)
    else
      var c1 := ValidateRequired(Arg(args, 0), "Payment ID", command);
      if c1.Fail? then Reply(Failed(c1.error), m)
      else
        var id := args[0];
        match Lookup(m, id)
        case None => Reply(Failed(NotFound(id)), m)
        case Some(payment) =>
          if !CanCapture(payment.state) then Reply(Failed(InvalidTransition(id, payment.state)), m)
          else
            var p := payment.(state := CAPTURED);
            UpsertOnlyTouches(m, id, p);
            Reply(Ok, Upsert(m, id, p))
  }

  /** CAPTURE on the store; the comment is not used. */
  method Capture(store: PaymentStore, args: seq<string>, command: string, comment: Option<string>)
    returns (status: Status)
    modifies store
    ensures Reply(status, store.payments) == CaptureStep(old(store.payments), args, command)
  {
    var check := ValidateArgsLength(args, 1, command);
    if check.Fail? { return Failed(check.error); }
    check := ValidateRequired(Arg(args, 0), "Payment ID", command);
    if check.Fail? { return Failed(check.error); }
    var paymentId := args[0];
    var payment := store.GetPayment(paymentId);
    if payment.None? { return Failed(NotFound(paymentId)); }
    if !CanCapture(payment.value.state) {
      return Failed(InvalidTransition(paymentId, payment.value.state));
    }
    store.UpsertPayment(paymentId, payment.value.(state := CAPTURED));
    return Ok;
  }

  /** A second CAPTURE fails: CAPTURED is not a state CAPTURE accepts. */
  lemma CaptureTwiceFails(m: Payments, args: seq<string>, command: string)
    requires CaptureStep(m, args, command).status.Ok?
    ensures var m' := CaptureStep(m, args, command).payments;
      CaptureStep(m', args, command) == Reply(Failed(InvalidTransition(args[0], CAPTURED)), m')
  {
  }
}
