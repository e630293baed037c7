/** VOID: a payment that has not been captured moves to VOIDED and records
    the reason code. */
module VoidPayment {
  import opened Types
  import opened Validators
  import opened Store

  /** The states VOID accepts: every state before capture. */
  predicate CanVoid(s: PaymentState)
  {
    s == INITIATED || s == AUTHORIZED || s == PRE_SETTLEMENT_REVIEW
  }

  /** VOID on store contents m. */
  function VoidStep(m: Payments, args: seq<string>, command: string): (r: Reply)
    ensures r.status.Ok? <==>
      |args| >= 2 && args[0] != "" && args[1] != "" && args[0] in m && CanVoid(m[args[0]].state)
    ensures !r.status.Ok? ==> r.status.Failed? && r.payments == m
    ensures |args| < 2 ==> r.status == Failed(InsufficientArgs(command))
    ensures |args| >= 2 && args[0] != "" && args[1] == "" ==> r.status == Failed(Required("Reason Code", command))
    ensures |args| >= 2 && args[0] != "" && args[1] != "" && args[0] !in m ==> r.status == Failed(NotFound(args[0]))
    ensures |args| >= 2 && args[0] != "" && args[1] != "" && args[0] in m && !CanVoid(m[args[0]].state) ==>
      r.status == Failed(InvalidTransition(args[0], m[args[0]].state))
    ensures r.status.Ok? ==>
      var id := args[0];
      && OnlyTouches(m, r.payments, id) && r.payments.Keys == m.Keys
      && r.payments[id] == m[id].(state := VOIDED, reasonCode := Some(args[1]))
  {
    var c0 := ValidateArgsLength(args, 2, command);
    if c0.Fail? then Reply(Failed(c0.error), m)
    else
      var c1 := ValidateRequired(Arg(args, 0), "Payment ID", command);
      if c1.Fail? then Reply(Failed(c1.error), m)
      else
        var id := args[0];
        var c2 := ValidateRequired(Arg(args, 1), "Reason Code", command);
        if c2.Fail? then Reply(Failed(c2.error), m)
        else
          var reasonCode := args[1];
          match Lookup(m, id)
          case None => Reply(Failed(NotFound(id)), m)
          case Some(payment) =>
            if !CanVoid(payment.state) then Reply(Failed(InvalidTransition(id, payment.state)), m)
            else
              var p := payment.(state := VOIDED, reasonCode := Some(reasonCode));
              UpsertOnlyTouches(m, id, p);
              Reply(Ok, Upsert(m, id, p))
  }

  /** VOID on the store; the comment is not used. */
  method Void(store: PaymentStore, args: seq<string>, command: string, comment: Option<string>)
    returns (status: Status)
    modifies store
    ensures Reply(status, store.payments) == VoidStep(old(store.payments), args, command)
  {
    var check := ValidateArgsLength(args, 2, command);
    if check.Fail? { return Failed(check.error); }
    check := ValidateRequired(Arg(args, 0), "Payment ID", command);
    if check.Fail? { return Failed(check.error); }
    var paymentId := args[0];
    check := ValidateRequired(Arg(args, 1), "Reason Code", command);
    if check.Fail? { return Failed(check.error); }
    var reasonCode := args[1];
    var payment := store.GetPayment(paymentId);
    if payment.None? { return Failed(NotFound(paymentId)); }
    if !CanVoid(payment.value.state) {
      return Failed(InvalidTransition(paymentId, payment.value.state));
    }
    store.UpsertPayment(paymentId, payment.value.(state := VOIDED, reasonCode := Some(reasonCode)));
    return Ok;
  }

  /** A second VOID fails: VOIDED is not a state VOID accepts. */
  lemma VoidTwiceFails(m: Payments, args: seq<string>, command: string)
    requires VoidStep(m, args, command).status.Ok?
    ensures var m' := VoidStep(m, args, command).payments;
      VoidStep(m', args, command) == Reply(Failed(InvalidTransition(args[0], VOIDED)), m')
  {
  }
}
