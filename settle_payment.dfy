/** SETTLE: a CAPTURED payment moves to SETTLED; a SETTLED one is accepted
    again without any write. */
module SettlePayment {
  import opened Types
  import opened Validators
  import opened Store

  /** The states SETTLE accepts. */
  predicate CanSettle(s: PaymentState)
  {
    s == CAPTURED || s == SETTLED
  }

  /** SETTLE on store contents m. */
  function SettleStep(m: Payments, args: seq<string>, command: string): (r: Reply)
    ensures r.status.Ok? <==> |args| >= 1 && args[0] != "" && args[0] in m && CanSettle(m[args[0]].state)
    ensures !r.status.Ok? ==> r.status.Failed? && r.payments == m
    ensures |args| >= 1 && args[0] != "" && args[0] !in m ==> r.status == Failed(NotFound(args[0]))
    ensures |args| >= 1 && args[0] != "" && args[0] in m && !CanSettle(m[args[0]].state) ==>
      r.status == Failed(InvalidTransition(args[0], m[args[0]].state))
    ensures r.status.Ok? && m[args[0]].state == SETTLED ==> r.payments == m
    ensures r.status.Ok? ==>
      var id := args[0];
      && OnlyTouches(m, r.payments, id) && r.payments.Keys == m.Keys
      && r.payments[id] == m[id].(state := SETTLED)
  {
    var c0 := ValidateArgsLength(args, 1, command);
    if c0.Fail? then Reply(Failed(c0.error), m)
    else
      var c1 := ValidateRequired(Arg(args, 0), "Payment ID", command);
      if c1.Fail? then Reply(Failed(c1.error), m)
      else
        var id := args[0];
        match Lookup(m, id)
        case None => Reply(Failed(NotFound(id)), m)
        case Some(payment) =>
          if !CanSettle(payment.state) then Reply(Failed(InvalidTransition(id, payment.state)), m)
          else if payment.state == SETTLED then Reply(Ok, m)
          else
            var p := payment.(state := SETTLED);
            UpsertOnlyTouches(m, id, p);
            Reply(Ok, Upsert(m, id, p))
  }

  /** SETTLE on the store; the comment is not used. */
  method Settle(store: PaymentStore, args: seq<string>, command: string, comment: Option<string>)
    returns (status: Status)
    modifies store
    ensures Reply(status, store.payments) == SettleStep(old(store.payments), args, command)
  {
    var check := ValidateArgsLength(args, 1, command);
    if check.Fail? { return Failed(check.error); }
    check := ValidateRequired(Arg(args, 0), "Payment ID", command);
    if check.Fail? { return Failed(check.error); }
    var paymentId := args[0];
    var payment := store.GetPayment(paymentId);
    if payment.None? { return Failed(NotFound(paymentId)); }
    if !CanSettle(payment.value.state) {
      return Failed(InvalidTransition(paymentId, payment.value.state));
    }
    if payment.value.state != SETTLED {
      store.UpsertPayment(paymentId, payment.value.(state := SETTLED));
    }
    return Ok;
  }

  /** Settling twice has the same effect as settling once, and the second
      SETTLE succeeds too. */
  lemma SettleIdempotent(m: Payments, args: seq<string>, command: string)
    requires SettleStep(m, args, command).status.Ok?
    ensures var r := SettleStep(m, args, command);
      SettleStep(r.payments, args, command) == r
  {
  }
}
