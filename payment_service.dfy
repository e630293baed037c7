/** CREATE: validates id, amount, currency and merchant, then creates the
    record, accepts an identical replay without change, or marks a
    conflicting existing record FAILED and fails. */
module PaymentService {
  import opened Types
  import opened Amounts
  import opened Validators
  import opened Store

  /** The record CREATE stores for a new id. */
  function NewPayment(id: string, cents: nat, currency: string, merchantId: string): (p: Payment)
    ensures p.state == INITIATED && p.id == id && p.amountCents == cents
    ensures p.currency == currency && p.merchantId == merchantId
    ensures p.amount == FormatCents(cents)
    ensures p.reasonCode.None? && p.refundedAmount.None? && p.refundedAmountCents.None?
    ensures p.createConflictReason.None?
  {
    Payment(id, FormatCents(cents), cents, currency, merchantId, INITIATED, None, None, None, None)
  }

  /** Whether the arguments pass every CREATE validation. */
  predicate CreateArgsValid(args: seq<string>, allowedCurrencies: set<string>)
  {
    && |args| >= 4
    && args[0] != "" && args[1] != ""
    && ValidateAmount(args[1]).AmountOk?
    && args[2] != "" && args[2] in allowedCurrencies
    && args[3] != ""
  }

  /** The cents of a validated CREATE amount. */
  function CreateCents(args: seq<string>, allowedCurrencies: set<string>): (c: nat)
    requires CreateArgsValid(args, allowedCurrencies)
  {
    Cents(ValidateAmount(args[1]).amount)
  }

  /** A stored record carries the same merchant, cents and currency. */
  predicate SameDetails(p: Payment, cents: int, currency: string, merchantId: string)
  {
    p.merchantId == merchantId && p.amountCents == cents && p.currency == currency
  }

  /** CREATE on store contents m. */
  function CreateStep(m: Payments, args: seq<string>, allowedCurrencies: set<string>): (r: Reply)
    // every validation precedes the lookup: a failed validation changes nothing
    ensures !CreateArgsValid(args, allowedCurrencies) ==> r.status.Failed? && r.payments == m
    ensures |args| < 4 ==> r == Reply(Failed(InsufficientArgs("CREATE")), m)
    ensures CreateArgsValid(args, allowedCurrencies) ==>
      var id, cents := args[0], CreateCents(args, allowedCurrencies);
      var currency, merchantId := args[2], args[3];
      && OnlyTouches(m, r.payments, id)
      && (id !in m ==>
            r.status == Ok && id in r.payments && r.payments[id] == NewPayment(id, cents, currency, merchantId))
      && (id in m && SameDetails(m[id], cents, currency, merchantId) ==> r == Reply(Ok, m))
      && (id in m && !SameDetails(m[id], cents, currency, merchantId) ==>
            r.status == Failed(Conflict(id)) && id in r.payments && r.payments[id] == m[id].(state := FAILED))
  {
    var c0 := ValidateArgsLength(args, 4);
    if c0.Fail? then Reply(Failed(c0.error), m)
    else
      var c1 := ValidateRequired(Arg(args, 0), "Payment ID");
      if c1.Fail? then Reply(Failed(c1.error), m)
      else
        var id := args[0];
        var c2 := ValidateRequired(Arg(args, 1), "Amount");
        if c2.Fail? then Reply(Failed(c2.error), m)
        else match ValidateAmount(args[1])
          case AmountError(e) => Reply(Failed(e), m)
          case AmountOk(amount) =>
            var cents := Cents(amount);
            var c3 := ValidateRequired(Arg(args, 2), "Currency");
            if c3.Fail? then Reply(Failed(c3.error), m)
            else
              var c4 := ValidateCurrency(args[2], allowedCurrencies);
              if c4.Fail? then Reply(Failed(c4.error), m)
              else
                var currency := args[2];
                var c5 := ValidateRequired(Arg(args, 3), "Merchant ID");
                if c5.Fail? then Reply(Failed(c5.error), m)
                else
                  var merchantId := args[3];
                  match Lookup(m, id)
                  case Some(existing) =>
                    if SameDetails(existing, cents, currency, merchantId) then Reply(Ok, m)
                    else
                      UpsertOnlyTouches(m, id, existing.(state := FAILED));
                      Reply(Failed(Conflict(id)), Upsert(m, id, existing.(state := FAILED)))
                  case None =>
                    var p := NewPayment(id, cents, currency, merchantId);
                    UpsertOnlyTouches(m, id, p);
                    Reply(Ok, Upsert(m, id, p))
  }

  /** CREATE on the store. The command name and the comment are accepted
      but not used: the validators' errors name CREATE by default. */
  method CreatePayment(store: PaymentStore, args: seq<string>, command: string, comment: Option<string>,
                       allowedCurrencies: set<string>) returns (status: Status)
    modifies store
    ensures Reply(status, store.payments) == CreateStep(old(store.payments), args, allowedCurrencies)
  {
    var check := ValidateArgsLength(args, 4);
    if check.Fail? { return Failed(check.error); }
    check := ValidateRequired(Arg(args, 0), "Payment ID");
    if check.Fail? { return Failed(check.error); }
    var paymentId := args[0];
    check := ValidateRequired(Arg(args, 1), "Amount");
    if check.Fail? { return Failed(check.error); }
    var amount := ValidateAmount(args[1]);
    if amount.AmountError? { return Failed(amount.error); }
    var amountCents := Cents(amount.amount);
    check := ValidateRequired(Arg(args, 2), "Currency");
    if check.Fail? { return Failed(check.error); }
    check := ValidateCurrency(args[2], allowedCurrencies);
    if check.Fail? { return Failed(check.error); }
    var currency := args[2];
    check := ValidateRequired(Arg(args, 3), "Merchant ID");
    if check.Fail? { return Failed(check.error); }
    var merchantId := args[3];
    var existing := store.GetPayment(paymentId);
    if existing.Some? {
      if SameDetails(existing.value, amountCents, currency, merchantId) {
        return Ok;
      }
      store.UpsertPayment(paymentId, existing.value.(state := FAILED));
      return Failed(Conflict(paymentId));
    }
    store.UpsertPayment(paymentId, NewPayment(paymentId, amountCents, currency, merchantId));
    return Ok;
  }
}
