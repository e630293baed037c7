/** The argument validators. Each is a single check that passes or fails
    with an error kind; none of them reads or changes the store. */
module Validators {
  import opened Types
  import opened Amounts

  /** Fails exactly when fewer than minLength arguments are given; the
      error names the command, which defaults to CREATE. */
  function ValidateArgsLength(args: seq<string>, minLength: nat, command: string := "CREATE"): (r: Check)
    ensures r.Fail? <==> |args| < minLength
    ensures r.Fail? ==> r.error == InsufficientArgs(command)
  {
    if |args| < minLength then Fail(InsufficientArgs(command)) else Pass
  }

  /** Fails exactly when the value is missing (undefined) or empty. */
  function ValidateRequired(value: Option<string>, field: string, command: string := "CREATE"): (r: Check)
    ensures r.Pass? <==> value.Some? && value.value != ""
    ensures r.Fail? ==> r.error == Required(field, command)
  {
    match value
    case None => Fail(Required(field, command))
    case Some(v) => if v == "" then Fail(Required(field, command)) else Pass
  }

  datatype AmountResult = AmountOk(amount: Decimal) | AmountError(error: Error)

  /** Parses an amount; fails unless it is a well-formed number strictly
      greater than zero, and on success returns the parsed amount. */
  function ValidateAmount(amountStr: string): (r: AmountResult)
    ensures r.AmountOk? <==> ParseAmount(amountStr).Some? && Value(ParseAmount(amountStr).value) > 0.0
    ensures r.AmountOk? ==> r.amount == ParseAmount(amountStr).value && Value(r.amount) > 0.0
    ensures r.AmountError? ==> r.error == InvalidAmount
  {
    match ParseAmount(amountStr)
    case None => AmountError(InvalidAmount)
    case Some(d) => if Value(d) <= 0.0 then AmountError(InvalidAmount) else AmountOk(d)
  }

  /** Fails exactly when the currency code is not in the allow-list. */
  function ValidateCurrency(currency: string, allowedCurrencies: set<string>): (r: Check)
    ensures r.Pass? <==> currency in allowedCurrencies
    ensures r.Fail? ==> r.error == UnsupportedCurrency(currency)
  {
    if currency !in allowedCurrencies then Fail(UnsupportedCurrency(currency)) else Pass
  }
}
