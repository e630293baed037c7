/** The dispatcher: tokenizes a line, takes the first token as the command
    name and the rest as its arguments, and runs the matching handler. */
module HandleCommand {
  import opened Types
  import opened Validators
  import opened Store
  import opened Tokenizer
  import opened PaymentService
  import opened AuthorizePayment
  import opened CapturePayment
  import opened SettlePayment
  import opened VoidPayment
  import opened RefundPayment

  /** The commands that run a lifecycle handler. */
  const LifecycleCommands: set<string> := {"CREATE", "AUTHORIZE", "CAPTURE", "VOID", "REFUND", "SETTLE"}

  /** The commands that only report (their output is not modelled) or exit. */
  const OtherCommands: set<string> := {"SETTLEMENT", "STATUS", "LIST", "AUDIT", "EXIT"}

  /** The settlement report: only its argument checks can fail. */
  function SettlementReport(args: seq<string>, command: string): (s: Status)
    ensures s.Ok? <==> |args| >= 1 && args[0] != ""
    ensures !s.Ok? ==> s.Failed?
  {
    var c0 := ValidateArgsLength(args, 1, command);
    if c0.Fail? then Failed(c0.error)
    else
      var c1 := ValidateRequired(Arg(args, 0), "Batch ID", command);
      if c1.Fail? then Failed(c1.error) else Ok
  }

  /** The status report: only its argument checks can fail; its count
      check does not pass the command, so its error names CREATE. */
  function PaymentStatusReport(args: seq<string>, command: string): (s: Status)
    ensures s.Ok? <==> |args| >= 1 && args[0] != ""
    ensures |args| == 0 ==> s == Failed(InsufficientArgs("CREATE"))
  {
    var c0 := ValidateArgsLength(args, 1);
    if c0.Fail? then Failed(c0.error)
    else
      var c1 := ValidateRequired(Arg(args, 0), "Payment ID", command);
      if c1.Fail? then Failed(c1.error) else Ok
  }

  /** Runs the named command on store contents m. */
  function Dispatch(command: string, args: seq<string>, m: Payments, allowedCurrencies: set<string>): (r: Reply)
    ensures command == "CREATE" ==> r == CreateStep(m, args, allowedCurrencies)
    ensures command == "AUTHORIZE" ==> r == AuthorizeStep(m, args, command)
    ensures command == "CAPTURE" ==> r == CaptureStep(m, args, command)
    ensures command == "VOID" ==> r == VoidStep(m, args, command)
    ensures command == "REFUND" ==> r == RefundStep(m, args, command)
    ensures command == "SETTLE" ==> r == SettleStep(m, args, command)
    ensures command !in LifecycleCommands ==> r.payments == m
    ensures command == "EXIT" <==> r.status == Exit
    ensures command !in LifecycleCommands + OtherCommands ==> r == Reply(Failed(UnknownCommand(command)), m)
  {
    if command == "CREATE" then CreateStep(m, args, allowedCurrencies)
    else if command == "AUTHORIZE" then AuthorizeStep(m, args, command)
    else if command == "CAPTURE" then CaptureStep(m, args, command)
    else if command == "VOID" then VoidStep(m, args, command)
    else if command == "REFUND" then RefundStep(m, args, command)
    else if command == "SETTLE" then SettleStep(m, args, command)
    else if command == "SETTLEMENT" then Reply(SettlementReport(args, command), m)
    else if command == "STATUS" then Reply(PaymentStatusReport(args, command), m)
    else if command == "LIST" then Reply(Ok, m)
    else if command == "AUDIT" then Reply(Ok, m)
    else if command == "EXIT" then Reply(Exit, m)
    else Reply(Failed(UnknownCommand(command)), m)
  }

  /** Processes one raw line on store contents m. */
  function Handle(line: string, m: Payments, allowedCurrencies: set<string>): (r: Reply)
    ensures AllSpace(line) ==> r == Reply(Ok, m)
    ensures ParseTokens(line).Malformed? ==> r == Reply(Failed(MalformedLine), m)
    ensures ParseTokens(line).Command? ==>
      var ts := ParseTokens(line).tokens;
      |ts| >= 1 && r == Dispatch(ts[0], ts[1..], m, allowedCurrencies)
  {
    ParseBlank(line);
    match ParseTokens(line)
    case Blank => Reply(Ok, m)
    case Malformed => Reply(Failed(MalformedLine), m)
    case Command(tokens, comment) =>
      ParseTokensWords(line);
      Dispatch(tokens[0], tokens[1..], m, allowedCurrencies)
  }

  /** One line against the store. The comment is handed to the handler,
      which does not use it. */
  method HandleLine(store: PaymentStore, line: string, allowedCurrencies: set<string>) returns (status: Status)
    modifies store
    ensures Reply(status, store.payments) == Handle(line, old(store.payments), allowedCurrencies)
  {
    var parsed := ParseTokens(line);
    ParseBlank(line);
    if parsed.Blank? { return Ok; }
    if parsed.Malformed? { return Failed(MalformedLine); }
    ParseTokensWords(line);
    var command, args, comment := parsed.tokens[0], parsed.tokens[1..], parsed.comment;
    if command == "CREATE" {
      status := CreatePayment(store, args, command, comment, allowedCurrencies);
    } else if command == "AUTHORIZE" {
      status := Authorize(store, args, command, comment);
    } else if command == "CAPTURE" {
      status := Capture(store, args, command, comment);
    } else if command == "VOID" {
      status := Void(store, args, command, comment);
    } else if command == "REFUND" {
      status := Refund(store, args, command, comment);
    } else if command == "SETTLE" {
      status := Settle(store, args, command, comment);
    } else if command == "SETTLEMENT" {
      status := SettlementReport(args, command);
    } else if command == "STATUS" {
      status := PaymentStatusReport(args, command);
    } else if command == "LIST" {
      var all, order := store.GetAllPayments();
      status := Ok;
    } else if command == "AUDIT" {
      status := Ok;
    } else if command == "EXIT" {
      status := Exit;
    } else {
      status := Failed(UnknownCommand(command));
    }
  }
}
