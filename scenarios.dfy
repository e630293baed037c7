/** Concrete command sequences: the end-to-end refund story and the review
    threshold at 100.00, run through the model. The lemmas without a body
    only evaluate concrete words and amounts. */
module Scenarios {
  import opened Types
  import opened Amounts
  import opened Validators
  import opened Tokenizer
  import opened TokenizerExamples
  import opened PaymentService
  import opened AuthorizePayment
  import opened CapturePayment
  import opened RefundPayment
  import opened HandleCommand
  import opened Lifecycle

  const Currencies: set<string> := {"MYR"}

  /** A line of well-formed words without a marker parses to those words. */
  lemma ParsesTo(line: string, xs: seq<string>)
    requires WellFormedWords(xs) && Marker !in xs && Join(xs) == line
    ensures ParseTokens(line) == Command(xs, None)
  {
    ParseJoinedWithoutMarker(xs);
  }

  lemma AuthorizeLineWords(xs: seq<string>)
    requires xs == ["AUTHORIZE", "P1"]
    ensures WellFormedWords(xs) && Marker !in xs && Join(xs) == "AUTHORIZE P1"
  {}

  lemma CaptureLineWords(xs: seq<string>)
    requires xs == ["CAPTURE", "P1"]
    ensures WellFormedWords(xs) && Marker !in xs && Join(xs) == "CAPTURE P1"
  {}

  lemma RefundLineWords(xs: seq<string>, amount: string)
    requires amount == "5.00" || amount == "1.00"
    requires xs == ["REFUND", "P1", amount]
    ensures WellFormedWords(xs) && Marker !in xs && Join(xs) == "REFUND P1 " + amount
  {
    assert Join(xs[1..]) == "P1 " + amount;
  }

  lemma AmountTexts()
    ensures FormatCents(1000) == "10.00" && FormatCents(500) == "5.00" && FormatCents(100) == "1.00"
  {}

  lemma ReviewAmountTexts()
    ensures FormatCents(10000) == "100.00" && FormatCents(9999) == "99.99"
  {}

  /** A two-decimal amount text is accepted, with its cents, whenever it
      denotes a positive amount. */
  lemma ValidateFormatted(c: nat)
    requires c > 0
    ensures ValidateAmount(FormatCents(c)).AmountOk?
    ensures Cents(ValidateAmount(FormatCents(c)).amount) == c
  {
    FormatCentsRoundTrip(c);
  }

  /** The record the first line of the story creates. */
  function P1Created(): Payment
  {
    NewPayment("P1", 1000, "MYR", "M01")
  }

  /** A parsed command line runs its first token on the rest. */
  lemma HandleParsed(line: string, xs: seq<string>, m: Payments)
    requires |xs| >= 1 && ParseTokens(line) == Command(xs, None)
    ensures Handle(line, m, Currencies) == Dispatch(xs[0], xs[1..], m, Currencies)
  {}

  /** A valid CREATE on the empty store stores exactly the new record. */
  lemma CreateFresh(args: seq<string>, cents: nat)
    requires CreateArgsValid(args, Currencies) && CreateCents(args, Currencies) == cents
    ensures CreateStep(map[], args, Currencies) == Reply(Ok, map[args[0] := NewPayment(args[0], cents, args[2], args[3])])
  {}

  lemma CreateP1(args: seq<string>)
    requires args == ["P1", FormatCents(1000), "MYR", "M01"]
    ensures CreateStep(map[], args, Currencies) == Reply(Ok, map["P1" := P1Created()])
  {
    ValidateFormatted(1000);
    assert CreateArgsValid(args, Currencies);
    CreateFresh(args, 1000);
  }

  lemma CreateLine(line: string)
    requires line == "CREATE P1 10.00 MYR M01"
    ensures Handle(line, map[], Currencies) == Reply(Ok, map["P1" := P1Created()])
  {
    var xs := ["CREATE", "P1", "10.00", "MYR", "M01"];
    PlainLine();
    HandleParsed(line, xs, map[]);
    AmountTexts();
    CreateP1(xs[1..]);
  }

  lemma AuthorizeP1(m: Payments, args: seq<string>)
    requires m == map["P1" := P1Created()] && args == ["P1"]
    ensures AuthorizeStep(m, args, "AUTHORIZE") == Reply(Ok, map["P1" := P1Created().(state := AUTHORIZED)])
  {}

  lemma AuthorizeLine(line: string, m: Payments)
    requires line == "AUTHORIZE P1" && m == map["P1" := P1Created()]
    ensures Handle(line, m, Currencies) == Reply(Ok, map["P1" := P1Created().(state := AUTHORIZED)])
  {
    var xs := ["AUTHORIZE", "P1"];
    AuthorizeLineWords(xs);
    ParsesTo(line, xs);
    HandleParsed(line, xs, m);
    AuthorizeP1(m, xs[1..]);
  }

  lemma CaptureP1(m: Payments, args: seq<string>)
    requires m == map["P1" := P1Created().(state := AUTHORIZED)] && args == ["P1"]
    ensures CaptureStep(m, args, "CAPTURE") == Reply(Ok, map["P1" := P1Created().(state := CAPTURED)])
  {}

  lemma CaptureLine(line: string, m: Payments)
    requires line == "CAPTURE P1" && m == map["P1" := P1Created().(state := AUTHORIZED)]
    ensures Handle(line, m, Currencies) == Reply(Ok, map["P1" := P1Created().(state := CAPTURED)])
  {
    var xs := ["CAPTURE", "P1"];
    CaptureLineWords(xs);
    ParsesTo(line, xs);
    HandleParsed(line, xs, m);
    CaptureP1(m, xs[1..]);
  }

  /** An accepted REFUND replaces the named record by its refunded form. */
  lemma RefundAccepted(m: Payments, args: seq<string>, cents: nat)
    requires RefundArgsValid(args) && RefundCents(args) == cents
    requires args[0] in m && CanRefund(m[args[0]].state) && cents <= m[args[0]].amountCents
    ensures RefundStep(m, args, "REFUND") == Reply(Ok, m[args[0] := Refunded(m[args[0]], cents)])
  {}

  lemma RefundP1(m: Payments, args: seq<string>)
    requires m == map["P1" := P1Created().(state := CAPTURED)]
    requires args == ["P1", FormatCents(500)]
    ensures RefundStep(m, args, "REFUND") == Reply(Ok, map["P1" := Refunded(P1Created(), 500)])
  {
    ValidateFormatted(500);
    RefundAccepted(m, args, 500);
  }

  lemma RefundLine(line: string, m: Payments)
    requires line == "REFUND P1 5.00" && m == map["P1" := P1Created().(state := CAPTURED)]
    ensures Handle(line, m, Currencies) == Reply(Ok, map["P1" := Refunded(P1Created(), 500)])
  {
    var xs := ["REFUND", "P1", "5.00"];
    RefundLineWords(xs, "5.00");
    ParsesTo(line, xs);
    HandleParsed(line, xs, m);
    AmountTexts();
    RefundP1(m, xs[1..]);
  }

  lemma RefundAgainP1(m: Payments, args: seq<string>)
    requires m == map["P1" := Refunded(P1Created(), 500)]
    requires args == ["P1", FormatCents(100)]
    ensures RefundStep(m, args, "REFUND") == Reply(Failed(AlreadyRefunded("P1")), m)
  {
    ValidateFormatted(100);
  }

  /** After the story, a second refund fails as already refunded and
      changes nothing. */
  lemma RefundAgainLine(line: string, m: Payments)
    requires line == "REFUND P1 1.00" && m == map["P1" := Refunded(P1Created(), 500)]
    ensures Handle(line, m, Currencies) == Reply(Failed(AlreadyRefunded("P1")), m)
  {
    var xs := ["REFUND", "P1", "1.00"];
    RefundLineWords(xs, "1.00");
    ParsesTo(line, xs);
    HandleParsed(line, xs, m);
    AmountTexts();
    RefundAgainP1(m, xs[1..]);
  }

  /** A line that succeeds with store m' hands m' on to the rest. */
  lemma SessionOk(lines: seq<string>, m: Payments, m': Payments)
    requires lines != [] && Handle(lines[0], m, Currencies) == Reply(Ok, m')
    ensures Session(lines, m, Currencies) == Session(lines[1..], m', Currencies)
  {}

  /** A single line that succeeds with store m' leaves m'. */
  lemma SessionOne(lines: seq<string>, m: Payments, m': Payments)
    requires |lines| == 1 && Handle(lines[0], m, Currencies) == Reply(Ok, m')
    ensures Session(lines, m, Currencies) == m'
  {
    assert lines[1..] == [];
  }

  /** CREATE P1 10.00 MYR M01, AUTHORIZE P1, CAPTURE P1, REFUND P1 5.00
      run from the empty store leave exactly the refunded record P1; a
      further REFUND P1 1.00 then fails (RefundAgainLine). */
  lemma RefundStory(lines: seq<string>)
    requires lines == ["CREATE P1 10.00 MYR M01", "AUTHORIZE P1", "CAPTURE P1", "REFUND P1 5.00"]
    ensures Session(lines, map[], Currencies) == map["P1" := Refunded(P1Created(), 500)]
  {
    var m1 := map["P1" := P1Created()];
    CreateLine(lines[0]);
    SessionOk(lines, map[], m1);
    RefundStoryFromCreated(lines[1..], m1);
  }

  lemma RefundStoryFromCreated(lines: seq<string>, m: Payments)
    requires lines == ["AUTHORIZE P1", "CAPTURE P1", "REFUND P1 5.00"] && m == map["P1" := P1Created()]
    ensures Session(lines, m, Currencies) == map["P1" := Refunded(P1Created(), 500)]
  {
    var m2 := map["P1" := P1Created().(state := AUTHORIZED)];
    AuthorizeLine(lines[0], m);
    SessionOk(lines, m, m2);
    RefundStoryFromAuthorized(lines[1..], m2);
  }

  lemma RefundStoryFromAuthorized(lines: seq<string>, m: Payments)
    requires lines == ["CAPTURE P1", "REFUND P1 5.00"] && m == map["P1" := P1Created().(state := AUTHORIZED)]
    ensures Session(lines, m, Currencies) == map["P1" := Refunded(P1Created(), 500)]
  {
    var m3 := map["P1" := P1Created().(state := CAPTURED)];
    CaptureLine(lines[0], m);
    SessionOk(lines, m, m3);
    RefundStoryFromCaptured(lines[1..], m3);
  }

  lemma RefundStoryFromCaptured(lines: seq<string>, m: Payments)
    requires lines == ["REFUND P1 5.00"] && m == map["P1" := P1Created().(state := CAPTURED)]
    ensures Session(lines, m, Currencies) == map["P1" := Refunded(P1Created(), 500)]
  {
    var m4 := map["P1" := Refunded(P1Created(), 500)];
    RefundLine(lines[0], m);
    SessionOne(lines, m, m4);
  }

  /** The record at the end of the story: REFUNDED, its amount untouched,
      500 cents refunded as the text 5.00. */
  lemma RefundedRecord()
    ensures var p := Refunded(P1Created(), 500);
      && p.state == REFUNDED && p.id == "P1"
      && p.amount == "10.00" && p.amountCents == 1000
      && p.refundedAmount == Some("5.00") && p.refundedAmountCents == Some(500)
  {
    AmountTexts();
  }

  /** The review threshold through CREATE and AUTHORIZE: a payment created
      with 100.00 is authorized into PRE_SETTLEMENT_REVIEW ... */
  lemma ReviewAtThreshold(args: seq<string>, m: Payments)
    requires args == ["P2", "100.00", "MYR", "M01"] && m == map["P2" := NewPayment("P2", 10000, "MYR", "M01")]
    ensures CreateStep(map[], args, Currencies) == Reply(Ok, m)
    ensures AuthorizeStep(m, args[..1], "AUTHORIZE") == Reply(Ok, m["P2" := m["P2"].(state := PRE_SETTLEMENT_REVIEW)])
  {
    ReviewAmountTexts();
    ValidateFormatted(10000);
    assert CreateArgsValid(args, Currencies);
    CreateFresh(args, 10000);
  }

  /** ... and one created with 99.99 into AUTHORIZED. */
  lemma NoReviewBelowThreshold(args: seq<string>, m: Payments)
    requires args == ["P3", "99.99", "MYR", "M01"] && m == map["P3" := NewPayment("P3", 9999, "MYR", "M01")]
    ensures CreateStep(map[], args, Currencies) == Reply(Ok, m)
    ensures AuthorizeStep(m, args[..1], "AUTHORIZE") == Reply(Ok, m["P3" := m["P3"].(state := AUTHORIZED)])
  {
    ReviewAmountTexts();
    ValidateFormatted(9999);
    assert CreateArgsValid(args, Currencies);
    CreateFresh(args, 9999);
  }

  /** Command names are matched exactly: a lower-case name is unknown. */
  lemma CaseSensitiveNames(m: Payments, args: seq<string>)
    ensures Dispatch("create", args, m, Currencies) == Reply(Failed(UnknownCommand("create")), m)
  {
  }
}
