/** Properties of the whole command set: the explicit transition table,
    what no command may change, the record invariant every command keeps,
    and the idempotent replays. */
module Lifecycle {
  import opened Types
  import opened Amounts
  import opened Store
  import opened Tokenizer
  import opened PaymentService
  import opened AuthorizePayment
  import opened CapturePayment
  import opened SettlePayment
  import opened VoidPayment
  import opened RefundPayment
  import opened HandleCommand

  /** The transition table: staying put, any state to FAILED (a conflicting
      CREATE), and the forward edges of the lifecycle. */
  predicate Transition(from: PaymentState, to: PaymentState)
  {
    || from == to
    || to == FAILED
    || (from == INITIATED && (to == AUTHORIZED || to == PRE_SETTLEMENT_REVIEW))
    || ((from == AUTHORIZED || from == PRE_SETTLEMENT_REVIEW) && to == CAPTURED)
    || (from == CAPTURED && to == SETTLED)
    || ((from == INITIATED || from == AUTHORIZED || from == PRE_SETTLEMENT_REVIEW) && to == VOIDED)
    || ((from == CAPTURED || from == SETTLED) && to == REFUNDED)
  }

  /** The fields fixed at creation. */
  predicate SameIdentity(p: Payment, q: Payment)
  {
    p.id == q.id && p.amount == q.amount && p.amountCents == q.amountCents
    && p.currency == q.currency && p.merchantId == q.merchantId
  }

  /** A terminal state: only a conflicting CREATE can still change it. */
  predicate Terminal(s: PaymentState)
  {
    s == VOIDED || s == REFUNDED || s == FAILED
  }

  /** The record invariant. */
  ghost predicate ValidRecord(id: string, p: Payment)
  {
    && p.id == id
    && p.amountCents >= 0 && p.amount == FormatCents(p.amountCents)
    && p.createConflictReason.None?
    && (p.refundedAmountCents.Some? <==> p.refundedAmount.Some?)
    && (p.refundedAmountCents.Some? ==>
          0 <= p.refundedAmountCents.value <= p.amountCents
          && p.refundedAmount.value == FormatCents(p.refundedAmountCents.value))
    && (p.reasonCode.Some? ==> p.state == VOIDED || p.state == FAILED)
    && (p.refundedAmountCents.Some? ==> p.state == REFUNDED || p.state == FAILED)
    && (p.state == VOIDED ==> p.reasonCode.Some?)
    && (p.state == REFUNDED ==> p.refundedAmountCents.Some?)
  }

  ghost predicate ValidStore(m: Payments)
  {
    forall id :: id in m ==> ValidRecord(id, m[id])
  }

  /** What one command may do to one stored record. */
  ghost predicate RecordStep(m: Payments, m': Payments, id: string)
    requires id in m
  {
    && id in m'
    && SameIdentity(m[id], m'[id])
    && Transition(m[id].state, m'[id].state)
  }

  lemma DispatchStep(command: string, args: seq<string>, m: Payments, allowedCurrencies: set<string>, id: string)
    requires id in m
    ensures RecordStep(m, Dispatch(command, args, m, allowedCurrencies).payments, id)
  {
    var r := Dispatch(command, args, m, allowedCurrencies);
    if command == "CREATE" && CreateArgsValid(args, allowedCurrencies) && args[0] == id {
      assert r.payments[id] == m[id] || r.payments[id] == m[id].(state := FAILED);
    } else if command == "AUTHORIZE" && r.status.Ok? && args[0] == id {
    } else if command == "REFUND" && r.status.Ok? && args[0] == id {
      assert r.payments[id] == Refunded(m[id], RefundCents(args));
    }
  }

  /** Every command, on every stored record, keeps the fields fixed at
      creation and moves the state only along an edge of the table. */
  lemma HandleStep(line: string, m: Payments, allowedCurrencies: set<string>, id: string)
    requires id in m
    ensures RecordStep(m, Handle(line, m, allowedCurrencies).payments, id)
  {
    if ParseTokens(line).Command? {
      var ts := ParseTokens(line).tokens;
      ParseTokensWords(line);
      DispatchStep(ts[0], ts[1..], m, allowedCurrencies, id);
    }
  }

  /** No handler removes a record, and a handler changes at most the record
      named by its first argument. */
  lemma DispatchKeys(command: string, args: seq<string>, m: Payments, allowedCurrencies: set<string>)
    ensures |args| >= 1 ==> OnlyTouches(m, Dispatch(command, args, m, allowedCurrencies).payments, args[0])
    ensures |args| == 0 ==> Dispatch(command, args, m, allowedCurrencies).payments == m
  {
    var r := Dispatch(command, args, m, allowedCurrencies);
    if command == "REFUND" && r.status.Ok? {
      UpsertOnlyTouches(m, args[0], Refunded(m[args[0]], RefundCents(args)));
    }
  }

  /** No command removes a record, and a command changes at most the record
      named by its first argument. */
  lemma HandleKeys(line: string, m: Payments, allowedCurrencies: set<string>)
    ensures m.Keys <= Handle(line, m, allowedCurrencies).payments.Keys
    ensures ParseTokens(line).Command? && |ParseTokens(line).tokens| >= 2 ==>
      OnlyTouches(m, Handle(line, m, allowedCurrencies).payments, ParseTokens(line).tokens[1])
    ensures !(ParseTokens(line).Command? && |ParseTokens(line).tokens| >= 2) ==>
      Handle(line, m, allowedCurrencies).payments == m
  {
    ParseBlank(line);
    if ParseTokens(line).Command? {
      ParseTokensWords(line);
      var ts := ParseTokens(line).tokens;
      DispatchKeys(ts[0], ts[1..], m, allowedCurrencies);
    }
  }

  /** On a record in a terminal state, only a conflicting CREATE has an
      effect, and that effect is FAILED. */
  lemma DispatchTerminal(command: string, args: seq<string>, m: Payments, allowedCurrencies: set<string>, id: string)
    requires id in m && Terminal(m[id].state)
    ensures var r := Dispatch(command, args, m, allowedCurrencies);
      id in r.payments
      && (r.payments[id] == m[id]
          || (r.payments[id] == m[id].(state := FAILED) && command == "CREATE" && r.status == Failed(Conflict(id))))
  {
    var r := Dispatch(command, args, m, allowedCurrencies);
    if command == "CREATE" && CreateArgsValid(args, allowedCurrencies) && args[0] == id {
      assert r.payments[id] == m[id] || r.status == Failed(Conflict(id));
    }
  }

  /** A record in VOIDED, REFUNDED or FAILED changes only through a
      conflicting CREATE, which fails and sets FAILED. */
  lemma TerminalRecordsStay(line: string, m: Payments, allowedCurrencies: set<string>, id: string)
    requires id in m && Terminal(m[id].state)
    ensures var r := Handle(line, m, allowedCurrencies);
      id in r.payments
      && (r.payments[id] == m[id]
          || (r.payments[id] == m[id].(state := FAILED)
              && ParseTokens(line).Command? && ParseTokens(line).tokens[0] == "CREATE"
              && r.status == Failed(Conflict(id))))
  {
    if ParseTokens(line).Command? {
      ParseTokensWords(line);
      var ts := ParseTokens(line).tokens;
      DispatchTerminal(ts[0], ts[1..], m, allowedCurrencies, id);
    }
  }

  /** reasonCode is written only by VOID and the refund fields only by REFUND. */
  lemma FieldOwnership(command: string, args: seq<string>, m: Payments, allowedCurrencies: set<string>, id: string)
    requires id in Dispatch(command, args, m, allowedCurrencies).payments
    ensures var p' := Dispatch(command, args, m, allowedCurrencies).payments[id];
      && (command != "VOID" ==> (if id in m then p'.reasonCode == m[id].reasonCode else p'.reasonCode.None?))
      && (command != "REFUND" ==>
            if id in m then p'.refundedAmount == m[id].refundedAmount && p'.refundedAmountCents == m[id].refundedAmountCents
            else p'.refundedAmount.None? && p'.refundedAmountCents.None?)
      && (p'.createConflictReason == if id in m then m[id].createConflictReason else None)
  {
    var r := Dispatch(command, args, m, allowedCurrencies);
    if command == "CREATE" && CreateArgsValid(args, allowedCurrencies) && args[0] == id && id in m {
      assert r.payments[id] == m[id] || r.payments[id] == m[id].(state := FAILED);
    } else if command == "REFUND" && r.status.Ok? && args[0] == id {
      assert r.payments[id] == Refunded(m[id], RefundCents(args));
    }
  }

  lemma CreateValid(m: Payments, args: seq<string>, allowedCurrencies: set<string>)
    requires ValidStore(m)
    ensures ValidStore(CreateStep(m, args, allowedCurrencies).payments)
  {
    var r := CreateStep(m, args, allowedCurrencies);
    if CreateArgsValid(args, allowedCurrencies) {
      var id := args[0];
      forall k | k in r.payments ensures ValidRecord(k, r.payments[k]) {
        if k == id && id in m {
          assert r.payments[id] == m[id] || r.payments[id] == m[id].(state := FAILED);
        }
      }
    }
  }

  lemma AuthorizeValid(m: Payments, args: seq<string>, command: string)
    requires ValidStore(m)
    ensures ValidStore(AuthorizeStep(m, args, command).payments)
  {
  }

  lemma CaptureValid(m: Payments, args: seq<string>, command: string)
    requires ValidStore(m)
    ensures ValidStore(CaptureStep(m, args, command).payments)
  {
  }

  lemma SettleValid(m: Payments, args: seq<string>, command: string)
    requires ValidStore(m)
    ensures ValidStore(SettleStep(m, args, command).payments)
  {
  }

  lemma VoidValid(m: Payments, args: seq<string>, command: string)
    requires ValidStore(m)
    ensures ValidStore(VoidStep(m, args, command).payments)
  {
  }

  lemma RefundValid(m: Payments, args: seq<string>, command: string)
    requires ValidStore(m)
    ensures ValidStore(RefundStep(m, args, command).payments)
  {
    var r := RefundStep(m, args, command);
    if r.status.Ok? {
      var id := args[0];
      assert r.payments[id] == Refunded(m[id], RefundCents(args));
      assert ValidRecord(id, r.payments[id]);
    }
  }

  lemma DispatchValid(command: string, args: seq<string>, m: Payments, allowedCurrencies: set<string>)
    requires ValidStore(m)
    ensures ValidStore(Dispatch(command, args, m, allowedCurrencies).payments)
  {
    if command == "CREATE" { CreateValid(m, args, allowedCurrencies); }
    else if command == "AUTHORIZE" { AuthorizeValid(m, args, command); }
    else if command == "CAPTURE" { CaptureValid(m, args, command); }
    else if command == "VOID" { VoidValid(m, args, command); }
    else if command == "REFUND" { RefundValid(m, args, command); }
    else if command == "SETTLE" { SettleValid(m, args, command); }
  }

  /** Every command keeps the record invariant. */
  lemma HandleValid(line: string, m: Payments, allowedCurrencies: set<string>)
    requires ValidStore(m)
    ensures ValidStore(Handle(line, m, allowedCurrencies).payments)
  {
    if ParseTokens(line).Command? {
      ParseTokensWords(line);
      var ts := ParseTokens(line).tokens;
      DispatchValid(ts[0], ts[1..], m, allowedCurrencies);
    }
  }

  /** A session: lines processed one after another, each on the store the
      previous one left; a failing line does not stop the ones after it, and
      an EXIT line ends the session with the store as it was. */
  function Session(lines: seq<string>, m: Payments, allowedCurrencies: set<string>): Payments
    decreases |lines|
  {
    if lines == [] then m
    else
      var reply := Handle(lines[0], m, allowedCurrencies);
      if reply.status == Exit then reply.payments
      else Session(lines[1..], reply.payments, allowedCurrencies)
  }

  /** An EXIT line ends the session: the lines after it are not run and
      the store is left as it was. */
  lemma SessionExit(lines: seq<string>, m: Payments, allowedCurrencies: set<string>)
    requires lines != [] && ParseTokens(lines[0]).Command? && ParseTokens(lines[0]).tokens[0] == "EXIT"
    ensures Session(lines, m, allowedCurrencies) == m
  {
  }

  /** From any store that keeps the record invariant, every session keeps it. */
  lemma {:induction false} SessionValid(lines: seq<string>, m: Payments, allowedCurrencies: set<string>)
    requires ValidStore(m)
    ensures ValidStore(Session(lines, m, allowedCurrencies))
    decreases |lines|
  {
    if lines != [] && Handle(lines[0], m, allowedCurrencies).status != Exit {
      HandleValid(lines[0], m, allowedCurrencies);
      SessionValid(lines[1..], Handle(lines[0], m, allowedCurrencies).payments, allowedCurrencies);
    }
  }

  /** Over a whole session, a record that existed keeps its identity fields,
      and the store never loses a record. */
  lemma {:induction false} SessionKeepsIdentity(lines: seq<string>, m: Payments, allowedCurrencies: set<string>, id: string)
    requires id in m
    ensures id in Session(lines, m, allowedCurrencies)
    ensures SameIdentity(m[id], Session(lines, m, allowedCurrencies)[id])
    ensures Terminal(m[id].state) ==> Terminal(Session(lines, m, allowedCurrencies)[id].state)
    decreases |lines|
  {
    if lines != [] && Handle(lines[0], m, allowedCurrencies).status != Exit {
      var m1 := Handle(lines[0], m, allowedCurrencies).payments;
      HandleStep(lines[0], m, allowedCurrencies, id);
      if Terminal(m[id].state) {
        TerminalRecordsStay(lines[0], m, allowedCurrencies, id);
      }
      SessionKeepsIdentity(lines[1..], m1, allowedCurrencies, id);
    }
  }

  /** An identical CREATE replay succeeds and changes nothing, in any state. */
  lemma CreateReplay(m: Payments, args: seq<string>, allowedCurrencies: set<string>)
    requires CreateStep(m, args, allowedCurrencies).status.Ok?
    ensures var m' := CreateStep(m, args, allowedCurrencies).payments;
      CreateStep(m', args, allowedCurrencies) == Reply(Ok, m')
  {
  }

  /** CREATE reads only its first four arguments. */
  lemma CreateIgnoresExtraArgs(m: Payments, args: seq<string>, allowedCurrencies: set<string>)
    requires |args| >= 4
    ensures CreateStep(m, args, allowedCurrencies) == CreateStep(m, args[..4], allowedCurrencies)
  {
    var a4 := args[..4];
    assert forall i :: 0 <= i < 4 ==> Arg(args, i) == Arg(a4, i) && args[i] == a4[i];
  }

  /** The comment never matters: two lines with the same tokens have the
      same effect and the same outcome. */
  lemma CommentIgnored(line1: string, line2: string, m: Payments, allowedCurrencies: set<string>)
    requires ParseTokens(line1).Command? && ParseTokens(line2).Command?
    requires ParseTokens(line1).tokens == ParseTokens(line2).tokens
    ensures Handle(line1, m, allowedCurrencies) == Handle(line2, m, allowedCurrencies)
  {
  }

  /** A CREATE for a stored id with different merchant, cents or currency
      fails with a conflict and leaves the record FAILED, other fields kept. */
  lemma CreateConflict(m: Payments, args: seq<string>, allowedCurrencies: set<string>)
    requires CreateArgsValid(args, allowedCurrencies) && args[0] in m
    requires !SameDetails(m[args[0]], CreateCents(args, allowedCurrencies), args[2], args[3])
    ensures var r := CreateStep(m, args, allowedCurrencies);
      r.status == Failed(Conflict(args[0]))
      && r.payments[args[0]].state == FAILED
      && SameIdentity(m[args[0]], r.payments[args[0]])
  {
  }
}
