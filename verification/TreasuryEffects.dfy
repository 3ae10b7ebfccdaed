/**
 Where the money of each operation lands: what it does to the balance of every account as of every
 instant, which operations are accepted, and how its documents and movements are filed.
 */
module TreasuryEffects {
  import opened Common
  import opened Sums
  import opened Ledger
  import opened Treasury
  import R = FinanceReports

  // ---------------------------------------------------------------- account by account, instant by instant

  /** What one payment line brings to an account. */
  function LineOn(b: Books, branch: nat, account: nat): PaymentLine -> int {
    (line: PaymentLine) =>
      var key := Mapping(branch, line.tender);
      if key in b.mappings && b.mappings[key] == account then line.amount else 0
  }

  /** The date an operation's movements carry: the given one, or the clock. */
  function DateOf(b: Books, op: Op): int {
    match op
    case CreateExpenseOp(_, _, _, at) => at
    case CreateTransferOp(_, _, _, at) => at
    case CreateHandoverOp(_, _, _, _, _, at) => at
    case _ => b.clock
  }

  /** What a document's movements have done to one account. */
  function StandingOn(b: Books, reference: Reference, account: nat): int {
    Total(b.entries, SignedForOn(reference, account))
  }

  /**
   Payments go to the account their tender is mapped to, an expense comes from its account, a transfer
   goes from one to the other, a handover leaves the sender when it is recorded and what was counted
   reaches the receiver when it is confirmed, and a reversal undoes what the document did to the account.
   */
  function EffectOn(b: Books, op: Op, account: nat): int {
    match op
    case PayInvoiceOp(branch, _, lines) =>
      if branch.Some? && BranchHasMappings(b, branch.value) then Total(lines, LineOn(b, branch.value, account)) else 0
    case CreateExpenseOp(from, amount, _, _) => if from == account then -amount else 0
    case CreateTransferOp(from, to, amount, _) =>
      (if to == account then amount else 0) - (if from == account then amount else 0)
    case CreateHandoverOp(from, _, amount, _, _, _) => if from == account then -amount else 0
    case ConfirmHandoverOp(handover, counted, _) =>
      if handover < |b.handovers| && b.handovers[handover].to == account then counted else 0
    case VoidInvoiceOp(_) => -StandingOn(b, DocumentOf(b, op), account)
    case VoidExpenseOp(_, _) => -StandingOn(b, DocumentOf(b, op), account)
    case ReverseTransferOp(_, _) => -StandingOn(b, DocumentOf(b, op), account)
    case ReverseHandoverOp(_, _) => -StandingOn(b, DocumentOf(b, op), account)
    case _ => 0
  }

  function Reverses(op: Op): bool {
    op.VoidInvoiceOp? || op.VoidExpenseOp? || op.ReverseTransferOp? || op.ReverseHandoverOp?
  }

  /** The change of an account's signed movements before an instant. */
  ghost predicate Moves(before: Entries, after: Entries, account: nat, effect: int, date: int) {
    forall t :: Total(after, R.SignedBefore(account, t))
                == Total(before, R.SignedBefore(account, t)) + if date < t then effect else 0
  }

  lemma MovesNothing(entries: Entries, account: nat, date: int)
    ensures Moves(entries, entries, account, 0, date)
  {
  }

  lemma PostMoves(entries: Entries, m: Movement, account: nat)
    ensures Moves(entries, entries + [m], account, if m.account == account then Signed(m) else 0, m.occurredAt)
  {
    forall t
      ensures Total(entries + [m], R.SignedBefore(account, t))
              == Total(entries, R.SignedBefore(account, t))
                 + if m.occurredAt < t then (if m.account == account then Signed(m) else 0) else 0
    {
      TotalAppend(entries, m, R.SignedBefore(account, t));
    }
  }

  lemma {:induction false} PaymentsMove(b: Books, branch: nat, invoice: nat, lines: seq<PaymentLine>, entries: Entries, account: nat)
    requires PostPayments(b, branch, invoice, lines, entries).Ok?
    ensures Moves(entries, PostPayments(b, branch, invoice, lines, entries).value, account,
                  Total(lines, LineOn(b, branch, account)), b.clock)
    decreases |lines|
  {
    if |lines| > 0 {
      var m := PaymentMovement(b.mappings[Mapping(branch, lines[0].tender)], lines[0].amount, invoice, b.clock);
      PostMoves(entries, m, account);
      PaymentsMove(b, branch, invoice, lines[1..], entries + [m], account);
      TotalFirst(lines, LineOn(b, branch, account));
    }
  }

  /** Rows of one document and one date. */
  lemma RowsMove(entries: Entries, more: Entries, reference: Reference, account: nat, date: int)
    requires forall j :: 0 <= j < |more| ==> more[j].reference == reference && more[j].occurredAt == date
    ensures Moves(entries, entries + more, account, Total(more, SignedForOn(reference, account)), date)
  {
    forall t
      ensures Total(entries + more, R.SignedBefore(account, t))
              == Total(entries, R.SignedBefore(account, t)) + if date < t then Total(more, SignedForOn(reference, account)) else 0
    {
      TotalConcat(entries, more, R.SignedBefore(account, t));
      if date < t {
        TotalCongruent(more, R.SignedBefore(account, t), SignedForOn(reference, account));
      } else {
        TotalZero(more, R.SignedBefore(account, t));
      }
    }
  }

  lemma ReversalAppends(b: Books, reference: Reference, after: Entries) returns (more: Entries)
    requires ReverseReference(b.accounts, b.entries, reference, b.clock) == Ok(after)
    ensures after == b.entries + more
    ensures forall j :: 0 <= j < |more| ==> more[j].reference == reference && more[j].occurredAt == b.clock
  {
    ReverseReferenceRows(b.accounts, b.entries, reference, b.clock);
    more := after[|b.entries|..];
    assert forall j :: 0 <= j < |more| ==> more[j] == after[|b.entries| + j];
  }

  lemma ReversalClears(b: Books, reference: Reference, after: Entries, account: nat)
    requires Sound(b) && ReverseReference(b.accounts, b.entries, reference, b.clock) == Ok(after)
    ensures Total(after, SignedForOn(reference, account)) == 0
  {
    ReverseReferenceExactlyOnce(b.accounts, b.entries, reference, b.clock, b.clock);
  }

  /** A reversal is dated now: it takes the document's standing off the account, and touches no earlier instant. */
  lemma ReversalMoves(b: Books, reference: Reference, after: Entries, account: nat)
    requires Sound(b) && ReverseReference(b.accounts, b.entries, reference, b.clock) == Ok(after)
    ensures Moves(b.entries, after, account, -StandingOn(b, reference, account), b.clock)
  {
    hide Sound, ReverseReference;
    var more := ReversalAppends(b, reference, after);
    ReversalClears(b, reference, after, account);
    TotalConcat(b.entries, more, SignedForOn(reference, account));
    RowsMove(b.entries, more, reference, account, b.clock);
  }

  lemma TransferMoves(b: Books, op: Op, account: nat)
    requires op.CreateTransferOp? && Apply(b, op).Ok?
    ensures Moves(b.entries, Step(b, op).entries, account, EffectOn(b, op, account), DateOf(b, op))
  {
    var reference := TransferRef(|b.transfers|);
    var paid := Movement(op.from, Out, op.amount, op.occurredAt, TransferLeg, reference, None);
    var received := Movement(op.to, In, op.amount, op.occurredAt, TransferLeg, reference, None);
    TransferLegs(b, op.from, op.to, op.amount, op.occurredAt, Step(b, op));
    PostMoves(b.entries, paid, account);
    PostMoves(b.entries + [paid], received, account);
  }

  lemma PaidMoves(b: Books, op: Op, account: nat)
    requires op.PayInvoiceOp? && Apply(b, op).Ok?
    ensures Moves(b.entries, Step(b, op).entries, account, EffectOn(b, op, account), DateOf(b, op))
  {
    if op.branch.Some? && BranchHasMappings(b, op.branch.value) {
      PaymentsMove(b, op.branch.value, op.invoice, op.lines, b.entries, account);
    }
  }

  lemma PostingMoves(b: Books, op: Op, account: nat)
    requires op.CreateExpenseOp? || op.CreateHandoverOp? || op.ConfirmHandoverOp?
    requires Apply(b, op).Ok?
    ensures Moves(b.entries, Step(b, op).entries, account, EffectOn(b, op, account), DateOf(b, op))
  {
    var after := Step(b, op).entries;
    if |after| > |b.entries| {
      PostMoves(b.entries, after[|b.entries|], account);
    }
  }

  lemma OperationMoves(b: Books, op: Op, account: nat)
    requires Sound(b) && Apply(b, op).Ok?
    ensures Moves(b.entries, Step(b, op).entries, account, EffectOn(b, op, account), DateOf(b, op))
  {
    if Reverses(op) {
      ReversalMoves(b, DocumentOf(b, op), Step(b, op).entries, account);
    } else if op.CreateTransferOp? {
      TransferMoves(b, op, account);
    } else if op.PayInvoiceOp? {
      PaidMoves(b, op, account);
    } else if PostsMovements(op) {
      PostingMoves(b, op, account);
    } else {
      MovesNothing(b.entries, account, DateOf(b, op));
    }
  }

  lemma OpeningsKept(b: Books, op: Op, account: nat)
    requires account < |b.accounts|
    ensures account < |Step(b, op).accounts|
    ensures Step(b, op).accounts[account].opening == b.accounts[account].opening
  {
  }

  /**
   An accepted operation changes the balance of each account by exactly what its kind says, from its own
   date on: balances as of any earlier instant, and so every statement that ends before, are as they were.
   */
  lemma OperationMovesBalance(b: Books, op: Op, account: nat, t: int)
    requires Sound(b) && Apply(b, op).Ok? && account < |b.accounts|
    ensures account < |Step(b, op).accounts|
    ensures R.BalanceBefore(Step(b, op), account, t)
            == R.BalanceBefore(b, account, t) + if DateOf(b, op) < t then EffectOn(b, op, account) else 0
    ensures Balance(Step(b, op), account) == Balance(b, account) + EffectOn(b, op, account)
  {
    OperationMoves(b, op, account);
    OpeningsKept(b, op, account);
    BalanceIsSigned(b, account);
    BalanceIsSigned(Step(b, op), account);
    OperationMovesAll(b, op, account);
  }

  lemma OperationMovesAll(b: Books, op: Op, account: nat)
    requires Sound(b) && Apply(b, op).Ok?
    ensures Total(Step(b, op).entries, SignedOn(account)) == Total(b.entries, SignedOn(account)) + EffectOn(b, op, account)
  {
    OperationMoves(b, op, account);
    var late := Latest(Step(b, op).entries, Latest(b.entries, DateOf(b, op) + 1));
    LatestMeaning(b.entries, DateOf(b, op) + 1);
    LatestMeaning(Step(b, op).entries, Latest(b.entries, DateOf(b, op) + 1));
    TotalCongruent(b.entries, SignedOn(account), R.SignedBefore(account, late));
    TotalCongruent(Step(b, op).entries, SignedOn(account), R.SignedBefore(account, late));
  }

  /** An instant, not before the given one, that every movement is before. */
  function Latest(entries: Entries, from: int): int {
    if |entries| == 0 then from else Max(entries[|entries| - 1].occurredAt + 1, Latest(entries[..|entries| - 1], from))
  }

  lemma {:induction false} LatestMeaning(entries: Entries, from: int)
    ensures Latest(entries, from) >= from
    ensures forall i :: 0 <= i < |entries| ==> entries[i].occurredAt < Latest(entries, from)
  {
    if |entries| > 0 {
      LatestMeaning(entries[..|entries| - 1], from);
    }
  }

  /** A new account's balance is its opening balance. */
  lemma OpenedBalance(b: Books, kind: AccountType, branch: Option<nat>, opening: int, t: int)
    requires Sound(b) && OpenAccount(b, kind, branch, opening).Ok?
    ensures var after := OpenAccount(b, kind, branch, opening).value;
            && |after.accounts| == |b.accounts| + 1
            && Balance(after, |b.accounts|) == opening == R.BalanceBefore(after, |b.accounts|, t)
  {
    var after := OpenAccount(b, kind, branch, opening).value;
    BalanceIsSigned(after, |b.accounts|);
    TotalZero(after.entries, SignedOn(|b.accounts|));
    TotalZero(after.entries, R.SignedBefore(|b.accounts|, t));
  }

  // ---------------------------------------------------------------- each document, account by account

  /** What a document's own fields say it has done to an account. */
  function NetOn(b: Books, reference: Reference, account: nat): int {
    match reference
    case ExpenseRef(i) =>
      if i < |b.expenses| && !b.expenses[i].voided && b.expenses[i].account == account then -b.expenses[i].amount else 0
    case TransferRef(i) =>
      if i < |b.transfers| && !b.transfers[i].reversed then
        (if b.transfers[i].to == account then b.transfers[i].amount else 0)
        - (if b.transfers[i].from == account then b.transfers[i].amount else 0)
      else 0
    case HandoverRef(i) => if i < |b.handovers| then HandoverOn(b.handovers[i], account) else 0
    case _ => 0
  }

  /** A handover is out of its sender and, as far as counted, in at its receiver; reversed, only a late credit stands. */
  function HandoverOn(h: Handover, account: nat): int {
    if h.reversedAt.Some? then (if ConfirmedAfterReversal(h) && h.to == account then h.confirmedAmount else 0)
    else (if h.confirmedAt.Some? && h.to == account then h.confirmedAmount else 0)
         - (if h.from == account then h.amount else 0)
  }

  predicate AgreesOn(b: Books, reference: Reference, account: nat) {
    IsDocument(reference) ==> StandingOn(b, reference, account) == NetOn(b, reference, account)
  }

  /** Every document's movements are on the accounts its fields name, for what its fields say. */
  ghost predicate PlacesAgree(b: Books) {
    forall reference, account :: AgreesOn(b, reference, account)
  }

  lemma OthersStand(b: Books, after: Books, reference: Reference, other: Reference, account: nat)
    requires AppendsFor(b.entries, after.entries, reference) && other != reference
    ensures StandingOn(after, other, account) == StandingOn(b, other, account)
  {
    var more := after.entries[|b.entries|..];
    assert after.entries == b.entries + more;
    assert forall j :: 0 <= j < |more| ==> more[j] == after.entries[|b.entries| + j];
    TotalConcat(b.entries, more, SignedForOn(other, account));
    TotalZero(more, SignedForOn(other, account));
  }

  lemma OthersUntouched(b: Books, op: Op, other: Reference, account: nat)
    requires Apply(b, op).Ok? && PostsMovements(op) && other != DocumentOf(b, op)
    ensures NetOn(Step(b, op), other, account) == NetOn(b, other, account)
  {
  }

  lemma PostedAppends(b: Books, op: Op)
    requires op.CreateExpenseOp? || op.CreateTransferOp? || op.CreateHandoverOp? || op.ConfirmHandoverOp?
    requires Apply(b, op).Ok?
    ensures AppendsFor(b.entries, Step(b, op).entries, DocumentOf(b, op))
  {
  }

  lemma PaidAppends(b: Books, op: Op)
    requires Sound(b) && op.PayInvoiceOp? && Apply(b, op).Ok?
    ensures AppendsFor(b.entries, Step(b, op).entries, DocumentOf(b, op))
  {
    if op.branch.Some? && BranchHasMappings(b, op.branch.value) {
      PostPaymentsShape(b, op.branch.value, op.invoice, op.lines, b.entries);
    }
  }

  lemma ReversedAppends(b: Books, op: Op)
    requires Sound(b) && Reverses(op) && Apply(b, op).Ok?
    ensures AppendsFor(b.entries, Step(b, op).entries, DocumentOf(b, op))
  {
    ReversalRows(b, DocumentOf(b, op), Step(b, op).entries);
  }

  lemma StepAppendsFor(b: Books, op: Op)
    requires Sound(b) && PostsMovements(op) && Apply(b, op).Ok?
    ensures AppendsFor(b.entries, Step(b, op).entries, DocumentOf(b, op))
  {
    hide Sound, Apply, AppendsFor, Step;
    if Reverses(op) {
      ReversedAppends(b, op);
    } else if op.PayInvoiceOp? {
      PaidAppends(b, op);
    } else {
      PostedAppends(b, op);
    }
  }

  /** A new transfer stands for its two rows ... */
  lemma TransferStands(b: Books, op: Op, account: nat)
    requires PlacesAgree(b) && op.CreateTransferOp? && Apply(b, op).Ok?
    ensures AgreesOn(Step(b, op), DocumentOf(b, op), account)
  {
    var reference, column := DocumentOf(b, op), SignedForOn(DocumentOf(b, op), account);
    assert AgreesOn(b, reference, account);
    TransferLegs(b, op.from, op.to, op.amount, op.occurredAt, Step(b, op));
    var paid := Movement(op.from, Out, op.amount, op.occurredAt, TransferLeg, reference, None);
    var received := Movement(op.to, In, op.amount, op.occurredAt, TransferLeg, reference, None);
    TotalAppend(b.entries, paid, column);
    TotalAppend(b.entries + [paid], received, column);
  }

  /** ... any other new document, and a confirmation, for its one ... */
  lemma PostedStands(b: Books, op: Op, account: nat)
    requires PlacesAgree(b) && (op.CreateExpenseOp? || op.CreateHandoverOp?) && Apply(b, op).Ok?
    ensures AgreesOn(Step(b, op), DocumentOf(b, op), account)
  {
    assert AgreesOn(b, DocumentOf(b, op), account);
    TotalAppend(b.entries, Step(b, op).entries[|b.entries|], SignedForOn(DocumentOf(b, op), account));
  }

  lemma ConfirmPosts(b: Books, op: Op)
    requires op.ConfirmHandoverOp? && Apply(b, op).Ok?
    ensures op.handover < |b.handovers|
    ensures Step(b, op).entries == b.entries + if op.counted == 0 then [] else
              [Movement(b.handovers[op.handover].to, In, op.counted, b.clock, HandoverLeg, HandoverRef(op.handover), None)]
  {
  }

  lemma ConfirmFields(b: Books, op: Op, account: nat)
    requires GoodHandovers(b) && op.ConfirmHandoverOp? && Apply(b, op).Ok?
    ensures NetOn(Step(b, op), HandoverRef(op.handover), account)
            == NetOn(b, HandoverRef(op.handover), account) + if b.handovers[op.handover].to == account then op.counted else 0
  {
    assert GoodHandover(b, b.handovers[op.handover]);
  }

  lemma ConfirmedStands(b: Books, op: Op, account: nat)
    requires GoodHandovers(b) && PlacesAgree(b) && op.ConfirmHandoverOp? && Apply(b, op).Ok?
    ensures AgreesOn(Step(b, op), DocumentOf(b, op), account)
  {
    hide GoodHandovers, Apply, NetOn;
    assert AgreesOn(b, DocumentOf(b, op), account);
    ConfirmPosts(b, op);
    ConfirmFields(b, op, account);
    if op.counted == 0 {
      assert Step(b, op).entries == b.entries;
    } else {
      TotalAppend(b.entries, Step(b, op).entries[|b.entries|], SignedForOn(DocumentOf(b, op), account));
    }
  }

  lemma ReversedFields(b: Books, op: Op, account: nat)
    requires GoodHandovers(b) && Reverses(op) && Apply(b, op).Ok?
    ensures NetOn(Step(b, op), DocumentOf(b, op), account) == 0
  {
    hide ReverseReference;
    if op.ReverseHandoverOp? { assert GoodHandover(b, b.handovers[op.handover]); }
  }

  lemma ReversedEntries(b: Books, op: Op)
    requires Reverses(op) && Apply(b, op).Ok?
    ensures ReverseReference(b.accounts, b.entries, DocumentOf(b, op), b.clock) == Ok(Step(b, op).entries)
  {
    hide ReverseReference;
  }

  /** ... and a reversed one for nothing. */
  lemma ReversedStands(b: Books, op: Op, account: nat)
    requires Sound(b) && Reverses(op) && Apply(b, op).Ok?
    ensures AgreesOn(Step(b, op), DocumentOf(b, op), account)
  {
    hide Apply, ReverseReference, NetOn, WellReversed, DocumentsAgree, MovementsExplained;
    ReversedFields(b, op, account);
    ReversedEntries(b, op);
    ReversalClears(b, DocumentOf(b, op), Step(b, op).entries, account);
  }

  lemma AccountOpsPlace(b: Books, op: Op)
    requires PlacesAgree(b) && !PostsMovements(op)
    ensures PlacesAgree(Step(b, op))
  {
    forall reference, account ensures AgreesOn(Step(b, op), reference, account) {
      assert AgreesOn(b, reference, account);
    }
  }

  lemma StepPlaces(b: Books, op: Op)
    requires Sound(b) && PlacesAgree(b)
    ensures PlacesAgree(Step(b, op))
  {
    hide NetOn, AppendsFor, WellReversed, GoodEntries, DocumentsAgree, MovementsExplained;
    if !PostsMovements(op) {
      AccountOpsPlace(b, op);
    } else if Apply(b, op).Ok? {
      StepAppendsFor(b, op);
      forall reference, account ensures AgreesOn(Step(b, op), reference, account) {
        if reference != DocumentOf(b, op) {
          assert AgreesOn(b, reference, account);
          OthersStand(b, Step(b, op), DocumentOf(b, op), reference, account);
          OthersUntouched(b, op, reference, account);
        } else if Reverses(op) {
          ReversedStands(b, op, account);
        } else if op.CreateTransferOp? {
          TransferStands(b, op, account);
        } else if op.ConfirmHandoverOp? {
          ConfirmedStands(b, op, account);
        } else if !op.PayInvoiceOp? {
          PostedStands(b, op, account);
        }
      }
    }
  }

  /** Over every run each document's movements are on its own accounts, so a reversal gives back what it took. */
  lemma {:induction false} RunPlaces(b: Books, ops: seq<Op>)
    requires Sound(b) && PlacesAgree(b)
    ensures Sound(Run(b, ops)) && PlacesAgree(Run(b, ops))
  {
    if |ops| > 0 {
      RunPlaces(b, ops[..|ops| - 1]);
      StepSound(Run(b, ops[..|ops| - 1]), ops[|ops| - 1]);
      StepPlaces(Run(b, ops[..|ops| - 1]), ops[|ops| - 1]);
    }
  }

  lemma EmptyPlaces()
    ensures Sound(EmptyBooks())
    ensures PlacesAgree(EmptyBooks())
  {
    forall reference, account ensures AgreesOn(EmptyBooks(), reference, account) {
    }
  }

  lemma ReachablePlaces(ops: seq<Op>)
    ensures Sound(Run(EmptyBooks(), ops)) && PlacesAgree(Run(EmptyBooks(), ops))
  {
    hide Sound, PlacesAgree, Run, EmptyBooks;
    EmptyPlaces();
    RunPlaces(EmptyBooks(), ops);
  }

  // ---------------------------------------------------------------- what is accepted

  predicate TakesMovements(b: Books, account: nat) {
    account < |b.accounts| && b.accounts[account].active
  }

  predicate Payable(b: Books, branch: nat, line: PaymentLine) {
    && line.amount > 0
    && Mapping(branch, line.tender) in b.mappings
    && TakesMovements(b, b.mappings[Mapping(branch, line.tender)])
  }

  /** Every account that a movement of the document still stands on takes movements. */
  ghost predicate Reversible(b: Books, reference: Reference) {
    forall id: nat :: IsOpen(b.entries, id) && b.entries[id].reference == reference ==> TakesMovements(b, b.entries[id].account)
  }

  /** The branches of an account and of a request for it are compatible, and one of them is known. */
  predicate BranchFits(b: Books, account: nat, branch: Option<nat>)
    requires account < |b.accounts|
  {
    if b.accounts[account].branch.None? then branch.Some?
    else branch.None? || branch == b.accounts[account].branch
  }

  /** What a caller can check beforehand. */
  ghost predicate Acceptable(b: Books, op: Op) {
    match op
    case OpenAccountOp(kind, branch, opening) => opening >= 0 && (branch.None? ==> kind.Custody?)
    case SetActiveOp(account, _) => account < |b.accounts|
    case SetMappingOp(branch, tender, account) =>
      && tender in PAYMENT_METHODS && TakesMovements(b, account)
      && b.accounts[account].branch in {None, Some(branch)}
    case DeleteMappingOp(branch, tender) => Mapping(branch, tender) in b.mappings
    case PayInvoiceOp(branch, _, lines) =>
      branch.Some? && BranchHasMappings(b, branch.value) ==> forall k :: 0 <= k < |lines| ==> Payable(b, branch.value, lines[k])
    case VoidInvoiceOp(_) => Reversible(b, DocumentOf(b, op))
    case CreateExpenseOp(account, amount, branch, _) =>
      amount > 0 && TakesMovements(b, account) && BranchFits(b, account, branch)
    case VoidExpenseOp(expense, reason) =>
      !Blank(reason) && expense < |b.expenses| && !b.expenses[expense].voided && Reversible(b, DocumentOf(b, op))
    case CreateTransferOp(from, to, amount, _) =>
      from != to && amount > 0 && TakesMovements(b, from) && TakesMovements(b, to)
    case ReverseTransferOp(transfer, reason) =>
      !Blank(reason) && transfer < |b.transfers| && !b.transfers[transfer].reversed && Reversible(b, DocumentOf(b, op))
    case CreateHandoverOp(from, to, amount, branch, receiver, _) =>
      && from != to && amount > 0 && !Blank(receiver)
      && TakesMovements(b, from) && to < |b.accounts|
      && (branch.Some? || b.accounts[from].branch.Some?)
    case ConfirmHandoverOp(handover, counted, reason) =>
      && handover < |b.handovers| && b.handovers[handover].status.PendingConfirmation? && counted >= 0
      && (counted == b.handovers[handover].amount || !Blank(reason))
      && (counted > 0 ==> TakesMovements(b, b.handovers[handover].to))
    case ReverseHandoverOp(handover, reason) =>
      !Blank(reason) && handover < |b.handovers| && b.handovers[handover].reversedAt.None? && Reversible(b, DocumentOf(b, op))
  }

  lemma {:induction false} PaymentsAccepted(b: Books, branch: nat, invoice: nat, lines: seq<PaymentLine>, entries: Entries)
    ensures PostPayments(b, branch, invoice, lines, entries).Ok? <==>
              forall k :: 0 <= k < |lines| ==> Payable(b, branch, lines[k])
    decreases |lines|
  {
    if |lines| > 0 && Payable(b, branch, lines[0]) {
      var m := PaymentMovement(b.mappings[Mapping(branch, lines[0].tender)], lines[0].amount, invoice, b.clock);
      PaymentsAccepted(b, branch, invoice, lines[1..], entries + [m]);
      assert forall k :: 0 < k < |lines| ==> lines[k] == lines[1..][k - 1];
    }
  }

  lemma {:induction false} ReverseEachAccepted(accounts: seq<Account>, entries: Entries, ids: seq<nat>, now: int)
    requires forall k :: 0 <= k < |ids| ==> ids[k] < |entries| && entries[ids[k]].amount > 0
    ensures ReverseEach(accounts, entries, ids, now).Ok? <==>
              forall k :: 0 <= k < |ids| ==> entries[ids[k]].account < |accounts| && accounts[entries[ids[k]].account].active
    decreases |ids|
  {
    if |ids| > 0 && ReverseMovement(accounts, entries, ids[0], now).Ok? {
      var posted := entries + [Mirror(entries, ids[0], now)];
      assert forall k :: 0 < k < |ids| ==> ids[k] == ids[1..][k - 1] && posted[ids[k]] == entries[ids[k]];
      ReverseEachAccepted(accounts, posted, ids[1..], now);
    }
  }

  lemma ReversalAccepted(b: Books, reference: Reference)
    requires Sound(b)
    ensures ReverseReference(b.accounts, b.entries, reference, b.clock).Ok? <==> Reversible(b, reference)
  {
    var ids := Unreversed(b.entries, reference);
    UnreversedMeaning(b.entries, reference);
    assert forall k :: 0 <= k < |ids| ==> ids[k] in ids;
    ReverseEachAccepted(b.accounts, b.entries, ids, b.clock);
    forall id: nat | id in ids ensures exists k :: 0 <= k < |ids| && ids[k] == id {}
  }

  lemma AccountOpAccepted(b: Books, op: Op)
    requires !PostsMovements(op)
    ensures Apply(b, op).Ok? <==> Acceptable(b, op)
  {
  }

  lemma PostingAccepted(b: Books, op: Op)
    requires op.CreateExpenseOp? || op.CreateTransferOp? || op.CreateHandoverOp? || op.ConfirmHandoverOp?
    ensures Apply(b, op).Ok? <==> Acceptable(b, op)
  {
  }

  lemma PaymentAccepted(b: Books, op: Op)
    requires op.PayInvoiceOp?
    ensures Apply(b, op).Ok? <==> Acceptable(b, op)
  {
    if op.branch.Some? {
      PaymentsAccepted(b, op.branch.value, op.invoice, op.lines, b.entries);
    }
  }

  lemma ReversalOpAccepted(b: Books, op: Op)
    requires Sound(b) && Reverses(op)
    ensures Apply(b, op).Ok? <==> Acceptable(b, op)
  {
    ReversalAccepted(b, DocumentOf(b, op));
    hide Sound, Reversible;
  }

  /** An operation is accepted exactly when its own preconditions hold; nothing else refuses it. */
  lemma AcceptedIff(b: Books, op: Op)
    requires Sound(b)
    ensures Apply(b, op).Ok? <==> Acceptable(b, op)
  {
    hide Sound, Apply, Acceptable;
    if Reverses(op) {
      ReversalOpAccepted(b, op);
    } else if op.PayInvoiceOp? {
      PaymentAccepted(b, op);
    } else if PostsMovements(op) {
      PostingAccepted(b, op);
    } else {
      AccountOpAccepted(b, op);
    }
  }

  /** What a caller sees of any call on sound books: when it is accepted, and what it does to each balance. */
  lemma StepObserved(b: Books, op: Op)
    ensures Sound(b) ==> (Apply(b, op).Ok? <==> Acceptable(b, op))
    ensures Sound(b) && Apply(b, op).Ok? ==> |b.accounts| <= |Step(b, op).accounts|
    ensures Sound(b) && Apply(b, op).Ok? ==>
              forall account: nat :: account < |b.accounts| && account < |Step(b, op).accounts| ==>
                Balance(Step(b, op), account) == Balance(b, account) + EffectOn(b, op, account)
  {
    hide Sound, Apply, Balance, EffectOn, Acceptable;
    if Sound(b) {
      AcceptedIff(b, op);
      if Apply(b, op).Ok? {
        AccountsGrow(b, op);
        forall account: nat | account < |b.accounts| && account < |Step(b, op).accounts|
          ensures Balance(Step(b, op), account) == Balance(b, account) + EffectOn(b, op, account)
        {
          OperationMovesBalance(b, op, account, 0);
        }
      }
    }
  }

  lemma AccountsGrow(b: Books, op: Op)
    ensures |b.accounts| <= |Step(b, op).accounts|
  {
  }

  // ---------------------------------------------------------------- how movements are filed

  /** A movement belongs to a document, carries that kind's category, and an original goes its way. */
  predicate FiledAs(m: Movement) {
    match m.reference
    case InvoicePayment(_) => m.category.SalePayment? && (m.reversalOf.None? ==> m.direction.In?)
    case ExpenseRef(_) => m.category.ExpenseSpend? && (m.reversalOf.None? ==> m.direction.Out?)
    case TransferRef(_) => m.category.TransferLeg?
    case HandoverRef(_) => m.category.HandoverLeg?
    case NoReference => false
  }

  ghost predicate Filed(entries: Entries) {
    forall j :: 0 <= j < |entries| ==> FiledAs(entries[j])
  }

  lemma {:induction false} PaymentsFiled(b: Books, branch: nat, invoice: nat, lines: seq<PaymentLine>, entries: Entries)
    requires Filed(entries) && PostPayments(b, branch, invoice, lines, entries).Ok?
    ensures Filed(PostPayments(b, branch, invoice, lines, entries).value)
    decreases |lines|
  {
    if |lines| > 0 {
      var m := PaymentMovement(b.mappings[Mapping(branch, lines[0].tender)], lines[0].amount, invoice, b.clock);
      PaymentsFiled(b, branch, invoice, lines[1..], entries + [m]);
    }
  }

  lemma ReversalFiled(b: Books, reference: Reference, after: Entries)
    requires Sound(b) && Filed(b.entries) && ReverseReference(b.accounts, b.entries, reference, b.clock) == Ok(after)
    ensures Filed(after)
  {
    ReverseReferenceRows(b.accounts, b.entries, reference, b.clock);
    forall j | 0 <= j < |after| ensures FiledAs(after[j]) {
      if j >= |b.entries| {
        assert FiledAs(b.entries[after[j].reversalOf.value]);
      }
    }
  }

  lemma StepFiled(b: Books, op: Op)
    requires Sound(b) && Filed(b.entries)
    ensures Filed(Step(b, op).entries)
  {
    hide Sound;
    if Apply(b, op).Ok? {
      if Reverses(op) {
        ReversalFiled(b, DocumentOf(b, op), Step(b, op).entries);
      } else if op.PayInvoiceOp? && op.branch.Some? && BranchHasMappings(b, op.branch.value) {
        PaymentsFiled(b, op.branch.value, op.invoice, op.lines, b.entries);
      }
    }
  }

  /** Over every run, each movement belongs to a document and carries the category of its kind. */
  lemma {:induction false} ReachableFiled(ops: seq<Op>)
    ensures Sound(Run(EmptyBooks(), ops))
    ensures Filed(Run(EmptyBooks(), ops).entries)
  {
    if |ops| > 0 {
      ReachableFiled(ops[..|ops| - 1]);
      StepFiled(Run(EmptyBooks(), ops[..|ops| - 1]), ops[|ops| - 1]);
      StepSound(Run(EmptyBooks(), ops[..|ops| - 1]), ops[|ops| - 1]);
    }
  }

  /** So the day book's columns, picked by category, are what the documents of that kind moved. */
  lemma ColumnsByDocument(ops: seq<Op>, j: nat)
    requires j < |Run(EmptyBooks(), ops).entries|
    ensures var m := Run(EmptyBooks(), ops).entries[j];
            && (R.Counts(R.MoneyIn, m.category, m.direction) <==> m.direction.In? && m.reference.InvoicePayment?)
            && (R.Counts(R.Expenses, m.category, m.direction) <==> m.direction.Out? && m.reference.ExpenseRef?)
            && (R.Counts(R.Handovers, m.category, m.direction) <==> m.direction.Out? && m.reference.HandoverRef?)
            && (R.Counts(R.TransfersIn, m.category, m.direction) <==> m.direction.In? && m.reference.TransferRef?)
            && (R.Counts(R.TransfersOut, m.category, m.direction) <==> m.direction.Out? && m.reference.TransferRef?)
            && (R.Counts(R.OtherIn, m.category, m.direction) <==>
                  m.direction.In? && (m.reference.ExpenseRef? || m.reference.HandoverRef?))
            && (R.Counts(R.OtherOut, m.category, m.direction) <==> m.direction.Out? && m.reference.InvoicePayment?)
  {
    ReachableFiled(ops);
    assert FiledAs(Run(EmptyBooks(), ops).entries[j]);
  }

  // ---------------------------------------------------------------- accounts and mappings

  predicate AccountFits(a: Account) { a.opening >= 0 && (a.branch.None? ==> a.kind.Custody?) }

  predicate MappingFits(b: Books, key: Mapping) {
    key in b.mappings ==>
      && key.tender in PAYMENT_METHODS
      && b.mappings[key] < |b.accounts|
      && b.accounts[b.mappings[key]].branch in {None, Some(key.branch)}
  }

  /** Only custody accounts have no branch, and a tender is mapped to an account of its branch or of none. */
  ghost predicate Configured(b: Books) {
    && (forall i :: 0 <= i < |b.accounts| ==> AccountFits(b.accounts[i]))
    && (forall key :: MappingFits(b, key))
  }

  lemma StepConfigured(b: Books, op: Op)
    requires Configured(b)
    ensures Configured(Step(b, op))
  {
    var after := Step(b, op);
    if PostsMovements(op) {
      ConfigurationKept(b, op);
    }
    forall i | 0 <= i < |after.accounts| ensures AccountFits(after.accounts[i]) {
      assert i < |b.accounts| ==> AccountFits(b.accounts[i]);
    }
    forall key ensures MappingFits(after, key) {
      assert MappingFits(b, key);
    }
  }

  lemma ConfigurationKept(b: Books, op: Op)
    requires PostsMovements(op)
    ensures Step(b, op).accounts == b.accounts && Step(b, op).mappings == b.mappings
  {
  }

  lemma {:induction false} ReachableConfigured(ops: seq<Op>)
    ensures Configured(Run(EmptyBooks(), ops))
  {
    if |ops| > 0 {
      ReachableConfigured(ops[..|ops| - 1]);
      StepConfigured(Run(EmptyBooks(), ops[..|ops| - 1]), ops[|ops| - 1]);
    }
  }

  /** Over every run, the money of a sale reaches accounts of its own branch, or of no branch, and no others. */
  lemma PaymentsStayInBranch(ops: seq<Op>, b: Books, branch: nat, invoice: nat, lines: seq<PaymentLine>, account: nat)
    requires b == Run(EmptyBooks(), ops) && account < |b.accounts|
    requires EffectOn(b, PayInvoiceOp(Some(branch), invoice, lines), account) != 0
    ensures b.accounts[account].branch in {None, Some(branch)}
  {
    ReachableConfigured(ops);
    if forall k :: 0 <= k < |lines| ==> LineOn(b, branch, account)(lines[k]) == 0 {
      TotalZero(lines, LineOn(b, branch, account));
    } else {
      var k :| 0 <= k < |lines| && LineOn(b, branch, account)(lines[k]) != 0;
      assert MappingFits(b, Mapping(branch, lines[k].tender));
    }
  }
}
