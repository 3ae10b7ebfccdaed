/**
 What holds of the treasury over every run: the books stay sound, and money is conserved, exactly as
 long as no handover is confirmed after it was reversed.
 */
module TreasuryRuns {
  import opened Common
  import opened Sums
  import opened Ledger
  import opened Treasury
  import E = TreasuryEffects

  function SignedBelow(n: nat): Movement -> int {
    (m: Movement) => if m.account < n then Signed(m) else 0
  }

  lemma {:induction false} SumOfBalancesUpTo(b: Books, n: nat)
    requires n <= |b.accounts|
    ensures SumOfBalances(b, n) == Total(b.accounts[..n], OpeningColumn()) + Total(b.entries, SignedBelow(n))
  {
    if n == 0 {
      TotalZero(b.entries, SignedBelow(0));
    } else {
      SumOfBalancesUpTo(b, n - 1);
      BalanceIsSigned(b, n - 1);
      assert b.accounts[..n] == b.accounts[..n - 1] + [b.accounts[n - 1]];
      TotalAppend(b.accounts[..n - 1], b.accounts[n - 1], OpeningColumn());
      TotalAdd(b.entries, SignedBelow(n - 1), SignedOn(n - 1), SignedBelow(n));
    }
  }

  /** The money in all accounts, exactly: what is expected plus every late credit. */
  lemma SoundMoney(b: Books)
    requires Sound(b)
    ensures SumOfBalances(b, |b.accounts|) == ExpectedMoney(b) + Total(b.handovers, LateCredit())
  {
    SumOfBalancesUpTo(b, |b.accounts|);
    assert b.accounts[..|b.accounts|] == b.accounts;
    TotalCongruent(b.entries, SignedBelow(|b.accounts|), SignedColumn());
    ReversalsCancel(b.entries, PaymentColumn());
  }

  ghost predicate Conserved(b: Books) {
    SumOfBalances(b, |b.accounts|) == ExpectedMoney(b)
  }

  lemma EmptySound()
    ensures Sound(EmptyBooks())
  {
  }

  lemma SoundConservedIff(b: Books)
    requires Sound(b)
    ensures Conserved(b) <==> forall i :: 0 <= i < |b.handovers| && ConfirmedAfterReversal(b.handovers[i]) ==>
                                b.handovers[i].confirmedAmount == 0
  {
    SoundMoney(b);
    assert forall i :: 0 <= i < |b.handovers| ==> GoodHandover(b, b.handovers[i]);
    TotalZeroIff(b.handovers, LateCredit());
  }

  lemma ReachableSound(ops: seq<Op>)
    ensures Sound(Run(EmptyBooks(), ops))
  {
    EmptySound();
    RunSound(EmptyBooks(), ops);
  }

  /**
   Over every run of account, payment, expense, transfer, handover and reversal steps money is
   conserved exactly when no handover confirmed after its reversal credited anything.
   */
  lemma MoneyConservedIff(ops: seq<Op>, b: Books)
    requires b == Run(EmptyBooks(), ops)
    ensures SumOfBalances(b, |b.accounts|) == ExpectedMoney(b) + Total(b.handovers, LateCredit())
    ensures Conserved(b) <==> forall i :: 0 <= i < |b.handovers| && ConfirmedAfterReversal(b.handovers[i]) ==>
                                b.handovers[i].confirmedAmount == 0
  {
    ReachableSound(ops);
    SoundMoney(b);
    SoundConservedIff(b);
  }

  /** The step that can break conservation, and when: confirming cash on an already reversed handover. */
  lemma ConfirmConservesIff(b: Books, handover: nat, counted: int, reason: string)
    requires Sound(b) && Conserved(b)
    requires ConfirmHandover(b, handover, counted, reason).Ok?
    ensures Conserved(ConfirmHandover(b, handover, counted, reason).value)
            <==> (b.handovers[handover].reversedAt.None? || counted == 0)
  {
    var after := ConfirmHandover(b, handover, counted, reason).value;
    ConfirmHandoverSound(b, handover, counted, reason, after);
    SoundMoney(b);
    SoundMoney(after);
    TotalUpdate(b.handovers, handover, after.handovers[handover], LateCredit());
  }

  /** Only the three handover operations write the handover table. */
  lemma HandoversKept(b: Books, op: Op)
    requires !op.CreateHandoverOp? && !op.ConfirmHandoverOp? && !op.ReverseHandoverOp?
    ensures Step(b, op).handovers == b.handovers
  {
  }

  lemma NewHandoverLateCredit(b: Books, op: Op)
    requires op.CreateHandoverOp?
    ensures Total(Step(b, op).handovers, LateCredit()) == Total(b.handovers, LateCredit())
  {
    if Apply(b, op).Ok? {
      TotalAppend(b.handovers, Step(b, op).handovers[|b.handovers|], LateCredit());
    }
  }

  lemma ReversedHandoverLateCredit(b: Books, op: Op)
    requires Sound(b) && op.ReverseHandoverOp?
    ensures Total(Step(b, op).handovers, LateCredit()) == Total(b.handovers, LateCredit())
  {
    if Apply(b, op).Ok? {
      assert GoodHandover(b, b.handovers[op.handover]);
      TotalUpdate(b.handovers, op.handover, Step(b, op).handovers[op.handover], LateCredit());
    }
  }

  lemma LateCreditUnchanged(b: Books, op: Op)
    requires Sound(b) && !op.ConfirmHandoverOp?
    ensures Total(Step(b, op).handovers, LateCredit()) == Total(b.handovers, LateCredit())
  {
    if op.CreateHandoverOp? {
      NewHandoverLateCredit(b, op);
    } else if op.ReverseHandoverOp? {
      ReversedHandoverLateCredit(b, op);
    } else {
      HandoversKept(b, op);
    }
  }

  /** Every other operation keeps conservation. */
  lemma OtherStepsConserve(b: Books, op: Op, after: Books)
    requires Sound(b) && Conserved(b) && !op.ConfirmHandoverOp?
    requires after == Step(b, op)
    ensures Conserved(after)
  {
    StepSound(b, op);
    LateCreditUnchanged(b, op);
    SoundMoney(b);
    SoundMoney(after);
  }

  /** A transfer, reversed or not, adds no money and removes none. */
  lemma TransfersNetToZero(ops: seq<Op>, b: Books, transfer: nat)
    requires b == Run(EmptyBooks(), ops)
    ensures transfer < |b.transfers| ==> Total(b.entries, SignedFor(TransferRef(transfer))) == 0
  {
    ReachableSound(ops);
    assert Agrees(b, TransferRef(transfer));
  }

  // ---------------------------------------------------------------- nothing on record is ever rewritten

  predicate AccountAhead(a: Account, later: Account) {
    later == a.(active := later.active)
  }

  predicate ExpenseAhead(e: Expense, later: Expense) {
    later == e.(voided := later.voided) && (e.voided ==> later.voided)
  }

  predicate TransferAhead(t: Transfer, later: Transfer) {
    later == t.(reversed := later.reversed) && (t.reversed ==> later.reversed)
  }

  /** The parties and the amount are fixed, what was confirmed is final, and so is a reversal. */
  predicate HandoverAhead(h: Handover, later: Handover) {
    && later.from == h.from
    && later.to == h.to
    && later.amount == h.amount
    && (!h.status.PendingConfirmation? ==> later == h.(reversedAt := later.reversedAt))
    && (h.reversedAt.Some? ==> later.reversedAt == h.reversedAt)
  }

  ghost predicate Ahead(b: Books, later: Books) {
    && b.entries <= later.entries
    && |b.accounts| <= |later.accounts|
    && |b.expenses| <= |later.expenses|
    && |b.transfers| <= |later.transfers|
    && |b.handovers| <= |later.handovers|
    && (forall i :: 0 <= i < |b.accounts| ==> AccountAhead(b.accounts[i], later.accounts[i]))
    && (forall i :: 0 <= i < |b.expenses| ==> ExpenseAhead(b.expenses[i], later.expenses[i]))
    && (forall i :: 0 <= i < |b.transfers| ==> TransferAhead(b.transfers[i], later.transfers[i]))
    && (forall i :: 0 <= i < |b.handovers| ==> HandoverAhead(b.handovers[i], later.handovers[i]))
  }

  lemma StepAppends(b: Books, op: Op)
    requires Sound(b)
    ensures b.entries <= Step(b, op).entries
  {
    hide Sound;
    if Apply(b, op).Ok? && PostsMovements(op) {
      E.StepAppendsFor(b, op);
    }
  }

  lemma AccountsStepAhead(b: Books, op: Op)
    ensures |b.accounts| <= |Step(b, op).accounts|
    ensures forall i :: 0 <= i < |b.accounts| ==> AccountAhead(b.accounts[i], Step(b, op).accounts[i])
  {
  }

  lemma ExpensesStepAhead(b: Books, op: Op)
    ensures |b.expenses| <= |Step(b, op).expenses|
    ensures forall i :: 0 <= i < |b.expenses| ==> ExpenseAhead(b.expenses[i], Step(b, op).expenses[i])
  {
  }

  lemma TransfersStepAhead(b: Books, op: Op)
    ensures |b.transfers| <= |Step(b, op).transfers|
    ensures forall i :: 0 <= i < |b.transfers| ==> TransferAhead(b.transfers[i], Step(b, op).transfers[i])
  {
  }

  lemma HandoversStepAhead(b: Books, op: Op)
    ensures |b.handovers| <= |Step(b, op).handovers|
    ensures forall i :: 0 <= i < |b.handovers| ==> HandoverAhead(b.handovers[i], Step(b, op).handovers[i])
  {
  }

  lemma StepAhead(b: Books, op: Op)
    requires Sound(b)
    ensures Ahead(b, Step(b, op))
  {
    hide Sound, Step, AccountAhead, ExpenseAhead, TransferAhead, HandoverAhead;
    StepAppends(b, op);
    AccountsStepAhead(b, op);
    ExpensesStepAhead(b, op);
    TransfersStepAhead(b, op);
    HandoversStepAhead(b, op);
  }

  lemma AheadTransitive(a: Books, b: Books, c: Books)
    requires Ahead(a, b) && Ahead(b, c)
    ensures Ahead(a, c)
  {
    assert forall i :: 0 <= i < |a.accounts| ==> AccountAhead(a.accounts[i], b.accounts[i]) && AccountAhead(b.accounts[i], c.accounts[i]);
    assert forall i :: 0 <= i < |a.expenses| ==> ExpenseAhead(a.expenses[i], b.expenses[i]) && ExpenseAhead(b.expenses[i], c.expenses[i]);
    assert forall i :: 0 <= i < |a.transfers| ==>
             TransferAhead(a.transfers[i], b.transfers[i]) && TransferAhead(b.transfers[i], c.transfers[i]);
    assert forall i :: 0 <= i < |a.handovers| ==>
             HandoverAhead(a.handovers[i], b.handovers[i]) && HandoverAhead(b.handovers[i], c.handovers[i]);
  }

  /**
   Over any run the ledger only grows, accounts keep their kind, branch and opening, and documents keep
   their parties and amounts; a void, a reversal and a confirmation are final.
   */
  lemma {:induction false} RunAhead(b: Books, ops: seq<Op>, later: Books)
    requires Sound(b) && later == Run(b, ops)
    ensures Sound(later) && Ahead(b, later)
  {
    if |ops| > 0 {
      var mid := Run(b, ops[..|ops| - 1]);
      RunAhead(b, ops[..|ops| - 1], mid);
      StepSound(mid, ops[|ops| - 1]);
      StepAhead(mid, ops[|ops| - 1]);
      AheadTransitive(b, mid, later);
    } else {
      AheadReflexive(b);
    }
  }

  lemma AheadReflexive(b: Books)
    ensures Ahead(b, b)
  {
  }

  /** A document voided or reversed once is refused for good, whatever happens in between. */
  lemma ReversedForever(b: Books, op: Op, ops: seq<Op>, reason: string)
    requires Sound(b) && Apply(b, op).Ok? && !Blank(reason)
    ensures var later := Run(Step(b, op), ops);
            match op
            case VoidExpenseOp(expense, _) => VoidExpense(later, expense, reason) == Err(AlreadyReversed)
            case ReverseTransferOp(transfer, _) => ReverseTransfer(later, transfer, reason) == Err(AlreadyReversed)
            case ReverseHandoverOp(handover, _) => ReverseHandover(later, handover, reason) == Err(AlreadyReversed)
            case ConfirmHandoverOp(handover, counted, _) => ConfirmHandover(later, handover, counted, reason) == Err(NotPending)
            case _ => true
  {
    hide Sound;
    var done, later := Step(b, op), Run(Step(b, op), ops);
    StepSound(b, op);
    RunAhead(done, ops, later);
    match op
    case VoidExpenseOp(i, _) => assert ExpenseAhead(done.expenses[i], later.expenses[i]);
    case ReverseTransferOp(i, _) => assert TransferAhead(done.transfers[i], later.transfers[i]);
    case ReverseHandoverOp(i, _) => assert HandoverAhead(done.handovers[i], later.handovers[i]);
    case ConfirmHandoverOp(i, _, _) => assert HandoverAhead(done.handovers[i], later.handovers[i]);
    case _ =>
  }

  lemma ConfirmRecords(b: Books, handover: nat, counted: int, reason: string)
    requires ConfirmHandover(b, handover, counted, reason).Ok?
    ensures handover < |b.handovers| == |ConfirmHandover(b, handover, counted, reason).value.handovers|
    ensures var was, h := b.handovers[handover], ConfirmHandover(b, handover, counted, reason).value.handovers[handover];
            && h.from == was.from && h.to == was.to && h.amount == was.amount
            && h.confirmedAmount == counted && h.discrepancy == was.amount - counted
            && (h.status.Confirmed? <==> counted == was.amount) && (h.status.Disputed? <==> counted != was.amount)
  {
  }

  lemma CreateRecords(b: Books, op: Op)
    requires op.CreateHandoverOp? && Apply(b, op).Ok?
    ensures Step(b, op).handovers == b.handovers + [Handover(op.from, op.to, op.amount, PendingConfirmation, 0, 0, None, None)]
  {
  }

  /**
   A handover end to end: the cash leaves the sender when it is recorded; whenever it is confirmed, however
   much has happened in between, what was counted reaches the receiver it was recorded for and no other
   account, and the record says whether that was the amount and by how much it fell short.
   */
  lemma HandoverEndToEnd(b: Books, op: Op, ops: seq<Op>, later: Books, counted: int, reason: string, account: nat)
    requires Sound(b) && op.CreateHandoverOp? && Apply(b, op).Ok? && later == Run(Step(b, op), ops)
    requires ConfirmHandover(later, |b.handovers|, counted, reason).Ok? && account < |b.accounts|
    ensures Balance(Step(b, op), account) == Balance(b, account) - if account == op.from then op.amount else 0
    ensures account < |later.accounts|
    ensures var after := ConfirmHandover(later, |b.handovers|, counted, reason).value;
            && account < |after.accounts|
            && Balance(after, account) == Balance(later, account) + (if account == op.to then counted else 0)
            && |b.handovers| < |after.handovers|
            && (var h := after.handovers[|b.handovers|];
                && h.from == op.from && h.to == op.to && h.amount == op.amount
                && h.confirmedAmount == counted && h.discrepancy == op.amount - counted
                && (h.status.Confirmed? <==> counted == op.amount) && (h.status.Disputed? <==> counted != op.amount))
  {
    hide Sound, Balance, ConfirmHandover, CreateHandover;
    var n, created, confirm := |b.handovers|, Step(b, op), ConfirmHandoverOp(|b.handovers|, counted, reason);
    StepSound(b, op);
    E.OperationMovesBalance(b, op, account, 0);
    RunAhead(created, ops, later);
    CreateRecords(b, op);
    ConfirmRecords(later, n, counted, reason);
    assert HandoverAhead(created.handovers[n], later.handovers[n]);
    E.OperationMovesBalance(later, confirm, account, 0);
  }

  lemma TransferStands(b: Books, op: Op, later: Books, account: nat)
    requires op.CreateTransferOp? && Apply(b, op).Ok? && Ahead(Step(b, op), later) && E.PlacesAgree(later)
    requires |b.transfers| < |later.transfers| && !later.transfers[|b.transfers|].reversed
    ensures E.StandingOn(later, TransferRef(|b.transfers|), account)
            == (if account == op.to then op.amount else 0) - (if account == op.from then op.amount else 0)
  {
    var n := |b.transfers|;
    assert TransferAhead(Step(b, op).transfers[n], later.transfers[n]);
    assert E.AgreesOn(later, TransferRef(n), account);
  }

  lemma TransferWasOpen(b: Books, transfer: nat, reason: string)
    requires ReverseTransfer(b, transfer, reason).Ok?
    ensures transfer < |b.transfers| && !b.transfers[transfer].reversed
  {
  }

  /** A transfer end to end: it moves its amount, and reversing it at any later time moves it back. */
  lemma TransferEndToEnd(b: Books, op: Op, ops: seq<Op>, later: Books, reason: string, account: nat)
    requires Sound(b) && E.PlacesAgree(b) && op.CreateTransferOp? && Apply(b, op).Ok? && later == Run(Step(b, op), ops)
    requires ReverseTransfer(later, |b.transfers|, reason).Ok? && account < |b.accounts|
    ensures var moved := (if account == op.to then op.amount else 0) - (if account == op.from then op.amount else 0);
            && Balance(Step(b, op), account) == Balance(b, account) + moved
            && account < |later.accounts|
            && account < |ReverseTransfer(later, |b.transfers|, reason).value.accounts|
            && Balance(ReverseTransfer(later, |b.transfers|, reason).value, account) == Balance(later, account) - moved
  {
    hide Sound, Balance, E.PlacesAgree, E.StandingOn, Ahead, E.DateOf, CreateTransfer, ReverseTransfer;
    var n := |b.transfers|;
    E.OperationMovesBalance(b, op, account, 0);
    StepSound(b, op);
    E.StepPlaces(b, op);
    RunAhead(Step(b, op), ops, later);
    E.RunPlaces(Step(b, op), ops);
    TransferWasOpen(later, n, reason);
    TransferStands(b, op, later, account);
    E.OperationMovesBalance(later, ReverseTransferOp(n, reason), account, 0);
  }

  // ---------------------------------------------------------------- a run that creates money

  /** Books after handing over 60 of an account's 100. */
  function HandedOver(): Books {
    Books([Account(Cash, Some(1), 100, true), Account(Custody, None, 0, true)],
          [Movement(0, Out, 60, 0, HandoverLeg, HandoverRef(0), None)],
          [], [], [Handover(0, 1, 60, PendingConfirmation, 0, 0, None, None)], map[], 3)
  }

  lemma HandedOverReached(ops: seq<Op>, receiver: string)
    requires !Blank(receiver)
    requires ops == [OpenAccountOp(Cash, Some(1), 100), OpenAccountOp(Custody, None, 0),
                     CreateHandoverOp(0, 1, 60, None, receiver, 0)]
    ensures Run(EmptyBooks(), ops) == HandedOver()
  {
    var b1 := Step(EmptyBooks(), ops[0]);
    var b2 := Step(b1, ops[1]);
    assert b2.accounts == HandedOver().accounts;
    assert Step(b2, ops[2]) == HandedOver();
    assert Run(EmptyBooks(), ops[..0]) == EmptyBooks();
    assert ops[..1][..0] == ops[..0] && ops[..2][..1] == ops[..1];
    assert Run(EmptyBooks(), ops[..1]) == b1;
    assert Run(EmptyBooks(), ops[..2]) == b2;
  }

  lemma {:induction false} ReverseEachSucceeds(accounts: seq<Account>, entries: Entries, ids: seq<nat>, now: int)
    requires forall a :: 0 <= a < |accounts| ==> accounts[a].active
    requires forall j :: 0 <= j < |entries| ==> entries[j].amount > 0 && entries[j].account < |accounts|
    requires forall k :: 0 <= k < |ids| ==> ids[k] < |entries|
    ensures ReverseEach(accounts, entries, ids, now).Ok?
    decreases |ids|
  {
    if |ids| > 0 {
      ReverseEachSucceeds(accounts, entries + [Mirror(entries, ids[0], now)], ids[1..], now);
    }
  }

  lemma ReverseHandoverSucceeds(b: Books, handover: nat, reason: string)
    requires Sound(b) && handover < |b.handovers| && b.handovers[handover].reversedAt.None? && !Blank(reason)
    requires forall a :: 0 <= a < |b.accounts| ==> b.accounts[a].active
    ensures ReverseHandover(b, handover, reason).Ok?
  {
    var ids := Unreversed(b.entries, HandoverRef(handover));
    UnreversedMeaning(b.entries, HandoverRef(handover));
    assert forall k :: 0 <= k < |ids| ==> ids[k] in ids;
    ReverseEachSucceeds(b.accounts, b.entries, ids, b.clock);
  }

  /**
   With every account active, any pending handover can be reversed and then still be confirmed
   in full, and doing so breaks conservation.
   */
  lemma LateConfirmationCreatesMoney(b: Books, handover: nat, reason: string, reversed: Books)
    requires Sound(b)
    requires forall i :: 0 <= i < |b.handovers| ==> !ConfirmedAfterReversal(b.handovers[i])
    requires forall a :: 0 <= a < |b.accounts| ==> b.accounts[a].active
    requires handover < |b.handovers|
    requires b.handovers[handover].status.PendingConfirmation? && b.handovers[handover].reversedAt.None?
    requires !Blank(reason) && reversed == Step(b, ReverseHandoverOp(handover, reason))
    ensures Conserved(b) && Conserved(reversed)
    ensures var after := ConfirmHandover(reversed, handover, b.handovers[handover].amount, "");
            after.Ok? && !Conserved(after.value)
  {
    SoundConservedIff(b);
    ReverseHandoverSucceeds(b, handover, reason);
    StepSound(b, ReverseHandoverOp(handover, reason));
    OtherStepsConserve(b, ReverseHandoverOp(handover, reason), reversed);
    assert GoodHandover(b, b.handovers[handover]);
    ConfirmConservesIff(reversed, handover, b.handovers[handover].amount, "");
  }

  /** Such books are reachable: three steps hand over 60 of 100, and 160 can then be made of the 100. */
  lemma LateConfirmationReachable(ops: seq<Op>, receiver: string)
    requires !Blank(receiver)
    requires ops == [OpenAccountOp(Cash, Some(1), 100), OpenAccountOp(Custody, None, 0),
                     CreateHandoverOp(0, 1, 60, None, receiver, 0)]
    ensures Run(EmptyBooks(), ops) == HandedOver()
    ensures Sound(HandedOver())
  {
    HandedOverReached(ops, receiver);
    ReachableSound(ops);
  }
}
