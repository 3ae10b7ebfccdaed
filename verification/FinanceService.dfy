/**
 The finance service as the object that owns the tables. Each method works step by step as the
 request does, posting through `PostMovement` only; a failure part-way restores the tables the way
 the enclosing transaction does. Every method is tied to the function on books that specifies it.
 */
module FinanceService {
  import opened Common
  import opened Sums
  import opened Ledger
  import T = Treasury
  import E = TreasuryEffects

  class Service {
    var accounts: seq<Account>
    var entries: Entries
    var expenses: seq<T.Expense>
    var transfers: seq<T.Transfer>
    var handovers: seq<T.Handover>
    var mappings: map<T.Mapping, nat>
    var clock: int

    ghost function Books(): T.Books
      reads this
    {
      T.Books(accounts, entries, expenses, transfers, handovers, mappings, clock)
    }

    constructor ()
      ensures Books() == T.EmptyBooks()
    {
      accounts, entries, expenses, transfers, handovers, mappings, clock := [], [], [], [], [], map[], 0;
    }

    /** The single append-only writer: one immutable movement, or an error and no change. */
    method PostMovement(m: Movement) returns (r: Outcome<nat, Error>)
      modifies this`entries
      ensures match Ledger.PostMovement(accounts, old(entries), m)
              case Ok(posted) => r == Ok(|old(entries)|) && entries == posted
              case Err(error) => r == Err(error) && entries == old(entries)
      ensures r.Ok? <==> m.amount > 0 && m.account < |accounts| && accounts[m.account].active
      ensures entries == old(entries) + if r.Ok? then [m] else []
    {
      if m.amount <= 0 { return Err(NotPositive); }
      if m.account >= |accounts| { return Err(NotFound); }
      if !accounts[m.account].active { return Err(Inactive); }
      entries := entries + [m];
      return Ok(|entries| - 1);
    }

    method ReverseMovement(id: nat) returns (r: Outcome<nat, Error>)
      modifies this`entries
      ensures match Ledger.ReverseMovement(accounts, old(entries), id, clock)
              case Ok(posted) => r == Ok(|old(entries)|) && entries == posted
              case Err(error) => r == Err(error) && entries == old(entries)
      ensures r.Ok? ==>
        && id < |old(entries)| && |entries| == |old(entries)| + 1 && old(entries) <= entries
        && Mirrors(entries[|old(entries)|], old(entries)[id])
        && entries[|old(entries)|].occurredAt == clock
        && entries[|old(entries)|].reversalOf == Some(id)
    {
      if id >= |entries| { return Err(NotFound); }
      r := PostMovement(Mirror(entries, id, clock));
    }

    /** Reverse every open movement of a document, one by one; all of them or none. */
    method ReverseReference(reference: Reference) returns (r: Outcome<nat, Error>)
      modifies this`entries
      ensures match Ledger.ReverseReference(accounts, old(entries), reference, clock)
              case Ok(posted) => r.Ok? && entries == posted
              case Err(error) => r == Err(error) && entries == old(entries)
      ensures r.Ok? ==> forall j :: |old(entries)| <= j < |entries| ==>
        entries[j].reference == reference && entries[j].occurredAt == clock && entries[j].reversalOf.Some?
    {
      if Ledger.ReverseReference(accounts, entries, reference, clock).Ok? {
        ReverseReferenceRows(accounts, entries, reference, clock);
      }
      var savepoint := entries;
      var originals := Unreversed(entries, reference);
      var k := 0;
      while k < |originals|
        invariant 0 <= k <= |originals|
        invariant ReverseEach(accounts, entries, originals[k..], clock)
                  == Ledger.ReverseReference(accounts, old(entries), reference, clock)
      {
        assert originals[k..][1..] == originals[k + 1..];
        var posted := ReverseMovement(originals[k]);
        if posted.Err? {
          entries := savepoint;
          return Err(posted.error);
        }
        k := k + 1;
      }
      return Ok(|originals|);
    }

    method OpenAccount(kind: AccountType, branch: Option<nat>, opening: int) returns (r: Outcome<nat, Error>)
      modifies this
      ensures Did(old(Books()), Books(), T.OpenAccount(old(Books()), kind, branch, opening), r)
      ensures T.Sound(old(Books())) ==> T.Sound(Books())
      ensures T.Sound(old(Books())) ==> (r.Ok? <==> E.Acceptable(old(Books()), T.OpenAccountOp(kind, branch, opening)))
      ensures r.Ok? ==> r.value == |old(accounts)| && accounts == old(accounts) + [Account(kind, branch, opening, true)]
    {
      hide T.Sound, T.Balance, E.Acceptable;
      T.StepKeepsSound(Books(), T.OpenAccountOp(kind, branch, opening));
      E.StepObserved(Books(), T.OpenAccountOp(kind, branch, opening));
      if !kind.Custody? && branch.None? { return Err(BranchRequired); }
      if opening < 0 { return Err(NegativeOpening); }
      accounts := accounts + [Account(kind, branch, opening, true)];
      clock := clock + 1;
      return Ok(|accounts| - 1);
    }

    method SetActive(account: nat, active: bool) returns (r: Outcome<nat, Error>)
      modifies this
      ensures Did(old(Books()), Books(), T.SetActive(old(Books()), account, active), r)
      ensures T.Sound(old(Books())) ==> T.Sound(Books())
      ensures T.Sound(old(Books())) ==> (r.Ok? <==> E.Acceptable(old(Books()), T.SetActiveOp(account, active)))
      ensures r.Ok? ==> |accounts| == |old(accounts)| && forall a :: 0 <= a < |accounts| ==>
        accounts[a] == old(accounts)[a].(active := if a == account then active else old(accounts)[a].active)
    {
      hide T.Sound, T.Balance, E.Acceptable;
      T.StepKeepsSound(Books(), T.SetActiveOp(account, active));
      E.StepObserved(Books(), T.SetActiveOp(account, active));
      if account >= |accounts| { return Err(NotFound); }
      accounts := accounts[account := accounts[account].(active := active)];
      clock := clock + 1;
      return Ok(account);
    }

    method SetMapping(branch: nat, tender: string, account: nat) returns (r: Outcome<nat, Error>)
      modifies this
      ensures Did(old(Books()), Books(), T.SetMapping(old(Books()), branch, tender, account), r)
      ensures T.Sound(old(Books())) ==> T.Sound(Books())
      ensures T.Sound(old(Books())) ==> (r.Ok? <==> E.Acceptable(old(Books()), T.SetMappingOp(branch, tender, account)))
      ensures r.Ok? ==> forall key :: key in mappings <==> key in old(mappings) || key == T.Mapping(branch, tender)
      ensures r.Ok? ==> forall key :: key in mappings ==>
        mappings[key] == if key == T.Mapping(branch, tender) then account else old(mappings)[key]
    {
      hide T.Sound, T.Balance, E.Acceptable;
      T.StepKeepsSound(Books(), T.SetMappingOp(branch, tender, account));
      E.StepObserved(Books(), T.SetMappingOp(branch, tender, account));
      if tender !in T.PAYMENT_METHODS { return Err(UnknownMethod); }
      if account >= |accounts| { return Err(NotFound); }
      if accounts[account].branch.Some? && accounts[account].branch.value != branch { return Err(WrongBranch); }
      if !accounts[account].active { return Err(Inactive); }
      mappings := mappings[T.Mapping(branch, tender) := account];
      clock := clock + 1;
      return Ok(account);
    }

    method DeleteMapping(branch: nat, tender: string) returns (r: Outcome<nat, Error>)
      modifies this
      ensures Did(old(Books()), Books(), T.DeleteMapping(old(Books()), branch, tender), r)
      ensures T.Sound(old(Books())) ==> T.Sound(Books())
      ensures T.Sound(old(Books())) ==> (r.Ok? <==> E.Acceptable(old(Books()), T.DeleteMappingOp(branch, tender)))
      ensures r.Ok? ==> forall key :: key in mappings <==> key in old(mappings) && key != T.Mapping(branch, tender)
      ensures forall key :: key in mappings ==> mappings[key] == old(mappings)[key]
    {
      hide T.Sound, T.Balance, E.Acceptable;
      T.StepKeepsSound(Books(), T.DeleteMappingOp(branch, tender));
      E.StepObserved(Books(), T.DeleteMappingOp(branch, tender));
      if T.Mapping(branch, tender) !in mappings { return Err(NotFound); }
      mappings := mappings - {T.Mapping(branch, tender)};
      clock := clock + 1;
      return Ok(branch);
    }

    /** One IN movement per payment line; an unmapped or failing line rolls the whole sale back. */
    method PostInvoicePayments(branch: Option<nat>, invoice: nat, lines: seq<T.PaymentLine>)
      returns (r: Outcome<nat, Error>)
      modifies this
      ensures Did(old(Books()), Books(), T.PostInvoicePayments(old(Books()), branch, invoice, lines), r)
      ensures T.Sound(old(Books())) ==> T.Sound(Books())
      ensures r.Ok? && T.Sound(old(Books())) && branch.Some? && T.BranchHasMappings(old(Books()), branch.value) ==>
        T.NetFor(entries, InvoicePayment(invoice))
        == T.NetFor(old(entries), InvoicePayment(invoice)) + Total(lines, T.LineAmount())
      ensures T.Sound(old(Books())) ==> (r.Ok? <==> E.Acceptable(old(Books()), T.PayInvoiceOp(branch, invoice, lines)))
      ensures r.Ok? && T.Sound(old(Books())) ==> forall a: nat :: a < |old(accounts)| && a < |accounts| ==>
        T.Balance(Books(), a) == T.Balance(old(Books()), a) + (if branch.Some? && T.BranchHasMappings(old(Books()), branch.value) then Total(lines, E.LineOn(old(Books()), branch.value, a)) else 0)
    {
      hide T.Sound, T.Balance, E.Acceptable;
      T.StepKeepsSound(Books(), T.PayInvoiceOp(branch, invoice, lines));
      E.StepObserved(Books(), T.PayInvoiceOp(branch, invoice, lines));
      if branch.None? || forall key :: key in mappings ==> key.branch != branch.value {
        clock := clock + 1;
        return Ok(0);
      }
      var savepoint := entries;
      ghost var before := Books();
      var k := 0;
      while k < |lines|
        invariant 0 <= k <= |lines|
        invariant Books() == before.(entries := entries)
        invariant T.PostPayments(before, branch.value, invoice, lines[k..], entries)
                  == T.PostPayments(before, branch.value, invoice, lines, before.entries)
      {
        assert lines[k..][0] == lines[k] && lines[k..][1..] == lines[k + 1..];
        var key := T.Mapping(branch.value, lines[k].tender);
        if key !in mappings {
          entries := savepoint;
          return Err(UnmappedMethod);
        }
        var posted := PostMovement(T.PaymentMovement(mappings[key], lines[k].amount, invoice, clock));
        if posted.Err? {
          entries := savepoint;
          return Err(posted.error);
        }
        k := k + 1;
      }
      clock := clock + 1;
      return Ok(|lines|);
    }

    method VoidInvoice(invoice: nat) returns (r: Outcome<nat, Error>)
      modifies this
      ensures Did(old(Books()), Books(), T.VoidInvoice(old(Books()), invoice), r)
      ensures T.Sound(old(Books())) ==> T.Sound(Books())
      ensures r.Ok? && T.Sound(old(Books())) ==> T.NetFor(entries, InvoicePayment(invoice)) == 0
      ensures T.Sound(old(Books())) ==> (r.Ok? <==> E.Acceptable(old(Books()), T.VoidInvoiceOp(invoice)))
      ensures r.Ok? && T.Sound(old(Books())) ==> forall a: nat :: a < |old(accounts)| && a < |accounts| ==>
        T.Balance(Books(), a) == T.Balance(old(Books()), a) + (-E.StandingOn(old(Books()), InvoicePayment(invoice), a))
    {
      hide T.Sound, T.Balance, E.Acceptable;
      T.StepKeepsSound(Books(), T.VoidInvoiceOp(invoice));
      E.StepObserved(Books(), T.VoidInvoiceOp(invoice));
      r := ReverseReference(InvoicePayment(invoice));
      if r.Ok? { clock := clock + 1; }
    }

    method CreateExpense(account: nat, amount: int, branch: Option<nat>, occurredAt: int) returns (r: Outcome<nat, Error>)
      modifies this
      ensures Did(old(Books()), Books(), T.CreateExpense(old(Books()), account, amount, branch, occurredAt), r)
      ensures T.Sound(old(Books())) ==> T.Sound(Books())
      ensures r.Ok? && T.Sound(old(Books())) ==> T.NetFor(entries, ExpenseRef(r.value)) == -amount
      ensures T.Sound(old(Books())) ==> (r.Ok? <==> E.Acceptable(old(Books()), T.CreateExpenseOp(account, amount, branch, occurredAt)))
      ensures r.Ok? && T.Sound(old(Books())) ==> forall a: nat :: a < |old(accounts)| && a < |accounts| ==>
        T.Balance(Books(), a) == T.Balance(old(Books()), a) + (if a == account then -amount else 0)
    {
      hide T.Sound, T.Balance, E.Acceptable;
      T.StepKeepsSound(Books(), T.CreateExpenseOp(account, amount, branch, occurredAt));
      E.StepObserved(Books(), T.CreateExpenseOp(account, amount, branch, occurredAt));
      if amount <= 0 { return Err(NotPositive); }
      if account >= |accounts| { return Err(NotFound); }
      if !accounts[account].active { return Err(Inactive); }
      var effective := if branch.Some? then branch else accounts[account].branch;
      if effective.None? { return Err(BranchRequired); }
      if accounts[account].branch.Some? && accounts[account].branch != effective { return Err(WrongBranch); }
      var id := |expenses|;
      expenses := expenses + [T.Expense(account, amount, false)];
      var posted := PostMovement(Movement(account, Out, amount, occurredAt, ExpenseSpend, ExpenseRef(id), None));
      assert posted.Ok?;
      clock := clock + 1;
      return Ok(id);
    }

    method VoidExpense(expense: nat, reason: string) returns (r: Outcome<nat, Error>)
      modifies this
      ensures Did(old(Books()), Books(), T.VoidExpense(old(Books()), expense, reason), r)
      ensures T.Sound(old(Books())) ==> T.Sound(Books())
      ensures r.Ok? && T.Sound(old(Books())) ==> T.NetFor(entries, ExpenseRef(expense)) == 0
      ensures T.Sound(old(Books())) ==> (r.Ok? <==> E.Acceptable(old(Books()), T.VoidExpenseOp(expense, reason)))
      ensures r.Ok? && T.Sound(old(Books())) ==> forall a: nat :: a < |old(accounts)| && a < |accounts| ==>
        T.Balance(Books(), a) == T.Balance(old(Books()), a) + (-E.StandingOn(old(Books()), ExpenseRef(expense), a))
    {
      hide T.Sound, T.Balance, E.Acceptable;
      T.StepKeepsSound(Books(), T.VoidExpenseOp(expense, reason));
      E.StepObserved(Books(), T.VoidExpenseOp(expense, reason));
      if T.Blank(reason) { return Err(ReasonRequired); }
      if expense >= |expenses| { return Err(NotFound); }
      if expenses[expense].voided { return Err(AlreadyReversed); }
      r := ReverseReference(ExpenseRef(expense));
      if r.Ok? {
        expenses := expenses[expense := expenses[expense].(voided := true)];
        clock := clock + 1;
      }
    }

    /** A paired OUT and IN, never one-sided. */
    method CreateTransfer(from: nat, to: nat, amount: int, occurredAt: int) returns (r: Outcome<nat, Error>)
      modifies this
      ensures Did(old(Books()), Books(), T.CreateTransfer(old(Books()), from, to, amount, occurredAt), r)
      ensures T.Sound(old(Books())) ==> T.Sound(Books())
      ensures r.Ok? && T.Sound(old(Books())) ==> T.NetFor(entries, TransferRef(r.value)) == 0
      ensures T.Sound(old(Books())) ==> (r.Ok? <==> E.Acceptable(old(Books()), T.CreateTransferOp(from, to, amount, occurredAt)))
      ensures r.Ok? && T.Sound(old(Books())) ==> forall a: nat :: a < |old(accounts)| && a < |accounts| ==>
        T.Balance(Books(), a) == T.Balance(old(Books()), a) + ((if a == to then amount else 0) - (if a == from then amount else 0))
    {
      hide T.Sound, T.Balance, E.Acceptable;
      T.StepKeepsSound(Books(), T.CreateTransferOp(from, to, amount, occurredAt));
      E.StepObserved(Books(), T.CreateTransferOp(from, to, amount, occurredAt));
      if from == to { return Err(SameAccount); }
      if amount <= 0 { return Err(NotPositive); }
      if from >= |accounts| || to >= |accounts| { return Err(NotFound); }
      if !accounts[from].active || !accounts[to].active { return Err(Inactive); }
      var id := |transfers|;
      transfers := transfers + [T.Transfer(from, to, amount, false)];
      var paid := PostMovement(Movement(from, Out, amount, occurredAt, TransferLeg, TransferRef(id), None));
      var received := PostMovement(Movement(to, In, amount, occurredAt, TransferLeg, TransferRef(id), None));
      assert paid.Ok? && received.Ok?;
      clock := clock + 1;
      return Ok(id);
    }

    method ReverseTransfer(transfer: nat, reason: string) returns (r: Outcome<nat, Error>)
      modifies this
      ensures Did(old(Books()), Books(), T.ReverseTransfer(old(Books()), transfer, reason), r)
      ensures T.Sound(old(Books())) ==> T.Sound(Books())
      ensures r.Ok? && T.Sound(old(Books())) ==> T.NetFor(entries, TransferRef(transfer)) == 0
      ensures T.Sound(old(Books())) ==> (r.Ok? <==> E.Acceptable(old(Books()), T.ReverseTransferOp(transfer, reason)))
      ensures r.Ok? && T.Sound(old(Books())) ==> forall a: nat :: a < |old(accounts)| && a < |accounts| ==>
        T.Balance(Books(), a) == T.Balance(old(Books()), a) + (-E.StandingOn(old(Books()), TransferRef(transfer), a))
    {
      hide T.Sound, T.Balance, E.Acceptable;
      T.StepKeepsSound(Books(), T.ReverseTransferOp(transfer, reason));
      E.StepObserved(Books(), T.ReverseTransferOp(transfer, reason));
      if T.Blank(reason) { return Err(ReasonRequired); }
      if transfer >= |transfers| { return Err(NotFound); }
      if transfers[transfer].reversed { return Err(AlreadyReversed); }
      r := ReverseReference(TransferRef(transfer));
      if r.Ok? {
        transfers := transfers[transfer := transfers[transfer].(reversed := true)];
        clock := clock + 1;
      }
    }

    method CreateHandover(from: nat, to: nat, amount: int, branch: Option<nat>, receiver: string, occurredAt: int)
      returns (r: Outcome<nat, Error>)
      modifies this
      ensures Did(old(Books()), Books(), T.CreateHandover(old(Books()), from, to, amount, branch, receiver, occurredAt), r)
      ensures T.Sound(old(Books())) ==> T.Sound(Books())
      ensures r.Ok? && T.Sound(old(Books())) ==> T.NetFor(entries, HandoverRef(r.value)) == -amount
      ensures T.Sound(old(Books())) ==> (r.Ok? <==> E.Acceptable(old(Books()), T.CreateHandoverOp(from, to, amount, branch, receiver, occurredAt)))
      ensures r.Ok? && T.Sound(old(Books())) ==> forall a: nat :: a < |old(accounts)| && a < |accounts| ==>
        T.Balance(Books(), a) == T.Balance(old(Books()), a) + (if a == from then -amount else 0)
    {
      hide T.Sound, T.Balance, E.Acceptable;
      T.StepKeepsSound(Books(), T.CreateHandoverOp(from, to, amount, branch, receiver, occurredAt));
      E.StepObserved(Books(), T.CreateHandoverOp(from, to, amount, branch, receiver, occurredAt));
      if from == to { return Err(SameAccount); }
      if amount <= 0 { return Err(NotPositive); }
      if T.Blank(receiver) { return Err(NameRequired); }
      if from >= |accounts| || to >= |accounts| { return Err(NotFound); }
      if !accounts[from].active { return Err(Inactive); }
      if branch.None? && accounts[from].branch.None? { return Err(BranchRequired); }
      var id := |handovers|;
      handovers := handovers + [T.Handover(from, to, amount, T.PendingConfirmation, 0, 0, None, None)];
      var posted := PostMovement(Movement(from, Out, amount, occurredAt, HandoverLeg, HandoverRef(id), None));
      assert posted.Ok?;
      clock := clock + 1;
      return Ok(id);
    }

    /** Sets the handover's fields first and posts the IN after, as the service does. */
    method ConfirmHandover(handover: nat, counted: int, reason: string) returns (r: Outcome<nat, Error>)
      modifies this
      ensures Did(old(Books()), Books(), T.ConfirmHandover(old(Books()), handover, counted, reason), r)
      ensures T.Sound(old(Books())) ==> T.Sound(Books())
      ensures r.Ok? && T.Sound(old(Books())) ==>
        T.NetFor(entries, HandoverRef(handover))
        == if old(handovers[handover]).reversedAt.None? then counted - old(handovers[handover]).amount else counted
      ensures T.Sound(old(Books())) ==> (r.Ok? <==> E.Acceptable(old(Books()), T.ConfirmHandoverOp(handover, counted, reason)))
      ensures r.Ok? && T.Sound(old(Books())) ==> forall a: nat :: a < |old(accounts)| && a < |accounts| ==>
        T.Balance(Books(), a) == T.Balance(old(Books()), a) + (if a == old(handovers[handover]).to then counted else 0)
    {
      hide T.Sound, T.Balance, E.Acceptable;
      T.StepKeepsSound(Books(), T.ConfirmHandoverOp(handover, counted, reason));
      E.StepObserved(Books(), T.ConfirmHandoverOp(handover, counted, reason));
      if handover >= |handovers| { return Err(NotFound); }
      var h := handovers[handover];
      if !h.status.PendingConfirmation? { return Err(NotPending); }
      if counted < 0 { return Err(NegativeAmount); }
      var matches := counted == h.amount;
      if !matches && T.Blank(reason) { return Err(ReasonRequired); }
      var savepoint := handovers;
      h := h.(confirmedAt := Some(clock), confirmedAmount := counted);
      if matches {
        h := h.(status := T.Confirmed, discrepancy := 0);
      } else {
        h := h.(status := T.Disputed, discrepancy := h.amount - counted);
      }
      handovers := handovers[handover := h];
      if counted > 0 {
        var posted := PostMovement(Movement(h.to, In, counted, clock, HandoverLeg, HandoverRef(handover), None));
        if posted.Err? {
          handovers := savepoint;
          return Err(posted.error);
        }
      }
      clock := clock + 1;
      return Ok(handover);
    }

    method ReverseHandover(handover: nat, reason: string) returns (r: Outcome<nat, Error>)
      modifies this
      ensures Did(old(Books()), Books(), T.ReverseHandover(old(Books()), handover, reason), r)
      ensures T.Sound(old(Books())) ==> T.Sound(Books())
      ensures r.Ok? && T.Sound(old(Books())) ==> T.NetFor(entries, HandoverRef(handover)) == 0
      ensures T.Sound(old(Books())) ==> (r.Ok? <==> E.Acceptable(old(Books()), T.ReverseHandoverOp(handover, reason)))
      ensures r.Ok? && T.Sound(old(Books())) ==> forall a: nat :: a < |old(accounts)| && a < |accounts| ==>
        T.Balance(Books(), a) == T.Balance(old(Books()), a) + (-E.StandingOn(old(Books()), HandoverRef(handover), a))
    {
      hide T.Sound, T.Balance, E.Acceptable;
      T.StepKeepsSound(Books(), T.ReverseHandoverOp(handover, reason));
      E.StepObserved(Books(), T.ReverseHandoverOp(handover, reason));
      if T.Blank(reason) { return Err(ReasonRequired); }
      if handover >= |handovers| { return Err(NotFound); }
      if handovers[handover].reversedAt.Some? { return Err(AlreadyReversed); }
      r := ReverseReference(HandoverRef(handover));
      if r.Ok? {
        handovers := handovers[handover := handovers[handover].(reversedAt := Some(clock))];
        clock := clock + 1;
      }
    }
  }
}
