/**
 The locks a finance transaction takes against the movements it writes: each account it posts to is
 locked by then, in posting order, and a transfer has both its rows before its first posting.
 */
module PostingLocks {
  import opened Common
  import opened Ledger
  import opened Treasury
  import E = TreasuryEffects
  import L = AccountLocks

  function AccountsOf(rows: Entries): seq<nat> {
    seq(|rows|, i requires 0 <= i < |rows| => rows[i].account)
  }

  function MappedAccounts(b: Books, branch: nat, lines: seq<PaymentLine>): seq<nat> {
    seq(|lines|, i requires 0 <= i < |lines| =>
      var key := Mapping(branch, lines[i].tender);
      if key in b.mappings then b.mappings[key] else 0)
  }

  function StandingAccounts(b: Books, reference: Reference): seq<nat> {
    var ids := Unreversed(b.entries, reference);
    seq(|ids|, i requires 0 <= i < |ids| => if ids[i] < |b.entries| then b.entries[ids[i]].account else 0)
  }

  /** The transaction that carries out an operation. */
  function TransactionOf(b: Books, op: Op): L.Transaction {
    match op
    case CreateTransferOp(from, to, _, _) => L.CreateTransfer(from, to)
    case CreateExpenseOp(account, _, _, _) => L.CreateExpense(account)
    case CreateHandoverOp(from, _, _, _, _, _) => L.CreateHandover(from)
    case ConfirmHandoverOp(handover, counted, _) =>
      L.ConfirmHandover(if handover < |b.handovers| then b.handovers[handover].to else 0, counted)
    case PayInvoiceOp(branch, _, lines) =>
      L.PostInvoicePayments(if branch.Some? && BranchHasMappings(b, branch.value) then MappedAccounts(b, branch.value, lines) else [])
    case _ => L.ReverseReference(StandingAccounts(b, DocumentOf(b, op)))
  }

  lemma {:induction false} PaymentsLock(b: Books, branch: nat, invoice: nat, lines: seq<PaymentLine>, entries: Entries)
    requires PostPayments(b, branch, invoice, lines, entries).Ok?
    ensures var after := PostPayments(b, branch, invoice, lines, entries).value;
            entries <= after && AccountsOf(after[|entries|..]) == MappedAccounts(b, branch, lines)
    decreases |lines|
  {
    if |lines| > 0 {
      var m := PaymentMovement(b.mappings[Mapping(branch, lines[0].tender)], lines[0].amount, invoice, b.clock);
      PaymentsLock(b, branch, invoice, lines[1..], entries + [m]);
      var after := PostPayments(b, branch, invoice, lines, entries).value;
      assert (entries + [m])[|entries|] == m && after[|entries|] == m;
      assert after[|entries|..] == [m] + after[|entries| + 1..];
      assert MappedAccounts(b, branch, lines) == [m.account] + MappedAccounts(b, branch, lines[1..]);
      assert AccountsOf(after[|entries|..]) == [m.account] + AccountsOf(after[|entries| + 1..]);
    }
  }

  lemma ReversalLocks(b: Books, reference: Reference, after: Entries)
    requires ReverseReference(b.accounts, b.entries, reference, b.clock) == Ok(after)
    ensures b.entries <= after
    ensures AccountsOf(after[|b.entries|..]) == StandingAccounts(b, reference)
  {
    var ids := Unreversed(b.entries, reference);
    UnreversedMeaning(b.entries, reference);
    assert forall k :: 0 <= k < |ids| ==> ids[k] in ids;
    ReverseEachShape(b.accounts, b.entries, ids, b.clock);
    assert after[|b.entries|..] == Mirrored(b.entries, ids, b.clock);
  }

  /**
   What a transaction locks is exactly what it posts to, account by account and in the order of its postings;
   only a transfer locks ahead, both of its accounts, the smaller identity first.
   */
  lemma LocksArePostings(b: Books, op: Op)
    requires PostsMovements(op) && Apply(b, op).Ok?
    ensures b.entries <= Step(b, op).entries
    ensures L.Requests(TransactionOf(b, op))
            == (if op.CreateTransferOp? then [Min(op.from, op.to), Max(op.from, op.to)] else [])
               + AccountsOf(Step(b, op).entries[|b.entries|..])
  {
    var after := Step(b, op).entries;
    if E.Reverses(op) {
      ReversalLocks(b, DocumentOf(b, op), after);
    } else if op.PayInvoiceOp? {
      if op.branch.Some? && BranchHasMappings(b, op.branch.value) {
        PaymentsLock(b, op.branch.value, op.invoice, op.lines, b.entries);
      }
    } else {
      PostedLocks(b, op);
    }
  }

  lemma PostedLocks(b: Books, op: Op)
    requires op.CreateExpenseOp? || op.CreateTransferOp? || op.CreateHandoverOp? || op.ConfirmHandoverOp?
    requires Apply(b, op).Ok?
    ensures b.entries <= Step(b, op).entries
    ensures L.Requests(TransactionOf(b, op))
            == (if op.CreateTransferOp? then [Min(op.from, op.to), Max(op.from, op.to)] else [])
               + AccountsOf(Step(b, op).entries[|b.entries|..])
  {
    if op.CreateTransferOp? {
      TransferLegs(b, op.from, op.to, op.amount, op.occurredAt, Step(b, op));
      assert AccountsOf(Step(b, op).entries[|b.entries|..]) == [op.from, op.to];
    } else if op.ConfirmHandoverOp? {
      E.ConfirmPosts(b, op);
    }
  }
}
