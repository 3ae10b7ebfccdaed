/**
 The treasury: accounts, expenses, transfers, two-sided cash handovers and invoice payments,
 all posting to one ledger. Each operation is a function from books to books; a failed operation
 leaves the books as they were (its transaction rolls back).

 Documents are identified by their position in their table. `clock` stands for the wall clock
 stamped on confirmations and reversals; it advances with every successful operation.
 */
module Treasury {
  import opened Common
  import opened Text
  import opened Sums
  import opened Ledger

  datatype Expense = Expense(account: nat, amount: int, voided: bool)

  datatype Transfer = Transfer(from: nat, to: nat, amount: int, reversed: bool)

  datatype HandoverStatus = PendingConfirmation | Confirmed | Disputed

  datatype Handover = Handover(
    from: nat,
    to: nat,
    amount: int,
    status: HandoverStatus,
    confirmedAmount: int,
    discrepancy: int,
    confirmedAt: Option<int>,
    reversedAt: Option<int>)

  datatype Mapping = Mapping(branch: nat, tender: string)

  datatype Books = Books(
    accounts: seq<Account>,
    entries: Entries,
    expenses: seq<Expense>,
    transfers: seq<Transfer>,
    handovers: seq<Handover>,
    mappings: map<Mapping, nat>,
    clock: int)

  const PAYMENT_METHODS: set<string> :=
    {"cash", "card", "mobile_money", "bank_transfer", "cheque", "store_credit"}

  function EmptyBooks(): Books {
    Books([], [], [], [], [], map[], 0)
  }

  // ---------------------------------------------------------------- the derived balance

  /** The one balance formula. */
  function DeriveBalance(opening: int, totalIn: int, totalOut: int): int {
    opening + totalIn - totalOut
  }

  function Balance(b: Books, account: nat): int
    requires account < |b.accounts|
  {
    DeriveBalance(b.accounts[account].opening, Total(b.entries, InOf(account)), Total(b.entries, OutOf(account)))
  }

  /** The sum of the derived balances of the first `n` accounts. */
  function SumOfBalances(b: Books, n: nat): int
    requires n <= |b.accounts|
  {
    if n == 0 then 0 else SumOfBalances(b, n - 1) + Balance(b, n - 1)
  }

  /** The derived balance is the opening balance plus the account's signed movements. */
  lemma BalanceIsSigned(b: Books, account: nat)
    requires account < |b.accounts|
    ensures Balance(b, account) == b.accounts[account].opening + Total(b.entries, SignedOn(account))
  {
    TotalAdd(b.entries, SignedOn(account), OutOf(account), InOf(account));
  }

  // ---------------------------------------------------------------- operations

  /** A text that is empty once stripped. */
  predicate Blank(text: string) {
    Strip(text) == ""
  }

  function OpenAccount(b: Books, kind: AccountType, branch: Option<nat>, opening: int): Outcome<Books, Error> {
    if !kind.Custody? && branch.None? then Err(BranchRequired)
    else if opening < 0 then Err(NegativeOpening)
    else Ok(b.(accounts := b.accounts + [Account(kind, branch, opening, true)], clock := b.clock + 1))
  }

  function SetActive(b: Books, account: nat, active: bool): Outcome<Books, Error> {
    if account >= |b.accounts| then Err(NotFound)
    else Ok(b.(accounts := b.accounts[account := b.accounts[account].(active := active)], clock := b.clock + 1))
  }

  function SetMapping(b: Books, branch: nat, tender: string, account: nat): Outcome<Books, Error> {
    if tender !in PAYMENT_METHODS then Err(UnknownMethod)
    else if account >= |b.accounts| then Err(NotFound)
    else if b.accounts[account].branch.Some? && b.accounts[account].branch.value != branch then Err(WrongBranch)
    else if !b.accounts[account].active then Err(Inactive)
    else Ok(b.(mappings := b.mappings[Mapping(branch, tender) := account], clock := b.clock + 1))
  }

  function DeleteMapping(b: Books, branch: nat, tender: string): Outcome<Books, Error> {
    if Mapping(branch, tender) !in b.mappings then Err(NotFound)
    else Ok(b.(mappings := b.mappings - {Mapping(branch, tender)}, clock := b.clock + 1))
  }

  predicate BranchHasMappings(b: Books, branch: nat) {
    exists key :: key in b.mappings && key.branch == branch
  }

  datatype PaymentLine = PaymentLine(tender: string, amount: int)

  function PaymentMovement(account: nat, amount: int, invoice: nat, now: int): Movement {
    Movement(account, In, amount, now, SalePayment, InvoicePayment(invoice), None)
  }

  function PostPayments(b: Books, branch: nat, invoice: nat, lines: seq<PaymentLine>, entries: Entries)
    : Outcome<Entries, Error>
    decreases |lines|
  {
    if |lines| == 0 then Ok(entries)
    else if Mapping(branch, lines[0].tender) !in b.mappings then Err(UnmappedMethod)
    else
      var account := b.mappings[Mapping(branch, lines[0].tender)];
      var posted :- PostMovement(b.accounts, entries, PaymentMovement(account, lines[0].amount, invoice, b.clock));
      PostPayments(b, branch, invoice, lines[1..], posted)
  }

  /** Money in from a sale: dormant for a branch with no mappings, all lines or none otherwise. */
  function PostInvoicePayments(b: Books, branch: Option<nat>, invoice: nat, lines: seq<PaymentLine>)
    : Outcome<Books, Error>
  {
    if branch.None? || !BranchHasMappings(b, branch.value) then Ok(b.(clock := b.clock + 1))
    else
      var entries :- PostPayments(b, branch.value, invoice, lines, b.entries);
      Ok(b.(entries := entries, clock := b.clock + 1))
  }

  function VoidInvoice(b: Books, invoice: nat): Outcome<Books, Error> {
    var entries :- ReverseReference(b.accounts, b.entries, InvoicePayment(invoice), b.clock);
    Ok(b.(entries := entries, clock := b.clock + 1))
  }

  function CreateExpense(b: Books, account: nat, amount: int, branch: Option<nat>, occurredAt: int)
    : Outcome<Books, Error>
  {
    if amount <= 0 then Err(NotPositive)
    else if account >= |b.accounts| then Err(NotFound)
    else if !b.accounts[account].active then Err(Inactive)
    else if branch.None? && b.accounts[account].branch.None? then Err(BranchRequired)
    else if branch.Some? && b.accounts[account].branch.Some? && branch != b.accounts[account].branch then Err(WrongBranch)
    else
      var id := |b.expenses|;
      var entries :- PostMovement(b.accounts, b.entries,
        Movement(account, Out, amount, occurredAt, ExpenseSpend, ExpenseRef(id), None));
      Ok(b.(expenses := b.expenses + [Expense(account, amount, false)], entries := entries, clock := b.clock + 1))
  }

  function VoidExpense(b: Books, expense: nat, reason: string): Outcome<Books, Error> {
    if Blank(reason) then Err(ReasonRequired)
    else if expense >= |b.expenses| then Err(NotFound)
    else if b.expenses[expense].voided then Err(AlreadyReversed)
    else
      var entries :- ReverseReference(b.accounts, b.entries, ExpenseRef(expense), b.clock);
      Ok(b.(expenses := b.expenses[expense := b.expenses[expense].(voided := true)],
            entries := entries, clock := b.clock + 1))
  }

  function CreateTransfer(b: Books, from: nat, to: nat, amount: int, occurredAt: int): Outcome<Books, Error> {
    if from == to then Err(SameAccount)
    else if amount <= 0 then Err(NotPositive)
    else if from >= |b.accounts| || to >= |b.accounts| then Err(NotFound)
    else if !b.accounts[from].active || !b.accounts[to].active then Err(Inactive)
    else
      var id := |b.transfers|;
      var paid :- PostMovement(b.accounts, b.entries,
        Movement(from, Out, amount, occurredAt, TransferLeg, TransferRef(id), None));
      var received :- PostMovement(b.accounts, paid,
        Movement(to, In, amount, occurredAt, TransferLeg, TransferRef(id), None));
      Ok(b.(transfers := b.transfers + [Transfer(from, to, amount, false)], entries := received, clock := b.clock + 1))
  }

  function ReverseTransfer(b: Books, transfer: nat, reason: string): Outcome<Books, Error> {
    if Blank(reason) then Err(ReasonRequired)
    else if transfer >= |b.transfers| then Err(NotFound)
    else if b.transfers[transfer].reversed then Err(AlreadyReversed)
    else
      var entries :- ReverseReference(b.accounts, b.entries, TransferRef(transfer), b.clock);
      Ok(b.(transfers := b.transfers[transfer := b.transfers[transfer].(reversed := true)],
            entries := entries, clock := b.clock + 1))
  }

  /** Record a handover: the OUT posts at once, the cash is then in transit. */
  function CreateHandover(b: Books, from: nat, to: nat, amount: int, branch: Option<nat>, receiver: string, occurredAt: int)
    : Outcome<Books, Error>
  {
    if from == to then Err(SameAccount)
    else if amount <= 0 then Err(NotPositive)
    else if Blank(receiver) then Err(NameRequired)
    else if from >= |b.accounts| || to >= |b.accounts| then Err(NotFound)
    else if !b.accounts[from].active then Err(Inactive)
    else if branch.None? && b.accounts[from].branch.None? then Err(BranchRequired)
    else
      var id := |b.handovers|;
      var entries :- PostMovement(b.accounts, b.entries,
        Movement(from, Out, amount, occurredAt, HandoverLeg, HandoverRef(id), None));
      var h := Handover(from, to, amount, PendingConfirmation, 0, 0, None, None);
      Ok(b.(handovers := b.handovers + [h], entries := entries, clock := b.clock + 1))
  }

  /**
   Confirm what was counted. The guard looks at the status only: a handover that was reversed
   while pending still has the pending status and passes it.
   */
  function ConfirmHandover(b: Books, handover: nat, counted: int, reason: string): Outcome<Books, Error> {
    if handover >= |b.handovers| then Err(NotFound)
    else
      var h := b.handovers[handover];
      if !h.status.PendingConfirmation? then Err(NotPending)
      else if counted < 0 then Err(NegativeAmount)
      else if counted != h.amount && Blank(reason) then Err(ReasonRequired)
      else
        var confirmed := h.(
          status := if counted == h.amount then Confirmed else Disputed,
          confirmedAmount := counted,
          discrepancy := h.amount - counted,
          confirmedAt := Some(b.clock));
        var entries :-
          if counted > 0 then
            PostMovement(b.accounts, b.entries,
              Movement(h.to, In, counted, b.clock, HandoverLeg, HandoverRef(handover), None))
          else Ok(b.entries);
        Ok(b.(handovers := b.handovers[handover := confirmed], entries := entries, clock := b.clock + 1))
  }

  /** Reverse whatever legs exist; the status is left alone. */
  function ReverseHandover(b: Books, handover: nat, reason: string): Outcome<Books, Error> {
    if Blank(reason) then Err(ReasonRequired)
    else if handover >= |b.handovers| then Err(NotFound)
    else if b.handovers[handover].reversedAt.Some? then Err(AlreadyReversed)
    else
      var entries :- ReverseReference(b.accounts, b.entries, HandoverRef(handover), b.clock);
      Ok(b.(handovers := b.handovers[handover := b.handovers[handover].(reversedAt := Some(b.clock))],
            entries := entries, clock := b.clock + 1))
  }

  datatype Op =
    | OpenAccountOp(kind: AccountType, branch: Option<nat>, opening: int)
    | SetActiveOp(account: nat, active: bool)
    | SetMappingOp(forBranch: nat, tender: string, account: nat)
    | DeleteMappingOp(forBranch: nat, tender: string)
    | PayInvoiceOp(branch: Option<nat>, invoice: nat, lines: seq<PaymentLine>)
    | VoidInvoiceOp(invoice: nat)
    | CreateExpenseOp(account: nat, amount: int, branch: Option<nat>, occurredAt: int)
    | VoidExpenseOp(expense: nat, reason: string)
    | CreateTransferOp(from: nat, to: nat, amount: int, occurredAt: int)
    | ReverseTransferOp(transfer: nat, reason: string)
    | CreateHandoverOp(from: nat, to: nat, amount: int, branch: Option<nat>, receiver: string, occurredAt: int)
    | ConfirmHandoverOp(handover: nat, counted: int, reason: string)
    | ReverseHandoverOp(handover: nat, reason: string)

  function Apply(b: Books, op: Op): Outcome<Books, Error> {
    match op
    case OpenAccountOp(kind, branch, opening) => OpenAccount(b, kind, branch, opening)
    case SetActiveOp(account, active) => SetActive(b, account, active)
    case SetMappingOp(branch, tender, account) => SetMapping(b, branch, tender, account)
    case DeleteMappingOp(branch, tender) => DeleteMapping(b, branch, tender)
    case PayInvoiceOp(branch, invoice, lines) => PostInvoicePayments(b, branch, invoice, lines)
    case VoidInvoiceOp(invoice) => VoidInvoice(b, invoice)
    case CreateExpenseOp(account, amount, branch, at) => CreateExpense(b, account, amount, branch, at)
    case VoidExpenseOp(expense, reason) => VoidExpense(b, expense, reason)
    case CreateTransferOp(from, to, amount, at) => CreateTransfer(b, from, to, amount, at)
    case ReverseTransferOp(transfer, reason) => ReverseTransfer(b, transfer, reason)
    case CreateHandoverOp(from, to, amount, branch, receiver, at) => CreateHandover(b, from, to, amount, branch, receiver, at)
    case ConfirmHandoverOp(handover, counted, reason) => ConfirmHandover(b, handover, counted, reason)
    case ReverseHandoverOp(handover, reason) => ReverseHandover(b, handover, reason)
  }

  function Step(b: Books, op: Op): Books {
    match Apply(b, op)
    case Ok(after) => after
    case Err(_) => b
  }

  function Run(b: Books, ops: seq<Op>): Books {
    if |ops| == 0 then b else Step(Run(b, ops[..|ops| - 1]), ops[|ops| - 1])
  }

  // ---------------------------------------------------------------- what the money should be

  function OpeningColumn(): Account -> int {
    (a: Account) => a.opening
  }

  function PaymentColumn(): Movement -> int {
    (m: Movement) => if m.reference.InvoicePayment? then Signed(m) else 0
  }

  /** The sale payments that no void has reversed. */
  function UnreversedPayments(b: Books): int {
    OpenTotal(b.entries, ReversedIds(b.entries), PaymentColumn())
  }

  function LiveExpense(): Expense -> int {
    (e: Expense) => if e.voided then 0 else e.amount
  }

  /** Cash a handover has taken out of all accounts: everything while pending, the discrepancy after. */
  function InTransit(): Handover -> int {
    (h: Handover) =>
      if h.reversedAt.Some? then 0
      else if h.status.PendingConfirmation? then h.amount
      else h.discrepancy
  }

  predicate ConfirmedAfterReversal(h: Handover) {
    h.reversedAt.Some? && h.confirmedAt.Some? && h.reversedAt.value < h.confirmedAt.value
  }

  /** Cash credited by a confirmation that came after the reversal. */
  function LateCredit(): Handover -> int {
    (h: Handover) => if ConfirmedAfterReversal(h) then h.confirmedAmount else 0
  }

  function ExpectedMoney(b: Books): int {
    Total(b.accounts, OpeningColumn()) + UnreversedPayments(b)
    - Total(b.expenses, LiveExpense()) - Total(b.handovers, InTransit())
  }

  // ---------------------------------------------------------------- the invariant

  predicate IsDocument(reference: Reference) {
    reference.ExpenseRef? || reference.TransferRef? || reference.HandoverRef?
  }

  /** What a document's own fields say its movements net to; zero for a document not yet written. */
  function Net(b: Books, reference: Reference): int {
    match reference
    case ExpenseRef(i) => if i < |b.expenses| then -LiveExpense()(b.expenses[i]) else 0
    case HandoverRef(i) => if i < |b.handovers| then LateCredit()(b.handovers[i]) - InTransit()(b.handovers[i]) else 0
    case _ => 0
  }

  function NetOfAll(b: Books): int {
    Total(b.handovers, LateCredit()) - Total(b.handovers, InTransit()) - Total(b.expenses, LiveExpense())
  }

  ghost predicate GoodEntries(b: Books) {
    forall j :: 0 <= j < |b.entries| ==> b.entries[j].amount > 0 && b.entries[j].account < |b.accounts|
  }

  predicate GoodHandover(b: Books, h: Handover) {
    && h.amount > 0 && h.to < |b.accounts|
    && (h.status.PendingConfirmation? <==> h.confirmedAt.None?)
    && h.confirmedAmount >= 0
    && (h.confirmedAt.Some? ==> h.confirmedAt.value < b.clock && h.discrepancy == h.amount - h.confirmedAmount)
    && (h.reversedAt.Some? ==> h.reversedAt.value < b.clock)
    && (h.status.Confirmed? ==> h.discrepancy == 0)
    && (h.status.Disputed? ==> h.discrepancy != 0)
  }

  ghost predicate GoodHandovers(b: Books) {
    forall i :: 0 <= i < |b.handovers| ==> GoodHandover(b, b.handovers[i])
  }

  predicate Agrees(b: Books, reference: Reference) {
    IsDocument(reference) ==> Total(b.entries, SignedFor(reference)) == Net(b, reference)
  }

  /** Each document's movements net to what the document's own fields say. */
  ghost predicate DocumentsAgree(b: Books) {
    forall reference :: Agrees(b, reference)
  }

  ghost predicate MovementsExplained(b: Books) {
    Total(b.entries, SignedColumn()) == Total(b.entries, PaymentColumn()) + NetOfAll(b)
  }

  ghost predicate Sound(b: Books) {
    && WellReversed(b.entries)
    && GoodEntries(b)
    && GoodHandovers(b)
    && DocumentsAgree(b)
    && MovementsExplained(b)
  }

  // ---------------------------------------------------------------- appending rows of one document

  ghost predicate AppendsFor(entries: Entries, after: Entries, reference: Reference) {
    && entries <= after
    && forall j :: |entries| <= j < |after| ==> after[j].reference == reference
  }

  lemma TaggedTotals(entries: Entries, after: Entries, reference: Reference, other: Reference)
    requires AppendsFor(entries, after, reference)
    ensures other != reference ==> Total(after, SignedFor(other)) == Total(entries, SignedFor(other))
    ensures Total(after, SignedColumn()) - Total(entries, SignedColumn())
            == Total(after, SignedFor(reference)) - Total(entries, SignedFor(reference))
    ensures Total(after, PaymentColumn()) - Total(entries, PaymentColumn())
            == if reference.InvoicePayment? then Total(after, SignedFor(reference)) - Total(entries, SignedFor(reference))
               else 0
  {
    var more := after[|entries|..];
    assert after == entries + more;
    assert forall j :: 0 <= j < |more| ==> more[j] == after[|entries| + j];
    TotalConcat(entries, more, SignedFor(other));
    TotalConcat(entries, more, SignedFor(reference));
    TotalConcat(entries, more, SignedColumn());
    TotalConcat(entries, more, PaymentColumn());
    TotalCongruent(more, SignedColumn(), SignedFor(reference));
    if other != reference {
      TotalZero(more, SignedFor(other));
    }
    if reference.InvoicePayment? {
      TotalCongruent(more, PaymentColumn(), SignedFor(reference));
    } else {
      TotalZero(more, PaymentColumn());
    }
  }

  /**
   The shape of every posting operation: it appends rows of one document, changes that document's
   fields and no other's, and leaves the document's rows and fields in agreement.
   */
  lemma DocumentStep(b: Books, after: Books, reference: Reference)
    requires Sound(b)
    requires AppendsFor(b.entries, after.entries, reference)
    requires WellReversed(after.entries) && GoodEntries(after) && GoodHandovers(after)
    requires forall other :: other != reference ==> Net(after, other) == Net(b, other)
    requires Agrees(after, reference)
    requires !IsDocument(reference) ==> reference.InvoicePayment?
    requires NetOfAll(after) - NetOfAll(b) == Net(after, reference) - Net(b, reference)
    ensures Sound(after)
  {
    forall other ensures Agrees(after, other) {
      assert Agrees(b, other);
      if other != reference {
        TaggedTotals(b.entries, after.entries, reference, other);
        assert Net(after, other) == Net(b, other);
      }
    }
    assert Agrees(b, reference);
    TaggedTotals(b.entries, after.entries, reference, reference);
  }

  lemma AppendOriginal(entries: Entries, m: Movement)
    requires WellReversed(entries) && m.reversalOf.None?
    ensures WellReversed(entries + [m])
  {
  }

  /** One original movement, as rows. */
  lemma PostsOne(b: Books, m: Movement, entries: Entries)
    requires WellReversed(b.entries) && GoodEntries(b) && entries == b.entries + [m]
    requires m.reversalOf.None? && m.amount > 0 && m.account < |b.accounts|
    ensures AppendsFor(b.entries, entries, m.reference)
    ensures WellReversed(entries)
    ensures GoodEntries(b.(entries := entries))
    ensures Total(entries, SignedFor(m.reference)) == Total(b.entries, SignedFor(m.reference)) + Signed(m)
  {
    AppendOriginal(b.entries, m);
    TotalAppend(b.entries, m, SignedFor(m.reference));
  }

  lemma HandoversAge(b: Books, after: Books)
    requires GoodHandovers(b) && |b.accounts| <= |after.accounts| && b.clock <= after.clock
    ensures forall i :: 0 <= i < |b.handovers| ==> GoodHandover(after, b.handovers[i])
  {
    forall i | 0 <= i < |b.handovers| ensures GoodHandover(after, b.handovers[i]) {
      assert GoodHandover(b, b.handovers[i]);
    }
  }

  /** A successful reversal of a document, as rows. */
  lemma ReversalRows(b: Books, reference: Reference, entries: Entries)
    requires Sound(b)
    requires ReverseReference(b.accounts, b.entries, reference, b.clock) == Ok(entries)
    ensures AppendsFor(b.entries, entries, reference)
    ensures WellReversed(entries)
    ensures GoodEntries(b.(entries := entries))
    ensures Total(entries, SignedFor(reference)) == 0
  {
    ReverseReferenceExactlyOnce(b.accounts, b.entries, reference, b.clock, b.clock);
    ReverseReferenceRows(b.accounts, b.entries, reference, b.clock);
  }

  // ---------------------------------------------------------------- every operation keeps the books sound

  lemma AccountOpsSound(b: Books, op: Op)
    requires Sound(b)
    requires op.OpenAccountOp? || op.SetActiveOp? || op.SetMappingOp? || op.DeleteMappingOp?
    ensures Sound(Step(b, op))
  {
    var after := Step(b, op);
    forall reference ensures Agrees(after, reference) {
      assert Agrees(b, reference);
    }
  }

  lemma {:induction false} PostPaymentsShape(b: Books, branch: nat, invoice: nat, lines: seq<PaymentLine>, entries: Entries)
    requires WellReversed(entries)
    requires forall j :: 0 <= j < |entries| ==> entries[j].amount > 0 && entries[j].account < |b.accounts|
    requires PostPayments(b, branch, invoice, lines, entries).Ok?
    ensures var after := PostPayments(b, branch, invoice, lines, entries).value;
            && AppendsFor(entries, after, InvoicePayment(invoice))
            && WellReversed(after)
            && forall j :: 0 <= j < |after| ==> after[j].amount > 0 && after[j].account < |b.accounts|
    decreases |lines|
  {
    if |lines| > 0 {
      var m := PaymentMovement(b.mappings[Mapping(branch, lines[0].tender)], lines[0].amount, invoice, b.clock);
      AppendOriginal(entries, m);
      PostPaymentsShape(b, branch, invoice, lines[1..], entries + [m]);
    }
  }

  lemma PayInvoiceSound(b: Books, branch: Option<nat>, invoice: nat, lines: seq<PaymentLine>, after: Books)
    requires Sound(b) && PostInvoicePayments(b, branch, invoice, lines) == Ok(after)
    ensures Sound(after)
  {
    if branch.Some? && BranchHasMappings(b, branch.value) {
      PostPaymentsShape(b, branch.value, invoice, lines, b.entries);
    }
    DocumentStep(b, after, InvoicePayment(invoice));
  }

  lemma VoidInvoiceSound(b: Books, invoice: nat, after: Books)
    requires Sound(b) && VoidInvoice(b, invoice) == Ok(after)
    ensures Sound(after)
  {
    ReversalRows(b, InvoicePayment(invoice), after.entries);
    DocumentStep(b, after, InvoicePayment(invoice));
  }

  /** The one movement of an accepted expense. */
  lemma ExpensePosted(b: Books, account: nat, amount: int, branch: Option<nat>, at: int, after: Books)
    requires CreateExpense(b, account, amount, branch, at) == Ok(after)
    ensures account < |b.accounts| && amount > 0
    ensures after == b.(expenses := b.expenses + [Expense(account, amount, false)],
                        entries := b.entries + [Movement(account, Out, amount, at, ExpenseSpend, ExpenseRef(|b.expenses|), None)],
                        clock := b.clock + 1)
  {
  }

  lemma CreateExpenseSound(b: Books, account: nat, amount: int, branch: Option<nat>, at: int, after: Books)
    requires Sound(b) && CreateExpense(b, account, amount, branch, at) == Ok(after)
    ensures Sound(after)
  {
    hide CreateExpense, WellReversed, MovementsExplained, Total;
    var reference := ExpenseRef(|b.expenses|);
    ExpensePosted(b, account, amount, branch, at, after);
    PostsOne(b, after.entries[|b.entries|], after.entries);
    HandoversAge(b, after);
    assert Agrees(b, reference) && Net(b, reference) == 0;
    TotalAppend(b.expenses, after.expenses[|b.expenses|], LiveExpense());
    DocumentStep(b, after, reference);
  }

  lemma VoidExpenseSound(b: Books, expense: nat, reason: string, after: Books)
    requires Sound(b) && VoidExpense(b, expense, reason) == Ok(after)
    ensures Sound(after)
  {
    ReversalRows(b, ExpenseRef(expense), after.entries);
    TotalUpdate(b.expenses, expense, after.expenses[expense], LiveExpense());
    DocumentStep(b, after, ExpenseRef(expense));
  }

  /** The two legs of an accepted transfer. */
  lemma TransferLegs(b: Books, from: nat, to: nat, amount: int, at: int, after: Books)
    requires CreateTransfer(b, from, to, amount, at) == Ok(after)
    ensures from < |b.accounts| && to < |b.accounts| && amount > 0
    ensures var reference := TransferRef(|b.transfers|);
            after.entries == b.entries + [Movement(from, Out, amount, at, TransferLeg, reference, None)]
                             + [Movement(to, In, amount, at, TransferLeg, reference, None)]
    ensures after == b.(transfers := after.transfers, entries := after.entries, clock := b.clock + 1)
  {
  }

  lemma PostsTwo(b: Books, m: Movement, n: Movement, entries: Entries)
    requires WellReversed(b.entries) && GoodEntries(b) && entries == b.entries + [m] + [n] && m.reference == n.reference
    requires m.reversalOf.None? && m.amount > 0 && m.account < |b.accounts|
    requires n.reversalOf.None? && n.amount > 0 && n.account < |b.accounts|
    ensures AppendsFor(b.entries, entries, m.reference)
    ensures WellReversed(entries)
    ensures GoodEntries(b.(entries := entries))
    ensures Total(entries, SignedFor(m.reference)) == Total(b.entries, SignedFor(m.reference)) + Signed(m) + Signed(n)
  {
    var half := b.(entries := b.entries + [m]);
    PostsOne(b, m, half.entries);
    PostsOne(half, n, entries);
  }

  lemma CreateTransferSound(b: Books, from: nat, to: nat, amount: int, at: int, after: Books)
    requires Sound(b) && CreateTransfer(b, from, to, amount, at) == Ok(after)
    ensures Sound(after)
  {
    var reference := TransferRef(|b.transfers|);
    TransferLegs(b, from, to, amount, at, after);
    PostsTwo(b, after.entries[|b.entries|], after.entries[|b.entries| + 1], after.entries);
    HandoversAge(b, after);
    assert Agrees(b, reference);
    DocumentStep(b, after, reference);
  }

  lemma ReverseTransferSound(b: Books, transfer: nat, reason: string, after: Books)
    requires Sound(b) && ReverseTransfer(b, transfer, reason) == Ok(after)
    ensures Sound(after)
  {
    ReversalRows(b, TransferRef(transfer), after.entries);
    DocumentStep(b, after, TransferRef(transfer));
  }

  /** The handover's fields, when one is appended or one is rewritten. */
  lemma HandoverFields(b: Books, after: Books, n: nat)
    requires GoodHandovers(b) && |b.accounts| <= |after.accounts| && b.clock <= after.clock
    requires after.expenses == b.expenses && n < |after.handovers| && GoodHandover(after, after.handovers[n])
    requires n < |b.handovers| ==> after.handovers == b.handovers[n := after.handovers[n]]
    requires n >= |b.handovers| ==> n == |b.handovers| && after.handovers == b.handovers + [after.handovers[n]]
    ensures GoodHandovers(after)
    ensures forall other :: other != HandoverRef(n) ==> Net(after, other) == Net(b, other)
    ensures NetOfAll(after) - NetOfAll(b) == Net(after, HandoverRef(n)) - Net(b, HandoverRef(n))
  {
    HandoversAge(b, after);
    var h := after.handovers[n];
    if n == |b.handovers| {
      TotalAppend(b.handovers, h, InTransit());
      TotalAppend(b.handovers, h, LateCredit());
    } else {
      TotalUpdate(b.handovers, n, h, InTransit());
      TotalUpdate(b.handovers, n, h, LateCredit());
    }
  }

  lemma HandoverPosted(b: Books, op: Op, after: Books)
    requires op.CreateHandoverOp? && Apply(b, op) == Ok(after)
    ensures op.from < |b.accounts| && op.to < |b.accounts| && op.amount > 0
    ensures after == b.(handovers := b.handovers + [Handover(op.from, op.to, op.amount, PendingConfirmation, 0, 0, None, None)],
                        entries := b.entries + [Movement(op.from, Out, op.amount, op.occurredAt, HandoverLeg, HandoverRef(|b.handovers|), None)],
                        clock := b.clock + 1)
  {
  }

  lemma CreateHandoverSound(b: Books, op: Op, after: Books)
    requires Sound(b) && op.CreateHandoverOp? && Apply(b, op) == Ok(after)
    ensures Sound(after)
  {
    hide Apply, WellReversed, MovementsExplained, Total;
    var reference := HandoverRef(|b.handovers|);
    HandoverPosted(b, op, after);
    PostsOne(b, after.entries[|b.entries|], after.entries);
    HandoverFields(b, after, |b.handovers|);
    assert Agrees(b, reference);
    DocumentStep(b, after, reference);
  }

  /** What an accepted confirmation writes. */
  lemma ConfirmationPosted(b: Books, handover: nat, counted: int, reason: string, after: Books)
    requires ConfirmHandover(b, handover, counted, reason) == Ok(after)
    ensures handover < |b.handovers| && counted >= 0 && b.handovers[handover].status.PendingConfirmation?
    ensures var h := b.handovers[handover];
            && (counted > 0 ==> h.to < |b.accounts|)
            && after == b.(
                 handovers := b.handovers[handover := h.(
                   status := if counted == h.amount then Confirmed else Disputed,
                   confirmedAmount := counted, discrepancy := h.amount - counted, confirmedAt := Some(b.clock))],
                 entries := b.entries + if counted == 0 then [] else
                   [Movement(h.to, In, counted, b.clock, HandoverLeg, HandoverRef(handover), None)],
                 clock := b.clock + 1)
  {
    assert b.entries + [] == b.entries;
  }

  lemma ConfirmHandoverSound(b: Books, handover: nat, counted: int, reason: string, after: Books)
    requires Sound(b) && ConfirmHandover(b, handover, counted, reason) == Ok(after)
    ensures Sound(after)
  {
    hide ConfirmHandover, WellReversed, MovementsExplained, Total;
    var reference := HandoverRef(handover);
    ConfirmationPosted(b, handover, counted, reason, after);
    assert GoodHandover(b, b.handovers[handover]);
    if counted > 0 {
      PostsOne(b, after.entries[|b.entries|], after.entries);
    } else {
      assert after.entries == b.entries;
    }
    HandoverFields(b, after, handover);
    assert Agrees(b, reference);
    DocumentStep(b, after, reference);
  }

  lemma ReverseHandoverSound(b: Books, handover: nat, reason: string, after: Books)
    requires Sound(b) && ReverseHandover(b, handover, reason) == Ok(after)
    ensures Sound(after)
  {
    ReversalRows(b, HandoverRef(handover), after.entries);
    assert GoodHandover(b, b.handovers[handover]);
    HandoverFields(b, after, handover);
    DocumentStep(b, after, HandoverRef(handover));
  }

  lemma StepSound(b: Books, op: Op)
    requires Sound(b)
    ensures Sound(Step(b, op))
  {
    var after := Step(b, op);
    if Apply(b, op).Ok? {
      match op
      case PayInvoiceOp(branch, invoice, lines) => PayInvoiceSound(b, branch, invoice, lines, after);
      case VoidInvoiceOp(invoice) => VoidInvoiceSound(b, invoice, after);
      case CreateExpenseOp(account, amount, branch, at) => CreateExpenseSound(b, account, amount, branch, at, after);
      case VoidExpenseOp(expense, reason) => VoidExpenseSound(b, expense, reason, after);
      case CreateTransferOp(from, to, amount, at) => CreateTransferSound(b, from, to, amount, at, after);
      case ReverseTransferOp(transfer, reason) => ReverseTransferSound(b, transfer, reason, after);
      case CreateHandoverOp(_, _, _, _, _, _) => CreateHandoverSound(b, op, after);
      case ConfirmHandoverOp(handover, counted, reason) => ConfirmHandoverSound(b, handover, counted, reason, after);
      case ReverseHandoverOp(handover, reason) => ReverseHandoverSound(b, handover, reason, after);
      case _ => AccountOpsSound(b, op);
    }
  }

  // ---------------------------------------------------------------- what each operation leaves on its document

  function LineAmount(): PaymentLine -> int { (line: PaymentLine) => line.amount }

  lemma {:induction false} PaymentsTotal(b: Books, branch: nat, invoice: nat, lines: seq<PaymentLine>, entries: Entries)
    requires PostPayments(b, branch, invoice, lines, entries).Ok?
    ensures Total(PostPayments(b, branch, invoice, lines, entries).value, SignedFor(InvoicePayment(invoice)))
            == Total(entries, SignedFor(InvoicePayment(invoice))) + Total(lines, LineAmount())
    decreases |lines|
  {
    if |lines| > 0 {
      var m := PaymentMovement(b.mappings[Mapping(branch, lines[0].tender)], lines[0].amount, invoice, b.clock);
      PaymentsTotal(b, branch, invoice, lines[1..], entries + [m]);
      TotalAppend(entries, m, SignedFor(InvoicePayment(invoice)));
      TotalFirst(lines, LineAmount());
    }
  }

  /** The document an operation posts for; a new one is next in its table. */
  function DocumentOf(b: Books, op: Op): Reference {
    match op
    case PayInvoiceOp(_, invoice, _) => InvoicePayment(invoice)
    case VoidInvoiceOp(invoice) => InvoicePayment(invoice)
    case CreateExpenseOp(_, _, _, _) => ExpenseRef(|b.expenses|)
    case VoidExpenseOp(expense, _) => ExpenseRef(expense)
    case CreateTransferOp(_, _, _, _) => TransferRef(|b.transfers|)
    case ReverseTransferOp(transfer, _) => TransferRef(transfer)
    case CreateHandoverOp(_, _, _, _, _, _) => HandoverRef(|b.handovers|)
    case ConfirmHandoverOp(handover, _, _) => HandoverRef(handover)
    case ReverseHandoverOp(handover, _) => HandoverRef(handover)
    case _ => NoReference
  }

  /** What a ledger's movements of one document net to. */
  function NetFor(entries: Entries, reference: Reference): int { Total(entries, SignedFor(reference)) }

  /**
   Payments add the sum of their lines, an expense and a handover are their amount out, a transfer nets
   to zero, a confirmation brings in what was counted (on top of a reversal too), and whatever is voided
   or reversed nets to zero.
   */
  function NetAfter(b: Books, op: Op): int {
    match op
    case PayInvoiceOp(branch, invoice, lines) =>
      NetFor(b.entries, InvoicePayment(invoice))
      + if branch.Some? && BranchHasMappings(b, branch.value) then Total(lines, LineAmount()) else 0
    case CreateExpenseOp(_, amount, _, _) => -amount
    case CreateHandoverOp(_, _, amount, _, _, _) => -amount
    case ConfirmHandoverOp(handover, counted, _) =>
      if handover < |b.handovers| && b.handovers[handover].reversedAt.None? then counted - b.handovers[handover].amount
      else counted
    case _ => 0
  }

  predicate PostsMovements(op: Op) {
    !op.OpenAccountOp? && !op.SetActiveOp? && !op.SetMappingOp? && !op.DeleteMappingOp?
  }

  lemma InvoiceNets(b: Books, op: Op)
    requires Sound(b) && (op.PayInvoiceOp? || op.VoidInvoiceOp?) && Apply(b, op).Ok?
    ensures NetFor(Step(b, op).entries, DocumentOf(b, op)) == NetAfter(b, op)
  {
    match op
    case PayInvoiceOp(branch, invoice, lines) =>
      if branch.Some? && BranchHasMappings(b, branch.value) {
        PaymentsTotal(b, branch.value, invoice, lines, b.entries);
      }
    case VoidInvoiceOp(invoice) => ReversalRows(b, InvoicePayment(invoice), Step(b, op).entries);
  }

  lemma HandoverNets(b: Books, op: Op)
    requires Sound(b) && (op.ConfirmHandoverOp? || op.ReverseHandoverOp?) && Apply(b, op).Ok?
    ensures Net(Step(b, op), DocumentOf(b, op)) == NetAfter(b, op)
  {
    assert GoodHandover(b, b.handovers[op.handover]);
  }

  lemma WrittenNets(b: Books, op: Op)
    requires IsDocument(DocumentOf(b, op)) && Apply(b, op).Ok? && !op.ConfirmHandoverOp? && !op.ReverseHandoverOp?
    ensures Net(Step(b, op), DocumentOf(b, op)) == NetAfter(b, op)
  {
  }

  lemma DocumentNets(b: Books, op: Op)
    requires Sound(b) && IsDocument(DocumentOf(b, op)) && Apply(b, op).Ok?
    ensures NetFor(Step(b, op).entries, DocumentOf(b, op)) == NetAfter(b, op)
  {
    hide Apply, NetAfter, Net;
    StepSound(b, op);
    assert Agrees(Step(b, op), DocumentOf(b, op));
    if op.ConfirmHandoverOp? || op.ReverseHandoverOp? {
      HandoverNets(b, op);
    } else {
      WrittenNets(b, op);
    }
  }

  /** What the movements of an operation's document net to once it has been accepted. */
  lemma OperationNets(b: Books, op: Op)
    requires Sound(b) && PostsMovements(op) && Apply(b, op).Ok?
    ensures NetFor(Step(b, op).entries, DocumentOf(b, op)) == NetAfter(b, op)
  {
    if op.PayInvoiceOp? || op.VoidInvoiceOp? {
      InvoiceNets(b, op);
    } else {
      DocumentNets(b, op);
    }
  }

  /** Both, for books of which nothing is assumed. */
  lemma StepKeepsSound(b: Books, op: Op)
    ensures Sound(b) ==> Sound(Step(b, op))
    ensures Sound(b) && PostsMovements(op) && Apply(b, op).Ok? ==>
              NetFor(Step(b, op).entries, DocumentOf(b, op)) == NetAfter(b, op)
  {
    if Sound(b) {
      StepSound(b, op);
      if PostsMovements(op) && Apply(b, op).Ok? {
        OperationNets(b, op);
      }
    }
  }

  lemma {:induction false} RunSound(b: Books, ops: seq<Op>)
    requires Sound(b)
    ensures Sound(Run(b, ops))
  {
    if |ops| > 0 {
      RunSound(b, ops[..|ops| - 1]);
      StepSound(Run(b, ops[..|ops| - 1]), ops[|ops| - 1]);
    }
  }
}
