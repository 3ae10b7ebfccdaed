/**
 What holds of every run of the stock services: reservations are exactly the outstanding lines of the
 open documents, settled lines are final, a repaired unit comes back as it was, dispatch conserves
 goods, and an import rollback restores what was there before.
 */
module StockRuns {
  import opened Common
  import opened Sums
  import opened Stock
  import opened StockSystem
  import C = Consignment
  import I = Issuance
  import D = Dispatch
  import B = BikeIssues
  import S = ImportStock

  // ---------------------------------------------------------------- reserved = outstanding

  /** A column restricted to the rows tagged below a bound. */
  function Below<T>(column: T -> int, tag: T -> int, n: int): T -> int {
    (row: T) => if 0 <= tag(row) < n then column(row) else 0
  }

  /** Summing a table group by group, when the rows' tags are the positions of another table. */
  lemma {:induction false} SumBelow<T, U>(rows: seq<T>, column: T -> int, tag: T -> int, docs: seq<U>, cell: U -> int)
    requires forall t :: 0 <= t < |docs| ==> Total(rows, Slot(column, tag, t)) == cell(docs[t])
    ensures Total(rows, Below(column, tag, |docs|)) == Total(docs, cell)
  {
    var n := |docs|;
    if n == 0 {
      TotalZero(rows, Below(column, tag, n));
    } else {
      SumBelow(rows, column, tag, docs[..n - 1], cell);
      TotalAdd(rows, Below(column, tag, n - 1), Slot(column, tag, n - 1), Below(column, tag, n));
    }
  }

  lemma SumByDocument<T, U>(rows: seq<T>, column: T -> int, tag: T -> int, docs: seq<U>, cell: U -> int)
    requires forall t :: 0 <= t < |docs| ==> Total(rows, Slot(column, tag, t)) == cell(docs[t])
    requires forall i :: 0 <= i < |rows| && column(rows[i]) != 0 ==> 0 <= tag(rows[i]) < |docs|
    ensures Total(rows, column) == Total(docs, cell)
  {
    SumBelow(rows, column, tag, docs, cell);
    TotalCongruent(rows, column, Below(column, tag, |docs|));
  }

  function Consigned(key: Key): Hold -> int {
    (h: Hold) => if h.active && h.key == key && h.line.ConsignmentLine? then h.qty else 0
  }

  function Loaned(key: Key): Hold -> int {
    (h: Hold) => if h.active && h.key == key && h.line.LoanLine? then h.qty else 0
  }

  function DocumentTag(): Hold -> int {
    (h: Hold) => match h.line case ConsignmentLine(d, _) => d case LoanLine(d, _) => d
  }

  function LineTag(): Hold -> int { (h: Hold) => h.line.line }

  /** What a consignment line still has out, on one inventory row. */
  function OutstandingAt(warehouse: nat, key: Key): C.Line -> int {
    (ln: C.Line) => if ln.isPart && key == Key(ln.item, warehouse) then C.Outstanding(ln) else 0
  }

  function OutAtReseller(key: Key): C.Delivery -> int {
    (d: C.Delivery) => if C.Dispatched(d) then Total(d.lines, OutstandingAt(d.warehouse, key)) else 0
  }

  /** What a loan line still has out, on one inventory row: all of it until it is closed. */
  function LentAt(warehouse: nat, key: Key): I.Line -> int {
    (ln: I.Line) => if ln.isPart && !ln.consumable && !ln.closed && key == Key(ln.item, warehouse) then ln.qty else 0
  }

  function OutOnLoan(key: Key): I.Loan -> int {
    (loan: I.Loan) => if I.Issued(loan) then Total(loan.lines, LentAt(loan.warehouse, key)) else 0
  }

  lemma HoldIsCounted(s: Stock, i: nat)
    requires HoldsSound(s) && i < |s.holds| && s.holds[i].active
    ensures HeldFor(s, s.holds[i].line, s.holds[i].key) > 0
  {
    var column := HeldBy(s.holds[i].line, s.holds[i].key);
    assert HoldSound(s, i, i);
    forall j: nat | j < |s.holds| ensures column(s.holds[j]) >= 0 { assert HoldSound(s, j, j); }
    TotalNonNegative(s.holds, column);
    assert column(s.holds[i]) > 0;
  }

  /** Every active hold is some dispatched document's line. */
  lemma HoldIsOwned(sys: System, i: nat)
    requires SystemSound(sys) && i < |sys.stock.holds| && sys.stock.holds[i].active
    ensures match sys.stock.holds[i].line
            case ConsignmentLine(d, j) => d < |sys.deliveries| && C.Dispatched(sys.deliveries[d]) && j < |sys.deliveries[d].lines|
            case LoanLine(d, j) => d < |sys.loans| && I.Issued(sys.loans[d]) && j < |sys.loans[d].lines|
  {
    HoldIsCounted(sys.stock, i);
    var key := sys.stock.holds[i].key;
    match sys.stock.holds[i].line
    case ConsignmentLine(id, j) =>
      var d := DeliveryAt(sys, id);
      var n := if C.Dispatched(d) then |d.lines| else 0;
      assert DeliverySound(sys, id);
      assert C.Agrees(sys.stock, id, d.warehouse, d.lines, n, j, key);
    case LoanLine(id, j) =>
      var d := LoanAt(sys, id);
      var n := if I.Issued(d) then |d.lines| else 0;
      assert LoanSound(sys, id);
      assert I.Agrees(sys.stock, id, d.warehouse, d.lines, n, j, key);
  }

  lemma DeliveryHolds(sys: System, id: nat, key: Key)
    requires SystemSound(sys) && id < |sys.deliveries|
    ensures Total(sys.stock.holds, Slot(Consigned(key), DocumentTag(), id)) == OutAtReseller(key)(sys.deliveries[id])
  {
    var d := sys.deliveries[id];
    var lines := if C.Dispatched(d) then d.lines else [];
    var column := Slot(Consigned(key), DocumentTag(), id);
    assert DeliverySound(sys, id);
    forall j: int | 0 <= j < |lines|
      ensures Total(sys.stock.holds, Slot(column, LineTag(), j)) == OutstandingAt(d.warehouse, key)(lines[j])
    {
      assert C.Agrees(sys.stock, id, d.warehouse, d.lines, |d.lines|, j, key);
      TotalCongruent(sys.stock.holds, Slot(column, LineTag(), j), HeldBy(ConsignmentLine(id, j), key));
    }
    forall i | 0 <= i < |sys.stock.holds| && column(sys.stock.holds[i]) != 0
      ensures 0 <= LineTag()(sys.stock.holds[i]) < |lines|
    {
      HoldIsOwned(sys, i);
    }
    SumByDocument(sys.stock.holds, column, LineTag(), lines, OutstandingAt(d.warehouse, key));
  }

  lemma LoanHolds(sys: System, id: nat, key: Key)
    requires SystemSound(sys) && id < |sys.loans|
    ensures Total(sys.stock.holds, Slot(Loaned(key), DocumentTag(), id)) == OutOnLoan(key)(sys.loans[id])
  {
    var d := sys.loans[id];
    var lines := if I.Issued(d) then d.lines else [];
    var column := Slot(Loaned(key), DocumentTag(), id);
    assert LoanSound(sys, id);
    forall j: int | 0 <= j < |lines|
      ensures Total(sys.stock.holds, Slot(column, LineTag(), j)) == LentAt(d.warehouse, key)(lines[j])
    {
      assert I.Agrees(sys.stock, id, d.warehouse, d.lines, |d.lines|, j, key);
      TotalCongruent(sys.stock.holds, Slot(column, LineTag(), j), HeldBy(LoanLine(id, j), key));
    }
    forall i | 0 <= i < |sys.stock.holds| && column(sys.stock.holds[i]) != 0
      ensures 0 <= LineTag()(sys.stock.holds[i]) < |lines|
    {
      HoldIsOwned(sys, i);
    }
    SumByDocument(sys.stock.holds, column, LineTag(), lines, LentAt(d.warehouse, key));
  }

  /**
   What an inventory row shows as reserved is exactly what its consignments still have out at resellers
   plus what its loans still have out, document by document; and the rest is really there.
   */
  lemma ReservedIsOutstanding(sys: System, key: Key)
    requires SystemSound(sys)
    ensures Reserved(sys.stock, key) == Total(sys.deliveries, OutAtReseller(key)) + Total(sys.loans, OutOnLoan(key))
    ensures OnHand(sys.stock, key) >= Total(sys.deliveries, OutAtReseller(key)) + Total(sys.loans, OutOnLoan(key))
  {
    var holds := sys.stock.holds;
    assert RowSound(sys.stock, key);
    TotalAdd(holds, Consigned(key), Loaned(key), HeldAt(key));
    forall id: int | 0 <= id < |sys.deliveries|
      ensures Total(holds, Slot(Consigned(key), DocumentTag(), id)) == OutAtReseller(key)(sys.deliveries[id])
    {
      DeliveryHolds(sys, id, key);
    }
    forall id: int | 0 <= id < |sys.loans|
      ensures Total(holds, Slot(Loaned(key), DocumentTag(), id)) == OutOnLoan(key)(sys.loans[id])
    {
      LoanHolds(sys, id, key);
    }
    forall i | 0 <= i < |holds|
      ensures Consigned(key)(holds[i]) != 0 ==> 0 <= DocumentTag()(holds[i]) < |sys.deliveries|
      ensures Loaned(key)(holds[i]) != 0 ==> 0 <= DocumentTag()(holds[i]) < |sys.loans|
    {
      if holds[i].active { HoldIsOwned(sys, i); }
    }
    SumByDocument(holds, Consigned(key), DocumentTag(), sys.deliveries, OutAtReseller(key));
    SumByDocument(holds, Loaned(key), DocumentTag(), sys.loans, OutOnLoan(key));
  }

  // ---------------------------------------------------------------- settled lines are final

  /** Documents are never deleted, and their lines only move forward. */
  predicate DeliveryAhead(d: C.Delivery, later: C.Delivery) {
    && later.mode == d.mode
    && later.warehouse == d.warehouse
    && |later.lines| == |d.lines|
    && (C.Dispatched(d) ==> C.Dispatched(later))
    && (forall j :: 0 <= j < |d.lines| ==> C.Progress(d.lines[j], later.lines[j]))
  }

  predicate LoanAhead(loan: I.Loan, later: I.Loan) {
    && later.warehouse == loan.warehouse
    && |later.lines| == |loan.lines|
    && (I.Issued(loan) ==> I.Issued(later))
    && (loan.status.Returned? ==> later == loan)
    && (forall j :: 0 <= j < |loan.lines| ==> I.Progress(loan.lines[j], later.lines[j]))
  }

  predicate RepairAhead(issue: B.Issue, later: B.Issue) {
    && later.unit == issue.unit && later.prior == issue.prior
    && (issue.status.Resolved? ==> later == issue)
  }

  ghost predicate Ahead(sys: System, later: System) {
    && |sys.deliveries| <= |later.deliveries|
    && |sys.loans| <= |later.loans|
    && |sys.repairs| <= |later.repairs|
    && (forall id :: 0 <= id < |sys.deliveries| ==> DeliveryAhead(sys.deliveries[id], later.deliveries[id]))
    && (forall id :: 0 <= id < |sys.loans| ==> LoanAhead(sys.loans[id], later.loans[id]))
    && (forall id :: 0 <= id < |sys.repairs| ==> RepairAhead(sys.repairs[id], later.repairs[id]))
  }

  lemma DeliveryStepAhead(sys: System, op: DeliveryOp, now: System)
    requires SystemSound(sys) && ApplyDelivery(sys, op) == Ok(now)
    ensures Ahead(sys, now)
  {
    if !op.DraftDelivery? {
      var n, d := op.delivery, sys.deliveries[op.delivery];
      assert DeliverySound(sys, n);
      if op.Settle? {
        C.SettleSound(sys.stock, n, d, op.settled, op.outcomes);
      }
      assert DeliveryAhead(d, now.deliveries[n]);
    }
  }

  lemma LoanStepAhead(sys: System, op: LoanOp, now: System)
    requires SystemSound(sys) && ApplyLoan(sys, op) == Ok(now)
    ensures Ahead(sys, now)
  {
    if !op.DraftLoan? {
      var n, loan := op.loan, sys.loans[op.loan];
      assert LoanSound(sys, n);
      if op.ReturnItems? {
        I.ReturnSound(sys.stock, n, loan, op.returned, op.back);
      }
      assert LoanAhead(loan, now.loans[n]);
    }
  }

  lemma RepairStepAhead(sys: System, op: RepairOp, now: System)
    requires ApplyRepair(sys, op) == Ok(now)
    ensures Ahead(sys, now)
  {
    if !op.OpenRepair? {
      var n, issue := op.repair, sys.repairs[op.repair];
      assert !issue.status.Resolved?;
      assert RepairAhead(issue, now.repairs[n]);
    }
  }

  lemma SameDocumentsAhead(sys: System, now: System)
    requires now.deliveries == sys.deliveries && now.loans == sys.loans && now.repairs == sys.repairs
    ensures Ahead(sys, now)
  {
  }

  lemma InventoryStepAhead(sys: System, op: InventoryOp, now: System)
    requires ApplyInventory(sys, op) == Ok(now)
    ensures Ahead(sys, now)
  {
    SameDocumentsAhead(sys, now);
  }

  lemma NoteStepAhead(sys: System, op: NoteOp, now: System)
    requires ApplyNote(sys, op) == Ok(now)
    ensures Ahead(sys, now)
  {
    SameDocumentsAhead(sys, now);
  }

  lemma ImportStepAhead(sys: System, op: ImportOp, now: System)
    requires ApplyImport(sys, op) == Ok(now)
    ensures Ahead(sys, now)
  {
    SameDocumentsAhead(sys, now);
  }

  lemma StepAhead(sys: System, op: Op)
    requires SystemSound(sys)
    ensures Ahead(sys, Step(sys, op))
  {
    SameDocumentsAhead(sys, sys);
    var r := Apply(sys, op);
    if r.Ok? {
      match op
      case Inventory(o) => InventoryStepAhead(sys, o, r.value);
      case Delivery(o) => DeliveryStepAhead(sys, o, r.value);
      case Loan(o) => LoanStepAhead(sys, o, r.value);
      case Note(o) => NoteStepAhead(sys, o, r.value);
      case Repair(o) => RepairStepAhead(sys, o, r.value);
      case Import(o) => ImportStepAhead(sys, o, r.value);
    }
  }

  lemma {:induction false} RunAhead(sys: System, ops: seq<Op>, later: System)
    requires SystemSound(sys) && later == Run(sys, ops)
    ensures Ahead(sys, later)
  {
    if |ops| > 0 {
      var mid := Run(sys, ops[..|ops| - 1]);
      RunAhead(sys, ops[..|ops| - 1], mid);
      RunSound(sys, ops[..|ops| - 1]);
      StepAhead(mid, ops[|ops| - 1]);
      AheadTransitive(sys, mid, later);
    }
  }

  lemma AheadTransitive(a: System, b: System, c: System)
    requires Ahead(a, b) && Ahead(b, c)
    ensures Ahead(a, c)
  {
    forall id | 0 <= id < |a.deliveries| ensures DeliveryAhead(a.deliveries[id], c.deliveries[id]) {
      assert DeliveryAhead(a.deliveries[id], b.deliveries[id]) && DeliveryAhead(b.deliveries[id], c.deliveries[id]);
    }
    forall id | 0 <= id < |a.loans| ensures LoanAhead(a.loans[id], c.loans[id]) {
      assert LoanAhead(a.loans[id], b.loans[id]) && LoanAhead(b.loans[id], c.loans[id]);
    }
    forall id | 0 <= id < |a.repairs| ensures RepairAhead(a.repairs[id], c.repairs[id]) {
      assert RepairAhead(a.repairs[id], b.repairs[id]) && RepairAhead(b.repairs[id], c.repairs[id]);
    }
  }

  /**
   Over any run, a consignment line that is fully reconciled holds nothing on any row, is never touched
   again, and what it deducted stays exactly what it settled.
   */
  lemma ReconciledForever(sys: System, ops: seq<Op>, later: System, id: nat, j: nat, key: Key)
    requires SystemSound(sys) && later == Run(sys, ops)
    requires id < |sys.deliveries| && j < |sys.deliveries[id].lines|
    requires C.Dispatched(sys.deliveries[id]) && C.Outstanding(sys.deliveries[id].lines[j]) == 0
    ensures id < |later.deliveries|
    ensures j < |later.deliveries[id].lines|
    ensures later.deliveries[id].lines[j] == sys.deliveries[id].lines[j]
    ensures HeldFor(later.stock, ConsignmentLine(id, j), key) == 0
    ensures Net(later.stock, ConsignmentSale(ConsignmentLine(id, j)), key)
            == Net(sys.stock, ConsignmentSale(ConsignmentLine(id, j)), key)
  {
    RunAhead(sys, ops, later);
    RunSound(sys, ops);
    var d, now := sys.deliveries[id], later.deliveries[id];
    assert DeliveryAhead(d, now);
    assert DeliverySound(sys, id) && DeliverySound(later, id);
    assert C.Agrees(sys.stock, id, d.warehouse, d.lines, |d.lines|, j, key);
    assert C.Agrees(later.stock, id, now.warehouse, now.lines, |now.lines|, j, key);
  }

  /** Over any run, a returned loan line is never settled twice: it keeps its figures and holds nothing. */
  lemma ClosedForever(sys: System, ops: seq<Op>, later: System, id: nat, j: nat, key: Key)
    requires SystemSound(sys) && later == Run(sys, ops)
    requires id < |sys.loans| && j < |sys.loans[id].lines| && sys.loans[id].lines[j].closed
    ensures id < |later.loans| && j < |later.loans[id].lines|
    ensures later.loans[id].lines[j] == sys.loans[id].lines[j]
    ensures HeldFor(later.stock, LoanLine(id, j), key) == 0
    ensures Net(later.stock, IssuanceLoss(LoanLine(id, j)), key) == Net(sys.stock, IssuanceLoss(LoanLine(id, j)), key)
  {
    RunAhead(sys, ops, later);
    RunSound(sys, ops);
    var d, now := sys.loans[id], later.loans[id];
    assert LoanAhead(d, now);
    assert LoanSound(sys, id) && LoanSound(later, id);
    assert I.Issued(d);
    assert I.Agrees(sys.stock, id, d.warehouse, d.lines, |d.lines|, j, key);
    assert I.Agrees(later.stock, id, now.warehouse, now.lines, |now.lines|, j, key);
  }

  /** What a returned issuance still holds it holds over every run: nothing in the system releases it. */
  lemma StrandedForever(sys: System, ops: seq<Op>, later: System, id: nat, j: nat, key: Key)
    requires SystemSound(sys) && later == Run(sys, ops)
    requires id < |sys.loans| && sys.loans[id].status.Returned?
    ensures id < |later.loans| && later.loans[id] == sys.loans[id]
    ensures HeldFor(later.stock, LoanLine(id, j), key) == HeldFor(sys.stock, LoanLine(id, j), key)
  {
    RunAhead(sys, ops, later);
    RunSound(sys, ops);
    var d := sys.loans[id];
    assert LoanAhead(d, later.loans[id]);
    assert LoanSound(sys, id) && LoanSound(later, id);
    assert I.Agrees(sys.stock, id, d.warehouse, d.lines, |d.lines|, j, key);
    assert I.Agrees(later.stock, id, d.warehouse, d.lines, |d.lines|, j, key);
  }

  /**
   A repair gives back what it took: whatever happens in between, resolving an issue puts its unit at the
   status it had before the issue was opened, and until then the unit is on hold.
   */
  lemma RepairGivesBack(before: System, unit: nat, lines: seq<B.Line>, begun: System, ops: seq<Op>, later: System, n: nat)
    requires SystemSound(before) && ApplyRepair(before, OpenRepair(unit, lines)) == Ok(begun)
    requires n == |before.repairs| && later == Run(begun, ops)
    ensures n < |later.repairs|
    ensures later.repairs[n].unit == unit
    ensures unit in before.units
    ensures !later.repairs[n].status.Resolved? ==>
      && unit in later.units && later.units[unit].OnHold?
      && forall extra, after :: ApplyRepair(later, ResolveRepair(n, extra)) == Ok(after) ==>
           after.units == later.units[unit := before.units[unit]]
  {
    RepairStepSound(before, OpenRepair(unit, lines), begun);
    RunSound(begun, ops);
    RunAhead(begun, ops, later);
    assert RepairAhead(begun.repairs[n], later.repairs[n]);
    if !later.repairs[n].status.Resolved? {
      assert B.Holds(later.units, later.repairs[n]);
      assert B.Active(later.repairs[n].status);
      forall extra, after | ApplyRepair(later, ResolveRepair(n, extra)) == Ok(after)
        ensures after.units == later.units[unit := before.units[unit]]
      {
        assert RepairSound(later, n);
        B.ResolveSound(later.stock, later.units, later.repairs, n, extra);
      }
    }
  }

  // ---------------------------------------------------------------- dispatch conserves goods

  function OffShelfOf(product: nat): D.Note -> int { (note: D.Note) => D.OffShelf(note, product) }

  /** All goods of a product: on every shelf, in transit, or recorded missing or damaged on a note. */
  function Goods(sys: System, product: nat): int {
    D.Shelved(sys.stock, product) + Total(sys.notes, OffShelfOf(product))
  }

  /** What a step shelves a second time: the recorded quantities of a note received again. */
  function Duplicated(sys: System, op: Op, product: nat): int {
    if op.Note? && op.note.ReceiveNote? && ApplyNote(sys, op.note).Ok? && op.note.note < |sys.notes|
    then Total(sys.notes[op.note.note].lines, D.ReceivedOf(product)) else 0
  }

  lemma RecordedNonNegative(note: D.Note, product: nat)
    requires D.LinesSound(note)
    ensures Total(note.lines, D.ReceivedOf(product)) >= 0
    ensures Total(note.lines, D.ReceivedOf(product)) == 0 <==>
              forall i :: 0 <= i < |note.lines| ==> D.ReceivedOf(product)(note.lines[i]) == 0
  {
    forall i | 0 <= i < |note.lines| ensures D.ReceivedOf(product)(note.lines[i]) >= 0 {
      assert D.LineSound(note.status, note.lines[i]);
    }
    TotalNonNegative(note.lines, D.ReceivedOf(product));
    TotalZeroIff(note.lines, D.ReceivedOf(product));
  }

  /** Goods on hand, in transit or lost on notes, less what everything but notes has put on the shelves. */
  function Accounted(sys: System, product: nat): int {
    Goods(sys, product) - D.Elsewhere(sys.stock, product)
  }

  lemma DraftNoteGoods(sys: System, op: NoteOp, now: System, product: nat)
    requires SystemSound(sys) && op.DraftNote? && ApplyNote(sys, op) == Ok(now)
    ensures Accounted(now, product) == Accounted(sys, product)
  {
    var note := now.notes[|sys.notes|];
    D.CreateSound(sys.stock, sys.notes, sys.places, SoldUnits(sys.units), op.from, op.to, op.parts, op.bikes, note);
    TotalAppend(sys.notes, note, OffShelfOf(product));
  }

  lemma MovedNoteGoods(sys: System, op: NoteOp, now: System, product: nat)
    requires SystemSound(sys) && (op.DispatchNote? || op.ReceiveNote?) && ApplyNote(sys, op) == Ok(now)
    ensures op.note < |sys.notes|
    ensures Accounted(now, product) == Accounted(sys, product)
              + if op.ReceiveNote? then Total(sys.notes[op.note].lines, D.ReceivedOf(product)) else 0
  {
    var n, note := op.note, sys.notes[op.note];
    assert D.LinesSound(note);
    TotalUpdate(sys.notes, n, now.notes[n], OffShelfOf(product));
    match op
    case DispatchNote(_) =>
      D.DispatchConserves(sys.stock, sys.places, n, note, now.stock, now.places, now.notes[n]);
      D.IssuePartsElsewhere(sys.stock, n, note, 0, now.stock, product);
    case ReceiveNote(_, parts, bikes) =>
      var st := D.State(sys.stock, sys.places, note.lines);
      D.ReceiveExcess(sys.stock, sys.places, n, note, parts, bikes, now.stock, now.places, now.notes[n]);
      D.ReceiveFromElsewhere(st, n, note, 0, parts, bikes, D.ReceiveFrom(st, n, note, 0, parts, bikes).value, product);
  }

  lemma NoteStepGoods(sys: System, op: NoteOp, product: nat)
    requires SystemSound(sys)
    ensures Accounted(Step(sys, Note(op)), product) == Accounted(sys, product) + Duplicated(sys, Note(op), product)
  {
    hide SystemSound;
    var r := ApplyNote(sys, op);
    if r.Ok? {
      match op
      case DraftNote(_, _, _, _) => DraftNoteGoods(sys, op, r.value, product);
      case CancelNote(n) => TotalUpdate(sys.notes, n, r.value.notes[n], OffShelfOf(product));
      case _ => MovedNoteGoods(sys, op, r.value, product);
    }
  }

  function SourceAndRow(): Move -> (Source, Key) { (m: Move) => (m.source, m.key) }

  /** Stocks in which every note has the same movements have the same goods moved by notes. */
  lemma SameNoteGoods(s: Stock, t: Stock, product: nat)
    requires NotesSpared(s, t)
    ensures Total(t.moves, D.NoteGoods(product)) == Total(s.moves, D.NoteGoods(product))
  {
    var column, all := D.NoteGoods(product), s.moves + t.moves;
    var tags := set i | 0 <= i < |all| && column(all[i]) != 0 :: SourceAndRow()(all[i]);
    forall i | 0 <= i < |s.moves| && column(s.moves[i]) != 0 ensures SourceAndRow()(s.moves[i]) in tags {
      assert all[i] == s.moves[i];
    }
    forall i | 0 <= i < |t.moves| && column(t.moves[i]) != 0 ensures SourceAndRow()(t.moves[i]) in tags {
      assert all[|s.moves| + i] == t.moves[i];
    }
    forall tag | tag in tags
      ensures Total(s.moves, Slot(column, SourceAndRow(), tag)) == Total(t.moves, Slot(column, SourceAndRow(), tag))
    {
      SlotIsNet(s, product, tag.0, tag.1);
      SlotIsNet(t, product, tag.0, tag.1);
      assert SameNet(s, t, OnNote(tag.0.note), tag.1);
    }
    SameByTag(s.moves, t.moves, column, SourceAndRow(), tags);
  }

  lemma SlotIsNet(s: Stock, product: nat, source: Source, key: Key)
    requires source.OnNote? && key.product == product
    ensures Total(s.moves, Slot(D.NoteGoods(product), SourceAndRow(), (source, key))) == Net(s, source, key)
  {
    TotalCongruent(s.moves, Slot(D.NoteGoods(product), SourceAndRow(), (source, key)), GoodsFrom(source, key));
  }

  /** A step that spares the notes changes the goods by exactly what it puts on the shelves. */
  lemma OtherStepGoods(sys: System, now: System, product: nat)
    requires NotesSpared(sys.stock, now.stock) && now.notes == sys.notes
    ensures Accounted(now, product) == Accounted(sys, product)
  {
    SameNoteGoods(sys.stock, now.stock, product);
    TotalAdd(sys.stock.moves, D.NoteGoods(product), D.OtherGoods(product), D.ProductGoods(product));
    TotalAdd(now.stock.moves, D.NoteGoods(product), D.OtherGoods(product), D.ProductGoods(product));
  }

  lemma InventoryStepGoods(sys: System, op: InventoryOp, now: System, product: nat)
    requires SystemSound(sys) && ApplyInventory(sys, op) == Ok(now)
    ensures Accounted(now, product) == Accounted(sys, product)
  {
    InventoryStepSound(sys, op, now);
    OtherStepGoods(sys, now, product);
  }

  lemma DeliveryStepGoods(sys: System, op: DeliveryOp, now: System, product: nat)
    requires SystemSound(sys) && ApplyDelivery(sys, op) == Ok(now)
    ensures Accounted(now, product) == Accounted(sys, product)
  {
    DeliveryStepSound(sys, op, now);
    OtherStepGoods(sys, now, product);
  }

  lemma LoanStepGoods(sys: System, op: LoanOp, now: System, product: nat)
    requires SystemSound(sys) && ApplyLoan(sys, op) == Ok(now)
    ensures Accounted(now, product) == Accounted(sys, product)
  {
    LoanStepSound(sys, op, now);
    OtherStepGoods(sys, now, product);
  }

  lemma RepairStepGoods(sys: System, op: RepairOp, now: System, product: nat)
    requires SystemSound(sys) && ApplyRepair(sys, op) == Ok(now)
    ensures Accounted(now, product) == Accounted(sys, product)
  {
    RepairStepSound(sys, op, now);
    OtherStepGoods(sys, now, product);
  }

  lemma ImportStepGoods(sys: System, op: ImportOp, now: System, product: nat)
    requires SystemSound(sys) && ApplyImport(sys, op) == Ok(now)
    ensures Accounted(now, product) == Accounted(sys, product)
  {
    ImportStepSound(sys, op, now);
    OtherStepGoods(sys, now, product);
  }

  /** Every step of every service: only a note received again makes goods that nothing accounts for. */
  lemma StepGoods(sys: System, op: Op, product: nat)
    requires SystemSound(sys)
    ensures Accounted(Step(sys, op), product) == Accounted(sys, product) + Duplicated(sys, op, product)
  {
    if op.Note? {
      NoteStepGoods(sys, op.note, product);
    } else if Apply(sys, op).Ok? {
      var now := Apply(sys, op).value;
      match op
      case Inventory(o) => InventoryStepGoods(sys, o, now, product);
      case Delivery(o) => DeliveryStepGoods(sys, o, now, product);
      case Loan(o) => LoanStepGoods(sys, o, now, product);
      case Repair(o) => RepairStepGoods(sys, o, now, product);
      case Import(o) => ImportStepGoods(sys, o, now, product);
    }
  }

  function TotalDuplicated(sys: System, ops: seq<Op>, product: nat): int {
    if |ops| == 0 then 0
    else TotalDuplicated(sys, ops[..|ops| - 1], product)
         + Duplicated(Run(sys, ops[..|ops| - 1]), ops[|ops| - 1], product)
  }

  /** No step of the run receives, of this product, a note that already has a received quantity on record. */
  predicate NeverReceivedAgain(sys: System, ops: seq<Op>, product: nat) {
    |ops| == 0
    || (NeverReceivedAgain(sys, ops[..|ops| - 1], product)
        && FirstReceipt(Run(sys, ops[..|ops| - 1]), ops[|ops| - 1], product))
  }

  predicate FirstReceipt(sys: System, op: Op, product: nat) {
    op.Note? && op.note.ReceiveNote? && ApplyNote(sys, op.note).Ok? && op.note.note < |sys.notes| ==>
      forall j :: 0 <= j < |sys.notes[op.note.note].lines| ==> D.ReceivedOf(product)(sys.notes[op.note.note].lines[j]) == 0
  }

  lemma {:induction false} GoodsAlong(sys: System, ops: seq<Op>, product: nat)
    requires SystemSound(sys)
    ensures Accounted(Run(sys, ops), product) == Accounted(sys, product) + TotalDuplicated(sys, ops, product)
    ensures TotalDuplicated(sys, ops, product) >= 0
    ensures TotalDuplicated(sys, ops, product) == 0 <==> NeverReceivedAgain(sys, ops, product)
  {
    if |ops| > 0 {
      var front, op := ops[..|ops| - 1], ops[|ops| - 1];
      GoodsAlong(sys, front, product);
      RunSound(sys, front);
      StepGoods(Run(sys, front), op, product);
      FirstReceiptMeaning(Run(sys, front), op, product);
    }
  }

  lemma FirstReceiptMeaning(sys: System, op: Op, product: nat)
    requires SystemSound(sys)
    ensures Duplicated(sys, op, product) >= 0
    ensures FirstReceipt(sys, op, product) <==> Duplicated(sys, op, product) == 0
  {
    if op.Note? && op.note.ReceiveNote? && ApplyNote(sys, op.note).Ok? && op.note.note < |sys.notes| {
      RecordedNonNegative(sys.notes[op.note.note], product);
    }
  }

  /**
   Over any run of all the services, and for each product: what is on every shelf, in transit and recorded
   missing or damaged changes by exactly the net goods of everything but dispatch notes, if and only if no
   note is received again after some of the product was recorded as received on it. Otherwise there is more.
   */
  lemma DispatchConservesGoodsIff(sys: System, ops: seq<Op>, later: System, product: nat)
    requires SystemSound(sys) && later == Run(sys, ops)
    ensures var others := D.Elsewhere(later.stock, product) - D.Elsewhere(sys.stock, product);
            && (Goods(later, product) == Goods(sys, product) + others <==> NeverReceivedAgain(sys, ops, product))
            && Goods(later, product) == Goods(sys, product) + others + TotalDuplicated(sys, ops, product)
            && TotalDuplicated(sys, ops, product) >= 0
  {
    GoodsAlong(sys, ops, product);
  }

  predicate OnlyNotes(ops: seq<Op>) { forall i :: 0 <= i < |ops| ==> ops[i].Note? }

  /** Dispatch steps put nothing on the shelves but through notes. */
  lemma {:induction false} OnlyNotesElsewhere(sys: System, ops: seq<Op>, product: nat)
    requires OnlyNotes(ops)
    ensures D.Elsewhere(Run(sys, ops).stock, product) == D.Elsewhere(sys.stock, product)
  {
    if |ops| > 0 {
      OnlyNotesElsewhere(sys, ops[..|ops| - 1], product);
      NoteStepElsewhere(Run(sys, ops[..|ops| - 1]), ops[|ops| - 1].note, product);
    }
  }

  lemma NoteStepElsewhere(sys: System, op: NoteOp, product: nat)
    ensures D.Elsewhere(Step(sys, Note(op)).stock, product) == D.Elsewhere(sys.stock, product)
  {
    var r := ApplyNote(sys, op);
    if r.Ok? && op.DispatchNote? {
      D.IssuePartsElsewhere(sys.stock, op.note, sys.notes[op.note], 0, r.value.stock, product);
    } else if r.Ok? && op.ReceiveNote? {
      var note := sys.notes[op.note];
      var st := D.State(sys.stock, sys.places, note.lines);
      var done := D.ReceiveFrom(st, op.note, note, 0, op.counted, op.confirmed).value;
      D.ReceiveFromElsewhere(st, op.note, note, 0, op.counted, op.confirmed, done, product);
    }
  }

  /** So over a run of dispatch steps alone the goods of a product are constant, under the same condition. */
  lemma DispatchAloneConservesIff(sys: System, ops: seq<Op>, later: System, product: nat)
    requires SystemSound(sys) && later == Run(sys, ops) && OnlyNotes(ops)
    ensures Goods(later, product) == Goods(sys, product) <==> NeverReceivedAgain(sys, ops, product)
  {
    DispatchConservesGoodsIff(sys, ops, later, product);
    OnlyNotesElsewhere(sys, ops, product);
  }

  // ---------------------------------------------------------------- import rollback

  predicate Unfinished(sys: System, job: nat) { job in sys.jobs && !sys.jobs[job].RolledBack? }

  /** Once a job has written to a row, nothing but its own rollback takes rows out of that row's ledger. */
  lemma RollbackKeepsLedger(sys: System, op: ImportOp, now: System, job: nat, key: Key, ledger: seq<Move>, first: Move)
    requires SystemSound(sys) && ApplyImport(sys, op) == Ok(now) && op.RollbackImport?
    requires Unfinished(sys, job) && ledger <= S.MovesAt(sys.stock.moves, key)
    requires first in ledger && S.FromJob(first, job)
    ensures Unfinished(now, job) ==> ledger <= S.MovesAt(now.stock.moves, key)
  {
    if op.job != job {
      assert first in S.MovesAt(sys.stock.moves, key);
      if key in S.Affected(sys.stock.moves, op.job) {
        S.OtherBlocksRollback(sys.stock, op.job, CreatedBy(sys, op.job), Named(sys), key, first);
      }
      S.RollbackRow(sys.stock, op.job, CreatedBy(sys, op.job), Named(sys), now.stock, key);
    }
  }

  /** A rolled-back job stays rolled back. */
  lemma JobForward(sys: System, op: ImportOp, now: System, job: nat)
    requires ApplyImport(sys, op) == Ok(now) && job in sys.jobs
    ensures job in now.jobs
    ensures (Unfinished(now, job) ==> Unfinished(sys, job))
  {
  }

  lemma StepJobs(sys: System, op: Op, job: nat)
    requires job in sys.jobs
    ensures job in Step(sys, op).jobs
    ensures (Unfinished(Step(sys, op), job) ==> Unfinished(sys, job))
  {
    if op.Import? && Apply(sys, op).Ok? {
      JobForward(sys, op.imports, Step(sys, op), job);
    }
  }

  lemma StepKeepsLedger(sys: System, op: Op, job: nat, key: Key, ledger: seq<Move>, first: Move)
    requires SystemSound(sys) && Unfinished(sys, job) && ledger <= S.MovesAt(sys.stock.moves, key)
    requires first in ledger && S.FromJob(first, job)
    ensures Unfinished(Step(sys, op), job) ==> ledger <= S.MovesAt(Step(sys, op).stock.moves, key)
  {
    var now := Step(sys, op);
    StepSound(sys, op);
    if sys.stock.moves <= now.stock.moves {
      S.MovesAtMonotone(sys.stock.moves, now.stock.moves, key);
    } else {
      RollbackKeepsLedger(sys, op.imports, now, job, key, ledger, first);
    }
  }

  lemma {:induction false} RunKeepsLedger(sys: System, ops: seq<Op>, job: nat, key: Key, ledger: seq<Move>, first: Move)
    requires SystemSound(sys) && Unfinished(sys, job) && ledger <= S.MovesAt(sys.stock.moves, key)
    requires first in ledger && S.FromJob(first, job)
    ensures job in Run(sys, ops).jobs
    ensures Unfinished(Run(sys, ops), job) ==> ledger <= S.MovesAt(Run(sys, ops).stock.moves, key)
  {
    if |ops| > 0 {
      var mid := Run(sys, ops[..|ops| - 1]);
      RunSound(sys, ops[..|ops| - 1]);
      RunKeepsLedger(sys, ops[..|ops| - 1], job, key, ledger, first);
      StepJobs(mid, ops[|ops| - 1], job);
      if Unfinished(mid, job) {
        StepKeepsLedger(mid, ops[|ops| - 1], job, key, ledger, first);
      }
    }
  }

  /**
   Rolling back an import restores every inventory row it wrote: take the state just before the job's
   first write to a row, let anything at all run after it, other imports and their rollbacks included;
   if the job's rollback is then accepted, the row's on-hand and its ledger are what they were.
   */
  lemma RollbackRestores(before: System, job: nat, key: Key, q: int, begun: System, ops: seq<Op>, later: System, after: System)
    requires SystemSound(before) && q > 0
    requires forall m :: m in S.MovesAt(before.stock.moves, key) ==> !S.FromJob(m, job)
    requires ApplyImport(before, ImportStock(job, key, q)) == Ok(begun)
    requires later == Run(begun, ops)
    requires ApplyImport(later, RollbackImport(job)) == Ok(after)
    ensures OnHand(after.stock, key) == OnHand(before.stock, key)
    ensures S.MovesAt(after.stock.moves, key) == S.MovesAt(before.stock.moves, key)
  {
    var first := Move(InitialImport, key, q, Imported(job));
    var ledger := S.MovesAt(before.stock.moves, key) + [first];
    ImportStepSound(before, ImportStock(job, key, q), begun);
    RunSound(begun, ops);
    assert begun.stock.moves == before.stock.moves + [first];
    assert S.MovesAt(begun.stock.moves, key) == ledger;
    assert ledger[|ledger| - 1] == first;
    RunKeepsLedger(begun, ops, job, key, ledger, first);
    RolledBackRow(before.stock, later, job, after, key, first);
  }

  lemma RolledBackRow(before: Stock, later: System, job: nat, after: System, key: Key, first: Move)
    requires StockSound(before) && SystemSound(later)
    requires forall m :: m in S.MovesAt(before.moves, key) ==> !S.FromJob(m, job)
    requires S.FromJob(first, job) && first.key == key
    requires Unfinished(later, job) ==> S.MovesAt(before.moves, key) + [first] <= S.MovesAt(later.stock.moves, key)
    requires ApplyImport(later, RollbackImport(job)) == Ok(after)
    ensures OnHand(after.stock, key) == OnHand(before, key)
    ensures S.MovesAt(after.stock.moves, key) == S.MovesAt(before.moves, key)
  {
    S.RollbackInverse(before, later.stock, job, CreatedBy(later, job), Named(later), after.stock, key, first);
  }
}
