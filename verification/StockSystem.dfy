/**
 The inventory and every service that moves it, as one machine: consignments, loans, dispatch notes,
 repairs, imports and plain receipts, issues and transfers, on shared products and warehouses. A step
 is one service call; a refused call changes nothing.
 */
module StockSystem {
  import opened Common
  import opened Stock
  import C = Consignment
  import I = Issuance
  import D = Dispatch
  import B = BikeIssues
  import S = ImportStock

  datatype JobStatus = Running | Completed | RolledBack

  datatype System = System(
    stock: Stock,
    deliveries: seq<C.Delivery>,
    loans: seq<I.Loan>,
    notes: seq<D.Note>,
    places: D.Places,
    repairs: seq<B.Issue>,
    units: B.Units,
    jobs: map<nat, JobStatus>,
    created: map<nat, nat>)

  datatype InventoryOp =
    | AddWarehouse(warehouse: nat)
    | AddProduct(product: nat)
    | AddUnit(unit: nat, at: Option<nat>, status: B.UnitStatus)
    | ReceiveStock(key: Key, quantity: int)
    | IssueStock(key: Key, quantity: int)
    | TransferStock(product: nat, from: nat, to: nat, quantity: int)

  datatype DeliveryOp =
    | DraftDelivery(mode: C.Mode, warehouse: nat, parts: seq<(nat, int)>, bikes: seq<nat>)
    | Deliver(delivery: nat)
    | Settle(delivery: nat, settled: map<nat, C.PartReport>, outcomes: map<nat, C.BikeReport>)
    | CancelDelivery(delivery: nat)

  datatype LoanPart = LoanPart(product: nat, qty: int, returnable: bool, consumable: bool)

  datatype LoanOp =
    | DraftLoan(warehouse: nat, parts: seq<LoanPart>, bikes: seq<nat>)
    | IssueLoan(loan: nat)
    | ReturnItems(loan: nat, returned: map<nat, int>, back: set<nat>)
    | CancelLoan(loan: nat)

  datatype NoteOp =
    | DraftNote(from: nat, to: nat, parts: seq<(nat, int)>, bikes: seq<nat>)
    | DispatchNote(note: nat)
    | ReceiveNote(note: nat, counted: map<nat, D.PartReport>, confirmed: map<nat, bool>)
    | CancelNote(note: nat)

  datatype RepairOp =
    | OpenRepair(unit: nat, lines: seq<B.Line>)
    | AddRepairLine(repair: nat, line: B.Line)
    | RemoveRepairLine(repair: nat, index: nat)
    | SetRepairStatus(repair: nat, status: B.Status)
    | ResolveRepair(repair: nat, extra: seq<B.Line>)

  datatype ImportOp =
    | StartImport(job: nat)
    | ImportProduct(job: nat, product: nat)
    | ImportStock(job: nat, key: Key, quantity: int)
    | FinishImport(job: nat)
    | RollbackImport(job: nat)

  datatype Op =
    | Inventory(inventory: InventoryOp) | Delivery(delivery: DeliveryOp) | Loan(loan: LoanOp)
    | Note(note: NoteOp) | Repair(repair: RepairOp) | Import(imports: ImportOp)

  function EmptySystem(): System {
    System(EmptyStock(), [], [], [], map[], [], map[], map[], map[])
  }

  // ---------------------------------------------------------------- steps, service by service

  function ApplyInventory(sys: System, op: InventoryOp): Outcome<System, Error> {
    var s := sys.stock;
    match op
    case AddWarehouse(w) => Ok(sys.(stock := s.(warehouses := s.warehouses + {w})))
    case AddProduct(p) => Ok(sys.(stock := s.(products := s.products + {p})))
    case AddUnit(unit, at, status) =>
      if unit in sys.units || unit in sys.places then Err(Duplicated)
      else Ok(sys.(units := sys.units[unit := status], places := sys.places[unit := at]))
    case ReceiveStock(key, q) =>
      if q <= 0 then Err(NotPositive) else var t :- Receive(s, key, q, Manual); Ok(sys.(stock := t))
    case IssueStock(key, q) =>
      if q <= 0 then Err(NotPositive) else var t :- IssueGoods(s, key, q, Manual); Ok(sys.(stock := t))
    case TransferStock(p, from, to, q) =>
      if q <= 0 then Err(NotPositive) else var t :- TransferGoods(s, p, from, to, q); Ok(sys.(stock := t))
  }

  /** The checks shared by new documents: known warehouse and products, positive quantities, unsold units. */
  function CheckLines(sys: System, warehouse: nat, parts: seq<(nat, int)>, bikes: seq<nat>): Option<Error> {
    if warehouse !in sys.stock.warehouses then Some(NotFound)
    else if exists i :: 0 <= i < |parts| && parts[i].1 <= 0 then Some(NotPositive)
    else if exists i :: 0 <= i < |parts| && parts[i].0 !in sys.stock.products then Some(NotFound)
    else if exists i :: 0 <= i < |bikes| && bikes[i] !in sys.units then Some(NotFound)
    else if exists i :: 0 <= i < |bikes| && bikes[i] in sys.units && sys.units[bikes[i]].Sold? then Some(UnitUnavailable)
    else None
  }

  function DeliveryLines(parts: seq<(nat, int)>, bikes: seq<nat>): seq<C.Line> {
    seq(|parts|, i requires 0 <= i < |parts| => C.Line(true, parts[i].0, parts[i].1, 0, 0))
    + seq(|bikes|, i requires 0 <= i < |bikes| => C.Line(false, bikes[i], 1, 0, 0))
  }

  function ApplyDelivery(sys: System, op: DeliveryOp): Outcome<System, Error> {
    if op.DraftDelivery? then
      match CheckLines(sys, op.warehouse, op.parts, op.bikes)
      case Some(error) => Err(error)
      case None =>
        Ok(sys.(deliveries := sys.deliveries + [C.Delivery(op.mode, C.Draft, op.warehouse, DeliveryLines(op.parts, op.bikes))]))
    else if op.delivery >= |sys.deliveries| then Err(NotFound)
    else
      var n, d := op.delivery, sys.deliveries[op.delivery];
      match op
      case Deliver(_) =>
        var r :- C.Deliver(sys.stock, n, d);
        Ok(sys.(stock := r.0, deliveries := sys.deliveries[n := r.1]))
      case Settle(_, parts, bikes) =>
        var r :- C.Settle(sys.stock, n, d, parts, bikes);
        Ok(sys.(stock := r.0, deliveries := sys.deliveries[n := r.1]))
      case CancelDelivery(_) =>
        var r :- C.Cancel(d);
        Ok(sys.(deliveries := sys.deliveries[n := r]))
  }

  /** A consumable is never returnable; a motorcycle always is. */
  function LoanLines(parts: seq<LoanPart>, bikes: seq<nat>): seq<I.Line> {
    seq(|parts|, i requires 0 <= i < |parts| =>
      I.Line(true, parts[i].product, parts[i].qty, parts[i].returnable && !parts[i].consumable, parts[i].consumable, 0, 0, false))
    + seq(|bikes|, i requires 0 <= i < |bikes| => I.Line(false, bikes[i], 1, true, false, 0, 0, false))
  }

  function Quantities(parts: seq<LoanPart>): seq<(nat, int)> {
    seq(|parts|, i requires 0 <= i < |parts| => (parts[i].product, parts[i].qty))
  }

  function ApplyLoan(sys: System, op: LoanOp): Outcome<System, Error> {
    if op.DraftLoan? then
      match CheckLines(sys, op.warehouse, Quantities(op.parts), op.bikes)
      case Some(error) => Err(error)
      case None => Ok(sys.(loans := sys.loans + [I.Loan(I.Draft, op.warehouse, LoanLines(op.parts, op.bikes))]))
    else if op.loan >= |sys.loans| then Err(NotFound)
    else
      var n, loan := op.loan, sys.loans[op.loan];
      match op
      case IssueLoan(_) =>
        var r :- I.IssueLoan(sys.stock, n, loan);
        Ok(sys.(stock := r.0, loans := sys.loans[n := r.1]))
      case ReturnItems(_, parts, bikes) =>
        var r :- I.ReturnItems(sys.stock, n, loan, parts, bikes);
        Ok(sys.(stock := r.0, loans := sys.loans[n := r.1]))
      case CancelLoan(_) =>
        var r :- I.Cancel(loan);
        Ok(sys.(loans := sys.loans[n := r]))
  }

  function SoldUnits(units: B.Units): set<nat> { set u | u in units && units[u].Sold? }

  function ApplyNote(sys: System, op: NoteOp): Outcome<System, Error> {
    if op.DraftNote? then
      if exists i :: 0 <= i < |op.parts| && op.parts[i].1 <= 0 then Err(NotPositive)
      else
        var note :- D.Create(sys.stock, sys.notes, sys.places, SoldUnits(sys.units), op.from, op.to, op.parts, op.bikes);
        Ok(sys.(notes := sys.notes + [note]))
    else if op.note >= |sys.notes| then Err(NotFound)
    else
      var n, note := op.note, sys.notes[op.note];
      match op
      case DispatchNote(_) =>
        var r :- D.DispatchNote(sys.stock, sys.places, n, note);
        Ok(sys.(stock := r.0, places := r.1, notes := sys.notes[n := r.2]))
      case ReceiveNote(_, parts, bikes) =>
        var r :- D.ReceiveNote(sys.stock, sys.places, n, note, parts, bikes);
        Ok(sys.(stock := r.0, places := r.1, notes := sys.notes[n := r.2]))
      case CancelNote(_) =>
        var r :- D.CancelNote(note);
        Ok(sys.(notes := sys.notes[n := r]))
  }

  predicate AllPositive(lines: seq<B.Line>) { forall i :: 0 <= i < |lines| ==> lines[i].qty > 0 }

  function ApplyRepair(sys: System, op: RepairOp): Outcome<System, Error> {
    if op.OpenRepair? then
      if !AllPositive(op.lines) then Err(NotPositive)
      else
        var r :- B.OpenIssue(sys.stock, sys.units, op.unit, op.lines);
        Ok(sys.(units := r.0, repairs := sys.repairs + [r.1]))
    else if op.repair >= |sys.repairs| then Err(NotFound)
    else
      var n, issue := op.repair, sys.repairs[op.repair];
      match op
      case AddRepairLine(_, line) =>
        if line.qty <= 0 then Err(NotPositive)
        else var r :- B.AddLine(sys.stock, issue, line); Ok(sys.(repairs := sys.repairs[n := r]))
      case RemoveRepairLine(_, line) =>
        var r :- B.RemoveLine(issue, line); Ok(sys.(repairs := sys.repairs[n := r]))
      case SetRepairStatus(_, status) =>
        var r :- B.SetStatus(issue, status); Ok(sys.(repairs := sys.repairs[n := r]))
      case ResolveRepair(_, extra) =>
        if !AllPositive(extra) then Err(NotPositive)
        else
          var r :- B.Resolve(sys.stock, sys.units, n, issue, extra);
          Ok(sys.(stock := r.0, units := r.1, repairs := sys.repairs[n := r.2]))
  }

  predicate HasStatus(sys: System, job: nat, status: JobStatus) { job in sys.jobs && sys.jobs[job] == status }

  function CreatedBy(sys: System, job: nat): set<nat> { set p | p in sys.created && sys.created[p] == job }

  /** The products that some document names; the database refuses to delete those. */
  function Named(sys: System): set<nat> {
    (set d, j | 0 <= d < |sys.deliveries| && 0 <= j < |sys.deliveries[d].lines| && sys.deliveries[d].lines[j].isPart
                :: sys.deliveries[d].lines[j].item)
    + (set d, j | 0 <= d < |sys.loans| && 0 <= j < |sys.loans[d].lines| && sys.loans[d].lines[j].isPart
                :: sys.loans[d].lines[j].item)
    + (set d, j | 0 <= d < |sys.notes| && 0 <= j < |sys.notes[d].lines| && sys.notes[d].lines[j].isPart
                :: sys.notes[d].lines[j].item)
    + (set d, j | 0 <= d < |sys.repairs| && 0 <= j < |sys.repairs[d].lines| :: sys.repairs[d].lines[j].product)
  }

  function ApplyImport(sys: System, op: ImportOp): Outcome<System, Error> {
    var s := sys.stock;
    match op
    case StartImport(job) =>
      if job in sys.jobs then Err(Duplicated) else Ok(sys.(jobs := sys.jobs[job := Running]))
    case ImportProduct(job, product) =>
      if !HasStatus(sys, job, Running) then Err(WrongStatus)
      else if product in s.products then Ok(sys)
      else Ok(sys.(stock := s.(products := s.products + {product}), created := sys.created[product := job]))
    case ImportStock(job, key, q) =>
      if !HasStatus(sys, job, Running) then Err(WrongStatus)
      else if q <= 0 then Ok(sys)
      else if key.product !in s.products || key.warehouse !in s.warehouses then Err(NotFound)
      else Ok(sys.(stock := S.SetInitialStock(s, job, key, q)))
    case FinishImport(job) =>
      if !HasStatus(sys, job, Running) then Err(WrongStatus) else Ok(sys.(jobs := sys.jobs[job := Completed]))
    case RollbackImport(job) =>
      if !HasStatus(sys, job, Completed) then Err(WrongStatus)
      else
        var t :- S.Rollback(s, job, CreatedBy(sys, job), Named(sys));
        Ok(sys.(stock := t, jobs := sys.jobs[job := RolledBack], created := sys.created - CreatedBy(sys, job)))
  }

  function Apply(sys: System, op: Op): Outcome<System, Error> {
    match op
    case Inventory(o) => ApplyInventory(sys, o)
    case Delivery(o) => ApplyDelivery(sys, o)
    case Loan(o) => ApplyLoan(sys, o)
    case Note(o) => ApplyNote(sys, o)
    case Repair(o) => ApplyRepair(sys, o)
    case Import(o) => ApplyImport(sys, o)
  }

  function Step(sys: System, op: Op): System {
    var r := Apply(sys, op);
    if r.Ok? then r.value else sys
  }

  function Run(sys: System, ops: seq<Op>): System {
    if |ops| == 0 then sys else Step(Run(sys, ops[..|ops| - 1]), ops[|ops| - 1])
  }

  // ---------------------------------------------------------------- the invariant

  function DeliveryAt(sys: System, id: nat): C.Delivery {
    if id < |sys.deliveries| then sys.deliveries[id] else C.Delivery(C.SaleMode, C.Draft, 0, [])
  }

  function LoanAt(sys: System, id: nat): I.Loan {
    if id < |sys.loans| then sys.loans[id] else I.Loan(I.Draft, 0, [])
  }

  function RepairAt(sys: System, id: nat): B.Issue {
    if id < |sys.repairs| then sys.repairs[id] else B.Issue(B.Open, 0, B.Assembled, [])
  }

  ghost predicate DeliverySound(sys: System, id: nat) { C.Sound(sys.stock, id, DeliveryAt(sys, id)) }

  ghost predicate LoanSound(sys: System, id: nat) { I.Sound(sys.stock, id, LoanAt(sys, id)) }

  ghost predicate RepairSound(sys: System, id: nat) { B.Sound(sys.stock, id, RepairAt(sys, id)) }

  ghost predicate Undamaged(s: Stock) { forall key :: Damaged(s, key) == 0 }

  /** Every document agrees with the stock about what it holds and what it has deducted. */
  ghost predicate DocumentsSound(sys: System) {
    && (forall id: nat :: DeliverySound(sys, id))
    && (forall id: nat :: LoanSound(sys, id))
    && (forall id: nat :: RepairSound(sys, id))
  }

  ghost predicate NotesSound(sys: System) {
    && (forall n :: 0 <= n < |sys.notes| ==> D.LinesSound(sys.notes[n]))
    && D.BikesSound(sys.notes, sys.places)
  }

  ghost predicate SystemSound(sys: System) {
    && StockSound(sys.stock)
    && Undamaged(sys.stock)
    && DocumentsSound(sys)
    && NotesSound(sys)
    && B.UnitsHeld(sys.units, sys.repairs)
  }

  // ---------------------------------------------------------------- frames

  lemma DeliveryUntouched(s: Stock, t: Stock, owner: Owner, id: nat, d: C.Delivery)
    requires Spares(s, t, owner) && owner != DeliveryDoc(id) && C.Sound(s, id, d)
    ensures C.Sound(t, id, d)
  {
    var n := if C.Dispatched(d) then |d.lines| else 0;
    forall j: nat, key ensures C.Agrees(t, id, d.warehouse, d.lines, n, j, key) {
      assert C.Agrees(s, id, d.warehouse, d.lines, n, j, key);
      assert LineOwner(ConsignmentLine(id, j)) == DeliveryDoc(id);
      assert SourceOwner(ConsignmentSale(ConsignmentLine(id, j))) == DeliveryDoc(id);
      assert SameNet(s, t, ConsignmentSale(ConsignmentLine(id, j)), key);
    }
  }

  lemma LoanUntouched(s: Stock, t: Stock, owner: Owner, id: nat, loan: I.Loan)
    requires Spares(s, t, owner) && owner != IssuanceDoc(id) && I.Sound(s, id, loan)
    ensures I.Sound(t, id, loan)
  {
    var n := if I.Issued(loan) then |loan.lines| else 0;
    forall j: nat, key ensures I.Agrees(t, id, loan.warehouse, loan.lines, n, j, key) {
      assert I.Agrees(s, id, loan.warehouse, loan.lines, n, j, key);
      assert LineOwner(LoanLine(id, j)) == IssuanceDoc(id);
      assert SourceOwner(IssuanceLoss(LoanLine(id, j))) == IssuanceDoc(id);
      assert SameNet(s, t, IssuanceLoss(LoanLine(id, j)), key);
    }
    forall key ensures I.HandedAgrees(t, id, loan.warehouse, loan.lines, n, key) {
      assert I.HandedAgrees(s, id, loan.warehouse, loan.lines, n, key);
      assert SourceOwner(Handed(id)) == IssuanceDoc(id);
      assert SameNet(s, t, Handed(id), key);
    }
  }

  lemma RepairUntouched(s: Stock, t: Stock, owner: Owner, id: nat, issue: B.Issue)
    requires Spares(s, t, owner) && owner != IssueDoc(id) && B.Sound(s, id, issue)
    ensures B.Sound(t, id, issue)
  {
    forall key ensures B.Agrees(t, id, issue, key) {
      assert B.Agrees(s, id, issue, key);
      assert SourceOwner(BikeRepair(id)) == IssueDoc(id);
      assert SameNet(s, t, BikeRepair(id), key);
    }
  }

  predicate SameDocuments(sys: System, now: System, id: nat, owner: Owner) {
    && (owner != DeliveryDoc(id) ==> DeliveryAt(now, id) == DeliveryAt(sys, id))
    && (owner != IssuanceDoc(id) ==> LoanAt(now, id) == LoanAt(sys, id))
    && (owner != IssueDoc(id) ==> RepairAt(now, id) == RepairAt(sys, id))
  }

  /** A step for one document: only that document is rewritten, and it still agrees with the stock. */
  ghost predicate StepFor(sys: System, now: System, owner: Owner) {
    && Spares(sys.stock, now.stock, owner)
    && (forall id: nat :: SameDocuments(sys, now, id, owner))
    && match owner
       case DeliveryDoc(id) => DeliverySound(now, id)
       case IssuanceDoc(id) => LoanSound(now, id)
       case IssueDoc(id) => RepairSound(now, id)
       case _ => true
  }

  /** ... and then every other document still agrees with it too. */
  lemma StepForSound(sys: System, now: System, owner: Owner)
    requires DocumentsSound(sys) && StepFor(sys, now, owner)
    ensures DocumentsSound(now)
    ensures !owner.NoteDoc? ==> NotesSpared(sys.stock, now.stock)
  {
    if !owner.NoteDoc? { OthersSpareNotes(sys.stock, now.stock, owner); }
    forall id: nat ensures DeliverySound(now, id) {
      assert DeliverySound(sys, id) && SameDocuments(sys, now, id, owner);
      if owner != DeliveryDoc(id) { DeliveryUntouched(sys.stock, now.stock, owner, id, DeliveryAt(sys, id)); }
    }
    forall id: nat ensures LoanSound(now, id) {
      assert LoanSound(sys, id) && SameDocuments(sys, now, id, owner);
      if owner != IssuanceDoc(id) { LoanUntouched(sys.stock, now.stock, owner, id, LoanAt(sys, id)); }
    }
    forall id: nat ensures RepairSound(now, id) {
      assert RepairSound(sys, id) && SameDocuments(sys, now, id, owner);
      if owner != IssueDoc(id) { RepairUntouched(sys.stock, now.stock, owner, id, RepairAt(sys, id)); }
    }
  }

  // ---------------------------------------------------------------- every step keeps the invariant

  /** A change to the catalogue alone. */
  lemma CatalogueSound(s: Stock, t: Stock)
    requires StockSound(s) && Undamaged(s)
    requires t.rows == s.rows && t.moves == s.moves && t.holds == s.holds
    ensures StockSound(t) && Undamaged(t) && forall owner :: Spares(s, t, owner)
  {
    forall key ensures RowSound(t, key) && Damaged(t, key) == 0 { assert RowSound(s, key) && Damaged(s, key) == 0; }
    forall i: nat, j: nat ensures HoldSound(t, i, j) { assert HoldSound(s, i, j); }
    forall i: nat ensures TagSound(t, i) { assert TagSound(s, i); }
  }

  lemma AddUnitSound(sys: System, unit: nat, at: Option<nat>, status: B.UnitStatus)
    requires SystemSound(sys) && unit !in sys.units && unit !in sys.places
    ensures NotesSound(sys.(units := sys.units[unit := status], places := sys.places[unit := at]))
    ensures B.UnitsHeld(sys.units[unit := status], sys.repairs)
  {
    var places := sys.places[unit := at];
    forall n: nat, i: nat ensures D.BikeSound(sys.notes, places, n, i) {
      assert D.BikeSound(sys.notes, sys.places, n, i);
    }
    forall i | 0 <= i < |sys.repairs| ensures B.Holds(sys.units[unit := status], sys.repairs[i]) {
      assert B.Holds(sys.units, sys.repairs[i]);
    }
  }

  lemma InventoryStepSound(sys: System, op: InventoryOp, now: System)
    requires SystemSound(sys) && ApplyInventory(sys, op) == Ok(now)
    ensures SystemSound(now)
    ensures sys.stock.moves <= now.stock.moves
    ensures NotesSpared(sys.stock, now.stock)
  {
    hide StockSound, Effect;
    var s, t := sys.stock, now.stock;
    match op
    case AddWarehouse(_) => CatalogueSound(s, t); StepForSound(sys, now, NoOne);
    case AddProduct(_) => CatalogueSound(s, t); StepForSound(sys, now, NoOne);
    case AddUnit(unit, at, status) =>
      AddUnitSound(sys, unit, at, status);
      CatalogueSound(s, t);
      StepForSound(sys, now, NoOne);
    case ReceiveStock(key, q) =>
      ReceiveSound(s, key, q, Manual, t);
      EffectOnlyFor(s, t, key, q, Manual, None, 0, NoOne);
      StepForSound(sys, now, NoOne);
    case IssueStock(key, q) =>
      IssueSound(s, key, q, Manual, t);
      EffectOnlyFor(s, t, key, -q, Manual, None, 0, NoOne);
      StepForSound(sys, now, NoOne);
    case TransferStock(p, from, to, q) =>
      TransferSound(s, p, from, to, q, t);
      StepForSound(sys, now, NoOne);
  }

  lemma DraftDeliverySound(sys: System, mode: C.Mode, warehouse: nat, parts: seq<(nat, int)>, bikes: seq<nat>)
    requires SystemSound(sys) && CheckLines(sys, warehouse, parts, bikes).None?
    ensures C.Sound(sys.stock, |sys.deliveries|, C.Delivery(mode, C.Draft, warehouse, DeliveryLines(parts, bikes)))
  {
    var d := C.Delivery(mode, C.Draft, warehouse, DeliveryLines(parts, bikes));
    var id := |sys.deliveries|;
    assert DeliverySound(sys, id);
    forall j: nat, key ensures C.Agrees(sys.stock, id, warehouse, d.lines, 0, j, key) {
      assert C.Agrees(sys.stock, id, DeliveryAt(sys, id).warehouse, [], 0, j, key);
    }
  }

  lemma DeliveryStepSound(sys: System, op: DeliveryOp, now: System)
    requires SystemSound(sys) && ApplyDelivery(sys, op) == Ok(now)
    ensures SystemSound(now)
    ensures sys.stock.moves <= now.stock.moves
    ensures NotesSpared(sys.stock, now.stock)
  {
    if op.DraftDelivery? {
      DraftDeliverySound(sys, op.mode, op.warehouse, op.parts, op.bikes);
      StepForSound(sys, now, DeliveryDoc(|sys.deliveries|));
    } else {
      var n, d := op.delivery, sys.deliveries[op.delivery];
      assert DeliverySound(sys, n);
      match op {
        case Deliver(_) => C.DeliverSound(sys.stock, n, d, now.stock, now.deliveries[n]);
        case Settle(_, parts, bikes) => C.SettleSound(sys.stock, n, d, parts, bikes);
        case CancelDelivery(_) => CancelledSound(sys.stock, n, d);
      }
      StepForSound(sys, now, DeliveryDoc(n));
    }
  }

  lemma CancelledSound(s: Stock, id: nat, d: C.Delivery)
    requires C.Sound(s, id, d) && d.status.Draft?
    ensures C.Sound(s, id, d.(status := C.Cancelled))
    ensures Spares(s, s, DeliveryDoc(id))
  {
  }

  lemma DraftLoanSound(sys: System, warehouse: nat, parts: seq<LoanPart>, bikes: seq<nat>)
    requires SystemSound(sys) && CheckLines(sys, warehouse, Quantities(parts), bikes).None?
    ensures I.Sound(sys.stock, |sys.loans|, I.Loan(I.Draft, warehouse, LoanLines(parts, bikes)))
  {
    var loan := I.Loan(I.Draft, warehouse, LoanLines(parts, bikes));
    var id := |sys.loans|;
    assert LoanSound(sys, id);
    forall i | 0 <= i < |parts| ensures parts[i].qty > 0 {
      assert Quantities(parts)[i].1 > 0;
    }
    forall j: nat, key ensures I.Agrees(sys.stock, id, warehouse, loan.lines, 0, j, key) {
      assert I.Agrees(sys.stock, id, LoanAt(sys, id).warehouse, [], 0, j, key);
    }
    forall key ensures I.HandedAgrees(sys.stock, id, warehouse, loan.lines, 0, key) {
      assert I.HandedAgrees(sys.stock, id, LoanAt(sys, id).warehouse, [], 0, key);
    }
  }

  lemma LoanStepSound(sys: System, op: LoanOp, now: System)
    requires SystemSound(sys) && ApplyLoan(sys, op) == Ok(now)
    ensures SystemSound(now)
    ensures sys.stock.moves <= now.stock.moves
    ensures NotesSpared(sys.stock, now.stock)
  {
    if op.DraftLoan? {
      DraftLoanSound(sys, op.warehouse, op.parts, op.bikes);
      StepForSound(sys, now, IssuanceDoc(|sys.loans|));
    } else {
      var n, loan := op.loan, sys.loans[op.loan];
      assert LoanSound(sys, n);
      match op {
        case IssueLoan(_) => I.IssueLoanSound(sys.stock, n, loan, now.stock, now.loans[n]);
        case ReturnItems(_, parts, bikes) => I.ReturnSound(sys.stock, n, loan, parts, bikes);
        case CancelLoan(_) => CancelledLoanSound(sys.stock, n, loan);
      }
      StepForSound(sys, now, IssuanceDoc(n));
    }
  }

  lemma CancelledLoanSound(s: Stock, id: nat, loan: I.Loan)
    requires I.Sound(s, id, loan) && loan.status.Draft?
    ensures I.Sound(s, id, loan.(status := I.Cancelled))
    ensures Spares(s, s, IssuanceDoc(id))
  {
  }

  lemma CancelledNoteSound(notes: seq<D.Note>, places: D.Places, n: nat, after: D.Note)
    requires n < |notes| && D.BikesSound(notes, places) && D.LinesSound(notes[n]) && D.CancelNote(notes[n]) == Ok(after)
    ensures D.BikesSound(notes[n := after], places)
    ensures D.LinesSound(after)
  {
    var now := notes[n := after];
    forall m: nat, i: nat ensures D.BikeSound(now, places, m, i) {
      assert D.BikeSound(notes, places, m, i);
    }
    forall a: nat, i: nat, b: nat, j: nat ensures D.Apart(now, a, i, b, j) {
      assert D.Apart(notes, a, i, b, j);
    }
    forall i | 0 <= i < |after.lines| ensures D.LineSound(after.status, after.lines[i]) {
      assert D.LineSound(notes[n].status, notes[n].lines[i]);
    }
  }

  lemma NoteStepSound(sys: System, op: NoteOp, now: System)
    requires SystemSound(sys) && ApplyNote(sys, op) == Ok(now)
    ensures SystemSound(now)
    ensures sys.stock.moves <= now.stock.moves
  {
    if op.DraftNote? {
      D.CreateSound(sys.stock, sys.notes, sys.places, SoldUnits(sys.units), op.from, op.to, op.parts, op.bikes, now.notes[|sys.notes|]);
      StepForSound(sys, now, NoteDoc(|sys.notes|));
    } else {
      var n, note := op.note, sys.notes[op.note];
      match op {
        case DispatchNote(_) =>
          D.DispatchConserves(sys.stock, sys.places, n, note, now.stock, now.places, now.notes[n]);
          D.DispatchBikes(sys.stock, sys.notes, sys.places, n, now.stock, now.places, now.notes[n]);
        case ReceiveNote(_, parts, bikes) =>
          D.ReceiveExcess(sys.stock, sys.places, n, note, parts, bikes, now.stock, now.places, now.notes[n]);
          D.ReceiveBikes(sys.stock, sys.notes, sys.places, n, parts, bikes, now.stock, now.places, now.notes[n]);
        case CancelNote(_) => CancelledNoteSound(sys.notes, sys.places, n, now.notes[n]);
      }
      StepForSound(sys, now, NoteDoc(n));
    }
  }

  lemma RepairStepSound(sys: System, op: RepairOp, now: System)
    requires SystemSound(sys) && ApplyRepair(sys, op) == Ok(now)
    ensures SystemSound(now)
    ensures sys.stock.moves <= now.stock.moves
    ensures NotesSpared(sys.stock, now.stock)
  {
    if op.OpenRepair? {
      var n := |sys.repairs|;
      assert RepairSound(sys, n);
      forall key ensures Net(sys.stock, BikeRepair(n), key) == 0 {
        assert B.Agrees(sys.stock, n, RepairAt(sys, n), key);
      }
      B.OpenSound(sys.stock, sys.units, sys.repairs, op.unit, op.lines, now.units, now.repairs[n]);
      StepForSound(sys, now, IssueDoc(n));
    } else {
      var n, issue := op.repair, sys.repairs[op.repair];
      assert RepairSound(sys, n);
      if op.ResolveRepair? {
        B.ResolveSound(sys.stock, sys.units, sys.repairs, n, op.extra);
      } else {
        EditedRepair(sys, op, now);
      }
      StepForSound(sys, now, IssueDoc(n));
    }
  }

  /** An edit that is accepted is of an active issue: it moves no stock and no unit. */
  lemma EditedRepair(sys: System, op: RepairOp, now: System)
    requires SystemSound(sys) && ApplyRepair(sys, op) == Ok(now) && !op.OpenRepair? && !op.ResolveRepair?
    ensures now.stock == sys.stock
    ensures now.units == sys.units
    ensures now == sys.(repairs := now.repairs)
    ensures op.repair < |now.repairs| == |sys.repairs|
    ensures now.repairs == sys.repairs[op.repair := now.repairs[op.repair]]
    ensures RepairSound(now, op.repair)
    ensures B.UnitsHeld(now.units, now.repairs)
  {
    var n := op.repair;
    assert RepairSound(sys, n);
    B.EditSound(sys.stock, sys.units, sys.repairs, n, now.repairs[n]);
  }

  /** Starting and finishing a job, and importing a product, touch the catalogue and the job record alone. */
  lemma ImportRecordSound(sys: System, op: ImportOp, now: System)
    requires SystemSound(sys) && ApplyImport(sys, op) == Ok(now) && !op.ImportStock? && !op.RollbackImport?
    ensures SystemSound(now)
    ensures sys.stock.moves <= now.stock.moves
    ensures NotesSpared(sys.stock, now.stock)
  {
    CatalogueSound(sys.stock, now.stock);
    StepForSound(sys, now, NoOne);
  }

  lemma ImportStepSound(sys: System, op: ImportOp, now: System)
    requires SystemSound(sys) && ApplyImport(sys, op) == Ok(now)
    ensures SystemSound(now)
    ensures op.RollbackImport? || sys.stock.moves <= now.stock.moves
    ensures NotesSpared(sys.stock, now.stock)
  {
    var s, t := sys.stock, now.stock;
    match op
    case ImportStock(job, key, q) =>
      if q > 0 { InitialStockSound(s, job, key, q, t); }
      StepForSound(sys, now, JobDoc(job));
    case RollbackImport(job) =>
      RolledBackSound(s, job, CreatedBy(sys, job), Named(sys), t);
      StepForSound(sys, now, JobDoc(job));
    case _ => ImportRecordSound(sys, op, now);
  }

  lemma InitialStockSound(s: Stock, job: nat, key: Key, q: int, t: Stock)
    requires StockSound(s) && Undamaged(s) && q > 0 && t == S.SetInitialStock(s, job, key, q)
    ensures StockSound(t)
    ensures Undamaged(t)
    ensures OnlyFor(s, t, JobDoc(job))
  {
    assert RowSound(s, key);
    WriteSoundIff(s, InitialImport, key, q, Imported(job));
    EffectOnlyFor(s, t, key, q, Imported(job), None, 0, JobDoc(job));
  }

  lemma RolledBackSound(s: Stock, job: nat, created: set<nat>, referenced: set<nat>, t: Stock)
    requires StockSound(s) && Undamaged(s) && S.Rollback(s, job, created, referenced) == Ok(t)
    ensures StockSound(t) && Undamaged(t) && Spares(s, t, JobDoc(job))
  {
    S.RollbackSoundIff(s, job, created, referenced, t);
    forall key ensures Damaged(t, key) == 0 {
      assert Damaged(s, key) == 0;
      S.RollbackRow(s, job, created, referenced, t, key);
    }
  }

  /**
   Every service call, successful or refused, keeps the whole invariant, and only a rollback ever takes
   rows out of the movement ledger.
   */
  lemma StepSound(sys: System, op: Op)
    requires SystemSound(sys)
    ensures SystemSound(Step(sys, op))
    ensures (op.Import? && op.imports.RollbackImport?) || sys.stock.moves <= Step(sys, op).stock.moves
  {
    var r := Apply(sys, op);
    if r.Ok? {
      match op
      case Inventory(o) => InventoryStepSound(sys, o, r.value);
      case Delivery(o) => DeliveryStepSound(sys, o, r.value);
      case Loan(o) => LoanStepSound(sys, o, r.value);
      case Note(o) => NoteStepSound(sys, o, r.value);
      case Repair(o) => RepairStepSound(sys, o, r.value);
      case Import(o) => ImportStepSound(sys, o, r.value);
    }
  }

  lemma EmptySound()
    ensures SystemSound(EmptySystem())
  {
    var sys := EmptySystem();
    forall key ensures RowSound(sys.stock, key) && Damaged(sys.stock, key) == 0 {}
    forall i: nat, j: nat ensures HoldSound(sys.stock, i, j) {}
    forall i: nat ensures TagSound(sys.stock, i) {}
    forall id: nat ensures DeliverySound(sys, id) {
      forall j: nat, key ensures C.Agrees(sys.stock, id, 0, [], 0, j, key) {}
    }
    forall id: nat ensures LoanSound(sys, id) {
      forall j: nat, key ensures I.Agrees(sys.stock, id, 0, [], 0, j, key) {}
      forall key ensures I.HandedAgrees(sys.stock, id, 0, [], 0, key) {}
    }
    forall id: nat ensures RepairSound(sys, id) {
      forall key ensures B.Agrees(sys.stock, id, RepairAt(sys, id), key) {}
    }
  }

  lemma {:induction false} RunSound(sys: System, ops: seq<Op>)
    requires SystemSound(sys)
    ensures SystemSound(Run(sys, ops))
  {
    if |ops| > 0 {
      RunSound(sys, ops[..|ops| - 1]);
      StepSound(Run(sys, ops[..|ops| - 1]), ops[|ops| - 1]);
    }
  }

  /**
   One stock invariant survives every interleaving: on-hand is the sum of its movements, reserved the
   sum of the outstanding holds, nothing is promised twice, and every document agrees with the stock.
   */
  lemma ReachableSound(ops: seq<Op>)
    ensures SystemSound(Run(EmptySystem(), ops))
  {
    EmptySound();
    RunSound(EmptySystem(), ops);
  }
}
