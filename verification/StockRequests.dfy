/**
 What was asked for is what is done: new documents list exactly the lines requested, a repair deducts the
 lines it was opened with as edited since, and a note on its way can always be received.
 */
module StockRequests {
  import opened Common
  import opened Sums
  import opened Stock
  import opened StockSystem
  import opened StockRuns
  import C = Consignment
  import I = Issuance
  import D = Dispatch
  import B = BikeIssues
  import S = ImportStock

  // ---------------------------------------------------------------- new documents

  /** The warehouse and the parts are known, each quantity is positive, and the motorcycles are known and unsold. */
  ghost predicate Orderable(sys: System, warehouse: nat, parts: seq<(nat, int)>, bikes: seq<nat>) {
    && warehouse in sys.stock.warehouses
    && (forall i :: 0 <= i < |parts| ==> parts[i].1 > 0 && parts[i].0 in sys.stock.products)
    && (forall i :: 0 <= i < |bikes| ==> bikes[i] in sys.units && !sys.units[bikes[i]].Sold?)
  }

  lemma DraftDeliveryIff(sys: System, mode: C.Mode, warehouse: nat, parts: seq<(nat, int)>, bikes: seq<nat>)
    ensures var r := ApplyDelivery(sys, DraftDelivery(mode, warehouse, parts, bikes));
            && (r.Ok? <==> Orderable(sys, warehouse, parts, bikes))
            && (r.Ok? ==>
                  && r.value == sys.(deliveries := r.value.deliveries)
                  && |r.value.deliveries| == |sys.deliveries| + 1
                  && r.value.deliveries[..|sys.deliveries|] == sys.deliveries
                  && (var d := r.value.deliveries[|sys.deliveries|];
                      && d.mode == mode && d.status.Draft? && d.warehouse == warehouse && |d.lines| == |parts| + |bikes|
                      && (forall i :: 0 <= i < |parts| ==> d.lines[i] == C.Line(true, parts[i].0, parts[i].1, 0, 0))
                      && (forall i :: 0 <= i < |bikes| ==> d.lines[|parts| + i] == C.Line(false, bikes[i], 1, 0, 0))))
  {
  }

  /** A consumable is never returnable, a motorcycle always is, and every other part as requested. */
  lemma DraftLoanIff(sys: System, warehouse: nat, parts: seq<LoanPart>, bikes: seq<nat>)
    ensures var r := ApplyLoan(sys, DraftLoan(warehouse, parts, bikes));
            && (r.Ok? <==> Orderable(sys, warehouse, Quantities(parts), bikes))
            && (r.Ok? ==>
                  && r.value == sys.(loans := r.value.loans)
                  && |r.value.loans| == |sys.loans| + 1
                  && r.value.loans[..|sys.loans|] == sys.loans
                  && (var d := r.value.loans[|sys.loans|];
                      && d.status.Draft? && d.warehouse == warehouse && |d.lines| == |parts| + |bikes|
                      && (forall i :: 0 <= i < |parts| ==>
                            && d.lines[i].isPart && d.lines[i].item == parts[i].product && d.lines[i].qty == parts[i].qty
                            && d.lines[i].consumable == parts[i].consumable
                            && d.lines[i].returnable == (parts[i].returnable && !parts[i].consumable)
                            && !d.lines[i].closed)
                      && (forall i :: 0 <= i < |bikes| ==>
                            && !d.lines[|parts| + i].isPart && d.lines[|parts| + i].item == bikes[i]
                            && d.lines[|parts| + i].qty == 1 && d.lines[|parts| + i].returnable && !d.lines[|parts| + i].closed)))
  {
  }

  /** A unit that the books show as sold goes on no note. */
  lemma DraftNoteIff(sys: System, from: nat, to: nat, parts: seq<(nat, int)>, bikes: seq<nat>)
    ensures var r := ApplyNote(sys, DraftNote(from, to, parts, bikes));
            && (r.Ok? <==>
                  && (forall i :: 0 <= i < |parts| ==> parts[i].1 > 0)
                  && D.Creatable(sys.stock, sys.notes, sys.places, SoldUnits(sys.units), from, to, parts, bikes))
            && (forall u :: u in SoldUnits(sys.units) <==> u in sys.units && sys.units[u].Sold?)
            && (r.Ok? ==>
                  && r.value == sys.(notes := r.value.notes)
                  && |r.value.notes| == |sys.notes| + 1
                  && r.value.notes[..|sys.notes|] == sys.notes
                  && D.ListsRequest(r.value.notes[|sys.notes|], from, to, parts, bikes))
  {
    D.CreateIff(sys.stock, sys.notes, sys.places, SoldUnits(sys.units), from, to, parts, bikes);
  }

  lemma OpenRepairIff(sys: System, unit: nat, lines: seq<B.Line>)
    ensures var r := ApplyRepair(sys, OpenRepair(unit, lines));
            && (r.Ok? <==>
                  && unit in sys.units && sys.units[unit] in {B.Unassembled, B.Assembled}
                  && forall i :: 0 <= i < |lines| ==>
                       lines[i].qty > 0 && lines[i].product in sys.stock.products && lines[i].warehouse in sys.stock.warehouses)
            && (r.Ok? ==>
                  && r.value == sys.(repairs := r.value.repairs, units := sys.units[unit := B.OnHold])
                  && |r.value.repairs| == |sys.repairs| + 1
                  && r.value.repairs[..|sys.repairs|] == sys.repairs
                  && B.AllAsRequested(lines, r.value.repairs[|sys.repairs|].lines))
  {
    B.OpenIff(sys.stock, sys.units, unit, lines);
  }

  /** A delivery, an issuance and a note are cancelled exactly while they are drafts, and only their status changes. */
  lemma CancelIff(sys: System, id: nat)
    ensures var r := ApplyDelivery(sys, CancelDelivery(id));
            && (r.Ok? <==> id < |sys.deliveries| && sys.deliveries[id].status.Draft?)
            && (r.Ok? ==> r.value == sys.(deliveries := sys.deliveries[id := sys.deliveries[id].(status := C.Cancelled)]))
    ensures var r := ApplyLoan(sys, CancelLoan(id));
            && (r.Ok? <==> id < |sys.loans| && sys.loans[id].status.Draft?)
            && (r.Ok? ==> r.value == sys.(loans := sys.loans[id := sys.loans[id].(status := I.Cancelled)]))
    ensures var r := ApplyNote(sys, CancelNote(id));
            && (r.Ok? <==> id < |sys.notes| && sys.notes[id].status.Draft?)
            && (r.Ok? ==> r.value == sys.(notes := sys.notes[id := sys.notes[id].(status := D.Cancelled)]))
  {
  }

  /** A new motorcycle is one not known yet, and is where and what it is said to be. */
  lemma NewUnitIff(sys: System, unit: nat, at: Option<nat>, status: B.UnitStatus)
    ensures var r := ApplyInventory(sys, AddUnit(unit, at, status));
            && (r.Ok? <==> unit !in sys.units && unit !in sys.places)
            && (r.Ok? ==>
                  && r.value == sys.(units := r.value.units, places := r.value.places)
                  && r.value.units == sys.units[unit := status] && r.value.places == sys.places[unit := at])
  {
  }

  // ---------------------------------------------------------------- the record of an import

  /** A job is started once, finished while it runs, and rolled back, once, when it is complete. */
  lemma JobIff(sys: System, job: nat)
    ensures var r := ApplyImport(sys, StartImport(job));
            (r.Ok? <==> job !in sys.jobs) && (r.Ok? ==> r.value == sys.(jobs := sys.jobs[job := Running]))
    ensures var r := ApplyImport(sys, FinishImport(job));
            (r.Ok? <==> HasStatus(sys, job, Running)) && (r.Ok? ==> r.value == sys.(jobs := sys.jobs[job := Completed]))
    ensures var r := ApplyImport(sys, RollbackImport(job));
            && (r.Ok? <==> HasStatus(sys, job, Completed) && S.OnlyJobTouched(sys.stock.moves, job)
                           && S.Unnamed(sys.stock, job, CreatedBy(sys, job), Named(sys)))
            && (r.Ok? ==> r.value.jobs == sys.jobs[job := RolledBack]
                          && (forall p :: p in r.value.created <==> p in sys.created && sys.created[p] != job)
                          && r.value == sys.(stock := r.value.stock, jobs := r.value.jobs, created := r.value.created))
  {
    S.RollbackIff(sys.stock, job, CreatedBy(sys, job), Named(sys));
  }

  lemma ProductIff(sys: System, job: nat, p: nat)
    ensures var r := ApplyImport(sys, ImportProduct(job, p));
            && (r.Ok? <==> HasStatus(sys, job, Running))
            && (r.Ok? && p in sys.stock.products ==> r.value == sys)
            && (r.Ok? && p !in sys.stock.products ==>
                  && r.value == sys.(stock := r.value.stock, created := sys.created[p := job])
                  && r.value.stock == sys.stock.(products := sys.stock.products + {p}))
  {
  }

  // ---------------------------------------------------------------- plain stock operations

  /** One row's goods change by a quantity, and nothing else does. */
  ghost predicate MovesOnly(sys: System, now: System, key: Key, goods: int) {
    && now == sys.(stock := now.stock)
    && (forall k :: OnHand(now.stock, k) == OnHand(sys.stock, k) + if k == key then goods else 0)
    && (forall k :: Reserved(now.stock, k) == Reserved(sys.stock, k))
    && now.stock.holds == sys.stock.holds
    && now.stock.products == sys.stock.products && now.stock.warehouses == sys.stock.warehouses
  }

  lemma ReceiptIff(sys: System, key: Key, quantity: int)
    ensures var r := ApplyInventory(sys, ReceiveStock(key, quantity));
            && (r.Ok? <==> quantity > 0 && key.product in sys.stock.products && key.warehouse in sys.stock.warehouses)
            && (r.Ok? ==> MovesOnly(sys, r.value, key, quantity))
  {
  }

  lemma PlainIssueIff(sys: System, key: Key, quantity: int)
    ensures var r := ApplyInventory(sys, IssueStock(key, quantity));
            && (r.Ok? <==> 0 < quantity <= Available(sys.stock, key)
                           && key.product in sys.stock.products && key.warehouse in sys.stock.warehouses)
            && (r.Ok? ==> MovesOnly(sys, r.value, key, -quantity))
  {
  }

  lemma TransferIff(sys: System, product: nat, from: nat, to: nat, quantity: int)
    ensures var r := ApplyInventory(sys, TransferStock(product, from, to, quantity));
            && (r.Ok? <==> from != to && 0 < quantity <= Available(sys.stock, Key(product, from))
                           && product in sys.stock.products && from in sys.stock.warehouses && to in sys.stock.warehouses)
            && (r.Ok? ==>
                  forall k :: OnHand(r.value.stock, k) == OnHand(sys.stock, k)
                    + (if k == Key(product, to) then quantity else 0) - (if k == Key(product, from) then quantity else 0))
  {
  }

  /** Opening stock reaches its row while the job runs; a quantity of zero or less is skipped. */
  lemma OpeningStockIff(sys: System, job: nat, key: Key, quantity: int)
    ensures var r := ApplyImport(sys, ImportStock(job, key, quantity));
            && (r.Ok? <==> HasStatus(sys, job, Running)
                           && (quantity > 0 ==> key.product in sys.stock.products && key.warehouse in sys.stock.warehouses))
            && (r.Ok? ==> MovesOnly(sys, r.value, key, Max(0, quantity)))
            && (r.Ok? && quantity > 0 ==> r.value.stock.moves == sys.stock.moves + [Move(InitialImport, key, quantity, Imported(job))])
  {
  }

  // ---------------------------------------------------------------- a repair from its opening to its end

  /** What an accepted edit of a repair adds to, or takes from, what its lines draw on a row. */
  function Edited(sys: System, op: Op, id: nat, key: Key): int {
    if !op.Repair? || Apply(sys, op).Err? then 0
    else
      match op.repair
      case AddRepairLine(n, line) => if n == id then B.TakenAt(key)(line) else 0
      case RemoveRepairLine(n, j) =>
        if n == id && id < |sys.repairs| && j < |sys.repairs[id].lines| then -B.TakenAt(key)(sys.repairs[id].lines[j]) else 0
      case _ => 0
  }

  function EditedAlong(sys: System, ops: seq<Op>, id: nat, key: Key): int {
    if |ops| == 0 then 0
    else EditedAlong(sys, ops[..|ops| - 1], id, key) + Edited(Run(sys, ops[..|ops| - 1]), ops[|ops| - 1], id, key)
  }

  lemma AddTotals(s: Stock, issue: B.Issue, line: B.Line, key: Key)
    requires B.AddLine(s, issue, line).Ok?
    ensures Total(B.AddLine(s, issue, line).value.lines, B.TakenAt(key)) == Total(issue.lines, B.TakenAt(key)) + B.TakenAt(key)(line)
  {
    assert B.Built([line]) == [line.(consumed := false)];
    TotalAppend(issue.lines, line.(consumed := false), B.TakenAt(key));
  }

  lemma RemoveTotals(issue: B.Issue, j: nat, key: Key)
    requires B.RemoveLine(issue, j).Ok?
    ensures Total(B.RemoveLine(issue, j).value.lines, B.TakenAt(key)) == Total(issue.lines, B.TakenAt(key)) - B.TakenAt(key)(issue.lines[j])
  {
    var column := B.TakenAt(key);
    TotalConcat(issue.lines[..j], issue.lines[j + 1..], column);
    assert issue.lines == issue.lines[..j] + issue.lines[j..];
    TotalConcat(issue.lines[..j], issue.lines[j..], column);
    TotalFirst(issue.lines[j..], column);
    assert issue.lines[j..][1..] == issue.lines[j + 1..];
  }

  lemma AddEdits(sys: System, op: RepairOp, now: System, id: nat, key: Key)
    requires ApplyRepair(sys, op) == Ok(now) && op.AddRepairLine? && id < |sys.repairs| == |now.repairs|
    ensures Total(now.repairs[id].lines, B.TakenAt(key))
            == Total(sys.repairs[id].lines, B.TakenAt(key)) + if op.repair == id then B.TakenAt(key)(op.line) else 0
  {
    if op.repair == id { AddTotals(sys.stock, sys.repairs[id], op.line, key); }
  }

  lemma RemoveEdits(sys: System, op: RepairOp, now: System, id: nat, key: Key)
    requires ApplyRepair(sys, op) == Ok(now) && op.RemoveRepairLine? && id < |sys.repairs| == |now.repairs|
    ensures op.repair == id ==> op.index < |sys.repairs[id].lines|
    ensures Total(now.repairs[id].lines, B.TakenAt(key))
            == Total(sys.repairs[id].lines, B.TakenAt(key)) - if op.repair == id then B.TakenAt(key)(sys.repairs[id].lines[op.index]) else 0
  {
    if op.repair == id { RemoveTotals(sys.repairs[id], op.index, key); }
  }

  /** Everything else keeps the lines of a repair that is still active. */
  lemma KeepsLines(sys: System, op: RepairOp, now: System, id: nat)
    requires ApplyRepair(sys, op) == Ok(now) && !op.AddRepairLine? && !op.RemoveRepairLine?
    requires id < |sys.repairs| && id < |now.repairs| && B.Active(now.repairs[id].status)
    ensures now.repairs[id].lines == sys.repairs[id].lines
  {
    hide B.ConsumeLines, B.ReleaseUnit, B.CanTransition, B.KnownLines, B.Built;
  }

  lemma SameRepairCount(sys: System, op: RepairOp, now: System)
    requires ApplyRepair(sys, op) == Ok(now)
    ensures op.OpenRepair? || |now.repairs| == |sys.repairs|
  {
    hide B.Resolve, B.OpenIssue, B.AddLine, B.RemoveLine, B.SetStatus;
  }

  lemma RepairEdits(sys: System, op: RepairOp, now: System, id: nat, key: Key)
    requires ApplyRepair(sys, op) == Ok(now) && id < |sys.repairs| && id < |now.repairs| && B.Active(now.repairs[id].status)
    ensures Total(now.repairs[id].lines, B.TakenAt(key)) == Total(sys.repairs[id].lines, B.TakenAt(key)) + Edited(sys, Repair(op), id, key)
  {
    hide ApplyRepair, Total;
    SameRepairCount(sys, op, now);
    if op.AddRepairLine? {
      AddEdits(sys, op, now, id, key);
    } else if op.RemoveRepairLine? {
      RemoveEdits(sys, op, now, id, key);
    } else {
      KeepsLines(sys, op, now, id);
    }
  }

  lemma StepEdits(sys: System, op: Op, id: nat, key: Key)
    requires id < |sys.repairs| && id < |Step(sys, op).repairs| && B.Active(Step(sys, op).repairs[id].status)
    ensures Total(Step(sys, op).repairs[id].lines, B.TakenAt(key)) == Total(sys.repairs[id].lines, B.TakenAt(key)) + Edited(sys, op, id, key)
  {
    hide ApplyRepair;
    if op.Repair? && Apply(sys, op).Ok? {
      RepairEdits(sys, op.repair, Step(sys, op), id, key);
    } else {
      OtherStepsEditNothing(sys, op);
    }
  }

  lemma OtherStepsEditNothing(sys: System, op: Op)
    requires !op.Repair? || Apply(sys, op).Err?
    ensures Step(sys, op).repairs == sys.repairs
  {
    hide ApplyInventory, ApplyDelivery, ApplyLoan, ApplyNote, ApplyImport;
    if Apply(sys, op).Ok? {
      match op
      case Inventory(o) => InventoryRepairs(sys, o);
      case Delivery(o) => DeliveryRepairs(sys, o);
      case Loan(o) => LoanRepairs(sys, o);
      case Note(o) => NoteRepairs(sys, o);
      case Import(o) => ImportRepairs(sys, o);
    }
  }

  lemma InventoryRepairs(sys: System, op: InventoryOp)
    ensures ApplyInventory(sys, op).Ok? ==> ApplyInventory(sys, op).value.repairs == sys.repairs
  {
  }

  lemma DeliveryRepairs(sys: System, op: DeliveryOp)
    ensures ApplyDelivery(sys, op).Ok? ==> ApplyDelivery(sys, op).value.repairs == sys.repairs
  {
  }

  lemma LoanRepairs(sys: System, op: LoanOp)
    ensures ApplyLoan(sys, op).Ok? ==> ApplyLoan(sys, op).value.repairs == sys.repairs
  {
  }

  lemma NoteRepairs(sys: System, op: NoteOp)
    ensures ApplyNote(sys, op).Ok? ==> ApplyNote(sys, op).value.repairs == sys.repairs
  {
  }

  lemma ImportRepairs(sys: System, op: ImportOp)
    ensures ApplyImport(sys, op).Ok? ==> ApplyImport(sys, op).value.repairs == sys.repairs
  {
  }

  lemma {:induction false} EditsAlong(sys: System, ops: seq<Op>, later: System, id: nat, key: Key)
    requires SystemSound(sys) && id < |sys.repairs| && later == Run(sys, ops)
    ensures id < |later.repairs|
    ensures B.Active(later.repairs[id].status) ==>
              Total(later.repairs[id].lines, B.TakenAt(key)) == Total(sys.repairs[id].lines, B.TakenAt(key)) + EditedAlong(sys, ops, id, key)
  {
    hide SystemSound;
    if |ops| > 0 {
      var mid := Run(sys, ops[..|ops| - 1]);
      EditsAlong(sys, ops[..|ops| - 1], mid, id, key);
      RunSound(sys, ops[..|ops| - 1]);
      StepAhead(mid, ops[|ops| - 1]);
      assert RepairAhead(mid.repairs[id], later.repairs[id]);
      if B.Active(later.repairs[id].status) {
        StepEdits(mid, ops[|ops| - 1], id, key);
      }
    }
  }

  lemma {:induction false} BuiltTotals(lines: seq<B.Line>, key: Key)
    ensures Total(B.Built(lines), B.TakenAt(key)) == Total(lines, B.TakenAt(key))
  {
    if |lines| > 0 {
      assert B.Built(lines)[..|lines| - 1] == B.Built(lines[..|lines| - 1]);
      BuiltTotals(lines[..|lines| - 1], key);
    }
  }

  lemma ResolveTakes(sys: System, id: nat, extra: seq<B.Line>, resolved: System, key: Key)
    requires SystemSound(sys) && ApplyRepair(sys, ResolveRepair(id, extra)) == Ok(resolved)
    ensures id < |sys.repairs| && B.Active(sys.repairs[id].status)
    ensures OnHand(sys.stock, key) - OnHand(resolved.stock, key)
            == Total(sys.repairs[id].lines, B.TakenAt(key)) + Total(extra, B.TakenAt(key))
  {
    var lines := sys.repairs[id].lines + B.Built(extra);
    assert RepairSound(sys, id);
    B.ResolveSound(sys.stock, sys.units, sys.repairs, id, extra);
    B.ConsumedTotals(lines, key);
    TotalConcat(sys.repairs[id].lines, B.Built(extra), B.TakenAt(key));
    BuiltTotals(extra, key);
  }

  /**
   A repair end to end: whatever else happens in between, resolving it takes off each row exactly the lines
   requested when it was opened, plus those added since, less those removed, plus the extra ones.
   */
  lemma RepairEndToEnd(sys: System, unit: nat, lines: seq<B.Line>, begun: System, ops: seq<Op>, later: System,
                       extra: seq<B.Line>, resolved: System, key: Key)
    requires SystemSound(sys) && ApplyRepair(sys, OpenRepair(unit, lines)) == Ok(begun)
    requires later == Run(begun, ops)
    requires ApplyRepair(later, ResolveRepair(|sys.repairs|, extra)) == Ok(resolved)
    ensures OnHand(later.stock, key) - OnHand(resolved.stock, key)
            == Total(lines, B.TakenAt(key)) + EditedAlong(begun, ops, |sys.repairs|, key) + Total(extra, B.TakenAt(key))
  {
    hide SystemSound, ApplyRepair;
    var id := |sys.repairs|;
    RepairStepSound(sys, OpenRepair(unit, lines), begun);
    OpenedLines(sys, unit, lines, begun, key);
    EditsAlong(begun, ops, later, id, key);
    RunSound(begun, ops);
    ResolveTakes(later, id, extra, resolved, key);
  }

  lemma OpenedLines(sys: System, unit: nat, lines: seq<B.Line>, begun: System, key: Key)
    requires ApplyRepair(sys, OpenRepair(unit, lines)) == Ok(begun)
    ensures |begun.repairs| == |sys.repairs| + 1
    ensures Total(begun.repairs[|sys.repairs|].lines, B.TakenAt(key)) == Total(lines, B.TakenAt(key))
  {
    BuiltTotals(lines, key);
  }

  // ---------------------------------------------------------------- what documents name stays known

  ghost predicate NoteKnown(s: Stock, note: D.Note) {
    D.PartsKnown(s, note, note.to, 0)
  }

  ghost predicate NotesKnown(sys: System) {
    forall n :: 0 <= n < |sys.notes| ==> NoteKnown(sys.stock, sys.notes[n])
  }

  /** Nothing a note names leaves the catalogue. */
  ghost predicate CatalogueKept(sys: System, now: System) {
    && sys.stock.warehouses <= now.stock.warehouses
    && (forall p :: p in sys.stock.products && p in Named(sys) ==> p in now.stock.products)
  }

  lemma InventoryCatalogue(sys: System, op: InventoryOp, now: System)
    requires ApplyInventory(sys, op) == Ok(now)
    ensures CatalogueKept(sys, now) && now.notes == sys.notes
    ensures sys.stock.products <= now.stock.products && SameImports(sys, now)
  {
  }

  /** No accepted rollback takes away a product that any document names. */
  lemma RollbackKeepsNamed(sys: System, job: nat, now: System, p: nat)
    requires ApplyImport(sys, RollbackImport(job)) == Ok(now) && p in sys.stock.products
    ensures (exists d, j :: 0 <= d < |sys.deliveries| && 0 <= j < |sys.deliveries[d].lines|
                            && sys.deliveries[d].lines[j].isPart && sys.deliveries[d].lines[j].item == p) ==> p in now.stock.products
    ensures (exists d, j :: 0 <= d < |sys.loans| && 0 <= j < |sys.loans[d].lines|
                            && sys.loans[d].lines[j].isPart && sys.loans[d].lines[j].item == p) ==> p in now.stock.products
    ensures (exists d, j :: 0 <= d < |sys.notes| && 0 <= j < |sys.notes[d].lines|
                            && sys.notes[d].lines[j].isPart && sys.notes[d].lines[j].item == p) ==> p in now.stock.products
    ensures (exists d, j :: 0 <= d < |sys.repairs| && 0 <= j < |sys.repairs[d].lines|
                            && sys.repairs[d].lines[j].product == p) ==> p in now.stock.products
  {
    assert p in CreatedBy(sys, job) <==> p in CreatedBy(sys, job) * Named(sys) || (p in CreatedBy(sys, job) && p !in Named(sys));
  }

  lemma ImportCatalogue(sys: System, op: ImportOp, now: System)
    requires ApplyImport(sys, op) == Ok(now)
    ensures CatalogueKept(sys, now) && now.notes == sys.notes
  {
    if op.RollbackImport? {
      forall p | p in sys.stock.products && p in Named(sys) ensures p in now.stock.products {
        assert CreatedBy(sys, op.job) * Named(sys) == {};
        assert p in CreatedBy(sys, op.job) <==> p in CreatedBy(sys, op.job) * Named(sys);
      }
    }
  }

  ghost predicate SameCatalogue(sys: System, now: System) {
    && now.stock.products == sys.stock.products && now.stock.warehouses == sys.stock.warehouses
    && now.notes == sys.notes && SameImports(sys, now)
  }

  predicate SameImports(sys: System, now: System) { now.created == sys.created && now.jobs == sys.jobs }

  lemma DeliveryCatalogue(sys: System, op: DeliveryOp, now: System)
    requires SystemSound(sys) && ApplyDelivery(sys, op) == Ok(now)
    ensures SameCatalogue(sys, now)
  {
    if !op.DraftDelivery? {
      var n, d := op.delivery, sys.deliveries[op.delivery];
      assert DeliverySound(sys, n);
      if op.Deliver? { C.DeliverSound(sys.stock, n, d, now.stock, now.deliveries[n]); }
      if op.Settle? { C.SettleSound(sys.stock, n, d, op.settled, op.outcomes); }
    }
  }

  lemma LoanCatalogue(sys: System, op: LoanOp, now: System)
    requires SystemSound(sys) && ApplyLoan(sys, op) == Ok(now)
    ensures SameCatalogue(sys, now)
  {
    if !op.DraftLoan? {
      var n, loan := op.loan, sys.loans[op.loan];
      assert LoanSound(sys, n);
      if op.IssueLoan? { I.IssueLoanSound(sys.stock, n, loan, now.stock, now.loans[n]); }
      if op.ReturnItems? { I.ReturnSound(sys.stock, n, loan, op.returned, op.back); }
    }
  }

  lemma RepairCatalogue(sys: System, op: RepairOp, now: System)
    requires SystemSound(sys) && ApplyRepair(sys, op) == Ok(now)
    ensures SameCatalogue(sys, now)
  {
    if op.ResolveRepair? {
      assert RepairSound(sys, op.repair);
      B.ResolveSound(sys.stock, sys.units, sys.repairs, op.repair, op.extra);
    }
  }

  lemma SameKept(sys: System, now: System)
    requires SameCatalogue(sys, now)
    ensures CatalogueKept(sys, now) && now.notes == sys.notes
  {
  }

  /** The same two ends and the same parts. */
  ghost predicate SameNote(note: D.Note, later: D.Note) {
    && later.from == note.from && later.to == note.to && |later.lines| == |note.lines|
    && forall j :: 0 <= j < |note.lines| ==> D.SameLine(note.lines[j], later.lines[j])
  }

  lemma SameNoteKnown(s: Stock, t: Stock, note: D.Note, later: D.Note)
    requires NoteKnown(s, note) && SameNote(note, later) && s.products == t.products && s.warehouses == t.warehouses
    ensures NoteKnown(t, later)
  {
    forall j | 0 <= j < |later.lines| && later.lines[j].isPart
      ensures later.to in t.warehouses && later.lines[j].item in t.products
    {
      assert D.SameLine(note.lines[j], later.lines[j]);
    }
  }

  lemma NoteStepSame(sys: System, op: NoteOp, now: System)
    requires SystemSound(sys) && ApplyNote(sys, op) == Ok(now) && !op.DraftNote?
    ensures op.note < |sys.notes| == |now.notes|
    ensures now.stock.products == sys.stock.products && now.stock.warehouses == sys.stock.warehouses
    ensures now.notes == sys.notes[op.note := now.notes[op.note]]
    ensures SameNote(sys.notes[op.note], now.notes[op.note])
  {
    var n, note := op.note, sys.notes[op.note];
    match op
    case DispatchNote(_) =>
      D.DispatchConserves(sys.stock, sys.places, n, note, now.stock, now.places, now.notes[n]);
      D.DispatchShelves(sys.stock, sys.places, n, note, Key(0, 0));
    case ReceiveNote(_, parts, bikes) =>
      D.ReceiveExcess(sys.stock, sys.places, n, note, parts, bikes, now.stock, now.places, now.notes[n]);
      D.ReceiveRecords(sys.stock, sys.places, n, note, parts, bikes);
      D.ReceiveShelves(sys.stock, sys.places, n, note, parts, bikes, Key(0, 0));
      forall j | 0 <= j < |note.lines| ensures D.SameLine(note.lines[j], now.notes[n].lines[j]) {
        assert D.RecordedAs(note.lines[j], now.notes[n].lines[j], D.Report(parts, j), D.Arrived(bikes, j));
      }
    case CancelNote(_) =>
  }

  lemma NoteStepKnown(sys: System, op: NoteOp, now: System)
    requires SystemSound(sys) && NotesKnown(sys) && ApplyNote(sys, op) == Ok(now)
    ensures NotesKnown(now)
  {
    hide SystemSound;
    if op.DraftNote? {
      D.CreateIff(sys.stock, sys.notes, sys.places, SoldUnits(sys.units), op.from, op.to, op.parts, op.bikes);
    } else {
      NoteStepSame(sys, op, now);
      forall n | 0 <= n < |now.notes| ensures NoteKnown(now.stock, now.notes[n]) {
        assert NoteKnown(sys.stock, sys.notes[n]);
        if n == op.note { SameNoteKnown(sys.stock, now.stock, sys.notes[n], now.notes[n]); }
      }
    }
  }

  lemma KeptKnown(sys: System, now: System)
    requires NotesKnown(sys) && CatalogueKept(sys, now) && now.notes == sys.notes
    ensures NotesKnown(now)
  {
    forall n | 0 <= n < |now.notes| ensures NoteKnown(now.stock, now.notes[n]) {
      assert NoteKnown(sys.stock, sys.notes[n]);
      forall j | 0 <= j < |sys.notes[n].lines| && sys.notes[n].lines[j].isPart
        ensures sys.notes[n].lines[j].item in now.stock.products
      {
        assert sys.notes[n].lines[j].item in Named(sys);
      }
    }
  }

  lemma StepKnown(sys: System, op: Op)
    requires SystemSound(sys) && NotesKnown(sys)
    ensures NotesKnown(Step(sys, op))
  {
    hide SystemSound, NotesKnown, CatalogueKept, SameCatalogue, ApplyNote, ApplyInventory, ApplyImport, ApplyDelivery, ApplyLoan, ApplyRepair;
    if Apply(sys, op).Ok? {
      var now := Step(sys, op);
      match op
      case Note(o) => NoteStepKnown(sys, o, now);
      case Inventory(o) => InventoryCatalogue(sys, o, now); KeptKnown(sys, now);
      case Import(o) => ImportCatalogue(sys, o, now); KeptKnown(sys, now);
      case Delivery(o) => DeliveryCatalogue(sys, o, now); SameKept(sys, now); KeptKnown(sys, now);
      case Loan(o) => LoanCatalogue(sys, o, now); SameKept(sys, now); KeptKnown(sys, now);
      case Repair(o) => RepairCatalogue(sys, o, now); SameKept(sys, now); KeptKnown(sys, now);
    }
  }

  lemma {:induction false} ReachableKnown(ops: seq<Op>)
    ensures SystemSound(Run(EmptySystem(), ops)) && NotesKnown(Run(EmptySystem(), ops))
  {
    if |ops| == 0 {
      EmptySound();
    } else {
      ReachableKnown(ops[..|ops| - 1]);
      StepSound(Run(EmptySystem(), ops[..|ops| - 1]), ops[|ops| - 1]);
      StepKnown(Run(EmptySystem(), ops[..|ops| - 1]), ops[|ops| - 1]);
    }
  }

  /**
   Over every run of all the services, a note that is in transit or partly received can be received, whatever
   is reported: no rollback takes away what it carries.
   */
  lemma ReceiveNeverFails(ops: seq<Op>, sys: System, id: nat, parts: map<nat, D.PartReport>, bikes: map<nat, bool>)
    requires sys == Run(EmptySystem(), ops) && id < |sys.notes|
    ensures ApplyNote(sys, ReceiveNote(id, parts, bikes)).Ok? <==> sys.notes[id].status in {D.InTransit, D.PartiallyReceived}
  {
    ReachableKnown(ops);
    assert NoteKnown(sys.stock, sys.notes[id]);
    D.ReceiveAccepted(sys.stock, sys.places, id, sys.notes[id], parts, bikes);
  }

  // ---------------------------------------------------------------- the products an import created

  /** What a job is recorded to have created is in the catalogue. */
  ghost predicate CreatedKnown(sys: System) {
    forall p :: p in sys.created ==> p in sys.stock.products
  }

  /** Everything but an import leaves the record alone, and takes no product away. */
  lemma NoteImports(sys: System, op: NoteOp)
    ensures ApplyNote(sys, op).Ok? ==> SameImports(sys, ApplyNote(sys, op).value)
    ensures ApplyNote(sys, op).Ok? && op.DraftNote? ==> ApplyNote(sys, op).value.stock == sys.stock
  {
  }

  lemma OtherStepsCreateNothing(sys: System, op: Op, now: System)
    requires SystemSound(sys) && Apply(sys, op) == Ok(now) && !op.Import?
    ensures SameImports(sys, now)
    ensures sys.stock.products <= now.stock.products
  {
    hide SystemSound, ApplyInventory, ApplyDelivery, ApplyLoan, ApplyNote, ApplyRepair;
    match op
    case Inventory(o) => InventoryCatalogue(sys, o, now);
    case Delivery(o) => DeliveryCatalogue(sys, o, now);
    case Loan(o) => LoanCatalogue(sys, o, now);
    case Repair(o) => RepairCatalogue(sys, o, now);
    case Note(o) =>
      NoteImports(sys, o);
      if !o.DraftNote? { NoteStepSame(sys, o, now); }
  }

  lemma ImportStepCreated(sys: System, op: ImportOp, now: System, job: nat, p: nat)
    requires ApplyImport(sys, op) == Ok(now) && CreatedKnown(sys)
    ensures CreatedKnown(now)
    ensures p in CreatedBy(sys, job) ==> p in CreatedBy(now, job) || HasStatus(now, job, RolledBack)
    ensures HasStatus(sys, job, RolledBack) ==> HasStatus(now, job, RolledBack)
  {
    hide S.Rollback;
    if op.RollbackImport? {
      S.RollbackIff(sys.stock, op.job, CreatedBy(sys, op.job), Named(sys));
    }
  }

  lemma StepCreated(sys: System, op: Op, job: nat, p: nat)
    requires SystemSound(sys) && CreatedKnown(sys)
    ensures CreatedKnown(Step(sys, op))
    ensures p in CreatedBy(sys, job) ==> p in CreatedBy(Step(sys, op), job) || HasStatus(Step(sys, op), job, RolledBack)
    ensures HasStatus(sys, job, RolledBack) ==> HasStatus(Step(sys, op), job, RolledBack)
  {
    hide SystemSound, ApplyImport;
    if Apply(sys, op).Ok? {
      if op.Import? {
        ImportStepCreated(sys, op.imports, Step(sys, op), job, p);
      } else {
        OtherStepsCreateNothing(sys, op, Step(sys, op));
      }
    }
  }

  lemma {:induction false} RunCreated(sys: System, ops: seq<Op>, later: System, job: nat, p: nat)
    requires SystemSound(sys) && CreatedKnown(sys) && later == Run(sys, ops)
    ensures CreatedKnown(later)
    ensures p in CreatedBy(sys, job) ==> p in CreatedBy(later, job) || HasStatus(later, job, RolledBack)
    ensures HasStatus(sys, job, RolledBack) ==> HasStatus(later, job, RolledBack)
  {
    if |ops| > 0 {
      RunCreated(sys, ops[..|ops| - 1], Run(sys, ops[..|ops| - 1]), job, p);
      RunSound(sys, ops[..|ops| - 1]);
      StepCreated(Run(sys, ops[..|ops| - 1]), ops[|ops| - 1], job, p);
    }
  }

  /**
   A product that an import brought into the catalogue leaves it when the import is rolled back, however much
   has run in between; a product that was there before is not the import's, and stays.
   */
  lemma RollbackRemovesProducts(sys: System, job: nat, p: nat, begun: System, ops: seq<Op>, later: System, after: System)
    requires SystemSound(sys) && CreatedKnown(sys)
    requires ApplyImport(sys, ImportProduct(job, p)) == Ok(begun) && later == Run(begun, ops)
    requires ApplyImport(later, RollbackImport(job)) == Ok(after)
    ensures p !in sys.stock.products ==> p !in after.stock.products
    ensures p in sys.stock.products ==> begun == sys
    ensures forall q :: q in later.stock.products && q !in CreatedBy(later, job) ==> q in after.stock.products
  {
    hide SystemSound, S.Rollback;
    ImportStepSound(sys, ImportProduct(job, p), begun);
    ImportStepCreated(sys, ImportProduct(job, p), begun, job, p);
    RunCreated(begun, ops, later, job, p);
    S.RollbackIff(later.stock, job, CreatedBy(later, job), Named(later));
  }
}
