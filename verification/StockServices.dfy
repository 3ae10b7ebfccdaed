/**
 The stock services as objects over one shared inventory. Each method works line by line as the request
 does and goes back to its savepoint when any line fails; each is tied to the function on documents
 and stock that specifies it.
 */
module StockServices {
  import opened Common
  import opened Sums
  import opened Stock
  import opened InventoryService
  import C = Consignment
  import I = Issuance
  import D = Dispatch
  import B = BikeIssues
  import S = ImportStock
  import Y = StockSystem

  /** A specified outcome for one document, as an outcome for the whole table of documents. */
  function OnTable<T>(table: seq<T>, id: nat, r: Outcome<(Stock, T), Error>): Outcome<(Stock, seq<T>), Error>
    requires id < |table|
  {
    match r
    case Ok(done) => Ok((done.0, table[id := done.1]))
    case Err(error) => Err(error)
  }

  // ---------------------------------------------------------------- consignments

  /** The stock is sound and every consignment in the table agrees with it. */
  ghost predicate ConsignmentsSound(s: Stock, table: seq<C.Delivery>) {
    StockSound(s) && forall id :: 0 <= id < |table| ==> C.Sound(s, id, table[id])
  }

  /** Rewriting one consignment and its own stock leaves the others in agreement. */
  lemma OtherConsignments(s: Stock, table: seq<C.Delivery>, id: nat, t: Stock, after: C.Delivery)
    requires ConsignmentsSound(s, table) && id < |table|
    requires StockSound(t) && C.Sound(t, id, after) && OnlyFor(s, t, DeliveryDoc(id))
    ensures ConsignmentsSound(t, table[id := after])
  {
    forall other | 0 <= other < |table| && other != id ensures C.Sound(t, other, table[other]) {
      Y.DeliveryUntouched(s, t, DeliveryDoc(id), other, table[other]);
    }
  }

  lemma DeliverKeeps(s: Stock, table: seq<C.Delivery>, id: nat)
    requires id < |table|
    ensures ConsignmentsSound(s, table) ==> (C.Deliver(s, id, table[id]).Ok? <==> C.Deliverable(s, table[id]))
    ensures ConsignmentsSound(s, table) && C.Deliver(s, id, table[id]).Ok? ==>
      var (t, after) := C.Deliver(s, id, table[id]).value;
      && ConsignmentsSound(t, table[id := after])
      && OnlyFor(s, t, DeliveryDoc(id))
      && forall key :: OnHand(t, key) == OnHand(s, key)
  {
    if ConsignmentsSound(s, table) { C.DeliverAcceptedIff(s, id, table[id]); }
    if ConsignmentsSound(s, table) && C.Deliver(s, id, table[id]).Ok? {
      var (t, after) := C.Deliver(s, id, table[id]).value;
      C.DeliverSound(s, id, table[id], t, after);
      OtherConsignments(s, table, id, t, after);
    }
  }

  lemma SettleKeeps(s: Stock, table: seq<C.Delivery>, id: nat, parts: map<nat, C.PartReport>, bikes: map<nat, C.BikeReport>)
    requires id < |table|
    ensures ConsignmentsSound(s, table) && table[id].mode.ConsignmentMode? && C.Reconcilable(table[id].status) ==>
      && (C.Settle(s, id, table[id], parts, bikes).Err? <==> C.SoldNeedInvoice(table[id].lines, bikes, 0))
      && (C.Settle(s, id, table[id], parts, bikes).Ok? ==>
            var (t, after) := C.Settle(s, id, table[id], parts, bikes).value;
            && ConsignmentsSound(t, table[id := after])
            && OnlyFor(s, t, DeliveryDoc(id))
            && C.SettledAs(table[id], after, parts, bikes)
            && forall key :: OnHand(s, key) - OnHand(t, key) == Total(after.lines, C.SettledAt(table[id].warehouse, key))
                                                             - Total(table[id].lines, C.SettledAt(table[id].warehouse, key)))
  {
    if ConsignmentsSound(s, table) && table[id].mode.ConsignmentMode? && C.Reconcilable(table[id].status) {
      C.SettleSound(s, id, table[id], parts, bikes);
      if C.Settle(s, id, table[id], parts, bikes).Ok? {
        var (t, after) := C.Settle(s, id, table[id], parts, bikes).value;
        OtherConsignments(s, table, id, t, after);
      }
    }
  }

  lemma SettleLineKeeps(s: Stock, line: LineId, warehouse: nat, ln: C.Line, part: Option<C.PartReport>, bike: Option<C.BikeReport>)
    ensures StockSound(s) && C.InBounds(ln) && (ln.isPart ==> HeldFor(s, line, Key(ln.item, warehouse)) == C.Outstanding(ln))
            && C.SettleLine(s, line, warehouse, ln, part, bike).Ok? ==>
      var (t, after) := C.SettleLine(s, line, warehouse, ln, part, bike).value;
      && StockSound(t) && C.Progress(ln, after) && C.Honours(ln, after, part, bike)
      && C.LineEffect(s, t, line, warehouse, ln, after)
  {
    if StockSound(s) && C.InBounds(ln) && (ln.isPart ==> HeldFor(s, line, Key(ln.item, warehouse)) == C.Outstanding(ln))
       && C.SettleLine(s, line, warehouse, ln, part, bike).Ok?
    {
      C.SettleLineSound(s, line, warehouse, ln, part, bike);
      C.SettleLineFigures(s, line, warehouse, ln, part, bike);
    }
  }

  class ConsignmentService {
    const inventory: Inventory
    var deliveries: seq<C.Delivery>

    constructor (inventory: Inventory)
      ensures this.inventory == inventory && deliveries == []
    {
      this.inventory := inventory;
      deliveries := [];
    }

    ghost function State(): (Stock, seq<C.Delivery>)
      reads this, inventory
    {
      (inventory.State(), deliveries)
    }

    ghost function DeliverSpec(id: nat): Outcome<(Stock, seq<C.Delivery>), Error>
      reads this, inventory
    {
      if id >= |deliveries| then Err(NotFound)
      else OnTable(deliveries, id, C.Deliver(inventory.State(), id, deliveries[id]))
    }

    ghost function SettleSpec(id: nat, parts: map<nat, C.PartReport>, bikes: map<nat, C.BikeReport>)
      : Outcome<(Stock, seq<C.Delivery>), Error>
      reads this, inventory
    {
      if id >= |deliveries| then Err(NotFound)
      else OnTable(deliveries, id, C.Settle(inventory.State(), id, deliveries[id], parts, bikes))
    }

    method Deliver(id: nat) returns (r: Outcome<(), Error>)
      modifies this`deliveries, inventory
      ensures Did(old(State()), State(), old(DeliverSpec(id)), r)
      ensures id < |old(deliveries)| && ConsignmentsSound(old(inventory.State()), old(deliveries)) ==>
        (r.Ok? <==> C.Deliverable(old(inventory.State()), old(deliveries[id])))
      ensures r.Ok? && ConsignmentsSound(old(inventory.State()), old(deliveries)) ==>
        && ConsignmentsSound(inventory.State(), deliveries)
        && OnlyFor(old(inventory.State()), inventory.State(), DeliveryDoc(id))
        && forall key :: OnHand(inventory.State(), key) == OnHand(old(inventory.State()), key)
    {
      hide ConsignmentsSound, OnlyFor, C.Deliverable;
      if id < |deliveries| { DeliverKeeps(inventory.State(), deliveries, id); }
      if id >= |deliveries| { return Err(NotFound); }
      var d := deliveries[id];
      if !d.status.Draft? { return Err(WrongStatus); }
      if d.mode.SaleMode? {
        deliveries := deliveries[id := d.(status := C.Delivered)];
        return Ok(());
      }
      var saved := inventory.State();
      var i := 0;
      while i < |d.lines|
        invariant 0 <= i <= |d.lines|
        invariant deliveries == old(deliveries)
        invariant C.HoldLines(inventory.State(), id, d.warehouse, d.lines, i)
                  == C.HoldLines(old(inventory.State()), id, d.warehouse, d.lines, 0)
      {
        var ln := d.lines[i];
        if ln.isPart {
          var key := Key(ln.item, d.warehouse);
          if key !in inventory.rows || Available(inventory.State(), key) < ln.qty {
            inventory.Restore(saved);
            return Err(Insufficient);
          }
          inventory.ReserveStock(ConsignmentLine(id, i), key, ln.qty);
        }
        i := i + 1;
      }
      deliveries := deliveries[id := d.(status := C.OutAtReseller)];
      return Ok(());
    }

    method ReconcilePart(line: LineId, key: Key, settled: int, returned: int) returns (r: Outcome<(), Error>)
      modifies inventory
      ensures Did(old(inventory.State()), inventory.State(),
                  C.ReconcilePart(old(inventory.State()), line, key, settled, returned), r)
      ensures StockSound(old(inventory.State())) && 0 <= settled && 0 <= returned
              && settled + returned <= HeldFor(old(inventory.State()), line, key) ==>
        && r.Ok? && StockSound(inventory.State())
        && Effect(old(inventory.State()), inventory.State(), key, -settled, ConsignmentSale(line), Some(line), -(settled + returned))
    {
      hide StockSound, Effect;
      if StockSound(inventory.State()) && 0 <= settled && 0 <= returned
         && settled + returned <= HeldFor(inventory.State(), line, key)
      {
        C.ReconcilePartSound(inventory.State(), line, key, settled, returned);
      }
      if settled > 0 {
        var issued := inventory.IssueAgainstReservation(key, settled, ConsignmentSale(line), line);
        if issued.Err? { return issued; }
      }
      if returned > 0 {
        var own := ActiveFor(inventory.holds, line);
        ActiveInRange(inventory.holds, line);
        if own.Some? && inventory.holds[own.value].qty > 0 {
          inventory.ConsumeHold(own.value, key, returned);
        }
      }
      return Ok(());
    }

    /** One line of a settle: its movements first, its figures after. */
    method SettleLine(id: nat, i: nat, part: Option<C.PartReport>, bike: Option<C.BikeReport>) returns (r: Outcome<(), Error>)
      requires id < |deliveries| && i < |deliveries[id].lines|
      modifies this`deliveries, inventory
      ensures var d := old(deliveries[id]);
              Did((old(inventory.State()), old(deliveries)), (inventory.State(), deliveries),
                  match C.SettleLine(old(inventory.State()), ConsignmentLine(id, i), d.warehouse, d.lines[i], part, bike)
                  case Ok(done) => Ok((done.0, old(deliveries)[id := d.(lines := d.lines[i := done.1])]))
                  case Err(error) => Err(error), r)
      ensures r.Ok? && StockSound(old(inventory.State())) && C.InBounds(old(deliveries[id].lines[i]))
              && (old(deliveries[id].lines[i]).isPart ==>
                    HeldFor(old(inventory.State()), ConsignmentLine(id, i),
                            Key(old(deliveries[id].lines[i]).item, old(deliveries[id]).warehouse))
                    == C.Outstanding(old(deliveries[id].lines[i]))) ==>
        && StockSound(inventory.State())
        && C.Progress(old(deliveries[id].lines[i]), deliveries[id].lines[i])
        && C.Honours(old(deliveries[id].lines[i]), deliveries[id].lines[i], part, bike)
        && C.LineEffect(old(inventory.State()), inventory.State(), ConsignmentLine(id, i), deliveries[id].warehouse,
                        old(deliveries[id].lines[i]), deliveries[id].lines[i])
    {
      hide StockSound, C.LineEffect, C.Honours, C.Progress;
      SettleLineKeeps(inventory.State(), ConsignmentLine(id, i), deliveries[id].warehouse, deliveries[id].lines[i], part, bike);
      var d := deliveries[id];
      var ln := d.lines[i];
      if ln.settled + ln.returned < ln.qty {
        if ln.isPart && part.Some? {
          var remaining := ln.qty - (ln.settled + ln.returned);
          var settled := Min(Max(0, part.value.settled), remaining);
          var returned := Min(Max(0, part.value.returned), remaining - settled);
          var done := ReconcilePart(ConsignmentLine(id, i), Key(ln.item, d.warehouse), settled, returned);
          if done.Err? { return done; }
          ln := ln.(settled := ln.settled + settled, returned := ln.returned + returned);
        } else if !ln.isPart && bike.Some? {
          match bike.value
          case SoldOn(invoice) =>
            if invoice.None? { return Err(NeedsInvoice); }
            ln := ln.(settled := 1);
          case ReturnedUnsold => ln := ln.(returned := 1);
        }
      }
      deliveries := deliveries[id := d.(lines := d.lines[i := ln])];
      return Ok(());
    }

    method Settle(id: nat, parts: map<nat, C.PartReport>, bikes: map<nat, C.BikeReport>) returns (r: Outcome<(), Error>)
      modifies this`deliveries, inventory
      ensures Did(old(State()), State(), old(SettleSpec(id, parts, bikes)), r)
      ensures id < |old(deliveries)| && ConsignmentsSound(old(inventory.State()), old(deliveries))
              && old(deliveries[id]).mode.ConsignmentMode? && C.Reconcilable(old(deliveries[id]).status) ==>
        && (r.Err? <==> C.SoldNeedInvoice(old(deliveries[id]).lines, bikes, 0))
        && (r.Ok? ==>
              && ConsignmentsSound(inventory.State(), deliveries)
              && OnlyFor(old(inventory.State()), inventory.State(), DeliveryDoc(id))
              && C.SettledAs(old(deliveries[id]), deliveries[id], parts, bikes)
              && forall key :: OnHand(old(inventory.State()), key) - OnHand(inventory.State(), key)
                            == Total(deliveries[id].lines, C.SettledAt(old(deliveries[id]).warehouse, key))
                             - Total(old(deliveries[id]).lines, C.SettledAt(old(deliveries[id]).warehouse, key)))
    {
      hide ConsignmentsSound, OnlyFor, C.SettledAs, C.SoldNeedInvoice;
      if id < |deliveries| { SettleKeeps(inventory.State(), deliveries, id, parts, bikes); }
      if id >= |deliveries| { return Err(NotFound); }
      var d := deliveries[id];
      if !d.mode.ConsignmentMode? || !C.Reconcilable(d.status) { return Err(WrongStatus); }
      var saved, table := inventory.State(), deliveries;
      var i := 0;
      while i < |d.lines|
        invariant 0 <= i <= |d.lines|
        invariant |deliveries| == |table| && |deliveries[id].lines| == |d.lines|
        invariant deliveries == table[id := d.(lines := deliveries[id].lines)]
        invariant C.SettleFrom(inventory.State(), id, d.warehouse, deliveries[id].lines, i, parts, bikes)
                  == C.SettleFrom(saved, id, d.warehouse, d.lines, 0, parts, bikes)
      {
        var done := SettleLine(id, i, C.Lookup(parts, i), C.Lookup(bikes, i));
        if done.Err? {
          inventory.Restore(saved);
          deliveries := table;
          return done;
        }
        i := i + 1;
      }
      deliveries := deliveries[id := deliveries[id].(status := C.ReconcileOutcome(deliveries[id].lines))];
      assert deliveries == table[id := deliveries[id]];
      return Ok(());
    }
  }

  // ---------------------------------------------------------------- loans

  /** The stock is sound and every issuance in the table agrees with it. */
  ghost predicate LoansSound(s: Stock, table: seq<I.Loan>) {
    StockSound(s) && forall id :: 0 <= id < |table| ==> I.Sound(s, id, table[id])
  }

  lemma OtherLoans(s: Stock, table: seq<I.Loan>, id: nat, t: Stock, after: I.Loan)
    requires LoansSound(s, table) && id < |table|
    requires StockSound(t) && I.Sound(t, id, after) && OnlyFor(s, t, IssuanceDoc(id))
    ensures LoansSound(t, table[id := after])
  {
    forall other | 0 <= other < |table| && other != id ensures I.Sound(t, other, table[other]) {
      Y.LoanUntouched(s, t, IssuanceDoc(id), other, table[other]);
    }
  }

  lemma IssueKeeps(s: Stock, table: seq<I.Loan>, id: nat)
    requires id < |table|
    ensures LoansSound(s, table) ==> (I.IssueLoan(s, id, table[id]).Ok? <==> I.Issuable(s, table[id]))
    ensures LoansSound(s, table) && I.IssueLoan(s, id, table[id]).Ok? ==>
      var (t, after) := I.IssueLoan(s, id, table[id]).value;
      && LoansSound(t, table[id := after])
      && OnlyFor(s, t, IssuanceDoc(id))
      && forall key :: OnHand(s, key) - OnHand(t, key) == Total(table[id].lines, I.ConsumedAt(table[id].warehouse, key))
  {
    if LoansSound(s, table) { I.IssueAcceptedIff(s, id, table[id]); }
    if LoansSound(s, table) && I.IssueLoan(s, id, table[id]).Ok? {
      var (t, after) := I.IssueLoan(s, id, table[id]).value;
      I.IssueLoanSound(s, id, table[id], t, after);
      OtherLoans(s, table, id, t, after);
    }
  }

  lemma ReturnLineKeeps(s: Stock, line: LineId, warehouse: nat, ln: I.Line, part: Option<int>, bike: bool)
    ensures StockSound(s) && I.InBounds(ln)
            && (ln.isPart && !ln.consumable ==>
                  HeldFor(s, line, Key(ln.item, warehouse)) == if ln.closed then 0 else ln.qty) ==>
      && I.ReturnLine(s, line, warehouse, ln, part, bike).Ok?
      && var (t, after) := I.ReturnLine(s, line, warehouse, ln, part, bike).value;
         && StockSound(t) && I.Progress(ln, after) && I.Honours(ln, after, part, bike)
         && I.ReturnEffect(s, t, line, warehouse, ln, after)
  {
    if StockSound(s) && I.InBounds(ln)
       && (ln.isPart && !ln.consumable ==> HeldFor(s, line, Key(ln.item, warehouse)) == if ln.closed then 0 else ln.qty)
    {
      I.ReturnLineSound(s, line, warehouse, ln, part, bike);
      I.ReturnLineFigures(s, line, warehouse, ln, part, bike);
    }
  }

  lemma ReturnKeeps(s: Stock, table: seq<I.Loan>, id: nat, parts: map<nat, int>, bikes: set<nat>)
    requires id < |table|
    ensures LoansSound(s, table) && I.Returnable(table[id].status) ==>
      && I.ReturnItems(s, id, table[id], parts, bikes).Ok?
      && var (t, after) := I.ReturnItems(s, id, table[id], parts, bikes).value;
         && LoansSound(t, table[id := after])
         && OnlyFor(s, t, IssuanceDoc(id))
         && I.ReturnedAs(table[id], after, parts, bikes)
         && (after.status.Returned? <==> I.AllReported(table[id].lines, parts, bikes))
         && (after.status.Returned? || after.status.PartiallyReturned?)
         && forall key :: OnHand(s, key) - OnHand(t, key) == Total(after.lines, I.MissingAt(table[id].warehouse, key))
                                                          - Total(table[id].lines, I.MissingAt(table[id].warehouse, key))
  {
    if LoansSound(s, table) && I.Returnable(table[id].status) {
      I.ReturnSound(s, id, table[id], parts, bikes);
      var (t, after) := I.ReturnItems(s, id, table[id], parts, bikes).value;
      I.ReturnedIff(s, id, table[id], parts, bikes, t, after);
      OtherLoans(s, table, id, t, after);
    }
  }

  class IssuanceService {
    const inventory: Inventory
    var loans: seq<I.Loan>

    constructor (inventory: Inventory)
      ensures this.inventory == inventory && loans == []
    {
      this.inventory := inventory;
      loans := [];
    }

    ghost function State(): (Stock, seq<I.Loan>)
      reads this, inventory
    {
      (inventory.State(), loans)
    }

    ghost function IssueSpec(id: nat): Outcome<(Stock, seq<I.Loan>), Error>
      reads this, inventory
    {
      if id >= |loans| then Err(NotFound) else OnTable(loans, id, I.IssueLoan(inventory.State(), id, loans[id]))
    }

    ghost function ReturnSpec(id: nat, parts: map<nat, int>, bikes: set<nat>): Outcome<(Stock, seq<I.Loan>), Error>
      reads this, inventory
    {
      if id >= |loans| then Err(NotFound)
      else OnTable(loans, id, I.ReturnItems(inventory.State(), id, loans[id], parts, bikes))
    }

    /** Consumables leave the shelf; everything else is held. */
    method Issue(id: nat) returns (r: Outcome<(), Error>)
      modifies this`loans, inventory
      ensures Did(old(State()), State(), old(IssueSpec(id)), r)
      ensures id < |old(loans)| && LoansSound(old(inventory.State()), old(loans)) ==>
        (r.Ok? <==> I.Issuable(old(inventory.State()), old(loans[id])))
      ensures r.Ok? && LoansSound(old(inventory.State()), old(loans)) ==>
        && LoansSound(inventory.State(), loans)
        && OnlyFor(old(inventory.State()), inventory.State(), IssuanceDoc(id))
        && forall key :: OnHand(old(inventory.State()), key) - OnHand(inventory.State(), key)
                      == Total(old(loans[id]).lines, I.ConsumedAt(old(loans[id]).warehouse, key))
    {
      hide LoansSound, OnlyFor, I.Issuable;
      if id < |loans| { IssueKeeps(inventory.State(), loans, id); }
      if id >= |loans| { return Err(NotFound); }
      var loan := loans[id];
      if !loan.status.Draft? { return Err(WrongStatus); }
      var saved := inventory.State();
      var i := 0;
      while i < |loan.lines|
        invariant 0 <= i <= |loan.lines|
        invariant loans == old(loans)
        invariant I.IssueLines(inventory.State(), id, loan.warehouse, loan.lines, i)
                  == I.IssueLines(saved, id, loan.warehouse, loan.lines, 0)
      {
        var ln := loan.lines[i];
        var key := Key(ln.item, loan.warehouse);
        if ln.isPart && ln.consumable {
          var issued := inventory.IssueStock(key, ln.qty, Handed(id));
          if issued.Err? {
            inventory.Restore(saved);
            return issued;
          }
        } else if ln.isPart {
          if key !in inventory.rows || Available(inventory.State(), key) < ln.qty {
            inventory.Restore(saved);
            return Err(Insufficient);
          }
          inventory.ReserveStock(LoanLine(id, i), key, ln.qty);
        }
        i := i + 1;
      }
      loans := loans[id := loan.(status := I.OutOnLoan)];
      return Ok(());
    }

    method SettlePartReturn(line: LineId, key: Key, missing: int) returns (r: Outcome<(), Error>)
      modifies inventory
      ensures Did(old(inventory.State()), inventory.State(),
                  I.SettlePartReturn(old(inventory.State()), line, key, missing), r)
      ensures StockSound(old(inventory.State())) && 0 <= missing <= HeldFor(old(inventory.State()), line, key)
              && HeldFor(old(inventory.State()), line, key) > 0 ==>
        && r.Ok? && StockSound(inventory.State())
        && Effect(old(inventory.State()), inventory.State(), key, -missing, IssuanceLoss(line), Some(line),
                  -HeldFor(old(inventory.State()), line, key))
    {
      hide StockSound, Effect;
      if StockSound(inventory.State()) && 0 <= missing <= HeldFor(inventory.State(), line, key)
         && HeldFor(inventory.State(), line, key) > 0
      {
        I.SettlePartReturnSound(inventory.State(), line, key, missing);
      }
      if missing > 0 {
        var lost := inventory.IssueAgainstReservation(key, missing, IssuanceLoss(line), line);
        if lost.Err? { return lost; }
      }
      var own := ActiveFor(inventory.holds, line);
      ActiveInRange(inventory.holds, line);
      if own.Some? && inventory.holds[own.value].qty > 0 {
        inventory.ReleaseHold(own.value, key);
      }
      return Ok(());
    }

    method ReturnLine(id: nat, i: nat, part: Option<int>, bike: bool) returns (r: Outcome<(), Error>)
      requires id < |loans| && i < |loans[id].lines|
      modifies this`loans, inventory
      ensures var loan := old(loans[id]);
              Did((old(inventory.State()), old(loans)), (inventory.State(), loans),
                  match I.ReturnLine(old(inventory.State()), LoanLine(id, i), loan.warehouse, loan.lines[i], part, bike)
                  case Ok(done) => Ok((done.0, old(loans)[id := loan.(lines := loan.lines[i := done.1])]))
                  case Err(error) => Err(error), r)
      ensures StockSound(old(inventory.State())) && I.InBounds(old(loans[id].lines[i]))
              && (old(loans[id].lines[i]).isPart && !old(loans[id].lines[i]).consumable ==>
                    HeldFor(old(inventory.State()), LoanLine(id, i),
                            Key(old(loans[id].lines[i]).item, old(loans[id]).warehouse))
                    == if old(loans[id].lines[i]).closed then 0 else old(loans[id].lines[i]).qty) ==>
        && r.Ok? && StockSound(inventory.State())
        && I.Progress(old(loans[id].lines[i]), loans[id].lines[i])
        && I.Honours(old(loans[id].lines[i]), loans[id].lines[i], part, bike)
        && I.ReturnEffect(old(inventory.State()), inventory.State(), LoanLine(id, i), loans[id].warehouse,
                          old(loans[id].lines[i]), loans[id].lines[i])
    {
      hide StockSound, I.ReturnEffect, I.Honours, I.Progress;
      ReturnLineKeeps(inventory.State(), LoanLine(id, i), loans[id].warehouse, loans[id].lines[i], part, bike);
      var loan := loans[id];
      var ln := loan.lines[i];
      if !ln.closed && !ln.consumable {
        if ln.isPart && part.Some? {
          var returned := Min(Max(0, part.value), ln.qty);
          var missing := Max(0, ln.qty - returned);
          var done := SettlePartReturn(LoanLine(id, i), Key(ln.item, loan.warehouse), missing);
          if done.Err? { return done; }
          ln := ln.(returned := returned, missing := missing, closed := true);
        } else if !ln.isPart && bike {
          ln := ln.(returned := 1, closed := true);
        }
      }
      loans := loans[id := loan.(lines := loan.lines[i := ln])];
      return Ok(());
    }

    method ReturnItems(id: nat, parts: map<nat, int>, bikes: set<nat>) returns (r: Outcome<(), Error>)
      modifies this`loans, inventory
      ensures Did(old(State()), State(), old(ReturnSpec(id, parts, bikes)), r)
      ensures id < |old(loans)| && LoansSound(old(inventory.State()), old(loans)) && I.Returnable(old(loans[id]).status) ==>
        && r.Ok? && LoansSound(inventory.State(), loans)
        && OnlyFor(old(inventory.State()), inventory.State(), IssuanceDoc(id))
        && I.ReturnedAs(old(loans[id]), loans[id], parts, bikes)
        && (loans[id].status.Returned? <==> I.AllReported(old(loans[id]).lines, parts, bikes))
        && (loans[id].status.Returned? || loans[id].status.PartiallyReturned?)
        && forall key :: OnHand(old(inventory.State()), key) - OnHand(inventory.State(), key)
                      == Total(loans[id].lines, I.MissingAt(old(loans[id]).warehouse, key))
                       - Total(old(loans[id]).lines, I.MissingAt(old(loans[id]).warehouse, key))
    {
      hide LoansSound, OnlyFor, I.ReturnedAs, I.AllReported;
      if id < |loans| { ReturnKeeps(inventory.State(), loans, id, parts, bikes); }
      if id >= |loans| { return Err(NotFound); }
      var loan := loans[id];
      if !I.Returnable(loan.status) { return Err(WrongStatus); }
      var saved, table := inventory.State(), loans;
      var i := 0;
      while i < |loan.lines|
        invariant 0 <= i <= |loan.lines|
        invariant |loans| == |table| && |loans[id].lines| == |loan.lines|
        invariant loans == table[id := loan.(lines := loans[id].lines)]
        invariant I.ReturnFrom(inventory.State(), id, loan.warehouse, loans[id].lines, i, parts, bikes)
                  == I.ReturnFrom(saved, id, loan.warehouse, loan.lines, 0, parts, bikes)
      {
        var done := ReturnLine(id, i, I.Report(parts, i), i in bikes);
        if done.Err? {
          inventory.Restore(saved);
          loans := table;
          return done;
        }
        i := i + 1;
      }
      loans := loans[id := loans[id].(status := I.ReturnOutcome(loans[id].lines))];
      assert loans == table[id := loans[id]];
      return Ok(());
    }
  }

  // ---------------------------------------------------------------- dispatch notes

  /** The stock is sound, every note's figures reconcile and every open note's motorcycles are where it says. */
  ghost predicate NotesSound(s: Stock, places: D.Places, notes: seq<D.Note>) {
    StockSound(s) && D.BikesSound(notes, places) && forall n :: 0 <= n < |notes| ==> D.LinesSound(notes[n])
  }

  lemma CreateKeeps(s: Stock, notes: seq<D.Note>, places: D.Places, sold: set<nat>, from: nat, to: nat,
                    parts: seq<(nat, int)>, units: seq<nat>)
    ensures NotesSound(s, places, notes) && (forall i :: 0 <= i < |parts| ==> parts[i].1 > 0)
            && D.Create(s, notes, places, sold, from, to, parts, units).Ok? ==>
      NotesSound(s, places, notes + [D.Create(s, notes, places, sold, from, to, parts, units).value])
  {
    if NotesSound(s, places, notes) && (forall i :: 0 <= i < |parts| ==> parts[i].1 > 0)
       && D.Create(s, notes, places, sold, from, to, parts, units).Ok?
    {
      D.CreateSound(s, notes, places, sold, from, to, parts, units,
                    D.Create(s, notes, places, sold, from, to, parts, units).value);
    }
  }

  /** Dispatching loses no goods of any product, and leaves each motorcycle of the note at no location. */
  lemma DispatchKeeps(s: Stock, places: D.Places, notes: seq<D.Note>, id: nat)
    requires id < |notes|
    ensures NotesSound(s, places, notes) ==> (D.DispatchNote(s, places, id, notes[id]).Ok? <==> D.Dispatchable(s, notes[id]))
    ensures D.DispatchNote(s, places, id, notes[id]).Ok? ==>
      var t := D.DispatchNote(s, places, id, notes[id]).value.0;
      forall key :: OnHand(t, key)
        == OnHand(s, key) - (if key.warehouse == notes[id].from then Total(notes[id].lines, D.DispatchedOf(key.product)) else 0)
    ensures NotesSound(s, places, notes) && D.DispatchNote(s, places, id, notes[id]).Ok? ==>
      var (t, placed, after) := D.DispatchNote(s, places, id, notes[id]).value;
      && NotesSound(t, placed, notes[id := after])
      && OnlyFor(s, t, NoteDoc(id))
      && D.Conserves(s, notes[id], t, after)
  {
    if NotesSound(s, places, notes) { D.DispatchAcceptedIff(s, places, id, notes[id]); }
    if D.DispatchNote(s, places, id, notes[id]).Ok? {
      forall key
        ensures OnHand(D.DispatchNote(s, places, id, notes[id]).value.0, key) == OnHand(s, key)
                - if key.warehouse == notes[id].from then Total(notes[id].lines, D.DispatchedOf(key.product)) else 0
      {
        D.DispatchShelves(s, places, id, notes[id], key);
      }
    }
    if NotesSound(s, places, notes) && D.DispatchNote(s, places, id, notes[id]).Ok? {
      var (t, placed, after) := D.DispatchNote(s, places, id, notes[id]).value;
      D.DispatchConserves(s, places, id, notes[id], t, placed, after);
      D.DispatchBikes(s, notes, places, id, t, placed, after);
    }
  }

  lemma ReceiveKeeps(s: Stock, places: D.Places, notes: seq<D.Note>, id: nat, parts: map<nat, D.PartReport>, bikes: map<nat, bool>)
    requires id < |notes|
    ensures NotesSound(s, places, notes) && D.ReceiveNote(s, places, id, notes[id], parts, bikes).Ok? ==>
      var (t, placed, after) := D.ReceiveNote(s, places, id, notes[id], parts, bikes).value;
      && NotesSound(t, placed, notes[id := after])
      && OnlyFor(s, t, NoteDoc(id))
      && D.ReceivedAs(notes[id], after, parts, bikes)
      && (forall key :: OnHand(t, key) == OnHand(s, key)
            + if key.warehouse == notes[id].to then Total(after.lines, D.ReceivedOf(key.product)) else 0)
      && (D.Conserves(s, notes[id], t, after) <==> D.NothingReceivedYet(notes[id]))
  {
    if NotesSound(s, places, notes) && D.ReceiveNote(s, places, id, notes[id], parts, bikes).Ok? {
      var (t, placed, after) := D.ReceiveNote(s, places, id, notes[id], parts, bikes).value;
      D.ReceiveExcess(s, places, id, notes[id], parts, bikes, t, placed, after);
      D.ReceiveConservesIff(s, places, id, notes[id], parts, bikes, t, placed, after);
      D.ReceiveBikes(s, notes, places, id, parts, bikes, t, placed, after);
      D.ReceiveRecords(s, places, id, notes[id], parts, bikes);
      forall key
        ensures OnHand(t, key) == OnHand(s, key)
                + if key.warehouse == notes[id].to then Total(after.lines, D.ReceivedOf(key.product)) else 0
      {
        D.ReceiveShelves(s, places, id, notes[id], parts, bikes, key);
      }
    }
  }

  lemma ReceiveLineKeeps(st: D.State, id: nat, note: D.Note, i: nat, part: Option<D.PartReport>, confirmed: bool)
    requires i < |st.lines|
    ensures StockSound(st.stock) && D.LineInBounds(st.lines[i]) && D.ReceiveLine(st, id, note, i, part, confirmed).Ok? ==>
      var next := D.ReceiveLine(st, id, note, i, part, confirmed).value;
      && StockSound(next.stock) && OnlyFor(st.stock, next.stock, NoteDoc(id))
      && D.Reconciles(next.lines[i])
      && forall product :: D.Shelved(next.stock, product)
                        == D.Shelved(st.stock, product) + D.ReceivedOf(product)(next.lines[i])
  {
    if StockSound(st.stock) && D.LineInBounds(st.lines[i]) && D.ReceiveLine(st, id, note, i, part, confirmed).Ok? {
      D.ReceiveLineSound(st, id, note, i, part, confirmed, D.ReceiveLine(st, id, note, i, part, confirmed).value);
    }
  }

  /** A receipt of a line looks at the two ends of its note alone. */
  lemma ReceiveLineEnds(st: D.State, id: nat, note: D.Note, other: D.Note, i: nat, part: Option<D.PartReport>, confirmed: bool)
    requires i < |st.lines| && note.from == other.from && note.to == other.to
    ensures D.ReceiveLine(st, id, note, i, part, confirmed) == D.ReceiveLine(st, id, other, i, part, confirmed)
    ensures D.ReceiveLine(st, id, note, i, part, confirmed).Ok? ==>
              |D.ReceiveLine(st, id, note, i, part, confirmed).value.lines| == |st.lines|
  {
  }

  class DispatchService {
    const inventory: Inventory
    var notes: seq<D.Note>
    var places: D.Places

    constructor (inventory: Inventory)
      ensures this.inventory == inventory
      ensures notes == []
      ensures places == map[]
    {
      this.inventory := inventory;
      notes, places := [], map[];
    }

    ghost function State(): (Stock, D.Places, seq<D.Note>)
      reads this, inventory
    {
      (inventory.State(), places, notes)
    }

    ghost function Specified(id: nat, r: Outcome<(Stock, D.Places, D.Note), Error>): Outcome<(Stock, D.Places, seq<D.Note>), Error>
      requires id < |notes|
      reads this
    {
      match r
      case Ok(done) => Ok((done.0, done.1, notes[id := done.2]))
      case Err(error) => Err(error)
    }

    ghost function DispatchSpec(id: nat): Outcome<(Stock, D.Places, seq<D.Note>), Error>
      reads this, inventory
    {
      if id >= |notes| then Err(NotFound) else Specified(id, D.DispatchNote(inventory.State(), places, id, notes[id]))
    }

    ghost function ReceiveSpec(id: nat, parts: map<nat, D.PartReport>, bikes: map<nat, bool>)
      : Outcome<(Stock, D.Places, seq<D.Note>), Error>
      reads this, inventory
    {
      if id >= |notes| then Err(NotFound)
      else Specified(id, D.ReceiveNote(inventory.State(), places, id, notes[id], parts, bikes))
    }

    /** Checks and lists the parts, then the motorcycles one by one; a refused line creates no note. */
    method Create(sold: set<nat>, from: nat, to: nat, parts: seq<(nat, int)>, units: seq<nat>) returns (r: Outcome<nat, Error>)
      modifies this`notes
      ensures Did(old(notes), notes,
                  match D.Create(inventory.State(), old(notes), places, sold, from, to, parts, units)
                  case Ok(note) => Ok(old(notes) + [note])
                  case Err(error) => Err(error), r)
      ensures r.Ok? <==> D.Creatable(inventory.State(), old(notes), places, sold, from, to, parts, units)
      ensures r.Ok? ==>
        && r.value == |old(notes)| && |notes| == |old(notes)| + 1 && notes[..|old(notes)|] == old(notes)
        && D.ListsRequest(notes[|old(notes)|], from, to, parts, units)
      ensures r.Ok? && NotesSound(inventory.State(), places, old(notes)) && (forall i :: 0 <= i < |parts| ==> parts[i].1 > 0) ==>
        NotesSound(inventory.State(), places, notes)
    {
      hide NotesSound, D.Creatable, D.ListsRequest;
      D.CreateIff(inventory.State(), notes, places, sold, from, to, parts, units);
      CreateKeeps(inventory.State(), notes, places, sold, from, to, parts, units);
      if from == to { return Err(SameWarehouse); }
      if from !in inventory.warehouses { return Err(NotFound); }
      if to !in inventory.warehouses { return Err(NotFound); }
      var lines: seq<D.Line> := [];
      var i := 0;
      while i < |parts|
        invariant 0 <= i <= |parts|
        invariant lines == D.PartLines(parts[..i])
        invariant forall k :: 0 <= k < i ==> parts[k].0 in inventory.products
      {
        if parts[i].0 !in inventory.products { return Err(NotFound); }
        lines := lines + [D.Line(true, parts[i].0, parts[i].1, 0, 0, 0)];
        i := i + 1;
      }
      assert parts[..i] == parts;
      var seen: set<nat> := {};
      i := 0;
      while i < |units|
        invariant 0 <= i <= |units|
        invariant seen == set u | u in units[..i]
        invariant lines == D.PartLines(parts) + D.BikeLines(units[..i])
        invariant D.CheckBikes(notes, places, sold, from, units, i) == D.CheckBikes(notes, places, sold, from, units, 0)
      {
        var unit := units[i];
        if unit !in places { return Err(NotFound); }
        if unit in seen { return Err(Duplicated); }
        if unit in sold { return Err(UnitUnavailable); }
        if places[unit].Some? && places[unit].value != from { return Err(NotAtSource); }
        if D.UnitOnOpenNote(notes, unit) { return Err(UnitUnavailable); }
        seen := seen + {unit};
        lines := lines + [D.Line(false, unit, 1, 0, 0, 0)];
        i := i + 1;
      }
      assert units[..i] == units;
      notes := notes + [D.Note(D.Draft, from, to, lines)];
      return Ok(|notes| - 1);
    }

    method Dispatch(id: nat) returns (r: Outcome<(), Error>)
      modifies this, inventory
      ensures Did(old(State()), State(), old(DispatchSpec(id)), r)
      ensures id < |old(notes)| && NotesSound(old(inventory.State()), old(places), old(notes)) ==>
        (r.Ok? <==> D.Dispatchable(old(inventory.State()), old(notes[id])))
      ensures r.Ok? ==>
        forall key :: OnHand(inventory.State(), key) == OnHand(old(inventory.State()), key)
          - (if key.warehouse == old(notes[id]).from then Total(old(notes[id]).lines, D.DispatchedOf(key.product)) else 0)
      ensures r.Ok? && NotesSound(old(inventory.State()), old(places), old(notes)) ==>
        && NotesSound(inventory.State(), places, notes)
        && OnlyFor(old(inventory.State()), inventory.State(), NoteDoc(id))
        && D.Conserves(old(inventory.State()), old(notes[id]), inventory.State(), notes[id])
    {
      hide NotesSound, OnlyFor, D.Conserves, D.Dispatchable;
      if id < |notes| { DispatchKeeps(inventory.State(), places, notes, id); }
      if id >= |notes| { return Err(NotFound); }
      var note := notes[id];
      if !note.status.Draft? { return Err(WrongStatus); }
      var saved := inventory.State();
      var i := 0;
      while i < |note.lines|
        invariant 0 <= i <= |note.lines|
        invariant notes == old(notes) && places == old(places)
        invariant D.IssueParts(inventory.State(), id, note, i) == D.IssueParts(saved, id, note, 0)
      {
        var ln := note.lines[i];
        if ln.isPart {
          var issued := inventory.IssueStock(Key(ln.item, note.from), ln.dispatched, OnNote(id));
          if issued.Err? {
            inventory.Restore(saved);
            return issued;
          }
        }
        i := i + 1;
      }
      i := 0;
      ghost var issued := inventory.State();
      while i < |note.lines|
        invariant 0 <= i <= |note.lines|
        invariant notes == old(notes) && inventory.State() == issued
        invariant places == D.Depart(old(places), note.lines[..i])
      {
        assert note.lines[..i + 1][..i] == note.lines[..i];
        if !note.lines[i].isPart {
          places := places[note.lines[i].item := None];
        }
        i := i + 1;
      }
      assert note.lines[..i] == note.lines;
      notes := notes[id := note.(status := D.InTransit)];
      return Ok(());
    }

    /** One line of a receipt: parts reach the destination shelf, a motorcycle reaches a location. */
    method ReceiveLine(id: nat, i: nat, part: Option<D.PartReport>, confirmed: bool) returns (r: Outcome<(), Error>)
      requires id < |notes| && i < |notes[id].lines|
      modifies this, inventory
      ensures var note := old(notes[id]);
              Did(old(State()), State(),
                  match D.ReceiveLine(D.State(old(inventory.State()), old(places), note.lines), id, note, i, part, confirmed)
                  case Ok(st) => Ok((st.stock, st.places, old(notes)[id := note.(lines := st.lines)]))
                  case Err(error) => Err(error), r)
      ensures r.Ok? && StockSound(old(inventory.State())) && D.LineInBounds(old(notes[id].lines[i])) ==>
        && StockSound(inventory.State())
        && OnlyFor(old(inventory.State()), inventory.State(), NoteDoc(id))
        && D.Reconciles(notes[id].lines[i])
        && forall product :: D.Shelved(inventory.State(), product)
                          == D.Shelved(old(inventory.State()), product) + D.ReceivedOf(product)(notes[id].lines[i])
    {
      hide StockSound, OnlyFor;
      ReceiveLineKeeps(D.State(inventory.State(), places, notes[id].lines), id, notes[id], i, part, confirmed);
      var note := notes[id];
      var ln := note.lines[i];
      if ln.isPart {
        var received := if part.None? then ln.dispatched else Min(Max(0, part.value.received), ln.dispatched);
        var damaged := if part.None? then 0 else Min(Max(0, part.value.damaged), ln.dispatched - received);
        var missing := Max(0, ln.dispatched - received - damaged);
        if received > 0 {
          var shelved := inventory.ReceiveStock(Key(ln.item, note.to), received, OnNote(id));
          if shelved.Err? { return shelved; }
        }
        ln := ln.(received := received, damaged := damaged, missing := missing);
      } else {
        var unit := ln.item;
        if confirmed {
          places := places[unit := Some(note.to)];
          ln := ln.(received := 1, missing := 0);
        } else {
          places := places[unit := Some(note.from)];
          ln := ln.(received := 0, missing := 1);
        }
      }
      notes := notes[id := note.(lines := note.lines[i := ln])];
      return Ok(());
    }

    method Receive(id: nat, parts: map<nat, D.PartReport>, bikes: map<nat, bool>) returns (r: Outcome<(), Error>)
      modifies this, inventory
      ensures Did(old(State()), State(), old(ReceiveSpec(id, parts, bikes)), r)
      ensures r.Ok? && NotesSound(old(inventory.State()), old(places), old(notes)) ==>
        && NotesSound(inventory.State(), places, notes)
        && OnlyFor(old(inventory.State()), inventory.State(), NoteDoc(id))
        && D.ReceivedAs(old(notes[id]), notes[id], parts, bikes)
        && (forall key :: OnHand(inventory.State(), key) == OnHand(old(inventory.State()), key)
              + if key.warehouse == old(notes[id]).to then Total(notes[id].lines, D.ReceivedOf(key.product)) else 0)
        && (D.Conserves(old(inventory.State()), old(notes[id]), inventory.State(), notes[id])
            <==> D.NothingReceivedYet(old(notes[id])))
    {
      hide NotesSound, OnlyFor, D.Conserves, D.NothingReceivedYet, D.ReceiveLine, D.ReceivedAs;
      if id < |notes| { ReceiveKeeps(inventory.State(), places, notes, id, parts, bikes); }
      if id >= |notes| { return Err(NotFound); }
      var note := notes[id];
      if !D.Receivable(note.status) { return Err(WrongStatus); }
      var saved, table, located := inventory.State(), notes, places;
      var i := 0;
      while i < |note.lines|
        invariant 0 <= i <= |note.lines|
        invariant |notes| == |table| && |notes[id].lines| == |note.lines|
        invariant notes == table[id := note.(lines := notes[id].lines)]
        invariant D.ReceiveFrom(D.State(inventory.State(), places, notes[id].lines), id, note, i, parts, bikes)
                  == D.ReceiveFrom(D.State(saved, located, note.lines), id, note, 0, parts, bikes)
      {
        ReceiveLineEnds(D.State(inventory.State(), places, notes[id].lines), id, note, notes[id], i,
                        D.Report(parts, i), D.Arrived(bikes, i));
        var done := ReceiveLine(id, i, D.Report(parts, i), D.Arrived(bikes, i));
        if done.Err? {
          inventory.Restore(saved);
          notes, places := table, located;
          return done;
        }
        i := i + 1;
      }
      notes := notes[id := notes[id].(status := D.ReceiveOutcome(notes[id].lines))];
      assert notes == table[id := notes[id]];
      return Ok(());
    }
  }

  // ---------------------------------------------------------------- repairs

  /** The lines of a repair while its first `i` have been consumed. */
  ghost function Marked(lines: seq<B.Line>, i: nat): seq<B.Line> {
    seq(|lines|, k requires 0 <= k < |lines| => if k < i then lines[k].(consumed := true) else lines[k])
  }

  lemma MarkNext(lines: seq<B.Line>, i: nat)
    requires i < |lines|
    ensures |Marked(lines, i)| == |lines|
    ensures Marked(lines, i)[i] == lines[i]
    ensures Marked(lines, i)[i := lines[i].(consumed := true)] == Marked(lines, i + 1)
  {
  }

  lemma MarkEnds(lines: seq<B.Line>)
    ensures Marked(lines, 0) == lines
    ensures Marked(lines, |lines|) == B.AllConsumed(lines)
  {
  }

  /** Writing back what is there changes nothing. */
  lemma WrittenBack<T>(table: seq<T>, i: nat)
    requires i < |table|
    ensures table[i := table[i]] == table
  {
  }

  /** The stock is sound, every issue agrees with it and every active issue's unit is on hold. */
  ghost predicate RepairsSound(s: Stock, units: B.Units, issues: seq<B.Issue>) {
    StockSound(s) && B.UnitsHeld(units, issues) && forall id :: 0 <= id < |issues| ==> B.Sound(s, id, issues[id])
  }

  lemma OpenKeeps(s: Stock, units: B.Units, issues: seq<B.Issue>, unit: nat, lines: seq<B.Line>)
    ensures RepairsSound(s, units, issues) && Y.AllPositive(lines) && (forall key :: Net(s, BikeRepair(|issues|), key) == 0)
            && B.OpenIssue(s, units, unit, lines).Ok? ==>
      RepairsSound(s, B.OpenIssue(s, units, unit, lines).value.0, issues + [B.OpenIssue(s, units, unit, lines).value.1])
  {
    if RepairsSound(s, units, issues) && Y.AllPositive(lines) && (forall key :: Net(s, BikeRepair(|issues|), key) == 0)
       && B.OpenIssue(s, units, unit, lines).Ok?
    {
      var (held, issue) := B.OpenIssue(s, units, unit, lines).value;
      B.OpenSound(s, units, issues, unit, lines, held, issue);
    }
  }

  lemma ResolveKeeps(s: Stock, units: B.Units, issues: seq<B.Issue>, id: nat, extra: seq<B.Line>)
    requires id < |issues|
    ensures RepairsSound(s, units, issues) && Y.AllPositive(extra) && B.Active(issues[id].status) ==>
      var lines := issues[id].lines + B.Built(extra);
      && (B.KnownLines(s, lines) ==>
            (B.Resolve(s, units, id, issues[id], extra).Ok? <==> forall key :: Total(lines, B.TakenAt(key)) <= Available(s, key)))
      && (B.Resolve(s, units, id, issues[id], extra).Ok? ==>
            var (t, freed, after) := B.Resolve(s, units, id, issues[id], extra).value;
            && RepairsSound(t, freed, issues[id := after])
            && OnlyFor(s, t, IssueDoc(id))
            && freed == units[issues[id].unit := issues[id].prior]
            && forall key :: OnHand(s, key) - OnHand(t, key) == Total(after.lines, B.TakenAt(key)))
  {
    if RepairsSound(s, units, issues) && Y.AllPositive(extra) && B.Active(issues[id].status) {
      B.ResolveSound(s, units, issues, id, extra);
      if B.Resolve(s, units, id, issues[id], extra).Ok? {
        var (t, freed, after) := B.Resolve(s, units, id, issues[id], extra).value;
        forall other | 0 <= other < |issues| && other != id ensures B.Sound(t, other, issues[other]) {
          Y.RepairUntouched(s, t, IssueDoc(id), other, issues[other]);
        }
      }
    }
  }

  class RepairService {
    const inventory: Inventory
    var issues: seq<B.Issue>
    var units: B.Units

    constructor (inventory: Inventory)
      ensures this.inventory == inventory
      ensures issues == []
      ensures units == map[]
    {
      this.inventory := inventory;
      issues, units := [], map[];
    }

    ghost function State(): (Stock, B.Units, seq<B.Issue>)
      reads this, inventory
    {
      (inventory.State(), units, issues)
    }

    ghost function ResolveSpec(id: nat, extra: seq<B.Line>): Outcome<(Stock, B.Units, seq<B.Issue>), Error>
      reads this, inventory
    {
      if id >= |issues| then Err(NotFound)
      else
        match B.Resolve(inventory.State(), units, id, issues[id], extra)
        case Ok(done) => Ok((done.0, done.1, issues[id := done.2]))
        case Err(error) => Err(error)
    }

    ghost function OnIssue(id: nat, r: Outcome<B.Issue, Error>): Outcome<seq<B.Issue>, Error>
      requires id < |issues|
      reads this
    {
      match r case Ok(issue) => Ok(issues[id := issue]) case Err(error) => Err(error)
    }

    /** Checks a requested line; it is not consumed yet. */
    method BuildLine(line: B.Line) returns (r: Outcome<B.Line, Error>)
      ensures r == if B.KnownLines(inventory.State(), [line]) then Ok(line.(consumed := false)) else Err(NotFound)
    {
      assert [line][0] == line;
      if line.product !in inventory.products { return Err(NotFound); }
      if line.warehouse !in inventory.warehouses { return Err(NotFound); }
      return Ok(line.(consumed := false));
    }

    method BuildLines(lines: seq<B.Line>) returns (r: Outcome<seq<B.Line>, Error>)
      ensures r == if B.KnownLines(inventory.State(), lines) then Ok(B.Built(lines)) else Err(NotFound)
    {
      var built: seq<B.Line> := [];
      var i := 0;
      while i < |lines|
        invariant 0 <= i <= |lines|
        invariant B.KnownLines(inventory.State(), lines[..i]) && built == B.Built(lines[..i])
      {
        var line := BuildLine(lines[i]);
        assert lines[..i + 1] == lines[..i] + [lines[i]];
        if line.Err? {
          assert !B.KnownLines(inventory.State(), lines) by { assert [lines[i]][0] == lines[i]; }
          return Err(line.error);
        }
        built := built + [line.value];
        i := i + 1;
      }
      assert lines[..i] == lines;
      return Ok(built);
    }

    method Open(unit: nat, lines: seq<B.Line>) returns (r: Outcome<nat, Error>)
      modifies this
      ensures Did((old(units), old(issues)), (units, issues),
                  match B.OpenIssue(inventory.State(), old(units), unit, lines)
                  case Ok(done) => Ok((done.0, old(issues) + [done.1]))
                  case Err(error) => Err(error), r)
      ensures r.Ok? <==>
        && unit in old(units) && old(units)[unit] in {B.Unassembled, B.Assembled}
        && forall i :: 0 <= i < |lines| ==> lines[i].product in inventory.products && lines[i].warehouse in inventory.warehouses
      ensures r.Ok? ==>
        && r.value == |old(issues)| && |issues| == |old(issues)| + 1 && issues[..|old(issues)|] == old(issues)
        && B.AllAsRequested(lines, issues[|old(issues)|].lines)
        && issues[|old(issues)|].unit == unit && issues[|old(issues)|].prior == old(units)[unit]
        && units == old(units)[unit := B.OnHold]
      ensures r.Ok? && RepairsSound(inventory.State(), old(units), old(issues)) && Y.AllPositive(lines)
              && (forall key :: Net(inventory.State(), BikeRepair(|old(issues)|), key) == 0) ==>
        RepairsSound(inventory.State(), units, issues)
    {
      hide RepairsSound, Y.AllPositive, B.AllAsRequested;
      B.OpenIff(inventory.State(), units, unit, lines);
      OpenKeeps(inventory.State(), units, issues, unit, lines);
      if unit !in units { return Err(NotFound); }
      if !B.OpenableFrom(units[unit]) { return Err(UnitUnavailable); }
      var built := BuildLines(lines);
      if built.Err? { return Err(built.error); }
      issues := issues + [B.Issue(B.Open, unit, units[unit], built.value)];
      units := units[unit := B.OnHold];
      return Ok(|issues| - 1);
    }

    method AddLine(id: nat, line: B.Line) returns (r: Outcome<(), Error>)
      modifies this`issues
      ensures Did(old(issues), issues,
                  if id >= |old(issues)| then Err(NotFound)
                  else old(OnIssue(id, B.AddLine(inventory.State(), issues[id], line))), r)
      ensures r.Ok? && B.UnitsHeld(units, old(issues)) && B.Sound(inventory.State(), id, old(issues[id])) && line.qty > 0 ==>
        B.UnitsHeld(units, issues) && B.Sound(inventory.State(), id, issues[id])
      ensures r.Ok? <==>
        && id < |old(issues)| && !old(issues[id]).status.Resolved?
        && line.product in inventory.products && line.warehouse in inventory.warehouses
      ensures r.Ok? ==>
        && |issues[id].lines| == |old(issues[id]).lines| + 1
        && issues[id].lines[..|old(issues[id]).lines|] == old(issues[id]).lines
        && B.AsRequested(line, issues[id].lines[|old(issues[id]).lines|])
    {
      if id < |issues| { B.AddLineIff(inventory.State(), issues[id], line); }
      if id >= |issues| { return Err(NotFound); }
      if !B.Active(issues[id].status) { return Err(WrongStatus); }
      var built := BuildLine(line);
      if built.Err? { return Err(built.error); }
      issues := issues[id := issues[id].(lines := issues[id].lines + [built.value])];
      assert B.Built([line]) == [built.value];
      if B.UnitsHeld(units, old(issues)) && B.Sound(inventory.State(), id, old(issues[id])) && line.qty > 0 {
        assert B.AddLine(inventory.State(), old(issues[id]), line) == Ok(issues[id]);
        B.EditSound(inventory.State(), units, old(issues), id, issues[id]);
      }
      return Ok(());
    }

    method RemoveLine(id: nat, j: nat) returns (r: Outcome<(), Error>)
      modifies this`issues
      ensures Did(old(issues), issues,
                  if id >= |old(issues)| then Err(NotFound) else old(OnIssue(id, B.RemoveLine(issues[id], j))), r)
      ensures r.Ok? && B.UnitsHeld(units, old(issues)) && B.Sound(inventory.State(), id, old(issues[id])) ==>
        B.UnitsHeld(units, issues) && B.Sound(inventory.State(), id, issues[id])
      ensures r.Ok? <==>
        id < |old(issues)| && !old(issues[id]).status.Resolved? && j < |old(issues[id]).lines| && !old(issues[id]).lines[j].consumed
      ensures r.Ok? ==>
        && |issues[id].lines| == |old(issues[id]).lines| - 1
        && (forall k :: 0 <= k < j ==> issues[id].lines[k] == old(issues[id]).lines[k])
        && (forall k :: j <= k < |issues[id].lines| ==> issues[id].lines[k] == old(issues[id]).lines[k + 1])
    {
      if id < |issues| { B.RemoveLineIff(issues[id], j); }
      if id >= |issues| { return Err(NotFound); }
      var issue := issues[id];
      if !B.Active(issue.status) { return Err(WrongStatus); }
      if j >= |issue.lines| { return Err(NotFound); }
      if issue.lines[j].consumed { return Err(WrongStatus); }
      issues := issues[id := issue.(lines := issue.lines[..j] + issue.lines[j + 1..])];
      if B.UnitsHeld(units, old(issues)) && B.Sound(inventory.State(), id, old(issues[id])) {
        assert B.RemoveLine(old(issues[id]), j) == Ok(issues[id]);
        B.EditSound(inventory.State(), units, old(issues), id, issues[id]);
      }
      return Ok(());
    }

    method SetStatus(id: nat, status: B.Status) returns (r: Outcome<(), Error>)
      modifies this`issues
      ensures Did(old(issues), issues,
                  if id >= |old(issues)| then Err(NotFound) else old(OnIssue(id, B.SetStatus(issues[id], status))), r)
      ensures r.Ok? && B.UnitsHeld(units, old(issues)) && B.Sound(inventory.State(), id, old(issues[id])) ==>
        B.UnitsHeld(units, issues) && B.Sound(inventory.State(), id, issues[id])
      ensures r.Ok? <==>
        && id < |old(issues)| && !status.Resolved?
        && (status == old(issues[id]).status || (old(issues[id]).status.Open? && status.InRepair?))
      ensures r.Ok? ==> issues == old(issues)[id := old(issues[id]).(status := status)]
    {
      if id < |issues| { B.SetStatusIff(issues[id], status); }
      if id >= |issues| { return Err(NotFound); }
      if status.Resolved? { return Err(WrongStatus); }
      if status != issues[id].status {
        if !B.CanTransition(issues[id].status, status) { return Err(WrongStatus); }
        issues := issues[id := issues[id].(status := status)];
      }
      assert issues == old(issues)[id := issues[id]];
      if B.UnitsHeld(units, old(issues)) && B.Sound(inventory.State(), id, old(issues[id])) {
        assert B.SetStatus(old(issues[id]), status) == Ok(issues[id]);
        B.EditSound(inventory.State(), units, old(issues), id, issues[id]);
      }
      return Ok(());
    }

    /** Only if the unit is still on hold; otherwise somebody has moved it and it is left alone. */
    method ReleaseUnit(issue: B.Issue)
      modifies this`units
      ensures units == B.ReleaseUnit(old(units), issue)
      ensures units.Keys == old(units).Keys && forall u :: u in units && u != issue.unit ==> units[u] == old(units)[u]
      ensures issue.unit in units && old(units)[issue.unit].OnHold? && B.OpenableFrom(issue.prior) ==>
        units[issue.unit] == issue.prior
      ensures issue.unit in units && !old(units)[issue.unit].OnHold? ==> units == old(units)
    {
      if issue.unit !in units || !units[issue.unit].OnHold? { return; }
      var target := if B.OpenableFrom(issue.prior) then issue.prior else B.Assembled;
      if !B.UnitCanMove(B.OnHold, target) { target := B.Assembled; }
      units := units[issue.unit := target];
    }

    method ConsumeLine(id: nat, i: nat) returns (r: Outcome<(), Error>)
      requires id < |issues| && i < |issues[id].lines|
      modifies this`issues, inventory
      ensures var issue := old(issues[id]);
              var ln := issue.lines[i];
              Did((old(inventory.State()), old(issues)), (inventory.State(), issues),
                  match B.ConsumeLine(old(inventory.State()), id, ln)
                  case Ok(stock) => Ok((stock, old(issues)[id := issue.(lines := issue.lines[i := ln.(consumed := true)])]))
                  case Err(error) => Err(error), r)
    {
      var ln := issues[id].lines[i];
      if ln.consumed {
        WrittenBack(issues[id].lines, i);
        WrittenBack(issues, id);
        assert ln.(consumed := true) == ln && issues[id].(lines := issues[id].lines) == issues[id];
        return Ok(());
      }
      r := inventory.IssueStock(Key(ln.product, ln.warehouse), ln.qty, BikeRepair(id));
      if r.Ok? {
        issues := issues[id := issues[id].(lines := issues[id].lines[i := ln.(consumed := true)])];
      }
    }

    /** Deduct the issue's lines one by one, marking each consumed; stops at the first short part. */
    method ConsumeAll(id: nat) returns (r: Outcome<(), Error>)
      requires id < |issues|
      modifies this`issues, inventory
      ensures match B.ConsumeLines(old(inventory.State()), id, old(issues[id].lines), 0)
              case Ok(stock) =>
                && r.Ok? && inventory.State() == stock
                && issues == old(issues)[id := old(issues[id]).(lines := B.AllConsumed(old(issues[id].lines)))]
              case Err(error) => r == Err(error)
    {
      var issue, table := issues[id], issues;
      MarkEnds(issue.lines);
      assert table[id := issue] == table && issue.(lines := issue.lines) == issue;
      var i := 0;
      while i < |issue.lines|
        invariant 0 <= i <= |issue.lines|
        invariant issues == table[id := issue.(lines := Marked(issue.lines, i))]
        invariant B.ConsumeLines(inventory.State(), id, issue.lines, i)
                  == B.ConsumeLines(old(inventory.State()), id, issue.lines, 0)
      {
        MarkNext(issue.lines, i);
        r := ConsumeLine(id, i);
        if r.Err? { return; }
        assert issues == table[id := issues[id]];
        i := i + 1;
      }
      return Ok(());
    }

    /** Resolve, or change nothing when any part is short. */
    method Resolve(id: nat, extra: seq<B.Line>) returns (r: Outcome<(), Error>)
      modifies this, inventory
      ensures Did(old(State()), State(), old(ResolveSpec(id, extra)), r)
      ensures id < |old(issues)| && RepairsSound(old(inventory.State()), old(units), old(issues)) && Y.AllPositive(extra)
              && B.Active(old(issues[id]).status) ==>
        var lines := old(issues[id]).lines + B.Built(extra);
        && (B.KnownLines(old(inventory.State()), lines) ==>
              (r.Ok? <==> forall key :: Total(lines, B.TakenAt(key)) <= Available(old(inventory.State()), key)))
        && (r.Ok? ==>
              && RepairsSound(inventory.State(), units, issues)
              && OnlyFor(old(inventory.State()), inventory.State(), IssueDoc(id))
              && units == old(units)[old(issues[id]).unit := old(issues[id]).prior]
              && forall key :: OnHand(old(inventory.State()), key) - OnHand(inventory.State(), key)
                            == Total(issues[id].lines, B.TakenAt(key)))
    {
      hide RepairsSound, OnlyFor, Y.AllPositive;
      if id < |issues| { ResolveKeeps(inventory.State(), units, issues, id, extra); }
      if id >= |issues| { return Err(NotFound); }
      if !B.Active(issues[id].status) { return Err(WrongStatus); }
      var saved, table := inventory.State(), issues;
      var built := BuildLines(extra);
      if built.Err? { return Err(built.error); }
      issues := issues[id := issues[id].(lines := issues[id].lines + built.value)];
      r := ConsumeAll(id);
      if r.Err? {
        inventory.Restore(saved);
        issues := table;
        return;
      }
      ReleaseUnit(issues[id]);
      issues := issues[id := issues[id].(status := B.Resolved)];
      assert issues == table[id := issues[id]];
    }
  }

  // ---------------------------------------------------------------- import rollback

  lemma RollbackKeeps(s: Stock, job: nat, created: set<nat>, referenced: set<nat>)
    ensures StockSound(s) && S.Rollback(s, job, created, referenced).Ok? ==>
      var t := S.Rollback(s, job, created, referenced).value;
      && Spares(s, t, JobDoc(job))
      && (StockSound(t) <==> forall key :: key in S.Affected(s.moves, job) && key.product !in created ==> Damaged(s, key) == 0)
  {
    if StockSound(s) && S.Rollback(s, job, created, referenced).Ok? {
      S.RollbackSoundIff(s, job, created, referenced, S.Rollback(s, job, created, referenced).value);
    }
  }

  class RollbackService {
    const inventory: Inventory
    var jobs: map<nat, Y.JobStatus>

    constructor (inventory: Inventory)
      ensures this.inventory == inventory && jobs == map[]
    {
      this.inventory := inventory;
      jobs := map[];
    }

    ghost function State(): (Stock, map<nat, Y.JobStatus>)
      reads this, inventory
    {
      (inventory.State(), jobs)
    }

    ghost function RollbackSpec(job: nat, created: set<nat>, referenced: set<nat>): Outcome<(Stock, map<nat, Y.JobStatus>), Error>
      reads this, inventory
    {
      if job !in jobs || !jobs[job].Completed? then Err(WrongStatus)
      else
        match S.Rollback(inventory.State(), job, created, referenced)
        case Ok(stock) => Ok((stock, jobs[job := Y.RolledBack]))
        case Err(error) => Err(error)
    }

    /** The job's quantity on each inventory row it touched. */
    method PairQuantities(job: nat) returns (pairs: map<Key, int>)
      ensures pairs.Keys == S.Affected(inventory.moves, job)
      ensures forall key :: key in pairs ==> pairs[key] == Total(inventory.moves, S.JobQuantity(job, key))
    {
      pairs := map[];
      var moves := inventory.moves;
      var k := 0;
      while k < |moves|
        invariant 0 <= k <= |moves|
        invariant pairs.Keys == S.Affected(moves[..k], job)
        invariant forall key :: (if key in pairs then pairs[key] else 0) == Total(moves[..k], S.JobQuantity(job, key))
      {
        ghost var before := pairs;
        var m := moves[k];
        if S.FromJob(m, job) {
          pairs := pairs[m.key := (if m.key in pairs then pairs[m.key] else 0) + m.quantity];
        }
        assert moves[..k + 1] == moves[..k] + [m];
        forall key
          ensures (if key in pairs then pairs[key] else 0) == Total(moves[..k + 1], S.JobQuantity(job, key))
        {
          TotalAppend(moves[..k], m, S.JobQuantity(job, key));
          assert (if key in before then before[key] else 0) == Total(moves[..k], S.JobQuantity(job, key));
        }
        AffectedNext(moves[..k], m, job);
        k := k + 1;
      }
      assert moves[..k] == moves;
    }

    /** Take each pair's quantity back off its row. */
    method ReverseStock(job: nat, pairs: map<Key, int>)
      requires pairs.Keys == S.Affected(inventory.moves, job)
      requires forall key :: key in pairs ==> pairs[key] == Total(inventory.moves, S.JobQuantity(job, key))
      modifies inventory
      ensures inventory.State() == old(inventory.State()).(rows := S.Undone(old(inventory.State()), job))
    {
      ghost var before := inventory.State();
      var todo := pairs.Keys;
      while todo != {}
        invariant todo <= pairs.Keys && inventory.rows.Keys == before.rows.Keys
        invariant inventory.State() == before.(rows := inventory.rows)
        invariant forall key :: key in before.rows ==>
                    inventory.rows[key] == if key in todo then before.rows[key] else S.Undone(before, job)[key]
        decreases todo
      {
        var key :| key in todo;
        if key in inventory.rows {
          var row := inventory.rows[key];
          inventory.rows := inventory.rows[key := row.(onHand := row.onHand - pairs[key], version := row.version + 1)];
        }
        todo := todo - {key};
      }
      assert inventory.rows == S.Undone(before, job);
    }

    method DeleteMovements(job: nat)
      modifies inventory
      ensures inventory.State() == old(inventory.State()).(moves := S.WithoutJob(old(inventory.moves), job))
    {
      var moves, kept := inventory.moves, [];
      var k := 0;
      while k < |moves|
        invariant 0 <= k <= |moves| && kept == S.WithoutJob(moves[..k], job)
        invariant inventory.State() == old(inventory.State())
      {
        assert moves[..k + 1][..k] == moves[..k];
        if !S.FromJob(moves[k], job) { kept := kept + [moves[k]]; }
        k := k + 1;
      }
      assert moves[..k] == moves;
      inventory.moves := kept;
    }

    /** Refused as a whole when stock has moved since, or when a created product is still named anywhere. */
    method Rollback(job: nat, created: set<nat>, referenced: set<nat>) returns (r: Outcome<(), Error>)
      modifies this, inventory
      ensures Did(old(State()), State(), old(RollbackSpec(job, created, referenced)), r)
      ensures r.Ok? <==>
        && job in old(jobs) && old(jobs)[job].Completed?
        && S.OnlyJobTouched(old(inventory.moves), job) && S.Unnamed(old(inventory.State()), job, created, referenced)
      ensures r.Ok? ==>
        && inventory.products == old(inventory.products) - created
        && inventory.warehouses == old(inventory.warehouses) && inventory.holds == old(inventory.holds)
        && (forall m :: m in inventory.moves <==> m in old(inventory.moves) && !S.FromJob(m, job))
        && (forall key :: key in inventory.rows <==> key in old(inventory.rows) && key.product !in created)
        && (forall key :: key in inventory.rows ==>
              && inventory.rows[key].onHand == old(inventory.rows)[key].onHand - Total(old(inventory.moves), S.JobQuantity(job, key))
              && inventory.rows[key].reserved == old(inventory.rows)[key].reserved)
        && jobs == old(jobs)[job := Y.RolledBack]
      ensures r.Ok? && StockSound(old(inventory.State())) ==>
        && Spares(old(inventory.State()), inventory.State(), JobDoc(job))
        && (StockSound(inventory.State()) <==>
              forall key :: key in S.Affected(old(inventory.moves), job) && key.product !in created ==>
                Damaged(old(inventory.State()), key) == 0)
    {
      hide StockSound, Spares, S.WithoutJob, S.Undone, S.OtherMovementExists, S.OnlyJobTouched, S.Unnamed, S.MovedIn, S.HeldIn;
      RollbackKeeps(inventory.State(), job, created, referenced);
      S.RollbackIff(inventory.State(), job, created, referenced);
      if job !in jobs || !jobs[job].Completed? { return Err(WrongStatus); }
      var saved := inventory.State();
      var pairs := PairQuantities(job);
      if exists key :: key in pairs && S.OtherMovementExists(inventory.moves, key, job) { return Err(StockMovedSince); }
      ReverseStock(job, pairs);
      DeleteMovements(job);
      if created * referenced != {}
         || S.MovedIn(inventory.moves, created)
         || S.HeldIn(inventory.holds, created)
      {
        inventory.Restore(saved);
        return Err(StillReferenced);
      }
      inventory.products := inventory.products - created;
      inventory.rows := map key | key in inventory.rows && key.product !in created :: inventory.rows[key];
      jobs := jobs[job := Y.RolledBack];
      return Ok(());
    }
  }

  lemma AffectedNext(moves: seq<Move>, m: Move, job: nat)
    ensures S.Affected(moves + [m], job) == S.Affected(moves, job) + if S.FromJob(m, job) then {m.key} else {}
  {
    var all := moves + [m];
    forall key ensures key in S.Affected(all, job) <==> key in S.Affected(moves, job) || (S.FromJob(m, job) && key == m.key) {
      if key in S.Affected(moves, job) {
        var i :| 0 <= i < |moves| && S.FromJob(moves[i], job) && moves[i].key == key;
        assert all[i] == moves[i];
      }
      assert all[|moves|] == m;
    }
  }
}
