/**
 Customer deliveries. A sale delivery is proof of a handover the sale already deducted for. A
 consignment holds its parts on dispatch; settling turns sold portions into a real deduction and
 releases returned ones, in any number of partial steps.
 */
module Consignment {
  import opened Common
  import opened Sums
  import opened Stock

  datatype Mode = SaleMode | ConsignmentMode

  datatype Status = Draft | Delivered | OutAtReseller | PartiallySettled | Settled | Returned | Cancelled

  /** A part line (a product and a quantity) or a motorcycle line (a unit, quantity one). */
  datatype Line = Line(isPart: bool, item: nat, qty: int, settled: int, returned: int)

  datatype Delivery = Delivery(mode: Mode, status: Status, warehouse: nat, lines: seq<Line>)

  datatype PartReport = PartReport(settled: int, returned: int)

  datatype BikeReport = SoldOn(invoice: Option<nat>) | ReturnedUnsold

  predicate Reconcilable(status: Status) { status.OutAtReseller? || status.PartiallySettled? }

  function Outstanding(ln: Line): int { ln.qty - ln.settled - ln.returned }

  /** Status after a settle, from the lines. */
  function ReconcileOutcome(lines: seq<Line>): Status {
    if |lines| == 0 then Settled
    else if exists i :: 0 <= i < |lines| && lines[i].settled + lines[i].returned < lines[i].qty then PartiallySettled
    else if exists i :: 0 <= i < |lines| && lines[i].settled > 0 then Settled
    else Returned
  }

  // ---------------------------------------------------------------- operations on one delivery

  function HoldLines(s: Stock, id: nat, warehouse: nat, lines: seq<Line>, i: nat): Outcome<Stock, Error>
    requires i <= |lines|
    decreases |lines| - i
  {
    if i == |lines| then Ok(s)
    else if !lines[i].isPart then HoldLines(s, id, warehouse, lines, i + 1)
    else
      var key := Key(lines[i].item, warehouse);
      if key !in s.rows || Available(s, key) < lines[i].qty then Err(Insufficient)
      else HoldLines(ReserveFor(s, ConsignmentLine(id, i), key, lines[i].qty), id, warehouse, lines, i + 1)
  }

  function Deliver(s: Stock, id: nat, d: Delivery): Outcome<(Stock, Delivery), Error> {
    if !d.status.Draft? then Err(WrongStatus)
    else if d.mode.SaleMode? then Ok((s, d.(status := Delivered)))
    else
      var t :- HoldLines(s, id, d.warehouse, d.lines, 0);
      Ok((t, d.(status := OutAtReseller)))
  }

  /** Sold portion: a real deduction drawn from the hold. Unsold portion: that much of the hold released. */
  function ReconcilePart(s: Stock, line: LineId, key: Key, settled: int, returned: int): Outcome<Stock, Error> {
    var t :- if settled > 0 then IssueAgainst(s, key, settled, ConsignmentSale(line), line) else Ok(s);
    if returned <= 0 then Ok(t)
    else
      var own := ActiveFor(t.holds, line);
      ActiveInRange(t.holds, line);
      Ok(if own.Some? && t.holds[own.value].qty > 0 then Consume(t, own.value, key, returned) else t)
  }

  function SettleLine(s: Stock, line: LineId, warehouse: nat, ln: Line, part: Option<PartReport>, bike: Option<BikeReport>)
    : Outcome<(Stock, Line), Error>
  {
    if ln.settled + ln.returned >= ln.qty then Ok((s, ln))
    else if ln.isPart then
      if part.None? then Ok((s, ln))
      else
        var remaining := ln.qty - (ln.settled + ln.returned);
        var settled := Min(Max(0, part.value.settled), remaining);
        var returned := Min(Max(0, part.value.returned), remaining - settled);
        var t :- ReconcilePart(s, line, Key(ln.item, warehouse), settled, returned);
        Ok((t, ln.(settled := ln.settled + settled, returned := ln.returned + returned)))
    else
      match bike
      case None => Ok((s, ln))
      case Some(SoldOn(invoice)) => if invoice.None? then Err(NeedsInvoice) else Ok((s, ln.(settled := 1)))
      case Some(ReturnedUnsold) => Ok((s, ln.(returned := 1)))
  }

  function Lookup<T>(reports: map<nat, T>, i: nat): Option<T> { if i in reports then Some(reports[i]) else None }

  function SettleFrom(s: Stock, id: nat, warehouse: nat, lines: seq<Line>, i: nat,
                      parts: map<nat, PartReport>, bikes: map<nat, BikeReport>): Outcome<(Stock, seq<Line>), Error>
    requires i <= |lines|
    decreases |lines| - i
  {
    if i == |lines| then Ok((s, lines))
    else
      var r :- SettleLine(s, ConsignmentLine(id, i), warehouse, lines[i], Lookup(parts, i), Lookup(bikes, i));
      SettleFrom(r.0, id, warehouse, lines[i := r.1], i + 1, parts, bikes)
  }

  function Settle(s: Stock, id: nat, d: Delivery, parts: map<nat, PartReport>, bikes: map<nat, BikeReport>)
    : Outcome<(Stock, Delivery), Error>
  {
    if !d.mode.ConsignmentMode? || !Reconcilable(d.status) then Err(WrongStatus)
    else
      var r :- SettleFrom(s, id, d.warehouse, d.lines, 0, parts, bikes);
      Ok((r.0, d.(lines := r.1, status := ReconcileOutcome(r.1))))
  }

  function Cancel(d: Delivery): Outcome<Delivery, Error> {
    if !d.status.Draft? then Err(WrongStatus) else Ok(d.(status := Cancelled))
  }

  // ---------------------------------------------------------------- a delivery against the stock

  predicate Dispatched(d: Delivery) {
    d.mode.ConsignmentMode? && !d.status.Draft? && !d.status.Delivered? && !d.status.Cancelled?
  }

  predicate InBounds(ln: Line) {
    ln.qty > 0 && 0 <= ln.settled && 0 <= ln.returned && ln.settled + ln.returned <= ln.qty && (!ln.isPart ==> ln.qty == 1)
  }

  /** Line `j`, among the first `n` dispatched lines, is a part line on this inventory row. */
  predicate On(warehouse: nat, lines: seq<Line>, n: nat, j: nat, key: Key) {
    j < n && j < |lines| && lines[j].isPart && key == Key(lines[j].item, warehouse)
  }

  /** The line's remaining hold is what is outstanding, and the ledger shows exactly what it settled. */
  predicate Agrees(s: Stock, id: nat, warehouse: nat, lines: seq<Line>, n: nat, j: nat, key: Key) {
    var line := ConsignmentLine(id, j);
    && HeldFor(s, line, key) == (if On(warehouse, lines, n, j, key) then Outstanding(lines[j]) else 0)
    && Net(s, ConsignmentSale(line), key) == (if On(warehouse, lines, n, j, key) then -lines[j].settled else 0)
  }

  ghost predicate AllAgree(s: Stock, id: nat, warehouse: nat, lines: seq<Line>, n: nat) {
    forall j: nat, key :: Agrees(s, id, warehouse, lines, n, j, key)
  }

  ghost predicate AllInBounds(lines: seq<Line>) {
    forall j :: 0 <= j < |lines| ==> InBounds(lines[j])
  }

  ghost predicate Untouched(lines: seq<Line>) {
    forall j :: 0 <= j < |lines| ==> lines[j].settled == 0 && lines[j].returned == 0
  }

  /** The state of one delivery, against whatever else has happened to the stock. */
  ghost predicate Sound(s: Stock, id: nat, d: Delivery) {
    && AllInBounds(d.lines)
    && AllAgree(s, id, d.warehouse, d.lines, if Dispatched(d) then |d.lines| else 0)
    && (!Dispatched(d) ==> Untouched(d.lines))
    && (Dispatched(d) && !Reconcilable(d.status) ==> forall j :: 0 <= j < |d.lines| ==> Outstanding(d.lines[j]) == 0)
  }

  // ---------------------------------------------------------------- dispatch

  lemma {:induction false} HoldLinesSound(s: Stock, id: nat, warehouse: nat, lines: seq<Line>, i: nat, t: Stock)
    requires StockSound(s) && AllInBounds(lines) && Untouched(lines)
    requires i <= |lines| && AllAgree(s, id, warehouse, lines, i)
    requires HoldLines(s, id, warehouse, lines, i) == Ok(t)
    ensures StockSound(t)
    ensures AllAgree(t, id, warehouse, lines, |lines|)
    ensures OnlyFor(s, t, DeliveryDoc(id))
    ensures forall key :: OnHand(t, key) == OnHand(s, key)
    decreases |lines| - i
  {
    if i < |lines| {
      var line, key := ConsignmentLine(id, i), Key(lines[i].item, warehouse);
      var u := if lines[i].isPart then ReserveFor(s, line, key, lines[i].qty) else s;
      if lines[i].isPart {
        forall k ensures HeldFor(s, line, k) == 0 {
          assert Agrees(s, id, warehouse, lines, i, i, k);
        }
        ReserveSound(s, line, key, lines[i].qty);
        EffectOnlyFor(s, u, key, 0, Manual, Some(line), lines[i].qty, DeliveryDoc(id));
      }
      var n := i + 1;
      forall j: nat, k ensures Agrees(u, id, warehouse, lines, n, j, k) {
        assert Agrees(s, id, warehouse, lines, i, j, k);
      }
      HoldLinesSound(u, id, warehouse, lines, n, t);
      OnlyForTransitive(s, u, t, DeliveryDoc(id));
    }
  }

  /** Dispatch holds every part line in full, moves no goods, and touches no other document. */
  lemma DeliverSound(s: Stock, id: nat, d: Delivery, t: Stock, after: Delivery)
    requires StockSound(s) && Sound(s, id, d) && Deliver(s, id, d) == Ok((t, after))
    ensures StockSound(t)
    ensures Sound(t, id, after)
    ensures OnlyFor(s, t, DeliveryDoc(id))
    ensures forall key :: OnHand(t, key) == OnHand(s, key)
    ensures d.mode.ConsignmentMode? ==> forall j :: 0 <= j < |d.lines| && d.lines[j].isPart ==>
              HeldFor(t, ConsignmentLine(id, j), Key(d.lines[j].item, d.warehouse)) == d.lines[j].qty
  {
    if d.mode.ConsignmentMode? {
      HoldLinesSound(s, id, d.warehouse, d.lines, 0, t);
      forall j | 0 <= j < |d.lines| && d.lines[j].isPart
        ensures HeldFor(t, ConsignmentLine(id, j), Key(d.lines[j].item, d.warehouse)) == d.lines[j].qty
      {
        assert Agrees(t, id, d.warehouse, d.lines, |d.lines|, j, Key(d.lines[j].item, d.warehouse));
      }
    }
  }

  /** What a line asks to hold on one inventory row. */
  function QtyAt(warehouse: nat, key: Key): Line -> int {
    (ln: Line) => if ln.isPart && key == Key(ln.item, warehouse) then ln.qty else 0
  }

  /** What the lines from `i` on ask for on one inventory row. */
  function Asked(warehouse: nat, lines: seq<Line>, i: nat, key: Key): int
    requires i <= |lines|
  {
    Total(lines[i..], QtyAt(warehouse, key))
  }

  lemma AskedNext(warehouse: nat, lines: seq<Line>, i: nat, key: Key)
    requires i < |lines| && AllInBounds(lines)
    ensures Asked(warehouse, lines, i, key) == QtyAt(warehouse, key)(lines[i]) + Asked(warehouse, lines, i + 1, key)
    ensures Asked(warehouse, lines, i + 1, key) >= 0
  {
    TotalFirst(lines[i..], QtyAt(warehouse, key));
    assert lines[i..][1..] == lines[i + 1..];
    TotalNonNegative(lines[i + 1..], QtyAt(warehouse, key));
  }

  lemma {:induction false} HoldLinesAccepted(s: Stock, id: nat, warehouse: nat, lines: seq<Line>, i: nat)
    requires StockSound(s) && AllInBounds(lines) && i <= |lines|
    requires forall j: nat :: i <= j ==> HoldsNone(s, ConsignmentLine(id, j))
    ensures HoldLines(s, id, warehouse, lines, i).Ok? <==> forall key :: Asked(warehouse, lines, i, key) <= Available(s, key)
    decreases |lines| - i
  {
    if i == |lines| {
      forall key ensures Available(s, key) >= 0 { assert RowSound(s, key); }
    } else {
      var n := i + 1;
      forall key
        ensures Asked(warehouse, lines, i, key) == QtyAt(warehouse, key)(lines[i]) + Asked(warehouse, lines, n, key)
        ensures Asked(warehouse, lines, n, key) >= 0
      {
        AskedNext(warehouse, lines, i, key);
      }
      if !lines[i].isPart {
        HoldLinesAccepted(s, id, warehouse, lines, n);
      } else {
        var line, at := ConsignmentLine(id, i), Key(lines[i].item, warehouse);
        if at in s.rows && lines[i].qty <= Available(s, at) {
          var t := ReserveFor(s, line, at, lines[i].qty);
          ReserveSound(s, line, at, lines[i].qty);
          assert forall key :: Available(t, key) == Available(s, key) - if key == at then lines[i].qty else 0;
          forall j: nat | n <= j ensures HoldsNone(t, ConsignmentLine(id, j)) {
            assert HoldsNone(s, ConsignmentLine(id, j));
          }
          HoldLinesAccepted(t, id, warehouse, lines, n);
        } else {
          assert Asked(warehouse, lines, i, at) > Available(s, at);
        }
      }
    }
  }

  /** A draft can go out: a sale delivery always, a consignment when every row has all that its lines ask for. */
  ghost predicate Deliverable(s: Stock, d: Delivery) {
    && d.status.Draft?
    && (d.mode.ConsignmentMode? ==> forall key :: Total(d.lines, QtyAt(d.warehouse, key)) <= Available(s, key))
  }

  /** A delivery goes out exactly when it can, and nothing but its status changes. */
  lemma DeliverAcceptedIff(s: Stock, id: nat, d: Delivery)
    requires StockSound(s) && Sound(s, id, d)
    ensures Deliver(s, id, d).Ok? <==> Deliverable(s, d)
    ensures Deliver(s, id, d).Ok? ==>
              Deliver(s, id, d).value.1 == d.(status := if d.mode.SaleMode? then Delivered else OutAtReseller)
  {
    if d.status.Draft? {
      forall j: nat ensures HoldsNone(s, ConsignmentLine(id, j)) {
        forall k ensures HeldFor(s, ConsignmentLine(id, j), k) == 0 { assert Agrees(s, id, d.warehouse, d.lines, 0, j, k); }
      }
      HoldLinesAccepted(s, id, d.warehouse, d.lines, 0);
      assert d.lines[0..] == d.lines;
      forall key ensures Asked(d.warehouse, d.lines, 0, key) == Total(d.lines, QtyAt(d.warehouse, key)) {}
    }
  }

  // ---------------------------------------------------------------- settling

  /** With the hold in place, reconciling within it never fails and does exactly what it says. */
  lemma ReconcilePartSound(s: Stock, line: LineId, key: Key, settled: int, returned: int)
    requires StockSound(s) && 0 <= settled && 0 <= returned && settled + returned <= HeldFor(s, line, key)
    ensures ReconcilePart(s, line, key, settled, returned).Ok?
    ensures var t := ReconcilePart(s, line, key, settled, returned).value;
            StockSound(t) && Effect(s, t, key, -settled, ConsignmentSale(line), Some(line), -(settled + returned))
  {
    var t := s;
    if settled > 0 {
      IssueWithinHold(s, key, settled, ConsignmentSale(line), line);
      t := IssueAgainst(s, key, settled, ConsignmentSale(line), line).value;
    } else {
      NoEffect(s, key, ConsignmentSale(line), Some(line));
    }
    if returned > 0 {
      ActiveIsHeld(t, line, key);
      ActiveInRange(t.holds, line);
      var i := ActiveFor(t.holds, line).value;
      ConsumeSound(t, i, returned);
      EffectThenDrop(s, t, Consume(t, i, key, returned), key, -settled, ConsignmentSale(line), line, -settled, -returned);
    }
  }

  /** A line only moves forward, and a reconciled line not at all. */
  predicate Progress(before: Line, after: Line) {
    && after.isPart == before.isPart
    && after.item == before.item
    && after.qty == before.qty
    && before.settled <= after.settled
    && before.returned <= after.returned
    && (Outstanding(before) == 0 ==> after == before)
  }

  /**
   What a report does to a line: an unreported line is left alone, a part line moves by the reported figures
   clamped to what is outstanding, and an open motorcycle line is sold or returned as reported.
   */
  predicate Honours(before: Line, after: Line, part: Option<PartReport>, bike: Option<BikeReport>) {
    if before.isPart then
      match part
      case None => after == before
      case Some(p) =>
        && Nearest(p.settled, Outstanding(before), after.settled - before.settled)
        && Nearest(p.returned, Outstanding(before) - (after.settled - before.settled), after.returned - before.returned)
    else if Outstanding(before) > 0 then
      match bike
      case None => after == before
      case Some(SoldOn(_)) => after.settled == 1 && after.returned == before.returned
      case Some(ReturnedUnsold) => after.returned == 1 && after.settled == before.settled
    else after == before
  }

  /** The status a settle leaves: open while anything is outstanding, and otherwise settled unless all came back. */
  ghost predicate StatusFits(d: Delivery) {
    && (d.status.PartiallySettled? <==> exists j :: 0 <= j < |d.lines| && Outstanding(d.lines[j]) > 0)
    && (d.status.Returned? <==>
          |d.lines| > 0 && forall j :: 0 <= j < |d.lines| ==> Outstanding(d.lines[j]) <= 0 && d.lines[j].settled <= 0)
    && (d.status.PartiallySettled? || d.status.Returned? || d.status.Settled?)
  }

  /** The clamped figures of one report: whatever was reported, they fit what is outstanding. */
  predicate Clamped(ln: Line, part: PartReport, settled: int, returned: int) {
    && settled == Min(Max(0, part.settled), Outstanding(ln))
    && returned == Min(Max(0, part.returned), Outstanding(ln) - settled)
  }

  /** The line's own figures, whatever the stock did. */
  lemma SettleLineFigures(s: Stock, line: LineId, warehouse: nat, ln: Line, part: Option<PartReport>, bike: Option<BikeReport>)
    requires InBounds(ln) && SettleLine(s, line, warehouse, ln, part, bike).Ok?
    ensures var after := SettleLine(s, line, warehouse, ln, part, bike).value.1;
            InBounds(after) && Progress(ln, after) && Honours(ln, after, part, bike)
  {
  }

  /** The observable effect of settling one line. */
  ghost predicate LineEffect(s: Stock, t: Stock, line: LineId, warehouse: nat, before: Line, after: Line) {
    if before.isPart then
      Effect(s, t, Key(before.item, warehouse), before.settled - after.settled, ConsignmentSale(line), Some(line),
             Outstanding(after) - Outstanding(before))
    else t == s
  }

  lemma SettlePartSound(s: Stock, line: LineId, warehouse: nat, ln: Line, settled: int, returned: int)
    requires StockSound(s) && InBounds(ln) && ln.isPart
    requires HeldFor(s, line, Key(ln.item, warehouse)) == Outstanding(ln)
    requires 0 <= settled && 0 <= returned && settled + returned <= Outstanding(ln)
    ensures ReconcilePart(s, line, Key(ln.item, warehouse), settled, returned).Ok?
    ensures var t := ReconcilePart(s, line, Key(ln.item, warehouse), settled, returned).value;
            && StockSound(t)
            && LineEffect(s, t, line, warehouse, ln, ln.(settled := ln.settled + settled, returned := ln.returned + returned))
  {
    ReconcilePartSound(s, line, Key(ln.item, warehouse), settled, returned);
  }

  /** What `SettleLine` does with a part report: the clamped figures, reconciled. */
  lemma SettleLineIsReconcile(s: Stock, line: LineId, warehouse: nat, ln: Line, part: PartReport, bike: Option<BikeReport>,
                              settled: int, returned: int)
    requires ln.isPart && Outstanding(ln) > 0 && Clamped(ln, part, settled, returned)
    requires ReconcilePart(s, line, Key(ln.item, warehouse), settled, returned).Ok?
    ensures SettleLine(s, line, warehouse, ln, Some(part), bike)
            == Ok((ReconcilePart(s, line, Key(ln.item, warehouse), settled, returned).value,
                   ln.(settled := ln.settled + settled, returned := ln.returned + returned)))
  {
  }

  /** Everything else leaves the stock alone. */
  lemma SettleLineIdle(s: Stock, line: LineId, warehouse: nat, ln: Line, part: Option<PartReport>, bike: Option<BikeReport>)
    requires !ln.isPart || Outstanding(ln) <= 0 || part.None?
    ensures SettleLine(s, line, warehouse, ln, part, bike).Err? <==>
              !ln.isPart && Outstanding(ln) > 0 && bike == Some(SoldOn(None))
    ensures SettleLine(s, line, warehouse, ln, part, bike).Ok? ==>
              SettleLine(s, line, warehouse, ln, part, bike).value.0 == s
              && (ln.isPart ==> SettleLine(s, line, warehouse, ln, part, bike).value.1 == ln)
  {
  }

  lemma SettleLineSound(s: Stock, line: LineId, warehouse: nat, ln: Line, part: Option<PartReport>, bike: Option<BikeReport>)
    requires StockSound(s) && InBounds(ln)
    requires ln.isPart ==> HeldFor(s, line, Key(ln.item, warehouse)) == Outstanding(ln)
    ensures SettleLine(s, line, warehouse, ln, part, bike).Err? <==>
              !ln.isPart && Outstanding(ln) > 0 && bike == Some(SoldOn(None))
    ensures SettleLine(s, line, warehouse, ln, part, bike).Ok? ==>
      var (t, after) := SettleLine(s, line, warehouse, ln, part, bike).value;
      StockSound(t) && LineEffect(s, t, line, warehouse, ln, after)
  {
    if ln.isPart && Outstanding(ln) > 0 && part.Some? {
      var settled := Min(Max(0, part.value.settled), Outstanding(ln));
      var returned := Min(Max(0, part.value.returned), Outstanding(ln) - settled);
      SettlePartSound(s, line, warehouse, ln, settled, returned);
      SettleLineIsReconcile(s, line, warehouse, ln, part.value, bike, settled, returned);
    } else {
      SettleLineIdle(s, line, warehouse, ln, part, bike);
      NoEffect(s, Key(ln.item, warehouse), ConsignmentSale(line), Some(line));
    }
  }

  /** What the lines of a delivery have settled on one inventory row. */
  function SettledAt(warehouse: nat, key: Key): Line -> int {
    (ln: Line) => if ln.isPart && key == Key(ln.item, warehouse) then ln.settled else 0
  }

  ghost predicate AllProgress(before: seq<Line>, after: seq<Line>) {
    |before| == |after| && forall j :: 0 <= j < |before| ==> Progress(before[j], after[j])
  }

  /** A sold motorcycle must come with its invoice; that is the only way an open consignment refuses a settle. */
  predicate SoldNeedInvoice(lines: seq<Line>, bikes: map<nat, BikeReport>, i: nat) {
    exists j :: i <= j < |lines| && !lines[j].isPart && Outstanding(lines[j]) > 0 && Lookup(bikes, j) == Some(SoldOn(None))
  }

  /** What a settle does to the record: each line as reported, and the status that follows. */
  ghost predicate SettledAs(d: Delivery, after: Delivery, parts: map<nat, PartReport>, bikes: map<nat, BikeReport>) {
    && after.mode == d.mode && after.warehouse == d.warehouse
    && AllProgress(d.lines, after.lines)
    && (forall j :: 0 <= j < |d.lines| ==> Honours(d.lines[j], after.lines[j], Lookup(parts, j), Lookup(bikes, j)))
    && StatusFits(after)
  }

  lemma {:induction false} SettleFromSound(s: Stock, id: nat, warehouse: nat, lines: seq<Line>, i: nat,
                                           parts: map<nat, PartReport>, bikes: map<nat, BikeReport>)
    requires StockSound(s) && AllInBounds(lines) && i <= |lines|
    requires AllAgree(s, id, warehouse, lines, |lines|)
    ensures var r := SettleFrom(s, id, warehouse, lines, i, parts, bikes);
            && (r.Err? <==> SoldNeedInvoice(lines, bikes, i))
            && (r.Ok? ==>
                  var (t, after) := r.value;
                  && StockSound(t)
                  && OnlyFor(s, t, DeliveryDoc(id))
                  && AllAgree(t, id, warehouse, after, |after|)
                  && forall key :: OnHand(t, key) + Total(after, SettledAt(warehouse, key))
                                == OnHand(s, key) + Total(lines, SettledAt(warehouse, key)))
    decreases |lines| - i
  {
    if i < |lines| {
      var line, key := ConsignmentLine(id, i), Key(lines[i].item, warehouse);
      assert Agrees(s, id, warehouse, lines, |lines|, i, key);
      SettleLineSound(s, line, warehouse, lines[i], Lookup(parts, i), Lookup(bikes, i));
      var r := SettleLine(s, line, warehouse, lines[i], Lookup(parts, i), Lookup(bikes, i));
      if r.Ok? {
        var (u, after) := r.value;
        SettleLineFigures(s, line, warehouse, lines[i], Lookup(parts, i), Lookup(bikes, i));
        SettleStepAgrees(s, u, id, warehouse, lines, i, after);
        SettleStepOnHand(s, u, id, warehouse, lines, i, after);
        SettleFromSound(u, id, warehouse, lines[i := after], i + 1, parts, bikes);
        var rest := SettleFrom(u, id, warehouse, lines[i := after], i + 1, parts, bikes);
        if rest.Ok? {
          OnlyForTransitive(s, u, rest.value.0, DeliveryDoc(id));
        }
      }
    }
  }

  /** What happens to the lines themselves. */
  lemma {:induction false} SettleFromLines(s: Stock, id: nat, warehouse: nat, lines: seq<Line>, i: nat,
                                           parts: map<nat, PartReport>, bikes: map<nat, BikeReport>)
    requires AllInBounds(lines) && i <= |lines|
    requires SettleFrom(s, id, warehouse, lines, i, parts, bikes).Ok?
    ensures var after := SettleFrom(s, id, warehouse, lines, i, parts, bikes).value.1;
            && AllInBounds(after) && AllProgress(lines, after)
            && (forall j :: 0 <= j < i ==> after[j] == lines[j])
            && (forall j :: i <= j < |lines| ==> Honours(lines[j], after[j], Lookup(parts, j), Lookup(bikes, j)))
    decreases |lines| - i
  {
    if i < |lines| {
      var line := ConsignmentLine(id, i);
      SettleLineFigures(s, line, warehouse, lines[i], Lookup(parts, i), Lookup(bikes, i));
      var (u, after) := SettleLine(s, line, warehouse, lines[i], Lookup(parts, i), Lookup(bikes, i)).value;
      SettleFromLines(u, id, warehouse, lines[i := after], i + 1, parts, bikes);
    }
  }

  lemma SettleStepAgrees(s: Stock, u: Stock, id: nat, warehouse: nat, lines: seq<Line>, i: nat, after: Line)
    requires i < |lines| && AllAgree(s, id, warehouse, lines, |lines|)
    requires LineEffect(s, u, ConsignmentLine(id, i), warehouse, lines[i], after) && Progress(lines[i], after)
    ensures AllAgree(u, id, warehouse, lines[i := after], |lines|)
    ensures OnlyFor(s, u, DeliveryDoc(id))
  {
    var line := ConsignmentLine(id, i);
    if lines[i].isPart {
      EffectOnlyFor(s, u, Key(lines[i].item, warehouse), lines[i].settled - after.settled, ConsignmentSale(line),
                    Some(line), Outstanding(after) - Outstanding(lines[i]), DeliveryDoc(id));
    }
    var now := lines[i := after];
    forall j: nat, k ensures Agrees(u, id, warehouse, now, |now|, j, k) {
      assert Agrees(s, id, warehouse, lines, |lines|, j, k);
    }
  }

  lemma SettleStepOnHand(s: Stock, u: Stock, id: nat, warehouse: nat, lines: seq<Line>, i: nat, after: Line)
    requires i < |lines| && LineEffect(s, u, ConsignmentLine(id, i), warehouse, lines[i], after) && Progress(lines[i], after)
    ensures forall key :: OnHand(u, key) + Total(lines[i := after], SettledAt(warehouse, key))
                       == OnHand(s, key) + Total(lines, SettledAt(warehouse, key))
  {
    forall key
      ensures OnHand(u, key) + Total(lines[i := after], SettledAt(warehouse, key))
           == OnHand(s, key) + Total(lines, SettledAt(warehouse, key))
    {
      TotalUpdate(lines, i, after, SettledAt(warehouse, key));
    }
  }

  /**
   Settling, for any reported quantities: each part line keeps its bounds and only moves forward, its
   remaining hold is exactly what is outstanding, on-hand falls by exactly what was settled, and a
   reconciled line is not touched. The hold guarantees it: the only refusal is a sold motorcycle
   without an invoice.
   */
  lemma SettleSound(s: Stock, id: nat, d: Delivery, parts: map<nat, PartReport>, bikes: map<nat, BikeReport>)
    requires StockSound(s) && Sound(s, id, d) && d.mode.ConsignmentMode? && Reconcilable(d.status)
    ensures Settle(s, id, d, parts, bikes).Err? <==> SoldNeedInvoice(d.lines, bikes, 0)
    ensures Settle(s, id, d, parts, bikes).Ok? ==>
      var (t, after) := Settle(s, id, d, parts, bikes).value;
      && StockSound(t)
      && Sound(t, id, after)
      && OnlyFor(s, t, DeliveryDoc(id))
      && SettledAs(d, after, parts, bikes)
      && (forall key :: OnHand(s, key) - OnHand(t, key)
                     == Total(after.lines, SettledAt(d.warehouse, key)) - Total(d.lines, SettledAt(d.warehouse, key)))
  {
    SettleFromSound(s, id, d.warehouse, d.lines, 0, parts, bikes);
    if Settle(s, id, d, parts, bikes).Ok? {
      SettleFromLines(s, id, d.warehouse, d.lines, 0, parts, bikes);
    }
  }
}
