/**
 Internal issuances. Consumables are deducted at handover; everything else is held while out on loan.
 A return closes a line for good: what came back is released, the shortfall becomes a recorded loss.
 */
module Issuance {
  import opened Common
  import opened Sums
  import opened Stock

  datatype Status = Draft | OutOnLoan | PartiallyReturned | Returned | Cancelled

  datatype Line = Line(
    isPart: bool, item: nat, qty: int, returnable: bool, consumable: bool,
    returned: int, missing: int, closed: bool)

  datatype Loan = Loan(status: Status, warehouse: nat, lines: seq<Line>)

  predicate Returnable(status: Status) { status.OutOnLoan? || status.PartiallyReturned? }

  /** Expected back by the status rule: returnable, not consumable, not yet closed (or closed short). */
  predicate AwaitsReturn(ln: Line) {
    ln.returnable && !ln.consumable && (if ln.closed then ln.returned + ln.missing else 0) < ln.qty
  }

  function ReturnOutcome(lines: seq<Line>): Status {
    if exists i :: 0 <= i < |lines| && AwaitsReturn(lines[i]) then PartiallyReturned else Returned
  }

  // ---------------------------------------------------------------- operations on one issuance

  function IssueLines(s: Stock, id: nat, warehouse: nat, lines: seq<Line>, i: nat): Outcome<Stock, Error>
    requires i <= |lines|
    decreases |lines| - i
  {
    if i == |lines| then Ok(s)
    else
      var key := Key(lines[i].item, warehouse);
      if !lines[i].isPart then IssueLines(s, id, warehouse, lines, i + 1)
      else if lines[i].consumable then
        var t :- IssueGoods(s, key, lines[i].qty, Handed(id));
        IssueLines(t, id, warehouse, lines, i + 1)
      else if key !in s.rows || Available(s, key) < lines[i].qty then Err(Insufficient)
      else IssueLines(ReserveFor(s, LoanLine(id, i), key, lines[i].qty), id, warehouse, lines, i + 1)
  }

  function IssueLoan(s: Stock, id: nat, loan: Loan): Outcome<(Stock, Loan), Error> {
    if !loan.status.Draft? then Err(WrongStatus)
    else
      var t :- IssueLines(s, id, loan.warehouse, loan.lines, 0);
      Ok((t, loan.(status := OutOnLoan)))
  }

  /** Shortfall: a documented loss drawn from the hold. The rest of the hold goes back to available. */
  function SettlePartReturn(s: Stock, line: LineId, key: Key, missing: int): Outcome<Stock, Error> {
    var t :- if missing > 0 then IssueAgainst(s, key, missing, IssuanceLoss(line), line) else Ok(s);
    var own := ActiveFor(t.holds, line);
    ActiveInRange(t.holds, line);
    Ok(if own.Some? && t.holds[own.value].qty > 0 then Release(t, own.value, key) else t)
  }

  /** `part` is the returned quantity reported for a part line; `bike` says a motorcycle line is back. */
  function ReturnLine(s: Stock, line: LineId, warehouse: nat, ln: Line, part: Option<int>, bike: bool)
    : Outcome<(Stock, Line), Error>
  {
    if ln.closed || ln.consumable then Ok((s, ln))
    else if ln.isPart then
      if part.None? then Ok((s, ln))
      else
        var returned := Min(Max(0, part.value), ln.qty);
        var missing := Max(0, ln.qty - returned);
        var t :- SettlePartReturn(s, line, Key(ln.item, warehouse), missing);
        Ok((t, ln.(returned := returned, missing := missing, closed := true)))
    else if !bike then Ok((s, ln))
    else Ok((s, ln.(returned := 1, closed := true)))
  }

  function Report(parts: map<nat, int>, i: nat): Option<int> { if i in parts then Some(parts[i]) else None }

  function ReturnFrom(s: Stock, id: nat, warehouse: nat, lines: seq<Line>, i: nat, parts: map<nat, int>, bikes: set<nat>)
    : Outcome<(Stock, seq<Line>), Error>
    requires i <= |lines|
    decreases |lines| - i
  {
    if i == |lines| then Ok((s, lines))
    else
      var r :- ReturnLine(s, LoanLine(id, i), warehouse, lines[i], Report(parts, i), i in bikes);
      ReturnFrom(r.0, id, warehouse, lines[i := r.1], i + 1, parts, bikes)
  }

  function ReturnItems(s: Stock, id: nat, loan: Loan, parts: map<nat, int>, bikes: set<nat>): Outcome<(Stock, Loan), Error> {
    if !Returnable(loan.status) then Err(WrongStatus)
    else
      var r :- ReturnFrom(s, id, loan.warehouse, loan.lines, 0, parts, bikes);
      Ok((r.0, loan.(lines := r.1, status := ReturnOutcome(r.1))))
  }

  function Cancel(loan: Loan): Outcome<Loan, Error> {
    if !loan.status.Draft? then Err(WrongStatus) else Ok(loan.(status := Cancelled))
  }

  // ---------------------------------------------------------------- an issuance against the stock

  predicate Issued(loan: Loan) { !loan.status.Draft? && !loan.status.Cancelled? }

  predicate InBounds(ln: Line) {
    && ln.qty > 0 && (!ln.isPart ==> ln.qty == 1 && !ln.consumable)
    && (if ln.closed then !ln.consumable && 0 <= ln.returned && 0 <= ln.missing && ln.returned + ln.missing == ln.qty
        else ln.returned == 0 && ln.missing == 0)
  }

  predicate On(warehouse: nat, lines: seq<Line>, n: nat, j: nat, key: Key) {
    j < n && j < |lines| && lines[j].isPart && !lines[j].consumable && key == Key(lines[j].item, warehouse)
  }

  /** What a consumable line takes off one inventory row at handover. */
  function ConsumedAt(warehouse: nat, key: Key): Line -> int {
    (ln: Line) => if ln.isPart && ln.consumable && key == Key(ln.item, warehouse) then ln.qty else 0
  }

  /** What the lines of an issuance have lost on one inventory row. */
  function MissingAt(warehouse: nat, key: Key): Line -> int {
    (ln: Line) => if ln.isPart && key == Key(ln.item, warehouse) then ln.missing else 0
  }

  /** An open line still holds its full quantity; a closed one holds nothing and its loss is in the ledger. */
  predicate Agrees(s: Stock, id: nat, warehouse: nat, lines: seq<Line>, n: nat, j: nat, key: Key) {
    var line := LoanLine(id, j);
    && HeldFor(s, line, key) == (if On(warehouse, lines, n, j, key) && !lines[j].closed then lines[j].qty else 0)
    && Net(s, IssuanceLoss(line), key) == (if On(warehouse, lines, n, j, key) then -lines[j].missing else 0)
  }

  predicate HandedAgrees(s: Stock, id: nat, warehouse: nat, lines: seq<Line>, n: nat, key: Key)
    requires n <= |lines|
  {
    Net(s, Handed(id), key) == -Total(lines[..n], ConsumedAt(warehouse, key))
  }

  ghost predicate AllAgree(s: Stock, id: nat, warehouse: nat, lines: seq<Line>, n: nat)
    requires n <= |lines|
  {
    && (forall j: nat, key :: Agrees(s, id, warehouse, lines, n, j, key))
    && (forall key :: HandedAgrees(s, id, warehouse, lines, n, key))
  }

  ghost predicate AllInBounds(lines: seq<Line>) {
    forall j :: 0 <= j < |lines| ==> InBounds(lines[j])
  }

  ghost predicate NoneClosed(lines: seq<Line>) {
    forall j :: 0 <= j < |lines| ==> !lines[j].closed
  }

  ghost predicate Sound(s: Stock, id: nat, loan: Loan) {
    && AllInBounds(loan.lines)
    && AllAgree(s, id, loan.warehouse, loan.lines, if Issued(loan) then |loan.lines| else 0)
    && (!Issued(loan) ==> NoneClosed(loan.lines))
    && (loan.status.Returned? ==> forall j :: 0 <= j < |loan.lines| ==> !AwaitsReturn(loan.lines[j]))
  }

  // ---------------------------------------------------------------- handing out

  lemma TakeNext(lines: seq<Line>, i: nat, column: Line -> int)
    requires i < |lines|
    ensures Total(lines[..i + 1], column) == Total(lines[..i], column) + column(lines[i])
  {
    assert lines[..i + 1] == lines[..i] + [lines[i]];
    TotalAppend(lines[..i], lines[i], column);
  }

  /** The observable effect of handing out line `i`. */
  ghost predicate HandOut(s: Stock, u: Stock, id: nat, warehouse: nat, ln: Line, i: nat) {
    var key := Key(ln.item, warehouse);
    if !ln.isPart then u == s
    else if ln.consumable then Effect(s, u, key, -ln.qty, Handed(id), None, 0)
    else Effect(s, u, key, 0, Manual, Some(LoanLine(id, i)), ln.qty)
  }

  lemma HandOutAgrees(s: Stock, u: Stock, id: nat, warehouse: nat, lines: seq<Line>, i: nat)
    requires i < |lines| && AllInBounds(lines) && NoneClosed(lines)
    requires AllAgree(s, id, warehouse, lines, i) && HandOut(s, u, id, warehouse, lines[i], i)
    ensures AllAgree(u, id, warehouse, lines, i + 1)
    ensures OnlyFor(s, u, IssuanceDoc(id))
    ensures forall key :: OnHand(u, key) + Total(lines[..i + 1], ConsumedAt(warehouse, key))
                       == OnHand(s, key) + Total(lines[..i], ConsumedAt(warehouse, key))
  {
    var ln, n := lines[i], i + 1;
    var k0 := Key(ln.item, warehouse);
    if ln.isPart && ln.consumable {
      EffectOnlyFor(s, u, k0, -ln.qty, Handed(id), None, 0, IssuanceDoc(id));
    } else if ln.isPart {
      EffectOnlyFor(s, u, k0, 0, Manual, Some(LoanLine(id, i)), ln.qty, IssuanceDoc(id));
    }
    forall j: nat, key ensures Agrees(u, id, warehouse, lines, n, j, key) {
      assert Agrees(s, id, warehouse, lines, i, j, key);
    }
    forall key
      ensures HandedAgrees(u, id, warehouse, lines, n, key)
      ensures OnHand(u, key) + Total(lines[..n], ConsumedAt(warehouse, key))
           == OnHand(s, key) + Total(lines[..i], ConsumedAt(warehouse, key))
    {
      assert HandedAgrees(s, id, warehouse, lines, i, key);
      TakeNext(lines, i, ConsumedAt(warehouse, key));
    }
  }

  lemma {:induction false} IssueLinesSound(s: Stock, id: nat, warehouse: nat, lines: seq<Line>, i: nat, t: Stock)
    requires StockSound(s) && AllInBounds(lines) && NoneClosed(lines)
    requires i <= |lines| && AllAgree(s, id, warehouse, lines, i)
    requires IssueLines(s, id, warehouse, lines, i) == Ok(t)
    ensures StockSound(t)
    ensures AllAgree(t, id, warehouse, lines, |lines|)
    ensures OnlyFor(s, t, IssuanceDoc(id))
    ensures forall key :: OnHand(t, key) + Total(lines, ConsumedAt(warehouse, key))
                       == OnHand(s, key) + Total(lines[..i], ConsumedAt(warehouse, key))
    decreases |lines| - i
  {
    if i == |lines| {
      assert lines[..i] == lines;
    } else {
      var ln, key := lines[i], Key(lines[i].item, warehouse);
      var u := s;
      if ln.isPart && ln.consumable {
        u := IssueGoods(s, key, ln.qty, Handed(id)).value;
        IssueSound(s, key, ln.qty, Handed(id), u);
      } else if ln.isPart {
        forall k ensures HeldFor(s, LoanLine(id, i), k) == 0 {
          assert Agrees(s, id, warehouse, lines, i, i, k);
        }
        u := ReserveFor(s, LoanLine(id, i), key, ln.qty);
        ReserveSound(s, LoanLine(id, i), key, ln.qty);
      }
      HandOutAgrees(s, u, id, warehouse, lines, i);
      IssueLinesSound(u, id, warehouse, lines, i + 1, t);
      OnlyForTransitive(s, u, t, IssuanceDoc(id));
    }
  }

  /** Handing out: on-hand falls by exactly the consumables, and every other part line is held in full. */
  lemma IssueLoanSound(s: Stock, id: nat, loan: Loan, t: Stock, after: Loan)
    requires StockSound(s) && Sound(s, id, loan) && IssueLoan(s, id, loan) == Ok((t, after))
    ensures StockSound(t)
    ensures Sound(t, id, after)
    ensures OnlyFor(s, t, IssuanceDoc(id))
    ensures forall key :: OnHand(s, key) - OnHand(t, key) == Total(loan.lines, ConsumedAt(loan.warehouse, key))
  {
    IssueLinesSound(s, id, loan.warehouse, loan.lines, 0, t);
  }

  /** What a line takes or holds on one inventory row. */
  function LentOrUsedAt(warehouse: nat, key: Key): Line -> int {
    (ln: Line) => if ln.isPart && key == Key(ln.item, warehouse) then ln.qty else 0
  }

  function Asked(warehouse: nat, lines: seq<Line>, i: nat, key: Key): int
    requires i <= |lines|
  {
    Total(lines[i..], LentOrUsedAt(warehouse, key))
  }

  lemma AskedNext(warehouse: nat, lines: seq<Line>, i: nat, key: Key)
    requires i < |lines| && AllInBounds(lines)
    ensures Asked(warehouse, lines, i, key) == LentOrUsedAt(warehouse, key)(lines[i]) + Asked(warehouse, lines, i + 1, key)
    ensures Asked(warehouse, lines, i + 1, key) >= 0
  {
    TotalFirst(lines[i..], LentOrUsedAt(warehouse, key));
    assert lines[i..][1..] == lines[i + 1..];
    TotalNonNegative(lines[i + 1..], LentOrUsedAt(warehouse, key));
  }

  /** The consumables, and the warehouse they leave, are known. */
  predicate ConsumablesKnown(s: Stock, warehouse: nat, lines: seq<Line>, i: nat) {
    forall j :: i <= j < |lines| && lines[j].isPart && lines[j].consumable ==> warehouse in s.warehouses && lines[j].item in s.products
  }

  /** What handing out line `i` leaves, if there is enough. */
  function AfterLine(s: Stock, id: nat, warehouse: nat, ln: Line, i: nat): Stock {
    var at := Key(ln.item, warehouse);
    if !ln.isPart then s
    else if ln.consumable then Write(s, GoodsIssue, at, -ln.qty, Handed(id))
    else ReserveFor(s, LoanLine(id, i), at, ln.qty)
  }

  lemma AfterLineSound(s: Stock, id: nat, warehouse: nat, ln: Line, i: nat)
    requires StockSound(s) && InBounds(ln) && forall j: nat :: i <= j ==> HoldsNone(s, LoanLine(id, j))
    requires ln.isPart ==> ln.qty <= Available(s, Key(ln.item, warehouse))
    ensures var t := AfterLine(s, id, warehouse, ln, i);
            && StockSound(t) && t.products == s.products && t.warehouses == s.warehouses
            && (forall key :: Available(t, key) == Available(s, key) - LentOrUsedAt(warehouse, key)(ln))
            && (forall j: nat :: i < j ==> HoldsNone(t, LoanLine(id, j)))
  {
    var t, at := AfterLine(s, id, warehouse, ln, i), Key(ln.item, warehouse);
    if ln.isPart && ln.consumable {
      WriteSoundIff(s, GoodsIssue, at, -ln.qty, Handed(id));
    } else if ln.isPart {
      ReserveSound(s, LoanLine(id, i), at, ln.qty);
    }
    forall j: nat | i < j ensures HoldsNone(t, LoanLine(id, j)) { assert HoldsNone(s, LoanLine(id, j)); }
  }

  lemma {:induction false} IssueLinesAccepted(s: Stock, id: nat, warehouse: nat, lines: seq<Line>, i: nat)
    requires StockSound(s) && AllInBounds(lines) && i <= |lines|
    requires forall j: nat :: i <= j ==> HoldsNone(s, LoanLine(id, j))
    ensures IssueLines(s, id, warehouse, lines, i).Ok? <==>
              ConsumablesKnown(s, warehouse, lines, i) && forall key :: Asked(warehouse, lines, i, key) <= Available(s, key)
    decreases |lines| - i
  {
    if i == |lines| {
      forall key ensures Available(s, key) >= 0 { assert RowSound(s, key); }
    } else {
      var n, ln, at := i + 1, lines[i], Key(lines[i].item, warehouse);
      forall key
        ensures Asked(warehouse, lines, i, key) == LentOrUsedAt(warehouse, key)(ln) + Asked(warehouse, lines, n, key)
        ensures Asked(warehouse, lines, n, key) >= 0
      {
        AskedNext(warehouse, lines, i, key);
      }
      if ln.isPart && (at !in s.rows || ln.qty > Available(s, at)) {
        assert Asked(warehouse, lines, i, at) > Available(s, at);
      } else if ln.isPart && ln.consumable && (warehouse !in s.warehouses || ln.item !in s.products) {
        assert !ConsumablesKnown(s, warehouse, lines, i);
      } else {
        var t := AfterLine(s, id, warehouse, ln, i);
        AfterLineSound(s, id, warehouse, ln, i);
        IssueLinesAccepted(t, id, warehouse, lines, n);
        assert ConsumablesKnown(t, warehouse, lines, n) <==> ConsumablesKnown(s, warehouse, lines, i);
      }
    }
  }

  /** A draft can be issued: its consumables are known, and every row has all that its lines ask for. */
  ghost predicate Issuable(s: Stock, loan: Loan) {
    && loan.status.Draft? && ConsumablesKnown(s, loan.warehouse, loan.lines, 0)
    && forall key :: Total(loan.lines, LentOrUsedAt(loan.warehouse, key)) <= Available(s, key)
  }

  /** An issuance goes out exactly when it can, and nothing but its status changes. */
  lemma IssueAcceptedIff(s: Stock, id: nat, loan: Loan)
    requires StockSound(s) && Sound(s, id, loan)
    ensures IssueLoan(s, id, loan).Ok? <==> Issuable(s, loan)
    ensures IssueLoan(s, id, loan).Ok? ==> IssueLoan(s, id, loan).value.1 == loan.(status := OutOnLoan)
  {
    if loan.status.Draft? {
      forall j: nat ensures HoldsNone(s, LoanLine(id, j)) {
        forall k ensures HeldFor(s, LoanLine(id, j), k) == 0 { assert Agrees(s, id, loan.warehouse, loan.lines, 0, j, k); }
      }
      IssueLinesAccepted(s, id, loan.warehouse, loan.lines, 0);
      assert loan.lines[0..] == loan.lines;
      forall key ensures Asked(loan.warehouse, loan.lines, 0, key) == Total(loan.lines, LentOrUsedAt(loan.warehouse, key)) {}
    }
  }

  // ---------------------------------------------------------------- returning

  /** With the hold in place, closing a line never fails: the loss leaves the shelf, the hold is gone. */
  lemma SettlePartReturnSound(s: Stock, line: LineId, key: Key, missing: int)
    requires StockSound(s) && 0 <= missing <= HeldFor(s, line, key)
    requires HeldFor(s, line, key) > 0
    ensures SettlePartReturn(s, line, key, missing).Ok?
    ensures var t := SettlePartReturn(s, line, key, missing).value;
            StockSound(t) && Effect(s, t, key, -missing, IssuanceLoss(line), Some(line), -HeldFor(s, line, key))
  {
    var t := s;
    if missing > 0 {
      IssueWithinHold(s, key, missing, IssuanceLoss(line), line);
      t := IssueAgainst(s, key, missing, IssuanceLoss(line), line).value;
    } else {
      NoEffect(s, key, IssuanceLoss(line), Some(line));
    }
    ActiveInRange(t.holds, line);
    ActiveIsHeld(t, line, key);
    if missing < HeldFor(s, line, key) {
      var i := ActiveFor(t.holds, line).value;
      ReleaseSound(t, i);
      EffectThenDrop(s, t, Release(t, i, key), key, -missing, IssuanceLoss(line), line, -missing, missing - HeldFor(s, line, key));
    } else {
      NoOtherHold(s, t, key, missing, IssuanceLoss(line), line);
    }
  }

  /** A line whose only hold is used up has no active hold left on any row. */
  lemma NoOtherHold(s: Stock, t: Stock, key: Key, quantity: int, source: Source, line: LineId)
    requires StockSound(s) && StockSound(t) && 0 < quantity == HeldFor(s, line, key)
    requires Effect(s, t, key, -quantity, source, Some(line), -quantity)
    ensures ActiveFor(t.holds, line).None?
  {
    ActiveInRange(s.holds, line);
    ActiveInRange(t.holds, line);
    ActiveIsHeld(s, line, key);
    if ActiveFor(t.holds, line).Some? {
      var i := ActiveFor(t.holds, line).value;
      var other := t.holds[i].key;
      assert HoldSound(t, i, i);
      ActiveIsHeld(t, line, other);
      ActiveIsHeld(s, line, other);
    }
  }

  /** A closed line is never touched again; an open one is closed whole or left alone. */
  predicate Progress(before: Line, after: Line) {
    && after.isPart == before.isPart
    && after.item == before.item
    && after.qty == before.qty
    && after.returnable == before.returnable
    && after.consumable == before.consumable
    && (before.closed || before.consumable || !after.closed ==> after == before)
  }

  /** A report is honoured, clamped to what was lent, and an unreported line is left alone. */
  predicate Honours(before: Line, after: Line, part: Option<int>, bike: bool) {
    !before.closed && !before.consumable ==>
      if before.isPart then
        match part
        case None => after == before
        case Some(returned) => after.closed && Nearest(returned, before.qty, after.returned)
      else after.closed == bike && (bike ==> after.returned == 1)
  }

  /** The line's own figures, whatever the stock did. */
  lemma ReturnLineFigures(s: Stock, line: LineId, warehouse: nat, ln: Line, part: Option<int>, bike: bool)
    requires InBounds(ln) && ReturnLine(s, line, warehouse, ln, part, bike).Ok?
    ensures var after := ReturnLine(s, line, warehouse, ln, part, bike).value.1;
            InBounds(after) && Progress(ln, after) && Honours(ln, after, part, bike)
  {
  }

  /** The observable effect of a return on one line. */
  ghost predicate ReturnEffect(s: Stock, t: Stock, line: LineId, warehouse: nat, before: Line, after: Line) {
    if !before.isPart || after == before then t == s
    else Effect(s, t, Key(before.item, warehouse), -after.missing, IssuanceLoss(line), Some(line), -before.qty)
  }

  lemma ReturnPartSound(s: Stock, line: LineId, warehouse: nat, ln: Line, returned: int)
    requires StockSound(s) && InBounds(ln) && ln.isPart && !ln.consumable && !ln.closed && 0 <= returned <= ln.qty
    requires HeldFor(s, line, Key(ln.item, warehouse)) == ln.qty
    ensures SettlePartReturn(s, line, Key(ln.item, warehouse), ln.qty - returned).Ok?
    ensures var t := SettlePartReturn(s, line, Key(ln.item, warehouse), ln.qty - returned).value;
            && StockSound(t)
            && ReturnEffect(s, t, line, warehouse, ln, ln.(returned := returned, missing := ln.qty - returned, closed := true))
  {
    SettlePartReturnSound(s, line, Key(ln.item, warehouse), ln.qty - returned);
  }

  /** What `ReturnLine` does with a part report: the clamped figure and its shortfall, settled. */
  lemma ReturnLineIsSettle(s: Stock, line: LineId, warehouse: nat, ln: Line, part: int, bike: bool, returned: int)
    requires ln.isPart && !ln.consumable && !ln.closed && returned == Min(Max(0, part), ln.qty) && InBounds(ln)
    requires SettlePartReturn(s, line, Key(ln.item, warehouse), ln.qty - returned).Ok?
    ensures ReturnLine(s, line, warehouse, ln, Some(part), bike)
            == Ok((SettlePartReturn(s, line, Key(ln.item, warehouse), ln.qty - returned).value,
                   ln.(returned := returned, missing := ln.qty - returned, closed := true)))
  {
  }

  lemma ReturnLineIdle(s: Stock, line: LineId, warehouse: nat, ln: Line, part: Option<int>, bike: bool)
    requires !ln.isPart || ln.consumable || ln.closed || part.None?
    ensures ReturnLine(s, line, warehouse, ln, part, bike).Ok?
    ensures ReturnLine(s, line, warehouse, ln, part, bike).value.0 == s
    ensures ln.isPart ==> ReturnLine(s, line, warehouse, ln, part, bike).value.1 == ln
  {
  }

  lemma ReturnLineSound(s: Stock, line: LineId, warehouse: nat, ln: Line, part: Option<int>, bike: bool)
    requires StockSound(s) && InBounds(ln)
    requires ln.isPart && !ln.consumable ==>
               HeldFor(s, line, Key(ln.item, warehouse)) == if ln.closed then 0 else ln.qty
    ensures ReturnLine(s, line, warehouse, ln, part, bike).Ok?
    ensures var (t, after) := ReturnLine(s, line, warehouse, ln, part, bike).value;
            StockSound(t) && ReturnEffect(s, t, line, warehouse, ln, after)
  {
    if ln.isPart && !ln.consumable && !ln.closed && part.Some? {
      var returned := Min(Max(0, part.value), ln.qty);
      ReturnPartSound(s, line, warehouse, ln, returned);
      ReturnLineIsSettle(s, line, warehouse, ln, part.value, bike, returned);
    } else {
      ReturnLineIdle(s, line, warehouse, ln, part, bike);
    }
  }

  lemma ReturnStepAgrees(s: Stock, u: Stock, id: nat, warehouse: nat, lines: seq<Line>, i: nat, after: Line)
    requires i < |lines| && AllInBounds(lines) && AllAgree(s, id, warehouse, lines, |lines|)
    requires InBounds(after) && Progress(lines[i], after)
    requires ReturnEffect(s, u, LoanLine(id, i), warehouse, lines[i], after)
    ensures AllAgree(u, id, warehouse, lines[i := after], |lines|)
    ensures OnlyFor(s, u, IssuanceDoc(id))
    ensures forall key :: OnHand(u, key) + Total(lines[i := after], MissingAt(warehouse, key))
                       == OnHand(s, key) + Total(lines, MissingAt(warehouse, key))
  {
    var now := lines[i := after];
    if lines[i].isPart && after != lines[i] {
      EffectOnlyFor(s, u, Key(lines[i].item, warehouse), -after.missing, IssuanceLoss(LoanLine(id, i)),
                    Some(LoanLine(id, i)), -lines[i].qty, IssuanceDoc(id));
    }
    forall j: nat, key ensures Agrees(u, id, warehouse, now, |now|, j, key) {
      assert Agrees(s, id, warehouse, lines, |lines|, j, key);
    }
    assert lines[..|lines|] == lines && now[..|now|] == now;
    forall key
      ensures HandedAgrees(u, id, warehouse, now, |now|, key)
      ensures OnHand(u, key) + Total(now, MissingAt(warehouse, key)) == OnHand(s, key) + Total(lines, MissingAt(warehouse, key))
    {
      assert HandedAgrees(s, id, warehouse, lines, |lines|, key);
      TotalUpdate(lines, i, after, ConsumedAt(warehouse, key));
      TotalUpdate(lines, i, after, MissingAt(warehouse, key));
    }
  }

  ghost predicate AllProgress(before: seq<Line>, after: seq<Line>) {
    |before| == |after| && forall j :: 0 <= j < |before| ==> Progress(before[j], after[j])
  }

  /** What a return does to the lines: each as reported, and only forward. */
  ghost predicate ReturnedAs(loan: Loan, after: Loan, parts: map<nat, int>, bikes: set<nat>) {
    && after.warehouse == loan.warehouse
    && AllProgress(loan.lines, after.lines)
    && (forall j :: 0 <= j < |loan.lines| ==> Honours(loan.lines[j], after.lines[j], Report(parts, j), j in bikes))
  }

  lemma {:induction false} ReturnFromSound(s: Stock, id: nat, warehouse: nat, lines: seq<Line>, i: nat, parts: map<nat, int>, bikes: set<nat>)
    requires StockSound(s) && AllInBounds(lines) && i <= |lines|
    requires AllAgree(s, id, warehouse, lines, |lines|)
    ensures ReturnFrom(s, id, warehouse, lines, i, parts, bikes).Ok?
    ensures var (t, after) := ReturnFrom(s, id, warehouse, lines, i, parts, bikes).value;
            && StockSound(t)
            && AllAgree(t, id, warehouse, after, |after|)
            && OnlyFor(s, t, IssuanceDoc(id))
            && (forall key :: OnHand(t, key) + Total(after, MissingAt(warehouse, key))
                           == OnHand(s, key) + Total(lines, MissingAt(warehouse, key)))
    decreases |lines| - i
  {
    if i < |lines| {
      var line, key := LoanLine(id, i), Key(lines[i].item, warehouse);
      assert Agrees(s, id, warehouse, lines, |lines|, i, key);
      ReturnLineSound(s, line, warehouse, lines[i], Report(parts, i), i in bikes);
      ReturnLineFigures(s, line, warehouse, lines[i], Report(parts, i), i in bikes);
      var (u, after) := ReturnLine(s, line, warehouse, lines[i], Report(parts, i), i in bikes).value;
      ReturnStepAgrees(s, u, id, warehouse, lines, i, after);
      ReturnFromSound(u, id, warehouse, lines[i := after], i + 1, parts, bikes);
      var (t, _) := ReturnFrom(u, id, warehouse, lines[i := after], i + 1, parts, bikes).value;
      OnlyForTransitive(s, u, t, IssuanceDoc(id));
    }
  }

  /** What happens to the lines themselves. */
  lemma {:induction false} ReturnFromLines(s: Stock, id: nat, warehouse: nat, lines: seq<Line>, i: nat, parts: map<nat, int>, bikes: set<nat>)
    requires AllInBounds(lines) && i <= |lines|
    requires ReturnFrom(s, id, warehouse, lines, i, parts, bikes).Ok?
    ensures var after := ReturnFrom(s, id, warehouse, lines, i, parts, bikes).value.1;
            && AllInBounds(after) && AllProgress(lines, after)
            && (forall j :: 0 <= j < i ==> after[j] == lines[j])
            && (forall j :: i <= j < |lines| ==> Honours(lines[j], after[j], Report(parts, j), j in bikes))
    decreases |lines| - i
  {
    if i < |lines| {
      ReturnLineFigures(s, LoanLine(id, i), warehouse, lines[i], Report(parts, i), i in bikes);
      var (u, after) := ReturnLine(s, LoanLine(id, i), warehouse, lines[i], Report(parts, i), i in bikes).value;
      ReturnFromLines(u, id, warehouse, lines[i := after], i + 1, parts, bikes);
    }
  }

  /**
   A partial return, for any reported quantities: it never fails, on-hand falls by exactly the newly
   recorded missing quantities, each returned part line has returned + missing = qty and no hold left,
   each other held line still holds its full quantity, and no line is settled twice.
   */
  lemma ReturnSound(s: Stock, id: nat, loan: Loan, parts: map<nat, int>, bikes: set<nat>)
    requires StockSound(s) && Sound(s, id, loan) && Returnable(loan.status)
    ensures ReturnItems(s, id, loan, parts, bikes).Ok?
    ensures var (t, after) := ReturnItems(s, id, loan, parts, bikes).value;
      && StockSound(t)
      && Sound(t, id, after)
      && OnlyFor(s, t, IssuanceDoc(id))
      && ReturnedAs(loan, after, parts, bikes)
      && (forall key :: OnHand(s, key) - OnHand(t, key)
                     == Total(after.lines, MissingAt(loan.warehouse, key)) - Total(loan.lines, MissingAt(loan.warehouse, key)))
  {
    ReturnFromSound(s, id, loan.warehouse, loan.lines, 0, parts, bikes);
    ReturnFromLines(s, id, loan.warehouse, loan.lines, 0, parts, bikes);
  }

  // ---------------------------------------------------------------- when a return leaves goods held

  predicate Reported(ln: Line, i: nat, parts: map<nat, int>, bikes: set<nat>) {
    if ln.isPart then i in parts else i in bikes
  }

  /** Every line that still awaits its return is in this report. */
  predicate AllReported(lines: seq<Line>, parts: map<nat, int>, bikes: set<nat>) {
    forall i :: 0 <= i < |lines| && AwaitsReturn(lines[i]) ==> Reported(lines[i], i, parts, bikes)
  }

  /** A part line the status rule overlooks, and the report too: held, but not returnable. */
  predicate Overlooked(ln: Line, i: nat, parts: map<nat, int>) {
    ln.isPart && !ln.returnable && !ln.consumable && !ln.closed && i !in parts
  }

  /** A line awaits its return after the call exactly when it did before and is not reported. */
  lemma AwaitsAfter(before: Line, after: Line, i: nat, parts: map<nat, int>, bikes: set<nat>)
    requires InBounds(before) && InBounds(after) && Progress(before, after)
    requires Honours(before, after, Report(parts, i), i in bikes)
    ensures AwaitsReturn(after) <==> AwaitsReturn(before) && !Reported(before, i, parts, bikes)
    ensures before.isPart && !before.consumable ==> (after.closed <==> before.closed || i in parts)
  {
  }

  /** What one part line holds after a return. */
  lemma HeldAfterReturn(s: Stock, id: nat, loan: Loan, parts: map<nat, int>, bikes: set<nat>, t: Stock, after: Loan, j: nat)
    requires StockSound(s) && Sound(s, id, loan) && Returnable(loan.status)
    requires ReturnItems(s, id, loan, parts, bikes) == Ok((t, after)) && j < |loan.lines| && loan.lines[j].isPart
    ensures HeldFor(t, LoanLine(id, j), Key(loan.lines[j].item, loan.warehouse)) > 0 <==>
              !loan.lines[j].consumable && !loan.lines[j].closed && j !in parts
  {
    ReturnSound(s, id, loan, parts, bikes);
    assert Progress(loan.lines[j], after.lines[j]);
    assert Honours(loan.lines[j], after.lines[j], Report(parts, j), j in bikes);
    assert InBounds(loan.lines[j]) && InBounds(after.lines[j]);
    AwaitsAfter(loan.lines[j], after.lines[j], j, parts, bikes);
    assert Agrees(t, id, after.warehouse, after.lines, |after.lines|, j, Key(loan.lines[j].item, loan.warehouse));
  }

  /** A return marks the issuance returned exactly when it reports every line that still awaits its return. */
  lemma ReturnedIff(s: Stock, id: nat, loan: Loan, parts: map<nat, int>, bikes: set<nat>, t: Stock, after: Loan)
    requires StockSound(s) && Sound(s, id, loan) && Returnable(loan.status)
    requires ReturnItems(s, id, loan, parts, bikes) == Ok((t, after))
    ensures after.status.Returned? <==> AllReported(loan.lines, parts, bikes)
    ensures !after.status.Returned? ==> after.status.PartiallyReturned?
  {
    ReturnSound(s, id, loan, parts, bikes);
    forall j | 0 <= j < |loan.lines|
      ensures AwaitsReturn(after.lines[j]) <==> AwaitsReturn(loan.lines[j]) && !Reported(loan.lines[j], j, parts, bikes)
    {
      assert Progress(loan.lines[j], after.lines[j]);
      assert Honours(loan.lines[j], after.lines[j], Report(parts, j), j in bikes);
      assert InBounds(loan.lines[j]) && InBounds(after.lines[j]);
      AwaitsAfter(loan.lines[j], after.lines[j], j, parts, bikes);
    }
  }

  ghost predicate HoldsNothing(s: Stock, id: nat, loan: Loan) {
    forall j: nat, key :: HeldFor(s, LoanLine(id, j), key) == 0
  }

  /**
   A returned issuance should hold nothing. It does, exactly when the return that closed it overlooked
   no line: each part line that is neither returnable nor consumable was closed before or is reported.
   Otherwise just those lines stay held, and the issuance can no longer be returned.
   */
  lemma ReturnedHoldsNothingIff(s: Stock, id: nat, loan: Loan, parts: map<nat, int>, bikes: set<nat>, t: Stock, after: Loan)
    requires StockSound(s) && Sound(s, id, loan) && Returnable(loan.status)
    requires ReturnItems(s, id, loan, parts, bikes) == Ok((t, after)) && AllReported(loan.lines, parts, bikes)
    ensures after.status.Returned?
    ensures HoldsNothing(t, id, after) <==>
              forall j :: 0 <= j < |loan.lines| ==> !Overlooked(loan.lines[j], j, parts)
    ensures forall j :: 0 <= j < |loan.lines| && loan.lines[j].isPart ==>
              (HeldFor(t, LoanLine(id, j), Key(loan.lines[j].item, loan.warehouse)) > 0 <==> Overlooked(loan.lines[j], j, parts))
    ensures forall more, others :: ReturnItems(t, id, after, more, others) == Err(WrongStatus)
  {
    ReturnedIff(s, id, loan, parts, bikes, t, after);
    ReturnSound(s, id, loan, parts, bikes);
    forall j | 0 <= j < |loan.lines| && loan.lines[j].isPart
      ensures HeldFor(t, LoanLine(id, j), Key(loan.lines[j].item, loan.warehouse)) > 0 <==> Overlooked(loan.lines[j], j, parts)
    {
      HeldAfterReturn(s, id, loan, parts, bikes, t, after, j);
      OpenPartAwaits(loan.lines[j]);
    }
    if forall j :: 0 <= j < |loan.lines| ==> !Overlooked(loan.lines[j], j, parts) {
      forall j: nat, key ensures HeldFor(t, LoanLine(id, j), key) == 0 {
        NothingHeld(t, id, after, j, key);
      }
    }
  }

  lemma OpenPartAwaits(ln: Line)
    requires InBounds(ln)
    ensures ln.returnable && !ln.consumable && !ln.closed ==> AwaitsReturn(ln)
  {
  }

  /** A line holds on its own inventory row or nowhere. */
  lemma NothingHeld(t: Stock, id: nat, loan: Loan, j: nat, key: Key)
    requires Sound(t, id, loan) && Issued(loan)
    requires j < |loan.lines| && loan.lines[j].isPart ==>
               HeldFor(t, LoanLine(id, j), Key(loan.lines[j].item, loan.warehouse)) <= 0
    ensures HeldFor(t, LoanLine(id, j), key) == 0
  {
    assert Agrees(t, id, loan.warehouse, loan.lines, |loan.lines|, j, key);
  }

  /** Five lent, neither returnable nor consumable: a return that reports nothing closes the issuance and keeps the hold. */
  lemma StrandedExample(s: Stock, id: nat, loan: Loan)
    requires StockSound(s) && Sound(s, id, loan) && loan.status.OutOnLoan?
    requires loan.lines == [Line(true, 7, 5, false, false, 0, 0, false)]
    ensures ReturnItems(s, id, loan, map[], {}).Ok?
    ensures var (t, after) := ReturnItems(s, id, loan, map[], {}).value;
            after.status.Returned? && HeldFor(t, LoanLine(id, 0), Key(7, loan.warehouse)) == 5
  {
    ReturnSound(s, id, loan, map[], {});
    var (t, after) := ReturnItems(s, id, loan, map[], {}).value;
    assert Progress(loan.lines[0], after.lines[0]) && Honours(loan.lines[0], after.lines[0], None, false);
    assert Agrees(t, id, after.warehouse, after.lines, |after.lines|, 0, Key(7, loan.warehouse));
  }
}
