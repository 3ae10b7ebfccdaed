/**
 The inventory tables and the methods that write them, in place and step by step. Every stock change
 in the system goes through one of these; each is tied to the function on stock that specifies it.
 */
module InventoryService {
  import opened Common
  import opened Stock
  import S = ImportStock

  ghost predicate HeldNowhereElse(s: Stock, line: LineId, key: Key) {
    forall k :: k != key ==> HeldFor(s, line, k) == 0
  }

  /** Issuing for a line, as a caller sees it: within its hold it never fails, and beyond it needs free stock. */
  lemma IssueObserved(s: Stock, key: Key, quantity: int, source: Source, line: LineId)
    ensures StockSound(s) && 0 < quantity <= HeldFor(s, line, key) && !source.Imported? ==>
      && IssueAgainst(s, key, quantity, source, line).Ok?
      && var t := IssueAgainst(s, key, quantity, source, line).value;
         StockSound(t) && Effect(s, t, key, -quantity, source, Some(line), -quantity)
    ensures StockSound(s) && !source.Imported? && HeldNowhereElse(s, line, key) ==>
      && (IssueAgainst(s, key, quantity, source, line).Ok? <==> 0 < quantity <= Available(s, key) + HeldFor(s, line, key))
      && (IssueAgainst(s, key, quantity, source, line).Ok? ==>
            var t := IssueAgainst(s, key, quantity, source, line).value;
            StockSound(t) && Effect(s, t, key, -quantity, source, Some(line), -Min(quantity, HeldFor(s, line, key))))
  {
    hide StockSound, Effect;
    if StockSound(s) && !source.Imported? {
      if 0 < quantity <= HeldFor(s, line, key) { IssueWithinHold(s, key, quantity, source, line); }
      if HeldNowhereElse(s, line, key) { IssueAgainstIff(s, key, quantity, source, line); }
    }
  }

  class Inventory {
    var products: set<nat>
    var warehouses: set<nat>
    var rows: map<Key, Row>
    var moves: seq<Move>
    var holds: seq<Hold>

    /** The tables as one value: what a savepoint remembers. */
    function State(): Stock
      reads this
    {
      Stock(products, warehouses, rows, moves, holds)
    }

    constructor ()
      ensures State() == EmptyStock()
    {
      products, warehouses, rows, moves, holds := {}, {}, map[], [], [];
    }

    /** Back to a savepoint. */
    method Restore(saved: Stock)
      modifies this
      ensures State() == saved
    {
      products, warehouses, rows := saved.products, saved.warehouses, saved.rows;
      moves, holds := saved.moves, saved.holds;
    }

    method ReceiveStock(key: Key, quantity: int, source: Source) returns (r: Outcome<(), Error>)
      modifies this
      ensures Did(old(State()), State(), Receive(old(State()), key, quantity, source), r)
      ensures r.Ok? && StockSound(old(State())) && quantity >= 0 && !source.Imported? ==>
        StockSound(State()) && Effect(old(State()), State(), key, quantity, source, None, 0)
      ensures r.Ok? <==> key.warehouse in warehouses && key.product in products
      ensures r.Ok? ==> Written(old(State()), State(), key, quantity, 0, [Move(Receipt, key, quantity, source)], old(holds))
    {
      if key.warehouse !in warehouses { return Err(NotFound); }
      if key.product !in products { return Err(NotFound); }
      var row := RowOf(State(), key);
      rows := rows[key := row.(onHand := row.onHand + quantity, version := row.version + 1)];
      moves := moves + [Move(Receipt, key, quantity, source)];
      if StockSound(old(State())) && quantity >= 0 && !source.Imported? {
        ReceiveSound(old(State()), key, quantity, source, State());
      }
      return Ok(());
    }

    method IssueStock(key: Key, quantity: int, source: Source) returns (r: Outcome<(), Error>)
      modifies this
      ensures Did(old(State()), State(), IssueGoods(old(State()), key, quantity, source), r)
      ensures r.Ok? && StockSound(old(State())) && !source.Imported? ==>
        StockSound(State()) && Effect(old(State()), State(), key, -quantity, source, None, 0)
      ensures r.Ok? <==>
        key.warehouse in warehouses && key.product in products && key in old(rows) && quantity <= Available(old(State()), key)
      ensures r.Ok? ==> Written(old(State()), State(), key, -quantity, 0, [Move(GoodsIssue, key, -quantity, source)], old(holds))
    {
      if key.warehouse !in warehouses { return Err(NotFound); }
      if key.product !in products { return Err(NotFound); }
      if key !in rows || Available(State(), key) < quantity { return Err(Insufficient); }
      var row := rows[key];
      rows := rows[key := row.(onHand := row.onHand - quantity, version := row.version + 1)];
      moves := moves + [Move(GoodsIssue, key, -quantity, source)];
      if StockSound(old(State())) && !source.Imported? {
        IssueSound(old(State()), key, quantity, source, State());
      }
      return Ok(());
    }

    /** The caller has checked that the row can cover the hold. */
    method ReserveStock(line: LineId, key: Key, quantity: int)
      modifies this
      ensures State() == ReserveFor(old(State()), line, key, quantity)
      ensures StockSound(old(State())) && 0 < quantity <= Available(old(State()), key) && HoldsNone(old(State()), line) ==>
        StockSound(State()) && Effect(old(State()), State(), key, 0, Manual, Some(line), quantity)
      ensures Written(old(State()), State(), key, 0, quantity, [Move(Reserve, key, -quantity, HoldOn(line))],
                      old(holds) + [Hold(line, key, quantity, true)])
    {
      var row := RowOf(State(), key);
      rows := rows[key := row.(reserved := row.reserved + quantity, version := row.version + 1)];
      holds := holds + [Hold(line, key, quantity, true)];
      moves := moves + [Move(Reserve, key, -quantity, HoldOn(line))];
      if StockSound(old(State())) && 0 < quantity <= Available(old(State()), key) && HoldsNone(old(State()), line) {
        ReserveSound(old(State()), line, key, quantity);
      }
    }

    method ConsumeHold(i: nat, key: Key, quantity: int)
      requires i < |holds|
      modifies this
      ensures State() == Consume(old(State()), i, key, quantity)
      ensures StockSound(old(State())) && old(holds[i]).active && key == old(holds[i]).key && quantity > 0 ==>
        && StockSound(State())
        && Effect(old(State()), State(), key, 0, Manual, Some(old(holds[i]).line), -Min(quantity, old(holds[i]).qty))
      ensures var h, take := old(holds[i]), Min(quantity, old(holds[i]).qty);
              if take <= 0 then State() == old(State())
              else
                Written(old(State()), State(), key, 0, Max(0, Reserved(old(State()), key) - take) - Reserved(old(State()), key),
                        [Move(Unreserve, key, take, HoldOn(h.line))],
                        old(holds)[i := Hold(h.line, h.key, h.qty - take, take < h.qty)])
    {
      if StockSound(State()) && holds[i].active && key == holds[i].key && quantity > 0 { ConsumeSound(State(), i, quantity); }
      var hold := holds[i];
      var take := Min(quantity, hold.qty);
      if take <= 0 { return; }
      var row := RowOf(State(), key);
      rows := rows[key := row.(reserved := Max(0, row.reserved - take), version := row.version + 1)];
      var left := hold.qty - take;
      holds := holds[i := hold.(qty := left, active := left > 0)];
      moves := moves + [Move(Unreserve, key, take, HoldOn(hold.line))];
    }

    method ReleaseHold(i: nat, key: Key)
      requires i < |holds|
      modifies this
      ensures State() == Release(old(State()), i, key)
      ensures StockSound(old(State())) && old(holds[i]).active && key == old(holds[i]).key ==>
        && StockSound(State())
        && Effect(old(State()), State(), key, 0, Manual, Some(old(holds[i]).line), -old(holds[i]).qty)
      ensures var h := old(holds[i]);
              if h.qty <= 0 then State() == old(State()).(holds := old(holds)[i := Hold(h.line, h.key, h.qty, false)])
              else
                Written(old(State()), State(), key, 0, Max(0, Reserved(old(State()), key) - h.qty) - Reserved(old(State()), key),
                        [Move(Unreserve, key, h.qty, HoldOn(h.line))],
                        old(holds)[i := Hold(h.line, h.key, 0, false)])
    {
      if StockSound(State()) && holds[i].active && key == holds[i].key { ReleaseSound(State(), i); }
      var hold := holds[i];
      if hold.qty <= 0 {
        holds := holds[i := hold.(active := false)];
        return;
      }
      var row := RowOf(State(), key);
      rows := rows[key := row.(reserved := Max(0, row.reserved - hold.qty), version := row.version + 1)];
      holds := holds[i := hold.(qty := 0, active := false)];
      moves := moves + [Move(Unreserve, key, hold.qty, HoldOn(hold.line))];
    }

    /** Issue for a demand line, drawing on its own hold first. */
    method IssueAgainstReservation(key: Key, quantity: int, source: Source, line: LineId) returns (r: Outcome<(), Error>)
      modifies this
      ensures Did(old(State()), State(), IssueAgainst(old(State()), key, quantity, source, line), r)
      ensures StockSound(old(State())) && 0 < quantity <= HeldFor(old(State()), line, key) && !source.Imported? ==>
        && r.Ok? && StockSound(State())
        && Effect(old(State()), State(), key, -quantity, source, Some(line), -quantity)
      ensures StockSound(old(State())) && !source.Imported? && HeldNowhereElse(old(State()), line, key) ==>
        && (r.Ok? <==> 0 < quantity <= Available(old(State()), key) + HeldFor(old(State()), line, key))
        && (r.Ok? ==>
              && StockSound(State())
              && Effect(old(State()), State(), key, -quantity, source, Some(line), -Min(quantity, HeldFor(old(State()), line, key))))
    {
      hide StockSound, Effect, HeldNowhereElse;
      IssueObserved(State(), key, quantity, source, line);
      if quantity <= 0 { return Err(NotPositive); }
      var own := ActiveFor(holds, line);
      ActiveInRange(holds, line);
      var ownHold := if own.Some? then holds[own.value].qty else 0;
      if key !in rows || OnHand(State(), key) < quantity || Available(State(), key) + ownHold < quantity {
        return Err(Insufficient);
      }
      if own.Some? {
        ConsumeHold(own.value, key, quantity);
      }
      var row := RowOf(State(), key);
      rows := rows[key := row.(onHand := row.onHand - quantity, version := row.version + 1)];
      moves := moves + [Move(GoodsIssue, key, -quantity, source)];
      return Ok(());
    }

    method AdjustStock(key: Key, delta: int) returns (r: Outcome<(), Error>)
      modifies this
      ensures Did(old(State()), State(), Adjust(old(State()), key, delta), r)
      ensures r.Ok? && StockSound(old(State())) ==>
        (StockSound(State()) <==> Available(old(State()), key) + delta >= 0)
      ensures r.Ok? <==> key.warehouse in warehouses && key.product in products && OnHand(old(State()), key) + delta >= 0
      ensures r.Ok? ==> Written(old(State()), State(), key, delta, 0, [Move(Adjustment, key, delta, Manual)], old(holds))
    {
      if key.warehouse !in warehouses { return Err(NotFound); }
      if key.product !in products { return Err(NotFound); }
      var row := RowOf(State(), key);
      if row.onHand + delta < 0 { return Err(BelowZero); }
      rows := rows[key := row.(onHand := row.onHand + delta, version := row.version + 1)];
      moves := moves + [Move(Adjustment, key, delta, Manual)];
      if StockSound(old(State())) {
        AdjustSoundIff(old(State()), key, delta, State());
      }
      return Ok(());
    }

    method Transfer(product: nat, from: nat, to: nat, quantity: int) returns (r: Outcome<(), Error>)
      modifies this
      ensures Did(old(State()), State(), TransferGoods(old(State()), product, from, to, quantity), r)
      ensures r.Ok? && StockSound(old(State())) && quantity >= 0 ==> StockSound(State())
      ensures r.Ok? <==>
        && from != to && product in products && from in warehouses && to in warehouses
        && quantity <= Available(old(State()), Key(product, from))
      ensures r.Ok? ==>
        && (forall k :: OnHand(State(), k) == OnHand(old(State()), k)
              + (if k == Key(product, to) then quantity else 0) - (if k == Key(product, from) then quantity else 0))
        && holds == old(holds)
        && moves == old(moves) + [Move(TransferOut, Key(product, from), -quantity, Manual),
                                  Move(TransferIn, Key(product, to), quantity, Manual)]
    {
      if from == to { return Err(SameWarehouse); }
      if product !in products || from !in warehouses || to !in warehouses { return Err(NotFound); }
      var source, target := Key(product, from), Key(product, to);
      if Available(State(), source) < quantity { return Err(Insufficient); }
      var src, dst := RowOf(State(), source), RowOf(State(), target);
      rows := rows[source := src.(onHand := src.onHand - quantity, version := src.version + 1)];
      rows := rows[target := dst.(onHand := dst.onHand + quantity, version := dst.version + 1)];
      moves := moves + [Move(TransferOut, source, -quantity, Manual)];
      moves := moves + [Move(TransferIn, target, quantity, Manual)];
      if StockSound(old(State())) && quantity >= 0 {
        TransferSound(old(State()), product, from, to, quantity, State());
      }
      return Ok(());
    }

    /** Opening stock of an import: on-hand and the movement that explains it, together. */
    method SetInitialStock(job: nat, key: Key, quantity: int)
      modifies this
      ensures State() == S.SetInitialStock(old(State()), job, key, quantity)
      ensures StockSound(old(State())) && quantity >= 0 ==>
        StockSound(State()) && Effect(old(State()), State(), key, quantity, Imported(job), None, 0)
      ensures Written(old(State()), State(), key, quantity, 0, [Move(InitialImport, key, quantity, Imported(job))], old(holds))
    {
      var row := RowOf(State(), key);
      rows := rows[key := row.(onHand := row.onHand + quantity, version := row.version + 1)];
      moves := moves + [Move(InitialImport, key, quantity, Imported(job))];
      if StockSound(old(State())) && quantity >= 0 {
        assert RowSound(old(State()), key);
        WriteSoundIff(old(State()), InitialImport, key, quantity, Imported(job));
      }
    }
  }
}
