/**
 The inventory table, the stock-movement ledger and the reservations, with the primitive writes that
 every stock service is built from. Quantities are counted in units of 1/10000.

 A reservation belongs to the document line that raised it. Reserving and releasing also append to
 the movement ledger (`Reserve` and `Unreserve` rows), but only the other kinds move goods.
 */
module Stock {
  import opened Common
  import opened Sums

  datatype Key = Key(product: nat, warehouse: nat)

  datatype Row = Row(onHand: int, reserved: int, damaged: int, version: nat)

  datatype Kind =
    | Receipt | GoodsIssue | Adjustment | TransferOut | TransferIn | InitialImport
    | Reserve | Unreserve

  /** The document lines that hold stock. */
  datatype LineId = ConsignmentLine(delivery: nat, line: nat) | LoanLine(issuance: nat, line: nat)

  /** What a stock movement refers to. */
  datatype Source =
    | ConsignmentSale(sold: LineId)
    | IssuanceLoss(lost: LineId)
    | Handed(issuance: nat)
    | OnNote(note: nat)
    | BikeRepair(issue: nat)
    | Imported(job: nat)
    | HoldOn(held: LineId)
    | Manual

  datatype Move = Move(kind: Kind, key: Key, quantity: int, source: Source)

  datatype Hold = Hold(line: LineId, key: Key, qty: int, active: bool)

  datatype Stock = Stock(
    products: set<nat>,
    warehouses: set<nat>,
    rows: map<Key, Row>,
    moves: seq<Move>,
    holds: seq<Hold>)

  function EmptyStock(): Stock { Stock({}, {}, map[], [], []) }

  datatype Error =
    | NotFound | Insufficient | NotPositive | BelowZero | SameWarehouse
    | WrongStatus | NeedsInvoice | StillReferenced | StockMovedSince | UnitUnavailable | Duplicated | NotAtSource

  // ---------------------------------------------------------------- observations

  function OnHand(s: Stock, key: Key): int { if key in s.rows then s.rows[key].onHand else 0 }

  function Reserved(s: Stock, key: Key): int { if key in s.rows then s.rows[key].reserved else 0 }

  function Damaged(s: Stock, key: Key): int { if key in s.rows then s.rows[key].damaged else 0 }

  function Available(s: Stock, key: Key): int { OnHand(s, key) - Reserved(s, key) - Damaged(s, key) }

  predicate MovesGoods(kind: Kind) { !kind.Reserve? && !kind.Unreserve? }

  function GoodsAt(key: Key): Move -> int {
    (m: Move) => if m.key == key && MovesGoods(m.kind) then m.quantity else 0
  }

  function HoldsAt(key: Key): Move -> int {
    (m: Move) => if m.key == key && !MovesGoods(m.kind) then m.quantity else 0
  }

  function GoodsFrom(source: Source, key: Key): Move -> int {
    (m: Move) => if m.source == source && m.key == key && MovesGoods(m.kind) then m.quantity else 0
  }

  function HeldAt(key: Key): Hold -> int {
    (h: Hold) => if h.active && h.key == key then h.qty else 0
  }

  function HeldBy(line: LineId, key: Key): Hold -> int {
    (h: Hold) => if h.active && h.line == line && h.key == key then h.qty else 0
  }

  /** How much a document line still holds on an inventory row. */
  function HeldFor(s: Stock, line: LineId, key: Key): int { Total(s.holds, HeldBy(line, key)) }

  /** What a source's movements have done to one inventory row. */
  function Net(s: Stock, source: Source, key: Key): int { Total(s.moves, GoodsFrom(source, key)) }

  // ---------------------------------------------------------------- the invariant

  /**
   One inventory row against the two ledgers: on-hand is the sum of the goods movements, reserved is
   the sum of the active holds and mirrors the reserve/unreserve movements, and nothing is promised
   twice.
   */
  predicate RowSound(s: Stock, key: Key) {
    && OnHand(s, key) == Total(s.moves, GoodsAt(key))
    && Reserved(s, key) == Total(s.holds, HeldAt(key))
    && Reserved(s, key) == -Total(s.moves, HoldsAt(key))
    && Damaged(s, key) >= 0
    && Available(s, key) >= 0
  }

  /** An active hold holds something, and no other active hold is for the same line. */
  predicate HoldSound(s: Stock, i: nat, j: nat) {
    i < |s.holds| ==>
      && s.holds[i].qty >= 0
      && (s.holds[i].active ==> s.holds[i].qty > 0)
      && (j < |s.holds| && i != j && s.holds[i].active && s.holds[j].active ==> s.holds[i].line != s.holds[j].line)
  }

  ghost predicate HoldsSound(s: Stock) {
    forall i: nat, j: nat :: HoldSound(s, i, j)
  }

  /** Only opening-stock movements refer to an import. */
  predicate TagSound(s: Stock, i: nat) {
    i < |s.moves| && s.moves[i].source.Imported? ==> s.moves[i].kind.InitialImport?
  }

  ghost predicate TagsSound(s: Stock) {
    forall i: nat :: TagSound(s, i)
  }

  ghost predicate StockSound(s: Stock) {
    && (forall key :: RowSound(s, key))
    && HoldsSound(s)
    && TagsSound(s)
  }

  // ---------------------------------------------------------------- primitive writes

  function RowOf(s: Stock, key: Key): Row {
    if key in s.rows then s.rows[key] else Row(0, 0, 0, 0)
  }

  /** The tables after one write: one row changed, with its version stepped, and rows appended to the ledger. */
  ghost predicate Written(s: Stock, t: Stock, key: Key, goods: int, held: int, more: seq<Move>, holds: seq<Hold>) {
    && t.products == s.products
    && t.warehouses == s.warehouses
    && t.rows.Keys == s.rows.Keys + {key}
    && (forall k :: k in s.rows && k != key ==> t.rows[k] == s.rows[k])
    && t.rows[key] == Row(OnHand(s, key) + goods, Reserved(s, key) + held, Damaged(s, key),
                          if key in s.rows then s.rows[key].version + 1 else 1)
    && t.moves == s.moves + more
    && t.holds == holds
  }

  /** Change one row's on-hand and append the movement that explains it. */
  function Write(s: Stock, kind: Kind, key: Key, quantity: int, source: Source): Stock {
    var row := RowOf(s, key);
    s.(rows := s.rows[key := row.(onHand := row.onHand + quantity, version := row.version + 1)],
       moves := s.moves + [Move(kind, key, quantity, source)])
  }

  function Receive(s: Stock, key: Key, quantity: int, source: Source): Outcome<Stock, Error> {
    if key.warehouse !in s.warehouses || key.product !in s.products then Err(NotFound)
    else Ok(Write(s, Receipt, key, quantity, source))
  }

  function IssueGoods(s: Stock, key: Key, quantity: int, source: Source): Outcome<Stock, Error> {
    if key.warehouse !in s.warehouses || key.product !in s.products then Err(NotFound)
    else if key !in s.rows || Available(s, key) < quantity then Err(Insufficient)
    else Ok(Write(s, GoodsIssue, key, -quantity, source))
  }

  /** The active hold of a line, if any. */
  function ActiveFor(holds: seq<Hold>, line: LineId): Option<nat> {
    if |holds| == 0 then None
    else
      var last := |holds| - 1;
      if holds[last].active && holds[last].line == line then Some(last) else ActiveFor(holds[..last], line)
  }

  /** Hold a quantity on a row the caller has locked and checked. */
  function ReserveFor(s: Stock, line: LineId, key: Key, quantity: int): Stock {
    var row := RowOf(s, key);
    s.(rows := s.rows[key := row.(reserved := row.reserved + quantity, version := row.version + 1)],
       moves := s.moves + [Move(Reserve, key, -quantity, HoldOn(line))],
       holds := s.holds + [Hold(line, key, quantity, true)])
  }

  /** Drop up to `quantity` of a hold; a hold that reaches zero is no longer active. */
  function Consume(s: Stock, i: nat, key: Key, quantity: int): Stock
    requires i < |s.holds|
  {
    var hold := s.holds[i];
    var take := Min(quantity, hold.qty);
    if take <= 0 then s
    else
      var row := RowOf(s, key);
      s.(rows := s.rows[key := row.(reserved := Max(0, row.reserved - take), version := row.version + 1)],
         moves := s.moves + [Move(Unreserve, key, take, HoldOn(hold.line))],
         holds := s.holds[i := hold.(qty := hold.qty - take, active := hold.qty - take > 0)])
  }

  /** Return a whole hold to available. */
  function Release(s: Stock, i: nat, key: Key): Stock
    requires i < |s.holds|
  {
    var hold := s.holds[i];
    if hold.qty <= 0 then s.(holds := s.holds[i := hold.(active := false)])
    else
      var row := RowOf(s, key);
      s.(rows := s.rows[key := row.(reserved := Max(0, row.reserved - hold.qty), version := row.version + 1)],
         moves := s.moves + [Move(Unreserve, key, hold.qty, HoldOn(hold.line))],
         holds := s.holds[i := hold.(qty := 0, active := false)])
  }

  /** Issue for a demand line, drawing on the line's own hold first. */
  function IssueAgainst(s: Stock, key: Key, quantity: int, source: Source, line: LineId): Outcome<Stock, Error> {
    if quantity <= 0 then Err(NotPositive)
    else
      var own := ActiveFor(s.holds, line);
      ActiveInRange(s.holds, line);
      var ownHold := if own.Some? then s.holds[own.value].qty else 0;
      if key !in s.rows || OnHand(s, key) < quantity || Available(s, key) + ownHold < quantity then Err(Insufficient)
      else
        var t := if own.Some? then Consume(s, own.value, key, quantity) else s;
        Ok(Write(t, GoodsIssue, key, -quantity, source))
  }

  function Adjust(s: Stock, key: Key, delta: int): Outcome<Stock, Error> {
    if key.warehouse !in s.warehouses || key.product !in s.products then Err(NotFound)
    else if OnHand(s, key) + delta < 0 then Err(BelowZero)
    else Ok(Write(s, Adjustment, key, delta, Manual))
  }

  function TransferGoods(s: Stock, product: nat, from: nat, to: nat, quantity: int): Outcome<Stock, Error> {
    if from == to then Err(SameWarehouse)
    else if product !in s.products || from !in s.warehouses || to !in s.warehouses then Err(NotFound)
    else if Available(s, Key(product, from)) < quantity then Err(Insufficient)
    else
      var out := Write(s, TransferOut, Key(product, from), -quantity, Manual);
      Ok(Write(out, TransferIn, Key(product, to), quantity, Manual))
  }

  // ---------------------------------------------------------------- what a write does

  lemma {:induction false} ActiveInRange(holds: seq<Hold>, line: LineId)
    ensures var own := ActiveFor(holds, line);
            && (own.Some? ==> own.value < |holds| && holds[own.value].active && holds[own.value].line == line)
            && (own.None? ==> forall i :: 0 <= i < |holds| && holds[i].active ==> holds[i].line != line)
  {
    if |holds| > 0 {
      ActiveInRange(holds[..|holds| - 1], line);
    }
  }

  /** A line has one active hold at most, and that hold is what the line holds, on that hold's row. */
  lemma ActiveIsHeld(s: Stock, line: LineId, key: Key)
    requires HoldsSound(s)
    ensures var own := ActiveFor(s.holds, line);
            HeldFor(s, line, key) ==
            (if own.Some? && own.value < |s.holds| && s.holds[own.value].key == key then s.holds[own.value].qty else 0)
    ensures HeldFor(s, line, key) >= 0
  {
    ActiveInRange(s.holds, line);
    match ActiveFor(s.holds, line)
    case None => TotalZero(s.holds, HeldBy(line, key));
    case Some(i) =>
      forall j | 0 <= j < |s.holds| && j != i && s.holds[j].active ensures s.holds[j].line != line {
        assert HoldSound(s, i, j);
      }
      OneHold(s.holds, i, line, key);
      assert HoldSound(s, i, i);
  }

  lemma {:induction false} OneHold(holds: seq<Hold>, i: nat, line: LineId, key: Key)
    requires i < |holds| && holds[i].active && holds[i].line == line
    requires forall j :: 0 <= j < |holds| && j != i && holds[j].active ==> holds[j].line != line
    ensures Total(holds, HeldBy(line, key)) == if holds[i].key == key then holds[i].qty else 0
  {
    var front := holds[..|holds| - 1];
    if i == |holds| - 1 {
      TotalZero(front, HeldBy(line, key));
    } else {
      OneHold(front, i, line, key);
    }
  }

  /** A hold is part of what its row has reserved, so it is backed by goods on hand. */
  lemma HoldIsBacked(s: Stock, i: nat)
    requires StockSound(s) && i < |s.holds| && s.holds[i].active
    ensures var h := s.holds[i];
            h.qty <= Reserved(s, h.key) && h.qty + Available(s, h.key) <= OnHand(s, h.key) && h.key in s.rows
  {
    var key := s.holds[i].key;
    assert RowSound(s, key) && HoldSound(s, i, i);
    forall j: nat | j < |s.holds| ensures HeldAt(key)(s.holds[j]) >= 0 { assert HoldSound(s, j, j); }
    TotalNonNegative(s.holds, HeldAt(key));
    assert HeldAt(key)(s.holds[i]) == s.holds[i].qty;
  }

  /**
   The whole observable effect of a write: on-hand of one row changes by `goods`, explained by one
   source, and `held` is added to the reservation of that row and of one line. Nothing else moves.
   */
  ghost predicate Effect(s: Stock, t: Stock, key: Key, goods: int, source: Source, line: Option<LineId>, held: int) {
    && t.products == s.products
    && t.warehouses == s.warehouses
    && s.moves <= t.moves
    && (forall k :: OnHand(t, k) == OnHand(s, k) + if k == key then goods else 0)
    && (forall k :: Reserved(t, k) == Reserved(s, k) + if k == key then held else 0)
    && (forall k :: Damaged(t, k) == Damaged(s, k))
    && (forall src, k :: Net(t, src, k) == Net(s, src, k) + if src == source && k == key then goods else 0)
    && (forall l, k :: HeldFor(t, l, k) == HeldFor(s, l, k) + if line == Some(l) && k == key then held else 0)
  }

  lemma MovesAppend(s: Stock, m: Move)
    ensures forall k :: Total(s.moves + [m], GoodsAt(k)) == Total(s.moves, GoodsAt(k)) + GoodsAt(k)(m)
    ensures forall k :: Total(s.moves + [m], HoldsAt(k)) == Total(s.moves, HoldsAt(k)) + HoldsAt(k)(m)
    ensures forall src, k :: Total(s.moves + [m], GoodsFrom(src, k)) == Total(s.moves, GoodsFrom(src, k)) + GoodsFrom(src, k)(m)
  {
    forall k
      ensures Total(s.moves + [m], GoodsAt(k)) == Total(s.moves, GoodsAt(k)) + GoodsAt(k)(m)
      ensures Total(s.moves + [m], HoldsAt(k)) == Total(s.moves, HoldsAt(k)) + HoldsAt(k)(m)
    {
      TotalAppend(s.moves, m, GoodsAt(k));
      TotalAppend(s.moves, m, HoldsAt(k));
    }
    forall src, k
      ensures Total(s.moves + [m], GoodsFrom(src, k)) == Total(s.moves, GoodsFrom(src, k)) + GoodsFrom(src, k)(m)
    {
      TotalAppend(s.moves, m, GoodsFrom(src, k));
    }
  }

  /** A goods write keeps the stock sound exactly when it leaves the row's availability non-negative. */
  lemma WriteSoundIff(s: Stock, kind: Kind, key: Key, quantity: int, source: Source)
    requires StockSound(s) && MovesGoods(kind) && (source.Imported? ==> kind.InitialImport?)
    ensures Effect(s, Write(s, kind, key, quantity, source), key, quantity, source, None, 0)
    ensures StockSound(Write(s, kind, key, quantity, source)) <==> Available(s, key) + quantity >= 0
  {
    var t := Write(s, kind, key, quantity, source);
    MovesAppend(s, Move(kind, key, quantity, source));
    assert RowSound(s, key);
    assert RowSound(t, key) <==> Available(s, key) + quantity >= 0;
    forall k | k != key ensures RowSound(t, k) {
      assert RowSound(s, k);
    }
    forall i: nat ensures TagSound(t, i) { assert TagSound(s, i); }
    forall i: nat, j: nat ensures HoldSound(t, i, j) { assert HoldSound(s, i, j); }
  }

  lemma ReceiveSound(s: Stock, key: Key, quantity: int, source: Source, t: Stock)
    requires StockSound(s) && quantity >= 0 && !source.Imported? && Receive(s, key, quantity, source) == Ok(t)
    ensures StockSound(t)
    ensures Effect(s, t, key, quantity, source, None, 0)
  {
    assert RowSound(s, key);
    WriteSoundIff(s, Receipt, key, quantity, source);
  }

  lemma IssueSound(s: Stock, key: Key, quantity: int, source: Source, t: Stock)
    requires StockSound(s) && !source.Imported? && IssueGoods(s, key, quantity, source) == Ok(t)
    ensures StockSound(t)
    ensures Effect(s, t, key, -quantity, source, None, 0)
  {
    WriteSoundIff(s, GoodsIssue, key, -quantity, source);
  }

  ghost predicate HoldsNone(s: Stock, line: LineId) {
    forall k :: HeldFor(s, line, k) == 0
  }

  lemma ReserveSound(s: Stock, line: LineId, key: Key, quantity: int)
    requires StockSound(s) && 0 < quantity <= Available(s, key) && HoldsNone(s, line)
    ensures StockSound(ReserveFor(s, line, key, quantity))
    ensures Effect(s, ReserveFor(s, line, key, quantity), key, 0, Manual, Some(line), quantity)
  {
    var t := ReserveFor(s, line, key, quantity);
    var hold := Hold(line, key, quantity, true);
    MovesAppend(s, Move(Reserve, key, -quantity, HoldOn(line)));
    forall l, k ensures HeldFor(t, l, k) == HeldFor(s, l, k) + if l == line && k == key then quantity else 0 {
      TotalAppend(s.holds, hold, HeldBy(l, k));
    }
    forall k ensures RowSound(t, k) {
      assert RowSound(s, k);
      TotalAppend(s.holds, hold, HeldAt(k));
    }
    ActiveInRange(s.holds, line);
    if ActiveFor(s.holds, line).Some? {
      var i := ActiveFor(s.holds, line).value;
      assert HoldSound(s, i, i);
      ActiveIsHeld(s, line, s.holds[i].key);
    }
    forall i: nat ensures TagSound(t, i) { assert TagSound(s, i); }
    forall i: nat, j: nat ensures HoldSound(t, i, j) { assert HoldSound(s, i, j); }
  }

  /** Dropping `take` of an active hold, whether it is consumed or released. */
  lemma DropSound(s: Stock, i: nat, take: int, t: Stock)
    requires StockSound(s) && i < |s.holds| && s.holds[i].active && 0 < take <= s.holds[i].qty
    requires var h := s.holds[i];
             var row := RowOf(s, h.key);
             t == s.(rows := s.rows[h.key := row.(reserved := Max(0, row.reserved - take), version := row.version + 1)],
                     moves := s.moves + [Move(Unreserve, h.key, take, HoldOn(h.line))],
                     holds := s.holds[i := h.(qty := h.qty - take, active := h.qty - take > 0)])
    ensures StockSound(t)
    ensures Effect(s, t, s.holds[i].key, 0, Manual, Some(s.holds[i].line), -take)
  {
    var h := s.holds[i];
    HoldIsBacked(s, i);
    MovesAppend(s, Move(Unreserve, h.key, take, HoldOn(h.line)));
    forall l, k ensures HeldFor(t, l, k) == HeldFor(s, l, k) - if l == h.line && k == h.key then take else 0 {
      TotalUpdate(s.holds, i, t.holds[i], HeldBy(l, k));
    }
    forall k ensures RowSound(t, k) {
      assert RowSound(s, k);
      TotalUpdate(s.holds, i, t.holds[i], HeldAt(k));
    }
    forall j: nat ensures TagSound(t, j) { assert TagSound(s, j); }
    forall j: nat, k: nat ensures HoldSound(t, j, k) { assert HoldSound(s, j, k); }
  }

  lemma ConsumeSound(s: Stock, i: nat, quantity: int)
    requires StockSound(s) && i < |s.holds| && s.holds[i].active && quantity > 0
    ensures var h := s.holds[i];
            var t := Consume(s, i, h.key, quantity);
            StockSound(t) && Effect(s, t, h.key, 0, Manual, Some(h.line), -Min(quantity, h.qty))
  {
    assert HoldSound(s, i, i);
    DropSound(s, i, Min(quantity, s.holds[i].qty), Consume(s, i, s.holds[i].key, quantity));
  }

  lemma ReleaseSound(s: Stock, i: nat)
    requires StockSound(s) && i < |s.holds| && s.holds[i].active
    ensures var h := s.holds[i];
            var t := Release(s, i, h.key);
            StockSound(t) && Effect(s, t, h.key, 0, Manual, Some(h.line), -h.qty)
  {
    assert HoldSound(s, i, i);
    DropSound(s, i, s.holds[i].qty, Release(s, i, s.holds[i].key));
  }

  lemma EffectCompose(s: Stock, t: Stock, u: Stock, key: Key, goods: int, source: Source, line: LineId, held: int)
    requires Effect(s, t, key, 0, Manual, Some(line), held)
    requires Effect(t, u, key, goods, source, None, 0)
    ensures Effect(s, u, key, goods, source, Some(line), held)
  {
    assert forall src, k :: Net(t, src, k) == Net(s, src, k);
  }

  lemma EffectThenDrop(s: Stock, t: Stock, u: Stock, key: Key, goods: int, source: Source, line: LineId, held: int, dropped: int)
    requires Effect(s, t, key, goods, source, Some(line), held)
    requires Effect(t, u, key, 0, Manual, Some(line), dropped)
    ensures Effect(s, u, key, goods, source, Some(line), held + dropped)
  {
    assert forall src, k :: Net(u, src, k) == Net(t, src, k);
  }

  lemma NoEffect(s: Stock, key: Key, source: Source, line: Option<LineId>)
    ensures Effect(s, s, key, 0, source, line, 0)
  {
  }

  lemma IssueWithinHoldSucceeds(s: Stock, key: Key, quantity: int, source: Source, line: LineId) returns (i: nat)
    requires StockSound(s) && 0 < quantity <= HeldFor(s, line, key)
    ensures i < |s.holds|
    ensures s.holds[i].active
    ensures s.holds[i].line == line
    ensures s.holds[i].key == key
    ensures s.holds[i].qty == HeldFor(s, line, key)
    ensures IssueAgainst(s, key, quantity, source, line) == Ok(Write(Consume(s, i, key, quantity), GoodsIssue, key, -quantity, source))
  {
    ActiveIsHeld(s, line, key);
    ActiveInRange(s.holds, line);
    i := ActiveFor(s.holds, line).value;
    HoldIsBacked(s, i);
    assert RowSound(s, key);
  }

  /**
   A held quantity can always be issued: with the hold in place on that row, issuing up to it never
   fails, takes exactly that much off the hold and off the shelf, and keeps the stock sound.
   */
  lemma IssueWithinHold(s: Stock, key: Key, quantity: int, source: Source, line: LineId)
    requires StockSound(s) && 0 < quantity <= HeldFor(s, line, key) && !source.Imported?
    ensures IssueAgainst(s, key, quantity, source, line).Ok?
    ensures var t := IssueAgainst(s, key, quantity, source, line).value;
            StockSound(t) && Effect(s, t, key, -quantity, source, Some(line), -quantity)
  {
    var i := IssueWithinHoldSucceeds(s, key, quantity, source, line);
    ConsumeSound(s, i, quantity);
    var t := Consume(s, i, key, quantity);
    assert RowSound(s, key);
    WriteSoundIff(t, GoodsIssue, key, -quantity, source);
    EffectCompose(s, t, Write(t, GoodsIssue, key, -quantity, source), key, -quantity, source, line, -quantity);
  }

  lemma RowBounds(s: Stock, key: Key)
    requires StockSound(s)
    ensures 0 <= Reserved(s, key) && 0 <= Available(s, key) <= OnHand(s, key)
  {
    forall j: nat | j < |s.holds| ensures HeldAt(key)(s.holds[j]) >= 0 { assert HoldSound(s, j, j); }
    TotalNonNegative(s.holds, HeldAt(key));
    assert RowSound(s, key);
  }

  lemma IssueUnheld(s: Stock, key: Key, quantity: int, source: Source, line: LineId)
    requires StockSound(s) && !source.Imported? && ActiveFor(s.holds, line).None?
    ensures HeldFor(s, line, key) == 0
    ensures IssueAgainst(s, key, quantity, source, line).Ok? <==> 0 < quantity <= Available(s, key)
    ensures IssueAgainst(s, key, quantity, source, line).Ok? ==>
              var t := IssueAgainst(s, key, quantity, source, line).value;
              StockSound(t) && Effect(s, t, key, -quantity, source, Some(line), 0)
  {
    ActiveIsHeld(s, line, key);
    RowBounds(s, key);
    if 0 < quantity <= Available(s, key) {
      WriteSoundIff(s, GoodsIssue, key, -quantity, source);
    }
  }

  lemma IssueHeldIs(s: Stock, key: Key, quantity: int, source: Source, line: LineId, i: nat)
    requires ActiveFor(s.holds, line) == Some(i) && i < |s.holds| && key in s.rows
    requires s.holds[i].qty + Available(s, key) <= OnHand(s, key)
    ensures IssueAgainst(s, key, quantity, source, line) ==
              if quantity <= 0 then Err(NotPositive)
              else if quantity > Available(s, key) + s.holds[i].qty then Err(Insufficient)
              else Ok(Write(Consume(s, i, key, quantity), GoodsIssue, key, -quantity, source))
  {
  }

  lemma IssueHeld(s: Stock, key: Key, quantity: int, source: Source, line: LineId, i: nat)
    requires StockSound(s) && !source.Imported? && ActiveFor(s.holds, line) == Some(i)
    requires i < |s.holds| && s.holds[i].active && s.holds[i].line == line && s.holds[i].key == key && key in s.rows
    requires s.holds[i].qty + Available(s, key) <= OnHand(s, key)
    ensures IssueAgainst(s, key, quantity, source, line).Ok? <==> 0 < quantity <= Available(s, key) + s.holds[i].qty
    ensures IssueAgainst(s, key, quantity, source, line).Ok? ==>
              var t := IssueAgainst(s, key, quantity, source, line).value;
              StockSound(t) && Effect(s, t, key, -quantity, source, Some(line), -Min(quantity, s.holds[i].qty))
  {
    hide StockSound, IssueAgainst, Consume, Write;
    IssueHeldIs(s, key, quantity, source, line, i);
    RowBounds(s, key);
    if 0 < quantity <= Available(s, key) + s.holds[i].qty {
      var t := Consume(s, i, key, quantity);
      ConsumeSound(s, i, quantity);
      WriteSoundIff(t, GoodsIssue, key, -quantity, source);
      var u := Write(t, GoodsIssue, key, -quantity, source);
      EffectCompose(s, t, u, key, -quantity, source, line, -Min(quantity, s.holds[i].qty));
    }
  }

  /**
   Issuing for a line goes through exactly up to what is free plus what the line itself holds on that row; it
   takes the goods off the shelf and, as far as it goes, off the line's own hold, and nothing that others hold.
   */
  lemma IssueAgainstIff(s: Stock, key: Key, quantity: int, source: Source, line: LineId)
    requires StockSound(s) && !source.Imported? && forall k :: k != key ==> HeldFor(s, line, k) == 0
    ensures IssueAgainst(s, key, quantity, source, line).Ok? <==> 0 < quantity <= Available(s, key) + HeldFor(s, line, key)
    ensures IssueAgainst(s, key, quantity, source, line).Ok? ==>
              var t := IssueAgainst(s, key, quantity, source, line).value;
              && StockSound(t)
              && Effect(s, t, key, -quantity, source, Some(line), -Min(quantity, HeldFor(s, line, key)))
  {
    hide StockSound, Effect, IssueAgainst, Available;
    ActiveInRange(s.holds, line);
    if ActiveFor(s.holds, line).None? {
      IssueUnheld(s, key, quantity, source, line);
    } else {
      var i := ActiveFor(s.holds, line).value;
      OwnHoldHere(s, line, key, i);
      IssueHeld(s, key, quantity, source, line, i);
    }
  }

  lemma OwnHoldHere(s: Stock, line: LineId, key: Key, i: nat)
    requires StockSound(s) && ActiveFor(s.holds, line) == Some(i) && i < |s.holds| && s.holds[i].active && s.holds[i].line == line
    requires forall k :: k != key ==> HeldFor(s, line, k) == 0
    ensures s.holds[i].key == key
    ensures s.holds[i].qty == HeldFor(s, line, key)
    ensures key in s.rows
    ensures s.holds[i].qty + Available(s, key) <= OnHand(s, key)
  {
    ActiveIsHeld(s, line, s.holds[i].key);
    assert HoldSound(s, i, i);
    HoldIsBacked(s, i);
  }

  lemma TransferSound(s: Stock, product: nat, from: nat, to: nat, quantity: int, t: Stock)
    requires StockSound(s) && quantity >= 0 && TransferGoods(s, product, from, to, quantity) == Ok(t)
    ensures StockSound(t)
    ensures forall k :: OnHand(t, k) == OnHand(s, k)
              + (if k == Key(product, to) then quantity else 0) - (if k == Key(product, from) then quantity else 0)
    ensures forall src: Source, k: Key :: !src.Manual? ==> Net(t, src, k) == Net(s, src, k)
    ensures forall l, k :: HeldFor(t, l, k) == HeldFor(s, l, k)
    ensures s.moves <= t.moves
    ensures t.products == s.products
    ensures t.warehouses == s.warehouses
    ensures forall k :: Damaged(t, k) == Damaged(s, k)
  {
    var out := Write(s, TransferOut, Key(product, from), -quantity, Manual);
    WriteSoundIff(s, TransferOut, Key(product, from), -quantity, Manual);
    assert RowSound(out, Key(product, to));
    WriteSoundIff(out, TransferIn, Key(product, to), quantity, Manual);
  }

  /** An adjustment looks at on-hand only: it keeps holds backed exactly when the free stock covers it. */
  lemma AdjustSoundIff(s: Stock, key: Key, delta: int, t: Stock)
    requires StockSound(s) && Adjust(s, key, delta) == Ok(t)
    ensures Effect(s, t, key, delta, Manual, None, 0)
    ensures StockSound(t) <==> Available(s, key) + delta >= 0
  {
    WriteSoundIff(s, Adjustment, key, delta, Manual);
  }

  /** Taking one unit off a row whose goods are all promised is accepted, and leaves a promise without goods. */
  lemma AdjustBreaksPromise(s: Stock, key: Key)
    requires StockSound(s) && key.product in s.products && key.warehouse in s.warehouses
    requires Available(s, key) == 0 < OnHand(s, key)
    ensures Adjust(s, key, -1).Ok?
    ensures !StockSound(Adjust(s, key, -1).value)
  {
    AdjustSoundIff(s, key, -1, Adjust(s, key, -1).value);
  }

  // ---------------------------------------------------------------- frames

  datatype Owner = DeliveryDoc(delivery: nat) | IssuanceDoc(issuance: nat) | NoteDoc(note: nat) | IssueDoc(issue: nat) | JobDoc(job: nat) | NoOne

  function LineOwner(line: LineId): Owner {
    match line
    case ConsignmentLine(d, _) => DeliveryDoc(d)
    case LoanLine(d, _) => IssuanceDoc(d)
  }

  function SourceOwner(source: Source): Owner {
    match source
    case ConsignmentSale(line) => LineOwner(line)
    case IssuanceLoss(line) => LineOwner(line)
    case Handed(d) => IssuanceDoc(d)
    case OnNote(n) => NoteDoc(n)
    case BikeRepair(i) => IssueDoc(i)
    case Imported(j) => JobDoc(j)
    case HoldOn(_) => NoOne
    case Manual => NoOne
  }

  predicate SameNet(s: Stock, t: Stock, source: Source, key: Key) { Net(t, source, key) == Net(s, source, key) }

  /** No hold and no goods movement of any other document differs. */
  ghost predicate Spares(s: Stock, t: Stock, owner: Owner) {
    && (forall line, key :: LineOwner(line) != owner ==> HeldFor(t, line, key) == HeldFor(s, line, key))
    && (forall source: Source, key: Key :: SourceOwner(source) != owner && !source.Manual? ==> SameNet(s, t, source, key))
  }

  /** No dispatch note's goods movements differ. */
  ghost predicate NotesSpared(s: Stock, t: Stock) {
    forall note: nat, key :: SameNet(s, t, OnNote(note), key)
  }

  lemma OthersSpareNotes(s: Stock, t: Stock, owner: Owner)
    requires Spares(s, t, owner) && !owner.NoteDoc?
    ensures NotesSpared(s, t)
  {
    forall note: nat, key ensures SameNet(s, t, OnNote(note), key) {
      assert SourceOwner(OnNote(note)) == NoteDoc(note);
    }
  }

  /** An append-only change made for one document. */
  ghost predicate OnlyFor(s: Stock, t: Stock, owner: Owner) {
    && t.products == s.products
    && t.warehouses == s.warehouses
    && s.moves <= t.moves
    && Spares(s, t, owner)
    && (forall key :: Damaged(t, key) == Damaged(s, key))
  }

  lemma EffectOnlyFor(s: Stock, t: Stock, key: Key, goods: int, source: Source, line: Option<LineId>, held: int, owner: Owner)
    requires Effect(s, t, key, goods, source, line, held)
    requires source.Manual? || SourceOwner(source) == owner
    requires line.None? || LineOwner(line.value) == owner
    ensures OnlyFor(s, t, owner)
  {
  }

  lemma OnlyForTransitive(s: Stock, t: Stock, u: Stock, owner: Owner)
    requires OnlyFor(s, t, owner) && OnlyFor(t, u, owner)
    ensures OnlyFor(s, u, owner)
  {
    forall source: Source, key: Key | SourceOwner(source) != owner && !source.Manual?
      ensures SameNet(s, u, source, key)
    {
      assert SameNet(s, t, source, key) && SameNet(t, u, source, key);
    }
  }
}
