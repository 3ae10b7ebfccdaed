/**
 Dispatch notes: a two-location transfer with confirm-on-receipt. Parts leave the source when the note
 is dispatched and reach the destination when it is received; motorcycles move by unit. A received
 figure is clamped to what was dispatched and the rest is recorded as damaged or missing.

 Receipt is accepted in transit and again after a partial receipt, and processes every line each time.
 */
module Dispatch {
  import opened Common
  import opened Sums
  import opened Stock

  datatype Status = Draft | InTransit | PartiallyReceived | Received | Cancelled

  datatype Line = Line(isPart: bool, item: nat, dispatched: int, received: int, missing: int, damaged: int)

  datatype Note = Note(status: Status, from: nat, to: nat, lines: seq<Line>)

  datatype PartReport = PartReport(received: int, damaged: int)

  /** Where a unit is: at a warehouse, or at no location (in transit, or never placed). */
  type Places = map<nat, Option<nat>>

  predicate Receivable(status: Status) { status.InTransit? || status.PartiallyReceived? }

  predicate OpenNote(status: Status) { status.Draft? || status.InTransit? || status.PartiallyReceived? }

  predicate Reconciles(ln: Line) { ln.received + ln.missing + ln.damaged == ln.dispatched }

  function ReceiveOutcome(lines: seq<Line>): Status {
    if exists i :: 0 <= i < |lines| && (lines[i].received < lines[i].dispatched || lines[i].missing > 0 || lines[i].damaged > 0)
    then PartiallyReceived else Received
  }

  // ---------------------------------------------------------------- creating

  predicate UnitOnOpenNote(notes: seq<Note>, unit: nat) {
    exists n, i :: 0 <= n < |notes| && OpenNote(notes[n].status) && 0 <= i < |notes[n].lines| && Carries(notes[n], i, unit)
  }

  /** Line `i` of the note is this motorcycle's. */
  predicate Carries(note: Note, i: nat, unit: nat) {
    i < |note.lines| && !note.lines[i].isPart && note.lines[i].item == unit
  }

  function PartLines(parts: seq<(nat, int)>): seq<Line> {
    seq(|parts|, i requires 0 <= i < |parts| => Line(true, parts[i].0, parts[i].1, 0, 0, 0))
  }

  function BikeLines(units: seq<nat>): seq<Line> {
    seq(|units|, i requires 0 <= i < |units| => Line(false, units[i], 1, 0, 0, 0))
  }

  /** The checks on the motorcycles of a new note, in line order. */
  function CheckBikes(notes: seq<Note>, places: Places, sold: set<nat>, from: nat, units: seq<nat>, i: nat): Option<Error>
    requires i <= |units|
    decreases |units| - i
  {
    if i == |units| then None
    else
      var unit := units[i];
      if unit !in places then Some(NotFound)
      else if unit in units[..i] then Some(Duplicated)
      else if unit in sold then Some(UnitUnavailable)
      else if places[unit].Some? && places[unit].value != from then Some(NotAtSource)
      else if UnitOnOpenNote(notes, unit) then Some(UnitUnavailable)
      else CheckBikes(notes, places, sold, from, units, i + 1)
  }

  function Create(s: Stock, notes: seq<Note>, places: Places, sold: set<nat>, from: nat, to: nat,
                  parts: seq<(nat, int)>, units: seq<nat>): Outcome<Note, Error>
  {
    if from == to then Err(SameWarehouse)
    else if from !in s.warehouses || to !in s.warehouses then Err(NotFound)
    else if exists i :: 0 <= i < |parts| && parts[i].0 !in s.products then Err(NotFound)
    else
      match CheckBikes(notes, places, sold, from, units, 0)
      case Some(error) => Err(error)
      case None => Ok(Note(Draft, from, to, PartLines(parts) + BikeLines(units)))
  }

  // ---------------------------------------------------------------- dispatching

  /** One issue per part line, from the source. */
  function IssueParts(s: Stock, id: nat, note: Note, i: nat): Outcome<Stock, Error>
    requires i <= |note.lines|
    decreases |note.lines| - i
  {
    if i == |note.lines| then Ok(s)
    else if !note.lines[i].isPart then IssueParts(s, id, note, i + 1)
    else
      var t :- IssueGoods(s, Key(note.lines[i].item, note.from), note.lines[i].dispatched, OnNote(id));
      IssueParts(t, id, note, i + 1)
  }

  /** Each motorcycle of the note leaves its location. */
  function Depart(places: Places, lines: seq<Line>): Places {
    if |lines| == 0 then places
    else
      var last := lines[|lines| - 1];
      var rest := Depart(places, lines[..|lines| - 1]);
      if last.isPart then rest else rest[last.item := None]
  }

  function DispatchNote(s: Stock, places: Places, id: nat, note: Note): Outcome<(Stock, Places, Note), Error> {
    if !note.status.Draft? then Err(WrongStatus)
    else
      var t :- IssueParts(s, id, note, 0);
      Ok((t, Depart(places, note.lines), note.(status := InTransit)))
  }

  // ---------------------------------------------------------------- receiving

  /** The recorded figures of one line: no report means everything arrived. */
  function Figures(ln: Line, part: Option<PartReport>): Line {
    var received := if part.None? then ln.dispatched else Min(Max(0, part.value.received), ln.dispatched);
    var damaged := if part.None? then 0 else Min(Max(0, part.value.damaged), ln.dispatched - received);
    ln.(received := received, damaged := damaged, missing := Max(0, ln.dispatched - received - damaged))
  }

  function BikeFigures(ln: Line, confirmed: bool): Line {
    if confirmed then ln.(received := 1, missing := 0) else ln.(received := 0, missing := 1)
  }

  datatype State = State(stock: Stock, places: Places, lines: seq<Line>)

  function ReceiveLine(st: State, id: nat, note: Note, i: nat, part: Option<PartReport>, confirmed: bool): Outcome<State, Error>
    requires i < |st.lines|
  {
    var ln := st.lines[i];
    if ln.isPart then
      var after := Figures(ln, part);
      var t :- if after.received > 0 then Receive(st.stock, Key(ln.item, note.to), after.received, OnNote(id)) else Ok(st.stock);
      Ok(State(t, st.places, st.lines[i := after]))
    else
      Ok(State(st.stock, st.places[ln.item := Some(if confirmed then note.to else note.from)],
               st.lines[i := BikeFigures(ln, confirmed)]))
  }

  function Report(parts: map<nat, PartReport>, i: nat): Option<PartReport> { if i in parts then Some(parts[i]) else None }

  /** A motorcycle not mentioned counts as arrived. */
  predicate Arrived(bikes: map<nat, bool>, i: nat) { i in bikes ==> bikes[i] }

  function ReceiveFrom(st: State, id: nat, note: Note, i: nat, parts: map<nat, PartReport>, bikes: map<nat, bool>): Outcome<State, Error>
    requires i <= |st.lines|
    decreases |st.lines| - i
  {
    if i == |st.lines| then Ok(st)
    else
      var next :- ReceiveLine(st, id, note, i, Report(parts, i), Arrived(bikes, i));
      ReceiveFrom(next, id, note, i + 1, parts, bikes)
  }

  function ReceiveNote(s: Stock, places: Places, id: nat, note: Note, parts: map<nat, PartReport>, bikes: map<nat, bool>)
    : Outcome<(Stock, Places, Note), Error>
  {
    if !Receivable(note.status) then Err(WrongStatus)
    else
      var st :- ReceiveFrom(State(s, places, note.lines), id, note, 0, parts, bikes);
      Ok((st.stock, st.places, note.(lines := st.lines, status := ReceiveOutcome(st.lines))))
  }

  function CancelNote(note: Note): Outcome<Note, Error> {
    if !note.status.Draft? then Err(WrongStatus) else Ok(note.(status := Cancelled))
  }

  // ---------------------------------------------------------------- one note

  predicate LineInBounds(ln: Line) {
    && ln.dispatched > 0
    && ln.received >= 0
    && ln.missing >= 0
    && ln.damaged >= 0
    && (!ln.isPart ==> ln.dispatched == 1 && ln.damaged == 0)
  }

  predicate HasReceipt(status: Status) { status.PartiallyReceived? || status.Received? }

  /** Before receipt nothing is recorded; after it every line reconciles with what was dispatched. */
  predicate LineSound(status: Status, ln: Line) {
    && LineInBounds(ln)
    && if HasReceipt(status) then Reconciles(ln) else ln.received == 0 && ln.missing == 0 && ln.damaged == 0
  }

  ghost predicate LinesSound(note: Note) {
    && (forall i :: 0 <= i < |note.lines| ==> LineSound(note.status, note.lines[i]))
    && (note.status.Received? ==> forall i :: 0 <= i < |note.lines| ==> note.lines[i].received == note.lines[i].dispatched)
  }

  /** For any reported figures, received + missing + damaged is what was dispatched. */
  lemma FiguresReconcile(ln: Line, part: Option<PartReport>)
    requires LineInBounds(ln) && ln.isPart
    ensures var after := Figures(ln, part);
            && LineInBounds(after)
            && Reconciles(after)
            && after.dispatched == ln.dispatched
            && after.item == ln.item
            && (part.None? ==> after.received == ln.dispatched)
            && (part.Some? && 0 <= part.value.received && 0 <= part.value.damaged
                && part.value.received + part.value.damaged <= ln.dispatched ==>
                  after.received == part.value.received && after.damaged == part.value.damaged)
  {
  }

  // ---------------------------------------------------------------- goods of a product

  /** All goods of a product on all shelves, read off the ledger. */
  function ProductGoods(product: nat): Move -> int {
    (m: Move) => if m.key.product == product && MovesGoods(m.kind) then m.quantity else 0
  }

  function Shelved(s: Stock, product: nat): int { Total(s.moves, ProductGoods(product)) }

  function DispatchedOf(product: nat): Line -> int {
    (ln: Line) => if ln.isPart && ln.item == product then ln.dispatched else 0
  }

  function ReceivedOf(product: nat): Line -> int {
    (ln: Line) => if ln.isPart && ln.item == product then ln.received else 0
  }

  function LostOf(product: nat): Line -> int {
    (ln: Line) => if ln.isPart && ln.item == product then ln.missing + ln.damaged else 0
  }

  /** Goods of a product a note accounts for off the shelves: in transit, or recorded missing or damaged. */
  function OffShelf(note: Note, product: nat): int {
    if note.status.InTransit? then Total(note.lines, DispatchedOf(product))
    else if HasReceipt(note.status) then Total(note.lines, LostOf(product))
    else 0
  }

  /** The ledger sum over all shelves is the sum of the on-hand figures that a write changes. */
  lemma ShelvedWrite(s: Stock, kind: Kind, key: Key, quantity: int, source: Source, product: nat)
    requires MovesGoods(kind)
    ensures Shelved(Write(s, kind, key, quantity, source), product)
            == Shelved(s, product) + if key.product == product then quantity else 0
  {
    TotalAppend(s.moves, Move(kind, key, quantity, source), ProductGoods(product));
  }

  lemma {:induction false} IssuePartsSound(s: Stock, id: nat, note: Note, i: nat, t: Stock)
    requires StockSound(s) && i <= |note.lines| && IssueParts(s, id, note, i) == Ok(t)
    ensures StockSound(t) && OnlyFor(s, t, NoteDoc(id))
    ensures forall product :: Shelved(t, product)
              == Shelved(s, product) - Total(note.lines, DispatchedOf(product)) + Total(note.lines[..i], DispatchedOf(product))
    decreases |note.lines| - i
  {
    if i == |note.lines| {
      assert note.lines[..i] == note.lines;
    } else {
      var ln := note.lines[i];
      var u := s;
      if ln.isPart {
        u := IssueGoods(s, Key(ln.item, note.from), ln.dispatched, OnNote(id)).value;
        IssueSound(s, Key(ln.item, note.from), ln.dispatched, OnNote(id), u);
        EffectOnlyFor(s, u, Key(ln.item, note.from), -ln.dispatched, OnNote(id), None, 0, NoteDoc(id));
      }
      IssuePartsSound(u, id, note, i + 1, t);
      OnlyForTransitive(s, u, t, NoteDoc(id));
      forall product
        ensures Shelved(t, product)
          == Shelved(s, product) - Total(note.lines, DispatchedOf(product)) + Total(note.lines[..i], DispatchedOf(product))
      {
        assert note.lines[..i + 1] == note.lines[..i] + [ln];
        TotalAppend(note.lines[..i], ln, DispatchedOf(product));
        if ln.isPart {
          ShelvedWrite(s, GoodsIssue, Key(ln.item, note.from), -ln.dispatched, OnNote(id), product);
        }
      }
    }
  }

  /** Dispatch moves goods from the shelves into transit, product by product, and loses none. */
  lemma DispatchConserves(s: Stock, places: Places, id: nat, note: Note, t: Stock, placed: Places, after: Note)
    requires StockSound(s) && LinesSound(note)
    requires DispatchNote(s, places, id, note) == Ok((t, placed, after))
    ensures StockSound(t)
    ensures OnlyFor(s, t, NoteDoc(id))
    ensures LinesSound(after)
    ensures forall product :: Shelved(t, product) + OffShelf(after, product) == Shelved(s, product) + OffShelf(note, product)
  {
    IssuePartsSound(s, id, note, 0, t);
  }

  ghost predicate SameLine(before: Line, after: Line) {
    after.isPart == before.isPart && after.item == before.item && after.dispatched == before.dispatched
  }

  lemma ReceiveLineSound(st: State, id: nat, note: Note, i: nat, part: Option<PartReport>, confirmed: bool, next: State)
    requires StockSound(st.stock) && i < |st.lines| && LineInBounds(st.lines[i])
    requires ReceiveLine(st, id, note, i, part, confirmed) == Ok(next)
    ensures StockSound(next.stock)
    ensures OnlyFor(st.stock, next.stock, NoteDoc(id))
    ensures next.lines == st.lines[i := next.lines[i]]
    ensures SameLine(st.lines[i], next.lines[i])
    ensures LineInBounds(next.lines[i]) && Reconciles(next.lines[i])
    ensures forall product :: Shelved(next.stock, product) == Shelved(st.stock, product) + ReceivedOf(product)(next.lines[i])
  {
    var ln := st.lines[i];
    if ln.isPart {
      var after := Figures(ln, part);
      FiguresReconcile(ln, part);
      var key := Key(ln.item, note.to);
      if after.received > 0 {
        ReceiveSound(st.stock, key, after.received, OnNote(id), next.stock);
        EffectOnlyFor(st.stock, next.stock, key, after.received, OnNote(id), None, 0, NoteDoc(id));
        forall product
          ensures Shelved(next.stock, product) == Shelved(st.stock, product) + ReceivedOf(product)(next.lines[i])
        {
          ShelvedWrite(st.stock, Receipt, key, after.received, OnNote(id), product);
        }
      }
    }
  }

  lemma {:induction false} ReceiveFromSound(st: State, id: nat, note: Note, i: nat, parts: map<nat, PartReport>, bikes: map<nat, bool>, done: State)
    requires StockSound(st.stock) && i <= |st.lines|
    requires forall j :: 0 <= j < |st.lines| ==> LineInBounds(st.lines[j])
    requires ReceiveFrom(st, id, note, i, parts, bikes) == Ok(done)
    ensures StockSound(done.stock)
    ensures OnlyFor(st.stock, done.stock, NoteDoc(id))
    ensures |done.lines| == |st.lines|
    ensures forall j :: 0 <= j < i ==> done.lines[j] == st.lines[j]
    ensures forall j :: i <= j < |st.lines| ==>
              SameLine(st.lines[j], done.lines[j]) && LineInBounds(done.lines[j]) && Reconciles(done.lines[j])
    ensures forall product :: Shelved(done.stock, product) - Shelved(st.stock, product)
              == Total(done.lines, ReceivedOf(product)) - Total(done.lines[..i], ReceivedOf(product))
    decreases |st.lines| - i
  {
    if i == |st.lines| {
      assert done.lines[..i] == done.lines;
    } else {
      var next := ReceiveLine(st, id, note, i, Report(parts, i), Arrived(bikes, i)).value;
      ReceiveLineSound(st, id, note, i, Report(parts, i), Arrived(bikes, i), next);
      ReceiveFromSound(next, id, note, i + 1, parts, bikes, done);
      OnlyForTransitive(st.stock, next.stock, done.stock, NoteDoc(id));
      forall product
        ensures Shelved(done.stock, product) - Shelved(st.stock, product)
          == Total(done.lines, ReceivedOf(product)) - Total(done.lines[..i], ReceivedOf(product))
      {
        assert done.lines[..i + 1] == done.lines[..i] + [done.lines[i]];
        TotalAppend(done.lines[..i], done.lines[i], ReceivedOf(product));
      }
    }
  }

  /** A product's recorded figures add up to what was dispatched of it. */
  lemma ReconciledTotals(lines: seq<Line>, product: nat)
    requires forall i :: 0 <= i < |lines| ==> Reconciles(lines[i])
    ensures Total(lines, DispatchedOf(product)) == Total(lines, ReceivedOf(product)) + Total(lines, LostOf(product))
  {
    TotalAdd(lines, ReceivedOf(product), LostOf(product), DispatchedOf(product));
  }

  lemma {:induction false} SameDispatched(before: seq<Line>, after: seq<Line>, product: nat)
    requires |before| == |after| && forall i :: 0 <= i < |before| ==> SameLine(before[i], after[i])
    ensures Total(before, DispatchedOf(product)) == Total(after, DispatchedOf(product))
  {
    if |before| > 0 {
      SameDispatched(before[..|before| - 1], after[..|after| - 1], product);
    }
  }

  /** What a receipt creates out of nothing, exactly: the quantity an earlier receipt had recorded. */
  lemma ReceiveExcess(s: Stock, places: Places, id: nat, note: Note, parts: map<nat, PartReport>, bikes: map<nat, bool>,
                      t: Stock, placed: Places, after: Note)
    requires StockSound(s) && LinesSound(note)
    requires ReceiveNote(s, places, id, note, parts, bikes) == Ok((t, placed, after))
    ensures StockSound(t)
    ensures OnlyFor(s, t, NoteDoc(id))
    ensures LinesSound(after)
    ensures HasReceipt(after.status)
    ensures forall product :: Shelved(t, product) + OffShelf(after, product)
              == Shelved(s, product) + OffShelf(note, product) + Total(note.lines, ReceivedOf(product))
  {
    assert forall j :: 0 <= j < |note.lines| ==> LineSound(note.status, note.lines[j]);
    var done := ReceiveFrom(State(s, places, note.lines), id, note, 0, parts, bikes).value;
    ReceiveFromSound(State(s, places, note.lines), id, note, 0, parts, bikes, done);
    forall j | 0 <= j < |after.lines| ensures LineSound(after.status, after.lines[j]) {
      assert SameLine(note.lines[j], done.lines[j]);
    }
    forall product
      ensures Shelved(t, product) + OffShelf(after, product)
        == Shelved(s, product) + OffShelf(note, product) + Total(note.lines, ReceivedOf(product))
    {
      SameDispatched(note.lines, after.lines, product);
      ReconciledTotals(after.lines, product);
      if note.status.InTransit? {
        TotalZero(note.lines, ReceivedOf(product));
      } else {
        ReconciledTotals(note.lines, product);
      }
    }
  }

  /** Nothing of any product is created or lost. */
  ghost predicate Conserves(s: Stock, note: Note, t: Stock, after: Note) {
    forall product :: Shelved(t, product) + OffShelf(after, product) == Shelved(s, product) + OffShelf(note, product)
  }

  /** No part line has a received quantity on record: what a caller can check before receiving. */
  predicate NothingReceivedYet(note: Note) {
    forall i :: 0 <= i < |note.lines| && note.lines[i].isPart ==> note.lines[i].received == 0
  }

  /**
   Receiving conserves goods exactly when no part line has a received quantity on record. The first
   receipt always does; a second receipt of a partially received note puts on the shelf again what the
   first one already had.
   */
  lemma ReceiveConservesIff(s: Stock, places: Places, id: nat, note: Note, parts: map<nat, PartReport>, bikes: map<nat, bool>,
                            t: Stock, placed: Places, after: Note)
    requires StockSound(s) && LinesSound(note)
    requires ReceiveNote(s, places, id, note, parts, bikes) == Ok((t, placed, after))
    ensures Conserves(s, note, t, after) <==> NothingReceivedYet(note)
    ensures note.status.InTransit? ==> NothingReceivedYet(note)
  {
    ReceiveExcess(s, places, id, note, parts, bikes, t, placed, after);
    assert forall j :: 0 <= j < |note.lines| ==> LineSound(note.status, note.lines[j]);
    if NothingReceivedYet(note) {
      forall product ensures Total(note.lines, ReceivedOf(product)) == 0 {
        TotalZero(note.lines, ReceivedOf(product));
      }
    } else {
      var i :| 0 <= i < |note.lines| && note.lines[i].isPart && note.lines[i].received != 0;
      var product := note.lines[i].item;
      TotalNonNegative(note.lines, ReceivedOf(product));
      assert ReceivedOf(product)(note.lines[i]) > 0;
      assert Shelved(t, product) + OffShelf(after, product) > Shelved(s, product) + OffShelf(note, product);
    }
  }

  /** Ten dispatched, six received, four missing: receiving the note again shelves ten more. */
  lemma SecondReceiptDuplicates(s: Stock, places: Places, note: Note)
    requires StockSound(s) && 7 in s.products && 2 in s.warehouses
    requires note == Note(PartiallyReceived, 1, 2, [Line(true, 7, 10, 6, 4, 0)])
    ensures ReceiveNote(s, places, 0, note, map[], map[]).Ok?
    ensures var (t, _, after) := ReceiveNote(s, places, 0, note, map[], map[]).value;
            && OnHand(t, Key(7, 2)) == OnHand(s, Key(7, 2)) + 10
            && after.status.Received? && !Conserves(s, note, t, after)
  {
    var st := State(s, places, note.lines);
    var key := Key(7, 2);
    var t := Receive(s, key, 10, OnNote(0)).value;
    var next := State(t, places, [Line(true, 7, 10, 10, 0, 0)]);
    assert st.lines[0 := Line(true, 7, 10, 10, 0, 0)] == next.lines;
    assert ReceiveLine(st, 0, note, 0, None, true) == Ok(next);
    assert ReceiveFrom(next, 0, note, 1, map[], map[]) == Ok(next);
    assert ReceiveFrom(st, 0, note, 0, map[], map[]) == Ok(next);
    ReceiveSound(s, key, 10, OnNote(0), t);
    var after := note.(lines := next.lines, status := ReceiveOutcome(next.lines));
    assert LinesSound(note);
    assert note.lines[0].isPart && note.lines[0].received != 0;
    ReceiveConservesIff(s, places, 0, note, map[], map[], t, places, after);
  }

  // ---------------------------------------------------------------- which shelves

  lemma WriteShelf(s: Stock, kind: Kind, at: Key, quantity: int, source: Source, key: Key)
    ensures OnHand(Write(s, kind, at, quantity, source), key) == OnHand(s, key) + if key == at then quantity else 0
  {
  }

  lemma {:induction false} IssuePartsShelves(s: Stock, id: nat, note: Note, i: nat, t: Stock, key: Key)
    requires i <= |note.lines| && IssueParts(s, id, note, i) == Ok(t)
    ensures OnHand(t, key)
            == OnHand(s, key) - if key.warehouse == note.from then Total(note.lines[i..], DispatchedOf(key.product)) else 0
    decreases |note.lines| - i
  {
    if i < |note.lines| {
      var ln, at := note.lines[i], Key(note.lines[i].item, note.from);
      var u := if ln.isPart then IssueGoods(s, at, ln.dispatched, OnNote(id)).value else s;
      if ln.isPart { WriteShelf(s, GoodsIssue, at, -ln.dispatched, OnNote(id), key); }
      IssuePartsShelves(u, id, note, i + 1, t, key);
      TotalFirst(note.lines[i..], DispatchedOf(key.product));
      assert note.lines[i..][1..] == note.lines[i + 1..];
    }
  }

  /** A dispatch takes exactly the note's parts off the source's shelves, and touches no other row. */
  lemma DispatchShelves(s: Stock, places: Places, id: nat, note: Note, key: Key)
    requires DispatchNote(s, places, id, note).Ok?
    ensures var (t, _, after) := DispatchNote(s, places, id, note).value;
            && OnHand(t, key)
               == OnHand(s, key) - (if key.warehouse == note.from then Total(note.lines, DispatchedOf(key.product)) else 0)
            && after.from == note.from && after.to == note.to && after.lines == note.lines
  {
    var (t, _, _) := DispatchNote(s, places, id, note).value;
    IssuePartsShelves(s, id, note, 0, t, key);
    assert note.lines[0..] == note.lines;
  }

  lemma {:induction false} ReceiveFromShelves(st: State, id: nat, note: Note, i: nat, parts: map<nat, PartReport>,
                                              bikes: map<nat, bool>, done: State, key: Key)
    requires i <= |st.lines| && ReceiveFrom(st, id, note, i, parts, bikes) == Ok(done)
    ensures |done.lines| == |st.lines| && done.lines[..i] == st.lines[..i]
    ensures OnHand(done.stock, key)
            == OnHand(st.stock, key) + if key.warehouse == note.to then Total(done.lines[i..], ReceivedPart(key.product)) else 0
    decreases |st.lines| - i
  {
    if i < |st.lines| {
      var ln := st.lines[i];
      var next := ReceiveLine(st, id, note, i, Report(parts, i), Arrived(bikes, i)).value;
      ReceiveFromShelves(next, id, note, i + 1, parts, bikes, done, key);
      assert done.lines[i] == done.lines[..i + 1][i] == next.lines[i];
      assert done.lines[..i] == done.lines[..i + 1][..i] == next.lines[..i];
      if ln.isPart && next.lines[i].received > 0 {
        WriteShelf(st.stock, Receipt, Key(ln.item, note.to), next.lines[i].received, OnNote(id), key);
      }
      TotalFirst(done.lines[i..], ReceivedPart(key.product));
      assert done.lines[i..][1..] == done.lines[i + 1..];
    }
  }

  /** What a line puts on the shelf: a figure of zero or less shelves nothing. */
  function ReceivedPart(product: nat): Line -> int {
    (ln: Line) => if ln.isPart && ln.item == product then Max(0, ln.received) else 0
  }

  /** A receipt puts exactly the recorded quantities on the destination's shelves, and touches no other row. */
  lemma ReceiveShelves(s: Stock, places: Places, id: nat, note: Note, parts: map<nat, PartReport>, bikes: map<nat, bool>, key: Key)
    requires StockSound(s) && LinesSound(note) && ReceiveNote(s, places, id, note, parts, bikes).Ok?
    ensures var (t, _, after) := ReceiveNote(s, places, id, note, parts, bikes).value;
            && OnHand(t, key)
               == OnHand(s, key) + (if key.warehouse == note.to then Total(after.lines, ReceivedOf(key.product)) else 0)
            && after.from == note.from && after.to == note.to
  {
    var (t, placed, after) := ReceiveNote(s, places, id, note, parts, bikes).value;
    var st := State(s, places, note.lines);
    ReceiveFromShelves(st, id, note, 0, parts, bikes, ReceiveFrom(st, id, note, 0, parts, bikes).value, key);
    assert after.lines[0..] == after.lines;
    ReceiveExcess(s, places, id, note, parts, bikes, t, placed, after);
    forall i | 0 <= i < |after.lines|
      ensures ReceivedPart(key.product)(after.lines[i]) == ReceivedOf(key.product)(after.lines[i])
    {
      assert LineSound(after.status, after.lines[i]);
    }
    TotalCongruent(after.lines, ReceivedPart(key.product), ReceivedOf(key.product));
  }

  // ---------------------------------------------------------------- what is recorded

  /** What the note says about a line after a receipt. */
  ghost predicate RecordedAs(before: Line, after: Line, part: Option<PartReport>, arrived: bool) {
    && SameLine(before, after)
    && (before.isPart ==>
          && after.received + after.damaged + after.missing == before.dispatched
          && match part
             case None => after.received == before.dispatched && after.damaged == 0
             case Some(report) =>
               Nearest(report.received, before.dispatched, after.received)
               && Nearest(report.damaged, before.dispatched - after.received, after.damaged))
    && (!before.isPart ==>
          && after.damaged == before.damaged
          && if arrived then after.received == 1 && after.missing == 0 else after.received == 0 && after.missing == 1)
  }

  lemma {:induction false} ReceiveFromRecords(st: State, id: nat, note: Note, i: nat, parts: map<nat, PartReport>,
                                              bikes: map<nat, bool>, done: State)
    requires i <= |st.lines| && ReceiveFrom(st, id, note, i, parts, bikes) == Ok(done)
    requires forall j :: 0 <= j < |st.lines| ==> LineInBounds(st.lines[j])
    ensures |done.lines| == |st.lines|
    ensures forall j :: 0 <= j < i ==> done.lines[j] == st.lines[j]
    ensures forall j :: i <= j < |st.lines| ==> RecordedAs(st.lines[j], done.lines[j], Report(parts, j), Arrived(bikes, j))
    decreases |st.lines| - i
  {
    if i < |st.lines| {
      var next := ReceiveLine(st, id, note, i, Report(parts, i), Arrived(bikes, i)).value;
      ReceiveFromRecords(next, id, note, i + 1, parts, bikes, done);
    }
  }

  /** What a receipt does to the record: each line as reported, and received in full exactly when every line is. */
  ghost predicate ReceivedAs(note: Note, after: Note, parts: map<nat, PartReport>, bikes: map<nat, bool>) {
    && |after.lines| == |note.lines|
    && (forall j :: 0 <= j < |note.lines| ==> RecordedAs(note.lines[j], after.lines[j], Report(parts, j), Arrived(bikes, j)))
    && (after.status.Received? <==> forall j :: 0 <= j < |after.lines| ==> after.lines[j].received == after.lines[j].dispatched)
    && (!after.status.Received? ==> after.status.PartiallyReceived?)
  }

  /** Each line records its report, clamped; the note is received in full exactly when every line is. */
  lemma ReceiveRecords(s: Stock, places: Places, id: nat, note: Note, parts: map<nat, PartReport>, bikes: map<nat, bool>)
    requires LinesSound(note) && ReceiveNote(s, places, id, note, parts, bikes).Ok?
    ensures var (_, _, after) := ReceiveNote(s, places, id, note, parts, bikes).value;
            ReceivedAs(note, after, parts, bikes)
  {
    var (_, _, after) := ReceiveNote(s, places, id, note, parts, bikes).value;
    forall j | 0 <= j < |note.lines| ensures LineInBounds(note.lines[j]) { assert LineSound(note.status, note.lines[j]); }
    var st := State(s, places, note.lines);
    ReceiveFromRecords(st, id, note, 0, parts, bikes, ReceiveFrom(st, id, note, 0, parts, bikes).value);
    forall j | 0 <= j < |note.lines|
      ensures after.lines[j].received == after.lines[j].dispatched ==> after.lines[j].missing == 0 && after.lines[j].damaged == 0
    {
      assert RecordedAs(note.lines[j], after.lines[j], Report(parts, j), Arrived(bikes, j));
      assert LineInBounds(note.lines[j]);
    }
  }

  // ---------------------------------------------------------------- what is accepted

  /** The note's parts and its source are known. */
  predicate PartsKnown(s: Stock, note: Note, warehouse: nat, i: nat) {
    forall j :: i <= j < |note.lines| && note.lines[j].isPart ==> warehouse in s.warehouses && note.lines[j].item in s.products
  }

  function DispatchedFrom(note: Note, i: nat, key: Key): int
    requires i <= |note.lines|
  {
    if key.warehouse == note.from then Total(note.lines[i..], DispatchedOf(key.product)) else 0
  }

  lemma DispatchedNext(note: Note, i: nat, key: Key)
    requires i < |note.lines| && forall j :: 0 <= j < |note.lines| ==> LineInBounds(note.lines[j])
    ensures DispatchedFrom(note, i, key)
            == DispatchedFrom(note, i + 1, key) + if key.warehouse == note.from then DispatchedOf(key.product)(note.lines[i]) else 0
    ensures DispatchedFrom(note, i + 1, key) >= 0
  {
    TotalFirst(note.lines[i..], DispatchedOf(key.product));
    assert note.lines[i..][1..] == note.lines[i + 1..];
    TotalNonNegative(note.lines[i + 1..], DispatchedOf(key.product));
  }

  lemma {:induction false} IssuePartsAccepted(s: Stock, id: nat, note: Note, i: nat)
    requires StockSound(s) && i <= |note.lines|
    requires forall j :: 0 <= j < |note.lines| ==> LineInBounds(note.lines[j])
    ensures IssueParts(s, id, note, i).Ok? <==>
              PartsKnown(s, note, note.from, i) && forall key :: DispatchedFrom(note, i, key) <= Available(s, key)
    decreases |note.lines| - i
  {
    if i == |note.lines| {
      forall key ensures Available(s, key) >= 0 { assert RowSound(s, key); }
    } else {
      var n, ln, at := i + 1, note.lines[i], Key(note.lines[i].item, note.from);
      forall key
        ensures DispatchedFrom(note, i, key)
                == DispatchedFrom(note, n, key) + if key.warehouse == note.from then DispatchedOf(key.product)(ln) else 0
        ensures DispatchedFrom(note, n, key) >= 0
      {
        DispatchedNext(note, i, key);
      }
      if !ln.isPart {
        IssuePartsAccepted(s, id, note, n);
      } else {
        var r := IssueGoods(s, at, ln.dispatched, OnNote(id));
        if r.Ok? {
          IssueSound(s, at, ln.dispatched, OnNote(id), r.value);
          IssuePartsAccepted(r.value, id, note, n);
          assert PartsKnown(r.value, note, note.from, n) <==> PartsKnown(s, note, note.from, i);
          assert forall key :: Available(r.value, key) == Available(s, key) - if key == at then ln.dispatched else 0;
        } else {
          assert !PartsKnown(s, note, note.from, i) || DispatchedFrom(note, i, at) > Available(s, at);
        }
      }
    }
  }

  /** A draft can be dispatched: its source and its parts are known, and the source has all of them free. */
  ghost predicate Dispatchable(s: Stock, note: Note) {
    && note.status.Draft? && PartsKnown(s, note, note.from, 0)
    && forall product :: Total(note.lines, DispatchedOf(product)) <= Available(s, Key(product, note.from))
  }

  /** A note is dispatched exactly when it can be. */
  lemma DispatchAcceptedIff(s: Stock, places: Places, id: nat, note: Note)
    requires StockSound(s) && LinesSound(note)
    ensures DispatchNote(s, places, id, note).Ok? <==> Dispatchable(s, note)
  {
    forall j | 0 <= j < |note.lines| ensures LineInBounds(note.lines[j]) { assert LineSound(note.status, note.lines[j]); }
    IssuePartsAccepted(s, id, note, 0);
    assert note.lines[0..] == note.lines;
    forall key ensures Available(s, key) >= 0 { assert RowSound(s, key); }
    if forall key :: DispatchedFrom(note, 0, key) <= Available(s, key) {
      forall product ensures Total(note.lines, DispatchedOf(product)) <= Available(s, Key(product, note.from)) {
        assert DispatchedFrom(note, 0, Key(product, note.from)) <= Available(s, Key(product, note.from));
      }
    }
  }

  lemma {:induction false} ReceiveFromAccepted(st: State, id: nat, note: Note, i: nat, parts: map<nat, PartReport>, bikes: map<nat, bool>)
    requires i <= |st.lines| == |note.lines|
    requires forall j :: 0 <= j < |st.lines| ==> SameLine(note.lines[j], st.lines[j])
    requires PartsKnown(st.stock, note, note.to, i)
    ensures ReceiveFrom(st, id, note, i, parts, bikes).Ok?
    decreases |st.lines| - i
  {
    if i < |st.lines| {
      assert SameLine(note.lines[i], st.lines[i]);
      var r := ReceiveLine(st, id, note, i, Report(parts, i), Arrived(bikes, i));
      assert r.Ok?;
      ReceiveFromAccepted(r.value, id, note, i + 1, parts, bikes);
    }
  }

  /** With its parts and its destination still known, a note in transit or partly received can always be received. */
  lemma ReceiveAccepted(s: Stock, places: Places, id: nat, note: Note, parts: map<nat, PartReport>, bikes: map<nat, bool>)
    requires PartsKnown(s, note, note.to, 0)
    ensures ReceiveNote(s, places, id, note, parts, bikes).Ok? <==> Receivable(note.status)
  {
    ReceiveFromAccepted(State(s, places, note.lines), id, note, 0, parts, bikes);
  }

  /** A motorcycle may go on a new note. */
  predicate BikeFree(notes: seq<Note>, places: Places, sold: set<nat>, from: nat, unit: nat) {
    unit in places && unit !in sold && places[unit] in {None, Some(from)} && !UnitOnOpenNote(notes, unit)
  }

  lemma {:induction false} CheckBikesIff(notes: seq<Note>, places: Places, sold: set<nat>, from: nat, units: seq<nat>, i: nat)
    requires i <= |units|
    ensures CheckBikes(notes, places, sold, from, units, i).None? <==>
              forall k :: i <= k < |units| ==> BikeFree(notes, places, sold, from, units[k]) && units[k] !in units[..k]
    decreases |units| - i
  {
    if i < |units| {
      CheckBikesIff(notes, places, sold, from, units, i + 1);
    }
  }

  ghost predicate Creatable(s: Stock, notes: seq<Note>, places: Places, sold: set<nat>, from: nat, to: nat,
                            parts: seq<(nat, int)>, units: seq<nat>) {
    && from != to && from in s.warehouses && to in s.warehouses
    && (forall i :: 0 <= i < |parts| ==> parts[i].0 in s.products)
    && (forall k :: 0 <= k < |units| ==> BikeFree(notes, places, sold, from, units[k]) && units[k] !in units[..k])
  }

  /** A draft that lists exactly what was asked for, in that order, with nothing received yet. */
  ghost predicate ListsRequest(note: Note, from: nat, to: nat, parts: seq<(nat, int)>, units: seq<nat>) {
    && note.status.Draft? && note.from == from && note.to == to && |note.lines| == |parts| + |units|
    && (forall i :: 0 <= i < |parts| ==> note.lines[i] == Line(true, parts[i].0, parts[i].1, 0, 0, 0))
    && (forall i :: 0 <= i < |units| ==> note.lines[|parts| + i] == Line(false, units[i], 1, 0, 0, 0))
  }

  /**
   A note is created exactly when its two warehouses are known and differ, its parts are known, and its
   motorcycles are listed once, unsold, at the source or unplaced, and on no open note; it lists exactly
   what was asked for, in that order, with nothing received yet.
   */
  lemma CreateIff(s: Stock, notes: seq<Note>, places: Places, sold: set<nat>, from: nat, to: nat,
                  parts: seq<(nat, int)>, units: seq<nat>)
    ensures Create(s, notes, places, sold, from, to, parts, units).Ok? <==>
              Creatable(s, notes, places, sold, from, to, parts, units)
    ensures Create(s, notes, places, sold, from, to, parts, units).Ok? ==>
              ListsRequest(Create(s, notes, places, sold, from, to, parts, units).value, from, to, parts, units)
  {
    CheckBikesIff(notes, places, sold, from, units, 0);
  }

  // ---------------------------------------------------------------- goods moved by anything else

  function NoteGoods(product: nat): Move -> int {
    (m: Move) => if m.key.product == product && MovesGoods(m.kind) && m.source.OnNote? then m.quantity else 0
  }

  function OtherGoods(product: nat): Move -> int {
    (m: Move) => if m.key.product == product && MovesGoods(m.kind) && !m.source.OnNote? then m.quantity else 0
  }

  /** The net goods of a product that everything but dispatch notes has put on the shelves. */
  function Elsewhere(s: Stock, product: nat): int { Total(s.moves, OtherGoods(product)) }

  lemma ElsewhereWrite(s: Stock, kind: Kind, key: Key, quantity: int, note: nat, product: nat)
    ensures Elsewhere(Write(s, kind, key, quantity, OnNote(note)), product) == Elsewhere(s, product)
  {
    TotalAppend(s.moves, Move(kind, key, quantity, OnNote(note)), OtherGoods(product));
  }

  lemma {:induction false} IssuePartsElsewhere(s: Stock, id: nat, note: Note, i: nat, t: Stock, product: nat)
    requires i <= |note.lines| && IssueParts(s, id, note, i) == Ok(t)
    ensures Elsewhere(t, product) == Elsewhere(s, product)
    decreases |note.lines| - i
  {
    if i < |note.lines| {
      var ln := note.lines[i];
      var u := if ln.isPart then IssueGoods(s, Key(ln.item, note.from), ln.dispatched, OnNote(id)).value else s;
      if ln.isPart {
        ElsewhereWrite(s, GoodsIssue, Key(ln.item, note.from), -ln.dispatched, id, product);
      }
      IssuePartsElsewhere(u, id, note, i + 1, t, product);
    }
  }

  lemma {:induction false} ReceiveFromElsewhere(st: State, id: nat, note: Note, i: nat, parts: map<nat, PartReport>,
                                                bikes: map<nat, bool>, done: State, product: nat)
    requires i <= |st.lines| && ReceiveFrom(st, id, note, i, parts, bikes) == Ok(done)
    ensures Elsewhere(done.stock, product) == Elsewhere(st.stock, product)
    decreases |st.lines| - i
  {
    if i < |st.lines| {
      var next := ReceiveLine(st, id, note, i, Report(parts, i), Arrived(bikes, i)).value;
      var ln := st.lines[i];
      if ln.isPart {
        var after := Figures(ln, Report(parts, i));
        ElsewhereWrite(st.stock, Receipt, Key(ln.item, note.to), after.received, id, product);
      }
      ReceiveFromElsewhere(next, id, note, i + 1, parts, bikes, done, product);
    }
  }

  // ---------------------------------------------------------------- motorcycles on notes

  /**
   Where an open note's motorcycle is: at the source (or unplaced) while the note is a draft, nowhere
   while it is in transit, and after a receipt at the destination, or back at the source if missing.
   */
  predicate PlacedFor(note: Note, ln: Line, place: Option<nat>) {
    match note.status
    case Draft => place.None? || place == Some(note.from)
    case InTransit => place.None?
    case PartiallyReceived => place == Some(if ln.missing == 1 then note.from else note.to)
    case _ => true
  }

  /** One motorcycle line is where its note says, and no other open line carries the unit. */
  predicate BikeSound(notes: seq<Note>, places: Places, n: nat, i: nat) {
    n < |notes| && i < |notes[n].lines| && !notes[n].lines[i].isPart && OpenNote(notes[n].status) ==>
      var unit := notes[n].lines[i].item;
      unit in places && PlacedFor(notes[n], notes[n].lines[i], places[unit])
  }

  predicate Apart(notes: seq<Note>, n: nat, i: nat, m: nat, j: nat) {
    n < |notes| && m < |notes| && OpenNote(notes[n].status) && OpenNote(notes[m].status) && (n, i) != (m, j)
    && i < |notes[n].lines| && !notes[n].lines[i].isPart ==>
      !Carries(notes[m], j, notes[n].lines[i].item)
  }

  ghost predicate BikesSound(notes: seq<Note>, places: Places) {
    && (forall n: nat, i: nat :: BikeSound(notes, places, n, i))
    && (forall n: nat, i: nat, m: nat, j: nat :: Apart(notes, n, i, m, j))
  }

  lemma {:induction false} CheckedBikes(notes: seq<Note>, places: Places, sold: set<nat>, from: nat, units: seq<nat>, i: nat)
    requires i <= |units| && CheckBikes(notes, places, sold, from, units, i).None?
    ensures forall k :: i <= k < |units| ==>
              && units[k] in places && units[k] !in units[..k]
              && (places[units[k]].None? || places[units[k]] == Some(from))
              && !UnitOnOpenNote(notes, units[k])
    ensures forall a, k :: 0 <= a < k && i <= k < |units| ==> units[a] != units[k]
    decreases |units| - i
  {
    if i < |units| {
      CheckedBikes(notes, places, sold, from, units, i + 1);
      assert forall a :: 0 <= a < i ==> units[a] in units[..i];
    }
  }

  lemma CreateSound(s: Stock, notes: seq<Note>, places: Places, sold: set<nat>, from: nat, to: nat,
                    parts: seq<(nat, int)>, units: seq<nat>, note: Note)
    requires BikesSound(notes, places)
    requires forall i :: 0 <= i < |parts| ==> parts[i].1 > 0
    requires Create(s, notes, places, sold, from, to, parts, units) == Ok(note)
    ensures LinesSound(note) && BikesSound(notes + [note], places)
    ensures forall product :: OffShelf(note, product) == 0
  {
    CheckedBikes(notes, places, sold, from, units, 0);
    var after := notes + [note];
    var p := |parts|;
    assert forall i :: p <= i < |note.lines| ==> note.lines[i] == Line(false, units[i - p], 1, 0, 0, 0);
    assert forall i :: 0 <= i < p ==> note.lines[i] == Line(true, parts[i].0, parts[i].1, 0, 0, 0);
    forall n: nat, i: nat ensures BikeSound(after, places, n, i) {
      assert BikeSound(notes, places, n, i);
    }
    forall n: nat, i: nat, m: nat, j: nat ensures Apart(after, n, i, m, j) {
      assert Apart(notes, n, i, m, j);
      if n < |notes| && m == |notes| && p <= j < |note.lines| && OpenNote(notes[n].status) {
        NotOnOpenNote(notes, units[j - p], n, i);
      }
      if n == |notes| && m < |notes| && p <= i < |note.lines| && OpenNote(notes[m].status) {
        NotOnOpenNote(notes, units[i - p], m, j);
      }
    }
  }

  lemma NotOnOpenNote(notes: seq<Note>, unit: nat, n: nat, i: nat)
    requires !UnitOnOpenNote(notes, unit) && n < |notes| && OpenNote(notes[n].status)
    ensures !Carries(notes[n], i, unit)
  {
  }

  lemma {:induction false} DepartMeaning(places: Places, lines: seq<Line>, unit: nat)
    ensures (exists i :: 0 <= i < |lines| && !lines[i].isPart && lines[i].item == unit) ==>
              unit in Depart(places, lines) && Depart(places, lines)[unit] == None
    ensures (forall i :: 0 <= i < |lines| && !lines[i].isPart ==> lines[i].item != unit) ==>
              (unit in Depart(places, lines) <==> unit in places)
              && (unit in places ==> Depart(places, lines)[unit] == places[unit])
  {
    if |lines| > 0 {
      DepartMeaning(places, lines[..|lines| - 1], unit);
      if exists i :: 0 <= i < |lines| && !lines[i].isPart && lines[i].item == unit {
        var i :| 0 <= i < |lines| && !lines[i].isPart && lines[i].item == unit;
        if i < |lines| - 1 { assert lines[..|lines| - 1][i] == lines[i]; }
      }
    }
  }

  /** The note changed, its motorcycles are where it now says, and no other note's moved. */
  lemma NoteStepBikes(notes: seq<Note>, places: Places, n: nat, after: Note, now: seq<Note>, placed: Places)
    requires BikesSound(notes, places) && n < |notes| && now == notes[n := after]
    requires OpenNote(notes[n].status)
    requires |after.lines| == |notes[n].lines|
    requires forall i :: 0 <= i < |after.lines| ==> SameLine(notes[n].lines[i], after.lines[i])
    requires forall i: nat :: BikeSound(now, placed, n, i)
    requires forall unit :: (forall i: nat :: !Carries(after, i, unit)) ==>
               (unit in placed <==> unit in places) && (unit in places ==> placed[unit] == places[unit])
    ensures BikesSound(now, placed)
  {
    forall m: nat, i: nat ensures BikeSound(now, placed, m, i) {
      assert BikeSound(notes, places, m, i);
      if m != n && m < |now| && i < |now[m].lines| && !now[m].lines[i].isPart && OpenNote(now[m].status) {
        var unit := now[m].lines[i].item;
        forall k: nat ensures !Carries(after, k, unit) {
          assert Apart(notes, m, i, n, k);
          assert k < |after.lines| ==> SameLine(notes[n].lines[k], after.lines[k]);
        }
      }
    }
    forall a: nat, i: nat, b: nat, j: nat ensures Apart(now, a, i, b, j) {
      assert Apart(notes, a, i, b, j);
      assert a == n && i < |after.lines| ==> SameLine(notes[n].lines[i], after.lines[i]);
      assert b == n && j < |after.lines| ==> SameLine(notes[n].lines[j], after.lines[j]);
    }
  }

  lemma DispatchBikes(s: Stock, notes: seq<Note>, places: Places, n: nat, t: Stock, placed: Places, after: Note)
    requires BikesSound(notes, places) && n < |notes|
    requires DispatchNote(s, places, n, notes[n]) == Ok((t, placed, after))
    ensures BikesSound(notes[n := after], placed)
    ensures forall i :: 0 <= i < |after.lines| && !after.lines[i].isPart ==>
              after.lines[i].item in placed && placed[after.lines[i].item] == None
  {
    forall unit {
      DepartMeaning(places, notes[n].lines, unit);
    }
    forall unit | forall i: nat :: !Carries(after, i, unit)
      ensures (unit in placed <==> unit in places)
      ensures (unit in places ==> placed[unit] == places[unit])
    {
      forall i | 0 <= i < |after.lines| && !after.lines[i].isPart ensures after.lines[i].item != unit {
        assert !Carries(after, i, unit);
      }
    }
    var now := notes[n := after];
    forall i: nat ensures BikeSound(now, placed, n, i) {
    }
    NoteStepBikes(notes, places, n, after, now, placed);
  }

  /** A receipt places each of the note's motorcycles by its own figures, and no other unit. */
  lemma {:induction false} ReceiveFromPlaces(st: State, id: nat, note: Note, i: nat, parts: map<nat, PartReport>, bikes: map<nat, bool>, done: State)
    requires i <= |st.lines| && ReceiveFrom(st, id, note, i, parts, bikes) == Ok(done)
    requires forall a, b :: 0 <= a < b < |st.lines| && !st.lines[a].isPart && !st.lines[b].isPart ==> st.lines[a].item != st.lines[b].item
    ensures |done.lines| == |st.lines|
    ensures forall j :: 0 <= j < |st.lines| ==> SameLine(st.lines[j], done.lines[j])
    ensures forall j :: 0 <= j < i ==> done.lines[j] == st.lines[j]
    ensures forall j :: i <= j < |st.lines| && !st.lines[j].isPart ==>
              && st.lines[j].item in done.places
              && done.places[st.lines[j].item] == Some(if Arrived(bikes, j) then note.to else note.from)
              && (done.lines[j].missing == 1 <==> !Arrived(bikes, j))
              && (done.lines[j].received == 1 <==> Arrived(bikes, j))
    ensures forall unit :: (forall j :: i <= j < |st.lines| && !st.lines[j].isPart ==> st.lines[j].item != unit) ==>
              (unit in done.places <==> unit in st.places) && (unit in st.places ==> done.places[unit] == st.places[unit])
    decreases |st.lines| - i
  {
    if i < |st.lines| {
      var next := ReceiveLine(st, id, note, i, Report(parts, i), Arrived(bikes, i)).value;
      ReceiveFromPlaces(next, id, note, i + 1, parts, bikes, done);
    }
  }

  /** On receipt, every motorcycle is at the destination, or back at the source if it was reported missing. */
  lemma ReceiveBikes(s: Stock, notes: seq<Note>, places: Places, n: nat, parts: map<nat, PartReport>, bikes: map<nat, bool>,
                     t: Stock, placed: Places, after: Note)
    requires BikesSound(notes, places) && n < |notes|
    requires ReceiveNote(s, places, n, notes[n], parts, bikes) == Ok((t, placed, after))
    ensures BikesSound(notes[n := after], placed)
    ensures forall i :: 0 <= i < |after.lines| && !after.lines[i].isPart ==>
              && after.lines[i].item in placed
              && placed[after.lines[i].item] == Some(if Arrived(bikes, i) then after.to else after.from)
  {
    var note := notes[n];
    forall a, b | 0 <= a < b < |note.lines| && !note.lines[a].isPart && !note.lines[b].isPart
      ensures note.lines[a].item != note.lines[b].item
    {
      assert Apart(notes, n, a, n, b);
    }
    var st := State(s, places, note.lines);
    var done := ReceiveFrom(st, n, note, 0, parts, bikes).value;
    ReceiveFromPlaces(st, n, note, 0, parts, bikes, done);
    var now := notes[n := after];
    forall i: nat ensures BikeSound(now, placed, n, i) {
    }
    forall unit | forall i: nat :: !Carries(after, i, unit)
      ensures (unit in placed <==> unit in places)
      ensures (unit in places ==> placed[unit] == places[unit])
    {
      forall j | 0 <= j < |note.lines| && !note.lines[j].isPart ensures note.lines[j].item != unit {
        assert !Carries(after, j, unit);
        assert SameLine(note.lines[j], after.lines[j]);
      }
    }
    NoteStepBikes(notes, places, n, after, now, placed);
  }
}
