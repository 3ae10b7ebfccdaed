/**
 Repairs of motorcycles in our own stock. Opening an issue puts the unit on hold; resolving it deducts
 every repair line's part and gives the unit back the status it had before, or changes nothing.
 */
module BikeIssues {
  import opened Common
  import opened Sums
  import opened Stock

  datatype UnitStatus = Unassembled | Assembled | ReservedUnit | OnHold | Sold

  datatype Status = Open | InRepair | Resolved

  datatype Line = Line(product: nat, warehouse: nat, qty: int, consumed: bool)

  datatype Issue = Issue(status: Status, unit: nat, prior: UnitStatus, lines: seq<Line>)

  type Units = map<nat, UnitStatus>

  /** The sellable, in-stock statuses a repair may start from. */
  predicate OpenableFrom(status: UnitStatus) { status.Unassembled? || status.Assembled? }

  /** The sale-status graph. */
  predicate UnitCanMove(from: UnitStatus, to: UnitStatus) {
    match from
    case Unassembled => to.Assembled? || to.OnHold? || to.ReservedUnit? || to.Sold?
    case Assembled => to.ReservedUnit? || to.Sold? || to.OnHold?
    case ReservedUnit => to.Sold? || to.Assembled?
    case OnHold => to.Assembled? || to.Unassembled?
    case Sold => false
  }

  predicate CanTransition(from: Status, to: Status) {
    match from
    case Open => to.InRepair? || to.Resolved?
    case InRepair => to.Resolved?
    case Resolved => false
  }

  predicate Active(status: Status) { status.Open? || status.InRepair? }

  // ---------------------------------------------------------------- operations on one issue

  predicate KnownLines(s: Stock, lines: seq<Line>) {
    forall i :: 0 <= i < |lines| ==> lines[i].product in s.products && lines[i].warehouse in s.warehouses
  }

  /** Lines as built from a request: not consumed yet. */
  function Built(lines: seq<Line>): seq<Line> {
    seq(|lines|, i requires 0 <= i < |lines| => lines[i].(consumed := false))
  }

  function OpenIssue(s: Stock, units: Units, unit: nat, lines: seq<Line>): Outcome<(Units, Issue), Error> {
    if unit !in units then Err(NotFound)
    else if !OpenableFrom(units[unit]) then Err(UnitUnavailable)
    else if !KnownLines(s, lines) then Err(NotFound)
    else Ok((units[unit := OnHold], Issue(Open, unit, units[unit], Built(lines))))
  }

  function AddLine(s: Stock, issue: Issue, line: Line): Outcome<Issue, Error> {
    if !Active(issue.status) then Err(WrongStatus)
    else if !KnownLines(s, [line]) then Err(NotFound)
    else Ok(issue.(lines := issue.lines + Built([line])))
  }

  function RemoveLine(issue: Issue, j: nat): Outcome<Issue, Error> {
    if !Active(issue.status) then Err(WrongStatus)
    else if j >= |issue.lines| then Err(NotFound)
    else if issue.lines[j].consumed then Err(WrongStatus)
    else Ok(issue.(lines := issue.lines[..j] + issue.lines[j + 1..]))
  }

  function SetStatus(issue: Issue, status: Status): Outcome<Issue, Error> {
    if status.Resolved? then Err(WrongStatus)
    else if status == issue.status then Ok(issue)
    else if !CanTransition(issue.status, status) then Err(WrongStatus)
    else Ok(issue.(status := status))
  }

  function ConsumeLine(s: Stock, id: nat, ln: Line): Outcome<Stock, Error> {
    if ln.consumed then Ok(s) else IssueGoods(s, Key(ln.product, ln.warehouse), ln.qty, BikeRepair(id))
  }

  /** Deduct every line not consumed yet, from line `i` on; any shortfall fails the whole. */
  function ConsumeLines(s: Stock, id: nat, lines: seq<Line>, i: nat): Outcome<Stock, Error>
    requires i <= |lines|
    decreases |lines| - i
  {
    if i == |lines| then Ok(s)
    else
      var t :- ConsumeLine(s, id, lines[i]);
      ConsumeLines(t, id, lines, i + 1)
  }

  function AllConsumed(lines: seq<Line>): seq<Line> {
    seq(|lines|, i requires 0 <= i < |lines| => lines[i].(consumed := true))
  }

  /** Back to the status held before, if the unit is still on hold; otherwise it is left alone. */
  function ReleaseUnit(units: Units, issue: Issue): Units {
    if issue.unit !in units || !units[issue.unit].OnHold? then units
    else
      var target := if OpenableFrom(issue.prior) then issue.prior else Assembled;
      units[issue.unit := if UnitCanMove(OnHold, target) then target else Assembled]
  }

  function Resolve(s: Stock, units: Units, id: nat, issue: Issue, extra: seq<Line>): Outcome<(Stock, Units, Issue), Error> {
    if !Active(issue.status) then Err(WrongStatus)
    else if !KnownLines(s, extra) then Err(NotFound)
    else
      var lines := issue.lines + Built(extra);
      var t :- ConsumeLines(s, id, lines, 0);
      Ok((t, ReleaseUnit(units, issue), issue.(lines := AllConsumed(lines), status := Resolved)))
  }

  // ---------------------------------------------------------------- one issue against the stock

  /** What a line takes off one inventory row. */
  function TakenAt(key: Key): Line -> int {
    (ln: Line) => if Key(ln.product, ln.warehouse) == key then ln.qty else 0
  }

  /** Nothing deducted while the issue is active; exactly the sum of its lines once it is resolved. */
  predicate Agrees(s: Stock, id: nat, issue: Issue, key: Key) {
    Net(s, BikeRepair(id), key) == if issue.status.Resolved? then -Total(issue.lines, TakenAt(key)) else 0
  }

  ghost predicate LinesSound(issue: Issue) {
    forall i :: 0 <= i < |issue.lines| ==>
      issue.lines[i].qty > 0 && (issue.lines[i].consumed <==> issue.status.Resolved?)
  }

  ghost predicate Sound(s: Stock, id: nat, issue: Issue) {
    LinesSound(issue) && forall key :: Agrees(s, id, issue, key)
  }

  /** The unit of an active issue is on hold, with a prior status it can go back to. */
  predicate Holds(units: Units, issue: Issue) {
    Active(issue.status) ==> issue.unit in units && units[issue.unit].OnHold? && OpenableFrom(issue.prior)
  }

  /** No unit has two active issues, and each active issue's unit is on hold. */
  ghost predicate UnitsHeld(units: Units, issues: seq<Issue>) {
    && (forall i :: 0 <= i < |issues| ==> Holds(units, issues[i]))
    && (forall i, j :: 0 <= i < j < |issues| && Active(issues[i].status) && Active(issues[j].status) ==>
          issues[i].unit != issues[j].unit)
  }

  lemma OpenSound(s: Stock, units: Units, issues: seq<Issue>, unit: nat, lines: seq<Line>, held: Units, issue: Issue)
    requires UnitsHeld(units, issues) && OpenIssue(s, units, unit, lines) == Ok((held, issue))
    requires forall i :: 0 <= i < |lines| ==> lines[i].qty > 0
    requires forall key :: Net(s, BikeRepair(|issues|), key) == 0
    ensures UnitsHeld(held, issues + [issue])
    ensures Sound(s, |issues|, issue)
    ensures issue.prior == units[unit]
    ensures held == units[unit := OnHold]
  {
    var now := issues + [issue];
    forall i | 0 <= i < |now| ensures Holds(held, now[i]) {
      assert i < |issues| ==> Holds(units, issues[i]);
    }
    forall i, j | 0 <= i < j < |now| && Active(now[i].status) && Active(now[j].status)
      ensures now[i].unit != now[j].unit
    {
      assert Holds(units, issues[i]);
    }
  }

  /** The same part, warehouse and quantity, not consumed yet. */
  predicate AsRequested(requested: Line, line: Line) {
    && line.product == requested.product
    && line.warehouse == requested.warehouse
    && line.qty == requested.qty
    && !line.consumed
  }

  ghost predicate AllAsRequested(requested: seq<Line>, lines: seq<Line>) {
    |lines| == |requested| && forall i :: 0 <= i < |lines| ==> AsRequested(requested[i], lines[i])
  }

  /** An issue is opened exactly for a known unit that is sellable and in stock, with known parts; its lines are those requested. */
  lemma OpenIff(s: Stock, units: Units, unit: nat, lines: seq<Line>)
    ensures OpenIssue(s, units, unit, lines).Ok? <==>
              && unit in units && units[unit] in {Unassembled, Assembled}
              && forall i :: 0 <= i < |lines| ==> lines[i].product in s.products && lines[i].warehouse in s.warehouses
    ensures OpenIssue(s, units, unit, lines).Ok? ==>
              var (held, issue) := OpenIssue(s, units, unit, lines).value;
              && AllAsRequested(lines, issue.lines)
              && issue.status.Open? && issue.unit == unit && issue.prior == units[unit]
              && held == units[unit := OnHold]
  {
  }

  /** A line is added exactly on an active issue, with a known part; it comes last and the others stay. */
  lemma AddLineIff(s: Stock, issue: Issue, line: Line)
    ensures AddLine(s, issue, line).Ok? <==>
              !issue.status.Resolved? && line.product in s.products && line.warehouse in s.warehouses
    ensures AddLine(s, issue, line).Ok? ==>
              var after := AddLine(s, issue, line).value;
              && after == issue.(lines := after.lines)
              && |after.lines| == |issue.lines| + 1
              && after.lines[..|issue.lines|] == issue.lines
              && AsRequested(line, after.lines[|issue.lines|])
  {
    assert [line][0] == line;
  }

  /** An existing line not yet consumed is removed, exactly from an active issue; the others stay, in order. */
  lemma RemoveLineIff(issue: Issue, j: nat)
    ensures RemoveLine(issue, j).Ok? <==> !issue.status.Resolved? && j < |issue.lines| && !issue.lines[j].consumed
    ensures RemoveLine(issue, j).Ok? ==>
              var after := RemoveLine(issue, j).value;
              && after == issue.(lines := after.lines)
              && |after.lines| == |issue.lines| - 1
              && (forall k :: 0 <= k < j ==> after.lines[k] == issue.lines[k])
              && (forall k :: j <= k < |after.lines| ==> after.lines[k] == issue.lines[k + 1])
  {
  }

  /** The status moves from open to in repair, or stays; never back, and never to or from resolved. */
  lemma SetStatusIff(issue: Issue, status: Status)
    ensures SetStatus(issue, status).Ok? <==>
              !status.Resolved? && (status == issue.status || (issue.status.Open? && status.InRepair?))
    ensures SetStatus(issue, status).Ok? ==> SetStatus(issue, status).value == issue.(status := status)
  {
  }

  /** Editing an active issue deducts nothing and moves no unit. */
  lemma EditSound(s: Stock, units: Units, issues: seq<Issue>, n: nat, after: Issue)
    requires n < |issues| && UnitsHeld(units, issues) && Sound(s, n, issues[n]) && Active(issues[n].status)
    requires (exists line: Line :: line.qty > 0 && AddLine(s, issues[n], line) == Ok(after))
          || (exists j: nat :: RemoveLine(issues[n], j) == Ok(after))
          || (exists status: Status :: SetStatus(issues[n], status) == Ok(after))
    ensures UnitsHeld(units, issues[n := after])
    ensures Sound(s, n, after)
    ensures Active(after.status)
  {
    var issue := issues[n];
    if j: nat :| RemoveLine(issue, j) == Ok(after) {
      assert after.lines == issue.lines[..j] + issue.lines[j + 1..];
    }
    forall key ensures Agrees(s, n, after, key) {
      assert Agrees(s, n, issue, key);
    }
    assert Holds(units, issue);
  }

  /** What is drawn on a row from line `i` on. */
  function Drawn(lines: seq<Line>, i: nat, key: Key): int
    requires i <= |lines|
  {
    Total(lines[i..], TakenAt(key))
  }

  lemma DrawnNext(lines: seq<Line>, i: nat, key: Key)
    requires i < |lines| && forall j :: 0 <= j < |lines| ==> lines[j].qty > 0
    ensures Drawn(lines, i, key) == TakenAt(key)(lines[i]) + Drawn(lines, i + 1, key)
    ensures Drawn(lines, i + 1, key) >= 0
  {
    var rest := lines[i + 1..];
    assert lines[i..][1..] == rest;
    TotalFirst(lines[i..], TakenAt(key));
    TotalNonNegative(rest, TakenAt(key));
  }

  lemma ConsumeLineSound(s: Stock, id: nat, ln: Line, t: Stock)
    requires StockSound(s) && !ln.consumed && ConsumeLine(s, id, ln) == Ok(t)
    ensures StockSound(t) && OnlyFor(s, t, IssueDoc(id))
    ensures forall key :: OnHand(t, key) == OnHand(s, key) - TakenAt(key)(ln)
    ensures forall key :: Available(t, key) == Available(s, key) - TakenAt(key)(ln)
    ensures forall key :: Net(t, BikeRepair(id), key) == Net(s, BikeRepair(id), key) - TakenAt(key)(ln)
  {
    var key := Key(ln.product, ln.warehouse);
    IssueSound(s, key, ln.qty, BikeRepair(id), t);
    EffectOnlyFor(s, t, key, -ln.qty, BikeRepair(id), None, 0, IssueDoc(id));
  }

  lemma {:induction false} ConsumeLinesSound(s: Stock, id: nat, lines: seq<Line>, i: nat)
    requires StockSound(s) && i <= |lines|
    requires forall j :: 0 <= j < |lines| ==> lines[j].qty > 0 && !lines[j].consumed
    ensures KnownLines(s, lines) ==>
      (ConsumeLines(s, id, lines, i).Ok? <==> forall key :: Drawn(lines, i, key) <= Available(s, key))
    ensures ConsumeLines(s, id, lines, i).Ok? ==>
      var t := ConsumeLines(s, id, lines, i).value;
      && StockSound(t) && OnlyFor(s, t, IssueDoc(id))
      && (forall key :: OnHand(t, key) == OnHand(s, key) - Drawn(lines, i, key))
      && (forall key :: Net(t, BikeRepair(id), key) == Net(s, BikeRepair(id), key) - Drawn(lines, i, key))
    decreases |lines| - i
  {
    if i == |lines| {
      forall key ensures Available(s, key) >= 0 { assert RowSound(s, key); }
    } else {
      var n := i + 1;
      forall key ensures Drawn(lines, i, key) == TakenAt(key)(lines[i]) + Drawn(lines, n, key) && Drawn(lines, n, key) >= 0 {
        DrawnNext(lines, i, key);
      }
      var r := ConsumeLine(s, id, lines[i]);
      if r.Ok? {
        ConsumeLineSound(s, id, lines[i], r.value);
        ConsumeLinesSound(r.value, id, lines, i + 1);
        var rest := ConsumeLines(r.value, id, lines, i + 1);
        if rest.Ok? {
          OnlyForTransitive(s, r.value, rest.value, IssueDoc(id));
        }
      } else {
        var key := Key(lines[i].product, lines[i].warehouse);
        assert KnownLines(s, lines) ==> Drawn(lines, i, key) > Available(s, key);
      }
    }
  }

  /** The stock side of a resolve. */
  lemma ResolveDeducts(s: Stock, id: nat, issue: Issue, lines: seq<Line>)
    requires StockSound(s) && Sound(s, id, issue) && Active(issue.status)
    requires forall i :: 0 <= i < |lines| ==> lines[i].qty > 0 && !lines[i].consumed
    ensures KnownLines(s, lines) ==>
      (ConsumeLines(s, id, lines, 0).Ok? <==> forall key :: Total(lines, TakenAt(key)) <= Available(s, key))
    ensures ConsumeLines(s, id, lines, 0).Ok? ==>
      var t := ConsumeLines(s, id, lines, 0).value;
      var after := issue.(lines := AllConsumed(lines), status := Resolved);
      && StockSound(t)
      && OnlyFor(s, t, IssueDoc(id))
      && Sound(t, id, after)
      && (forall key :: OnHand(s, key) - OnHand(t, key) == Total(after.lines, TakenAt(key)))
  {
    assert lines[0..] == lines;
    ConsumeLinesSound(s, id, lines, 0);
    forall key ensures Total(AllConsumed(lines), TakenAt(key)) == Total(lines, TakenAt(key)) {
      ConsumedTotals(lines, key);
    }
    if ConsumeLines(s, id, lines, 0).Ok? {
      var t, after := ConsumeLines(s, id, lines, 0).value, issue.(lines := AllConsumed(lines), status := Resolved);
      forall key ensures Agrees(t, id, after, key) {
        assert Agrees(s, id, issue, key);
      }
    }
  }

  /**
   With its products and warehouses known, resolving an active issue succeeds exactly when every
   inventory row can cover all the lines drawn on it; it then deducts exactly the sum of the lines and
   gives the unit its prior status back.
   */
  lemma ResolveSound(s: Stock, units: Units, issues: seq<Issue>, n: nat, extra: seq<Line>)
    requires StockSound(s) && n < |issues| && UnitsHeld(units, issues) && Sound(s, n, issues[n]) && Active(issues[n].status)
    requires forall i :: 0 <= i < |extra| ==> extra[i].qty > 0
    ensures var lines := issues[n].lines + Built(extra);
            KnownLines(s, lines) ==>
              (Resolve(s, units, n, issues[n], extra).Ok? <==> forall key :: Total(lines, TakenAt(key)) <= Available(s, key))
    ensures Resolve(s, units, n, issues[n], extra).Ok? ==>
      var (t, freed, after) := Resolve(s, units, n, issues[n], extra).value;
      && StockSound(t)
      && OnlyFor(s, t, IssueDoc(n))
      && Sound(t, n, after)
      && UnitsHeld(freed, issues[n := after])
      && freed == units[issues[n].unit := issues[n].prior]
      && (forall key :: OnHand(s, key) - OnHand(t, key) == Total(after.lines, TakenAt(key)))
  {
    var issue := issues[n];
    var lines := issue.lines + Built(extra);
    ResolveDeducts(s, n, issue, lines);
    assert KnownLines(s, lines) ==> KnownLines(s, extra) by {
      assert forall i :: 0 <= i < |extra| ==> lines[|issue.lines| + i] == extra[i].(consumed := false);
    }
    ReleaseKeepsHeld(units, issues, n, issue.(lines := AllConsumed(lines), status := Resolved));
  }

  /** A resolve keeps every line and the extra ones after them, all consumed. */
  lemma ResolveLines(s: Stock, units: Units, id: nat, issue: Issue, extra: seq<Line>)
    requires Resolve(s, units, id, issue, extra).Ok?
    ensures var after := Resolve(s, units, id, issue, extra).value.2;
            && after.status.Resolved? && after.unit == issue.unit && after.prior == issue.prior
            && |after.lines| == |issue.lines| + |extra|
            && (forall k :: 0 <= k < |issue.lines| ==> after.lines[k] == issue.lines[k].(consumed := true))
            && (forall k :: 0 <= k < |extra| ==> after.lines[|issue.lines| + k] == extra[k].(consumed := true))
  {
  }

  /** Closing one issue frees its own unit, to its prior status, and no other. */
  lemma ReleaseKeepsHeld(units: Units, issues: seq<Issue>, n: nat, after: Issue)
    requires n < |issues| && UnitsHeld(units, issues) && Active(issues[n].status)
    requires after.status.Resolved? && after.unit == issues[n].unit
    ensures ReleaseUnit(units, issues[n]) == units[issues[n].unit := issues[n].prior]
    ensures UnitsHeld(ReleaseUnit(units, issues[n]), issues[n := after])
  {
    assert Holds(units, issues[n]);
    var now := issues[n := after];
    forall i | 0 <= i < |now| ensures Holds(ReleaseUnit(units, issues[n]), now[i]) {
      assert Holds(units, issues[i]);
    }
  }

  lemma {:induction false} ConsumedTotals(lines: seq<Line>, key: Key)
    ensures Total(AllConsumed(lines), TakenAt(key)) == Total(lines, TakenAt(key))
  {
    if |lines| > 0 {
      assert AllConsumed(lines)[..|lines| - 1] == AllConsumed(lines[..|lines| - 1]);
      ConsumedTotals(lines[..|lines| - 1], key);
    }
  }
}
