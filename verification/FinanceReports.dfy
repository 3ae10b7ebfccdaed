/**
 The three readers of the treasury ledger: batched balances, the account statement and the day
 book. Each computes in its own way and is proved against the one derived balance, taken as of an
 instant: `BalanceBefore`.
 */
module FinanceReports {
  import opened Common
  import opened Sums
  import opened Grouping
  import opened Ledger
  import opened Treasury

  /** Instants are microseconds; a day runs from its first to its last microsecond. */
  const DAY: int := 86_400_000_000

  function StartOf(day: int): int { day * DAY }

  function EndOf(day: int): int { day * DAY + DAY - 1 }

  /** The instants of a day, each of one day: midnight to the microsecond before the next. */
  lemma DayBounds(day: int, instant: int)
    ensures StartOf(day) <= instant <= EndOf(day) <==> instant / DAY == day
    ensures DAY == 24 * 60 * 60 * 1_000_000
  {
    if instant / DAY == day {
      assert instant == day * DAY + instant % DAY;
    } else if instant / DAY > day {
      assert instant >= (day + 1) * DAY;
    }
  }

  // ---------------------------------------------------------------- balances as of an instant

  function SignedBefore(account: nat, before: int): Movement -> int {
    (m: Movement) => if m.account == account && m.occurredAt < before then Signed(m) else 0
  }

  /** The derived balance counting only movements dated before an instant. */
  function BalanceBefore(b: Books, account: nat, before: int): int
    requires account < |b.accounts|
  {
    b.accounts[account].opening + Total(b.entries, SignedBefore(account, before))
  }

  lemma BalanceBeforeAll(b: Books, account: nat, before: int)
    requires account < |b.accounts|
    requires forall j :: 0 <= j < |b.entries| ==> b.entries[j].occurredAt < before
    ensures BalanceBefore(b, account, before) == Balance(b, account)
  {
    BalanceIsSigned(b, account);
    TotalCongruent(b.entries, SignedBefore(account, before), SignedOn(account));
  }

  // ---------------------------------------------------------------- batched balances

  datatype Sums2 = Sums2(totalIn: int, totalOut: int)

  datatype AccountFlow = AccountFlow(account: nat, direction: Direction)

  function AmountOf(): Movement -> int { (m: Movement) => m.amount }

  function FlowKey(): Movement -> AccountFlow { (m: Movement) => AccountFlow(m.account, m.direction) }

  function ForAccounts(ids: seq<nat>): Movement -> bool { (m: Movement) => m.account in ids }

  lemma FlowTotals(entries: Entries, ids: seq<nat>, account: nat)
    requires account in ids
    ensures var groups := GroupBy(entries, ForAccounts(ids), FlowKey(), AmountOf());
            && Lookup(groups, AccountFlow(account, In)) == Total(entries, InOf(account))
            && Lookup(groups, AccountFlow(account, Out)) == Total(entries, OutOf(account))
  {
    var keep, key, amount := ForAccounts(ids), FlowKey(), AmountOf();
    GroupBySums(entries, keep, key, amount, AccountFlow(account, In), k => true);
    GroupBySums(entries, keep, key, amount, AccountFlow(account, Out), k => true);
    TotalCongruent(entries, KeyCell(keep, key, amount, AccountFlow(account, In)), InOf(account));
    TotalCongruent(entries, KeyCell(keep, key, amount, AccountFlow(account, Out)), OutOf(account));
  }

  /** One grouped query for many accounts gives each account the sums its own query would. */
  method SumsByAccount(entries: Entries, ids: seq<nat>) returns (out: map<nat, Sums2>)
    ensures forall a :: a in out <==> a in ids
    ensures forall a :: a in ids ==> out[a] == Sums2(Total(entries, InOf(a)), Total(entries, OutOf(a)))
  {
    var rows := GroupBy(entries, ForAccounts(ids), FlowKey(), AmountOf());
    GroupByKeys(entries, ForAccounts(ids), FlowKey(), AmountOf());
    out := map a | a in ids :: Sums2(0, 0);
    var i := 0;
    while i < |rows|
      invariant 0 <= i <= |rows|
      invariant forall a :: a in out <==> a in ids
      invariant forall a :: a in ids ==>
        out[a] == Sums2(Lookup(rows[..i], AccountFlow(a, In)), Lookup(rows[..i], AccountFlow(a, Out)))
    {
      assert KeyOccurs(entries, ForAccounts(ids), FlowKey(), rows[i].key);
      var account := rows[i].key.account;
      var current := out[account];
      if rows[i].key.direction.In? {
        out := out[account := Sums2(rows[i].total, current.totalOut)];
      } else {
        out := out[account := Sums2(current.totalIn, rows[i].total)];
      }
      forall a | a in ids
        ensures out[a] == Sums2(Lookup(rows[..i + 1], AccountFlow(a, In)), Lookup(rows[..i + 1], AccountFlow(a, Out)))
      {
        LookupSnoc(rows, i, AccountFlow(a, In));
        LookupSnoc(rows, i, AccountFlow(a, Out));
      }
      i := i + 1;
    }
    assert rows[..i] == rows;
    forall a | a in ids
      ensures out[a] == Sums2(Total(entries, InOf(a)), Total(entries, OutOf(a)))
    {
      FlowTotals(entries, ids, a);
    }
  }

  lemma {:induction false} LookupSnoc<K>(groups: seq<Group<K>>, i: nat, key: K)
    requires i < |groups| && DistinctKeys(groups)
    ensures Lookup(groups[..i + 1], key) ==
            if groups[i].key == key then groups[i].total else Lookup(groups[..i], key)
  {
    if i > 0 {
      assert groups[..i + 1][1..] == groups[1..][..i] && groups[..i][1..] == groups[1..][..i - 1];
      LookupSnoc(groups[1..], i - 1, key);
    }
  }

  /** The accounts list shows, for every account, the balance the single accessor derives. */
  method ListBalances(b: Books, ids: seq<nat>) returns (balances: seq<int>)
    requires forall k :: 0 <= k < |ids| ==> ids[k] < |b.accounts|
    ensures |balances| == |ids|
    ensures forall k :: 0 <= k < |ids| ==> balances[k] == Balance(b, ids[k])
  {
    var sums := SumsByAccount(b.entries, ids);
    balances := [];
    for k := 0 to |ids|
      invariant |balances| == k
      invariant forall j :: 0 <= j < k ==> balances[j] == Balance(b, ids[j])
    {
      var s := if ids[k] in sums then sums[ids[k]] else Sums2(0, 0);
      balances := balances + [DeriveBalance(b.accounts[ids[k]].opening, s.totalIn, s.totalOut)];
    }
  }

  // ---------------------------------------------------------------- opening balances

  function OpeningOf(b: Books): nat -> int {
    (account: nat) => if account < |b.accounts| then b.accounts[account].opening else 0
  }

  function BeforeInstant(ids: seq<nat>, before: int): Movement -> bool {
    (m: Movement) => m.account in ids && m.occurredAt < before
  }

  function DirectionOf(): Movement -> Direction { (m: Movement) => m.direction }

  /** The two sums of the movements of some accounts before an instant: one query, grouped by direction. */
  function SignedSumBefore(entries: Entries, ids: seq<nat>, before: int): Sums2 {
    if |ids| == 0 then Sums2(0, 0)
    else
      var totals := GroupBy(entries, BeforeInstant(ids, before), DirectionOf(), AmountOf());
      Sums2(Lookup(totals, In), Lookup(totals, Out))
  }

  /** The combined balance of some accounts just before an instant. */
  function OpeningBalance(b: Books, ids: seq<nat>, before: int): int {
    var sums := SignedSumBefore(b.entries, ids, before);
    Total(ids, OpeningOf(b)) + sums.totalIn - sums.totalOut
  }

  function SignedOfBefore(ids: seq<nat>, before: int): Movement -> int {
    (m: Movement) => if m.account in ids && m.occurredAt < before then Signed(m) else 0
  }

  /** The grouped query gives the signed sum of one scan. */
  lemma SumBeforeIsScan(entries: Entries, ids: seq<nat>, before: int)
    ensures SignedSumBefore(entries, ids, before).totalIn - SignedSumBefore(entries, ids, before).totalOut
            == Total(entries, SignedOfBefore(ids, before))
  {
    var keep, key, amount := BeforeInstant(ids, before), DirectionOf(), AmountOf();
    if |ids| == 0 {
      TotalZero(entries, SignedOfBefore(ids, before));
    } else {
      GroupBySums(entries, keep, key, amount, In, d => true);
      GroupBySums(entries, keep, key, amount, Out, d => true);
      TotalAdd(entries, SignedOfBefore(ids, before), KeyCell(keep, key, amount, Out), KeyCell(keep, key, amount, In));
    }
  }

  /** For one account, the opening of a statement is the derived balance just before it. */
  lemma OpeningIsBalance(b: Books, account: nat, before: int)
    requires account < |b.accounts|
    ensures OpeningBalance(b, [account], before) == BalanceBefore(b, account, before)
  {
    SumBeforeIsScan(b.entries, [account], before);
    TotalCongruent(b.entries, SignedOfBefore([account], before), SignedBefore(account, before));
    TotalAppend([], account, OpeningOf(b));
    assert [] + [account] == [account];
  }

  // ---------------------------------------------------------------- the account statement

  predicate InWindow(m: Movement, start: int, end: int) {
    start <= m.occurredAt <= end
  }

  /** Insert after every movement that is not later: ties keep ledger order. */
  function InsertByTime(sorted: Entries, m: Movement): Entries
  {
    if |sorted| == 0 || sorted[|sorted| - 1].occurredAt <= m.occurredAt then sorted + [m]
    else InsertByTime(sorted[..|sorted| - 1], m) + [sorted[|sorted| - 1]]
  }

  /** An account's movements in the window, in time order. */
  function StatementMovements(entries: Entries, account: nat, start: int, end: int): Entries
  {
    if |entries| == 0 then []
    else
      var rest := StatementMovements(entries[..|entries| - 1], account, start, end);
      var m := entries[|entries| - 1];
      if m.account == account && InWindow(m, start, end) then InsertByTime(rest, m) else rest
  }

  ghost predicate InTimeOrder(rows: Entries) {
    forall i, j :: 0 <= i < j < |rows| ==> rows[i].occurredAt <= rows[j].occurredAt
  }

  /** Every listed movement is the account's and dated in the window. */
  ghost predicate Listed(rows: Entries, account: nat, start: int, end: int) {
    forall i :: 0 <= i < |rows| ==> rows[i].account == account && InWindow(rows[i], start, end)
  }

  lemma {:induction false} InsertByTimeOrders(sorted: Entries, m: Movement, account: nat, start: int, end: int)
    requires InTimeOrder(sorted) && Listed(sorted, account, start, end)
    requires m.account == account && InWindow(m, start, end)
    ensures var rows := InsertByTime(sorted, m);
            && InTimeOrder(rows)
            && Listed(rows, account, start, end)
            && |rows| > 0
            && rows[|rows| - 1].occurredAt ==
               if |sorted| == 0 then m.occurredAt else Max(m.occurredAt, sorted[|sorted| - 1].occurredAt)
  {
    if |sorted| > 0 && sorted[|sorted| - 1].occurredAt > m.occurredAt {
      InsertByTimeOrders(sorted[..|sorted| - 1], m, account, start, end);
    }
  }

  lemma {:induction false} InsertByTimeTotal(sorted: Entries, m: Movement, column: Movement -> int)
    ensures Total(InsertByTime(sorted, m), column) == Total(sorted, column) + column(m)
  {
    if |sorted| == 0 || sorted[|sorted| - 1].occurredAt <= m.occurredAt {
      TotalAppend(sorted, m, column);
    } else {
      InsertByTimeTotal(sorted[..|sorted| - 1], m, column);
      TotalAppend(InsertByTime(sorted[..|sorted| - 1], m), sorted[|sorted| - 1], column);
    }
  }

  function Shown(account: nat, start: int, end: int, column: Movement -> int): Movement -> int {
    (m: Movement) => if m.account == account && InWindow(m, start, end) then column(m) else 0
  }

  /** A statement lists the account's movements of the window, in time order ... */
  lemma {:induction false} StatementMovementsOrdered(entries: Entries, account: nat, start: int, end: int)
    ensures InTimeOrder(StatementMovements(entries, account, start, end))
    ensures Listed(StatementMovements(entries, account, start, end), account, start, end)
  {
    if |entries| > 0 {
      var front, m := entries[..|entries| - 1], entries[|entries| - 1];
      StatementMovementsOrdered(front, account, start, end);
      if m.account == account && InWindow(m, start, end) {
        InsertByTimeOrders(StatementMovements(front, account, start, end), m, account, start, end);
      }
    }
  }

  /** ... and all of them, each once: any column sums to the same over the list and over the ledger's window. */
  lemma {:induction false} StatementMovementsComplete(
      entries: Entries, account: nat, start: int, end: int, column: Movement -> int)
    ensures Total(StatementMovements(entries, account, start, end), column)
            == Total(entries, Shown(account, start, end, column))
  {
    if |entries| > 0 {
      var front, m := entries[..|entries| - 1], entries[|entries| - 1];
      StatementMovementsComplete(front, account, start, end, column);
      InsertByTimeTotal(StatementMovements(front, account, start, end), m, column);
    }
  }

  datatype StatementRow = StatementRow(movement: Movement, occurredAt: int, inAmount: int, outAmount: int, running: int)

  datatype Statement = Statement(opening: int, rows: seq<StatementRow>, totalIn: int, totalOut: int, closing: int)

  function SignedUpTo(instant: int): Movement -> int {
    (m: Movement) => if m.occurredAt <= instant then Signed(m) else 0
  }

  /** The movements listed up to and including a row that ends its instant are exactly those not later. */
  lemma RowsUpTo(rows: Entries, k: nat)
    requires InTimeOrder(rows) && k < |rows|
    requires k + 1 == |rows| || rows[k].occurredAt < rows[k + 1].occurredAt
    ensures Total(rows[..k + 1], SignedColumn()) == Total(rows, SignedUpTo(rows[k].occurredAt))
  {
    var instant, shown, rest := rows[k].occurredAt, rows[..k + 1], rows[k + 1..];
    assert rows == shown + rest;
    forall i | 0 <= i < |rest| ensures rest[i].occurredAt > instant { assert rest[i] == rows[k + 1 + i]; }
    SplitAtInstant(shown, rest, instant);
  }

  lemma SplitAtInstant(shown: Entries, rest: Entries, instant: int)
    requires forall i :: 0 <= i < |shown| ==> shown[i].occurredAt <= instant
    requires forall i :: 0 <= i < |rest| ==> rest[i].occurredAt > instant
    ensures Total(shown, SignedColumn()) == Total(shown + rest, SignedUpTo(instant))
  {
    TotalConcat(shown, rest, SignedUpTo(instant));
    TotalCongruent(shown, SignedColumn(), SignedUpTo(instant));
    TotalZero(rest, SignedUpTo(instant));
  }

  /** Opening plus what the window shows up to an instant is the derived balance just after that instant. */
  lemma BalanceThrough(b: Books, account: nat, start: int, end: int, instant: int)
    requires account < |b.accounts| && start - 1 <= instant <= end
    ensures BalanceBefore(b, account, start)
            + Total(StatementMovements(b.entries, account, start, end), SignedUpTo(instant))
            == BalanceBefore(b, account, instant + 1)
  {
    StatementMovementsComplete(b.entries, account, start, end, SignedUpTo(instant));
    TotalAdd(b.entries, SignedBefore(account, start), Shown(account, start, end, SignedUpTo(instant)),
             SignedBefore(account, instant + 1));
  }

  predicate EndsInstant(movements: Entries, k: nat) {
    k < |movements| && (k + 1 == |movements| || movements[k].occurredAt < movements[k + 1].occurredAt)
  }

  /** At the last row of an instant the statement has counted exactly what the ledger has by then. */
  lemma RunningIsBalance(b: Books, account: nat, start: int, end: int, movements: Entries, k: nat)
    requires account < |b.accounts| && movements == StatementMovements(b.entries, account, start, end)
    requires EndsInstant(movements, k)
    ensures BalanceBefore(b, account, start) + Total(movements[..k + 1], SignedColumn())
            == BalanceBefore(b, account, movements[k].occurredAt + 1)
  {
    StatementMovementsOrdered(b.entries, account, start, end);
    RowsUpTo(movements, k);
    BalanceThrough(b, account, start, end, movements[k].occurredAt);
  }

  lemma ClosingIsBalance(b: Books, account: nat, start: int, end: int, movements: Entries)
    requires account < |b.accounts| && movements == StatementMovements(b.entries, account, start, end)
    requires start - 1 <= end
    ensures BalanceBefore(b, account, start) + Total(movements, SignedColumn()) == BalanceBefore(b, account, end + 1)
  {
    StatementMovementsOrdered(b.entries, account, start, end);
    BalanceThrough(b, account, start, end, end);
    TotalCongruent(movements, SignedColumn(), SignedUpTo(end));
  }

  /** What row `k` of a statement shows: its movement, the amount in the one column or the other, the balance. */
  ghost predicate RowShows(row: StatementRow, account: nat, opening: int, movements: Entries, k: nat)
    requires k < |movements|
  {
    && row.movement == movements[k]
    && row.occurredAt == movements[k].occurredAt
    && row.inAmount == InOf(account)(movements[k])
    && row.outAmount == OutOf(account)(movements[k])
    && row.running == opening + Total(movements[..k + 1], SignedColumn())
  }

  ghost predicate AllShow(rows: seq<StatementRow>, account: nat, opening: int, movements: Entries) {
    |rows| == |movements| && forall k :: 0 <= k < |rows| ==> RowShows(rows[k], account, opening, movements, k)
  }

  /** A statement shows a list of movements: row by row, in its totals and in its closing. */
  ghost predicate Shows(s: Statement, account: nat, movements: Entries) {
    && AllShow(s.rows, account, s.opening, movements)
    && s.totalIn == Total(movements, InOf(account))
    && s.totalOut == Total(movements, OutOf(account))
    && s.closing == s.opening + s.totalIn - s.totalOut == s.opening + Total(movements, SignedColumn())
  }

  lemma StatementNext(movements: Entries, i: nat, account: nat)
    requires i < |movements|
    ensures Total(movements[..i + 1], SignedColumn()) == Total(movements[..i], SignedColumn()) + Signed(movements[i])
    ensures Total(movements[..i + 1], InOf(account)) == Total(movements[..i], InOf(account)) + InOf(account)(movements[i])
    ensures Total(movements[..i + 1], OutOf(account)) == Total(movements[..i], OutOf(account)) + OutOf(account)(movements[i])
  {
    assert movements[..i + 1] == movements[..i] + [movements[i]];
    TotalAppend(movements[..i], movements[i], SignedColumn());
    TotalAppend(movements[..i], movements[i], InOf(account));
    TotalAppend(movements[..i], movements[i], OutOf(account));
  }

  /** The loop over the listed movements, carrying the running balance and the two totals. */
  method StatementRows(opening: int, movements: Entries, account: nat)
    returns (rows: seq<StatementRow>, totalIn: int, totalOut: int, running: int)
    requires forall k :: 0 <= k < |movements| ==> movements[k].account == account
    ensures AllShow(rows, account, opening, movements)
    ensures totalIn == Total(movements, InOf(account))
    ensures totalOut == Total(movements, OutOf(account))
    ensures running == opening + totalIn - totalOut == opening + Total(movements, SignedColumn())
  {
    rows, totalIn, totalOut, running := [], 0, 0, opening;
    var i := 0;
    while i < |movements|
      invariant 0 <= i <= |movements| && |rows| == i
      invariant running == opening + Total(movements[..i], SignedColumn())
      invariant totalIn == Total(movements[..i], InOf(account)) && totalOut == Total(movements[..i], OutOf(account))
      invariant running == opening + totalIn - totalOut
      invariant forall k :: 0 <= k < i ==> RowShows(rows[k], account, opening, movements, k)
    {
      var m := movements[i];
      StatementNext(movements, i, account);
      if m.direction.In? {
        running, totalIn := running + m.amount, totalIn + m.amount;
      } else {
        running, totalOut := running - m.amount, totalOut + m.amount;
      }
      rows := rows + [StatementRow(m, m.occurredAt,
        if m.direction.In? then m.amount else 0, if m.direction.Out? then m.amount else 0, running)];
      i := i + 1;
    }
    assert movements[..i] == movements;
  }

  /**
   A statement of an account over a window: its opening is the ledger's balance just before, its rows show
   the listed movements, the running balance at the last row of every instant is what the ledger gives just
   after that instant, and it closes at what the ledger gives just after the window.
   */
  ghost predicate IsStatement(b: Books, account: nat, dateFrom: int, dateTo: int, s: Statement) {
    var movements := StatementMovements(b.entries, account, StartOf(dateFrom), EndOf(dateTo));
    && account < |b.accounts|
    && Shows(s, account, movements)
    && s.opening == BalanceBefore(b, account, StartOf(dateFrom))
    && (dateFrom <= dateTo + 1 ==> s.closing == BalanceBefore(b, account, EndOf(dateTo) + 1))
    && (forall k :: 0 <= k < |s.rows| && EndsInstant(movements, k) ==>
          s.rows[k].running == BalanceBefore(b, account, s.rows[k].occurredAt + 1))
  }

  /** Rows that add up from the right opening are balances of the ledger. */
  lemma RowsMakeStatement(b: Books, account: nat, dateFrom: int, dateTo: int, movements: Entries, s: Statement)
    requires account < |b.accounts| && s.opening == BalanceBefore(b, account, StartOf(dateFrom))
    requires movements == StatementMovements(b.entries, account, StartOf(dateFrom), EndOf(dateTo))
    requires Shows(s, account, movements)
    ensures IsStatement(b, account, dateFrom, dateTo, s)
  {
    forall k | 0 <= k < |s.rows| && EndsInstant(movements, k)
      ensures s.rows[k].running == BalanceBefore(b, account, s.rows[k].occurredAt + 1)
    {
      assert RowShows(s.rows[k], account, s.opening, movements, k);
      RunningIsBalance(b, account, StartOf(dateFrom), EndOf(dateTo), movements, k);
    }
    if dateFrom <= dateTo + 1 {
      ClosingIsBalance(b, account, StartOf(dateFrom), EndOf(dateTo), movements);
    }
  }

  /** Opening from its grouped query, rows and closing from the loop over the listed movements. */
  method AccountStatement(b: Books, account: nat, dateFrom: int, dateTo: int) returns (r: Outcome<Statement, Error>)
    ensures account >= |b.accounts| ==> r == Err(NotFound)
    ensures account < |b.accounts| ==> r.Ok? && IsStatement(b, account, dateFrom, dateTo, r.value)
  {
    if account >= |b.accounts| { return Err(NotFound); }
    var start, end := StartOf(dateFrom), EndOf(dateTo);
    var opening := OpeningBalance(b, [account], start);
    OpeningIsBalance(b, account, start);
    var movements := StatementMovements(b.entries, account, start, end);
    StatementMovementsOrdered(b.entries, account, start, end);
    var rows, totalIn, totalOut, running := StatementRows(opening, movements, account);
    var s := Statement(opening, rows, totalIn, totalOut, running);
    RowsMakeStatement(b, account, dateFrom, dateTo, movements, s);
    return Ok(s);
  }

  /** The closing of one statement is the opening of the statement that starts the next day. */
  lemma WindowsChain(b: Books, account: nat, dateFrom: int, dateTo: int, dateLater: int, s: Statement, next: Statement)
    requires IsStatement(b, account, dateFrom, dateTo, s) && IsStatement(b, account, dateTo + 1, dateLater, next)
    requires dateFrom <= dateTo + 1
    ensures s.closing == next.opening
  {
    assert EndOf(dateTo) + 1 == StartOf(dateTo + 1);
  }

  /** A movement not earlier than any of the first rows is inserted among the rest. */
  lemma {:induction false} InsertAfter(early: Entries, late: Entries, m: Movement)
    requires forall i :: 0 <= i < |early| ==> early[i].occurredAt <= m.occurredAt
    ensures InsertByTime(early + late, m) == early + InsertByTime(late, m)
  {
    if |late| == 0 {
      assert early + late == early;
    } else {
      var front := late[..|late| - 1];
      assert (early + late)[..|early + late| - 1] == early + front;
      InsertAfter(early, front, m);
    }
  }

  /** A movement earlier than all of the last rows is inserted before them. */
  lemma {:induction false} InsertBefore(early: Entries, late: Entries, m: Movement)
    requires forall i :: 0 <= i < |late| ==> late[i].occurredAt > m.occurredAt
    ensures InsertByTime(early + late, m) == InsertByTime(early, m) + late
  {
    if |late| == 0 {
      assert early + late == early;
    } else {
      var front := late[..|late| - 1];
      assert (early + late)[..|early + late| - 1] == early + front;
      InsertBefore(early, front, m);
    }
  }

  /** What a window lists is what its two parts list, one after the other. */
  lemma {:induction false} WindowSplits(entries: Entries, account: nat, start: int, mid: int, end: int)
    requires start - 1 <= mid <= end
    ensures StatementMovements(entries, account, start, end)
            == StatementMovements(entries, account, start, mid) + StatementMovements(entries, account, mid + 1, end)
  {
    if |entries| > 0 {
      var front, m := entries[..|entries| - 1], entries[|entries| - 1];
      WindowSplits(front, account, start, mid, end);
      var early, late := StatementMovements(front, account, start, mid), StatementMovements(front, account, mid + 1, end);
      StatementMovementsOrdered(front, account, start, mid);
      StatementMovementsOrdered(front, account, mid + 1, end);
      if m.occurredAt > mid {
        InsertAfter(early, late, m);
      } else {
        InsertBefore(early, late, m);
      }
    }
  }

  /** Row `k` over both lists is row `k` of the first, or row `k - |early|` of the second with its own opening. */
  lemma RowComposes(row: StatementRow, part: StatementRow, account: nat, opening: int, early: Entries, late: Entries, k: nat)
    requires k < |early + late| && RowShows(row, account, opening, early + late, k)
    requires if k < |early| then RowShows(part, account, opening, early, k)
             else RowShows(part, account, opening + Total(early, SignedColumn()), late, k - |early|)
    ensures row == part
  {
    if k < |early| {
      assert (early + late)[..k + 1] == early[..k + 1];
    } else {
      var j := k - |early|;
      assert (early + late)[..k + 1] == early + late[..j + 1];
      TotalConcat(early, late[..j + 1], SignedColumn());
    }
  }

  /** A statement that goes on where another closed: together they say what is said of both lists. */
  lemma ShownCompose(account: nat, early: Entries, late: Entries, s: Statement, next: Statement, whole: Statement)
    requires Shows(s, account, early) && Shows(next, account, late) && Shows(whole, account, early + late)
    requires whole.opening == s.opening && s.closing == next.opening
    ensures whole.rows == s.rows + next.rows
    ensures whole.totalIn == s.totalIn + next.totalIn && whole.totalOut == s.totalOut + next.totalOut
    ensures whole.closing == next.closing
  {
    TotalConcat(early, late, InOf(account));
    TotalConcat(early, late, OutOf(account));
    forall k | 0 <= k < |whole.rows| ensures whole.rows[k] == (s.rows + next.rows)[k] {
      RowComposes(whole.rows[k], (s.rows + next.rows)[k], account, s.opening, early, late, k);
    }
  }

  /**
   Two statements one after the other are the one statement over both windows: row after row the same
   movement, amounts and running balance, then the totals, and the same opening and closing.
   */
  lemma StatementsCompose(b: Books, account: nat, dateFrom: int, dateTo: int, dateLater: int,
                          s: Statement, next: Statement, whole: Statement)
    requires IsStatement(b, account, dateFrom, dateTo, s) && IsStatement(b, account, dateTo + 1, dateLater, next)
    requires IsStatement(b, account, dateFrom, dateLater, whole) && dateFrom <= dateTo + 1 <= dateLater + 1
    ensures whole.rows == s.rows + next.rows
    ensures whole.totalIn == s.totalIn + next.totalIn && whole.totalOut == s.totalOut + next.totalOut
    ensures whole.opening == s.opening && whole.closing == next.closing
  {
    var early := StatementMovements(b.entries, account, StartOf(dateFrom), EndOf(dateTo));
    var late := StatementMovements(b.entries, account, StartOf(dateTo + 1), EndOf(dateLater));
    WindowSplits(b.entries, account, StartOf(dateFrom), EndOf(dateTo), EndOf(dateLater));
    WindowsChain(b, account, dateFrom, dateTo, dateLater, s, next);
    ShownCompose(account, early, late, s, next, whole);
  }

  // ---------------------------------------------------------------- the day book

  datatype Column =
    | Opening | MoneyIn | Expenses | Handovers | TransfersIn | TransfersOut | OtherIn | OtherOut | Closing

  datatype DayBookRow = DayBookRow(
    opening: int, moneyIn: int, expenses: int, handovers: int,
    transfersIn: int, transfersOut: int, otherIn: int, otherOut: int, closing: int)

  function Cell(row: DayBookRow, column: Column): int {
    match column
    case Opening => row.opening
    case MoneyIn => row.moneyIn
    case Expenses => row.expenses
    case Handovers => row.handovers
    case TransfersIn => row.transfersIn
    case TransfersOut => row.transfersOut
    case OtherIn => row.otherIn
    case OtherOut => row.otherOut
    case Closing => row.closing
  }

  function CellOf(column: Column): DayBookRow -> int {
    (row: DayBookRow) => Cell(row, column)
  }

  /** Which movements a flow column counts. A reversal carries its original's category the other way. */
  predicate Counts(column: Column, category: Category, direction: Direction) {
    match column
    case MoneyIn => direction.In? && category.SalePayment?
    case Expenses => direction.Out? && category.ExpenseSpend?
    case Handovers => direction.Out? && category.HandoverLeg?
    case TransfersIn => direction.In? && category.TransferLeg?
    case TransfersOut => direction.Out? && category.TransferLeg?
    case OtherIn => direction.In? && !category.SalePayment? && !category.TransferLeg?
    case OtherOut => direction.Out? && !category.ExpenseSpend? && !category.HandoverLeg? && !category.TransferLeg?
    case _ => false
  }

  /** What one movement adds to a column. */
  function MovementCell(column: Column, start: int, end: int): Movement -> int {
    (m: Movement) =>
      if column.Opening? then (if m.occurredAt < start then Signed(m) else 0)
      else if column.Closing? then (if m.occurredAt <= end then Signed(m) else 0)
      else if InWindow(m, start, end) && Counts(column, m.category, m.direction) then m.amount else 0
  }

  function AtAccount(account: nat, cell: Movement -> int): Movement -> int {
    (m: Movement) => if m.account == account then cell(m) else 0
  }

  function AtAccounts(ids: seq<nat>, cell: Movement -> int): Movement -> int {
    (m: Movement) => if m.account in ids then cell(m) else 0
  }

  function PerAccount(entries: Entries, cell: Movement -> int): nat -> int {
    (account: nat) => Total(entries, AtAccount(account, cell))
  }

  /** What one account contributes to a column: opening and closing are its balances as of the window's ends. */
  function AccountCell(b: Books, column: Column, start: int, end: int): nat -> int {
    (account: nat) =>
      (if column.Opening? || column.Closing? then OpeningOf(b)(account) else 0)
      + PerAccount(b.entries, MovementCell(column, start, end))(account)
  }

  lemma AccountCellIsBalance(b: Books, start: int, end: int, account: nat)
    requires account < |b.accounts|
    ensures AccountCell(b, Opening, start, end)(account) == BalanceBefore(b, account, start)
    ensures AccountCell(b, Closing, start, end)(account) == BalanceBefore(b, account, end + 1)
  {
    assert forall column :: PerAccount(b.entries, MovementCell(column, start, end))(account)
                            == Total(b.entries, AtAccount(account, MovementCell(column, start, end)));
    TotalCongruent(b.entries, AtAccount(account, MovementCell(Opening, start, end)), SignedBefore(account, start));
    TotalCongruent(b.entries, AtAccount(account, MovementCell(Closing, start, end)), SignedBefore(account, end + 1));
  }

  ghost predicate Distinct(ids: seq<nat>) {
    forall i, j :: 0 <= i < j < |ids| ==> ids[i] != ids[j]
  }

  /** One scan of the ledger for a set of accounts sums the accounts' own scans. */
  lemma {:induction false} ScanIsSumOfAccounts(entries: Entries, ids: seq<nat>, cell: Movement -> int)
    requires Distinct(ids)
    ensures Total(entries, AtAccounts(ids, cell)) == Total(ids, PerAccount(entries, cell))
  {
    if |ids| == 0 {
      TotalZero(entries, AtAccounts(ids, cell));
    } else {
      var front, last := ids[..|ids| - 1], ids[|ids| - 1];
      ScanIsSumOfAccounts(entries, front, cell);
      assert ids == front + [last];
      TotalAdd(entries, AtAccounts(front, cell), AtAccount(last, cell), AtAccounts(ids, cell));
    }
  }

  datatype PeriodKey = PeriodKey(category: Category, direction: Direction)

  function PeriodKeyOf(): Movement -> PeriodKey { (m: Movement) => PeriodKey(m.category, m.direction) }

  function InPeriod(ids: seq<nat>, start: int, end: int): Movement -> bool {
    (m: Movement) => m.account in ids && InWindow(m, start, end)
  }

  /** {(category, direction): amount} for the accounts within the window. */
  function PeriodCategorySums(entries: Entries, ids: seq<nat>, start: int, end: int): seq<Group<PeriodKey>> {
    GroupBy(entries, InPeriod(ids, start, end), PeriodKeyOf(), AmountOf())
  }

  function Going(direction: Direction): PeriodKey -> bool { (k: PeriodKey) => k.direction == direction }

  function GoingTotal(direction: Direction, start: int, end: int): Movement -> int {
    (m: Movement) => if InWindow(m, start, end) && m.direction == direction then m.amount else 0
  }

  /** Every named column is one lookup in the grouped sums. */
  lemma LookupIsColumn(entries: Entries, ids: seq<nat>, start: int, end: int, column: Column, key: PeriodKey)
    requires column.MoneyIn? || column.Expenses? || column.Handovers? || column.TransfersIn? || column.TransfersOut?
    requires forall c, d :: Counts(column, c, d) <==> PeriodKey(c, d) == key
    ensures Lookup(PeriodCategorySums(entries, ids, start, end), key)
            == Total(entries, AtAccounts(ids, MovementCell(column, start, end)))
  {
    var keep, keyOf, amount := InPeriod(ids, start, end), PeriodKeyOf(), AmountOf();
    GroupBySums(entries, keep, keyOf, amount, key, k => true);
    TotalCongruent(entries, KeyCell(keep, keyOf, amount, key), AtAccounts(ids, MovementCell(column, start, end)));
  }

  /** The sum over the grouped values of one direction is the whole flow of that direction. */
  lemma DirectionIsFlow(entries: Entries, ids: seq<nat>, start: int, end: int, direction: Direction)
    ensures SumWhere(PeriodCategorySums(entries, ids, start, end), Going(direction))
            == Total(entries, AtAccounts(ids, GoingTotal(direction, start, end)))
  {
    var keep, keyOf, amount := InPeriod(ids, start, end), PeriodKeyOf(), AmountOf();
    GroupBySums(entries, keep, keyOf, amount, PeriodKey(SalePayment, In), Going(direction));
    TotalCongruent(entries, ChosenCell(keep, keyOf, amount, Going(direction)),
                   AtAccounts(ids, GoingTotal(direction, start, end)));
  }

  function Sum3(f: Movement -> int, g: Movement -> int, h: Movement -> int): Movement -> int {
    (m: Movement) => f(m) + g(m) + h(m)
  }

  /** IN flow splits into sale payments, transfers and the rest ... */
  lemma InflowSplits(entries: Entries, ids: seq<nat>, start: int, end: int)
    ensures Total(entries, AtAccounts(ids, GoingTotal(In, start, end)))
            == Total(entries, AtAccounts(ids, MovementCell(MoneyIn, start, end)))
             + Total(entries, AtAccounts(ids, MovementCell(TransfersIn, start, end)))
             + Total(entries, AtAccounts(ids, MovementCell(OtherIn, start, end)))
  {
    var c := (column: Column) => AtAccounts(ids, MovementCell(column, start, end));
    Total3(entries, c(MoneyIn), c(TransfersIn), c(OtherIn));
    TotalCongruent(entries, AtAccounts(ids, GoingTotal(In, start, end)), Sum3(c(MoneyIn), c(TransfersIn), c(OtherIn)));
  }

  /** ... and OUT flow into expenses, handovers, transfers and the rest. */
  lemma OutflowSplits(entries: Entries, ids: seq<nat>, start: int, end: int)
    ensures Total(entries, AtAccounts(ids, GoingTotal(Out, start, end)))
            == Total(entries, AtAccounts(ids, MovementCell(Expenses, start, end)))
             + Total(entries, AtAccounts(ids, MovementCell(Handovers, start, end)))
             + Total(entries, AtAccounts(ids, MovementCell(TransfersOut, start, end)))
             + Total(entries, AtAccounts(ids, MovementCell(OtherOut, start, end)))
  {
    var c := (column: Column) => AtAccounts(ids, MovementCell(column, start, end));
    var spent := Sum3(c(Expenses), c(Handovers), c(TransfersOut));
    Total3(entries, c(Expenses), c(Handovers), c(TransfersOut));
    TotalAdd(entries, spent, c(OtherOut), AtAccounts(ids, GoingTotal(Out, start, end)));
  }

  lemma Total3(entries: Entries, f: Movement -> int, g: Movement -> int, h: Movement -> int)
    ensures Total(entries, Sum3(f, g, h)) == Total(entries, f) + Total(entries, g) + Total(entries, h)
  {
    var fg := (m: Movement) => f(m) + g(m);
    TotalAdd(entries, f, g, fg);
    TotalAdd(entries, fg, h, Sum3(f, g, h));
  }

  /** Balances move by the net flow: closing scan = opening scan + IN - OUT. */
  lemma ClosingScan(entries: Entries, ids: seq<nat>, start: int, end: int)
    requires start <= end + 1
    ensures Total(entries, AtAccounts(ids, MovementCell(Closing, start, end)))
            == Total(entries, AtAccounts(ids, MovementCell(Opening, start, end)))
             + Total(entries, AtAccounts(ids, GoingTotal(In, start, end)))
             - Total(entries, AtAccounts(ids, GoingTotal(Out, start, end)))
  {
    var c := (column: Column) => AtAccounts(ids, MovementCell(column, start, end));
    var i, o := AtAccounts(ids, GoingTotal(In, start, end)), AtAccounts(ids, GoingTotal(Out, start, end));
    var both := (m: Movement) => c(Closing)(m) + o(m);
    TotalAdd(entries, c(Closing), o, both);
    TotalAdd(entries, c(Opening), i, both);
  }

  lemma AccountCellsTotal(b: Books, ids: seq<nat>, column: Column, start: int, end: int)
    requires Distinct(ids)
    ensures Total(ids, AccountCell(b, column, start, end))
            == (if column.Opening? || column.Closing? then Total(ids, OpeningOf(b)) else 0)
             + Total(b.entries, AtAccounts(ids, MovementCell(column, start, end)))
  {
    ScanIsSumOfAccounts(b.entries, ids, MovementCell(column, start, end));
    if column.Opening? || column.Closing? {
      TotalAdd(ids, OpeningOf(b), PerAccount(b.entries, MovementCell(column, start, end)), AccountCell(b, column, start, end));
    } else {
      TotalCongruent(ids, AccountCell(b, column, start, end), PerAccount(b.entries, MovementCell(column, start, end)));
    }
  }

  /** What a scan of the ledger for some accounts adds to a column. */
  function Scanned(entries: Entries, ids: seq<nat>, start: int, end: int, column: Column): int {
    Total(entries, AtAccounts(ids, MovementCell(column, start, end)))
  }

  /** Every flow column read off the one grouped query. */
  lemma PeriodColumns(entries: Entries, ids: seq<nat>, start: int, end: int)
    ensures var sums := PeriodCategorySums(entries, ids, start, end);
            && Lookup(sums, PeriodKey(SalePayment, In)) == Scanned(entries, ids, start, end, MoneyIn)
            && Lookup(sums, PeriodKey(ExpenseSpend, Out)) == Scanned(entries, ids, start, end, Expenses)
            && Lookup(sums, PeriodKey(HandoverLeg, Out)) == Scanned(entries, ids, start, end, Handovers)
            && Lookup(sums, PeriodKey(TransferLeg, In)) == Scanned(entries, ids, start, end, TransfersIn)
            && Lookup(sums, PeriodKey(TransferLeg, Out)) == Scanned(entries, ids, start, end, TransfersOut)
    ensures var totalIn := SumWhere(PeriodCategorySums(entries, ids, start, end), Going(In));
            && totalIn == Total(entries, AtAccounts(ids, GoingTotal(In, start, end)))
            && totalIn == Scanned(entries, ids, start, end, MoneyIn) + Scanned(entries, ids, start, end, TransfersIn)
                        + Scanned(entries, ids, start, end, OtherIn)
    ensures var totalOut := SumWhere(PeriodCategorySums(entries, ids, start, end), Going(Out));
            && totalOut == Total(entries, AtAccounts(ids, GoingTotal(Out, start, end)))
            && totalOut == Scanned(entries, ids, start, end, Expenses) + Scanned(entries, ids, start, end, Handovers)
                         + Scanned(entries, ids, start, end, TransfersOut) + Scanned(entries, ids, start, end, OtherOut)
  {
    LookupIsColumn(entries, ids, start, end, MoneyIn, PeriodKey(SalePayment, In));
    LookupIsColumn(entries, ids, start, end, Expenses, PeriodKey(ExpenseSpend, Out));
    LookupIsColumn(entries, ids, start, end, Handovers, PeriodKey(HandoverLeg, Out));
    LookupIsColumn(entries, ids, start, end, TransfersIn, PeriodKey(TransferLeg, In));
    LookupIsColumn(entries, ids, start, end, TransfersOut, PeriodKey(TransferLeg, Out));
    DirectionIsFlow(entries, ids, start, end, In);
    DirectionIsFlow(entries, ids, start, end, Out);
    InflowSplits(entries, ids, start, end);
    OutflowSplits(entries, ids, start, end);
  }

  lemma OpeningIsScan(b: Books, ids: seq<nat>, start: int, end: int)
    ensures OpeningBalance(b, ids, start)
            == Total(ids, OpeningOf(b)) + Total(b.entries, AtAccounts(ids, MovementCell(Opening, start, end)))
  {
    SumBeforeIsScan(b.entries, ids, start);
    TotalCongruent(b.entries, SignedOfBefore(ids, start), AtAccounts(ids, MovementCell(Opening, start, end)));
  }

  /**
   One day-book row, computed from one opening query and one grouped query. Every cell is the sum
   of what the row's accounts contribute, and the row adds up.
   */
  method ComputeDayBookRow(b: Books, ids: seq<nat>, start: int, end: int) returns (row: DayBookRow)
    requires Distinct(ids) && start <= end + 1
    ensures forall column :: Cell(row, column) == Total(ids, AccountCell(b, column, start, end))
    ensures row.opening + row.moneyIn + row.transfersIn + row.otherIn
            - row.expenses - row.handovers - row.transfersOut - row.otherOut == row.closing
  {
    var opening := OpeningBalance(b, ids, start);
    OpeningIsScan(b, ids, start, end);
    var sums := PeriodCategorySums(b.entries, ids, start, end);
    var moneyIn := Lookup(sums, PeriodKey(SalePayment, In));
    var expenses := Lookup(sums, PeriodKey(ExpenseSpend, Out));
    var handovers := Lookup(sums, PeriodKey(HandoverLeg, Out));
    var transfersIn := Lookup(sums, PeriodKey(TransferLeg, In));
    var transfersOut := Lookup(sums, PeriodKey(TransferLeg, Out));
    var totalIn := SumWhere(sums, Going(In));
    var totalOut := SumWhere(sums, Going(Out));
    row := DayBookRow(opening, moneyIn, expenses, handovers, transfersIn, transfersOut,
                      totalIn - moneyIn - transfersIn,
                      totalOut - expenses - handovers - transfersOut,
                      opening + totalIn - totalOut);
    PeriodColumns(b.entries, ids, start, end);
    ClosingScan(b.entries, ids, start, end);
    forall column ensures Cell(row, column) == Total(ids, AccountCell(b, column, start, end)) {
      AccountCellsTotal(b, ids, column, start, end);
    }
  }

  datatype BranchAccounts = BranchAccounts(branch: Option<nat>, accounts: seq<nat>)

  /** Put an account with its branch, opening a new group at the end for a branch not seen before. */
  function AddToBranch(groups: seq<BranchAccounts>, branch: Option<nat>, account: nat): seq<BranchAccounts>
  {
    if |groups| == 0 then [BranchAccounts(branch, [account])]
    else if groups[0].branch == branch then [groups[0].(accounts := groups[0].accounts + [account])] + groups[1..]
    else [groups[0]] + AddToBranch(groups[1..], branch, account)
  }

  function GroupTotal(value: nat -> int): BranchAccounts -> int {
    (group: BranchAccounts) => Total(group.accounts, value)
  }

  lemma TotalCons<T>(row: T, rows: seq<T>, column: T -> int)
    ensures Total([row] + rows, column) == column(row) + Total(rows, column)
  {
    TotalConcat([row], rows, column);
    TotalAppend([], row, column);
    assert [] + [row] == [row];
  }

  lemma {:induction false} AddToBranchTotal(groups: seq<BranchAccounts>, branch: Option<nat>, account: nat, value: nat -> int)
    ensures Total(AddToBranch(groups, branch, account), GroupTotal(value)) == Total(groups, GroupTotal(value)) + value(account)
  {
    var created := BranchAccounts(branch, [account]);
    if |groups| == 0 {
      TotalAppend([], account, value);
      assert [] + [account] == [account] && [] + [created] == [created];
      TotalAppend([], created, GroupTotal(value));
    } else {
      var rest := groups[1..];
      assert groups == [groups[0]] + rest;
      TotalCons(groups[0], rest, GroupTotal(value));
      if groups[0].branch == branch {
        var grown := groups[0].(accounts := groups[0].accounts + [account]);
        TotalAppend(groups[0].accounts, account, value);
        TotalCons(grown, rest, GroupTotal(value));
      } else {
        AddToBranchTotal(rest, branch, account, value);
        TotalCons(groups[0], AddToBranch(rest, branch, account), GroupTotal(value));
      }
    }
  }

  /** Each group holds accounts of its own branch, each account once; no branch has two groups. */
  ghost predicate GroupsByBranch(b: Books, groups: seq<BranchAccounts>, n: nat) {
    && (forall g :: 0 <= g < |groups| ==>
          && Distinct(groups[g].accounts)
          && forall a :: a in groups[g].accounts ==> a < n && a < |b.accounts| && b.accounts[a].branch == groups[g].branch)
    && (forall g, h :: 0 <= g < h < |groups| ==> groups[g].branch != groups[h].branch)
  }

  lemma {:induction false} AddToBranchGroups(b: Books, groups: seq<BranchAccounts>, n: nat)
    requires n < |b.accounts| && GroupsByBranch(b, groups, n)
    ensures GroupsByBranch(b, AddToBranch(groups, b.accounts[n].branch, n), n + 1)
    ensures forall g :: 0 <= g < |AddToBranch(groups, b.accounts[n].branch, n)| ==>
              var after := AddToBranch(groups, b.accounts[n].branch, n);
              after[g].branch == b.accounts[n].branch || exists h :: 0 <= h < |groups| && groups[h].branch == after[g].branch
  {
    var branch := b.accounts[n].branch;
    var after := AddToBranch(groups, branch, n);
    if |groups| > 0 && groups[0].branch != branch {
      var rest := groups[1..];
      AddToBranchGroups(b, rest, n);
      var grown := AddToBranch(rest, branch, n);
      assert after == [groups[0]] + grown;
      forall g | 0 <= g < |grown|
        ensures grown[g].branch != groups[0].branch
        ensures grown[g].branch == branch || exists h :: 0 <= h < |groups| && groups[h].branch == grown[g].branch
      {
        if grown[g].branch != branch {
          var h :| 0 <= h < |rest| && rest[h].branch == grown[g].branch;
          assert groups[h + 1].branch == grown[g].branch;
        }
      }
    } else if |groups| > 0 {
      assert after[0].accounts == groups[0].accounts + [n];
    }
  }

  function Numbered(n: nat): seq<nat> {
    if n == 0 then [] else Numbered(n - 1) + [n - 1]
  }

  lemma {:induction false} NumberedMeaning(n: nat)
    ensures |Numbered(n)| == n && forall i :: 0 <= i < n ==> Numbered(n)[i] == i
  {
    if n > 0 {
      NumberedMeaning(n - 1);
    }
  }

  /** The accounts grouped by branch, in the order the branches first appear. */
  method GroupAccounts(b: Books) returns (groups: seq<BranchAccounts>)
    ensures GroupsByBranch(b, groups, |b.accounts|)
    ensures forall value: nat -> int :: Total(groups, GroupTotal(value)) == Total(Numbered(|b.accounts|), value)
  {
    groups := [];
    var n: nat := 0;
    while n < |b.accounts|
      invariant 0 <= n <= |b.accounts|
      invariant GroupsByBranch(b, groups, n)
      invariant forall value: nat -> int :: Total(groups, GroupTotal(value)) == Total(Numbered(n), value)
    {
      AddToBranchGroups(b, groups, n);
      forall value: nat -> int
        ensures Total(AddToBranch(groups, b.accounts[n].branch, n), GroupTotal(value)) == Total(Numbered(n + 1), value)
      {
        AddToBranchTotal(groups, b.accounts[n].branch, n, value);
        TotalAppend<nat>(Numbered(n), n, value);
      }
      groups := AddToBranch(groups, b.accounts[n].branch, n);
      n := n + 1;
    }
  }

  /**
   The day book: one row per branch and a totals row over all accounts. The rows partition the
   totals: every column of the totals row is the sum of that column over the branch rows, and the
   totals' opening and closing are the sums of all accounts' balances as of the window's ends.
   */
  method DayBook(b: Books, dateFrom: int, dateTo: int) returns (rows: seq<DayBookRow>, groups: seq<BranchAccounts>, totals: DayBookRow)
    requires dateFrom <= dateTo
    ensures GroupsByBranch(b, groups, |b.accounts|)
    ensures |rows| == |groups|
    ensures forall g, column :: 0 <= g < |rows| ==>
      Cell(rows[g], column) == Total(groups[g].accounts, AccountCell(b, column, StartOf(dateFrom), EndOf(dateTo)))
    ensures forall column :: Cell(totals, column) == Total(rows, CellOf(column))
    ensures forall column ::
      Cell(totals, column) == Total(Numbered(|b.accounts|), AccountCell(b, column, StartOf(dateFrom), EndOf(dateTo)))
  {
    var start, end := StartOf(dateFrom), EndOf(dateTo);
    groups := GroupAccounts(b);
    rows := [];
    var g := 0;
    while g < |groups|
      invariant 0 <= g <= |groups| && |rows| == g
      invariant forall h, column :: 0 <= h < g ==>
        Cell(rows[h], column) == Total(groups[h].accounts, AccountCell(b, column, start, end))
    {
      var row := ComputeDayBookRow(b, groups[g].accounts, start, end);
      rows := rows + [row];
      g := g + 1;
    }
    NumberedMeaning(|b.accounts|);
    totals := ComputeDayBookRow(b, Numbered(|b.accounts|), start, end);
    forall column ensures Cell(totals, column) == Total(rows, CellOf(column)) {
      RowsTotal(rows, groups, AccountCell(b, column, start, end), column);
    }
  }

  lemma {:induction false} RowsTotal(rows: seq<DayBookRow>, groups: seq<BranchAccounts>, value: nat -> int, column: Column)
    requires |rows| == |groups|
    requires forall g :: 0 <= g < |rows| ==> Cell(rows[g], column) == Total(groups[g].accounts, value)
    ensures Total(rows, CellOf(column)) == Total(groups, GroupTotal(value))
  {
    if |rows| > 0 {
      RowsTotal(rows[..|rows| - 1], groups[..|groups| - 1], value, column);
    }
  }
}
