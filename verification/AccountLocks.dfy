/**
 Account row locks taken by concurrent finance transactions, as an interleaved state machine.

 Each transaction asks for row locks in the order its code does, keeps every lock to commit, and may
 ask again for a row it already holds. Account identities are ordered the way `sorted(..., key=str)`
 orders them.
 */
module AccountLocks {
  datatype Transaction =
    | CreateTransfer(from: nat, to: nat)
    | CreateExpense(account: nat)
    | CreateHandover(source: nat)
    | ConfirmHandover(destination: nat, counted: int)
    | PostInvoicePayments(accounts: seq<nat>)
    | ReverseReference(accounts: seq<nat>)

  /** `_lock_two`: both rows, the smaller identity first. */
  function LockTwo(a: nat, b: nat): seq<nat> {
    if a <= b then [a, b] else [b, a]
  }

  /**
   The row locks a transaction asks for, in order; `post_movement` locks its account again. Payments lock
   in line order, a reversal in whatever order the query returned its movements.
   */
  function Requests(t: Transaction): seq<nat> {
    match t
    case CreateTransfer(from, to) => LockTwo(from, to) + [from, to]
    case CreateExpense(account) => [account]
    case CreateHandover(source) => [source]
    case ConfirmHandover(destination, counted) => if counted > 0 then [destination] else []
    case PostInvoicePayments(accounts) => accounts
    case ReverseReference(accounts) => accounts
  }

  /** A running transaction: its requests, how many are granted, and whether it has committed. */
  datatype Running = Running(requests: seq<nat>, granted: nat, committed: bool)

  type System = seq<Running>

  function Start(ts: seq<Transaction>): System {
    seq(|ts|, i requires 0 <= i < |ts| => Running(Requests(ts[i]), 0, false))
  }

  function Held(r: Running): seq<nat>
    requires r.granted <= |r.requests|
  {
    if r.committed then [] else r.requests[..r.granted]
  }

  ghost predicate WithinBounds(s: System) {
    forall i :: 0 <= i < |s| ==> s[i].granted <= |s[i].requests|
  }

  /** A transaction can step when it can commit, or when no other transaction holds the row it asks for. */
  ghost predicate CanStep(s: System, i: nat)
    requires WithinBounds(s)
  {
    && i < |s| && !s[i].committed
    && (s[i].granted < |s[i].requests| ==>
          forall j :: 0 <= j < |s| && j != i ==> s[i].requests[s[i].granted] !in Held(s[j]))
  }

  function Stepped(r: Running): Running {
    if r.granted < |r.requests| then r.(granted := r.granted + 1) else r.(committed := true)
  }

  /** Let transaction `i` try: it advances if it can, and waits otherwise. */
  ghost function Try(s: System, i: nat): System
    requires WithinBounds(s)
  {
    if CanStep(s, i) then s[i := Stepped(s[i])] else s
  }

  ghost function RunSchedule(s: System, schedule: seq<nat>): (after: System)
    requires WithinBounds(s)
    ensures WithinBounds(after) && |after| == |s|
    decreases |schedule|
  {
    if |schedule| == 0 then s else RunSchedule(Try(s, schedule[0]), schedule[1..])
  }

  ghost predicate Finished(s: System) {
    forall i :: 0 <= i < |s| ==> s[i].committed
  }

  /** No row is held by two transactions. */
  ghost predicate Exclusive(s: System)
    requires WithinBounds(s)
  {
    forall i, j, row :: 0 <= i < |s| && 0 <= j < |s| && i != j && row in Held(s[i]) ==> row !in Held(s[j])
  }

  /** A row not asked for before is above every row asked for so far. */
  ghost predicate Ascending(requests: seq<nat>) {
    forall k :: 0 <= k < |requests| ==>
      requests[k] in requests[..k] || forall m :: 0 <= m < k ==> requests[m] < requests[k]
  }

  ghost predicate AllAscending(s: System) {
    forall i :: 0 <= i < |s| ==> Ascending(s[i].requests)
  }

  lemma OrderedRequestsAscend(t: Transaction)
    requires !t.PostInvoicePayments? && !t.ReverseReference?
    ensures Ascending(Requests(t))
  {
    var requests := Requests(t);
    if t.CreateTransfer? {
      assert |requests| == 4;
      assert requests[2] in requests[..2] by {
        assert requests[..2][0] == requests[0] && requests[..2][1] == requests[1];
      }
      assert requests[3] in requests[..3] by {
        assert requests[..3][0] == requests[0] && requests[..3][1] == requests[1];
      }
      assert requests[1] in requests[..1] || requests[0] < requests[1] by {
        assert requests[..1][0] == requests[0];
      }
    }
  }

  lemma TryKeepsExclusive(s: System, i: nat)
    requires WithinBounds(s) && Exclusive(s)
    ensures Exclusive(Try(s, i))
  {
    if CanStep(s, i) {
      var after := s[i := Stepped(s[i])];
      if s[i].granted < |s[i].requests| {
        var row := s[i].requests[s[i].granted];
        assert after[i].requests[..after[i].granted] == s[i].requests[..s[i].granted] + [row];
      }
      forall a, b, row | 0 <= a < |after| && 0 <= b < |after| && a != b && row in Held(after[a])
        ensures row !in Held(after[b])
      {
        assert a != i ==> after[a] == s[a];
        assert b != i ==> after[b] == s[b];
      }
    }
  }

  lemma {:induction false} RunKeepsInvariants(s: System, schedule: seq<nat>)
    requires WithinBounds(s) && Exclusive(s) && AllAscending(s)
    ensures Exclusive(RunSchedule(s, schedule))
    ensures AllAscending(RunSchedule(s, schedule))
    decreases |schedule|
  {
    if |schedule| > 0 {
      TryKeepsExclusive(s, schedule[0]);
      RunKeepsInvariants(Try(s, schedule[0]), schedule[1..]);
    }
  }

  /** Follow the waits upwards: each waits for a transaction that wants a larger row, so the chain ends. */
  lemma {:induction false} SomeoneCanStep(s: System, i: nat, bound: nat) returns (k: nat)
    requires WithinBounds(s) && Exclusive(s) && AllAscending(s)
    requires forall j, m :: 0 <= j < |s| && 0 <= m < |s[j].requests| ==> s[j].requests[m] < bound
    requires i < |s| && !s[i].committed
    ensures CanStep(s, k)
    decreases if s[i].granted < |s[i].requests| then bound - s[i].requests[s[i].granted] else 0
  {
    if CanStep(s, i) {
      k := i;
    } else {
      var want := s[i].requests[s[i].granted];
      var j :| 0 <= j < |s| && j != i && want in Held(s[j]);
      if CanStep(s, j) {
        k := j;
      } else {
        var next := s[j].requests[s[j].granted];
        if next in s[j].requests[..s[j].granted] {
          assert false;
        } else {
          var m :| 0 <= m < s[j].granted && s[j].requests[..s[j].granted][m] == want;
          assert s[j].requests[m] < next;
          k := SomeoneCanStep(s, j, bound);
        }
      }
    }
  }

  lemma {:induction false} BoundExists(s: System) returns (bound: nat)
    ensures forall j, m :: 0 <= j < |s| && 0 <= m < |s[j].requests| ==> s[j].requests[m] < bound
  {
    if |s| == 0 {
      bound := 0;
    } else {
      bound := BoundExists(s[..|s| - 1]);
      var last := s[|s| - 1].requests;
      var m := 0;
      var low := bound;
      while m < |last|
        invariant 0 <= m <= |last| && low <= bound
        invariant forall k :: 0 <= k < m ==> last[k] < bound
      {
        bound := if last[m] < bound then bound else last[m] + 1;
        m := m + 1;
      }
      assert forall j :: 0 <= j < |s| - 1 ==> s[..|s| - 1][j] == s[j];
    }
  }

  /**
   Deadlock freedom: however any number of transactions that ask for rows in ascending order are
   interleaved, while one is unfinished some transaction can step. Transfers, expenses, handovers and
   confirmations always do; payments and reversals when their accounts happen to ascend.
   */
  lemma DeadlockFree(ts: seq<Transaction>, schedule: seq<nat>)
    requires forall i :: 0 <= i < |ts| ==> Ascending(Requests(ts[i]))
    ensures var s := RunSchedule(Start(ts), schedule);
            !Finished(s) ==> exists k :: CanStep(s, k)
  {
    RunKeepsInvariants(Start(ts), schedule);
    var s := RunSchedule(Start(ts), schedule);
    if !Finished(s) {
      var i :| 0 <= i < |s| && !s[i].committed;
      var bound := BoundExists(s);
      var k := SomeoneCanStep(s, i, bound);
    }
  }

  /** In particular any number of transfers, expenses, handovers and confirmations never deadlock. */
  lemma OrderedKindsDeadlockFree(ts: seq<Transaction>, schedule: seq<nat>)
    requires forall i :: 0 <= i < |ts| ==> !ts[i].PostInvoicePayments? && !ts[i].ReverseReference?
    ensures var s := RunSchedule(Start(ts), schedule);
            !Finished(s) ==> exists k :: CanStep(s, k)
  {
    forall i | 0 <= i < |ts| ensures Ascending(Requests(ts[i])) {
      OrderedRequestsAscend(ts[i]);
    }
    DeadlockFree(ts, schedule);
  }

  /** Lock grants and commits still to come. */
  function Remaining(s: System): nat
  {
    if |s| == 0 then 0
    else
      var r := s[|s| - 1];
      Remaining(s[..|s| - 1]) +
      if r.committed then 0 else 1 + if r.granted < |r.requests| then |r.requests| - r.granted else 0
  }

  lemma {:induction false} StepShrinksRemaining(s: System, i: nat)
    requires i < |s| && !s[i].committed
    ensures Remaining(s[i := Stepped(s[i])]) == Remaining(s) - 1
  {
    var n := |s| - 1;
    if i == n {
      assert s[i := Stepped(s[i])][..n] == s[..n];
    } else {
      assert s[i := Stepped(s[i])][..n] == s[..n][i := Stepped(s[i])];
      StepShrinksRemaining(s[..n], i);
    }
  }

  /** From every invariant state some schedule, one step per remaining grant or commit, finishes everyone. */
  lemma {:induction false} CanAlwaysFinish(s: System) returns (schedule: seq<nat>)
    requires WithinBounds(s) && Exclusive(s) && AllAscending(s)
    ensures |schedule| <= Remaining(s)
    ensures Finished(RunSchedule(s, schedule))
    decreases Remaining(s)
  {
    if Finished(s) {
      schedule := [];
    } else {
      var i :| 0 <= i < |s| && !s[i].committed;
      var bound := BoundExists(s);
      var k := SomeoneCanStep(s, i, bound);
      StepShrinksRemaining(s, k);
      TryKeepsExclusive(s, k);
      var rest := CanAlwaysFinish(Try(s, k));
      schedule := [k] + rest;
      assert schedule[1..] == rest;
    }
  }

  /** Reached states of ordered transactions can always be driven to completion. */
  lemma EveryRunCanFinish(ts: seq<Transaction>, schedule: seq<nat>) returns (more: seq<nat>)
    requires forall i :: 0 <= i < |ts| ==> Ascending(Requests(ts[i]))
    ensures Finished(RunSchedule(RunSchedule(Start(ts), schedule), more))
  {
    RunKeepsInvariants(Start(ts), schedule);
    more := CanAlwaysFinish(RunSchedule(Start(ts), schedule));
  }

  // ---------------------------------------------------------------- exactly when transactions can deadlock

  /** Someone is unfinished and nobody can step. */
  ghost predicate Deadlocked(s: System)
    requires WithinBounds(s)
  {
    !Finished(s) && forall k :: !CanStep(s, k)
  }

  /** Where each transaction of a knot is stuck; None for a transaction outside the knot. */
  datatype Point = Outside | StuckAt(granted: nat)

  /** Transaction `i`, stuck at its point, holds these rows. */
  function PrefixAt(requests: seq<seq<nat>>, points: seq<Point>, i: nat): seq<nat> {
    if i < |requests| && i < |points| && points[i].StuckAt? && points[i].granted <= |requests[i]|
    then requests[i][..points[i].granted] else []
  }

  /** No row is asked for by two members of the knot before their points. */
  predicate Apart(requests: seq<seq<nat>>, points: seq<Point>, i: nat, j: nat) {
    i != j ==> forall row :: row in PrefixAt(requests, points, i) ==> row !in PrefixAt(requests, points, j)
  }

  /** The next row of `i` is among the rows of `j` before its point. */
  predicate WaitsFor(requests: seq<seq<nat>>, points: seq<Point>, i: nat, j: nat) {
    && i != j && i < |requests| && i < |points| && points[i].StuckAt? && points[i].granted < |requests[i]|
    && requests[i][points[i].granted] in PrefixAt(requests, points, j)
  }

  /** A member of the knot waits for another member. */
  ghost predicate Waits(requests: seq<seq<nat>>, points: seq<Point>, i: nat) {
    i < |points| && points[i].StuckAt? ==> exists j: nat :: WaitsFor(requests, points, i, j)
  }

  ghost predicate AllApart(requests: seq<seq<nat>>, points: seq<Point>) {
    forall i: nat, j: nat :: Apart(requests, points, i, j)
  }

  /**
   A knot in the request lists, read off before anything runs: some transactions and a point in each
   one's list, the rows before the points all different, each next row before another one's point.
   */
  ghost predicate Knot(requests: seq<seq<nat>>, points: seq<Point>) {
    && |points| == |requests|
    && (exists i :: 0 <= i < |points| && points[i].StuckAt?)
    && (forall i: nat :: Waits(requests, points, i))
    && AllApart(requests, points)
  }

  function RequestLists(ts: seq<Transaction>): seq<seq<nat>> {
    seq(|ts|, i requires 0 <= i < |ts| => Requests(ts[i]))
  }

  /** The request lists never change. */
  lemma {:induction false} RunKeepsRequests(s: System, schedule: seq<nat>)
    requires WithinBounds(s)
    ensures forall i :: 0 <= i < |s| ==> RunSchedule(s, schedule)[i].requests == s[i].requests
    decreases |schedule|
  {
    if |schedule| > 0 {
      RunKeepsRequests(Try(s, schedule[0]), schedule[1..]);
    }
  }

  lemma {:induction false} RunKeepsExclusive(s: System, schedule: seq<nat>)
    requires WithinBounds(s) && Exclusive(s)
    ensures Exclusive(RunSchedule(s, schedule))
    decreases |schedule|
  {
    if |schedule| > 0 {
      TryKeepsExclusive(s, schedule[0]);
      RunKeepsExclusive(Try(s, schedule[0]), schedule[1..]);
    }
  }

  /** The knot of a deadlocked state: everyone unfinished, where it is. */
  function PointsOf(s: System): seq<Point> {
    seq(|s|, i requires 0 <= i < |s| => if s[i].committed then Outside else StuckAt(s[i].granted))
  }

  lemma DeadlockIsKnot(s: System, requests: seq<seq<nat>>)
    requires WithinBounds(s) && Exclusive(s) && Deadlocked(s)
    requires |requests| == |s| && forall i :: 0 <= i < |s| ==> requests[i] == s[i].requests
    ensures Knot(requests, PointsOf(s))
  {
    var points := PointsOf(s);
    forall i: nat ensures PrefixAt(requests, points, i) == if i < |s| then Held(s[i]) else [] {}
    forall i: nat ensures Waits(requests, points, i) {
      if i < |points| && points[i].StuckAt? {
        assert !CanStep(s, i);
        var j :| 0 <= j < |s| && j != i && s[i].requests[s[i].granted] in Held(s[j]);
        assert WaitsFor(requests, points, i, j);
      }
    }
    forall i: nat, j: nat ensures Apart(requests, points, i, j) {}
    var i :| 0 <= i < |s| && !s[i].committed;
    assert points[i].StuckAt?;
  }

  // ---------------------------------------------------------------- a knot can be tied

  /** The first `n` transactions are at their points, and the next one is `m` grants on the way. */
  function Tying(requests: seq<seq<nat>>, points: seq<Point>, n: nat, m: nat): System {
    seq(|requests|, i requires 0 <= i < |requests| =>
      Running(requests[i],
              if i < n then |PrefixAt(requests, points, i)| else if i == n then m else 0, false))
  }

  lemma TyingHolds(requests: seq<seq<nat>>, points: seq<Point>, n: nat, m: nat, j: nat)
    requires |points| == |requests| && n < |requests| && m <= |PrefixAt(requests, points, n)| && j < |requests|
    ensures WithinBounds(Tying(requests, points, n, m))
    ensures Held(Tying(requests, points, n, m)[j]) <= PrefixAt(requests, points, j)
  {
  }

  /** A member of a knot gets the rows before its point one by one. */
  lemma {:induction false} TieOne(requests: seq<seq<nat>>, points: seq<Point>, n: nat, m: nat) returns (schedule: seq<nat>)
    requires |points| == |requests| && AllApart(requests, points)
    requires n < |requests| && m <= |PrefixAt(requests, points, n)|
    ensures WithinBounds(Tying(requests, points, n, m))
    ensures RunSchedule(Tying(requests, points, n, m), schedule) == Tying(requests, points, n + 1, 0)
    decreases |PrefixAt(requests, points, n)| - m
  {
    var s := Tying(requests, points, n, m);
    TyingHolds(requests, points, n, m, n);
    if m == |PrefixAt(requests, points, n)| {
      schedule := [];
      assert s == Tying(requests, points, n + 1, 0);
    } else {
      var row := requests[n][m];
      assert PrefixAt(requests, points, n)[m] == row;
      forall j | 0 <= j < |s| && j != n ensures row !in Held(s[j]) {
        TyingHolds(requests, points, n, m, j);
        assert Apart(requests, points, n, j);
      }
      assert CanStep(s, n);
      assert Try(s, n) == Tying(requests, points, n, m + 1);
      var rest := TieOne(requests, points, n, m + 1);
      schedule := [n] + rest;
      assert schedule[1..] == rest;
    }
  }

  lemma {:induction false} RunConcat(s: System, early: seq<nat>, late: seq<nat>)
    requires WithinBounds(s)
    ensures RunSchedule(s, early + late) == RunSchedule(RunSchedule(s, early), late)
    decreases |early|
  {
    if |early| == 0 {
      assert early + late == late;
    } else {
      assert (early + late)[1..] == early[1..] + late;
      RunConcat(Try(s, early[0]), early[1..], late);
    }
  }

  lemma {:induction false} TieAll(requests: seq<seq<nat>>, points: seq<Point>, n: nat) returns (schedule: seq<nat>)
    requires |points| == |requests| && AllApart(requests, points) && n <= |requests|
    ensures WithinBounds(Tying(requests, points, 0, 0))
    ensures RunSchedule(Tying(requests, points, 0, 0), schedule) == Tying(requests, points, n, 0)
  {
    if n == 0 {
      schedule := [];
    } else {
      var early := TieAll(requests, points, n - 1);
      var late := TieOne(requests, points, n - 1, 0);
      RunConcat(Tying(requests, points, 0, 0), early, late);
      schedule := early + late;
    }
  }

  /** Every member of the knot is at its point, whatever the others do. */
  ghost predicate Tied(s: System, requests: seq<seq<nat>>, points: seq<Point>) {
    && |s| == |requests| == |points|
    && forall i :: 0 <= i < |s| && points[i].StuckAt? && points[i].granted <= |requests[i]| ==>
         s[i] == Running(requests[i], points[i].granted, false)
  }

  lemma TiedCannotStep(s: System, requests: seq<seq<nat>>, points: seq<Point>, i: nat)
    requires WithinBounds(s) && Knot(requests, points) && Tied(s, requests, points)
    requires i < |s| && points[i].StuckAt?
    ensures !CanStep(s, i) && !s[i].committed
  {
    assert Waits(requests, points, i);
    var j: nat :| WaitsFor(requests, points, i, j);
    assert s[j] == Running(requests[j], points[j].granted, false);
    assert requests[i][points[i].granted] in Held(s[j]);
  }

  /** The others step until nobody can; the knot stays. */
  lemma {:induction false} TiedRunsDry(s: System, requests: seq<seq<nat>>, points: seq<Point>) returns (schedule: seq<nat>)
    requires WithinBounds(s) && Knot(requests, points) && Tied(s, requests, points)
    ensures Deadlocked(RunSchedule(s, schedule))
    decreases Remaining(s)
  {
    if exists k: nat :: CanStep(s, k) {
      var k: nat :| CanStep(s, k);
      if points[k].StuckAt? { TiedCannotStep(s, requests, points, k); }
      StepShrinksRemaining(s, k);
      var rest := TiedRunsDry(Try(s, k), requests, points);
      schedule := [k] + rest;
      assert schedule[1..] == rest;
    } else {
      schedule := [];
      var i :| 0 <= i < |points| && points[i].StuckAt?;
      TiedCannotStep(s, requests, points, i);
    }
  }

  lemma KnotDeadlocks(ts: seq<Transaction>, points: seq<Point>) returns (schedule: seq<nat>)
    requires Knot(RequestLists(ts), points)
    ensures Deadlocked(RunSchedule(Start(ts), schedule))
  {
    var requests := RequestLists(ts);
    var early := TieAll(requests, points, |ts|);
    assert Start(ts) == Tying(requests, points, 0, 0);
    var s := RunSchedule(Start(ts), early);
    var late := TiedRunsDry(s, requests, points);
    RunConcat(Start(ts), early, late);
    schedule := early + late;
  }

  ghost predicate CanDeadlock(ts: seq<Transaction>) {
    exists schedule :: Deadlocked(RunSchedule(Start(ts), schedule))
  }

  /**
   Any number of transactions of any kind, payments and reversals included, can reach a deadlock if and
   only if there is a knot in the rows they ask for.
   */
  lemma CanDeadlockIff(ts: seq<Transaction>)
    ensures CanDeadlock(ts) <==> exists points :: Knot(RequestLists(ts), points)
  {
    if schedule :| Deadlocked(RunSchedule(Start(ts), schedule)) {
      RunKeepsExclusive(Start(ts), schedule);
      RunKeepsRequests(Start(ts), schedule);
      DeadlockIsKnot(RunSchedule(Start(ts), schedule), RequestLists(ts));
    }
    if points :| Knot(RequestLists(ts), points) {
      var schedule := KnotDeadlocks(ts, points);
    }
  }

  /** Two lists cross: each has a next row that the other asked for before, and nothing before in common. */
  predicate Crosses(p: seq<nat>, q: seq<nat>, g: nat, h: nat) {
    && g < |p| && h < |q|
    && (forall row :: row in p[..g] ==> row !in q[..h])
    && p[g] in q[..h] && q[h] in p[..g]
  }

  /** For two transactions: they can deadlock if and only if their request lists cross. */
  lemma TwoCanDeadlockIff(t: Transaction, u: Transaction)
    ensures CanDeadlock([t, u]) <==> exists g, h :: Crosses(Requests(t), Requests(u), g, h)
  {
    var requests := RequestLists([t, u]);
    CanDeadlockIff([t, u]);
    if points :| Knot(requests, points) {
      KnotOfTwo(requests, points);
    }
    if g, h :| Crosses(Requests(t), Requests(u), g, h) {
      var points := [StuckAt(g), StuckAt(h)];
      CrossIsKnot(requests, g, h);
    }
  }

  lemma CrossIsKnot(requests: seq<seq<nat>>, g: nat, h: nat)
    requires |requests| == 2 && Crosses(requests[0], requests[1], g, h)
    ensures Knot(requests, [StuckAt(g), StuckAt(h)])
  {
    var points := [StuckAt(g), StuckAt(h)];
    assert PrefixAt(requests, points, 0) == requests[0][..g] && PrefixAt(requests, points, 1) == requests[1][..h];
    assert WaitsFor(requests, points, 0, 1) && WaitsFor(requests, points, 1, 0);
    assert points[0].StuckAt?;
    forall i: nat, j: nat ensures Apart(requests, points, i, j) {}
    forall i: nat ensures Waits(requests, points, i) {}
  }

  lemma KnotOfTwo(requests: seq<seq<nat>>, points: seq<Point>)
    requires |requests| == 2 && Knot(requests, points)
    ensures points[0].StuckAt? && points[1].StuckAt?
    ensures Crosses(requests[0], requests[1], points[0].granted, points[1].granted)
  {
    var i :| 0 <= i < |points| && points[i].StuckAt?;
    assert Waits(requests, points, i);
    var j: nat :| WaitsFor(requests, points, i, j);
    assert Waits(requests, points, j);
    assert Apart(requests, points, 0, 1);
    assert PrefixAt(requests, points, 0) == requests[0][..points[0].granted];
    assert PrefixAt(requests, points, 1) == requests[1][..points[1].granted];
  }

  /** Two split payments over the same two accounts, in opposite line order. */
  lemma PaymentLinesCanDeadlock(a: nat, b: nat)
    requires a != b
    ensures CanDeadlock([PostInvoicePayments([a, b]), PostInvoicePayments([b, a])])
  {
    assert [a, b][..1] == [a] && [b, a][..1] == [b];
    var t, u := PostInvoicePayments([a, b]), PostInvoicePayments([b, a]);
    assert Crosses(Requests(t), Requests(u), 1, 1);
    TwoCanDeadlockIff(t, u);
  }

  /** Reversing a transfer from the larger account to the smaller, against a new transfer between the two. */
  lemma ReversalCanDeadlock(a: nat, b: nat)
    requires a < b
    ensures CanDeadlock([ReverseReference([b, a]), CreateTransfer(a, b)])
  {
    var t, u := ReverseReference([b, a]), CreateTransfer(a, b);
    assert Requests(u) == [a, b, a, b];
    assert [b, a][..1] == [b] && [a, b, a, b][..1] == [a];
    assert Crosses(Requests(t), Requests(u), 1, 1);
    TwoCanDeadlockIff(t, u);
  }
}
