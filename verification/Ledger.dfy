/**
 The append-only account-movement ledger: posting, reversing, and the theory of reversals.

 A movement's identity is its position in the ledger. Money is counted in units of 1/10000
 (the NUMERIC(18,4) columns), so every amount is an integer.
 */
module Ledger {
  import opened Common
  import opened Sums

  datatype Direction = In | Out

  datatype Category = SalePayment | ExpenseSpend | TransferLeg | HandoverLeg | OtherCategory(name: string)

  datatype Reference =
    | NoReference
    | InvoicePayment(invoice: nat)
    | ExpenseRef(expense: nat)
    | TransferRef(transfer: nat)
    | HandoverRef(handover: nat)

  datatype Movement = Movement(
    account: nat,
    direction: Direction,
    amount: int,
    occurredAt: int,
    category: Category,
    reference: Reference,
    reversalOf: Option<nat>)

  datatype AccountType = Cash | Bank | MobileMoney | Custody

  datatype Account = Account(kind: AccountType, branch: Option<nat>, opening: int, active: bool)

  datatype Error =
    | NotFound
    | NotPositive
    | Inactive
    | SameAccount
    | BranchRequired
    | WrongBranch
    | NegativeOpening
    | UnmappedMethod
    | UnknownMethod
    | ReasonRequired
    | NameRequired
    | AlreadyReversed
    | NotPending
    | NegativeAmount

  type Entries = seq<Movement>

  // ---------------------------------------------------------------- columns

  function Signed(m: Movement): int {
    if m.direction.In? then m.amount else -m.amount
  }

  function SignedColumn(): Movement -> int {
    (m: Movement) => Signed(m)
  }

  function InOf(account: nat): Movement -> int {
    (m: Movement) => if m.account == account && m.direction.In? then m.amount else 0
  }

  function OutOf(account: nat): Movement -> int {
    (m: Movement) => if m.account == account && m.direction.Out? then m.amount else 0
  }

  function SignedOn(account: nat): Movement -> int {
    (m: Movement) => if m.account == account then Signed(m) else 0
  }

  function SignedFor(reference: Reference): Movement -> int {
    (m: Movement) => if m.reference == reference then Signed(m) else 0
  }

  function SignedForOn(reference: Reference, account: nat): Movement -> int {
    (m: Movement) => if m.reference == reference && m.account == account then Signed(m) else 0
  }

  // ---------------------------------------------------------------- posting

  /** The single append-only writer. */
  function PostMovement(accounts: seq<Account>, entries: Entries, m: Movement): Outcome<Entries, Error>
  {
    if m.amount <= 0 then Err(NotPositive)
    else if m.account >= |accounts| then Err(NotFound)
    else if !accounts[m.account].active then Err(Inactive)
    else Ok(entries + [m])
  }

  function Opposite(d: Direction): Direction {
    if d.In? then Out else In
  }

  /** The movement that cancels movement `id`. */
  function Mirror(entries: Entries, id: nat, now: int): Movement
    requires id < |entries|
  {
    entries[id].(direction := Opposite(entries[id].direction), occurredAt := now, reversalOf := Some(id))
  }

  function ReverseMovement(accounts: seq<Account>, entries: Entries, id: nat, now: int): Outcome<Entries, Error>
  {
    if id >= |entries| then Err(NotFound)
    else PostMovement(accounts, entries, Mirror(entries, id, now))
  }

  /** Every movement identity some reversal points at. */
  function ReversedIds(entries: Entries): set<nat>
  {
    if |entries| == 0 then {}
    else
      var last := entries[|entries| - 1];
      ReversedIds(entries[..|entries| - 1]) + if last.reversalOf.Some? then {last.reversalOf.value} else {}
  }

  /** An original that no reversal has cancelled. */
  predicate IsOpen(entries: Entries, id: nat)
  {
    id < |entries| && entries[id].reversalOf.None? && id !in ReversedIds(entries)
  }

  /** The open originals of a source document, in ledger order. */
  function Unreversed(entries: Entries, reference: Reference): seq<nat> {
    OpenAmong(entries, reference, ReversedIds(entries))
  }

  function OpenAmong(entries: Entries, reference: Reference, reversed: set<nat>): seq<nat>
  {
    if |entries| == 0 then []
    else
      var n := |entries| - 1;
      OpenAmong(entries[..n], reference, reversed) +
      if entries[n].reference == reference && entries[n].reversalOf.None? && n !in reversed then [n] else []
  }

  function ReverseEach(accounts: seq<Account>, entries: Entries, ids: seq<nat>, now: int): Outcome<Entries, Error>
    decreases |ids|
  {
    if |ids| == 0 then Ok(entries)
    else
      var posted :- ReverseMovement(accounts, entries, ids[0], now);
      ReverseEach(accounts, posted, ids[1..], now)
  }

  /** Reverse every not-yet-reversed movement tied to a source document. */
  function ReverseReference(accounts: seq<Account>, entries: Entries, reference: Reference, now: int)
    : Outcome<Entries, Error>
  {
    ReverseEach(accounts, entries, Unreversed(entries, reference), now)
  }

  // ---------------------------------------------------------------- well-formed reversals

  predicate Mirrors(reversal: Movement, original: Movement)
  {
    && reversal.account == original.account
    && reversal.amount == original.amount
    && reversal.reference == original.reference
    && reversal.category == original.category
    && reversal.direction != original.direction
  }

  /** Each reversal mirrors an earlier original, and no original is reversed twice. */
  ghost predicate WellReversed(entries: Entries)
  {
    && (forall j :: 0 <= j < |entries| && entries[j].reversalOf.Some? ==>
          && entries[j].reversalOf.value < j
          && entries[entries[j].reversalOf.value].reversalOf.None?
          && Mirrors(entries[j], entries[entries[j].reversalOf.value]))
    && (forall j, k :: 0 <= j < k < |entries| && entries[j].reversalOf.Some? ==>
          entries[j].reversalOf != entries[k].reversalOf)
  }

  lemma {:induction false} ReversedIdsMeaning(entries: Entries, id: nat)
    ensures id in ReversedIds(entries)
            <==> (exists j :: 0 <= j < |entries| && entries[j].reversalOf == Some(id))
  {
    if |entries| > 0 {
      var front := entries[..|entries| - 1];
      ReversedIdsMeaning(front, id);
      if id in ReversedIds(front) {
        var j :| 0 <= j < |front| && front[j].reversalOf == Some(id);
        assert entries[j].reversalOf == Some(id);
      }
      if id in ReversedIds(entries) && id !in ReversedIds(front) {
        assert entries[|entries| - 1].reversalOf == Some(id);
      }
    }
  }

  lemma {:induction false} OpenAmongMeaning(entries: Entries, reference: Reference, reversed: set<nat>, id: nat)
    ensures id in OpenAmong(entries, reference, reversed) <==>
            (id < |entries| && entries[id].reference == reference && entries[id].reversalOf.None? && id !in reversed)
  {
    if |entries| > 0 {
      var n := |entries| - 1;
      OpenAmongMeaning(entries[..n], reference, reversed, id);
      var last := if entries[n].reference == reference && entries[n].reversalOf.None? && n !in reversed then [n] else [];
      assert OpenAmong(entries, reference, reversed) == OpenAmong(entries[..n], reference, reversed) + last;
      assert id in last <==> id == n && last != [];
      assert id in OpenAmong(entries, reference, reversed) <==> id in OpenAmong(entries[..n], reference, reversed) || id in last;
      if id < n {
        assert entries[..n][id] == entries[id];
      }
    }
  }

  ghost predicate Increasing(ids: seq<nat>) {
    forall j, k :: 0 <= j < k < |ids| ==> ids[j] < ids[k]
  }

  lemma {:induction false} OpenAmongIncreasing(entries: Entries, reference: Reference, reversed: set<nat>)
    ensures Increasing(OpenAmong(entries, reference, reversed))
  {
    if |entries| > 0 {
      var n := |entries| - 1;
      OpenAmongIncreasing(entries[..n], reference, reversed);
      var ids := OpenAmong(entries[..n], reference, reversed);
      forall k | 0 <= k < |ids| ensures ids[k] < n {
        assert ids[k] in ids;
        OpenAmongMeaning(entries[..n], reference, reversed, ids[k]);
      }
      assert Increasing(ids + [n]);
      assert ids + [] == ids;
    }
  }

  /** What `unreversed_for_reference` returns: exactly the open originals of the document, each once. */
  lemma UnreversedMeaning(entries: Entries, reference: Reference)
    ensures Increasing(Unreversed(entries, reference))
    ensures forall id: nat ::
              id in Unreversed(entries, reference) <==> (IsOpen(entries, id) && entries[id].reference == reference)
  {
    OpenAmongIncreasing(entries, reference, ReversedIds(entries));
    forall id: nat
      ensures id in Unreversed(entries, reference) <==> (IsOpen(entries, id) && entries[id].reference == reference)
    {
      OpenAmongMeaning(entries, reference, ReversedIds(entries), id);
    }
  }

  // ---------------------------------------------------------------- reversals cancel

  /** The sum of a column over the open originals only. */
  function OpenTotal(entries: Entries, reversed: set<nat>, column: Movement -> int): int
  {
    if |entries| == 0 then 0
    else
      var n := |entries| - 1;
      OpenTotal(entries[..n], reversed, column) +
      if entries[n].reversalOf.None? && n !in reversed then column(entries[n]) else 0
  }

  /** Closing one original removes exactly its cell from the open total. */
  lemma {:induction false} OpenTotalClose(entries: Entries, reversed: set<nat>, id: nat, column: Movement -> int)
    requires id !in reversed
    ensures OpenTotal(entries, reversed + {id}, column) == OpenTotal(entries, reversed, column) -
            if id < |entries| && entries[id].reversalOf.None? then column(entries[id]) else 0
  {
    if |entries| > 0 {
      OpenTotalClose(entries[..|entries| - 1], reversed, id, column);
    }
  }

  lemma {:induction false} OpenTotalZero(entries: Entries, reversed: set<nat>, column: Movement -> int)
    requires forall i :: 0 <= i < |entries| && entries[i].reversalOf.None? && i !in reversed ==> column(entries[i]) == 0
    ensures OpenTotal(entries, reversed, column) == 0
  {
    if |entries| > 0 {
      OpenTotalZero(entries[..|entries| - 1], reversed, column);
    }
  }

  lemma WellReversedPrefix(entries: Entries, n: nat)
    requires WellReversed(entries) && n <= |entries|
    ensures WellReversed(entries[..n])
  {
  }

  /** A reversal and the movement it cancels contribute opposite cells. */
  ghost predicate Odd(entries: Entries, column: Movement -> int)
  {
    forall i, j :: 0 <= i < |entries| && 0 <= j < |entries| && Mirrors(entries[j], entries[i]) ==>
      column(entries[j]) == -column(entries[i])
  }

  /** The last row reverses nothing: it joins the open originals. */
  lemma OriginalOpens(entries: Entries, column: Movement -> int)
    requires WellReversed(entries) && |entries| > 0 && entries[|entries| - 1].reversalOf.None?
    ensures var n := |entries| - 1;
            OpenTotal(entries, ReversedIds(entries), column)
            == OpenTotal(entries[..n], ReversedIds(entries[..n]), column) + column(entries[n])
  {
    var n := |entries| - 1;
    ReversedIdsMeaning(entries[..n], n);
    assert ReversedIds(entries) == ReversedIds(entries[..n]);
  }

  /** The last row is a reversal: it closes the original it cancels. */
  lemma ReversalCloses(entries: Entries, column: Movement -> int)
    requires WellReversed(entries) && Odd(entries, column)
    requires |entries| > 0 && entries[|entries| - 1].reversalOf.Some?
    ensures var n := |entries| - 1;
            OpenTotal(entries, ReversedIds(entries), column)
            == OpenTotal(entries[..n], ReversedIds(entries[..n]), column) + column(entries[n])
  {
    var n := |entries| - 1;
    var front, id := entries[..n], entries[n].reversalOf.value;
    ReversedIdsMeaning(front, id);
    assert Mirrors(entries[n], entries[id]);
    OpenTotalClose(front, ReversedIds(front), id, column);
    assert ReversedIds(entries) == ReversedIds(front) + {id};
  }

  /**
   In a well-reversed ledger the whole ledger and its open originals have the same sum:
   every reversal is matched with the one original it cancels.
   */
  lemma {:induction false} ReversalsCancel(entries: Entries, column: Movement -> int)
    requires WellReversed(entries)
    requires Odd(entries, column)
    ensures Total(entries, column) == OpenTotal(entries, ReversedIds(entries), column)
  {
    if |entries| > 0 {
      var n := |entries| - 1;
      WellReversedPrefix(entries, n);
      ReversalsCancel(entries[..n], column);
      if entries[n].reversalOf.Some? {
        ReversalCloses(entries, column);
      } else {
        OriginalOpens(entries, column);
      }
    }
  }

  // ---------------------------------------------------------------- exactly-once reversal

  function Mirrored(entries: Entries, ids: seq<nat>, now: int): Entries
    requires forall k :: 0 <= k < |ids| ==> ids[k] < |entries|
  {
    seq(|ids|, k requires 0 <= k < |ids| => Mirror(entries, ids[k], now))
  }

  /** A successful batch of reversals appends one mirror per identity and nothing else. */
  lemma {:induction false} ReverseEachShape(accounts: seq<Account>, entries: Entries, ids: seq<nat>, now: int)
    requires forall k :: 0 <= k < |ids| ==> ids[k] < |entries|
    requires ReverseEach(accounts, entries, ids, now).Ok?
    ensures ReverseEach(accounts, entries, ids, now).value == entries + Mirrored(entries, ids, now)
    ensures forall k :: 0 <= k < |ids| ==>
              entries[ids[k]].amount > 0 && entries[ids[k]].account < |accounts|
              && accounts[entries[ids[k]].account].active
    decreases |ids|
  {
    if |ids| > 0 {
      var posted := entries + [Mirror(entries, ids[0], now)];
      var rest := ids[1..];
      assert ReverseEach(accounts, entries, ids, now) == ReverseEach(accounts, posted, rest, now);
      ReverseEachShape(accounts, posted, rest, now);
      assert forall k :: 0 <= k < |rest| ==> rest[k] == ids[k + 1] && posted[rest[k]] == entries[ids[k + 1]];
      assert Mirrored(entries, ids, now) == [Mirror(entries, ids[0], now)] + Mirrored(posted, rest, now);
      assert entries + Mirrored(entries, ids, now) == posted + Mirrored(posted, rest, now);
      forall k | 0 < k < |ids|
        ensures entries[ids[k]].amount > 0 && entries[ids[k]].account < |accounts|
                && accounts[entries[ids[k]].account].active
      {
        assert posted[rest[k - 1]] == entries[ids[k]];
      }
    } else {
      assert entries + Mirrored(entries, ids, now) == entries;
    }
  }

  lemma {:induction false} ReversedIdsConcat(entries: Entries, more: Entries)
    ensures ReversedIds(entries + more) == ReversedIds(entries) + ReversedIds(more)
  {
    if |more| == 0 {
      assert entries + more == entries;
    } else {
      var front := more[..|more| - 1];
      assert (entries + more)[..|entries + more| - 1] == entries + front;
      ReversedIdsConcat(entries, front);
    }
  }

  /** Appending mirrors of distinct open originals keeps the reversal relation well formed. */
  lemma MirroredWellReversed(entries: Entries, ids: seq<nat>, now: int)
    requires WellReversed(entries)
    requires forall k :: 0 <= k < |ids| ==> IsOpen(entries, ids[k])
    requires Increasing(ids)
    ensures (forall k :: 0 <= k < |ids| ==> ids[k] < |entries|)
    ensures WellReversed(entries + Mirrored(entries, ids, now))
  {
    assert forall k :: 0 <= k < |ids| ==> ids[k] < |entries|;
    var after := entries + Mirrored(entries, ids, now);
    var n := |entries|;
    assert forall j :: n <= j < |after| ==> after[j] == Mirror(entries, ids[j - n], now);
    forall j, k | 0 <= j < k < |after| && after[j].reversalOf.Some?
      ensures after[j].reversalOf != after[k].reversalOf
    {
      if j < n <= k {
        ReversedIdsMeaning(entries, ids[k - n]);
        assert entries[j].reversalOf != Some(ids[k - n]);
      }
    }
  }

  /** After the mirrors are appended, exactly the mirrored identities are newly closed. */
  lemma MirroredCloses(entries: Entries, ids: seq<nat>, now: int, id: nat)
    requires forall k :: 0 <= k < |ids| ==> ids[k] < |entries|
    ensures IsOpen(entries + Mirrored(entries, ids, now), id) <==> IsOpen(entries, id) && id !in ids
  {
    var more := Mirrored(entries, ids, now);
    ReversedIdsConcat(entries, more);
    ReversedIdsMeaning(more, id);
    if id in ids {
      var k :| 0 <= k < |ids| && ids[k] == id;
      assert more[k].reversalOf == Some(id);
    }
  }

  lemma EmptyIff(ids: seq<nat>)
    ensures ids == [] <==> forall id: nat :: id !in ids
  {
    if |ids| > 0 {
      assert ids[0] in ids;
    }
  }

  /**
   Reversing a document: the reversal relation stays injective and mirror-shaped, the document
   nets to zero on every account, nothing is left to reverse (so a second call posts nothing),
   and no other document is touched.
   */
  lemma ReverseReferenceExactlyOnce(accounts: seq<Account>, entries: Entries, reference: Reference, now: int, later: int)
    requires WellReversed(entries)
    requires ReverseReference(accounts, entries, reference, now).Ok?
    ensures var after := ReverseReference(accounts, entries, reference, now).value;
            && WellReversed(after)
            && entries <= after
            && Unreversed(after, reference) == []
            && ReverseReference(accounts, after, reference, later) == Ok(after)
            && Total(after, SignedFor(reference)) == 0
            && (forall account: nat :: Total(after, SignedForOn(reference, account)) == 0)
            && (forall id: nat :: id < |entries| && entries[id].reference != reference ==>
                  (IsOpen(after, id) <==> IsOpen(entries, id)))
  {
    var ids := Unreversed(entries, reference);
    UnreversedMeaning(entries, reference);
    assert forall k :: 0 <= k < |ids| ==> ids[k] in ids;
    ReverseEachShape(accounts, entries, ids, now);
    var after := entries + Mirrored(entries, ids, now);
    MirroredWellReversed(entries, ids, now);
    forall id: nat ensures IsOpen(after, id) <==> IsOpen(entries, id) && id !in ids {
      MirroredCloses(entries, ids, now, id);
    }
    UnreversedMeaning(after, reference);
    EmptyIff(Unreversed(after, reference));
    DocumentNetsToZero(after, reference);
  }

  /**
   The rows a reversal appends: each cancels one earlier row of the document, with the same account, amount
   and category, the other direction and the date of the reversal.
   */
  lemma ReverseReferenceRows(accounts: seq<Account>, entries: Entries, reference: Reference, now: int)
    requires ReverseReference(accounts, entries, reference, now).Ok?
    ensures var after := ReverseReference(accounts, entries, reference, now).value;
            && entries <= after
            && forall j :: |entries| <= j < |after| ==>
                 && after[j].reference == reference
                 && after[j].reversalOf.Some?
                 && after[j].amount > 0
                 && after[j].account < |accounts|
                 && after[j].occurredAt == now
                 && after[j].reversalOf.value < |entries|
                 && Mirrors(after[j], entries[after[j].reversalOf.value])
  {
    var ids := Unreversed(entries, reference);
    UnreversedMeaning(entries, reference);
    assert forall k :: 0 <= k < |ids| ==> ids[k] in ids;
    ReverseEachShape(accounts, entries, ids, now);
    var more := Mirrored(entries, ids, now);
    assert forall k :: 0 <= k < |ids| ==> more[k] == Mirror(entries, ids[k], now);
  }

  /** No open original is the document's. */
  ghost predicate NoneOpen(entries: Entries, reference: Reference) {
    forall i: nat :: IsOpen(entries, i) ==> entries[i].reference != reference
  }

  /** Then a column that only the document's movements fill, with opposite cells for mirrors, sums to zero. */
  lemma ColumnNetsToZero(entries: Entries, reference: Reference, column: Movement -> int)
    requires WellReversed(entries) && NoneOpen(entries, reference) && Odd(entries, column)
    requires forall i :: 0 <= i < |entries| && entries[i].reference != reference ==> column(entries[i]) == 0
    ensures Total(entries, column) == 0
  {
    forall i | 0 <= i < |entries| && entries[i].reversalOf.None? && i !in ReversedIds(entries)
      ensures column(entries[i]) == 0
    {
      assert IsOpen(entries, i);
    }
    ReversalsCancel(entries, column);
    OpenTotalZero(entries, ReversedIds(entries), column);
  }

  /** With nothing left open, a document contributes nothing, in all and on each account. */
  lemma DocumentNetsToZero(entries: Entries, reference: Reference)
    requires WellReversed(entries)
    requires Unreversed(entries, reference) == []
    ensures Total(entries, SignedFor(reference)) == 0
    ensures forall account: nat :: Total(entries, SignedForOn(reference, account)) == 0
  {
    UnreversedMeaning(entries, reference);
    assert NoneOpen(entries, reference) by {
      forall i: nat | IsOpen(entries, i) ensures entries[i].reference != reference {
        assert i !in Unreversed(entries, reference);
      }
    }
    ColumnNetsToZero(entries, reference, SignedFor(reference));
    forall account: nat ensures Total(entries, SignedForOn(reference, account)) == 0 {
      ColumnNetsToZero(entries, reference, SignedForOn(reference, account));
    }
  }

  /**
   `reverse_movement` itself has no guard: called directly it keeps the reversal relation
   well formed exactly when its target is an open original.
   */
  lemma DirectReversalIsSafeIff(accounts: seq<Account>, entries: Entries, id: nat, now: int)
    requires WellReversed(entries)
    requires ReverseMovement(accounts, entries, id, now).Ok?
    ensures WellReversed(ReverseMovement(accounts, entries, id, now).value) <==> IsOpen(entries, id)
  {
    var after := entries + [Mirror(entries, id, now)];
    ReversedIdsMeaning(entries, id);
    var n := |entries|;
    assert after[n].reversalOf == Some(id);
    assert after[id] == entries[id];
    if id in ReversedIds(entries) {
      var j :| 0 <= j < |entries| && entries[j].reversalOf == Some(id);
      assert after[j].reversalOf == after[n].reversalOf;
    }
  }
}
