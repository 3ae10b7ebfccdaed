/**
 Opening stock written by an import, and the rollback that undoes it: refused when any other movement
 touched an affected inventory row, otherwise an exact inverse.
 */
module ImportStock {
  import opened Common
  import opened Sums
  import opened Stock

  function SetInitialStock(s: Stock, job: nat, key: Key, quantity: int): Stock {
    Write(s, InitialImport, key, quantity, Imported(job))
  }

  predicate FromJob(m: Move, job: nat) { m.source == Imported(job) }

  /** The inventory rows the job's movements touch. */
  function Affected(moves: seq<Move>, job: nat): set<Key> {
    set i | 0 <= i < |moves| && FromJob(moves[i], job) :: moves[i].key
  }

  /** The job's summed quantity on one inventory row. */
  function JobQuantity(job: nat, key: Key): Move -> int {
    (m: Move) => if FromJob(m, job) && m.key == key then m.quantity else 0
  }

  /** Any movement on the row that is not this job's, reservations included. */
  predicate OtherMovementExists(moves: seq<Move>, key: Key, job: nat) {
    exists i :: 0 <= i < |moves| && moves[i].key == key && !FromJob(moves[i], job)
  }

  function WithoutJob(moves: seq<Move>, job: nat): seq<Move> {
    if |moves| == 0 then []
    else
      var last := moves[|moves| - 1];
      WithoutJob(moves[..|moves| - 1], job) + if FromJob(last, job) then [] else [last]
  }

  function Undone(s: Stock, job: nat): map<Key, Row> {
    map key | key in s.rows ::
      var row := s.rows[key];
      if key in Affected(s.moves, job)
      then row.(onHand := row.onHand - Total(s.moves, JobQuantity(job, key)), version := row.version + 1)
      else row
  }

  predicate MovedIn(moves: seq<Move>, products: set<nat>) {
    exists i :: 0 <= i < |moves| && moves[i].key.product in products
  }

  predicate HeldIn(holds: seq<Hold>, products: set<nat>) {
    exists i :: 0 <= i < |holds| && holds[i].key.product in products
  }

  /**
   Undo a job's stock, then hard-delete the products it created: their inventory rows go with them,
   and a movement, a reservation or a document that still names one stops the whole.
   */
  function Rollback(s: Stock, job: nat, created: set<nat>, referenced: set<nat>): Outcome<Stock, Error> {
    if exists key :: key in Affected(s.moves, job) && OtherMovementExists(s.moves, key, job) then Err(StockMovedSince)
    else
      var moves := WithoutJob(s.moves, job);
      if created * referenced != {}
         || MovedIn(moves, created)
         || HeldIn(s.holds, created)
      then Err(StillReferenced)
      else
        var undone := Undone(s, job);
        Ok(s.(products := s.products - created,
              rows := map key | key in undone && key.product !in created :: undone[key],
              moves := moves))
  }

  /** Nothing but the job has moved or held stock on the rows it touched. */
  ghost predicate OnlyJobTouched(moves: seq<Move>, job: nat) {
    forall i, j :: 0 <= i < |moves| && 0 <= j < |moves| && FromJob(moves[i], job) && moves[j].key == moves[i].key ==>
      FromJob(moves[j], job)
  }

  /** No document, hold or other movement names a product of the job's. */
  ghost predicate Unnamed(s: Stock, job: nat, created: set<nat>, referenced: set<nat>) {
    && created * referenced == {}
    && !(exists i :: 0 <= i < |s.moves| && s.moves[i].key.product in created && !FromJob(s.moves[i], job))
    && !HeldIn(s.holds, created)
  }

  /**
   A rollback is accepted exactly when nothing else touched the rows the job did, and nothing else names a
   product it created. It then takes away those products, the job's movements and, from each affected row
   that stays, the job's quantity; nothing else changes.
   */
  lemma RollbackIff(s: Stock, job: nat, created: set<nat>, referenced: set<nat>)
    ensures Rollback(s, job, created, referenced).Ok? <==> OnlyJobTouched(s.moves, job) && Unnamed(s, job, created, referenced)
    ensures Rollback(s, job, created, referenced).Ok? ==>
              var t := Rollback(s, job, created, referenced).value;
              && t.products == s.products - created
              && t.warehouses == s.warehouses && t.holds == s.holds
              && (forall m :: m in t.moves <==> m in s.moves && !FromJob(m, job))
              && (forall key :: key in t.rows <==> key in s.rows && key.product !in created)
              && (forall key :: key in t.rows ==>
                    && t.rows[key].onHand == s.rows[key].onHand - Total(s.moves, JobQuantity(job, key))
                    && t.rows[key].reserved == s.rows[key].reserved && t.rows[key].damaged == s.rows[key].damaged
                    && t.rows[key].version == s.rows[key].version + if key in Affected(s.moves, job) then 1 else 0)
  {
    var moves := WithoutJob(s.moves, job);
    forall m ensures m in moves <==> m in s.moves && !FromJob(m, job) { WithoutJobMembers(s.moves, job, m); }
    RollbackOkIff(s, job, created, referenced);
    if Rollback(s, job, created, referenced).Ok? {
      var t := Rollback(s, job, created, referenced).value;
      forall key | key in t.rows
        ensures t.rows[key].onHand == s.rows[key].onHand - Total(s.moves, JobQuantity(job, key))
      {
        if key !in Affected(s.moves, job) {
          forall i | 0 <= i < |s.moves| ensures JobQuantity(job, key)(s.moves[i]) == 0 { AffectedMeaning(s.moves, job, i); }
          TotalZero(s.moves, JobQuantity(job, key));
        }
      }
    }
  }

  lemma RollbackOkIff(s: Stock, job: nat, created: set<nat>, referenced: set<nat>)
    ensures Rollback(s, job, created, referenced).Ok? <==> OnlyJobTouched(s.moves, job) && Unnamed(s, job, created, referenced)
  {
    hide OnlyJobTouched, Unnamed, OtherMovementExists, Affected, WithoutJob, Undone;
    TouchedMeaning(s, job);
    UnnamedMeaning(s, job, created, referenced);
  }

  lemma TouchedMeaning(s: Stock, job: nat)
    ensures OnlyJobTouched(s.moves, job) <==>
            !exists key :: key in Affected(s.moves, job) && OtherMovementExists(s.moves, key, job)
  {
    if i, j :| 0 <= i < |s.moves| && 0 <= j < |s.moves| && FromJob(s.moves[i], job) && s.moves[j].key == s.moves[i].key
               && !FromJob(s.moves[j], job) {
      AffectedMeaning(s.moves, job, i);
      assert OtherMovementExists(s.moves, s.moves[i].key, job);
    }
  }

  lemma UnnamedMeaning(s: Stock, job: nat, created: set<nat>, referenced: set<nat>)
    ensures var moves := WithoutJob(s.moves, job);
            Unnamed(s, job, created, referenced) <==>
              && created * referenced == {}
              && !MovedIn(moves, created)
              && !HeldIn(s.holds, created)
  {
    var moves := WithoutJob(s.moves, job);
    forall m ensures m in moves <==> m in s.moves && !FromJob(m, job) { WithoutJobMembers(s.moves, job, m); }
    LeftoverMeaning(s.moves, moves, job, created);
  }

  lemma LeftoverMeaning(moves: seq<Move>, left: seq<Move>, job: nat, created: set<nat>)
    requires forall m :: m in left <==> m in moves && !FromJob(m, job)
    ensures MovedIn(left, created) <==>
            (exists i :: 0 <= i < |moves| && moves[i].key.product in created && !FromJob(moves[i], job))
  {
    if i :| 0 <= i < |left| && left[i].key.product in created {
      assert left[i] in left;
      var k :| 0 <= k < |moves| && moves[k] == left[i];
    }
    if i :| 0 <= i < |moves| && moves[i].key.product in created && !FromJob(moves[i], job) {
      assert moves[i] in moves && moves[i] in left;
      var k :| 0 <= k < |left| && left[k] == moves[i];
    }
  }

  // ---------------------------------------------------------------- an exact inverse

  /** The ledger of one inventory row. */
  function MovesAt(moves: seq<Move>, key: Key): seq<Move> {
    if |moves| == 0 then []
    else
      var last := moves[|moves| - 1];
      MovesAt(moves[..|moves| - 1], key) + if last.key == key then [last] else []
  }

  /** Removing the job's movements takes their cells out of every column ... */
  lemma {:induction false} WithoutJobTotals(moves: seq<Move>, job: nat, column: Move -> int)
    requires forall i :: 0 <= i < |moves| && FromJob(moves[i], job) ==> column(moves[i]) == 0
    ensures Total(WithoutJob(moves, job), column) == Total(moves, column)
  {
    if |moves| > 0 {
      var rest, last := WithoutJob(moves[..|moves| - 1], job), moves[|moves| - 1];
      WithoutJobTotals(moves[..|moves| - 1], job, column);
      if FromJob(last, job) {
        assert WithoutJob(moves, job) == rest;
      } else {
        TotalAppend(rest, last, column);
      }
    }
  }

  /** ... keeps exactly the other movements ... */
  lemma {:induction false} WithoutJobMembers(moves: seq<Move>, job: nat, m: Move)
    ensures m in WithoutJob(moves, job) <==> m in moves && !FromJob(m, job)
  {
    if |moves| > 0 {
      var front, last := moves[..|moves| - 1], moves[|moves| - 1];
      WithoutJobMembers(front, job, m);
      assert moves == front + [last];
    }
  }

  /** ... leaves alone the ledger of a row that is not the job's at all ... */
  lemma {:induction false} WithoutJobElsewhere(moves: seq<Move>, job: nat, key: Key)
    requires forall i :: 0 <= i < |moves| && moves[i].key == key ==> !FromJob(moves[i], job)
    ensures MovesAt(WithoutJob(moves, job), key) == MovesAt(moves, key)
  {
    if |moves| > 0 {
      var rest, last := WithoutJob(moves[..|moves| - 1], job), moves[|moves| - 1];
      WithoutJobElsewhere(moves[..|moves| - 1], job, key);
      MovesAtAppend(rest, last, key);
      assert rest + [] == rest;
    }
  }

  /** ... and empties the ledger of a row that is only the job's. */
  lemma {:induction false} WithoutJobAlone(moves: seq<Move>, job: nat, key: Key)
    requires forall i :: 0 <= i < |moves| && moves[i].key == key ==> FromJob(moves[i], job)
    ensures MovesAt(WithoutJob(moves, job), key) == []
  {
    if |moves| > 0 {
      var rest, last := WithoutJob(moves[..|moves| - 1], job), moves[|moves| - 1];
      WithoutJobAlone(moves[..|moves| - 1], job, key);
      MovesAtAppend(rest, last, key);
      assert rest + [] == rest;
    }
  }

  lemma MovesAtAppend(moves: seq<Move>, m: Move, key: Key)
    ensures MovesAt(moves + [m], key) == MovesAt(moves, key) + if m.key == key then [m] else []
  {
    assert (moves + [m])[..|moves|] == moves;
  }

  lemma AffectedMeaning(moves: seq<Move>, job: nat, i: nat)
    requires i < |moves|
    ensures FromJob(moves[i], job) ==> moves[i].key in Affected(moves, job)
  {
  }

  /** On an affected row that passed the guard every movement is the job's. */
  lemma GuardMeans(s: Stock, job: nat, key: Key)
    requires StockSound(s) && key in Affected(s.moves, job) && !OtherMovementExists(s.moves, key, job)
    ensures OnHand(s, key) == Total(s.moves, JobQuantity(job, key))
    ensures Reserved(s, key) == 0
    ensures MovesAt(WithoutJob(s.moves, job), key) == []
    ensures Net(s, Imported(job), key) == Total(s.moves, JobQuantity(job, key))
  {
    assert RowSound(s, key);
    forall i: nat | i < |s.moves|
      ensures GoodsAt(key)(s.moves[i]) == JobQuantity(job, key)(s.moves[i]) == GoodsFrom(Imported(job), key)(s.moves[i])
      ensures HoldsAt(key)(s.moves[i]) == 0
    {
      assert TagSound(s, i);
    }
    TotalCongruent(s.moves, GoodsAt(key), JobQuantity(job, key));
    TotalCongruent(s.moves, GoodsFrom(Imported(job), key), JobQuantity(job, key));
    TotalZero(s.moves, HoldsAt(key));
    WithoutJobAlone(s.moves, job, key);
  }

  /** One row through a rollback: an affected row ends empty, with an empty ledger; any other is unchanged. */
  lemma RollbackRow(s: Stock, job: nat, created: set<nat>, referenced: set<nat>, t: Stock, key: Key)
    requires StockSound(s) && Rollback(s, job, created, referenced) == Ok(t)
    ensures key in Affected(s.moves, job) ==>
              OnHand(t, key) == 0 && Reserved(t, key) == 0 && Reserved(s, key) == 0 && MovesAt(t.moves, key) == []
    ensures key !in Affected(s.moves, job) ==>
              OnHand(t, key) == OnHand(s, key) && Reserved(t, key) == Reserved(s, key)
              && MovesAt(t.moves, key) == MovesAt(s.moves, key)
    ensures key !in Affected(s.moves, job) && key.product in created ==> OnHand(s, key) == 0 && Reserved(s, key) == 0
    ensures Damaged(t, key) == if key.product in created then 0 else Damaged(s, key)
  {
    assert RowSound(s, key);
    if key in Affected(s.moves, job) {
      GuardMeans(s, job, key);
    } else {
      forall i | 0 <= i < |s.moves| && s.moves[i].key == key ensures !FromJob(s.moves[i], job) {
        AffectedMeaning(s.moves, job, i);
      }
      WithoutJobTotals(s.moves, job, GoodsAt(key));
      WithoutJobElsewhere(s.moves, job, key);
      if key.product in created {
        TotalZero(WithoutJob(s.moves, job), GoodsAt(key));
        TotalZero(s.holds, HeldAt(key));
      }
    }
  }

  /**
   A rollback that passes its guard keeps the stock sound exactly when no surviving affected row has
   damaged goods on it; no modelled service records any. Holds need no check of their own: a
   hold leaves a reserve movement on the row, and the guard refuses.
   */
  lemma RollbackSoundIff(s: Stock, job: nat, created: set<nat>, referenced: set<nat>, t: Stock)
    requires StockSound(s) && Rollback(s, job, created, referenced) == Ok(t)
    ensures Spares(s, t, JobDoc(job))
    ensures StockSound(t) <==> forall key :: key in Affected(s.moves, job) && key.product !in created ==> Damaged(s, key) == 0
  {
    forall source: Source, key: Key | SourceOwner(source) != JobDoc(job) && !source.Manual?
      ensures SameNet(s, t, source, key)
    {
      WithoutJobTotals(s.moves, job, GoodsFrom(source, key));
    }
    forall key
      ensures RowSound(t, key) <==> (key in Affected(s.moves, job) && key.product !in created ==> Damaged(s, key) == 0)
    {
      assert RowSound(s, key);
      RollbackRow(s, job, created, referenced, t, key);
      RollbackTotals(s, job, key);
    }
    RollbackKeepsTags(s, job, created, referenced, t);
  }

  lemma RollbackKeepsTags(s: Stock, job: nat, created: set<nat>, referenced: set<nat>, t: Stock)
    requires StockSound(s) && Rollback(s, job, created, referenced) == Ok(t)
    ensures HoldsSound(t) && TagsSound(t)
  {
    forall i: nat, j: nat ensures HoldSound(t, i, j) { assert HoldSound(s, i, j); }
    forall i: nat ensures TagSound(t, i) {
      if i < |t.moves| {
        WithoutJobMembers(s.moves, job, t.moves[i]);
        var j: nat :| j < |s.moves| && s.moves[j] == t.moves[i];
        assert TagSound(s, j);
      }
    }
  }

  lemma RollbackTotals(s: Stock, job: nat, key: Key)
    requires TagsSound(s)
    ensures Total(WithoutJob(s.moves, job), HoldsAt(key)) == Total(s.moves, HoldsAt(key))
    ensures key !in Affected(s.moves, job) ==> Total(WithoutJob(s.moves, job), GoodsAt(key)) == Total(s.moves, GoodsAt(key))
    ensures key in Affected(s.moves, job) && !OtherMovementExists(s.moves, key, job) ==>
              Total(WithoutJob(s.moves, job), GoodsAt(key)) == 0
  {
    forall i: nat | i < |s.moves| && FromJob(s.moves[i], job) ensures HoldsAt(key)(s.moves[i]) == 0 {
      assert TagSound(s, i);
    }
    WithoutJobTotals(s.moves, job, HoldsAt(key));
    if key !in Affected(s.moves, job) {
      forall i | 0 <= i < |s.moves| && FromJob(s.moves[i], job) ensures GoodsAt(key)(s.moves[i]) == 0 {
        AffectedMeaning(s.moves, job, i);
      }
      WithoutJobTotals(s.moves, job, GoodsAt(key));
    } else if !OtherMovementExists(s.moves, key, job) {
      var left := WithoutJob(s.moves, job);
      forall i | 0 <= i < |left| ensures GoodsAt(key)(left[i]) == 0 {
        WithoutJobMembers(s.moves, job, left[i]);
        var j :| 0 <= j < |s.moves| && s.moves[j] == left[i];
      }
      TotalZero(left, GoodsAt(key));
    }
  }

  /** A row's ledger is the movements on it, and appending to the whole only appends to it. */
  lemma {:induction false} MovesAtMembers(moves: seq<Move>, key: Key, m: Move)
    ensures m in MovesAt(moves, key) <==> m in moves && m.key == key
  {
    if |moves| > 0 {
      var front, last := moves[..|moves| - 1], moves[|moves| - 1];
      MovesAtMembers(front, key, m);
      assert moves == front + [last];
    }
  }

  lemma {:induction false} MovesAtMonotone(early: seq<Move>, late: seq<Move>, key: Key)
    requires early <= late
    ensures MovesAt(early, key) <= MovesAt(late, key)
    decreases |late|
  {
    if |early| == |late| {
      assert early == late;
    } else {
      MovesAtMonotone(early, late[..|late| - 1], key);
    }
  }

  lemma OtherBlocksRollback(s: Stock, job: nat, created: set<nat>, referenced: set<nat>, key: Key, m: Move)
    requires key in Affected(s.moves, job) && m in MovesAt(s.moves, key) && !FromJob(m, job)
    ensures Rollback(s, job, created, referenced) == Err(StockMovedSince)
  {
    MovesAtMembers(s.moves, key, m);
    var i :| 0 <= i < |s.moves| && s.moves[i] == m;
    assert OtherMovementExists(s.moves, key, job);
  }

  lemma EmptyLedgerEmptyRow(s: Stock, key: Key)
    requires StockSound(s) && MovesAt(s.moves, key) == []
    ensures OnHand(s, key) == 0
  {
    forall i | 0 <= i < |s.moves| ensures GoodsAt(key)(s.moves[i]) == 0 {
      MovesAtMembers(s.moves, key, s.moves[i]);
    }
    TotalZero(s.moves, GoodsAt(key));
    assert RowSound(s, key);
  }

  /**
   Rollback is a true inverse: if the row's ledger still starts with what it was before the job's first
   write and that write, a rollback that passes its guard puts on-hand and ledger back to before it,
   whatever else has run in between.
   */
  lemma RollbackInverse(before: Stock, s: Stock, job: nat, created: set<nat>, referenced: set<nat>, t: Stock, key: Key, first: Move)
    requires StockSound(before) && StockSound(s)
    requires forall m :: m in MovesAt(before.moves, key) ==> !FromJob(m, job)
    requires FromJob(first, job) && first.key == key && MovesAt(before.moves, key) + [first] <= MovesAt(s.moves, key)
    requires Rollback(s, job, created, referenced) == Ok(t)
    ensures OnHand(t, key) == OnHand(before, key)
    ensures MovesAt(t.moves, key) == MovesAt(before.moves, key)
  {
    var ledger := MovesAt(before.moves, key) + [first];
    assert ledger[|ledger| - 1] == first && first in MovesAt(s.moves, key);
    MovesAtMembers(s.moves, key, first);
    var i: nat :| i < |s.moves| && s.moves[i] == first;
    AffectedMeaning(s.moves, job, i);
    if MovesAt(before.moves, key) != [] {
      var m := ledger[0];
      assert m in MovesAt(before.moves, key) && m in MovesAt(s.moves, key);
      OtherBlocksRollback(s, job, created, referenced, key, m);
    }
    EmptyLedgerEmptyRow(before, key);
    RollbackRow(s, job, created, referenced, t, key);
  }
}
