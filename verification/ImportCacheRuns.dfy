/**
 The reference cache over whole runs of committed and rolled-back rows: when every entry names an entity
 that is really there, and that a key once cached never changes its meaning.
 */
module ImportCacheRuns {
  import opened Common
  import opened ImportCache

  /** No rolled-back row of the run uses, as a warehouse name, the code of another warehouse it made. */
  ghost predicate NeverAliased(ctx: Context, options: Options, rows: seq<Row>) {
    |rows| == 0
    || (var front, last := rows[..|rows| - 1], rows[|rows| - 1];
        NeverAliased(ctx, options, front) && (last.raises ==> !Aliased(RunRows(ctx, options, front), options, last.requests)))
  }

  /**
   Over any sequence of committed and rolled-back rows, every cache entry names an entity in the store
   exactly when no rolled-back row aliases a warehouse it made. Once an entry dangles it always will.
   */
  lemma {:induction false} RunCoherentIff(ctx: Context, options: Options, rows: seq<Row>)
    requires BetweenRows(ctx) && Coherent(ctx)
    ensures BetweenRows(RunRows(ctx, options, rows))
    ensures Coherent(RunRows(ctx, options, rows)) <==> NeverAliased(ctx, options, rows)
  {
    if |rows| > 0 {
      var front, last := rows[..|rows| - 1], rows[|rows| - 1];
      var mid := RunRows(ctx, options, front);
      RunCoherentIff(ctx, options, front);
      RowGrows(mid, options, last);
      if Coherent(mid) {
        RowCoherentIff(mid, options, last);
      } else {
        var after := HandleRow(mid, options, last);
        var key :| key in mid.cache && !EntrySound(mid.store, key, mid.cache[key]);
        assert !EntrySound(after.store, key, after.cache[key]);
      }
    }
  }

  /** Rows that resolve at most one warehouse each, as the inventory import does, never leave a dangling entry. */
  lemma OneWarehousePerRow(ctx: Context, options: Options, rows: seq<Row>)
    requires BetweenRows(ctx) && Coherent(ctx)
    requires forall r :: 0 <= r < |rows| ==> OneWarehouse(rows[r].requests)
    ensures Coherent(RunRows(ctx, options, rows))
  {
    NeverAliasedAlone(ctx, options, rows);
    RunCoherentIff(ctx, options, rows);
  }

  lemma {:induction false} NeverAliasedAlone(ctx: Context, options: Options, rows: seq<Row>)
    requires forall r :: 0 <= r < |rows| ==> OneWarehouse(rows[r].requests)
    ensures NeverAliased(ctx, options, rows)
  {
    if |rows| > 0 {
      NeverAliasedAlone(ctx, options, rows[..|rows| - 1]);
      var last := rows[|rows| - 1];
      assert OneWarehouse(last.requests);
    }
  }

  lemma {:induction false} CacheStable(ctx: Context, options: Options, rows: seq<Row>)
    requires BetweenRows(ctx)
    ensures BetweenRows(RunRows(ctx, options, rows))
    ensures forall key :: key in ctx.cache ==>
              key in RunRows(ctx, options, rows).cache && RunRows(ctx, options, rows).cache[key] == ctx.cache[key]
  {
    if |rows| > 0 {
      CacheStable(ctx, options, rows[..|rows| - 1]);
      RowGrows(RunRows(ctx, options, rows[..|rows| - 1]), options, rows[|rows| - 1]);
    }
  }

  /**
   A key once cached resolves to the same entity for the rest of the run: after any further rows, and
   at any point inside a row, asking for it gives the cached identifier and changes nothing.
   */
  lemma ResolvedForever(ctx: Context, options: Options, rows: seq<Row>, requests: seq<Request>, request: Request)
    requires BetweenRows(ctx) && KeyOf(options, request) in ctx.cache && Wanted(options, request) != ""
    ensures var now := ResolveAll(RunRows(ctx, options, rows), options, requests);
            Resolve(now, options, request) == (now, Some(ctx.cache[KeyOf(options, request)]))
  {
    CacheStable(ctx, options, rows);
    ResolveAllAlong(RunRows(ctx, options, rows), options, requests);
  }

  /** Within a row too: a name just resolved resolves to the same entity until the row ends, and after if it commits. */
  lemma ResolvedTwice(start: Context, options: Options, requests: seq<Request>, request: Request)
    requires BetweenRows(start)
    ensures var (now, id) := Resolve(ResolveAll(start, options, requests), options, request);
            id.Some? ==>
              && Resolve(now, options, request) == (now, id)
              && KeyOf(options, request) in HandleRow(start, options, Row(requests + [request], false)).cache
              && HandleRow(start, options, Row(requests + [request], false)).cache[KeyOf(options, request)] == id.value
  {
    var all := requests + [request];
    assert all[..|all| - 1] == requests;
    ResolveAllAlong(start, options, requests);
    assert ResolveAll(start, options, all) == Resolve(ResolveAll(start, options, requests), options, request).0;
  }
}
