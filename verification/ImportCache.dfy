/**
 The reference cache of an import run. A name is looked up in the row's pending entries, then in the
 cache, then in the store, and may be created; what a row creates stays pending until the row commits.
 A name found in the store is cached at once, even when the row is rolled back later.

 A request that fails in the database ends its row, so a row is the requests that returned and
 whether it raised in the end.
 */
module ImportCache {
  import opened Common
  import opened Text

  datatype Kind = Warehouse | Supplier | Category | Brand

  datatype Entity = Entity(kind: Kind, name: string, code: string)

  datatype Key = Key(kind: Kind, name: string)

  /** Entities by identifier; an identifier is never used twice. */
  datatype Store = Store(entities: map<nat, Entity>, nextId: nat)

  datatype Options = Options(createWarehouses: bool, createSuppliers: bool, defaultWarehouse: string)

  datatype Context = Context(store: Store, cache: map<Key, nat>, pending: map<Key, nat>)

  datatype Request = Request(kind: Kind, name: string)

  datatype Row = Row(requests: seq<Request>, raises: bool)

  const CODE_LENGTH := 64

  function Cut(name: string): string { if |name| <= CODE_LENGTH then name else name[..CODE_LENGTH] }

  function Made(kind: Kind, name: string): Entity { Entity(kind, name, if kind.Warehouse? then Cut(name) else "") }

  /** A warehouse is found by code or by name, the others by name. */
  predicate Matches(e: Entity, kind: Kind, name: string) {
    e.kind == kind && (e.name == name || (kind.Warehouse? && e.code == name))
  }

  function FindBelow(store: Store, kind: Kind, name: string, n: nat): Option<nat> {
    if n == 0 then None
    else
      var early := FindBelow(store, kind, name, n - 1);
      if early.Some? then early
      else if n - 1 in store.entities && Matches(store.entities[n - 1], kind, name) then Some(n - 1)
      else None
  }

  /** The oldest match. */
  function Find(store: Store, kind: Kind, name: string): Option<nat> { FindBelow(store, kind, name, store.nextId) }

  function Wanted(options: Options, request: Request): string {
    var clean := Strip(request.name);
    if clean == "" && request.kind.Warehouse? then options.defaultWarehouse else clean
  }

  function KeyOf(options: Options, request: Request): Key { Key(request.kind, Lower(Wanted(options, request))) }

  predicate Creates(options: Options, kind: Kind) {
    match kind
    case Warehouse => options.createWarehouses
    case Supplier => options.createSuppliers
    case _ => true
  }

  /** A new entity stays pending until its row commits. */
  function Created(ctx: Context, kind: Kind, name: string, key: Key): Context {
    var id := ctx.store.nextId;
    ctx.(store := Store(ctx.store.entities[id := Made(kind, name)], id + 1), pending := ctx.pending[key := id])
  }

  function Resolve(ctx: Context, options: Options, request: Request): (Context, Option<nat>) {
    var name, key := Wanted(options, request), KeyOf(options, request);
    if name == "" then (ctx, None)
    else if key in ctx.pending then (ctx, Some(ctx.pending[key]))
    else if key in ctx.cache then (ctx, Some(ctx.cache[key]))
    else
      match Find(ctx.store, request.kind, name)
      case Some(id) => (ctx.(cache := ctx.cache[key := id]), Some(id))
      case None =>
        if !Creates(options, request.kind) then (ctx, None)
        else (Created(ctx, request.kind, name, key), Some(ctx.store.nextId))
  }

  function ResolveAll(ctx: Context, options: Options, requests: seq<Request>): Context {
    if |requests| == 0 then ctx
    else Resolve(ResolveAll(ctx, options, requests[..|requests| - 1]), options, requests[|requests| - 1]).0
  }

  /** The pending entries join the cache. */
  function CommitRow(ctx: Context): Context { Context(ctx.store, ctx.cache + ctx.pending, map[]) }

  /** The savepoint rolls back the store, never the identifiers; pending goes, the cache stays. */
  function RollbackRow(start: Context, ctx: Context): Context {
    Context(Store(start.store.entities, ctx.store.nextId), ctx.cache, map[])
  }

  function HandleRow(ctx: Context, options: Options, row: Row): Context {
    var done := ResolveAll(ctx, options, row.requests);
    if row.raises then RollbackRow(ctx, done) else CommitRow(done)
  }

  function RunRows(ctx: Context, options: Options, rows: seq<Row>): Context {
    if |rows| == 0 then ctx
    else HandleRow(RunRows(ctx, options, rows[..|rows| - 1]), options, rows[|rows| - 1])
  }

  // ---------------------------------------------------------------- what a request gets

  /** The name asked for: stripped, or for a warehouse the default when that leaves nothing. */
  ghost predicate AsksFor(options: Options, request: Request, name: string) {
    var clean := Strip(request.name);
    name == if clean != "" || !request.kind.Warehouse? then clean else options.defaultWarehouse
  }

  /** An entity of the kind that has the name, or is a warehouse with it as its code. */
  predicate Answers(e: Entity, kind: Kind, name: string) {
    e.kind == kind && (e.name == name || (kind == Warehouse && e.code == name))
  }

  /**
   What one request does. Nothing is asked for: nothing. The key is known in this row, or else in this run: that
   identifier, and nothing changes. Some entity answers: the oldest one, cached. Otherwise a new entity is made
   with exactly the name, pending, if the options let this kind be created; and if not, nothing.
   */
  ghost predicate ResolvedAs(ctx: Context, options: Options, request: Request, after: Context, id: Option<nat>) {
    forall name :: AsksFor(options, request, name) ==>
      var key := Key(request.kind, Lower(name));
      if name == "" then after == ctx && id == None
      else if key in ctx.pending then after == ctx && id == Some(ctx.pending[key])
      else if key in ctx.cache then after == ctx && id == Some(ctx.cache[key])
      else if Answered(ctx.store, request.kind, name) then
        && id.Some? && OldestAnswer(ctx.store, request.kind, name, id.value)
        && after == ctx.(cache := ctx.cache[key := id.value])
      else if (request.kind == Warehouse && !options.createWarehouses) || (request.kind == Supplier && !options.createSuppliers) then
        after == ctx && id == None
      else
        && id == Some(ctx.store.nextId)
        && after.cache == ctx.cache && after.pending == ctx.pending[key := ctx.store.nextId]
        && after.store.nextId == ctx.store.nextId + 1
        && after.store.entities.Keys == ctx.store.entities.Keys + {ctx.store.nextId}
        && (forall other :: other in ctx.store.entities && other != ctx.store.nextId ==>
              after.store.entities[other] == ctx.store.entities[other])
        && (var e := after.store.entities[ctx.store.nextId];
            e.kind == request.kind && e.name == name && (request.kind == Warehouse ==> e.code == name[..Min(64, |name|)]))
  }

  ghost predicate OldestAnswer(store: Store, kind: Kind, name: string, id: nat) {
    && id in store.entities && Answers(store.entities[id], kind, name)
    && forall other :: other in store.entities && other < store.nextId && Answers(store.entities[other], kind, name) ==> id <= other
  }

  ghost predicate Answered(store: Store, kind: Kind, name: string) {
    exists id :: id in store.entities && id < store.nextId && Answers(store.entities[id], kind, name)
  }

  lemma ResolveMeaning(ctx: Context, options: Options, request: Request)
    ensures ResolvedAs(ctx, options, request, Resolve(ctx, options, request).0, Resolve(ctx, options, request).1)
  {
    forall name | AsksFor(options, request, name) ensures name == Wanted(options, request) {}
    FindMeaning(ctx.store, request.kind, Wanted(options, request), ctx.store.nextId);
    var found := Find(ctx.store, request.kind, Wanted(options, request));
    assert forall e: Entity, name :: Answers(e, request.kind, name) <==> Matches(e, request.kind, name);
    assert found.Some? <==> Answered(ctx.store, request.kind, Wanted(options, request));
  }

  // ---------------------------------------------------------------- coherence

  /** The entry names an entity of its kind that is in the store, and whose name or code it is. */
  predicate EntrySound(store: Store, key: Key, id: nat) {
    && id in store.entities && store.entities[id].kind == key.kind
    && (Lower(store.entities[id].name) == key.name || (key.kind.Warehouse? && Lower(store.entities[id].code) == key.name))
  }

  predicate Coherent(ctx: Context) { forall key :: key in ctx.cache ==> EntrySound(ctx.store, key, ctx.cache[key]) }

  /** Between rows: nothing pending, and every identifier in use has been handed out. */
  predicate BetweenRows(ctx: Context) {
    && ctx.pending == map[]
    && (forall id :: id in ctx.store.entities ==> id < ctx.store.nextId)
    && (forall key :: key in ctx.cache ==> ctx.cache[key] < ctx.store.nextId)
  }

  lemma {:induction false} FindMeaning(store: Store, kind: Kind, name: string, n: nat)
    ensures var found := FindBelow(store, kind, name, n);
            && (found.Some? ==> found.value < n && found.value in store.entities && Matches(store.entities[found.value], kind, name))
            && (forall id :: id in store.entities && id < n && Matches(store.entities[id], kind, name) ==>
                  found.Some? && found.value <= id)
  {
    if n > 0 {
      FindMeaning(store, kind, name, n - 1);
    }
  }

  /** The store and the cache have only grown since the row began. */
  ghost predicate Grown(start: Context, ctx: Context) {
    && start.store.nextId <= ctx.store.nextId
    && (forall id :: id in ctx.store.entities ==> id < ctx.store.nextId)
    && (forall id :: id < start.store.nextId ==> (id in ctx.store.entities <==> id in start.store.entities))
    && (forall id :: id in start.store.entities ==> id in ctx.store.entities && ctx.store.entities[id] == start.store.entities[id])
    && (forall key :: key in start.cache ==> key in ctx.cache && ctx.cache[key] == start.cache[key])
    && (forall key :: key in ctx.cache ==> ctx.cache[key] < ctx.store.nextId)
  }

  /** What is pending was made in this row, and what was made in this row is pending. */
  ghost predicate PendingSound(start: Context, ctx: Context) {
    && (forall key :: key in ctx.pending ==> key !in ctx.cache && EntrySound(ctx.store, key, ctx.pending[key]))
    && (forall id :: id in ctx.store.entities && id >= start.store.nextId ==> PendingFor(ctx, id))
  }

  /** Where a row stands after some of its requests, against the context it began with. */
  ghost predicate Along(start: Context, ctx: Context) {
    && Grown(start, ctx)
    && PendingSound(start, ctx)
  }

  /** Made in this row: its own key is pending for it. */
  predicate PendingFor(ctx: Context, id: nat)
    requires id in ctx.store.entities
  {
    var e := ctx.store.entities[id];
    var key := Key(e.kind, Lower(e.name));
    e == Made(e.kind, e.name) && key in ctx.pending && ctx.pending[key] == id
  }

  lemma FoundAlong(start: Context, ctx: Context, key: Key, id: nat)
    requires Along(start, ctx) && key !in ctx.pending && key !in ctx.cache && id < ctx.store.nextId
    ensures Along(start, ctx.(cache := ctx.cache[key := id]))
  {
    var now := ctx.(cache := ctx.cache[key := id]);
    forall other | other in now.store.entities && other >= start.store.nextId ensures PendingFor(now, other) {
      assert PendingFor(ctx, other);
    }
  }

  lemma CreatedPending(start: Context, ctx: Context, kind: Kind, name: string, key: Key)
    requires Along(start, ctx) && key == Key(kind, Lower(name)) && key !in ctx.pending && key !in ctx.cache
    ensures PendingSound(start, Created(ctx, kind, name, key))
  {
    var now := Created(ctx, kind, name, key);
    forall id | id in now.store.entities && id >= start.store.nextId ensures PendingFor(now, id) {
      assert id in ctx.store.entities ==> PendingFor(ctx, id);
    }
    forall k | k in now.pending ensures k !in now.cache && EntrySound(now.store, k, now.pending[k]) {
      assert k in ctx.pending ==> EntrySound(ctx.store, k, ctx.pending[k]);
    }
  }

  lemma CreatedAlong(start: Context, ctx: Context, kind: Kind, name: string, key: Key)
    requires Along(start, ctx) && key == Key(kind, Lower(name)) && key !in ctx.pending && key !in ctx.cache
    ensures Along(start, Created(ctx, kind, name, key))
  {
    CreatedPending(start, ctx, kind, name, key);
  }

  lemma ResolveAlong(start: Context, ctx: Context, options: Options, request: Request)
    requires Along(start, ctx)
    ensures Along(start, Resolve(ctx, options, request).0)
  {
    var name, key := Wanted(options, request), KeyOf(options, request);
    if name != "" && key !in ctx.pending && key !in ctx.cache {
      FindMeaning(ctx.store, request.kind, name, ctx.store.nextId);
      match Find(ctx.store, request.kind, name)
      case Some(id) => FoundAlong(start, ctx, key, id);
      case None => CreatedAlong(start, ctx, request.kind, name, key);
    }
  }

  lemma ResolveCoherent(ctx: Context, options: Options, request: Request)
    requires Coherent(ctx) && forall id :: id in ctx.store.entities ==> id < ctx.store.nextId
    ensures Coherent(Resolve(ctx, options, request).0)
  {
    FindMeaning(ctx.store, request.kind, Wanted(options, request), ctx.store.nextId);
    var now := Resolve(ctx, options, request).0;
    forall key | key in now.cache ensures EntrySound(now.store, key, now.cache[key]) {
      assert key in ctx.cache ==> EntrySound(ctx.store, key, ctx.cache[key]);
    }
  }

  lemma {:induction false} ResolveAllAlong(start: Context, options: Options, requests: seq<Request>)
    requires BetweenRows(start)
    ensures Along(start, ResolveAll(start, options, requests))
    ensures Coherent(start) ==> Coherent(ResolveAll(start, options, requests))
  {
    if |requests| > 0 {
      ResolveAllAlong(start, options, requests[..|requests| - 1]);
      var ctx := ResolveAll(start, options, requests[..|requests| - 1]);
      ResolveAlong(start, ctx, options, requests[|requests| - 1]);
      if Coherent(ctx) { ResolveCoherent(ctx, options, requests[|requests| - 1]); }
    }
  }

  // ---------------------------------------------------------------- when a rolled-back row leaks

  /** The key is cached for something the row made; if the row rolls back, the entry dangles. */
  predicate Leaked(start: Context, ctx: Context, key: Key) { key in ctx.cache && ctx.cache[key] >= start.store.nextId }

  ghost predicate Leaks(start: Context, ctx: Context) { exists key :: Leaked(start, ctx, key) }

  predicate Uses(options: Options, request: Request, key: Key) { Wanted(options, request) != "" && KeyOf(options, request) == key }

  predicate FirstUse(options: Options, requests: seq<Request>, k: nat) {
    && k < |requests| && Wanted(options, requests[k]) != ""
    && forall m :: 0 <= m < k ==> !Uses(options, requests[m], KeyOf(options, requests[k]))
  }

  /** Neither cached nor in the store when the row begins. */
  predicate New(start: Context, options: Options, request: Request) {
    && KeyOf(options, request) !in start.cache
    && Find(start.store, request.kind, Wanted(options, request)).None?
  }

  /** A new warehouse, and after it another new warehouse name that is the code the first one gets. */
  predicate AliasPair(start: Context, options: Options, requests: seq<Request>, i: nat, j: nat) {
    && i < j
    && FirstUse(options, requests, i)
    && FirstUse(options, requests, j)
    && requests[i].kind.Warehouse?
    && requests[j].kind.Warehouse?
    && options.createWarehouses
    && New(start, options, requests[i])
    && New(start, options, requests[j])
    && Wanted(options, requests[j]) == Cut(Wanted(options, requests[i]))
  }

  ghost predicate Aliased(start: Context, options: Options, requests: seq<Request>) {
    exists i: nat, j: nat :: AliasPair(start, options, requests, i, j)
  }

  /** The request a new entity was made for. */
  ghost predicate Origin(start: Context, options: Options, requests: seq<Request>, e: Entity, k: nat) {
    && FirstUse(options, requests, k)
    && New(start, options, requests[k])
    && Creates(options, requests[k].kind)
    && e == Made(requests[k].kind, Wanted(options, requests[k]))
  }

  ghost predicate HasOrigin(start: Context, options: Options, requests: seq<Request>, e: Entity) {
    exists k: nat :: Origin(start, options, requests, e, k)
  }

  ghost predicate Used(options: Options, requests: seq<Request>, key: Key) {
    exists k :: 0 <= k < |requests| && Uses(options, requests[k], key)
  }

  predicate Known(ctx: Context, key: Key) { key in ctx.cache || key in ctx.pending }

  ghost predicate KeysTracked(start: Context, ctx: Context, options: Options, requests: seq<Request>) {
    && (forall key :: Known(ctx, key) ==> key in start.cache || Used(options, requests, key))
    && (forall key :: Used(options, requests, key) && Creates(options, key.kind) ==> Known(ctx, key))
  }

  ghost predicate OriginsTracked(start: Context, ctx: Context, options: Options, requests: seq<Request>) {
    forall id :: id in ctx.store.entities && id >= start.store.nextId ==>
      HasOrigin(start, options, requests, ctx.store.entities[id])
  }

  /** What the context knows after some requests: the keys used, and an origin for every new entity. */
  ghost predicate Tracked(start: Context, ctx: Context, options: Options, requests: seq<Request>) {
    && KeysTracked(start, ctx, options, requests)
    && OriginsTracked(start, ctx, options, requests)
  }

  lemma FirstUseOfFront(options: Options, requests: seq<Request>, k: nat)
    requires |requests| > 0 && k < |requests| - 1
    ensures FirstUse(options, requests, k) <==> FirstUse(options, requests[..|requests| - 1], k)
  {
    var front := requests[..|requests| - 1];
    assert forall m :: 0 <= m < |front| ==> front[m] == requests[m];
  }

  lemma OriginOfFront(start: Context, options: Options, requests: seq<Request>, e: Entity)
    requires |requests| > 0 && HasOrigin(start, options, requests[..|requests| - 1], e)
    ensures HasOrigin(start, options, requests, e)
  {
    var k: nat :| Origin(start, options, requests[..|requests| - 1], e, k);
    FirstUseOfFront(options, requests, k);
    assert Origin(start, options, requests, e, k);
  }

  lemma UsedStep(options: Options, requests: seq<Request>, key: Key)
    requires |requests| > 0
    ensures Used(options, requests, key) <==>
              Used(options, requests[..|requests| - 1], key) || Uses(options, requests[|requests| - 1], key)
  {
    var front := requests[..|requests| - 1];
    if Used(options, front, key) {
      var k :| 0 <= k < |front| && Uses(options, front[k], key);
      assert requests[k] == front[k];
    }
    if Used(options, requests, key) && !Uses(options, requests[|requests| - 1], key) {
      var k :| 0 <= k < |requests| && Uses(options, requests[k], key);
      assert requests[k] == front[k];
    }
  }

  /** A new key that neither the row nor the cache has seen yet is a first use, and new exactly when nothing old matches. */
  lemma NewKey(start: Context, ctx: Context, options: Options, requests: seq<Request>)
    requires |requests| > 0 && Along(start, ctx) && Tracked(start, ctx, options, requests[..|requests| - 1])
    requires var last := requests[|requests| - 1];
             Wanted(options, last) != "" && !Known(ctx, KeyOf(options, last)) && Creates(options, last.kind)
    ensures FirstUse(options, requests, |requests| - 1)
    ensures var last := requests[|requests| - 1];
            New(start, options, last) <==>
              match Find(ctx.store, last.kind, Wanted(options, last)) case None => true case Some(id) => id >= start.store.nextId
  {
    var front, last := requests[..|requests| - 1], requests[|requests| - 1];
    var key, name := KeyOf(options, last), Wanted(options, last);
    forall m | 0 <= m < |front| ensures !Uses(options, requests[m], key) {
      assert requests[m] == front[m];
      assert !Used(options, front, key);
    }
    FindMeaning(ctx.store, last.kind, name, ctx.store.nextId);
    FindMeaning(start.store, last.kind, name, start.store.nextId);
  }

  lemma KeysStep(start: Context, ctx: Context, options: Options, requests: seq<Request>)
    requires |requests| > 0 && Grown(start, ctx) && KeysTracked(start, ctx, options, requests[..|requests| - 1])
    ensures KeysTracked(start, Resolve(ctx, options, requests[|requests| - 1]).0, options, requests)
  {
    var last := requests[|requests| - 1];
    var now := Resolve(ctx, options, last).0;
    forall key
      ensures Known(now, key) ==> key in start.cache || Used(options, requests, key)
      ensures Used(options, requests, key) && Creates(options, key.kind) ==> Known(now, key)
    {
      UsedStep(options, requests, key);
    }
  }

  lemma OriginsStep(start: Context, ctx: Context, options: Options, requests: seq<Request>)
    requires |requests| > 0 && Along(start, ctx) && Tracked(start, ctx, options, requests[..|requests| - 1])
    ensures OriginsTracked(start, Resolve(ctx, options, requests[|requests| - 1]).0, options, requests)
  {
    var last := requests[|requests| - 1];
    var now := Resolve(ctx, options, last).0;
    forall id | id in now.store.entities && id >= start.store.nextId
      ensures HasOrigin(start, options, requests, now.store.entities[id])
    {
      if id in ctx.store.entities {
        OriginOfFront(start, options, requests, ctx.store.entities[id]);
      } else {
        NewKey(start, ctx, options, requests);
        assert Origin(start, options, requests, now.store.entities[id], |requests| - 1);
      }
    }
  }

  lemma {:induction false} AllTracked(start: Context, options: Options, requests: seq<Request>)
    requires BetweenRows(start)
    ensures Along(start, ResolveAll(start, options, requests))
    ensures Tracked(start, ResolveAll(start, options, requests), options, requests)
  {
    ResolveAllAlong(start, options, requests);
    if |requests| > 0 {
      var front := requests[..|requests| - 1];
      AllTracked(start, options, front);
      KeysStep(start, ResolveAll(start, options, front), options, requests);
      OriginsStep(start, ResolveAll(start, options, front), options, requests);
    }
  }

  /** A leak happens when a new name is found to be the code of a warehouse made earlier in the row. */
  lemma LeakStep(start: Context, ctx: Context, options: Options, requests: seq<Request>, key: Key)
    requires |requests| > 0 && Along(start, ctx) && Tracked(start, ctx, options, requests[..|requests| - 1])
    requires !Leaked(start, ctx, key) && Leaked(start, Resolve(ctx, options, requests[|requests| - 1]).0, key)
    ensures Aliased(start, options, requests)
  {
    var front, last := requests[..|requests| - 1], requests[|requests| - 1];
    var name := Wanted(options, last);
    FindMeaning(ctx.store, last.kind, name, ctx.store.nextId);
    var id := Find(ctx.store, last.kind, name).value;
    var e := ctx.store.entities[id];
    assert PendingFor(ctx, id) && HasOrigin(start, options, front, e);
    assert e.name != name;
    OriginOfFront(start, options, requests, e);
    var i: nat :| Origin(start, options, front, e, i);
    FirstUseOfFront(options, requests, i);
    NewKey(start, ctx, options, requests);
    assert AliasPair(start, options, requests, i, |requests| - 1);
  }

  lemma AliasOfFront(start: Context, options: Options, requests: seq<Request>)
    requires |requests| > 0 && Aliased(start, options, requests[..|requests| - 1])
    ensures Aliased(start, options, requests)
  {
    var front := requests[..|requests| - 1];
    var i: nat, j: nat :| AliasPair(start, options, front, i, j);
    FirstUseOfFront(options, requests, i);
    FirstUseOfFront(options, requests, j);
    assert AliasPair(start, options, requests, i, j);
  }

  lemma {:induction false} LeakMeansAlias(start: Context, options: Options, requests: seq<Request>)
    requires BetweenRows(start) && Leaks(start, ResolveAll(start, options, requests))
    ensures Aliased(start, options, requests)
  {
    if |requests| > 0 {
      var front := requests[..|requests| - 1];
      var ctx := ResolveAll(start, options, front);
      var key :| Leaked(start, ResolveAll(start, options, requests), key);
      AllTracked(start, options, front);
      if Leaked(start, ctx, key) {
        LeakMeansAlias(start, options, front);
        AliasOfFront(start, options, requests);
      } else {
        LeakStep(start, ctx, options, requests, key);
      }
    }
  }

  lemma ResolveGrown(start: Context, ctx: Context, options: Options, request: Request)
    requires Grown(start, ctx)
    ensures Grown(start, Resolve(ctx, options, request).0)
  {
    FindMeaning(ctx.store, request.kind, Wanted(options, request), ctx.store.nextId);
  }

  lemma PrefixNext(start: Context, options: Options, requests: seq<Request>, k: nat)
    requires k < |requests|
    ensures ResolveAll(start, options, requests[..k + 1])
            == Resolve(ResolveAll(start, options, requests[..k]), options, requests[k]).0
  {
    assert requests[..k + 1][..k] == requests[..k];
  }

  lemma {:induction false} PrefixGrown(start: Context, options: Options, requests: seq<Request>, n: nat)
    requires BetweenRows(start) && n <= |requests|
    ensures Grown(ResolveAll(start, options, requests[..n]), ResolveAll(start, options, requests))
  {
    if n == |requests| {
      assert requests[..n] == requests;
      ResolveAllAlong(start, options, requests);
    } else {
      var front := requests[..|requests| - 1];
      assert front[..n] == requests[..n];
      PrefixGrown(start, options, front, n);
      ResolveGrown(ResolveAll(start, options, requests[..n]), ResolveAll(start, options, front), options, requests[|requests| - 1]);
    }
  }

  /** A first use of a new key meets a context that does not know it. */
  lemma FirstUseUnknown(start: Context, options: Options, requests: seq<Request>, k: nat)
    requires BetweenRows(start) && FirstUse(options, requests, k) && New(start, options, requests[k])
    ensures !Known(ResolveAll(start, options, requests[..k]), KeyOf(options, requests[k]))
  {
    AllTracked(start, options, requests[..k]);
    assert forall m :: 0 <= m < k ==> requests[..k][m] == requests[m];
  }

  /** Somewhere in the context there is a warehouse made in this row that answers to this code. */
  ghost predicate HasCode(start: Context, ctx: Context, code: string) {
    exists id :: id in ctx.store.entities && id >= start.store.nextId && Matches(ctx.store.entities[id], Warehouse, code)
  }

  /** Asking for a new warehouse leaves one with its code behind, or leaks already. */
  lemma NewWarehouseMade(start: Context, options: Options, requests: seq<Request>, i: nat)
    requires BetweenRows(start) && FirstUse(options, requests, i) && New(start, options, requests[i])
    requires requests[i].kind.Warehouse? && options.createWarehouses
    ensures var now := ResolveAll(start, options, requests[..i + 1]);
            Leaks(start, now) || HasCode(start, now, Cut(Wanted(options, requests[i])))
  {
    var ctx := ResolveAll(start, options, requests[..i]);
    var now := Resolve(ctx, options, requests[i]).0;
    var name := Wanted(options, requests[i]);
    PrefixNext(start, options, requests, i);
    AllTracked(start, options, requests[..i]);
    FirstUseUnknown(start, options, requests, i);
    FindMeaning(ctx.store, Warehouse, name, ctx.store.nextId);
    FindMeaning(start.store, Warehouse, name, start.store.nextId);
    match Find(ctx.store, Warehouse, name)
    case Some(id) => assert Leaked(start, now, KeyOf(options, requests[i]));
    case None => assert Matches(now.store.entities[ctx.store.nextId], Warehouse, Cut(name));
  }

  lemma LeaksGrow(start: Context, early: Context, late: Context)
    requires Leaks(start, early) && Grown(early, late)
    ensures Leaks(start, late)
  {
    var key :| Leaked(start, early, key);
    assert Leaked(start, late, key);
  }

  lemma HasCodeGrows(start: Context, early: Context, late: Context, code: string)
    requires HasCode(start, early, code) && Grown(early, late)
    ensures HasCode(start, late, code)
  {
    var id :| id in early.store.entities && id >= start.store.nextId && Matches(early.store.entities[id], Warehouse, code);
    assert id in late.store.entities && late.store.entities[id] == early.store.entities[id];
  }

  /** Asking for the alias then finds that warehouse and caches it. */
  lemma AliasFound(start: Context, options: Options, requests: seq<Request>, j: nat)
    requires BetweenRows(start) && FirstUse(options, requests, j) && New(start, options, requests[j])
    requires requests[j].kind.Warehouse?
    requires HasCode(start, ResolveAll(start, options, requests[..j]), Wanted(options, requests[j]))
    ensures Leaks(start, ResolveAll(start, options, requests[..j + 1]))
  {
    PrefixNext(start, options, requests, j);
    var ctx, name := ResolveAll(start, options, requests[..j]), Wanted(options, requests[j]);
    AllTracked(start, options, requests[..j]);
    FirstUseUnknown(start, options, requests, j);
    FindMeaning(ctx.store, Warehouse, name, ctx.store.nextId);
    FindMeaning(start.store, Warehouse, name, start.store.nextId);
    assert Leaked(start, Resolve(ctx, options, requests[j]).0, KeyOf(options, requests[j]));
  }

  lemma AliasMeansLeak(start: Context, options: Options, requests: seq<Request>, i: nat, j: nat)
    requires BetweenRows(start) && AliasPair(start, options, requests, i, j)
    ensures Leaks(start, ResolveAll(start, options, requests))
  {
    hide Resolve, ResolveAll;
    var made, all := ResolveAll(start, options, requests[..i + 1]), ResolveAll(start, options, requests);
    NewWarehouseMade(start, options, requests, i);
    if Leaks(start, made) {
      PrefixGrown(start, options, requests, i + 1);
      LeaksGrow(start, made, all);
    } else {
      MadeThenFound(start, options, requests, i, j);
      PrefixGrown(start, options, requests, j + 1);
      LeaksGrow(start, ResolveAll(start, options, requests[..j + 1]), all);
    }
  }

  lemma MadeThenFound(start: Context, options: Options, requests: seq<Request>, i: nat, j: nat)
    requires BetweenRows(start) && i < j && FirstUse(options, requests, j) && New(start, options, requests[j])
    requires requests[j].kind.Warehouse?
    requires HasCode(start, ResolveAll(start, options, requests[..i + 1]), Wanted(options, requests[j]))
    ensures Leaks(start, ResolveAll(start, options, requests[..j + 1]))
  {
    BetweenPrefixes(start, options, requests, i + 1, j);
    HasCodeGrows(start, ResolveAll(start, options, requests[..i + 1]), ResolveAll(start, options, requests[..j]),
                 Wanted(options, requests[j]));
    AliasFound(start, options, requests, j);
  }

  lemma BetweenPrefixes(start: Context, options: Options, requests: seq<Request>, m: nat, n: nat)
    requires BetweenRows(start) && m <= n <= |requests|
    ensures Grown(ResolveAll(start, options, requests[..m]), ResolveAll(start, options, requests[..n]))
  {
    assert requests[..n][..m] == requests[..m];
    PrefixGrown(start, options, requests[..n], m);
  }

  /**
   A row that commits keeps the cache coherent. A row that is rolled back keeps it coherent exactly when
   no warehouse name in it is the code of another warehouse the row made: otherwise that name stays
   cached for a warehouse that no longer exists.
   */
  lemma RowCoherentIff(ctx: Context, options: Options, row: Row)
    requires BetweenRows(ctx) && Coherent(ctx)
    ensures Coherent(HandleRow(ctx, options, row)) <==> !row.raises || !Aliased(ctx, options, row.requests)
  {
    var done, after := ResolveAll(ctx, options, row.requests), HandleRow(ctx, options, row);
    ResolveAllAlong(ctx, options, row.requests);
    if row.raises {
      RolledBackCoherentIff(ctx, done, after);
      if Leaks(ctx, done) { LeakMeansAlias(ctx, options, row.requests); }
      if Aliased(ctx, options, row.requests) {
        var i: nat, j: nat :| AliasPair(ctx, options, row.requests, i, j);
        AliasMeansLeak(ctx, options, row.requests, i, j);
      }
    } else {
      forall key | key in after.cache ensures EntrySound(after.store, key, after.cache[key]) {
        assert key in done.pending || (key in done.cache && EntrySound(done.store, key, done.cache[key]));
      }
    }
  }

  lemma RolledBackCoherentIff(start: Context, done: Context, after: Context)
    requires Along(start, done) && Coherent(done)
    requires forall id :: id in start.store.entities ==> id < start.store.nextId
    requires after == RollbackRow(start, done)
    ensures Coherent(after) <==> !Leaks(start, done)
  {
    forall key | key in done.cache
      ensures EntrySound(after.store, key, done.cache[key]) <==> !Leaked(start, done, key)
    {
      assert EntrySound(done.store, key, done.cache[key]);
    }
    if Leaks(start, done) {
      var key :| Leaked(start, done, key);
      assert !EntrySound(after.store, key, after.cache[key]);
    }
    if !Leaks(start, done) {
      forall key | key in after.cache ensures EntrySound(after.store, key, after.cache[key]) {
        assert !Leaked(start, done, key);
      }
    }
  }

  function Repeat(c: char, n: nat): string { seq(n, _ => c) }

  lemma TwoRequests(ctx: Context, options: Options, a: Request, b: Request)
    ensures ResolveAll(ctx, options, [a, b]) == Resolve(Resolve(ctx, options, a).0, options, b).0
  {
    assert ResolveAll(ctx, options, [a]) == Resolve(ctx, options, a).0 by { assert [a][..0] == []; }
    assert [a, b][..1] == [a];
  }

  lemma AliasResolves(options: Options, ctx: Context, long: string, short: string)
    requires ctx == Context(Store(map[], 0), map[], map[]) && options.createWarehouses
    requires Strip(long) == long && Strip(short) == short && short == Cut(long) && 0 < |short| < |long|
    ensures var made := Resolve(ctx, options, Request(Warehouse, long)).0;
            Resolve(made, options, Request(Warehouse, short)).0 == made.(cache := map[Key(Warehouse, Lower(short)) := 0])
  {
    assert Lower(long) != Lower(short);
    var made := Resolve(ctx, options, Request(Warehouse, long)).0;
    assert made == Created(ctx, Warehouse, long, Key(Warehouse, Lower(long)));
    FindMeaning(made.store, Warehouse, short, 1);
    assert Matches(made.store.entities[0], Warehouse, short);
  }

  /** The condition is needed: a 65-letter name, then its first 64 letters, in a row that fails. */
  lemma AliasDangles(options: Options, ctx: Context, after: Context)
    requires ctx == Context(Store(map[], 0), map[], map[]) && options.createWarehouses
    requires after == HandleRow(ctx, options, Row([Request(Warehouse, Repeat('a', 65)), Request(Warehouse, Repeat('a', 64))], true))
    ensures after.store.entities == map[]
    ensures Key(Warehouse, Repeat('a', 64)) in after.cache
    ensures !Coherent(after)
  {
    var long, short := Repeat('a', 65), Repeat('a', 64);
    assert Cut(long) == short && Lower(short) == short;
    AliasResolves(options, ctx, long, short);
    TwoRequests(ctx, options, Request(Warehouse, long), Request(Warehouse, short));
    var key := Key(Warehouse, short);
    assert after.cache == map[key := 0];
    assert key in after.cache && !EntrySound(after.store, key, after.cache[key]);
  }

  /** Any row, coherent or not: the cache only grows, and an entity that is gone stays gone. */
  lemma RowGrows(ctx: Context, options: Options, row: Row)
    requires BetweenRows(ctx)
    ensures var after := HandleRow(ctx, options, row);
            && BetweenRows(after)
            && ctx.store.nextId <= after.store.nextId
            && (forall key :: key in ctx.cache ==> key in after.cache && after.cache[key] == ctx.cache[key])
            && (forall id :: id < ctx.store.nextId ==> (id in after.store.entities <==> id in ctx.store.entities))
            && (forall id :: id in ctx.store.entities ==> after.store.entities[id] == ctx.store.entities[id])
  {
    ResolveAllAlong(ctx, options, row.requests);
    var done := ResolveAll(ctx, options, row.requests);
    assert forall key :: key in done.pending ==> EntrySound(done.store, key, done.pending[key]);
  }

  predicate OneWarehouse(requests: seq<Request>) {
    forall i, j :: 0 <= i < j < |requests| ==> !requests[i].kind.Warehouse? || !requests[j].kind.Warehouse?
  }
}
