/**
 The import service: the reference tables, the per-run context over them, and the row handler that the
 synchronous retry and the background runner share.
 */
module ImportService {
  import opened Common
  import opened Text
  import opened ImportCache

  /** The reference tables. Identifiers are handed out in order and never again. */
  class Repository {
    var entities: map<nat, Entity>
    var nextId: nat

    function State(): Store
      reads this
    {
      Store(entities, nextId)
    }

    constructor ()
      ensures State() == Store(map[], 0)
    {
      entities, nextId := map[], 0;
    }

    /** The oldest match, scanning the table. */
    method Find(kind: Kind, name: string) returns (found: Option<nat>)
      ensures found == ImportCache.Find(State(), kind, name)
      ensures found.Some? ==> found.value in entities && Answers(entities[found.value], kind, name)
      ensures forall id :: id in entities && id < nextId && Answers(entities[id], kind, name) ==> found.Some? && found.value <= id
    {
      FindMeaning(State(), kind, name, nextId);
      var id := 0;
      while id < nextId
        invariant 0 <= id <= nextId
        invariant FindBelow(State(), kind, name, id) == None
      {
        if id in entities && Matches(entities[id], kind, name) {
          FoundFirst(State(), kind, name, id, nextId);
          return Some(id);
        }
        id := id + 1;
      }
      return None;
    }

    method Create(kind: Kind, name: string) returns (id: nat)
      modifies this
      ensures id == old(nextId)
      ensures State() == Store(old(entities)[id := Made(kind, name)], id + 1)
      ensures entities[id].kind == kind && entities[id].name == name
    {
      id := nextId;
      entities := entities[id := Made(kind, name)];
      nextId := nextId + 1;
    }
  }

  lemma {:induction false} FoundFirst(store: Store, kind: Kind, name: string, id: nat, n: nat)
    requires id < n && FindBelow(store, kind, name, id) == None
    requires id in store.entities && Matches(store.entities[id], kind, name)
    ensures FindBelow(store, kind, name, n) == Some(id)
  {
    if id < n - 1 {
      FoundFirst(store, kind, name, id, n - 1);
    }
  }

  class ImportContext {
    const repo: Repository
    const options: Options
    var cache: map<Key, nat>
    var pending: map<Key, nat>

    function State(): Context
      reads this, repo
    {
      Context(repo.State(), cache, pending)
    }

    constructor (repo: Repository, options: Options)
      ensures this.repo == repo
      ensures this.options == options
      ensures State() == Context(repo.State(), map[], map[])
    {
      this.repo, this.options := repo, options;
      cache, pending := map[], map[];
    }

    method CommitRow()
      modifies this
      ensures State() == ImportCache.CommitRow(old(State()))
      ensures pending == map[] && cache.Keys == old(cache).Keys + old(pending).Keys
      ensures forall key :: key in cache ==> cache[key] == if key in old(pending) then old(pending)[key] else old(cache)[key]
    {
      cache := cache + pending;
      pending := map[];
    }

    method RollbackRow()
      modifies this`pending
      ensures pending == map[]
    {
      pending := map[];
    }

    /** Pending first, then the cache. */
    function Get(key: Key): Option<nat>
      reads this
    {
      if key in pending then Some(pending[key]) else if key in cache then Some(cache[key]) else None
    }

    method ResolveWarehouse(name: string) returns (id: Option<nat>)
      modifies this, repo
      ensures (State(), id) == Resolve(old(State()), options, Request(Warehouse, name))
      ensures ResolvedAs(old(State()), options, Request(Warehouse, name), State(), id)
    {
      hide ResolvedAs;
      ResolveMeaning(State(), options, Request(Warehouse, name));
      var clean := Strip(name);
      if clean == "" { clean := options.defaultWarehouse; }
      if clean == "" { return None; }
      var key := Key(Warehouse, Lower(clean));
      var hit := Get(key);
      if hit.Some? { return hit; }
      id := repo.Find(Warehouse, clean);
      if id.Some? {
        cache := cache[key := id.value];
        return;
      }
      if !options.createWarehouses { return None; }
      var made := repo.Create(Warehouse, clean);
      pending := pending[key := made];
      return Some(made);
    }

    method ResolveSupplier(name: string) returns (id: Option<nat>)
      modifies this, repo
      ensures (State(), id) == Resolve(old(State()), options, Request(Supplier, name))
      ensures ResolvedAs(old(State()), options, Request(Supplier, name), State(), id)
    {
      hide ResolvedAs;
      ResolveMeaning(State(), options, Request(Supplier, name));
      var clean := Strip(name);
      if clean == "" { return None; }
      var key := Key(Supplier, Lower(clean));
      var hit := Get(key);
      if hit.Some? { return hit; }
      id := repo.Find(Supplier, clean);
      if id.Some? {
        cache := cache[key := id.value];
        return;
      }
      if !options.createSuppliers { return None; }
      var made := repo.Create(Supplier, clean);
      pending := pending[key := made];
      return Some(made);
    }

    method GetOrCreateTaxonomy(kind: Kind, name: string) returns (id: Option<nat>)
      requires kind.Category? || kind.Brand?
      modifies this, repo
      ensures (State(), id) == Resolve(old(State()), options, Request(kind, name))
      ensures ResolvedAs(old(State()), options, Request(kind, name), State(), id)
    {
      hide ResolvedAs;
      ResolveMeaning(State(), options, Request(kind, name));
      var clean := Strip(name);
      if clean == "" { return None; }
      var key := Key(kind, Lower(clean));
      var hit := Get(key);
      if hit.Some? { return hit; }
      var existing := repo.Find(kind, clean);
      if existing.Some? {
        cache := cache[key := existing.value];
        return existing;
      }
      var made := repo.Create(kind, clean);
      pending := pending[key := made];
      return Some(made);
    }
  }
}
