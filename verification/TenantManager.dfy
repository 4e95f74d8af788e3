/**
 The tenant manager's cache: entries with an expiry time and, beside them, a list of tenant ids in
 insertion order that eviction goes by. Times are integers; each operation is one atomic step.
 */
module TenantManager {
  import opened IdLists

  datatype Entry<S> = Entry(state: S, expiry: int)

  datatype Cache<S> = Cache(entries: map<string, Entry<S>>, order: seq<string>)

  predicate IsExpired<S>(e: Entry<S>, now: int) {
    now > e.expiry
  }

  function Expired<S>(entries: map<string, Entry<S>>, now: int): set<string> {
    set id | id in entries && IsExpired(entries[id], now)
  }

  /** The members of `ids` in the list, in list order. */
  function Filter(order: seq<string>, ids: set<string>): seq<string> {
    if order == [] then [] else (if order[0] in ids then [order[0]] else []) + Filter(order[1..], ids)
  }

  function Elems(order: seq<string>): set<string> {
    set id | id in order
  }

  function AfterInvalidate<S>(c: Cache<S>, id: string): Cache<S> {
    Cache(c.entries - {id}, RemoveFirst(c.order, id))
  }

  function AfterCleanup<S>(c: Cache<S>, now: int): Cache<S> {
    var gone := Expired(c.entries, now);
    var kept := c.entries - gone;
    Cache(kept, if gone == {} then c.order else Filter(c.order, kept.Keys))
  }

  /**
   The tenant listed at `i` is cached and has expired when scan `t` looks at it. The clock is read anew for
   every entry: `clock(t, i)` is its reading in scan `t` at position `i`.
   */
  predicate Stale<S>(c: Cache<S>, clock: (int, int) -> int, t: nat, i: nat)
    requires i < |c.order|
  {
    c.order[i] in c.entries && IsExpired(c.entries[c.order[i]], clock(t, i))
  }

  /** Where a scan of the list comes upon an expired entry; the length of the list if it does not. */
  function FirstExpired<S>(c: Cache<S>, clock: (int, int) -> int, t: nat, from: nat): (i: nat)
    requires from <= |c.order|
    ensures from <= i <= |c.order|
    decreases |c.order| - from
  {
    if from == |c.order| || Stale(c, clock, t, from) then from else FirstExpired(c, clock, t, from + 1)
  }

  lemma {:induction false} FirstExpiredIs<S>(c: Cache<S>, clock: (int, int) -> int, t: nat, from: nat)
    requires from <= |c.order|
    ensures var i := FirstExpired(c, clock, t, from);
            (i < |c.order| ==> Stale(c, clock, t, i)) && forall j :: from <= j < i ==> !Stale(c, clock, t, j)
    decreases |c.order| - from
  {
    if from < |c.order| && !Stale(c, clock, t, from) { FirstExpiredIs(c, clock, t, from + 1); }
  }

  /** One eviction. Whichever entry goes, it is the head of the list that is dropped. */
  function AfterEvict<S>(c: Cache<S>, clock: (int, int) -> int, t: nat): Cache<S> {
    if c.order == [] then c
    else
      var i := FirstExpired(c, clock, t, 0);
      Cache(c.entries - {c.order[if i < |c.order| then i else 0]}, c.order[1..])
  }

  predicate OverLimit<S>(c: Cache<S>, limit: int) {
    limit > 0 && |c.entries| > limit
  }

  /** Evicting until within the limit; None when it never gets there. */
  function AfterMakeRoom<S>(c: Cache<S>, clock: (int, int) -> int, t: nat, limit: int): Option<Cache<S>>
    decreases |c.order|
  {
    if !OverLimit(c, limit) then Some(c)
    else if c.order == [] then None
    else AfterMakeRoom(AfterEvict(c, clock, t), clock, t + 1, limit)
  }

  datatype CleanupResult = Removed(count: nat) | Panic

  class Manager<S> {
    var cache: map<string, Entry<S>>
    var cacheOrder: seq<string>
    const ttl: int
    const limit: int

    function State(): Cache<S>
      reads this
    {
      Cache(cache, cacheOrder)
    }

    constructor (ttl: int, limit: int)
      ensures State() == Cache(map[], [])
      ensures this.ttl == ttl && this.limit == limit
    {
      cache, cacheOrder := map[], [];
      this.ttl, this.limit := ttl, limit;
    }

    /** `provisioned` is what the provisioning calls came to, None if one of them failed. */
    method SetupTenant(id: string, now: int, provisioned: Option<S>, storedAt: int) returns (r: Option<S>)
      modifies this
      ensures var c := old(State());
              if id in c.entries && !IsExpired(c.entries[id], now) then State() == c && r == Some(c.entries[id].state)
              else if provisioned.None? then State() == c && r == None
              else State() == AfterSetup(c, id, Entry(provisioned.value, storedAt + ttl)) && r == provisioned
    {
      if id in cache && !IsExpired(cache[id], now) {
        return Some(cache[id].state);
      }
      if provisioned.Some? {
        cache := cache[id := Entry(provisioned.value, storedAt + ttl)];
        cacheOrder := cacheOrder + [id];
      }
      return provisioned;
    }

    method InvalidateCache(id: string)
      modifies this
      ensures State() == AfterInvalidate(old(State()), id)
    {
      cache := cache - {id};
      cacheOrder := DropFirst(cacheOrder, id);
    }

    method GetTenantState(id: string, now: int) returns (r: Option<S>)
      modifies this
      ensures var c := old(State());
              if id !in c.entries then r == None && State() == c
              else if IsExpired(c.entries[id], now) then r == None && State() == AfterInvalidate(c, id)
              else r == Some(c.entries[id].state) && State() == c
    {
      if id !in cache {
        return None;
      }
      if IsExpired(cache[id], now) {
        InvalidateCache(id);
        return None;
      }
      return Some(cache[id].state);
    }

    method RemoveTenant(id: string) returns (found: bool)
      modifies this
      ensures found == (id in old(cache))
      ensures State() == if found then AfterInvalidate(old(State()), id) else old(State())
    {
      if id !in cache {
        return false;
      }
      cache := cache - {id};
      cacheOrder := DropFirst(cacheOrder, id);
      return true;
    }

    method DeleteExpired(now: int) returns (removed: nat)
      modifies this`cache
      ensures cache == old(cache) - Expired(old(cache), now)
      ensures removed == |Expired(old(cache), now)|
    {
      removed := 0;
      ghost var gone := Expired(cache, now);
      var ids := cache.Keys;
      while ids != {}
        invariant ids <= old(cache).Keys
        invariant cache == old(cache) - (gone - ids)
        invariant removed == |gone - ids|
      {
        var id :| id in ids;
        PassOne(old(cache), gone, ids, id);
        assert id in gone <==> IsExpired(cache[id], now);
        if IsExpired(cache[id], now) {
          cache := cache - {id};
          removed := removed + 1;
        }
        ids := ids - {id};
      }
      assert gone - {} == gone;
    }

    method RebuildOrder()
      modifies this`cacheOrder
      ensures cacheOrder == Filter(old(cacheOrder), cache.Keys)
    {
      var newOrder := [];
      for i := 0 to |cacheOrder|
        invariant newOrder + Filter(cacheOrder[i..], cache.Keys) == Filter(cacheOrder, cache.Keys)
      {
        assert cacheOrder[i..][1..] == cacheOrder[i + 1..];
        if cacheOrder[i] in cache {
          newOrder := newOrder + [cacheOrder[i]];
        }
      }
      cacheOrder := newOrder;
    }

    /** Making the new list asks for `len(cacheOrder) - removed` slots, which panics when that is negative. */
    method CleanupExpiredCache(now: int) returns (r: CleanupResult)
      modifies this
      ensures var c, gone := old(State()), Expired(old(cache), now);
              if |gone| > |c.order| then r == Panic && State() == Cache(c.entries - gone, c.order)
              else r == Removed(|gone|) && State() == AfterCleanup(c, now)
    {
      var removed := DeleteExpired(now);
      if removed > |cacheOrder| {
        return Panic;
      }
      if removed > 0 {
        RebuildOrder();
      }
      return Removed(removed);
    }

    method EvictOldestEvicted(clock: (int, int) -> int, t: nat)
      modifies this
      ensures State() == AfterEvict(old(State()), clock, t)
    {
      for i := 0 to |cacheOrder|
        invariant unchanged(this)
        invariant FirstExpired(State(), clock, t, 0) == FirstExpired(State(), clock, t, i)
      {
        var id := cacheOrder[i];
        if id in cache && IsExpired(cache[id], clock(t, i)) {
          cache := cache - {id};
          cacheOrder := cacheOrder[1..];
          return;
        }
      }
      if |cacheOrder| > 0 {
        cache := cache - {cacheOrder[0]};
        cacheOrder := cacheOrder[1..];
      }
    }

    /** `settles` is false where the original loop runs for ever: over the limit with nothing left in the list. */
    method EvictToMakeRoom(clock: (int, int) -> int) returns (settles: bool)
      modifies this
      ensures settles == AfterMakeRoom(old(State()), clock, 0, limit).Some?
      ensures settles ==> State() == AfterMakeRoom(old(State()), clock, 0, limit).value
    {
      var t: nat := 0;
      while |cache| > limit && limit > 0
        invariant AfterMakeRoom(State(), clock, t, limit) == AfterMakeRoom(old(State()), clock, 0, limit)
        decreases |cacheOrder|
      {
        if cacheOrder == [] {
          return false;
        }
        EvictOldestEvicted(clock, t);
        t := t + 1;
      }
      return true;
    }
  }

  function AfterSetup<S>(c: Cache<S>, id: string, e: Entry<S>): Cache<S> {
    Cache(c.entries[id := e], c.order + [id])
  }

  lemma PassOne<S>(m: map<string, Entry<S>>, gone: set<string>, ids: set<string>, id: string)
    requires gone <= m.Keys && id in ids
    ensures var before, after := gone - ids, gone - (ids - {id});
            if id in gone then m - after == (m - before) - {id} && |after| == |before| + 1 else after == before
  {
    if id in gone { assert gone - (ids - {id}) == gone - ids + {id}; }
    else { assert gone - (ids - {id}) == gone - ids; }
  }
}
