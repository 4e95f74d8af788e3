/** What every run of the tenant manager keeps, how long its entries live, and how making room can fail to end. */
module TenantManagerProperties {
  import opened EvictionProperties
  import opened IdLists
  import opened Sets
  import opened TenantManager

  /** Evictions go by a clock of their own; `now` is the time they begin at. */
  datatype Op<S> =
    | Setup(id: string, now: int, provisioned: Option<S>, storedAt: int)
    | Get(id: string, now: int)
    | Invalidate(id: string, now: int)
    | Remove(id: string, now: int)
    | Cleanup(now: int)
    | Evict(now: int, clock: (int, int) -> int)
    | MakeRoom(now: int, clock: (int, int) -> int)

  function Step<S>(c: Cache<S>, op: Op<S>, ttl: int, limit: int): Cache<S> {
    match op
    case Setup(id, now, provisioned, storedAt) =>
      if (id in c.entries && !IsExpired(c.entries[id], now)) || provisioned.None? then c
      else AfterSetup(c, id, Entry(provisioned.value, storedAt + ttl))
    case Get(id, now) => if id in c.entries && IsExpired(c.entries[id], now) then AfterInvalidate(c, id) else c
    case Invalidate(id, _) => AfterInvalidate(c, id)
    case Remove(id, _) => if id in c.entries then AfterInvalidate(c, id) else c
    case Cleanup(now) => AfterCleanup(c, now)
    case Evict(_, clock) => AfterEvict(c, clock, 0)
    case MakeRoom(_, clock) =>
      var r := AfterMakeRoom(c, clock, 0, limit);
      if r.Some? then r.value else c
  }

  function Steps<S>(ops: seq<Op<S>>, ttl: int, limit: int): Cache<S> {
    if |ops| == 0 then Cache(map[], []) else Step(Steps(ops[..|ops| - 1], ttl, limit), ops[|ops| - 1], ttl, limit)
  }

  lemma StepsOn<S>(ops: seq<Op<S>>, op: Op<S>, ttl: int, limit: int)
    ensures Steps(ops + [op], ttl, limit) == Step(Steps(ops, ttl, limit), op, ttl, limit)
  {
    assert (ops + [op])[..|ops|] == ops;
  }

  lemma {:induction false} FilterMembers(order: seq<string>, ids: set<string>, id: string)
    ensures id in Filter(order, ids) <==> id in order && id in ids
  {
    if order != [] {
      FilterMembers(order[1..], ids, id);
    }
  }

  lemma StepCovers<S>(c: Cache<S>, op: Op<S>, ttl: int, limit: int)
    requires Covered(c) && !op.Evict? && !op.MakeRoom?
    ensures Covered(Step(c, op, ttl, limit))
  {
    var d := Step(c, op, ttl, limit);
    forall id | id in d.entries ensures id in d.order {
      match op {
        case Cleanup(now) => FilterMembers(c.order, d.entries.Keys, id);
        case Setup(_, _, _, _) =>
        case Get(gone, _) => if id != gone { RemoveFirstKeepsOthers(c.order, gone, id); }
        case Invalidate(gone, _) => RemoveFirstKeepsOthers(c.order, gone, id);
        case Remove(gone, _) => if id != gone { RemoveFirstKeepsOthers(c.order, gone, id); }
      }
    }
  }

  /** Over every run without evictions, whatever the clock, each cached tenant is in the list. */
  lemma {:induction false} AlwaysCovered<S>(ops: seq<Op<S>>, ttl: int, limit: int)
    requires forall k :: 0 <= k < |ops| ==> !ops[k].Evict? && !ops[k].MakeRoom?
    ensures Covered(Steps(ops, ttl, limit))
    decreases |ops|
  {
    if |ops| > 0 {
      AlwaysCovered(ops[..|ops| - 1], ttl, limit);
      StepCovers(Steps(ops[..|ops| - 1], ttl, limit), ops[|ops| - 1], ttl, limit);
    }
  }

  /** Then no cleanup panics. */
  lemma CoveredNeverPanics<S>(c: Cache<S>, now: int)
    requires Covered(c)
    ensures |Expired(c.entries, now)| <= |c.order|
  {
    assert Expired(c.entries, now) <= Elems(c.order);
    SubsetCount(Expired(c.entries, now), Elems(c.order));
    ElemsCount(c.order);
  }

  /** Cleanup removes the expired entries and nothing else, and lists exactly the survivors it listed before. */
  lemma CleanupIsExact<S>(c: Cache<S>, now: int, id: string)
    requires Covered(c)
    ensures var d := AfterCleanup(c, now);
            && (id in d.entries <==> id in c.entries && !IsExpired(c.entries[id], now))
            && (id in d.entries ==> d.entries[id] == c.entries[id] && id in d.order)
            && (Expired(c.entries, now) != {} ==> (id in d.order <==> id in d.entries))
            && (forall e :: e in d.entries ==> !IsExpired(d.entries[e], now))
  {
    FilterMembers(c.order, AfterCleanup(c, now).entries.Keys, id);
  }

  /** The positions in the list, from `from` on, of the members of `ids`. */
  function Places(order: seq<string>, ids: set<string>, from: nat): (at: seq<nat>)
    requires from <= |order|
    ensures forall k :: 0 <= k < |at| ==> from <= at[k] < |order| && order[at[k]] in ids
    ensures forall k, l :: 0 <= k < l < |at| ==> at[k] < at[l]
    ensures forall i :: from <= i < |order| && order[i] in ids ==> i in at
    decreases |order| - from
  {
    if from == |order| then []
    else (if order[from] in ids then [from] else []) + Places(order, ids, from + 1)
  }

  lemma {:induction false} FilterPlaces(order: seq<string>, ids: set<string>, from: nat)
    requires from <= |order|
    ensures var at, kept := Places(order, ids, from), Filter(order[from..], ids);
            |kept| == |at| && forall k :: 0 <= k < |at| ==> kept[k] == order[at[k]]
    decreases |order| - from
  {
    if from < |order| {
      assert order[from..][1..] == order[from + 1..];
      FilterPlaces(order, ids, from + 1);
    }
  }

  /** Cleaning up, when anything has expired, keeps every listing of a survivor, in the order they had. */
  lemma CleanupKeepsOrder<S>(c: Cache<S>, now: int)
    requires Expired(c.entries, now) != {}
    ensures var d := AfterCleanup(c, now); var at := Places(c.order, d.entries.Keys, 0);
            |d.order| == |at| && forall k :: 0 <= k < |at| ==> d.order[k] == c.order[at[k]]
  {
    FilterPlaces(c.order, AfterCleanup(c, now).entries.Keys, 0);
    assert c.order[0..] == c.order;
  }

  // ----- Runs with a clock that goes forward ---------------------------------------------------

  /** A tenant listed for the last time before another expires no later than that one. */
  ghost predicate Orderly<S>(order: seq<string>, entries: map<string, Entry<S>>) {
    order != [] ==>
      && Orderly(order[1..], entries)
      && (order[0] in entries && order[0] !in order[1..] ==>
            forall id :: id in order[1..] && id in entries ==> entries[order[0]].expiry <= entries[id].expiry)
  }

  /** What runs with a forward clock keep, `last` being the latest time so far. */
  ghost predicate Sound<S>(c: Cache<S>, ttl: int, last: int) {
    && Covered(c) && Orderly(c.order, c.entries)
    && forall id :: id in c.entries ==> c.entries[id].expiry <= last + ttl
  }

  lemma {:induction false} OrderlyFewer<S>(order: seq<string>, entries: map<string, Entry<S>>, ids: set<string>)
    requires Orderly(order, entries)
    ensures Orderly(order, entries - ids)
  {
    if order != [] { OrderlyFewer(order[1..], entries, ids); }
  }

  lemma {:induction false} OrderlyAppended<S>(order: seq<string>, entries: map<string, Entry<S>>, id: string,
      e: Entry<S>)
    requires Orderly(order, entries) && forall k :: k in entries ==> entries[k].expiry <= e.expiry
    ensures Orderly(order + [id], entries[id := e])
  {
    if order != [] {
      OrderlyAppended(order[1..], entries, id, e);
      assert (order + [id])[1..] == order[1..] + [id];
    } else {
      assert order + [id] == [id] && [id][1..] == [];
      assert Orderly([], entries[id := e]);
    }
  }

  lemma {:induction false} OrderlyDropped<S>(order: seq<string>, entries: map<string, Entry<S>>, id: string)
    requires Orderly(order, entries) && id !in entries
    ensures Orderly(RemoveFirst(order, id), entries)
  {
    if order != [] && order[0] != id {
      OrderlyDropped(order[1..], entries, id);
      assert RemoveFirst(order, id)[1..] == RemoveFirst(order[1..], id);
      forall other | other != id ensures other in RemoveFirst(order[1..], id) <==> other in order[1..] {
        RemoveFirstKeepsOthers(order[1..], id, other);
      }
    }
  }

  lemma {:induction false} OrderlyFiltered<S>(order: seq<string>, entries: map<string, Entry<S>>)
    requires Orderly(order, entries)
    ensures Orderly(Filter(order, entries.Keys), entries)
  {
    if order != [] {
      OrderlyFiltered(order[1..], entries);
      forall id ensures id in Filter(order[1..], entries.Keys) <==> id in order[1..] && id in entries {
        FilterMembers(order[1..], entries.Keys, id);
      }
      var rest := Filter(order[1..], entries.Keys);
      assert Filter(order, entries.Keys) == if order[0] in entries then [order[0]] + rest else rest;
    }
  }

  lemma {:induction false} OrderlyAt<S>(order: seq<string>, entries: map<string, Entry<S>>, i: nat)
    requires Orderly(order, entries) && 0 < i < |order| && order[0] in entries && order[0] !in order[1..]
    requires order[i] in entries
    ensures entries[order[0]].expiry <= entries[order[i]].expiry
  {
    assert order[1..][i - 1] == order[i];
  }

  /** While nothing expires in the middle of a scan, the head of an orderly list is never mislaid. */
  lemma NeverMislays<S>(c: Cache<S>, clock: (int, int) -> int, t: nat, now: int)
    requires Orderly(c.order, c.entries) && Steady(c, clock, now)
    ensures !EvictMislays(c, clock, t)
  {
    var i := FirstExpired(c, clock, t, 0);
    FirstExpiredIs(c, clock, t, 0);
    StaleIsGone(c, clock, t, now);
    if EvictMislays(c, clock, t) {
      assert Stale(c, clock, t, i) && !Stale(c, clock, t, 0);
      OrderlyAt(c.order, c.entries, i);
    }
  }

  /** What evictions keep, `was` being the cache they began with. */
  ghost predicate Kept<S>(was: Cache<S>, c: Cache<S>, clock: (int, int) -> int, now: int) {
    && Covered(c) && Orderly(c.order, c.entries) && Steady(c, clock, now)
    && c.entries.Keys <= was.entries.Keys && forall id :: id in c.entries ==> c.entries[id] == was.entries[id]
  }

  lemma SteadyEvict<S>(was: Cache<S>, c: Cache<S>, clock: (int, int) -> int, t: nat, now: int)
    requires Kept(was, c, clock, now)
    ensures Kept(was, AfterEvict(c, clock, t), clock, now)
  {
    if c.order != [] {
      NeverMislays(c, clock, t, now);
      EvictCoversIff(c, clock, t);
      var v := EvictTakes(c, clock, t, now);
      OrderlyFewer(c.order[1..], c.entries, {v});
    }
  }

  /** From a covered, orderly cache, expired entries or not, making room ends within the limit. */
  lemma {:induction false} SteadyMakeRoom<S>(was: Cache<S>, c: Cache<S>, clock: (int, int) -> int, t: nat, now: int,
      limit: int)
    requires Kept(was, c, clock, now)
    ensures var r := AfterMakeRoom(c, clock, t, limit);
           r.Some? && !OverLimit(r.value, limit) && Kept(was, r.value, clock, now)
    decreases |c.order|
  {
    KeysCount(c.entries);
    assert c.order == [] ==> c.entries.Keys == {};
    if OverLimit(c, limit) {
      MakeRoomOnce(c, clock, t, limit);
      SteadyEvict(was, c, clock, t, now);
      SteadyMakeRoom(was, AfterEvict(c, clock, t), clock, t + 1, now, limit);
    }
  }

  /**
   With a forward clock a mislaid head was live when it was looked at and expired before that scan came to its end.
   */
  lemma MislaidExpires<S>(c: Cache<S>, clock: (int, int) -> int, t: nat)
    requires Orderly(c.order, c.entries) && EvictMislays(c, clock, t)
    ensures clock(t, 0) <= c.entries[c.order[0]].expiry < clock(t, FirstExpired(c, clock, t, 0))
  {
    var i := FirstExpired(c, clock, t, 0);
    FirstExpiredIs(c, clock, t, 0);
    assert Stale(c, clock, t, i) && !Stale(c, clock, t, 0);
    OrderlyAt(c.order, c.entries, i);
  }

  function Finish<S>(op: Op<S>): int {
    if op.Setup? then op.storedAt else op.now
  }

  /** No operation reads an earlier time than one before it read, and none expires in the middle of an eviction. */
  ghost predicate Forward<S>(ops: seq<Op<S>>, ttl: int, limit: int) {
    && (forall k :: 0 <= k < |ops| ==> ops[k].now <= Finish(ops[k]))
    && (forall k :: 0 < k < |ops| ==> Finish(ops[k - 1]) <= ops[k].now)
    && (forall k :: 0 <= k < |ops| && (ops[k].Evict? || ops[k].MakeRoom?) ==>
          Steady(Steps(ops[..k], ttl, limit), ops[k].clock, ops[k].now))
  }

  lemma StepSound<S>(c: Cache<S>, op: Op<S>, ttl: int, limit: int, last: int)
    requires Sound(c, ttl, last) && last <= op.now <= Finish(op)
    requires op.Evict? || op.MakeRoom? ==> Steady(c, op.clock, op.now)
    ensures Sound(Step(c, op, ttl, limit), ttl, Finish(op))
  {
    match op
    case Setup(id, now, provisioned, storedAt) =>
      StepCovers(c, op, ttl, limit);
      if provisioned.Some? { OrderlyAppended(c.order, c.entries, id, Entry(provisioned.value, storedAt + ttl)); }
    case Evict(now, clock) => SteadyEvict(c, c, clock, 0, now);
    case MakeRoom(now, clock) => SteadyMakeRoom(c, c, clock, 0, now, limit);
    case Cleanup(now) =>
      StepCovers(c, op, ttl, limit);
      OrderlyFewer(c.order, c.entries, Expired(c.entries, now));
      OrderlyFiltered(c.order, c.entries - Expired(c.entries, now));
    case _ =>
      StepCovers(c, op, ttl, limit);
      OrderlyFewer(c.order, c.entries, {op.id});
      OrderlyDropped(c.order, c.entries - {op.id}, op.id);
  }

  function Latest<S>(ops: seq<Op<S>>): int {
    if |ops| == 0 then 0 else Finish(ops[|ops| - 1])
  }

  /** Over every run with a forward clock, evictions included, the list covers the cache, in order of expiry. */
  lemma {:induction false} AlwaysSound<S>(ops: seq<Op<S>>, ttl: int, limit: int)
    requires Forward(ops, ttl, limit)
    ensures Sound(Steps(ops, ttl, limit), ttl, Latest(ops))
    decreases |ops|
  {
    if |ops| > 0 {
      var n := |ops| - 1;
      var fewer := ops[..n];
      forall k | 0 <= k < n ensures fewer[..k] == ops[..k] { }
      AlwaysSound(fewer, ttl, limit);
      assert Sound(Steps(fewer, ttl, limit), ttl, if n == 0 then ops[n].now else Latest(fewer));
      StepSound(Steps(fewer, ttl, limit), ops[n], ttl, limit, if n == 0 then ops[n].now else Latest(fewer));
    }
  }

  /** So at any time cleaning up does not panic and making room ends within the limit. */
  lemma MakeRoomSettles<S>(ops: seq<Op<S>>, ttl: int, limit: int, clock: (int, int) -> int, now: int)
    requires Forward(ops, ttl, limit) && Steady(Steps(ops, ttl, limit), clock, now)
    ensures var c := Steps(ops, ttl, limit);
            && |Expired(c.entries, now)| <= |c.order|
            && AfterMakeRoom(c, clock, 0, limit).Some? && !OverLimit(AfterMakeRoom(c, clock, 0, limit).value, limit)
  {
    AlwaysSound(ops, ttl, limit);
    CoveredNeverPanics(Steps(ops, ttl, limit), now);
    SteadyMakeRoom(Steps(ops, ttl, limit), Steps(ops, ttl, limit), clock, 0, now, limit);
  }

  // ----- Lifetime and size ---------------------------------------------------------------------

  function Answer<S>(c: Cache<S>, id: string, now: int): Option<S> {
    if id in c.entries && !IsExpired(c.entries[id], now) then Some(c.entries[id].state) else None
  }

  /** A state just stored is answered up to `ttl` later and not beyond: no `ttl`, zero included, means no expiry. */
  lemma StoredExpires<S>(c: Cache<S>, id: string, now: int, state: S, storedAt: int, ttl: int, limit: int, t: int)
    requires Answer(c, id, now) == None
    ensures Answer(Step(c, Setup(id, now, Some(state), storedAt), ttl, limit), id, t)
         == if t <= storedAt + ttl then Some(state) else None
  {
  }

  ghost predicate Submap<S>(less: map<string, Entry<S>>, more: map<string, Entry<S>>) {
    forall id :: id in less ==> id in more && less[id] == more[id]
  }

  lemma {:induction false} MakeRoomShrinks<S>(c: Cache<S>, clock: (int, int) -> int, t: nat, limit: int)
    ensures var r := AfterMakeRoom(c, clock, t, limit); r.Some? ==> Submap(r.value.entries, c.entries)
    decreases |c.order|
  {
    if OverLimit(c, limit) && c.order != [] {
      MakeRoomOnce(c, clock, t, limit);
      MakeRoomShrinks(AfterEvict(c, clock, t), clock, t + 1, limit);
    }
  }

  /** Only set-ups add entries. */
  lemma StepShrinks<S>(c: Cache<S>, op: Op<S>, ttl: int, limit: int)
    requires !op.Setup?
    ensures Submap(Step(c, op, ttl, limit).entries, c.entries)
  {
    if op.MakeRoom? { MakeRoomShrinks(c, op.clock, 0, limit); }
  }

  /** Over every run, whatever the clock, each entry is what a set-up of its tenant stored. */
  lemma {:induction false} StoredBySetup<S>(ops: seq<Op<S>>, ttl: int, limit: int, id: string) returns (k: nat)
    requires id in Steps(ops, ttl, limit).entries
    ensures k < |ops| && ops[k].Setup? && ops[k].id == id && ops[k].provisioned.Some?
    ensures Steps(ops, ttl, limit).entries[id] == Entry(ops[k].provisioned.value, ops[k].storedAt + ttl)
    decreases |ops|
  {
    var n := |ops| - 1;
    var c, op := Steps(ops[..n], ttl, limit), ops[n];
    if !op.Setup? { StepShrinks(c, op, ttl, limit); }
    if id in c.entries && Step(c, op, ttl, limit).entries[id] == c.entries[id] {
      k := StoredBySetup(ops[..n], ttl, limit, id);
    } else {
      k := n;
    }
  }

  /** So what is answered is what a set-up of that tenant stored no longer than `ttl` ago. */
  lemma NothingOutlives<S>(ops: seq<Op<S>>, ttl: int, limit: int, id: string, t: int) returns (k: nat)
    requires Answer(Steps(ops, ttl, limit), id, t).Some?
    ensures k < |ops| && ops[k].Setup? && ops[k].id == id && t <= ops[k].storedAt + ttl
    ensures Answer(Steps(ops, ttl, limit), id, t) == ops[k].provisioned
  {
    k := StoredBySetup(ops, ttl, limit, id);
  }

  /** Setting a tenant up leaves the cache within the limit exactly if there was room or nothing was added. */
  lemma SetupWithinIff<S>(c: Cache<S>, id: string, now: int, p: Option<S>, storedAt: int, ttl: int, limit: int)
    ensures |Step(c, Setup(id, now, p, storedAt), ttl, limit).entries| <= limit
       <==> if id in c.entries || p.None? then |c.entries| <= limit else |c.entries| < limit
  {
    if id in c.entries && p.Some? {
      var e := Entry(p.value, storedAt + ttl);
      KeysCount(c.entries);
      KeysCount(c.entries[id := e]);
      assert c.entries[id := e].Keys == c.entries.Keys;
    }
  }

  function Repeat(n: nat): string {
    seq(n, i => 'a')
  }

  /** The limit is not enforced: whatever it is, tenants set up one after the other are all cached. */
  lemma {:induction false} CacheGrows<S>(n: nat, state: S, ttl: int, limit: int) returns (ops: seq<Op<S>>)
    ensures |Steps(ops, ttl, limit).entries| == n
    ensures forall id :: id in Steps(ops, ttl, limit).entries ==> |id| < n
    ensures |ops| == n && forall k :: 0 <= k < n ==> ops[k].Setup? && Finish(ops[k]) == ops[k].now == 0
  {
    if n == 0 {
      return [];
    }
    var fewer := CacheGrows(n - 1, state, ttl, limit);
    var op := Setup(Repeat(n - 1), 0, Some(state), 0);
    StepsOn(fewer, op, ttl, limit);
    Grown(Steps(fewer, ttl, limit), op, ttl, limit);
    ops := fewer + [op];
  }

  lemma Grown<S>(c: Cache<S>, op: Op<S>, ttl: int, limit: int)
    requires op.Setup? && op.id !in c.entries && op.provisioned.Some?
    ensures Step(c, op, ttl, limit).entries.Keys == c.entries.Keys + {op.id}
    ensures |Step(c, op, ttl, limit).entries| == |c.entries| + 1
  {
    KeysCount(c.entries);
    KeysCount(Step(c, op, ttl, limit).entries);
  }

  // ----- Two ways to an endless loop -----------------------------------------------------------

  lemma EvictAt<S>(c: Cache<S>, clock: (int, int) -> int, t: nat, i: nat)
    requires i < |c.order| && Stale(c, clock, t, i) && forall j :: 0 <= j < i ==> !Stale(c, clock, t, j)
    ensures AfterEvict(c, clock, t) == Cache(c.entries - {c.order[i]}, c.order[1..])
  {
    FirstExpiredIs(c, clock, t, 0);
  }

  lemma EvictNone<S>(c: Cache<S>, clock: (int, int) -> int, t: nat)
    requires c.order != [] && forall j :: 0 <= j < |c.order| ==> !Stale(c, clock, t, j)
    ensures AfterEvict(c, clock, t) == Cache(c.entries - {c.order[0]}, c.order[1..])
  {
    FirstExpiredIs(c, clock, t, 0);
  }

  /** Tenants are set up, one at each of the times given. */
  ghost predicate SetUpAt<S>(ops: seq<Op<S>>, times: seq<int>) {
    |ops| == |times| && forall k :: 0 <= k < |ops| ==> ops[k].Setup? && ops[k].now == ops[k].storedAt == times[k]
  }

  function Four(a: int, b: int, c: int, d: int): map<string, Entry<string>> {
    map["a" := Entry("", a), "b" := Entry("", b), "c" := Entry("", c), "d" := Entry("", d)]
  }

  lemma FourAreSetUp(a: int, b: int, c: int, d: int, ttl: int, limit: int) returns (ops: seq<Op<string>>)
    ensures SetUpAt(ops, [a, b, c, d])
    ensures Steps(ops, ttl, limit) == Cache(Four(a + ttl, b + ttl, c + ttl, d + ttl), ["a", "b", "c", "d"])
  {
    var o1, o2 := Setup("a", a, Some(""), a), Setup("b", b, Some(""), b);
    var o3, o4 := Setup("c", c, Some(""), c), Setup("d", d, Some(""), d);
    ops := [];
    StepsOn(ops, o1, ttl, limit); ops := ops + [o1];
    StepsOn(ops, o2, ttl, limit); ops := ops + [o2];
    StepsOn(ops, o3, ttl, limit); ops := ops + [o3];
    StepsOn(ops, o4, ttl, limit); ops := ops + [o4];
  }

  lemma FourExpired(a: int, b: int, c: int, d: int, now: int)
    ensures Four(a, b, c, d).Keys == {"a", "b", "c", "d"}
    ensures a == b > now > c == d ==> Expired(Four(a, b, c, d), now) == {"c", "d"}
  {
  }

  /**
   Times are wall-clock times: an expiry carries no monotonic reading. If the wall clock is set back between the
   second set-up and the third, the loop need not end, though the clock then stands still.
   */
  lemma MakeRoomCanHang(start: int, ttl: int, clock: (int, int) -> int) returns (ops: seq<Op<string>>)
    requires forall t, i :: clock(t, i) == start + ttl + 5
    ensures SetUpAt(ops, [start + 10, start + 10, start, start])
    ensures AfterMakeRoom(Steps(ops, ttl, 1), clock, 0, 1) == None
  {
    var a, c := start + 10 + ttl, start + ttl;
    ops := FourAreSetUp(start + 10, start + 10, start, start, ttl, 1);
    FourExpired(a, a, c, c, c + 5);
    TwoStranded(Steps(ops, ttl, 1), clock, c + 5);
  }

  lemma TwoStranded(c: Cache<string>, clock: (int, int) -> int, now: int)
    requires c.order == ["a", "b", "c", "d"] && c.entries.Keys == {"a", "b", "c", "d"}
            && Expired(c.entries, now) == {"c", "d"}
    requires forall t, i :: clock(t, i) == now
    ensures AfterMakeRoom(c, clock, 0, 1) == None
  {
    LeftOfFour(c.order);
    assert Gone(c, now) == {"c", "d"};
    assert Stranded(c, now) == {"a", "b"};
    MakeRoomSettlesIff(c, clock, 0, now, 1);
  }

  lemma LeftOfFour(order: seq<string>)
    requires order == ["a", "b", "c", "d"]
    ensures Elems(order) == {"a", "b", "c", "d"} && Left({"a", "b", "c", "d"}, {"c", "d"}, order) == {"a", "b"}
  {
    assert From(order, 2) == ["c", "d"];
  }

  /** It goes on between the first and the second entry of the first scan and of the third. */
  function Ticking(t: int, i: int): int {
    if t < 1 && i < 1 then 5 else if t < 2 || (t == 2 && i < 1) then 6 else 8
  }

  /**
   A clock that only goes forward can do it too, if entries expire between being looked at and the end of the scan.
   */
  lemma MakeRoomCanHangForward(start: int, ttl: int) returns (ops: seq<Op<string>>)
    requires ttl >= 2 && start + ttl == 5
    ensures SetUpAt(ops, [start, start, start + 2, start + 2]) && Forward(ops, ttl, 1) && Latest(ops) <= Ticking(0, 0)
    ensures forall t, i, u, j :: 0 <= t <= u && 0 <= i && 0 <= j && (t < u || i <= j) ==> Ticking(t, i) <= Ticking(u, j)
    ensures AfterMakeRoom(Steps(ops, ttl, 1), Ticking, 0, 1) == None
  {
    ops := FourAreSetUp(start, start, start + 2, start + 2, ttl, 1);
    SetUpsGoForward(ops, [start, start, start + 2, start + 2], ttl);
    HangsFrom(Steps(ops, ttl, 1).entries);
  }

  lemma SetUpsGoForward(ops: seq<Op<string>>, times: seq<int>, ttl: int)
    requires SetUpAt(ops, times) && forall k :: 0 < k < |times| ==> times[k - 1] <= times[k]
    ensures Forward(ops, ttl, 1) && (ops != [] ==> Latest(ops) == times[|times| - 1])
  {
  }

  lemma HangsFrom(m: map<string, Entry<string>>)
    requires m.Keys == {"a", "b", "c", "d"}
    requires m["a"].expiry == m["b"].expiry == 5 && m["c"].expiry == m["d"].expiry == 7
    ensures AfterMakeRoom(Cache(m, ["a", "b", "c", "d"]), Ticking, 0, 1) == None
  {
    var c := Cache(m, ["a", "b", "c", "d"]);
    KeysCount(m);
    EvictAt(c, Ticking, 0, 1);
    assert c.order[1..] == ["b", "c", "d"];
    MakeRoomOnce(c, Ticking, 0, 1);
    HangsWithout(m - {"b"});
  }

  lemma HangsWithout(m: map<string, Entry<string>>)
    requires m.Keys == {"a", "c", "d"} && m["c"].expiry == m["d"].expiry == 7
    ensures AfterMakeRoom(Cache(m, ["b", "c", "d"]), Ticking, 1, 1) == None
  {
    var c := Cache(m, ["b", "c", "d"]);
    KeysCount(m);
    EvictNone(c, Ticking, 1);
    assert c.order[1..] == ["c", "d"];
    assert m - {"b"} == m;
    MakeRoomOnce(c, Ticking, 1, 1);
    HangsWithLive(m);
  }

  lemma HangsWithLive(m: map<string, Entry<string>>)
    requires m.Keys == {"a", "c", "d"} && m["c"].expiry == m["d"].expiry == 7
    ensures AfterMakeRoom(Cache(m, ["c", "d"]), Ticking, 2, 1) == None
  {
    var c := Cache(m, ["c", "d"]);
    KeysCount(m);
    EvictAt(c, Ticking, 2, 1);
    assert c.order[1..] == ["d"];
    MakeRoomOnce(c, Ticking, 2, 1);
    HangsAtLast(m - {"d"});
  }

  lemma HangsAtLast(m: map<string, Entry<string>>)
    requires m.Keys == {"a", "c"}
    ensures AfterMakeRoom(Cache(m, ["d"]), Ticking, 3, 1) == None
  {
    var c := Cache(m, ["d"]);
    KeysCount(m);
    EvictNone(c, Ticking, 3);
    assert c.order[1..] == [];
    assert m - {"d"} == m;
    MakeRoomOnce(c, Ticking, 3, 1);
  }
}
