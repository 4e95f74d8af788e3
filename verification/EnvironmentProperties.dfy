/** What every run of the environment store keeps, and what a restart brings back. */
module EnvironmentProperties {
  import opened Hydration
  import opened IdLists
  import opened Paging
  import opened Environments

  function Tenants(records: map<string, Environment>): map<string, string> {
    map id | id in records :: records[id].tenantId
  }

  function Kinds(records: map<string, Environment>): map<string, string> {
    map id | id in records :: records[id].kind
  }

  function Rows(records: map<string, Environment>): map<string, Row> {
    map id | id in records :: RowOf(records[id])
  }

  ghost predicate Keyed(records: map<string, Environment>) {
    forall id :: id in records ==> records[id].id == id
  }

  /** Both indexes list exactly the live environments, and the table holds exactly their rows. */
  ghost predicate Coherent(s: Store) {
    Keyed(s.records) && Indexed(s) && s.table == Rows(s.records)
  }

  ghost predicate Indexed(s: Store) {
    Indexes(s.byTenant, Tenants(s.records)) && Indexes(s.byType, Kinds(s.records))
  }

  lemma InsertedIndexedIff(s: Store, e: Environment)
    requires Indexed(s)
    ensures Indexed(Inserted(s, e)) <==> e.id !in s.records
  {
    assert Tenants(s.records[e.id := e]) == Tenants(s.records)[e.id := e.tenantId];
    assert Kinds(s.records[e.id := e]) == Kinds(s.records)[e.id := e.kind];
    AppendIndexesIff(s.byTenant, Tenants(s.records), e.tenantId, e.id);
    AppendIndexesIff(s.byType, Kinds(s.records), e.kind, e.id);
  }

  /** Creating keeps the store coherent exactly when the id it ends up with is not in use. */
  lemma CreateCoherentIff(s: Store, e0: Environment, newId: string, now: int)
    requires Coherent(s)
    ensures Coherent(AfterCreate(s, e0, newId, now)) <==> WithDefaults(e0, newId, now).id !in s.records
  {
    var e := WithDefaults(e0, newId, now);
    InsertedIndexedIff(s, e);
    RowsPut(s.records, e);
  }

  lemma RowsPut(records: map<string, Environment>, e: Environment)
    ensures Rows(records[e.id := e]) == Rows(records)[e.id := RowOf(e)]
    ensures Keyed(records) ==> Keyed(records[e.id := e])
  {
  }

  /** A changed record keeps the store coherent if it keeps the columns that a conflicting insert leaves alone. */
  lemma SavedCoherent(s: Store, e: Environment)
    requires Coherent(s) && e.id in s.records
    requires var was := s.records[e.id];
            e.tenantId == was.tenantId && e.kind == was.kind && e.createdAt == was.createdAt
    ensures Coherent(Saved(s, e))
  {
    var after := Saved(s, e);
    assert Tenants(after.records) == Tenants(s.records);
    assert Kinds(after.records) == Kinds(s.records);
    RowsPut(s.records, e);
  }

  lemma DeleteCoherent(s: Store, id: string)
    requires Coherent(s)
    ensures Coherent(AfterDelete(s, id))
  {
    if id in s.records {
      var after := AfterDelete(s, id);
      assert Tenants(after.records) == Tenants(s.records) - {id};
      assert Kinds(after.records) == Kinds(s.records) - {id};
      DropIndexes(s.byTenant, Tenants(s.records), id);
      DropIndexes(s.byType, Kinds(s.records), id);
      assert after.table == Rows(after.records);
    }
  }

  // ----- Restart -------------------------------------------------------------------------------

  /** The store of a process that has just started on this table. */
  function Restarted(s: Store, rows: seq<Row>): Store {
    AfterHydrate(Store(map[], map[], map[], s.table), rows)
  }

  /** A record as it comes back: nil slices and maps are empty, empty metadata is nil. */
  function Normal(e: Environment): Environment {
    e.(resources := if e.resources.None? then Some([]) else e.resources,
       network := if e.network.None? then Some(map[]) else e.network,
       isolation := e.isolation.(metadata := JsonMetadata(e.isolation.metadata)))
  }

  function Normals(records: map<string, Environment>): map<string, Environment> {
    map id | id in records :: Normal(records[id])
  }

  /** Restart equivalence: the same records, up to nil and empty documents, and a coherent store again. */
  lemma RestartEquivalent(s: Store, rows: seq<Row>)
    requires Coherent(s) && Enumerates(rows, s.table, RowId)
    ensures Restarted(s, rows).records == Normals(s.records)
    ensures Coherent(Restarted(s, rows))
  {
    Loaded(rows, s.table, RowId, FromRow);
    Hydration.Indexed(rows, s.table, RowId, RowTenant);
    Hydration.Indexed(rows, s.table, RowId, RowKind);
    NormalsHaveSameRows(s.records);
    NormalsHaveSameKeys(s.records);
    RowsGiveBack(s.records);
  }

  lemma RowsGiveBack(records: map<string, Environment>)
    ensures (map id | id in Rows(records) :: FromRow(Rows(records)[id])) == Normals(records)
    ensures KeysOf(Rows(records), RowTenant) == Tenants(records)
    ensures KeysOf(Rows(records), RowKind) == Kinds(records)
  {
  }

  lemma NormalHasSameRow(e: Environment)
    ensures RowOf(Normal(e)) == RowOf(e)
  {
  }

  lemma NormalsHaveSameRows(records: map<string, Environment>)
    requires Keyed(records)
    ensures Rows(Normals(records)) == Rows(records) && Keyed(Normals(records))
  {
    forall id | id in records ensures Rows(Normals(records))[id] == Rows(records)[id] {
      NormalHasSameRow(records[id]);
    }
  }

  lemma NormalsHaveSameKeys(records: map<string, Environment>)
    ensures Tenants(Normals(records)) == Tenants(records) && Kinds(Normals(records)) == Kinds(records)
  {
  }

  /** and under every tenant and every type the same ids. */
  lemma RestartKeepsIndexes(s: Store, rows: seq<Row>, key: string)
    requires Coherent(s) && Enumerates(rows, s.table, RowId)
    ensures multiset(Ids(Restarted(s, rows).byTenant, key)) == multiset(Ids(s.byTenant, key))
    ensures multiset(Ids(Restarted(s, rows).byType, key)) == multiset(Ids(s.byType, key))
  {
    RestartEquivalent(s, rows);
    NormalsHaveSameRows(s.records);
    NormalsHaveSameKeys(s.records);
    var h := Restarted(s, rows);
    SameContents(h.byTenant, s.byTenant, Tenants(s.records), key);
    SameContents(h.byType, s.byType, Kinds(s.records), key);
  }

  // ----- Runs ----------------------------------------------------------------------------------

  datatype Op =
    | Create(e: Environment, newId: string, now: int)
    | Patch(id: string, r: PatchRequest, now: int)
    | Delete(id: string)
    | Transition(id: string, to: string, notes: Option<string>, now: int)
    | Restart(rows: seq<Row>)

  /** New ids are fresh, and a restart reads the whole table. */
  ghost predicate Admissible(s: Store, op: Op) {
    match op
    case Create(e, newId, now) => WithDefaults(e, newId, now).id !in s.records
    case Restart(rows) => Enumerates(rows, s.table, RowId)
    case _ => true
  }

  function Apply(s: Store, op: Op): Store {
    match op
    case Create(e, newId, now) => AfterCreate(s, e, newId, now)
    case Patch(id, r, now) => AfterPatch(s, id, r, now)
    case Delete(id) => AfterDelete(s, id)
    case Transition(id, to, notes, now) => AfterTransition(s, id, to, notes, now)
    case Restart(rows) => Restarted(s, rows)
  }

  ghost predicate IsRunFrom(s: Store, stores: seq<Store>, ops: seq<Op>) {
    && |stores| == |ops| + 1 && stores[0] == s
    && forall i :: 0 <= i < |ops| ==> Admissible(stores[i], ops[i]) && stores[i + 1] == Apply(stores[i], ops[i])
  }

  /** A run from an empty store and table. */
  ghost predicate IsRun(stores: seq<Store>, ops: seq<Op>) {
    IsRunFrom(Store(map[], map[], map[], map[]), stores, ops)
  }

  lemma ApplyCoherent(s: Store, op: Op)
    requires Coherent(s) && Admissible(s, op)
    ensures Coherent(Apply(s, op))
  {
    match op
    case Create(e, newId, now) => CreateCoherentIff(s, e, newId, now);
    case Patch(id, r, now) => if id in s.records { SavedCoherent(s, Patched(s.records[id], r, now)); }
    case Delete(id) => DeleteCoherent(s, id);
    case Transition(id, to, notes, now) =>
      if id in s.records { SavedCoherent(s, Moved(s.records[id], to, notes, now)); }
    case Restart(rows) => RestartEquivalent(s, rows);
  }

  lemma {:induction false} StaysCoherent(s: Store, stores: seq<Store>, ops: seq<Op>, i: nat)
    requires Coherent(s) && IsRunFrom(s, stores, ops) && i < |stores|
    ensures Coherent(stores[i])
    decreases i
  {
    if i > 0 {
      StaysCoherent(s, stores, ops, i - 1);
      assert Admissible(stores[i - 1], ops[i - 1]) && stores[i - 1 + 1] == Apply(stores[i - 1], ops[i - 1]);
      ApplyCoherent(stores[i - 1], ops[i - 1]);
    }
  }

  /** Over every run, restarts included, the store stays coherent. */
  lemma AlwaysCoherent(stores: seq<Store>, ops: seq<Op>, i: nat)
    requires IsRun(stores, ops) && i < |stores|
    ensures Coherent(stores[i])
  {
    NothingIndexed();
    assert Tenants(map[]) == map[] && Kinds(map[]) == map[] && Rows(map[]) == map[];
    StaysCoherent(Store(map[], map[], map[], map[]), stores, ops, i);
  }

  // ----- Listings ------------------------------------------------------------------------------

  lemma {:induction false} ItemsCount(records: map<string, Environment>, ids: seq<string>, e: Environment)
    requires Keyed(records) && NoDuplicates(ids) && forall id :: id in ids ==> id in records
    ensures multiset(Items(records, ids))[e] == if e.id in ids && records[e.id] == e then 1 else 0
  {
    if ids != [] {
      assert forall k :: 0 <= k < |ids| - 1 ==> ids[1..][k] == ids[k + 1];
      ItemsCount(records, ids[1..], e);
      assert multiset(Items(records, ids)) == multiset([records[ids[0]]]) + multiset(Items(records, ids[1..]));
    }
  }

  /** A tenant's listing sorts by name every live environment of the tenant, once, and nothing else. */
  lemma ListingIsScan(s: Store, tenantId: string, sort: seq<Environment> -> seq<Environment>, e: Environment)
    requires Coherent(s) && IsSort(sort, (e: Environment) => e.name)
    ensures var items := sort(Items(s.records, Ids(s.byTenant, tenantId)));
            && Sorted(items, (e: Environment) => e.name)
            && multiset(items)[e]
               == if e.id in s.records && s.records[e.id] == e && e.tenantId == tenantId then 1 else 0
  {
    var ids := Ids(s.byTenant, tenantId);
    assert ListsExactly(ids, Tenants(s.records), tenantId);
    ItemsCount(s.records, ids, e);
  }

  /** The pages of a listing, asked for one after the other, are that scan. */
  lemma PagesAreScan(s: Store, tenantId: string, sort: seq<Environment> -> seq<Environment>, pages: nat, size: int)
    requires Coherent(s) && IsSort(sort, (e: Environment) => e.name) && size >= 1
    requires var items := sort(Items(s.records, Ids(s.byTenant, tenantId))); pages * size >= |items|
    ensures FirstPages(sort(Items(s.records, Ids(s.byTenant, tenantId))), pages, size)
         == sort(Items(s.records, Ids(s.byTenant, tenantId)))
  {
    PagesConcatenate(sort(Items(s.records, Ids(s.byTenant, tenantId))), pages, size);
  }

  // ----- What never happens --------------------------------------------------------------------

  /** A limit once set is never changed while the environment lives, not by a restart either. */
  lemma LimitsAreSticky(s: Store, op: Op, id: string)
    requires Coherent(s) && Admissible(s, op) && id in s.records && id in Apply(s, op).records
    ensures KeepsLimits(s.records[id].isolation.quota, Apply(s, op).records[id].isolation.quota)
  {
    if op.Restart? {
      RestartEquivalent(s, op.rows);
    }
  }

  /** The operations the store offers: Activate and Deactivate are its only transitions. */
  predicate Offered(op: Op) {
    op.Transition? ==> op.to in {ACTIVE, STOPPED} && op.notes.None?
  }

  /** What Deactivate asks for: a transition to stopped. */
  predicate CanDeactivate(s: Store, id: string) {
    id in s.records && CanTransition(s.records[id].state, STOPPED)
  }

  lemma OfferedKeepsState(s: Store, op: Op, id: string)
    requires Coherent(s) && Admissible(s, op) && Offered(op) && id in s.records && id in Apply(s, op).records
    ensures Apply(s, op).records[id].state in {s.records[id].state, ACTIVE, STOPPED}
    ensures s.records[id].state !in {STOPPING, ERROR} ==> Apply(s, op).records[id].state !in {STOPPING, ERROR}
  {
    match op
    case Create(e, newId, now) =>
    case Patch(k, r, now) => if k in s.records { assert Patched(s.records[k], r, now).state == s.records[k].state; }
    case Delete(_) =>
    case Transition(_, _, _, _) =>
    case Restart(rows) => RestartEquivalent(s, rows);
  }

  ghost predicate LivesThrough(stores: seq<Store>, id: string) {
    forall k :: 0 <= k < |stores| ==> id in stores[k].records
  }

  ghost predicate AllOffered(ops: seq<Op>) {
    forall k :: 0 <= k < |ops| ==> Offered(ops[k])
  }

  lemma RunStep(s: Store, stores: seq<Store>, ops: seq<Op>, i: nat)
    requires Coherent(s) && IsRunFrom(s, stores, ops) && i < |ops|
    ensures Coherent(stores[i]) && Admissible(stores[i], ops[i]) && stores[i + 1] == Apply(stores[i], ops[i])
  {
    StaysCoherent(s, stores, ops, i);
  }

  lemma {:induction false} NeverStopping(s: Store, stores: seq<Store>, ops: seq<Op>, id: string, i: nat)
    requires Coherent(s) && IsRunFrom(s, stores, ops) && AllOffered(ops) && LivesThrough(stores, id) && i < |stores|
    requires s.records[id].state !in {STOPPING, ERROR}
    ensures stores[i].records[id].state !in {STOPPING, ERROR}
    decreases i
  {
    if i > 0 {
      var k := i - 1;
      NeverStopping(s, stores, ops, id, k);
      RunStep(s, stores, ops, k);
      assert Offered(ops[k]) && id in stores[k].records;
      OfferedKeepsState(stores[k], ops[k], id);
    }
  }

  /**
   An environment that is neither stopping nor in error never gets there, and Deactivate never does anything to it.
   */
  lemma NeverDeactivated(s: Store, stores: seq<Store>, ops: seq<Op>, id: string, i: nat, now: int)
    requires Coherent(s) && IsRunFrom(s, stores, ops) && AllOffered(ops) && LivesThrough(stores, id) && i < |stores|
    requires s.records[id].state !in {STOPPING, ERROR}
    ensures stores[i].records[id].state !in {STOPPING, ERROR}
    ensures AfterTransition(stores[i], id, STOPPED, None, now) == stores[i]
  {
    NeverStopping(s, stores, ops, id, i);
  }

  /** Operations the store offers lead, while the environment lives, to a store in which it can be deactivated. */
  ghost predicate EverDeactivable(s: Store, id: string) {
    exists stores, ops ::
      IsRunFrom(s, stores, ops) && AllOffered(ops) && LivesThrough(stores, id) && CanDeactivate(stores[|ops|], id)
  }

  /** An environment can be deactivated now or later exactly when it is stopping or in error now. */
  lemma DeactivableIff(s: Store, id: string)
    requires Coherent(s) && id in s.records
    ensures EverDeactivable(s, id) <==> s.records[id].state in {STOPPING, ERROR}
  {
    if s.records[id].state in {STOPPING, ERROR} {
      assert IsRunFrom(s, [s], []) && AllOffered([]) && LivesThrough([s], id) && CanDeactivate([s][0], id);
    } else if EverDeactivable(s, id) {
      var stores, ops :|
        IsRunFrom(s, stores, ops) && AllOffered(ops) && LivesThrough(stores, id) && CanDeactivate(stores[|ops|], id);
      NeverDeactivated(s, stores, ops, id, |ops|, 0);
    }
  }
}
