/** What every run of the deployment store keeps, what a restart brings back, and where rollbacks lead. */
module DeploymentProperties {
  import opened Deployments
  import opened Hydration
  import opened IdLists

  // ----- Memory and table ----------------------------------------------------------------------

  function Rows(s: Store): map<string, Row> {
    map id | id in s.records :: RowOf(s.docs, s.records[id])
  }

  function Tenants(records: map<string, Deployment>): map<string, string> {
    map id | id in records :: records[id].cols.tenantId
  }

  ghost predicate Coherent(s: Store) {
    && (forall id :: id in s.records ==> s.records[id].cols.id == id && Allocated(s.docs, s.records[id].desired))
    && Indexes(s.byTenant, Tenants(s.records))
  }

  predicate Allocated(docs: seq<Document>, desired: Option<nat>) {
    desired.Some? ==> desired.value < |docs|
  }

  ghost predicate Synced(s: Store) {
    s.table == Rows(s)
  }

  /** Rows and records are of the same deployments with the same predecessors, though a row may lag behind. */
  ghost predicate Backed(s: Store) {
    && s.table.Keys == s.records.Keys
    && forall id :: id in s.table ==>
         s.table[id].cols.id == id && s.table[id].cols.previousId == s.records[id].cols.previousId
  }

  /** Another live deployment holds the map that this one would change. */
  ghost predicate Shared(s: Store, id: string)
    requires id in s.records
  {
    s.records[id].desired.Some? &&
    exists other :: other in s.records && other != id && s.records[other].desired == s.records[id].desired
  }

  /** The patch changes the contents of the map the deployment holds. */
  ghost predicate Changes(s: Store, id: string, r: PatchRequest)
    requires id in s.records
  {
    && r.desired.Some? && s.records[id].desired.Some?
    && Contents(s.docs, s.records[id].desired) + r.desired.value != Contents(s.docs, s.records[id].desired)
  }

  /**
   Changing some maps and saving one record keeps the table in step exactly when no other record's contents change.
   */
  lemma SavedSyncedIff(s: Store, docs: seq<Document>, d: Deployment)
    requires Synced(s) && (forall id :: id in s.records ==> s.records[id].cols.id == id)
    requires d.cols.id in s.records ==>
               && d.cols.tenantId == s.records[d.cols.id].cols.tenantId
               && d.cols.createdAt == s.records[d.cols.id].cols.createdAt
    ensures Synced(Saved(s.(docs := docs), d))
       <==> forall k :: k in s.records && k != d.cols.id ==>
           Contents(docs, s.records[k].desired) == Contents(s.docs, s.records[k].desired)
  {
    var t := Saved(s.(docs := docs), d);
    SavedRow(s, docs, d);
    assert t.table == s.table[d.cols.id := RowOf(docs, d)] && t.records == s.records[d.cols.id := d];
    forall k | k in s.records && k != d.cols.id
      ensures t.table[k] == Rows(t)[k]
             <==> Contents(docs, s.records[k].desired) == Contents(s.docs, s.records[k].desired)
    {
      assert t.table[k] == RowOf(s.docs, s.records[k]) && Rows(t)[k] == RowOf(docs, s.records[k]);
    }
    assert t.table.Keys == Rows(t).Keys && t.table[d.cols.id] == Rows(t)[d.cols.id];
  }

  lemma SavedRow(s: Store, docs: seq<Document>, d: Deployment)
    requires Synced(s) && (forall id :: id in s.records ==> s.records[id].cols.id == id)
    requires d.cols.id in s.records ==>
               && d.cols.tenantId == s.records[d.cols.id].cols.tenantId
               && d.cols.createdAt == s.records[d.cols.id].cols.createdAt
    ensures Saved(s.(docs := docs), d).table == s.table[d.cols.id := RowOf(docs, d)]
  {
  }

  function DocsAfter(s: Store, id: string, r: PatchRequest): seq<Document>
    requires id in s.records
  {
    var a := s.records[id].desired;
    if r.desired.None? then s.docs
    else if a.Some? && a.value < |s.docs| then s.docs[a.value := s.docs[a.value] + r.desired.value]
    else s.docs + [r.desired.value]
  }

  lemma PatchIsSave(s: Store, id: string, r: PatchRequest, now: int) returns (d: Deployment)
    requires Coherent(s) && id in s.records
    ensures AfterPatch(s, id, r, now) == Saved(s.(docs := DocsAfter(s, id, r)), d)
    ensures d.cols.id == id && d.cols.tenantId == s.records[id].cols.tenantId
           && d.cols.createdAt == s.records[id].cols.createdAt
    ensures d.cols.previousId == s.records[id].cols.previousId && Allocated(DocsAfter(s, id, r), d.desired)
  {
    d := AfterPatch(s, id, r, now).records[id];
    assert s.(docs := s.docs) == s;
  }

  /** A patch leaves the table in step with memory exactly when it changes no map that another deployment holds. */
  lemma PatchSyncedIff(s: Store, id: string, r: PatchRequest, now: int)
    requires Coherent(s) && Synced(s) && id in s.records
    ensures Synced(AfterPatch(s, id, r, now)) <==> !(Changes(s, id, r) && Shared(s, id))
  {
    var d := PatchIsSave(s, id, r, now);
    var docs := DocsAfter(s, id, r);
    SavedSyncedIff(s, docs, d);
    forall k | k in s.records && k != id
      ensures Contents(docs, s.records[k].desired) != Contents(s.docs, s.records[k].desired)
         <==> Changes(s, id, r) && s.records[k].desired == s.records[id].desired
    {
      OthersContents(s, id, r, k);
    }
  }

  lemma OthersContents(s: Store, id: string, r: PatchRequest, k: string)
    requires id in s.records && k in s.records
    requires Allocated(s.docs, s.records[id].desired) && Allocated(s.docs, s.records[k].desired)
    ensures Contents(DocsAfter(s, id, r), s.records[k].desired) != Contents(s.docs, s.records[k].desired)
       <==> Changes(s, id, r) && s.records[k].desired == s.records[id].desired
  {
  }

  lemma InsertedCoherent(s: Store, d: Deployment)
    requires Coherent(s) && d.cols.id !in s.records && Allocated(s.docs, d.desired)
    ensures Coherent(Inserted(s, d))
  {
    assert Tenants(s.records[d.cols.id := d]) == Tenants(s.records)[d.cols.id := d.cols.tenantId];
    AppendIndexesIff(s.byTenant, Tenants(s.records), d.cols.tenantId, d.cols.id);
  }

  lemma InsertedBacked(s: Store, d: Deployment)
    requires Backed(s) && d.cols.id !in s.records
    ensures Backed(Inserted(s, d))
  {
  }

  lemma InsertedKeeps(s: Store, d: Deployment)
    requires Coherent(s) && d.cols.id !in s.records && Allocated(s.docs, d.desired)
    ensures Coherent(Inserted(s, d)) && (Synced(s) ==> Synced(Inserted(s, d))) && (Backed(s) ==> Backed(Inserted(s, d)))
  {
    InsertedCoherent(s, d);
    if Backed(s) { InsertedBacked(s, d); }
    if Synced(s) { SavedSyncedIff(s, s.docs, d); }
  }

  lemma RollbackKeeps(s: Store, id: string, createdBy: string, newId: string, now: int)
    requires Coherent(s) && newId !in s.records
    ensures Coherent(AfterRollback(s, id, createdBy, newId, now))
    ensures Synced(s) ==> Synced(AfterRollback(s, id, createdBy, newId, now))
    ensures Backed(s) ==> Backed(AfterRollback(s, id, createdBy, newId, now))
  {
    if CanRollback(s, id) {
      var c := s.records[id].cols;
      InsertedKeeps(s, RollbackOf(c, s.records[c.previousId.value], createdBy, newId, now));
    }
  }

  lemma CreateKeeps(s: Store, c0: Columns, desired: Option<Document>, newId: string, now: int)
    requires Coherent(s) && WithDefaults(c0, newId, now).id !in s.records
    ensures Coherent(AfterCreate(s, c0, desired, newId, now))
    ensures Synced(s) ==> Synced(AfterCreate(s, c0, desired, newId, now))
    ensures Backed(s) ==> Backed(AfterCreate(s, c0, desired, newId, now))
  {
    var c := WithDefaults(c0, newId, now);
    if desired.None? {
      InsertedKeeps(s, Deployment(c, None));
    } else {
      MoreDocs(s, desired.value);
      InsertedKeeps(s.(docs := s.docs + [desired.value]), Deployment(c, Some(|s.docs|)));
    }
  }

  /** A map that no deployment holds yet changes nothing. */
  lemma MoreDocs(s: Store, doc: Document)
    requires Coherent(s)
    ensures var t := s.(docs := s.docs + [doc]); Coherent(t) && (Synced(s) ==> Synced(t)) && (Backed(s) ==> Backed(t))
  {
    var t := s.(docs := s.docs + [doc]);
    assert forall id :: id in s.records ==> RowOf(t.docs, s.records[id]) == RowOf(s.docs, s.records[id]);
    assert Rows(t) == Rows(s);
  }

  lemma DeleteKeeps(s: Store, id: string)
    requires Coherent(s)
    ensures Coherent(AfterDelete(s, id))
    ensures Synced(s) ==> Synced(AfterDelete(s, id))
    ensures Backed(s) ==> Backed(AfterDelete(s, id))
  {
    if id in s.records {
      assert Tenants(s.records - {id}) == Tenants(s.records) - {id};
      DropIndexes(s.byTenant, Tenants(s.records), id);
      assert Rows(AfterDelete(s, id)) == Rows(s) - {id};
    }
  }

  /** `d` is a changed version of a stored deployment, which keeps its id, tenant, creation time and predecessor. */
  ghost predicate IsVersion(s: Store, d: Deployment) {
    && d.cols.id in s.records
    && var c := s.records[d.cols.id].cols;
       d.cols.tenantId == c.tenantId && d.cols.createdAt == c.createdAt && d.cols.previousId == c.previousId
  }

  lemma VersionKeeps(s: Store, docs: seq<Document>, d: Deployment)
    requires Coherent(s) && IsVersion(s, d) && |docs| >= |s.docs| && Allocated(docs, d.desired)
    ensures Coherent(Saved(s.(docs := docs), d))
    ensures Backed(s) ==> Backed(Saved(s.(docs := docs), d))
  {
    assert Tenants(s.records[d.cols.id := d]) == Tenants(s.records);
  }

  lemma PatchKeeps(s: Store, id: string, r: PatchRequest, now: int)
    requires Coherent(s)
    ensures Coherent(AfterPatch(s, id, r, now))
    ensures Backed(s) ==> Backed(AfterPatch(s, id, r, now))
  {
    if id in s.records {
      var d := PatchIsSave(s, id, r, now);
      VersionKeeps(s, DocsAfter(s, id, r), d);
    }
  }

  lemma StatusKeeps(s: Store, d: Deployment)
    requires Coherent(s) && IsVersion(s, d) && d.desired == s.records[d.cols.id].desired
    ensures Coherent(Saved(s, d)) && (Synced(s) ==> Synced(Saved(s, d))) && (Backed(s) ==> Backed(Saved(s, d)))
  {
    assert s.(docs := s.docs) == s;
    VersionKeeps(s, s.docs, d);
    if Synced(s) { SavedSyncedIff(s, s.docs, d); }
  }

  lemma TransitionKeeps(s: Store, id: string, to: string, notes: Option<string>, now: int)
    requires Coherent(s)
    ensures var t := AfterTransition(s, id, to, notes, now);
            Coherent(t) && (Synced(s) ==> Synced(t)) && (Backed(s) ==> Backed(t))
  {
    var t := AfterTransition(s, id, to, notes, now);
    if id in s.records && CanTransition(s.records[id].cols.status, to) { StatusKeeps(s, t.records[id]); }
  }

  lemma DeprecateKeeps(s: Store, id: string, now: int)
    requires Coherent(s)
    ensures var t := AfterDeprecate(s, id, now); Coherent(t) && (Synced(s) ==> Synced(t)) && (Backed(s) ==> Backed(t))
  {
    if id in s.records { StatusKeeps(s, AfterDeprecate(s, id, now).records[id]); }
  }

  // ----- Restart -------------------------------------------------------------------------------

  function Restarted(s: Store, rows: seq<Row>): Store {
    AfterHydrate(Empty(s.table), rows)
  }

  ghost predicate Unshared(s: Store) {
    forall a, b :: a in s.records && b in s.records && a != b && s.records[a].desired.Some? ==>
      s.records[a].desired != s.records[b].desired
  }

  /** The rows are loaded, each with a map of its own. */
  ghost predicate LoadedFrom(t: Store, table: map<string, Row>) {
    && Rows(t) == table && Unshared(t)
    && forall id :: id in t.records ==> t.records[id].cols.id == id && Allocated(t.docs, t.records[id].desired)
  }

  lemma LoadsOne(s: Store, table: map<string, Row>, r: Row)
    requires LoadedFrom(s, table) && RowId(r) !in table
    ensures LoadedFrom(Loading(s, r), table[RowId(r) := r])
  {
    var t := Loading(s, r);
    assert forall id :: id in s.records ==> RowOf(t.docs, s.records[id]) == RowOf(s.docs, s.records[id]);
    assert RowOf(t.docs, t.records[RowId(r)]) == r;
    assert Rows(t) == Rows(s)[RowId(r) := r];
  }

  function Empty(table: map<string, Row>): Store {
    Store(map[], map[], [], table)
  }

  lemma {:induction false} LoadsIndex(rows: seq<Row>, durable: map<string, Row>)
    ensures var t := AfterHydrate(Empty(durable), rows);
            t.byTenant == IndexInto(map[], rows, RowId, RowTenant) && t.table == durable
    decreases |rows|
  {
    if rows != [] { LoadsIndex(rows[..|rows| - 1], durable); }
  }

  lemma {:induction false} LoadsTable(table: map<string, Row>, rows: seq<Row>, durable: map<string, Row>)
    requires Enumerates(rows, table, RowId)
    ensures LoadedFrom(AfterHydrate(Empty(durable), rows), table)
    decreases |rows|
  {
    if rows == [] {
      assert table == map[];
    } else {
      var n := |rows| - 1;
      var r, before := rows[n], rows[..n];
      Removing(rows, table, RowId);
      assert RowId(r) == r.cols.id && table[r.cols.id] == r;
      LoadsTable(table - {r.cols.id}, before, durable);
      PutBackRow(AfterHydrate(Empty(durable), before), table, r);
    }
  }

  lemma PutBackRow(s: Store, table: map<string, Row>, r: Row)
    requires r.cols.id in table && table[r.cols.id] == r && LoadedFrom(s, table - {r.cols.id})
    ensures LoadedFrom(Loading(s, r), table)
  {
    LoadsOne(s, table - {r.cols.id}, r);
    assert (table - {r.cols.id})[r.cols.id := r] == table;
  }

  /** After a restart the deployments are those of the rows, and no two of them share a map. */
  lemma RestartIsRows(s: Store, rows: seq<Row>)
    requires Enumerates(rows, s.table, RowId)
    ensures var t := Restarted(s, rows);
            t.table == s.table && Synced(t) && Unshared(t) && Coherent(t) && Backed(t)
  {
    var t := Restarted(s, rows);
    LoadsTable(s.table, rows, s.table);
    LoadsIndex(rows, s.table);
    Hydration.Indexed(rows, s.table, RowId, RowTenant);
    TenantsOfRows(t);
    SyncedBacked(t);
  }

  lemma TenantsOfRows(t: Store)
    ensures KeysOf(Rows(t), RowTenant) == Tenants(t.records)
  {
  }

  lemma SyncedBacked(t: Store)
    requires Synced(t) && forall id :: id in t.records ==> t.records[id].cols.id == id
    ensures Backed(t)
  {
  }

  /** A restart brings back columns and contents of every deployment exactly when the table was in step. */
  lemma RestartEquivalentIff(s: Store, rows: seq<Row>)
    requires Enumerates(rows, s.table, RowId)
    ensures Rows(Restarted(s, rows)) == Rows(s) <==> Synced(s)
  {
    RestartIsRows(s, rows);
  }

  /** The other of two deployments. */
  function Other(a: string, b: string, k: string): string {
    if k == a then b else a
  }

  /**
   A rollback holds its predecessor's map: changing the desired state of either changes both in memory, and a
   restart brings the other back without the change.
   */
  lemma RollbackThenPatchDiverges(s: Store, id: string, createdBy: string, newId: string, k: string, r: PatchRequest,
      now: int, rows: seq<Row>)
    requires Coherent(s) && Synced(s) && CanRollback(s, id) && newId !in s.records
    requires var prevId := s.records[id].cols.previousId.value; k == newId || k == prevId
    requires var prev := s.records[s.records[id].cols.previousId.value];
             prev.desired.Some? && r.desired.Some?
             && Contents(s.docs, prev.desired) + r.desired.value != Contents(s.docs, prev.desired)
    requires Enumerates(rows, AfterPatch(AfterRollback(s, id, createdBy, newId, now), k, r, now).table, RowId)
    ensures var u := AfterPatch(AfterRollback(s, id, createdBy, newId, now), k, r, now);
            var prevId := s.records[id].cols.previousId.value;
            var was, other := Contents(s.docs, s.records[prevId].desired), Other(newId, prevId, k);
            && other in Rows(u) && Rows(u)[other].desired == was + r.desired.value != was
            && other in Rows(Restarted(u, rows)) && Rows(Restarted(u, rows))[other].desired == was
  {
    var t := AfterRollback(s, id, createdBy, newId, now);
    var prevId := s.records[id].cols.previousId.value;
    RollbackKeeps(s, id, createdBy, newId, now);
    assert t.records[newId].desired == t.records[prevId].desired && t.docs == s.docs;
    SharedPatch(t, k, Other(newId, prevId, k), r, now);
    RestartIsRows(AfterPatch(t, k, r, now), rows);
  }

  /** Patching a map that another deployment holds changes the other in memory and not in the table. */
  lemma SharedPatch(t: Store, k: string, other: string, r: PatchRequest, now: int)
    requires Coherent(t) && Synced(t) && k in t.records && other in t.records && other != k
    requires r.desired.Some? && t.records[k].desired.Some? && t.records[other].desired == t.records[k].desired
    ensures var u, was := AfterPatch(t, k, r, now), Contents(t.docs, t.records[k].desired);
            && other in Rows(u) && Rows(u)[other].desired == was + r.desired.value
            && other in u.table && u.table[other].desired == was
  {
    var d := PatchIsSave(t, k, r, now);
  }

  // ----- Rolling back again and again ----------------------------------------------------------

  /** Rolls `id` back, then the rollback, and so on, giving the rollbacks the ids in order. */
  function Rollbacks(s: Store, id: string, createdBy: string, ids: seq<string>, now: int): Store {
    if ids == [] then s
    else AfterRollback(Rollbacks(s, id, createdBy, ids[..|ids| - 1], now),
                       Source(id, ids, |ids| - 1), createdBy, ids[|ids| - 1], now)
  }

  ghost predicate IsNthRollback(r: Deployment, d: Deployment, p: Deployment, before: string, n: nat) {
    && r.cols.previousId == Some(before)
    && r.cols.tenantId == d.cols.tenantId && r.cols.namespaceId == d.cols.namespaceId
    && r.cols.version == (if n % 2 == 0 then d.cols.version else p.cols.version)
    && r.cols.manifest == (if n % 2 == 0 then d.cols.manifest else p.cols.manifest)
    && r.desired == (if n % 2 == 0 then d.desired else p.desired)
  }

  function Source(id: string, ids: seq<string>, n: nat): string
    requires n <= |ids|
  {
    if n == 0 then id else ids[n - 1]
  }

  /** `t` is `s` with a rollback under each of `ids`, the first of `id`, each further one of the one before. */
  ghost predicate RolledBack(s: Store, t: Store, id: string, ids: seq<string>)
    requires CanRollback(s, id)
  {
    && (forall k :: k in s.records ==> k in t.records && t.records[k] == s.records[k])
    && (forall k :: k in t.records && k !in s.records ==> k in ids)
    && forall n :: 0 <= n < |ids| ==> RolledBackAt(s, t, id, ids, n)
  }

  ghost predicate RolledBackAt(s: Store, t: Store, id: string, ids: seq<string>, n: nat)
    requires CanRollback(s, id) && n < |ids|
  {
    var d := s.records[id];
    && ids[n] in t.records && t.records[ids[n]].cols.id == ids[n]
    && IsNthRollback(t.records[ids[n]], d, s.records[d.cols.previousId.value], Source(id, ids, n), n + 1)
  }

  /**
   The n-th rollback carries the predecessor's version, manifest and map when n is odd, the original's when n is
   even.
   */
  lemma {:induction false} RollbacksAlternate(s: Store, id: string, createdBy: string, ids: seq<string>, now: int)
    requires CanRollback(s, id) && s.records[id].cols.id == id
    requires NoDuplicates(ids) && forall k :: k in ids ==> k !in s.records
    ensures RolledBack(s, Rollbacks(s, id, createdBy, ids, now), id, ids)
    decreases |ids|
  {
    if ids != [] {
      var n := |ids| - 1;
      assert ids == ids[..n] + [ids[n]];
      RollbacksAlternate(s, id, createdBy, ids[..n], now);
      OneMoreRollback(s, Rollbacks(s, id, createdBy, ids[..n], now), id, createdBy, ids, n, now);
    }
  }

  lemma OneMoreRollback(s: Store, before: Store, id: string, createdBy: string, ids: seq<string>, n: nat, now: int)
    requires n + 1 == |ids| && CanRollback(s, id) && s.records[id].cols.id == id
    requires NoDuplicates(ids) && forall k :: k in ids ==> k !in s.records
    requires RolledBack(s, before, id, ids[..n])
    ensures RolledBack(s, AfterRollback(before, Source(id, ids, n), createdBy, ids[n], now), id, ids)
  {
    var t := AfterRollback(before, Source(id, ids, n), createdBy, ids[n], now);
    assert forall k :: 0 <= k < n ==> ids[..n][k] == ids[k];
    assert ids[n] !in ids[..n];
    forall k | 0 <= k < n ensures RolledBackAt(s, before, id, ids, k) {
      PrefixAt(s, before, id, ids, n, k);
    }
    NewestRollback(s, before, t, id, createdBy, ids, n, now);
    Extended(s, before, t, id, ids, n);
  }

  lemma PrefixAt(s: Store, t: Store, id: string, ids: seq<string>, n: nat, k: nat)
    requires CanRollback(s, id) && k < n <= |ids|
    ensures RolledBackAt(s, t, id, ids[..n], k) == RolledBackAt(s, t, id, ids, k)
  {
  }

  lemma Extended(s: Store, before: Store, t: Store, id: string, ids: seq<string>, n: nat)
    requires n + 1 == |ids| && NoDuplicates(ids) && CanRollback(s, id) && ids[n] !in before.records
            && ids[n] !in s.records
    requires forall k :: k in s.records ==> k in before.records && before.records[k] == s.records[k]
    requires forall k :: k in before.records && k !in s.records ==> k in ids[..n]
    requires forall k :: 0 <= k < n ==> RolledBackAt(s, before, id, ids, k)
    requires RolledBackAt(s, t, id, ids, n) && t.records == before.records[ids[n] := t.records[ids[n]]]
    ensures RolledBack(s, t, id, ids)
  {
    forall k | 0 <= k < n ensures RolledBackAt(s, t, id, ids, k) {
      assert RolledBackAt(s, before, id, ids, k);
    }
  }

  lemma NewestRollback(s: Store, before: Store, t: Store, id: string, createdBy: string, ids: seq<string>, n: nat,
      now: int)
    requires n < |ids| && CanRollback(s, id) && s.records[id].cols.id == id && ids[n] !in before.records
    requires forall k :: k in s.records ==> k in before.records && before.records[k] == s.records[k]
    requires n > 0 ==> RolledBackAt(s, before, id, ids, n - 1)
    requires n > 1 ==> RolledBackAt(s, before, id, ids, n - 2)
    requires t == AfterRollback(before, Source(id, ids, n), createdBy, ids[n], now)
    ensures RolledBackAt(s, t, id, ids, n) && t.records == before.records[ids[n] := t.records[ids[n]]]
  {
    assert CanRollback(before, Source(id, ids, n));
  }

  // ----- Chains --------------------------------------------------------------------------------

  datatype Op =
    | Create(c: Columns, desired: Option<Document>, newId: string, now: int)
    | Patch(id: string, r: PatchRequest, now: int)
    | Delete(id: string)
    | Rollback(id: string, createdBy: string, newId: string, now: int)
    | Transition(id: string, to: string, notes: Option<string>, now: int)
    | Deprecate(id: string, now: int)
    | Restart(rows: seq<Row>)

  /** A store with the ids ever given out, the order they were given out in, and those ever named as predecessors. */
  datatype History = History(store: Store, born: map<string, nat>, named: set<string>)

  /** The id was never given out or named before. */
  predicate Unheard(h: History, id: string) {
    id !in h.born && id !in h.named
  }

  /** New ids are unheard of, the request that gets one included, and a restart reads all rows. */
  ghost predicate Admissible(h: History, op: Op) {
    match op
    case Create(c, _, newId, now) =>
      Unheard(h, WithDefaults(c, newId, now).id) && c.previousId != Some(WithDefaults(c, newId, now).id)
    case Rollback(id, _, newId, _) => Unheard(h, newId)
    case Restart(rows) => Enumerates(rows, h.store.table, RowId)
    case _ => true
  }

  function Apply(s: Store, op: Op): Store {
    match op
    case Create(c, desired, newId, now) => AfterCreate(s, c, desired, newId, now)
    case Patch(id, r, now) => AfterPatch(s, id, r, now)
    case Delete(id) => AfterDelete(s, id)
    case Rollback(id, createdBy, newId, now) => AfterRollback(s, id, createdBy, newId, now)
    case Transition(id, to, notes, now) => AfterTransition(s, id, to, notes, now)
    case Deprecate(id, now) => AfterDeprecate(s, id, now)
    case Restart(rows) => Restarted(s, rows)
  }

  function WithNamed(named: set<string>, previousId: Option<string>): set<string> {
    if previousId.Some? then named + {previousId.value} else named
  }

  function Next(h: History, op: Op): History {
    var s := Apply(h.store, op);
    match op
    case Create(c, _, newId, now) =>
      History(s, h.born[WithDefaults(c, newId, now).id := |h.born|], WithNamed(h.named, c.previousId))
    case Rollback(id, _, newId, _) =>
      if CanRollback(h.store, id)
      then History(s, h.born[newId := |h.born|], WithNamed(h.named, Some(h.store.records[id].cols.id)))
      else History(s, h.born, h.named)
    case _ => History(s, h.born, h.named)
  }

  /** A predecessor that was ever given out, live or not, was born before its successor. */
  ghost predicate Ordered(h: History) {
    && (forall id :: id in h.born ==> h.born[id] < |h.born|)
    && (forall id :: id in h.store.records ==>
          id in h.born && h.store.records[id].cols.id == id && Follows(h, id, h.store.records[id].cols.previousId))
  }

  ghost predicate Follows(h: History, id: string, previousId: Option<string>)
    requires id in h.born
  {
    previousId.Some? ==>
      previousId.value in h.named && (previousId.value in h.born ==> h.born[previousId.value] < h.born[id])
  }

  lemma InsertedOrdered(h: History, d: Deployment, docs: seq<Document>)
    requires Ordered(h) && Unheard(h, d.cols.id) && d.cols.previousId != Some(d.cols.id)
    ensures Ordered(History(Inserted(h.store.(docs := docs), d), h.born[d.cols.id := |h.born|],
                            WithNamed(h.named, d.cols.previousId)))
  {
    assert |h.born[d.cols.id := |h.born|]| == |h.born| + 1;
  }

  lemma CreateOrdered(h: History, c0: Columns, desired: Option<Document>, newId: string, now: int)
    requires Ordered(h) && Admissible(h, Op.Create(c0, desired, newId, now))
    ensures Ordered(Next(h, Op.Create(c0, desired, newId, now)))
  {
    var c := WithDefaults(c0, newId, now);
    if desired.None? {
      InsertedOrdered(h, Deployment(c, None), h.store.docs);
    } else {
      InsertedOrdered(h, Deployment(c, Some(|h.store.docs|)), h.store.docs + [desired.value]);
    }
  }

  lemma RollbackOrdered(h: History, id: string, createdBy: string, newId: string, now: int)
    requires Ordered(h) && Unheard(h, newId)
    ensures Ordered(Next(h, Op.Rollback(id, createdBy, newId, now)))
  {
    if CanRollback(h.store, id) {
      var original := h.store.records[id];
      var prev := h.store.records[original.cols.previousId.value];
      InsertedOrdered(h, RollbackOf(original.cols, prev, createdBy, newId, now), h.store.docs);
    }
  }

  lemma NextOrdered(h: History, op: Op)
    requires Ordered(h) && Coherent(h.store) && Backed(h.store) && Admissible(h, op)
    ensures Ordered(Next(h, op))
  {
    match op
    case Create(c, desired, newId, now) => CreateOrdered(h, c, desired, newId, now);
    case Rollback(id, createdBy, newId, now) => RollbackOrdered(h, id, createdBy, newId, now);
    case _ =>
      OthersKeepEdges(h, op);
      SameEdges(h, Apply(h.store, op));
  }

  ghost predicate EdgesKept(s: Store, t: Store) {
    forall id :: id in t.records ==>
      id in s.records && t.records[id].cols.id == id && t.records[id].cols.previousId == s.records[id].cols.previousId
  }

  lemma VersionEdges(s: Store, docs: seq<Document>, d: Deployment)
    requires IsVersion(s, d) && forall id :: id in s.records ==> s.records[id].cols.id == id
    ensures EdgesKept(s, Saved(s.(docs := docs), d))
  {
  }

  lemma RestartEdges(s: Store, rows: seq<Row>)
    requires Backed(s) && Enumerates(rows, s.table, RowId)
    ensures EdgesKept(s, Restarted(s, rows))
  {
    var t := Restarted(s, rows);
    RestartIsRows(s, rows);
    assert forall id :: id in t.records ==> Rows(t)[id].cols == t.records[id].cols;
  }

  lemma OthersKeepEdges(h: History, op: Op)
    requires Ordered(h) && Coherent(h.store) && Backed(h.store) && Admissible(h, op) && !op.Create? && !op.Rollback?
    ensures EdgesKept(h.store, Apply(h.store, op))
  {
    var s, t := h.store, Apply(h.store, op);
    assert s.(docs := s.docs) == s;
    match op
    case Delete(id) =>
    case Restart(rows) => RestartEdges(s, rows);
    case Patch(id, r, now) => if id in s.records {
        var d := PatchIsSave(s, id, r, now);
        VersionEdges(s, DocsAfter(s, id, r), d);
      }
    case Transition(id, _, _, _) => if id in s.records { VersionEdges(s, s.docs, t.records[id]); }
    case Deprecate(id, _) => if id in s.records { VersionEdges(s, s.docs, t.records[id]); }
  }

  lemma SameEdges(h: History, s: Store)
    requires Ordered(h) && EdgesKept(h.store, s)
    ensures Ordered(History(s, h.born, h.named))
  {
  }

  /** A patch that changes a map another deployment holds. */
  ghost predicate Breaks(s: Store, op: Op) {
    op.Patch? && op.id in s.records && Changes(s, op.id, op.r) && Shared(s, op.id)
  }

  lemma ApplyKeeps(h: History, op: Op)
    requires Ordered(h) && Coherent(h.store) && Backed(h.store) && Admissible(h, op)
    ensures Coherent(Apply(h.store, op)) && Backed(Apply(h.store, op))
    ensures Synced(h.store) && !Breaks(h.store, op) ==> Synced(Apply(h.store, op))
  {
    match op
    case Create(c, desired, newId, now) => CreateKeeps(h.store, c, desired, newId, now);
    case Patch(id, r, now) =>
      PatchKeeps(h.store, id, r, now);
      if Synced(h.store) && id in h.store.records { PatchSyncedIff(h.store, id, r, now); }
    case Delete(id) => DeleteKeeps(h.store, id);
    case Rollback(id, createdBy, newId, now) => RollbackKeeps(h.store, id, createdBy, newId, now);
    case Transition(id, to, notes, now) => TransitionKeeps(h.store, id, to, notes, now);
    case Deprecate(id, now) => DeprecateKeeps(h.store, id, now);
    case Restart(rows) => RestartIsRows(h.store, rows);
  }

  ghost predicate IsRun(hs: seq<History>, ops: seq<Op>) {
    && |hs| == |ops| + 1 && hs[0] == History(Store(map[], map[], [], map[]), map[], {})
    && forall i :: 0 <= i < |ops| ==> Admissible(hs[i], ops[i]) && hs[i + 1] == Next(hs[i], ops[i])
  }

  lemma RunStep(hs: seq<History>, ops: seq<Op>, i: nat)
    requires IsRun(hs, ops) && i < |ops|
    ensures Admissible(hs[i], ops[i]) && hs[i + 1] == Next(hs[i], ops[i])
           && hs[i + 1].store == Apply(hs[i].store, ops[i])
  {
  }

  /** What each step keeps. */
  ghost predicate Sound(h: History) {
    Ordered(h) && Coherent(h.store) && Backed(h.store)
  }

  lemma NextSound(h: History, op: Op)
    requires Sound(h) && Admissible(h, op)
    ensures Sound(Next(h, op)) && (Synced(h.store) && !Breaks(h.store, op) ==> Synced(Next(h, op).store))
  {
    NextOrdered(h, op);
    ApplyKeeps(h, op);
  }

  lemma StartsSound()
    ensures Sound(History(Store(map[], map[], [], map[]), map[], {})) && Synced(Store(map[], map[], [], map[]))
  {
    NothingIndexed();
    assert Tenants(map[]) == map[] && Rows(Store(map[], map[], [], map[])) == map[];
  }

  /** Over every run, restarts included, no chain of predecessors can loop, and the index is right. */
  lemma {:induction false} AlwaysOrdered(hs: seq<History>, ops: seq<Op>, i: nat)
    requires IsRun(hs, ops) && i < |hs|
    ensures Sound(hs[i])
    decreases i
  {
    if i == 0 {
      StartsSound();
    } else {
      AlwaysOrdered(hs, ops, i - 1);
      RunStep(hs, ops, i - 1);
      NextSound(hs[i - 1], ops[i - 1]);
    }
  }

  ghost predicate NoneBreaks(hs: seq<History>, ops: seq<Op>, i: nat, j: nat)
    requires |hs| == |ops| + 1
  {
    forall k :: i <= k < j <= |ops| ==> !Breaks(hs[k].store, ops[k])
  }

  lemma InStepAtFirst(hs: seq<History>, ops: seq<Op>, i: nat)
    requires IsRun(hs, ops) && i < |hs| && (i == 0 || ops[i - 1].Restart?)
    ensures Synced(hs[i].store)
  {
    if i == 0 {
      StartsSound();
    } else {
      RunStep(hs, ops, i - 1);
      RestartIsRows(hs[i - 1].store, ops[i - 1].rows);
    }
  }

  lemma StaysInStep(hs: seq<History>, ops: seq<Op>, k: nat)
    requires IsRun(hs, ops) && k < |ops| && Synced(hs[k].store) && !Breaks(hs[k].store, ops[k])
    ensures Synced(hs[k + 1].store)
  {
    AlwaysOrdered(hs, ops, k);
    RunStep(hs, ops, k);
    NextSound(hs[k], ops[k]);
  }

  /** From the start or a restart on, the table is in step until a patch changes a shared map. */
  lemma {:induction false} SyncedUntilShared(hs: seq<History>, ops: seq<Op>, i: nat, j: nat)
    requires IsRun(hs, ops) && i <= j < |hs| && (i == 0 || ops[i - 1].Restart?) && NoneBreaks(hs, ops, i, j)
    ensures Synced(hs[j].store)
    decreases j
  {
    if i == j {
      InStepAtFirst(hs, ops, i);
    } else {
      var k := j - 1;
      assert !Breaks(hs[k].store, ops[k]);
      SyncedUntilShared(hs, ops, i, k);
      StaysInStep(hs, ops, k);
    }
  }

  /** The chain of live predecessors of a deployment, from itself on. */
  ghost function Chain(h: History, id: string): (chain: seq<string>)
    requires Ordered(h) && id in h.store.records
    ensures |chain| >= 1 && chain[0] == id
    ensures forall k :: 0 <= k < |chain| ==> chain[k] in h.born && h.born[chain[k]] <= h.born[id]
    decreases h.born[id]
  {
    var p := h.store.records[id].cols.previousId;
    if p.Some? && p.value in h.store.records then [id] + Chain(h, p.value) else [id]
  }

  /** It ends, each member is older than the one before, and so none comes twice. */
  lemma {:induction false} ChainDescends(h: History, id: string)
    requires Ordered(h) && id in h.store.records
    ensures forall i, j :: 0 <= i < j < |Chain(h, id)| ==> h.born[Chain(h, id)[j]] < h.born[Chain(h, id)[i]]
    ensures NoDuplicates(Chain(h, id)) && |Chain(h, id)| <= h.born[id] + 1
    decreases h.born[id]
  {
    var p := h.store.records[id].cols.previousId;
    if p.Some? && p.value in h.store.records {
      ChainDescends(h, p.value);
      var rest := Chain(h, p.value);
      assert Chain(h, id) == [id] + rest;
    }
  }
}
