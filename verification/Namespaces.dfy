/** The namespace store: unique names within a tenant, looked up through one index of composite keys. */
module Namespaces {
  import opened Hydration
  import opened IdLists
  import opened Keys
  import opened Records

  const ZERO_TIME := 0
  const SEPARATOR := "::"

  datatype Quota = Quota(maxAgents: int, maxStorageGB: int, maxConcurrentWorkflows: int)

  type Document = map<string, string>

  datatype Config = Config(networkPolicy: string, isolationLevel: string, tags: Option<Document>,
      extra: Option<Document>)

  datatype Namespace = Namespace(
    id: string, tenantId: string, name: string, description: string, status: string, config: Config,
    quota: Option<Quota>, createdAt: int, updatedAt: int)

  datatype PatchRequest = PatchRequest(description: string, status: string, config: Config, quota: Option<Quota>)

  datatype Row = Row(
    id: string, tenantId: string, name: string, description: string, status: string, config: Config,
    quota: Quota, createdAt: int, updatedAt: int)

  /** What JSON keeps of an optional object: an empty one is omitted like a missing one. */
  function JsonDocument(d: Option<Document>): Option<Document> {
    if d == Some(map[]) then None else d
  }

  /** A nil quota is written as an empty object, which is read back as a quota of zeros. */
  function RowOf(ns: Namespace): Row {
    Row(ns.id, ns.tenantId, ns.name, ns.description, ns.status,
        ns.config.(tags := JsonDocument(ns.config.tags), extra := JsonDocument(ns.config.extra)),
        if ns.quota.Some? then ns.quota.value else Quota(0, 0, 0), ns.createdAt, ns.updatedAt)
  }

  function FromRow(r: Row): Namespace {
    Namespace(r.id, r.tenantId, r.name, r.description, r.status, r.config, Some(r.quota), r.createdAt, r.updatedAt)
  }

  function Upsert(table: map<string, Row>, row: Row): map<string, Row> {
    table[row.id :=
      if row.id in table then row.(tenantId := table[row.id].tenantId, createdAt := table[row.id].createdAt) else row]
  }

  function NameKey(tenantId: string, name: string): string {
    tenantId + SEPARATOR + name
  }

  function KeyOf(ns: Namespace): string {
    NameKey(ns.tenantId, ns.name)
  }

  datatype Store = Store(
    records: map<string, Namespace>, byTenant: Index, byName: map<string, string>, table: map<string, Row>)

  function WithDefaults(ns: Namespace, newId: string, now: int): Namespace {
    ns.(id := if ns.id == "" then newId else ns.id,
        status := if ns.status == "" then "provisioning" else ns.status,
        createdAt := if ns.createdAt == ZERO_TIME then now else ns.createdAt,
        updatedAt := now,
        config := ns.config.(
          isolationLevel := if ns.config.isolationLevel == "" then "namespace" else ns.config.isolationLevel,
          networkPolicy := if ns.config.networkPolicy == "" then "deny-all" else ns.config.networkPolicy))
  }

  function AfterCreate(s: Store, ns0: Namespace, newId: string, now: int): Store {
    var ns := WithDefaults(ns0, newId, now);
    if KeyOf(ns) in s.byName then s
    else Store(s.records[ns.id := ns], Append(s.byTenant, ns.tenantId, ns.id), s.byName[KeyOf(ns) := ns.id],
               Upsert(s.table, RowOf(ns)))
  }

  function MergedDocument(d: Option<Document>, r: Option<Document>): Option<Document> {
    if r.None? then d else if d.None? then r else Some(d.value + r.value)
  }

  /** The fields a patch sets before it comes to the quota. */
  function PatchedFields(ns: Namespace, r: PatchRequest): Namespace {
    ns.(description := if r.description != "" then r.description else ns.description,
        status := if r.status != "" then r.status else ns.status,
        config := Config(
          if r.config.networkPolicy != "" then r.config.networkPolicy else ns.config.networkPolicy,
          if r.config.isolationLevel != "" then r.config.isolationLevel else ns.config.isolationLevel,
          MergedDocument(ns.config.tags, r.config.tags),
          MergedDocument(ns.config.extra, r.config.extra)))
  }

  predicate SetsQuota(r: PatchRequest) {
    r.quota.Some? && (r.quota.value.maxAgents > 0 || r.quota.value.maxStorageGB > 0
        || r.quota.value.maxConcurrentWorkflows > 0)
  }

  /** Setting a limit of a quota that is not there dereferences nil. */
  predicate Panics(ns: Namespace, r: PatchRequest) {
    ns.quota.None? && SetsQuota(r)
  }

  function PatchedQuota(q: Quota, r: Quota): Quota {
    Quota(if r.maxAgents > 0 then r.maxAgents else q.maxAgents,
          if r.maxStorageGB > 0 then r.maxStorageGB else q.maxStorageGB,
          if r.maxConcurrentWorkflows > 0 then r.maxConcurrentWorkflows else q.maxConcurrentWorkflows)
  }

  function Patched(ns: Namespace, r: PatchRequest, now: int): Namespace
    requires !Panics(ns, r)
  {
    PatchedFields(ns, r).(
      quota := if SetsQuota(r) then Some(PatchedQuota(ns.quota.value, r.quota.value)) else ns.quota,
      updatedAt := now)
  }

  function AfterPatch(s: Store, id: string, r: PatchRequest, now: int): Store {
    if id !in s.records then s
    else if Panics(s.records[id], r) then s.(records := s.records[id := PatchedFields(s.records[id], r)])
    else
      var ns := Patched(s.records[id], r, now);
      s.(records := s.records[id := ns], table := Upsert(s.table, RowOf(ns)))
  }

  function AfterDelete(s: Store, id: string): Store {
    if id !in s.records then s
    else
      var ns := s.records[id];
      Store(s.records - {id}, Drop(s.byTenant, ns.tenantId, id), s.byName - {KeyOf(ns)}, s.table - {id})
  }

  function RowId(r: Row): string { r.id }
  function RowTenant(r: Row): string { r.tenantId }
  function RowKey(r: Row): string { NameKey(r.tenantId, r.name) }

  function AfterHydrate(s: Store, rows: seq<Row>): Store {
    s.(records := LoadInto(s.records, rows, RowId, FromRow),
       byTenant := IndexInto(s.byTenant, rows, RowId, RowTenant),
       byName := LoadInto(s.byName, rows, RowKey, RowId))
  }

  function Lookup(s: Store, tenantId: string, name: string): Option<Namespace> {
    var key := NameKey(tenantId, name);
    if key in s.byName && s.byName[key] in s.records then Some(s.records[s.byName[key]]) else None
  }

  datatype PatchResult = NotFound | Done | Panic

  function Loading(s: Store, r: Row): Store {
    s.(records := s.records[r.id := FromRow(r)], byTenant := Append(s.byTenant, r.tenantId, r.id),
        byName := s.byName[RowKey(r) := r.id])
  }

  class NamespaceStore {
    var namespaces: map<string, Record<Namespace>>
    var byTenant: Index
    var byName: map<string, string>
    var table: map<string, Row>

    ghost predicate Valid()
      reads this`namespaces, namespaces.Values
    {
      forall id :: id in namespaces ==> namespaces[id].value.id == id
    }

    ghost function Contents(): map<string, Namespace>
      reads this`namespaces, namespaces.Values
    {
      map id | id in namespaces :: namespaces[id].value
    }

    ghost function State(): Store
      reads this, namespaces.Values
    {
      Store(Contents(), byTenant, byName, table)
    }

    constructor (table: map<string, Row>)
      ensures Valid() && State() == Store(map[], map[], map[], table)
    {
      namespaces, byTenant, byName, this.table := map[], map[], map[], table;
    }

    method Put(e: Record<Namespace>)
      requires Valid() && e !in namespaces.Values
      modifies this`namespaces
      ensures Valid() && namespaces == old(namespaces)[e.value.id := e]
      ensures Contents() == old(Contents())[e.value.id := e.value]
    {
      namespaces := namespaces[e.value.id := e];
      assert Contents() == old(Contents())[e.value.id := e.value];
    }

    method FillDefaults(e: Record<Namespace>, newId: string, now: int)
      modifies e
      ensures e.value == WithDefaults(old(e.value), newId, now)
    {
      if e.value.id == "" {
        e.value := e.value.(id := newId);
      }
      if e.value.status == "" {
        e.value := e.value.(status := "provisioning");
      }
      if e.value.createdAt == ZERO_TIME {
        e.value := e.value.(createdAt := now);
      }
      e.value := e.value.(updatedAt := now);
      var config := e.value.config;
      if config.isolationLevel == "" {
        config := config.(isolationLevel := "namespace");
      }
      if config.networkPolicy == "" {
        config := config.(networkPolicy := "deny-all");
      }
      e.value := e.value.(config := config);
    }

    /** `e` is a record of the caller's, not one already stored; unless refused it becomes the stored one. */
    method Create(e: Record<Namespace>, newId: string, now: int) returns (ok: bool)
      requires Valid() && e !in namespaces.Values
      modifies this, e
      ensures Valid() && State() == AfterCreate(old(State()), old(e.value), newId, now)
      ensures ok <==> KeyOf(old(e.value)) !in old(byName)
    {
      ghost var before := Contents();
      FillDefaults(e, newId, now);
      assert Contents() == before;
      var ns := e.value;
      var key := KeyOf(ns);
      if key in byName {
        return false;
      }
      Put(e);
      byTenant := Append(byTenant, ns.tenantId, ns.id);
      byName := byName[key := ns.id];
      table := Upsert(table, RowOf(ns));
      return true;
    }

    method GetByName(tenantId: string, name: string) returns (r: Option<Namespace>)
      ensures r == Lookup(State(), tenantId, name)
    {
      var key := NameKey(tenantId, name);
      if key !in byName || byName[key] !in namespaces {
        return None;
      }
      return Some(namespaces[byName[key]].value);
    }

    method PatchFields(e: Record<Namespace>, r: PatchRequest)
      modifies e
      ensures e.value == PatchedFields(old(e.value), r)
    {
      var description, status, config := e.value.description, e.value.status, e.value.config;
      if r.description != "" {
        description := r.description;
      }
      if r.status != "" {
        status := r.status;
      }
      if r.config.networkPolicy != "" {
        config := config.(networkPolicy := r.config.networkPolicy);
      }
      if r.config.isolationLevel != "" {
        config := config.(isolationLevel := r.config.isolationLevel);
      }
      config := config.(tags := MergedDocument(config.tags, r.config.tags),
          extra := MergedDocument(config.extra, r.config.extra));
      e.value := e.value.(description := description, status := status, config := config);
    }

    method PatchQuota(e: Record<Namespace>, r: Quota) returns (panic: bool)
      modifies e
      ensures var ns := old(e.value);
              && (panic <==> ns.quota.None? && (r.maxAgents > 0 || r.maxStorageGB > 0 || r.maxConcurrentWorkflows > 0))
              && e.value == if ns.quota.Some? then ns.(quota := Some(PatchedQuota(ns.quota.value, r))) else ns
    {
      if e.value.quota.None? {
        return r.maxAgents > 0 || r.maxStorageGB > 0 || r.maxConcurrentWorkflows > 0;
      }
      var q := e.value.quota.value;
      if r.maxAgents > 0 {
        q := q.(maxAgents := r.maxAgents);
      }
      if r.maxStorageGB > 0 {
        q := q.(maxStorageGB := r.maxStorageGB);
      }
      if r.maxConcurrentWorkflows > 0 {
        q := q.(maxConcurrentWorkflows := r.maxConcurrentWorkflows);
      }
      e.value := e.value.(quota := Some(q));
      return false;
    }

    method PatchRecord(e: Record<Namespace>, r: PatchRequest, now: int) returns (panic: bool)
      modifies e
      ensures panic == Panics(old(e.value), r)
      ensures e.value == if panic then PatchedFields(old(e.value), r) else Patched(old(e.value), r, now)
    {
      PatchFields(e, r);
      if r.quota.Some? {
        panic := PatchQuota(e, r.quota.value);
        if panic {
          return;
        }
      }
      e.value := e.value.(updatedAt := now);
      return false;
    }

    method Patch(id: string, r: PatchRequest, now: int) returns (result: PatchResult)
      requires Valid()
      modifies this`table, namespaces.Values
      ensures Valid() && State() == AfterPatch(old(State()), id, r, now)
      ensures result == if id !in namespaces then NotFound
                        else if Panics(old(Contents())[id], r) then Panic else Done
    {
      if id !in namespaces {
        return NotFound;
      }
      var e := namespaces[id];
      ghost var before := Contents();
      var panic := PatchRecord(e, r, now);
      assert Contents() == before[id := e.value];
      if panic {
        return Panic;
      }
      table := Upsert(table, RowOf(e.value));
      return Done;
    }

    method Delete(id: string) returns (found: bool)
      requires Valid()
      modifies this
      ensures Valid() && found == (id in old(namespaces)) && State() == AfterDelete(old(State()), id)
    {
      if id !in namespaces {
        return false;
      }
      ghost var before := Contents();
      var ns := namespaces[id].value;
      table := table - {id};
      byTenant := DropFrom(byTenant, ns.tenantId, id);
      byName := byName - {KeyOf(ns)};
      namespaces := namespaces - {id};
      assert Contents() == before - {id};
      return true;
    }

    method Load(r: Row)
      requires Valid()
      modifies this
      ensures Valid() && State() == Loading(old(State()), r)
    {
      var e := new Record(FromRow(r));
      Put(e);
      byTenant := Append(byTenant, r.tenantId, r.id);
      byName := byName[RowKey(r) := r.id];
    }

    method HydrateNamespaces(rows: seq<Row>)
      requires Valid()
      modifies this
      ensures Valid() && State() == AfterHydrate(old(State()), rows)
    {
      ghost var was := State();
      for i := 0 to |rows|
        invariant Valid() && State() == AfterHydrate(old(State()), rows[..i])
      {
        LoadStep(was.records, rows, i, RowId, FromRow);
        IndexStep(was.byTenant, rows, i, RowId, RowTenant);
        LoadStep(was.byName, rows, i, RowKey, RowId);
        Load(rows[i]);
      }
      assert rows[..|rows|] == rows;
    }
  }

  // ----- The name index ------------------------------------------------------------------------

  function Tenants(records: map<string, Namespace>): map<string, string> {
    map id | id in records :: records[id].tenantId
  }

  function Rows(records: map<string, Namespace>): map<string, Row> {
    map id | id in records :: RowOf(records[id])
  }

  /** Keys of live namespaces and their ids correspond one to one. */
  ghost predicate NamesIndexed(records: map<string, Namespace>, byName: map<string, string>) {
    && (forall id :: id in records ==> KeyOf(records[id]) in byName && byName[KeyOf(records[id])] == id)
    && (forall key :: key in byName ==> byName[key] in records && KeyOf(records[byName[key]]) == key)
  }

  ghost predicate Indexed(s: Store) {
    && (forall id :: id in s.records ==> s.records[id].id == id)
    && Indexes(s.byTenant, Tenants(s.records)) && NamesIndexed(s.records, s.byName)
  }

  ghost predicate Synced(s: Store) {
    s.table == Rows(s.records)
  }

  /** Rows and records are of the same namespaces, though a row may lag behind its record. */
  ghost predicate Backed(s: Store) {
    && s.table.Keys == s.records.Keys
    && forall id :: id in s.table ==>
         s.table[id].id == id && s.table[id].tenantId == s.records[id].tenantId
             && s.table[id].name == s.records[id].name
  }

  /** A lookup by name is a scan by tenant and name exactly when no other live namespace shares the key. */
  lemma LookupIsScanIff(s: Store, tenantId: string, name: string)
    requires Indexed(s)
    ensures IsScan(s.records, tenantId, name, Lookup(s, tenantId, name))
       <==> forall id :: id in s.records && KeyOf(s.records[id]) == NameKey(tenantId, name) ==>
           Named(s.records[id], tenantId, name)
  {
    var key := NameKey(tenantId, name);
    forall id | id in s.records && Named(s.records[id], tenantId, name) ensures KeyOf(s.records[id]) == key {
    }
  }

  ghost predicate Named(ns: Namespace, tenantId: string, name: string) {
    ns.tenantId == tenantId && ns.name == name
  }

  /** `r` is the one record of that tenant and name, or none if there is none. */
  ghost predicate IsScan(records: map<string, Namespace>, tenantId: string, name: string, r: Option<Namespace>) {
    if r.Some? then
      && Named(r.value, tenantId, name) && r.value.id in records && records[r.value.id] == r.value
      && forall id :: id in records && Named(records[id], tenantId, name) ==> id == r.value.id
    else forall id :: id in records ==> !Named(records[id], tenantId, name)
  }

  ghost predicate ColonFree(records: map<string, Namespace>) {
    forall id :: id in records ==> Free(records[id].tenantId, ':')
  }

  /** With colon-free tenants every lookup is a scan, and a name is refused exactly when the tenant has it. */
  lemma ColonFreeLookups(s: Store, tenantId: string, name: string)
    requires Indexed(s) && ColonFree(s.records) && Free(tenantId, ':')
    ensures IsScan(s.records, tenantId, name, Lookup(s, tenantId, name))
    ensures NameKey(tenantId, name) in s.byName
           <==> exists id :: id in s.records && Named(s.records[id], tenantId, name)
  {
    forall id | id in s.records && KeyOf(s.records[id]) == NameKey(tenantId, name)
      ensures Named(s.records[id], tenantId, name)
    {
      FreeOwnersInjective(SEPARATOR, s.records[id].tenantId, s.records[id].name, tenantId, name);
    }
    LookupIsScanIff(s, tenantId, name);
  }

  // ----- Runs ----------------------------------------------------------------------------------

  lemma CreateIndexed(s: Store, ns0: Namespace, newId: string, now: int)
    requires Indexed(s) && WithDefaults(ns0, newId, now).id !in s.records
    ensures Indexed(AfterCreate(s, ns0, newId, now))
  {
    var ns := WithDefaults(ns0, newId, now);
    if KeyOf(ns) !in s.byName {
      assert Tenants(s.records[ns.id := ns]) == Tenants(s.records)[ns.id := ns.tenantId];
      AppendIndexesIff(s.byTenant, Tenants(s.records), ns.tenantId, ns.id);
    }
  }

  lemma CreateStored(s: Store, ns0: Namespace, newId: string, now: int)
    requires WithDefaults(ns0, newId, now).id !in s.records
    ensures Backed(s) ==> Backed(AfterCreate(s, ns0, newId, now))
    ensures Synced(s) ==> Synced(AfterCreate(s, ns0, newId, now))
  {
    RowsPut(s.records, WithDefaults(ns0, newId, now));
  }

  lemma RowsPut(records: map<string, Namespace>, ns: Namespace)
    ensures Rows(records[ns.id := ns]) == Rows(records)[ns.id := RowOf(ns)]
  {
  }

  /** Replacing a record by one of the same id, tenant and name changes no index. */
  lemma ReplacedIndexed(s: Store, ns: Namespace)
    requires Indexed(s) && ns.id in s.records
    requires ns.tenantId == s.records[ns.id].tenantId && ns.name == s.records[ns.id].name
    ensures Indexed(s.(records := s.records[ns.id := ns]))
  {
    assert Tenants(s.records[ns.id := ns]) == Tenants(s.records);
  }

  lemma PatchKeepsIndexes(s: Store, id: string, r: PatchRequest, now: int)
    requires Indexed(s)
    ensures Indexed(AfterPatch(s, id, r, now))
  {
    if id in s.records {
      ReplacedIndexed(s, AfterPatch(s, id, r, now).records[id]);
    }
  }

  lemma PatchKeepsRows(s: Store, id: string, r: PatchRequest, now: int)
    requires Indexed(s) && Backed(s)
    ensures Backed(AfterPatch(s, id, r, now))
  {
  }

  /** The patch panics after it has changed what a row holds. */
  predicate PanicsHalfway(ns: Namespace, r: PatchRequest) {
    Panics(ns, r) && RowOf(PatchedFields(ns, r)) != RowOf(ns)
  }

  /** A patch leaves the table in step with memory exactly when it does not panic half way through a change. */
  lemma PatchSyncedIff(s: Store, id: string, r: PatchRequest, now: int)
    requires Indexed(s) && Synced(s) && id in s.records
    ensures Synced(AfterPatch(s, id, r, now)) <==> !PanicsHalfway(s.records[id], r)
  {
    var after := AfterPatch(s, id, r, now);
    RowsPut(s.records, after.records[id]);
    if Panics(s.records[id], r) {
      assert Rows(after.records)[id] == RowOf(PatchedFields(s.records[id], r));
      assert Rows(s.records)[id := RowOf(s.records[id])] == Rows(s.records);
    }
  }

  lemma DeleteKeeps(s: Store, id: string)
    requires Indexed(s)
    ensures Indexed(AfterDelete(s, id))
    ensures Backed(s) ==> Backed(AfterDelete(s, id))
    ensures Synced(s) ==> Synced(AfterDelete(s, id))
  {
    if id in s.records {
      assert Tenants(s.records - {id}) == Tenants(s.records) - {id};
      assert Rows(s.records - {id}) == Rows(s.records) - {id};
      DropIndexes(s.byTenant, Tenants(s.records), id);
    }
  }

  function Restarted(s: Store, rows: seq<Row>): Store {
    AfterHydrate(Store(map[], map[], map[], s.table), rows)
  }

  /** A record as it comes back: empty documents are nil, and a nil quota is a quota of zeros. */
  function Normal(ns: Namespace): Namespace {
    ns.(config := ns.config.(tags := JsonDocument(ns.config.tags), extra := JsonDocument(ns.config.extra)),
        quota := if ns.quota.None? then Some(Quota(0, 0, 0)) else ns.quota)
  }

  function Normals(records: map<string, Namespace>): map<string, Namespace> {
    map id | id in records :: Normal(records[id])
  }

  /** The rows by name key rather than by id. */
  function RowsByName(s: Store): map<string, Row>
    requires Indexed(s) && Backed(s)
  {
    map key | key in s.byName :: s.table[s.byName[key]]
  }

  lemma EnumeratesByName(s: Store, rows: seq<Row>)
    requires Indexed(s) && Backed(s) && Enumerates(rows, s.table, RowId)
    ensures Enumerates(rows, RowsByName(s), RowKey)
  {
    forall i | 0 <= i < |rows| ensures RowKey(rows[i]) in s.byName && s.byName[RowKey(rows[i])] == rows[i].id {
      assert RowKey(rows[i]) == KeyOf(s.records[rows[i].id]);
    }
    forall key | key in RowsByName(s) ensures exists i :: 0 <= i < |rows| && RowKey(rows[i]) == key {
      assert s.byName[key] in s.table;
      var i :| 0 <= i < |rows| && RowId(rows[i]) == s.byName[key];
      assert RowKey(rows[i]) == key;
    }
  }

  lemma RestartNames(s: Store, rows: seq<Row>)
    requires Indexed(s) && Backed(s) && Enumerates(rows, s.table, RowId)
    ensures LoadInto(map[], rows, RowKey, RowId) == s.byName
  {
    var named := RowsByName(s);
    NamedRows(s, named);
    EnumeratesByName(s, rows);
    Loaded(rows, named, RowKey, RowId);
  }

  lemma NamedRows(s: Store, named: map<string, Row>)
    requires Indexed(s) && Backed(s) && named == RowsByName(s)
    ensures (map key | key in named :: RowId(named[key])) == s.byName
  {
    assert named.Keys == s.byName.Keys;
  }

  function FromRows(table: map<string, Row>): map<string, Namespace> {
    map id | id in table :: FromRow(table[id])
  }

  lemma RestartRows(s: Store, rows: seq<Row>)
    requires Enumerates(rows, s.table, RowId)
    ensures Restarted(s, rows).records == FromRows(s.table)
    ensures Indexes(Restarted(s, rows).byTenant, Tenants(FromRows(s.table)))
  {
    Loaded(rows, s.table, RowId, FromRow);
    Hydration.Indexed(rows, s.table, RowId, RowTenant);
    FromRowsTenants(s.table);
  }

  lemma FromRowsTenants(table: map<string, Row>)
    ensures Tenants(FromRows(table)) == KeysOf(table, RowTenant)
  {
  }

  /** A restart goes back to the rows, with the very same name index, and both indexes right again. */
  lemma RestartIsRows(s: Store, rows: seq<Row>)
    requires Indexed(s) && Backed(s) && Enumerates(rows, s.table, RowId)
    ensures Restarted(s, rows).records == FromRows(s.table) && Restarted(s, rows).byName == s.byName
    ensures Indexed(Restarted(s, rows)) && Backed(Restarted(s, rows))
  {
    RestartRows(s, rows);
    RestartNames(s, rows);
    SameNames(s);
  }

  lemma SameNames(s: Store)
    requires Indexed(s) && Backed(s)
    ensures NamesIndexed(FromRows(s.table), s.byName)
  {
    assert forall id :: id in s.table ==> KeyOf(FromRows(s.table)[id]) == KeyOf(s.records[id]);
  }

  /** Restart equivalence: rows in step come back as the records, up to empty documents and nil quotas. */
  lemma RestartEquivalent(s: Store, rows: seq<Row>)
    requires Indexed(s) && Synced(s) && Enumerates(rows, s.table, RowId)
    ensures Restarted(s, rows).records == Normals(s.records)
    ensures Restarted(s, rows).byName == s.byName
    ensures Indexed(Restarted(s, rows)) && Synced(Restarted(s, rows))
  {
    RestartIsRows(s, rows);
    RowsGiveBack(s.records);
  }

  lemma RowsGiveBack(records: map<string, Namespace>)
    ensures FromRows(Rows(records)) == Normals(records)
    ensures Rows(Normals(records)) == Rows(records)
  {
  }

  datatype Op =
    | Create(ns: Namespace, newId: string, now: int)
    | Patch(id: string, r: PatchRequest, now: int)
    | Delete(id: string)
    | Restart(rows: seq<Row>)

  /** New ids are fresh, and a restart reads the whole table. */
  ghost predicate Admissible(s: Store, op: Op) {
    match op
    case Create(ns, newId, now) => WithDefaults(ns, newId, now).id !in s.records
    case Patch(_, _, _) => true
    case Delete(_) => true
    case Restart(rows) => Enumerates(rows, s.table, RowId)
  }

  function Apply(s: Store, op: Op): Store {
    match op
    case Create(ns, newId, now) => AfterCreate(s, ns, newId, now)
    case Patch(id, r, now) => AfterPatch(s, id, r, now)
    case Delete(id) => AfterDelete(s, id)
    case Restart(rows) => Restarted(s, rows)
  }

  ghost predicate IsRun(stores: seq<Store>, ops: seq<Op>) {
    && |stores| == |ops| + 1 && stores[0] == Store(map[], map[], map[], map[])
    && forall i :: 0 <= i < |ops| ==> Admissible(stores[i], ops[i]) && stores[i + 1] == Apply(stores[i], ops[i])
  }

  lemma ApplyKeeps(s: Store, op: Op)
    requires Indexed(s) && Backed(s) && Admissible(s, op)
    ensures Indexed(Apply(s, op)) && Backed(Apply(s, op))
  {
    match op
    case Create(ns, newId, now) =>
      CreateIndexed(s, ns, newId, now);
      CreateStored(s, ns, newId, now);
    case Patch(id, r, now) =>
      PatchKeepsIndexes(s, id, r, now);
      PatchKeepsRows(s, id, r, now);
    case Delete(id) => DeleteKeeps(s, id);
    case Restart(rows) => RestartIsRows(s, rows);
  }

  /** The operation is a patch that panics half way through a change. */
  ghost predicate Breaks(s: Store, op: Op) {
    op.Patch? && op.id in s.records && PanicsHalfway(s.records[op.id], op.r)
  }

  lemma ApplySynced(s: Store, op: Op)
    requires Indexed(s) && Synced(s) && Admissible(s, op) && !Breaks(s, op)
    ensures Synced(Apply(s, op))
  {
    match op
    case Create(ns, newId, now) => CreateStored(s, ns, newId, now);
    case Patch(id, r, now) => if id in s.records { PatchSyncedIff(s, id, r, now); }
    case Delete(id) => DeleteKeeps(s, id);
    case Restart(rows) => RestartEquivalent(s, rows);
  }

  /**
   Over every run, restarts and panics included, the name index stays one to one and rows and records are of the
   same namespaces; until a patch panics half way, the table is in step with memory.
   */
  lemma {:induction false} AlwaysIndexed(stores: seq<Store>, ops: seq<Op>, i: nat)
    requires IsRun(stores, ops) && i < |stores|
    ensures Indexed(stores[i]) && Backed(stores[i])
    ensures (forall k :: 0 <= k < i ==> !Breaks(stores[k], ops[k])) ==> Synced(stores[i])
    decreases i
  {
    if i == 0 {
      NothingIndexed();
      assert Tenants(map[]) == map[] && Rows(map[]) == map[];
    } else {
      AlwaysIndexed(stores, ops, i - 1);
      assert Admissible(stores[i - 1], ops[i - 1]) && stores[i - 1 + 1] == Apply(stores[i - 1], ops[i - 1]);
      ApplyKeeps(stores[i - 1], ops[i - 1]);
      if forall k :: 0 <= k < i ==> !Breaks(stores[k], ops[k]) {
        ApplySynced(stores[i - 1], ops[i - 1]);
      }
    }
  }
}
