/**
 The environment store: records by id, an index by tenant and one by type, a table written after every
 change, and the hydration that rebuilds all of it at boot. Times are integers, zero standing for the zero
 time; documents are their decoded contents, None standing for a nil slice or map.
 */
module Environments {
  import opened Hydration
  import opened IdLists
  import opened Paging
  import opened Records

  const ZERO_TIME := 0
  const CREATING := "creating"
  const ACTIVE := "active"
  const UPDATING := "updating"
  const STOPPING := "stopping"
  const STOPPED := "stopped"
  const ERROR := "error"

  datatype Quota = Quota(
    maxCPUs: int, maxMemoryGB: real, maxStorageGB: real, maxConnections: int, maxDeployments: int, maxAgents: int)

  datatype Isolation = Isolation(
    dataIsolation: bool, networkIsolation: bool, quota: Quota, backupPolicy: string, complianceLevel: string,
    metadata: Option<map<string, string>>)

  datatype Environment = Environment(
    id: string, tenantId: string, name: string, kind: string, state: string, isolationLevel: string,
    isolation: Isolation, resources: Option<seq<string>>, network: Option<map<string, string>>,
    createdBy: string, notes: string, createdAt: int, updatedAt: int,
    activatedAt: Option<int>, deactivatedAt: Option<int>)

  datatype PatchRequest = PatchRequest(name: string, notes: string, isolationLevel: string, isolation: Isolation)

  // ----- The durable table ---------------------------------------------------------------------

  datatype Row = Row(
    id: string, tenantId: string, name: string, kind: string, state: string, isolationLevel: string,
    isolation: Isolation, resources: seq<string>, network: map<string, string>,
    createdBy: string, notes: string, activatedAt: Option<int>, deactivatedAt: Option<int>, createdAt: int,
        updatedAt: int)

  /** What JSON keeps of the metadata: an empty object is omitted like a missing one. */
  function JsonMetadata(metadata: Option<map<string, string>>): Option<map<string, string>> {
    if metadata == Some(map[]) then None else metadata
  }

  function RowOf(e: Environment): Row {
    Row(e.id, e.tenantId, e.name, e.kind, e.state, e.isolationLevel,
        e.isolation.(metadata := JsonMetadata(e.isolation.metadata)),
        if e.resources.Some? then e.resources.value else [],
        if e.network.Some? then e.network.value else map[],
        e.createdBy, e.notes, e.activatedAt, e.deactivatedAt, e.createdAt, e.updatedAt)
  }

  function FromRow(r: Row): Environment {
    Environment(r.id, r.tenantId, r.name, r.kind, r.state, r.isolationLevel, r.isolation,
                Some(r.resources), Some(r.network), r.createdBy, r.notes, r.createdAt, r.updatedAt,
                r.activatedAt, r.deactivatedAt)
  }

  /** A conflicting insert leaves tenant, type and creation time as they are in the table. */
  function Upsert(table: map<string, Row>, row: Row): map<string, Row> {
    if row.id !in table then table[row.id := row]
    else
      var was := table[row.id];
      table[row.id := row.(tenantId := was.tenantId, kind := was.kind, createdAt := was.createdAt)]
  }

  // ----- The store as a value ------------------------------------------------------------------

  datatype Store = Store(
    records: map<string, Environment>, byTenant: Index, byType: Index, table: map<string, Row>)

  function Saved(s: Store, e: Environment): Store {
    s.(records := s.records[e.id := e], table := Upsert(s.table, RowOf(e)))
  }

  function WithDefaults(e: Environment, newId: string, now: int): Environment {
    e.(id := if e.id == "" then newId else e.id,
       state := if e.state == "" then CREATING else e.state,
       isolationLevel := if e.isolationLevel == "" then "logical" else e.isolationLevel,
       createdAt := if e.createdAt == ZERO_TIME then now else e.createdAt,
       updatedAt := now)
  }

  /** A record stored under its id and appended to both lists. */
  function Inserted(s: Store, e: Environment): Store {
    s.(records := s.records[e.id := e],
       byTenant := Append(s.byTenant, e.tenantId, e.id),
       byType := Append(s.byType, e.kind, e.id))
  }

  function AfterCreate(s: Store, e0: Environment, newId: string, now: int): Store {
    var e := WithDefaults(e0, newId, now);
    Inserted(s, e).(table := Upsert(s.table, RowOf(e)))
  }

  function FillInt(have: int, want: int): int {
    if have == 0 && want > 0 then want else have
  }

  function FillReal(have: real, want: real): real {
    if have == 0.0 && want > 0.0 then want else have
  }

  predicate Requested(r: Isolation) {
    || r.dataIsolation || r.networkIsolation || r.quota.maxCPUs > 0 || r.quota.maxMemoryGB > 0.0
    || r.quota.maxStorageGB > 0.0 || r.quota.maxConnections > 0 || r.quota.maxDeployments > 0
    || r.quota.maxAgents > 0 || r.complianceLevel != "" || (r.metadata.Some? && |r.metadata.value| > 0)
  }

  function Merged(i: Isolation, r: Isolation): Isolation {
    i.(dataIsolation := i.dataIsolation || r.dataIsolation,
       networkIsolation := i.networkIsolation || r.networkIsolation,
       quota := Quota(FillInt(i.quota.maxCPUs, r.quota.maxCPUs),
                      FillReal(i.quota.maxMemoryGB, r.quota.maxMemoryGB),
                      FillReal(i.quota.maxStorageGB, r.quota.maxStorageGB),
                      FillInt(i.quota.maxConnections, r.quota.maxConnections),
                      FillInt(i.quota.maxDeployments, r.quota.maxDeployments),
                      FillInt(i.quota.maxAgents, r.quota.maxAgents)),
       complianceLevel := if i.complianceLevel == "" then r.complianceLevel else i.complianceLevel)
  }

  /** `q` has every limit that `was` has set. */
  ghost predicate KeepsLimits(was: Quota, q: Quota) {
    && (was.maxCPUs != 0 ==> q.maxCPUs == was.maxCPUs)
    && (was.maxMemoryGB != 0.0 ==> q.maxMemoryGB == was.maxMemoryGB)
    && (was.maxStorageGB != 0.0 ==> q.maxStorageGB == was.maxStorageGB)
    && (was.maxConnections != 0 ==> q.maxConnections == was.maxConnections)
    && (was.maxDeployments != 0 ==> q.maxDeployments == was.maxDeployments)
    && (was.maxAgents != 0 ==> q.maxAgents == was.maxAgents)
  }

  /**
   Merging takes nothing away: set limits and levels stay, isolation stays on; merging the same again changes
   nothing.
   */
  lemma MergeOnlyAdds(i: Isolation, r: Isolation)
    ensures var m := Merged(i, r);
            && KeepsLimits(i.quota, m.quota)
            && (i.dataIsolation ==> m.dataIsolation) && (i.networkIsolation ==> m.networkIsolation)
            && (i.complianceLevel != "" ==> m.complianceLevel == i.complianceLevel)
            && Merged(m, r) == m
  {
  }

  function Patched(e: Environment, r: PatchRequest, now: int): Environment {
    e.(name := if r.name != "" then r.name else e.name,
       notes := if r.notes != "" then r.notes else e.notes,
       isolationLevel := if r.isolationLevel != "" then r.isolationLevel else e.isolationLevel,
       isolation := if Requested(r.isolation) then Merged(e.isolation, r.isolation) else e.isolation,
       updatedAt := now)
  }

  function AfterPatch(s: Store, id: string, r: PatchRequest, now: int): Store {
    if id in s.records then Saved(s, Patched(s.records[id], r, now)) else s
  }

  function AfterDelete(s: Store, id: string): Store {
    if id !in s.records then s
    else
      var e := s.records[id];
      Store(s.records - {id}, Drop(s.byTenant, e.tenantId, id), Drop(s.byType, e.kind, id), s.table - {id})
  }

  predicate CanTransition(from: string, to: string) {
    || (from == CREATING && to in {ACTIVE, ERROR})
    || (from == ACTIVE && to in {UPDATING, STOPPING, ERROR})
    || (from == UPDATING && to in {ACTIVE, ERROR})
    || (from == STOPPING && to in {STOPPED, ERROR})
    || (from == STOPPED && to in {CREATING, ERROR})
    || (from == ERROR && to in {CREATING, STOPPED})
  }

  function Moved(e: Environment, to: string, notes: Option<string>, now: int): Environment {
    e.(state := to,
       notes := if notes.Some? && notes.value != "" then notes.value else e.notes,
       activatedAt := if to == ACTIVE then Some(now) else e.activatedAt,
       deactivatedAt := if to == STOPPED then Some(now) else e.deactivatedAt,
       updatedAt := now)
  }

  function AfterTransition(s: Store, id: string, to: string, notes: Option<string>, now: int): Store {
    if id in s.records && CanTransition(s.records[id].state, to)
    then Saved(s, Moved(s.records[id], to, notes, now)) else s
  }

  function RowId(r: Row): string { r.id }
  function RowTenant(r: Row): string { r.tenantId }
  function RowKind(r: Row): string { r.kind }

  /** Loading rows, in the order the table is read. */
  function AfterHydrate(s: Store, rows: seq<Row>): Store {
    s.(records := LoadInto(s.records, rows, RowId, FromRow),
       byTenant := IndexInto(s.byTenant, rows, RowId, RowTenant),
       byType := IndexInto(s.byType, rows, RowId, RowKind))
  }

  /** The records of a list of ids, without ids that are gone. */
  function Items(records: map<string, Environment>, ids: seq<string>): seq<Environment> {
    if ids == [] then []
    else (if ids[0] in records then [records[ids[0]]] else []) + Items(records, ids[1..])
  }

  // ----- The store as it is kept ---------------------------------------------------------------

  class EnvironmentStore {
    var environments: map<string, Record<Environment>>
    var byTenant: Index
    var byType: Index
    var table: map<string, Row>

    ghost predicate Valid()
      reads this, environments.Values
    {
      "" !in environments && forall id :: id in environments ==> environments[id].value.id == id
    }

    ghost function State(): Store
      reads this, environments.Values
    {
      Store(map id | id in environments :: environments[id].value, byTenant, byType, table)
    }

    constructor (table: map<string, Row>)
      ensures Valid() && State() == Store(map[], map[], map[], table)
    {
      environments, byTenant, byType, this.table := map[], map[], map[], table;
    }

    method Save(e: Record<Environment>)
      modifies this`table
      ensures table == Upsert(old(table), RowOf(e.value))
    {
      table := Upsert(table, RowOf(e.value));
    }

    /** Only the record under `id` and its row have changed. */
    twostate lemma OnlyRecord(id: string)
      requires environments == old(environments) && byTenant == old(byTenant) && byType == old(byType)
      requires id in environments && environments[id].value.id == id
              && table == Upsert(old(table), RowOf(environments[id].value))
      requires forall k :: k in environments && k != id ==> environments[k].value == old(environments[k].value)
      ensures State() == Saved(old(State()), environments[id].value)
    {
      assert State().records == old(State().records)[id := environments[id].value];
    }

    method FillDefaults(e: Record<Environment>, newId: string, now: int)
      modifies e
      ensures e.value == WithDefaults(old(e.value), newId, now)
    {
      var id, state, level, createdAt := e.value.id, e.value.state, e.value.isolationLevel, e.value.createdAt;
      if id == "" {
        id := newId;
      }
      if state == "" {
        state := CREATING;
      }
      if level == "" {
        level := "logical";
      }
      if createdAt == ZERO_TIME {
        createdAt := now;
      }
      e.value := e.value.(id := id, state := state, isolationLevel := level, createdAt := createdAt, updatedAt := now);
    }

    method Insert(e: Record<Environment>)
      requires Valid() && e.value.id != ""
      requires forall k :: k in environments && k != e.value.id ==> environments[k] != e
      modifies this`environments, this`byTenant, this`byType
      ensures Valid() && State() == Inserted(old(State()), e.value)
      ensures environments == old(environments)[e.value.id := e]
    {
      environments := environments[e.value.id := e];
      byTenant := Append(byTenant, e.value.tenantId, e.value.id);
      byType := Append(byType, e.value.kind, e.value.id);
      assert State().records == old(State().records)[e.value.id := e.value];
    }

    method StoreRecord(e: Record<Environment>)
      requires Valid() && e.value.id != ""
      requires forall k :: k in environments && k != e.value.id ==> environments[k] != e
      modifies this
      ensures Valid() && State() == Inserted(old(State()), e.value).(table := Upsert(old(table), RowOf(e.value)))
      ensures environments == old(environments)[e.value.id := e]
    {
      Insert(e);
      Save(e);
    }

    /** The caller's own record becomes the stored one. */
    method Create(e: Record<Environment>, newId: string, now: int)
      requires Valid() && newId != ""
      modifies this, e
      ensures Valid() && State() == AfterCreate(old(State()), old(e.value), newId, now)
      ensures e.value.id in environments && environments[e.value.id] == e
    {
      ghost var before := State();
      FillDefaults(e, newId, now);
      ghost var v := e.value;
      assert State().records[v.id := v] == before.records[v.id := v];
      StoreRecord(e);
    }

    method ApplyPatch(e: Record<Environment>, r: PatchRequest, now: int)
      modifies e
      ensures e.value == Patched(old(e.value), r, now)
    {
      var name, notes, level := e.value.name, e.value.notes, e.value.isolationLevel;
      if r.name != "" {
        name := r.name;
      }
      if r.notes != "" {
        notes := r.notes;
      }
      if r.isolationLevel != "" {
        level := r.isolationLevel;
      }
      var isolation := e.value.isolation;
      if Requested(r.isolation) {
        isolation := MergeIsolation(isolation, r.isolation);
      }
      e.value := e.value.(name := name, notes := notes, isolationLevel := level, isolation := isolation,
          updatedAt := now);
    }

    method Patch(id: string, r: PatchRequest, now: int) returns (found: bool)
      requires Valid()
      modifies this`table, environments.Values
      ensures Valid() && found == (id in environments) && State() == AfterPatch(old(State()), id, r, now)
    {
      if id !in environments {
        return false;
      }
      var e := environments[id];
      ApplyPatch(e, r, now);
      Save(e);
      OnlyRecord(id);
      return true;
    }

    /** Fills unset limits and the compliance level, and switches isolation on; nothing is replaced. */
    method MergeIsolation(i: Isolation, r: Isolation) returns (m: Isolation)
      ensures m == Merged(i, r)
    {
      var cpus, memory, storage := i.quota.maxCPUs, i.quota.maxMemoryGB, i.quota.maxStorageGB;
      var connections, deployments, agents := i.quota.maxConnections, i.quota.maxDeployments, i.quota.maxAgents;
      if cpus == 0 && r.quota.maxCPUs > 0 {
        cpus := r.quota.maxCPUs;
      }
      if memory == 0.0 && r.quota.maxMemoryGB > 0.0 {
        memory := r.quota.maxMemoryGB;
      }
      if storage == 0.0 && r.quota.maxStorageGB > 0.0 {
        storage := r.quota.maxStorageGB;
      }
      if connections == 0 && r.quota.maxConnections > 0 {
        connections := r.quota.maxConnections;
      }
      if deployments == 0 && r.quota.maxDeployments > 0 {
        deployments := r.quota.maxDeployments;
      }
      if agents == 0 && r.quota.maxAgents > 0 {
        agents := r.quota.maxAgents;
      }
      var data, network, compliance := i.dataIsolation, i.networkIsolation, i.complianceLevel;
      if r.dataIsolation {
        data := true;
      }
      if r.networkIsolation {
        network := true;
      }
      if compliance == "" && r.complianceLevel != "" {
        compliance := r.complianceLevel;
      }
      return i.(dataIsolation := data, networkIsolation := network, complianceLevel := compliance,
                quota := Quota(cpus, memory, storage, connections, deployments, agents));
    }

    method Delete(id: string) returns (found: bool)
      requires Valid()
      modifies this
      ensures Valid() && found == (id in old(environments)) && State() == AfterDelete(old(State()), id)
    {
      if id !in environments {
        return false;
      }
      var e := environments[id];
      table := table - {id};
      byTenant := DropFrom(byTenant, e.value.tenantId, id);
      byType := DropFrom(byType, e.value.kind, id);
      environments := environments - {id};
      assert State().records == old(State().records) - {id};
      return true;
    }

    method Transition(id: string, to: string, notes: Option<string>, now: int) returns (ok: bool)
      requires Valid()
      modifies this`table, environments.Values
      ensures Valid() && State() == AfterTransition(old(State()), id, to, notes, now)
      ensures ok <==> id in environments && CanTransition(old(State()).records[id].state, to)
    {
      if id !in environments || !CanTransition(environments[id].value.state, to) {
        return false;
      }
      var e := environments[id];
      Move(e, to, notes, now);
      Save(e);
      OnlyRecord(id);
      return true;
    }

    method Move(e: Record<Environment>, to: string, notes: Option<string>, now: int)
      modifies e
      ensures e.value == Moved(old(e.value), to, notes, now)
    {
      e.value := e.value.(state := to, updatedAt := now);
      if notes.Some? && notes.value != "" {
        e.value := e.value.(notes := notes.value);
      }
      if to == ACTIVE {
        e.value := e.value.(activatedAt := Some(now));
      } else if to == STOPPED {
        e.value := e.value.(deactivatedAt := Some(now));
      }
    }

    method HydrateEnvironments(rows: seq<Row>)
      requires Valid() && forall r :: r in rows ==> r.id != ""
      modifies this
      ensures Valid() && State() == AfterHydrate(old(State()), rows)
    {
      for i := 0 to |rows|
        invariant Valid() && State() == AfterHydrate(old(State()), rows[..i])
      {
        var r := rows[i];
        assert rows[..i + 1][..i] == rows[..i];
        var e := new Record(FromRow(r));
        Insert(e);
      }
      assert rows[..|rows|] == rows;
    }

    method ListIds(ids: seq<string>) returns (items: seq<Environment>)
      requires Valid()
      ensures items == Items(State().records, ids)
    {
      items := [];
      for i := 0 to |ids|
        invariant items + Items(State().records, ids[i..]) == Items(State().records, ids)
      {
        assert ids[i..][1..] == ids[i + 1..];
        if ids[i] in environments {
          items := items + [environments[ids[i]].value];
        }
      }
    }

    method ListByTenant(tenantId: string, page: int, pageSize: int, sort: seq<Environment> -> seq<Environment>)
      returns (pageItems: seq<Environment>, total: int, hasMore: bool)
      requires Valid() && IsSort(sort, (e: Environment) => e.name)
      ensures var items := sort(Items(State().records, Ids(byTenant, tenantId)));
              pageItems == Page(items, page, pageSize) && total == |items|
              && (hasMore <==> MoreAfter(total, page, pageSize))
    {
      pageItems, total, hasMore := List(Ids(byTenant, tenantId), page, pageSize, sort);
    }

    method ListByType(kind: string, page: int, pageSize: int, sort: seq<Environment> -> seq<Environment>)
      returns (pageItems: seq<Environment>, total: int, hasMore: bool)
      requires Valid() && IsSort(sort, (e: Environment) => e.name)
      ensures var items := sort(Items(State().records, Ids(byType, kind)));
              pageItems == Page(items, page, pageSize) && total == |items|
              && (hasMore <==> MoreAfter(total, page, pageSize))
    {
      pageItems, total, hasMore := List(Ids(byType, kind), page, pageSize, sort);
    }

    method List(ids: seq<string>, page: int, pageSize: int, sort: seq<Environment> -> seq<Environment>)
      returns (pageItems: seq<Environment>, total: int, hasMore: bool)
      requires Valid() && IsSort(sort, (e: Environment) => e.name)
      ensures var items := sort(Items(State().records, ids));
              pageItems == Page(items, page, pageSize) && total == |items|
              && (hasMore <==> MoreAfter(total, page, pageSize))
    {
      var items := ListIds(ids);
      var sorted := sort(items);
      SortKeepsLength(sort, (e: Environment) => e.name, items);
      total := |items|;
      pageItems, hasMore := CutPage(sorted, page, pageSize);
    }
  }
}
