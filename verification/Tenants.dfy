/** The tenant store: name reservations and the lifecycle of a tenant's status. */
module Tenants {
  import opened Hydration
  import opened IdLists
  import opened Records

  const ZERO_TIME := 0
  const PROVISIONING := "provisioning"
  const ACTIVE := "active"
  const SUSPENDED := "suspended"
  const DEPROVISIONING := "deprovisioning"
  const DEPROVISIONED := "deprovisioned"

  datatype Quota = Quota(
    maxAgents: int, maxWorkflowsPerDay: int, maxStorageGB: int, maxMonthlyTokens: int, maxConcurrentWorkflows: int)

  type Document = map<string, string>

  datatype Tenant = Tenant(
    id: string, name: string, displayName: string, plan: string, region: string, isolationLevel: string,
    status: string, quota: Quota, contactEmail: string, metadata: Option<Document>, createdAt: int, updatedAt: int)

  datatype PatchRequest = PatchRequest(
    name: string, displayName: string, status: string, plan: string, region: string, isolationLevel: string,
    contactEmail: string, metadata: Option<Document>, quota: Option<Quota>)

  function AllowedTransitions(from: string): seq<string> {
    if from == PROVISIONING then [ACTIVE, DEPROVISIONING]
    else if from == ACTIVE then [SUSPENDED, DEPROVISIONING]
    else if from == SUSPENDED then [ACTIVE, DEPROVISIONING]
    else if from == DEPROVISIONING then [DEPROVISIONED]
    else []
  }

  predicate CanTransition(from: string, to: string) {
    to in AllowedTransitions(from)
  }

  /** A row holds a tenant's columns; nil metadata is an empty object. */
  function RowOf(t: Tenant): Tenant {
    t.(metadata := if t.metadata.None? then Some(map[]) else t.metadata)
  }

  function Upsert(table: map<string, Tenant>, row: Tenant): map<string, Tenant> {
    table[row.id := if row.id in table then row.(createdAt := table[row.id].createdAt) else row]
  }

  datatype Store = Store(records: map<string, Tenant>, byName: map<string, string>, table: map<string, Tenant>)

  function Saved(s: Store, t: Tenant): Store {
    s.(records := s.records[t.id := t], table := Upsert(s.table, RowOf(t)))
  }

  function WithDefaults(t: Tenant, newId: string, now: int): Tenant {
    t.(id := if t.id == "" then newId else t.id,
       status := if t.status == "" then PROVISIONING else t.status,
       createdAt := if t.createdAt == ZERO_TIME then now else t.createdAt,
       updatedAt := now)
  }

  predicate Refuses(s: Store, t: Tenant) {
    t.id in s.records || (t.name != "" && t.name in s.byName)
  }

  function AfterCreate(s: Store, t0: Tenant, newId: string, now: int): Store {
    var t := WithDefaults(t0, newId, now);
    if Refuses(s, t) then s else Reserving(s, t)
  }

  /** A tenant stored with its name reserved, if it has one. */
  function Reserving(s: Store, t: Tenant): Store {
    Saved(if t.name == "" then s else s.(byName := s.byName[t.name := t.id]), t)
  }

  /** What a patch changes before it looks at the status. */
  function Renamed(t: Tenant, r: PatchRequest): Tenant {
    t.(name := if r.name != "" then r.name else t.name,
       displayName := if r.displayName != "" then r.displayName else t.displayName)
  }

  predicate BadStatus(t: Tenant, r: PatchRequest) {
    r.status != "" && !CanTransition(t.status, r.status)
  }

  function Positive(want: int, have: int): int {
    if want > 0 then want else have
  }

  function PatchedQuota(q: Quota, r: Quota): Quota {
    Quota(Positive(r.maxAgents, q.maxAgents), Positive(r.maxWorkflowsPerDay, q.maxWorkflowsPerDay),
          Positive(r.maxStorageGB, q.maxStorageGB), Positive(r.maxMonthlyTokens, q.maxMonthlyTokens),
          Positive(r.maxConcurrentWorkflows, q.maxConcurrentWorkflows))
  }

  function Patched(t: Tenant, r: PatchRequest, now: int): Tenant {
    Renamed(t, r).(
      status := if r.status != "" then r.status else t.status,
      plan := if r.plan != "" then r.plan else t.plan,
      region := if r.region != "" then r.region else t.region,
      isolationLevel := if r.isolationLevel != "" then r.isolationLevel else t.isolationLevel,
      contactEmail := if r.contactEmail != "" then r.contactEmail else t.contactEmail,
      metadata := if r.metadata.Some? then r.metadata else t.metadata,
      quota := if r.quota.Some? then PatchedQuota(t.quota, r.quota.value) else t.quota,
      updatedAt := now)
  }

  function AfterPatch(s: Store, id: string, r: PatchRequest, now: int): Store {
    if id !in s.records then s
    else if BadStatus(s.records[id], r) then s.(records := s.records[id := Renamed(s.records[id], r)])
    else Saved(s, Patched(s.records[id], r, now))
  }

  /** The names that lead to a tenant. */
  function Reservations(byName: map<string, string>, id: string): set<string> {
    set name | name in byName && byName[name] == id
  }

  /** Deleting releases one reservation: `released` is the one the search comes upon, if there is one. */
  function AfterDelete(s: Store, id: string, released: set<string>): Store {
    if id !in s.records then s else Store(s.records - {id}, s.byName - released, s.table - {id})
  }

  function IdOf(t: Tenant): string { t.id }
  function Itself(t: Tenant): Tenant { t }

  /** Loading rows reserves the name each of them has now, the last one read winning. */
  function Reserve(byName: map<string, string>, rows: seq<Tenant>): map<string, string> {
    if rows == [] then byName
    else
      var before, t := Reserve(byName, rows[..|rows| - 1]), rows[|rows| - 1];
      if t.name == "" then before else before[t.name := t.id]
  }

  function AfterHydrate(s: Store, rows: seq<Tenant>): Store {
    s.(records := LoadInto(s.records, rows, IdOf, Itself), byName := Reserve(s.byName, rows))
  }

  function Loading(s: Store, t: Tenant): Store {
    s.(records := s.records[t.id := t], byName := if t.name == "" then s.byName else s.byName[t.name := t.id])
  }

  class TenantStore {
    var tenants: map<string, Record<Tenant>>
    var byName: map<string, string>
    var table: map<string, Tenant>

    ghost predicate Valid()
      reads this`tenants, tenants.Values
    {
      forall id :: id in tenants ==> tenants[id].value.id == id
    }

    ghost function Contents(): map<string, Tenant>
      reads this`tenants, tenants.Values
    {
      map id | id in tenants :: tenants[id].value
    }

    ghost function State(): Store
      reads this, tenants.Values
    {
      Store(Contents(), byName, table)
    }

    constructor (table: map<string, Tenant>)
      ensures Valid() && State() == Store(map[], map[], table)
    {
      tenants, byName, this.table := map[], map[], table;
    }

    method Put(e: Record<Tenant>)
      requires Valid() && e !in tenants.Values
      modifies this`tenants
      ensures Valid() && tenants == old(tenants)[e.value.id := e]
      ensures Contents() == old(Contents())[e.value.id := e.value]
    {
      tenants := tenants[e.value.id := e];
      assert Contents() == old(Contents())[e.value.id := e.value];
    }

    method FillDefaults(e: Record<Tenant>, newId: string, now: int)
      modifies e
      ensures e.value == WithDefaults(old(e.value), newId, now)
    {
      if e.value.id == "" {
        e.value := e.value.(id := newId);
      }
      if e.value.status == "" {
        e.value := e.value.(status := PROVISIONING);
      }
      if e.value.createdAt == ZERO_TIME {
        e.value := e.value.(createdAt := now);
      }
      e.value := e.value.(updatedAt := now);
    }

    method Adopt(e: Record<Tenant>) returns (ok: bool)
      requires Valid() && e !in tenants.Values
      modifies this
      ensures Valid() && ok == !Refuses(old(State()), e.value)
      ensures State() == if ok then Reserving(old(State()), e.value) else old(State())
    {
      var t := e.value;
      if t.id in tenants {
        return false;
      }
      if t.name != "" {
        if t.name in byName {
          return false;
        }
        byName := byName[t.name := t.id];
      }
      Put(e);
      table := Upsert(table, RowOf(t));
      return true;
    }

    /** `e` is a record of the caller's, not one already stored; unless refused it becomes the stored one. */
    method Create(e: Record<Tenant>, newId: string, now: int) returns (ok: bool)
      requires Valid() && e !in tenants.Values
      modifies this, e
      ensures Valid() && State() == AfterCreate(old(State()), old(e.value), newId, now)
      ensures ok <==> !Refuses(old(State()), WithDefaults(old(e.value), newId, now))
    {
      ghost var before := State();
      FillDefaults(e, newId, now);
      assert State() == before;
      ok := Adopt(e);
    }

    method Rename(e: Record<Tenant>, r: PatchRequest)
      modifies e
      ensures e.value == Renamed(old(e.value), r)
    {
      if r.name != "" {
        e.value := e.value.(name := r.name);
      }
      if r.displayName != "" {
        e.value := e.value.(displayName := r.displayName);
      }
    }

    /** The name is changed before the status is looked at, and the reservation not at all. */
    method PatchRecord(e: Record<Tenant>, r: PatchRequest, now: int) returns (ok: bool)
      modifies e
      ensures ok == !BadStatus(old(e.value), r)
      ensures e.value == if ok then Patched(old(e.value), r, now) else Renamed(old(e.value), r)
    {
      Rename(e, r);
      if r.status != "" && !CanTransition(e.value.status, r.status) {
        return false;
      }
      var t := e.value;
      var status, plan, region, level, email := t.status, t.plan, t.region, t.isolationLevel, t.contactEmail;
      if r.status != "" {
        status := r.status;
      }
      if r.plan != "" {
        plan := r.plan;
      }
      if r.region != "" {
        region := r.region;
      }
      if r.isolationLevel != "" {
        level := r.isolationLevel;
      }
      if r.contactEmail != "" {
        email := r.contactEmail;
      }
      var metadata, quota := t.metadata, t.quota;
      if r.metadata.Some? {
        metadata := r.metadata;
      }
      if r.quota.Some? {
        quota := PatchedQuota(quota, r.quota.value);
      }
      e.value := t.(status := status, plan := plan, region := region, isolationLevel := level, contactEmail := email,
                    metadata := metadata, quota := quota, updatedAt := now);
      return true;
    }

    method Patch(id: string, r: PatchRequest, now: int) returns (ok: bool)
      requires Valid()
      modifies this`table, tenants.Values
      ensures Valid() && State() == AfterPatch(old(State()), id, r, now)
      ensures ok <==> id in tenants && !BadStatus(old(Contents())[id], r)
    {
      if id !in tenants {
        return false;
      }
      var e := tenants[id];
      ghost var before := Contents();
      ok := PatchRecord(e, r, now);
      assert Contents() == before[id := e.value];
      if ok {
        table := Upsert(table, RowOf(e.value));
      }
    }

    /** Searches the reservations, in no particular order, and releases the first that leads to the tenant. */
    method ReleaseFirst(id: string) returns (ghost released: set<string>)
      modifies this`byName
      ensures byName == old(byName) - released && released <= Reservations(old(byName), id)
      ensures if Reservations(old(byName), id) == {} then released == {} else |released| == 1
    {
      released := {};
      var rest := byName.Keys;
      while rest != {}
        invariant rest <= byName.Keys && byName == old(byName) && released == {}
        invariant forall name :: name in byName && name !in rest ==> byName[name] != id
      {
        var name :| name in rest;
        if byName[name] == id {
          assert name in Reservations(byName, id);
          byName := byName - {name};
          released := {name};
          return released;
        }
        rest := rest - {name};
      }
      assert Reservations(byName, id) == {};
      assert byName - {} == byName;
    }

    method Delete(id: string) returns (found: bool, ghost released: set<string>)
      requires Valid()
      modifies this
      ensures Valid() && found == (id in old(tenants)) && State() == AfterDelete(old(State()), id, released)
      ensures found ==> released <= Reservations(old(byName), id)
      ensures found ==> (if Reservations(old(byName), id) == {} then released == {} else |released| == 1)
    {
      released := {};
      if id !in tenants {
        return false, released;
      }
      ghost var before := Contents();
      table := table - {id};
      tenants := tenants - {id};
      assert Contents() == before - {id};
      released := ReleaseFirst(id);
      return true, released;
    }

    method Load(t: Tenant)
      requires Valid()
      modifies this
      ensures Valid() && State() == Loading(old(State()), t)
    {
      var e := new Record(t);
      Put(e);
      if t.name != "" {
        byName := byName[t.name := t.id];
      }
    }

    method HydrateTenants(rows: seq<Tenant>)
      requires Valid()
      modifies this
      ensures Valid() && State() == AfterHydrate(old(State()), rows)
    {
      ghost var was := State();
      for i := 0 to |rows|
        invariant Valid() && State() == AfterHydrate(old(State()), rows[..i])
      {
        LoadStep(was.records, rows, i, IdOf, Itself);
        assert rows[..i + 1][..i] == rows[..i];
        Load(rows[i]);
      }
      assert rows[..|rows|] == rows;
    }
  }

  // ----- Reservations --------------------------------------------------------------------------

  /** Every reservation leads to a live tenant, and no tenant owns two. */
  ghost predicate Reserved(s: Store) {
    && (forall id :: id in s.records ==> s.records[id].id == id)
    && (forall name :: name in s.byName ==> s.byName[name] in s.records)
    && (forall a, b :: a in s.byName && b in s.byName && s.byName[a] == s.byName[b] ==> a == b)
  }

  /** What Delete releases, given that it stops at the first reservation it comes upon. */
  ghost predicate StopsAtFirst(s: Store, id: string, released: set<string>) {
    && released <= Reservations(s.byName, id)
    && (if Reservations(s.byName, id) == {} then released == {} else |released| == 1)
  }

  /** The early stop releases all that the tenant had reserved. */
  lemma DeleteReleasesAll(s: Store, id: string, released: set<string>)
    requires Reserved(s) && StopsAtFirst(s, id, released)
    ensures released == Reservations(s.byName, id)
    ensures Reserved(AfterDelete(s, id, released)) && (Backed(s) ==> Backed(AfterDelete(s, id, released)))
  {
    var all := Reservations(s.byName, id);
    if all != {} {
      assert released != {};
      var name :| name in released;
      assert all == {name} by {
        assert forall other :: other in all ==> other == name;
      }
    }
  }

  lemma CreateReserved(s: Store, t0: Tenant, newId: string, now: int)
    requires Reserved(s)
    ensures Reserved(AfterCreate(s, t0, newId, now))
  {
  }

  lemma CreateBacked(s: Store, t0: Tenant, newId: string, now: int)
    requires Backed(s)
    ensures Backed(AfterCreate(s, t0, newId, now))
  {
  }

  lemma PatchReserved(s: Store, id: string, r: PatchRequest, now: int)
    requires Reserved(s)
    ensures Reserved(AfterPatch(s, id, r, now))
  {
  }

  lemma PatchBacked(s: Store, id: string, r: PatchRequest, now: int)
    requires Reserved(s) && Backed(s)
    ensures Backed(AfterPatch(s, id, r, now))
  {
  }

  /** A restart reserves names afresh; still no tenant owns two, even where renaming has made two names equal. */
  lemma {:induction false} ReserveIsReserved(table: map<string, Tenant>, rows: seq<Tenant>)
    requires Enumerates(rows, table, IdOf)
    ensures forall name :: name in Reserve(map[], rows) ==>
              Reserve(map[], rows)[name] in table && table[Reserve(map[], rows)[name]].name == name && name != ""
    decreases |rows|
  {
    if rows != [] {
      var n := |rows| - 1;
      Removing(rows, table, IdOf);
      ReserveIsReserved(table - {rows[n].id}, rows[..n]);
    }
  }

  function Restarted(s: Store, rows: seq<Tenant>): Store {
    AfterHydrate(Store(map[], map[], s.table), rows)
  }

  /** Rows and records are of the same tenants in the same status, though a row may lag behind in name. */
  ghost predicate Backed(s: Store) {
    && s.table.Keys == s.records.Keys
    && forall id :: id in s.table ==>
         s.table[id].id == id && s.table[id].status == s.records[id].status && RowOf(s.table[id]) == s.table[id]
  }

  function Rows(records: map<string, Tenant>): map<string, Tenant> {
    map id | id in records :: RowOf(records[id])
  }

  ghost predicate Synced(s: Store) {
    s.table == Rows(s.records)
  }

  lemma RowsPut(records: map<string, Tenant>, t: Tenant)
    ensures Rows(records[t.id := t]) == Rows(records)[t.id := RowOf(t)]
  {
  }

  /** A patch leaves the table in step with memory exactly when it is not refused after renaming. */
  lemma PatchSyncedIff(s: Store, id: string, r: PatchRequest, now: int)
    requires Reserved(s) && Synced(s) && id in s.records
    ensures Synced(AfterPatch(s, id, r, now))
           <==> !(BadStatus(s.records[id], r) && Renamed(s.records[id], r) != s.records[id])
  {
    var t, after := s.records[id], AfterPatch(s, id, r, now);
    RowsPut(s.records, after.records[id]);
    if BadStatus(t, r) {
      assert Rows(after.records)[id] == RowOf(Renamed(t, r)) && s.table[id] == RowOf(t);
      assert Rows(s.records)[id := RowOf(t)] == Rows(s.records);
    }
  }

  lemma CreateSynced(s: Store, t0: Tenant, newId: string, now: int)
    requires Synced(s)
    ensures Synced(AfterCreate(s, t0, newId, now))
  {
    RowsPut(s.records, WithDefaults(t0, newId, now));
  }

  lemma DeleteSynced(s: Store, id: string, released: set<string>)
    requires Synced(s)
    ensures Synced(AfterDelete(s, id, released))
  {
    assert Rows(s.records - {id}) == Rows(s.records) - {id};
  }

  lemma RestartIs(s: Store, rows: seq<Tenant>)
    requires Enumerates(rows, s.table, IdOf)
    ensures Restarted(s, rows) == Store(s.table, Reserve(map[], rows), s.table)
  {
    Loaded(rows, s.table, IdOf, Itself);
    RowsThemselves(s.table);
  }

  lemma RestartReserved(s: Store, rows: seq<Tenant>)
    requires Enumerates(rows, s.table, IdOf) && Backed(s)
    ensures Restarted(s, rows).records == s.table
    ensures Reserved(Restarted(s, rows)) && Backed(Restarted(s, rows))
  {
    RestartIs(s, rows);
    ReserveIsReserved(s.table, rows);
    RowsReserved(s.table, Reserve(map[], rows));
  }

  lemma RowsThemselves(table: map<string, Tenant>)
    ensures (map k | k in table :: Itself(table[k])) == table
  {
  }

  lemma RowsReserved(table: map<string, Tenant>, byName: map<string, string>)
    requires forall id :: id in table ==> table[id].id == id
    requires forall name :: name in byName ==> byName[name] in table && table[byName[name]].name == name
    ensures Reserved(Store(table, byName, table))
  {
  }

  /** A restart brings the tenants back, nil metadata as empty, exactly when the table was in step. */
  lemma RestartEquivalentIff(s: Store, rows: seq<Tenant>)
    requires Enumerates(rows, s.table, IdOf) && Backed(s)
    ensures Restarted(s, rows).records == Rows(s.records) <==> Synced(s)
    ensures Synced(Restarted(s, rows))
  {
    RestartReserved(s, rows);
    assert Rows(s.table) == s.table;
  }

  /** Reservations are the names the tenants have. */
  ghost predicate NamesAgree(s: Store) {
    && (forall name :: name in s.byName ==>
        s.byName[name] in s.records && s.records[s.byName[name]].name == name && name != "")
    && (forall id :: id in s.records && s.records[id].name != "" ==>
          s.records[id].name in s.byName && s.byName[s.records[id].name] == id)
  }

  lemma PutNamesAgreeIff(s: Store, t: Tenant)
    requires Reserved(s) && NamesAgree(s) && t.id in s.records
    ensures NamesAgree(s.(records := s.records[t.id := t])) <==> t.name == s.records[t.id].name
  {
    var was, after := s.records[t.id].name, s.(records := s.records[t.id := t]);
    if t.name != was {
      if was != "" {
        assert was in after.byName && after.records[after.byName[was]].name != was;
      } else {
        assert t.name in after.byName ==> after.byName[t.name] != t.id;
        assert after.records[t.id].name == t.name;
      }
    }
  }

  /** A patch keeps them so exactly when it does not change the name, whether or not it is refused. */
  lemma PatchNamesAgreeIff(s: Store, id: string, r: PatchRequest, now: int)
    requires Reserved(s) && NamesAgree(s) && id in s.records
    ensures NamesAgree(AfterPatch(s, id, r, now)) <==> r.name == "" || r.name == s.records[id].name
  {
    var after := AfterPatch(s, id, r, now);
    var t := after.records[id];
    assert t.id == id && t.name == if r.name != "" then r.name else s.records[id].name;
    assert after.records == s.records[id := t] && after.byName == s.byName;
    PutNamesAgreeIff(s, t);
  }

  lemma {:induction false} ReserveCovers(rows: seq<Tenant>, i: nat)
    requires i < |rows| && rows[i].name != ""
    ensures rows[i].name in Reserve(map[], rows)
    decreases |rows|
  {
    if i < |rows| - 1 {
      ReserveCovers(rows[..|rows| - 1], i);
    }
  }

  /** While names agree a restart reserves exactly what was reserved. */
  lemma RestartKeepsReservations(s: Store, rows: seq<Tenant>)
    requires Reserved(s) && NamesAgree(s) && Enumerates(rows, s.table, IdOf)
    requires s.table.Keys == s.records.Keys && forall id :: id in s.table ==> s.table[id].name == s.records[id].name
    ensures Restarted(s, rows).byName == s.byName
  {
    ReserveIsReserved(s.table, rows);
    var names := Reserve(map[], rows);
    forall name | name in s.byName ensures name in names {
      var i :| 0 <= i < |rows| && IdOf(rows[i]) == s.byName[name];
      ReserveCovers(rows, i);
    }
    forall name | name in names ensures name in s.byName && s.byName[name] == names[name] {
    }
  }

  lemma CreateNamesAgree(s: Store, t0: Tenant, newId: string, now: int)
    requires Reserved(s) && NamesAgree(s)
    ensures NamesAgree(AfterCreate(s, t0, newId, now))
  {
  }

  lemma DeleteNamesAgree(s: Store, id: string, released: set<string>)
    requires Reserved(s) && NamesAgree(s) && StopsAtFirst(s, id, released)
    ensures NamesAgree(AfterDelete(s, id, released))
  {
    DeleteReleasesAll(s, id, released);
  }

  ghost predicate DistinctNames(table: map<string, Tenant>) {
    forall a, b :: a in table && b in table && table[a].name == table[b].name != "" ==> a == b
  }

  /** After a restart reservations are the tenants' names exactly if no two rows have the same. */
  lemma RestartNamesAgreeIff(s: Store, rows: seq<Tenant>)
    requires Backed(s) && Enumerates(rows, s.table, IdOf)
    ensures NamesAgree(Restarted(s, rows)) <==> DistinctNames(s.table)
  {
    RestartIs(s, rows);
    ReserveIsReserved(s.table, rows);
    var names := Reserve(map[], rows);
    forall id | id in s.table && s.table[id].name != "" ensures s.table[id].name in names {
      var i :| 0 <= i < |rows| && IdOf(rows[i]) == id;
      ReserveCovers(rows, i);
    }
    NamesAgreeIff(s.table, names);
  }

  lemma NamesAgreeIff(table: map<string, Tenant>, names: map<string, string>)
    requires forall name :: name in names ==> names[name] in table && table[names[name]].name == name && name != ""
    requires forall id :: id in table && table[id].name != "" ==> table[id].name in names
    ensures NamesAgree(Store(table, names, table)) <==> DistinctNames(table)
  {
    if NamesAgree(Store(table, names, table)) {
      forall a, b | a in table && b in table && table[a].name == table[b].name != "" ensures a == b {
        assert names[table[a].name] == a && names[table[b].name] == b;
      }
    }
  }

  // ----- The lifecycle -------------------------------------------------------------------------

  datatype Op =
    | Create(t: Tenant, newId: string, now: int)
    | Patch(id: string, r: PatchRequest, now: int)
    | Delete(id: string, released: set<string>)
    | Restart(rows: seq<Tenant>)

  ghost predicate Admissible(s: Store, op: Op) {
    && (op.Delete? ==> StopsAtFirst(s, op.id, op.released))
    && (op.Restart? ==> Enumerates(op.rows, s.table, IdOf))
  }

  function Apply(s: Store, op: Op): Store {
    match op
    case Create(t, newId, now) => AfterCreate(s, t, newId, now)
    case Patch(id, r, now) => AfterPatch(s, id, r, now)
    case Delete(id, released) => AfterDelete(s, id, released)
    case Restart(rows) => Restarted(s, rows)
  }

  ghost predicate IsRun(stores: seq<Store>, ops: seq<Op>) {
    && |stores| == |ops| + 1 && stores[0] == Store(map[], map[], map[])
    && forall i :: 0 <= i < |ops| ==> Admissible(stores[i], ops[i]) && stores[i + 1] == Apply(stores[i], ops[i])
  }

  /** Over every run, restarts included, each reservation leads to a live tenant and each tenant owns at most one. */
  lemma {:induction false} AlwaysReserved(stores: seq<Store>, ops: seq<Op>, i: nat)
    requires IsRun(stores, ops) && i < |stores|
    ensures Reserved(stores[i]) && Backed(stores[i])
    decreases i
  {
    if i > 0 {
      AlwaysReserved(stores, ops, i - 1);
      assert Admissible(stores[i - 1], ops[i - 1]) && stores[i - 1 + 1] == Apply(stores[i - 1], ops[i - 1]);
      match ops[i - 1]
      case Create(t, newId, now) =>
        CreateReserved(stores[i - 1], t, newId, now);
        CreateBacked(stores[i - 1], t, newId, now);
      case Patch(id, r, now) =>
        PatchReserved(stores[i - 1], id, r, now);
        PatchBacked(stores[i - 1], id, r, now);
      case Delete(id, released) => DeleteReleasesAll(stores[i - 1], id, released);
      case Restart(rows) => RestartReserved(stores[i - 1], rows);
    }
  }

  /** A patch that is refused after renaming. */
  ghost predicate Breaks(s: Store, op: Op) {
    op.Patch? && op.id in s.records && BadStatus(s.records[op.id], op.r)
        && Renamed(s.records[op.id], op.r) != s.records[op.id]
  }

  lemma StaysInStep(stores: seq<Store>, ops: seq<Op>, k: nat)
    requires IsRun(stores, ops) && k < |ops| && Synced(stores[k]) && !Breaks(stores[k], ops[k])
    ensures Synced(stores[k + 1])
  {
    AlwaysReserved(stores, ops, k);
    var s := stores[k];
    assert Admissible(s, ops[k]) && stores[k + 1] == Apply(s, ops[k]);
    match ops[k]
    case Create(t, newId, now) => CreateSynced(s, t, newId, now);
    case Patch(id, r, now) => if id in s.records { PatchSyncedIff(s, id, r, now); }
    case Delete(id, released) => DeleteSynced(s, id, released);
    case Restart(rows) => RestartEquivalentIff(s, rows);
  }

  lemma InStepAtFirst(stores: seq<Store>, ops: seq<Op>, i: nat)
    requires IsRun(stores, ops) && i < |stores| && (i == 0 || ops[i - 1].Restart?)
    ensures Synced(stores[i])
  {
    if i > 0 {
      AlwaysReserved(stores, ops, i - 1);
      assert Admissible(stores[i - 1], ops[i - 1]) && stores[i - 1 + 1] == Apply(stores[i - 1], ops[i - 1]);
      RestartEquivalentIff(stores[i - 1], ops[i - 1].rows);
    } else {
      assert Rows(map[]) == map[];
    }
  }

  /** From the start or a restart on, the table is in step until a patch is refused after renaming. */
  lemma {:induction false} SyncedUntilRefused(stores: seq<Store>, ops: seq<Op>, i: nat, j: nat)
    requires IsRun(stores, ops) && i <= j < |stores| && (i == 0 || ops[i - 1].Restart?)
    requires forall k :: i <= k < j ==> !Breaks(stores[k], ops[k])
    ensures Synced(stores[j])
    decreases j
  {
    if i == j {
      InStepAtFirst(stores, ops, i);
    } else {
      var k := j - 1;
      assert !Breaks(stores[k], ops[k]);
      SyncedUntilRefused(stores, ops, i, k);
      StaysInStep(stores, ops, k);
    }
  }

  /** A patch that changes a name, refused or not. */
  predicate Renames(s: Store, op: Op) {
    op.Patch? && op.id in s.records && op.r.name != "" && op.r.name != s.records[op.id].name
  }

  /** The rows have the names the records have. */
  ghost predicate RowNames(s: Store) {
    forall id :: id in s.table ==> id in s.records && s.table[id].name == s.records[id].name
  }

  /** While rows and records have the same names, only renaming parts names and reservations. */
  lemma ApplyNamesAgreeIff(s: Store, op: Op)
    requires Reserved(s) && Backed(s) && NamesAgree(s) && RowNames(s) && Admissible(s, op)
    ensures NamesAgree(Apply(s, op)) <==> !Renames(s, op)
  {
    match op
    case Create(t, newId, now) => CreateNamesAgree(s, t, newId, now);
    case Patch(id, r, now) => if id in s.records { PatchNamesAgreeIff(s, id, r, now); }
    case Delete(id, released) => DeleteNamesAgree(s, id, released);
    case Restart(rows) =>
      RestartNamesAgreeIff(s, rows);
      NamesAreDistinct(s);
  }

  lemma PatchRowNames(s: Store, id: string, r: PatchRequest, now: int)
    requires Reserved(s) && RowNames(s) && id in s.records && (r.name == "" || r.name == s.records[id].name)
    ensures RowNames(AfterPatch(s, id, r, now))
  {
  }

  lemma ApplyRowNames(s: Store, op: Op)
    requires Reserved(s) && Backed(s) && RowNames(s) && Admissible(s, op) && !Renames(s, op)
    ensures RowNames(Apply(s, op))
  {
    match op
    case Create(_, _, _) =>
    case Patch(id, r, now) => if id in s.records { PatchRowNames(s, id, r, now); }
    case Delete(_, _) =>
    case Restart(rows) => RestartIs(s, rows);
  }

  lemma NamesAreDistinct(s: Store)
    requires NamesAgree(s) && RowNames(s)
    ensures DistinctNames(s.table)
  {
    forall a, b | a in s.table && b in s.table && s.table[a].name == s.table[b].name != "" ensures a == b {
      assert s.byName[s.records[a].name] == a && s.byName[s.records[b].name] == b;
    }
  }

  /** From the start, or a restart with distinct row names, names and reservations agree until a tenant is renamed. */
  lemma {:induction false} NamesAgreeUntilRenamed(stores: seq<Store>, ops: seq<Op>, i: nat, j: nat)
    requires IsRun(stores, ops) && i <= j < |stores|
    requires i == 0 || (ops[i - 1].Restart? && DistinctNames(stores[i - 1].table))
    requires forall k :: i <= k < j ==> !Renames(stores[k], ops[k])
    ensures NamesAgree(stores[j]) && RowNames(stores[j])
    decreases j
  {
    if i == j {
      NamesAgreeAtFirst(stores, ops, i);
    } else {
      var k := j - 1;
      NamesAgreeUntilRenamed(stores, ops, i, k);
      AlwaysReserved(stores, ops, k);
      assert Admissible(stores[k], ops[k]) && stores[k + 1] == Apply(stores[k], ops[k]);
      ApplyNamesAgreeIff(stores[k], ops[k]);
      ApplyRowNames(stores[k], ops[k]);
    }
  }

  lemma NamesAgreeAtFirst(stores: seq<Store>, ops: seq<Op>, i: nat)
    requires IsRun(stores, ops) && i < |stores|
    requires i == 0 || (ops[i - 1].Restart? && DistinctNames(stores[i - 1].table))
    ensures NamesAgree(stores[i]) && RowNames(stores[i])
  {
    if i > 0 {
      AlwaysReserved(stores, ops, i - 1);
      assert Admissible(stores[i - 1], ops[i - 1]) && stores[i - 1 + 1] == Apply(stores[i - 1], ops[i - 1]);
      RestartNamesAgreeIff(stores[i - 1], ops[i - 1].rows);
      RestartIs(stores[i - 1], ops[i - 1].rows);
    }
  }

  /** Zero or more allowed transitions lead from one status to the other. */
  ghost predicate Reaches(from: string, to: string, steps: nat)
    decreases steps
  {
    if steps == 0 then from == to
    else exists via :: CanTransition(from, via) && Reaches(via, to, steps - 1)
  }

  /** A tenant that lives on from one step to the next keeps its status or makes one allowed transition. */
  lemma StatusStep(s: Store, op: Op, id: string)
    requires Reserved(s) && Backed(s) && Admissible(s, op) && id in s.records && id in Apply(s, op).records
    ensures var from, to := s.records[id].status, Apply(s, op).records[id].status;
            from == to || CanTransition(from, to)
  {
    if op.Restart? {
      RestartReserved(s, op.rows);
    }
  }

  /** The tenant is live in every store from `i` to `j`. */
  ghost predicate LivesThrough(stores: seq<Store>, id: string, i: nat, j: nat) {
    i <= j < |stores| && forall k :: i <= k <= j ==> id in stores[k].records
  }

  lemma WalkOn(from: string, via: string, to: string, steps: nat) returns (more: nat)
    requires (from == via || CanTransition(from, via)) && Reaches(via, to, steps)
    ensures more <= steps + 1 && Reaches(from, to, more)
  {
    more := if from == via then steps else steps + 1;
  }

  /** A tenant's status history is a walk in the allowed transitions. */
  lemma {:induction false} StatusWalks(stores: seq<Store>, ops: seq<Op>, id: string, i: nat, j: nat)
      returns (steps: nat)
    requires IsRun(stores, ops) && LivesThrough(stores, id, i, j)
    ensures steps <= j - i && Reaches(stores[i].records[id].status, stores[j].records[id].status, steps)
    decreases j - i
  {
    if i == j {
      return 0;
    }
    StatusMoves(stores, ops, id, i);
    var rest := StatusWalks(stores, ops, id, i + 1, j);
    steps := WalkOn(stores[i].records[id].status, stores[i + 1].records[id].status, stores[j].records[id].status, rest);
  }

  lemma StatusMoves(stores: seq<Store>, ops: seq<Op>, id: string, i: nat)
    requires IsRun(stores, ops) && LivesThrough(stores, id, i, i + 1)
    ensures var from, to := stores[i].records[id].status, stores[i + 1].records[id].status;
            from == to || CanTransition(from, to)
  {
    AlwaysReserved(stores, ops, i);
    assert Admissible(stores[i], ops[i]) && stores[i + 1] == Apply(stores[i], ops[i]);
    StatusStep(stores[i], ops[i], id);
  }

  lemma {:induction false} WalksEnd(from: string, to: string, steps: nat)
    requires Reaches(from, to, steps)
    ensures from == DEPROVISIONED ==> to == DEPROVISIONED
    ensures from == DEPROVISIONING ==> to in {DEPROVISIONING, DEPROVISIONED}
    decreases steps
  {
    if steps > 0 {
      var via :| CanTransition(from, via) && Reaches(via, to, steps - 1);
      WalksEnd(via, to, steps - 1);
    }
  }

  /** Deprovisioned is final, and nothing reactivates a tenant that is being deprovisioned. */
  lemma DeprovisioningIsOneWay(stores: seq<Store>, ops: seq<Op>, id: string, i: nat, j: nat)
    requires IsRun(stores, ops) && LivesThrough(stores, id, i, j)
    ensures var from, to := stores[i].records[id].status, stores[j].records[id].status;
            && (from == DEPROVISIONED ==> to == DEPROVISIONED)
            && (from == DEPROVISIONING ==> to in {DEPROVISIONING, DEPROVISIONED})
  {
    var steps := StatusWalks(stores, ops, id, i, j);
    WalksEnd(stores[i].records[id].status, stores[j].records[id].status, steps);
  }
}
