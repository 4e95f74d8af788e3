/**
 The deployment store and its rollback chain. A Go map held by several deployments is one map: desired
 states are indexes into `docs`, the maps allocated so far, so that sharing shows.
 */
module Deployments {
  import opened Hydration
  import opened IdLists

  const ZERO_TIME := 0
  const PENDING := "pending"
  const PROVISIONING := "provisioning"
  const RUNNING := "running"
  const ROLLING_BACK := "rolling_back"
  const ERROR := "error"
  const STOPPED := "stopped"
  const DEPRECATED := "deprecated"

  type Document = map<string, string>

  datatype Columns = Columns(
    id: string, tenantId: string, name: string, version: string, status: string, strategy: string,
    manifest: string, current: Document, error: string, refs: seq<string>,
    namespaceId: string, previousId: Option<string>, createdBy: string, notes: string,
    createdAt: int, updatedAt: int, deployedAt: Option<int>, deprecatedAt: Option<int>)

  datatype Deployment = Deployment(cols: Columns, desired: Option<nat>)

  /** A deployment's row: the same columns, with the contents of the desired state. */
  datatype Row = Row(cols: Columns, desired: Document)

  datatype PatchRequest = PatchRequest(name: string, notes: string, desired: Option<Document>, status: string)

  datatype Store = Store(
    records: map<string, Deployment>, byTenant: Index, docs: seq<Document>, table: map<string, Row>)

  function Contents(docs: seq<Document>, desired: Option<nat>): Document {
    if desired.Some? && desired.value < |docs| then docs[desired.value] else map[]
  }

  function RowOf(docs: seq<Document>, d: Deployment): Row {
    Row(d.cols, Contents(docs, d.desired))
  }

  function Upsert(table: map<string, Row>, row: Row): map<string, Row> {
    var id := row.cols.id;
    table[id := if id in table then row.(cols := row.cols.(tenantId := table[id].cols.tenantId,
                                                           createdAt := table[id].cols.createdAt))
                else row]
  }

  function Saved(s: Store, d: Deployment): Store {
    s.(records := s.records[d.cols.id := d], table := Upsert(s.table, RowOf(s.docs, d)))
  }

  function Inserted(s: Store, d: Deployment): Store {
    Saved(s.(byTenant := Append(s.byTenant, d.cols.tenantId, d.cols.id)), d)
  }

  function WithDefaults(c: Columns, newId: string, now: int): Columns {
    c.(id := if c.id == "" then newId else c.id,
       status := if c.status == "" then PENDING else c.status,
       strategy := if c.strategy == "" then "rolling" else c.strategy,
       createdAt := if c.createdAt == ZERO_TIME then now else c.createdAt,
       updatedAt := now)
  }

  /** `desired` is the caller's own map, which no stored deployment holds. */
  function AfterCreate(s: Store, c0: Columns, desired: Option<Document>, newId: string, now: int): Store {
    var c := WithDefaults(c0, newId, now);
    if desired.None? then Inserted(s, Deployment(c, None))
    else Inserted(s.(docs := s.docs + [desired.value]), Deployment(c, Some(|s.docs|)))
  }

  function PatchedColumns(c: Columns, r: PatchRequest, now: int): Columns {
    c.(name := if r.name != "" then r.name else c.name,
       notes := if r.notes != "" then r.notes else c.notes,
       status := if r.status != "" then r.status else c.status,
       updatedAt := now)
  }

  /** A patch writes into the map the deployment holds, whoever else holds it. */
  function AfterPatch(s: Store, id: string, r: PatchRequest, now: int): Store {
    if id !in s.records then s
    else
      var d, c := s.records[id].desired, PatchedColumns(s.records[id].cols, r, now);
      if r.desired.None? then Saved(s, Deployment(c, d))
      else if d.Some? && d.value < |s.docs| then
        Saved(s.(docs := s.docs[d.value := s.docs[d.value] + r.desired.value]), Deployment(c, d))
      else Saved(s.(docs := s.docs + [r.desired.value]), Deployment(c, Some(|s.docs|)))
  }

  function AfterDelete(s: Store, id: string): Store {
    if id !in s.records then s
    else s.(records := s.records - {id}, byTenant := Drop(s.byTenant, s.records[id].cols.tenantId, id),
        table := s.table - {id})
  }

  function PreviousId(s: Store, id: string): Option<string>
    requires id in s.records
  {
    s.records[id].cols.previousId
  }

  predicate CanRollback(s: Store, id: string) {
    id in s.records && PreviousId(s, id).Some? && PreviousId(s, id).value in s.records
  }

  function RollbackOf(original: Columns, prev: Deployment, createdBy: string, newId: string, now: int): Deployment {
    Deployment(
      Columns(newId, original.tenantId, original.name + "-rollback", prev.cols.version, PENDING, "recreate",
              prev.cols.manifest, map[], "", prev.cols.refs, original.namespaceId, Some(original.id), createdBy,
              "Rollback from " + original.version + " to " + prev.cols.version, now, now, None, None),
      prev.desired)
  }

  function AfterRollback(s: Store, id: string, createdBy: string, newId: string, now: int): Store {
    if !CanRollback(s, id) then s
    else Inserted(s, RollbackOf(s.records[id].cols, s.records[PreviousId(s, id).value], createdBy, newId, now))
  }

  predicate CanTransition(from: string, to: string) {
    || (from == PENDING && to in {PROVISIONING, ERROR, STOPPED})
    || (from == PROVISIONING && to in {RUNNING, ERROR, STOPPED})
    || (from == RUNNING && to in {ROLLING_BACK, STOPPED, ERROR, DEPRECATED})
    || (from == ROLLING_BACK && to in {RUNNING, ERROR, STOPPED})
    || (from == ERROR && to in {PENDING, STOPPED, DEPRECATED})
    || (from == STOPPED && to in {PENDING, DEPRECATED})
  }

  function AfterTransition(s: Store, id: string, to: string, notes: Option<string>, now: int): Store {
    if id !in s.records || !CanTransition(s.records[id].cols.status, to) then s
    else
      var c := s.records[id].cols;
      Saved(s, s.records[id].(cols := c.(
        status := to, notes := if notes.Some? && notes.value != "" then notes.value else c.notes,
        deployedAt := if to == RUNNING then Some(now) else c.deployedAt, updatedAt := now)))
  }

  function AfterDeprecate(s: Store, id: string, now: int): Store {
    if id !in s.records then s
    else Saved(s, s.records[id].(cols := s.records[id].cols.(
      status := DEPRECATED, deprecatedAt := Some(now), updatedAt := now)))
  }

  function RowId(r: Row): string { r.cols.id }
  function RowTenant(r: Row): string { r.cols.tenantId }

  /** A row is loaded with a map of its own. */
  function Loading(s: Store, r: Row): Store {
    s.(records := s.records[RowId(r) := Deployment(r.cols, Some(|s.docs|))],
       byTenant := Append(s.byTenant, RowTenant(r), RowId(r)), docs := s.docs + [r.desired])
  }

  function AfterHydrate(s: Store, rows: seq<Row>): Store
    decreases |rows|
  {
    if rows == [] then s else Loading(AfterHydrate(s, rows[..|rows| - 1]), rows[|rows| - 1])
  }

  class DeploymentStore {
    var deployments: map<string, Deployment>
    var byTenant: Index
    var docs: seq<Document>
    var table: map<string, Row>

    ghost function State(): Store
      reads this
    {
      Store(deployments, byTenant, docs, table)
    }

    constructor (table: map<string, Row>)
      ensures State() == Store(map[], map[], [], table)
    {
      deployments, byTenant, docs, this.table := map[], map[], [], table;
    }

    method Save(d: Deployment)
      modifies this`deployments, this`table
      ensures State() == Saved(old(State()), d)
    {
      deployments := deployments[d.cols.id := d];
      table := Upsert(table, RowOf(docs, d));
    }

    method Create(c0: Columns, desired: Option<Document>, newId: string, now: int)
      modifies this
      ensures State() == AfterCreate(old(State()), c0, desired, newId, now)
    {
      var c := c0;
      if c.id == "" {
        c := c.(id := newId);
      }
      if c.status == "" {
        c := c.(status := PENDING);
      }
      if c.strategy == "" {
        c := c.(strategy := "rolling");
      }
      if c.createdAt == ZERO_TIME {
        c := c.(createdAt := now);
      }
      c := c.(updatedAt := now);
      var d := Deployment(c, None);
      if desired.Some? {
        docs := docs + [desired.value];
        d := Deployment(c, Some(|docs| - 1));
      }
      byTenant := Append(byTenant, c.tenantId, c.id);
      Save(d);
    }

    /** Merges a document into the map a deployment holds, allocating one if it holds none. */
    method MergeDesired(desired: Option<nat>, r: Document) returns (a: nat)
      modifies this`docs
      ensures if desired.Some? && desired.value < |old(docs)|
              then a == desired.value && docs == old(docs)[a := old(docs)[a] + r]
              else a == |old(docs)| && docs == old(docs) + [r]
    {
      if desired.Some? && desired.value < |docs| {
        a := desired.value;
      } else {
        a := |docs|;
        docs := docs + [map[]];
        assert map[] + r == r;
      }
      docs := docs[a := docs[a] + r];
    }

    method Patch(id: string, r: PatchRequest, now: int) returns (found: bool)
      modifies this
      ensures found == (id in old(deployments)) && State() == AfterPatch(old(State()), id, r, now)
    {
      if id !in deployments {
        return false;
      }
      var c, desired := deployments[id].cols, deployments[id].desired;
      if r.name != "" {
        c := c.(name := r.name);
      }
      if r.notes != "" {
        c := c.(notes := r.notes);
      }
      if r.desired.Some? {
        var a := MergeDesired(desired, r.desired.value);
        desired := Some(a);
      }
      if r.status != "" {
        c := c.(status := r.status);
      }
      c := c.(updatedAt := now);
      Save(Deployment(c, desired));
      return true;
    }

    method Delete(id: string) returns (found: bool)
      modifies this
      ensures found == (id in old(deployments)) && State() == AfterDelete(old(State()), id)
    {
      if id !in deployments {
        return false;
      }
      table := table - {id};
      byTenant := DropFrom(byTenant, deployments[id].cols.tenantId, id);
      deployments := deployments - {id};
      return true;
    }

    method Rollback(id: string, createdBy: string, newId: string, now: int) returns (ok: bool)
      modifies this
      ensures ok == CanRollback(old(State()), id) && State() == AfterRollback(old(State()), id, createdBy, newId, now)
    {
      if id !in deployments || deployments[id].cols.previousId.None?
          || deployments[id].cols.previousId.value !in deployments {
        return false;
      }
      var original := deployments[id].cols;
      var d := RollbackOf(original, deployments[original.previousId.value], createdBy, newId, now);
      byTenant := Append(byTenant, d.cols.tenantId, d.cols.id);
      Save(d);
      return true;
    }

    method Transition(id: string, to: string, notes: Option<string>, now: int) returns (ok: bool)
      modifies this
      ensures ok <==> id in old(deployments) && CanTransition(old(deployments)[id].cols.status, to)
      ensures State() == AfterTransition(old(State()), id, to, notes, now)
    {
      if id !in deployments || !CanTransition(deployments[id].cols.status, to) {
        return false;
      }
      var c := deployments[id].cols.(status := to);
      if notes.Some? && notes.value != "" {
        c := c.(notes := notes.value);
      }
      if to == RUNNING {
        c := c.(deployedAt := Some(now));
      }
      c := c.(updatedAt := now);
      Save(deployments[id].(cols := c));
      return true;
    }

    method Deprecate(id: string, now: int) returns (found: bool)
      modifies this
      ensures found == (id in old(deployments)) && State() == AfterDeprecate(old(State()), id, now)
    {
      if id !in deployments {
        return false;
      }
      var c := deployments[id].cols.(status := DEPRECATED, deprecatedAt := Some(now), updatedAt := now);
      Save(deployments[id].(cols := c));
      return true;
    }

    method HydrateDeployments(rows: seq<Row>)
      modifies this
      ensures State() == AfterHydrate(old(State()), rows)
    {
      for i := 0 to |rows|
        invariant State() == AfterHydrate(old(State()), rows[..i])
      {
        assert rows[..i + 1][..i] == rows[..i];
        var r := rows[i];
        docs := docs + [r.desired];
        deployments := deployments[r.cols.id := Deployment(r.cols, Some(|docs| - 1))];
        byTenant := Append(byTenant, r.cols.tenantId, r.cols.id);
      }
      assert rows[..|rows|] == rows;
    }
  }
}
