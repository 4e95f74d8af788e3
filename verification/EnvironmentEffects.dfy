/** What each operation on the environment store does to one environment, and that it leaves the others alone. */
module EnvironmentEffects {
  import opened Environments
  import opened Fields
  import opened Hydration
  import opened IdLists

  /** All but one environment are as they were, in memory, in the lists and in the table. */
  ghost predicate OthersStay(s: Store, t: Store, id: string) {
    && SameBut(s.records, t.records, id) && SameBut(s.table, t.table, id)
    && ListsSameBut(s.byTenant, t.byTenant, id) && ListsSameBut(s.byType, t.byType, id)
  }

  /** The row says what the record says, up to nil and empty documents. */
  ghost predicate Durable(t: Store, id: string) {
    && id in t.records && id in t.table
    && var e, r := t.records[id], FromRow(t.table[id]);
       && e == r.(resources := e.resources, network := e.network,
           isolation := r.isolation.(metadata := e.isolation.metadata))
       && (e.resources.Some? ==> r.resources == e.resources) && (e.network.Some? ==> r.network == e.network)
       && (e.isolation.metadata == r.isolation.metadata || e.isolation.metadata == Some(map[]))
  }

  /** A new record is what is given, with the fields filled in that are not. */
  predicate Completed(e: Environment, newId: string, now: int, n: Environment) {
    && Defaulted(e.id, newId, n.id) && Defaulted(e.state, "creating", n.state)
    && Defaulted(e.isolationLevel, "logical", n.isolationLevel)
    && Stamped(e.createdAt, now, n.createdAt) && n.updatedAt == now
    && n == e.(id := n.id, state := n.state, isolationLevel := n.isolationLevel, createdAt := n.createdAt,
               updatedAt := n.updatedAt)
  }

  lemma Completes(e: Environment, newId: string, now: int)
    ensures Completed(e, newId, now, WithDefaults(e, newId, now))
  {
  }

  /** Creating stores what is given under the id given or the new one, and leaves the others. */
  lemma CreateEffect(s: Store, e: Environment, newId: string, now: int, id: string)
    requires id == if e.id == "" then newId else e.id
    ensures var t := AfterCreate(s, e, newId, now);
            && SameBut(s.records, t.records, id) && SameBut(s.table, t.table, id)
            && id in t.records && Completed(e, newId, now, t.records[id])
  {
    Completes(e, newId, now);
  }

  /** It is listed last under its tenant and its type. */
  lemma CreateLists(s: Store, e: Environment, newId: string, now: int, id: string)
    requires id == if e.id == "" then newId else e.id
    ensures var t := AfterCreate(s, e, newId, now);
            && ListsSameBut(s.byTenant, t.byTenant, id) && ListsSameBut(s.byType, t.byType, id)
            && Ids(t.byTenant, e.tenantId) == Ids(s.byTenant, e.tenantId) + [id]
            && Ids(t.byType, e.kind) == Ids(s.byType, e.kind) + [id]
  {
    var t := AfterCreate(s, e, newId, now);
    assert t.byTenant == Append(s.byTenant, e.tenantId, id) && t.byType == Append(s.byType, e.kind, id);
    AppendLists(s.byTenant, e.tenantId, id);
    AppendLists(s.byType, e.kind, id);
  }

  lemma RowIsDurable(e: Environment)
    ensures Durable(Store(map[e.id := e], map[], map[], map[e.id := RowOf(e)]), e.id)
  {
  }

  lemma CreateIsDurable(s: Store, e: Environment, newId: string, now: int)
    requires WithDefaults(e, newId, now).id !in s.table
    ensures Durable(AfterCreate(s, e, newId, now), WithDefaults(e, newId, now).id)
  {
    RowIsDurable(WithDefaults(e, newId, now));
  }

  /** Limits are set where there was none, flags only switched on, and a level set where there was none. */
  predicate MergesIsolation(was: Isolation, want: Isolation, now: Isolation) {
    && Filled(was.quota.maxCPUs, want.quota.maxCPUs, now.quota.maxCPUs)
    && FilledReal(was.quota.maxMemoryGB, want.quota.maxMemoryGB, now.quota.maxMemoryGB)
    && FilledReal(was.quota.maxStorageGB, want.quota.maxStorageGB, now.quota.maxStorageGB)
    && Filled(was.quota.maxConnections, want.quota.maxConnections, now.quota.maxConnections)
    && Filled(was.quota.maxDeployments, want.quota.maxDeployments, now.quota.maxDeployments)
    && Filled(was.quota.maxAgents, want.quota.maxAgents, now.quota.maxAgents)
    && (now.dataIsolation <==> was.dataIsolation || want.dataIsolation)
    && (now.networkIsolation <==> was.networkIsolation || want.networkIsolation)
    && Defaulted(was.complianceLevel, want.complianceLevel, now.complianceLevel)
    && now.backupPolicy == was.backupPolicy && now.metadata == was.metadata
  }

  /** A patch takes what is given and leaves the rest, whatever else is or is not requested. */
  lemma PatchEffect(s: Store, id: string, r: PatchRequest, now: int)
    requires id in s.records && s.records[id].id == id
    ensures var t := AfterPatch(s, id, r, now);
            && SameBut(s.records, t.records, id) && SameBut(s.table, t.table, id)
            && t.byTenant == s.byTenant && t.byType == s.byType
            && id in t.records
            && var was, n := s.records[id], t.records[id];
               && Takes(was.name, r.name, n.name) && Takes(was.notes, r.notes, n.notes)
               && Takes(was.isolationLevel, r.isolationLevel, n.isolationLevel)
               && MergesIsolation(was.isolation, r.isolation, n.isolation) && n.updatedAt == now
               && n == was.(name := n.name, notes := n.notes, isolationLevel := n.isolationLevel,
                            isolation := n.isolation, updatedAt := n.updatedAt)
  {
  }

  /** And the table with it, if the row was that of the record. */
  lemma PatchIsDurable(s: Store, id: string, r: PatchRequest, now: int)
    requires Durable(s, id) && s.records[id].id == id
    ensures Durable(AfterPatch(s, id, r, now), id)
  {
  }

  /** Deleting takes the environment away and leaves the others. */
  lemma DeleteEffect(s: Store, id: string)
    requires id in s.records
    ensures var t := AfterDelete(s, id);
            && OthersStay(s, t, id) && id !in t.records && id !in t.table
            && multiset(Ids(t.byTenant, s.records[id].tenantId))
               == multiset(Ids(s.byTenant, s.records[id].tenantId)) - multiset{id}
            && multiset(Ids(t.byType, s.records[id].kind)) == multiset(Ids(s.byType, s.records[id].kind)) - multiset{id}
  {
    DropLists(s.byTenant, s.records[id].tenantId, id);
    DropLists(s.byType, s.records[id].kind, id);
  }

  /** An id that is not there changes nothing. */
  lemma UnknownEffect(s: Store, id: string, r: PatchRequest, to: string, notes: Option<string>, now: int)
    requires id !in s.records
    ensures AfterPatch(s, id, r, now) == s && AfterDelete(s, id) == s && AfterTransition(s, id, to, notes, now) == s
  {
  }

  /** Where each state can be entered from. */
  lemma EnteredFrom(from: string, to: string)
    ensures CanTransition(from, to) <==>
              || (to == "active" && from in {"creating", "updating"})
              || (to == "updating" && from == "active")
              || (to == "stopping" && from == "active")
              || (to == "stopped" && from in {"stopping", "error"})
              || (to == "creating" && from in {"stopped", "error"})
              || (to == "error" && from in {"creating", "active", "updating", "stopping", "stopped"})
  {
  }

  /** Activate acts on environments that are creating or updating, Deactivate on those stopping or in error. */
  lemma OfferedTransitions(s: Store, id: string, now: int)
    requires id in s.records && s.records[id].id == id
    ensures AfterTransition(s, id, "active", None, now) != s ==> s.records[id].state in {"creating", "updating"}
    ensures s.records[id].state in {"creating", "updating"} ==> Entered(s, id, "active", None, now)
    ensures AfterTransition(s, id, "stopped", None, now) != s ==> s.records[id].state in {"stopping", "error"}
    ensures s.records[id].state in {"stopping", "error"} ==> Entered(s, id, "stopped", None, now)
  {
    EnteredFrom(s.records[id].state, "active");
    EnteredFrom(s.records[id].state, "stopped");
    if CanTransition(s.records[id].state, "active") { TransitionEffect(s, id, "active", None, now); }
    if CanTransition(s.records[id].state, "stopped") { TransitionEffect(s, id, "stopped", None, now); }
  }

  /** The environment is in the state, with the time it got there and the notes given. */
  predicate Arrived(was: Environment, to: string, notes: Option<string>, now: int, n: Environment) {
    && n.state == to && n.updatedAt == now
    && Takes(was.notes, if notes.Some? then notes.value else "", n.notes)
    && n.activatedAt == (if to == "active" then Some(now) else was.activatedAt)
    && n.deactivatedAt == (if to == "stopped" then Some(now) else was.deactivatedAt)
    && n == was.(state := n.state, notes := n.notes, activatedAt := n.activatedAt, deactivatedAt := n.deactivatedAt,
                 updatedAt := n.updatedAt)
  }

  lemma Arrives(was: Environment, to: string, notes: Option<string>, now: int)
    ensures Arrived(was, to, notes, now, Moved(was, to, notes, now))
  {
  }

  /** It has got there, in memory and in the table, and nothing else has changed. */
  ghost predicate Entered(s: Store, id: string, to: string, notes: Option<string>, now: int)
    requires id in s.records
  {
    var t := AfterTransition(s, id, to, notes, now);
    && SameBut(s.records, t.records, id) && SameBut(s.table, t.table, id)
    && t.byTenant == s.byTenant && t.byType == s.byType
    && id in t.records && Arrived(s.records[id], to, notes, now, t.records[id])
    && id in t.table && t.table[id].state == to
  }

  lemma TransitionEffect(s: Store, id: string, to: string, notes: Option<string>, now: int)
    requires id in s.records && s.records[id].id == id && CanTransition(s.records[id].state, to)
    ensures Entered(s, id, to, notes, now)
  {
    Arrives(s.records[id], to, notes, now);
  }

  /** What the table of transitions does not allow changes nothing. */
  lemma TransitionRefused(s: Store, id: string, to: string, notes: Option<string>, now: int)
    requires id in s.records && !CanTransition(s.records[id].state, to)
    ensures AfterTransition(s, id, to, notes, now) == s
  {
  }
}
