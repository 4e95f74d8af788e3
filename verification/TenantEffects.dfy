/** What each operation on the tenant store does to one tenant, and that it leaves the others alone. */
module TenantEffects {
  import opened Fields
  import opened IdLists
  import opened Tenants

  /** The row says what the record says, nil metadata being empty. */
  lemma RowsKeepAll(t: Tenant)
    ensures RowOf(t) == t.(metadata := RowOf(t).metadata)
    ensures RowOf(t).metadata == if t.metadata.Some? then t.metadata else Some(map[])
  {
  }

  /** Where each status can be entered from. */
  lemma EnteredFrom(from: string, to: string)
    ensures to in AllowedTransitions(from) <==>
              || (to == "active" && from in {"provisioning", "suspended"})
              || (to == "suspended" && from == "active")
              || (to == "deprovisioning" && from in {"provisioning", "active", "suspended"})
              || (to == "deprovisioned" && from == "deprovisioning")
    ensures CanTransition(from, to) <==> to in AllowedTransitions(from)
  {
  }

  predicate Completed(t: Tenant, newId: string, now: int, n: Tenant) {
    && Defaulted(t.id, newId, n.id) && Defaulted(t.status, "provisioning", n.status)
    && Stamped(t.createdAt, now, n.createdAt) && n.updatedAt == now
    && n == t.(id := n.id, status := n.status, createdAt := n.createdAt, updatedAt := n.updatedAt)
  }

  /** Unless id or name is taken a new tenant is stored and its name reserved; the others stay. */
  lemma CreateEffect(s: Store, t0: Tenant, newId: string, now: int, id: string)
    requires id == (if t0.id == "" then newId else t0.id)
    ensures var t := AfterCreate(s, t0, newId, now);
            if id in s.records || (t0.name != "" && t0.name in s.byName) then t == s
            else
              && SameBut(s.records, t.records, id) && SameBut(s.table, t.table, id)
              && id in t.records && Completed(t0, newId, now, t.records[id])
              && t.byName == if t0.name == "" then s.byName else s.byName[t0.name := id]
  {
  }

  predicate TakesQuota(was: Quota, want: Option<Quota>, now: Quota) {
    if want.None? then now == was
    else
      && Raised(was.maxAgents, want.value.maxAgents, now.maxAgents)
      && Raised(was.maxWorkflowsPerDay, want.value.maxWorkflowsPerDay, now.maxWorkflowsPerDay)
      && Raised(was.maxStorageGB, want.value.maxStorageGB, now.maxStorageGB)
      && Raised(was.maxMonthlyTokens, want.value.maxMonthlyTokens, now.maxMonthlyTokens)
      && Raised(was.maxConcurrentWorkflows, want.value.maxConcurrentWorkflows, now.maxConcurrentWorkflows)
  }

  predicate TakesNames(was: Tenant, r: PatchRequest, n: Tenant) {
    Takes(was.name, r.name, n.name) && Takes(was.displayName, r.displayName, n.displayName)
  }

  predicate TakesAll(was: Tenant, r: PatchRequest, now: int, n: Tenant) {
    && TakesNames(was, r, n) && Takes(was.status, r.status, n.status) && Takes(was.plan, r.plan, n.plan)
    && Takes(was.region, r.region, n.region) && Takes(was.isolationLevel, r.isolationLevel, n.isolationLevel)
    && Takes(was.contactEmail, r.contactEmail, n.contactEmail)
    && n.metadata == (if r.metadata.Some? then r.metadata else was.metadata)
    && TakesQuota(was.quota, r.quota, n.quota) && n.updatedAt == now
    && n.id == was.id && n.createdAt == was.createdAt
  }

  /** A patch takes what is given and leaves the rest; no reservation moves. */
  lemma PatchEffect(s: Store, id: string, r: PatchRequest, now: int)
    requires id in s.records && s.records[id].id == id
    requires r.status == "" || r.status in AllowedTransitions(s.records[id].status)
    ensures var t := AfterPatch(s, id, r, now);
            && SameBut(s.records, t.records, id) && SameBut(s.table, t.table, id) && t.byName == s.byName
            && id in t.records && TakesAll(s.records[id], r, now, t.records[id])
  {
  }

  /** With a status that is not allowed only the names are taken, in memory. */
  lemma PatchRefused(s: Store, id: string, r: PatchRequest, now: int)
    requires id in s.records && r.status != "" && r.status !in AllowedTransitions(s.records[id].status)
    ensures var t := AfterPatch(s, id, r, now);
            && SameBut(s.records, t.records, id) && t == s.(records := t.records) && id in t.records
            && var was, n := s.records[id], t.records[id];
               TakesNames(was, r, n) && n == was.(name := n.name, displayName := n.displayName)
  {
  }

  /** Deleting takes the tenant and what it had reserved away; other tenants and their reservations stay. */
  lemma DeleteEffect(s: Store, id: string, released: set<string>)
    requires Reserved(s) && id in s.records && StopsAtFirst(s, id, released)
    ensures var t := AfterDelete(s, id, released);
            && SameBut(s.records, t.records, id) && SameBut(s.table, t.table, id)
            && id !in t.records && id !in t.table
            && forall name :: (name in t.byName <==> name in s.byName && s.byName[name] != id)
                              && (name in t.byName ==> t.byName[name] == s.byName[name])
  {
    DeleteReleasesAll(s, id, released);
  }

  /** An id that is not there changes nothing. */
  lemma UnknownEffect(s: Store, id: string, r: PatchRequest, now: int, released: set<string>)
    requires id !in s.records
    ensures AfterPatch(s, id, r, now) == s && AfterDelete(s, id, released) == s
  {
  }
}
