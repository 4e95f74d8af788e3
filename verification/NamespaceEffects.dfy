/** What each operation on the namespace store does to one namespace, and that it leaves the others alone. */
module NamespaceEffects {
  import opened Fields
  import opened IdLists
  import opened Namespaces

  /** A new record is what is given, with the fields filled in that are not. */
  predicate Completed(ns: Namespace, newId: string, now: int, n: Namespace) {
    && Defaulted(ns.id, newId, n.id) && Defaulted(ns.status, "provisioning", n.status)
    && Defaulted(ns.config.isolationLevel, "namespace", n.config.isolationLevel)
    && Defaulted(ns.config.networkPolicy, "deny-all", n.config.networkPolicy)
    && Stamped(ns.createdAt, now, n.createdAt) && n.updatedAt == now
    && n.config.tags == ns.config.tags && n.config.extra == ns.config.extra
    && n == ns.(id := n.id, status := n.status, config := n.config, createdAt := n.createdAt, updatedAt := n.updatedAt)
  }

  lemma Completes(ns: Namespace, newId: string, now: int)
    ensures Completed(ns, newId, now, WithDefaults(ns, newId, now))
  {
  }

  /** Unless its name is taken in the tenant, a new namespace is stored and found by it; the others stay. */
  lemma CreateEffect(s: Store, ns: Namespace, newId: string, now: int, id: string)
    requires id == (if ns.id == "" then newId else ns.id) && ns.tenantId + "::" + ns.name !in s.byName
    ensures var t := AfterCreate(s, ns, newId, now);
            && SameBut(s.records, t.records, id) && SameBut(s.table, t.table, id)
            && id in t.records && Completed(ns, newId, now, t.records[id])
            && t.byName == s.byName[ns.tenantId + "::" + ns.name := id]
            && Lookup(t, ns.tenantId, ns.name) == Some(t.records[id])
  {
    Completes(ns, newId, now);
  }

  /** It is listed last under its tenant. */
  lemma CreateLists(s: Store, ns: Namespace, newId: string, now: int, id: string)
    requires id == (if ns.id == "" then newId else ns.id) && ns.tenantId + "::" + ns.name !in s.byName
    ensures var t := AfterCreate(s, ns, newId, now);
            ListsSameBut(s.byTenant, t.byTenant, id)
                && Ids(t.byTenant, ns.tenantId) == Ids(s.byTenant, ns.tenantId) + [id]
  {
    AppendLists(s.byTenant, ns.tenantId, id);
  }

  lemma CreateRefused(s: Store, ns: Namespace, newId: string, now: int)
    requires ns.tenantId + "::" + ns.name in s.byName
    ensures AfterCreate(s, ns, newId, now) == s
  {
  }

  /** What a patch does to everything but the quota. */
  ghost predicate TakesFields(was: Namespace, r: PatchRequest, n: Namespace) {
    && Takes(was.description, r.description, n.description) && Takes(was.status, r.status, n.status)
    && Takes(was.config.networkPolicy, r.config.networkPolicy, n.config.networkPolicy)
    && Takes(was.config.isolationLevel, r.config.isolationLevel, n.config.isolationLevel)
    && Merges(was.config.tags, r.config.tags, n.config.tags) && Merges(was.config.extra, r.config.extra, n.config.extra)
    && n.id == was.id && n.tenantId == was.tenantId && n.name == was.name && n.createdAt == was.createdAt
  }

  predicate AsksQuota(r: PatchRequest) {
    r.quota.Some? && !(r.quota.value.maxAgents <= 0 && r.quota.value.maxStorageGB <= 0
        && r.quota.value.maxConcurrentWorkflows <= 0)
  }

  lemma FieldsTaken(was: Namespace, r: PatchRequest)
    ensures TakesFields(was, r, PatchedFields(was, r))
  {
  }

  /** Positive limits replace the old ones; without any the quota stays, be it nil. */
  predicate RaisesQuota(was: Option<Quota>, want: Option<Quota>, now: Option<Quota>) {
    if want.None? || was.None? then now == was
    else
      && now.Some?
      && Raised(was.value.maxAgents, want.value.maxAgents, now.value.maxAgents)
      && Raised(was.value.maxStorageGB, want.value.maxStorageGB, now.value.maxStorageGB)
      && Raised(was.value.maxConcurrentWorkflows, want.value.maxConcurrentWorkflows, now.value.maxConcurrentWorkflows)
  }

  /** A patch takes what is given, merges documents key by key, and leaves the rest. */
  lemma PatchEffect(s: Store, id: string, r: PatchRequest, now: int)
    requires id in s.records && s.records[id].id == id && !(AsksQuota(r) && s.records[id].quota.None?)
    ensures var t := AfterPatch(s, id, r, now);
            && SameBut(s.records, t.records, id) && SameBut(s.table, t.table, id)
            && t.byTenant == s.byTenant && t.byName == s.byName
            && id in t.records
            && var was, n := s.records[id], t.records[id];
               TakesFields(was, r, n) && RaisesQuota(was.quota, r.quota, n.quota) && n.updatedAt == now
  {
    FieldsTaken(s.records[id], r);
  }

  /** Asking for a limit where there is no quota panics: the fields before it are taken, in memory only. */
  lemma PatchPanics(s: Store, id: string, r: PatchRequest, now: int)
    requires id in s.records && AsksQuota(r) && s.records[id].quota.None?
    ensures var t := AfterPatch(s, id, r, now);
            && SameBut(s.records, t.records, id) && t == s.(records := t.records)
            && id in t.records
            && var was, n := s.records[id], t.records[id];
               TakesFields(was, r, n) && n.quota == was.quota && n.updatedAt == was.updatedAt
  {
    FieldsTaken(s.records[id], r);
  }

  /** Deleting takes the namespace and its name away and leaves the others. */
  lemma DeleteEffect(s: Store, id: string)
    requires id in s.records
    ensures var t, ns := AfterDelete(s, id), s.records[id];
            && SameBut(s.records, t.records, id) && SameBut(s.table, t.table, id)
            && id !in t.records && id !in t.table
            && t.byName == s.byName - {ns.tenantId + "::" + ns.name}
            && ListsSameBut(s.byTenant, t.byTenant, id)
            && multiset(Ids(t.byTenant, ns.tenantId)) == multiset(Ids(s.byTenant, ns.tenantId)) - multiset{id}
  {
    DropLists(s.byTenant, s.records[id].tenantId, id);
  }

  /** An id that is not there changes nothing. */
  lemma UnknownEffect(s: Store, id: string, r: PatchRequest, now: int)
    requires id !in s.records
    ensures AfterPatch(s, id, r, now) == s && AfterDelete(s, id) == s
  {
  }
}
