/** What each operation on the payment method store does to one method, and what to the others. */
module PaymentMethodEffects {
  import opened Fields
  import opened IdLists
  import opened PaymentMethods

  /** A new default takes the default from the tenant's others, at that time; nothing else of them changes. */
  predicate GivesWay(was: PaymentMethod, pm: PaymentMethod, now: int, n: PaymentMethod) {
    if pm.isDefault && was.tenantId == pm.tenantId then n == was.(isDefault := false, updatedAt := now) else n == was
  }

  predicate Completed(pm: PaymentMethod, newId: string, now: int, n: PaymentMethod) {
    && Defaulted(pm.id, newId, n.id) && Stamped(pm.createdAt, now, n.createdAt) && n.updatedAt == now
    && n == pm.(id := n.id, createdAt := n.createdAt, updatedAt := n.updatedAt)
  }

  /** Creating stores what is given; the others stay, but for a default that gives way. */
  lemma CreateEffect(s: Store, pm: PaymentMethod, newId: string, now: int, id: string)
    requires id == (if pm.id == "" then newId else pm.id) && pm.tenantId != "" && id !in s.records
    ensures var t := AfterCreate(s, pm, newId, now);
            && t.records.Keys == s.records.Keys + {id} && Completed(pm, newId, now, t.records[id])
            && forall k :: k in s.records ==> GivesWay(s.records[k], pm, now, t.records[k])
  {
  }

  /** It is listed last under its tenant. */
  lemma CreateLists(s: Store, pm: PaymentMethod, newId: string, now: int, id: string)
    requires id == (if pm.id == "" then newId else pm.id) && pm.tenantId != ""
    ensures var t := AfterCreate(s, pm, newId, now);
            ListsSameBut(s.byTenant, t.byTenant, id)
                && Ids(t.byTenant, pm.tenantId) == Ids(s.byTenant, pm.tenantId) + [id]
  {
    AppendLists(s.byTenant, pm.tenantId, id);
  }

  lemma CreateRefused(s: Store, pm: PaymentMethod, newId: string, now: int)
    requires pm.tenantId == ""
    ensures AfterCreate(s, pm, newId, now) == s
  {
  }

  /** Updating stores what is given; the row keeps its tenant and creation time; the others stay. */
  lemma UpdateEffect(s: Store, pm: PaymentMethod, now: int)
    requires pm.id in s.records && pm.id in s.table
    ensures var t := AfterUpdate(s, pm, now);
            && SameBut(s.records, t.records, pm.id) && SameBut(s.table, t.table, pm.id) && t.byTenant == s.byTenant
            && pm.id in t.records && t.records[pm.id] == pm.(updatedAt := now)
            && pm.id in t.table
            && t.table[pm.id] == pm.(tenantId := s.table[pm.id].tenantId, createdAt := s.table[pm.id].createdAt,
                updatedAt := now)
  {
  }

  /** Deleting takes the method away and leaves the others. */
  lemma DeleteEffect(s: Store, id: string)
    requires id in s.records
    ensures var t, pm := AfterDelete(s, id), s.records[id];
            && SameBut(s.records, t.records, id) && SameBut(s.table, t.table, id)
            && id !in t.records && id !in t.table && ListsSameBut(s.byTenant, t.byTenant, id)
            && multiset(Ids(t.byTenant, pm.tenantId)) == multiset(Ids(s.byTenant, pm.tenantId)) - multiset{id}
  {
    DropLists(s.byTenant, s.records[id].tenantId, id);
  }

  /** An id that is not there changes nothing. */
  lemma UnknownEffect(s: Store, pm: PaymentMethod, now: int)
    requires pm.id !in s.records
    ensures AfterUpdate(s, pm, now) == s && AfterDelete(s, pm.id) == s
  {
  }
}
