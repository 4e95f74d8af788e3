/** What each operation on the subscription store does to one subscription, and that it leaves the others alone. */
module SubscriptionEffects {
  import opened Fields
  import opened IdLists
  import opened Subscriptions

  /** What a seat of each plan costs. */
  predicate Costs(plan: string, price: real) {
    && (plan == "saas" ==> price == 99.0) && (plan == "enterprise" ==> price == 499.0)
    && (plan == "sovereign" ==> price == 1999.0)
    && (plan !in {"saas", "enterprise", "sovereign"} ==> price == 0.0)
  }

  predicate Called(plan: string, name: string) {
    && (plan == "saas" ==> name == "SaaS") && (plan == "enterprise" ==> name == "Enterprise")
    && (plan == "sovereign" ==> name == "Sovereign")
    && (plan !in {"saas", "enterprise", "sovereign"} ==> name == "")
  }

  /** The row says what the record says, no quotas being quotas of zeros. */
  lemma RowsKeepAll(sub: Subscription)
    ensures RowOf(sub) == sub.(quotas := RowOf(sub).quotas)
    ensures RowOf(sub).quotas == if sub.quotas.Some? then sub.quotas else Some(Quotas(0, 0, 0, 0, 0))
  {
  }

  /** Who, what and how much: filled in where it is not given. */
  ghost predicate CompletedTerms(sub: Subscription, newId: string, now: int, n: Subscription) {
    && Defaulted(sub.id, newId, n.id) && Stamped(sub.createdAt, now, n.createdAt) && n.updatedAt == now
    && Defaulted(sub.status, "trialing", n.status)
    && n.plan == sub.plan && (if sub.planName == "" then Called(sub.plan, n.planName) else n.planName == sub.planName)
    && Defaulted(sub.billingCycle, "monthly", n.billingCycle) && Defaulted(sub.currency, "USD", n.currency)
    && n.seats == (if sub.seats < 1 then 1 else sub.seats)
    && (if sub.unitPrice == 0.0 then Costs(sub.plan, n.unitPrice) else n.unitPrice == sub.unitPrice)
    && n.total == (if sub.total == 0.0 then n.unitPrice * n.seats as real else sub.total)
  }

  /** When: from now for a month, and billed at its end, where it is not given. */
  predicate CompletedTimes(sub: Subscription, now: int, monthLater: int, n: Subscription) {
    && Stamped(sub.periodStart, now, n.periodStart) && Stamped(sub.periodEnd, monthLater, n.periodEnd)
    && Stamped(sub.nextBilling, n.periodEnd, n.nextBilling)
    && n.tenantId == sub.tenantId && n.cancelAtPeriodEnd == sub.cancelAtPeriodEnd
    && n.cancelledAt == sub.cancelledAt && n.quotas == sub.quotas
  }

  lemma Completes(sub: Subscription, newId: string, now: int, monthLater: int)
    ensures var n := WithDefaults(sub, newId, now, monthLater);
            CompletedTerms(sub, newId, now, n) && CompletedTimes(sub, now, monthLater, n)
  {
  }

  /** For a tenant without one a new subscription is stored and found; the others stay. */
  lemma CreateEffect(s: Store, sub: Subscription, newId: string, now: int, monthLater: int, id: string)
    requires id == (if sub.id == "" then newId else sub.id) && sub.tenantId !in s.byTenant
    ensures var t := AfterCreate(s, sub, newId, now, monthLater);
            && SameBut(s.records, t.records, id) && SameBut(s.table, t.table, id)
            && t.byTenant == s.byTenant[sub.tenantId := id] && id in t.records
            && CompletedTerms(sub, newId, now, t.records[id]) && CompletedTimes(sub, now, monthLater, t.records[id])
            && Lookup(t, sub.tenantId) == Some(t.records[id])
  {
    Completes(sub, newId, now, monthLater);
    assert WithDefaults(sub, newId, now, monthLater).id == id;
  }

  lemma CreateRefused(s: Store, sub: Subscription, newId: string, now: int, monthLater: int)
    requires sub.tenantId in s.byTenant
    ensures AfterCreate(s, sub, newId, now, monthLater) == s
  {
  }

  /** A new plan sets name and price, and the total for the old seats; the cycle is taken if it is given. */
  ghost predicate TakesPlan(was: Subscription, r: UpdateRequest, n: Subscription) {
    && Takes(was.billingCycle, r.billingCycle, n.billingCycle) && Takes(was.plan, r.plan, n.plan)
    && (if r.plan == "" then n.planName == was.planName && n.unitPrice == was.unitPrice
        else Called(r.plan, n.planName) && Costs(r.plan, n.unitPrice))
  }

  /** An accepted patch takes what is given: the total is that of the new price and seats. */
  lemma PatchEffect(s: Store, id: string, r: UpdateRequest, now: int)
    requires id in s.records && s.records[id].id == id && (r.seats.Some? ==> r.seats.value >= 1)
    ensures var t := AfterPatch(s, id, r, now);
            && SameBut(s.records, t.records, id) && SameBut(s.table, t.table, id) && t.byTenant == s.byTenant
            && id in t.records && id in t.table
            && var was, n := s.records[id], t.records[id];
               && TakesPlan(was, r, n) && n.updatedAt == now
               && n.seats == (if r.seats.Some? then r.seats.value else was.seats)
               && n.total == (if r.plan == "" && r.seats.None? then was.total else n.unitPrice * n.seats as real)
               && n.quotas == (if r.quotas.Some? then r.quotas else was.quotas)
               && n == was.(plan := n.plan, planName := n.planName, unitPrice := n.unitPrice, total := n.total,
                            billingCycle := n.billingCycle, seats := n.seats, quotas := n.quotas, updatedAt := now)
  {
  }

  /** A refused one keeps the seats, but plan and cycle are taken, in memory only. */
  lemma PatchRefused(s: Store, id: string, r: UpdateRequest, now: int)
    requires id in s.records && r.seats.Some? && r.seats.value < 1
    ensures var t := AfterPatch(s, id, r, now);
            && SameBut(s.records, t.records, id) && t == s.(records := t.records) && id in t.records
            && var was, n := s.records[id], t.records[id];
               && TakesPlan(was, r, n)
               && n.total == (if r.plan == "" then was.total else n.unitPrice * was.seats as real)
               && n == was.(plan := n.plan, planName := n.planName, unitPrice := n.unitPrice, total := n.total,
                            billingCycle := n.billingCycle)
  {
  }

  /** Cancelling says so, at once with the time, or for the end of the period; nothing else changes. */
  lemma CancelEffect(s: Store, id: string, atPeriodEnd: bool, now: int)
    requires id in s.records && s.records[id].id == id
    ensures var t := AfterCancel(s, id, atPeriodEnd, now);
            && SameBut(s.records, t.records, id) && SameBut(s.table, t.table, id) && t.byTenant == s.byTenant
            && id in t.records && id in t.table && t.table[id].status == t.records[id].status
            && var was, n := s.records[id], t.records[id];
               && n.status == (if atPeriodEnd then "cancelling" else "cancelled")
               && n.cancelAtPeriodEnd == (atPeriodEnd || was.cancelAtPeriodEnd)
               && n.cancelledAt == (if atPeriodEnd then was.cancelledAt else Some(now)) && n.updatedAt == now
               && n == was.(status := n.status, cancelAtPeriodEnd := n.cancelAtPeriodEnd, cancelledAt := n.cancelledAt,
                            updatedAt := now)
  {
  }

  /** Deleting takes the subscription away and frees its tenant; the others stay. */
  lemma DeleteEffect(s: Store, id: string)
    requires id in s.records
    ensures var t := AfterDelete(s, id);
            && SameBut(s.records, t.records, id) && SameBut(s.table, t.table, id)
            && id !in t.records && id !in t.table && t.byTenant == s.byTenant - {s.records[id].tenantId}
  {
  }

  /** An id that is not there changes nothing. */
  lemma UnknownEffect(s: Store, id: string, r: UpdateRequest, atPeriodEnd: bool, now: int)
    requires id !in s.records
    ensures AfterPatch(s, id, r, now) == s && AfterCancel(s, id, atPeriodEnd, now) == s && AfterDelete(s, id) == s
  {
  }
}
