/** The subscription store: one subscription per tenant, priced by plan and seats. */
module Subscriptions {
  import opened Hydration
  import opened IdLists
  import opened Records

  const ZERO_TIME := 0

  datatype Quotas = Quotas(
    maxAgents: int, maxWorkflowsPerDay: int, maxStorageGB: int, maxMonthlyTokens: int, maxConcurrentWorkflows: int)

  datatype Subscription = Subscription(
    id: string, tenantId: string, plan: string, planName: string, status: string, billingCycle: string,
    seats: int, unitPrice: real, total: real, currency: string, periodStart: int, periodEnd: int, nextBilling: int,
    cancelAtPeriodEnd: bool, cancelledAt: Option<int>, createdAt: int, updatedAt: int, quotas: Option<Quotas>)

  datatype UpdateRequest = UpdateRequest(plan: string, billingCycle: string, seats: Option<int>, quotas: Option<Quotas>)

  /** Missing plans cost nothing and have no name. */
  function PlanPrice(plan: string): real {
    if plan == "saas" then 99.0 else if plan == "enterprise" then 499.0 else if plan == "sovereign" then 1999.0 else 0.0
  }

  function PlanName(plan: string): string {
    if plan == "saas" then "SaaS" else if plan == "enterprise" then "Enterprise"
    else if plan == "sovereign" then "Sovereign" else ""
  }

  /** A row holds a subscription's columns, nil quotas as zeros. */
  function RowOf(s: Subscription): Subscription {
    s.(quotas := if s.quotas.None? then Some(Quotas(0, 0, 0, 0, 0)) else s.quotas)
  }

  function Upsert(table: map<string, Subscription>, row: Subscription): map<string, Subscription> {
    table[row.id :=
      if row.id in table then row.(tenantId := table[row.id].tenantId, createdAt := table[row.id].createdAt) else row]
  }

  datatype Store = Store(
    records: map<string, Subscription>, byTenant: map<string, string>, table: map<string, Subscription>)

  function Saved(s: Store, sub: Subscription): Store {
    s.(records := s.records[sub.id := sub], table := Upsert(s.table, RowOf(sub)))
  }

  function WithIdentity(s: Subscription, newId: string, now: int): Subscription {
    s.(id := if s.id == "" then newId else s.id,
       createdAt := if s.createdAt == ZERO_TIME then now else s.createdAt,
       updatedAt := now,
       status := if s.status == "" then "trialing" else s.status,
       planName := if s.planName == "" then PlanName(s.plan) else s.planName)
  }

  function WithPrice(s: Subscription): Subscription {
    var price := if s.unitPrice == 0.0 then PlanPrice(s.plan) else s.unitPrice;
    var seats := if s.seats < 1 then 1 else s.seats;
    s.(unitPrice := price,
       currency := if s.currency == "" then "USD" else s.currency,
       billingCycle := if s.billingCycle == "" then "monthly" else s.billingCycle,
       seats := seats,
       total := if s.total == 0.0 then price * seats as real else s.total)
  }

  /** `monthLater` is a calendar month after `now`. */
  function WithPeriod(s: Subscription, now: int, monthLater: int): Subscription {
    var end := if s.periodEnd == ZERO_TIME then monthLater else s.periodEnd;
    s.(periodStart := if s.periodStart == ZERO_TIME then now else s.periodStart,
       periodEnd := end,
       nextBilling := if s.nextBilling == ZERO_TIME then end else s.nextBilling)
  }

  function WithDefaults(s: Subscription, newId: string, now: int, monthLater: int): Subscription {
    WithPeriod(WithPrice(WithIdentity(s, newId, now)), now, monthLater)
  }

  function AfterCreate(s: Store, sub0: Subscription, newId: string, now: int, monthLater: int): Store {
    var sub := WithDefaults(sub0, newId, now, monthLater);
    if sub.tenantId in s.byTenant then s
    else Saved(s.(byTenant := s.byTenant[sub.tenantId := sub.id]), sub)
  }

  predicate Refused(r: UpdateRequest) {
    r.seats.Some? && r.seats.value < 1
  }

  /** What a patch changes before it looks at the seats. */
  function Replanned(s: Subscription, r: UpdateRequest): Subscription {
    var cycle := if r.billingCycle != "" then r.billingCycle else s.billingCycle;
    if r.plan == "" then s.(billingCycle := cycle)
    else s.(plan := r.plan, planName := PlanName(r.plan), unitPrice := PlanPrice(r.plan),
            total := PlanPrice(r.plan) * s.seats as real, billingCycle := cycle)
  }

  function Patched(s: Subscription, r: UpdateRequest, now: int): Subscription {
    var p := Replanned(s, r);
    var q := if r.seats.Some? then p.(seats := r.seats.value, total := p.unitPrice * r.seats.value as real) else p;
    q.(quotas := if r.quotas.Some? then r.quotas else q.quotas, updatedAt := now)
  }

  function AfterPatch(s: Store, id: string, r: UpdateRequest, now: int): Store {
    if id !in s.records then s
    else if Refused(r) then s.(records := s.records[id := Replanned(s.records[id], r)])
    else Saved(s, Patched(s.records[id], r, now))
  }

  function Cancelled(s: Subscription, atPeriodEnd: bool, now: int): Subscription {
    if atPeriodEnd then s.(status := "cancelling", cancelAtPeriodEnd := true, updatedAt := now)
    else s.(status := "cancelled", cancelledAt := Some(now), updatedAt := now)
  }

  function AfterCancel(s: Store, id: string, atPeriodEnd: bool, now: int): Store {
    if id !in s.records then s else Saved(s, Cancelled(s.records[id], atPeriodEnd, now))
  }

  function AfterDelete(s: Store, id: string): Store {
    if id !in s.records then s
    else Store(s.records - {id}, s.byTenant - {s.records[id].tenantId}, s.table - {id})
  }

  function IdOf(s: Subscription): string { s.id }
  function TenantOf(s: Subscription): string { s.tenantId }
  function Itself(s: Subscription): Subscription { s }

  function AfterHydrate(s: Store, rows: seq<Subscription>): Store {
    s.(records := LoadInto(s.records, rows, IdOf, Itself), byTenant := LoadInto(s.byTenant, rows, TenantOf, IdOf))
  }

  function Lookup(s: Store, tenantId: string): Option<Subscription> {
    if tenantId in s.byTenant && s.byTenant[tenantId] in s.records then Some(s.records[s.byTenant[tenantId]]) else None
  }

  function Loading(s: Store, sub: Subscription): Store {
    s.(records := s.records[sub.id := sub], byTenant := s.byTenant[sub.tenantId := sub.id])
  }

  class SubscriptionStore {
    var subscriptions: map<string, Record<Subscription>>
    var byTenant: map<string, string>
    var table: map<string, Subscription>

    ghost predicate Valid()
      reads this`subscriptions, subscriptions.Values
    {
      forall id :: id in subscriptions ==> subscriptions[id].value.id == id
    }

    ghost function Contents(): map<string, Subscription>
      reads this`subscriptions, subscriptions.Values
    {
      map id | id in subscriptions :: subscriptions[id].value
    }

    ghost function State(): Store
      reads this, subscriptions.Values
    {
      Store(Contents(), byTenant, table)
    }

    constructor (table: map<string, Subscription>)
      ensures Valid() && State() == Store(map[], map[], table)
    {
      subscriptions, byTenant, this.table := map[], map[], table;
    }

    method Put(e: Record<Subscription>)
      requires Valid() && e !in subscriptions.Values
      modifies this`subscriptions
      ensures Valid() && subscriptions == old(subscriptions)[e.value.id := e]
      ensures Contents() == old(Contents())[e.value.id := e.value]
    {
      subscriptions := subscriptions[e.value.id := e];
      assert Contents() == old(Contents())[e.value.id := e.value];
    }

    method FillIdentity(e: Record<Subscription>, newId: string, now: int)
      modifies e
      ensures e.value == WithIdentity(old(e.value), newId, now)
    {
      if e.value.id == "" {
        e.value := e.value.(id := newId);
      }
      if e.value.createdAt == ZERO_TIME {
        e.value := e.value.(createdAt := now);
      }
      e.value := e.value.(updatedAt := now);
      if e.value.status == "" {
        e.value := e.value.(status := "trialing");
      }
      if e.value.planName == "" {
        e.value := e.value.(planName := PlanName(e.value.plan));
      }
    }

    method FillPrice(e: Record<Subscription>)
      modifies e
      ensures e.value == WithPrice(old(e.value))
    {
      if e.value.unitPrice == 0.0 {
        e.value := e.value.(unitPrice := PlanPrice(e.value.plan));
      }
      if e.value.currency == "" {
        e.value := e.value.(currency := "USD");
      }
      if e.value.billingCycle == "" {
        e.value := e.value.(billingCycle := "monthly");
      }
      if e.value.seats < 1 {
        e.value := e.value.(seats := 1);
      }
      if e.value.total == 0.0 {
        e.value := e.value.(total := e.value.unitPrice * e.value.seats as real);
      }
    }

    method FillPeriod(e: Record<Subscription>, now: int, monthLater: int)
      modifies e
      ensures e.value == WithPeriod(old(e.value), now, monthLater)
    {
      if e.value.periodStart == ZERO_TIME {
        e.value := e.value.(periodStart := now);
      }
      if e.value.periodEnd == ZERO_TIME {
        e.value := e.value.(periodEnd := monthLater);
      }
      if e.value.nextBilling == ZERO_TIME {
        e.value := e.value.(nextBilling := e.value.periodEnd);
      }
    }

    /** `e` is a record of the caller's, not one already stored; unless refused it becomes the stored one. */
    method Create(e: Record<Subscription>, newId: string, now: int, monthLater: int) returns (ok: bool)
      requires Valid() && e !in subscriptions.Values
      modifies this, e
      ensures Valid() && State() == AfterCreate(old(State()), old(e.value), newId, now, monthLater)
      ensures ok <==> old(e.value.tenantId) !in old(byTenant)
    {
      ghost var before := Contents();
      FillIdentity(e, newId, now);
      FillPrice(e);
      FillPeriod(e, now, monthLater);
      assert Contents() == before;
      var sub := e.value;
      if sub.tenantId in byTenant {
        return false;
      }
      Put(e);
      byTenant := byTenant[sub.tenantId := sub.id];
      table := Upsert(table, RowOf(sub));
      return true;
    }

    method GetByTenant(tenantId: string) returns (r: Option<Subscription>)
      ensures r == Lookup(State(), tenantId)
    {
      if tenantId !in byTenant || byTenant[tenantId] !in subscriptions {
        return None;
      }
      return Some(subscriptions[byTenant[tenantId]].value);
    }

    method Replan(e: Record<Subscription>, r: UpdateRequest)
      modifies e
      ensures e.value == Replanned(old(e.value), r)
    {
      if r.plan != "" {
        e.value := e.value.(plan := r.plan, planName := PlanName(r.plan), unitPrice := PlanPrice(r.plan));
        e.value := e.value.(total := e.value.unitPrice * e.value.seats as real);
      }
      if r.billingCycle != "" {
        e.value := e.value.(billingCycle := r.billingCycle);
      }
    }

    /** A bad seat count is only found after the plan and the cycle are set. */
    method PatchRecord(e: Record<Subscription>, r: UpdateRequest, now: int) returns (ok: bool)
      modifies e
      ensures ok == !Refused(r)
      ensures e.value == if ok then Patched(old(e.value), r, now) else Replanned(old(e.value), r)
    {
      Replan(e, r);
      if r.seats.Some? {
        if r.seats.value < 1 {
          return false;
        }
        e.value := e.value.(seats := r.seats.value);
        e.value := e.value.(total := e.value.unitPrice * e.value.seats as real);
      }
      if r.quotas.Some? {
        e.value := e.value.(quotas := r.quotas);
      }
      e.value := e.value.(updatedAt := now);
      return true;
    }

    method Patch(id: string, r: UpdateRequest, now: int) returns (ok: bool)
      requires Valid()
      modifies this`table, subscriptions.Values
      ensures Valid() && State() == AfterPatch(old(State()), id, r, now)
      ensures ok <==> id in subscriptions && !Refused(r)
    {
      if id !in subscriptions {
        return false;
      }
      var e := subscriptions[id];
      ghost var before := Contents();
      ok := PatchRecord(e, r, now);
      assert Contents() == before[id := e.value];
      if ok {
        table := Upsert(table, RowOf(e.value));
      }
    }

    method Cancel(id: string, atPeriodEnd: bool, now: int) returns (found: bool)
      requires Valid()
      modifies this`table, subscriptions.Values
      ensures Valid() && found == (id in subscriptions) && State() == AfterCancel(old(State()), id, atPeriodEnd, now)
    {
      if id !in subscriptions {
        return false;
      }
      var e := subscriptions[id];
      ghost var before := Contents();
      if atPeriodEnd {
        e.value := e.value.(status := "cancelling", cancelAtPeriodEnd := true, updatedAt := now);
      } else {
        e.value := e.value.(status := "cancelled", cancelledAt := Some(now), updatedAt := now);
      }
      assert Contents() == before[id := e.value];
      table := Upsert(table, RowOf(e.value));
      return true;
    }

    method Delete(id: string) returns (found: bool)
      requires Valid()
      modifies this
      ensures Valid() && found == (id in old(subscriptions)) && State() == AfterDelete(old(State()), id)
    {
      if id !in subscriptions {
        return false;
      }
      ghost var before := Contents();
      table := table - {id};
      byTenant := byTenant - {subscriptions[id].value.tenantId};
      subscriptions := subscriptions - {id};
      assert Contents() == before - {id};
      return true;
    }

    method Load(sub: Subscription)
      requires Valid()
      modifies this
      ensures Valid() && State() == Loading(old(State()), sub)
    {
      var e := new Record(sub);
      Put(e);
      byTenant := byTenant[sub.tenantId := sub.id];
    }

    method HydrateSubscriptions(rows: seq<Subscription>)
      requires Valid()
      modifies this
      ensures Valid() && State() == AfterHydrate(old(State()), rows)
    {
      ghost var was := State();
      for i := 0 to |rows|
        invariant Valid() && State() == AfterHydrate(old(State()), rows[..i])
      {
        LoadStep(was.records, rows, i, IdOf, Itself);
        LoadStep(was.byTenant, rows, i, TenantOf, IdOf);
        Load(rows[i]);
      }
      assert rows[..|rows|] == rows;
    }
  }

  // ----- One subscription per tenant -----------------------------------------------------------

  function Rows(records: map<string, Subscription>): map<string, Subscription> {
    map id | id in records :: RowOf(records[id])
  }

  /** Tenants with a subscription and live subscriptions correspond one to one; seats are at least one. */
  ghost predicate OnePerTenant(s: Store) {
    && (forall id :: id in s.records ==>
          var sub := s.records[id];
          sub.id == id && sub.seats >= 1 && sub.tenantId in s.byTenant && s.byTenant[sub.tenantId] == id)
    && (forall t :: t in s.byTenant ==> s.byTenant[t] in s.records && s.records[s.byTenant[t]].tenantId == t)
  }

  ghost predicate Synced(s: Store) {
    s.table == Rows(s.records)
  }

  /** Rows and records are of the same subscriptions, though a row may lag behind its record. */
  ghost predicate Backed(s: Store) {
    && s.table.Keys == s.records.Keys
    && forall id :: id in s.table ==>
         && s.table[id].id == id && s.table[id].tenantId == s.records[id].tenantId && s.table[id].seats >= 1
         && RowOf(s.table[id]) == s.table[id]
  }

  lemma RowsPut(records: map<string, Subscription>, sub: Subscription)
    ensures Rows(records[sub.id := sub]) == Rows(records)[sub.id := RowOf(sub)]
  {
  }

  /** A patch leaves the table in step with memory exactly when it is not refused after a change. */
  lemma PatchSyncedIff(s: Store, id: string, r: UpdateRequest, now: int)
    requires OnePerTenant(s) && Synced(s) && id in s.records
    ensures Synced(AfterPatch(s, id, r, now))
           <==> !(Refused(r) && RowOf(Replanned(s.records[id], r)) != RowOf(s.records[id]))
  {
    var after := AfterPatch(s, id, r, now);
    RowsPut(s.records, after.records[id]);
    if Refused(r) {
      assert Rows(after.records)[id] == RowOf(Replanned(s.records[id], r));
      assert Rows(s.records)[id := RowOf(s.records[id])] == Rows(s.records);
    }
  }

  function Restarted(s: Store, rows: seq<Subscription>): Store {
    AfterHydrate(Store(map[], map[], s.table), rows)
  }

  function RowsByTenant(s: Store): map<string, Subscription>
    requires OnePerTenant(s) && Backed(s)
  {
    map t | t in s.byTenant :: s.table[s.byTenant[t]]
  }

  lemma EnumeratesByTenant(s: Store, rows: seq<Subscription>)
    requires OnePerTenant(s) && Backed(s) && Enumerates(rows, s.table, IdOf)
    ensures Enumerates(rows, RowsByTenant(s), TenantOf)
  {
    forall i | 0 <= i < |rows| ensures TenantOf(rows[i]) in s.byTenant && s.byTenant[TenantOf(rows[i])] == rows[i].id {
      assert rows[i] == s.table[rows[i].id];
    }
    forall t | t in RowsByTenant(s) ensures exists i :: 0 <= i < |rows| && TenantOf(rows[i]) == t {
      assert s.byTenant[t] in s.table;
      var i :| 0 <= i < |rows| && IdOf(rows[i]) == s.byTenant[t];
      assert TenantOf(rows[i]) == t;
    }
  }

  lemma TenantRows(s: Store, named: map<string, Subscription>)
    requires OnePerTenant(s) && Backed(s) && named == RowsByTenant(s)
    ensures (map t | t in named :: IdOf(named[t])) == s.byTenant
  {
    assert named.Keys == s.byTenant.Keys;
  }

  lemma RestartTenants(s: Store, rows: seq<Subscription>)
    requires OnePerTenant(s) && Backed(s) && Enumerates(rows, s.table, IdOf)
    ensures LoadInto(map[], rows, TenantOf, IdOf) == s.byTenant
  {
    var named := RowsByTenant(s);
    TenantRows(s, named);
    EnumeratesByTenant(s, rows);
    Loaded(rows, named, TenantOf, IdOf);
  }

  lemma RowsThemselves(table: map<string, Subscription>)
    ensures (map k | k in table :: Itself(table[k])) == table
  {
  }

  /** A restart goes back to the rows, and finds the same subscription for each tenant. */
  lemma RestartIsRows(s: Store, rows: seq<Subscription>)
    requires OnePerTenant(s) && Backed(s) && Enumerates(rows, s.table, IdOf)
    ensures Restarted(s, rows) == Store(s.table, s.byTenant, s.table)
    ensures OnePerTenant(Restarted(s, rows)) && Backed(Restarted(s, rows))
  {
    Loaded(rows, s.table, IdOf, Itself);
    RowsThemselves(s.table);
    RestartTenants(s, rows);
  }

  lemma RowsOfRows(records: map<string, Subscription>)
    ensures Rows(Rows(records)) == Rows(records)
  {
  }

  /** Restart equivalence: rows in step with memory come back as the records, nil quotas as zeros. */
  lemma RestartEquivalent(s: Store, rows: seq<Subscription>)
    requires OnePerTenant(s) && Synced(s) && Enumerates(rows, s.table, IdOf)
    ensures Restarted(s, rows) == Store(Rows(s.records), s.byTenant, s.table)
    ensures OnePerTenant(Restarted(s, rows)) && Synced(Restarted(s, rows))
  {
    RestartIsRows(s, rows);
    RowsOfRows(s.records);
  }

  // ----- Runs ----------------------------------------------------------------------------------

  datatype Op =
    | Create(sub: Subscription, newId: string, now: int, monthLater: int)
    | Patch(id: string, r: UpdateRequest, now: int)
    | Cancel(id: string, atPeriodEnd: bool, now: int)
    | Delete(id: string)
    | Restart(rows: seq<Subscription>)

  /** New ids are fresh, and a restart reads the whole table. */
  ghost predicate Admissible(s: Store, op: Op) {
    && (op.Create? ==> WithDefaults(op.sub, op.newId, op.now, op.monthLater).id !in s.records)
    && (op.Restart? ==> Enumerates(op.rows, s.table, IdOf))
  }

  function Apply(s: Store, op: Op): Store {
    match op
    case Create(sub, newId, now, monthLater) => AfterCreate(s, sub, newId, now, monthLater)
    case Patch(id, r, now) => AfterPatch(s, id, r, now)
    case Cancel(id, atPeriodEnd, now) => AfterCancel(s, id, atPeriodEnd, now)
    case Delete(id) => AfterDelete(s, id)
    case Restart(rows) => Restarted(s, rows)
  }

  ghost predicate IsRun(stores: seq<Store>, ops: seq<Op>) {
    && |stores| == |ops| + 1 && stores[0] == Store(map[], map[], map[])
    && forall i :: 0 <= i < |ops| ==> Admissible(stores[i], ops[i]) && stores[i + 1] == Apply(stores[i], ops[i])
  }

  // ----- Memory and table ----------------------------------------------------------------------

  /** A patch that is refused after a change. */
  predicate Breaks(s: Store, op: Op) {
    op.Patch? && op.id in s.records && Refused(op.r)
        && RowOf(Replanned(s.records[op.id], op.r)) != RowOf(s.records[op.id])
  }

  lemma SavedSynced(s: Store, sub: Subscription)
    requires OnePerTenant(s) && Synced(s)
    requires sub.id in s.records ==>
               sub.tenantId == s.records[sub.id].tenantId && sub.createdAt == s.records[sub.id].createdAt
    ensures Synced(Saved(s, sub))
  {
    RowsPut(s.records, sub);
  }

  /** An operation leaves the table in step with memory exactly if it is not such a patch. */
  lemma ApplySyncedIff(s: Store, op: Op)
    requires OnePerTenant(s) && Synced(s) && Admissible(s, op)
    ensures Synced(Apply(s, op)) <==> !Breaks(s, op)
  {
    match op
    case Create(sub0, newId, now, monthLater) =>
      var sub := WithDefaults(sub0, newId, now, monthLater);
      SavedSynced(s, sub);
      RowsPut(s.records, sub);
    case Patch(id, r, now) => if id in s.records { PatchSyncedIff(s, id, r, now); }
    case Cancel(id, atPeriodEnd, now) =>
      if id in s.records { SavedSynced(s, Cancelled(s.records[id], atPeriodEnd, now)); }
    case Delete(id) => assert Rows(s.records - {id}) == Rows(s.records) - {id};
    case Restart(rows) => RestartEquivalent(s, rows);
  }

  lemma RestartSyncs(s: Store, rows: seq<Subscription>)
    requires OnePerTenant(s) && Backed(s) && Enumerates(rows, s.table, IdOf)
    ensures Synced(Restarted(s, rows))
  {
    RestartIsRows(s, rows);
    assert Rows(s.table) == s.table;
  }

  lemma InStepAtFirst(stores: seq<Store>, ops: seq<Op>, i: nat)
    requires IsRun(stores, ops) && i < |stores| && (i == 0 || ops[i - 1].Restart?)
    ensures Synced(stores[i])
  {
    if i > 0 {
      AlwaysOnePerTenant(stores, ops, i - 1);
      assert Admissible(stores[i - 1], ops[i - 1]) && stores[i - 1 + 1] == Apply(stores[i - 1], ops[i - 1]);
      RestartSyncs(stores[i - 1], ops[i - 1].rows);
    } else {
      assert Rows(map[]) == map[];
    }
  }

  /** From the start or a restart on, the table is in step until a patch is refused after a change. */
  lemma {:induction false} SyncedUntilRefused(stores: seq<Store>, ops: seq<Op>, i: nat, j: nat)
    requires IsRun(stores, ops) && i <= j < |stores| && (i == 0 || ops[i - 1].Restart?)
    requires forall k :: i <= k < j ==> !Breaks(stores[k], ops[k])
    ensures Synced(stores[j])
    decreases j
  {
    if i == j {
      InStepAtFirst(stores, ops, i);
    } else {
      var k := j - 1;
      SyncedUntilRefused(stores, ops, i, k);
      AlwaysOnePerTenant(stores, ops, k);
      assert Admissible(stores[k], ops[k]) && stores[k + 1] == Apply(stores[k], ops[k]);
      ApplySyncedIff(stores[k], ops[k]);
    }
  }

  // ----- What runs keep ------------------------------------------------------------------------

  predicate Priced(sub: Subscription) {
    sub.total == sub.unitPrice * sub.seats as real
  }

  /** In memory and in the table. */
  ghost predicate PricedAt(s: Store, id: string) {
    (id in s.records ==> Priced(s.records[id])) && (id in s.table ==> Priced(s.table[id]))
  }

  /** Replacing a record by one of the same id and tenant, with seats, keeps the correspondence, */
  lemma ReplacedKeeps(s: Store, sub: Subscription)
    requires OnePerTenant(s) && Backed(s)
    requires sub.id in s.records && sub.tenantId == s.records[sub.id].tenantId && sub.seats >= 1
    ensures var t := s.(records := s.records[sub.id := sub]); OnePerTenant(t) && Backed(t)
  {
  }

  /** and saving it then does too. */
  lemma WrittenKeeps(s: Store, sub: Subscription)
    requires OnePerTenant(s) && Backed(s) && sub.id in s.records && sub == s.records[sub.id]
    ensures var t := s.(table := Upsert(s.table, RowOf(sub))); OnePerTenant(t) && Backed(t)
  {
  }

  lemma SavedKeeps(s: Store, sub: Subscription)
    requires OnePerTenant(s) && Backed(s)
    requires sub.id in s.records && sub.tenantId == s.records[sub.id].tenantId && sub.seats >= 1
    ensures OnePerTenant(Saved(s, sub)) && Backed(Saved(s, sub))
  {
    ReplacedKeeps(s, sub);
    WrittenKeeps(s.(records := s.records[sub.id := sub]), sub);
  }

  lemma AddedOnePerTenant(s: Store, sub: Subscription)
    requires OnePerTenant(s) && sub.id !in s.records && sub.tenantId !in s.byTenant && sub.seats >= 1
    ensures OnePerTenant(Saved(s.(byTenant := s.byTenant[sub.tenantId := sub.id]), sub))
  {
  }

  lemma AddedBacked(s: Store, sub: Subscription)
    requires Backed(s) && sub.id !in s.records && sub.seats >= 1
    ensures Backed(Saved(s, sub))
  {
  }

  lemma AddedKeeps(s: Store, sub: Subscription)
    requires OnePerTenant(s) && Backed(s) && sub.id !in s.records && sub.tenantId !in s.byTenant && sub.seats >= 1
    ensures var t := Saved(s.(byTenant := s.byTenant[sub.tenantId := sub.id]), sub); OnePerTenant(t) && Backed(t)
  {
    AddedOnePerTenant(s, sub);
    AddedBacked(s.(byTenant := s.byTenant[sub.tenantId := sub.id]), sub);
  }

  lemma DeletedKeeps(s: Store, id: string)
    requires OnePerTenant(s) && Backed(s)
    ensures OnePerTenant(AfterDelete(s, id)) && Backed(AfterDelete(s, id))
  {
  }

  lemma ApplyKeeps(s: Store, op: Op)
    requires OnePerTenant(s) && Backed(s) && Admissible(s, op)
    ensures OnePerTenant(Apply(s, op)) && Backed(Apply(s, op))
  {
    match op
    case Create(sub0, newId, now, monthLater) =>
      var sub := WithDefaults(sub0, newId, now, monthLater);
      if sub.tenantId !in s.byTenant { AddedKeeps(s, sub); }
    case Patch(id, r, now) =>
      if id in s.records {
        if Refused(r) {
          ReplacedKeeps(s, Replanned(s.records[id], r));
        } else {
          SavedKeeps(s, Patched(s.records[id], r, now));
        }
      }
    case Cancel(id, atPeriodEnd, now) =>
      if id in s.records { SavedKeeps(s, Cancelled(s.records[id], atPeriodEnd, now)); }
    case Delete(id) => DeletedKeeps(s, id);
    case Restart(rows) => RestartIsRows(s, rows);
  }

  lemma ReplannedPriced(sub: Subscription, r: UpdateRequest)
    requires Priced(sub)
    ensures Priced(Replanned(sub, r))
  {
    var p := Replanned(sub, r);
    if r.plan == "" {
      assert p.total == sub.total && p.unitPrice == sub.unitPrice && p.seats == sub.seats;
    } else {
      assert p.total == PlanPrice(r.plan) * sub.seats as real && p.unitPrice == PlanPrice(r.plan)
          && p.seats == sub.seats;
    }
  }

  /** Whatever becomes of a patch, a total that was price times seats still is. */
  lemma PatchedPriced(sub: Subscription, r: UpdateRequest, now: int)
    requires Priced(Replanned(sub, r))
    ensures Priced(Patched(sub, r, now))
  {
    var p, q := Replanned(sub, r), Patched(sub, r, now);
    if r.seats.None? {
      assert q.total == p.total && q.unitPrice == p.unitPrice && q.seats == p.seats;
    }
  }

  lemma SavedPriced(s: Store, sub: Subscription, id: string)
    requires PricedAt(s, id) && (sub.id == id ==> Priced(sub))
    ensures PricedAt(Saved(s, sub), id)
  {
    assert Priced(sub) ==> Priced(RowOf(sub));
  }

  /** The operation creates a subscription of this id with a total of its own. */
  predicate GivesTotal(op: Op, id: string) {
    op.Create? && WithDefaults(op.sub, op.newId, op.now, op.monthLater).id == id && op.sub.total != 0.0
  }

  lemma DefaultsPriced(sub: Subscription, newId: string, now: int, monthLater: int)
    requires sub.total == 0.0
    ensures Priced(WithDefaults(sub, newId, now, monthLater))
  {
    var p := WithPrice(WithIdentity(sub, newId, now));
    assert p.total == p.unitPrice * p.seats as real;
  }

  lemma ApplyPriced(s: Store, op: Op, id: string)
    requires OnePerTenant(s) && Backed(s) && Admissible(s, op) && PricedAt(s, id) && !GivesTotal(op, id)
    ensures PricedAt(Apply(s, op), id)
  {
    match op
    case Create(sub0, newId, now, monthLater) =>
      var sub := WithDefaults(sub0, newId, now, monthLater);
      if sub.id == id { DefaultsPriced(sub0, newId, now, monthLater); }
      if sub.tenantId !in s.byTenant { SavedPriced(s.(byTenant := s.byTenant[sub.tenantId := sub.id]), sub, id); }
    case Patch(k, r, now) => if k in s.records {
        if k == id {
          ReplannedPriced(s.records[id], r);
          PatchedPriced(s.records[id], r, now);
        }
        if !Refused(r) { SavedPriced(s, Patched(s.records[k], r, now), id); }
      }
    case Cancel(k, atPeriodEnd, now) => if k in s.records {
        SavedPriced(s, Cancelled(s.records[k], atPeriodEnd, now), id);
      }
    case Delete(k) =>
    case Restart(rows) => RestartIsRows(s, rows);
  }

  /** Over every run, restarts and refused patches included: one subscription per tenant, and rows of the same ones. */
  lemma {:induction false} AlwaysOnePerTenant(stores: seq<Store>, ops: seq<Op>, i: nat)
    requires IsRun(stores, ops) && i < |stores|
    ensures OnePerTenant(stores[i]) && Backed(stores[i])
    decreases i
  {
    if i > 0 {
      AlwaysOnePerTenant(stores, ops, i - 1);
      assert Admissible(stores[i - 1], ops[i - 1]) && stores[i - 1 + 1] == Apply(stores[i - 1], ops[i - 1]);
      ApplyKeeps(stores[i - 1], ops[i - 1]);
    }
  }

  /** And a subscription that was never given a total of its own has price times seats, in memory and in its row. */
  lemma {:induction false} AlwaysPriced(stores: seq<Store>, ops: seq<Op>, id: string, i: nat)
    requires IsRun(stores, ops) && i < |stores| && forall k :: 0 <= k < i ==> !GivesTotal(ops[k], id)
    ensures PricedAt(stores[i], id)
    decreases i
  {
    if i > 0 {
      AlwaysPriced(stores, ops, id, i - 1);
      PricedStep(stores, ops, id, i - 1);
    }
  }

  lemma PricedStep(stores: seq<Store>, ops: seq<Op>, id: string, i: nat)
    requires IsRun(stores, ops) && i < |ops| && PricedAt(stores[i], id) && !GivesTotal(ops[i], id)
    ensures PricedAt(stores[i + 1], id)
  {
    AlwaysOnePerTenant(stores, ops, i);
    assert Admissible(stores[i], ops[i]) && stores[i + 1] == Apply(stores[i], ops[i]);
    ApplyPriced(stores[i], ops[i], id);
  }

  /** One that once has price times seats keeps it for as long as it lives. */
  lemma {:induction false} StaysPriced(stores: seq<Store>, ops: seq<Op>, id: string, i: nat, j: nat)
    requires IsRun(stores, ops) && i <= j < |stores| && forall k :: i <= k <= j ==> id in stores[k].records
    requires PricedAt(stores[i], id)
    ensures PricedAt(stores[j], id)
    decreases j
  {
    if i < j {
      StaysPriced(stores, ops, id, i, j - 1);
      assert Admissible(stores[j - 1], ops[j - 1]) && id in stores[j - 1].records;
      PricedStep(stores, ops, id, j - 1);
    }
  }

  /** The subscription found for a tenant is the only one it has. */
  lemma LookupIsScan(s: Store, tenantId: string)
    requires OnePerTenant(s)
    ensures var r := Lookup(s, tenantId);
            if r.Some? then forall id :: id in s.records && s.records[id].tenantId == tenantId <==> id == r.value.id
            else forall id :: id in s.records ==> s.records[id].tenantId != tenantId
  {
  }
}
