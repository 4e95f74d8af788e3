/** The payment method store: at most one default per tenant, in memory and in the table. */
module PaymentMethods {
  import opened Hydration
  import opened IdLists
  import opened Records

  const ZERO_TIME := 0

  datatype PaymentMethod = PaymentMethod(
    id: string, tenantId: string, kind: string, lastFour: string, expiryMonth: int, expiryYear: int,
    billingAddress: string, isDefault: bool, createdAt: int, updatedAt: int)

  type Rows = map<string, PaymentMethod>

  /** The row a write leaves: a conflicting insert does not touch tenant and creation time. */
  function Written(table: Rows, row: PaymentMethod): PaymentMethod {
    if row.id in table then row.(tenantId := table[row.id].tenantId, createdAt := table[row.id].createdAt) else row
  }

  function Upsert(table: Rows, row: PaymentMethod): Rows {
    table[row.id := Written(table, row)]
  }

  /** Many writes, of rows with different ids, in any order. */
  function UpsertAll(table: Rows, rows: Rows): Rows {
    map id | id in table.Keys + rows.Keys :: if id in rows then Written(table, rows[id]) else table[id]
  }

  datatype Store = Store(records: map<string, PaymentMethod>, byTenant: Index, table: Rows)

  function WithDefaults(pm: PaymentMethod, newId: string, now: int): PaymentMethod {
    pm.(id := if pm.id == "" then newId else pm.id,
        createdAt := if pm.createdAt == ZERO_TIME then now else pm.createdAt,
        updatedAt := now)
  }

  function Undefaulted(pm: PaymentMethod, now: int): PaymentMethod {
    pm.(isDefault := false, updatedAt := now)
  }

  function Cleared(records: map<string, PaymentMethod>, tenantId: string, now: int): map<string, PaymentMethod> {
    map id | id in records :: if records[id].tenantId == tenantId then Undefaulted(records[id], now) else records[id]
  }

  function Siblings(records: map<string, PaymentMethod>, pm: PaymentMethod): map<string, PaymentMethod> {
    map id | id in records && id != pm.id && records[id].tenantId == pm.tenantId :: records[id]
  }

  function AfterCreate(s: Store, pm0: PaymentMethod, newId: string, now: int): Store {
    var pm := WithDefaults(pm0, newId, now);
    if pm.tenantId == "" then s else Kept(s, pm, now)
  }

  function Kept(s: Store, pm: PaymentMethod, now: int): Store {
    var records := (if pm.isDefault then Cleared(s.records, pm.tenantId, now) else s.records)[pm.id := pm];
    Store(records, Append(s.byTenant, pm.tenantId, pm.id), UpsertAll(Upsert(s.table, pm), Siblings(records, pm)))
  }

  function AfterUpdate(s: Store, pm: PaymentMethod, now: int): Store {
    if pm.id !in s.records then s
    else s.(records := s.records[pm.id := pm.(updatedAt := now)], table := Upsert(s.table, pm.(updatedAt := now)))
  }

  function AfterDelete(s: Store, id: string): Store {
    if id !in s.records then s
    else Store(s.records - {id}, Drop(s.byTenant, s.records[id].tenantId, id), s.table - {id})
  }

  function IdOf(pm: PaymentMethod): string { pm.id }
  function TenantOf(pm: PaymentMethod): string { pm.tenantId }
  function Itself(pm: PaymentMethod): PaymentMethod { pm }

  function AfterHydrate(s: Store, rows: seq<PaymentMethod>): Store {
    s.(records := LoadInto(s.records, rows, IdOf, Itself), byTenant := IndexInto(s.byTenant, rows, IdOf, TenantOf))
  }

  /** A record stored under its id and listed under its tenant. */
  function Inserted(s: Store, pm: PaymentMethod): Store {
    s.(records := s.records[pm.id := pm], byTenant := Append(s.byTenant, pm.tenantId, pm.id))
  }

  class PaymentMethodStore {
    var methods: map<string, Record<PaymentMethod>>
    var byTenant: Index
    var table: Rows

    ghost predicate Valid()
      reads this`methods, methods.Values
    {
      forall id :: id in methods ==> methods[id].value.id == id
    }

    ghost function Contents(): map<string, PaymentMethod>
      reads this`methods, methods.Values
    {
      map id | id in methods :: methods[id].value
    }

    ghost function State(): Store
      reads this, methods.Values
    {
      Store(Contents(), byTenant, table)
    }

    constructor (table: Rows)
      ensures Valid() && State() == Store(map[], map[], table)
    {
      methods, byTenant, this.table := map[], map[], table;
    }

    /** Takes the default away from every method of a tenant. */
    method ClearDefaults(tenantId: string, now: int)
      requires Valid()
      modifies methods.Values
      ensures Valid()
      ensures Contents() == Cleared(old(State()).records, tenantId, now)
    {
      ghost var before := Contents();
      var rest := methods.Keys;
      while rest != {}
        invariant rest <= methods.Keys
        invariant forall id :: id in methods ==>
                    methods[id].value == if id in rest then before[id] else Cleared(before, tenantId, now)[id]
      {
        var id :| id in rest;
        var existing := methods[id];
        assert forall k :: k in methods && k != id ==> methods[k] != existing;
        if existing.value.tenantId == tenantId {
          existing.value := existing.value.(isDefault := false, updatedAt := now);
        }
        rest := rest - {id};
      }
    }

    /** Writes the rows of the tenant's other methods, whose default may just have been cleared. */
    method SaveSiblings(pm: PaymentMethod)
      requires Valid()
      modifies this`table
      ensures table == UpsertAll(old(table), Siblings(Contents(), pm))
    {
      ghost var before, siblings := table, Siblings(Contents(), pm);
      var rest := methods.Keys;
      NothingWritten(before, siblings, methods.Keys);
      while rest != {}
        invariant rest <= methods.Keys
        invariant table == UpsertAll(before, siblings - rest)
      {
        var id :| id in rest;
        var existing := methods[id].value;
        WriteOneMore(before, siblings, table, rest, id);
        assert id in siblings <==> existing.id != pm.id && existing.tenantId == pm.tenantId;
        if existing.id != pm.id && existing.tenantId == pm.tenantId {
          table := Upsert(table, existing);
        }
        rest := rest - {id};
      }
      assert siblings - rest == siblings;
    }

    method Insert(e: Record<PaymentMethod>)
      requires Valid() && e !in methods.Values
      modifies this`methods, this`byTenant
      ensures Valid() && methods == old(methods)[e.value.id := e]
      ensures State() == Inserted(old(State()), e.value)
    {
      methods := methods[e.value.id := e];
      byTenant := Append(byTenant, e.value.tenantId, e.value.id);
      assert Contents() == old(State()).records[e.value.id := e.value];
    }

    method FillDefaults(e: Record<PaymentMethod>, newId: string, now: int)
      modifies e
      ensures e.value == WithDefaults(old(e.value), newId, now)
    {
      if e.value.id == "" {
        e.value := e.value.(id := newId);
      }
      if e.value.createdAt == ZERO_TIME {
        e.value := e.value.(createdAt := now);
      }
      e.value := e.value.(updatedAt := now);
    }

    /** `e` is a record of the caller's, not one already stored; it becomes the stored one. */
    method Create(e: Record<PaymentMethod>, newId: string, now: int) returns (ok: bool)
      requires Valid() && e !in methods.Values
      modifies this, e, methods.Values
      ensures Valid() && State() == AfterCreate(old(State()), old(e.value), newId, now)
      ensures ok <==> old(e.value.tenantId) != ""
      ensures e.value == WithDefaults(old(e.value), newId, now)
    {
      ghost var before := Contents();
      FillDefaults(e, newId, now);
      assert Contents() == before;
      if e.value.tenantId == "" {
        return false;
      }
      Keep(e, now);
      return true;
    }

    method Keep(e: Record<PaymentMethod>, now: int)
      requires Valid() && e !in methods.Values
      modifies this, methods.Values
      ensures Valid() && State() == Kept(old(State()), e.value, now)
    {
      var pm := e.value;
      if pm.isDefault {
        ClearDefaults(pm.tenantId, now);
      }
      assert e.value == pm;
      Insert(e);
      SaveWithSiblings(pm);
    }

    method SaveWithSiblings(pm: PaymentMethod)
      requires Valid()
      modifies this`table
      ensures table == UpsertAll(Upsert(old(table), pm), Siblings(Contents(), pm))
    {
      table := Upsert(table, pm);
      SaveSiblings(pm);
    }

    /** The caller's record replaces the stored one. */
    method Update(e: Record<PaymentMethod>, now: int) returns (found: bool)
      requires Valid() && e !in methods.Values
      modifies this, e
      ensures Valid() && found == (e.value.id in old(methods))
             && State() == AfterUpdate(old(State()), old(e.value), now)
    {
      ghost var before := Contents();
      if e.value.id !in methods {
        return false;
      }
      e.value := e.value.(updatedAt := now);
      methods := methods[e.value.id := e];
      assert Contents() == before[e.value.id := e.value];
      table := Upsert(table, e.value);
      return true;
    }

    method Delete(id: string) returns (found: bool)
      requires Valid()
      modifies this
      ensures Valid() && found == (id in old(methods)) && State() == AfterDelete(old(State()), id)
    {
      if id !in methods {
        return false;
      }
      ghost var before := Contents();
      var tenantId := methods[id].value.tenantId;
      table := table - {id};
      methods := methods - {id};
      byTenant := DropFrom(byTenant, tenantId, id);
      assert Contents() == before - {id};
      return true;
    }

    method HydratePaymentMethods(rows: seq<PaymentMethod>)
      requires Valid()
      modifies this
      ensures Valid() && State() == AfterHydrate(old(State()), rows)
    {
      ghost var was := State();
      for i := 0 to |rows|
        invariant Valid() && State() == AfterHydrate(old(State()), rows[..i])
      {
        LoadStep(was.records, rows, i, IdOf, Itself);
        IndexStep(was.byTenant, rows, i, IdOf, TenantOf);
        var e := new Record(rows[i]);
        Insert(e);
      }
      assert rows[..|rows|] == rows;
    }
  }

  lemma NothingWritten(table: Rows, rows: Rows, ids: set<string>)
    requires rows.Keys <= ids
    ensures UpsertAll(table, rows - ids) == table
  {
  }

  lemma WriteOneMore(table: Rows, rows: Rows, soFar: Rows, rest: set<string>, id: string)
    requires id in rest && (forall k :: k in rows ==> rows[k].id == k) && soFar == UpsertAll(table, rows - rest)
    ensures UpsertAll(table, rows - (rest - {id})) == if id in rows then Upsert(soFar, rows[id]) else soFar
  {
    if id !in rows { assert rows - (rest - {id}) == rows - rest; }
  }

  // ----- At most one default -------------------------------------------------------------------

  ghost predicate SingleDefault(records: map<string, PaymentMethod>) {
    forall i, j :: i in records && j in records && BothDefault(records[i], records[j]) ==> i == j
  }

  ghost predicate BothDefault(a: PaymentMethod, b: PaymentMethod) {
    a.isDefault && b.isDefault && a.tenantId == b.tenantId
  }

  function Tenants(records: map<string, PaymentMethod>): map<string, string> {
    map id | id in records :: records[id].tenantId
  }

  ghost predicate Coherent(s: Store) {
    && (forall id :: id in s.records ==> s.records[id].id == id)
    && Indexes(s.byTenant, Tenants(s.records))
    && s.table == s.records
  }

  lemma ClearedIsRight(records: map<string, PaymentMethod>, tenantId: string, now: int)
    requires SingleDefault(records) && forall id :: id in records ==> records[id].id == id
    ensures var c := Cleared(records, tenantId, now);
            && SingleDefault(c) && Tenants(c) == Tenants(records) && c.Keys == records.Keys
            && (forall id :: id in c ==> c[id].id == id)
            && (forall id :: id in c && c[id].tenantId == tenantId ==> !c[id].isDefault)
            && (forall id :: id in c ==> Written(records, c[id]) == c[id])
  {
  }

  lemma CreateSingle(s: Store, pm: PaymentMethod, now: int)
    requires Coherent(s) && SingleDefault(s.records) && pm.id !in s.records
    ensures SingleDefault(Kept(s, pm, now).records)
  {
    ClearedIsRight(s.records, pm.tenantId, now);
  }

  lemma CreateCoherent(s: Store, pm: PaymentMethod, now: int)
    requires Coherent(s) && SingleDefault(s.records) && pm.id !in s.records
    ensures Coherent(Kept(s, pm, now))
  {
    ClearedIsRight(s.records, pm.tenantId, now);
    var records := if pm.isDefault then Cleared(s.records, pm.tenantId, now) else s.records;
    PutTenants(s.records, records, pm);
    AppendIndexesIff(s.byTenant, Tenants(s.records), pm.tenantId, pm.id);
    CreateSyncs(s.records, records, pm);
  }

  lemma PutTenants(before: map<string, PaymentMethod>, records: map<string, PaymentMethod>, pm: PaymentMethod)
    requires Tenants(records) == Tenants(before) && records.Keys == before.Keys
    ensures Tenants(records[pm.id := pm]) == Tenants(before)[pm.id := pm.tenantId]
  {
    assert forall id :: id in records ==> records[id].tenantId == Tenants(records)[id];
  }

  lemma CreateKeeps(s: Store, pm0: PaymentMethod, newId: string, now: int)
    requires Coherent(s) && SingleDefault(s.records) && WithDefaults(pm0, newId, now).id !in s.records
    ensures Coherent(AfterCreate(s, pm0, newId, now)) && SingleDefault(AfterCreate(s, pm0, newId, now).records)
  {
    var pm := WithDefaults(pm0, newId, now);
    if pm.tenantId != "" {
      CreateSingle(s, pm, now);
      CreateCoherent(s, pm, now);
    }
  }

  lemma CreateSyncs(table: Rows, records: Rows, pm: PaymentMethod)
    requires pm.id !in table && records.Keys == table.Keys && (forall id :: id in records ==> records[id].id == id)
    requires forall id :: id in records ==>
               if records[id].tenantId == pm.tenantId then Written(table, records[id]) == records[id]
               else records[id] == table[id]
    ensures UpsertAll(Upsert(table, pm), Siblings(records[pm.id := pm], pm)) == records[pm.id := pm]
  {
  }

  lemma DeleteKeeps(s: Store, id: string)
    requires Coherent(s) && SingleDefault(s.records)
    ensures Coherent(AfterDelete(s, id)) && SingleDefault(AfterDelete(s, id).records)
  {
    if id in s.records {
      assert Tenants(s.records - {id}) == Tenants(s.records) - {id};
      DropIndexes(s.byTenant, Tenants(s.records), id);
    }
  }

  function Restarted(s: Store, rows: seq<PaymentMethod>): Store {
    AfterHydrate(Store(map[], map[], s.table), rows)
  }

  lemma RestartKeeps(s: Store, rows: seq<PaymentMethod>)
    requires Coherent(s) && Enumerates(rows, s.table, IdOf)
    ensures Restarted(s, rows).records == s.records && Coherent(Restarted(s, rows))
  {
    Loaded(rows, s.table, IdOf, Itself);
    Hydration.Indexed(rows, s.table, IdOf, TenantOf);
    assert KeysOf(s.table, TenantOf) == Tenants(s.records);
  }

  /** A default of the same tenant, other than `pm`'s own record. */
  ghost predicate OtherDefault(records: map<string, PaymentMethod>, pm: PaymentMethod) {
    exists id :: id in records && id != pm.id && records[id].isDefault && records[id].tenantId == pm.tenantId
  }

  /** Update clears nothing: it keeps the default single exactly when it does not add a second one. */
  lemma UpdateSingleIff(s: Store, pm: PaymentMethod, now: int)
    requires Coherent(s) && SingleDefault(s.records) && pm.id in s.records
    ensures SingleDefault(AfterUpdate(s, pm, now).records) <==> !(pm.isDefault && OtherDefault(s.records, pm))
  {
    var records := AfterUpdate(s, pm, now).records;
    if pm.isDefault && OtherDefault(s.records, pm) {
      var id :| id in s.records && id != pm.id && s.records[id].isDefault && s.records[id].tenantId == pm.tenantId;
      assert records[id].isDefault && records[pm.id].isDefault;
    }
  }

  /** An update that neither moves the method to another tenant nor changes its creation time. */
  predicate StaysPut(s: Store, pm: PaymentMethod)
    requires pm.id in s.records
  {
    pm.tenantId == s.records[pm.id].tenantId && pm.createdAt == s.records[pm.id].createdAt
  }

  /** Update writes neither the index nor those two columns: only then index and table stay right. */
  lemma UpdateCoherentIff(s: Store, pm: PaymentMethod, now: int)
    requires Coherent(s) && pm.id in s.records
    ensures Coherent(AfterUpdate(s, pm, now)) <==> StaysPut(s, pm)
  {
    var t := AfterUpdate(s, pm, now);
    assert t.records[pm.id] == pm.(updatedAt := now);
    if StaysPut(s, pm) {
      assert Tenants(t.records) == Tenants(s.records);
    } else {
      assert t.table[pm.id] != t.records[pm.id];
    }
  }

  // ----- Runs ----------------------------------------------------------------------------------

  datatype Op =
    | Create(pm: PaymentMethod, newId: string, now: int)
    | Update(pm: PaymentMethod, now: int)
    | Delete(id: string)
    | Restart(rows: seq<PaymentMethod>)

  /** New ids are fresh, updates are harmless, and a restart reads the whole table. */
  ghost predicate Admissible(s: Store, op: Op) {
    match op
    case Create(pm, newId, now) => WithDefaults(pm, newId, now).id !in s.records
    case Update(pm, now) => pm.id in s.records ==> StaysPut(s, pm) && !(pm.isDefault && OtherDefault(s.records, pm))
    case Restart(rows) => Enumerates(rows, s.table, IdOf)
    case Delete(_) => true
  }

  function Apply(s: Store, op: Op): Store {
    match op
    case Create(pm, newId, now) => AfterCreate(s, pm, newId, now)
    case Update(pm, now) => AfterUpdate(s, pm, now)
    case Delete(id) => AfterDelete(s, id)
    case Restart(rows) => Restarted(s, rows)
  }

  ghost predicate IsRun(stores: seq<Store>, ops: seq<Op>) {
    && |stores| == |ops| + 1 && stores[0] == Store(map[], map[], map[])
    && forall i :: 0 <= i < |ops| ==> Admissible(stores[i], ops[i]) && stores[i + 1] == Apply(stores[i], ops[i])
  }

  /** Over every run, after each completed call, one default per tenant in memory and in the table. */
  lemma {:induction false} AlwaysSingleDefault(stores: seq<Store>, ops: seq<Op>, i: nat)
    requires IsRun(stores, ops) && i < |stores|
    ensures Coherent(stores[i]) && SingleDefault(stores[i].records) && SingleDefault(stores[i].table)
    decreases i
  {
    if i == 0 {
      NothingIndexed();
      assert Tenants(map[]) == map[];
    } else {
      AlwaysSingleDefault(stores, ops, i - 1);
      var s := stores[i - 1];
      assert Admissible(s, ops[i - 1]) && stores[i - 1 + 1] == Apply(s, ops[i - 1]);
      match ops[i - 1]
      case Create(pm, newId, now) => CreateKeeps(s, pm, newId, now);
      case Update(pm, now) => if pm.id in s.records {
          UpdateCoherentIff(s, pm, now);
          UpdateSingleIff(s, pm, now);
        }
      case Delete(id) => DeleteKeeps(s, id);
      case Restart(rows) => RestartKeeps(s, rows);
    }
  }

  // ----- Crashes -------------------------------------------------------------------------------

  /** The table after a crash inside Create: the new row is written and, of its siblings', those of `written`. */
  function AfterCrash(s: Store, pm: PaymentMethod, now: int, written: set<string>): Rows {
    var siblings := Siblings(Kept(s, pm, now).records, pm);
    UpsertAll(Upsert(s.table, pm), map id | id in siblings && id in written :: siblings[id])
  }

  /**
   It has one default per tenant exactly if the former default, should there be one to take over from, is among
   them.
   */
  lemma CrashInCreateIff(s: Store, pm: PaymentMethod, now: int, written: set<string>)
    requires Coherent(s) && SingleDefault(s.records) && pm.id !in s.records
    ensures SingleDefault(AfterCrash(s, pm, now, written))
       <==> !(pm.isDefault && OtherDefault(s.records - written, pm))
  {
    CrashedRows(s, pm, now, written);
    SingleIff(s, pm, written, AfterCrash(s, pm, now, written));
  }

  lemma CrashedRows(s: Store, pm: PaymentMethod, now: int, written: set<string>)
    requires Coherent(s) && pm.id !in s.records
    ensures var t := AfterCrash(s, pm, now, written);
            && t.Keys == s.records.Keys + {pm.id} && t[pm.id] == pm
            && forall id :: id in s.records ==> CrashedRow(s, pm, written, id, t[id])
  {
    CrashKeys(s, pm, now, written);
    forall id | id in s.records ensures CrashedRow(s, pm, written, id, AfterCrash(s, pm, now, written)[id]) {
      RowAfterCrash(s, pm, now, written, id);
    }
  }

  lemma CrashKeys(s: Store, pm: PaymentMethod, now: int, written: set<string>)
    requires Coherent(s) && pm.id !in s.records
    ensures AfterCrash(s, pm, now, written).Keys == s.records.Keys + {pm.id}
           && AfterCrash(s, pm, now, written)[pm.id] == pm
  {
    assert Siblings(Kept(s, pm, now).records, pm).Keys <= s.records.Keys;
    assert Upsert(s.table, pm).Keys == s.records.Keys + {pm.id};
  }

  lemma RowAfterCrash(s: Store, pm: PaymentMethod, now: int, written: set<string>, id: string)
    requires Coherent(s) && pm.id !in s.records && id in s.records
    ensures id in AfterCrash(s, pm, now, written) && CrashedRow(s, pm, written, id, AfterCrash(s, pm, now, written)[id])
  {
    var siblings := Siblings(Kept(s, pm, now).records, pm);
    assert id in siblings <==> s.records[id].tenantId == pm.tenantId;
    assert id in siblings ==> siblings[id] == if pm.isDefault then Undefaulted(s.records[id], now) else s.records[id];
  }

  lemma SingleIff(s: Store, pm: PaymentMethod, written: set<string>, t: Rows)
    requires SingleDefault(s.records) && pm.id !in s.records && t.Keys == s.records.Keys + {pm.id} && t[pm.id] == pm
    requires forall id :: id in s.records ==> CrashedRow(s, pm, written, id, t[id])
    ensures SingleDefault(t) <==> !(pm.isDefault && OtherDefault(s.records - written, pm))
  {
    if pm.isDefault && OtherDefault(s.records - written, pm) {
      var id :| id in s.records - written && id != pm.id && s.records[id].isDefault
          && s.records[id].tenantId == pm.tenantId;
      assert CrashedRow(s, pm, written, id, t[id]);
      assert BothDefault(t[id], t[pm.id]);
    } else {
      assert forall id :: id in s.records - written && id != pm.id && pm.isDefault && s.records[id].isDefault ==>
                            s.records[id].tenantId != pm.tenantId;
      forall i, j | i in t && j in t && BothDefault(t[i], t[j]) ensures i == j {
        if i != pm.id { assert CrashedRow(s, pm, written, i, t[i]); }
        if j != pm.id { assert CrashedRow(s, pm, written, j, t[j]); }
        if i != pm.id && j != pm.id {
          assert BothDefault(s.records[i], s.records[j]);
        }
      }
    }
  }

  /** `row` is what is left of a former row: without the default if it was cleared and written. */
  ghost predicate CrashedRow(s: Store, pm: PaymentMethod, written: set<string>, id: string, row: PaymentMethod)
    requires id in s.records
  {
    var was := s.records[id];
    row.tenantId == was.tenantId
        && (row.isDefault <==> was.isDefault && !(pm.isDefault && was.tenantId == pm.tenantId && id in written))
  }
}
