/** When the group index says what a scan of all group names would say. */
module DelegationProperties {
  import opened Delegations
  import opened IdLists
  import opened Keys

  ghost predicate UniqueNames(groups: map<string, Group>) {
    forall u, v :: u in groups && v in groups && groups[u].name == groups[v].name ==> u == v
  }

  /** No tenant, with the separator of index keys, begins another. */
  ghost predicate Apart(tenants: set<string>) {
    forall a, b :: a in tenants && b in tenants && a != b ==> !(a + "::" <= b + "::")
  }

  ghost predicate Clean(tenants: set<string>) {
    Apart(tenants) && forall t :: t in tenants ==> Free(t, '-')
  }

  lemma KeysApart(tenants: set<string>, t1: string, r1: string, t2: string, r2: string)
    requires Apart(tenants) && t1 in tenants && t2 in tenants && IndexKey(t1, r1) == IndexKey(t2, r2)
    ensures t1 == t2 && r1 == r2
  {
    assert Collide("::", t1, t2, r1, r2);
    CollideIff("::", t1, t2);
    assert IndexKey(t1, r1)[|t1| + 2..] == r1;
    assert t1 == t2 ==> IndexKey(t2, r2)[|t1| + 2..] == r2;
  }

  /** Group names that parse at all are those of a role of the group's tenant. */
  ghost predicate WellNamed(tenants: set<string>, groups: map<string, Group>) {
    forall u :: u in groups && ExtractRoleName(groups[u].name).Some? ==>
      groups[u].tenant in tenants && groups[u].name == BuildGroupName(groups[u].tenant, RoleOrEmpty(groups[u].name))
  }

  /** The entry for a tenant's role, if there is one, leads to the live group of that name. */
  ghost predicate Right(w: World, t: string, r: string) {
    IndexKey(t, r) in w.index ==> IsNamed(w.groups, w.index[IndexKey(t, r)], BuildGroupName(t, r))
  }

  ghost predicate IndexRight(tenants: set<string>, w: World) {
    forall t, r :: t in tenants ==> Right(w, t, r)
  }

  ghost predicate Named(tenants: set<string>, groups: map<string, Group>) {
    UniqueNames(groups) && WellNamed(tenants, groups)
  }

  ghost predicate Coherent(tenants: set<string>, w: World) {
    Named(tenants, w.groups) && IndexRight(tenants, w)
  }

  /** `found` is what a scan of the whole table for a name comes to. */
  ghost predicate IsScan(groups: map<string, Group>, name: string, found: Option<string>) {
    if found.Some? then forall u :: IsNamed(groups, u, name) <==> u == found.value
    else forall u :: !IsNamed(groups, u, name)
  }

  /** Every lookup, through the index or not, answers what a scan of all groups would. */
  lemma LookupIsScan(tenants: set<string>, w: World, tenant: string, role: string, o: Upstream)
    requires Coherent(tenants, w) && tenant in tenants && forall u :: u in w.groups ==> u in o.listing
    ensures var r := AfterLookupUUID(w, tenant, role, o).1;
            IsScan(w.groups, BuildGroupName(tenant, role), r) || (o.listFails && r == None)
  {
    assert Right(w, tenant, role);
  }

  // ----- What each request keeps ---------------------------------------------------------------

  lemma EntryKeeps(tenants: set<string>, w: World, tenant: string, role: string, u: string)
    requires Clean(tenants) && Coherent(tenants, w) && tenant in tenants
            && IsNamed(w.groups, u, BuildGroupName(tenant, role))
    ensures Coherent(tenants, w.(index := w.index[IndexKey(tenant, role) := u]))
  {
    var v := w.(index := w.index[IndexKey(tenant, role) := u]);
    forall t, r | t in tenants ensures Right(v, t, r) {
      assert Right(w, t, r);
      if IndexKey(t, r) == IndexKey(tenant, role) { KeysApart(tenants, t, r, tenant, role); }
    }
  }

  lemma LookupRoleCoherent(tenants: set<string>, w: World, tenant: string, role: string, o: Upstream)
    requires Clean(tenants) && Coherent(tenants, w) && tenant in tenants
    ensures Coherent(tenants, AfterLookupRole(w, tenant, role, o).0)
  {
    var found := FirstNamed(w.groups, BuildGroupName(tenant, role), o.listing);
    if found.Some? { EntryKeeps(tenants, w, tenant, role, found.value); }
  }

  /** The request may address the role: by name, or by the uuid of a group of the caller's own tenant. */
  ghost predicate OwnRole(w: World, tenant: string, roleId: string, o: Upstream) {
    !o.getFails && roleId in w.groups ==> w.groups[roleId].tenant == tenant
  }

  lemma ResolveCoherent(tenants: set<string>, w: World, tenant: string, roleId: string, o: Upstream)
    requires Clean(tenants) && Coherent(tenants, w) && tenant in tenants
    ensures Coherent(tenants, AfterResolve(w, tenant, roleId, o).0)
  {
    if !o.getFails && roleId in w.groups {
      var g := w.groups[roleId];
      if ExtractRoleName(g.name).Some? { EntryKeeps(tenants, w, g.tenant, RoleOrEmpty(g.name), roleId); }
    } else {
      LookupRoleCoherent(tenants, w, tenant, roleId, o);
    }
  }

  /** A group found by name is one of the caller's own tenant. */
  lemma FoundByName(tenants: set<string>, w: World, tenant: string, role: string, u: string)
    requires Clean(tenants) && Named(tenants, w.groups) && tenant in tenants
    requires IsNamed(w.groups, u, BuildGroupName(tenant, role))
    ensures w.groups[u].tenant == tenant && ExtractRoleName(w.groups[u].name) == Some(role)
  {
    ExtractInvertsBuild(tenant, role);
    BuildIsInjective(tenant, role, w.groups[u].tenant, RoleOrEmpty(w.groups[u].name));
  }

  /** The group a request resolves to is of the caller's own tenant. */
  lemma ResolvedIsOwn(tenants: set<string>, w: World, tenant: string, roleId: string, o: Upstream)
    requires Clean(tenants) && Named(tenants, w.groups) && tenant in tenants && OwnRole(w, tenant, roleId, o)
    ensures var r := AfterResolve(w, tenant, roleId, o).1; r.Some? ==> w.groups[r.value].tenant == tenant
  {
    var r := AfterResolve(w, tenant, roleId, o).1;
    if (o.getFails || roleId !in w.groups) && r.Some? { FoundByName(tenants, w, tenant, roleId, r.value); }
  }

  /** `u` is the group of a role, and the entry for the role leads to it. */
  ghost predicate HasEntry(tenants: set<string>, v: World, u: string) {
    && u in v.groups && ExtractRoleName(v.groups[u].name).Some? && v.groups[u].tenant in tenants
    && var key := IndexKey(v.groups[u].tenant, RoleOrEmpty(v.groups[u].name));
       key in v.index && v.index[key] == u
  }

  /** Resolving a role leaves an entry that leads to it. */
  lemma ResolvedHasEntry(tenants: set<string>, w: World, tenant: string, roleId: string, o: Upstream)
    requires Clean(tenants) && Named(tenants, w.groups) && tenant in tenants
    ensures var (v, found) := AfterResolve(w, tenant, roleId, o);
            found.Some? && ExtractRoleName(v.groups[found.value].name).Some? ==> HasEntry(tenants, v, found.value)
  {
    var r := AfterResolve(w, tenant, roleId, o).1;
    if (o.getFails || roleId !in w.groups) && r.Some? { FoundByName(tenants, w, tenant, roleId, r.value); }
  }

  /** The only entry that leads to a group is the one for the tenant and role its name is built from. */
  lemma OneEntryPerGroup(tenants: set<string>, w: World, t: string, r: string, u: string)
    requires Clean(tenants) && Coherent(tenants, w) && t in tenants && IndexKey(t, r) in w.index
            && w.index[IndexKey(t, r)] == u
    ensures u in w.groups && w.groups[u].tenant == t && RoleOrEmpty(w.groups[u].name) == r
    ensures ExtractRoleName(w.groups[u].name).Some?
  {
    assert Right(w, t, r);
    ExtractInvertsBuild(t, r);
    BuildIsInjective(t, r, w.groups[u].tenant, RoleOrEmpty(w.groups[u].name));
  }

  lemma CreateNamed(tenants: set<string>, w: World, tenant: string, role: string, uuid: string, o: Upstream)
    requires Clean(tenants) && Named(tenants, w.groups) && tenant in tenants && uuid !in w.groups
    ensures Named(tenants, AfterCreate(w, tenant, role, uuid, o).groups)
  {
    ExtractInvertsBuild(tenant, role);
  }

  /** Creating keeps the index right, also when upstream has created the group and the reply is lost. */
  lemma CreateCoherent(tenants: set<string>, w: World, tenant: string, role: string, uuid: string, o: Upstream)
    requires Clean(tenants) && Coherent(tenants, w) && tenant in tenants && uuid !in w.groups
    ensures Coherent(tenants, AfterCreate(w, tenant, role, uuid, o))
  {
    var name := BuildGroupName(tenant, role);
    CreateNamed(tenants, w, tenant, role, uuid, o);
    if !o.write.Refused? && !Taken(w.groups, name, {}) {
      var v := w.(groups := w.groups[uuid := Group(name, tenant)]);
      assert Coherent(tenants, v) by {
        forall t, r | t in tenants ensures Right(v, t, r) { assert Right(w, t, r); }
      }
      EntryKeeps(tenants, v, tenant, role, uuid);
    }
  }

  lemma DeleteNamed(tenants: set<string>, w: World, tenant: string, roleId: string, o: Upstream)
    requires Named(tenants, w.groups)
    ensures Named(tenants, AfterDelete(w, tenant, roleId, o).groups)
  {
  }

  /**
   Deleting does no harm to the index if there is no group or upstream refuses; else if the group carries no
   role; else if the reply arrives and the group is the caller's tenant's.
   */
  predicate DeleteHarmless(w: World, tenant: string, roleId: string, o: Upstream) {
    var (v, found) := AfterResolve(w, tenant, roleId, o);
    || found.None? || o.write.Refused?
    || ExtractRoleName(v.groups[found.value].name).None?
    || (o.write.Done? && v.groups[found.value].tenant == tenant)
  }

  /** Deleting keeps the index right exactly then, whatever calls fail and whosever the role is. */
  lemma DeleteRightIff(tenants: set<string>, w: World, tenant: string, roleId: string, o: Upstream)
    requires Clean(tenants) && Coherent(tenants, w) && tenant in tenants
    ensures IndexRight(tenants, AfterDelete(w, tenant, roleId, o)) <==> DeleteHarmless(w, tenant, roleId, o)
  {
    ResolveCoherent(tenants, w, tenant, roleId, o);
    ResolvedHasEntry(tenants, w, tenant, roleId, o);
    var (v, found) := AfterResolve(w, tenant, roleId, o);
    if found.Some? && !o.write.Refused? {
      var d, g := AfterDelete(w, tenant, roleId, o), v.groups[found.value];
      if DeleteHarmless(w, tenant, roleId, o) {
        RemovedRight(tenants, v, tenant, found.value, d);
      } else {
        var role := RoleOrEmpty(g.name);
        if IndexKey(g.tenant, role) == IndexKey(tenant, role) {
          KeysApart(tenants, g.tenant, role, tenant, role);
        }
        assert !Right(d, g.tenant, role);
      }
    }
  }

  /** A group that is gone does not matter to the index if it carried no role or its entry went with it. */
  lemma RemovedRight(tenants: set<string>, v: World, tenant: string, u: string, d: World)
    requires Clean(tenants) && Coherent(tenants, v) && u in v.groups && d.groups == v.groups - {u}
    requires d.index == v.index || d.index == v.index - {IndexKey(tenant, RoleOrEmpty(v.groups[u].name))}
    requires ExtractRoleName(v.groups[u].name).Some? ==> v.groups[u].tenant == tenant && d.index != v.index
    ensures IndexRight(tenants, d)
  {
    forall t, r | t in tenants ensures Right(d, t, r) {
      assert Right(v, t, r);
      if IndexKey(t, r) in d.index && v.index[IndexKey(t, r)] == u { OneEntryPerGroup(tenants, v, t, r, u); }
    }
  }

  lemma UpdateNamed(tenants: set<string>, w: World, tenant: string, roleId: string, newRole: Option<string>,
      o: Upstream)
    requires Clean(tenants) && Named(tenants, w.groups) && tenant in tenants && OwnRole(w, tenant, roleId, o)
    ensures Named(tenants, AfterUpdate(w, tenant, roleId, newRole, o).groups)
  {
    ResolvedIsOwn(tenants, w, tenant, roleId, o);
    var (v, found) := AfterResolve(w, tenant, roleId, o);
    if found.Some? {
      var wanted := WantedRole(v.groups[found.value], newRole);
      if !o.write.Refused? && !Taken(v.groups, BuildGroupName(tenant, wanted), {found.value}) {
        RenamedGroups(tenants, v.groups, found.value, tenant, wanted);
      }
    }
  }

  lemma RenamedGroups(tenants: set<string>, groups: map<string, Group>, u: string, tenant: string, wanted: string)
    requires Clean(tenants) && Named(tenants, groups) && tenant in tenants
    requires u in groups && groups[u].tenant == tenant && !Taken(groups, BuildGroupName(tenant, wanted), {u})
    ensures Named(tenants, groups[u := groups[u].(name := BuildGroupName(tenant, wanted))])
  {
    ExtractInvertsBuild(tenant, wanted);
    assert forall x :: x in groups && x != u ==> groups[x].name != BuildGroupName(tenant, wanted);
  }

  /**
   Renaming does no harm to the index if there is no group or upstream refuses; else if the group carries no
   role; else if the group is the caller's tenant's and the reply arrives or the role stays.
   */
  predicate UpdateHarmless(w: World, tenant: string, roleId: string, newRole: Option<string>, o: Upstream) {
    var (v, found) := AfterResolve(w, tenant, roleId, o);
    found.None? || o.write.Refused? ||
    var u := found.value;
    var wanted := WantedRole(v.groups[u], newRole);
    || Taken(v.groups, BuildGroupName(tenant, wanted), {u})
    || ExtractRoleName(v.groups[u].name).None?
    || (v.groups[u].tenant == tenant && (o.write.Done? || wanted == RoleOrEmpty(v.groups[u].name)))
  }

  /** Renaming keeps the index right exactly then, whatever calls fail and whosever the role is. */
  lemma UpdateRightIff(
    tenants: set<string>, w: World, tenant: string, roleId: string, newRole: Option<string>, o: Upstream)
    requires Clean(tenants) && Coherent(tenants, w) && tenant in tenants
    ensures IndexRight(tenants, AfterUpdate(w, tenant, roleId, newRole, o))
       <==> UpdateHarmless(w, tenant, roleId, newRole, o)
  {
    ResolveCoherent(tenants, w, tenant, roleId, o);
    ResolvedHasEntry(tenants, w, tenant, roleId, o);
    var (v, found) := AfterResolve(w, tenant, roleId, o);
    if found.Some? {
      var u := found.value;
      var wanted := WantedRole(v.groups[u], newRole);
      if !o.write.Refused? && !Taken(v.groups, BuildGroupName(tenant, wanted), {u}) {
        assert AfterUpdate(w, tenant, roleId, newRole, o) == Renamed(v, tenant, u, wanted, o.write);
        if UpdateHarmless(w, tenant, roleId, newRole, o) {
          RenamedRight(tenants, v, tenant, u, wanted, o.write);
        } else {
          RenamedWrong(tenants, v, tenant, u, wanted, o.write);
        }
      }
    }
  }

  /** The world after a rename that went through. */
  function Renamed(v: World, tenant: string, u: string, wanted: string, write: Outcome): World
    requires u in v.groups
  {
    var current := RoleOrEmpty(v.groups[u].name);
    World(if write.ReplyLost? || wanted == current then v.index
          else (v.index - {IndexKey(tenant, current)})[IndexKey(tenant, wanted) := u],
          v.groups[u := v.groups[u].(name := BuildGroupName(tenant, wanted))])
  }

  lemma RenamedRight(tenants: set<string>, v: World, tenant: string, u: string, wanted: string, write: Outcome)
    requires Clean(tenants) && Coherent(tenants, v) && tenant in tenants && u in v.groups
    requires ExtractRoleName(v.groups[u].name).Some? ==>
               v.groups[u].tenant == tenant && (!write.ReplyLost? || wanted == RoleOrEmpty(v.groups[u].name))
    ensures IndexRight(tenants, Renamed(v, tenant, u, wanted, write))
  {
    var d := Renamed(v, tenant, u, wanted, write);
    forall t, r | t in tenants ensures Right(d, t, r) {
      assert Right(v, t, r);
      if IndexKey(t, r) == IndexKey(tenant, wanted) { KeysApart(tenants, t, r, tenant, wanted); }
      if IndexKey(t, r) in v.index && v.index[IndexKey(t, r)] == u { OneEntryPerGroup(tenants, v, t, r, u); }
    }
  }

  lemma RenamedWrong(tenants: set<string>, v: World, tenant: string, u: string, wanted: string, write: Outcome)
    requires Clean(tenants) && tenant in tenants && HasEntry(tenants, v, u)
    requires v.groups[u].tenant != tenant || (write.ReplyLost? && wanted != RoleOrEmpty(v.groups[u].name))
    ensures !Right(Renamed(v, tenant, u, wanted, write), v.groups[u].tenant, RoleOrEmpty(v.groups[u].name))
  {
    var t, current := v.groups[u].tenant, RoleOrEmpty(v.groups[u].name);
    if IndexKey(t, current) == IndexKey(tenant, current) { KeysApart(tenants, t, current, tenant, current); }
    if IndexKey(t, current) == IndexKey(tenant, wanted) { KeysApart(tenants, t, current, tenant, wanted); }
    if BuildGroupName(t, current) == BuildGroupName(tenant, wanted) { BuildIsInjective(t, current, tenant, wanted); }
  }

  lemma IndexedCoherent(tenants: set<string>, w: World, tenant: string, u: string)
    requires Clean(tenants) && Coherent(tenants, w) && tenant in tenants
    ensures Coherent(tenants, Indexed(w, tenant, u)) && Indexed(w, tenant, u).groups == w.groups
  {
    if u in w.groups && BuildGroupName(tenant, "") <= w.groups[u].name && ExtractRoleName(w.groups[u].name).Some? {
      var role := RoleOrEmpty(w.groups[u].name);
      var rest := PrefixedName(tenant, w.groups[u].name);
      ExtractInvertsBuild(tenant, rest);
      EntryKeeps(tenants, w, tenant, role, u);
    }
  }

  /** A name with a tenant's prefix is that of a role of the tenant. */
  lemma PrefixedName(tenant: string, name: string) returns (role: string)
    requires BuildGroupName(tenant, "") <= name
    ensures name == BuildGroupName(tenant, role)
  {
    role := name[|BuildGroupName(tenant, "")|..];
    assert name == BuildGroupName(tenant, "") + role;
  }

  lemma {:induction false} ListingCoherent(tenants: set<string>, w: World, tenant: string, listing: seq<string>)
    requires Clean(tenants) && Coherent(tenants, w) && tenant in tenants
    ensures Coherent(tenants, AllIndexed(w, tenant, listing))
    decreases |listing|
  {
    if listing != [] {
      IndexedCoherent(tenants, w, tenant, listing[0]);
      ListingCoherent(tenants, Indexed(w, tenant, listing[0]), tenant, listing[1..]);
    }
  }

  // ----- Over runs -----------------------------------------------------------------------------

  datatype Request =
    | Create(tenant: string, role: string, uuid: string, o: Upstream)
    | List(tenant: string, o: Upstream)
    | Get(tenant: string, roleId: string, o: Upstream)
    | Update(tenant: string, roleId: string, newRole: Option<string>, o: Upstream)
    | Delete(tenant: string, roleId: string, o: Upstream)
    | Lookup(tenant: string, role: string, o: Upstream)

  /** Updates and deletions address own roles, and upstream gives new groups fresh ids. */
  ghost predicate Admissible(tenants: set<string>, w: World, r: Request) {
    && r.tenant in tenants
    && (r.Create? ==> r.uuid !in w.groups)
    && (r.Update? || r.Delete? ==> OwnRole(w, r.tenant, r.roleId, r.o))
  }

  function Handle(w: World, r: Request): World {
    match r
    case Create(tenant, role, uuid, o) => AfterCreate(w, tenant, role, uuid, o)
    case List(tenant, o) => AfterListing(w, tenant, o)
    case Get(tenant, roleId, o) => AfterResolve(w, tenant, roleId, o).0
    case Update(tenant, roleId, newRole, o) => AfterUpdate(w, tenant, roleId, newRole, o)
    case Delete(tenant, roleId, o) => AfterDelete(w, tenant, roleId, o)
    case Lookup(tenant, role, o) => AfterLookupUUID(w, tenant, role, o).0
  }

  /** `worlds` is a run of requests of these tenants, from an empty index and well-named groups. */
  ghost predicate IsRun(tenants: set<string>, worlds: seq<World>, requests: seq<Request>) {
    && |worlds| == |requests| + 1 && worlds[0].index == map[] && Named(tenants, worlds[0].groups)
    && forall i :: 0 <= i < |requests| ==>
         Admissible(tenants, worlds[i], requests[i]) && worlds[i + 1] == Handle(worlds[i], requests[i])
  }

  /** Upstream deletes a role, or gives it another name, and the reply is lost. */
  predicate Loses(w: World, r: Request) {
    || (r.Delete? && r.o.write.ReplyLost? && !DeleteHarmless(w, r.tenant, r.roleId, r.o))
    || (r.Update? && r.o.write.ReplyLost? && !UpdateHarmless(w, r.tenant, r.roleId, r.newRole, r.o))
  }

  lemma HandleNamed(tenants: set<string>, w: World, r: Request)
    requires Clean(tenants) && Named(tenants, w.groups) && Admissible(tenants, w, r)
    ensures Named(tenants, Handle(w, r).groups)
  {
    match r
    case Create(tenant, role, uuid, o) => CreateNamed(tenants, w, tenant, role, uuid, o);
    case Update(tenant, roleId, newRole, o) => UpdateNamed(tenants, w, tenant, roleId, newRole, o);
    case Delete(tenant, roleId, o) => DeleteNamed(tenants, w, tenant, roleId, o);
    case List(tenant, o) => ListingGroups(w, tenant, o.listing);
    case Get(tenant, roleId, o) =>
    case Lookup(tenant, role, o) =>
  }

  lemma {:induction false} ListingGroups(w: World, tenant: string, listing: seq<string>)
    ensures AllIndexed(w, tenant, listing).groups == w.groups
    decreases |listing|
  {
    if listing != [] { ListingGroups(Indexed(w, tenant, listing[0]), tenant, listing[1..]); }
  }

  /** A request keeps names and index right exactly if it is not one whose change is made and whose reply is lost. */
  lemma HandleCoherentIff(tenants: set<string>, w: World, r: Request)
    requires Clean(tenants) && Coherent(tenants, w) && Admissible(tenants, w, r)
    ensures Coherent(tenants, Handle(w, r)) <==> !Loses(w, r)
  {
    HandleNamed(tenants, w, r);
    match r
    case Create(tenant, role, uuid, o) => CreateCoherent(tenants, w, tenant, role, uuid, o);
    case List(tenant, o) => ListingCoherent(tenants, w, tenant, o.listing);
    case Get(tenant, roleId, o) => ResolveCoherent(tenants, w, tenant, roleId, o);
    case Update(tenant, roleId, newRole, o) =>
      UpdateRightIff(tenants, w, tenant, roleId, newRole, o);
      ResolvedIsOwn(tenants, w, tenant, roleId, o);
    case Delete(tenant, roleId, o) =>
      DeleteRightIff(tenants, w, tenant, roleId, o);
      ResolvedIsOwn(tenants, w, tenant, roleId, o);
    case Lookup(tenant, role, o) => LookupRoleCoherent(tenants, w, tenant, role, o);
  }

  ghost predicate NoneLost(worlds: seq<World>, requests: seq<Request>, n: nat)
    requires n <= |requests| < |worlds|
  {
    forall k :: 0 <= k < n ==> !Loses(worlds[k], requests[k])
  }

  lemma RunStep(tenants: set<string>, worlds: seq<World>, requests: seq<Request>, i: nat)
    requires IsRun(tenants, worlds, requests) && i < |requests|
    ensures Admissible(tenants, worlds[i], requests[i]) && worlds[i + 1] == Handle(worlds[i], requests[i])
  {
  }

  /** Over every run of clean tenants group names stay unique and those of their tenants, whatever replies are lost. */
  lemma {:induction false} AlwaysNamed(tenants: set<string>, worlds: seq<World>, requests: seq<Request>, i: nat)
    requires Clean(tenants) && IsRun(tenants, worlds, requests) && i < |worlds|
    ensures Named(tenants, worlds[i].groups)
    decreases i
  {
    if i > 0 {
      AlwaysNamed(tenants, worlds, requests, i - 1);
      RunStep(tenants, worlds, requests, i - 1);
      HandleNamed(tenants, worlds[i - 1], requests[i - 1]);
    }
  }

  /** And each entry leads to the live group of its role, whatever calls fail, until such a reply is lost. */
  lemma {:induction false} AlwaysCoherent(tenants: set<string>, worlds: seq<World>, requests: seq<Request>, i: nat)
    requires Clean(tenants) && IsRun(tenants, worlds, requests) && i < |worlds| && NoneLost(worlds, requests, i)
    ensures Coherent(tenants, worlds[i])
    decreases i
  {
    if i > 0 {
      AlwaysCoherent(tenants, worlds, requests, i - 1);
      RunStep(tenants, worlds, requests, i - 1);
      HandleCoherentIff(tenants, worlds[i - 1], requests[i - 1]);
    }
  }

  /** In every run of these tenants in which no such reply is lost the index is right all the way. */
  ghost predicate Safe(tenants: set<string>) {
    forall worlds, requests ::
      IsRun(tenants, worlds, requests) && NoneLost(worlds, requests, |requests|) ==> AllRight(tenants, worlds)
  }

  ghost predicate AllRight(tenants: set<string>, worlds: seq<World>) {
    forall i :: 0 <= i < |worlds| ==> IndexRight(tenants, worlds[i])
  }

  /** The index can be relied on exactly for tenants without dashes none of which, with `::`, begins another. */
  lemma SafeIffClean(tenants: set<string>)
    ensures Safe(tenants) <==> Clean(tenants)
  {
    if Clean(tenants) {
      forall worlds, requests | IsRun(tenants, worlds, requests) && NoneLost(worlds, requests, |requests|)
        ensures AllRight(tenants, worlds)
      {
        forall i | 0 <= i < |worlds| ensures IndexRight(tenants, worlds[i]) {
          AlwaysCoherent(tenants, worlds, requests, i);
        }
      }
    } else if t :| t in tenants && !Free(t, '-') {
      DashedRun(tenants, t);
    } else {
      var a, b :| a in tenants && b in tenants && a != b && a + "::" <= b + "::";
      CollidingRun(tenants, a, b);
    }
  }

  /** A deletion whose reply is lost: the role is still found, as a group that is not there any more. */
  lemma LostDelete(tenant: string, role: string, u: string)
    ensures var o := Fine.(write := ReplyLost);
            var w := AfterDelete(AfterCreate(World(map[], map[]), tenant, role, u, Fine), tenant, u, o);
            AfterLookupUUID(w, tenant, role, Fine).1 == Some(u) && u !in w.groups
  {
    var w := AfterCreate(World(map[], map[]), tenant, role, u, Fine);
    assert w.index == map[IndexKey(tenant, role) := u];
  }

  const Fine := Upstream(false, false, Done, [])

  // ----- Dashes --------------------------------------------------------------------------------

  lemma ParsedRole(t: string, r: string)
    ensures ExtractRoleName(BuildGroupName(t, r)).Some?
    ensures BuildGroupName(t, RoleOrEmpty(BuildGroupName(t, r))) == BuildGroupName(t, r) <==> Free(t, '-')
  {
    var name := BuildGroupName(t, r);
    var after := t + "-" + r;
    assert name[|GROUP_PREFIX|..] == after && after[|t|] == '-';
    IndexAtMost(after, '-', |t|);
    ExtractInvertsBuild(t, r);
    var p := RoleOrEmpty(name);
    assert BuildGroupName(t, p)[|BuildGroupName(t, "")|..] == p && name[|BuildGroupName(t, "")|..] == r;
  }

  /**
   Fetching a role's group by uuid indexes it under the role its name parses to: the right one exactly without a
   dash.
   */
  lemma FetchRightIff(w: World, t: string, r: string, u: string)
    requires u in w.groups && w.groups[u] == Group(BuildGroupName(t, r), t)
    ensures var p, v := RoleOrEmpty(w.groups[u].name), Cached(w, u);
            IndexKey(t, p) in v.index && v.index[IndexKey(t, p)] == u && (Right(v, t, p) <==> Free(t, '-'))
  {
    ParsedRole(t, r);
  }

  /** So looking that role up answers another role's group, unlike a scan. */
  lemma LookupAfterFetchIff(w: World, t: string, r: string, u: string, o: Upstream)
    requires UniqueNames(w.groups) && u in w.groups && w.groups[u] == Group(BuildGroupName(t, r), t)
    ensures var p := RoleOrEmpty(w.groups[u].name);
            var found := AfterLookupUUID(Cached(w, u), t, p, o).1;
            found == Some(u) && (IsScan(w.groups, BuildGroupName(t, p), found) <==> Free(t, '-'))
  {
    FetchRightIff(w, t, r, u);
    ParsedRole(t, r);
    var p := RoleOrEmpty(w.groups[u].name);
    assert IsNamed(w.groups, u, BuildGroupName(t, p)) <==> Free(t, '-');
  }

  ghost predicate Prefixed(w: World, tenant: string, u: string) {
    u in w.groups && BuildGroupName(tenant, "") <= w.groups[u].name
  }

  /** Each entry of the index is one that a listed group parses to. */
  ghost predicate FromListing(w: World, tenant: string) {
    forall key :: key in w.index ==>
        Prefixed(w, tenant, w.index[key]) && key == IndexKey(tenant, RoleOrEmpty(w.groups[w.index[key]].name))
  }

  lemma {:induction false} ListedEntries(w: World, tenant: string, listing: seq<string>)
    requires FromListing(w, tenant)
    ensures var v := AllIndexed(w, tenant, listing);
            && v.groups == w.groups && FromListing(v, tenant)
            && (v.index == map[] <==> w.index == map[] && forall u :: u in listing ==> !Prefixed(w, tenant, u))
    decreases |listing|
  {
    if listing != [] {
      var u := listing[0];
      var next := Indexed(w, tenant, u);
      if Prefixed(w, tenant, u) {
        var role := PrefixedName(tenant, w.groups[u].name);
        ParsedRole(tenant, role);
        assert IndexKey(tenant, RoleOrEmpty(w.groups[u].name)) in next.index;
      }
      ListedEntries(next, tenant, listing[1..]);
      assert forall x :: x in listing <==> x == u || x in listing[1..];
    }
  }

  /** Listing a tenant's roles into an empty index is right exactly if the tenant has no dash or no roles. */
  lemma ListRightIff(w: World, tenant: string, listing: seq<string>)
    requires w.index == map[]
    ensures (forall r :: Right(AllIndexed(w, tenant, listing), tenant, r))
       <==> Free(tenant, '-') || forall u :: u in listing ==> !Prefixed(w, tenant, u)
  {
    ListedEntries(w, tenant, listing);
    var v := AllIndexed(w, tenant, listing);
    forall key | key in v.index
      ensures Right(v, tenant, RoleOrEmpty(v.groups[v.index[key]].name)) <==> Free(tenant, '-')
    {
      var role := PrefixedName(tenant, v.groups[v.index[key]].name);
      ParsedRole(tenant, role);
    }
    if Free(tenant, '-') {
      forall r ensures Right(v, tenant, r) {
        var key := IndexKey(tenant, r);
        if key in v.index {
          var p := RoleOrEmpty(v.groups[v.index[key]].name);
          assert key[|tenant| + 2..] == r && IndexKey(tenant, p)[|tenant| + 2..] == p;
        }
      }
    } else if v.index != map[] {
      var key :| key in v.index;
      assert !Right(v, tenant, RoleOrEmpty(v.groups[v.index[key]].name));
    }
  }

  /** Two requests after which an entry is wrong. */
  lemma UnsafeAfterTwo(tenants: set<string>, r1: Request, r2: Request, w1: World, t: string, role: string)
    requires w1 == Handle(World(map[], map[]), r1) && t in tenants && !Right(Handle(w1, r2), t, role)
    requires Admissible(tenants, World(map[], map[]), r1) && Admissible(tenants, w1, r2)
    requires !Loses(World(map[], map[]), r1) && !Loses(w1, r2)
    ensures !Safe(tenants)
  {
    var worlds, requests := [World(map[], map[]), w1, Handle(w1, r2)], [r1, r2];
    assert IsRun(tenants, worlds, requests);
    assert NoneLost(worlds, requests, 2);
    assert !IndexRight(tenants, worlds[2]);
  }

  lemma DashedRun(tenants: set<string>, t: string)
    requires t in tenants && !Free(t, '-')
    ensures !Safe(tenants)
  {
    var w1 := AfterCreate(World(map[], map[]), t, "x", "u", Fine);
    assert w1.groups == map["u" := Group(BuildGroupName(t, "x"), t)];
    FetchRightIff(w1, t, "x", "u");
    var role := RoleOrEmpty(BuildGroupName(t, "x"));
    UnsafeAfterTwo(tenants, Request.Create(t, "x", "u", Fine), Get(t, "u", Fine), w1, t, role);
  }

  // ----- Separators ----------------------------------------------------------------------------

  /** A role of `a` and then one of `b` are created; the first is then looked up and the second is found. */
  ghost predicate Crossed(w: World, a: string, ra: string, ua: string, b: string, rb: string, ub: string) {
    && ra != "" && rb != ""
    && AfterLookupUUID(AfterCreate(AfterCreate(w, a, ra, ua, Fine), b, rb, ub, Fine), a, ra, Fine).1 == Some(ub)
  }

  /** This can happen to two tenants exactly if one of them, with the separator, begins the other. */
  lemma CrossedIff(a: string, ua: string, b: string, ub: string)
    requires a != b && ua != ub
    ensures (exists ra, rb :: Crossed(World(map[], map[]), a, ra, ua, b, rb, ub))
           <==> a + "::" <= b + "::" || b + "::" <= a + "::"
  {
    var w := World(map[], map[]);
    if ra, rb :| Crossed(w, a, ra, ua, b, rb, ub) {
      assert IndexKey(a, ra) in AfterCreate(w, a, ra, ua, Fine).index;
      assert Collide("::", a, b, ra, rb);
      CollideIff("::", a, b);
    }
    if a + "::" <= b + "::" || b + "::" <= a + "::" {
      var ra, rb := CollidingRoles(a, b);
      TwoCreated(a, ra, ua, b, rb, ub);
      assert Crossed(w, a, ra, ua, b, rb, ub);
    }
  }

  /** Colliding tenants have roles with one key for both, but not with one group name. */
  lemma CollidingRoles(a: string, b: string) returns (ra: string, rb: string)
    requires a != b && (a + "::" <= b + "::" || b + "::" <= a + "::")
    ensures ra != "" && rb != "" && IndexKey(a, ra) == IndexKey(b, rb) && BuildGroupName(a, ra) != BuildGroupName(b, rb)
  {
    if a + "::" <= b + "::" {
      ra, rb := OneBegins(a, b);
    } else {
      rb, ra := OneBegins(b, a);
    }
  }

  lemma OneBegins(a: string, b: string) returns (ra: string, rb: string)
    requires a != b && a + "::" <= b + "::"
    ensures ra != "" && rb != "" && IndexKey(a, ra) == IndexKey(b, rb) && BuildGroupName(a, ra) != BuildGroupName(b, rb)
  {
    var rest := (b + "::")[|a + "::"|..];
    assert b + "::" == a + "::" + rest;
    ra, rb := rest + "x", "x";
    assert IndexKey(a, ra) == a + "::" + rest + "x" == IndexKey(b, rb);
    assert (a + "::")[|a|] == ':' && (b + "::")[|a|] == ':';
    assert (a + "::")[..|a|] == a && (b + "::")[..|b|] == b;
    var at := |GROUP_PREFIX| + |a|;
    assert BuildGroupName(a, ra)[at] == '-' && BuildGroupName(b, rb)[at] == ':';
  }

  lemma TwoCreated(a: string, ra: string, ua: string, b: string, rb: string, ub: string)
    requires ua != ub && IndexKey(a, ra) == IndexKey(b, rb) && BuildGroupName(a, ra) != BuildGroupName(b, rb)
    ensures var w1 := AfterCreate(World(map[], map[]), a, ra, ua, Fine);
            var w2 := AfterCreate(w1, b, rb, ub, Fine);
            && ub !in w1.groups && w2.index == map[IndexKey(a, ra) := ub]
            && w2.groups == map[ua := Group(BuildGroupName(a, ra), a), ub := Group(BuildGroupName(b, rb), b)]
  {
  }

  lemma CollidingRun(tenants: set<string>, a: string, b: string)
    requires a in tenants && b in tenants && a != b && a + "::" <= b + "::"
    ensures !Safe(tenants)
  {
    var ra, rb := CollidingRoles(a, b);
    TwoCreated(a, ra, "u", b, rb, "v");
    var w1 := AfterCreate(World(map[], map[]), a, ra, "u", Fine);
    UnsafeAfterTwo(tenants, Request.Create(a, ra, "u", Fine), Request.Create(b, rb, "v", Fine), w1, a, ra);
  }
}
