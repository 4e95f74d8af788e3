/**
 Delegation roles live upstream as named groups. The handler prints and parses the group names and keeps
 an index from tenant and role to group uuid, which must say what a scan of all group names would say.
 */
module Delegations {
  import opened IdLists
  import opened Keys

  const GROUP_PREFIX := "operan-delegation-"

  function BuildGroupName(tenant: string, role: string): string {
    GROUP_PREFIX + tenant + "-" + role
  }

  /** The role of a group name: what follows the first dash after the prefix. */
  function ExtractRoleName(name: string): Option<string> {
    if !(GROUP_PREFIX <= name) then None
    else
      var after := name[|GROUP_PREFIX|..];
      var i := IndexOf(after, '-');
      if i == |after| then None else Some(after[i + 1..])
  }

  function IndexKey(tenant: string, role: string): string {
    tenant + "::" + role
  }

  /** The name codec inverts exactly for tenants without a dash, whatever the role is called. */
  lemma ExtractInvertsBuild(tenant: string, role: string)
    ensures ExtractRoleName(BuildGroupName(tenant, role)) == Some(role) <==> Free(tenant, '-')
  {
    var name := BuildGroupName(tenant, role);
    var after := tenant + "-" + role;
    assert name == GROUP_PREFIX + after;
    assert name[|GROUP_PREFIX|..] == after;
    var i := IndexOf(tenant, '-');
    assert after[..i] == tenant[..i];
    IndexOfIs(after, '-', i);
    if i == |tenant| {
      assert tenant[..i] == tenant;
      assert after[i + 1..] == role;
    } else {
      assert |after[i + 1..]| > |role|;
    }
  }

  lemma BuildIsInjective(t1: string, r1: string, t2: string, r2: string)
    requires Free(t1, '-') && Free(t2, '-') && BuildGroupName(t1, r1) == BuildGroupName(t2, r2)
    ensures t1 == t2 && r1 == r2
  {
    ExtractInvertsBuild(t1, r1);
    ExtractInvertsBuild(t2, r2);
    assert BuildGroupName(t1, r1)[|GROUP_PREFIX|..] == t1 + "-" + r1;
    assert BuildGroupName(t2, r2)[|GROUP_PREFIX|..] == t2 + "-" + r2;
    FreeOwnersInjective("-", t1, r1, t2, r2);
  }

  // ----- The handler ---------------------------------------------------------------------------

  datatype Group = Group(name: string, tenant: string)

  /** What a write comes to; with `ReplyLost` upstream has acted, but the call is reported as failed. */
  datatype Outcome = Done | Refused | ReplyLost

  /** How upstream answers during a request: which calls fail, and in which order it lists its groups. */
  datatype Upstream = Upstream(getFails: bool, listFails: bool, write: Outcome, listing: seq<string>)

  /** The handler's index and the upstream group table, by uuid. */
  datatype World = World(index: map<string, string>, groups: map<string, Group>)

  predicate Taken(groups: map<string, Group>, name: string, except: set<string>) {
    exists u :: u in groups && u !in except && groups[u].name == name
  }

  predicate IsNamed(groups: map<string, Group>, u: string, name: string) {
    u in groups && groups[u].name == name
  }

  /** The first listed group of a name. */
  function FirstNamed(groups: map<string, Group>, name: string, listing: seq<string>): (r: Option<string>)
    ensures r.Some? ==> r.value in listing && IsNamed(groups, r.value, name)
    ensures r.None? ==> forall u :: u in listing ==> !IsNamed(groups, u, name)
  {
    if listing == [] then None
    else if IsNamed(groups, listing[0], name) then Some(listing[0])
    else FirstNamed(groups, name, listing[1..])
  }

  function Cached(w: World, u: string): World
    requires u in w.groups
  {
    var role := ExtractRoleName(w.groups[u].name);
    if role.None? then w else w.(index := w.index[IndexKey(w.groups[u].tenant, role.value) := u])
  }

  function AfterLookupRole(w: World, tenant: string, role: string, o: Upstream): (World, Option<string>) {
    var found := FirstNamed(w.groups, BuildGroupName(tenant, role), o.listing);
    if o.listFails || found.None? then (w, None)
    else (w.(index := w.index[IndexKey(tenant, role) := found.value]), found)
  }

  function AfterLookupUUID(w: World, tenant: string, role: string, o: Upstream): (World, Option<string>) {
    var key := IndexKey(tenant, role);
    if key in w.index then (w, Some(w.index[key])) else AfterLookupRole(w, tenant, role, o)
  }

  /** A role id is tried as a uuid first, then as a role name of the caller's tenant. */
  function AfterResolve(w: World, tenant: string, roleId: string, o: Upstream): (r: (World, Option<string>))
    ensures r.0.groups == w.groups && (r.1.Some? ==> r.1.value in w.groups)
  {
    if !o.getFails && roleId in w.groups then (Cached(w, roleId), Some(roleId))
    else AfterLookupRole(w, tenant, roleId, o)
  }

  function RoleOrEmpty(name: string): string {
    var role := ExtractRoleName(name);
    if role.Some? then role.value else ""
  }

  function AfterCreate(w: World, tenant: string, role: string, uuid: string, o: Upstream): World {
    var name := BuildGroupName(tenant, role);
    if o.write.Refused? || Taken(w.groups, name, {}) then w
    else World(if o.write.Done? then w.index[IndexKey(tenant, role) := uuid] else w.index,
               w.groups[uuid := Group(name, tenant)])
  }

  /** The role a group is to have: the new one, if the request gives one. */
  function WantedRole(g: Group, newRole: Option<string>): string {
    if newRole.Some? then newRole.value else RoleOrEmpty(g.name)
  }

  function AfterUpdate(w: World, tenant: string, roleId: string, newRole: Option<string>, o: Upstream): World {
    var (v, found) := AfterResolve(w, tenant, roleId, o);
    if found.None? then v
    else
      var u := found.value;
      var current, wanted := RoleOrEmpty(v.groups[u].name), WantedRole(v.groups[u], newRole);
      var name := BuildGroupName(tenant, wanted);
      if o.write.Refused? || Taken(v.groups, name, {u}) then v
      else
        var groups := v.groups[u := v.groups[u].(name := name)];
        if o.write.ReplyLost? || wanted == current then v.(groups := groups)
        else World((v.index - {IndexKey(tenant, current)})[IndexKey(tenant, wanted) := u], groups)
  }

  function AfterDelete(w: World, tenant: string, roleId: string, o: Upstream): World {
    var (v, found) := AfterResolve(w, tenant, roleId, o);
    if found.None? || o.write.Refused? then v
    else
      var u := found.value;
      World(if o.write.ReplyLost? then v.index else v.index - {IndexKey(tenant, RoleOrEmpty(v.groups[u].name))},
            v.groups - {u})
  }

  /** A listed group whose name has the tenant's prefix and parses is indexed under the tenant. */
  function Indexed(w: World, tenant: string, u: string): World {
    if u in w.groups && BuildGroupName(tenant, "") <= w.groups[u].name && ExtractRoleName(w.groups[u].name).Some?
    then w.(index := w.index[IndexKey(tenant, ExtractRoleName(w.groups[u].name).value) := u]) else w
  }

  /** All of them, in listing order. */
  function AllIndexed(w: World, tenant: string, listing: seq<string>): World
    decreases |listing|
  {
    if listing == [] then w else AllIndexed(Indexed(w, tenant, listing[0]), tenant, listing[1..])
  }

  /** Listing a tenant's roles; where upstream cannot be listed, other records answer and the index stays. */
  function AfterListing(w: World, tenant: string, o: Upstream): World {
    if o.listFails then w else AllIndexed(w, tenant, o.listing)
  }

  class Handler {
    var groupIndex: map<string, string>
    var groups: map<string, Group>      // the upstream table

    ghost function State(): World
      reads this
    {
      World(groupIndex, groups)
    }

    constructor (groups: map<string, Group>)
      ensures State() == World(map[], groups)
    {
      groupIndex := map[];
      this.groups := groups;
    }

    /** The upstream listing, searched for a name. */
    method FindByName(name: string, listing: seq<string>) returns (r: Option<string>)
      ensures r == FirstNamed(groups, name, listing)
      ensures r.Some? ==> exists i :: 0 <= i < |listing| && listing[i] == r.value && IsNamed(groups, listing[i], name)
                                      && forall j :: 0 <= j < i ==> !IsNamed(groups, listing[j], name)
      ensures r.None? ==> forall u :: u in listing ==> !IsNamed(groups, u, name)
    {
      for i := 0 to |listing|
        invariant forall j :: 0 <= j < i ==> !IsNamed(groups, listing[j], name)
        invariant FirstNamed(groups, name, listing[i..]) == FirstNamed(groups, name, listing)
      {
        assert listing[i..][1..] == listing[i + 1..];
        if listing[i] in groups && groups[listing[i]].name == name {
          return Some(listing[i]);
        }
      }
      return None;
    }

    method LookupRoleByName(tenant: string, role: string, o: Upstream) returns (r: Option<string>)
      modifies this`groupIndex
      ensures (State(), r) == AfterLookupRole(old(State()), tenant, role, o)
    {
      if o.listFails {
        return None;
      }
      r := FindByName(BuildGroupName(tenant, role), o.listing);
      if r.Some? {
        groupIndex := groupIndex[IndexKey(tenant, role) := r.value];
      }
    }

    method LookupGroupUUID(tenant: string, role: string, o: Upstream) returns (r: Option<string>)
      modifies this`groupIndex
      ensures (State(), r) == AfterLookupUUID(old(State()), tenant, role, o)
    {
      var key := IndexKey(tenant, role);
      if key in groupIndex {
        return Some(groupIndex[key]);
      }
      r := LookupRoleByName(tenant, role, o);
    }

    method GetAuthentikGroup(uuid: string, o: Upstream) returns (found: bool)
      modifies this`groupIndex
      ensures found == (!o.getFails && uuid in groups)
      ensures State() == if found then Cached(old(State()), uuid) else old(State())
    {
      if o.getFails || uuid !in groups {
        return false;
      }
      var role := ExtractRoleName(groups[uuid].name);
      if role.Some? {
        groupIndex := groupIndex[IndexKey(groups[uuid].tenant, role.value) := uuid];
      }
      return true;
    }

    /** What GetByID, Update and Delete begin with; GetByID ends with it too. */
    method Resolve(tenant: string, roleId: string, o: Upstream) returns (r: Option<string>)
      modifies this`groupIndex
      ensures (State(), r) == AfterResolve(old(State()), tenant, roleId, o)
    {
      var found := GetAuthentikGroup(roleId, o);
      if found {
        return Some(roleId);
      }
      r := LookupRoleByName(tenant, roleId, o);
    }

    /** `uuid` is the id upstream gives the new group. */
    method Create(tenant: string, role: string, uuid: string, o: Upstream) returns (ok: bool)
      modifies this
      ensures State() == AfterCreate(old(State()), tenant, role, uuid, o)
      ensures ok <==> o.write.Done? && !Taken(old(groups), BuildGroupName(tenant, role), {})
    {
      var name := BuildGroupName(tenant, role);
      if o.write.Refused? || Taken(groups, name, {}) {
        return false;
      }
      groups := groups[uuid := Group(name, tenant)];
      if o.write.ReplyLost? {
        return false;
      }
      groupIndex := groupIndex[IndexKey(tenant, role) := uuid];
      return true;
    }

    method Update(tenant: string, roleId: string, newRole: Option<string>, o: Upstream) returns (ok: bool)
      modifies this
      ensures State() == AfterUpdate(old(State()), tenant, roleId, newRole, o)
      ensures var (v, found) := AfterResolve(old(State()), tenant, roleId, o);
              ok <==> o.write.Done? && found.Some?
                      && !Taken(v.groups, BuildGroupName(tenant, WantedRole(v.groups[found.value], newRole)),
                          {found.value})
    {
      var r := Resolve(tenant, roleId, o);
      if r.None? {
        return false;
      }
      var u := r.value;
      var current := RoleOrEmpty(groups[u].name);
      var wanted := current;
      if newRole.Some? {
        wanted := newRole.value;
      }
      var name := BuildGroupName(tenant, wanted);
      if o.write.Refused? || Taken(groups, name, {u}) {
        return false;
      }
      groups := groups[u := groups[u].(name := name)];
      if o.write.ReplyLost? {
        return false;
      }
      if wanted != current {
        groupIndex := groupIndex - {IndexKey(tenant, current)};
        groupIndex := groupIndex[IndexKey(tenant, wanted) := u];
      }
      return true;
    }

    method Delete(tenant: string, roleId: string, o: Upstream) returns (ok: bool)
      modifies this
      ensures State() == AfterDelete(old(State()), tenant, roleId, o)
      ensures ok <==> o.write.Done? && AfterResolve(old(State()), tenant, roleId, o).1.Some?
    {
      var r := Resolve(tenant, roleId, o);
      if r.None? || o.write.Refused? {
        return false;
      }
      var u := r.value;
      var role := RoleOrEmpty(groups[u].name);
      groups := groups - {u};
      if o.write.ReplyLost? {
        return false;
      }
      groupIndex := groupIndex - {IndexKey(tenant, role)};
      return true;
    }

    method List(tenant: string, o: Upstream)
      modifies this`groupIndex
      ensures State() == AfterListing(old(State()), tenant, o)
    {
      if o.listFails {
        return;
      }
      for i := 0 to |o.listing|
        invariant groups == old(groups)
        invariant AllIndexed(State(), tenant, o.listing[i..]) == AllIndexed(old(State()), tenant, o.listing)
      {
        var u := o.listing[i];
        assert o.listing[i..][1..] == o.listing[i + 1..];
        if u in groups && BuildGroupName(tenant, "") <= groups[u].name {
          var role := ExtractRoleName(groups[u].name);
          if role.Some? {
            groupIndex := groupIndex[IndexKey(tenant, role.value) := u];
          }
        }
      }
    }
  }
}
