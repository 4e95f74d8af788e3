/**
 What each request of the delegation handler does: to the group it is about, to its index entry, and to nothing else.
 */
module DelegationEffects {
  import opened Delegations
  import opened IdLists
  import opened Keys

  /** No group but `u` has the name. */
  ghost predicate NameFree(groups: map<string, Group>, name: string, u: string) {
    forall x :: x in groups && x != u ==> groups[x].name != name
  }

  /** The tables differ at most in the group `u`. */
  ghost predicate OthersStay(before: map<string, Group>, after: map<string, Group>, u: string) {
    forall x :: x != u ==> (x in after <==> x in before) && (x in before ==> after[x] == before[x])
  }

  /** The indexes differ at most in the entries of these keys. */
  ghost predicate EntriesStay(before: map<string, string>, after: map<string, string>, keys: set<string>) {
    forall k :: k !in keys ==> (k in after <==> k in before) && (k in before ==> after[k] == before[k])
  }

  /** The role is found as `u`, without asking upstream. */
  ghost predicate Finds(w: World, tenant: string, role: string, u: string) {
    forall o :: AfterLookupUUID(w, tenant, role, o) == (w, Some(u))
  }

  ghost predicate HasNoEntry(w: World, tenant: string, role: string) {
    tenant + "::" + role !in w.index
  }

  lemma GroupNamesAre(tenant: string, role: string)
    ensures BuildGroupName(tenant, role) == "operan-delegation-" + (tenant + "-" + role)
    ensures IndexKey(tenant, role) == tenant + "::" + role
  {
  }

  lemma RoleOf(tenant: string, role: string)
    requires Free(tenant, '-')
    ensures RoleOrEmpty(BuildGroupName(tenant, role)) == role
           && ExtractRoleName(BuildGroupName(tenant, role)) == Some(role)
  {
    ExtractInvertsBuild(tenant, role);
  }

  lemma KeysDiffer(tenant: string, r1: string, r2: string)
    requires r1 != r2
    ensures IndexKey(tenant, r1) != IndexKey(tenant, r2)
  {
    assert IndexKey(tenant, r1)[|tenant| + 2..] == r1 && IndexKey(tenant, r2)[|tenant| + 2..] == r2;
  }

  /** Fetching a role by uuid indexes it under its own tenant. */
  lemma FetchEffect(w: World, tenant: string, u: string, o: Upstream, owner: string, role: string)
    requires !o.getFails && u in w.groups && w.groups[u] == Group(BuildGroupName(owner, role), owner)
            && Free(owner, '-')
    ensures var (v, found) := AfterResolve(w, tenant, u, o);
            && found == Some(u) && v.groups == w.groups && Finds(v, owner, role, u)
            && EntriesStay(w.index, v.index, {IndexKey(owner, role)})
  {
    RoleOf(owner, role);
  }

  /** Where there is no such uuid, or upstream cannot be asked for it, the first listed group of that name is taken. */
  lemma FindEffect(w: World, tenant: string, role: string, o: Upstream, i: nat)
    requires (o.getFails || role !in w.groups) && !o.listFails && i < |o.listing|
    requires IsNamed(w.groups, o.listing[i], BuildGroupName(tenant, role))
    requires forall j :: 0 <= j < i ==> !IsNamed(w.groups, o.listing[j], BuildGroupName(tenant, role))
    ensures var (v, found) := AfterResolve(w, tenant, role, o); var u := o.listing[i];
            && found == Some(u) && v.groups == w.groups && Finds(v, tenant, role, u)
            && EntriesStay(w.index, v.index, {IndexKey(tenant, role)})
  {
    FirstIs(w.groups, BuildGroupName(tenant, role), o.listing, i);
  }

  lemma {:induction false} FirstIs(groups: map<string, Group>, name: string, listing: seq<string>, i: nat)
    requires i < |listing| && IsNamed(groups, listing[i], name)
    requires forall j :: 0 <= j < i ==> !IsNamed(groups, listing[j], name)
    ensures FirstNamed(groups, name, listing) == Some(listing[i])
    decreases i
  {
    if i > 0 { FirstIs(groups, name, listing[1..], i - 1); }
  }

  /** Nothing found changes nothing. */
  lemma MissEffect(w: World, tenant: string, roleId: string, o: Upstream)
    requires AfterResolve(w, tenant, roleId, o).1.None?
    ensures AfterResolve(w, tenant, roleId, o).0 == w
    ensures (!o.getFails ==> roleId !in w.groups)
    ensures o.listFails || forall u :: u in o.listing ==> !IsNamed(w.groups, u, BuildGroupName(tenant, roleId))
  {
  }

  /** Creating adds one group of the role's name and, when the reply arrives, the entry that finds it. */
  lemma CreateEffect(w: World, tenant: string, role: string, u: string, o: Upstream)
    requires u !in w.groups && NameFree(w.groups, BuildGroupName(tenant, role), u) && !o.write.Refused?
    ensures var d := AfterCreate(w, tenant, role, u, o);
            && u in d.groups && d.groups[u] == Group(BuildGroupName(tenant, role), tenant)
            && OthersStay(w.groups, d.groups, u)
            && (if o.write.Done? then Finds(d, tenant, role, u)
                && EntriesStay(w.index, d.index, {IndexKey(tenant, role)})
                else d.index == w.index)
  {
  }

  /** A name that is taken, or a refusal, changes nothing. */
  lemma CreateRefused(w: World, tenant: string, role: string, u: string, o: Upstream)
    requires o.write.Refused? || !NameFree(w.groups, BuildGroupName(tenant, role), u)
    ensures AfterCreate(w, tenant, role, u, o) == w
  {
    if !o.write.Refused? {
      var x :| x in w.groups && x != u && w.groups[x].name == BuildGroupName(tenant, role);
      assert Taken(w.groups, BuildGroupName(tenant, role), {});
    }
  }

  /** Asked for a new role name, upstream's group gets that name; every other group stays. */
  lemma RenameEffect(w: World, tenant: string, roleId: string, role: string, o: Upstream, u: string)
    requires AfterResolve(w, tenant, roleId, o).1 == Some(u) && !o.write.Refused?
    requires NameFree(w.groups, BuildGroupName(tenant, role), u)
    ensures var d := AfterUpdate(w, tenant, roleId, Some(role), o);
            && u in d.groups && d.groups[u] == Group(BuildGroupName(tenant, role), w.groups[u].tenant)
            && OthersStay(w.groups, d.groups, u)
  {
  }

  /** And when the reply arrives the role is found under its new name and no more under its old one. */
  lemma RenameIndexes(w: World, tenant: string, roleId: string, was: string, role: string, o: Upstream, u: string)
    requires AfterResolve(w, tenant, roleId, o).1 == Some(u) && o.write.Done?
    requires NameFree(w.groups, BuildGroupName(tenant, role), u)
    requires w.groups[u].name == BuildGroupName(tenant, was) && Free(tenant, '-') && was != role
    ensures var v, d := AfterResolve(w, tenant, roleId, o).0, AfterUpdate(w, tenant, roleId, Some(role), o);
            && Finds(d, tenant, role, u) && HasNoEntry(d, tenant, was)
            && EntriesStay(v.index, d.index, {IndexKey(tenant, was), IndexKey(tenant, role)})
  {
    RoleOf(tenant, was);
    KeysDiffer(tenant, was, role);
  }

  /** Not asked for a new name, or for the one it has, an own role keeps name and entry. */
  lemma KeepsName(w: World, tenant: string, roleId: string, was: string, newRole: Option<string>, o: Upstream,
      u: string)
    requires AfterResolve(w, tenant, roleId, o).1 == Some(u) && (newRole == None || newRole == Some(was))
    requires w.groups[u].name == BuildGroupName(tenant, was) && Free(tenant, '-')
    ensures AfterUpdate(w, tenant, roleId, newRole, o) == AfterResolve(w, tenant, roleId, o).0
  {
    RoleOf(tenant, was);
    assert w.groups[u := w.groups[u].(name := BuildGroupName(tenant, was))] == w.groups;
  }

  /** A new name that is taken, a refusal or a lost reply leaves the index as resolving left it. */
  lemma RenameRefused(w: World, tenant: string, roleId: string, role: string, o: Upstream, u: string)
    requires AfterResolve(w, tenant, roleId, o).1 == Some(u)
    ensures var v, d := AfterResolve(w, tenant, roleId, o).0, AfterUpdate(w, tenant, roleId, Some(role), o);
            && (o.write.Refused? || !NameFree(w.groups, BuildGroupName(tenant, role), u) ==> d == v)
            && (o.write.ReplyLost? ==> d.index == v.index)
  {
    if !NameFree(w.groups, BuildGroupName(tenant, role), u) {
      var x :| x in w.groups && x != u && w.groups[x].name == BuildGroupName(tenant, role);
      assert Taken(w.groups, BuildGroupName(tenant, role), {u});
    }
  }

  /** Deleting takes the group away and, when the reply arrives, the entry of an own role; nothing else. */
  lemma DeleteEffect(w: World, tenant: string, roleId: string, was: string, o: Upstream, u: string)
    requires AfterResolve(w, tenant, roleId, o).1 == Some(u) && !o.write.Refused?
    requires w.groups[u].name == BuildGroupName(tenant, was) && Free(tenant, '-')
    ensures var v, d := AfterResolve(w, tenant, roleId, o).0, AfterDelete(w, tenant, roleId, o);
            && u !in d.groups && OthersStay(w.groups, d.groups, u)
            && (if o.write.Done? then HasNoEntry(d, tenant, was)
                && EntriesStay(v.index, d.index, {IndexKey(tenant, was)})
                else d.index == v.index)
  {
    RoleOf(tenant, was);
  }

  lemma DeleteRefused(w: World, tenant: string, roleId: string, o: Upstream)
    requires o.write.Refused?
    ensures AfterDelete(w, tenant, roleId, o) == AfterResolve(w, tenant, roleId, o).0
  {
  }

  /** Entries of other tenants stay. */
  ghost predicate OtherKeysStay(before: map<string, string>, after: map<string, string>, tenant: string) {
    forall k :: !(tenant + "::" <= k) ==> (k in after <==> k in before) && (k in before ==> after[k] == before[k])
  }

  lemma {:induction false} ListKeepsOthers(w: World, tenant: string, listing: seq<string>)
    ensures var v := AllIndexed(w, tenant, listing); v.groups == w.groups && OtherKeysStay(w.index, v.index, tenant)
    decreases |listing|
  {
    if listing != [] {
      var u := listing[0];
      var next := Indexed(w, tenant, u);
      if u in w.groups {
        assert tenant + "::" <= IndexKey(tenant, RoleOrEmpty(w.groups[u].name));
      }
      ListKeepsOthers(next, tenant, listing[1..]);
    }
  }

  /** A role that has its entry keeps it through a listing, its name being its own. */
  lemma {:induction false} ListKeepsEntry(w: World, tenant: string, listing: seq<string>, role: string, u: string)
    requires u in w.groups && w.groups[u].name == BuildGroupName(tenant, role)
            && NameFree(w.groups, w.groups[u].name, u)
    requires Free(tenant, '-') && IndexKey(tenant, role) in w.index && w.index[IndexKey(tenant, role)] == u
    ensures var v := AllIndexed(w, tenant, listing);
            IndexKey(tenant, role) in v.index && v.index[IndexKey(tenant, role)] == u
    decreases |listing|
  {
    if listing != [] {
      IndexedKeepsEntry(w, tenant, listing[0], role, u);
      ListKeepsEntry(Indexed(w, tenant, listing[0]), tenant, listing[1..], role, u);
    }
  }

  lemma IndexedKeepsEntry(w: World, tenant: string, x: string, role: string, u: string)
    requires u in w.groups && w.groups[u].name == BuildGroupName(tenant, role)
            && NameFree(w.groups, w.groups[u].name, u)
    requires Free(tenant, '-')
    ensures var v := Indexed(w, tenant, x);
            && v.groups == w.groups
            && (x == u || (IndexKey(tenant, role) in w.index && w.index[IndexKey(tenant, role)] == u) ==>
                  IndexKey(tenant, role) in v.index && v.index[IndexKey(tenant, role)] == u)
  {
    RoleOf(tenant, role);
    assert BuildGroupName(tenant, "") <= BuildGroupName(tenant, role);
    if x in w.groups && BuildGroupName(tenant, "") <= w.groups[x].name && x != u {
      var rest := w.groups[x].name[|BuildGroupName(tenant, "")|..];
      assert w.groups[x].name == BuildGroupName(tenant, rest);
      RoleOf(tenant, rest);
      KeysDiffer(tenant, rest, role);
    }
  }

  /**
   Listing a tenant's roles finds each that is listed, from then on without upstream, and leaves other tenants
   alone.
   */
  lemma {:induction false} ListEffect(w: World, tenant: string, o: Upstream, role: string, u: string)
    requires !o.listFails && u in o.listing && u in w.groups && w.groups[u].name == BuildGroupName(tenant, role)
    requires NameFree(w.groups, w.groups[u].name, u) && Free(tenant, '-')
    ensures var v := AfterListing(w, tenant, o);
            v.groups == w.groups && Finds(v, tenant, role, u) && OtherKeysStay(w.index, v.index, tenant)
  {
    ListKeepsOthers(w, tenant, o.listing);
    ListsEach(w, tenant, o.listing, role, u);
  }

  lemma {:induction false} ListsEach(w: World, tenant: string, listing: seq<string>, role: string, u: string)
    requires u in listing && u in w.groups && w.groups[u].name == BuildGroupName(tenant, role)
    requires NameFree(w.groups, w.groups[u].name, u) && Free(tenant, '-')
    ensures var v := AllIndexed(w, tenant, listing);
            IndexKey(tenant, role) in v.index && v.index[IndexKey(tenant, role)] == u
    decreases |listing|
  {
    IndexedKeepsEntry(w, tenant, listing[0], role, u);
    if listing[0] == u {
      ListKeepsEntry(Indexed(w, tenant, u), tenant, listing[1..], role, u);
    } else {
      ListsEach(Indexed(w, tenant, listing[0]), tenant, listing[1..], role, u);
    }
  }
}
