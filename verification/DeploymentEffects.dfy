/** What each operation on the deployment store does to one deployment, what to others, and which statuses there are. */
module DeploymentEffects {
  import opened DeploymentProperties
  import opened Deployments
  import opened Fields
  import opened Hydration
  import opened IdLists

  /** The desired state a deployment holds. */
  ghost predicate Desires(s: Store, id: string, document: map<string, string>) {
    && id in s.records
    && if s.records[id].desired.None? then document == map[]
       else s.records[id].desired.value < |s.docs| && document == s.docs[s.records[id].desired.value]
  }

  /** The row says what the record says, with the desired state it holds. */
  ghost predicate Durable(t: Store, id: string) {
    id in t.records && id in t.table && t.table[id].cols == t.records[id].cols && Desires(t, id, t.table[id].desired)
  }

  predicate Completed(c: Columns, newId: string, now: int, n: Columns) {
    && Defaulted(c.id, newId, n.id) && Defaulted(c.status, "pending", n.status)
    && Defaulted(c.strategy, "rolling", n.strategy) && Stamped(c.createdAt, now, n.createdAt) && n.updatedAt == now
    && n == c.(id := n.id, status := n.status, strategy := n.strategy, createdAt := n.createdAt, updatedAt := now)
  }

  lemma Completes(c: Columns, newId: string, now: int)
    ensures Completed(c, newId, now, WithDefaults(c, newId, now))
  {
  }

  /** Creating stores what is given, with a desired state of its own, and leaves the others. */
  lemma CreateEffect(s: Store, c: Columns, desired: Option<Document>, newId: string, now: int, id: string)
    requires id == (if c.id == "" then newId else c.id) && id !in s.table
    ensures var t := AfterCreate(s, c, desired, newId, now);
            && SameBut(s.records, t.records, id) && SameBut(s.table, t.table, id) && s.docs <= t.docs
            && Durable(t, id) && Completed(c, newId, now, t.records[id].cols)
            && Desires(t, id, if desired.Some? then desired.value else map[])
            && (t.records[id].desired.Some? ==> t.records[id].desired.value >= |s.docs|)
  {
    Completes(c, newId, now);
  }

  /** It is listed last under its tenant. */
  lemma CreateLists(s: Store, c: Columns, desired: Option<Document>, newId: string, now: int, id: string)
    requires id == if c.id == "" then newId else c.id
    ensures var t := AfterCreate(s, c, desired, newId, now);
            ListsSameBut(s.byTenant, t.byTenant, id)
                && Ids(t.byTenant, c.tenantId) == Ids(s.byTenant, c.tenantId) + [id]
  {
    AppendLists(s.byTenant, c.tenantId, id);
  }

  predicate TakesColumns(was: Columns, r: PatchRequest, now: int, n: Columns) {
    && Takes(was.name, r.name, n.name) && Takes(was.notes, r.notes, n.notes) && Takes(was.status, r.status, n.status)
    && n == was.(name := n.name, notes := n.notes, status := n.status, updatedAt := now)
  }

  lemma SavedEffect(s: Store, d: Deployment)
    ensures var t := Saved(s, d);
            && SameBut(s.records, t.records, d.cols.id) && SameBut(s.table, t.table, d.cols.id)
            && t.byTenant == s.byTenant && t.docs == s.docs && t.records[d.cols.id] == d
  {
  }

  /** A patch takes what is given and leaves the rest of the columns, and every other record. */
  lemma PatchEffect(s: Store, id: string, r: PatchRequest, now: int)
    requires id in s.records && s.records[id].cols.id == id
    ensures var t := AfterPatch(s, id, r, now);
            && SameBut(s.records, t.records, id) && SameBut(s.table, t.table, id) && t.byTenant == s.byTenant
            && id in t.records && TakesColumns(s.records[id].cols, r, now, t.records[id].cols)
  {
    var t := AfterPatch(s, id, r, now);
    var docs := DocsAfter(s, id, r);
    assert s.(docs := s.docs) == s;
    SavedEffect(s.(docs := docs), t.records[id]);
  }

  /** The desired state is merged key by key, in place where there is one; every other map stays. */
  lemma PatchMerges(s: Store, id: string, r: PatchRequest, now: int, was: Document, n: Document)
    requires Desires(s, id, was) && s.records[id].cols.id == id && Desires(AfterPatch(s, id, r, now), id, n)
    ensures Merges(Some(was), r.desired, Some(n))
    ensures var t, a := AfterPatch(s, id, r, now), s.records[id].desired;
            && |s.docs| <= |t.docs| && (a.Some? ==> t.records[id].desired == a)
            && forall b :: 0 <= b < |s.docs| && Some(b) != a ==> t.docs[b] == s.docs[b]
  {
  }

  lemma PatchDesires(s: Store, id: string, r: PatchRequest, now: int)
    requires id in s.records && s.records[id].cols.id == id && Allocated(s.docs, s.records[id].desired)
    ensures exists n :: Desires(AfterPatch(s, id, r, now), id, n)
  {
    var t := AfterPatch(s, id, r, now);
    assert Desires(t, id, if t.records[id].desired.None? then map[] else t.docs[t.records[id].desired.value]);
  }

  /** Deleting takes the deployment away and leaves the others, with all maps. */
  lemma DeleteEffect(s: Store, id: string)
    requires id in s.records
    ensures var t, tenantId := AfterDelete(s, id), s.records[id].cols.tenantId;
            && SameBut(s.records, t.records, id) && SameBut(s.table, t.table, id) && t.docs == s.docs
            && id !in t.records && id !in t.table && ListsSameBut(s.byTenant, t.byTenant, id)
            && multiset(Ids(t.byTenant, tenantId)) == multiset(Ids(s.byTenant, tenantId)) - multiset{id}
  {
    DropLists(s.byTenant, s.records[id].cols.tenantId, id);
  }

  /** A rollback of `original` to `prev`. */
  predicate RollsBack(original: Deployment, prev: Deployment, createdBy: string, newId: string, now: int,
      n: Deployment) {
    && n.cols.id == newId && n.cols.previousId == Some(original.cols.id)
    && n.cols.tenantId == original.cols.tenantId && n.cols.namespaceId == original.cols.namespaceId
    && n.cols.name == original.cols.name + "-rollback"
    && n.cols.version == prev.cols.version && n.cols.manifest == prev.cols.manifest && n.cols.refs == prev.cols.refs
    && n.desired == prev.desired
    && n.cols.status == "pending" && n.cols.strategy == "recreate" && n.cols.createdBy == createdBy
    && n.cols.notes == "Rollback from " + original.cols.version + " to " + prev.cols.version
    && n.cols.current == map[] && n.cols.error == "" && n.cols.createdAt == now && n.cols.updatedAt == now
    && n.cols.deployedAt.None? && n.cols.deprecatedAt.None?
  }

  /** Rolling back adds one deployment, holding its predecessor's map, and changes none that is there. */
  lemma RollbackEffect(s: Store, id: string, createdBy: string, newId: string, now: int)
    requires newId !in s.table
    ensures var t := AfterRollback(s, id, createdBy, newId, now);
            if id !in s.records || s.records[id].cols.previousId.None?
                || s.records[id].cols.previousId.value !in s.records
            then t == s
            else
              && SameBut(s.records, t.records, newId) && SameBut(s.table, t.table, newId) && t.docs == s.docs
              && newId in t.records && newId in t.table && t.table[newId].cols == t.records[newId].cols
              && var original := s.records[id];
                 RollsBack(original, s.records[original.cols.previousId.value], createdBy, newId, now, t.records[newId])
  {
  }

  lemma RollbackLists(s: Store, id: string, createdBy: string, newId: string, now: int)
    requires CanRollback(s, id)
    ensures var t, tenantId := AfterRollback(s, id, createdBy, newId, now), s.records[id].cols.tenantId;
            ListsSameBut(s.byTenant, t.byTenant, newId)
                && Ids(t.byTenant, tenantId) == Ids(s.byTenant, tenantId) + [newId]
  {
    AppendLists(s.byTenant, s.records[id].cols.tenantId, newId);
  }

  // ----- Statuses ------------------------------------------------------------------------------

  /** Where each status can be entered from. */
  lemma EnteredFrom(from: string, to: string)
    ensures CanTransition(from, to) <==>
              || (to == "provisioning" && from == "pending")
              || (to == "running" && from in {"provisioning", "rolling_back"})
              || (to == "rolling_back" && from == "running")
              || (to == "pending" && from in {"error", "stopped"})
              || (to == "stopped" && from in {"pending", "provisioning", "running", "rolling_back", "error"})
              || (to == "error" && from in {"pending", "provisioning", "running", "rolling_back"})
              || (to == "deprecated" && from in {"running", "error", "stopped"})
  {
  }

  predicate Arrived(was: Columns, to: string, notes: Option<string>, now: int, n: Columns) {
    && n.status == to && n.updatedAt == now && Takes(was.notes, if notes.Some? then notes.value else "", n.notes)
    && n.deployedAt == (if to == "running" then Some(now) else was.deployedAt)
    && n == was.(status := n.status, notes := n.notes, deployedAt := n.deployedAt, updatedAt := n.updatedAt)
  }

  /** A transition moves the status if the table allows it, and changes nothing else; else it changes nothing at all. */
  lemma TransitionEffect(s: Store, id: string, to: string, notes: Option<string>, now: int)
    requires id in s.records && s.records[id].cols.id == id
    ensures var t := AfterTransition(s, id, to, notes, now);
            if !CanTransition(s.records[id].cols.status, to) then t == s
            else
              && SameBut(s.records, t.records, id) && SameBut(s.table, t.table, id)
              && t.byTenant == s.byTenant && t.docs == s.docs
              && id in t.records && t.records[id].desired == s.records[id].desired
              && Arrived(s.records[id].cols, to, notes, now, t.records[id].cols)
              && id in t.table && t.table[id].cols.status == to
  {
  }

  /** Deprecating does so from any status. */
  lemma DeprecateEffect(s: Store, id: string, now: int)
    requires id in s.records && s.records[id].cols.id == id
    ensures var t := AfterDeprecate(s, id, now);
            && SameBut(s.records, t.records, id) && SameBut(s.table, t.table, id)
            && t.byTenant == s.byTenant && t.docs == s.docs
            && id in t.records && t.records[id].desired == s.records[id].desired
            && t.records[id].cols
               == s.records[id].cols.(status := "deprecated", deprecatedAt := Some(now), updatedAt := now)
            && id in t.table && t.table[id].cols.status == "deprecated"
  {
  }

  /** An id that is not there changes nothing. */
  lemma UnknownEffect(s: Store, id: string, r: PatchRequest, to: string, notes: Option<string>, now: int)
    requires id !in s.records
    ensures AfterPatch(s, id, r, now) == s && AfterDelete(s, id) == s
    ensures AfterTransition(s, id, to, notes, now) == s && AfterDeprecate(s, id, now) == s
  {
  }

  ghost predicate Reaches(from: string, to: string, steps: nat)
    decreases steps
  {
    if steps == 0 then from == to else exists via :: CanTransition(from, via) && Reaches(via, to, steps - 1)
  }

  predicate Known(status: string) {
    status in {"pending", "provisioning", "running", "rolling_back", "error", "stopped", "deprecated"}
  }

  lemma OneStep(from: string, via: string, to: string, steps: nat)
    requires CanTransition(from, via) && Reaches(via, to, steps)
    ensures Reaches(from, to, steps + 1)
  {
  }

  lemma FromPending(to: string) returns (steps: nat)
    requires Known(to)
    ensures Reaches("pending", to, steps)
  {
    assert Reaches(to, to, 0);
    if to == "pending" {
      steps := 0;
    } else if to in {"provisioning", "error", "stopped"} {
      OneStep("pending", to, to, 0);
      steps := 1;
    } else if to == "deprecated" {
      OneStep("stopped", to, to, 0);
      OneStep("pending", "stopped", to, 1);
      steps := 2;
    } else {
      var last := if to == "running" then 0 else 1;
      if to == "rolling_back" { OneStep("running", to, to, 0); }
      OneStep("provisioning", "running", to, last);
      OneStep("pending", "provisioning", to, last + 1);
      steps := last + 2;
    }
  }

  lemma {:induction false} ReachedIsKnown(from: string, to: string, steps: nat)
    requires Reaches(from, to, steps)
    ensures from == to || (Known(from) && from != "deprecated" && Known(to))
    decreases steps
  {
    if steps > 0 {
      var via :| CanTransition(from, via) && Reaches(via, to, steps - 1);
      ReachedIsKnown(via, to, steps - 1);
    }
  }

  /** By transitions every status but deprecated leads to every other; deprecated leads nowhere. */
  lemma ReachesIff(from: string, to: string)
    ensures (exists steps :: Reaches(from, to, steps))
           <==> from == to || (Known(from) && from != "deprecated" && Known(to))
  {
    if steps :| Reaches(from, to, steps) { ReachedIsKnown(from, to, steps); }
    if from == to {
      assert Reaches(from, to, 0);
    } else if Known(from) && from != "deprecated" && Known(to) {
      var steps := FromPending(to);
      if from == "pending" {
        assert Reaches(from, to, steps);
      } else if from in {"error", "stopped"} {
        OneStep(from, "pending", to, steps);
        assert Reaches(from, to, steps + 1);
      } else {
        OneStep("stopped", "pending", to, steps);
        OneStep(from, "stopped", to, steps + 1);
        assert Reaches(from, to, steps + 2);
      }
    }
  }

  /** What the store offers besides patches of the status: Deploy asks for running, Stop for stopped. */
  predicate Offered(op: Op, id: string) {
    && (op.Transition? ==> op.to in {"running", "stopped"} && op.notes.None?)
    && (op.Patch? && op.id == id ==> op.r.status == "")
  }

  predicate Idle(status: string) {
    status in {"pending", "stopped", "deprecated"}
  }

  predicate IdleAt(s: Store, id: string) {
    id in s.records && id in s.table && s.table[id].cols.status == s.records[id].cols.status
    && Idle(s.records[id].cols.status)
  }

  lemma OthersKeepIdle(s: Store, t: Store, other: string, id: string)
    requires IdleAt(s, id) && other != id && SameBut(s.records, t.records, other) && SameBut(s.table, t.table, other)
    ensures IdleAt(t, id)
  {
    assert id in s.records - {other} && id in s.table - {other};
    assert id in t.records - {other} && id in t.table - {other};
    assert t.records[id] == (t.records - {other})[id] && t.table[id] == (t.table - {other})[id];
  }

  lemma PatchKeepsIdle(s: Store, other: string, r: PatchRequest, now: int, id: string)
    requires Coherent(s) && IdleAt(s, id) && (other == id ==> r.status == "")
    ensures IdleAt(AfterPatch(s, other, r, now), id)
  {
    if other in s.records {
      PatchEffect(s, other, r, now);
      if other != id { OthersKeepIdle(s, AfterPatch(s, other, r, now), other, id); }
    }
  }

  lemma TransitionKeepsIdle(s: Store, other: string, to: string, notes: Option<string>, now: int, id: string)
    requires Coherent(s) && IdleAt(s, id) && to in {"running", "stopped"}
    ensures IdleAt(AfterTransition(s, other, to, notes, now), id)
  {
    if other in s.records {
      TransitionEffect(s, other, to, notes, now);
      EnteredFrom(s.records[other].cols.status, to);
      if other != id && CanTransition(s.records[other].cols.status, to) {
        OthersKeepIdle(s, AfterTransition(s, other, to, notes, now), other, id);
      }
    }
  }

  lemma DeprecateKeepsIdle(s: Store, other: string, now: int, id: string)
    requires Coherent(s) && IdleAt(s, id)
    ensures IdleAt(AfterDeprecate(s, other, now), id)
  {
    if other in s.records {
      DeprecateEffect(s, other, now);
      if other != id { OthersKeepIdle(s, AfterDeprecate(s, other, now), other, id); }
    }
  }

  lemma CreateKeepsIdle(s: Store, c: Columns, desired: Option<Document>, newId: string, now: int, id: string)
    requires IdleAt(s, id) && WithDefaults(c, newId, now).id !in s.table
    ensures IdleAt(AfterCreate(s, c, desired, newId, now), id)
  {
    var other := WithDefaults(c, newId, now).id;
    CreateEffect(s, c, desired, newId, now, other);
    OthersKeepIdle(s, AfterCreate(s, c, desired, newId, now), other, id);
  }

  lemma RollbackKeepsIdle(s: Store, other: string, createdBy: string, newId: string, now: int, id: string)
    requires IdleAt(s, id) && newId !in s.table
    ensures IdleAt(AfterRollback(s, other, createdBy, newId, now), id)
  {
    RollbackEffect(s, other, createdBy, newId, now);
    if CanRollback(s, other) { OthersKeepIdle(s, AfterRollback(s, other, createdBy, newId, now), newId, id); }
  }

  lemma RestartKeepsIdle(s: Store, rows: seq<Row>, id: string)
    requires Enumerates(rows, s.table, RowId) && IdleAt(s, id)
    ensures IdleAt(Restarted(s, rows), id)
  {
    RestartIsRows(s, rows);
    var t := Restarted(s, rows);
    assert Rows(t)[id].cols == t.records[id].cols;
  }

  lemma OfferedKeepsIdle(h: History, op: Op, id: string)
    requires Sound(h) && Admissible(h, op) && Offered(op, id) && IdleAt(h.store, id)
    requires id in Apply(h.store, op).records
    ensures IdleAt(Apply(h.store, op), id)
  {
    var s := h.store;
    match op
    case Create(c, desired, newId, now) =>
      CreateKeepsIdle(s, c, desired, newId, now, id);
    case Patch(other, r, now) =>
      PatchKeepsIdle(s, other, r, now, id);
    case Delete(other) =>
      if other in s.records && other != id {
        DeleteEffect(s, other);
        OthersKeepIdle(s, AfterDelete(s, other), other, id);
      }
    case Rollback(other, createdBy, newId, now) =>
      RollbackKeepsIdle(s, other, createdBy, newId, now, id);
    case Transition(other, to, notes, now) =>
      TransitionKeepsIdle(s, other, to, notes, now, id);
    case Deprecate(other, now) =>
      DeprecateKeepsIdle(s, other, now, id);
    case Restart(rows) =>
      RestartKeepsIdle(s, rows, id);
  }

  /**
   A deployment that is pending, stopped or deprecated never runs unless a patch sets its status: Deploy changes
   nothing.
   */
  lemma {:induction false} NeverRuns(hs: seq<History>, ops: seq<Op>, id: string, i: nat, j: nat, now: int)
    requires IsRun(hs, ops) && i <= j < |hs| && forall k :: i <= k <= j ==> id in hs[k].store.records
    requires forall k :: i <= k < j ==> Offered(ops[k], id)
    requires IdleAt(hs[i].store, id)
    ensures IdleAt(hs[j].store, id) && AfterTransition(hs[j].store, id, "running", None, now) == hs[j].store
    decreases j
  {
    if i < j {
      var k := j - 1;
      NeverRuns(hs, ops, id, i, k, now);
      AlwaysOrdered(hs, ops, k);
      RunStep(hs, ops, k);
      assert Offered(ops[k], id) && id in hs[k + 1].store.records;
      OfferedKeepsIdle(hs[k], ops[k], id);
    }
    EnteredFrom(hs[j].store.records[id].cols.status, "running");
  }
}
