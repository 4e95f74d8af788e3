/** What each operation on the cache does to one tenant, and that it leaves the others alone. */
module TenantManagerEffects {
  import opened IdLists
  import opened TenantManager
  import opened TenantManagerProperties

  /** At every time every other tenant is answered as before. */
  ghost predicate OthersAnswered<S>(c: Cache<S>, d: Cache<S>, id: string) {
    forall other, t :: other != id ==> Answer(d, other, t) == Answer(c, other, t)
  }

  /**
   Invalidating forgets the tenant and no other: the others are answered as before and listed as often and in the
   same order; the tenant is listed once less.
   */
  lemma InvalidateEffect<S>(c: Cache<S>, id: string)
    ensures var d := AfterInvalidate(c, id);
            && OthersAnswered(c, d, id) && (forall t :: Answer(d, id, t) == None)
            && Without(d.order, id) == Without(c.order, id) && multiset(d.order) == multiset(c.order) - multiset{id}
  {
    OneListingLess(c.order, id);
  }

  lemma SetupEffect<S>(c: Cache<S>, id: string, e: Entry<S>)
    ensures var d := AfterSetup(c, id, e); OthersAnswered(c, d, id) && Without(d.order, id) == Without(c.order, id)
  {
    AppendedWithout(c.order, id);
  }

  /** Looking up, removing and setting up a tenant leave the others alone. */
  lemma OneTenantEffect<S>(c: Cache<S>, op: Op<S>, ttl: int, limit: int)
    requires op.Setup? || op.Get? || op.Invalidate? || op.Remove?
    ensures var d := Step(c, op, ttl, limit);
           OthersAnswered(c, d, op.id) && Without(d.order, op.id) == Without(c.order, op.id)
  {
    var d := Step(c, op, ttl, limit);
    if d == c {
    } else if op.Setup? {
      assert d == AfterSetup(c, op.id, Entry(op.provisioned.value, op.storedAt + ttl));
      SetupEffect(c, op.id, Entry(op.provisioned.value, op.storedAt + ttl));
    } else {
      assert d == AfterInvalidate(c, op.id);
      InvalidateEffect(c, op.id);
    }
  }

  /** A lookup forgets an expired entry and changes nothing else. */
  lemma GetEffect<S>(c: Cache<S>, id: string, now: int, ttl: int, limit: int)
    ensures var d := Step(c, Get(id, now), ttl, limit);
            if id in c.entries && Answer(c, id, now) == None then d == AfterInvalidate(c, id) else d == c
  {
  }

  /** Cleaning up changes no answer from then on, and none at all of a tenant that is live. */
  lemma CleanupEffect<S>(c: Cache<S>, now: int, id: string, t: int)
    requires t >= now || Answer(c, id, now).Some?
    ensures Answer(AfterCleanup(c, now), id, t) == Answer(c, id, t)
  {
  }

  /** An eviction takes one entry, the first in the list found expired or else the head's; the list loses its head. */
  lemma EvictEffect<S>(c: Cache<S>, clock: (int, int) -> int, t: nat, i: nat)
    requires c.order != [] && i <= |c.order| && (i < |c.order| ==> Stale(c, clock, t, i))
    requires forall j :: 0 <= j < i ==> !Stale(c, clock, t, j)
    ensures var d, v := AfterEvict(c, clock, t), c.order[if i < |c.order| then i else 0];
            SameBut(c.entries, d.entries, v) && v !in d.entries && c.order == [c.order[0]] + d.order
  {
    FirstExpiredIs(c, clock, t, 0);
  }

  /** The operation does not forget an entry of the tenant that is live until `expiry`. */
  predicate Spares<S>(op: Op<S>, id: string, expiry: int) {
    match op
    case Setup(other, now, _, _) => other != id || now <= expiry
    case Get(other, now) => other != id || now <= expiry
    case Invalidate(other, _) => other != id
    case Remove(other, _) => other != id
    case Cleanup(now) => now <= expiry
    case Evict(_, _) => false
    case MakeRoom(_, _) => false
  }

  lemma StepSpares<S>(c: Cache<S>, op: Op<S>, ttl: int, limit: int, id: string)
    requires id in c.entries && Spares(op, id, c.entries[id].expiry)
    ensures var d := Step(c, op, ttl, limit); id in d.entries && d.entries[id] == c.entries[id]
  {
  }

  /** What is stored is answered up to its expiry, while no operation forgets it. */
  lemma {:induction false} StillAnswered<S>(ops: seq<Op<S>>, ttl: int, limit: int, k: nat, j: nat)
    requires k < j <= |ops| && ops[k].Setup? && ops[k].provisioned.Some?
    requires Answer(Steps(ops[..k], ttl, limit), ops[k].id, ops[k].now) == None
    requires forall h :: k < h < j ==> Spares(ops[h], ops[k].id, ops[k].storedAt + ttl)
    ensures var entries, id := Steps(ops[..j], ttl, limit).entries, ops[k].id;
            id in entries && entries[id] == Entry(ops[k].provisioned.value, ops[k].storedAt + ttl)
    ensures forall t :: t <= ops[k].storedAt + ttl ==>
              Answer(Steps(ops[..j], ttl, limit), ops[k].id, t) == ops[k].provisioned
    decreases j
  {
    var before := ops[..j - 1];
    assert ops[..j][..j - 1] == before;
    if k < j - 1 {
      StillAnswered(ops, ttl, limit, k, j - 1);
      StepSpares(Steps(before, ttl, limit), ops[j - 1], ttl, limit, ops[k].id);
    }
  }
}
