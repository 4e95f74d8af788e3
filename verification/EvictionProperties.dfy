/** Whom an eviction takes, what it does to the list, and when evicting until there is room comes to an end. */
module EvictionProperties {
  import opened IdLists
  import opened Sets
  import opened TenantManager

  /** Each cached tenant is listed. */
  ghost predicate Covered<S>(c: Cache<S>) {
    forall id :: id in c.entries ==> id in c.order
  }

  /** The entry that goes is not the head of the list, and the head is a live tenant listed nowhere else. */
  predicate EvictMislays<S>(c: Cache<S>, clock: (int, int) -> int, t: nat) {
    && c.order != []
    && var i := FirstExpired(c, clock, t, 0);
       0 < i < |c.order| && c.order[0] in c.entries && c.order[0] !in c.order[1..]
  }

  /** One eviction keeps the list covering exactly when it does not mislay the head. */
  lemma EvictCoversIff<S>(c: Cache<S>, clock: (int, int) -> int, t: nat)
    requires Covered(c)
    ensures Covered(AfterEvict(c, clock, t)) <==> !EvictMislays(c, clock, t)
  {
    if c.order != [] {
      var i := FirstExpired(c, clock, t, 0);
      FirstExpiredIs(c, clock, t, 0);
      assert c.order == [c.order[0]] + c.order[1..];
      if 0 < i < |c.order| && c.order[0] == c.order[i] { assert c.order[1..][i - 1] == c.order[i]; }
    }
  }

  /** What is expired does not depend on which reading one goes by: as at `now`. */
  ghost predicate Steady<S>(c: Cache<S>, clock: (int, int) -> int, now: int) {
    forall k, i :: Expired(c.entries, clock(k, i)) == Expired(c.entries, now)
  }

  /** The listed tenants that have expired. */
  function Gone<S>(c: Cache<S>, now: int): set<string> {
    Expired(c.entries, now) * Elems(c.order)
  }

  /** The next victim `v` of a list: an expired tenant while one is listed, the head when none is. */
  ghost predicate IsVictim(order: seq<string>, gone: set<string>, v: string) {
    && order != [] && gone <= Elems(order) && gone - {v} <= Elems(order[1..])
    && if gone == {} then v == order[0] else v in gone && exists i: nat :: FirstIn(order, gone, i) && order[i] == v
  }

  ghost predicate FirstIn(order: seq<string>, gone: set<string>, i: nat) {
    i < |order| && order[i] in gone && forall j :: 0 <= j < i ==> order[j] !in gone
  }

  lemma EvictTakes<S>(c: Cache<S>, clock: (int, int) -> int, t: nat, now: int) returns (v: string)
    requires c.order != [] && Steady(c, clock, now)
    ensures IsVictim(c.order, Gone(c, now), v)
    ensures AfterEvict(c, clock, t) == Cache(c.entries - {v}, c.order[1..])
    ensures Gone(AfterEvict(c, clock, t), now) == Gone(c, now) - {v}
    ensures Steady(AfterEvict(c, clock, t), clock, now)
  {
    var i := FirstExpired(c, clock, t, 0);
    FirstExpiredIs(c, clock, t, 0);
    StaleIsGone(c, clock, t, now);
    v := c.order[if i < |c.order| then i else 0];
    FirstIsVictim(c.order, Gone(c, now), i);
    StaysSteady(c, clock, now, v);
    GoneShrinks(c, now, v);
  }

  lemma FirstIsVictim(order: seq<string>, gone: set<string>, i: nat)
    requires order != [] && gone <= Elems(order) && i <= |order| && (i < |order| ==> order[i] in gone)
    requires forall j :: 0 <= j < i ==> order[j] !in gone
    ensures IsVictim(order, gone, order[if i < |order| then i else 0])
  {
    assert order == [order[0]] + order[1..];
    assert i == |order| ==> forall v :: v in order ==> v !in gone;
    if i < |order| {
      assert FirstIn(order, gone, i);
    }
  }

  lemma StaysSteady<S>(c: Cache<S>, clock: (int, int) -> int, now: int, v: string)
    requires Steady(c, clock, now)
    ensures Steady(c.(entries := c.entries - {v}), clock, now)
  {
    forall k, i ensures Expired(c.entries - {v}, clock(k, i)) == Expired(c.entries - {v}, now) {
      assert Expired(c.entries, clock(k, i)) == Expired(c.entries, now);
      assert Expired(c.entries - {v}, clock(k, i)) == Expired(c.entries, clock(k, i)) - {v};
      assert Expired(c.entries - {v}, now) == Expired(c.entries, now) - {v};
    }
  }

  lemma GoneShrinks<S>(c: Cache<S>, now: int, v: string)
    requires IsVictim(c.order, Gone(c, now), v)
    ensures Gone(Cache(c.entries - {v}, c.order[1..]), now) == Gone(c, now) - {v}
  {
  }

  lemma StaleIsGone<S>(c: Cache<S>, clock: (int, int) -> int, t: nat, now: int)
    requires Steady(c, clock, now)
    ensures forall i :: 0 <= i < |c.order| ==> (Stale(c, clock, t, i) <==> c.order[i] in Gone(c, now))
  {
    forall i | 0 <= i < |c.order| ensures Stale(c, clock, t, i) <==> c.order[i] in Gone(c, now) {
      assert Expired(c.entries, clock(t, i)) == Expired(c.entries, now);
    }
  }

  lemma {:induction false} ElemsCount(order: seq<string>)
    ensures |Elems(order)| <= |order|
  {
    if order != [] {
      ElemsCount(order[1..]);
      assert Elems(order) == {order[0]} + Elems(order[1..]);
    }
  }

  function From(order: seq<string>, n: nat): seq<string> {
    if n <= |order| then order[n..] else []
  }

  /** The keys that no number of evictions takes: each of those in `gone` costs the list its head. */
  function Left(keys: set<string>, gone: set<string>, order: seq<string>): set<string> {
    keys - gone - Elems(From(order, |gone|))
  }

  lemma LeftStep(keys: set<string>, gone: set<string>, order: seq<string>, v: string)
    requires IsVictim(order, gone, v)
    ensures Left(keys - {v}, gone - {v}, order[1..]) == Left(keys, gone, order)
  {
    if gone == {} {
      assert order == [v] + order[1..];
      assert Elems(order) == {v} + Elems(order[1..]);
    } else {
      FromLater(order, gone, v);
    }
  }

  /** The tenants that making room never evicts, however long it goes on. */
  function Stranded<S>(c: Cache<S>, now: int): set<string> {
    Left(c.entries.Keys, Gone(c, now), c.order)
  }

  lemma EvictKeepsStranded<S>(c: Cache<S>, clock: (int, int) -> int, t: nat, now: int)
    requires c.order != [] && Steady(c, clock, now)
    ensures var d := AfterEvict(c, clock, t); Stranded(d, now) == Stranded(c, now) && Steady(d, clock, now)
  {
    var v := EvictTakes(c, clock, t, now);
    LeftStep(c.entries.Keys, Gone(c, now), c.order, v);
  }

  lemma MakeRoomOnce<S>(c: Cache<S>, clock: (int, int) -> int, t: nat, limit: int)
    requires OverLimit(c, limit) && c.order != []
    ensures AfterMakeRoom(c, clock, t, limit) == AfterMakeRoom(AfterEvict(c, clock, t), clock, t + 1, limit)
  {
  }

  lemma LastStranded<S>(c: Cache<S>, clock: (int, int) -> int, t: nat, now: int, limit: int)
    requires limit > 0 && (!OverLimit(c, limit) || c.order == [])
    ensures AfterMakeRoom(c, clock, t, limit).Some? <==> |Stranded(c, now)| <= limit
  {
    KeysCount(c.entries);
    if OverLimit(c, limit) {
      assert Stranded(c, now) == c.entries.Keys;
    } else {
      SubsetCount(Stranded(c, now), c.entries.Keys);
    }
  }

  /** Making room ends exactly when the stranded tenants alone are within the limit. */
  lemma {:induction false} MakeRoomSettlesIff<S>(c: Cache<S>, clock: (int, int) -> int, t: nat, now: int, limit: int)
    requires limit > 0 && Steady(c, clock, now)
    ensures AfterMakeRoom(c, clock, t, limit).Some? <==> |Stranded(c, now)| <= limit
    decreases |c.order|
  {
    if !OverLimit(c, limit) || c.order == [] {
      LastStranded(c, clock, t, now, limit);
    } else {
      MakeRoomOnce(c, clock, t, limit);
      EvictKeepsStranded(c, clock, t, now);
      MakeRoomSettlesIff(AfterEvict(c, clock, t), clock, t + 1, now, limit);
    }
  }

  lemma KeysCount<S>(m: map<string, Entry<S>>)
    ensures |m.Keys| == |m|
  {
  }

  // ----- Who goes ------------------------------------------------------------------------------

  /** The members of `ids` in list order, each at its first listing only. */
  function OnceEach(order: seq<string>, ids: set<string>): seq<string> {
    if order == [] then []
    else if order[0] in ids then [order[0]] + OnceEach(order[1..], ids - {order[0]})
    else OnceEach(order[1..], ids)
  }

  /** Who is evicted, in turn: the listed tenants in `gone`, then whom the list has left. */
  function Victims(order: seq<string>, gone: set<string>): seq<string> {
    OnceEach(order, gone) + From(order, |gone|)
  }

  lemma {:induction false} OnceEachFirst(order: seq<string>, ids: set<string>, i: nat)
    requires FirstIn(order, ids, i)
    ensures OnceEach(order, ids) == [order[i]] + OnceEach(order[1..], ids - {order[i]})
    decreases i
  {
    if i > 0 {
      assert order[1..][i - 1] == order[i];
      forall j | 0 <= j < i - 1 ensures order[1..][j] !in ids { assert order[1..][j] == order[j + 1]; }
      OnceEachFirst(order[1..], ids, i - 1);
      OnceEachSkips(order, ids);
      OnceEachSkips(order[1..], ids - {order[i]});
    }
  }

  lemma OnceEachSkips(order: seq<string>, ids: set<string>)
    requires order != [] && order[0] !in ids
    ensures OnceEach(order, ids) == OnceEach(order[1..], ids)
  {
  }

  lemma {:induction false} OnceEachOfNone(order: seq<string>)
    ensures OnceEach(order, {}) == []
  {
    if order != [] { OnceEachOfNone(order[1..]); }
  }

  lemma {:induction false} OnceEachCount(order: seq<string>, ids: set<string>)
    requires ids <= Elems(order)
    ensures |OnceEach(order, ids)| == |ids|
  {
    if order != [] {
      assert order == [order[0]] + order[1..];
      OnceEachCount(order[1..], ids - {order[0]});
      if order[0] !in ids { assert ids - {order[0]} == ids; }
    }
  }

  lemma VictimsCount(order: seq<string>, gone: set<string>)
    requires gone <= Elems(order)
    ensures |Victims(order, gone)| == |order|
  {
    OnceEachCount(order, gone);
    ElemsCount(order);
    SubsetCount(gone, Elems(order));
  }

  lemma VictimsStep(order: seq<string>, gone: set<string>, v: string)
    requires IsVictim(order, gone, v)
    ensures Victims(order, gone) == [v] + Victims(order[1..], gone - {v})
  {
    if gone == {} {
      assert order == [v] + order[1..];
      OnceEachOfNone(order);
      OnceEachOfNone(order[1..]);
    } else {
      FromLater(order, gone, v);
      var i: nat :| FirstIn(order, gone, i) && order[i] == v;
      OnceEachFirst(order, gone, i);
    }
  }

  lemma FromLater(order: seq<string>, gone: set<string>, v: string)
    requires order != [] && v in gone && gone <= Elems(order)
    ensures From(order, |gone|) == From(order[1..], |gone - {v}|)
  {
    ElemsCount(order);
    SubsetCount(gone, Elems(order));
    assert order[|gone|..] == order[1..][|gone| - 1..];
  }

  /** `r` is `c` without the first `j` of `victims`, and one fewer would not have done. */
  ghost predicate Drops<S>(c: Cache<S>, r: Cache<S>, victims: seq<string>, j: nat, limit: int) {
    && j <= |c.order| == |victims|
    && r == Without(c, victims, j) && |r.entries| <= limit
    && (j > 0 ==> |c.entries.Keys - Elems(victims[..j - 1])| > limit)
  }

  function Without<S>(c: Cache<S>, victims: seq<string>, j: nat): Cache<S>
    requires j <= |c.order| == |victims|
  {
    Cache(c.entries - Elems(victims[..j]), c.order[j..])
  }

  /** When making room ends, the expired tenants have gone first, then those listed next, no more than it takes. */
  lemma {:induction false} MakeRoomDropsVictims<S>(c: Cache<S>, clock: (int, int) -> int, t: nat, now: int,
      limit: int) returns (j: nat)
    requires limit > 0 && Steady(c, clock, now) && AfterMakeRoom(c, clock, t, limit).Some?
    ensures Drops(c, AfterMakeRoom(c, clock, t, limit).value, Victims(c.order, Gone(c, now)), j, limit)
    decreases |c.order|
  {
    if OverLimit(c, limit) {
      MakeRoomOnce(c, clock, t, limit);
      var d := AfterEvict(c, clock, t);
      var v := EvictTakes(c, clock, t, now);
      VictimsStep(c.order, Gone(c, now), v);
      var i := MakeRoomDropsVictims(d, clock, t + 1, now, limit);
      DropsOneMore(c, v, d, AfterMakeRoom(c, clock, t, limit).value, Victims(d.order, Gone(d, now)), i, limit);
      j := i + 1;
    } else {
      j := 0;
      VictimsCount(c.order, Gone(c, now));
      WithoutNone(c, Victims(c.order, Gone(c, now)));
    }
  }

  lemma WithoutNone<S>(c: Cache<S>, victims: seq<string>)
    requires |victims| == |c.order|
    ensures Without(c, victims, 0) == c
  {
    assert Elems(victims[..0]) == {};
    assert c.entries - {} == c.entries;
  }

  lemma WithoutOneMore<S>(c: Cache<S>, v: string, d: Cache<S>, victims: seq<string>, i: nat)
    requires c.order != [] && d == Cache(c.entries - {v}, c.order[1..]) && i <= |victims| == |d.order|
    ensures Without(c, [v] + victims, i + 1) == Without(d, victims, i)
  {
    assert ([v] + victims)[..i + 1] == [v] + victims[..i];
    assert Elems([v] + victims[..i]) == {v} + Elems(victims[..i]);
    assert c.entries - ({v} + Elems(victims[..i])) == c.entries - {v} - Elems(victims[..i]);
  }

  lemma DropsOneMore<S>(c: Cache<S>, v: string, d: Cache<S>, r: Cache<S>, victims: seq<string>, i: nat, limit: int)
    requires c.order != [] && |c.entries| > limit && d == Cache(c.entries - {v}, c.order[1..])
            && Drops(d, r, victims, i, limit)
    ensures Drops(c, r, [v] + victims, i + 1, limit)
  {
    WithoutOneMore(c, v, d, victims, i);
    KeysCount(c.entries);
    KeysWithout(c.entries.Keys, v, victims, i);
  }

  lemma KeysWithout(keys: set<string>, v: string, victims: seq<string>, i: nat)
    requires i <= |victims|
    ensures keys - Elems(([v] + victims)[..i]) == if i == 0 then keys else keys - {v} - Elems(victims[..i - 1])
  {
    if i > 0 {
      assert ([v] + victims)[..i] == [v] + victims[..i - 1];
      assert Elems([v] + victims[..i - 1]) == {v} + Elems(victims[..i - 1]);
    }
  }

  /** With nothing expired the victims are the tenants in list order, and only unlisted ones are stranded. */
  lemma NoneExpired<S>(c: Cache<S>, now: int)
    requires Expired(c.entries, now) == {}
    ensures Victims(c.order, Gone(c, now)) == c.order && Stranded(c, now) == c.entries.Keys - Elems(c.order)
  {
    assert Gone(c, now) == {};
    OnceEachOfNone(c.order);
  }

  /** Over the limit, an iteration changes nothing exactly when the list is empty, whatever the time. */
  lemma NothingLeftToEvict<S>(c: Cache<S>, clock: (int, int) -> int, t: nat, limit: int)
    requires OverLimit(c, limit)
    ensures AfterEvict(c, clock, t) == c <==> c.order == []
  {
    if c.order != [] { assert |AfterEvict(c, clock, t).order| < |c.order|; }
  }
}
