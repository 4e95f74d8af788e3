/** Lists of ids, and indexes from a key to the list of ids that have it, as all the stores keep them. */
module IdLists {

  datatype Option<T> = None | Some(value: T)

  /** The list without its first occurrence of `id`. */
  function RemoveFirst(ids: seq<string>, id: string): seq<string> {
    if ids == [] then [] else if ids[0] == id then ids[1..] else [ids[0]] + RemoveFirst(ids[1..], id)
  }

  lemma {:induction false} RemoveFirstAt(ids: seq<string>, id: string, i: nat)
    requires i <= |ids| && id !in ids[..i] && (i < |ids| ==> ids[i] == id)
    ensures RemoveFirst(ids, id) == if i < |ids| then ids[..i] + ids[i + 1..] else ids
    decreases i
  {
    if i > 0 {
      assert ids[..i][0] == ids[0];
      assert ids[1..][..i - 1] == ids[..i][1..];
      RemoveFirstAt(ids[1..], id, i - 1);
    }
  }

  lemma {:induction false} RemoveFirstKeepsOthers(ids: seq<string>, id: string, other: string)
    requires other != id
    ensures other in RemoveFirst(ids, id) <==> other in ids
  {
    if ids != [] && ids[0] != id {
      RemoveFirstKeepsOthers(ids[1..], id, other);
    }
  }

  ghost predicate NoDuplicates(ids: seq<string>) {
    forall i, j :: 0 <= i < j < |ids| ==> ids[i] != ids[j]
  }

  lemma {:induction false} RemoveFirstNoDuplicates(ids: seq<string>, id: string)
    requires NoDuplicates(ids)
    ensures NoDuplicates(RemoveFirst(ids, id)) && id !in RemoveFirst(ids, id)
  {
    if ids != [] {
      assert forall k :: 0 <= k < |ids| - 1 ==> ids[1..][k] == ids[k + 1];
      if ids[0] == id {
        assert id !in ids[1..];
      } else {
        RemoveFirstNoDuplicates(ids[1..], id);
        RemoveFirstKeepsOthers(ids[1..], id, ids[0]);
        assert ids[0] !in ids[1..];
      }
    }
  }

  /** Drops the first occurrence of an id from a list. */
  method DropFirst(ids: seq<string>, id: string) returns (rest: seq<string>)
    ensures rest == RemoveFirst(ids, id)
  {
    for i := 0 to |ids|
      invariant id !in ids[..i]
    {
      if ids[i] == id {
        RemoveFirstAt(ids, id, i);
        return ids[..i] + ids[i + 1..];
      }
    }
    RemoveFirstAt(ids, id, |ids|);
    return ids;
  }

  type Index = map<string, seq<string>>

  function Ids(ix: Index, key: string): seq<string> {
    if key in ix then ix[key] else []
  }

  function Append(ix: Index, key: string, id: string): Index {
    ix[key := Ids(ix, key) + [id]]
  }

  function Drop(ix: Index, key: string, id: string): Index {
    if key in ix then ix[key := RemoveFirst(ix[key], id)] else ix
  }

  method DropFrom(ix: Index, key: string, id: string) returns (after: Index)
    ensures after == Drop(ix, key, id)
  {
    if key in ix {
      var rest := DropFirst(ix[key], id);
      return ix[key := rest];
    }
    return ix;
  }

  /** Under each key, without duplicates, exactly the ids that have it. */
  ghost predicate Indexes(ix: Index, keyOf: map<string, string>) {
    forall key :: ListsExactly(Ids(ix, key), keyOf, key)
  }

  ghost predicate ListsExactly(ids: seq<string>, keyOf: map<string, string>, key: string) {
    NoDuplicates(ids) && forall id :: id in ids <==> id in keyOf && keyOf[id] == key
  }

  /** Appending keeps an index right exactly when the id is new. */
  lemma AppendIndexesIff(ix: Index, keyOf: map<string, string>, key: string, id: string)
    requires Indexes(ix, keyOf)
    ensures Indexes(Append(ix, key, id), keyOf[id := key]) <==> id !in keyOf
  {
    var after := Append(ix, key, id);
    assert ListsExactly(Ids(ix, key), keyOf, key);
    if id !in keyOf {
      forall k ensures ListsExactly(Ids(after, k), keyOf[id := key], k) {
        assert ListsExactly(Ids(ix, k), keyOf, k);
      }
    } else if keyOf[id] == key {
      var i :| 0 <= i < |Ids(ix, key)| && Ids(ix, key)[i] == id;
      assert Ids(after, key)[i] == Ids(after, key)[|Ids(ix, key)|];
      assert !ListsExactly(Ids(after, key), keyOf[id := key], key);
    } else {
      assert ListsExactly(Ids(ix, keyOf[id]), keyOf, keyOf[id]);
      assert !ListsExactly(Ids(after, keyOf[id]), keyOf[id := key], keyOf[id]);
    }
  }

  lemma DropIndexes(ix: Index, keyOf: map<string, string>, id: string)
    requires Indexes(ix, keyOf) && id in keyOf
    ensures Indexes(Drop(ix, keyOf[id], id), keyOf - {id})
  {
    var key := keyOf[id];
    forall k ensures ListsExactly(Ids(Drop(ix, key, id), k), keyOf - {id}, k) {
      assert ListsExactly(Ids(ix, k), keyOf, k);
      if k == key {
        RemoveFirstNoDuplicates(Ids(ix, key), id);
        forall other | other != id ensures other in RemoveFirst(Ids(ix, key), id) <==> other in Ids(ix, key) {
          RemoveFirstKeepsOthers(Ids(ix, key), id, other);
        }
      }
    }
  }

  lemma NothingIndexed()
    ensures Indexes(map[], map[])
  {
    forall key ensures ListsExactly(Ids(map[], key), map[], key) {
    }
  }

  /** Two right indexes of the same ids hold the same ids under every key. */
  lemma SameContents(ix1: Index, ix2: Index, keyOf: map<string, string>, key: string)
    requires Indexes(ix1, keyOf) && Indexes(ix2, keyOf)
    ensures multiset(Ids(ix1, key)) == multiset(Ids(ix2, key))
  {
    assert ListsExactly(Ids(ix1, key), keyOf, key) && ListsExactly(Ids(ix2, key), keyOf, key);
    Counts(Ids(ix1, key));
    Counts(Ids(ix2, key));
  }

  lemma {:induction false} Counts(ids: seq<string>)
    requires NoDuplicates(ids)
    ensures forall id :: multiset(ids)[id] == if id in ids then 1 else 0
  {
    if ids != [] {
      assert ids == [ids[0]] + ids[1..];
      assert forall k :: 0 <= k < |ids| - 1 ==> ids[1..][k] == ids[k + 1];
      Counts(ids[1..]);
    }
  }

  // ----- What stays ----------------------------------------------------------------------------

  /** The list without an id, wherever it stands. */
  function Without(order: seq<string>, id: string): seq<string> {
    if order == [] then [] else (if order[0] == id then [] else [order[0]]) + Without(order[1..], id)
  }

  lemma {:induction false} OneListingLess(order: seq<string>, id: string)
    ensures Without(RemoveFirst(order, id), id) == Without(order, id)
    ensures multiset(RemoveFirst(order, id)) == multiset(order) - multiset{id}
  {
    if order != [] && order[0] == id {
      assert order == [id] + order[1..];
    } else if order != [] {
      OneListingLess(order[1..], id);
      assert order == [order[0]] + order[1..];
      assert RemoveFirst(order, id)[1..] == RemoveFirst(order[1..], id);
    }
  }

  lemma {:induction false} AppendedWithout(order: seq<string>, id: string)
    ensures Without(order + [id], id) == Without(order, id)
  {
    if order != [] {
      AppendedWithout(order[1..], id);
      assert (order + [id])[1..] == order[1..] + [id];
    }
  }

  /** All but `id` is listed under every key as it was: as often, and in the same order. */
  ghost predicate ListsSameBut(before: Index, after: Index, id: string) {
    forall key :: Without(Ids(after, key), id) == Without(Ids(before, key), id)
  }

  /** Appending lists the id last under the key, and changes no other list. */
  lemma AppendLists(ix: Index, key: string, id: string)
    ensures var after := Append(ix, key, id);
            && ListsSameBut(ix, after, id) && Ids(after, key) == Ids(ix, key) + [id]
            && forall other :: other != key ==> Ids(after, other) == Ids(ix, other)
  {
    AppendedWithout(Ids(ix, key), id);
  }

  lemma DropAt(ix: Index, key: string, id: string, other: string)
    ensures Ids(Drop(ix, key, id), other) == if other == key then RemoveFirst(Ids(ix, key), id) else Ids(ix, other)
  {
  }

  /** Dropping lists the id once less under the key, and changes no other list. */
  lemma DropLists(ix: Index, key: string, id: string)
    ensures ListsSameBut(ix, Drop(ix, key, id), id)
    ensures multiset(Ids(Drop(ix, key, id), key)) == multiset(Ids(ix, key)) - multiset{id}
    ensures forall other :: other != key ==> Ids(Drop(ix, key, id), other) == Ids(ix, other)
  {
    OneListingLess(Ids(ix, key), id);
    DropAt(ix, key, id, key);
    forall other ensures Without(Ids(Drop(ix, key, id), other), id) == Without(Ids(ix, other), id) {
      DropAt(ix, key, id, other);
    }
  }

  /** The maps differ at most in what they hold under `id`. */
  ghost predicate SameBut<T>(before: map<string, T>, after: map<string, T>, id: string) {
    after - {id} == before - {id}
  }
}
