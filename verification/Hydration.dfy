/** Loading a table into a store at boot: the records by id, and an index of the ids by some key. */
module Hydration {
  import opened IdLists

  function LoadInto<R, T>(records: map<string, T>, rows: seq<R>, id: R -> string, of: R -> T): map<string, T>
    decreases |rows|
  {
    if rows == [] then records
    else
      var r := rows[|rows| - 1];
      LoadInto(records, rows[..|rows| - 1], id, of)[id(r) := of(r)]
  }

  function IndexInto<R>(ix: Index, rows: seq<R>, id: R -> string, key: R -> string): Index
    decreases |rows|
  {
    if rows == [] then ix
    else
      var r := rows[|rows| - 1];
      Append(IndexInto(ix, rows[..|rows| - 1], id, key), key(r), id(r))
  }

  /** Loading one more row. */
  lemma LoadStep<R, T>(records: map<string, T>, rows: seq<R>, i: nat, id: R -> string, of: R -> T)
    requires i < |rows|
    ensures LoadInto(records, rows[..i + 1], id, of) == LoadInto(records, rows[..i], id, of)[id(rows[i]) := of(rows[i])]
  {
    assert rows[..i + 1][..i] == rows[..i];
  }

  lemma IndexStep<R>(ix: Index, rows: seq<R>, i: nat, id: R -> string, key: R -> string)
    requires i < |rows|
    ensures IndexInto(ix, rows[..i + 1], id, key)
           == Append(IndexInto(ix, rows[..i], id, key), key(rows[i]), id(rows[i]))
  {
    assert rows[..i + 1][..i] == rows[..i];
  }

  /** Every row of the table, once, in whatever order it is read. */
  ghost predicate Enumerates<R>(rows: seq<R>, table: map<string, R>, id: R -> string) {
    && (forall i, j :: 0 <= i < j < |rows| ==> id(rows[i]) != id(rows[j]))
    && (forall i :: 0 <= i < |rows| ==> id(rows[i]) in table && table[id(rows[i])] == rows[i])
    && (forall k :: k in table ==> exists i :: 0 <= i < |rows| && id(rows[i]) == k)
  }

  function KeysOf<R>(table: map<string, R>, key: R -> string): map<string, string> {
    map k | k in table :: key(table[k])
  }

  lemma {:induction false} Removing<R>(rows: seq<R>, table: map<string, R>, id: R -> string)
    requires rows != [] && Enumerates(rows, table, id)
    ensures var n := |rows| - 1; Enumerates(rows[..n], table - {id(rows[n])}, id)
  {
    var n := |rows| - 1;
    var fewer := rows[..n];
    assert forall i :: 0 <= i < n ==> fewer[i] == rows[i];
    forall k | k in table - {id(rows[n])} ensures exists i :: 0 <= i < n && id(fewer[i]) == k {
      var i :| 0 <= i < |rows| && id(rows[i]) == k;
      assert i < n && id(fewer[i]) == k;
    }
  }

  /** Reading the whole table into an empty store gives each row's record, */
  lemma {:induction false} Loaded<R, T>(rows: seq<R>, table: map<string, R>, id: R -> string, of: R -> T)
    requires Enumerates(rows, table, id)
    ensures LoadInto(map[], rows, id, of) == map k | k in table :: of(table[k])
    decreases |rows|
  {
    if rows == [] {
      assert table.Keys == {};
    } else {
      var n := |rows| - 1;
      Removing(rows, table, id);
      Loaded(rows[..n], table - {id(rows[n])}, id, of);
      PutBack(table, id(rows[n]), of);
    }
  }

  lemma PutBack<R, T>(table: map<string, R>, k: string, of: R -> T)
    requires k in table
    ensures (map j | j in table :: of(table[j]))
           == (map j | j in table - {k} :: of((table - {k})[j]))[k := of(table[k])]
  {
  }

  /** and a right index. */
  lemma {:induction false} Indexed<R>(rows: seq<R>, table: map<string, R>, id: R -> string, key: R -> string)
    requires Enumerates(rows, table, id)
    ensures Indexes(IndexInto(map[], rows, id, key), KeysOf(table, key))
    decreases |rows|
  {
    if rows == [] {
      NothingIndexed();
      assert KeysOf(table, key) == map[];
    } else {
      var n := |rows| - 1;
      var r := rows[n];
      var before := table - {id(r)};
      Removing(rows, table, id);
      Indexed(rows[..n], before, id, key);
      AppendIndexesIff(IndexInto(map[], rows[..n], id, key), KeysOf(before, key), key(r), id(r));
      assert KeysOf(table, key) == KeysOf(before, key)[id(r) := key(r)];
    }
  }
}
