/** The migration runner: one transaction per migration, recorded by version, retried at every boot. */
module Migrations {
  import opened IdLists
  import opened Sets
  import opened SqlLexer
  import SqlSplitter
  import opened SqlStatements

  datatype Migration = Migration(version: int, name: string, sql: string)

  /** What committing a transaction can come to; with `ReplyLost` it is committed but reported as failed. */
  datatype CommitOutcome = Committed | RolledBack | ReplyLost

  /**
   What goes wrong during one boot. `delivered` says which recorded versions the boot gets to see: the
   runner does not ask whether reading the rows ended early. The other fields are indexed by the position
   of the migration and, for `exec`, by the statement in it.
   */
  datatype Faults = Faults(
    setup: bool,
    delivered: int -> bool,
    begin: nat -> bool,
    exec: (nat, nat) -> bool,
    record: nat -> bool,
    commit: nat -> CommitOutcome)

  /** The committed transactions, as the statements each executed, and the rows of schema_migrations. */
  datatype Schema = Schema(history: seq<seq<string>>, versions: set<int>)

  function TrimAll(statements: seq<string>): seq<string> {
    if statements == [] then []
    else (if TrimSpace(statements[0]) == "" then [] else [TrimSpace(statements[0])]) + TrimAll(statements[1..])
  }

  /** The statements a migration executes. */
  function Statements(sql: string): seq<string> {
    TrimAll(Split(sql))
  }

  ghost predicate TransactionFails(db: Schema, m: Migration, k: nat, f: Faults) {
    || f.begin(k)
    || (exists j :: 0 <= j < |Statements(m.sql)| && f.exec(k, j))
    || f.record(k)
    || m.version in db.versions    // version is the primary key
  }

  ghost function AfterApply(db: Schema, m: Migration, k: nat, f: Faults): Schema {
    if TransactionFails(db, m, k, f) || f.commit(k).RolledBack? then db
    else Schema(db.history + [Statements(m.sql)], db.versions + {m.version})
  }

  ghost predicate ApplyReported(db: Schema, m: Migration, k: nat, f: Faults) {
    !TransactionFails(db, m, k, f) && f.commit(k).Committed?
  }

  /** The rest of a boot, from the `k`-th migration on, `applied` being the versions it saw recorded. */
  ghost function BootFrom(db: Schema, ms: seq<Migration>, k: nat, applied: set<int>, f: Faults): (Schema, bool)
    requires k <= |ms|
    decreases |ms| - k
  {
    if k == |ms| then (db, true)
    else if ms[k].version in applied then BootFrom(db, ms, k + 1, applied, f)
    else if ApplyReported(db, ms[k], k, f) then BootFrom(AfterApply(db, ms[k], k, f), ms, k + 1, applied, f)
    else (AfterApply(db, ms[k], k, f), false)
  }

  ghost function Seen(db: Schema, f: Faults): set<int> {
    set v | v in db.versions && f.delivered(v)
  }

  ghost function Boot(db: Schema, ms: seq<Migration>, f: Faults): (Schema, bool) {
    if f.setup then (db, false) else BootFrom(db, ms, 0, Seen(db, f), f)
  }

  lemma NotEmpty(s: set<int>)
    requires s != {}
    ensures exists v :: v in s
  {
    assert (forall v :: v !in s) ==> s == {};
  }

  /** A migration executes every statement of its script, trimmed, and nothing else. */
  lemma StatementsAre(sql: string)
    ensures |Statements(sql)| == |Split(sql)|
    ensures forall i :: 0 <= i < |Split(sql)| ==> Statements(sql)[i] == TrimSpace(Split(sql)[i])
  {
    NoneBlank(Segments(Start, sql));
    TrimsEach(Split(sql));
  }

  lemma {:induction false} TrimsEach(statements: seq<string>)
    requires forall p :: p in statements ==> !IsBlank(p)
    ensures |TrimAll(statements)| == |statements|
    ensures forall i :: 0 <= i < |statements| ==> TrimAll(statements)[i] == TrimSpace(statements[i])
  {
    if statements != [] {
      TrimsEach(statements[1..]);
      assert statements[0] in statements;
      assert TrimAll(statements) == [TrimSpace(statements[0])] + TrimAll(statements[1..]);
    }
  }

  lemma {:induction false} TrimAllPlaces(statements: seq<string>, from: nat)
    requires from <= |statements|
    ensures KeptAt(statements, TrimAll(statements[from..]), Places(statements, from), TrimSpace)
    decreases |statements| - from
  {
    if from < |statements| {
      TrimAllPlaces(statements, from + 1);
      TrimAllFrom(statements, from);
      KeptOneMore(statements, TrimAll(statements[from + 1..]), Places(statements, from + 1), TrimSpace, from);
    }
  }

  lemma TrimAllFrom(statements: seq<string>, i: nat)
    requires i < |statements|
    ensures var rest := TrimAll(statements[i + 1..]);
            TrimAll(statements[i..]) == if IsBlank(statements[i]) then rest else [TrimSpace(statements[i])] + rest
  {
    assert statements[i..][1..] == statements[i + 1..];
  }

  /**
   Executes the statements in a transaction `tx`, stopping at the first that fails: trimmed, those that are not
   blank, each at its place.
   */
  method Execute(statements: seq<string>, k: nat, f: Faults) returns (tx: seq<string>, done: bool)
    ensures done <==> forall j :: 0 <= j < |TrimAll(statements)| ==> !f.exec(k, j)
    ensures done ==> tx == TrimAll(statements)
    ensures done ==> KeptAt(statements, tx, Places(statements, 0), TrimSpace)
    ensures !done ==> tx <= TrimAll(statements) && f.exec(k, |tx|)
  {
    ghost var all := TrimAll(statements);
    TrimAllPlaces(statements, 0);
    assert statements[0..] == statements;
    tx := [];
    for i := 0 to |statements|
      invariant tx + TrimAll(statements[i..]) == all
      invariant forall j :: 0 <= j < |tx| ==> !f.exec(k, j)
    {
      var stmt := TrimSpace(statements[i]);
      TrimAllFrom(statements, i);
      if stmt == "" {
        continue;
      }
      ghost var rest := TrimAll(statements[i + 1..]);
      Reassociate(tx, stmt, rest, all);
      if f.exec(k, |tx|) {
        return tx, false;
      }
      tx := tx + [stmt];
    }
    return tx, true;
  }

  lemma Reassociate(tx: seq<string>, stmt: string, rest: seq<string>, all: seq<string>)
    requires all == tx + ([stmt] + rest)
    ensures all == tx + [stmt] + rest && tx <= all && |tx| < |all|
  {
  }

  /** The schema database as the runner finds and leaves it. */
  class Database {
    var history: seq<seq<string>>
    var versions: set<int>

    ghost function State(): Schema
      reads this
    {
      Schema(history, versions)
    }

    constructor ()
      ensures State() == Schema([], {})
    {
      history, versions := [], {};
    }

    method ApplyMigration(m: Migration, k: nat, f: Faults) returns (ok: bool)
      modifies this
      ensures State() == AfterApply(old(State()), m, k, f)
      ensures ok == ApplyReported(old(State()), m, k, f)
    {
      if f.begin(k) {
        return false;
      }
      var statements := SqlSplitter.SplitStatements(m.sql);
      var tx, done := Execute(statements, k, f);
      if !done || f.record(k) || m.version in versions {
        return false;
      }
      var outcome := f.commit(k);
      if !outcome.RolledBack? {
        history, versions := history + [tx], versions + {m.version};
      }
      return outcome.Committed?;
    }

    /** The rows of schema_migrations, as far as they are delivered. */
    method ReadVersions(f: Faults) returns (applied: set<int>)
      ensures applied == Seen(State(), f)
    {
      applied := {};
      var rows := versions;
      while rows != {}
        invariant rows <= versions
        invariant applied == set v | v in versions - rows && f.delivered(v)
      {
        NotEmpty(rows);
        var v :| v in rows;
        rows := rows - {v};
        if f.delivered(v) {
          applied := applied + {v};
        }
      }
    }

    method RunMigrations(ms: seq<Migration>, f: Faults) returns (ok: bool)
      modifies this
      ensures (State(), ok) == Boot(old(State()), ms, f)
    {
      if f.setup {
        return false;
      }
      var applied := ReadVersions(f);
      ghost var start := State();
      var k := 0;
      while k < |ms|
        invariant k <= |ms|
        invariant BootFrom(State(), ms, k, applied, f) == BootFrom(start, ms, 0, applied, f)
      {
        if ms[k].version !in applied {
          var done := ApplyMigration(ms[k], k, f);
          if !done {
            return false;
          }
        }
        k := k + 1;
      }
      return true;
    }

    /** None if the versions cannot be read; like a boot it does not notice that the rows ended early. */
    method GetPendingMigrations(ms: seq<Migration>, f: Faults) returns (pending: Option<seq<Migration>>)
      ensures pending == if f.setup then None else Some(Pending(ms, Seen(State(), f)))
    {
      if f.setup {
        return None;
      }
      var applied := ReadVersions(f);
      var list := [];
      for k := 0 to |ms|
        invariant list + Pending(ms[k..], applied) == Pending(ms, applied)
      {
        assert ms[k..][1..] == ms[k + 1..];
        if ms[k].version !in applied {
          list := list + [ms[k]];
        }
      }
      assert ms[|ms|..] == [] && list + [] == list;
      return Some(list);
    }
  }

  function Pending(ms: seq<Migration>, versions: set<int>): seq<Migration> {
    if ms == [] then []
    else (if ms[0].version in versions then [] else [ms[0]]) + Pending(ms[1..], versions)
  }

  // ----- Runs of boots -------------------------------------------------------------------------

  /** The state after any run of boots, each with its own faults, from an empty database. */
  ghost function Boots(ms: seq<Migration>, run: seq<Faults>): Schema {
    if run == [] then Schema([], {})
    else Boot(Boots(ms, run[..|run| - 1]), ms, run[|run| - 1]).0
  }

  ghost predicate Distinct(ms: seq<Migration>) {
    forall i, j :: 0 <= i < j < |ms| ==> ms[i].version != ms[j].version
  }

  function VersionsOf(ms: seq<Migration>): set<int> {
    set i | 0 <= i < |ms| :: ms[i].version
  }

  /** Exactly the first `n` migrations applied, once each and in order. */
  ghost function Applied(ms: seq<Migration>, n: nat): Schema
    requires n <= |ms|
  {
    Schema(seq(n, i requires 0 <= i < n => Statements(ms[i].sql)), VersionsOf(ms[..n]))
  }

  lemma VersionsGrow(ms: seq<Migration>, n: nat)
    requires n < |ms|
    ensures VersionsOf(ms[..n + 1]) == VersionsOf(ms[..n]) + {ms[n].version}
  {
    var fewer, more := ms[..n], ms[..n + 1];
    forall v | v in VersionsOf(fewer) ensures v in VersionsOf(more) {
      var i :| 0 <= i < n && fewer[i].version == v;
      assert more[i].version == v;
    }
    forall v | v in VersionsOf(more) ensures v in VersionsOf(fewer) + {ms[n].version} {
      var i :| 0 <= i < n + 1 && more[i].version == v;
      if i < n { assert fewer[i].version == v; }
    }
    assert more[n].version == ms[n].version;
  }

  lemma ApplyNext(ms: seq<Migration>, n: nat, f: Faults)
    requires n < |ms| && Distinct(ms)
    ensures var next := AfterApply(Applied(ms, n), ms[n], n, f);
            || next == Applied(ms, n + 1)
            || (next == Applied(ms, n) && !ApplyReported(Applied(ms, n), ms[n], n, f))
  {
    var db := Applied(ms, n);
    VersionsGrow(ms, n);
    assert Applied(ms, n + 1).history == db.history + [Statements(ms[n].sql)];
  }

  /** A boot takes a prefix to a prefix, and to all of the list when it reports success. */
  lemma {:induction false} BootFromPrefix(ms: seq<Migration>, n: nat, k: nat, applied: set<int>, f: Faults)
      returns (n': nat)
    requires Distinct(ms) && k <= n <= |ms|
    requires applied <= VersionsOf(ms[..n])
    ensures n <= n' <= |ms| && BootFrom(Applied(ms, n), ms, k, applied, f).0 == Applied(ms, n')
    ensures BootFrom(Applied(ms, n), ms, k, applied, f).1 ==> n' == |ms|
    decreases n - k
  {
    if k == n {
      n' := BootFromEdge(ms, n, applied, f);
    } else {
      assert ms[..n][k].version == ms[k].version;
      if ms[k].version in applied {
        n' := BootFromPrefix(ms, n, k + 1, applied, f);
      } else {
        n' := n;
      }
    }
  }

  lemma {:induction false} BootFromEdge(ms: seq<Migration>, n: nat, applied: set<int>, f: Faults) returns (n': nat)
    requires Distinct(ms) && n <= |ms|
    requires applied <= VersionsOf(ms[..n])
    ensures n <= n' <= |ms| && BootFrom(Applied(ms, n), ms, n, applied, f).0 == Applied(ms, n')
    ensures BootFrom(Applied(ms, n), ms, n, applied, f).1 ==> n' == |ms|
    decreases |ms| - n
  {
    var db := Applied(ms, n);
    n' := n;
    if n < |ms| {
      assert ms[n].version !in VersionsOf(ms[..n]);
      ApplyNext(ms, n, f);
      VersionsGrow(ms, n);
      var next := AfterApply(db, ms[n], n, f);
      if ApplyReported(db, ms[n], n, f) {
        n' := BootFromEdge(ms, n + 1, applied, f);
      } else if next != db {
        n' := n + 1;
      }
    }
  }

  /** Crash and retry safety: over any run of boots the state is that of a prefix of the list. */
  lemma {:induction false} AlwaysAPrefix(ms: seq<Migration>, run: seq<Faults>) returns (n: nat)
    requires Distinct(ms)
    ensures n <= |ms| && Boots(ms, run) == Applied(ms, n)
    decreases |run|
  {
    if run == [] {
      n := 0;
      assert VersionsOf(ms[..0]) == {};
    } else {
      var before := AlwaysAPrefix(ms, run[..|run| - 1]);
      n := before;
      if !run[|run| - 1].setup {
        n := BootFromPrefix(ms, before, 0, Seen(Applied(ms, before), run[|run| - 1]), run[|run| - 1]);
      }
    }
  }

  /** A boot that reports success leaves every migration applied once, in order, and nothing pending. */
  lemma SuccessIsComplete(ms: seq<Migration>, run: seq<Faults>, last: Faults)
    requires Distinct(ms) && Boot(Boots(ms, run), ms, last).1
    ensures Boots(ms, run + [last]) == Applied(ms, |ms|)
    ensures Pending(ms, Boots(ms, run + [last]).versions) == []
  {
    var n := AlwaysAPrefix(ms, run);
    assert (run + [last])[..|run|] == run;
    var n' := BootFromPrefix(ms, n, 0, Seen(Applied(ms, n), last), last);
    PendingIsSuffix(ms, |ms|);
    assert ms[|ms|..] == [];
  }

  /** What is pending after any run is exactly the rest of the list. */
  lemma PendingIsSuffix(ms: seq<Migration>, n: nat)
    requires Distinct(ms) && n <= |ms|
    ensures Pending(ms, Applied(ms, n).versions) == ms[n..]
  {
    PendingFrom(ms, n, 0);
    assert ms[0..] == ms;
  }

  ghost predicate AllDelivered(ms: seq<Migration>, db: Schema, f: Faults) {
    forall k :: 0 <= k < |ms| && ms[k].version in db.versions ==> f.delivered(ms[k].version)
  }

  /** The listing is exact exactly when every recorded version of the list was delivered. */
  lemma {:induction false} PendingExactIff(ms: seq<Migration>, db: Schema, f: Faults)
    ensures Pending(ms, Seen(db, f)) == Pending(ms, db.versions) <==> AllDelivered(ms, db, f)
  {
    if ms != [] {
      var m, rest := ms[0], ms[1..];
      PendingExactIff(rest, db, f);
      PendingLonger(rest, db, f);
      PendingHead(ms, Seen(db, f));
      PendingHead(ms, db.versions);
      assert AllDelivered(ms, db, f)
          <==> (m.version in db.versions ==> f.delivered(m.version)) && AllDelivered(rest, db, f);
      if m.version in db.versions && !f.delivered(m.version) {
        assert |Pending(ms, Seen(db, f))| > |Pending(ms, db.versions)|;
      }
    }
  }

  lemma PendingHead(ms: seq<Migration>, versions: set<int>)
    requires ms != []
    ensures ms[0].version in versions ==> Pending(ms, versions) == Pending(ms[1..], versions)
    ensures ms[0].version !in versions ==>
              |Pending(ms, versions)| == 1 + |Pending(ms[1..], versions)|
              && Pending(ms, versions)[0] == ms[0] && Pending(ms, versions)[1..] == Pending(ms[1..], versions)
  {
  }

  /** It lists at least what is pending. */
  lemma {:induction false} PendingLonger(ms: seq<Migration>, db: Schema, f: Faults)
    ensures |Pending(ms, Seen(db, f))| >= |Pending(ms, db.versions)|
  {
    if ms != [] { PendingLonger(ms[1..], db, f); }
  }

  lemma AppliedVersions(ms: seq<Migration>, n: nat, k: nat)
    requires Distinct(ms) && n <= |ms| && k < |ms|
    ensures ms[k].version in Applied(ms, n).versions <==> k < n
  {
    if k < n { assert ms[..n][k].version == ms[k].version; }
  }

  lemma {:induction false} PendingFrom(ms: seq<Migration>, n: nat, k: nat)
    requires Distinct(ms) && n <= |ms| && k <= |ms|
    ensures Pending(ms[k..], Applied(ms, n).versions) == if k <= n then ms[n..] else ms[k..]
    decreases |ms| - k
  {
    if k < |ms| {
      PendingFrom(ms, n, k + 1);
      AppliedVersions(ms, n, k);
      PendingStep(ms, k, Applied(ms, n).versions);
    }
  }

  lemma PendingStep(ms: seq<Migration>, k: nat, versions: set<int>)
    requires k < |ms|
    ensures Pending(ms[k..], versions)
           == (if ms[k].version in versions then [] else [ms[k]]) + Pending(ms[k + 1..], versions)
    ensures ms[k..] == [ms[k]] + ms[k + 1..]
  {
    assert ms[k..][1..] == ms[k + 1..];
  }

  ghost predicate Healthy(f: Faults) {
    && !f.setup && (forall v :: f.delivered(v))
    && (forall k: nat :: !f.begin(k) && !f.record(k) && f.commit(k).Committed?)
    && (forall k: nat, j: nat :: !f.exec(k, j))
  }

  /** From wherever crashes left the database, one boot without faults completes. */
  lemma HealthyBootCompletes(ms: seq<Migration>, run: seq<Faults>, last: Faults)
    requires Distinct(ms) && Healthy(last)
    ensures Boot(Boots(ms, run), ms, last).1
  {
    var n := AlwaysAPrefix(ms, run);
    var db := Applied(ms, n);
    assert Seen(db, last) == db.versions;
    forall j | 0 <= j < n ensures ms[j].version in db.versions { AppliedVersions(ms, n, j); }
    RecordedAreSkipped(db, ms, n, 0, last);
    HealthyApplies(ms, n, db.versions, last);
  }

  lemma {:induction false} RecordedAreSkipped(db: Schema, ms: seq<Migration>, n: nat, k: nat, f: Faults)
    requires k <= n <= |ms| && forall j :: 0 <= j < n ==> ms[j].version in db.versions
    ensures BootFrom(db, ms, k, db.versions, f) == BootFrom(db, ms, n, db.versions, f)
    decreases n - k
  {
    if k < n { RecordedAreSkipped(db, ms, n, k + 1, f); }
  }

  lemma {:induction false} HealthyApplies(ms: seq<Migration>, n: nat, applied: set<int>, f: Faults)
    requires Distinct(ms) && Healthy(f) && n <= |ms| && applied <= VersionsOf(ms[..n])
    ensures BootFrom(Applied(ms, n), ms, n, applied, f).1
    decreases |ms| - n
  {
    if n < |ms| {
      assert ms[n].version !in VersionsOf(ms[..n]);
      ApplyNext(ms, n, f);
      VersionsGrow(ms, n);
      HealthyApplies(ms, n + 1, applied, f);
    }
  }

  /** In a list sorted by version, a recorded version leaves no unrecorded one below it. */
  lemma NoGaps(ms: seq<Migration>, run: seq<Faults>, v: int, w: int)
    requires forall i, j :: 0 <= i < j < |ms| ==> ms[i].version < ms[j].version
    requires v in Boots(ms, run).versions && w in VersionsOf(ms) && w < v
    ensures w in Boots(ms, run).versions
  {
    var n := AlwaysAPrefix(ms, run);
    var i :| 0 <= i < n && ms[..n][i].version == v;
    var j :| 0 <= j < |ms| && ms[j].version == w;
    assert ms[j].version < ms[i].version;
    assert j < n;
    assert ms[..n][j].version == w;
  }

  // ----- Why the versions must be distinct -----------------------------------------------------

  /** Whatever the list, every committed transaction recorded a version of its own. */
  ghost predicate OneEach(db: Schema, ms: seq<Migration>) {
    |db.history| == |db.versions| && db.versions <= VersionsOf(ms)
  }

  lemma {:induction false} BootFromOneEach(db: Schema, ms: seq<Migration>, k: nat, applied: set<int>, f: Faults)
    requires OneEach(db, ms) && k <= |ms|
    ensures OneEach(BootFrom(db, ms, k, applied, f).0, ms)
    decreases |ms| - k
  {
    if k < |ms| {
      if ms[k].version in applied {
        BootFromOneEach(db, ms, k + 1, applied, f);
      } else {
        var next := AfterApply(db, ms[k], k, f);
        assert OneEach(next, ms);
        BootFromOneEach(next, ms, k + 1, applied, f);
      }
    }
  }

  lemma {:induction false} AlwaysOneEach(ms: seq<Migration>, run: seq<Faults>)
    ensures OneEach(Boots(ms, run), ms)
    decreases |run|
  {
    if run != [] {
      var before, f := run[..|run| - 1], run[|run| - 1];
      AlwaysOneEach(ms, before);
      if !f.setup { BootFromOneEach(Boots(ms, before), ms, 0, Seen(Boots(ms, before), f), f); }
    }
  }

  lemma {:induction false} DistinctByCount(ms: seq<Migration>)
    ensures |VersionsOf(ms)| <= |ms|
    ensures |VersionsOf(ms)| == |ms| ==> Distinct(ms)
    decreases |ms|
  {
    if ms == [] {
      assert VersionsOf(ms) == {};
    } else {
      var n := |ms| - 1;
      var init, v := ms[..n], ms[n].version;
      DistinctByCount(init);
      assert ms[..n + 1] == ms;
      VersionsGrow(ms, n);
      if v !in VersionsOf(init) {
        forall i | 0 <= i < n ensures ms[i].version != v {
          assert init[i].version == ms[i].version;
        }
        if Distinct(init) {
          forall i, j | 0 <= i < j < n ensures ms[i].version != ms[j].version {
            assert init[i].version != init[j].version;
          }
        }
      }
    }
  }

  /** A state with one transaction per migration can be reached exactly when no two share a version. */
  lemma CompletableIffDistinct(ms: seq<Migration>)
    ensures (exists run :: |Boots(ms, run).history| == |ms|) <==> Distinct(ms)
  {
    if Distinct(ms) {
      var f := Faults(false, v => true, k => false, (k, j) => false, k => false, k => Committed);
      assert Healthy(f);
      HealthyBootCompletes(ms, [], f);
      SuccessIsComplete(ms, [], f);
      assert [] + [f] == [f];
      assert |Boots(ms, [f]).history| == |ms|;
    }
    if run :| |Boots(ms, run).history| == |ms| {
      AlwaysOneEach(ms, run);
      DistinctByCount(ms);
      SubsetCount(Boots(ms, run).versions, VersionsOf(ms));
    }
  }

  // ----- Releases ------------------------------------------------------------------------------

  /** The state after a run of boots each of which brings a list of its own. */
  ghost function Upgrades(lists: seq<seq<Migration>>, run: seq<Faults>): Schema
    requires |lists| == |run|
    decreases |run|
  {
    if run == [] then Schema([], {})
    else
      var n := |run| - 1;
      Boot(Upgrades(lists[..n], run[..n]), lists[n], run[n]).0
  }

  /** Each list begins with the one before. */
  ghost predicate Growing(lists: seq<seq<Migration>>) {
    forall k :: 0 < k < |lists| ==> lists[k - 1] <= lists[k]
  }

  lemma AppliedAlike(ms: seq<Migration>, more: seq<Migration>, n: nat)
    requires ms <= more && n <= |ms|
    ensures Applied(ms, n) == Applied(more, n)
  {
    assert ms[..n] == more[..n];
    assert forall i :: 0 <= i < n ==> ms[i] == more[i];
  }

  lemma PartOfDistinct(ms: seq<Migration>, more: seq<Migration>)
    requires ms <= more && Distinct(more)
    ensures Distinct(ms)
  {
    assert forall i :: 0 <= i < |ms| ==> ms[i] == more[i];
  }

  /** While releases only append migrations, the state is always that of a prefix of the latest list. */
  lemma {:induction false} UpgradesAreAPrefix(lists: seq<seq<Migration>>, run: seq<Faults>) returns (n: nat)
    requires |lists| == |run| > 0 && Growing(lists) && Distinct(lists[|lists| - 1])
    ensures var ms := lists[|lists| - 1]; n <= |ms| && Upgrades(lists, run) == Applied(ms, n)
    decreases |run|
  {
    var last := |run| - 1;
    var ms, f := lists[last], run[last];
    var before := 0;
    assert VersionsOf(ms[..0]) == {};
    if last > 0 {
      assert lists[..last][last - 1] == lists[last - 1] <= ms;
      PartOfDistinct(lists[last - 1], ms);
      before := UpgradesAreAPrefix(lists[..last], run[..last]);
      AppliedAlike(lists[last - 1], ms, before);
    }
    n := before;
    if !f.setup {
      n := BootFromPrefix(ms, before, 0, Seen(Applied(ms, before), f), f);
    }
  }

  /** The list with a migration inserted before the `i`-th. */
  function Inserted(ms: seq<Migration>, i: nat, m: Migration): seq<Migration>
    requires i <= |ms|
  {
    ms[..i] + [m] + ms[i..]
  }

  lemma {:induction false} RestIsSkipped(db: Schema, ms: seq<Migration>, k: nat, applied: set<int>, f: Faults)
    requires k <= |ms| && forall j :: k <= j < |ms| ==> ms[j].version in applied
    ensures BootFrom(db, ms, k, applied, f) == (db, true)
    decreases |ms| - k
  {
    if k < |ms| { RestIsSkipped(db, ms, k + 1, applied, f); }
  }

  /** A migration inserted among applied ones is applied after all of them. */
  lemma InsertedRunsLast(ms: seq<Migration>, i: nat, m: Migration, f: Faults)
    requires i <= |ms| && Distinct(ms) && m.version !in VersionsOf(ms) && Healthy(f)
    ensures var was := Applied(ms, |ms|);
            && Boot(was, Inserted(ms, i, m), f).0
               == Schema(was.history + [Statements(m.sql)], was.versions + {m.version})
            && Boot(was, Inserted(ms, i, m), f).1
  {
    var was, more := Applied(ms, |ms|), Inserted(ms, i, m);
    assert ms[..|ms|] == ms;
    assert Seen(was, f) == was.versions;
    forall j | 0 <= j < i ensures more[j].version in was.versions { assert more[j] == ms[j]; }
    RecordedAreSkipped(was, more, i, 0, f);
    assert more[i] == m;
    forall j | i < j < |more| ensures more[j].version in was.versions { assert more[j] == ms[j - 1]; }
    RestIsSkipped(AfterApply(was, m, i, f), more, i + 1, was.versions, f);
  }

  lemma HistoryAt(ms: seq<Migration>, j: nat)
    requires j < |ms|
    ensures |Applied(ms, |ms|).history| == |ms| && Applied(ms, |ms|).history[j] == Statements(ms[j].sql)
  {
  }

  lemma InsertedAt(ms: seq<Migration>, i: nat, m: Migration, j: nat)
    requires i <= |ms| && j <= |ms|
    ensures Inserted(ms, i, m)[j] == if j < i then ms[j] else if j == i then m else ms[j - 1]
  {
  }

  /** `more` is `h` with `x` put in before the `i`-th, as far as the `j`-th goes. */
  predicate PutAt<T(==)>(h: seq<T>, i: nat, x: T, more: seq<T>, j: nat)
    requires i <= |h| && j <= |h| && |more| == |h| + 1
  {
    more[j] == if j < i then h[j] else if j == i then x else h[j - 1]
  }

  lemma PutInto<T>(h: seq<T>, i: nat, x: T, more: seq<T>)
    requires i <= |h| && |more| == |h| + 1 && forall j: nat :: j <= |h| ==> PutAt(h, i, x, more, j)
    ensures more == h[..i] + [x] + h[i..]
  {
    forall j: nat | j <= |h| ensures more[j] == (h[..i] + [x] + h[i..])[j] {
      assert PutAt(h, i, x, more, j);
    }
  }

  lemma InsertedHistory(ms: seq<Migration>, i: nat, m: Migration)
    requires i <= |ms|
    ensures var h := Applied(ms, |ms|).history;
            Applied(Inserted(ms, i, m), |ms| + 1).history == h[..i] + [Statements(m.sql)] + h[i..]
  {
    var h, x, late := Applied(ms, |ms|).history, Statements(m.sql), Applied(Inserted(ms, i, m), |ms| + 1).history;
    forall j: nat | j <= |h| ensures PutAt(h, i, x, late, j) { InsertedHistoryAt(ms, i, m, j); }
    PutInto(h, i, x, late);
  }

  lemma InsertedHistoryAt(ms: seq<Migration>, i: nat, m: Migration, j: nat)
    requires i <= |ms| && j <= |ms|
    ensures PutAt(Applied(ms, |ms|).history, i, Statements(m.sql), Applied(Inserted(ms, i, m), |ms| + 1).history, j)
  {
    HistoryAt(Inserted(ms, i, m), j);
    InsertedAt(ms, i, m, j);
    if j < i { HistoryAt(ms, j); }
    if i < j { HistoryAt(ms, j - 1); }
  }

  lemma {:induction false} MovedIff<T>(h: seq<T>, i: nat, x: T)
    requires i <= |h|
    ensures h + [x] == h[..i] + [x] + h[i..] <==> forall j :: i <= j < |h| ==> h[j] == x
    decreases |h| - i
  {
    if i < |h| {
      MovedIff(h, i + 1, x);
      if h[i] == x {
        assert h[..i] + [x] + h[i..] == h[..i + 1] + [x] + h[i + 1..];
      } else {
        assert (h + [x])[i] != (h[..i] + [x] + h[i..])[i];
      }
    }
  }

  /** That is what applying the new list in order would do exactly if nothing different comes after it. */
  lemma InsertedInOrderIff(ms: seq<Migration>, i: nat, m: Migration)
    requires i <= |ms|
    ensures Applied(ms, |ms|).history + [Statements(m.sql)] == Applied(Inserted(ms, i, m), |ms| + 1).history
       <==> forall j :: i <= j < |ms| ==> Statements(ms[j].sql) == Statements(m.sql)
  {
    InsertedHistory(ms, i, m);
    var h := Applied(ms, |ms|).history;
    MovedIff(h, i, Statements(m.sql));
    assert forall j :: 0 <= j < |ms| ==> h[j] == Statements(ms[j].sql);
  }
}
