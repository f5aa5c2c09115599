/**
 * The embedded SQL bootstrap: base files once, incremental migrations as they
 * are needed, all in one transaction.
 */
module Bootstrap {
  import opened Prelude

  const BASE_BOOTSTRAP_MAX_VERSION := 3
  const BASELINE_VERSION := 1

  datatype Migration = Migration(version: int, name: string)

  /** The files a binary embeds. */
  const EMBEDDED := [
    Migration(0, "000_schema"),
    Migration(1, "001_tables"),
    Migration(2, "002_indexes"),
    Migration(3, "003_migrations_table"),
    Migration(4, "004_retrieval_indexes"),
    Migration(5, "005_status_check_atomicity")
  ]

  /**
   * What the bootstrap leaves behind: the schema, the recorded versions if
   * the migrations table exists, and the files executed so far, in order.
   */
  datatype Db = Db(schema: bool, recorded: Option<set<int>>, log: seq<int>) {
    /** File 003 creates the migrations table with its baseline row. */
    function Executed(m: Migration): Db {
      this.(log := log + [m.version],
            recorded := if m.version == BASE_BOOTSTRAP_MAX_VERSION then Some({BASELINE_VERSION}) else recorded)
    }
  }

  /** The base files among the first `n`, executed in order. */
  function BaseRun(d: Db, ms: seq<Migration>, n: nat): Db
    requires n <= |ms|
  {
    if n == 0 then d
    else
      var before := BaseRun(d, ms, n - 1);
      if ms[n - 1].version <= BASE_BOOTSTRAP_MAX_VERSION then before.Executed(ms[n - 1]) else before
  }

  predicate Pending(m: Migration, applied: set<int>) {
    m.version > BASE_BOOTSTRAP_MAX_VERSION && m.version !in applied
  }

  /** The incremental migrations among the first `n` that are not applied yet, executed and recorded in order. */
  function IncrementalRun(d: Db, ms: seq<Migration>, n: nat, applied: set<int>): Db
    requires n <= |ms|
  {
    if n == 0 then d
    else
      var before := IncrementalRun(d, ms, n - 1, applied);
      if Pending(ms[n - 1], applied) then Recorded(before.Executed(ms[n - 1]), ms[n - 1].version) else before
  }

  function Recorded(d: Db, version: int): Db {
    if d.recorded.Some? then d.(recorded := Some(d.recorded.value + {version})) else d
  }

  function PendingCount(ms: seq<Migration>, n: nat, applied: set<int>): nat
    requires n <= |ms|
  {
    if n == 0 then 0 else PendingCount(ms, n - 1, applied) + (if Pending(ms[n - 1], applied) then 1 else 0)
  }

  /** The database once the base is in place. */
  function WithBase(d: Db, ms: seq<Migration>): Db {
    var ready := d.(schema := true);
    if d.recorded.None? then BaseRun(ready, ms, |ms|) else ready
  }

  /** The effect of a run in which no statement fails. */
  function Migrated(d: Db, ms: seq<Migration>): Db {
    var base := WithBase(d, ms);
    IncrementalRun(base, ms, |ms|, AppliedIn(base))
  }

  function AppliedIn(d: Db): set<int> {
    if d.recorded.Some? then d.recorded.value else {}
  }

  function NewlyApplied(d: Db, ms: seq<Migration>): nat {
    (if d.recorded.None? then 1 else 0) + PendingCount(ms, |ms|, AppliedIn(WithBase(d, ms)))
  }

  /** A database connection: committed state, the open transaction's view, and which statement fails. */
  class Database {
    var committed: Db
    var working: Db
    var statements: nat
    const fails: nat -> bool

    constructor (fails: nat -> bool)
      ensures committed == Db(false, None, []) && this.fails == fails
    {
      committed, working := Db(false, None, []), Db(false, None, []);
      statements := 0;
      this.fails := fails;
    }

    ghost predicate Reliable() {
      forall n :: !fails(n)
    }

    /** Runs one statement; a failing one aborts the transaction. */
    method Statement() returns (ok: bool)
      modifies this`statements
      ensures ok <==> !fails(old(statements))
    {
      ok := !fails(statements);
      statements := statements + 1;
    }

    /** Executes a file. File 003 is not idempotent: it fails if its table exists. */
    method Execute(m: Migration) returns (ok: bool)
      modifies this`statements, this`working
      ensures ok <==> !fails(old(statements)) && !(m.version == BASE_BOOTSTRAP_MAX_VERSION && old(working).recorded.Some?)
      ensures working == if ok then old(working).Executed(m) else old(working)
    {
      ok := Statement();
      if m.version == BASE_BOOTSTRAP_MAX_VERSION && working.recorded.Some? {
        ok := false;
      }
      if ok {
        working := working.Executed(m);
      }
    }
  }

  /** One of the first `n` files creates the migrations table. */
  predicate CreatesTable(ms: seq<Migration>, n: nat)
    requires n <= |ms|
  {
    exists i :: 0 <= i < n && ms[i].version == BASE_BOOTSTRAP_MAX_VERSION
  }

  /** The files can be run on an empty database: exactly one of them creates the table. */
  ghost predicate Runnable(ms: seq<Migration>) {
    && CreatesTable(ms, |ms|)
    && forall i, j :: 0 <= i < j < |ms| ==>
         ms[i].version != BASE_BOOTSTRAP_MAX_VERSION || ms[j].version != BASE_BOOTSTRAP_MAX_VERSION
  }

  /** Base block: once, in order, when the migrations table is missing. */
  method RunBase(db: Database, ms: seq<Migration>) returns (failed: Option<string>)
    requires db.working.recorded.None?
    modifies db`statements, db`working
    ensures failed.None? ==> db.working == BaseRun(old(db.working), ms, |ms|)
    ensures db.Reliable() && Runnable(ms) ==> failed.None? && db.working.recorded.Some?
  {
    for k := 0 to |ms|
      invariant db.working == BaseRun(old(db.working), ms, k)
      invariant db.working.recorded.Some? <==> CreatesTable(ms, k)
    {
      if ms[k].version <= BASE_BOOTSTRAP_MAX_VERSION {
        var ok := db.Execute(ms[k]);
        if !ok {
          return Some("base bootstrap " + ms[k].name);
        }
      }
    }
    return None;
  }

  /** Incremental migrations not in `applied`, each recorded after it ran. */
  method RunIncremental(db: Database, ms: seq<Migration>, applied: set<int>)
    returns (failed: Option<string>, newly: nat)
    modifies db`statements, db`working
    ensures db.Reliable() ==> failed.None?
    ensures failed.None? ==>
      db.working == IncrementalRun(old(db.working), ms, |ms|, applied) && newly == PendingCount(ms, |ms|, applied)
  {
    newly := 0;
    for k := 0 to |ms|
      invariant db.working == IncrementalRun(old(db.working), ms, k, applied)
      invariant newly == PendingCount(ms, k, applied)
    {
      if ms[k].version <= BASE_BOOTSTRAP_MAX_VERSION {
        continue;
      }
      if ms[k].version in applied {
        continue;
      }
      var ok := db.Execute(ms[k]);
      if !ok {
        return Some("migration " + ms[k].name), newly;
      }
      ok := db.Statement();
      if !ok {
        return Some("insert"), newly;
      }
      db.working := Recorded(db.working, ms[k].version);
      newly := newly + 1;
    }
    return None, newly;
  }

  /**
   * One attempt: a failing statement, the commit included, leaves the database
   * as it was.
   */
  method RunMigrations(db: Database, ms: seq<Migration>) returns (r: Result<nat, string>)
    modifies db
    ensures r.Err? ==> db.committed == old(db.committed)
    ensures db.Reliable() && (old(db.committed).recorded.Some? || Runnable(ms)) ==> r.Ok?
    ensures r.Ok? ==>
      && db.committed == Migrated(old(db.committed), ms)
      && r.value == NewlyApplied(old(db.committed), ms)
      && db.committed.recorded.Some?
  {
    db.working := db.committed;
    var ok := db.Statement();
    if !ok {
      return Err("create schema");
    }
    db.working := db.working.(schema := true);
    var newly := 0;
    ok := db.Statement();
    if !ok {
      return Err("to_regclass");
    }
    if db.working.recorded.None? {
      var failed := RunBase(db, ms);
      if failed.Some? {
        return Err(failed.value);
      }
      newly := newly + 1;
    }
    ok := db.Statement();
    if !ok || db.working.recorded.None? {
      return Err("select version");
    }
    var applied := db.working.recorded.value;
    ghost var base := db.working;
    var failed, more := RunIncremental(db, ms, applied);
    if failed.Some? {
      return Err(failed.value);
    }
    ok := db.Statement();
    if !ok {
      return Err("commit");
    }
    IncrementalKeepsTable(base, ms, |ms|, applied);
    db.committed := db.working;
    return Ok(newly + more);
  }

  lemma {:induction false} IncrementalKeepsTable(d: Db, ms: seq<Migration>, n: nat, applied: set<int>)
    requires n <= |ms| && d.recorded.Some?
    ensures IncrementalRun(d, ms, n, applied).recorded.Some?
  {
    if n > 0 {
      IncrementalKeepsTable(d, ms, n - 1, applied);
    }
  }
}

/**
 * Bootstrap over any sequence of attempts. Successive binaries embed longer
 * prefixes of one list of migrations; an older binary may run after a newer.
 */
module BootstrapRuns {
  import opened Prelude
  import opened Bootstrap

  /** Versions rise through the list, and its first `base` files end with version 3. */
  ghost predicate IsMaster(ms: seq<Migration>, base: nat) {
    && 0 < base <= |ms|
    && ms[base - 1].version == BASE_BOOTSTRAP_MAX_VERSION
    && forall i, j :: 0 <= i < j < |ms| ==> ms[i].version < ms[j].version
  }

  function Versions(ms: seq<Migration>): (vs: seq<int>)
    ensures |vs| == |ms| && forall i :: 0 <= i < |ms| ==> vs[i] == ms[i].version
  {
    seq(|ms|, i requires 0 <= i < |ms| => ms[i].version)
  }

  /** The baseline and the incremental versions among the first `n`. */
  function RecordedUpTo(ms: seq<Migration>, base: nat, n: nat): set<int>
    requires base <= n <= |ms|
  {
    {BASELINE_VERSION} + set i | base <= i < n :: ms[i].version
  }

  /** A database that holds the first `n` migrations; none of them if `n` is 0. */
  function Built(ms: seq<Migration>, base: nat, n: nat, schema: bool): Db
    requires n == 0 || base <= n <= |ms|
  {
    if n == 0 then Db(schema, None, []) else Db(true, Some(RecordedUpTo(ms, base, n)), Versions(ms[..n]))
  }

  lemma BasePart(ms: seq<Migration>, base: nat, i: nat)
    requires IsMaster(ms, base) && i < |ms|
    ensures ms[i].version <= BASE_BOOTSTRAP_MAX_VERSION <==> i < base
    ensures ms[i].version == BASE_BOOTSTRAP_MAX_VERSION <==> i == base - 1
  {
  }

  lemma VersionsAppended(ms: seq<Migration>, i: nat)
    requires i < |ms|
    ensures Versions(ms[..i + 1]) == Versions(ms[..i]) + [ms[i].version]
  {
  }

  /** The base block executes exactly the base files, in order, and creates the table with its last. */
  lemma {:induction false} BaseRunBuilds(ms: seq<Migration>, base: nat, n: nat, j: nat)
    requires IsMaster(ms, base) && base <= n <= |ms| && j <= n
    ensures BaseRun(Db(true, None, []), ms[..n], j) ==
      if j < base then Db(true, None, Versions(ms[..j])) else Built(ms, base, base, true)
    decreases j
  {
    if j == 0 {
      assert Versions(ms[..0]) == [];
    } else {
      BaseRunBuilds(ms, base, n, j - 1);
      BasePart(ms, base, j - 1);
      VersionsAppended(ms, j - 1);
      assert ms[..n][j - 1] == ms[j - 1];
      assert RecordedUpTo(ms, base, base) == {BASELINE_VERSION};
    }
  }

  /** Executing and recording the next incremental migration makes the prefix one longer. */
  lemma BuiltOneMore(ms: seq<Migration>, base: nat, i: nat)
    requires IsMaster(ms, base) && base <= i < |ms|
    ensures Recorded(Built(ms, base, i, true).Executed(ms[i]), ms[i].version) == Built(ms, base, i + 1, true)
  {
    BasePart(ms, base, i);
    VersionsAppended(ms, i);
    assert RecordedUpTo(ms, base, i + 1) == RecordedUpTo(ms, base, i) + {ms[i].version};
  }

  lemma AppliedExactly(ms: seq<Migration>, base: nat, k: nat, i: nat)
    requires IsMaster(ms, base) && base <= k <= |ms| && i < |ms|
    ensures Pending(ms[i], RecordedUpTo(ms, base, k)) <==> i >= k
  {
    BasePart(ms, base, i);
    if base <= i < k {
      assert ms[i].version in RecordedUpTo(ms, base, k);
    }
  }

  /** What the run does at the next file of the list. */
  lemma IncrementalStep(ms: seq<Migration>, base: nat, k: nat, n: nat, i: nat, built: nat)
    requires IsMaster(ms, base) && base <= k <= |ms| && base <= n <= |ms| && i < n && built == (if i > k then i else k)
    requires IncrementalRun(Built(ms, base, k, true), ms[..n], i, RecordedUpTo(ms, base, k)) == Built(ms, base, built, true)
    ensures IncrementalRun(Built(ms, base, k, true), ms[..n], i + 1, RecordedUpTo(ms, base, k))
      == Built(ms, base, if i >= k then i + 1 else k, true)
  {
    AppliedExactly(ms, base, k, i);
    assert ms[..n][i] == ms[i];
    if i >= k {
      BuiltOneMore(ms, base, i);
    }
  }

  lemma {:induction false} PendingFrom(ms: seq<Migration>, base: nat, k: nat, n: nat, j: nat)
    requires IsMaster(ms, base) && base <= k <= |ms| && base <= n <= |ms| && j <= n
    ensures PendingCount(ms[..n], j, RecordedUpTo(ms, base, k)) == if j > k then j - k else 0
    decreases j
  {
    if j > 0 {
      PendingFrom(ms, base, k, n, j - 1);
      AppliedExactly(ms, base, k, j - 1);
      assert ms[..n][j - 1] == ms[j - 1];
    }
  }

  /** On a database with the first `k`, the first `j` of a binary's list add those from `k` on. */
  lemma {:induction false} IncrementalRunBuilds(ms: seq<Migration>, base: nat, k: nat, n: nat, j: nat)
    requires IsMaster(ms, base) && base <= k <= |ms| && base <= n <= |ms| && j <= n
    ensures IncrementalRun(Built(ms, base, k, true), ms[..n], j, RecordedUpTo(ms, base, k))
      == Built(ms, base, if j > k then j else k, true)
    decreases j
  {
    if j > 0 {
      IncrementalRunBuilds(ms, base, k, n, j - 1);
      IncrementalStep(ms, base, k, n, j - 1, if j - 1 > k then j - 1 else k);
    }
  }

  /**
   * A successful attempt of a binary with `n` migrations on a database with
   * `k` leaves the longer of the two prefixes, and reports one for the base
   * block plus the incremental ones it added: 0 if the database is ahead.
   */
  lemma MigratedBuilds(ms: seq<Migration>, base: nat, k: nat, n: nat, schema: bool)
    requires IsMaster(ms, base) && (k == 0 || base <= k <= |ms|) && base <= n <= |ms|
    ensures Migrated(Built(ms, base, k, schema), ms[..n]) == Built(ms, base, Max(k, n), true)
    ensures NewlyApplied(Built(ms, base, k, schema), ms[..n]) ==
      if k == 0 then 1 + (n - base) else Max(n - k, 0)
  {
    if k == 0 {
      BaseRunBuilds(ms, base, n, n);
      IncrementalRunBuilds(ms, base, base, n, n);
      PendingFrom(ms, base, base, n, n);
    } else {
      IncrementalRunBuilds(ms, base, k, n, n);
      PendingFrom(ms, base, k, n, n);
    }
  }

  /** A second run of the same binary finds nothing to do and changes nothing. */
  lemma SecondRunIsIdle(ms: seq<Migration>, base: nat, k: nat, n: nat, schema: bool)
    requires IsMaster(ms, base) && (k == 0 || base <= k <= |ms|) && base <= n <= |ms|
    ensures var d := Migrated(Built(ms, base, k, schema), ms[..n]);
      NewlyApplied(d, ms[..n]) == 0 && Migrated(d, ms[..n]) == d
  {
    MigratedBuilds(ms, base, k, n, schema);
    MigratedBuilds(ms, base, Max(k, n), n, true);
  }

  /** The embedded files on an empty database: the base counts once, and only increments are recorded. */
  lemma EmbeddedBootstrap()
    ensures IsMaster(EMBEDDED, 4)
    ensures var empty := Db(false, None, []);
      && Migrated(empty, EMBEDDED) == Db(true, Some({1, 4, 5}), [0, 1, 2, 3, 4, 5])
      && NewlyApplied(empty, EMBEDDED) == 3
  {
    assert EMBEDDED[..6] == EMBEDDED;
    assert Built(EMBEDDED, 4, 6, true) == Db(true, Some({1, 4, 5}), [0, 1, 2, 3, 4, 5]) by {
      assert EMBEDDED[4].version == 4 && EMBEDDED[5].version == 5;
      assert RecordedUpTo(EMBEDDED, 4, 6) == {1, 4, 5};
    }
    MigratedBuilds(EMBEDDED, 4, 0, 6, false);
  }

  /** In a built database every file ran at most once, in version order, and each incremental one is recorded. */
  lemma BuiltInOrder(ms: seq<Migration>, base: nat, n: nat)
    requires IsMaster(ms, base) && base <= n <= |ms|
    ensures var d := Built(ms, base, n, true);
      && (forall i, j :: 0 <= i < j < |d.log| ==> d.log[i] < d.log[j])
      && (forall i :: base <= i < n ==> ms[i].version in d.log && ms[i].version in d.recorded.value)
  {
    var d := Built(ms, base, n, true);
    forall i | base <= i < n ensures ms[i].version in d.log && ms[i].version in d.recorded.value {
      assert d.log[i] == ms[i].version;
    }
  }

  lemma PrefixRunnable(ms: seq<Migration>, base: nat, n: nat)
    requires IsMaster(ms, base) && base <= n <= |ms|
    ensures Runnable(ms[..n])
  {
    assert ms[..n][base - 1].version == BASE_BOOTSTRAP_MAX_VERSION;
  }

  /**
   * Attempts one after the other, `sizes[i]` being how many migrations the
   * i-th binary embeds, with statements failing anywhere. The database always
   * holds a prefix of the list: the longest that some attempt brought in.
   */
  method RunAttempts(db: Database, ms: seq<Migration>, base: nat, sizes: seq<nat>)
    returns (results: seq<Result<nat, string>>, ghost built: nat)
    requires IsMaster(ms, base) && db.committed == Built(ms, base, 0, false)
    requires forall i :: 0 <= i < |sizes| ==> base <= sizes[i] <= |ms|
    modifies db
    ensures |results| == |sizes|
    ensures (built == 0 || base <= built <= |ms|) && db.committed == Built(ms, base, built, false)
    ensures forall i :: 0 <= i < |results| ==> (results[i].Ok? ==> sizes[i] <= built)
    ensures built > 0 ==> exists i :: 0 <= i < |results| && results[i].Ok? && sizes[i] == built
    ensures db.Reliable() ==> forall i :: 0 <= i < |results| ==> results[i].Ok?
  {
    results, built := [], 0;
    for i := 0 to |sizes|
      invariant |results| == i
      invariant (built == 0 || base <= built <= |ms|) && db.committed == Built(ms, base, built, false)
      invariant forall k :: 0 <= k < i ==> (results[k].Ok? ==> sizes[k] <= built)
      invariant built > 0 ==> exists k :: 0 <= k < i && results[k].Ok? && sizes[k] == built
      invariant db.Reliable() ==> forall k :: 0 <= k < i ==> results[k].Ok?
    {
      PrefixRunnable(ms, base, sizes[i]);
      var r := RunMigrations(db, ms[..sizes[i]]);
      MigratedBuilds(ms, base, built, sizes[i], false);
      ghost var before := results;
      results := results + [r];
      assert forall k :: 0 <= k < i ==> results[k] == before[k];
      if r.Ok? {
        assert results[i].Ok?;
        built := Max(built, sizes[i]);
      }
    }
  }
}
