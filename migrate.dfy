/** The migration runner: the migration files are listed and ordered by name, the stored
    schema version is read, and every migration whose number exceeds it runs in list order
    inside one transaction, the version following each; any failure rolls the whole run
    back. The directory listing and each migration's `up` are foreign: the file names and
    the set of migrations whose `up` throws are parameters. */
module Migrate {
  import opened Wrappers
  import opened JsValues
  import opened Sql
  import opened Lex
  import opened Collections

  // ---------------------------------------------------------------------------------------
  // Reading file names.

  predicate EndsWith(s: string, suffix: string) {
    |suffix| <= |s| && s[|s| - |suffix|..] == suffix
  }

  /** `s.split('_')[0]`: the text before the first underscore, or all of it. */
  function BeforeUnderscore(s: string): string {
    if s == [] || s[0] == '_' then [] else [s[0]] + BeforeUnderscore(s[1..])
  }

  /** `s.replace('.js', '')`: only the first occurrence is removed. */
  function StripJs(s: string): string {
    if |s| < 3 then s
    else if s[0] == '.' && s[1] == 'j' && s[2] == 's' then s[3..]
    else [s[0]] + StripJs(s[1..])
  }

  /** A file name that starts with a decimal number before its first underscore is numbered
      by it, leading zeros included: "003_create_contributions.js" is migration 3. */
  lemma NumberedName(d: string, rest: string)
    requires |d| > 0 && AllDigits(d)
    ensures ParseInt(BeforeUnderscore(d + "_" + rest)) == Some(DigitsValue(d))
  {
    NoUnderscoreInDigits(d, rest);
    ParseDigits(d);
  }

  lemma {:induction false} NoUnderscoreInDigits(d: string, rest: string)
    requires AllDigits(d)
    ensures BeforeUnderscore(d + "_" + rest) == d
  {
    if d != [] {
      assert (d + "_" + rest)[1..] == d[1..] + "_" + rest;
      NoUnderscoreInDigits(d[1..], rest);
    }
  }

  // ---------------------------------------------------------------------------------------
  // The list of migrations.

  /** A migration: its number (`None` when the name yields NaN), its name and its file. */
  datatype Migration = Migration(id: Option<int>, name: string, file: string)

  function Entry(f: string): Migration {
    Migration(ParseInt(BeforeUnderscore(f)), StripJs(f), f)
  }

  function Entries(fs: seq<string>): (r: seq<Migration>)
    ensures |r| == |fs|
    ensures forall i | 0 <= i < |fs| :: r[i] == Entry(fs[i])
  {
    if fs == [] then [] else [Entry(fs[0])] + Entries(fs[1..])
  }

  function NameKey(f: string): SqlValue {
    SqlText(f)
  }

  predicate EndsWithJs(f: string) {
    EndsWith(f, ".js")
  }

  /** The `.js` names of the directory in code-point order. */
  function SortedScripts(files: seq<string>): (r: seq<string>)
    ensures |r| <= |files|
    ensures forall i | 0 <= i < |r| :: r[i] in files && EndsWithJs(r[i])
    ensures forall f | f in files && EndsWithJs(f) :: f in r
    ensures forall i, j | 0 <= i < j < |r| :: StrLe(r[i], r[j])
    ensures forall f :: multiset(r)[f] == if EndsWithJs(f) then multiset(files)[f] else 0
  {
    var js := Filter(files, EndsWithJs);
    SortByMembers(js, NameKey, false);
    ScriptsInOrder(js);
    var r := SortBy(js, NameKey, false);
    assert forall i | 0 <= i < |r| :: r[i] in js;
    r
  }

  lemma ScriptsInOrder(js: seq<string>)
    ensures forall i, j | 0 <= i < j < |SortBy(js, NameKey, false)| ::
      StrLe(SortBy(js, NameKey, false)[i], SortBy(js, NameKey, false)[j])
  {
    var r := SortBy(js, NameKey, false);
    SortBySorted(js, NameKey, false);
    forall i, j | 0 <= i < j < |r| ensures StrLe(r[i], r[j]) {
      assert InOrder(NameKey(r[i]), NameKey(r[j]), false);
    }
  }

  /** `getMigrationFiles`: the `.js` files of the directory, sorted by name in code-point
      order, each numbered by the text before its first underscore and named by the file name
      without its `.js`. */
  function MigrationFiles(files: seq<string>): (r: seq<Migration>)
    ensures |r| == |SortedScripts(files)|
    ensures forall i | 0 <= i < |r| :: r[i].file == SortedScripts(files)[i]
    ensures forall i | 0 <= i < |r| ::
      r[i].id == ParseInt(BeforeUnderscore(r[i].file)) && r[i].name == StripJs(r[i].file)
    ensures forall i | 0 <= i < |r| :: r[i].file in files && EndsWithJs(r[i].file)
    ensures forall f | f in files && EndsWithJs(f) :: exists i | 0 <= i < |r| :: r[i].file == f
    ensures forall i, j | 0 <= i < j < |r| :: StrLe(r[i].file, r[j].file)
  {
    var sorted := SortedScripts(files);
    forall f | f in sorted ensures exists i | 0 <= i < |Entries(sorted)| :: Entries(sorted)[i].file == f {
      EntryOf(sorted, f);
    }
    Entries(sorted)
  }

  /** A listed file has its entry. */
  lemma EntryOf(fs: seq<string>, f: string)
    requires f in fs
    ensures exists i | 0 <= i < |Entries(fs)| :: Entries(fs)[i].file == f
  {
    var i :| 0 <= i < |fs| && fs[i] == f;
    assert Entries(fs)[i].file == f;
  }

  // ---------------------------------------------------------------------------------------
  // The version table.

  /** `migrations_meta`: missing, or its rows' versions in table order. */
  datatype Meta = NoTable | Rows(versions: seq<int>)

  /** `getCurrentVersion`: the first row's version, or 0 when there is no row; when the table
      is missing it is created holding the single version 0. Returns the version and the
      table afterwards. */
  function ReadVersion(meta: Meta): (r: (int, Meta))
    ensures meta.NoTable? ==> r == (0, Rows([0]))
    ensures meta.Rows? ==> r.1 == meta
    ensures meta.Rows? && meta.versions != [] ==> r.0 == meta.versions[0]
    ensures meta == Rows([]) ==> r.0 == 0
  {
    match meta
    case NoTable => (0, Rows([0]))
    case Rows(vs) => (if vs == [] then 0 else vs[0], meta)
  }

  /** `UPDATE migrations_meta SET version = ?`: every row takes the version. */
  function SetVersion(meta: Meta, v: int): (r: Meta)
    ensures meta.Rows? ==> r.Rows? && |r.versions| == |meta.versions| && forall i | 0 <= i < |r.versions| :: r.versions[i] == v
    ensures meta.NoTable? ==> r == NoTable
  {
    match meta
    case NoTable => NoTable
    case Rows(vs) => Rows(seq(|vs|, _ => v))
  }

  // ---------------------------------------------------------------------------------------
  // The run.

  predicate Runs(m: Migration, current: int) {
    m.id.Some? && m.id.value > current
  }

  /** The migrations that run: those whose number exceeds the version read at the start, in
      list order. A NaN number exceeds nothing. */
  function Pending(ms: seq<Migration>, current: int): (r: seq<Migration>)
    ensures forall i | 0 <= i < |r| :: Runs(r[i], current)
  {
    if ms == [] then []
    else Pending(ms[..|ms| - 1], current) + (if Runs(ms[|ms| - 1], current) then [ms[|ms| - 1]] else [])
  }

  /** A migration runs exactly when it is listed and its number exceeds the version read. */
  lemma {:induction false} PendingMembers(ms: seq<Migration>, current: int)
    ensures forall m :: m in Pending(ms, current) <==> m in ms && Runs(m, current)
  {
    if ms != [] {
      var init := ms[..|ms| - 1];
      PendingMembers(init, current);
      assert ms == init + [ms[|ms| - 1]];
    }
  }

  function Names(ms: seq<Migration>): (r: seq<string>)
    ensures |r| == |ms|
    ensures forall i | 0 <= i < |ms| :: r[i] == ms[i].name
  {
    if ms == [] then [] else Names(ms[..|ms| - 1]) + [ms[|ms| - 1].name]
  }

  /** The stored version after the run: the number of the last migration that ran. */
  function VersionAfter(meta: Meta, run: seq<Migration>): Meta
    requires forall i | 0 <= i < |run| :: run[i].id.Some?
  {
    if run == [] then meta else SetVersion(meta, run[|run| - 1].id.value)
  }

  /** The database as migrations see it: the migrations applied so far, in order, and the
      version table. */
  class MigrationDb {
    var applied: seq<string>
    var meta: Meta

    constructor (applied: seq<string>, meta: Meta)
      ensures this.applied == applied && this.meta == meta
    {
      this.applied := applied;
      this.meta := meta;
    }
  }

  /** `migrate`: true when the run commits. Exactly the pending migrations run, in list order,
      and the version then holds the number of the last of them; when none is pending,
      nothing changes but the creation of a missing version table. When a migration throws,
      the transaction is rolled back: the migrations and versions of the run are undone,
      while the version table created before the transaction stays. */
  method Migrate(db: MigrationDb, files: seq<string>, failing: set<string>) returns (ok: bool)
    modifies db
    ensures var (current, meta) := ReadVersion(old(db.meta));
      var run := Pending(MigrationFiles(files), current);
      && (ok <==> NoneFailing(run, failing))
      && (ok ==> db.applied == old(db.applied) + Names(run) && db.meta == VersionAfter(meta, run))
      && (!ok ==> db.applied == old(db.applied) && db.meta == meta)
  {
    var current, meta := ReadVersion(db.meta).0, ReadVersion(db.meta).1;
    db.meta := meta;
    var ms := MigrationFiles(files);
    ok := RunPending(db, ms, current, failing);
  }

  /** The transaction of `migrate`: the migrations of `ms` whose number exceeds `current` run
      in order, each followed by the version update; the first that throws rolls back to the
      state at `BEGIN TRANSACTION`. */
  method RunPending(db: MigrationDb, ms: seq<Migration>, current: int, failing: set<string>) returns (ok: bool)
    modifies db
    ensures var run := Pending(ms, current);
      && (ok <==> NoneFailing(run, failing))
      && (ok ==> db.applied == old(db.applied) + Names(run) && db.meta == VersionAfter(old(db.meta), run))
      && (!ok ==> db.applied == old(db.applied) && db.meta == old(db.meta))
  {
    var applied0, meta0 := db.applied, db.meta;
    ghost var done: seq<Migration> := [];
    var i := 0;
    while i < |ms|
      invariant 0 <= i <= |ms|
      invariant done == Pending(ms[..i], current)
      invariant NoneFailing(done, failing)
      invariant db.applied == applied0 + Names(done)
      invariant db.meta == VersionAfter(meta0, done)
    {
      var m := ms[i];
      PendingStep(ms, i, current);
      if Runs(m, current) {
        if m.file in failing {
          // ROLLBACK
          db.applied, db.meta := applied0, meta0;
          FailingStops(ms, i, current, failing);
          return false;
        }
        db.applied := db.applied + [m.name];
        db.meta := SetVersion(db.meta, m.id.value);
        RunStep(meta0, done, m, failing);
        done := done + [m];
      }
      i := i + 1;
    }
    assert ms[..|ms|] == ms;
    ok := true;
  }

  /** No migration of `run` throws. */
  predicate NoneFailing(run: seq<Migration>, failing: set<string>) {
    forall i | 0 <= i < |run| :: run[i].file !in failing
  }

  /** One more migration that succeeds: its name is appended, the version is its number. */
  lemma RunStep(meta0: Meta, done: seq<Migration>, m: Migration, failing: set<string>)
    requires forall i | 0 <= i < |done| :: done[i].id.Some?
    requires NoneFailing(done, failing) && m.file !in failing && m.id.Some?
    ensures NoneFailing(done + [m], failing)
    ensures Names(done + [m]) == Names(done) + [m.name]
    ensures VersionAfter(meta0, done + [m]) == SetVersion(VersionAfter(meta0, done), m.id.value)
  {
    NamesSnoc(done, m);
    var run := done + [m];
    assert run[|run| - 1] == m;
    if done != [] {
      SetVersionTwice(meta0, done[|done| - 1].id.value, m.id.value);
    }
  }

  lemma SetVersionTwice(meta: Meta, a: int, b: int)
    ensures SetVersion(SetVersion(meta, a), b) == SetVersion(meta, b)
  {
  }

  /** A pending migration that throws makes the whole run fail. */
  lemma FailingStops(ms: seq<Migration>, i: nat, current: int, failing: set<string>)
    requires i < |ms| && Runs(ms[i], current) && ms[i].file in failing
    ensures !NoneFailing(Pending(ms, current), failing)
  {
    PendingStep(ms, i, current);
    PendingPrefix(ms, i + 1, current);
    var done := Pending(ms[..i], current);
    assert Pending(ms[..i + 1], current)[|done|] == ms[i];
    assert Pending(ms, current)[|done|] == ms[i];
  }

  lemma PendingStep(ms: seq<Migration>, i: nat, current: int)
    requires i < |ms|
    ensures Pending(ms[..i + 1], current) ==
      Pending(ms[..i], current) + (if Runs(ms[i], current) then [ms[i]] else [])
  {
    assert ms[..i + 1][..i] == ms[..i];
  }

  lemma NamesSnoc(ms: seq<Migration>, m: Migration)
    ensures Names(ms + [m]) == Names(ms) + [m.name]
  {
    assert (ms + [m])[..|ms|] == ms;
  }

  /** The migrations of a prefix that run are a prefix of those of the whole list. */
  lemma {:induction false} PendingPrefix(ms: seq<Migration>, n: nat, current: int)
    requires n <= |ms|
    ensures Pending(ms[..n], current) <= Pending(ms, current)
    decreases |ms| - n
  {
    if n < |ms| {
      PendingPrefix(ms, n + 1, current);
      assert ms[..n + 1][..n] == ms[..n];
    } else {
      assert ms[..n] == ms;
    }
  }

  // ---------------------------------------------------------------------------------------
  // Running twice.

  /** The numbers grow along the list, as they do for zero-padded names. */
  predicate Increasing(ms: seq<Migration>) {
    (forall i | 0 <= i < |ms| :: ms[i].id.Some?)
    && forall i, j | 0 <= i < j < |ms| :: ms[i].id.value < ms[j].id.value
  }

  /** The version the run leaves: the last number that ran, or the one read. */
  function Reached(ms: seq<Migration>, current: int): int {
    var run := Pending(ms, current);
    if run == [] then current else run[|run| - 1].id.value
  }

  /** When the numbers grow along the list, the run leaves the largest number of the list
      (or the version read, when that is no lower), and a second run from there runs
      nothing. */
  lemma RerunRunsNothing(ms: seq<Migration>, current: int)
    requires Increasing(ms)
    ensures ms != [] && Runs(ms[|ms| - 1], current) ==> Reached(ms, current) == ms[|ms| - 1].id.value
    ensures Pending(ms, Reached(ms, current)) == []
  {
    if ms == [] {
      return;
    }
    var top := ms[|ms| - 1].id.value;
    assert forall j | 0 <= j < |ms| :: ms[j].id.value <= top by {
      forall j | 0 <= j < |ms| ensures ms[j].id.value <= top {
        if j < |ms| - 1 { assert ms[j].id.value < top; }
      }
    }
    if Runs(ms[|ms| - 1], current) {
      assert Reached(ms, current) == top;
      NoneRuns(ms, top);
    } else {
      NoneRuns(ms, current);
      NoneRuns(ms, current);
    }
  }

  /** The same through the version table: the version a committed run stores reads back as
      the version it reached, so the next run applies nothing. A table that exists but holds
      no row is the exception: the update changes no row, the version reads 0 every time,
      and every run applies the same migrations again. */
  lemma RerunFromStore(ms: seq<Migration>, meta: Meta)
    requires Increasing(ms)
    ensures var (current, read) := ReadVersion(meta);
      var stored := VersionAfter(read, Pending(ms, current));
      && (meta != Rows([]) ==> Pending(ms, ReadVersion(stored).0) == [])
      && (meta == Rows([]) ==> stored == Rows([]) && Pending(ms, ReadVersion(stored).0) == Pending(ms, 0))
  {
    var (current, read) := ReadVersion(meta);
    var run := Pending(ms, current);
    var stored := VersionAfter(read, run);
    if meta != Rows([]) {
      assert read.Rows? && read.versions != [];
      assert ReadVersion(stored).0 == Reached(ms, current);
      RerunRunsNothing(ms, current);
    } else if run != [] {
      assert stored == SetVersion(Rows([]), run[|run| - 1].id.value);
    }
  }

  lemma {:induction false} NoneRuns(ms: seq<Migration>, v: int)
    requires forall j | 0 <= j < |ms| :: !Runs(ms[j], v)
    ensures Pending(ms, v) == []
  {
    if ms != [] {
      NoneRuns(ms[..|ms| - 1], v);
    }
  }

  /** Names without zero padding order "10_b.js" before "9_a.js": both run from version 0,
      the version is left at 9, and every later run applies migration 10 again. */
  lemma UnpaddedNamesRerun(nine: string, ten: string)
    requires nine == "9_a.js" && ten == "10_b.js"
    ensures var ms := MigrationFiles([nine, ten]);
      && |ms| == 2 && ms[0].file == ten && ms[1].file == nine
      && Reached(ms, 0) == 9 && Pending(ms, 9) == [ms[0]]
  {
    UnpaddedEntries(nine, ten);
    var a, b := Entry(ten), Entry(nine);
    PendingPair(a, b, 0);
    PendingPair(a, b, 9);
  }

  lemma PendingPair(a: Migration, b: Migration, v: int)
    ensures Pending([a, b], v) == (if Runs(a, v) then [a] else []) + (if Runs(b, v) then [b] else [])
  {
    assert [a, b][..1] == [a];
    assert [a][..0] == [];
    assert Pending([a], v) == (if Runs(a, v) then [a] else []);
  }

  lemma UnpaddedEntries(nine: string, ten: string)
    requires nine == "9_a.js" && ten == "10_b.js"
    ensures MigrationFiles([nine, ten]) == [Entry(ten), Entry(nine)]
    ensures Entry(ten).id == Some(10) && Entry(nine).id == Some(9)
  {
    UnpaddedOrder(nine, ten);
    EntriesPair(ten, nine);
    NumberNine(nine);
    NumberTen(ten);
  }

  lemma EntriesPair(a: string, b: string)
    ensures Entries([a, b]) == [Entry(a), Entry(b)]
  {
    assert [a, b][1..] == [b];
  }

  lemma NumberNine(nine: string)
    requires nine == "9_a.js"
    ensures Entry(nine).id == Some(9)
  {
    NumberedAt(nine, 1);
    assert DigitsValue(nine[..1]) == 9 by {
      assert nine[..1][..0] == [];
    }
  }

  lemma NumberTen(ten: string)
    requires ten == "10_b.js"
    ensures Entry(ten).id == Some(10)
  {
    NumberedAt(ten, 2);
    var d := ten[..2];
    assert d[..1] == ['1'] && d[1] == '0';
    assert DigitsValue(d[..1]) == 1 by {
      assert d[..1][..0] == [];
    }
    assert DigitsValue(d) == 10;
  }

  /** `NumberedName` for a name whose first underscore is at `k`. */
  lemma NumberedAt(f: string, k: nat)
    requires 0 < k < |f| && AllDigits(f[..k]) && f[k] == '_'
    ensures ParseInt(BeforeUnderscore(f)) == Some(DigitsValue(f[..k]))
  {
    forall i | 0 <= i < k ensures f[i] != '_' {
      assert IsDigit(f[..k][i]);
    }
    UnderscoreAt(f, k);
    ParseDigits(f[..k]);
  }

  /** The text before the first underscore, when that underscore is at `k`. */
  lemma {:induction false} UnderscoreAt(f: string, k: nat)
    requires k < |f| && f[k] == '_' && forall i | 0 <= i < k :: f[i] != '_'
    ensures BeforeUnderscore(f) == f[..k]
  {
    if k > 0 {
      UnderscoreAt(f[1..], k - 1);
      assert f[..k] == [f[0]] + f[1..][..k - 1];
    }
  }

  lemma UnpaddedOrder(nine: string, ten: string)
    requires nine == "9_a.js" && ten == "10_b.js"
    ensures SortedScripts([nine, ten]) == [ten, nine]
  {
    var r := SortedScripts([nine, ten]);
    assert EndsWithJs(nine) && EndsWithJs(ten);
    assert nine in r && ten in r;
    assert !StrLe(nine, ten);
    assert |r| == 2 by {
      if |r| < 2 {
        assert false;
      }
    }
  }
}
