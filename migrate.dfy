/**
 * The migration runner: which `.sql` files of the migrations folder still have to run, in
 * which order, and the loop that runs each one and records its name in the `migrations`
 * table in one transaction. The folder listing, the files' contents and which scripts fail
 * are inputs.
 */
module Migrations {
  import opened Common

  const FileExtension := ".sql"

  /** The index of the last `.` in `s`, if any. */
  function LastDot(s: string): (r: Option<nat>)
    ensures r.Some? ==> r.value < |s| && s[r.value] == '.' && forall j :: r.value < j < |s| ==> s[j] != '.'
    ensures r.None? ==> forall j :: 0 <= j < |s| ==> s[j] != '.'
    decreases |s|
  {
    if s == [] then None
    else if s[|s| - 1] == '.' then Some(|s| - 1)
    else
      var r := LastDot(s[..|s| - 1]);
      assert forall j :: 0 <= j < |s| - 1 ==> s[j] == s[..|s| - 1][j];
      r
  }

  /**
   * `path.extname` of a file name (which has no `/`): from the last `.` to the end, or the
   * empty string when there is no `.`, when the only `.`s start the name, or for `..`.
   */
  function Extname(name: string): (ext: string)
    ensures ext == "" <==> name == ".." || forall j :: 0 < j < |name| ==> name[j] != '.'
    ensures ext != "" ==> && |ext| <= |name| && name[|name| - |ext|..] == ext
                          && ext[0] == '.' && forall j :: 0 < j < |ext| ==> ext[j] != '.'
  {
    var d := LastDot(name);
    if d.None? || d.value == 0 || name == ".." then "" else
      assert forall j :: 0 < j < |name| - d.value ==> name[d.value..][j] == name[d.value + j];
      name[d.value..]
  }

  /** A file is a migration exactly when its name is something followed by `.sql`. */
  lemma SqlExtensionIff(name: string)
    ensures Extname(name) == FileExtension <==> |name| > 4 && name[|name| - 4..] == FileExtension
  {
    var d := LastDot(name);
    if |name| > 4 && name[|name| - 4..] == FileExtension {
      assert name[|name| - 4] == '.';
      assert forall j :: |name| - 4 < j < |name| ==> name[j] == name[|name| - 4..][j - (|name| - 4)];
      assert d == Some(|name| - 4);
    }
    if Extname(name) == FileExtension {
      assert |name[d.value..]| == 4;
    }
  }

  /** `pat` occurs in `s` at index `j`. */
  predicate OccursAt(s: string, pat: string, j: int) {
    0 <= j && j + |pat| <= |s| && s[j..j + |pat|] == pat
  }

  /** The first index at which `pat` occurs in `s`. */
  function IndexOfSub(s: string, pat: string): (r: Option<nat>)
    ensures r.Some? ==> OccursAt(s, pat, r.value) && forall j :: 0 <= j < r.value ==> !OccursAt(s, pat, j)
    ensures r.None? ==> forall j :: !OccursAt(s, pat, j)
    decreases |s|
  {
    if |s| < |pat| then None
    else if s[..|pat|] == pat then Some(0)
    else
      var rest := IndexOfSub(s[1..], pat);
      ShiftOccurrence(s, pat);
      if rest.Some? then Some(rest.value + 1) else None
  }

  lemma ShiftOccurrence(s: string, pat: string)
    requires s != []
    ensures forall j :: j >= 1 ==> (OccursAt(s, pat, j) <==> OccursAt(s[1..], pat, j - 1))
  {
    forall j | j >= 1 ensures OccursAt(s, pat, j) <==> OccursAt(s[1..], pat, j - 1) {
      if j + |pat| <= |s| {
        assert s[j..j + |pat|] == s[1..][j - 1..j - 1 + |pat|];
      }
    }
  }

  /** `s.replace(pat, rep)` with a string pattern: only the first occurrence is replaced. */
  function ReplaceFirst(s: string, pat: string, rep: string): (r: string)
    ensures (forall j :: !OccursAt(s, pat, j)) ==> r == s
    ensures forall i :: OccursAt(s, pat, i) && (forall j :: 0 <= j < i ==> !OccursAt(s, pat, j))
                        ==> r == s[..i] + rep + s[i + |pat|..]
  {
    var i := IndexOfSub(s, pat);
    if i.None? then s else s[..i.value] + rep + s[i.value + |pat|..]
  }

  /** The migration name as written: `file.replace('.sql', '')` removes the first `.sql`. */
  function MigrationNameAsWritten(file: string): (name: string)
    ensures (forall j :: !OccursAt(file, FileExtension, j)) ==> name == file
    ensures forall i :: OccursAt(file, FileExtension, i) && (forall j :: 0 <= j < i ==> !OccursAt(file, FileExtension, j))
                        ==> name == file[..i] + file[i + 4..]
  {
    ReplaceFirst(file, FileExtension, "")
  }

  /** The migration name: the file name without its `.sql` extension. */
  function MigrationName(file: string): (name: string)
    requires Extname(file) == FileExtension
    ensures name + FileExtension == file
  {
    SqlExtensionIff(file);
    assert file == file[..|file| - 4] + file[|file| - 4..];
    file[..|file| - 4]
  }

  /** Both names agree when `.sql` occurs only at the end of the file name. */
  lemma NamesAgreeWithSingleExtension(file: string)
    requires Extname(file) == FileExtension
    requires IndexOfSub(file, FileExtension) == Some(|file| - 4)
    ensures MigrationNameAsWritten(file) == MigrationName(file)
  {
    SqlExtensionIff(file);
  }

  /**
   * As written, a file with `.sql` also inside its name gets a name whose file
   * (`name + '.sql'`) is not the file listed: `a.sqlb.sql` becomes `ab.sql`, and the runner
   * then reads `ab.sql.sql`.
   */
  lemma AsWrittenNameMissesItsFile()
    ensures Extname("a.sqlb.sql") == FileExtension
    ensures MigrationNameAsWritten("a.sqlb.sql") == "ab.sql"
    ensures MigrationNameAsWritten("a.sqlb.sql") + FileExtension != "a.sqlb.sql"
    ensures MigrationName("a.sqlb.sql") == "a.sqlb"
  {
    SqlExtensionIff("a.sqlb.sql");
    assert "a.sqlb.sql"[..2] != FileExtension;
    assert "a.sqlb.sql"[1..][..4] == FileExtension;
    assert IndexOfSub("a.sqlb.sql"[1..], FileExtension) == Some(0);
    assert IndexOfSub("a.sqlb.sql", FileExtension) == Some(1);
    assert "a.sqlb.sql"[..1] + "" + "a.sqlb.sql"[5..] == "ab.sql";
    assert "a.sqlb.sql"[..6] == "a.sqlb";
  }

  /**
   * `files.filter(extname === '.sql').map(name).filter(!migrations.includes)`, before sorting,
   * with the corrected `MigrationName` in place of the first-occurrence `replace`.
   */
  function Candidates(files: seq<string>, recorded: seq<string>): (r: seq<string>)
    ensures forall n :: n in r <==> exists f :: f in files && Extname(f) == FileExtension && MigrationName(f) == n && n !in recorded
    decreases |files|
  {
    if files == [] then []
    else
      var f := files[|files| - 1];
      var init := Candidates(files[..|files| - 1], recorded);
      assert forall g :: g in files <==> g in files[..|files| - 1] || g == f;
      if Extname(f) == FileExtension && MigrationName(f) !in recorded then init + [MigrationName(f)] else init
  }

  /** The string order of `Array.prototype.sort`: character by character, a prefix first. */
  predicate LexLe(a: string, b: string)
    decreases |a|
  {
    a == [] || (b != [] && (a[0] < b[0] || (a[0] == b[0] && LexLe(a[1..], b[1..]))))
  }

  lemma {:induction false} LexLeTotal(a: string, b: string)
    ensures LexLe(a, b) || LexLe(b, a)
    decreases |a|
  {
    if a != [] && b != [] && a[0] == b[0] {
      LexLeTotal(a[1..], b[1..]);
    }
  }

  lemma {:induction false} LexLeTransitive(a: string, b: string, c: string)
    requires LexLe(a, b) && LexLe(b, c)
    ensures LexLe(a, c)
    decreases |a|
  {
    if a != [] && a[0] == b[0] && b[0] == c[0] {
      LexLeTransitive(a[1..], b[1..], c[1..]);
    }
  }

  lemma {:induction false} LexLeAntisymmetric(a: string, b: string)
    requires LexLe(a, b) && LexLe(b, a)
    ensures a == b
    decreases |a|
  {
    if a != [] {
      LexLeAntisymmetric(a[1..], b[1..]);
      assert a == [a[0]] + a[1..] && b == [b[0]] + b[1..];
    }
  }

  predicate SortedStrings(s: seq<string>) {
    forall i, j :: 0 <= i < j < |s| ==> LexLe(s[i], s[j])
  }

  /** `x` put into the sorted `s` before the first element it does not follow. */
  function Insert(x: string, s: seq<string>): (r: seq<string>)
    requires SortedStrings(s)
    ensures SortedStrings(r)
    ensures multiset(r) == multiset(s) + multiset{x}
    decreases |s|
  {
    if s == [] then [x]
    else if LexLe(x, s[0]) then
      forall j | 0 <= j < |s| ensures LexLe(x, s[j]) {
        if j > 0 { LexLeTransitive(x, s[0], s[j]); }
      }
      [x] + s
    else
      LexLeTotal(x, s[0]);
      var rest := Insert(x, s[1..]);
      assert s == [s[0]] + s[1..];
      forall j | 0 <= j < |rest| ensures LexLe(s[0], rest[j]) {
        assert rest[j] in multiset(rest);
        if rest[j] != x {
          var k :| 1 <= k < |s| && s[k] == rest[j];
        }
      }
      [s[0]] + rest
  }

  /** `.sort()`: the names in string order. */
  function Sort(s: seq<string>): (r: seq<string>)
    ensures SortedStrings(r)
    ensures multiset(r) == multiset(s)
    decreases |s|
  {
    if s == [] then []
    else
      assert s == s[..|s| - 1] + [s[|s| - 1]];
      Insert(s[|s| - 1], Sort(s[..|s| - 1]))
  }

  /** Sorting is determined: the order is total, so any sorted permutation is the same. */
  lemma {:induction false} SortedPermutationsAreEqual(a: seq<string>, b: seq<string>)
    requires SortedStrings(a) && SortedStrings(b) && multiset(a) == multiset(b)
    ensures a == b
    decreases |a|
  {
    if a != [] {
      assert |b| == |multiset(b)| == |a|;
      SortedHeadsEqual(a, b);
      assert a == [a[0]] + a[1..] && b == [b[0]] + b[1..];
      assert multiset(a[1..]) == multiset(a) - multiset{a[0]};
      assert multiset(b[1..]) == multiset(b) - multiset{b[0]};
      SortedTail(a);
      SortedTail(b);
      SortedPermutationsAreEqual(a[1..], b[1..]);
    }
  }

  /** Two sorted permutations start with the same, least, element. */
  lemma SortedHeadsEqual(a: seq<string>, b: seq<string>)
    requires SortedStrings(a) && SortedStrings(b) && multiset(a) == multiset(b) && a != [] && b != []
    ensures a[0] == b[0]
  {
    assert a[0] in multiset(b) && b[0] in multiset(a);
    var i :| 0 <= i < |b| && b[i] == a[0];
    var j :| 0 <= j < |a| && a[j] == b[0];
    if i > 0 && j > 0 {
      assert LexLe(b[0], b[i]) && LexLe(a[0], a[j]);
      LexLeAntisymmetric(a[0], b[0]);
    }
  }

  lemma SortedTail(s: seq<string>)
    requires SortedStrings(s) && s != []
    ensures SortedStrings(s[1..])
  {
    forall i, j | 0 <= i < j < |s[1..]| ensures LexLe(s[1..][i], s[1..][j]) {
      assert s[1..][i] == s[i + 1] && s[1..][j] == s[j + 1];
    }
  }

  /** `migrationsToApply`: the new migrations' names, in string order. */
  function MigrationsToApply(files: seq<string>, recorded: seq<string>): (r: seq<string>)
    ensures SortedStrings(r)
    ensures forall n :: n in r <==> exists f :: f in files && Extname(f) == FileExtension && MigrationName(f) == n && n !in recorded
    ensures multiset(r) == multiset(Candidates(files, recorded))
  {
    var c := Candidates(files, recorded);
    var r := Sort(c);
    assert forall n :: n in r <==> n in multiset(r);
    assert forall n :: n in c <==> n in multiset(c);
    r
  }

  /** There is nothing to apply exactly when every listed migration is recorded. */
  lemma NothingNewIffAllRecorded(files: seq<string>, recorded: seq<string>)
    ensures MigrationsToApply(files, recorded) == [] <==>
            forall f :: f in files && Extname(f) == FileExtension ==> MigrationName(f) in recorded
  {
    var r := MigrationsToApply(files, recorded);
    forall f | f in files && Extname(f) == FileExtension && MigrationName(f) !in recorded
      ensures MigrationName(f) in r
    {
    }
    if r != [] {
      assert r[0] in r;
    }
  }

  /** Every migration to apply was listed as its own file. */
  lemma MigrationFileIsListed(files: seq<string>, recorded: seq<string>, n: string)
    requires n in MigrationsToApply(files, recorded)
    ensures n + FileExtension in files
  {
    var f :| f in files && Extname(f) == FileExtension && MigrationName(f) == n && n !in recorded;
  }

  /** The scripts of these migrations, read from their files, in the same order. */
  function Scripts(names: seq<string>, contents: map<string, string>): (r: seq<string>)
    requires forall n :: n in names ==> n + FileExtension in contents
    ensures |r| == |names|
    ensures forall i :: 0 <= i < |names| ==> r[i] == contents[names[i] + FileExtension]
    decreases |names|
  {
    if names == [] then []
    else
      assert names[|names| - 1] in names;
      Scripts(names[..|names| - 1], contents) + [contents[names[|names| - 1] + FileExtension]]
  }

  /** The `migrations` table and what the database has run. */
  class MigrationDatabase {
    /** The names the `migrations` table holds, in insertion order. */
    var recorded: seq<string>
    /** The scripts whose transactions committed, in order. */
    var executed: seq<string>

    constructor (recorded: seq<string>, executed: seq<string>)
      ensures this.recorded == recorded && this.executed == executed
    {
      this.recorded := recorded;
      this.executed := executed;
    }

    /**
     * `sql.begin(tx => { tx.unsafe(script); INSERT INTO migrations (name) })`: either both the
     * script and the record commit, or, when the script fails, neither does.
     */
    method ApplyOne(name: string, script: string, fails: bool) returns (committed: bool)
      modifies this
      ensures committed <==> !fails
      ensures committed ==> recorded == old(recorded) + [name] && executed == old(executed) + [script]
      ensures !committed ==> recorded == old(recorded) && executed == old(executed)
    {
      if fails {
        return false;
      }
      executed := executed + [script];
      recorded := recorded + [name];
      committed := true;
    }
  }

  /**
   * `applyMigrations`, once the table exists: the migrations to apply run one by one in
   * order, each in its own transaction; the first that fails stops the run with exit code 1,
   * leaving the ones before it applied. Exit code 0 means every one was applied, or there
   * was none. `failing` names the migrations whose script the database rejects.
   */
  method ApplyMigrations(db: MigrationDatabase, files: seq<string>, contents: map<string, string>, failing: set<string>)
    returns (exitCode: int, plan: seq<string>, applied: nat)
    requires forall f :: f in files ==> f in contents
    modifies db
    ensures plan == MigrationsToApply(files, old(db.recorded))
    ensures forall n :: n in plan ==> n + FileExtension in contents
    ensures applied <= |plan|
    ensures db.recorded == old(db.recorded) + plan[..applied]
    ensures db.executed == old(db.executed) + Scripts(plan[..applied], contents)
    ensures exitCode == 0 <==> applied == |plan|
    ensures exitCode != 0 ==> exitCode == 1 && plan[applied] in failing
    ensures forall i :: 0 <= i < applied ==> plan[i] !in failing
  {
    plan := MigrationsToApply(files, db.recorded);
    forall n | n in plan ensures n + FileExtension in contents {
      MigrationFileIsListed(files, db.recorded, n);
    }
    if |plan| == 0 {
      return 0, plan, 0;
    }
    exitCode, applied := RunPlan(db, plan, contents, failing);
  }

  /** `for (let migration of migrationsToApply)`: apply in order, stopping at the first failure. */
  method RunPlan(db: MigrationDatabase, plan: seq<string>, contents: map<string, string>, failing: set<string>)
    returns (exitCode: int, applied: nat)
    requires forall n :: n in plan ==> n + FileExtension in contents
    modifies db
    ensures applied <= |plan|
    ensures db.recorded == old(db.recorded) + plan[..applied]
    ensures db.executed == old(db.executed) + Scripts(plan[..applied], contents)
    ensures exitCode == 0 <==> applied == |plan|
    ensures exitCode != 0 ==> exitCode == 1 && plan[applied] in failing
    ensures forall i :: 0 <= i < applied ==> plan[i] !in failing
  {
    applied := 0;
    while applied < |plan|
      invariant applied <= |plan|
      invariant db.recorded == old(db.recorded) + plan[..applied]
      invariant db.executed == old(db.executed) + Scripts(plan[..applied], contents)
      invariant forall i :: 0 <= i < applied ==> plan[i] !in failing
    {
      var migration := plan[applied];
      var sqlScript := contents[migration + FileExtension];
      var committed := db.ApplyOne(migration, sqlScript, migration in failing);
      if !committed {
        return 1, applied;
      }
      assert plan[..applied + 1] == plan[..applied] + [migration];
      applied := applied + 1;
    }
    exitCode := 0;
  }
}
