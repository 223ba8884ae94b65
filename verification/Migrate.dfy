/** The migration runner: every file once, in name order, over any number of boots cut short anywhere. */
module Migrate {
  import opened SortedNames
  import opened SplitSql

  datatype File = File(name: string, text: string)

  // What a statement or a whole file text does to a schema of type S.
  type Effect<!S> = (S, string) -> S

  // `left` is how many more database operations of this boot succeed: the next one fails or the process dies.
  datatype Database<S> = Database(schema: S, recorded: set<string>, left: nat)

  const NO_TX_MARKER := "-- migrate:no-transaction"

  predicate IsNoTx(text: string) {
    var trimmed := Trim(text);
    |trimmed| >= |NO_TX_MARKER| && trimmed[..|NO_TX_MARKER|] == NO_TX_MARKER
  }

  function RunAll<S>(run: Effect<S>, schema: S, stmts: seq<string>): S {
    if stmts == [] then schema
    else run(RunAll(run, schema, stmts[..|stmts| - 1]), stmts[|stmts| - 1])
  }

  /** One whole application of a file. */
  function ApplyFile<S>(run: Effect<S>, schema: S, f: File): S {
    if IsNoTx(f.text) then RunAll(run, schema, Statements(f.text)) else run(schema, f.text)
  }

  /** One in-order application of every file: what migrating is for. */
  function ApplyAll<S>(run: Effect<S>, schema: S, files: seq<File>): S {
    if files == [] then schema
    else ApplyFile(run, ApplyAll(run, schema, files[..|files| - 1]), files[|files| - 1])
  }

  function Min(a: nat, b: nat): nat { if a < b then a else b }

  /** Apply and record one file: in one transaction, or statement by statement and then the record. */
  function ApplyOne<S>(run: Effect<S>, db: Database<S>, f: File): (Database<S>, bool) {
    if IsNoTx(f.text) then
      var stmts := Statements(f.text);
      var n := Min(db.left, |stmts|);
      var schema := RunAll(run, db.schema, stmts[..n]);
      if db.left > |stmts| then (Database(schema, db.recorded + {f.name}, db.left - |stmts| - 1), true)
      else (Database(schema, db.recorded, 0), false)
    else if db.left == 0 then (db, false)
    else (Database(run(db.schema, f.text), db.recorded + {f.name}, db.left - 1), true)
  }

  /** A boot over a list of files, skipping those recorded when it began. */
  function Boot<S>(run: Effect<S>, db: Database<S>, files: seq<File>): (Database<S>, bool) {
    if files == [] then (db, true)
    else
      var (before, ok) := Boot(run, db, files[..|files| - 1]);
      var f := files[|files| - 1];
      if !ok then (before, false)
      else if f.name in db.recorded then (before, true)
      else ApplyOne(run, before, f)
  }

  class Server<S> {
    const run: Effect<S>
    var schema: S
    var recorded: set<string>
    var left: nat

    function Snapshot(): Database<S>
      reads this
    {
      Database(schema, recorded, left)
    }

    constructor (run: Effect<S>, db: Database<S>)
      ensures this.run == run && Snapshot() == db
    {
      this.run, schema, recorded, left := run, db.schema, db.recorded, db.left;
    }

    /** One operation against the database. */
    method Reach() returns (err: bool)
      modifies this`left
      ensures err == (old(left) == 0) && left == if err then 0 else old(left) - 1
    {
      err := left == 0;
      if !err {
        left := left - 1;
      }
    }

    method ApplyNoTx(f: File) returns (err: bool)
      requires IsNoTx(f.text)
      modifies this
      ensures (Snapshot(), !err) == ApplyOne(run, old(Snapshot()), f)
    {
      var stmts := SplitStatements(f.text);
      for i := 0 to |stmts|
        invariant recorded == old(recorded) && left == old(left) - i
        invariant schema == RunAll(run, old(schema), stmts[..i])
      {
        err := Reach();
        if err {
          return;
        }
        assert stmts[..i + 1][..i] == stmts[..i];
        schema := run(schema, stmts[i]);
      }
      err := Reach();
      if !err {
        recorded := recorded + {f.name};
      }
    }

    method Apply(f: File) returns (err: bool)
      modifies this
      ensures (Snapshot(), !err) == ApplyOne(run, old(Snapshot()), f)
    {
      if IsNoTx(f.text) {
        err := ApplyNoTx(f);
      } else {
        err := Reach();
        if !err {
          schema := run(schema, f.text);
          recorded := recorded + {f.name};
        }
      }
    }

    method Migrate(files: seq<File>) returns (err: bool)
      modifies this
      ensures (Snapshot(), !err) == Boot(run, old(Snapshot()), files)
    {
      var applied := recorded;
      for i := 0 to |files|
        invariant (Snapshot(), true) == Boot(run, old(Snapshot()), files[..i])
      {
        assert files[..i + 1][..i] == files[..i];
        if files[i].name !in applied {
          err := Apply(files[i]);
          if err {
            BootStops(run, old(Snapshot()), files, i + 1);
            return;
          }
        }
      }
      assert files[..|files|] == files;
      err := false;
    }
  }

  /** A boot that fails at some file ends there. */
  lemma {:induction false} BootStops<S>(run: Effect<S>, db: Database<S>, files: seq<File>, k: nat)
    requires k <= |files| && !Boot(run, db, files[..k]).1
    ensures Boot(run, db, files) == Boot(run, db, files[..k])
  {
    if k == |files| {
      assert files[..k] == files;
    } else {
      var front := files[..|files| - 1];
      assert front[..k] == files[..k];
      BootStops(run, db, front, k);
    }
  }

  // ---- the files of a release

  predicate IsSql(name: string) {
    |name| > 4 && name[|name| - 4..] == ".sql"
  }

  function TextOf(embedded: map<string, string>, name: string): string {
    if name in embedded then embedded[name] else ""
  }

  /** migrationNames, with each file's text: the ".sql" files in lexical order. */
  ghost function FilesOf(embedded: map<string, string>): seq<File> {
    var names := Sorted(set name | name in embedded && IsSql(name));
    seq(|names|, i requires 0 <= i < |names| => File(names[i], TextOf(embedded, names[i])))
  }

  predicate Distinct(files: seq<File>) {
    forall i, j :: 0 <= i < j < |files| ==> files[i].name != files[j].name
  }

  lemma FilesOfDistinct(embedded: map<string, string>)
    ensures Distinct(FilesOf(embedded))
    ensures forall i, j :: 0 <= i < j < |FilesOf(embedded)| ==>
              LexLess(FilesOf(embedded)[i].name, FilesOf(embedded)[j].name)
    ensures forall f :: f in FilesOf(embedded) <==> f.name in embedded && IsSql(f.name) && f.text == embedded[f.name]
  {
    var names := Sorted(set name | name in embedded && IsSql(name));
    SortedFacts(set name | name in embedded && IsSql(name));
    forall i, j | 0 <= i < j < |names| ensures names[i] != names[j] {
      AscendingDistinct(names, i, j);
    }
    forall f ensures f in FilesOf(embedded) <==> f.name in embedded && IsSql(f.name) && f.text == embedded[f.name] {
      if f.name in embedded && IsSql(f.name) && f.text == embedded[f.name] {
        assert f.name in names;
        var i :| 0 <= i < |names| && names[i] == f.name;
        assert FilesOf(embedded)[i] == f;
      }
      if f in FilesOf(embedded) {
        assert f.name in names;
      }
    }
  }

  function Names(files: seq<File>): set<string> {
    set f | f in files :: f.name
  }

  // ---- half states

  /** Whatever a file does, and wherever applying it is cut, the schema is as it was or the file is applied whole. */
  ghost predicate NeverHalf<S(!new)>(f: File) {
    forall run: Effect<S>, db: Database<S> :: !ApplyOne(run, db, f).1 ==>
      ApplyOne(run, db, f).0.schema == db.schema || ApplyOne(run, db, f).0.schema == ApplyFile(run, db.schema, f)
  }

  lemma CutOfFew<S>(run: Effect<S>, db: Database<S>, f: File)
    requires !IsNoTx(f.text) || |Statements(f.text)| <= 1
    requires !ApplyOne(run, db, f).1
    ensures ApplyOne(run, db, f).0.schema == db.schema || ApplyOne(run, db, f).0.schema == ApplyFile(run, db.schema, f)
  {
    if IsNoTx(f.text) {
      var stmts := Statements(f.text);
      assert stmts[..0] == [] && stmts[..|stmts|] == stmts;
      assert Min(db.left, |stmts|) == 0 || Min(db.left, |stmts|) == |stmts|;
    }
  }

  lemma FewNeverHalf<S(!new)>(f: File)
    requires !IsNoTx(f.text) || |Statements(f.text)| <= 1
    ensures NeverHalf<S>(f)
  {
    forall run: Effect<S>, db: Database<S> | !ApplyOne(run, db, f).1
      ensures ApplyOne(run, db, f).0.schema == db.schema ||
              ApplyOne(run, db, f).0.schema == ApplyFile(run, db.schema, f)
    {
      CutOfFew(run, db, f);
    }
  }

  // A schema that counts the statements run.
  const COUNTING: Effect<int> := (n, _) => n + 1

  lemma {:induction false} CountingRun(stmts: seq<string>)
    ensures RunAll(COUNTING, 0, stmts) == |stmts|
  {
    if stmts != [] {
      CountingRun(stmts[..|stmts| - 1]);
    }
  }

  /** When a file can leave a half state: exactly if it runs without a transaction and has two statements or more. */
  lemma HalfStateIff(f: File)
    ensures NeverHalf<int>(f) <==> !IsNoTx(f.text) || |Statements(f.text)| <= 1
  {
    var stmts := Statements(f.text);
    if !IsNoTx(f.text) || |stmts| <= 1 {
      FewNeverHalf<int>(f);
    } else {
      var db: Database<int> := Database(0, {}, 1);
      CountingRun(stmts);
      CountingRun(stmts[..1]);
      assert ApplyOne(COUNTING, db, f).0.schema == 1 && ApplyFile(COUNTING, 0, f) == |stmts|;
    }
  }

  // ---- files that may be run again

  /**
   * What recovery needs of a file: run whole after a cut anywhere, it leaves what it would have left without the cut.
   */
  ghost predicate Resumable<S(!new)>(run: Effect<S>, f: File) {
    IsNoTx(f.text) ==>
      var stmts := Statements(f.text);
      forall x: S, j: nat :: j <= |stmts| ==> RunAll(run, RunAll(run, x, stmts[..j]), stmts) == RunAll(run, x, stmts)
  }

  /** More than that: a statement of it that runs again, after later ones of its own file, does nothing. */
  ghost predicate Rerunnable<S(!new)>(run: Effect<S>, f: File) {
    IsNoTx(f.text) ==>
      var stmts := Statements(f.text);
      forall x: S, i: nat, j: nat :: i < j <= |stmts| ==>
        run(RunAll(run, x, stmts[..j]), stmts[i]) == RunAll(run, x, stmts[..j])
  }

  lemma {:induction false} Rerun<S(!new)>(run: Effect<S>, f: File, x: S, j: nat, n: nat)
    requires IsNoTx(f.text) && Rerunnable(run, f)
    requires j <= |Statements(f.text)| && n <= |Statements(f.text)|
    ensures var stmts := Statements(f.text);
            RunAll(run, RunAll(run, x, stmts[..j]), stmts[..n]) == RunAll(run, x, stmts[..if j < n then n else j])
  {
    var stmts := Statements(f.text);
    if n > 0 {
      Rerun(run, f, x, j, n - 1);
      assert stmts[..n][..n - 1] == stmts[..n - 1];
    }
  }

  lemma RerunnableResumes<S(!new)>(run: Effect<S>, f: File)
    requires Rerunnable(run, f)
    ensures Resumable(run, f)
  {
    if IsNoTx(f.text) {
      var stmts := Statements(f.text);
      assert stmts[..|stmts|] == stmts;
      forall x: S, j: nat | j <= |stmts|
        ensures RunAll(run, RunAll(run, x, stmts[..j]), stmts) == RunAll(run, x, stmts)
      {
        Rerun(run, f, x, j, |stmts|);
      }
    }
  }

  /** The converse fails: dropping and creating again resumes, though dropping undoes what was created. */
  lemma DropThenCreate(run: Effect<bool>, f: File)
    requires IsNoTx(f.text) && Statements(f.text) == ["drop", "create"]
    requires forall x :: !run(x, "drop") && run(x, "create")
    ensures Resumable(run, f) && !Rerunnable(run, f)
  {
    var stmts := ["drop", "create"];
    assert stmts[..1] == ["drop"] && stmts[..2] == stmts && ["drop"][..0] == [];
    forall x ensures RunAll(run, x, stmts) == true && RunAll(run, x, stmts[..1]) == false {
    }
    forall x: bool, j: nat | j <= 2 ensures RunAll(run, RunAll(run, x, stmts[..j]), stmts) == RunAll(run, x, stmts) {
    }
    assert run(RunAll(run, true, stmts[..2]), stmts[0]) != RunAll(run, true, stmts[..2]);
  }

  // ---- where boots stop

  /** The schema with k files applied whole and, of the next one, the first j statements. */
  function Reached<S>(run: Effect<S>, s0: S, files: seq<File>, k: nat, j: nat): S
    requires k <= |files|
  {
    var whole := ApplyAll(run, s0, files[..k]);
    if k < |files| && IsNoTx(files[k].text) then
      RunAll(run, whole, Statements(files[k].text)[..Min(j, |Statements(files[k].text)|)])
    else whole
  }

  /** The recorded names are the first k; the schema is those files applied, and at most some statements of the next. */
  ghost predicate Standing<S>(run: Effect<S>, s0: S, files: seq<File>, db: Database<S>, k: nat, j: nat) {
    k <= |files| && db.recorded == Names(files[..k]) && db.schema == Reached(run, s0, files, k, j)
  }

  lemma RecordNext(files: seq<File>, k: nat)
    requires k < |files|
    ensures Names(files[..k + 1]) == Names(files[..k]) + {files[k].name}
  {
    assert files[..k + 1] == files[..k] + [files[k]];
  }

  lemma WholeNext<S>(run: Effect<S>, s0: S, files: seq<File>, k: nat)
    requires k < |files|
    ensures Reached(run, s0, files, k + 1, 0) == ApplyFile(run, ApplyAll(run, s0, files[..k]), files[k])
  {
    assert files[..k + 1][..k] == files[..k];
    if k + 1 < |files| {
      assert Statements(files[k + 1].text)[..0] == [];
    }
  }

  lemma ApplyStands<S(!new)>(run: Effect<S>, s0: S, files: seq<File>, db: Database<S>, k: nat, j: nat) returns (j': nat)
    requires Standing(run, s0, files, db, k, j) && k < |files| && Rerunnable(run, files[k])
    ensures var (after, ok) := ApplyOne(run, db, files[k]);
            if ok then Standing(run, s0, files, after, k + 1, 0) else Standing(run, s0, files, after, k, j')
  {
    var f := files[k];
    var stmts := Statements(f.text);
    RecordNext(files, k);
    WholeNext(run, s0, files, k);
    j' := j;
    if IsNoTx(f.text) {
      var n, m := Min(db.left, |stmts|), Min(j, |stmts|);
      Rerun(run, f, ApplyAll(run, s0, files[..k]), m, n);
      j' := if m < n then n else m;
      assert stmts[..|stmts|] == stmts;
    }
  }

  lemma SkipsRecorded(files: seq<File>, k: nat, p: nat)
    requires Distinct(files) && p < |files| && k <= |files|
    ensures files[p].name in Names(files[..k]) <==> p < k
  {
    if p < k {
      assert files[p] in files[..k];
    }
  }

  /** A boot that has got as far as file p goes on with it, or skips it. */
  lemma BootNext<S>(run: Effect<S>, files: seq<File>, db: Database<S>, k: nat, p: nat)
    requires Distinct(files) && p < |files| && k <= |files| && db.recorded == Names(files[..k])
    ensures var (before, ok) := Boot(run, db, files[..p]);
            Boot(run, db, files[..p + 1]) ==
            if !ok then (before, false) else if p < k then (before, true) else ApplyOne(run, before, files[p])
  {
    assert files[..p + 1][..p] == files[..p];
    SkipsRecorded(files, k, p);
  }

  /** A boot goes on from wherever the last one stopped, and stops somewhere further on, or at the end. */
  lemma {:induction false} BootStands<S(!new)>(run: Effect<S>, s0: S, files: seq<File>, db: Database<S>, k: nat, j: nat,
                                               p: nat)
    returns (k': nat, j': nat)
    requires Distinct(files) && (forall f :: f in files ==> Rerunnable(run, f))
    requires Standing(run, s0, files, db, k, j) && p <= |files|
    ensures var (after, ok) := Boot(run, db, files[..p]);
            && Standing(run, s0, files, after, k', j')
            && (ok ==> k' == (if p < k then k else p))
            && (ok && p <= k ==> after == db && j' == j)
            && (ok && p > k ==> j' == 0)
  {
    if p == 0 {
      k', j' := k, j;
    } else {
      k', j' := BootStands(run, s0, files, db, k, j, p - 1);
      BootNext(run, files, db, k, p - 1);
      var (before, ok) := Boot(run, db, files[..p - 1]);
      if ok && p > k {
        assert files[p - 1] in files;
        j' := ApplyStands(run, s0, files, before, p - 1, j');
        k' := p - 1;
        if ApplyOne(run, before, files[p - 1]).1 {
          k', j' := p, 0;
        }
      }
    }
  }

  /** The database after boots that each got `budgets[i]` operations, from a schema with nothing recorded. */
  function AfterBoots<S>(run: Effect<S>, s0: S, files: seq<File>, budgets: seq<nat>): Database<S> {
    if budgets == [] then Database(s0, {}, 0)
    else Boot(run, AfterBoots(run, s0, files, budgets[..|budgets| - 1]).(left := budgets[|budgets| - 1]), files).0
  }

  /**
   * Where boots may stop, if every statement of the release may be run again after later ones of its own file: whole
   * files are in the schema and recorded, and of the next file the first statements, whatever boots were cut where.
   */
  lemma {:induction false} BootsStand<S(!new)>(run: Effect<S>, s0: S, files: seq<File>, budgets: seq<nat>)
    returns (k: nat, j: nat)
    requires Distinct(files) && forall f :: f in files ==> Rerunnable(run, f)
    ensures Standing(run, s0, files, AfterBoots(run, s0, files, budgets), k, j)
  {
    if budgets == [] {
      k, j := 0, 0;
      assert files[..0] == [];
      if files != [] {
        assert Statements(files[0].text)[..0] == [];
      }
    } else {
      var front := budgets[..|budgets| - 1];
      k, j := BootsStand(run, s0, files, front);
      assert files[..|files|] == files;
      var db := AfterBoots(run, s0, files, front).(left := budgets[|budgets| - 1]);
      k, j := BootStands(run, s0, files, db, k, j, |files|);
    }
  }

  // ---- recovery

  /**
   * The recorded names are the first k, and applying the next file from here ends where it would end from a clean
   * start.
   */
  ghost predicate OnCourse<S>(run: Effect<S>, s0: S, files: seq<File>, db: Database<S>, k: nat) {
    && k <= |files| && db.recorded == Names(files[..k])
    && (if k < |files| then ApplyFile(run, db.schema, files[k]) == ApplyAll(run, s0, files[..k + 1])
        else db.schema == ApplyAll(run, s0, files))
  }

  lemma ClearCourse<S>(run: Effect<S>, s0: S, files: seq<File>, db: Database<S>, k: nat)
    requires k <= |files| && db.recorded == Names(files[..k]) && db.schema == ApplyAll(run, s0, files[..k])
    ensures OnCourse(run, s0, files, db, k)
  {
    if k < |files| {
      assert files[..k + 1][..k] == files[..k];
    } else {
      assert files[..k] == files;
    }
  }

  lemma ApplyStaysOnCourse<S(!new)>(run: Effect<S>, s0: S, files: seq<File>, db: Database<S>, k: nat)
    requires OnCourse(run, s0, files, db, k) && k < |files| && Resumable(run, files[k])
    ensures var (after, ok) := ApplyOne(run, db, files[k]);
            OnCourse(run, s0, files, after, if ok then k + 1 else k)
  {
    var f := files[k];
    var (after, ok) := ApplyOne(run, db, f);
    if ok {
      RecordNext(files, k);
      var stmts := Statements(f.text);
      assert stmts[..|stmts|] == stmts;
      ClearCourse(run, s0, files, after, k + 1);
    }
  }

  /** A boot stays on course, and has every file behind it if it succeeds. */
  lemma {:induction false} BootStaysOnCourse<S(!new)>(run: Effect<S>, s0: S, files: seq<File>, db: Database<S>, k: nat,
                                                      p: nat)
    returns (k': nat)
    requires Distinct(files) && (forall f :: f in files ==> Resumable(run, f))
    requires OnCourse(run, s0, files, db, k) && p <= |files|
    ensures var (after, ok) := Boot(run, db, files[..p]);
            OnCourse(run, s0, files, after, k') && (ok ==> k' == (if p < k then k else p))
  {
    k' := k;
    if p > 0 {
      k' := BootStaysOnCourse(run, s0, files, db, k, p - 1);
      BootNext(run, files, db, k, p - 1);
      var (before, ok) := Boot(run, db, files[..p - 1]);
      if ok && p > k {
        assert files[p - 1] in files;
        ApplyStaysOnCourse(run, s0, files, before, p - 1);
        k' := if ApplyOne(run, before, files[p - 1]).1 then p else p - 1;
      }
    }
  }

  lemma {:induction false} BootsStayOnCourse<S(!new)>(run: Effect<S>, s0: S, files: seq<File>, budgets: seq<nat>)
    returns (k: nat)
    requires Distinct(files) && forall f :: f in files ==> Resumable(run, f)
    ensures OnCourse(run, s0, files, AfterBoots(run, s0, files, budgets), k)
  {
    if budgets == [] {
      k := 0;
      assert files[..0] == [];
      ClearCourse(run, s0, files, Database(s0, {}, 0), 0);
    } else {
      var front, last := budgets[..|budgets| - 1], budgets[|budgets| - 1];
      k := BootsStayOnCourse(run, s0, files, front);
      assert files[..|files|] == files;
      k := BootStaysOnCourse(run, s0, files, AfterBoots(run, s0, files, front).(left := last), k, |files|);
    }
  }

  /**
   * Crash recovery. However many boots were cut short, and wherever: the recorded names are a prefix of the list; and
   * the first boot that succeeds leaves what one in-order application of every file leaves.
   */
  lemma Recovery<S(!new)>(run: Effect<S>, s0: S, files: seq<File>, budgets: seq<nat>, last: nat)
    requires Distinct(files) && forall f :: f in files ==> Resumable(run, f)
    ensures exists k :: 0 <= k <= |files| && AfterBoots(run, s0, files, budgets).recorded == Names(files[..k])
    ensures var (db, ok) := Boot(run, AfterBoots(run, s0, files, budgets).(left := last), files);
            ok ==> db.recorded == Names(files) && db.schema == ApplyAll(run, s0, files)
  {
    var k := BootsStayOnCourse(run, s0, files, budgets);
    assert files[..|files|] == files;
    var k' := BootStaysOnCourse(run, s0, files, AfterBoots(run, s0, files, budgets).(left := last), k, |files|);
  }

  /** From every schema and after every run of cut boots, the first boot that succeeds leaves the file applied once. */
  ghost predicate Recovers<S(!new)>(run: Effect<S>, f: File) {
    forall s0: S, budgets: seq<nat>, last: nat ::
      var (db, ok) := Boot(run, AfterBoots(run, s0, [f], budgets).(left := last), [f]);
      ok ==> db.schema == ApplyFile(run, s0, f)
  }

  /** One boot cut after j statements, and one that has all the operations it needs. */
  lemma CutThenRerun<S(!new)>(run: Effect<S>, f: File, x: S, j: nat)
    requires IsNoTx(f.text) && j <= |Statements(f.text)|
    ensures var stmts := Statements(f.text);
            var cut := AfterBoots(run, x, [f], [j]);
            && cut == Database(RunAll(run, x, stmts[..j]), {}, 0)
            && Boot(run, cut.(left := |stmts| + 1), [f])
               == (Database(RunAll(run, RunAll(run, x, stmts[..j]), stmts), {f.name}, 0), true)
  {
    var stmts := Statements(f.text);
    assert stmts[..|stmts|] == stmts && [f][..0] == [] && [j][..0] == [];
    assert AfterBoots(run, x, [f], []) == Database(x, {}, 0);
    assert {} + {f.name} == {f.name};
    BootOne(run, Database(x, {}, j), f);
    BootOne(run, Database(RunAll(run, x, stmts[..j]), {}, |stmts| + 1), f);
  }

  lemma BootOne<S>(run: Effect<S>, db: Database<S>, f: File)
    requires f.name !in db.recorded
    ensures Boot(run, db, [f]) == ApplyOne(run, db, f)
  {
    assert [f][..0] == [];
  }

  /** When a file recovers: exactly if, run whole after a cut anywhere, it leaves what it leaves without one. */
  lemma RecoversIff<S(!new)>(run: Effect<S>, f: File)
    ensures Recovers(run, f) <==> Resumable(run, f)
  {
    if Resumable(run, f) {
      forall s0: S, budgets: seq<nat>, last: nat
        ensures var (db, ok) := Boot(run, AfterBoots(run, s0, [f], budgets).(left := last), [f]);
                ok ==> db.schema == ApplyFile(run, s0, f)
      {
        Recovery(run, s0, [f], budgets, last);
        assert [f][..0] == [];
      }
    }
    if Recovers(run, f) && IsNoTx(f.text) {
      var stmts := Statements(f.text);
      forall x: S, j: nat | j <= |stmts|
        ensures RunAll(run, RunAll(run, x, stmts[..j]), stmts) == RunAll(run, x, stmts)
      {
        CutThenRerun(run, f, x, j);
        assert Boot(run, AfterBoots(run, x, [f], [j]).(left := |stmts| + 1), [f]).1;
      }
    }
  }

  /** Once every file is recorded, a boot does nothing, even one that could not do anything. */
  lemma {:induction false} MigratedBootsDoNothing<S>(run: Effect<S>, db: Database<S>, files: seq<File>)
    requires Names(files) <= db.recorded
    ensures Boot(run, db, files) == (db, true)
  {
    if files != [] {
      var n := |files| - 1;
      assert files[n].name in Names(files);
      assert forall f :: f in files[..n] ==> f in files;
      MigratedBootsDoNothing(run, db, files[..n]);
    }
  }

  function Operations(files: seq<File>): nat {
    if files == [] then 0
    else
      var f := files[|files| - 1];
      Operations(files[..|files| - 1]) + if IsNoTx(f.text) then |Statements(f.text)| + 1 else 1
  }

  /** And a boot that is left alone long enough does succeed. */
  lemma {:induction false} EnoughSucceeds<S>(run: Effect<S>, db: Database<S>, files: seq<File>)
    requires db.left >= Operations(files)
    ensures Boot(run, db, files).1
    ensures Boot(run, db, files).0.left >= db.left - Operations(files)
  {
    if files != [] {
      EnoughSucceeds(run, db, files[..|files| - 1]);
    }
  }
}
