/** The ClickHouse migration runner (pkg/clickhouse/migrate.go): statements one by one, no
    transactions, the file recorded last. The schema and what a statement does to it are arbitrary;
    a statement may also refuse to run. */
module ChMigrate {
  import opened Wrappers

  /** A file, already split at semicolons and trimmed; blank pieces are not statements. */
  datatype File = File(name: string, pieces: seq<string>)

  datatype State<S> = State(schema: S, ledger: seq<string>)

  /** A statement's effect; None is an error that leaves the schema as it was. */
  type Exec<!S> = (S, string) -> Option<S>

  /** Where a list of statements stopped, and whether it got through. */
  datatype Pass<S> = Pass(schema: S, through: bool)

  /** What a run leaves, and whether it returned without error. */
  datatype Result<S> = Result(state: State<S>, ok: bool)

  ghost predicate DistinctNames(files: seq<File>) {
    forall i, j :: 0 <= i < j < |files| ==> files[i].name != files[j].name
  }

  function Statements(pieces: seq<string>): seq<string> {
    if pieces == [] then []
    else (if pieces[0] == "" then [] else [pieces[0]]) + Statements(pieces[1..])
  }

  /** Statements in order, up to the first that errors. */
  function RunAll<S>(exec: Exec<S>, schema: S, stmts: seq<string>): Pass<S> {
    if stmts == [] then Pass(schema, true)
    else
      var next := exec(schema, stmts[0]);
      if next.None? then Pass(schema, false) else RunAll(exec, next.value, stmts[1..])
  }

  /** As many statements as the budget lasts for. */
  function Within(stmts: seq<string>, budget: nat): (part: seq<string>)
    ensures part <= stmts && |part| <= budget
    ensures budget >= |stmts| ==> part == stmts
  {
    if budget <= |stmts| then stmts[..budget] else stmts
  }

  /** One run that skips the files in `applied` and dies after `budget` operations, a statement or a
      ledger insert each, if no statement errors before. */
  function RunUpTo<S>(exec: Exec<S>, st: State<S>, files: seq<File>, applied: set<string>, budget: nat): Result<S>
    decreases |files|
  {
    if files == [] then Result(st, true)
    else if files[0].name in applied then RunUpTo(exec, st, files[1..], applied, budget)
    else
      var stmts := Statements(files[0].pieces);
      var pass := RunAll(exec, st.schema, Within(stmts, budget));
      if budget <= |stmts| || !pass.through then Result(st.(schema := pass.schema), false)
      else RunUpTo(exec, State(pass.schema, st.ledger + [files[0].name]), files[1..], applied, budget - |stmts| - 1)
  }

  function Recorded(ledger: seq<string>): set<string> {
    set n | n in ledger
  }

  function CrashedRun<S>(exec: Exec<S>, st: State<S>, files: seq<File>, budget: nat): Result<S> {
    RunUpTo(exec, st, files, Recorded(st.ledger), budget)
  }

  /** As many operations as a run can need. */
  function Enough(files: seq<File>): nat {
    if files == [] then 0 else |Statements(files[0].pieces)| + 1 + Enough(files[1..])
  }

  /** A run that nothing but its own statements can stop. */
  function CompleteRun<S>(exec: Exec<S>, st: State<S>, files: seq<File>): Result<S> {
    CrashedRun(exec, st, files, Enough(files))
  }

  /** One crash after another. */
  function CrashedRuns<S>(exec: Exec<S>, st: State<S>, files: seq<File>, budgets: seq<nat>): State<S> {
    if budgets == [] then st
    else CrashedRun(exec, CrashedRuns(exec, st, files, budgets[..|budgets| - 1]), files, budgets[|budgets| - 1]).state
  }

  /** Whenever the file gets through from some schema, it also gets through after any part of it has
      run there, to the same schema. */
  ghost predicate Rerunnable<S(!new)>(exec: Exec<S>, f: File) {
    var stmts := Statements(f.pieces);
    forall s: S, k: nat :: k <= |stmts| && RunAll(exec, s, stmts).through ==>
      RunAll(exec, RunAll(exec, s, stmts[..k]).schema, stmts) == RunAll(exec, s, stmts)
  }

  class Connection<S> {
    var schema: S
    var ledger: seq<string>

    constructor (schema: S)
      ensures this.schema == schema && ledger == []
    {
      this.schema, ledger := schema, [];
    }

    /** The names already recorded, each once however often it was inserted. */
    method AppliedMigrations() returns (applied: set<string>)
      ensures applied == Recorded(ledger)
    {
      applied := {};
      for i := 0 to |ledger|
        invariant applied == set n | n in ledger[..i]
      {
        applied := applied + {ledger[i]};
        assert ledger[..i + 1] == ledger[..i] + [ledger[i]];
      }
      assert ledger[..|ledger|] == ledger;
    }

    /** The statements of one file, until one errors or the budget is spent. */
    method RunFile(exec: Exec<S>, pieces: seq<string>, budget: nat) returns (ok: bool, left: nat)
      modifies this
      ensures ledger == old(ledger)
      ensures var stmts := Statements(pieces);
              var pass := RunAll(exec, old(schema), Within(stmts, budget));
              && schema == pass.schema
              && (ok <==> budget >= |stmts| && pass.through)
              && (ok ==> left == budget - |stmts|)
    {
      left := budget;
      ghost var stmts := Statements(pieces);
      ghost var part := Within(stmts, budget);
      ghost var done: nat := 0;
      for j := 0 to |pieces|
        invariant done <= |part| && stmts[done..] == Statements(pieces[j..])
        invariant left == budget - done
        invariant RunAll(exec, old(schema), part) == RunAll(exec, schema, part[done..])
        invariant ledger == old(ledger)
      {
        assert pieces[j..][0] == pieces[j] && pieces[j..][1..] == pieces[j + 1..];
        if pieces[j] == "" {
          continue;
        }
        assert stmts[done] == stmts[done..][0] == pieces[j];
        assert stmts[done + 1..] == stmts[done..][1..];
        if left == 0 {
          assert part[done..] == [];
          return false, 0;
        }
        assert part[done..][0] == pieces[j] && part[done..][1..] == part[done + 1..];
        var next := exec(schema, pieces[j]);
        if !next.Some? {
          return false, 0;
        }
        schema := next.value;
        left := left - 1;
        done := done + 1;
      }
      assert done == |stmts|;
      assert part[done..] == [];
      return true, left;
    }

    /** One call of Migrate that dies after `budget` operations, if it lasts that long. */
    method Migrate(exec: Exec<S>, files: seq<File>, budget: nat) returns (ok: bool)
      modifies this
      ensures Result(State(schema, ledger), ok) == CrashedRun(exec, State(old(schema), old(ledger)), files, budget)
    {
      var applied := AppliedMigrations();
      var left: nat := budget;
      for i := 0 to |files|
        invariant RunUpTo(exec, State(schema, ledger), files[i..], applied, left)
                  == CrashedRun(exec, State(old(schema), old(ledger)), files, budget)
      {
        assert files[i..][0] == files[i] && files[i..][1..] == files[i + 1..];
        if files[i].name in applied {
          continue;
        }
        ghost var stmts := Statements(files[i].pieces);
        assert left == |stmts| ==> stmts[..left] == stmts;
        var done, rest := RunFile(exec, files[i].pieces, left);
        if !done {
          return false;
        }
        if rest == 0 {
          return false;
        }
        ledger := ledger + [files[i].name];
        left := rest - 1;
      }
      return true;
    }
  }

  lemma OnePiece(x: string)
    ensures Statements([x]) == if x == "" then [] else [x]
  {
    assert [x][1..] == [];
  }

  /** Statements run in the order of the text: cutting a file in two and running the halves in turn is
      running the file, and blank pieces are not statements. */
  lemma {:induction false} StatementsInOrder(a: seq<string>, b: seq<string>)
    ensures Statements(a + b) == Statements(a) + Statements(b)
    ensures forall x :: Statements([x]) == if x == "" then [] else [x]
  {
    forall x
      ensures Statements([x]) == if x == "" then [] else [x]
    {
      OnePiece(x);
    }
    if a == [] {
      assert a + b == b;
    } else {
      StatementsInOrder(a[1..], b);
      HeadFirst(a, b);
    }
  }

  lemma HeadFirst(a: seq<string>, b: seq<string>)
    requires a != [] && Statements(a[1..] + b) == Statements(a[1..]) + Statements(b)
    ensures Statements(a + b) == Statements(a) + Statements(b)
  {
    hide Statements;
    FirstPiece(a);
    FirstPiece(a + b);
    assert (a + b)[0] == a[0] && (a + b)[1..] == a[1..] + b;
    Associative(Head(a), Statements(a[1..]), Statements(b));
  }

  function Head(pieces: seq<string>): seq<string>
    requires pieces != []
  {
    if pieces[0] == "" then [] else [pieces[0]]
  }

  lemma FirstPiece(pieces: seq<string>)
    requires pieces != []
    ensures Statements(pieces) == Head(pieces) + Statements(pieces[1..])
  {
  }

  lemma Associative(x: seq<string>, y: seq<string>, z: seq<string>)
    ensures x + (y + z) == (x + y) + z
  {
  }

  lemma {:induction false} RunInOrder<S>(exec: Exec<S>, s: S, a: seq<string>, b: seq<string>)
    ensures var first := RunAll(exec, s, a);
            RunAll(exec, s, a + b) == if first.through then RunAll(exec, first.schema, b) else first
    ensures forall x :: RunAll(exec, s, [x]) == if exec(s, x).None? then Pass(s, false) else Pass(exec(s, x).value, true)
  {
    forall x
      ensures RunAll(exec, s, [x]) == if exec(s, x).None? then Pass(s, false) else Pass(exec(s, x).value, true)
    {
      assert [x][1..] == [];
    }
    if a == [] {
      assert a + b == b;
    } else {
      assert (a + b)[1..] == a[1..] + b && (a + b)[0] == a[0];
      var next := exec(s, a[0]);
      if next.Some? {
        RunInOrder(exec, next.value, a[1..], b);
      }
    }
  }

  // ---- Crashes and retries -----------------------------------------------------------------

  /** The files of which a run executes at least one statement. */
  function Executed<S>(exec: Exec<S>, st: State<S>, files: seq<File>, applied: set<string>, budget: nat): set<string>
    decreases |files|
  {
    if files == [] then {}
    else if files[0].name in applied then Executed(exec, st, files[1..], applied, budget)
    else
      var stmts := Statements(files[0].pieces);
      var pass := RunAll(exec, st.schema, stmts);
      (if stmts != [] && budget > 0 then {files[0].name} else {}) +
      (if budget <= |stmts| || !pass.through then {}
       else Executed(exec, State(pass.schema, st.ledger + [files[0].name]), files[1..], applied, budget - |stmts| - 1))
  }

  /** A recorded file is never executed again: a run executes none of the files recorded before it,
      and whatever it records itself stays recorded. */
  lemma {:induction false} RecordedFilesAreNotRerun<S>(exec: Exec<S>, st: State<S>, files: seq<File>, applied: set<string>, budget: nat)
    ensures Executed(exec, st, files, applied, budget) !! applied
    ensures st.ledger <= RunUpTo(exec, st, files, applied, budget).state.ledger
    decreases |files|
  {
    if files != [] {
      if files[0].name in applied {
        RecordedFilesAreNotRerun(exec, st, files[1..], applied, budget);
      } else {
        var stmts := Statements(files[0].pieces);
        var pass := RunAll(exec, st.schema, stmts);
        if budget > |stmts| && pass.through {
          RecordedFilesAreNotRerun(exec, State(pass.schema, st.ledger + [files[0].name]), files[1..], applied,
                                   budget - |stmts| - 1);
        }
      }
    }
  }

  /** Only names of the remaining files matter to the skip test. */
  lemma {:induction false} SkipTestIsLocal<S>(exec: Exec<S>, st: State<S>, files: seq<File>, a: set<string>, b: set<string>, budget: nat)
    requires forall f :: f in files ==> (f.name in a <==> f.name in b)
    ensures RunUpTo(exec, st, files, a, budget) == RunUpTo(exec, st, files, b, budget)
    decreases |files|
  {
    if files != [] {
      var stmts := Statements(files[0].pieces);
      var pass := RunAll(exec, st.schema, stmts);
      SkipTestIsLocal(exec, st, files[1..], a, b, budget);
      if budget > |stmts| {
        SkipTestIsLocal(exec, State(pass.schema, st.ledger + [files[0].name]), files[1..], a, b, budget - |stmts| - 1);
      }
    }
  }

  lemma NamesBehind(files: seq<File>)
    requires files != [] && DistinctNames(files)
    ensures DistinctNames(files[1..])
    ensures forall f :: f in files[1..] ==> f.name != files[0].name
  {
    forall f | f in files[1..]
      ensures f.name != files[0].name
    {
      var i :| 0 <= i < |files[1..]| && files[1..][i] == f;
      assert files[i + 1] == f;
    }
  }

  lemma {:induction false} EnoughIsEnough<S>(exec: Exec<S>, st: State<S>, files: seq<File>, applied: set<string>, budget: nat)
    requires budget >= Enough(files)
    ensures RunUpTo(exec, st, files, applied, budget) == RunUpTo(exec, st, files, applied, Enough(files))
    decreases |files|
  {
    if files != [] {
      if files[0].name in applied {
        EnoughIsEnough(exec, st, files[1..], applied, budget);
        EnoughIsEnough(exec, st, files[1..], applied, Enough(files));
      } else {
        var stmts := Statements(files[0].pieces);
        var st1 := State(RunAll(exec, st.schema, stmts).schema, st.ledger + [files[0].name]);
        EnoughIsEnough(exec, st1, files[1..], applied, budget - |stmts| - 1);
      }
    }
  }

  /** A complete run does its first unrecorded file and, if that gets through, is a complete run of
      the rest. */
  lemma CompleteRunUnrolls<S>(exec: Exec<S>, st: State<S>, files: seq<File>)
    requires files != [] && DistinctNames(files)
    ensures var pass := RunAll(exec, st.schema, Statements(files[0].pieces));
            CompleteRun(exec, st, files) ==
            if files[0].name in st.ledger then CompleteRun(exec, st, files[1..])
            else if !pass.through then Result(st.(schema := pass.schema), false)
            else CompleteRun(exec, State(pass.schema, st.ledger + [files[0].name]), files[1..])
  {
    var stmts := Statements(files[0].pieces);
    NamesBehind(files);
    if files[0].name in st.ledger {
      EnoughIsEnough(exec, st, files[1..], Recorded(st.ledger), Enough(files));
    } else {
      var st1 := State(RunAll(exec, st.schema, stmts).schema, st.ledger + [files[0].name]);
      assert Recorded(st1.ledger) == Recorded(st.ledger) + {files[0].name};
      SkipTestIsLocal(exec, st1, files[1..], Recorded(st.ledger), Recorded(st1.ledger), Enough(files[1..]));
    }
  }

  /** One crash, wherever it strikes, changes nothing about what the next complete run arrives at:
      if a clean run would get through, so does the retry, with the same schema and ledger. */
  lemma {:induction false} CrashIsHarmless<S(!new)>(exec: Exec<S>, st: State<S>, files: seq<File>, budget: nat)
    requires DistinctNames(files) && forall f :: f in files ==> Rerunnable(exec, f)
    requires CompleteRun(exec, st, files).ok
    ensures CompleteRun(exec, CrashedRun(exec, st, files, budget).state, files) == CompleteRun(exec, st, files)
    decreases |files|
  {
    if files != [] {
      NamesBehind(files);
      var crashed := CrashedRun(exec, st, files, budget).state;
      var stmts := Statements(files[0].pieces);
      CompleteRunUnrolls(exec, st, files);
      CompleteRunUnrolls(exec, crashed, files);
      if files[0].name in st.ledger {
        RecordedFilesAreNotRerun(exec, st, files[1..], Recorded(st.ledger), budget);
        CrashIsHarmless(exec, st, files[1..], budget);
      } else if budget <= |stmts| {
        assert Rerunnable(exec, files[0]);
        assert RunAll(exec, RunAll(exec, st.schema, stmts[..budget]).schema, stmts) == RunAll(exec, st.schema, stmts);
      } else {
        CrashLater(exec, st, files, budget);
        CrashIsHarmless(exec, AfterFirst(exec, st, files), files[1..], budget - |stmts| - 1);
      }
    }
  }

  function AfterFirst<S>(exec: Exec<S>, st: State<S>, files: seq<File>): State<S>
    requires files != []
  {
    State(RunAll(exec, st.schema, Statements(files[0].pieces)).schema, st.ledger + [files[0].name])
  }

  /** A crash after the first file has been recorded is a crash in the rest. */
  lemma CrashLater<S>(exec: Exec<S>, st: State<S>, files: seq<File>, budget: nat)
    requires files != [] && DistinctNames(files) && files[0].name !in st.ledger
    requires budget > |Statements(files[0].pieces)| && RunAll(exec, st.schema, Statements(files[0].pieces)).through
    ensures var crashed := CrashedRun(exec, st, files, budget).state;
            crashed == CrashedRun(exec, AfterFirst(exec, st, files), files[1..],
                                  budget - |Statements(files[0].pieces)| - 1).state
            && files[0].name in crashed.ledger
  {
    NamesBehind(files);
    var stmts := Statements(files[0].pieces);
    var st1 := AfterFirst(exec, st, files);
    var left := budget - |stmts| - 1;
    assert Recorded(st1.ledger) == Recorded(st.ledger) + {files[0].name};
    SkipTestIsLocal(exec, st1, files[1..], Recorded(st.ledger), Recorded(st1.ledger), left);
    RecordedFilesAreNotRerun(exec, st1, files[1..], Recorded(st1.ledger), left);
    assert st1.ledger[|st.ledger|] == files[0].name;
  }

  /** Convergence: if going through a file again after any part of it is harmless and a clean run
      would get through, then any number of crashed runs followed by a complete one get through too,
      to the schema and the ledger of the clean run. */
  lemma {:induction false} CrashedRunsConverge<S(!new)>(exec: Exec<S>, st: State<S>, files: seq<File>, budgets: seq<nat>)
    requires DistinctNames(files) && forall f :: f in files ==> Rerunnable(exec, f)
    requires CompleteRun(exec, st, files).ok
    ensures CompleteRun(exec, CrashedRuns(exec, st, files, budgets), files) == CompleteRun(exec, st, files)
  {
    if budgets != [] {
      var front := budgets[..|budgets| - 1];
      CrashedRunsConverge(exec, st, files, front);
      CrashIsHarmless(exec, CrashedRuns(exec, st, files, front), files, budgets[|budgets| - 1]);
    }
  }

  /** The condition is needed: for a single unrecorded file, every crash is harmless from a given
      schema exactly when re-running it after any part of it is, from that schema. */
  lemma RerunnableIsNeeded<S(!new)>(exec: Exec<S>, schema: S, f: File)
    ensures var stmts := Statements(f.pieces);
            (forall k: nat :: k <= |stmts| ==>
               CompleteRun(exec, CrashedRun(exec, State(schema, []), [f], k).state, [f]) == CompleteRun(exec, State(schema, []), [f]))
            <==>
            (forall k: nat :: k <= |stmts| ==>
               RunAll(exec, RunAll(exec, schema, stmts[..k]).schema, stmts) == RunAll(exec, schema, stmts))
  {
    var stmts := Statements(f.pieces);
    SoleFile(exec, schema, f);
    forall k: nat | k <= |stmts|
      ensures CrashedRun(exec, State(schema, []), [f], k).state == State(RunAll(exec, schema, stmts[..k]).schema, [])
    {
      SoleFile(exec, RunAll(exec, schema, stmts[..k]).schema, f);
    }
    forall k: nat | k <= |stmts|
      ensures CompleteRun(exec, State(RunAll(exec, schema, stmts[..k]).schema, []), [f])
              == Alone(RunAll(exec, RunAll(exec, schema, stmts[..k]).schema, stmts), f)
    {
      SoleFile(exec, RunAll(exec, schema, stmts[..k]).schema, f);
    }
  }

  /** What a pass over one unrecorded file leaves. */
  function Alone<S>(pass: Pass<S>, f: File): Result<S> {
    Result(State(pass.schema, if pass.through then [f.name] else []), pass.through)
  }

  lemma SoleFile<S>(exec: Exec<S>, schema: S, f: File)
    ensures CompleteRun(exec, State(schema, []), [f]) == Alone(RunAll(exec, schema, Statements(f.pieces)), f)
  {
    CompleteRunUnrolls(exec, State(schema, []), [f]);
  }

  /** The hazard the ledger is there for: a single CREATE without IF NOT EXISTS gets through on its
      own, but after a crash between the statement and its record no retry ever does. */
  lemma CreateTwiceIsStuck(name: string, budget: nat)
    ensures var exec: Exec<bool> := (exists_, stmt) => if exists_ then None else Some(true);
            var f := File(name, ["CREATE TABLE t"]);
            && CompleteRun(exec, State(false, []), [f]).ok
            && !Rerunnable(exec, f)
            && (var crashed := CrashedRun(exec, State(false, []), [f], 1).state;
                CrashedRun(exec, crashed, [f], budget) == Result(crashed, false))
  {
    var exec: Exec<bool> := (exists_, stmt) => if exists_ then None else Some(true);
    var f := File(name, ["CREATE TABLE t"]);
    var stmts := Statements(f.pieces);
    assert f.pieces[1..] == [] && stmts == ["CREATE TABLE t"];
    assert stmts[..1] == stmts && stmts[1..] == [];
    SoleFile(exec, false, f);
    assert RunAll(exec, true, stmts) == Pass(true, false);
    assert RunAll(exec, RunAll(exec, false, stmts[..1]).schema, stmts) != RunAll(exec, false, stmts);
  }
}
