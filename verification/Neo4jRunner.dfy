/**
 The Cypher migration runner (ops/migrate_neo4j.py). Statements commit one by
 one; a file is recorded after its last statement; a run may die before any of
 these operations, and the next run starts over. A statement creates a named
 piece of schema if it is absent.
 */
module Neo4jRunner {
  import opened JsonText

  /** `CREATE ... name IF NOT EXISTS ...`. */
  datatype Statement = Create(name: string, definition: string)

  datatype File = File(version: string, statements: seq<Statement>)

  type Schema = map<string, string>

  /** A statement executed, of which file. */
  datatype Executed = Executed(version: string, statement: Statement)

  /** The graph: its schema and its `:_Migration` nodes; and all statements executed so far. */
  datatype Graph = Graph(schema: Schema, applied: set<string>, trace: seq<Executed>)

  function Apply(schema: Schema, s: Statement): Schema {
    if s.name in schema then schema else schema[s.name := s.definition]
  }

  function ApplyAll(schema: Schema, statements: seq<Statement>): Schema {
    if statements == [] then schema
    else Apply(ApplyAll(schema, statements[..|statements| - 1]), statements[|statements| - 1])
  }

  function Traced(version: string, statements: seq<Statement>): (r: seq<Executed>)
    ensures |r| == |statements|
  {
    seq(|statements|, i requires 0 <= i < |statements| => Executed(version, statements[i]))
  }

  /** The graph after these statements of one file. */
  function Execute(g: Graph, version: string, statements: seq<Statement>): Graph {
    Graph(ApplyAll(g.schema, statements), g.applied, g.trace + Traced(version, statements))
  }

  function Record(g: Graph, version: string): Graph { g.(applied := g.applied + {version}) }

  /** A run's state: the graph, and how many more operations it lives to do; none once it is dead. */
  datatype Run = Run(graph: Graph, left: Option<nat>)

  /** Apply one file: skip it if recorded; otherwise its statements and the record, as far as the run lives. */
  function ApplyFile(r: Run, f: File): Run {
    match r.left
    case None => r
    case Some(left) =>
      if f.version in r.graph.applied then r
      else if left <= |f.statements| then Run(Execute(r.graph, f.version, f.statements[..left]), None)
      else Run(Record(Execute(r.graph, f.version, f.statements), f.version), Some(left - |f.statements| - 1))
  }

  function ApplyFiles(r: Run, files: seq<File>): Run {
    if files == [] then r else ApplyFile(ApplyFiles(r, files[..|files| - 1]), files[|files| - 1])
  }

  /** One run after another, each with the number of operations it lives to do. */
  function Runs(g: Graph, files: seq<File>, lives: seq<nat>): Graph {
    if lives == [] then g
    else ApplyFiles(Run(Runs(g, files, lives[..|lives| - 1]), Some(lives[|lives| - 1])), files).graph
  }

  // ---------------------------------------------------------------- as it runs

  class Driver {
    var graph: Graph
    var left: Option<nat>

    constructor (graph: Graph, lives: nat)
      ensures State() == Run(graph, Some(lives))
    {
      this.graph, this.left := graph, Some(lives);
    }

    function State(): Run
      reads this
    {
      Run(graph, left)
    }

    /** Use up one operation, or die. */
    method Live() returns (alive: bool)
      requires left.Some?
      modifies this`left
      ensures alive == (old(left).value > 0)
      ensures left == if alive then Some(old(left).value - 1) else None
    {
      alive := left.value > 0;
      left := if alive then Some(left.value - 1) else None;
    }

    /** `_apply_migration`. */
    method ApplyMigration(file: File)
      requires left.Some?
      modifies this
      ensures State() == ApplyFile(old(State()), file)
    {
      if file.version in graph.applied {
        return;
      }
      ghost var before := State();
      var i := 0;
      while i < |file.statements|
        invariant 0 <= i <= |file.statements|
        invariant left.Some? && before.left.value == left.value + i
        invariant graph == Execute(before.graph, file.version, file.statements[..i])
        decreases |file.statements| - i
      {
        var alive := Live();
        if !alive {
          return;
        }
        ExecuteNext(before.graph, file.version, file.statements, i);
        var s := file.statements[i];
        graph := Graph(Apply(graph.schema, s), graph.applied, graph.trace + [Executed(file.version, s)]);
        i := i + 1;
      }
      assert file.statements[..i] == file.statements;
      var alive := Live();
      if alive {
        graph := graph.(applied := graph.applied + {file.version});
      }
    }

    /** The loop of `main` over the sorted files. */
    method Migrate(files: seq<File>)
      requires left.Some?
      modifies this
      ensures State() == ApplyFiles(old(State()), files)
    {
      ghost var before := State();
      var i := 0;
      while i < |files|
        invariant 0 <= i <= |files|
        invariant left.Some? && State() == ApplyFiles(before, files[..i])
        decreases |files| - i
      {
        assert files[..i + 1][..i] == files[..i];
        ApplyMigration(files[i]);
        i := i + 1;
        if left == None {
          DeadStaysDead(before, files, i);
          return;
        }
      }
      assert files[..i] == files;
    }
  }

  lemma ExecuteNext(g: Graph, version: string, statements: seq<Statement>, i: nat)
    requires i < |statements|
    ensures var h := Execute(g, version, statements[..i]);
            Execute(g, version, statements[..i + 1]) ==
            Graph(Apply(h.schema, statements[i]), h.applied, h.trace + [Executed(version, statements[i])])
  {
    assert statements[..i + 1][..i] == statements[..i];
    assert Traced(version, statements[..i + 1]) ==
           Traced(version, statements[..i]) + [Executed(version, statements[i])];
  }

  lemma {:induction false} DeadStaysDead(r: Run, files: seq<File>, i: nat)
    requires i <= |files| && ApplyFiles(r, files[..i]).left == None
    ensures ApplyFiles(r, files) == ApplyFiles(r, files[..i])
  {
    if i < |files| {
      var front := files[..|files| - 1];
      assert front[..i] == files[..i];
      DeadStaysDead(r, front, i);
    } else {
      assert files[..i] == files;
    }
  }

  // ---------------------------------------------------------------- the invariant

  ghost predicate DistinctVersions(files: seq<File>) {
    forall i, j | 0 <= i < |files| && 0 <= j < |files| && files[i].version == files[j].version :: i == j
  }

  /** All statements of these files, in order. */
  function AllStatements(files: seq<File>): seq<Statement> {
    if files == [] then [] else AllStatements(files[..|files| - 1]) + files[|files| - 1].statements
  }

  function Versions(files: seq<File>): set<string> { set f | f in files :: f.version }

  /** What is recorded: the versions of the first `n` files and no others. */
  ghost predicate RecordedPrefix(g: Graph, files: seq<File>, n: nat) {
    n <= |files| && g.applied == Versions(files[..n])
  }

  /** The schema is that of the first `n` files and the first `m` statements of the next. */
  ghost predicate SchemaAt(base: Schema, g: Graph, files: seq<File>, n: nat, m: nat) {
    && n <= |files| && (n == |files| ==> m == 0) && (n < |files| ==> m <= |files[n].statements|)
    && g.schema == ApplyAll(base, AllStatements(files[..n]) + if n < |files| then files[n].statements[..m] else [])
  }

  /** Every statement of the first `n` files has been executed. */
  ghost predicate PrefixExecuted(g: Graph, files: seq<File>, n: nat) {
    n <= |files| &&
    forall i, j | 0 <= i < n && 0 <= j < |files[i].statements| ::
      Executed(files[i].version, files[i].statements[j]) in g.trace
  }

  ghost predicate At(base: Schema, g: Graph, files: seq<File>, n: nat, m: nat) {
    RecordedPrefix(g, files, n) && SchemaAt(base, g, files, n, m) && PrefixExecuted(g, files, n)
  }

  // ---------------------------------------------------------------- re-execution

  lemma {:induction false} ApplyAllAppend(base: Schema, a: seq<Statement>, b: seq<Statement>)
    ensures ApplyAll(base, a + b) == ApplyAll(ApplyAll(base, a), b)
  {
    if b == [] {
      assert a + b == a;
    } else {
      ApplyAllAppend(base, a, b[..|b| - 1]);
      assert (a + b)[..|a + b| - 1] == a + b[..|b| - 1];
    }
  }

  lemma {:induction false} NamesPresent(base: Schema, a: seq<Statement>)
    ensures forall s | s in a :: s.name in ApplyAll(base, a)
    ensures forall k | k in base :: k in ApplyAll(base, a) && ApplyAll(base, a)[k] == base[k]
  {
    if a != [] {
      NamesPresent(base, a[..|a| - 1]);
      assert a == a[..|a| - 1] + [a[|a| - 1]];
    }
  }

  lemma {:induction false} PresentIsNoOp(schema: Schema, a: seq<Statement>)
    requires forall s | s in a :: s.name in schema
    ensures ApplyAll(schema, a) == schema
  {
    if a != [] {
      PresentIsNoOp(schema, a[..|a| - 1]);
      assert a[|a| - 1] in a;
    }
  }

  /** Executing statements again from the start of a file gets as far as the furthest of the two attempts. */
  lemma Reexecute(base: Schema, a: seq<Statement>, m: nat, k: nat)
    requires m <= |a| && k <= |a|
    ensures ApplyAll(ApplyAll(base, a[..m]), a[..k]) == ApplyAll(base, a[..if m < k then k else m])
  {
    var schema := ApplyAll(base, a[..m]);
    NamesPresent(base, a[..m]);
    if k <= m {
      PresentIsNoOp(schema, a[..k]);
    } else {
      PresentIsNoOp(schema, a[..m]);
      ApplyAllAppend(schema, a[..m], a[m..k]);
      ApplyAllAppend(base, a[..m], a[m..k]);
      assert a[..m] + a[m..k] == a[..k];
    }
  }

  // ---------------------------------------------------------------- one file

  lemma VersionRecorded(files: seq<File>, n: nat, i: nat)
    requires DistinctVersions(files) && n <= |files| && i < |files|
    ensures files[i].version in Versions(files[..n]) <==> i < n
  {
    if i < n {
      assert files[..n][i] == files[i];
    }
    if files[i].version in Versions(files[..n]) {
      var f :| f in files[..n] && f.version == files[i].version;
      var j :| 0 <= j < n && files[..n][j] == f;
      assert files[j].version == files[i].version;
    }
  }

  lemma NextStatements(files: seq<File>, n: nat)
    requires n < |files|
    ensures AllStatements(files[..n + 1]) == AllStatements(files[..n]) + files[n].statements
    ensures Versions(files[..n + 1]) == Versions(files[..n]) + {files[n].version}
  {
    assert files[..n + 1] == files[..n] + [files[n]];
  }

  lemma TraceGrows(g: Graph, version: string, statements: seq<Statement>, files: seq<File>, n: nat)
    requires PrefixExecuted(g, files, n)
    ensures PrefixExecuted(Execute(g, version, statements), files, n)
  {
  }

  /** A run dies within file `n`, after `k` of its statements. */
  lemma DiesWithin(base: Schema, g: Graph, files: seq<File>, n: nat, m: nat, k: nat)
    requires At(base, g, files, n, m) && n < |files| && k <= |files[n].statements|
    ensures At(base, Execute(g, files[n].version, files[n].statements[..k]), files, n, if m < k then k else m)
  {
    var a, mid := files[n].statements, ApplyAll(base, AllStatements(files[..n]));
    ApplyAllAppend(base, AllStatements(files[..n]), a[..m]);
    Reexecute(mid, a, m, k);
    ApplyAllAppend(base, AllStatements(files[..n]), a[..if m < k then k else m]);
    TraceGrows(g, files[n].version, a[..k], files, n);
  }

  lemma WholeFileExecuted(g: Graph, files: seq<File>, n: nat)
    requires PrefixExecuted(g, files, n) && n < |files|
    ensures PrefixExecuted(Execute(g, files[n].version, files[n].statements), files, n + 1)
  {
    var h := Execute(g, files[n].version, files[n].statements);
    forall j | 0 <= j < |files[n].statements| ensures Executed(files[n].version, files[n].statements[j]) in h.trace {
      assert Traced(files[n].version, files[n].statements)[j] in h.trace;
    }
  }

  lemma RecordsFile(base: Schema, g: Graph, files: seq<File>, n: nat, m: nat)
    requires At(base, g, files, n, m) && n < |files|
    ensures At(base, Record(Execute(g, files[n].version, files[n].statements), files[n].version), files, n + 1, 0)
  {
    var a := files[n].statements;
    DiesWithin(base, g, files, n, m, |a|);
    assert a[..|a|] == a;
    WholeFileExecuted(g, files, n);
    NextStatements(files, n);
    if n + 1 < |files| {
      assert files[n + 1].statements[..0] == [];
    }
    assert AllStatements(files[..n + 1]) + [] == AllStatements(files[..n + 1]);
  }

  // ---------------------------------------------------------------- one run

  /** Progress never goes back, and only files not yet recorded are executed. */
  ghost predicate Forward(base: Schema, files: seq<File>, from: nat, g: Graph, r: Run, done: nat) {
    && g.trace <= r.graph.trace
    && (forall e | e in r.graph.trace[|g.trace|..] :: exists i :: from <= i < |files| && files[i].version == e.version)
    && exists n: nat, m :: from <= n && At(base, r.graph, files, n, m) && (r.left.Some? ==> n >= done)
  }

  lemma ExtendTrace(files: seq<File>, from: nat, old_: seq<Executed>, now: seq<Executed>, version: string,
                    statements: seq<Statement>, i: nat)
    requires old_ <= now && from <= i < |files| && files[i].version == version
    requires forall e | e in now[|old_|..] :: exists j :: from <= j < |files| && files[j].version == e.version
    ensures var next := now + Traced(version, statements);
            old_ <= next &&
            forall e | e in next[|old_|..] :: exists j :: from <= j < |files| && files[j].version == e.version
  {
    var next := now + Traced(version, statements);
    assert next[|old_|..] == now[|old_|..] + Traced(version, statements);
  }

  lemma FileForward(base: Schema, files: seq<File>, from: nat, g: Graph, r: Run, done: nat)
    requires DistinctVersions(files) && done < |files| && Forward(base, files, from, g, r, done)
    ensures Forward(base, files, from, g, ApplyFile(r, files[done]), done + 1)
  {
    if r.left.Some? {
      var n: nat, m :| from <= n && At(base, r.graph, files, n, m) && n >= done;
      VersionRecorded(files, n, done);
      if n == done {
        var a, left := files[n].statements, r.left.value;
        if left <= |a| {
          DiesWithin(base, r.graph, files, n, m, left);
          ExtendTrace(files, from, g.trace, r.graph.trace, files[n].version, a[..left], n);
        } else {
          RecordsFile(base, r.graph, files, n, m);
          ExtendTrace(files, from, g.trace, r.graph.trace, files[n].version, a, n);
        }
      }
    }
  }

  lemma {:induction false} FilesForward(base: Schema, files: seq<File>, g: Graph, from: nat, m: nat, life: nat, k: nat)
    requires DistinctVersions(files) && At(base, g, files, from, m) && k <= |files|
    ensures Forward(base, files, from, g, ApplyFiles(Run(g, Some(life)), files[..k]), k)
  {
    if k == 0 {
      assert g.trace[|g.trace|..] == [];
    } else {
      FilesForward(base, files, g, from, m, life, k - 1);
      assert files[..k][..k - 1] == files[..k - 1];
      FileForward(base, files, from, g, ApplyFiles(Run(g, Some(life)), files[..k - 1]), k - 1);
    }
  }

  // ---------------------------------------------------------------- all runs

  /** The graph before the first run: some schema, nothing recorded. */
  function Fresh(base: Schema): Graph { Graph(base, {}, []) }

  lemma {:induction false} AlwaysAt(base: Schema, files: seq<File>, lives: seq<nat>)
    requires DistinctVersions(files)
    ensures exists n: nat, m :: At(base, Runs(Fresh(base), files, lives), files, n, m)
  {
    if lives == [] {
      StartsAt(base, files);
      assert At(base, Runs(Fresh(base), files, lives), files, 0, 0);
    } else {
      var k := |lives| - 1;
      AlwaysAt(base, files, lives[..k]);
      var g := Runs(Fresh(base), files, lives[..k]);
      var n: nat, m :| At(base, g, files, n, m);
      FilesForward(base, files, g, n, m, lives[k], |files|);
      assert files[..|files|] == files;
      var r := ApplyFiles(Run(g, Some(lives[k])), files);
      var n': nat, m' :| n <= n' && At(base, r.graph, files, n', m');
      assert Runs(Fresh(base), files, lives) == r.graph;
    }
  }

  lemma StartsAt(base: Schema, files: seq<File>)
    ensures At(base, Fresh(base), files, 0, 0)
  {
    assert files[..0] == [];
    assert files != [] ==> files[0].statements[..0] == [];
  }

  /**
   Whatever runs have died wherever: what is recorded are the first so many files,
   and every statement of a recorded file has been executed.
   */
  lemma RecordedMeansExecuted(base: Schema, files: seq<File>, lives: seq<nat>)
    requires DistinctVersions(files)
    ensures var g := Runs(Fresh(base), files, lives);
            exists n: nat :: RecordedPrefix(g, files, n) && PrefixExecuted(g, files, n)
  {
    AlwaysAt(base, files, lives);
    var n: nat, m :| At(base, Runs(Fresh(base), files, lives), files, n, m);
  }

  /** A run executes statements of unrecorded files only, and keeps every record. */
  lemma RecordedIsNotExecutedAgain(base: Schema, files: seq<File>, lives: seq<nat>, life: nat)
    requires DistinctVersions(files)
    ensures var g, h := Runs(Fresh(base), files, lives), Runs(Fresh(base), files, lives + [life]);
            g.applied <= h.applied && g.trace <= h.trace &&
            forall e | e in h.trace[|g.trace|..] :: e.version !in g.applied
  {
    var g := Runs(Fresh(base), files, lives);
    var r := ApplyFiles(Run(g, Some(life)), files);
    assert (lives + [life])[..|lives|] == lives;
    AlwaysAt(base, files, lives);
    var n: nat, m :| At(base, g, files, n, m);
    FilesForward(base, files, g, n, m, life, |files|);
    assert files[..|files|] == files;
    forall e | e in r.graph.trace[|g.trace|..] ensures e.version !in g.applied {
      var i :| n <= i < |files| && files[i].version == e.version;
      VersionRecorded(files, n, i);
    }
    var k: nat, l :| n <= k && At(base, r.graph, files, k, l);
    forall v | v in g.applied ensures v in r.graph.applied {
      var f :| f in files[..n] && f.version == v;
      assert f in files[..k];
    }
  }

  /** A run that completes leaves the schema a run without any crash would have left, and everything recorded. */
  lemma CompletedRunConverges(base: Schema, files: seq<File>, lives: seq<nat>, life: nat)
    requires DistinctVersions(files)
    requires ApplyFiles(Run(Runs(Fresh(base), files, lives), Some(life)), files).left.Some?
    ensures var g := Runs(Fresh(base), files, lives + [life]);
            g.schema == ApplyAll(base, AllStatements(files)) && g.applied == Versions(files)
  {
    var g := Runs(Fresh(base), files, lives);
    assert (lives + [life])[..|lives|] == lives;
    AlwaysAt(base, files, lives);
    var n: nat, m :| At(base, g, files, n, m);
    FilesForward(base, files, g, n, m, life, |files|);
    assert files[..|files|] == files;
    assert AllStatements(files) + [] == AllStatements(files);
  }

  /** A run that lives long enough completes. */
  lemma {:induction false} LongLifeCompletes(g: Graph, files: seq<File>, life: nat)
    requires life >= |AllStatements(files)| + |files|
    ensures var r := ApplyFiles(Run(g, Some(life)), files);
            r.left.Some? && r.left.value >= life - |AllStatements(files)| - |files|
  {
    if files != [] {
      LongLifeCompletes(g, files[..|files| - 1], life);
    }
  }
}
