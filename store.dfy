/** The run and artifact store (yax/state/artifact_map.py, `ArtifactMap`).
    Three tables: `Run` (one row per distinct parameter vector, keyed by a
    unique run key), `Artifact` (one row per artifact directory) and
    `Artifact_Run` (which runs use which artifact). Runs are deduplicated
    by their whole parameter vector; artifacts are shared between runs that
    agree on the parameters upstream of them. */
module ArtifactStore {
  import opened Base
  import opened Strings
  import opened Parameters
  import Exe
  import opened RunSchema

  // ---------------------------------------------------------------------
  // Rows and the Run table's columns.

  /** A row of `Run`: its id and one cell per data column. */
  datatype RunRow = RunRow(id: int, cells: map<string, Value>)

  /** A row of `Artifact`. */
  datatype ArtifactRow = ArtifactRow(id: int, name: string, path: string)

  /** A row of `Artifact_Run`. */
  datatype Link = Link(artifactId: int, runId: int)

  /** The data columns of `Run`: every column of the schema but `id`. */
  function DataColumns(schema: seq<Column>): set<string> {
    set i | 1 <= i < |schema| :: schema[i].name
  }

  /** The columns the store relies on: `run_key` is a data column, `id` is
      not, and the UNIQUE constraint has at least one column. */
  predicate StoreColumns(cols: set<string>) {
    "run_key" in cols && "id" !in cols && cols - {"run_key"} != {}
  }

  /** The Run table created for a graph has `run_key` among its data
      columns, and its UNIQUE table constraint covers exactly the data
      columns other than `run_key`. */
  lemma SchemaColumns(g: Graph)
    requires GraphValid(g) && InitSchema(g).Success?
    ensures StoreColumns(DataColumns(InitSchema(g).value))
    ensures forall c :: c in UniqueColumns(InitSchema(g).value) <==>
      c in DataColumns(InitSchema(g).value) && c != "run_key"
  {
    RunSchemaShape(g);
    TableColumns(InitSchema(g).value);
  }

  /** The same for any column list with distinct names that starts with
      `id` and `run_key` and has one column more. */
  lemma TableColumns(schema: seq<Column>)
    requires |schema| >= 3 && Distinct(Names(schema))
    requires schema[0].name == "id" && schema[1].name == "run_key"
    ensures StoreColumns(DataColumns(schema))
    ensures forall c :: c in UniqueColumns(schema) <==> c in DataColumns(schema) && c != "run_key"
  {
    TableDataColumns(schema);
    forall c
      ensures c in UniqueColumns(schema) <==> c in DataColumns(schema) && c != "run_key"
    {
      TableUniqueColumn(schema, c);
    }
  }

  /** `run_key` is a data column, `id` is not, and there is another one. */
  lemma TableDataColumns(schema: seq<Column>)
    requires |schema| >= 3 && Distinct(Names(schema))
    requires schema[0].name == "id" && schema[1].name == "run_key"
    ensures StoreColumns(DataColumns(schema))
  {
    var names := Names(schema);
    assert "run_key" in DataColumns(schema) by {
      assert schema[1].name == "run_key";
    }
    assert schema[2].name in DataColumns(schema) - {"run_key"} by {
      assert names[2] != names[1];
    }
  }

  /** A name is under the UNIQUE constraint exactly when it is a data
      column other than `run_key`. */
  lemma TableUniqueColumn(schema: seq<Column>, c: string)
    requires |schema| >= 3 && Distinct(Names(schema))
    requires schema[0].name == "id" && schema[1].name == "run_key"
    ensures c in UniqueColumns(schema) <==> c in DataColumns(schema) && c != "run_key"
  {
    var names := Names(schema);
    if c in UniqueColumns(schema) {
      var k :| 0 <= k < |schema| - 2 && UniqueColumns(schema)[k] == c;
      assert schema[2..][k] == schema[k + 2];
      assert names[k + 2] != names[1];
    }
    if c in DataColumns(schema) && c != "run_key" {
      var i :| 1 <= i < |schema| && schema[i].name == c;
      assert schema[2..][i - 2] == schema[i];
    }
  }

  /** Every cell of the UNIQUE constraint agrees: the two parameter vectors
      are the same. */
  predicate SameVector(a: map<string, Value>, b: map<string, Value>, cols: set<string>) {
    forall c :: c in cols && c != "run_key" ==> c in a && c in b && a[c] == b[c]
  }

  /** A row satisfies a `WHERE k1=? AND k2=? …` clause. */
  predicate Matches(row: RunRow, where: map<string, Value>) {
    forall k :: k in where ==> k in row.cells && row.cells[k] == where[k]
  }

  /** The invariant the Run table's constraints keep: ids positive and
      increasing, every NOT NULL column filled, run keys unique, parameter
      vectors unique. */
  predicate RunsValid(runs: seq<RunRow>, cols: set<string>) {
    && "run_key" in cols
    && (forall i :: 0 <= i < |runs| ==> runs[i].id > 0 && runs[i].cells.Keys == cols)
    && (forall i, j :: 0 <= i < j < |runs| ==> runs[i].id < runs[j].id)
    && (forall i, j :: 0 <= i < j < |runs| ==> runs[i].cells["run_key"] != runs[j].cells["run_key"])
    && (forall i, j :: 0 <= i < j < |runs| ==> !SameVector(runs[i].cells, runs[j].cells, cols))
  }

  /** Some row already holds this run key. */
  predicate KeyTaken(runs: seq<RunRow>, key: Value) {
    exists i :: 0 <= i < |runs| && "run_key" in runs[i].cells && runs[i].cells["run_key"] == key
  }

  /** Some row already holds this parameter vector. */
  predicate VectorTaken(runs: seq<RunRow>, cells: map<string, Value>, cols: set<string>) {
    exists i :: 0 <= i < |runs| && SameVector(runs[i].cells, cells, cols)
  }

  /** The id SQLite gives the next row of a table without AUTOINCREMENT whose
      ids are increasing: one more than the last, 1 for an empty table. */
  function NextRunId(runs: seq<RunRow>): (id: int)
    ensures (forall i :: 0 <= i < |runs| ==> runs[i].id > 0) ==> id > 0
  {
    if runs == [] then 1 else runs[|runs| - 1].id + 1
  }

  // ---------------------------------------------------------------------
  // `_insert_into` and `_select_all_from` on the Run table.

  /** `INSERT OR IGNORE INTO Run (…) VALUES (…)`. An empty column list is an
      SQL syntax error and an unknown column an SQL error; a missing NOT NULL
      column, a run key already present or a parameter vector already
      present make SQLite ignore the row (None); otherwise the row is added
      with the next id. */
  function RunInsertion(runs: seq<RunRow>, cols: set<string>, values: map<string, Value>): (r: Result<Option<RunRow>>)
    requires "id" !in values
    ensures r.Failure? <==> values == map[] || !(values.Keys <= cols)
    ensures r.Failure? ==> r.error.SqlError?
    ensures r.Success? && r.value.Some? <==>
      values != map[] && values.Keys == cols && "run_key" in values
      && !KeyTaken(runs, values["run_key"]) && !VectorTaken(runs, values, cols)
    ensures r.Success? && r.value.Some? ==> r.value.value == RunRow(NextRunId(runs), values)
  {
    if values == map[] then Failure(SqlError("near \")\": syntax error"))
    else if !(values.Keys <= cols) then Failure(SqlError("table Run has no such column"))
    else if values.Keys != cols || "run_key" !in values then Success(None)
    else if KeyTaken(runs, values["run_key"]) then Success(None)
    else if VectorTaken(runs, values, cols) then Success(None)
    else Success(Some(RunRow(NextRunId(runs), values)))
  }

  /** The Run table after an insertion: one row more when it was added. */
  function RunsAfter(runs: seq<RunRow>, cols: set<string>, values: map<string, Value>): seq<RunRow>
    requires "id" !in values
  {
    var ins := RunInsertion(runs, cols, values);
    if ins.Success? && ins.value.Some? then runs + [ins.value.value] else runs
  }

  /** Appending a row with a larger id, a new run key and a new vector
      keeps the table's constraints. */
  lemma RunsValidSnoc(runs: seq<RunRow>, cols: set<string>, row: RunRow)
    requires RunsValid(runs, cols)
    requires row.id > 0 && row.cells.Keys == cols
    requires forall i :: 0 <= i < |runs| ==> runs[i].id < row.id
    requires forall i :: 0 <= i < |runs| ==> runs[i].cells["run_key"] != row.cells["run_key"]
    requires forall i :: 0 <= i < |runs| ==> !SameVector(runs[i].cells, row.cells, cols)
    ensures RunsValid(runs + [row], cols)
  {
    var rs := runs + [row];
    assert forall i :: 0 <= i < |runs| ==> rs[i] == runs[i];
  }

  /** An insertion keeps the table's constraints. */
  lemma RunInsertionKeepsValid(runs: seq<RunRow>, cols: set<string>, values: map<string, Value>)
    requires RunsValid(runs, cols) && "id" !in values
    ensures RunsValid(RunsAfter(runs, cols, values), cols)
  {
    var ins := RunInsertion(runs, cols, values);
    if ins.Success? && ins.value.Some? {
      var row := ins.value.value;
      forall i | 0 <= i < |runs|
        ensures runs[i].id < row.id
      {
        if i < |runs| - 1 {
          assert runs[i].id < runs[|runs| - 1].id;
        }
      }
      forall i | 0 <= i < |runs|
        ensures runs[i].cells["run_key"] != row.cells["run_key"]
      {
        assert "run_key" in runs[i].cells;
      }
      RunsValidSnoc(runs, cols, row);
    }
  }

  /** The rows of `runs` that satisfy `where`, in table order. */
  function Filter(runs: seq<RunRow>, where: map<string, Value>): (s: seq<RunRow>)
    ensures |s| <= |runs|
    ensures forall r :: r in s ==> r in runs && Matches(r, where)
  {
    if runs == [] then []
    else
      var prev := Filter(runs[..|runs| - 1], where);
      var last := runs[|runs| - 1];
      if Matches(last, where) then prev + [last] else prev
  }

  /** A row of the table that satisfies `where` is selected. */
  lemma {:induction false} FilterHas(runs: seq<RunRow>, where: map<string, Value>, i: nat)
    requires i < |runs| && Matches(runs[i], where)
    ensures runs[i] in Filter(runs, where)
  {
    if i < |runs| - 1 {
      var init := runs[..|runs| - 1];
      assert init[i] == runs[i];
      FilterHas(init, where, i);
    }
  }

  /** When exactly the row at `i` satisfies `where`, the selection is that
      row alone. */
  lemma {:induction false} FilterSingle(runs: seq<RunRow>, where: map<string, Value>, i: nat)
    requires i < |runs| && Matches(runs[i], where)
    requires forall j :: 0 <= j < |runs| && j != i ==> !Matches(runs[j], where)
    ensures Filter(runs, where) == [runs[i]]
  {
    var init := runs[..|runs| - 1];
    if i == |runs| - 1 {
      FilterNone(init, where);
    } else {
      forall j | 0 <= j < |init| && j != i
        ensures !Matches(init[j], where)
      {
        assert init[j] == runs[j];
      }
      assert init[i] == runs[i];
      FilterSingle(init, where, i);
    }
  }

  /** When no row satisfies `where`, nothing is selected. */
  lemma {:induction false} FilterNone(runs: seq<RunRow>, where: map<string, Value>)
    requires forall j :: 0 <= j < |runs| ==> !Matches(runs[j], where)
    ensures Filter(runs, where) == []
  {
    if runs != [] {
      var init := runs[..|runs| - 1];
      assert forall j :: 0 <= j < |init| ==> init[j] == runs[j];
      FilterNone(init, where);
    }
  }

  /** `SELECT * FROM Run WHERE k1=? AND …`: an empty clause is an SQL syntax
      error and an unknown column an SQL error. */
  function SelectWhere(runs: seq<RunRow>, cols: set<string>, where: map<string, Value>): (r: Result<seq<RunRow>>)
    requires "id" !in where
    ensures r.Success? <==> where != map[] && where.Keys <= cols
    ensures r.Failure? ==> r.error.SqlError?
    ensures r.Success? ==> forall row :: row in r.value ==> row in runs && Matches(row, where)
  {
    if where == map[] then Failure(SqlError("near \"WHERE\": syntax error"))
    else if !(where.Keys <= cols) then Failure(SqlError("no such column"))
    else Success(Filter(runs, where))
  }

  // ---------------------------------------------------------------------
  // `declare_run`.

  /** `repr` of a run key: a string in single quotes, an integer in
      decimal. */
  function KeyRepr(key: Value): string {
    match key
    case StrV(s) => "'" + s + "'"
    case IntV(i) => Decimal(i)
    case FloatV(_) => ""
  }

  /** The ValueError for a run key held by another parameter vector. */
  function RunKeyExists(key: Value): Error {
    ValueError("This run key " + KeyRepr(key) + " already exists.")
  }
  const UnpackError: Error := ValueError("too many values to unpack (expected 1)")

  /** `declare_run` on a flattened configuration: insert it; when SQLite
      ignores the row, look the parameters (all but `run_key`) up and return
      the id and run key of the one identical run, or raise ValueError when
      there is none. The empty run key marks a new run. */
  function DeclareRunSpec(runs: seq<RunRow>, cols: set<string>, flat: map<string, Value>): (r: Result<(int, Value)>)
    requires RunsValid(runs, cols) && "id" !in flat
  {
    var ins :- RunInsertion(runs, cols, flat);
    if ins.Some? then Success((ins.value.id, StrV("")))
    else if "run_key" !in flat then Failure(KeyError("run_key"))
    else
      var rows :- SelectWhere(runs, cols, flat - {"run_key"});
      if |rows| == 0 then Failure(RunKeyExists(flat["run_key"]))
      else if |rows| > 1 then Failure(UnpackError)
      else
        RowOfValid(runs, cols, rows[0]);
        Success((rows[0].id, rows[0].cells["run_key"]))
  }

  /** A row of a valid table fills every data column. */
  lemma RowOfValid(runs: seq<RunRow>, cols: set<string>, row: RunRow)
    requires RunsValid(runs, cols) && row in runs
    ensures row.cells.Keys == cols && "run_key" in row.cells && row.id > 0
  {
    var i :| 0 <= i < |runs| && runs[i] == row;
  }

  /** The lookup of `run_key_to_run_id` never fails as SQL, and finds a row
      exactly when some row holds the key. */
  lemma KeyLookup(runs: seq<RunRow>, cols: set<string>, key: Value)
    requires RunsValid(runs, cols)
    ensures SelectWhere(runs, cols, map["run_key" := key]).Success?
    ensures |SelectWhere(runs, cols, map["run_key" := key]).value| > 0 <==> KeyTaken(runs, key)
    ensures |SelectWhere(runs, cols, map["run_key" := key]).value| > 0 ==>
      KeyHeldBy(runs, SelectWhere(runs, cols, map["run_key" := key]).value[0].id, key)
  {
    var where := map["run_key" := key];
    if KeyTaken(runs, key) {
      var i :| 0 <= i < |runs| && "run_key" in runs[i].cells && runs[i].cells["run_key"] == key;
      FilterHas(runs, where, i);
    }
    if |Filter(runs, where)| > 0 {
      var row := Filter(runs, where)[0];
      assert row in Filter(runs, where);
      var i :| 0 <= i < |runs| && runs[i] == row;
      assert runs[i].id == row.id && runs[i].cells["run_key"] == key;
    }
  }

  /** The row with id `id` holds run key `key`. */
  predicate KeyHeldBy(runs: seq<RunRow>, id: int, key: Value) {
    exists i :: 0 <= i < |runs| && runs[i].id == id && "run_key" in runs[i].cells && runs[i].cells["run_key"] == key
  }

  /** Round trip: looking up the run key of a stored row selects that row
      alone. */
  lemma KeyOfRow(runs: seq<RunRow>, cols: set<string>, i: nat)
    requires RunsValid(runs, cols) && i < |runs|
    ensures SelectWhere(runs, cols, map["run_key" := runs[i].cells["run_key"]]) == Success([runs[i]])
  {
    var where := map["run_key" := runs[i].cells["run_key"]];
    forall j | 0 <= j < |runs| && j != i
      ensures !Matches(runs[j], where)
    {
      if i < j {
        assert runs[i].cells["run_key"] != runs[j].cells["run_key"];
      } else {
        assert runs[j].cells["run_key"] != runs[i].cells["run_key"];
      }
    }
    FilterSingle(runs, where, i);
  }

  /** A configuration that fills every column of the Run table. */
  predicate FullConfig(flat: map<string, Value>, cols: set<string>) {
    flat.Keys == cols && StoreColumns(cols)
  }

  /** For a complete configuration, a stored row satisfies the lookup of
      `declare_run` exactly when it holds the same parameter vector. */
  lemma MatchesIffSameVector(runs: seq<RunRow>, cols: set<string>, flat: map<string, Value>, i: nat)
    requires RunsValid(runs, cols) && FullConfig(flat, cols) && i < |runs|
    ensures Matches(runs[i], flat - {"run_key"}) <==> SameVector(runs[i].cells, flat, cols)
  {
  }

  /** A new parameter vector under a new run key is stored under the next id
      and reported with the empty run key; the table stays valid. */
  lemma DeclareRunNew(runs: seq<RunRow>, cols: set<string>, flat: map<string, Value>)
    requires RunsValid(runs, cols) && FullConfig(flat, cols)
    requires !KeyTaken(runs, flat["run_key"]) && !VectorTaken(runs, flat, cols)
    ensures DeclareRunSpec(runs, cols, flat) == Success((NextRunId(runs), StrV("")))
    ensures RunsAfter(runs, cols, flat) == runs + [RunRow(NextRunId(runs), flat)]
    ensures RunsValid(RunsAfter(runs, cols, flat), cols)
  {
    RunInsertionKeepsValid(runs, cols, flat);
  }

  /** The corrected `declare_run`, which is `declare_run` as written when
      `lastrowid` is 0, i.e. before the connection's first insertion
      (`DeclareRunAsWrittenFresh`): a parameter vector already stored is not
      stored again, and the id and run key of the row that holds it are
      returned, whatever run key the configuration asks for. */
  lemma DeclareRunExisting(runs: seq<RunRow>, cols: set<string>, flat: map<string, Value>, i: nat)
    requires RunsValid(runs, cols) && FullConfig(flat, cols)
    requires i < |runs| && SameVector(runs[i].cells, flat, cols)
    ensures DeclareRunSpec(runs, cols, flat) == Success((runs[i].id, runs[i].cells["run_key"]))
    ensures RunsAfter(runs, cols, flat) == runs
  {
    var where := flat - {"run_key"};
    assert VectorTaken(runs, flat, cols);
    var c :| c in cols - {"run_key"};
    assert c in where;
    forall j | 0 <= j < |runs| && j != i
      ensures !Matches(runs[j], where)
    {
      MatchesIffSameVector(runs, cols, flat, j);
      if SameVector(runs[j].cells, flat, cols) {
        assert false;
      }
    }
    FilterSingle(runs, where, i);
    MatchesIffSameVector(runs, cols, flat, i);
  }

  /** The corrected `declare_run`, which is `declare_run` as written when
      `lastrowid` is 0 (`DeclareRunAsWrittenFresh`): a run key already
      stored with a different parameter vector is refused with ValueError
      naming the key, and the table is unchanged. */
  lemma DeclareRunKeyTaken(runs: seq<RunRow>, cols: set<string>, flat: map<string, Value>)
    requires RunsValid(runs, cols) && FullConfig(flat, cols)
    requires KeyTaken(runs, flat["run_key"]) && !VectorTaken(runs, flat, cols)
    ensures DeclareRunSpec(runs, cols, flat) == Failure(RunKeyExists(flat["run_key"]))
    ensures RunsAfter(runs, cols, flat) == runs
  {
    var where := flat - {"run_key"};
    forall j | 0 <= j < |runs|
      ensures !Matches(runs[j], where)
    {
      MatchesIffSameVector(runs, cols, flat, j);
    }
    FilterNone(runs, where);
  }

  /** The corrected `declare_run` called twice with the same configuration:
      the second call finds the row the first one stored and returns its id
      with the configuration's own run key. As written, the first call's
      insertion sets `lastrowid`, so on one connection the second call gets
      the id with "" instead (`DeclareRunTwiceAsWritten`). */
  lemma DeclareRunTwice(runs: seq<RunRow>, cols: set<string>, flat: map<string, Value>)
    requires RunsValid(runs, cols) && FullConfig(flat, cols)
    requires !KeyTaken(runs, flat["run_key"]) && !VectorTaken(runs, flat, cols)
    ensures RunsValid(RunsAfter(runs, cols, flat), cols)
    ensures DeclareRunSpec(RunsAfter(runs, cols, flat), cols, flat)
      == Success((NextRunId(runs), flat["run_key"]))
  {
    DeclareRunNew(runs, cols, flat);
    var after := RunsAfter(runs, cols, flat);
    DeclareRunExisting(after, cols, flat, |runs|);
  }

  /** `declare_run` as written, on a connection whose last inserted rowid is
      `last`: an ignored row after an earlier insertion reads as a new run
      with that stale id. */
  function DeclareRunAsWritten(runs: seq<RunRow>, cols: set<string>, flat: map<string, Value>, last: int): (r: Result<(int, Value)>)
    requires RunsValid(runs, cols) && "id" !in flat
  {
    var runId :- InsertedId(RunInsertion(runs, cols, flat), last);
    if runId != 0 then Success((runId, StrV("")))
    else DeclareRunSpec(runs, cols, flat)
  }

  /** On a connection with no earlier insertion, `declare_run` as written is
      the intended one. */
  lemma DeclareRunAsWrittenFresh(runs: seq<RunRow>, cols: set<string>, flat: map<string, Value>)
    requires RunsValid(runs, cols) && "id" !in flat
    ensures DeclareRunAsWritten(runs, cols, flat, 0) == DeclareRunSpec(runs, cols, flat)
  {
    RunInsertionKeepsValid(runs, cols, flat);
    var ins := RunInsertion(runs, cols, flat);
    if ins.Success? && ins.value.Some? {
      RowOfValid(RunsAfter(runs, cols, flat), cols, ins.value.value);
    }
  }

  /** As written, whenever SQLite ignores the row after an earlier insertion,
      `declare_run` answers with the stale rowid and an empty run key, the
      mark of a new run, and stores nothing. */
  lemma DeclareRunAsWrittenStale(runs: seq<RunRow>, cols: set<string>, flat: map<string, Value>, last: int)
    requires RunsValid(runs, cols) && "id" !in flat && last != 0
    requires RunInsertion(runs, cols, flat) == Success(None)
    ensures DeclareRunAsWritten(runs, cols, flat, last) == Success((last, StrV("")))
    ensures RunsAfter(runs, cols, flat) == runs
  {
  }

  /** As written, declaring the same new run twice on one connection returns
      the first id again but with an empty run key, so the second call
      reads as the creation of a new run, where the intended answer
      (`DeclareRunTwice`) carries the stored run key. */
  lemma DeclareRunTwiceAsWritten(runs: seq<RunRow>, cols: set<string>, flat: map<string, Value>, last: int)
    requires RunsValid(runs, cols) && FullConfig(flat, cols)
    requires !KeyTaken(runs, flat["run_key"]) && !VectorTaken(runs, flat, cols)
    ensures RunsValid(RunsAfter(runs, cols, flat), cols)
    ensures DeclareRunAsWritten(runs, cols, flat, last) == Success((NextRunId(runs), StrV("")))
    ensures DeclareRunAsWritten(RunsAfter(runs, cols, flat), cols, flat, NextRunId(runs))
      == Success((NextRunId(runs), StrV("")))
    ensures flat["run_key"] != StrV("") ==>
      DeclareRunAsWritten(RunsAfter(runs, cols, flat), cols, flat, NextRunId(runs))
      != DeclareRunSpec(RunsAfter(runs, cols, flat), cols, flat)
  {
    DeclareRunTwice(runs, cols, flat);
    DeclareRunExisting(RunsAfter(runs, cols, flat), cols, flat, |runs|);
  }

  /** As written, a run key already held by another parameter vector is not
      refused after an earlier insertion: `declare_run` returns the stale
      rowid as a new run instead of raising `ValueError`. */
  lemma DeclareRunKeyTakenAsWritten(runs: seq<RunRow>, cols: set<string>, flat: map<string, Value>, last: int)
    requires RunsValid(runs, cols) && FullConfig(flat, cols) && last != 0
    requires KeyTaken(runs, flat["run_key"]) && !VectorTaken(runs, flat, cols)
    ensures DeclareRunAsWritten(runs, cols, flat, last) == Success((last, StrV("")))
    ensures DeclareRunSpec(runs, cols, flat) == Failure(RunKeyExists(flat["run_key"]))
  {
    DeclareRunKeyTaken(runs, cols, flat);
  }

  /** No flattened configuration names the `id` column: every name is
      `<section>_<key>` or `run_key`. */
  lemma FlattenNeverId(c: Config)
    requires ConfigValid(c)
    ensures "id" !in Flatten(c)
  {
    forall n | n in Flatten(c)
      ensures n != "id"
    {
      var s, k := FlatNameSource(c, n);
      FlatNameNotId(s, k);
    }
  }

  lemma FlatNameNotId(s: string, k: string)
    ensures FlatName(s, k) != "id"
  {
    var n := PairName(s, k);
    assert n[|s|] == '_';
  }

  // ---------------------------------------------------------------------
  // The Artifact and Artifact_Run tables.

  /** Artifact ids are positive and increasing. */
  predicate ArtifactsValid(arts: seq<ArtifactRow>) {
    && (forall i :: 0 <= i < |arts| ==> arts[i].id > 0)
    && (forall i, j :: 0 <= i < j < |arts| ==> arts[i].id < arts[j].id)
  }

  function NextArtifactId(arts: seq<ArtifactRow>): (id: int)
    ensures ArtifactsValid(arts) ==> id > 0 && forall i :: 0 <= i < |arts| ==> arts[i].id < id
  {
    if arts == [] then 1
    else
      assert ArtifactsValid(arts) ==> forall i :: 0 <= i < |arts| - 1 ==> arts[i].id < arts[|arts| - 1].id;
      arts[|arts| - 1].id + 1
  }

  predicate HasArtifact(arts: seq<ArtifactRow>, aid: int) {
    exists j :: 0 <= j < |arts| && arts[j].id == aid
  }

  /** Every link names an artifact that exists (the foreign key SQLite does
      not enforce, kept by the store itself). */
  predicate LinksValid(links: seq<Link>, arts: seq<ArtifactRow>) {
    forall i :: 0 <= i < |links| ==> HasArtifact(arts, links[i].artifactId)
  }

  predicate ArtifactNamed(arts: seq<ArtifactRow>, aid: int, name: string) {
    exists j :: 0 <= j < |arts| && arts[j].id == aid && arts[j].name == name
  }

  predicate RunMatches(runs: seq<RunRow>, rid: int, where: map<string, Value>) {
    exists i :: 0 <= i < |runs| && runs[i].id == rid && Matches(runs[i], where)
  }

  /** Run `runId` is linked to an artifact called `name`. */
  predicate Linked(links: seq<Link>, arts: seq<ArtifactRow>, runId: int, name: string) {
    exists i, j :: 0 <= i < |links| && 0 <= j < |arts| &&
      links[i].runId == runId && arts[j].id == links[i].artifactId && arts[j].name == name
  }

  /** Run `runId` is linked to an artifact called `name` stored at
      `path`. */
  predicate LinkedPath(links: seq<Link>, arts: seq<ArtifactRow>, runId: int, name: string, path: string) {
    exists i, j :: 0 <= i < |links| && 0 <= j < |arts| && links[i].runId == runId
      && arts[j].id == links[i].artifactId && arts[j].name == name && arts[j].path == path
  }

  /** Links and artifacts only ever gain rows, so a link once made stays. */
  lemma LinkedGrows(links: seq<Link>, arts: seq<ArtifactRow>, links': seq<Link>, arts': seq<ArtifactRow>, runId: int, name: string)
    requires links <= links' && arts <= arts'
    requires Linked(links, arts, runId, name)
    ensures Linked(links', arts', runId, name)
  {
    var i, j :| 0 <= i < |links| && 0 <= j < |arts| &&
      links[i].runId == runId && arts[j].id == links[i].artifactId && arts[j].name == name;
    assert links'[i] == links[i] && arts'[j] == arts[j];
  }

  /** Run `runId` is linked to an artifact of each of the names. */
  predicate AllLinked(links: seq<Link>, arts: seq<ArtifactRow>, runId: int, names: seq<string>) {
    forall k :: 0 <= k < |names| ==> Linked(links, arts, runId, names[k])
  }

  lemma AllLinkedGrows(links: seq<Link>, arts: seq<ArtifactRow>, links': seq<Link>, arts': seq<ArtifactRow>, runId: int, names: seq<string>)
    requires links <= links' && arts <= arts'
    requires AllLinked(links, arts, runId, names)
    ensures AllLinked(links', arts', runId, names)
  {
    forall k | 0 <= k < |names|
      ensures Linked(links', arts', runId, names[k])
    {
      LinkedGrows(links, arts, links', arts', runId, names[k]);
    }
  }

  /** The three-way join of `_find_existing_artifacts`: one `(artifact id,
      run id)` pair per link whose run satisfies `where` and whose artifact
      is called `name`, in link order. */
  function JoinRows(links: seq<Link>, runs: seq<RunRow>, arts: seq<ArtifactRow>, name: string, where: map<string, Value>): (rows: seq<(int, int)>)
    ensures |rows| <= |links|
  {
    if links == [] then []
    else
      var prev := JoinRows(links[..|links| - 1], runs, arts, name, where);
      var l := links[|links| - 1];
      if RunMatches(runs, l.runId, where) && ArtifactNamed(arts, l.artifactId, name)
      then prev + [(l.artifactId, l.runId)] else prev
  }

  /** A pair is in the join exactly when some link produces it. */
  lemma {:induction false} JoinRowsMembers(links: seq<Link>, runs: seq<RunRow>, arts: seq<ArtifactRow>, name: string, where: map<string, Value>, p: (int, int))
    ensures p in JoinRows(links, runs, arts, name, where) <==>
      exists i :: 0 <= i < |links| && p == (links[i].artifactId, links[i].runId)
        && RunMatches(runs, links[i].runId, where) && ArtifactNamed(arts, links[i].artifactId, name)
  {
    if links != [] {
      var init := links[..|links| - 1];
      JoinRowsMembers(init, runs, arts, name, where, p);
      assert forall i :: 0 <= i < |init| ==> init[i] == links[i];
    }
  }

  /** `_find_existing_artifacts`: an empty parameter set is an SQL syntax
      error and an unknown column an SQL error. */
  function FindExisting(runs: seq<RunRow>, cols: set<string>, links: seq<Link>, arts: seq<ArtifactRow>,
                        name: string, where: map<string, Value>): (r: Result<seq<(int, int)>>)
    requires "id" !in where
    ensures r.Success? <==> where != map[] && where.Keys <= cols
    ensures r.Failure? ==> r.error.SqlError?
  {
    if where == map[] then Failure(SqlError("near \")\": syntax error"))
    else if !(where.Keys <= cols) then Failure(SqlError("no such column"))
    else Success(JoinRows(links, runs, arts, name, where))
  }

  /** The links `declare_artifacts` adds for the rows it found, in row
      order: one to each row's artifact, skipping rows that already belong
      to `runId`. */
  function SharedLinks(rows: seq<(int, int)>, runId: int): (ls: seq<Link>)
    ensures |ls| <= |rows|
  {
    if rows == [] then []
    else
      var p := rows[|rows| - 1];
      SharedLinks(rows[..|rows| - 1], runId) + (if p.1 == runId then [] else [Link(p.0, runId)])
  }

  /** A row found for another run is linked to `runId`. */
  lemma {:induction false} SharedLinksHas(rows: seq<(int, int)>, runId: int, k: nat)
    requires k < |rows| && rows[k].1 != runId
    ensures Link(rows[k].0, runId) in SharedLinks(rows, runId)
  {
    if k < |rows| - 1 {
      var init := rows[..|rows| - 1];
      assert init[k] == rows[k];
      SharedLinksHas(init, runId, k);
    }
  }

  /** After the links for the found rows are added, the run is linked to
      an artifact of the name: either through a new link, or because every
      row found is one of the run's own links already. */
  lemma SharedFoundLinked(links0: seq<Link>, links: seq<Link>, arts: seq<ArtifactRow>, rows: seq<(int, int)>, runId: int, name: string)
    requires |rows| > 0 && links == links0 + SharedLinks(rows, runId)
    requires forall p :: p in rows ==> ArtifactNamed(arts, p.0, name) && Link(p.0, p.1) in links0
    ensures Linked(links, arts, runId, name)
  {
    var p := rows[0];
    assert p in rows;
    if p.1 != runId {
      SharedLinksHas(rows, runId, 0);
    }
    assert Link(p.0, runId) in links;
    var k :| 0 <= k < |links| && links[k] == Link(p.0, runId);
  }

  /** Each row of the join comes from a link to an artifact of that
      name. */
  lemma JoinRowsSource(links: seq<Link>, runs: seq<RunRow>, arts: seq<ArtifactRow>, name: string, where: map<string, Value>, p: (int, int))
    requires p in JoinRows(links, runs, arts, name, where)
    ensures ArtifactNamed(arts, p.0, name) && Link(p.0, p.1) in links
  {
    JoinRowsMembers(links, runs, arts, name, where, p);
    var i :| 0 <= i < |links| && p == (links[i].artifactId, links[i].runId)
      && RunMatches(runs, links[i].runId, where) && ArtifactNamed(arts, links[i].artifactId, name);
    assert links[i] == Link(p.0, p.1);
  }

  /** The directory of a new artifact: `<run id>_<name>_art` under the
      artifact root. */
  function NewArtifactPath(dir: string, runId: int, name: string): string {
    PathJoin(dir, Join("_", [Decimal(runId), name, "art"]))
  }

  /** The sub-configuration of the nodes upstream of an artifact, in node
      order: KeyError for the first node the configuration lacks. */
  function SubConfig(config: Config, nodes: seq<string>): (r: Result<Config>)
    requires ConfigValid(config)
    ensures r.Success? <==> forall i :: 0 <= i < |nodes| ==> nodes[i] in config.entries
    ensures r.Failure? ==> r.error.KeyError?
    ensures r.Success? ==> ConfigValid(r.value)
  {
    if nodes == [] then Success(EmptyDict())
    else
      var n := nodes[|nodes| - 1];
      var prev :- SubConfig(config, nodes[..|nodes| - 1]);
      if n !in config.entries then Failure(KeyError(n))
      else Success(prev.Put(n, config.entries[n]))
  }

  /** The sub-configuration holds exactly the sections of the nodes, each
      as the configuration has it. */
  lemma {:induction false} SubConfigEntries(config: Config, nodes: seq<string>)
    requires ConfigValid(config) && SubConfig(config, nodes).Success?
    ensures forall s :: s in SubConfig(config, nodes).value.entries <==> s in nodes
    ensures forall s :: s in SubConfig(config, nodes).value.entries ==>
      SubConfig(config, nodes).value.entries[s] == config.entries[s]
  {
    if nodes != [] {
      var init := nodes[..|nodes| - 1];
      SubConfigEntries(config, init);
      assert forall s :: s in nodes <==> s in init || s == nodes[|nodes| - 1];
    }
  }

  // ---------------------------------------------------------------------
  // The read-only lookups.

  /** The first row with the given id (`WHERE id = ?` and `fetchone`). */
  function RowById(runs: seq<RunRow>, id: int): (r: Option<RunRow>)
    ensures r.Some? <==> exists i :: 0 <= i < |runs| && runs[i].id == id
    ensures r.Some? ==> r.value in runs && r.value.id == id
  {
    if runs == [] then None
    else if runs[0].id == id then Some(runs[0])
    else
      assert forall i :: 1 <= i < |runs| ==> runs[i] == runs[1..][i - 1];
      RowById(runs[1..], id)
  }

  /** The artifacts of a run by name, `dict(rows)` over the joined rows: a
      name is a key exactly when the run is linked to an artifact of that
      name, and its value is the path of one such artifact. */
  lemma BoundPaths(links: seq<Link>, arts: seq<ArtifactRow>, runId: int)
    ensures forall b :: b in LastWins(LinkedArtifacts(links, arts, runId)) <==> Linked(links, arts, runId, b)
    ensures forall b :: b in LastWins(LinkedArtifacts(links, arts, runId)) ==>
      LinkedPath(links, arts, runId, b, LastWins(LinkedArtifacts(links, arts, runId))[b])
  {
    var rows := LinkedArtifacts(links, arts, runId);
    LastWinsKeys(rows);
    LastWinsFrom(rows);
    forall b
      ensures b in LastWins(rows) <==> Linked(links, arts, runId, b)
    {
      if b in LastWins(rows) {
        var k :| 0 <= k < |rows| && rows[k] == (b, LastWins(rows)[b]);
        LinkedArtifactsMembers(links, arts, runId, rows[k]);
      }
      if Linked(links, arts, runId, b) {
        var i, j :| 0 <= i < |links| && 0 <= j < |arts| &&
          links[i].runId == runId && arts[j].id == links[i].artifactId && arts[j].name == b;
        LinkedArtifactsMembers(links, arts, runId, (b, arts[j].path));
        var k :| 0 <= k < |rows| && rows[k] == (b, arts[j].path);
      }
    }
    forall b | b in LastWins(rows)
      ensures LinkedPath(links, arts, runId, b, LastWins(rows)[b])
    {
      var k :| 0 <= k < |rows| && rows[k] == (b, LastWins(rows)[b]);
      LinkedArtifactsMembers(links, arts, runId, rows[k]);
    }
  }

  /** The `(name, path)` rows of the artifacts of one run, in link order. */
  function LinkedArtifacts(links: seq<Link>, arts: seq<ArtifactRow>, runId: int): (rows: seq<(string, string)>)
  {
    if links == [] then []
    else
      var l := links[|links| - 1];
      LinkedArtifacts(links[..|links| - 1], arts, runId)
        + (if l.runId == runId then ArtifactsWithId(arts, l.artifactId) else [])
  }

  function ArtifactsWithId(arts: seq<ArtifactRow>, aid: int): (rows: seq<(string, string)>)
    ensures forall p :: p in rows <==> exists j :: 0 <= j < |arts| && arts[j].id == aid && p == (arts[j].name, arts[j].path)
  {
    if arts == [] then []
    else
      assert forall j :: 1 <= j < |arts| ==> arts[j] == arts[1..][j - 1];
      (if arts[0].id == aid then [(arts[0].name, arts[0].path)] else []) + ArtifactsWithId(arts[1..], aid)
  }

  /** A `(name, path)` pair is listed for a run exactly when a link of the
      run leads to an artifact with that name and path. */
  lemma {:induction false} LinkedArtifactsMembers(links: seq<Link>, arts: seq<ArtifactRow>, runId: int, p: (string, string))
    ensures p in LinkedArtifacts(links, arts, runId) <==>
      exists i, j :: 0 <= i < |links| && 0 <= j < |arts| && links[i].runId == runId
        && arts[j].id == links[i].artifactId && p == (arts[j].name, arts[j].path)
  {
    if links != [] {
      var init := links[..|links| - 1];
      LinkedArtifactsMembers(init, arts, runId, p);
      assert forall i :: 0 <= i < |init| ==> init[i] == links[i];
    }
  }

  /** The column that holds a detail: `run_key` itself, `details_<key>` for
      every other detail. */
  function DetailColumnName(x: string): string {
    if x == "run_key" then x else "details_" + x
  }

  /** How `get_details` turns a column back into a detail name: the part
      after the first `_` of a `details_` column. */
  function DetailKey(c: string): (r: Result<string>) {
    if StartsWith(c, "details_") then
      var parts := SplitMax(c, "_", 1);
      if |parts| < 2 then Failure(IndexError) else Success(parts[1])
    else Success(c)
  }

  /** Splitting once at the first `_` of `p_x`, where `p` has none. */
  lemma {:induction false} SplitMaxAtFirst(p: string, x: string)
    requires '_' !in p
    ensures SplitMax(p + "_" + x, "_", 1) == [p, x]
    decreases |p|
  {
    var s := p + "_" + x;
    if p == [] {
      assert s == "_" + x;
      assert s[..1] == "_";
      assert s[1..] == x;
    } else {
      assert s[..1] != "_" by { assert s[0] == p[0] && p[0] in p; }
      assert s[1..] == p[1..] + "_" + x;
      SplitMaxAtFirst(p[1..], x);
      assert [p[0]] + p[1..] == p;
    }
  }

  /** `get_details` recovers every detail's own name from its column. */
  lemma DetailKeyRoundTrip(x: string)
    ensures DetailKey(DetailColumnName(x)) == Success(x)
  {
    if x != "run_key" {
      SplitMaxAtFirst("details", x);
      assert "details_" + x == "details" + "_" + x;
    } else {
      assert !StartsWith(x, "details_");
    }
  }

  // ---------------------------------------------------------------------
  // The store.

  /** `_insert_into` on Run reports `lastrowid`: the new row's id, or, when
      SQLite ignored the row, the rowid of the connection's last successful
      insertion into any table (`last`, 0 before the first one). */
  function InsertedId(ins: Result<Option<RunRow>>, last: int): (r: Result<int>) {
    match ins
    case Failure(e) => Failure(e)
    case Success(None) => Success(last)
    case Success(Some(row)) => Success(row.id)
  }

  /** The LookupError of `run_key_to_run_id`, naming the key. */
  function RunKeyMissing(key: Value): Error {
    LookupError("Run key " + KeyRepr(key) + " does not exist or has not been prepared.")
  }

  /** The LookupError of `get_arguments_for_node`, naming the run id. */
  function ArgumentsRunIdMissing(runId: int): Error {
    LookupError("Provided `run_id` (" + Decimal(runId) + ") does not exist.")
  }

  /** The LookupError of `get_details`, naming the run id. */
  function RunIdMissing(runId: int): Error {
    LookupError("`run_id` (" + Decimal(runId) + ") does not exist.")
  }

  /** The LookupError of `bound_artifact_to_filepath`: the source never
      applies `%` to this message, so it keeps the literal `%r`. */
  const NoArtifacts: Error := LookupError("`run_id` (%r) does not exist or does not have any artifacts")

  /** The tables of a database file written by an earlier `ArtifactMap`:
      the data columns of `Run` and the rows of the three tables. */
  datatype Tables = Tables(cols: set<string>, runs: seq<RunRow>, artifacts: seq<ArtifactRow>, links: seq<Link>)

  /** Stored tables as the store's own operations leave them. */
  predicate TablesValid(t: Tables) {
    StoreColumns(t.cols) && RunsValid(t.runs, t.cols) && ArtifactsValid(t.artifacts) && LinksValid(t.links, t.artifacts)
  }

  /** `ArtifactMap`: the three tables of one pipeline's database, the
      artifact root directory, and the directories that exist under it.
      Every insert and query runs in its own transaction (`auto_rollback`)
      that commits when it ends, so an operation that raises keeps the rows
      its earlier statements added. */
  class ArtifactMap {
    const artifactDir: string
    const graph: Graph
    /** The data columns of `Run`. */
    const cols: set<string>
    var runs: seq<RunRow>
    var artifacts: seq<ArtifactRow>
    var links: seq<Link>
    /** The directories that exist. */
    var dirs: set<string>
    /** The connection's last inserted rowid, which `lastrowid` reports. */
    var lastRowId: int

    ghost predicate Valid()
      reads this
    {
      && GraphValid(graph)
      && StoreColumns(cols)
      && RunsValid(runs, cols)
      && ArtifactsValid(artifacts)
      && LinksValid(links, artifacts)
    }

    /** A store over a freshly created database. */
    constructor Init(dir: string, g: Graph, existing: set<string>)
      requires GraphValid(g) && InitSchema(g).Success?
      ensures Valid()
      ensures artifactDir == dir && graph == g && dirs == existing
      ensures cols == DataColumns(InitSchema(g).value)
      ensures runs == [] && artifacts == [] && links == [] && lastRowId == 0
    {
      artifactDir := dir;
      graph := g;
      cols := DataColumns(InitSchema(g).value);
      runs := [];
      artifacts := [];
      links := [];
      dirs := existing;
      lastRowId := 0;
      new;
      SchemaColumns(g);
    }

    /** A store over a database file that already exists: the tables are
        the stored ones, and the new connection has inserted nothing, so its
        last rowid is 0. */
    constructor Reopen(dir: string, g: Graph, existing: set<string>, stored: Tables)
      requires GraphValid(g) && TablesValid(stored)
      ensures Valid()
      ensures artifactDir == dir && graph == g && dirs == existing
      ensures cols == stored.cols && runs == stored.runs
      ensures artifacts == stored.artifacts && links == stored.links && lastRowId == 0
    {
      artifactDir := dir;
      graph := g;
      cols := stored.cols;
      runs := stored.runs;
      artifacts := stored.artifacts;
      links := stored.links;
      dirs := existing;
      lastRowId := 0;
    }

    /** `__init__`: `stored` is the database file at `db_fp`, `None` when
        `os.path.isfile` finds none. A new database gets its tables from
        `_init_database`, which fails when the Run table cannot be created;
        an existing one is used as stored, without checking it against the
        graph. Either way the new connection's last rowid is 0. */
    static method Open(dir: string, g: Graph, existing: set<string>, stored: Option<Tables>)
      returns (r: Result<ArtifactMap>)
      requires GraphValid(g)
      requires stored.Some? ==> TablesValid(stored.value)
      ensures stored.None? ==> (r.Success? <==> InitSchema(g).Success?)
      ensures stored.None? && r.Failure? ==> InitSchema(g).Failure? && r.error == InitSchema(g).error
      ensures stored.Some? ==> r.Success?
      ensures r.Success? ==> fresh(r.value) && r.value.Valid() && r.value.lastRowId == 0
      ensures r.Success? ==> r.value.artifactDir == dir && r.value.graph == g && r.value.dirs == existing
      ensures r.Success? && stored.None? ==> r.value.cols == DataColumns(InitSchema(g).value)
      ensures r.Success? && stored.None? ==> r.value.runs == [] && r.value.artifacts == [] && r.value.links == []
      ensures r.Success? && stored.Some? ==>
        r.value.cols == stored.value.cols && r.value.runs == stored.value.runs
        && r.value.artifacts == stored.value.artifacts && r.value.links == stored.value.links
    {
      if stored.Some? {
        var m := new ArtifactMap.Reopen(dir, g, existing, stored.value);
        return Success(m);
      }
      var schema := InitSchema(g);
      if schema.Failure? {
        return Failure(schema.error);
      }
      var m := new ArtifactMap.Init(dir, g, existing);
      return Success(m);
    }

    /** `_insert_into("Run", values)`. */
    method InsertRun(values: map<string, Value>) returns (id: Result<int>)
      requires Valid() && "id" !in values
      modifies this
      ensures Valid()
      ensures id == InsertedId(RunInsertion(old(runs), cols, values), old(lastRowId))
      ensures runs == RunsAfter(old(runs), cols, values)
      ensures artifacts == old(artifacts) && links == old(links) && dirs == old(dirs)
      ensures runs != old(runs) ==> id.Success? && id.value == runs[|runs| - 1].id > 0 && lastRowId == id.value
      ensures runs == old(runs) ==> lastRowId == old(lastRowId)
      ensures id.Success? && runs == old(runs) ==> id.value == old(lastRowId)
    {
      var ins := RunInsertion(runs, cols, values);
      RunInsertionKeepsValid(runs, cols, values);
      match ins {
        case Failure(e) =>
          id := Failure(e);
        case Success(None) =>
          id := Success(lastRowId);
        case Success(Some(row)) =>
          runs := runs + [row];
          lastRowId := row.id;
          id := Success(row.id);
      }
    }

    /** `_insert_into("Artifact", …)`: the row is always added, under a
        positive id, so the "shouldn't have happened" branch of
        `_declare_new_artifact` is never taken. */
    method InsertArtifact(name: string, path: string) returns (id: int)
      requires Valid()
      modifies this
      ensures Valid()
      ensures id > 0 && id == NextArtifactId(old(artifacts)) && lastRowId == id
      ensures artifacts == old(artifacts) + [ArtifactRow(id, name, path)]
      ensures runs == old(runs) && links == old(links) && dirs == old(dirs)
    {
      id := NextArtifactId(artifacts);
      artifacts := artifacts + [ArtifactRow(id, name, path)];
      lastRowId := id;
      assert forall i :: 0 <= i < |links| ==> HasArtifact(old(artifacts), links[i].artifactId);
      assert forall a :: HasArtifact(old(artifacts), a) ==> HasArtifact(artifacts, a) by {
        assert forall j :: 0 <= j < |old(artifacts)| ==> artifacts[j] == old(artifacts)[j];
      }
    }

    /** `_insert_into("Artifact_Run", …)`: a link to an existing artifact.
        The table has no UNIQUE constraint, so the row is always added, and
        its implicit rowid is one past the number of rows before it. */
    method InsertLink(l: Link)
      requires LinksValid(links, artifacts) && HasArtifact(artifacts, l.artifactId)
      modifies this
      ensures LinksValid(links, artifacts)
      ensures links == old(links) + [l] && lastRowId == |links|
      ensures runs == old(runs) && artifacts == old(artifacts) && dirs == old(dirs)
    {
      links := links + [l];
      lastRowId := |links|;
    }

    /** `declare_run` as written (see Findings): when SQLite ignores the row,
        a nonzero `lastrowid` left by an earlier insertion is taken for the
        new run's id. */
    method DeclareRun(config: Config) returns (r: Result<(int, Value)>)
      requires Valid() && ConfigValid(config)
      modifies this
      ensures Valid()
      ensures "id" !in Flatten(config)
      ensures r == DeclareRunAsWritten(old(runs), cols, Flatten(config), old(lastRowId))
      ensures old(lastRowId) == 0 ==> r == DeclareRunSpec(old(runs), cols, Flatten(config))
      ensures runs != old(runs) ==> r.Success? && lastRowId == r.value.0
      ensures runs == old(runs) ==> lastRowId == old(lastRowId)
      ensures runs == RunsAfter(old(runs), cols, Flatten(config))
      ensures artifacts == old(artifacts) && links == old(links) && dirs == old(dirs)
      ensures runs != old(runs) ==> r.Success? && "run_key" in Flatten(config)
      ensures runs != old(runs) ==> RunKeyToRunId(Flatten(config)["run_key"]) == Success(r.value.0)
    {
      var flat := FlattenConfig(config);
      FlattenNeverId(config);
      var inserted := InsertRun(flat);
      if inserted.Failure? {
        return Failure(inserted.error);
      }
      var runId := inserted.value;
      var runKey := StrV("");
      if runId == 0 {
        if "run_key" !in flat {
          return Failure(KeyError("run_key"));
        }
        var rows := SelectWhere(runs, cols, flat - {"run_key"});
        if rows.Failure? {
          return Failure(rows.error);
        }
        if |rows.value| == 0 {
          return Failure(RunKeyExists(flat["run_key"]));
        }
        if |rows.value| > 1 {
          return Failure(UnpackError);
        }
        RowOfValid(runs, cols, rows.value[0]);
        runId := rows.value[0].id;
        runKey := rows.value[0].cells["run_key"];
      } else if runs != old(runs) {
        KeyOfRow(runs, cols, |runs| - 1);
      }
      r := Success((runId, runKey));
    }

    /** `_declare_new_artifact`: make the directory `<run id>_<name>_art`
        (FileExistsError when it exists), add the artifact row and link it to
        the run. Each step commits on its own. */
    method DeclareNewArtifact(name: string, runId: int) returns (r: Result<()>)
      requires Valid()
      modifies this
      ensures Valid()
      ensures runs == old(runs)
      ensures NewArtifactPath(artifactDir, runId, name) in old(dirs) ==>
        r == Failure(FileExistsError(NewArtifactPath(artifactDir, runId, name)))
        && artifacts == old(artifacts) && links == old(links) && dirs == old(dirs)
      ensures NewArtifactPath(artifactDir, runId, name) !in old(dirs) ==>
        r == Success(()) && dirs == old(dirs) + {NewArtifactPath(artifactDir, runId, name)}
      ensures NewArtifactPath(artifactDir, runId, name) !in old(dirs) ==>
        artifacts == old(artifacts) + [ArtifactRow(NextArtifactId(old(artifacts)), name, NewArtifactPath(artifactDir, runId, name))]
      ensures NewArtifactPath(artifactDir, runId, name) !in old(dirs) ==>
        links == old(links) + [Link(NextArtifactId(old(artifacts)), runId)]
      ensures r.Success? ==> Linked(links, artifacts, runId, name)
    {
      var path := NewArtifactPath(artifactDir, runId, name);
      if path in dirs {
        return Failure(FileExistsError(path));
      }
      dirs := dirs + {path};
      var artifactId := InsertArtifact(name, path);
      if artifactId == 0 {
        assert false;
      }
      assert artifacts[|artifacts| - 1].id == artifactId;
      InsertLink(Link(artifactId, runId));
      r := Success(());
      var i, j := |links| - 1, |artifacts| - 1;
      assert links[i].runId == runId && artifacts[j].id == links[i].artifactId && artifacts[j].name == name;
    }

    /** The rows `_find_existing_artifacts` returns for an artifact, given
        the names of the nodes upstream of it. */
    function FindFor(config: Config, name: string, nodes: seq<string>): (r: Result<seq<(int, int)>>)
      reads this
      requires Valid() && ConfigValid(config)
      ensures r.Failure? ==> r.error.KeyError? || r.error.SqlError?
      ensures r.Success? ==> forall p :: p in r.value ==> ArtifactNamed(artifacts, p.0, name) && Link(p.0, p.1) in links
    {
      var sub :- SubConfig(config, nodes);
      FlattenNeverId(sub);
      var rows :- FindExisting(runs, cols, links, artifacts, name, Flatten(sub));
      assert forall p :: p in rows ==> ArtifactNamed(artifacts, p.0, name) && Link(p.0, p.1) in links by {
        forall p | p in rows
          ensures ArtifactNamed(artifacts, p.0, name) && Link(p.0, p.1) in links
        {
          JoinRowsSource(links, runs, artifacts, name, Flatten(sub), p);
        }
      }
      Success(rows)
    }

    /** The loop of `declare_artifacts` over the rows found: link each
        row's artifact to the run, one committed insert at a time. */
    method LinkShared(rows: seq<(int, int)>, runId: int)
      requires Valid()
      requires forall p :: p in rows ==> HasArtifact(artifacts, p.0)
      modifies this
      ensures Valid()
      ensures links == old(links) + SharedLinks(rows, runId)
      ensures runs == old(runs) && artifacts == old(artifacts) && dirs == old(dirs)
    {
      var i := 0;
      while i < |rows|
        invariant 0 <= i <= |rows|
        invariant LinksValid(links, artifacts)
        invariant links == old(links) + SharedLinks(rows[..i], runId)
        invariant runs == old(runs) && artifacts == old(artifacts) && dirs == old(dirs)
      {
        var (artifactId, rowRun) := rows[i];
        assert rows[..i + 1][..i] == rows[..i] && rows[..i + 1][i] == rows[i];
        assert rows[i] in rows;
        if rowRun != runId {
          InsertLink(Link(artifactId, runId));
        }
        i := i + 1;
      }
      assert rows[..i] == rows;
    }

    /** The branch of `declare_artifacts` that found artifacts of this
        name for other runs: the run shares them. */
    method ShareFound(rows: seq<(int, int)>, name: string, runId: int)
      requires Valid() && |rows| > 0
      requires forall p :: p in rows ==> ArtifactNamed(artifacts, p.0, name) && Link(p.0, p.1) in links
      modifies this
      ensures Valid()
      ensures links == old(links) + SharedLinks(rows, runId)
      ensures runs == old(runs) && artifacts == old(artifacts) && dirs == old(dirs)
      ensures Linked(links, artifacts, runId, name)
    {
      forall p | p in rows
        ensures HasArtifact(artifacts, p.0)
      {
        var j :| 0 <= j < |artifacts| && artifacts[j].id == p.0 && artifacts[j].name == name;
      }
      LinkShared(rows, runId);
      SharedFoundLinked(old(links), links, artifacts, rows, runId, name);
    }

    /** One step of `declare_artifacts`: share the existing artifacts whose
        upstream parameters match, or make a new one when there is none. */
    method DeclareArtifact(config: Config, name: string, nodes: seq<string>, runId: int) returns (r: Result<()>)
      requires Valid() && ConfigValid(config)
      modifies this
      ensures Valid()
      ensures runs == old(runs)
      ensures old(artifacts) <= artifacts && old(links) <= links && old(dirs) <= dirs
      ensures r.Success? ==> Linked(links, artifacts, runId, name)
      ensures r.Failure? ==> r.error.KeyError? || r.error.SqlError? || r.error.FileExistsError?
      ensures old(FindFor(config, name, nodes)).Failure? ==>
        r == Failure(old(FindFor(config, name, nodes)).error)
        && artifacts == old(artifacts) && links == old(links) && dirs == old(dirs)
      ensures old(FindFor(config, name, nodes)).Success? && old(FindFor(config, name, nodes)).value != [] ==>
        r == Success(()) && artifacts == old(artifacts) && dirs == old(dirs)
        && links == old(links) + SharedLinks(old(FindFor(config, name, nodes)).value, runId)
      ensures old(FindFor(config, name, nodes)) == Success([]) ==>
        (r.Failure? <==> NewArtifactPath(artifactDir, runId, name) in old(dirs))
      ensures old(FindFor(config, name, nodes)) == Success([]) && r.Success? ==>
        artifacts == old(artifacts) + [ArtifactRow(NextArtifactId(old(artifacts)), name, NewArtifactPath(artifactDir, runId, name))]
        && links == old(links) + [Link(NextArtifactId(old(artifacts)), runId)]
    {
      var found := FindFor(config, name, nodes);
      var sub := SubConfig(config, nodes);
      if sub.Failure? {
        return Failure(sub.error);
      }
      var params := FlattenConfig(sub.value);
      FlattenNeverId(sub.value);
      var rows := FindExisting(runs, cols, links, artifacts, name, params);
      assert rows == found;
      if rows.Failure? {
        return Failure(rows.error);
      }
      if |rows.value| == 0 {
        r := DeclareNewArtifact(name, runId);
      } else {
        ShareFound(rows.value, name, runId);
        r := Success(());
      }
    }

    /** `declare_artifacts`: every bound artifact of the graph in turn. A
        failure stops the loop; the steps already taken stay committed. */
    method DeclareArtifacts(config: Config, runId: int) returns (r: Result<()>)
      requires Valid() && ConfigValid(config)
      modifies this
      ensures Valid()
      ensures runs == old(runs)
      ensures old(artifacts) <= artifacts && old(links) <= links && old(dirs) <= dirs
      ensures r.Failure? ==> r.error.KeyError? || r.error.SqlError? || r.error.FileExistsError?
      ensures r.Success? ==> forall b :: b in graph.upstream.entries ==> Linked(links, artifacts, runId, b)
      ensures r.Success? ==> forall b :: b in graph.upstream.entries ==>
        BoundArtifactToFilepath(runId).Success? && b in BoundArtifactToFilepath(runId).value
    {
      var up := graph.upstream;
      var i := 0;
      while i < |up.keys|
        invariant 0 <= i <= |up.keys|
        invariant Valid()
        invariant runs == old(runs)
        invariant old(artifacts) <= artifacts && old(links) <= links && old(dirs) <= dirs
        invariant AllLinked(links, artifacts, runId, up.keys[..i])
      {
        var b := up.keys[i];
        r := DeclareStep(config, up.keys[..i], b, up.entries[b], runId);
        if r.Failure? {
          return;
        }
        assert up.keys[..i + 1] == up.keys[..i] + [b];
        i := i + 1;
      }
      r := Success(());
      assert up.keys[..i] == up.keys;
    }

    /** One turn of the loop of `declare_artifacts`: the artifacts already
        declared stay linked, and this one is linked too. */
    method DeclareStep(config: Config, ghost done: seq<string>, name: string, nodes: seq<string>, runId: int)
      returns (r: Result<()>)
      requires Valid() && ConfigValid(config)
      requires AllLinked(links, artifacts, runId, done)
      modifies this
      ensures Valid()
      ensures runs == old(runs)
      ensures old(artifacts) <= artifacts && old(links) <= links && old(dirs) <= dirs
      ensures r.Failure? ==> r.error.KeyError? || r.error.SqlError? || r.error.FileExistsError?
      ensures r.Success? ==> AllLinked(links, artifacts, runId, done + [name])
    {
      ghost var links0, artifacts0 := links, artifacts;
      r := DeclareArtifact(config, name, nodes, runId);
      if r.Success? {
        AllLinkedGrows(links0, artifacts0, links, artifacts, runId, done);
      }
    }

    /** `run_key_to_run_id`. */
    function RunKeyToRunId(runKey: Value): (r: Result<int>)
      reads this
      requires Valid()
      ensures r.Success? <==> KeyTaken(runs, runKey)
      ensures r.Failure? ==> r.error == RunKeyMissing(runKey)
      ensures r.Success? ==> KeyHeldBy(runs, r.value, runKey)
    {
      KeyLookup(runs, cols, runKey);
      var rows := SelectWhere(runs, cols, map["run_key" := runKey]);
      if rows.Failure? || |rows.value| == 0 then Failure(RunKeyMissing(runKey))
      else Success(rows.value[0].id)
    }

    /** `get_arguments_for_node`: the node's parameters, each with the value
        in its `<node>_<param>` column of the run's row. */
    function GetArgumentsForNode(node: Exe.ExeNode, runId: int): (r: Result<Dict<string, Value>>)
      reads this
      requires Valid() && node.annotations.Valid()
      ensures r.Success? ==> r.value.Valid() && Exe.InputParams(node).Success?
      ensures r.Success? ==> r.value.keys == Exe.InputParams(node).value.keys
      ensures r.Success? ==> RowById(runs, runId).Some?
      ensures r.Success? ==> forall k :: k in r.value.entries ==> PairName(node.name, k) in RowById(runs, runId).value.cells
      ensures r.Success? ==> forall k :: k in r.value.entries ==> r.value.entries[k] == RowById(runs, runId).value.cells[PairName(node.name, k)]
      ensures r.Failure? ==> r.error.TypeError? || r.error.SqlError? || r.error == ArgumentsRunIdMissing(runId)
    {
      var ps :- Exe.InputParams(node);
      if ps.keys == [] then Failure(SqlError("near \"FROM\": syntax error"))
      else if !(forall k :: k in ps.entries ==> PairName(node.name, k) in cols) then Failure(SqlError("no such column"))
      else match RowById(runs, runId)
        case None => Failure(ArgumentsRunIdMissing(runId))
        case Some(row) =>
          RowOfValid(runs, cols, row);
          Success(Dict(ps.keys, map k | k in ps.entries :: row.cells[PairName(node.name, k)]))
    }

    /** `bound_artifact_to_filepath`: the artifacts linked to the run, by
        name; a later row of the same name wins, as `dict(rows)` does. */
    function BoundArtifactToFilepath(runId: int): (r: Result<map<string, string>>)
      reads this
      ensures r.Failure? ==> r.error == NoArtifacts
      ensures r.Success? <==> exists b :: Linked(links, artifacts, runId, b)
      ensures r.Success? ==> forall b :: b in r.value <==> Linked(links, artifacts, runId, b)
      ensures r.Success? ==> forall b :: b in r.value ==> LinkedPath(links, artifacts, runId, b, r.value[b])
    {
      BoundPaths(links, artifacts, runId);
      var rows := LinkedArtifacts(links, artifacts, runId);
      LastWinsKeys(rows);
      assert rows != [] ==> rows[0].0 in LastWins(rows) by {
        if rows != [] {
          assert rows[0] in rows;
        }
      }
      if rows == [] then Failure(NoArtifacts) else Success(LastWins(rows))
    }

    /** `get_details`: each detail with the value of its column in the run's
        row. The dict the source builds is keyed in sorted order; the model
        returns the map. */
    function GetDetails(runId: int): (r: Result<map<string, Value>>)
      reads this
      requires Valid()
      ensures r.Success? ==> r.value.Keys == graph.details.entries.Keys
      ensures r.Success? ==> RowById(runs, runId).Some?
      ensures r.Success? ==> forall x :: x in r.value ==> DetailColumnName(x) in RowById(runs, runId).value.cells
      ensures r.Success? ==> forall x :: x in r.value ==> r.value[x] == RowById(runs, runId).value.cells[DetailColumnName(x)]
      ensures r.Failure? ==> r.error.SqlError? || r.error == RunIdMissing(runId)
    {
      if graph.details.keys == [] then Failure(SqlError("near \"FROM\": syntax error"))
      else if !(forall x :: x in graph.details.entries ==> DetailColumnName(x) in cols) then Failure(SqlError("no such column"))
      else match RowById(runs, runId)
        case None => Failure(RunIdMissing(runId))
        case Some(row) =>
          RowOfValid(runs, cols, row);
          Success(map x | x in graph.details.entries :: row.cells[DetailColumnName(x)])
    }
  }
}
