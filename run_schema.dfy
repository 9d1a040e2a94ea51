/** The shape of the Run table and of the configurations stored in it
    (yax/state/artifact_map.py, `_flatten_config`, `_make_run_cols`,
    `_translate_param_to_type` and the Run part of `_init_database`).
    One Run column per pipeline detail and per node parameter; one UNIQUE
    constraint over every column but `id` and `run_key`. */
module RunSchema {
  import opened Base
  import opened Parameters
  import Exe

  datatype SqlType = INTEGER | TEXT | REAL

  datatype Constraint = PrimaryKey | Unique | NoConstraint

  /** One column of the Run table. Every column is NOT NULL. */
  datatype Column = Column(name: string, sqlType: SqlType, constraint: Constraint)

  const IdColumn: Column := Column("id", INTEGER, PrimaryKey)
  const RunKeyColumn: Column := Column("run_key", TEXT, Unique)

  /** A pipeline detail: its parameter class, with or without a default. */
  datatype DetailDecl = DetailDecl(paramType: ParamType, default: Option<Value>)

  /** What the store sees of the pipeline: the details, the nodes in order,
      and for each bound artifact the names of the nodes upstream of it. */
  datatype Graph = Graph(
    details: Dict<string, DetailDecl>,
    nodes: seq<Exe.ExeNode>,
    upstream: Dict<string, seq<string>>)

  ghost predicate GraphValid(g: Graph) {
    && g.details.Valid()
    && g.upstream.Valid()
    && forall i :: 0 <= i < |g.nodes| ==> g.nodes[i].annotations.Valid()
  }

  /** `_translate_param_to_type`: a table lookup that raises KeyError for a
      class it does not list, such as the base `Parameter`. */
  function Translate(t: ParamType): (r: Result<SqlType>)
    ensures r.Success? <==> t != Parameter
    ensures r.Failure? ==> r.error == UnlistedClass
  {
    match t
    case Int => Success(INTEGER)
    case Str => Success(TEXT)
    case Float => Success(REAL)
    case File => Success(TEXT)
    case Directory => Success(TEXT)
    case Parameter => Failure(UnlistedClass)
  }

  /** The KeyError raised for the base `Parameter` class. */
  const UnlistedClass: Error := KeyError("Parameter")

  /** Integers are stored as INTEGER, floats as REAL, and strings, files and
      directories as TEXT. */
  lemma TranslateTable()
    ensures Translate(Int) == Success(INTEGER)
    ensures Translate(Float) == Success(REAL)
    ensures Translate(Str) == Success(TEXT)
    ensures Translate(File) == Success(TEXT)
    ensures Translate(Directory) == Success(TEXT)
  {
  }

  /** Two column names built with the same prefix are equal exactly when
      their suffixes are. */
  lemma PrefixedNames(p: string, a: string, b: string)
    ensures p + a == p + b <==> a == b
  {
    if p + a == p + b {
      assert a == (p + a)[|p|..];
    }
  }

  /** The columns for the details `ks`, in order: `details_<key>` typed by
      the key's class, with `details_run_key` left out (that detail is the
      `run_key` column itself). The class of every detail is translated,
      the skipped one included. */
  function DetailColumns(ks: seq<string>, details: map<string, DetailDecl>): (r: Result<seq<Column>>)
    requires forall k :: k in ks ==> k in details
    ensures r.Success? <==> forall i :: 0 <= i < |ks| ==> details[ks[i]].paramType != Parameter
    ensures r.Failure? ==> r.error == UnlistedClass
  {
    if ks == [] then Success([])
    else
      var k := ks[|ks| - 1];
      var prev :- DetailColumns(ks[..|ks| - 1], details);
      var ty :- Translate(details[k].paramType);
      var name := "details_" + k;
      if name != "details_run_key" then Success(prev + [Column(name, ty, NoConstraint)])
      else Success(prev)
  }

  /** The detail columns are exactly `details_<key>` for the keys other
      than `run_key`, each typed by its key's class. */
  lemma {:induction false} DetailColumnsMembers(ks: seq<string>, details: map<string, DetailDecl>, c: Column)
    requires forall k :: k in ks ==> k in details
    requires DetailColumns(ks, details).Success?
    ensures c in DetailColumns(ks, details).value <==>
      exists k :: k in ks && k != "run_key" && c == DetailColumn(k, details[k])
  {
    if ks != [] {
      var k := ks[|ks| - 1];
      var init := ks[..|ks| - 1];
      DetailColumnsMembers(init, details, c);
      PrefixedNames("details_", k, "run_key");
      assert forall j :: j in ks <==> j in init || j == k;
      if k != "run_key" {
        assert DetailColumns(ks, details).value == DetailColumns(init, details).value + [DetailColumn(k, details[k])];
      } else {
        assert DetailColumns(ks, details).value == DetailColumns(init, details).value;
      }
    }
  }

  /** The column of a detail other than `run_key`. */
  function DetailColumn(k: string, d: DetailDecl): Column
    requires d.paramType != Parameter
  {
    Column("details_" + k, Translate(d.paramType).value, NoConstraint)
  }

  /** The column of one node parameter. */
  function ParamColumn(node: string, p: string, t: ParamType): Column
    requires t != Parameter
  {
    Column(node + "_" + p, Translate(t).value, NoConstraint)
  }

  /** The columns `<node>_<param>` for the parameters `ks` of one node, in
      order. */
  function ParamColumns(node: string, ks: seq<string>, params: map<string, ParamType>): (r: Result<seq<Column>>)
    requires forall k :: k in ks ==> k in params
    ensures r.Success? <==> forall i :: 0 <= i < |ks| ==> params[ks[i]] != Parameter
    ensures r.Failure? ==> r.error == UnlistedClass
    ensures r.Success? ==> |r.value| == |ks| && forall i :: 0 <= i < |ks| ==>
      r.value[i] == ParamColumn(node, ks[i], params[ks[i]])
  {
    if ks == [] then Success([])
    else
      var k := ks[|ks| - 1];
      var prev :- ParamColumns(node, ks[..|ks| - 1], params);
      var ty :- Translate(params[k]);
      Success(prev + [Column(node + "_" + k, ty, NoConstraint)])
  }

  /** The parameter columns of one node: `get_input_params`, then one
      column per parameter. */
  function NodeParamColumns(n: Exe.ExeNode): (r: Result<seq<Column>>)
    requires n.annotations.Valid()
  {
    var ps :- Exe.InputParams(n);
    ParamColumns(n.name, ps.keys, ps.entries)
  }

  /** A node whose parameters all have a column type. */
  predicate NodeTyped(n: Exe.ExeNode)
    requires n.annotations.Valid()
  {
    var ps := Exe.InputParams(n);
    ps.Success? && forall p :: p in ps.value.entries ==> ps.value.entries[p] != Parameter
  }

  /** One node's columns exist exactly when the node is typed, and they are
      then exactly its parameter columns. */
  lemma NodeParamColumnsMembers(n: Exe.ExeNode, c: Column)
    requires n.annotations.Valid()
    ensures NodeParamColumns(n).Success? <==> NodeTyped(n)
    ensures NodeParamColumns(n).Success? ==> (c in NodeParamColumns(n).value <==>
      exists p :: p in Exe.InputParams(n).value.entries && Exe.InputParams(n).value.entries[p] != Parameter
        && c == ParamColumn(n.name, p, Exe.InputParams(n).value.entries[p]))
  {
    var ps := Exe.InputParams(n);
    if ps.Success? {
      var d := ps.value;
      assert forall p :: p in d.entries ==> exists i :: 0 <= i < |d.keys| && d.keys[i] == p;
    }
  }

  /** The results of the nodes one after another: the concatenation of
      their values, or the first failure. */
  function ConcatAll<T>(rs: seq<Result<seq<T>>>): (r: Result<seq<T>>)
  {
    if rs == [] then Success([])
    else
      var prev :- ConcatAll(rs[..|rs| - 1]);
      var last :- rs[|rs| - 1];
      Success(prev + last)
  }

  /** One result more: the concatenation so far extended by its value, or
      the first failure. */
  lemma ConcatAllSnoc<T>(rs: seq<Result<seq<T>>>, j: nat)
    requires j < |rs|
    ensures ConcatAll(rs[..j + 1]) ==
      if ConcatAll(rs[..j]).Failure? then ConcatAll(rs[..j])
      else if rs[j].Failure? then Failure(rs[j].error)
      else Success(ConcatAll(rs[..j]).value + rs[j].value)
  {
    assert rs[..j + 1][..j] == rs[..j];
  }

  /** A failure among the first results is the failure of all of them. */
  lemma {:induction false} ConcatAllPrefixFailure<T>(rs: seq<Result<seq<T>>>, j: nat)
    requires j <= |rs| && ConcatAll(rs[..j]).Failure?
    ensures ConcatAll(rs) == ConcatAll(rs[..j])
    decreases |rs| - j
  {
    if j < |rs| {
      assert rs[..j + 1][..j] == rs[..j];
      ConcatAllPrefixFailure(rs, j + 1);
    } else {
      assert rs[..j] == rs;
    }
  }

  /** The concatenation exists exactly when every result is a success. */
  lemma {:induction false} ConcatAllDefined<T>(rs: seq<Result<seq<T>>>)
    ensures ConcatAll(rs).Success? <==> forall i :: 0 <= i < |rs| ==> rs[i].Success?
  {
    if rs != [] {
      var init := rs[..|rs| - 1];
      ConcatAllDefined(init);
      assert forall i :: 0 <= i < |init| ==> init[i] == rs[i];
    }
  }

  /** The concatenation holds exactly the items of the results. */
  lemma {:induction false} ConcatAllMembers<T>(rs: seq<Result<seq<T>>>, x: T)
    requires ConcatAll(rs).Success?
    ensures forall i :: 0 <= i < |rs| ==> rs[i].Success?
    ensures x in ConcatAll(rs).value <==> exists i :: 0 <= i < |rs| && x in rs[i].value
  {
    ConcatAllDefined(rs);
    if rs != [] {
      var init := rs[..|rs| - 1];
      assert ConcatAll(rs).value == ConcatAll(init).value + rs[|rs| - 1].value;
      ConcatAllMembers(init, x);
      assert forall i :: 0 <= i < |init| ==> init[i] == rs[i];
    }
  }

  /** Each node's parameter columns, in graph order. */
  function NodeResults(nodes: seq<Exe.ExeNode>): (rs: seq<Result<seq<Column>>>)
    requires forall i :: 0 <= i < |nodes| ==> nodes[i].annotations.Valid()
    ensures |rs| == |nodes| && forall i :: 0 <= i < |nodes| ==> rs[i] == NodeParamColumns(nodes[i])
  {
    if nodes == [] then []
    else NodeResults(nodes[..|nodes| - 1]) + [NodeParamColumns(nodes[|nodes| - 1])]
  }

  /** The parameter columns of the nodes, node after node in graph order;
      the first node that fails makes the whole fail. */
  function NodeColumns(nodes: seq<Exe.ExeNode>): (r: Result<seq<Column>>)
    requires forall i :: 0 <= i < |nodes| ==> nodes[i].annotations.Valid()
  {
    ConcatAll(NodeResults(nodes))
  }

  /** The node columns exist exactly when every node's columns do. */
  lemma NodeColumnsDefined(nodes: seq<Exe.ExeNode>)
    requires forall i :: 0 <= i < |nodes| ==> nodes[i].annotations.Valid()
    ensures NodeColumns(nodes).Success? <==> forall i :: 0 <= i < |nodes| ==> NodeParamColumns(nodes[i]).Success?
  {
    ConcatAllDefined(NodeResults(nodes));
  }

  /** The node columns are exactly the parameter columns of the nodes. */
  lemma NodeColumnsMembers(nodes: seq<Exe.ExeNode>, c: Column)
    requires forall i :: 0 <= i < |nodes| ==> nodes[i].annotations.Valid()
    requires NodeColumns(nodes).Success?
    ensures forall i :: 0 <= i < |nodes| ==> NodeParamColumns(nodes[i]).Success?
    ensures c in NodeColumns(nodes).value <==>
      exists i :: 0 <= i < |nodes| && c in NodeParamColumns(nodes[i]).value
  {
    var rs := NodeResults(nodes);
    ConcatAllMembers(rs, c);
    if c in NodeColumns(nodes).value {
      var i :| 0 <= i < |rs| && c in rs[i].value;
      assert c in NodeParamColumns(nodes[i]).value;
    }
  }

  /** The Run columns in order: `id`, `run_key`, the details, then the node
      parameters. */
  function RunColumns(g: Graph): (r: Result<seq<Column>>)
    requires GraphValid(g)
  {
    var d :- DetailColumns(g.details.keys, g.details.entries);
    var n :- NodeColumns(g.nodes);
    Success([IdColumn, RunKeyColumn] + d + n)
  }

  function Names(cols: seq<Column>): (ns: seq<string>)
    ensures |ns| == |cols| && forall i :: 0 <= i < |cols| ==> ns[i] == cols[i].name
  {
    seq(|cols|, i requires 0 <= i < |cols| => cols[i].name)
  }

  /** The columns under the one UNIQUE table constraint: all but the first
      two. */
  function UniqueColumns(cols: seq<Column>): seq<string>
    requires |cols| >= 2
  {
    Names(cols[2..])
  }

  /** `CREATE TABLE Run`: fails like SQLite on a column name used twice (a
      detail and a node parameter that flatten to the same name) and on an
      empty `UNIQUE()`, when there is no detail and no parameter. */
  function InitSchema(g: Graph): (r: Result<seq<Column>>)
    requires GraphValid(g)
    ensures r.Success? ==> r == RunColumns(g)
    ensures r.Success? ==> |r.value| >= 3 && Distinct(Names(r.value))
    ensures r.Failure? ==> RunColumns(g).Failure? || r.error.SqlError?
  {
    var cols :- RunColumns(g);
    if !Distinct(Names(cols)) then Failure(SqlError("duplicate column name"))
    else if |cols| == 2 then Failure(SqlError("near \")\": syntax error"))
    else Success(cols)
  }

  /** The schema of `_init_database`: `id` is the primary key, `run_key` is
      UNIQUE, every other column is a detail or node parameter without a
      column constraint, and the UNIQUE table constraint covers exactly
      those other columns, so neither `id` nor `run_key` is in it. */
  lemma RunSchemaShape(g: Graph)
    requires GraphValid(g)
    requires InitSchema(g).Success?
    ensures var cols := InitSchema(g).value;
      && cols[0] == IdColumn && cols[1] == RunKeyColumn
      && (forall i :: 2 <= i < |cols| ==> cols[i].constraint == NoConstraint)
      && "id" !in UniqueColumns(cols) && "run_key" !in UniqueColumns(cols)
      && |UniqueColumns(cols)| == |cols| - 2
  {
    var cols := InitSchema(g).value;
    assert cols[..2] == [IdColumn, RunKeyColumn];
    assert cols == RunColumns(g).value;
    SchemaUnconstrained(g);
    SchemaUniqueNames(g);
  }

  /** The columns after `id` and `run_key` carry no column constraint. */
  lemma SchemaUnconstrained(g: Graph)
    requires GraphValid(g)
    requires RunColumns(g).Success?
    ensures forall i :: 2 <= i < |RunColumns(g).value| ==> RunColumns(g).value[i].constraint == NoConstraint
  {
    var cols := RunColumns(g).value;
    var rest := DetailColumns(g.details.keys, g.details.entries).value + NodeColumns(g.nodes).value;
    forall c | c in rest
      ensures c.constraint == NoConstraint
    {
      RunColumnUnconstrained(g, c);
    }
    assert cols[2..] == rest;
    forall i | 2 <= i < |cols|
      ensures cols[i].constraint == NoConstraint
    {
      assert cols[i] == rest[i - 2];
    }
  }

  /** Neither `id` nor `run_key` is under the UNIQUE table constraint. */
  lemma SchemaUniqueNames(g: Graph)
    requires GraphValid(g)
    requires InitSchema(g).Success?
    ensures "id" !in UniqueColumns(InitSchema(g).value) && "run_key" !in UniqueColumns(InitSchema(g).value)
  {
    var cols := InitSchema(g).value;
    assert cols[..2] == [IdColumn, RunKeyColumn];
    assert cols[0].name == "id" && cols[1].name == "run_key";
    UniqueNamesOf(cols);
  }

  /** In a column list with distinct names, the names of the first two
      columns are not among the rest. */
  lemma UniqueNamesOf(cols: seq<Column>)
    requires |cols| >= 2 && Distinct(Names(cols))
    ensures cols[0].name !in UniqueColumns(cols) && cols[1].name !in UniqueColumns(cols)
  {
    var names := Names(cols);
    forall k | 0 <= k < |cols| - 2
      ensures UniqueColumns(cols)[k] != cols[0].name && UniqueColumns(cols)[k] != cols[1].name
    {
      assert UniqueColumns(cols)[k] == names[k + 2];
    }
  }

  /** A detail or parameter column carries no column constraint. */
  lemma RunColumnUnconstrained(g: Graph, c: Column)
    requires GraphValid(g) && RunColumns(g).Success?
    requires c in DetailColumns(g.details.keys, g.details.entries).value + NodeColumns(g.nodes).value
    ensures c.constraint == NoConstraint
  {
    if c in DetailColumns(g.details.keys, g.details.entries).value {
      DetailColumnsMembers(g.details.keys, g.details.entries, c);
    } else {
      NodeColumnsMembers(g.nodes, c);
      var j :| 0 <= j < |g.nodes| && c in NodeParamColumns(g.nodes[j]).value;
      NodeParamColumnsMembers(g.nodes[j], c);
    }
  }

  /** The Run table has a column for every detail but `run_key` and for
      every parameter of every node, typed by its class. */
  lemma RunColumnsCover(g: Graph)
    requires GraphValid(g)
    requires RunColumns(g).Success?
    ensures forall k :: k in g.details.entries && k != "run_key" ==>
      DetailColumn(k, g.details.entries[k]) in RunColumns(g).value
    ensures forall i :: 0 <= i < |g.nodes| ==> NodeTyped(g.nodes[i])
    ensures forall i, p :: 0 <= i < |g.nodes| && NodeTyped(g.nodes[i]) && p in Exe.InputParams(g.nodes[i]).value.entries ==>
      ParamColumn(g.nodes[i].name, p, Exe.InputParams(g.nodes[i]).value.entries[p]) in RunColumns(g).value
  {
    var d := DetailColumns(g.details.keys, g.details.entries).value;
    var n := NodeColumns(g.nodes).value;
    assert RunColumns(g).value == [IdColumn, RunKeyColumn] + d + n;
    NodeColumnsDefined(g.nodes);
    forall k | k in g.details.entries && k != "run_key"
      ensures DetailColumn(k, g.details.entries[k]) in RunColumns(g).value
    {
      assert k in g.details.keys;
      DetailColumnsMembers(g.details.keys, g.details.entries, DetailColumn(k, g.details.entries[k]));
      assert DetailColumn(k, g.details.entries[k]) in d;
    }
    forall i | 0 <= i < |g.nodes|
      ensures NodeTyped(g.nodes[i])
    {
      NodeParamColumnsMembers(g.nodes[i], IdColumn);
    }
    forall i, p | 0 <= i < |g.nodes| && NodeTyped(g.nodes[i]) && p in Exe.InputParams(g.nodes[i]).value.entries
      ensures ParamColumn(g.nodes[i].name, p, Exe.InputParams(g.nodes[i]).value.entries[p]) in RunColumns(g).value
    {
      var c := ParamColumn(g.nodes[i].name, p, Exe.InputParams(g.nodes[i]).value.entries[p]);
      NodeParamColumnsMembers(g.nodes[i], c);
      assert c in NodeParamColumns(g.nodes[i]).value;
      NodeColumnsMembers(g.nodes, c);
      assert c in n;
    }
  }

  /** The Run schema exists exactly when every detail and every parameter
      is of a class the translation table lists, and every node's
      annotations are classes. */
  lemma RunColumnsDefined(g: Graph)
    requires GraphValid(g)
    ensures RunColumns(g).Success? <==>
      (forall k :: k in g.details.entries ==> g.details.entries[k].paramType != Parameter)
      && (forall i :: 0 <= i < |g.nodes| ==> NodeTyped(g.nodes[i]))
  {
    var ks := g.details.keys;
    var dm := g.details.entries;
    var detailsOk := forall k :: k in dm ==> dm[k].paramType != Parameter;
    assert DetailColumns(ks, dm).Success? <==> detailsOk by {
      assert forall k :: k in dm ==> exists i :: 0 <= i < |ks| && ks[i] == k;
    }
    var nodesOk := forall i :: 0 <= i < |g.nodes| ==> NodeTyped(g.nodes[i]);
    assert NodeColumns(g.nodes).Success? <==> nodesOk by {
      NodeColumnsDefined(g.nodes);
      forall i | 0 <= i < |g.nodes|
        ensures NodeParamColumns(g.nodes[i]).Success? <==> NodeTyped(g.nodes[i])
      {
        NodeParamColumnsMembers(g.nodes[i], IdColumn);
      }
    }
  }

  // ---------------------------------------------------------------------
  // Flattened configurations (`_flatten_config`).

  /** A run configuration: section name to parameter name to value. */
  type Config = Dict<string, Dict<string, Value>>

  ghost predicate ConfigValid(c: Config) {
    c.Valid() && forall s :: s in c.entries ==> c.entries[s].Valid()
  }

  /** The name a section/key pair is stored under before the `run_key`
      rename. */
  function PairName(s: string, k: string): string {
    s + "_" + k
  }

  /** The column a section/key pair ends up in: `details_run_key` becomes
      `run_key`. */
  function FlatName(s: string, k: string): string {
    if PairName(s, k) == "details_run_key" then "run_key" else PairName(s, k)
  }

  /** The named entries of one section, in key order. */
  function SectionPairs(s: string, ks: seq<string>, sec: map<string, Value>): (ps: seq<(string, Value)>)
    requires forall k :: k in ks ==> k in sec
    ensures |ps| == |ks| && forall i :: 0 <= i < |ks| ==> ps[i] == (PairName(s, ks[i]), sec[ks[i]])
  {
    if ks == [] then []
    else SectionPairs(s, ks[..|ks| - 1], sec) + [(PairName(s, ks[|ks| - 1]), sec[ks[|ks| - 1]])]
  }

  predicate SectionsKeyed(ss: seq<string>, c: map<string, Dict<string, Value>>) {
    forall s :: s in ss ==> s in c && forall k :: k in c[s].keys ==> k in c[s].entries
  }

  /** The named entries of the sections `ss`, section after section. */
  function ConfigPairs(ss: seq<string>, c: map<string, Dict<string, Value>>): (ps: seq<(string, Value)>)
    requires SectionsKeyed(ss, c)
  {
    if ss == [] then []
    else
      var s := ss[|ss| - 1];
      ConfigPairs(ss[..|ss| - 1], c) + SectionPairs(s, c[s].keys, c[s].entries)
  }

  /** Assigning the pairs in order into an empty dict: a later pair with the
      same name overwrites an earlier one. */
  function LastWins<V>(ps: seq<(string, V)>): (m: map<string, V>)
  {
    if ps == [] then map[]
    else LastWins(ps[..|ps| - 1])[ps[|ps| - 1].0 := ps[|ps| - 1].1]
  }

  /** The rename at the end of `_flatten_config`. */
  function RenameRunKey(m: map<string, Value>): map<string, Value> {
    if "details_run_key" in m then (m - {"details_run_key"})["run_key" := m["details_run_key"]] else m
  }

  function Flatten(c: Config): map<string, Value>
    requires ConfigValid(c)
  {
    RenameRunKey(LastWins(ConfigPairs(c.keys, c.entries)))
  }

  /** `_flatten_config`. */
  method FlattenConfig(c: Config) returns (results: map<string, Value>)
    requires ConfigValid(c)
    ensures results == Flatten(c)
  {
    results := map[];
    var i := 0;
    while i < |c.keys|
      invariant 0 <= i <= |c.keys|
      invariant SectionsKeyed(c.keys[..i], c.entries)
      invariant results == LastWins(ConfigPairs(c.keys[..i], c.entries))
    {
      var s := c.keys[i];
      results := AssignSection(results, ConfigPairs(c.keys[..i], c.entries), s, c.entries[s]);
      ConfigPairsSnoc(c.keys, i, c.entries);
      i := i + 1;
    }
    assert c.keys[..i] == c.keys;
    if "details_run_key" in results {
      var v := results["details_run_key"];
      results := results - {"details_run_key"};
      results := results["run_key" := v];
    }
  }

  /** The inner loop of `_flatten_config`: assigns one section's entries
      under their `<section>_<key>` names. */
  method AssignSection(results: map<string, Value>, ghost done: seq<(string, Value)>, s: string, sec: Dict<string, Value>)
    returns (r: map<string, Value>)
    requires results == LastWins(done)
    requires forall k :: k in sec.keys ==> k in sec.entries
    ensures r == LastWins(done + SectionPairs(s, sec.keys, sec.entries))
  {
    r := results;
    var j := 0;
    assert done + SectionPairs(s, sec.keys[..0], sec.entries) == done;
    while j < |sec.keys|
      invariant 0 <= j <= |sec.keys|
      invariant r == LastWins(done + SectionPairs(s, sec.keys[..j], sec.entries))
    {
      var key := sec.keys[j];
      AssignStep(done, s, sec.keys, j, sec.entries);
      r := r[PairName(s, key) := sec.entries[key]];
      j := j + 1;
    }
    assert sec.keys[..j] == sec.keys;
  }

  /** One entry more of a section: the assignment of its flattened name. */
  lemma AssignStep(done: seq<(string, Value)>, s: string, ks: seq<string>, j: nat, sec: map<string, Value>)
    requires j < |ks| && forall k :: k in ks ==> k in sec
    ensures LastWins(done + SectionPairs(s, ks[..j + 1], sec))
      == LastWins(done + SectionPairs(s, ks[..j], sec))[PairName(s, ks[j]) := sec[ks[j]]]
  {
    var p := (PairName(s, ks[j]), sec[ks[j]]);
    SectionPairsSnoc(s, ks, j, sec);
    assert done + SectionPairs(s, ks[..j + 1], sec) == (done + SectionPairs(s, ks[..j], sec)) + [p];
    LastWinsSnoc(done + SectionPairs(s, ks[..j], sec), p);
  }

  lemma LastWinsSnoc<V>(ps: seq<(string, V)>, p: (string, V))
    ensures LastWins(ps + [p]) == LastWins(ps)[p.0 := p.1]
  {
    assert (ps + [p])[..|ps|] == ps;
  }

  lemma SectionPairsSnoc(s: string, ks: seq<string>, j: nat, sec: map<string, Value>)
    requires j < |ks| && forall k :: k in ks ==> k in sec
    ensures SectionPairs(s, ks[..j + 1], sec) == SectionPairs(s, ks[..j], sec) + [(PairName(s, ks[j]), sec[ks[j]])]
  {
    assert ks[..j + 1][..j] == ks[..j];
  }

  lemma ConfigPairsSnoc(ss: seq<string>, i: nat, c: map<string, Dict<string, Value>>)
    requires i < |ss| && SectionsKeyed(ss[..i], c) && ss[i] in c
    requires forall k :: k in c[ss[i]].keys ==> k in c[ss[i]].entries
    ensures SectionsKeyed(ss[..i + 1], c)
    ensures ConfigPairs(ss[..i + 1], c) == ConfigPairs(ss[..i], c) + SectionPairs(ss[i], c[ss[i]].keys, c[ss[i]].entries)
  {
    assert ss[..i + 1][..i] == ss[..i];
    assert forall t :: t in ss[..i + 1] ==> t in ss[..i] || t == ss[i];
  }

  lemma {:induction false} LastWinsKeys<V>(ps: seq<(string, V)>)
    ensures forall k :: k in LastWins(ps) <==> exists i :: 0 <= i < |ps| && ps[i].0 == k
  {
    if ps != [] {
      var init := ps[..|ps| - 1];
      LastWinsKeys(init);
      forall k | k in LastWins(ps)
        ensures exists i :: 0 <= i < |ps| && ps[i].0 == k
      {
        if k != ps[|ps| - 1].0 {
          assert k in LastWins(init);
          var i :| 0 <= i < |init| && init[i].0 == k;
          assert ps[i].0 == k;
        }
      }
      forall k | exists i :: 0 <= i < |ps| && ps[i].0 == k
        ensures k in LastWins(ps)
      {
        var i :| 0 <= i < |ps| && ps[i].0 == k;
        if i < |ps| - 1 {
          assert init[i].0 == k;
        }
      }
    }
  }

  /** When no two pairs share a name, every pair's value survives. */
  lemma {:induction false} LastWinsDistinct<V>(ps: seq<(string, V)>)
    requires forall i, j :: 0 <= i < j < |ps| ==> ps[i].0 != ps[j].0
    ensures forall i :: 0 <= i < |ps| ==> ps[i].0 in LastWins(ps) && LastWins(ps)[ps[i].0] == ps[i].1
  {
    if ps != [] {
      var init := ps[..|ps| - 1];
      LastWinsDistinct(init);
      forall i | 0 <= i < |ps|
        ensures ps[i].0 in LastWins(ps) && LastWins(ps)[ps[i].0] == ps[i].1
      {
        if i < |ps| - 1 {
          assert init[i] == ps[i];
        }
      }
    }
  }

  /** Every value of the dict is the value of some pair with its key. */
  lemma {:induction false} LastWinsFrom<V>(ps: seq<(string, V)>)
    ensures forall k :: k in LastWins(ps) ==> exists i :: 0 <= i < |ps| && ps[i] == (k, LastWins(ps)[k])
  {
    if ps != [] {
      var init := ps[..|ps| - 1];
      LastWinsFrom(init);
      forall k | k in LastWins(ps)
        ensures exists i :: 0 <= i < |ps| && ps[i] == (k, LastWins(ps)[k])
      {
        if k != ps[|ps| - 1].0 {
          var i :| 0 <= i < |init| && init[i] == (k, LastWins(init)[k]);
          assert ps[i] == init[i];
        } else {
          assert ps[|ps| - 1] == (k, LastWins(ps)[k]);
        }
      }
    }
  }

  /** Every section/key pair of the configuration is among the named
      pairs. */
  lemma {:induction false} PairListed(ss: seq<string>, c: map<string, Dict<string, Value>>, s: string, k: string)
    requires SectionsKeyed(ss, c)
    requires s in ss && k in c[s].keys
    ensures (PairName(s, k), c[s].entries[k]) in ConfigPairs(ss, c)
  {
    var last := ss[|ss| - 1];
    var init := ss[..|ss| - 1];
    var sp := SectionPairs(last, c[last].keys, c[last].entries);
    assert ConfigPairs(ss, c) == ConfigPairs(init, c) + sp;
    if s == last {
      var i :| 0 <= i < |c[s].keys| && c[s].keys[i] == k;
      assert sp[i] == (PairName(s, k), c[s].entries[k]);
    } else {
      assert s in init;
      PairListed(init, c, s, k);
    }
  }

  /** Every named pair comes from a section/key pair of the configuration. */
  lemma {:induction false} PairSource(ss: seq<string>, c: map<string, Dict<string, Value>>, p: (string, Value))
    returns (s: string, k: string)
    requires SectionsKeyed(ss, c)
    requires p in ConfigPairs(ss, c)
    ensures s in ss && k in c[s].keys && p == (PairName(s, k), c[s].entries[k])
  {
    var last := ss[|ss| - 1];
    var init := ss[..|ss| - 1];
    var sp := SectionPairs(last, c[last].keys, c[last].entries);
    assert ConfigPairs(ss, c) == ConfigPairs(init, c) + sp;
    if p in sp {
      var i :| 0 <= i < |sp| && sp[i] == p;
      s, k := last, c[last].keys[i];
    } else {
      s, k := PairSource(init, c, p);
    }
  }

  /** One section/key pair names a column of the flattened config. */
  lemma FlatNameListed(c: Config, s: string, k: string)
    requires ConfigValid(c)
    requires s in c.entries && k in c.entries[s].entries
    ensures FlatName(s, k) in Flatten(c)
  {
    var ps := ConfigPairs(c.keys, c.entries);
    assert s in c.keys && k in c.entries[s].keys;
    PairListed(c.keys, c.entries, s, k);
    LastWinsKeys(ps);
    assert PairName(s, k) in LastWins(ps);
  }

  /** One column of the flattened config comes from a section/key pair. */
  lemma FlatNameSource(c: Config, n: string) returns (s: string, k: string)
    requires ConfigValid(c)
    requires n in Flatten(c)
    ensures s in c.entries && k in c.entries[s].entries && FlatName(s, k) == n
  {
    var ps := ConfigPairs(c.keys, c.entries);
    var m := LastWins(ps);
    LastWinsKeys(ps);
    var src := if n == "run_key" && "details_run_key" in m then "details_run_key" else n;
    assert src in m;
    var i :| 0 <= i < |ps| && ps[i].0 == src;
    s, k := PairSource(c.keys, c.entries, ps[i]);
  }

  /** `_flatten_config` drops no entry: every section/key pair names a
      column `<section>_<key>` (`details_run_key` as `run_key`), and every
      column comes from such a pair. `details_run_key` itself never
      remains. */
  lemma FlattenNames(c: Config)
    requires ConfigValid(c)
    ensures "details_run_key" !in Flatten(c)
    ensures forall s, k :: s in c.entries && k in c.entries[s].entries ==> FlatName(s, k) in Flatten(c)
    ensures forall n :: n in Flatten(c) ==>
      exists s, k :: s in c.entries && k in c.entries[s].entries && FlatName(s, k) == n
  {
    forall s, k | s in c.entries && k in c.entries[s].entries
      ensures FlatName(s, k) in Flatten(c)
    {
      FlatNameListed(c, s, k);
    }
    forall n | n in Flatten(c)
      ensures exists s, k :: s in c.entries && k in c.entries[s].entries && FlatName(s, k) == n
    {
      var s, k := FlatNameSource(c, n);
    }
  }

  /** When no two section/key pairs share a name, each value lands in its
      column unchanged (a `run_key` pair outside `details` is the one
      exception: the detail's run key takes its place). */
  lemma FlattenValues(c: Config)
    requires ConfigValid(c)
    requires forall i, j :: 0 <= i < j < |ConfigPairs(c.keys, c.entries)| ==>
      ConfigPairs(c.keys, c.entries)[i].0 != ConfigPairs(c.keys, c.entries)[j].0
    ensures forall s, k :: s in c.entries && k in c.entries[s].entries && PairName(s, k) != "run_key" ==>
      FlatName(s, k) in Flatten(c) && Flatten(c)[FlatName(s, k)] == c.entries[s].entries[k]
  {
    var ps := ConfigPairs(c.keys, c.entries);
    LastWinsDistinct(ps);
    forall s, k | s in c.entries && k in c.entries[s].entries && PairName(s, k) != "run_key"
      ensures FlatName(s, k) in Flatten(c) && Flatten(c)[FlatName(s, k)] == c.entries[s].entries[k]
    {
      assert s in c.keys && k in c.entries[s].keys;
      PairListed(c.keys, c.entries, s, k);
      var i :| 0 <= i < |ps| && ps[i] == (PairName(s, k), c.entries[s].entries[k]);
    }
  }

  /** The first loop of `_make_run_cols`: one column per detail. */
  method MakeDetailCols(ks: seq<string>, details: map<string, DetailDecl>) returns (r: Result<seq<Column>>)
    requires forall k :: k in ks ==> k in details
    ensures r == DetailColumns(ks, details)
  {
    var columns := [];
    var i := 0;
    while i < |ks|
      invariant 0 <= i <= |ks|
      invariant DetailColumns(ks[..i], details) == Success(columns)
    {
      assert ks[..i + 1][..i] == ks[..i];
      var key := ks[i];
      var ty := Translate(details[key].paramType);
      if ty.Failure? {
        return Failure(ty.error);
      }
      var fieldName := "details_" + key;
      if fieldName != "details_run_key" {
        columns := columns + [Column(fieldName, ty.value, NoConstraint)];
      }
      i := i + 1;
    }
    assert ks[..i] == ks;
    r := Success(columns);
  }

  /** The inner loop of `_make_run_cols`: one column per parameter of a
      node. */
  method MakeParamCols(node: string, ks: seq<string>, params: map<string, ParamType>) returns (r: Result<seq<Column>>)
    requires forall k :: k in ks ==> k in params
    ensures r == ParamColumns(node, ks, params)
  {
    var columns := [];
    var k := 0;
    while k < |ks|
      invariant 0 <= k <= |ks|
      invariant ParamColumns(node, ks[..k], params) == Success(columns)
    {
      assert ks[..k + 1][..k] == ks[..k];
      var param := ks[k];
      var ty := Translate(params[param]);
      if ty.Failure? {
        return Failure(ty.error);
      }
      columns := columns + [Column(node + "_" + param, ty.value, NoConstraint)];
      k := k + 1;
    }
    assert ks[..k] == ks;
    r := Success(columns);
  }

  /** One node's part of `_make_run_cols`: its input parameters, then one
      column each. */
  method MakeNodeCols(node: Exe.ExeNode) returns (r: Result<seq<Column>>)
    requires node.annotations.Valid()
    ensures r == NodeParamColumns(node)
  {
    var ps := Exe.InputParams(node);
    if ps.Failure? {
      return Failure(ps.error);
    }
    r := MakeParamCols(node.name, ps.value.keys, ps.value.entries);
  }

  /** The outer loop of `_make_run_cols`: each node's columns in graph
      order, stopping at the first node that fails. */
  method MakeNodesCols(nodes: seq<Exe.ExeNode>) returns (r: Result<seq<Column>>)
    requires forall i :: 0 <= i < |nodes| ==> nodes[i].annotations.Valid()
    ensures r == NodeColumns(nodes)
  {
    var columns := [];
    ghost var rs := NodeResults(nodes);
    var j := 0;
    while j < |nodes|
      invariant 0 <= j <= |nodes|
      invariant ConcatAll(rs[..j]) == Success(columns)
    {
      ConcatAllSnoc(rs, j);
      var cols := MakeNodeCols(nodes[j]);
      if cols.Failure? {
        ConcatAllPrefixFailure(rs, j + 1);
        return Failure(cols.error);
      }
      columns := columns + cols.value;
      j := j + 1;
    }
    assert rs[..j] == rs;
    r := Success(columns);
  }

  /** `_make_run_cols`: `id` and `run_key`, the details, then each node's
      parameters in graph order. */
  method MakeRunCols(g: Graph) returns (r: Result<seq<Column>>)
    requires GraphValid(g)
    ensures r == RunColumns(g)
  {
    var d := MakeDetailCols(g.details.keys, g.details.entries);
    if d.Failure? {
      return Failure(d.error);
    }
    var n := MakeNodesCols(g.nodes);
    if n.Failure? {
      return Failure(n.error);
    }
    r := Success([IdColumn, RunKeyColumn] + d.value + n.value);
  }

}
