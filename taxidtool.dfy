/** The taxonomy tool (yax/shared/utilities/taxidtool.py): parsing of the
    NCBI taxonomy dumps (`nodes.dmp`, `names.dmp`, `gi_taxid_nucl.dmp`),
    building one record per taxid with its root-first ancestor chain and its
    children, writing those records as tab-separated lines and reading them
    back, the subtree below a set of roots, and the gi to taxid index.
    Files are given as their lines, as `readlines()` returns them. */
module TaxidTool {
  import opened Base
  import opened Strings
  import Json
  import TaxTree

  /** A line of `nodes.dmp`. */
  datatype NodeRecord = NodeRecord(taxid: string, parent: string, rank: string)

  /** `TaxIDDataRecord`: a taxid with its scientific name, the gis assigned
      to it, its children, its ancestors (root first) and its rank. */
  datatype TaxRecord = TaxRecord(
    taxid: string,
    sciName: string,
    assocGis: seq<string>,
    children: seq<string>,
    parents: seq<string>,
    rank: string,
    numGisAssoc: int)

  // ---------------------------------------------------------------------
  // Building a dict from per-line entries.

  /** What one line contributes: an error, nothing, or a key and a value. */
  type Entry<V> = Result<Option<(string, V)>>

  /** Assigning the entries' pairs into an empty dict in order; the first
      erroneous entry ends it. */
  function Collect<V>(es: seq<Entry<V>>): (r: Result<Dict<string, V>>)
    ensures r.Success? ==> r.value.Valid()
    decreases |es|
  {
    if es == [] then Success(EmptyDict())
    else
      var d :- Collect(es[..|es| - 1]);
      var e :- es[|es| - 1];
      Success(if e.Some? then d.Put(e.value.0, e.value.1) else d)
  }

  /** Entry `e` assigns key `k`. */
  predicate Assigns<V>(e: Entry<V>, k: string) {
    e.Success? && e.value.Some? && e.value.value.0 == k
  }

  lemma CollectSnoc<V>(es: seq<Entry<V>>, i: nat)
    requires i < |es|
    ensures Collect(es[..i + 1]) == (
      match Collect(es[..i])
      case Failure(err) => Failure(err)
      case Success(d) =>
        match es[i]
        case Failure(err) => Failure(err)
        case Success(e) => Success(if e.Some? then d.Put(e.value.0, e.value.1) else d))
  {
    assert es[..i + 1][..i] == es[..i];
  }

  /** A successful entry after a successful prefix puts its pair. */
  lemma CollectPut<V>(es: seq<Entry<V>>, i: nat, d: Dict<string, V>, k: string, v: V)
    requires i < |es| && Collect(es[..i]) == Success(d) && es[i] == Success(Some((k, v)))
    ensures Collect(es[..i + 1]) == Success(d.Put(k, v))
  {
    CollectSnoc(es, i);
  }

  /** A failed entry after a successful prefix fails the whole with its
      error. */
  lemma CollectStop<V>(es: seq<Entry<V>>, i: nat)
    requires i < |es| && Collect(es[..i]).Success? && es[i].Failure?
    ensures Collect(es) == Failure(es[i].error)
  {
    CollectSnoc(es, i);
    CollectFailed(es, i + 1);
  }

  /** A failed prefix fails the whole. */
  lemma {:induction false} CollectFailed<V>(es: seq<Entry<V>>, i: nat)
    requires i <= |es| && Collect(es[..i]).Failure?
    ensures Collect(es) == Collect(es[..i])
    decreases |es| - i
  {
    if i < |es| {
      CollectSnoc(es, i);
      CollectFailed(es, i + 1);
    } else {
      assert es[..i] == es;
    }
  }

  /** `Collect` fails exactly when some entry is an error. */
  lemma {:induction false} CollectFails<V>(es: seq<Entry<V>>)
    ensures Collect(es).Failure? <==> exists i :: 0 <= i < |es| && es[i].Failure?
    decreases |es|
  {
    if es != [] {
      var init := es[..|es| - 1];
      CollectFails(init);
      if exists i :: 0 <= i < |init| && init[i].Failure? {
        var i :| 0 <= i < |init| && init[i].Failure?;
        assert es[i].Failure?;
      }
      if exists i :: 0 <= i < |es| && es[i].Failure? {
        var i :| 0 <= i < |es| && es[i].Failure?;
        if i < |init| {
          assert init[i].Failure?;
        }
      }
    }
  }

  /** A successful `Collect` holds exactly the keys some entry assigns, each
      with the value of the last entry assigning it. */
  lemma {:induction false} CollectLast<V>(es: seq<Entry<V>>, k: string)
    requires Collect(es).Success?
    ensures k in Collect(es).value.entries <==> exists i :: 0 <= i < |es| && Assigns(es[i], k)
    ensures k in Collect(es).value.entries ==> exists i :: (0 <= i < |es| && Assigns(es[i], k) &&
      Collect(es).value.entries[k] == es[i].value.value.1 &&
      forall j :: i < j < |es| ==> !Assigns(es[j], k))
    decreases |es|
  {
    if es != [] {
      var n := |es| - 1;
      var init := es[..n];
      CollectLast(init, k);
      var d := Collect(init).value;
      var r := Collect(es).value;
      assert forall i :: 0 <= i < n ==> es[i] == init[i];
      if Assigns(es[n], k) {
        assert r.entries[k] == es[n].value.value.1;
      } else {
        assert r.entries == d.entries || r.entries == d.entries[es[n].value.value.0 := es[n].value.value.1];
        if k in d.entries {
          var i :| 0 <= i < n && Assigns(init[i], k) && d.entries[k] == init[i].value.value.1 &&
            forall j :: i < j < n ==> !Assigns(init[j], k);
          assert Assigns(es[i], k);
        }
      }
    }
  }

  // ---------------------------------------------------------------------
  // names.dmp

  /** The fields of a `names.dmp` line: the line without its trailing tabs,
      bars and newlines, cut at most four times at `"\t|\t"`. */
  function NameFields(line: string): seq<string> {
    SplitMax(RStripSet(line, {'\t', '|', '\n'}), "\t|\t", 4)
  }

  /** Unpacking needs exactly four fields; only scientific names are kept. */
  function NameLine(line: string): Entry<string> {
    var f := NameFields(line);
    if |f| != 4 then Failure(ValueError("names.dmp line does not have 4 fields"))
    else if f[3] == "scientific name" then Success(Some((f[0], f[1])))
    else Success(None)
  }

  function NameEntries(lines: seq<string>): (es: seq<Entry<string>>)
    ensures |es| == |lines| && forall i :: 0 <= i < |lines| ==> es[i] == NameLine(lines[i])
  {
    seq(|lines|, i requires 0 <= i < |lines| => NameLine(lines[i]))
  }

  /** `parse_names_dmp` on the lines of `names.dmp`. */
  method ParseNamesDmp(lines: seq<string>) returns (r: Result<Dict<string, string>>)
    ensures r == Collect(NameEntries(lines))
  {
    ghost var es := NameEntries(lines);
    var results: Dict<string, string> := EmptyDict();
    var i := 0;
    while i < |lines|
      invariant 0 <= i <= |lines|
      invariant Collect(es[..i]) == Success(results)
    {
      CollectSnoc(es, i);
      var line := RStripSet(lines[i], {'\t', '|', '\n'});
      var parts := SplitMax(line, "\t|\t", 4);
      if |parts| != 4 {
        r := Failure(ValueError("names.dmp line does not have 4 fields"));
        CollectFailed(es, i + 1);
        return;
      }
      if parts[3] == "scientific name" {
        results := results.Put(parts[0], parts[1]);
      }
      i := i + 1;
    }
    assert es[..i] == es;
    r := Success(results);
  }

  /** Line `line` gives `name` as the scientific name of `taxid`. */
  predicate ScientificName(line: string, taxid: string) {
    var f := NameFields(line);
    |f| == 4 && f[3] == "scientific name" && f[0] == taxid
  }

  /** `parse_names_dmp` fails exactly on a line without four fields; on
      success a taxid has a name exactly when some line gives its scientific
      name, and the name is the one on the last such line. */
  lemma ParseNamesSpec(lines: seq<string>, k: string)
    ensures Collect(NameEntries(lines)).Failure? <==> exists i :: 0 <= i < |lines| && |NameFields(lines[i])| != 4
    ensures Collect(NameEntries(lines)).Success? ==>
      (k in Collect(NameEntries(lines)).value.entries <==> exists i :: 0 <= i < |lines| && ScientificName(lines[i], k))
    ensures Collect(NameEntries(lines)).Success? && k in Collect(NameEntries(lines)).value.entries ==>
      exists i :: (0 <= i < |lines| && ScientificName(lines[i], k) &&
        Collect(NameEntries(lines)).value.entries[k] == NameFields(lines[i])[1] &&
        forall j :: i < j < |lines| ==> !ScientificName(lines[j], k))
  {
    var es := NameEntries(lines);
    CollectFails(es);
    assert forall i :: 0 <= i < |lines| ==> (es[i].Failure? <==> |NameFields(lines[i])| != 4);
    if Collect(es).Success? {
      CollectLast(es, k);
      assert forall i :: 0 <= i < |lines| ==> (Assigns(es[i], k) <==> ScientificName(lines[i], k));
    }
  }

  // ---------------------------------------------------------------------
  // gi_taxid_nucl.dmp

  /** A `gi_taxid_nucl.dmp` line, stripped and cut at tabs, must hold
      exactly a gi and a taxid. */
  function GiLine(line: string): Result<(string, string)> {
    var f := Split(Strip(line), "\t");
    if |f| != 2 then Failure(ValueError("gi_taxid_nucl.dmp line does not have 2 fields")) else Success((f[0], f[1]))
  }

  function GiEntries(lines: seq<string>): (ps: seq<Result<(string, string)>>)
    ensures |ps| == |lines| && forall i :: 0 <= i < |lines| ==> ps[i] == GiLine(lines[i])
  {
    seq(|lines|, i requires 0 <= i < |lines| => GiLine(lines[i]))
  }

  /** The gis listed under `taxid`, `[]` when there are none. */
  function GisOf(d: Dict<string, seq<string>>, taxid: string): seq<string> {
    if taxid in d.entries then d.entries[taxid] else []
  }

  /** Appending each (gi, taxid) pair's gi to its taxid's list, in order;
      the first erroneous line ends it. */
  function Group(ps: seq<Result<(string, string)>>): (r: Result<Dict<string, seq<string>>>)
    ensures r.Success? ==> r.value.Valid()
    decreases |ps|
  {
    if ps == [] then Success(EmptyDict())
    else
      var d :- Group(ps[..|ps| - 1]);
      var p :- ps[|ps| - 1];
      Success(d.Put(p.1, GisOf(d, p.1) + [p.0]))
  }

  lemma GroupSnoc(ps: seq<Result<(string, string)>>, i: nat)
    requires i < |ps|
    ensures Group(ps[..i + 1]) == (
      match Group(ps[..i])
      case Failure(err) => Failure(err)
      case Success(d) =>
        match ps[i]
        case Failure(err) => Failure(err)
        case Success(p) => Success(d.Put(p.1, GisOf(d, p.1) + [p.0])))
  {
    assert ps[..i + 1][..i] == ps[..i];
  }

  lemma {:induction false} GroupFailed(ps: seq<Result<(string, string)>>, i: nat)
    requires i <= |ps| && Group(ps[..i]).Failure?
    ensures Group(ps) == Group(ps[..i])
    decreases |ps| - i
  {
    if i < |ps| {
      GroupSnoc(ps, i);
      GroupFailed(ps, i + 1);
    } else {
      assert ps[..i] == ps;
    }
  }

  /** `parse_gi_taxid_dmp` on the lines of `gi_taxid_nucl.dmp`. */
  method ParseGiTaxidDmp(lines: seq<string>) returns (r: Result<Dict<string, seq<string>>>)
    ensures r == Group(GiEntries(lines))
  {
    ghost var ps := GiEntries(lines);
    var results: Dict<string, seq<string>> := EmptyDict();
    var i := 0;
    while i < |lines|
      invariant 0 <= i <= |lines|
      invariant Group(ps[..i]) == Success(results)
    {
      GroupSnoc(ps, i);
      var fields := Split(Strip(lines[i]), "\t");
      if |fields| != 2 {
        r := Failure(ValueError("gi_taxid_nucl.dmp line does not have 2 fields"));
        GroupFailed(ps, i + 1);
        return;
      }
      var gi, taxid := fields[0], fields[1];
      assert ps[i] == Success((gi, taxid));
      if taxid in results.entries {
        results := results.Put(taxid, results.entries[taxid] + [gi]);
      } else {
        assert GisOf(results, taxid) + [gi] == [gi];
        results := results.Put(taxid, [gi]);
      }
      i := i + 1;
    }
    assert ps[..i] == ps;
    r := Success(results);
  }

  /** The gis that the well-formed pairs give for `taxid`, in order. */
  function GisFor(ps: seq<Result<(string, string)>>, taxid: string): seq<string> {
    if ps == [] then []
    else
      var p := ps[|ps| - 1];
      GisFor(ps[..|ps| - 1], taxid) + if p.Success? && p.value.1 == taxid then [p.value.0] else []
  }

  /** `parse_gi_taxid_dmp` fails exactly on a line that is not two fields. */
  lemma {:induction false} GroupFails(ps: seq<Result<(string, string)>>)
    ensures Group(ps).Failure? <==> exists i :: 0 <= i < |ps| && ps[i].Failure?
    decreases |ps|
  {
    if ps != [] {
      var n := |ps| - 1;
      var init := ps[..n];
      GroupFails(init);
      assert forall i :: 0 <= i < n ==> ps[i] == init[i];
      if exists i :: 0 <= i < n && init[i].Failure? {
        var i :| 0 <= i < n && init[i].Failure?;
        assert ps[i].Failure?;
      }
    }
  }

  /** On success each taxid lists exactly the gis of its lines, in file
      order, and is present exactly when it has one. */
  lemma {:induction false} GroupGis(ps: seq<Result<(string, string)>>, taxid: string)
    requires Group(ps).Success?
    ensures GisOf(Group(ps).value, taxid) == GisFor(ps, taxid)
    ensures taxid in Group(ps).value.entries <==> GisFor(ps, taxid) != []
    decreases |ps|
  {
    if ps != [] {
      var n := |ps| - 1;
      var init := ps[..n];
      GroupGis(init, taxid);
    }
  }

  /** Both, for any pairs. */
  lemma GroupSpec(ps: seq<Result<(string, string)>>, taxid: string)
    ensures Group(ps).Failure? <==> exists i :: 0 <= i < |ps| && ps[i].Failure?
    ensures Group(ps).Success? ==> GisOf(Group(ps).value, taxid) == GisFor(ps, taxid)
    ensures Group(ps).Success? ==> (taxid in Group(ps).value.entries <==> GisFor(ps, taxid) != [])
  {
    GroupFails(ps);
    if Group(ps).Success? {
      GroupGis(ps, taxid);
    }
  }

  /** The same, stated for the lines of the file. */
  lemma ParseGisSpec(lines: seq<string>, taxid: string)
    ensures Group(GiEntries(lines)).Failure? <==> exists i :: 0 <= i < |lines| && |Split(Strip(lines[i]), "\t")| != 2
    ensures Group(GiEntries(lines)).Success? ==>
      GisOf(Group(GiEntries(lines)).value, taxid) == GisFor(GiEntries(lines), taxid)
  {
    GroupSpec(GiEntries(lines), taxid);
  }

  // ---------------------------------------------------------------------
  // nodes.dmp

  /** A `nodes.dmp` line cut at most three times at `"\t|\t"` must give four
      fields: taxid, parent taxid, rank and the rest. */
  function NodeLine(line: string): Entry<NodeRecord> {
    var f := SplitMax(line, "\t|\t", 3);
    if |f| != 4 then Failure(ValueError("nodes.dmp line does not have 4 fields"))
    else Success(Some((f[0], NodeRecord(f[0], f[1], f[2]))))
  }

  function NodeEntries(lines: seq<string>): (es: seq<Entry<NodeRecord>>)
    ensures |es| == |lines| && forall i :: 0 <= i < |lines| ==> es[i] == NodeLine(lines[i])
  {
    seq(|lines|, i requires 0 <= i < |lines| => NodeLine(lines[i]))
  }

  /** `parse_nodes_dmp` on the lines of `nodes.dmp`. */
  method ParseNodesDmp(lines: seq<string>) returns (r: Result<Dict<string, NodeRecord>>)
    ensures r == Collect(NodeEntries(lines))
  {
    ghost var es := NodeEntries(lines);
    var results: Dict<string, NodeRecord> := EmptyDict();
    var i := 0;
    while i < |lines|
      invariant 0 <= i <= |lines|
      invariant Collect(es[..i]) == Success(results)
    {
      CollectSnoc(es, i);
      var parts := SplitMax(lines[i], "\t|\t", 3);
      if |parts| != 4 {
        r := Failure(ValueError("nodes.dmp line does not have 4 fields"));
        CollectFailed(es, i + 1);
        return;
      }
      results := results.Put(parts[0], NodeRecord(parts[0], parts[1], parts[2]));
      i := i + 1;
    }
    assert es[..i] == es;
    r := Success(results);
  }

  /** Records keyed by their own taxid field. */
  ghost predicate SelfKeyed(nodes: Dict<string, NodeRecord>) {
    forall k :: k in nodes.entries ==> nodes.entries[k].taxid == k
  }

  /** `parse_nodes_dmp` fails exactly on a line without four fields; on
      success it keys every record by its own taxid, holds a record for
      exactly the taxids of the lines, and keeps the last line of each. */
  lemma ParseNodesSpec(lines: seq<string>, k: string)
    ensures Collect(NodeEntries(lines)).Failure? <==>
      exists i :: 0 <= i < |lines| && |SplitMax(lines[i], "\t|\t", 3)| != 4
    ensures Collect(NodeEntries(lines)).Success? ==> SelfKeyed(Collect(NodeEntries(lines)).value)
    ensures Collect(NodeEntries(lines)).Success? ==>
      (k in Collect(NodeEntries(lines)).value.entries <==> exists i :: 0 <= i < |lines| && SplitMax(lines[i], "\t|\t", 3)[0] == k)
    ensures Collect(NodeEntries(lines)).Success? && k in Collect(NodeEntries(lines)).value.entries ==>
      exists i :: (0 <= i < |lines| && Collect(NodeEntries(lines)).value.entries[k] == NodeLine(lines[i]).value.value.1 &&
        forall j :: i < j < |lines| ==> SplitMax(lines[j], "\t|\t", 3)[0] != k)
  {
    var es := NodeEntries(lines);
    CollectFails(es);
    assert forall i :: 0 <= i < |lines| ==> (es[i].Failure? <==> |SplitMax(lines[i], "\t|\t", 3)| != 4);
    if Collect(es).Success? {
      assert forall i :: 0 <= i < |lines| ==> es[i].Success?;
      assert forall i, k' :: 0 <= i < |lines| ==> (Assigns(es[i], k') <==> SplitMax(lines[i], "\t|\t", 3)[0] == k');
      forall k' | k' in Collect(es).value.entries
        ensures Collect(es).value.entries[k'].taxid == k'
      {
        CollectLast(es, k');
      }
      CollectLast(es, k);
    }
  }

  // ---------------------------------------------------------------------
  // build_taxid_data: ancestor chains.

  /** `c` has a record that is not its own parent and names `p` as parent. */
  ghost predicate ParentOf(nodes: map<string, NodeRecord>, c: string, p: string) {
    c in nodes && nodes[c].taxid != nodes[c].parent && nodes[c].parent == p
  }

  /** `c` has a record that is its own parent. */
  ghost predicate IsRoot(nodes: map<string, NodeRecord>, c: string) {
    c in nodes && nodes[c].taxid == nodes[c].parent
  }

  /** `ps` is the chain of ancestors of `t`, root first: each entry is the
      parent of the next, the last is the parent of `t`, the first is a root,
      and `t` is a root exactly when the chain is empty. */
  ghost predicate Chain(nodes: map<string, NodeRecord>, t: string, ps: seq<string>) {
    (ps == [] ==> IsRoot(nodes, t)) &&
    (ps != [] ==> (IsRoot(nodes, ps[0]) && ParentOf(nodes, t, ps[|ps| - 1]) &&
      forall i :: 0 < i < |ps| ==> ParentOf(nodes, ps[i], ps[i - 1])))
  }

  /** The ancestors of `cur`, root first, found by following parent taxids
      up to a record that is its own parent: `KeyError` for a taxid without
      a record, `Diverges` once `fuel` steps are spent. */
  function Ancestors(nodes: map<string, NodeRecord>, cur: string, fuel: nat): (r: Result<seq<string>>)
    ensures r.Failure? ==> r.error.KeyError? || r.error == Diverges
    decreases fuel
  {
    if cur !in nodes then Failure(KeyError(cur))
    else if fuel == 0 then Failure(Diverges)
    else if nodes[cur].taxid == nodes[cur].parent then Success([])
    else
      var up :- Ancestors(nodes, nodes[cur].parent, fuel - 1);
      Success(up + [nodes[cur].parent])
  }

  /** A result with `suffix` appended to its chain. */
  function Then(r: Result<seq<string>>, suffix: seq<string>): Result<seq<string>> {
    match r
    case Success(ps) => Success(ps + suffix)
    case Failure(e) => Failure(e)
  }

  lemma ThenThen(r: Result<seq<string>>, a: seq<string>, b: seq<string>)
    ensures Then(Then(r, a), b) == Then(r, a + b)
  {
    if r.Success? {
      assert r.value + a + b == r.value + (a + b);
    }
  }

  lemma ThenNothing(r: Result<seq<string>>)
    ensures Then(r, []) == r
  {
    if r.Success? {
      assert r.value + [] == r.value;
    }
  }

  /** Lines 153-158: starting at `taxid`, insert each parent at the front
      of the list and move to it, until a record is its own parent. */
  method ParentChain(nodes: map<string, NodeRecord>, taxid: string) returns (r: Result<seq<string>>)
    ensures r == Ancestors(nodes, taxid, |nodes|)
  {
    var parents: seq<string> := [];
    var cur := taxid;
    var fuel: nat := |nodes|;
    ThenNothing(Ancestors(nodes, taxid, |nodes|));
    while true
      invariant Ancestors(nodes, taxid, |nodes|) == Then(Ancestors(nodes, cur, fuel), parents)
      decreases fuel
    {
      if cur !in nodes {
        return Failure(KeyError(cur));
      }
      if fuel == 0 {
        return Failure(Diverges);
      }
      if nodes[cur].taxid == nodes[cur].parent {
        assert [] + parents == parents;
        return Success(parents);
      }
      var parent := nodes[cur].parent;
      assert Ancestors(nodes, cur, fuel) == Then(Ancestors(nodes, parent, fuel - 1), [parent]);
      ThenThen(Ancestors(nodes, parent, fuel - 1), [parent], parents);
      parents := [parent] + parents;
      cur := parent;
      fuel := fuel - 1;
    }
  }

  /** What `Ancestors` finds is the chain of ancestors. */
  lemma {:induction false} AncestorsChain(nodes: map<string, NodeRecord>, t: string, fuel: nat)
    requires Ancestors(nodes, t, fuel).Success?
    ensures Chain(nodes, t, Ancestors(nodes, t, fuel).value)
    decreases fuel
  {
    if nodes[t].taxid != nodes[t].parent {
      var p := nodes[t].parent;
      AncestorsChain(nodes, p, fuel - 1);
      var up := Ancestors(nodes, p, fuel - 1).value;
      var ps := up + [p];
      assert forall i :: 0 <= i < |up| ==> ps[i] == up[i];
    }
  }

  /** And any chain of ancestors is what `Ancestors` finds, given more fuel
      than its length. */
  lemma {:induction false} ChainAncestors(nodes: map<string, NodeRecord>, t: string, ps: seq<string>, fuel: nat)
    requires Chain(nodes, t, ps) && |ps| < fuel
    ensures Ancestors(nodes, t, fuel) == Success(ps)
    decreases |ps|
  {
    if ps != [] {
      var n := |ps| - 1;
      var up := ps[..n];
      assert Chain(nodes, ps[n], up) by {
        if up != [] {
          assert ParentOf(nodes, ps[n], up[|up| - 1]);
        }
      }
      ChainAncestors(nodes, ps[n], up, fuel - 1);
      assert up + [ps[n]] == ps;
    }
  }

  /** The parent relation as child lists: a root has none. */
  function ParentKids(nodes: map<string, NodeRecord>): (kids: TaxTree.Kids)
    ensures kids.Keys == nodes.Keys
  {
    map t | t in nodes :: if nodes[t].taxid == nodes[t].parent then [] else [nodes[t].parent]
  }

  lemma StepOne(nodes: map<string, NodeRecord>, t: string)
    requires t in nodes
    ensures TaxTree.Step(ParentKids(nodes), {t}) == if nodes[t].taxid == nodes[t].parent then {} else {nodes[t].parent}
  {
    var kids := ParentKids(nodes);
    if nodes[t].taxid != nodes[t].parent {
      assert nodes[t].parent in kids[t];
    }
  }

  /** Following parents is a sweep over the parent relation: it runs out of
      fuel exactly when that sweep does. */
  lemma {:induction false} AncestorsSweep(nodes: map<string, NodeRecord>, t: string, fuel: nat)
    ensures Ancestors(nodes, t, fuel) == Failure(Diverges) <==> TaxTree.Explore(ParentKids(nodes), {t}, fuel).Endless?
    decreases fuel
  {
    var kids := ParentKids(nodes);
    if t in nodes && fuel > 0 {
      StepOne(nodes, t);
      if nodes[t].taxid != nodes[t].parent {
        AncestorsSweep(nodes, nodes[t].parent, fuel - 1);
      }
    } else if t !in nodes {
      assert !({t} <= kids.Keys);
    }
  }

  /** Fuel `|nodes|` decides `Diverges`: when the chain runs out of it, the
      loop of the source never ends. */
  lemma AncestorsForever(nodes: map<string, NodeRecord>, t: string, fuel: nat)
    requires Ancestors(nodes, t, |nodes|) == Failure(Diverges)
    ensures Ancestors(nodes, t, fuel) == Failure(Diverges)
  {
    var kids := ParentKids(nodes);
    assert |kids.Keys| == |nodes.Keys| == |nodes|;
    AncestorsSweep(nodes, t, |nodes|);
    TaxTree.BranchEndlessForever(kids, {t}, fuel);
    AncestorsSweep(nodes, t, fuel);
  }

  /** More fuel does not change a chain that ended. */
  lemma {:induction false} AncestorsMoreFuel(nodes: map<string, NodeRecord>, t: string, fuel: nat, more: nat)
    requires Ancestors(nodes, t, fuel) != Failure(Diverges) && fuel <= more
    ensures Ancestors(nodes, t, more) == Ancestors(nodes, t, fuel)
    decreases fuel
  {
    if t in nodes && nodes[t].taxid != nodes[t].parent {
      AncestorsMoreFuel(nodes, nodes[t].parent, fuel - 1, more - 1);
    }
  }

  /** The test tree's chain: taxid 23 under 7 under 3 under the root 1. */
  lemma AncestorsExample()
    ensures Ancestors(map["1" := NodeRecord("1", "1", "no rank"), "3" := NodeRecord("3", "1", "superkingdom"),
      "7" := NodeRecord("7", "3", "phylum"), "23" := NodeRecord("23", "7", "species")], "23", 4) == Success(["1", "3", "7"])
  {
    var nodes := map["1" := NodeRecord("1", "1", "no rank"), "3" := NodeRecord("3", "1", "superkingdom"),
      "7" := NodeRecord("7", "3", "phylum"), "23" := NodeRecord("23", "7", "species")];
    assert "3" != "1" && "7" != "3" && "23" != "7" by {
      assert "3"[0] != "1"[0] && "7"[0] != "3"[0] && "23"[0] != "7"[0];
    }
    assert Ancestors(nodes, "1", 1) == Success([]);
    assert [] + ["1"] == ["1"] && ["1"] + ["3"] == ["1", "3"] && ["1", "3"] + ["7"] == ["1", "3", "7"];
    assert Ancestors(nodes, "3", 2) == Success(["1"]);
    assert Ancestors(nodes, "7", 3) == Success(["1", "3"]);
  }

  // ---------------------------------------------------------------------
  // build_taxid_data: records and children.

  /** The record made for `taxid` before any children are added. */
  function BaseRecord(nodes: Dict<string, NodeRecord>, names: Dict<string, string>, taxidGi: Dict<string, seq<string>>,
                      taxid: string): (r: Result<TaxRecord>)
    requires taxid in nodes.entries
    ensures r.Failure? ==> r.error.KeyError? || r.error == Diverges
  {
    if taxid !in names.entries then Failure(KeyError(taxid))
    else
      var parents :- Ancestors(nodes.entries, taxid, |nodes.entries|);
      Success(TaxRecord(taxid, names.entries[taxid], GisOf(taxidGi, taxid), [], parents, nodes.entries[taxid].rank, 0))
  }

  /** The records of the taxids `ks`, in order. */
  function BaseRecords(nodes: Dict<string, NodeRecord>, names: Dict<string, string>, taxidGi: Dict<string, seq<string>>,
                       ks: seq<string>): (r: Result<Dict<string, TaxRecord>>)
    requires forall k :: k in ks ==> k in nodes.entries
    ensures r.Failure? ==> r.error.KeyError? || r.error == Diverges
    ensures r.Success? ==> r.value.Valid()
    decreases |ks|
  {
    if ks == [] then Success(EmptyDict())
    else
      var d :- BaseRecords(nodes, names, taxidGi, ks[..|ks| - 1]);
      var rec :- BaseRecord(nodes, names, taxidGi, ks[|ks| - 1]);
      Success(d.Put(ks[|ks| - 1], rec))
  }

  /** Appending each record's taxid to its parent's children, skipping
      taxid "1". */
  function AddChildren(d: Dict<string, TaxRecord>, vals: seq<NodeRecord>): (r: Result<Dict<string, TaxRecord>>)
    ensures r.Failure? ==> r.error.KeyError?
    decreases |vals|
  {
    if vals == [] then Success(d)
    else
      var d' :- AddChildren(d, vals[..|vals| - 1]);
      var v := vals[|vals| - 1];
      if v.taxid == "1" then Success(d')
      else if v.parent !in d'.entries then Failure(KeyError(v.parent))
      else Success(d'.Put(v.parent, d'.entries[v.parent].(children := d'.entries[v.parent].children + [v.taxid])))
  }

  /** `len(nodes) == len(names) >= len(taxid_gi)`. */
  predicate SizesAgree(nodes: Dict<string, NodeRecord>, names: Dict<string, string>, taxidGi: Dict<string, seq<string>>) {
    |nodes.keys| == |names.keys| >= |taxidGi.keys|
  }

  /** The records `build_taxid_data` returns for the parsed dumps. */
  function TaxidData(nodes: Dict<string, NodeRecord>, names: Dict<string, string>, taxidGi: Dict<string, seq<string>>)
    : Result<Dict<string, TaxRecord>>
    requires nodes.Valid()
  {
    if !SizesAgree(nodes, names, taxidGi) then Failure(ValueError("NCBI dump files do not make sense"))
    else
      var base :- BaseRecords(nodes, names, taxidGi, nodes.keys);
      AddChildren(base, nodes.Values())
  }

  /** `build_taxid_data`, given the three parsed dumps. */
  method BuildTaxidData(nodes: Dict<string, NodeRecord>, names: Dict<string, string>, taxidGi: Dict<string, seq<string>>)
    returns (r: Result<Dict<string, TaxRecord>>)
    requires nodes.Valid()
    ensures r == TaxidData(nodes, names, taxidGi)
  {
    if !(|nodes.keys| == |names.keys| >= |taxidGi.keys|) {
      return Failure(ValueError("NCBI dump files do not make sense"));
    }
    var base := MakeRecords(nodes, names, taxidGi);
    if base.Failure? {
      return Failure(base.error);
    }
    r := LinkChildren(base.value, nodes.Values());
  }

  /** Lines 141-158: one record per taxid of `nodes`, in order. */
  method MakeRecords(nodes: Dict<string, NodeRecord>, names: Dict<string, string>, taxidGi: Dict<string, seq<string>>)
    returns (r: Result<Dict<string, TaxRecord>>)
    requires nodes.Valid()
    ensures r == BaseRecords(nodes, names, taxidGi, nodes.keys)
  {
    var taxidData: Dict<string, TaxRecord> := EmptyDict();
    var i := 0;
    while i < |nodes.keys|
      invariant 0 <= i <= |nodes.keys|
      invariant BaseRecords(nodes, names, taxidGi, nodes.keys[..i]) == Success(taxidData)
    {
      var taxid := nodes.keys[i];
      BaseRecordsNext(nodes, names, taxidGi, nodes.keys, i, taxidData);
      if taxid !in names.entries {
        r := Failure(KeyError(taxid));
        BaseRecordsFailed(nodes, names, taxidGi, nodes.keys, i + 1);
        return;
      }
      var gis := if taxid in taxidGi.entries then taxidGi.entries[taxid] else [];
      var parents := ParentChain(nodes.entries, taxid);
      if parents.Failure? {
        r := Failure(parents.error);
        BaseRecordsFailed(nodes, names, taxidGi, nodes.keys, i + 1);
        return;
      }
      taxidData := taxidData.Put(taxid, TaxRecord(taxid, names.entries[taxid], gis, [], parents.value, nodes.entries[taxid].rank, 0));
      i := i + 1;
    }
    assert nodes.keys[..i] == nodes.keys;
    r := Success(taxidData);
  }

  /** Lines 160-164: append each record's taxid to its parent's children. */
  method LinkChildren(base: Dict<string, TaxRecord>, vals: seq<NodeRecord>) returns (r: Result<Dict<string, TaxRecord>>)
    ensures r == AddChildren(base, vals)
  {
    var taxidData := base;
    var j := 0;
    while j < |vals|
      invariant 0 <= j <= |vals|
      invariant AddChildren(base, vals[..j]) == Success(taxidData)
    {
      assert vals[..j + 1][..j] == vals[..j];
      var rec := vals[j];
      if rec.taxid != "1" {
        if rec.parent !in taxidData.entries {
          r := Failure(KeyError(rec.parent));
          AddChildrenFailed(base, vals, j + 1);
          return;
        }
        var p := taxidData.entries[rec.parent];
        taxidData := taxidData.Put(rec.parent, p.(children := p.children + [rec.taxid]));
      }
      j := j + 1;
    }
    assert vals[..j] == vals;
    r := Success(taxidData);
  }

  /** One more taxid: its record is added, or its failure is the result. */
  lemma BaseRecordsNext(nodes: Dict<string, NodeRecord>, names: Dict<string, string>,
                        taxidGi: Dict<string, seq<string>>, ks: seq<string>, i: nat, d: Dict<string, TaxRecord>)
    requires forall k :: k in ks ==> k in nodes.entries
    requires i < |ks| && BaseRecords(nodes, names, taxidGi, ks[..i]) == Success(d)
    ensures BaseRecords(nodes, names, taxidGi, ks[..i + 1]) ==
      match BaseRecord(nodes, names, taxidGi, ks[i])
      case Failure(e) => Failure(e)
      case Success(rec) => Success(d.Put(ks[i], rec))
  {
    assert ks[..i + 1][..i] == ks[..i];
  }

  lemma {:induction false} BaseRecordsFailed(nodes: Dict<string, NodeRecord>, names: Dict<string, string>,
                                             taxidGi: Dict<string, seq<string>>, ks: seq<string>, i: nat)
    requires forall k :: k in ks ==> k in nodes.entries
    requires i <= |ks| && BaseRecords(nodes, names, taxidGi, ks[..i]).Failure?
    ensures BaseRecords(nodes, names, taxidGi, ks) == BaseRecords(nodes, names, taxidGi, ks[..i])
    decreases |ks| - i
  {
    if i < |ks| {
      assert ks[..i + 1][..i] == ks[..i];
      BaseRecordsFailed(nodes, names, taxidGi, ks, i + 1);
    } else {
      assert ks[..i] == ks;
    }
  }

  lemma {:induction false} AddChildrenFailed(d: Dict<string, TaxRecord>, vals: seq<NodeRecord>, i: nat)
    requires i <= |vals| && AddChildren(d, vals[..i]).Failure?
    ensures AddChildren(d, vals) == AddChildren(d, vals[..i])
    decreases |vals| - i
  {
    if i < |vals| {
      assert vals[..i + 1][..i] == vals[..i];
      AddChildrenFailed(d, vals, i + 1);
    } else {
      assert vals[..i] == vals;
    }
  }

  // ---------------------------------------------------------------------
  // build_taxid_data: what the records hold.

  /** The taxids whose record names `p` as parent, in order, leaving out
      taxid "1". */
  function ChildrenOf(vals: seq<NodeRecord>, p: string): seq<string> {
    if vals == [] then []
    else
      var v := vals[|vals| - 1];
      ChildrenOf(vals[..|vals| - 1], p) + if v.taxid != "1" && v.parent == p then [v.taxid] else []
  }

  lemma {:induction false} ChildrenOfSpec(vals: seq<NodeRecord>, p: string, c: string)
    ensures c in ChildrenOf(vals, p) <==> exists i :: 0 <= i < |vals| && vals[i].taxid == c && c != "1" && vals[i].parent == p
    decreases |vals|
  {
    if vals != [] {
      var n := |vals| - 1;
      ChildrenOfSpec(vals[..n], p, c);
      assert forall i :: 0 <= i < n ==> vals[..n][i] == vals[i];
    }
  }

  /** `d` with every record's children extended by its children in `vals`. */
  function Linked(d: Dict<string, TaxRecord>, vals: seq<NodeRecord>): Dict<string, TaxRecord> {
    Dict(d.keys, map k | k in d.entries :: d.entries[k].(children := d.entries[k].children + ChildrenOf(vals, k)))
  }

  lemma LinkedSkip(d: Dict<string, TaxRecord>, vals: seq<NodeRecord>)
    requires vals != [] && vals[|vals| - 1].taxid == "1"
    ensures Linked(d, vals) == Linked(d, vals[..|vals| - 1])
  {
    var init := vals[..|vals| - 1];
    forall k | k in d.entries
      ensures Linked(d, vals).entries[k] == Linked(d, init).entries[k]
    {
      assert ChildrenOf(vals, k) == ChildrenOf(init, k) + [];
    }
  }

  lemma LinkedAdd(d: Dict<string, TaxRecord>, vals: seq<NodeRecord>)
    requires vals != [] && vals[|vals| - 1].taxid != "1" && vals[|vals| - 1].parent in d.entries
    ensures var e := Linked(d, vals[..|vals| - 1]);
            var v := vals[|vals| - 1];
            Linked(d, vals) == e.Put(v.parent, e.entries[v.parent].(children := e.entries[v.parent].children + [v.taxid]))
  {
    var init := vals[..|vals| - 1];
    var v := vals[|vals| - 1];
    var e := Linked(d, init);
    var e' := e.Put(v.parent, e.entries[v.parent].(children := e.entries[v.parent].children + [v.taxid]));
    forall k | k in d.entries
      ensures Linked(d, vals).entries[k] == e'.entries[k]
    {
      assert ChildrenOf(vals, k) == ChildrenOf(init, k) + if k == v.parent then [v.taxid] else [];
    }
  }

  /** Linking children succeeds unless a record other than "1" has a
      parent without a record, and then appends to each record exactly its
      children, in order. */
  lemma {:induction false} AddChildrenLinked(d: Dict<string, TaxRecord>, vals: seq<NodeRecord>)
    requires forall i :: 0 <= i < |vals| && vals[i].taxid != "1" ==> vals[i].parent in d.entries
    ensures AddChildren(d, vals) == Success(Linked(d, vals))
    decreases |vals|
  {
    if vals == [] {
      forall k | k in d.entries
        ensures Linked(d, vals).entries[k] == d.entries[k]
      {
        assert d.entries[k].children + [] == d.entries[k].children;
      }
      assert Linked(d, vals).entries == d.entries;
      assert Linked(d, vals) == d;
    } else {
      var n := |vals| - 1;
      var init := vals[..n];
      assert forall i :: 0 <= i < n ==> init[i] == vals[i];
      AddChildrenLinked(d, init);
      if vals[n].taxid == "1" {
        LinkedSkip(d, vals);
      } else {
        LinkedAdd(d, vals);
      }
    }
  }

  /** A record other than "1" whose parent has no record makes linking
      fail. */
  lemma {:induction false} AddChildrenOrphan(d: Dict<string, TaxRecord>, vals: seq<NodeRecord>, i: nat)
    requires i < |vals| && vals[i].taxid != "1" && vals[i].parent !in d.entries
    ensures AddChildren(d, vals).Failure?
    decreases |vals|
  {
    var n := |vals| - 1;
    var init := vals[..n];
    if i < n {
      assert init[i] == vals[i];
      AddChildrenOrphan(d, init, i);
    } else if AddChildren(d, init).Success? {
      AddChildrenKeys(d, init);
    }
  }

  lemma {:induction false} AddChildrenKeys(d: Dict<string, TaxRecord>, vals: seq<NodeRecord>)
    requires AddChildren(d, vals).Success?
    ensures AddChildren(d, vals).value.entries.Keys == d.entries.Keys
    decreases |vals|
  {
    if vals != [] {
      AddChildrenKeys(d, vals[..|vals| - 1]);
    }
  }

  /** Making the records fails exactly when one of them fails. */
  lemma {:induction false} BaseRecordsSucceeds(nodes: Dict<string, NodeRecord>, names: Dict<string, string>,
                                               taxidGi: Dict<string, seq<string>>, ks: seq<string>)
    requires forall k :: k in ks ==> k in nodes.entries
    ensures BaseRecords(nodes, names, taxidGi, ks).Success? <==>
      forall k :: k in ks ==> BaseRecord(nodes, names, taxidGi, k).Success?
    decreases |ks|
  {
    if ks != [] {
      var n := |ks| - 1;
      var init := ks[..n];
      assert forall k :: k in ks <==> k in init || k == ks[n];
      BaseRecordsSucceeds(nodes, names, taxidGi, init);
      BaseRecordsOk(nodes, names, taxidGi, ks);
    }
  }

  lemma BaseRecordsOk(nodes: Dict<string, NodeRecord>, names: Dict<string, string>,
                      taxidGi: Dict<string, seq<string>>, ks: seq<string>)
    requires ks != [] && forall k :: k in ks ==> k in nodes.entries
    ensures BaseRecords(nodes, names, taxidGi, ks).Success? <==>
      BaseRecords(nodes, names, taxidGi, ks[..|ks| - 1]).Success? && BaseRecord(nodes, names, taxidGi, ks[|ks| - 1]).Success?
  {
  }

  /** Made records are keyed by `ks`, in order, each the record of its
      key. */
  lemma {:induction false} BaseRecordsValues(nodes: Dict<string, NodeRecord>, names: Dict<string, string>,
                                             taxidGi: Dict<string, seq<string>>, ks: seq<string>)
    requires forall k :: k in ks ==> k in nodes.entries
    requires Distinct(ks)
    requires BaseRecords(nodes, names, taxidGi, ks).Success?
    ensures BaseRecords(nodes, names, taxidGi, ks).value.keys == ks
    ensures forall k :: k in ks ==>
      Success(BaseRecords(nodes, names, taxidGi, ks).value.entries[k]) == BaseRecord(nodes, names, taxidGi, k)
    decreases |ks|
  {
    if ks != [] {
      var init := ks[..|ks| - 1];
      DistinctInit(ks);
      BaseRecordsValues(nodes, names, taxidGi, init);
      BaseRecordsStep(nodes, names, taxidGi, ks);
    }
  }

  /** Dropping the last item of a duplicate-free list. */
  lemma DistinctInit<T>(s: seq<T>)
    requires s != [] && Distinct(s)
    ensures Distinct(s[..|s| - 1]) && s[|s| - 1] !in s[..|s| - 1]
  {
    assert forall i :: 0 <= i < |s| - 1 ==> s[..|s| - 1][i] == s[i];
  }

  /** One more record on top of the records of all but the last key. */
  lemma BaseRecordsStep(nodes: Dict<string, NodeRecord>, names: Dict<string, string>,
                        taxidGi: Dict<string, seq<string>>, ks: seq<string>)
    requires ks != [] && forall k :: k in ks ==> k in nodes.entries
    requires ks[|ks| - 1] !in ks[..|ks| - 1]
    requires BaseRecords(nodes, names, taxidGi, ks).Success?
    requires var init := ks[..|ks| - 1];
      BaseRecords(nodes, names, taxidGi, init).Success? &&
      BaseRecords(nodes, names, taxidGi, init).value.keys == init &&
      forall k :: k in init ==>
        Success(BaseRecords(nodes, names, taxidGi, init).value.entries[k]) == BaseRecord(nodes, names, taxidGi, k)
    ensures BaseRecords(nodes, names, taxidGi, ks).value.keys == ks
    ensures forall k :: k in ks ==>
      Success(BaseRecords(nodes, names, taxidGi, ks).value.entries[k]) == BaseRecord(nodes, names, taxidGi, k)
  {
    var n := |ks| - 1;
    var init := ks[..n];
    BaseRecordsSnoc(nodes, names, taxidGi, ks);
    var d := BaseRecords(nodes, names, taxidGi, init).value;
    var f := map k | k in ks :: BaseRecord(nodes, names, taxidGi, k);
    assert init + [ks[n]] == ks;
    PutAgrees(d, init, ks[n], BaseRecord(nodes, names, taxidGi, ks[n]).value, f);
  }

  /** Adding a fresh key to a dict whose every value is given by `f`. */
  lemma PutAgrees<V>(d: Dict<string, V>, init: seq<string>, k: string, v: V, f: map<string, Result<V>>)
    requires d.keys == init && d.Valid() && k !in init
    requires forall j :: j in init ==> j in f && Success(d.entries[j]) == f[j]
    requires k in f && f[k] == Success(v)
    ensures d.Put(k, v).keys == init + [k]
    ensures forall j :: j in init + [k] ==> Success(d.Put(k, v).entries[j]) == f[j]
  {
  }

  lemma BaseRecordsSnoc(nodes: Dict<string, NodeRecord>, names: Dict<string, string>,
                        taxidGi: Dict<string, seq<string>>, ks: seq<string>)
    requires ks != [] && forall k :: k in ks ==> k in nodes.entries
    requires BaseRecords(nodes, names, taxidGi, ks).Success?
    ensures var init := ks[..|ks| - 1];
      BaseRecords(nodes, names, taxidGi, init).Success? &&
      BaseRecord(nodes, names, taxidGi, ks[|ks| - 1]).Success? &&
      BaseRecords(nodes, names, taxidGi, ks).value ==
        BaseRecords(nodes, names, taxidGi, init).value.Put(ks[|ks| - 1], BaseRecord(nodes, names, taxidGi, ks[|ks| - 1]).value)
  {
  }

  /** A subset with as many elements is the whole set. */
  lemma SameSize<T>(a: set<T>, b: set<T>)
    requires a <= b && |a| == |b|
    ensures a == b
  {
    assert a * b == a && a + b == b;
    assert |b - a| == 0;
  }

  /** `build_taxid_data` raises `ValueError` exactly when the dump sizes
      disagree. */
  lemma TaxidDataSizes(nodes: Dict<string, NodeRecord>, names: Dict<string, string>, taxidGi: Dict<string, seq<string>>)
    requires nodes.Valid()
    ensures (TaxidData(nodes, names, taxidGi).Failure? && TaxidData(nodes, names, taxidGi).error.ValueError?) <==>
      !SizesAgree(nodes, names, taxidGi)
  {
  }

  lemma KeyIndex(nodes: Dict<string, NodeRecord>, k: string) returns (i: nat)
    requires nodes.Valid() && k in nodes.entries
    ensures i < |nodes.keys| && nodes.keys[i] == k && nodes.Values()[i] == nodes.entries[k]
  {
    i :| 0 <= i < |nodes.keys| && nodes.keys[i] == k;
  }

  /** On success, `build_taxid_data` is the base records with every
      record's children linked in. */
  lemma TaxidDataLinked(nodes: Dict<string, NodeRecord>, names: Dict<string, string>, taxidGi: Dict<string, seq<string>>)
    requires nodes.Valid() && TaxidData(nodes, names, taxidGi).Success?
    ensures SizesAgree(nodes, names, taxidGi)
    ensures BaseRecords(nodes, names, taxidGi, nodes.keys).Success?
    ensures TaxidData(nodes, names, taxidGi).value == Linked(BaseRecords(nodes, names, taxidGi, nodes.keys).value, nodes.Values())
  {
    var base := BaseRecords(nodes, names, taxidGi, nodes.keys).value;
    var vals := nodes.Values();
    forall i | 0 <= i < |vals| && vals[i].taxid != "1"
      ensures vals[i].parent in base.entries
    {
      if vals[i].parent !in base.entries {
        AddChildrenOrphan(base, vals, i);
      }
    }
    AddChildrenLinked(base, vals);
  }

  /** `build_taxid_data` succeeds exactly when the sizes agree, every taxid
      has a name and a finite ancestor chain, and every taxid but "1" has a
      parent with a record. */
  lemma TaxidDataSucceeds(nodes: Dict<string, NodeRecord>, names: Dict<string, string>, taxidGi: Dict<string, seq<string>>)
    requires nodes.Valid()
    ensures TaxidData(nodes, names, taxidGi).Success? <==>
      SizesAgree(nodes, names, taxidGi) &&
      (forall k :: k in nodes.entries ==> k in names.entries && Ancestors(nodes.entries, k, |nodes.entries|).Success?) &&
      (forall k :: k in nodes.entries && nodes.entries[k].taxid != "1" ==> nodes.entries[k].parent in nodes.entries)
  {
    if TaxidData(nodes, names, taxidGi).Success? {
      TaxidDataSucceedsOnly(nodes, names, taxidGi);
    } else if SizesAgree(nodes, names, taxidGi) &&
      (forall k :: k in nodes.entries ==> k in names.entries && Ancestors(nodes.entries, k, |nodes.entries|).Success?) &&
      (forall k :: k in nodes.entries && nodes.entries[k].taxid != "1" ==> nodes.entries[k].parent in nodes.entries) {
      TaxidDataSucceedsIf(nodes, names, taxidGi);
    }
  }

  lemma TaxidDataSucceedsOnly(nodes: Dict<string, NodeRecord>, names: Dict<string, string>, taxidGi: Dict<string, seq<string>>)
    requires nodes.Valid() && TaxidData(nodes, names, taxidGi).Success?
    ensures SizesAgree(nodes, names, taxidGi)
    ensures forall k :: k in nodes.entries ==> k in names.entries && Ancestors(nodes.entries, k, |nodes.entries|).Success?
    ensures forall k :: k in nodes.entries && nodes.entries[k].taxid != "1" ==> nodes.entries[k].parent in nodes.entries
  {
    TaxidDataLinked(nodes, names, taxidGi);
    BaseRecordsSucceeds(nodes, names, taxidGi, nodes.keys);
    BaseRecordsValues(nodes, names, taxidGi, nodes.keys);
    var base := BaseRecords(nodes, names, taxidGi, nodes.keys).value;
    forall k | k in nodes.entries
      ensures k in names.entries && Ancestors(nodes.entries, k, |nodes.entries|).Success?
    {
      assert k in nodes.keys;
    }
    forall k | k in nodes.entries && nodes.entries[k].taxid != "1"
      ensures nodes.entries[k].parent in nodes.entries
    {
      var i := KeyIndex(nodes, k);
      if nodes.entries[k].parent !in nodes.entries {
        AddChildrenOrphan(base, nodes.Values(), i);
      }
    }
  }

  lemma TaxidDataSucceedsIf(nodes: Dict<string, NodeRecord>, names: Dict<string, string>, taxidGi: Dict<string, seq<string>>)
    requires nodes.Valid() && SizesAgree(nodes, names, taxidGi)
    requires forall k :: k in nodes.entries ==> k in names.entries && Ancestors(nodes.entries, k, |nodes.entries|).Success?
    requires forall k :: k in nodes.entries && nodes.entries[k].taxid != "1" ==> nodes.entries[k].parent in nodes.entries
    ensures TaxidData(nodes, names, taxidGi).Success?
  {
    BaseRecordsSucceeds(nodes, names, taxidGi, nodes.keys);
    BaseRecordsValues(nodes, names, taxidGi, nodes.keys);
    var base := BaseRecords(nodes, names, taxidGi, nodes.keys).value;
    var vals := nodes.Values();
    forall i | 0 <= i < |vals| && vals[i].taxid != "1"
      ensures vals[i].parent in base.entries
    {
      assert nodes.keys[i] in nodes.entries;
    }
    AddChildrenLinked(base, vals);
  }

  /** There is one record of `build_taxid_data` per taxid of `nodes`, in
      the same order; each holds its own taxid, its name, its gis (or none),
      its chain of ancestors, its rank, its children in `nodes` order and a
      zero count. */
  lemma TaxidDataRecords(nodes: Dict<string, NodeRecord>, names: Dict<string, string>, taxidGi: Dict<string, seq<string>>,
                         t: string)
    requires nodes.Valid() && TaxidData(nodes, names, taxidGi).Success? && t in nodes.entries
    ensures TaxidData(nodes, names, taxidGi).value.keys == nodes.keys
    ensures t in TaxidData(nodes, names, taxidGi).value.entries && t in names.entries
    ensures var rec := TaxidData(nodes, names, taxidGi).value.entries[t];
      rec.taxid == t && rec.sciName == names.entries[t] && rec.assocGis == GisOf(taxidGi, t) &&
      Chain(nodes.entries, t, rec.parents) && rec.rank == nodes.entries[t].rank &&
      rec.children == ChildrenOf(nodes.Values(), t) && rec.numGisAssoc == 0
  {
    TaxidDataEntry(nodes, names, taxidGi, t);
    BaseRecordFields(nodes, names, taxidGi, t);
  }

  /** The record of `t` is the one made for it with its children added. */
  lemma TaxidDataEntry(nodes: Dict<string, NodeRecord>, names: Dict<string, string>, taxidGi: Dict<string, seq<string>>,
                       t: string)
    requires nodes.Valid() && TaxidData(nodes, names, taxidGi).Success? && t in nodes.entries
    ensures TaxidData(nodes, names, taxidGi).value.keys == nodes.keys
    ensures BaseRecord(nodes, names, taxidGi, t).Success?
    ensures t in TaxidData(nodes, names, taxidGi).value.entries
    ensures var b := BaseRecord(nodes, names, taxidGi, t).value;
      TaxidData(nodes, names, taxidGi).value.entries[t] == b.(children := b.children + ChildrenOf(nodes.Values(), t))
  {
    TaxidDataLinked(nodes, names, taxidGi);
    BaseRecordsValues(nodes, names, taxidGi, nodes.keys);
    var base := BaseRecords(nodes, names, taxidGi, nodes.keys).value;
    assert t in nodes.keys;
    assert BaseRecord(nodes, names, taxidGi, t) == Success(base.entries[t]);
  }

  /** A record made for `t` holds its own taxid, its name, its gis, its
      chain of ancestors, its rank, no children and a zero count. */
  lemma BaseRecordFields(nodes: Dict<string, NodeRecord>, names: Dict<string, string>, taxidGi: Dict<string, seq<string>>,
                         t: string)
    requires t in nodes.entries && BaseRecord(nodes, names, taxidGi, t).Success?
    ensures t in names.entries
    ensures var rec := BaseRecord(nodes, names, taxidGi, t).value;
      rec.taxid == t && rec.sciName == names.entries[t] && rec.assocGis == GisOf(taxidGi, t) &&
      Chain(nodes.entries, t, rec.parents) && rec.rank == nodes.entries[t].rank &&
      rec.children == [] && rec.numGisAssoc == 0
  {
    AncestorsChain(nodes.entries, t, |nodes.entries|);
  }

  /** When `build_taxid_data` succeeds, names cover exactly the taxids of
      `nodes`. */
  lemma TaxidDataNames(nodes: Dict<string, NodeRecord>, names: Dict<string, string>, taxidGi: Dict<string, seq<string>>)
    requires nodes.Valid() && names.Valid() && TaxidData(nodes, names, taxidGi).Success?
    ensures names.entries.Keys == nodes.entries.Keys
  {
    TaxidDataSucceedsOnly(nodes, names, taxidGi);
    NamesCover(nodes, names);
  }

  /** Dumps of equal size whose taxids are all named have the same taxids. */
  lemma NamesCover(nodes: Dict<string, NodeRecord>, names: Dict<string, string>)
    requires nodes.Valid() && names.Valid() && |nodes.keys| == |names.keys|
    requires forall k :: k in nodes.entries ==> k in names.entries
    ensures names.entries.Keys == nodes.entries.Keys
  {
    DistinctSize(nodes.keys);
    DistinctSize(names.keys);
    assert nodes.entries.Keys == set k | k in nodes.keys;
    assert names.entries.Keys == set k | k in names.keys;
    SameSize(nodes.entries.Keys, names.entries.Keys);
  }

  /** With records keyed by their own taxid, as `parse_nodes_dmp` makes
      them, the children of `p` are exactly the taxids other than "1" whose
      record names `p` as parent. */
  lemma TaxidDataChildren(nodes: Dict<string, NodeRecord>, names: Dict<string, string>, taxidGi: Dict<string, seq<string>>,
                          p: string, c: string)
    requires nodes.Valid() && SelfKeyed(nodes) && TaxidData(nodes, names, taxidGi).Success?
    requires p in nodes.entries
    ensures p in TaxidData(nodes, names, taxidGi).value.entries
    ensures c in TaxidData(nodes, names, taxidGi).value.entries[p].children <==>
      c in nodes.entries && c != "1" && nodes.entries[c].parent == p
  {
    TaxidDataRecords(nodes, names, taxidGi, p);
    var vals := nodes.Values();
    ChildrenOfSpec(vals, p, c);
    if c in nodes.entries && c != "1" && nodes.entries[c].parent == p {
      var i := KeyIndex(nodes, c);
    }
    if c in TaxidData(nodes, names, taxidGi).value.entries[p].children {
      var i :| 0 <= i < |vals| && vals[i].taxid == c && c != "1" && vals[i].parent == p;
      assert nodes.keys[i] in nodes.entries;
    }
  }

  // ---------------------------------------------------------------------
  // write_taxid_data and parse_taxid_data (lines 66-105 and 169-200)

  /** The six fields of a record's line: taxid, name, gis, children,
      parents and rank, the three lists as JSON. */
  function RecordFields(rec: TaxRecord): seq<string> {
    [rec.taxid, rec.sciName, Json.Dumps(rec.assocGis), Json.Dumps(rec.children), Json.Dumps(rec.parents), rec.rank]
  }

  function RecordLine(rec: TaxRecord): string {
    Join("\t", RecordFields(rec))
  }

  function RecordLines(rs: seq<TaxRecord>): (ls: seq<string>)
    ensures |ls| == |rs| && forall i :: 0 <= i < |rs| ==> ls[i] == RecordLine(rs[i])
  {
    seq(|rs|, i requires 0 <= i < |rs| => RecordLine(rs[i]))
  }

  /** The text `write_taxid_data` writes: the records' lines, in key
      order, joined by newlines (no newline after the last). */
  function TaxidText(d: Dict<string, TaxRecord>): string
    requires d.Valid()
  {
    Join("\n", RecordLines(d.Values()))
  }

  /** `write_taxid_data`, returning the text instead of writing the file. */
  method WriteTaxidData(d: Dict<string, TaxRecord>) returns (text: string)
    requires d.Valid()
    ensures text == TaxidText(d)
  {
    var output: seq<string> := [];
    var i := 0;
    while i < |d.keys|
      invariant 0 <= i <= |d.keys|
      invariant |output| == i
      invariant forall j :: 0 <= j < i ==> output[j] == RecordLine(d.entries[d.keys[j]])
    {
      var record := d.entries[d.keys[i]];
      output := output + [RecordLine(record)];
      i := i + 1;
    }
    assert output == RecordLines(d.Values());
    text := Join("\n", output);
  }

  /** `readlines()`: the text cut after every newline, each line keeping
      its newline; a last line without one is kept unless it is empty. */
  function ReadLines(text: string): (ls: seq<string>)
    ensures forall i :: 0 <= i < |ls| ==> |ls[i]| > 0
  {
    var p := Split(text, "\n");
    var n := |p| - 1;
    seq(n, i requires 0 <= i < n => p[i] + "\n") + (if p[n] == "" then [] else [p[n]])
  }

  /** Lines each ending in their only newline, written one after the
      other, read back as the same lines. */
  lemma ReadConcat(bodies: seq<string>, lines: seq<string>)
    requires |lines| == |bodies|
    requires forall i :: 0 <= i < |bodies| ==> lines[i] == bodies[i] + "\n" && '\n' !in bodies[i]
    ensures ReadLines(Concat(lines)) == lines
  {
    ConcatLines(bodies, lines);
    var p := bodies + [""];
    SplitJoin(p, '\n');
    assert Split(Concat(lines), "\n") == p;
    assert forall i :: 0 <= i < |p| - 1 ==> p[i] + "\n" == lines[i];
  }

  /** One line of a taxid_data file: unpacking `rstrip().split("\t")` needs
      exactly six fields, and the three lists must be JSON arrays. The count
      starts at zero. */
  function RecordEntry(line: string): (r: Entry<TaxRecord>)
    ensures r.Success? && r.value.Some? ==> r.value.value.0 == r.value.value.1.taxid && r.value.value.1.numGisAssoc == 0
  {
    var f := Split(RStrip(line), "\t");
    if |f| != 6 then Failure(ValueError("taxid_data line does not have 6 fields"))
    else
      var gis :- Json.Loads(f[2]);
      var children :- Json.Loads(f[3]);
      var parents :- Json.Loads(f[4]);
      Success(Some((f[0], TaxRecord(f[0], f[1], gis, children, parents, f[5], 0))))
  }

  function RecordEntries(lines: seq<string>): (es: seq<Entry<TaxRecord>>)
    ensures |es| == |lines| && forall i :: 0 <= i < |lines| ==> es[i] == RecordEntry(lines[i])
  {
    seq(|lines|, i requires 0 <= i < |lines| => RecordEntry(lines[i]))
  }

  /** `parse_taxid_data`, given the file's lines. */
  method ParseTaxidData(lines: seq<string>) returns (r: Result<Dict<string, TaxRecord>>)
    ensures r == Collect(RecordEntries(lines))
  {
    ghost var es := RecordEntries(lines);
    var results: Dict<string, TaxRecord> := EmptyDict();
    var i := 0;
    while i < |lines|
      invariant 0 <= i <= |lines|
      invariant Collect(es[..i]) == Success(results)
    {
      CollectSnoc(es, i);
      var f := Split(RStrip(lines[i]), "\t");
      if |f| != 6 {
        r := Failure(ValueError("taxid_data line does not have 6 fields"));
        CollectFailed(es, i + 1);
        return;
      }
      var gis := Json.Loads(f[2]);
      if gis.Failure? {
        r := Failure(gis.error);
        CollectFailed(es, i + 1);
        return;
      }
      var children := Json.Loads(f[3]);
      if children.Failure? {
        r := Failure(children.error);
        CollectFailed(es, i + 1);
        return;
      }
      var parents := Json.Loads(f[4]);
      if parents.Failure? {
        r := Failure(parents.error);
        CollectFailed(es, i + 1);
        return;
      }
      results := results.Put(f[0], TaxRecord(f[0], f[1], gis.value, children.value, parents.value, f[5], 0));
      i := i + 1;
    }
    assert es[..i] == es;
    r := Success(results);
  }

  /** `parse_taxid_data` fails exactly on a line without six fields or with
      a list that is not a JSON array; otherwise each taxid of the file maps
      to the record of its last line, keyed by the taxid it holds, with a
      zero count. */
  lemma ParseTaxidDataSpec(lines: seq<string>, k: string)
    ensures Collect(RecordEntries(lines)).Failure? <==> exists i :: 0 <= i < |lines| && RecordEntries(lines)[i].Failure?
    ensures Collect(RecordEntries(lines)).Success? ==>
      (k in Collect(RecordEntries(lines)).value.entries <==> exists i :: 0 <= i < |lines| && Assigns(RecordEntries(lines)[i], k))
    ensures Collect(RecordEntries(lines)).Success? && k in Collect(RecordEntries(lines)).value.entries ==>
      var rec := Collect(RecordEntries(lines)).value.entries[k];
      rec.taxid == k && rec.numGisAssoc == 0 &&
      exists i :: 0 <= i < |lines| && RecordEntries(lines)[i] == Success(Some((k, rec))) &&
        forall j :: i < j < |lines| ==> !Assigns(RecordEntries(lines)[j], k)
  {
    var es := RecordEntries(lines);
    CollectFails(es);
    if Collect(es).Success? {
      CollectLast(es, k);
      if k in Collect(es).value.entries {
        var i :| 0 <= i < |es| && Assigns(es[i], k) && Collect(es).value.entries[k] == es[i].value.value.1 &&
          forall j :: i < j < |es| ==> !Assigns(es[j], k);
        assert es[i] == Success(Some((k, Collect(es).value.entries[k])));
      }
    }
  }

  /** Fields `parse_taxid_data` reads back as written: no tab or newline. */
  predicate Field(s: string) {
    '\t' !in s && '\n' !in s
  }

  /** Records that survive the trip through a file: keyed by their own
      taxid, with taxid, name and rank free of tabs and newlines, and a rank
      that `rstrip()` leaves alone. */
  ghost predicate Writable(d: Dict<string, TaxRecord>) {
    d.Valid() &&
    forall k :: k in d.entries ==>
      var rec := d.entries[k];
      rec.taxid == k && Field(rec.taxid) && Field(rec.sciName) && Field(rec.rank) &&
      |rec.rank| > 0 && !IsSpace(rec.rank[|rec.rank| - 1])
  }

  /** The records with the count reset, as reading them back gives them. */
  function Uncounted(d: Dict<string, TaxRecord>): (r: Dict<string, TaxRecord>)
    ensures d.Valid() ==> r.Valid()
  {
    Dict(d.keys, map k | k in d.entries :: d.entries[k].(numGisAssoc := 0))
  }

  /** JSON text is free of tabs and newlines. */
  lemma DumpsField(xs: seq<string>)
    ensures Field(Json.Dumps(xs))
  {
    Json.DumpsPrintable(xs);
  }

  /** A record's line, with or without its newline, reads back as the
      record keyed by its taxid, with a zero count. */
  lemma RecordLineRead(rec: TaxRecord, suffix: string)
    requires Field(rec.taxid) && Field(rec.sciName) && Field(rec.rank)
    requires |rec.rank| > 0 && !IsSpace(rec.rank[|rec.rank| - 1])
    requires suffix == "" || suffix == "\n"
    ensures '\n' !in RecordLine(rec)
    ensures RecordEntry(RecordLine(rec) + suffix) == Success(Some((rec.taxid, rec.(numGisAssoc := 0))))
  {
    var fs := RecordFields(rec);
    var line := RecordLine(rec);
    DumpsField(rec.assocGis);
    DumpsField(rec.children);
    DumpsField(rec.parents);
    assert forall i :: 0 <= i < 6 ==> Field(fs[i]);
    JoinFree("\t", fs, '\n');
    JoinLast("\t", fs);
    assert line[|line| - 1] == rec.rank[|rec.rank| - 1];
    RStripNewline(line, suffix);
    SplitJoin(fs, '\t');
    Json.LoadsDumps(rec.assocGis);
    Json.LoadsDumps(rec.children);
    Json.LoadsDumps(rec.parents);
  }

  /** `readlines()` of lines joined by newlines: each line with its newline,
      the last one without. */
  lemma {:induction false} ReadJoined(ls: seq<string>)
    requires forall i :: 0 <= i < |ls| ==> '\n' !in ls[i] && |ls[i]| > 0
    ensures |ReadLines(Join("\n", ls))| == |ls|
    ensures forall i :: 0 <= i < |ls| ==>
      ReadLines(Join("\n", ls))[i] == ls[i] + if i < |ls| - 1 then "\n" else ""
  {
    if ls == [] {
      assert Split("", "\n") == [""];
    } else {
      SplitJoin(ls, '\n');
      var n := |ls| - 1;
      assert ls[n] != "";
      forall i | 0 <= i < |ls|
        ensures ReadLines(Join("\n", ls))[i] == ls[i] + if i < n then "\n" else ""
      {
        if i == n {
          assert ls[n] + "" == ls[n];
        }
      }
    }
  }

  /** Entries that each assign a fresh key collect into those keys, in
      order, with their values. */
  lemma {:induction false} CollectFresh<V>(es: seq<Entry<V>>, ks: seq<string>, m: map<string, V>)
    requires |es| == |ks| && Distinct(ks)
    requires forall i :: 0 <= i < |ks| ==> ks[i] in m && es[i] == Success(Some((ks[i], m[ks[i]])))
    ensures Collect(es) == Success(Dict(ks, map k | k in ks :: m[k]))
    decreases |es|
  {
    if es != [] {
      var n := |es| - 1;
      var init := ks[..n];
      assert Distinct(init) && ks[n] !in init by {
        assert forall i :: 0 <= i < n ==> init[i] == ks[i];
      }
      CollectFresh(es[..n], init, m);
      CollectSnoc(es, n);
      assert es[..n + 1] == es;
      assert init + [ks[n]] == ks;
      PutFresh(init, ks[n], m);
    }
  }

  /** Adding a new key to a dict drawn from `m`. */
  lemma PutFresh<V>(ks: seq<string>, k: string, m: map<string, V>)
    requires k !in ks && k in m && forall j :: j in ks ==> j in m
    ensures Dict(ks, map j | j in ks :: m[j]).Put(k, m[k]) == Dict(ks + [k], map j | j in ks + [k] :: m[j])
  {
    assert (map j | j in ks :: m[j])[k := m[k]] == map j | j in ks + [k] :: m[j];
  }

  /** Each line of a written file reads back as its record. */
  lemma WrittenEntries(d: Dict<string, TaxRecord>)
    requires Writable(d)
    ensures var es := RecordEntries(ReadLines(TaxidText(d)));
      |es| == |d.keys| &&
      forall i :: 0 <= i < |d.keys| ==> (d.keys[i] in Uncounted(d).entries &&
        es[i] == Success(Some((d.keys[i], Uncounted(d).entries[d.keys[i]]))))
  {
    var vals := d.Values();
    var ls := RecordLines(vals);
    forall i | 0 <= i < |ls|
      ensures '\n' !in ls[i] && |ls[i]| > 0
      ensures RecordEntry(ls[i] + if i < |ls| - 1 then "\n" else "") ==
        Success(Some((d.keys[i], Uncounted(d).entries[d.keys[i]])))
    {
      assert d.keys[i] in d.entries;
      RecordLineRead(vals[i], if i < |ls| - 1 then "\n" else "");
      JoinLast("\t", RecordFields(vals[i]));
    }
    ReadJoined(ls);
  }

  /** Entries that assign a dict's keys in order, with its values, collect
      into that dict. */
  lemma CollectAll<V>(es: seq<Entry<V>>, d: Dict<string, V>)
    requires d.Valid() && |es| == |d.keys|
    requires forall i :: 0 <= i < |d.keys| ==> (d.keys[i] in d.entries &&
      es[i] == Success(Some((d.keys[i], d.entries[d.keys[i]]))))
    ensures Collect(es) == Success(d)
  {
    CollectFresh(es, d.keys, d.entries);
    assert (map k | k in d.keys :: d.entries[k]) == d.entries;
  }

  /** Writing records and reading the file back gives the same records, in
      the same order, with the count reset to zero. */
  lemma ParseWritten(d: Dict<string, TaxRecord>)
    requires Writable(d)
    ensures Collect(RecordEntries(ReadLines(TaxidText(d)))) == Success(Uncounted(d))
  {
    WrittenEntries(d);
    CollectAll(RecordEntries(ReadLines(TaxidText(d))), Uncounted(d));
  }

  // ---------------------------------------------------------------------
  // build_branch and build_gis_to_taxids (lines 261-316)

  /** The tree the records describe: each taxid's children. */
  function Kids(d: Dict<string, TaxRecord>): (kids: TaxTree.Kids)
    ensures kids.Keys == d.entries.Keys
  {
    map t | t in d.entries :: d.entries[t].children
  }

  /** `build_branch`: the records of every taxid reachable from a root
      through children, each copied unchanged. A reachable taxid without a
      record raises `KeyError`; a reachable cycle, on which the source loops
      forever, is reported as `Diverges`. */
  method BuildBranch(taxidData: Dict<string, TaxRecord>, inclusionRoots: seq<string>)
    returns (r: Result<Dict<string, TaxRecord>>)
    ensures r.Success? ==> (r.value.Valid() &&
      forall y :: (y in r.value.entries <==> TaxTree.Reachable(Kids(taxidData), TaxTree.Roots(inclusionRoots), y)))
    ensures r.Success? ==> forall y :: y in r.value.entries ==> y in taxidData.entries && r.value.entries[y] == taxidData.entries[y]
    ensures r.Failure? ==> (r.error == Diverges ||
      (r.error.KeyError? && r.error.key !in taxidData.entries &&
       TaxTree.Reachable(Kids(taxidData), TaxTree.Roots(inclusionRoots), r.error.key)))
    ensures r.Success? <==> TaxTree.Branch(Kids(taxidData), TaxTree.Roots(inclusionRoots)).Reached?
    ensures r == Failure(Diverges) <==> TaxTree.Branch(Kids(taxidData), TaxTree.Roots(inclusionRoots)).Endless?
  {
    var kids := Kids(taxidData);
    var roots := TaxTree.Roots(inclusionRoots);
    r := TaxTree.CollectBranch(taxidData.entries, kids, inclusionRoots);
    var b := TaxTree.Branch(kids, roots);
    if b.Reached? {
      forall y
        ensures y in r.value.entries <==> TaxTree.Reachable(kids, roots, y)
      {
        TaxTree.BranchReached(kids, roots, y);
      }
    } else if b.Missing? {
      TaxTree.BranchMissing(kids, roots, r.error.key);
    }
  }

  /** Each record's gis. */
  function AssocGis(tree: Dict<string, TaxRecord>): (gis: map<string, seq<string>>)
    ensures gis.Keys == tree.entries.Keys
  {
    map t | t in tree.entries :: tree.entries[t].assocGis
  }

  /** `build_gis_to_taxids`: every gi of a record, mapped to the last taxid
      (in dict order) whose record lists it. */
  method BuildGisToTaxids(tree: Dict<string, TaxRecord>) returns (r: map<string, string>)
    requires tree.Valid()
    ensures forall g :: g in r <==> exists i :: 0 <= i < |tree.keys| && g in tree.entries[tree.keys[i]].assocGis
    ensures forall g :: g in r ==> exists i :: (0 <= i < |tree.keys| && tree.keys[i] == r[g] &&
      g in tree.entries[r[g]].assocGis && forall j :: i < j < |tree.keys| ==> g !in tree.entries[tree.keys[j]].assocGis)
  {
    r := TaxTree.GisIndex(tree.keys, AssocGis(tree));
  }
}
