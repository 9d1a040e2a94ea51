/** The older taxonomy tool (yax/taxa_identification/TaxIDBranchwtaxidsig.py):
    `preprocessing` builds one list-shaped entry per taxid from the three
    NCBI dumps and writes it as a line, `get_input_taxid_data` reads those
    lines back, `build_branch` collects the subtree below a set of roots and
    `build_gis_to_taxids` indexes gis by taxid. Files are given as their
    lines. */
module TaxidSig {
  import opened Base
  import opened Strings
  import TaxTree
  import TaxidTool

  /** A taxid's entry `[sci_name, gis, children, parents, rank, count]`.
      `preprocessing` builds the first five; the count is added, as 0, when
      the entries are read back. */
  datatype SigRecord = SigRecord(
    sciName: string,
    gis: seq<string>,
    children: seq<string>,
    parents: seq<string>,
    rank: string,
    count: int)

  // ---------------------------------------------------------------------
  // Keeping the first entry of each key.

  /** A line's key and the entry it would add. */
  type Keyed<V> = (string, Result<V>)

  /** Adding the entries to an empty dict in order, skipping a key already
      present; the entry of a new key is only evaluated then, so its error
      ends the fold and a repeated key's error does not. */
  function FirstWins<V>(es: seq<Keyed<V>>): (r: Result<Dict<string, V>>)
    ensures r.Success? ==> r.value.Valid()
    decreases |es|
  {
    if es == [] then Success(EmptyDict())
    else
      var d :- FirstWins(es[..|es| - 1]);
      var e := es[|es| - 1];
      if e.0 in d.entries then Success(d)
      else
        var v :- e.1;
        Success(d.Put(e.0, v))
  }

  /** Entry `i` is the first with its key. */
  predicate FirstOf<V>(es: seq<Keyed<V>>, i: nat)
    requires i < |es|
  {
    forall j :: 0 <= j < i ==> es[j].0 != es[i].0
  }

  lemma FirstWinsSnoc<V>(es: seq<Keyed<V>>, i: nat)
    requires i < |es|
    ensures FirstWins(es[..i + 1]) == (
      match FirstWins(es[..i])
      case Failure(err) => Failure(err)
      case Success(d) =>
        if es[i].0 in d.entries then Success(d)
        else match es[i].1
          case Failure(err) => Failure(err)
          case Success(v) => Success(d.Put(es[i].0, v)))
  {
    assert es[..i + 1][..i] == es[..i];
  }

  /** A failed prefix fails the whole. */
  lemma {:induction false} FirstWinsFailed<V>(es: seq<Keyed<V>>, i: nat)
    requires i <= |es| && FirstWins(es[..i]).Failure?
    ensures FirstWins(es) == FirstWins(es[..i])
    decreases |es| - i
  {
    if i < |es| {
      FirstWinsSnoc(es, i);
      FirstWinsFailed(es, i + 1);
    } else {
      assert es[..i] == es;
    }
  }

  /** The fold fails exactly when the first entry of some key is an
      error. */
  lemma FirstWinsFails<V>(es: seq<Keyed<V>>)
    ensures FirstWins(es).Failure? <==> exists i :: 0 <= i < |es| && FirstOf(es, i) && es[i].1.Failure?
  {
    if FirstWins(es).Failure? {
      FirstWinsFailure(es);
    } else if exists i :: 0 <= i < |es| && FirstOf(es, i) && es[i].1.Failure? {
      var i :| 0 <= i < |es| && FirstOf(es, i) && es[i].1.Failure?;
      FirstWinsBadEntry(es, i);
    }
  }

  lemma {:induction false} FirstWinsFailure<V>(es: seq<Keyed<V>>)
    requires FirstWins(es).Failure?
    ensures exists i :: 0 <= i < |es| && FirstOf(es, i) && es[i].1.Failure?
    decreases |es|
  {
    var n := |es| - 1;
    var init := es[..n];
    if FirstWins(init).Failure? {
      FirstWinsFailure(init);
      var i :| 0 <= i < n && FirstOf(init, i) && init[i].1.Failure?;
      FirstOfPrefix(es, n, i);
      assert es[i] == init[i];
    } else {
      FirstWinsKeys(init, es[n].0);
      forall j | 0 <= j < n
        ensures es[j].0 != es[n].0
      {
        assert init[j] == es[j];
      }
      assert FirstOf(es, n);
    }
  }

  lemma {:induction false} FirstWinsBadEntry<V>(es: seq<Keyed<V>>, i: nat)
    requires i < |es| && FirstOf(es, i) && es[i].1.Failure?
    ensures FirstWins(es).Failure?
    decreases |es|
  {
    var n := |es| - 1;
    var init := es[..n];
    if i < n {
      FirstOfPrefix(es, n, i);
      assert init[i] == es[i];
      FirstWinsBadEntry(init, i);
    } else if FirstWins(init).Success? {
      FirstWinsKeys(init, es[n].0);
    }
  }

  lemma FirstOfPrefix<V>(es: seq<Keyed<V>>, n: nat, i: nat)
    requires i < n <= |es|
    ensures FirstOf(es[..n], i) == FirstOf(es, i)
  {
    assert forall j :: 0 <= j <= i ==> es[..n][j] == es[j];
  }

  /** A successful fold holds exactly the keys of the entries, each with
      the entry of its first occurrence. */
  lemma {:induction false} FirstWinsKeys<V>(es: seq<Keyed<V>>, k: string)
    requires FirstWins(es).Success?
    ensures k in FirstWins(es).value.entries <==> exists i :: 0 <= i < |es| && es[i].0 == k
    ensures k in FirstWins(es).value.entries ==>
      exists i :: (0 <= i < |es| && es[i].0 == k && FirstOf(es, i) && es[i].1 == Success(FirstWins(es).value.entries[k]))
    decreases |es|
  {
    if es != [] {
      var n := |es| - 1;
      var init := es[..n];
      assert forall i :: 0 <= i < n ==> init[i] == es[i];
      FirstWinsKeys(init, k);
      var d := FirstWins(init).value;
      if k in d.entries {
        var i :| 0 <= i < n && init[i].0 == k && FirstOf(init, i) && init[i].1 == Success(d.entries[k]);
        assert FirstOf(es, i);
      } else if es[n].0 == k {
        assert FirstOf(es, n);
      }
    }
  }

  // ---------------------------------------------------------------------
  // preprocessing, nodes.dmp (lines 20-35)

  /** `line.replace("\t", "").split("|")`. */
  function BarFields(line: string): (f: seq<string>)
    ensures |f| >= 1
  {
    Split(Without(line, '\t'), "|")
  }

  /** `s.lstrip(" ").rstrip(" ")`. */
  function StripSpaces(s: string): string {
    RStripSet(LStripSet(s, {' '}), {' '})
  }

  /** The taxid of a dump line: its first field without spaces. */
  function LineTaxid(line: string): (t: string)
    ensures ' ' !in t
  {
    Without(BarFields(line)[0], ' ')
  }

  /** The entry a nodes.dmp line adds for a new taxid: the placeholder name,
      no gis, no children, its parent (none when it is its own parent) and
      its rank. A line with fewer than three fields raises `IndexError`. */
  function NodeEntry(line: string): (r: Result<SigRecord>)
    ensures r.Success? ==> (r.value.sciName == "sci_name" && r.value.gis == [] && r.value.children == [] &&
      |r.value.parents| <= 1 && r.value.count == 0)
  {
    var f := BarFields(line);
    if |f| < 3 then Failure(IndexError)
    else
      var p := Without(f[1], ' ');
      Success(SigRecord("sci_name", [], [], if p == LineTaxid(line) then [] else [p], StripSpaces(f[2]), 0))
  }

  function NodeEntries(lines: seq<string>): (es: seq<Keyed<SigRecord>>)
    ensures |es| == |lines| && forall i :: 0 <= i < |lines| ==> es[i] == (LineTaxid(lines[i]), NodeEntry(lines[i]))
  {
    seq(|lines|, i requires 0 <= i < |lines| => (LineTaxid(lines[i]), NodeEntry(lines[i])))
  }

  /** Lines 20-35: the entries of nodes.dmp, the first line of a taxid
      winning. */
  method ReadNodes(lines: seq<string>) returns (r: Result<Dict<string, SigRecord>>)
    ensures r == FirstWins(NodeEntries(lines))
  {
    ghost var es := NodeEntries(lines);
    var taxidData: Dict<string, SigRecord> := EmptyDict();
    var i := 0;
    while i < |lines|
      invariant 0 <= i <= |lines|
      invariant FirstWins(es[..i]) == Success(taxidData)
    {
      FirstWinsSnoc(es, i);
      var thisLine := BarFields(lines[i]);
      var taxid := Without(thisLine[0], ' ');
      if taxid !in taxidData.entries {
        if |thisLine| < 3 {
          r := Failure(IndexError);
          FirstWinsFailed(es, i + 1);
          return;
        }
        var parentTaxid := [Without(thisLine[1], ' ')];
        if parentTaxid[0] == taxid {
          parentTaxid := [];
        }
        var rank := StripSpaces(thisLine[2]);
        taxidData := taxidData.Put(taxid, SigRecord("sci_name", [], [], parentTaxid, rank, 0));
      }
      i := i + 1;
    }
    assert es[..i] == es;
    r := Success(taxidData);
  }

  /** Reading nodes.dmp fails exactly on the first line of a taxid having
      fewer than three fields; otherwise every taxid of the file has the
      entry of its first line, and a taxid that is its own parent has no
      parent. */
  lemma ReadNodesSpec(lines: seq<string>, t: string)
    ensures FirstWins(NodeEntries(lines)).Failure? <==>
      exists i :: 0 <= i < |lines| && FirstOf(NodeEntries(lines), i) && |BarFields(lines[i])| < 3
    ensures FirstWins(NodeEntries(lines)).Success? ==>
      (t in FirstWins(NodeEntries(lines)).value.entries <==> exists i :: 0 <= i < |lines| && LineTaxid(lines[i]) == t)
    ensures FirstWins(NodeEntries(lines)).Success? && t in FirstWins(NodeEntries(lines)).value.entries ==>
      var rec := FirstWins(NodeEntries(lines)).value.entries[t];
      exists i :: (0 <= i < |lines| && LineTaxid(lines[i]) == t && FirstOf(NodeEntries(lines), i) &&
        NodeEntry(lines[i]) == Success(rec) &&
        (rec.parents == [] <==> Without(BarFields(lines[i])[1], ' ') == t))
  {
    var es := NodeEntries(lines);
    FirstWinsFails(es);
    if FirstWins(es).Success? {
      FirstWinsKeys(es, t);
    }
    if FirstWins(es).Failure? {
      var i :| 0 <= i < |es| && FirstOf(es, i) && es[i].1.Failure?;
      assert |BarFields(lines[i])| < 3;
    }
    if exists i :: 0 <= i < |lines| && FirstOf(es, i) && |BarFields(lines[i])| < 3 {
      var i :| 0 <= i < |lines| && FirstOf(es, i) && |BarFields(lines[i])| < 3;
      assert es[i].1.Failure?;
    }
  }

  // ---------------------------------------------------------------------
  // preprocessing, names.dmp (lines 41-49)

  /** What a names.dmp line sets: a scientific name for its taxid, when it
      has more than three fields and the fourth, stripped of spaces, says
      so. */
  function NameUpdate(line: string): Option<(string, string)> {
    var f := BarFields(line);
    if |f| > 3 && StripSpaces(f[3]) == "scientific name" then Some((LineTaxid(line), StripSpaces(f[1])))
    else None
  }

  function NameUpdates(lines: seq<string>): (us: seq<Option<(string, string)>>)
    ensures |us| == |lines| && forall i :: 0 <= i < |lines| ==> us[i] == NameUpdate(lines[i])
  {
    seq(|lines|, i requires 0 <= i < |lines| => NameUpdate(lines[i]))
  }

  /** Setting each named taxid's name in order, ignoring unknown taxids. */
  function NamesFold(d: Dict<string, SigRecord>, us: seq<Option<(string, string)>>): (r: Dict<string, SigRecord>)
    decreases |us|
  {
    if us == [] then d
    else NameSet(NamesFold(d, us[..|us| - 1]), us[|us| - 1])
  }

  /** One names.dmp line's update: set the name of a known taxid. */
  function NameSet(d: Dict<string, SigRecord>, u: Option<(string, string)>): Dict<string, SigRecord> {
    match u
    case Some((t, n)) => if t in d.entries then d.Put(t, d.entries[t].(sciName := n)) else d
    case None => d
  }

  lemma NamesFoldSnoc(d: Dict<string, SigRecord>, us: seq<Option<(string, string)>>, i: nat)
    requires i < |us|
    ensures NamesFold(d, us[..i + 1]) == NameSet(NamesFold(d, us[..i]), us[i])
  {
    assert us[..i + 1][..i] == us[..i];
  }

  /** Lines 44-49: the names pass over the entries. */
  method ApplyNames(taxidData: Dict<string, SigRecord>, lines: seq<string>) returns (r: Dict<string, SigRecord>)
    ensures r == NamesFold(taxidData, NameUpdates(lines))
  {
    ghost var us := NameUpdates(lines);
    r := taxidData;
    var i := 0;
    while i < |lines|
      invariant 0 <= i <= |lines|
      invariant r == NamesFold(taxidData, us[..i])
    {
      NamesFoldSnoc(taxidData, us, i);
      ghost var before := r;
      var thisLine := BarFields(lines[i]);
      var taxid := Without(thisLine[0], ' ');
      if taxid in r.entries && |thisLine| > 3 && StripSpaces(thisLine[3]) == "scientific name" {
        r := r.Put(taxid, r.entries[taxid].(sciName := StripSpaces(thisLine[1])));
      }
      assert r == NameSet(before, NameUpdate(lines[i]));
      i := i + 1;
    }
    assert us[..i] == us;
  }

  /** The name the last update naming `t` gives it. */
  function LastName(us: seq<Option<(string, string)>>, t: string): Option<string>
    decreases |us|
  {
    if us == [] then None
    else
      var u := us[|us| - 1];
      if u.Some? && u.value.0 == t then Some(u.value.1) else LastName(us[..|us| - 1], t)
  }

  /** `LastName` is the name of the last line naming `t`. */
  lemma {:induction false} LastNameSpec(us: seq<Option<(string, string)>>, t: string)
    ensures LastName(us, t).None? <==> forall i :: 0 <= i < |us| ==> us[i].None? || us[i].value.0 != t
    ensures LastName(us, t).Some? ==> exists i :: (0 <= i < |us| && us[i] == Some((t, LastName(us, t).value)) &&
      forall j :: i < j < |us| ==> us[j].None? || us[j].value.0 != t)
    decreases |us|
  {
    if us != [] {
      var n := |us| - 1;
      var init := us[..n];
      LastNameSpec(init, t);
      assert forall i :: 0 <= i < n ==> init[i] == us[i];
    }
  }

  /** The names pass keeps the taxids and their order, and changes only
      names: each taxid some line names gets the name of the last such
      line. */
  lemma {:induction false} NamesFoldSpec(d: Dict<string, SigRecord>, us: seq<Option<(string, string)>>)
    ensures NamesFold(d, us) == Dict(d.keys, map t | t in d.entries ::
      if LastName(us, t).Some? then d.entries[t].(sciName := LastName(us, t).value) else d.entries[t])
    decreases |us|
  {
    if us != [] {
      var n := |us| - 1;
      NamesFoldSpec(d, us[..n]);
    }
  }

  // ---------------------------------------------------------------------
  // preprocessing, gi_taxid_nucl.dmp (lines 51-62)

  /** A gi_taxid_nucl.dmp line's gi and taxid: it needs a tab, else
      `IndexError`; the taxid loses spaces and trailing whitespace. */
  function GiPair(line: string): Result<(string, string)> {
    var f := Split(line, "\t");
    if |f| < 2 then Failure(IndexError) else Success((f[0], RStrip(Without(f[1], ' '))))
  }

  function GiPairs(lines: seq<string>): (ps: seq<Result<(string, string)>>)
    ensures |ps| == |lines| && forall i :: 0 <= i < |lines| ==> ps[i] == GiPair(lines[i])
  {
    seq(|lines|, i requires 0 <= i < |lines| => GiPair(lines[i]))
  }

  /** Appending each gi to its taxid's gis, ignoring unknown taxids; the
      first erroneous line ends it. */
  function GisFold(d: Dict<string, SigRecord>, ps: seq<Result<(string, string)>>): (r: Result<Dict<string, SigRecord>>)
    decreases |ps|
  {
    if ps == [] then Success(d)
    else
      var d' :- GisFold(d, ps[..|ps| - 1]);
      var pair :- ps[|ps| - 1];
      var (gi, t) := pair;
      if t in d'.entries then Success(d'.Put(t, d'.entries[t].(gis := d'.entries[t].gis + [gi]))) else Success(d')
  }

  /** Lines 54-62: the gi pass over the entries. */
  method ApplyGis(taxidData: Dict<string, SigRecord>, lines: seq<string>) returns (r: Result<Dict<string, SigRecord>>)
    ensures r == GisFold(taxidData, GiPairs(lines))
  {
    ghost var ps := GiPairs(lines);
    var d := taxidData;
    var i := 0;
    while i < |lines|
      invariant 0 <= i <= |lines|
      invariant GisFold(taxidData, ps[..i]) == Success(d)
    {
      assert ps[..i + 1][..i] == ps[..i];
      var thisLine := Split(lines[i], "\t");
      if |thisLine| < 2 {
        r := Failure(IndexError);
        GisFoldFailed(taxidData, ps, i + 1);
        return;
      }
      var gi := thisLine[0];
      var taxid := RStrip(Without(thisLine[1], ' '));
      if taxid in d.entries {
        d := d.Put(taxid, d.entries[taxid].(gis := d.entries[taxid].gis + [gi]));
      }
      i := i + 1;
    }
    assert ps[..i] == ps;
    r := Success(d);
  }

  lemma {:induction false} GisFoldFailed(d: Dict<string, SigRecord>, ps: seq<Result<(string, string)>>, i: nat)
    requires i <= |ps| && GisFold(d, ps[..i]).Failure?
    ensures GisFold(d, ps) == GisFold(d, ps[..i])
    decreases |ps| - i
  {
    if i < |ps| {
      assert ps[..i + 1][..i] == ps[..i];
      GisFoldFailed(d, ps, i + 1);
    } else {
      assert ps[..i] == ps;
    }
  }

  /** The gis of the lines naming `t`, in order. */
  function GisTo(ps: seq<Result<(string, string)>>, t: string): seq<string>
    decreases |ps|
  {
    if ps == [] then []
    else
      var p := ps[|ps| - 1];
      GisTo(ps[..|ps| - 1], t) + if p.Success? && p.value.1 == t then [p.value.0] else []
  }

  lemma {:induction false} GisToSpec(ps: seq<Result<(string, string)>>, t: string, g: string)
    ensures g in GisTo(ps, t) <==> exists i :: 0 <= i < |ps| && ps[i] == Success((g, t))
    decreases |ps|
  {
    if ps != [] {
      var n := |ps| - 1;
      GisToSpec(ps[..n], t, g);
      assert forall i :: 0 <= i < n ==> ps[..n][i] == ps[i];
    }
  }

  /** The gi pass fails exactly on a line without a tab. */
  lemma {:induction false} GisFoldFails(d: Dict<string, SigRecord>, ps: seq<Result<(string, string)>>)
    ensures GisFold(d, ps).Failure? <==> exists i :: 0 <= i < |ps| && ps[i].Failure?
    decreases |ps|
  {
    if ps != [] {
      var n := |ps| - 1;
      GisFoldFails(d, ps[..n]);
      assert forall i :: 0 <= i < n ==> ps[..n][i] == ps[i];
    }
  }

  /** `d` with the gis of the lines naming each taxid appended to its own. */
  function WithGis(d: Dict<string, SigRecord>, ps: seq<Result<(string, string)>>): (r: Dict<string, SigRecord>)
    ensures r.keys == d.keys && r.entries.Keys == d.entries.Keys
    ensures forall t :: t in d.entries ==> r.entries[t] == d.entries[t].(gis := d.entries[t].gis + GisTo(ps, t))
  {
    Dict(d.keys, map t | t in d.entries :: d.entries[t].(gis := d.entries[t].gis + GisTo(ps, t)))
  }

  /** A successful gi pass keeps the taxids and their order and appends to
      each taxid's gis those of the lines naming it, in order. */
  lemma {:induction false} GisFoldValue(d: Dict<string, SigRecord>, ps: seq<Result<(string, string)>>)
    requires GisFold(d, ps).Success?
    ensures GisFold(d, ps).value == WithGis(d, ps)
    decreases |ps|
  {
    if ps == [] {
      var m := WithGis(d, ps).entries;
      forall t | t in d.entries
        ensures m[t] == d.entries[t]
      {
        assert d.entries[t].gis + [] == d.entries[t].gis;
      }
      assert m == d.entries;
    } else {
      var n := |ps| - 1;
      var init := ps[..n];
      GisFoldStep(d, ps);
      GisFoldValue(d, init);
      WithGisStep(d, ps);
    }
  }

  /** One more gi line appends its gi to its taxid's record. */
  lemma WithGisStep(d: Dict<string, SigRecord>, ps: seq<Result<(string, string)>>)
    requires |ps| > 0 && ps[|ps| - 1].Success?
    ensures var m := WithGis(d, ps[..|ps| - 1]).entries;
      var (gi, u) := ps[|ps| - 1].value;
      WithGis(d, ps).entries == if u in m then m[u := m[u].(gis := m[u].gis + [gi])] else m
  {
    var init := ps[..|ps| - 1];
    var (gi, u) := ps[|ps| - 1].value;
    var m := WithGis(d, init).entries;
    var m' := WithGis(d, ps).entries;
    forall t | t in m
      ensures m'[t] == if t == u then m[t].(gis := m[t].gis + [gi]) else m[t]
    {
      assert GisTo(ps, t) == GisTo(init, t) + if t == u then [gi] else [];
    }
    var v := if u in m then m[u].(gis := m[u].gis + [gi]) else SigRecord("", [], [], [], "", 0);
    Updated(m, m', u, v);
  }

  /** One step of a successful gi pass. */
  lemma GisFoldStep(d: Dict<string, SigRecord>, ps: seq<Result<(string, string)>>)
    requires |ps| > 0 && GisFold(d, ps).Success?
    ensures GisFold(d, ps[..|ps| - 1]).Success? && ps[|ps| - 1].Success?
    ensures var p := GisFold(d, ps[..|ps| - 1]).value;
      var (gi, u) := ps[|ps| - 1].value;
      GisFold(d, ps).value == if u in p.entries then Dict(p.keys, p.entries[u := p.entries[u].(gis := p.entries[u].gis + [gi])]) else p
  {
  }

  /** A map that differs from `m` at most at `u` is `m` updated there. */
  lemma Updated<K, V>(m: map<K, V>, m': map<K, V>, u: K, v: V)
    requires m'.Keys == m.Keys
    requires forall t :: t in m && t != u ==> m'[t] == m[t]
    requires u in m ==> m'[u] == v
    ensures m' == if u in m then m[u := v] else m
  {
  }

  /** A gi line fails exactly when it has no tab. */
  lemma GiPairFails(line: string)
    ensures GiPair(line).Failure? <==> '\t' !in line
  {
    SplitCuts(line, '\t');
  }

  // ---------------------------------------------------------------------
  // preprocessing, ancestors and children (lines 67-74)

  /** An entry's immediate parent, the last of its parents; inserting
      ancestors at the front keeps it. */
  function Up(rec: SigRecord): string
    requires rec.parents != []
  {
    rec.parents[|rec.parents| - 1]
  }

  /** The fuel of the walk up: one step per taxid. */
  function Fuel(m: map<string, SigRecord>): nat {
    |m.Keys + {"1"}|
  }

  /** Lines 72-74 from `id`: the ancestors of `id`, root first, found by
      following immediate parents up to taxid "1". A taxid without an entry
      raises `KeyError`, one whose parents are empty `IndexError`; a walk
      that has spent `fuel` steps stands for one that never ends. */
  function SigUp(m: map<string, SigRecord>, id: string, fuel: nat): (r: Result<seq<string>>)
    ensures r.Failure? ==> r.error.KeyError? || r.error == IndexError || r.error == Diverges
    decreases fuel
  {
    if id != "1" && id !in m then Failure(KeyError(id))
    else if fuel == 0 then Failure(Diverges)
    else if id == "1" then Success([])
    else if m[id].parents == [] then Failure(IndexError)
    else
      var up :- SigUp(m, Up(m[id]), fuel - 1);
      Success(up + [Up(m[id])])
  }

  /** `c` is not "1" and its immediate parent is `p`. */
  ghost predicate UpOf(m: map<string, SigRecord>, c: string, p: string) {
    c in m && c != "1" && m[c].parents != [] && Up(m[c]) == p
  }

  /** `ps` climbs from `t` to "1", root first: each entry is the immediate
      parent of the next, the last is the immediate parent of `t`, the first
      is "1", and `t` is "1" exactly when the chain is empty. */
  ghost predicate SigChain(m: map<string, SigRecord>, t: string, ps: seq<string>) {
    (ps == [] ==> t == "1") &&
    (ps != [] ==> (ps[0] == "1" && UpOf(m, t, ps[|ps| - 1]) &&
      forall i :: 0 < i < |ps| ==> UpOf(m, ps[i], ps[i - 1])))
  }

  /** What `SigUp` finds is the chain up to "1". */
  lemma {:induction false} SigUpChain(m: map<string, SigRecord>, t: string, fuel: nat)
    requires SigUp(m, t, fuel).Success?
    ensures SigChain(m, t, SigUp(m, t, fuel).value)
    decreases fuel
  {
    if t != "1" {
      var p := Up(m[t]);
      SigUpChain(m, p, fuel - 1);
      var up := SigUp(m, p, fuel - 1).value;
      var ps := up + [p];
      assert forall i :: 0 <= i < |up| ==> ps[i] == up[i];
    }
  }

  /** And any chain up to "1" is what `SigUp` finds, given more fuel than
      its length. */
  lemma {:induction false} ChainSigUp(m: map<string, SigRecord>, t: string, ps: seq<string>, fuel: nat)
    requires SigChain(m, t, ps) && |ps| < fuel
    ensures SigUp(m, t, fuel) == Success(ps)
    decreases |ps|
  {
    if ps != [] {
      var n := |ps| - 1;
      var up := ps[..n];
      assert SigChain(m, ps[n], up) by {
        if up != [] {
          assert UpOf(m, ps[n], up[|up| - 1]);
        }
      }
      ChainSigUp(m, ps[n], up, fuel - 1);
      assert up + [ps[n]] == ps;
    }
  }

  /** The immediate-parent relation as child lists: "1" and an entry
      without parents have none. */
  function SigKids(m: map<string, SigRecord>): (kids: TaxTree.Kids)
    ensures kids.Keys == m.Keys + {"1"}
  {
    map t | t in m.Keys + {"1"} :: if t == "1" || m[t].parents == [] then [] else [Up(m[t])]
  }

  lemma SigStep(m: map<string, SigRecord>, t: string)
    requires t in m && t != "1" && m[t].parents != []
    ensures TaxTree.Step(SigKids(m), {t}) == {Up(m[t])}
  {
    assert Up(m[t]) in SigKids(m)[t];
  }

  lemma SigStepNone(m: map<string, SigRecord>, t: string)
    requires t == "1" || (t in m && m[t].parents == [])
    ensures TaxTree.Step(SigKids(m), {t}) == {}
  {
  }

  /** The walk up is a sweep over the immediate-parent relation: it runs
      out of fuel exactly when that sweep does. */
  lemma {:induction false} SigUpSweep(m: map<string, SigRecord>, t: string, fuel: nat)
    ensures SigUp(m, t, fuel) == Failure(Diverges) <==> TaxTree.Explore(SigKids(m), {t}, fuel).Endless?
    decreases fuel
  {
    var kids := SigKids(m);
    if t != "1" && t !in m {
      assert !({t} <= kids.Keys);
    } else if fuel > 0 {
      if t != "1" && m[t].parents != [] {
        SigStep(m, t);
        SigUpSweep(m, Up(m[t]), fuel - 1);
      } else {
        SigStepNone(m, t);
      }
    }
  }

  /** Fuel `Fuel(m)` decides `Diverges`: when the walk runs out of it, the
      loop of the source never ends. */
  lemma SigUpForever(m: map<string, SigRecord>, t: string, fuel: nat)
    requires SigUp(m, t, Fuel(m)) == Failure(Diverges)
    ensures SigUp(m, t, fuel) == Failure(Diverges)
  {
    var kids := SigKids(m);
    SigUpSweep(m, t, Fuel(m));
    TaxTree.BranchEndlessForever(kids, {t}, fuel);
    SigUpSweep(m, t, fuel);
  }

  /** More fuel does not change a walk that ended. */
  lemma {:induction false} SigUpMoreFuel(m: map<string, SigRecord>, t: string, fuel: nat, more: nat)
    requires SigUp(m, t, fuel) != Failure(Diverges) && fuel <= more
    ensures SigUp(m, t, more) == SigUp(m, t, fuel)
    decreases fuel
  {
    if t != "1" && t in m && fuel > 0 && m[t].parents != [] {
      SigUpMoreFuel(m, Up(m[t]), fuel - 1, more - 1);
    }
  }

  /** Two tables with the same taxids and the same immediate parents. */
  ghost predicate SameUps(m: map<string, SigRecord>, m': map<string, SigRecord>) {
    m.Keys == m'.Keys &&
    forall k :: k in m ==> (m[k].parents == []) == (m'[k].parents == []) && (m[k].parents != [] ==> Up(m[k]) == Up(m'[k]))
  }

  /** The walk up reads only the taxids and their immediate parents. */
  lemma {:induction false} SigUpSame(m: map<string, SigRecord>, m': map<string, SigRecord>, t: string, fuel: nat)
    requires SameUps(m, m')
    ensures SigUp(m, t, fuel) == SigUp(m', t, fuel)
    decreases fuel
  {
    if t != "1" && t in m && fuel > 0 && m[t].parents != [] {
      SigUpSame(m, m', Up(m[t]), fuel - 1);
    }
  }

  /** Lines 68-74 for one taxid: one with parents is appended to its
      immediate parent's children (`KeyError` when the parent has no entry)
      and gets the chain above that parent inserted before its parents. */
  function LinkStep(d: Dict<string, SigRecord>, t: string): Result<Dict<string, SigRecord>> {
    if t !in d.entries || d.entries[t].parents == [] then Success(d)
    else
      var p := Up(d.entries[t]);
      if p !in d.entries then Failure(KeyError(p))
      else
        var d1 := d.Put(p, d.entries[p].(children := d.entries[p].children + [t]));
        var up :- SigUp(d1.entries, p, Fuel(d1.entries));
        Success(d1.Put(t, d1.entries[t].(parents := up + d1.entries[t].parents)))
  }

  /** Lines 67-74 over the taxids `ks`, in order. */
  function LinkFold(d: Dict<string, SigRecord>, ks: seq<string>): (r: Result<Dict<string, SigRecord>>)
    decreases |ks|
  {
    if ks == [] then Success(d)
    else
      var d' :- LinkFold(d, ks[..|ks| - 1]);
      LinkStep(d', ks[|ks| - 1])
  }

  lemma {:induction false} LinkFoldFailed(d: Dict<string, SigRecord>, ks: seq<string>, i: nat)
    requires i <= |ks| && LinkFold(d, ks[..i]).Failure?
    ensures LinkFold(d, ks) == LinkFold(d, ks[..i])
    decreases |ks| - i
  {
    if i < |ks| {
      assert ks[..i + 1][..i] == ks[..i];
      LinkFoldFailed(d, ks, i + 1);
    } else {
      assert ks[..i] == ks;
    }
  }

  /** One step of the walk, with the parents gathered so far. */
  lemma SigUpThen(m: map<string, SigRecord>, id: string, fuel: nat, ps: seq<string>)
    requires id != "1" && id in m && fuel > 0 && m[id].parents != []
    ensures TaxidTool.Then(SigUp(m, id, fuel), ps) == TaxidTool.Then(SigUp(m, Up(m[id]), fuel - 1), [Up(m[id])] + ps)
  {
    TaxidTool.ThenThen(SigUp(m, Up(m[id]), fuel - 1), [Up(m[id])], ps);
  }

  /** The walk ends at the root, unless the fuel has run out. */
  lemma SigUpRoot(m: map<string, SigRecord>, id: string, fuel: nat, ps: seq<string>)
    requires id == "1"
    ensures TaxidTool.Then(SigUp(m, id, fuel), ps) == if fuel == 0 then Failure(Diverges) else Success(ps)
  {
    assert [] + ps == ps;
  }

  /** Where the walk stops short of the root. */
  lemma SigUpStops(m: map<string, SigRecord>, id: string, fuel: nat, ps: seq<string>)
    requires id != "1" && (id !in m || fuel == 0 || m[id].parents == [])
    ensures TaxidTool.Then(SigUp(m, id, fuel), ps) ==
      if id !in m then Failure(KeyError(id)) else if fuel == 0 then Failure(Diverges) else Failure(IndexError)
  {
  }

  /** Lines 71-74: walk up from `parent`, inserting each ancestor in front
      of `parents`, until the root; a missing entry, an entry without
      parents or a cycle stops the walk. */
  method WalkUp(m: map<string, SigRecord>, parent: string, parents: seq<string>) returns (r: Result<seq<string>>)
    ensures r == TaxidTool.Then(SigUp(m, parent, Fuel(m)), parents)
  {
    var ps := parents;
    var id := parent;
    var fuel := Fuel(m);
    while id != "1"
      invariant TaxidTool.Then(SigUp(m, parent, Fuel(m)), parents) == TaxidTool.Then(SigUp(m, id, fuel), ps)
      decreases fuel
    {
      if id !in m {
        SigUpStops(m, id, fuel, ps);
        return Failure(KeyError(id));
      }
      if fuel == 0 {
        SigUpStops(m, id, fuel, ps);
        return Failure(Diverges);
      }
      if |m[id].parents| == 0 {
        SigUpStops(m, id, fuel, ps);
        return Failure(IndexError);
      }
      var next := Up(m[id]);
      SigUpThen(m, id, fuel, ps);
      id := next;
      ps := [id] + ps;
      fuel := fuel - 1;
    }
    SigUpRoot(m, id, fuel, ps);
    if fuel == 0 {
      return Failure(Diverges);
    }
    r := Success(ps);
  }

  /** Lines 67-74: every taxid, in order, is linked to its parent. */
  method LinkFamily(taxidData: Dict<string, SigRecord>) returns (r: Result<Dict<string, SigRecord>>)
    ensures r == LinkFold(taxidData, taxidData.keys)
  {
    var keys := taxidData.keys;
    var d := taxidData;
    var i := 0;
    while i < |keys|
      invariant 0 <= i <= |keys|
      invariant LinkFold(taxidData, keys[..i]) == Success(d)
    {
      assert keys[..i + 1][..i] == keys[..i];
      var taxid := keys[i];
      if taxid in d.entries && |d.entries[taxid].parents| > 0 {
        var parent := Up(d.entries[taxid]);
        if parent !in d.entries {
          r := Failure(KeyError(parent));
          LinkFoldFailed(taxidData, keys, i + 1);
          return;
        }
        d := d.Put(parent, d.entries[parent].(children := d.entries[parent].children + [taxid]));
        var walked := WalkUp(d.entries, parent, d.entries[taxid].parents);
        if walked.Failure? {
          r := Failure(walked.error);
          LinkFoldFailed(taxidData, keys, i + 1);
          return;
        }
        d := d.Put(taxid, d.entries[taxid].(parents := walked.value));
      }
      i := i + 1;
    }
    assert keys[..i] == keys;
    r := Success(d);
  }

  /** `c` has an entry whose immediate parent is `p`. */
  predicate ParentIs(m: map<string, SigRecord>, c: string, p: string) {
    c in m && m[c].parents != [] && Up(m[c]) == p
  }

  /** The taxids among `ks` whose immediate parent is `p`, in order. */
  function KidsOf(m: map<string, SigRecord>, ks: seq<string>, p: string): seq<string>
    decreases |ks|
  {
    if ks == [] then []
    else KidsOf(m, ks[..|ks| - 1], p) + if ParentIs(m, ks[|ks| - 1], p) then [ks[|ks| - 1]] else []
  }

  lemma {:induction false} KidsOfSpec(m: map<string, SigRecord>, ks: seq<string>, p: string, c: string)
    ensures c in KidsOf(m, ks, p) <==> c in ks && ParentIs(m, c, p)
    decreases |ks|
  {
    if ks != [] {
      var n := |ks| - 1;
      KidsOfSpec(m, ks[..n], p, c);
      assert ks == ks[..n] + [ks[n]];
    }
  }

  /** The parents lines 71-74 give `t`: the chain above its immediate
      parent, then its own parents. */
  function Lineage(m: map<string, SigRecord>, t: string): seq<string>
    requires t in m
  {
    if m[t].parents == [] then []
    else match SigUp(m, Up(m[t]), Fuel(m))
      case Success(up) => up + m[t].parents
      case Failure(_) => m[t].parents
  }

  /** The entry of `t` once the taxids `ks` are linked. */
  function LinkedAt(m: map<string, SigRecord>, ks: seq<string>, t: string): SigRecord
    requires t in m
  {
    m[t].(children := m[t].children + KidsOf(m, ks, t), parents := if t in ks then Lineage(m, t) else m[t].parents)
  }

  /** The entries once the taxids `ks` are linked. */
  function Linked(d: Dict<string, SigRecord>, ks: seq<string>): (r: Dict<string, SigRecord>)
    ensures r.keys == d.keys && r.entries.Keys == d.entries.Keys
    ensures forall t :: t in d.entries ==> r.entries[t] == LinkedAt(d.entries, ks, t)
  {
    Dict(d.keys, map t | t in d.entries :: LinkedAt(d.entries, ks, t))
  }

  /** Linking `t` fails: it has parents, and its immediate parent has no
      entry or the walk up from it fails. */
  predicate Breaks(m: map<string, SigRecord>, t: string) {
    t in m && m[t].parents != [] && (Up(m[t]) !in m || SigUp(m, Up(m[t]), Fuel(m)).Failure?)
  }

  /** A lineage ends with the taxid's own parents. */
  lemma LineageEnds(m: map<string, SigRecord>, t: string)
    requires t in m && m[t].parents != []
    ensures var l := Lineage(m, t); l != [] && l[|l| - 1] == Up(m[t])
  {
    var ps := m[t].parents;
    var l := Lineage(m, t);
    assert l[|l| - 1] == ps[|ps| - 1];
  }

  /** Linking keeps the immediate parents. */
  lemma LinkedUps(d: Dict<string, SigRecord>, ks: seq<string>)
    ensures SameUps(Linked(d, ks).entries, d.entries)
  {
    var m := d.entries;
    var l := Linked(d, ks).entries;
    forall k | k in l
      ensures (l[k].parents == []) == (m[k].parents == []) && (l[k].parents != [] ==> Up(l[k]) == Up(m[k]))
    {
      if k in ks && m[k].parents != [] {
        LineageEnds(m, k);
      }
    }
  }

  lemma KidsOfSnoc(m: map<string, SigRecord>, ks: seq<string>, t: string, x: string)
    ensures KidsOf(m, ks + [t], x) == KidsOf(m, ks, x) + if ParentIs(m, t, x) then [t] else []
  {
    assert (ks + [t])[..|ks|] == ks;
  }

  /** A taxid without parents, or without an entry, changes nothing. */
  lemma LinkedSkip(d: Dict<string, SigRecord>, ks: seq<string>, t: string)
    requires t !in ks && (t !in d.entries || d.entries[t].parents == [])
    ensures Linked(d, ks + [t]) == Linked(d, ks)
  {
    var m := d.entries;
    forall x | x in m
      ensures LinkedAt(m, ks + [t], x) == LinkedAt(m, ks, x)
    {
      KidsOfSnoc(m, ks, t, x);
      assert KidsOf(m, ks, x) + [] == KidsOf(m, ks, x);
    }
    assert Linked(d, ks + [t]).entries == Linked(d, ks).entries;
  }

  /** Linking `t` appends it to its parent's children and sets its parents
      to its lineage. */
  lemma LinkedAdd(d: Dict<string, SigRecord>, ks: seq<string>, t: string, up: seq<string>)
    requires t !in ks && t in d.entries && d.entries[t].parents != [] && Up(d.entries[t]) in d.entries
    requires SigUp(d.entries, Up(d.entries[t]), Fuel(d.entries)) == Success(up)
    ensures var l := Linked(d, ks).entries;
      var p := Up(d.entries[t]);
      var l1 := l[p := l[p].(children := l[p].children + [t])];
      Linked(d, ks + [t]).entries == l1[t := l1[t].(parents := up + l1[t].parents)]
  {
    var m := d.entries;
    var p := Up(m[t]);
    var l := Linked(d, ks).entries;
    var l1 := l[p := l[p].(children := l[p].children + [t])];
    var l2 := l1[t := l1[t].(parents := up + l1[t].parents)];
    var n := Linked(d, ks + [t]).entries;
    LineageUp(m, t, up);
    assert n.Keys == l2.Keys;
    forall x | x in m
      ensures n[x] == l2[x]
    {
      LinkedAtAdd(m, ks, t, up, x);
      assert l[x] == LinkedAt(m, ks, x) && n[x] == LinkedAt(m, ks + [t], x);
      assert l1[x] == if x == p then l[p].(children := l[p].children + [t]) else l[x];
    }
    SameAt(n, l2);
  }

  /** Two maps with the same keys and the same value at each key are equal. */
  lemma SameAt<K, V>(a: map<K, V>, b: map<K, V>)
    requires a.Keys == b.Keys && forall k :: k in a ==> a[k] == b[k]
    ensures a == b
  {
  }

  lemma LineageUp(m: map<string, SigRecord>, t: string, up: seq<string>)
    requires t in m && m[t].parents != [] && SigUp(m, Up(m[t]), Fuel(m)) == Success(up)
    ensures Lineage(m, t) == up + m[t].parents
  {
  }

  lemma LinkedAtAdd(m: map<string, SigRecord>, ks: seq<string>, t: string, up: seq<string>, x: string)
    requires t !in ks && t in m && m[t].parents != [] && x in m
    requires Lineage(m, t) == up + m[t].parents
    ensures var r := LinkedAt(m, ks, x);
      var r1 := if x == Up(m[t]) then r.(children := r.children + [t]) else r;
      LinkedAt(m, ks + [t], x) == if x == t then r1.(parents := up + r1.parents) else r1
  {
    KidsOfSnoc(m, ks, t, x);
    assert (x in ks + [t]) == (x in ks || x == t);
    var kids := m[x].children + KidsOf(m, ks + [t], x);
    if x == Up(m[t]) {
      assert kids == (m[x].children + KidsOf(m, ks, x)) + [t];
    } else {
      assert kids == m[x].children + KidsOf(m, ks, x);
    }
  }

  /** One step of the fold on the closed form. */
  lemma LinkStepLinked(d: Dict<string, SigRecord>, ks: seq<string>, t: string)
    requires t !in ks
    ensures LinkStep(Linked(d, ks), t).Failure? <==> Breaks(d.entries, t)
    ensures !Breaks(d.entries, t) ==> LinkStep(Linked(d, ks), t) == Success(Linked(d, ks + [t]))
  {
    var m := d.entries;
    var l := Linked(d, ks);
    if t !in m || m[t].parents == [] {
      LinkedSkip(d, ks, t);
    } else {
      var p := Up(m[t]);
      if p in m {
        var d1 := l.Put(p, l.entries[p].(children := l.entries[p].children + [t]));
        LinkedUps(d, ks);
        assert SameUps(d1.entries, m);
        SigUpSame(d1.entries, m, p, Fuel(m));
        assert Fuel(d1.entries) == Fuel(m);
        if SigUp(m, p, Fuel(m)).Success? {
          LinkedAdd(d, ks, t, SigUp(m, p, Fuel(m)).value);
        }
      }
    }
  }

  /** A successful fold over distinct taxids gives the closed form. */
  lemma {:induction false} LinkFoldValue(d: Dict<string, SigRecord>, ks: seq<string>)
    requires Distinct(ks) && LinkFold(d, ks).Success?
    ensures LinkFold(d, ks).value == Linked(d, ks)
    decreases |ks|
  {
    if ks == [] {
      var m := d.entries;
      forall x | x in m
        ensures LinkedAt(m, ks, x) == m[x]
      {
        assert m[x].children + [] == m[x].children;
      }
      assert Linked(d, ks).entries == m;
    } else {
      var n := |ks| - 1;
      assert ks == ks[..n] + [ks[n]];
      LinkFoldValue(d, ks[..n]);
      LinkStepLinked(d, ks[..n], ks[n]);
    }
  }

  /** The fold over distinct taxids fails exactly when one of them breaks. */
  lemma {:induction false} LinkFoldFails(d: Dict<string, SigRecord>, ks: seq<string>)
    requires Distinct(ks)
    ensures LinkFold(d, ks).Failure? <==> exists i :: 0 <= i < |ks| && Breaks(d.entries, ks[i])
    decreases |ks|
  {
    if ks != [] {
      var n := |ks| - 1;
      var init := ks[..n];
      assert ks == init + [ks[n]];
      LinkFoldFails(d, init);
      assert forall i :: 0 <= i < n ==> init[i] == ks[i];
      if LinkFold(d, init).Success? {
        LinkFoldValue(d, init);
        LinkStepLinked(d, init, ks[n]);
      }
    }
  }

  /** Lines 67-74 over a table fail exactly when some taxid breaks: its
      immediate parent has no entry, or the walk up from that parent meets a
      taxid without an entry, one without parents, or never ends. */
  lemma LinkAllFails(d: Dict<string, SigRecord>)
    requires d.Valid()
    ensures LinkFold(d, d.keys).Failure? <==> exists t :: t in d.entries && Breaks(d.entries, t)
  {
    LinkFoldFails(d, d.keys);
    if exists t :: t in d.entries && Breaks(d.entries, t) {
      var t :| t in d.entries && Breaks(d.entries, t);
      var i :| 0 <= i < |d.keys| && d.keys[i] == t;
    }
  }

  /** A chain above `p` extends to a child of `p`. */
  lemma ChainExtend(m: map<string, SigRecord>, t: string, p: string, up: seq<string>)
    requires SigChain(m, p, up) && UpOf(m, t, p)
    ensures SigChain(m, t, up + [p])
  {
    var ps := up + [p];
    assert forall i :: 0 <= i < |up| ==> ps[i] == up[i];
  }

  /** After lines 67-74 succeed, the taxids and their order are kept, and
      each entry keeps its name, gis and rank; its children are its old
      children followed by the taxids whose immediate parent it is, in
      order; its parents are its lineage. */
  lemma LinkAllRecords(d: Dict<string, SigRecord>, t: string)
    requires d.Valid() && LinkFold(d, d.keys).Success? && t in d.entries
    ensures LinkFold(d, d.keys).value.keys == d.keys && LinkFold(d, d.keys).value.entries.Keys == d.entries.Keys
    ensures var m := d.entries;
      LinkFold(d, d.keys).value.entries[t] == m[t].(children := m[t].children + KidsOf(m, d.keys, t), parents := Lineage(m, t))
    ensures forall c :: c in KidsOf(d.entries, d.keys, t) <==> ParentIs(d.entries, c, t)
  {
    var m := d.entries;
    LinkFoldValue(d, d.keys);
    forall c
      ensures c in KidsOf(m, d.keys, t) <==> ParentIs(m, c, t)
    {
      KidsOfSpec(m, d.keys, t, c);
    }
  }

  /** When lines 67-74 succeed, a taxid without parents keeps none, and one
      with a single parent gets the whole chain up to "1", root first. */
  lemma LinkAllLineage(d: Dict<string, SigRecord>, t: string)
    requires d.Valid() && LinkFold(d, d.keys).Success? && t in d.entries
    ensures d.entries[t].parents == [] ==> Lineage(d.entries, t) == []
    ensures t != "1" && |d.entries[t].parents| == 1 ==> SigChain(d.entries, t, Lineage(d.entries, t))
  {
    var m := d.entries;
    if t != "1" && |m[t].parents| == 1 {
      LinkAllFails(d);
      var p := Up(m[t]);
      var up := SigUp(m, p, Fuel(m)).value;
      SigUpChain(m, p, Fuel(m));
      LineageUp(m, t, up);
      assert m[t].parents == [p];
      ChainExtend(m, t, p, up);
    }
  }

  // ---------------------------------------------------------------------
  // preprocessing, output (lines 79-86)

  /** `str()` of a list of strings that need no escaping: `['a', 'b']`. */
  function ListRepr(xs: seq<string>): string {
    "[" + Join(", ", Quoted(xs)) + "]"
  }

  function Quoted(xs: seq<string>): (qs: seq<string>)
    ensures |qs| == |xs| && forall i :: 0 <= i < |xs| ==> qs[i] == "'" + xs[i] + "'"
  {
    seq(|xs|, i requires 0 <= i < |xs| => "'" + xs[i] + "'")
  }

  /** What lines 83-85 write for an entry: its taxid, then each of its five
      items. */
  function SigFields(t: string, rec: SigRecord): seq<string> {
    [t, rec.sciName, ListRepr(rec.gis), ListRepr(rec.children), ListRepr(rec.parents), rec.rank]
  }

  /** Each field followed by a tab. */
  function Tabbed(fs: seq<string>): string
    decreases |fs|
  {
    if fs == [] then "" else Tabbed(fs[..|fs| - 1]) + fs[|fs| - 1] + "\t"
  }

  /** An entry's line. */
  function SigLine(t: string, rec: SigRecord): string {
    Tabbed(SigFields(t, rec)) + "\n"
  }

  /** The lines of the taxid_data file, in dict order. */
  function SigLines(d: Dict<string, SigRecord>): (ls: seq<string>)
    requires d.Valid()
    ensures |ls| == |d.keys| && forall i :: 0 <= i < |d.keys| ==> ls[i] == SigLine(d.keys[i], d.entries[d.keys[i]])
  {
    seq(|d.keys|, i requires 0 <= i < |d.keys| => SigLine(d.keys[i], d.entries[d.keys[i]]))
  }

  /** Lines 82-86, returning the text written instead of writing a file. */
  method WriteTaxidData(d: Dict<string, SigRecord>) returns (text: string)
    requires d.Valid()
    ensures text == Concat(SigLines(d))
  {
    ghost var ls := SigLines(d);
    text := "";
    var i := 0;
    while i < |d.keys|
      invariant 0 <= i <= |d.keys|
      invariant text == Concat(ls[..i])
    {
      var taxid := d.keys[i];
      var line := WriteEntry(taxid, d.entries[taxid]);
      text := text + line;
      ConcatSnoc(ls, i);
      i := i + 1;
    }
    assert ls[..i] == ls;
  }

  /** Lines 83-86 for one entry: the taxid and each item, each followed by
      a tab, then a newline. */
  method WriteEntry(taxid: string, rec: SigRecord) returns (line: string)
    ensures line == SigLine(taxid, rec)
  {
    var fields := SigFields(taxid, rec);
    TabbedSnoc(fields, 0);
    line := "" + (taxid + "\t");
    var j := 1;
    while j < |fields|
      invariant 1 <= j <= |fields|
      invariant line == Tabbed(fields[..j])
    {
      TabbedSnoc(fields, j);
      line := line + (fields[j] + "\t");
      j := j + 1;
    }
    assert fields[..j] == fields;
    line := line + "\n";
  }

  lemma TabbedSnoc(fs: seq<string>, j: nat)
    requires j < |fs|
    ensures Tabbed(fs[..j + 1]) == Tabbed(fs[..j]) + (fs[j] + "\t")
  {
    assert fs[..j + 1][..j] == fs[..j];
  }

  lemma ConcatSnoc(ls: seq<string>, i: nat)
    requires i < |ls|
    ensures Concat(ls[..i + 1]) == Concat(ls[..i]) + ls[i]
  {
    assert ls[..i + 1][..i] == ls[..i];
  }

  /** Lines 20-74: the entries built from nodes.dmp, names.dmp and
      gi_taxid_nucl.dmp. */
  function Preprocessed(nodesLines: seq<string>, namesLines: seq<string>, giTaxidLines: seq<string>)
    : (r: Result<Dict<string, SigRecord>>)
    ensures r.Success? ==> r.value.Valid()
  {
    var nodes :- FirstWins(NodeEntries(nodesLines));
    var named := NamesFold(nodes, NameUpdates(namesLines));
    var withGis :- GisFold(named, GiPairs(giTaxidLines));
    NamesFoldValid(nodes, NameUpdates(namesLines));
    GisFoldValid(named, GiPairs(giTaxidLines));
    LinkFoldValid(withGis, withGis.keys);
    LinkFold(withGis, withGis.keys)
  }

  lemma {:induction false} NamesFoldValid(d: Dict<string, SigRecord>, us: seq<Option<(string, string)>>)
    requires d.Valid()
    ensures NamesFold(d, us).Valid()
    decreases |us|
  {
    if us != [] {
      NamesFoldValid(d, us[..|us| - 1]);
    }
  }

  lemma {:induction false} GisFoldValid(d: Dict<string, SigRecord>, ps: seq<Result<(string, string)>>)
    requires d.Valid() && GisFold(d, ps).Success?
    ensures GisFold(d, ps).value.Valid()
    decreases |ps|
  {
    if ps != [] {
      GisFoldValid(d, ps[..|ps| - 1]);
    }
  }

  lemma {:induction false} LinkFoldValid(d: Dict<string, SigRecord>, ks: seq<string>)
    requires d.Valid()
    ensures LinkFold(d, ks).Success? ==> LinkFold(d, ks).value.Valid()
    decreases |ks|
  {
    if ks != [] {
      LinkFoldValid(d, ks[..|ks| - 1]);
    }
  }

  /** `preprocessing`, given the lines of the three dumps and returning the
      text of the taxid_data file. */
  method Preprocessing(nodesLines: seq<string>, namesLines: seq<string>, giTaxidLines: seq<string>)
    returns (r: Result<string>)
    ensures Preprocessed(nodesLines, namesLines, giTaxidLines).Failure? ==>
      r == Failure(Preprocessed(nodesLines, namesLines, giTaxidLines).error)
    ensures Preprocessed(nodesLines, namesLines, giTaxidLines).Success? ==>
      r == Success(Concat(SigLines(Preprocessed(nodesLines, namesLines, giTaxidLines).value)))
  {
    var nodes := ReadNodes(nodesLines);
    if nodes.Failure? {
      return Failure(nodes.error);
    }
    var named := ApplyNames(nodes.value, namesLines);
    var withGis := ApplyGis(named, giTaxidLines);
    if withGis.Failure? {
      return Failure(withGis.error);
    }
    var linked := LinkFamily(withGis.value);
    if linked.Failure? {
      return Failure(linked.error);
    }
    assert linked == Preprocessed(nodesLines, namesLines, giTaxidLines);
    var text := WriteTaxidData(linked.value);
    return Success(text);
  }
}
