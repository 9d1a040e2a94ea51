/** The clipping half of the older taxonomy tool
    (yax/taxa_identification/TaxIDBranchwtaxidsig.py): `get_input_taxid_data`
    reads back the lines `preprocessing` wrote, `build_branch` and
    `build_gis_to_taxids` select the subtree below a set of roots and index
    its gis, and `output_sequences` keeps the FASTA records of that subtree
    and tallies their taxids. Files are given as their lines. */
module TaxidSigClip {
  import opened Base
  import opened Strings
  import TaxTree
  import TaxidTool
  import opened TaxidSig

  // ---------------------------------------------------------------------
  // get_input_taxid_data (lines 161-182)

  /** A list field: `rstrip("]").lstrip("[")`, quotes and spaces removed,
      then split at commas. */
  function ParseList(s: string): seq<string> {
    Split(Without(Without(LStripSet(RStripSet(s, {']'}), {'['}), '\''), ' '), ",")
  }

  /** One line of the file: `rstrip().split("\t")` needs six fields, else
      `IndexError`, and further fields are ignored; the count starts at 0. */
  function InputEntry(line: string): (r: TaxidTool.Entry<SigRecord>)
    ensures r.Success? ==> r.value.Some? && r.value.value.1.count == 0
  {
    var f := Split(RStrip(line), "\t");
    if |f| < 6 then Failure(IndexError)
    else Success(Some((f[0], SigRecord(f[1], ParseList(f[2]), ParseList(f[3]), ParseList(f[4]), f[5], 0))))
  }

  function InputEntries(lines: seq<string>): (es: seq<TaxidTool.Entry<SigRecord>>)
    ensures |es| == |lines| && forall i :: 0 <= i < |lines| ==> es[i] == InputEntry(lines[i])
  {
    seq(|lines|, i requires 0 <= i < |lines| => InputEntry(lines[i]))
  }

  /** `get_input_taxid_data`, given the file's lines: the last line of a
      taxid wins. */
  method GetInputTaxidData(lines: seq<string>) returns (r: Result<Dict<string, SigRecord>>)
    ensures r == TaxidTool.Collect(InputEntries(lines))
  {
    ghost var es := InputEntries(lines);
    var taxidData: Dict<string, SigRecord> := EmptyDict();
    var i := 0;
    while i < |lines|
      invariant 0 <= i <= |lines|
      invariant TaxidTool.Collect(es[..i]) == Success(taxidData)
    {
      var entry := InputEntry(lines[i]);
      ReadStep(lines, i, taxidData);
      if entry.Failure? {
        return Failure(entry.error);
      }
      var taxid := entry.value.value.0;
      var rec := entry.value.value.1;
      taxidData := taxidData.Put(taxid, rec);
      i := i + 1;
    }
    assert es[..i] == es;
    r := Success(taxidData);
  }

  /** One line read after a successful prefix: a failure fails the whole
      file, and an entry is put into the data read so far. */
  lemma ReadStep(lines: seq<string>, i: nat, d: Dict<string, SigRecord>)
    requires i < |lines| && TaxidTool.Collect(InputEntries(lines)[..i]) == Success(d)
    ensures match InputEntry(lines[i])
      case Failure(e) => TaxidTool.Collect(InputEntries(lines)) == Failure(e)
      case Success(o) => o.Some? && TaxidTool.Collect(InputEntries(lines)[..i + 1]) == Success(d.Put(o.value.0, o.value.1))
  {
    var es := InputEntries(lines);
    match es[i]
    case Failure(_) => TaxidTool.CollectStop(es, i);
    case Success(o) => TaxidTool.CollectPut(es, i, d, o.value.0, o.value.1);
  }

  /** Reading fails exactly on a line with fewer than six tab-separated
      fields. */
  lemma GetInputTaxidDataFails(lines: seq<string>)
    ensures TaxidTool.Collect(InputEntries(lines)).Failure? <==>
      exists i :: 0 <= i < |lines| && |Split(RStrip(lines[i]), "\t")| < 6
  {
    var es := InputEntries(lines);
    TaxidTool.CollectFails(es);
    if TaxidTool.Collect(es).Failure? {
      var i :| 0 <= i < |es| && es[i].Failure?;
      assert |Split(RStrip(lines[i]), "\t")| < 6;
    }
    if exists i :: 0 <= i < |lines| && |Split(RStrip(lines[i]), "\t")| < 6 {
      var i :| 0 <= i < |lines| && |Split(RStrip(lines[i]), "\t")| < 6;
      assert es[i].Failure?;
    }
  }

  /** On success each taxid of the file has the entry of its last line,
      with a zero count. */
  lemma GetInputTaxidDataLast(lines: seq<string>, k: string)
    requires TaxidTool.Collect(InputEntries(lines)).Success?
    ensures var es := InputEntries(lines);
      var d := TaxidTool.Collect(es).value;
      (k in d.entries <==> exists i :: 0 <= i < |lines| && TaxidTool.Assigns(es[i], k)) &&
      (k in d.entries ==> exists i :: (0 <= i < |lines| && TaxidTool.Assigns(es[i], k) &&
        d.entries[k] == es[i].value.value.1 && d.entries[k].count == 0 &&
        forall j :: i < j < |lines| ==> !TaxidTool.Assigns(es[j], k)))
  {
    TaxidTool.CollectLast(InputEntries(lines), k);
  }

  // ---------------------------------------------------------------------
  // Writing and reading back.

  /** A list item `str()` writes without escapes and `ParseList` reads back
      unchanged. */
  predicate PlainItem(x: string) {
    forall i :: 0 <= i < |x| ==> x[i] != ',' && x[i] != '\'' && x[i] != ' ' && x[i] != '\t' && x[i] != '\n' && x[i] != '\\'
  }

  predicate PlainList(xs: seq<string>) {
    forall i :: 0 <= i < |xs| ==> PlainItem(xs[i])
  }

  /** How a list comes back: an empty one as `[""]`. */
  function RereadList(xs: seq<string>): seq<string> {
    if xs == [] then [""] else xs
  }

  /** The quoted items joined by `", "`: they begin and end with a quote. */
  lemma QuotedJoinEnds(xs: seq<string>)
    requires xs != []
    ensures var j := Join(", ", Quoted(xs)); |j| > 0 && j[0] == '\'' && j[|j| - 1] == '\''
  {
    var qs := Quoted(xs);
    JoinLast(", ", qs);
    JoinFirst(", ", qs);
  }

  /** The brackets `str()` puts around a non-empty list come off again. */
  lemma StripBrackets(xs: seq<string>)
    requires xs != []
    ensures LStripSet(RStripSet(ListRepr(xs), {']'}), {'['}) == Join(", ", Quoted(xs))
  {
    var j := Join(", ", Quoted(xs));
    QuotedJoinEnds(xs);
    var s := "[" + j + "]";
    assert s[|s| - 2] == '\'';
    assert s[..|s| - 1] == "[" + j;
    assert RStripSet(s, {']'}) == "[" + j;
    assert ("[" + j)[1] == '\'';
    assert ("[" + j)[1..] == j;
  }

  /** Removing the quotes from the joined quoted items leaves the items
      joined by `", "`. */
  lemma Unquote(xs: seq<string>)
    requires PlainList(xs)
    ensures Without(Join(", ", Quoted(xs)), '\'') == Join(", ", xs)
  {
    var qs := Quoted(xs);
    forall i | 0 <= i < |xs|
      ensures xs[i] == Without(qs[i], '\'')
    {
      assert '\'' !in xs[i] by {
        assert PlainItem(xs[i]);
      }
      WithoutAppend("'" + xs[i], "'", '\'');
      WithoutAppend("'", xs[i], '\'');
      WithoutAbsent(xs[i], '\'');
    }
    WithoutJoin(", ", qs, '\'', xs);
    WithoutAbsent(", ", '\'');
  }

  /** Removing the spaces from plain items joined by `", "` leaves them
      joined by commas. */
  lemma Unspace(xs: seq<string>)
    requires PlainList(xs)
    ensures Without(Join(", ", xs), ' ') == Join(",", xs)
  {
    forall i | 0 <= i < |xs|
      ensures xs[i] == Without(xs[i], ' ')
    {
      assert ' ' !in xs[i] by {
        assert PlainItem(xs[i]);
      }
      WithoutAbsent(xs[i], ' ');
    }
    WithoutJoin(", ", xs, ' ', xs);
    assert Without(", ", ' ') == ",";
  }

  /** `str()` of a list of plain items reads back as the list, an empty
      list as `[""]`. */
  lemma ParseListRepr(xs: seq<string>)
    requires PlainList(xs)
    ensures ParseList(ListRepr(xs)) == RereadList(xs)
  {
    if xs == [] {
      assert ListRepr(xs) == "[]";
      assert RStripSet("[]", {']'}) == "[";
      assert LStripSet("[", {'['}) == "";
      assert Split("", ",") == [""];
    } else {
      StripBrackets(xs);
      Unquote(xs);
      Unspace(xs);
      forall i | 0 <= i < |xs|
        ensures ',' !in xs[i]
      {
        assert PlainItem(xs[i]);
      }
      SplitJoin(xs, ',');
    }
  }

  /** `str()` of a list of plain items holds no tab and no newline. */
  lemma ListReprField(xs: seq<string>)
    requires PlainList(xs)
    ensures TaxidTool.Field(ListRepr(xs))
  {
    var qs := Quoted(xs);
    forall i | 0 <= i < |qs|
      ensures '\t' !in qs[i] && '\n' !in qs[i]
    {
      assert PlainItem(xs[i]);
    }
    JoinFree(", ", qs, '\t');
    JoinFree(", ", qs, '\n');
  }

  /** Fields each followed by a tab are the fields joined by tabs, and a
      final tab. */
  lemma {:induction false} TabbedJoin(fs: seq<string>)
    requires |fs| > 0
    ensures Tabbed(fs) == Join("\t", fs) + "\t"
    decreases |fs|
  {
    var n := |fs| - 1;
    var init := fs[..n];
    assert fs == init + [fs[n]];
    JoinSnoc("\t", init, fs[n]);
    if init != [] {
      TabbedJoin(init);
    }
  }

  /** An entry that survives the trip through the file: taxid, name and
      rank free of tabs and newlines, a rank that `rstrip()` leaves alone,
      and list items that `str()` writes plainly. */
  predicate WritableEntry(t: string, rec: SigRecord) {
    TaxidTool.Field(t) && TaxidTool.Field(rec.sciName) && TaxidTool.Field(rec.rank) &&
    |rec.rank| > 0 && !IsSpace(rec.rank[|rec.rank| - 1]) &&
    PlainList(rec.gis) && PlainList(rec.children) && PlainList(rec.parents)
  }

  ghost predicate SigWritable(d: Dict<string, SigRecord>) {
    d.Valid() && forall k :: k in d.entries ==> WritableEntry(k, d.entries[k])
  }

  /** How an entry comes back: its empty lists as `[""]`, its count zero. */
  function RereadRecord(rec: SigRecord): SigRecord {
    rec.(gis := RereadList(rec.gis), children := RereadList(rec.children),
      parents := RereadList(rec.parents), count := 0)
  }

  function Reread(d: Dict<string, SigRecord>): (r: Dict<string, SigRecord>)
    ensures r.keys == d.keys && r.entries.Keys == d.entries.Keys
    ensures forall k :: k in d.entries ==> r.entries[k] == RereadRecord(d.entries[k])
  {
    Dict(d.keys, map k | k in d.entries :: RereadRecord(d.entries[k]))
  }

  /** A written line, before its newline, is its fields joined by tabs and
      a tab, and holds no newline. */
  lemma SigLineBody(t: string, rec: SigRecord)
    requires WritableEntry(t, rec)
    ensures var fs := SigFields(t, rec);
      Tabbed(fs) == Join("\t", fs) + "\t" && '\n' !in Tabbed(fs) &&
      forall i :: 0 <= i < |fs| ==> TaxidTool.Field(fs[i])
  {
    var fs := SigFields(t, rec);
    TabbedJoin(fs);
    ListReprField(rec.gis);
    ListReprField(rec.children);
    ListReprField(rec.parents);
    JoinFree("\t", fs, '\n');
  }

  /** Reading a written line gives back its entry, as `RereadRecord` says. */
  lemma InputEntryLine(t: string, rec: SigRecord)
    requires WritableEntry(t, rec)
    ensures InputEntry(SigLine(t, rec)) == Success(Some((t, RereadRecord(rec))))
  {
    var fs := SigFields(t, rec);
    SigLineBody(t, rec);
    var j := Join("\t", fs);
    JoinLast("\t", fs);
    assert j[|j| - 1] == rec.rank[|rec.rank| - 1];
    assert SigLine(t, rec) == j + "\t\n";
    RStripSpaces(j, "\t\n");
    SplitJoin(fs, '\t');
    assert Split(RStrip(SigLine(t, rec)), "\t") == fs;
    ParseListRepr(rec.gis);
    ParseListRepr(rec.children);
    ParseListRepr(rec.parents);
  }

  /** Each written line is its body and a newline, with no newline in the
      body. */
  lemma WrittenBodies(d: Dict<string, SigRecord>, bodies: seq<string>)
    requires SigWritable(d) && |bodies| == |d.keys|
    requires forall i :: 0 <= i < |bodies| ==> bodies[i] == Tabbed(SigFields(d.keys[i], d.entries[d.keys[i]]))
    ensures forall i :: 0 <= i < |bodies| ==> SigLines(d)[i] == bodies[i] + "\n" && '\n' !in bodies[i]
  {
    forall i | 0 <= i < |bodies|
      ensures SigLines(d)[i] == bodies[i] + "\n" && '\n' !in bodies[i]
    {
      assert d.keys[i] in d.entries;
      SigLineBody(d.keys[i], d.entries[d.keys[i]]);
    }
  }

  /** Splitting the written text into lines gives back the written lines. */
  lemma ReadWrittenLines(d: Dict<string, SigRecord>)
    requires SigWritable(d)
    ensures TaxidTool.ReadLines(Concat(SigLines(d))) == SigLines(d)
  {
    var ls := SigLines(d);
    var bodies := seq(|ls|, i requires 0 <= i < |ls| => Tabbed(SigFields(d.keys[i], d.entries[d.keys[i]])));
    WrittenBodies(d, bodies);
    TaxidTool.ReadConcat(bodies, ls);
  }

  /** Writing the entries with `preprocessing` and reading the file with
      `get_input_taxid_data` gives the same taxids in the same order, each
      with its entry as `RereadRecord` says. */
  lemma ReadWritten(d: Dict<string, SigRecord>)
    requires SigWritable(d)
    ensures TaxidTool.Collect(InputEntries(TaxidTool.ReadLines(Concat(SigLines(d))))) == Success(Reread(d))
  {
    ReadWrittenLines(d);
    var es := InputEntries(SigLines(d));
    forall i | 0 <= i < |d.keys|
      ensures d.keys[i] in Reread(d).entries && es[i] == Success(Some((d.keys[i], Reread(d).entries[d.keys[i]])))
    {
      assert d.keys[i] in d.entries;
      InputEntryLine(d.keys[i], d.entries[d.keys[i]]);
    }
    TaxidTool.CollectAll(es, Reread(d));
  }
  // ---------------------------------------------------------------------
  // build_branch and build_gis_to_taxids (lines 200-232)

  /** A child list without the `""` that an empty list comes back as. */
  function NonEmpty(xs: seq<string>): (ys: seq<string>)
    ensures forall y :: y in ys <==> y in xs && y != ""
    decreases |xs|
  {
    if xs == [] then []
    else (if xs[0] == "" then [] else [xs[0]]) + NonEmpty(xs[1..])
  }

  /** The tree the entries describe: each taxid's non-empty children. */
  function Kids(d: Dict<string, SigRecord>): (kids: TaxTree.Kids)
    ensures kids.Keys == d.entries.Keys
  {
    map t | t in d.entries :: NonEmpty(d.entries[t].children)
  }

  /** `build_branch`: the entries of every taxid reachable from a root
      through children other than `""`, each copied unchanged. A reachable
      taxid without an entry raises `KeyError`; a reachable cycle, on which
      the source loops forever, is reported as `Diverges`. */
  method BuildBranch(taxidData: Dict<string, SigRecord>, inclusionRoots: seq<string>)
    returns (r: Result<Dict<string, SigRecord>>)
    ensures r.Success? ==> (r.value.Valid() &&
      forall y :: (y in r.value.entries <==> TaxTree.Reachable(Kids(taxidData), TaxTree.Roots(inclusionRoots), y)))
    ensures r.Success? ==> forall y :: y in r.value.entries ==> y in taxidData.entries && r.value.entries[y] == taxidData.entries[y]
    ensures r.Failure? ==> (r.error == Diverges ||
      (r.error.KeyError? && r.error.key !in taxidData.entries &&
       TaxTree.Reachable(Kids(taxidData), TaxTree.Roots(inclusionRoots), r.error.key)))
    ensures r.Success? <==> TaxTree.Branch(Kids(taxidData), TaxTree.Roots(inclusionRoots)).Reached?
    ensures r == Failure(Diverges) <==> TaxTree.Branch(Kids(taxidData), TaxTree.Roots(inclusionRoots)).Endless?
  {
    var kids := Kids(taxidData);
    var roots := TaxTree.Roots(inclusionRoots);
    r := TaxTree.CollectBranch(taxidData.entries, kids, inclusionRoots);
    var b := TaxTree.Branch(kids, roots);
    if b.Reached? {
      forall y
        ensures y in r.value.entries <==> TaxTree.Reachable(kids, roots, y)
      {
        TaxTree.BranchReached(kids, roots, y);
      }
    } else if b.Missing? {
      TaxTree.BranchMissing(kids, roots, r.error.key);
    }
  }

  /** Each entry's gis. */
  function AssocGis(tree: Dict<string, SigRecord>): (gis: map<string, seq<string>>)
    ensures gis.Keys == tree.entries.Keys
  {
    map t | t in tree.entries :: tree.entries[t].gis
  }

  /** `build_gis_to_taxids`: every gi of an entry, mapped to the last taxid
      (in dict order) whose entry lists it. */
  method BuildGisToTaxids(tree: Dict<string, SigRecord>) returns (r: map<string, string>)
    requires tree.Valid()
    ensures forall g :: g in r <==> exists i :: 0 <= i < |tree.keys| && g in tree.entries[tree.keys[i]].gis
    ensures forall g :: g in r ==> exists i :: (0 <= i < |tree.keys| && tree.keys[i] == r[g] &&
      g in tree.entries[r[g]].gis && forall j :: i < j < |tree.keys| ==> g !in tree.entries[tree.keys[j]].gis)
  {
    r := TaxTree.GisIndex(tree.keys, AssocGis(tree));
  }

  // ---------------------------------------------------------------------
  // output_sequences, lines 263-292: the FASTA scan

  /** The gi of a FASTA header, `line.split(" ")[1].split(":")[1]`. */
  function HeaderGi(line: string): (r: Result<string>)
    ensures r.Failure? ==> r.error == IndexError
  {
    var words := Split(line, " ");
    if |words| < 2 then Failure(IndexError)
    else
      var parts := Split(words[1], ":");
      if |parts| < 2 then Failure(IndexError) else Success(parts[1])
  }

  /** A header has a gi exactly when it has a space, and its second word a
      colon. */
  lemma HeaderGiFails(line: string)
    ensures ' ' !in line ==> HeaderGi(line).Failure?
    ensures ' ' in line ==> |Split(line, " ")| >= 2 && (HeaderGi(line).Success? <==> ':' in Split(line, " ")[1])
  {
    SplitCuts(line, ' ');
    if ' ' in line {
      SplitCuts(Split(line, " ")[1], ':');
    }
  }

  /** Lines 280-282 over the parents `ps`, starting from `cur`: every parent
      whose rank is `level` takes the place of the taxid, and a parent
      without an entry raises `KeyError`. */
  function RankWalk(data: map<string, SigRecord>, ps: seq<string>, level: string, cur: string): Result<string>
    decreases |ps|
  {
    if ps == [] then Success(cur)
    else
      var c :- RankWalk(data, ps[..|ps| - 1], level, cur);
      var p := ps[|ps| - 1];
      if p !in data then Failure(KeyError(p))
      else if data[p].rank == level then Success(p)
      else Success(c)
  }

  /** Lines 276-282: the taxid a header is written with. An empty `level`
      stands for an unset truncation level. */
  function Truncate(data: map<string, SigRecord>, taxid: string, level: string): Result<string> {
    if level == "" then Success(taxid)
    else if taxid !in data then Failure(KeyError(taxid))
    else if data[taxid].rank == level then Success(taxid)
    else RankWalk(data, data[taxid].parents, level, taxid)
  }

  /** The walk fails exactly when a parent has no entry; otherwise it
      yields the last parent of rank `level`, or `cur` when there is none. */
  lemma {:induction false} RankWalkSpec(data: map<string, SigRecord>, ps: seq<string>, level: string, cur: string)
    ensures RankWalk(data, ps, level, cur).Failure? <==> exists i :: 0 <= i < |ps| && ps[i] !in data
    ensures RankWalk(data, ps, level, cur).Success? ==>
      (RankWalk(data, ps, level, cur).value == cur && forall i :: 0 <= i < |ps| ==> data[ps[i]].rank != level) ||
      (exists i :: 0 <= i < |ps| && ps[i] == RankWalk(data, ps, level, cur).value && data[ps[i]].rank == level &&
        forall j :: i < j < |ps| ==> data[ps[j]].rank != level)
    decreases |ps|
  {
    if ps != [] {
      var n := |ps| - 1;
      var init := ps[..n];
      RankWalkSpec(data, init, level, cur);
      assert forall i :: 0 <= i < n ==> init[i] == ps[i];
      if RankWalk(data, init, level, cur).Success? && ps[n] in data && data[ps[n]].rank != level {
        var w := RankWalk(data, init, level, cur).value;
        if !(w == cur && forall i :: 0 <= i < n ==> data[init[i]].rank != level) {
          var i :| 0 <= i < n && init[i] == w && data[init[i]].rank == level &&
            forall j :: i < j < n ==> data[init[j]].rank != level;
          assert ps[i] == w;
        }
      }
    }
  }

  /** With a truncation level set and a rank other than it, a header is
      written with its taxid's last ancestor of that rank, or with the taxid
      itself when no ancestor has it; a missing entry raises `KeyError`. */
  lemma TruncateSpec(data: map<string, SigRecord>, taxid: string, level: string)
    ensures Truncate(data, taxid, level).Failure? <==>
      level != "" && (taxid !in data ||
        (data[taxid].rank != level && exists i :: 0 <= i < |data[taxid].parents| && data[taxid].parents[i] !in data))
    ensures Truncate(data, taxid, level).Success? && (level == "" || data[taxid].rank == level) ==>
      Truncate(data, taxid, level).value == taxid
    ensures Truncate(data, taxid, level).Success? && level != "" && data[taxid].rank != level ==>
      var ps := data[taxid].parents;
      var v := Truncate(data, taxid, level).value;
      (v == taxid && forall i :: 0 <= i < |ps| ==> data[ps[i]].rank != level) ||
      (exists i :: 0 <= i < |ps| && ps[i] == v && data[v].rank == level && forall j :: i < j < |ps| ==> data[ps[j]].rank != level)
  {
    if level != "" && taxid in data {
      RankWalkSpec(data, data[taxid].parents, level, taxid);
    }
  }

  /** Lines 276-282 as the loop they are. */
  method Truncated(data: map<string, SigRecord>, gisTaxid: string, level: string) returns (r: Result<string>)
    ensures r == Truncate(data, gisTaxid, level)
  {
    var taxid := gisTaxid;
    if level != "" {
      if taxid !in data {
        return Failure(KeyError(taxid));
      }
      if data[taxid].rank != level {
        var ps := data[taxid].parents;
        var j := 0;
        while j < |ps|
          invariant 0 <= j <= |ps|
          invariant RankWalk(data, ps[..j], level, gisTaxid) == Success(taxid)
        {
          assert ps[..j + 1][..j] == ps[..j];
          if ps[j] !in data {
            r := Failure(KeyError(ps[j]));
            RankWalkFailed(data, ps, level, gisTaxid, j + 1);
            return;
          }
          if data[ps[j]].rank == level {
            taxid := ps[j];
          }
          j := j + 1;
        }
        assert ps[..j] == ps;
      }
    }
    r := Success(taxid);
  }

  lemma {:induction false} RankWalkFailed(data: map<string, SigRecord>, ps: seq<string>, level: string, cur: string, k: nat)
    requires k <= |ps| && RankWalk(data, ps[..k], level, cur).Failure?
    ensures RankWalk(data, ps, level, cur) == RankWalk(data, ps[..k], level, cur)
    decreases |ps| - k
  {
    if k < |ps| {
      assert ps[..k + 1][..k] == ps[..k];
      RankWalkFailed(data, ps, level, cur, k + 1);
    } else {
      assert ps[..k] == ps;
    }
  }

  /** A header line: it starts with `>`. */
  predicate IsHeader(line: string) {
    |line| > 0 && line[0] == '>'
  }

  /** The taxid of a header whose gi the index knows. */
  function KeptTaxid(gisToTaxids: map<string, string>, line: string): Option<string> {
    if IsHeader(line) && HeaderGi(line).Success? && HeaderGi(line).value in gisToTaxids
    then Some(gisToTaxids[HeaderGi(line).value]) else None
  }

  /** `taxid_counts[t] += 1`, or `= 1` for a new taxid. */
  function Increment(counts: Dict<string, int>, t: string): (r: Dict<string, int>)
    ensures counts.Valid() ==> r.Valid()
  {
    if t in counts.entries then counts.Put(t, counts.entries[t] + 1) else counts.Put(t, 1)
  }

  /** The loop's state: `print_line`, `taxid_counts` and the lines written. */
  datatype Scan = Scan(printLine: bool, counts: Dict<string, int>, out: seq<string>)

  /** What the loop of lines 268-292 does with one line. */
  function ScanLine(data: map<string, SigRecord>, gisToTaxids: map<string, string>, level: string, s: Scan, line: string)
    : Result<Scan>
  {
    if line == [] then Failure(IndexError)
    else if line[0] != '>' then
      if s.printLine then Success(s.(out := s.out + [line])) else Success(s)
    else
      var gi :- HeaderGi(line);
      if gi !in gisToTaxids then Success(s.(printLine := false))
      else
        var taxid :- Truncate(data, gisToTaxids[gi], level);
        Success(Scan(true, Increment(s.counts, gisToTaxids[gi]), s.out + [">" + taxid + "\n"]))
  }

  /** The loop of lines 268-292 over the lines of the FASTA file. */
  function ScanLines(data: map<string, SigRecord>, gisToTaxids: map<string, string>, level: string, lines: seq<string>)
    : (r: Result<Scan>)
    ensures r.Success? ==> r.value.counts.Valid()
    decreases |lines|
  {
    if lines == [] then Success(Scan(false, EmptyDict(), []))
    else
      var s :- ScanLines(data, gisToTaxids, level, lines[..|lines| - 1]);
      ScanLine(data, gisToTaxids, level, s, lines[|lines| - 1])
  }
  lemma ScanSnoc(data: map<string, SigRecord>, gisToTaxids: map<string, string>, level: string, lines: seq<string>, i: nat)
    requires i < |lines| && ScanLines(data, gisToTaxids, level, lines[..i]).Success?
    ensures ScanLines(data, gisToTaxids, level, lines[..i + 1]) ==
      ScanLine(data, gisToTaxids, level, ScanLines(data, gisToTaxids, level, lines[..i]).value, lines[i])
  {
    assert lines[..i + 1][..i] == lines[..i];
  }

  lemma {:induction false} ScanFailed(data: map<string, SigRecord>, gisToTaxids: map<string, string>, level: string,
      lines: seq<string>, k: nat)
    requires k <= |lines| && ScanLines(data, gisToTaxids, level, lines[..k]).Failure?
    ensures ScanLines(data, gisToTaxids, level, lines) == ScanLines(data, gisToTaxids, level, lines[..k])
    decreases |lines| - k
  {
    if k < |lines| {
      assert lines[..k + 1][..k] == lines[..k];
      ScanFailed(data, gisToTaxids, level, lines, k + 1);
    } else {
      assert lines[..k] == lines;
    }
  }

  /** A line the scan cannot get past: an empty one (`line[0]`), a header
      without a gi, or a header whose taxid cannot be truncated. */
  predicate LineFails(data: map<string, SigRecord>, gisToTaxids: map<string, string>, level: string, line: string) {
    line == [] ||
    (line[0] == '>' && (HeaderGi(line).Failure? ||
      (HeaderGi(line).value in gisToTaxids && Truncate(data, gisToTaxids[HeaderGi(line).value], level).Failure?)))
  }

  /** The scan fails exactly when one of the lines does. */
  lemma {:induction false} ScanFails(data: map<string, SigRecord>, gisToTaxids: map<string, string>, level: string,
      lines: seq<string>)
    ensures ScanLines(data, gisToTaxids, level, lines).Failure? <==>
      exists i :: 0 <= i < |lines| && LineFails(data, gisToTaxids, level, lines[i])
    decreases |lines|
  {
    if lines != [] {
      var n := |lines| - 1;
      ScanFails(data, gisToTaxids, level, lines[..n]);
      assert forall i :: 0 <= i < n ==> lines[..n][i] == lines[i];
    }
  }

  /** How many headers of `lines` carry a gi the index maps to `t`. */
  function Hits(gisToTaxids: map<string, string>, lines: seq<string>, t: string): nat
    decreases |lines|
  {
    if lines == [] then 0
    else Hits(gisToTaxids, lines[..|lines| - 1], t) + (if KeptTaxid(gisToTaxids, lines[|lines| - 1]) == Some(t) then 1 else 0)
  }

  /** `taxid_counts` holds, for each taxid, the number of headers whose gi
      the index maps to it, before truncation, and no other taxid. */
  lemma {:induction false} ScanCounts(data: map<string, SigRecord>, gisToTaxids: map<string, string>, level: string,
      lines: seq<string>, t: string)
    ensures ScanLines(data, gisToTaxids, level, lines).Success? ==>
      var counts := ScanLines(data, gisToTaxids, level, lines).value.counts;
      (t in counts.entries <==> Hits(gisToTaxids, lines, t) > 0) &&
      (t in counts.entries ==> counts.entries[t] == Hits(gisToTaxids, lines, t))
    decreases |lines|
  {
    if lines != [] {
      ScanCounts(data, gisToTaxids, level, lines[..|lines| - 1], t);
    }
  }

  /** The most recent header of `lines` carries a gi the index knows. */
  ghost predicate LastKept(gisToTaxids: map<string, string>, lines: seq<string>) {
    exists i :: 0 <= i < |lines| && KeptTaxid(gisToTaxids, lines[i]).Some? &&
      forall j :: i < j < |lines| ==> !IsHeader(lines[j])
  }

  /** After a header, the most recent header is that one. */
  lemma LastKeptHeader(gisToTaxids: map<string, string>, lines: seq<string>)
    requires lines != [] && IsHeader(lines[|lines| - 1])
    ensures LastKept(gisToTaxids, lines) <==> KeptTaxid(gisToTaxids, lines[|lines| - 1]).Some?
  {
    var n := |lines| - 1;
    if KeptTaxid(gisToTaxids, lines[n]).Some? {
      assert n + 1 == |lines|;
    }
  }

  /** A header kept before a sequence line is still the most recent one
      after it. */
  lemma LastKeptExtend(gisToTaxids: map<string, string>, lines: seq<string>)
    requires lines != [] && !IsHeader(lines[|lines| - 1])
    requires LastKept(gisToTaxids, lines[..|lines| - 1])
    ensures LastKept(gisToTaxids, lines)
  {
    var n := |lines| - 1;
    var init := lines[..n];
    var i :| 0 <= i < n && KeptTaxid(gisToTaxids, init[i]).Some? && forall j :: i < j < n ==> !IsHeader(init[j]);
    assert lines[i] == init[i];
    forall j | i < j < |lines|
      ensures !IsHeader(lines[j])
    {
      if j < n {
        assert lines[j] == init[j];
      }
    }
  }

  /** The most recent header before a sequence line comes before it. */
  lemma LastKeptShrink(gisToTaxids: map<string, string>, lines: seq<string>)
    requires lines != [] && !IsHeader(lines[|lines| - 1])
    requires LastKept(gisToTaxids, lines)
    ensures LastKept(gisToTaxids, lines[..|lines| - 1])
  {
    var n := |lines| - 1;
    var init := lines[..n];
    var i :| 0 <= i < |lines| && KeptTaxid(gisToTaxids, lines[i]).Some? && forall j :: i < j < |lines| ==> !IsHeader(lines[j]);
    assert i < n;
    assert init[i] == lines[i];
    assert forall j :: i < j < n ==> init[j] == lines[j];
  }

  /** After a sequence line, the most recent header is the one before it. */
  lemma LastKeptBody(gisToTaxids: map<string, string>, lines: seq<string>)
    requires lines != [] && !IsHeader(lines[|lines| - 1])
    ensures LastKept(gisToTaxids, lines) <==> LastKept(gisToTaxids, lines[..|lines| - 1])
  {
    if LastKept(gisToTaxids, lines[..|lines| - 1]) {
      LastKeptExtend(gisToTaxids, lines);
    }
    if LastKept(gisToTaxids, lines) {
      LastKeptShrink(gisToTaxids, lines);
    }
  }

  /** `print_line` is set exactly when the most recent header's gi is in
      `gis_to_taxids`. */
  lemma {:induction false} ScanPrint(data: map<string, SigRecord>, gisToTaxids: map<string, string>, level: string,
      lines: seq<string>)
    ensures ScanLines(data, gisToTaxids, level, lines).Success? ==>
      (ScanLines(data, gisToTaxids, level, lines).value.printLine <==> LastKept(gisToTaxids, lines))
    decreases |lines|
  {
    if lines != [] && ScanLines(data, gisToTaxids, level, lines).Success? {
      var n := |lines| - 1;
      ScanPrint(data, gisToTaxids, level, lines[..n]);
      if IsHeader(lines[n]) {
        LastKeptHeader(gisToTaxids, lines);
      } else {
        LastKeptBody(gisToTaxids, lines);
      }
    }
  }

  /** What a line adds to the output, given the lines before it: a header
      whose gi the index knows, as `>` and its truncated taxid; any other
      header nothing; a sequence line itself when the most recent header was
      kept. */
  ghost function EmittedAt(data: map<string, SigRecord>, gisToTaxids: map<string, string>, level: string,
      before: seq<string>, line: string): seq<string>
  {
    if IsHeader(line) then
      match KeptTaxid(gisToTaxids, line)
      case Some(t) => if Truncate(data, t, level).Success? then [">" + Truncate(data, t, level).value + "\n"] else []
      case None => []
    else if LastKept(gisToTaxids, before) then [line]
    else []
  }

  ghost function Emitted(data: map<string, SigRecord>, gisToTaxids: map<string, string>, level: string,
      lines: seq<string>): seq<string>
    decreases |lines|
  {
    if lines == [] then []
    else
      var n := |lines| - 1;
      Emitted(data, gisToTaxids, level, lines[..n]) + EmittedAt(data, gisToTaxids, level, lines[..n], lines[n])
  }

  /** The lines written are the kept headers, as `>` and their truncated
      taxid, and the sequence lines that follow a kept header. */
  lemma {:induction false} ScanOut(data: map<string, SigRecord>, gisToTaxids: map<string, string>, level: string,
      lines: seq<string>)
    ensures ScanLines(data, gisToTaxids, level, lines).Success? ==>
      ScanLines(data, gisToTaxids, level, lines).value.out == Emitted(data, gisToTaxids, level, lines)
    decreases |lines|
  {
    if lines != [] && ScanLines(data, gisToTaxids, level, lines).Success? {
      var n := |lines| - 1;
      ScanOut(data, gisToTaxids, level, lines[..n]);
      ScanPrint(data, gisToTaxids, level, lines[..n]);
    }
  }

  // ---------------------------------------------------------------------
  // output_sequences, lines 296-306: the counts

  /** `taxid_data[t][5] += c`. */
  function Bump(d: Dict<string, SigRecord>, t: string, c: int): (r: Dict<string, SigRecord>)
    requires t in d.entries
    ensures r.keys == d.keys && r.entries.Keys == d.entries.Keys
  {
    d.Put(t, d.entries[t].(count := d.entries[t].count + c))
  }

  /** Lines 301-306 as written: adding `c` to the count of each parent, a
      parent without an entry raises `KeyError`, which the `except
      IndexError` around it does not catch. */
  function AddAlongAsWritten(d: Dict<string, SigRecord>, ps: seq<string>, c: int): Result<Dict<string, SigRecord>>
    decreases |ps|
  {
    if ps == [] then Success(d)
    else
      var e :- AddAlongAsWritten(d, ps[..|ps| - 1], c);
      var p := ps[|ps| - 1];
      if p !in e.entries then Failure(KeyError(p)) else Success(Bump(e, p, c))
  }

  /** Lines 301-306 as the handler's message means them: a parent without
      an entry is reported and skipped. */
  function AddAlong(d: Dict<string, SigRecord>, ps: seq<string>, c: int): (r: Dict<string, SigRecord>)
    ensures r.keys == d.keys && r.entries.Keys == d.entries.Keys
    decreases |ps|
  {
    if ps == [] then d
    else
      var e := AddAlong(d, ps[..|ps| - 1], c);
      var p := ps[|ps| - 1];
      if p !in e.entries then e else Bump(e, p, c)
  }

  /** Every entry's count rises by `c` for each time the parent list names
      it; nothing else changes. */
  lemma {:induction false} AddAlongTally(d: Dict<string, SigRecord>, ps: seq<string>, c: int, x: string)
    requires x in d.entries
    ensures AddAlong(d, ps, c).entries[x] == d.entries[x].(count := d.entries[x].count + c * multiset(ps)[x])
    decreases |ps|
  {
    if ps != [] {
      var n := |ps| - 1;
      AddAlongTally(d, ps[..n], c, x);
      var e := AddAlong(d, ps[..n], c);
      assert AddAlong(d, ps, c) == if ps[n] !in e.entries then e else Bump(e, ps[n], c);
      LastCount(ps, x);
    }
  }

  /** Dropping the last element of a list removes one occurrence of it. */
  lemma LastCount(ps: seq<string>, x: string)
    requires ps != []
    ensures multiset(ps)[x] == multiset(ps[..|ps| - 1])[x] + if ps[|ps| - 1] == x then 1 else 0
  {
    assert ps == ps[..|ps| - 1] + [ps[|ps| - 1]];
  }

  /** The code as written agrees with the intended code whenever every
      parent has an entry, and raises `KeyError` otherwise. */
  lemma {:induction false} AddAlongAsWrittenSpec(d: Dict<string, SigRecord>, ps: seq<string>, c: int)
    ensures AddAlongAsWritten(d, ps, c).Failure? <==> exists i :: 0 <= i < |ps| && ps[i] !in d.entries
    ensures AddAlongAsWritten(d, ps, c).Failure? ==> AddAlongAsWritten(d, ps, c).error.KeyError?
    ensures AddAlongAsWritten(d, ps, c).Success? ==> AddAlongAsWritten(d, ps, c).value == AddAlong(d, ps, c)
    decreases |ps|
  {
    if ps != [] {
      var n := |ps| - 1;
      AddAlongAsWrittenSpec(d, ps[..n], c);
      assert forall i :: 0 <= i < n ==> ps[..n][i] == ps[i];
    }
  }

  /** Lines 297-306 for one taxid `t` and its count `c`, as written. */
  function CountStepAsWritten(d: Dict<string, SigRecord>, tree: Dict<string, SigRecord>, t: string, c: int)
    : Result<Dict<string, SigRecord>>
  {
    if t !in d.entries || t !in tree.entries then Failure(KeyError(t))
    else AddAlongAsWritten(Bump(d, t, c), tree.entries[t].parents, c)
  }

  /** Lines 297-306 for one taxid `t` and its count `c`, missing parents
      skipped. */
  function CountStep(d: Dict<string, SigRecord>, tree: Dict<string, SigRecord>, t: string, c: int)
    : Result<Dict<string, SigRecord>>
  {
    if t !in d.entries || t !in tree.entries then Failure(KeyError(t))
    else Success(AddAlong(Bump(d, t, c), tree.entries[t].parents, c))
  }

  /** The loop of lines 296-306 over the taxids `ks` of `taxid_counts`, as
      written. */
  function PropagateAsWritten(d: Dict<string, SigRecord>, tree: Dict<string, SigRecord>, ks: seq<string>,
      counts: map<string, int>): Result<Dict<string, SigRecord>>
    requires forall k :: k in ks ==> k in counts
    decreases |ks|
  {
    if ks == [] then Success(d)
    else
      var e :- PropagateAsWritten(d, tree, ks[..|ks| - 1], counts);
      CountStepAsWritten(e, tree, ks[|ks| - 1], counts[ks[|ks| - 1]])
  }

  /** The loop of lines 296-306, missing parents skipped. */
  function Propagate(d: Dict<string, SigRecord>, tree: Dict<string, SigRecord>, ks: seq<string>,
      counts: map<string, int>): Result<Dict<string, SigRecord>>
    requires forall k :: k in ks ==> k in counts
    decreases |ks|
  {
    if ks == [] then Success(d)
    else
      var e :- Propagate(d, tree, ks[..|ks| - 1], counts);
      CountStep(e, tree, ks[|ks| - 1], counts[ks[|ks| - 1]])
  }

  /** What the counts of `ks` add to taxid `x`: each its own count, and
      again for each time its parent list names `x`. */
  function Tally(tree: Dict<string, SigRecord>, ks: seq<string>, counts: map<string, int>, x: string): int
    requires forall k :: k in ks ==> k in counts
    decreases |ks|
  {
    if ks == [] then 0
    else
      var k := ks[|ks| - 1];
      Tally(tree, ks[..|ks| - 1], counts, x) +
      (if k !in tree.entries then 0
       else (if k == x then counts[k] else 0) + counts[k] * multiset(tree.entries[k].parents)[x])
  }

  /** One taxid's step: its count reaches its own entry and every entry its
      parent list names. */
  lemma CountStepTally(e: Dict<string, SigRecord>, tree: Dict<string, SigRecord>, k: string, c: int, x: string)
    requires k in e.entries && k in tree.entries && x in e.entries
    ensures CountStep(e, tree, k, c).Success?
    ensures var r := CountStep(e, tree, k, c).value;
      r.keys == e.keys && r.entries.Keys == e.entries.Keys &&
      r.entries[x] == e.entries[x].(count := e.entries[x].count +
        ((if k == x then c else 0) + c * multiset(tree.entries[k].parents)[x]))
  {
    AddAlongTally(Bump(e, k, c), tree.entries[k].parents, c, x);
  }

  /** A counted taxid the loop cannot get past. */
  predicate Unknown(d: Dict<string, SigRecord>, tree: Dict<string, SigRecord>, k: string) {
    k !in d.entries || k !in tree.entries
  }

  /** Propagation fails exactly on a counted taxid without an entry in the
      data or the tree, and keeps the taxids and their order. */
  lemma {:induction false} PropagateFails(d: Dict<string, SigRecord>, tree: Dict<string, SigRecord>, ks: seq<string>,
      counts: map<string, int>)
    requires forall k :: k in ks ==> k in counts
    ensures Propagate(d, tree, ks, counts).Failure? <==> exists i :: 0 <= i < |ks| && Unknown(d, tree, ks[i])
    ensures Propagate(d, tree, ks, counts).Success? ==>
      Propagate(d, tree, ks, counts).value.keys == d.keys &&
      Propagate(d, tree, ks, counts).value.entries.Keys == d.entries.Keys
    decreases |ks|
  {
    if ks != [] {
      var n := |ks| - 1;
      var init := ks[..n];
      PropagateFails(d, tree, init, counts);
      var p := Propagate(d, tree, init, counts);
      if p.Failure? {
        var i :| 0 <= i < n && Unknown(d, tree, init[i]);
        assert ks[i] == init[i];
      } else if Unknown(d, tree, ks[n]) {
        assert Propagate(d, tree, ks, counts).Failure?;
      } else {
        forall i | 0 <= i < |ks|
          ensures !Unknown(d, tree, ks[i])
        {
          if i < n {
            assert ks[i] == init[i];
          }
        }
      }
    }
  }

  /** Each count reaches its taxid and every ancestor listed, and nothing
      but the counts changes. */
  lemma {:induction false} PropagateTally(d: Dict<string, SigRecord>, tree: Dict<string, SigRecord>, ks: seq<string>,
      counts: map<string, int>, x: string)
    requires forall k :: k in ks ==> k in counts
    requires x in d.entries
    ensures Propagate(d, tree, ks, counts).Success? ==>
      x in Propagate(d, tree, ks, counts).value.entries &&
      Propagate(d, tree, ks, counts).value.entries[x] ==
        d.entries[x].(count := d.entries[x].count + Tally(tree, ks, counts, x))
    decreases |ks|
  {
    PropagateFails(d, tree, ks, counts);
    if ks != [] {
      var n := |ks| - 1;
      var init := ks[..n];
      PropagateFails(d, tree, init, counts);
      PropagateTally(d, tree, init, counts, x);
      var k := ks[n];
      var p := Propagate(d, tree, init, counts);
      if p.Success? && k in d.entries && k in tree.entries {
        CountStepTally(p.value, tree, k, counts[k], x);
      }
    }
  }

  /** A counted taxid whose propagation the code as written cannot finish. */
  ghost predicate Breaks(d: Dict<string, SigRecord>, tree: Dict<string, SigRecord>, k: string) {
    k !in d.entries || k !in tree.entries ||
    exists j :: 0 <= j < |tree.entries[k].parents| && tree.entries[k].parents[j] !in d.entries
  }

  /** One taxid's step as written fails exactly when it breaks, and agrees
      with the intended step otherwise. */
  lemma CountStepAsWrittenSpec(d: Dict<string, SigRecord>, e: Dict<string, SigRecord>, tree: Dict<string, SigRecord>,
      k: string, c: int)
    requires e.entries.Keys == d.entries.Keys
    ensures CountStepAsWritten(e, tree, k, c).Failure? <==> Breaks(d, tree, k)
    ensures CountStepAsWritten(e, tree, k, c).Success? ==> CountStepAsWritten(e, tree, k, c) == CountStep(e, tree, k, c)
  {
    if k in e.entries && k in tree.entries {
      AddAlongAsWrittenSpec(Bump(e, k, c), tree.entries[k].parents, c);
    }
  }

  lemma PropagateAsWrittenSnoc(d: Dict<string, SigRecord>, tree: Dict<string, SigRecord>,
      ks: seq<string>, counts: map<string, int>)
    requires ks != [] && forall k :: k in ks ==> k in counts
    ensures var init := ks[..|ks| - 1];
      PropagateAsWritten(d, tree, ks, counts) ==
        match PropagateAsWritten(d, tree, init, counts)
        case Failure(err) => Failure(err)
        case Success(e) => CountStepAsWritten(e, tree, ks[|ks| - 1], counts[ks[|ks| - 1]])
  {
  }

  /** When propagation as written does not fail, it agrees with the
      intended code. */
  lemma {:induction false} PropagateAsWrittenAgrees(d: Dict<string, SigRecord>, tree: Dict<string, SigRecord>,
      ks: seq<string>, counts: map<string, int>)
    requires forall k :: k in ks ==> k in counts
    ensures PropagateAsWritten(d, tree, ks, counts).Success? ==>
      PropagateAsWritten(d, tree, ks, counts) == Propagate(d, tree, ks, counts)
    decreases |ks|
  {
    if ks != [] {
      var n := |ks| - 1;
      var init := ks[..n];
      PropagateAsWrittenSnoc(d, tree, ks, counts);
      PropagateAsWrittenAgrees(d, tree, init, counts);
      var p := PropagateAsWritten(d, tree, init, counts);
      if p.Success? {
        PropagateFails(d, tree, init, counts);
        CountStepAsWrittenSpec(d, p.value, tree, ks[n], counts[ks[n]]);
      }
    }
  }

  /** As written, propagation fails also on any ancestor without an entry. */
  lemma {:induction false} PropagateAsWrittenFails(d: Dict<string, SigRecord>, tree: Dict<string, SigRecord>,
      ks: seq<string>, counts: map<string, int>)
    requires forall k :: k in ks ==> k in counts
    ensures PropagateAsWritten(d, tree, ks, counts).Failure? <==> exists i :: 0 <= i < |ks| && Breaks(d, tree, ks[i])
    decreases |ks|
  {
    if ks != [] {
      var n := |ks| - 1;
      var init := ks[..n];
      PropagateAsWrittenSnoc(d, tree, ks, counts);
      PropagateAsWrittenFails(d, tree, init, counts);
      PropagateAsWrittenAgrees(d, tree, init, counts);
      var p := PropagateAsWritten(d, tree, init, counts);
      BreaksSnoc(d, tree, ks);
      if p.Success? {
        PropagateFails(d, tree, init, counts);
        CountStepAsWrittenSpec(d, p.value, tree, ks[n], counts[ks[n]]);
      }
    }
  }

  /** Some taxid of a list breaks exactly when one of all but the last does,
      or the last does. */
  lemma BreaksSnoc(d: Dict<string, SigRecord>, tree: Dict<string, SigRecord>, ks: seq<string>)
    requires ks != []
    ensures var n := |ks| - 1;
      (exists i :: 0 <= i < |ks| && Breaks(d, tree, ks[i])) <==>
      (exists i :: 0 <= i < n && Breaks(d, tree, ks[..n][i])) || Breaks(d, tree, ks[n])
  {
    var n := |ks| - 1;
    assert forall i :: 0 <= i < n ==> ks[..n][i] == ks[i];
  }

  // ---------------------------------------------------------------------
  // output_sequences as a whole

  /** The lines written to `<project_name>_seqs.fasta` and the entries with
      their counts raised, as written. */
  function OutputAsWritten(taxidData: Dict<string, SigRecord>, inclusionTree: Dict<string, SigRecord>,
      gisToTaxids: map<string, string>, lines: seq<string>, level: string)
    : Result<(seq<string>, Dict<string, SigRecord>)>
  {
    var s :- ScanLines(taxidData.entries, gisToTaxids, level, lines);
    var d :- PropagateAsWritten(taxidData, inclusionTree, s.counts.keys, s.counts.entries);
    Success((s.out, d))
  }

  /** The same, missing ancestors skipped. */
  function Output(taxidData: Dict<string, SigRecord>, inclusionTree: Dict<string, SigRecord>,
      gisToTaxids: map<string, string>, lines: seq<string>, level: string)
    : Result<(seq<string>, Dict<string, SigRecord>)>
  {
    var s :- ScanLines(taxidData.entries, gisToTaxids, level, lines);
    var d :- Propagate(taxidData, inclusionTree, s.counts.keys, s.counts.entries);
    Success((s.out, d))
  }
  lemma PropagateSnoc(d: Dict<string, SigRecord>, tree: Dict<string, SigRecord>, ks: seq<string>,
      counts: map<string, int>, j: nat)
    requires j < |ks| && forall k :: k in ks ==> k in counts
    requires Propagate(d, tree, ks[..j], counts).Success?
    ensures Propagate(d, tree, ks[..j + 1], counts) == CountStep(Propagate(d, tree, ks[..j], counts).value, tree, ks[j], counts[ks[j]])
  {
    assert ks[..j + 1][..j] == ks[..j];
  }

  lemma {:induction false} PropagateFailed(d: Dict<string, SigRecord>, tree: Dict<string, SigRecord>, ks: seq<string>,
      counts: map<string, int>, k: nat)
    requires k <= |ks| && forall t :: t in ks ==> t in counts
    requires Propagate(d, tree, ks[..k], counts).Failure?
    ensures Propagate(d, tree, ks, counts) == Propagate(d, tree, ks[..k], counts)
    decreases |ks| - k
  {
    if k < |ks| {
      assert ks[..k + 1][..k] == ks[..k];
      PropagateFailed(d, tree, ks, counts, k + 1);
    } else {
      assert ks[..k] == ks;
    }
  }

  /** Lines 297-306 for one taxid, missing parents skipped. */
  method AddCount(taxidData: Dict<string, SigRecord>, inclusionTree: Dict<string, SigRecord>, taxid: string, count: int)
    returns (r: Result<Dict<string, SigRecord>>)
    ensures r == CountStep(taxidData, inclusionTree, taxid, count)
  {
    if taxid !in taxidData.entries || taxid !in inclusionTree.entries {
      return Failure(KeyError(taxid));
    }
    var d := Bump(taxidData, taxid, count);
    ghost var d0 := d;
    var ps := inclusionTree.entries[taxid].parents;
    var i := 0;
    while i < |ps|
      invariant 0 <= i <= |ps|
      invariant AddAlong(d0, ps[..i], count) == d
    {
      assert ps[..i + 1][..i] == ps[..i];
      if ps[i] in d.entries {
        d := d.Put(ps[i], d.entries[ps[i]].(count := d.entries[ps[i]].count + count));
      }
      i := i + 1;
    }
    assert ps[..i] == ps;
    r := Success(d);
  }

  /** One pass of the loop of lines 268-292. */
  method NextLine(data: map<string, SigRecord>, gisToTaxids: map<string, string>, truncationLevel: string,
      printLine: bool, taxidCounts: Dict<string, int>, out: seq<string>, line: string) returns (r: Result<Scan>)
    ensures r == ScanLine(data, gisToTaxids, truncationLevel, Scan(printLine, taxidCounts, out), line)
  {
    if line == [] {
      return Failure(IndexError);
    }
    if line[0] != '>' && printLine {
      return Success(Scan(printLine, taxidCounts, out + [line]));
    } else if line[0] == '>' {
      var gi := HeaderGi(line);
      if gi.Failure? {
        return Failure(gi.error);
      }
      if gi.value in gisToTaxids {
        var taxid := Truncated(data, gisToTaxids[gi.value], truncationLevel);
        if taxid.Failure? {
          return Failure(taxid.error);
        }
        var taxidToIncrement := gisToTaxids[gi.value];
        var counts := taxidCounts;
        if taxidToIncrement in counts.entries {
          counts := counts.Put(taxidToIncrement, counts.entries[taxidToIncrement] + 1);
        } else {
          counts := counts.Put(taxidToIncrement, 1);
        }
        return Success(Scan(true, counts, out + [">" + taxid.value + "\n"]));
      } else {
        return Success(Scan(false, taxidCounts, out));
      }
    }
    return Success(Scan(printLine, taxidCounts, out));
  }

  /** The loop of lines 296-306, missing parents skipped. */
  method UpdateCounts(taxidData: Dict<string, SigRecord>, inclusionTree: Dict<string, SigRecord>,
      taxidCounts: Dict<string, int>) returns (r: Result<Dict<string, SigRecord>>)
    requires taxidCounts.Valid()
    ensures r == Propagate(taxidData, inclusionTree, taxidCounts.keys, taxidCounts.entries)
  {
    var d := taxidData;
    var ks := taxidCounts.keys;
    var j := 0;
    while j < |ks|
      invariant 0 <= j <= |ks|
      invariant Propagate(taxidData, inclusionTree, ks[..j], taxidCounts.entries) == Success(d)
    {
      PropagateSnoc(taxidData, inclusionTree, ks, taxidCounts.entries, j);
      var step := AddCount(d, inclusionTree, ks[j], taxidCounts.entries[ks[j]]);
      if step.Failure? {
        r := Failure(step.error);
        PropagateFailed(taxidData, inclusionTree, ks, taxidCounts.entries, j + 1);
        return;
      }
      d := step.value;
      j := j + 1;
    }
    assert ks[..j] == ks;
    r := Success(d);
  }

  /** `output_sequences`, given the lines of the FASTA file, returning the
      lines it writes and the entries with their counts raised; a parent
      without an entry is skipped, as the handler at line 305 intends. */
  method OutputSequences(taxidData: Dict<string, SigRecord>, inclusionTree: Dict<string, SigRecord>,
      gisToTaxids: map<string, string>, lines: seq<string>, truncationLevel: string)
    returns (r: Result<(seq<string>, Dict<string, SigRecord>)>)
    ensures r == Output(taxidData, inclusionTree, gisToTaxids, lines, truncationLevel)
  {
    var printLine := false;
    var taxidCounts: Dict<string, int> := EmptyDict();
    var out: seq<string> := [];
    var i := 0;
    while i < |lines|
      invariant 0 <= i <= |lines|
      invariant ScanLines(taxidData.entries, gisToTaxids, truncationLevel, lines[..i]) == Success(Scan(printLine, taxidCounts, out))
    {
      ScanSnoc(taxidData.entries, gisToTaxids, truncationLevel, lines, i);
      var next := NextLine(taxidData.entries, gisToTaxids, truncationLevel, printLine, taxidCounts, out, lines[i]);
      if next.Failure? {
        r := Failure(next.error);
        ScanFailed(taxidData.entries, gisToTaxids, truncationLevel, lines, i + 1);
        return;
      }
      printLine, taxidCounts, out := next.value.printLine, next.value.counts, next.value.out;
      i := i + 1;
    }
    assert lines[..i] == lines;
    var counted := UpdateCounts(taxidData, inclusionTree, taxidCounts);
    if counted.Failure? {
      return Failure(counted.error);
    }
    r := Success((out, counted.value));
  }
  /** The root as `get_input_taxid_data` reads it back: `preprocessing`
      writes its empty parent list as `[]`, which comes back as `[""]`. */
  function RootEntry(): SigRecord {
    SigRecord("root", ["5"], [""], [""], "no rank", 0)
  }

  function RootData(): Dict<string, SigRecord> {
    Dict(["1"], map["1" := RootEntry()])
  }

  /** A FASTA file with one record, whose gi the root lists. */
  function RootFasta(): seq<string> {
    [">r gi:5 x\n", "ACGT\n"]
  }

  lemma RootWords()
    ensures Split(RootFasta()[0], " ") == [">r", "gi:5", "x\n"]
  {
    var words := [">r", "gi:5", "x\n"];
    assert Join(" ", words) == RootFasta()[0];
    SplitJoin(words, ' ');
  }

  lemma RootGiParts()
    ensures Split("gi:5", ":") == ["gi", "5"]
  {
    assert Join(":", ["gi", "5"]) == "gi:5";
    SplitJoin(["gi", "5"], ':');
  }

  lemma RootHeader()
    ensures HeaderGi(RootFasta()[0]) == Success("5")
  {
    RootWords();
    RootGiParts();
  }

  /** A header whose gi the index knows and whose taxid truncates. */
  lemma ScanLineKept(data: map<string, SigRecord>, gisToTaxids: map<string, string>, level: string, s: Scan,
      line: string, gi: string, t: string)
    requires IsHeader(line) && HeaderGi(line) == Success(gi) && gi in gisToTaxids
    requires Truncate(data, gisToTaxids[gi], level) == Success(t)
    ensures ScanLine(data, gisToTaxids, level, s, line) ==
      Success(Scan(true, Increment(s.counts, gisToTaxids[gi]), s.out + [">" + t + "\n"]))
  {
  }

  /** A sequence line after a kept header. */
  lemma ScanLineBody(data: map<string, SigRecord>, gisToTaxids: map<string, string>, level: string, s: Scan,
      line: string)
    requires line != [] && !IsHeader(line) && s.printLine
    ensures ScanLine(data, gisToTaxids, level, s, line) == Success(s.(out := s.out + [line]))
  {
  }

  /** Scanning a header with gi 5, then a sequence line. */
  lemma RootScan(lines: seq<string>)
    requires |lines| == 2 && IsHeader(lines[0]) && HeaderGi(lines[0]) == Success("5")
    requires lines[1] != [] && !IsHeader(lines[1])
    ensures ScanLines(RootData().entries, map["5" := "1"], "", lines) ==
      Success(Scan(true, Dict(["1"], map["1" := 1]), [">1\n", lines[1]]))
  {
    var g := map["5" := "1"];
    var data := RootData().entries;
    var s1 := Scan(true, Dict(["1"], map["1" := 1]), [">1\n"]);
    RootScanHeader(lines);
    ScanSnoc(data, g, "", lines, 1);
    ScanLineBody(data, g, "", s1, lines[1]);
    assert s1.out + [lines[1]] == [">1\n", lines[1]];
    assert lines[..2] == lines;
  }

  /** Scanning the header alone counts one hit at the root. */
  lemma RootScanHeader(lines: seq<string>)
    requires |lines| == 2 && IsHeader(lines[0]) && HeaderGi(lines[0]) == Success("5")
    ensures ScanLines(RootData().entries, map["5" := "1"], "", lines[..1]) ==
      Success(Scan(true, Dict(["1"], map["1" := 1]), [">1\n"]))
  {
    var g := map["5" := "1"];
    var data := RootData().entries;
    var s: Scan := Scan(false, EmptyDict(), []);
    assert lines[..0] == [];
    ScanSnoc(data, g, "", lines, 0);
    ScanLineKept(data, g, "", s, lines[0], "5", "1");
    assert Increment(s.counts, "1") == Dict(["1"], map["1" := 1]);
    var h := ">" + "1" + "\n";
    assert |h| == 3 && h[0] == '>' && h[1] == '1' && h[2] == '\n';
    assert h == ">1\n";
    assert s.out + [h] == [">1\n"];
  }

  lemma RootPropagate()
    ensures PropagateAsWritten(RootData(), RootData(), ["1"], map["1" := 1]) == Failure(KeyError(""))
    ensures Propagate(RootData(), RootData(), ["1"], map["1" := 1]) ==
      Success(Dict(["1"], map["1" := RootEntry().(count := 1)]))
  {
    var d := RootData();
    assert ["1"][..0] == [];
    var b := Bump(d, "1", 1);
    assert b == Dict(["1"], map["1" := RootEntry().(count := 1)]);
    assert [""][..0] == [];
    assert AddAlongAsWritten(b, [""], 1) == Failure(KeyError(""));
    assert AddAlong(b, [""], 1) == b;
  }

  /** A FASTA record whose gi the root lists makes the code as written raise
      `KeyError("")` at line 303, while skipping the missing parent counts
      the record at the root. */
  lemma RootHitAsWritten()
    ensures ParseList("[]") == [""]
    ensures OutputAsWritten(RootData(), RootData(), map["5" := "1"], RootFasta(), "") == Failure(KeyError(""))
    ensures Output(RootData(), RootData(), map["5" := "1"], RootFasta(), "") ==
      Success(([">1\n", "ACGT\n"], Dict(["1"], map["1" := RootEntry().(count := 1)])))
  {
    ParseListRepr([]);
    RootScanned();
    RootPropagate();
  }

  /** The scan of the one-record file keeps the record under the root. */
  lemma RootScanned()
    ensures ScanLines(RootData().entries, map["5" := "1"], "", RootFasta()) ==
      Success(Scan(true, Dict(["1"], map["1" := 1]), [">1\n", "ACGT\n"]))
  {
    RootHeader();
    RootScan(RootFasta());
  }
}
