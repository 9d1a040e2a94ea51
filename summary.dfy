/** The numeric core of the summary step, `yax/modules/summary/summary.py`:
    per-base coverage vectors built from a sample's alignments together with
    the largest coverage seen, the absolute coverage of each gi, the top-N
    ordering of a tax id's gis and the shape of the binned plot data. */
module Summary {
  import opened Base
  import opened Strings

  /** `CoverageData.Sequence`, `CoverageData.Alignment` and
      `CoverageData.Sample` (yax/artifacts/coverage_data.py). */
  datatype Sequence = Sequence(gi: string, length: int)
  datatype Alignment = Alignment(gi: string, length: int, position: int)
  datatype Sample = Sample(name: string, sequences: seq<Sequence>, alignments: seq<Alignment>)

  /** The per-gi record of lines 164-171. `relCoverage` is kept as an exact
      ratio. */
  datatype GiStats = GiStats(
    length: int,
    absCoverage: int,
    relCoverage: real,
    totalHits: int,
    uniqueHits: int,
    informHits: int,
    sequence: seq<int>)

  /** Tax-id key to the gis of that tax id. */
  type Coverage = map<string, Dict<string, GiStats>>

  // ---------------------------------------------------------------------
  // _get_taxid_and_name (lines 370-375) and the keys built from it

  const SciName: string := "Scientific Name"

  /** `key.split('|')` read as lines 85-86 read it: the tax id from the
      second piece, the organism name from the first. */
  function KeyParts(key: string): (r: Result<(string, string)>)
    ensures r.Failure? <==> '|' !in key
  {
    var parts := Split(key, "|");
    SplitCuts(key, '|');
    if |parts| < 2 then Failure(IndexError) else Success((parts[1], parts[0]))
  }

  /** The key as written: `'|'.join(_get_taxid_and_name(gi, ...))`, tax id
      first. */
  function TaxKeyAsWritten(gisToTaxids: map<string, string>, gi: string): (r: Result<string>)
    ensures r.Failure? <==> gi !in gisToTaxids
  {
    if gi !in gisToTaxids then Failure(KeyError(gi)) else Success(Join("|", [gisToTaxids[gi], SciName]))
  }

  /** Reading back the key as written swaps the two parts: the tax id comes
      out as the organism name and "Scientific Name" as the tax id. */
  lemma SwappedKey(gisToTaxids: map<string, string>, gi: string)
    requires gi in gisToTaxids && '|' !in gisToTaxids[gi]
    ensures KeyParts(TaxKeyAsWritten(gisToTaxids, gi).value) == Success((SciName, gisToTaxids[gi]))
  {
    assert '|' !in SciName;
    SplitJoin([gisToTaxids[gi], SciName], '|');
  }

  /** The key in the documented `organism-name|tax-id` form (lines 138 and
      85-86). */
  function TaxKey(gisToTaxids: map<string, string>, gi: string): (r: Result<string>)
    ensures r.Failure? <==> gi !in gisToTaxids
  {
    if gi !in gisToTaxids then Failure(KeyError(gi)) else Success(Join("|", [SciName, gisToTaxids[gi]]))
  }

  /** The documented key reads back as the gi's tax id and its name. */
  lemma KeyRoundTrip(gisToTaxids: map<string, string>, gi: string)
    requires gi in gisToTaxids && '|' !in gisToTaxids[gi]
    ensures KeyParts(TaxKey(gisToTaxids, gi).value) == Success((gisToTaxids[gi], SciName))
  {
    assert '|' !in SciName;
    SplitJoin([SciName, gisToTaxids[gi]], '|');
  }

  // ---------------------------------------------------------------------
  // _parse_summary_data, first loop (lines 154-171)

  /** `[0] * n`. */
  function Zeros(n: int): (r: seq<int>)
    ensures |r| == (if n < 0 then 0 else n)
    ensures forall k :: 0 <= k < |r| ==> r[k] == 0
  {
    if n <= 0 then [] else seq(n, _ => 0)
  }

  /** A gi's record before any alignment is counted. */
  function Fresh(length: int): GiStats {
    GiStats(length, 0, 0.0, 0, 0, 0, Zeros(length))
  }

  /** Every record is fresh. */
  ghost predicate AllFresh(cov: Coverage) {
    forall key, gi :: key in cov && gi in cov[key].entries ==> cov[key].entries[gi] == Fresh(cov[key].entries[gi].length)
  }

  /** Every gi dict is a well-formed dict. */
  ghost predicate DictsValid(cov: Coverage) {
    forall key :: key in cov ==> cov[key].Valid()
  }

  /** The first loop over the first sequences: a record per sequence under
      its tax id's key, a later sequence with the same gi starting it
      afresh. */
  function Register(gisToTaxids: map<string, string>, seqs: seq<Sequence>): (r: Result<Coverage>)
    ensures r.Success? ==> AllFresh(r.value) && DictsValid(r.value)
    decreases |seqs|
  {
    if seqs == [] then Success(map[])
    else
      var cov :- Register(gisToTaxids, seqs[..|seqs| - 1]);
      var s := seqs[|seqs| - 1];
      var key :- TaxKey(gisToTaxids, s.gi);
      var d := if key in cov then cov[key] else EmptyDict();
      Success(cov[key := d.Put(s.gi, Fresh(s.length))])
  }

  /** Registering fails exactly when some sequence's gi has no tax id. */
  lemma {:induction false} RegisterFails(gisToTaxids: map<string, string>, seqs: seq<Sequence>)
    ensures Register(gisToTaxids, seqs).Failure? <==> exists s :: s in seqs && s.gi !in gisToTaxids
    decreases |seqs|
  {
    if seqs != [] {
      var init := seqs[..|seqs| - 1];
      RegisterFails(gisToTaxids, init);
      assert forall s :: s in seqs <==> s in init || s == seqs[|seqs| - 1];
    }
  }

  /** Storing one record under `key` keeps every other record. */
  lemma PutKeeps(cov: Coverage, key: string, d: Dict<string, GiStats>, gi: string, x: GiStats, key': string, gi': string)
    requires key in cov ==> d == cov[key]
    requires key' in cov && gi' in cov[key'].entries && (key' != key || gi' != gi)
    ensures var c := cov[key := d.Put(gi, x)];
      key' in c && gi' in c[key'].entries && c[key'].entries[gi'] == cov[key'].entries[gi']
  {
  }

  /** After registering, each sequence has a record under its key. */
  lemma {:induction false} RegisterHas(gisToTaxids: map<string, string>, seqs: seq<Sequence>, i: nat)
    requires i < |seqs| && Register(gisToTaxids, seqs).Success?
    ensures TaxKey(gisToTaxids, seqs[i].gi).Success?
    ensures var cov := Register(gisToTaxids, seqs).value;
      var key := TaxKey(gisToTaxids, seqs[i].gi).value;
      key in cov && seqs[i].gi in cov[key].entries
    decreases |seqs|
  {
    var n := |seqs| - 1;
    var init := seqs[..n];
    var last := seqs[n];
    var cov := Register(gisToTaxids, init).value;
    var key := TaxKey(gisToTaxids, last.gi).value;
    var d := if key in cov then cov[key] else EmptyDict();
    assert Register(gisToTaxids, seqs).value == cov[key := d.Put(last.gi, Fresh(last.length))];
    if i < n {
      assert init[i] == seqs[i];
      RegisterHas(gisToTaxids, init, i);
      var key' := TaxKey(gisToTaxids, seqs[i].gi).value;
      if key' != key || seqs[i].gi != last.gi {
        PutKeeps(cov, key, d, last.gi, Fresh(last.length), key', seqs[i].gi);
      }
    }
  }

  /** The last sequence with a gi decides that record's length. */
  lemma {:induction false} RegisterLast(gisToTaxids: map<string, string>, seqs: seq<Sequence>, i: nat)
    requires i < |seqs| && Register(gisToTaxids, seqs).Success?
    requires forall j :: i < j < |seqs| ==> seqs[j].gi != seqs[i].gi
    ensures TaxKey(gisToTaxids, seqs[i].gi).Success?
    ensures var cov := Register(gisToTaxids, seqs).value;
      var key := TaxKey(gisToTaxids, seqs[i].gi).value;
      key in cov && seqs[i].gi in cov[key].entries && cov[key].entries[seqs[i].gi] == Fresh(seqs[i].length)
    decreases |seqs|
  {
    var n := |seqs| - 1;
    var init := seqs[..n];
    var last := seqs[n];
    var cov := Register(gisToTaxids, init).value;
    var key := TaxKey(gisToTaxids, last.gi).value;
    var d := if key in cov then cov[key] else EmptyDict();
    assert Register(gisToTaxids, seqs).value == cov[key := d.Put(last.gi, Fresh(last.length))];
    if i < n {
      assert init[i] == seqs[i];
      assert forall j :: i < j < n ==> init[j] == seqs[j];
      RegisterLast(gisToTaxids, init, i);
      var key' := TaxKey(gisToTaxids, seqs[i].gi).value;
      PutKeeps(cov, key, d, last.gi, Fresh(last.length), key', seqs[i].gi);
    }
  }

  // ---------------------------------------------------------------------
  // _parse_summary_data, second loop (lines 173-197)

  /** Python's `s[i]` on a list of `n` items: a negative index counts from
      the end. */
  function PyIndex(n: nat, i: int): (r: Result<nat>)
    ensures r.Success? ==> r.value < n
    ensures r.Failure? <==> i >= n || i < -(n as int)
  {
    if 0 <= i < n then Success(i) else if -(n as int) <= i < 0 then Success(n + i) else Failure(IndexError)
  }

  /** The loop of lines 190-196 from `i` on: one more at each index until
      `end` or until the index reaches the vector's length, keeping the
      largest value written. */
  function Cover(s: seq<int>, i: int, end: int, mx: int): (r: Result<(seq<int>, int)>)
    ensures r.Success? ==> |r.value.0| == |s|
    decreases end - i
  {
    if i >= end || i == |s| then Success((s, mx))
    else
      var idx :- PyIndex(|s|, i);
      var v := s[idx] + 1;
      Cover(s[idx := v], i + 1, end, if v > mx then v else mx)
  }

  /** Starting inside the vector or just after it, an alignment adds one at
      the positions from its start up to its end or the vector's end, and
      nothing elsewhere. */
  lemma {:induction false} CoverAdds(s: seq<int>, i: int, end: int, mx: int)
    requires 0 <= i <= |s|
    ensures Cover(s, i, end, mx).Success?
    ensures forall k :: 0 <= k < |s| ==> Cover(s, i, end, mx).value.0[k] == s[k] + (if i <= k < end then 1 else 0)
    decreases end - i
  {
    if !(i >= end || i == |s|) {
      CoverAdds(s[i := s[i] + 1], i + 1, end, if s[i] + 1 > mx then s[i] + 1 else mx);
    }
  }

  /** Starting past the end of the vector, a non-empty alignment raises
      `IndexError`: the `break` of line 192 is never reached. */
  lemma CoverPastEnd(s: seq<int>, i: int, end: int, mx: int)
    requires |s| < i < end
    ensures Cover(s, i, end, mx) == Failure(IndexError)
  {
  }

  /** Values only grow, the running maximum only grows, every value ends up
      at most the maximum, and a new maximum is a value of the vector. */
  lemma {:induction false} CoverBounds(s: seq<int>, i: int, end: int, mx: int)
    requires forall k :: 0 <= k < |s| ==> s[k] <= mx
    ensures Cover(s, i, end, mx).Success? ==> (
      var (t, m) := Cover(s, i, end, mx).value;
      mx <= m && (forall k :: 0 <= k < |s| ==> s[k] <= t[k] <= m) &&
      (m == mx || exists k :: 0 <= k < |t| && t[k] == m))
    decreases end - i
  {
    if !(i >= end || i == |s|) && PyIndex(|s|, i).Success? {
      var idx := PyIndex(|s|, i).value;
      var v := s[idx] + 1;
      var s' := s[idx := v];
      var mx' := if v > mx then v else mx;
      CoverBounds(s', i + 1, end, mx');
      if Cover(s, i, end, mx).Success? {
        var (t, m) := Cover(s, i, end, mx).value;
        if m == mx' && mx' != mx {
          assert t[idx] == m;
        }
      }
    }
  }

  /** One alignment: its key is looked up first (line 178); an alignment
      whose key or gi has no record changes nothing. */
  function Step(cov: Coverage, gisToTaxids: map<string, string>, a: Alignment, mx: int): (r: Result<(Coverage, int)>)
    requires DictsValid(cov)
    ensures r.Success? ==> r.value.0.Keys == cov.Keys && DictsValid(r.value.0)
    ensures r.Success? ==> forall key :: key in cov ==> r.value.0[key].keys == cov[key].keys
  {
    var key :- TaxKey(gisToTaxids, a.gi);
    if key !in cov || a.gi !in cov[key].entries then Success((cov, mx))
    else
      var e := cov[key].entries[a.gi];
      var c :- Cover(e.sequence, a.position, a.position + a.length, mx);
      Success((cov[key := cov[key].Put(a.gi, e.(sequence := c.0))], c.1))
  }

  /** An alignment whose key has no record, or whose gi has none under that
      key, leaves the coverage and the maximum as they were. */
  lemma StepSkips(cov: Coverage, gisToTaxids: map<string, string>, a: Alignment, mx: int)
    requires DictsValid(cov) && a.gi in gisToTaxids
    requires TaxKey(gisToTaxids, a.gi).value !in cov || a.gi !in cov[TaxKey(gisToTaxids, a.gi).value].entries
    ensures Step(cov, gisToTaxids, a, mx) == Success((cov, mx))
  {
  }

  /** A recorded alignment starting inside its gi's vector (or just after
      it) adds one at the covered positions of that vector and changes no
      other vector. */
  lemma StepAdds(cov: Coverage, gisToTaxids: map<string, string>, a: Alignment, mx: int, key: string)
    requires DictsValid(cov) && a.gi in gisToTaxids && key == TaxKey(gisToTaxids, a.gi).value
    requires key in cov && a.gi in cov[key].entries
    requires 0 <= a.position <= |cov[key].entries[a.gi].sequence|
    ensures Step(cov, gisToTaxids, a, mx).Success?
    ensures var c := Step(cov, gisToTaxids, a, mx).value.0;
      var s := cov[key].entries[a.gi].sequence;
      c[key].entries[a.gi] == cov[key].entries[a.gi].(sequence := c[key].entries[a.gi].sequence) &&
      |c[key].entries[a.gi].sequence| == |s| &&
      (forall k :: 0 <= k < |s| ==>
        c[key].entries[a.gi].sequence[k] == s[k] + (if a.position <= k < a.position + a.length then 1 else 0)) &&
      (forall key', gi :: key' in cov && gi in cov[key'].entries && (key' != key || gi != a.gi) ==>
        c[key'].entries[gi] == cov[key'].entries[gi])
  {
    var e := cov[key].entries[a.gi];
    CoverAdds(e.sequence, a.position, a.position + a.length, mx);
  }

  /** `mx` is the largest value of all coverage vectors, or 0 when all are
      empty or zero: no value is above it, and a positive `mx` is a
      value. */
  ghost predicate IsMax(cov: Coverage, mx: int) {
    mx >= 0 &&
    (forall key, gi, k :: key in cov && gi in cov[key].entries && 0 <= k < |cov[key].entries[gi].sequence| ==>
      cov[key].entries[gi].sequence[k] <= mx) &&
    (mx == 0 || exists key, gi, k :: (key in cov && gi in cov[key].entries &&
      0 <= k < |cov[key].entries[gi].sequence| && cov[key].entries[gi].sequence[k] == mx))
  }

  /** `cov` with the vector of `gi` under `key` replaced by `t`. */
  function Replaced(cov: Coverage, key: string, gi: string, t: seq<int>): Coverage
    requires key in cov && gi in cov[key].entries
  {
    cov[key := cov[key].Put(gi, cov[key].entries[gi].(sequence := t))]
  }

  /** Replacing one vector leaves every other record as it was. */
  lemma ReplacedOthers(cov: Coverage, key: string, gi: string, t: seq<int>)
    requires key in cov && gi in cov[key].entries
    ensures var c := Replaced(cov, key, gi, t);
      c.Keys == cov.Keys &&
      (forall key' :: key' in cov ==> c[key'].entries.Keys == cov[key'].entries.Keys) &&
      c[key].entries[gi].sequence == t &&
      forall key', gi' :: key' in cov && gi' in cov[key'].entries && (key' != key || gi' != gi) ==>
        c[key'].entries[gi'] == cov[key'].entries[gi']
  {
  }

  /** Replacing one vector by a pointwise larger one, bounded by a new
      maximum `m` that is the old one or one of its values, keeps `m` the
      maximum. */
  lemma ReplacedMax(cov: Coverage, mx: int, key: string, gi: string, t: seq<int>, m: int)
    requires IsMax(cov, mx) && key in cov && gi in cov[key].entries
    requires |t| == |cov[key].entries[gi].sequence| && mx <= m
    requires forall k :: 0 <= k < |t| ==> cov[key].entries[gi].sequence[k] <= t[k] <= m
    requires m == mx || exists k :: 0 <= k < |t| && t[k] == m
    ensures IsMax(Replaced(cov, key, gi, t), m)
  {
    var c := Replaced(cov, key, gi, t);
    ReplacedOthers(cov, key, gi, t);
    forall key', gi', k | key' in c && gi' in c[key'].entries && 0 <= k < |c[key'].entries[gi'].sequence|
      ensures c[key'].entries[gi'].sequence[k] <= m
    {
      if key' != key || gi' != gi {
        assert c[key'].entries[gi'] == cov[key'].entries[gi'];
      }
    }
    if m == mx && mx != 0 {
      var key', gi', k :| key' in cov && gi' in cov[key'].entries &&
        0 <= k < |cov[key'].entries[gi'].sequence| && cov[key'].entries[gi'].sequence[k] == mx;
      if key' == key && gi' == gi {
        assert c[key].entries[gi].sequence[k] == m;
      } else {
        assert c[key'].entries[gi'] == cov[key'].entries[gi'];
      }
    } else if m != mx {
      var k :| 0 <= k < |t| && t[k] == m;
      assert c[key].entries[gi].sequence[k] == m;
    }
  }

  /** Each alignment keeps `max_coverage` the largest coverage value. */
  lemma StepMax(cov: Coverage, gisToTaxids: map<string, string>, a: Alignment, mx: int)
    requires DictsValid(cov) && IsMax(cov, mx)
    requires Step(cov, gisToTaxids, a, mx).Success?
    ensures IsMax(Step(cov, gisToTaxids, a, mx).value.0, Step(cov, gisToTaxids, a, mx).value.1)
  {
    var key := TaxKey(gisToTaxids, a.gi).value;
    if key in cov && a.gi in cov[key].entries {
      var e := cov[key].entries[a.gi];
      CoverBounds(e.sequence, a.position, a.position + a.length, mx);
      var (t, m) := Cover(e.sequence, a.position, a.position + a.length, mx).value;
      assert Step(cov, gisToTaxids, a, mx).value == (Replaced(cov, key, a.gi, t), m);
      ReplacedMax(cov, mx, key, a.gi, t, m);
    }
  }

  /** The second loop over the first alignments. */
  function Apply(cov: Coverage, gisToTaxids: map<string, string>, als: seq<Alignment>, mx: int)
    : (r: Result<(Coverage, int)>)
    requires DictsValid(cov)
    ensures r.Success? ==> DictsValid(r.value.0)
    decreases |als|
  {
    if als == [] then Success((cov, mx))
    else
      var acc :- Apply(cov, gisToTaxids, als[..|als| - 1], mx);
      Step(acc.0, gisToTaxids, als[|als| - 1], acc.1)
  }

  lemma {:induction false} ApplyMax(cov: Coverage, gisToTaxids: map<string, string>, als: seq<Alignment>, mx: int)
    requires DictsValid(cov) && IsMax(cov, mx)
    requires Apply(cov, gisToTaxids, als, mx).Success?
    ensures IsMax(Apply(cov, gisToTaxids, als, mx).value.0, Apply(cov, gisToTaxids, als, mx).value.1)
    decreases |als|
  {
    if als != [] {
      var init := als[..|als| - 1];
      ApplyMax(cov, gisToTaxids, init, mx);
      var acc := Apply(cov, gisToTaxids, init, mx).value;
      StepMax(acc.0, gisToTaxids, als[|als| - 1], acc.1);
    }
  }

  /** `_parse_summary_data(sample, gis_to_taxids)`. */
  function ParseSummary(sample: Sample, gisToTaxids: map<string, string>): (r: Result<(Coverage, int)>) {
    var cov :- Register(gisToTaxids, sample.sequences);
    Apply(cov, gisToTaxids, sample.alignments, 0)
  }

  /** The returned `max_coverage` is the largest value of all coverage
      vectors, or 0 when there is none. */
  lemma ParseSummaryMax(sample: Sample, gisToTaxids: map<string, string>)
    requires ParseSummary(sample, gisToTaxids).Success?
    ensures IsMax(ParseSummary(sample, gisToTaxids).value.0, ParseSummary(sample, gisToTaxids).value.1)
  {
    var cov := Register(gisToTaxids, sample.sequences).value;
    assert IsMax(cov, 0);
    ApplyMax(cov, gisToTaxids, sample.alignments, 0);
  }

  /** The loop of lines 190-196 on one coverage vector. */
  method CoverRange(sequence: seq<int>, position: int, length: int, maxCoverage: int)
    returns (r: Result<(seq<int>, int)>)
    ensures r == Cover(sequence, position, position + length, maxCoverage)
  {
    var s := sequence;
    var mx := maxCoverage;
    var i := position;
    while i < position + length
      invariant Cover(sequence, position, position + length, maxCoverage) == Cover(s, i, position + length, mx)
      decreases position + length - i
    {
      if i == |s| {
        break;
      }
      var idx := PyIndex(|s|, i);
      if idx.Failure? {
        return Failure(IndexError);
      }
      s := s[idx.value := s[idx.value] + 1];
      if s[idx.value] > mx {
        mx := s[idx.value];
      }
      i := i + 1;
    }
    return Success((s, mx));
  }

  /** One pass of the first loop. */
  method AddSequence(coverage: Coverage, gisToTaxids: map<string, string>, sequence: Sequence)
    returns (r: Result<Coverage>)
    ensures r == (
      match TaxKey(gisToTaxids, sequence.gi)
      case Failure(err) => Failure(err)
      case Success(key) =>
        Success(coverage[key := (if key in coverage then coverage[key] else EmptyDict()).Put(sequence.gi, Fresh(sequence.length))]))
  {
    if sequence.gi !in gisToTaxids {
      return Failure(KeyError(sequence.gi));
    }
    var taxId := Join("|", [SciName, gisToTaxids[sequence.gi]]);
    var entries := if taxId in coverage then coverage[taxId] else EmptyDict();
    var zeros := if sequence.length <= 0 then [] else seq(sequence.length, _ => 0);
    return Success(coverage[taxId := entries.Put(sequence.gi, GiStats(sequence.length, 0, 0.0, 0, 0, 0, zeros))]);
  }

  /** One pass of the second loop. */
  method AddAlignment(coverage: Coverage, gisToTaxids: map<string, string>, alignment: Alignment, maxCoverage: int)
    returns (r: Result<(Coverage, int)>)
    requires DictsValid(coverage)
    ensures r == Step(coverage, gisToTaxids, alignment, maxCoverage)
  {
    var gi := alignment.gi;
    if gi !in gisToTaxids {
      return Failure(KeyError(gi));
    }
    var taxId := Join("|", [SciName, gisToTaxids[gi]]);
    if taxId !in coverage {
      return Success((coverage, maxCoverage));
    }
    if gi !in coverage[taxId].entries {
      return Success((coverage, maxCoverage));
    }
    var e := coverage[taxId].entries[gi];
    var c := CoverRange(e.sequence, alignment.position, alignment.length, maxCoverage);
    if c.Failure? {
      return Failure(c.error);
    }
    return Success((coverage[taxId := coverage[taxId].Put(gi, e.(sequence := c.value.0))], c.value.1));
  }

  /** Lines 154-197. */
  method ParseSummaryData(sample: Sample, gisToTaxids: map<string, string>) returns (r: Result<(Coverage, int)>)
    ensures r == ParseSummary(sample, gisToTaxids)
  {
    var seqs := sample.sequences;
    var coverage: Coverage := map[];
    var i := 0;
    while i < |seqs|
      invariant 0 <= i <= |seqs|
      invariant Register(gisToTaxids, seqs[..i]) == Success(coverage)
    {
      RegisterNext(gisToTaxids, seqs, i, coverage);
      var next := AddSequence(coverage, gisToTaxids, seqs[i]);
      if next.Failure? {
        RegisterFailed(gisToTaxids, seqs, i + 1);
        return Failure(next.error);
      }
      coverage := next.value;
      i := i + 1;
    }
    assert seqs[..i] == seqs;
    ghost var cov0 := coverage;
    var als := sample.alignments;
    var maxCoverage := 0;
    var j := 0;
    while j < |als|
      invariant 0 <= j <= |als|
      invariant DictsValid(coverage)
      invariant Apply(cov0, gisToTaxids, als[..j], 0) == Success((coverage, maxCoverage))
    {
      ApplyNext(cov0, gisToTaxids, als, j, coverage, maxCoverage);
      var next := AddAlignment(coverage, gisToTaxids, als[j], maxCoverage);
      if next.Failure? {
        ApplyFailed(cov0, gisToTaxids, als, 0, j + 1);
        return Failure(next.error);
      }
      coverage, maxCoverage := next.value.0, next.value.1;
      j := j + 1;
    }
    assert als[..j] == als;
    return Success((coverage, maxCoverage));
  }

  /** One more sequence registers into the coverage of the prefix. */
  lemma RegisterNext(gisToTaxids: map<string, string>, seqs: seq<Sequence>, i: nat, cov: Coverage)
    requires i < |seqs| && Register(gisToTaxids, seqs[..i]) == Success(cov)
    ensures Register(gisToTaxids, seqs[..i + 1]) == (
      match TaxKey(gisToTaxids, seqs[i].gi)
      case Failure(err) => Failure(err)
      case Success(key) =>
        Success(cov[key := (if key in cov then cov[key] else EmptyDict()).Put(seqs[i].gi, Fresh(seqs[i].length))]))
  {
    assert seqs[..i + 1][..i] == seqs[..i];
  }

  /** One more alignment applies as a `Step` on the result of the prefix. */
  lemma ApplyNext(cov0: Coverage, gisToTaxids: map<string, string>, als: seq<Alignment>, j: nat, cov: Coverage, mx: int)
    requires DictsValid(cov0) && j < |als| && Apply(cov0, gisToTaxids, als[..j], 0) == Success((cov, mx))
    ensures DictsValid(cov) && Apply(cov0, gisToTaxids, als[..j + 1], 0) == Step(cov, gisToTaxids, als[j], mx)
  {
    assert als[..j + 1][..j] == als[..j];
  }

  lemma {:induction false} RegisterFailed(gisToTaxids: map<string, string>, seqs: seq<Sequence>, i: nat)
    requires i <= |seqs| && Register(gisToTaxids, seqs[..i]).Failure?
    ensures Register(gisToTaxids, seqs) == Register(gisToTaxids, seqs[..i])
    decreases |seqs| - i
  {
    if i < |seqs| {
      assert seqs[..i + 1][..i] == seqs[..i];
      RegisterFailed(gisToTaxids, seqs, i + 1);
    } else {
      assert seqs[..i] == seqs;
    }
  }

  lemma {:induction false} ApplyFailed(cov: Coverage, gisToTaxids: map<string, string>, als: seq<Alignment>, mx: int,
                                       i: nat)
    requires DictsValid(cov)
    requires i <= |als| && Apply(cov, gisToTaxids, als[..i], mx).Failure?
    ensures Apply(cov, gisToTaxids, als, mx) == Apply(cov, gisToTaxids, als[..i], mx)
    decreases |als| - i
  {
    if i < |als| {
      assert als[..i + 1][..i] == als[..i];
      ApplyFailed(cov, gisToTaxids, als, mx, i + 1);
    } else {
      assert als[..i] == als;
    }
  }

  // ---------------------------------------------------------------------
  // _calculate_coverage_stats (lines 229-249)

  /** The number of bases covered at least once. */
  function Positives(s: seq<int>): (n: nat)
    ensures n <= |s|
    ensures n == |s| <==> forall k :: 0 <= k < |s| ==> s[k] > 0
    ensures n == 0 <==> forall k :: 0 <= k < |s| ==> s[k] <= 0
    decreases |s|
  {
    if s == [] then 0
    else
      var init := s[..|s| - 1];
      assert forall k :: 0 <= k < |init| ==> init[k] == s[k];
      Positives(init) + (if s[|s| - 1] > 0 then 1 else 0)
  }

  /** The loop of lines 242-245. */
  method AbsoluteCoverage(sequence: seq<int>) returns (n: int)
    ensures n == Positives(sequence)
  {
    n := 0;
    var i := 0;
    while i < |sequence|
      invariant 0 <= i <= |sequence|
      invariant n == Positives(sequence[..i])
    {
      assert sequence[..i + 1][..i] == sequence[..i];
      if sequence[i] > 0 {
        n := n + 1;
      }
      i := i + 1;
    }
    assert sequence[..i] == sequence;
  }

  /** A gi's record with its absolute and relative coverage set. */
  function Stated(e: GiStats): (r: GiStats)
    requires |e.sequence| > 0
    ensures 0 <= r.absCoverage <= |e.sequence|
    ensures r.absCoverage == Positives(e.sequence)
    ensures r.relCoverage == r.absCoverage as real / |e.sequence| as real
    ensures r == e.(absCoverage := r.absCoverage, relCoverage := r.relCoverage)
  {
    var n := Positives(e.sequence);
    e.(absCoverage := n, relCoverage := n as real / |e.sequence| as real)
  }

  /** The stats of one tax id's gis: `ZeroDivisionError` when some gi has an
      empty coverage vector (`absolute_coverage / len(sequence)`),
      otherwise every record stated and the gis in their order. */
  function CoverageStats(d: Dict<string, GiStats>): (r: Result<Dict<string, GiStats>>)
    ensures r.Failure? <==> exists gi :: gi in d.entries && |d.entries[gi].sequence| == 0
    ensures r.Success? ==> r.value.keys == d.keys && r.value.entries.Keys == d.entries.Keys
    ensures r.Success? ==> forall gi :: gi in d.entries ==>
      0 <= r.value.entries[gi].absCoverage <= |d.entries[gi].sequence| &&
      r.value.entries[gi].absCoverage == Positives(d.entries[gi].sequence) &&
      r.value.entries[gi].sequence == d.entries[gi].sequence
  {
    if exists gi :: gi in d.entries && |d.entries[gi].sequence| == 0 then Failure(ZeroDivisionError)
    else Success(Dict(d.keys, map gi | gi in d.entries :: Stated(d.entries[gi])))
  }

  /** The gis of `done` stated, the others as they were. */
  ghost predicate StatedSoFar(coverage: map<string, GiStats>, entries: map<string, GiStats>, done: set<string>) {
    entries.Keys == coverage.Keys &&
    (forall gi :: gi in coverage && gi in done ==> |coverage[gi].sequence| > 0 && entries[gi] == Stated(coverage[gi])) &&
    (forall gi :: gi in coverage && gi !in done ==> entries[gi] == coverage[gi])
  }

  lemma StatedStep(coverage: map<string, GiStats>, entries: map<string, GiStats>, done: set<string>, gi: string)
    requires StatedSoFar(coverage, entries, done)
    requires gi in coverage && gi !in done && |coverage[gi].sequence| > 0
    ensures StatedSoFar(coverage, entries[gi := Stated(coverage[gi])], done + {gi})
  {
  }

  lemma StatedAll(coverage: map<string, GiStats>, entries: map<string, GiStats>, done: set<string>)
    requires StatedSoFar(coverage, entries, done) && coverage.Keys <= done
    ensures entries == map gi | gi in coverage :: Stated(coverage[gi])
    ensures !exists gi :: gi in coverage && |coverage[gi].sequence| == 0
  {
  }

  /** Lines 235-249, visiting the gis in dict order (the source sorts them
      first; each gi's update is independent of the others). */
  method CalculateCoverageStats(coverage: Dict<string, GiStats>) returns (r: Result<Dict<string, GiStats>>)
    requires coverage.Valid()
    ensures r == CoverageStats(coverage)
  {
    var keys := coverage.keys;
    var entries := coverage.entries;
    ghost var done: set<string> := {};
    var i := 0;
    while i < |keys|
      invariant 0 <= i <= |keys|
      invariant StatedSoFar(coverage.entries, entries, done)
      invariant forall j :: 0 <= j < i ==> keys[j] in done
      invariant forall j :: i <= j < |keys| ==> keys[j] !in done
    {
      var gi := entries[keys[i]];
      var sequence := gi.sequence;
      var absoluteCoverage := AbsoluteCoverage(sequence);
      if |sequence| == 0 {
        return Failure(ZeroDivisionError);
      }
      StatedStep(coverage.entries, entries, done, keys[i]);
      entries := entries[keys[i] := gi.(absCoverage := absoluteCoverage,
                                        relCoverage := absoluteCoverage as real / |sequence| as real)];
      done := done + {keys[i]};
      i := i + 1;
    }
    StatedAll(coverage.entries, entries, done);
    return Success(Dict(keys, entries));
  }

  // ---------------------------------------------------------------------
  // _order_results (lines 200-226)

  /** The statistic the gis are ordered by. */
  datatype Stat = ByAbsCoverage | ByRelCoverage | ByTotalHits | ByInformHits | ByUniqueHits

  /** `order_method.upper()` compared with the five names; any other name
      orders by absolute coverage. */
  function ChosenStat(orderMethod: string): Stat {
    var m := AsciiUpper(orderMethod);
    if m == "ABSOLUTE_COVERAGE" then ByAbsCoverage
    else if m == "RELATIVE_COVERAGE" then ByRelCoverage
    else if m == "TOTAL_HITS" then ByTotalHits
    else if m == "INFORMATIVE_HITS" then ByInformHits
    else if m == "UNIQUE_HITS" then ByUniqueHits
    else ByAbsCoverage
  }

  /** The name is compared without regard to case: a name and its upper
      case choose the same statistic. */
  lemma ChosenStatCase(orderMethod: string)
    ensures ChosenStat(AsciiUpper(orderMethod)) == ChosenStat(orderMethod)
  {
    UpperIdempotent(orderMethod);
  }

  lemma {:induction false} UpperIdempotent(s: string)
    ensures AsciiUpper(AsciiUpper(s)) == AsciiUpper(s)
    decreases |s|
  {
    if s != [] {
      UpperIdempotent(s[1..]);
      var u := AsciiUpper(s);
      assert u[1..] == AsciiUpper(s[1..]);
    }
  }

  function StatValue(e: GiStats, st: Stat): real {
    match st
    case ByAbsCoverage => e.absCoverage as real
    case ByRelCoverage => e.relCoverage
    case ByTotalHits => e.totalHits as real
    case ByInformHits => e.informHits as real
    case ByUniqueHits => e.uniqueHits as real
  }

  /** The sort key of every gi. */
  function StatKey(d: Dict<string, GiStats>, st: Stat): (key: map<string, real>)
    ensures key.Keys == d.entries.Keys
  {
    map gi | gi in d.entries :: StatValue(d.entries[gi], st)
  }

  /** Placing `x` into a list sorted by descending key: after every item
      whose key is at least its own. */
  function Insert(x: string, s: seq<string>, key: map<string, real>): (r: seq<string>)
    requires x in key && forall y :: y in s ==> y in key
    ensures multiset(r) == multiset(s) + multiset{x}
    ensures forall y :: y in r ==> y in key
    decreases |s|
  {
    if s == [] || key[s[|s| - 1]] >= key[x] then s + [x]
    else
      var init := s[..|s| - 1];
      assert s == init + [s[|s| - 1]];
      Insert(x, init, key) + [s[|s| - 1]]
  }

  /** `list.sort(key=..., reverse=True)`: a stable sort by descending key,
      inserting the items one after the other. */
  function SortDesc(ks: seq<string>, key: map<string, real>): (r: seq<string>)
    requires forall y :: y in ks ==> y in key
    ensures multiset(r) == multiset(ks)
    ensures forall y :: y in r ==> y in key
    decreases |ks|
  {
    if ks == [] then []
    else
      var init := ks[..|ks| - 1];
      assert ks == init + [ks[|ks| - 1]];
      Insert(ks[|ks| - 1], SortDesc(init, key), key)
  }

  ghost predicate Descending(s: seq<string>, key: map<string, real>)
    requires forall y :: y in s ==> y in key
  {
    forall i, j :: 0 <= i < j < |s| ==> key[s[i]] >= key[s[j]]
  }

  lemma {:induction false} InsertDescending(x: string, s: seq<string>, key: map<string, real>)
    requires x in key && forall y :: y in s ==> y in key
    requires Descending(s, key)
    ensures Descending(Insert(x, s, key), key)
    decreases |s|
  {
    if !(s == [] || key[s[|s| - 1]] >= key[x]) {
      var init := s[..|s| - 1];
      var last := s[|s| - 1];
      InsertDescending(x, init, key);
      var r := Insert(x, init, key);
      assert multiset(r) == multiset(init) + multiset{x};
      forall y | y in r
        ensures key[y] >= key[last]
      {
        assert y in multiset(r);
        if y != x {
          var i :| 0 <= i < |init| && init[i] == y;
          assert s[i] == y;
        }
      }
    }
  }

  /** The items with key `v`, in order. */
  function WithKey(s: seq<string>, key: map<string, real>, v: real): seq<string>
    requires forall y :: y in s ==> y in key
    decreases |s|
  {
    if s == [] then []
    else WithKey(s[..|s| - 1], key, v) + (if key[s[|s| - 1]] == v then [s[|s| - 1]] else [])
  }

  /** Inserting keeps the order of the items with the inserted key: the
      new one comes after them. */
  lemma {:induction false} InsertStable(x: string, s: seq<string>, key: map<string, real>, v: real)
    requires x in key && forall y :: y in s ==> y in key
    ensures WithKey(Insert(x, s, key), key, v) == WithKey(s, key, v) + (if key[x] == v then [x] else [])
    decreases |s|
  {
    if s == [] || key[s[|s| - 1]] >= key[x] {
      assert (s + [x])[..|s|] == s;
    } else {
      var init := s[..|s| - 1];
      var last := s[|s| - 1];
      InsertStable(x, init, key, v);
      var r := Insert(x, init, key);
      assert (r + [last])[..|r|] == r;
    }
  }

  /** The sort is stable: the items of any one key keep their order. */
  lemma {:induction false} SortStable(ks: seq<string>, key: map<string, real>, v: real)
    requires forall y :: y in ks ==> y in key
    ensures WithKey(SortDesc(ks, key), key, v) == WithKey(ks, key, v)
    decreases |ks|
  {
    if ks != [] {
      var init := ks[..|ks| - 1];
      SortStable(init, key, v);
      assert forall y :: y in SortDesc(init, key) ==> y in multiset(init);
      InsertStable(ks[|ks| - 1], SortDesc(init, key), key, v);
    }
  }

  lemma {:induction false} SortDescending(ks: seq<string>, key: map<string, real>)
    requires forall y :: y in ks ==> y in key
    ensures Descending(SortDesc(ks, key), key)
    decreases |ks|
  {
    if ks != [] {
      var init := ks[..|ks| - 1];
      SortDescending(init, key);
      assert forall y :: y in SortDesc(init, key) ==> y in multiset(init);
      InsertDescending(ks[|ks| - 1], SortDesc(init, key), key);
    }
  }

  /** `references[:total_results]`: a negative end counts from the end. */
  function PySliceTo<T>(s: seq<T>, stop: int): (r: seq<T>)
    ensures |r| <= |s| && r == s[..|r|]
    ensures stop >= 0 ==> |r| == (if stop < |s| then stop else |s|)
    ensures stop < 0 ==> |r| == (if -stop < |s| then |s| + stop else 0)
  {
    var e := if stop < 0 then (if stop + |s| < 0 then 0 else stop + |s|) else (if stop > |s| then |s| else stop);
    s[..e]
  }

  /** What `_order_results` returns. */
  function Ordered(taxId: Dict<string, GiStats>, orderMethod: string, totalResults: int): seq<string>
    requires taxId.Valid()
  {
    PySliceTo(SortDesc(taxId.keys, StatKey(taxId, ChosenStat(orderMethod))), totalResults)
  }

  /** The result is a duplicate-free selection of the tax id's gis, ordered
      by descending statistic, of `min(total_results, #gis)` gis for a
      non-negative `total_results`, and no gi left out ranks above one
      kept. */
  lemma OrderedSpec(taxId: Dict<string, GiStats>, orderMethod: string, totalResults: int)
    requires taxId.Valid()
    ensures var r := Ordered(taxId, orderMethod, totalResults);
      var key := StatKey(taxId, ChosenStat(orderMethod));
      Distinct(r) && (forall g :: g in r ==> g in taxId.entries) &&
      (totalResults >= 0 ==> |r| == if totalResults < |taxId.keys| then totalResults else |taxId.keys|) &&
      Descending(r, key) &&
      (forall g, h :: g in r && h in taxId.entries && h !in r ==> key[g] >= key[h])
  {
    var key := StatKey(taxId, ChosenStat(orderMethod));
    var full := SortDesc(taxId.keys, key);
    var r := Ordered(taxId, orderMethod, totalResults);
    SortDescending(taxId.keys, key);
    SortRearranges(taxId.keys, key);
    TopPrefix(full, |r|, key);
  }

  /** A prefix of a duplicate-free descending list is duplicate-free and
      descending, and ranks every item it leaves out at most as high as
      every item it keeps. */
  lemma TopPrefix(full: seq<string>, n: nat, key: map<string, real>)
    requires n <= |full| && forall y :: y in full ==> y in key
    requires Distinct(full) && Descending(full, key)
    ensures var r := full[..n];
      Distinct(r) && Descending(r, key) &&
      forall g, h :: g in r && h in full && h !in r ==> key[g] >= key[h]
  {
    var r := full[..n];
    forall g, h | g in r && h in full && h !in r
      ensures key[g] >= key[h]
    {
      var i :| 0 <= i < |r| && r[i] == g;
      var j :| 0 <= j < |full| && full[j] == h;
      assert full[i] == g;
    }
  }

  /** Sorting a duplicate-free list rearranges it: same length, same items,
      still duplicate-free. */
  lemma SortRearranges(ks: seq<string>, key: map<string, real>)
    requires forall y :: y in ks ==> y in key
    requires Distinct(ks)
    ensures var full := SortDesc(ks, key);
      |full| == |ks| && (forall g :: g in full <==> g in ks) && Distinct(full)
  {
    var full := SortDesc(ks, key);
    assert |full| == |ks| by {
      assert |multiset(full)| == |multiset(ks)|;
    }
    forall g
      ensures g in full <==> g in ks
    {
      assert g in full <==> g in multiset(full);
    }
    DistinctMultiset(ks, full);
  }

  /** A rearrangement of a duplicate-free list is duplicate-free. */
  lemma DistinctMultiset(a: seq<string>, b: seq<string>)
    requires Distinct(a) && multiset(a) == multiset(b)
    ensures Distinct(b)
  {
    forall i, j | 0 <= i < j < |b|
      ensures b[i] != b[j]
    {
      DistinctCount(a, b[i]);
      if b[i] == b[j] {
        TwoCount(b, i, j);
      }
    }
  }

  lemma TwoCount(b: seq<string>, i: nat, j: nat)
    requires i < j < |b| && b[i] == b[j]
    ensures multiset(b)[b[i]] >= 2
  {
    assert b == b[..i] + [b[i]] + b[i + 1..j] + [b[j]] + b[j + 1..];
  }

  lemma {:induction false} DistinctCount(a: seq<string>, x: string)
    requires Distinct(a)
    ensures multiset(a)[x] <= 1
    decreases |a|
  {
    if a != [] {
      var init := a[..|a| - 1];
      assert a == init + [a[|a| - 1]];
      DistinctCount(init, x);
      if a[|a| - 1] == x {
        assert x !in init by {
          assert forall i :: 0 <= i < |init| ==> init[i] == a[i] != a[|a| - 1];
        }
      }
    }
  }

  // ---------------------------------------------------------------------
  // _bin_sequence (lines 337-367)

  /** The bases of a bin added up. */
  function Sum(xs: seq<int>): int {
    if xs == [] then 0 else Sum(xs[..|xs| - 1]) + xs[|xs| - 1]
  }

  /** The average of a bin; an empty bin has none and gives 0. */
  function Mean(xs: seq<int>): real {
    if xs == [] then 0.0 else Sum(xs) as real / |xs| as real
  }

  function Fill(v: real, n: nat): (r: seq<real>)
    ensures |r| == n && forall i :: 0 <= i < n ==> r[i] == v
  {
    seq(n, _ => v)
  }

  /** The number of bases a bin spans: `n % bin_size == 0` starts a new bin
      every `|bin_size|` bases, for a negative size as well. A zero size
      only ever bins a single base. */
  function BinWidth(binSize: int): (w: nat)
    ensures w > 0
  {
    if binSize == 0 then 1 else if binSize < 0 then -binSize else binSize
  }

  /** Binning as the docstring describes it: the sequence cut into bins of
      `w` bases from the start (the last one possibly shorter), and every
      base replaced by its bin's average. */
  function Bins(xs: seq<int>, w: nat): (r: seq<real>)
    requires w > 0
    ensures |r| == |xs|
    decreases |xs|
  {
    if |xs| <= w then Fill(Mean(xs), |xs|)
    else Fill(Mean(xs[..w]), w) + Bins(xs[w..], w)
  }

  /** The number of bases in the last bin of a sequence of `n` bases. */
  function LastBin(n: nat, w: nat): nat
    requires w > 0
    decreases n
  {
    if n <= w then n else LastBin(n - w, w)
  }

  /** `_bin_sequence` as written: when the last index starts a bin (the last
      bin holds a single base and there are at least two), the loop ends
      with `mid_bin` false and the last cell keeps its initial 0. */
  function BinnedAsWritten(xs: seq<int>, w: nat): (r: seq<real>)
    requires w > 0
    ensures |r| == |xs|
  {
    if |xs| >= 2 && LastBin(|xs|, w) == 1 then Bins(xs, w)[..|xs| - 1] + [0.0]
    else Bins(xs, w)
  }

  /** `q * w`, as the start of the `q`-th bin. */
  function Times(q: nat, w: nat): nat {
    if q == 0 then 0 else Times(q - 1, w) + w
  }

  lemma {:induction false} TimesMul(q: nat, w: nat)
    ensures Times(q, w) == q * w
  {
    if q > 0 {
      TimesMul(q - 1, w);
    }
  }

  /** A base inside the bin starting at multiple `q` of `w` is a boundary
      (`n % bin_size == 0`) exactly when it is the first base past the bin.
      Python's floored remainder is zero for the same `n` as Dafny's
      Euclidean one, so the test is the same for a negative `bin_size`. */
  lemma BoundaryTest(n: int, binSize: int, q: nat)
    requires binSize != 0
    requires Times(q, BinWidth(binSize)) < n <= Times(q, BinWidth(binSize)) + BinWidth(binSize)
    ensures n % binSize == 0 <==> n == Times(q, BinWidth(binSize)) + BinWidth(binSize)
  {
    var w := BinWidth(binSize);
    TimesMul(q, w);
    var sg := if binSize < 0 then -1 else 1;
    var k := sg * q;
    assert k * binSize == q * w by {
      assert binSize == sg * w;
      assert sg * sg == 1;
      assert k * binSize == (sg * sg) * (q * w);
    }
    if n == q * w + w {
      assert n == (k + sg) * binSize by {
        assert sg * binSize == w;
      }
      ModUnique(n, binSize, k + sg, 0);
    } else {
      ModUnique(n, binSize, k, n - q * w);
    }
  }

  /** The quotient and remainder of Euclidean division are the only ones
      with the remainder in range. */
  lemma ModUnique(a: int, b: int, k: int, r: int)
    requires b != 0 && a == k * b + r && 0 <= r < (if b < 0 then -b else b)
    ensures a / b == k && a % b == r
  {
    var k0 := a / b;
    var r0 := a % b;
    assert a == k0 * b + r0;
    var d := k - k0;
    assert d * b == r0 - r by {
      assert d * b == k * b - k0 * b;
    }
    if d != 0 {
      MulAbs(d, b);
      assert false;
    }
  }

  lemma MulAbs(d: int, b: int)
    requires d != 0 && b != 0
    ensures (if d * b < 0 then -(d * b) else d * b) >= (if b < 0 then -b else b)
  {
    var ad := if d < 0 then -d else d;
    var ab := if b < 0 then -b else b;
    assert (ad - 1) * ab >= 0;
    assert ad * ab == (ad - 1) * ab + ab;
    assert (if d * b < 0 then -(d * b) else d * b) == ad * ab;
  }

  lemma SumSnoc(xs: seq<int>, a: nat, n: nat)
    requires a <= n < |xs|
    ensures Sum(xs[a..n + 1]) == Sum(xs[a..n]) + xs[n]
  {
    assert xs[a..n + 1][..n - a] == xs[a..n];
  }

  /** Closing a full bin: the rest of the sequence bins as that bin's
      average followed by the bins after it. */
  lemma BinsFull(xs: seq<int>, w: nat, b: nat)
    requires w > 0 && b + w < |xs|
    ensures Bins(xs[b..], w) == Fill(Mean(xs[b..b + w]), w) + Bins(xs[b + w..], w)
    ensures LastBin(|xs| - b, w) == LastBin(|xs| - (b + w), w)
  {
    var t := xs[b..];
    assert t[..w] == xs[b..b + w];
    assert t[w..] == xs[b + w..];
  }

  /** The loop's state while it runs: `average` sums the open bin, the cells
      before it hold their bins' averages, the rest are still 0, and the
      closed bins start at multiples of the width. */
  predicate BinState(xs: seq<int>, w: nat, cells: seq<real>, done: seq<real>, binStart: nat, n: nat, q: nat, average: real)
    requires w > 0
  {
    && OpenBin(xs, w, binStart, n, q, average)
    && FilledCells(cells, done, binStart, |xs|)
    && BinsSoFar(xs, w, done, binStart)
  }

  /** The open bin `[binStart, n)` starts at the `q`-th multiple of the
      width, has room for at most `w` bases, and `average` sums it. */
  predicate OpenBin(xs: seq<int>, w: nat, binStart: nat, n: nat, q: nat, average: real) {
    && binStart <= n <= |xs| && n <= binStart + w
    && binStart == Times(q, w)
    && average == Sum(xs[binStart..n]) as real
  }

  /** The cells before the open bin hold `done`, the others are still 0. */
  predicate FilledCells(cells: seq<real>, done: seq<real>, binStart: nat, len: nat) {
    && |cells| == len && binStart <= len
    && cells[..binStart] == done
    && (forall j :: binStart <= j < len ==> cells[j] == 0.0)
  }

  /** `done` is the binning of the closed bins, which ends where the rest
      of the sequence begins. */
  predicate BinsSoFar(xs: seq<int>, w: nat, done: seq<real>, binStart: nat)
    requires w > 0
  {
    && binStart <= |xs|
    && Bins(xs, w) == done + Bins(xs[binStart..], w)
    && LastBin(|xs|, w) == LastBin(|xs| - binStart, w)
  }

  /** One base added to the open bin, which still has room for it. */
  lemma BinStep(xs: seq<int>, w: nat, cells: seq<real>, done: seq<real>, binStart: nat, n: nat, q: nat, average: real)
    requires w > 0 && BinState(xs, w, cells, done, binStart, n, q, average)
    requires n < |xs| && n < binStart + w
    ensures BinState(xs, w, cells, done, binStart, n + 1, q, average + xs[n] as real)
  {
    SumSnoc(xs, binStart, n);
  }

  /** Lines 353-361: the full bin `[binStart, n)` gets its average in every
      cell, and a new bin opens at `n`. */
  lemma BinClose(xs: seq<int>, w: nat, cells: seq<real>, cells': seq<real>, done: seq<real>, binStart: nat, n: nat, q: nat, average: real)
    requires w > 0 && BinState(xs, w, cells, done, binStart, n, q, average)
    requires n == binStart + w && n < |xs|
    requires |cells'| == |cells| && cells'[..n] == done + Fill(average / w as real, w)
    requires forall j :: n <= j < |cells| ==> cells'[j] == cells[j]
    ensures average / w as real == Mean(xs[binStart..n])
    ensures BinState(xs, w, cells', done + Fill(average / w as real, w), n, n, q + 1, 0.0)
  {
    var avg := average / w as real;
    CloseMean(xs[binStart..n], average);
    CloseBins(xs, w, done, binStart, avg);
    assert Times(q + 1, w) == n;
    assert Sum(xs[n..n]) == 0 by {
      assert xs[n..n] == [];
    }
  }

  /** A full bin's total over its width is the bin's average. */
  lemma CloseMean(bin: seq<int>, average: real)
    requires |bin| > 0 && average == Sum(bin) as real
    ensures average / |bin| as real == Mean(bin)
  {
  }

  /** Closing a full bin moves its averaged cells from the rest to the done part. */
  lemma CloseBins(xs: seq<int>, w: nat, done: seq<real>, binStart: nat, avg: real)
    requires w > 0 && BinsSoFar(xs, w, done, binStart) && binStart + w < |xs|
    requires avg == Mean(xs[binStart..binStart + w])
    ensures BinsSoFar(xs, w, done + Fill(avg, w), binStart + w)
  {
    BinsFull(xs, w, binStart);
  }

  /** Lines 364-366: at the end the open bin is the last one. */
  lemma BinEnd(xs: seq<int>, w: nat, cells: seq<real>, done: seq<real>, binStart: nat, q: nat, average: real)
    requires w > 0 && BinState(xs, w, cells, done, binStart, |xs|, q, average) && binStart < |xs|
    ensures average / (|xs| - binStart) as real == Mean(xs[binStart..])
    ensures Bins(xs, w) == done + Fill(Mean(xs[binStart..]), |xs| - binStart)
    ensures LastBin(|xs|, w) == |xs| - binStart
    ensures cells == done + Fill(0.0, |xs| - binStart)
  {
    var t := xs[binStart..];
    assert xs[binStart..|xs|] == t;
    assert Bins(t, w) == Fill(Mean(t), |t|);
    assert cells == done + Fill(0.0, |xs| - binStart) by {
      assert cells[binStart..] == Fill(0.0, |xs| - binStart);
      assert cells == cells[..binStart] + cells[binStart..];
    }
  }

  /** As written, a loop that ends on a bin boundary leaves the last cell at
      its initial 0. */
  lemma BinLastZero(xs: seq<int>, w: nat, cells: seq<real>, done: seq<real>)
    requires w > 0 && |xs| >= 2 && LastBin(|xs|, w) == 1
    requires Bins(xs, w) == done + Fill(Mean(xs[|xs| - 1..]), 1)
    requires cells == done + Fill(0.0, 1)
    ensures cells == BinnedAsWritten(xs, w)
  {
    assert Bins(xs, w)[..|xs| - 1] == done;
  }

  /** Lines 349-358, one turn of the loop over base `n`: a boundary
      (`n > 0 and n % bin_size == 0`) fills the full bin with its average
      and opens the next one at `n`; then the base is added to the open
      bin. `closed` tells whether a bin was filled. */
  method BinTurn(xs: seq<int>, binSize: int, cells: array<real>, ghost done: seq<real>, binStart: nat, n: nat,
      ghost q: nat, average: real)
      returns (closed: bool, binStart': nat, average': real, ghost done': seq<real>, ghost q': nat)
    requires n < |xs| && cells.Length == |xs| && (n > 0 ==> binStart < n) && (binSize == 0 ==> n == 0)
    requires BinState(xs, BinWidth(binSize), cells[..], done, binStart, n, q, average)
    modifies cells
    ensures BinState(xs, BinWidth(binSize), cells[..], done', binStart', n + 1, q', average')
    ensures closed <==> n > 0 && n % binSize == 0
    ensures closed ==> binStart' == n
    ensures !closed ==> binStart' == binStart
  {
    ghost var w := BinWidth(binSize);
    closed, binStart', average', done', q' := false, binStart, average, done, q;
    if n > 0 {
      BoundaryTest(n, binSize, q);
      if n % binSize == 0 {
        closed := true;
        ghost var before := cells[..];
        var avg := average / (n - binStart) as real;
        FillRange(cells, binStart, n, avg);
        BinClose(xs, w, before, cells[..], done, binStart, n, q, average);
        done', average', binStart', q' := done + Fill(avg, w), 0.0, n, q + 1;
      }
    }
    BinStep(xs, w, cells[..], done', binStart', n, q', average');
    average' := average' + xs[n] as real;
  }

  /** Averages the coverage over bins of `bin_size` bases; `n % bin_size`
      raises `ZeroDivisionError` for a zero bin size once a second base is
      reached. This is the intended binning: the last bin is always
      filled. */
  method BinSequence(sequence: seq<int>, binSize: int) returns (r: Result<seq<real>>)
    ensures r.Failure? <==> binSize == 0 && |sequence| >= 2
    ensures r.Failure? ==> r.error == ZeroDivisionError
    ensures r.Success? ==> r.value == Bins(sequence, BinWidth(binSize))
  {
    ghost var w := BinWidth(binSize);
    var binnedData := new real[|sequence|](_ => 0.0);
    var average := 0.0;
    var binStart: nat := 0;
    var midBin := false;
    var n := 0;
    ghost var done: seq<real> := [];
    ghost var q: nat := 0;
    while n < |sequence|
      invariant BinState(sequence, w, binnedData[..], done, binStart, n, q, average)
      invariant n > 0 ==> binStart < n
      invariant binSize == 0 ==> n <= 1
      invariant midBin <==> n > 0
    {
      if n > 0 && binSize == 0 {
        return Failure(ZeroDivisionError);
      }
      var closed;
      closed, binStart, average, done, q := BinTurn(sequence, binSize, binnedData, done, binStart, n, q, average);
      midBin := true;
      n := n + 1;
    }
    FinishBins(sequence, w, binnedData, done, binStart, q, average, midBin);
    return Success(binnedData[..]);
  }

  /** `_bin_sequence` as written (see Findings): `mid_bin` is cleared when
      the last base starts a bin, so that bin is never filled. */
  method BinSequenceAsWritten(sequence: seq<int>, binSize: int) returns (r: Result<seq<real>>)
    ensures r.Failure? <==> binSize == 0 && |sequence| >= 2
    ensures r.Failure? ==> r.error == ZeroDivisionError
    ensures r.Success? ==> r.value == BinnedAsWritten(sequence, BinWidth(binSize))
  {
    ghost var w := BinWidth(binSize);
    var binnedData := new real[|sequence|](_ => 0.0);
    var average := 0.0;
    var binStart: nat := 0;
    var midBin := false;
    var n := 0;
    ghost var done: seq<real> := [];
    ghost var q: nat := 0;
    while n < |sequence|
      invariant BinState(sequence, w, binnedData[..], done, binStart, n, q, average)
      invariant n > 0 ==> binStart < n
      invariant binSize == 0 ==> n <= 1
      invariant midBin <==> n > 0 && !(n >= 2 && binStart == n - 1)
    {
      if n > 0 && binSize == 0 {
        return Failure(ZeroDivisionError);
      }
      var closed;
      closed, binStart, average, done, q := BinTurn(sequence, binSize, binnedData, done, binStart, n, q, average);
      midBin := !closed;
      n := n + 1;
    }
    FinishBins(sequence, w, binnedData, done, binStart, q, average, midBin);
    return Success(binnedData[..]);
  }

  /** Lines 363-366: when the loop ends inside a bin, the remaining bases
      are averaged over the rest of the sequence; then every cell holds
      its bin's average. */
  method FinishBins(xs: seq<int>, ghost w: nat, cells: array<real>, ghost done: seq<real>, binStart: nat,
      ghost q: nat, average: real, midBin: bool)
    requires w > 0 && cells.Length == |xs| && (|xs| > 0 ==> binStart < |xs|)
    requires BinState(xs, w, cells[..], done, binStart, |xs|, q, average)
    modifies cells
    ensures midBin ==> cells[..] == Bins(xs, w)
    ensures (midBin <==> |xs| > 0 && !(|xs| >= 2 && binStart == |xs| - 1)) ==> cells[..] == BinnedAsWritten(xs, w)
  {
    if |xs| == 0 {
      assert cells[..] == [] == Bins(xs, w);
    } else {
      BinEnd(xs, w, cells[..], done, binStart, q, average);
      if midBin {
        var avg := average / (|xs| - binStart) as real;
        FillRange(cells, binStart, |xs|, avg);
        if !(|xs| >= 2 && binStart == |xs| - 1) {
          assert BinnedAsWritten(xs, w) == Bins(xs, w);
        }
      } else if |xs| >= 2 && binStart == |xs| - 1 {
        BinLastZero(xs, w, cells[..], done);
      }
    }
  }

  /** The values of the binned cells added up. */
  function RealSum(rs: seq<real>): real {
    if rs == [] then 0.0 else RealSum(rs[..|rs| - 1]) + rs[|rs| - 1]
  }

  lemma {:induction false} SumAppend(a: seq<int>, b: seq<int>)
    ensures Sum(a + b) == Sum(a) + Sum(b)
    decreases |b|
  {
    if b != [] {
      var b' := b[..|b| - 1];
      assert (a + b)[..|a + b| - 1] == a + b';
      SumAppend(a, b');
    } else {
      assert a + b == a;
    }
  }

  lemma {:induction false} RealSumAppend(a: seq<real>, b: seq<real>)
    ensures RealSum(a + b) == RealSum(a) + RealSum(b)
    decreases |b|
  {
    if b != [] {
      var b' := b[..|b| - 1];
      assert (a + b)[..|a + b| - 1] == a + b';
      RealSumAppend(a, b');
    } else {
      assert a + b == a;
    }
  }

  lemma {:induction false} FillSum(v: real, n: nat)
    ensures RealSum(Fill(v, n)) == n as real * v
  {
    if n > 0 {
      assert Fill(v, n)[..n - 1] == Fill(v, n - 1);
      FillSum(v, n - 1);
    }
  }

  /** A bin filled with its average holds the bin's total. */
  lemma MeanFill(c: seq<int>)
    ensures RealSum(Fill(Mean(c), |c|)) == Sum(c) as real
  {
    if c != [] {
      FillMean(Mean(c), |c|, Sum(c) as real);
    }
  }

  lemma FillMean(v: real, n: nat, t: real)
    requires n > 0 && v == t / n as real
    ensures RealSum(Fill(v, n)) == t
  {
    FillSum(v, n);
    MeanTimes(t, n as real, v);
  }

  lemma MeanTimes(s: real, k: real, m: real)
    requires k != 0.0 && m == s / k
    ensures k * m == s
  {
  }

  /** The first base of the bin of width `w` that holds base `i`. */
  function BinOf(i: nat, w: nat): (s: nat)
    requires w > 0
    ensures s <= i < s + w
  {
    if i < w then 0 else BinOf(i - w, w) + w
  }

  /** The bin of base `i` starts at the multiple `(i / w) * w` of `w`. */
  lemma {:induction false} BinOfDiv(i: nat, w: nat)
    requires w > 0
    ensures BinOf(i, w) == (i / w) * w
    decreases i
  {
    if i < w {
      ModUnique(i, w, 0, i);
    } else {
      BinOfDiv(i - w, w);
      var k := (i - w) / w;
      var r := (i - w) % w;
      assert i - w == k * w + r;
      assert i == (k + 1) * w + r;
      ModUnique(i, w, k + 1, r);
      assert (k + 1) * w == k * w + w;
    }
  }

  /** The bases of the bin of width `w` that holds base `i`: from the bin's
      start, `w` bases or up to the end of the sequence. */
  function BinAt(xs: seq<int>, w: nat, i: nat): (bin: seq<int>)
    requires w > 0 && i < |xs|
    ensures 0 < |bin| <= w
  {
    var s := BinOf(i, w);
    xs[s..if s + w < |xs| then s + w else |xs|]
  }

  /** Every cell holds the average of its bin. */
  lemma {:induction false} BinsCell(xs: seq<int>, w: nat, i: nat)
    requires w > 0 && i < |xs|
    ensures Bins(xs, w)[i] == Mean(BinAt(xs, w, i))
    decreases |xs|
  {
    if |xs| <= w {
      assert BinAt(xs, w, i) == xs[0..|xs|] == xs;
    } else if i < w {
      assert Bins(xs, w)[i] == Fill(Mean(xs[..w]), w)[i];
      assert BinAt(xs, w, i) == xs[0..w] == xs[..w];
    } else {
      var rest := xs[w..];
      BinsCell(rest, w, i - w);
      assert Bins(xs, w)[i] == Bins(rest, w)[i - w] by {
        assert Bins(xs, w) == Fill(Mean(xs[..w]), w) + Bins(rest, w);
      }
      BinAtDrop(xs, w, i);
    }
  }

  /** Past the first bin, bins are those of the rest of the sequence. */
  lemma BinAtDrop(xs: seq<int>, w: nat, i: nat)
    requires 0 < w < |xs| && w <= i < |xs|
    ensures BinAt(xs, w, i) == BinAt(xs[w..], w, i - w)
  {
    var s := BinOf(i - w, w);
    var e := if s + w < |xs| - w then s + w else |xs| - w;
    assert BinOf(i, w) == s + w;
    assert xs[w..][s..e] == xs[s + w..e + w];
  }

  /** Averaging within bins keeps the total coverage: the binned cells add
      up to the sum of the bases. */
  lemma {:induction false} BinsKeepTotal(xs: seq<int>, w: nat)
    requires w > 0
    ensures RealSum(Bins(xs, w)) == Sum(xs) as real
    decreases |xs|
  {
    if |xs| <= w {
      MeanFill(xs);
    } else {
      MeanFill(xs[..w]);
      BinsKeepTotal(xs[w..], w);
      RealSumAppend(Fill(Mean(xs[..w]), w), Bins(xs[w..], w));
      assert xs == xs[..w] + xs[w..];
      SumAppend(xs[..w], xs[w..]);
    }
  }

  /** A last bin of a single base holds that base. */
  lemma {:induction false} BinsLastSingle(xs: seq<int>, w: nat)
    requires w > 0 && |xs| > 0 && LastBin(|xs|, w) == 1
    ensures Bins(xs, w)[|xs| - 1] == xs[|xs| - 1] as real
    decreases |xs|
  {
    if |xs| <= w {
      assert xs == [xs[0]];
      assert Sum(xs) == Sum([]) + xs[0];
    } else {
      BinsLastSingle(xs[w..], w);
    }
  }

  /** As written, a sequence whose last base starts a bin loses that base's
      coverage: the cells add up to the total without the last base. */
  lemma BinnedAsWrittenDropsLast(xs: seq<int>, w: nat)
    requires w > 0 && |xs| >= 2 && LastBin(|xs|, w) == 1
    ensures BinnedAsWritten(xs, w)[|xs| - 1] == 0.0
    ensures RealSum(BinnedAsWritten(xs, w)) == (Sum(xs) - xs[|xs| - 1]) as real
  {
    var b := Bins(xs, w);
    var init := b[..|xs| - 1];
    BinsKeepTotal(xs, w);
    BinsLastSingle(xs, w);
    assert b[..|b| - 1] == init;
    assert RealSum(b) == RealSum(init) + xs[|xs| - 1] as real;
    assert BinnedAsWritten(xs, w)[..|xs| - 1] == init;
  }

  /** Otherwise the binning as written is the intended one. */
  lemma BinnedAsWrittenAgrees(xs: seq<int>, w: nat)
    requires w > 0 && !(|xs| >= 2 && LastBin(|xs|, w) == 1)
    ensures BinnedAsWritten(xs, w) == Bins(xs, w)
  {
  }

  /** `[5, 7]` with `bin_size = 1`: the source gives `[5, 0]`, the intended
      binning `[5, 7]`. */
  lemma BinAsWrittenExample()
    ensures BinnedAsWritten([5, 7], 1) == [5.0, 0.0]
    ensures Bins([5, 7], 1) == [5.0, 7.0]
  {
    var xs := [5, 7];
    assert xs[1..] == [7];
    assert xs[..1] == [5];
    assert Sum([5]) == 5 by {
      assert [5][..0] == [];
    }
    assert Sum([7]) == 7 by {
      assert [7][..0] == [];
    }
    assert LastBin(2, 1) == 1;
  }

  /** `cells[lo:hi] = [v] * (hi - lo)`. */
  method FillRange(cells: array<real>, lo: nat, hi: nat, v: real)
    requires lo <= hi <= cells.Length
    modifies cells
    ensures cells[..hi] == old(cells[..lo]) + Fill(v, hi - lo)
    ensures forall j :: hi <= j < cells.Length ==> cells[j] == old(cells[j])
  {
    var k := lo;
    while k < hi
      invariant lo <= k <= hi
      invariant cells[..k] == old(cells[..lo]) + Fill(v, k - lo)
      invariant forall j :: k <= j < cells.Length ==> cells[j] == old(cells[j])
    {
      cells[k] := v;
      k := k + 1;
      assert cells[..k] == cells[..k - 1] + [v];
    }
  }
}
