/** Informative-hit counting, `yax/modules/identify_informative_hits.py`:
    reading the per-read hit lists, counting each read once under its first
    hit, and keeping the taxids whose count reaches the threshold. The taxid
    data is the dict `parse_taxid_data` returns, seen through lookups only. */
module IdentifyHits {
  import opened Base
  import opened Strings
  import TaxidTool

  // ---------------------------------------------------------------------
  // increment_tax_id_hits (lines 193-217)

  /** The counters of `ks` added up, in key order. */
  function SumOver(ks: seq<string>, m: map<string, int>): int
    requires forall k :: k in ks ==> k in m
    decreases |ks|
  {
    if ks == [] then 0 else SumOver(ks[..|ks| - 1], m) + m[ks[|ks| - 1]]
  }

  /** The sum of all counters of a dict. */
  function Sum(d: Dict<string, int>): int
    requires d.Valid()
  {
    SumOver(d.keys, d.entries)
  }

  /** Changing the counter of a key that is not listed leaves the sum alone. */
  lemma {:induction false} SumOverOther(ks: seq<string>, m: map<string, int>, t: string, v: int)
    requires forall k :: k in ks ==> k in m
    requires t !in ks
    ensures SumOver(ks, m[t := v]) == SumOver(ks, m)
    decreases |ks|
  {
    if ks != [] {
      SumOverOther(ks[..|ks| - 1], m, t, v);
    }
  }

  /** Changing the counter of a listed key changes the sum by the difference. */
  lemma {:induction false} SumOverSet(ks: seq<string>, m: map<string, int>, t: string, v: int)
    requires forall k :: k in ks ==> k in m
    requires Distinct(ks) && t in ks
    ensures SumOver(ks, m[t := v]) == SumOver(ks, m) - m[t] + v
    decreases |ks|
  {
    var n := |ks| - 1;
    var init := ks[..n];
    assert forall k :: k in init ==> k in ks;
    if ks[n] == t {
      assert forall i :: 0 <= i < n ==> init[i] == ks[i] != ks[n];
      SumOverOther(init, m, t, v);
    } else {
      assert t in init by {
        var i :| 0 <= i < |ks| && ks[i] == t;
        assert i < n && init[i] == t;
      }
      SumOverSet(init, m, t, v);
    }
  }

  /** `ids` after `increment_tax_id_hits(ids, t)`: the counter of `t` one
      higher (a new key starting at 1, added last), every other counter and
      the key order kept. */
  function Incremented(ids: Dict<string, int>, t: string): (r: Dict<string, int>)
    ensures t in r.entries && r.entries[t] == (if t in ids.entries then ids.entries[t] else 0) + 1
    ensures forall k :: k != t ==> (k in r.entries <==> k in ids.entries)
    ensures forall k :: k != t && k in ids.entries ==> r.entries[k] == ids.entries[k]
    ensures t in ids.entries ==> r.keys == ids.keys
    ensures t !in ids.entries ==> r.keys == ids.keys + [t]
    ensures ids.Valid() ==> r.Valid()
  {
    if t in ids.entries then ids.Put(t, ids.entries[t] + 1) else ids.Put(t, 1)
  }

  /** Incrementing adds one to the total of the counters. */
  lemma IncrementedSum(ids: Dict<string, int>, t: string)
    requires ids.Valid()
    ensures Sum(Incremented(ids, t)) == Sum(ids) + 1
  {
    var r := Incremented(ids, t);
    if t in ids.entries {
      SumOverSet(ids.keys, ids.entries, t, ids.entries[t] + 1);
    } else {
      SumOverOther(ids.keys, ids.entries, t, 1);
      assert r.keys[..|r.keys| - 1] == ids.keys;
    }
  }

  /** The function of lines 213-217; it returns the dict it was given,
      updated. */
  method IncrementTaxIdHits(ids: Dict<string, int>, idToIncrement: string) returns (r: Dict<string, int>)
    ensures r == Incremented(ids, idToIncrement)
  {
    if idToIncrement in ids.entries {
      r := ids.Put(idToIncrement, ids.entries[idToIncrement] + 1);
    } else {
      r := ids.Put(idToIncrement, 1);
    }
  }

  // ---------------------------------------------------------------------
  // get_informative_tax_ids (lines 73-107)

  /** `max(min_hits, total_informative_hits / 100 * min_relative_hits)`,
      computed exactly. */
  function Threshold(minHits: int, minRelativeHits: int, total: int): real {
    var relative := total as real / 100.0 * minRelativeHits as real;
    if minHits as real >= relative then minHits as real else relative
  }

  /** A taxid with `n` hits meets or beats the threshold. */
  predicate Informative(n: int, minHits: int, minRelativeHits: int, total: int) {
    n as real >= Threshold(minHits, minRelativeHits, total)
  }

  /** The threshold, in integers: at least `min_hits` hits and at least
      `min_relative_hits` percent of the informative total. */
  lemma InformativeIff(n: int, minHits: int, minRelativeHits: int, total: int)
    ensures Informative(n, minHits, minRelativeHits, total) <==> n >= minHits && 100 * n >= total * minRelativeHits
  {
    var relative := total as real / 100.0 * minRelativeHits as real;
    assert relative == (total * minRelativeHits) as real / 100.0;
    assert n as real >= relative <==> 100 * n >= total * minRelativeHits;
  }

  /** The keys of `ks`, in order, whose counters are informative. */
  function Selected(ks: seq<string>, m: map<string, int>, minHits: int, minRelativeHits: int, total: int)
    : (r: seq<string>)
    requires forall k :: k in ks ==> k in m
    ensures |r| <= |ks|
    ensures forall t :: t in r <==> t in ks && Informative(m[t], minHits, minRelativeHits, total)
    decreases |ks|
  {
    if ks == [] then []
    else
      var init := ks[..|ks| - 1];
      var t := ks[|ks| - 1];
      assert forall k :: k in ks <==> k in init || k == t;
      Selected(init, m, minHits, minRelativeHits, total)
      + (if Informative(m[t], minHits, minRelativeHits, total) then [t] else [])
  }

  /** The selection keeps the order of the keys: selecting from two runs of
      keys one after the other is selecting from each. */
  lemma {:induction false} SelectedAppend(a: seq<string>, b: seq<string>, m: map<string, int>,
                                          minHits: int, minRelativeHits: int, total: int)
    requires forall k :: k in a + b ==> k in m
    ensures Selected(a + b, m, minHits, minRelativeHits, total) ==
      Selected(a, m, minHits, minRelativeHits, total) + Selected(b, m, minHits, minRelativeHits, total)
    decreases |b|
  {
    if b == [] {
      assert a + b == a;
    } else {
      var n := |b| - 1;
      assert (a + b)[..|a + b| - 1] == a + b[..n];
      SelectedAppend(a, b[..n], m, minHits, minRelativeHits, total);
    }
  }

  /** Distinct keys give a distinct selection. */
  lemma {:induction false} SelectedDistinct(ks: seq<string>, m: map<string, int>,
                                            minHits: int, minRelativeHits: int, total: int)
    requires forall k :: k in ks ==> k in m
    requires Distinct(ks)
    ensures Distinct(Selected(ks, m, minHits, minRelativeHits, total))
    decreases |ks|
  {
    if ks != [] {
      var n := |ks| - 1;
      var init := ks[..n];
      SelectedDistinct(init, m, minHits, minRelativeHits, total);
      assert forall i :: 0 <= i < n ==> init[i] == ks[i] != ks[n];
    }
  }

  /** The loop of lines 102-107 over the dict's items. */
  method GetInformativeTaxIds(minHits: int, minRelativeHits: int, hitTaxIds: Dict<string, int>, total: int)
    returns (r: seq<string>)
    requires hitTaxIds.Valid()
    ensures r == Selected(hitTaxIds.keys, hitTaxIds.entries, minHits, minRelativeHits, total)
  {
    var hitThreshold := Threshold(minHits, minRelativeHits, total);
    var ks := hitTaxIds.keys;
    r := [];
    var i := 0;
    while i < |ks|
      invariant 0 <= i <= |ks|
      invariant r == Selected(ks[..i], hitTaxIds.entries, minHits, minRelativeHits, total)
    {
      assert ks[..i + 1][..i] == ks[..i];
      var taxId := ks[i];
      if hitTaxIds.entries[taxId] as real >= hitThreshold {
        r := r + [taxId];
      }
      i := i + 1;
    }
    assert ks[..i] == ks;
  }

  // ---------------------------------------------------------------------
  // get_hit_taxa (lines 110-139)

  /** The set built from the characters of `s`, each as a one-character
      string, listed in the order of first occurrence. */
  function Dedup(s: string): (r: seq<string>)
    ensures Distinct(r)
    ensures forall x :: x in r <==> |x| == 1 && x[0] in s
    ensures |r| <= |s|
    decreases |s|
  {
    if s == [] then []
    else
      var init := s[..|s| - 1];
      var c := s[|s| - 1];
      var d := Dedup(init);
      assert forall x :: x in s <==> x in init || x == c;
      assert forall x: string :: |x| == 1 ==> x == [x[0]];
      if [c] in d then d else d + [[c]]
  }

  /** One more character: added unless already present. */
  lemma DedupSnoc(s: string, c: char)
    ensures Dedup(s + [c]) == if [c] in Dedup(s) then Dedup(s) else Dedup(s) + [[c]]
  {
    assert (s + [c])[..|s|] == s;
  }

  /** The same, one character further into a field. */
  lemma DedupExtend(s: string, m: string, j: nat)
    requires j < |m|
    ensures Dedup(s + m[..j + 1]) ==
      if [m[j]] in Dedup(s + m[..j]) then Dedup(s + m[..j]) else Dedup(s + m[..j]) + [[m[j]]]
  {
    assert s + m[..j + 1] == (s + m[..j]) + [m[j]];
    DedupSnoc(s + m[..j], m[j]);
  }

  /** The `:`-separated fields of a line without its trailing whitespace. */
  function HitFields(line: string): seq<string> {
    Split(RStrip(line), ":")
  }

  /** What one line contributes: its read id (field 1) and the characters
      of fields 1 onward; a line without a `:` has no field 1. */
  function HitLine(line: string): (e: TaxidTool.Entry<seq<string>>)
    ensures e.Failure? <==> |HitFields(line)| < 2
    ensures e.Success? ==> e.value.Some? && e.value.value.0 == HitFields(line)[1] && Distinct(e.value.value.1)
  {
    var thisLine := HitFields(line);
    if |thisLine| < 2 then Failure(IndexError)
    else Success(Some((thisLine[1], Dedup(Concat(thisLine[1..])))))
  }

  function HitEntries(lines: seq<string>): (es: seq<TaxidTool.Entry<seq<string>>>)
    ensures |es| == |lines|
  {
    seq(|lines|, i requires 0 <= i < |lines| => HitLine(lines[i]))
  }

  /** The innermost loop of lines 134-135: the characters of one field
      added to the set gathered so far. */
  method AddChars(hits: seq<string>, s: string, mmDistance: string) returns (r: seq<string>)
    requires hits == Dedup(s)
    ensures r == Dedup(s + mmDistance)
  {
    r := hits;
    var j := 0;
    assert s + mmDistance[..0] == s;
    while j < |mmDistance|
      invariant 0 <= j <= |mmDistance|
      invariant r == Dedup(s + mmDistance[..j])
    {
      DedupExtend(s, mmDistance, j);
      if [mmDistance[j]] !in r {
        r := r + [[mmDistance[j]]];
      }
      j := j + 1;
    }
    assert mmDistance[..j] == mmDistance;
  }

  /** The two inner loops of lines 133-135: the set of characters of the
      fields. */
  method HitsOf(fields: seq<string>) returns (hits: seq<string>)
    ensures hits == Dedup(Concat(fields))
  {
    hits := [];
    var i := 0;
    while i < |fields|
      invariant 0 <= i <= |fields|
      invariant hits == Dedup(Concat(fields[..i]))
    {
      assert fields[..i + 1][..i] == fields[..i];
      hits := AddChars(hits, Concat(fields[..i]), fields[i]);
      i := i + 1;
    }
    assert fields[..i] == fields;
  }

  /** The loop of lines 129-137; a later line with the same read id
      replaces the earlier one's hits. */
  method GetHitTaxa(hitTaxaLines: seq<string>) returns (r: Result<Dict<string, seq<string>>>)
    ensures r == TaxidTool.Collect(HitEntries(hitTaxaLines))
  {
    ghost var es := HitEntries(hitTaxaLines);
    var hitTaxa: Dict<string, seq<string>> := EmptyDict();
    var i := 0;
    while i < |hitTaxaLines|
      invariant 0 <= i <= |hitTaxaLines|
      invariant TaxidTool.Collect(es[..i]) == Success(hitTaxa)
    {
      TaxidTool.CollectSnoc(es, i);
      var thisLine := Split(RStrip(hitTaxaLines[i]), ":");
      if |thisLine| < 2 {
        r := Failure(IndexError);
        TaxidTool.CollectFailed(es, i + 1);
        return;
      }
      var thisReadId := thisLine[1];
      var theseHits := HitsOf(thisLine[1..]);
      hitTaxa := hitTaxa.Put(thisReadId, theseHits);
      i := i + 1;
    }
    assert es[..i] == es;
    r := Success(hitTaxa);
  }

  /** Reading fails exactly on a line without a `:`. */
  lemma GetHitTaxaFails(lines: seq<string>)
    ensures TaxidTool.Collect(HitEntries(lines)).Failure? <==>
      exists i :: 0 <= i < |lines| && |HitFields(lines[i])| < 2
  {
    var es := HitEntries(lines);
    TaxidTool.CollectFails(es);
    assert forall i :: 0 <= i < |lines| ==> es[i] == HitLine(lines[i]);
  }

  /** The read ids are the second fields of the lines, each with the hits of
      the last line naming it, and no hit is listed twice. */
  lemma GetHitTaxaLast(lines: seq<string>, k: string)
    requires TaxidTool.Collect(HitEntries(lines)).Success?
    ensures k in TaxidTool.Collect(HitEntries(lines)).value.entries <==>
      exists i :: 0 <= i < |lines| && |HitFields(lines[i])| >= 2 && HitFields(lines[i])[1] == k
    ensures k in TaxidTool.Collect(HitEntries(lines)).value.entries ==>
      Distinct(TaxidTool.Collect(HitEntries(lines)).value.entries[k]) &&
      exists i :: (0 <= i < |lines| && |HitFields(lines[i])| >= 2 && HitFields(lines[i])[1] == k &&
        TaxidTool.Collect(HitEntries(lines)).value.entries[k] == Dedup(Concat(HitFields(lines[i])[1..])) &&
        forall j :: i < j < |lines| && |HitFields(lines[j])| >= 2 ==> HitFields(lines[j])[1] != k)
  {
    var es := HitEntries(lines);
    var c := TaxidTool.Collect(es).value;
    TaxidTool.CollectLast(es, k);
    forall i | 0 <= i < |lines|
      ensures TaxidTool.Assigns(es[i], k) <==> |HitFields(lines[i])| >= 2 && HitFields(lines[i])[1] == k
      ensures TaxidTool.Assigns(es[i], k) ==> es[i].value.value.1 == Dedup(Concat(HitFields(lines[i])[1..]))
    {
      assert es[i] == HitLine(lines[i]);
    }
    if k in c.entries {
      var i :| 0 <= i < |es| && TaxidTool.Assigns(es[i], k) && c.entries[k] == es[i].value.value.1 &&
        forall j :: i < j < |es| ==> !TaxidTool.Assigns(es[j], k);
      assert Distinct(HitLine(lines[i]).value.value.1);
    }
  }

  // ---------------------------------------------------------------------
  // get_hit_taxids (lines 142-190)

  /** Python's `s[start:]` for any integer `start`: a negative start counts
      from the end and is clipped at 0, a large one gives the empty list. */
  function SliceFrom<T>(s: seq<T>, start: int): (r: seq<T>)
    ensures |r| <= |s| && r == s[|s| - |r|..]
    ensures start < 0 ==> |r| == (if -start < |s| then -start else |s|)
    ensures start >= 0 ==> |r| == (if start < |s| then |s| - start else 0)
  {
    var b := if start < 0 then (if start + |s| < 0 then 0 else start + |s|)
             else (if start > |s| then |s| else start);
    s[b..]
  }

  /** `parents[-lca_dist:]` keeps the last `lca_dist` ancestors for a
      positive distance, but the whole chain for a distance of 0. */
  lemma LastParents(parents: seq<string>, lcaDist: int)
    ensures lcaDist == 0 ==> SliceFrom(parents, -lcaDist) == parents
    ensures lcaDist > 0 && lcaDist <= |parents| ==> SliceFrom(parents, -lcaDist) == parents[|parents| - lcaDist..]
    ensures lcaDist >= |parents| ==> SliceFrom(parents, -lcaDist) == parents
  {
  }

  /** The set of a list's elements, `set(s)`. */
  function Elems<T(!new)>(s: seq<T>): (r: set<T>)
    ensures forall x :: x in r <==> x in s
  {
    set i | 0 <= i < |s| :: s[i]
  }

  /** The ancestor pool of a hit: its last `lca_dist` ancestors as a set. */
  function Pool(data: map<string, TaxidTool.TaxRecord>, t: string, lcaDist: int): (r: Result<set<string>>)
    ensures r.Failure? <==> t !in data
    ensures r.Success? ==> forall a :: a in r.value ==> a in data[t].parents
  {
    if t !in data then Failure(KeyError(t))
    else Success(Elems(SliceFrom(data[t].parents, -lcaDist)))
  }

  /** The loop of lines 177-184 from pool `pool` over the remaining hits:
      each hit is looked up, and the walk stops at the first hit whose pool
      is disjoint from the one gathered so far. */
  function Walk(data: map<string, TaxidTool.TaxRecord>, pool: set<string>, rest: seq<string>, lcaDist: int)
    : (r: Result<set<string>>)
    ensures r.Success? ==> pool <= r.value
    decreases |rest|
  {
    if rest == [] then Success(pool)
    else
      var these :- Pool(data, rest[0], lcaDist);
      if these * pool != {} then Walk(data, pool + these, rest[1..], lcaDist) else Success(pool)
  }

  /** The tax id a read is counted under, or the error its hits raise. */
  function FirstHit(data: map<string, TaxidTool.TaxRecord>, hits: seq<string>, lcaDist: int): (r: Result<string>)
    ensures hits == [] ==> r == Failure(IndexError)
    ensures r.Success? ==> hits != [] && r.value == hits[0]
  {
    if |hits| == 1 then Success(hits[0])
    else if hits == [] then Failure(IndexError)
    else
      var pool :- Pool(data, hits[0], lcaDist);
      var _ :- Walk(data, pool, hits[1..], lcaDist);
      Success(hits[0])
  }

  /** A walk over hits that all have records never fails. */
  lemma {:induction false} WalkKnown(data: map<string, TaxidTool.TaxRecord>, pool: set<string>, rest: seq<string>,
                                     lcaDist: int)
    requires forall h :: h in rest ==> h in data
    ensures Walk(data, pool, rest, lcaDist).Success?
    decreases |rest|
  {
    if rest != [] {
      var these := Pool(data, rest[0], lcaDist).value;
      if these * pool != {} {
        WalkKnown(data, pool + these, rest[1..], lcaDist);
      }
    }
  }

  /** Every read with hits is informative: when all its hits have records it
      is counted under its first hit, since the `informative = False` after
      the `break` is never reached. A read fails only with no hits or with a
      hit that has no record. */
  lemma FirstHitKnown(data: map<string, TaxidTool.TaxRecord>, hits: seq<string>, lcaDist: int)
    ensures hits != [] && (forall h :: h in hits ==> h in data) ==> FirstHit(data, hits, lcaDist) == Success(hits[0])
    ensures FirstHit(data, hits, lcaDist).Failure? ==> hits == [] || exists h :: h in hits && h !in data
  {
    if hits != [] && (forall h :: h in hits ==> h in data) && |hits| != 1 {
      WalkKnown(data, Pool(data, hits[0], lcaDist).value, hits[1..], lcaDist);
    }
  }

  /** The intended test of lines 177-184, with `informative = False` before
      the `break`: true when every remaining hit's pool meets the pool
      gathered so far. */
  function Joined(data: map<string, TaxidTool.TaxRecord>, pool: set<string>, rest: seq<string>, lcaDist: int)
    : (r: Result<bool>)
    decreases |rest|
  {
    if rest == [] then Success(true)
    else
      var these :- Pool(data, rest[0], lcaDist);
      if these * pool != {} then Joined(data, pool + these, rest[1..], lcaDist) else Success(false)
  }

  /** The intended count of one read: its first hit when the read is
      informative, `None` when some hit's ancestors do not meet the others'. */
  function InformativeHit(data: map<string, TaxidTool.TaxRecord>, hits: seq<string>, lcaDist: int)
    : (r: Result<Option<string>>)
  {
    if |hits| == 1 then Success(Some(hits[0]))
    else if hits == [] then Failure(IndexError)
    else
      var pool :- Pool(data, hits[0], lcaDist);
      var joined :- Joined(data, pool, hits[1..], lcaDist);
      if joined then Success(Some(hits[0])) else Success(None)
  }

  /** The walk as written and the intended test raise the same errors. */
  lemma {:induction false} JoinedWalk(data: map<string, TaxidTool.TaxRecord>, pool: set<string>, rest: seq<string>,
                                      lcaDist: int)
    ensures Joined(data, pool, rest, lcaDist).Failure? <==> Walk(data, pool, rest, lcaDist).Failure?
    ensures Joined(data, pool, rest, lcaDist).Failure? ==>
      Joined(data, pool, rest, lcaDist).error == Walk(data, pool, rest, lcaDist).error
    decreases |rest|
  {
    if rest != [] && rest[0] in data {
      var these := Pool(data, rest[0], lcaDist).value;
      if these * pool != {} {
        JoinedWalk(data, pool + these, rest[1..], lcaDist);
      }
    }
  }

  /** The intended count differs from the one as written only by refusing
      reads: it fails exactly when `FirstHit` does, with the same error, and
      a read it counts is counted under the same tax id as written. */
  lemma InformativeHitRefines(data: map<string, TaxidTool.TaxRecord>, hits: seq<string>, lcaDist: int)
    ensures InformativeHit(data, hits, lcaDist).Failure? <==> FirstHit(data, hits, lcaDist).Failure?
    ensures InformativeHit(data, hits, lcaDist).Failure? ==>
      InformativeHit(data, hits, lcaDist).error == FirstHit(data, hits, lcaDist).error
    ensures InformativeHit(data, hits, lcaDist).Success? && InformativeHit(data, hits, lcaDist).value.Some? ==>
      FirstHit(data, hits, lcaDist) == Success(InformativeHit(data, hits, lcaDist).value.value)
  {
    if |hits| > 1 && hits[0] in data {
      JoinedWalk(data, Pool(data, hits[0], lcaDist).value, hits[1..], lcaDist);
    }
  }

  /** Two hits whose last `lca_dist` ancestors are disjoint: the intended
      test refuses the read, while as written (`FirstHitKnown`) it is counted
      under its first hit. */
  lemma InformativeHitDisjoint(data: map<string, TaxidTool.TaxRecord>, a: string, b: string, lcaDist: int)
    requires a in data && b in data
    requires Pool(data, a, lcaDist).value * Pool(data, b, lcaDist).value == {}
    ensures InformativeHit(data, [a, b], lcaDist) == Success(None)
    ensures FirstHit(data, [a, b], lcaDist) == Success(a)
  {
    assert [a, b][1..] == [b];
    assert [b][1..] == [];
  }

  /** The body of the loop of lines 166-188 for one read. */
  method CountedUnder(data: map<string, TaxidTool.TaxRecord>, theseTaxIdsHit: seq<string>, lcaDist: int)
    returns (r: Result<string>)
    ensures r == FirstHit(data, theseTaxIdsHit, lcaDist)
  {
    if |theseTaxIdsHit| == 1 {
      return Success(theseTaxIdsHit[0]);
    }
    if theseTaxIdsHit == [] {
      return Failure(IndexError);
    }
    if theseTaxIdsHit[0] !in data {
      return Failure(KeyError(theseTaxIdsHit[0]));
    }
    var ancestorPool := Elems(SliceFrom(data[theseTaxIdsHit[0]].parents, -lcaDist));
    ghost var pool0 := ancestorPool;
    var rest := theseTaxIdsHit[1..];
    var i := 0;
    while i < |rest|
      invariant 0 <= i <= |rest|
      invariant Walk(data, pool0, rest, lcaDist) == Walk(data, ancestorPool, rest[i..], lcaDist)
    {
      var taxIdHit := rest[i];
      if taxIdHit !in data {
        return Failure(KeyError(taxIdHit));
      }
      var thisAncestorPool := Elems(SliceFrom(data[taxIdHit].parents, -lcaDist));
      if thisAncestorPool * ancestorPool != {} {
        assert rest[i..][1..] == rest[i + 1..];
        ancestorPool := ancestorPool + thisAncestorPool;
      } else {
        break;
      }
      i := i + 1;
    }
    return Success(theseTaxIdsHit[0]);
  }

  /** Lines 164-190 over the first reads `ks`: the counters and the number
      of informative reads. Each read adds one to the total and one to the
      counter of its first hit, so the counters add up to the total. */
  function Tally(data: map<string, TaxidTool.TaxRecord>, ks: seq<string>, hitTaxa: map<string, seq<string>>,
                 lcaDist: int): (r: Result<(Dict<string, int>, int)>)
    requires forall k :: k in ks ==> k in hitTaxa
    ensures r.Success? ==> r.value.0.Valid() && r.value.1 == |ks| && Sum(r.value.0) == r.value.1
    decreases |ks|
  {
    if ks == [] then Success((EmptyDict(), 0))
    else
      var acc :- Tally(data, ks[..|ks| - 1], hitTaxa, lcaDist);
      var t :- FirstHit(data, hitTaxa[ks[|ks| - 1]], lcaDist);
      IncrementedSum(acc.0, t);
      Success((Incremented(acc.0, t), acc.1 + 1))
  }

  /** One more read. */
  lemma TallySnoc(data: map<string, TaxidTool.TaxRecord>, ks: seq<string>, hitTaxa: map<string, seq<string>>,
                  lcaDist: int, i: nat)
    requires forall k :: k in ks ==> k in hitTaxa
    requires i < |ks|
    ensures Tally(data, ks[..i + 1], hitTaxa, lcaDist) == (
      match Tally(data, ks[..i], hitTaxa, lcaDist)
      case Failure(err) => Failure(err)
      case Success(acc) =>
        match FirstHit(data, hitTaxa[ks[i]], lcaDist)
        case Failure(err) => Failure(err)
        case Success(t) => Success((Incremented(acc.0, t), acc.1 + 1)))
  {
    assert ks[..i + 1][..i] == ks[..i];
  }

  /** `get_hit_taxids` over the reads in dict order. */
  method GetHitTaxids(data: map<string, TaxidTool.TaxRecord>, hitTaxa: Dict<string, seq<string>>, lcaDist: int)
    returns (r: Result<(Dict<string, int>, int)>)
    requires hitTaxa.Valid()
    ensures r == Tally(data, hitTaxa.keys, hitTaxa.entries, lcaDist)
  {
    var ks := hitTaxa.keys;
    var hitTaxIds: Dict<string, int> := EmptyDict();
    var totalInformativeHits := 0;
    var i := 0;
    while i < |ks|
      invariant 0 <= i <= |ks|
      invariant Tally(data, ks[..i], hitTaxa.entries, lcaDist) == Success((hitTaxIds, totalInformativeHits))
    {
      TallySnoc(data, ks, hitTaxa.entries, lcaDist, i);
      var t := CountedUnder(data, hitTaxa.entries[ks[i]], lcaDist);
      if t.Failure? {
        r := Failure(t.error);
        TallyFailed(data, ks, hitTaxa.entries, lcaDist, i + 1);
        return;
      }
      totalInformativeHits := totalInformativeHits + 1;
      hitTaxIds := IncrementTaxIdHits(hitTaxIds, t.value);
      i := i + 1;
    }
    assert ks[..i] == ks;
    r := Success((hitTaxIds, totalInformativeHits));
  }

  /** A failed prefix fails the whole. */
  lemma {:induction false} TallyFailed(data: map<string, TaxidTool.TaxRecord>, ks: seq<string>,
                                       hitTaxa: map<string, seq<string>>, lcaDist: int, i: nat)
    requires forall k :: k in ks ==> k in hitTaxa
    requires i <= |ks| && Tally(data, ks[..i], hitTaxa, lcaDist).Failure?
    ensures Tally(data, ks, hitTaxa, lcaDist) == Tally(data, ks[..i], hitTaxa, lcaDist)
    decreases |ks| - i
  {
    if i < |ks| {
      TallySnoc(data, ks, hitTaxa, lcaDist, i);
      TallyFailed(data, ks, hitTaxa, lcaDist, i + 1);
    } else {
      assert ks[..i] == ks;
    }
  }

  /** One more read fails the count exactly when the count so far or that
      read fails. */
  lemma TallyFailsStep(data: map<string, TaxidTool.TaxRecord>, ks: seq<string>,
                       hitTaxa: map<string, seq<string>>, lcaDist: int)
    requires forall k :: k in ks ==> k in hitTaxa
    requires ks != []
    ensures Tally(data, ks, hitTaxa, lcaDist).Failure? <==>
      Tally(data, ks[..|ks| - 1], hitTaxa, lcaDist).Failure? || FirstHit(data, hitTaxa[ks[|ks| - 1]], lcaDist).Failure?
  {
  }

  /** Counting fails exactly when some read's hits raise. */
  lemma {:induction false} TallyFails(data: map<string, TaxidTool.TaxRecord>, ks: seq<string>,
                                      hitTaxa: map<string, seq<string>>, lcaDist: int)
    requires forall k :: k in ks ==> k in hitTaxa
    ensures Tally(data, ks, hitTaxa, lcaDist).Failure? <==>
      exists k :: k in ks && FirstHit(data, hitTaxa[k], lcaDist).Failure?
    decreases |ks|
  {
    if ks != [] {
      var n := |ks| - 1;
      var init := ks[..n];
      TallyFails(data, init, hitTaxa, lcaDist);
      TallyFailsStep(data, ks, hitTaxa, lcaDist);
      assert forall k :: k in ks <==> k in init || k == ks[n];
    }
  }

  /** The number of reads among `ks` whose first hit is `t`. */
  function FirstHits(ks: seq<string>, hitTaxa: map<string, seq<string>>, t: string): nat
    requires forall k :: k in ks ==> k in hitTaxa
    decreases |ks|
  {
    if ks == [] then 0
    else
      var hits := hitTaxa[ks[|ks| - 1]];
      FirstHits(ks[..|ks| - 1], hitTaxa, t) + (if hits != [] && hits[0] == t then 1 else 0)
  }

  /** After counting, a tax id has a counter exactly when some read has it
      as first hit, and the counter is the number of such reads. */
  lemma {:induction false} TallyCounts(data: map<string, TaxidTool.TaxRecord>, ks: seq<string>,
                                       hitTaxa: map<string, seq<string>>, lcaDist: int, t: string)
    requires forall k :: k in ks ==> k in hitTaxa
    requires Tally(data, ks, hitTaxa, lcaDist).Success?
    ensures t in Tally(data, ks, hitTaxa, lcaDist).value.0.entries <==> FirstHits(ks, hitTaxa, t) > 0
    ensures t in Tally(data, ks, hitTaxa, lcaDist).value.0.entries ==>
      Tally(data, ks, hitTaxa, lcaDist).value.0.entries[t] == FirstHits(ks, hitTaxa, t)
    decreases |ks|
  {
    if ks != [] {
      var init := ks[..|ks| - 1];
      TallyCounts(data, init, hitTaxa, lcaDist, t);
    }
  }
}
