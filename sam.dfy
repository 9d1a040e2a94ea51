/** Filtering of SAM alignment records down to the reference ids they hit
    (yax/taxa_identification/GetTaxIDsFromAlignment.py). A record is a
    tab-separated line; the FLAG bits follow section 1.4 of the SAMv1
    specification and the optional `NM` tag (edit distance) the
    `TAG:TYPE:VALUE` form of its section 1.5. */
module SamFilter {
  import opened Base
  import opened Strings
  import Parameters

  // ---------------------------------------------------------------------
  // decode_bit_flag (lines 37-64)

  function Pow2(k: nat): (p: nat)
    ensures p >= 1
  {
    if k == 0 then 1 else 2 * Pow2(k - 1)
  }

  /** Bit `k` of a natural number: the lowest bit after `k` halvings. */
  predicate Bit(n: nat, k: nat)
    decreases k
  {
    if k == 0 then n % 2 == 1 else Bit(n / 2, k - 1)
  }

  function BitChar(b: nat): char {
    if b == 1 then '1' else '0'
  }

  /** The binary digits of `n` as `bin(n)[2:]` writes them: no leading
      zeros, and `"0"` for zero. */
  function Bin(n: nat): (r: string)
    ensures |r| > 0
    decreases n
  {
    if n < 2 then [BitChar(n)] else Bin(n / 2) + [BitChar(n % 2)]
  }

  /** `bin(n)[2:]` for any int: for a negative number the slice keeps the
      `b` of the `-0b` prefix. */
  function BinTail(n: int): string {
    if n >= 0 then Bin(n) else "b" + Bin(-n)
  }

  /** `"0" * (12 - len(bit_x)) + bit_x`: padded on the left to twelve
      characters, or left as it is when longer. */
  function BitString(n: int): (r: string)
    ensures |r| >= 12
  {
    var bx := BinTail(n);
    var pad := if |bx| < 12 then 12 - |bx| else 0;
    seq(pad, _ => '0') + bx
  }

  /** `decode_bit_flag`: `"unmapped"` when the character for bit 0x4 is set,
      otherwise `"negative"` when the one for bit 0x10 is, else
      `"positive"`; a flag that is not an integer literal raises
      `ValueError`. */
  function DecodeBitFlag(bitFlag: string): (r: Result<string>)
    ensures r.Failure? <==> Parameters.ParseInt(bitFlag).Failure?
    ensures r.Success? ==> r.value in {"unmapped", "negative", "positive"}
  {
    var n :- Parameters.ParseInt(bitFlag);
    Success(Strand(BitString(n)))
  }

  /** The strand word the padded bit string spells. */
  function Strand(bit: string): string
    requires |bit| >= 12
  {
    if bit[9] == '1' then "unmapped"
    else if bit[7] == '1' then "negative"
    else "positive"
  }

  /** The digit `k` places from the right of `bin(n)` is bit `k` of `n`. */
  lemma {:induction false} BinDigit(n: nat, k: nat)
    requires k < |Bin(n)|
    ensures Bin(n)[|Bin(n)| - 1 - k] == if Bit(n, k) then '1' else '0'
    decreases n
  {
    if n >= 2 && k > 0 {
      var b := Bin(n);
      assert b[|b| - 1 - k] == Bin(n / 2)[|Bin(n / 2)| - 1 - (k - 1)];
      BinDigit(n / 2, k - 1);
    }
  }

  /** A number below `2^k` has at most `k` binary digits. */
  lemma {:induction false} BinShort(n: nat, k: nat)
    requires 0 < k && n < Pow2(k)
    ensures |Bin(n)| <= k
    decreases n
  {
    if n >= 2 {
      BinShort(n / 2, k - 1);
    }
  }

  /** No bit at or above `k` is set in a number below `2^k`. */
  lemma {:induction false} HighBitClear(n: nat, k: nat)
    requires n < Pow2(k)
    ensures !Bit(n, k)
    decreases k
  {
    if k > 0 {
      HighBitClear(n / 2, k - 1);
    }
  }

  lemma {:induction false} BinLength(n: nat)
    ensures n < Pow2(|Bin(n)|)
    decreases n
  {
    if n >= 2 {
      BinLength(n / 2);
    }
  }

  lemma {:induction false} Pow2Monotone(j: nat, k: nat)
    requires j <= k
    ensures Pow2(j) <= Pow2(k)
    decreases k
  {
    if j < k {
      Pow2Monotone(j, k - 1);
    }
  }

  /** Below 4096, the character `11 - k` of the padded string is bit `k`. */
  lemma BitStringDigit(n: nat, k: nat)
    requires n < 4096 && k < 12
    ensures BitString(n)[11 - k] == if Bit(n, k) then '1' else '0'
  {
    var b := Bin(n);
    assert Pow2(12) == 4096;
    BinShort(n, 12);
    var s := BitString(n);
    assert |s| == 12;
    if k < |b| {
      assert s[11 - k] == b[|b| - 1 - k];
      BinDigit(n, k);
    } else {
      BinLength(n);
      Pow2Monotone(|b|, k);
      HighBitClear(n, k);
    }
  }

  /** For a flag in [0, 4096): `"unmapped"` exactly when bit 0x4 is set,
      otherwise `"negative"` exactly when bit 0x10 is set, else
      `"positive"`. */
  lemma DecodeBits(bitFlag: string, n: int)
    requires Parameters.ParseInt(bitFlag) == Success(n) && 0 <= n < 4096
    ensures DecodeBitFlag(bitFlag) ==
      Success(if Bit(n, 2) then "unmapped" else if Bit(n, 4) then "negative" else "positive")
  {
    StrandBits(n);
  }

  lemma StrandBits(n: nat)
    requires n < 4096
    ensures Strand(BitString(n)) == if Bit(n, 2) then "unmapped" else if Bit(n, 4) then "negative" else "positive"
  {
    BitStringDigit(n, 2);
    BitStringDigit(n, 4);
  }

  // ---------------------------------------------------------------------
  // analyze_sam_file (lines 1-34)

  /** `tag[:2] == "NM"`. */
  predicate IsNmTag(tag: string) {
    |tag| >= 2 && tag[..2] == "NM"
  }

  /** `int(tag.split(":")[2])`. */
  function NmValue(tag: string): (r: Result<int>)
    ensures |Split(tag, ":")| < 3 ==> r == Failure(IndexError)
    ensures |Split(tag, ":")| >= 3 ==> r == Parameters.ParseInt(Split(tag, ":")[2])
  {
    var parts := Split(tag, ":");
    if |parts| < 3 then Failure(IndexError) else Parameters.ParseInt(parts[2])
  }

  /** `this_line[10:-1]`: the optional fields, except the last field of the
      line. */
  function Tags(fields: seq<string>): (r: seq<string>)
    ensures |fields| > 11 ==> |r| == |fields| - 11 && forall i :: 0 <= i < |r| ==> r[i] == fields[10 + i]
    ensures |fields| <= 11 ==> r == []
  {
    if |fields| > 11 then fields[10..|fields| - 1] else []
  }

  /** The edit distance the tag loop settles on: 0, replaced by every `NM`
      tag in turn. */
  function NmScan(tags: seq<string>): Result<int>
    decreases |tags|
  {
    if tags == [] then Success(0)
    else
      var nm :- NmScan(tags[..|tags| - 1]);
      var tag := tags[|tags| - 1];
      if IsNmTag(tag) then NmValue(tag) else Success(nm)
  }

  /** The scan fails exactly when some `NM` tag has no integer third part. */
  lemma {:induction false} NmScanFails(tags: seq<string>)
    ensures NmScan(tags).Failure? <==> exists tag :: tag in tags && IsNmTag(tag) && NmValue(tag).Failure?
    decreases |tags|
  {
    if tags != [] {
      var init := tags[..|tags| - 1];
      NmScanFails(init);
      assert forall tag :: tag in tags <==> tag in init || tag == tags[|tags| - 1];
    }
  }

  /** A record without an `NM` tag has distance 0. */
  lemma {:induction false} NmScanNone(tags: seq<string>)
    requires forall i :: 0 <= i < |tags| ==> !IsNmTag(tags[i])
    ensures NmScan(tags) == Success(0)
    decreases |tags|
  {
    if tags != [] {
      NmScanNone(tags[..|tags| - 1]);
    }
  }

  /** When the tags before it scan cleanly, the last `NM` tag decides the
      distance. */
  lemma {:induction false} NmScanLast(tags: seq<string>, i: nat)
    requires i < |tags| && IsNmTag(tags[i]) && NmScan(tags[..i]).Success?
    requires forall j :: i < j < |tags| ==> !IsNmTag(tags[j])
    ensures NmScan(tags) == NmValue(tags[i])
    decreases |tags|
  {
    var n := |tags| - 1;
    if i < n {
      var init := tags[..n];
      assert init[..i] == tags[..i];
      NmScanLast(init, i);
    } else {
      assert tags[..i] == tags[..n];
    }
  }

  /** What one line contributes: a failure, `None` for a line that is
      skipped, or the reference id of a kept record. */
  function AnalyzeLine(line: string, nmMax: int): Result<Option<string>> {
    if |line| == 0 then Failure(IndexError)
    else if line[0] == '@' then Success(None)
    else
      var fields := Split(line, "\t");
      if |fields| < 6 then Failure(IndexError)
      else if 'S' in fields[5] then Success(None)
      else
        var bit :- DecodeBitFlag(fields[1]);
        if bit == "unmapped" then Success(None)
        else
          var nm :- NmScan(Tags(fields));
          if nm > nmMax then Success(None)
          else Success(Some(Split(fields[2], "|")[0]))
  }

  /** Header lines contribute nothing. */
  lemma HeaderSkipped(line: string, nmMax: int)
    requires |line| > 0 && line[0] == '@'
    ensures AnalyzeLine(line, nmMax) == Success(None)
  {
  }

  /** A kept record passed every filter: it is no header, its CIGAR has no
      soft clip, its flag is not unmapped, its edit distance is within
      `nm_max`, and its id is the part of RNAME before the first `|`. */
  lemma KeptRecord(line: string, nmMax: int, id: string)
    requires AnalyzeLine(line, nmMax) == Success(Some(id))
    ensures |line| > 0 && line[0] != '@'
    ensures var fields := Split(line, "\t");
      |fields| >= 6 && 'S' !in fields[5] &&
      DecodeBitFlag(fields[1]).Success? && DecodeBitFlag(fields[1]).value != "unmapped" &&
      NmScan(Tags(fields)).Success? && NmScan(Tags(fields)).value <= nmMax
    ensures var rname := Split(line, "\t")[2];
      '|' !in id && |id| <= |rname| && rname[..|id|] == id && (|id| < |rname| ==> rname[|id|] == '|')
  {
    SplitFirst(Split(line, "\t")[2], '|');
  }

  /** The first piece of a split: the text before the first separator. */
  lemma {:induction false} SplitFirst(s: string, c: char)
    ensures var p := Split(s, [c])[0];
      c !in p && |p| <= |s| && s[..|p|] == p && (|p| < |s| ==> s[|p|] == c)
    decreases |s|
  {
    if |s| >= 1 && s[..1] != [c] {
      SplitFirst(s[1..], c);
      var t := Split(s[1..], [c]);
      assert Split(s, [c])[0] == [s[0]] + t[0];
      assert s[0] != c by { assert s[..1][0] == s[0]; }
    }
  }

  /** The ids added before the first failing line, and that failure. */
  datatype Outcome = Outcome(added: set<string>, error: Option<Error>)

  /** What each line contributes. */
  function Steps(lines: seq<string>, nmMax: int): (ss: seq<Result<Option<string>>>)
    ensures |ss| == |lines| && forall i :: 0 <= i < |lines| ==> ss[i] == AnalyzeLine(lines[i], nmMax)
  {
    seq(|lines|, i requires 0 <= i < |lines| => AnalyzeLine(lines[i], nmMax))
  }

  /** The contributions taken in turn, stopping at the first exception. */
  function Fold(ss: seq<Result<Option<string>>>): Outcome
    decreases |ss|
  {
    if ss == [] then Outcome({}, None)
    else Next(Fold(ss[..|ss| - 1]), ss[|ss| - 1])
  }

  /** One more contribution, unless an exception already ended the loop. */
  function Next(o: Outcome, step: Result<Option<string>>): Outcome {
    if o.error.Some? then o
    else
      match step
      case Failure(e) => Outcome(o.added, Some(e))
      case Success(None) => o
      case Success(Some(id)) => Outcome(o.added + {id}, None)
  }

  /** The loop of `analyze_sam_file`: every line in turn, stopping at the
      first exception. */
  function Analyze(lines: seq<string>, nmMax: int): Outcome {
    Fold(Steps(lines, nmMax))
  }

  lemma FoldSnoc(ss: seq<Result<Option<string>>>, x: Result<Option<string>>)
    ensures Fold(ss + [x]) == Next(Fold(ss), x)
  {
    assert (ss + [x])[..|ss|] == ss;
  }

  lemma {:induction false} FoldSound(ss: seq<Result<Option<string>>>, id: string) returns (j: nat)
    requires id in Fold(ss).added
    ensures j < |ss| && ss[j] == Success(Some(id))
    decreases |ss|
  {
    var n := |ss| - 1;
    var init := ss[..n];
    if id in Fold(init).added {
      j := FoldSound(init, id);
    } else {
      j := n;
    }
  }

  lemma {:induction false} FoldComplete(ss: seq<Result<Option<string>>>, j: nat, id: string)
    requires Fold(ss).error.None?
    requires j < |ss| && ss[j] == Success(Some(id))
    ensures id in Fold(ss).added
    decreases |ss|
  {
    var n := |ss| - 1;
    var init := ss[..n];
    if j < n {
      FoldComplete(init, j, id);
    }
  }

  lemma {:induction false} FoldFails(ss: seq<Result<Option<string>>>)
    ensures Fold(ss).error.Some? <==> exists j :: 0 <= j < |ss| && ss[j].Failure?
    decreases |ss|
  {
    if ss != [] {
      var n := |ss| - 1;
      var init := ss[..n];
      FoldFails(init);
      if exists j :: 0 <= j < n && init[j].Failure? {
        var j :| 0 <= j < n && init[j].Failure?;
        assert ss[j].Failure?;
      }
      assert forall j :: 0 <= j < n ==> init[j] == ss[j];
    }
  }

  lemma {:induction false} FoldSkip(a: seq<Result<Option<string>>>, b: seq<Result<Option<string>>>)
    ensures Fold(a + [Success(None)] + b) == Fold(a + b)
    decreases |b|
  {
    if b == [] {
      FoldSnoc(a, Success(None));
      assert a + [Success(None)] + b == a + [Success(None)];
      assert a + b == a;
    } else {
      var b' := b[..|b| - 1];
      var x := b[|b| - 1];
      FoldSkip(a, b');
      assert a + [Success(None)] + b == (a + [Success(None)] + b') + [x];
      assert a + b == (a + b') + [x];
      FoldSnoc(a + [Success(None)] + b', x);
      FoldSnoc(a + b', x);
    }
  }

  lemma {:induction false} FoldGrows(ss: seq<Result<Option<string>>>, k: nat)
    requires k <= |ss|
    ensures Fold(ss[..k]).added <= Fold(ss).added
    decreases |ss|
  {
    if k < |ss| {
      var init := ss[..|ss| - 1];
      assert ss[..k] == init[..k];
      FoldGrows(init, k);
    } else {
      assert ss[..k] == ss;
    }
  }

  /** A failing contribution ends the loop with its failure and the ids
      added before it. */
  lemma {:induction false} FoldStop(ss: seq<Result<Option<string>>>, k: nat)
    requires k < |ss| && Fold(ss[..k]).error.None? && ss[k].Failure?
    ensures Fold(ss) == Outcome(Fold(ss[..k]).added, Some(ss[k].error))
    decreases |ss|
  {
    var n := |ss| - 1;
    var init := ss[..n];
    if k < n {
      assert init[..k] == ss[..k];
      FoldStop(init, k);
    } else {
      assert ss[..k] == init;
    }
  }

  /** Every id added comes from a kept record among the lines. */
  lemma AnalyzeSound(lines: seq<string>, nmMax: int, id: string)
    requires id in Analyze(lines, nmMax).added
    ensures exists line :: line in lines && AnalyzeLine(line, nmMax) == Success(Some(id))
  {
    var j := FoldSound(Steps(lines, nmMax), id);
    assert lines[j] in lines;
  }

  /** When no line fails, every kept record's id is added. */
  lemma AnalyzeComplete(lines: seq<string>, nmMax: int, line: string, id: string)
    requires Analyze(lines, nmMax).error.None?
    requires line in lines && AnalyzeLine(line, nmMax) == Success(Some(id))
    ensures id in Analyze(lines, nmMax).added
  {
    var j :| 0 <= j < |lines| && lines[j] == line;
    FoldComplete(Steps(lines, nmMax), j, id);
  }

  /** The loop fails exactly when some line fails. */
  lemma AnalyzeFails(lines: seq<string>, nmMax: int)
    ensures Analyze(lines, nmMax).error.Some? <==> exists line :: line in lines && AnalyzeLine(line, nmMax).Failure?
  {
    var ss := Steps(lines, nmMax);
    FoldFails(ss);
    if exists line :: line in lines && AnalyzeLine(line, nmMax).Failure? {
      var line :| line in lines && AnalyzeLine(line, nmMax).Failure?;
      var j :| 0 <= j < |lines| && lines[j] == line;
      assert ss[j].Failure?;
    }
    if exists j :: 0 <= j < |ss| && ss[j].Failure? {
      var j :| 0 <= j < |ss| && ss[j].Failure?;
      assert lines[j] in lines;
    }
  }

  /** Lines that contribute nothing (headers, skipped records) can be
      dropped anywhere without changing the outcome. */
  lemma AnalyzeSkip(a: seq<string>, line: string, b: seq<string>, nmMax: int)
    requires AnalyzeLine(line, nmMax) == Success(None)
    ensures Analyze(a + [line] + b, nmMax) == Analyze(a + b, nmMax)
  {
    var sa, sb := Steps(a, nmMax), Steps(b, nmMax);
    assert Steps(a + [line] + b, nmMax) == sa + [Success(None)] + sb;
    assert Steps(a + b, nmMax) == sa + sb;
    FoldSkip(sa, sb);
  }

  /** An earlier line's id stays: the added set only grows line by line. */
  lemma AnalyzeGrows(lines: seq<string>, nmMax: int, k: nat)
    requires k <= |lines|
    ensures Analyze(lines[..k], nmMax).added <= Analyze(lines, nmMax).added
  {
    assert Steps(lines[..k], nmMax) == Steps(lines, nmMax)[..k];
    FoldGrows(Steps(lines, nmMax), k);
  }

  /** The set of ids of interest, updated in place by `analyze_sam_file`. */
  class TaxidSet {
    var items: set<string>

    constructor(items0: set<string>)
      ensures items == items0
    {
      items := items0;
    }

    /** `set.add`. */
    method Add(id: string)
      modifies this
      ensures items == old(items) + {id}
    {
      items := items + {id};
    }
  }

  /** `int(tag.split(":")[2])` for the last `NM` tag, as the inner loop
      over the tags does it. */
  method ScanNm(tags: seq<string>) returns (r: Result<int>)
    ensures r == NmScan(tags)
  {
    var nm := 0;
    var k := 0;
    while k < |tags|
      invariant 0 <= k <= |tags|
      invariant NmScan(tags[..k]) == Success(nm)
    {
      assert tags[..k + 1][..k] == tags[..k];
      var tag := tags[k];
      if |tag| >= 2 && tag[..2] == "NM" {
        var parts := Split(tag, ":");
        if |parts| < 3 {
          NmScanStop(tags, k);
          return Failure(IndexError);
        }
        var v := Parameters.ParseInt(parts[2]);
        if v.Failure? {
          NmScanStop(tags, k);
          return Failure(v.error);
        }
        nm := v.value;
      }
      k := k + 1;
    }
    assert tags[..k] == tags;
    r := Success(nm);
  }

  /** A failing tag ends the scan with its failure. */
  lemma {:induction false} NmScanStop(tags: seq<string>, k: nat)
    requires k < |tags| && NmScan(tags[..k]).Success?
    requires IsNmTag(tags[k]) && NmValue(tags[k]).Failure?
    ensures NmScan(tags) == NmValue(tags[k])
    decreases |tags|
  {
    if k + 1 < |tags| {
      var init := tags[..|tags| - 1];
      assert init[..k] == tags[..k];
      NmScanStop(init, k);
    } else {
      assert tags[..k] == tags[..|tags| - 1];
    }
  }

  /** The body of the loop of lines 7-32 for one line: `None` where the
      loop continues without adding. */
  method AnalyzeRecord(samLine: string, nmMax: int) returns (r: Result<Option<string>>)
    ensures r == AnalyzeLine(samLine, nmMax)
  {
    if |samLine| == 0 {
      return Failure(IndexError);
    }
    if samLine[0] == '@' {
      return Success(None);
    }
    var thisLine := Split(samLine, "\t");
    if |thisLine| < 6 {
      return Failure(IndexError);
    }
    if 'S' in thisLine[5] {
      return Success(None);
    }
    var bit := DecodeBitFlag(thisLine[1]);
    if bit.Failure? {
      return Failure(bit.error);
    }
    if bit.value == "unmapped" {
      return Success(None);
    }
    var nm := ScanNm(Tags(thisLine));
    if nm.Failure? {
      return Failure(nm.error);
    }
    if nm.value > nmMax {
      return Success(None);
    }
    var refId := Split(thisLine[2], "|")[0];
    return Success(Some(refId));
  }

  /** Lines 1-34 over the lines of the file: the ids of the kept records
      are added to `taxids`, which is also what is returned; an exception
      leaves the ids added so far in place. */
  method AnalyzeSamFile(lines: seq<string>, nmMax: int, taxids: TaxidSet) returns (r: Result<TaxidSet>)
    modifies taxids
    ensures taxids.items == old(taxids.items) + Analyze(lines, nmMax).added
    ensures r.Failure? <==> Analyze(lines, nmMax).error.Some?
    ensures r.Failure? ==> r.error == Analyze(lines, nmMax).error.value
    ensures r.Success? ==> r.value == taxids
  {
    ghost var ss := Steps(lines, nmMax);
    var i := 0;
    while i < |lines|
      invariant 0 <= i <= |lines|
      invariant Fold(ss[..i]).error.None?
      invariant taxids.items == old(taxids.items) + Fold(ss[..i]).added
    {
      var step := AnalyzeRecord(lines[i], nmMax);
      if step.Failure? {
        FoldStop(ss, i);
        return Failure(step.error);
      }
      assert ss[..i + 1] == ss[..i] + [step];
      FoldSnoc(ss[..i], step);
      if step.value.Some? {
        taxids.Add(step.value.value);
      }
      i := i + 1;
    }
    assert ss[..i] == ss;
    return Success(taxids);
  }
}
