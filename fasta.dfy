/** The FASTA reader of the read-preparation step
    (yax/modules/readprep/supporting_functions.py): header lines start with
    `>`, and the lines between two headers are one sequence. */
module Fasta {
  import opened Base
  import opened Strings

  /** `line[0] == ">"`. */
  predicate IsHeader(line: string)
    requires |line| > 0
  {
    line[0] == '>'
  }

  /** `line.rstrip().lstrip(">")`. */
  function HeaderText(line: string): (r: string)
    ensures |r| > 0 ==> r[0] != '>' && !IsSpace(r[|r| - 1])
  {
    var t := LStripSet(RStrip(line), {'>'});
    assert |t| > 0 ==> t[|t| - 1] == RStrip(line)[|RStrip(line)| - 1];
    t
  }

  /** `line.rstrip("\n")`. */
  function Body(line: string): (r: string)
    ensures |r| <= |line| && r == line[..|r|]
    ensures |r| > 0 ==> r[|r| - 1] != '\n'
  {
    RStripSet(line, {'\n'})
  }

  /** The lists and the sequence being gathered, after some lines. */
  datatype Reader = Reader(headers: seq<string>, seqs: seq<string>, current: string)

  /** The loop of lines 7-14 over the lines read so far; an empty line
      raises `IndexError` at `line[0]`. */
  function Scan(lines: seq<string>): Result<Reader>
    decreases |lines|
  {
    if lines == [] then Success(Reader([], [], ""))
    else
      var rd :- Scan(lines[..|lines| - 1]);
      Feed(rd, lines[|lines| - 1])
  }

  /** One line: a header is recorded and closes the current sequence, if
      it is not empty; any other line extends the current sequence. */
  function Feed(rd: Reader, line: string): Result<Reader> {
    if |line| == 0 then Failure(IndexError)
    else if IsHeader(line) then
      Success(Reader(rd.headers + [HeaderText(line)],
                     if rd.current != "" then rd.seqs + [rd.current] else rd.seqs, ""))
    else Success(rd.(current := rd.current + Body(line)))
  }

  /** Lines 1-19 up to `remove_illegal_characters`: the headers, and the
      sequences with the last one appended whatever it holds. */
  function ReadFasta(lines: seq<string>): Result<(seq<string>, seq<string>)> {
    var rd :- Scan(lines);
    Success((rd.headers, rd.seqs + [rd.current]))
  }

  lemma ScanSnoc(lines: seq<string>, line: string)
    ensures Scan(lines + [line]) == if Scan(lines).Failure? then Scan(lines) else Feed(Scan(lines).value, line)
  {
    assert (lines + [line])[..|lines|] == lines;
  }

  lemma ScanNext(lines: seq<string>, i: nat)
    requires i < |lines|
    ensures Scan(lines[..i + 1]) == if Scan(lines[..i]).Failure? then Scan(lines[..i]) else Feed(Scan(lines[..i]).value, lines[i])
  {
    assert lines[..i + 1][..i] == lines[..i];
  }

  /** Reading fails exactly when some line is empty. */
  lemma {:induction false} ReadFastaFails(lines: seq<string>)
    ensures ReadFasta(lines).Failure? <==> "" in lines
    decreases |lines|
  {
    if lines != [] {
      var init := lines[..|lines| - 1];
      ReadFastaFails(init);
      assert forall l :: l in lines <==> l in init || l == lines[|lines| - 1];
    }
  }

  /** The header texts of the header lines, in order. */
  function HeaderTexts(lines: seq<string>): seq<string>
    requires "" !in lines
  {
    if lines == [] then []
    else if lines[0][0] == '>' then [HeaderText(lines[0])] + HeaderTexts(lines[1..])
    else HeaderTexts(lines[1..])
  }

  /** The bodies of the other lines, written one after the other. */
  function Bases(lines: seq<string>): string
    requires "" !in lines
  {
    if lines == [] then ""
    else if lines[0][0] == '>' then Bases(lines[1..])
    else Body(lines[0]) + Bases(lines[1..])
  }

  lemma {:induction false} HeaderTextsSnoc(lines: seq<string>, line: string)
    requires "" !in lines + [line]
    ensures HeaderTexts(lines + [line]) == HeaderTexts(lines) + (if line[0] == '>' then [HeaderText(line)] else [])
    decreases |lines|
  {
    if lines != [] {
      assert (lines + [line])[1..] == lines[1..] + [line];
      HeaderTextsSnoc(lines[1..], line);
    } else {
      assert [line][1..] == [];
    }
  }

  lemma {:induction false} BasesSnoc(lines: seq<string>, line: string)
    requires "" !in lines + [line]
    ensures Bases(lines + [line]) == Bases(lines) + (if line[0] == '>' then "" else Body(line))
    decreases |lines|
  {
    if lines != [] {
      assert (lines + [line])[1..] == lines[1..] + [line];
      BasesSnoc(lines[1..], line);
    } else {
      assert [line][1..] == [];
    }
  }

  /** What the scan holds after any lines: every header text, in order;
      no sequence character lost or added; only non-empty sequences
      closed. */
  lemma {:induction false} ScanContents(lines: seq<string>)
    requires Scan(lines).Success?
    ensures "" !in lines
    ensures Scan(lines).value.headers == HeaderTexts(lines)
    ensures Concat(Scan(lines).value.seqs) + Scan(lines).value.current == Bases(lines)
    ensures forall i :: 0 <= i < |Scan(lines).value.seqs| ==> Scan(lines).value.seqs[i] != ""
    decreases |lines|
  {
    if lines != [] {
      var init := lines[..|lines| - 1];
      var line := lines[|lines| - 1];
      assert lines == init + [line];
      ScanSnoc(init, line);
      ScanContents(init);
      HeaderTextsSnoc(init, line);
      BasesSnoc(init, line);
      var rd := Scan(init).value;
      if line[0] == '>' && rd.current != "" {
        assert (rd.seqs + [rd.current])[..|rd.seqs|] == rd.seqs;
      }
    }
  }

  /** On success: the headers are the header lines' texts in order, the
      sequences hold every base of the other lines in order, and every
      sequence but the last is non-empty. */
  lemma ReadFastaContents(lines: seq<string>)
    requires ReadFasta(lines).Success?
    ensures "" !in lines
    ensures ReadFasta(lines).value.0 == HeaderTexts(lines)
    ensures Concat(ReadFasta(lines).value.1) == Bases(lines)
    ensures var seqs := ReadFasta(lines).value.1;
      |seqs| >= 1 && forall i :: 0 <= i < |seqs| - 1 ==> seqs[i] != ""
  {
    ScanContents(lines);
    var rd := Scan(lines).value;
    assert (rd.seqs + [rd.current])[..|rd.seqs|] == rd.seqs;
  }

  /** A well-formed file: it starts with a header, and every header is
      followed by a line of bases. */
  predicate WellFormed(lines: seq<string>) {
    && |lines| > 0 && "" !in lines && lines[0][0] == '>'
    && forall i :: 0 <= i < |lines| && lines[i][0] == '>' ==>
         i + 1 < |lines| && lines[i + 1][0] != '>' && Body(lines[i + 1]) != ""
  }

  /** The scan of a well-formed prefix: one sequence fewer than headers,
      and an open sequence that is non-empty unless the prefix ends in a
      header. */
  lemma {:induction false} ScanPairs(lines: seq<string>, k: nat)
    requires WellFormed(lines) && 0 < k <= |lines|
    ensures Scan(lines[..k]).Success?
    ensures var rd := Scan(lines[..k]).value;
      |rd.seqs| + 1 == |rd.headers| && (rd.current == "" <==> lines[k - 1][0] == '>')
    decreases k
  {
    var line := lines[k - 1];
    assert lines[..k] == lines[..k - 1] + [line];
    ScanSnoc(lines[..k - 1], line);
    if k > 1 {
      ScanPairs(lines, k - 1);
    } else {
      assert lines[..0] == [];
    }
  }

  /** A well-formed file yields one sequence per header. */
  lemma ReadFastaPairs(lines: seq<string>)
    requires WellFormed(lines)
    ensures ReadFasta(lines).Success?
    ensures |ReadFasta(lines).value.0| == |ReadFasta(lines).value.1|
  {
    ScanPairs(lines, |lines|);
    assert lines[..|lines|] == lines;
  }

  // ---------------------------------------------------------------------
  // A well-formed file as a list of records.

  /** One record of a file: its header line and the lines of bases after it. */
  datatype Record = Record(header: string, body: seq<string>)

  /** A header line followed by at least one line of bases, the first of
      them holding a base; no line is empty. */
  predicate IsRecord(r: Record) {
    && |r.header| > 0 && r.header[0] == '>'
    && |r.body| > 0 && "" !in r.body && Body(r.body[0]) != ""
    && forall j :: 0 <= j < |r.body| ==> r.body[j][0] != '>'
  }

  /** The lines of a file made of the given records, in order. */
  function Lines(recs: seq<Record>): seq<string>
    decreases |recs|
  {
    if recs == [] then []
    else Lines(recs[..|recs| - 1]) + [recs[|recs| - 1].header] + recs[|recs| - 1].body
  }

  /** The headers' texts of some records, in order. */
  function RecordHeaders(recs: seq<Record>): (hs: seq<string>)
    ensures |hs| == |recs| && forall i :: 0 <= i < |recs| ==> hs[i] == HeaderText(recs[i].header)
    decreases |recs|
  {
    if recs == [] then []
    else RecordHeaders(recs[..|recs| - 1]) + [HeaderText(recs[|recs| - 1].header)]
  }

  /** A record's sequence: the bodies of the lines after its header,
      written one after the other. */
  function SeqOf(r: Record): string
    requires IsRecord(r)
  {
    Bases(r.body)
  }

  /** Each record's sequence, in order. */
  function RecordSeqs(recs: seq<Record>): (ss: seq<string>)
    requires forall i :: 0 <= i < |recs| ==> IsRecord(recs[i])
    ensures |ss| == |recs| && forall i :: 0 <= i < |recs| ==> ss[i] == SeqOf(recs[i])
    decreases |recs|
  {
    if recs == [] then []
    else RecordSeqs(recs[..|recs| - 1]) + [SeqOf(recs[|recs| - 1])]
  }

  /** The bases of a record start with those of its first line, so they are
      never empty. */
  lemma RecordBases(r: Record)
    requires IsRecord(r)
    ensures SeqOf(r) != ""
  {
    assert |Bases(r.body)| >= |Body(r.body[0])|;
  }

  /** A line of bases extends the open sequence by its body. */
  lemma FeedBody(rd: Reader, line: string)
    requires |line| > 0 && line[0] != '>'
    ensures Feed(rd, line) == Success(rd.(current := rd.current + Body(line)))
  {
  }

  lemma ScanBodyStep(lines: seq<string>, line: string, rd: Reader)
    requires Scan(lines) == Success(rd) && |line| > 0 && line[0] != '>'
    ensures Scan(lines + [line]) == Success(rd.(current := rd.current + Body(line)))
  {
    ScanSnoc(lines, line);
    FeedBody(rd, line);
  }

  /** Lines of bases: none empty, none a header. */
  predicate BaseLines(bs: seq<string>) {
    "" !in bs && forall j :: 0 <= j < |bs| ==> bs[j][0] != '>'
  }

  lemma BaseLinesInit(bs: seq<string>)
    requires BaseLines(bs) && bs != []
    ensures BaseLines(bs[..|bs| - 1]) && |bs[|bs| - 1]| > 0 && bs[|bs| - 1][0] != '>'
    ensures bs == bs[..|bs| - 1] + [bs[|bs| - 1]]
  {
    assert bs[|bs| - 1] in bs;
  }

  /** Lines of bases extend the open sequence by their bodies. */
  lemma {:induction false} ScanBody(pre: seq<string>, bs: seq<string>, rd: Reader)
    requires Scan(pre) == Success(rd) && BaseLines(bs)
    ensures Scan(pre + bs) == Success(rd.(current := rd.current + Bases(bs)))
    decreases |bs|
  {
    if bs == [] {
      assert pre + bs == pre;
      assert rd.current + Bases(bs) == rd.current;
      assert rd.(current := rd.current) == rd;
    } else {
      var n := |bs| - 1;
      var init := bs[..n];
      var last := bs[n];
      BaseLinesInit(bs);
      var mid := rd.(current := rd.current + Bases(init));
      assert Scan(pre + init) == Success(mid) by {
        ScanBody(pre, init, rd);
      }
      assert Scan(pre + bs) == Success(mid.(current := mid.current + Body(last))) by {
        assert pre + bs == (pre + init) + [last];
        ScanBodyStep(pre + init, last, mid);
      }
      assert Bases(bs) == Bases(init) + Body(last) by {
        BasesSnoc(init, last);
      }
      assert rd.current + Bases(bs) == mid.current + Body(last);
    }
  }

  /** A header line closes the open sequence, unless it is empty. */
  lemma FeedHeader(rd: Reader, line: string)
    requires |line| > 0 && line[0] == '>'
    ensures Feed(rd, line) == Success(Reader(rd.headers + [HeaderText(line)],
      if rd.current != "" then rd.seqs + [rd.current] else rd.seqs, ""))
  {
  }

  /** Reading the records' lines: every header read, the sequences of all
      records but the last closed, and the last one's bases open. */
  lemma {:induction false} ScanRecords(recs: seq<Record>)
    requires recs != [] && forall i :: 0 <= i < |recs| ==> IsRecord(recs[i])
    ensures var n := |recs| - 1;
      Scan(Lines(recs)) == Success(Reader(RecordHeaders(recs), RecordSeqs(recs[..n]), RecordSeqs(recs)[n]))
    decreases |recs|, 1
  {
    var n := |recs| - 1;
    var r := recs[n];
    var pre := Lines(recs[..n]) + [r.header];
    var rd := Reader(RecordHeaders(recs), RecordSeqs(recs[..n]), "");
    ScanRecordHeader(recs);
    assert IsRecord(r) && BaseLines(r.body);
    assert Lines(recs) == pre + r.body;
    ScanBody(pre, r.body, rd);
    assert "" + Bases(r.body) == SeqOf(r);
  }

  /** Reading up to the last record's header line. */
  lemma {:induction false} ScanRecordHeader(recs: seq<Record>)
    requires recs != [] && forall i :: 0 <= i < |recs| ==> IsRecord(recs[i])
    ensures var n := |recs| - 1;
      Scan(Lines(recs[..n]) + [recs[n].header]) == Success(Reader(RecordHeaders(recs), RecordSeqs(recs[..n]), ""))
    decreases |recs|, 0
  {
    var n := |recs| - 1;
    var init := recs[..n];
    var h := recs[n].header;
    assert IsRecord(recs[n]);
    assert RecordHeaders(recs) == RecordHeaders(init) + [HeaderText(h)];
    if n == 0 {
      assert init == [];
      var e: Reader := Reader([], [], "");
      assert Scan(Lines(init)) == Success(e);
      OpenRecord(Lines(init), e, h);
      assert e.headers + [HeaderText(h)] == RecordHeaders(recs);
      assert RecordSeqs(init) == [];
    } else {
      var m := n - 1;
      var rd0 := Reader(RecordHeaders(init), RecordSeqs(init[..m]), RecordSeqs(init)[m]);
      assert Scan(Lines(init)) == Success(rd0) by {
        ScanRecords(init);
      }
      assert rd0.current != "" by {
        assert IsRecord(init[m]);
        RecordBases(init[m]);
      }
      CloseRecord(Lines(init), rd0, h);
      assert rd0.seqs + [rd0.current] == RecordSeqs(init);
    }
  }

  /** A header line read first. */
  lemma OpenRecord(pre: seq<string>, rd: Reader, h: string)
    requires Scan(pre) == Success(rd) && rd.current == "" && |h| > 0 && h[0] == '>'
    ensures Scan(pre + [h]) == Success(Reader(rd.headers + [HeaderText(h)], rd.seqs, ""))
  {
    ScanSnoc(pre, h);
    FeedHeader(rd, h);
  }

  /** A header line after a record with bases closes that record. */
  lemma CloseRecord(pre: seq<string>, rd: Reader, h: string)
    requires Scan(pre) == Success(rd) && rd.current != "" && |h| > 0 && h[0] == '>'
    ensures Scan(pre + [h]) == Success(Reader(rd.headers + [HeaderText(h)], rd.seqs + [rd.current], ""))
  {
    ScanSnoc(pre, h);
    FeedHeader(rd, h);
  }

  /** A file made of records reads as one header and one sequence per
      record, in order: record `i`'s header text, and the bases of exactly
      the lines between its header and the next. */
  lemma ReadFastaRecords(recs: seq<Record>)
    requires recs != [] && forall i :: 0 <= i < |recs| ==> IsRecord(recs[i])
    ensures ReadFasta(Lines(recs)) == Success((RecordHeaders(recs), RecordSeqs(recs)))
  {
    var n := |recs| - 1;
    ScanRecords(recs);
  }

  /** Lines 1-15: the loop over the lines, gathering the current sequence
      and appending to the two lists. */
  method ReadFastaFile(lines: seq<string>) returns (r: Result<(seq<string>, seq<string>)>)
    ensures r == ReadFasta(lines)
  {
    var fastaHeaders := [];
    var fastaSeqs := [];
    var sequence := "";
    var i := 0;
    while i < |lines|
      invariant 0 <= i <= |lines|
      invariant Scan(lines[..i]) == Success(Reader(fastaHeaders, fastaSeqs, sequence))
    {
      var line := lines[i];
      ScanNext(lines, i);
      if |line| == 0 {
        ScanStop(lines, i);
        return Failure(IndexError);
      }
      if line[0] == '>' {
        fastaHeaders := fastaHeaders + [HeaderText(line)];
        if sequence != "" {
          fastaSeqs := fastaSeqs + [sequence];
        }
        sequence := "";
      } else {
        sequence := sequence + Body(line);
      }
      i := i + 1;
    }
    assert lines[..i] == lines;
    fastaSeqs := fastaSeqs + [sequence];
    return Success((fastaHeaders, fastaSeqs));
  }

  /** An empty line ends the scan with `IndexError`. */
  lemma {:induction false} ScanStop(lines: seq<string>, k: nat)
    requires k < |lines| && lines[k] == "" && Scan(lines[..k]).Success?
    ensures Scan(lines) == Failure(IndexError)
    decreases |lines|
  {
    var n := |lines| - 1;
    var init := lines[..n];
    assert lines == init + [lines[n]];
    ScanSnoc(init, lines[n]);
    if k < n {
      assert init[..k] == lines[..k];
      ScanStop(init, k);
    } else {
      assert lines[..k] == init;
    }
  }
}
