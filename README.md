# yax core, modelled in Dafny

yax is a bioinformatics pipeline that identifies the taxa present in a
sequencing sample. This project models the deterministic core of that
pipeline and proves properties of the model:

- **The run and artifact store** (`store.dfy`, `run_schema.dfy`). This is
  `ArtifactMap` of `yax/state/artifact_map.py`. It holds the `Run`,
  `Artifact` and `Artifact_Run` tables as sequences of rows inside a class.
  A run is deduplicated by its whole parameter vector, and an artifact is
  shared between runs that agree on the parameters upstream of it. The Run
  table's columns and its UNIQUE constraint are derived from the pipeline
  details and the node parameters.
- **Pipeline nodes and typed parameters** (`exe.dfy`, `parameters.dfy`):
  `ExeNode`, `ExeGraph` and the parameter classes' `from_string` and
  `validate`.
- **The artifact completion flag** (`artifact.dfy`). This is a two-state
  machine keyed on a `.complete` file in the artifact's directory.
- **The two taxonomy tools.** `taxidtool.dfy` covers
  `yax/shared/utilities/taxidtool.py`. `taxidsig.dfy` and `sigclip.dfy`
  cover the older `yax/taxa_identification/TaxIDBranchwtaxidsig.py`.
  They parse the NCBI dumps, build root-first ancestor chains and child
  lists, write taxid data as lines and read it back, take the subtree below
  a set of roots (`taxtree.dfy`, shared by both tools), index gis by taxid,
  and filter a FASTA file down to that subtree while tallying its taxids.
- **Informative-hit counting** (`hits.dfy`) and **sample coverage**
  (`summary.dfy`). The first covers `yax/modules/identify_informative_hits.py`;
  the second covers coverage vectors, absolute coverage, top-N ordering and
  binning from `yax/modules/summary/summary.py`.
- **SAM record filtering** (`sam.dfy`). This is
  `yax/taxa_identification/GetTaxIDsFromAlignment.py`. It uses the FLAG bits
  of section 1.4 and the `NM` tag of section 1.5 of the SAMv1 specification.
- **The FASTA reader** of `yax/modules/readprep/supporting_functions.py`
  (`fasta.dfy`).

The shared vocabulary is in three modules:

- `base.dfy`: the Python exceptions the code can raise, a `Result`, and
  Python's insertion-ordered `dict` (a key sequence plus a map).
- `strings.dfy`: the `str` methods the code uses.
- `json.dfy`: `json.dumps` and `json.loads` of a list of strings.

Files, the database and the file system appear as values:

- a file is the sequence of its lines, or the text written (lines end at
  `\n` only; see "Left out" for Python's other line endings);
- a directory listing is a set of paths;
- the SQLite tables are sequences of rows.

The source's loops are methods with loop invariants. Each is proved equal
to a function, and the lemmas about those functions state what the source
promises. A loop that can run forever in the source (a parent chain or a
child list with a cycle) is bounded by the size of its table. Its result
`Diverges` stands for the hang, and a lemma shows that a larger bound would
not help.

## Model

| member | source | states |
|---|---|---|
| ArtifactFlag.Disk.constructor | yax/state/type/artifact.py:13 | the set of existing files that `is_complete` consults is exactly the given set |
| ArtifactFlag.Artifact.constructor | yax/state/type/artifact.py:15-18 | `data_dir` is the given directory, and `setup` runs once exactly when the completion flag is absent |
| ArtifactFlag.Artifact.Setup | yax/state/type/artifact.py:20-21 | the base `setup` hook changes nothing but the count of its own calls |
| ArtifactFlag.Artifact.Complete | yax/state/type/artifact.py:23-24 | `complete` adds the flag file `data_dir/.complete`, leaves every other file as it was, and the artifact is complete afterwards |
| ArtifactFlag.Touch | yax/state/type/artifact.py:24 | touching a path makes it exist and changes the existence of no other path |
| ArtifactFlag.TouchIdempotent | yax/state/type/artifact.py:24 | touching twice is touching once, and touching an existing flag changes nothing |
| ArtifactFlag.FlagPathInDir | yax/state/type/artifact.py:8-9 | the flag path is the directory joined with `.complete`, with one `/` inserted when the directory does not end in one |
| ArtifactFlag.FlagPathTestVector | yax/state/tests/test_artifact.py:27-28 | the flag that the unit test expects, `os.path.join(dir, ".complete")`, is `/test/dir/.complete` for the test directory `/test/dir/` |
| ArtifactFlag.Lifecycle | yax/state/type/artifact.py:15-24 | a new artifact on an empty disk runs `setup` once, and after `complete` exactly its flag file exists and it reports complete |
| ArtifactFlag.ReopenComplete | yax/state/type/artifact.py:15-18 | reopening a directory whose flag exists keeps `data_dir` and does not run `setup` |
| ArtifactFlag.FlagPathAsWrittenDiffers | yax/state/type/artifact.py:8-9 | the method as written returns `None` for every directory, never the joined path |
| ArtifactFlag.IsCompleteAsWrittenAlwaysRaises | yax/state/type/artifact.py:11-13 | `is_complete` as written raises `AttributeError` for every directory and disk, so no artifact can be constructed |
| ArtifactFlag.CompleteAsWrittenNeverCompletes | yax/state/type/artifact.py:23-24 | with line 9 corrected so that the flag path is the joined path, `os.utime` on a missing flag raises `FileNotFoundError`, so `complete` as written never creates the flag that touching creates (uncorrected, the path is `None` and `os.utime` raises `TypeError`) |
| Exe.ModuleFunction.constructor | yax/state/exe.py:6-9 | a module's main function carries its name and its `__annotations__` dictionary |
| Exe.NewNode | yax/state/exe.py:6-13 | building a node succeeds exactly when the annotations declare `output`, and otherwise raises `TypeError`; a built node keeps the name, module and annotations |
| Exe.MakeNode | yax/state/exe.py:6-13 | the constructor reads the module's name and annotations and decides as `NewNode` does |
| Exe.CopyIsIndependent | yax/state/exe.py:9 | the node holds a copy: annotations changed on the module afterwards do not reach the node |
| Exe.SelectKeys | yax/state/exe.py:22-27 | the comprehension keeps exactly the keys other than `output` whose class is a parameter (or an artifact), and keeps them distinct |
| Exe.InputParams | yax/state/exe.py:21-23 | the input parameters are exactly the non-`output` entries whose class is a `Parameter` subclass, with their classes; `issubclass` on a non-class raises `TypeError` |
| Exe.InputArtifacts | yax/state/exe.py:25-27 | the input artifacts are exactly the non-`output` entries whose class is an `Artifact` subclass, with their classes; a non-class raises `TypeError` |
| Exe.ParamsArtifactsDisjoint | yax/state/exe.py:21-27 | no name is both an input parameter and an input artifact, and `output` is neither |
| Exe.NewNodeHasOutput | yax/state/exe.py:29-30 | the output of a built node is the `output` annotation that its construction required |
| Exe.ExeGraph.constructor | yax/state/exe.py:34-35 | a new graph has no nodes |
| Exe.ExeGraph.Append | yax/state/exe.py:37-38 | `append` adds the node at the end and changes nothing else |
| Exe.BuildGraph | yax/state/exe.py:33-41 | appending nodes one by one to a new graph iterates them back in the order appended |
| Parameters.FromString | yax/state/type/parameter.py:5-41 | `from_string` is the identity for `Parameter`, `File`, `Directory` and `Str`; for `Int` it succeeds exactly when `int()` accepts the text, with the parsed value |
| Parameters.IdentityFromString | yax/state/type/parameter.py:7-8 | the base `from_string`, inherited by `File`, `Directory` and `Str`, returns the text unchanged |
| Parameters.ValidateIsParseSuccess | yax/state/type/parameter.py:10-15 | the base `validate` (used by `Parameter`, `Int` and `Str`) is true exactly when `from_string` raises nothing |
| Parameters.DigitsValueOfNatDigits | yax/state/type/parameter.py:20-21 | the decimal digits of a natural number read back as that number |
| Parameters.ParseDecimal | yax/state/type/parameter.py:20-21 | round trip: `Int().from_string(str(n)) == n` for every integer `n` |
| Parameters.DecimalShape | yax/state/type/parameter.py:20-21 | `str(n)` is non-empty, has no surrounding space, starts with `-` exactly when `n` is negative, and is otherwise the digits of `abs(n)` |
| Parameters.ParseIntAlphabet | yax/state/type/parameter.py:20-21 | a text that `int()` accepts holds only white space, decimal digits, signs and underscores |
| Parameters.RejectsForeignChar | yax/state/type/parameter.py:20-21 | any other character makes `int()` raise `ValueError` |
| Parameters.IntTestVectorOne | yax/state/tests/test_parameters.py:10 | `Int().from_string("1") == 1` |
| Parameters.IntTestVectorMinusOne | yax/state/tests/test_parameters.py:11 | `Int().from_string("-1") == -1` |
| Parameters.IntTestVectorZero | yax/state/tests/test_parameters.py:12 | `Int().from_string("0") == 0` |
| Parameters.IntTestVectorLarge | yax/state/tests/test_parameters.py:13 | `Int().from_string("385038345") == 385038345` |
| Parameters.IntTestVectorsRejected | yax/state/tests/test_parameters.py:14-17 | `"395.98"` and `"test"` are rejected with `ValueError` |
| Fasta.HeaderText | yax/modules/readprep/supporting_functions.py:9 | a header's text has no leading `>` and no trailing white space |
| Fasta.Body | yax/modules/readprep/supporting_functions.py:14 | a sequence line contributes itself with the trailing newlines cut, and nothing else |
| Fasta.ScanSnoc | yax/modules/readprep/supporting_functions.py:7-14 | reading one more line continues the state reached on the lines before it, and a failure stays a failure |
| Fasta.ReadFastaFails | yax/modules/readprep/supporting_functions.py:7-8 | reading fails (`line[0]` raises `IndexError`) exactly when some line is empty; iterating over a file never yields an empty line, so this failure is reachable only for a line list given directly |
| Fasta.HeaderTextsSnoc | yax/modules/readprep/supporting_functions.py:8-9 | the headers of a file are those of its lines before the last, plus the last line's text when it starts with `>` |
| Fasta.BasesSnoc | yax/modules/readprep/supporting_functions.py:13-14 | the bases of a file are those of its lines before the last, plus the last line's body when it is not a header |
| Fasta.ScanContents | yax/modules/readprep/supporting_functions.py:7-14 | while reading, the headers are exactly the header lines' texts, the closed sequences and the open one together are exactly the bases, and no closed sequence is empty |
| Fasta.ReadFastaContents | yax/modules/readprep/supporting_functions.py:1-19 | the result lists every header's text in order, its sequences concatenate to every base in file order, there is at least one sequence, and only the last one can be empty |
| Fasta.ScanPairs | yax/modules/readprep/supporting_functions.py:7-15 | on a well-formed file (a header first, each header followed by a non-empty sequence line) every prefix reads with one sequence fewer than headers, the open one empty exactly after a header |
| Fasta.ReadFastaPairs | yax/modules/readprep/supporting_functions.py:1-19 | a well-formed file reads as many sequences as headers |
| Fasta.ReadFastaFile | yax/modules/readprep/supporting_functions.py:1-19 | the loop computes the reading specified by `ReadFasta`, including its `IndexError` on an empty line |
| Fasta.ScanStop | yax/modules/readprep/supporting_functions.py:7-8 | an empty line after a successfully read prefix makes the whole read fail with `IndexError`; a file never yields an empty line, so this branch is unreachable from file iteration |
| Fasta.ScanBody | yax/modules/readprep/supporting_functions.py:13-14 | after a prefix that read successfully, lines that are neither empty nor headers append their bodies (without the trailing newlines) to the open sequence and change nothing else |
| Fasta.ScanRecordHeader | yax/modules/readprep/supporting_functions.py:8-12 | on a file made of records, a record's header line records its text, closes the previous record's non-empty sequence, and opens an empty one |
| Fasta.ScanRecords | yax/modules/readprep/supporting_functions.py:7-14 | on a file made of records, the read so far holds every header's text, the sequences of all records but the last closed, and the last record's sequence open |
| Fasta.ReadFastaRecords | yax/modules/readprep/supporting_functions.py:1-19 | per record: a file made of records (a `>` header, then one or more non-empty lines not starting with `>`, the first with a non-empty body) reads as the records' header texts, and the i-th sequence is the concatenation of the bodies of the lines after the i-th header |
| SamFilter.Bin | yax/taxa_identification/GetTaxIDsFromAlignment.py:54 | `bin(n)[2:]` is never empty |
| SamFilter.BitString | yax/taxa_identification/GetTaxIDsFromAlignment.py:54-55 | the padded bit string has at least twelve characters |
| SamFilter.DecodeBitFlag | yax/taxa_identification/GetTaxIDsFromAlignment.py:37-64 | decoding fails exactly when `int(bit_flag)` does, and otherwise answers one of `unmapped`, `negative`, `positive` |
| SamFilter.BinDigit | yax/taxa_identification/GetTaxIDsFromAlignment.py:54 | the k-th character of `bin(n)[2:]` from the right is bit k of `n` |
| SamFilter.BinShort | yax/taxa_identification/GetTaxIDsFromAlignment.py:54 | a number below 2^k has at most k binary digits |
| SamFilter.BinLength | yax/taxa_identification/GetTaxIDsFromAlignment.py:54 | a number is below 2 to the power of its own number of binary digits |
| SamFilter.BitStringDigit | yax/taxa_identification/GetTaxIDsFromAlignment.py:54-55 | for a flag below 4096, position 11-k of the padded string is bit k of the flag |
| SamFilter.DecodeBits | yax/taxa_identification/GetTaxIDsFromAlignment.py:54-64 | for a flag in [0, 4096) the answer is `unmapped` when bit 2 (0x4, query unmapped) is set, else `negative` when bit 4 (0x10, reverse strand) is set, else `positive` |
| SamFilter.StrandBits | yax/taxa_identification/GetTaxIDsFromAlignment.py:56-64 | reading positions 9 and 7 of the padded string tests exactly the flag bits 0x4 and 0x10 |
| SamFilter.NmValue | yax/taxa_identification/GetTaxIDsFromAlignment.py:26 | the NM value is the integer in the third `:` field, and a tag with fewer fields raises `IndexError` |
| SamFilter.Tags | yax/taxa_identification/GetTaxIDsFromAlignment.py:23 | the tags scanned are the fields from the eleventh up to, and excluding, the last |
| SamFilter.NmScanFails | yax/taxa_identification/GetTaxIDsFromAlignment.py:22-26 | the NM scan raises exactly when some NM tag's value does not parse |
| SamFilter.NmScanNone | yax/taxa_identification/GetTaxIDsFromAlignment.py:22 | without an NM tag the edit distance stays 0 |
| SamFilter.NmScanLast | yax/taxa_identification/GetTaxIDsFromAlignment.py:23-26 | with several NM tags the last one wins |
| SamFilter.NmScanStop | yax/taxa_identification/GetTaxIDsFromAlignment.py:23-26 | the first NM tag whose value does not parse ends the scan with its error |
| SamFilter.ScanNm | yax/taxa_identification/GetTaxIDsFromAlignment.py:22-26 | the loop computes the scan specified by `NmScan` |
| SamFilter.HeaderSkipped | yax/taxa_identification/GetTaxIDsFromAlignment.py:8-9 | header lines (starting with `@`) contribute nothing |
| SamFilter.KeptRecord | yax/taxa_identification/GetTaxIDsFromAlignment.py:8-30 | a kept record is not a header, has no soft clip in its CIGAR, is not unmapped, has an NM of at most `nm_max`, and yields the part of the reference name before the first `|` |
| SamFilter.AnalyzeRecord | yax/taxa_identification/GetTaxIDsFromAlignment.py:8-30 | the body of the loop for one line decides as `AnalyzeLine` does, including its `IndexError` and `ValueError` cases |
| SamFilter.Steps | yax/taxa_identification/GetTaxIDsFromAlignment.py:7 | every line is analysed on its own |
| SamFilter.FoldSnoc | yax/taxa_identification/GetTaxIDsFromAlignment.py:7-32 | the loop's outcome on one line more extends its outcome on the lines before |
| SamFilter.FoldSound | yax/taxa_identification/GetTaxIDsFromAlignment.py:7-32 | every collected id comes from a line that is kept |
| SamFilter.FoldComplete | yax/taxa_identification/GetTaxIDsFromAlignment.py:7-32 | without an exception, every kept line's id is collected |
| SamFilter.FoldFails | yax/taxa_identification/GetTaxIDsFromAlignment.py:7-32 | the loop raises exactly when some step raises |
| SamFilter.FoldSkip | yax/taxa_identification/GetTaxIDsFromAlignment.py:9 | a skipped line changes nothing |
| SamFilter.FoldGrows | yax/taxa_identification/GetTaxIDsFromAlignment.py:32 | the ids only grow as lines are read |
| SamFilter.FoldStop | yax/taxa_identification/GetTaxIDsFromAlignment.py:7-32 | the first failing line ends the loop with the ids collected before it and that line's error |
| SamFilter.AnalyzeSound | yax/taxa_identification/GetTaxIDsFromAlignment.py:1-34 | every id added to the set is the reference id of some kept line of the file |
| SamFilter.AnalyzeComplete | yax/taxa_identification/GetTaxIDsFromAlignment.py:1-34 | when no line raises, the id of every kept line is added |
| SamFilter.AnalyzeFails | yax/taxa_identification/GetTaxIDsFromAlignment.py:1-34 | the function raises exactly when some line raises on its own |
| SamFilter.AnalyzeSkip | yax/taxa_identification/GetTaxIDsFromAlignment.py:8-28 | inserting a skipped line anywhere does not change the outcome |
| SamFilter.AnalyzeGrows | yax/taxa_identification/GetTaxIDsFromAlignment.py:32 | the ids of a prefix of the file are among the ids of the whole file |
| SamFilter.TaxidSet.constructor | yax/taxa_identification/GetTaxIDsFromAlignment.py:1 | the caller's set of taxids of interest, as handed in |
| SamFilter.TaxidSet.Add | yax/taxa_identification/GetTaxIDsFromAlignment.py:32 | `add` puts one id into the set and nothing else |
| SamFilter.AnalyzeSamFile | yax/taxa_identification/GetTaxIDsFromAlignment.py:1-34 | the caller's set grows by exactly the ids of kept lines up to the first exception, the call raises exactly when a line does, with that line's error, and otherwise returns the same set object |
| IdentifyHits.SumOverOther | yax/modules/identify_informative_hits.py:193-217 | changing the counter of a key outside a key list leaves the list's total unchanged |
| IdentifyHits.SumOverSet | yax/modules/identify_informative_hits.py:193-217 | changing the counter of a listed key changes the total by exactly the difference |
| IdentifyHits.Incremented | yax/modules/identify_informative_hits.py:213-216 | the counter of the id becomes its old value plus one, or 1 when it was absent; every other counter and the key order stay, and a new id goes last |
| IdentifyHits.IncrementedSum | yax/modules/identify_informative_hits.py:193-217 | incrementing adds exactly one to the total of all counters |
| IdentifyHits.IncrementTaxIdHits | yax/modules/identify_informative_hits.py:193-217 | the function returns the counters incremented as `Incremented` says |
| IdentifyHits.InformativeIff | yax/modules/identify_informative_hits.py:99-104 | a tax id meets the larger of the two thresholds exactly when it has at least `min_hits` hits and at least `min_relative_hits` percent of the informative total |
| IdentifyHits.Selected | yax/modules/identify_informative_hits.py:102-105 | the informative ids are exactly the listed ids that meet the threshold, no more than were listed |
| IdentifyHits.SelectedAppend | yax/modules/identify_informative_hits.py:103-105 | selection keeps the order of the dictionary: selecting from two parts is selecting from each |
| IdentifyHits.SelectedDistinct | yax/modules/identify_informative_hits.py:103-105 | selecting from distinct keys gives distinct ids |
| IdentifyHits.GetInformativeTaxIds | yax/modules/identify_informative_hits.py:73-107 | the loop returns the ids of the dictionary, in its order, whose hit count meets or beats the threshold |
| IdentifyHits.Dedup | yax/modules/identify_informative_hits.py:132-137 | the set of hits holds each character of the hit fields exactly once, as one-character strings |
| IdentifyHits.DedupSnoc | yax/modules/identify_informative_hits.py:134-135 | adding one character adds it only when it is new |
| IdentifyHits.DedupExtend | yax/modules/identify_informative_hits.py:134-135 | the same, one character of a field at a time |
| IdentifyHits.HitLine | yax/modules/identify_informative_hits.py:130-137 | a line fails with `IndexError` exactly when it has no `:`; otherwise it maps its second field, the read id, to the distinct characters of its fields from the second on |
| IdentifyHits.HitEntries | yax/modules/identify_informative_hits.py:129 | one entry per line |
| IdentifyHits.AddChars | yax/modules/identify_informative_hits.py:134-135 | the inner loop adds one field's characters to the set built so far |
| IdentifyHits.HitsOf | yax/modules/identify_informative_hits.py:132-135 | the two inner loops collect the distinct characters of all fields from the second on |
| IdentifyHits.GetHitTaxa | yax/modules/identify_informative_hits.py:110-139 | the loop builds the dictionary that `Collect` specifies over the lines' entries |
| IdentifyHits.GetHitTaxaFails | yax/modules/identify_informative_hits.py:130-131 | `get_hit_taxa` raises exactly when some line has no `:` |
| IdentifyHits.GetHitTaxaLast | yax/modules/identify_informative_hits.py:129-137 | a read id is a key exactly when some line names it, and then maps to the distinct hits of the last such line |
| IdentifyHits.SliceFrom | yax/modules/identify_informative_hits.py:176 | `parents[-lca_dist:]` is a suffix of the parents, of Python's length for negative and non-negative starts |
| IdentifyHits.LastParents | yax/modules/identify_informative_hits.py:175-176 | with `lca_dist` 0 the slice is all of the parents (not none), with `lca_dist` up to the length it is the last `lca_dist` parents, and beyond it all of them |
| IdentifyHits.Pool | yax/modules/identify_informative_hits.py:175-179 | looking up a hit raises `KeyError` exactly when it has no record; its pool holds only its own parents |
| IdentifyHits.Walk | yax/modules/identify_informative_hits.py:177-183 | the ancestor pool only grows along the walk |
| IdentifyHits.FirstHit | yax/modules/identify_informative_hits.py:167-188 | a read with no hits raises `IndexError`; a read that is counted is counted under its first hit |
| IdentifyHits.WalkKnown | yax/modules/identify_informative_hits.py:177-183 | a walk whose hits all have records does not raise |
| IdentifyHits.FirstHitKnown | yax/modules/identify_informative_hits.py:167-188 | as written (see Findings), a read with hits that all have records is counted under its first hit whatever their ancestor pools, because the `informative = False` after `break` is unreachable; a read fails only when it has no hits or some hit has no record |
| IdentifyHits.JoinedWalk | yax/modules/identify_informative_hits.py:177-184 | the intended pool test and the walk as written raise exactly the same errors |
| IdentifyHits.InformativeHitRefines | yax/modules/identify_informative_hits.py:167-188 | the intended count of a read (corrected half of lines 183-184) fails exactly when the one as written does, and a read it counts goes to the same first hit |
| IdentifyHits.InformativeHitDisjoint | yax/modules/identify_informative_hits.py:177-188 | two hits with disjoint ancestor pools: the intended test refuses the read, while as written it is counted under its first hit |
| IdentifyHits.CountedUnder | yax/modules/identify_informative_hits.py:167-188 | the body of the outer loop for one read decides as `FirstHit` does |
| IdentifyHits.Tally | yax/modules/identify_informative_hits.py:164-190 | the informative total equals the number of reads, and it is the sum of all counters |
| IdentifyHits.TallySnoc | yax/modules/identify_informative_hits.py:166-188 | one more read increments the counter of its first hit and the total |
| IdentifyHits.GetHitTaxids | yax/modules/identify_informative_hits.py:142-190 | the loop computes the counters and total that `Tally` specifies |
| IdentifyHits.TallyFailed | yax/modules/identify_informative_hits.py:166-188 | an exception for one read ends the whole count with it |
| IdentifyHits.TallyFailsStep | yax/modules/identify_informative_hits.py:166-188 | the count of one more read fails exactly when the earlier count or that read fails |
| IdentifyHits.TallyFails | yax/modules/identify_informative_hits.py:142-190 | `get_hit_taxids` raises exactly when some read raises on its own |
| IdentifyHits.TallyCounts | yax/modules/identify_informative_hits.py:142-190 | a tax id is counted exactly when it is the first hit of some read, and its counter is the number of such reads |
| Json.Escape | yax/shared/utilities/taxidtool.py:194-196 | `json.dumps` copies printable ASCII other than `"` and `\` unchanged and writes every other character as a backslash escape |
| Json.DumpsPrintable | yax/shared/utilities/taxidtool.py:194-196 | with `ensure_ascii` the dumped list is printable ASCII, so it never holds the tab or newline that separate the file's fields and records |
| Json.UnescapeEscape | yax/shared/utilities/taxidtool.py:97-99 | `json.loads` reads every escape that `json.dumps` writes back as the character it stands for, surrogate pairs included |
| Json.ParseStringQuoted | yax/shared/utilities/taxidtool.py:97-99 | a dumped string literal loads back to the string, leaving the text after it |
| Json.ParseElementsJoined | yax/shared/utilities/taxidtool.py:97-99 | a list of dumped items separated by `", "` and closed by `]` loads back to the items |
| Json.LoadsDumps | yax/shared/utilities/taxidtool.py:97-99 | round trip: `json.loads(json.dumps(xs)) == xs` for every list of strings |
| Json.Dumps | yax/shared/utilities/taxidtool.py:194-196 | a dumped list is a bracketed text: it starts with `[` and ends with `]` |
| Json.Loads | yax/shared/utilities/taxidtool.py:97-99 | a document loads only when its first character after white space is `[`: only a list of strings is read (see Left out) |
| Strings.Split | yax/shared/utilities/taxidtool.py:95-96 | `str.split(sep)` gives at least one part |
| Strings.SplitRejoin | yax/shared/utilities/taxidtool.py:95-96 | round trip: joining the parts of `str.split(sep)` with `sep` gives the text back |
| Strings.SplitMax | yax/state/artifact_map.py:291-292 | `str.split(sep, n)` gives between one and n + 1 parts |
| Strings.SplitMaxRejoin | yax/state/artifact_map.py:291-292 | round trip: joining the parts of `str.split(sep, n)` with `sep` gives the text back |
| Strings.RStrip | yax/shared/utilities/taxidtool.py:95-96 | `rstrip()` keeps a prefix of the text that does not end in white space, and everything it drops is white space |
| Strings.LStrip | yax/state/type/parameter.py:20-21 | `lstrip()` keeps a suffix of the text that does not start with white space |
| Strings.Strip | yax/state/type/parameter.py:20-21 | `strip()` is no longer than the text, and a non-empty result starts and ends with a character other than white space |
| TaxidTool.Ancestors | yax/shared/utilities/taxidtool.py:155-158 | the parent walk fails only with `KeyError` for a taxid without a record or with `Diverges` once its bound of steps is spent |
| RunSchema.Translate | yax/state/artifact_map.py:398-405 | the type lookup succeeds for every parameter class but the base `Parameter`, for which the dictionary lookup raises `KeyError` |
| RunSchema.TranslateTable | yax/state/artifact_map.py:399-405 | `Int` maps to INTEGER, `Float` to REAL, and `Str`, `File` and `Directory` to TEXT |
| RunSchema.PrefixedNames | yax/state/artifact_map.py:383-390 | two column names with the same prefix are equal only when their keys are |
| RunSchema.DetailColumns | yax/state/artifact_map.py:380-387 | the detail columns exist exactly when every detail's class has an SQL type, and otherwise the lookup raises |
| RunSchema.DetailColumnsMembers | yax/state/artifact_map.py:380-387 | the detail columns are exactly one `details_<key>` column per detail other than `run_key` |
| RunSchema.ParamColumns | yax/state/artifact_map.py:389-393 | a node's columns are one `<node>_<param>` column per input parameter, in order, when every parameter class has an SQL type |
| RunSchema.NodeParamColumnsMembers | yax/state/artifact_map.py:389-393 | a node's columns exist exactly when its parameters are typed, and are exactly the columns of its input parameters |
| RunSchema.ConcatAllSnoc | yax/state/artifact_map.py:389-393 | the columns of one node more are appended after those of the nodes before it |
| RunSchema.ConcatAllPrefixFailure | yax/state/artifact_map.py:389-393 | a lookup that raises for an earlier node ends the whole loop |
| RunSchema.ConcatAllDefined | yax/state/artifact_map.py:389-393 | the node loop succeeds exactly when every node's columns do |
| RunSchema.ConcatAllMembers | yax/state/artifact_map.py:389-393 | the node loop's columns are exactly the columns of its nodes |
| RunSchema.NodeResults | yax/state/artifact_map.py:389 | the nodes are visited in graph order |
| RunSchema.NodeColumnsDefined | yax/state/artifact_map.py:389-393 | the parameter columns exist exactly when every node's columns do |
| RunSchema.NodeColumnsMembers | yax/state/artifact_map.py:389-393 | the parameter columns are exactly the parameter columns of the graph's nodes |
| RunSchema.Names | yax/state/artifact_map.py:396 | the names of the columns, in order |
| RunSchema.InitSchema | yax/state/artifact_map.py:355-360 | creating the Run table succeeds only with the columns that `_make_run_cols` builds, at least three of them and with distinct names; it fails when a lookup raises or SQLite rejects a duplicate column |
| RunSchema.RunSchemaShape | yax/state/artifact_map.py:355-396 | the Run table starts with the `id` primary key and the unique `run_key`, every other column has no column constraint, and the table's UNIQUE constraint covers exactly the other columns |
| RunSchema.SchemaUnconstrained | yax/state/artifact_map.py:387-393 | the detail and parameter columns carry no column constraint |
| RunSchema.SchemaUniqueNames | yax/state/artifact_map.py:394-396 | neither `id` nor `run_key` is under the table's UNIQUE constraint |
| RunSchema.UniqueNamesOf | yax/state/artifact_map.py:396 | with distinct names, `columns[2:]` excludes the first two columns' names |
| RunSchema.RunColumnUnconstrained | yax/state/artifact_map.py:387-393 | any detail or parameter column carries no column constraint |
| RunSchema.RunColumnsCover | yax/state/artifact_map.py:379-397 | every detail other than `run_key` and every input parameter of every node has its column |
| RunSchema.RunColumnsDefined | yax/state/artifact_map.py:379-405 | building the columns succeeds exactly when every detail and every node parameter has an SQL type |
| RunSchema.SectionPairs | yax/state/artifact_map.py:301-302 | one section contributes its keys, in order, as `<section>_<key>` with their values |
| RunSchema.LastWinsSnoc | yax/state/artifact_map.py:302 | assigning one more name overrides its earlier value |
| RunSchema.AssignStep | yax/state/artifact_map.py:301-302 | one entry more of a section assigns its flattened name |
| RunSchema.AssignSection | yax/state/artifact_map.py:301-302 | the inner loop assigns every entry of one section, later assignments winning |
| RunSchema.SectionPairsSnoc | yax/state/artifact_map.py:301-302 | one key more of a section adds its named pair at the end |
| RunSchema.ConfigPairsSnoc | yax/state/artifact_map.py:300-302 | one section more adds its pairs after those of the sections before |
| RunSchema.LastWinsKeys | yax/state/artifact_map.py:299-302 | the flattened dict's names are exactly the assigned names |
| RunSchema.LastWinsDistinct | yax/state/artifact_map.py:299-302 | when no two entries share a flattened name every value survives |
| RunSchema.LastWinsFrom | yax/state/artifact_map.py:299-302 | every flattened value was assigned under its name |
| RunSchema.PairListed | yax/state/artifact_map.py:300-302 | every section/key pair is assigned |
| RunSchema.PairSource | yax/state/artifact_map.py:300-302 | every assignment comes from a section/key pair of the configuration |
| RunSchema.FlatNameListed | yax/state/artifact_map.py:297-305 | every section/key pair has its column in the flattened config |
| RunSchema.FlatNameSource | yax/state/artifact_map.py:297-305 | every column of the flattened config comes from a section/key pair |
| RunSchema.FlattenNames | yax/state/artifact_map.py:297-305 | the flattened names are exactly `<section>_<key>` for the configuration's pairs, with `details_run_key` renamed `run_key` and never left behind |
| RunSchema.FlattenValues | yax/state/artifact_map.py:297-305 | when the flattened names do not clash, every pair's value is stored under its flattened name |
| RunSchema.FlattenConfig | yax/state/artifact_map.py:297-305 | the nested loops compute the flattening specified by `Flatten` |
| RunSchema.MakeDetailCols | yax/state/artifact_map.py:380-387 | the first loop of `_make_run_cols` builds the detail columns that `DetailColumns` specifies |
| RunSchema.MakeParamCols | yax/state/artifact_map.py:390-393 | the inner loop builds one node's parameter columns as `ParamColumns` specifies |
| RunSchema.MakeNodeCols | yax/state/artifact_map.py:389-393 | one node's columns, as `NodeParamColumns` specifies |
| RunSchema.MakeNodesCols | yax/state/artifact_map.py:389-393 | the outer loop builds the parameter columns of all nodes as `NodeColumns` specifies |
| RunSchema.MakeRunCols | yax/state/artifact_map.py:379-397 | `_make_run_cols` builds the Run columns that `RunColumns` specifies |
| ArtifactStore.SchemaColumns | yax/state/artifact_map.py:355-360 | the Run table created for a graph has `run_key` among its data columns and not `id`, and its UNIQUE constraint covers exactly the data columns other than `run_key` |
| ArtifactStore.TableColumns | yax/state/artifact_map.py:355-396 | the same, for any table whose first columns are `id` and `run_key` and whose names are distinct |
| ArtifactStore.TableDataColumns | yax/state/artifact_map.py:355-396 | such a table's data columns include `run_key`, exclude `id`, and leave at least one column for the UNIQUE constraint |
| ArtifactStore.TableUniqueColumn | yax/state/artifact_map.py:394-396 | a column is under the UNIQUE constraint exactly when it is a data column other than `run_key` |
| ArtifactStore.NextRunId | yax/state/artifact_map.py:307-327 | the id SQLite gives a new row is positive when the stored ids are |
| ArtifactStore.RunInsertion | yax/state/artifact_map.py:307-327 | `INSERT OR IGNORE` into Run raises an SQL error for an empty or unknown column list, and adds a row with the next id exactly when every column is given and neither the run key nor the parameter vector is taken; otherwise it is ignored |
| ArtifactStore.RunsValidSnoc | yax/state/artifact_map.py:355-360 | a row with a larger id, all columns, a new run key and a new parameter vector keeps the Run table's constraints |
| ArtifactStore.RunInsertionKeepsValid | yax/state/artifact_map.py:307-327 | an insertion into Run, whether it adds a row or is ignored, keeps ids positive and increasing, run keys unique and parameter vectors unique |
| ArtifactStore.Filter | yax/state/artifact_map.py:329-334 | a selection returns only stored rows that satisfy the WHERE clause |
| ArtifactStore.FilterHas | yax/state/artifact_map.py:329-334 | every stored row that satisfies the clause is selected |
| ArtifactStore.FilterSingle | yax/state/artifact_map.py:329-334 | when one row alone satisfies the clause, the selection is that row |
| ArtifactStore.FilterNone | yax/state/artifact_map.py:329-334 | when no row satisfies the clause, nothing is selected |
| ArtifactStore.SelectWhere | yax/state/artifact_map.py:329-334 | `_select_all_from` raises an SQL error for an empty or unknown WHERE clause and otherwise returns only matching stored rows |
| ArtifactStore.RowOfValid | yax/state/artifact_map.py:355-360 | every stored run row fills every column, holds a run key and has a positive id |
| ArtifactStore.KeyLookup | yax/state/artifact_map.py:196-220 | looking up a run key finds rows exactly when the key is stored, and the first row found holds that key |
| ArtifactStore.KeyOfRow | yax/state/artifact_map.py:196-220 | round trip: looking up the run key of a stored row selects that row alone |
| ArtifactStore.MatchesIffSameVector | yax/state/artifact_map.py:182-183 | for a complete configuration, a stored row satisfies `declare_run`'s lookup without the run key exactly when it holds the same parameter vector |
| ArtifactStore.DeclareRunNew | yax/state/artifact_map.py:153-194 | a configuration whose run key and parameter vector are both new adds one row with the next id and returns that id with an empty run key |
| ArtifactStore.DeclareRunExisting | yax/state/artifact_map.py:176-192 | the corrected `declare_run`, which is the one as written only when `lastrowid` is 0, i.e. on the first call on a new or reopened connection (`DeclareRunAsWrittenFresh`): a configuration whose parameter vector is stored returns that run's id and run key and adds no row; as written after an earlier insertion it returns the stale rowid with "" (`DeclareRunAsWrittenStale`) |
| ArtifactStore.DeclareRunKeyTaken | yax/state/artifact_map.py:182-187 | the corrected `declare_run`, which is the one as written only when `lastrowid` is 0 (`DeclareRunAsWrittenFresh`): a configuration with a stored run key but a new parameter vector raises `ValueError` naming the key and adds no row; as written after an earlier insertion it returns the stale rowid instead (`DeclareRunKeyTakenAsWritten`) |
| ArtifactStore.DeclareRunTwice | yax/state/artifact_map.py:153-194 | the corrected `declare_run` (see Findings): declaring the same new run twice returns the same id, the second time with the stored run key; as written on one connection the first call sets `lastrowid`, so the second call returns the id with "" (`DeclareRunTwiceAsWritten`) |
| ArtifactStore.DeclareRunAsWrittenFresh | yax/state/artifact_map.py:176-194 | on a connection with no earlier insertion, `declare_run` as written answers as `DeclareRunSpec` specifies |
| ArtifactStore.DeclareRunAsWrittenStale | yax/state/artifact_map.py:176-194 | as written, an ignored row after an earlier insertion is answered with the stale rowid and an empty run key, and nothing is stored |
| ArtifactStore.DeclareRunTwiceAsWritten | yax/state/artifact_map.py:153-194 | as written, declaring the same new run twice on one connection returns the first id with an empty run key both times, which differs from `DeclareRunSpec` whenever the run key is not empty |
| ArtifactStore.DeclareRunKeyTakenAsWritten | yax/state/artifact_map.py:176-187 | as written, after an earlier insertion, a run key held by another parameter vector yields the stale rowid instead of `ValueError` |
| ArtifactStore.FlattenNeverId | yax/state/artifact_map.py:297-305 | a flattened configuration never names the `id` column |
| ArtifactStore.FlatNameNotId | yax/state/artifact_map.py:302-304 | no section/key pair is flattened to `id` |
| ArtifactStore.NextArtifactId | yax/state/artifact_map.py:144-145 | a new artifact's id is positive and larger than every stored artifact id |
| ArtifactStore.LinkedGrows | yax/state/artifact_map.py:99-137 | artifacts and links only gain rows, so a run once linked to an artifact stays linked |
| ArtifactStore.AllLinkedGrows | yax/state/artifact_map.py:99-137 | the same for a list of artifact names |
| ArtifactStore.JoinRows | yax/state/artifact_map.py:336-351 | the join returns at most one row per link |
| ArtifactStore.JoinRowsMembers | yax/state/artifact_map.py:336-351 | the join returns exactly the (artifact, run) pairs of links whose run satisfies the parameters and whose artifact has the name |
| ArtifactStore.FindExisting | yax/state/artifact_map.py:336-351 | `_find_existing_artifacts` raises an SQL error exactly for an empty or unknown parameter list |
| ArtifactStore.SharedLinks | yax/state/artifact_map.py:128-135 | sharing found artifacts adds at most one link per row found |
| ArtifactStore.SharedLinksHas | yax/state/artifact_map.py:128-135 | every artifact found for another run is linked to this run |
| ArtifactStore.SharedFoundLinked | yax/state/artifact_map.py:128-135 | after sharing, the run is linked to an artifact with the name, even when every row found was its own |
| ArtifactStore.JoinRowsSource | yax/state/artifact_map.py:336-351 | every row the join returns names an artifact with the name and an existing link |
| ArtifactStore.SubConfig | yax/state/artifact_map.py:123-124 | the sub-configuration exists exactly when the configuration has every upstream node, and otherwise raises `KeyError` |
| ArtifactStore.SubConfigEntries | yax/state/artifact_map.py:123-124 | the sub-configuration has exactly the upstream nodes' sections, unchanged |
| ArtifactStore.RowById | yax/state/artifact_map.py:89-95 | `WHERE id = ?` finds a row exactly when some stored row has that id |
| ArtifactStore.BoundPaths | yax/state/artifact_map.py:222-256 | `dict(rows)` maps exactly the names of the run's linked artifacts, each to the path of one of them |
| ArtifactStore.ArtifactsWithId | yax/state/artifact_map.py:231-238 | the artifacts joined to one link are exactly those with its artifact id |
| ArtifactStore.LinkedArtifactsMembers | yax/state/artifact_map.py:231-242 | the join returns exactly the names and paths of the artifacts linked to the run |
| ArtifactStore.SplitMaxAtFirst | yax/state/artifact_map.py:291-292 | splitting `p_x` once at `_`, where `p` has none, gives `p` and `x` |
| ArtifactStore.DetailKeyRoundTrip | yax/state/artifact_map.py:277-293 | round trip: a detail name turned into its column and back is the detail name, `run_key` included |
| ArtifactStore.ArtifactMap.Init | yax/state/artifact_map.py:56-63 | a new database has the Run columns built from the graph and no runs, artifacts or links |
| ArtifactStore.ArtifactMap.Reopen | yax/state/artifact_map.py:56-63 | an existing database keeps its stored columns and rows unchanged, and the new connection's last rowid is 0 |
| ArtifactStore.ArtifactMap.Open | yax/state/artifact_map.py:38-63 | `__init__`: when `os.path.isfile` finds no database, the tables are created from the graph (failing exactly when the Run schema cannot be built) and start empty; when it finds one, the stored tables are used as they are; either way the last rowid starts at 0, so the first `declare_run` on the connection answers as `DeclareRunSpec` specifies |
| ArtifactStore.ArtifactMap.InsertRun | yax/state/artifact_map.py:307-327 | an insertion into Run changes only Run and keeps its constraints; `lastrowid` is the new row's id, or, when the row was ignored, the connection's last inserted rowid (0 on a connection with no earlier insertion), which it leaves unchanged |
| ArtifactStore.ArtifactMap.InsertArtifact | yax/state/artifact_map.py:143-145 | an insertion into Artifact appends one row with the next id, which becomes the connection's last rowid, and changes no other table |
| ArtifactStore.ArtifactMap.InsertLink | yax/state/artifact_map.py:150-151 | an insertion into Artifact_Run, which has no UNIQUE constraint, always appends one link, whose rowid becomes the connection's last rowid, and changes no other table |
| ArtifactStore.ArtifactMap.DeclareRun | yax/state/artifact_map.py:153-194 | `declare_run` as written answers as `DeclareRunAsWritten` specifies, which is `DeclareRunSpec` on a connection with no earlier insertion; it changes only Run, and a run it adds is found again by its run key |
| ArtifactStore.ArtifactMap.DeclareNewArtifact | yax/state/artifact_map.py:139-151 | a new artifact raises `FileExistsError` and changes nothing when its directory exists; otherwise it creates the directory `<run_id>_<name>_art`, one artifact row and one link, and the run is linked to it |
| ArtifactStore.ArtifactMap.FindFor | yax/state/artifact_map.py:121-127 | the search for an existing artifact raises `KeyError` or an SQL error, or returns only artifacts with the name and existing links |
| ArtifactStore.ArtifactMap.LinkShared | yax/state/artifact_map.py:128-135 | the inner loop adds one link per found artifact of another run and changes nothing else |
| ArtifactStore.ArtifactMap.ShareFound | yax/state/artifact_map.py:128-135 | after sharing found artifacts the run is linked to an artifact with the name |
| ArtifactStore.ArtifactMap.DeclareArtifact | yax/state/artifact_map.py:119-135 | one bound artifact is shared when found, created when not, and the run is linked to it on success; a failed search changes nothing; Run never changes |
| ArtifactStore.ArtifactMap.DeclareStep | yax/state/artifact_map.py:119-135 | the loop step keeps every artifact linked so far and links one more |
| ArtifactStore.ArtifactMap.DeclareArtifacts | yax/state/artifact_map.py:99-137 | on success the run is linked to every bound artifact and `bound_artifact_to_filepath` maps each of them; only Artifact and Artifact_Run gain rows |
| ArtifactStore.ArtifactMap.RunKeyToRunId | yax/state/artifact_map.py:196-220 | a run key converts to an id exactly when it is stored, to the id of the row holding it; otherwise `LookupError` |
| ArtifactStore.ArtifactMap.GetArgumentsForNode | yax/state/artifact_map.py:65-97 | the arguments are the node's input parameters, each with the value of its `<node>_<param>` column in the run's row; a missing run raises `LookupError` |
| ArtifactStore.ArtifactMap.BoundArtifactToFilepath | yax/state/artifact_map.py:222-256 | the map has exactly the names of the artifacts linked to the run, each with a path of such an artifact; a run with no artifacts raises `LookupError` |
| ArtifactStore.ArtifactMap.GetDetails | yax/state/artifact_map.py:258-295 | the details are exactly the graph's detail names, each with the value of its column in the run's row; a missing run raises `LookupError` |
| Summary.KeyParts | yax/modules/summary/summary.py:85-86 | reading a key back raises `IndexError` exactly when it has no `|` |
| Summary.TaxKeyAsWritten | yax/modules/summary/summary.py:159 | the key as written raises `KeyError` exactly for a gi without a tax id |
| Summary.SwappedKey | yax/modules/summary/summary.py:85-86 | the key as written reads back swapped: "Scientific Name" as the tax id and the tax id as the organism name |
| Summary.TaxKey | yax/modules/summary/summary.py:370-375 | the documented `organism-name|tax-id` key raises `KeyError` exactly for a gi without a tax id |
| Summary.KeyRoundTrip | yax/modules/summary/summary.py:85-86 | round trip: the documented key reads back as the gi's tax id and its organism name |
| Summary.Zeros | yax/modules/summary/summary.py:170 | `[0] * length` has `length` zeros, or none for a negative length |
| Summary.Register | yax/modules/summary/summary.py:154-171 | every record the first loop creates is fresh: the sequence's length, zero statistics and a zero vector (records are filed under the corrected key `Scientific Name|tax-id`; see Findings) |
| Summary.RegisterFails | yax/modules/summary/summary.py:154-159 | the first loop raises exactly when some sequence's gi has no tax id |
| Summary.PutKeeps | yax/modules/summary/summary.py:161-164 | storing one gi's record leaves every other gi's record unchanged |
| Summary.RegisterHas | yax/modules/summary/summary.py:154-171 | every sequence has a record under its tax id's key (records are filed under the corrected key `Scientific Name|tax-id`; see Findings) |
| Summary.RegisterLast | yax/modules/summary/summary.py:164-171 | the record of a gi is the fresh record of its last sequence (records are filed under the corrected key `Scientific Name|tax-id`; see Findings) |
| Summary.RegisterNext | yax/modules/summary/summary.py:158-171 | one more sequence adds its fresh record under its key, creating the key's dict when absent (records are filed under the corrected key `Scientific Name|tax-id`; see Findings) |
| Summary.RegisterFailed | yax/modules/summary/summary.py:154-159 | a sequence without a tax id ends the first loop with its `KeyError` |
| Summary.AddSequence | yax/modules/summary/summary.py:158-171 | the body of the first loop for one sequence computes the step of `Register` (records are filed under the corrected key `Scientific Name|tax-id`; see Findings) |
| Summary.PyIndex | yax/modules/summary/summary.py:192 | Python indexing of a list of `n` items accepts exactly the indices from `-n` to `n-1` |
| Summary.Cover | yax/modules/summary/summary.py:190-196 | covering an alignment keeps the vector's length |
| Summary.CoverAdds | yax/modules/summary/summary.py:190-193 | an alignment that starts inside the vector adds one to exactly the positions it spans, stopping at the end of the vector |
| Summary.CoverPastEnd | yax/modules/summary/summary.py:190-193 | an alignment that starts past the end of the vector raises `IndexError`, since the `break` test is never met |
| Summary.CoverBounds | yax/modules/summary/summary.py:190-196 | covering never lowers a value or the maximum, keeps every value at or below the new maximum, and a raised maximum is reached by some value |
| Summary.Step | yax/modules/summary/summary.py:176-196 | one alignment changes no key and no gi's set, only vectors |
| Summary.StepSkips | yax/modules/summary/summary.py:180-188 | an alignment whose key or gi has no record changes nothing |
| Summary.StepAdds | yax/modules/summary/summary.py:186-193 | an alignment of a recorded gi adds one to exactly its positions in that gi's vector and changes nothing else |
| Summary.ReplacedOthers | yax/modules/summary/summary.py:186-193 | replacing one gi's vector leaves every other record unchanged |
| Summary.ReplacedMax | yax/modules/summary/summary.py:194-196 | a raised vector bounded by the new maximum keeps `max_coverage` the largest value |
| Summary.StepMax | yax/modules/summary/summary.py:176-196 | each alignment keeps `max_coverage` the largest value of all vectors |
| Summary.Apply | yax/modules/summary/summary.py:176-196 | the second loop keeps every gi dict well formed |
| Summary.ApplyMax | yax/modules/summary/summary.py:176-196 | after any number of alignments `max_coverage` is the largest value of all vectors |
| Summary.ApplyNext | yax/modules/summary/summary.py:176-196 | one more alignment is one more `Step` |
| Summary.ApplyFailed | yax/modules/summary/summary.py:176-193 | an alignment that raises ends the second loop with its error |
| Summary.ParseSummaryMax | yax/modules/summary/summary.py:129-197 | the returned `max_coverage` is the largest value of all coverage vectors, or 0 when there is none |
| Summary.CoverRange | yax/modules/summary/summary.py:190-196 | the inner loop covers the alignment as `Cover` specifies |
| Summary.AddAlignment | yax/modules/summary/summary.py:176-196 | the body of the second loop for one alignment computes `Step` |
| Summary.ParseSummaryData | yax/modules/summary/summary.py:129-197 | `_parse_summary_data` computes the coverage and maximum that `ParseSummary` specifies (records are filed under the corrected key `Scientific Name|tax-id`; see Findings) |
| Summary.Positives | yax/modules/summary/summary.py:240-243 | the absolute coverage counts the covered bases: at most the length, the length exactly when every base is covered, and 0 exactly when none is |
| Summary.AbsoluteCoverage | yax/modules/summary/summary.py:240-243 | the counting loop returns the number of covered bases |
| Summary.Stated | yax/modules/summary/summary.py:236-247 | a gi's absolute coverage becomes its number of covered bases and its relative coverage that number over the vector's length, the rest unchanged |
| Summary.CoverageStats | yax/modules/summary/summary.py:229-247 | the statistics fail (`ZeroDivisionError`) exactly when some gi has an empty vector, and otherwise give every gi its number of covered bases and keep its vector |
| Summary.StatedStep | yax/modules/summary/summary.py:235-247 | stating one more gi keeps every other gi as it was |
| Summary.StatedAll | yax/modules/summary/summary.py:229-247 | after the loop every gi is stated, and no gi had an empty vector |
| Summary.CalculateCoverageStats | yax/modules/summary/summary.py:229-247 | the loop computes the statistics `CoverageStats` specifies, raising at the first empty vector |
| Summary.ChosenStatCase | yax/modules/summary/summary.py:200-226 | the order method is compared without regard to case |
| Summary.UpperIdempotent | yax/modules/summary/summary.py:208 | upper-casing twice is upper-casing once |
| Summary.StatKey | yax/modules/summary/summary.py:209-225 | every gi has a sort key |
| Summary.Insert | yax/modules/summary/summary.py:209-225 | inserting one gi into a sorted list adds exactly that gi |
| Summary.SortDesc | yax/modules/summary/summary.py:209-225 | sorting rearranges the gis without adding or losing any |
| Summary.InsertDescending | yax/modules/summary/summary.py:209-225 | inserting keeps the list in descending order of the key |
| Summary.InsertStable | yax/modules/summary/summary.py:209-225 | inserting puts a gi after every gi with an equal key |
| Summary.SortStable | yax/modules/summary/summary.py:209-225 | the sort is stable: gis with equal keys keep their order, as `list.sort(reverse=True)` keeps them |
| Summary.SortDescending | yax/modules/summary/summary.py:209-225 | the sorted gis are in descending order of the key |
| Summary.PySliceTo | yax/modules/summary/summary.py:226 | `references[:total_results]` is the prefix of Python's length for negative and non-negative bounds |
| Summary.OrderedSpec | yax/modules/summary/summary.py:200-226 | the top results are distinct gis of the tax id, `total_results` of them (or all), in descending order of the chosen statistic, and none left out ranks above one kept |
| Summary.TopPrefix | yax/modules/summary/summary.py:226 | a prefix of the sorted gis is distinct, descending, and ranks at or above every gi it leaves out |
| Summary.SortRearranges | yax/modules/summary/summary.py:204-225 | the sorted list holds exactly the tax id's gis, once each |
| Summary.DistinctMultiset | yax/modules/summary/summary.py:204-225 | a rearrangement of distinct gis is distinct |
| Summary.BinSequence | yax/modules/summary/summary.py:335-367 | the intended binning (see Findings) raises `ZeroDivisionError` exactly for a zero bin size and at least two bases; otherwise the result is `Bins` with width `abs(bin_size)`, so every cell, the last bin's included, holds its bin's average (Summary.BinsCell) |
| Summary.BinSequenceAsWritten | yax/modules/summary/summary.py:335-367 | the loop as written raises in the same cases, and otherwise gives `BinnedAsWritten`: the intended binning, except that a last base that starts a bin keeps its initial 0 |
| Summary.BinTurn | yax/modules/summary/summary.py:346-361 | one turn over base `n` closes a bin exactly when `n > 0` and `n % bin_size == 0`, then opens the next bin at `n`; the cells before the open bin stay the averaged bins, and the open bin's total grows by the base |
| Summary.FinishBins | yax/modules/summary/summary.py:362-366 | when `mid_bin` is set, the rest of the bases is averaged into the remaining cells, which completes the binning; with `mid_bin` as the source leaves it, the result is the as-written binning |
| Summary.FillRange | yax/modules/summary/summary.py:355 | `binned_data[a:b] = [v] * (b - a)` sets exactly the cells from `a` to `b` to `v` and leaves the rest unchanged |
| Summary.BoundaryTest | yax/modules/summary/summary.py:349 | for a base after the start of the open bin and at most one bin width past it, `n % bin_size == 0` holds exactly when it is the first base past the bin, for negative bin sizes too |
| Summary.ModUnique | yax/modules/summary/summary.py:349 | a quotient and a remainder in range are the result of the division |
| Summary.CloseMean | yax/modules/summary/summary.py:352-353 | dividing a full bin's total by its width gives the bin's average |
| Summary.BinClose | yax/modules/summary/summary.py:349-358 | closing the full bin stores its average in each of its cells and opens an empty bin at `n` |
| Summary.BinEnd | yax/modules/summary/summary.py:362-366 | at the end of the loop the open bin is the last one; its total over the rest of the bases is its average |
| Summary.BinOfDiv | yax/modules/summary/summary.py:349 | the bin holding base `i` starts at `(i // w) * w` |
| Summary.BinsCell | yax/modules/summary/summary.py:335-339 | every cell of the binning is the average of the bases of its bin: the `w` bases from the bin's start, cut off at the end of the sequence |
| Summary.BinsKeepTotal | yax/modules/summary/summary.py:335-367 | the binned cells add up to the total coverage of the sequence |
| Summary.BinsLastSingle | yax/modules/summary/summary.py:362-366 | a last bin of a single base holds that base's coverage |
| Summary.BinnedAsWrittenDropsLast | yax/modules/summary/summary.py:348-366 | as written, when the last base starts a bin, its cell is 0 and the cells add up to the total without that base |
| Summary.BinnedAsWrittenAgrees | yax/modules/summary/summary.py:348-366 | when the last base does not start a bin, the binning as written is the intended one |
| Summary.BinAsWrittenExample | yax/modules/summary/summary.py:348-366 | `[5, 7]` with `bin_size = 1` bins to `[5, 0]` as written and to `[5, 7]` as intended |
| TaxidTool.CollectFails | yax/shared/utilities/taxidtool.py:93-103 | filling a dictionary line by line fails exactly when some line fails |
| TaxidTool.CollectLast | yax/shared/utilities/taxidtool.py:47-50 | a key is in the dictionary exactly when some line assigns it, and it holds the value of the last such line |
| TaxidTool.ParseNamesDmp | yax/shared/utilities/taxidtool.py:6-17 | the loop over the lines returns the dictionary that the per-line entries, taken in order, define |
| TaxidTool.ParseNamesSpec | yax/shared/utilities/taxidtool.py:11-15 | fails exactly on a line that does not unpack into four fields; a taxid has a name exactly when some line gives its scientific name, and the name comes from the last such line |
| TaxidTool.ParseGiTaxidDmp | yax/shared/utilities/taxidtool.py:20-32 | the loop returns the grouping of the (gi, taxid) pairs of the lines |
| TaxidTool.GroupSpec | yax/shared/utilities/taxidtool.py:25-30 | grouping fails exactly on a malformed line; a taxid's gi list is its lines' gis in file order, and the taxid has an entry exactly when that list is non-empty |
| TaxidTool.ParseGisSpec | yax/shared/utilities/taxidtool.py:26 | `parse_gi_taxid_dmp` fails exactly on a line that does not strip and split into two tab-separated fields; otherwise each taxid gets the gis of its lines in order |
| TaxidTool.ParseNodesDmp | yax/shared/utilities/taxidtool.py:42-52 | the loop returns the dictionary that the per-line node records define |
| TaxidTool.ParseNodesSpec | yax/shared/utilities/taxidtool.py:47-50 | fails exactly on a line without four fields; on success every record is keyed by its own taxid, there is a record for exactly the taxids of the lines, and the last line of each taxid wins |
| TaxidTool.ParentChain | yax/shared/utilities/taxidtool.py:153-158 | the loop that walks up the parents returns the ancestor chain `Ancestors` gives, with one step per node as its bound |
| TaxidTool.AncestorsChain | yax/shared/utilities/taxidtool.py:155-158 | a walk that ends gives a true ancestor chain: root first, each entry the parent of the next, the last the parent of the taxid, empty exactly for a root |
| TaxidTool.ChainAncestors | yax/shared/utilities/taxidtool.py:155-158 | conversely, every ancestor chain shorter than the bound is exactly what the walk returns, so the chain is unique |
| TaxidTool.AncestorsSweep | yax/shared/utilities/taxidtool.py:155-158 | the walk reports `Diverges` exactly when following parents from the taxid never reaches a root within the bound |
| TaxidTool.AncestorsForever | yax/shared/utilities/taxidtool.py:155-158 | a walk that does not end within one step per node does not end with any bound, so `Diverges` stands for the source looping forever |
| TaxidTool.AncestorsMoreFuel | yax/shared/utilities/taxidtool.py:155-158 | once the walk ends, a larger bound gives the same result |
| TaxidTool.AncestorsExample | yax/shared/utilities/taxidtool.py:155-158 | in a four-node lineage, a species' parents are listed root first |
| TaxidTool.BuildTaxidData | yax/shared/utilities/taxidtool.py:108-166 | the method returns the records that `TaxidData` defines for the parsed dumps |
| TaxidTool.MakeRecords | yax/shared/utilities/taxidtool.py:141-158 | the first loop builds one record per node, in node order, or stops with the first taxid's error |
| TaxidTool.LinkChildren | yax/shared/utilities/taxidtool.py:160-164 | the second loop returns the records with children appended as `AddChildren` says |
| TaxidTool.ChildrenOfSpec | yax/shared/utilities/taxidtool.py:160-164 | a taxid is listed as a child of `p` exactly when some node other than "1" has it as its taxid and `p` as its parent |
| TaxidTool.LinkedSkip | yax/shared/utilities/taxidtool.py:161-162 | the node "1" adds no child |
| TaxidTool.LinkedAdd | yax/shared/utilities/taxidtool.py:163-164 | any other node appends its taxid to its parent's children and changes nothing else |
| TaxidTool.AddChildrenLinked | yax/shared/utilities/taxidtool.py:160-164 | when every parent has a record, linking succeeds and gives each record the children of the nodes in node order |
| TaxidTool.AddChildrenOrphan | yax/shared/utilities/taxidtool.py:163 | a node other than "1" whose parent has no record makes linking raise `KeyError` |
| TaxidTool.AddChildrenKeys | yax/shared/utilities/taxidtool.py:160-164 | linking adds and removes no taxid |
| TaxidTool.BaseRecordsSucceeds | yax/shared/utilities/taxidtool.py:142-158 | building the records succeeds exactly when every node's record can be built |
| TaxidTool.BaseRecordsValues | yax/shared/utilities/taxidtool.py:142-151 | for distinct taxids, the records are keyed in node order and each is that taxid's own record |
| TaxidTool.BaseRecordFields | yax/shared/utilities/taxidtool.py:145-158 | a built record carries its taxid, its scientific name, its gis (empty when it has none), its ancestor chain, its rank, no children and a zero count |
| TaxidTool.TaxidDataSizes | yax/shared/utilities/taxidtool.py:138-139 | `ValueError` is raised exactly when the three dumps do not satisfy `len(nodes) == len(names) >= len(taxid_gi)` |
| TaxidTool.TaxidDataLinked | yax/shared/utilities/taxidtool.py:138-166 | a successful build is the base records with every node's children linked |
| TaxidTool.TaxidDataSucceeds | yax/shared/utilities/taxidtool.py:138-166 | the build succeeds exactly when the sizes agree, every node has a name and a finite ancestor chain, and every node other than "1" has a parent with a record |
| TaxidTool.TaxidDataRecords | yax/shared/utilities/taxidtool.py:141-166 | each record of a successful build has its node's taxid, name, gis, ancestor chain, rank, zero count, and as children the non-root nodes naming it as parent |
| TaxidTool.TaxidDataEntry | yax/shared/utilities/taxidtool.py:145-164 | each record is the node's base record with its linked children appended |
| TaxidTool.TaxidDataNames | yax/shared/utilities/taxidtool.py:138-146 | after a successful build, the names dump has exactly the taxids of the nodes dump |
| TaxidTool.TaxidDataChildren | yax/shared/utilities/taxidtool.py:160-164 | `c` is among the children of `p` exactly when `c` is a node other than "1" whose parent is `p` |
| TaxidTool.WriteTaxidData | yax/shared/utilities/taxidtool.py:169-200 | the loop writes the text `TaxidText` gives: one tab-separated line per record, in order, joined by newlines |
| TaxidTool.ReadLines | yax/shared/utilities/taxidtool.py:91 | every line that `readlines` returns is non-empty |
| TaxidTool.RecordEntry | yax/shared/utilities/taxidtool.py:94-103 | a line that parses is keyed by its own taxid and starts with a zero count |
| TaxidTool.ParseTaxidData | yax/shared/utilities/taxidtool.py:66-105 | the loop returns the dictionary that the per-line records define |
| TaxidTool.ParseTaxidDataSpec | yax/shared/utilities/taxidtool.py:93-103 | parsing fails exactly on a malformed line; a taxid has a record exactly when some line gives one, and that record is from the last such line, with a zero count |
| TaxidTool.DumpsField | yax/shared/utilities/taxidtool.py:194-196 | a JSON list of strings contains no tab and no newline |
| TaxidTool.RecordLineRead | yax/shared/utilities/taxidtool.py:94-103 | a written record line reads back as the same record with its count reset, with or without its newline |
| TaxidTool.ReadJoined | yax/shared/utilities/taxidtool.py:200 | reading back lines joined by newlines gives each line, with its newline except on the last |
| TaxidTool.ParseWritten | yax/shared/utilities/taxidtool.py:169-200 | round trip: `parse_taxid_data` of what `write_taxid_data` wrote gives back the same records with their counts reset, for records filed under their own taxid whose taxid, name and rank hold no tab or newline and whose rank is non-empty with no trailing white space (`rstrip()` would drop an empty last field, so the five-field unpack raises ValueError, and would trim `"species "` to `"species"`) |
| TaxidTool.BuildBranch | yax/shared/utilities/taxidtool.py:261-292 | the branch holds exactly the taxids reachable from the roots through children, each copied unchanged; a reachable taxid without a record raises `KeyError`; the build succeeds exactly when the sweep reaches its end, and reports `Diverges` exactly when the sweep never ends (a reachable cycle) |
| TaxidTool.BuildGisToTaxids | yax/shared/utilities/taxidtool.py:295-316 | a gi is a key exactly when some record lists it, and it maps to the last record in order that lists it |
| TaxidSig.FirstWinsFails | yax/taxa_identification/TaxIDBranchwtaxidsig.py:24-34 | filling a dictionary that keeps the first entry of each key fails exactly when the first line of some key fails |
| TaxidSig.FirstWinsBadEntry | yax/taxa_identification/TaxIDBranchwtaxidsig.py:27-34 | a failing first line of a key makes the whole fill fail |
| TaxidSig.FirstWinsKeys | yax/taxa_identification/TaxIDBranchwtaxidsig.py:27-34 | a key is in the dictionary exactly when some line has it, and it holds the entry of its first line |
| TaxidSig.LineTaxid | yax/taxa_identification/TaxIDBranchwtaxidsig.py:26 | a line's taxid contains no space |
| TaxidSig.NodeEntry | yax/taxa_identification/TaxIDBranchwtaxidsig.py:28-34 | a new node entry has the placeholder name "sci_name", no gis, no children, at most one parent and a zero count |
| TaxidSig.ReadNodes | yax/taxa_identification/TaxIDBranchwtaxidsig.py:23-34 | the loop over the nodes lines returns the first-entry-wins dictionary of the lines' entries |
| TaxidSig.ReadNodesSpec | yax/taxa_identification/TaxIDBranchwtaxidsig.py:24-34 | reading fails exactly when the first line of some taxid has fewer than three `|` fields; otherwise there is an entry for exactly the taxids of the lines, taken from each taxid's first line, with no parent exactly when the line names the taxid as its own parent |
| TaxidSig.ApplyNames | yax/taxa_identification/TaxIDBranchwtaxidsig.py:44-49 | the loop over the names lines returns the entries with names set as `NamesFold` says |
| TaxidSig.LastNameSpec | yax/taxa_identification/TaxIDBranchwtaxidsig.py:44-49 | a taxid has no name update exactly when no line gives one for it; otherwise the update is the one from the last such line |
| TaxidSig.NamesFoldSpec | yax/taxa_identification/TaxIDBranchwtaxidsig.py:44-49 | applying the names changes only the name of each taxid that has an entry and a scientific-name line, to the name on its last such line; keys and order are unchanged |
| TaxidSig.ApplyGis | yax/taxa_identification/TaxIDBranchwtaxidsig.py:54-62 | the loop over the gi lines returns the entries with gis added as `GisFold` says |
| TaxidSig.GisToSpec | yax/taxa_identification/TaxIDBranchwtaxidsig.py:54-60 | a gi is gathered for a taxid exactly when some line pairs that gi with that taxid |
| TaxidSig.GisFoldFails | yax/taxa_identification/TaxIDBranchwtaxidsig.py:55-57 | adding the gis fails exactly when some line cannot be split into a gi and a taxid |
| TaxidSig.GiPairFails | yax/taxa_identification/TaxIDBranchwtaxidsig.py:55-57 | a gi line raises `IndexError` exactly when it holds no tab |
| TaxidSig.WithGis | yax/taxa_identification/TaxIDBranchwtaxidsig.py:58-62 | each entry's gis are extended by its own lines' gis in order; keys, order and everything else are unchanged, and taxids without an entry are skipped |
| TaxidSig.GisFoldValue | yax/taxa_identification/TaxIDBranchwtaxidsig.py:54-62 | a successful pass over the gi lines gives exactly `WithGis` |
| TaxidSig.SigUp | yax/taxa_identification/TaxIDBranchwtaxidsig.py:72-74 | the walk up fails only with `KeyError`, `IndexError` or `Diverges` |
| TaxidSig.SigUpChain | yax/taxa_identification/TaxIDBranchwtaxidsig.py:72-74 | a walk that ends gives the chain up to "1", root first, each entry the immediate parent of the next |
| TaxidSig.ChainSigUp | yax/taxa_identification/TaxIDBranchwtaxidsig.py:72-74 | conversely, every chain up to "1" shorter than the bound is exactly what the walk returns |
| TaxidSig.SigUpSweep | yax/taxa_identification/TaxIDBranchwtaxidsig.py:72-74 | the walk reports `Diverges` exactly when following immediate parents never reaches "1" or a dead end within the bound |
| TaxidSig.SigUpForever | yax/taxa_identification/TaxIDBranchwtaxidsig.py:72-74 | a walk that does not end within its bound does not end with any bound, so `Diverges` stands for the source looping forever |
| TaxidSig.SigUpMoreFuel | yax/taxa_identification/TaxIDBranchwtaxidsig.py:72-74 | once the walk ends, a larger bound gives the same result |
| TaxidSig.SigUpSame | yax/taxa_identification/TaxIDBranchwtaxidsig.py:72-74 | the walk reads only each taxid's immediate parent, so the children lists appended on line 70 do not change it |
| TaxidSig.WalkUp | yax/taxa_identification/TaxIDBranchwtaxidsig.py:71-74 | the `while` loop prepends to the parent list exactly the chain the walk up from the immediate parent finds |
| TaxidSig.LinkFamily | yax/taxa_identification/TaxIDBranchwtaxidsig.py:67-74 | the loop over the taxids returns the entries that `LinkFold` gives for the taxids in dictionary order |
| TaxidSig.KidsOfSpec | yax/taxa_identification/TaxIDBranchwtaxidsig.py:67-70 | a taxid is listed as a child of `p` exactly when it is one of the taxids and its immediate parent is `p` |
| TaxidSig.Linked | yax/taxa_identification/TaxIDBranchwtaxidsig.py:67-74 | linking keeps the keys and their order and gives each taxid the entry `LinkedAt` describes |
| TaxidSig.LineageEnds | yax/taxa_identification/TaxIDBranchwtaxidsig.py:71-74 | the final parent list of a taxid still ends with its immediate parent |
| TaxidSig.LinkedUps | yax/taxa_identification/TaxIDBranchwtaxidsig.py:67-74 | linking leaves every taxid's immediate parent as it was |
| TaxidSig.LinkedSkip | yax/taxa_identification/TaxIDBranchwtaxidsig.py:68 | a taxid without a parent changes nothing |
| TaxidSig.LinkedAdd | yax/taxa_identification/TaxIDBranchwtaxidsig.py:69-74 | a taxid with a parent is appended to its parent's children and gets the chain above its parent prepended to its parents; nothing else changes |
| TaxidSig.LinkStepLinked | yax/taxa_identification/TaxIDBranchwtaxidsig.py:67-74 | one step of the loop fails exactly when the taxid's parent has no entry or the walk above it fails, and otherwise extends the linked entries by that taxid |
| TaxidSig.LinkFoldValue | yax/taxa_identification/TaxIDBranchwtaxidsig.py:67-74 | a successful pass over distinct taxids gives exactly `Linked` |
| TaxidSig.LinkFoldFails | yax/taxa_identification/TaxIDBranchwtaxidsig.py:67-74 | the pass fails exactly when some taxid's parent is missing or the walk above it fails |
| TaxidSig.LinkAllFails | yax/taxa_identification/TaxIDBranchwtaxidsig.py:67-74 | over the whole dictionary, linking fails exactly when some entry breaks the walk |
| TaxidSig.ChainExtend | yax/taxa_identification/TaxIDBranchwtaxidsig.py:72-74 | the chain of a parent followed by the parent is the chain of its child |
| TaxidSig.LinkAllRecords | yax/taxa_identification/TaxIDBranchwtaxidsig.py:67-74 | after linking, keys are unchanged and each taxid gets, in dictionary order, the taxids whose immediate parent it is appended to its children, and its full lineage as its parents |
| TaxidSig.LinkAllLineage | yax/taxa_identification/TaxIDBranchwtaxidsig.py:67-74 | a root keeps no parents; any other taxid with one parent ends with its chain up to "1" |
| TaxidSig.Quoted | yax/taxa_identification/TaxIDBranchwtaxidsig.py:85 | each list item is printed between single quotes, as `str` of a list of strings without quotes or backslashes prints it |
| TaxidSig.SigLines | yax/taxa_identification/TaxIDBranchwtaxidsig.py:82-86 | one line per entry, in dictionary order |
| TaxidSig.WriteTaxidData | yax/taxa_identification/TaxIDBranchwtaxidsig.py:82-86 | the loop writes exactly the lines of the entries, one after the other |
| TaxidSig.WriteEntry | yax/taxa_identification/TaxIDBranchwtaxidsig.py:83-86 | one entry's line is its taxid and its five fields, each followed by a tab, then a newline |
| TaxidSig.Preprocessed | yax/taxa_identification/TaxIDBranchwtaxidsig.py:1-86 | a successful preprocessing gives well-formed entries |
| TaxidSig.NamesFoldValid | yax/taxa_identification/TaxIDBranchwtaxidsig.py:44-49 | applying the names keeps the dictionary well formed |
| TaxidSig.GisFoldValid | yax/taxa_identification/TaxIDBranchwtaxidsig.py:54-62 | adding the gis keeps the dictionary well formed |
| TaxidSig.LinkFoldValid | yax/taxa_identification/TaxIDBranchwtaxidsig.py:67-74 | linking keeps the dictionary well formed |
| TaxidSig.Preprocessing | yax/taxa_identification/TaxIDBranchwtaxidsig.py:1-86 | `preprocessing` fails with the error of the first failing stage, and otherwise writes the lines of the entries it built |
| TaxidSigClip.InputEntry | yax/taxa_identification/TaxIDBranchwtaxidsig.py:168-180 | a line that reads gives an entry with a zero count |
| TaxidSigClip.GetInputTaxidData | yax/taxa_identification/TaxIDBranchwtaxidsig.py:161-182 | the loop over the lines returns the dictionary that the per-line entries, taken in order, define |
| TaxidSigClip.GetInputTaxidDataFails | yax/taxa_identification/TaxIDBranchwtaxidsig.py:168-177 | reading fails exactly on a line that splits into fewer than six tab-separated fields |
| TaxidSigClip.GetInputTaxidDataLast | yax/taxa_identification/TaxIDBranchwtaxidsig.py:179-180 | a taxid has an entry exactly when some line gives one, and the entry comes from the last such line, with a zero count |
| TaxidSigClip.QuotedJoinEnds | yax/taxa_identification/TaxIDBranchwtaxidsig.py:85 | a non-empty printed list holds items that start and end with a quote |
| TaxidSigClip.StripBrackets | yax/taxa_identification/TaxIDBranchwtaxidsig.py:171 | stripping the brackets of a printed non-empty list leaves exactly its quoted items joined by `", "` |
| TaxidSigClip.Unquote | yax/taxa_identification/TaxIDBranchwtaxidsig.py:171 | removing the quotes of plain items leaves them joined by `", "` |
| TaxidSigClip.Unspace | yax/taxa_identification/TaxIDBranchwtaxidsig.py:172 | removing the spaces then leaves them joined by `","` |
| TaxidSigClip.ParseListRepr | yax/taxa_identification/TaxIDBranchwtaxidsig.py:171-176 | round trip: reading back a printed list of plain items gives the same list, except that the empty list comes back as `[""]` |
| TaxidSigClip.ListReprField | yax/taxa_identification/TaxIDBranchwtaxidsig.py:85 | a printed list of plain items holds no tab and no newline |
| TaxidSigClip.TabbedJoin | yax/taxa_identification/TaxIDBranchwtaxidsig.py:83-85 | fields each followed by a tab are the fields joined by tabs with one more tab |
| TaxidSigClip.Reread | yax/taxa_identification/TaxIDBranchwtaxidsig.py:179-180 | reading back keeps the keys and their order, and gives each entry its empty lists as `[""]` and a zero count |
| TaxidSigClip.SigLineBody | yax/taxa_identification/TaxIDBranchwtaxidsig.py:83-86 | the body of a written line is its fields joined by tabs with a trailing tab, and holds no newline |
| TaxidSigClip.InputEntryLine | yax/taxa_identification/TaxIDBranchwtaxidsig.py:168-180 | a written entry line reads back as the same taxid and the entry as `Reread` says |
| TaxidSigClip.WrittenBodies | yax/taxa_identification/TaxIDBranchwtaxidsig.py:82-86 | every written line is its body followed by its only newline |
| TaxidSigClip.ReadWrittenLines | yax/taxa_identification/TaxIDBranchwtaxidsig.py:164 | iterating over the written file gives back the written lines |
| TaxidSigClip.ReadWritten | yax/taxa_identification/TaxIDBranchwtaxidsig.py:82-86 | round trip: `get_input_taxid_data` of what `preprocessing` wrote gives the same taxids in the same order, each entry as `Reread` says, for entries whose taxid, name and rank hold no tab or newline, whose rank is non-empty with no trailing white space (an empty rank makes `this_line[5]` raise IndexError after `rstrip()`), and whose lists `str()` writes plainly |
| TaxidSigClip.NonEmpty | yax/taxa_identification/TaxIDBranchwtaxidsig.py:207-209 | the children followed are exactly those other than `""` |
| TaxidSigClip.BuildBranch | yax/taxa_identification/TaxIDBranchwtaxidsig.py:200-215 | the branch holds exactly the taxids reachable from the roots through children other than `""`, each copied unchanged; a reachable taxid without an entry raises `KeyError`; the build succeeds exactly when the sweep reaches its end, and reports `Diverges` exactly when the sweep never ends (a reachable cycle) |
| TaxidSigClip.BuildGisToTaxids | yax/taxa_identification/TaxIDBranchwtaxidsig.py:227-232 | a gi is a key exactly when some entry lists it, and it maps to the last entry in order that lists it |
| TaxidSigClip.HeaderGi | yax/taxa_identification/TaxIDBranchwtaxidsig.py:274 | reading the gi of a header fails only with `IndexError` |
| TaxidSigClip.HeaderGiFails | yax/taxa_identification/TaxIDBranchwtaxidsig.py:274 | a header without a space has no gi; otherwise the gi is found exactly when the second word holds a `:` |
| TaxidSigClip.RankWalkSpec | yax/taxa_identification/TaxIDBranchwtaxidsig.py:280-282 | the walk over the parents fails exactly when a parent has no entry; otherwise it yields the last parent of the truncation rank, or the taxid itself when there is none |
| TaxidSigClip.TruncateSpec | yax/taxa_identification/TaxIDBranchwtaxidsig.py:278-282 | without a truncation level, or at that rank, the taxid is kept; otherwise it is replaced by its last parent of that rank, and it fails exactly on a missing taxid or parent |
| TaxidSigClip.Truncated | yax/taxa_identification/TaxIDBranchwtaxidsig.py:276-282 | the loop returns the taxid `Truncate` gives |
| TaxidSigClip.Increment | yax/taxa_identification/TaxIDBranchwtaxidsig.py:283-286 | incrementing a count keeps the dictionary well formed |
| TaxidSigClip.ScanFails | yax/taxa_identification/TaxIDBranchwtaxidsig.py:268-292 | the scan fails exactly when some line is empty (never the case for lines read from a file, which always end in a newline or hold text), is a header without a gi, or is a known header whose taxid cannot be truncated |
| TaxidSigClip.ScanCounts | yax/taxa_identification/TaxIDBranchwtaxidsig.py:283-286 | after the scan, a taxid is counted exactly when some header's gi maps to it, and its count is the number of such headers |
| TaxidSigClip.LastKeptHeader | yax/taxa_identification/TaxIDBranchwtaxidsig.py:287-290 | after a header, lines are kept exactly when that header's gi is known |
| TaxidSigClip.LastKeptBody | yax/taxa_identification/TaxIDBranchwtaxidsig.py:271-272 | a sequence line does not change whether lines are kept |
| TaxidSigClip.ScanPrint | yax/taxa_identification/TaxIDBranchwtaxidsig.py:271-290 | lines are being kept exactly when the most recent header had a known gi |
| TaxidSigClip.ScanOut | yax/taxa_identification/TaxIDBranchwtaxidsig.py:271-292 | the scan writes exactly the lines `Emitted` describes: a `>taxid` line per known header and the sequence lines under it |
| TaxidSigClip.NextLine | yax/taxa_identification/TaxIDBranchwtaxidsig.py:271-292 | one pass of the loop body does what `ScanLine` says |
| TaxidSigClip.AddAlongTally | yax/taxa_identification/TaxIDBranchwtaxidsig.py:301-306 | the intended loop of lines 301-306, which skips a parent without an entry (see Findings; as written that raises `KeyError`, `AddAlongAsWrittenSpec`): adding along a parent list raises each entry's count by the count times the number of times the list names it, and changes nothing else |
| TaxidSigClip.AddAlongAsWrittenSpec | yax/taxa_identification/TaxIDBranchwtaxidsig.py:301-306 | as written, adding along the parents raises `KeyError` exactly when some parent has no entry, and otherwise agrees with the intended code |
| TaxidSigClip.CountStepTally | yax/taxa_identification/TaxIDBranchwtaxidsig.py:297-306 | the intended step, which skips a parent without an entry (see Findings; as written that raises `KeyError`, `CountStepAsWrittenSpec`): one taxid's update adds its count to its own entry and to each of its parents', once per time they are named |
| TaxidSigClip.PropagateFails | yax/taxa_identification/TaxIDBranchwtaxidsig.py:296-306 | the intended update, which skips a parent without an entry (see Findings; as written a missing parent also raises `KeyError`, `PropagateAsWrittenFails`): the update fails exactly on a counted taxid without an entry in the data or the tree, and keeps the taxids and their order |
| TaxidSigClip.PropagateTally | yax/taxa_identification/TaxIDBranchwtaxidsig.py:296-306 | the intended update (see Findings; the code as written is `PropagateAsWritten`, which raises `KeyError` on a parent without an entry): after the update, each entry's count is its old count plus `Tally`: the counts of itself and of the counted taxids below it |
| TaxidSigClip.CountStepAsWrittenSpec | yax/taxa_identification/TaxIDBranchwtaxidsig.py:297-306 | one taxid's update as written fails exactly when that taxid or one of its parents has no entry, and otherwise agrees with the intended step |
| TaxidSigClip.PropagateAsWrittenAgrees | yax/taxa_identification/TaxIDBranchwtaxidsig.py:296-306 | when the code as written succeeds it gives the intended result |
| TaxidSigClip.PropagateAsWrittenFails | yax/taxa_identification/TaxIDBranchwtaxidsig.py:296-306 | the code as written fails exactly when some counted taxid, or one of its parents, has no entry |
| TaxidSigClip.AddCount | yax/taxa_identification/TaxIDBranchwtaxidsig.py:297-306 | the intended loop body, which skips a parent without an entry (see Findings): the loop body for one taxid does what `CountStep` says |
| TaxidSigClip.UpdateCounts | yax/taxa_identification/TaxIDBranchwtaxidsig.py:296-306 | the intended update loop, which skips a parent without an entry (see Findings): the update loop returns what `Propagate` gives for the counted taxids in order |
| TaxidSigClip.OutputSequences | yax/taxa_identification/TaxIDBranchwtaxidsig.py:263-306 | the intended `output_sequences`, whose count update skips a parent without an entry (see Findings; the code as written is `OutputAsWritten`, which raises `KeyError("")` on a hit on the root, `RootHitAsWritten`): `output_sequences` returns the lines written and the updated entries that `Output` gives |
| TaxidSigClip.RootHeader | yax/taxa_identification/TaxIDBranchwtaxidsig.py:274 | the header `>r gi:5 x` has gi `5` |
| TaxidSigClip.RootScan | yax/taxa_identification/TaxIDBranchwtaxidsig.py:268-292 | a FASTA record whose gi the root lists is kept as `>1` and counts once for taxid "1" |
| TaxidSigClip.RootPropagate | yax/taxa_identification/TaxIDBranchwtaxidsig.py:301-306 | as written, updating the root, whose parents read back as `[""]`, raises `KeyError("")`; the intended update raises its count to 1 |
| TaxidSigClip.RootHitAsWritten | yax/taxa_identification/TaxIDBranchwtaxidsig.py:301-306 | a file with one record whose gi the root lists makes `output_sequences` as written raise `KeyError("")`, where the intended code writes `>1` and the sequence and counts the root once |
| TaxidSigClip.RootScanned | yax/taxa_identification/TaxIDBranchwtaxidsig.py:268-292 | the scan of that file keeps both lines and counts taxid "1" once |
| TaxTree.Explore | yax/shared/utilities/taxidtool.py:284-290 | a missing outcome names taxids without a record; a reached outcome contains the starting taxids |
| TaxTree.LevelShift | yax/shared/utilities/taxidtool.py:284-290 | starting one generation later shifts the generations by one |
| TaxTree.LevelEmpty | yax/shared/utilities/taxidtool.py:284 | an empty worklist stays empty |
| TaxTree.LevelPath | yax/shared/utilities/taxidtool.py:284-290 | every member of generation `k` ends a walk of `k` child steps from a root |
| TaxTree.PathLevel | yax/shared/utilities/taxidtool.py:284-290 | the `i`-th taxid of a walk from a root is in generation `i` |
| TaxTree.LevelReachable | yax/shared/utilities/taxidtool.py:284-290 | a taxid is in some generation exactly when it is reachable from the roots |
| TaxTree.ExploreReached | yax/shared/utilities/taxidtool.py:284-292 | when the loop ends normally it has visited only taxids with records, and exactly those in some generation |
| TaxTree.ExploreMissing | yax/shared/utilities/taxidtool.py:287 | a taxid reported missing is in some generation |
| TaxTree.ExploreMoreFuel | yax/shared/utilities/taxidtool.py:284-290 | once the sweep ends, a larger bound gives the same outcome |
| TaxTree.ExploreEndless | yax/shared/utilities/taxidtool.py:284-290 | a sweep cut off by its bound has non-empty generations of known taxids up to that bound |
| TaxTree.ExploreForever | yax/shared/utilities/taxidtool.py:284-290 | when every generation is non-empty and known, the sweep never ends with any bound |
| TaxTree.Pigeonhole | yax/shared/utilities/taxidtool.py:284-290 | a walk longer than the number of taxids repeats one |
| TaxTree.Splice | yax/shared/utilities/taxidtool.py:284-290 | cutting out the loop between two equal taxids leaves a shorter walk with the same ends |
| TaxTree.LevelsKeep | yax/shared/utilities/taxidtool.py:284-290 | if the first generations, one per taxid, hold only known taxids, then all generations do |
| TaxTree.CycleInLevel | yax/shared/utilities/taxidtool.py:284-290 | a reachable cycle has a member in every later generation |
| TaxTree.LevelsNonEmpty | yax/shared/utilities/taxidtool.py:284-290 | if generation number "count of taxids" is non-empty and all are known, every generation is non-empty |
| TaxTree.BranchEndlessForever | yax/shared/utilities/taxidtool.py:284-290 | a sweep that does not end within one step per taxid never ends, so `Diverges` stands for the source looping forever |
| TaxTree.BranchReached | yax/shared/utilities/taxidtool.py:281-292 | a finished branch holds exactly the taxids reachable from the roots, all of which have records |
| TaxTree.BranchMissing | yax/shared/utilities/taxidtool.py:287 | a reported missing taxid is reachable from the roots and has no record |
| TaxTree.StepAdd | yax/shared/utilities/taxidtool.py:286-288 | the next generation of one more taxid adds that taxid's children |
| TaxTree.ExploreStep | yax/shared/utilities/taxidtool.py:284-290 | one generation of the loop moves the worklist into the visited set and the children into the worklist |
| TaxTree.SweepLevel | yax/shared/utilities/taxidtool.py:286-289 | one pass over the worklist copies every worklist entry and gathers all their children, or stops at a worklist taxid without a record |
| TaxTree.CollectBranch | yax/shared/utilities/taxidtool.py:281-292 | the loop copies exactly the entries of the taxids the sweep reaches, raises `KeyError` with a missing taxid of the sweep, or reports `Diverges` when the sweep never ends |
| TaxTree.GisIndex | yax/shared/utilities/taxidtool.py:311-316 | a gi is a key exactly when some taxid lists it, and it maps to the last taxid in order that lists it |

## Left out

- **I/O.** All reading and writing of files, the `print` calls and the progress counters are left out. A file read is the sequence of its lines, and a file written is its text or its lines. Opening a missing file is not modelled.
- **SQLite.** The engine, cursors, connections and the `Artifact_Run` foreign keys are left out. The tables are sequences of rows. `INSERT OR IGNORE` adds no row when a UNIQUE constraint would be violated, and `lastrowid` then reports the connection's last inserted rowid (ArtifactStore.ArtifactMap.lastRowId). The connection is the one `__init__` opens, so that rowid starts at 0, for a new database and a reopened one alike. A rowid is never reused, because no row is ever deleted.
- ArtifactStore.RunKeyExists, ArtifactStore.RunKeyMissing: the message quotes a string run key in single quotes without the escapes Python's `repr` adds for quotes, backslashes and unprintable characters, and shows no digits for a float run key.
- **`auto_rollback`.** Each insert and each query of the store runs in its own `with auto_rollback(...)` block, which commits when the block ends, so a failure rolls back only its own block. A method that fails part-way keeps the rows its earlier blocks inserted. The store's methods model this by stating the rows they add; on failure, ArtifactStore.ArtifactMap.DeclareArtifacts states only that the tables grow, not which rows the blocks before the failure added.
- **Start-up file checks.** `os.path.isfile(db_fp)` in `ArtifactMap.__init__` is taken as an optional value holding the stored tables (ArtifactStore.ArtifactMap.Open); a stored database is assumed to hold tables as the store's own operations leave them. The directories `os.mkdir` finds in `_declare_new_artifact` are a set of existing directories. `_pretty_format_columns` only lays out text and is not part of this model.
- **The pipeline graph.** `graph.details`, the nodes' `get_input_params()` and `graph.bound_artifact_to_upstream_nodes` are an immutable input value. The graph classes those come from are not part of this model, and neither is adjacency or topological iteration.
- **Config key order.** The flattened configuration is modelled as a map, so its key order is not modelled. Column order comes from the graph, as in `_make_run_cols`.
- Parameters.FromString: `Float.from_string` (Python `float()`) is excluded by a precondition, because floating-point parsing is left out. `File.validate` and `Directory.validate` are modelled as membership in a given set of files and directories.
- Parameters.FromString: `int()` is modelled for ASCII digits, an optional sign, surrounding white space and single underscores between digits. Other Unicode digits and white space are left out.
- **The artifact API beyond `yax/state/type/artifact.py`.** `declare`, `module_id`, truthiness and `is_final_output` are not defined in that file.
- **`yax/state/type/artifact.py` as written.** The artifact model follows the flag-file behaviour the names and tests describe. The three defects in the file are modelled separately under "Findings".
- **`build_tree`, `output_sequences` and `output_tree` of `yax/shared/utilities/taxidtool.py`.**
  - `build_tree` calls the two-argument `build_branch` with three arguments, so it always raises `TypeError`.
  - `output_sequences` assigns to a field of an immutable record at line 383.
  - `output_tree` only writes a file.
- **`tree_builder` and `output_tree` of `yax/taxa_identification/TaxIDBranchwtaxidsig.py`.** `tree_builder` is a driver that reads the root files, calls the modelled parts and prints. `output_tree` only writes a file. Taking the exclusion branch out of the inclusion branch is not modelled separately.
- **Non-termination.**
  - A parent chain or child list with a cycle makes the source loop forever. The model stops after one step per table entry and reports `Diverges`.
  - `AncestorsForever`, `SigUpForever` and `BranchEndlessForever` show that no larger bound would end the loop.
- TaxidSigClip.ReadWritten: Python's `str` of a list is modelled as quoting each item in single quotes. The escapes `repr` uses for items holding quotes, backslashes or control characters are left out. The round trip is proved only for items without them (`PlainList`).
- **Order of Python sets.** `get_hit_taxa` builds `list(set(...))`, whose order depends on hashing. The model lists the elements in order of first occurrence, and only membership and distinctness are stated.
- TaxTree.GisIndex: `build_branch` visits its worklist in set order, so the key order of the branch dict depends on hashing. `build_gis_to_taxids` keeps the last taxid that lists a gi, so for a gi listed by several taxids the taxid it maps to depends on that order too. The model fixes one order, the worklist in order of first occurrence. Which taxids are in the branch does not depend on the order.
- TaxidSigClip.AddAlongTally, TaxidSigClip.CountStepTally, TaxidSigClip.PropagateFails, TaxidSigClip.PropagateTally, TaxidSigClip.AddCount, TaxidSigClip.UpdateCounts, TaxidSigClip.OutputSequences: these model the intended count update of `TaxIDBranchwtaxidsig.py` lines 296-306, which skips a parent without an entry. As written, `taxid_data[id_][5] += count` raises `KeyError` there, which the `except IndexError` does not catch; that behaviour is TaxidSigClip.PropagateAsWritten and TaxidSigClip.OutputAsWritten (see Findings).
- TaxidSigClip.UpdateCounts: the source's branch holds the very record objects of the taxid data (`TaxIDBranchwtaxidsig.py` line 210), so the count updates of lines 296-306 also show through `inclusion_tree`. The model's branch holds copies, and the update returns only the new taxid data. The update reads only the tree's parent lists, which it never changes, so its result is the same; later readers of the tree's counts are not modelled.
- IdentifyHits.Tally: the count of `get_hit_taxids` is kept as written, so every read with hits counts; the intended pool test (IdentifyHits.InformativeHit, see Findings) is stated and related to it, but the counting loop is not rebuilt on it.
- IdentifyHits.IncrementTaxIdHits: returns the updated dictionary rather than mutating it in place. The caller keeps only the returned value, so aliasing is not captured.
- **Floating point.** Floating-point values (the informative-hit threshold, `rel_coverage` and the bin averages) are exact reals. Rounding and the `%.4f` formatting of the HTML table are left out.
- **Plots and reports.** The plotting, PDF and HTML generation of `yax/modules/summary/summary.py` and its module-level script are left out.
- Summary.ChosenStatCase: `str.upper()` is modelled for ASCII letters only. Case mappings of other characters are left out.
- Summary.CalculateCoverageStats: the source visits the gis in sorted key order, and the model visits them in dictionary order. Each gi's update does not depend on the others, and a failure returns no partial update, so the result is the same.
- Summary.SortDesc: `list.sort(reverse=True)` is modelled as a stable insertion sort on the sort key. Python's reverse sort keeps equal keys in their original order, which is what the model does (`SortStable`).
- **`remove_illegal_characters`.** It is called by `read_fasta_file` after the loop and is not part of this model. The model stops at the raw headers and sequences.
- SamFilter.DecodeBits: the decoding is characterised for flags in [0, 4096), the range of the 12 FLAG bits of section 1.4 of the SAMv1 specification. The method itself is modelled for every integer.
- Summary.ParseSummaryData, Summary.Register, Summary.AddSequence, Summary.RegisterHas, Summary.RegisterLast, Summary.RegisterNext: records are filed under the corrected key `Scientific Name|tax-id` (Summary.TaxKey). The source files them under `tax-id|Scientific Name` (`summary.py` lines 159 and 178). Only the key's text differs; the as-written key and the swap it causes when read back are modelled by Summary.TaxKeyAsWritten and Summary.SwappedKey (see Findings).
- Json.Loads: only a JSON array of strings is read. `json.loads` also accepts any other JSON value (objects, numbers, nested lists, `null`); the model refuses those with `ValueError`. TaxidTool.ParseTaxidDataSpec's "malformed line" therefore includes lines whose list fields hold other JSON values, which the source would accept.
- Json.Unescape: a `\u` escape of a lone surrogate (a high one not followed by a low one, or a low one alone) is refused with `ValueError`; `json.loads` accepts it and yields the surrogate code point. Dafny's `char` cannot hold a surrogate. `json.dumps` of a list of strings never writes one, so the round trip Json.LoadsDumps is unaffected.
- TaxidTool.ReadLines, TaxidTool.ReadJoined, TaxidTool.ParseWritten, TaxidSigClip.ReadWritten, TaxidSigClip.ReadWrittenLines: lines end at `\n` only. Python reads text files with universal newlines, so a `\r` also ends a line and `\r\n` becomes `\n`. A taxid, name or rank holding a `\r` would therefore read back differently in the source. The round trips are proved only for taxid, name and rank fields free of tab and `\n`, for a rank that is non-empty and has no trailing white space (which `rstrip()` would remove), and, for TaxidTool.ParseWritten, for records filed under their own taxid (the reader keys each record by the taxid in its line); the `\r` case is not modelled.
- **Wrappers, glue and stubs.** The external-tool and configuration wrappers, `main` functions, stubs and glue files of the repository are outside the core and not part of this model.

## Findings

| source | as written | input that shows it | evidently intended | confidence | as-written member | corrected member |
|---|---|---|---|---|---|---|
| yax/state/type/artifact.py:9 | `_get_complete_flag_path` computes the joined path and drops it, so it returns `None` | any directory, e.g. `/test/dir/` | return `data_dir` joined with `.complete`, as the unit test expects | not executed | ArtifactFlag.FlagPathAsWrittenDiffers | ArtifactFlag.FlagPathInDir |
| yax/state/type/artifact.py:13 | `is_complete` calls `os.isfile`, which does not exist, so it raises `AttributeError`; the constructor reads it, so no artifact can be built | any directory and disk | `os.path.isfile` of the flag path | not executed | ArtifactFlag.IsCompleteAsWrittenAlwaysRaises | ArtifactFlag.Lifecycle |
| yax/state/type/artifact.py:24 | `complete` calls `os.utime` on the flag; with line 9 corrected, this raises `FileNotFoundError` while the flag is missing (as written, line 9 makes the path `None` and it raises `TypeError`), so an incomplete artifact can never be completed | a new artifact whose directory has no `.complete` file | touch the flag, creating it | not executed | ArtifactFlag.CompleteAsWrittenNeverCompletes | ArtifactFlag.Artifact.Complete |
| yax/taxa_identification/TaxIDBranchwtaxidsig.py:301-306 | a parent without an entry raises `KeyError`, which the `except IndexError` does not catch; the root's empty parent list reads back as `[""]`, so any hit on the root crashes | taxid data holding only the root "1" with gi 5, and the FASTA file `>r gi:5 x` / `ACGT` | report and skip a parent without an entry | not executed | TaxidSigClip.RootHitAsWritten | TaxidSigClip.PropagateTally |
| yax/modules/summary/summary.py:348-366 | a boundary (`n % bin_size == 0`) clears `mid_bin`; when the last base is one, the loop ends with `mid_bin` false, the final fill is skipped, and the last cell keeps its initial 0 | `[5, 7]` with `bin_size = 1` gives `[5, 0]`; `[1, 2, 3]` with `bin_size = 2` gives `[1.5, 1.5, 0]` | fill the last bin with its average, so that every cell holds its bin's average and the total coverage is kept | not executed | Summary.BinnedAsWrittenDropsLast | Summary.BinsKeepTotal |
| yax/state/artifact_map.py:176-192 | `_insert_into` returns `c.lastrowid`, which after an ignored `INSERT OR IGNORE` is the connection's last inserted rowid, not 0; `if not run_id` then fails after any earlier insertion, and the stale id is returned as a new run | `declare_run(c)` twice on one `ArtifactMap` gives `(1, "")` both times; a run key already held by another configuration gives the stale id instead of `ValueError` | treat an ignored insertion as no row (test the change count, or look the row up), giving `(1, run_key)` the second time and `ValueError` for a taken key | not executed | ArtifactStore.DeclareRunTwiceAsWritten | ArtifactStore.DeclareRunTwice |
| yax/modules/identify_informative_hits.py:183-184 | `informative = False` comes after `break`, so it is never run; `informative` stays true and every read with hits is counted under its first hit, whatever the ancestor pools | hits `a`, `b` whose last `lca_dist` ancestors are disjoint: the read is counted under `a` | set `informative = False` and then `break`, so a read whose hits share no ancestor within `lca_dist` is not counted | not executed | IdentifyHits.FirstHitKnown | IdentifyHits.InformativeHitDisjoint |
| yax/modules/summary/summary.py:159 | the coverage key is built as `tax-id|Scientific Name`, but lines 85-86 read it back as `name|tax-id`, so the tax id and the name come out swapped | any gi with a tax id, e.g. gi 5 with tax id 562 | build the key as `Scientific Name|tax-id`, the form the reader expects | not executed | Summary.SwappedKey | Summary.KeyRoundTrip |
