# gspan2sdf in Dafny

A model of the converter `gspan2sdf.py`. The converter reads a gSpan graph file and writes one
MDL SDF (Molfile V2000) file for each graph. The model covers the two parts of the program
that carry its logic:

- **the atom table** `ATOM_LIST`. It holds 85 element symbols, looked up with Python's list
  indexing, which includes negative indices.
- **the conversion loop**. It is one forward pass over the input lines, and it dispatches on
  the first whitespace-separated word of each line:
  - a blank line writes the record built so far to `NNNNNN.sdf` and resets the accumulators;
  - `t` appends a header;
  - `v` resolves an atom index against the table and appends an atom line;
  - `e` appends a bond line;
  - any other line is skipped.

  Two flags shift the atom index (`--atom_shift`) and the bond endpoints (`--bond_shift`) by
  one. The first line that Python would raise on (`IndexError`, `ValueError`) stops the
  conversion. The files written before that line remain.

Modules, one per file:

- `Wrappers`: `Option` and `Result`.
- `Seqs`: small slicing facts, proved on their own.
- `PyStr`: the parts of Python's `str` and `int` the program uses:
  - `split()` over ASCII whitespace;
  - `rjust` and `ljust`;
  - `str(n)`;
  - `int(s)` for an optional sign followed by ASCII digits.
- `AtomTable`: `ATOM_LIST` and its lookup.
- `SdfRender`: the fixed-width text the loop builds. This covers the header, the counts line,
  atom lines, bond lines, the terminator and file names.
- `Segmenter`: the loop itself.
  - `Classify` reads one line into a record, or into the error Python raises on it. It checks
    the fields in the program's order.
  - `Step` is the effect of one record on the loop's variables.
  - `Run` and `Convert` are the pass as a function.
  - `ProcessLine` is the loop body, written imperatively over the variables.
  - `ConvertLines` is the loop, proved to compute `Convert`.
- `SegmenterProperties`: what the pass promises, stated over the records of the lines.
  - The records between blank lines form groups.
  - A well-formed input yields exactly one file per closed group. File `i` is named
    `FileName(i)`, and its text is built from that group alone.
  - Further lemmas cover errors, skipped lines, the dropped final graph, the shift flags and
    graph independence.
- `Examples`: a small input of the model's own, worked end to end. It also covers the
  edges of the atom table.

Three behaviours of the code are worth stating outright, because a reader of the output
format might expect otherwise. The model follows the code in each:

- **When the atom index is resolved.** The code looks the index up as soon as the `v` line
  is read (`gspan2sdf.py:127`), not when the graph is written out. An index outside the table
  raises `IndexError`, and that ends the whole run, not only the current graph.
- **Negative indices.** The code uses Python's list indexing, so `-1` is `"Rh"` and only
  indices below `-85` fail.
- **Edge endpoints.** Each is read with `int()` and written back with `str()`, plus one under
  the bond shift (`gspan2sdf.py:133-140`). So the value is copied, not its text: `e 007 +1 1`
  is written as `  7  1  1  0  0  0  0`. Nothing turns endpoints into 1-based positions.

## Model

| member | source | states |
|---|---|---|
| AtomTable.Symbol | gspan2sdf.py:7-14 | `ATOM_LIST[k]` succeeds exactly when `-85 <= k < 85`, as Python's list indexing does |
| AtomTable.AtomList | gspan2sdf.py:7-14 | the 85 symbols in the program's order, repeats included; `TableSize`, `SymbolIndex`, `PlatinumTwice`, `RhodiumTwice` and `SymbolsShort` state its shape |
| AtomTable.SymbolIndex | gspan2sdf.py:7-14 | a non-negative index names that position of the table; a negative index counts from the end |
| AtomTable.TableSize | gspan2sdf.py:7-14 | the table has 85 entries |
| AtomTable.LandmarkSymbols | gspan2sdf.py:7-14 | indices 0, 1 and 5 give H, He and C; 84 and -1 give Rh; -85 gives H; 85 and -86 fail |
| AtomTable.NegativeIndexWraps | gspan2sdf.py:7-14 | `k` and `k - 85` give the same symbol |
| AtomTable.PlatinumTwice | gspan2sdf.py:12-13 | "Pt" sits at exactly indices 62 and 73 |
| AtomTable.RhodiumTwice | gspan2sdf.py:7-14 | "Rh" sits at exactly indices 44 and 84 |
| AtomTable.SymbolsShort | gspan2sdf.py:7-14 | every symbol has one or two letters, so `ljust(4)` pads it and never overflows the field |
| PyStr.Split | gspan2sdf.py:90 | every word of `split()` is non-empty and holds no whitespace |
| PyStr.SplitIsRuns | gspan2sdf.py:90 | every line is its words laid out between whitespace runs, in order: a possibly empty run before the first word, a non-empty run between each two words, a possibly empty run after the last |
| PyStr.LayoutSplits | gspan2sdf.py:90 | conversely, words laid out between such runs are exactly what `split()` returns, so tabs, runs of spaces and leading or trailing whitespace do not change the words |
| PyStr.SplitEmptyIff | gspan2sdf.py:90-93 | `split()` is empty exactly when the line is empty or all whitespace |
| PyStr.SplitJoin | gspan2sdf.py:90 | splitting words joined by single spaces gives the words back |
| PyStr.PaddedWordSplits | gspan2sdf.py:95-96 | a word padded on the left with spaces splits back to that one word |
| PyStr.RJust | gspan2sdf.py:95-96 | `s.rjust(n, c)`, also used for the file name and the bond fields; `RJustPads` states what it promises |
| PyStr.LJust | gspan2sdf.py:127 | `s.ljust(n, c)`; `LJustPads` states what it promises |
| PyStr.RJustPads | gspan2sdf.py:95-96 | `rjust(n, c)` has length `max(n, len(s))`, ends with `s` and is `c` before it, so it never truncates |
| PyStr.LJustPads | gspan2sdf.py:127 | `ljust(n, c)` has length `max(n, len(s))`, starts with `s` and is `c` after it |
| PyStr.NatToString | gspan2sdf.py:95-96 | `str(n)` for a count or an ordinal; `NatToStringDigits`, `NatToStringWidth` and `NatRoundTrip` state what it promises |
| PyStr.IntToString | gspan2sdf.py:139 | `str(n)` for an endpoint, which may be negative; `IntToStringIsWord` and `IntRoundTrip` state what it promises |
| PyStr.NatToStringDigits | gspan2sdf.py:95-96 | `str(n)` is a non-empty run of digits, without a leading zero unless `n` is 0, and one digit exactly when `n < 10` |
| PyStr.NatToStringWidth | gspan2sdf.py:95-96 | `str(n)` fits in `k` columns exactly when `n < 10^k` |
| PyStr.IntToStringIsWord | gspan2sdf.py:139 | `str(n)` is one word of `split()` |
| PyStr.ParseInt | gspan2sdf.py:123-134 | `int(s)` succeeds exactly on an optional sign followed by at least one digit; it gives a value `<= 0` after `-` and `>= 0` otherwise, and `SignedLiteral` gives the value itself |
| PyStr.NatRoundTrip | gspan2sdf.py:95-96 | the digits of `str(n)` read back as `n` |
| PyStr.IntRoundTrip | gspan2sdf.py:139-140 | `int(str(n)) == n` for every integer |
| PyStr.LeadingZerosIgnored | gspan2sdf.py:123 | leading zeros do not change `int()` |
| PyStr.SignedLiteral | gspan2sdf.py:133-134 | `int()` of a literal with no sign, `+` or `-`, any leading zeros and the digits of `n` is `n`, or `-n` after `-` |
| PyStr.NumberFieldReadsBack | gspan2sdf.py:139 | a right-justified `str(n)` splits back to `str(n)`, which reads back as `n` |
| SdfRender.FileNameStem | gspan2sdf.py:101 | a file name ends in `.sdf`, and the part before reads back as the ordinal |
| SdfRender.FileNameInjective | gspan2sdf.py:101 | distinct ordinals get distinct file names |
| SdfRender.FileNameSixDigits | gspan2sdf.py:101 | below one million, a name is six digits then `.sdf` |
| SdfRender.FileName | gspan2sdf.py:101 | `str(graph_idx).rjust(6, "0") + ".sdf"`; `FileNameStem`, `FileNameInjective` and `FileNameSixDigits` state what it promises |
| SdfRender.HeaderText | gspan2sdf.py:117-119 | the graph name, the program tag `GSPAN_2_SDF` and an empty line, each ended by a newline; `GraphExample` shows it |
| SdfRender.CountsLine | gspan2sdf.py:95-97 | the two counts in three-column fields with the fixed V2000 suffix; `CountsLineWidth` and `CountsLineFields` state what it promises |
| SdfRender.AtomLine | gspan2sdf.py:126-128 | one atom line at the origin with its symbol left-justified to four columns; `AtomLineColumns` states what it promises |
| SdfRender.BondLine | gspan2sdf.py:139-140 | one bond line of three right-justified fields and the fixed suffix; `BondLineFields` states what it promises |
| SdfRender.Molfile | gspan2sdf.py:95-99 | the header lines, the counts line, the atom block, the bond block and the terminator, in that order; `ConvertWellFormed` states it per graph |
| SdfRender.CountsFieldWidth | gspan2sdf.py:95-96 | a count keeps its three-column field exactly when it is below 1000 |
| SdfRender.CountsLineWidth | gspan2sdf.py:95-97 | the counts line is 40 characters exactly when both counts are below 1000, and never shorter |
| SdfRender.CountsLineFields | gspan2sdf.py:95-97 | columns 0-2 and 3-5 of the counts line read back as the two counts; the rest is the fixed V2000 suffix |
| SdfRender.AtomLineColumns | gspan2sdf.py:126-128 | an atom line is 70 characters: the origin coordinates, the symbol at column 31 followed by spaces up to column 34, then the fixed suffix |
| SdfRender.BondLineFields | gspan2sdf.py:139-140 | a bond line is 22 characters; its three 3-column fields read back as the two endpoints and the label, and the fixed suffix follows |
| Segmenter.AtomNumber | gspan2sdf.py:123-124 | the atom index exists exactly when there is a third word holding an integer; it is that integer, plus one under the atom shift |
| Segmenter.ReadBond | gspan2sdf.py:133-138 | the bond reads exactly when there are four words and the second and third are integers; its endpoints are then `int()` of the second and third words, each plus one under the bond shift, and its label is the fourth word as written |
| Segmenter.Classify | gspan2sdf.py:90-140 | one line read in the program's branch order; `BlankIff` and `IgnoredIff` state its blank and skipped cases; `HeaderName` and `HeaderLine` state its `t` case both ways; `VertexRead` and `ShiftPolicies` state its `v` case; `EdgeLine` ties its `e` case to `ReadBond`; `ErrorIff` states when it fails |
| Segmenter.Step | gspan2sdf.py:93-140 | the effect of one record on the loop's variables; `StepNames` and `ResetAfterBlank` state what it promises |
| Segmenter.Advance | gspan2sdf.py:87-140 | one more line: a failed pass stays failed, and an error stops it with the files so far; `AdvanceKeepsFiles` and `FailAt` state what it promises |
| Segmenter.Run | gspan2sdf.py:73-140 | the pass over a prefix of the lines; `PassIsSummary`, `OnePerBlankLine` and `FailureIsFinal` state what it promises |
| Segmenter.Convert | gspan2sdf.py:73-140 | the files written and the error, if any; `ConvertLines` is proved to compute it, and `ConvertWellFormed`, `FirstErrorStops` and `TailDropped` state what it promises |
| Segmenter.ProcessLine | gspan2sdf.py:90-140 | the loop body leaves the variables as `Advance` prescribes for that line: the next state, or the stop with the files so far and this line's error |
| Segmenter.ProcessVertex | gspan2sdf.py:122-128 | the `v` branch of the loop body leaves the variables as `Advance` prescribes: the atom line appended and the vertex counted, or the stop with this line's error |
| Segmenter.ProcessEdge | gspan2sdf.py:131-140 | the `e` branch of the loop body leaves the variables as `Advance` prescribes: the bond line appended and the edge counted, or the stop with this line's error |
| Segmenter.ConvertLines | gspan2sdf.py:73-140 | the loop writes exactly the files of `Convert` and stops with its error, if any |
| Segmenter.FailureIsFinal | gspan2sdf.py:87-140 | once a line has raised, later lines change nothing |
| Segmenter.FailAt | gspan2sdf.py:87-140 | a line that raises ends the conversion with the files written before it and that line's error |
| SegmenterProperties.BlankIff | gspan2sdf.py:90-93 | a line ends a graph exactly when it is empty or all whitespace |
| SegmenterProperties.IgnoredIff | gspan2sdf.py:93-131 | a line is skipped exactly when it has a first word other than `t`, `v` and `e` |
| SegmenterProperties.ErrorIff | gspan2sdf.py:113-138 | a line raises exactly when it is one of: a `t` line with fewer than five words; a `v` line with fewer than three words, a non-integer third word or an index outside the table; an `e` line with fewer than four words or a non-integer endpoint |
| SegmenterProperties.HeaderName | gspan2sdf.py:113-114 | a header record holds the fifth word of a `t` line |
| SegmenterProperties.HeaderLine | gspan2sdf.py:113-119 | every `t` line of at least five words reads as a header holding its fifth word, so it appends another header |
| SegmenterProperties.EdgeLine | gspan2sdf.py:131-140 | an `e` line reads exactly as `ReadBond` reads its words: the bond with its endpoint values and label, or the error of the first field that fails |
| SegmenterProperties.VertexRead | gspan2sdf.py:122-128 | a line that reads as an atom is a `v` line with an integer third word, and the atom is the table entry at that index, plus one under the atom shift |
| SegmenterProperties.ShiftPolicies | gspan2sdf.py:123-137 | with the atom shift a vertex line looks up index `k + 1` instead of `k`, and no line other than a `v` line reads differently; with the bond shift an edge that reads has both endpoints one higher and the same label, and no line other than an `e` line reads differently |
| SegmenterProperties.AtomShiftOnlySymbolColumn | gspan2sdf.py:123-128 | on a vertex line that resolves either way, the atom shift changes only columns 31-34 of its atom line |
| SegmenterProperties.ErrorLine | gspan2sdf.py:87-140 | a reported error names a line of the input, and that line raises the reported error |
| SegmenterProperties.StepNames | gspan2sdf.py:101-104 | a blank record adds exactly one file, named by the current ordinal; other records add none |
| SegmenterProperties.OnePerBlankLine | gspan2sdf.py:93-104 | one file per blank line, named `000000.sdf`, `000001.sdf`, ... in order, whether or not the pass later stops; the ordinal equals the number of files |
| SegmenterProperties.PassIsSummary | gspan2sdf.py:73-140 | on a well-formed input the loop's variables are the summary of its records: one file per closed group, and the blocks of the pending group |
| SegmenterProperties.ConvertWellFormed | gspan2sdf.py:93-140 | file `i` of a well-formed input is named `FileName(i)`. Its text is, in order: the group's headers, the counts line, its atom lines, its bond lines, then `M  END` and `$$$$` |
| SegmenterProperties.FirstErrorStops | gspan2sdf.py:87-140 | with `j` the first line that raises, the outcome is the files of the lines before `j` and the error of line `j` |
| SegmenterProperties.ResetAfterBlank | gspan2sdf.py:106-110 | after a blank line the header, both blocks and both counts are empty again |
| SegmenterProperties.AdvanceKeepsFiles | gspan2sdf.py:113-140 | a line that is not blank adds no file |
| SegmenterProperties.TailDropped | gspan2sdf.py:87-142 | lines after the last blank line never reach a file, so an unterminated final graph is dropped |
| SegmenterProperties.IgnoredLineInvisible | gspan2sdf.py:113-140 | inserting a skipped line anywhere changes no file and no error; only a later error's line number moves down by one |
| SegmenterProperties.IgnoredLineKeepsFiles | gspan2sdf.py:113-140 | inserting a skipped line keeps the files, and keeps whether the conversion fails |
| SegmenterProperties.FilesOfGroups | gspan2sdf.py:93-104 | the files of a well-formed input are the rendered closed groups |
| SegmenterProperties.GroupsSplitAtBlank | gspan2sdf.py:106-110 | cutting a well-formed input after a blank line cuts its groups there too |
| SegmenterProperties.GraphsIndependent | gspan2sdf.py:106-110 | after a blank line, the rest of the input yields the files it would yield on its own, numbered on from the earlier files |
| SegmenterProperties.GroupsPartition | gspan2sdf.py:93-110 | the groups, each followed by its blank line, and then the pending records, are exactly the records; no group holds a blank record |
| Examples.GraphExample | gspan2sdf.py:73-140 | the model's example input (`t # 0 0 graphA`, `v 0 0`, `v 1 5`, `e 0 1 1`, blank) gives the one file `000000.sdf` with counts `  2  1`, atoms H and C, and bond line `  0  1  1  0  0  0  0` |
| Examples.GraphExampleBondShift | gspan2sdf.py:135-140 | with the bond shift, the same input's bond line is `  1  2  1  0  0  0  0` |
| Examples.LastIndexResolves | gspan2sdf.py:123-127 | atom index 84 resolves to Rh; under the atom shift the same line fails with index 85 |
| Examples.NextIndexFails | gspan2sdf.py:127 | atom index 85 fails |
| Examples.MinusOneWraps | gspan2sdf.py:127 | atom index -1 resolves to Rh |
| Examples.BelowTableFails | gspan2sdf.py:127 | atom index -86 fails |
| Examples.FirstFileName | gspan2sdf.py:101 | the first file is `000000.sdf` |
| Examples.EdgeAsRead | gspan2sdf.py:139-140 | the edge `0 1 1` is written unshifted as `  0  1  1  0  0  0  0` |
| Examples.EndpointsByValue | gspan2sdf.py:133-140 | `-007` reads as -7, and the edge words `e 007 +1 1` read as the bond 7, 1 (8, 2 under the bond shift), written `  7  1  1  0  0  0  0` |
| Examples.PaddedVertexWords | gspan2sdf.py:90 | the line `"  v\t0   5 "` splits into `v`, `0`, `5` |

## Left out

- Argument parsing (`parseargs`, `gspan2sdf.py:17-42`) is left out. The two shift flags are
  parameters instead.
- Logging (`gspan2sdf.py:53-59, 70, 142`) is left out. It is a side channel only.
- Reading the input file and `splitlines()` (`gspan2sdf.py:66-68`) are left out. The model
  takes the list of lines as input.
- Opening and writing the output files (`gspan2sdf.py:101-102`) are left out. The model
  returns each file as a name-and-content pair, relative to the output directory, in the
  order the program writes them. A failure while writing a file is not modelled.
- Appending `/` to the output directory (`gspan2sdf.py:62-63`) is left out. It is path
  plumbing that no file content depends on.
- PyStr.Split: `str.split()` also splits on the Unicode whitespace characters above U+007F.
  The model splits on ASCII whitespace and the separators U+001C-U+001F only. Lines that use
  other Unicode spaces are read differently.
- PyStr.ParseInt: Python's `int()` also accepts surrounding whitespace, `_` between digits
  and non-ASCII digits. The model accepts an optional sign and ASCII digits only. Surrounding
  whitespace cannot occur in a word of `split()`. The model also accepts literals of any
  length, and `IntToString` and `NatToString` write numbers of any length. CPython 3.11 and
  later raise `ValueError` by default when `int()` or `str()` converts a number of more than
  4300 digits. So an `e` line with a 4301-digit endpoint stops the program, yet the model
  writes a bond line for it.
- Segmenter.ConvertLines: Python raises an exception and prints a traceback. The model
  returns the error instead, with the zero-based line index, the kind of error and the
  offending token or index. The text of Python's message is not modelled.
- Segmenter.ProcessLine: the loop's variables are held in one `State` value whose fields
  mirror the program's variables. On an error path, the increment of `num_vertices` or
  `num_edges` before the failing read happens on a local copy. The state it belongs to is
  discarded with the error.
