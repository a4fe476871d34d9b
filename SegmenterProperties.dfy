/** What the conversion pass computes, stated without its accumulators.

    A well-formed input is cut at its blank lines into groups; the i-th group that a
    blank line closes becomes the file `FileName(i)`, whose text is made only from that
    group's records (`GraphText`); the lines after the last blank line produce nothing.
    Errors stop the pass at the first malformed line with the files of the groups closed
    before it.
 */
module SegmenterProperties {
  import opened Wrappers
  import opened PyStr
  import opened AtomTable
  import opened SdfRender
  import opened Segmenter
  import opened Seqs

  // ---------------------------------------------------------------------------
  // Specification functions
  // ---------------------------------------------------------------------------

  predicate IsBlank(line: string) {
    Split(line) == []
  }

  /** The number of blank lines in `lines`. */
  function CountBlanks(lines: seq<string>): nat
    decreases |lines|
  {
    if lines == [] then 0
    else CountBlanks(lines[..|lines| - 1]) + (if IsBlank(lines[|lines| - 1]) then 1 else 0)
  }

  predicate WellFormed(lines: seq<string>, atomShift: bool, bondShift: bool) {
    forall j :: 0 <= j < |lines| ==> Classify(lines[j], atomShift, bondShift).Ok?
  }

  /** The records of a well-formed input, line by line. */
  function Records(lines: seq<string>, atomShift: bool, bondShift: bool): (rs: seq<Record>)
    requires WellFormed(lines, atomShift, bondShift)
    ensures |rs| == |lines|
    decreases |lines|
  {
    if lines == [] then []
    else
      var n := |lines| - 1;
      Records(lines[..n], atomShift, bondShift) + [Classify(lines[n], atomShift, bondShift).value]
  }

  /** The groups of records closed by a `Blank`, in order, without the `Blank`. */
  function Groups(rs: seq<Record>): seq<seq<Record>>
    decreases |rs|
  {
    if rs == [] then []
    else
      var n := |rs| - 1;
      if rs[n] == Blank then Groups(rs[..n]) + [Pending(rs[..n])] else Groups(rs[..n])
  }

  /** The records after the last `Blank`. */
  function Pending(rs: seq<Record>): seq<Record>
    decreases |rs|
  {
    if rs == [] then []
    else
      var n := |rs| - 1;
      if rs[n] == Blank then [] else Pending(rs[..n]) + [rs[n]]
  }

  /** Each closed group followed by the `Blank` that closed it. */
  function Chunks(gs: seq<seq<Record>>): seq<Record>
    decreases |gs|
  {
    if gs == [] then [] else Chunks(gs[..|gs| - 1]) + gs[|gs| - 1] + [Blank]
  }

  /** The header lines of a group: one block per graph-start record, in order. */
  function HeaderBlock(g: seq<Record>): string
    decreases |g|
  {
    if g == [] then ""
    else
      var n := |g| - 1;
      HeaderBlock(g[..n]) + (if g[n].Header? then HeaderText(g[n].name) else "")
  }

  /** The atom block of a group: one line per vertex record, in order. */
  function VertexBlock(g: seq<Record>): string
    decreases |g|
  {
    if g == [] then ""
    else
      var n := |g| - 1;
      VertexBlock(g[..n]) + (if g[n].Atom? then AtomLine(g[n].symbol) else "")
  }

  /** The bond block of a group: one line per edge record, in order. */
  function EdgeBlock(g: seq<Record>): string
    decreases |g|
  {
    if g == [] then ""
    else
      var n := |g| - 1;
      EdgeBlock(g[..n])
      + (if g[n].Bond? then BondLine(g[n].source, g[n].target, g[n].bondLabel) else "")
  }

  /** The number of vertex records of a group. */
  function VertexCount(g: seq<Record>): nat
    decreases |g|
  {
    if g == [] then 0 else VertexCount(g[..|g| - 1]) + (if g[|g| - 1].Atom? then 1 else 0)
  }

  /** The number of edge records of a group. */
  function EdgeCount(g: seq<Record>): nat
    decreases |g|
  {
    if g == [] then 0 else EdgeCount(g[..|g| - 1]) + (if g[|g| - 1].Bond? then 1 else 0)
  }

  /** The SDF text of one group. */
  function GraphText(g: seq<Record>): string {
    Molfile(HeaderBlock(g), VertexCount(g), EdgeCount(g), VertexBlock(g), EdgeBlock(g))
  }

  /** The files of a sequence of closed groups, named by their ordinals. */
  function Rendered(gs: seq<seq<Record>>): (fs: seq<SdfFile>)
    ensures |fs| == |gs|
  {
    seq(|gs|, i requires 0 <= i < |gs| => SdfFile(FileName(i), GraphText(gs[i])))
  }

  /** The state the pass has reached after the records `rs`. */
  function Summary(rs: seq<Record>): State {
    var p := Pending(rs);
    State(HeaderBlock(p), VertexBlock(p), VertexCount(p), EdgeBlock(p), EdgeCount(p),
          |Groups(rs)|, Rendered(Groups(rs)))
  }

  function FilesOf(p: Progress): seq<SdfFile> {
    match p
    case Running(st) => st.files
    case Failed(written, _) => written
  }

  // ---------------------------------------------------------------------------
  // One line
  // ---------------------------------------------------------------------------

  /** A line reads as the end of a graph exactly when it is empty or all whitespace. */
  lemma BlankIff(line: string, atomShift: bool, bondShift: bool)
    ensures Classify(line, atomShift, bondShift) == Ok(Blank) <==> AllSpace(line)
    ensures Classify(line, atomShift, bondShift) == Ok(Blank) <==> IsBlank(line)
  {
    SplitEmptyIff(line);
  }

  /** A line is skipped exactly when its first word is none of `t`, `v`, `e`. */
  lemma IgnoredIff(line: string, atomShift: bool, bondShift: bool)
    ensures Classify(line, atomShift, bondShift) == Ok(Ignored) <==>
      var w := Split(line); w != [] && w[0] != "t" && w[0] != "v" && w[0] != "e"
  {
  }

  /** The error conditions, both ways: a `t` line with fewer than five words; a `v` line
      with fewer than three words, a third word that is no integer, or an atom index out
      of the table; an `e` line with fewer than four words or non-integer endpoints. */
  lemma ErrorIff(line: string, atomShift: bool, bondShift: bool)
    ensures Classify(line, atomShift, bondShift).Err? <==>
      var w := Split(line);
      w != [] &&
      ((w[0] == "t" && |w| < 5) ||
       (w[0] == "v" && (|w| < 3 || !IsIntLiteral(w[2]) ||
                        Symbol(ParseInt(w[2]).value + (if atomShift then 1 else 0)).None?)) ||
       (w[0] == "e" && (|w| < 4 || !IsIntLiteral(w[1]) || !IsIntLiteral(w[2]))))
  {
  }

  /** A graph-start line contributes its fifth word as the name. */
  lemma HeaderName(line: string, atomShift: bool, bondShift: bool)
    requires Classify(line, atomShift, bondShift).Ok?
    requires Classify(line, atomShift, bondShift).value.Header?
    ensures |Split(line)| >= 5 && Split(line)[0] == "t"
    ensures Classify(line, atomShift, bondShift).value.name == Split(line)[4]
  {
  }

  /** Conversely, every `t` line of at least five words reads as a header holding its
      fifth word. */
  lemma HeaderLine(line: string, atomShift: bool, bondShift: bool)
    requires var w := Split(line); w != [] && w[0] == "t" && |w| >= 5
    ensures Classify(line, atomShift, bondShift) == Ok(Header(Split(line)[4]))
  {
  }

  /** An `e` line reads exactly as `ReadBond` reads its words. */
  lemma EdgeLine(line: string, atomShift: bool, bondShift: bool)
    requires var w := Split(line); w != [] && w[0] == "e"
    ensures Classify(line, atomShift, bondShift) == ReadBond(Split(line), bondShift)
  {
  }

  /** The atom shift resolves the index one higher, and affects only vertex lines;
      the bond shift adds one to both endpoints, keeps the label, and affects only
      edge lines. */
  lemma ShiftPolicies(line: string, atomShift: bool, bondShift: bool)
    ensures var w := Split(line);
      w != [] && w[0] == "v" && |w| >= 3 && IsIntLiteral(w[2]) ==>
        var k := ParseInt(w[2]).value;
        Classify(line, true, bondShift) ==
          (if Symbol(k + 1).Some? then Ok(Atom(Symbol(k + 1).value)) else Err(AtomOutOfRange(k + 1))) &&
        Classify(line, false, bondShift) ==
          (if Symbol(k).Some? then Ok(Atom(Symbol(k).value)) else Err(AtomOutOfRange(k)))
    ensures var r := Classify(line, atomShift, false);
      r.Ok? && r.value.Bond? ==>
        Classify(line, atomShift, true) == Ok(Bond(r.value.source + 1, r.value.target + 1, r.value.bondLabel))
    ensures var w := Split(line); w == [] || w[0] != "e" ==>
      Classify(line, atomShift, true) == Classify(line, atomShift, false)
    ensures var w := Split(line); w == [] || w[0] != "v" ==>
      Classify(line, true, bondShift) == Classify(line, false, bondShift)
  {
  }

  /** On a vertex line that resolves both with and without the atom shift, the shift
      moves the lookup one entry along the table and changes only the symbol columns
      31-34 of the atom line. */
  lemma AtomShiftOnlySymbolColumn(line: string, bondShift: bool)
    requires Classify(line, false, bondShift).Ok? && Classify(line, false, bondShift).value.Atom?
    requires Classify(line, true, bondShift).Ok?
    ensures var w := Split(line);
      |w| >= 3 && w[0] == "v" && IsIntLiteral(w[2]) &&
      var k := ParseInt(w[2]).value;
      var s0, s1 := Classify(line, false, bondShift).value, Classify(line, true, bondShift).value;
      s0 == Atom(Symbol(k).value) && s1 == Atom(Symbol(k + 1).value) &&
      |AtomLine(s0.symbol)| == |AtomLine(s1.symbol)| == 70 &&
      AtomLine(s0.symbol)[..31] == AtomLine(s1.symbol)[..31] &&
      AtomLine(s0.symbol)[35..] == AtomLine(s1.symbol)[35..]
  {
    VertexRead(line, false, bondShift);
    VertexRead(line, true, bondShift);
    var k := ParseInt(Split(line)[2]).value;
    SymbolsShort(k);
    SymbolsShort(k + 1);
    AtomLineColumns(Symbol(k).value, Symbol(k + 1).value);
  }

  /** A line that reads as an atom is a `v` line whose third word is an integer, and the
      atom is the table entry at that index, plus one under the atom shift. */
  lemma VertexRead(line: string, atomShift: bool, bondShift: bool)
    requires Classify(line, atomShift, bondShift).Ok? && Classify(line, atomShift, bondShift).value.Atom?
    ensures var w := Split(line);
      |w| >= 3 && w[0] == "v" && IsIntLiteral(w[2]) &&
      var k := ParseInt(w[2]).value + (if atomShift then 1 else 0);
      Symbol(k).Some? && Classify(line, atomShift, bondShift) == Ok(Atom(Symbol(k).value))
  {
  }

  // ---------------------------------------------------------------------------
  // The whole pass
  // ---------------------------------------------------------------------------

  /** An error names a line of the input, and that line is one that fails to classify. */
  lemma {:induction false} ErrorLine(lines: seq<string>, atomShift: bool, bondShift: bool)
    ensures var p := Run(lines, atomShift, bondShift);
      p.Failed? ==> p.error.line < |lines| &&
                    Classify(lines[p.error.line], atomShift, bondShift) == Err(p.error.kind)
    decreases |lines|
  {
    if lines != [] {
      var n := |lines| - 1;
      ErrorLine(lines[..n], atomShift, bondShift);
      var p := Run(lines[..n], atomShift, bondShift);
      if p.Failed? {
        assert lines[..n][p.error.line] == lines[p.error.line];
      }
    }
  }

  /** The files are named by their ordinals. */
  predicate NamedInOrder(fs: seq<SdfFile>) {
    forall i :: 0 <= i < |fs| ==> fs[i].name == FileName(i)
  }

  /** One step keeps the files named in order and the ordinal equal to their number;
      a blank record, and no other, adds one file. */
  lemma StepNames(st: State, rec: Record)
    requires NamedInOrder(st.files) && st.graphIdx == |st.files|
    ensures var s := Step(st, rec);
      NamedInOrder(s.files) && s.graphIdx == |s.files| &&
      |s.files| == |st.files| + (if rec == Blank then 1 else 0)
  {
    if rec == Blank {
      var s := Step(st, rec);
      forall i | 0 <= i < |s.files| ensures s.files[i].name == FileName(i) {
        if i < |st.files| { assert s.files[i] == st.files[i]; }
      }
    }
  }

  /** The shape of the pass after `lines`: while it runs, the ordinal equals the number
      of files and of blank lines read; after an error at line `j`, the files are one per
      blank line before `j`; in both cases the files are named by their ordinals. */
  predicate Numbered(lines: seq<string>, p: Progress) {
    (p.Running? ==> p.state.graphIdx == |p.state.files| == CountBlanks(lines)) &&
    (p.Failed? ==> p.error.line < |lines| && |p.written| == CountBlanks(lines[..p.error.line])) &&
    NamedInOrder(FilesOf(p))
  }

  lemma AdvanceNumbered(lines: seq<string>, p: Progress, atomShift: bool, bondShift: bool)
    requires lines != []
    requires Numbered(lines[..|lines| - 1], p)
    ensures Numbered(lines, Advance(p, lines[|lines| - 1], |lines| - 1, atomShift, bondShift))
  {
    var n := |lines| - 1;
    match p
    case Failed(_, e) =>
      assert lines[..n][..e.line] == lines[..e.line];
    case Running(st) =>
      assert CountBlanks(lines) == CountBlanks(lines[..n]) + (if IsBlank(lines[n]) then 1 else 0);
      match Classify(lines[n], atomShift, bondShift)
      case Err(_) =>
      case Ok(rec) =>
        BlankIff(lines[n], atomShift, bondShift);
        StepNames(st, rec);
  }

  /** One file per blank line, until an error: the files are named `FileName(0)`,
      `FileName(1)`, ... in order, and the ordinal counter equals the number of files. */
  lemma {:induction false} OnePerBlankLine(lines: seq<string>, atomShift: bool, bondShift: bool)
    ensures Numbered(lines, Run(lines, atomShift, bondShift))
    decreases |lines|
  {
    if lines != [] {
      var n := |lines| - 1;
      OnePerBlankLine(lines[..n], atomShift, bondShift);
      AdvanceNumbered(lines, Run(lines[..n], atomShift, bondShift), atomShift, bondShift);
    }
  }

  lemma {:induction false} WellFormedPrefix(lines: seq<string>, k: nat, atomShift: bool, bondShift: bool)
    requires k <= |lines| && WellFormed(lines, atomShift, bondShift)
    ensures WellFormed(lines[..k], atomShift, bondShift)
  {
    forall j | 0 <= j < k ensures Classify(lines[..k][j], atomShift, bondShift).Ok? {
      assert lines[..k][j] == lines[j];
    }
  }

  lemma RenderedSnoc(gs: seq<seq<Record>>, g: seq<Record>)
    ensures Rendered(gs + [g]) == Rendered(gs) + [SdfFile(FileName(|gs|), GraphText(g))]
  {
    var l, r := Rendered(gs + [g]), Rendered(gs) + [SdfFile(FileName(|gs|), GraphText(g))];
    forall i | 0 <= i < |l| ensures l[i] == r[i] {
      if i < |gs| { assert (gs + [g])[i] == gs[i]; }
    }
  }

  /** The blocks of a group grow by one record's text at a time. */
  lemma BlocksSnoc(g: seq<Record>, r: Record)
    ensures var h := g + [r];
      (h[..|g|] == g) &&
      HeaderBlock(h) == HeaderBlock(g) + (if r.Header? then HeaderText(r.name) else "") &&
      VertexBlock(h) == VertexBlock(g) + (if r.Atom? then AtomLine(r.symbol) else "") &&
      VertexCount(h) == VertexCount(g) + (if r.Atom? then 1 else 0) &&
      EdgeBlock(h) == EdgeBlock(g) + (if r.Bond? then BondLine(r.source, r.target, r.bondLabel) else "") &&
      EdgeCount(h) == EdgeCount(g) + (if r.Bond? then 1 else 0)
  {
    assert (g + [r])[..|g|] == g;
  }

  /** A blank record closes the pending group and empties the accumulators. */
  lemma SummarySnocBlank(rs: seq<Record>)
    ensures Summary(rs + [Blank]) == Step(Summary(rs), Blank)
  {
    var h := rs + [Blank];
    Snoc(rs, Blank);
    assert Groups(h) == Groups(rs) + [Pending(rs)];
    assert Pending(h) == [];
    RenderedSnoc(Groups(rs), Pending(rs));
  }

  /** Any other record extends the pending group. */
  lemma SummarySnocRecord(rs: seq<Record>, r: Record)
    requires r != Blank
    ensures Summary(rs + [r]) == Step(Summary(rs), r)
  {
    var h, p := rs + [r], Pending(rs);
    Snoc(rs, r);
    assert Groups(h) == Groups(rs);
    assert Pending(h) == p + [r];
    var q := p + [r];
    assert Summary(h) == State(HeaderBlock(q), VertexBlock(q), VertexCount(q), EdgeBlock(q), EdgeCount(q),
                               |Groups(rs)|, Rendered(Groups(rs)));
    BlocksSnoc(p, r);
    AppendNil(HeaderBlock(p), "");
    AppendNil(VertexBlock(p), "");
    AppendNil(EdgeBlock(p), "");
  }

  /** One record moves the summary exactly as one step of the pass moves its state. */
  lemma SummarySnoc(rs: seq<Record>, r: Record)
    ensures Summary(rs + [r]) == Step(Summary(rs), r)
  {
    if r == Blank { SummarySnocBlank(rs); } else { SummarySnocRecord(rs, r); }
  }

  /** The segmentation theorem: on a well-formed input the pass is at the summary of its
      records, so it has written exactly the files of the closed groups, each group's
      text made from that group alone, and holds the blocks of the pending records. */
  lemma {:induction false} PassIsSummary(lines: seq<string>, atomShift: bool, bondShift: bool)
    requires WellFormed(lines, atomShift, bondShift)
    ensures Run(lines, atomShift, bondShift) == Running(Summary(Records(lines, atomShift, bondShift)))
    decreases |lines|
  {
    if lines != [] {
      var n := |lines| - 1;
      WellFormedPrefix(lines, n, atomShift, bondShift);
      PassIsSummary(lines[..n], atomShift, bondShift);
      var rs := Records(lines[..n], atomShift, bondShift);
      var r := Classify(lines[n], atomShift, bondShift).value;
      assert Records(lines, atomShift, bondShift) == rs + [r];
      SummarySnoc(rs, r);
    }
  }

  /** The files of a well-formed input: file i is named `FileName(i)` and holds the text
      of the i-th group closed by a blank line; there is no error. */
  lemma ConvertWellFormed(lines: seq<string>, atomShift: bool, bondShift: bool)
    requires WellFormed(lines, atomShift, bondShift)
    ensures var gs := Groups(Records(lines, atomShift, bondShift));
      var files := Convert(lines, atomShift, bondShift).files;
      Convert(lines, atomShift, bondShift) == Outcome(Rendered(gs), None) &&
      |files| == |gs| &&
      forall i :: 0 <= i < |gs| ==> files[i] == SdfFile(FileName(i), GraphText(gs[i]))
  {
    PassIsSummary(lines, atomShift, bondShift);
  }

  /** A malformed line stops the pass: with `j` the first line that fails to classify,
      the outcome is the files of the lines before `j` and the error of line `j`. */
  lemma FirstErrorStops(lines: seq<string>, j: nat, atomShift: bool, bondShift: bool)
    requires j < |lines|
    requires Classify(lines[j], atomShift, bondShift).Err?
    requires forall k :: 0 <= k < j ==> Classify(lines[k], atomShift, bondShift).Ok?
    ensures Convert(lines[..j], atomShift, bondShift).error == None
    ensures Convert(lines, atomShift, bondShift) ==
      Outcome(Convert(lines[..j], atomShift, bondShift).files,
              Some(ConvError(j, Classify(lines[j], atomShift, bondShift).error)))
  {
    assert WellFormed(lines[..j], atomShift, bondShift) by {
      forall k | 0 <= k < j ensures Classify(lines[..j][k], atomShift, bondShift).Ok? {
        assert lines[..j][k] == lines[k];
      }
    }
    PassIsSummary(lines[..j], atomShift, bondShift);
    var st := Summary(Records(lines[..j], atomShift, bondShift));
    FailAt(lines, j, atomShift, bondShift, st, Classify(lines[j], atomShift, bondShift).error);
  }

  // ---------------------------------------------------------------------------
  // Blank lines, skipped lines, the dropped tail
  // ---------------------------------------------------------------------------

  /** After a blank line every accumulator is empty again; only the ordinal and the
      files remain. */
  lemma ResetAfterBlank(lines: seq<string>, atomShift: bool, bondShift: bool)
    requires lines != [] && IsBlank(lines[|lines| - 1])
    requires Run(lines, atomShift, bondShift).Running?
    ensures var st := Run(lines, atomShift, bondShift).state;
      st == Init.(graphIdx := st.graphIdx, files := st.files)
  {
    BlankIff(lines[|lines| - 1], atomShift, bondShift);
  }

  /** A line that is not blank adds no file, whatever it does to the pass. */
  lemma AdvanceKeepsFiles(p: Progress, line: string, n: nat, atomShift: bool, bondShift: bool)
    requires !IsBlank(line)
    ensures FilesOf(Advance(p, line, n, atomShift, bondShift)) == FilesOf(p)
  {
    BlankIff(line, atomShift, bondShift);
  }

  /** Lines without a blank line after them never reach a file: an unterminated final
      graph is dropped, whatever its lines contain. */
  lemma {:induction false} TailDropped(lines: seq<string>, tail: seq<string>, atomShift: bool, bondShift: bool)
    requires forall j :: 0 <= j < |tail| ==> !IsBlank(tail[j])
    ensures Convert(lines + tail, atomShift, bondShift).files == Convert(lines, atomShift, bondShift).files
    decreases |tail|
  {
    if tail == [] {
      AppendNil(lines, tail);
    } else {
      var n := |tail| - 1;
      TailDropped(lines, tail[..n], atomShift, bondShift);
      var p := Run(lines + tail[..n], atomShift, bondShift);
      RunSnoc(lines + tail[..n], tail[n], atomShift, bondShift);
      DropLast(lines, tail);
      AdvanceKeepsFiles(p, tail[n], |lines + tail[..n]|, atomShift, bondShift);
    }
  }

  /** An error's line number after a line is inserted at position `at`. */
  function ShiftedLine(p: Progress, at: nat): Progress {
    match p
    case Running(_) => p
    case Failed(written, e) =>
      Failed(written, if e.line >= at then e.(line := e.line + 1) else e)
  }

  /** A skipped line leaves the pass as it is. */
  lemma AdvanceIgnored(p: Progress, x: string, n: nat, atomShift: bool, bondShift: bool)
    requires Classify(x, atomShift, bondShift) == Ok(Ignored)
    requires p.Failed? ==> p.error.line < n
    ensures Advance(p, x, n, atomShift, bondShift) == ShiftedLine(p, n)
  {
  }

  /** Reading a line one position further down reports its error one line further down. */
  lemma AdvanceShifted(p: Progress, y: string, n: nat, at: nat, atomShift: bool, bondShift: bool)
    requires at <= n
    requires p.Failed? ==> p.error.line < n
    ensures Advance(ShiftedLine(p, at), y, n + 1, atomShift, bondShift)
         == ShiftedLine(Advance(p, y, n, atomShift, bondShift), at)
  {
  }

  lemma IgnoredLineAtEnd(a: seq<string>, x: string, atomShift: bool, bondShift: bool)
    requires Classify(x, atomShift, bondShift) == Ok(Ignored)
    ensures Run(a + [x], atomShift, bondShift) == ShiftedLine(Run(a, atomShift, bondShift), |a|)
  {
    RunSnoc(a, x, atomShift, bondShift);
    ErrorLine(a, atomShift, bondShift);
    AdvanceIgnored(Run(a, atomShift, bondShift), x, |a|, atomShift, bondShift);
  }

  /** The inductive step of `IgnoredLineInvisible`: one more line after the insertion. */
  lemma IgnoredLineOneMore(a: seq<string>, x: string, b: seq<string>, y: string,
                           atomShift: bool, bondShift: bool)
    requires Run(a + [x] + b, atomShift, bondShift) == ShiftedLine(Run(a + b, atomShift, bondShift), |a|)
    ensures Run(a + [x] + b + [y], atomShift, bondShift)
         == ShiftedLine(Run(a + b + [y], atomShift, bondShift), |a|)
  {
    var p := Run(a + b, atomShift, bondShift);
    RunSnoc(a + b, y, atomShift, bondShift);
    RunSnoc(a + [x] + b, y, atomShift, bondShift);
    ErrorLine(a + b, atomShift, bondShift);
    AdvanceShifted(p, y, |a + b|, |a|, atomShift, bondShift);
  }

  /** A line with an unrecognised first word, inserted anywhere, changes no file and no
      error, except that an error after it is reported one line further down. */
  lemma {:induction false} IgnoredLineInvisible(a: seq<string>, x: string, b: seq<string>,
                                                atomShift: bool, bondShift: bool)
    requires Classify(x, atomShift, bondShift) == Ok(Ignored)
    ensures Run(a + [x] + b, atomShift, bondShift) == ShiftedLine(Run(a + b, atomShift, bondShift), |a|)
    decreases |b|
  {
    if b == [] {
      assert a + [x] + b == a + [x] && a + b == a;
      IgnoredLineAtEnd(a, x, atomShift, bondShift);
    } else {
      var n := |b| - 1;
      IgnoredLineInvisible(a, x, b[..n], atomShift, bondShift);
      IgnoredLineOneMore(a, x, b[..n], b[n], atomShift, bondShift);
      DropLast3(a, [x], b);
      DropLast(a, b);
    }
  }

  /** The same, for the outcome: the files are exactly those written without the line. */
  lemma IgnoredLineKeepsFiles(a: seq<string>, x: string, b: seq<string>,
                              atomShift: bool, bondShift: bool)
    requires Classify(x, atomShift, bondShift) == Ok(Ignored)
    ensures Convert(a + [x] + b, atomShift, bondShift).files == Convert(a + b, atomShift, bondShift).files
    ensures Convert(a + [x] + b, atomShift, bondShift).error.None?
        <==> Convert(a + b, atomShift, bondShift).error.None?
  {
    IgnoredLineInvisible(a, x, b, atomShift, bondShift);
  }

  // ---------------------------------------------------------------------------
  // Graphs are independent
  // ---------------------------------------------------------------------------

  lemma WellFormedAppend(a: seq<string>, b: seq<string>, atomShift: bool, bondShift: bool)
    requires WellFormed(a + b, atomShift, bondShift)
    ensures WellFormed(a, atomShift, bondShift) && WellFormed(b, atomShift, bondShift)
  {
    forall j | 0 <= j < |a| ensures Classify(a[j], atomShift, bondShift).Ok? {
      assert (a + b)[j] == a[j];
    }
    forall j | 0 <= j < |b| ensures Classify(b[j], atomShift, bondShift).Ok? {
      assert (a + b)[|a| + j] == b[j];
    }
  }

  lemma {:induction false} RecordsAppend(a: seq<string>, b: seq<string>, atomShift: bool, bondShift: bool)
    requires WellFormed(a + b, atomShift, bondShift)
    ensures WellFormed(a, atomShift, bondShift) && WellFormed(b, atomShift, bondShift)
    ensures Records(a + b, atomShift, bondShift) == Records(a, atomShift, bondShift) + Records(b, atomShift, bondShift)
    decreases |b|
  {
    WellFormedAppend(a, b, atomShift, bondShift);
    if b == [] {
      AppendNil(a, b);
      AppendNil(Records(a, atomShift, bondShift), Records(b, atomShift, bondShift));
    } else {
      var n := |b| - 1;
      DropLast(a, b);
      WellFormedPrefix(a + b, |a| + n, atomShift, bondShift);
      RecordsAppend(a, b[..n], atomShift, bondShift);
      var r := Classify(b[n], atomShift, bondShift).value;
      assert Records(a + b, atomShift, bondShift) == Records(a + b[..n], atomShift, bondShift) + [r];
      assert Records(b, atomShift, bondShift) == Records(b[..n], atomShift, bondShift) + [r];
      AppendAssoc(Records(a, atomShift, bondShift), Records(b[..n], atomShift, bondShift), [r]);
    }
  }

  lemma {:induction false} GroupsAppend(r1: seq<Record>, r2: seq<Record>)
    requires Pending(r1) == []
    ensures Groups(r1 + r2) == Groups(r1) + Groups(r2)
    ensures Pending(r1 + r2) == Pending(r2)
    decreases |r2|
  {
    if r2 == [] {
      AppendNil(r1, r2);
    } else {
      var n := |r2| - 1;
      DropLast(r1, r2);
      GroupsAppend(r1, r2[..n]);
    }
  }

  /** The files of two runs of groups, one after the other: `fab`, `fa` and `fb` are the
      files of `ga + gb`, of `ga` and of `gb`. */
  lemma RenderedAppend(fab: seq<SdfFile>, fa: seq<SdfFile>, fb: seq<SdfFile>,
                       ga: seq<seq<Record>>, gb: seq<seq<Record>>)
    requires fab == Rendered(ga + gb) && fa == Rendered(ga) && fb == Rendered(gb)
    ensures |fab| == |fa| + |fb| && fab[..|fa|] == fa
    ensures forall i :: 0 <= i < |fb| ==> fab[|fa| + i] == SdfFile(FileName(|fa| + i), fb[i].content)
  {
    forall i | 0 <= i < |fa| ensures fab[i] == fa[i] {
      assert (ga + gb)[i] == ga[i];
    }
    PrefixOf(fab, fa);
    forall i | 0 <= i < |fb| ensures fab[|fa| + i] == SdfFile(FileName(|fa| + i), fb[i].content) {
      assert (ga + gb)[|ga| + i] == gb[i];
    }
  }

  /** The files of a well-formed input are those of its closed groups. */
  lemma FilesOfGroups(lines: seq<string>, atomShift: bool, bondShift: bool)
    requires WellFormed(lines, atomShift, bondShift)
    ensures Convert(lines, atomShift, bondShift).files == Rendered(Groups(Records(lines, atomShift, bondShift)))
  {
    PassIsSummary(lines, atomShift, bondShift);
  }

  /** Cutting a well-formed input after a blank line cuts its groups there too. */
  lemma GroupsSplitAtBlank(a: seq<string>, b: seq<string>, atomShift: bool, bondShift: bool)
    requires WellFormed(a + b, atomShift, bondShift)
    requires a != [] && IsBlank(a[|a| - 1])
    ensures WellFormed(a, atomShift, bondShift) && WellFormed(b, atomShift, bondShift)
    ensures Groups(Records(a + b, atomShift, bondShift))
         == Groups(Records(a, atomShift, bondShift)) + Groups(Records(b, atomShift, bondShift))
  {
    RecordsAppend(a, b, atomShift, bondShift);
    var r1, r2 := Records(a, atomShift, bondShift), Records(b, atomShift, bondShift);
    BlankIff(a[|a| - 1], atomShift, bondShift);
    assert r1[|r1| - 1] == Blank;
    GroupsAppend(r1, r2);
  }

  /** Graphs do not leak into each other: after a blank line, the files that the rest of
      the input produces are exactly those it would produce on its own, numbered on
      from the files before. */
  lemma GraphsIndependent(a: seq<string>, b: seq<string>, atomShift: bool, bondShift: bool)
    requires WellFormed(a + b, atomShift, bondShift)
    requires a != [] && IsBlank(a[|a| - 1])
    ensures var fa, fb := Convert(a, atomShift, bondShift).files, Convert(b, atomShift, bondShift).files;
      var fab := Convert(a + b, atomShift, bondShift).files;
      |fab| == |fa| + |fb| && fab[..|fa|] == fa &&
      forall i :: 0 <= i < |fb| ==>
        fab[|fa| + i] == SdfFile(FileName(|fa| + i), fb[i].content)
  {
    GroupsSplitAtBlank(a, b, atomShift, bondShift);
    FilesOfGroups(a, atomShift, bondShift);
    FilesOfGroups(b, atomShift, bondShift);
    FilesOfGroups(a + b, atomShift, bondShift);
    var ga, gb := Groups(Records(a, atomShift, bondShift)), Groups(Records(b, atomShift, bondShift));
    RenderedAppend(Convert(a + b, atomShift, bondShift).files, Convert(a, atomShift, bondShift).files,
                   Convert(b, atomShift, bondShift).files, ga, gb);
  }


  // ---------------------------------------------------------------------------
  // The shape of the groups
  // ---------------------------------------------------------------------------

  /** Closing one more group appends it and its `Blank` to the chunks. */
  lemma ChunksSnoc(gs: seq<seq<Record>>, p: seq<Record>)
    ensures Chunks(gs + [p]) == Chunks(gs) + p + [Blank]
  {
    assert (gs + [p])[..|gs|] == gs;
  }

  lemma {:induction false} GroupsCover(rs: seq<Record>)
    ensures Chunks(Groups(rs)) + Pending(rs) == rs
    decreases |rs|
  {
    if rs != [] {
      var n := |rs| - 1;
      GroupsCover(rs[..n]);
      var gs, p := Groups(rs[..n]), Pending(rs[..n]);
      FrontLast(rs);
      if rs[n] == Blank {
        ChunksSnoc(gs, p);
        AppendNil(Chunks(gs + [p]), Pending(rs));
      } else {
        AppendAssoc(Chunks(gs), p, [rs[n]]);
      }
    }
  }

  lemma {:induction false} PendingNoBlank(rs: seq<Record>)
    ensures forall k :: 0 <= k < |Pending(rs)| ==> Pending(rs)[k] != Blank
    decreases |rs|
  {
    if rs != [] {
      PendingNoBlank(rs[..|rs| - 1]);
    }
  }

  lemma {:induction false} GroupsNoBlank(rs: seq<Record>)
    ensures forall i, k :: 0 <= i < |Groups(rs)| && 0 <= k < |Groups(rs)[i]| ==> Groups(rs)[i][k] != Blank
    decreases |rs|
  {
    if rs != [] {
      var n := |rs| - 1;
      GroupsNoBlank(rs[..n]);
      PendingNoBlank(rs[..n]);
    }
  }

  /** The groups and the pending records partition the records: each group is followed
      by one `Blank`, and no group and no pending record holds a `Blank`. */
  lemma GroupsPartition(rs: seq<Record>)
    ensures Chunks(Groups(rs)) + Pending(rs) == rs
    ensures forall i, k :: 0 <= i < |Groups(rs)| && 0 <= k < |Groups(rs)[i]| ==> Groups(rs)[i][k] != Blank
    ensures forall k :: 0 <= k < |Pending(rs)| ==> Pending(rs)[k] != Blank
  {
    GroupsCover(rs);
    GroupsNoBlank(rs);
    PendingNoBlank(rs);
  }


}
