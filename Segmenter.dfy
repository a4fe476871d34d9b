/** The graph segmenter: one forward pass over the lines of a gSpan file. Each line is
    dispatched on its first word: a blank line writes the SDF record built so far and
    resets the accumulators, `t` appends a header, `v` an atom line, `e` a bond line,
    and any other line is skipped. The first malformed line aborts the pass; the files
    written before it remain.

    `Run` is the pass as a function over a prefix of the lines, one `Step` per line;
    `ProcessLine` is the loop body on the program's variables, proved to compute
    `Advance`, and `ConvertLines` the loop itself, proved to compute `Convert`.
 */
module Segmenter {
  import opened Wrappers
  import opened PyStr
  import opened AtomTable
  import opened SdfRender
  import opened Seqs

  /** What one line contributes, once its words are read and checked. */
  datatype Record =
    | Blank                                             // no words: end of a graph
    | Header(name: string)                              // `t # id id name`
    | Atom(symbol: string)                              // `v id atomIndex`, already resolved
    | Bond(source: int, target: int, bondLabel: string) // `e source target label`
    | Ignored                                           // any other first word

  /** Why a line aborts the conversion, after Python's `IndexError` and `ValueError`. */
  datatype ErrorKind =
    | MissingField(index: nat)        // `words[index]` does not exist
    | NotAnInteger(token: string)     // `int(token)` fails
    | AtomOutOfRange(atomIndex: int)  // `ATOM_LIST[atomIndex]` fails

  /** An error at the zero-based line `line` of the input. */
  datatype ConvError = ConvError(line: nat, kind: ErrorKind)

  /** One output file: its name relative to the output directory, and its text. */
  datatype SdfFile = SdfFile(name: string, content: string)

  /** The loop's variables: the header text, the atom block and its count, the bond
      block and its count, the ordinal of the next graph, and the files written so far. */
  datatype State = State(header: string, vertices: string, numVertices: nat,
                         edges: string, numEdges: nat, graphIdx: nat,
                         files: seq<SdfFile>)

  /** The pass after some lines: still running, or stopped by an error. */
  datatype Progress = Running(state: State) | Failed(written: seq<SdfFile>, error: ConvError)

  /** What the converter leaves behind: the files written, and the error that stopped it. */
  datatype Outcome = Outcome(files: seq<SdfFile>, error: Option<ConvError>)

  const Init: State := State("", "", 0, "", 0, 0, [])

  /** `int(words[2])`, plus one under the atom shift. */
  function AtomNumber(words: seq<string>, atomShift: bool): (r: Result<int, ErrorKind>)
    ensures r.Ok? <==> |words| >= 3 && IsIntLiteral(words[2])
    ensures r.Ok? ==> r.value == ParseInt(words[2]).value + (if atomShift then 1 else 0)
  {
    if |words| < 3 then Err(MissingField(2))
    else match ParseInt(words[2])
      case None => Err(NotAnInteger(words[2]))
      case Some(n) => Ok(if atomShift then n + 1 else n)
  }

  /** The endpoints `int(words[1])`, `int(words[2])` (each plus one under the bond shift)
      and the label `words[3]`, read in this order. */
  function ReadBond(words: seq<string>, bondShift: bool): (r: Result<Record, ErrorKind>)
    ensures r.Ok? <==> |words| >= 4 && IsIntLiteral(words[1]) && IsIntLiteral(words[2])
    ensures r.Ok? ==> var d := if bondShift then 1 else 0;
      r.value == Bond(ParseInt(words[1]).value + d, ParseInt(words[2]).value + d, words[3])
  {
    if |words| < 2 then Err(MissingField(1))
    else if ParseInt(words[1]).None? then Err(NotAnInteger(words[1]))
    else if |words| < 3 then Err(MissingField(2))
    else if ParseInt(words[2]).None? then Err(NotAnInteger(words[2]))
    else if |words| < 4 then Err(MissingField(3))
    else
      var d := if bondShift then 1 else 0;
      Ok(Bond(ParseInt(words[1]).value + d, ParseInt(words[2]).value + d, words[3]))
  }

  /** Reads one line: its record, or the error Python raises on it, checking the fields
      in the order the program reads them. */
  function Classify(line: string, atomShift: bool, bondShift: bool): Result<Record, ErrorKind> {
    var words := Split(line);
    if |words| == 0 then Ok(Blank)
    else if words[0] == "t" then
      if |words| < 5 then Err(MissingField(4)) else Ok(Header(words[4]))
    else if words[0] == "v" then
      match AtomNumber(words, atomShift)
      case Err(kind) => Err(kind)
      case Ok(k) =>
        match Symbol(k)
        case None => Err(AtomOutOfRange(k))
        case Some(s) => Ok(Atom(s))
    else if words[0] == "e" then ReadBond(words, bondShift)
    else Ok(Ignored)
  }

  /** The effect of one well-formed line on the loop's variables. */
  function Step(st: State, rec: Record): State {
    match rec
    case Blank =>
      var content := Molfile(st.header, st.numVertices, st.numEdges, st.vertices, st.edges);
      State("", "", 0, "", 0, st.graphIdx + 1,
            st.files + [SdfFile(FileName(st.graphIdx), content)])
    case Header(name) => st.(header := st.header + HeaderText(name))
    case Atom(symbol) =>
      st.(vertices := st.vertices + AtomLine(symbol), numVertices := st.numVertices + 1)
    case Bond(a, b, lbl) =>
      st.(edges := st.edges + BondLine(a, b, lbl), numEdges := st.numEdges + 1)
    case Ignored => st
  }

  /** The pass after one more line, the `n`-th. */
  function Advance(p: Progress, line: string, n: nat, atomShift: bool, bondShift: bool): Progress {
    match p
    case Failed(_, _) => p
    case Running(st) =>
      match Classify(line, atomShift, bondShift)
      case Err(kind) => Failed(st.files, ConvError(n, kind))
      case Ok(rec) => Running(Step(st, rec))
  }

  /** The pass over all of `lines`, one step per line, from the initial state. */
  function Run(lines: seq<string>, atomShift: bool, bondShift: bool): Progress
    decreases |lines|
  {
    if lines == [] then Running(Init)
    else
      var n := |lines| - 1;
      Advance(Run(lines[..n], atomShift, bondShift), lines[n], n, atomShift, bondShift)
  }

  /** The files written and the error, if any, for the whole input. */
  function Convert(lines: seq<string>, atomShift: bool, bondShift: bool): Outcome {
    match Run(lines, atomShift, bondShift)
    case Running(st) => Outcome(st.files, None)
    case Failed(written, e) => Outcome(written, Some(e))
  }

  /** The pass over one more line. */
  lemma RunSnoc(lines: seq<string>, y: string, atomShift: bool, bondShift: bool)
    ensures Run(lines + [y], atomShift, bondShift)
         == Advance(Run(lines, atomShift, bondShift), y, |lines|, atomShift, bondShift)
  {
    Snoc(lines, y);
  }

  lemma RunOneMore(lines: seq<string>, i: nat, atomShift: bool, bondShift: bool)
    requires i < |lines|
    ensures Run(lines[..i + 1], atomShift, bondShift)
         == Advance(Run(lines[..i], atomShift, bondShift), lines[i], i, atomShift, bondShift)
  {
    TakeOneMore(lines, i);
    RunSnoc(lines[..i], lines[i], atomShift, bondShift);
  }

  /** Once the pass has failed, the lines after it leave it as it is. */
  lemma {:induction false} FailedStays(a: seq<string>, b: seq<string>, atomShift: bool, bondShift: bool)
    requires Run(a, atomShift, bondShift).Failed?
    ensures Run(a + b, atomShift, bondShift) == Run(a, atomShift, bondShift)
    decreases |b|
  {
    if b == [] {
      AppendNil(a, b);
    } else {
      var n := |b| - 1;
      FailedStays(a, b[..n], atomShift, bondShift);
      RunSnoc(a + b[..n], b[n], atomShift, bondShift);
      DropLast(a, b);
    }
  }

  /** Once the pass has failed, the lines after the failure change nothing. */
  lemma FailureIsFinal(lines: seq<string>, k: nat, atomShift: bool, bondShift: bool)
    requires k <= |lines|
    requires Run(lines[..k], atomShift, bondShift).Failed?
    ensures Run(lines, atomShift, bondShift) == Run(lines[..k], atomShift, bondShift)
  {
    FailedStays(lines[..k], lines[k..], atomShift, bondShift);
    TakeDrop(lines, k);
  }

  /** A line that fails to classify ends the conversion with the files written so far. */
  lemma FailAt(lines: seq<string>, i: nat, atomShift: bool, bondShift: bool, st: State, kind: ErrorKind)
    requires i < |lines|
    requires Run(lines[..i], atomShift, bondShift) == Running(st)
    requires Classify(lines[i], atomShift, bondShift) == Err(kind)
    ensures Convert(lines, atomShift, bondShift) == Outcome(st.files, Some(ConvError(i, kind)))
  {
    RunOneMore(lines, i, atomShift, bondShift);
    FailureIsFinal(lines, i + 1, atomShift, bondShift);
  }

  /** A line that classifies advances the pass by one step. */
  lemma StepAt(lines: seq<string>, i: nat, atomShift: bool, bondShift: bool, st: State, rec: Record)
    requires i < |lines|
    requires Run(lines[..i], atomShift, bondShift) == Running(st)
    requires Classify(lines[i], atomShift, bondShift) == Ok(rec)
    ensures Run(lines[..i + 1], atomShift, bondShift) == Running(Step(st, rec))
  {
    RunOneMore(lines, i, atomShift, bondShift);
  }

  /** A line that classifies advances a running pass by one step. */
  lemma AdvanceOk(st: State, line: string, n: nat, atomShift: bool, bondShift: bool, rec: Record)
    requires Classify(line, atomShift, bondShift) == Ok(rec)
    ensures Advance(Running(st), line, n, atomShift, bondShift) == Running(Step(st, rec))
  {
  }

  /** A line that does not classify stops a running pass, keeping its files. */
  lemma AdvanceErr(st: State, line: string, n: nat, atomShift: bool, bondShift: bool, kind: ErrorKind)
    requires Classify(line, atomShift, bondShift) == Err(kind)
    ensures Advance(Running(st), line, n, atomShift, bondShift) == Failed(st.files, ConvError(n, kind))
  {
  }

  /** The vertex branch of the loop body: read the atom index, resolve it, append the
      atom line. */
  method ProcessVertex(st: State, line: string, words: seq<string>, n: nat, atomShift: bool, bondShift: bool)
    returns (p: Progress)
    requires words == Split(line) && words != [] && words[0] == "v"
    ensures p == Advance(Running(st), line, n, atomShift, bondShift)
  {
    var parsed := AtomNumber(words, atomShift);
    if parsed.Err? {
      AdvanceErr(st, line, n, atomShift, bondShift, parsed.error);
      return Failed(st.files, ConvError(n, parsed.error));
    }
    var atomNumber := parsed.value;
    var numVertices := st.numVertices + 1;
    var symbol := Symbol(atomNumber);
    if symbol.None? {
      AdvanceErr(st, line, n, atomShift, bondShift, AtomOutOfRange(atomNumber));
      return Failed(st.files, ConvError(n, AtomOutOfRange(atomNumber)));
    }
    AdvanceOk(st, line, n, atomShift, bondShift, Atom(symbol.value));
    p := Running(st.(vertices := st.vertices + AtomLine(symbol.value), numVertices := numVertices));
  }

  /** The edge branch of the loop body: count the edge, read both endpoints and the label,
      append the bond line. */
  method ProcessEdge(st: State, line: string, words: seq<string>, n: nat, atomShift: bool, bondShift: bool)
    returns (p: Progress)
    requires words == Split(line) && words != [] && words[0] == "e"
    ensures p == Advance(Running(st), line, n, atomShift, bondShift)
  {
    var numEdges := st.numEdges + 1;
    var bond := ReadBond(words, bondShift);
    if bond.Err? {
      AdvanceErr(st, line, n, atomShift, bondShift, bond.error);
      return Failed(st.files, ConvError(n, bond.error));
    }
    var vertex1, vertex2, bondLabel := bond.value.source, bond.value.target, bond.value.bondLabel;
    AdvanceOk(st, line, n, atomShift, bondShift, Bond(vertex1, vertex2, bondLabel));
    p := Running(st.(edges := st.edges + BondLine(vertex1, vertex2, bondLabel), numEdges := numEdges));
  }

  /** The body of the conversion loop for the `n`-th line: the program's branches on the
      first word, applied to its variables `st`. Each error branch stops where Python's
      exception would, keeping the files already written. */
  method ProcessLine(st: State, line: string, n: nat, atomShift: bool, bondShift: bool)
    returns (p: Progress)
    ensures p == Advance(Running(st), line, n, atomShift, bondShift)
  {
    var words := Split(line);
    if |words| == 0 {
      var sdf := st.header + CountsLine(st.numVertices, st.numEdges) + st.vertices + st.edges + Terminator;
      var files := st.files + [SdfFile(FileName(st.graphIdx), sdf)];
      AdvanceOk(st, line, n, atomShift, bondShift, Blank);
      p := Running(State("", "", 0, "", 0, st.graphIdx + 1, files));
    } else if words[0] == "t" {
      if |words| < 5 {
        AdvanceErr(st, line, n, atomShift, bondShift, MissingField(4));
        return Failed(st.files, ConvError(n, MissingField(4)));
      }
      AdvanceOk(st, line, n, atomShift, bondShift, Header(words[4]));
      p := Running(st.(header := st.header + HeaderText(words[4])));
    } else if words[0] == "v" {
      p := ProcessVertex(st, line, words, n, atomShift, bondShift);
    } else if words[0] == "e" {
      p := ProcessEdge(st, line, words, n, atomShift, bondShift);
    } else {
      AdvanceOk(st, line, n, atomShift, bondShift, Ignored);
      p := Running(st);
    }
  }

  /** The conversion loop: one `ProcessLine` per line, from the initial variables, until
      the first error. */
  method ConvertLines(lines: seq<string>, atomShift: bool, bondShift: bool)
    returns (files: seq<SdfFile>, error: Option<ConvError>)
    ensures Outcome(files, error) == Convert(lines, atomShift, bondShift)
  {
    var st := Init;
    for i := 0 to |lines|
      invariant Run(lines[..i], atomShift, bondShift) == Running(st)
    {
      var p := ProcessLine(st, lines[i], i, atomShift, bondShift);
      RunOneMore(lines, i, atomShift, bondShift);
      if p.Failed? {
        FailureIsFinal(lines, i + 1, atomShift, bondShift);
        return p.written, Some(p.error);
      }
      st := p.state;
    }
    assert lines[..|lines|] == lines;
    return st.files, None;
  }
}
