/** Concrete inputs worked through the model: a small single-graph input of the model's
    own, its bond-shifted variant, and the edge of the atom table.
 */
module Examples {
  import opened Wrappers
  import opened PyStr
  import opened AtomTable
  import opened SdfRender
  import opened Segmenter

  /** A single graph with two atoms and one bond, closed by a blank line. */
  const GraphLines: seq<string> := ["t # 0 0 graphA", "v 0 0", "v 1 5", "e 0 1 1", ""]

  // ---------------------------------------------------------------------------
  // Reading the lines
  // ---------------------------------------------------------------------------

  lemma HeaderLineWords()
    ensures Split("t # 0 0 graphA") == ["t", "#", "0", "0", "graphA"]
  {
    assert JoinWords(["t", "#", "0", "0", "graphA"]) == "t # 0 0 graphA";
    SplitJoin(["t", "#", "0", "0", "graphA"]);
  }

  /** The two vertex lines of the example. */
  lemma VertexWords()
    ensures Split("v 0 0") == ["v", "0", "0"]
    ensures Split("v 1 5") == ["v", "1", "5"]
  {
    assert JoinWords(["v", "0", "0"]) == "v 0 0";
    SplitJoin(["v", "0", "0"]);
    assert JoinWords(["v", "1", "5"]) == "v 1 5";
    SplitJoin(["v", "1", "5"]);
  }

  lemma EdgeWords()
    ensures Split("e 0 1 1") == ["e", "0", "1", "1"]
  {
    assert JoinWords(["e", "0", "1", "1"]) == "e 0 1 1";
    SplitJoin(["e", "0", "1", "1"]);
  }

  /** Runs of spaces, tabs and whitespace at both ends separate words just as one
      space does. */
  lemma PaddedVertexWords()
    ensures Split("  v\t0   5 ") == ["v", "0", "5"]
  {
    assert Layout(["  ", "\t", "   ", " "], ["v", "0", "5"]) == "  v\t0   5 ";
    LayoutSplits(["  ", "\t", "   ", " "], ["v", "0", "5"]);
  }

  lemma SmallNumbers()
    ensures ParseInt("0") == Some(0) && ParseInt("1") == Some(1) && ParseInt("5") == Some(5)
  {
  }

  lemma ReadHeaderLine(line: string, atomShift: bool, bondShift: bool)
    requires Split(line) == ["t", "#", "0", "0", "graphA"]
    ensures Classify(line, atomShift, bondShift) == Ok(Header("graphA"))
  {
  }

  lemma ReadFirstVertex(line: string, atomShift: bool, bondShift: bool)
    requires Split(line) == ["v", "0", "0"]
    ensures Classify(line, atomShift, bondShift) == Ok(Atom(if atomShift then "He" else "H"))
  {
    SmallNumbers();
    SymbolIndex(0);
    SymbolIndex(1);
    assert Symbol(0) == Some("H") && Symbol(1) == Some("He");
  }

  lemma ReadSecondVertex(line: string, atomShift: bool, bondShift: bool)
    requires Split(line) == ["v", "1", "5"]
    ensures Classify(line, atomShift, bondShift) == Ok(Atom(if atomShift then "N" else "C"))
  {
    SmallNumbers();
    SymbolIndex(5);
    SymbolIndex(6);
    assert Symbol(5) == Some("C") && Symbol(6) == Some("N");
  }

  lemma ReadEdge(line: string, atomShift: bool, bondShift: bool)
    requires Split(line) == ["e", "0", "1", "1"]
    ensures Classify(line, atomShift, bondShift)
         == Ok(if bondShift then Bond(1, 2, "1") else Bond(0, 1, "1"))
  {
    SmallNumbers();
  }

  // ---------------------------------------------------------------------------
  // Rendering
  // ---------------------------------------------------------------------------

  lemma FirstFileName()
    ensures FileName(0) == "000000.sdf"
  {
    assert Repeat('0', 5) == "00000";
  }

  lemma SymbolColumns()
    ensures AtomLine("H") == Origin + "H   " + AtomSuffix + "\n"
    ensures AtomLine("C") == Origin + "C   " + AtomSuffix + "\n"
  {
    assert Repeat(' ', 3) == "   ";
  }

  lemma CountsTwoOne()
    ensures CountsLine(2, 1) == "  2  1" + CountsSuffix + "\n"
  {
    assert Repeat(' ', 2) == "  ";
  }

  lemma EdgeAsRead()
    ensures BondLine(0, 1, "1") == "  0" + "  1" + "  1" + BondSuffix + "\n"
  {
    assert RJust("0", 3, ' ') == "  0" && RJust("1", 3, ' ') == "  1" by {
      assert Repeat(' ', 2) == "  ";
    }
  }

  /** Endpoints are written by value, not as their text: `e 007 +1 1` gives the bond
      `7`, `1` with label `1`, and `-007` reads as `-7`. */
  lemma EndpointsByValue(bondShift: bool)
    ensures ParseInt("-007") == Some(-7)
    ensures ReadBond(["e", "007", "+1", "1"], bondShift)
         == Ok(if bondShift then Bond(8, 2, "1") else Bond(7, 1, "1"))
    ensures BondLine(7, 1, "1") == "  7" + "  1" + "  1" + BondSuffix + "\n"
  {
    assert "-" + "00" + NatToString(7) == "-007";
    SignedLiteral("-", "00", 7);
    assert "" + "00" + NatToString(7) == "007";
    SignedLiteral("", "00", 7);
    assert "+" + "" + NatToString(1) == "+1";
    SignedLiteral("+", "", 1);
    assert RJust("7", 3, ' ') == "  7" && RJust("1", 3, ' ') == "  1" by {
      assert Repeat(' ', 2) == "  ";
    }
  }

  lemma EdgeShifted()
    ensures BondLine(1, 2, "1") == "  1" + "  2" + "  1" + BondSuffix + "\n"
  {
    assert RJust("1", 3, ' ') == "  1" && RJust("2", 3, ' ') == "  2" by {
      assert Repeat(' ', 2) == "  ";
    }
  }

  lemma GraphHeader()
    ensures HeaderText("graphA") == "graphA\nGSPAN_2_SDF\n\n"
  {
  }

  // ---------------------------------------------------------------------------
  // The whole pass
  // ---------------------------------------------------------------------------

  /** A graph-start line and two vertex lines fill the header and the atom block. */
  lemma HeaderAndAtomsRun(l: seq<string>, atomShift: bool, bondShift: bool,
                          name: string, sym1: string, sym2: string)
    requires |l| >= 3
    requires Classify(l[0], atomShift, bondShift) == Ok(Header(name))
    requires Classify(l[1], atomShift, bondShift) == Ok(Atom(sym1))
    requires Classify(l[2], atomShift, bondShift) == Ok(Atom(sym2))
    ensures Run(l[..3], atomShift, bondShift)
         == Running(State(HeaderText(name), AtomLine(sym1) + AtomLine(sym2), 2, "", 0, 0, []))
  {
    var s0 := Init;
    var s1 := Step(s0, Header(name));
    var s2 := Step(s1, Atom(sym1));
    assert s2 == State(HeaderText(name), AtomLine(sym1), 1, "", 0, 0, []);
    assert l[..0] == [];
    StepAt(l, 0, atomShift, bondShift, s0, Header(name));
    StepAt(l, 1, atomShift, bondShift, s1, Atom(sym1));
    StepAt(l, 2, atomShift, bondShift, s2, Atom(sym2));
  }

  /** An edge line and a blank line after the header and two atoms write one file. */
  lemma BondThenBlank(name: string, sym1: string, sym2: string, source: int, target: int, bondLabel: string)
    ensures
      var s3 := State(HeaderText(name), AtomLine(sym1) + AtomLine(sym2), 2, "", 0, 0, []);
      Step(Step(s3, Bond(source, target, bondLabel)), Blank)
        == State("", "", 0, "", 0, 1,
             [SdfFile(FileName(0), Molfile(HeaderText(name), 2, 1, AtomLine(sym1) + AtomLine(sym2),
                                           BondLine(source, target, bondLabel)))])
  {
    assert "" + BondLine(source, target, bondLabel) == BondLine(source, target, bondLabel);
  }

  /** A graph-start line, two vertex lines, an edge line and a blank line write one file. */
  lemma OneGraphRun(l: seq<string>, atomShift: bool, bondShift: bool,
                    name: string, sym1: string, sym2: string, source: int, target: int, bondLabel: string)
    requires |l| == 5
    requires Classify(l[0], atomShift, bondShift) == Ok(Header(name))
    requires Classify(l[1], atomShift, bondShift) == Ok(Atom(sym1))
    requires Classify(l[2], atomShift, bondShift) == Ok(Atom(sym2))
    requires Classify(l[3], atomShift, bondShift) == Ok(Bond(source, target, bondLabel))
    requires Classify(l[4], atomShift, bondShift) == Ok(Blank)
    ensures Run(l, atomShift, bondShift) == Running(State("", "", 0, "", 0, 1,
      [SdfFile(FileName(0), Molfile(HeaderText(name), 2, 1, AtomLine(sym1) + AtomLine(sym2),
                                    BondLine(source, target, bondLabel)))]))
  {
    HeaderAndAtomsRun(l, atomShift, bondShift, name, sym1, sym2);
    var s3 := State(HeaderText(name), AtomLine(sym1) + AtomLine(sym2), 2, "", 0, 0, []);
    var s4 := Step(s3, Bond(source, target, bondLabel));
    StepAt(l, 3, atomShift, bondShift, s3, Bond(source, target, bondLabel));
    StepAt(l, 4, atomShift, bondShift, s4, Blank);
    BondThenBlank(name, sym1, sym2, source, target, bondLabel);
    assert l[..5] == l;
  }

  /** How the lines of `GraphLines` read. */
  lemma GraphLinesRead(atomShift: bool, bondShift: bool)
    ensures Classify(GraphLines[0], atomShift, bondShift) == Ok(Header("graphA"))
    ensures Classify(GraphLines[1], atomShift, bondShift) == Ok(Atom(if atomShift then "He" else "H"))
    ensures Classify(GraphLines[2], atomShift, bondShift) == Ok(Atom(if atomShift then "N" else "C"))
    ensures Classify(GraphLines[3], atomShift, bondShift)
         == Ok(if bondShift then Bond(1, 2, "1") else Bond(0, 1, "1"))
    ensures Classify(GraphLines[4], atomShift, bondShift) == Ok(Blank)
  {
    assert Classify(GraphLines[0], atomShift, bondShift) == Ok(Header("graphA")) by {
      HeaderLineWords();
      ReadHeaderLine(GraphLines[0], atomShift, bondShift);
    }
    assert Classify(GraphLines[1], atomShift, bondShift) == Ok(Atom(if atomShift then "He" else "H")) by {
      VertexWords();
      ReadFirstVertex(GraphLines[1], atomShift, bondShift);
    }
    assert Classify(GraphLines[2], atomShift, bondShift) == Ok(Atom(if atomShift then "N" else "C")) by {
      VertexWords();
      ReadSecondVertex(GraphLines[2], atomShift, bondShift);
    }
    assert Classify(GraphLines[3], atomShift, bondShift)
        == Ok(if bondShift then Bond(1, 2, "1") else Bond(0, 1, "1")) by {
      EdgeWords();
      ReadEdge(GraphLines[3], atomShift, bondShift);
    }
  }

  /** The worked example: one file, `000000.sdf`, holding the header, the counts line
      "  2  1 ...", indices 0 and 5 resolved to "H" and "C", the edge exactly as read
      ("  0  1  1  0  0  0  0"), and the terminator without a final newline. */
  lemma GraphExample()
    ensures Convert(GraphLines, false, false) == Outcome([SdfFile("000000.sdf",
      "graphA\nGSPAN_2_SDF\n\n"
      + ("  2  1" + CountsSuffix + "\n")
      + ((Origin + "H   " + AtomSuffix + "\n") + (Origin + "C   " + AtomSuffix + "\n"))
      + ("  0" + "  1" + "  1" + BondSuffix + "\n")
      + Terminator)], None)
  {
    GraphLinesRead(false, false);
    OneGraphRun(GraphLines, false, false, "graphA", "H", "C", 0, 1, "1");
    FirstFileName();
    GraphHeader();
    SymbolColumns();
    CountsTwoOne();
    EdgeAsRead();
  }

  /** The same input under the bond shift: only the edge line changes, to
      "  1  2  1  0  0  0  0". */
  lemma GraphExampleBondShift()
    ensures Convert(GraphLines, false, true) == Outcome([SdfFile("000000.sdf",
      "graphA\nGSPAN_2_SDF\n\n"
      + ("  2  1" + CountsSuffix + "\n")
      + ((Origin + "H   " + AtomSuffix + "\n") + (Origin + "C   " + AtomSuffix + "\n"))
      + ("  1" + "  2" + "  1" + BondSuffix + "\n")
      + Terminator)], None)
  {
    GraphLinesRead(false, true);
    OneGraphRun(GraphLines, false, true, "graphA", "H", "C", 1, 2, "1");
    FirstFileName();
    GraphHeader();
    SymbolColumns();
    CountsTwoOne();
    EdgeShifted();
  }

  // ---------------------------------------------------------------------------
  // The edge of the table
  // ---------------------------------------------------------------------------

  /** A vertex line naming atom index 84 resolves to "Rh"; under the atom shift the same
      line already reads past the table. */
  lemma LastIndexResolves(line: string, bondShift: bool)
    requires |Split(line)| >= 3 && Split(line)[0] == "v" && Split(line)[2] == "84"
    ensures Classify(line, false, bondShift) == Ok(Atom("Rh"))
    ensures Classify(line, true, bondShift) == Err(AtomOutOfRange(85))
  {
    LandmarkSymbols();
    assert DigitsValue("84") == 84 by {
      assert "84"[..1] == "8";
      assert DigitValue('8') == 8 && DigitValue('4') == 4;
    }
  }

  /** A vertex line naming atom index 85 fails. */
  lemma NextIndexFails(line: string, bondShift: bool)
    requires |Split(line)| >= 3 && Split(line)[0] == "v" && Split(line)[2] == "85"
    ensures Classify(line, false, bondShift) == Err(AtomOutOfRange(85))
  {
    assert DigitsValue("85") == 85 by {
      assert "85"[..1] == "8";
      assert DigitValue('8') == 8 && DigitValue('5') == 5;
    }
  }

  /** Atom index -1 wraps round to the last entry. */
  lemma MinusOneWraps(line: string, bondShift: bool)
    requires |Split(line)| >= 3 && Split(line)[0] == "v" && Split(line)[2] == "-1"
    ensures Classify(line, false, bondShift) == Ok(Atom("Rh"))
  {
    LandmarkSymbols();
    assert Unsigned("-1") == "1";
  }

  /** Atom index -86 is below the table and fails. */
  lemma BelowTableFails(line: string, bondShift: bool)
    requires |Split(line)| >= 3 && Split(line)[0] == "v" && Split(line)[2] == "-86"
    ensures Classify(line, false, bondShift) == Err(AtomOutOfRange(-86))
  {
    assert Unsigned("-86") == "86";
    assert DigitsValue("86") == 86 by {
      assert "86"[..1] == "8";
      assert DigitValue('8') == 8 && DigitValue('6') == 6;
    }
  }
}
