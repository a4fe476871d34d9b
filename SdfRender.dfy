/** The SDF renderer: the fixed-width MDL Molfile V2000 text written for one graph, and
    the name of the file it goes to. All atoms sit at the origin; no geometry is computed.
 */
module SdfRender {
  import opened Wrappers
  import opened PyStr

  /** The program tag on the second header line. */
  const ProgramTag: string := "GSPAN_2_SDF"

  const CountsSuffix: string := "  0  0  0  0  0  0  0  0  1 V2000"

  /** The three coordinate columns (x, y, z all 0.0000) and the space before the symbol. */
  const Origin: string := "    0.0000    0.0000    0.0000 "

  const AtomSuffix: string := "0  0  0  0  0  0  0  0  0  0  0  0"

  const BondSuffix: string := "  0  0  0  0"

  const Terminator: string := "M  END" + "\n" + "$$$$"

  /** The three header lines a graph-start record contributes: name, tag, empty line. */
  function HeaderText(name: string): string {
    name + "\n" + ProgramTag + "\n" + "\n"
  }

  /** The counts line: vertex and edge counts right-justified in three columns each. */
  function CountsLine(numVertices: nat, numEdges: nat): string {
    RJust(IntToString(numVertices), 3, ' ') + RJust(IntToString(numEdges), 3, ' ')
    + CountsSuffix + "\n"
  }

  /** One line of the atom block. */
  function AtomLine(symbol: string): string {
    Origin + LJust(symbol, 4, ' ') + AtomSuffix + "\n"
  }

  /** One line of the bond block; the bondLabel is copied as it was read. */
  function BondLine(source: int, target: int, bondLabel: string): string {
    RJust(IntToString(source), 3, ' ') + RJust(IntToString(target), 3, ' ')
    + RJust(bondLabel, 3, ' ') + BondSuffix + "\n"
  }

  /** A whole SDF record: headers, counts line, atom block, bond block, terminator. */
  function Molfile(header: string, numVertices: nat, numEdges: nat,
                   vertices: string, edges: string): string {
    header + CountsLine(numVertices, numEdges) + vertices + edges + Terminator
  }

  /** The file name of the graph with ordinal `i`: `i` zero-padded to six digits. */
  function FileName(i: nat): string {
    RJust(IntToString(i), 6, '0') + ".sdf"
  }

  // ---------------------------------------------------------------------------
  // File names
  // ---------------------------------------------------------------------------

  /** The part of a file name before ".sdf" reads back as the ordinal. */
  lemma FileNameStem(i: nat)
    ensures |FileName(i)| >= 10
    ensures FileName(i)[|FileName(i)| - 4..] == ".sdf"
    ensures ParseInt(FileName(i)[..|FileName(i)| - 4]) == Some(i)
  {
    var d := NatToString(i);
    var stem := RJust(d, 6, '0');
    var z := stem[..|stem| - |d|];
    assert stem == z + d;
    LeadingZerosIgnored(z, i);
    assert FileName(i)[..|FileName(i)| - 4] == stem;
  }

  /** Distinct ordinals give distinct file names, so no output overwrites another. */
  lemma FileNameInjective(i: nat, j: nat)
    requires FileName(i) == FileName(j)
    ensures i == j
  {
    FileNameStem(i);
    FileNameStem(j);
  }

  /** Zero-padding a run of digits keeps it a run of digits. */
  lemma ZeroPaddedDigits(d: string, w: int)
    requires AllDigits(d)
    ensures AllDigits(RJust(d, w, '0'))
  {
    var r := RJust(d, w, '0');
    RJustPads(d, w, '0');
    forall k | 0 <= k < |r| ensures IsDigit(r[k]) {
      if k >= |r| - |d| { assert r[k] == r[|r| - |d|..][k - (|r| - |d|)]; }
    }
  }

  /** Below one million the name is exactly six digits and ".sdf". */
  lemma FileNameSixDigits(i: nat)
    requires i < 1000000
    ensures |FileName(i)| == 10 && AllDigits(FileName(i)[..6]) && FileName(i)[6..] == ".sdf"
  {
    NatToStringWidth(i, 6);
    assert Pow10(6) == 1000000;
    var d := NatToString(i);
    var stem := RJust(d, 6, '0');
    NatToStringDigits(i);
    RJustPads(d, 6, '0');
    ZeroPaddedDigits(d, 6);
    assert |stem| == 6;
    assert FileName(i)[..6] == stem;
  }

  // ---------------------------------------------------------------------------
  // Column layout
  // ---------------------------------------------------------------------------

  lemma CountsFieldWidth(n: nat)
    ensures |RJust(IntToString(n), 3, ' ')| == 3 <==> n < 1000
  {
    NatToStringWidth(n, 3);
    assert Pow10(3) == 1000;
  }

  /** The counts line is 40 characters wide exactly when both counts fit their three
      columns; a larger count widens the line instead of being truncated. */
  lemma CountsLineWidth(numVertices: nat, numEdges: nat)
    ensures |CountsLine(numVertices, numEdges)| == 40 <==> numVertices < 1000 && numEdges < 1000
    ensures |CountsLine(numVertices, numEdges)| >= 40
  {
    CountsFieldWidth(numVertices);
    CountsFieldWidth(numEdges);
  }

  /** Each three-column count field reads back, through `split()` and `int()`, as its count. */
  lemma CountsLineFields(numVertices: nat, numEdges: nat)
    requires numVertices < 1000 && numEdges < 1000
    ensures var r := CountsLine(numVertices, numEdges);
      |Split(r[..3])| == 1 && ParseInt(Split(r[..3])[0]) == Some(numVertices) &&
      |Split(r[3..6])| == 1 && ParseInt(Split(r[3..6])[0]) == Some(numEdges) &&
      r[6..] == CountsSuffix + "\n"
  {
    var f1, f2 := RJust(IntToString(numVertices), 3, ' '), RJust(IntToString(numEdges), 3, ' ');
    var r := CountsLine(numVertices, numEdges);
    assert r[..3] == f1 && r[3..6] == f2 && r[6..] == CountsSuffix + "\n" by {
      CountsFieldWidth(numVertices);
      CountsFieldWidth(numEdges);
      assert r == f1 + f2 + (CountsSuffix + "\n");
    }
    NumberFieldReadsBack(numVertices, 3);
    NumberFieldReadsBack(numEdges, 3);
  }

  /** Two atom lines differ only in the four symbol columns 31..34. */
  lemma AtomLineColumns(s1: string, s2: string)
    requires |s1| <= 4 && |s2| <= 4
    ensures |AtomLine(s1)| == 70 && |AtomLine(s2)| == 70
    ensures AtomLine(s1)[..31] == AtomLine(s2)[..31] == Origin
    ensures AtomLine(s1)[35..] == AtomLine(s2)[35..] == AtomSuffix + "\n"
    ensures AtomLine(s1)[31..31 + |s1|] == s1
    ensures forall i :: 31 + |s1| <= i < 35 ==> AtomLine(s1)[i] == ' '
  {
    var l1, l2 := AtomLine(s1), AtomLine(s2);
    assert l1 == Origin + LJust(s1, 4, ' ') + (AtomSuffix + "\n");
    assert l2 == Origin + LJust(s2, 4, ' ') + (AtomSuffix + "\n");
    assert l1[31..35] == LJust(s1, 4, ' ');
    LJustPads(s1, 4, ' ');
    forall i | 31 + |s1| <= i < 35 ensures l1[i] == ' ' {
      assert l1[i] == LJust(s1, 4, ' ')[i - 31];
    }
  }

  /** The three bond fields read back as source, target and bondLabel when they fit. */
  lemma BondLineFields(source: int, target: int, bondLabel: string)
    requires |IntToString(source)| <= 3 && |IntToString(target)| <= 3
    requires IsWord(bondLabel) && |bondLabel| <= 3
    ensures var r := BondLine(source, target, bondLabel);
      |r| == 22 &&
      |Split(r[..3])| == 1 && ParseInt(Split(r[..3])[0]) == Some(source) &&
      |Split(r[3..6])| == 1 && ParseInt(Split(r[3..6])[0]) == Some(target) &&
      Split(r[6..9]) == [bondLabel] &&
      r[9..] == BondSuffix + "\n"
  {
    var a, b := IntToString(source), IntToString(target);
    var f1, f2, f3 := RJust(a, 3, ' '), RJust(b, 3, ' '), RJust(bondLabel, 3, ' ');
    var r := BondLine(source, target, bondLabel);
    assert r == f1 + f2 + f3 + (BondSuffix + "\n");
    assert r[..3] == f1 && r[3..6] == f2 && r[6..9] == f3;
    NumberFieldReadsBack(source, 3);
    NumberFieldReadsBack(target, 3);
    PaddedWordSplits(bondLabel, 3);
  }
}
