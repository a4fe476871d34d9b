/** The atom table: element symbols by zero-based index, as the converter writes them
    (one sequence display per line of the program's list).
    The table is kept exactly as the program has it, including its two repeated symbols
    ("Rh" at 44 and 84, "Pt" at 62 and 73) and the out-of-order entries near its end.
 */
module AtomTable {
  import opened Wrappers

  const AtomList: seq<string> :=
    ["H", "He", "Li", "Be", "B", "C", "N", "O", "F", "Ne", "Na", "Mg"] +
    ["Al", "Si", "P", "S", "Cl", "Ar", "K", "Ca", "Sc", "Ti", "V", "Cr"] +
    ["Mn", "Fe", "Co", "Ni", "Cu", "Zn", "Ga", "Ge", "As", "Se", "Br"] +
    ["Kr", "Rb", "Sr", "Y", "Zr", "Nb", "Mo", "Tc", "Ru", "Rh", "Pd"] +
    ["Ag", "Cd", "In", "Sn", "Sb", "Te", "I", "Xe", "Cs", "Ba", "Hf"] +
    ["Ta", "W", "Re", "Os", "Ir", "Pt", "Au", "Hg", "Tl", "Pb", "Bi"] +
    ["Po", "At", "Rn", "Fr", "Ra", "Pt", "Ac", "La", "U", "Sm", "Ce"] +
    ["Nd", "Eu", "Gd", "Dy", "Er", "Rh"]

  /** The number of entries in the table. */
  const Size: int := 85

  /** The entry `k` places down the table `t`. The walk is recursive, so that the verifier
      unfolds only as much of the table as the index at hand asks for. */
  function Entry(t: seq<string>, k: nat): string
    requires k < |t|
    decreases k
  {
    if k == 0 then t[0] else Entry(t[1..], k - 1)
  }

  /** The walk finds the `k`-th element. */
  lemma {:induction false} EntryIsIndex(t: seq<string>, k: nat)
    requires k < |t|
    ensures Entry(t, k) == t[k]
    decreases k
  {
    if k > 0 {
      EntryIsIndex(t[1..], k - 1);
    }
  }

  /** `ATOM_LIST[k]` with Python's list indexing: a negative `k` counts from the end,
      and `None` stands for the `IndexError` raised outside `-Size <= k < Size`. */
  function Symbol(k: int): (r: Option<string>)
    ensures r.Some? <==> -Size <= k < Size
  {
    if 0 <= k < Size then Some(Entry(AtomList, k))
    else if -Size <= k < 0 then Some(Entry(AtomList, Size + k))
    else None
  }

  lemma TableSize()
    ensures |AtomList| == Size
  {
  }

  /** Every index in range names the table's entry at that position, counted from the
      front for `k >= 0` and from the back for `k < 0`. */
  lemma SymbolIndex(k: int)
    ensures 0 <= k < Size ==> Symbol(k) == Some(AtomList[k])
    ensures -Size <= k < 0 ==> Symbol(k) == Some(AtomList[Size + k])
  {
    if 0 <= k < Size {
      EntryIsIndex(AtomList, k);
    } else if -Size <= k < 0 {
      EntryIsIndex(AtomList, Size + k);
    }
  }

  /** Landmarks of the table: 0 is hydrogen (and 1, its atom-shifted reading, helium),
      5 carbon, the last valid index 84 gives "Rh" and the next one fails; the negative
      indices wrap round to the same ends. */
  lemma LandmarkSymbols()
    ensures Symbol(0) == Some("H") && Symbol(1) == Some("He") && Symbol(5) == Some("C")
    ensures Symbol(84) == Some("Rh") && Symbol(85) == None
    ensures Symbol(-1) == Some("Rh") && Symbol(-85) == Some("H") && Symbol(-86) == None
  {
    SymbolIndex(0);
    SymbolIndex(1);
    SymbolIndex(5);
    SymbolIndex(84);
    SymbolIndex(-1);
    SymbolIndex(-85);
  }

  /** Python's negative indexing: `k` and `k - Size` name the same entry. */
  lemma NegativeIndexWraps(k: int)
    requires 0 <= k < Size
    ensures Symbol(k - Size) == Symbol(k)
  {
  }

  lemma PlatinumElsewhere()
    ensures forall i :: 0 <= i < 62 ==> AtomList[i] != "Pt"
    ensures forall i :: 62 < i < 73 ==> AtomList[i] != "Pt"
    ensures forall i :: 73 < i < Size ==> AtomList[i] != "Pt"
  {
  }

  /** Platinum's symbol sits at exactly two indices, 62 and 73. */
  lemma PlatinumTwice(k: int)
    requires 0 <= k < Size
    ensures Symbol(k) == Some("Pt") <==> k == 62 || k == 73
  {
    SymbolIndex(k);
    PlatinumElsewhere();
  }

  lemma RhodiumElsewhere()
    ensures forall i :: 0 <= i < 44 ==> AtomList[i] != "Rh"
    ensures forall i :: 44 < i < 84 ==> AtomList[i] != "Rh"
  {
  }

  /** Rhodium's symbol sits at exactly two indices, 44 and 84. */
  lemma RhodiumTwice(k: int)
    requires 0 <= k < Size
    ensures Symbol(k) == Some("Rh") <==> k == 44 || k == 84
  {
    SymbolIndex(k);
    RhodiumElsewhere();
  }

  lemma ShortSymbolsLow()
    ensures forall j :: 0 <= j < 35 ==> 1 <= |AtomList[j]| <= 2
  {
  }

  lemma ShortSymbolsHigh()
    ensures forall j :: 35 <= j < Size ==> 1 <= |AtomList[j]| <= 2
  {
  }

  /** Every symbol has one or two letters, so it fits the four-column symbol field. */
  lemma SymbolsShort(k: int)
    requires Symbol(k).Some?
    ensures 1 <= |Symbol(k).value| <= 2
  {
    SymbolIndex(k);
    ShortSymbolsLow();
    ShortSymbolsHigh();
  }
}
