/** The few Python built-ins on strings and integers that the converter relies on:
    `str.split()` with no argument, `str.rjust`, `str.ljust`, `str(int)` and `int(str)`.

    Restrictions, stated once:
    - whitespace is the ASCII part of Python's whitespace set (space, tab through
      carriage return, and the four separators 0x1C-0x1F);
    - `int()` accepts an optional sign followed by one or more ASCII digits (it does not
      accept the underscores, non-ASCII digits or surrounding whitespace Python allows;
      surrounding whitespace cannot reach it here, since its argument is a token of `split()`).
 */
module PyStr {
  import opened Wrappers
  import opened Seqs

  // ---------------------------------------------------------------------------
  // str.split()
  // ---------------------------------------------------------------------------

  predicate IsSpace(c: char) {
    c == ' ' || ('\t' <= c <= '\r') || ('\U{1C}' <= c <= '\U{1F}')
  }

  predicate NoSpace(w: string) {
    forall i :: 0 <= i < |w| ==> !IsSpace(w[i])
  }

  /** A word of `split()`: nonempty and free of whitespace. */
  predicate IsWord(w: string) {
    w != [] && NoSpace(w)
  }

  predicate AllSpace(s: string) {
    forall i :: 0 <= i < |s| ==> IsSpace(s[i])
  }

  /** Splits `s` into words, `cur` being the word read so far. */
  function SplitFrom(s: string, cur: string): (r: seq<string>)
    requires NoSpace(cur)
    ensures forall i :: 0 <= i < |r| ==> IsWord(r[i])
    decreases |s|
  {
    if s == [] then
      (if cur == [] then [] else [cur])
    else if IsSpace(s[0]) then
      (if cur == [] then [] else [cur]) + SplitFrom(s[1..], [])
    else
      SplitFrom(s[1..], cur + [s[0]])
  }

  /** Python's `s.split()`: the maximal runs of non-whitespace characters, in order. */
  function Split(s: string): (r: seq<string>)
    ensures forall i :: 0 <= i < |r| ==> IsWord(r[i])
  {
    SplitFrom(s, [])
  }

  /** Words joined by single spaces; used to state what `Split` undoes. */
  function JoinWords(ws: seq<string>): string {
    if |ws| == 0 then ""
    else if |ws| == 1 then ws[0]
    else ws[0] + " " + JoinWords(ws[1..])
  }

  lemma {:induction false} SplitFromEmptyIff(s: string, cur: string)
    requires NoSpace(cur)
    ensures SplitFrom(s, cur) == [] <==> cur == [] && AllSpace(s)
    decreases |s|
  {
    if s != [] {
      if IsSpace(s[0]) {
        SplitFromEmptyIff(s[1..], []);
        if cur == [] && AllSpace(s[1..]) {
          assert AllSpace(s) by {
            forall i | 0 <= i < |s| ensures IsSpace(s[i]) {
              if i > 0 { assert s[i] == s[1..][i - 1]; }
            }
          }
        }
      } else {
        SplitFromEmptyIff(s[1..], cur + [s[0]]);
      }
    }
  }

  /** A line splits into no words exactly when it is empty or all whitespace. */
  lemma SplitEmptyIff(s: string)
    ensures Split(s) == [] <==> AllSpace(s)
  {
    SplitFromEmptyIff(s, []);
  }

  lemma {:induction false} SplitFromWord(w: string, rest: string, cur: string)
    requires NoSpace(cur) && NoSpace(w)
    ensures SplitFrom(w + rest, cur) == SplitFrom(rest, cur + w)
    decreases |w|
  {
    if w == [] {
      assert w + rest == rest;
      assert cur + w == cur;
    } else {
      assert (w + rest)[0] == w[0];
      assert (w + rest)[1..] == w[1..] + rest;
      SplitFromWord(w[1..], rest, cur + [w[0]]);
      assert cur + [w[0]] + w[1..] == cur + w;
    }
  }

  /** Round trip: splitting words joined by single spaces gives the words back. */
  lemma {:induction false} SplitJoin(ws: seq<string>)
    requires forall i :: 0 <= i < |ws| ==> IsWord(ws[i])
    ensures Split(JoinWords(ws)) == ws
    decreases |ws|
  {
    if |ws| == 1 {
      SplitFromWord(ws[0], "", []);
      assert ws[0] + "" == ws[0];
      assert [] + ws[0] == ws[0];
    } else if |ws| > 1 {
      var w, rest := ws[0], JoinWords(ws[1..]);
      assert JoinWords(ws) == w + (" " + rest);
      SplitFromWord(w, " " + rest, []);
      assert [] + w == w;
      assert (" " + rest)[1..] == rest;
      SplitJoin(ws[1..]);
      assert [w] + ws[1..] == ws;
    }
  }

  /** Whitespace in front of the text changes nothing, when no word is being read. */
  lemma {:induction false} SplitFromSpaces(p: string, rest: string)
    requires AllSpace(p)
    ensures SplitFrom(p + rest, []) == SplitFrom(rest, [])
    decreases |p|
  {
    if p == [] {
      assert p + rest == rest;
    } else {
      assert (p + rest)[0] == p[0];
      assert (p + rest)[1..] == p[1..] + rest;
      SplitFromSpaces(p[1..], rest);
    }
  }

  /** A word right-justified with spaces in a field at least as wide splits back to itself. */
  lemma PaddedWordSplits(w: string, n: int)
    requires IsWord(w)
    ensures Split(RJust(w, n, ' ')) == [w]
  {
    var r := RJust(w, n, ' ');
    var k := |r| - |w|;
    assert r == Repeat(' ', k) + w;
    SplitFromSpaces(Repeat(' ', k), w);
    SplitFromWord(w, "", []);
    assert w + "" == w;
    assert [] + w == w;
  }

  // ---------------------------------------------------------------------------
  // split() on an arbitrary line: words separated by whitespace runs
  // ---------------------------------------------------------------------------

  /** The text `pads[0] + ws[0] + pads[1] + ... + ws[n-1] + pads[n]`. */
  function Layout(pads: seq<string>, ws: seq<string>): string
    requires |pads| == |ws| + 1
    decreases |ws|
  {
    if ws == [] then pads[0] else pads[0] + ws[0] + Layout(pads[1..], ws[1..])
  }

  /** `pads` can separate `n` words: `n + 1` whitespace runs, those between two words
      nonempty, the first and the last possibly empty. */
  predicate Gapped(pads: seq<string>, n: nat) {
    |pads| == n + 1 &&
    (forall i :: 0 <= i < |pads| ==> AllSpace(pads[i])) &&
    (forall i :: 0 < i < n ==> pads[i] != [])
  }

  /** The whitespace runs around the words of `SplitFrom(s, cur)`, `cur` being the word
      read so far (so the first run is empty when `cur` is not). */
  function GapsFrom(s: string, cur: string): (r: seq<string>)
    requires NoSpace(cur)
    ensures |r| == |SplitFrom(s, cur)| + 1
    decreases |s|
  {
    if s == [] then (if cur == [] then [""] else ["", ""])
    else if IsSpace(s[0]) then
      var g := GapsFrom(s[1..], []);
      if cur == [] then [[s[0]] + g[0]] + g[1..] else [""] + [[s[0]] + g[0]] + g[1..]
    else GapsFrom(s[1..], cur + [s[0]])
  }

  /** The whitespace runs of a line, from before its first word to after its last. */
  function Gaps(s: string): seq<string> {
    GapsFrom(s, [])
  }

  /** Whitespace put in front of the first run is whitespace in front of the text. */
  lemma LayoutPrefix(x: string, pads: seq<string>, ws: seq<string>)
    requires |pads| == |ws| + 1
    ensures Layout([x + pads[0]] + pads[1..], ws) == x + Layout(pads, ws)
  {
    ConsParts(x + pads[0], pads[1..]);
    if ws != [] {
      var p, w, t := pads[0], ws[0], Layout(pads[1..], ws[1..]);
      AppendAssoc(x, p, w);
      AppendAssoc(x, p + w, t);
    }
  }

  /** A word in front of the text, after an empty first run. */
  lemma LayoutCons(w: string, h: seq<string>, ws: seq<string>)
    requires |h| == |ws| + 1
    ensures Layout([""] + h, [w] + ws) == w + Layout(h, ws)
  {
    ConsParts("", h);
    ConsParts(w, ws);
    NilAppend("", w);
  }

  lemma GappedPrefix(x: string, g: seq<string>, n: nat)
    requires Gapped(g, n) && AllSpace(x)
    ensures Gapped([x + g[0]] + g[1..], n)
  {
    var h := [x + g[0]] + g[1..];
    forall i | 0 <= i < |h| ensures AllSpace(h[i]) {
      if i > 0 { assert h[i] == g[i]; }
    }
    forall i | 0 < i < n ensures h[i] != [] {
      assert h[i] == g[i];
    }
  }

  lemma GappedCons(h: seq<string>, n: nat)
    requires Gapped(h, n) && h[0] != []
    ensures Gapped([""] + h, n + 1)
  {
    var gs := [""] + h;
    forall i | 0 <= i < |gs| ensures AllSpace(gs[i]) {
      if i > 0 { assert gs[i] == h[i - 1]; }
    }
    forall i | 0 < i < n + 1 ensures gs[i] != [] {
      assert gs[i] == h[i - 1];
    }
  }

  /** One whitespace character in front of a laid-out text, with the word `cur` before it. */
  lemma SpaceStep(c: char, t: string, cur: string, ws1: seq<string>, g: seq<string>)
    requires IsSpace(c) && NoSpace(cur) && Gapped(g, |ws1|) && t == Layout(g, ws1)
    ensures var h := [[c] + g[0]] + g[1..];
      var gs := if cur == [] then h else [""] + h;
      var ws := if cur == [] then ws1 else [cur] + ws1;
      Gapped(gs, |ws|) && cur + ([c] + t) == Layout(gs, ws) && (cur != [] ==> gs[0] == [])
  {
    var h := [[c] + g[0]] + g[1..];
    LayoutPrefix([c], g, ws1);
    GappedPrefix([c], g, |ws1|);
    if cur != [] {
      LayoutCons(cur, h, ws1);
      GappedCons(h, |ws1|);
    } else {
      assert cur + ([c] + t) == [c] + t;
    }
  }

  /** What `GapsFromLayout` states about `s` and `cur`. */
  predicate RunsOf(s: string, cur: string)
    requires NoSpace(cur)
  {
    var ws, gs := SplitFrom(s, cur), GapsFrom(s, cur);
    Gapped(gs, |ws|) && cur + s == Layout(gs, ws) && (cur != [] ==> gs[0] == [])
  }

  /** A whitespace character first: one run longer, and `cur` ends as a word. */
  lemma SpaceRuns(s: string, cur: string)
    requires s != [] && IsSpace(s[0]) && NoSpace(cur) && RunsOf(s[1..], [])
    ensures RunsOf(s, cur)
  {
    var ws1, g := SplitFrom(s[1..], []), GapsFrom(s[1..], []);
    NilAppend([], s[1..]);
    SpaceStep(s[0], s[1..], cur, ws1, g);
    var h := [[s[0]] + g[0]] + g[1..];
    assert GapsFrom(s, cur) == if cur == [] then h else [""] + h;
    assert SplitFrom(s, cur) == if cur == [] then ws1 else [cur] + ws1;
    FirstRest(s);
  }

  /** A word character first: it joins `cur`. */
  lemma WordCharRuns(s: string, cur: string)
    requires s != [] && !IsSpace(s[0]) && NoSpace(cur) && NoSpace(cur + [s[0]])
    requires RunsOf(s[1..], cur + [s[0]])
    ensures RunsOf(s, cur)
  {
    AppendAssoc(cur, [s[0]], s[1..]);
    FirstRest(s);
  }

  lemma {:induction false} GapsFromLayout(s: string, cur: string)
    requires NoSpace(cur)
    ensures RunsOf(s, cur)
    decreases |s|
  {
    if s == [] {
      AppendNil(cur, s);
      if cur != [] {
        LayoutCons(cur, [""], []);
        AppendNil(cur, "");
      }
    } else if IsSpace(s[0]) {
      GapsFromLayout(s[1..], []);
      SpaceRuns(s, cur);
    } else {
      GapsFromLayout(s[1..], cur + [s[0]]);
      WordCharRuns(s, cur);
    }
  }

  /** Every line is its words laid out between whitespace runs: `split()` returns the
      maximal runs of non-whitespace characters, in order. */
  lemma SplitIsRuns(s: string)
    ensures Gapped(Gaps(s), |Split(s)|) && s == Layout(Gaps(s), Split(s))
  {
    GapsFromLayout(s, []);
    assert [] + s == s;
  }

  /** The word being read ends at the first whitespace character. */
  lemma {:induction false} SplitFromWordEnds(p: string, rest: string, w: string)
    requires AllSpace(p) && p != [] && IsWord(w)
    ensures SplitFrom(p + rest, w) == [w] + SplitFrom(p[1..] + rest, [])
  {
    assert (p + rest)[0] == p[0];
    assert (p + rest)[1..] == p[1..] + rest;
  }

  /** Leading whitespace and the first word of a laid-out text: what is left to read. */
  lemma FirstWordRead(p: string, w: string, rest: string)
    requires AllSpace(p) && IsWord(w)
    ensures SplitFrom(p + w + rest, []) == SplitFrom(rest, w)
  {
    AppendAssoc(p, w, rest);
    SplitFromSpaces(p, w + rest);
    SplitFromWord(w, rest, []);
    NilAppend([], w);
  }

  /** The last word is followed by whitespace only. */
  lemma LastWordRead(p: string, w: string)
    requires AllSpace(p) && IsWord(w)
    ensures SplitFrom(p, w) == [w]
  {
    if p != [] {
      AppendNil(p, "");
      SplitFromWordEnds(p, "", w);
      AppendNil(p[1..], "");
      SplitFromEmptyIff(p[1..], []);
    }
  }

  /** After a word, the non-empty run that follows ends it; the rest of the text is laid
      out by the remaining runs, the first of them one character shorter. */
  lemma NextWordRead(pads: seq<string>, ws: seq<string>)
    requires |ws| >= 2 && Gapped(pads, |ws|) && IsWord(ws[0])
    ensures var q := [pads[1][1..]] + pads[2..];
      Gapped(q, |ws| - 1) &&
      SplitFrom(Layout(pads[1..], ws[1..]), ws[0]) == [ws[0]] + SplitFrom(Layout(q, ws[1..]), [])
  {
    var p1, ws1 := pads[1], ws[1..];
    var tail := Layout(pads[2..], ws[2..]);
    var q := [p1[1..]] + pads[2..];
    assert pads[1..][0] == p1 && pads[1..][1..] == pads[2..] && ws1[0] == ws[1] && ws1[1..] == ws[2..];
    assert Layout(pads[1..], ws1) == p1 + ws1[0] + tail;
    AppendAssoc(p1, ws1[0], tail);
    SplitFromWordEnds(p1, ws1[0] + tail, ws[0]);
    ConsParts(p1[1..], pads[2..]);
    assert Layout(q, ws1) == p1[1..] + ws1[0] + tail;
    AppendAssoc(p1[1..], ws1[0], tail);
    forall i | 0 <= i < |q| ensures AllSpace(q[i]) {
      if i > 0 { assert q[i] == pads[i + 1]; }
    }
    forall i | 0 < i < |ws1| ensures q[i] != [] {
      assert q[i] == pads[i + 1];
    }
  }

  lemma {:induction false} LayoutSplitsFrom(pads: seq<string>, ws: seq<string>)
    requires Gapped(pads, |ws|) && forall i :: 0 <= i < |ws| ==> IsWord(ws[i])
    ensures SplitFrom(Layout(pads, ws), []) == ws
    decreases |ws|
  {
    if ws == [] {
      SplitFromEmptyIff(pads[0], []);
    } else {
      FirstWordRead(pads[0], ws[0], Layout(pads[1..], ws[1..]));
      if |ws| == 1 {
        LastWordRead(pads[1], ws[0]);
      } else {
        NextWordRead(pads, ws);
        LayoutSplitsFrom([pads[1][1..]] + pads[2..], ws[1..]);
        FirstRest(ws);
      }
    }
  }

  /** Conversely, words laid out between whitespace runs are what `split()` returns, so
      with `SplitIsRuns` the words and runs of a line are determined by each other. */
  lemma LayoutSplits(pads: seq<string>, ws: seq<string>)
    requires Gapped(pads, |ws|) && forall i :: 0 <= i < |ws| ==> IsWord(ws[i])
    ensures Split(Layout(pads, ws)) == ws
  {
    LayoutSplitsFrom(pads, ws);
  }

  // ---------------------------------------------------------------------------
  // str.rjust / str.ljust
  // ---------------------------------------------------------------------------

  function Repeat(c: char, n: nat): (r: string)
    ensures |r| == n && forall i :: 0 <= i < n ==> r[i] == c
  {
    if n == 0 then "" else Repeat(c, n - 1) + [c]
  }

  function Max(a: int, b: int): int {
    if a < b then b else a
  }

  /** `s.rjust(n, c)`. */
  function RJust(s: string, n: int, c: char): string {
    if |s| >= n then s else Repeat(c, n - |s|) + s
  }

  /** `s.ljust(n, c)`. */
  function LJust(s: string, n: int, c: char): string {
    if |s| >= n then s else s + Repeat(c, n - |s|)
  }

  /** `rjust` pads `s` on the left with `c` up to width `n` and never truncates. */
  lemma RJustPads(s: string, n: int, c: char)
    ensures |RJust(s, n, c)| == Max(n, |s|)
    ensures RJust(s, n, c)[|RJust(s, n, c)| - |s|..] == s
    ensures forall i :: 0 <= i < |RJust(s, n, c)| - |s| ==> RJust(s, n, c)[i] == c
  {
  }

  /** `ljust` pads `s` on the right with `c` up to width `n` and never truncates. */
  lemma LJustPads(s: string, n: int, c: char)
    ensures |LJust(s, n, c)| == Max(n, |s|)
    ensures LJust(s, n, c)[..|s|] == s
    ensures forall i :: |s| <= i < |LJust(s, n, c)| ==> LJust(s, n, c)[i] == c
  {
  }

  // ---------------------------------------------------------------------------
  // str(int) and int(str)
  // ---------------------------------------------------------------------------

  predicate IsDigit(c: char) {
    '0' <= c <= '9'
  }

  predicate AllDigits(s: string) {
    forall i :: 0 <= i < |s| ==> IsDigit(s[i])
  }

  function DigitChar(d: nat): (c: char)
    requires d < 10
    ensures IsDigit(c) && c as int - '0' as int == d
  {
    ('0' as int + d) as char
  }

  function DigitValue(c: char): (d: nat)
    requires IsDigit(c)
    ensures d < 10 && DigitChar(d) == c
  {
    c as int - '0' as int
  }

  /** Decimal digits of `n` without leading zeros, as `str(n)` writes them. */
  function NatToString(n: nat): string {
    if n < 10 then [DigitChar(n)] else NatToString(n / 10) + [DigitChar(n % 10)]
  }

  /** `str(n)` is a nonempty run of digits with no leading zero. */
  lemma {:induction false} NatToStringDigits(n: nat)
    ensures NatToString(n) != [] && AllDigits(NatToString(n))
    ensures n > 0 ==> NatToString(n)[0] != '0'
    ensures n < 10 <==> |NatToString(n)| == 1
  {
    if n >= 10 {
      NatToStringDigits(n / 10);
    }
  }

  function Pow10(k: nat): (p: nat)
    ensures p >= 1
  {
    if k == 0 then 1 else 10 * Pow10(k - 1)
  }

  /** `str(n)` has at most `k` digits exactly when `n < 10^k`. */
  lemma {:induction false} NatToStringWidth(n: nat, k: nat)
    requires k >= 1
    ensures |NatToString(n)| <= k <==> n < Pow10(k)
  {
    if n >= 10 {
      if k == 1 {
        assert |NatToString(n)| == |NatToString(n / 10)| + 1;
      } else {
        NatToStringWidth(n / 10, k - 1);
      }
    } else if k > 1 {
      assert Pow10(k) == 10 * Pow10(k - 1);
    }
  }

  /** Python's `str(n)` for an integer. */
  function IntToString(n: int): string {
    if n < 0 then "-" + NatToString(-n) else NatToString(n)
  }

  /** `str(n)` is a single word of `split()`. */
  lemma IntToStringIsWord(n: int)
    ensures IsWord(IntToString(n))
  {
    var a := IntToString(n);
    NatToStringDigits(if n < 0 then -n else n);
    if n < 0 {
      forall i | 0 <= i < |a| ensures !IsSpace(a[i]) {
        if i > 0 { assert a[i] == NatToString(-n)[i - 1]; }
      }
    }
  }

  /** The value of a string of decimal digits (the empty string has value 0). */
  function DigitsValue(s: string): nat
    requires AllDigits(s)
  {
    if s == [] then 0 else DigitsValue(s[..|s| - 1]) * 10 + DigitValue(s[|s| - 1])
  }

  /** The digits after the optional sign of a would-be integer literal. */
  function Unsigned(s: string): string {
    if |s| > 0 && (s[0] == '+' || s[0] == '-') then s[1..] else s
  }

  /** An optional sign followed by at least one decimal digit. */
  predicate IsIntLiteral(s: string) {
    Unsigned(s) != [] && AllDigits(Unsigned(s))
  }

  /** Python's `int(s)`: `None` where Python raises `ValueError`. Literals of any length
      are accepted: CPython's default limit of 4300 digits is not modelled. */
  function ParseInt(s: string): (r: Option<int>)
    ensures r.Some? <==> IsIntLiteral(s)
    ensures r.Some? && |s| > 0 && s[0] == '-' ==> r.value <= 0
    ensures r.Some? && !(|s| > 0 && s[0] == '-') ==> r.value >= 0
  {
    var d := Unsigned(s);
    if d == [] || !AllDigits(d) then None
    else if s[0] == '-' then Some(0 - DigitsValue(d) as int)
    else Some(DigitsValue(d))
  }

  lemma {:induction false} NatRoundTrip(n: nat)
    ensures AllDigits(NatToString(n)) && DigitsValue(NatToString(n)) == n
  {
    NatToStringDigits(n);
    if n >= 10 {
      var p := NatToString(n / 10);
      var r := NatToString(n);
      assert r == p + [DigitChar(n % 10)];
      assert r[..|r| - 1] == p;
      NatRoundTrip(n / 10);
    }
  }

  /** Round trip: `int(str(n)) == n`. */
  lemma IntRoundTrip(n: int)
    ensures ParseInt(IntToString(n)) == Some(n)
  {
    if n < 0 {
      var s := IntToString(n);
      assert Unsigned(s) == NatToString(-n);
      NatRoundTrip(-n);
    } else {
      var s := NatToString(n);
      NatToStringDigits(n);
      assert s[0] != '-' && s[0] != '+';
      assert Unsigned(s) == s;
      NatRoundTrip(n);
    }
  }

  lemma {:induction false} DigitsValueLeadingZeros(z: string, d: string)
    requires forall i :: 0 <= i < |z| ==> z[i] == '0'
    requires AllDigits(d)
    ensures AllDigits(z + d) && DigitsValue(z + d) == DigitsValue(d)
    decreases |d|, |z|
  {
    assert AllDigits(z + d) by {
      forall i | 0 <= i < |z + d| ensures IsDigit((z + d)[i]) {
        if i >= |z| { assert (z + d)[i] == d[i - |z|]; }
      }
    }
    if d == [] {
      assert z + d == z;
      if z != [] {
        assert z[..|z| - 1] + [] == z[..|z| - 1];
        DigitsValueLeadingZeros(z[..|z| - 1], []);
      }
    } else {
      var init := d[..|d| - 1];
      assert (z + d)[..|z + d| - 1] == z + init;
      DigitsValueLeadingZeros(z, init);
    }
  }

  /** Leading zeros do not change the value `int()` reads. */
  lemma LeadingZerosIgnored(z: string, n: nat)
    requires forall i :: 0 <= i < |z| ==> z[i] == '0'
    ensures ParseInt(z + NatToString(n)) == Some(n)
  {
    var d := NatToString(n);
    var s := z + d;
    NatToStringDigits(n);
    DigitsValueLeadingZeros(z, d);
    NatRoundTrip(n);
    assert IsDigit(s[0]);
    assert Unsigned(s) == s;
    assert IsIntLiteral(s);
  }

  /** Any literal `int()` accepts, with or without a sign and leading zeros: the value is
      the digits' value, negated after `-`. */
  lemma SignedLiteral(sign: string, z: string, n: nat)
    requires sign == "" || sign == "+" || sign == "-"
    requires forall i :: 0 <= i < |z| ==> z[i] == '0'
    ensures ParseInt(sign + z + NatToString(n)) == Some(if sign == "-" then 0 - n else n)
  {
    var d := z + NatToString(n);
    NatToStringDigits(n);
    DigitsValueLeadingZeros(z, NatToString(n));
    NatRoundTrip(n);
    AppendAssoc(sign, z, NatToString(n));
    SignStripped(sign, d);
  }

  /** The sign in front of a run of digits is what `Unsigned` strips. */
  lemma SignStripped(sign: string, d: string)
    requires sign == "" || sign == "+" || sign == "-"
    requires d != [] && IsDigit(d[0])
    ensures Unsigned(sign + d) == d
    ensures |sign + d| > 0 && ((sign + d)[0] == '-' <==> sign == "-")
  {
    if sign == "" {
      NilAppend(sign, d);
    } else {
      assert (sign + d)[1..] == d;
    }
  }

  /** A number right-justified in a field reads back, through `split()` and `int()`,
      as the number. */
  lemma NumberFieldReadsBack(n: int, width: int)
    ensures Split(RJust(IntToString(n), width, ' ')) == [IntToString(n)]
    ensures ParseInt(IntToString(n)) == Some(n)
  {
    IntToStringIsWord(n);
    PaddedWordSplits(IntToString(n), width);
    IntRoundTrip(n);
  }
}
