/** Small facts about slicing and concatenating sequences. Each is proved on its own,
    away from the functions over lines, so that those proofs do not have to rediscover
    them. */
module Seqs {

  lemma TakeOneMore<T>(s: seq<T>, i: nat)
    requires i < |s|
    ensures s[..i + 1] == s[..i] + [s[i]]
  {
  }

  lemma TakeDrop<T>(s: seq<T>, k: nat)
    requires k <= |s|
    ensures s[..k] + s[k..] == s
  {
  }

  lemma AppendNil<T>(a: seq<T>, b: seq<T>)
    requires b == []
    ensures a + b == a
  {
  }

  lemma NilAppend<T>(a: seq<T>, b: seq<T>)
    requires a == []
    ensures a + b == b
  {
  }

  /** The head and the tail of `[x] + s`. */
  lemma ConsParts<T>(x: T, s: seq<T>)
    ensures ([x] + s)[0] == x && ([x] + s)[1..] == s
  {
  }

  lemma FirstRest<T>(s: seq<T>)
    requires s != []
    ensures [s[0]] + s[1..] == s
  {
  }

  lemma AppendAssoc<T>(a: seq<T>, b: seq<T>, c: seq<T>)
    ensures a + b + c == a + (b + c)
  {
  }

  /** Splitting off the last element of `b` in `a + b`. */
  lemma DropLast<T>(a: seq<T>, b: seq<T>)
    requires b != []
    ensures (a + b)[..|a + b| - 1] == a + b[..|b| - 1]
    ensures (a + b)[|a + b| - 1] == b[|b| - 1]
    ensures a + b[..|b| - 1] + [b[|b| - 1]] == a + b
  {
    assert b[..|b| - 1] + [b[|b| - 1]] == b;
  }

  /** Splitting off the last element of `b` in `a + c + b`. */
  lemma DropLast3<T>(a: seq<T>, c: seq<T>, b: seq<T>)
    requires b != []
    ensures a + c + b[..|b| - 1] + [b[|b| - 1]] == a + c + b
  {
    assert b[..|b| - 1] + [b[|b| - 1]] == b;
  }

  lemma Snoc<T>(s: seq<T>, y: T)
    ensures (s + [y])[..|s|] == s && (s + [y])[|s|] == y
  {
  }

  /** A non-empty sequence is its front followed by its last element. */
  lemma FrontLast<T>(s: seq<T>)
    requires s != []
    ensures s[..|s| - 1] + [s[|s| - 1]] == s
  {
  }

  /** A sequence that agrees with `x` on its first `|y|` elements is that prefix of `x`. */
  lemma PrefixOf<T>(x: seq<T>, y: seq<T>)
    requires |y| <= |x| && forall i :: 0 <= i < |y| ==> x[i] == y[i]
    ensures x[..|y|] == y
  {
  }
}
