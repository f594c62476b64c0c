/** Small facts about concatenated sequences. */
module Seqs {
  lemma {:induction false} AppendAssoc<T>(a: seq<T>, b: seq<T>, c: seq<T>)
    ensures a + (b + c) == a + b + c
  {
  }

  /** Cutting `a + b` where they meet. */
  lemma {:induction false} CutAppend<T>(a: seq<T>, b: seq<T>)
    ensures (a + b)[..|a|] == a && (a + b)[|a|..] == b
  {
  }

  /** A stretch of `b`, found behind `a`. */
  lemma {:induction false} SliceBehind<T>(a: seq<T>, b: seq<T>, from: nat, to: nat)
    requires from <= to <= |b|
    ensures (a + b)[|a| + from..|a| + to] == b[from..to]
  {
  }

  /** A stretch of `a`, found in front of `b`. */
  lemma {:induction false} SliceBefore<T>(a: seq<T>, b: seq<T>, from: nat, to: nat)
    requires from <= to <= |a|
    ensures (a + b)[from..to] == a[from..to]
  {
  }

  /** The elements worth keeping, in their order. */
  function Filter<T>(s: seq<T>, keep: T -> bool): seq<T> {
    if s == [] then [] else (if keep(s[0]) then [s[0]] else []) + Filter(s[1..], keep)
  }

  lemma {:induction false} SliceOfRest<T>(s: seq<T>, a: nat, i: nat, j: nat)
    requires i <= j && a + j <= |s|
    ensures s[a..][i..j] == s[a + i..a + j]
  {
  }

  lemma {:induction false} IndexAppend<T>(a: seq<T>, b: seq<T>, i: nat)
    requires i < |a| + |b|
    ensures (a + b)[i] == if i < |a| then a[i] else b[i - |a|]
  {
  }
}
