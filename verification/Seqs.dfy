/** Cutting and joining sequences, as the other modules' proofs need it. */
module Seqs {

  lemma {:induction false} Assoc<T>(x: seq<T>, y: seq<T>, z: seq<T>)
    ensures x + (y + z) == x + y + z
  {
  }

  lemma {:induction false} ConcatEmpty<T>(x: seq<T>)
    ensures x + [] == x
  {
  }

  lemma {:induction false} Rejoin<T>(x: seq<T>, n: nat)
    requires n <= |x|
    ensures x[..n] + x[n..] == x
  {
  }

  lemma {:induction false} SliceToEnd<T>(x: seq<T>, n: nat)
    requires n <= |x|
    ensures x[n..|x|] == x[n..]
  {
  }

  lemma {:induction false} CutAppended<T>(x: seq<T>, y: seq<T>, n: nat)
    requires n <= |x|
    ensures n <= |x + y| && (x + y)[n..] == x[n..] + y && (x + y)[..n] == x[..n]
  {
  }

  lemma {:induction false} Spliced<T>(x: seq<T>, n: nat, y: seq<T>)
    requires n <= |x|
    ensures n <= |x[..n] + y| && (x[..n] + y)[..n] == x[..n] && (x[..n] + y)[n..] == y
  {
  }

  /** Two elements picked out, and two others in their place. */
  lemma {:induction false} CutAtTwo<T>(s: seq<T>, i: nat, j: nat, u: T, v: T)
    requires i < j < |s|
    ensures s == s[..i] + [s[i]] + s[i + 1..j] + [s[j]] + s[j + 1..]
    ensures s[i := u][j := v] == s[..i] + [u] + s[i + 1..j] + [v] + s[j + 1..]
  {
  }
}
