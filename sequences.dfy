/** Facts about sequences that more than one module needs. */
module Sequences {
  /** Replacing the `i`-th element keeps what lies before and after it. */
  lemma {:induction false} UpdateSplits<T>(cur: seq<T>, next: seq<T>, i: nat)
    requires i < |cur| == |next|
    requires forall j :: 0 <= j < |cur| && j != i ==> next[j] == cur[j]
    ensures next[..i + 1] == cur[..i] + [next[i]]
    ensures next[i + 1..] == cur[i + 1..]
  {
  }
}
