/** Flattening of nested sequences: the builder passes are nested loops that each
    append constraints, and their output is the flattening of the per-iteration outputs. */
module Seqs {

  /** Concatenation of all inner sequences, in order. */
  function Flatten<T>(xss: seq<seq<T>>): seq<T>
  {
    if |xss| == 0 then [] else xss[0] + Flatten(xss[1..])
  }

  /** An element of any inner sequence appears in the flattening. */
  lemma {:induction false} FlattenContains<T>(xss: seq<seq<T>>, i: int, x: T)
    requires 0 <= i < |xss| && x in xss[i]
    ensures x in Flatten(xss)
  {
    if i > 0 {
      FlattenContains(xss[1..], i - 1, x);
    }
  }

  /** Every element of the flattening comes from some inner sequence. */
  lemma {:induction false} FlattenMember<T>(xss: seq<seq<T>>, x: T)
    requires x in Flatten(xss)
    ensures exists i :: 0 <= i < |xss| && x in xss[i]
  {
    if x !in xss[0] {
      FlattenMember(xss[1..], x);
      var i :| 0 <= i < |xss[1..]| && x in xss[1..][i];
      assert x in xss[i + 1];
    }
  }
}
