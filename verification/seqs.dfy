/** Small facts about sequences, stated once so that longer proofs can cite them instead of rediscovering them. */
module Seqs {

  lemma SliceSnoc<T>(u: seq<T>, a: nat, b: nat)
    requires a < b <= |u|
    ensures u[a..b] == u[a..b - 1] + [u[b - 1]]
  {
  }

  lemma SliceToEnd<T>(u: seq<T>, a: nat)
    requires a <= |u|
    ensures u[a..|u|] == u[a..]
  {
  }

  lemma Associate<T>(x: seq<T>, y: seq<T>, z: seq<T>)
    ensures x + y + z == x + (y + z)
  {
  }
}
