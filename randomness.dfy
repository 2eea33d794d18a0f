/** The one way the game turns a Math.random() value into a choice:
    Math.floor(Math.random() * n). The random value itself is an input of the model. */
module Randomness {

  /** A value Math.random() can return. */
  predicate IsRandom(r: real) { 0.0 <= r < 1.0 }

  predicate AllRandom(rs: seq<real>) { forall i :: 0 <= i < |rs| ==> IsRandom(rs[i]) }

  /** Math.floor(r * n): an index into a collection of n > 0 elements. */
  function RandomIndex(r: real, n: nat): (i: nat)
    requires IsRandom(r) && n > 0
    ensures i < n
  {
    ScaledBelow(r, n);
    (r * n as real).Floor
  }

  lemma ScaledBelow(r: real, n: nat)
    requires IsRandom(r) && n > 0
    ensures 0.0 <= r * n as real < n as real
  {
  }

  /** The value i / n of Math.random() picks index i among n elements. */
  lemma IndexValue(i: nat, n: nat)
    requires i < n
    ensures IsRandom(i as real / n as real) && RandomIndex(i as real / n as real, n) == i
  {
    var r := i as real / n as real;
    assert r * n as real == i as real;
    assert 0.0 <= r < 1.0;
  }
}
