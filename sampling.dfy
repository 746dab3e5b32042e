/**
 * The random source the generator consumes, made explicit. The `n`-th raw draw of a run is
 * `src(n)`; every operation takes the cursor position it starts at and reports where the next
 * draw begins. A weighted draw (`WeightedIndex::sample`) follows the cumulative-sum rule: for a
 * value `r` below the total weight it picks the first index whose running total exceeds `r`.
 */
module Sampling {

  /** An endless stream of raw draws. */
  type Source = nat -> nat

  /** A value produced by drawing, and the cursor position after the draws it used. */
  datatype Drawn<T> = Drawn(value: T, next: nat)

  /** A uniform draw from `0..n` (`gen_range(0..n)`, `SliceRandom::choose` on `n` items). */
  function Uniform(u: nat, n: nat): (r: nat)
    requires n > 0
    ensures r < n
  {
    u % n
  }

  /** A fair coin (`gen_bool(0.5)`). */
  function Coin(u: nat): bool
  {
    Uniform(u, 2) == 1
  }

  /** The total weight. */
  function Sum(w: seq<nat>): nat
  {
    if w == [] then 0 else w[0] + Sum(w[1..])
  }

  /** The running total of the first `i` weights. */
  function Prefix(w: seq<nat>, i: nat): nat
    requires i <= |w|
  {
    Sum(w[..i])
  }

  lemma PrefixOfAll(w: seq<nat>)
    ensures Prefix(w, |w|) == Sum(w)
  {
    assert w[..|w|] == w;
  }

  lemma PrefixTail(w: seq<nat>, i: nat)
    requires 0 < i <= |w|
    ensures Prefix(w, i) == w[0] + Prefix(w[1..], i - 1)
  {
    assert w[..i][1..] == w[1..][..i - 1];
  }

  /** Each running total adds the next weight to the previous one. */
  lemma {:induction false} PrefixStep(w: seq<nat>, i: nat)
    requires i < |w|
    ensures Prefix(w, i + 1) == Prefix(w, i) + w[i]
  {
    PrefixTail(w, i + 1);
    if i > 0 {
      PrefixStep(w[1..], i - 1);
      PrefixTail(w, i);
    } else {
      assert w[1..][..0] == [];
    }
  }

  /** Running totals never decrease. */
  lemma {:induction false} PrefixMonotone(w: seq<nat>, i: nat, j: nat)
    requires i <= j <= |w|
    ensures Prefix(w, i) <= Prefix(w, j)
    decreases j - i
  {
    if i < j {
      PrefixStep(w, i);
      PrefixMonotone(w, i + 1, j);
    }
  }

  /** One positive weight makes the total positive. */
  lemma PositiveSum(w: seq<nat>, i: nat)
    requires i < |w| && w[i] > 0
    ensures Sum(w) > 0
  {
    PrefixStep(w, i);
    PrefixMonotone(w, i + 1, |w|);
    PrefixOfAll(w);
  }

  /**
   * The cumulative-sum rule: the index whose interval `[Prefix(i), Prefix(i+1))` holds `r`,
   * which is the first index whose running total exceeds `r`.
   */
  function Pick(w: seq<nat>, r: nat): (i: nat)
    requires r < Sum(w)
    ensures i < |w|
    ensures Prefix(w, i) <= r < Prefix(w, i + 1)
    ensures forall j :: 0 < j <= i ==> Prefix(w, j) <= r
    decreases |w|
  {
    if r < w[0] then
      assert w[..1] == [w[0]];
      0
    else
      var k := Pick(w[1..], r - w[0]);
      PrefixTail(w, k + 2);
      assert forall j :: 0 < j <= k + 1 ==> Prefix(w, j) == w[0] + Prefix(w[1..], j - 1) by {
        forall j | 0 < j <= k + 1 { PrefixTail(w, j); }
      }
      assert w[..1] == [w[0]];
      k + 1
  }

  /** A draw value selects index `i` exactly when it lies in `i`'s interval, which is `w[i]` values wide. */
  lemma PickIff(w: seq<nat>, r: nat, i: nat)
    requires r < Sum(w) && i < |w|
    ensures Pick(w, r) == i <==> Prefix(w, i) <= r < Prefix(w, i + 1)
    ensures Prefix(w, i + 1) - Prefix(w, i) == w[i]
  {
    PrefixStep(w, i);
    var k := Pick(w, r);
    if k < i {
      PrefixMonotone(w, k + 1, i);
    } else if k > i {
      PrefixMonotone(w, i + 1, k);
    }
  }

  /** A weighted draw from a raw draw `u` (`WeightedIndex::new(w)` then `sample`). */
  function Sample(w: seq<nat>, u: nat): (i: nat)
    requires Sum(w) > 0
    ensures i < |w| && w[i] > 0
  {
    var i := Pick(w, Uniform(u, Sum(w)));
    PrefixStep(w, i);
    i
  }
}
