/**
 * The constructors of src/utils/custom_impl.rs and the mutable `SubStats` record with its four
 * named slots, filled in place by `add_stat`.
 */
module CustomImpl {
  import opened Lib

  /** The position of the first empty slot. */
  function FirstNone(a: SubStatArray): (i: nat)
    requires None in a
    ensures i < 4 && a[i] == None
    ensures forall j :: 0 <= j < i ==> a[j].Some?
  {
    FirstNoneFrom(a, 0)
  }

  /** The first empty slot at or after position `k`. */
  function FirstNoneFrom(a: SubStatArray, k: nat): (i: nat)
    requires k <= 4 && None in a[k..]
    ensures k <= i < 4 && a[i] == None
    ensures forall j :: k <= j < i ==> a[j].Some?
    decreases 4 - k
  {
    assert a[k..] == [a[k]] + a[k + 1..];
    if a[k] == None then k else FirstNoneFrom(a, k + 1)
  }

  /**
   * The slots after `add_stat(s)`: `s` written into the first empty slot, every slot before it
   * filled, and every other slot unchanged.
   */
  function WithStat(a: SubStatArray, s: Stat): (r: SubStatArray)
    requires None in a
    ensures r[FirstNone(a)] == Some(s)
    ensures forall j :: 0 <= j < FirstNone(a) ==> r[j].Some? && r[j] == a[j]
    ensures forall j :: 0 <= j < 4 && j != FirstNone(a) ==> r[j] == a[j]
  {
    a[FirstNone(a) := Some(s)]
  }

  /** On slots filled as a prefix of length `n < 4`, adding writes slot `n` and extends the prefix. */
  lemma WithStatPrefix(a: SubStatArray, n: nat, s: Stat)
    requires FilledPrefix(a, n) && n < 4
    ensures None in a
    ensures WithStat(a, s) == a[n := Some(s)]
    ensures FilledPrefix(WithStat(a, s), n + 1)
  {
    assert a[n] == None;
  }

  /** The slots of a `SubStats::default()` after `add_stat` of each of `xs` in turn. */
  function AddAll(xs: seq<Stat>): (a: SubStatArray)
    requires |xs| <= 4
    ensures a == Layout(xs)
  {
    if xs == [] then [None, None, None, None]
    else
      var init := AddAll(xs[..|xs| - 1]);
      WithStatPrefix(init, |xs| - 1, xs[|xs| - 1]);
      LayoutPush(xs[..|xs| - 1], xs[|xs| - 1]);
      assert xs[..|xs| - 1] + [xs[|xs| - 1]] == xs;
      WithStat(init, xs[|xs| - 1])
  }

  /** Adding to the layout of `xs` lays out `xs` followed by the new stat. */
  lemma WithStatLayout(xs: seq<Stat>, s: Stat)
    requires |xs| < 4
    ensures None in Layout(xs)
    ensures WithStat(Layout(xs), s) == Layout(xs + [s])
  {
    LayoutPush(xs, s);
    WithStatPrefix(Layout(xs), |xs|, s);
  }

  /** The four sub-stat slots of the custom_impl.rs generator, updated in place. */
  class SubStats {
    var first: Option<Stat>
    var second: Option<Stat>
    var third: Option<Stat>
    var fourth: Option<Stat>

    /** `SubStats::default()`: four empty slots. */
    constructor ()
      ensures AsArray() == [None, None, None, None]
    {
      first, second, third, fourth := None, None, None, None;
    }

    /** `as_array`: the slots in the fixed order first, second, third, fourth. */
    function AsArray(): (a: SubStatArray)
      reads this
      ensures a[0] == first && a[1] == second && a[2] == third && a[3] == fourth
    {
      var slots: seq<Option<Stat>> := [first, second, third, fourth];
      assert |slots| == 4;
      slots
    }

    /** A write through entry `i` of `as_array_mut`, which lists the same slots in the same order. */
    method SetSlot(i: nat, v: Option<Stat>)
      requires i < 4
      modifies this
      ensures AsArray() == old(AsArray())[i := v]
    {
      if i == 0 {
        first := v;
      } else if i == 1 {
        second := v;
      } else if i == 2 {
        third := v;
      } else {
        fourth := v;
      }
    }

    /**
     * `add_stat`: scans the slots in order for the first empty one and writes `s` there. With no
     * empty slot the source panics, so a caller must leave one.
     */
    method AddStat(s: Stat)
      requires None in AsArray()
      modifies this
      ensures AsArray() == WithStat(old(AsArray()), s)
    {
      var slots := AsArray();
      var i := 0;
      while slots[i] != None
        invariant i < 4 && None in slots[i..]
        invariant forall j :: 0 <= j < i ==> slots[j].Some?
        decreases 4 - i
      {
        assert slots[i..] == [slots[i]] + slots[i + 1..];
        i := i + 1;
      }
      SetSlot(i, Some(s));
    }
  }

  /** `Artifact::new`: the record of its arguments, the sub-stats read off the `SubStats` slots. */
  function NewArtifact(artifactSet: Sets, slot: Types, mainStat: Stat, subStats: SubStats, upgrades: i32): (a: Artifact)
    reads subStats
    ensures a.artifactSet == artifactSet && a.slot == slot && a.mainStat == mainStat
    ensures a.subStats == subStats.AsArray() && a.upgradesRemaining == upgrades as int
  {
    Artifact(artifactSet, slot, mainStat, subStats.AsArray(), upgrades as int)
  }

  /** `Stat::new_i32`: the integer converted to a floating-point value, which loses nothing. */
  function NewStatI32(stat: Stats, value: i32): (s: Stat)
    ensures s.stat == stat && s.value == value as real
    ensures s.value.Floor == value as int
  {
    Stat(stat, value as real)
  }

  /** `WeightedStat::new`. */
  function NewWeightedStat(stat: Stats, weight: i32): (w: WeightedStat)
    requires weight >= 0
    ensures w.stat == stat && w.weight == weight as int
  {
    WeightedStat(stat, weight as int)
  }
}
