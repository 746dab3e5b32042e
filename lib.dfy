/**
 * The data model of the artifact generator (src/lib.rs): the closed enumerations of sets,
 * slots and stat kinds, a scored stat, the weighted pool entry, the four optional sub-stat
 * slots and the artifact record, together with the invariants its doc-comments state.
 */
module Lib {

  /** Rust's `Option`: an empty or a filled slot. */
  datatype Option<T> = None | Some(value: T)

  /** The two artifact sets a domain drops. */
  datatype Sets = Emblem | Shimenawa

  /** The five artifact slots (`Types`). */
  datatype Types = Flower | Plume | Sand | Goblet | Circlet

  /** The fourteen stat kinds; equality is equality of the tag. */
  datatype Stats =
    | Atk | Hp | Def | AtkPct | HpPct | DefPct | EM | ER
    | ElementalDMG | PhysicalDMG | OtherDMG | CR | CD | HB

  /** Rust's `u8` (the upgrade counter of src/lib.rs). */
  newtype u8 = x: int | 0 <= x < 0x100

  /** Rust's `i32` (the integer parameters of src/utils/custom_impl.rs). */
  newtype i32 = x: int | -0x8000_0000 <= x < 0x8000_0000

  /** A stat kind with its value; `Stat::from` and `Stat::new` are this constructor. */
  datatype Stat = Stat(stat: Stats, value: real)

  /** A pool entry: a stat kind and its relative draw weight. */
  datatype WeightedStat = WeightedStat(stat: Stats, weight: nat)

  /** The fixed array `[Option<Stat>; 4]` of sub-stat slots. */
  type SubStatArray = s: seq<Option<Stat>> | |s| == 4 witness [None, None, None, None]

  /** The artifact record; its accessors are the destructors, and `Utils.From` models `Artifact::from`. */
  datatype Artifact = Artifact(
    artifactSet: Sets,
    slot: Types,
    mainStat: Stat,
    subStats: SubStatArray,
    upgradesRemaining: int)

  /** Every artifact starts with five upgrades. */
  const InitialUpgrades: int := 5

  /** The slots holding `xs` in order, followed by empty slots. */
  function Layout(xs: seq<Stat>): SubStatArray
    requires |xs| <= 4
  {
    seq(4, i requires 0 <= i < 4 => if i < |xs| then Some(xs[i]) else None)
  }

  /** Exactly the first `n` slots are filled. */
  predicate FilledPrefix(a: SubStatArray, n: nat)
  {
    n <= 4 && forall i :: 0 <= i < 4 ==> (a[i].Some? <==> i < n)
  }

  /** No two filled slots share a stat kind. */
  predicate DistinctSubStats(a: SubStatArray)
  {
    forall i, j :: 0 <= i < j < 4 && a[i].Some? && a[j].Some? ==> a[i].value.stat != a[j].value.stat
  }

  /** No filled slot has the main stat's kind. */
  predicate AvoidsMain(a: SubStatArray, main: Stats)
  {
    forall i :: 0 <= i < 4 && a[i].Some? ==> a[i].value.stat != main
  }

  /** The layout of no stats is four empty slots. */
  lemma LayoutEmpty()
    ensures Layout([]) == [None, None, None, None]
  {
  }

  /** Filling the next empty slot of a layout extends the list it lays out. */
  lemma LayoutPush(xs: seq<Stat>, s: Stat)
    requires |xs| < 4
    ensures Layout(xs)[|xs| := Some(s)] == Layout(xs + [s])
    ensures FilledPrefix(Layout(xs + [s]), |xs| + 1)
  {
  }

  /** A layout of distinct kinds, none the main kind, satisfies the sub-stat invariants of an artifact. */
  lemma LayoutInvariants(xs: seq<Stat>, main: Stats)
    requires |xs| <= 4
    requires forall i, j :: 0 <= i < j < |xs| ==> xs[i].stat != xs[j].stat
    requires forall i :: 0 <= i < |xs| ==> xs[i].stat != main
    ensures FilledPrefix(Layout(xs), |xs|)
    ensures DistinctSubStats(Layout(xs))
    ensures AvoidsMain(Layout(xs), main)
  {
  }
}
