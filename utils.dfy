/**
 * The generator of src/utils/mod.rs: sampling a set and a slot, assembling an artifact with
 * `Artifact::from`, and the two generators `custom_rng` (on a caller's source of draws) and
 * `random` (which first draws the strongbox flag). Each consumes the draws in a fixed order:
 * set, slot, main stat, sub-stat count, then one kind draw and one tier draw per sub-stat.
 */
module Utils {
  import opened Lib
  import opened Sampling
  import opened Values

  /** `Distribution<Sets>`: a fair coin, heads for Emblem. */
  function SampleSet(src: Source, pos: nat): (r: Drawn<Sets>)
    ensures r.next == pos + 1
    ensures r.value == Emblem <==> Coin(src(pos))
  {
    Drawn(if Coin(src(pos)) then Emblem else Shimenawa, pos + 1)
  }

  /** The slot a uniform index in `0..5` names; every index from 4 on is the catch-all Sand. */
  function SlotFromIndex(k: nat): (t: Types)
    ensures k >= 4 ==> t == Sand
  {
    match k
    case 0 => Circlet
    case 1 => Flower
    case 2 => Goblet
    case 3 => Plume
    case _ => Sand
  }

  /** The index in `0..5` that names a slot. */
  function SlotIndex(t: Types): (k: nat)
    ensures k < 5 && SlotFromIndex(k) == t
  {
    match t
    case Circlet => 0
    case Flower => 1
    case Goblet => 2
    case Plume => 3
    case Sand => 4
  }

  /** Within `0..5` the indices and the slots correspond one to one, so each slot has one index in five. */
  lemma SlotBijection(k: nat, t: Types)
    requires k < 5
    ensures SlotFromIndex(k) == t <==> k == SlotIndex(t)
  {
  }

  /** `Distribution<Types>`: a uniform index in `0..5`, named by `SlotFromIndex`. */
  function SampleSlot(src: Source, pos: nat): (r: Drawn<Types>)
    ensures r.next == pos + 1
    ensures SlotIndex(r.value) == Uniform(src(pos), 5)
  {
    Drawn(SlotFromIndex(Uniform(src(pos), 5)), pos + 1)
  }

  /** `Artifact::from`: the record of its arguments, which the accessors return unchanged. */
  function From(artifactSet: Sets, slot: Types, mainStat: Stat, subStats: SubStatArray, upgrades: u8): (a: Artifact)
    ensures a.artifactSet == artifactSet && a.slot == slot && a.mainStat == mainStat
    ensures a.subStats == subStats && a.upgradesRemaining == upgrades as int
  {
    Artifact(artifactSet, slot, mainStat, subStats, upgrades as int)
  }

  /**
   * What every generated artifact satisfies: a main stat legal for its slot with its table value;
   * three or four sub-stats in the leading slots, of distinct kinds, none the main stat's kind,
   * each valued at one of its kind's tiers; and five upgrades remaining.
   */
  predicate Generated(a: Artifact)
  {
    && LegalMain(a.slot, a.mainStat.stat)
    && a.mainStat in MainValueTable(a.slot)
    && (FilledPrefix(a.subStats, 3) || FilledPrefix(a.subStats, 4))
    && DistinctSubStats(a.subStats)
    && AvoidsMain(a.subStats, a.mainStat.stat)
    && (forall i :: 0 <= i < 4 && a.subStats[i].Some? ==> ValidSubValue(a.subStats[i].value))
    && a.upgradesRemaining == InitialUpgrades
  }

  /** The draws the main stat of `slot` takes: none for a single-entry pool, one otherwise. */
  function MainDraws(slot: Types): nat
  {
    if |MainStatPool(slot)| == 1 then 0 else 1
  }

  /**
   * `custom_rng`: set, slot, main stat and sub-stats drawn in that order from the caller's
   * source, assembled with five upgrades remaining.
   */
  function CustomRng(src: Source, pos: nat, strongbox: bool): (r: Drawn<Artifact>)
    ensures Generated(r.value)
    ensures r.value.artifactSet == SampleSet(src, pos).value
    ensures r.value.slot == SampleSlot(src, pos + 1).value
    ensures r.value.mainStat == Values.MainStat(r.value.slot, src, pos + 2).value
    ensures var m := pos + 2 + MainDraws(r.value.slot);
      && FilledPrefix(r.value.subStats, GetSubstatsAmount(strongbox, src(m)))
      && r.next == m + 1 + 2 * GetSubstatsAmount(strongbox, src(m))
    ensures r.value.subStats == SubStatsOf(src, pos + 2 + MainDraws(r.value.slot), r.value.mainStat.stat, strongbox).value
  {
    var artifactSet := SampleSet(src, pos);
    var slot := SampleSlot(src, artifactSet.next);
    var main := Values.MainStat(slot.value, src, slot.next);
    var sub := SubStatsOf(src, main.next, main.value.stat, strongbox);
    Drawn(From(artifactSet.value, slot.value, main.value, sub.value, 5), sub.next)
  }

  /** `random`: the strongbox flag is a fair coin drawn first, then `custom_rng` runs on the rest. */
  function Random(src: Source, pos: nat): (r: Drawn<Artifact>)
    ensures Generated(r.value)
    ensures r == CustomRng(src, pos + 1, Coin(src(pos)))
  {
    CustomRng(src, pos + 1, Coin(src(pos)))
  }

  /** Sub-stat draws read only the raw draws in `pos .. pos + 2k`. */
  lemma {:induction false} DrawSubstatsLocal(s1: Source, s2: Source, pos: nat, pool: seq<WeightedStat>, k: nat)
    requires PoolOk(pool) && k <= |pool|
    requires forall n :: pos <= n < pos + 2 * k ==> s1(n) == s2(n)
    ensures DrawSubstats(s1, pos, pool, k) == DrawSubstats(s2, pos, pool, k)
  {
    if k > 0 {
      DrawSubstatsLocal(s1, s2, pos, pool, k - 1);
      DrawSubstatsStep(s1, pos, pool, k - 1);
      DrawSubstatsStep(s2, pos, pool, k - 1);
    }
  }

  /** The main stat reads at most the one raw draw at its cursor. */
  lemma MainStatLocal(slot: Types, s1: Source, s2: Source, pos: nat)
    requires s1(pos) == s2(pos)
    ensures Values.MainStat(slot, s1, pos) == Values.MainStat(slot, s2, pos)
  {
  }

  /** Equal counts of draws from one pool, on sources that agree where they read, lay out equal slots. */
  lemma LayoutLocal(s1: Source, s2: Source, pos: nat, pool: seq<WeightedStat>, k: nat)
    requires PoolOk(pool) && k <= |pool| && k <= 4
    requires forall n :: pos <= n < pos + 2 * k ==> s1(n) == s2(n)
    ensures var d1 := DrawSubstats(s1, pos, pool, k);
      var d2 := DrawSubstats(s2, pos, pool, k);
      Drawn(Layout(d1.drawn), d1.next) == Drawn(Layout(d2.drawn), d2.next)
  {
    DrawSubstatsLocal(s1, s2, pos, pool, k);
  }

  /** The sub-stats read only the count draw at `pos` and the draws after it that they consume. */
  lemma SubStatsOfLocal(s1: Source, s2: Source, pos: nat, main: Stats, strongbox: bool)
    requires forall n :: pos <= n < pos + 1 + 2 * GetSubstatsAmount(strongbox, s1(pos)) ==> s1(n) == s2(n)
    ensures SubStatsOf(s1, pos, main, strongbox) == SubStatsOf(s2, pos, main, strongbox)
  {
    var n := GetSubstatsAmount(strongbox, s1(pos));
    assert n == GetSubstatsAmount(strongbox, s2(pos)) by {
      assert s1(pos) == s2(pos);
    }
    SubStatsOfUnfold(s1, pos, main, strongbox);
    SubStatsOfUnfold(s2, pos, main, strongbox);
    LayoutLocal(s1, s2, pos + 1, Retain(SubStatPool(), main), n);
  }

  /**
   * A run of `custom_rng` reads only the draws it consumes: two sources that agree on
   * `pos .. r.next` give the same artifact, so the same seed reproduces the same artifact.
   */
  lemma CustomRngLocal(s1: Source, s2: Source, pos: nat, strongbox: bool)
    requires forall n :: pos <= n < CustomRng(s1, pos, strongbox).next ==> s1(n) == s2(n)
    ensures CustomRng(s1, pos, strongbox) == CustomRng(s2, pos, strongbox)
  {
    var r := CustomRng(s1, pos, strongbox);
    assert s1(pos) == s2(pos) && s1(pos + 1) == s2(pos + 1) && s1(pos + 2) == s2(pos + 2);
    var slot := SampleSlot(s1, pos + 1);
    assert slot == SampleSlot(s2, pos + 1);
    var main := Values.MainStat(slot.value, s1, slot.next);
    MainStatLocal(slot.value, s1, s2, slot.next);
    var sub := SubStatsOf(s1, main.next, main.value.stat, strongbox);
    assert r.next == sub.next;
    SubStatsOfLocal(s1, s2, main.next, main.value.stat, strongbox);
  }
}
