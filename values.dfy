/**
 * The generator of src/utils/values.rs: the slot-specific main-stat pools and their fixed
 * values, the global sub-stat pool with its tiered values, the sub-stat count, and the draw of
 * sub-stats without replacement into the fixed four-slot array.
 */
module Values {
  import opened Lib
  import opened Sampling

  // ----- pools -------------------------------------------------------------------------------

  /** The weights of a pool, in order. */
  function Weights(pool: seq<WeightedStat>): seq<nat>
  {
    seq(|pool|, i requires 0 <= i < |pool| => pool[i].weight)
  }

  /** The stat kinds a pool lists. */
  function KindSet(pool: seq<WeightedStat>): set<Stats>
  {
    set i | 0 <= i < |pool| :: pool[i].stat
  }

  /** No kind is listed twice. */
  predicate DistinctKinds(pool: seq<WeightedStat>)
  {
    forall i, j :: 0 <= i < j < |pool| ==> pool[i].stat != pool[j].stat
  }

  /** The kind a raw draw selects from a pool by weight. */
  function ChooseKind(pool: seq<WeightedStat>, u: nat): (k: Stats)
    requires Sum(Weights(pool)) > 0
    ensures k in KindSet(pool)
  {
    pool[Sample(Weights(pool), u)].stat
  }

  /**
   * In a pool without repeated kinds, the entry `i` is chosen exactly when the reduced draw lands
   * in its interval of the running weight totals, an interval `pool[i].weight` values wide.
   */
  lemma ChooseKindIff(pool: seq<WeightedStat>, u: nat, i: nat)
    requires Sum(Weights(pool)) > 0 && DistinctKinds(pool) && i < |pool|
    ensures var w := Weights(pool); var r := Uniform(u, Sum(w));
      (ChooseKind(pool, u) == pool[i].stat <==> Prefix(w, i) <= r < Prefix(w, i + 1))
      && Prefix(w, i + 1) - Prefix(w, i) == pool[i].weight
  {
    var w := Weights(pool);
    var r := Uniform(u, Sum(w));
    PickIff(w, r, i);
  }

  // ----- main stat ---------------------------------------------------------------------------

  /** The weighted main-stat pool of each slot. */
  function MainStatPool(slot: Types): seq<WeightedStat>
  {
    match slot
    case Flower => [WeightedStat(Hp, 1)]
    case Plume => [WeightedStat(Atk, 1)]
    case Sand => [
      WeightedStat(HpPct, 8),
      WeightedStat(AtkPct, 8),
      WeightedStat(DefPct, 8),
      WeightedStat(EM, 3),
      WeightedStat(ER, 3)]
    case Goblet => [
      WeightedStat(HpPct, 77),
      WeightedStat(AtkPct, 77),
      WeightedStat(DefPct, 76),
      WeightedStat(ElementalDMG, 20),
      WeightedStat(PhysicalDMG, 20),
      WeightedStat(OtherDMG, 120),
      WeightedStat(EM, 10)]
    case Circlet => [
      WeightedStat(HpPct, 11),
      WeightedStat(AtkPct, 11),
      WeightedStat(DefPct, 11),
      WeightedStat(CD, 5),
      WeightedStat(CR, 5),
      WeightedStat(HB, 5),
      WeightedStat(EM, 2)]
  }

  /** A kind the main-stat pool of `slot` lists. */
  predicate LegalMain(slot: Types, kind: Stats)
  {
    kind in KindSet(MainStatPool(slot))
  }

  lemma MainStatPoolShape(slot: Types)
    ensures |MainStatPool(slot)| >= 1 && MainStatPool(slot)[0].weight > 0
    ensures DistinctKinds(MainStatPool(slot))
  {
  }

  /**
   * `get_main_stat`: a single-candidate slot returns its candidate without drawing; any other
   * slot makes one weighted draw from its pool.
   */
  function GetMainStat(slot: Types, src: Source, pos: nat): (r: Drawn<Stats>)
    ensures LegalMain(slot, r.value)
    ensures |MainStatPool(slot)| == 1 ==> r == Drawn(MainStatPool(slot)[0].stat, pos)
    ensures |MainStatPool(slot)| > 1 ==> r.next == pos + 1
    ensures slot == Flower ==> r == Drawn(Hp, pos)
    ensures slot == Plume ==> r == Drawn(Atk, pos)
  {
    var pool := MainStatPool(slot);
    if |pool| == 1 then
      Drawn(pool[0].stat, pos)
    else
      MainStatPoolShape(slot);
      PositiveSum(Weights(pool), 0);
      Drawn(ChooseKind(pool, src(pos)), pos + 1)
  }

  /** For a multi-candidate slot, candidate `i` is drawn exactly for the draws in its weight interval. */
  lemma GetMainStatWeights(slot: Types, src: Source, pos: nat, i: nat)
    requires 1 < |MainStatPool(slot)| && i < |MainStatPool(slot)|
    ensures var w := Weights(MainStatPool(slot));
      Sum(w) > 0
      && (GetMainStat(slot, src, pos).value == MainStatPool(slot)[i].stat
          <==> Prefix(w, i) <= Uniform(src(pos), Sum(w)) < Prefix(w, i + 1))
  {
    MainStatPoolShape(slot);
    PositiveSum(Weights(MainStatPool(slot)), 0);
    ChooseKindIff(MainStatPool(slot), src(pos), i);
  }

  /** The fixed main-stat value of each (slot, kind) pair. */
  function MainValueTable(slot: Types): seq<Stat>
  {
    match slot
    case Flower => [Stat(Hp, 4780.0)]
    case Plume => [Stat(Atk, 311.0)]
    case Sand => [
      Stat(HpPct, 46.6),
      Stat(AtkPct, 46.6),
      Stat(DefPct, 58.3),
      Stat(ER, 51.8),
      Stat(EM, 186.5)]
    case Goblet => [
      Stat(HpPct, 46.6),
      Stat(AtkPct, 46.6),
      Stat(DefPct, 58.3),
      Stat(EM, 186.5),
      Stat(ElementalDMG, 46.6),
      Stat(OtherDMG, 46.6),
      Stat(PhysicalDMG, 58.3)]
    case Circlet => [
      Stat(HpPct, 46.6),
      Stat(AtkPct, 46.6),
      Stat(DefPct, 58.3),
      Stat(EM, 186.5),
      Stat(CR, 31.1),
      Stat(CD, 62.2),
      Stat(HB, 35.9)]
  }

  /** The kinds a value table lists. */
  function TableKinds(table: seq<Stat>): set<Stats>
  {
    set s | s in table :: s.stat
  }

  /** `iter().find(..)` by kind: the first matching position, or `|table|` when there is none. */
  function FindIndex(table: seq<Stat>, kind: Stats): (i: nat)
    ensures i <= |table|
    ensures i < |table| ==> table[i].stat == kind
    ensures forall j :: 0 <= j < i ==> table[j].stat != kind
    ensures i == |table| <==> kind !in TableKinds(table)
  {
    if table == [] then 0
    else if table[0].stat == kind then 0
    else 1 + FindIndex(table[1..], kind)
  }

  /** The kinds of a slot's main-stat pool, written out. */
  function MainKinds(slot: Types): set<Stats>
  {
    match slot
    case Flower => {Hp}
    case Plume => {Atk}
    case Sand => {HpPct, AtkPct, DefPct, EM, ER}
    case Goblet => {HpPct, AtkPct, DefPct, ElementalDMG, PhysicalDMG, OtherDMG, EM}
    case Circlet => {HpPct, AtkPct, DefPct, CD, CR, HB, EM}
  }

  lemma PoolKinds(slot: Types)
    ensures KindSet(MainStatPool(slot)) == MainKinds(slot)
  {
    match slot
    case Flower =>
      assert MainStatPool(Flower)[0].stat == Hp;
    case Plume =>
      assert MainStatPool(Plume)[0].stat == Atk;
    case Sand => SandPoolKinds();
    case Goblet => GobletPoolKinds();
    case Circlet => CircletPoolKinds();
  }

  lemma SandPoolKinds()
    ensures KindSet(MainStatPool(Sand)) == MainKinds(Sand)
  {
    var p := MainStatPool(Sand);
    assert p[0].stat == HpPct && p[1].stat == AtkPct && p[2].stat == DefPct && p[3].stat == EM && p[4].stat == ER;
  }

  lemma GobletPoolKinds()
    ensures KindSet(MainStatPool(Goblet)) == MainKinds(Goblet)
  {
    var p := MainStatPool(Goblet);
    assert p[0].stat == HpPct && p[1].stat == AtkPct && p[2].stat == DefPct && p[3].stat == ElementalDMG;
    assert p[4].stat == PhysicalDMG && p[5].stat == OtherDMG && p[6].stat == EM;
  }

  lemma CircletPoolKinds()
    ensures KindSet(MainStatPool(Circlet)) == MainKinds(Circlet)
  {
    var p := MainStatPool(Circlet);
    assert p[0].stat == HpPct && p[1].stat == AtkPct && p[2].stat == DefPct && p[3].stat == CD;
    assert p[4].stat == CR && p[5].stat == HB && p[6].stat == EM;
  }

  lemma TableKindsOf(slot: Types)
    ensures TableKinds(MainValueTable(slot)) == MainKinds(slot)
  {
  }

  /** Each slot's value table lists exactly the kinds of its main-stat pool. */
  lemma ValueTableMatchesPool(slot: Types)
    ensures TableKinds(MainValueTable(slot)) == KindSet(MainStatPool(slot))
  {
    PoolKinds(slot);
    TableKindsOf(slot);
  }

  /**
   * `get_main_value`: the value of the table entry with the given kind; `None` stands for the
   * panic when the slot's table has no such entry.
   */
  function GetMainValue(slot: Types, kind: Stats): (r: Option<real>)
    ensures r.Some? <==> LegalMain(slot, kind)
    ensures r.Some? ==> Stat(kind, r.value) in MainValueTable(slot)
    ensures slot == Flower && kind == Hp ==> r == Some(4780.0)
    ensures slot == Plume && kind == Atk ==> r == Some(311.0)
  {
    var table := MainValueTable(slot);
    var i := FindIndex(table, kind);
    ValueTableMatchesPool(slot);
    if i < |table| then Some(table[i].value) else None
  }

  /** `main_stat`: a legal kind for the slot carrying that kind's fixed table value. */
  function MainStat(slot: Types, src: Source, pos: nat): (r: Drawn<Stat>)
    ensures LegalMain(slot, r.value.stat)
    ensures r.value.stat == GetMainStat(slot, src, pos).value
    ensures r.value in MainValueTable(slot)
    ensures r.next == pos + (if |MainStatPool(slot)| == 1 then 0 else 1)
    ensures slot == Flower ==> r == Drawn(Stat(Hp, 4780.0), pos)
    ensures slot == Plume ==> r == Drawn(Stat(Atk, 311.0), pos)
  {
    var k := GetMainStat(slot, src, pos);
    Drawn(Stat(k.value, GetMainValue(slot, k.value).value), k.next)
  }

  // ----- sub-stats ---------------------------------------------------------------------------

  /** The global weighted sub-stat pool. */
  function SubStatPool(): seq<WeightedStat>
  {
    [ WeightedStat(Hp, 6),
      WeightedStat(Atk, 6),
      WeightedStat(Def, 6),
      WeightedStat(HpPct, 4),
      WeightedStat(AtkPct, 4),
      WeightedStat(DefPct, 4),
      WeightedStat(ER, 4),
      WeightedStat(EM, 4),
      WeightedStat(CR, 3),
      WeightedStat(CD, 3) ]
  }

  /** The maximum ("100% roll") value of each sub-stat kind; `None` is the panicking arm. */
  function SubstatBase(kind: Stats): Option<real>
  {
    match kind
    case Hp => Some(298.75)
    case Atk => Some(19.45)
    case Def => Some(23.15)
    case HpPct => Some(5.83)
    case AtkPct => Some(5.83)
    case DefPct => Some(7.29)
    case EM => Some(23.31)
    case ER => Some(6.48)
    case CR => Some(3.89)
    case CD => Some(7.77)
    case _ => None
  }

  /** The value table covers exactly the kinds of the sub-stat pool, and every base is positive. */
  lemma SubstatBaseCoversPool(kind: Stats)
    ensures SubstatBase(kind).Some? <==> kind in KindSet(SubStatPool())
    ensures SubstatBase(kind).Some? ==> SubstatBase(kind).value > 0.0
  {
    SubStatPoolKinds();
  }

  /** The kinds of the global sub-stat pool, written out. */
  lemma SubStatPoolKinds()
    ensures KindSet(SubStatPool()) == {Hp, Atk, Def, HpPct, AtkPct, DefPct, ER, EM, CR, CD}
  {
    var p := SubStatPool();
    assert p[0].stat == Hp && p[1].stat == Atk && p[2].stat == Def && p[3].stat == HpPct && p[4].stat == AtkPct;
    assert p[5].stat == DefPct && p[6].stat == ER && p[7].stat == EM && p[8].stat == CR && p[9].stat == CD;
  }

  /** The four equally likely initial values of a sub-stat with maximum `base`. */
  function Tiers(base: real): seq<real>
  {
    [base, base * 0.9, base * 0.8, base * 0.7]
  }

  /** A sub-stat whose kind has a base value and whose value is one of that base's tiers. */
  predicate ValidSubValue(s: Stat)
  {
    SubstatBase(s.stat).Some? && s.value in Tiers(SubstatBase(s.stat).value)
  }

  /** `get_substat_value`: one uniformly drawn tier of the kind's base; `None` for the panicking arm. */
  function GetSubstatValue(kind: Stats, u: nat): (r: Option<real>)
    ensures r.Some? <==> kind in KindSet(SubStatPool())
    ensures r.Some? ==> ValidSubValue(Stat(kind, r.value))
    ensures r.Some? ==> 0.7 * SubstatBase(kind).value <= r.value <= SubstatBase(kind).value
    ensures r.Some? ==> r.value == Tiers(SubstatBase(kind).value)[Uniform(u, 4)]
  {
    SubstatBaseCoversPool(kind);
    match SubstatBase(kind)
    case None => None
    case Some(base) => Some(Tiers(base)[Uniform(u, 4)])
  }

  /** `get_substats_amount`: 3 or 4, weighted 2:1 from a strongbox and 4:1 otherwise. */
  function GetSubstatsAmount(strongbox: bool, u: nat): (n: nat)
    ensures n == 3 || n == 4
    ensures n == 3 <==> if strongbox then Uniform(u, 3) < 2 else Uniform(u, 5) < 4
  {
    var weights: seq<nat> := if strongbox then [2, 1] else [4, 1];
    assert Sum(weights) == if strongbox then 3 else 5;
    assert Prefix(weights, 1) == weights[0] by { assert weights[..1] == [weights[0]]; }
    PickIff(weights, Uniform(u, Sum(weights)), 0);
    [3, 4][Sample(weights, u)]
  }

  /** `available_stats.retain(|s| s.stat != kind)`. */
  function Retain(pool: seq<WeightedStat>, kind: Stats): (r: seq<WeightedStat>)
    ensures |r| <= |pool|
    ensures forall j :: 0 <= j < |r| ==> r[j].stat != kind
  {
    if pool == [] then []
    else (if pool[0].stat == kind then [] else [pool[0]]) + Retain(pool[1..], kind)
  }

  /**
   * Retaining keeps exactly the entries of other kinds (their order is stated by `RetainAt` for
   * the pools without repeated kinds that the generator retains from).
   */
  lemma {:induction false} RetainFilters(pool: seq<WeightedStat>, kind: Stats)
    ensures forall e :: e in Retain(pool, kind) <==> e in pool && e.stat != kind
  {
    if pool != [] {
      RetainFilters(pool[1..], kind);
      assert pool == [pool[0]] + pool[1..];
    }
  }

  /** Retaining a kind the pool does not list leaves the pool as it is. */
  lemma {:induction false} RetainAbsent(pool: seq<WeightedStat>, kind: Stats)
    requires forall j :: 0 <= j < |pool| ==> pool[j].stat != kind
    ensures Retain(pool, kind) == pool
  {
    if pool != [] {
      RetainAbsent(pool[1..], kind);
      assert pool == [pool[0]] + pool[1..];
    }
  }

  /**
   * In a pool without repeated kinds, retaining the kind at position `i` removes exactly that
   * entry: the others keep their order and weights.
   */
  lemma {:induction false} RetainAt(pool: seq<WeightedStat>, i: nat)
    requires DistinctKinds(pool) && i < |pool|
    ensures Retain(pool, pool[i].stat) == pool[..i] + pool[i + 1..]
  {
    var kind := pool[i].stat;
    if i == 0 {
      RetainAbsent(pool[1..], kind);
    } else {
      var tail := pool[1..];
      assert DistinctKinds(tail) by {
        forall a, b | 0 <= a < b < |tail| ensures tail[a].stat != tail[b].stat {
          assert tail[a] == pool[a + 1] && tail[b] == pool[b + 1];
        }
      }
      assert tail[i - 1] == pool[i];
      RetainAt(tail, i - 1);
      assert pool[0].stat != kind;
      assert pool[..i] == [pool[0]] + tail[..i - 1];
      assert pool[i + 1..] == tail[i..];
    }
  }

  /** A pool the sub-stat draw accepts: distinct kinds, positive weights, every kind valued. */
  predicate PoolOk(pool: seq<WeightedStat>)
  {
    && DistinctKinds(pool)
    && forall i :: 0 <= i < |pool| ==> pool[i].weight > 0 && SubstatBase(pool[i].stat).Some?
  }

  /** Removing one entry from an accepted pool leaves an accepted pool without that entry's kind. */
  lemma RemoveKeepsPoolOk(pool: seq<WeightedStat>, i: nat)
    requires PoolOk(pool) && i < |pool|
    ensures var rest := pool[..i] + pool[i + 1..];
      PoolOk(rest) && |rest| == |pool| - 1 && KindSet(rest) == KindSet(pool) - {pool[i].stat}
  {
    var rest := pool[..i] + pool[i + 1..];
    assert forall k :: 0 <= k < |rest| ==> rest[k] == pool[if k < i then k else k + 1];
    assert KindSet(rest) == KindSet(pool) - {pool[i].stat} by {
      forall k | k in KindSet(pool) - {pool[i].stat} ensures k in KindSet(rest) {
        var j :| 0 <= j < |pool| && pool[j].stat == k;
        assert pool[j] == rest[if j < i then j else j - 1];
      }
      forall k | k in KindSet(rest) ensures k != pool[i].stat {
        var j :| 0 <= j < |rest| && rest[j].stat == k;
      }
    }
  }

  /** The global sub-stat pool is accepted by the draw. */
  lemma SubStatPoolOk()
    ensures PoolOk(SubStatPool()) && |SubStatPool()| == 10
  {
  }

  /**
   * Retaining from an accepted pool removes the entry of that kind if there is one and keeps an
   * accepted pool.
   */
  lemma RetainKeepsPoolOk(all: seq<WeightedStat>, main: Stats)
    requires PoolOk(all)
    ensures var pool := Retain(all, main);
      && PoolOk(pool)
      && KindSet(pool) == KindSet(all) - {main}
      && |pool| == if main in KindSet(all) then |all| - 1 else |all|
  {
    if main in KindSet(all) {
      var i :| 0 <= i < |all| && all[i].stat == main;
      RetainAt(all, i);
      RemoveKeepsPoolOk(all, i);
    } else {
      RetainAbsent(all, main);
    }
  }

  /**
   * The pool the sub-stats are drawn from: the global pool without the main stat's kind. It
   * holds 9 entries when the main kind is sub-stat eligible and 10 otherwise.
   */
  lemma RetainedPool(main: Stats)
    ensures var pool := Retain(SubStatPool(), main);
      && PoolOk(pool)
      && main !in KindSet(pool)
      && KindSet(pool) == KindSet(SubStatPool()) - {main}
      && |pool| == if main in KindSet(SubStatPool()) then 9 else 10
  {
    SubStatPoolOk();
    RetainKeepsPoolOk(SubStatPool(), main);
  }


  /** One sub-stat draw: the kind drawn, its value, the pool without that kind, the next cursor. */
  datatype SubDraw = SubDraw(stat: Stat, rest: seq<WeightedStat>, next: nat)

  /**
   * `generate_substat` as a function: one weighted draw of a kind, one uniform draw of its tier,
   * and the pool with that kind removed.
   */
  function SubstatDraw(src: Source, pos: nat, pool: seq<WeightedStat>): (d: SubDraw)
    requires PoolOk(pool) && |pool| > 0
    ensures d.stat.stat in KindSet(pool) && ValidSubValue(d.stat)
    ensures d.stat.stat == ChooseKind(pool, src(pos))
    ensures d.stat.value == Tiers(SubstatBase(d.stat.stat).value)[Uniform(src(pos + 1), 4)]
    ensures PoolOk(d.rest) && |d.rest| == |pool| - 1
    ensures KindSet(d.rest) == KindSet(pool) - {d.stat.stat}
    ensures d.next == pos + 2
  {
    PositiveSum(Weights(pool), 0);
    var i := Sample(Weights(pool), src(pos));
    var kind := pool[i].stat;
    RemoveKeepsPoolOk(pool, i);
    SubstatBaseCoversPool(kind);
    SubDraw(Stat(kind, GetSubstatValue(kind, src(pos + 1)).value), pool[..i] + pool[i + 1..], pos + 2)
  }

  /** The first `k` sub-stat draws of a run, the pool left after them and the next cursor. */
  datatype Drawing = Drawing(drawn: seq<Stat>, rest: seq<WeightedStat>, next: nat)

  /** `k` rounds of `SubstatDraw`, each on the pool the previous one left. */
  function DrawSubstats(src: Source, pos: nat, pool: seq<WeightedStat>, k: nat): (d: Drawing)
    requires PoolOk(pool) && k <= |pool|
    ensures |d.drawn| == k && d.next == pos + 2 * k
    ensures PoolOk(d.rest) && |d.rest| == |pool| - k
  {
    if k == 0 then Drawing([], pool, pos)
    else
      var d := DrawSubstats(src, pos, pool, k - 1);
      var s := SubstatDraw(src, d.next, d.rest);
      Drawing(d.drawn + [s.stat], s.rest, s.next)
  }

  /**
   * What a run of draws from `pool` guarantees: the kinds drawn are pairwise distinct, each comes
   * from the pool and is gone from what is left, each value is one of its kind's tiers, and what
   * is left is part of the pool.
   */
  predicate DrawOk(pool: seq<WeightedStat>, d: Drawing)
  {
    && KindSet(d.rest) <= KindSet(pool)
    && (forall i :: 0 <= i < |d.drawn| ==>
          d.drawn[i].stat in KindSet(pool) && d.drawn[i].stat !in KindSet(d.rest) && ValidSubValue(d.drawn[i]))
    && (forall i, j :: 0 <= i < j < |d.drawn| ==> d.drawn[i].stat != d.drawn[j].stat)
  }

  /** One more draw of a kind still left, removing it from what is left, keeps the guarantees. */
  lemma DrawOkStep(pool: seq<WeightedStat>, d: Drawing, s: SubDraw)
    requires DrawOk(pool, d)
    requires s.stat.stat in KindSet(d.rest) && ValidSubValue(s.stat)
    requires KindSet(s.rest) == KindSet(d.rest) - {s.stat.stat}
    ensures DrawOk(pool, Drawing(d.drawn + [s.stat], s.rest, s.next))
  {
    var drawn := d.drawn + [s.stat];
    assert forall i :: 0 <= i < |d.drawn| ==> drawn[i] == d.drawn[i];
  }

  /** Sampling without replacement: every run of sub-stat draws keeps the guarantees of `DrawOk`. */
  lemma {:induction false} DrawnWithoutReplacement(src: Source, pos: nat, pool: seq<WeightedStat>, k: nat)
    requires PoolOk(pool) && k <= |pool|
    ensures DrawOk(pool, DrawSubstats(src, pos, pool, k))
  {
    if k > 0 {
      DrawnWithoutReplacement(src, pos, pool, k - 1);
      var d := DrawSubstats(src, pos, pool, k - 1);
      DrawSubstatsStep(src, pos, pool, k - 1);
      DrawOkStep(pool, d, SubstatDraw(src, d.next, d.rest));
    }
  }

  lemma LayoutValues(xs: seq<Stat>)
    requires |xs| <= 4
    requires forall i :: 0 <= i < |xs| ==> ValidSubValue(xs[i])
    ensures forall i :: 0 <= i < 4 && Layout(xs)[i].Some? ==> ValidSubValue(Layout(xs)[i].value)
  {
  }

  /**
   * `sub_stats` as a function: the count, then that many draws without replacement from the
   * pool without the main stat's kind, laid out in draw order in the four slots.
   */
  function SubStatsOf(src: Source, pos: nat, main: Stats, strongbox: bool): (r: Drawn<SubStatArray>)
    ensures FilledPrefix(r.value, GetSubstatsAmount(strongbox, src(pos)))
    ensures DistinctSubStats(r.value) && AvoidsMain(r.value, main)
    ensures forall i :: 0 <= i < 4 && r.value[i].Some? ==> ValidSubValue(r.value[i].value)
    ensures r.next == pos + 1 + 2 * GetSubstatsAmount(strongbox, src(pos))
  {
    var pool := Retain(SubStatPool(), main);
    RetainedPool(main);
    var n := GetSubstatsAmount(strongbox, src(pos));
    var d := DrawSubstats(src, pos + 1, pool, n);
    DrawnWithoutReplacement(src, pos + 1, pool, n);
    LayoutInvariants(d.drawn, main);
    LayoutValues(d.drawn);
    Drawn(Layout(d.drawn), d.next)
  }

  lemma DrawSubstatsStep(src: Source, pos: nat, pool: seq<WeightedStat>, i: nat)
    requires PoolOk(pool) && i < |pool|
    ensures var d := DrawSubstats(src, pos, pool, i);
      var s := SubstatDraw(src, d.next, d.rest);
      DrawSubstats(src, pos, pool, i + 1) == Drawing(d.drawn + [s.stat], s.rest, s.next)
  {
  }

  lemma SubStatsOfUnfold(src: Source, pos: nat, main: Stats, strongbox: bool)
    ensures PoolOk(Retain(SubStatPool(), main)) && |Retain(SubStatPool(), main)| >= 9
    ensures var d := DrawSubstats(src, pos + 1, Retain(SubStatPool(), main), GetSubstatsAmount(strongbox, src(pos)));
      SubStatsOf(src, pos, main, strongbox) == Drawn(Layout(d.drawn), d.next)
  {
    RetainedPool(main);
  }

  /** `generate_substat`: draws a sub-stat from `available` and removes its kind from the pool. */
  method GenerateSubstat(src: Source, pos: nat, available: seq<WeightedStat>)
    returns (s: Stat, rest: seq<WeightedStat>, next: nat)
    requires PoolOk(available) && |available| > 0
    ensures SubDraw(s, rest, next) == SubstatDraw(src, pos, available)
  {
    PositiveSum(Weights(available), 0);
    var index := Sample(Weights(available), src(pos));
    var stat := available[index].stat;
    SubstatBaseCoversPool(stat);
    var value := GetSubstatValue(stat, src(pos + 1)).value;
    rest := Retain(available, stat);
    RetainAt(available, index);
    s := Stat(stat, value);
    next := pos + 2;
  }

  /**
   * A draw removes exactly one entry, the one of the drawn kind, and the entries left keep their
   * order and weights: what is left is the pool retained without the drawn kind.
   */
  lemma DrawRemovesKind(src: Source, pos: nat, pool: seq<WeightedStat>)
    requires PoolOk(pool) && |pool| > 0
    ensures var d := SubstatDraw(src, pos, pool);
      && d.rest == Retain(pool, d.stat.stat)
      && exists i :: 0 <= i < |pool| && pool[i].stat == d.stat.stat && d.rest == pool[..i] + pool[i + 1..]
  {
    var d := SubstatDraw(src, pos, pool);
    PositiveSum(Weights(pool), 0);
    var i := Sample(Weights(pool), src(pos));
    assert pool[i].stat == d.stat.stat && d.rest == pool[..i] + pool[i + 1..];
    RetainAt(pool, i);
  }

  /**
   * Entry `i` of the pool gives the drawn kind exactly when the reduced kind draw falls in its
   * interval of running weight totals, an interval `pool[i].weight` values wide.
   */
  lemma SubstatDrawWeights(src: Source, pos: nat, pool: seq<WeightedStat>, i: nat)
    requires PoolOk(pool) && i < |pool|
    ensures var w := Weights(pool);
      && Sum(w) > 0
      && (SubstatDraw(src, pos, pool).stat.stat == pool[i].stat
          <==> Prefix(w, i) <= Uniform(src(pos), Sum(w)) < Prefix(w, i + 1))
      && Prefix(w, i + 1) - Prefix(w, i) == pool[i].weight
  {
    PositiveSum(Weights(pool), 0);
    ChooseKindIff(pool, src(pos), i);
  }

  /**
   * The loop of `sub_stats`: fills the slots `0..amount` of a four-slot array in order, one
   * `generate_substat` draw per slot, each from the pool the previous draw left.
   */
  method FillSubStats(src: Source, pos: nat, pool: seq<WeightedStat>, amount: nat)
    returns (subs: SubStatArray, next: nat)
    requires PoolOk(pool) && amount <= |pool| && amount <= 4
    ensures var d := DrawSubstats(src, pos, pool, amount);
      subs == Layout(d.drawn) && next == d.next
  {
    var substats := new Option<Stat>[4] [None, None, None, None];
    ghost var drawn: seq<Stat> := [];
    LayoutEmpty();
    var available := pool;
    next := pos;
    for i := 0 to amount
      invariant DrawSubstats(src, pos, pool, i) == Drawing(drawn, available, next)
      invariant substats[..] == Layout(drawn)
    {
      var s;
      DrawSubstatsStep(src, pos, pool, i);
      s, available, next := GenerateSubstat(src, next, available);
      LayoutPush(drawn, s);
      substats[i] := Some(s);
      drawn := drawn + [s];
    }
    subs := substats[..];
  }

  /**
   * `sub_stats`: the count, then that many draws from the global pool without the main stat's
   * kind, written to the slots in draw order.
   */
  method SubStats(src: Source, pos: nat, mainStat: Stats, strongbox: bool)
    returns (subs: SubStatArray, next: nat)
    ensures Drawn(subs, next) == SubStatsOf(src, pos, mainStat, strongbox)
  {
    var available := Retain(SubStatPool(), mainStat);
    RetainedPool(mainStat);
    var amount := GetSubstatsAmount(strongbox, src(pos));
    subs, next := FillSubStats(src, pos + 1, available, amount);
    SubStatsOfUnfold(src, pos, mainStat, strongbox);
  }
}
