/**
 * The parallel generator of src/utils/artifact.rs. It shares the slot pools, the sub-stat pool,
 * the tier values and the count weights with src/utils/values.rs; it differs in two places, both
 * modelled here: `get_main_value` answers a single-entry table without comparing kinds, and
 * `sub_stats` collects the draws in a `SubStats` record through `add_stat`.
 */
module UtilsArtifact {
  import opened Lib
  import opened Sampling
  import opened Values
  import opened CustomImpl

  /**
   * `get_main_stat` of artifact.rs: the same slot pools; a single candidate is returned without
   * drawing, otherwise the pool is indexed directly by one weighted draw. It agrees with values.rs.
   */
  function GetMainStat(slot: Types, src: Source, pos: nat): (r: Drawn<Stats>)
    ensures LegalMain(slot, r.value)
    ensures r == Values.GetMainStat(slot, src, pos)
  {
    var statsWeights := MainStatPool(slot);
    if |statsWeights| == 1 then Drawn(statsWeights[0].stat, pos)
    else
      MainStatPoolShape(slot);
      PositiveSum(Weights(statsWeights), 0);
      var index := Sample(Weights(statsWeights), src(pos));
      Drawn(statsWeights[index].stat, pos + 1)
  }

  /**
   * `sub_stat_value` of artifact.rs: one uniformly chosen tier of the kind's maximum; `None` is the
   * panicking arm. It agrees with values.rs's `get_substat_value`.
   */
  function SubStatValue(stat: Stats, u: nat): (r: Option<real>)
    ensures r.Some? <==> stat in KindSet(SubStatPool())
    ensures r.Some? ==> ValidSubValue(Stat(stat, r.value))
    ensures r == Values.GetSubstatValue(stat, u)
  {
    SubstatBaseCoversPool(stat);
    if SubstatBase(stat).None? then None
    else
      var value := SubstatBase(stat).value;
      var values := [value, value * 0.9, value * 0.8, value * 0.7];
      Some(values[Uniform(u, 4)])
  }

  /** `get_num_sub_stats` of artifact.rs: 3 or 4, by the weights [2, 1] or [4, 1]; it agrees with values.rs. */
  function GetNumSubStats(strongbox: bool, u: nat): (n: nat)
    ensures n == 3 || n == 4
    ensures n == GetSubstatsAmount(strongbox, u)
  {
    var initialSubStats := [3, 4];
    var weights: seq<nat> := if strongbox then [2, 1] else [4, 1];
    assert Sum(weights) > 0;
    initialSubStats[Sample(weights, u)]
  }

  /**
   * `get_sub_stat` of artifact.rs: a weighted draw indexes the pool, `sub_stat_value` values the
   * kind, and `retain` removes the kind in place. It makes the draw `SubstatDraw` describes.
   */
  method GetSubStat(src: Source, pos: nat, availableStats: seq<WeightedStat>)
    returns (s: Stat, rest: seq<WeightedStat>, next: nat)
    requires PoolOk(availableStats) && |availableStats| > 0
    ensures SubDraw(s, rest, next) == SubstatDraw(src, pos, availableStats)
  {
    PositiveSum(Weights(availableStats), 0);
    var index := Sample(Weights(availableStats), src(pos));
    var stat := availableStats[index].stat;
    SubstatBaseCoversPool(stat);
    var value := SubStatValue(stat, src(pos + 1)).value;
    rest := Retain(availableStats, stat);
    RetainAt(availableStats, index);
    s := Stat(stat, value);
    next := pos + 2;
  }

  /**
   * `get_main_value` of artifact.rs: a single-entry table (Flower, Plume) yields its value whatever
   * the kind asked for; otherwise the entry with that kind, `None` standing for the panic.
   */
  function GetMainValue(slot: Types, kind: Stats): (r: Option<real>)
    ensures r.Some? <==> |MainValueTable(slot)| == 1 || LegalMain(slot, kind)
    ensures LegalMain(slot, kind) ==> r == Values.GetMainValue(slot, kind)
    ensures slot == Flower ==> r == Some(NewStatI32(Hp, 4780).value)
    ensures slot == Plume ==> r == Some(NewStatI32(Atk, 311).value)
  {
    var table := MainValueTable(slot);
    if |table| == 1 then Some(table[0].value)
    else
      var i := FindIndex(table, kind);
      ValueTableMatchesPool(slot);
      if i < |table| then Some(table[i].value) else None
  }

  /** `main_stat` of artifact.rs: draws the kind, then attaches its value; it agrees with values.rs. */
  function MainStat(slot: Types, src: Source, pos: nat): (r: Drawn<Stat>)
    ensures r == Values.MainStat(slot, src, pos)
  {
    var mainStat := GetMainStat(slot, src, pos);
    Drawn(Stat(mainStat.value, GetMainValue(slot, mainStat.value).value), mainStat.next)
  }

  /** The `add_stat` loop of `sub_stats`: `amount` draws from `pool`, each added to the empty `subs`. */
  method AddSubStats(subs: CustomImpl.SubStats, src: Source, pos: nat, pool: seq<WeightedStat>, amount: nat)
    returns (next: nat)
    requires PoolOk(pool) && amount <= |pool| && amount <= 4
    requires subs.AsArray() == Layout([])
    modifies subs
    ensures var d := DrawSubstats(src, pos, pool, amount);
      subs.AsArray() == Layout(d.drawn) && next == d.next
  {
    ghost var drawn: seq<Stat> := [];
    var available := pool;
    next := pos;
    for i := 0 to amount
      invariant DrawSubstats(src, pos, pool, i) == Drawing(drawn, available, next)
      invariant subs.AsArray() == Layout(drawn)
    {
      var s;
      DrawSubstatsStep(src, pos, pool, i);
      s, available, next := GetSubStat(src, next, available);
      WithStatLayout(drawn, s);
      subs.AddStat(s);
      drawn := drawn + [s];
    }
  }

  /**
   * `sub_stats` of artifact.rs: a fresh `SubStats`, the count, then one `get_sub_stat` draw per
   * `add_stat`. The slots it leaves are those of values.rs's `sub_stats` on the same draws.
   */
  method SubStats(src: Source, pos: nat, mainStat: Stats, strongbox: bool)
    returns (subs: CustomImpl.SubStats, next: nat)
    ensures fresh(subs)
    ensures Drawn(subs.AsArray(), next) == SubStatsOf(src, pos, mainStat, strongbox)
  {
    var available := Retain(SubStatPool(), mainStat);
    RetainedPool(mainStat);
    subs := new CustomImpl.SubStats();
    LayoutEmpty();
    var numSubStats := GetNumSubStats(strongbox, src(pos));
    next := AddSubStats(subs, src, pos + 1, available, numSubStats);
    SubStatsOfUnfold(src, pos, mainStat, strongbox);
  }
}
