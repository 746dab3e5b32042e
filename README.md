# Artifact generator: a verified Dafny model

This project models the random artifact generator of the `ras`/`ags` crate. The generator builds a
game-loot item in four steps:

1. It picks a set (one of two) and a slot (one of five).
2. It draws a main stat from the slot's weighted pool and attaches that kind's fixed value.
3. It draws 3 or 4 sub-stats from a global weighted pool. The draws are without replacement, and
   the main stat's kind is removed from the pool first. Each sub-stat takes one of four tiers
   (100%, 90%, 80%, 70%) of its kind's maximum value.
4. It assembles the artifact with five upgrades remaining.

The repository holds two parallel versions of the generator, and both are modelled against one
shared data model:

- `src/utils/values.rs` with `src/utils/mod.rs`: an explicit random generator, sub-stats in a
  fixed `[Option<Stat>; 4]` array;
- `src/utils/artifact.rs` with `src/utils/custom_impl.rs`: a `SubStats` record with four named
  slots, filled in place by `add_stat`.

Randomness is an explicit input. A `Source` is an endless stream of raw draws (`nat -> nat`).
Each step of the generator that consumes draws (set, slot, main stat, sub-stat count and each
sub-stat) takes the cursor position it starts at and returns where the next draw begins. The
primitive samplers (`Uniform`, `Sample`, `ChooseKind`, `GetSubstatValue`, `GetSubstatsAmount` and
their artifact.rs twins) take a single raw draw instead and return no cursor. Generation is
therefore a deterministic function of the draws. The draws are reduced as follows:

- a bounded uniform draw (`gen_range`, `SliceRandom::choose`) is the raw draw modulo the bound;
- `gen_bool(0.5)` is the parity of the raw draw;
- `WeightedIndex::sample` follows the cumulative-sum rule: for `r` (the raw draw modulo the total
  weight) it picks the first index whose running total exceeds `r`.

Stat values are exact `real`s.

Modules follow the source files:

| module | file |
|---|---|
| `Lib` (lib.dfy) | src/lib.rs: `Sets`, `Types`, `Stats`, `Stat`, `Artifact`, and the sub-stat invariants |
| `Sampling` (sampling.dfy) | the draw source and the weighted-index rule |
| `Values` (values.dfy) | src/utils/values.rs |
| `CustomImpl` (custom_impl.dfy) | src/utils/custom_impl.rs, with the `SubStats` class |
| `UtilsArtifact` (artifact_rs.dfy) | src/utils/artifact.rs |
| `Utils` (utils.dfy) | src/utils/mod.rs |

Some source operations map onto Dafny's own constructs:

- `Stat::from` and `Stat::new` are the constructor of `Lib.Stat`, and the accessors `stat`,
  `value`, `slot`, `set`, `main_stat` and `sub_stats` are destructors of the `Lib` datatypes.
  `Artifact::from`, which takes a `u8` upgrade count, is modelled by `Utils.From`.
- The slot pools, value tables, sub-stat pool and tier bases of artifact.rs are the same data as
  those of values.rs, so both files share one definition of each. Each artifact.rs function has
  its own member in `UtilsArtifact`, and each is proved to agree with its values.rs twin. They
  differ in two places: `get_main_value` of artifact.rs returns the single entry of a one-entry
  table without comparing kinds, and `sub_stats` of artifact.rs collects the draws in a `SubStats`
  record through `add_stat` instead of writing an array.
- The imperative parts are methods proved against specification functions:
  - `Values.SubStats` and `UtilsArtifact.SubStats` both produce exactly `Values.SubStatsOf`.
  - `Values.GenerateSubstat` and `UtilsArtifact.GetSubStat` both produce exactly `Values.SubstatDraw`.
  - `CustomImpl.SubStats.AddStat` produces exactly `CustomImpl.WithStat`.
- The generators `Utils.CustomRng` and `Utils.Random` are proved to produce only artifacts that
  satisfy `Utils.Generated`.

## Model

| member | source | states |
|---|---|---|
| Lib.LayoutInvariants | src/lib.rs:105-111 | draws of distinct kinds, none of them the main kind, laid out in the four slots give a filled prefix with no repeated kind and no main kind |
| Lib.LayoutPush | src/utils/values.rs:124-130 | writing slot `n` of a layout of `n` stats gives the layout of the `n+1` stats, still a filled prefix |
| Sampling.Sample | src/utils/values.rs:55-60 | a weighted draw with positive total weight always gives an index inside the pool whose weight is positive |
| Sampling.PickIff | src/utils/values.rs:55-60 | index `i` is picked exactly when the reduced draw lies in `[prefix(i), prefix(i+1))`, an interval `w[i]` values wide |
| Sampling.PositiveSum | src/utils/values.rs:137-140 | one positive weight makes the total positive, so `WeightedIndex::new` succeeds |
| Values.GetMainStat | src/utils/values.rs:20-66 | the kind is always in the slot's pool; Flower gives Hp and Plume gives Atk with no draw taken; any other slot takes exactly one draw |
| Values.ChooseKind | src/utils/values.rs:55-63 | the weighted draw followed by indexing the pool always yields a kind the pool lists |
| Values.ChooseKindIff | src/utils/values.rs:55-63 | in a pool without repeated kinds, entry `i`'s kind is chosen exactly when the reduced draw lies in its interval, `pool[i].weight` values wide |
| Values.GetMainStatWeights | src/utils/values.rs:51-65 | for a multi-candidate slot, candidate `i` is drawn exactly when the reduced draw falls in its interval of running weight totals |
| Values.ValueTableMatchesPool | src/utils/values.rs:21-49 | each slot's value table lists exactly the kinds of its main-stat pool (the table is at lines 69-97) |
| Values.FindIndex | src/utils/values.rs:99 | `iter().find` by kind: the first position holding the kind, or the end exactly when no entry has it |
| Values.GetMainValue | src/utils/values.rs:68-103 | a value exists if and only if the kind is legal for the slot, so the panic is unreachable from `main_stat`; the value is the table's; Flower/Hp gives 4780 and Plume/Atk gives 311 |
| Values.MainStat | src/utils/values.rs:10-15 | the main stat has the kind `get_main_stat` draws, which is legal for the slot, and its table value; it takes no draw for Flower and Plume and one draw otherwise |
| Values.SubstatBaseCoversPool | src/utils/values.rs:156-169 | a base value exists exactly for the ten kinds of the sub-stat pool, and each base is positive |
| Values.GetSubstatValue | src/utils/values.rs:156-176 | for the ten pool kinds the value is the tier the draw selects (draw modulo 4 indexes 100%, 90%, 80%, 70%) and lies between 70% and 100% of the base; every other kind takes the panicking arm |
| Values.GetSubstatsAmount | src/utils/values.rs:178-193 | the count is 3 or 4; it is 3 exactly when the draw falls in the first 2 of 3 values (strongbox) or the first 4 of 5 values (otherwise) |
| Values.Retain | src/utils/values.rs:119 | `retain` never grows the pool and leaves no entry of the removed kind |
| Values.RetainFilters | src/utils/values.rs:119 | `retain` keeps exactly the entries whose kind differs from the removed kind |
| Values.RetainAt | src/utils/values.rs:148 | in a pool without repeated kinds, retaining the kind at position `i` removes exactly entry `i` and keeps the others in order |
| Values.RetainedPool | src/utils/values.rs:107-119 | the pool after removing the main kind is valid, lacks the main kind, and holds 9 entries if the main kind is sub-stat eligible and 10 otherwise |
| Values.SubstatDraw | src/utils/values.rs:135-151 | the kind is the one the weighted kind draw selects from the pool, and its value is the tier the next draw selects (a valid tier); the pool loses exactly that kind and stays valid; two draws are taken |
| Values.SubstatDrawWeights | src/utils/values.rs:136-146 | pool entry `i` gives the drawn kind exactly when the reduced kind draw falls in its interval of running weight totals, `pool[i].weight` values wide |
| Values.DrawRemovesKind | src/utils/values.rs:135-151 | the pool left by a draw is the pool retained without the drawn kind, which is the pool with one entry cut out, the others in order with their weights |
| Values.DrawSubstats | src/utils/values.rs:124-130 | `k` draws give `k` stats, consume `2k` draws, and leave a valid pool `k` entries smaller |
| Values.DrawnWithoutReplacement | src/utils/values.rs:124-130 | drawn kinds are pairwise distinct, each from the pool and absent from what is left, each valued at one of its tiers |
| Values.SubStatsOf | src/utils/values.rs:106-133 | exactly the first count slots are filled; kinds are distinct and never the main kind; every value is a valid tier; `1 + 2*count` draws are taken |
| Values.GenerateSubstat | src/utils/values.rs:135-151 | the method's stat, remaining pool and cursor are those of `SubstatDraw` |
| Values.FillSubStats | src/utils/values.rs:121-130 | the loop leaves the array holding the layout of the draws in draw order, and the cursor after them |
| Values.SubStats | src/utils/values.rs:106-133 | the method's array and cursor are those of `SubStatsOf` |
| CustomImpl.WithStat | src/utils/custom_impl.rs:88-93 | the effect of `add_stat`: the stat lands in the first empty slot, every slot before it is filled, and every other slot is unchanged |
| CustomImpl.FirstNone | src/utils/custom_impl.rs:89 | the scan's result is an empty slot with every earlier slot filled |
| CustomImpl.WithStatPrefix | src/utils/custom_impl.rs:88-93 | on slots filled as a prefix of length `n < 4`, adding writes slot `n` and leaves the others unchanged |
| CustomImpl.AddAll | src/utils/custom_impl.rs:81-86 | from the default record, adding the stats one by one lays them out in insertion order as a filled prefix |
| CustomImpl.WithStatLayout | src/utils/custom_impl.rs:88-93 | adding to a layout of fewer than four stats never panics and appends the new stat |
| CustomImpl.SubStats.constructor | src/utils/custom_impl.rs:83-84 | `SubStats::default()` has four empty slots |
| CustomImpl.SubStats.AsArray | src/utils/custom_impl.rs:104-111 | `as_array` lists the slots in the fixed order first, second, third, fourth |
| CustomImpl.SubStats.SetSlot | src/utils/custom_impl.rs:95-111 | entry `i` of `as_array_mut` is slot `i` of `as_array`: a write through it changes that slot and no other |
| CustomImpl.SubStats.AddStat | src/utils/custom_impl.rs:88-93 | `add_stat` writes the stat into the first empty slot and leaves the others unchanged; a full record is excluded by the precondition |
| CustomImpl.NewArtifact | src/utils/custom_impl.rs:16-30 | `Artifact::new` stores its arguments, with the sub-stats read off the record's slots |
| CustomImpl.NewStatI32 | src/utils/custom_impl.rs:70-73 | the integer is converted to a value without loss |
| CustomImpl.NewWeightedStat | src/utils/custom_impl.rs:44-46 | `WeightedStat::new` stores its kind and weight |
| UtilsArtifact.GetMainStat | src/utils/artifact.rs:15-55 | the kind is legal for the slot, and on every slot and draw it is the kind the values.rs `get_main_stat` gives |
| UtilsArtifact.SubStatValue | src/utils/artifact.rs:140-160 | a value exists exactly for the ten pool kinds and is one of the four tiers; it equals the values.rs `get_substat_value` on every kind and draw |
| UtilsArtifact.GetNumSubStats | src/utils/artifact.rs:162-172 | the count is 3 or 4 and equals the values.rs `get_substats_amount` on every draw |
| UtilsArtifact.GetSubStat | src/utils/artifact.rs:125-135 | the method's stat, remaining pool and cursor are those of `SubstatDraw`: one kind drawn and removed, valued at one of its tiers |
| UtilsArtifact.GetMainValue | src/utils/artifact.rs:57-96 | a single-entry table answers without comparing kinds; otherwise a value exists exactly for legal kinds, and it equals the values.rs value; Flower gives 4780 and Plume gives 311, both converted from integers |
| UtilsArtifact.MainStat | src/utils/artifact.rs:7-12 | it agrees with the values.rs `main_stat` on every slot and draw |
| UtilsArtifact.AddSubStats | src/utils/artifact.rs:117-120 | the `add_stat` loop leaves the record holding the layout of the draws in draw order |
| UtilsArtifact.SubStats | src/utils/artifact.rs:99-123 | the fresh record ends with the slots and cursor of `SubStatsOf`: 3 or 4 distinct kinds, none the main kind |
| Utils.SampleSet | src/utils/mod.rs:13-20 | Emblem exactly when the coin comes up true, and one draw is taken |
| Utils.SlotFromIndex | src/utils/mod.rs:24-30 | every index from 4 up falls to the catch-all arm, Sand |
| Utils.SlotIndex | src/utils/mod.rs:24-30 | every slot is named by some index below 5 |
| Utils.SlotBijection | src/utils/mod.rs:22-31 | below 5, indices and slots correspond one to one |
| Utils.SampleSlot | src/utils/mod.rs:22-31 | the slot is the one named by the uniform index in `0..5`, and one draw is taken |
| Utils.From | src/utils/mod.rs:57-71 | `Artifact::from` stores its arguments, and the accessors at lines 117-135 return them unchanged |
| Utils.CustomRng | src/utils/mod.rs:107-115 | set, slot, main stat and sub-stats come from consecutive draws in that order (the sub-stats are exactly `SubStatsOf` on the draws after the main stat); the artifact satisfies `Generated` (legal main stat with its table value, 3 or 4 distinct sub-stats, none the main kind, valid tiers, 5 upgrades) |
| Utils.Random | src/utils/mod.rs:82-92 | the strongbox flag is a coin drawn first, then `custom_rng` runs on the following draws; the artifact satisfies `Generated` |
| Utils.MainStatLocal | src/utils/values.rs:10-15 | the main stat reads no draw other than the one at its cursor |
| Utils.DrawSubstatsLocal | src/utils/values.rs:124-130 | `k` sub-stat draws read only the `2k` raw draws from their cursor on |
| Utils.SubStatsOfLocal | src/utils/values.rs:106-133 | the sub-stats read only the count draw and the draws they consume |
| Utils.CustomRngLocal | src/utils/mod.rs:94-115 | two sources that agree on the draws a `custom_rng` run consumes give the same artifact, so a seeded generator reproduces its artifact |

## Left out

- The internals of the `rand` crate (`thread_rng`, `gen_bool`, `gen_range`,
  `SliceRandom::choose`, `WeightedIndex`) are replaced by the explicit draw source described
  above. The reduction of a raw draw by modulo stands in for each sampler. The model fixes which
  outcome each draw value selects; it does not fix how many raw bits `rand` consumes.
- The artifact.rs functions draw from `thread_rng()` internally instead of from a caller's
  generator. The model gives them the same explicit source.
- Statistical claims (equal set and slot probabilities, the share of 3-stat artifacts) are not
  stated. What is proved is which draw values select each outcome: the interval of each main-stat
  kind, sub-stat kind and count, the residue that selects each set, slot and tier.
- Floating-point arithmetic is left out: values are exact reals, so `value * 0.9` carries no f64
  rounding.
- Pool weights (`u16` in values.rs, `i32` in artifact.rs) are natural numbers.
- CustomImpl.NewWeightedStat: requires a non-negative weight, whereas the source accepts any
  `i32`; a negative weight could only make `WeightedIndex::new` fail, and no pool in the source
  has one.
- The upgrade counter is `u8` in src/lib.rs and `i32` in custom_impl.rs. The shared `Artifact`
  holds an integer; `Utils.From` takes a `u8` and `CustomImpl.NewArtifact` an `i32`.
- The `SubStats` type, its `first..fourth` fields and the `WeightedStat { stat, weight }` struct
  used by artifact.rs and custom_impl.rs are not declared in src/lib.rs. They are modelled as
  described by their uses.
- `get_weight_index` (src/utils/artifact.rs:174-179) has no member of its own. It is
  `WeightedIndex::new`, and its error arm is the precondition of `Sampling.Sample` (a positive
  total weight), which every call is proved to meet.
- Panics are modelled as follows:
  - A panic on a failed lookup is the `None` of an `Option`.
  - A `WeightedIndex::new` failure is a precondition, proved to hold at every call.
  - `add_stat` on a full record is a precondition.
- The display code (src/utils/display.rs, src/utils/display_impl.rs), src/main.rs and the
  `#[cfg(test)]` printing test are left out: they are presentation and I/O.
- There is no upgrade logic: the counter is never decremented, so only its initial value of 5
  is stated.
