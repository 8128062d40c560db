# BinaryProblem: a verified model of the binary level-generation problem

`BinaryProblem` is one problem definition of a procedural-content-generation
environment. The level is a 16 × 16 grid of `empty` and `solid` tiles inside a
one-cell border. An entrance and an exit are cut into that border. The agent is
rewarded for carving a single region in which the shortest path from the entrance
to the exit is as long as possible.

This project models the problem's decision logic in Dafny and proves what it
promises:

- `grid.dfy` (module `Grid`) holds the array operations the problem uses: numpy's
  `argwhere` (every cell holding a value, in row-major order), numpy's `max`, the
  first cell holding a value, and the Chebyshev distance.
- `binary_prob.dfy` (module `BinaryProb`) holds the rest:
  - the constants;
  - the border index list and the fact that it is exactly the ring of the bordered
    grid without its corners;
  - the entrance/exit choice;
  - the configuration update;
  - the stats resolution, the weighted reward, the termination predicate and the
    debug projection;
  - the class `BinaryProblem`, whose methods update its fields in place as the
    source's methods do.

The graph algorithms the problem calls live in a helper module that is not part of
this model. Their results are parameters:

- the distance grid `run_dijkstra` computes from the entrance, with `-1` for
  unreachable cells;
- the region count from `calc_num_regions`;
- a function `pathFrom` standing for `get_path_coords` on that distance grid;
- a function `rangeReward` standing for `get_range_reward`.

The four border positions drawn by `np.random.choice` are also a parameter. They
must be distinct and in range, as a draw without replacement guarantees.

Two results go beyond restating the code:

- The dummy-map construction yields exactly the `2W + 2H` ring cells, each once, in
  row-major order (`BorderIdxsAreRing`, checked against an independent enumeration,
  `RingCells`).
- The loop of `gen_holes` can fall through: when none of the three later
  candidates qualifies, it returns nothing. On a ring whose sides are at least one cell
  long, this never happens. No border cell has more than two other border cells at
  Chebyshev distance one, and three distinct candidates are drawn
  (`RingNeighbours`, `HolesAlwaysFound`). The model still keeps the failure branch
  of the loop, as the code has it.

In the unreachable case, `get_stats` traces the rendered path from the farthest
cell. It keeps that cell in a local variable. The stored exit `end_xy` is not
changed: `GetStats` may only modify `pathLength` and `pathCoords`.

## Model

| member | source | states |
|---|---|---|
| `Grid.Chebyshev` | gym_pcgrl/gym_pcgrl/envs/probs/binary/binary_prob.py:62 | the distance is the larger of the absolute row and column differences, and is zero exactly for equal cells |
| `Grid.ArgWhere` | gym_pcgrl/gym_pcgrl/envs/probs/binary/binary_prob.py:46 | a cell is listed iff it is in bounds and holds the value; the list is strictly row-major sorted, so no cell appears twice |
| `Grid.GridMax` | gym_pcgrl/gym_pcgrl/envs/probs/binary/binary_prob.py:129 | the result is at least every entry of the distance grid and is itself an entry |
| `Grid.FirstWhere` | gym_pcgrl/gym_pcgrl/envs/probs/binary/binary_prob.py:130 | the result is an in-bounds cell holding the value, and no cell holding it comes earlier in row-major order |
| `BinaryProb.TileTypes` | gym_pcgrl/gym_pcgrl/envs/probs/binary/binary_prob.py:73-74 | the tile labels are exactly `empty` and `solid`, without repeats, and include the border tile |
| `BinaryProb.CeilHalf` | gym_pcgrl/gym_pcgrl/envs/probs/binary/binary_prob.py:31 | the result is the ceiling of n/2: n ≤ 2q ≤ n + 1 |
| `BinaryProb.FloorHalf` | gym_pcgrl/gym_pcgrl/envs/probs/binary/binary_prob.py:31 | the result is the floor of n/2: 2q ≤ n ≤ 2q + 1 |
| `BinaryProb.MaxPathLength` | gym_pcgrl/gym_pcgrl/envs/probs/binary/binary_prob.py:31 | ceil(W/2)·H + floor(H/2); the value covers at least half of the W·H cells and at most half of them plus H |
| `BinaryProb.DefaultMaxPathLength` | gym_pcgrl/gym_pcgrl/envs/probs/binary/binary_prob.py:31 | ceil(W/2)·H + floor(H/2) is 136 for the 16 × 16 grid |
| `BinaryProb.DefaultWeights` | gym_pcgrl/gym_pcgrl/envs/probs/binary/binary_prob.py:33-37 | the default weights have exactly the three stat keys: regions 0, path-length 1, connectivity equal to the maximum path length |
| `BinaryProb.DummyBorderedMap` | gym_pcgrl/gym_pcgrl/envs/probs/binary/binary_prob.py:42-45 | the dummy map is (W+2) × (H+2); each cell is one exactly where a border slice assignment reaches it |
| `BinaryProb.RingCells` | gym_pcgrl/gym_pcgrl/envs/probs/binary/binary_prob.py:42-46 | the enumeration of the ring has 2W + 2H cells, holds exactly the cells (0,c), (W+1,c) for 1 ≤ c ≤ H and (r,0), (r,H+1) for 1 ≤ r ≤ W, and is row-major sorted without repeats |
| `BinaryProb.BorderIdxs` | gym_pcgrl/gym_pcgrl/envs/probs/binary/binary_prob.py:42-46 | argwhere of the dummy map's ones: a cell is listed iff it lies on the ring of the bordered grid with its corners excluded, in strict row-major order, so each once |
| `BinaryProb.BorderIdxsAreRing` | gym_pcgrl/gym_pcgrl/envs/probs/binary/binary_prob.py:42-46 | argwhere of the dummy map's ones is exactly that ring list: corners excluded, no duplicates |
| `BinaryProb.DefaultBorderSize` | gym_pcgrl/gym_pcgrl/envs/probs/binary/binary_prob.py:42-46 | the 16 × 16 problem has 64 border cells |
| `BinaryProb.RingNeighbours` | gym_pcgrl/gym_pcgrl/envs/probs/binary/binary_prob.py:60-64 | on a ring with sides of at least one cell, no ring cell has three distinct ring cells at Chebyshev distance one |
| `BinaryProb.SelectEnd` | gym_pcgrl/gym_pcgrl/envs/probs/binary/binary_prob.py:60-64 | the scan picks the first candidate whose Chebyshev distance to the entrance is not 1; every earlier candidate is at distance 1; it picks none iff all candidates are at distance 1 |
| `BinaryProb.Holes` | gym_pcgrl/gym_pcgrl/envs/probs/binary/binary_prob.py:58-64 | the selection `gen_holes` makes from the four samples: a returned pair starts at the first sample and ends at one of the three later samples that is not at Chebyshev distance 1 from it |
| `BinaryProb.HolesApart` | gym_pcgrl/gym_pcgrl/envs/probs/binary/binary_prob.py:58-64 | a returned pair starts at the first sample and ends at the first later sample not adjacent to it; the two are at Chebyshev distance ≥ 2 because the samples are distinct; nothing is returned iff all three later samples are adjacent |
| `BinaryProb.HolesAlwaysFound` | gym_pcgrl/gym_pcgrl/envs/probs/binary/binary_prob.py:58-64 | on the ring of any grid at least 1 × 1, four distinct samples always yield a pair |
| `BinaryProb.BuildBorderIdxs` | gym_pcgrl/gym_pcgrl/envs/probs/binary/binary_prob.py:42-46 | the border list the constructor stores is computed by argwhere over the dummy map and equals the ring enumeration |
| `BinaryProb.BinaryProblem.constructor` | gym_pcgrl/gym_pcgrl/envs/probs/binary/binary_prob.py:18-46 | 16 × 16 grid, target path 20, random probabilities on, maximum path length 136, default weights, path rendering off with no path, the border list built by argwhere (the 64 ring cells), no entrance or exit yet |
| `BinaryProb.BinaryProblem.GenHoles` | gym_pcgrl/gym_pcgrl/envs/probs/binary/binary_prob.py:48-64 | the entrance is always overwritten with the first sample; the result is the pair `Holes` specifies, and a returned pair is at Chebyshev distance ≥ 2; the exit is set only when a pair is returned and otherwise keeps its previous value |
| `BinaryProb.RenderFlag` | gym_pcgrl/gym_pcgrl/envs/probs/binary/binary_prob.py:88 | rendering is on iff `render` or `render_path` is given as true, or it was on and at least one of the two is absent (so `render=False` alone does not switch it off) |
| `BinaryProb.OverrideWeights` | gym_pcgrl/gym_pcgrl/envs/probs/binary/binary_prob.py:94-98 | overriding never adds or removes a weight key |
| `BinaryProb.OverrideWeightsKeys` | gym_pcgrl/gym_pcgrl/envs/probs/binary/binary_prob.py:94-98 | weights named in the rewards take the given value; weights not named keep theirs; the key set is unchanged |
| `BinaryProb.OverrideIgnoresUnknown` | gym_pcgrl/gym_pcgrl/envs/probs/binary/binary_prob.py:96-98 | reward names that are not weights make no difference |
| `BinaryProb.OverrideIdempotent` | gym_pcgrl/gym_pcgrl/envs/probs/binary/binary_prob.py:94-98 | applying the same rewards twice equals applying them once |
| `BinaryProb.BinaryProblem.OverrideRewardWeights` | gym_pcgrl/gym_pcgrl/envs/probs/binary/binary_prob.py:94-98 | the in-place loop over the given rewards leaves the weights equal to `OverrideWeights` of the old weights |
| `BinaryProb.BinaryProblem.AdjustParam` | gym_pcgrl/gym_pcgrl/envs/probs/binary/binary_prob.py:87-98 | the render flag follows `RenderFlag`; target path and random probabilities take the given value or keep theirs; weights are overridden only when rewards are given; the weight keys stay the three stats |
| `BinaryProb.Resolve` | gym_pcgrl/gym_pcgrl/envs/probs/binary/binary_prob.py:123-136 | if the exit's distance is not −1: connectivity 1, path length that distance, path traced from the exit; otherwise connectivity 0, path length ≥ every entry and equal to one, traced from the first cell holding it |
| `BinaryProb.ConsolationIsDistance` | gym_pcgrl/gym_pcgrl/envs/probs/binary/binary_prob.py:126-131 | when the exit is unreachable but the entrance has distance 0, the consolation path length is ≥ 0, never the −1 marker |
| `BinaryProb.BinaryProblem.GetStats` | gym_pcgrl/gym_pcgrl/envs/probs/binary/binary_prob.py:120-150 | stores and returns the resolved path length and connectivity with the given region count; with rendering on, the path is empty for length 0 and traced from the resolved cell otherwise; with rendering off, the previous path is kept; the stored exit is untouched |
| `BinaryProb.RewardRange` | gym_pcgrl/gym_pcgrl/envs/probs/binary/binary_prob.py:165-167 | the range passed to the ranged reward is 125 for path-length and 1 for regions and connectivity |
| `BinaryProb.BinaryProblem.GetReward` | gym_pcgrl/gym_pcgrl/envs/probs/binary/binary_prob.py:162-172 | the reward is the sum over regions, path-length and connectivity of the delta reward (ranges 1, 125, 1) times the weight |
| `BinaryProb.WeightedSumOfStats` | gym_pcgrl/gym_pcgrl/envs/probs/binary/binary_prob.py:170-172 | the sum over the three stat keys expands to the three weighted terms |
| `BinaryProb.DefaultWeightsIgnoreRegions` | gym_pcgrl/gym_pcgrl/envs/probs/binary/binary_prob.py:164-172 | under the default weights the reward is the path-length delta plus the maximum path length times the connectivity delta; the regions delta contributes nothing |
| `BinaryProb.UnchangedStatsNoReward` | gym_pcgrl/gym_pcgrl/envs/probs/binary/binary_prob.py:162-172 | if the ranged reward of an unchanged value is 0, the weighted sum between a snapshot and itself is 0 |
| `BinaryProb.BinaryProblem.GetEpisodeOver` | gym_pcgrl/gym_pcgrl/envs/probs/binary/binary_prob.py:186-189 | the episode ends when the new stats have one region, path length equal to the maximum path length and connectivity 1; its properties are the two lemmas below |
| `BinaryProb.EpisodeOverIgnoresOld` | gym_pcgrl/gym_pcgrl/envs/probs/binary/binary_prob.py:186-189 | termination does not depend on the old stats |
| `BinaryProb.EpisodeOverIffExitAtMaxLength` | gym_pcgrl/gym_pcgrl/envs/probs/binary/binary_prob.py:186-189 | on resolved stats, the episode ends iff there is one region and the exit was reached at exactly the maximum path length |
| `BinaryProb.GetDebugInfo` | gym_pcgrl/gym_pcgrl/envs/probs/binary/binary_prob.py:202-208 | the debug map has exactly the keys regions, path-length and connectivity, each with the new stats' value |

## Left out

- `render` (lines 219-233): it loads sprite images from disk and composes them. This is file I/O and image work.
- `reset` (lines 107-111) and the tile-probability table `_prob` (line 25): the update draws a floating-point random number and belongs to the base class's episode lifecycle.
- The base `Problem` class (`super().__init__`, `super().adjust_param`, `super().reset`, `super().render`) is not part of this model. Whatever width, height or probability options it reads are not modelled.
- `run_dijkstra`, `calc_num_regions`, `get_path_coords`, `get_tile_locations` and `get_range_reward` are not part of this model. Their results are parameters. Because the distance grid is an input, the swapped `(start_xy[1], start_xy[0])` argument order of the `run_dijkstra` call is not modelled.
- The random draw `np.random.choice` is an input: four distinct indices, each below the number of border cells.
- The `lenient_paths` argument of `get_stats` is unused by the code and is not modelled. `_target_path` is stored by `adjust_param` but never read.
- `OverrideRewardWeights`: Python visits the `rewards` dict in insertion order; the model visits its keys in an unspecified order. Dict keys are distinct, so the resulting weights are the same.
- `RenderFlag`, `BinaryProblem.AdjustParam`: an absent keyword and one passed explicitly as `None` are the same `None` in `Params`, so both keep the old value. The code's `kwargs.get` would store an explicit `None` for `target_path`, `random_probs`, `render` or `render_path`; that case is not modelled. The flags are booleans, and Python's `or` on other truthy or falsy values is not modelled.
- `DefaultMaxPathLength`: numpy computes the maximum path length as a float (136.0); the model uses the integer 136. Weights and rewards are `real`; stats are integers.
- `BinaryProblem.Valid`: the invariant states that the border list has no repeated cell, but not that the stored entrance and exit are at least two cells apart. After a `gen_holes` call that returns nothing, the code leaves a new entrance beside an old exit. `HolesAlwaysFound` shows that this call cannot happen on the 16 × 16 border.
