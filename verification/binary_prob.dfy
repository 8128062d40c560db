/** The binary level-generation problem: a 16 × 16 grid of "empty" and "solid"
    tiles, surrounded by a one-cell border, in which an agent must carve a single
    region holding the longest possible path between an entrance and an exit cut
    into the border.

    The graph searches the problem calls (shortest distances from the entrance,
    region counting, path tracing, the ranged delta reward) belong to a helper
    module that is not part of this model: their results are parameters here. */
module BinaryProb {
  import opened Grid

  datatype Option<T> = None | Some(value: T)

  function GetOr<T>(o: Option<T>, default: T): T {
    match o
    case Some(v) => v
    case None => default
  }

  // ---------------------------------------------------------------------------
  // Constants
  // ---------------------------------------------------------------------------

  const Width: nat := 16
  const Height: nat := 16

  const EmptyTile := "empty"
  const SolidTile := "solid"
  /** The tile the level is surrounded with. */
  const BorderTile := SolidTile

  const Regions := "regions"
  const PathLength := "path-length"
  const Connectivity := "connectivity"
  const StatKeys: set<string> := {Regions, PathLength, Connectivity}

  /** The distance the shortest-path search reports for a cell it cannot reach. */
  const Unreachable := -1

  /** The tile labels of the problem, the border tile among them. */
  function TileTypes(): (tiles: seq<string>)
    ensures Distinct(tiles)
    ensures EmptyTile in tiles && BorderTile in tiles
    ensures forall t :: t in tiles <==> t == EmptyTile || t == SolidTile
  {
    [EmptyTile, SolidTile]
  }

  // ---------------------------------------------------------------------------
  // Maximum path length and default reward weights
  // ---------------------------------------------------------------------------

  /** numpy's ceil(n / 2). */
  function CeilHalf(n: nat): (q: nat)
    ensures n <= 2 * q <= n + 1
  {
    (n + 1) / 2
  }

  /** numpy's floor(n / 2). */
  function FloorHalf(n: nat): (q: nat)
    ensures 2 * q <= n <= 2 * q + 1
  {
    n / 2
  }

  /** The longest path the problem rewards: ceil(w / 2) * h + floor(h / 2), which
      is at least half the cells of the grid and at most half of them plus h. */
  function MaxPathLength(w: nat, h: nat): (m: nat)
    ensures w * h <= 2 * m <= w * h + 2 * h
  {
    var q := CeilHalf(w);
    assert w * h <= 2 * q * h <= (w + 1) * h by {
      MulMono(w, 2 * q, h);
      MulMono(2 * q, w + 1, h);
    }
    q * h + FloorHalf(h)
  }

  lemma MulMono(a: nat, b: nat, c: nat)
    requires a <= b
    ensures a * c <= b * c
  {
  }

  lemma DefaultMaxPathLength()
    ensures MaxPathLength(Width, Height) == 136
  {
  }

  /** Regions are ignored, each step of path length weighs 1, and becoming connected
      weighs as much as the longest path. */
  function DefaultWeights(maxPathLength: int): (weights: map<string, real>)
    ensures weights.Keys == StatKeys
    ensures weights[Regions] == 0.0 && weights[PathLength] == 1.0
    ensures weights[Connectivity] == maxPathLength as real
  {
    map[Regions := 0.0, PathLength := 1.0, Connectivity := maxPathLength as real]
  }

  // ---------------------------------------------------------------------------
  // Border cells
  // ---------------------------------------------------------------------------

  /** The (w + 2) × (h + 2) zero map after its first and last row (without their
      end columns) and its first and last column (without their end rows) are set
      to one. */
  function DummyCell(w: nat, h: nat, r: int, c: int): int {
    if (r == 0 || r == w + 1) && 1 <= c <= h then 1
    else if 1 <= r <= w && (c == 0 || c == h + 1) then 1
    else 0
  }

  function DummyBorderedMap(w: nat, h: nat): (g: Cells)
    ensures |g| == w + 2
    ensures forall r :: 0 <= r < w + 2 ==> |g[r]| == h + 2
    ensures forall r, c :: 0 <= r < w + 2 && 0 <= c < h + 2 ==> g[r][c] == DummyCell(w, h, r, c)
  {
    seq(w + 2, r requires 0 <= r < w + 2 => seq(h + 2, c requires 0 <= c < h + 2 => DummyCell(w, h, r, c)))
  }

  /** The outer ring of the bordered grid, corners excluded. */
  predicate OnRing(w: nat, h: nat, p: Coord) {
    || ((p.row == 0 || p.row == w + 1) && 1 <= p.col <= h)
    || ((p.col == 0 || p.col == h + 1) && 1 <= p.row <= w)
  }

  /** The border index list as the source builds it: numpy's argwhere of the
      dummy map's ones. */
  function BorderIdxs(w: nat, h: nat): (border: seq<Coord>)
    ensures forall p :: p in border <==> OnRing(w, h, p)
    ensures RowMajorSorted(border) && Distinct(border)
  {
    var g := DummyBorderedMap(w, h);
    assert forall p :: InBounds(g, p) && g[p.row][p.col] == 1 <==> OnRing(w, h, p);
    ArgWhere(g, 1)
  }

  /** The ring written out in row-major order: the top row, then the left and right
      ends of each inner row, then the bottom row. */
  function RingCells(w: nat, h: nat): (ring: seq<Coord>)
    ensures |ring| == 2 * w + 2 * h
    ensures forall p :: p in ring <==> OnRing(w, h, p)
    ensures RowMajorSorted(ring) && Distinct(ring)
  {
    var ring := RingTop(h) + RingSides(w, h) + RingBottom(w, h);
    RingCellsSorted(w, h);
    RingCellsComplete(w, h);
    ring
  }

  function RingTop(h: nat): seq<Coord> {
    seq(h, c => Coord(0, c + 1))
  }

  function RingSides(w: nat, h: nat): seq<Coord> {
    seq(2 * w, i => Coord(i / 2 + 1, if i % 2 == 0 then 0 else h + 1))
  }

  function RingBottom(w: nat, h: nat): seq<Coord> {
    seq(h, c => Coord(w + 1, c + 1))
  }

  lemma RingCellsSorted(w: nat, h: nat)
    ensures RowMajorSorted(RingTop(h) + RingSides(w, h) + RingBottom(w, h))
  {
    var top, sides, bottom := RingTop(h), RingSides(w, h), RingBottom(w, h);
    assert RowMajorSorted(sides) by {
      forall i, j | 0 <= i < j < |sides| ensures Before(sides[i], sides[j]) {
        HalfOrder(i, j);
      }
    }
    var ring := top + sides + bottom;
    forall i, j | 0 <= i < j < |ring| ensures Before(ring[i], ring[j]) {
      if h <= i < j < h + 2 * w {
        assert ring[i] == sides[i - h] && ring[j] == sides[j - h];
      }
    }
  }

  lemma RingCellsComplete(w: nat, h: nat)
    ensures forall p :: OnRing(w, h, p) ==> p in RingTop(h) + RingSides(w, h) + RingBottom(w, h)
  {
    var top, sides, bottom := RingTop(h), RingSides(w, h), RingBottom(w, h);
    var ring := top + sides + bottom;
    forall p | OnRing(w, h, p) ensures p in ring {
      if p.row == 0 {
        assert ring[p.col - 1] == p;
      } else if p.row == w + 1 && 1 <= p.col <= h {
        assert ring[h + 2 * w + p.col - 1] == p;
      } else {
        var i := 2 * (p.row - 1) + (if p.col == 0 then 0 else 1);
        assert sides[i] == p;
        assert ring[h + i] == p;
      }
    }
  }

  lemma HalfOrder(i: nat, j: nat)
    requires i < j
    ensures i / 2 < j / 2 || (i / 2 == j / 2 && i % 2 == 0 && j % 2 == 1)
  {
  }

  /** The list the source builds is the ring: each of its 2w + 2h cells once, in
      row-major order. */
  lemma BorderIdxsAreRing(w: nat, h: nat)
    ensures BorderIdxs(w, h) == RingCells(w, h)
  {
    SortedUnique(BorderIdxs(w, h), RingCells(w, h));
  }

  /** The border list as the constructor stores it: argwhere over the dummy map,
      which is the ring. */
  method BuildBorderIdxs(w: nat, h: nat) returns (border: seq<Coord>)
    ensures border == RingCells(w, h)
  {
    border := BorderIdxs(w, h);
    BorderIdxsAreRing(w, h);
  }

  lemma DefaultBorderSize()
    ensures |BorderIdxs(Width, Height)| == 64
  {
    BorderIdxsAreRing(Width, Height);
  }

  /** On a ring whose sides are at least one cell long, no cell has three
      different ring cells at Chebyshev distance one. */
  lemma RingNeighbours(w: nat, h: nat, s: Coord, a: Coord, b: Coord, c: Coord)
    requires w >= 1 && h >= 1
    requires OnRing(w, h, s) && OnRing(w, h, a) && OnRing(w, h, b) && OnRing(w, h, c)
    requires a != b && b != c && a != c
    ensures !(Chebyshev(s, a) == 1 && Chebyshev(s, b) == 1 && Chebyshev(s, c) == 1)
  {
  }

  // ---------------------------------------------------------------------------
  // Entrance and exit
  // ---------------------------------------------------------------------------

  /** The position of the first candidate that is not at Chebyshev distance one
      from start, if there is one. */
  function SelectEnd(start: Coord, cands: seq<Coord>): (k: Option<nat>)
    ensures k.Some? ==> k.value < |cands| && Chebyshev(start, cands[k.value]) != 1
    ensures k.Some? ==> forall j :: 0 <= j < k.value ==> Chebyshev(start, cands[j]) == 1
    ensures k.None? <==> forall j :: 0 <= j < |cands| ==> Chebyshev(start, cands[j]) == 1
  {
    if cands == [] then None
    else if Chebyshev(start, cands[0]) != 1 then Some(0)
    else
      match SelectEnd(start, cands[1..])
      case None => None
      case Some(k) => Some(k + 1)
  }

  /** Four distinct positions into a border of n cells, as drawn without replacement. */
  predicate ValidSample(n: nat, idxs: seq<nat>) {
    |idxs| == 4 && Distinct(idxs) && forall i :: 0 <= i < 4 ==> idxs[i] < n
  }

  /** The entrance and exit chosen from the four sampled border positions. */
  function Holes(border: seq<Coord>, idxs: seq<nat>): (holes: Option<(Coord, Coord)>)
    requires ValidSample(|border|, idxs)
    ensures holes.Some? ==>
      && holes.value.0 == border[idxs[0]]
      && holes.value.1 in [border[idxs[1]], border[idxs[2]], border[idxs[3]]]
      && Chebyshev(holes.value.0, holes.value.1) != 1
  {
    var start := border[idxs[0]];
    var cands := [border[idxs[1]], border[idxs[2]], border[idxs[3]]];
    match SelectEnd(start, cands)
    case None => None
    case Some(k) => Some((start, cands[k]))
  }

  /** A chosen pair starts at the first sample and ends at the first later sample
      that is not adjacent to it; drawn from a border without repeated cells, the
      two are at least two cells apart. With no such sample there is no pair. */
  lemma HolesApart(border: seq<Coord>, idxs: seq<nat>)
    requires ValidSample(|border|, idxs) && Distinct(border)
    ensures Holes(border, idxs).None? <==>
      forall i :: 1 <= i < 4 ==> Chebyshev(border[idxs[0]], border[idxs[i]]) == 1
    ensures Holes(border, idxs).Some? ==>
      var (start, end) := Holes(border, idxs).value;
      && start == border[idxs[0]]
      && (exists i :: 1 <= i < 4 && end == border[idxs[i]]
                      && forall j :: 1 <= j < i ==> Chebyshev(start, border[idxs[j]]) == 1)
      && Chebyshev(start, end) >= 2
  {
    var start := border[idxs[0]];
    var cands := [border[idxs[1]], border[idxs[2]], border[idxs[3]]];
    assert forall i :: 1 <= i < 4 ==> border[idxs[i]] == cands[i - 1];
    match SelectEnd(start, cands)
    case None =>
    case Some(k) =>
      assert cands[k] == border[idxs[k + 1]];
      assert idxs[0] != idxs[k + 1];
      assert start != cands[k];
  }

  /** On the bordered grid of any level at least one cell wide and high, a pair is
      always found: at most two border cells are adjacent to the entrance, and three
      distinct candidates are drawn. */
  lemma HolesAlwaysFound(w: nat, h: nat, idxs: seq<nat>)
    requires w >= 1 && h >= 1
    requires ValidSample(|RingCells(w, h)|, idxs)
    ensures Holes(RingCells(w, h), idxs).Some?
  {
    var border := RingCells(w, h);
    HolesApart(border, idxs);
    var a, b, c := border[idxs[1]], border[idxs[2]], border[idxs[3]];
    assert a != b && b != c && a != c by {
      assert idxs[1] != idxs[2] && idxs[2] != idxs[3] && idxs[1] != idxs[3];
    }
    RingNeighbours(w, h, border[idxs[0]], a, b, c);
  }

  // ---------------------------------------------------------------------------
  // Configuration
  // ---------------------------------------------------------------------------

  /** The keyword arguments the problem reads; None when the caller leaves one out. */
  datatype Params = Params(
    render: Option<bool>,
    renderPath: Option<bool>,
    targetPath: Option<int>,
    randomProbs: Option<bool>,
    rewards: Option<map<string, real>>)

  /** get('render', current) or get('render_path', current). */
  function RenderFlag(current: bool, render: Option<bool>, renderPath: Option<bool>): (on: bool)
    ensures on <==> || render == Some(true) || renderPath == Some(true)
                    || (current && (render.None? || renderPath.None?))
  {
    GetOr(render, current) || GetOr(renderPath, current)
  }

  /** The weights after every reward named in rewards that is already a weight
      has been overwritten. */
  function OverrideWeights(weights: map<string, real>, rewards: map<string, real>): (r: map<string, real>)
    ensures r.Keys == weights.Keys
  {
    map k | k in weights :: if k in rewards then rewards[k] else weights[k]
  }

  lemma OverrideWeightsKeys(weights: map<string, real>, rewards: map<string, real>)
    ensures var r := OverrideWeights(weights, rewards);
      && r.Keys == weights.Keys
      && (forall k :: k in weights && k !in rewards ==> r[k] == weights[k])
      && (forall k :: k in weights && k in rewards ==> r[k] == rewards[k])
  {
  }

  /** Names the weights do not have make no difference. */
  lemma OverrideIgnoresUnknown(weights: map<string, real>, rewards: map<string, real>)
    ensures OverrideWeights(weights, rewards)
         == OverrideWeights(weights, map k | k in rewards && k in weights :: rewards[k])
  {
  }

  lemma OverrideIdempotent(weights: map<string, real>, rewards: map<string, real>)
    ensures OverrideWeights(OverrideWeights(weights, rewards), rewards) == OverrideWeights(weights, rewards)
  {
  }

  // ---------------------------------------------------------------------------
  // Stats
  // ---------------------------------------------------------------------------

  datatype Stats = Stats(regions: int, pathLength: int, connectivity: int, pathCoords: seq<Coord>)

  function StatValue(s: Stats, key: string): int
    requires key in StatKeys
  {
    if key == Regions then s.regions
    else if key == PathLength then s.pathLength
    else s.connectivity
  }

  /** What get_stats makes of the distance grid: the path length, the connectivity
      bonus and the cell the rendered path is traced back from. */
  datatype Resolution = Resolution(pathLength: int, connectivity: int, target: Coord)

  /** When the exit is reachable, its distance with a bonus of one; otherwise no bonus
      and the largest distance in the grid, traced from the first cell holding it. */
  function Resolve(dist: Cells, end: Coord): (res: Resolution)
    requires Rectangular(dist) && InBounds(dist, end)
    ensures dist[end.row][end.col] != Unreachable ==>
      res.connectivity == 1 && res.pathLength == dist[end.row][end.col] && res.target == end
    ensures dist[end.row][end.col] == Unreachable ==>
      && res.connectivity == 0
      && (forall r, c :: 0 <= r < |dist| && 0 <= c < |dist[r]| ==> dist[r][c] <= res.pathLength)
      && InBounds(dist, res.target) && dist[res.target.row][res.target.col] == res.pathLength
      && (forall q :: InBounds(dist, q) && dist[q.row][q.col] == res.pathLength ==> !Before(q, res.target))
  {
    var d := dist[end.row][end.col];
    if d == Unreachable then
      assert |dist[0]| == |dist[end.row]|;
      var m := GridMax(dist);
      Resolution(m, 0, FirstWhere(dist, m))
    else
      Resolution(d, 1, end)
  }

  /** When the exit cannot be reached but the entrance itself has distance zero,
      the consolation path length is a distance, never the unreachable marker. */
  lemma ConsolationIsDistance(dist: Cells, start: Coord, end: Coord)
    requires Rectangular(dist) && InBounds(dist, start) && InBounds(dist, end)
    requires dist[start.row][start.col] == 0 && dist[end.row][end.col] == Unreachable
    ensures Resolve(dist, end).pathLength >= 0 && Resolve(dist, end).connectivity == 0
  {
  }

  // ---------------------------------------------------------------------------
  // Reward, termination and debug information
  // ---------------------------------------------------------------------------

  /** get_range_reward(new, old, low, high) from the helper module. */
  type RangeReward = (int, int, int, int) -> real

  /** The range get_reward passes for each stat. */
  function RewardRange(key: string): int
    requires key in StatKeys
  {
    if key == PathLength then 125 else 1
  }

  function DeltaReward(key: string, newStats: Stats, oldStats: Stats, rangeReward: RangeReward): real
    requires key in StatKeys
  {
    rangeReward(StatValue(newStats, key), StatValue(oldStats, key), RewardRange(key), RewardRange(key))
  }

  /** The sum, over keys, of each stat's delta reward times its weight. */
  function WeightedSum(keys: seq<string>, weights: map<string, real>, newStats: Stats, oldStats: Stats,
                       rangeReward: RangeReward): real
    requires forall k :: k in keys ==> k in StatKeys && k in weights
  {
    if keys == [] then 0.0
    else DeltaReward(keys[0], newStats, oldStats, rangeReward) * weights[keys[0]]
         + WeightedSum(keys[1..], weights, newStats, oldStats, rangeReward)
  }

  /** The three stats get_reward sums over. */
  const StatOrder: seq<string> := [Regions, PathLength, Connectivity]

  lemma WeightedSumOfStats(weights: map<string, real>, newStats: Stats, oldStats: Stats, rangeReward: RangeReward)
    requires StatKeys <= weights.Keys
    ensures WeightedSum(StatOrder, weights, newStats, oldStats, rangeReward)
         == DeltaReward(Regions, newStats, oldStats, rangeReward) * weights[Regions]
          + DeltaReward(PathLength, newStats, oldStats, rangeReward) * weights[PathLength]
          + DeltaReward(Connectivity, newStats, oldStats, rangeReward) * weights[Connectivity]
  {
    var rest := [PathLength, Connectivity];
    assert StatOrder[1..] == rest && rest[1..] == [Connectivity] && [Connectivity][1..] == [];
    assert WeightedSum([Connectivity], weights, newStats, oldStats, rangeReward)
        == DeltaReward(Connectivity, newStats, oldStats, rangeReward) * weights[Connectivity];
    assert WeightedSum(rest, weights, newStats, oldStats, rangeReward)
        == DeltaReward(PathLength, newStats, oldStats, rangeReward) * weights[PathLength]
         + DeltaReward(Connectivity, newStats, oldStats, rangeReward) * weights[Connectivity];
  }

  /** The debug projection: the three stats of newStats and nothing else. */
  function GetDebugInfo(newStats: Stats, oldStats: Stats): (info: map<string, int>)
    ensures info.Keys == StatKeys
    ensures forall k :: k in info ==> info[k] == StatValue(newStats, k)
  {
    map[Regions := newStats.regions, PathLength := newStats.pathLength, Connectivity := newStats.connectivity]
  }

  // ---------------------------------------------------------------------------
  // The problem object
  // ---------------------------------------------------------------------------

  class BinaryProblem {
    var width: nat
    var height: nat
    var targetPath: int
    var randomProbs: bool
    var maxPathLength: int
    var rewardWeights: map<string, real>
    var renderPath: bool
    var pathCoords: seq<Coord>
    var pathLength: Option<int>
    var borderIdxs: seq<Coord>
    var startXY: Option<Coord>
    var endXY: Option<Coord>

    /** The maximum path length is that of the grid size, the weights are exactly
        the three stats, no border cell is listed twice, and the entrance and exit,
        once chosen, are border cells.
        The border cells themselves are set by the constructor and never changed. */
    ghost predicate Valid()
      reads this
    {
      && maxPathLength == MaxPathLength(width, height)
      && rewardWeights.Keys == StatKeys
      && Distinct(borderIdxs)
      && (startXY.Some? ==> startXY.value in borderIdxs)
      && (endXY.Some? ==> endXY.value in borderIdxs)
    }

    constructor ()
      ensures Valid()
      ensures width == Width && height == Height
      ensures borderIdxs == RingCells(width, height) && |borderIdxs| == 64
      ensures maxPathLength == 136
      ensures rewardWeights == DefaultWeights(136)
      ensures targetPath == 20 && randomProbs
      ensures !renderPath && pathCoords == [] && pathLength.None?
      ensures startXY.None? && endXY.None?
    {
      var w, h := Width, Height;
      width, height := w, h;
      targetPath := 20;
      randomProbs := true;
      var maxLength := MaxPathLength(w, h);
      maxPathLength := maxLength;
      rewardWeights := DefaultWeights(maxLength);
      renderPath := false;
      pathCoords := [];
      pathLength := None;
      var border := BuildBorderIdxs(w, h);
      borderIdxs := border;
      startXY, endXY := None, None;
    }

    /** Takes the four sampled border positions; the first becomes the entrance
        whatever happens, the exit only changes when a pair is found. */
    method GenHoles(idxs: seq<nat>) returns (holes: Option<(Coord, Coord)>)
      requires Valid() && ValidSample(|borderIdxs|, idxs)
      modifies this`startXY, this`endXY
      ensures Valid()
      ensures startXY == Some(borderIdxs[idxs[0]])
      ensures holes == Holes(borderIdxs, idxs)
      ensures holes.Some? ==> Chebyshev(holes.value.0, holes.value.1) >= 2
      ensures endXY == if holes.Some? then Some(holes.value.1) else old(endXY)
    {
      HolesApart(borderIdxs, idxs);
      var start := borderIdxs[idxs[0]];
      startXY := Some(start);
      ghost var cands := [borderIdxs[idxs[1]], borderIdxs[idxs[2]], borderIdxs[idxs[3]]];
      for i := 1 to 4
        invariant forall j :: 1 <= j < i ==> Chebyshev(start, borderIdxs[idxs[j]]) == 1
        invariant startXY == Some(start) && endXY == old(endXY)
      {
        var xy := borderIdxs[idxs[i]];
        if Chebyshev(start, xy) != 1 {
          assert cands[i - 1] == xy;
          assert forall j :: 0 <= j < i - 1 ==> Chebyshev(start, cands[j]) == 1;
          endXY := Some(xy);
          return Some((start, xy));
        }
      }
      assert forall j :: 0 <= j < 3 ==> Chebyshev(start, cands[j]) == 1;
      return None;
    }

    /** The render flags, the unused target path, the random-probabilities switch
        and the reward weights named in p. */
    method AdjustParam(p: Params)
      requires Valid()
      modifies this`renderPath, this`targetPath, this`randomProbs, this`rewardWeights
      ensures Valid()
      ensures renderPath == RenderFlag(old(renderPath), p.render, p.renderPath)
      ensures targetPath == GetOr(p.targetPath, old(targetPath))
      ensures randomProbs == GetOr(p.randomProbs, old(randomProbs))
      ensures rewardWeights == match p.rewards
                               case None => old(rewardWeights)
                               case Some(rewards) => OverrideWeights(old(rewardWeights), rewards)
    {
      renderPath := GetOr(p.render, renderPath) || GetOr(p.renderPath, renderPath);
      targetPath := GetOr(p.targetPath, targetPath);
      randomProbs := GetOr(p.randomProbs, randomProbs);
      if p.rewards.Some? {
        OverrideRewardWeights(p.rewards.value);
      }
    }

    /** The loop of adjust_param over the rewards it is given: a name that is already
        a weight takes the given value, any other name is skipped. */
    method OverrideRewardWeights(rewards: map<string, real>)
      modifies this`rewardWeights
      ensures rewardWeights == OverrideWeights(old(rewardWeights), rewards)
    {
      ghost var before := rewardWeights;
      var todo := rewards.Keys;
      ghost var done: set<string> := {};
      while todo != {}
        invariant todo + done == rewards.Keys && todo !! done
        invariant rewardWeights.Keys == before.Keys
        invariant forall k :: k in rewardWeights ==>
          rewardWeights[k] == if k in done then rewards[k] else before[k]
        decreases todo
      {
        var t :| t in todo;
        if t in rewardWeights {
          rewardWeights := rewardWeights[t := rewards[t]];
        }
        todo := todo - {t};
        done := done + {t};
      }
    }

    /** Reads the exit's distance off the distance grid the shortest-path search
        computed from the entrance, falls back to the largest distance when the exit
        is unreachable, and records the path length and, when rendering, the path. */
    method GetStats(dist: Cells, regions: int, pathFrom: Coord -> seq<Coord>) returns (stats: Stats)
      requires Valid() && startXY.Some? && endXY.Some?
      requires Rectangular(dist) && InBounds(dist, endXY.value)
      modifies this`pathLength, this`pathCoords
      ensures Valid()
      ensures var res := Resolve(dist, endXY.value);
        && pathLength == Some(res.pathLength)
        && (!renderPath ==> pathCoords == old(pathCoords))
        && (renderPath && res.pathLength == 0 ==> pathCoords == [])
        && (renderPath && res.pathLength != 0 ==> pathCoords == pathFrom(res.target))
        && stats == Stats(regions, res.pathLength, res.connectivity, pathCoords)
    {
      var end := endXY.value;
      pathLength := Some(dist[end.row][end.col]);
      var connectivityBonus: int;
      var target: Coord;
      if pathLength.value == Unreachable {
        connectivityBonus := 0;
        assert |dist[0]| == |dist[end.row]|;
        var maxTempPath := GridMax(dist);
        target := FirstWhere(dist, maxTempPath);
        pathLength := Some(maxTempPath);
      } else {
        connectivityBonus := 1;
        target := end;
      }
      if renderPath {
        if pathLength.value == 0 {
          pathCoords := [];
        } else {
          pathCoords := pathFrom(target);
        }
      }
      stats := Stats(regions, pathLength.value, connectivityBonus, pathCoords);
    }

    /** The weighted sum of the three delta rewards. */
    function GetReward(newStats: Stats, oldStats: Stats, rangeReward: RangeReward): (reward: real)
      reads this
      requires StatKeys <= rewardWeights.Keys
      ensures reward == WeightedSum(StatOrder, rewardWeights, newStats, oldStats, rangeReward)
    {
      WeightedSumOfStats(rewardWeights, newStats, oldStats, rangeReward);
      rangeReward(newStats.regions, oldStats.regions, 1, 1) * rewardWeights[Regions]
      + rangeReward(newStats.pathLength, oldStats.pathLength, 125, 125) * rewardWeights[PathLength]
      + rangeReward(newStats.connectivity, oldStats.connectivity, 1, 1) * rewardWeights[Connectivity]
    }

    /** One region, the longest path, and the exit reachable, all at once. */
    function GetEpisodeOver(newStats: Stats, oldStats: Stats): bool
      reads this
    {
      newStats.regions == 1 && newStats.pathLength == maxPathLength && newStats.connectivity == 1
    }
  }

  // ---------------------------------------------------------------------------
  // Properties of reward and termination
  // ---------------------------------------------------------------------------

  /** Under the default weights the regions delta contributes nothing. */
  lemma DefaultWeightsIgnoreRegions(p: BinaryProblem, newStats: Stats, oldStats: Stats, rangeReward: RangeReward)
    requires p.rewardWeights == DefaultWeights(p.maxPathLength)
    ensures p.GetReward(newStats, oldStats, rangeReward)
         == DeltaReward(PathLength, newStats, oldStats, rangeReward)
          + DeltaReward(Connectivity, newStats, oldStats, rangeReward) * (p.maxPathLength as real)
  {
  }

  /** If the ranged reward of an unchanged value is zero, so is the reward between
      a snapshot and itself. */
  lemma {:induction false} UnchangedStatsNoReward(keys: seq<string>, weights: map<string, real>, s: Stats,
                                                  rangeReward: RangeReward)
    requires forall k :: k in keys ==> k in StatKeys && k in weights
    requires forall v, lo, hi :: rangeReward(v, v, lo, hi) == 0.0
    ensures WeightedSum(keys, weights, s, s, rangeReward) == 0.0
  {
    if keys != [] {
      UnchangedStatsNoReward(keys[1..], weights, s, rangeReward);
    }
  }

  /** The old stats play no part in ending the episode. */
  lemma EpisodeOverIgnoresOld(p: BinaryProblem, newStats: Stats, oldStats: Stats, otherOld: Stats)
    ensures p.GetEpisodeOver(newStats, oldStats) == p.GetEpisodeOver(newStats, otherOld)
  {
  }

  /** On stats resolved from a distance grid, the episode ends exactly when there is
      one region and the exit was reached at precisely the maximum path length: the
      consolation length never ends it. */
  lemma EpisodeOverIffExitAtMaxLength(p: BinaryProblem, dist: Cells, end: Coord, regions: int,
                                      coords: seq<Coord>, oldStats: Stats)
    requires p.maxPathLength >= 0
    requires Rectangular(dist) && InBounds(dist, end)
    ensures var res := Resolve(dist, end);
      p.GetEpisodeOver(Stats(regions, res.pathLength, res.connectivity, coords), oldStats)
      <==> regions == 1 && dist[end.row][end.col] == p.maxPathLength
  {
  }

}
