// The grid sweep of FloorGenerator.GenerateRoom as a specification: one
// step per grid cell, folded over the cells in floor, x, z order.
//
// Each cell selects a tile archetype, takes a tile from that pool, gives it
// a yaw of 90 * Random.Range(0, 3) degrees and records it with the running
// cell id; then, on a non-obstacle tile while the enemy budget is unmet and
// enemy archetypes exist, the starvation counter rises, an enemy archetype
// is selected and an enemy is spawned when the integer draw is at most
// counter + (budget - enemy count), which resets the counter.
//
// Indexing a pool with a selection of -1 (or past the pool array, or with no
// prefab to create from) throws in the source and aborts the sweep; here the
// step sets `faulted` and every later step leaves the state alone.

module GridSweep {
  import opened WeightedSelection
  import opened Pooling
  import opened Validation

  /** The random draws one cell may consume: Random.value for the tile, Random.Range(0, 3) for the yaw, Random.value for the enemy, Random.Range(0, xSize * zSize) for the spawn test. */
  datatype CellDraw = CellDraw(tileValue: real, yawStep: int, enemyValue: real, spawnDraw: int)

  /** The generator's settings the sweep reads. */
  datatype SweepConfig = SweepConfig(
    tileWeights: seq<Weight>, enemyWeights: seq<Weight>,
    tilePrefabs: seq<Option<Prefab>>, enemyPrefabs: seq<Option<Prefab>>,
    budget: int)

  /** What the sweep changes: the two record lists, their pools, the enemy components, the yaw of each object, the starvation counter and whether it has faulted. */
  datatype SweepState = SweepState(
    tiles: seq<PoolData>, tilePools: seq<Pool>,
    enemies: seq<PoolData>, enemyPools: seq<Pool>,
    enemyData: map<Handle, EnemyData>, yawOf: map<Handle, int>,
    probability: int, faulted: bool)

  /** The catalogue entry pool `i` creates from; None when missing or null. */
  function PrefabAt(prefabs: seq<Option<Prefab>>, i: int): Option<Prefab> {
    if 0 <= i < |prefabs| then prefabs[i] else None
  }

  /** Taking an object from pool `i` succeeds: the pool exists, and it either reuses an idle object or has a prefab to instantiate. */
  predicate CanGet(pools: seq<Pool>, prefabs: seq<Option<Prefab>>, i: int) {
    0 <= i < |pools| && (|pools[i].idle| > 0 || PrefabAt(prefabs, i).Some?)
  }

  /** Whether pool `i`'s tiles are obstacles (false when it has no prefab). */
  function IsObstacle(prefabs: seq<Option<Prefab>>, i: int): bool {
    PrefabAt(prefabs, i).Some? && PrefabAt(prefabs, i).value.isObstacle
  }

  /** A cell may try to spawn an enemy: non-obstacle tile, budget unmet, enemy archetypes present. */
  predicate EnemyEligible(cfg: SweepConfig, st: SweepState, tilePool: int) {
    !IsObstacle(cfg.tilePrefabs, tilePool) && |st.enemies| < cfg.budget && |cfg.enemyPrefabs| > 0
  }

  /** The spawn test after the counter has been raised; the sum is a C# int addition and wraps past IntMax. */
  predicate SpawnTest(cfg: SweepConfig, st: SweepState, d: CellDraw) {
    d.spawnDraw <= Wrap32((st.probability + 1) + (cfg.budget - |st.enemies|))
  }

  /** The tile part of one cell. */
  function PlaceTile(cfg: SweepConfig, st: SweepState, d: CellDraw, id: int): SweepState
    requires !st.faulted
  {
    var tp := SelectIndex(cfg.tileWeights, d.tileValue);
    if !CanGet(st.tilePools, cfg.tilePrefabs, tp) then st.(faulted := true)
    else
      var g := Get(st.tilePools[tp], TileKind, tp);
      st.(tilePools := st.tilePools[tp := g.pool],
          yawOf := st.yawOf[g.handle := 90 * d.yawStep],
          tiles := st.tiles + [PoolData(g.handle, tp, id)])
  }

  /** The enemy part of one cell, run on the state after its tile (from pool `tp`) is placed. */
  function TrySpawn(cfg: SweepConfig, st: SweepState, d: CellDraw, id: int, tp: int): SweepState
    requires !st.faulted
  {
    if !EnemyEligible(cfg, st, tp) then st
    else if !SpawnTest(cfg, st, d) then st.(probability := st.probability + 1)
    else
      var ep := SelectIndex(cfg.enemyWeights, d.enemyValue);
      if !CanGet(st.enemyPools, cfg.enemyPrefabs, ep) then st.(probability := st.probability + 1, faulted := true)
      else
        var e := Get(st.enemyPools[ep], EnemyKind, ep);
        st.(enemyPools := st.enemyPools[ep := e.pool],
            enemyData := if e.handle in st.enemyData then st.enemyData
                         else st.enemyData[e.handle := EnemyData(e.handle, ep, 0)],
            enemies := st.enemies + [PoolData(e.handle, ep, id)],
            probability := 0)
  }

  /** One grid cell with running id `id`. */
  function Step(cfg: SweepConfig, st: SweepState, d: CellDraw, id: int): SweepState {
    if st.faulted then st
    else
      var st1 := PlaceTile(cfg, st, d, id);
      if st1.faulted then st1
      else TrySpawn(cfg, st1, d, id, SelectIndex(cfg.tileWeights, d.tileValue))
  }

  /** The sweep over the cells whose draws are `ds`; cell k gets id k. */
  function Sweep(cfg: SweepConfig, st: SweepState, ds: seq<CellDraw>): SweepState {
    if ds == [] then st
    else Step(cfg, Sweep(cfg, st, ds[..|ds| - 1]), ds[|ds| - 1], |ds| - 1)
  }

  /** A non-negative loop bound: `for (i = 0; i < n; i++)` runs Extent(n) times. */
  function Extent(n: int): nat {
    if n < 0 then 0 else n
  }

  /** The smallest and largest value of a C# int. */
  const IntMin: int := -0x8000_0000
  const IntMax: int := 0x7FFF_FFFF

  /** The value an unchecked C# int operation with exact result `x` yields: `x` reduced modulo 2^32 into [IntMin, IntMax]. */
  function Wrap32(x: int): (r: int)
    ensures IntMin <= r <= IntMax
    ensures (x - r) % 0x1_0000_0000 == 0
    ensures IntMin <= x <= IntMax ==> r == x
  {
    (x - IntMin) % 0x1_0000_0000 + IntMin
  }

  /** Cells visited by floors x xSize x zSize nested loops. */
  function CellCount(floors: int, xSize: int, zSize: int): nat {
    Extent(floors) * Extent(xSize) * Extent(zSize)
  }

  /** The draws Random.Range can produce: yaw step in [0, 3), spawn draw in [0, xSize * zSize). */
  predicate DrawsInRange(ds: seq<CellDraw>, cellsPerFloor: int) {
    forall k :: 0 <= k < |ds| ==> 0 <= ds[k].yawStep < 3 && 0 <= ds[k].spawnDraw < cellsPerFloor
  }

  // ---------------------------------------------------------------------
  // The properties, as predicates on the record lists.

  /** Records from position `t0` on are the cells' tiles: the j-th has id j and the pool chosen for cell j. */
  predicate TilesNumbered(t0: nat, tiles: seq<PoolData>, ws: seq<Weight>, ds: seq<CellDraw>) {
    t0 <= |tiles| <= t0 + |ds| &&
    forall j :: t0 <= j < |tiles| ==>
      tiles[j].id == j - t0 && tiles[j].indexOfPool == SelectIndex(ws, ds[j - t0].tileValue)
  }

  /** Enemy records from position `e0` on name a tile appended from position `t0` on, whose pool is not an obstacle. */
  predicate EnemiesOnOpenTiles(e0: nat, enemies: seq<PoolData>, t0: nat, tiles: seq<PoolData>, prefabs: seq<Option<Prefab>>) {
    forall j :: e0 <= j < |enemies| ==>
      0 <= enemies[j].id < |tiles| - t0 && !IsObstacle(prefabs, tiles[t0 + enemies[j].id].indexOfPool)
  }

  /** Enemy ids from position `e0` on strictly increase. */
  predicate IdsIncrease(e0: nat, enemies: seq<PoolData>) {
    forall j1, j2 :: e0 <= j1 < j2 < |enemies| ==> enemies[j1].id < enemies[j2].id
  }

  /** Every EnemyData component belongs to its own object and has Id 0. */
  predicate EnemyDataIdZero(m: map<Handle, EnemyData>) {
    forall h :: h in m ==> m[h].enemy == h && m[h].id == 0
  }

  /** Every yaw in `y` is the one in `y0` or one of 0, 90, 180. */
  predicate YawsQuarterTurns(y0: map<Handle, int>, y: map<Handle, int>) {
    forall h :: h in y ==> (h in y0 && y[h] == y0[h]) || y[h] == 0 || y[h] == 90 || y[h] == 180
  }

  // ---------------------------------------------------------------------
  // Properties of one step.

  /**
   * The enemy heuristic of one cell: the counter is untouched on an
   * ineligible cell; on an eligible one an enemy spawns iff the draw is at
   * most (counter + 1) + (budget - enemies), the counter then being 0, and
   * otherwise rises by exactly 1. A draw below the range bound always
   * passes once counter + 1 + unmet budget reaches bound - 1.
   */
  lemma StepHeuristic(cfg: SweepConfig, st: SweepState, d: CellDraw, id: int, bound: int)
    requires !st.faulted
    requires !PlaceTile(cfg, st, d, id).faulted
    requires !Step(cfg, st, d, id).faulted
    ensures var st1 := PlaceTile(cfg, st, d, id);
      var st' := Step(cfg, st, d, id);
      var tp := SelectIndex(cfg.tileWeights, d.tileValue);
      st1.enemies == st.enemies && st1.probability == st.probability &&
      (!EnemyEligible(cfg, st1, tp) ==> st'.probability == st.probability && st'.enemies == st.enemies) &&
      (EnemyEligible(cfg, st1, tp) ==>
        (|st'.enemies| == |st.enemies| + 1 <==> SpawnTest(cfg, st, d)) &&
        (SpawnTest(cfg, st, d) ==> st'.probability == 0) &&
        (!SpawnTest(cfg, st, d) ==> st'.probability == st.probability + 1 && st'.enemies == st.enemies)) &&
      ((EnemyEligible(cfg, st1, tp) && 0 <= d.spawnDraw < bound &&
        bound - 1 <= st.probability + 1 + (cfg.budget - |st.enemies|) <= IntMax) ==> |st'.enemies| == |st.enemies| + 1)
  {
  }

  /**
   * Past IntMax the C# sum counter + 1 + unmet budget wraps to a negative
   * int, so no draw of Random.Range(0, n), which is never negative, passes
   * the spawn test.
   */
  lemma SpawnTestWraps(cfg: SweepConfig, st: SweepState, d: CellDraw)
    requires 0 <= d.spawnDraw
    requires IntMax < (st.probability + 1) + (cfg.budget - |st.enemies|) < 0x1_0000_0000
    ensures !SpawnTest(cfg, st, d)
  {
    var x := (st.probability + 1) + (cfg.budget - |st.enemies|);
    assert Wrap32(x) == x - 0x1_0000_0000;
  }

  /**
   * With the budget at int.MaxValue and no enemy yet, the sweep never spawns
   * an enemy: every eligible cell's spawn test sees a wrapped, negative sum.
   * The counter only rises, by at most one per cell.
   */
  lemma {:induction false} SweepMaxBudgetNeverSpawns(cfg: SweepConfig, st: SweepState, ds: seq<CellDraw>)
    requires cfg.budget == IntMax && st.enemies == []
    requires 0 <= st.probability && st.probability + |ds| <= IntMax
    requires forall k :: 0 <= k < |ds| ==> 0 <= ds[k].spawnDraw
    ensures var s := Sweep(cfg, st, ds);
      s.enemies == [] && st.probability <= s.probability <= st.probability + |ds|
  {
    if ds != [] {
      var n := |ds| - 1;
      SweepMaxBudgetNeverSpawns(cfg, st, ds[..n]);
      var s := Sweep(cfg, st, ds[..n]);
      if !s.faulted && !PlaceTile(cfg, s, ds[n], n).faulted {
        var s1 := PlaceTile(cfg, s, ds[n], n);
        assert s1.enemies == [] && s1.probability == s.probability;
        SpawnTestWraps(cfg, s1, ds[n]);
      }
    }
  }

  /** One cell appends at most its own tile record, with the cell's id and the selected pool. */
  lemma StepTiles(cfg: SweepConfig, st: SweepState, d: CellDraw, id: int)
    ensures st.faulted ==> Step(cfg, st, d, id) == st
    ensures var s := Step(cfg, st, d, id);
      s.tiles == st.tiles ||
      (!st.faulted && |s.tiles| == |st.tiles| + 1 && s.tiles[..|st.tiles|] == st.tiles &&
       s.tiles[|st.tiles|].id == id && s.tiles[|st.tiles|].indexOfPool == SelectIndex(cfg.tileWeights, d.tileValue))
    ensures var s := Step(cfg, st, d, id);
      !s.faulted ==> !st.faulted && |s.tiles| == |st.tiles| + 1
  {
    var s := Step(cfg, st, d, id);
    if !st.faulted && !PlaceTile(cfg, st, d, id).faulted {
      assert s.tiles == PlaceTile(cfg, st, d, id).tiles;
      assert s.tiles[..|st.tiles|] == st.tiles;
    }
  }

  /** One cell appends at most one enemy record, only below the budget, with the cell's id, on the cell's non-obstacle tile. */
  lemma StepEnemies(cfg: SweepConfig, st: SweepState, d: CellDraw, id: int)
    ensures var s := Step(cfg, st, d, id);
      s.enemies == st.enemies ||
      (!st.faulted && |st.enemies| < cfg.budget && |cfg.enemyPrefabs| > 0 &&
       |s.enemies| == |st.enemies| + 1 && s.enemies[..|st.enemies|] == st.enemies &&
       s.enemies[|st.enemies|].id == id &&
       |s.tiles| == |st.tiles| + 1 && !IsObstacle(cfg.tilePrefabs, s.tiles[|st.tiles|].indexOfPool))
  {
    var s := Step(cfg, st, d, id);
    if !st.faulted && !PlaceTile(cfg, st, d, id).faulted {
      var st1 := PlaceTile(cfg, st, d, id);
      assert s.tiles == st1.tiles;
      if s.enemies != st.enemies {
        assert s.enemies[..|st.enemies|] == st.enemies;
      }
    }
  }

  /** One cell attaches EnemyData only to an object that has none, with that object and Id 0. */
  lemma StepEnemyData(cfg: SweepConfig, st: SweepState, d: CellDraw, id: int)
    requires EnemyDataIdZero(st.enemyData)
    ensures EnemyDataIdZero(Step(cfg, st, d, id).enemyData)
  {
  }

  /** One cell sets at most one yaw, 90 times the yaw draw. */
  lemma StepYaw(cfg: SweepConfig, st: SweepState, d: CellDraw, id: int, y0: map<Handle, int>)
    requires 0 <= d.yawStep < 3 && YawsQuarterTurns(y0, st.yawOf)
    ensures YawsQuarterTurns(y0, Step(cfg, st, d, id).yawOf)
  {
    StepTurnsTile(cfg, st, d, id);
  }

  /** One cell turns exactly the tile it records, to 90 * yawStep; a cell that records no tile turns nothing. */
  lemma StepTurnsTile(cfg: SweepConfig, st: SweepState, d: CellDraw, id: int)
    ensures var s := Step(cfg, st, d, id);
      |st.tiles| <= |s.tiles| &&
      (if |s.tiles| == |st.tiles| then s.yawOf == st.yawOf
       else |s.tiles| == |st.tiles| + 1 && s.yawOf == st.yawOf[s.tiles[|st.tiles|].handle := 90 * d.yawStep])
  {
    if !st.faulted {
      var tp := SelectIndex(cfg.tileWeights, d.tileValue);
      var st1 := PlaceTile(cfg, st, d, id);
      if !st1.faulted {
        var g := Get(st.tilePools[tp], TileKind, tp);
        assert st1.tiles == st.tiles + [PoolData(g.handle, tp, id)];
        assert st1.yawOf == st.yawOf[g.handle := 90 * d.yawStep];
        var s := Step(cfg, st, d, id);
        assert s.yawOf == st1.yawOf && s.tiles == st1.tiles;
      }
    }
  }


  // ---------------------------------------------------------------------
  // Properties of the whole sweep.

  /**
   * Tiles: the sweep appends one record per cell it completes, all of them
   * if it does not fault; the j-th new record has id j and the pool the tile
   * selection chose for cell j; earlier records are untouched.
   */
  lemma {:induction false} SweepTiles(cfg: SweepConfig, st: SweepState, ds: seq<CellDraw>)
    requires !st.faulted
    ensures var s := Sweep(cfg, st, ds);
      |st.tiles| <= |s.tiles| && s.tiles[..|st.tiles|] == st.tiles && (!s.faulted ==> |s.tiles| == |st.tiles| + |ds|)
    ensures TilesNumbered(|st.tiles|, Sweep(cfg, st, ds).tiles, cfg.tileWeights, ds)
  {
    if ds == [] {
      assert st.tiles[..|st.tiles|] == st.tiles;
    } else {
      var n := |ds| - 1;
      SweepTiles(cfg, st, ds[..n]);
      var prev := Sweep(cfg, st, ds[..n]);
      StepTiles(cfg, prev, ds[n], n);
      var s := Sweep(cfg, st, ds);
      assert s == Step(cfg, prev, ds[n], n);
      TilesStep(st.tiles, prev.tiles, s.tiles, cfg.tileWeights, ds, prev.faulted, s.faulted);
    }
  }

  /** The inductive step of SweepTiles, on the record lists alone. */
  lemma TilesStep(t0: seq<PoolData>, prev: seq<PoolData>, s: seq<PoolData>, ws: seq<Weight>, ds: seq<CellDraw>,
                  prevFaulted: bool, sFaulted: bool)
    requires |ds| > 0
    requires |t0| <= |prev| && prev[..|t0|] == t0 && TilesNumbered(|t0|, prev, ws, ds[..|ds| - 1])
    requires !prevFaulted ==> |prev| == |t0| + |ds| - 1
    requires s == prev ||
      (!prevFaulted && |s| == |prev| + 1 && s[..|prev|] == prev &&
       s[|prev|].id == |ds| - 1 && s[|prev|].indexOfPool == SelectIndex(ws, ds[|ds| - 1].tileValue))
    requires !sFaulted ==> !prevFaulted && |s| == |prev| + 1
    ensures |t0| <= |s| && s[..|t0|] == t0 && (!sFaulted ==> |s| == |t0| + |ds|)
    ensures TilesNumbered(|t0|, s, ws, ds)
  {
    var n := |ds| - 1;
    if s != prev {
      assert s[..|t0|] == prev[..|t0|];
    }
    forall j | |t0| <= j < |s|
      ensures s[j].id == j - |t0| && s[j].indexOfPool == SelectIndex(ws, ds[j - |t0|].tileValue)
    {
      if j < |prev| {
        assert s[j] == prev[j];
        assert ds[..n][j - |t0|] == ds[j - |t0|];
      }
    }
  }

  /** The enemy list never grows past the budget: appends happen only below it. */
  lemma {:induction false} SweepBudget(cfg: SweepConfig, st: SweepState, ds: seq<CellDraw>)
    ensures var s := Sweep(cfg, st, ds);
      (|st.enemies| < cfg.budget ==> |s.enemies| <= cfg.budget) &&
      (|st.enemies| >= cfg.budget ==> s.enemies == st.enemies)
  {
    if ds != [] {
      var n := |ds| - 1;
      SweepBudget(cfg, st, ds[..n]);
      StepEnemies(cfg, Sweep(cfg, st, ds[..n]), ds[n], n);
    }
  }

  /**
   * Enemies: the sweep only appends to the enemy list; each new record
   * carries the id of the cell it spawned on, whose tile is the matching
   * tile record and not an obstacle; ids strictly increase (at most one
   * enemy per cell); and enemies appear only when enemy archetypes exist.
   */
  lemma {:induction false} SweepEnemies(cfg: SweepConfig, st: SweepState, ds: seq<CellDraw>)
    requires !st.faulted
    ensures var s := Sweep(cfg, st, ds);
      |st.enemies| <= |s.enemies| && s.enemies[..|st.enemies|] == st.enemies &&
      (|s.enemies| > |st.enemies| ==> |cfg.enemyPrefabs| > 0)
    ensures EnemiesOnOpenTiles(|st.enemies|, Sweep(cfg, st, ds).enemies, |st.tiles|, Sweep(cfg, st, ds).tiles, cfg.tilePrefabs)
    ensures IdsIncrease(|st.enemies|, Sweep(cfg, st, ds).enemies)
  {
    if ds == [] {
      assert st.enemies[..|st.enemies|] == st.enemies;
    } else {
      var n := |ds| - 1;
      SweepEnemies(cfg, st, ds[..n]);
      SweepTiles(cfg, st, ds[..n]);
      var prev := Sweep(cfg, st, ds[..n]);
      StepTiles(cfg, prev, ds[n], n);
      StepEnemies(cfg, prev, ds[n], n);
      var s := Sweep(cfg, st, ds);
      assert s == Step(cfg, prev, ds[n], n);
      EnemiesStep(st.tiles, st.enemies, prev.tiles, prev.enemies, s.tiles, s.enemies, cfg.tilePrefabs,
                  |cfg.enemyPrefabs| > 0, n, prev.faulted);
    }
  }

  /** The inductive step of SweepEnemies, on the record lists alone. */
  lemma EnemiesStep(t0: seq<PoolData>, e0: seq<PoolData>, prevT: seq<PoolData>, prevE: seq<PoolData>,
                    sT: seq<PoolData>, sE: seq<PoolData>, prefabs: seq<Option<Prefab>>, haveEnemies: bool,
                    n: nat, prevFaulted: bool)
    requires |e0| <= |prevE| && prevE[..|e0|] == e0 && (|prevE| > |e0| ==> haveEnemies)
    requires |t0| <= |prevT| <= |t0| + n && (!prevFaulted ==> |prevT| == |t0| + n)
    requires EnemiesOnOpenTiles(|e0|, prevE, |t0|, prevT, prefabs) && IdsIncrease(|e0|, prevE)
    requires forall j :: |e0| <= j < |prevE| ==> prevE[j].id < n
    requires sT == prevT || (|sT| == |prevT| + 1 && sT[..|prevT|] == prevT)
    requires sE == prevE ||
      (!prevFaulted && haveEnemies && |sE| == |prevE| + 1 && sE[..|prevE|] == prevE && sE[|prevE|].id == n &&
       |sT| == |prevT| + 1 && !IsObstacle(prefabs, sT[|prevT|].indexOfPool))
    ensures |e0| <= |sE| && sE[..|e0|] == e0 && (|sE| > |e0| ==> haveEnemies)
    ensures EnemiesOnOpenTiles(|e0|, sE, |t0|, sT, prefabs) && IdsIncrease(|e0|, sE)
  {
    if sE != prevE {
      assert sE[..|e0|] == prevE[..|e0|];
    }
    forall j | |e0| <= j < |prevE|
      ensures sE[j] == prevE[j] && sT[|t0| + prevE[j].id] == prevT[|t0| + prevE[j].id]
    {
      if sT != prevT {
        assert sT[..|prevT|][|t0| + prevE[j].id] == sT[|t0| + prevE[j].id];
      }
      if sE != prevE {
        assert sE[..|prevE|][j] == sE[j];
      }
    }
  }

  /** Every EnemyData component the sweep attaches belongs to its own object and has Id 0: the source never assigns Id. */
  lemma {:induction false} SweepEnemyDataIdZero(cfg: SweepConfig, st: SweepState, ds: seq<CellDraw>)
    requires EnemyDataIdZero(st.enemyData)
    ensures EnemyDataIdZero(Sweep(cfg, st, ds).enemyData)
  {
    if ds != [] {
      var n := |ds| - 1;
      SweepEnemyDataIdZero(cfg, st, ds[..n]);
      StepEnemyData(cfg, Sweep(cfg, st, ds[..n]), ds[n], n);
    }
  }

  /** Tile yaws are 90 * Random.Range(0, 3): only 0, 90 or 180 degrees, never 270. */
  lemma {:induction false} SweepYaws(cfg: SweepConfig, st: SweepState, ds: seq<CellDraw>, bound: int)
    requires DrawsInRange(ds, bound)
    ensures YawsQuarterTurns(st.yawOf, Sweep(cfg, st, ds).yawOf)
  {
    if ds != [] {
      var n := |ds| - 1;
      assert DrawsInRange(ds[..n], bound) by {
        forall k | 0 <= k < n ensures ds[..n][k] == ds[k] { }
      }
      SweepYaws(cfg, st, ds[..n], bound);
      StepYaw(cfg, Sweep(cfg, st, ds[..n]), ds[n], n, st.yawOf);
    } else {
      assert YawsQuarterTurns(st.yawOf, st.yawOf);
    }
  }

  /** One cell keeps the registry of both categories consistent. */
  lemma StepKeepsRegistered(cfg: SweepConfig, st: SweepState, d: CellDraw, id: int)
    requires Registered(st.tiles, st.tilePools, TileKind) && Registered(st.enemies, st.enemyPools, EnemyKind)
    ensures var s := Step(cfg, st, d, id);
      Registered(s.tiles, s.tilePools, TileKind) && Registered(s.enemies, s.enemyPools, EnemyKind)
  {
    if !st.faulted {
      var tp := SelectIndex(cfg.tileWeights, d.tileValue);
      var st1 := PlaceTile(cfg, st, d, id);
      if !st1.faulted {
        AppendKeepsRegistered(st.tiles, st.tilePools, TileKind, tp, id);
        assert st1.enemies == st.enemies && st1.enemyPools == st.enemyPools;
        var ep := SelectIndex(cfg.enemyWeights, d.enemyValue);
        var s := TrySpawn(cfg, st1, d, id, tp);
        assert s.tiles == st1.tiles && s.tilePools == st1.tilePools;
        if EnemyEligible(cfg, st1, tp) && SpawnTest(cfg, st1, d) && CanGet(st1.enemyPools, cfg.enemyPrefabs, ep) {
          AppendKeepsRegistered(st1.enemies, st1.enemyPools, EnemyKind, ep, id);
        }
      }
    }
  }

  /** The sweep keeps the registry of both categories consistent: each pool's objects out in the scene are exactly those its records name. */
  lemma {:induction false} SweepKeepsRegistered(cfg: SweepConfig, st: SweepState, ds: seq<CellDraw>)
    requires Registered(st.tiles, st.tilePools, TileKind) && Registered(st.enemies, st.enemyPools, EnemyKind)
    ensures var s := Sweep(cfg, st, ds);
      Registered(s.tiles, s.tilePools, TileKind) && Registered(s.enemies, s.enemyPools, EnemyKind)
  {
    if ds != [] {
      var n := |ds| - 1;
      SweepKeepsRegistered(cfg, st, ds[..n]);
      StepKeepsRegistered(cfg, Sweep(cfg, st, ds[..n]), ds[n], n);
    }
  }

  /** Once faulted, later cells change nothing (the exception has left the method). */
  lemma {:induction false} SweepFaultStays(cfg: SweepConfig, st: SweepState, ds: seq<CellDraw>, m: nat)
    requires m <= |ds| && Sweep(cfg, st, ds[..m]).faulted
    ensures Sweep(cfg, st, ds) == Sweep(cfg, st, ds[..m])
    decreases |ds| - m
  {
    if m < |ds| {
      var n := |ds| - 1;
      assert ds[..n][..m] == ds[..m];
      SweepFaultStays(cfg, st, ds[..n], m);
    } else {
      assert ds[..m] == ds;
    }
  }
}
