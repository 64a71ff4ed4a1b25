// The FloorGenerator component: its inspector settings, its three pool
// arrays and three record lists, and the methods that fill and empty them.
//
// Each method is proved against the specification functions of the other
// modules: GenerateRoom against GridSweep.Sweep followed by
// Walls.CreateWallsSpec, the bulk releases against Pooling.ReleaseAll,
// OnValidate against Validation.Resized and Validation.DropNulls. Random
// draws are parameters; an exception the source would throw ends the
// method with `faulted` set and the fields as the source left them.

module Generator {
  import opened WeightedSelection
  import opened Pooling
  import opened Validation
  import opened GridSweep
  import opened Walls

  /** The settings the generator reads and OnValidate normalises. */
  datatype Settings = Settings(
    xLength: int, zLength: int, floors: int, enemiesAmountToSpawn: int, spawnWalls: bool, usePrefabs: bool,
    tilesToGenerate: seq<Option<Prefab>>, tileWeights: seq<Weight>,
    enemiesToGenerate: seq<Option<Prefab>>, enemyWeights: seq<Weight>,
    wallsToGenerate: seq<Option<Prefab>>, wallWeights: seq<Weight>)

  /** The tile and enemy part of the scene. */
  datatype Placed = Placed(
    tiles: seq<PoolData>, tilePools: seq<Pool>,
    enemies: seq<PoolData>, enemyPools: seq<Pool>,
    enemyData: map<Handle, EnemyData>)

  class FloorGenerator {
    var xLength: int
    var zLength: int
    var floors: int
    var tilesToGenerate: seq<Option<Prefab>>
    var tileWeights: seq<Weight>
    var tilesInScene: seq<PoolData>
    var tilePools: seq<Pool>

    var enemiesAmountToSpawn: int
    var enemiesToGenerate: seq<Option<Prefab>>
    var enemyWeights: seq<Weight>
    var enemiesInScene: seq<PoolData>
    var enemyPools: seq<Pool>

    var spawnWalls: bool
    var wallsToGenerate: seq<Option<Prefab>>
    var wallWeights: seq<Weight>
    var wallsInScene: seq<PoolData>
    var wallPools: seq<Pool>
    var usePrefabs: bool

    /** The EnemyData component of each enemy object that has one. */
    var enemyData: map<Handle, EnemyData>
    /** The yaw (Euler y, degrees) last given to each object. */
    var yawOf: map<Handle, int>

    /** The class invariant, established by Awake and kept by every method. */
    ghost predicate Valid()
      reads this
    {
      Consistent(CurrentPlaced(), WallView(false))
    }

    function CurrentSettings(): Settings
      reads this
    {
      Settings(xLength, zLength, floors, enemiesAmountToSpawn, spawnWalls, usePrefabs,
               tilesToGenerate, tileWeights, enemiesToGenerate, enemyWeights, wallsToGenerate, wallWeights)
    }

    function CurrentPlaced(): Placed
      reads this
    {
      Placed(tilesInScene, tilePools, enemiesInScene, enemyPools, enemyData)
    }

    function SweepCfg(): SweepConfig
      reads this
    {
      SweepConfig(tileWeights, enemyWeights, tilesToGenerate, enemiesToGenerate, enemiesAmountToSpawn)
    }

    function SweepView(probability: int, faulted: bool): SweepState
      reads this
    {
      SweepState(tilesInScene, tilePools, enemiesInScene, enemyPools, enemyData, yawOf, probability, faulted)
    }

    function WallCfg(): WallConfig
      reads this
    {
      WallConfig(spawnWalls, usePrefabs, wallWeights, wallsToGenerate, zLength)
    }

    function WallView(faulted: bool): WallState
      reads this
    {
      WallState(wallsInScene, wallPools, yawOf, faulted)
    }

    /**
     * Awake: one pool per catalogue entry (counted before OnValidate drops
     * null entries), empty record lists, then OnValidate.
     */
    constructor (xLength: int, zLength: int, floors: int, enemiesAmountToSpawn: int, spawnWalls: bool,
                 tiles: seq<Option<Prefab>>, tileWeights: seq<Weight>,
                 enemies: seq<Option<Prefab>>, enemyWeights: seq<Weight>,
                 walls: seq<Option<Prefab>>, wallWeights: seq<Weight>)
      ensures this.xLength == xLength && this.zLength == zLength && this.floors == floors
      ensures this.enemiesAmountToSpawn == enemiesAmountToSpawn && this.spawnWalls == spawnWalls
      ensures tilePools == EmptyPools(|tiles|) && enemyPools == EmptyPools(|enemies|) && wallPools == EmptyPools(|walls|)
      ensures tilesInScene == [] && enemiesInScene == [] && wallsInScene == []
      ensures tilesToGenerate == DropNulls(tiles) && enemiesToGenerate == DropNulls(enemies) && wallsToGenerate == walls
      ensures this.tileWeights == Resized(tileWeights, |tiles|) && this.enemyWeights == Resized(enemyWeights, |enemies|)
      ensures this.wallWeights == wallWeights && usePrefabs == (|walls| > 0)
      ensures enemyData == map[] && yawOf == map[]
      ensures Valid()
    {
      this.xLength := xLength;
      this.zLength := zLength;
      this.floors := floors;
      this.enemiesAmountToSpawn := enemiesAmountToSpawn;
      this.spawnWalls := spawnWalls;
      tilesToGenerate := tiles;
      this.tileWeights := tileWeights;
      enemiesToGenerate := enemies;
      this.enemyWeights := enemyWeights;
      wallsToGenerate := walls;
      this.wallWeights := wallWeights;
      usePrefabs := false;
      tilePools := EmptyPools(|tiles|);
      enemyPools := EmptyPools(|enemies|);
      wallPools := EmptyPools(|walls|);
      tilesInScene := [];
      enemiesInScene := [];
      wallsInScene := [];
      enemyData := map[];
      yawOf := map[];
      new;
      InitiallyConsistent(|tiles|, |enemies|, |walls|);
      OnValidate();
    }

    /**
     * OnValidate: weight arrays resized to their catalogues, usePrefabs
     * derived from the wall catalogue, null tile and enemy archetypes
     * removed in order. The resize comes first, so a removed null leaves
     * the weights one longer than the catalogue.
     */
    method OnValidate()
      modifies this`tileWeights, this`enemyWeights, this`usePrefabs, this`tilesToGenerate, this`enemiesToGenerate
      ensures tileWeights == Resized(old(tileWeights), |old(tilesToGenerate)|)
      ensures enemyWeights == Resized(old(enemyWeights), |old(enemiesToGenerate)|)
      ensures usePrefabs == (|wallsToGenerate| > 0)
      ensures tilesToGenerate == DropNulls(old(tilesToGenerate)) && enemiesToGenerate == DropNulls(old(enemiesToGenerate))
    {
      if |tileWeights| != |tilesToGenerate| {
        tileWeights := Resized(tileWeights, |tilesToGenerate|);
      }
      if |enemyWeights| != |enemiesToGenerate| {
        enemyWeights := Resized(enemyWeights, |enemiesToGenerate|);
      }
      usePrefabs := |wallsToGenerate| > 0;
      tilesToGenerate := RemoveNulls(tilesToGenerate);
      enemiesToGenerate := RemoveNulls(enemiesToGenerate);
    }

    /**
     * GenerateRoom: the floor, x, z sweep over `cells` (one draw set per
     * cell, in that order), then CreateWalls with `walls`, unless a pool
     * access threw first.
     */
    method GenerateRoom(xSize: int, zSize: int, cells: seq<CellDraw>, walls: WallDraws) returns (faulted: bool)
      requires |cells| == CellCount(floors, xSize, zSize) && DrawsFit(walls, zLength)
      modifies this
      ensures CurrentSettings() == old(CurrentSettings())
      ensures var s := Sweep(old(SweepCfg()), old(SweepView(0, false)), cells);
        CurrentPlaced() == Placed(s.tiles, s.tilePools, s.enemies, s.enemyPools, s.enemyData)
      ensures var s := Sweep(old(SweepCfg()), old(SweepView(0, false)), cells);
        s.faulted ==> faulted && WallView(true) == WallState(old(wallsInScene), old(wallPools), s.yawOf, true)
      ensures var s := Sweep(old(SweepCfg()), old(SweepView(0, false)), cells);
        !s.faulted ==> WallView(faulted) == CreateWallsSpec(old(WallCfg()), WallState(old(wallsInScene), old(wallPools), s.yawOf, false), walls)
      ensures old(Valid()) ==> Valid()
    {
      ghost var cfg := SweepCfg();
      ghost var st0 := SweepView(0, false);
      ghost var valid0 := Valid();
      ghost var perFloor := Blocks(Extent(xSize), Extent(zSize));
      CellCountShape(floors, xSize, zSize);
      var id := 0;
      var probability := 0;
      var floor := 0;
      while floor < floors
        invariant 0 <= floor <= Extent(floors)
        invariant id == Blocks(floor, perFloor) && id <= |cells|
        invariant SweepView(probability, false) == Sweep(cfg, st0, cells[..id])
        invariant (xLength, zLength, floors, enemiesAmountToSpawn, spawnWalls, usePrefabs, tilesToGenerate, tileWeights, enemiesToGenerate, enemyWeights, wallsToGenerate, wallWeights, wallsInScene, wallPools)
               == old((xLength, zLength, floors, enemiesAmountToSpawn, spawnWalls, usePrefabs, tilesToGenerate, tileWeights, enemiesToGenerate, enemyWeights, wallsToGenerate, wallWeights, wallsInScene, wallPools))
      {
        BlockFits(floor, Extent(floors), perFloor);
        var failed;
        id, probability, failed := GenerateFloor(xSize, zSize, cells, id, probability, cfg, st0);
        if failed {
          if valid0 {
            assert Valid() by {
              SweepKeepsRegistered(cfg, st0, cells);
              SweepEnemyDataIdZero(cfg, st0, cells);
            }
          }
          return true;
        }
        floor := floor + 1;
      }
      assert cells[..id] == cells;
      if valid0 {
        assert Valid() by {
          SweepKeepsRegistered(cfg, st0, cells);
          SweepEnemyDataIdZero(cfg, st0, cells);
        }
      }
      faulted := CreateWalls(walls);
    }

    /**
     * One floor of GenerateRoom's sweep: the x loop, each row continuing the
     * running id and the starvation counter. On an exception the fields are
     * those of the whole sweep, which stops there.
     */
    method GenerateFloor(xSize: int, zSize: int, cells: seq<CellDraw>, id: int, probability: int,
                         ghost cfg: SweepConfig, ghost st0: SweepState)
      returns (id': int, probability': int, faulted: bool)
      requires 0 <= id && id + Blocks(Extent(xSize), Extent(zSize)) <= |cells|
      requires cfg == SweepCfg() && SweepView(probability, false) == Sweep(cfg, st0, cells[..id])
      modifies this
      ensures (xLength, zLength, floors, enemiesAmountToSpawn, spawnWalls, usePrefabs, tilesToGenerate, tileWeights, enemiesToGenerate, enemyWeights, wallsToGenerate, wallWeights, wallsInScene, wallPools)
             == old((xLength, zLength, floors, enemiesAmountToSpawn, spawnWalls, usePrefabs, tilesToGenerate, tileWeights, enemiesToGenerate, enemyWeights, wallsToGenerate, wallWeights, wallsInScene, wallPools))
      ensures !faulted ==> id' == id + Blocks(Extent(xSize), Extent(zSize)) && SweepView(probability', false) == Sweep(cfg, st0, cells[..id'])
      ensures faulted ==> SweepView(probability', true) == Sweep(cfg, st0, cells)
    {
      ghost var x := Extent(xSize);
      ghost var zs := Extent(zSize);
      id' := id;
      probability' := probability;
      var i := 0;
      while i < xSize
        invariant 0 <= i <= x
        invariant id <= id' <= |cells| && id' == id + Blocks(i, zs) && id + Blocks(x, zs) <= |cells|
        invariant SweepView(probability', false) == Sweep(cfg, st0, cells[..id'])
        invariant (xLength, zLength, floors, enemiesAmountToSpawn, spawnWalls, usePrefabs, tilesToGenerate, tileWeights, enemiesToGenerate, enemyWeights, wallsToGenerate, wallWeights, wallsInScene, wallPools)
               == old((xLength, zLength, floors, enemiesAmountToSpawn, spawnWalls, usePrefabs, tilesToGenerate, tileWeights, enemiesToGenerate, enemyWeights, wallsToGenerate, wallWeights, wallsInScene, wallPools))
      {
        BlockFits(i, x, zs);
        id', probability', faulted := GenerateRow(zSize, cells, id', probability', cfg, st0);
        if faulted {
          return;
        }
        i := i + 1;
      }
      assert i == x;
      faulted := false;
    }

    /** One row of a floor: the z loop over Extent(zSize) cells from running id `id`. */
    method GenerateRow(zSize: int, cells: seq<CellDraw>, id: int, probability: int,
                       ghost cfg: SweepConfig, ghost st0: SweepState)
      returns (id': int, probability': int, faulted: bool)
      requires 0 <= id && id + Extent(zSize) <= |cells|
      requires cfg == SweepCfg() && SweepView(probability, false) == Sweep(cfg, st0, cells[..id])
      modifies this
      ensures (xLength, zLength, floors, enemiesAmountToSpawn, spawnWalls, usePrefabs, tilesToGenerate, tileWeights, enemiesToGenerate, enemyWeights, wallsToGenerate, wallWeights, wallsInScene, wallPools)
             == old((xLength, zLength, floors, enemiesAmountToSpawn, spawnWalls, usePrefabs, tilesToGenerate, tileWeights, enemiesToGenerate, enemyWeights, wallsToGenerate, wallWeights, wallsInScene, wallPools))
      ensures !faulted ==> id' == id + Extent(zSize) && SweepView(probability', false) == Sweep(cfg, st0, cells[..id'])
      ensures faulted ==> SweepView(probability', true) == Sweep(cfg, st0, cells)
    {
      id' := id;
      probability' := probability;
      var z := 0;
      while z < zSize
        invariant 0 <= z <= Extent(zSize) && id' == id + z
        invariant SweepView(probability', false) == Sweep(cfg, st0, cells[..id'])
        invariant (xLength, zLength, floors, enemiesAmountToSpawn, spawnWalls, usePrefabs, tilesToGenerate, tileWeights, enemiesToGenerate, enemyWeights, wallsToGenerate, wallWeights, wallsInScene, wallPools)
               == old((xLength, zLength, floors, enemiesAmountToSpawn, spawnWalls, usePrefabs, tilesToGenerate, tileWeights, enemiesToGenerate, enemyWeights, wallsToGenerate, wallWeights, wallsInScene, wallPools))
      {
        ghost var before := SweepView(probability', false);
        assert cells[..id' + 1][..id'] == cells[..id'];
        probability', faulted := GenerateCell(cells[id'], id', probability');
        assert Sweep(cfg, st0, cells[..id' + 1]) == Step(cfg, before, cells[id'], id');
        if faulted {
          SweepFaultStays(cfg, st0, cells, id' + 1);
          return;
        }
        id' := id' + 1;
        z := z + 1;
      }
      faulted := false;
    }

    /** One cell of the sweep, with running id `id`: its tile, then its enemy. */
    method GenerateCell(d: CellDraw, id: int, probability: int) returns (probability': int, faulted: bool)
      modifies this
      ensures (xLength, zLength, floors, enemiesAmountToSpawn, spawnWalls, usePrefabs, tilesToGenerate, tileWeights, enemiesToGenerate, enemyWeights, wallsToGenerate, wallWeights, wallsInScene, wallPools)
             == old((xLength, zLength, floors, enemiesAmountToSpawn, spawnWalls, usePrefabs, tilesToGenerate, tileWeights, enemiesToGenerate, enemyWeights, wallsToGenerate, wallWeights, wallsInScene, wallPools))
      ensures SweepView(probability', faulted) == Step(old(SweepCfg()), old(SweepView(probability, false)), d, id)
    {
      var indexOfTilePool;
      indexOfTilePool, faulted := PlaceCellTile(d, id, probability);
      if faulted {
        return probability, true;
      }
      probability', faulted := SpawnCellEnemy(d, id, indexOfTilePool, probability);
    }

    /**
     * The tile part of a cell: select a tile archetype, take a tile from
     * its pool (throwing when it cannot), turn it, record it with id `id`.
     */
    method PlaceCellTile(d: CellDraw, id: int, ghost probability: int) returns (indexOfTilePool: int, faulted: bool)
      modifies this
      ensures (xLength, zLength, floors, enemiesAmountToSpawn, spawnWalls, usePrefabs, tilesToGenerate, tileWeights, enemiesToGenerate, enemyWeights, wallsToGenerate, wallWeights, wallsInScene, wallPools)
             == old((xLength, zLength, floors, enemiesAmountToSpawn, spawnWalls, usePrefabs, tilesToGenerate, tileWeights, enemiesToGenerate, enemyWeights, wallsToGenerate, wallWeights, wallsInScene, wallPools))
      ensures indexOfTilePool == SelectIndex(tileWeights, d.tileValue)
      ensures SweepView(probability, faulted) == PlaceTile(old(SweepCfg()), old(SweepView(probability, false)), d, id)
    {
      indexOfTilePool := GetRandomWeightedIndex(tileWeights, d.tileValue);
      if !CanGet(tilePools, tilesToGenerate, indexOfTilePool) {
        return indexOfTilePool, true;
      }
      var g := Get(tilePools[indexOfTilePool], TileKind, indexOfTilePool);
      tilePools := tilePools[indexOfTilePool := g.pool];
      yawOf := yawOf[g.handle := 90 * d.yawStep];
      tilesInScene := tilesInScene + [PoolData(g.handle, indexOfTilePool, id)];
      faulted := false;
    }

    /**
     * The enemy part of a cell on a tile from pool `indexOfTilePool`: on a
     * non-obstacle tile while the enemy budget is unmet and enemy archetypes
     * exist, raise the starvation counter, select an enemy archetype and
     * spawn when the draw passes, resetting the counter.
     */
    method SpawnCellEnemy(d: CellDraw, id: int, indexOfTilePool: int, probability: int) returns (probability': int, faulted: bool)
      modifies this
      ensures (xLength, zLength, floors, enemiesAmountToSpawn, spawnWalls, usePrefabs, tilesToGenerate, tileWeights, enemiesToGenerate, enemyWeights, wallsToGenerate, wallWeights, wallsInScene, wallPools)
             == old((xLength, zLength, floors, enemiesAmountToSpawn, spawnWalls, usePrefabs, tilesToGenerate, tileWeights, enemiesToGenerate, enemyWeights, wallsToGenerate, wallWeights, wallsInScene, wallPools))
      ensures SweepView(probability', faulted) == TrySpawn(old(SweepCfg()), old(SweepView(probability, false)), d, id, indexOfTilePool)
    {
      probability' := probability;
      if !IsObstacle(tilesToGenerate, indexOfTilePool) && |enemiesInScene| < enemiesAmountToSpawn && |enemiesToGenerate| > 0 {
        probability' := probability' + 1;
        var indexOfEnemyPool := GetRandomWeightedIndex(enemyWeights, d.enemyValue);
        if d.spawnDraw <= Wrap32(probability' + (enemiesAmountToSpawn - |enemiesInScene|)) {
          if !CanGet(enemyPools, enemiesToGenerate, indexOfEnemyPool) {
            return probability', true;
          }
          var e := Get(enemyPools[indexOfEnemyPool], EnemyKind, indexOfEnemyPool);
          enemyPools := enemyPools[indexOfEnemyPool := e.pool];
          if e.handle !in enemyData {
            enemyData := enemyData[e.handle := EnemyData(e.handle, indexOfEnemyPool, 0)];
          }
          enemiesInScene := enemiesInScene + [PoolData(e.handle, indexOfEnemyPool, id)];
          probability' := 0;
        }
      }
      faulted := false;
    }

    /**
     * CreateWalls: nothing unless walls are enabled; in prefab mode the
     * left, right, back and front sides; the primitive branch records
     * nothing in any list.
     */
    method CreateWalls(walls: WallDraws) returns (faulted: bool)
      requires DrawsFit(walls, zLength)
      modifies this
      ensures CurrentSettings() == old(CurrentSettings()) && CurrentPlaced() == old(CurrentPlaced())
      ensures WallView(faulted) == CreateWallsSpec(old(WallCfg()), old(WallView(false)), walls)
      ensures old(Valid()) ==> Valid()
    {
      ghost var cfg := WallCfg();
      ghost var st0 := WallView(false);
      ghost var valid0 := Valid();
      if !spawnWalls {
        return false;
      }
      if usePrefabs {
        ghost var s1 := PlaceSide(cfg, st0, -1, SideYaw, walls.left);
        ghost var s2 := PlaceSide(cfg, s1, -1, SideYaw, walls.right);
        ghost var s3 := PlaceSide(cfg, s2, 0, EndYaw, walls.back);
        faulted := PlaceSideWalls(-1, Wrap32(zLength + 1), SideYaw, walls.left);
        if faulted {
          PlaceSideFaulted(cfg, s1, -1, SideYaw, walls.right);
          PlaceSideFaulted(cfg, s1, 0, EndYaw, walls.back);
          PlaceSideFaulted(cfg, s1, 0, EndYaw, walls.front);
        } else {
          faulted := PlaceSideWalls(-1, Wrap32(zLength + 1), SideYaw, walls.right);
          if faulted {
            PlaceSideFaulted(cfg, s2, 0, EndYaw, walls.back);
            PlaceSideFaulted(cfg, s2, 0, EndYaw, walls.front);
          } else {
            faulted := PlaceSideWalls(0, zLength, EndYaw, walls.back);
            if faulted {
              PlaceSideFaulted(cfg, s3, 0, EndYaw, walls.front);
            } else {
              faulted := PlaceSideWalls(0, zLength, EndYaw, walls.front);
            }
          }
        }
        if valid0 {
          assert Valid() by {
            CreateWallsKeepsRegistered(cfg, st0, walls);
          }
        }
      } else {
        faulted := false;
      }
    }

    /**
     * One side of the prefab perimeter: for i from lo while i < hi, select a
     * wall archetype, take a wall from its pool, turn it and record it with
     * id i. The four side loops of the source differ only in geometry.
     */
    method PlaceSideWalls(lo: int, hi: int, yaw: int, rs: seq<real>) returns (faulted: bool)
      requires |rs| == Extent(hi - lo)
      modifies this
      ensures (xLength, zLength, floors, enemiesAmountToSpawn, spawnWalls, usePrefabs, tilesToGenerate, tileWeights, enemiesToGenerate, enemyWeights, wallsToGenerate, wallWeights, tilesInScene, tilePools, enemiesInScene, enemyPools, enemyData)
              == old((xLength, zLength, floors, enemiesAmountToSpawn, spawnWalls, usePrefabs, tilesToGenerate, tileWeights, enemiesToGenerate, enemyWeights, wallsToGenerate, wallWeights, tilesInScene, tilePools, enemiesInScene, enemyPools, enemyData))
      ensures WallView(faulted) == PlaceSide(old(WallCfg()), old(WallView(false)), lo, yaw, rs)
    {
      ghost var cfg := WallCfg();
      ghost var st0 := WallView(false);
      var i := lo;
      ghost var n := 0;
      while i < hi
        invariant n == i - lo && 0 <= n <= |rs|
        invariant WallView(false) == PlaceSide(cfg, st0, lo, yaw, rs[..n])
        invariant (xLength, zLength, floors, enemiesAmountToSpawn, spawnWalls, usePrefabs, tilesToGenerate, tileWeights, enemiesToGenerate, enemyWeights, wallsToGenerate, wallWeights, tilesInScene, tilePools, enemiesInScene, enemyPools, enemyData)
                == old((xLength, zLength, floors, enemiesAmountToSpawn, spawnWalls, usePrefabs, tilesToGenerate, tileWeights, enemiesToGenerate, enemyWeights, wallsToGenerate, wallWeights, tilesInScene, tilePools, enemiesInScene, enemyPools, enemyData))
      {
        ghost var before := PlaceSide(cfg, st0, lo, yaw, rs[..n]);
        var failed := PlaceWall(rs[i - lo], yaw, i, cfg, before);
        PlaceSideSnoc(cfg, st0, lo, yaw, rs, n, i);
        if failed {
          PlaceSideFaultStays(cfg, st0, lo, yaw, rs, n + 1);
          return true;
        }
        i := i + 1;
        n := n + 1;
      }
      assert rs[..n] == rs;
      return false;
    }

    /** One wall of a side loop: select, take from the pool (throwing when it cannot), turn, record with id `id`. */
    method PlaceWall(r: real, yaw: int, id: int, ghost cfg: WallConfig, ghost st: WallState) returns (faulted: bool)
      requires cfg == WallCfg() && st == WallView(false)
      modifies this
      ensures (xLength, zLength, floors, enemiesAmountToSpawn, spawnWalls, usePrefabs, tilesToGenerate, tileWeights, enemiesToGenerate, enemyWeights, wallsToGenerate, wallWeights, tilesInScene, tilePools, enemiesInScene, enemyPools, enemyData)
              == old((xLength, zLength, floors, enemiesAmountToSpawn, spawnWalls, usePrefabs, tilesToGenerate, tileWeights, enemiesToGenerate, enemyWeights, wallsToGenerate, wallWeights, tilesInScene, tilePools, enemiesInScene, enemyPools, enemyData))
      ensures WallView(faulted) == Walls.PlaceWall(cfg, st, r, yaw, id)
    {
      var indexOfWallPool := GetRandomWeightedIndex(wallWeights, r);
      if !CanGet(wallPools, wallsToGenerate, indexOfWallPool) {
        return true;
      }
      var g := Get(wallPools[indexOfWallPool], WallKind, indexOfWallPool);
      wallPools := wallPools[indexOfWallPool := g.pool];
      yawOf := yawOf[g.handle := yaw];
      wallsInScene := wallsInScene + [PoolData(g.handle, indexOfWallPool, id)];
      return false;
    }

    /**
     * ReleaseTiles: every tile record's object goes back to the pool it
     * names, then the list is cleared; no tile is left out in the scene.
     */
    method ReleaseTiles()
      requires WellIndexed(tilesInScene, tilePools)
      modifies this
      ensures tilePools == ReleaseAll(old(tilePools), old(tilesInScene)) && tilesInScene == []
      ensures old(Valid()) ==> Valid() && forall p :: 0 <= p < |tilePools| ==> tilePools[p].lent == multiset{}
      ensures (xLength, zLength, floors, enemiesAmountToSpawn, spawnWalls, usePrefabs, tilesToGenerate, tileWeights, enemiesToGenerate, enemyWeights, wallsToGenerate, wallWeights, wallsInScene, wallPools, yawOf, enemiesInScene, enemyPools, enemyData)
              == old((xLength, zLength, floors, enemiesAmountToSpawn, spawnWalls, usePrefabs, tilesToGenerate, tileWeights, enemiesToGenerate, enemyWeights, wallsToGenerate, wallWeights, wallsInScene, wallPools, yawOf, enemiesInScene, enemyPools, enemyData))
    {
      ghost var valid0 := Valid();
      var pools := tilePools;
      var k := 0;
      while k < |tilesInScene|
        invariant 0 <= k <= |tilesInScene|
        invariant WellIndexed(tilesInScene[..k], tilePools)
        invariant pools == ReleaseAll(tilePools, tilesInScene[..k])
      {
        var tile := tilesInScene[k];
        assert tilesInScene[..k + 1][..k] == tilesInScene[..k];
        pools := pools[tile.indexOfPool := Release(pools[tile.indexOfPool], tile.handle)];
        k := k + 1;
      }
      assert tilesInScene[..k] == tilesInScene;
      tilePools := pools;
      tilesInScene := [];
      if valid0 {
        assert Valid() && forall p :: 0 <= p < |tilePools| ==> tilePools[p].lent == multiset{} by {
          ReleaseTilesConsistent(old(CurrentPlaced()), WallView(false));
        }
      }
    }

    /**
     * ReleaseEnemy: the component's object goes back to the pool the
     * component names, then list position data.id is removed. An index
     * out of range throws, after the release when only the position is out
     * of range. Since EnemyData.Id is never assigned, releasing through a
     * generated component always removes position 0.
     */
    method ReleaseEnemy(data: EnemyData) returns (faulted: bool)
      modifies this
      ensures faulted <==> !(0 <= data.indexOfPool < |old(enemyPools)| && 0 <= data.id < |old(enemiesInScene)|)
      ensures 0 <= data.indexOfPool < |old(enemyPools)| ==>
        enemyPools == old(enemyPools)[data.indexOfPool := Release(old(enemyPools)[data.indexOfPool], data.enemy)]
      ensures !(0 <= data.indexOfPool < |old(enemyPools)|) ==> enemyPools == old(enemyPools)
      ensures !faulted ==> enemiesInScene == old(enemiesInScene)[..data.id] + old(enemiesInScene)[data.id + 1..]
      ensures faulted ==> enemiesInScene == old(enemiesInScene)
      ensures (old(Valid()) && data in old(enemyData).Values && |old(enemiesInScene)| > 0 &&
               0 <= data.indexOfPool < |old(enemyPools)|) ==>
                !faulted && enemiesInScene == old(enemiesInScene)[1..]
      ensures (old(Valid()) && !faulted && old(enemiesInScene)[data.id].handle == data.enemy &&
               old(enemiesInScene)[data.id].indexOfPool == data.indexOfPool) ==> Valid()
      ensures (xLength, zLength, floors, enemiesAmountToSpawn, spawnWalls, usePrefabs, tilesToGenerate, tileWeights, enemiesToGenerate, enemyWeights, wallsToGenerate, wallWeights, wallsInScene, wallPools, yawOf, tilesInScene, tilePools, enemyData)
              == old((xLength, zLength, floors, enemiesAmountToSpawn, spawnWalls, usePrefabs, tilesToGenerate, tileWeights, enemiesToGenerate, enemyWeights, wallsToGenerate, wallWeights, wallsInScene, wallPools, yawOf, tilesInScene, tilePools, enemyData))
    {
      ghost var valid0 := Valid();
      if !(0 <= data.indexOfPool < |enemyPools|) {
        return true;
      }
      if valid0 && 0 <= data.id < |enemiesInScene| && enemiesInScene[data.id].handle == data.enemy &&
        enemiesInScene[data.id].indexOfPool == data.indexOfPool {
        RemoveMatchingKeepsRegistered(enemiesInScene, enemyPools, EnemyKind, data.id);
      }
      enemyPools := enemyPools[data.indexOfPool := Release(enemyPools[data.indexOfPool], data.enemy)];
      if !(0 <= data.id < |enemiesInScene|) {
        return true;
      }
      enemiesInScene := enemiesInScene[..data.id] + enemiesInScene[data.id + 1..];
      return false;
    }

    /**
     * ReleaseEnemiesAll: every enemy record's object goes back to the pool
     * it names, then the list is cleared; no enemy is left out in the scene.
     * The EnemyData components stay on their objects.
     */
    method ReleaseEnemiesAll()
      requires WellIndexed(enemiesInScene, enemyPools)
      modifies this
      ensures enemyPools == ReleaseAll(old(enemyPools), old(enemiesInScene)) && enemiesInScene == []
      ensures old(Valid()) ==> Valid() && forall p :: 0 <= p < |enemyPools| ==> enemyPools[p].lent == multiset{}
      ensures (xLength, zLength, floors, enemiesAmountToSpawn, spawnWalls, usePrefabs, tilesToGenerate, tileWeights, enemiesToGenerate, enemyWeights, wallsToGenerate, wallWeights, wallsInScene, wallPools, yawOf, tilesInScene, tilePools, enemyData)
              == old((xLength, zLength, floors, enemiesAmountToSpawn, spawnWalls, usePrefabs, tilesToGenerate, tileWeights, enemiesToGenerate, enemyWeights, wallsToGenerate, wallWeights, wallsInScene, wallPools, yawOf, tilesInScene, tilePools, enemyData))
    {
      ghost var valid0 := Valid();
      var pools := enemyPools;
      var k := 0;
      while k < |enemiesInScene|
        invariant 0 <= k <= |enemiesInScene|
        invariant WellIndexed(enemiesInScene[..k], enemyPools)
        invariant pools == ReleaseAll(enemyPools, enemiesInScene[..k])
      {
        var enemy := enemiesInScene[k];
        assert enemiesInScene[..k + 1][..k] == enemiesInScene[..k];
        pools := pools[enemy.indexOfPool := Release(pools[enemy.indexOfPool], enemy.handle)];
        k := k + 1;
      }
      assert enemiesInScene[..k] == enemiesInScene;
      enemyPools := pools;
      enemiesInScene := [];
      if valid0 {
        assert Valid() && forall p :: 0 <= p < |enemyPools| ==> enemyPools[p].lent == multiset{} by {
          ReleaseEnemiesConsistent(old(CurrentPlaced()), WallView(false));
        }
      }
    }
  }

  /**
   * Each category's pools are consistent and have out in the scene exactly
   * the objects its record list names; every EnemyData has Id 0.
   */
  ghost predicate Consistent(p: Placed, w: WallState) {
    Registered(p.tiles, p.tilePools, TileKind) &&
    Registered(p.enemies, p.enemyPools, EnemyKind) &&
    Registered(w.walls, w.wallPools, WallKind) &&
    EnemyDataIdZero(p.enemyData)
  }

  /** Empty record lists over fresh pools satisfy the invariant. */
  lemma InitiallyConsistent(nt: nat, ne: nat, nw: nat)
    ensures Consistent(Placed([], EmptyPools(nt), [], EmptyPools(ne), map[]), WallState([], EmptyPools(nw), map[], false))
  {
  }

  /** Releasing every tile record keeps the invariant and leaves no tile out in the scene. */
  lemma ReleaseTilesConsistent(p: Placed, w: WallState)
    requires Consistent(p, w)
    ensures Consistent(Placed([], ReleaseAll(p.tilePools, p.tiles), p.enemies, p.enemyPools, p.enemyData), w)
    ensures forall q :: 0 <= q < |p.tilePools| ==> ReleaseAll(p.tilePools, p.tiles)[q].lent == multiset{}
  {
    ReleaseAllEmpties(p.tilePools, p.tiles, TileKind);
  }

  /** Releasing every enemy record keeps the invariant and leaves no enemy out in the scene. */
  lemma ReleaseEnemiesConsistent(p: Placed, w: WallState)
    requires Consistent(p, w)
    ensures Consistent(Placed(p.tiles, p.tilePools, [], ReleaseAll(p.enemyPools, p.enemies), p.enemyData), w)
    ensures forall q :: 0 <= q < |p.enemyPools| ==> ReleaseAll(p.enemyPools, p.enemies)[q].lent == multiset{}
  {
    ReleaseAllEmpties(p.enemyPools, p.enemies, EnemyKind);
  }

  /**
   * The number of ids taken by `k` consecutive blocks of `size` cells each,
   * which is k * size (BlocksProduct). It is written as a recursive sum so the
   * loop invariants of GenerateRoom and GenerateFloor stay linear.
   */
  function Blocks(k: nat, size: nat): nat {
    if k == 0 then 0 else Blocks(k - 1, size) + size
  }

  lemma {:induction false} BlocksProduct(k: nat, size: nat)
    ensures Blocks(k, size) == k * size
  {
    if k > 0 {
      BlocksProduct(k - 1, size);
    }
  }

  /** Block k of n blocks ends within the n blocks. */
  lemma {:induction false} BlockFits(k: nat, n: nat, size: nat)
    requires k < n
    ensures Blocks(k + 1, size) <= Blocks(n, size)
    decreases n - k
  {
    if k + 1 < n {
      BlockFits(k + 1, n, size);
    }
  }

  /** The sweep visits Extent(floors) blocks of Extent(xSize) rows of Extent(zSize) cells. */
  lemma CellCountShape(floors: int, xSize: int, zSize: int)
    ensures CellCount(floors, xSize, zSize) == Blocks(Extent(floors), Blocks(Extent(xSize), Extent(zSize)))
  {
    BlocksProduct(Extent(xSize), Extent(zSize));
    BlocksProduct(Extent(floors), Extent(xSize) * Extent(zSize));
    assert Extent(floors) * Extent(xSize) * Extent(zSize) == Extent(floors) * (Extent(xSize) * Extent(zSize));
  }
}
