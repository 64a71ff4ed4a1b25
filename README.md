# FloorGenerator, modelled in Dafny

`FloorGenerator` is a Unity component that builds a room of pooled game
objects. For every floor, row and column it picks a tile archetype by weight
and takes a tile from that archetype's object pool. It may also spawn an
enemy on the tile, and it surrounds the room with walls taken from wall
pools. Every object it holds is recorded in one of three `PoolData` lists
(tiles, enemies, walls), and the release methods return those objects to
their pools. `OnValidate` normalises the inspector settings.

This project models that bookkeeping:

- Game objects are opaque `Handle`s.
- An `ObjectPool` is a stack of released handles plus the multiset of
  handles out in the scene. `Get` reuses the most recently released handle
  or creates a new one; `Release` pushes a handle back.
- The component is the class `Generator.FloorGenerator`, whose fields are
  the inspector settings, the three pool arrays and the three record lists.
  Its methods change them in place.
- Each method is proved against a specification function on values:
  - the grid sweep against `GridSweep.Sweep`, one `Step` per cell;
  - the walls against `Walls.CreateWallsSpec`;
  - the releases against `Pooling.ReleaseAll`;
  - `OnValidate` against `Validation.Resized` and `Validation.DropNulls`;
  - the weighted choice against `WeightedSelection.SelectIndex`.
- The lemmas beside those functions state what the component promises:
  - record counts and ids;
  - the enemy budget and the starvation heuristic;
  - the yaws objects can get;
  - the wall perimeter;
  - that releasing empties the scene;
  - the class invariant `Valid`: every pool's handles out in the scene are
    exactly those its record list names, and every `EnemyData` has Id 0.
- Random draws are parameters: one `CellDraw` per grid cell and one real per
  wall.
- An index that would throw (a selection of -1, a pool index past the array,
  a pool with no prefab to instantiate, a list position out of range) ends
  the method with `faulted` set. The fields stay as the source leaves them
  at the throw.

Behaviour of the code as written, kept in the model:

- The tile yaw is `90 * Random.Range(0, 3)`. The integer range excludes 3,
  so a tile's yaw is only ever 0, 90 or 180 (`GridSweep.SweepYaws`).
- The back and front wall loops run over `zLength`, not `xLength`. In prefab
  mode `xLength` plays no part in the wall count, and ids repeat across
  sides (`Walls.CreateWallsRecords`, `Walls.CreateWallsIdsCollide`).
- `EnemyData.Id` is never assigned, so every component has Id 0.
  `ReleaseEnemy` therefore always removes list position 0, whichever enemy
  it releases (`Generator.FloorGenerator.ReleaseEnemy`).
- The weight arrays are resized before null archetypes are dropped. After
  `OnValidate` the catalogue can be shorter than its weights, and the pools
  keep the length the catalogue had in `Awake`. A pool whose index is past
  the catalogue then has no prefab to create from, which is a fault here.
- The enemy spawn test raises the starvation counter first. It then compares
  the draw with `counter + (budget - enemies)`, so with the counter already
  raised.
- That sum is a C# `int` addition and wraps past int.MaxValue
  (`GridSweep.Wrap32`). With a budget of int.MaxValue the sum is negative on
  every eligible cell, so the source never spawns an enemy
  (`GridSweep.SweepMaxBudgetNeverSpawns`). Likewise `zLength + 1` in the
  left and right wall loops wraps at zLength = int.MaxValue, and those loops
  then place no wall (`Walls.SideCount`).

The GenerateRoom loops are split into helper methods: `GenerateFloor` (the x
loop), `GenerateRow` (the z loop), `GenerateCell` (one cell),
`PlaceCellTile` and `SpawnCellEnemy`. The CreateWalls side loops are
`PlaceSideWalls` and `PlaceWall`. The state each one changes is the state
the corresponding part of the source changes.

## Model

| member | source | states |
|---|---|---|
| WeightedSelection.GetRandomWeightedIndex | Assets/_Scripts/FloorGenerator.cs:377-411 | the two loops (total, returning at the first +inf; cumulative share `s += w / t` over the positive weights) return exactly the reference selection `SelectIndex` for every weight vector and draw |
| WeightedSelection.SelectInRange | Assets/_Scripts/FloorGenerator.cs:401-410 | the result is -1 or an index in range whose weight is +inf or finite and strictly positive (NaN, negative and zero weights are never chosen) |
| WeightedSelection.SelectNoneIff | Assets/_Scripts/FloorGenerator.cs:379-410 | for a draw r <= 1 the result is -1 exactly when the vector has no +inf and no positive weight (both directions), so an empty vector gives -1; and a positive total always yields an index |
| WeightedSelection.TotalPositiveHasPositive | Assets/_Scripts/FloorGenerator.cs:392-395 | a positive total of the counted weights implies some weight is positive |
| WeightedSelection.PosInfWins | Assets/_Scripts/FloorGenerator.cs:384-391 | with a +inf weight present the result is the first +inf index, and it is the same for any two draws |
| WeightedSelection.SelectIsInterval | Assets/_Scripts/FloorGenerator.cs:398-408 | for a draw r > 0, without +inf and with a positive total, index i is chosen iff its weight is positive and r lies in (mass before i, mass through i], i.e. in its own share of the unit interval |
| WeightedSelection.SelectMonotone | Assets/_Scripts/FloorGenerator.cs:398-408 | a smaller draw never selects a later index, and never fails where a larger one succeeds |
| WeightedSelection.MassOfAllIsOne | Assets/_Scripts/FloorGenerator.cs:406 | the cumulative shares of all positive weights add up to exactly 1 (exact reals) |
| Validation.Resized | Assets/_Scripts/FloorGenerator.cs:415-423 | Array.Resize: the result has the new length, keeps the old prefix and pads with weight 0 |
| Validation.ResizedRoundTrip | Assets/_Scripts/FloorGenerator.cs:415-423 | resizing to the current length changes nothing, and growing then shrinking back restores the array |
| Validation.ResizedPaddingNeverSelected | Assets/_Scripts/FloorGenerator.cs:415-423 | a zero-weight padding slot added by the resize is never chosen by the weighted selection |
| Validation.RemoveNulls | Assets/_Scripts/FloorGenerator.cs:428-434 | the backwards RemoveAt loop over the list copy yields exactly `DropNulls` of the input |
| Validation.DropNullsContents | Assets/_Scripts/FloorGenerator.cs:428-443 | an entry survives iff it was in the input and is not null, and the length drops by exactly the number of nulls |
| Validation.DropNullsNoNull | Assets/_Scripts/FloorGenerator.cs:428-443 | the list is left unchanged iff it has no null, and dropping nulls twice is the same as once |
| Validation.DropNullsConcat | Assets/_Scripts/FloorGenerator.cs:428-443 | dropping nulls distributes over concatenation, so the order of the non-null entries is kept |
| Generator.FloorGenerator.OnValidate | Assets/_Scripts/FloorGenerator.cs:413-444 | the tile and enemy weights are resized to the catalogue lengths they had on entry, usePrefabs holds iff a wall archetype exists, and both catalogues lose their nulls in order; nothing else changes |
| Generator.FloorGenerator.constructor | Assets/_Scripts/FloorGenerator.cs:51-62 | Awake: one empty pool per catalogue entry counted before nulls are dropped, empty record lists, then OnValidate's normalisation; the class invariant holds |
| Generator.InitiallyConsistent | Assets/_Scripts/FloorGenerator.cs:51-62 | empty record lists over fresh pools satisfy the class invariant |
| Pooling.GetKeepsValid | Assets/_Scripts/FloorGenerator.cs:86 | taking an object keeps the pool's bookkeeping (every created handle idle or out, once) and hands out a handle of that pool that was not already out |
| Pooling.ReleaseKeepsValid | Assets/_Scripts/FloorGenerator.cs:331 | releasing a handle that is out keeps the pool's bookkeeping |
| Pooling.GetReleaseInverse | Assets/_Scripts/FloorGenerator.cs:331 | Release undoes Get on the handles out, and Get after releasing h hands h back with the pool as it was |
| Pooling.AppendKeepsRegistered | Assets/_Scripts/FloorGenerator.cs:86-95 | getting from pool p and appending the record of that handle keeps every pool's handles out equal to those its records name |
| Pooling.ReleaseAllEffect | Assets/_Scripts/FloorGenerator.cs:327-333 | releasing a record list takes out of each pool exactly the handles the list names for it, puts them on its idle stack and creates nothing |
| Pooling.ReleaseAllEmpties | Assets/_Scripts/FloorGenerator.cs:327-333 | releasing every record of a consistent registry leaves every pool consistent with no handle out in the scene |
| Pooling.RemoveMatchingKeepsRegistered | Assets/_Scripts/FloorGenerator.cs:359-363 | releasing a record's handle and removing that record from the list keeps the registry consistent |
| GridSweep.StepHeuristic | Assets/_Scripts/FloorGenerator.cs:98-119 | on an ineligible cell the counter and the enemies are untouched; on an eligible one an enemy spawns iff draw <= Wrap32((counter + 1) + (budget - enemies)), the C# int sum with its wrap-around, the counter resets to 0 on a spawn and otherwise rises by exactly 1; once that sum reaches bound - 1 without passing int.MaxValue, a draw in [0, bound) always spawns |
| GridSweep.Wrap32 | Assets/_Scripts/FloorGenerator.cs:103 | the result is an int in [int.MinValue, int.MaxValue], congruent to the exact value modulo 2^32, and equal to it when that fits |
| GridSweep.SpawnTestWraps | Assets/_Scripts/FloorGenerator.cs:103 | when counter + 1 + unmet budget lies past int.MaxValue (below 2^32) the sum wraps negative and no non-negative draw spawns |
| GridSweep.SweepMaxBudgetNeverSpawns | Assets/_Scripts/FloorGenerator.cs:98-119 | with the budget at int.MaxValue, no enemy yet, fewer than 2^31 cells and non-negative draws, the sweep spawns no enemy and the counter only rises, by at most one per cell |
| GridSweep.StepTiles | Assets/_Scripts/FloorGenerator.cs:85-95 | one cell appends exactly one tile record with the running id and the selected pool, or faults; a faulted sweep stays as it is |
| GridSweep.StepEnemies | Assets/_Scripts/FloorGenerator.cs:98-116 | one cell appends at most one enemy record, and only below the budget, with enemy archetypes present, on a non-obstacle tile, with the tile's id |
| GridSweep.StepYaw | Assets/_Scripts/FloorGenerator.cs:88 | with a yaw draw in [0, 3), a step keeps "every yaw is an earlier one or 0, 90 or 180" |
| GridSweep.StepTurnsTile | Assets/_Scripts/FloorGenerator.cs:85-90 | a cell that records a tile sets that tile's yaw to 90 * the yaw draw and changes no other yaw; a cell that records no tile (a fault) changes no yaw |
| GridSweep.SweepTiles | Assets/_Scripts/FloorGenerator.cs:77-123 | the sweep keeps the old tile records and, without a fault, appends one per cell; the j-th new record has id j (never reset between floors) and the pool selected by draw j |
| GridSweep.SweepBudget | Assets/_Scripts/FloorGenerator.cs:98-116 | below the budget the enemy list never grows past it; at or above it the list is unchanged |
| GridSweep.SweepEnemies | Assets/_Scripts/FloorGenerator.cs:98-122 | new enemy records exist only with enemy archetypes, each names (by id) a new tile whose pool is not an obstacle, and their ids strictly increase |
| GridSweep.SweepEnemyDataIdZero | Assets/_Scripts/FloorGenerator.cs:107-109 | every EnemyData component belongs to its own object and keeps Id 0 |
| GridSweep.SweepYaws | Assets/_Scripts/FloorGenerator.cs:88 | after the sweep every yaw is the old one or 0, 90 or 180 |
| GridSweep.SweepKeepsRegistered | Assets/_Scripts/FloorGenerator.cs:79-125 | the sweep keeps the tile and enemy registries consistent, faulted or not |
| GridSweep.SweepFaultStays | Assets/_Scripts/FloorGenerator.cs:85-105 | once a cell faults the remaining cells change nothing (the exception ends the method) |
| Generator.FloorGenerator.GenerateRoom | Assets/_Scripts/FloorGenerator.cs:74-130 | the floor, x, z loops leave the tile and enemy state of `Sweep` over the draws in that order; without a fault CreateWalls follows, with one the walls are untouched; the settings never change and the class invariant is kept |
| Generator.CellCountShape | Assets/_Scripts/FloorGenerator.cs:79-83 | the three nested loops visit floors * xSize * zSize cells (zero for a negative bound) |
| Generator.FloorGenerator.GenerateFloor | Assets/_Scripts/FloorGenerator.cs:81-124 | one floor advances the running id by xSize * zSize and continues the sweep, or leaves the whole sweep's faulted state |
| Generator.FloorGenerator.GenerateRow | Assets/_Scripts/FloorGenerator.cs:83-123 | one row advances the running id by zSize and continues the sweep, or leaves the whole sweep's faulted state |
| Generator.FloorGenerator.GenerateCell | Assets/_Scripts/FloorGenerator.cs:85-122 | one cell changes the fields and the counter exactly as `Step` does |
| Generator.FloorGenerator.PlaceCellTile | Assets/_Scripts/FloorGenerator.cs:85-95 | selects the tile pool by weight and places and records the tile as `PlaceTile` does |
| Generator.FloorGenerator.SpawnCellEnemy | Assets/_Scripts/FloorGenerator.cs:98-120 | the enemy branch changes the counter, the enemy list and the components as `TrySpawn` does, with the spawn test's sum wrapped to a C# int |
| Walls.PlaceWallRecords | Assets/_Scripts/FloorGenerator.cs:164-177 | one wall appends exactly one record with the loop counter as id and the selected pool, or faults; the recorded wall's yaw becomes the side's yaw and no other yaw changes, and a fault changes no yaw |
| Walls.PlaceSideTurned | Assets/_Scripts/FloorGenerator.cs:162-178 | a side loop gives exactly the objects it records the side's yaw, adds no other yaw and changes no other yaw |
| Walls.PlaceSideRecords | Assets/_Scripts/FloorGenerator.cs:162-178 | a side loop keeps the earlier records and, without a fault, appends one per draw with ids lo, lo + 1, ... and the pools the draws select |
| Walls.PlaceSideFaultStays | Assets/_Scripts/FloorGenerator.cs:162-178 | once a wall faults the rest of the side changes nothing |
| Walls.CreateWallsOff | Assets/_Scripts/FloorGenerator.cs:155-157 | with walls disabled, or without wall prefabs, CreateWalls changes nothing |
| Walls.CreateWallsRecords | Assets/_Scripts/FloorGenerator.cs:162-235 | in prefab mode, without a fault, SideCount(zLength) (zLength + 2, or 0 at zLength = int.MaxValue, where `zLength + 1` wraps) left and as many right walls numbered from -1, then zLength back and zLength front walls numbered from 0, are appended in that order, each with its draw's pool |
| Walls.CreateWallsIdsCollide | Assets/_Scripts/FloorGenerator.cs:162-235 | without a fault the wall list grows by 2 * SideCount + 2 * EndCount, that is 2 walls for zLength = -1, 4 zLength + 4 for 0 <= zLength < int.MaxValue, and only the 2 zLength back and front walls at zLength = int.MaxValue, where `zLength + 1` wraps and the left and right loops do not run; ids are not unique: below int.MaxValue the left and right loops both start at -1, and when zLength >= 1 every loop uses id 0 |
| Walls.SideCount | Assets/_Scripts/FloorGenerator.cs:162-181 | the left and right loops each run zLength + 2 times for an int zLength below int.MaxValue (0 times when zLength <= -2), and not at all at int.MaxValue |
| Walls.CreateWallsYaws | Assets/_Scripts/FloorGenerator.cs:166-223 | after CreateWalls every yaw is an earlier one, -90 or 0 |
| Walls.CreateWallsTurns | Assets/_Scripts/FloorGenerator.cs:162-235 | the objects recorded by the back and front loops end at yaw 0; those recorded by the left and right loops end at -90 unless the back or front loop took the same object again; objects CreateWalls does not record keep their yaw, and only recorded objects gain one; this holds with or without a fault |
| Walls.CreateWallsSideYaws | Assets/_Scripts/FloorGenerator.cs:162-197 | with a consistent wall registry every object recorded by the left and right loops ends at yaw -90 |
| Pooling.RegisteredDistinct | Assets/_Scripts/FloorGenerator.cs:86-95 | a record list consistent with its pools never names one object twice |
| Walls.CreateWallsKeepsRegistered | Assets/_Scripts/FloorGenerator.cs:162-235 | the perimeter keeps the wall registry consistent, faulted or not |
| Generator.FloorGenerator.CreateWalls | Assets/_Scripts/FloorGenerator.cs:153-238 | the wall list, wall pools and yaws become those of `CreateWallsSpec`; tiles, enemies and settings are untouched and the class invariant is kept |
| Generator.FloorGenerator.PlaceSideWalls | Assets/_Scripts/FloorGenerator.cs:162-178 | one side loop changes the wall state exactly as `PlaceSide` does and nothing else |
| Generator.FloorGenerator.PlaceWall | Assets/_Scripts/FloorGenerator.cs:164-177 | one loop iteration changes the wall state exactly as `Walls.PlaceWall` does and nothing else |
| Generator.FloorGenerator.ReleaseTiles | Assets/_Scripts/FloorGenerator.cs:327-336 | the pools become `ReleaseAll` of the tile records and the list is cleared; with the invariant no tile is left out in the scene and the invariant still holds; nothing else changes |
| Generator.ReleaseTilesConsistent | Assets/_Scripts/FloorGenerator.cs:327-333 | releasing every tile record keeps the class invariant and empties every tile pool's scene set |
| Generator.FloorGenerator.ReleaseEnemy | Assets/_Scripts/FloorGenerator.cs:359-363 | releases the component's object to the pool it names, then removes exactly list position Id, the others keeping their order; a bad pool index or position faults; with a generated component the removed position is 0; the invariant holds when that position is the released enemy |
| Generator.FloorGenerator.ReleaseEnemiesAll | Assets/_Scripts/FloorGenerator.cs:365-373 | the pools become `ReleaseAll` of the enemy records and the list is cleared; with the invariant no enemy is left out in the scene and the invariant still holds; the components stay |
| Generator.ReleaseEnemiesConsistent | Assets/_Scripts/FloorGenerator.cs:365-373 | releasing every enemy record keeps the class invariant and empties every enemy pool's scene set |

## Left out

- Unity's `ObjectPool` internals are not modelled: the capacity, the maximum size, the `Destroy` of surplus objects and the collection check that throws on a double release. A pool is an unbounded stack.
- Positions, rotations and scales are float geometry and are not modelled. The only part kept is the yaw each object is given.
- The primitive-wall branch of CreateWalls only creates engine objects and records nothing, so the model leaves every field unchanged there.
- The Start lifecycle, the pool setup methods and the inspector attributes are not modelled. Pools exist from construction, and a pool whose catalogue entry is missing faults when it must instantiate.
- Null arrays are not modelled: the catalogues and weight arrays are sequences, so the null check in GetRandomWeightedIndex has no counterpart.
- Weights are exact reals, so float rounding in `s += w / t` is not modelled. With floats the shares of a positive total may sum to slightly less than 1.
- Float overflow of the total is not modelled either. With floats, `t += w` can overflow to +infinity for very large finite weights; every share `w / t` is then 0, and any draw r > 0 returns -1. With exact reals the total is always finite.
- `Random.value` and `Random.Range` are parameters. The model does not capture that the draws are uniform.
- `IsObstacle` is a boolean of each tile archetype. `GetComponent<TileData>` is not modelled.
- `AddComponent<EnemyData>` on a reused enemy adds a second component in the engine. The model keeps one component per object; both have the same object, pool and Id 0.
- The enemy position (`i * 10`, `z * 10`) is geometry and is not modelled.
- Integers are unbounded except in the two sums above. The cell id and the starvation counter (`id++`, `probability++`) are at most the number of tile records, which a .NET list keeps below int.MaxValue, so they cannot wrap before the list fails. The product `xSize * zSize` bounding the spawn draw is not wrapped: the draw is an input here, and the lemmas take its range bound as a parameter.
- Generator.FloorGenerator.ReleaseTiles: requires every record to name an existing pool. Every record the generator appends does, but the exception a record naming a missing pool would raise is not modelled.
- Generator.FloorGenerator.ReleaseEnemiesAll: requires every enemy record to name an existing pool, for the same reason as ReleaseTiles.
- Generator.FloorGenerator.GenerateRoom: requires one draw set per cell and one draw per wall. This is how many draws the loops consume; the draws are inputs here.
