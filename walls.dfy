// The perimeter of FloorGenerator.CreateWalls in prefab mode as a
// specification: four sides, each a loop that selects a wall archetype,
// takes a wall from that pool, turns it and records it with the loop
// counter as its id.
//
// The left and right sides run i = -1 .. zLength, the back and front sides
// i = 0 .. zLength - 1: all four sides are sized by zLength, and xLength
// plays no part in the count. Ids restart on every side.

module Walls {
  import opened WeightedSelection
  import opened Pooling
  import opened Validation
  import opened GridSweep

  /** The generator's settings CreateWalls reads. */
  datatype WallConfig = WallConfig(
    spawnWalls: bool, usePrefabs: bool,
    wallWeights: seq<Weight>, wallPrefabs: seq<Option<Prefab>>,
    zLength: int)

  /** What CreateWalls changes: the wall records, the wall pools, the yaw of each object, and whether it has faulted. */
  datatype WallState = WallState(walls: seq<PoolData>, wallPools: seq<Pool>, yawOf: map<Handle, int>, faulted: bool)

  /** The Random.value draws of the four sides, one per wall. */
  datatype WallDraws = WallDraws(left: seq<real>, right: seq<real>, back: seq<real>, front: seq<real>)

  /** Yaw of the left and right walls (Euler y of -90 degrees). */
  const SideYaw: int := -90

  /** Yaw of the back and front walls. */
  const EndYaw: int := 0

  /**
   * Walls on the left side and on the right side: i from -1 while
   * i < zLength + 1, a C# int sum that wraps to int.MinValue when zLength is
   * int.MaxValue, and then the loop does not run.
   */
  function SideCount(zLength: int): (n: nat)
    ensures IntMin <= zLength < IntMax ==> n == Extent(zLength + 2)
    ensures zLength == IntMax ==> n == 0
  {
    Extent(Wrap32(zLength + 1) + 1)
  }

  /** Walls on the back side and on the front side: i from 0 while i < zLength. */
  function EndCount(zLength: int): nat {
    Extent(zLength)
  }

  /** One draw per wall the four loops place. */
  predicate DrawsFit(dr: WallDraws, zLength: int) {
    |dr.left| == SideCount(zLength) && |dr.right| == SideCount(zLength) &&
    |dr.back| == EndCount(zLength) && |dr.front| == EndCount(zLength)
  }

  /** One wall with loop counter `id`: select, get from the pool (a fault when that throws), turn, record. */
  function PlaceWall(cfg: WallConfig, st: WallState, r: real, yaw: int, id: int): WallState {
    if st.faulted then st
    else
      var wp := SelectIndex(cfg.wallWeights, r);
      if !CanGet(st.wallPools, cfg.wallPrefabs, wp) then st.(faulted := true)
      else
        var g := Get(st.wallPools[wp], WallKind, wp);
        st.(wallPools := st.wallPools[wp := g.pool],
            yawOf := st.yawOf[g.handle := yaw],
            walls := st.walls + [PoolData(g.handle, wp, id)])
  }

  /** One side: the k-th wall uses draw rs[k] and gets id lo + k. */
  function PlaceSide(cfg: WallConfig, st: WallState, lo: int, yaw: int, rs: seq<real>): WallState {
    if rs == [] then st
    else PlaceWall(cfg, PlaceSide(cfg, st, lo, yaw, rs[..|rs| - 1]), rs[|rs| - 1], yaw, lo + |rs| - 1)
  }

  /** The side loop one wall further: its state after n + 1 walls. */
  lemma PlaceSideSnoc(cfg: WallConfig, st: WallState, lo: int, yaw: int, rs: seq<real>, n: nat, id: int)
    requires n < |rs| && id == lo + n
    ensures PlaceSide(cfg, st, lo, yaw, rs[..n + 1]) == PlaceWall(cfg, PlaceSide(cfg, st, lo, yaw, rs[..n]), rs[n], yaw, id)
  {
    assert rs[..n + 1][..n] == rs[..n];
  }

  /** CreateWalls: nothing unless walls are enabled and wall prefabs exist; then left, right, back and front in that order. */
  function CreateWallsSpec(cfg: WallConfig, st: WallState, dr: WallDraws): WallState {
    if !cfg.spawnWalls || !cfg.usePrefabs then st
    else
      var s1 := PlaceSide(cfg, st, -1, SideYaw, dr.left);
      var s2 := PlaceSide(cfg, s1, -1, SideYaw, dr.right);
      var s3 := PlaceSide(cfg, s2, 0, EndYaw, dr.back);
      PlaceSide(cfg, s3, 0, EndYaw, dr.front)
  }

  /** Records from position `w0` on are one side's walls: the k-th has id lo + k and the pool chosen by draw k. */
  predicate SideNumbered(w0: nat, walls: seq<PoolData>, lo: int, ws: seq<Weight>, rs: seq<real>) {
    w0 <= |walls| <= w0 + |rs| &&
    forall j :: w0 <= j < |walls| ==>
      walls[j].id == lo + (j - w0) && walls[j].indexOfPool == SelectIndex(ws, rs[j - w0])
  }

  /** Every yaw in `y` is the one in `y0` or `a` or `b`. */
  predicate YawsAmong(y0: map<Handle, int>, y: map<Handle, int>, a: int, b: int) {
    forall h :: h in y ==> (h in y0 && y[h] == y0[h]) || y[h] == a || y[h] == b
  }

  // ---------------------------------------------------------------------
  // One side.

  /** A faulted state passes through a side unchanged. */
  lemma {:induction false} PlaceSideFaulted(cfg: WallConfig, st: WallState, lo: int, yaw: int, rs: seq<real>)
    requires st.faulted
    ensures PlaceSide(cfg, st, lo, yaw, rs) == st
  {
    if rs != [] {
      PlaceSideFaulted(cfg, st, lo, yaw, rs[..|rs| - 1]);
    }
  }

  /** Once a side faults at wall m, its later walls change nothing. */
  lemma {:induction false} PlaceSideFaultStays(cfg: WallConfig, st: WallState, lo: int, yaw: int, rs: seq<real>, m: nat)
    requires m <= |rs| && PlaceSide(cfg, st, lo, yaw, rs[..m]).faulted
    ensures PlaceSide(cfg, st, lo, yaw, rs) == PlaceSide(cfg, st, lo, yaw, rs[..m])
    decreases |rs| - m
  {
    if m < |rs| {
      var n := |rs| - 1;
      assert rs[..n][..m] == rs[..m];
      PlaceSideFaultStays(cfg, st, lo, yaw, rs[..n], m);
    } else {
      assert rs[..m] == rs;
    }
  }

  /** One wall appends at most its own record, with its id and the selected pool, and sets at most its own yaw. */
  lemma PlaceWallRecords(cfg: WallConfig, st: WallState, r: real, yaw: int, id: int)
    ensures var s := PlaceWall(cfg, st, r, yaw, id);
      s.walls == st.walls ||
      (!st.faulted && |s.walls| == |st.walls| + 1 && s.walls[..|st.walls|] == st.walls &&
       s.walls[|st.walls|].id == id && s.walls[|st.walls|].indexOfPool == SelectIndex(cfg.wallWeights, r))
    ensures var s := PlaceWall(cfg, st, r, yaw, id);
      !s.faulted ==> !st.faulted && |s.walls| == |st.walls| + 1
    ensures YawsAmong(st.yawOf, PlaceWall(cfg, st, r, yaw, id).yawOf, yaw, yaw)
    ensures var s := PlaceWall(cfg, st, r, yaw, id);
      if |s.walls| == |st.walls| then s.yawOf == st.yawOf
      else |s.walls| == |st.walls| + 1 && s.yawOf == st.yawOf[s.walls[|st.walls|].handle := yaw]
  {
    var s := PlaceWall(cfg, st, r, yaw, id);
    if s.walls != st.walls {
      assert s.walls[..|st.walls|] == st.walls;
    }
  }

  /** YawsAmong composes. */
  lemma YawsAmongTrans(y0: map<Handle, int>, y1: map<Handle, int>, y2: map<Handle, int>, a: int, b: int)
    requires YawsAmong(y0, y1, a, b) && YawsAmong(y1, y2, a, b)
    ensures YawsAmong(y0, y2, a, b)
  {
    forall h | h in y2 ensures (h in y0 && y2[h] == y0[h]) || y2[h] == a || y2[h] == b {
      if h in y1 && y2[h] == y1[h] { }
    }
  }

  /** Every handle in `hs` now has yaw `yaw`, every other handle keeps its yaw, and only the handles in `hs` gain one. */
  predicate Turned(y0: map<Handle, int>, y: map<Handle, int>, hs: set<Handle>, yaw: int) {
    y.Keys == y0.Keys + hs &&
    (forall h :: h in hs ==> y[h] == yaw) &&
    (forall h :: h in y0 && h !in hs ==> y[h] == y0[h])
  }

  /** Turning one set of objects and then another to the same yaw turns their union. */
  lemma TurnedTrans(y0: map<Handle, int>, y1: map<Handle, int>, y2: map<Handle, int>, a: set<Handle>, b: set<Handle>, yaw: int)
    requires Turned(y0, y1, a, yaw) && Turned(y1, y2, b, yaw)
    ensures Turned(y0, y2, a + b, yaw)
  {
  }

  /** One wall turns exactly the object it records. */
  lemma PlaceWallTurned(cfg: WallConfig, st: WallState, r: real, yaw: int, id: int)
    ensures var s := PlaceWall(cfg, st, r, yaw, id);
      |st.walls| <= |s.walls| && s.walls[..|st.walls|] == st.walls &&
      Turned(st.yawOf, s.yawOf, HandlesOf(s.walls[|st.walls|..]), yaw)
  {
    PlaceWallRecords(cfg, st, r, yaw, id);
    var s := PlaceWall(cfg, st, r, yaw, id);
    if |s.walls| == |st.walls| {
      assert s.walls[|st.walls|..] == [];
    } else {
      assert s.walls[|st.walls|..] == [s.walls[|st.walls|]];
      assert HandlesOf([s.walls[|st.walls|]]) == {s.walls[|st.walls|].handle};
    }
  }

  /** A side turns exactly the objects it records, all to the side's yaw. */
  lemma {:induction false} PlaceSideTurned(cfg: WallConfig, st: WallState, lo: int, yaw: int, rs: seq<real>)
    ensures var s := PlaceSide(cfg, st, lo, yaw, rs);
      |st.walls| <= |s.walls| && s.walls[..|st.walls|] == st.walls &&
      Turned(st.yawOf, s.yawOf, HandlesOf(s.walls[|st.walls|..]), yaw)
  {
    if rs == [] {
      assert st.walls[|st.walls|..] == [] && st.walls[..|st.walls|] == st.walls;
    } else {
      var n := |rs| - 1;
      PlaceSideTurned(cfg, st, lo, yaw, rs[..n]);
      var prev := PlaceSide(cfg, st, lo, yaw, rs[..n]);
      var s := PlaceWall(cfg, prev, rs[n], yaw, lo + n);
      assert PlaceSide(cfg, st, lo, yaw, rs) == s;
      PlaceWallTurned(cfg, prev, rs[n], yaw, lo + n);
      var a := prev.walls[|st.walls|..];
      var b := s.walls[|prev.walls|..];
      assert s.walls[..|st.walls|] == prev.walls[..|st.walls|];
      assert s.walls[|st.walls|..] == a + b;
      HandlesOfConcat(a, b);
      TurnedTrans(st.yawOf, prev.yawOf, s.yawOf, HandlesOf(a), HandlesOf(b), yaw);
    }
  }

  /**
   * A side appends one record per wall it places, all of them unless it
   * faults, numbered lo, lo + 1, ... with the pool each draw selects;
   * earlier records are untouched, and every yaw it sets is the side's.
   */
  lemma {:induction false} PlaceSideRecords(cfg: WallConfig, st: WallState, lo: int, yaw: int, rs: seq<real>)
    ensures var s := PlaceSide(cfg, st, lo, yaw, rs);
      |st.walls| <= |s.walls| && s.walls[..|st.walls|] == st.walls &&
      (!s.faulted ==> !st.faulted && |s.walls| == |st.walls| + |rs|)
    ensures SideNumbered(|st.walls|, PlaceSide(cfg, st, lo, yaw, rs).walls, lo, cfg.wallWeights, rs)
    ensures YawsAmong(st.yawOf, PlaceSide(cfg, st, lo, yaw, rs).yawOf, yaw, yaw)
  {
    if rs == [] {
      assert st.walls[..|st.walls|] == st.walls;
    } else {
      var n := |rs| - 1;
      PlaceSideRecords(cfg, st, lo, yaw, rs[..n]);
      var prev := PlaceSide(cfg, st, lo, yaw, rs[..n]);
      var s := PlaceSide(cfg, st, lo, yaw, rs);
      assert s == PlaceWall(cfg, prev, rs[n], yaw, lo + n);
      PlaceWallRecords(cfg, prev, rs[n], yaw, lo + n);
      SideStep(st.walls, prev.walls, s.walls, lo, cfg.wallWeights, rs, prev.faulted, s.faulted);
      YawsAmongTrans(st.yawOf, prev.yawOf, s.yawOf, yaw, yaw);
    }
  }

  /** The inductive step of PlaceSideRecords, on the record lists alone. */
  lemma SideStep(w0: seq<PoolData>, prev: seq<PoolData>, s: seq<PoolData>, lo: int, ws: seq<Weight>, rs: seq<real>,
                 prevFaulted: bool, sFaulted: bool)
    requires |rs| > 0
    requires |w0| <= |prev| && prev[..|w0|] == w0 && SideNumbered(|w0|, prev, lo, ws, rs[..|rs| - 1])
    requires !prevFaulted ==> |prev| == |w0| + |rs| - 1
    requires s == prev ||
      (!prevFaulted && |s| == |prev| + 1 && s[..|prev|] == prev &&
       s[|prev|].id == lo + |rs| - 1 && s[|prev|].indexOfPool == SelectIndex(ws, rs[|rs| - 1]))
    requires !sFaulted ==> !prevFaulted && |s| == |prev| + 1
    ensures |w0| <= |s| && s[..|w0|] == w0 && (!sFaulted ==> |s| == |w0| + |rs|)
    ensures SideNumbered(|w0|, s, lo, ws, rs)
  {
    var n := |rs| - 1;
    if s != prev {
      assert s[..|w0|] == prev[..|w0|];
    }
    forall j | |w0| <= j < |s|
      ensures s[j].id == lo + (j - |w0|) && s[j].indexOfPool == SelectIndex(ws, rs[j - |w0|])
    {
      if j < |prev| {
        assert s[j] == prev[j];
        assert rs[..n][j - |w0|] == rs[j - |w0|];
      }
    }
  }

  /** A side keeps the wall registry consistent. */
  lemma {:induction false} PlaceSideKeepsRegistered(cfg: WallConfig, st: WallState, lo: int, yaw: int, rs: seq<real>)
    requires Registered(st.walls, st.wallPools, WallKind)
    ensures var s := PlaceSide(cfg, st, lo, yaw, rs);
      Registered(s.walls, s.wallPools, WallKind)
  {
    if rs != [] {
      var n := |rs| - 1;
      PlaceSideKeepsRegistered(cfg, st, lo, yaw, rs[..n]);
      var prev := PlaceSide(cfg, st, lo, yaw, rs[..n]);
      PlaceWallKeepsRegistered(cfg, prev, rs[n], yaw, lo + n, PlaceSide(cfg, st, lo, yaw, rs));
    }
  }

  /** One wall keeps the wall registry consistent. */
  lemma PlaceWallKeepsRegistered(cfg: WallConfig, st: WallState, r: real, yaw: int, id: int, s: WallState)
    requires Registered(st.walls, st.wallPools, WallKind) && s == PlaceWall(cfg, st, r, yaw, id)
    ensures Registered(s.walls, s.wallPools, WallKind)
  {
    var wp := SelectIndex(cfg.wallWeights, r);
    if !st.faulted && CanGet(st.wallPools, cfg.wallPrefabs, wp) {
      AppendKeepsRegistered(st.walls, st.wallPools, WallKind, wp, id);
    }
  }

  // ---------------------------------------------------------------------
  // The whole perimeter.

  /** With walls disabled, or with no wall prefabs (the primitive branch, which records nothing), CreateWalls changes no record, pool or yaw. */
  lemma CreateWallsOff(cfg: WallConfig, st: WallState, dr: WallDraws)
    requires !cfg.spawnWalls || !cfg.usePrefabs
    ensures CreateWallsSpec(cfg, st, dr) == st
  {
  }

  /**
   * The records `w` after the perimeter, from records `w0`: the earlier
   * records kept and, unless faulted, l left walls numbered from -1, l right
   * walls numbered from -1, b back walls numbered from 0 and b front walls
   * numbered from 0, each with the pool its draw selects.
   */
  predicate Perimeter(w0: seq<PoolData>, f0: bool, w: seq<PoolData>, f: bool, l: nat, b: nat, ws: seq<Weight>, dr: WallDraws) {
    |w0| <= |w| && w[..|w0|] == w0 &&
    (!f ==>
      !f0 && |w| == |w0| + 2 * l + 2 * b &&
      SideNumbered(|w0|, w[..|w0| + l], -1, ws, dr.left) &&
      SideNumbered(|w0| + l, w[..|w0| + 2 * l], -1, ws, dr.right) &&
      SideNumbered(|w0| + 2 * l, w[..|w0| + 2 * l + b], 0, ws, dr.back) &&
      SideNumbered(|w0| + 2 * l + b, w, 0, ws, dr.front))
  }

  /**
   * In prefab mode CreateWalls appends zLength + 2 walls for the left side
   * and for the right side with ids -1 .. zLength, then zLength walls for
   * the back side and for the front side with ids 0 .. zLength - 1.
   */
  lemma CreateWallsRecords(cfg: WallConfig, st: WallState, dr: WallDraws)
    requires cfg.spawnWalls && cfg.usePrefabs && DrawsFit(dr, cfg.zLength)
    ensures var s := CreateWallsSpec(cfg, st, dr);
      Perimeter(st.walls, st.faulted, s.walls, s.faulted, SideCount(cfg.zLength), EndCount(cfg.zLength), cfg.wallWeights, dr)
  {
    var s1 := PlaceSide(cfg, st, -1, SideYaw, dr.left);
    var s2 := PlaceSide(cfg, s1, -1, SideYaw, dr.right);
    var s3 := PlaceSide(cfg, s2, 0, EndYaw, dr.back);
    var s := PlaceSide(cfg, s3, 0, EndYaw, dr.front);
    assert CreateWallsSpec(cfg, st, dr) == s;
    PlaceSideRecords(cfg, st, -1, SideYaw, dr.left);
    PlaceSideRecords(cfg, s1, -1, SideYaw, dr.right);
    PlaceSideRecords(cfg, s2, 0, EndYaw, dr.back);
    PlaceSideRecords(cfg, s3, 0, EndYaw, dr.front);
    FourSides(st.walls, s1.walls, s2.walls, s3.walls, s.walls, SideCount(cfg.zLength), EndCount(cfg.zLength),
              cfg.wallWeights, dr, s1.faulted, s2.faulted, s3.faulted, s.faulted, st.faulted);
  }

  /** The four sides of CreateWallsRecords joined, on the record lists alone. */
  lemma FourSides(w0: seq<PoolData>, w1: seq<PoolData>, w2: seq<PoolData>, w3: seq<PoolData>, w: seq<PoolData>,
                  l: nat, b: nat, ws: seq<Weight>, dr: WallDraws, f1: bool, f2: bool, f3: bool, f: bool, f0: bool)
    requires |dr.left| == l && |dr.right| == l && |dr.back| == b && |dr.front| == b
    requires |w0| <= |w1| && w1[..|w0|] == w0 && (!f1 ==> !f0 && |w1| == |w0| + l)
    requires |w1| <= |w2| && w2[..|w1|] == w1 && (!f2 ==> !f1 && |w2| == |w1| + l)
    requires |w2| <= |w3| && w3[..|w2|] == w2 && (!f3 ==> !f2 && |w3| == |w2| + b)
    requires |w3| <= |w| && w[..|w3|] == w3 && (!f ==> !f3 && |w| == |w3| + b)
    requires SideNumbered(|w0|, w1, -1, ws, dr.left) && SideNumbered(|w1|, w2, -1, ws, dr.right)
    requires SideNumbered(|w2|, w3, 0, ws, dr.back) && SideNumbered(|w3|, w, 0, ws, dr.front)
    ensures Perimeter(w0, f0, w, f, l, b, ws, dr)
  {
    assert w[..|w2|] == w2 by {
      assert w[..|w2|] == w[..|w3|][..|w2|];
    }
    assert w[..|w1|] == w1 by {
      assert w[..|w1|] == w[..|w2|][..|w1|];
    }
    assert w[..|w0|] == w0 by {
      assert w[..|w0|] == w[..|w1|][..|w0|];
    }
  }

  /**
   * Wall ids are not unique: the first left and the first right wall both
   * have id -1, and, once zLength >= 1, the first back and the first front
   * wall both have id 0, the id of the second left wall.
   */
  lemma CreateWallsIdsCollide(cfg: WallConfig, st: WallState, dr: WallDraws)
    requires cfg.spawnWalls && cfg.usePrefabs && DrawsFit(dr, cfg.zLength)
    requires !CreateWallsSpec(cfg, st, dr).faulted && cfg.zLength >= -1
    ensures var s := CreateWallsSpec(cfg, st, dr);
      var w0 := |st.walls|;
      var l := SideCount(cfg.zLength);
      var b := EndCount(cfg.zLength);
      |s.walls| == w0 + 2 * l + 2 * b &&
      (cfg.zLength == IntMax ==> |s.walls| == w0 + 2 * b) &&
      (cfg.zLength < IntMax ==> s.walls[w0].id == -1 && s.walls[w0 + l].id == -1) &&
      (1 <= cfg.zLength < IntMax ==>
        s.walls[w0 + 1].id == 0 && s.walls[w0 + 2 * l].id == 0 && s.walls[w0 + 2 * l + b].id == 0)
  {
    CreateWallsRecords(cfg, st, dr);
    var s := CreateWallsSpec(cfg, st, dr);
    var w0 := |st.walls|;
    var l := SideCount(cfg.zLength);
    var b := EndCount(cfg.zLength);
    if cfg.zLength < IntMax {
      assert s.walls[..w0 + l][w0] == s.walls[w0];
      assert s.walls[..w0 + 2 * l][w0 + l] == s.walls[w0 + l];
    }
    if 1 <= cfg.zLength < IntMax {
      assert s.walls[..w0 + l][w0 + 1] == s.walls[w0 + 1];
      assert s.walls[..w0 + 2 * l + b][w0 + 2 * l] == s.walls[w0 + 2 * l];
    }
  }

  /** Left and right walls are turned -90 degrees, back and front walls 0. */
  lemma CreateWallsYaws(cfg: WallConfig, st: WallState, dr: WallDraws)
    ensures YawsAmong(st.yawOf, CreateWallsSpec(cfg, st, dr).yawOf, SideYaw, EndYaw)
  {
    if cfg.spawnWalls && cfg.usePrefabs {
      var s1 := PlaceSide(cfg, st, -1, SideYaw, dr.left);
      var s2 := PlaceSide(cfg, s1, -1, SideYaw, dr.right);
      var s3 := PlaceSide(cfg, s2, 0, EndYaw, dr.back);
      PlaceSideRecords(cfg, st, -1, SideYaw, dr.left);
      PlaceSideRecords(cfg, s1, -1, SideYaw, dr.right);
      PlaceSideRecords(cfg, s2, 0, EndYaw, dr.back);
      PlaceSideRecords(cfg, s3, 0, EndYaw, dr.front);
    }
  }

  /** Where the side walls end in the wall list: after 2l records, or where a fault stopped the list. */
  function SidesEnd(w0: nat, l: nat, len: nat): nat {
    if len < w0 + 2 * l then len else w0 + 2 * l
  }

  /** Turning `a` to `x` and then `b` to `y`: `b` ends at `y`, the rest of `a` at `x`, everything else as it was. */
  predicate TurnedTwice(y0: map<Handle, int>, y: map<Handle, int>, a: set<Handle>, x: int, b: set<Handle>, yy: int) {
    y.Keys == y0.Keys + a + b &&
    (forall h :: h in b ==> y[h] == yy) &&
    (forall h :: h in a && h !in b ==> y[h] == x) &&
    (forall h :: h in y0 && h !in a && h !in b ==> y[h] == y0[h])
  }

  lemma TurnedThen(y0: map<Handle, int>, y1: map<Handle, int>, y2: map<Handle, int>, a: set<Handle>, x: int, b: set<Handle>, yy: int)
    requires Turned(y0, y1, a, x) && Turned(y1, y2, b, yy)
    ensures TurnedTwice(y0, y2, a, x, b, yy)
  {
  }

  /**
   * CreateWalls turns exactly the walls it records: the walls recorded by
   * the back and front loops end at yaw 0, those recorded by the left and
   * right loops at -90 unless the same object was taken again for the back
   * or front, and every other object keeps its yaw.
   */
  lemma CreateWallsTurns(cfg: WallConfig, st: WallState, dr: WallDraws)
    requires DrawsFit(dr, cfg.zLength)
    ensures var s := CreateWallsSpec(cfg, st, dr);
      var m := SidesEnd(|st.walls|, SideCount(cfg.zLength), |s.walls|);
      |st.walls| <= m <= |s.walls| && s.walls[..|st.walls|] == st.walls &&
      TurnedTwice(st.yawOf, s.yawOf, HandlesOf(s.walls[|st.walls|..m]), SideYaw, HandlesOf(s.walls[m..]), EndYaw)
  {
    var w0 := |st.walls|;
    var l := SideCount(cfg.zLength);
    if !cfg.spawnWalls || !cfg.usePrefabs {
      assert st.walls[w0..w0] == [] && st.walls[w0..] == [] && st.walls[..w0] == st.walls;
    } else {
      var s1 := PlaceSide(cfg, st, -1, SideYaw, dr.left);
      var s2 := PlaceSide(cfg, s1, -1, SideYaw, dr.right);
      var s3 := PlaceSide(cfg, s2, 0, EndYaw, dr.back);
      var s4 := PlaceSide(cfg, s3, 0, EndYaw, dr.front);
      SidesTurned(cfg, st, dr.left, dr.right);
      EndsTurned(cfg, s2, dr.back, dr.front);
      SidesEndAt(cfg, st, dr);
      var m := SidesEnd(w0, l, |s4.walls|);
      assert |s2.walls| == m;
      assert s4.walls[..m] == s2.walls;
      assert s4.walls[w0..m] == s2.walls[w0..];
      assert s4.walls[..w0] == st.walls;
      TurnedThen(st.yawOf, s2.yawOf, s4.yawOf, HandlesOf(s2.walls[w0..]), SideYaw, HandlesOf(s4.walls[m..]), EndYaw);
    }
  }

  /** The left then the right loop turn exactly the walls they record, to -90. */
  lemma SidesTurned(cfg: WallConfig, st: WallState, left: seq<real>, right: seq<real>)
    ensures var s1 := PlaceSide(cfg, st, -1, SideYaw, left);
      var s2 := PlaceSide(cfg, s1, -1, SideYaw, right);
      |st.walls| <= |s2.walls| && s2.walls[..|st.walls|] == st.walls &&
      Turned(st.yawOf, s2.yawOf, HandlesOf(s2.walls[|st.walls|..]), SideYaw)
  {
    var s1 := PlaceSide(cfg, st, -1, SideYaw, left);
    var s2 := PlaceSide(cfg, s1, -1, SideYaw, right);
    PlaceSideTurned(cfg, st, -1, SideYaw, left);
    PlaceSideTurned(cfg, s1, -1, SideYaw, right);
    var a := s1.walls[|st.walls|..];
    var b := s2.walls[|s1.walls|..];
    assert s2.walls[..|st.walls|] == s1.walls[..|st.walls|];
    assert s2.walls[|st.walls|..] == a + b;
    HandlesOfConcat(a, b);
    TurnedTrans(st.yawOf, s1.yawOf, s2.yawOf, HandlesOf(a), HandlesOf(b), SideYaw);
  }

  /** The back then the front loop turn exactly the walls they record, to 0. */
  lemma EndsTurned(cfg: WallConfig, st: WallState, back: seq<real>, front: seq<real>)
    ensures var s3 := PlaceSide(cfg, st, 0, EndYaw, back);
      var s4 := PlaceSide(cfg, s3, 0, EndYaw, front);
      |st.walls| <= |s4.walls| && s4.walls[..|st.walls|] == st.walls &&
      Turned(st.yawOf, s4.yawOf, HandlesOf(s4.walls[|st.walls|..]), EndYaw)
  {
    var s3 := PlaceSide(cfg, st, 0, EndYaw, back);
    var s4 := PlaceSide(cfg, s3, 0, EndYaw, front);
    PlaceSideTurned(cfg, st, 0, EndYaw, back);
    PlaceSideTurned(cfg, s3, 0, EndYaw, front);
    var a := s3.walls[|st.walls|..];
    var b := s4.walls[|s3.walls|..];
    assert s4.walls[..|st.walls|] == s3.walls[..|st.walls|];
    assert s4.walls[|st.walls|..] == a + b;
    HandlesOfConcat(a, b);
    TurnedTrans(st.yawOf, s3.yawOf, s4.yawOf, HandlesOf(a), HandlesOf(b), EndYaw);
  }

  /** The side walls end where SidesEnd says: after both side loops, or at the fault that ends the method. */
  lemma SidesEndAt(cfg: WallConfig, st: WallState, dr: WallDraws)
    requires DrawsFit(dr, cfg.zLength)
    ensures var s1 := PlaceSide(cfg, st, -1, SideYaw, dr.left);
      var s2 := PlaceSide(cfg, s1, -1, SideYaw, dr.right);
      var s4 := PlaceSide(cfg, PlaceSide(cfg, s2, 0, EndYaw, dr.back), 0, EndYaw, dr.front);
      |s2.walls| <= |s4.walls| && s4.walls[..|s2.walls|] == s2.walls &&
      |s2.walls| == SidesEnd(|st.walls|, SideCount(cfg.zLength), |s4.walls|)
  {
    var l := SideCount(cfg.zLength);
    var s1 := PlaceSide(cfg, st, -1, SideYaw, dr.left);
    var s2 := PlaceSide(cfg, s1, -1, SideYaw, dr.right);
    var s3 := PlaceSide(cfg, s2, 0, EndYaw, dr.back);
    var s4 := PlaceSide(cfg, s3, 0, EndYaw, dr.front);
    PlaceSideRecords(cfg, st, -1, SideYaw, dr.left);
    PlaceSideRecords(cfg, s1, -1, SideYaw, dr.right);
    EndsTurned(cfg, s2, dr.back, dr.front);
    if s2.faulted {
      PlaceSideFaulted(cfg, s2, 0, EndYaw, dr.back);
      PlaceSideFaulted(cfg, s3, 0, EndYaw, dr.front);
    }
  }

  /**
   * With a consistent wall registry no object is taken twice, so every
   * wall the left and right loops record ends at -90.
   */
  lemma CreateWallsSideYaws(cfg: WallConfig, st: WallState, dr: WallDraws)
    requires DrawsFit(dr, cfg.zLength) && Registered(st.walls, st.wallPools, WallKind)
    ensures var s := CreateWallsSpec(cfg, st, dr);
      var m := SidesEnd(|st.walls|, SideCount(cfg.zLength), |s.walls|);
      |st.walls| <= m <= |s.walls| &&
      forall h :: h in HandlesOf(s.walls[|st.walls|..m]) ==> h in s.yawOf && s.yawOf[h] == SideYaw
  {
    var s := CreateWallsSpec(cfg, st, dr);
    var w0 := |st.walls|;
    var m := SidesEnd(w0, SideCount(cfg.zLength), |s.walls|);
    CreateWallsTurns(cfg, st, dr);
    CreateWallsKeepsRegistered(cfg, st, dr);
    HandlesSplitDisjoint(s.walls, s.wallPools, w0, m);
    TurnedTwiceFirst(st.yawOf, s.yawOf, HandlesOf(s.walls[w0..m]), SideYaw, HandlesOf(s.walls[m..]), EndYaw);
  }

  /** With `a` and `b` disjoint, every handle of `a` ends at the first yaw. */
  lemma TurnedTwiceFirst(y0: map<Handle, int>, y: map<Handle, int>, a: set<Handle>, x: int, b: set<Handle>, yy: int)
    requires TurnedTwice(y0, y, a, x, b, yy) && a !! b
    ensures forall h :: h in a ==> h in y && y[h] == x
  {
  }

  /** The objects named before and after position m of a consistent record list are disjoint. */
  lemma HandlesSplitDisjoint(w: seq<PoolData>, pools: seq<Pool>, lo: nat, m: nat)
    requires Registered(w, pools, WallKind) && lo <= m <= |w|
    ensures HandlesOf(w[lo..m]) !! HandlesOf(w[m..])
  {
    forall h | h in HandlesOf(w[lo..m]) ensures h !in HandlesOf(w[m..]) {
      var k :| 0 <= k < |w[lo..m]| && w[lo..m][k].handle == h;
      if h in HandlesOf(w[m..]) {
        var k2 :| 0 <= k2 < |w[m..]| && w[m..][k2].handle == h;
        RegisteredDistinct(w, pools, WallKind, lo + k, m + k2);
      }
    }
  }

  /** CreateWalls keeps the wall registry consistent. */
  lemma CreateWallsKeepsRegistered(cfg: WallConfig, st: WallState, dr: WallDraws)
    requires Registered(st.walls, st.wallPools, WallKind)
    ensures var s := CreateWallsSpec(cfg, st, dr);
      Registered(s.walls, s.wallPools, WallKind)
  {
    if cfg.spawnWalls && cfg.usePrefabs {
      var s1 := PlaceSide(cfg, st, -1, SideYaw, dr.left);
      var s2 := PlaceSide(cfg, s1, -1, SideYaw, dr.right);
      var s3 := PlaceSide(cfg, s2, 0, EndYaw, dr.back);
      PlaceSideKeepsRegistered(cfg, st, -1, SideYaw, dr.left);
      PlaceSideKeepsRegistered(cfg, s1, -1, SideYaw, dr.right);
      PlaceSideKeepsRegistered(cfg, s2, 0, EndYaw, dr.back);
      PlaceSideKeepsRegistered(cfg, s3, 0, EndYaw, dr.front);
    }
  }
}
