// Object pools and the placement registry of FloorGenerator.
//
// A game object is an opaque `Handle`. Each archetype has one pool that
// hands handles out (`Get`) and takes them back (`Release`); a pool keeps
// released handles on a stack and reuses the most recently released one
// before it creates a new one. The generator records every handle it holds
// in a `PoolData` list per category (tiles, enemies, walls).

module Pooling {

  /** The three archetype categories, each with its own pools. */
  datatype Kind = TileKind | EnemyKind | WallKind

  /** An engine object, named by the pool that created it and a serial number. */
  datatype Handle = Handle(kind: Kind, pool: int, serial: nat)

  /** A pool: the stack of released (inactive) handles, the multiset of handles out in the scene, and how many it has created. */
  datatype Pool = Pool(idle: seq<Handle>, lent: multiset<Handle>, created: nat)

  /** The `PoolData` record: the object, the index of its pool, and an identifier. */
  datatype PoolData = PoolData(handle: Handle, indexOfPool: int, id: int)

  /** The `EnemyData` component attached to a spawned enemy. */
  datatype EnemyData = EnemyData(enemy: Handle, indexOfPool: int, id: int)

  /** The result of `Get`: the pool afterwards and the handle handed out. */
  datatype Got = Got(pool: Pool, handle: Handle)

  function EmptyPool(): Pool {
    Pool([], multiset{}, 0)
  }

  function EmptyPools(n: nat): (ps: seq<Pool>)
    ensures |ps| == n && forall p :: 0 <= p < n ==> ps[p] == EmptyPool()
  {
    seq(n, _ => EmptyPool())
  }

  /** Every handle pool `index` of `kind` has created: serials 0 .. n-1, once each. */
  function Minted(kind: Kind, index: int, n: nat): multiset<Handle> {
    if n == 0 then multiset{} else Minted(kind, index, n - 1) + multiset{Handle(kind, index, n - 1)}
  }

  /** Each handle the pool has created is either on its idle stack or out in the scene, exactly once. */
  ghost predicate PoolValid(p: Pool, kind: Kind, index: int) {
    multiset(p.idle) + p.lent == Minted(kind, index, p.created)
  }

  lemma {:induction false} MintedShape(kind: Kind, index: int, n: nat, h: Handle)
    ensures h in Minted(kind, index, n) <==> (h.kind == kind && h.pool == index && h.serial < n)
    ensures Minted(kind, index, n)[h] <= 1
  {
    if n > 0 {
      MintedShape(kind, index, n - 1, h);
    }
  }

  /**
   * ObjectPool.Get: pop the most recently released handle, or create a new
   * one when the stack is empty; either way the handle is now out in the scene.
   */
  function Get(p: Pool, kind: Kind, index: int): (g: Got)
    ensures g.pool.lent == p.lent + multiset{g.handle}
    ensures |p.idle| > 0 ==> g.handle == p.idle[|p.idle| - 1] && g.pool.idle == p.idle[..|p.idle| - 1]
    ensures |p.idle| == 0 ==> g.handle == Handle(kind, index, p.created) && g.pool.created == p.created + 1
  {
    if |p.idle| > 0 then
      var h := p.idle[|p.idle| - 1];
      Got(Pool(p.idle[..|p.idle| - 1], p.lent + multiset{h}, p.created), h)
    else
      var h := Handle(kind, index, p.created);
      Got(Pool(p.idle, p.lent + multiset{h}, p.created + 1), h)
  }

  /** ObjectPool.Release: the handle leaves the scene and goes on top of the idle stack. */
  function Release(p: Pool, h: Handle): (q: Pool)
    ensures q.idle == p.idle + [h] && q.created == p.created
    ensures h in p.lent ==> q.lent + multiset{h} == p.lent
  {
    Pool(p.idle + [h], p.lent - multiset{h}, p.created)
  }

  /** Get hands out a handle of this pool that is not already out, and keeps the pool's bookkeeping. */
  lemma GetKeepsValid(p: Pool, kind: Kind, index: int)
    requires PoolValid(p, kind, index)
    ensures var g := Get(p, kind, index);
      PoolValid(g.pool, kind, index) && g.handle !in p.lent &&
      g.handle.kind == kind && g.handle.pool == index
  {
    if |p.idle| > 0 {
      GetReusedKeepsValid(p, kind, index);
    } else {
      GetCreatedKeepsValid(p, kind, index);
    }
  }

  lemma GetReusedKeepsValid(p: Pool, kind: Kind, index: int)
    requires PoolValid(p, kind, index) && |p.idle| > 0
    ensures var h := p.idle[|p.idle| - 1];
      PoolValid(Pool(p.idle[..|p.idle| - 1], p.lent + multiset{h}, p.created), kind, index) &&
      h !in p.lent && h.kind == kind && h.pool == index
  {
    var n := |p.idle| - 1;
    var h := p.idle[n];
    MintedShape(kind, index, p.created, h);
    assert multiset(p.idle) == multiset(p.idle[..n]) + multiset{h} by {
      assert p.idle == p.idle[..n] + [h];
    }
    assert (multiset(p.idle) + p.lent)[h] == multiset(p.idle)[h] + p.lent[h];
  }

  lemma GetCreatedKeepsValid(p: Pool, kind: Kind, index: int)
    requires PoolValid(p, kind, index) && |p.idle| == 0
    ensures var h := Handle(kind, index, p.created);
      PoolValid(Pool(p.idle, p.lent + multiset{h}, p.created + 1), kind, index) && h !in p.lent
  {
    var h := Handle(kind, index, p.created);
    MintedShape(kind, index, p.created, h);
    assert (multiset(p.idle) + p.lent)[h] == 0;
  }

  /** Releasing a handle that is out in the scene keeps the pool's bookkeeping. */
  lemma ReleaseKeepsValid(p: Pool, kind: Kind, index: int, h: Handle)
    requires PoolValid(p, kind, index) && h in p.lent
    ensures PoolValid(Release(p, h), kind, index)
  {
    var q := Release(p, h);
    assert multiset(q.idle) == multiset(p.idle) + multiset{h};
  }

  /** Release undoes Get, and Get after Release hands the same handle back (the idle stack is LIFO). */
  lemma GetReleaseInverse(p: Pool, kind: Kind, index: int, h: Handle)
    ensures var g := Get(p, kind, index);
      Release(g.pool, g.handle).lent == p.lent
    ensures h in p.lent ==> Get(Release(p, h), kind, index) == Got(p, h)
  {
    var g := Get(p, kind, index);
    assert Release(g.pool, g.handle).lent == (p.lent + multiset{g.handle}) - multiset{g.handle};
    if h in p.lent {
      var q := Release(p, h);
      assert q.idle[|q.idle| - 1] == h && q.idle[..|q.idle| - 1] == p.idle;
      assert q.lent + multiset{h} == p.lent;
      assert Get(q, kind, index) == Got(Pool(p.idle, q.lent + multiset{h}, p.created), h);
    }
  }

  // ---------------------------------------------------------------------
  // The registry: record lists and the pools they point into.

  /** The handles that `records` attribute to pool `p`. */
  function LentOf(records: seq<PoolData>, p: int): multiset<Handle> {
    if records == [] then multiset{}
    else
      var last := records[|records| - 1];
      LentOf(records[..|records| - 1], p) + (if last.indexOfPool == p then multiset{last.handle} else multiset{})
  }

  /** Every record names an existing pool. */
  predicate WellIndexed(records: seq<PoolData>, pools: seq<Pool>) {
    forall k :: 0 <= k < |records| ==> 0 <= records[k].indexOfPool < |pools|
  }

  /** Every pool is internally consistent, and the handles it has out are exactly those the records name. */
  ghost predicate Registered(records: seq<PoolData>, pools: seq<Pool>, kind: Kind) {
    WellIndexed(records, pools) &&
    forall p :: 0 <= p < |pools| ==> PoolValid(pools[p], kind, p) && pools[p].lent == LentOf(records, p)
  }

  lemma {:induction false} LentOfConcat(a: seq<PoolData>, b: seq<PoolData>, p: int)
    ensures LentOf(a + b, p) == LentOf(a, p) + LentOf(b, p)
    decreases |b|
  {
    if b != [] {
      var n := |b| - 1;
      assert (a + b)[..|a + b| - 1] == a + b[..n];
      LentOfConcat(a, b[..n], p);
    } else {
      assert a + b == a;
    }
  }

  /** The handles of pool `p` that remain after removing position `k`. */
  lemma LentOfRemoveAt(records: seq<PoolData>, k: nat, p: int)
    requires k < |records|
    ensures LentOf(records[..k] + records[k + 1..], p) ==
      LentOf(records, p) - (if records[k].indexOfPool == p then multiset{records[k].handle} else multiset{})
  {
    assert records == records[..k] + [records[k]] + records[k + 1..];
    LentOfConcat(records[..k] + [records[k]], records[k + 1..], p);
    LentOfConcat(records[..k], [records[k]], p);
    LentOfConcat(records[..k], records[k + 1..], p);
    assert [records[k]][..0] == [];
  }

  /** Appending the record of a handle just taken from pool `p` keeps the registry consistent. */
  lemma AppendKeepsRegistered(records: seq<PoolData>, pools: seq<Pool>, kind: Kind, p: int, id: int)
    requires Registered(records, pools, kind) && 0 <= p < |pools|
    ensures var g := Get(pools[p], kind, p);
      Registered(records + [PoolData(g.handle, p, id)], pools[p := g.pool], kind)
  {
    var g := Get(pools[p], kind, p);
    var recs' := records + [PoolData(g.handle, p, id)];
    var ps := pools[p := g.pool];
    assert recs'[..|recs'| - 1] == records;
    forall j | 0 <= j < |recs'| ensures 0 <= recs'[j].indexOfPool < |ps| {
      if j < |records| {
        assert recs'[j] == records[j];
      }
    }
    forall q | 0 <= q < |ps| ensures PoolValid(ps[q], kind, q) && ps[q].lent == LentOf(recs', q) {
      AppendKeepsPool(records, pools, kind, p, id, q);
    }
  }

  lemma AppendKeepsPool(records: seq<PoolData>, pools: seq<Pool>, kind: Kind, p: int, id: int, q: int)
    requires Registered(records, pools, kind) && 0 <= p < |pools| && 0 <= q < |pools|
    ensures var g := Get(pools[p], kind, p);
      var recs' := records + [PoolData(g.handle, p, id)];
      PoolValid(pools[p := g.pool][q], kind, q) && pools[p := g.pool][q].lent == LentOf(recs', q)
  {
    var g := Get(pools[p], kind, p);
    var recs' := records + [PoolData(g.handle, p, id)];
    assert recs'[..|recs'| - 1] == records;
    assert PoolValid(pools[q], kind, q) && pools[q].lent == LentOf(records, q);
    if q == p {
      GetKeepsValid(pools[p], kind, p);
    }
  }

  // ---------------------------------------------------------------------
  // Bulk release (ReleaseTiles, ReleaseEnemiesAll).

  /** Release every record's handle to the pool it names, in list order. */
  function ReleaseAll(pools: seq<Pool>, records: seq<PoolData>): (ps: seq<Pool>)
    requires WellIndexed(records, pools)
    ensures |ps| == |pools|
  {
    if records == [] then pools
    else
      var last := records[|records| - 1];
      var ps := ReleaseAll(pools, records[..|records| - 1]);
      ps[last.indexOfPool := Release(ps[last.indexOfPool], last.handle)]
  }

  /** After releasing `records`, each pool has had their handles taken out of the scene and pushed on its stack. */
  lemma {:induction false} ReleaseAllEffect(pools: seq<Pool>, records: seq<PoolData>, p: nat)
    requires WellIndexed(records, pools) && p < |pools|
    ensures var ps := ReleaseAll(pools, records);
      ps[p].lent == pools[p].lent - LentOf(records, p) &&
      multiset(ps[p].idle) == multiset(pools[p].idle) + LentOf(records, p) &&
      ps[p].created == pools[p].created
  {
    if records != [] {
      var n := |records| - 1;
      var prev := records[..n];
      var h := records[n].handle;
      ReleaseAllEffect(pools, prev, p);
      var ps := ReleaseAll(pools, prev);
      assert ReleaseAll(pools, records) == ps[records[n].indexOfPool := Release(ps[records[n].indexOfPool], h)];
      if records[n].indexOfPool == p {
        assert LentOf(records, p) == LentOf(prev, p) + multiset{h};
        assert multiset(ps[p].idle + [h]) == multiset(ps[p].idle) + multiset{h};
      } else {
        assert LentOf(records, p) == LentOf(prev, p);
      }
    }
  }

  /** Releasing every record of a consistent registry leaves no handle out in the scene and keeps every pool consistent. */
  lemma ReleaseAllEmpties(pools: seq<Pool>, records: seq<PoolData>, kind: Kind)
    requires Registered(records, pools, kind)
    ensures Registered([], ReleaseAll(pools, records), kind)
    ensures forall p :: 0 <= p < |pools| ==> ReleaseAll(pools, records)[p].lent == multiset{}
  {
    var ps := ReleaseAll(pools, records);
    forall p | 0 <= p < |pools|
      ensures PoolValid(ps[p], kind, p) && ps[p].lent == multiset{} == LentOf([], p)
    {
      ReleaseAllEffect(pools, records, p);
    }
  }

  /** Removing position `k` after releasing exactly that record's handle keeps the registry consistent. */
  lemma RemoveMatchingKeepsRegistered(records: seq<PoolData>, pools: seq<Pool>, kind: Kind, k: nat)
    requires Registered(records, pools, kind) && k < |records|
    ensures var q := records[k].indexOfPool;
      Registered(records[..k] + records[k + 1..], pools[q := Release(pools[q], records[k].handle)], kind)
  {
    var q := records[k].indexOfPool;
    var h := records[k].handle;
    var recs' := records[..k] + records[k + 1..];
    var ps := pools[q := Release(pools[q], h)];
    forall j | 0 <= j < |recs'| ensures 0 <= recs'[j].indexOfPool < |ps| {
      if j < k { assert recs'[j] == records[j]; } else { assert recs'[j] == records[j + 1]; }
    }
    forall p | 0 <= p < |ps| ensures PoolValid(ps[p], kind, p) && ps[p].lent == LentOf(recs', p) {
      RemoveMatchingAt(records, pools, kind, k, p);
    }
  }

  lemma RemoveMatchingAt(records: seq<PoolData>, pools: seq<Pool>, kind: Kind, k: nat, p: nat)
    requires Registered(records, pools, kind) && k < |records| && p < |pools|
    ensures var q := records[k].indexOfPool;
      var ps := pools[q := Release(pools[q], records[k].handle)];
      PoolValid(ps[p], kind, p) && ps[p].lent == LentOf(records[..k] + records[k + 1..], p)
  {
    var q := records[k].indexOfPool;
    var h := records[k].handle;
    assert PoolValid(pools[p], kind, p) && pools[p].lent == LentOf(records, p);
    LentOfRemoveAt(records, k, p);
    if p == q {
      assert h in LentOf(records, p) by {
        LentOfHas(records, k);
      }
      ReleaseKeepsValid(pools[q], kind, q, h);
    }
  }

  /** The handle of record `k` is among the handles the records name for its pool. */
  lemma LentOfHas(records: seq<PoolData>, k: nat)
    requires k < |records|
    ensures records[k].handle in LentOf(records, records[k].indexOfPool)
  {
    var p := records[k].indexOfPool;
    assert records == records[..k] + [records[k]] + records[k + 1..];
    LentOfConcat(records[..k] + [records[k]], records[k + 1..], p);
    LentOfConcat(records[..k], [records[k]], p);
    assert [records[k]][..0] == [];
  }

  /** The handles a record list names. */
  function HandlesOf(records: seq<PoolData>): set<Handle> {
    set k | 0 <= k < |records| :: records[k].handle
  }

  lemma HandlesOfConcat(a: seq<PoolData>, b: seq<PoolData>)
    ensures HandlesOf(a + b) == HandlesOf(a) + HandlesOf(b)
  {
    forall h | h in HandlesOf(a + b) ensures h in HandlesOf(a) + HandlesOf(b) {
      var k :| 0 <= k < |a + b| && (a + b)[k].handle == h;
      if k >= |a| {
        assert b[k - |a|].handle == h;
      }
    }
    forall h | h in HandlesOf(a) ensures h in HandlesOf(a + b) {
      var k :| 0 <= k < |a| && a[k].handle == h;
      assert (a + b)[k].handle == h;
    }
    forall h | h in HandlesOf(b) ensures h in HandlesOf(a + b) {
      var k :| 0 <= k < |b| && b[k].handle == h;
      assert (a + b)[|a| + k].handle == h;
    }
  }

  /** A record list consistent with its pools never names one object twice: a pool has each object out at most once. */
  lemma RegisteredDistinct(records: seq<PoolData>, pools: seq<Pool>, kind: Kind, j1: nat, j2: nat)
    requires Registered(records, pools, kind) && j1 < j2 < |records|
    ensures records[j1].handle != records[j2].handle
  {
    var h1 := records[j1].handle;
    var h2 := records[j2].handle;
    var q := records[j1].indexOfPool;
    var p := records[j2].indexOfPool;
    LentOfHas(records, j1);
    LentOfHas(records, j2);
    assert PoolValid(pools[q], kind, q) && PoolValid(pools[p], kind, p);
    MintedShape(kind, q, pools[q].created, h1);
    MintedShape(kind, p, pools[p].created, h2);
    if h1 == h2 {
      LentOfTwice(records, j1, j2);
    }
  }

  /** Two records naming one object of one pool put it out twice. */
  lemma LentOfTwice(records: seq<PoolData>, j1: nat, j2: nat)
    requires j1 < j2 < |records| && records[j1].handle == records[j2].handle
    requires records[j1].indexOfPool == records[j2].indexOfPool
    ensures LentOf(records, records[j2].indexOfPool)[records[j2].handle] >= 2
  {
    var p := records[j2].indexOfPool;
    var pre := records[..j2];
    var suf := records[j2..];
    assert records == pre + suf;
    LentOfConcat(pre, suf, p);
    assert pre[j1] == records[j1] && suf[0] == records[j2];
    LentOfHas(pre, j1);
    LentOfHas(suf, 0);
  }
}
