// Weighted archetype selection: FloorGenerator.GetRandomWeightedIndex.
//
// A weight is a single-precision float in the source; here it is an exact
// real or one of the three non-finite values the code tests for. The random
// value `r` (Random.value) is a parameter.

module WeightedSelection {

  /** A float weight: a finite value, +infinity, -infinity or NaN. */
  datatype Weight = Finite(v: real) | PosInf | NegInf | NaN

  /** Weights the first pass adds into the total `t` (`w >= 0 && !IsNaN(w)`). */
  predicate Counted(w: Weight) {
    w.Finite? && w.v >= 0.0
  }

  /** Weights the second pass does not skip (`!(IsNaN(w) || w <= 0)`), once +inf is ruled out. */
  predicate Positive(w: Weight) {
    w.Finite? && w.v > 0.0
  }

  /** Sum of the counted weights of `ws`. */
  function Total(ws: seq<Weight>): (t: real)
    ensures t >= 0.0
  {
    if ws == [] then 0.0
    else Total(ws[..|ws| - 1]) + (if Counted(ws[|ws| - 1]) then ws[|ws| - 1].v else 0.0)
  }

  /** Cumulative normalised mass `s` of the positive weights of `ws`, for total `t`. */
  function Mass(ws: seq<Weight>, t: real): real
    requires t > 0.0
  {
    if ws == [] then 0.0
    else Mass(ws[..|ws| - 1], t) + (if Positive(ws[|ws| - 1]) then ws[|ws| - 1].v / t else 0.0)
  }

  predicate HasPosInf(ws: seq<Weight>) {
    exists i :: 0 <= i < |ws| && ws[i] == PosInf
  }

  predicate HasPositive(ws: seq<Weight>) {
    exists i :: 0 <= i < |ws| && Positive(ws[i])
  }

  /** The first index at or after `i` holding +inf, or -1. */
  function FirstPosInfFrom(ws: seq<Weight>, i: nat): int
    requires i <= |ws|
    decreases |ws| - i
  {
    if i == |ws| then -1
    else if ws[i] == PosInf then i
    else FirstPosInfFrom(ws, i + 1)
  }

  /** The first index at or after `i` whose weight is positive and whose cumulative mass reaches `r`, or -1. */
  function FirstHitFrom(ws: seq<Weight>, t: real, r: real, i: nat): int
    requires t > 0.0 && i <= |ws|
    decreases |ws| - i
  {
    if i == |ws| then -1
    else if Positive(ws[i]) && Mass(ws[..i + 1], t) >= r then i
    else FirstHitFrom(ws, t, r, i + 1)
  }

  /**
   * Reference definition of the selection: -1 for an empty vector; the first
   * +inf if there is one; otherwise the first positive weight whose
   * cumulative share of the total reaches `r` (-1 if none does).
   */
  function SelectIndex(ws: seq<Weight>, r: real): int {
    if |ws| == 0 then -1
    else if HasPosInf(ws) then FirstPosInfFrom(ws, 0)
    else if Total(ws) == 0.0 then -1
    else FirstHitFrom(ws, Total(ws), r, 0)
  }

  /**
   * The two passes of the source: accumulate the total, returning at the
   * first +inf; then walk the positive weights accumulating `s += w / t`
   * and return the first index where `s >= r`.
   */
  method GetRandomWeightedIndex(weights: seq<Weight>, r: real) returns (index: int)
    ensures index == SelectIndex(weights, r)
  {
    if |weights| == 0 {
      return -1;
    }
    var t := 0.0;
    var i := 0;
    while i < |weights|
      invariant 0 <= i <= |weights|
      invariant t == Total(weights[..i])
      invariant forall j :: 0 <= j < i ==> weights[j] != PosInf
      invariant FirstPosInfFrom(weights, 0) == FirstPosInfFrom(weights, i)
    {
      var w := weights[i];
      assert weights[..i + 1][..i] == weights[..i];
      if w == PosInf {
        assert HasPosInf(weights);
        return i;
      } else if Counted(w) {
        t := t + w.v;
      }
      i := i + 1;
    }
    assert weights[..i] == weights;
    assert !HasPosInf(weights);
    // A positive weight makes the total positive, so `w / t` never divides by zero.
    forall j | 0 <= j < |weights| && Positive(weights[j]) ensures t > 0.0 {
      TotalBoundsWeight(weights, j);
    }
    var s := 0.0;
    i := 0;
    while i < |weights|
      invariant 0 <= i <= |weights|
      invariant t > 0.0 ==> s == Mass(weights[..i], t)
      invariant t > 0.0 ==> FirstHitFrom(weights, t, r, 0) == FirstHitFrom(weights, t, r, i)
    {
      var w := weights[i];
      assert weights[..i + 1][..i] == weights[..i];
      if w.NaN? || w.NegInf? || (w.Finite? && w.v <= 0.0) {
        i := i + 1;
        continue;
      }
      assert Positive(w);
      s := s + w.v / t;
      if s >= r {
        return i;
      }
      i := i + 1;
    }
    return -1;
  }

  /** A positive weight is at most the total. */
  lemma {:induction false} TotalBoundsWeight(ws: seq<Weight>, j: nat)
    requires j < |ws| && Counted(ws[j])
    ensures ws[j].v <= Total(ws)
  {
    var n := |ws| - 1;
    if j < n {
      assert ws[..n][j] == ws[j];
      TotalBoundsWeight(ws[..n], j);
    }
  }

  /** The normalised mass is the total of the positive weights divided by `t`. */
  lemma {:induction false} MassIsTotalOver(ws: seq<Weight>, t: real)
    requires t > 0.0
    ensures Mass(ws, t) == Total(ws) / t
  {
    if ws != [] {
      var n := |ws| - 1;
      MassIsTotalOver(ws[..n], t);
      var a := Total(ws[..n]);
      var b := if Counted(ws[n]) then ws[n].v else 0.0;
      assert Total(ws) == a + b;
      assert Mass(ws, t) == a / t + b / t;
      SharesAdd(a, b, t);
    }
  }

  lemma SharesAdd(a: real, b: real, t: real)
    requires t > 0.0
    ensures a / t + b / t == (a + b) / t
  {
    var x, y := a / t, b / t;
    assert x * t == a && y * t == b;
    assert (x + y) * t == a + b;
  }

  /** Mass never decreases as the prefix grows. */
  lemma {:induction false} MassMonotone(ws: seq<Weight>, t: real, i: nat, j: nat)
    requires t > 0.0 && i <= j <= |ws|
    ensures Mass(ws[..i], t) <= Mass(ws[..j], t)
    decreases j - i
  {
    if i < j {
      MassMonotone(ws, t, i, j - 1);
      assert ws[..j][..j - 1] == ws[..j - 1];
    }
  }

  /** Over the whole vector the shares sum to 1. */
  lemma MassOfAllIsOne(ws: seq<Weight>)
    requires Total(ws) > 0.0
    ensures Mass(ws, Total(ws)) == 1.0
  {
    var t := Total(ws);
    MassIsTotalOver(ws, t);
    WholeShare(t);
  }

  lemma WholeShare(t: real)
    requires t > 0.0
    ensures t / t == 1.0
  {
  }

  /** `FirstHitFrom` finds an index whenever some later positive weight reaches `r`. */
  lemma {:induction false} FirstHitFinds(ws: seq<Weight>, t: real, r: real, i: nat, k: nat)
    requires t > 0.0 && i <= k < |ws|
    requires Positive(ws[k]) && Mass(ws[..k + 1], t) >= r
    ensures i <= FirstHitFrom(ws, t, r, i) <= k
    decreases k - i
  {
    if !(Positive(ws[i]) && Mass(ws[..i + 1], t) >= r) {
      FirstHitFinds(ws, t, r, i + 1, k);
    }
  }

  /** What `FirstHitFrom` returns is a positive weight reaching `r`, preceded by none. */
  lemma {:induction false} FirstHitSound(ws: seq<Weight>, t: real, r: real, i: nat)
    requires t > 0.0 && i <= |ws|
    ensures var k := FirstHitFrom(ws, t, r, i);
      k == -1 || (i <= k < |ws| && Positive(ws[k]) && Mass(ws[..k + 1], t) >= r)
    ensures var k := FirstHitFrom(ws, t, r, i);
      forall j :: i <= j < |ws| && (k == -1 || j < k) ==> !(Positive(ws[j]) && Mass(ws[..j + 1], t) >= r)
    decreases |ws| - i
  {
    if i < |ws| && !(Positive(ws[i]) && Mass(ws[..i + 1], t) >= r) {
      FirstHitSound(ws, t, r, i + 1);
    }
  }

  lemma {:induction false} FirstPosInfSound(ws: seq<Weight>, i: nat)
    requires i <= |ws|
    ensures var k := FirstPosInfFrom(ws, i);
      (k == -1 <==> forall j :: i <= j < |ws| ==> ws[j] != PosInf) &&
      (k != -1 ==> i <= k < |ws| && ws[k] == PosInf && forall j :: i <= j < k ==> ws[j] != PosInf)
    decreases |ws| - i
  {
    if i < |ws| && ws[i] != PosInf {
      FirstPosInfSound(ws, i + 1);
    }
  }

  /**
   * Selection gives -1 or a valid index whose weight is +inf or a positive
   * finite value (never NaN, never zero, never negative).
   */
  lemma SelectInRange(ws: seq<Weight>, r: real)
    ensures var k := SelectIndex(ws, r);
      k == -1 || (0 <= k < |ws| && (ws[k] == PosInf || Positive(ws[k])))
  {
    if |ws| > 0 {
      if HasPosInf(ws) {
        FirstPosInfSound(ws, 0);
      } else if Total(ws) > 0.0 {
        FirstHitSound(ws, Total(ws), r, 0);
      }
    }
  }

  /** Selection gives -1 exactly when the vector is empty or holds neither +inf nor a positive weight (for r <= 1). */
  lemma SelectNoneIff(ws: seq<Weight>, r: real)
    requires r <= 1.0
    ensures SelectIndex(ws, r) == -1 <==> (!HasPosInf(ws) && !HasPositive(ws))
    ensures Total(ws) > 0.0 ==> SelectIndex(ws, r) != -1
  {
    if Total(ws) > 0.0 {
      TotalPositiveHasPositive(ws);
    }
    SelectInRange(ws, r);
    if |ws| > 0 && !HasPosInf(ws) && HasPositive(ws) {
      var k :| 0 <= k < |ws| && Positive(ws[k]);
      TotalBoundsWeight(ws, k);
      var last := LastPositive(ws, k);
      MassOfAllIsOne(ws);
      MassAfterLastPositive(ws, Total(ws), last);
      FirstHitFinds(ws, Total(ws), r, 0, last);
    } else if HasPosInf(ws) {
      FirstPosInfSound(ws, 0);
    }
  }

  /** A positive total comes from at least one positive weight. */
  lemma {:induction false} TotalPositiveHasPositive(ws: seq<Weight>)
    requires Total(ws) > 0.0
    ensures HasPositive(ws)
  {
    var n := |ws| - 1;
    if Positive(ws[n]) {
      assert 0 <= n < |ws| && Positive(ws[n]);
    } else {
      assert Total(ws[..n]) > 0.0;
      TotalPositiveHasPositive(ws[..n]);
      var i :| 0 <= i < n && Positive(ws[..n][i]);
      assert ws[i] == ws[..n][i];
    }
  }

  /** The index of the last positive weight at or after `k`. */
  lemma {:induction false} LastPositive(ws: seq<Weight>, k: nat) returns (last: nat)
    requires k < |ws| && Positive(ws[k])
    ensures k <= last < |ws| && Positive(ws[last])
    ensures forall j :: last < j < |ws| ==> !Positive(ws[j])
  {
    var j := k + 1;
    last := k;
    while j < |ws|
      invariant k <= last < j <= |ws| && Positive(ws[last])
      invariant forall m :: last < m < j ==> !Positive(ws[m])
    {
      if Positive(ws[j]) {
        last := j;
      }
      j := j + 1;
    }
  }

  /** Past the last positive weight the mass no longer grows. */
  lemma {:induction false} MassAfterLastPositive(ws: seq<Weight>, t: real, last: nat)
    requires t > 0.0 && last < |ws|
    requires forall j :: last < j < |ws| ==> !Positive(ws[j])
    ensures Mass(ws[..last + 1], t) == Mass(ws, t)
    decreases |ws| - last
  {
    if last + 1 < |ws| {
      var n := |ws| - 1;
      assert ws[..n][..last + 1] == ws[..last + 1];
      MassAfterLastPositive(ws[..n], t, last);
    } else {
      assert ws[..last + 1] == ws;
    }
  }

  /** +inf overrides the draw: the first +inf is chosen whatever `r` is. */
  lemma PosInfWins(ws: seq<Weight>, r1: real, r2: real)
    requires HasPosInf(ws)
    ensures SelectIndex(ws, r1) == SelectIndex(ws, r2)
    ensures var k := SelectIndex(ws, r1);
      0 <= k < |ws| && ws[k] == PosInf && forall j :: 0 <= j < k ==> ws[j] != PosInf
  {
    FirstPosInfSound(ws, 0);
  }

  /**
   * Weighted sampling: for 0 < r, without +inf, index i is chosen exactly
   * when its weight is positive and r falls in (Mass before i, Mass through i],
   * an interval of width w_i / total.
   */
  lemma SelectIsInterval(ws: seq<Weight>, r: real, i: nat)
    requires 0.0 < r && !HasPosInf(ws) && Total(ws) > 0.0 && i < |ws|
    ensures SelectIndex(ws, r) == i <==>
      (Positive(ws[i]) && Mass(ws[..i], Total(ws)) < r <= Mass(ws[..i + 1], Total(ws)))
  {
    var t := Total(ws);
    FirstHitSound(ws, t, r, 0);
    var k := SelectIndex(ws, r);
    if k == i {
      // The mass before i is that after the last earlier positive weight (or 0).
      MassBeforeFirstHit(ws, t, r, i);
    }
    if Positive(ws[i]) && Mass(ws[..i], t) < r <= Mass(ws[..i + 1], t) {
      FirstHitFinds(ws, t, r, 0, i);
      if k < i {
        MassMonotone(ws, t, k + 1, i);
      }
    }
  }

  /** Before the first hit, the accumulated mass is still below `r` (for r > 0). */
  lemma {:induction false} MassBeforeFirstHit(ws: seq<Weight>, t: real, r: real, i: nat)
    requires t > 0.0 && 0.0 < r && i < |ws|
    requires forall j :: 0 <= j < i ==> !(Positive(ws[j]) && Mass(ws[..j + 1], t) >= r)
    ensures Mass(ws[..i], t) < r
  {
    if i > 0 {
      MassBeforeFirstHit(ws, t, r, i - 1);
      assert ws[..i][..i - 1] == ws[..i - 1];
    }
  }

  /** A larger draw never selects an earlier index (the inverse-CDF walk is monotone). */
  lemma SelectMonotone(ws: seq<Weight>, r1: real, r2: real)
    requires r1 <= r2 && SelectIndex(ws, r2) != -1
    ensures SelectIndex(ws, r1) != -1 && SelectIndex(ws, r1) <= SelectIndex(ws, r2)
  {
    if |ws| > 0 && !HasPosInf(ws) && Total(ws) > 0.0 {
      var t := Total(ws);
      FirstHitSound(ws, t, r2, 0);
      var k := SelectIndex(ws, r2);
      FirstHitFinds(ws, t, r1, 0, k);
    }
  }
}
