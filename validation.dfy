// Input normalisation of FloorGenerator.OnValidate: weight arrays resized to
// the catalogue lengths (Array.Resize) and null archetypes dropped from the
// tile and enemy catalogues.

module Validation {
  import opened WeightedSelection

  datatype Option<T> = None | Some(value: T)

  /** An archetype (prefab). `isObstacle` is the flag of its TileData component; enemy and wall prefabs ignore it. */
  datatype Prefab = Prefab(isObstacle: bool)

  /** Array.Resize: the first min(|ws|, n) weights kept, the rest zero. */
  function Resized(ws: seq<Weight>, n: nat): (r: seq<Weight>)
    ensures |r| == n
    ensures forall i :: 0 <= i < n ==> r[i] == if i < |ws| then ws[i] else Finite(0.0)
  {
    if n <= |ws| then ws[..n] else ws + seq(n - |ws|, _ => Finite(0.0))
  }

  /** Resizing to the current length changes nothing; growing and shrinking back restores the array. */
  lemma ResizedRoundTrip(ws: seq<Weight>, n: nat)
    ensures Resized(ws, |ws|) == ws
    ensures n >= |ws| ==> Resized(Resized(ws, n), |ws|) == ws
  {
    assert Resized(ws, |ws|) == ws;
    if n >= |ws| {
      var r := Resized(Resized(ws, n), |ws|);
      assert forall i :: 0 <= i < |ws| ==> r[i] == ws[i];
    }
  }

  /** Selection over a zero-padded vector: the padding is never chosen. */
  lemma ResizedPaddingNeverSelected(ws: seq<Weight>, n: nat, r: real)
    ensures var k := SelectIndex(Resized(ws, n), r); k == -1 || k < |ws|
  {
    var rs := Resized(ws, n);
    SelectInRange(rs, r);
  }

  /** The catalogue with its null entries removed, in the original order. */
  function DropNulls<T>(s: seq<Option<T>>): seq<Option<T>> {
    if s == [] then []
    else (if s[0].None? then [] else [s[0]]) + DropNulls(s[1..])
  }

  function CountNulls<T>(s: seq<Option<T>>): nat {
    if s == [] then 0 else (if s[0].None? then 1 else 0) + CountNulls(s[1..])
  }

  /**
   * The list copy and backwards `RemoveAt` loop of OnValidate: every null
   * entry is removed, from the end towards the start.
   */
  method RemoveNulls<T>(list: seq<Option<T>>) returns (temp: seq<Option<T>>)
    ensures temp == DropNulls(list)
  {
    temp := list;
    var i := |temp| - 1;
    while i > -1
      invariant -1 <= i < |list|
      invariant temp == list[..i + 1] + DropNulls(list[i + 1..])
    {
      assert list[i..] == [list[i]] + list[i + 1..];
      assert temp[i] == list[i];
      if temp[i].None? {
        temp := temp[..i] + temp[i + 1..];
        assert temp == list[..i] + DropNulls(list[i + 1..]);
      } else {
        assert list[..i + 1] == list[..i] + [list[i]];
      }
      i := i - 1;
    }
    assert list[..0] == [] && list[0..] == list;
  }

  /** Removing nulls distributes over concatenation: relative order of the kept entries is preserved. */
  lemma {:induction false} DropNullsConcat<T>(a: seq<Option<T>>, b: seq<Option<T>>)
    ensures DropNulls(a + b) == DropNulls(a) + DropNulls(b)
  {
    if a != [] {
      assert (a + b)[1..] == a[1..] + b;
      DropNullsConcat(a[1..], b);
    } else {
      assert a + b == b;
    }
  }

  /** What remains are exactly the non-null entries, one fewer per null removed. */
  lemma {:induction false} DropNullsContents<T>(s: seq<Option<T>>)
    ensures forall x :: x in DropNulls(s) <==> x in s && x.Some?
    ensures |DropNulls(s)| == |s| - CountNulls(s)
  {
    if s != [] {
      DropNullsContents(s[1..]);
      assert forall x :: x in s <==> x == s[0] || x in s[1..];
    }
  }

  /** Nothing is removed exactly when there was no null; a second pass removes nothing. */
  lemma {:induction false} DropNullsNoNull<T>(s: seq<Option<T>>)
    ensures DropNulls(s) == s <==> CountNulls(s) == 0
    ensures DropNulls(DropNulls(s)) == DropNulls(s)
  {
    if s != [] {
      DropNullsNoNull(s[1..]);
      DropNullsContents(s[1..]);
      if s[0].Some? {
        var d := [s[0]] + DropNulls(s[1..]);
        assert d[0] == s[0] && d[1..] == DropNulls(s[1..]);
        assert DropNulls(d) == [s[0]] + DropNulls(DropNulls(s[1..]));
      } else {
        assert DropNulls(s) == DropNulls(s[1..]);
        assert |DropNulls(s)| < |s|;
      }
    }
  }
}
