/** Slot arithmetic of an order-n cube and the index lists that the group
    table builds from it (group.ts, GroupTable constructor; controller.ts,
    handleDown and match).

    A slot index is z*n*n + y*n + x for grid coordinates x, y, z in [0, n).
    Layers are numbered from 1 along each of the three positive axes. */
module Layout {

  /** A cubelet as the group table reads it: the slot it starts in
      (`initial`), the slot it currently occupies (`index`), and whether it
      exists at all (interior cubelets of large cubes do not). */
  datatype Cubelet = Cubelet(initial: int, index: int, exist: bool)

  /** JavaScript's `%`, which truncates toward zero (Dafny's is Euclidean). */
  function JsRem(a: int, b: int): (r: int)
    requires b > 0
    ensures a >= 0 ==> r == a % b
    ensures -b < r < b
    ensures a < 0 ==> r <= 0
  {
    if a >= 0 then a % b else -((-a) % b)
  }

  /** The layer (1-based) of slot `idx` along axis 0 (x), 1 (y) or 2 (z):
      `idx % n + 1`, `floor((idx % n^2) / n) + 1`, `floor(idx / n^2) + 1`.
      `Math.floor` of a quotient by a positive number is Dafny's `/`. */
  function Layer(idx: int, n: int, axis: nat): int
    requires n >= 1 && axis < 3
  {
    if axis == 0 then JsRem(idx, n) + 1
    else if axis == 1 then JsRem(idx, n * n) / n + 1
    else idx / (n * n) + 1
  }

  /** The slot index of grid coordinates (x, y, z). */
  function Slot(n: int, x: int, y: int, z: int): int
  {
    z * n * n + y * n + x
  }

  predicate Outer(layer: int, n: int) { layer == 1 || layer == n }

  /** How many of the three layers of `idx` are outer ones (1 or n). */
  function Faces(idx: int, n: int): (k: nat)
    requires n >= 1
    ensures k <= 3
  {
    (if Outer(Layer(idx, n, 0), n) then 1 else 0)
    + (if Outer(Layer(idx, n, 1), n) then 1 else 0)
    + (if Outer(Layer(idx, n, 2), n) then 1 else 0)
  }

  /** The cube's slots are 0 .. n^3 - 1. */
  predicate InCube(idx: int, n: int) { 0 <= idx < n * n * n }

  /** Every existing cubelet starts in a slot of the cube. */
  predicate Placed(cs: seq<Cubelet>, n: int)
  {
    forall k :: 0 <= k < |cs| ==> cs[k].exist ==> InCube(cs[k].initial, n)
  }

  /** The current slots of the existing cubelets, in order. */
  function Existing(cs: seq<Cubelet>): seq<int>
  {
    if cs == [] then [] else Existing(cs[..|cs| - 1]) + (if cs[|cs| - 1].exist then [cs[|cs| - 1].index] else [])
  }

  /** What the constructor pushes into the single-layer group `axis:l:l`:
      the current slot of every existing cubelet whose initial slot lies in
      layer l, in the order of `cube.initials`. */
  function LayerIndices(cs: seq<Cubelet>, n: int, axis: nat, l: int): seq<int>
    requires n >= 1 && axis < 3
  {
    if cs == [] then []
    else
      var c := cs[|cs| - 1];
      LayerIndices(cs[..|cs| - 1], n, axis, l) + (if c.exist && Layer(c.initial, n, axis) == l then [c.index] else [])
  }

  /** What the constructor pushes into a type group: the existing cubelets
      with `k` outer layers (1 centre, 2 edge, 3 corner). */
  function TypeIndices(cs: seq<Cubelet>, n: int, k: nat): seq<int>
    requires n >= 1
  {
    if cs == [] then []
    else
      var c := cs[|cs| - 1];
      TypeIndices(cs[..|cs| - 1], n, k) + (if c.exist && Faces(c.initial, n) == k then [c.index] else [])
  }

  /** The indices of the range group `axis:from:to`: the single layers
      from .. to concatenated in ascending order. */
  function RangeIndices(cs: seq<Cubelet>, n: int, axis: nat, from: int, to: int): seq<int>
    requires n >= 1 && axis < 3
    decreases if to < from then 0 else to - from + 1
  {
    if to < from then [] else RangeIndices(cs, n, axis, from, to - 1) + LayerIndices(cs, n, axis, to)
  }

  // ---------------------------------------------------------------- arithmetic

  lemma DivModUnique(a: int, d: int, q: int, r: int)
    requires d > 0 && 0 <= r < d && a == q * d + r
    ensures a / d == q && a % d == r
  {
    var q', r' := a / d, a % d;
    assert a == q' * d + r';
    assert (q - q') * d == r' - r;
    if q > q' {
      MulAtLeast(q - q', d);
    } else if q < q' {
      MulAtLeast(q' - q, d);
    }
  }

  lemma MulAtLeast(k: int, d: int)
    requires k >= 1 && d > 0
    ensures k * d >= d
  {
  }

  lemma DivBelow(a: int, d: int, c: int)
    requires d > 0 && 0 <= a < c * d
    ensures 0 <= a / d < c
  {
    var q := a / d;
    assert q * d <= a;
    MulLe(c, q, d);
  }

  lemma MulLe(a: int, b: int, d: int)
    requires d >= 0
    ensures a <= b ==> a * d <= b * d
  {
  }

  /** Every slot of the cube lies in a layer 1..n along each axis. */
  lemma LayerInRange(idx: int, n: int, axis: nat)
    requires n >= 1 && axis < 3 && InCube(idx, n)
    ensures 1 <= Layer(idx, n, axis) <= n
  {
    if axis == 1 {
      DivBelow(idx % (n * n), n, n);
    } else if axis == 2 {
      assert n * n * n == n * (n * n);
      DivBelow(idx, n * n, n);
    }
  }

  lemma LowBelow(n: int, x: int, y: int)
    requires n >= 1 && 0 <= x < n && 0 <= y < n
    ensures 0 <= y * n + x < n * n
  {
    MulLe(y, n - 1, n);
  }

  lemma CubeBelow(n: int, z: int, low: int)
    requires n >= 1 && 0 <= z < n && 0 <= low < n * n
    ensures 0 <= z * (n * n) + low < n * n * n
  {
    MulLe(z, n - 1, n * n);
  }

  lemma SlotShape(n: int, x: int, y: int, z: int)
    ensures Slot(n, x, y, z) == z * (n * n) + (y * n + x)
    ensures Slot(n, x, y, z) == (z * n + y) * n + x
  {
  }

  lemma LayerOfRem(idx: int, n: int, q: int, r: int)
    requires n >= 1 && 0 <= r < n && 0 <= idx && idx == q * n + r
    ensures Layer(idx, n, 0) == r + 1
  {
    DivModUnique(idx, n, q, r);
  }

  lemma LayerOfQuot(idx: int, n: int, q: int, r: int)
    requires n >= 1 && 0 <= r < n * n && idx == q * (n * n) + r
    ensures Layer(idx, n, 2) == q + 1
  {
    DivModUnique(idx, n * n, q, r);
  }

  lemma LayerOfMid(idx: int, n: int, q: int, y: int, x: int)
    requires n >= 1 && 0 <= x < n && 0 <= y * n + x < n * n && 0 <= idx
    requires idx == q * (n * n) + (y * n + x)
    ensures Layer(idx, n, 1) == y + 1
  {
    DivModUnique(idx, n * n, q, y * n + x);
    DivModUnique(y * n + x, n, y, x);
  }

  /** Slot and layers are inverse: the layers of the slot of (x, y, z) are
      x + 1, y + 1, z + 1. */
  lemma SlotLayers(n: int, x: int, y: int, z: int)
    requires n >= 1 && 0 <= x < n && 0 <= y < n && 0 <= z < n
    ensures InCube(Slot(n, x, y, z), n)
    ensures Layer(Slot(n, x, y, z), n, 0) == x + 1
    ensures Layer(Slot(n, x, y, z), n, 1) == y + 1
    ensures Layer(Slot(n, x, y, z), n, 2) == z + 1
  {
    var idx := Slot(n, x, y, z);
    SlotShape(n, x, y, z);
    LowBelow(n, x, y);
    CubeBelow(n, z, y * n + x);
    LayerOfRem(idx, n, z * n + y, x);
    LayerOfMid(idx, n, z, y, x);
    LayerOfQuot(idx, n, z, y * n + x);
  }

  // ------------------------------------------------------- list decomposition

  lemma {:induction false} LayerIndicesSnoc(cs: seq<Cubelet>, c: Cubelet, n: int, axis: nat, l: int)
    requires n >= 1 && axis < 3
    ensures LayerIndices(cs + [c], n, axis, l)
         == LayerIndices(cs, n, axis, l) + (if c.exist && Layer(c.initial, n, axis) == l then [c.index] else [])
  {
    assert (cs + [c])[..|cs|] == cs;
  }

  /** Adding one cubelet to the input adds its slot to exactly the range
      groups whose span contains its layer. */
  lemma {:induction false} RangeIndicesSnoc(cs: seq<Cubelet>, c: Cubelet, n: int, axis: nat, from: int, to: int)
    requires n >= 1 && axis < 3
    ensures multiset(RangeIndices(cs + [c], n, axis, from, to))
         == multiset(RangeIndices(cs, n, axis, from, to))
            + (if c.exist && from <= Layer(c.initial, n, axis) <= to then multiset{c.index} else multiset{})
    decreases if to < from then 0 else to - from + 1
  {
    if to >= from {
      var l := Layer(c.initial, n, axis);
      RangeIndicesSnoc(cs, c, n, axis, from, to - 1);
      LayerIndicesSnoc(cs, c, n, axis, to);
      var before := if c.exist && from <= l <= to - 1 then multiset{c.index} else multiset{};
      var here := if c.exist && l == to then multiset{c.index} else multiset{};
      var a, b := multiset(RangeIndices(cs, n, axis, from, to - 1)), multiset(LayerIndices(cs, n, axis, to));
      assert RangeIndices(cs, n, axis, from, to) == RangeIndices(cs, n, axis, from, to - 1) + LayerIndices(cs, n, axis, to);
      calc {
        multiset(RangeIndices(cs + [c], n, axis, from, to));
        multiset(RangeIndices(cs + [c], n, axis, from, to - 1)) + multiset(LayerIndices(cs + [c], n, axis, to));
        (a + before) + (b + here);
        { Regroup(a, before, b, here); }
        (a + b) + (before + here);
      }
    }
  }

  lemma Regroup<T>(a: multiset<T>, b: multiset<T>, c: multiset<T>, d: multiset<T>)
    ensures (a + b) + (c + d) == (a + c) + (b + d)
  {
  }

  /** Layer membership: along every axis, the single layers 1..n together
      hold each existing cubelet's slot exactly once, and nothing else. */
  lemma {:induction false} LayersPartition(cs: seq<Cubelet>, n: int, axis: nat)
    requires n >= 1 && axis < 3 && Placed(cs, n)
    ensures multiset(RangeIndices(cs, n, axis, 1, n)) == multiset(Existing(cs))
  {
    if cs == [] {
      EmptyRange(cs, n, axis, 1, n);
    } else {
      var init, c := cs[..|cs| - 1], cs[|cs| - 1];
      assert cs == init + [c];
      LayersPartition(init, n, axis);
      RangeIndicesSnoc(init, c, n, axis, 1, n);
      if c.exist {
        LayerInRange(c.initial, n, axis);
      }
    }
  }

  lemma {:induction false} EmptyRange(cs: seq<Cubelet>, n: int, axis: nat, from: int, to: int)
    requires n >= 1 && axis < 3 && cs == []
    ensures RangeIndices(cs, n, axis, from, to) == []
    decreases if to < from then 0 else to - from + 1
  {
    if to >= from {
      EmptyRange(cs, n, axis, from, to - 1);
    }
  }

  /** Each existing cubelet's slot is in the single layer its initial slot
      names, along each axis. */
  lemma {:induction false} InOwnLayer(cs: seq<Cubelet>, k: nat, n: int, axis: nat)
    requires n >= 1 && axis < 3 && k < |cs| && cs[k].exist
    ensures cs[k].index in LayerIndices(cs, n, axis, Layer(cs[k].initial, n, axis))
  {
    var init := cs[..|cs| - 1];
    if k < |cs| - 1 {
      assert init[k] == cs[k];
      InOwnLayer(init, k, n, axis);
    }
  }

  /** Range composition: a range splits at any layer into two adjacent
      ranges, so its length is the sum of the lengths of its layers. */
  lemma {:induction false} RangeSplit(cs: seq<Cubelet>, n: int, axis: nat, from: int, mid: int, to: int)
    requires n >= 1 && axis < 3 && from - 1 <= mid <= to
    ensures RangeIndices(cs, n, axis, from, to)
         == RangeIndices(cs, n, axis, from, mid) + RangeIndices(cs, n, axis, mid + 1, to)
    decreases if to < mid then 0 else to - mid + 1
  {
    if mid == to {
      assert RangeIndices(cs, n, axis, mid + 1, to) == [];
    } else {
      RangeSplit(cs, n, axis, from, mid, to - 1);
    }
  }

  /** Sum of the lengths of the single layers from .. to. */
  function LayerCount(cs: seq<Cubelet>, n: int, axis: nat, from: int, to: int): nat
    requires n >= 1 && axis < 3
    decreases if to < from then 0 else to - from + 1
  {
    if to < from then 0 else LayerCount(cs, n, axis, from, to - 1) + |LayerIndices(cs, n, axis, to)|
  }

  lemma {:induction false} RangeLength(cs: seq<Cubelet>, n: int, axis: nat, from: int, to: int)
    requires n >= 1 && axis < 3
    ensures |RangeIndices(cs, n, axis, from, to)| == LayerCount(cs, n, axis, from, to)
    decreases if to < from then 0 else to - from + 1
  {
    if to >= from {
      RangeLength(cs, n, axis, from, to - 1);
    }
  }

  // ------------------------------------------------------------ type groups

  lemma {:induction false} TypeIndicesSnoc(cs: seq<Cubelet>, c: Cubelet, n: int, k: nat)
    requires n >= 1
    ensures TypeIndices(cs + [c], n, k)
         == TypeIndices(cs, n, k) + (if c.exist && Faces(c.initial, n) == k then [c.index] else [])
  {
    assert (cs + [c])[..|cs|] == cs;
  }

  /** Type classification: every existing cubelet is counted under exactly
      one number of outer layers, 0 to 3; the constructor registers the
      groups for 1 (centre), 2 (edge) and 3 (corner) only. */
  lemma {:induction false} TypesPartition(cs: seq<Cubelet>, n: int)
    requires n >= 1
    ensures multiset(TypeIndices(cs, n, 0)) + multiset(TypeIndices(cs, n, 1))
          + multiset(TypeIndices(cs, n, 2)) + multiset(TypeIndices(cs, n, 3))
         == multiset(Existing(cs))
  {
    if cs != [] {
      var init, c := cs[..|cs| - 1], cs[|cs| - 1];
      assert cs == init + [c];
      TypesPartition(init, n);
      TypeIndicesSnoc(init, c, n, 0);
      TypeIndicesSnoc(init, c, n, 1);
      TypeIndicesSnoc(init, c, n, 2);
      TypeIndicesSnoc(init, c, n, 3);
    }
  }

  /** A corner has all three layers outer, an edge two, a centre one. */
  lemma OuterCount(idx: int, n: int)
    requires n >= 1
    ensures Faces(idx, n) == 3 <==> (Outer(Layer(idx, n, 0), n) && Outer(Layer(idx, n, 1), n) && Outer(Layer(idx, n, 2), n))
    ensures Faces(idx, n) == 0 <==> !(Outer(Layer(idx, n, 0), n) || Outer(Layer(idx, n, 1), n) || Outer(Layer(idx, n, 2), n))
  {
  }
}
