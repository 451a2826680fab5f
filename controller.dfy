/** The gesture controller (src/cuber/controller.ts): which layer a drag
    turns, and the flags that carry a gesture from press to release.

    Everything the source computes in floating point from the camera and the
    screen (ray casting onto the pick planes, projecting a cube corner, the
    pixel drag threshold, the flick speed taken from the clock) reaches the
    model as an input. Angles are in quarter turns, as in module Groups. */
module Control {
  import opened Wrappers
  import opened Layout
  import opened Notation
  import opened Groups

  // --------------------------------------------------------------- vectors

  /** A THREE.Vector3 with real components. */
  datatype Vec3 = Vec3(x: real, y: real, z: real)

  const Zero := Vec3(0.0, 0.0, 0.0)

  function Mag(x: real): (m: real)
    ensures m >= 0.0 && (m == x || m == -x)
  {
    if x < 0.0 then -x else x
  }

  /** Component c (0, 1, 2 for x, y, z) of a vector. */
  function Component(v: Vec3, c: nat): real
    requires c < 3
  {
    if c == 0 then v.x else if c == 1 then v.y else v.z
  }

  /** Component c of an integer vector. */
  function Coord(v: Vector, c: nat): int
    requires c < 3
  {
    if c == 0 then v.x else if c == 1 then v.y else v.z
  }

  function Max3(a: real, b: real, c: real): (m: real)
    ensures m >= a && m >= b && m >= c
    ensures m == a || m == b || m == c
  {
    if a >= b && a >= c then a else if b >= c then b else c
  }

  /** The dominant-axis snap of `handleMove`: every component whose
      magnitude is the largest keeps its value, the others become 0. */
  function Snap(v: Vec3): (r: Vec3)
  {
    var m := Max3(Mag(v.x), Mag(v.y), Mag(v.z));
    Vec3(if Mag(v.x) == m then v.x else 0.0,
         if Mag(v.y) == m then v.y else 0.0,
         if Mag(v.z) == m then v.z else 0.0)
  }

  /** What the snap promises: with m the largest magnitude, a component
      below m becomes 0 and one at m keeps its value and sign; a drag that
      moved at all keeps a non-zero component; snapping twice changes
      nothing. */
  lemma SnapDominant(v: Vec3)
    ensures var m := Max3(Mag(v.x), Mag(v.y), Mag(v.z));
      forall c: nat :: c < 3 ==>
        && (Mag(Component(v, c)) < m ==> Component(Snap(v), c) == 0.0)
        && (Mag(Component(v, c)) == m ==> Component(Snap(v), c) == Component(v, c))
    ensures v != Zero <==> Snap(v) != Zero
    ensures Snap(Snap(v)) == Snap(v)
  {
    var m := Max3(Mag(v.x), Mag(v.y), Mag(v.z));
    var r := Snap(v);
    var m' := Max3(Mag(r.x), Mag(r.y), Mag(r.z));
    assert m' == m;
  }

  /** `holder.vector` after the snap, up to a positive factor: the source
      multiplies the snapped drag by itself component-wise and normalises
      it. The non-zero components of a snapped vector share one magnitude,
      so that is the direction of the vector of magnitudes. Which components
      are 0 is all that `match` reads. */
  function Finger(s: Vec3): (f: Vec3)
    ensures forall c: nat :: c < 3 ==> Component(f, c) >= 0.0 && (Component(f, c) == 0.0 <==> Component(s, c) == 0.0)
  {
    Vec3(Mag(s.x), Mag(s.y), Mag(s.z))
  }

  /** `AXIS_VECTOR[axis].dot(plane.normal)`. */
  function Dot(a: Vector, b: Vector): int
  {
    a.x * b.x + a.y * b.y + a.z * b.z
  }

  /** `AXIS_VECTOR[axis].dot(finger)`. */
  function DotR(a: Vector, f: Vec3): real
  {
    a.x as real * f.x + a.y as real * f.y + a.z as real * f.z
  }

  /** The positive axis along c is perpendicular to the normal of pick plane
      p exactly when c is not p. */
  lemma AxisNormal(c: nat, p: nat)
    requires c < 3 && p < 3
    ensures Dot(UnitVector(c), UnitVector(p)) == 0 <==> c != p
  {
  }

  lemma UnitAxis(c: nat)
    requires c < 3
    ensures UnitVector(c) == AxisVector(PosAxis(c))
  {
    if c == 0 {
      assert PosAxis(c) == X;
    } else if c == 1 {
      assert PosAxis(c) == Y;
    } else {
      assert PosAxis(c) == Z;
    }
  }

  /** The vector of the positive axis along c. */
  function UnitVector(c: nat): (v: Vector)
    requires c < 3
  {
    if c == 0 then Vector(1, 0, 0) else if c == 1 then Vector(0, 1, 0) else Vector(0, 0, 1)
  }

  /** The positive axis along c is perpendicular to a vector exactly when
      that vector's component c is 0. */
  lemma AxisFinger(c: nat, f: Vec3)
    requires c < 3
    ensures DotR(UnitVector(c), f) == Component(f, c)
  {
    var v := UnitVector(c);
    if c == 0 {
      assert v == Vector(1, 0, 0);
      assert DotR(v, f) == 1.0 * f.x + 0.0 * f.y + 0.0 * f.z;
    } else if c == 1 {
      assert v == Vector(0, 1, 0);
      assert DotR(v, f) == 0.0 * f.x + 1.0 * f.y + 0.0 * f.z;
    } else {
      assert v == Vector(0, 0, 1);
      assert DotR(v, f) == 0.0 * f.x + 0.0 * f.y + 1.0 * f.z;
    }
  }

  // ------------------------------------------------------------ pick planes

  /** The face a pick plane shows: planes[0], [1], [2] have the normals x,
      y, z and carry the faces R, U, F. Any other plane (or none) is null. */
  function FaceOf(plane: Option<nat>): (r: Option<char>)
    ensures r.Some? <==> plane.Some? && plane.value < 3
    ensures r.Some? ==> IsFace(r.value) && AxisOf(r.value) == PosAxis(plane.value)
  {
    match plane
    case Some(0) => Some('R')
    case Some(1) => Some('U')
    case Some(2) => Some('F')
    case _ => None
  }

  /** What `intersect` returns for one pick plane, divided by three cubelet
      sizes (the cube spans -0.5 .. 0.5 on every axis), and the squared
      distance of that point from the camera. */
  datatype Hit = Hit(x: real, y: real, z: real, distance: real)

  /** The hit lies on the cube: `Math.abs(x) <= 0.5` on every axis. */
  predicate Inside(h: Hit)
  {
    -0.5 <= h.x <= 0.5 && -0.5 <= h.y <= 0.5 && -0.5 <= h.z <= 0.5
  }

  /** `Math.ceil`. */
  function Ceil(x: real): (k: int)
    ensures x <= k as real < x + 1.0
  {
    -((-x).Floor)
  }

  /** `Math.ceil((x + 0.5) * order) - 1`, the grid cell of a coordinate as
      `handleDown` computes it. */
  function CellAsWritten(x: real, n: int): int
  {
    Ceil((x + 0.5) * n as real) - 1
  }

  lemma ScaledBelow(x: real, n: int)
    requires n >= 1 && -0.5 <= x <= 0.5
    ensures 0.0 <= (x + 0.5) * n as real <= n as real
    ensures (x + 0.5) * n as real == 0.0 <==> x == -0.5
  {
    var u := x + 0.5;
    assert 0.0 <= u <= 1.0;
    assert u * n as real <= 1.0 * n as real;
    assert u > 0.0 ==> u * n as real >= u * 1.0;
  }

  /** The ceiling less one of a value in `[0, n]` lies in `[-1, n)` and is
      -1 only at 0. */
  lemma CeilBelow(v: real, n: int)
    requires 0.0 <= v <= n as real
    ensures -1 <= Ceil(v) - 1 < n && (Ceil(v) - 1) as real < v <= Ceil(v) as real
    ensures Ceil(v) - 1 == -1 <==> v == 0.0
  {
    var c := Ceil(v);
    assert (c as real) < (n + 1) as real;
  }

  /** The grid cell of a coordinate on the cube: the cell `(x + 0.5) * n`
      falls in, where the boundary -0.5 belongs to cell 0. This is
      `CellAsWritten` except at -0.5, where that gives -1. */
  function Cell(x: real, n: int): (k: int)
    requires n >= 1 && -0.5 <= x <= 0.5
    ensures 0 <= k < n
    ensures k as real <= (x + 0.5) * n as real <= (k + 1) as real
    ensures x != -0.5 ==> k == CellAsWritten(x, n)
  {
    CellAsWrittenBounds(x, n);
    var k := CellAsWritten(x, n);
    if k < 0 then 0 else k
  }

  /** On the cube, the cell as written is below `n` and holds the scaled
      coordinate; it is -1 only where the scaled coordinate is 0. */
  lemma CellAsWrittenBounds(x: real, n: int)
    requires n >= 1 && -0.5 <= x <= 0.5
    ensures var k := CellAsWritten(x, n); var v := (x + 0.5) * n as real;
      && -1 <= k < n && k as real < v <= (k + 1) as real
      && (k == -1 <==> x == -0.5)
  {
    ScaledBelow(x, n);
    CeilBelow((x + 0.5) * n as real, n);
  }

  /** The slot index of a hit: `z * order * order + y * order + x`. */
  function HitSlot(h: Hit, n: int): (idx: int)
    requires n >= 1 && Inside(h)
    ensures InCube(idx, n)
    ensures Layer(idx, n, 0) == Cell(h.x, n) + 1
    ensures Layer(idx, n, 1) == Cell(h.y, n) + 1
    ensures Layer(idx, n, 2) == Cell(h.z, n) + 1
  {
    SlotLayers(n, Cell(h.x, n), Cell(h.y, n), Cell(h.z, n));
    Slot(n, Cell(h.x, n), Cell(h.y, n), Cell(h.z, n))
  }

  /** The slot index exactly as written. */
  function HitSlotAsWritten(h: Hit, n: int): int
  {
    Slot(n, CellAsWritten(h.x, n), CellAsWritten(h.y, n), CellAsWritten(h.z, n))
  }

  /** A press exactly on the left edge of the top face of a 3x3x3 cube: the
      point is in the left column and the top row, but the slot as written
      is 14, whose layers are the right column and the middle row. */
  lemma SlotAsWrittenMisreads()
    ensures var h := Hit(-0.5, 0.5, 0.0, 1.0);
      && Inside(h) && Cell(h.x, 3) == 0 && Cell(h.y, 3) == 2
      && CellAsWritten(h.x, 3) == -1
      && HitSlotAsWritten(h, 3) == 14
      && Layer(14, 3, 0) == 3 && Layer(14, 3, 1) == 2
      && Layer(HitSlot(h, 3), 3, 0) == 1 && Layer(HitSlot(h, 3), 3, 1) == 3
  {
    var h := Hit(-0.5, 0.5, 0.0, 1.0);
    assert CellAsWritten(h.x, 3) == -1 by {
      assert (h.x + 0.5) * 3 as real == 0.0;
    }
    assert CellAsWritten(h.y, 3) == 2 by {
      assert (h.y + 0.5) * 3 as real == 3.0;
    }
    assert CellAsWritten(h.z, 3) == 1 by {
      assert (h.z + 0.5) * 3 as real == 1.5;
    }
    assert JsRem(14, 3) == 2 && JsRem(14, 9) == 5;
  }

  /** The choice `handleDown` keeps while it walks the planes: the plane,
      the slot and the distance of the nearest hit on the cube so far. */
  datatype Pick = Pick(plane: Option<nat>, index: int, distance: real)

  /** One plane of `handleDown`'s walk: a hit on the cube replaces the
      choice when nothing was chosen yet (distance 0) or it is nearer. */
  function PickStep(st: Pick, h: Hit, p: nat, n: int): Pick
    requires n >= 1
  {
    if Inside(h) && (st.distance == 0.0 || h.distance < st.distance) then Pick(Some(p), HitSlot(h, n), h.distance)
    else st
  }

  /** The walk over the planes from the i-th on. */
  function PickFrom(st: Pick, hits: seq<Hit>, i: nat, n: int): Pick
    requires n >= 1 && i <= |hits|
    decreases |hits| - i
  {
    if i == |hits| then st else PickFrom(PickStep(st, hits[i], i, n), hits, i + 1, n)
  }

  /** `st` is the first of the nearest hits on the cube among the first i
      planes, with its slot. */
  predicate Chosen(st: Pick, hits: seq<Hit>, i: nat, n: int)
    requires n >= 1 && i <= |hits|
  {
    && st.plane.Some? && st.plane.value < i && Inside(hits[st.plane.value])
    && st.index == HitSlot(hits[st.plane.value], n) && st.distance == hits[st.plane.value].distance
    && (forall q :: 0 <= q < i && Inside(hits[q]) ==> st.distance <= hits[q].distance)
    && (forall q :: 0 <= q < st.plane.value && Inside(hits[q]) ==> st.distance < hits[q].distance)
  }

  /** What the walk promises when it starts with nothing chosen and every
      distance is positive (a camera outside the cube): a plane is chosen
      exactly when some hit lies on the cube; the chosen hit lies on the
      cube, its slot is its cell and no hit on the cube is nearer; of
      equally near hits the first is kept. With no hit on the cube the
      previous plane stays and the index stays -1. */
  lemma {:induction false} PickNearest(st: Pick, hits: seq<Hit>, i: nat, n: int)
    requires n >= 1 && i <= |hits|
    requires forall q :: 0 <= q < |hits| ==> hits[q].distance > 0.0
    requires st.distance == 0.0 <==> (forall q :: 0 <= q < i ==> !Inside(hits[q]))
    requires st.distance != 0.0 ==> Chosen(st, hits, i, n)
    ensures var r := PickFrom(st, hits, i, n);
      && (r.distance == 0.0 <==> (forall q :: 0 <= q < |hits| ==> !Inside(hits[q])))
      && (r.distance == 0.0 ==> r == st)
      && (r.distance != 0.0 ==> Chosen(r, hits, |hits|, n))
    decreases |hits| - i
  {
    if i < |hits| {
      var st' := PickStep(st, hits[i], i, n);
      if st.distance == 0.0 && Inside(hits[i]) {
        assert st'.plane == Some(i);
      }
      PickNearest(st', hits, i + 1, n);
    }
  }

  // ------------------------------------------------------------------ match

  /** Whether axis c lies in the pick plane with normal `normal` and
      across the finger's direction: the test `match` applies to each axis
      when a cubelet is under the cursor. */
  predicate Qualifies(normal: Vector, finger: Vec3, c: nat)
    requires c < 3
  {
    Coord(normal, c) == 0 && Component(finger, c) == 0.0
  }

  /** The test `match` writes with dot products is `Qualifies`. */
  lemma QualifiesDots(normal: Vector, finger: Vec3, c: nat)
    requires c < 3
    ensures Qualifies(normal, finger, c) <==> Dot(UnitVector(c), normal) == 0 && DotR(UnitVector(c), finger) == 0.0
  {
    AxisFinger(c, finger);
    if c == 0 {
      assert Dot(UnitVector(c), normal) == normal.x;
    } else if c == 1 {
      assert Dot(UnitVector(c), normal) == normal.y;
    } else {
      assert Dot(UnitVector(c), normal) == normal.z;
    }
  }

  /** `match` from the axis c on (x, y, z are 0, 1, 2). With no cubelet
      under the cursor (`index == -1`) the first whole-cube group whose
      axis is perpendicular to the plane's normal is chosen. Otherwise the
      first axis perpendicular to both the normal and the finger decides:
      the single layer along it that holds the slot is looked up, whether
      or not that finds a group. No axis qualifying gives `undefined`. */
  function MatchFrom(table: GroupTable, index: int, normal: Vector, finger: Vec3, c: nat): Option<CubeGroup>
    requires table.order >= 1 && c <= 3
    decreases 3 - c
  {
    if c == 3 then None
    else if index == -1 then
      var g := table.Get(PosAxis(c).Name());
      if g.Some? && Dot(g.value.axis, normal) == 0 then g else MatchFrom(table, index, normal, finger, c + 1)
    else if Qualifies(normal, finger, c) then
      var layer := Layer(index, table.order, c);
      table.Get(Key(PosAxis(c), layer, layer))
    else MatchFrom(table, index, normal, finger, c + 1)
  }

  /** The table's whole-cube group along c: it turns about the positive
      axis c and holds the slots of every layer along it. */
  lemma WholeAt(table: GroupTable, c: nat)
    requires table.Valid() && c < 3
    ensures PosAxis(c).Name() in table.groups
    ensures table.Get(PosAxis(c).Name()) == Some(table.groups[PosAxis(c).Name()])
    ensures var g := table.groups[PosAxis(c).Name()];
      && g.cube == table.cube && g.axis == AxisVector(PosAxis(c))
      && g.indices.items == RangeIndices(table.cube.initials, table.order, c, 1, table.order)
  {
    assert PosAxis(c).Name() in table.groups;
    table.RangeAt(PosAxis(c), 1, table.order);
  }

  /** The table's single-layer group `c:l:l`: it turns about the positive
      axis c and holds the slots of layer l along it. */
  lemma LayerAt(table: GroupTable, c: nat, l: int)
    requires table.Valid() && c < 3 && 1 <= l <= table.order
    ensures Key(PosAxis(c), l, l) in table.groups
    ensures table.Get(Key(PosAxis(c), l, l)) == Some(table.groups[Key(PosAxis(c), l, l)])
    ensures var g := table.groups[Key(PosAxis(c), l, l)];
      && g.cube == table.cube && g.axis == AxisVector(PosAxis(c))
      && g.indices.items == LayerIndices(table.cube.initials, table.order, c, l)
  {
    table.RangeAt(PosAxis(c), l, l);
    assert RangeIndices(table.cube.initials, table.order, c, l, l - 1) == [];
  }

  /** The first axis other than p. */
  function Across(p: nat): (c: nat)
    requires p < 3
    ensures c < 3 && c != p
  {
    if p == 0 then 1 else 0
  }

  lemma WholeAxis(table: GroupTable, c: nat)
    requires table.Valid() && c < 3
    ensures var name := PosAxis(c).Name();
      && name in table.groups && table.Get(name) == Some(table.groups[name])
      && table.groups[name].axis == UnitVector(c)
  {
    WholeAt(table, c);
    UnitAxis(c);
  }

  /** One axis of `match` with no cubelet under the cursor. */
  lemma MatchWholeStep(table: GroupTable, normal: Vector, finger: Vec3, c: nat, g: CubeGroup)
    requires table.order >= 1 && c < 3 && table.Get(PosAxis(c).Name()) == Some(g)
    ensures MatchFrom(table, -1, normal, finger, c)
      == if Dot(g.axis, normal) == 0 then Some(g) else MatchFrom(table, -1, normal, finger, c + 1)
  {
  }

  /** With the whole-cube groups x and y registered, `match` with no
      cubelet under the cursor takes x when it is perpendicular to the
      normal and y otherwise, provided one of them is. */
  lemma MatchFirstWhole(table: GroupTable, normal: Vector, finger: Vec3, g0: CubeGroup, g1: CubeGroup)
    requires table.order >= 1
    requires table.Get(PosAxis(0).Name()) == Some(g0) && table.Get(PosAxis(1).Name()) == Some(g1)
    requires Dot(g0.axis, normal) == 0 || Dot(g1.axis, normal) == 0
    ensures MatchFrom(table, -1, normal, finger, 0) == if Dot(g0.axis, normal) == 0 then Some(g0) else Some(g1)
  {
    MatchWholeStep(table, normal, finger, 0, g0);
    if Dot(g0.axis, normal) != 0 {
      MatchWholeStep(table, normal, finger, 1, g1);
    }
  }

  /** `match` with no cubelet under the cursor on pick plane p picks the
      whole-cube turn about the first axis lying in that plane. */
  lemma MatchBackground(table: GroupTable, p: nat, finger: Vec3)
    requires table.Valid() && p < 3
    ensures var c := Across(p);
      && MatchFrom(table, -1, UnitVector(p), finger, 0) == Some(table.groups[PosAxis(c).Name()])
      && table.groups[PosAxis(c).Name()].axis == UnitVector(c)
      && Dot(UnitVector(c), UnitVector(p)) == 0
  {
    WholeAxis(table, 0);
    WholeAxis(table, 1);
    MatchAcross(table, p, finger, table.groups[PosAxis(0).Name()], table.groups[PosAxis(1).Name()]);
  }

  lemma MatchAcross(table: GroupTable, p: nat, finger: Vec3, g0: CubeGroup, g1: CubeGroup)
    requires table.order >= 1 && p < 3
    requires table.Get(PosAxis(0).Name()) == Some(g0) && g0.axis == UnitVector(0)
    requires table.Get(PosAxis(1).Name()) == Some(g1) && g1.axis == UnitVector(1)
    ensures MatchFrom(table, -1, UnitVector(p), finger, 0) == if p == 0 then Some(g1) else Some(g0)
  {
    AxisNormal(0, p);
    AxisNormal(1, p);
    MatchFirstWhole(table, UnitVector(p), finger, g0, g1);
  }

  /** With a cubelet under the cursor, `match` skips the axes before c
      that do not qualify and looks up the layer along c when c does. */
  lemma {:induction false} MatchSkip(table: GroupTable, index: int, normal: Vector, finger: Vec3, k: nat, c: nat)
    requires table.order >= 1 && index != -1 && k <= c < 3
    requires forall j: nat :: k <= j < c ==> !Qualifies(normal, finger, j)
    requires Qualifies(normal, finger, c)
    ensures var layer := Layer(index, table.order, c);
      MatchFrom(table, index, normal, finger, k) == table.Get(Key(PosAxis(c), layer, layer))
    decreases c - k
  {
    if k < c {
      assert !Qualifies(normal, finger, k);
      MatchSkip(table, index, normal, finger, k + 1, c);
    }
  }

  /** With a cubelet pressed and no axis qualifying, `match` finds
      nothing: it returns undefined. */
  lemma {:induction false} MatchNone(table: GroupTable, index: int, normal: Vector, finger: Vec3, k: nat)
    requires table.order >= 1 && index != -1 && k <= 3
    requires forall j: nat :: k <= j < 3 ==> !Qualifies(normal, finger, j)
    ensures MatchFrom(table, index, normal, finger, k) == None
    decreases 3 - k
  {
    if k < 3 {
      MatchNone(table, index, normal, finger, k + 1);
    }
  }

  /** On pick plane p with the drag `s` lying along axis d only, exactly
      the third axis qualifies. */
  lemma QualifiesOnly(p: nat, d: nat, s: Vec3, j: nat)
    requires p < 3 && d < 3 && p != d && j < 3
    requires forall c: nat :: c < 3 ==> (Component(s, c) == 0.0 <==> c != d)
    ensures Qualifies(UnitVector(p), Finger(s), j) <==> j == 3 - p - d
  {
    var f := Finger(s);
    assert Component(f, j) == 0.0 <==> j != d;
    assert Coord(UnitVector(p), j) == 0 <==> j != p;
  }

  /** Layer selection: with a cubelet under the cursor on pick plane p
      and the drag snapped onto the axis d lying in that plane, `match`
      looks up the single layer holding the slot along the third axis,
      perpendicular to both (for a slot of the cube that layer exists, by
      `LayerInRange`, and `LayerAt` says what it holds). */
  lemma MatchSnapped(table: GroupTable, p: nat, d: nat, index: int, drag: Vec3)
    requires table.order >= 1 && index != -1 && p < 3 && d < 3 && p != d
    requires forall c: nat :: c < 3 ==> (Component(Snap(drag), c) == 0.0 <==> c != d)
    ensures var c := 3 - p - d; var layer := Layer(index, table.order, c);
      && c < 3 && c != p && c != d
      && MatchFrom(table, index, UnitVector(p), Finger(Snap(drag)), 0) == table.Get(Key(PosAxis(c), layer, layer))
  {
    forall j: nat | j < 3
      ensures Qualifies(UnitVector(p), Finger(Snap(drag)), j) <==> j == 3 - p - d
    {
      QualifiesOnly(p, d, Snap(drag), j);
    }
    MatchSkip(table, index, UnitVector(p), Finger(Snap(drag)), 0, 3 - p - d);
  }

  // ----------------------------------------------------------- the gesture

  /** What `handleMove` reads besides the controller's own state: whether
      the cursor has left the drag threshold (`min(width, height) / d` is
      at most 128), the cursor's travel in cubelet sizes on screen, whether
      the press lies left of the projected corner (SIZE*3/2, 0, SIZE*3/2),
      the travel on the holder's plane between the two rays, and that
      travel projected on the holder's finger, in cubelet sizes. */
  datatype Move = Move(far: bool, dx: real, dy: real, leftOfCorner: bool, drag: Vec3, along: real)

  /** One call of a tap listener: the slot pressed and the face of the
      plane it was pressed on. */
  datatype Tap = Tap(index: int, face: Option<char>)

  /** The group a drag that crossed the threshold takes hold of. From empty
      space: a mostly horizontal drag turns the whole cube about y, any
      other turns it about x left of the corner and about z right of it.
      From a cubelet: `match` with the dominant direction of the drag. */
  function Grip(table: GroupTable, index: int, plane: Option<nat>, m: Move): Option<CubeGroup>
    requires table.order >= 1 && (index != -1 ==> plane.Some? && plane.value < 3)
  {
    if index == -1 then
      if Mag(m.dx) > Mag(m.dy) then table.Get("y")
      else if m.leftOfCorner then table.Get("x")
      else table.Get("z")
    else MatchFrom(table, index, UnitVector(plane.value), Finger(Snap(m.drag)), 0)
  }

  /** The axis a drag from empty space turns the cube about. */
  function BackgroundAxis(m: Move): (c: nat)
    ensures c < 3
  {
    if Mag(m.dx) > Mag(m.dy) then 1 else if m.leftOfCorner then 0 else 2
  }

  lemma GripByName(table: GroupTable, m: Move)
    requires table.order >= 1
    ensures Grip(table, -1, None, m) == table.Get(PosAxis(BackgroundAxis(m)).Name())
  {
  }

  /** Whatever grips the cube from empty space is a whole-cube turn: the
      group about y for a mostly horizontal drag, else about x or z by the
      side of the corner; it holds every slot of the cube. */
  lemma GripFromBackground(table: GroupTable, m: Move)
    requires table.Valid()
    ensures var c := BackgroundAxis(m);
      var g := Grip(table, -1, None, m);
      && g == Some(table.groups[PosAxis(c).Name()])
      && g.value.axis == AxisVector(PosAxis(c))
      && g.value.indices.items == RangeIndices(table.cube.initials, table.order, c, 1, table.order)
  {
    GripByName(table, m);
    WholeAt(table, BackgroundAxis(m));
  }

  /** The angle a rotating drag sets, in quarter turns (the source's
      `PI / 6` radians per cubelet size is a third of a quarter turn). A
      whole-cube turn follows the screen travel: dx about y, dy about x and
      -dy about z, tested by identity in that order; any other group from
      empty space leaves the angle. A layer follows the travel along the
      finger, against the sum of its axis' components. */
  function Turned(table: GroupTable, g: CubeGroup, index: int, m: Move, sensitivity: real, angle: real): real
    requires table.order >= 1
  {
    if index == -1 then
      if Some(g) == table.Get("y") then m.dx * sensitivity / 3.0
      else if Some(g) == table.Get("x") then m.dy * sensitivity / 3.0
      else if Some(g) == table.Get("z") then -m.dy * sensitivity / 3.0
      else angle
    else -m.along * (g.axis.x + g.axis.y + g.axis.z) as real * sensitivity / 3.0
  }

  /** The whole-cube groups x, y and z are registered and distinct. */
  lemma WholesDistinct(table: GroupTable)
    requires table.Valid()
    ensures forall c: nat :: c < 3 ==> table.Get(PosAxis(c).Name()).Some?
    ensures forall c: nat, d: nat :: c < 3 && d < 3 && c != d ==> table.Get(PosAxis(c).Name()) != table.Get(PosAxis(d).Name())
  {
    WholeAt(table, 0);
    WholeAt(table, 1);
    WholeAt(table, 2);
    assert AxisVector(PosAxis(0)) != AxisVector(PosAxis(1));
    assert AxisVector(PosAxis(0)) != AxisVector(PosAxis(2));
    assert AxisVector(PosAxis(1)) != AxisVector(PosAxis(2));
  }

  /** The angle of the whole-cube group along c, gripped from empty space. */
  lemma TurnedWhole(table: GroupTable, c: nat, m: Move, sensitivity: real, angle: real)
    requires table.order >= 1 && c < 3
    requires forall d: nat :: d < 3 ==> table.Get(PosAxis(d).Name()).Some?
    requires forall d: nat, e: nat :: d < 3 && e < 3 && d != e ==> table.Get(PosAxis(d).Name()) != table.Get(PosAxis(e).Name())
    ensures Turned(table, table.Get(PosAxis(c).Name()).value, -1, m, sensitivity, angle)
      == (if c == 1 then m.dx else if c == 0 then m.dy else -m.dy) * sensitivity / 3.0
  {
    assert table.Get("x") == table.Get(PosAxis(0).Name());
    assert table.Get("y") == table.Get(PosAxis(1).Name());
    assert table.Get("z") == table.Get(PosAxis(2).Name());
  }

  /** A drag from empty space turns the whole cube by a third of a quarter
      turn per cubelet of screen travel: about y by the horizontal travel,
      about x by the vertical one and about z against it. (`WholesDistinct`
      gives the premises for a valid table.) */
  lemma TurnedBackground(table: GroupTable, m: Move, sensitivity: real, angle: real)
    requires table.order >= 1
    requires forall d: nat :: d < 3 ==> table.Get(PosAxis(d).Name()).Some?
    requires forall d: nat, e: nat :: d < 3 && e < 3 && d != e ==> table.Get(PosAxis(d).Name()) != table.Get(PosAxis(e).Name())
    ensures var c := BackgroundAxis(m);
      var g := Grip(table, -1, None, m);
      && g.Some?
      && Turned(table, g.value, -1, m, sensitivity, angle)
         == (if c == 1 then m.dx else if c == 0 then m.dy else -m.dy) * sensitivity / 3.0
  {
    GripByName(table, m);
    TurnedWhole(table, BackgroundAxis(m), m, sensitivity, angle);
  }

  /** A layer turning about a positive axis is driven against the travel
      along the finger, by a third of a quarter turn per cubelet. */
  lemma TurnedLayer(table: GroupTable, g: CubeGroup, index: int, c: nat, m: Move, sensitivity: real, angle: real)
    requires table.order >= 1 && index != -1 && c < 3 && g.axis == AxisVector(PosAxis(c))
    ensures Turned(table, g, index, m, sensitivity, angle) == -m.along * sensitivity / 3.0
  {
    assert (g.axis.x + g.axis.y + g.axis.z) as real == 1.0;
  }

  /** One frame of `update`: the group's angle closes half of its gap to
      the controller's angle, never passing it. */
  function Halfway(current: real, target: real): (r: real)
    ensures target - r == (target - current) / 2.0
    ensures current <= target ==> current <= r <= target
    ensures target <= current ==> target <= r <= current
    ensures r == current <==> current == target
  {
    current + (target - current) / 2.0
  }

  /** The angle `handleUp` twists to: a drag of less than half a quarter
      turn that was fast (the speed test is an input) becomes a whole
      quarter turn its way; otherwise the angle stays. */
  function Released(angle: real, fast: bool): (r: real)
    ensures Mag(angle) >= 0.5 || !fast ==> r == angle
    ensures Mag(angle) < 0.5 && fast && angle != 0.0 ==> Mag(r) == 1.0 && (r > 0.0 <==> angle > 0.0)
  {
    if Mag(angle) < 0.5 && fast then
      if angle == 0.0 then 0.0 else if angle > 0.0 then 1.0 else -1.0
    else angle
  }

  /** A flick commits a quarter turn: released fast, any non-zero drag of
      less than half a quarter turn rounds to one quarter turn its way,
      where released slowly it rounds back to none. */
  lemma FlickCommits(angle: real)
    requires angle != 0.0 && Mag(angle) < 0.5
    ensures Round(Released(angle, true)) == (if angle > 0.0 then 1 else -1)
    ensures Round(Released(angle, false)) == 0
  {
  }

  // ------------------------------------------------------------ controller

  /** `match`: the axes x, y, z in turn, as `MatchFrom` describes. */
  method Match(table: GroupTable, index: int, normal: Vector, finger: Vec3) returns (g: Option<CubeGroup>)
    requires table.order >= 1
    ensures g == MatchFrom(table, index, normal, finger, 0)
  {
    var c := 0;
    while c < 3
      invariant 0 <= c <= 3
      invariant MatchFrom(table, index, normal, finger, c) == MatchFrom(table, index, normal, finger, 0)
    {
      QualifiesDots(normal, finger, c);
      if index == -1 {
        var h := table.Get(PosAxis(c).Name());
        if h.Some? && Dot(h.value.axis, normal) == 0 {
          return h;
        }
      } else if Dot(UnitVector(c), normal) == 0 && DotR(UnitVector(c), finger) == 0.0 {
        var layer := Layer(index, table.order, c);
        return table.Get(Key(PosAxis(c), layer, layer));
      }
      c := c + 1;
    }
    return None;
  }

  /** The group choice in `handleMove`: from empty space by the drag's
      screen direction, from a cubelet by `match` with the finger the drag
      snaps to. */
  method Choose(table: GroupTable, index: int, plane: Option<nat>, m: Move) returns (g: Option<CubeGroup>)
    requires table.order >= 1 && (index != -1 ==> plane.Some? && plane.value < 3)
    ensures g == Grip(table, index, plane, m)
  {
    if index == -1 {
      if Mag(m.dx) > Mag(m.dy) {
        g := table.Get("y");
      } else if m.leftOfCorner {
        g := table.Get("x");
      } else {
        g := table.Get("z");
      }
    } else {
      g := Match(table, index, UnitVector(plane.value), Finger(Snap(m.drag)));
    }
  }

  /** The group registered under `k`, if any, works on the table's cube
      and its slots lie in an arena of `size` slots. */
  predicate FitsAt(table: GroupTable, k: string, size: int)
  {
    k in table.groups && table.groups[k].cube == table.cube && InSlots(table.groups[k].indices.items, size)
  }

  /** What the gesture needs of the table: the whole-cube groups and the
      single layers are registered for its cube and fit the arena. */
  predicate Fitted(table: GroupTable, size: int)
  {
    && table.order >= 1
    && (forall c: nat :: c < 3 ==> FitsAt(table, PosAxis(c).Name(), size))
    && (forall c: nat, l: int :: c < 3 && 1 <= l <= table.order ==> FitsAt(table, Key(PosAxis(c), l, l), size))
  }

  /** A well-formed table over cubelets that address the arena fits it. */
  lemma TableFitted(table: GroupTable, size: int)
    requires table.Valid() && Addressed(table.cube.initials, size)
    ensures Fitted(table, size)
  {
    forall c: nat | c < 3
      ensures FitsAt(table, PosAxis(c).Name(), size)
    {
      WholeAt(table, c);
      RangeInSlots(table.cube.initials, table.order, c, 1, table.order, size);
    }
    forall c: nat, l: int | c < 3 && 1 <= l <= table.order
      ensures FitsAt(table, Key(PosAxis(c), l, l), size)
    {
      LayerAt(table, c, l);
      LayerInSlots(table.cube.initials, table.order, c, l, size);
    }
  }

  /** The group `match` finds, if any, is registered for the table's cube
      and fits the arena. */
  lemma {:induction false} MatchFits(table: GroupTable, index: int, normal: Vector, finger: Vec3, c: nat, size: int)
    requires Fitted(table, size) && c <= 3 && (index == -1 || InCube(index, table.order))
    ensures var r := MatchFrom(table, index, normal, finger, c);
      r.Some? ==> (r.value in table.groups.Values && r.value.cube == table.cube
                   && InSlots(r.value.indices.items, size))
    decreases 3 - c
  {
    if c < 3 {
      if index == -1 {
        assert FitsAt(table, PosAxis(c).Name(), size);
        MatchFits(table, index, normal, finger, c + 1, size);
      } else if Qualifies(normal, finger, c) {
        LayerInRange(index, table.order, c);
        var l := Layer(index, table.order, c);
        assert FitsAt(table, Key(PosAxis(c), l, l), size);
      } else {
        MatchFits(table, index, normal, finger, c + 1, size);
      }
    }
  }

  /** Whatever a drag grips is registered for the table's cube and fits
      the arena. */
  lemma GripFits(table: GroupTable, index: int, plane: Option<nat>, m: Move, size: int)
    requires Fitted(table, size) && (index == -1 || InCube(index, table.order))
    requires index != -1 ==> plane.Some? && plane.value < 3
    ensures var g := Grip(table, index, plane, m);
      g.Some? ==> (g.value in table.groups.Values && g.value.cube == table.cube
                   && InSlots(g.value.indices.items, size))
  {
    if index == -1 {
      GripByName(table, m);
      assert FitsAt(table, PosAxis(BackgroundAxis(m)).Name(), size);
    } else {
      MatchFits(table, index, UnitVector(plane.value), Finger(Snap(m.drag)), 0, size);
    }
  }

  /** The part of the controller's state cursor events change: the two
      flags, the angle, the group and the finger. */
  datatype Gesture = Gesture(dragging: bool, rotating: bool, angle: real, group: Option<CubeGroup>, finger: Vec3)

  /** Whether a move turns the drag into a rotation: the controller is
      enabled, dragging, past the threshold, and the cube is not locked. */
  predicate Starts(st: Gesture, disabled: bool, locked: bool, m: Move)
  {
    !disabled && st.dragging && m.far && !locked
  }

  /** The gesture after `handleMove`. Disabled, or dragging within the
      threshold, nothing changes; dragging on a locked cube ends the
      gesture; otherwise dragging becomes rotating with the group the drag
      grips, and a rotation with a group sets the angle. */
  function Moved(table: GroupTable, st: Gesture, disabled: bool, locked: bool, index: int, plane: Option<nat>,
                 m: Move, sensitivity: real): (r: Gesture)
    requires table.order >= 1 && (index != -1 ==> plane.Some? && plane.value < 3)
    ensures !(r.dragging && r.rotating) || (st.dragging && st.rotating)
    ensures Starts(st, disabled, locked, m) ==> r.rotating && r.group == Grip(table, index, plane, m)
    ensures !disabled && st.dragging && m.far && locked ==> !r.dragging && !r.rotating && r.group == st.group
  {
    if disabled || (st.dragging && !m.far) then st
    else if st.dragging && locked then st.(dragging := false, rotating := false)
    else if st.dragging then Followed(table, Gripped(table, st, index, plane, m), index, m, sensitivity)
    else Followed(table, st, index, m, sensitivity)
  }

  /** The drag past the threshold on an unlocked cube: the gesture turns
      from dragging into rotating the group the drag grips, and a press on
      a cubelet records the snapped finger direction. */
  function Gripped(table: GroupTable, st: Gesture, index: int, plane: Option<nat>, m: Move): (r: Gesture)
    requires table.order >= 1 && (index != -1 ==> plane.Some? && plane.value < 3)
    ensures !r.dragging && r.rotating && r.angle == st.angle
  {
    Gesture(false, true, st.angle, Grip(table, index, plane, m),
            if index == -1 then st.finger else Finger(Snap(m.drag)))
  }

  /** While rotating a group, the angle follows the drag; otherwise the
      gesture is left as it is. */
  function Followed(table: GroupTable, st: Gesture, index: int, m: Move, sensitivity: real): (r: Gesture)
    requires table.order >= 1
    ensures r.(angle := st.angle) == st
    ensures !(st.rotating && st.group.Some?) ==> r == st
  {
    if st.rotating && st.group.Some? then
      st.(angle := Turned(table, st.group.value, index, m, sensitivity, st.angle))
    else st
  }


  /** The Controller: the flags of the gesture under way, the group it
      turns and the angle it drives that group to, what was pressed (the
      holder), the lock and disable flags behind their setters, and the
      calls made to the tap listeners. */
  class Controller {
    const cube: Cube
    const table: GroupTable
    var dragging: bool
    var rotating: bool
    /** The angle the turning group is driven to, in quarter turns. */
    var angle: real
    var group: Option<CubeGroup>
    /** `holder.index`: the slot pressed, -1 for empty space. */
    var holderIndex: int
    /** `holder.plane`: which of the three pick planes was pressed. */
    var holderPlane: Option<nat>
    /** `holder.vector` as `match` reads it. */
    var finger: Vec3
    var lock: bool
    var disable: bool
    var sensitivity: real
    var tapped: seq<Tap>

    /** The gesture is never both dragging and rotating; a pressed slot is
        a slot of the cube on one of the three planes; the group held is a
        registered group of this cube whose slots lie in the arena; every
        cubelet, in the arena or held by any group, addresses the arena. */
    predicate Valid()
      reads this, cube.cubelets, table.groups.Values
    {
      && table.cube == cube && Fitted(table, cube.cubelets.Length)
      && Addressed(cube.initials, cube.cubelets.Length)
      && Addressed(cube.cubelets[..], cube.cubelets.Length)
      && (forall g :: g in table.groups.Values ==> Addressed(g.cubelets, cube.cubelets.Length))
      && !(dragging && rotating)
      && (holderPlane.Some? ==> holderPlane.value < 3)
      && (holderIndex != -1 ==> holderPlane.Some? && InCube(holderIndex, table.order))
      && (group.Some? ==>
            group.value in table.groups.Values && group.value.cube == cube
            && InSlots(group.value.indices.items, cube.cubelets.Length))
    }

    /** A controller over a freshly built table, no group being turned. */
    constructor (table: GroupTable)
      requires table.Valid()
      requires Addressed(table.cube.initials, table.cube.cubelets.Length)
      requires Addressed(table.cube.cubelets[..], table.cube.cubelets.Length)
      requires forall g :: g in table.groups.Values ==> g.cubelets == []
      ensures Valid() && this.table == table && cube == table.cube
      ensures !dragging && !rotating && angle == 0.0 && group == None
      ensures holderIndex == -1 && holderPlane == None && finger == Zero
      ensures !lock && !disable && sensitivity == 1.0 && tapped == []
    {
      TableFitted(table, table.cube.cubelets.Length);
      this.table := table;
      cube := table.cube;
      dragging := false;
      rotating := false;
      angle := 0.0;
      group := None;
      holderIndex := -1;
      holderPlane := None;
      finger := Zero;
      lock := false;
      disable := false;
      sensitivity := 1.0;
      tapped := [];
    }

    /** What `handleUp` does besides resetting the flags and the holder's
        index: the tap listeners hear of a press still dragging, and a
        turning group is twisted to its released angle (to 0 while locked)
        and lets go; nothing else changes. */
    twostate predicate Settled(fast: bool)
      requires old(Valid())
      reads this, cube, cube.cubelets, table.groups.Values
    {
      && tapped == old(tapped) + (if old(dragging) then [Tap(old(holderIndex), FaceOf(old(holderPlane)))] else [])
      && group == old(group) && finger == old(finger) && sensitivity == old(sensitivity)
      && if old(rotating) && old(group).Some? then
           var g := old(group).value;
           var target := if old(lock) then 0.0 else Released(old(angle), fast);
           && angle == (if old(lock) then old(angle) else target)
           && cube.history == old(cube.history)
                + (if Round(target) != 0 then [g.Action(Round(target) > 0, Abs(Round(target)))] else [])
           && cube.cubelets[..] == WriteBack(old(cube.cubelets[..]), old(g.cubelets))
           && cube.updates == old(cube.updates) + (if Round(target) != 0 then 1 else 0)
           && g.cubelets == [] && g.angle == 0.0 && !cube.lock
           && (forall h :: h in table.groups.Values && h != g ==> unchanged(h))
         else
           && angle == old(angle)
           && unchanged(cube, cube.cubelets) && (forall h :: h in table.groups.Values ==> unchanged(h))
    }

    /** `update`, run on every animation frame: while a group is being
        turned, its angle moves halfway to the controller's angle. Nothing
        else changes. */
    method Update()
      requires Valid()
      modifies table.groups.Values
      ensures Valid()
      ensures rotating && group.Some? ==>
        group.value.angle == Halfway(old(group.value.angle), angle) && unchanged(group.value`cubelets)
      ensures forall h :: h in table.groups.Values && !(rotating && group == Some(h)) ==> unchanged(h)
    {
      if rotating && group.Some? {
        var g := group.value;
        if g.angle != angle {
          var delta := (angle - g.angle) / 2.0;
          g.angle := g.angle + delta;
        }
      }
    }

    /** `handleUp`. */
    method HandleUp(fast: bool)
      requires Valid()
      modifies this, cube, cube.cubelets, table.groups.Values
      ensures Valid() && Settled(fast)
      ensures !dragging && !rotating && holderIndex == -1
      ensures holderPlane == old(holderPlane) && lock == old(lock) && disable == old(disable)
    {
      if rotating && group.Some? {
        LetGo(fast);
      }
      Reset();
    }

    /** The end of `handleUp`: the tap listeners hear of a press still
        dragging, and the flags and the holder's index are reset. */
    method Reset()
      requires Valid()
      modifies this`tapped, this`holderIndex, this`dragging, this`rotating
      ensures Valid() && !dragging && !rotating && holderIndex == -1
      ensures tapped == old(tapped) + (if old(dragging) then [Tap(old(holderIndex), FaceOf(holderPlane))] else [])
    {
      tapped := tapped + (if dragging then [Tap(holderIndex, FaceOf(holderPlane))] else []);
      holderIndex := -1;
      dragging := false;
      rotating := false;
    }

    /** The twist `handleUp` gives the turning group: to the released
        angle, or to 0 while locked, after which it holds nothing. */
    method LetGo(fast: bool)
      requires Valid() && rotating && group.Some?
      modifies this`angle, cube, cube.cubelets, group.value
      ensures Valid() && rotating
      ensures var g := group.value;
        var target := if lock then 0.0 else Released(old(angle), fast);
        && angle == (if lock then old(angle) else target)
        && cube.history == old(cube.history)
             + (if Round(target) != 0 then [g.Action(Round(target) > 0, Abs(Round(target)))] else [])
        && cube.cubelets[..] == WriteBack(old(cube.cubelets[..]), old(g.cubelets))
        && cube.updates == old(cube.updates) + (if Round(target) != 0 then 1 else 0)
        && g.cubelets == [] && g.angle == 0.0 && !cube.lock
    {
      var g := group.value;
      if !lock {
        angle := Released(angle, fast);
      }
      var animated := g.Twist(if lock then 0.0 else angle);
      WriteBackAddressed(old(cube.cubelets[..]), old(g.cubelets));
    }

    /** The `lock` setter: the gesture under way ends first. */
    method SetLock(value: bool, fast: bool)
      requires Valid()
      modifies this, cube, cube.cubelets, table.groups.Values
      ensures Valid() && Settled(fast)
      ensures !dragging && !rotating && holderIndex == -1 && holderPlane == old(holderPlane)
      ensures lock == value && disable == old(disable)
    {
      HandleUp(fast);
      lock := value;
    }

    /** The `disable` setter: the gesture under way ends first. */
    method SetDisable(value: bool, fast: bool)
      requires Valid()
      modifies this, cube, cube.cubelets, table.groups.Values
      ensures Valid() && Settled(fast)
      ensures !dragging && !rotating && holderIndex == -1 && holderPlane == old(holderPlane)
      ensures disable == value && lock == old(lock)
    {
      HandleUp(fast);
      disable := value;
    }

    /** `handleDown`, given what the ray through the cursor meets on each
        of the three pick planes. A gesture under way ends first; then the
        nearest hit on the cube, if any, becomes the holder. */
    method HandleDown(hits: seq<Hit>, fast: bool)
      requires Valid() && |hits| == 3
      modifies this, cube, cube.cubelets, table.groups.Values
      ensures Valid()
      ensures old(disable) ==> unchanged(this, cube, cube.cubelets) && (forall h :: h in table.groups.Values ==> unchanged(h))
      ensures !old(disable) ==>
        && Settled(fast) && dragging && !rotating && lock == old(lock) && disable == old(disable)
        && var r := PickFrom(Pick(old(holderPlane), -1, 0.0), hits, 0, table.order);
           holderPlane == r.plane && holderIndex == r.index
    {
      if disable {
        return;
      }
      if dragging || rotating {
        HandleUp(fast);
      }
      Press(hits);
    }

    /** The press itself: dragging starts, and the nearest hit on the cube
        over the three planes, if any, becomes the holder; with none the
        index is -1 and the plane stays. */
    method Press(hits: seq<Hit>)
      requires Valid() && |hits| == 3 && !rotating
      modifies this`dragging, this`holderIndex, this`holderPlane
      ensures Valid() && dragging
      ensures var r := PickFrom(Pick(old(holderPlane), -1, 0.0), hits, 0, table.order);
        holderPlane == r.plane && holderIndex == r.index
    {
      dragging := true;
      holderIndex := -1;
      var n := table.order;
      var plane0 := holderPlane;
      var st := Pick(plane0, -1, 0.0);
      for i := 0 to 3
        invariant PickFrom(st, hits, i, n) == PickFrom(Pick(plane0, -1, 0.0), hits, 0, n)
        invariant st.plane.Some? ==> st.plane.value < 3
        invariant st.index != -1 ==> st.plane.Some? && InCube(st.index, n)
      {
        st := PickStep(st, hits[i], i, n);
      }
      holderPlane := st.plane;
      holderIndex := st.index;
    }

    /** The part of the state cursor events change. */
    function Now(): Gesture
      reads this
    {
      Gesture(dragging, rotating, angle, group, finger)
    }

    /** `handleMove`. While dragging, nothing happens until the cursor
        leaves the threshold; then a locked cube ends the gesture, and
        otherwise the drag becomes a rotation of the group it grips, which
        takes hold of its cubelets. While rotating, the angle follows the
        drag. Only a group taking hold changes the cube (its lock). */
    method HandleMove(m: Move)
      requires Valid()
      modifies this, cube`lock, table.groups.Values
      ensures Valid()
      ensures Now() == Moved(table, old(Now()), old(disable), old(cube.lock), holderIndex, holderPlane, m, sensitivity)
      ensures holderIndex == old(holderIndex) && holderPlane == old(holderPlane)
      ensures lock == old(lock) && disable == old(disable) && sensitivity == old(sensitivity) && tapped == old(tapped)
      ensures if Starts(old(Now()), old(disable), old(cube.lock), m) && group.Some? then
          var g := group.value;
          && g.cubelets == old(g.cubelets) + Gather(old(cube.cubelets[..]), g.indices.items)
          && g.angle == 0.0 && cube.lock
          && (forall h :: h in table.groups.Values && h != g ==> unchanged(h))
        else
          cube.lock == old(cube.lock) && (forall h :: h in table.groups.Values ==> unchanged(h))
    {
      if disable {
        return;
      }
      if dragging {
        Drag(m);
      } else {
        Follow(m);
      }
    }

    /** A move while dragging: nothing within the threshold; past it, a
        locked cube ends the gesture and an unlocked one starts turning the
        group the drag grips. */
    method Drag(m: Move)
      requires Valid() && dragging
      modifies this`dragging, this`rotating, this`group, this`finger, this`angle, cube`lock, table.groups.Values
      ensures Valid()
      ensures Now() == Moved(table, old(Now()), false, old(cube.lock), holderIndex, holderPlane, m, sensitivity)
      ensures if Starts(old(Now()), false, old(cube.lock), m) && group.Some? then
          var g := group.value;
          && g.cubelets == old(g.cubelets) + Gather(old(cube.cubelets[..]), g.indices.items)
          && g.angle == 0.0 && cube.lock
          && (forall h :: h in table.groups.Values && h != g ==> unchanged(h))
        else
          cube.lock == old(cube.lock) && (forall h :: h in table.groups.Values ==> unchanged(h))
    {
      if !m.far {
        return;
      }
      if cube.lock {
        dragging := false;
        rotating := false;
        return;
      }
      Start(m);
    }

    /** The drag past the threshold on an unlocked cube grips a group,
        which takes hold of its cubelets. */
    method Start(m: Move)
      requires Valid() && dragging && !cube.lock
      modifies this`dragging, this`rotating, this`group, this`finger, this`angle, cube`lock, table.groups.Values
      ensures Valid()
      ensures Now() == Followed(table, Gripped(table, old(Now()), holderIndex, holderPlane, m), holderIndex, m, sensitivity)
      ensures if group.Some? then
          var g := group.value;
          && g.cubelets == old(g.cubelets) + Gather(old(cube.cubelets[..]), g.indices.items)
          && g.angle == 0.0 && cube.lock
          && (forall h :: h in table.groups.Values && h != g ==> unchanged(h))
        else
          !cube.lock && (forall h :: h in table.groups.Values ==> unchanged(h))
    {
      var index := holderIndex;
      var g := Choose(table, index, holderPlane, m);
      GripFits(table, index, holderPlane, m, cube.cubelets.Length);
      Begin(g, if index == -1 then finger else Finger(Snap(m.drag)));
      if g.Some? {
        angle := Turned(table, g.value, index, m, sensitivity, angle);
      }
    }

    /** While a group is being turned, its target angle follows the drag. */
    method Follow(m: Move)
      requires Valid()
      modifies this`angle
      ensures Valid()
      ensures Now() == Followed(table, old(Now()), holderIndex, m, sensitivity)
    {
      if rotating && group.Some? {
        angle := Turned(table, group.value, holderIndex, m, sensitivity, angle);
      }
    }

    /** The drag leaving the threshold on an unlocked cube becomes a
        rotation of the group `g` it grips, with finger direction `f`, and
        that group takes hold of the cubelets in its slots. */
    method Begin(g: Option<CubeGroup>, f: Vec3)
      requires Valid() && dragging && !cube.lock
      requires g.Some? ==> g.value in table.groups.Values && g.value.cube == cube
                           && InSlots(g.value.indices.items, cube.cubelets.Length)
      modifies this`dragging, this`rotating, this`group, this`finger, cube`lock, table.groups.Values
      ensures Valid()
      ensures Now() == Gesture(false, true, old(angle), g, f)
      ensures if g.Some? then
          && g.value.cubelets == old(g.value.cubelets) + Gather(old(cube.cubelets[..]), g.value.indices.items)
          && g.value.angle == 0.0 && cube.lock
          && (forall h :: h in table.groups.Values && h != g.value ==> unchanged(h))
        else
          !cube.lock && (forall h :: h in table.groups.Values ==> unchanged(h))
    {
      dragging := false;
      rotating := true;
      group := g;
      finger := f;
      if g.Some? {
        Grab();
      }
    }

    /** `hold` on the group gripped. */
    method Grab()
      requires Valid() && group.Some?
      modifies cube`lock, group.value
      ensures Valid()
      ensures var g := group.value;
        && g.cubelets == old(g.cubelets) + Gather(cube.cubelets[..], g.indices.items)
        && g.angle == 0.0 && cube.lock
    {
      var g := group.value;
      GatherAddressed(cube.cubelets[..], g.indices.items, cube.cubelets.Length);
      g.Hold();
    }
  }
}
