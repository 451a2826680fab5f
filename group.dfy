/** Groups of cubelet slots that turn together, and the table that names
    them (src/cuber/group.ts).

    Angles are measured in quarter turns (radians divided by pi/2), so
    `Math.round(angle / (Math.PI / 2)) * (Math.PI / 2)` becomes `Round(angle)`.
    The scene graph (adding and removing cubelets from THREE groups, matrix
    updates, rotating a cubelet's own transform) is not part of this model:
    a cubelet is a value whose `index` names the slot it is written back to. */
module Groups {
  import opened Wrappers
  import opened Text
  import opened Layout
  import opened Notation

  /** A rotation axis with integer components (AXIS_VECTOR). */
  datatype Vector = Vector(x: int, y: int, z: int)

  function AxisVector(a: Axis): (v: Vector)
    ensures v != Diagonal
  {
    match a
    case X => Vector(1, 0, 0)
    case Y => Vector(0, 1, 0)
    case Z => Vector(0, 0, 1)
    case NegX => Vector(-1, 0, 0)
    case NegY => Vector(0, -1, 0)
    case NegZ => Vector(0, 0, -1)
  }

  /** AXIS_VECTOR["a"], the axis of the groups that never turn as a layer. */
  const Diagonal := Vector(1, 1, 1)

  function Opposite(v: Vector): Vector
  {
    Vector(-v.x, -v.y, -v.z)
  }

  /** Opposite axes have opposite vectors, and distinct axes distinct ones. */
  lemma AxisVectorNegate(a: Axis, b: Axis)
    ensures AxisVector(a.Negate()) == Opposite(AxisVector(a))
    ensures AxisVector(a) == AxisVector(b) <==> a == b
  {
  }

  /** The middle layer of an odd cube, or the middle two of an even one,
      are layers of the cube. */
  lemma MiddleLayers(n: int)
    requires n >= 1
    ensures 1 <= (n + 1) / 2 <= (n + 2) / 2 <= n
    ensures (n + 2) / 2 - (n + 1) / 2 == (if n % 2 == 0 then 1 else 0)
  {
  }

  /** An axis and its negation run along the same coordinate. */
  lemma SameCoordinate(a: Axis, b: Axis)
    requires b == a || b == a.Negate()
    ensures Coordinate(b) == Coordinate(a)
  {
  }

  /** What `cube.record` is given: a notation token, its direction and the
      number of quarter turns (twister.ts is not part of this model). */
  datatype TwistAction = TwistAction(group: string, reverse: bool, times: int)

  /** `Math.round`: halves round up. */
  function Round(x: real): (k: int)
    ensures x - 0.5 < k as real <= x + 0.5
  {
    (x + 0.5).Floor
  }

  lemma RoundWhole(k: int)
    ensures Round(k as real) == k
  {
  }

  /** The part of a cube the groups work on (cube.ts is not part of this
      model): its order, the cubelets it was built from, the slot arena,
      the lock, the history `record` appends to, and a count of the
      `update()` calls. */
  class Cube {
    const order: int
    const initials: seq<Cubelet>
    const cubelets: array<Cubelet>
    var lock: bool
    var history: seq<TwistAction>
    var updates: nat

    constructor (order: int, initials: seq<Cubelet>)
      requires order >= 1
      ensures this.order == order && this.initials == initials
      ensures fresh(cubelets) && cubelets[..] == initials
      ensures !lock && history == [] && updates == 0
    {
      this.order := order;
      this.initials := initials;
      cubelets := new Cubelet[|initials|](i requires 0 <= i < |initials| => initials[i]);
      lock := false;
      history := [];
      updates := 0;
    }

    /** `record`: the action goes to the end of the history. */
    method Record(action: TwistAction)
      modifies this`history
      ensures history == old(history) + [action]
    {
      history := history + [action];
    }

    /** `update`, counted. */
    method Update()
      modifies this`updates
      ensures updates == old(updates) + 1
    {
      updates := updates + 1;
    }
  }

  /** An `indices` array. Groups built from the same template hold the same
      object, so they share it rather than a copy. Once the table is built
      nothing in the core pushes to it again. */
  class IndexList {
    const items: seq<int>

    constructor (items: seq<int>)
      ensures this.items == items
    {
      this.items := items;
    }
  }

  /** Every index names a slot of an arena of `size` slots. */
  predicate InSlots(idx: seq<int>, size: int)
  {
    forall k :: 0 <= k < |idx| ==> 0 <= idx[k] < size
  }

  /** Every cubelet's own index names a slot of an arena of `size` slots. */
  predicate Addressed(cs: seq<Cubelet>, size: int)
  {
    forall k :: 0 <= k < |cs| ==> 0 <= cs[k].index < size
  }

  /** The cubelets found in the slots `idx`, in that order. */
  function Gather(slots: seq<Cubelet>, idx: seq<int>): (r: seq<Cubelet>)
    requires InSlots(idx, |slots|)
    ensures |r| == |idx|
    ensures forall k :: 0 <= k < |idx| ==> r[k] == slots[idx[k]]
  {
    seq(|idx|, k requires 0 <= k < |idx| => slots[idx[k]])
  }

  /** The arena after `drop` has popped `held` off its end one by one,
      storing each cubelet at the slot its index names. */
  function WriteBack(slots: seq<Cubelet>, held: seq<Cubelet>): (r: seq<Cubelet>)
    requires Addressed(held, |slots|)
    ensures |r| == |slots|
    decreases |held|
  {
    if held == [] then slots
    else
      var c := held[|held| - 1];
      WriteBack(slots[c.index := c], held[..|held| - 1])
  }

  /** After `drop`, a slot that no held cubelet names keeps its cubelet, and
      a slot that some do holds the earliest of them (it is popped last). */
  lemma {:induction false} WriteBackAt(slots: seq<Cubelet>, held: seq<Cubelet>, j: int)
    requires Addressed(held, |slots|) && 0 <= j < |slots|
    ensures (forall k :: 0 <= k < |held| ==> held[k].index != j) ==> WriteBack(slots, held)[j] == slots[j]
    ensures forall k :: 0 <= k < |held| && held[k].index == j && (forall m :: 0 <= m < k ==> held[m].index != j) ==>
                WriteBack(slots, held)[j] == held[k]
    decreases |held|
  {
    if held != [] {
      var c := held[|held| - 1];
      var rest := held[..|held| - 1];
      assert Addressed(rest, |slots|);
      assert WriteBack(slots, held) == WriteBack(slots[c.index := c], rest);
      WriteBackAt(slots[c.index := c], rest, j);
      forall k | 0 <= k < |held| && held[k].index == j && (forall m :: 0 <= m < k ==> held[m].index != j)
        ensures WriteBack(slots, held)[j] == held[k]
      {
        if k < |held| - 1 {
          assert rest[k] == held[k];
          assert forall m :: 0 <= m < k ==> rest[m] == held[m];
        } else {
          assert forall m :: 0 <= m < |rest| ==> rest[m] == held[m];
        }
      }
    }
  }

  /** A consistent arena holds in every slot the cubelet whose index is that
      slot. */
  predicate Consistent(slots: seq<Cubelet>)
  {
    forall j :: 0 <= j < |slots| ==> slots[j].index == j
  }

  /** Holding any slots of a consistent arena and dropping them again leaves
      the arena as it was. */
  lemma {:induction false} HoldDropRestores(slots: seq<Cubelet>, idx: seq<int>)
    requires Consistent(slots) && InSlots(idx, |slots|)
    ensures Addressed(Gather(slots, idx), |slots|)
    ensures WriteBack(slots, Gather(slots, idx)) == slots
    decreases |idx|
  {
    var held := Gather(slots, idx);
    if idx != [] {
      var last := idx[|idx| - 1];
      var front := idx[..|idx| - 1];
      assert held[..|held| - 1] == Gather(slots, front);
      assert slots[held[|held| - 1].index := held[|held| - 1]] == slots;
      HoldDropRestores(slots, front);
    }
  }

  /** The cubelets found in some slots of an addressed arena are addressed. */
  lemma GatherAddressed(slots: seq<Cubelet>, idx: seq<int>, size: int)
    requires InSlots(idx, |slots|) && Addressed(slots, size)
    ensures Addressed(Gather(slots, idx), size)
  {
  }

  /** The slots of a layer name cubelets of the list, so they lie in an
      arena every one of those cubelets addresses. */
  lemma {:induction false} LayerInSlots(cs: seq<Cubelet>, n: int, axis: nat, l: int, size: int)
    requires n >= 1 && axis < 3 && Addressed(cs, size)
    ensures InSlots(LayerIndices(cs, n, axis, l), size)
    decreases |cs|
  {
    if cs != [] {
      var front := cs[..|cs| - 1];
      assert forall k :: 0 <= k < |front| ==> front[k] == cs[k];
      LayerInSlots(front, n, axis, l, size);
    }
  }

  lemma {:induction false} RangeInSlots(cs: seq<Cubelet>, n: int, axis: nat, from: int, to: int, size: int)
    requires n >= 1 && axis < 3 && Addressed(cs, size)
    ensures InSlots(RangeIndices(cs, n, axis, from, to), size)
    decreases if to < from then 0 else to - from + 1
  {
    if from <= to {
      RangeInSlots(cs, n, axis, from, to - 1, size);
      LayerInSlots(cs, n, axis, to, size);
    }
  }

  /** Writing addressed cubelets back keeps an addressed arena addressed. */
  lemma {:induction false} WriteBackAddressed(slots: seq<Cubelet>, held: seq<Cubelet>)
    requires Addressed(slots, |slots|) && Addressed(held, |slots|)
    ensures Addressed(WriteBack(slots, held), |slots|)
    decreases |held|
  {
    if held != [] {
      var c := held[|held| - 1];
      var rest := held[..|held| - 1];
      assert Addressed(rest, |slots|);
      WriteBackAddressed(slots[c.index := c], rest);
    }
  }

  /** A group of slots that turns as one (CubeGroup). */
  class CubeGroup {
    const cube: Cube
    const name: string
    const indices: IndexList
    const axis: Vector
    /** The cubelets held while the group is turning. */
    var cubelets: seq<Cubelet>
    /** The current angle, in quarter turns. */
    var angle: real

    constructor (cube: Cube, name: string, indices: IndexList, axis: Vector)
      ensures this.cube == cube && this.name == name && this.indices == indices && this.axis == axis
      ensures cubelets == [] && angle == 0.0
    {
      this.cube := cube;
      this.name := name;
      this.indices := indices;
      this.axis := axis;
      cubelets := [];
      angle := 0.0;
    }

    /** CubeGroup.action: the notation for turning this group. A range name
        becomes a token by `Emit`; any other name is the token itself. The
        count of quarter turns is passed through. */
    function Action(reverse: bool, times: int): (r: TwistAction)
      ensures r.times == times
      ensures ParseRangeName(name).None? ==> r.group == name && r.reverse == reverse
    {
      match ParseRangeName(name)
      case None => TwistAction(name, reverse, times)
      case Some(p) =>
        var tok := Emit(cube.order, p.axis, p.from, p.to, reverse);
        TwistAction(tok.text, tok.reverse, times)
    }

    /** CubeGroup.hold: the angle goes to 0, the cubelets in the group's
        slots are appended in the order of `indices`, and the cube locks. */
    method Hold()
      requires InSlots(indices.items, cube.cubelets.Length)
      modifies this, cube`lock
      ensures angle == 0.0 && cube.lock
      ensures cubelets == old(cubelets) + Gather(cube.cubelets[..], indices.items)
    {
      angle := 0.0;
      var k := 0;
      while k < |indices.items|
        invariant 0 <= k <= |indices.items|
        invariant angle == 0.0
        invariant cubelets == old(cubelets) + Gather(cube.cubelets[..], indices.items[..k])
      {
        cubelets := cubelets + [cube.cubelets[indices.items[k]]];
        k := k + 1;
      }
      assert indices.items[..k] == indices.items;
      cube.lock := true;
    }

    /** CubeGroup.drop: the angle snaps to the nearest quarter turn; every
        held cubelet is popped, last first, and stored at the slot its index
        names; the cube unlocks and is updated when the snapped angle is not
        0; the angle ends at 0. */
    method Drop()
      requires Addressed(cubelets, cube.cubelets.Length)
      modifies this, cube`lock, cube`updates, cube.cubelets
      ensures cubelets == [] && angle == 0.0 && !cube.lock
      ensures cube.cubelets[..] == WriteBack(old(cube.cubelets[..]), old(cubelets))
      ensures cube.updates == old(cube.updates) + (if Round(old(angle)) != 0 then 1 else 0)
      ensures cube.history == old(cube.history)
    {
      angle := Round(angle) as real;
      while cubelets != []
        invariant Addressed(cubelets, cube.cubelets.Length)
        invariant WriteBack(cube.cubelets[..], cubelets) == WriteBack(old(cube.cubelets[..]), old(cubelets))
        invariant angle == Round(old(angle)) as real
        invariant cube.updates == old(cube.updates) && cube.history == old(cube.history)
        decreases |cubelets|
      {
        var c := cubelets[|cubelets| - 1];
        cubelets := cubelets[..|cubelets| - 1];
        cube.cubelets[c.index] := c;
      }
      cube.lock := false;
      if angle != 0.0 {
        cube.Update();
      }
      angle := 0.0;
    }

    /** CubeGroup.twist towards `target` (quarter turns): the target snaps
        to a whole number of quarter turns; a non-zero one is recorded as
        the action turning this group that many times, forwards when it is
        positive; then the group drops. The animation towards the target is
        taken to run to its end; `animated` says whether there was one. */
    method Twist(target: real) returns (animated: bool)
      requires Addressed(cubelets, cube.cubelets.Length)
      modifies this, cube`lock, cube`updates, cube`history, cube.cubelets
      ensures animated <==> Round(target) as real != old(angle)
      ensures cube.history == old(cube.history)
        + (if Round(target) != 0 then [Action(Round(target) > 0, Abs(Round(target)))] else [])
      ensures cubelets == [] && angle == 0.0 && !cube.lock
      ensures cube.cubelets[..] == WriteBack(old(cube.cubelets[..]), old(cubelets))
      ensures cube.updates == old(cube.updates) + (if Round(target) != 0 then 1 else 0)
    {
      var turns := Round(target);
      var reverse := turns > 0;
      var times := Abs(turns);
      if times != 0 {
        cube.Record(Action(reverse, times));
      }
      var delta := turns as real - angle;
      animated := delta != 0.0;
      if animated {
        angle := turns as real;
      }
      RoundWhole(turns);
      Drop();
    }
  }

  // ------------------------------------------------------------ the table

  /** `["", "center", "edge", "corner"][faces]`: the type group of a cubelet
      with that many outer layers; 0 names no group. */
  function TypeName(faces: nat): string
    requires faces <= 3
  {
    ["", "center", "edge", "corner"][faces]
  }

  /** The names the constructor registers besides the range groups. */
  predicate Special(k: string)
  {
    k in {"center", "edge", "corner", "x", "y", "z", ".", "~"}
  }

  /** Range names and type names never coincide. */
  lemma TypeNamesDiffer(a: Axis, f: int, t: int)
    ensures forall faces :: 0 <= faces <= 3 ==> TypeName(faces) != Key(a, f, t)
    ensures !Special(Key(a, f, t))
  {
    KeyHasColon(a, f, t);
  }

  /** The contents of the indices arrays as the constructor's first two loops
      leave them: every positive range and every type name maps to []. */
  predicate Emptied(lists: map<string, seq<int>>, n: int)
  {
    && (forall c: nat, f, t :: c < 3 && 1 <= f <= t <= n ==> Key(PosAxis(c), f, t) in lists && lists[Key(PosAxis(c), f, t)] == [])
    && (forall faces :: 1 <= faces <= 3 ==> TypeName(faces) in lists && lists[TypeName(faces)] == [])
    && (forall k :: k in lists ==> ':' in k || k in {"center", "edge", "corner"})
  }

  /** The constructor's first two loops, on the contents of the indices
      arrays: an empty array for every `axis:from:to` with from <= to on
      the positive axes, then for the three cubelet types. */
  method EmptyLists(n: int) returns (lists: map<string, seq<int>>)
    requires n >= 1
    ensures Emptied(lists, n)
  {
    lists := map[];
    var c := 0;
    while c < 3
      invariant 0 <= c <= 3
      invariant forall c': nat, f, t :: c' < c && 1 <= f <= t <= n ==> Key(PosAxis(c'), f, t) in lists
      invariant forall k :: k in lists ==> lists[k] == [] && ':' in k
    {
      lists := EmptyAxis(lists, n, c);
      c := c + 1;
    }
    KeysHaveColon();
    lists := lists["center" := []]["edge" := []]["corner" := []];
  }

  /** One round of the constructor's first loop: an empty array for every
      range of one axis. */
  method EmptyAxis(lists0: map<string, seq<int>>, n: int, c: nat) returns (lists: map<string, seq<int>>)
    requires n >= 1 && c < 3
    requires forall k :: k in lists0 ==> lists0[k] == [] && ':' in k
    ensures forall k :: k in lists0 ==> k in lists
    ensures forall f, t :: 1 <= f <= t <= n ==> Key(PosAxis(c), f, t) in lists
    ensures forall k :: k in lists ==> lists[k] == [] && ':' in k
  {
    lists := lists0;
    var from := 1;
    while from <= n
      invariant 1 <= from <= n + 1
      invariant forall k :: k in lists0 ==> k in lists
      invariant forall f, t :: 1 <= f < from && f <= t <= n ==> Key(PosAxis(c), f, t) in lists
      invariant forall k :: k in lists ==> lists[k] == [] && ':' in k
    {
      var to := from;
      while to <= n
        invariant from <= to <= n + 1
        invariant forall k :: k in lists0 ==> k in lists
        invariant forall f, t :: 1 <= f < from && f <= t <= n ==> Key(PosAxis(c), f, t) in lists
        invariant forall t :: from <= t < to ==> Key(PosAxis(c), from, t) in lists
        invariant forall k :: k in lists ==> lists[k] == [] && ':' in k
      {
        KeyHasColon(PosAxis(c), from, to);
        lists := lists[Key(PosAxis(c), from, to) := []];
        to := to + 1;
      }
      from := from + 1;
    }
  }

  /** Every single-layer group of the positive axes is present. */
  predicate HasLayerKeys(lists: map<string, seq<int>>, n: int)
  {
    forall c: nat, l :: c < 3 && 1 <= l <= n ==> Key(PosAxis(c), l, l) in lists
  }

  /** One push of the constructor: `slot` goes to the end of the array `k`. */
  function Push(lists: map<string, seq<int>>, k: string, slot: int): (r: map<string, seq<int>>)
    requires k in lists
    ensures r.Keys == lists.Keys && r[k] == lists[k] + [slot]
  {
    lists[k := lists[k] + [slot]]
  }

  /** What one round of the constructor's loop over `cube.initials` does to
      the arrays: an existing cubelet's current slot is pushed to the
      single-layer group of each of its three initial layers, then to the
      group of its type if there is one. */
  function Placement(lists: map<string, seq<int>>, cubelet: Cubelet, n: int): (r: map<string, seq<int>>)
    requires n >= 1 && HasLayerKeys(lists, n)
    requires cubelet.exist ==> InCube(cubelet.initial, n)
    ensures r.Keys == lists.Keys
  {
    if !cubelet.exist then lists
    else
      var m := LayerPushes(lists, cubelet, n);
      var group := TypeName(Faces(cubelet.initial, n));
      if group in m then Push(m, group, cubelet.index) else m
  }

  /** The three layer pushes of one round. */
  function LayerPushes(lists: map<string, seq<int>>, cubelet: Cubelet, n: int): (r: map<string, seq<int>>)
    requires n >= 1 && HasLayerKeys(lists, n) && InCube(cubelet.initial, n)
    ensures r.Keys == lists.Keys
  {
    var idx := cubelet.initial;
    LayerInRange(idx, n, 0);
    LayerInRange(idx, n, 1);
    LayerInRange(idx, n, 2);
    var lx, ly, lz := Layer(idx, n, 0), Layer(idx, n, 1), Layer(idx, n, 2);
    assert Key(PosAxis(0), lx, lx) in lists && Key(PosAxis(1), ly, ly) in lists && Key(PosAxis(2), lz, lz) in lists;
    Push(Push(Push(lists, Key(PosAxis(0), lx, lx), cubelet.index), Key(PosAxis(1), ly, ly), cubelet.index), Key(PosAxis(2), lz, lz), cubelet.index)
  }

  /** The arrays after the loop over `cs`, starting from `lists0`. */
  function Filled(lists0: map<string, seq<int>>, cs: seq<Cubelet>, n: int): (r: map<string, seq<int>>)
    requires n >= 1 && HasLayerKeys(lists0, n) && Placed(cs, n)
    ensures r.Keys == lists0.Keys
    decreases |cs|
  {
    if cs == [] then lists0
    else
      var front := cs[..|cs| - 1];
      assert Placed(front, n);
      Placement(Filled(lists0, front, n), cs[|cs| - 1], n)
  }

  /** A round adds the cubelet's slot to the single layer it starts in along
      each axis, and to no other. */
  lemma PlacementLayer(lists: map<string, seq<int>>, cubelet: Cubelet, n: int, c: nat, l: int)
    requires n >= 1 && HasLayerKeys(lists, n)
    requires cubelet.exist ==> InCube(cubelet.initial, n)
    requires c < 3 && 1 <= l <= n
    ensures Placement(lists, cubelet, n)[Key(PosAxis(c), l, l)]
      == lists[Key(PosAxis(c), l, l)] + (if cubelet.exist && Layer(cubelet.initial, n, c) == l then [cubelet.index] else [])
  {
    if cubelet.exist {
      KeysDistinct();
      TypeNamesDiffer(PosAxis(c), l, l);
    }
  }

  /** A round leaves the wider ranges alone. */
  lemma PlacementRange(lists: map<string, seq<int>>, cubelet: Cubelet, n: int, c: nat, f: int, t: int)
    requires n >= 1 && HasLayerKeys(lists, n)
    requires cubelet.exist ==> InCube(cubelet.initial, n)
    requires c < 3 && f < t && Key(PosAxis(c), f, t) in lists
    ensures Placement(lists, cubelet, n)[Key(PosAxis(c), f, t)] == lists[Key(PosAxis(c), f, t)]
  {
    if cubelet.exist {
      KeysDistinct();
      TypeNamesDiffer(PosAxis(c), f, t);
    }
  }

  /** A round adds the cubelet's slot to the group of its type. */
  lemma PlacementType(lists: map<string, seq<int>>, cubelet: Cubelet, n: int, faces: nat)
    requires n >= 1 && HasLayerKeys(lists, n)
    requires cubelet.exist ==> InCube(cubelet.initial, n)
    requires 1 <= faces <= 3 && TypeName(faces) in lists
    ensures Placement(lists, cubelet, n)[TypeName(faces)]
      == lists[TypeName(faces)] + (if cubelet.exist && Faces(cubelet.initial, n) == faces then [cubelet.index] else [])
  {
    if cubelet.exist {
      var idx := cubelet.initial;
      LayerInRange(idx, n, 0);
      LayerInRange(idx, n, 1);
      LayerInRange(idx, n, 2);
      TypeNamesDiffer(PosAxis(0), Layer(idx, n, 0), Layer(idx, n, 0));
      TypeNamesDiffer(PosAxis(1), Layer(idx, n, 1), Layer(idx, n, 1));
      TypeNamesDiffer(PosAxis(2), Layer(idx, n, 2), Layer(idx, n, 2));
    }
  }

  /** After the loop, a single-layer group holds the slots of its layer. */
  lemma {:induction false} FilledLayer(lists0: map<string, seq<int>>, cs: seq<Cubelet>, n: int, c: nat, l: int)
    requires n >= 1 && Emptied(lists0, n) && Placed(cs, n) && c < 3 && 1 <= l <= n
    ensures HasLayerKeys(lists0, n)
    ensures Filled(lists0, cs, n)[Key(PosAxis(c), l, l)] == LayerIndices(cs, n, c, l)
    decreases |cs|
  {
    if cs != [] {
      var front := cs[..|cs| - 1];
      assert Placed(front, n);
      FilledLayer(lists0, front, n, c, l);
      PlacementLayer(Filled(lists0, front, n), cs[|cs| - 1], n, c, l);
    }
  }

  /** After the loop, the ranges wider than one layer are still empty. */
  lemma {:induction false} FilledRange(lists0: map<string, seq<int>>, cs: seq<Cubelet>, n: int, c: nat, f: int, t: int)
    requires n >= 1 && Emptied(lists0, n) && Placed(cs, n) && c < 3 && 1 <= f < t <= n
    ensures HasLayerKeys(lists0, n)
    ensures Filled(lists0, cs, n)[Key(PosAxis(c), f, t)] == []
    decreases |cs|
  {
    if cs != [] {
      var front := cs[..|cs| - 1];
      assert Placed(front, n);
      FilledRange(lists0, front, n, c, f, t);
      PlacementRange(Filled(lists0, front, n), cs[|cs| - 1], n, c, f, t);
    }
  }

  /** After the loop, a type group holds the slots of its type. */
  lemma {:induction false} FilledType(lists0: map<string, seq<int>>, cs: seq<Cubelet>, n: int, faces: nat)
    requires n >= 1 && Emptied(lists0, n) && Placed(cs, n) && 1 <= faces <= 3
    ensures HasLayerKeys(lists0, n)
    ensures Filled(lists0, cs, n)[TypeName(faces)] == TypeIndices(cs, n, faces)
    decreases |cs|
  {
    if cs != [] {
      var front := cs[..|cs| - 1];
      assert Placed(front, n);
      FilledType(lists0, front, n, faces);
      PlacementType(Filled(lists0, front, n), cs[|cs| - 1], n, faces);
    }
  }

  /** The contents after the constructor's loop over `cube.initials`: the
      single-layer arrays hold the slots of their layer, the type arrays the
      slots of their type, the wider ranges are still empty. */
  predicate Layered(lists: map<string, seq<int>>, cs: seq<Cubelet>, n: int)
    requires n >= 1
  {
    && (forall c: nat, f, t :: c < 3 && 1 <= f <= t <= n ==> Key(PosAxis(c), f, t) in lists)
    && (forall faces :: 1 <= faces <= 3 ==> TypeName(faces) in lists)
    && (forall c: nat, l :: c < 3 && 1 <= l <= n ==> lists[Key(PosAxis(c), l, l)] == LayerIndices(cs, n, c, l))
    && (forall c: nat, f, t :: c < 3 && 1 <= f < t <= n ==> lists[Key(PosAxis(c), f, t)] == [])
    && (forall faces :: 1 <= faces <= 3 ==> lists[TypeName(faces)] == TypeIndices(cs, n, faces))
    && (forall k :: k in lists ==> ':' in k || k in {"center", "edge", "corner"})
  }

  /** The arrays after the loop over `cs` are the ones `Layered` describes. */
  lemma FilledLayered(lists0: map<string, seq<int>>, cs: seq<Cubelet>, n: int)
    requires n >= 1 && Emptied(lists0, n) && Placed(cs, n)
    ensures HasLayerKeys(lists0, n)
    ensures Layered(Filled(lists0, cs, n), cs, n)
  {
    var lists := Filled(lists0, cs, n);
    forall c: nat, l | c < 3 && 1 <= l <= n
      ensures lists[Key(PosAxis(c), l, l)] == LayerIndices(cs, n, c, l)
    {
      FilledLayer(lists0, cs, n, c, l);
    }
    forall c: nat, f, t | c < 3 && 1 <= f < t <= n
      ensures lists[Key(PosAxis(c), f, t)] == []
    {
      FilledRange(lists0, cs, n, c, f, t);
    }
    forall faces | 1 <= faces <= 3
      ensures lists[TypeName(faces)] == TypeIndices(cs, n, faces)
    {
      FilledType(lists0, cs, n, faces);
    }
  }

  /** The first part of one round of the constructor's loop over
      `cube.initials`: the cubelet's slot is pushed to the single-layer group
      of each of its initial layers, and its outer layers are counted. */
  method PushLayers(lists0: map<string, seq<int>>, cubelet: Cubelet, n: int) returns (lists: map<string, seq<int>>, faces: nat)
    requires n >= 1 && HasLayerKeys(lists0, n) && InCube(cubelet.initial, n)
    ensures lists == LayerPushes(lists0, cubelet, n)
    ensures faces == Faces(cubelet.initial, n)
  {
    var index := cubelet.initial;
    LayerInRange(index, n, 0);
    LayerInRange(index, n, 1);
    LayerInRange(index, n, 2);
    faces := 0;
    var layer := JsRem(index, n) + 1;
    if layer == 1 || layer == n {
      faces := faces + 1;
    }
    assert layer == Layer(index, n, 0);
    assert faces == (if Outer(Layer(index, n, 0), n) then 1 else 0);
    lists := Push(lists0, Key(PosAxis(0), layer, layer), cubelet.index);
    layer := JsRem(index, n * n) / n + 1;
    if layer == 1 || layer == n {
      faces := faces + 1;
    }
    assert layer == Layer(index, n, 1);
    assert faces == (if Outer(Layer(index, n, 0), n) then 1 else 0) + (if Outer(Layer(index, n, 1), n) then 1 else 0);
    lists := Push(lists, Key(PosAxis(1), layer, layer), cubelet.index);
    layer := index / (n * n) + 1;
    if layer == 1 || layer == n {
      faces := faces + 1;
    }
    assert layer == Layer(index, n, 2);
    lists := Push(lists, Key(PosAxis(2), layer, layer), cubelet.index);
  }

  /** One round of the constructor's loop over `cube.initials`: a cubelet
      that does not exist is skipped; otherwise its slot goes to its layers
      and then to the group of its type, if that is registered. */
  method PlaceCubelet(lists0: map<string, seq<int>>, cubelet: Cubelet, n: int) returns (lists: map<string, seq<int>>)
    requires n >= 1 && HasLayerKeys(lists0, n)
    requires cubelet.exist ==> InCube(cubelet.initial, n)
    ensures lists == Placement(lists0, cubelet, n)
  {
    lists := lists0;
    if !cubelet.exist {
      return;
    }
    var faces;
    lists, faces := PushLayers(lists0, cubelet, n);
    var group := TypeName(faces);
    if group in lists {
      lists := Push(lists, group, cubelet.index);
    }
  }

  /** The constructor's loop over `cube.initials`. */
  method FillLayers(cs: seq<Cubelet>, n: int, lists0: map<string, seq<int>>) returns (lists: map<string, seq<int>>)
    requires n >= 1 && Placed(cs, n) && Emptied(lists0, n)
    ensures lists.Keys == lists0.Keys
    ensures Layered(lists, cs, n)
  {
    assert HasLayerKeys(lists0, n);
    lists := lists0;
    var i := 0;
    while i < |cs|
      invariant 0 <= i <= |cs|
      invariant Placed(cs[..i], n)
      invariant lists == Filled(lists0, cs[..i], n)
    {
      assert cs[..i + 1][..i] == cs[..i];
      assert Placed(cs[..i + 1], n);
      lists := PlaceCubelet(lists, cs[i], n);
      i := i + 1;
    }
    assert cs[..i] == cs;
    FilledLayered(lists0, cs, n);
  }

  /** Range `c:f:t` comes before range `c0:f0:t0` in the order the
      constructor's third loop visits them. */
  predicate Before(c: nat, f: int, t: int, c0: nat, f0: int, t0: int)
  {
    c < c0 || (c == c0 && (f < f0 || (f == f0 && t < t0)))
  }

  /** The arrays while the constructor's third loop is at `c0:f0:t0`: the
      single layers and the types as `Layered` says, every range already
      visited holds its layers in ascending order, the others are empty. */
  predicate Filling(lists: map<string, seq<int>>, cs: seq<Cubelet>, n: int, c0: nat, f0: int, t0: int)
    requires n >= 1
  {
    && (forall c: nat, f, t :: c < 3 && 1 <= f <= t <= n ==> Key(PosAxis(c), f, t) in lists)
    && (forall faces :: 1 <= faces <= 3 ==> TypeName(faces) in lists)
    && (forall c: nat, l :: c < 3 && 1 <= l <= n ==> lists[Key(PosAxis(c), l, l)] == LayerIndices(cs, n, c, l))
    && (forall c: nat, f, t :: c < 3 && 1 <= f < t <= n ==>
          lists[Key(PosAxis(c), f, t)] == if Before(c, f, t, c0, f0, t0) then RangeIndices(cs, n, c, f, t) else [])
    && (forall faces :: 1 <= faces <= 3 ==> lists[TypeName(faces)] == TypeIndices(cs, n, faces))
    && (forall k :: k in lists ==> ':' in k || k in {"center", "edge", "corner"})
  }

  /** Range names of distinct ranges on the positive axes differ. */
  lemma RangeKeysDiffer(c: nat, f: int, t: int, c': nat, f': int, t': int)
    requires c < 3 && c' < 3 && (c != c' || f != f' || t != t')
    ensures Key(PosAxis(c), f, t) != Key(PosAxis(c'), f', t')
  {
    if Key(PosAxis(c), f, t) == Key(PosAxis(c'), f', t') {
      KeyInjective(PosAxis(c), f, t, PosAxis(c'), f', t');
    }
  }

  /** Filling range `c0:f0:t0` moves the loop one range on. */
  lemma FillingStep(lists: map<string, seq<int>>, cs: seq<Cubelet>, n: int, c0: nat, f0: int, t0: int)
    requires n >= 1 && c0 < 3 && 1 <= f0 < t0 <= n
    requires Filling(lists, cs, n, c0, f0, t0)
    ensures Filling(lists[Key(PosAxis(c0), f0, t0) := RangeIndices(cs, n, c0, f0, t0)], cs, n, c0, f0, t0 + 1)
  {
    var k0 := Key(PosAxis(c0), f0, t0);
    var r := lists[k0 := RangeIndices(cs, n, c0, f0, t0)];
    assert r.Keys == lists.Keys;
    forall c: nat, l | c < 3 && 1 <= l <= n
      ensures r[Key(PosAxis(c), l, l)] == LayerIndices(cs, n, c, l)
    {
      RangeKeysDiffer(c, l, l, c0, f0, t0);
    }
    forall c: nat, f, t | c < 3 && 1 <= f < t <= n
      ensures r[Key(PosAxis(c), f, t)] == if Before(c, f, t, c0, f0, t0 + 1) then RangeIndices(cs, n, c, f, t) else []
    {
      if c != c0 || f != f0 || t != t0 {
        RangeKeysDiffer(c, f, t, c0, f0, t0);
      }
    }
    TypeNamesDiffer(PosAxis(c0), f0, t0);
  }

  /** The innermost loop of the constructor's third loop: the single layers
      `from` .. `to` are appended, in that order, to the range `from:to`. */
  method FillRange(cs: seq<Cubelet>, n: int, c: nat, from: int, to: int, lists0: map<string, seq<int>>)
    returns (lists: map<string, seq<int>>)
    requires n >= 1 && c < 3 && 1 <= from < to <= n
    requires Key(PosAxis(c), from, to) in lists0 && lists0[Key(PosAxis(c), from, to)] == []
    requires forall l :: from <= l <= to ==>
      Key(PosAxis(c), l, l) in lists0 && lists0[Key(PosAxis(c), l, l)] == LayerIndices(cs, n, c, l)
    ensures lists == lists0[Key(PosAxis(c), from, to) := RangeIndices(cs, n, c, from, to)]
  {
    var dst := Key(PosAxis(c), from, to);
    lists := lists0;
    var i := from;
    while i <= to
      invariant from <= i <= to + 1
      invariant lists == lists0[dst := RangeIndices(cs, n, c, from, i - 1)]
    {
      var src := Key(PosAxis(c), i, i);
      RangeKeysDiffer(c, i, i, c, from, to);
      assert lists[src] == lists0[src] == LayerIndices(cs, n, c, i);
      lists := lists[dst := lists[dst] + lists[src]];
      i := i + 1;
    }
  }

  /** The constructor's third loop for one axis. */
  method FillAxis(cs: seq<Cubelet>, n: int, c: nat, lists0: map<string, seq<int>>) returns (lists: map<string, seq<int>>)
    requires n >= 1 && c < 3
    requires Filling(lists0, cs, n, c, 1, 2)
    ensures lists.Keys == lists0.Keys
    ensures Filling(lists, cs, n, c + 1, 1, 2)
  {
    lists := lists0;
    var from := 1;
    while from <= n
      invariant 1 <= from <= n + 1
      invariant lists.Keys == lists0.Keys
      invariant Filling(lists, cs, n, c, from, from + 1)
    {
      var to := from + 1;
      while to <= n
        invariant from + 1 <= to <= n + 1
        invariant lists.Keys == lists0.Keys
        invariant Filling(lists, cs, n, c, from, to)
      {
        ghost var before := lists;
        lists := FillRange(cs, n, c, from, to, lists);
        FillingStep(before, cs, n, c, from, to);
        to := to + 1;
      }
      from := from + 1;
    }
  }

  /** The arrays once the constructor's third loop is over: every range on
      a positive axis holds the slots of its layers in ascending order. */
  predicate Ranged(lists: map<string, seq<int>>, cs: seq<Cubelet>, n: int)
    requires n >= 1
  {
    && (forall c: nat, f, t :: c < 3 && 1 <= f <= t <= n ==> Key(PosAxis(c), f, t) in lists)
    && (forall faces :: 1 <= faces <= 3 ==> TypeName(faces) in lists)
    && (forall c: nat, f, t :: c < 3 && 1 <= f <= t <= n ==> lists[Key(PosAxis(c), f, t)] == RangeIndices(cs, n, c, f, t))
    && (forall faces :: 1 <= faces <= 3 ==> lists[TypeName(faces)] == TypeIndices(cs, n, faces))
    && (forall k :: k in lists ==> ':' in k || k in {"center", "edge", "corner"})
  }

  /** The constructor's third loop: every range `axis:from:to` with
      from < to gets the single layers from .. to appended in order. */
  method FillRanges(cs: seq<Cubelet>, n: int, lists0: map<string, seq<int>>) returns (lists: map<string, seq<int>>)
    requires n >= 1 && Layered(lists0, cs, n)
    ensures lists.Keys == lists0.Keys
    ensures Ranged(lists, cs, n)
  {
    lists := lists0;
    var c := 0;
    while c < 3
      invariant 0 <= c <= 3
      invariant lists.Keys == lists0.Keys
      invariant Filling(lists, cs, n, c, 1, 2)
    {
      lists := FillAxis(cs, n, c, lists);
      c := c + 1;
    }
    forall c: nat, f, t | c < 3 && 1 <= f <= t <= n
      ensures lists[Key(PosAxis(c), f, t)] == RangeIndices(cs, n, c, f, t)
    {
      if f == t {
        assert RangeIndices(cs, n, c, f, f - 1) == [];
      }
    }
  }

  // ------------------------------------------------- the groups themselves

  /** Key(a, f, t) names no other range than a:f:t. */
  lemma OtherKeys(a0: Axis, f0: int, t0: int)
    ensures forall a, f, t :: Key(a, f, t) == Key(a0, f0, t0) ==> a == a0 && f == f0 && t == t0
  {
    forall a, f, t | Key(a, f, t) == Key(a0, f0, t0)
      ensures a == a0 && f == f0 && t == t0
    {
      KeyInjective(a, f, t, a0, f0, t0);
    }
  }

  /** `g` belongs to `cube` and has that name, those slots and that axis. */
  predicate Holds(g: CubeGroup, cube: Cube, name: string, items: seq<int>, axis: Vector)
  {
    g.cube == cube && g.name == name && g.indices.items == items && g.axis == axis
  }

  /** Every range on a positive axis is registered under its name, with the
      slots of its layers in ascending order. */
  predicate RangesHeld(gs: map<string, CubeGroup>, cube: Cube, n: int)
    requires n >= 1
  {
    forall c: nat, f, t {:trigger Key(PosAxis(c), f, t)} :: c < 3 && 1 <= f <= t <= n ==>
      Key(PosAxis(c), f, t) in gs
      && Holds(gs[Key(PosAxis(c), f, t)], cube, Key(PosAxis(c), f, t), RangeIndices(cube.initials, n, c, f, t), AxisVector(PosAxis(c)))
  }

  /** The three type groups are registered with the slots of their type. */
  predicate TypesHeld(gs: map<string, CubeGroup>, cube: Cube, n: int)
    requires n >= 1
  {
    forall faces :: 1 <= faces <= 3 ==>
      TypeName(faces) in gs && Holds(gs[TypeName(faces)], cube, TypeName(faces), TypeIndices(cube.initials, n, faces), Diagonal)
  }

  /** Every range on a negative axis is registered under its name, shares
      the indices array of the same range on the positive axis, and turns
      about the opposite vector. */
  predicate MirrorsHeld(gs: map<string, CubeGroup>, cube: Cube, n: int)
  {
    forall c: nat, f, t :: c < 3 && 1 <= f <= t <= n ==> Mirrors(gs, cube, c, f, t)
  }

  /** The group of `-c:f:t` belongs to `cube`, has that name and the axis of
      `-c`, and shares the indices array of `c:f:t`. */
  predicate Mirrors(gs: map<string, CubeGroup>, cube: Cube, c: nat, f: int, t: int)
    requires c < 3
  {
    Key(NegAxis(c), f, t) in gs && Key(PosAxis(c), f, t) in gs
    && gs[Key(NegAxis(c), f, t)].cube == cube && gs[Key(NegAxis(c), f, t)].name == Key(NegAxis(c), f, t)
    && gs[Key(NegAxis(c), f, t)].indices == gs[Key(PosAxis(c), f, t)].indices
    && gs[Key(NegAxis(c), f, t)].axis == AxisVector(NegAxis(c))
  }

  /** "x", "y" and "z" are registered, sharing the indices array of the
      whole range 1..n of their axis. */
  predicate WholesHeld(gs: map<string, CubeGroup>, cube: Cube, n: int)
  {
    forall c: nat :: c < 3 ==>
      PosAxis(c).Name() in gs && Key(PosAxis(c), 1, n) in gs
      && gs[PosAxis(c).Name()].cube == cube && gs[PosAxis(c).Name()].name == PosAxis(c).Name()
      && gs[PosAxis(c).Name()].indices == gs[Key(PosAxis(c), 1, n)].indices
      && gs[PosAxis(c).Name()].axis == AxisVector(PosAxis(c))
  }

  /** "." and "~" are registered as empty groups. Their name is the outer
      `name` binding the constructor sees, which is not part of this model:
      it is taken to be "". */
  predicate SentinelsHeld(gs: map<string, CubeGroup>, cube: Cube)
  {
    && "." in gs && Holds(gs["."], cube, "", [], Diagonal)
    && "~" in gs && Holds(gs["~"], cube, "", [], Diagonal)
  }

  /** No name is registered besides the ranges and the special names. */
  predicate Named(gs: map<string, CubeGroup>, n: int)
  {
    forall k {:trigger IsRangeKey(k, n)} :: k in gs ==> IsRangeKey(k, n) || Special(k)
  }

  /** No registered group holds a cubelet or has been turned. */
  predicate Idle(gs: map<string, CubeGroup>)
    reads gs.Values
  {
    forall k :: k in gs ==> gs[k].cubelets == [] && gs[k].angle == 0.0
  }

  /** Registering a new, idle group keeps the table idle. */
  lemma IdleInsert(gs: map<string, CubeGroup>, name: string, g: CubeGroup)
    requires Idle(gs) && g.cubelets == [] && g.angle == 0.0
    ensures Idle(gs[name := g])
  {
  }

  /** Only ranges and type groups are registered so far. */
  predicate Unspecial(gs: map<string, CubeGroup>, n: int)
  {
    forall k {:trigger IsRangeKey(k, n)} :: k in gs ==> IsRangeKey(k, n) || k in {"center", "edge", "corner"}
  }

  /** With the ranges and their mirrors registered, the group of a range
      on either sign of an axis holds the slots of its layers. */
  lemma ItemsHeld(gs: map<string, CubeGroup>, cube: Cube, n: int, a: Axis, f: int, t: int)
    requires n >= 1 && RangesHeld(gs, cube, n) && MirrorsHeld(gs, cube, n) && 1 <= f <= t <= n
    ensures Key(a, f, t) in gs && gs[Key(a, f, t)].indices.items == RangeIndices(cube.initials, n, Coordinate(a), f, t)
  {
    var c := Coordinate(a);
    assert Key(PosAxis(c), f, t) in gs;
    if !a.Positive() {
      assert Mirrors(gs, cube, c, f, t);
    }
  }

  /** A name that is not registered and that `get` reads as range `f..t`
      of axis `a` finds that range's group: its slots and its axis. */
  lemma GroupFound(tb: GroupTable, text: string, a: Axis, f: int, t: int)
    requires tb.order >= 1 && 1 <= f <= t <= tb.order
    requires RangesHeld(tb.groups, tb.cube, tb.order) && MirrorsHeld(tb.groups, tb.cube, tb.order)
    requires text !in tb.groups && Locate(tb.order, text) == Some(Key(a, f, t))
    ensures Key(a, f, t) in tb.groups && tb.Get(text) == Some(tb.groups[Key(a, f, t)])
    ensures tb.groups[Key(a, f, t)].indices.items == RangeIndices(tb.cube.initials, tb.order, Coordinate(a), f, t)
    ensures tb.groups[Key(a, f, t)].axis == AxisVector(a)
  {
    var c := Coordinate(a);
    ItemsHeld(tb.groups, tb.cube, tb.order, a, f, t);
    assert Key(PosAxis(c), f, t) in tb.groups;
    if !a.Positive() {
      assert Mirrors(tb.groups, tb.cube, c, f, t);
    }
  }

  /** Range composition over the registered groups: the slots of `f..t`
      are those of `f..m` followed by those of `m+1..t`. */
  lemma RangesCompose(gs: map<string, CubeGroup>, cube: Cube, n: int, a: Axis, f: int, m: int, t: int)
    requires n >= 1 && RangesHeld(gs, cube, n) && MirrorsHeld(gs, cube, n) && 1 <= f <= m < t <= n
    ensures Key(a, f, t) in gs && Key(a, f, m) in gs && Key(a, m + 1, t) in gs
    ensures gs[Key(a, f, t)].indices.items == gs[Key(a, f, m)].indices.items + gs[Key(a, m + 1, t)].indices.items
  {
    var c := Coordinate(a);
    ItemsHeld(gs, cube, n, a, f, t);
    ItemsHeld(gs, cube, n, a, f, m);
    ItemsHeld(gs, cube, n, a, m + 1, t);
    var whole, left, right := RangeIndices(cube.initials, n, c, f, t), RangeIndices(cube.initials, n, c, f, m), RangeIndices(cube.initials, n, c, m + 1, t);
    RangeSplit(cube.initials, n, c, f, m, t);
    assert whole == left + right;
  }

  /** The constructor's first two loops, on the groups: one group per
      positive range, given the array the later loops fill for it, and one
      per type. */
  method NewRanges(cube: Cube, lists: map<string, seq<int>>) returns (gs: map<string, CubeGroup>)
    requires cube.order >= 1 && Ranged(lists, cube.initials, cube.order)
    ensures RangesHeld(gs, cube, cube.order) && TypesHeld(gs, cube, cube.order) && Unspecial(gs, cube.order)
    ensures Idle(gs)
    ensures forall k :: k in gs ==> fresh(gs[k])
  {
    var n := cube.order;
    ghost var cs := cube.initials;
    gs := map[];
    var c := 0;
    while c < 3
      invariant 0 <= c <= 3
      invariant forall c': nat, f, t :: c' < 3 && 1 <= f <= t <= n && Before(c', f, t, c, 1, 1) ==>
        Key(PosAxis(c'), f, t) in gs
        && Holds(gs[Key(PosAxis(c'), f, t)], cube, Key(PosAxis(c'), f, t), RangeIndices(cs, n, c', f, t), AxisVector(PosAxis(c')))
      invariant forall k {:trigger IsRangeKey(k, n)} :: k in gs ==> IsRangeKey(k, n)
      invariant Idle(gs)
      invariant forall k :: k in gs ==> fresh(gs[k])
    {
      var from := 1;
      while from <= n
        invariant 1 <= from <= n + 1
        invariant forall c': nat, f, t :: c' < 3 && 1 <= f <= t <= n && Before(c', f, t, c, from, from) ==>
          Key(PosAxis(c'), f, t) in gs
          && Holds(gs[Key(PosAxis(c'), f, t)], cube, Key(PosAxis(c'), f, t), RangeIndices(cs, n, c', f, t), AxisVector(PosAxis(c')))
        invariant forall k {:trigger IsRangeKey(k, n)} :: k in gs ==> IsRangeKey(k, n)
        invariant Idle(gs)
        invariant forall k :: k in gs ==> fresh(gs[k])
      {
        var to := from;
        while to <= n
          invariant from <= to <= n + 1
          invariant forall c': nat, f, t :: c' < 3 && 1 <= f <= t <= n && Before(c', f, t, c, from, to) ==>
            Key(PosAxis(c'), f, t) in gs
            && Holds(gs[Key(PosAxis(c'), f, t)], cube, Key(PosAxis(c'), f, t), RangeIndices(cs, n, c', f, t), AxisVector(PosAxis(c')))
          invariant forall k {:trigger IsRangeKey(k, n)} :: k in gs ==> IsRangeKey(k, n)
          invariant Idle(gs)
          invariant forall k :: k in gs ==> fresh(gs[k])
        {
          var name := Key(PosAxis(c), from, to);
          OtherKeys(PosAxis(c), from, to);
          RangeKeyOf(PosAxis(c), from, to, n);
          var indices := new IndexList(lists[name]);
          var g := new CubeGroup(cube, name, indices, AxisVector(PosAxis(c)));
          IdleInsert(gs, name, g);
          gs := gs[name := g];
          to := to + 1;
        }
        from := from + 1;
      }
      c := c + 1;
    }
    gs := NewTypes(cube, lists, gs);
  }

  /** The constructor's second loop, on the groups: one group per type. */
  method NewTypes(cube: Cube, lists: map<string, seq<int>>, gs0: map<string, CubeGroup>) returns (gs: map<string, CubeGroup>)
    requires cube.order >= 1 && Ranged(lists, cube.initials, cube.order)
    requires RangesHeld(gs0, cube, cube.order)
    requires forall k {:trigger IsRangeKey(k, cube.order)} :: k in gs0 ==> IsRangeKey(k, cube.order)
    requires Idle(gs0)
    ensures RangesHeld(gs, cube, cube.order) && TypesHeld(gs, cube, cube.order) && Unspecial(gs, cube.order)
    ensures Idle(gs)
    ensures forall k :: k in gs ==> (k in gs0 && gs[k] == gs0[k]) || fresh(gs[k])
  {
    var n := cube.order;
    ghost var cs := cube.initials;
    gs := gs0;
    var faces := 1;
    while faces <= 3
      invariant 1 <= faces <= 4
      invariant forall k :: k in gs0 ==> k in gs && gs[k] == gs0[k]
      invariant forall f :: 1 <= f < faces ==>
        TypeName(f) in gs && Holds(gs[TypeName(f)], cube, TypeName(f), TypeIndices(cs, n, f), Diagonal)
      invariant forall k {:trigger IsRangeKey(k, n)} :: k in gs ==> IsRangeKey(k, n) || k in {"center", "edge", "corner"}
      invariant Idle(gs)
      invariant forall k :: k in gs ==> (k in gs0 && gs[k] == gs0[k]) || fresh(gs[k])
    {
      var name := TypeName(faces);
      assert name !in gs0 by {
        assert ':' !in name && !IsRangeKey(name, n);
      }
      var indices := new IndexList(lists[name]);
      var g := new CubeGroup(cube, name, indices, Diagonal);
      IdleInsert(gs, name, g);
      gs := gs[name := g];
      faces := faces + 1;
    }
  }

  /** The constructor's fourth loop: every range on a negative axis gets a
      group sharing the indices array of its positive template. */
  method NewMirrors(cube: Cube, gs0: map<string, CubeGroup>) returns (gs: map<string, CubeGroup>)
    requires cube.order >= 1
    requires RangesHeld(gs0, cube, cube.order) && TypesHeld(gs0, cube, cube.order) && Unspecial(gs0, cube.order)
    requires Idle(gs0)
    ensures RangesHeld(gs, cube, cube.order) && TypesHeld(gs, cube, cube.order) && Unspecial(gs, cube.order)
    ensures MirrorsHeld(gs, cube, cube.order)
    ensures Idle(gs)
    ensures forall k :: k in gs ==> (k in gs0 && gs[k] == gs0[k]) || fresh(gs[k])
  {
    gs := gs0;
    var c := 0;
    while c < 3
      invariant 0 <= c <= 3
      invariant RangesHeld(gs, cube, cube.order) && TypesHeld(gs, cube, cube.order) && Unspecial(gs, cube.order)
      invariant forall c': nat, f, t :: c' < c && 1 <= f <= t <= cube.order ==> Mirrors(gs, cube, c', f, t)
      invariant Idle(gs)
      invariant forall k :: k in gs ==> (k in gs0 && gs[k] == gs0[k]) || fresh(gs[k])
    {
      gs := MirrorAxis(cube, gs, c);
      c := c + 1;
    }
  }

  /** Registering a group under another name keeps a mirror as it was. */
  lemma MirrorsKept(gs: map<string, CubeGroup>, cube: Cube, c: nat, f: int, t: int, name: string, g: CubeGroup)
    requires c < 3 && Mirrors(gs, cube, c, f, t)
    requires name != Key(NegAxis(c), f, t) && name != Key(PosAxis(c), f, t)
    ensures Mirrors(gs[name := g], cube, c, f, t)
  {
  }

  /** One step of `MirrorAxis`' inner loop keeps what the earlier steps
      registered and adds the mirror of `c:from:to`. */
  lemma MirrorStep(gs: map<string, CubeGroup>, cube: Cube, n: int, c: nat, from: int, to: int, g: CubeGroup)
    requires n >= 1 && c < 3 && 1 <= from <= to <= n
    requires RangesHeld(gs, cube, n) && TypesHeld(gs, cube, n) && Unspecial(gs, n)
    requires forall c': nat, f, t :: c' < c && 1 <= f <= t <= n ==> Mirrors(gs, cube, c', f, t)
    requires forall f, t :: 1 <= f < from && f <= t <= n ==> Mirrors(gs, cube, c, f, t)
    requires forall t :: from <= t < to ==> Mirrors(gs, cube, c, from, t)
    requires g.cube == cube && g.name == Key(NegAxis(c), from, to) && g.axis == AxisVector(NegAxis(c))
    requires g.indices == gs[Key(PosAxis(c), from, to)].indices
    ensures var gs' := gs[Key(NegAxis(c), from, to) := g];
      && RangesHeld(gs', cube, n) && TypesHeld(gs', cube, n) && Unspecial(gs', n)
      && (forall c': nat, f, t :: c' < c && 1 <= f <= t <= n ==> Mirrors(gs', cube, c', f, t))
      && (forall f, t :: 1 <= f < from && f <= t <= n ==> Mirrors(gs', cube, c, f, t))
      && (forall t :: from <= t <= to ==> Mirrors(gs', cube, c, from, t))
  {
    var name := Key(NegAxis(c), from, to);
    NegativeKept(gs, cube, n, c, from, to, g);
    var gs' := gs[name := g];
    forall c': nat, f, t | c' < c && 1 <= f <= t <= n
      ensures Mirrors(gs', cube, c', f, t)
    {
      MirrorInserted(gs, cube, c, from, to, g, c', f, t);
    }
    forall f, t | 1 <= f < from && f <= t <= n
      ensures Mirrors(gs', cube, c, f, t)
    {
      MirrorInserted(gs, cube, c, from, to, g, c, f, t);
    }
    forall t | from <= t < to
      ensures Mirrors(gs', cube, c, from, t)
    {
      MirrorInserted(gs, cube, c, from, to, g, c, from, t);
    }
    assert Mirrors(gs', cube, c, from, to);
  }

  /** Registering the mirror of `c:from:to` keeps every other mirror. */
  lemma MirrorInserted(gs: map<string, CubeGroup>, cube: Cube, c: nat, from: int, to: int, g: CubeGroup, c': nat, f: int, t: int)
    requires c < 3 && c' < 3 && (c', f, t) != (c, from, to) && Mirrors(gs, cube, c', f, t)
    ensures Mirrors(gs[Key(NegAxis(c), from, to) := g], cube, c', f, t)
  {
    var name := Key(NegAxis(c), from, to);
    if Key(NegAxis(c'), f, t) == name {
      KeyInjective(NegAxis(c'), f, t, NegAxis(c), from, to);
      assert false;
    }
    if Key(PosAxis(c'), f, t) == name {
      KeyInjective(PosAxis(c'), f, t, NegAxis(c), from, to);
      assert false;
    }
    MirrorsKept(gs, cube, c', f, t, name, g);
  }

  /** Registering a group under a name on a negative axis keeps the
      positive ranges, the types and the absence of special names. */
  lemma NegativeKept(gs: map<string, CubeGroup>, cube: Cube, n: int, c: nat, from: int, to: int, g: CubeGroup)
    requires n >= 1 && c < 3 && 1 <= from <= to <= n
    requires RangesHeld(gs, cube, n) && TypesHeld(gs, cube, n) && Unspecial(gs, n)
    ensures var gs' := gs[Key(NegAxis(c), from, to) := g];
      RangesHeld(gs', cube, n) && TypesHeld(gs', cube, n) && Unspecial(gs', n)
  {
    var name := Key(NegAxis(c), from, to);
    var gs' := gs[name := g];
    OtherKeys(NegAxis(c), from, to);
    TypeNamesDiffer(NegAxis(c), from, to);
    RangeKeyOf(NegAxis(c), from, to, n);
    forall c': nat, f, t | c' < 3 && 1 <= f <= t <= n
      ensures Key(PosAxis(c'), f, t) in gs' && gs'[Key(PosAxis(c'), f, t)] == gs[Key(PosAxis(c'), f, t)]
    {
      assert Key(PosAxis(c'), f, t) != name;
    }
  }

  /** One round of `NewMirrors`' loop: the groups `-c:f:t` of one axis. */
  method MirrorAxis(cube: Cube, gs0: map<string, CubeGroup>, c: nat) returns (gs: map<string, CubeGroup>)
    requires cube.order >= 1 && c < 3
    requires RangesHeld(gs0, cube, cube.order) && TypesHeld(gs0, cube, cube.order) && Unspecial(gs0, cube.order)
    requires forall c': nat, f, t :: c' < c && 1 <= f <= t <= cube.order ==> Mirrors(gs0, cube, c', f, t)
    requires Idle(gs0)
    ensures RangesHeld(gs, cube, cube.order) && TypesHeld(gs, cube, cube.order) && Unspecial(gs, cube.order)
    ensures forall c': nat, f, t :: c' <= c && 1 <= f <= t <= cube.order ==> Mirrors(gs, cube, c', f, t)
    ensures Idle(gs)
    ensures forall k :: k in gs ==> (k in gs0 && gs[k] == gs0[k]) || fresh(gs[k])
  {
    var n := cube.order;
    gs := gs0;
    var from := 1;
    while from <= n
      invariant 1 <= from <= n + 1
      invariant RangesHeld(gs, cube, n) && TypesHeld(gs, cube, n) && Unspecial(gs, n)
      invariant forall c': nat, f, t :: c' < c && 1 <= f <= t <= n ==> Mirrors(gs, cube, c', f, t)
      invariant forall f, t :: 1 <= f < from && f <= t <= n ==> Mirrors(gs, cube, c, f, t)
      invariant Idle(gs)
      invariant forall k :: k in gs ==> (k in gs0 && gs[k] == gs0[k]) || fresh(gs[k])
    {
      var to := from;
      while to <= n
        invariant from <= to <= n + 1
        invariant RangesHeld(gs, cube, n) && TypesHeld(gs, cube, n) && Unspecial(gs, n)
        invariant forall c': nat, f, t :: c' < c && 1 <= f <= t <= n ==> Mirrors(gs, cube, c', f, t)
        invariant forall f, t :: 1 <= f < from && f <= t <= n ==> Mirrors(gs, cube, c, f, t)
        invariant forall t :: from <= t < to ==> Mirrors(gs, cube, c, from, t)
        invariant Idle(gs)
        invariant forall k :: k in gs ==> (k in gs0 && gs[k] == gs0[k]) || fresh(gs[k])
      {
        var template := gs[Key(PosAxis(c), from, to)];
        var name := Key(NegAxis(c), from, to);
        var g := new CubeGroup(cube, name, template.indices, AxisVector(NegAxis(c)));
        IdleInsert(gs, name, g);
        MirrorStep(gs, cube, n, c, from, to, g);
        gs := gs[name := g];
        to := to + 1;
      }
      from := from + 1;
    }
  }

  /** The constructor's last loop: "x", "y" and "z" get groups sharing the
      indices array of the whole range of their axis. */
  method NewWholes(cube: Cube, gs0: map<string, CubeGroup>) returns (gs: map<string, CubeGroup>)
    requires cube.order >= 1
    requires RangesHeld(gs0, cube, cube.order) && Unspecial(gs0, cube.order)
    requires Idle(gs0)
    ensures forall k :: k in gs0 ==> k in gs && gs[k] == gs0[k]
    ensures forall k :: k in gs ==> k in gs0 || k in {"x", "y", "z"}
    ensures WholesHeld(gs, cube, cube.order)
    ensures Idle(gs)
    ensures forall k :: k in gs ==> (k in gs0 && gs[k] == gs0[k]) || fresh(gs[k])
  {
    var n := cube.order;
    gs := gs0;
    var c := 0;
    while c < 3
      invariant 0 <= c <= 3
      invariant forall k :: k in gs0 ==> k in gs && gs[k] == gs0[k]
      invariant forall c': nat :: c' < c ==>
        PosAxis(c').Name() in gs && Key(PosAxis(c'), 1, n) in gs && gs[PosAxis(c').Name()].cube == cube
        && gs[PosAxis(c').Name()].name == PosAxis(c').Name()
        && gs[PosAxis(c').Name()].indices == gs[Key(PosAxis(c'), 1, n)].indices
        && gs[PosAxis(c').Name()].axis == AxisVector(PosAxis(c'))
      invariant forall k :: k in gs ==> k in gs0 || k in {"x", "y", "z"}
      invariant Idle(gs)
      invariant forall k :: k in gs ==> (k in gs0 && gs[k] == gs0[k]) || fresh(gs[k])
    {
      var name := PosAxis(c).Name();
      assert name !in gs0 by {
        assert !IsRangeKey(name, n);
      }
      var template := gs[Key(PosAxis(c), 1, n)];
      var g := new CubeGroup(cube, name, template.indices, AxisVector(PosAxis(c)));
      IdleInsert(gs, name, g);
      gs := gs[name := g];
      c := c + 1;
    }
  }

  /** The constructor's last two lines: "." and "~" get empty groups. */
  method NewSentinels(cube: Cube, gs0: map<string, CubeGroup>) returns (gs: map<string, CubeGroup>)
    requires forall k {:trigger IsRangeKey(k, cube.order)} :: k in gs0 ==> IsRangeKey(k, cube.order) || k in {"center", "edge", "corner", "x", "y", "z"}
    requires Idle(gs0)
    ensures forall k :: k in gs0 ==> k in gs && gs[k] == gs0[k]
    ensures forall k :: k in gs ==> k in gs0 || k in {".", "~"}
    ensures SentinelsHeld(gs, cube)
    ensures Idle(gs)
    ensures forall k :: k in gs ==> (k in gs0 && gs[k] == gs0[k]) || fresh(gs[k])
  {
    assert "." !in gs0 && "~" !in gs0 by {
      assert ':' !in "." && ':' !in "~";
      assert !IsRangeKey(".", cube.order) && !IsRangeKey("~", cube.order);
    }
    var empty := new IndexList([]);
    var dot := new CubeGroup(cube, "", empty, Diagonal);
    empty := new IndexList([]);
    var tilde := new CubeGroup(cube, "", empty, Diagonal);
    gs := gs0["." := dot]["~" := tilde];
  }

  /** Entries registered before a phase stay as they were. */
  predicate Kept(gs0: map<string, CubeGroup>, gs: map<string, CubeGroup>)
  {
    forall k :: k in gs0 ==> k in gs && gs[k] == gs0[k]
  }

  lemma KeptHeld(gs0: map<string, CubeGroup>, gs: map<string, CubeGroup>, cube: Cube, n: int)
    requires n >= 1 && Kept(gs0, gs)
    ensures RangesHeld(gs0, cube, n) ==> RangesHeld(gs, cube, n)
    ensures TypesHeld(gs0, cube, n) ==> TypesHeld(gs, cube, n)
    ensures MirrorsHeld(gs0, cube, n) ==> MirrorsHeld(gs, cube, n)
    ensures WholesHeld(gs0, cube, n) ==> WholesHeld(gs, cube, n)
  {
    if MirrorsHeld(gs0, cube, n) {
      forall c: nat, f, t | c < 3 && 1 <= f <= t <= n
        ensures Mirrors(gs, cube, c, f, t)
      {
        assert Mirrors(gs0, cube, c, f, t);
      }
    }
  }

  /** The action of a range group is the token `Emit` writes for its
      range, which `get` reads back as that range, negated when the token's
      direction differs from the one asked for, or, for the whole cube, as
      the bare positive axis. */
  lemma ActionToken(g: CubeGroup, a: Axis, f: int, t: int, reverse: bool, times: int) returns (tok: Token)
    requires g.name == Key(a, f, t) && 1 <= f <= t <= g.cube.order
    ensures g.Action(reverse, times) == TwistAction(tok.text, tok.reverse, times)
    ensures var b := if tok.reverse != reverse then a.Negate() else a;
      if f == 1 && t == g.cube.order && g.cube.order > 1 then tok.text == b.Name() && b.Positive()
      else Unnamed(tok.text) && Locate(g.cube.order, tok.text) == Some(Key(b, f, t))
  {
    ParseKey(a, f, t);
    tok := Emit(g.cube.order, a, f, t, reverse);
    EmitFound(g.cube.order, a, f, t, reverse);
  }

  /** GroupTable: every group of an order-n cube, by name. */
  class GroupTable {
    const cube: Cube
    const order: int
    const groups: map<string, CubeGroup>

    /** The registered groups: the ranges of both signs on every axis, the
        types, the whole-cube turns and the two empty sentinels, and nothing
        else. */
    predicate Valid()
    {
      && order == cube.order && order >= 1
      && RangesHeld(groups, cube, order) && TypesHeld(groups, cube, order)
      && MirrorsHeld(groups, cube, order) && WholesHeld(groups, cube, order)
      && SentinelsHeld(groups, cube) && Named(groups, order)
    }

    /** The constructor: empty arrays for the ranges and types, the slots of
        every existing cubelet pushed to its layers and its type, the wider
        ranges filled from their layers, then the groups, with the negative
        ranges and the whole-cube turns sharing the arrays of their
        templates. */
    constructor (cube: Cube)
      requires cube.order >= 1 && Placed(cube.initials, cube.order)
      ensures this.cube == cube && Valid()
      ensures forall g :: g in groups.Values ==> g.cubelets == [] && g.angle == 0.0
      ensures forall k :: k in groups ==> fresh(groups[k])
    {
      var n := cube.order;
      var lists := EmptyLists(n);
      lists := FillLayers(cube.initials, n, lists);
      lists := FillRanges(cube.initials, n, lists);
      var gs := NewRanges(cube, lists);
      gs := NewMirrors(cube, gs);
      var gs1 := NewWholes(cube, gs);
      KeptHeld(gs, gs1, cube, n);
      var gs2 := NewSentinels(cube, gs1);
      KeptHeld(gs1, gs2, cube, n);
      this.cube := cube;
      order := n;
      groups := gs2;
    }

    /** GroupTable.get: a registered name is looked up directly; any other
        name is read as notation and the range it names looked up. */
    function Get(name: string): (r: Option<CubeGroup>)
      ensures name in groups ==> r == Some(groups[name])
      ensures r.Some? ==> r.value in groups.Values
    {
      if name in groups then Some(groups[name])
      else
        match Locate(order, name)
        case None => None
        case Some(k) => if k in groups then Some(groups[k]) else None
    }
  
    /** Every range on either sign of an axis is registered under its own
        name, holds the slots of its layers in ascending order, shares the
        array of the positive range, and turns about the axis's vector. */
    lemma RangeAt(a: Axis, f: int, t: int)
      requires Valid() && 1 <= f <= t <= order
      ensures Key(a, f, t) in groups && Key(PosAxis(Coordinate(a)), f, t) in groups
      ensures groups[Key(a, f, t)].name == Key(a, f, t)
      ensures groups[Key(a, f, t)].indices == groups[Key(PosAxis(Coordinate(a)), f, t)].indices
      ensures groups[Key(a, f, t)].indices.items == RangeIndices(cube.initials, order, Coordinate(a), f, t)
      ensures groups[Key(a, f, t)].axis == AxisVector(a)
      ensures groups[Key(a, f, t)].cube == cube
    {
      var c := Coordinate(a);
      assert Key(PosAxis(c), f, t) in groups;
      if !a.Positive() {
        assert Mirrors(groups, cube, c, f, t);
      }
    }

    /** A name that is not registered is found through the range it
        names. */
    lemma Lookup(name: string, k: string)
      requires Valid() && Unnamed(name) && Locate(order, name) == Some(k) && k in groups
      ensures Get(name) == Some(groups[k])
    {
      assert !IsRangeKey(name, order);
    }

    /** For a name that is not registered, `get` finds a group exactly when
        the name it reads the token as is registered, and that name is then
        a range of this cube or one of the special names. */
    lemma GetLocated(name: string, k: string)
      requires Valid() && name !in groups && Locate(order, name) == Some(k)
      ensures Get(name).Some? <==> k in groups
      ensures Get(name).Some? ==> IsRangeKey(k, order) || Special(k)
    {
    }

    /** A token the regex finds no match in gives undefined: with more than
        one character once normalised, `get` looks nothing up. */
    lemma GetNoMatch(name: string)
      requires Valid() && name !in groups
      requires var s := Normalize(name); |s| != 1 && forall q :: 0 <= q < |s| ==> MatchAt(s, q).None?
      ensures Get(name) == None
    {
      FirstMatchLeftmost(Normalize(name), 0);
    }

    /** A one-character token that no case of the switch names gives
        undefined: FORMAT("", 0, 0) is no registered name. */
    lemma GetUnknownLetter(c: char)
      requires Valid() && !IsAxisLetter(c) && !IsFace(c) && !IsLowerFace(c) && !IsSlice(c) && !IsLowerSlice(c)
      requires c != 'X' && c != 'Y' && c != 'Z' && c != 'W' && c != 'w' && c != '.' && c != '~'
      ensures Get([c]) == None
    {
      LocateUnknownLetter(order, c);
      UnknownNotRange(order);
      assert !IsRangeKey([c], order) && !Special([c]);
      assert Format("", 0, 0)[0] == ':';
    }

    /** `k Face` with k beyond the cube's order gives undefined: the
        layers it names lie outside 1..n. */
    lemma GetBeyond(k: nat, a: Axis)
      requires Valid() && 2 <= k && order < k
      ensures Get(NatToString(k) + [a.Face()]) == None
    {
      var text := NatToString(k) + [a.Face()];
      var key := NumberedBeyond(order, k, a);
      assert !IsRangeKey(text, order);
      GetLocated(text, key);
    }

    /** Range `f..t` of an axis and of its negation share one indices
        array and turn about opposite vectors. */
    lemma FlipGroup(a: Axis, flip: bool, f: int, t: int)
      requires Valid() && 1 <= f <= t <= order
      ensures var b := if flip then a.Negate() else a;
        && Key(a, f, t) in groups && Key(b, f, t) in groups
        && groups[Key(b, f, t)].indices == groups[Key(a, f, t)].indices
        && groups[Key(b, f, t)].axis == if flip then Opposite(groups[Key(a, f, t)].axis) else groups[Key(a, f, t)].axis
    {
      var b := if flip then a.Negate() else a;
      RangeAt(a, f, t);
      RangeAt(b, f, t);
      SameCoordinate(a, b);
      AxisVectorNegate(a, b);
    }

    /** The bare name of a positive axis shares the indices array of the
        whole range of either sign of that axis. */
    lemma WholeGroup(a: Axis, flip: bool)
      requires Valid() && (if flip then a.Negate() else a).Positive()
      ensures var b := if flip then a.Negate() else a;
        && Key(a, 1, order) in groups && b.Name() in groups
        && groups[b.Name()].indices == groups[Key(a, 1, order)].indices
        && groups[b.Name()].axis == if flip then Opposite(groups[Key(a, 1, order)].axis) else groups[Key(a, 1, order)].axis
    {
      var b := if flip then a.Negate() else a;
      FlipGroup(a, flip, 1, order);
      var c := Coordinate(b);
      assert b == PosAxis(c);
      assert PosAxis(c).Name() in groups;
    }

    /** What `get` finds for a token that names range `f..t` of axis `a`
        or of its negation, or the bare name of the positive axis when the
        range is the whole cube. */
    lemma TokenGroup(text: string, a: Axis, flip: bool, f: int, t: int)
      requires Valid() && 1 <= f <= t <= order
      requires var b := if flip then a.Negate() else a;
        if f == 1 && t == order && order > 1 then text == b.Name() && b.Positive()
        else Unnamed(text) && Locate(order, text) == Some(Key(b, f, t))
      ensures Key(a, f, t) in groups && Get(text).Some?
      ensures Get(text).value.indices == groups[Key(a, f, t)].indices
      ensures Get(text).value.axis == if flip then Opposite(groups[Key(a, f, t)].axis) else groups[Key(a, f, t)].axis
    {
      var b := if flip then a.Negate() else a;
      if f == 1 && t == order && order > 1 {
        WholeGroup(a, flip);
      } else {
        FlipGroup(a, flip, f, t);
        Lookup(text, Key(b, f, t));
      }
    }

    /** The notation round trip through the table: `get` of the token that
        `action` writes for a range group finds a group with the same
        indices array, turning about the same axis when the token keeps the
        direction asked for and about the opposite one when it flips it. */
    lemma ActionFound(a: Axis, f: int, t: int, reverse: bool, times: int)
      requires Valid() && 1 <= f <= t <= order
      ensures Key(a, f, t) in groups
      ensures var g := groups[Key(a, f, t)];
        var act := g.Action(reverse, times);
        && act.times == times
        && Get(act.group).Some?
        && Get(act.group).value.indices == g.indices
        && Get(act.group).value.axis == (if act.reverse != reverse then Opposite(g.axis) else g.axis)
    {
      RangeAt(a, f, t);
      var tok := ActionToken(groups[Key(a, f, t)], a, f, t, reverse, times);
      TokenGroup(tok.text, a, tok.reverse != reverse, f, t);
    }

    /** A token that is no registered name and that reads as range `f..t`
        of axis `a` finds the group of that range: the slots of those layers,
        turning about the axis's vector. */
    lemma NamedRange(text: string, a: Axis, f: int, t: int)
      requires Valid() && 1 <= f <= t <= order
      requires Unnamed(text) && Locate(order, text) == Some(Key(a, f, t))
      ensures Get(text).Some?
      ensures Get(text).value.indices.items == RangeIndices(cube.initials, order, Coordinate(a), f, t)
      ensures Get(text).value.axis == AxisVector(a)
    {
      assert text !in groups by {
        assert !IsRangeKey(text, order);
      }
      GroupFound(this, text, a, f, t);
    }

    /** A face letter turns the outer layer on its side: `R` the n-th layer
        along x about +x, `L` the first about -x, and so on. */
    lemma GetFace(c: char)
      requires Valid() && IsFace(c)
      ensures var a := AxisOf(c);
        var l := if a.Positive() then order else 1;
        && Get([c]).Some?
        && Get([c]).value.indices.items == LayerIndices(cube.initials, order, Coordinate(a), l)
        && Get([c]).value.axis == AxisVector(a)
    {
      var a := AxisOf(c);
      var l := if a.Positive() then order else 1;
      LocateFace(order, c);
      NamedRange([c], a, l, l);
      assert RangeIndices(cube.initials, order, Coordinate(a), l, l - 1) == [];
    }

    /** M, E and S turn the middle layer, or the middle two of an even
        cube, about -x, -y and +z. */
    lemma GetSlice(c: char)
      requires Valid() && IsSlice(c)
      ensures var a := AxisOf(c);
        && Get([c]).Some?
        && Get([c]).value.indices.items == RangeIndices(cube.initials, order, Coordinate(a), (order + 1) / 2, (order + 2) / 2)
        && Get([c]).value.axis == AxisVector(a)
    {
      var f, t := (order + 1) / 2, (order + 2) / 2;
      MiddleLayers(order);
      LocateSlice(order, c);
      NamedRange([c], AxisOf(c), f, t);
    }

    /** A lower-case face letter turns the outer two layers on its side. */
    lemma GetWideFace(c: char)
      requires Valid() && IsLowerFace(c) && order >= 2
      ensures var a := AxisOf(UpperChar(c));
        var lo := if a.Positive() then order - 1 else 1;
        && Get([c]).Some?
        && Get([c]).value.indices.items == RangeIndices(cube.initials, order, Coordinate(a), lo, lo + 1)
        && Get([c]).value.axis == AxisVector(a)
    {
      var a := AxisOf(UpperChar(c));
      var lo := if a.Positive() then order - 1 else 1;
      LocateWideFace(order, c);
      NamedRange([c], a, lo, lo + 1);
    }

    /** m, e and s turn every layer but the outer two. */
    lemma GetInner(c: char)
      requires Valid() && IsLowerSlice(c) && order >= 3
      ensures var a := AxisOf(UpperChar(c));
        && Get([c]).Some?
        && Get([c]).value.indices.items == RangeIndices(cube.initials, order, Coordinate(a), 2, order - 1)
        && Get([c]).value.axis == AxisVector(a)
    {
      LocateInner(order, c);
      NamedRange([c], AxisOf(UpperChar(c)), 2, order - 1);
    }

    /** x, y and z turn the whole cube: every existing cubelet exactly
        once. */
    lemma WholeHoldsAll(c: nat)
      requires Valid() && c < 3 && Placed(cube.initials, order)
      ensures Get(PosAxis(c).Name()).Some?
      ensures multiset(Get(PosAxis(c).Name()).value.indices.items) == multiset(Existing(cube.initials))
      ensures Get(PosAxis(c).Name()).value.axis == AxisVector(PosAxis(c))
    {
      assert PosAxis(c).Name() in groups;
      RangeAt(PosAxis(c), 1, order);
      LayersPartition(cube.initials, order, c);
    }

    /** The type groups hold every existing cubelet with an outer layer,
        each once, and together with the inner cubelets make up the cube. */
    lemma TypesCover()
      requires Valid()
      ensures "center" in groups && "edge" in groups && "corner" in groups
      ensures multiset(TypeIndices(cube.initials, order, 0)) + multiset(groups["center"].indices.items)
            + multiset(groups["edge"].indices.items) + multiset(groups["corner"].indices.items)
           == multiset(Existing(cube.initials))
    {
      assert TypeName(1) == "center" && TypeName(2) == "edge" && TypeName(3) == "corner";
      TypesPartition(cube.initials, order);
    }

    /** A range is the range up to any of its layers followed by the rest. */
    lemma RangeComposes(a: Axis, f: int, m: int, t: int)
      requires Valid() && 1 <= f <= m < t <= order
      ensures Key(a, f, t) in groups && Key(a, f, m) in groups && Key(a, m + 1, t) in groups
      ensures groups[Key(a, f, t)].indices.items
           == groups[Key(a, f, m)].indices.items + groups[Key(a, m + 1, t)].indices.items
    {
      RangesCompose(groups, cube, order, a, f, m, t);
    }

    /** Every existing cubelet is in the single-layer group of the layer it
        starts in, along either sign of every axis. */
    lemma OwnLayer(a: Axis, k: nat)
      requires Valid() && Placed(cube.initials, order) && k < |cube.initials| && cube.initials[k].exist
      ensures var l := Layer(cube.initials[k].initial, order, Coordinate(a));
        && 1 <= l <= order && Key(a, l, l) in groups
        && cube.initials[k].index in groups[Key(a, l, l)].indices.items
    {
      var l := Layer(cube.initials[k].initial, order, Coordinate(a));
      LayerInRange(cube.initials[k].initial, order, Coordinate(a));
      RangeAt(a, l, l);
      InOwnLayer(cube.initials, k, order, Coordinate(a));
      assert RangeIndices(cube.initials, order, Coordinate(a), l, l - 1) == [];
    }
  }
}
