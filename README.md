# cuber: groups, notation and the gesture controller

This project is a Dafny model of the core of `cuber`, a Rubik's-cube
component built on three.js. It covers two source files:

- **`src/cuber/group.ts`.**
  - A `CubeGroup` is a set of slots of an order-n cube that turn together.
  - `action` writes the notation token for turning a group.
  - `hold` takes the group's cubelets out of the cube's arena of slots.
  - `drop` writes them back.
  - `twist` snaps the angle to quarter turns, records the move and drops.
  - The `GroupTable` constructor registers:
    - a group for every range `axis:from:to` of layers, on both signs of each axis;
    - the cubelet-type groups `center`, `edge` and `corner`;
    - the whole-cube groups `x`, `y` and `z`;
    - the two empty groups `.` and `~`.
  - `get` finds a group by its name, or by reading notation such as `R`,
    `3Fw`, `2-3Rw`, `m` or `E` as the range it names.
- **`src/cuber/controller.ts`.**
  - `handleDown` picks the slot under the cursor.
  - `handleMove` waits for the drag to cross a threshold, then grips a group:
    - from empty space, a whole-cube turn about x, y or z;
    - from a cubelet, the layer that `match` selects.
  
    It then drives the group's angle with the drag.
  - `handleUp` tells the tap listeners of a press and twists the group to
    its released angle.
  - `update` moves the group halfway to that angle on every frame.
  - The `lock` and `disable` setters end the gesture under way first.

## Files and modules

The modules follow the program's structure:

- **`text.dfy` (`Text`).** `String(n)`, `Number(s)`, ASCII `toLowerCase` and
  `toUpperCase`, and `replace` of a single character.
- **`layout.dfy` (`Layout`).**
  - Slot arithmetic: the layers of a slot, slots from grid coordinates, and
    JavaScript's truncating `%`.
  - The index lists the constructor builds, written as functions of
    `cube.initials`.
  - Lemmas: layer partition, range composition, type classification.
- **`notation.dfy` (`Notation`).**
  - `AXIS_TABLE`, `MES_TABLE`, `AXIS_MAP` and `FORMAT`.
  - Both halves of the notation: `action`'s writer (`Emit`) and `get`'s
    reader (`Locate`).
  - The round trip between them.
- **`group.dfy` (`Groups`).**
  - The classes `Cube`, `IndexList`, `CubeGroup` and `GroupTable`.
  - `hold`, `drop` and `twist` as methods on the arena.
  - The constructor's loops as methods proved against the list
    functions of `Layout`.
  - `get` as a function.
- **`controller.dfy` (`Control`).**
  - The dominant-axis snap, the slot computation and `match`.
  - The `Controller` class with `handleDown`, `handleMove` and
    `handleUp`, the setters and `update`, each specified against a function
    of the old state.
- **`wrappers.dfy` (`Wrappers`).** `Option`.

## Modelling conventions

- **Angles** are real numbers measured in quarter turns: radians divided by
  `PI / 2`. The source's `PI / 6` radians per cubelet of travel is a third of
  a quarter turn. `Math.round(x)` is `floor(x + 1/2)`.
- **Cubelets** are values `(initial, index, exist)`. The cube's arena
  `cube.cubelets` is an `array`. A group's `cubelets` is a sequence field
  that `hold` appends to and `drop` pops from.
- **Indices arrays** are an `IndexList` object, because the groups of a
  negative axis and the groups `x`, `y`, `z` share the array of their
  positive template. The lemmas state that sharing as object identity.
- **`handleDown`'s ray casting** is an input: `Hit` is what the ray meets on
  each of the three pick planes. Its coordinates are in cube widths, and it
  carries the distance from the camera.
- **`handleMove`'s inputs** form a `Move`:
  - whether the drag has left the threshold;
  - the screen travel `dx`, `dy` in cubelet sizes;
  - whether the press was left of the projected corner;
  - the drag vector on the holder's plane;
  - that drag projected on the holder's finger.
- **`handleUp`'s speed test** is an input `fast`.
- **The tap listeners** are a log, `tapped`, of the calls they would
  receive.
- **Where the documented behaviour and the code differ, the model follows
  the code.**
  - `handleUp` calls the tap listeners whenever a press is still dragging,
    also when nothing was pressed (index -1, and the face of the last plane pressed, null before any).
  - `get` of a one-letter token that no case of its switch names looks up
    `FORMAT("", 0, 0)`.
  - `action` reads the range names it is given, which are always lower
    case. The model's parser of those names accepts lower case only.
- **Where the code is evidently wrong, the controller uses the corrected
  behaviour.** This happens once: `handleDown`'s cell computation is wrong
  at a coordinate of exactly -0.5. Findings shows both versions, and
  "## Left out" names the members that use the corrected cell.

## Model

| member | source | states |
|---|---|---|
| Text.NatToString | src/cuber/group.ts:89 | `String(n)` of a non-negative number is a non-empty string of decimal digits |
| Text.NatToStringValue | src/cuber/group.ts:376-377 | `Number` of what `String(n)` wrote is n again |
| Text.NatToStringInjective | src/cuber/group.ts:107-109 | distinct layer numbers print differently |
| Text.IntToStringInjective | src/cuber/group.ts:186-188 | two integers print the same only when they are equal, so the numbers of a `FORMAT` name are determined by it |
| Text.IntToStringSign | src/cuber/group.ts:186-188 | a printed integer begins with a minus sign exactly when it is negative |
| Text.ToLower | src/cuber/group.ts:325-328 | `toLowerCase` on ASCII: the length is kept, A-Z become a-z and every other character is left alone |
| Text.ToUpper | src/cuber/group.ts:83 | `toUpperCase` keeps the length and maps each ASCII letter to upper case; its only input, the `MES_TABLE` entries, is ASCII |
| Text.RemoveFirst | src/cuber/group.ts:325 | `replace("w", "")` leaves a string without w unchanged and removes one character otherwise |
| Text.RemoveFirstAfter | src/cuber/group.ts:325 | the character removed is the first occurrence: `s w t` with no w in `s` becomes `s t` |
| Layout.JsRem | src/cuber/group.ts:226 | JavaScript's `%` agrees with the mathematical remainder on non-negative operands, is below the divisor in magnitude and is never positive for a negative dividend |
| Layout.LayerInRange | src/cuber/group.ts:225-247 | every slot of the cube lies in a layer 1..n along each axis |
| Layout.SlotLayers | src/cuber/controller.ts:152 | the slot `z*n*n + y*n + x` lies in the cube and its layers along x, y, z are x+1, y+1, z+1, so the constructor's layer formulas invert it |
| Layout.OuterCount | src/cuber/group.ts:223-257 | a cubelet has three outer layers (a corner) exactly when all its layers are 1 or n, and none exactly when none is |
| Layout.LayersPartition | src/cuber/group.ts:215-255 | along every axis the single layers 1..n together hold every existing cubelet's slot exactly once and nothing else |
| Layout.InOwnLayer | src/cuber/group.ts:225-255 | an existing cubelet's slot is in the single layer its initial slot names, along each axis |
| Layout.RangeSplit | src/cuber/group.ts:263-279 | the slots of range `from..to` are those of `from..mid` followed by those of `mid+1..to` |
| Layout.RangeLength | src/cuber/group.ts:270-276 | a range holds as many slots as its single layers together |
| Layout.RangeIndicesSnoc | src/cuber/group.ts:263-279 | one more cubelet adds its slot to exactly the ranges whose span contains its layer |
| Layout.TypesPartition | src/cuber/group.ts:257-260 | every existing cubelet is counted under exactly one of 0, 1 (centre), 2 (edge) and 3 (corner) outer layers |
| Notation.Axis.Name | src/cuber/group.ts:69-76 | the written axis has one character exactly when it is positive (`axis.length == 1`), and has no colon |
| Notation.Axis.Face | src/cuber/group.ts:38-45 | `AXIS_TABLE` maps each signed axis to a face letter |
| Notation.AxisOf | src/cuber/group.ts:305-315 | `AXIS_MAP` gives for each face letter the axis whose `AXIS_TABLE` face it is |
| Notation.AxisOfFace | src/cuber/group.ts:305-315 | `AXIS_MAP` inverts `AXIS_TABLE` on all six axes |
| Notation.MesAxis | src/cuber/group.ts:47-54 | `MES_TABLE` gives for each face a slice letter, one or two characters long and upper case, which `AXIS_MAP` reads as the face's axis or, when primed, its negation |
| Notation.SplitName | src/cuber/group.ts:58 | splitting a name at its first two colons yields parts that join back to the name |
| Notation.SplitJoin | src/cuber/group.ts:58 | joining three parts with colons and splitting again gives the parts, when the first two have no colon |
| Notation.KeyInjective | src/cuber/group.ts:186-188 | `FORMAT` is injective on range names: equal names have the same axis, from and to |
| Notation.RangeKeyOf | src/cuber/group.ts:186-188 | FORMAT names a range of an order-n cube exactly when its layers satisfy 1 <= from <= to <= n |
| Notation.KeyHasColon | src/cuber/group.ts:186-188 | every range name contains a colon, so it never collides with a notation token |
| Notation.ParseKey | src/cuber/group.ts:58-62 | `action`'s regex reads every registered range name back as its axis, from and to |
| Notation.ParseNonRange | src/cuber/group.ts:58-59 | a name without a colon (`center`, `x`, `.`) is not read as a range |
| Notation.OrientFacts | src/cuber/group.ts:63-79 | `action` settles on the far layer first, negates the axis exactly when it toggles the direction, and keeps the layers named (read back along the settled axis) with the outer one on the near side of the centre |
| Notation.FirstMatch | src/cuber/group.ts:372-375 | `get`'s regex match is well formed: digit groups and a face letter |
| Notation.FirstMatchLeftmost | src/cuber/group.ts:372-375 | the match is the leftmost one: there is none exactly when no position starts a match, and otherwise it is the match at the first position that starts one |
| Notation.MatchDigitsFace | src/cuber/group.ts:372-377 | `digits face` matches at the start with an empty second number |
| Notation.MatchDashed | src/cuber/group.ts:372-377 | `digits-digits face` matches with both numbers |
| Notation.NormalizeNarrow | src/cuber/group.ts:324-329 | a token without w and without an upper-case axis letter is read as it is |
| Notation.NormalizeWide | src/cuber/group.ts:324-326 | a wide token `p Face w` is lower-cased and loses its w |
| Notation.LocateFace | src/cuber/group.ts:336-345 | a face letter names the outer layer on its side: layer n of a positive axis, layer 1 of a negative one |
| Notation.LocateWideFace | src/cuber/group.ts:346-355 | a lower-case face letter names the outer two layers on its side |
| Notation.LocateSlice | src/cuber/group.ts:356-362 | M, E and S name the middle layer, or the middle two of an even cube |
| Notation.LocateInner | src/cuber/group.ts:363-369 | m, e and s name every layer but the outer two |
| Notation.UnknownNotRange | src/cuber/group.ts:186-188 | FORMAT("", 0, 0), the name an unknown letter leads to, is the name of no range |
| Notation.LocateUnknownLetter | src/cuber/group.ts:330-371 | a one-letter token that no case names resolves to `FORMAT("", 0, 0)` |
| Notation.LocateUpperAxis | src/cuber/group.ts:327-335 | X, Y and Z are lower-cased and name the whole-cube group |
| Notation.LocateNumbered | src/cuber/group.ts:372-392 | `k Face` names layer k counted from the face |
| Notation.ResolveWide | src/cuber/group.ts:376-392 | a match with one number k and a lower-case face names the outer k layers |
| Notation.NumberedBeyond | src/cuber/group.ts:372-393 | `k Face` with k beyond the order is read as a name that is no range of the cube |
| Notation.LocateWideNumbered | src/cuber/group.ts:324-392 | `k Face w` with k > 2 names the outer k layers |
| Notation.LocateWideTwo | src/cuber/group.ts:324-355 | `Face w` names the outer two layers |
| Notation.ResolveDashed | src/cuber/group.ts:376-392 | a match `i-j face` names layers i..j read from the face |
| Notation.LocateWideRange | src/cuber/group.ts:372-392 | `i-j Face w` names layers i..j counted from the face |
| Notation.UnnamedByLast | src/cuber/group.ts:321-323 | a token ending in an upper-case letter or in w is no registered name, so `get` parses it |
| Notation.CentreFound | src/cuber/group.ts:81-87 | the centre layer of an odd cube is written M, E or S, which `get` reads back as that layer |
| Notation.LayerFound | src/cuber/group.ts:88-90 | a single layer is written `Face` or `k Face`, which `get` reads back as that layer |
| Notation.InnerFound | src/cuber/group.ts:99-105 | all but the outer two layers are written m, e or s and read back |
| Notation.WideFound | src/cuber/group.ts:106-107 | the outer k layers are written `Face w` or `k Face w` and read back |
| Notation.RangeFound | src/cuber/group.ts:108-109 | any other block is written `i-j Face w` and read back |
| Notation.NotateFound | src/cuber/group.ts:81-111 | every token the second half of `action` writes is read by `get` as the same layers; whole-cube turns come out as x, y or z |
| Notation.EmitFound | src/cuber/group.ts:56-114 | notation round trip: `get` of the token `action` writes for range `axis:from:to` names layers from..to about the axis, negated exactly when the token's direction differs from the one asked for |
| Groups.AxisVector | src/cuber/group.ts:190-198 | `AXIS_VECTOR` gives no signed axis the diagonal of the type groups |
| Groups.AxisVectorNegate | src/cuber/group.ts:190-198 | opposite axes have opposite vectors, and distinct axes distinct ones |
| Groups.MiddleLayers | src/cuber/group.ts:360-361 | `floor((n+1)/2)..ceil((n+1)/2)` are layers of the cube, one of them for odd n and two for even n |
| Groups.Round | src/cuber/group.ts:131 | `Math.round` lies within a half of its argument, halves rounding up |
| Groups.Gather | src/cuber/group.ts:118-120 | `hold` collects the cubelets in the group's slots, in the order of `indices` |
| Groups.WriteBack | src/cuber/group.ts:132-143 | `drop`'s loop leaves the arena's size unchanged |
| Groups.WriteBackAt | src/cuber/group.ts:132-143 | after `drop`'s loop, a slot no held cubelet names keeps its cubelet, and one that some do holds the earliest of them |
| Groups.HoldDropRestores | src/cuber/group.ts:116-143 | holding any slots of a consistent arena and dropping them again leaves the arena as it was |
| Groups.CubeGroup.constructor | src/cuber/group.ts:26-36 | a new group has the given cube, name, indices and axis, holds nothing and has angle 0 |
| Groups.CubeGroup.Action | src/cuber/group.ts:56-114 | `action` passes the count through and returns a name that is no range unchanged |
| Groups.ActionToken | src/cuber/group.ts:56-114 | the action of a range group is the token `Emit` writes, which `get` reads back as the group's layers about its axis or the negation |
| Groups.CubeGroup.Hold | src/cuber/group.ts:116-128 | `hold` sets the angle to 0, appends the cubelets of the group's slots in order and locks the cube |
| Groups.CubeGroup.Drop | src/cuber/group.ts:130-151 | `drop` writes the held cubelets back to their slots, empties the group, unlocks the cube, updates it when the angle rounds to a non-zero number of quarter turns and resets the angle |
| Groups.CubeGroup.Twist | src/cuber/group.ts:153-173 | `twist` records the action for the rounded angle when it is non-zero, then drops; it animates exactly when the rounded angle differs from the current one |
| Groups.TypeNamesDiffer | src/cuber/group.ts:211-213 | the type names are no range names |
| Groups.EmptyLists | src/cuber/group.ts:202-213 | the first two loops give every positive range and every type an empty array |
| Groups.EmptyAxis | src/cuber/group.ts:202-209 | one axis of the first loop adds an empty array for every range of that axis |
| Groups.PlacementLayer | src/cuber/group.ts:225-255 | one round of the loop over `cube.initials` adds an existing cubelet's slot to the single layer it starts in along each axis, and to no other |
| Groups.PlacementRange | src/cuber/group.ts:215-261 | that round leaves the wider ranges alone |
| Groups.PlacementType | src/cuber/group.ts:257-260 | that round adds the slot to the group of the cubelet's type |
| Groups.FilledLayer | src/cuber/group.ts:215-261 | after the loop a single-layer group holds the slots of its layer |
| Groups.FilledRange | src/cuber/group.ts:215-261 | after the loop the wider ranges are still empty |
| Groups.FilledType | src/cuber/group.ts:215-261 | after the loop a type group holds the slots of its type |
| Groups.FilledLayered | src/cuber/group.ts:215-261 | the arrays after the loop are the ones described by `Layered` |
| Groups.PushLayers | src/cuber/group.ts:225-255 | the three layer pushes of a round, and the count of outer layers |
| Groups.PlaceCubelet | src/cuber/group.ts:215-260 | one round of the loop over `cube.initials` |
| Groups.FillLayers | src/cuber/group.ts:215-261 | the loop over `cube.initials` leaves the arrays `Layered` |
| Groups.FillingStep | src/cuber/group.ts:263-279 | filling one range moves the third loop's invariant one range on |
| Groups.FillRange | src/cuber/group.ts:270-276 | the innermost loop appends the single layers from..to in order |
| Groups.FillAxis | src/cuber/group.ts:264-278 | the third loop for one axis fills every range of that axis |
| Groups.FillRanges | src/cuber/group.ts:263-279 | after the third loop every positive range holds the slots of its layers in ascending order |
| Groups.ItemsHeld | src/cuber/group.ts:263-292 | with ranges and mirrors registered, the group of a range on either sign holds the slots of its layers |
| Groups.RangesCompose | src/cuber/group.ts:263-279 | range composition over the registered groups: `f..t` is `f..m` followed by `m+1..t` |
| Groups.NewRanges | src/cuber/group.ts:202-209 | one group per positive range, holding its array |
| Groups.NewTypes | src/cuber/group.ts:211-213 | one group per cubelet type, about the diagonal |
| Groups.NewMirrors | src/cuber/group.ts:280-292 | every negative range gets a group sharing the array of its positive template, about the opposite vector |
| Groups.MirrorAxis | src/cuber/group.ts:281-291 | the fourth loop for one axis |
| Groups.MirrorStep | src/cuber/group.ts:283-290 | one mirror registration keeps the earlier ones and adds its own |
| Groups.NewWholes | src/cuber/group.ts:293-300 | x, y and z get groups sharing the array of the whole range of their axis, and nothing else changes |
| Groups.NewSentinels | src/cuber/group.ts:301-302 | `.` and `~` get empty groups, and nothing else changes |
| Groups.GroupTable.constructor | src/cuber/group.ts:199-303 | the constructor builds a table that is `Valid`: every range, mirror, type, whole-cube and sentinel group as above, and no other name (every key is the FORMAT name of a range of this order or a special name); every group is a new object that holds no cubelet and has angle 0 |
| Groups.GroupTable.Get | src/cuber/group.ts:317-323 | a registered name is looked up directly, and whatever `get` returns is a registered group |
| Groups.GroupTable.GetLocated | src/cuber/group.ts:317-393 | for a name that is not registered, `get` finds a group exactly when the name it reads the token as is registered, which is then a range of the cube or a special name |
| Groups.GroupTable.GetNoMatch | src/cuber/group.ts:372-375 | a token of more than one character in which the regex finds no match gives undefined |
| Groups.GroupTable.GetUnknownLetter | src/cuber/group.ts:330-371 | a one-character token that no case of the switch names gives undefined, since FORMAT("", 0, 0) is not registered |
| Groups.GroupTable.GetBeyond | src/cuber/group.ts:372-393 | `k Face` with k beyond the order gives undefined: its layers lie outside the cube |
| Groups.GroupTable.RangeAt | src/cuber/group.ts:263-292 | every range on either sign is registered under its name, shares its positive template's array, holds the slots of its layers and turns about its axis' vector |
| Groups.GroupTable.Lookup | src/cuber/group.ts:317-393 | a token that is no registered name is found through the range it names |
| Groups.GroupTable.FlipGroup | src/cuber/group.ts:281-291 | a range and its mirror share one array and turn about opposite vectors |
| Groups.GroupTable.WholeGroup | src/cuber/group.ts:294-300 | x, y and z share the array of the whole range of their axis |
| Groups.GroupTable.TokenGroup | src/cuber/group.ts:317-393 | what `get` finds for a token naming `a:f:t`, or its mirror, shares that range's array and turns about its vector or the opposite one |
| Groups.GroupTable.ActionFound | src/cuber/group.ts:56-114 | round trip through the table: `get` of the action of any range group finds a group with the same slots, turning the other way exactly when the action's direction is flipped |
| Groups.GroupTable.NamedRange | src/cuber/group.ts:317-393 | a token naming a range finds the slots of its layers and its axis' vector |
| Groups.GroupTable.GetFace | src/cuber/group.ts:336-345 | `get("R")` and the other face letters turn the outer layer on that side about that face's axis |
| Groups.GroupTable.GetSlice | src/cuber/group.ts:356-362 | M, E and S turn the middle layer or layers about -x, -y and +z |
| Groups.GroupTable.GetWideFace | src/cuber/group.ts:346-355 | a lower-case face letter turns the outer two layers on its side |
| Groups.GroupTable.GetInner | src/cuber/group.ts:363-369 | m, e and s turn every layer but the outer two |
| Groups.GroupTable.WholeHoldsAll | src/cuber/group.ts:294-300 | x, y and z hold every existing cubelet exactly once |
| Groups.GroupTable.TypesCover | src/cuber/group.ts:211-260 | the type groups and the inner cubelets together hold every existing cubelet exactly once |
| Groups.GroupTable.RangeComposes | src/cuber/group.ts:263-279 | a registered range is the range up to any of its layers followed by the rest |
| Groups.GroupTable.OwnLayer | src/cuber/group.ts:215-255 | every existing cubelet is in the single-layer group of the layer it starts in, on either sign of every axis |
| Control.Max3 | src/cuber/controller.ts:202 | `Math.max` of three is one of them and at least each |
| Control.SnapDominant | src/cuber/controller.ts:202-206 | the snap keeps exactly the components of largest magnitude, is zero only for the zero vector and is idempotent |
| Control.Finger | src/cuber/controller.ts:207 | the finger direction has a zero component exactly where the snapped drag has one |
| Control.AxisNormal | src/cuber/controller.ts:30-34 | the positive axis c lies in pick plane p exactly when c is not p |
| Control.AxisFinger | src/cuber/controller.ts:92 | `vector.dot(finger)` is the finger's component along the axis |
| Control.QualifiesDots | src/cuber/controller.ts:90-92 | `match`'s two dot-product tests are the `Qualifies` test on components |
| Control.FaceOf | src/cuber/controller.ts:243-254 | the three pick planes carry the faces R, U, F of their axes, and any other plane none |
| Control.Ceil | src/cuber/controller.ts:149 | `Math.ceil` is the least integer at or above its argument |
| Control.CellAsWrittenBounds | src/cuber/controller.ts:149-151 | on the cube the cell as written is below n and brackets the scaled coordinate; it is -1 exactly at the edge -0.5 |
| Control.Cell | src/cuber/controller.ts:149-151 | the corrected cell lies in 0..n-1, brackets the scaled coordinate and agrees with the source away from -0.5 |
| Control.HitSlot | src/cuber/controller.ts:148-152 | the slot of a hit on the cube is a slot of the cube whose layers are the hit's cells plus one |
| Control.SlotAsWrittenMisreads | src/cuber/controller.ts:149-152 | a press on the left edge of a 3x3x3 cube gets slot 14, in the right column, as written |
| Control.PickNearest | src/cuber/controller.ts:134-159 | `handleDown` chooses the first of the nearest hits on the cube over the three planes, with its plane and slot, and keeps the holder when there is none |
| Control.WholeAt | src/cuber/controller.ts:79-84 | the group `get` finds for x, y or z turns about that positive axis and holds every layer along it |
| Control.LayerAt | src/cuber/controller.ts:106 | the group `get` finds for `c:l:l` turns about axis c and holds layer l |
| Control.MatchBackground | src/cuber/controller.ts:78-84 | with no cubelet pressed, `match` on plane p picks the whole-cube turn about the first axis lying in that plane |
| Control.MatchSkip | src/cuber/controller.ts:90-108 | with a cubelet pressed, `match` skips the axes that do not qualify and looks up the pressed slot's layer along the first that does |
| Control.QualifiesOnly | src/cuber/controller.ts:90-92 | on plane p with a drag along axis d only, exactly the third axis qualifies |
| Control.MatchNone | src/cuber/controller.ts:90-110 | with a cubelet pressed and no axis qualifying, `match` returns undefined |
| Control.MatchSnapped | src/cuber/controller.ts:86-108 | layer selection: a drag along axis d on plane p turns the pressed slot's layer about the third axis |
| Control.GripByName | src/cuber/controller.ts:181-194 | a drag from empty space grips y when it is mostly horizontal, else x or z by the side of the corner |
| Control.GripFromBackground | src/cuber/controller.ts:181-194 | that grip is the whole-cube group, which turns about its axis and holds every layer |
| Control.WholesDistinct | src/cuber/controller.ts:219-223 | x, y and z are registered and are three distinct groups, so the identity tests pick one each |
| Control.TurnedWhole | src/cuber/controller.ts:216-225 | the whole-cube group along c is driven by dx about y, dy about x and -dy about z, a third of a quarter turn per cubelet |
| Control.TurnedBackground | src/cuber/controller.ts:215-225 | the group a drag from empty space grips is driven by the travel along its own screen direction |
| Control.TurnedLayer | src/cuber/controller.ts:226-237 | a layer about a positive axis is driven against the travel along the finger |
| Control.Halfway | src/cuber/controller.ts:66-74 | one frame of `update` halves the gap between the group's angle and the target, never passing it, and changes nothing when there is no gap |
| Control.Released | src/cuber/controller.ts:262-268 | a fast drag of less than half a quarter turn becomes a whole quarter turn its way; any other angle stays |
| Control.FlickCommits | src/cuber/controller.ts:262-269 | released fast, a short non-zero drag rounds to one quarter turn its way; released slowly it rounds to none |
| Control.Match | src/cuber/controller.ts:76-111 | the loop over x, y, z returns what `MatchFrom` describes |
| Control.Choose | src/cuber/controller.ts:181-209 | the group choice of `handleMove` is `Grip` |
| Control.Moved | src/cuber/controller.ts:162-239 | `handleMove` never makes the gesture both dragging and rotating, grips the drag's group when it starts a rotation, and ends the gesture on a locked cube |
| Control.Gripped | src/cuber/controller.ts:179-212 | past the threshold the drag becomes a rotation, keeping the angle |
| Control.Followed | src/cuber/controller.ts:215-238 | only the angle follows the drag, and only while a group is turning |
| Control.Controller.constructor | src/cuber/controller.ts:18-59 | a new controller neither drags nor rotates, holds no group, has index -1, is unlocked and enabled, has sensitivity 1 and no taps |
| Control.Controller.Update | src/cuber/controller.ts:66-74 | while a group is turning its angle moves `Halfway` to the controller's; no other group changes |
| Control.Controller.HandleUp | src/cuber/controller.ts:241-279 | `handleUp` taps for a press still dragging, twists a turning group to its released angle (0 while locked), resets the flags and the index and changes nothing else |
| Control.Controller.Reset | src/cuber/controller.ts:255-277 | the taps for a press still dragging, with the plane's face, and the reset of flags and index |
| Control.Controller.LetGo | src/cuber/controller.ts:259-274 | the twist of the turning group: recorded, written back, unlocked |
| Control.Controller.SetLock | src/cuber/controller.ts:39-42 | the lock setter ends the gesture as `handleUp` does, then sets the lock |
| Control.Controller.SetDisable | src/cuber/controller.ts:48-51 | the disable setter ends the gesture as `handleUp` does, then sets the flag |
| Control.Controller.HandleDown | src/cuber/controller.ts:124-160 | disabled, nothing changes; otherwise a gesture under way ends and dragging starts with the nearest hit on the cube as the holder |
| Control.Controller.Press | src/cuber/controller.ts:131-159 | the loop over the planes leaves the holder `PickFrom` describes |
| Control.Controller.HandleMove | src/cuber/controller.ts:162-239 | the new gesture is `Moved` of the old one; the holder and setters are untouched, and a gripped group holds its cubelets and locks the cube |
| Control.Controller.Drag | src/cuber/controller.ts:166-214 | a move while dragging: nothing within the threshold, an end on a locked cube, else a rotation |
| Control.Controller.Start | src/cuber/controller.ts:179-213 | the gesture grips a group, records the finger and sets the angle; the group takes hold |
| Control.Controller.Follow | src/cuber/controller.ts:215-238 | while rotating, the angle follows the drag as `Followed` says |
| Control.Controller.Begin | src/cuber/controller.ts:179-180 | the flags turn from dragging to rotating with the chosen group, which holds its cubelets |
| Control.Controller.Grab | src/cuber/controller.ts:213 | `hold` on the gripped group appends the cubelets of its slots and locks the cube |

## Left out

- The scene graph is not modelled: `THREE.Group` add and remove, `setRotationFromAxisAngle`, `updateMatrix`, and the `dirty` flags of the cube, its container and the world.
- `CubeGroup.rotate` is not modelled. A cubelet's `index` and `vector` therefore never change in the model, and neither does its matrix.
- The tweener is left out.
  - `twist` with a non-zero distance to go completes at once and reports that it would have animated.
  - The duration formula (`frames`) is not modelled, and neither are `tweener.speedup` and `tweener.finish`.
- `intersect`, ray casting, camera projection and the screen-size threshold (`min(width, height) / d > 128`) are inputs: `Hit`, `Move.far`, `Move.leftOfCorner` and `Move.drag`.
- The rescale of `holder.vector` by the cross product with the plane's normal is folded into the input `Move.along`, the drag projected on the finger. `Finger` keeps only which components are zero, which is all `match` reads.
- `dx * dx > dy * dy` is modelled as `|dx| > |dy|`, which is the same test on real numbers.
- The clock (`tick`, `new Date()`) and the speed threshold are the input `fast`.
- The touch dispatcher `touch`, the `loop` over `requestAnimationFrame` and `hover` are not modelled.
- The tap listeners are a log of their calls. What a listener does is foreign code.
- Floating point is modelled as real arithmetic, and angles in quarter turns rather than radians.
- `cube.ts`, `cubelet.ts` and `twister.ts` are not part of this model.
  - `Cube` stands in for the part the groups use: the arena, `initials`, `lock`, the recorded history and a count of `update` calls.
  - `TwistAction` is a record of what `record` receives.
- `.` and `~` are built with the free variable `name`, which refers to a global outside the file. The model takes it to be the empty string.
- `to === NaN` in `get` is never true. The model follows the resulting behaviour: a missing second number counts as 0.
- Control.Controller.Valid keeps only what the gesture needs of the table: the whole-cube and single-layer groups registered and fitting the arena (`Fitted`). It does not keep the full `GroupTable.Valid`, which `TableFitted` shows implies it.
- Text.ToLower: models `toLowerCase` on ASCII letters only. JavaScript also lower-cases other letters and counts UTF-16 units, where a character such as "İ" lengthens the string. No result of `get` depends on it, since no non-ASCII character is a digit, a face letter or `w`.
- Groups.GroupTable.constructor: requires every existing cubelet's initial slot to lie in the cube (`Placed`). The source throws an `Error` when a single-layer group is missing (group.ts:231-233, 242-244, 253-255); that error path is not modelled.
- Groups.CubeGroup.Twist: the default argument `angle = this.angle` is not modelled; Twist always takes the angle. No caller in the core omits it (controller.ts:269, 271).
- Control.PickNearest: uses the corrected cell (`Cell`, `HitSlot`), not the cell as written, so at a coordinate of exactly -0.5 its slot differs from the source's (see Findings). On an order-1 cube the source's slot there is -1, which it then treats as empty space.
- Control.Controller.Press: the loop over the planes uses the corrected cell, as Control.PickNearest does.
- Control.Controller.HandleDown: the holder's index is the corrected slot, as in Control.PickNearest.
- Control.Controller.HandleMove: the angle step after a new grip is folded into `Start` (through `Followed`). The source does it in the same call, so the observable result is the same.

## Findings

| source | as written | input that shows it | evidently intended | confidence | as-written member | corrected member |
|---|---|---|---|---|---|---|
| src/cuber/controller.ts:149-152 | the cell is `Math.ceil((x + 0.5) * order) - 1` | a press at x = -0.5, y = 0.5, z = 0 (the left edge of the top face) of a 3x3x3 cube: the x cell is -1 and the slot is 14, whose layers are the right column and the middle row | the left edge belongs to cell 0, giving the slot in the left column and top row | not executed | Control.SlotAsWrittenMisreads | Control.HitSlot |
