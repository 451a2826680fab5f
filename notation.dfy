/** Cube notation as the group table reads and writes it (src/cuber/group.ts).

    A range group is named `axis:from:to` (GroupTable.FORMAT): the layers
    from..to, counted from 1 along the signed axis. `CubeGroup.action` turns
    such a name into a notation token (R, 2R, Rw, 3Rw, 2-3Lw, M, m, x, ...)
    and `GroupTable.get` parses a token back into a name. This module holds
    both directions as pure functions and proves that they meet. */
module Notation {
  import opened Wrappers
  import opened Text

  /** The face letters in upper case: R, L, U, D, F, B. */
  predicate IsFace(c: char)
  {
    c == 'R' || c == 'L' || c == 'U' || c == 'D' || c == 'F' || c == 'B'
  }

  /** The face letters in lower case, which `get` reads as two layers. */
  predicate IsLowerFace(c: char)
  {
    c == 'r' || c == 'l' || c == 'u' || c == 'd' || c == 'f' || c == 'b'
  }

  /** The slice letters M, E, S. */
  predicate IsSlice(c: char) { c == 'M' || c == 'E' || c == 'S' }

  predicate IsLowerSlice(c: char) { c == 'm' || c == 'e' || c == 's' }

  /** The whole-cube letters x, y, z. */
  predicate IsAxisLetter(c: char) { c == 'x' || c == 'y' || c == 'z' }

  /** The six signed axes of range names: `x`, `y`, `z`, `-x`, `-y`, `-z`. */
  datatype Axis = X | Y | Z | NegX | NegY | NegZ
  {
    /** The axis as it is written in a group name. */
    function Name(): (s: string)
      ensures 1 <= |s| <= 2
      ensures |s| == 1 <==> Positive()
      ensures ':' !in s
    {
      match this
      case X => "x"
      case Y => "y"
      case Z => "z"
      case NegX => "-x"
      case NegY => "-y"
      case NegZ => "-z"
    }

    /** `axis.length == 1` in the source. */
    predicate Positive() { X? || Y? || Z? }

    function Negate(): Axis
    {
      match this
      case X => NegX
      case Y => NegY
      case Z => NegZ
      case NegX => X
      case NegY => Y
      case NegZ => Z
    }

    /** `axis.replace("-", "")`. */
    function Base(): (b: Axis)
      ensures b.Positive()
    {
      if Positive() then this else Negate()
    }

    /** AXIS_TABLE: the face letter of the outer layer seen along the axis. */
    function Face(): (c: char)
      ensures IsFace(c)
    {
      match this
      case X => 'R'
      case Y => 'U'
      case Z => 'F'
      case NegX => 'L'
      case NegY => 'D'
      case NegZ => 'B'
    }
  }

  /** The positive axis along coordinate c: x, y, z for 0, 1, 2. */
  function PosAxis(c: nat): (a: Axis)
    requires c < 3
    ensures a.Positive()
  {
    if c == 0 then X else if c == 1 then Y else Z
  }

  /** The negative axis along coordinate c. */
  function NegAxis(c: nat): (a: Axis)
    requires c < 3
    ensures !a.Positive() && a == PosAxis(c).Negate()
  {
    if c == 0 then NegX else if c == 1 then NegY else NegZ
  }

  /** The coordinate an axis runs along. */
  function Coordinate(a: Axis): (c: nat)
    ensures c < 3
    ensures a == PosAxis(c) || a == NegAxis(c)
  {
    match a
    case X => 0
    case NegX => 0
    case Y => 1
    case NegY => 1
    case Z => 2
    case NegZ => 2
  }

  /** Distinct axes have distinct names. */
  lemma NameInjective(a: Axis, b: Axis)
    requires a.Name() == b.Name()
    ensures a == b
  {
  }

  /** AXIS_MAP: the axis a face or slice letter turns about. */
  function AxisOf(c: char): (a: Axis)
    requires IsFace(c) || IsSlice(c)
    ensures IsFace(c) ==> a.Face() == c
  {
    match c
    case 'R' => X
    case 'L' => NegX
    case 'U' => Y
    case 'D' => NegY
    case 'F' => Z
    case 'B' => NegZ
    case 'M' => NegX
    case 'E' => NegY
    case 'S' => Z
  }

  /** AXIS_MAP inverts AXIS_TABLE on the face letters. */
  lemma AxisOfFace(a: Axis)
    ensures AxisOf(a.Face()) == a
  {
  }

  /** MES_TABLE: the slice between a face and its opposite, primed when it
      turns against the face. */
  function Mes(face: char): string
    requires IsFace(face)
  {
    match face
    case 'R' => "M'"
    case 'U' => "E'"
    case 'F' => "S"
    case 'L' => "M"
    case 'D' => "E"
    case 'B' => "S'"
  }

  // ------------------------------------------------------------------ names

  /** GroupTable.FORMAT. */
  function Format(axis: string, from: int, to: int): string
  {
    axis + ":" + IntToString(from) + ":" + IntToString(to)
  }

  /** The name of the range group of layers from..to about `a`. */
  function Key(a: Axis, from: int, to: int): string
  {
    Format(a.Name(), from, to)
  }

  /** The first ':' at or after position i, or |s| when there is none. */
  function NextColon(s: string, i: nat): (r: nat)
    requires i <= |s|
    ensures i <= r <= |s|
    ensures r < |s| ==> s[r] == ':'
    ensures forall k :: i <= k < r ==> s[k] != ':'
    decreases |s| - i
  {
    if i == |s| || s[i] == ':' then i else NextColon(s, i + 1)
  }

  /** A name split at its first two colons: `head:middle:tail`. */
  datatype Parts = Parts(head: string, middle: string, tail: string)

  function SplitName(s: string): (r: Option<Parts>)
    ensures r.Some? ==> s == r.value.head + ":" + r.value.middle + ":" + r.value.tail
    ensures r.Some? ==> ':' !in r.value.head && ':' !in r.value.middle
  {
    var i := NextColon(s, 0);
    if i == |s| then None
    else
      var j := NextColon(s, i + 1);
      if j == |s| then None
      else
        assert s == s[..i] + ":" + s[i + 1..j] + ":" + s[j + 1..];
        Some(Parts(s[..i], s[i + 1..j], s[j + 1..]))
  }

  /** Splitting at the first two colons is undone by joining with colons. */
  lemma SplitJoin(head: string, middle: string, tail: string)
    requires ':' !in head && ':' !in middle
    ensures SplitName(head + ":" + middle + ":" + tail) == Some(Parts(head, middle, tail))
  {
    var s := head + ":" + middle + ":" + tail;
    assert s[|head|] == ':';
    assert NextColon(s, 0) == |head|;
    assert s[|head| + 1 + |middle|] == ':';
    assert forall k :: |head| + 1 <= k < |head| + 1 + |middle| ==> s[k] == middle[k - |head| - 1];
    assert NextColon(s, |head| + 1) == |head| + 1 + |middle|;
    assert s[..|head|] == head;
    assert s[|head| + 1..|head| + 1 + |middle|] == middle;
    assert s[|head| + 1 + |middle| + 1..] == tail;
  }

  /** Names of distinct range groups differ: FORMAT is injective on them. */
  lemma KeyInjective(a: Axis, from: int, to: int, b: Axis, from': int, to': int)
    requires Key(a, from, to) == Key(b, from', to')
    ensures a == b && from == from' && to == to'
  {
    IntToStringChars(from);
    IntToStringChars(from');
    SplitJoin(a.Name(), IntToString(from), IntToString(to));
    SplitJoin(b.Name(), IntToString(from'), IntToString(to'));
    NameInjective(a, b);
    IntToStringInjective(from, from');
    IntToStringInjective(to, to');
  }

  /** FORMAT is injective on range names, for all of them at once. */
  lemma KeysDistinct()
    ensures forall a, f, t, b, f', t' :: Key(a, f, t) == Key(b, f', t') ==> a == b && f == f' && t == t'
  {
    forall a, f, t, b, f', t' | Key(a, f, t) == Key(b, f', t')
      ensures a == b && f == f' && t == t'
    {
      KeyInjective(a, f, t, b, f', t');
    }
  }

  /** Every range name contains a colon; no notation token does. */
  lemma KeyHasColon(a: Axis, from: int, to: int)
    ensures ':' in Key(a, from, to)
  {
    assert Key(a, from, to)[|a.Name()|] == ':';
  }

  lemma KeysHaveColon()
    ensures forall a, f, t :: ':' in Key(a, f, t)
  {
    forall a, f, t
      ensures ':' in Key(a, f, t)
    {
      KeyHasColon(a, f, t);
    }
  }

  /** The parsed form of a range name. */
  datatype RangeName = RangeName(axis: Axis, from: nat, to: nat)

  /** The axis written as `-?[xyz]`. */
  function AxisNamed(s: string): (r: Option<Axis>)
    ensures r.Some? ==> r.value.Name() == s
  {
    if s == "x" then Some(X)
    else if s == "y" then Some(Y)
    else if s == "z" then Some(Z)
    else if s == "-x" then Some(NegX)
    else if s == "-y" then Some(NegY)
    else if s == "-z" then Some(NegZ)
    else None
  }

  /** `action`'s match of the name against `(^-?[xyz]):(\d*):(\d*$)`, with
      `Number` of each digit group (the empty group reads as 0). */
  function ParseRangeName(name: string): Option<RangeName>
  {
    match SplitName(name)
    case None => None
    case Some(p) =>
      match AxisNamed(p.head)
      case None => None
      case Some(a) =>
        if AllDigits(p.middle) && AllDigits(p.tail) then Some(RangeName(a, DigitsValue(p.middle), DigitsValue(p.tail)))
        else None
  }

  /** Every range name the table registers parses back to its parts. */
  lemma {:induction false} ParseKey(a: Axis, from: nat, to: nat)
    ensures ParseRangeName(Key(a, from, to)) == Some(RangeName(a, from, to))
  {
    IntToStringChars(from);
    SplitJoin(a.Name(), NatToString(from), NatToString(to));
    NatToStringValue(from);
    NatToStringValue(to);
    match AxisNamed(a.Name())
    case None =>
      assert false;
    case Some(b) =>
      NameInjective(a, b);
  }

  /** A name FORMAT gives to a range of an order-n cube: the name of some
      signed axis and two layers in 1..n, in ascending order. */
  predicate IsRangeKey(k: string, n: int)
  {
    && ':' in k
    && exists a: Axis, f: nat, t: nat :: 1 <= f <= t <= n && k == Key(a, f, t)
  }

  /** FORMAT names a range of an order-n cube exactly when its layers lie
      in 1..n in ascending order. */
  lemma RangeKeyOf(a: Axis, f: int, t: int, n: int)
    ensures IsRangeKey(Key(a, f, t), n) <==> 1 <= f <= t <= n
  {
    KeyHasColon(a, f, t);
    if IsRangeKey(Key(a, f, t), n) {
      var b: Axis, f': nat, t': nat :| 1 <= f' <= t' <= n && Key(a, f, t) == Key(b, f', t');
      KeyInjective(a, f, t, b, f', t');
    }
  }

  /** The name an unknown one-letter token leads to, FORMAT("", 0, 0),
      names no range: its axis part is empty. */
  lemma UnknownNotRange(n: int)
    ensures !IsRangeKey(Format("", 0, 0), n)
  {
  }

  /** Names without a colon (`center`, `x`, `.`, ...) are not range names. */
  lemma ParseNonRange(name: string)
    requires ':' !in name
    ensures ParseRangeName(name) == None
  {
  }

  // --------------------------------------------------------------- action

  /** A notation token with its direction, as `action` returns them. */
  datatype Token = Token(text: string, reverse: bool)

  function Abs(x: int): nat { if x < 0 then -x else x }

  /** What `action` has settled on before it writes the token: the axis after
      sign normalisation, the layer numbers counted from that axis's face
      (`from` the outer end), and the possibly toggled direction. */
  datatype Turn = Turn(axis: Axis, from: int, to: int, reverse: bool)

  /** The first half of `action` on a cube of order n. `half` is (n + 1) / 2;
      every comparison with it is made on doubled values. */
  function Orient(n: int, axis: Axis, from: int, to: int, reverse: bool): Turn
  {
    var swap := Abs(2 * from - (n + 1)) < Abs(2 * to - (n + 1));
    var f := if swap then to else from;
    var t := if swap then from else to;
    var flip := if axis.Positive() then 2 * f < n + 1 else 2 * f > n + 1;
    var a := if flip then axis.Negate() else axis;
    var r := if flip then !reverse else reverse;
    if a.Positive() then Turn(a, n - f + 1, n - t + 1, r) else Turn(a, f, t, r)
  }

  /** A primed slice letter becomes the bare letter turning the other way. */
  function Unprime(g: string, reverse: bool): Token
  {
    if |g| == 2 then Token([g[0]], !reverse) else Token(g, reverse)
  }

  /** The second half of `action`: the token for a settled turn. */
  function Notate(n: int, t: Turn): Token
  {
    var face := t.axis.Face();
    if t.from == t.to then
      if 2 * t.from == n + 1 then Unprime(ToUpper(Mes(face)), t.reverse)
      else Token((if t.from == 1 then "" else IntToString(t.from)) + [face], t.reverse)
    else if t.from == 1 && t.to == n then
      var g := t.axis.Name();
      if |g| == 2 then Token([g[1]], !t.reverse) else Token(g, t.reverse)
    else if t.from == 2 && t.to == n - 1 then Unprime(ToLower(Mes(face)), t.reverse)
    else if t.from == 1 then Token((if t.to > 2 then IntToString(t.to) else "") + [face] + "w", t.reverse)
    else Token(IntToString(t.from) + "-" + IntToString(t.to) + [face] + "w", t.reverse)
  }

  /** CubeGroup.action on the range `axis:from:to` of an order-n cube. */
  function Emit(n: int, axis: Axis, from: int, to: int, reverse: bool): Token
  {
    Notate(n, Orient(n, axis, from, to, reverse))
  }

  /** The lower and upper layer, numbered along the positive axis, of the
      layers from..to counted from the face of `a`. */
  function Lo(n: int, a: Axis, from: int, to: int): int
  {
    if a.Positive() then n - to + 1 else from
  }

  function Hi(n: int, a: Axis, from: int, to: int): int
  {
    if a.Positive() then n - from + 1 else to
  }

  /** `action` keeps the layers: read back from the settled axis, its layers
      are the ones named, and the outer one is no further in than the centre.
      The axis changes sign exactly when the direction is toggled. */
  lemma OrientFacts(n: int, axis: Axis, from: int, to: int, reverse: bool)
    requires 1 <= from <= to <= n
    ensures var t := Orient(n, axis, from, to, reverse);
      && 1 <= t.from <= t.to <= n
      && 2 * t.from <= n + 1 && t.from + t.to <= n + 1
      && (t.axis == axis <==> t.reverse == reverse)
      && (t.axis == axis || t.axis == axis.Negate())
      && Lo(n, t.axis, t.from, t.to) == from && Hi(n, t.axis, t.from, t.to) == to
  {
  }

  // ------------------------------------------------------------------ get

  predicate IsLineTerminator(c: char)
  {
    c == '\n' || c == '\r' || c == 0x2028 as char || c == 0x2029 as char
  }

  /** `/.[Ww]/`: a w after any character other than a line terminator. */
  predicate HasWideMark(s: string)
  {
    exists i :: 1 <= i < |s| && (s[i] == 'w' || s[i] == 'W') && !IsLineTerminator(s[i - 1])
  }

  /** `/[XYZ]/`. */
  predicate HasUpperAxis(s: string)
  {
    exists i :: 0 <= i < |s| && (s[i] == 'X' || s[i] == 'Y' || s[i] == 'Z')
  }

  /** `get`'s rewriting: a wide token is lower-cased and loses its first w;
      then a token with an upper-case axis letter is lower-cased. */
  function Normalize(name: string): string
  {
    var s := if HasWideMark(name) then RemoveFirst(ToLower(name), 'w') else name;
    if HasUpperAxis(s) then ToLower(s) else s
  }

  /** An axis (as written) and two layer numbers, before FORMAT. */
  datatype Target = Target(axis: string, from: int, to: int)

  /** The switch on a one-character token. A character no case names leaves
      the axis empty and both layers 0. */
  function LetterTarget(n: int, c: char): Target
  {
    if IsFace(c) then
      var a := AxisOf(c);
      var f := if a.Positive() then n else 1;
      Target(a.Name(), f, f)
    else if IsLowerFace(c) then
      var a := AxisOf(UpperChar(c));
      Target(a.Name(), if a.Positive() then n else 1, if a.Positive() then n - 1 else 2)
    else if IsSlice(c) then
      Target(AxisOf(c).Name(), (n + 1) / 2, (n + 2) / 2)
    else if IsLowerSlice(c) then
      Target(AxisOf(UpperChar(c)).Name(), 2, n - 1)
    else Target("", 0, 0)
  }

  predicate IsFaceLetter(c: char) { IsFace(c) || IsLowerFace(c) }

  /** The groups of `/([0-9]*)(-?)([0-9]*)([lrudfb])/i` (the sign group is
      not read). */
  datatype RegexMatch = RegexMatch(from: string, to: string, face: char)

  predicate WellFormed(m: RegexMatch)
  {
    AllDigits(m.from) && AllDigits(m.to) && IsFaceLetter(m.face)
  }

  /** The end of the run of digits starting at i. */
  function DigitEnd(s: string, i: nat): (j: nat)
    requires i <= |s|
    ensures i <= j <= |s|
    ensures forall k :: i <= k < j ==> IsDigit(s[k])
    ensures j < |s| ==> !IsDigit(s[j])
    decreases |s| - i
  {
    if i < |s| && IsDigit(s[i]) then DigitEnd(s, i + 1) else i
  }

  /** The match starting at p, if any. The greedy first digit group can be
      taken whole: giving digits back leaves a digit where the sign or the
      face letter would have to be. */
  function MatchAt(s: string, p: nat): (r: Option<RegexMatch>)
    requires p <= |s|
    ensures r.Some? ==> WellFormed(r.value)
  {
    var i := DigitEnd(s, p);
    if i == |s| then None
    else if IsFaceLetter(s[i]) then Some(RegexMatch(s[p..i], "", s[i]))
    else if s[i] == '-' then
      var j := DigitEnd(s, i + 1);
      if j < |s| && IsFaceLetter(s[j]) then Some(RegexMatch(s[p..i], s[i + 1..j], s[j])) else None
    else None
  }

  /** The leftmost match at or after p. */
  function FirstMatch(s: string, p: nat): (r: Option<RegexMatch>)
    requires p <= |s|
    ensures r.Some? ==> WellFormed(r.value)
    decreases |s| - p
  {
    if p == |s| then None
    else match MatchAt(s, p)
      case Some(m) => Some(m)
      case None => FirstMatch(s, p + 1)
  }

  /** The match `FirstMatch` finds is the leftmost one: there is none
      exactly when no position from p on starts a match, and otherwise it is
      the match at the first position that starts one. */
  lemma {:induction false} FirstMatchLeftmost(s: string, p: nat)
    requires p <= |s|
    ensures FirstMatch(s, p).None? <==> forall q :: p <= q < |s| ==> MatchAt(s, q).None?
    ensures FirstMatch(s, p).Some? ==>
      exists q :: p <= q < |s| && MatchAt(s, q) == FirstMatch(s, p) && forall q' :: p <= q' < q ==> MatchAt(s, q').None?
    decreases |s| - p
  {
    if p < |s| {
      if MatchAt(s, p).Some? {
        assert MatchAt(s, p) == FirstMatch(s, p);
      } else {
        FirstMatchLeftmost(s, p + 1);
      }
    }
  }

  /** FORMAT with the layers in ascending order. */
  function Ordered(axis: string, from: int, to: int): string
  {
    if from > to then Format(axis, to, from) else Format(axis, from, to)
  }

  /** The name `get` looks up for a one-character token. */
  function ResolveLetter(n: int, c: char): string
  {
    if IsAxisLetter(c) then [c]
    else
      var g := LetterTarget(n, c);
      Ordered(g.axis, g.from, g.to)
  }

  /** The name `get` looks up for a regex match: a missing second number
      means the face's own layer, or layer 1 for a lower-case face; a
      positive axis counts layers from the far side. */
  function ResolveMatch(n: int, m: RegexMatch): string
    requires WellFormed(m)
  {
    var from := DigitsValue(m.from);
    var to0 := DigitsValue(m.to);
    var to := if to0 == 0 then (if IsLowerFace(m.face) then 1 else from) else to0;
    var a := AxisOf(UpperChar(m.face));
    if a.Positive() then Ordered(a.Name(), n - from + 1, n - to + 1)
    else Ordered(a.Name(), from, to)
  }

  /** The name `get` looks up for a token that is not itself a group name;
      None where `get` returns undefined before any lookup. */
  function Locate(n: int, name: string): Option<string>
  {
    var s := Normalize(name);
    if |s| == 1 then Some(ResolveLetter(n, s[0]))
    else
      match FirstMatch(s, 0)
      case None => None
      case Some(m) => Some(ResolveMatch(n, m))
  }

  // ---------------------------------------------------- parsing lemmas

  /** The layers a single face letter names. */
  lemma LocateFace(n: int, c: char)
    requires IsFace(c)
    ensures var a := AxisOf(c);
      Locate(n, [c]) == Some(if a.Positive() then Key(a, n, n) else Key(a, 1, 1))
  {
    assert !HasWideMark([c]);
    assert !HasUpperAxis([c]);
  }

  /** The layers a lower-case face letter names: the outer two. */
  lemma LocateWideFace(n: int, c: char)
    requires IsLowerFace(c)
    ensures var a := AxisOf(UpperChar(c));
      Locate(n, [c]) == Some(if a.Positive() then Key(a, n - 1, n) else Key(a, 1, 2))
  {
    assert !HasWideMark([c]);
    assert !HasUpperAxis([c]);
  }

  /** The layers an upper-case slice letter names: the middle one or two. */
  lemma LocateSlice(n: int, c: char)
    requires IsSlice(c)
    ensures Locate(n, [c]) == Some(Key(AxisOf(c), (n + 1) / 2, (n + 2) / 2))
  {
    assert !HasWideMark([c]);
    assert !HasUpperAxis([c]);
  }

  /** The layers a lower-case slice letter names: all but the outer two. */
  lemma LocateInner(n: int, c: char)
    requires IsLowerSlice(c) && n >= 3
    ensures Locate(n, [c]) == Some(Key(AxisOf(UpperChar(c)), 2, n - 1))
  {
    assert !HasWideMark([c]);
    assert !HasUpperAxis([c]);
  }

  /** A token that names no case of the switch resolves to `:0:0`. */
  lemma LocateUnknownLetter(n: int, c: char)
    requires !IsAxisLetter(c) && !IsFace(c) && !IsLowerFace(c) && !IsSlice(c) && !IsLowerSlice(c)
    requires c != 'X' && c != 'Y' && c != 'Z' && c != 'W' && c != 'w'
    ensures Locate(n, [c]) == Some(Format("", 0, 0))
  {
    assert !HasWideMark([c]);
    assert !HasUpperAxis([c]);
  }

  /** A whole-cube letter in upper case resolves to the group of that name. */
  lemma LocateUpperAxis(n: int, c: char)
    requires c == 'X' || c == 'Y' || c == 'Z'
    ensures Locate(n, [c]) == Some([LowerChar(c)])
  {
    assert !HasWideMark([c]);
    assert [c][0] == c;
  }

  lemma DigitEndAt(s: string, i: nat, j: nat)
    requires i <= j <= |s|
    requires forall k :: i <= k < j ==> IsDigit(s[k])
    requires j < |s| ==> !IsDigit(s[j])
    ensures DigitEnd(s, i) == j
    decreases j - i
  {
    if i < j {
      DigitEndAt(s, i + 1, j);
    }
  }

  /** `digits face` matches at the start with an empty second number. */
  lemma MatchDigitsFace(d: string, c: char)
    requires AllDigits(d) && IsFaceLetter(c)
    ensures FirstMatch(d + [c], 0) == Some(RegexMatch(d, "", c))
  {
    var s := d + [c];
    DigitEndAt(s, 0, |d|);
    assert s[..|d|] == d;
  }

  /** `digits - digits face` matches at the start with both numbers. */
  lemma MatchDashed(d: string, e: string, c: char)
    requires AllDigits(d) && AllDigits(e) && IsFaceLetter(c)
    ensures FirstMatch(d + "-" + e + [c], 0) == Some(RegexMatch(d, e, c))
  {
    var s := d + "-" + e + [c];
    DigitEndAt(s, 0, |d|);
    assert forall k :: |d| + 1 <= k < |d| + 1 + |e| ==> s[k] == e[k - |d| - 1];
    DigitEndAt(s, |d| + 1, |d| + 1 + |e|);
    assert s[..|d|] == d;
    assert s[|d| + 1..|d| + 1 + |e|] == e;
  }

  /** Digits and dashes. */
  predicate Plain(s: string)
  {
    forall i :: 0 <= i < |s| ==> IsDigit(s[i]) || s[i] == '-'
  }

  /** A token without w and without an upper-case axis letter is read as it is. */
  lemma NormalizeNarrow(p: string, c: char)
    requires Plain(p) && IsFace(c)
    ensures Normalize(p + [c]) == p + [c]
  {
    var s := p + [c];
    assert forall i :: 0 <= i < |s| ==> s[i] != 'w' && s[i] != 'W' && s[i] != 'X' && s[i] != 'Y' && s[i] != 'Z' by {
      forall i | 0 <= i < |s|
        ensures s[i] != 'w' && s[i] != 'W' && s[i] != 'X' && s[i] != 'Y' && s[i] != 'Z'
      {
        if i < |p| {
          assert s[i] == p[i];
        }
      }
    }
  }

  /** Lower-casing `p Face w` touches only the face letter, which is no
      w and no axis letter. */
  lemma WideLowered(p: string, c: char)
    requires Plain(p) && IsFace(c)
    ensures ToLower(p + [c] + "w") == p + [LowerChar(c)] + "w"
    ensures 'w' !in p + [LowerChar(c)] && !HasUpperAxis(p + [LowerChar(c)])
  {
    var s := p + [c] + "w";
    var q := p + [LowerChar(c)];
    assert forall i :: 0 <= i < |p| ==> s[i] == p[i] && q[i] == p[i];
    assert ToLower(s) == q + "w";
  }

  /** A wide token `p Face w` is read as `p face`. */
  lemma NormalizeWide(p: string, c: char)
    requires Plain(p) && IsFace(c)
    ensures Normalize(p + [c] + "w") == p + [LowerChar(c)]
  {
    var s := p + [c] + "w";
    var q := p + [LowerChar(c)];
    assert s[|s| - 1] == 'w' && s[|s| - 2] == c;
    assert HasWideMark(s);
    WideLowered(p, c);
    RemoveFirstAfter(q, 'w', []);
    assert q + ['w'] + [] == q + "w";
    assert q + [] == q;
  }

  lemma DigitsPlain(d: string)
    requires AllDigits(d)
    ensures Plain(d)
  {
  }

  lemma DashedPlain(d: string, e: string)
    requires AllDigits(d) && AllDigits(e)
    ensures Plain(d + "-" + e)
  {
  }

  /** `k Face` names layer k counted from the face. */
  lemma LocateNumbered(n: int, k: nat, a: Axis)
    requires 2 <= k
    ensures Locate(n, NatToString(k) + [a.Face()]) == Some(Key(a, Lo(n, a, k, k), Hi(n, a, k, k)))
  {
    var d := NatToString(k);
    DigitsPlain(d);
    NormalizeNarrow(d, a.Face());
    MatchDigitsFace(d, a.Face());
    NatToStringValue(k);
    AxisOfFace(a);
  }

  /** `k Face` with k beyond the order names layers outside 1..n: a name
      that is no range of the cube. */
  lemma NumberedBeyond(n: int, k: nat, a: Axis) returns (key: string)
    requires 2 <= k && n < k
    ensures Unnamed(NatToString(k) + [a.Face()])
    ensures Locate(n, NatToString(k) + [a.Face()]) == Some(key)
    ensures ':' in key && !IsRangeKey(key, n)
  {
    var lo, hi := Lo(n, a, k, k), Hi(n, a, k, k);
    key := Key(a, lo, hi);
    LocateNumbered(n, k, a);
    var text := NatToString(k) + [a.Face()];
    DigitsNoColon(NatToString(k));
    assert ':' !in text && IsDigit(text[0]);
    RangeKeyOf(a, lo, hi, n);
    KeyHasColon(a, lo, hi);
  }

  /** The number of a `k face` match is the outer k layers. */
  lemma ResolveWide(n: int, k: nat, a: Axis)
    requires 2 < k
    ensures ResolveMatch(n, RegexMatch(NatToString(k), "", LowerChar(a.Face())))
      == Key(a, Lo(n, a, 1, k), Hi(n, a, 1, k))
  {
    NatToStringValue(k);
    var c := LowerChar(a.Face());
    assert IsLowerFace(c) && UpperChar(c) == a.Face();
    assert DigitsValue("") == 0;
    AxisOfFace(a);
  }

  /** `k Face w` (k > 2) names the outer k layers. */
  lemma LocateWideNumbered(n: int, k: nat, a: Axis)
    requires 2 < k
    ensures Locate(n, NatToString(k) + [a.Face()] + "w") == Some(Key(a, Lo(n, a, 1, k), Hi(n, a, 1, k)))
  {
    var c := a.Face();
    var d := NatToString(k);
    DigitsPlain(d);
    NormalizeWide(d, c);
    MatchDigitsFace(d, LowerChar(c));
    assert Locate(n, d + [c] + "w") == Some(ResolveMatch(n, RegexMatch(d, "", LowerChar(c))));
    ResolveWide(n, k, a);
  }

  /** `Face w` names the outer two layers. */
  lemma LocateWideTwo(n: int, a: Axis)
    ensures Locate(n, [a.Face()] + "w") == Some(Key(a, Lo(n, a, 1, 2), Hi(n, a, 1, 2)))
  {
    var c := a.Face();
    var l := LowerChar(c);
    assert Normalize([c] + "w") == [l] by {
      NormalizeWide([], c);
      assert [] + [c] + "w" == [c] + "w";
      assert [] + [l] == [l];
    }
    assert Locate(n, [c] + "w") == Locate(n, [l]);
    assert AxisOf(UpperChar(l)) == a by {
      assert UpperChar(l) == c;
      AxisOfFace(a);
    }
    LocateWideFace(n, l);
  }

  /** The numbers of an `i-j face` match are the layers, read from the face. */
  lemma ResolveDashed(n: int, i: nat, j: nat, a: Axis)
    requires 1 <= i < j
    ensures ResolveMatch(n, RegexMatch(NatToString(i), NatToString(j), LowerChar(a.Face())))
      == Key(a, Lo(n, a, i, j), Hi(n, a, i, j))
  {
    NatToStringValue(i);
    NatToStringValue(j);
    assert UpperChar(LowerChar(a.Face())) == a.Face();
    AxisOfFace(a);
  }

  /** `i-j Face w` names layers i..j counted from the face. */
  lemma LocateWideRange(n: int, i: nat, j: nat, a: Axis)
    requires 1 <= i < j
    ensures Locate(n, NatToString(i) + "-" + NatToString(j) + [a.Face()] + "w")
      == Some(Key(a, Lo(n, a, i, j), Hi(n, a, i, j)))
  {
    var c := a.Face();
    var d := NatToString(i);
    var e := NatToString(j);
    DashedPlain(d, e);
    NormalizeWide(d + "-" + e, c);
    MatchDashed(d, e, LowerChar(c));
    assert Locate(n, d + "-" + e + [c] + "w") == Some(ResolveMatch(n, RegexMatch(d, e, LowerChar(c))));
    ResolveDashed(n, i, j, a);
  }

  // ---------------------------------------------------------- round trip

  /** A token that is no registered name: `get` parses it rather than
      finding it directly. */
  predicate Unnamed(s: string)
  {
    ':' !in s && s !in {"center", "edge", "corner", "x", "y", "z", ".", "~"}
  }

  /** A decimal numeral has no colon. */
  lemma DigitsNoColon(d: string)
    requires AllDigits(d)
    ensures ':' !in d
  {
  }

  /** A token ending in an upper-case letter or in w is no registered name. */
  lemma UnnamedByLast(s: string)
    requires 2 <= |s| && (IsUpper(s[|s| - 1]) || s[|s| - 1] == 'w')
    requires ':' !in s
    ensures Unnamed(s)
  {
  }

  /** A settled turn as `action` may produce it: layers in order, the outer
      one on the near side of the centre, the inner one no further out. */
  predicate Settled(n: int, t: Turn)
  {
    1 <= t.from <= t.to <= n && 2 * t.from <= n + 1 && t.from + t.to <= n + 1
  }

  /** `get` finds for the token the turn's layers, read back along the
      settled axis, negated exactly when the token's direction differs from
      the turn's. */
  predicate Found(n: int, t: Turn, tok: Token)
  {
    var b := if tok.reverse == t.reverse then t.axis else t.axis.Negate();
    Unnamed(tok.text) && Locate(n, tok.text) == Some(Key(b, Lo(n, t.axis, t.from, t.to), Hi(n, t.axis, t.from, t.to)))
  }

  /** The slice letter of an axis names the centre layer along it, primed
      when the letter turns about the opposite axis. */
  lemma MesAxis(a: Axis)
    ensures var g := Mes(a.Face());
      && 1 <= |g| <= 2 && IsSlice(g[0]) && ToUpper(g) == g
      && AxisOf(g[0]) == (if |g| == 2 then a.Negate() else a)
  {
  }

  /** The centre layer of an odd cube comes out as M, E or S. */
  lemma CentreFound(n: int, t: Turn)
    requires Settled(n, t) && t.from == t.to && 2 * t.from == n + 1
    ensures Found(n, t, Notate(n, t))
  {
    var g := Mes(t.axis.Face());
    MesAxis(t.axis);
    var tok := Unprime(g, t.reverse);
    assert Notate(n, t) == tok;
    assert tok.text == [g[0]] && tok.reverse == (t.reverse != (|g| == 2));
    LocateSlice(n, g[0]);
    assert (n + 1) / 2 == t.from && (n + 2) / 2 == t.from;
  }

  /** A single outer-side layer comes out as `Face` or `k Face`. */
  lemma LayerFound(n: int, t: Turn)
    requires Settled(n, t) && t.from == t.to && 2 * t.from != n + 1
    ensures Found(n, t, Notate(n, t))
  {
    var face := t.axis.Face();
    if t.from == 1 {
      assert Notate(n, t) == Token([face], t.reverse);
      LocateFace(n, face);
      AxisOfFace(t.axis);
    } else {
      var text := NatToString(t.from) + [face];
      assert Notate(n, t) == Token(text, t.reverse);
      LocateNumbered(n, t.from, t.axis);
      DigitsNoColon(NatToString(t.from));
      UnnamedByLast(text);
    }
  }

  /** All but the two outer layers come out as m, e or s. */
  lemma InnerFound(n: int, t: Turn)
    requires Settled(n, t) && t.from == 2 && t.to == n - 1 && t.from != t.to
    ensures Found(n, t, Notate(n, t))
  {
    var g := ToLower(Mes(t.axis.Face()));
    assert IsLowerSlice(g[0]);
    LocateInner(n, g[0]);
    assert AxisOf(UpperChar(g[0])) == (if |g| == 2 then t.axis.Negate() else t.axis);
  }

  /** The outer k layers come out as `Face w` or `k Face w`. */
  lemma WideFound(n: int, t: Turn)
    requires Settled(n, t) && t.from == 1 && 1 < t.to < n
    ensures Found(n, t, Notate(n, t))
  {
    var face := t.axis.Face();
    if t.to > 2 {
      var text := NatToString(t.to) + [face] + "w";
      assert Notate(n, t) == Token(text, t.reverse);
      LocateWideNumbered(n, t.to, t.axis);
      DigitsNoColon(NatToString(t.to));
      UnnamedByLast(text);
    } else {
      var text := [face] + "w";
      assert Notate(n, t) == Token(text, t.reverse);
      LocateWideTwo(n, t.axis);
      UnnamedByLast(text);
    }
  }

  /** Any other block of layers comes out as `i-j Face w`. */
  lemma RangeFound(n: int, t: Turn)
    requires Settled(n, t) && 2 <= t.from < t.to && !(t.from == 2 && t.to == n - 1)
    ensures Found(n, t, Notate(n, t))
  {
    var d := NatToString(t.from);
    var e := NatToString(t.to);
    var text := d + "-" + e + [t.axis.Face()] + "w";
    assert Notate(n, t) == Token(text, t.reverse);
    LocateWideRange(n, t.from, t.to, t.axis);
    DigitsNoColon(d);
    DigitsNoColon(e);
    UnnamedByLast(text);
  }

  /** `get` of the token `action` writes for a settled turn. Whole-cube
      turns come out as the bare positive axis letter, which is itself a
      group name. */
  lemma NotateFound(n: int, t: Turn)
    requires Settled(n, t)
    ensures var tok := Notate(n, t);
      var b := if tok.reverse == t.reverse then t.axis else t.axis.Negate();
      if t.from == 1 && t.to == n && n > 1 then tok.text == b.Name() && b.Positive()
      else Found(n, t, tok)
  {
    if t.from == t.to {
      if 2 * t.from == n + 1 {
        CentreFound(n, t);
      } else {
        LayerFound(n, t);
      }
    } else if t.from == 1 && t.to == n {
    } else if t.from == 2 && t.to == n - 1 {
      InnerFound(n, t);
    } else if t.from == 1 {
      WideFound(n, t);
    } else {
      RangeFound(n, t);
    }
  }

  /** The notation round trip: for a range `axis:from:to` of an order-n cube,
      `get` of the token `action` writes names the same layers `from..to`,
      about the same axis or its negation, and the negation exactly when the
      token's direction differs from the one asked for. A whole-cube range
      comes out as the bare positive axis letter. */
  lemma EmitFound(n: int, axis: Axis, from: int, to: int, reverse: bool)
    requires 1 <= from <= to <= n
    ensures var tok := Emit(n, axis, from, to, reverse);
      var b := if tok.reverse == reverse then axis else axis.Negate();
      if from == 1 && to == n && n > 1 then tok.text == b.Name() && b.Positive() && b.Base() == axis.Base()
      else Unnamed(tok.text) && Locate(n, tok.text) == Some(Key(b, from, to))
  {
    var t := Orient(n, axis, from, to, reverse);
    OrientFacts(n, axis, from, to, reverse);
    NotateFound(n, t);
    var tok := Notate(n, t);
    assert Emit(n, axis, from, to, reverse) == tok;
    assert (if tok.reverse == reverse then axis else axis.Negate()) == (if tok.reverse == t.reverse then t.axis else t.axis.Negate());
  }
}
