/** What a slice rotation does and keeps, proved about the specification functions of
    `CubeGrid`. */
module GridProperties {
  import opened CubeGrid
  import opened Arith
  import Permutations

  // ---------------------------------------------------------------------------
  // Flattened indices `x + n * y + n * n * z` and `q + n * p`

  /** The flattened index of a cell lies in `0 .. n^3 - 1` and its base-`n` digits
      are the cell's coordinates. */
  lemma HomeDigits(n: int, c: Cell)
    requires InGrid(n, c)
    ensures 0 <= HomeHandle(n, c) < n * n * n
    ensures HomeHandle(n, c) % n == c.x
    ensures HomeHandle(n, c) / n % n == c.y
    ensures HomeHandle(n, c) / n / n == c.z
  {
    var r := c.y + n * c.z;
    FlatIndex(n, c.z, c.y);
    Expand(n, c.y, c.z);
    DivMod(n, r, c.x);
    MulMono(n, r, n * n - 1);
    MulMono(n, 0, r);
    Expand(n, -1, n);
  }

  /** Every handle `0 .. n^3 - 1` is the flattened index of the cell its base-`n`
      digits name. */
  lemma HomeOfDigits(n: int, h: int)
    requires n > 0 && 0 <= h < n * n * n
    ensures InGrid(n, Cell(h % n, h / n % n, h / n / n))
    ensures HomeHandle(n, Cell(h % n, h / n % n, h / n / n)) == h
  {
    var r := h / n;
    Split(n, h);
    Split(n, r);
    Assoc(n);
    DivLess(n, h, n * n);
    DivLess(n, r, n);
    Expand(n, r % n, r / n);
  }


  // ---------------------------------------------------------------------------
  // The layer map

  lemma LayerCellPos(n: int, axis: int, slice: int, p: int, q: int)
    requires 0 <= axis < 3 && 0 <= slice < n && 0 <= p < n && 0 <= q < n
    ensures InGrid(n, LayerCell(axis, slice, p, q)) && InLayer(axis, slice, LayerCell(axis, slice, p, q))
    ensures LayerPos(axis, LayerCell(axis, slice, p, q)) == (p, q)
  {
  }

  lemma LayerPosCell(axis: int, slice: int, c: Cell)
    requires 0 <= axis < 3 && InLayer(axis, slice, c)
    ensures LayerCell(axis, slice, LayerPos(axis, c).0, LayerPos(axis, c).1) == c
  {
  }

  /** The reverse command undoes the layer map in both orders, so the map is a
      bijection of the layer onto itself. */
  lemma SourceInverse(n: int, m: Move, c: Cell)
    requires ValidMove(n, m) && InGrid(n, c) && InLayer(m.axis, m.slice, c)
    ensures InGrid(n, SourceCell(n, m, c)) && InLayer(m.axis, m.slice, SourceCell(n, m, c))
    ensures SourceCell(n, Reverse(m), SourceCell(n, m, c)) == c
  {
  }

  function Reverse(m: Move): Move {
    m.(clockwise := !m.clockwise)
  }

  /** Four quarter turns the same way bring every in-layer cell back to itself. */
  lemma SourceFour(n: int, m: Move, c: Cell)
    requires ValidMove(n, m) && InGrid(n, c) && InLayer(m.axis, m.slice, c)
    ensures SourceCell(n, m, SourceCell(n, m, SourceCell(n, m, SourceCell(n, m, c)))) == c
  {
  }

  /** A coordinate measured from the centre of the grid, doubled so that it stays an
      integer: `0 .. n - 1` becomes `-(n - 1), -(n - 3), .., n - 1`. */
  function Centred(n: int, c: Cell): (int, int, int) {
    (2 * c.x - (n - 1), 2 * c.y - (n - 1), 2 * c.z - (n - 1))
  }

  /** A quarter turn about `axis` by the right-hand rule, on centred coordinates: about
      X, y goes to z; about Y, z goes to x; about Z, x goes to y. */
  function QuarterTurn(axis: int, v: (int, int, int)): (int, int, int) {
    if axis == AxisX then (v.0, -v.2, v.1)
    else if axis == AxisY then (v.2, v.1, -v.0)
    else (-v.1, v.0, v.2)
  }

  /** All three clockwise turns have the same sense: each carries the cube from its
      source cell onto `c` by a right-hand quarter turn about its own axis, and each
      anticlockwise turn carries `c` onto its source cell by that same quarter turn. */
  lemma TurnSense(n: int, m: Move, c: Cell)
    requires ValidMove(n, m) && InGrid(n, c) && InLayer(m.axis, m.slice, c)
    ensures m.clockwise ==> Centred(n, c) == QuarterTurn(m.axis, Centred(n, SourceCell(n, m, c)))
    ensures !m.clockwise ==> Centred(n, SourceCell(n, m, c)) == QuarterTurn(m.axis, Centred(n, c))
  {
  }

  /** Where a cell's cube comes from: its own cell outside the layer, the rotated one
      inside. */
  function Origin(n: int, m: Move, c: Cell): Cell {
    if InLayer(m.axis, m.slice, c) then SourceCell(n, m, c) else c
  }

  lemma RotatedAt(g: Grid, n: nat, m: Move, c: Cell)
    requires WellFormed(g, n) && ValidMove(n, m) && InGrid(n, c)
    ensures At(Rotated(g, n, m), c) == NewCell(g, n, m, c)
  {
  }

  /** A rotation moves only the layer: outside it every cube is unchanged; inside it
      each cell receives the cube from its rotated coordinate, with the same handle and
      only the rotation axis's angle changed, by a quarter turn modulo 360. */
  lemma RotateMovesOnlyLayer(g: Grid, n: nat, m: Move, c: Cell)
    requires WellFormed(g, n) && ValidMove(n, m) && InGrid(n, c)
    ensures !InLayer(m.axis, m.slice, c) ==> At(Rotated(g, n, m), c) == At(g, c)
    ensures InLayer(m.axis, m.slice, c) ==>
      var before := At(g, SourceCell(n, m, c));
      var after := At(Rotated(g, n, m), c);
      after.handle == before.handle &&
      (forall axis :: 0 <= axis < 3 && axis != m.axis ==> Angle(after, axis) == Angle(before, axis)) &&
      (Angle(after, m.axis) - Angle(before, m.axis) - (if m.clockwise then 90 else -90)) % 360 == 0
  {
    RotatedAt(g, n, m, c);
    if InLayer(m.axis, m.slice, c) {
      SourceInverse(n, m, c);
      var before := At(g, SourceCell(n, m, c));
      var a := Angle(before, m.axis) + if m.clockwise then 90 else -90;
      SpinAngles(before, m.axis, m.clockwise);
      ModSum(a - JRem360(a), 0);
    }
  }

  // ---------------------------------------------------------------------------
  // Handle conservation

  lemma OriginInjective(n: int, m: Move, c: Cell, d: Cell)
    requires ValidMove(n, m) && InGrid(n, c) && InGrid(n, d)
    requires Origin(n, m, c) == Origin(n, m, d)
    ensures c == d
  {
    if InLayer(m.axis, m.slice, c) && InLayer(m.axis, m.slice, d) {
      SourceInverse(n, m, c);
      SourceInverse(n, m, d);
    } else if InLayer(m.axis, m.slice, c) || InLayer(m.axis, m.slice, d) {
      SourceInverse(n, m, if InLayer(m.axis, m.slice, c) then c else d);
    }
  }

  lemma OriginHandle(g: Grid, n: nat, m: Move, c: Cell)
    requires WellFormed(g, n) && ValidMove(n, m) && InGrid(n, c)
    ensures InGrid(n, Origin(n, m, c))
    ensures At(Rotated(g, n, m), c).handle == At(g, Origin(n, m, c)).handle
  {
    RotatedAt(g, n, m, c);
    if InLayer(m.axis, m.slice, c) {
      SourceInverse(n, m, c);
    }
  }

  /** The cell a rotation moves the cube on `c` to. */
  lemma OriginOnto(n: int, m: Move, c: Cell) returns (d: Cell)
    requires ValidMove(n, m) && InGrid(n, c)
    ensures InGrid(n, d) && Origin(n, m, d) == c
  {
    d := c;
    if InLayer(m.axis, m.slice, c) {
      d := SourceCell(n, Reverse(m), c);
      SourceInverse(n, Reverse(m), c);
      assert Reverse(Reverse(m)) == m;
    }
  }

  /** Every cube of the grid still occurs exactly once after a rotation. */
  lemma RotatePreservesHandlesOnce(g: Grid, n: nat, m: Move)
    requires WellFormed(g, n) && ValidMove(n, m) && HandlesOnce(g, n)
    ensures HandlesOnce(Rotated(g, n, m), n)
  {
    var r := Rotated(g, n, m);
    forall c | InGrid(n, c)
      ensures 0 <= At(r, c).handle < n * n * n
    {
      OriginHandle(g, n, m, c);
    }
    forall c, d | InGrid(n, c) && InGrid(n, d) && At(r, c).handle == At(r, d).handle
      ensures c == d
    {
      OriginHandle(g, n, m, c);
      OriginHandle(g, n, m, d);
      OriginInjective(n, m, c, d);
    }
    forall h | 0 <= h < n * n * n
      ensures Present(r, n, h)
    {
      assert Present(g, n, h);
      var c :| InGrid(n, c) && At(g, c).handle == h;
      var d := OriginOnto(n, m, c);
      OriginHandle(g, n, m, d);
    }
  }

  /** The layer's handles after a rotation are the layer's handles before it, as a
      multiset: the rotation permutes the layer. */
  lemma LayerHandlesPermuted(g: Grid, n: nat, m: Move)
    requires WellFormed(g, n) && ValidMove(n, m)
    ensures multiset(LayerHandles(Rotated(g, n, m), n, m.axis, m.slice)) ==
            multiset(LayerHandles(g, n, m.axis, m.slice))
  {
    var s := LayerHandles(g, n, m.axis, m.slice);
    var t := LayerHandles(Rotated(g, n, m), n, m.axis, m.slice);
    var f := FlatSource(n, m);
    var f' := FlatSource(n, Reverse(m));
    assert Reverse(Reverse(m)) == m;
    forall i | 0 <= i < n * n
      ensures 0 <= f(i) < n * n && f'(f(i)) == i && t[i] == s[f(i)]
    {
      FlatSourceInverse(n, m, i);
      LayerHandleMoved(g, n, m, i);
    }
    forall j | 0 <= j < n * n
      ensures 0 <= f'(j) < n * n && f(f'(j)) == j
    {
      FlatSourceInverse(n, Reverse(m), j);
    }
    Permutations.ReorderedMultiset(s, t, f, f');
  }

  /** Recording index `i` of the rotated layer holds the handle recorded at the
      source index before the rotation. */
  lemma LayerHandleMoved(g: Grid, n: nat, m: Move, i: int)
    requires WellFormed(g, n) && ValidMove(n, m) && 0 <= i < n * n
    ensures 0 <= FlatSource(n, m)(i) < n * n
    ensures LayerHandles(Rotated(g, n, m), n, m.axis, m.slice)[i] ==
            LayerHandles(g, n, m.axis, m.slice)[FlatSource(n, m)(i)]
  {
    FlatSourceStep(n, m, i);
    FlatBound(n, i);
    var c := LayerCell(m.axis, m.slice, i / n, i % n);
    LayerCellPos(n, m.axis, m.slice, i / n, i % n);
    RotatedAt(g, n, m, c);
  }

  /** The recording-index maps of a command and of its reverse are inverse. */
  lemma FlatSourceInverse(n: int, m: Move, i: int)
    requires ValidMove(n, m) && 0 <= i < n * n
    ensures 0 <= FlatSource(n, m)(i) < n * n
    ensures FlatSource(n, Reverse(m))(FlatSource(n, m)(i)) == i
  {
    FlatBound(n, i);
    var p, q := i / n, i % n;
    FlatSourceStep(n, m, i);
    SourcePosInverse(n, m.axis, m.clockwise, p, q);
    var j := FlatSource(n, m)(i);
    assert SourcePos(n, m.axis, !m.clockwise, j / n, j % n) == (p, q);
    assert FlatSource(n, Reverse(m))(j) == q + n * p;
    Split(n, i);
  }

  lemma SourcePosInverse(n: int, axis: int, clockwise: bool, p: int, q: int)
    requires 0 <= p < n && 0 <= q < n
    ensures var src := SourcePos(n, axis, clockwise, p, q);
      0 <= src.0 < n && 0 <= src.1 < n &&
      SourcePos(n, axis, !clockwise, src.0, src.1) == (p, q)
  {
  }

  /** The recording index `q + n * p` of the cell a rotation moves onto index `i`. */
  function FlatSource(n: int, m: Move): int -> int
    requires n > 0
  {
    i =>
      var src := SourcePos(n, m.axis, m.clockwise, i / n, i % n);
      src.1 + n * src.0
  }

  lemma FlatSourceStep(n: int, m: Move, i: int)
    requires ValidMove(n, m) && 0 <= i < n * n
    ensures 0 <= FlatSource(n, m)(i) < n * n
    ensures var src := SourcePos(n, m.axis, m.clockwise, i / n, i % n);
      0 <= src.0 < n && 0 <= src.1 < n &&
      FlatSource(n, m)(i) / n == src.0 && FlatSource(n, m)(i) % n == src.1 &&
      LayerCell(m.axis, m.slice, src.0, src.1) == SourceCell(n, m, LayerCell(m.axis, m.slice, i / n, i % n))
  {
    FlatBound(n, i);
    var src := SourcePos(n, m.axis, m.clockwise, i / n, i % n);
    FlatIndex(n, src.0, src.1);
  }

  // ---------------------------------------------------------------------------
  // Angles

  lemma JRemSmall(a: int)
    requires -360 < a < 360
    ensures JRem360(a) == a
  {
  }

  /** A quarter turn keeps an angle a multiple of 90 strictly inside (-360, 360). */
  lemma SpinAngleOk(a: int, clockwise: bool)
    requires AngleOk(a)
    ensures AngleOk(JRem360(a + if clockwise then 90 else -90))
  {
    var b := a + if clockwise then 90 else -90;
    if b == 360 || b == -360 {
      assert JRem360(b) == 0;
    } else {
      JRemSmall(b);
    }
  }

  lemma SpinOk(c: Cube, axis: int, clockwise: bool)
    requires CubeAnglesOk(c)
    ensures CubeAnglesOk(Spin(c, axis, clockwise)) && Spin(c, axis, clockwise).handle == c.handle
  {
    SpinAngleOk(c.ax, clockwise);
    SpinAngleOk(c.ay, clockwise);
    SpinAngleOk(c.az, clockwise);
  }

  /** Every angle stays a multiple of 90 strictly between -360 and 360. */
  lemma RotatePreservesAnglesOk(g: Grid, n: nat, m: Move)
    requires WellFormed(g, n) && ValidMove(n, m) && AnglesOk(g, n)
    ensures AnglesOk(Rotated(g, n, m), n)
  {
    forall c | InGrid(n, c)
      ensures CubeAnglesOk(At(Rotated(g, n, m), c))
    {
      RotatedAt(g, n, m, c);
      if InLayer(m.axis, m.slice, c) {
        SourceInverse(n, m, c);
        SpinOk(At(g, SourceCell(n, m, c)), m.axis, m.clockwise);
      }
    }
  }

  /** Multiples of 360 are closed under sum and negation. */
  lemma ModSum(u: int, v: int)
    requires u % 360 == 0 && v % 360 == 0
    ensures (u + v) % 360 == 0 && (-(u + v)) % 360 == 0
  {
    var k, l := u / 360, v / 360;
    assert u == 360 * k && v == 360 * l;
    assert u + v == 360 * (k + l) && -(u + v) == 360 * (-k - l);
  }

  /** A quarter turn of one angle and its reverse: the same angle modulo 360, and
      exactly the same angle unless the first turn reached +-360. */
  lemma AngleUndo(a: int, d: int)
    requires d == 90 || d == -90
    ensures (JRem360(JRem360(a + d) - d) - a) % 360 == 0
    ensures AngleOk(a) && a + d != 360 && a + d != -360 ==> JRem360(JRem360(a + d) - d) == a
  {
    var r1 := JRem360(a + d);
    var r2 := JRem360(r1 - d);
    ModSum(a + d - r1, r1 - d - r2);
    if AngleOk(a) && a + d != 360 && a + d != -360 {
      JRemSmall(a + d);
      JRemSmall(a);
    }
  }

  /** Four quarter turns of one angle the same way (`r1` .. `r4` are the angles after
      each): the same angle modulo 360. */
  lemma AngleFour(a: int, d: int, r1: int, r2: int, r3: int, r4: int)
    requires d == 90 || d == -90
    requires r1 == JRem360(a + d) && r2 == JRem360(r1 + d) && r3 == JRem360(r2 + d) && r4 == JRem360(r3 + d)
    ensures (r4 - a) % 360 == 0
  {
    ModSum(a + d - r1, r1 + d - r2);
    ModSum(a + d - r2 + d, r2 + d - r3);
    ModSum(a + 3 * d - r3, r3 + d - r4);
    assert r4 - a == -(a + 4 * d - r4) + 4 * d;
    ModSum(-(a + 4 * d - r4), 4 * d);
  }

  /** A quarter turn and its reverse bring a cube back to the same orientation modulo
      360, and exactly back unless the turned angle started at 270 (clockwise first) or
      -270 (anticlockwise first). */
  lemma SpinUndo(c: Cube, axis: int, clockwise: bool)
    requires 0 <= axis < 3
    ensures SameOrientation(Spin(Spin(c, axis, clockwise), axis, !clockwise), c)
    ensures CubeAnglesOk(c) && Angle(c, axis) != (if clockwise then 270 else -270) ==>
      Spin(Spin(c, axis, clockwise), axis, !clockwise) == c
    ensures Angle(c, axis) == (if clockwise then 270 else -270) ==>
      Angle(Spin(Spin(c, axis, clockwise), axis, !clockwise), axis) == (if clockwise then -90 else 90)
  {
    var d := if clockwise then 90 else -90;
    var a := Angle(c, axis);
    var c1 := Spin(c, axis, clockwise);
    var c2 := Spin(c1, axis, !clockwise);
    SpinAngles(c, axis, clockwise);
    SpinAngles(c1, axis, !clockwise);
    assert Angle(c2, axis) == JRem360(JRem360(a + d) - d);
    AngleUndo(a, d);
    SameOrientationByAngles(c2, c, axis);
    if CubeAnglesOk(c) && a != (if clockwise then 270 else -270) {
      assert Angle(c2, axis) == a;
      SameCubeByAngles(c2, c);
    }
  }

  /** Cubes with the same handle and the same three angles are equal. */
  lemma SameCubeByAngles(c: Cube, e: Cube)
    requires c.handle == e.handle && forall k :: 0 <= k < 3 ==> Angle(c, k) == Angle(e, k)
    ensures c == e
  {
    assert Angle(c, 0) == Angle(e, 0) && Angle(c, 1) == Angle(e, 1) && Angle(c, 2) == Angle(e, 2);
  }

  /** A quarter turn changes only the angle about its axis. */
  lemma SpinAngles(c: Cube, axis: int, clockwise: bool)
    requires 0 <= axis < 3
    ensures Spin(c, axis, clockwise).handle == c.handle
    ensures Angle(Spin(c, axis, clockwise), axis) == JRem360(Angle(c, axis) + if clockwise then 90 else -90)
    ensures forall k :: 0 <= k < 3 && k != axis ==> Angle(Spin(c, axis, clockwise), k) == Angle(c, k)
  {
  }

  /** Cubes with the same handle, the same angles off `axis` and congruent angles about
      it have the same orientation. */
  lemma SameOrientationByAngles(c: Cube, e: Cube, axis: int)
    requires 0 <= axis < 3 && c.handle == e.handle && (Angle(c, axis) - Angle(e, axis)) % 360 == 0
    requires forall k :: 0 <= k < 3 && k != axis ==> Angle(c, k) == Angle(e, k)
    ensures SameOrientation(c, e)
  {
    assert Angle(c, 0) == c.ax && Angle(c, 1) == c.ay && Angle(c, 2) == c.az;
    assert Angle(e, 0) == e.ax && Angle(e, 1) == e.ay && Angle(e, 2) == e.az;
  }

  /** Four quarter turns the same way bring a cube back to the same orientation
      modulo 360. */
  lemma SpinFour(c: Cube, axis: int, clockwise: bool)
    requires 0 <= axis < 3
    ensures SameOrientation(Spin(Spin(Spin(Spin(c, axis, clockwise), axis, clockwise), axis, clockwise), axis, clockwise), c)
  {
    var c1 := Spin(c, axis, clockwise);
    var c2 := Spin(c1, axis, clockwise);
    var c3 := Spin(c2, axis, clockwise);
    var c4 := Spin(c3, axis, clockwise);
    SpinAngles(c, axis, clockwise);
    SpinAngles(c1, axis, clockwise);
    SpinAngles(c2, axis, clockwise);
    SpinAngles(c3, axis, clockwise);
    AngleFour(Angle(c, axis), if clockwise then 90 else -90,
      Angle(c1, axis), Angle(c2, axis), Angle(c3, axis), Angle(c4, axis));
    SameOrientationByAngles(c4, c, axis);
  }

  // ---------------------------------------------------------------------------
  // Undo and periodicity

  /** `rotate(a, s, cw)` followed by `rotate(a, s, !cw)` puts every cube back on its
      cell with the same handle and the same orientation modulo 360; on a grid with
      reachable angles the grid comes back exactly unless some angle about that axis
      started at 270 (clockwise first) or -270 (anticlockwise first). */
  lemma RotateUndo(g: Grid, n: nat, m: Move)
    requires WellFormed(g, n) && ValidMove(n, m)
    ensures var back := Rotated(Rotated(g, n, m), n, Reverse(m));
      Equivalent(back, g, n) &&
      (forall c :: InGrid(n, c) ==> At(back, c).handle == At(g, c).handle) &&
      (AnglesOk(g, n) &&
       (forall c :: InGrid(n, c) ==> Angle(At(g, c), m.axis) != (if m.clockwise then 270 else -270))
       ==> back == g)
  {
    var once := Rotated(g, n, m);
    var back := Rotated(once, n, Reverse(m));
    forall c | InGrid(n, c)
      ensures SameOrientation(At(back, c), At(g, c))
      ensures CubeAnglesOk(At(g, c)) && Angle(At(g, c), m.axis) != (if m.clockwise then 270 else -270) ==>
        At(back, c) == At(g, c)
    {
      RotatedAt(once, n, Reverse(m), c);
      if InLayer(m.axis, m.slice, c) {
        var mid := SourceCell(n, Reverse(m), c);
        SourceInverse(n, Reverse(m), c);
        assert Reverse(Reverse(m)) == m;
        RotatedAt(g, n, m, mid);
        SpinUndo(At(g, c), m.axis, m.clockwise);
      } else {
        RotatedAt(g, n, m, c);
      }
    }
    if AnglesOk(g, n) && (forall c :: InGrid(n, c) ==> Angle(At(g, c), m.axis) != (if m.clockwise then 270 else -270)) {
      GridExt(back, g, n);
    }
  }

  /** Four successive quarter turns of one layer the same way restore every handle
      and every orientation modulo 360. */
  lemma RotateFour(g: Grid, n: nat, m: Move)
    requires WellFormed(g, n) && ValidMove(n, m)
    ensures var g4 := Rotated(Rotated(Rotated(Rotated(g, n, m), n, m), n, m), n, m);
      Equivalent(g4, g, n)
  {
    var g1 := Rotated(g, n, m);
    var g2 := Rotated(g1, n, m);
    var g3 := Rotated(g2, n, m);
    var g4 := Rotated(g3, n, m);
    forall c | InGrid(n, c)
      ensures SameOrientation(At(g4, c), At(g, c))
    {
      RotatedAt(g3, n, m, c);
      if InLayer(m.axis, m.slice, c) {
        var c1 := SourceCell(n, m, c);
        SourceInverse(n, m, c);
        var c2 := SourceCell(n, m, c1);
        SourceInverse(n, m, c1);
        var c3 := SourceCell(n, m, c2);
        SourceInverse(n, m, c2);
        SourceFour(n, m, c);
        RotatedAt(g2, n, m, c1);
        RotatedAt(g1, n, m, c2);
        RotatedAt(g, n, m, c3);
        SpinFour(At(g, c), m.axis, m.clockwise);
      } else {
        RotatedAt(g2, n, m, c);
        RotatedAt(g1, n, m, c);
        RotatedAt(g, n, m, c);
      }
    }
  }

  // ---------------------------------------------------------------------------
  // The initial grid and the solved condition

  lemma GridExt(g: Grid, h: Grid, n: nat)
    requires WellFormed(g, n) && WellFormed(h, n)
    requires forall c :: InGrid(n, c) ==> At(g, c) == At(h, c)
    ensures g == h
  {
    forall z | 0 <= z < n
      ensures g[z] == h[z]
    {
      forall y | 0 <= y < n
        ensures g[z][y] == h[z][y]
      {
        forall x | 0 <= x < n
          ensures g[z][y][x] == h[z][y][x]
        {
          assert At(g, Cell(x, y, z)) == At(h, Cell(x, y, z));
        }
      }
    }
  }

  lemma InitialAt(n: nat, c: Cell)
    requires InGrid(n, c)
    ensures At(InitialGrid(n), c) == Unturned(HomeHandle(n, c))
  {
  }

  /** The grid the constructor builds holds every handle `0 .. n^3 - 1` exactly once. */
  lemma InitialHandlesOnce(n: nat)
    requires n >= 1
    ensures HandlesOnce(InitialGrid(n), n)
  {
    var g := InitialGrid(n);
    forall c | InGrid(n, c)
      ensures 0 <= At(g, c).handle < n * n * n
    {
      InitialAt(n, c);
      HomeDigits(n, c);
    }
    forall c, d | InGrid(n, c) && InGrid(n, d) && At(g, c).handle == At(g, d).handle
      ensures c == d
    {
      InitialAt(n, c);
      InitialAt(n, d);
      HomeDigits(n, c);
      HomeDigits(n, d);
    }
    forall h | 0 <= h < n * n * n
      ensures Present(g, n, h)
    {
      var c := Cell(h % n, h / n % n, h / n / n);
      HomeOfDigits(n, h);
      InitialAt(n, c);
    }
  }

  /** All angles of the constructed grid are zero, hence reachable. */
  lemma InitialAnglesOk(n: nat)
    ensures AnglesOk(InitialGrid(n), n)
  {
    forall c | InGrid(n, c)
      ensures CubeAnglesOk(At(InitialGrid(n), c))
    {
      InitialAt(n, c);
    }
  }

  /** A grid is solved exactly when it is the grid the constructor builds. */
  lemma SolvedIffInitial(g: Grid, n: nat)
    requires WellFormed(g, n)
    ensures Solved(g, n) <==> g == InitialGrid(n)
  {
    if Solved(g, n) {
      forall c | InGrid(n, c)
        ensures At(g, c) == At(InitialGrid(n), c)
      {
        InitialAt(n, c);
      }
      GridExt(g, InitialGrid(n), n);
    }
    if g == InitialGrid(n) {
      forall c | InGrid(n, c)
        ensures At(g, c).handle == HomeHandle(n, c) && Upright(At(g, c))
      {
        InitialAt(n, c);
      }
    }
  }

  /** No single quarter turn of a solved grid leaves it solved: the moved cubes are
      left turned by 90 degrees. */
  lemma TurnUnsolves(g: Grid, n: nat, m: Move)
    requires WellFormed(g, n) && ValidMove(n, m) && Solved(g, n)
    ensures !Solved(Rotated(g, n, m), n)
  {
    var c := LayerCell(m.axis, m.slice, 0, 0);
    LayerCellPos(n, m.axis, m.slice, 0, 0);
    SourceInverse(n, m, c);
    RotatedAt(g, n, m, c);
    var moved := At(Rotated(g, n, m), c);
    assert Upright(At(g, SourceCell(n, m, c)));
    assert Angle(moved, m.axis) == (if m.clockwise then 90 else -90);
    assert !Upright(moved);
  }
}
