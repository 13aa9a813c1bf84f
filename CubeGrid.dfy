/** Values of the NOCCube puzzle: unit cubes, grid cells, rotation commands, and the
    specification functions that say what a slice rotation does to a whole grid. */
module CubeGrid {

  /** One unit cube: its display handle, fixed at construction, and its three
      orientation angles in degrees. The source copies cubes whenever it moves them,
      so a value type is faithful. */
  datatype Cube = Cube(handle: int, ax: int, ay: int, az: int)

  /** A grid position; the grid itself is indexed `[z][y][x]`. */
  datatype Cell = Cell(x: int, y: int, z: int)

  /** A rotation command as passed to `rotate(axis, slice, clockwise)`. */
  datatype Move = Move(axis: int, slice: int, clockwise: bool)

  type Grid = seq<seq<seq<Cube>>>

  const AxisX: int := 0
  const AxisY: int := 1
  const AxisZ: int := 2

  /** The cube the one-argument constructor builds: the given handle, no rotation. */
  function Unturned(handle: int): (c: Cube)
    ensures c.handle == handle && Upright(c)
  {
    Cube(handle, 0, 0, 0)
  }

  predicate Upright(c: Cube) {
    c.ax == 0 && c.ay == 0 && c.az == 0
  }

  /** Java's `a % 360` on `int`: the remainder truncates toward zero, so it takes the
      sign of the dividend (`-90 % 360 == -90`), unlike Dafny's Euclidean `%`. */
  function JRem360(a: int): (r: int)
    ensures 0 <= a ==> 0 <= r < 360
    ensures a < 0 ==> -360 < r <= 0
    ensures (a - r) % 360 == 0
  {
    if a >= 0 then a % 360 else -((-a) % 360)
  }

  /** The angle component that a rotation about `axis` changes. */
  function Angle(c: Cube, axis: int): int {
    if axis == AxisX then c.ax else if axis == AxisY then c.ay else c.az
  }

  /** A cube after being carried round by a quarter turn about `axis`: the angle
      component for that axis moves by 90 degrees (plus for clockwise), reduced with
      Java's truncating `% 360`; handle and other angles are kept. */
  function Spin(c: Cube, axis: int, clockwise: bool): Cube {
    var d := if clockwise then 90 else -90;
    if axis == AxisX then c.(ax := JRem360(c.ax + d))
    else if axis == AxisY then c.(ay := JRem360(c.ay + d))
    else c.(az := JRem360(c.az + d))
  }

  predicate InGrid(n: int, c: Cell) {
    0 <= c.x < n && 0 <= c.y < n && 0 <= c.z < n
  }

  ghost predicate WellFormed(g: Grid, n: nat) {
    |g| == n &&
    (forall z :: 0 <= z < n ==> |g[z]| == n) &&
    (forall z, y :: 0 <= z < n && 0 <= y < n ==> |g[z][y]| == n)
  }

  function At(g: Grid, c: Cell): Cube
    requires 0 <= c.z < |g| && 0 <= c.y < |g[c.z]| && 0 <= c.x < |g[c.z][c.y]|
  {
    g[c.z][c.y][c.x]
  }

  /** The validation at the head of `rotate`: axis is one of X, Y, Z and the slice
      lies inside the grid. */
  predicate ValidMove(n: int, m: Move) {
    0 <= m.axis < 3 && 0 <= m.slice < n
  }

  /** The handle the constructor gives the cube at `c`: its flattened index. */
  function HomeHandle(n: int, c: Cell): int {
    c.x + n * c.y + n * n * c.z
  }

  /** The cell of the layer `slice` across `axis` whose in-layer coordinates are
      `(p, q)`, where `p` and `q` are the outer and inner loop variables of the
      source's per-axis loops: (z, y) for X, (z, x) for Y, (y, x) for Z. */
  function LayerCell(axis: int, slice: int, p: int, q: int): Cell {
    if axis == AxisX then Cell(slice, q, p)
    else if axis == AxisY then Cell(q, slice, p)
    else Cell(q, p, slice)
  }

  /** The in-layer coordinates `(p, q)` of a cell, the inverse of `LayerCell`. */
  function LayerPos(axis: int, c: Cell): (int, int) {
    if axis == AxisX then (c.z, c.y)
    else if axis == AxisY then (c.z, c.x)
    else (c.y, c.x)
  }

  predicate InLayer(axis: int, slice: int, c: Cell) {
    if axis == AxisX then c.x == slice
    else if axis == AxisY then c.y == slice
    else c.z == slice
  }

  /** Where, in layer coordinates, the cube that lands on `(p, q)` comes from. The six
      cases are the six index expressions of the source. The Y cases look swapped
      because Y's `(p, q) = (z, x)` follows the cyclic order of the axes while X's
      `(z, y)` and Z's `(y, x)` run against it; all three clockwise turns have the same
      sense (`GridProperties.TurnSense`). */
  function SourcePos(n: int, axis: int, clockwise: bool, p: int, q: int): (int, int) {
    if axis == AxisX then (if clockwise then (n - 1 - q, p) else (q, n - 1 - p))
    else if axis == AxisY then (if clockwise then (q, n - 1 - p) else (n - 1 - q, p))
    else (if clockwise then (n - 1 - q, p) else (q, n - 1 - p))
  }

  /** The cell whose cube a rotation moves onto the in-layer cell `c`. */
  function SourceCell(n: int, m: Move, c: Cell): Cell {
    var pq := LayerPos(m.axis, c);
    var src := SourcePos(n, m.axis, m.clockwise, pq.0, pq.1);
    LayerCell(m.axis, m.slice, src.0, src.1)
  }

  /** The cube a rotation leaves on cell `c`. */
  function NewCell(g: Grid, n: nat, m: Move, c: Cell): Cube
    requires WellFormed(g, n) && ValidMove(n, m) && InGrid(n, c)
  {
    if InLayer(m.axis, m.slice, c) then Spin(At(g, SourceCell(n, m, c)), m.axis, m.clockwise)
    else At(g, c)
  }

  /** The grid after a valid rotation: the specification of `NOCCube.rotate`. */
  function Rotated(g: Grid, n: nat, m: Move): (r: Grid)
    requires WellFormed(g, n) && ValidMove(n, m)
    ensures WellFormed(r, n)
  {
    seq(n, z requires 0 <= z < n =>
      seq(n, y requires 0 <= y < n =>
        seq(n, x requires 0 <= x < n => NewCell(g, n, m, Cell(x, y, z)))))
  }

  /** The grid the constructor builds: every cell holds its own flattened index,
      unturned. */
  function InitialGrid(n: nat): (g: Grid)
    ensures WellFormed(g, n)
  {
    seq(n, z requires 0 <= z < n =>
      seq(n, y requires 0 <= y < n =>
        seq(n, x requires 0 <= x < n => Unturned(HomeHandle(n, Cell(x, y, z))))))
  }

  /** The condition `isSolved` checks: every cell holds its own flattened index and
      all three of its angles are zero. */
  ghost predicate Solved(g: Grid, n: nat)
    requires WellFormed(g, n)
  {
    forall c :: InGrid(n, c) ==> At(g, c).handle == HomeHandle(n, c) && Upright(At(g, c))
  }

  /** The handles of the layer in the order the source records them: cell `(p, q)`
      goes to index `q + n * p`. */
  function LayerHandles(g: Grid, n: nat, axis: int, slice: int): (hs: seq<int>)
    requires WellFormed(g, n) && ValidMove(n, Move(axis, slice, true))
    ensures |hs| == n * n
  {
    seq(n * n, i requires 0 <= i < n * n =>
      FlatBound(n, i);
      At(g, LayerCell(axis, slice, i / n, i % n)).handle)
  }

  lemma FlatBound(n: nat, i: int)
    requires 0 <= i < n * n
    ensures 0 <= i / n < n && 0 <= i % n < n
  {
  }

  /** Each handle `0 .. n^3 - 1` occurs exactly once in the grid. */
  ghost predicate HandlesOnce(g: Grid, n: nat)
    requires WellFormed(g, n)
  {
    (forall c :: InGrid(n, c) ==> 0 <= At(g, c).handle < n * n * n) &&
    (forall c, d :: InGrid(n, c) && InGrid(n, d) && At(g, c).handle == At(g, d).handle ==> c == d) &&
    (forall h :: 0 <= h < n * n * n ==> Present(g, n, h))
  }

  ghost predicate Present(g: Grid, n: nat, h: int)
    requires WellFormed(g, n)
  {
    exists c :: InGrid(n, c) && At(g, c).handle == h
  }

  /** An angle the source can reach: a multiple of 90 strictly between -360 and 360. */
  predicate AngleOk(a: int) {
    a % 90 == 0 && -360 < a < 360
  }

  predicate CubeAnglesOk(c: Cube) {
    AngleOk(c.ax) && AngleOk(c.ay) && AngleOk(c.az)
  }

  ghost predicate AnglesOk(g: Grid, n: nat)
    requires WellFormed(g, n)
  {
    forall c :: InGrid(n, c) ==> CubeAnglesOk(At(g, c))
  }

  /** Two cubes that look the same: same handle, each angle equal modulo 360. */
  predicate SameOrientation(c: Cube, d: Cube) {
    c.handle == d.handle &&
    (c.ax - d.ax) % 360 == 0 && (c.ay - d.ay) % 360 == 0 && (c.az - d.az) % 360 == 0
  }

  ghost predicate Equivalent(g: Grid, h: Grid, n: nat)
    requires WellFormed(g, n) && WellFormed(h, n)
  {
    forall c :: InGrid(n, c) ==> SameOrientation(At(g, c), At(h, c))
  }
}
