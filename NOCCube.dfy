/** The puzzle object: an n x n x n grid of unit cubes, stored `cubes[z, y, x]`, which
    each slice rotation replaces with a rotated copy. */
module NOCCubeModel {
  import opened CubeGrid
  import opened Arith
  import opened Sorting
  import GridProperties

  /** The dimension the constructor stores: its argument, or 2 for an argument of 1
      or less. */
  function ClampedDimension(n: int): (d: int)
    ensures d >= 2
    ensures n >= 2 ==> d == n
    ensures n < 2 ==> d == 2
  {
    if n > 1 then n else 2
  }

  /** The edge length the source gives its array and its handles: the constructor's
      parameter shadows the clamped field, so the unclamped argument is used. */
  function ExtentAsWritten(n: int): int {
    n
  }

  /** The shape every method relies on: a dimension of at least 2 and an array that
      is `d` long in every direction. */
  predicate ShapeOk(d: int, len0: int, len1: int, len2: int) {
    d >= 2 && len0 == d && len1 == d && len2 == d
  }

  /** The object the source's constructor leaves, dimension `ClampedDimension(n)` over
      an array of extent `ExtentAsWritten(n)`, has the shape every method relies on
      exactly when `n >= 2`. Below that the scans over `0 .. D - 1` reach index
      `D - 1`, which lies outside the array: for `n == 1`, `isSolved` reads
      `cubes[0][0][1]` of a `1 x 1 x 1` array (and below 0 Java refuses the array). */
  lemma AsWrittenShape(n: int)
    ensures ShapeOk(ClampedDimension(n), ExtentAsWritten(n), ExtentAsWritten(n), ExtentAsWritten(n)) <==> n >= 2
    ensures n <= 1 ==> ClampedDimension(n) - 1 >= ExtentAsWritten(n)
  {
  }

  class NOCCube {
    /** The edge length of the puzzle. */
    const D: int
    var cubes: array3<Cube>

    ghost predicate Shaped()
      reads this
    {
      ShapeOk(D, cubes.Length0, cubes.Length1, cubes.Length2)
    }

    /** The grid as a value, `View()[z][y][x] == cubes[z, y, x]`. */
    ghost function View(): (g: Grid)
      reads this, cubes
      requires Shaped()
      ensures WellFormed(g, D)
      ensures forall z, y, x :: 0 <= z < D && 0 <= y < D && 0 <= x < D ==> g[z][y][x] == cubes[z, y, x]
    {
      Snapshot(cubes)
    }

    /** The contents of a three-dimensional array as nested sequences. */
    static ghost function Snapshot(a: array3<Cube>): (g: Grid)
      reads a
      ensures WellFormed(g, a.Length0) || a.Length0 != a.Length1 || a.Length0 != a.Length2
      ensures |g| == a.Length0
      ensures forall z, y, x :: 0 <= z < a.Length0 && 0 <= y < a.Length1 && 0 <= x < a.Length2 ==>
        |g[z]| == a.Length1 && |g[z][y]| == a.Length2 && g[z][y][x] == a[z, y, x]
    {
      seq(a.Length0, z requires 0 <= z < a.Length0 reads a =>
        seq(a.Length1, y requires 0 <= y < a.Length1 reads a =>
          seq(a.Length2, x requires 0 <= x < a.Length2 reads a => a[z, y, x])))
    }

    /** An array whose cells agree with a grid value has that value as its snapshot. */
    static lemma SnapshotIs(a: array3<Cube>, g: Grid, n: nat)
      requires a.Length0 == n && a.Length1 == n && a.Length2 == n && WellFormed(g, n)
      requires forall z, y, x :: 0 <= z < n && 0 <= y < n && 0 <= x < n ==> a[z, y, x] == g[z][y][x]
      ensures Snapshot(a) == g
    {
      var s := Snapshot(a);
      forall c | InGrid(n, c)
        ensures At(s, c) == At(g, c)
      {
      }
      GridProperties.GridExt(s, g, n);
    }

    /** The object invariant: the shape, every handle `0 .. D^3 - 1` exactly once, and
        every angle a multiple of 90 strictly between -360 and 360. */
    ghost predicate Valid()
      reads this, cubes
    {
      Shaped() && HandlesOnce(View(), D) && AnglesOk(View(), D)
    }

    /** Builds the solved puzzle: the cube on `(x, y, z)` has handle `x + d*y + d*d*z`
        and no rotation, where `d` is the dimension the argument clamps to. The
        array and the handles are sized by that clamped dimension; see
        `ExtentAsWritten` for the source's own sizing. */
    constructor (n: int)
      ensures D == ClampedDimension(n) && fresh(cubes)
      ensures Valid() && View() == InitialGrid(D) && Solved(View(), D)
    {
      var d := ClampedDimension(n);
      var a := new Cube[d, d, d];
      var z := 0;
      while z < d
        invariant 0 <= z <= d
        invariant forall k, j, i :: 0 <= k < z && 0 <= j < d && 0 <= i < d ==>
          a[k, j, i] == Unturned(HomeHandle(d, Cell(i, j, k)))
      {
        var y := 0;
        while y < d
          invariant 0 <= y <= d
          invariant forall k, j, i :: 0 <= k < z && 0 <= j < d && 0 <= i < d ==>
            a[k, j, i] == Unturned(HomeHandle(d, Cell(i, j, k)))
          invariant forall j, i :: 0 <= j < y && 0 <= i < d ==>
            a[z, j, i] == Unturned(HomeHandle(d, Cell(i, j, z)))
        {
          var x := 0;
          while x < d
            invariant 0 <= x <= d
            invariant forall k, j, i :: 0 <= k < z && 0 <= j < d && 0 <= i < d ==>
              a[k, j, i] == Unturned(HomeHandle(d, Cell(i, j, k)))
            invariant forall j, i :: 0 <= j < y && 0 <= i < d ==>
              a[z, j, i] == Unturned(HomeHandle(d, Cell(i, j, z)))
            invariant forall i :: 0 <= i < x ==> a[z, y, i] == Unturned(HomeHandle(d, Cell(i, y, z)))
          {
            a[z, y, x] := Unturned(x + d * y + d * d * z);
            x := x + 1;
          }
          y := y + 1;
        }
        z := z + 1;
      }
      D := d;
      cubes := a;
      new;
      forall c | InGrid(d, c)
        ensures At(View(), c) == At(InitialGrid(d), c)
      {
        GridProperties.InitialAt(d, c);
      }
      GridProperties.GridExt(View(), InitialGrid(d), d);
      GridProperties.InitialHandlesOnce(d);
      GridProperties.InitialAnglesOk(d);
      GridProperties.SolvedIffInitial(View(), d);
    }

    /** Turns layer `slice` across `axis` (0, 1, 2 for X, Y, Z) a quarter turn. An
        invalid axis or slice changes nothing and yields no handles. Otherwise the grid
        is replaced by a rotated copy (`Rotated`) and the handles of the turned layer
        come back sorted: the layer's handles before the turn, which are also its
        handles after it. */
    method Rotate(axis: int, slice: int, clockwise: bool) returns (handles: array<int>)
      requires Valid()
      modifies this
      ensures Valid() && fresh(handles)
      ensures !ValidMove(D, Move(axis, slice, clockwise)) ==>
        handles.Length == 0 && cubes == old(cubes) && View() == old(View())
      ensures ValidMove(D, Move(axis, slice, clockwise)) ==>
        fresh(cubes) &&
        View() == Rotated(old(View()), D, Move(axis, slice, clockwise)) &&
        handles.Length == D * D && Sorted(handles[..]) &&
        multiset(handles[..]) == multiset(LayerHandles(old(View()), D, axis, slice)) &&
        multiset(handles[..]) == multiset(LayerHandles(View(), D, axis, slice))
    {
      if axis < 0 || axis >= 3 || slice < 0 || slice >= D {
        handles := new int[0];
        return;
      }
      handles := Turn(Move(axis, slice, clockwise));
    }

    /** The valid case of `Rotate`. */
    method Turn(m: Move) returns (handles: array<int>)
      requires Valid() && ValidMove(D, m)
      modifies this
      ensures Valid() && fresh(handles) && fresh(cubes)
      ensures View() == Rotated(old(View()), D, m)
      ensures handles.Length == D * D && Sorted(handles[..])
      ensures multiset(handles[..]) == multiset(LayerHandles(old(View()), D, m.axis, m.slice))
      ensures multiset(handles[..]) == multiset(LayerHandles(View(), D, m.axis, m.slice))
    {
      ghost var before := View();
      MulMono(D, 0, D);
      handles := new int[D * D];
      RecordLayer(m.axis, m.slice, handles);
      var next := RotatedCopy(m);
      cubes := next;
      assert View() == Rotated(before, D, m);
      GridProperties.RotatePreservesHandlesOnce(before, D, m);
      GridProperties.RotatePreservesAnglesOk(before, D, m);
      GridProperties.LayerHandlesPermuted(before, D, m);
      Sort(handles);
    }

    /** A fresh array holding the grid after the rotation `m`. */
    method RotatedCopy(m: Move) returns (next: array3<Cube>)
      requires Shaped() && ValidMove(D, m)
      ensures fresh(next) && next.Length0 == D && next.Length1 == D && next.Length2 == D
      ensures Snapshot(next) == Rotated(View(), D, m)
    {
      ghost var g := View();
      next := CopyCubes();
      TurnLayer(next, m);
      forall z, y, x | 0 <= z < D && 0 <= y < D && 0 <= x < D
        ensures next[z, y, x] == Rotated(g, D, m)[z][y][x]
      {
        GridProperties.RotatedAt(g, D, m, Cell(x, y, z));
      }
      SnapshotIs(next, Rotated(g, D, m), D);
    }

    /** The deep copy: a fresh array holding the same cubes. */
    method CopyCubes() returns (next: array3<Cube>)
      requires Shaped()
      ensures fresh(next) && next.Length0 == D && next.Length1 == D && next.Length2 == D
      ensures forall z, y, x :: 0 <= z < D && 0 <= y < D && 0 <= x < D ==> next[z, y, x] == cubes[z, y, x]
    {
      next := new Cube[D, D, D];
      var z := 0;
      while z < D
        invariant 0 <= z <= D
        invariant forall k, j, i :: 0 <= k < z && 0 <= j < D && 0 <= i < D ==> next[k, j, i] == cubes[k, j, i]
      {
        var y := 0;
        while y < D
          invariant 0 <= y <= D
          invariant forall k, j, i :: 0 <= k < z && 0 <= j < D && 0 <= i < D ==> next[k, j, i] == cubes[k, j, i]
          invariant forall j, i :: 0 <= j < y && 0 <= i < D ==> next[z, j, i] == cubes[z, j, i]
        {
          var x := 0;
          while x < D
            invariant 0 <= x <= D
            invariant forall k, j, i :: 0 <= k < z && 0 <= j < D && 0 <= i < D ==> next[k, j, i] == cubes[k, j, i]
            invariant forall j, i :: 0 <= j < y && 0 <= i < D ==> next[z, j, i] == cubes[z, j, i]
            invariant forall i :: 0 <= i < x ==> next[z, y, i] == cubes[z, y, i]
          {
            next[z, y, x] := cubes[z, y, x];
            x := x + 1;
          }
          y := y + 1;
        }
        z := z + 1;
      }
    }

    /** Records the handles of the layer, cell `(p, q)` at index `q + D * p`. */
    method RecordLayer(axis: int, slice: int, handles: array<int>)
      requires Shaped() && ValidMove(D, Move(axis, slice, true)) && handles.Length == D * D
      modifies handles
      ensures handles[..] == LayerHandles(View(), D, axis, slice)
    {
      ghost var layer := LayerHandles(View(), D, axis, slice);
      var p := 0;
      while p < D
        invariant 0 <= p <= D && D * p <= D * D
        invariant forall i :: 0 <= i < D * p ==> handles[i] == layer[i]
      {
        var q := 0;
        while q < D
          invariant 0 <= q <= D && D * p + q <= D * D
          invariant forall i :: 0 <= i < D * p + q ==> handles[i] == layer[i]
        {
          var c := LayerCell(axis, slice, p, q);
          FlatIndex(D, p, q);
          GridProperties.LayerCellPos(D, axis, slice, p, q);
          assert layer[q + D * p] == cubes[c.z, c.y, c.x].handle;
          handles[q + D * p] := cubes[c.z, c.y, c.x].handle;
          q := q + 1;
        }
        assert D * (p + 1) == D * p + D;
        MulMono(D, p + 1, D);
        p := p + 1;
      }
    }

    /** Overwrites the layer of `next`, a copy of the grid, with the cubes taken from
        the rotated coordinates of the current grid, each turned a quarter. */
    method TurnLayer(next: array3<Cube>, m: Move)
      requires Shaped() && ValidMove(D, m) && next != cubes
      requires next.Length0 == D && next.Length1 == D && next.Length2 == D
      requires forall z, y, x :: 0 <= z < D && 0 <= y < D && 0 <= x < D ==> next[z, y, x] == cubes[z, y, x]
      modifies next
      ensures forall z, y, x :: 0 <= z < D && 0 <= y < D && 0 <= x < D ==>
        next[z, y, x] == NewCell(View(), D, m, Cell(x, y, z))
    {
      ghost var g := View();
      var p := 0;
      while p < D
        invariant 0 <= p <= D
        invariant forall z, y, x :: 0 <= z < D && 0 <= y < D && 0 <= x < D ==>
          next[z, y, x] == Partial(g, D, m, p, 0, Cell(x, y, z))
      {
        TurnRow(next, m, p);
        p := p + 1;
      }
    }

    /** One pass of the inner loop: the cells `(p, 0) .. (p, D - 1)` of the layer. */
    method TurnRow(next: array3<Cube>, m: Move, p: int)
      requires Shaped() && ValidMove(D, m) && next != cubes && 0 <= p < D
      requires next.Length0 == D && next.Length1 == D && next.Length2 == D
      requires forall z, y, x :: 0 <= z < D && 0 <= y < D && 0 <= x < D ==>
        next[z, y, x] == Partial(View(), D, m, p, 0, Cell(x, y, z))
      modifies next
      ensures forall z, y, x :: 0 <= z < D && 0 <= y < D && 0 <= x < D ==>
        next[z, y, x] == Partial(View(), D, m, p + 1, 0, Cell(x, y, z))
    {
      var q := 0;
      while q < D
        invariant 0 <= q <= D
        invariant forall z, y, x :: 0 <= z < D && 0 <= y < D && 0 <= x < D ==>
          next[z, y, x] == Partial(View(), D, m, p, q, Cell(x, y, z))
      {
        TurnCell(next, m, p, q);
        q := q + 1;
      }
    }

    /** One step of the inner loop: cell `(p, q)` of the layer receives its source
        cube, turned a quarter. */
    method TurnCell(next: array3<Cube>, m: Move, p: int, q: int)
      requires Shaped() && ValidMove(D, m) && next != cubes && 0 <= p < D && 0 <= q < D
      requires next.Length0 == D && next.Length1 == D && next.Length2 == D
      requires forall z, y, x :: 0 <= z < D && 0 <= y < D && 0 <= x < D ==>
        next[z, y, x] == Partial(View(), D, m, p, q, Cell(x, y, z))
      modifies next
      ensures forall z, y, x :: 0 <= z < D && 0 <= y < D && 0 <= x < D ==>
        next[z, y, x] == Partial(View(), D, m, p, q + 1, Cell(x, y, z))
    {
      ghost var g := View();
      var c := LayerCell(m.axis, m.slice, p, q);
      GridProperties.LayerCellPos(D, m.axis, m.slice, p, q);
      var src := SourceCell(D, m, c);
      GridProperties.SourceInverse(D, m, c);
      assert cubes[src.z, src.y, src.x] == At(g, src);
      label Written:
      next[c.z, c.y, c.x] := Spin(cubes[src.z, src.y, src.x], m.axis, m.clockwise);
      assert View() == g;
      forall z, y, x | 0 <= z < D && 0 <= y < D && 0 <= x < D
        ensures next[z, y, x] == Partial(g, D, m, p, q + 1, Cell(x, y, z))
      {
        var e := Cell(x, y, z);
        if e != c {
          assert next[z, y, x] == old@Written(next[z, y, x]);
          PartialStep(g, D, m, p, q, e);
        }
      }
    }

    /** Whether the layer loop at `(p, q)` has already written cell `c`. */
    static predicate Turned(m: Move, c: Cell, p: int, q: int) {
      InLayer(m.axis, m.slice, c) &&
      var pos := LayerPos(m.axis, c);
      pos.0 < p || (pos.0 == p && pos.1 < q)
    }

    /** The content of cell `c` once the layer loop has reached `(p, q)`. */
    static ghost function Partial(g: Grid, n: nat, m: Move, p: int, q: int, c: Cell): Cube
      requires WellFormed(g, n) && ValidMove(n, m) && InGrid(n, c)
    {
      if Turned(m, c, p, q) then NewCell(g, n, m, c) else At(g, c)
    }

    /** Writing cell `(p, q)` leaves every other cell's loop state as it was. */
    static lemma PartialStep(g: Grid, n: nat, m: Move, p: int, q: int, e: Cell)
      requires WellFormed(g, n) && ValidMove(n, m) && InGrid(n, e)
      requires e != LayerCell(m.axis, m.slice, p, q)
      ensures Partial(g, n, m, p, q + 1, e) == Partial(g, n, m, p, q, e)
    {
      if InLayer(m.axis, m.slice, e) {
        GridProperties.LayerPosCell(m.axis, m.slice, e);
      }
    }

    /** Scans the grid and answers whether every cell holds its own flattened index
        with all three angles zero, stopping at the first cell that does not. */
    method IsSolved() returns (solved: bool)
      requires Shaped()
      ensures solved <==> Solved(View(), D)
    {
      ghost var g := View();
      var z := 0;
      while z < D
        invariant 0 <= z <= D
        invariant forall c :: InGrid(D, c) && c.z < z ==> At(g, c).handle == HomeHandle(D, c) && Upright(At(g, c))
      {
        var y := 0;
        while y < D
          invariant 0 <= y <= D
          invariant forall c :: InGrid(D, c) && (c.z < z || (c.z == z && c.y < y)) ==>
            At(g, c).handle == HomeHandle(D, c) && Upright(At(g, c))
        {
          var x := 0;
          while x < D
            invariant 0 <= x <= D
            invariant forall c :: InGrid(D, c) && (c.z < z || (c.z == z && (c.y < y || (c.y == y && c.x < x)))) ==>
              At(g, c).handle == HomeHandle(D, c) && Upright(At(g, c))
          {
            var cube := cubes[z, y, x];
            if cube.handle != x + D * y + D * D * z || cube.ax != 0 || cube.ay != 0 || cube.az != 0 {
              assert At(g, Cell(x, y, z)) == cube;
              return false;
            }
            x := x + 1;
          }
          y := y + 1;
        }
        z := z + 1;
      }
      return true;
    }
  }
}
