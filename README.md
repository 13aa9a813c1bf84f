# NOCCube puzzle core in Dafny

This project models the logical core of NOCCube, an n x n x n slice-turning puzzle in
the style of Rubik's cube, for Android: the class `NOCCube` in
`app/src/main/java/com/dramacow/noccube/NOCCube.java`. The class owns a three-dimensional
array of unit cubes, indexed `[z][y][x]`. Each cube carries a display handle, fixed when
the puzzle is built, and three orientation angles in degrees.

- `NOCCube(D)` builds the solved puzzle. The cube on `(x, y, z)` gets handle
  `x + D*y + D*D*z` and no rotation.
- `rotate(axis, slice, clockwise)` turns one layer a quarter turn. It deep-copies the
  grid and records the layer's handles. It overwrites the layer in the copy with cubes
  taken from rotated coordinates, each turned 90 degrees about the axis with Java's
  `% 360`. Then it swaps the copy in and returns the recorded handles, sorted. An
  invalid axis or slice returns an empty array and changes nothing.
- `isSolved()` scans the grid for the first cube that is not in its home cell or is
  turned.

The Dafny model keeps that shape.

- `CubeGrid` holds the values and the specification functions:
  - `Cube`, `Cell` and `Move`;
  - the grid as a value, `seq<seq<seq<Cube>>>`;
  - `Rotated`, the grid after a rotation;
  - `LayerHandles`, the handles in the order `rotate` records them;
  - `Solved`;
  - the invariants `HandlesOnce` (every handle `0 .. D^3 - 1` exactly once) and
    `AnglesOk` (every angle a multiple of 90 strictly between -360 and 360).
- `NOCCubeModel.NOCCube` is a class with the field `cubes: array3<Cube>`. Its
  constructor, `Rotate` and `IsSolved` use nested loops, as the source does, and are
  proved against those functions. `View()` reads the array as a grid value, and
  `Valid()` is the object invariant.
- `GridProperties` proves the properties of a rotation:
  - only the layer moves;
  - the handles stay a permutation;
  - reachable angles stay reachable;
  - the reverse turn undoes a turn;
  - four turns restore the orientation modulo 360;
  - the solved grid is exactly the constructed one, and one turn unsolves it.
- `Permutations` proves that reordering a sequence by a bijection of its indices keeps
  its multiset. `LayerHandlesPermuted` uses this.
- `Sorting` is an insertion sort that stands in for `Arrays.sort`.
- `Arith` holds the multiplication facts behind the flattened indices.

The three per-axis branches of `rotate` become one loop over in-layer coordinates
`(p, q)`. These are the source's outer and inner loop variables: `(z, y)` for X,
`(z, x)` for Y and `(y, x)` for Z. The branches' six index expressions are
`CubeGrid.LayerCell` and `CubeGrid.SourcePos`. Y's index expressions have `p` and `q`
in the other roles from X's and Z's, because Y's `(z, x)` follows the cyclic order of
the axes while X's `(z, y)` and Z's `(y, x)` run against it. All three clockwise turns
have the same sense, a right-hand quarter turn about their own axis
(`GridProperties.TurnSense`).

Java's `%` truncates toward zero, so an anticlockwise turn from 0 stores -90. The model
writes this out as `JRem360` rather than using Dafny's Euclidean `%`.

The source clamps the dimension only from below, to 2, and has no upper bound. Angles
are Java's truncating remainder, so they lie in (-360, 360).

## Model

| member | source | states |
|---|---|---|
| CubeGrid.Unturned | app/src/main/java/com/dramacow/noccube/NOCCube.java:178-181 | the one-argument `Cube` constructor: the given handle and all three angles zero |
| CubeGrid.JRem360 | app/src/main/java/com/dramacow/noccube/NOCCube.java:88 | Java's `% 360`: within `[0, 360)` for a non-negative dividend and `(-360, 0]` for a negative one, and congruent to the dividend modulo 360 |
| NOCCubeModel.ClampedDimension | app/src/main/java/com/dramacow/noccube/NOCCube.java:41 | the stored dimension is at least 2: the argument when it is 2 or more, otherwise 2 |
| NOCCubeModel.AsWrittenShape | app/src/main/java/com/dramacow/noccube/NOCCube.java:40-47 | the object the source builds, dimension `ClampedDimension(n)` over an array of extent `n`, has the shape the methods rely on exactly when `n >= 2`. For `n <= 1` the last index the scans visit, `D - 1`, lies outside the array |
| NOCCubeModel.NOCCube.constructor | app/src/main/java/com/dramacow/noccube/NOCCube.java:40-51 | `D` is the clamped dimension and the array is fresh. The grid is the initial grid, with cube `(x, y, z)` holding handle `x + D*y + D*D*z` unturned. It satisfies the object invariant and is solved |
| NOCCubeModel.NOCCube.Rotate | app/src/main/java/com/dramacow/noccube/NOCCube.java:53-156 | An invalid axis or slice returns an empty array and leaves the grid unchanged. A valid move installs a fresh array whose contents are `Rotated(old grid)`. It returns `D*D` handles, sorted, that are the layer's handles before the turn as a multiset, and also the layer's handles after it. The object invariant (every handle once, reachable angles) is kept |
| NOCCubeModel.NOCCube.Turn | app/src/main/java/com/dramacow/noccube/NOCCube.java:62-155 | the valid path of `rotate`: the new grid is `Rotated(old grid)`, the invariant is kept, and the returned handles are sorted and the layer's handles as a multiset |
| NOCCubeModel.NOCCube.RotatedCopy | app/src/main/java/com/dramacow/noccube/NOCCube.java:64-144 | a fresh `D^3` array whose contents are exactly the rotated grid, while the current grid is untouched |
| NOCCubeModel.NOCCube.CopyCubes | app/src/main/java/com/dramacow/noccube/NOCCube.java:64-72 | the deep copy: a fresh `D^3` array holding, cell for cell, the same cubes (the copy constructor at lines 183-188 copies all four fields, which is value equality) |
| NOCCubeModel.NOCCube.RecordLayer | app/src/main/java/com/dramacow/noccube/NOCCube.java:78-82 | the handle of layer cell `(p, q)` is written to index `q + D*p`, so the array equals `LayerHandles` (the Y and Z branches at lines 101-105 and 124-128 are the same loop over `(z, x)` and `(y, x)`) |
| NOCCubeModel.NOCCube.TurnLayer | app/src/main/java/com/dramacow/noccube/NOCCube.java:84-94 | after the double loop over the layer every cell of the copy holds `NewCell`: outside the layer the old cube, and inside it the cube from the source coordinate turned a quarter (the Y and Z branches at lines 107-117 and 130-140 are the same loop) |
| NOCCubeModel.NOCCube.TurnRow | app/src/main/java/com/dramacow/noccube/NOCCube.java:85-93 | one pass of the inner loop writes the layer cells `(p, 0) .. (p, D - 1)` and nothing else |
| NOCCubeModel.NOCCube.TurnCell | app/src/main/java/com/dramacow/noccube/NOCCube.java:86-92 | one inner iteration writes layer cell `(p, q)` with its source cube turned by `+-90` and reduced with `% 360`, leaving every other cell as it was |
| NOCCubeModel.NOCCube.IsSolved | app/src/main/java/com/dramacow/noccube/NOCCube.java:158-172 | the scan answers true exactly when every cell holds its own flattened index with all three angles zero |
| Sorting.Sort | app/src/main/java/com/dramacow/noccube/NOCCube.java:149 | afterwards the array is sorted ascending and is a permutation of what it held |
| GridProperties.TurnSense | app/src/main/java/com/dramacow/noccube/NOCCube.java:86-137 | `SourcePos` and `LayerCell`, the six index expressions at lines 87, 90, 110, 113, 133 and 136. In coordinates centred on the grid, every clockwise turn carries the source cube onto its cell by a right-hand quarter turn about its own axis, and every anticlockwise turn is the reverse |
| GridProperties.SourcePosInverse | app/src/main/java/com/dramacow/noccube/NOCCube.java:86-91 | `SourcePos`: the clockwise and anticlockwise index expressions stay inside the layer and undo each other |
| GridProperties.SpinAngles | app/src/main/java/com/dramacow/noccube/NOCCube.java:88-91 | `Spin`, the angle update at lines 88, 91, 111, 114, 134 and 137: the handle and the angles off the axis are kept, and the axis angle becomes Java's `(a +- 90) % 360` |
| GridProperties.LayerCellPos | app/src/main/java/com/dramacow/noccube/NOCCube.java:78-82 | `LayerCell`, the cell the loops at lines 80, 103 and 126 visit: it is in the grid and in the layer, and `LayerPos` recovers its loop coordinates |
| GridProperties.LayerHandleMoved | app/src/main/java/com/dramacow/noccube/NOCCube.java:78-140 | `LayerHandles`: entry `i` recorded after a turn is the entry recorded before it at the source index of `i` |
| GridProperties.InitialAt | app/src/main/java/com/dramacow/noccube/NOCCube.java:44-50 | `InitialGrid`: every cell holds an unturned cube whose handle is its flattened index |
| GridProperties.SourceInverse | app/src/main/java/com/dramacow/noccube/NOCCube.java:86-91 | the clockwise and anticlockwise index expressions are inverse to each other and keep the layer in the grid, so each turn maps the layer one-to-one onto itself |
| GridProperties.SourceFour | app/src/main/java/com/dramacow/noccube/NOCCube.java:90 | four clockwise (or four anticlockwise) index maps compose to the identity on the layer |
| GridProperties.RotateMovesOnlyLayer | app/src/main/java/com/dramacow/noccube/NOCCube.java:65-146 | `Rotated` and `NewCell`, the grid the copy, the layer overwrite and the swap produce: outside the turned layer every cube is unchanged. Inside it each cell receives the cube from its source coordinate, with the same handle and the same angles off the axis. The angle about the axis moves by `+90` (clockwise) or `-90` modulo 360 |
| GridProperties.RotatePreservesHandlesOnce | app/src/main/java/com/dramacow/noccube/NOCCube.java:65-146 | if every handle `0 .. n^3 - 1` occurs exactly once before a rotation, it does after it |
| GridProperties.LayerHandlesPermuted | app/src/main/java/com/dramacow/noccube/NOCCube.java:78-140 | the handles recorded from the layer after a turn are, as a multiset, the handles recorded before it |
| GridProperties.RotatePreservesAnglesOk | app/src/main/java/com/dramacow/noccube/NOCCube.java:88-137 | every angle stays a multiple of 90 strictly between -360 and 360 |
| GridProperties.SpinAngleOk | app/src/main/java/com/dramacow/noccube/NOCCube.java:91 | `(a +- 90) % 360` of a reachable angle is reachable |
| GridProperties.SpinUndo | app/src/main/java/com/dramacow/noccube/NOCCube.java:88-91 | a quarter turn and its reverse give the same orientation modulo 360. The result is exactly the original cube unless the axis angle was 270 (clockwise first) or -270. In that case the angle comes back as -90 (or 90), because 270 turns to 0 and then to -90 |
| GridProperties.SpinFour | app/src/main/java/com/dramacow/noccube/NOCCube.java:91 | four quarter turns the same way give the same orientation modulo 360 |
| GridProperties.RotateUndo | app/src/main/java/com/dramacow/noccube/NOCCube.java:84-94 | `rotate(a, s, cw)` followed by `rotate(a, s, !cw)` restores every handle and every orientation modulo 360. With reachable angles it restores the grid exactly unless some axis angle was at 270 (or -270) |
| GridProperties.RotateFour | app/src/main/java/com/dramacow/noccube/NOCCube.java:84-94 | four turns of one layer the same way restore every handle and every orientation modulo 360 |
| GridProperties.HomeDigits | app/src/main/java/com/dramacow/noccube/NOCCube.java:47 | the handle `x + n*y + n*n*z` of a cell lies in `0 .. n^3 - 1` and its base-`n` digits are `x`, `y`, `z` |
| GridProperties.HomeOfDigits | app/src/main/java/com/dramacow/noccube/NOCCube.java:47 | every `h` in `0 .. n^3 - 1` is the handle of the cell named by its base-`n` digits |
| GridProperties.InitialHandlesOnce | app/src/main/java/com/dramacow/noccube/NOCCube.java:44-50 | the constructed grid holds every handle `0 .. n^3 - 1` exactly once |
| GridProperties.InitialAnglesOk | app/src/main/java/com/dramacow/noccube/NOCCube.java:179 | the constructed grid has only reachable angles |
| GridProperties.SolvedIffInitial | app/src/main/java/com/dramacow/noccube/NOCCube.java:162-165 | `Solved`, the condition tested at lines 162-165: a grid is solved exactly when it is the grid the constructor builds |
| GridProperties.TurnUnsolves | app/src/main/java/com/dramacow/noccube/NOCCube.java:84-94 | no single valid turn of a solved grid leaves it solved, because the moved cubes are left at `+-90` about the axis |
| Permutations.ReorderedMultiset | app/src/main/java/com/dramacow/noccube/NOCCube.java:84-94 | a sequence reordered by a bijection of its indices, as a turn reorders the layer, has the same multiset |

## Left out

- `GLRendererEx.java`, `NOCCubeRenderer.java` and `GLActivity.java` are not part of this
  model. They hold the OpenGL rendering, the animation of a turn and the Android
  activity.
- The caller-side guard that refuses a rotation while one is animating lives in the
  renderer and is not modelled.
- The commented-out `permute` helper (lines 16-38) is dead code and not modelled.
- The `Log.d` calls and the message string built from the sorted handles (lines 54-58
  and 148-153) are logging only and not modelled.
- Integers are unbounded. The source's 32-bit `int` would overflow in `D*D*D` and in the
  handles only for dimensions above 1290, far beyond any puzzle the application builds.
- `IsSolved` compares the integer angles with `0`, where the source compares them with
  the float `0.0f`. The conversion is exact for these values.
- Orientation is three independent angle sums, as in the source. The model does not
  compare them with the composition of three-dimensional rotations, so a cube that
  two different sequences of turns bring to the same physical pose may hold different
  angles in the source and in the model alike.
- NOCCubeModel.NOCCube.constructor: sizes the array by the clamped dimension, which is
  the corrected behaviour described under Findings. It does not model the source's
  `NegativeArraySizeException` for negative arguments or its undersized array for
  arguments 0 and 1.
- The source copies each cube into a new object when it moves it (lines 69, 87, 90 and
  the like). `Cube` is a value type here, so object identity and aliasing are not
  modelled. No cube object is shared in the source either.

## Findings

| source | as written | input that shows it | evidently intended | confidence | as-written member | corrected member |
|---|---|---|---|---|---|---|
| app/src/main/java/com/dramacow/noccube/NOCCube.java:40-47 | the constructor clamps the field `D` to 2 but its parameter, also named `D`, shadows the field, so the array and the handles are sized by the unclamped argument | `new NOCCube(1)`: `D == 2` but the array is `1 x 1 x 1`, so `isSolved` reads `cubes[0][0][1]` out of bounds. `new NOCCube(-1)` throws `NegativeArraySizeException` | the array and the handles use the clamped dimension, so every argument gives a solved `2 x 2 x 2` or larger puzzle | high, not executed | NOCCubeModel.AsWrittenShape | NOCCubeModel.NOCCube.constructor |
