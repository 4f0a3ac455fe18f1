/**
 * puzzle.py: the sliding-tile puzzle state. A puzzle is built from a flat
 * list of tiles and its (width, height); the list is laid out row-major into
 * `height` rows of `width` cells, the empty tile (0) is located, and the two
 * goal layouts are computed. A puzzle never changes after it is built, so it
 * is a value here.
 */
module Puzzles {
  import opened Wrappers

  /** A cell: column x, row y, with the origin at the top left. */
  datatype Pos = Pos(x: int, y: int)

  /** A move of get_moves: its cost and the cell the empty tile trades places with. */
  datatype Move = Move(cost: nat, target: Pos)

  datatype PuzzleError =
    | InvalidDimensions   // fewer than two dimensions, or a width or height below 2
    | ShapeMismatch       // np.reshape: the list does not hold width * height tiles
    | NoEmptyTile         // no tile is 0

  /** A two-dimensional array as a sequence of rows. */
  type Grid = seq<seq<nat>>

  ghost predicate IsShape(g: Grid, rows: int, cols: int) {
    |g| == rows && forall i :: 0 <= i < |g| ==> |g[i]| == cols
  }

  ghost predicate InBounds(w: int, h: int, t: Pos) {
    0 <= t.x < w && 0 <= t.y < h
  }

  // ---------------------------------------------------------------------------
  // Arithmetic facts about row-major indices and Python's modulo

  /** Python's `%` with a positive modulus (floored) agrees with Dafny's; near the range it is this. */
  lemma ModRange(a: int, n: int)
    requires n > 0 && -n <= a < 2 * n
    ensures a % n == if a < 0 then a + n else if a < n then a else a - n
  {
  }

  lemma MulMono(a: int, b: int, c: nat)
    requires a <= b
    ensures a * c <= b * c
  {
  }

  lemma RowBound(rows: nat, cols: nat, i: nat)
    requires i < rows
    ensures i * cols + cols <= rows * cols
  {
    assert i * cols + cols == (i + 1) * cols;
    MulMono(i + 1, rows, cols);
  }

  /** Row-major indices are ordered like (row, column) pairs in lexicographic order. */
  lemma {:induction false} RowMajorOrder(cols: nat, i: nat, j: nat, i': nat, j': nat)
    requires j < cols && j' < cols
    ensures i * cols + j < i' * cols + j' <==> i < i' || (i == i' && j < j')
  {
    if i < i' {
      RowBound(i', cols, i);
      MulMono(i, i' - 1, cols);
      assert i * cols + cols <= i' * cols;
    } else if i' < i {
      RowBound(i, cols, i');
      MulMono(i', i - 1, cols);
      assert i' * cols + cols <= i * cols;
    }
  }

  /** Every index below rows * cols is the row-major index of exactly one cell. */
  lemma RowMajorCell(rows: nat, cols: nat, k: nat)
    requires cols > 0 && k < rows * cols
    ensures k / cols < rows && k % cols < cols
    ensures (k / cols) * cols + k % cols == k
  {
    if k / cols >= rows {
      MulMono(rows, k / cols, cols);
    }
  }

  /** The last cell is the only one with row-major index rows * cols - 1. */
  lemma CornerIndex(cols: int, rows: int, x: int, y: int)
    requires 2 <= cols && 2 <= rows && 0 <= x < cols && 0 <= y < rows
    ensures y * cols + x == rows * cols - 1 <==> x == cols - 1 && y == rows - 1
  {
    if y < rows - 1 {
      MulMono(y, rows - 2, cols);
      assert (rows - 2) * cols + cols == (rows - 1) * cols;
      assert (rows - 1) * cols + cols == rows * cols;
    } else {
      assert y * cols == rows * cols - cols;
    }
  }

  // ---------------------------------------------------------------------------
  // np.reshape, transposition and the goal layouts

  function Row(l: seq<nat>, rows: nat, cols: nat, i: nat): (row: seq<nat>)
    requires |l| == rows * cols && i < rows
    ensures |row| == cols
    ensures forall j :: 0 <= j < cols ==> i * cols + j < |l| && row[j] == l[i * cols + j]
  {
    RowBound(rows, cols, i);
    l[i * cols .. i * cols + cols]
  }

  /** np.reshape(l, (rows, cols)): row i is the i-th run of `cols` elements of l. */
  function Reshape(l: seq<nat>, rows: nat, cols: nat): (g: Grid)
    requires |l| == rows * cols
    ensures |g| == rows && forall i :: 0 <= i < rows ==> g[i] == Row(l, rows, cols, i)
  {
    seq(rows, i requires 0 <= i < rows => Row(l, rows, cols, i))
  }

  lemma ReshapeShape(l: seq<nat>, rows: nat, cols: nat)
    requires |l| == rows * cols
    ensures IsShape(Reshape(l, rows, cols), rows, cols)
  {
  }

  /** Cell (i, j) of the reshaped list is element i * cols + j of the list. */
  lemma ReshapeAt(l: seq<nat>, rows: nat, cols: nat, i: nat, j: nat)
    requires |l| == rows * cols && i < rows && j < cols
    ensures i * cols + j < |l|
    ensures |Reshape(l, rows, cols)[i]| == cols && Reshape(l, rows, cols)[i][j] == l[i * cols + j]
  {
    ReshapeRow(l, rows, cols, i);
    RowAt(l, rows, cols, i, j);
  }

  lemma ReshapeRow(l: seq<nat>, rows: nat, cols: nat, i: nat)
    requires |l| == rows * cols && i < rows
    ensures Reshape(l, rows, cols)[i] == Row(l, rows, cols, i)
  {
  }

  lemma RowAt(l: seq<nat>, rows: nat, cols: nat, i: nat, j: nat)
    requires |l| == rows * cols && i < rows && j < cols
    ensures i * cols + j < |l| && Row(l, rows, cols, i)[j] == l[i * cols + j]
  {
    RowBound(rows, cols, i);
    var row := Row(l, rows, cols, i);
    assert row[j] == l[i * cols + j];
  }

  /** The `.T` of a rows-by-cols array. */
  function Transpose(m: Grid, rows: nat, cols: nat): (t: Grid)
    requires IsShape(m, rows, cols)
    ensures IsShape(t, cols, rows)
    ensures forall i, j :: 0 <= i < rows && 0 <= j < cols ==> t[j][i] == m[i][j]
  {
    seq(cols, j requires 0 <= j < cols => seq(rows, i requires 0 <= i < rows => m[i][j]))
  }

  function Arange(n: nat): (r: seq<nat>)
    ensures |r| == n && forall k :: 0 <= k < n ==> r[k] == k
  {
    seq(n, k requires 0 <= k < n => k)
  }

  /** lin[1:] followed by lin[0], for lin = np.arange(n): 1, 2, ..., n - 1, then 0. */
  function GoalNumbering(n: nat): (r: seq<nat>)
    requires n >= 1
    ensures |r| == n
    ensures forall k :: 0 <= k < n ==> r[k] == if k < n - 1 then k + 1 else 0
  {
    var lin := Arange(n);
    lin[1..] + [lin[0]]
  }

  lemma AreaAtLeastFour(w: int, h: int)
    requires w >= 2 && h >= 2
    ensures w * h >= 4 && w * h == h * w
  {
    MulMono(2, w, h);
  }

  /** goal1: the numbering laid out row by row. */
  function Goal1(w: int, h: int): (g: Grid)
    requires w >= 2 && h >= 2
    ensures IsShape(g, h, w)
  {
    AreaAtLeastFour(w, h);
    ReshapeShape(GoalNumbering(w * h), h, w);
    Reshape(GoalNumbering(w * h), h, w)
  }

  /** goal2: the numbering laid out column by column (a (w, h) reshape, transposed). */
  function Goal2(w: int, h: int): (g: Grid)
    requires w >= 2 && h >= 2
    ensures IsShape(g, h, w)
  {
    AreaAtLeastFour(w, h);
    ReshapeShape(GoalNumbering(w * h), w, h);
    Transpose(Reshape(GoalNumbering(w * h), w, h), w, h)
  }

  /** goal1 holds k + 1 at row-major index k, except 0 at the last index. */
  lemma Goal1At(w: int, h: int, x: int, y: int)
    requires w >= 2 && h >= 2 && 0 <= x < w && 0 <= y < h
    ensures Goal1(w, h)[y][x] == if y * w + x < w * h - 1 then y * w + x + 1 else 0
  {
    AreaAtLeastFour(w, h);
    ReshapeAt(GoalNumbering(w * h), h, w, y, x);
  }

  /** goal2 holds k + 1 at column-major index k = x * h + y, except 0 at the last index. */
  lemma Goal2At(w: int, h: int, x: int, y: int)
    requires w >= 2 && h >= 2 && 0 <= x < w && 0 <= y < h
    ensures Goal2(w, h)[y][x] == if x * h + y < w * h - 1 then x * h + y + 1 else 0
  {
    AreaAtLeastFour(w, h);
    var m := Reshape(GoalNumbering(w * h), w, h);
    ReshapeShape(GoalNumbering(w * h), w, h);
    ReshapeAt(GoalNumbering(w * h), w, h, x, y);
    assert Goal2(w, h)[y][x] == m[x][y];
  }

  lemma Goal1ZeroOnlyAtCorner(w: int, h: int, x: int, y: int)
    requires w >= 2 && h >= 2 && 0 <= x < w && 0 <= y < h
    ensures Goal1(w, h)[y][x] == 0 <==> x == w - 1 && y == h - 1
  {
    Goal1At(w, h, x, y);
    AreaAtLeastFour(w, h);
    CornerIndex(w, h, x, y);
    RowMajorOrder(w, y, x, h - 1, w - 1);
    assert (h - 1) * w + (w - 1) == w * h - 1;
  }

  lemma Goal2ZeroOnlyAtCorner(w: int, h: int, x: int, y: int)
    requires w >= 2 && h >= 2 && 0 <= x < w && 0 <= y < h
    ensures Goal2(w, h)[y][x] == 0 <==> x == w - 1 && y == h - 1
  {
    Goal2At(w, h, x, y);
    AreaAtLeastFour(w, h);
    CornerIndex(h, w, y, x);
    RowMajorOrder(h, x, y, w - 1, h - 1);
    assert (w - 1) * h + (h - 1) == w * h - 1;
  }

  /** Both goals hold 0 at the bottom-right cell and nowhere else. */
  lemma GoalsZeroOnlyAtCorner(w: int, h: int, x: int, y: int)
    requires w >= 2 && h >= 2 && 0 <= x < w && 0 <= y < h
    ensures Goal1(w, h)[y][x] == 0 <==> x == w - 1 && y == h - 1
    ensures Goal2(w, h)[y][x] == 0 <==> x == w - 1 && y == h - 1
  {
    Goal1ZeroOnlyAtCorner(w, h, x, y);
    Goal2ZeroOnlyAtCorner(w, h, x, y);
  }

  // ---------------------------------------------------------------------------
  // The empty tile

  /** p is the first cell in row-major order that holds 0. */
  ghost predicate IsFirstZero(g: Grid, p: Pos) {
    && 0 <= p.y < |g| && 0 <= p.x < |g[p.y]| && g[p.y][p.x] == 0
    && (forall i, j :: 0 <= i < p.y && 0 <= j < |g[i]| ==> g[i][j] != 0)
    && (forall j :: 0 <= j < p.x ==> g[p.y][j] != 0)
  }

  ghost predicate HasZero(g: Grid) {
    exists i, j :: 0 <= i < |g| && 0 <= j < |g[i]| && g[i][j] == 0
  }

  /** __locate_empty_tile: scan the rows, and each row left to right, for the tile 0. */
  method LocateEmptyTile(g: Grid) returns (r: Option<Pos>)
    ensures r.Some? ==> IsFirstZero(g, r.value)
    ensures r.None? <==> !HasZero(g)
  {
    var y := 0;
    while y < |g|
      invariant 0 <= y <= |g|
      invariant forall i, j :: 0 <= i < y && 0 <= j < |g[i]| ==> g[i][j] != 0
    {
      var x := 0;
      while x < |g[y]|
        invariant 0 <= x <= |g[y]|
        invariant forall j :: 0 <= j < x ==> g[y][j] != 0
      {
        if g[y][x] == 0 {
          return Some(Pos(x, y));
        }
        x := x + 1;
      }
      y := y + 1;
    }
    return None;
  }

  /** On a reshaped list, the first zero cell is the cell of the list's first 0. */
  lemma FirstZeroIsFirstInList(l: seq<nat>, rows: nat, cols: nat, p: Pos)
    requires |l| == rows * cols && IsFirstZero(Reshape(l, rows, cols), p)
    ensures p.y * cols + p.x < |l| && l[p.y * cols + p.x] == 0
    ensures forall k :: 0 <= k < p.y * cols + p.x ==> l[k] != 0
  {
    var g := Reshape(l, rows, cols);
    ReshapeAt(l, rows, cols, p.y, p.x);
    forall k | 0 <= k < p.y * cols + p.x
      ensures l[k] != 0
    {
      RowMajorCell(rows, cols, k);
      var i, j := k / cols, k % cols;
      RowMajorOrder(cols, i, j, p.y, p.x);
      ReshapeAt(l, rows, cols, i, j);
    }
  }

  lemma ZeroInListIffInGrid(l: seq<nat>, rows: nat, cols: nat)
    requires cols > 0 && |l| == rows * cols
    ensures HasZero(Reshape(l, rows, cols)) <==> 0 in l
  {
    if 0 in l {
      var k :| 0 <= k < |l| && l[k] == 0;
      ZeroInList(l, rows, cols, k);
    }
    if HasZero(Reshape(l, rows, cols)) {
      var g := Reshape(l, rows, cols);
      var i, j :| 0 <= i < |g| && 0 <= j < |g[i]| && g[i][j] == 0;
      ZeroInGrid(l, rows, cols, i, j);
    }
  }

  lemma ZeroInList(l: seq<nat>, rows: nat, cols: nat, k: nat)
    requires cols > 0 && |l| == rows * cols && k < |l| && l[k] == 0
    ensures HasZero(Reshape(l, rows, cols))
  {
    RowMajorCell(rows, cols, k);
    var i, j := k / cols, k % cols;
    ReshapeAt(l, rows, cols, i, j);
    assert Reshape(l, rows, cols)[i][j] == 0;
  }

  lemma ZeroInGrid(l: seq<nat>, rows: nat, cols: nat, i: nat, j: nat)
    requires cols > 0 && |l| == rows * cols && i < rows && j < cols
    requires Reshape(l, rows, cols)[i][j] == 0
    ensures 0 in l
  {
    ReshapeAt(l, rows, cols, i, j);
    assert l[i * cols + j] == 0;
  }

  // ---------------------------------------------------------------------------
  // The puzzle

  /** The constructor's rejection test on the dimension tuple. */
  predicate DimensionsRejected(d: seq<int>) {
    |d| < 2 || d[0] < 2 || d[1] < 2
  }

  datatype Puzzle = Puzzle(dimensions: seq<int>, grid: Grid, tilePos: Pos, goal1: Grid, goal2: Grid)
  {
    function Width(): int
      requires |dimensions| >= 2
    {
      dimensions[0]
    }

    function Height(): int
      requires |dimensions| >= 2
    {
      dimensions[1]
    }

    /** What the constructor establishes. */
    ghost predicate Valid() {
      && !DimensionsRejected(dimensions)
      && IsShape(grid, Height(), Width())
      && IsFirstZero(grid, tilePos)
      && goal1 == Goal1(Width(), Height())
      && goal2 == Goal2(Width(), Height())
    }

    /** __getitem__((x, y)): grid[y, x]. */
    function At(x: int, y: int): nat
      requires Valid() && 0 <= x < Width() && 0 <= y < Height()
    {
      grid[y][x]
    }

    /** is_complete: the tile 0 must be in the bottom-right corner, and the grid one of the goals. */
    predicate IsComplete()
      requires Valid()
    {
      if tilePos != Pos(Width() - 1, Height() - 1) then false
      else grid == goal1 || grid == goal2
    }
  }

  /** Puzzle.__init__ (with parse_puzzle's list of naturals). */
  method Create(intList: seq<nat>, dimension: seq<int>) returns (r: Result<Puzzle, PuzzleError>)
    ensures r == Err(InvalidDimensions) <==> DimensionsRejected(dimension)
    ensures r == Err(ShapeMismatch) <==>
      !DimensionsRejected(dimension) && |intList| != dimension[0] * dimension[1]
    ensures r == Err(NoEmptyTile) <==>
      !DimensionsRejected(dimension) && |intList| == dimension[0] * dimension[1] && 0 !in intList
    ensures r.Ok? ==> r.value.Valid() && r.value.dimensions == dimension
    ensures r.Ok? ==> r.value.grid == Reshape(intList, dimension[1], dimension[0])
    ensures r.Ok? ==>
      var k := r.value.tilePos.y * dimension[0] + r.value.tilePos.x;
      0 <= k < |intList| && intList[k] == 0 && forall k' :: 0 <= k' < k ==> intList[k'] != 0
  {
    if DimensionsRejected(dimension) {
      return Err(InvalidDimensions);
    }
    var w, h := dimension[0], dimension[1];
    if |intList| != h * w {
      return Err(ShapeMismatch);
    }
    var grid := Reshape(intList, h, w);
    ReshapeShape(intList, h, w);
    var tile := LocateEmptyTile(grid);
    ZeroInListIffInGrid(intList, h, w);
    if tile.None? {
      return Err(NoEmptyTile);
    }
    FirstZeroIsFirstInList(intList, h, w, tile.value);
    var p := Puzzle(dimension, grid, tile.value, Goal1(w, h), Goal2(w, h));
    return Ok(p);
  }

  /** __getitem__ on a built puzzle: cell (x, y) holds element y * width + x of the input list. */
  lemma AtIsRowMajor(p: Puzzle, intList: seq<nat>, x: int, y: int)
    requires p.Valid() && |intList| == p.Width() * p.Height()
    requires p.grid == Reshape(intList, p.Height(), p.Width())
    requires 0 <= x < p.Width() && 0 <= y < p.Height()
    ensures y * p.Width() + x < |intList| && p.At(x, y) == intList[y * p.Width() + x]
  {
    ReshapeAt(intList, p.Height(), p.Width(), y, x);
  }

  /** is_complete is exactly "the grid equals goal1 or goal2": the corner check never changes the answer. */
  lemma IsCompleteIffGoal(p: Puzzle)
    requires p.Valid()
    ensures p.IsComplete() <==> p.grid == p.goal1 || p.grid == p.goal2
  {
    var w, h := p.Width(), p.Height();
    var t := p.tilePos;
    if p.grid == p.goal1 || p.grid == p.goal2 {
      GoalsZeroOnlyAtCorner(w, h, t.x, t.y);
    }
  }

  // ---------------------------------------------------------------------------
  // get_moves

  /** The inner cost(tile) of get_moves, for the empty tile at (x, y). */
  function Cost(w: int, h: int, x: int, y: int, t: Pos): nat {
    if w > 2 && ((t.x == 0 && x == w - 1) || (t.x == w - 1 && x == 0)) then 2
    else if h > 2 && ((t.y == 0 && y == h - 1) || (t.y == h - 1 && y == 0)) then 2
    else 1
  }

  /** top, bottom, right, left, each pair kept once when its two cells coincide. */
  function Laterals(w: int, h: int, x: int, y: int): seq<Pos>
    requires w > 0 && h > 0
  {
    var top, right, bottom, left := Pos(x, (y - 1) % h), Pos((x + 1) % w, y), Pos(x, (y + 1) % h), Pos((x - 1) % w, y);
    (if top == bottom then [top] else [top, bottom]) + (if right == left then [right] else [right, left])
  }

  /** The two diagonal cells of a corner, on a board that is not 2 by 2. */
  function Diagonals(w: int, h: int, x: int, y: int): seq<Pos>
    requires w > 0 && h > 0
  {
    if (h, w) == (2, 2) then []
    else if (x, y) == (w - 1, 0) || (x, y) == (0, h - 1) then
      [Pos((x - 1) % w, (y + 1) % h), Pos((x + 1) % w, (y - 1) % h)]
    else if (x, y) == (0, 0) || (x, y) == (w - 1, h - 1) then
      [Pos((x - 1) % w, (y - 1) % h), Pos((x + 1) % w, (y + 1) % h)]
    else []
  }

  /** The move list of get_moves: the laterals with their cost, then the diagonals at cost 3. */
  function MovesAt(w: int, h: int, x: int, y: int): seq<Move>
    requires w > 0 && h > 0
  {
    var lat, diag := Laterals(w, h, x, y), Diagonals(w, h, x, y);
    seq(|lat|, i requires 0 <= i < |lat| => Move(Cost(w, h, x, y, lat[i]), lat[i])) +
    seq(|diag|, i requires 0 <= i < |diag| => Move(3, diag[i]))
  }

  /** t is one step from (x, y) along exactly one axis, modulo that axis's length. */
  ghost predicate IsLateralStep(w: int, h: int, x: int, y: int, t: Pos)
    requires w > 0 && h > 0
  {
    (t.x == x && (t.y - y) % h in {1, h - 1}) || (t.y == y && (t.x - x) % w in {1, w - 1})
  }

  /** t is one step from (x, y) along both axes, modulo the axes' lengths. */
  ghost predicate IsDiagonalStep(w: int, h: int, x: int, y: int, t: Pos)
    requires w > 0 && h > 0
  {
    (t.x - x) % w in {1, w - 1} && (t.y - y) % h in {1, h - 1}
  }

  ghost predicate IsCorner(w: int, h: int, x: int, y: int) {
    (x == 0 || x == w - 1) && (y == 0 || y == h - 1)
  }

  /** One step forwards or backwards on an axis of length n, with wrap-around. */
  lemma NextPrev(b: int, n: int)
    requires 2 <= n && 0 <= b < n
    ensures b % n == b
    ensures (b + 1) % n == if b == n - 1 then 0 else b + 1
    ensures (b - 1) % n == if b == 0 then n - 1 else b - 1
  {
    ModRange(b, n);
    ModRange(b + 1, n);
    ModRange(b - 1, n);
  }

  /** The offset of a from b modulo n tells which neighbour of b it is. */
  lemma OffsetMod(a: int, b: int, n: int)
    requires 2 <= n && 0 <= a < n && 0 <= b < n
    ensures (a - b) % n == 0 <==> a == b
    ensures (a - b) % n == 1 <==> a == (b + 1) % n
    ensures (a - b) % n == n - 1 <==> a == (b - 1) % n
  {
    NextPrev(b, n);
    ModRange(a - b, n);
  }

  /** The lateral targets are exactly the in-bounds one-axis steps, without repetition:
      four of them, three when one side is 2, two on a 2 by 2 board. */
  lemma LateralTargets(w: int, h: int, x: int, y: int)
    requires 2 <= w && 2 <= h && 0 <= x < w && 0 <= y < h
    ensures forall t :: t in Laterals(w, h, x, y) <==> InBounds(w, h, t) && IsLateralStep(w, h, x, y, t)
    ensures forall i, j :: 0 <= i < j < |Laterals(w, h, x, y)| ==> Laterals(w, h, x, y)[i] != Laterals(w, h, x, y)[j]
    ensures |Laterals(w, h, x, y)| == (if w == 2 then 1 else 2) + (if h == 2 then 1 else 2)
  {
    NextPrev(x, w);
    NextPrev(y, h);
    var lat := Laterals(w, h, x, y);
    forall t | t in lat
      ensures InBounds(w, h, t) && IsLateralStep(w, h, x, y, t)
    {
      OffsetMod(t.x, x, w);
      OffsetMod(t.y, y, h);
    }
    forall t | InBounds(w, h, t) && IsLateralStep(w, h, x, y, t)
      ensures t in lat
    {
      OffsetMod(t.x, x, w);
      OffsetMod(t.y, y, h);
    }
  }

  /** A lateral move costs 2 exactly when its step leaves the board (and wraps) on an axis longer than 2. */
  lemma LateralCost(w: int, h: int, x: int, y: int, dx: int, dy: int)
    requires 2 <= w && 2 <= h && 0 <= x < w && 0 <= y < h
    requires (dx, dy) in {(0, -1), (0, 1), (1, 0), (-1, 0)}
    ensures Pos((x + dx) % w, (y + dy) % h) in Laterals(w, h, x, y)
    ensures Cost(w, h, x, y, Pos((x + dx) % w, (y + dy) % h)) ==
      if !InBounds(w, h, Pos(x + dx, y + dy)) && (if dx != 0 then w else h) > 2 then 2 else 1
  {
    NextPrev(x, w);
    NextPrev(y, h);
  }

  /** Two diagonal targets exactly at a corner of a board that is not 2 by 2, none elsewhere;
      they are distinct two-axis steps inside the board. */
  lemma DiagonalTargets(w: int, h: int, x: int, y: int)
    requires 2 <= w && 2 <= h && 0 <= x < w && 0 <= y < h
    ensures |Diagonals(w, h, x, y)| == if IsCorner(w, h, x, y) && !(w == 2 && h == 2) then 2 else 0
    ensures forall t :: t in Diagonals(w, h, x, y) ==> InBounds(w, h, t) && IsDiagonalStep(w, h, x, y, t)
    ensures |Diagonals(w, h, x, y)| == 2 ==> Diagonals(w, h, x, y)[0] != Diagonals(w, h, x, y)[1]
  {
    NextPrev(x, w);
    NextPrev(y, h);
    forall t | t in Diagonals(w, h, x, y)
      ensures InBounds(w, h, t) && IsDiagonalStep(w, h, x, y, t)
    {
      OffsetMod(t.x, x, w);
      OffsetMod(t.y, y, h);
    }
  }

  /** A lateral step changes one coordinate, a diagonal step both. */
  lemma StepsMoveOff(w: int, h: int, x: int, y: int, t: Pos)
    requires 2 <= w && 2 <= h && 0 <= x < w && 0 <= y < h && InBounds(w, h, t)
    ensures IsLateralStep(w, h, x, y, t) ==> (t.x == x) != (t.y == y)
    ensures IsDiagonalStep(w, h, x, y, t) ==> t.x != x && t.y != y
  {
    OffsetMod(t.x, x, w);
    OffsetMod(t.y, y, h);
  }

  /** Position i of the move list: a lateral with its cost, or a diagonal at cost 3. */
  lemma MovesAtIndex(w: int, h: int, x: int, y: int, i: int)
    requires 2 <= w && 2 <= h && 0 <= i < |MovesAt(w, h, x, y)|
    ensures |MovesAt(w, h, x, y)| == |Laterals(w, h, x, y)| + |Diagonals(w, h, x, y)|
    ensures i < |Laterals(w, h, x, y)| ==>
      MovesAt(w, h, x, y)[i] == Move(Cost(w, h, x, y, Laterals(w, h, x, y)[i]), Laterals(w, h, x, y)[i])
    ensures i >= |Laterals(w, h, x, y)| ==>
      MovesAt(w, h, x, y)[i] == Move(3, Diagonals(w, h, x, y)[i - |Laterals(w, h, x, y)|])
  {
  }

  /** Every move costs 1, 2 or 3 (3 exactly for the diagonals), stays on the board,
      leaves the empty cell, and no two moves share a target. */
  lemma MovesAtProperties(w: int, h: int, x: int, y: int)
    requires 2 <= w && 2 <= h && 0 <= x < w && 0 <= y < h
    ensures |MovesAt(w, h, x, y)| == |Laterals(w, h, x, y)| + |Diagonals(w, h, x, y)|
    ensures forall m :: m in MovesAt(w, h, x, y) ==>
      m.cost in {1, 2, 3} && InBounds(w, h, m.target) && m.target != Pos(x, y)
    ensures forall m :: m in MovesAt(w, h, x, y) ==> (m.cost == 3 <==> m.target in Diagonals(w, h, x, y))
    ensures forall i, j :: 0 <= i < j < |MovesAt(w, h, x, y)| ==> MovesAt(w, h, x, y)[i].target != MovesAt(w, h, x, y)[j].target
  {
    var lat, diag, ms := Laterals(w, h, x, y), Diagonals(w, h, x, y), MovesAt(w, h, x, y);
    LateralTargets(w, h, x, y);
    DiagonalTargets(w, h, x, y);
    assert |ms| == |lat| + |diag|;
    forall m | m in ms
      ensures m.cost in {1, 2, 3} && InBounds(w, h, m.target) && m.target != Pos(x, y)
      ensures m.cost == 3 <==> m.target in diag
    {
      var i :| 0 <= i < |ms| && ms[i] == m;
      MovesAtIndex(w, h, x, y, i);
      if i < |lat| {
        assert lat[i] in lat;
        StepsMoveOff(w, h, x, y, lat[i]);
      } else {
        assert diag[i - |lat|] in diag;
        StepsMoveOff(w, h, x, y, diag[i - |lat|]);
      }
    }
    forall i, j | 0 <= i < j < |ms|
      ensures ms[i].target != ms[j].target
    {
      MovesAtIndex(w, h, x, y, i);
      MovesAtIndex(w, h, x, y, j);
      if i < |lat| && |lat| <= j {
        assert lat[i] in lat;
        assert diag[j - |lat|] in diag;
        StepsMoveOff(w, h, x, y, lat[i]);
        StepsMoveOff(w, h, x, y, diag[j - |lat|]);
      }
    }
  }

  /** The lateral block of get_moves: top and bottom (once if they coincide), then right and left. */
  method CollectLaterals(w: int, h: int, x: int, y: int) returns (laterals: seq<Pos>)
    requires w > 0 && h > 0
    ensures laterals == Laterals(w, h, x, y)
  {
    var top, right, bottom, left := Pos(x, (y - 1) % h), Pos((x + 1) % w, y), Pos(x, (y + 1) % h), Pos((x - 1) % w, y);
    laterals := [];
    if top == bottom {
      laterals := laterals + [top];
    } else {
      laterals := laterals + [top];
      laterals := laterals + [bottom];
    }
    if right == left {
      laterals := laterals + [right];
    } else {
      laterals := laterals + [right];
      laterals := laterals + [left];
    }
  }

  /** The diagonal block of get_moves: the second corner test overrides the first. */
  method CollectDiagonals(w: int, h: int, x: int, y: int) returns (diagonals: seq<Pos>)
    requires w > 0 && h > 0
    ensures diagonals == Diagonals(w, h, x, y)
  {
    diagonals := [];
    if (h, w) != (2, 2) {
      var d1: Option<Pos>, d2: Option<Pos> := None, None;
      if (x, y) == (0, 0) || (x, y) == (w - 1, h - 1) {
        d1 := Some(Pos((x - 1) % w, (y - 1) % h));
        d2 := Some(Pos((x + 1) % w, (y + 1) % h));
      }
      if (x, y) == (w - 1, 0) || (x, y) == (0, h - 1) {
        d1 := Some(Pos((x - 1) % w, (y + 1) % h));
        d2 := Some(Pos((x + 1) % w, (y - 1) % h));
      }
      if d1.Some? && d2.Some? {
        diagonals := diagonals + [d1.value];
        diagonals := diagonals + [d2.value];
      }
    }
  }

  /** get_moves on a puzzle built from exactly two dimensions (get_moves unpacks `w, h`). */
  method GetMoves(p: Puzzle) returns (moves: seq<Move>)
    requires p.Valid() && |p.dimensions| == 2
    ensures moves == MovesAt(p.Width(), p.Height(), p.tilePos.x, p.tilePos.y)
    ensures forall m :: m in moves ==>
      m.cost in {1, 2, 3} && InBounds(p.Width(), p.Height(), m.target) && m.target != p.tilePos
    ensures forall i, j :: 0 <= i < j < |moves| ==> moves[i].target != moves[j].target
  {
    var w, h := p.dimensions[0], p.dimensions[1];
    var x, y := p.tilePos.x, p.tilePos.y;
    var laterals := CollectLaterals(w, h, x, y);
    moves := [];
    for i := 0 to |laterals|
      invariant moves == seq(i, k requires 0 <= k < i => Move(Cost(w, h, x, y, laterals[k]), laterals[k]))
    {
      moves := moves + [Move(Cost(w, h, x, y, laterals[i]), laterals[i])];
    }
    ghost var lateralMoves := moves;
    var diagonals := CollectDiagonals(w, h, x, y);
    for i := 0 to |diagonals|
      invariant moves == lateralMoves + seq(i, k requires 0 <= k < i => Move(3, diagonals[k]))
    {
      moves := moves + [Move(3, diagonals[i])];
    }
    assert moves == MovesAt(w, h, x, y);
    MovesAtProperties(w, h, x, y);
  }

  /** The 2 by 2 board [[1, 2], [0, 3]]: the tile above and the tile to the right, both at cost 1. */
  lemma TwoByTwoExample()
    ensures MovesAt(2, 2, 0, 1) == [Move(1, Pos(0, 0)), Move(1, Pos(1, 1))]
  {
  }
}
