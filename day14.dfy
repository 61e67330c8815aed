// Parabolic reflector dish: a grid of round rocks, which roll, cube rocks,
// which never move, and empty space. Tilting the platform rolls every
// round rock as far as it goes by swapping it with the space ahead of it;
// the load on the north support beams counts each round rock by its
// distance from the south edge.
module Day14 {
  import opened Wrappers
  import opened Numbers
  import opened Processor
  import opened Grids

  datatype Cell = Space | RoundRock | CubeRock

  datatype Direction = North | East | South | West

  type Lines = seq<seq<Cell>>

  // ---------------------------------------------------------------------
  // Cells and loading

  /** The character each cell is drawn with. */
  function Symbol(cell: Cell): char {
    match cell
    case Space => '.'
    case RoundRock => 'O'
    case CubeRock => '#'
  }

  /** `parse_line`'s table; None for a character it panics on. */
  function CellOf(c: char): (r: Option<Cell>)
    ensures r.Some? <==> c == '.' || c == 'O' || c == '#'
    ensures r.Some? ==> Symbol(r.value) == c
  {
    match c
    case '.' => Some(Space)
    case 'O' => Some(RoundRock)
    case '#' => Some(CubeRock)
    case _ => None
  }

  lemma CellOfSymbol(cell: Cell)
    ensures CellOf(Symbol(cell)) == Some(cell)
  {
  }

  /** The cells of a line, None when some character is not a cell. */
  function RowOf(line: string): (r: Option<seq<Cell>>)
    ensures r.Some? <==> forall i | 0 <= i < |line| :: CellOf(line[i]).Some?
    ensures r.Some? ==> |r.value| == |line| && forall i | 0 <= i < |line| :: Some(r.value[i]) == CellOf(line[i])
  {
    if line == [] then Some([])
    else
      match RowOf(line[..|line| - 1])
      case None => None
      case Some(front) =>
        match CellOf(line[|line| - 1])
        case None => None
        case Some(cell) => Some(front + [cell])
  }

  /** How a row is written. */
  function ShowRow(row: seq<Cell>): (r: string)
    ensures |r| == |row| && forall i | 0 <= i < |row| :: r[i] == Symbol(row[i])
  {
    seq(|row|, i requires 0 <= i < |row| => Symbol(row[i]))
  }

  lemma RowOfShown(row: seq<Cell>)
    ensures RowOf(ShowRow(row)) == Some(row)
  {
    var line := ShowRow(row);
    forall i | 0 <= i < |line|
      ensures CellOf(line[i]).Some?
    {
      CellOfSymbol(row[i]);
    }
    var r := RowOf(line);
    forall i | 0 <= i < |row|
      ensures r.value[i] == row[i]
    {
      CellOfSymbol(row[i]);
    }
    assert r.value == row;
  }

  /** `BLANK_DELIMITERS`: a line is one word. */
  const Delimiters: set<char> := {}

  /** `parse_line`: every line is the next row of the grid. An empty line,
    * or a character other than '.', 'O' and '#', is an error (the source
    * panics on both). */
  function ParseLine(state: Lines, line: string): (r: Result<Lines>)
    ensures r.Ok? <==> line != [] && RowOf(line).Some?
    ensures r.Ok? ==> |r.value| == |state| + 1 && r.value[..|state|] == state
  {
    match NextWord(line, Delimiters)
    case None => Err("Expect all lines to contain something")
    case Some(w) =>
      assert w.text == line by {
        assert NoneIn(line, Delimiters);
        NextWordWhole(line, Delimiters);
      }
      match RowOf(w.text)
      case None => Err("unrecognised cell")
      case Some(row) => Ok(state + [row])
  }

  function ShowRows(rows: Lines): (r: seq<string>)
    ensures |r| == |rows| && forall i | 0 <= i < |rows| :: r[i] == ShowRow(rows[i])
  {
    seq(|rows|, i requires 0 <= i < |rows| => ShowRow(rows[i]))
  }

  lemma ShowRowsAppend(front: Lines, last: seq<Cell>)
    ensures ShowRows(front + [last]) == ShowRows(front) + [ShowRow(last)]
  {
  }

  /** A printed row that is not empty is read back as the next row. */
  lemma ParseShownRow(state: Lines, row: seq<Cell>)
    requires row != []
    ensures ParseLine(state, ShowRow(row)) == Ok(state + [row])
  {
    var line := ShowRow(row);
    assert NoneIn(line, Delimiters);
    NextWordWhole(line, Delimiters);
    RowOfShown(row);
  }

  /** Reading the printed rows of a grid, none of them empty, gives the
    * rows back. */
  lemma {:induction false} ParseShownRows(rows: Lines)
    requires forall i | 0 <= i < |rows| :: rows[i] != []
    ensures ParseLines([], ShowRows(rows), ParseLine) == Ok(rows)
  {
    if rows == [] {
      assert ShowRows(rows) == [];
    } else {
      var front, last := rows[..|rows| - 1], rows[|rows| - 1];
      ParseShownRows(front);
      assert front + [last] == rows;
      ShowRowsAppend(front, last);
      ParseLinesAppend([], ShowRows(front), ShowRow(last), ParseLine);
      ParseShownRow(front, last);
    }
  }

  /** `finalise_state`: the rows become the grid, as wide as the widest row
    * with short rows padded with space; no rows, or only empty ones, is an
    * error. */
  method FinaliseState(lines: Lines) returns (r: Result<Cells<Cell>>)
    ensures r.Ok? <==> lines != [] && MaxWidth(lines) > 0
    ensures r.Ok? ==>
              fresh(r.value) && r.value.Valid() &&
              r.value.width == MaxWidth(lines) && r.value.height == |lines| &&
              r.value.contents == Padded(lines, MaxWidth(lines), Space)
  {
    if lines == [] {
      return Err("No point in building cells when there are no lines");
    }
    var width := MaxWidth(lines);
    if width == 0 {
      return Err("No point in building cells when the width is 0");
    }
    PaddedAt(lines, width, Space);
    var grid := new Cells.FromContents(Padded(lines, width, Space), width, |lines|);
    return Ok(grid);
  }

  // ---------------------------------------------------------------------
  // Rolling one rock

  /** A step to a neighbouring cell across a side. */
  predicate UnitStep(dx: int, dy: int) {
    (dx == 0 && (dy == 1 || dy == -1)) || (dy == 0 && (dx == 1 || dx == -1))
  }

  /** The step `tilt` rolls the rocks by; north is towards row 0. */
  function Delta(d: Direction): (r: (int, int))
    ensures UnitStep(r.0, r.1)
  {
    match d
    case North => (0, -1)
    case East => (1, 0)
    case South => (0, 1)
    case West => (-1, 0)
  }

  predicate Inside(w: nat, h: nat, x: int, y: int) {
    0 <= x < w && 0 <= y < h
  }

  /** The cell at (x, y) is on the grid and empty: the only kind of cell a
    * round rock rolls into. */
  predicate Open(c: seq<Cell>, w: nat, h: nat, x: int, y: int)
    requires |c| == Mul(h, w)
  {
    Inside(w, h, x, y) && CellAt(c, w, h, x, y) == Space
  }

  /** How far (x, y) is from the edge the step heads for. */
  function Room(w: nat, h: nat, x: int, y: int, dx: int, dy: int): nat
    requires Inside(w, h, x, y)
  {
    (if dx > 0 then w - x else if dx < 0 then x + 1 else 0) +
    (if dy > 0 then h - y else if dy < 0 then y + 1 else 0)
  }

  /** (ex, ey) lies on the ray from (x, y) in the direction of the step. */
  predicate OnRay(x: int, y: int, dx: int, dy: int, ex: int, ey: int) {
    (if dx > 0 then ex >= x else if dx < 0 then ex <= x else ex == x) &&
    (if dy > 0 then ey >= y else if dy < 0 then ey <= y else ey == y)
  }

  /** Where a round rock at (x, y) comes to rest when it rolls in the
    * direction of the step: it goes on while the next cell is an empty cell
    * of the grid. It stops on the grid, ahead of where it started, on a
    * space unless it never moved, with no open cell in front of it. */
  function RestingPlace(c: seq<Cell>, w: nat, h: nat, x: nat, y: nat, dx: int, dy: int): (r: (nat, nat))
    requires |c| == Mul(h, w) && Inside(w, h, x, y) && UnitStep(dx, dy)
    ensures Inside(w, h, r.0, r.1)
    decreases Room(w, h, x, y, dx, dy)
  {
    if Open(c, w, h, x + dx, y + dy) then RestingPlace(c, w, h, x + dx, y + dy, dx, dy) else (x, y)
  }

  /** The resting place is blocked ahead, lies ahead of the start, and is
    * a space unless the rock never moved. */
  lemma {:induction false} RestingPlaceStops(c: seq<Cell>, w: nat, h: nat, x: nat, y: nat, dx: int, dy: int)
    requires |c| == Mul(h, w) && Inside(w, h, x, y) && UnitStep(dx, dy)
    ensures var r := RestingPlace(c, w, h, x, y, dx, dy);
            !Open(c, w, h, r.0 + dx, r.1 + dy) && OnRay(x, y, dx, dy, r.0, r.1) &&
            ((r.0 == x && r.1 == y) || CellAt(c, w, h, r.0, r.1) == Space)
    decreases Room(w, h, x, y, dx, dy)
  {
    if Open(c, w, h, x + dx, y + dy) {
      RestingPlaceStops(c, w, h, x + dx, y + dy, dx, dy);
    }
  }

  /** What `move_cell` does to the grid: a round rock changes places with
    * the space where it comes to rest; any other cell stays put. */
  function Moved(c: seq<Cell>, w: nat, h: nat, x: nat, y: nat, dx: int, dy: int): (r: seq<Cell>)
    requires |c| == Mul(h, w) && Inside(w, h, x, y) && UnitStep(dx, dy)
    ensures |r| == |c|
  {
    if CellAt(c, w, h, x, y) != RoundRock then c
    else
      var e := RestingPlace(c, w, h, x, y, dx, dy);
      Swapped(c, w, h, x, y, e.0, e.1)
  }

  /** The cube rocks of `a` and `b` are in the same places. */
  predicate SameCubes(a: seq<Cell>, b: seq<Cell>) {
    |a| == |b| && forall i | 0 <= i < |a| :: (a[i] == CubeRock) == (b[i] == CubeRock)
  }

  /** Moving a cell only rearranges the cells, and never a cube rock. */
  lemma MovedKeeps(c: seq<Cell>, w: nat, h: nat, x: nat, y: nat, dx: int, dy: int)
    requires |c| == Mul(h, w) && Inside(w, h, x, y) && UnitStep(dx, dy)
    ensures multiset(Moved(c, w, h, x, y, dx, dy)) == multiset(c)
    ensures SameCubes(Moved(c, w, h, x, y, dx, dy), c)
  {
    if CellAt(c, w, h, x, y) == RoundRock {
      var e := RestingPlace(c, w, h, x, y, dx, dy);
      RestingPlaceStops(c, w, h, x, y, dx, dy);
      RowMajorInRange(x, y, w, h);
      RowMajorInRange(e.0, e.1, w, h);
      var i1, i2 := RowMajor(x, y, w), RowMajor(e.0, e.1, w);
      assert c[i1] == RoundRock;
      assert i1 == i2 || c[i2] == Space;
    }
  }

  /** `try_moving_cell`: the cell at (x, y) changes places with the next
    * cell along the step exactly when that cell is an empty cell of the
    * grid; the answer says whether it moved. */
  method TryMovingCell(grid: Cells<Cell>, x: nat, y: nat, dx: int, dy: int) returns (moved: bool)
    requires grid.Valid() && grid.InBounds(x, y)
    modifies grid
    ensures grid.Valid() && grid.width == old(grid.width) && grid.height == old(grid.height)
    ensures moved <==> Open(old(grid.contents), grid.width, grid.height, x + dx, y + dy)
    ensures moved ==>
              Inside(grid.width, grid.height, x + dx, y + dy) &&
              grid.contents == Swapped(old(grid.contents), grid.width, grid.height, x, y, x + dx, y + dy)
    ensures !moved ==> grid.contents == old(grid.contents)
  {
    var nextX, nextY := x + dx, y + dy;
    if !grid.InBounds(nextX, nextY) {
      return false;
    }
    var nextCell := grid.Get(nextX, nextY).value;
    if nextCell == Space {
      var done := grid.Swap(x, y, nextX, nextY);
      return true;
    }
    return false;
  }

  /** Rolling on from a cell the rock has reached by rolling: the same
    * exchange as one exchange from where it started. */
  lemma SwapAlong(c: seq<Cell>, w: nat, h: nat, x: nat, y: nat, cx: nat, cy: nat, nx: nat, ny: nat)
    requires |c| == Mul(h, w) && Inside(w, h, x, y) && Inside(w, h, cx, cy) && Inside(w, h, nx, ny)
    requires !(nx == x && ny == y) && !(nx == cx && ny == cy)
    requires (cx == x && cy == y) || CellAt(c, w, h, cx, cy) == CellAt(c, w, h, nx, ny)
    ensures var s := Swapped(c, w, h, x, y, cx, cy);
            Swapped(s, w, h, cx, cy, nx, ny) == Swapped(c, w, h, x, y, nx, ny)
  {
    RowMajorInRange(x, y, w, h);
    RowMajorInRange(cx, cy, w, h);
    RowMajorInRange(nx, ny, w, h);
    RowMajorDistinct(nx, ny, x, y, w);
    RowMajorDistinct(nx, ny, cx, cy, w);
    if !(cx == x && cy == y) {
      RowMajorDistinct(cx, cy, x, y, w);
    }
    SwapTwice(c, RowMajor(x, y, w), RowMajor(cx, cy, w), RowMajor(nx, ny, w));
  }

  /** `SwapAlong` on indexes: exchanging i with j and then j with k is
    * exchanging i with k when j holds what k holds (or is i). */
  lemma SwapTwice(c: seq<Cell>, i: nat, j: nat, k: nat)
    requires i < |c| && j < |c| && k < |c| && k != i && k != j && (j == i || c[j] == c[k])
    ensures var s := c[i := c[j]][j := c[i]];
            s[j := s[k]][k := s[j]] == c[i := c[k]][k := c[i]]
  {
    var s := c[i := c[j]][j := c[i]];
    var l, r := s[j := s[k]][k := s[j]], c[i := c[k]][k := c[i]];
    forall t | 0 <= t < |c|
      ensures l[t] == r[t]
    {
      if t == k {
        assert l[t] == s[j] == c[i];
      } else if t == j {
        assert l[t] == s[k] == c[k];
      } else if t == i {
        assert l[t] == s[i] == c[j];
      }
    }
  }

  /** A rock with an open cell ahead comes to rest where it would from
    * that cell. */
  lemma RestingPlaceOn(c: seq<Cell>, w: nat, h: nat, x: nat, y: nat, dx: int, dy: int)
    requires |c| == Mul(h, w) && Inside(w, h, x, y) && UnitStep(dx, dy) && Open(c, w, h, x + dx, y + dy)
    ensures RestingPlace(c, w, h, x, y, dx, dy) == RestingPlace(c, w, h, x + dx, y + dy, dx, dy)
  {
  }

  /** A rock with no open cell ahead stays where it is. */
  lemma RestingPlaceHere(c: seq<Cell>, w: nat, h: nat, x: nat, y: nat, dx: int, dy: int)
    requires |c| == Mul(h, w) && Inside(w, h, x, y) && UnitStep(dx, dy) && !Open(c, w, h, x + dx, y + dy)
    ensures RestingPlace(c, w, h, x, y, dx, dy) == (x, y)
  {
  }

  /** Whether the cell ahead of a rolling rock is open is the same before
    * and after the rock left its starting cell. */
  lemma OpenAhead(c: seq<Cell>, w: nat, h: nat, x: nat, y: nat, cx: nat, cy: nat, dx: int, dy: int)
    requires |c| == Mul(h, w) && Inside(w, h, x, y) && Inside(w, h, cx, cy) && UnitStep(dx, dy)
    requires OnRay(x, y, dx, dy, cx, cy)
    ensures Open(Swapped(c, w, h, x, y, cx, cy), w, h, cx + dx, cy + dy) == Open(c, w, h, cx + dx, cy + dy)
  {
    if Inside(w, h, cx + dx, cy + dy) {
      RayNotBack(x, y, dx, dy, cx, cy);
      SwappedElsewhere(c, w, h, x, y, cx, cy, cx + dx, cy + dy);
    }
  }

  /** The state of `move_cell`'s loop: the rock from (x, y) has rolled
    * along the ray to (cx, cy), over spaces, and the grid is the starting
    * grid with those two cells exchanged. */
  ghost predicate Rolling(c: seq<Cell>, w: nat, h: nat, x: nat, y: nat, dx: int, dy: int, cx: nat, cy: nat, now: seq<Cell>)
    requires |c| == Mul(h, w)
  {
    Inside(w, h, x, y) && Inside(w, h, cx, cy) && UnitStep(dx, dy) && OnRay(x, y, dx, dy, cx, cy) &&
    ((cx == x && cy == y) || CellAt(c, w, h, cx, cy) == Space) &&
    RestingPlace(c, w, h, cx, cy, dx, dy) == RestingPlace(c, w, h, x, y, dx, dy) &&
    now == Swapped(c, w, h, x, y, cx, cy)
  }

  /** One step of the roll: the rock moves on to the open cell ahead. */
  lemma RollOn(c: seq<Cell>, w: nat, h: nat, x: nat, y: nat, dx: int, dy: int, cx: nat, cy: nat, nx: nat, ny: nat,
               before: seq<Cell>, after: seq<Cell>)
    requires |c| == Mul(h, w) && Rolling(c, w, h, x, y, dx, dy, cx, cy, before)
    requires Open(c, w, h, cx + dx, cy + dy) && nx == cx + dx && ny == cy + dy
    requires after == Swapped(before, w, h, cx, cy, cx + dx, cy + dy)
    ensures Rolling(c, w, h, x, y, dx, dy, nx, ny, after)
  {
    RayNotBack(x, y, dx, dy, cx, cy);
    RestingPlaceOn(c, w, h, cx, cy, dx, dy);
    assert CellAt(c, w, h, nx, ny) == Space;
    SwapAlong(c, w, h, x, y, cx, cy, nx, ny);
    assert after == Swapped(c, w, h, x, y, nx, ny);
    assert OnRay(x, y, dx, dy, nx, ny);
  }

  /** The roll ends where the cell ahead is not open: the grid is then the
    * moved grid. */
  lemma RollEnds(c: seq<Cell>, w: nat, h: nat, x: nat, y: nat, dx: int, dy: int, cx: nat, cy: nat, now: seq<Cell>)
    requires |c| == Mul(h, w) && Rolling(c, w, h, x, y, dx, dy, cx, cy, now)
    requires CellAt(c, w, h, x, y) == RoundRock && !Open(c, w, h, cx + dx, cy + dy)
    ensures now == Moved(c, w, h, x, y, dx, dy)
  {
    RestingPlaceHere(c, w, h, cx, cy, dx, dy);
  }

  /** `move_cell`: only a round rock moves; it keeps stepping while
    * `try_moving_cell` moves it, and so ends where it comes to rest. */
  method MoveCell(grid: Cells<Cell>, x: nat, y: nat, dx: int, dy: int)
    requires grid.Valid() && grid.InBounds(x, y) && UnitStep(dx, dy)
    modifies grid
    ensures grid.Valid() && grid.width == old(grid.width) && grid.height == old(grid.height)
    ensures grid.contents == Moved(old(grid.contents), grid.width, grid.height, x, y, dx, dy)
  {
    var cell := grid.Get(x, y).value;
    if cell != RoundRock {
      return;
    }
    ghost var c0 := grid.contents;
    ghost var w, h := grid.width, grid.height;
    var currentX: nat, currentY: nat := x, y;
    SwapKeepsOthers(c0, w, x, y, x, y);
    while true
      invariant grid.Valid() && grid.width == w && grid.height == h
      invariant Rolling(c0, w, h, x, y, dx, dy, currentX, currentY, grid.contents)
      decreases Room(w, h, currentX, currentY, dx, dy)
    {
      ghost var before := grid.contents;
      OpenAhead(c0, w, h, x, y, currentX, currentY, dx, dy);
      var moved := TryMovingCell(grid, currentX, currentY, dx, dy);
      if !moved {
        RollEnds(c0, w, h, x, y, dx, dy, currentX, currentY, grid.contents);
        break;
      }
      var nextX: nat, nextY: nat := currentX + dx, currentY + dy;
      RollOn(c0, w, h, x, y, dx, dy, currentX, currentY, nextX, nextY, before, grid.contents);
      currentX, currentY := nextX, nextY;
    }
  }

  // ---------------------------------------------------------------------
  // Stretches between cube rocks

  /** Whether a tilt in direction `d` rolls the rocks along the columns. */
  function Vertical(d: Direction): bool {
    d == North || d == South
  }

  /** Line k of the grid along one axis: column k, from the top, when
    * vertical; row k, from the left, otherwise. */
  function Line(c: seq<Cell>, w: nat, h: nat, vertical: bool, k: nat): (r: seq<Cell>)
    requires |c| == Mul(h, w) && k < (if vertical then w else h)
    ensures |r| == (if vertical then h else w)
    ensures vertical ==> forall i | 0 <= i < h :: r[i] == CellAt(c, w, h, k, i)
    ensures !vertical ==> forall i | 0 <= i < w :: r[i] == CellAt(c, w, h, i, k)
  {
    if vertical then seq(h, i requires 0 <= i < h => CellAt(c, w, h, k, i))
    else seq(w, i requires 0 <= i < w => CellAt(c, w, h, i, k))
  }

  /** [a, b) is a stretch of `l` bounded by cube rocks: the cells at a - 1
    * and at b are cube rocks or lie past the ends. */
  predicate CubeBounded(l: seq<Cell>, a: int, b: int) {
    0 <= a <= b <= |l| && (a == 0 || l[a - 1] == CubeRock) && (b == |l| || l[b] == CubeRock)
  }

  /** `l` has the cube rocks of `l0` in the same places, and every stretch
    * bounded by them holds the same cells as in `l0`: no round rock leaves
    * the stretch it lies in. */
  ghost predicate SameStretches(l0: seq<Cell>, l: seq<Cell>) {
    |l| == |l0| &&
    (forall t | 0 <= t < |l0| :: (l[t] == CubeRock) == (l0[t] == CubeRock)) &&
    forall a, b | CubeBounded(l0, a, b) :: multiset(l[a..b]) == multiset(l0[a..b])
  }

  /** Every line along the axis keeps its stretches. */
  ghost predicate KeepsStretches(c0: seq<Cell>, c: seq<Cell>, w: nat, h: nat, vertical: bool)
    requires |c0| == Mul(h, w) && |c| == Mul(h, w)
  {
    forall k | 0 <= k < (if vertical then w else h) ::
      SameStretches(Line(c0, w, h, vertical, k), Line(c, w, h, vertical, k))
  }

  lemma SameStretchesRefl(l: seq<Cell>)
    ensures SameStretches(l, l)
  {
  }

  lemma SameStretchesTrans(l0: seq<Cell>, l1: seq<Cell>, l2: seq<Cell>)
    requires SameStretches(l0, l1) && SameStretches(l1, l2)
    ensures SameStretches(l0, l2)
  {
    forall a, b | CubeBounded(l0, a, b)
      ensures multiset(l2[a..b]) == multiset(l0[a..b])
    {
      assert CubeBounded(l1, a, b);
    }
  }

  lemma KeepsStretchesRefl(c: seq<Cell>, w: nat, h: nat, vertical: bool)
    requires |c| == Mul(h, w)
    ensures KeepsStretches(c, c, w, h, vertical)
  {
    forall k | 0 <= k < (if vertical then w else h)
      ensures SameStretches(Line(c, w, h, vertical, k), Line(c, w, h, vertical, k))
    {
      SameStretchesRefl(Line(c, w, h, vertical, k));
    }
  }

  lemma KeepsStretchesTrans(c0: seq<Cell>, c1: seq<Cell>, c2: seq<Cell>, w: nat, h: nat, vertical: bool)
    requires |c0| == Mul(h, w) && |c1| == Mul(h, w) && |c2| == Mul(h, w)
    requires KeepsStretches(c0, c1, w, h, vertical) && KeepsStretches(c1, c2, w, h, vertical)
    ensures KeepsStretches(c0, c2, w, h, vertical)
  {
    forall k | 0 <= k < (if vertical then w else h)
      ensures SameStretches(Line(c0, w, h, vertical, k), Line(c2, w, h, vertical, k))
    {
      SameStretchesTrans(Line(c0, w, h, vertical, k), Line(c1, w, h, vertical, k), Line(c2, w, h, vertical, k));
    }
  }

  /** `l` with the cells at i and j exchanged. */
  function Swap(l: seq<Cell>, i: nat, j: nat): (r: seq<Cell>)
    requires i < |l| && j < |l|
    ensures |r| == |l| && multiset(r) == multiset(l)
  {
    l[i := l[j]][j := l[i]]
  }

  /** Exchanging two cells with no cube rock from one to the other keeps
    * every stretch. */
  lemma SwapKeepsStretches(l: seq<Cell>, i: nat, j: nat)
    requires i < |l| && j < |l|
    requires forall t | i <= t <= j || j <= t <= i :: l[t] != CubeRock
    ensures SameStretches(l, Swap(l, i, j))
  {
    var s := Swap(l, i, j);
    forall a, b | CubeBounded(l, a, b)
      ensures multiset(s[a..b]) == multiset(l[a..b])
    {
      if a <= i < b {
        assert a <= j < b;
        assert s[a..b] == Swap(l[a..b], i - a, j - a);
      } else {
        assert !(a <= j < b);
        assert s[a..b] == l[a..b];
      }
    }
  }

  /** t lies beyond p in the direction dp, up to r. */
  predicate Ahead(p: int, dp: int, t: int, r: int) {
    if dp > 0 then p < t <= r else r <= t < p
  }

  /** A rolling rock passes over spaces only, along its own line. */
  lemma {:induction false} RestingPath(c: seq<Cell>, w: nat, h: nat, x: nat, y: nat, dx: int, dy: int)
    requires |c| == Mul(h, w) && Inside(w, h, x, y) && UnitStep(dx, dy)
    ensures var e := RestingPlace(c, w, h, x, y, dx, dy);
            dx == 0 ==> e.0 == x && forall t: nat | t < h && Ahead(y, dy, t, e.1) :: CellAt(c, w, h, x, t) == Space
    ensures var e := RestingPlace(c, w, h, x, y, dx, dy);
            dy == 0 ==> e.1 == y && forall t: nat | t < w && Ahead(x, dx, t, e.0) :: CellAt(c, w, h, t, y) == Space
    decreases Room(w, h, x, y, dx, dy)
  {
    if Open(c, w, h, x + dx, y + dy) {
      RestingPath(c, w, h, x + dx, y + dy, dx, dy);
    }
  }

  /** Exchanging two cells of column k exchanges them in that column and
    * leaves the other columns alone. */
  lemma ColumnSwapped(c: seq<Cell>, w: nat, h: nat, k: nat, i: nat, j: nat)
    requires |c| == Mul(h, w) && k < w && i < h && j < h
    ensures Line(Swapped(c, w, h, k, i, k, j), w, h, true, k) == Swap(Line(c, w, h, true, k), i, j)
    ensures forall k' | 0 <= k' < w && k' != k ::
              Line(Swapped(c, w, h, k, i, k, j), w, h, true, k') == Line(c, w, h, true, k')
  {
    var s := Swapped(c, w, h, k, i, k, j);
    SwappedEnds(c, w, h, k, i, k, j);
    forall t | 0 <= t < h && t != i && t != j
      ensures CellAt(s, w, h, k, t) == CellAt(c, w, h, k, t)
    {
      SwappedElsewhere(c, w, h, k, i, k, j, k, t);
    }
    forall k', t | 0 <= k' < w && k' != k && 0 <= t < h
      ensures CellAt(s, w, h, k', t) == CellAt(c, w, h, k', t)
    {
      SwappedElsewhere(c, w, h, k, i, k, j, k', t);
    }
  }

  /** Exchanging two cells of row k exchanges them in that row and leaves
    * the other rows alone. */
  lemma RowSwapped(c: seq<Cell>, w: nat, h: nat, k: nat, i: nat, j: nat)
    requires |c| == Mul(h, w) && k < h && i < w && j < w
    ensures Line(Swapped(c, w, h, i, k, j, k), w, h, false, k) == Swap(Line(c, w, h, false, k), i, j)
    ensures forall k' | 0 <= k' < h && k' != k ::
              Line(Swapped(c, w, h, i, k, j, k), w, h, false, k') == Line(c, w, h, false, k')
  {
    var s := Swapped(c, w, h, i, k, j, k);
    SwappedEnds(c, w, h, i, k, j, k);
    forall t | 0 <= t < w && t != i && t != j
      ensures CellAt(s, w, h, t, k) == CellAt(c, w, h, t, k)
    {
      SwappedElsewhere(c, w, h, i, k, j, k, t, k);
    }
    forall k', t | 0 <= k' < h && k' != k && 0 <= t < w
      ensures CellAt(s, w, h, t, k') == CellAt(c, w, h, t, k')
    {
      SwappedElsewhere(c, w, h, i, k, j, k, t, k');
    }
  }

  /** Moving a cell keeps every stretch along the axis of the step: a
    * round rock rolls over spaces only, so it stays in its stretch. */
  lemma MovedStretches(c: seq<Cell>, w: nat, h: nat, x: nat, y: nat, dx: int, dy: int)
    requires |c| == Mul(h, w) && Inside(w, h, x, y) && UnitStep(dx, dy)
    ensures KeepsStretches(c, Moved(c, w, h, x, y, dx, dy), w, h, dx == 0)
  {
    if CellAt(c, w, h, x, y) != RoundRock {
      KeepsStretchesRefl(c, w, h, dx == 0);
    } else {
      var e := RestingPlace(c, w, h, x, y, dx, dy);
      RestingPath(c, w, h, x, y, dx, dy);
      RestingPlaceStops(c, w, h, x, y, dx, dy);
      if dx == 0 {
        ColumnStretches(c, w, h, x, y, e.1, dy);
      } else {
        RowStretches(c, w, h, y, x, e.0, dx);
      }
    }
  }

  /** The column half of `MovedStretches`: the rock at row i of column k
    * rolls to row j over spaces. */
  lemma ColumnStretches(c: seq<Cell>, w: nat, h: nat, k: nat, i: nat, j: nat, d: int)
    requires |c| == Mul(h, w) && k < w && i < h && j < h && (d == 1 || d == -1)
    requires CellAt(c, w, h, k, i) == RoundRock && (if d > 0 then i <= j else j <= i)
    requires forall t: nat | t < h && Ahead(i, d, t, j) :: CellAt(c, w, h, k, t) == Space
    ensures KeepsStretches(c, Swapped(c, w, h, k, i, k, j), w, h, true)
  {
    var s := Swapped(c, w, h, k, i, k, j);
    ColumnSwapped(c, w, h, k, i, j);
    var l := Line(c, w, h, true, k);
    forall t | i <= t <= j || j <= t <= i
      ensures l[t] != CubeRock
    {
      if t != i {
        assert Ahead(i, d, t, j);
      }
    }
    SwapKeepsStretches(l, i, j);
    forall k' | 0 <= k' < w
      ensures SameStretches(Line(c, w, h, true, k'), Line(s, w, h, true, k'))
    {
      if k' != k {
        SameStretchesRefl(Line(c, w, h, true, k'));
      }
    }
  }

  /** The row half of `MovedStretches`. */
  lemma RowStretches(c: seq<Cell>, w: nat, h: nat, k: nat, i: nat, j: nat, d: int)
    requires |c| == Mul(h, w) && k < h && i < w && j < w && (d == 1 || d == -1)
    requires CellAt(c, w, h, i, k) == RoundRock && (if d > 0 then i <= j else j <= i)
    requires forall t: nat | t < w && Ahead(i, d, t, j) :: CellAt(c, w, h, t, k) == Space
    ensures KeepsStretches(c, Swapped(c, w, h, i, k, j, k), w, h, false)
  {
    var s := Swapped(c, w, h, i, k, j, k);
    RowSwapped(c, w, h, k, i, j);
    var l := Line(c, w, h, false, k);
    forall t | i <= t <= j || j <= t <= i
      ensures l[t] != CubeRock
    {
      if t != i {
        assert Ahead(i, d, t, j);
      }
    }
    SwapKeepsStretches(l, i, j);
    forall k' | 0 <= k' < h
      ensures SameStretches(Line(c, w, h, false, k'), Line(s, w, h, false, k'))
    {
      if k' != k {
        SameStretchesRefl(Line(c, w, h, false, k'));
      }
    }
  }

  // ---------------------------------------------------------------------
  // A tilt determines the grid

  /** A tilt from `c0` to `c` in direction `d`: the cube rocks stay, every
    * stretch along the direction's axis keeps its cells, and no round rock
    * has an open cell in front of it. */
  ghost predicate TiltedTo(c0: seq<Cell>, c: seq<Cell>, w: nat, h: nat, d: Direction)
    requires |c0| == Mul(h, w) && |c| == Mul(h, w)
  {
    SameCubes(c, c0) && KeepsStretches(c0, c, w, h, Vertical(d)) && Settled(c, w, h, Delta(d).0, Delta(d).1)
  }

  /** No round rock of the line has a space next to it on the side the
    * rocks roll to: index 0 when `front`, the end otherwise. */
  predicate LineSettled(l: seq<Cell>, front: bool) {
    if front then forall t | 0 < t < |l| :: l[t] == RoundRock ==> l[t - 1] != Space
    else forall t | 0 <= t < |l| - 1 :: l[t] == RoundRock ==> l[t + 1] != Space
  }

  /** A settled grid has settled lines along the direction's axis. */
  lemma SettledLines(c: seq<Cell>, w: nat, h: nat, d: Direction)
    requires |c| == Mul(h, w) && Settled(c, w, h, Delta(d).0, Delta(d).1)
    ensures forall k | 0 <= k < (if Vertical(d) then w else h) ::
              LineSettled(Line(c, w, h, Vertical(d), k), d == North || d == West)
  {
    var (dx, dy) := Delta(d);
    forall k | 0 <= k < (if Vertical(d) then w else h)
      ensures LineSettled(Line(c, w, h, Vertical(d), k), d == North || d == West)
    {
      var l := Line(c, w, h, Vertical(d), k);
      forall t | 0 <= t < |l| && l[t] == RoundRock
        ensures 0 <= t + dx + dy < |l| ==> l[t + dx + dy] != Space
      {
        if Vertical(d) {
          assert RockAt(c, w, h, k, t);
        } else {
          assert RockAt(c, w, h, t, k);
        }
      }
    }
  }

  /** The start of the run of cells other than cube rocks that ends at t. */
  function SegStart(l: seq<Cell>, t: nat): (s: nat)
    requires t <= |l|
    ensures s <= t && (s == 0 || l[s - 1] == CubeRock) && forall i | s <= i < t :: l[i] != CubeRock
  {
    if t == 0 || l[t - 1] == CubeRock then t else SegStart(l, t - 1)
  }

  /** The end of the run of cells other than cube rocks that starts at t. */
  function SegEnd(l: seq<Cell>, t: nat): (e: nat)
    requires t <= |l|
    ensures t <= e <= |l| && (e == |l| || l[e] == CubeRock) && forall i | t <= i < e :: l[i] != CubeRock
    decreases |l| - t
  {
    if t == |l| || l[t] == CubeRock then t else SegEnd(l, t + 1)
  }

  /** Every cell of `u` is `a` or `b`. */
  predicate TwoKinds(u: seq<Cell>, a: Cell, b: Cell) {
    forall t | 0 <= t < |u| :: u[t] == a || u[t] == b
  }

  /** Before every `a` there is an `a`: the a's come first. */
  predicate Packed(u: seq<Cell>, a: Cell) {
    forall t | 0 < t < |u| :: u[t] == a ==> u[t - 1] == a
  }

  lemma {:induction false} PackedBelow(u: seq<Cell>, a: Cell, t: nat)
    requires Packed(u, a) && t < |u| && u[t] == a
    ensures forall i | 0 <= i <= t :: u[i] == a
  {
    if t > 0 {
      PackedBelow(u, a, t - 1);
    }
  }

  lemma {:induction false} CountAll(u: seq<Cell>, a: Cell)
    requires forall t | 0 <= t < |u| :: u[t] == a
    ensures multiset(u)[a] == |u|
  {
    if u != [] {
      var front := u[..|u| - 1];
      assert u == front + [u[|u| - 1]];
      CountAll(front, a);
    }
  }

  lemma {:induction false} CountAtMost(u: seq<Cell>, a: Cell)
    ensures multiset(u)[a] <= |u|
  {
    if u != [] {
      var front := u[..|u| - 1];
      assert u == front + [u[|u| - 1]];
      CountAtMost(front, a);
    }
  }

  /** In a packed line of two kinds, the a's are exactly the first
    * `multiset(u)[a]` cells. */
  lemma {:induction false} PackedCount(u: seq<Cell>, a: Cell, b: Cell)
    requires a != b && TwoKinds(u, a, b) && Packed(u, a)
    ensures forall t | 0 <= t < |u| :: u[t] == a <==> t < multiset(u)[a]
  {
    if u != [] {
      var n := |u|;
      var front := u[..n - 1];
      assert u == front + [u[n - 1]];
      if u[n - 1] == a {
        PackedBelow(u, a, n - 1);
        CountAll(u, a);
      } else {
        assert TwoKinds(front, a, b) && Packed(front, a);
        PackedCount(front, a, b);
        CountAtMost(front, a);
        assert multiset(u)[a] == multiset(front)[a];
        forall t | 0 <= t < n
          ensures u[t] == a <==> t < multiset(u)[a]
        {
          if t < n - 1 {
            assert u[t] == front[t];
          }
        }
      }
    }
  }

  /** Two packed lines of two kinds holding the same cells are equal. */
  lemma PackedUnique(u: seq<Cell>, v: seq<Cell>, a: Cell, b: Cell)
    requires a != b && TwoKinds(u, a, b) && TwoKinds(v, a, b) && Packed(u, a) && Packed(v, a)
    requires multiset(u) == multiset(v)
    ensures u == v
  {
    assert |u| == |multiset(u)| == |multiset(v)| == |v|;
    PackedCount(u, a, b);
    PackedCount(v, a, b);
    forall t | 0 <= t < |u|
      ensures u[t] == v[t]
    {
      assert u[t] == a <==> v[t] == a;
    }
  }

  /** A run of a settled line free of cube rocks is packed: round rocks
    * first when the rocks roll to the front, spaces first otherwise. */
  lemma RunPacked(l0: seq<Cell>, l: seq<Cell>, s: nat, e: nat, front: bool)
    requires SameStretches(l0, l) && LineSettled(l, front) && s <= e <= |l0|
    requires forall i | s <= i < e :: l0[i] != CubeRock
    ensures var a, b := if front then RoundRock else Space, if front then Space else RoundRock;
            TwoKinds(l[s..e], a, b) && Packed(l[s..e], a)
  {
    var u := l[s..e];
    forall t | 0 <= t < |u|
      ensures u[t] != CubeRock
    {
      assert u[t] == l[s + t];
    }
    if front {
      forall t | 0 < t < |u| && u[t] == RoundRock
        ensures u[t - 1] == RoundRock
      {
        assert u[t] == l[s + t] && u[t - 1] == l[s + t - 1];
      }
    } else {
      forall t | 0 < t < |u| && u[t] == Space
        ensures u[t - 1] == Space
      {
        assert u[t] == l[s + t] && u[t - 1] == l[s + t - 1];
      }
    }
  }

  /** Two lines that keep the stretches of `l0` and are settled the same
    * way are the same line: each run between cube rocks holds its rocks
    * packed at one end. */
  lemma LineDetermined(l0: seq<Cell>, l1: seq<Cell>, l2: seq<Cell>, front: bool)
    requires SameStretches(l0, l1) && SameStretches(l0, l2) && LineSettled(l1, front) && LineSettled(l2, front)
    ensures l1 == l2
  {
    forall t | 0 <= t < |l0|
      ensures l1[t] == l2[t]
    {
      if l0[t] != CubeRock {
        var s, e := SegStart(l0, t), SegEnd(l0, t);
        assert CubeBounded(l0, s, e);
        var a, b := if front then RoundRock else Space, if front then Space else RoundRock;
        RunPacked(l0, l1, s, e, front);
        RunPacked(l0, l2, s, e, front);
        PackedUnique(l1[s..e], l2[s..e], a, b);
        assert l1[t] == l1[s..e][t - s];
      }
    }
  }

  /** Grids whose lines along one axis agree are equal. */
  lemma LinesDetermineGrid(a: seq<Cell>, b: seq<Cell>, w: nat, h: nat, vertical: bool)
    requires |a| == Mul(h, w) && |b| == Mul(h, w)
    requires forall k | 0 <= k < (if vertical then w else h) :: Line(a, w, h, vertical, k) == Line(b, w, h, vertical, k)
    ensures a == b
  {
    forall i | 0 <= i < |a|
      ensures a[i] == b[i]
    {
      RowMajorDecode(i, w, h);
      var x, y := i % w, i / w;
      if vertical {
        assert Line(a, w, h, true, x)[y] == Line(b, w, h, true, x)[y];
      } else {
        assert Line(a, w, h, false, y)[x] == Line(b, w, h, false, y)[x];
      }
    }
  }

  /** A tilt has one outcome: two grids that both tilt from `c0` in
    * direction `d` are the same grid. */
  lemma TiltDetermined(c0: seq<Cell>, a: seq<Cell>, b: seq<Cell>, w: nat, h: nat, d: Direction)
    requires |c0| == Mul(h, w) && |a| == Mul(h, w) && |b| == Mul(h, w)
    requires TiltedTo(c0, a, w, h, d) && TiltedTo(c0, b, w, h, d)
    ensures a == b
  {
    SettledLines(a, w, h, d);
    SettledLines(b, w, h, d);
    forall k | 0 <= k < (if Vertical(d) then w else h)
      ensures Line(a, w, h, Vertical(d), k) == Line(b, w, h, Vertical(d), k)
    {
      LineDetermined(Line(c0, w, h, Vertical(d), k), Line(a, w, h, Vertical(d), k), Line(b, w, h, Vertical(d), k),
                     d == North || d == West);
    }
    LinesDetermineGrid(a, b, w, h, Vertical(d));
  }

  /** Tilting `..` over `OO` north can only give `OO` over `..`. */
  lemma TiltNorthExample(c: seq<Cell>)
    requires |c| == Mul(2, 2) && TiltedTo([Space, Space, RoundRock, RoundRock], c, 2, 2, North)
    ensures c == [RoundRock, RoundRock, Space, Space]
  {
    var c0, e := [Space, Space, RoundRock, RoundRock], [RoundRock, RoundRock, Space, Space];
    SettledLines(c, 2, 2, North);
    forall k | 0 <= k < 2
      ensures Line(c, 2, 2, true, k) == Line(e, 2, 2, true, k)
    {
      var l0, l := Line(c0, 2, 2, true, k), Line(c, 2, 2, true, k);
      assert l0 == [Space, RoundRock] && Line(e, 2, 2, true, k) == [RoundRock, Space] by {
        RowMajorInRange(k, 1, 2, 2);
      }
      assert CubeBounded(l0, 0, 2);
      assert l[0..2] == l && l0[0..2] == l0;
      assert multiset(l) == multiset{Space, RoundRock};
      assert l[0] in multiset(l) && l[1] in multiset(l);
    }
    LinesDetermineGrid(c, e, 2, 2, true);
  }

  // ---------------------------------------------------------------------
  // Tilting the grid

  /** The two orders the tilts visit the cells in. */
  datatype Scan = FromTopLeft | FromBottomRight

  /** (x, y) is visited before the cursor (cx, cy): row by row from the
    * top, left to right, or from the bottom, right to left, where for the
    * latter the cursor is the last cell visited. */
  predicate ScannedBefore(scan: Scan, x: int, y: int, cx: int, cy: int) {
    match scan
    case FromTopLeft => y < cy || (y == cy && x < cx)
    case FromBottomRight => y > cy || (y == cy && x >= cx)
  }

  /** The cursor before and after visiting column `x` of a row. */
  function CursorBefore(scan: Scan, x: int): int {
    match scan
    case FromTopLeft => x
    case FromBottomRight => x + 1
  }

  function CursorAfter(scan: Scan, x: int): int {
    match scan
    case FromTopLeft => x + 1
    case FromBottomRight => x
  }

  /** The step heads towards the start of the scan, so the cell a rock
    * rolls into has been visited already. */
  predicate Towards(scan: Scan, dx: int, dy: int) {
    match scan
    case FromTopLeft => (dx, dy) == (0, -1) || (dx, dy) == (-1, 0)
    case FromBottomRight => (dx, dy) == (1, 0) || (dx, dy) == (0, 1)
  }

  /** A round rock lies at (x, y). */
  predicate RockAt(c: seq<Cell>, w: nat, h: nat, x: nat, y: nat)
    requires |c| == Mul(h, w) && x < w && y < h
  {
    CellAt(c, w, h, x, y) == RoundRock
  }

  /** Every round rock in a visited cell has no open cell in front of it. */
  predicate SettledBefore(c: seq<Cell>, w: nat, h: nat, dx: int, dy: int, scan: Scan, cx: int, cy: int)
    requires |c| == Mul(h, w)
  {
    forall x: nat, y: nat | x < w && y < h && ScannedBefore(scan, x, y, cx, cy) && RockAt(c, w, h, x, y) ::
      !Open(c, w, h, x + dx, y + dy)
  }

  /** Tilted: no round rock has an open cell in front of it. */
  predicate Settled(c: seq<Cell>, w: nat, h: nat, dx: int, dy: int)
    requires |c| == Mul(h, w)
  {
    forall x: nat, y: nat | x < w && y < h && RockAt(c, w, h, x, y) ::
      !Open(c, w, h, x + dx, y + dy)
  }

  /** Rolling the rock at the cursor keeps every visited rock settled and
    * settles the cursor's cell too. */
  lemma MoveSettles(c: seq<Cell>, w: nat, h: nat, dx: int, dy: int, scan: Scan, x: nat, y: nat)
    requires |c| == Mul(h, w) && Inside(w, h, x, y) && UnitStep(dx, dy) && Towards(scan, dx, dy)
    requires SettledBefore(c, w, h, dx, dy, scan, CursorBefore(scan, x), y)
    ensures SettledBefore(Moved(c, w, h, x, y, dx, dy), w, h, dx, dy, scan, CursorAfter(scan, x), y)
  {
    var m := Moved(c, w, h, x, y, dx, dy);
    if CellAt(c, w, h, x, y) == RoundRock {
      var e := RestingPlace(c, w, h, x, y, dx, dy);
      RestingPlaceStops(c, w, h, x, y, dx, dy);
      forall qx: nat, qy: nat | qx < w && qy < h && ScannedBefore(scan, qx, qy, CursorAfter(scan, x), y) && RockAt(m, w, h, qx, qy)
        ensures !Open(m, w, h, qx + dx, qy + dy)
      {
        MovedRockBlocked(c, w, h, dx, dy, scan, x, y, e.0, e.1, qx, qy);
      }
    }
  }

  /** One rock of `MoveSettles`, after a round rock at (x, y) has rolled to
    * (ex, ey). */
  lemma MovedRockBlocked(c: seq<Cell>, w: nat, h: nat, dx: int, dy: int, scan: Scan, x: nat, y: nat,
                         ex: nat, ey: nat, qx: nat, qy: nat)
    requires |c| == Mul(h, w) && Inside(w, h, x, y) && UnitStep(dx, dy) && Towards(scan, dx, dy)
    requires CellAt(c, w, h, x, y) == RoundRock
    requires ex < w && ey < h && OnRay(x, y, dx, dy, ex, ey) && !Open(c, w, h, ex + dx, ey + dy)
    requires (ex == x && ey == y) || CellAt(c, w, h, ex, ey) == Space
    requires SettledBefore(c, w, h, dx, dy, scan, CursorBefore(scan, x), y)
    requires qx < w && qy < h && ScannedBefore(scan, qx, qy, CursorAfter(scan, x), y)
    requires RockAt(Swapped(c, w, h, x, y, ex, ey), w, h, qx, qy)
    ensures !Open(Swapped(c, w, h, x, y, ex, ey), w, h, qx + dx, qy + dy)
  {
    var m := Swapped(c, w, h, x, y, ex, ey);
    SwappedEnds(c, w, h, x, y, ex, ey);
    var nx, ny := qx + dx, qy + dy;
    if Inside(w, h, nx, ny) {
      if qx == ex && qy == ey {
        RayNotBack(x, y, dx, dy, ex, ey);
        SwappedElsewhere(c, w, h, x, y, ex, ey, nx, ny);
        assert !Open(m, w, h, nx, ny);
      } else if !(nx == ex && ny == ey) {
        assert !(qx == x && qy == y);
        SwappedElsewhere(c, w, h, x, y, ex, ey, qx, qy);
        assert RockAt(c, w, h, qx, qy);
        AfterMeansBefore(scan, qx, qy, x, y);
        BehindNotVisited(scan, dx, dy, qx, qy, x, y);
        SettledAt(c, w, h, dx, dy, scan, CursorBefore(scan, x), y, qx, qy);
        SwappedElsewhere(c, w, h, x, y, ex, ey, nx, ny);
        assert !Open(m, w, h, nx, ny);
      } else {
        assert !Open(m, w, h, nx, ny);
      }
    } else {
      assert !Open(m, w, h, nx, ny);
    }
  }

  /** The settled rocks, one at a time. */
  lemma SettledAt(c: seq<Cell>, w: nat, h: nat, dx: int, dy: int, scan: Scan, cx: int, cy: int, qx: nat, qy: nat)
    requires |c| == Mul(h, w) && qx < w && qy < h
    requires SettledBefore(c, w, h, dx, dy, scan, cx, cy)
    requires ScannedBefore(scan, qx, qy, cx, cy) && RockAt(c, w, h, qx, qy)
    ensures !Open(c, w, h, qx + dx, qy + dy)
  {
  }

  /** A rock never rolls back onto the cell it started from. */
  lemma RayNotBack(x: int, y: int, dx: int, dy: int, ex: int, ey: int)
    requires UnitStep(dx, dy) && OnRay(x, y, dx, dy, ex, ey)
    ensures !(ex + dx == x && ey + dy == y)
  {
  }

  /** A cell visited once the cursor has passed (x, y), other than (x, y),
    * was visited before it. */
  lemma AfterMeansBefore(scan: Scan, qx: int, qy: int, x: int, y: int)
    requires ScannedBefore(scan, qx, qy, CursorAfter(scan, x), y) && !(qx == x && qy == y)
    ensures ScannedBefore(scan, qx, qy, CursorBefore(scan, x), y)
  {
  }

  /** The cell behind (x, y), against a step towards the scan's start, is
    * not yet visited when the cursor has just passed (x, y). */
  lemma BehindNotVisited(scan: Scan, dx: int, dy: int, qx: int, qy: int, x: int, y: int)
    requires Towards(scan, dx, dy) && ScannedBefore(scan, qx, qy, CursorAfter(scan, x), y)
    ensures !(qx + dx == x && qy + dy == y)
  {
  }

  /** A whole row visited from the top left is the start of the next row. */
  lemma TopLeftRowDone(c: seq<Cell>, w: nat, h: nat, dx: int, dy: int, y: nat)
    requires |c| == Mul(h, w)
    requires SettledBefore(c, w, h, dx, dy, FromTopLeft, w, y)
    ensures SettledBefore(c, w, h, dx, dy, FromTopLeft, 0, y + 1)
  {
    forall qx: nat, qy: nat | qx < w && qy < h && ScannedBefore(FromTopLeft, qx, qy, 0, y + 1) && RockAt(c, w, h, qx, qy)
      ensures !Open(c, w, h, qx + dx, qy + dy)
    {
      assert ScannedBefore(FromTopLeft, qx, qy, w, y);
    }
  }

  /** The rows below the one about to be visited from the bottom right are
    * done up to the row's right end. */
  lemma BottomRightRowStart(c: seq<Cell>, w: nat, h: nat, dx: int, dy: int, y: nat)
    requires |c| == Mul(h, w)
    requires SettledBefore(c, w, h, dx, dy, FromBottomRight, 0, y + 1)
    ensures SettledBefore(c, w, h, dx, dy, FromBottomRight, w, y)
  {
    forall qx: nat, qy: nat | qx < w && qy < h && ScannedBefore(FromBottomRight, qx, qy, w, y) && RockAt(c, w, h, qx, qy)
      ensures !Open(c, w, h, qx + dx, qy + dy)
    {
      assert ScannedBefore(FromBottomRight, qx, qy, 0, y + 1);
    }
  }

  /** `tilt_grid_from_top_left`: every cell is moved, row by row from the
    * top, each row from the left. The cells are only rearranged, the cube
    * rocks stay, and when the step heads north or west every round rock
    * ends with no open cell in front of it. */
  method TiltFromTopLeft(grid: Cells<Cell>, dx: int, dy: int)
    requires grid.Valid() && UnitStep(dx, dy)
    modifies grid
    ensures grid.Valid() && grid.width == old(grid.width) && grid.height == old(grid.height)
    ensures multiset(grid.contents) == multiset(old(grid.contents))
    ensures SameCubes(grid.contents, old(grid.contents))
    ensures Towards(FromTopLeft, dx, dy) ==> Settled(grid.contents, grid.width, grid.height, dx, dy)
    ensures KeepsStretches(old(grid.contents), grid.contents, grid.width, grid.height, dx == 0)
  {
    ghost var c0 := grid.contents;
    ghost var w, h := grid.width, grid.height;
    KeepsStretchesRefl(c0, w, h, dx == 0);
    for y := 0 to grid.height
      invariant grid.Valid() && grid.width == w && grid.height == h
      invariant multiset(grid.contents) == multiset(c0) && SameCubes(grid.contents, c0)
      invariant KeepsStretches(c0, grid.contents, w, h, dx == 0)
      invariant Towards(FromTopLeft, dx, dy) ==> SettledBefore(grid.contents, w, h, dx, dy, FromTopLeft, 0, y)
    {
      for x := 0 to grid.width
        invariant grid.Valid() && grid.width == w && grid.height == h
        invariant multiset(grid.contents) == multiset(c0) && SameCubes(grid.contents, c0)
        invariant KeepsStretches(c0, grid.contents, w, h, dx == 0)
        invariant Towards(FromTopLeft, dx, dy) ==> SettledBefore(grid.contents, w, h, dx, dy, FromTopLeft, x, y)
      {
        ghost var before := grid.contents;
        MoveCell(grid, x, y, dx, dy);
        MovedKeeps(before, w, h, x, y, dx, dy);
        MovedStretches(before, w, h, x, y, dx, dy);
        KeepsStretchesTrans(c0, before, grid.contents, w, h, dx == 0);
        if Towards(FromTopLeft, dx, dy) {
          MoveSettles(before, w, h, dx, dy, FromTopLeft, x, y);
        }
      }
      if Towards(FromTopLeft, dx, dy) {
        TopLeftRowDone(grid.contents, w, h, dx, dy, y);
      }
    }
  }

  /** `tilt_grid_from_bottom_right`: every cell is moved, row by row from
    * the bottom, each row from the right. The cells are only rearranged,
    * the cube rocks stay, and when the step heads east or south every
    * round rock ends with no open cell in front of it. */
  method TiltFromBottomRight(grid: Cells<Cell>, dx: int, dy: int)
    requires grid.Valid() && UnitStep(dx, dy)
    modifies grid
    ensures grid.Valid() && grid.width == old(grid.width) && grid.height == old(grid.height)
    ensures multiset(grid.contents) == multiset(old(grid.contents))
    ensures SameCubes(grid.contents, old(grid.contents))
    ensures Towards(FromBottomRight, dx, dy) ==> Settled(grid.contents, grid.width, grid.height, dx, dy)
    ensures KeepsStretches(old(grid.contents), grid.contents, grid.width, grid.height, dx == 0)
  {
    ghost var c0 := grid.contents;
    ghost var w, h := grid.width, grid.height;
    KeepsStretchesRefl(c0, w, h, dx == 0);
    for y := grid.height downto 0
      invariant grid.Valid() && grid.width == w && grid.height == h
      invariant multiset(grid.contents) == multiset(c0) && SameCubes(grid.contents, c0)
      invariant KeepsStretches(c0, grid.contents, w, h, dx == 0)
      invariant Towards(FromBottomRight, dx, dy) ==> SettledBefore(grid.contents, w, h, dx, dy, FromBottomRight, 0, y)
    {
      if Towards(FromBottomRight, dx, dy) {
        BottomRightRowStart(grid.contents, w, h, dx, dy, y);
      }
      for x := grid.width downto 0
        invariant grid.Valid() && grid.width == w && grid.height == h
        invariant multiset(grid.contents) == multiset(c0) && SameCubes(grid.contents, c0)
        invariant KeepsStretches(c0, grid.contents, w, h, dx == 0)
        invariant Towards(FromBottomRight, dx, dy) ==> SettledBefore(grid.contents, w, h, dx, dy, FromBottomRight, x, y)
      {
        ghost var before := grid.contents;
        MoveCell(grid, x, y, dx, dy);
        MovedKeeps(before, w, h, x, y, dx, dy);
        MovedStretches(before, w, h, x, y, dx, dy);
        KeepsStretchesTrans(c0, before, grid.contents, w, h, dx == 0);
        if Towards(FromBottomRight, dx, dy) {
          MoveSettles(before, w, h, dx, dy, FromBottomRight, x, y);
        }
      }
    }
  }

  /** `tilt`: north and west are tilted from the top left, east and south
    * from the bottom right, so each direction is scanned from the side the
    * rocks roll towards. Afterwards the cells are only rearranged, the
    * cube rocks stay, and no round rock has an open cell on its side in
    * that direction. */
  method Tilt(grid: Cells<Cell>, d: Direction)
    requires grid.Valid()
    modifies grid
    ensures grid.Valid() && grid.width == old(grid.width) && grid.height == old(grid.height)
    ensures multiset(grid.contents) == multiset(old(grid.contents))
    ensures TiltedTo(old(grid.contents), grid.contents, grid.width, grid.height, d)
  {
    match d
    case North => TiltFromTopLeft(grid, 0, -1);
    case East => TiltFromBottomRight(grid, 1, 0);
    case South => TiltFromBottomRight(grid, 0, 1);
    case West => TiltFromTopLeft(grid, -1, 0);
  }

  // ---------------------------------------------------------------------
  // Loads

  /** `calculate_load`: a round rock in row y weighs its distance from the
    * south edge, between 1 and the height; other cells weigh nothing. For a
    * direction other than north a round rock is an error (the source
    * panics). */
  function CellLoad(cell: Cell, y: nat, height: nat, d: Direction): (r: Result<nat>)
    requires y < height
    ensures r.Err? <==> cell == RoundRock && d != North
    ensures r.Ok? ==> r.value <= height && (r.value > 0 <==> cell == RoundRock)
  {
    if cell == RoundRock then
      if d == North then Ok(height - y) else Err("unhanded direction")
    else Ok(0)
  }

  type Item = ((nat, nat), Cell)

  predicate RowsBelow(items: seq<Item>, height: nat) {
    forall i | 0 <= i < |items| :: items[i].0.1 < height
  }

  /** `calculate_total_load`: the loads of the grid's cells added up in
    * the order `iter` gives them, stopping at the first error. */
  function TotalLoad(items: seq<Item>, height: nat, d: Direction): Result<nat>
    requires RowsBelow(items, height)
  {
    if items == [] then Ok(0)
    else
      var last := items[|items| - 1];
      match TotalLoad(items[..|items| - 1], height, d)
      case Err(e) => Err(e)
      case Ok(acc) =>
        match CellLoad(last.1, last.0.1, height, d)
        case Err(e) => Err(e)
        case Ok(v) => Ok(acc + v)
  }

  /** How many round rocks the items hold. */
  function Rocks(items: seq<Item>): nat {
    if items == [] then 0
    else Rocks(items[..|items| - 1]) + (if items[|items| - 1].1 == RoundRock then 1 else 0)
  }

  /** The north load is always defined and lies between the number of round
    * rocks and that number times the height; in any other direction the load
    * is defined exactly when there are no round rocks, and is then 0. */
  lemma {:induction false} TotalLoadBounds(items: seq<Item>, height: nat, d: Direction)
    requires RowsBelow(items, height)
    ensures TotalLoad(items, height, d).Ok? <==> d == North || Rocks(items) == 0
    ensures TotalLoad(items, height, d).Ok? ==>
              Rocks(items) <= TotalLoad(items, height, d).value <= Rocks(items) * height
  {
    if items != [] {
      var front, last := items[..|items| - 1], items[|items| - 1];
      assert RowsBelow(front, height);
      TotalLoadBounds(front, height, d);
      var extra: nat := if last.1 == RoundRock then 1 else 0;
      assert Rocks(items) == Rocks(front) + extra;
      AddMul(Rocks(front), extra, height);
    }
  }

  lemma AddMul(a: nat, b: nat, h: nat)
    ensures (a + b) * h == a * h + b * h
  {
  }

  /** Replacing the cell of one item, at the same coordinate, changes the
    * north load by the difference of the two cells' loads. */
  lemma {:induction false} TotalLoadUpdate(items: seq<Item>, height: nat, k: nat, cell: Cell)
    requires RowsBelow(items, height) && k < |items|
    ensures RowsBelow(items[k := (items[k].0, cell)], height)
    ensures TotalLoad(items[k := (items[k].0, cell)], height, North).Ok? && TotalLoad(items, height, North).Ok?
    ensures var y := items[k].0.1;
            TotalLoad(items[k := (items[k].0, cell)], height, North).value + CellLoad(items[k].1, y, height, North).value ==
            TotalLoad(items, height, North).value + CellLoad(cell, y, height, North).value
  {
    var updated := items[k := (items[k].0, cell)];
    TotalLoadBounds(items, height, North);
    TotalLoadBounds(updated, height, North);
    if k < |items| - 1 {
      var front := items[..|items| - 1];
      assert updated[..|items| - 1] == front[k := (front[k].0, cell)];
      TotalLoadUpdate(front, height, k, cell);
      TotalLoadBounds(front, height, North);
      TotalLoadBounds(updated[..|items| - 1], height, North);
    } else {
      assert updated[..|items| - 1] == items[..|items| - 1];
      TotalLoadBounds(items[..|items| - 1], height, North);
    }
  }

  /** A round rock rolling one cell north into a space adds exactly one to
    * the north load. */
  lemma NorthStepGain(items: seq<Item>, height: nat, k: nat, j: nat)
    requires RowsBelow(items, height) && k < |items| && j < |items|
    requires items[k].1 == RoundRock && items[j].1 == Space
    requires items[k].0.1 > 0 && items[j].0 == (items[k].0.0, items[k].0.1 - 1)
    ensures var moved := items[k := (items[k].0, Space)][j := (items[j].0, RoundRock)];
            RowsBelow(moved, height) &&
            TotalLoad(moved, height, North).Ok? && TotalLoad(items, height, North).Ok? &&
            TotalLoad(moved, height, North).value == TotalLoad(items, height, North).value + 1
  {
    var first := items[k := (items[k].0, Space)];
    TotalLoadUpdate(items, height, k, Space);
    assert k != j;
    assert first[j] == items[j];
    TotalLoadUpdate(first, height, j, RoundRock);
  }

  /** The cells of row-major contents paired with their coordinates. */
  function ItemsOf(c: seq<Cell>, w: nat, h: nat): (r: seq<Item>)
    requires |c| == Mul(h, w)
    ensures |r| == |c| && RowsBelow(r, h)
    ensures forall i | 0 <= i < |r| :: r[i].0.0 < w && RowMajor(r[i].0.0, r[i].0.1, w) == i && r[i].1 == c[i]
  {
    if c == [] then []
    else
      RowMajorDecode(0, w, h);
      var r := seq(|c|, i requires 0 <= i < |c| => ((i % w, i / w), c[i]));
      forall i | 0 <= i < |r|
        ensures r[i].0.0 < w && r[i].0.1 < h && RowMajor(r[i].0.0, r[i].0.1, w) == i
      {
        RowMajorDecode(i, w, h);
      }
      r
  }

  /** The north load of row-major contents: every round rock weighs its
    * distance from the south edge. */
  function NorthLoad(c: seq<Cell>, w: nat, h: nat): (r: nat)
    requires |c| == Mul(h, w)
    ensures Rocks(ItemsOf(c, w, h)) <= r <= Rocks(ItemsOf(c, w, h)) * h
  {
    TotalLoadBounds(ItemsOf(c, w, h), h, North);
    TotalLoad(ItemsOf(c, w, h), h, North).value
  }

  /** A grid's items are its contents paired with their coordinates. */
  lemma ItemsAreItemsOf(grid: Cells<Cell>)
    requires grid.Valid()
    ensures grid.Items() == ItemsOf(grid.contents, grid.width, grid.height)
  {
    var a, b := grid.Items(), ItemsOf(grid.contents, grid.width, grid.height);
    forall i | 0 <= i < |a|
      ensures a[i] == b[i]
    {
      RowMajorInjective(a[i].0.0, a[i].0.1, b[i].0.0, b[i].0.1, grid.width);
    }
  }

  /** `calc_result`: the north load of the grid, which depends only on its
    * contents and shape. */
  function CalcResult(grid: Cells<Cell>): (r: nat)
    reads grid
    requires grid.Valid()
    ensures r == NorthLoad(grid.contents, grid.width, grid.height)
  {
    ItemsAreItemsOf(grid);
    NorthLoad(grid.contents, grid.width, grid.height)
  }

  // ---------------------------------------------------------------------
  // Processing

  /** `perform_processing_1`: a copy of the grid tilted north; the grid
    * itself is untouched. */
  method PerformProcessing1(grid: Cells<Cell>) returns (tilted: Cells<Cell>)
    requires grid.Valid()
    ensures fresh(tilted) && tilted.Valid()
    ensures tilted.width == grid.width && tilted.height == grid.height
    ensures multiset(tilted.contents) == multiset(grid.contents)
    ensures TiltedTo(grid.contents, tilted.contents, grid.width, grid.height, North)
  {
    tilted := new Cells.FromContents(grid.contents, grid.width, grid.height);
    Tilt(tilted, North);
  }

  const TargetCycles: nat := 1000000000
  const InvestigationCycles: nat := 10000
  const NumChecks: nat := 10
  /** The search for a repetition looks no earlier than this cycle. */
  const SearchFloor: nat := 1000

  /** The tilts north, west, south and east, through `n`, `we` and `s`,
    * take `c0` to `c`. */
  ghost predicate SpunVia(c0: seq<Cell>, n: seq<Cell>, we: seq<Cell>, s: seq<Cell>, c: seq<Cell>, w: nat, h: nat)
  {
    |c0| == Mul(h, w) && |n| == Mul(h, w) && |we| == Mul(h, w) && |s| == Mul(h, w) && |c| == Mul(h, w) &&
    TiltedTo(c0, n, w, h, North) && TiltedTo(n, we, w, h, West) &&
    TiltedTo(we, s, w, h, South) && TiltedTo(s, c, w, h, East)
  }

  /** One spin cycle takes `c0` to `c`. */
  ghost predicate Spun(c0: seq<Cell>, c: seq<Cell>, w: nat, h: nat) {
    exists n, we, s :: SpunVia(c0, n, we, s, c, w, h)
  }

  /** A spin cycle has one outcome. */
  lemma SpunDetermined(c0: seq<Cell>, a: seq<Cell>, b: seq<Cell>, w: nat, h: nat)
    requires Spun(c0, a, w, h) && Spun(c0, b, w, h)
    ensures a == b
  {
    var n, we, s :| SpunVia(c0, n, we, s, a, w, h);
    var n', we', s' :| SpunVia(c0, n', we', s', b, w, h);
    TiltDetermined(c0, n, n', w, h, North);
    TiltDetermined(n, we, we', w, h, West);
    TiltDetermined(we, s, s', w, h, South);
    TiltDetermined(s, a, b, w, h, East);
  }

  /** One spin cycle: north, west, south, east. The cells are only
    * rearranged, and the outcome is the spin of the old contents. */
  method SpinCycle(grid: Cells<Cell>)
    requires grid.Valid()
    modifies grid
    ensures grid.Valid() && grid.width == old(grid.width) && grid.height == old(grid.height)
    ensures multiset(grid.contents) == multiset(old(grid.contents))
    ensures Spun(old(grid.contents), grid.contents, grid.width, grid.height)
  {
    Tilt(grid, North);
    ghost var n := grid.contents;
    Tilt(grid, West);
    ghost var we := grid.contents;
    Tilt(grid, South);
    ghost var s := grid.contents;
    Tilt(grid, East);
    assert SpunVia(old(grid.contents), n, we, s, grid.contents, grid.width, grid.height);
  }

  /** A chain of spin cycles from `c0`: each entry is the spin of the one
    * before. */
  ghost predicate SpinChain(spins: seq<seq<Cell>>, c0: seq<Cell>, w: nat, h: nat) {
    |spins| > 0 && spins[0] == c0 &&
    (forall k | 0 <= k < |spins| :: |spins[k]| == Mul(h, w)) &&
    forall k | 0 <= k < |spins| - 1 :: Spun(spins[k], spins[k + 1], w, h)
  }

  /** Spin chains of the same length from the same grid are the same:
    * the k-th entry is the grid after k spin cycles. */
  lemma {:induction false} SpinChainDetermined(a: seq<seq<Cell>>, b: seq<seq<Cell>>, c0: seq<Cell>, w: nat, h: nat)
    requires SpinChain(a, c0, w, h) && SpinChain(b, c0, w, h) && |a| == |b|
    ensures a == b
  {
    if |a| > 1 {
      var n := |a| - 1;
      assert SpinChain(a[..n], c0, w, h) && SpinChain(b[..n], c0, w, h);
      SpinChainDetermined(a[..n], b[..n], c0, w, h);
      assert a[n - 1] == a[..n][n - 1] == b[..n][n - 1] == b[n - 1];
      SpunDetermined(a[n - 1], a[n], b[n], w, h);
      assert a == a[..n] + [a[n]] && b == b[..n] + [b[n]];
    }
  }

  /** The north load after each of the investigated spin cycles: load k
    * is the north load of the grid after k + 1 spin cycles (the entry
    * k + 1 of the chain `spins`), at most the number of cells times the
    * height. */
  method CycleLoads(grid: Cells<Cell>) returns (loads: seq<nat>, ghost spins: seq<seq<Cell>>)
    requires grid.Valid()
    modifies grid
    ensures grid.Valid() && grid.width == old(grid.width) && grid.height == old(grid.height)
    ensures |loads| == InvestigationCycles && |spins| == |loads| + 1
    ensures SpinChain(spins, old(grid.contents), grid.width, grid.height)
    ensures forall k | 0 <= k < |loads| :: loads[k] == NorthLoad(spins[k + 1], grid.width, grid.height)
    ensures forall k | 0 <= k < |loads| :: loads[k] <= |grid.contents| * grid.height
  {
    loads := [];
    spins := [grid.contents];
    for cycle := 0 to InvestigationCycles
      invariant grid.Valid() && grid.width == old(grid.width) && grid.height == old(grid.height)
      invariant |grid.contents| == |old(grid.contents)|
      invariant |loads| == cycle && |spins| == cycle + 1 && spins[cycle] == grid.contents
      invariant SpinChain(spins, old(grid.contents), grid.width, grid.height)
      invariant forall k | 0 <= k < |loads| :: loads[k] == NorthLoad(spins[k + 1], grid.width, grid.height)
      invariant forall k | 0 <= k < |loads| :: loads[k] <= |grid.contents| * grid.height
    {
      SpinCycle(grid);
      var load := CalcResult(grid);
      LoadAtMost(grid.contents, grid.width, grid.height);
      loads := loads + [load];
      spins := spins + [grid.contents];
    }
  }

  /** The north load is at most the number of cells times the height. */
  lemma LoadAtMost(c: seq<Cell>, w: nat, h: nat)
    requires |c| == Mul(h, w)
    ensures NorthLoad(c, w, h) <= |c| * h
  {
    var items := ItemsOf(c, w, h);
    RocksAtMost(items);
    MulMonotone(Rocks(items), |items|, h);
  }

  lemma MulMonotone(a: nat, b: nat, h: nat)
    requires a <= b
    ensures a * h <= b * h
  {
    assert b * h == a * h + (b - a) * h;
  }

  lemma {:induction false} RocksAtMost(items: seq<Item>)
    ensures Rocks(items) <= |items|
  {
    if items != [] {
      RocksAtMost(items[..|items| - 1]);
    }
  }

  /** The `all` over the checks: whether the load `size * i` cycles before
    * the last equals the last load, for i from 0, stopping at the first
    * that differs. An index below zero is an error (the source's unsigned
    * subtraction overflows). */
  method RepeatsBack(loads: seq<nat>, size: nat) returns (r: Result<bool>)
    requires loads != []
    ensures var end := |loads| - 1;
            r == Ok(true) <==> forall i | 0 <= i < NumChecks :: size * i <= end && loads[end - size * i] == loads[end]
    ensures var end := |loads| - 1;
            r.Err? <==> exists i | 0 <= i < NumChecks :: size * i > end &&
                          forall j | 0 <= j < i :: size * j <= end && loads[end - size * j] == loads[end]
  {
    var end := |loads| - 1;
    for i := 0 to NumChecks
      invariant forall j | 0 <= j < i :: size * j <= end && loads[end - size * j] == loads[end]
    {
      if size * i > end {
        return Err("attempt to subtract with overflow");
      }
      if loads[end - size * i] != loads[end] {
        return Ok(false);
      }
    }
    return Ok(true);
  }

  /** The repetition search of `perform_processing_2`: walking back from
    * the last load, the first earlier cycle (not before the floor) with
    * the same load whose distance repeats back through all the checks gives
    * the period, and the load at the target cycle is read off one period
    * back. Only the indexes are proved: the answer is one of the loads,
    * at or after the floor. */
  method FinalLoad(loads: seq<nat>) returns (r: Result<nat>)
    requires loads != [] && |loads| <= TargetCycles
    ensures r.Ok? ==> exists j | SearchFloor <= j < |loads| :: r.value == loads[j]
  {
    var end := |loads| - 1;
    var endLoad := loads[end];
    var size: Option<nat> := None;
    var start := end;
    while start > SearchFloor
      invariant SearchFloor <= start <= end || start == end
      invariant match size case None => true case Some(s) => 1 <= s <= end - SearchFloor
    {
      start := start - 1;
      if loads[start] == endLoad {
        var candidate := end - start;
        var all := RepeatsBack(loads, candidate);
        if all.Err? {
          return Err(all.error);
        }
        if all.value {
          size := Some(candidate);
          break;
        }
      }
    }
    if size.None? {
      return Err("Didn't find a repetition");
    }
    var target := TargetCycles - 1;
    var difference := target - end;
    var modulus := difference % size.value;
    var index := end - (size.value - modulus);
    return Ok(loads[index]);
  }

  /** `perform_processing_2`: spin a copy of the grid through the
    * investigated cycles, recording the north load after each, and read the
    * load at the target cycle off the repetition. The grid itself is
    * untouched; the answer is one of the recorded loads, so at most the
    * number of cells times the height. */
  method PerformProcessing2(grid: Cells<Cell>) returns (r: Result<nat>, ghost spins: seq<seq<Cell>>)
    requires grid.Valid()
    ensures |spins| == InvestigationCycles + 1 && SpinChain(spins, grid.contents, grid.width, grid.height)
    ensures r.Ok? ==> exists j | SearchFloor < j <= InvestigationCycles ::
                        r.value == NorthLoad(spins[j], grid.width, grid.height)
    ensures r.Ok? ==> r.value <= |grid.contents| * grid.height
  {
    var spun := new Cells.FromContents(grid.contents, grid.width, grid.height);
    var loads;
    loads, spins := CycleLoads(spun);
    r := FinalLoad(loads);
    if r.Ok? {
      var j :| SearchFloor <= j < |loads| && r.value == loads[j];
      assert r.value == NorthLoad(spins[j + 1], grid.width, grid.height);
    }
  }
}
