// A read-only view of a finished `Cells` grid as a value: the rows the
// builder collected, each padded to the widest with the default cell.
// The solutions that only ever read their grid after `build_cells` work on
// this view; the ones that write cells in place use `Processor.Cells`.
module Grids {
  import opened Wrappers

  /** A coordinate may step off the grid, so it is a pair of integers. */
  type Coord = (int, int)

  datatype Grid<T> = Grid(width: nat, height: nat, rows: seq<seq<T>>) {

    ghost predicate Valid() {
      |rows| == height && forall y | 0 <= y < |rows| :: |rows[y]| == width
    }

    /** `in_bounds`: negative coordinates are never in bounds. */
    predicate InBounds(x: int, y: int) {
      0 <= x < width && 0 <= y < height
    }

    /** `get`: the cell at (x, y), an error outside the grid. */
    function Get(x: int, y: int): (r: Result<T>)
      requires Valid()
      ensures r.Ok? <==> InBounds(x, y)
      ensures r.Ok? ==> r.value == rows[y][x]
    {
      if InBounds(x, y) then Ok(rows[y][x]) else Err("not in bounds")
    }

    /** The cell at a coordinate the caller has checked. */
    function At(c: Coord): T
      requires Valid() && InBounds(c.0, c.1)
    {
      rows[c.1][c.0]
    }

    /** Every in-bounds coordinate. */
    function Coords(): (r: set<Coord>)
      ensures forall c: Coord :: c in r <==> InBounds(c.0, c.1)
    {
      set x: int, y: int | 0 <= x < width && 0 <= y < height :: (x, y)
    }
  }

  /** The widest of the lines: the builder's `max_width`. */
  function MaxWidth<T>(lines: seq<seq<T>>): (r: nat)
    ensures forall y | 0 <= y < |lines| :: |lines[y]| <= r
    ensures r == 0 || exists y | 0 <= y < |lines| :: |lines[y]| == r
  {
    if lines == [] then 0
    else
      var front := MaxWidth(lines[..|lines| - 1]);
      var last := |lines[|lines| - 1]|;
      assert forall y | 0 <= y < |lines| - 1 :: lines[..|lines| - 1][y] == lines[y];
      if front < last then last else front
  }

  /** `build_cells(default)` as a value: an error without lines or with
    * zero width; otherwise the lines, each padded at its end with
    * `default` up to the widest. */
  function Build<T>(lines: seq<seq<T>>, default: T): (r: Result<Grid<T>>)
    ensures r.Err? <==> |lines| == 0 || MaxWidth(lines) == 0
    ensures r.Ok? ==> r.value.Valid() && r.value.width == MaxWidth(lines) && r.value.height == |lines|
    ensures r.Ok? ==> forall x, y | 0 <= x < r.value.width && 0 <= y < r.value.height ::
                        r.value.rows[y][x] == if x < |lines[y]| then lines[y][x] else default
  {
    var width := MaxWidth(lines);
    if |lines| == 0 || width == 0 then Err("No point in building cells")
    else
      Ok(Grid(width, |lines|, seq(|lines|, y requires 0 <= y < |lines| =>
                                     lines[y] + seq(width - |lines[y]|, _ => default))))
  }

  /** A grid filled row by row, cell (x, y) holding `cell(x, y)`: the
    * `new_line`/`add_cell` loops of the solutions that build a grid of
    * equal-length lines. */
  method Tabulate<T>(width: nat, height: nat, cell: (nat, nat) -> T) returns (g: Grid<T>)
    ensures g.Valid() && g.width == width && g.height == height
    ensures forall x: nat, y: nat | g.InBounds(x, y) :: g.At((x, y)) == cell(x, y)
  {
    var rows: seq<seq<T>> := [];
    for y := 0 to height
      invariant |rows| == y
      invariant forall j | 0 <= j < y :: |rows[j]| == width
      invariant forall j, x | 0 <= j < y && 0 <= x < width :: rows[j][x] == cell(x, j)
    {
      var row: seq<T> := [];
      for x := 0 to width
        invariant |row| == x && forall k | 0 <= k < x :: row[k] == cell(k, y)
      {
        row := row + [cell(x, y)];
      }
      rows := rows + [row];
    }
    g := Grid(width, height, rows);
  }
}
