// Point of incidence: patterns of ash and rock, each searched for a line
// of reflection between two rows or two columns; in part two every cell
// is flipped in turn to find the one smudge that makes a new reflection.
module Day13 {
  import opened Wrappers
  import opened Numbers
  import opened Processor
  import opened Grids

  datatype Cell = Ash | Rock

  /** `character_rep`. */
  function Symbol(cell: Cell): char {
    match cell
    case Ash => '.'
    case Rock => '#'
  }

  /** The characters `parse_line` accepts: '.' is Ash and '#' is Rock. */
  function CellOf(c: char): (r: Option<Cell>)
    ensures r.Some? <==> c == '.' || c == '#'
    ensures r.Some? ==> Symbol(r.value) == c
  {
    match c
    case '.' => Some(Ash)
    case '#' => Some(Rock)
    case _ => None
  }

  lemma CellOfSymbol(cell: Cell)
    ensures CellOf(Symbol(cell)) == Some(cell)
  {
  }

  /** The smudge: ash becomes rock and rock becomes ash. */
  function Flip(cell: Cell): (r: Cell)
    ensures r != cell
  {
    match cell
    case Ash => Rock
    case Rock => Ash
  }

  lemma FlipFlip(cell: Cell)
    ensures Flip(Flip(cell)) == cell
  {
  }

  // ---------------------------------------------------------------------
  // Loading

  /** The delimiters of `read_word` here: none, so a line is one word. */
  const Delimiters: set<char> := {}

  /** The patterns read so far, each as the lines its builder holds. */
  type Patterns = seq<seq<seq<Cell>>>

  /** One cell per character of a line, None at a character that is not
    * '.' or '#'. */
  function RowOf(line: string): (r: Option<seq<Cell>>)
    ensures r.Some? <==> forall i | 0 <= i < |line| :: CellOf(line[i]).Some?
    ensures r.Some? ==> |r.value| == |line| && forall i | 0 <= i < |line| :: Some(r.value[i]) == CellOf(line[i])
  {
    if line == [] then Some([])
    else
      match RowOf(line[..|line| - 1])
      case None => None
      case Some(front) =>
        match CellOf(line[|line| - 1])
        case None => None
        case Some(cell) => Some(front + [cell])
  }

  /** How a row is written. */
  function ShowRow(row: seq<Cell>): (r: string)
    ensures |r| == |row| && forall i | 0 <= i < |row| :: r[i] == Symbol(row[i])
  {
    seq(|row|, i requires 0 <= i < |row| => Symbol(row[i]))
  }

  lemma RowOfShown(row: seq<Cell>)
    ensures RowOf(ShowRow(row)) == Some(row)
  {
    var line := ShowRow(row);
    forall i | 0 <= i < |line|
      ensures CellOf(line[i]).Some?
    {
      CellOfSymbol(row[i]);
    }
    var r := RowOf(line);
    forall i | 0 <= i < |row|
      ensures r.value[i] == row[i]
    {
      CellOfSymbol(row[i]);
    }
    assert r.value == row;
  }

  /** The patterns as `parse_line` first sees them: the first line of the
    * input starts a pattern. */
  function Begun(state: Patterns): (r: Patterns)
    ensures r != []
  {
    if state == [] then [[]] else state
  }

  /** `parse_line`: a blank line starts a new pattern; any other line is a
    * new row of the last pattern. A character other than '.' and '#' is an
    * error (the source panics). */
  function ParseLine(state: Patterns, line: string): (r: Result<Patterns>)
    ensures r.Ok? <==> line == [] || RowOf(line).Some?
    ensures r.Ok? ==> |r.value| == |Begun(state)| + (if line == [] then 1 else 0)
  {
    var begun := Begun(state);
    match NextWord(line, Delimiters)
    case None => Ok(begun + [[]])
    case Some(w) =>
      assert w.text == line by {
        assert NoneIn(line, Delimiters);
        NextWordWhole(line, Delimiters);
      }
      match RowOf(w.text)
      case None => Err("unrecognised cell")
      case Some(row) =>
        var n := |begun| - 1;
        Ok(begun[..n] + [begun[n] + [row]])
  }

  /** The rows of a pattern with the pattern's own rows appended to its
    * last. */
  function AddRows(state: Patterns, p: seq<seq<Cell>>): (r: Patterns)
    ensures |r| == |Begun(state)|
  {
    var begun := Begun(state);
    begun[..|begun| - 1] + [begun[|begun| - 1] + p]
  }

  /** How patterns are written: their rows, a blank line between two
    * patterns. */
  function ShowPatterns(ps: Patterns): (r: seq<string>) {
    if ps == [] then []
    else if |ps| == 1 then ShowRows(ps[0])
    else ShowPatterns(ps[..|ps| - 1]) + [[]] + ShowRows(ps[|ps| - 1])
  }

  function ShowRows(p: seq<seq<Cell>>): (r: seq<string>)
    ensures |r| == |p| && forall i | 0 <= i < |p| :: r[i] == ShowRow(p[i])
  {
    seq(|p|, i requires 0 <= i < |p| => ShowRow(p[i]))
  }

  /** A row that is not empty is read as a new row of the last pattern. */
  lemma ParseShownRow(state: Patterns, row: seq<Cell>)
    requires row != []
    ensures ParseLine(state, ShowRow(row)) == Ok(AddRows(state, [row]))
  {
    var line := ShowRow(row);
    assert NoneIn(line, Delimiters);
    NextWordWhole(line, Delimiters);
    RowOfShown(row);
  }

  /** The rows of a pattern, written out, are read as rows of the last
    * pattern. */
  lemma {:induction false} ParseShownRows(state: Patterns, p: seq<seq<Cell>>)
    requires state != [] || p != []
    requires forall i | 0 <= i < |p| :: p[i] != []
    ensures ParseLines(state, ShowRows(p), ParseLine) == Ok(AddRows(state, p))
    decreases |p|
  {
    if p == [] {
      assert ShowRows(p) == [];
      AddNoRows(state);
    } else {
      var front, row := p[..|p| - 1], p[|p| - 1];
      assert ShowRows(p) == ShowRows(front) + [ShowRow(row)];
      assert front + [row] == p;
      if front == [] {
        assert ShowRows(front) == [];
        ParseOneMore(state, [], row, state);
      } else {
        ParseShownRows(state, front);
        ParseOneMore(state, ShowRows(front), row, AddRows(state, front));
        AddRowsSnoc(state, front, row);
      }
    }
  }

  lemma ParseOneMore(state: Patterns, lines: seq<string>, row: seq<Cell>, before: Patterns)
    requires row != []
    requires ParseLines(state, lines, ParseLine) == Ok(before)
    ensures ParseLines(state, lines + [ShowRow(row)], ParseLine) == Ok(AddRows(before, [row]))
  {
    ParseLinesAppend(state, lines, ShowRow(row), ParseLine);
    ParseShownRow(before, row);
  }

  lemma AddNoRows(state: Patterns)
    requires state != []
    ensures AddRows(state, []) == state
  {
    var n := |state| - 1;
    assert state[n] + [] == state[n];
  }

  lemma AddRowsSnoc(state: Patterns, front: seq<seq<Cell>>, row: seq<Cell>)
    ensures AddRows(AddRows(state, front), [row]) == AddRows(state, front + [row])
  {
    var b := Begun(state);
    var n := |b| - 1;
    var s := AddRows(state, front);
    assert Begun(s) == s;
    assert s[..n] == b[..n];
    assert s[n] + [row] == b[n] + (front + [row]);
  }

  /** Reading written-out patterns gives them back, as long as each row
    * has a cell (an empty row is a blank line) and the patterns are not
    * a single empty one (which writes as nothing at all). */
  lemma {:induction false} ParseShownPatterns(ps: Patterns)
    requires ps != [[]]
    requires forall j, i | 0 <= j < |ps| && 0 <= i < |ps[j]| :: ps[j][i] != []
    ensures ParseLines([], ShowPatterns(ps), ParseLine) == Ok(ps)
    decreases |ps|, 0
  {
    if ps == [] {
    } else if |ps| == 1 {
      ParseShownRows([], ps[0]);
      assert AddRows([], ps[0]) == [[] + ps[0]];
      assert [] + ps[0] == ps[0];
      assert ps == [ps[0]];
    } else {
      var front, p := ps[..|ps| - 1], ps[|ps| - 1];
      assert front + [p] == ps;
      var blank := ShowPatterns(front) + [[]];
      assert ShowPatterns(ps) == blank + ShowRows(p);
      ParseBlankAfter(front);
      ParseRowsAfter(blank, p, front + [[]]);
      AddRowsToNew(front, p);
    }
  }

  lemma ParseRowsAfter(lines: seq<string>, p: seq<seq<Cell>>, before: Patterns)
    requires before != []
    requires forall i | 0 <= i < |p| :: p[i] != []
    requires ParseLines([], lines, ParseLine) == Ok(before)
    ensures ParseLines([], lines + ShowRows(p), ParseLine) == Ok(AddRows(before, p))
  {
    ParseLinesConcat([], lines, ShowRows(p), ParseLine);
    ParseShownRows(before, p);
  }

  /** A blank line after written-out patterns starts a new, empty one. */
  lemma ParseBlankAfter(front: Patterns)
    requires front != []
    requires forall j, i | 0 <= j < |front| && 0 <= i < |front[j]| :: front[j][i] != []
    ensures ParseLines([], ShowPatterns(front) + [[]], ParseLine) == Ok(front + [[]])
    decreases |front|, 1
  {
    ParseLinesAppend([], ShowPatterns(front), [], ParseLine);
    assert NextWord([], Delimiters).None?;
    if front == [[]] {
      assert ShowPatterns(front) == [];
    } else {
      ParseShownPatterns(front);
    }
  }

  lemma AddRowsToNew(front: Patterns, p: seq<seq<Cell>>)
    ensures AddRows(front + [[]], p) == front + [p]
  {
    var b := front + [[]];
    assert b[..|front|] == front;
    assert b[|front|] + p == p;
  }


  // ---------------------------------------------------------------------
  // Lines of reflection

  /** How far a reflection before line `u` reaches: to the nearer edge. */
  function Reach(len: nat, u: nat): nat
    requires 1 <= u < len
  {
    if u - 1 < len - u - 1 then u - 1 else len - u - 1
  }

  /** The lines mirror about the boundary before line `u`, out to the
    * nearer edge. */
  predicate Mirrors<T(==)>(lines: seq<T>, u: nat)
    requires 1 <= u < |lines|
  {
    forall i | 0 <= i <= Reach(|lines|, u) :: MirroredAt(lines, u, i)
  }

  /** The lines `i` after and `i` before the boundary before line `u`
    * are equal. */
  predicate MirroredAt<T(==)>(lines: seq<T>, u: nat, i: nat)
    requires 1 <= u < |lines| && i <= Reach(|lines|, u)
  {
    lines[u + i] == lines[u - 1 - i]
  }

  /** Mirroring to the nearer edge is every pair of lines at the same
    * distance from the boundary being equal. */
  lemma MirrorsPairs<T>(lines: seq<T>, u: nat)
    requires 1 <= u < |lines|
    ensures Mirrors(lines, u) <==>
              forall a, b | 0 <= a < u <= b < |lines| && a + b == 2 * u - 1 :: lines[a] == lines[b]
  {
    if Mirrors(lines, u) {
      forall a, b | 0 <= a < u <= b < |lines| && a + b == 2 * u - 1
        ensures lines[a] == lines[b]
      {
        var i := b - u;
        assert MirroredAt(lines, u, i);
      }
    }
  }

  /** `find_reflection_size`: the reach of the reflection before line
    * `upper`, None when the lines do not mirror out to an edge. */
  method FindReflectionSize<T(==)>(lines: seq<T>, upper: nat) returns (r: Option<nat>)
    requires 1 <= upper < |lines|
    ensures r == if Mirrors(lines, upper) then Some(Reach(|lines|, upper)) else None
  {
    var maxRepeatsUpper := |lines| - upper - 1;
    var maxRepeatsLower := upper - 1;
    var requiredRepeats := if maxRepeatsLower < maxRepeatsUpper then maxRepeatsLower else maxRepeatsUpper;
    for i := 0 to requiredRepeats + 1
      invariant forall k | 0 <= k < i :: MirroredAt(lines, upper, k)
    {
      if lines[upper + i] != lines[upper - (i + 1)] {
        assert !MirroredAt(lines, upper, i);
        return None;
      }
    }
    return Some(requiredRepeats);
  }

  /** A reflection before line `u`: the two lines either side equal, and
    * the mirroring reaching an edge. */
  predicate IsMirror<T(==)>(lines: seq<T>, u: nat) {
    1 <= u < |lines| && lines[u - 1] == lines[u] && Mirrors(lines, u)
  }

  /** A reflection mirrors the lines either side of it, so the test of the
    * two lines next to it adds nothing. */
  lemma MirrorsAdjacent<T>(lines: seq<T>, u: nat)
    requires 1 <= u < |lines| && Mirrors(lines, u)
    ensures IsMirror(lines, u)
  {
    assert MirroredAt(lines, u, 0);
  }

  /** The reflections before each line below `n`, with their reach, in
    * increasing order. */
  function ReflectionsBefore<T(==)>(lines: seq<T>, n: nat): seq<(nat, nat)>
    requires n <= |lines|
  {
    if n <= 1 then []
    else
      var front := ReflectionsBefore(lines, n - 1);
      if IsMirror(lines, n - 1) then front + [(n - 1, Reach(|lines|, n - 1))] else front
  }

  /** The reflections before `n` are exactly the mirrors above `n`, each
    * with its reach. */
  lemma {:induction false} ReflectionsBeforeMembers<T>(lines: seq<T>, n: nat)
    requires n <= |lines|
    ensures forall p :: p in ReflectionsBefore(lines, n) <==> p.0 < n && IsMirror(lines, p.0) && p.1 == Reach(|lines|, p.0)
  {
    if n > 1 {
      ReflectionsBeforeMembers(lines, n - 1);
      var front := ReflectionsBefore(lines, n - 1);
      if IsMirror(lines, n - 1) {
        assert ReflectionsBefore(lines, n) == front + [(n - 1, Reach(|lines|, n - 1))];
      } else {
        assert ReflectionsBefore(lines, n) == front;
      }
    } else {
      assert ReflectionsBefore(lines, n) == [];
    }
  }

  /** The reflections before `n` are listed in increasing order. */
  lemma {:induction false} ReflectionsBeforeSorted<T>(lines: seq<T>, n: nat)
    requires n <= |lines|
    ensures Increasing(ReflectionsBefore(lines, n))
  {
    if n > 1 && IsMirror(lines, n - 1) {
      ReflectionsBeforeSorted(lines, n - 1);
      ReflectionsBeforeMembers(lines, n - 1);
      var front := ReflectionsBefore(lines, n - 1);
      var r := front + [(n - 1, Reach(|lines|, n - 1))];
      assert ReflectionsBefore(lines, n) == r;
      forall i, j | 0 <= i < j < |r|
        ensures r[i].0 < r[j].0
      {
        assert r[i] == front[i];
        if j == |front| {
          assert r[i] in front;
        } else {
          assert r[j] == front[j];
        }
      }
    } else if n > 1 {
      ReflectionsBeforeSorted(lines, n - 1);
      assert ReflectionsBefore(lines, n) == ReflectionsBefore(lines, n - 1);
    }
  }

  /** Every reflection of the lines, in the order of their upper line. */
  function Reflections<T(==)>(lines: seq<T>): seq<(nat, nat)> {
    ReflectionsBefore(lines, |lines|)
  }

  /** `find_reflection_indices`: the loop over the boundaries, proved to
    * find every reflection. */
  method FindReflectionIndices<T(==)>(lines: seq<T>) returns (r: seq<(nat, nat)>)
    ensures r == Reflections(lines)
  {
    r := [];
    if |lines| == 0 {
      return;
    }
    for i := 1 to |lines|
      invariant r == ReflectionsBefore(lines, i)
    {
      var lowerLine := lines[i - 1];
      var upperLine := lines[i];
      if lowerLine == upperLine {
        var span := FindReflectionSize(lines, i);
        if span.Some? {
          r := r + [(i, span.value)];
        }
      }
      if Mirrors(lines, i) {
        MirrorsAdjacent(lines, i);
      }
    }
  }

  /** The upper index of the first reflection, 0 when there is none: what
    * `first().unwrap_or(&(0, 0))` reads from the ordered set. */
  function FirstUpper(r: seq<(nat, nat)>): nat {
    if r == [] then 0 else r[0].0
  }

  /** The first reflection is the one nearest the top (or the left), and
    * 0 stands for none. */
  lemma FirstUpperIsNearest<T>(lines: seq<T>)
    ensures var f := FirstUpper(Reflections(lines));
            (f == 0 <==> forall u: nat :: !IsMirror(lines, u)) &&
            (f != 0 ==> IsMirror(lines, f) && forall u: nat | u < f :: !IsMirror(lines, u))
  {
    var r := Reflections(lines);
    ReflectionsBeforeMembers(lines, |lines|);
    ReflectionsBeforeSorted(lines, |lines|);
    forall u: nat | IsMirror(lines, u)
      ensures r != [] && r[0].0 <= u
    {
      ReflectionsFirstLeast(lines, u);
    }
    if r != [] {
      assert r[0] in r;
    }
  }

  /** Every reflection is at or after the first one listed. */
  lemma ReflectionsFirstLeast<T>(lines: seq<T>, u: nat)
    requires IsMirror(lines, u)
    ensures Reflections(lines) != [] && Reflections(lines)[0].0 <= u
  {
    var r := Reflections(lines);
    ReflectionsBeforeMembers(lines, |lines|);
    ReflectionsBeforeSorted(lines, |lines|);
    assert (u, Reach(|lines|, u)) in r;
    var k :| 0 <= k < |r| && r[k] == (u, Reach(|lines|, u));
    if k > 0 {
      assert r[0].0 < r[k].0;
    }
  }

  // ---------------------------------------------------------------------
  // Rows and columns of a pattern

  /** Every row has `width` cells. */
  predicate Rectangular<T>(rows: seq<seq<T>>, width: nat) {
    forall y | 0 <= y < |rows| :: |rows[y]| == width
  }

  /** The rows of a grid stored row by row. */
  function RowsOf<T>(contents: seq<T>, width: nat, height: nat): (r: seq<seq<T>>)
    requires |contents| == Mul(height, width)
    ensures |r| == height && Rectangular(r, width)
  {
    seq(height, y requires 0 <= y < height =>
      seq(width, x requires 0 <= x < width => CellAt(contents, width, height, x, y)))
  }

  /** The rows determine the stored grid. */
  lemma RowsOfInjective<T>(c1: seq<T>, c2: seq<T>, width: nat, height: nat)
    requires |c1| == |c2| == Mul(height, width)
    requires RowsOf(c1, width, height) == RowsOf(c2, width, height)
    ensures c1 == c2
  {
    forall i | 0 <= i < |c1|
      ensures c1[i] == c2[i]
    {
      RowMajorDecode(i, width, height);
      var x, y := i % width, i / width;
      assert RowsOf(c1, width, height)[y][x] == RowsOf(c2, width, height)[y][x];
    }
  }

  /** The rows of a grid as the grid holds them now. */
  function GridRows(cells: Cells<Cell>): (r: seq<seq<Cell>>)
    reads cells
    requires cells.Valid()
    ensures |r| == cells.height && Rectangular(r, cells.width)
  {
    RowsOf(cells.contents, cells.width, cells.height)
  }

  /** The columns of rectangular rows: column x holds cell x of each row. */
  function Transpose<T>(rows: seq<seq<T>>, width: nat): (r: seq<seq<T>>)
    requires Rectangular(rows, width)
    ensures |r| == width && Rectangular(r, |rows|)
  {
    seq(width, x requires 0 <= x < width => seq(|rows|, y requires 0 <= y < |rows| => rows[y][x]))
  }

  /** The columns of the columns are the rows. */
  lemma TransposeTwice<T>(rows: seq<seq<T>>, width: nat)
    requires Rectangular(rows, width)
    ensures Transpose(Transpose(rows, width), |rows|) == rows
  {
    var t := Transpose(Transpose(rows, width), |rows|);
    forall y | 0 <= y < |rows|
      ensures t[y] == rows[y]
    {
    }
  }

  /** A reflection between two columns is a reflection of every row about
    * the same place. */
  lemma ColumnMirrorsEveryRow<T>(rows: seq<seq<T>>, width: nat, u: nat)
    requires Rectangular(rows, width) && 1 <= u < width
    ensures Mirrors(Transpose(rows, width), u) <==>
            forall y | 0 <= y < |rows| :: Mirrors(rows[y], u)
  {
    var c := Transpose(rows, width);
    var reach := Reach(width, u);
    if Mirrors(c, u) {
      forall y, i | 0 <= y < |rows| && 0 <= i <= reach
        ensures MirroredAt(rows[y], u, i)
      {
        assert MirroredAt(c, u, i);
        assert c[u + i][y] == c[u - 1 - i][y];
      }
    }
    if forall y | 0 <= y < |rows| :: Mirrors(rows[y], u) {
      forall i | 0 <= i <= reach
        ensures MirroredAt(c, u, i)
      {
        var right, left := c[u + i], c[u - 1 - i];
        forall y | 0 <= y < |rows|
          ensures right[y] == left[y]
        {
          assert MirroredAt(rows[y], u, i);
        }
        assert right == left;
      }
    }
  }

  /** `Reflection`: the reflections between rows and between columns, each
    * as (upper index, reach) in increasing order, the order of the source's
    * ordered sets. */
  datatype Reflection = Reflection(rows: seq<(nat, nat)>, columns: seq<(nat, nat)>)

  /** The reflections of a pattern given by its rows. */
  function Mirrored(rows: seq<seq<Cell>>, width: nat): Reflection
    requires Rectangular(rows, width)
  {
    Reflection(Reflections(rows), Reflections(Transpose(rows, width)))
  }

  /** `get_mirrored_row_columns`: copies the rows and the columns out of
    * the grid cell by cell and finds the reflections of each. */
  method GetMirroredRowColumns(cells: Cells<Cell>) returns (r: Reflection)
    requires cells.Valid()
    ensures r == Mirrored(GridRows(cells), cells.width)
  {
    var rows := CopyRows(cells);
    var foundRows := FindReflectionIndices(rows);
    var cols := CopyColumns(cells);
    var foundColumns := FindReflectionIndices(cols);
    return Reflection(foundRows, foundColumns);
  }

  /** The row loop of `get_mirrored_row_columns`. */
  method CopyRows(cells: Cells<Cell>) returns (rows: seq<seq<Cell>>)
    requires cells.Valid()
    ensures rows == GridRows(cells)
  {
    ghost var whole := GridRows(cells);
    rows := [];
    for row := 0 to cells.height
      invariant rows == whole[..row]
    {
      var thisRow: seq<Cell> := [];
      for column := 0 to cells.width
        invariant thisRow == whole[row][..column]
      {
        thisRow := thisRow + [cells.Get(column, row).value];
      }
      assert thisRow == whole[row];
      assert whole[..row + 1] == whole[..row] + [whole[row]];
      rows := rows + [thisRow];
    }
    assert whole[..cells.height] == whole;
  }

  /** The column loop of `get_mirrored_row_columns`. */
  method CopyColumns(cells: Cells<Cell>) returns (cols: seq<seq<Cell>>)
    requires cells.Valid()
    ensures cols == Transpose(GridRows(cells), cells.width)
  {
    ghost var whole := Transpose(GridRows(cells), cells.width);
    cols := [];
    for column := 0 to cells.width
      invariant cols == whole[..column]
    {
      var thisColumn: seq<Cell> := [];
      for row := 0 to cells.height
        invariant thisColumn == whole[column][..row]
      {
        thisColumn := thisColumn + [cells.Get(column, row).value];
      }
      assert thisColumn == whole[column];
      assert whole[..column + 1] == whole[..column] + [whole[column]];
      cols := cols + [thisColumn];
    }
    assert whole[..cells.width] == whole;
  }

  /** `perform_processing_1`: the reflections of every pattern. */
  method PerformProcessing1(patterns: seq<Cells<Cell>>) returns (r: seq<Reflection>)
    requires forall i | 0 <= i < |patterns| :: patterns[i].Valid()
    ensures |r| == |patterns|
    ensures forall i | 0 <= i < |r| :: r[i] == Mirrored(GridRows(patterns[i]), patterns[i].width)
  {
    r := [];
    for i := 0 to |patterns|
      invariant |r| == i
      invariant forall k | 0 <= k < i :: r[k] == Mirrored(GridRows(patterns[k]), patterns[k].width)
    {
      var found := GetMirroredRowColumns(patterns[i]);
      r := r + [found];
    }
  }

  // ---------------------------------------------------------------------
  // The smudge

  /** The rows with the cell at (x, y) flipped. */
  function FlipRows(rows: seq<seq<Cell>>, x: nat, y: nat): (r: seq<seq<Cell>>)
    requires y < |rows| && x < |rows[y]|
    ensures |r| == |rows| && forall j | 0 <= j < |rows| :: |r[j]| == |rows[j]|
  {
    rows[y := rows[y][x := Flip(rows[y][x])]]
  }

  /** Flipping changes the one cell and no other. */
  lemma FlipRowsCells(rows: seq<seq<Cell>>, x: nat, y: nat)
    requires y < |rows| && x < |rows[y]|
    ensures FlipRows(rows, x, y)[y][x] != rows[y][x]
    ensures forall j, i | 0 <= j < |rows| && 0 <= i < |rows[j]| && (i, j) != (x, y) ::
              FlipRows(rows, x, y)[j][i] == rows[j][i]
  {
  }

  /** Flipping a cell twice gives the rows back. */
  lemma FlipRowsTwice(rows: seq<seq<Cell>>, x: nat, y: nat)
    requires y < |rows| && x < |rows[y]|
    ensures FlipRows(FlipRows(rows, x, y), x, y) == rows
  {
    var f := FlipRows(FlipRows(rows, x, y), x, y);
    FlipFlip(rows[y][x]);
    assert f[y] == rows[y];
  }

  /** `flip_cell`: the one cell changes from ash to rock or back; the
    * source unwraps the cell, so (x, y) must be inside the grid. */
  method FlipCell(cells: Cells<Cell>, x: nat, y: nat)
    requires cells.Valid() && cells.InBounds(x, y)
    modifies cells
    ensures cells.Valid() && cells.width == old(cells.width) && cells.height == old(cells.height)
    ensures cells.Index(x, y) < |old(cells.contents)|
    ensures cells.contents == old(cells.contents)[cells.Index(x, y) := Flip(old(cells.At(x, y)))]
  {
    var cell := cells.At(x, y);
    var done := cells.Set(x, y, Flip(cell));
  }

  /** Flipping one stored cell flips that cell of the rows and no other. */
  lemma RowsAfterFlip(contents: seq<Cell>, width: nat, height: nat, x: nat, y: nat)
    requires |contents| == Mul(height, width) && x < width && y < height
    ensures RowMajor(x, y, width) < |contents|
    ensures RowsOf(contents[RowMajor(x, y, width) := Flip(CellAt(contents, width, height, x, y))], width, height) ==
            FlipRows(RowsOf(contents, width, height), x, y)
  {
    RowMajorInRange(x, y, width, height);
    var k := RowMajor(x, y, width);
    var flipped := contents[k := Flip(contents[k])];
    var before := RowsOf(contents, width, height);
    var after := RowsOf(flipped, width, height);
    var expected := FlipRows(before, x, y);
    forall j | 0 <= j < height
      ensures after[j] == expected[j]
    {
      forall i | 0 <= i < width
        ensures after[j][i] == expected[j][i]
      {
        RowMajorInRange(i, j, width, height);
        if (i, j) != (x, y) {
          RowMajorDistinct(i, j, x, y, width);
        }
      }
    }
  }

  /** `difference` on the ordered sets: the entries of `a` not in `b`, in
    * the order of `a`. */
  function Without(a: seq<(nat, nat)>, b: seq<(nat, nat)>): seq<(nat, nat)> {
    if a == [] then []
    else
      var front := Without(a[..|a| - 1], b);
      var last := a[|a| - 1];
      if last in b then front else front + [last]
  }

  /** What is left is what is in `a` and not in `b`. */
  lemma {:induction false} WithoutMembers(a: seq<(nat, nat)>, b: seq<(nat, nat)>)
    ensures forall p :: p in Without(a, b) <==> p in a && p !in b
  {
    if a != [] {
      var init := a[..|a| - 1];
      WithoutMembers(init, b);
      assert a == init + [a[|a| - 1]];
    }
  }

  /** The difference of an ordered set is ordered. */
  lemma {:induction false} WithoutIncreasing(a: seq<(nat, nat)>, b: seq<(nat, nat)>)
    requires Increasing(a)
    ensures Increasing(Without(a, b))
  {
    if a != [] {
      var init, last := a[..|a| - 1], a[|a| - 1];
      assert Increasing(init);
      WithoutIncreasing(init, b);
      WithoutMembers(init, b);
      var front := Without(init, b);
      forall i | 0 <= i < |front|
        ensures front[i].0 < last.0
      {
        assert front[i] in init;
      }
    }
  }

  /** Strictly increasing upper indexes: the order of an ordered set of
    * reflections. */
  predicate Increasing(s: seq<(nat, nat)>) {
    forall i, j | 0 <= i < j < |s| :: s[i].0 < s[j].0
  }

  /** The reflections of the smudged pattern that the original lacks. */
  function NewPart(original: Reflection, smudged: Reflection): Reflection {
    Reflection(Without(smudged.rows, original.rows), Without(smudged.columns, original.columns))
  }

  /** What flipping the cell at (x, y) adds to the reflections. */
  function SmudgeAt(rows: seq<seq<Cell>>, width: nat, x: nat, y: nat): Reflection
    requires Rectangular(rows, width) && x < width && y < |rows|
  {
    NewPart(Mirrored(rows, width), Mirrored(FlipRows(rows, x, y), width))
  }

  /** A flip that adds some reflection. */
  predicate Adds(r: Reflection) {
    r.rows != [] || r.columns != []
  }

  /** A flip that adds reflections both between rows and between columns,
    * which the source refuses. */
  predicate Clash(r: Reflection) {
    r.rows != [] && r.columns != []
  }

  /** What each flip adds: column by column, the addition of flipping
    * each cell of the column. */
  function Additions(rows: seq<seq<Cell>>, width: nat): (r: seq<seq<Reflection>>)
    requires Rectangular(rows, width)
    ensures |r| == width && Rectangular(r, |rows|)
  {
    AdditionsUpTo(rows, width, width)
  }

  /** The additions of the first `m` columns. */
  function AdditionsUpTo(rows: seq<seq<Cell>>, width: nat, m: nat): (r: seq<seq<Reflection>>)
    requires Rectangular(rows, width) && m <= width
    ensures |r| == m && Rectangular(r, |rows|)
  {
    if m == 0 then [] else AdditionsUpTo(rows, width, m - 1) + [ColumnAdditions(rows, width, m - 1, |rows|)]
  }

  /** The additions of the first `n` cells of column `x`. */
  function ColumnAdditions(rows: seq<seq<Cell>>, width: nat, x: nat, n: nat): (r: seq<Reflection>)
    requires Rectangular(rows, width) && x < width && n <= |rows|
    ensures |r| == n
  {
    if n == 0 then [] else ColumnAdditions(rows, width, x, n - 1) + [SmudgeAt(rows, width, x, n - 1)]
  }

  /** Entry (a, b) of the additions is what flipping cell (a, b) adds. */
  lemma AdditionsAt(rows: seq<seq<Cell>>, width: nat, a: nat, b: nat)
    requires Rectangular(rows, width) && a < width && b < |rows|
    ensures Additions(rows, width)[a][b] == SmudgeAt(rows, width, a, b)
  {
    AdditionsUpToAt(rows, width, width, a);
    ColumnAdditionsAt(rows, width, a, |rows|, b);
  }

  lemma {:induction false} AdditionsUpToAt(rows: seq<seq<Cell>>, width: nat, m: nat, a: nat)
    requires Rectangular(rows, width) && a < m <= width
    ensures AdditionsUpTo(rows, width, m)[a] == ColumnAdditions(rows, width, a, |rows|)
    decreases m
  {
    if a < m - 1 {
      AdditionsUpToAt(rows, width, m - 1, a);
    }
  }

  lemma {:induction false} ColumnAdditionsAt(rows: seq<seq<Cell>>, width: nat, x: nat, n: nat, b: nat)
    requires Rectangular(rows, width) && x < width && b < n <= |rows|
    ensures ColumnAdditions(rows, width, x, n)[b] == SmudgeAt(rows, width, x, b)
    decreases n
  {
    if b < n - 1 {
      ColumnAdditionsAt(rows, width, x, n - 1, b);
    }
  }

  /** Cell (a, b) comes before (x, y) when the columns are visited in
    * order and, inside each, the rows. */
  predicate Before(a: nat, b: nat, x: nat, y: nat) {
    a < x || (a == x && b < y)
  }

  /** The cell (x, y) is inside a width * height grid, or (width, 0), just
    * past it. */
  predicate Visit(width: nat, height: nat, x: nat, y: nat) {
    (x < width && y <= height) || (x == width && y == 0)
  }

  /** The distinct additions of the flips before (x, y), in the order the
    * source visits the cells. */
  function SmudgesBefore(adds: seq<seq<Reflection>>, height: nat, x: nat, y: nat): set<Reflection>
    requires Rectangular(adds, height) && Visit(|adds|, height, x, y)
    decreases x, y
  {
    if y > 0 then
      var s := adds[x][y - 1];
      SmudgesBefore(adds, height, x, y - 1) + (if Adds(s) then {s} else {})
    else if x > 0 then SmudgesBefore(adds, height, x - 1, height)
    else {}
  }

  /** Some flip before (x, y) clashes. */
  predicate ClashBefore(adds: seq<seq<Reflection>>, height: nat, x: nat, y: nat)
    requires Rectangular(adds, height) && Visit(|adds|, height, x, y)
    decreases x, y
  {
    if y > 0 then ClashBefore(adds, height, x, y - 1) || Clash(adds[x][y - 1])
    else if x > 0 then ClashBefore(adds, height, x - 1, height)
    else false
  }

  /** The distinct additions of all flips. */
  function Smudges(rows: seq<seq<Cell>>, width: nat): set<Reflection>
    requires Rectangular(rows, width)
  {
    SmudgesBefore(Additions(rows, width), |rows|, width, 0)
  }

  /** Some flip clashes. */
  predicate AnyClash(rows: seq<seq<Cell>>, width: nat)
    requires Rectangular(rows, width)
  {
    ClashBefore(Additions(rows, width), |rows|, width, 0)
  }

  /** The addition of every cell before (x, y) is collected. */
  lemma {:induction false} SmudgeCollected(adds: seq<seq<Reflection>>, height: nat, x: nat, y: nat, a: nat, b: nat)
    requires Rectangular(adds, height) && Visit(|adds|, height, x, y)
    requires a < |adds| && b < height && Before(a, b, x, y) && Adds(adds[a][b])
    ensures adds[a][b] in SmudgesBefore(adds, height, x, y)
    decreases x, y
  {
    if y > 0 {
      if (a, b) != (x, y - 1) {
        SmudgeCollected(adds, height, x, y - 1, a, b);
      }
    } else {
      SmudgeCollected(adds, height, x - 1, height, a, b);
    }
  }

  /** Every collected addition is that of a cell before (x, y). */
  lemma {:induction false} SmudgeOrigin(adds: seq<seq<Reflection>>, height: nat, x: nat, y: nat, t: Reflection)
    returns (a: nat, b: nat)
    requires Rectangular(adds, height) && Visit(|adds|, height, x, y)
    requires t in SmudgesBefore(adds, height, x, y)
    ensures a < |adds| && b < height && Before(a, b, x, y) && Adds(adds[a][b]) && t == adds[a][b]
    decreases x, y
  {
    if y > 0 {
      var s := adds[x][y - 1];
      if Adds(s) && t == s {
        a, b := x, y - 1;
      } else {
        a, b := SmudgeOrigin(adds, height, x, y - 1, t);
      }
    } else {
      a, b := SmudgeOrigin(adds, height, x - 1, height, t);
    }
  }

  /** A clash at a cell before (x, y) is seen. */
  lemma {:induction false} ClashSeen(adds: seq<seq<Reflection>>, height: nat, x: nat, y: nat, a: nat, b: nat)
    requires Rectangular(adds, height) && Visit(|adds|, height, x, y)
    requires a < |adds| && b < height && Before(a, b, x, y) && Clash(adds[a][b])
    ensures ClashBefore(adds, height, x, y)
    decreases x, y
  {
    if y > 0 {
      if (a, b) != (x, y - 1) {
        ClashSeen(adds, height, x, y - 1, a, b);
      }
    } else {
      ClashSeen(adds, height, x - 1, height, a, b);
    }
  }

  /** A clash seen is the clash of a cell before (x, y). */
  lemma {:induction false} ClashOrigin(adds: seq<seq<Reflection>>, height: nat, x: nat, y: nat)
    returns (a: nat, b: nat)
    requires Rectangular(adds, height) && Visit(|adds|, height, x, y)
    requires ClashBefore(adds, height, x, y)
    ensures a < |adds| && b < height && Before(a, b, x, y) && Clash(adds[a][b])
    decreases x, y
  {
    if y > 0 {
      if Clash(adds[x][y - 1]) {
        a, b := x, y - 1;
      } else {
        a, b := ClashOrigin(adds, height, x, y - 1);
      }
    } else {
      a, b := ClashOrigin(adds, height, x - 1, height);
    }
  }

  /** A clash before a cell is a clash before any later cell of the
    * column. */
  lemma {:induction false} ClashLaterInColumn(adds: seq<seq<Reflection>>, height: nat, x: nat, y: nat, y': nat)
    requires Rectangular(adds, height) && x < |adds| && y <= y' <= height
    requires ClashBefore(adds, height, x, y)
    ensures ClashBefore(adds, height, x, y')
    decreases y'
  {
    if y < y' {
      ClashLaterInColumn(adds, height, x, y, y' - 1);
    }
  }

  /** A clash before the start of a column is a clash before the start of
    * any later column. */
  lemma {:induction false} ClashLater(adds: seq<seq<Reflection>>, height: nat, x: nat, x': nat)
    requires Rectangular(adds, height) && 0 < x <= x' <= |adds|
    requires ClashBefore(adds, height, x, 0)
    ensures ClashBefore(adds, height, x', 0)
    decreases x'
  {
    if x < x' {
      ClashLater(adds, height, x, x' - 1);
      ClashLaterInColumn(adds, height, x' - 1, 0, height);
    }
  }

  /** The additions of all flips are exactly those of the cells of the
    * grid, and a clash is the clash of one of them. */
  lemma SmudgesAll(rows: seq<seq<Cell>>, width: nat)
    requires Rectangular(rows, width)
    ensures forall a: nat, b: nat | a < width && b < |rows| && Adds(SmudgeAt(rows, width, a, b)) ::
              SmudgeAt(rows, width, a, b) in Smudges(rows, width)
    ensures forall t | t in Smudges(rows, width) ::
              exists a: nat, b: nat | a < width && b < |rows| ::
                Adds(SmudgeAt(rows, width, a, b)) && t == SmudgeAt(rows, width, a, b)
    ensures AnyClash(rows, width) <==>
              exists a: nat, b: nat | a < width && b < |rows| :: Clash(SmudgeAt(rows, width, a, b))
  {
    var adds := Additions(rows, width);
    forall a: nat, b: nat | a < width && b < |rows| && Adds(SmudgeAt(rows, width, a, b))
      ensures SmudgeAt(rows, width, a, b) in Smudges(rows, width)
    {
      AdditionsAt(rows, width, a, b);
      SmudgeCollected(adds, |rows|, width, 0, a, b);
    }
    forall t | t in Smudges(rows, width)
      ensures exists a: nat, b: nat | a < width && b < |rows| ::
                Adds(SmudgeAt(rows, width, a, b)) && t == SmudgeAt(rows, width, a, b)
    {
      var a, b := SmudgeOrigin(adds, |rows|, width, 0, t);
      AdditionsAt(rows, width, a, b);
    }
    if AnyClash(rows, width) {
      var a, b := ClashOrigin(adds, |rows|, width, 0);
      AdditionsAt(rows, width, a, b);
    }
    forall a: nat, b: nat | a < width && b < |rows| && Clash(SmudgeAt(rows, width, a, b))
      ensures AnyClash(rows, width)
    {
      AdditionsAt(rows, width, a, b);
      ClashSeen(adds, |rows|, width, 0, a, b);
    }
  }

  /** Without a clash, each addition is new reflections between rows or
    * between columns, never both, none of them reflections of the
    * original. */
  lemma SmudgesAreNew(rows: seq<seq<Cell>>, width: nat)
    requires Rectangular(rows, width) && !AnyClash(rows, width)
    ensures forall s | s in Smudges(rows, width) ::
              (s.rows != [] <==> s.columns == []) &&
              (forall p | p in s.rows :: p !in Mirrored(rows, width).rows) &&
              (forall p | p in s.columns :: p !in Mirrored(rows, width).columns)
  {
    var adds := Additions(rows, width);
    forall s | s in Smudges(rows, width)
      ensures (s.rows != [] <==> s.columns == []) &&
              (forall p | p in s.rows :: p !in Mirrored(rows, width).rows) &&
              (forall p | p in s.columns :: p !in Mirrored(rows, width).columns)
    {
      var a, b := SmudgeOrigin(adds, |rows|, width, 0, s);
      AdditionsAt(rows, width, a, b);
      var original, smudged := Mirrored(rows, width), Mirrored(FlipRows(rows, a, b), width);
      WithoutMembers(smudged.rows, original.rows);
      WithoutMembers(smudged.columns, original.columns);
      if Clash(s) {
        ClashSeen(adds, |rows|, width, 0, a, b);
      }
    }
  }

  /** `fix_smudge_and_get_mirrored_row_columns`: flips every cell in turn
    * (and back), collects the distinct reflections each flip adds, and
    * gives the single one. A flip that adds both row and column
    * reflections, or any number of additions but one, is an error (the
    * source panics). The grid is as it was afterwards. */
  method FixSmudge(cells: Cells<Cell>) returns (r: Result<Reflection>)
    requires cells.Valid()
    modifies cells
    ensures cells.Valid() && cells.contents == old(cells.contents)
    ensures cells.width == old(cells.width) && cells.height == old(cells.height)
    ensures r == Fix(GridRows(cells), cells.width)
  {
    ghost var rows := GridRows(cells);
    ghost var adds := Additions(rows, cells.width);
    ghost var contents := cells.contents;
    var original := GetMirroredRowColumns(cells);
    var smudges: set<Reflection> := {};
    for x := 0 to cells.width
      invariant cells.Valid() && cells.contents == contents
      invariant cells.width == old(cells.width) && cells.height == old(cells.height)
      invariant smudges == SmudgesBefore(adds, |rows|, x, 0)
      invariant !ClashBefore(adds, |rows|, x, 0)
    {
      var clash;
      smudges, clash := ScanColumn(cells, x, original, rows, adds, smudges);
      if clash {
        ClashLater(adds, |rows|, x + 1, cells.width);
        return Err("Got both new columns and new rows");
      }
    }
    if |smudges| != 1 {
      return Err("Expected exactly one smudge reflection");
    }
    var found :| found in smudges;
    assert |smudges - {found}| == 0;
    assert smudges == {found};
    return Ok(found);
  }

  /** What the smudge search knows before it starts: the original
    * reflections and, as a specification, what each flip adds. */
  ghost predicate Prepared(rows: seq<seq<Cell>>, width: nat, original: Reflection, adds: seq<seq<Reflection>>) {
    Rectangular(rows, width) && original == Mirrored(rows, width) && adds == Additions(rows, width)
  }

  /** The inner loop of the smudge search, over the rows of column `x`:
    * stops at the first clash. */
  method ScanColumn(cells: Cells<Cell>, x: nat, original: Reflection, ghost rows: seq<seq<Cell>>,
                    ghost adds: seq<seq<Reflection>>, before: set<Reflection>)
    returns (smudges: set<Reflection>, clash: bool)
    requires cells.Valid() && x < cells.width && GridRows(cells) == rows
    requires Prepared(rows, cells.width, original, adds)
    requires before == SmudgesBefore(adds, |rows|, x, 0)
    requires !ClashBefore(adds, |rows|, x, 0)
    modifies cells
    ensures cells.Valid() && cells.contents == old(cells.contents)
    ensures cells.width == old(cells.width) && cells.height == old(cells.height)
    ensures clash <==> ClashBefore(adds, |rows|, x, |rows|)
    ensures !clash ==> smudges == SmudgesBefore(adds, |rows|, x, |rows|)
  {
    ghost var contents := cells.contents;
    ghost var width := cells.width;
    smudges := before;
    for y := 0 to cells.height
      invariant cells.Valid() && cells.contents == contents
      invariant cells.width == width && cells.height == |rows| && GridRows(cells) == rows
      invariant smudges == SmudgesBefore(adds, |rows|, x, y)
      invariant !ClashBefore(adds, |rows|, x, y)
    {
      var added := AdditionAt(cells, x, y, original, rows, width, adds);
      if added.columns != [] && added.rows != [] {
        ClashLaterInColumn(adds, |rows|, x, y + 1, |rows|);
        return smudges, true;
      }
      if added.columns != [] || added.rows != [] {
        smudges := smudges + {added};
      }
    }
    clash := false;
  }

  /** One step of the smudge search: flip (x, y), find the reflections,
    * flip back, and keep the ones the original lacks. */
  method AdditionAt(cells: Cells<Cell>, x: nat, y: nat, original: Reflection, ghost rows: seq<seq<Cell>>,
                    ghost width: nat, ghost adds: seq<seq<Reflection>>)
    returns (added: Reflection)
    requires cells.Valid() && cells.width == width && GridRows(cells) == rows
    requires x < width && y < |rows| && Prepared(rows, width, original, adds)
    modifies cells
    ensures cells.Valid() && cells.contents == old(cells.contents)
    ensures cells.width == old(cells.width) && cells.height == old(cells.height)
    ensures added == adds[x][y]
  {
    var smudged := FlipAndFind(cells, x, y);
    var newColumns := Without(smudged.columns, original.columns);
    var newRows := Without(smudged.rows, original.rows);
    added := Reflection(newRows, newColumns);
    AdditionsAt(rows, width, x, y);
  }

  /** The reflections of the grid with the cell at (x, y) flipped; the
    * cell is flipped back before returning. */
  method FlipAndFind(cells: Cells<Cell>, x: nat, y: nat) returns (r: Reflection)
    requires cells.Valid() && cells.InBounds(x, y)
    modifies cells
    ensures cells.Valid() && cells.contents == old(cells.contents)
    ensures cells.width == old(cells.width) && cells.height == old(cells.height)
    ensures r == Mirrored(FlipRows(GridRows(cells), x, y), cells.width)
  {
    ghost var contents := cells.contents;
    RowsAfterFlip(contents, cells.width, cells.height, x, y);
    FlipCell(cells, x, y);
    r := GetMirroredRowColumns(cells);
    FlipCell(cells, x, y);
    var k := RowMajor(x, y, cells.width);
    FlipFlip(contents[k]);
    assert cells.contents == contents[k := Flip(contents[k])][k := contents[k]];
  }

  /** `perform_processing_2`: the smudge fix of every pattern, an error as
    * soon as one pattern has none or several; every grid is left as it
    * was. */
  method PerformProcessing2(patterns: seq<Cells<Cell>>) returns (r: Result<seq<Reflection>>)
    requires forall i | 0 <= i < |patterns| :: patterns[i].Valid()
    modifies set i | 0 <= i < |patterns| :: patterns[i]
    ensures forall i | 0 <= i < |patterns| ::
              patterns[i].Valid() && patterns[i].contents == old(patterns[i].contents) &&
              patterns[i].width == old(patterns[i].width) && patterns[i].height == old(patterns[i].height)
    ensures r.Ok? <==> forall i | 0 <= i < |patterns| :: old(Fix(GridRows(patterns[i]), patterns[i].width)).Ok?
    ensures r.Ok? ==>
              |r.value| == |patterns| &&
              forall i | 0 <= i < |patterns| :: r.value[i] == old(Fix(GridRows(patterns[i]), patterns[i].width)).value
  {
    var found: seq<Reflection> := [];
    for i := 0 to |patterns|
      invariant forall k | 0 <= k < |patterns| ::
                  patterns[k].Valid() && patterns[k].contents == old(patterns[k].contents) &&
                  patterns[k].width == old(patterns[k].width) && patterns[k].height == old(patterns[k].height)
      invariant |found| == i
      invariant forall k | 0 <= k < i :: old(Fix(GridRows(patterns[k]), patterns[k].width)) == Ok(found[k])
    {
      ghost var rows, width := old(GridRows(patterns[i])), old(patterns[i].width);
      assert GridRows(patterns[i]) == rows;
      var fixed := FixSmudge(patterns[i]);
      assert GridRows(patterns[i]) == rows && patterns[i].width == width;
      if fixed.Err? {
        return Err(fixed.error);
      }
      found := found + [fixed.value];
    }
    return Ok(found);
  }

  /** What the smudge search gives for a pattern: an error when some flip
    * clashes, an error unless exactly one distinct reflection is added,
    * and that reflection otherwise. */
  ghost function Fix(rows: seq<seq<Cell>>, width: nat): Result<Reflection>
    requires Rectangular(rows, width)
  {
    if AnyClash(rows, width) then Err("Got both new columns and new rows")
    else if |Smudges(rows, width)| != 1 then Err("Expected exactly one smudge reflection")
    else
      var s :| s in Smudges(rows, width);
      Ok(s)
  }

  /** The search succeeds exactly when no flip clashes and the flips
    * together add one reflection, and it then gives that reflection. */
  lemma FixMeaning(rows: seq<seq<Cell>>, width: nat)
    requires Rectangular(rows, width)
    ensures Fix(rows, width).Ok? <==> !AnyClash(rows, width) && |Smudges(rows, width)| == 1
    ensures Fix(rows, width).Ok? ==> Smudges(rows, width) == {Fix(rows, width).value}
  {
    if Fix(rows, width).Ok? {
      var smudges, found := Smudges(rows, width), Fix(rows, width).value;
      assert |smudges - {found}| == 0;
    }
  }

  // ---------------------------------------------------------------------
  // Building the grids and the answer

  /** `finalise_state`: each pattern's rows become a grid, padded with ash
    * up to its widest row; a pattern without rows or without cells is an
    * error (`build_cells`), which a blank line at the end of the input
    * makes. */
  method FinaliseState(patterns: Patterns) returns (r: Result<seq<Cells<Cell>>>)
    ensures r.Ok? <==> forall i | 0 <= i < |patterns| :: patterns[i] != [] && MaxWidth(patterns[i]) > 0
    ensures r.Ok? ==> |r.value| == |patterns| && forall i | 0 <= i < |patterns| ::
              fresh(r.value[i]) && BuiltFrom(r.value[i], patterns[i])
  {
    var grids: seq<Cells<Cell>> := [];
    for i := 0 to |patterns|
      invariant |grids| == i
      invariant forall k | 0 <= k < i :: patterns[k] != [] && MaxWidth(patterns[k]) > 0
      invariant forall k | 0 <= k < i :: fresh(grids[k]) && BuiltFrom(grids[k], patterns[k])
    {
      var p := patterns[i];
      var width := MaxWidth(p);
      if p == [] || width == 0 {
        return Err("No point in building cells");
      }
      PaddedAt(p, width, Ash);
      var grid := new Cells.FromContents(Padded(p, width, Ash), width, |p|);
      PaddedRows(p, width);
      grids := grids + [grid];
    }
    return Ok(grids);
  }

  /** A grid holds a pattern's rows, as wide as its widest row, each row
    * padded with ash. */
  ghost predicate BuiltFrom(grid: Cells<Cell>, p: seq<seq<Cell>>)
    reads grid
  {
    grid.Valid() && grid.width == MaxWidth(p) && grid.height == |p| &&
    forall y, x | 0 <= y < |p| && 0 <= x < MaxWidth(p) ::
      GridRows(grid)[y][x] == if x < |p[y]| then p[y][x] else Ash
  }

  /** The rows of the padded grid are the pattern's rows padded with ash. */
  lemma PaddedRows(p: seq<seq<Cell>>, width: nat)
    requires forall y | 0 <= y < |p| :: |p[y]| <= width
    ensures |Padded(p, width, Ash)| == Mul(|p|, width)
    ensures var rows := RowsOf(Padded(p, width, Ash), width, |p|);
            forall y, x | 0 <= y < |p| && 0 <= x < width ::
              rows[y][x] == if x < |p[y]| then p[y][x] else Ash
  {
    PaddedAt(p, width, Ash);
  }

  /** One pattern's note: 100 times the first row reflection's upper index
    * plus the first column reflection's, 0 for one that is missing. */
  function Score(reflection: Reflection): nat {
    100 * FirstUpper(reflection.rows) + FirstUpper(reflection.columns)
  }

  /** `calc_result`: the notes summed. */
  function CalcResult(reflections: seq<Reflection>): nat {
    if reflections == [] then 0
    else CalcResult(reflections[..|reflections| - 1]) + Score(reflections[|reflections| - 1])
  }

  /** The sum splits over the patterns. */
  lemma {:induction false} CalcResultConcat(a: seq<Reflection>, b: seq<Reflection>)
    ensures CalcResult(a + b) == CalcResult(a) + CalcResult(b)
    decreases |b|
  {
    if b == [] {
      assert a + b == a;
    } else {
      var front := b[..|b| - 1];
      assert (a + b)[..|a + b| - 1] == a + front;
      CalcResultConcat(a, front);
    }
  }
}
