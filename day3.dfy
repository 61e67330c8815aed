// Engine schematic: a grid of digits, dots and symbols. Each maximal run
// of digits in a row is one part number; part one sums the parts next to
// a symbol, part two sums the products of the two parts around each '*'
// that touches exactly two.
module Day3 {
  import opened Wrappers
  import opened Numbers
  import opened Processor

  datatype Cell = Number(digit: nat) | Dot | Symbol(symbol: char)

  /** A cell of the finalised schematic: every digit of one run carries
    * the same part, identified by `id`. */
  datatype PartCell = PartNumber(id: nat, number: nat) | PartDot | PartSymbol(symbol: char)

  type Grid = seq<seq<PartCell>>

  // ---------------------------------------------------------------------
  // Parsing

  /** A decimal digit is a number, '.' a dot, anything else a symbol. */
  function CellOf(c: char): (r: Cell)
    ensures r.Number? <==> IsDigit(c)
    ensures r.Number? ==> r.digit == DigitValue(c)
    ensures r.Dot? <==> c == '.'
    ensures r.Symbol? ==> r.symbol == c
  {
    if IsDigit(c) then Number(DigitValue(c)) else if c == '.' then Dot else Symbol(c)
  }

  /** `parse_line`: one row of cells per line, one cell per character. */
  method ParseLine(state: seq<seq<Cell>>, line: string) returns (r: seq<seq<Cell>>)
    ensures |r| == |state| + 1 && r[..|state|] == state
    ensures |r[|state|]| == |line| && forall i | 0 <= i < |line| :: r[|state|][i] == CellOf(line[i])
  {
    var cells: seq<Cell> := [];
    for i := 0 to |line|
      invariant |cells| == i && forall k | 0 <= k < i :: cells[k] == CellOf(line[k])
    {
      cells := cells + [CellOf(line[i])];
    }
    r := state + [cells];
    assert r[..|state|] == state;
  }

  // ---------------------------------------------------------------------
  // Part numbers

  function Power10(e: nat): nat {
    if e == 0 then 1 else 10 * Power10(e - 1)
  }

  /** The fold of `calculate_part_cell_number`: the first `k` digits
    * counted from the end, the k-th from the end weighted by 10^k. */
  function PlaceSum(digits: seq<nat>, k: nat): nat
    requires k <= |digits|
  {
    if k == 0 then 0 else PlaceSum(digits, k - 1) + Power10(k - 1) * digits[|digits| - k]
  }

  /** The value of a run of digits read most significant first. */
  function RunValue(digits: seq<nat>): nat {
    if digits == [] then 0 else RunValue(digits[..|digits| - 1]) * 10 + digits[|digits| - 1]
  }

  /** The place-value fold is the run's decimal value. */
  lemma {:induction false} PlaceSumIsValue(digits: seq<nat>)
    ensures PlaceSum(digits, |digits|) == RunValue(digits)
  {
    if digits != [] {
      var front := digits[..|digits| - 1];
      PlaceSumIsValue(front);
      PlaceSumShift(digits, |digits| - 1);
    }
  }

  /** Dropping the last digit divides the weights of the others by ten. */
  lemma {:induction false} PlaceSumShift(digits: seq<nat>, k: nat)
    requires k < |digits|
    ensures PlaceSum(digits, k + 1) == digits[|digits| - 1] + 10 * PlaceSum(digits[..|digits| - 1], k)
  {
    var front := digits[..|digits| - 1];
    if k > 0 {
      PlaceSumShift(digits, k - 1);
      assert front[|front| - k] == digits[|digits| - k - 1];
      calc {
        PlaceSum(digits, k + 1);
        PlaceSum(digits, k) + Power10(k) * digits[|digits| - k - 1];
        digits[|digits| - 1] + 10 * PlaceSum(front, k - 1) + 10 * Power10(k - 1) * front[|front| - k];
        digits[|digits| - 1] + 10 * (PlaceSum(front, k - 1) + Power10(k - 1) * front[|front| - k]);
      }
    }
  }

  /** A run of digit characters parsed cell by cell has the value the
    * decimal number they spell has. */
  lemma {:induction false} RunValueOfDigits(s: string)
    requires AllDigits(s)
    ensures RunValue(seq(|s|, i requires 0 <= i < |s| => CellOf(s[i]).digit)) == DecimalValue(s)
  {
    var ds := seq(|s|, i requires 0 <= i < |s| => CellOf(s[i]).digit);
    if s != [] {
      var front := s[..|s| - 1];
      RunValueOfDigits(front);
      assert ds[..|ds| - 1] == seq(|front|, i requires 0 <= i < |front| => CellOf(front[i]).digit);
    }
  }

  /** The cell a non-digit becomes in the finalised row. */
  function Convert(cell: Cell): PartCell {
    match cell
    case Number(_) => PartDot
    case Dot => PartDot
    case Symbol(c) => PartSymbol(c)
  }

  datatype Row = Row(parts: seq<PartCell>, nextId: nat)

  /** `n` copies of `part`. */
  function Repeat(part: PartCell, n: nat): (r: seq<PartCell>)
    ensures |r| == n && forall k | 0 <= k < n :: r[k] == part
  {
    if n == 0 then [] else Repeat(part, n - 1) + [part]
  }

  /** The pending digit run written out as one part with the next id. */
  function Flush(run: seq<nat>, id: nat): (r: Row)
    ensures r.nextId == if run == [] then id else id + 1
  {
    if run == [] then Row([], id) else Row(Repeat(PartNumber(id, PlaceSum(run, |run|)), |run|), id + 1)
  }

  /** The finalised row from cell `i` on, given the digits `run` read
    * since the last non-digit and the next free id. */
  function RowFrom(cells: seq<Cell>, i: nat, run: seq<nat>, id: nat): Row
    requires i <= |cells|
    decreases |cells| - i
  {
    if i == |cells| then Flush(run, id)
    else match cells[i]
      case Number(d) => RowFrom(cells, i + 1, run + [d], id)
      case _ =>
        var flushed := Flush(run, id);
        var rest := RowFrom(cells, i + 1, [], flushed.nextId);
        Row(flushed.parts + [Convert(cells[i])] + rest.parts, rest.nextId)
  }

  /** The loop of `write_part_numbers`: overwrites the slots `from..to` with `part`. */
  method Overwrite(parts: seq<PartCell>, from: nat, to: nat, part: PartCell) returns (r: seq<PartCell>)
    requires from <= to <= |parts|
    ensures r == parts[..from] + Repeat(part, to - from) + parts[to..]
  {
    r := parts;
    for k := from to to
      invariant r == parts[..from] + Repeat(part, k - from) + parts[k..]
    {
      assert parts[k..] == [parts[k]] + parts[k + 1..];
      r := r[k := part];
    }
  }

  /** `write_part_numbers`: the pending run, held by placeholder dots
    * between the finished cells `done` and the cells `after` it, is
    * replaced by its part, which takes the next id. */
  method WritePartNumbers(parts: seq<PartCell>, run: seq<nat>, id: nat, index: nat,
                          ghost done: seq<PartCell>, ghost after: seq<PartCell>)
    returns (r: seq<PartCell>, nextId: nat)
    requires parts == done + Repeat(PartDot, |run|) + after && index == |done| + |run|
    ensures r == done + Flush(run, id).parts + after
    ensures nextId == Flush(run, id).nextId
  {
    if run == [] {
      return parts, id;
    }
    var part := PartNumber(id, PlaceSum(run, |run|));
    assert parts[..index - |run|] == done && parts[index..] == after;
    r := Overwrite(parts, index - |run|, index, part);
    nextId := id + 1;
  }

  /** A non-digit closes the pending run and is copied after it. */
  lemma RowStep(cells: seq<Cell>, i: nat, run: seq<nat>, id: nat)
    requires i < |cells| && !cells[i].Number?
    ensures RowFrom(cells, i, run, id).parts ==
              Flush(run, id).parts + [Convert(cells[i])] + RowFrom(cells, i + 1, [], Flush(run, id).nextId).parts
    ensures RowFrom(cells, i, run, id).nextId == RowFrom(cells, i + 1, [], Flush(run, id).nextId).nextId
  {
  }

  /** A digit joins the pending run. */
  lemma ExtendRun(cells: seq<Cell>, i: nat, run: seq<nat>, id: nat)
    requires i < |cells| && cells[i].Number?
    ensures RowFrom(cells, i, run, id) == RowFrom(cells, i + 1, run + [cells[i].digit], id)
  {
  }

  /** At the end of the row the pending run is all that is left to write. */
  lemma EndRow(cells: seq<Cell>, run: seq<nat>, id: nat, done: seq<PartCell>, whole: Row)
    requires done + RowFrom(cells, |cells|, run, id).parts == whole.parts
    requires RowFrom(cells, |cells|, run, id).nextId == whole.nextId
    ensures whole == Row(done + Flush(run, id).parts, Flush(run, id).nextId)
  {
  }

  /** Closing the pending run at a non-digit keeps the rest of the row to come. */
  lemma CloseRun(cells: seq<Cell>, i: nat, run: seq<nat>, id: nat, done: seq<PartCell>, whole: Row)
    requires i < |cells| && !cells[i].Number?
    requires done + RowFrom(cells, i, run, id).parts == whole.parts
    requires RowFrom(cells, i, run, id).nextId == whole.nextId
    ensures var flushed := Flush(run, id);
            (done + flushed.parts + [Convert(cells[i])]) + RowFrom(cells, i + 1, [], flushed.nextId).parts == whole.parts &&
            RowFrom(cells, i + 1, [], flushed.nextId).nextId == whole.nextId
  {
    RowStep(cells, i, run, id);
  }

  /** One row of `finalise_state`: digits are read into a pending run
    * behind placeholder dots, which are overwritten with the part once a
    * non-digit or the end of the row closes the run. */
  method FinaliseRow(cells: seq<Cell>, id: nat) returns (r: Row)
    ensures r == RowFrom(cells, 0, [], id)
  {
    var parts: seq<PartCell> := [];
    var run: seq<nat> := [];
    var nextId := id;
    ghost var done: seq<PartCell> := [];
    ghost var whole := RowFrom(cells, 0, [], id);
    for i := 0 to |cells|
      invariant parts == done + Repeat(PartDot, |run|) && |parts| == i
      invariant done + RowFrom(cells, i, run, nextId).parts == whole.parts
      invariant RowFrom(cells, i, run, nextId).nextId == whole.nextId
    {
      if cells[i].Number? {
        ExtendRun(cells, i, run, nextId);
        run := run + [cells[i].digit];
        parts := parts + [PartDot];
      } else {
        var cell := if cells[i].Symbol? then PartSymbol(cells[i].symbol) else PartDot;
        assert cell == Convert(cells[i]);
        parts := parts + [cell];
        CloseRun(cells, i, run, nextId, done, whole);
        parts, nextId := WritePartNumbers(parts, run, nextId, i, done, [cell]);
        done := parts;
        run := [];
      }
    }
    EndRow(cells, run, nextId, done, whole);
    parts, nextId := WritePartNumbers(parts, run, nextId, |cells|, done, []);
    r := Row(parts, nextId);
  }

  /** The shape of a finalised row: one cell per input cell, digits become
    * parts (the pending run's digits first, with the first free id) and
    * everything else is copied. */
  lemma {:induction false} RowShape(cells: seq<Cell>, i: nat, run: seq<nat>, id: nat)
    requires i <= |cells|
    ensures var out := RowFrom(cells, i, run, id);
            |out.parts| == |run| + |cells| - i &&
            id <= out.nextId && (run != [] ==> id < out.nextId) &&
            (forall k | 0 <= k < |run| :: out.parts[k].PartNumber? && out.parts[k].id == id) &&
            (forall k | i <= k < |cells| ::
               (cells[k].Number? <==> out.parts[|run| + k - i].PartNumber?) &&
               (!cells[k].Number? ==> out.parts[|run| + k - i] == Convert(cells[k])))
    decreases |cells| - i
  {
    if i < |cells| {
      match cells[i]
      case Number(d) =>
        RowShape(cells, i + 1, run + [d], id);
      case _ =>
        var flushed := Flush(run, id);
        RowShape(cells, i + 1, [], flushed.nextId);
    }
  }

  /** Every part of a row has an id between the first free id and the
    * next free id after the row. */
  lemma {:induction false} RowIdsInRange(cells: seq<Cell>, i: nat, run: seq<nat>, id: nat)
    requires i <= |cells|
    ensures var out := RowFrom(cells, i, run, id);
            forall k | 0 <= k < |out.parts| && out.parts[k].PartNumber? :: id <= out.parts[k].id < out.nextId
    decreases |cells| - i
  {
    if i < |cells| {
      match cells[i]
      case Number(d) =>
        assert RowFrom(cells, i, run, id) == RowFrom(cells, i + 1, run + [d], id);
        RowIdsInRange(cells, i + 1, run + [d], id);
      case _ =>
        var flushed := Flush(run, id);
        RowIdsInRange(cells, i + 1, [], flushed.nextId);
        RowShape(cells, i + 1, [], flushed.nextId);
    }
  }

  /** Neighbouring part cells belong to the same part. */
  predicate RunsShareCell(out: seq<PartCell>) {
    forall k | 0 <= k < |out| - 1 && out[k].PartNumber? && out[k + 1].PartNumber? :: out[k] == out[k + 1]
  }

  /** Parts further right never have smaller ids. */
  predicate IdsNonDecreasing(out: seq<PartCell>) {
    forall k, m | 0 <= k < m < |out| && out[k].PartNumber? && out[m].PartNumber? :: out[k].id <= out[m].id
  }

  /** Two part cells with something else between them are different parts. */
  predicate RunsSeparated(out: seq<PartCell>) {
    forall k, j, m | 0 <= k < j < m < |out| && out[k].PartNumber? && !out[j].PartNumber? && out[m].PartNumber? ::
      out[k].id < out[m].id
  }

  /** Neighbouring digits belong to the same part. */
  lemma {:induction false} RowRunsShareCell(cells: seq<Cell>, i: nat, run: seq<nat>, id: nat)
    requires i <= |cells|
    ensures RunsShareCell(RowFrom(cells, i, run, id).parts)
    decreases |cells| - i
  {
    if i < |cells| {
      if cells[i].Number? {
        var longer := run + [cells[i].digit];
        assert RowFrom(cells, i, run, id) == RowFrom(cells, i + 1, longer, id);
        RowRunsShareCell(cells, i + 1, longer, id);
      } else {
        var flushed := Flush(run, id);
        var rest := RowFrom(cells, i + 1, [], flushed.nextId);
        RowRunsShareCell(cells, i + 1, [], flushed.nextId);
        RowStep(cells, i, run, id);
        var out := RowFrom(cells, i, run, id).parts;
        var n := |run| + 1;
        assert forall k | n <= k < |out| :: out[k] == rest.parts[k - n];
        assert forall k | 0 <= k < |run| :: out[k] == flushed.parts[k];
        assert !out[|run|].PartNumber?;
        forall k | 0 <= k < |out| - 1 && out[k].PartNumber? && out[k + 1].PartNumber?
          ensures out[k] == out[k + 1]
        {
          if k >= n {
            assert out[k] == rest.parts[k - n] && out[k + 1] == rest.parts[k + 1 - n];
          }
        }
      }
    }
  }

  /** Parts further right in a row never have smaller ids. */
  lemma {:induction false} RowIdsIncrease(cells: seq<Cell>, i: nat, run: seq<nat>, id: nat)
    requires i <= |cells|
    ensures IdsNonDecreasing(RowFrom(cells, i, run, id).parts)
    decreases |cells| - i
  {
    if i < |cells| {
      if cells[i].Number? {
        var longer := run + [cells[i].digit];
        assert RowFrom(cells, i, run, id) == RowFrom(cells, i + 1, longer, id);
        RowIdsIncrease(cells, i + 1, longer, id);
      } else {
        var flushed := Flush(run, id);
        var rest := RowFrom(cells, i + 1, [], flushed.nextId);
        RowIdsIncrease(cells, i + 1, [], flushed.nextId);
        RowIdsInRange(cells, i + 1, [], flushed.nextId);
        RowStep(cells, i, run, id);
        var out := RowFrom(cells, i, run, id).parts;
        var n := |run| + 1;
        assert forall k | n <= k < |out| :: out[k] == rest.parts[k - n];
        assert forall k | 0 <= k < |run| :: out[k] == flushed.parts[k];
        forall k, m | 0 <= k < m < |out| && out[k].PartNumber? && out[m].PartNumber?
          ensures out[k].id <= out[m].id
        {
          if k >= n {
            assert out[k] == rest.parts[k - n] && out[m] == rest.parts[m - n];
          } else if m >= n {
            assert out[m] == rest.parts[m - n];
          }
        }
      }
    }
  }

  /** Two parts of a row with a non-digit between them are different parts. */
  lemma {:induction false} RowRunsSeparated(cells: seq<Cell>, i: nat, run: seq<nat>, id: nat)
    requires i <= |cells|
    ensures RunsSeparated(RowFrom(cells, i, run, id).parts)
    decreases |cells| - i
  {
    if i < |cells| {
      if cells[i].Number? {
        var longer := run + [cells[i].digit];
        assert RowFrom(cells, i, run, id) == RowFrom(cells, i + 1, longer, id);
        RowRunsSeparated(cells, i + 1, longer, id);
      } else {
        var flushed := Flush(run, id);
        var rest := RowFrom(cells, i + 1, [], flushed.nextId);
        RowRunsSeparated(cells, i + 1, [], flushed.nextId);
        RowIdsInRange(cells, i + 1, [], flushed.nextId);
        RowStep(cells, i, run, id);
        var out := RowFrom(cells, i, run, id).parts;
        var n := |run| + 1;
        assert forall k | n <= k < |out| :: out[k] == rest.parts[k - n];
        assert forall k | 0 <= k < |run| :: out[k] == flushed.parts[k];
        forall k, j, m | 0 <= k < j < m < |out| && out[k].PartNumber? && !out[j].PartNumber? && out[m].PartNumber?
          ensures out[k].id < out[m].id
        {
          if k >= n {
            assert out[k] == rest.parts[k - n] && out[j] == rest.parts[j - n] && out[m] == rest.parts[m - n];
          } else if m >= n {
            assert out[m] == rest.parts[m - n];
          }
        }
      }
    }
  }

  /** The finalised rows and the next free id. */
  datatype Schematic = Schematic(grid: Grid, nextId: nat)

  /** `finalise_state` as a function: rows in order, ids continuing from
    * one row to the next. */
  function Finalise(rows: seq<seq<Cell>>): (r: Schematic)
    ensures |r.grid| == |rows|
  {
    if rows == [] then Schematic([], 0)
    else
      var before := Finalise(rows[..|rows| - 1]);
      var row := RowFrom(rows[|rows| - 1], 0, [], before.nextId);
      Schematic(before.grid + [row.parts], row.nextId)
  }

  /** `finalise_state`: each row finalised in turn, the id counter shared. */
  method FinaliseState(rows: seq<seq<Cell>>) returns (r: Grid)
    ensures r == Finalise(rows).grid
  {
    r := [];
    var nextId := 0;
    for y := 0 to |rows|
      invariant Finalise(rows[..y]) == Schematic(r, nextId)
    {
      var row := FinaliseRow(rows[y], nextId);
      assert rows[..y + 1][..y] == rows[..y];
      r := r + [row.parts];
      nextId := row.nextId;
    }
    assert rows[..|rows|] == rows;
  }

  /** Row `y` of the finalised schematic is that row finalised on its own,
    * starting from the id the rows above left free. */
  lemma {:induction false} FinaliseRowAt(rows: seq<seq<Cell>>, y: nat)
    requires y < |rows|
    ensures Finalise(rows).grid[y] == RowFrom(rows[y], 0, [], Finalise(rows[..y]).nextId).parts
    ensures Finalise(rows[..y + 1]).nextId == RowFrom(rows[y], 0, [], Finalise(rows[..y]).nextId).nextId
  {
    var front := rows[..|rows| - 1];
    assert rows[..y + 1][..y] == rows[..y];
    if y < |rows| - 1 {
      FinaliseRowAt(front, y);
      assert front[..y] == rows[..y] && front[..y + 1] == rows[..y + 1];
    } else {
      assert rows[..y] == front;
    }
  }

  /** The next free id never goes down as rows are added. */
  lemma {:induction false} FinaliseNextIdGrows(rows: seq<seq<Cell>>, n: nat)
    requires n <= |rows|
    ensures Finalise(rows[..n]).nextId <= Finalise(rows).nextId
    decreases |rows| - n
  {
    if n < |rows| {
      FinaliseNextIdGrows(rows, n + 1);
      FinaliseRowAt(rows, n);
      RowShape(rows[n], 0, [], Finalise(rows[..n]).nextId);
    } else {
      assert rows[..n] == rows;
    }
  }

  /** Finalising keeps a row's length, turns exactly the digits into
    * parts, copies dots and symbols, and gives every part of row `y` an
    * id from those free after the rows above and before the rows below. */
  lemma FinaliseShape(rows: seq<seq<Cell>>, y: nat, x: nat)
    requires y < |rows| && x < |rows[y]|
    ensures var g := Finalise(rows).grid;
            |g[y]| == |rows[y]| &&
            (rows[y][x].Number? <==> g[y][x].PartNumber?) &&
            (!rows[y][x].Number? ==> g[y][x] == Convert(rows[y][x])) &&
            (g[y][x].PartNumber? ==> Finalise(rows[..y]).nextId <= g[y][x].id < Finalise(rows[..y + 1]).nextId)
  {
    FinaliseRowAt(rows, y);
    RowShape(rows[y], 0, [], Finalise(rows[..y]).nextId);
    RowIdsInRange(rows[y], 0, [], Finalise(rows[..y]).nextId);
  }

  /** Parts in different rows have different ids: every id in an earlier
    * row is smaller than every id in a later one. */
  lemma FinaliseIdsDistinctAcrossRows(rows: seq<seq<Cell>>, y: nat, x: nat, y': nat, x': nat)
    requires y < y' < |rows| && x < |rows[y]| && x' < |rows[y']|
    requires rows[y][x].Number? && rows[y'][x'].Number?
    ensures var g := Finalise(rows).grid;
            x < |g[y]| && x' < |g[y']| && g[y][x].PartNumber? && g[y'][x'].PartNumber? &&
            g[y][x].id < g[y'][x'].id
  {
    FinaliseShape(rows, y, x);
    FinaliseShape(rows, y', x');
    assert rows[..y'][..y + 1] == rows[..y + 1];
    FinaliseNextIdGrows(rows[..y'], y + 1);
  }

  // ---------------------------------------------------------------------
  // Part one

  predicate Rectangular(grid: Grid) {
    forall y, y' | 0 <= y < |grid| && 0 <= y' < |grid| :: |grid[y]| == |grid[y']|
  }

  /** `is_adjacent_to_symbol_in_line`: the cell left of `x`, the cell at
    * `x` (unless ignored) and the cell right of it, in that order, stopping
    * at the first symbol. Reading a cell the row does not have is the
    * `unwrap` panic, an error here; so is the `cells.len() - 1` of the
    * right-hand test on an empty row. */
  function SymbolInLine(x: nat, cells: seq<PartCell>, ignoreCurrent: bool): Result<bool> {
    if x > 0 && x - 1 >= |cells| then Err("called `Option::unwrap()` on a `None` value")
    else if x > 0 && cells[x - 1].PartSymbol? then Ok(true)
    else if !ignoreCurrent && x >= |cells| then Err("called `Option::unwrap()` on a `None` value")
    else if !ignoreCurrent && cells[x].PartSymbol? then Ok(true)
    else if |cells| == 0 then Err("attempt to subtract with overflow")
    else Ok(x < |cells| - 1 && cells[x + 1].PartSymbol?)
  }

  /** `is_adjacent_to_symbol`: the row above, this row without the centre,
    * and the row below, stopping at the first that finds a symbol or
    * fails. Each row is bounded by its own length. */
  function AdjacentToSymbol(x: nat, y: nat, grid: Grid): Result<bool>
    requires y < |grid|
  {
    var above := if y > 0 then SymbolInLine(x, grid[y - 1], false) else Ok(false);
    if above != Ok(false) then above
    else
      var here := SymbolInLine(x, grid[y], true);
      if here != Ok(false) then here
      else if y < |grid| - 1 then SymbolInLine(x, grid[y + 1], false)
      else Ok(false)
  }

  /** Some cell of `cells` in columns x - 1 to x + 1 (the centre only when
    * it is not ignored) is a symbol. */
  ghost predicate SymbolAround(x: nat, cells: seq<PartCell>, ignoreCurrent: bool) {
    exists x': nat | x' < |cells| && x - 1 <= x' <= x + 1 && !(ignoreCurrent && x' == x) :: cells[x'].PartSymbol?
  }

  /** A line check that does not fail finds a symbol exactly when one of
    * the cells it looks at exists and is a symbol. */
  lemma SymbolInLineMeaning(x: nat, cells: seq<PartCell>, ignoreCurrent: bool)
    ensures SymbolInLine(x, cells, ignoreCurrent).Ok? ==>
              (SymbolInLine(x, cells, ignoreCurrent).value <==> SymbolAround(x, cells, ignoreCurrent))
  {
    var r := SymbolInLine(x, cells, ignoreCurrent);
    if r == Ok(false) && SymbolAround(x, cells, ignoreCurrent) {
      var x': nat :| x' < |cells| && x - 1 <= x' <= x + 1 && !(ignoreCurrent && x' == x) && cells[x'].PartSymbol?;
      assert false;
    }
    if r == Ok(true) {
      if x > 0 && cells[x - 1].PartSymbol? {
        assert cells[x - 1].PartSymbol?;
      } else if !ignoreCurrent && cells[x].PartSymbol? {
        assert cells[x].PartSymbol?;
      } else {
        assert cells[x + 1].PartSymbol?;
      }
    }
  }

  /** Some cell one step away in any of the eight directions is a symbol. */
  ghost predicate SymbolNear(x: nat, y: nat, grid: Grid) {
    exists x': nat, y': nat | y' < |grid| && x' < |grid[y']| && (x', y') != (x, y) &&
                              -1 <= x' - x <= 1 && -1 <= y' - y <= 1 :: grid[y'][x'].PartSymbol?
  }

  /** The eight neighbours, row by row. */
  lemma SymbolNearRows(x: nat, y: nat, grid: Grid)
    requires y < |grid|
    ensures SymbolNear(x, y, grid) <==>
              (y > 0 && SymbolAround(x, grid[y - 1], false)) || SymbolAround(x, grid[y], true) ||
              (y < |grid| - 1 && SymbolAround(x, grid[y + 1], false))
  {
    if SymbolNear(x, y, grid) {
      var x': nat, y': nat :| y' < |grid| && x' < |grid[y']| && (x', y') != (x, y) &&
                              -1 <= x' - x <= 1 && -1 <= y' - y <= 1 && grid[y'][x'].PartSymbol?;
      if y' == y - 1 {
        assert SymbolAround(x, grid[y - 1], false);
      } else if y' == y + 1 {
        assert SymbolAround(x, grid[y + 1], false);
      } else {
        assert SymbolAround(x, grid[y], true);
      }
    }
    if y > 0 && SymbolAround(x, grid[y - 1], false) {
      var x': nat :| x' < |grid[y - 1]| && x - 1 <= x' <= x + 1 && grid[y - 1][x'].PartSymbol?;
      assert grid[y - 1][x'].PartSymbol?;
    } else if SymbolAround(x, grid[y], true) {
      var x': nat :| x' < |grid[y]| && x - 1 <= x' <= x + 1 && x' != x && grid[y][x'].PartSymbol?;
      assert grid[y][x'].PartSymbol?;
    } else if y < |grid| - 1 && SymbolAround(x, grid[y + 1], false) {
      var x': nat :| x' < |grid[y + 1]| && x - 1 <= x' <= x + 1 && grid[y + 1][x'].PartSymbol?;
      assert grid[y + 1][x'].PartSymbol?;
    }
  }

  /** When the check does not fail, it finds a symbol exactly when one of
    * the eight neighbouring cells that exist is a symbol. */
  lemma AdjacentToSymbolIff(x: nat, y: nat, grid: Grid)
    requires y < |grid|
    ensures AdjacentToSymbol(x, y, grid).Ok? ==> (AdjacentToSymbol(x, y, grid).value <==> SymbolNear(x, y, grid))
  {
    if y > 0 {
      SymbolInLineMeaning(x, grid[y - 1], false);
    }
    SymbolInLineMeaning(x, grid[y], true);
    if y < |grid| - 1 {
      SymbolInLineMeaning(x, grid[y + 1], false);
    }
    SymbolNearRows(x, y, grid);
  }

  /** Every row next to row `y` reaches column `x`. */
  predicate NeighboursReach(x: nat, y: nat, grid: Grid)
    requires y < |grid|
  {
    (y > 0 ==> x < |grid[y - 1]|) && (y < |grid| - 1 ==> x < |grid[y + 1]|)
  }

  /** The check fails only on a ragged grid: from a cell of row `y`, when
    * the rows next to it reach its column, every cell read exists. */
  lemma AdjacentToSymbolOk(x: nat, y: nat, grid: Grid)
    requires y < |grid| && x < |grid[y]|
    ensures NeighboursReach(x, y, grid) ==> AdjacentToSymbol(x, y, grid).Ok?
  {
  }

  /** Rows of different lengths: with rows "..", "1*." the symbol to the
    * right of the part on its own row is found; with rows ".", ".1" the
    * cell above the part is read past the end of its row. */
  lemma RaggedRows()
    ensures AdjacentToSymbol(0, 1, [[PartDot, PartDot], [PartNumber(0, 1), PartSymbol('*'), PartDot]]) == Ok(true)
    ensures AdjacentToSymbol(1, 1, [[PartDot], [PartDot, PartNumber(0, 1)]]).Err?
  {
  }

  /** `p` is a part one of whose cells the check finds next to a symbol. */
  ghost predicate CountedPart(grid: Grid, p: PartCell) {
    p.PartNumber? &&
    exists y: nat, x: nat | y < |grid| && x < |grid[y]| :: grid[y][x] == p && AdjacentToSymbol(x, y, grid) == Ok(true)
  }

  /** The parts counted so far: each one next to a symbol, no part twice. */
  ghost predicate Tally(grid: Grid, parts: seq<PartCell>) {
    (forall k | 0 <= k < |parts| :: CountedPart(grid, parts[k])) &&
    (forall k, m | 0 <= k < m < |parts| :: IdOf(parts[k]) != IdOf(parts[m]))
  }

  /** `counted` holds exactly the ids of `parts`. */
  ghost predicate IdsOf(counted: set<nat>, parts: seq<PartCell>) {
    forall id :: id in counted <==> exists k | 0 <= k < |parts| :: IdOf(parts[k]) == id
  }

  /** The id of a part, and -1 for any other cell. */
  function IdOf(p: PartCell): int {
    if p.PartNumber? then p.id else -1
  }

  lemma TallyAppend(grid: Grid, counted: set<nat>, parts: seq<PartCell>, part: PartCell)
    requires Tally(grid, parts) && IdsOf(counted, parts)
    requires part.PartNumber? && part.id !in counted && CountedPart(grid, part)
    ensures Tally(grid, parts + [part]) && IdsOf(counted + {part.id}, parts + [part])
  {
    var parts' := parts + [part];
    forall id | id in counted + {part.id}
      ensures exists k | 0 <= k < |parts'| :: IdOf(parts'[k]) == id
    {
      if id in counted {
        var k :| 0 <= k < |parts| && IdOf(parts[k]) == id;
        assert parts'[k] == parts[k];
      } else {
        assert IdOf(parts'[|parts|]) == id;
      }
    }
    forall id, k | 0 <= k < |parts'| && IdOf(parts'[k]) == id
      ensures id in counted + {part.id}
    {
      if k < |parts| {
        assert parts'[k] == parts[k];
      }
    }
  }

  /** The check fails on some part cell of row `y`. */
  ghost predicate FailsInRow(grid: Grid, y: nat)
    requires y < |grid|
  {
    exists x | 0 <= x < |grid[y]| :: grid[y][x].PartNumber? && AdjacentToSymbol(x, y, grid).Err?
  }

  /** One row of `perform_processing_1`: every part of row `y` next to a
    * symbol is counted afterwards, and none is counted twice. The check is
    * made only for a part not yet counted, and its failure is passed on;
    * it never fails on a rectangular grid. */
  method TallyRow(grid: Grid, y: nat, counted: set<nat>, parts: seq<PartCell>)
    returns (r: Result<(set<nat>, seq<PartCell>)>)
    requires y < |grid|
    requires Tally(grid, parts) && IdsOf(counted, parts)
    ensures r.Ok? ==> Tally(grid, r.value.1) && IdsOf(r.value.0, r.value.1) && counted <= r.value.0
    ensures r.Ok? ==> forall x | 0 <= x < |grid[y]| && grid[y][x].PartNumber? && AdjacentToSymbol(x, y, grid) == Ok(true) ::
                        grid[y][x].id in r.value.0
    ensures r.Err? ==> FailsInRow(grid, y)
    ensures Rectangular(grid) ==> r.Ok?
  {
    var counted', parts' := counted, parts;
    var cells := grid[y];
    for x := 0 to |cells|
      invariant Tally(grid, parts') && IdsOf(counted', parts') && counted <= counted'
      invariant forall col | 0 <= col < x && cells[col].PartNumber? && AdjacentToSymbol(col, y, grid) == Ok(true) ::
                  cells[col].id in counted'
    {
      var cell := cells[x];
      if cell.PartNumber? && cell.id !in counted' {
        var adjacent := AdjacentToSymbol(x, y, grid);
        if adjacent.Err? {
          assert grid[y][x].PartNumber? && AdjacentToSymbol(x, y, grid).Err?;
          AdjacentToSymbolOk(x, y, grid);
          return Err(adjacent.error);
        }
        if adjacent.value {
          assert CountedPart(grid, cell) by {
            assert grid[y][x] == cell;
          }
          TallyAppend(grid, counted', parts', cell);
          counted' := counted' + {cell.id};
          parts' := parts' + [cell];
        }
      }
    }
    return Ok((counted', parts'));
  }

  /** `perform_processing_1`: the parts next to a symbol, each part once,
    * in the order their first such cell appears. On a ragged grid the
    * check can read past the end of a shorter row, which fails the whole
    * run; a rectangular grid never fails. */
  method PerformProcessing1(grid: Grid) returns (r: Result<seq<PartCell>>)
    ensures r.Ok? ==> Tally(grid, r.value)
    ensures r.Ok? ==> forall y, x | 0 <= y < |grid| && 0 <= x < |grid[y]| && grid[y][x].PartNumber? &&
                                   AdjacentToSymbol(x, y, grid) == Ok(true) ::
                        exists k | 0 <= k < |r.value| :: IdOf(r.value[k]) == grid[y][x].id
    ensures r.Err? ==> exists y | 0 <= y < |grid| :: FailsInRow(grid, y)
    ensures Rectangular(grid) ==> r.Ok?
  {
    var counted: set<nat> := {};
    var parts: seq<PartCell> := [];
    for y := 0 to |grid|
      invariant Tally(grid, parts) && IdsOf(counted, parts)
      invariant forall row, x | 0 <= row < y && 0 <= x < |grid[row]| && grid[row][x].PartNumber? &&
                                AdjacentToSymbol(x, row, grid) == Ok(true) :: grid[row][x].id in counted
    {
      var step := TallyRow(grid, y, counted, parts);
      if step.Err? {
        return Err(step.error);
      }
      counted, parts := step.value.0, step.value.1;
    }
    return Ok(parts);
  }

  /** `calc_result_1`: the sum of the parts' numbers. */
  function PartSum(parts: seq<PartCell>): (r: int)
    ensures parts == [] ==> r == 0
  {
    if parts == [] then 0
    else PartSum(parts[..|parts| - 1]) + (match parts[|parts| - 1] case PartNumber(_, n) => n case _ => 0)
  }

  /** The sum splits over any split of the parts. */
  lemma {:induction false} PartSumConcat(a: seq<PartCell>, b: seq<PartCell>)
    ensures PartSum(a + b) == PartSum(a) + PartSum(b)
  {
    if b != [] {
      var b' := b[..|b| - 1];
      PartSumConcat(a, b');
      assert (a + b)[..|a + b| - 1] == a + b';
    } else {
      assert a + b == a;
    }
  }

  // ---------------------------------------------------------------------
  // Part two

  /** `get_part`: the part at (x, y), nothing when the position is outside
    * the grid or holds no part. */
  function GetPart(x: int, y: int, grid: Grid): (r: Option<PartCell>)
    ensures r.Some? <==> 0 <= y < |grid| && 0 <= x < |grid[y]| && grid[y][x].PartNumber?
    ensures r.Some? ==> r.value == grid[y][x]
  {
    if y < 0 || x < 0 then None
    else if y >= |grid| then None
    else if x >= |grid[y]| then None
    else if grid[y][x].PartNumber? then Some(grid[y][x])
    else None
  }

  /** `find_adjacent_parts`: the distinct parts found at the centre moved
    * by each of `deltas`. */
  function PartsAround(cx: nat, cy: nat, grid: Grid, deltas: seq<(int, int)>): (r: set<PartCell>)
    ensures forall p :: p in r <==> exists d | d in deltas :: GetPart(cx + d.0, cy + d.1, grid) == Some(p)
  {
    if deltas == [] then {}
    else
      var found := GetPart(cx + deltas[0].0, cy + deltas[0].1, grid);
      var rest := PartsAround(cx, cy, grid, deltas[1..]);
      assert forall d | d in deltas[1..] :: d in deltas;
      if found.Some? then rest + {found.value} else rest
  }

  /** A gear: a '*' with exactly two distinct parts around it. */
  predicate IsGear(x: nat, y: nat, grid: Grid)
    requires y < |grid| && x < |grid[y]|
  {
    grid[y][x] == PartSymbol('*') && |PartsAround(x, y, grid, DiagonalDeltas)| == 2
  }

  /** The part sets of the gears before (x, y) in row-major order. */
  function GearsBefore(grid: Grid, y: nat, x: nat): seq<set<PartCell>>
    requires y <= |grid| && (y < |grid| ==> x <= |grid[y]|) && (y == |grid| ==> x == 0)
    decreases y, x
  {
    if x == 0 then
      if y == 0 then [] else GearsBefore(grid, y - 1, |grid[y - 1]|)
    else
      GearsBefore(grid, y, x - 1) + (if IsGear(x - 1, y, grid) then [PartsAround(x - 1, y, grid, DiagonalDeltas)] else [])
  }

  /** One more cell adds its gear, if it is one. */
  lemma GearsStep(grid: Grid, y: nat, x: nat)
    requires y < |grid| && x < |grid[y]|
    ensures GearsBefore(grid, y, x + 1) ==
              GearsBefore(grid, y, x) + (if IsGear(x, y, grid) then [PartsAround(x, y, grid, DiagonalDeltas)] else [])
  {
  }

  /** Finishing a row is starting the next. */
  lemma GearsNextRow(grid: Grid, y: nat)
    requires y < |grid|
    ensures GearsBefore(grid, y + 1, 0) == GearsBefore(grid, y, |grid[y]|)
  {
  }

  /** A set of two elements: any element has a distinct partner, and the
    * two make up the set. */
  /** A two-element set minus one of its elements still has one left. */
  lemma OtherElement<T>(s: set<T>, a: T)
    requires |s| == 2 && a in s
    ensures exists b :: b in s - {a}
  {
    OneLess(s, a);
  }

  /** A two-element set is the pair of any two of its distinct elements. */
  lemma BothElements<T>(s: set<T>, a: T, b: T)
    requires |s| == 2 && a in s && b in s - {a}
    ensures s == {a, b}
  {
    OneLess(s, a);
    OneLess(s - {a}, b);
    assert s - {a} - {b} == {};
    assert s == (s - {a} - {b}) + {a, b};
  }

  lemma OneLess<T>(s: set<T>, a: T)
    requires a in s
    ensures |s - {a}| == |s| - 1
  {
    assert s == (s - {a}) + {a};
  }

  /** The unordered pair. */
  function PairSet(pair: (PartCell, PartCell)): set<PartCell> {
    {pair.0, pair.1}
  }

  /** Each pair holds two distinct parts, making up the matching gear's set. */
  predicate PairsMatch(pairs: seq<(PartCell, PartCell)>, gears: seq<set<PartCell>>) {
    |pairs| == |gears| && forall k | 0 <= k < |pairs| :: pairs[k].0 != pairs[k].1 && PairSet(pairs[k]) == gears[k]
  }

  lemma PairsMatchAppend(pairs: seq<(PartCell, PartCell)>, gears: seq<set<PartCell>>, pair: (PartCell, PartCell))
    requires PairsMatch(pairs, gears) && pair.0 != pair.1
    ensures PairsMatch(pairs + [pair], gears + [PairSet(pair)])
  {
  }

  /** `perform_processing_2`: one pair per gear in row-major order, the
    * gear's two parts in an unspecified order. */
  method PerformProcessing2(grid: Grid) returns (r: seq<(PartCell, PartCell)>)
    ensures PairsMatch(r, GearsBefore(grid, |grid|, 0))
  {
    r := [];
    ghost var gears: seq<set<PartCell>> := [];
    for y := 0 to |grid|
      invariant gears == GearsBefore(grid, y, 0) && PairsMatch(r, gears)
    {
      var cells := grid[y];
      for x := 0 to |cells|
        invariant gears == GearsBefore(grid, y, x) && PairsMatch(r, gears)
      {
        GearsStep(grid, y, x);
        if cells[x] == PartSymbol('*') {
          var parts := PartsAround(x, y, grid, DiagonalDeltas);
          if |parts| == 2 {
            assert parts != {};
            var first :| first in parts;
            OtherElement(parts, first);
            var second :| second in parts - {first};
            BothElements(parts, first, second);
            PairsMatchAppend(r, gears, (first, second));
            r := r + [(first, second)];
            gears := gears + [parts];
          }
        }
      }
      GearsNextRow(grid, y);
    }
  }

  function GearRatio(pair: (PartCell, PartCell)): int {
    match pair
    case (PartNumber(_, n1), PartNumber(_, n2)) => n1 * n2
    case _ => 0
  }

  /** The ratio of a gear does not depend on which part came first. */
  lemma GearRatioSymmetric(a: PartCell, b: PartCell)
    ensures GearRatio((a, b)) == GearRatio((b, a))
    ensures a.PartNumber? && b.PartNumber? ==> GearRatio((a, b)) == a.number * b.number
  {
  }

  /** `calc_result_2`: the sum of the gear ratios. */
  function GearRatioSum(pairs: seq<(PartCell, PartCell)>): (r: int)
    ensures pairs == [] ==> r == 0
  {
    if pairs == [] then 0 else GearRatioSum(pairs[..|pairs| - 1]) + GearRatio(pairs[|pairs| - 1])
  }

  /** The sum splits over any split of the gears. */
  lemma {:induction false} GearRatioSumConcat(a: seq<(PartCell, PartCell)>, b: seq<(PartCell, PartCell)>)
    ensures GearRatioSum(a + b) == GearRatioSum(a) + GearRatioSum(b)
  {
    if b != [] {
      var b' := b[..|b| - 1];
      GearRatioSumConcat(a, b');
      assert (a + b)[..|a + b| - 1] == a + b';
    } else {
      assert a + b == a;
    }
  }
}
