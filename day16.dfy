// The lava floor: a grid of empty space, mirrors and splitters that a beam
// of light crosses. Each beam is a cell and the direction the light travels
// through it; starting from one beam, every beam it turns into is followed
// until no new (cell, direction) pair turns up. A cell is energised when
// some beam passes through it.
module Day16 {
  import opened Wrappers
  import opened Numbers
  import opened Processor
  import opened Grids

  datatype Tile =
    | Space
    | MirrorTopLeftBottomRight
    | MirrorBottomLeftTopRight
    | SplitterHorizontal
    | SplitterVertical

  datatype LightDirection = Up | Right | Down | Left

  type Lines = seq<seq<Tile>>

  /** A beam: the cell the light is in and the way it is going. */
  type Beam = ((nat, nat), LightDirection)

  /** A beam that may have left the grid. */
  type Candidate = ((int, int), LightDirection)

  // ---------------------------------------------------------------------
  // Tiles and loading

  /** `char_rep`. */
  function Symbol(tile: Tile): char {
    match tile
    case Space => '.'
    case MirrorTopLeftBottomRight => '\\'
    case MirrorBottomLeftTopRight => '/'
    case SplitterHorizontal => '-'
    case SplitterVertical => '|'
  }

  /** `parse_line`'s table; None for a character it panics on. */
  function TileOf(c: char): (r: Option<Tile>)
    ensures r.Some? <==> c == '.' || c == '\\' || c == '/' || c == '-' || c == '|'
    ensures r.Some? ==> Symbol(r.value) == c
  {
    match c
    case '.' => Some(Space)
    case '\\' => Some(MirrorTopLeftBottomRight)
    case '/' => Some(MirrorBottomLeftTopRight)
    case '-' => Some(SplitterHorizontal)
    case '|' => Some(SplitterVertical)
    case _ => None
  }

  lemma TileOfSymbol(tile: Tile)
    ensures TileOf(Symbol(tile)) == Some(tile)
  {
  }

  /** The tiles of a line, None when some character is not a tile. */
  function RowOf(line: string): (r: Option<seq<Tile>>)
    ensures r.Some? <==> forall i | 0 <= i < |line| :: TileOf(line[i]).Some?
    ensures r.Some? ==> |r.value| == |line| && forall i | 0 <= i < |line| :: Some(r.value[i]) == TileOf(line[i])
  {
    if line == [] then Some([])
    else
      match RowOf(line[..|line| - 1])
      case None => None
      case Some(front) =>
        match TileOf(line[|line| - 1])
        case None => None
        case Some(tile) => Some(front + [tile])
  }

  /** How a row is written. */
  function ShowRow(row: seq<Tile>): (r: string)
    ensures |r| == |row| && forall i | 0 <= i < |row| :: r[i] == Symbol(row[i])
  {
    seq(|row|, i requires 0 <= i < |row| => Symbol(row[i]))
  }

  lemma RowOfShown(row: seq<Tile>)
    ensures RowOf(ShowRow(row)) == Some(row)
  {
    var line := ShowRow(row);
    forall i | 0 <= i < |line|
      ensures TileOf(line[i]).Some?
    {
      TileOfSymbol(row[i]);
    }
    var r := RowOf(line);
    forall i | 0 <= i < |row|
      ensures r.value[i] == row[i]
    {
      TileOfSymbol(row[i]);
    }
    assert r.value == row;
  }

  /** `parse_line`: an empty line is skipped; any other line is the next
    * row of the grid, and a character that is not a tile is an error (the
    * source panics on it). */
  function ParseLine(state: Lines, line: string): (r: Result<Lines>)
    ensures line == [] ==> r == Ok(state)
    ensures line != [] ==> (r.Ok? <==> RowOf(line).Some?)
    ensures line != [] && r.Ok? ==>
              |r.value| == |state| + 1 && r.value[..|state|] == state && ShowRow(r.value[|state|]) == line
  {
    if line == [] then Ok(state)
    else
      match RowOf(line)
      case None => Err("Unrecognised tile")
      case Some(row) =>
        assert ShowRow(row) == line;
        Ok(state + [row])
  }

  function ShowRows(rows: Lines): (r: seq<string>)
    ensures |r| == |rows| && forall i | 0 <= i < |rows| :: r[i] == ShowRow(rows[i])
  {
    seq(|rows|, i requires 0 <= i < |rows| => ShowRow(rows[i]))
  }

  lemma ShowRowsAppend(front: Lines, last: seq<Tile>)
    ensures ShowRows(front + [last]) == ShowRows(front) + [ShowRow(last)]
  {
  }

  /** Reading the printed rows of a grid, none of them empty, gives the
    * rows back. */
  lemma {:induction false} ParseShownRows(rows: Lines)
    requires forall i | 0 <= i < |rows| :: rows[i] != []
    ensures ParseLines([], ShowRows(rows), ParseLine) == Ok(rows)
  {
    if rows == [] {
      assert ShowRows(rows) == [];
    } else {
      var front, last := rows[..|rows| - 1], rows[|rows| - 1];
      ParseShownRows(front);
      assert front + [last] == rows;
      ShowRowsAppend(front, last);
      ParseLinesAppend([], ShowRows(front), ShowRow(last), ParseLine);
      RowOfShown(last);
    }
  }

  /** `finalise_state`: the rows become the grid, as wide as the widest row
    * with short rows padded with space; no rows, or only empty ones, is an
    * error. */
  method FinaliseState(lines: Lines) returns (r: Result<Cells<Tile>>)
    ensures r.Ok? <==> lines != [] && MaxWidth(lines) > 0
    ensures r.Ok? ==>
              fresh(r.value) && r.value.Valid() &&
              r.value.width == MaxWidth(lines) && r.value.height == |lines| &&
              r.value.contents == Padded(lines, MaxWidth(lines), Space)
  {
    if lines == [] {
      return Err("No point in building cells when there are no lines");
    }
    var width := MaxWidth(lines);
    if width == 0 {
      return Err("No point in building cells when the width is 0");
    }
    PaddedAt(lines, width, Space);
    var grid := new Cells.FromContents(Padded(lines, width, Space), width, |lines|);
    return Ok(grid);
  }

  // ---------------------------------------------------------------------
  // Directions

  predicate Vertical(d: LightDirection) {
    d == Up || d == Down
  }

  function Opposite(d: LightDirection): (r: LightDirection)
    ensures r != d && Vertical(r) == Vertical(d)
  {
    match d
    case Up => Down
    case Down => Up
    case Left => Right
    case Right => Left
  }

  /** `get_next_direction`: the beam one cell on in the way it travels,
    * row 0 being the top; the direction is kept. */
  function Next(x: nat, y: nat, d: LightDirection): (r: Candidate)
    ensures r.1 == d
    ensures Vertical(d) ==> r.0.0 == x && (r.0.1 == y + 1 || r.0.1 == y - 1)
    ensures !Vertical(d) ==> r.0.1 == y && (r.0.0 == x + 1 || r.0.0 == x - 1)
  {
    match d
    case Up => ((x, y - 1), d)
    case Down => ((x, y + 1), d)
    case Left => ((x - 1, y), d)
    case Right => ((x + 1, y), d)
  }

  /** Going one cell on and then one cell back comes home; so does every
    * direction lead somewhere different. */
  lemma NextBack(x: nat, y: nat, d: LightDirection)
    requires Next(x, y, d).0.0 >= 0 && Next(x, y, d).0.1 >= 0
    ensures Next(Next(x, y, d).0.0, Next(x, y, d).0.1, Opposite(d)).0 == (x, y)
    ensures forall e | e != d :: Next(x, y, e).0 != Next(x, y, d).0
  {
  }

  /** The directions a beam going in d leaves a tile in: the table of
    * `process_light_direction`. */
  function Outgoing(tile: Tile, d: LightDirection): (r: seq<LightDirection>)
    ensures 1 <= |r| <= 2
    ensures |r| == 2 ==> r[0] != r[1]
  {
    match (tile, d)
    case (MirrorTopLeftBottomRight, Up) => [Left]
    case (MirrorTopLeftBottomRight, Down) => [Right]
    case (MirrorTopLeftBottomRight, Left) => [Up]
    case (MirrorTopLeftBottomRight, Right) => [Down]
    case (MirrorBottomLeftTopRight, Up) => [Right]
    case (MirrorBottomLeftTopRight, Down) => [Left]
    case (MirrorBottomLeftTopRight, Left) => [Down]
    case (MirrorBottomLeftTopRight, Right) => [Up]
    case (SplitterHorizontal, Up) => [Left, Right]
    case (SplitterHorizontal, Down) => [Left, Right]
    case (SplitterVertical, Left) => [Up, Down]
    case (SplitterVertical, Right) => [Up, Down]
    case _ => [d]
  }

  predicate IsMirror(tile: Tile) {
    tile == MirrorTopLeftBottomRight || tile == MirrorBottomLeftTopRight
  }

  /** A mirror turns the beam through a right angle, and the light's path
    * can be run backwards: the reversed outgoing beam leaves along the
    * reversed incoming one. */
  lemma MirrorTurns(tile: Tile, d: LightDirection)
    requires IsMirror(tile)
    ensures |Outgoing(tile, d)| == 1
    ensures Vertical(Outgoing(tile, d)[0]) != Vertical(d)
    ensures Outgoing(tile, Opposite(Outgoing(tile, d)[0])) == [Opposite(d)]
  {
  }

  /** The two mirrors send every beam opposite ways. */
  lemma MirrorsDisagree(d: LightDirection)
    ensures Outgoing(MirrorTopLeftBottomRight, d)[0] == Opposite(Outgoing(MirrorBottomLeftTopRight, d)[0])
  {
  }

  /** A splitter met on its flat side sends the beam both ways along it. */
  lemma SplitterSplits(tile: Tile, d: LightDirection)
    requires (tile == SplitterHorizontal && Vertical(d)) || (tile == SplitterVertical && !Vertical(d))
    ensures |Outgoing(tile, d)| == 2
    ensures Vertical(Outgoing(tile, d)[0]) != Vertical(d)
    ensures Outgoing(tile, d)[1] == Opposite(Outgoing(tile, d)[0])
  {
  }

  /** Space, and a splitter met end on, let the beam straight through. */
  lemma PassesThrough(tile: Tile, d: LightDirection)
    requires tile == Space || (tile == SplitterHorizontal && !Vertical(d)) || (tile == SplitterVertical && Vertical(d))
    ensures Outgoing(tile, d) == [d]
  {
  }

  /** The beams the light at (x, y) going in d carries on as. */
  function Candidates(x: nat, y: nat, tile: Tile, d: LightDirection): seq<Candidate> {
    var out := Outgoing(tile, d);
    seq(|out|, k requires 0 <= k < |out| => Next(x, y, out[k]))
  }

  predicate Distinct<T(==)>(s: seq<T>) {
    forall i, j | 0 <= i < j < |s| :: s[i] != s[j]
  }

  lemma CandidatesDistinct(x: nat, y: nat, tile: Tile, d: LightDirection)
    ensures Distinct(Candidates(x, y, tile, d))
  {
  }

  // ---------------------------------------------------------------------
  // The record of beams seen

  predicate Inside(w: nat, h: nat, x: int, y: int) {
    0 <= x < w && 0 <= y < h
  }

  predicate AllInside(w: nat, h: nat, beams: seq<Beam>) {
    forall k | 0 <= k < |beams| :: Inside(w, h, beams[k].0.0, beams[k].0.1)
  }

  function Lift(b: Beam): Candidate {
    ((b.0.0 as int, b.0.1 as int), b.1)
  }

  /** The `directions` grid holds beam b: its cell is on the grid and its
    * set of directions holds b's. */
  predicate Recorded(m: seq<set<LightDirection>>, w: nat, h: nat, b: Beam)
    requires |m| == Mul(h, w)
  {
    Inside(w, h, b.0.0, b.0.1) && b.1 in CellAt(m, w, h, b.0.0, b.0.1)
  }

  /** The filter of `process_light_direction`: the candidates on the grid
    * whose direction is not yet recorded at their cell, in order. */
  function Fresh(cands: seq<Candidate>, m: seq<set<LightDirection>>, w: nat, h: nat): (r: seq<Beam>)
    requires |m| == Mul(h, w)
    ensures |r| <= |cands| && AllInside(w, h, r)
  {
    if cands == [] then []
    else
      var front := Fresh(cands[..|cands| - 1], m, w, h);
      var c := cands[|cands| - 1];
      if Inside(w, h, c.0.0, c.0.1) && c.1 !in CellAt(m, w, h, c.0.0, c.0.1) then front + [((c.0.0, c.0.1), c.1)]
      else front
  }

  /** A beam survives the filter iff it is a candidate, on the grid and not
    * recorded. */
  lemma {:induction false} FreshMeaning(cands: seq<Candidate>, m: seq<set<LightDirection>>, w: nat, h: nat, b: Beam)
    requires |m| == Mul(h, w)
    ensures b in Fresh(cands, m, w, h) <==> Lift(b) in cands && Inside(w, h, b.0.0, b.0.1) && !Recorded(m, w, h, b)
  {
    if cands != [] {
      var front := cands[..|cands| - 1];
      FreshMeaning(front, m, w, h, b);
      assert cands == front + [cands[|cands| - 1]];
    }
  }

  /** Different candidates pass the filter as different beams. */
  lemma {:induction false} FreshDistinct(cands: seq<Candidate>, m: seq<set<LightDirection>>, w: nat, h: nat)
    requires |m| == Mul(h, w) && Distinct(cands)
    ensures Distinct(Fresh(cands, m, w, h))
  {
    if cands != [] {
      var front := cands[..|cands| - 1];
      var c := cands[|cands| - 1];
      FreshDistinct(front, m, w, h);
      var f := Fresh(front, m, w, h);
      if Inside(w, h, c.0.0, c.0.1) && c.1 !in CellAt(m, w, h, c.0.0, c.0.1) {
        var b: Beam := ((c.0.0, c.0.1), c.1);
        FreshMeaning(front, m, w, h, b);
        assert Lift(b) == c;
        assert c !in front by {
          forall i | 0 <= i < |front|
            ensures front[i] != c
          {
            assert front[i] == cands[i];
          }
        }
        assert b !in f;
        var r := f + [b];
        forall i, j | 0 <= i < j < |r|
          ensures r[i] != r[j]
        {
          if j == |r| - 1 {
            assert r[i] in f;
          }
        }
      }
    }
  }

  /** The record with the beams added: each beam's direction joins its
    * cell's set. */
  function Mark(m: seq<set<LightDirection>>, w: nat, h: nat, beams: seq<Beam>): (r: seq<set<LightDirection>>)
    requires |m| == Mul(h, w) && AllInside(w, h, beams)
    ensures |r| == |m|
  {
    if beams == [] then m
    else
      var front := Mark(m, w, h, beams[..|beams| - 1]);
      var b := beams[|beams| - 1];
      RowMajorInRange(b.0.0, b.0.1, w, h);
      var i := RowMajor(b.0.0, b.0.1, w);
      front[i := front[i] + {b.1}]
  }

  /** After marking, exactly the old beams and the marked ones are
    * recorded. */
  lemma {:induction false} MarkMeaning(m: seq<set<LightDirection>>, w: nat, h: nat, beams: seq<Beam>, c: Beam)
    requires |m| == Mul(h, w) && AllInside(w, h, beams)
    ensures Recorded(Mark(m, w, h, beams), w, h, c) <==> Recorded(m, w, h, c) || c in beams
  {
    if beams != [] {
      var n := |beams|;
      var rest := beams[..n - 1];
      var b := beams[n - 1];
      assert beams == rest + [b];
      MarkMeaning(m, w, h, rest, c);
      var front := Mark(m, w, h, rest);
      RowMajorInRange(b.0.0, b.0.1, w, h);
      var i := RowMajor(b.0.0, b.0.1, w);
      var r := Mark(m, w, h, beams);
      assert r == front[i := front[i] + {b.1}];
      if Inside(w, h, c.0.0, c.0.1) {
        RowMajorInRange(c.0.0, c.0.1, w, h);
        var j := RowMajor(c.0.0, c.0.1, w);
        if c.0 == b.0 {
          assert j == i;
        } else {
          RowMajorDistinct(c.0.0, c.0.1, b.0.0, b.0.1, w);
          assert r[j] == front[j];
        }
      } else {
        assert c != b;
      }
    }
  }

  const AllDirections: set<LightDirection> := {Up, Right, Down, Left}

  /** How many (cell, direction) pairs are not yet recorded. */
  function Missing(m: seq<set<LightDirection>>): nat {
    if m == [] then 0 else Missing(m[..|m| - 1]) + |AllDirections - m[|m| - 1]|
  }

  lemma {:induction false} MissingUpdate(m: seq<set<LightDirection>>, i: nat, s: set<LightDirection>)
    requires i < |m|
    ensures Missing(m[i := s]) + |AllDirections - m[i]| == Missing(m) + |AllDirections - s|
  {
    var n := |m|;
    var u := m[i := s];
    if i == n - 1 {
      assert u[..n - 1] == m[..n - 1];
    } else {
      assert u[..n - 1] == m[..n - 1][i := s];
      MissingUpdate(m[..n - 1], i, s);
    }
  }

  lemma AddOne(s: set<LightDirection>, d: LightDirection)
    requires d !in s
    ensures |AllDirections - (s + {d})| + 1 == |AllDirections - s|
  {
    assert AllDirections - s == (AllDirections - (s + {d})) + {d};
  }

  /** Marking distinct beams that were not recorded records each one anew. */
  lemma {:induction false} MarkMissing(m: seq<set<LightDirection>>, w: nat, h: nat, beams: seq<Beam>)
    requires |m| == Mul(h, w) && AllInside(w, h, beams) && Distinct(beams)
    requires forall k | 0 <= k < |beams| :: !Recorded(m, w, h, beams[k])
    ensures Missing(Mark(m, w, h, beams)) + |beams| == Missing(m)
  {
    if beams != [] {
      var n := |beams|;
      var rest := beams[..n - 1];
      var b := beams[n - 1];
      MarkMissing(m, w, h, rest);
      var front := Mark(m, w, h, rest);
      MarkMeaning(m, w, h, rest, b);
      assert b !in rest by {
        forall k | 0 <= k < |rest|
          ensures rest[k] != b
        {
          assert rest[k] == beams[k];
        }
      }
      RowMajorInRange(b.0.0, b.0.1, w, h);
      var i := RowMajor(b.0.0, b.0.1, w);
      assert b.1 !in front[i];
      AddOne(front[i], b.1);
      MissingUpdate(front, i, front[i] + {b.1});
    }
  }

  // ---------------------------------------------------------------------
  // Where light goes

  /** The beams the light of an on-grid beam carries on as. */
  function Successors(t: seq<Tile>, w: nat, h: nat, b: Beam): seq<Candidate>
    requires |t| == Mul(h, w) && Inside(w, h, b.0.0, b.0.1)
  {
    Candidates(b.0.0, b.0.1, CellAt(t, w, h, b.0.0, b.0.1), b.1)
  }

  /** Beam c is on the grid and follows on from beam a. */
  ghost predicate Follows(t: seq<Tile>, w: nat, h: nat, a: Beam, c: Beam)
    requires |t| == Mul(h, w)
  {
    Inside(w, h, a.0.0, a.0.1) && Inside(w, h, c.0.0, c.0.1) && Lift(c) in Successors(t, w, h, a)
  }

  ghost predicate IsPath(t: seq<Tile>, w: nat, h: nat, p: seq<Beam>)
    requires |t| == Mul(h, w)
  {
    forall i | 0 <= i < |p| - 1 :: Follows(t, w, h, p[i], p[i + 1])
  }

  /** Light entering at `start` reaches beam b. */
  ghost predicate Reachable(t: seq<Tile>, w: nat, h: nat, start: Beam, b: Beam)
    requires |t| == Mul(h, w)
  {
    exists p :: IsPath(t, w, h, p) && |p| > 0 && p[0] == start && p[|p| - 1] == b
  }

  lemma ReachableStep(t: seq<Tile>, w: nat, h: nat, start: Beam, b: Beam, c: Beam)
    requires |t| == Mul(h, w)
    requires Reachable(t, w, h, start, b) && Follows(t, w, h, b, c)
    ensures Reachable(t, w, h, start, c)
  {
    var p :| IsPath(t, w, h, p) && |p| > 0 && p[0] == start && p[|p| - 1] == b;
    var q := p + [c];
    assert IsPath(t, w, h, q) by {
      forall i | 0 <= i < |q| - 1
        ensures Follows(t, w, h, q[i], q[i + 1])
      {
        if i < |p| - 1 {
          assert q[i] == p[i] && q[i + 1] == p[i + 1];
        }
      }
    }
  }

  /** Light entering at `start` passes through cell (x, y). */
  ghost predicate Energised(t: seq<Tile>, w: nat, h: nat, start: Beam, x: nat, y: nat)
    requires |t| == Mul(h, w)
  {
    Reachable(t, w, h, start, ((x, y), Up)) || Reachable(t, w, h, start, ((x, y), Right)) ||
    Reachable(t, w, h, start, ((x, y), Down)) || Reachable(t, w, h, start, ((x, y), Left))
  }

  /** The energised cells, by row-major index. */
  ghost function EnergisedSet(t: seq<Tile>, w: nat, h: nat, start: Beam): set<nat>
    requires |t| == Mul(h, w)
  {
    set i: nat | i < |t| && w > 0 && Energised(t, w, h, start, i % w, i / w)
  }

  // ---------------------------------------------------------------------
  // Following the light

  /** `create_empty_light_directions`: a grid of empty direction sets as
    * large as the tiles. */
  method CreateEmptyLightDirections(tiles: Cells<Tile>) returns (directions: Cells<set<LightDirection>>)
    ensures fresh(directions) && directions.Valid()
    ensures directions.width == tiles.width && directions.height == tiles.height
    ensures forall i | 0 <= i < |directions.contents| :: directions.contents[i] == {}
  {
    directions := new Cells.WithDimension(tiles.width, tiles.height, {});
  }

  /** `process_light_direction`: the beams an on-grid beam carries on as
    * that are on the grid and not yet recorded, which are then recorded. */
  method ProcessLightDirection(tiles: Cells<Tile>, directions: Cells<set<LightDirection>>, beam: Beam)
      returns (next: seq<Beam>)
    requires tiles.Valid() && directions.Valid()
    requires directions.width == tiles.width && directions.height == tiles.height
    requires Inside(tiles.width, tiles.height, beam.0.0, beam.0.1)
    modifies directions
    ensures directions.Valid() && directions.width == tiles.width && directions.height == tiles.height
    ensures next == Fresh(Successors(tiles.contents, tiles.width, tiles.height, beam), old(directions.contents), tiles.width, tiles.height)
    ensures directions.contents == Mark(old(directions.contents), tiles.width, tiles.height, next)
  {
    var w, h := tiles.width, tiles.height;
    var x, y, d := beam.0.0, beam.0.1, beam.1;
    var tile := tiles.Get(x, y);
    var candidates := Candidates(x, y, tile.value, d);
    ghost var m := directions.contents;
    next := [];
    for k := 0 to |candidates|
      invariant next == Fresh(candidates[..k], m, w, h)
    {
      var cx, cy, cd := candidates[k].0.0, candidates[k].0.1, candidates[k].1;
      assert candidates[..k + 1][..k] == candidates[..k];
      if directions.InBounds(cx, cy) {
        var dirs := directions.Get(cx, cy);
        if cd !in dirs.value {
          next := next + [((cx, cy), cd)];
        }
      }
    }
    assert candidates[..|candidates|] == candidates;
    for k := 0 to |next|
      invariant directions.Valid() && directions.width == w && directions.height == h
      invariant directions.contents == Mark(m, w, h, next[..k])
    {
      var px, py, pd := next[k].0.0, next[k].0.1, next[k].1;
      assert next[..k + 1][..k] == next[..k];
      var dirs := directions.Get(px, py);
      var _ := directions.Set(px, py, dirs.value + {pd});
    }
    assert next[..|next|] == next;
  }

  /** Every beam light from b carries on as is recorded. */
  ghost predicate FollowersRecorded(t: seq<Tile>, m: seq<set<LightDirection>>, w: nat, h: nat, b: Beam)
    requires |t| == Mul(h, w) && |m| == Mul(h, w)
  {
    forall c: Beam | Follows(t, w, h, b, c) :: Recorded(m, w, h, c)
  }

  /** Everything recorded is lit by light entering as `start`. */
  ghost predicate Sound(t: seq<Tile>, m: seq<set<LightDirection>>, w: nat, h: nat, start: Beam)
    requires |t| == Mul(h, w) && |m| == Mul(h, w)
  {
    forall b: Beam | Recorded(m, w, h, b) :: Reachable(t, w, h, start, b)
  }

  /** A recorded beam not waiting in the queue has its followers recorded. */
  ghost predicate ClosedBesides(t: seq<Tile>, m: seq<set<LightDirection>>, w: nat, h: nat, queue: seq<Beam>)
    requires |t| == Mul(h, w) && |m| == Mul(h, w)
  {
    forall b: Beam | Recorded(m, w, h, b) :: b in queue || FollowersRecorded(t, m, w, h, b)
  }

  /** What `process_from` keeps true: the start and every queued beam are
    * recorded, everything recorded is lit from the start, and a recorded
    * beam not waiting in the queue has all its followers recorded. */
  ghost predicate Frontier(t: seq<Tile>, m: seq<set<LightDirection>>, w: nat, h: nat, start: Beam, queue: seq<Beam>)
    requires |t| == Mul(h, w) && |m| == Mul(h, w)
  {
    Recorded(m, w, h, start) &&
    (forall k | 0 <= k < |queue| :: Recorded(m, w, h, queue[k])) &&
    Sound(t, m, w, h, start) && ClosedBesides(t, m, w, h, queue)
  }

  lemma FrontierStart(t: seq<Tile>, m: seq<set<LightDirection>>, w: nat, h: nat, start: Beam)
    requires |t| == Mul(h, w) && |m| == Mul(h, w) && Inside(w, h, start.0.0, start.0.1)
    requires forall b: Beam | Recorded(m, w, h, b) :: b == start
    requires Recorded(m, w, h, start)
    ensures Frontier(t, m, w, h, start, [start])
  {
    assert IsPath(t, w, h, [start]);
  }

  /** The beams recorded by processing b are lit from the start. */
  lemma StepSound(t: seq<Tile>, m: seq<set<LightDirection>>, w: nat, h: nat, start: Beam, b: Beam, next: seq<Beam>)
    requires |t| == Mul(h, w) && |m| == Mul(h, w) && Inside(w, h, b.0.0, b.0.1)
    requires Sound(t, m, w, h, start) && Recorded(m, w, h, b)
    requires next == Fresh(Successors(t, w, h, b), m, w, h)
    ensures Sound(t, Mark(m, w, h, next), w, h, start)
  {
    var m' := Mark(m, w, h, next);
    forall c: Beam | Recorded(m', w, h, c)
      ensures Reachable(t, w, h, start, c)
    {
      MarkMeaning(m, w, h, next, c);
      if !Recorded(m, w, h, c) {
        FreshMeaning(Successors(t, w, h, b), m, w, h, c);
        assert Follows(t, w, h, b, c);
        ReachableStep(t, w, h, start, b, c);
      }
    }
  }

  /** Processing b, the head of the queue, records all of b's followers. */
  lemma StepClosed(t: seq<Tile>, m: seq<set<LightDirection>>, w: nat, h: nat, b: Beam, rest: seq<Beam>, next: seq<Beam>)
    requires |t| == Mul(h, w) && |m| == Mul(h, w) && Inside(w, h, b.0.0, b.0.1)
    requires ClosedBesides(t, m, w, h, [b] + rest)
    requires next == Fresh(Successors(t, w, h, b), m, w, h)
    ensures ClosedBesides(t, Mark(m, w, h, next), w, h, rest + next)
  {
    var m' := Mark(m, w, h, next);
    forall c: Beam | Recorded(m', w, h, c)
      ensures c in rest + next || FollowersRecorded(t, m', w, h, c)
    {
      MarkMeaning(m, w, h, next, c);
      if c !in next && c !in rest {
        forall e: Beam | Follows(t, w, h, c, e)
          ensures Recorded(m', w, h, e)
        {
          MarkMeaning(m, w, h, next, e);
          if c == b {
            FreshMeaning(Successors(t, w, h, b), m, w, h, e);
          } else {
            assert c !in [b] + rest;
          }
        }
      }
    }
  }

  /** Processing b records each beam it returns anew, so the unrecorded
    * pairs drop by the number returned. */
  lemma StepMissing(t: seq<Tile>, m: seq<set<LightDirection>>, w: nat, h: nat, b: Beam, next: seq<Beam>)
    requires |t| == Mul(h, w) && |m| == Mul(h, w) && Inside(w, h, b.0.0, b.0.1)
    requires next == Fresh(Successors(t, w, h, b), m, w, h)
    ensures Missing(Mark(m, w, h, next)) + |next| == Missing(m)
  {
    var s := Successors(t, w, h, b);
    CandidatesDistinct(b.0.0, b.0.1, CellAt(t, w, h, b.0.0, b.0.1), b.1);
    FreshDistinct(s, m, w, h);
    forall k | 0 <= k < |next|
      ensures !Recorded(m, w, h, next[k])
    {
      FreshMeaning(s, m, w, h, next[k]);
    }
    MarkMissing(m, w, h, next);
  }

  /** The rest of the queue and the beams b carries on as are recorded
    * once b is processed, and so is the start. */
  lemma StepQueued(t: seq<Tile>, m: seq<set<LightDirection>>, w: nat, h: nat, start: Beam,
                   b: Beam, rest: seq<Beam>, next: seq<Beam>)
    requires |t| == Mul(h, w) && |m| == Mul(h, w) && Inside(w, h, b.0.0, b.0.1)
    requires Recorded(m, w, h, start) && forall k | 0 <= k < |rest| :: Recorded(m, w, h, rest[k])
    requires next == Fresh(Successors(t, w, h, b), m, w, h)
    ensures Recorded(Mark(m, w, h, next), w, h, start)
    ensures forall k | 0 <= k < |rest + next| :: Recorded(Mark(m, w, h, next), w, h, (rest + next)[k])
  {
    var q' := rest + next;
    MarkMeaning(m, w, h, next, start);
    forall k | 0 <= k < |q'|
      ensures Recorded(Mark(m, w, h, next), w, h, q'[k])
    {
      MarkMeaning(m, w, h, next, q'[k]);
      if k < |rest| {
        assert q'[k] == rest[k];
      } else {
        assert q'[k] == next[k - |rest|];
      }
    }
  }

  /** Processing the head of the queue keeps the frontier. */
  lemma FrontierStep(t: seq<Tile>, m: seq<set<LightDirection>>, w: nat, h: nat, start: Beam,
                     b: Beam, rest: seq<Beam>, next: seq<Beam>)
    requires |t| == Mul(h, w) && |m| == Mul(h, w) && Inside(w, h, b.0.0, b.0.1)
    requires Frontier(t, m, w, h, start, [b] + rest)
    requires next == Fresh(Successors(t, w, h, b), m, w, h)
    ensures |Mark(m, w, h, next)| == |m|
    ensures Frontier(t, Mark(m, w, h, next), w, h, start, rest + next)
  {
    var q := [b] + rest;
    assert Recorded(m, w, h, b) by {
      assert q[0] == b;
    }
    assert forall k | 0 <= k < |rest| :: Recorded(m, w, h, rest[k]) by {
      forall k | 0 <= k < |rest|
        ensures Recorded(m, w, h, rest[k])
      {
        assert rest[k] == q[k + 1];
      }
    }
    StepQueued(t, m, w, h, start, b, rest, next);
    StepSound(t, m, w, h, start, b, next);
    StepClosed(t, m, w, h, b, rest, next);
  }

  /** Once every recorded beam has its followers recorded, the end of every
    * path from a recorded beam is recorded. */
  lemma {:induction false} ClosedPath(t: seq<Tile>, m: seq<set<LightDirection>>, w: nat, h: nat, p: seq<Beam>)
    requires |t| == Mul(h, w) && |m| == Mul(h, w)
    requires ClosedBesides(t, m, w, h, [])
    requires IsPath(t, w, h, p) && |p| > 0 && Recorded(m, w, h, p[0])
    ensures Recorded(m, w, h, p[|p| - 1])
  {
    if |p| > 1 {
      var front := p[..|p| - 1];
      assert IsPath(t, w, h, front) by {
        forall i | 0 <= i < |front| - 1
          ensures Follows(t, w, h, front[i], front[i + 1])
        {
          assert front[i] == p[i] && front[i + 1] == p[i + 1];
        }
      }
      ClosedPath(t, m, w, h, front);
      assert Follows(t, w, h, p[|p| - 2], p[|p| - 1]);
    }
  }

  /** A cell with a direction recorded is energised. */
  lemma SoundCell(t: seq<Tile>, m: seq<set<LightDirection>>, w: nat, h: nat, start: Beam, i: nat)
    requires |t| == Mul(h, w) && |m| == Mul(h, w) && i < |m|
    requires Sound(t, m, w, h, start) && m[i] != {}
    ensures w > 0 && Energised(t, w, h, start, i % w, i / w)
  {
    RowMajorDecode(i, w, h);
    var x, y := i % w, i / w;
    assert CellAt(m, w, h, x, y) == m[i];
    var d :| d in m[i];
    var b: Beam := ((x, y), d);
    assert Recorded(m, w, h, b);
    assert Reachable(t, w, h, start, b);
    match d
    case Up =>
    case Right =>
    case Down =>
    case Left =>
  }

  /** Once nothing waits, an energised cell has a direction recorded. */
  lemma ClosedCell(t: seq<Tile>, m: seq<set<LightDirection>>, w: nat, h: nat, start: Beam, i: nat)
    requires |t| == Mul(h, w) && |m| == Mul(h, w) && i < |m|
    requires ClosedBesides(t, m, w, h, []) && Recorded(m, w, h, start)
    requires w > 0 && Energised(t, w, h, start, i % w, i / w)
    ensures m[i] != {}
  {
    RowMajorDecode(i, w, h);
    var x, y := i % w, i / w;
    assert CellAt(m, w, h, x, y) == m[i];
    var d :| Reachable(t, w, h, start, ((x, y), d));
    var b: Beam := ((x, y), d);
    assert Reachable(t, w, h, start, b);
    var p :| IsPath(t, w, h, p) && |p| > 0 && p[0] == start && p[|p| - 1] == b;
    ClosedPath(t, m, w, h, p);
    assert Recorded(m, w, h, b);
  }

  /** When the queue runs dry, the cells with a direction recorded are
    * exactly the energised ones. */
  lemma FrontierDone(t: seq<Tile>, m: seq<set<LightDirection>>, w: nat, h: nat, start: Beam)
    requires |t| == Mul(h, w) && |m| == Mul(h, w)
    requires Frontier(t, m, w, h, start, [])
    ensures (set i: nat | i < |m| && m[i] != {}) == EnergisedSet(t, w, h, start)
  {
    forall i: nat | i < |m|
      ensures m[i] != {} <==> w > 0 && Energised(t, w, h, start, i % w, i / w)
    {
      if m[i] != {} {
        SoundCell(t, m, w, h, start, i);
      }
      if w > 0 && Energised(t, w, h, start, i % w, i / w) {
        ClosedCell(t, m, w, h, start, i);
      }
    }
  }

  /** `number_of_energised_tiles`: the cells with some direction recorded. */
  function EnergisedTiles(m: seq<set<LightDirection>>): (r: nat)
    ensures r <= |m|
  {
    if m == [] then 0 else EnergisedTiles(m[..|m| - 1]) + (if m[|m| - 1] == {} then 0 else 1)
  }

  lemma {:induction false} EnergisedTilesCount(m: seq<set<LightDirection>>)
    ensures EnergisedTiles(m) == |set i: nat | i < |m| && m[i] != {}|
  {
    if m != [] {
      var n := |m|;
      var front := m[..n - 1];
      EnergisedTilesCount(front);
      var a := set i: nat | i < n - 1 && front[i] != {};
      var b := set i: nat | i < n && m[i] != {};
      if m[n - 1] == {} {
        assert b == a;
      } else {
        assert b == a + {n - 1};
      }
    }
  }

  /** How many cells light entering as `start` energises. */
  ghost function Energy(t: seq<Tile>, w: nat, h: nat, start: Beam): nat
    requires |t| == Mul(h, w)
  {
    |EnergisedSet(t, w, h, start)|
  }

  /** `process_from`: light enters at the start; beams are taken from the
    * front of the queue and the new ones they carry on as join its back
    * until it is empty. The answer is the number of energised cells. */
  method ProcessFrom(tiles: Cells<Tile>, startX: nat, startY: nat, startDirection: LightDirection) returns (count: nat)
    requires tiles.Valid() && tiles.InBounds(startX, startY)
    ensures count == Energy(tiles.contents, tiles.width, tiles.height, ((startX, startY), startDirection))
  {
    ghost var t, w, h := tiles.contents, tiles.width, tiles.height;
    var start: Beam := ((startX, startY), startDirection);
    var directions := CreateEmptyLightDirections(tiles);
    var queue := [start];
    var dirs := directions.Get(startX, startY);
    var _ := directions.Set(startX, startY, dirs.value + {startDirection});
    forall b: Beam | Recorded(directions.contents, w, h, b)
      ensures b == start
    {
      if b.0 != start.0 {
        RowMajorDistinct(b.0.0, b.0.1, startX, startY, w);
        RowMajorInRange(b.0.0, b.0.1, w, h);
      }
    }
    FrontierStart(t, directions.contents, w, h, start);
    while queue != []
      invariant directions.Valid() && directions.width == w && directions.height == h
      invariant Frontier(t, directions.contents, w, h, start, queue)
      decreases Missing(directions.contents) + |queue|
    {
      var beam := queue[0];
      assert queue == [beam] + queue[1..];
      assert Recorded(directions.contents, w, h, beam);
      ghost var before := directions.contents;
      var next := ProcessLightDirection(tiles, directions, beam);
      FrontierStep(t, before, w, h, start, beam, queue[1..], next);
      StepMissing(t, before, w, h, beam, next);
      queue := queue[1..] + next;
    }
    count := EnergisedTiles(directions.contents);
    FrontierDone(t, directions.contents, w, h, start);
    EnergisedTilesCount(directions.contents);
  }

  /** `perform_processing_1`: light enters the top-left cell heading right. */
  method PerformProcessing1(state: Cells<Tile>) returns (r: Result<nat>)
    requires state.Valid() && state.width > 0 && state.height > 0
    ensures r == Ok(Energy(state.contents, state.width, state.height, ((0, 0), Right)))
  {
    var count := ProcessFrom(state, 0, 0, Right);
    return Ok(count);
  }

  /** The k-th start `perform_processing_2` tries, in order: down the
    * left edge heading right, along the top heading down, down the right
    * edge heading left, along the bottom heading up. */
  function EdgeStart(w: nat, h: nat, k: nat): Beam
    requires w > 0 && h > 0 && k < 2 * (w + h)
  {
    if k < h then ((0, k), Right)
    else if k < h + w then ((k - h, 0), Down)
    else if k < 2 * h + w then ((w - 1, k - h - w), Left)
    else ((k - 2 * h - w, h - 1), Up)
  }

  /** A beam on an edge of the grid heading into it. */
  predicate InwardEdge(w: nat, h: nat, b: Beam) {
    Inside(w, h, b.0.0, b.0.1) &&
    ((b.0.0 == 0 && b.1 == Right) || (b.0.1 == 0 && b.1 == Down) ||
     (b.0.0 == w - 1 && b.1 == Left) || (b.0.1 == h - 1 && b.1 == Up))
  }

  /** The starts tried are exactly the inward edge beams. */
  lemma EdgeStartInward(w: nat, h: nat, k: nat)
    requires w > 0 && h > 0 && k < 2 * (w + h)
    ensures InwardEdge(w, h, EdgeStart(w, h, k))
  {
  }

  lemma InwardEdgeTried(w: nat, h: nat, b: Beam) returns (k: nat)
    requires w > 0 && h > 0 && InwardEdge(w, h, b)
    ensures k < 2 * (w + h) && EdgeStart(w, h, k) == b
  {
    var x, y := b.0.0, b.0.1;
    if x == 0 && b.1 == Right {
      k := y;
    } else if y == 0 && b.1 == Down {
      k := h + x;
    } else if x == w - 1 && b.1 == Left {
      k := h + w + y;
    } else {
      k := 2 * h + w + x;
    }
  }

  /** `perform_processing_2`: the most cells any inward edge beam
    * energises. */
  method PerformProcessing2(state: Cells<Tile>) returns (r: Result<nat>)
    requires state.Valid() && state.width > 0 && state.height > 0
    ensures r.Ok?
    ensures exists b | InwardEdge(state.width, state.height, b) :: r.value == Energy(state.contents, state.width, state.height, b)
    ensures forall b | InwardEdge(state.width, state.height, b) :: Energy(state.contents, state.width, state.height, b) <= r.value
  {
    var w, h := state.width, state.height;
    ghost var t := state.contents;
    var best := 0;
    ghost var at := 0;
    ghost var energies: seq<nat> := [];
    for k := 0 to 2 * (w + h)
      invariant |energies| == k
      invariant forall j | 0 <= j < k :: energies[j] == Energy(t, w, h, EdgeStart(w, h, j))
      invariant forall j | 0 <= j < k :: energies[j] <= best
      invariant k > 0 ==> at < k && best == energies[at]
    {
      var start := EdgeStart(w, h, k);
      EdgeStartInward(w, h, k);
      var energy := ProcessFrom(state, start.0.0, start.0.1, start.1);
      assert energy == Energy(t, w, h, start);
      energies := energies + [energy];
      if k == 0 || energy > best {
        best, at := energy, k;
      }
    }
    EdgeStartInward(w, h, at);
    forall b | InwardEdge(w, h, b)
      ensures Energy(t, w, h, b) <= best
    {
      var j := InwardEdgeTried(w, h, b);
      assert energies[j] <= best;
    }
    return Ok(best);
  }
}
