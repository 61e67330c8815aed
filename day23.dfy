// A long walk: a map of paths, forest and one-way slopes, with the start
// at (1, 0) and the end at (width - 2, height - 1). Both parts look for the
// longest hike that never steps on the same junction twice. Corridors,
// the cells with exactly two ways out, are walked through in one go.
// Part one obeys the slopes and explores generation by generation;
// part two treats slopes as paths and explores depth first, keeping the
// longest count seen for every arrival at a cell from a direction.
module Day23 {
  import opened Wrappers
  import opened Grids

  datatype Direction = North | East | South | West

  /** The unit move each direction makes; y grows downwards. */
  function Delta(d: Direction): (int, int) {
    match d
    case North => (0, -1)
    case East => (1, 0)
    case South => (0, 1)
    case West => (-1, 0)
  }

  /** `opposite`: the reverse move, never the direction itself. */
  function Opposite(d: Direction): (r: Direction)
    ensures r != d
    ensures Delta(r).0 == -Delta(d).0 && Delta(r).1 == -Delta(d).1
  {
    match d
    case North => South
    case East => West
    case South => North
    case West => East
  }

  /** Reversing twice gives the direction back. */
  lemma OppositeInvolution(d: Direction)
    ensures Opposite(Opposite(d)) == d
  {
  }

  datatype Tile = Path | Forest | Slope(direction: Direction)

  /** `char_rep`. */
  function Symbol(t: Tile): char {
    match t
    case Path => '.'
    case Forest => '#'
    case Slope(North) => '^'
    case Slope(East) => '>'
    case Slope(South) => 'v'
    case Slope(West) => '<'
  }

  /** The tile `parse_line` reads for a character; None for a character it
    * rejects. */
  function TileOf(c: char): (r: Option<Tile>)
    ensures r.Some? <==> c in ".#^>v<"
    ensures r.Some? ==> Symbol(r.value) == c
  {
    match c
    case '.' => Some(Path)
    case '#' => Some(Forest)
    case '^' => Some(Slope(North))
    case '>' => Some(Slope(East))
    case 'v' => Some(Slope(South))
    case '<' => Some(Slope(West))
    case _ => None
  }

  /** Every tile reads back from the character it is drawn with. */
  lemma TileOfSymbol(t: Tile)
    ensures TileOf(Symbol(t)) == Some(t)
  {
  }

  /** The tiles of a line every character of which is known. */
  function Row(line: string): (r: seq<Tile>)
    requires forall i | 0 <= i < |line| :: TileOf(line[i]).Some?
    ensures |r| == |line|
  {
    seq(|line|, i requires 0 <= i < |line| => TileOf(line[i]).value)
  }

  /** A row of tiles drawn with `char_rep`. */
  function Drawn(tiles: seq<Tile>): (r: string)
    ensures |r| == |tiles|
  {
    seq(|tiles|, k requires 0 <= k < |tiles| => Symbol(tiles[k]))
  }

  /** A drawn row reads back as the same row. */
  lemma RowOfDrawn(tiles: seq<Tile>)
    ensures forall i | 0 <= i < |tiles| :: TileOf(Drawn(tiles)[i]).Some?
    ensures Row(Drawn(tiles)) == tiles
  {
    forall i | 0 <= i < |tiles|
      ensures TileOf(Drawn(tiles)[i]) == Some(tiles[i])
    {
      TileOfSymbol(tiles[i]);
    }
  }

  /** `parse_line`: an empty line changes nothing; any other line becomes a
    * new builder line of its tiles. An unknown character is an error. */
  method ParseLine(lines: seq<seq<Tile>>, line: string) returns (r: Result<seq<seq<Tile>>>)
    ensures line == [] ==> r == Ok(lines)
    ensures r.Err? <==> exists i | 0 <= i < |line| :: TileOf(line[i]).None?
    ensures r.Ok? && line != [] ==> r.value == lines + [Row(line)]
  {
    if line == [] {
      return Ok(lines);
    }
    var row: seq<Tile> := [];
    for i := 0 to |line|
      invariant |row| == i
      invariant forall k | 0 <= k < i :: TileOf(line[k]) == Some(row[k])
    {
      var tile := TileOf(line[i]);
      if tile.None? {
        return Err("Unrecognised tile");
      }
      row := row + [tile.value];
    }
    r := Ok(lines + [row]);
    assert row == Row(line);
  }

  // ---------------------------------------------------------------------
  // Moving about the map

  type Pos = (nat, nat)

  /** Every cell of the map. */
  function AllPos(g: Grid<Tile>): (r: set<Pos>)
    ensures forall p: Pos :: p in r <==> g.InBounds(p.0, p.1)
  {
    set x: nat, y: nat | x < g.width && y < g.height :: (x, y)
  }

  /** `get_next_coord`: the neighbour in a direction, None off the map. */
  function GetNextCoord(g: Grid<Tile>, c: Pos, d: Direction): (r: Option<Pos>)
    ensures r.Some? <==> g.InBounds(c.0 + Delta(d).0, c.1 + Delta(d).1)
    ensures r.Some? ==> r.value.0 == c.0 + Delta(d).0 && r.value.1 == c.1 + Delta(d).1
  {
    var (x, y) := (c.0 + Delta(d).0, c.1 + Delta(d).1);
    if g.InBounds(x, y) then Some((x as nat, y as nat)) else None
  }

  /** Stepping back the opposite way returns to the cell left. */
  lemma GetNextCoordBack(g: Grid<Tile>, c: Pos, d: Direction)
    requires g.InBounds(c.0, c.1) && GetNextCoord(g, c, d).Some?
    ensures GetNextCoord(g, GetNextCoord(g, c, d).value, Opposite(d)) == Some(c)
  {
  }

  /** `is_forest_or_edge`: a cell off the map counts as forest. */
  function IsForestOrEdge(g: Grid<Tile>, c: Pos, dx: int, dy: int): (r: bool)
    requires g.Valid()
    ensures !g.InBounds(c.0 + dx, c.1 + dy) ==> r
    ensures g.InBounds(c.0 + dx, c.1 + dy) ==> (r <==> g.At((c.0 + dx, c.1 + dy)) == Forest)
  {
    var (x, y) := (c.0 + dx, c.1 + dy);
    if !g.InBounds(x, y) then true else g.At((x, y)) == Forest
  }

  /** The way out of a cell in a direction is open. */
  predicate Open(g: Grid<Tile>, c: Pos, d: Direction)
    requires g.Valid()
  {
    !IsForestOrEdge(g, c, Delta(d).0, Delta(d).1)
  }

  /** A way out is open exactly when the neighbour there is on the map and
    * not forest. */
  lemma OpenMeaning(g: Grid<Tile>, c: Pos, d: Direction)
    requires g.Valid()
    ensures Open(g, c, d) <==> GetNextCoord(g, c, d).Some? && g.At(GetNextCoord(g, c, d).value) != Forest
  {
  }

  /** How many ways out of a cell are open. */
  function OpenCount(g: Grid<Tile>, c: Pos): (r: nat)
    requires g.Valid()
    ensures r <= 4
  {
    (if Open(g, c, North) then 1 else 0) + (if Open(g, c, South) then 1 else 0) +
    (if Open(g, c, East) then 1 else 0) + (if Open(g, c, West) then 1 else 0)
  }

  /** The two tile tests the solutions pass as `is_corridor_tile`. */
  datatype Kind = PathOnly | NotForest

  predicate Accepts(kind: Kind, t: Tile) {
    match kind
    case PathOnly => t == Path
    case NotForest => t != Forest
  }

  /** A corridor cell: an accepted tile with exactly two ways out. */
  predicate Corridor(g: Grid<Tile>, kind: Kind, c: Pos)
    requires g.Valid() && g.InBounds(c.0, c.1)
  {
    Accepts(kind, g.At(c)) && OpenCount(g, c) == 2
  }

  /** `is_corridor`: an accepted tile with exactly two of its four sides
    * forest or off the map. */
  method IsCorridor(g: Grid<Tile>, kind: Kind, c: Pos) returns (r: bool)
    requires g.Valid() && g.InBounds(c.0, c.1)
    ensures r <==> Accepts(kind, g.At(c)) && OpenCount(g, c) == 2
  {
    var countWalls := 0;
    var tile := g.Get(c.0, c.1);
    if !Accepts(kind, tile.value) {
      return false;
    }
    if IsForestOrEdge(g, c, 0, -1) {
      countWalls := countWalls + 1;
    }
    if IsForestOrEdge(g, c, 0, 1) {
      countWalls := countWalls + 1;
    }
    if IsForestOrEdge(g, c, 1, 0) {
      countWalls := countWalls + 1;
    }
    if IsForestOrEdge(g, c, -1, 0) {
      countWalls := countWalls + 1;
    }
    assert countWalls == 4 - OpenCount(g, c);
    r := countWalls == 2;
  }

  /** The place of a direction in the order north, south, east, west in
    * which `get_next_in_corridor` lists the open ways out. */
  function Rank(d: Direction): nat {
    match d
    case North => 0
    case South => 1
    case East => 2
    case West => 3
  }

  /** A corridor cell has two different open ways out and no third. */
  lemma CorridorHasTwoWays(g: Grid<Tile>, kind: Kind, c: Pos)
    requires g.Valid() && g.InBounds(c.0, c.1) && Corridor(g, kind, c)
    ensures exists d1, d2 :: d1 != d2 && Open(g, c, d1) && Open(g, c, d2) &&
                             forall d :: Open(g, c, d) ==> d == d1 || d == d2
  {
    if Open(g, c, North) && Open(g, c, South) {
      assert forall d :: Open(g, c, d) ==> d == North || d == South;
    } else if Open(g, c, North) && Open(g, c, East) {
      assert forall d :: Open(g, c, d) ==> d == North || d == East;
    } else if Open(g, c, North) && Open(g, c, West) {
      assert forall d :: Open(g, c, d) ==> d == North || d == West;
    } else if Open(g, c, South) && Open(g, c, East) {
      assert forall d :: Open(g, c, d) ==> d == South || d == East;
    } else if Open(g, c, South) && Open(g, c, West) {
      assert forall d :: Open(g, c, d) ==> d == South || d == West;
    } else {
      assert Open(g, c, East) && Open(g, c, West);
      assert forall d :: Open(g, c, d) ==> d == East || d == West;
    }
  }

  /** The first open way out, in the order north, south, east, west, that
    * is not the one to avoid. */
  function FirstOther(g: Grid<Tile>, c: Pos, avoid: Direction): (r: Option<Direction>)
    requires g.Valid()
    ensures r.Some? ==> Open(g, c, r.value) && r.value != avoid
  {
    if Open(g, c, North) && North != avoid then Some(North)
    else if Open(g, c, South) && South != avoid then Some(South)
    else if Open(g, c, East) && East != avoid then Some(East)
    else if Open(g, c, West) && West != avoid then Some(West)
    else None
  }

  /** None exactly when every open way out is the one to avoid; otherwise
    * the first of the others in the order north, south, east, west. */
  lemma FirstOtherMeaning(g: Grid<Tile>, c: Pos, avoid: Direction)
    requires g.Valid()
    ensures FirstOther(g, c, avoid).None? <==> forall d | Open(g, c, d) :: d == avoid
    ensures FirstOther(g, c, avoid).Some? ==>
              forall d | Open(g, c, d) && d != avoid :: Rank(FirstOther(g, c, avoid).value) <= Rank(d)
  {
  }

  /** `get_next_in_corridor`: the first open way out, in the order north,
    * south, east, west, that does not lead back where the walk came from,
    * with the cell it leads to. None where the source's `expect` panics:
    * no way out but back. */
  function GetNextInCorridor(g: Grid<Tile>, c: Pos, dir: Direction): (r: Option<(Pos, Direction)>)
    requires g.Valid()
    ensures r.Some? ==> r.value.1 != Opposite(dir) && Open(g, c, r.value.1)
    ensures r.Some? ==> GetNextCoord(g, c, r.value.1) == Some(r.value.0)
  {
    var d := FirstOther(g, c, Opposite(dir));
    if d.None? then None
    else
      OpenMeaning(g, c, d.value);
      Some((GetNextCoord(g, c, d.value).value, d.value))
  }

  /** Inside a corridor entered from an open cell the walk always goes on,
    * and through the one other way out. */
  lemma CorridorContinues(g: Grid<Tile>, kind: Kind, c: Pos, dir: Direction)
    requires g.Valid() && g.InBounds(c.0, c.1) && Corridor(g, kind, c) && Open(g, c, Opposite(dir))
    ensures GetNextInCorridor(g, c, dir).Some?
    ensures forall d | Open(g, c, d) :: d == Opposite(dir) || d == GetNextInCorridor(g, c, dir).value.1
  {
    CorridorHasTwoWays(g, kind, c);
    GetNextInCorridorNone(g, c, dir);
  }

  /** The walk finds no way on exactly when the only open way out leads
    * back, the case where the source's `expect` panics. */
  lemma GetNextInCorridorNone(g: Grid<Tile>, c: Pos, dir: Direction)
    requires g.Valid()
    ensures GetNextInCorridor(g, c, dir).None? <==> forall d | Open(g, c, d) :: d == Opposite(dir)
  {
    FirstOtherMeaning(g, c, Opposite(dir));
  }

  /** Where `walk_to_end_of_corridor` stops, the direction it last moved in
    * and the number of cells it has entered, counting on from `steps`. It
    * gives up with None after `fuel` moves. */
  function CorridorEnd(g: Grid<Tile>, kind: Kind, c: Pos, dir: Direction, steps: nat, fuel: nat): (r: Option<(Pos, Direction, nat)>)
    requires g.Valid() && g.InBounds(c.0, c.1)
    ensures r.Some? ==> g.InBounds(r.value.0.0, r.value.0.1) && !Corridor(g, kind, r.value.0)
    ensures r.Some? ==> steps <= r.value.2 <= steps + fuel
    decreases fuel
  {
    if !Corridor(g, kind, c) then Some((c, dir, steps))
    else
      var next := GetNextInCorridor(g, c, dir);
      if next.None? || fuel == 0 then None
      else CorridorEnd(g, kind, next.value.0, next.value.1, steps + 1, fuel - 1)
  }

  /** `walk_to_end_of_corridor`: from the cell just entered, follow the
    * corridor until a cell that is not one. */
  method WalkToEndOfCorridor(g: Grid<Tile>, kind: Kind, coord: Pos, direction: Direction, fuel: nat)
    returns (r: Option<(Pos, Direction, nat)>)
    requires g.Valid() && g.InBounds(coord.0, coord.1)
    ensures r == CorridorEnd(g, kind, coord, direction, 1, fuel)
  {
    var nextCoord := coord;
    var lastDirection := direction;
    var steps: nat := 1;
    var left: nat := fuel;
    var corridor := IsCorridor(g, kind, nextCoord);
    ghost var whole := CorridorEnd(g, kind, coord, direction, 1, fuel);
    while corridor
      invariant g.InBounds(nextCoord.0, nextCoord.1)
      invariant corridor == Corridor(g, kind, nextCoord)
      invariant CorridorEnd(g, kind, nextCoord, lastDirection, steps, left) == whole
      decreases left
    {
      var nextAndDirection := GetNextInCorridor(g, nextCoord, lastDirection);
      if nextAndDirection.None? || left == 0 {
        CorridorEndStops(g, kind, nextCoord, lastDirection, steps, left);
        return None;
      }
      var n, d := nextAndDirection.value.0, nextAndDirection.value.1;
      var steps', left' := steps + 1, left - 1;
      CorridorEndStep(g, kind, nextCoord, lastDirection, steps, left, n, d, steps', left');
      nextCoord, lastDirection, steps, left := n, d, steps', left';
      corridor := IsCorridor(g, kind, nextCoord);
    }
    r := Some((nextCoord, lastDirection, steps));
  }

  lemma {:induction false} CorridorEndStops(g: Grid<Tile>, kind: Kind, c: Pos, dir: Direction, steps: nat, fuel: nat)
    requires g.Valid() && g.InBounds(c.0, c.1) && Corridor(g, kind, c)
    requires GetNextInCorridor(g, c, dir).None? || fuel == 0
    ensures CorridorEnd(g, kind, c, dir, steps, fuel).None?
  {
  }

  lemma {:induction false} CorridorEndStep(g: Grid<Tile>, kind: Kind, c: Pos, dir: Direction, steps: nat, fuel: nat, n: Pos, d: Direction,
                        steps': nat, fuel': nat)
    requires g.Valid() && g.InBounds(c.0, c.1) && Corridor(g, kind, c) && fuel > 0
    requires GetNextInCorridor(g, c, dir) == Some((n, d)) && steps' == steps + 1 && fuel' == fuel - 1
    ensures g.InBounds(n.0, n.1)
    ensures CorridorEnd(g, kind, c, dir, steps, fuel) == CorridorEnd(g, kind, n, d, steps', fuel')
  {
    var next := GetNextInCorridor(g, c, dir);
    assert next.value == (n, d);
    assert CorridorEnd(g, kind, c, dir, steps, fuel) == CorridorEnd(g, kind, n, d, steps + 1, fuel - 1);
  }

  // ---------------------------------------------------------------------
  // Part one: generations of walks

  /** The neighbour in one direction with that direction, if on the map. */
  function Towards(g: Grid<Tile>, c: Pos, d: Direction): (r: seq<(Pos, Direction)>)
    ensures forall p, e :: (p, e) in r <==> e == d && GetNextCoord(g, c, d) == Some(p)
  {
    match GetNextCoord(g, c, d)
    case None => []
    case Some(p) => [(p, d)]
  }

  /** `adjacent_coords_and_directions`: the neighbours on the map with the
    * direction leading to each, north, east, south, west. */
  function AdjacentCoordsAndDirections(g: Grid<Tile>, c: Pos): (r: seq<(Pos, Direction)>)
    ensures forall p, d :: (p, d) in r <==> GetNextCoord(g, c, d) == Some(p)
  {
    Towards(g, c, North) + Towards(g, c, East) + Towards(g, c, South) + Towards(g, c, West)
  }

  /** Part one's first moves out of a cell: every neighbour from a path,
    * only the downhill one from a slope, none from forest. */
  function FirstMoves(g: Grid<Tile>, c: Pos, t: Tile): (r: seq<(Pos, Direction)>)
    ensures forall p, d :: (p, d) in r ==> GetNextCoord(g, c, d) == Some(p)
    ensures t.Slope? ==> forall p, d :: (p, d) in r ==> d == t.direction
    ensures t.Path? ==> forall p, d :: GetNextCoord(g, c, d) == Some(p) ==> (p, d) in r
  {
    match t
    case Path => AdjacentCoordsAndDirections(g, c)
    case Slope(d) => Towards(g, c, d)
    case Forest => []
  }

  /** The `filter_map` of the moves through `walk_to_end_of_corridor`:
    * where each corridor ends and its length. */
  function CorridorEnds(g: Grid<Tile>, kind: Kind, fuel: nat, moves: seq<(Pos, Direction)>): (r: seq<(Pos, nat)>)
    requires g.Valid() && forall k | 0 <= k < |moves| :: g.InBounds(moves[k].0.0, moves[k].0.1)
    ensures forall k | 0 <= k < |r| :: g.InBounds(r[k].0.0, r[k].0.1) && r[k].1 >= 1
  {
    if moves == [] then []
    else
      var front := CorridorEnds(g, kind, fuel, moves[..|moves| - 1]);
      var last := moves[|moves| - 1];
      var found := CorridorEnd(g, kind, last.0, last.1, 1, fuel);
      if found.None? then front else front + [(found.value.0, found.value.2)]
  }

  /** The closure `perform_processing` passes to `do_walks`. */
  function Candidates(g: Grid<Tile>, fuel: nat, c: Pos, t: Tile): (r: seq<(Pos, nat)>)
    requires g.Valid()
    ensures forall k | 0 <= k < |r| :: g.InBounds(r[k].0.0, r[k].0.1) && r[k].1 >= 1
  {
    var moves := FirstMoves(g, c, t);
    assert forall k | 0 <= k < |moves| :: moves[k] in moves;
    CorridorEnds(g, PathOnly, fuel, moves)
  }

  /** A walk: the steps taken, the cells stopped at and where it is. */
  datatype Walk = Walk(steps: nat, visited: set<Pos>, position: Pos)

  /** Every candidate is on the map. */
  predicate OnMap(g: Grid<Tile>, cands: seq<(Pos, nat)>) {
    forall k | 0 <= k < |cands| :: g.InBounds(cands[k].0.0, cands[k].0.1)
  }

  /** One candidate of `calculate_next_steps`: a cell already visited is
    * skipped; the end finishes the walk; forest is skipped; any other
    * cell continues the walk. */
  function Extend(g: Grid<Tile>, end: Pos, w: Walk, e: (seq<Walk>, seq<Walk>), p: Pos, s: nat): (seq<Walk>, seq<Walk>)
    requires g.Valid() && g.InBounds(p.0, p.1)
  {
    var walk := Walk(w.steps + s, w.visited + {p}, p);
    if p in w.visited then e
    else if p == end then (e.0, e.1 + [walk])
    else if g.At(p) == Forest then e
    else (e.0 + [walk], e.1)
  }

  lemma ExtendCases(g: Grid<Tile>, end: Pos, w: Walk, e: (seq<Walk>, seq<Walk>), p: Pos, s: nat)
    requires g.Valid() && g.InBounds(p.0, p.1)
    ensures p in w.visited ==> Extend(g, end, w, e, p, s) == e
    ensures p !in w.visited && p == end ==> Extend(g, end, w, e, p, s) == (e.0, e.1 + [Walk(w.steps + s, w.visited + {p}, p)])
    ensures p !in w.visited && p != end && g.At(p) == Forest ==> Extend(g, end, w, e, p, s) == e
    ensures p !in w.visited && p != end && g.At(p) != Forest ==> Extend(g, end, w, e, p, s) == (e.0 + [Walk(w.steps + s, w.visited + {p}, p)], e.1)
  {
  }

  /** The `calculate_next_steps` loop over the candidates, in order. */
  function Expand(g: Grid<Tile>, end: Pos, w: Walk, cands: seq<(Pos, nat)>): (r: (seq<Walk>, seq<Walk>))
    requires g.Valid() && OnMap(g, cands)
  {
    if cands == [] then ([], [])
    else
      var front := cands[..|cands| - 1];
      assert forall k | 0 <= k < |front| :: front[k] == cands[k];
      Extend(g, end, w, Expand(g, end, w, front), cands[|cands| - 1].0, cands[|cands| - 1].1)
  }

  /** Expanding over one more candidate extends by that candidate. */
  lemma ExpandPrefix(g: Grid<Tile>, end: Pos, w: Walk, cands: seq<(Pos, nat)>, i: nat)
    requires g.Valid() && OnMap(g, cands) && i < |cands|
    ensures OnMap(g, cands[..i]) && OnMap(g, cands[..i + 1]) && g.InBounds(cands[i].0.0, cands[i].0.1)
    ensures Expand(g, end, w, cands[..i + 1]) == Extend(g, end, w, Expand(g, end, w, cands[..i]), cands[i].0, cands[i].1)
  {
    assert cands[..i + 1][..i] == cands[..i];
  }

  /** What the expansion of a walk holds: exactly the walks extended by
    * one candidate, never one already visited; onto the end they finish,
    * onto a cell that is neither the end nor forest they go on. */
  lemma {:induction false} ExpandMeaning(g: Grid<Tile>, end: Pos, w: Walk, cands: seq<(Pos, nat)>, x: Walk)
    requires g.Valid() && OnMap(g, cands)
    ensures x in Expand(g, end, w, cands).0 <==>
              exists k | 0 <= k < |cands| :: cands[k].0 !in w.visited && cands[k].0 != end && g.At(cands[k].0) != Forest &&
                                             x == Walk(w.steps + cands[k].1, w.visited + {cands[k].0}, cands[k].0)
    ensures x in Expand(g, end, w, cands).1 <==>
              exists k | 0 <= k < |cands| :: cands[k].0 !in w.visited && cands[k].0 == end &&
                                             x == Walk(w.steps + cands[k].1, w.visited + {end}, end)
    decreases |cands|
  {
    if cands != [] {
      var front := cands[..|cands| - 1];
      ExpandMeaning(g, end, w, front, x);
      assert forall k | 0 <= k < |front| :: front[k] == cands[k];
    }
  }

  /** The cells a walk may still stop at, with its position on the map. */
  ghost predicate Sane(g: Grid<Tile>, w: Walk) {
    w.visited <= AllPos(g) && g.InBounds(w.position.0, w.position.1)
  }

  /** How many cells a walk has not stopped at yet. */
  function Room(g: Grid<Tile>, w: Walk): nat {
    |AllPos(g) - w.visited|
  }

  /** The expansion of a walk by part one's candidates. */
  function Next(g: Grid<Tile>, fuel: nat, end: Pos, w: Walk): (seq<Walk>, seq<Walk>)
    requires g.Valid() && g.InBounds(w.position.0, w.position.1)
  {
    var cands := Candidates(g, fuel, w.position, g.At(w.position));
    Expand(g, end, w, cands)
  }

  /** Stopping at one more cell of the map leaves one less to go. */
  lemma RoomShrinks(g: Grid<Tile>, w: Walk, p: Pos)
    requires Sane(g, w) && p !in w.visited && g.InBounds(p.0, p.1)
    ensures Room(g, Walk(w.steps, w.visited + {p}, p)) == Room(g, w) - 1
  {
    assert AllPos(g) - (w.visited + {p}) == (AllPos(g) - w.visited) - {p};
  }

  /** Every walk a walk continues into is on the map and has less room. */
  lemma ContinuationsSmaller(g: Grid<Tile>, fuel: nat, end: Pos, w: Walk)
    requires g.Valid() && Sane(g, w)
    ensures forall c | c in Next(g, fuel, end, w).0 :: Sane(g, c) && Room(g, c) < Room(g, w)
  {
    var cands := Candidates(g, fuel, w.position, g.At(w.position));
    forall c | c in Next(g, fuel, end, w).0
      ensures Sane(g, c) && Room(g, c) < Room(g, w)
    {
      ExpandMeaning(g, end, w, cands, c);
      var k :| 0 <= k < |cands| && cands[k].0 !in w.visited && c == Walk(w.steps + cands[k].1, w.visited + {cands[k].0}, cands[k].0);
      RoomShrinks(g, w, cands[k].0);
    }
  }

  /** The largest room among some walks. */
  function MaxRoom(g: Grid<Tile>, ws: seq<Walk>): (r: nat)
    ensures forall w | w in ws :: Room(g, w) <= r
  {
    if ws == [] then 0
    else
      var m := MaxRoom(g, ws[..|ws| - 1]);
      assert forall w | w in ws :: w in ws[..|ws| - 1] || w == ws[|ws| - 1];
      if m < Room(g, ws[|ws| - 1]) then Room(g, ws[|ws| - 1]) else m
  }

  /** Walks all with less room than a bound have a largest room below it. */
  lemma {:induction false} MaxRoomBelow(g: Grid<Tile>, ws: seq<Walk>, bound: nat)
    requires ws != [] && forall w | w in ws :: Room(g, w) < bound
    ensures MaxRoom(g, ws) < bound
    decreases |ws|
  {
    if |ws| > 1 {
      var front := ws[..|ws| - 1];
      assert forall w | w in front :: w in ws;
      MaxRoomBelow(g, front, bound);
    }
  }

  /** The finished walks that grow out of a walk: the ones it finishes
    * directly and the ones growing out of each walk it goes on to. */
  ghost function Hikes(g: Grid<Tile>, fuel: nat, end: Pos, w: Walk): set<Walk>
    requires g.Valid() && Sane(g, w)
    decreases Room(g, w), 0
  {
    var e := Next(g, fuel, end, w);
    ContinuationsSmaller(g, fuel, end, w);
    if e.0 == [] then Elems(e.1)
    else
      MaxRoomBelow(g, e.0, Room(g, w));
      Elems(e.1) + HikesFrom(g, fuel, end, e.0)
  }

  /** The finished walks growing out of each of some walks. */
  ghost function HikesFrom(g: Grid<Tile>, fuel: nat, end: Pos, ws: seq<Walk>): set<Walk>
    requires g.Valid() && forall w | w in ws :: Sane(g, w)
    decreases MaxRoom(g, ws), 1, |ws|
  {
    if ws == [] then {}
    else
      var front := ws[..|ws| - 1];
      assert forall w | w in front :: w in ws;
      HikesFrom(g, fuel, end, front) + Hikes(g, fuel, end, ws[|ws| - 1])
  }

  function Elems<T>(s: seq<T>): set<T> {
    set x | x in s
  }

  lemma ElemsConcat<T>(a: seq<T>, b: seq<T>)
    ensures Elems(a + b) == Elems(a) + Elems(b)
  {
  }

  /** The finished walks growing out of two lists of walks together. */
  lemma {:induction false} HikesFromConcat(g: Grid<Tile>, fuel: nat, end: Pos, a: seq<Walk>, b: seq<Walk>)
    requires g.Valid() && (forall w | w in a :: Sane(g, w)) && forall w | w in b :: Sane(g, w)
    ensures forall w | w in a + b :: Sane(g, w)
    ensures HikesFrom(g, fuel, end, a + b) == HikesFrom(g, fuel, end, a) + HikesFrom(g, fuel, end, b)
    decreases |b|
  {
    if b == [] {
      assert a + b == a;
    } else {
      var front := b[..|b| - 1];
      assert forall w | w in front :: w in b;
      SplitLast(a, b);
      HikesFromConcat(g, fuel, end, a, front);
    }
  }

  /** The finished walks of a walk: the ones it finishes at once and the
    * ones growing out of each walk it continues into. */
  lemma HikesUnfold(g: Grid<Tile>, fuel: nat, end: Pos, w: Walk)
    requires g.Valid() && Sane(g, w)
    ensures forall c | c in Next(g, fuel, end, w).0 :: Sane(g, c)
    ensures Hikes(g, fuel, end, w) == Elems(Next(g, fuel, end, w).1) + HikesFrom(g, fuel, end, Next(g, fuel, end, w).0)
  {
    ContinuationsSmaller(g, fuel, end, w);
  }

  /** The closure passed to `do_walks`, run: each first move is followed
    * to the end of its corridor by `walk_to_end_of_corridor`. */
  method ChooseCandidates(g: Grid<Tile>, fuel: nat, c: Pos, t: Tile) returns (cands: seq<(Pos, nat)>)
    requires g.Valid()
    ensures cands == Candidates(g, fuel, c, t)
  {
    var moves := FirstMoves(g, c, t);
    assert forall k | 0 <= k < |moves| :: moves[k] in moves;
    cands := WalkCorridors(g, fuel, moves);
  }

  /** The `filter_map` of the closure: each first move followed to the end
    * of its corridor, dropping the walks that give up. */
  method WalkCorridors(g: Grid<Tile>, fuel: nat, moves: seq<(Pos, Direction)>) returns (cands: seq<(Pos, nat)>)
    requires g.Valid() && forall k | 0 <= k < |moves| :: g.InBounds(moves[k].0.0, moves[k].0.1)
    ensures cands == CorridorEnds(g, PathOnly, fuel, moves)
  {
    cands := [];
    for i := 0 to |moves|
      invariant cands == CorridorEnds(g, PathOnly, fuel, moves[..i])
    {
      assert moves[..i + 1][..i] == moves[..i];
      var found := WalkToEndOfCorridor(g, PathOnly, moves[i].0, moves[i].1, fuel);
      if found.Some? {
        cands := cands + [(found.value.0, found.value.2)];
      }
    }
    assert moves[..|moves|] == moves;
  }

  /** `calculate_next_steps`: the walks a walk goes on to are appended to
    * `next`, the walks it finishes to `finished`. */
  method CalculateNextSteps(g: Grid<Tile>, fuel: nat, w: Walk, end: Pos, next: seq<Walk>, finished: seq<Walk>)
    returns (next': seq<Walk>, finished': seq<Walk>)
    requires g.Valid() && g.InBounds(w.position.0, w.position.1)
    ensures next' == next + Next(g, fuel, end, w).0
    ensures finished' == finished + Next(g, fuel, end, w).1
  {
    var currentTile := g.Get(w.position.0, w.position.1).value;
    var cands := ChooseCandidates(g, fuel, w.position, currentTile);
    assert OnMap(g, cands);
    next', finished' := next, finished;
    ghost var e: (seq<Walk>, seq<Walk>) := ([], []);
    for i := 0 to |cands|
      invariant OnMap(g, cands[..i]) && e == Expand(g, end, w, cands[..i])
      invariant next' == next + e.0 && finished' == finished + e.1
    {
      ExpandPrefix(g, end, w, cands, i);
      var p, steps := cands[i].0, cands[i].1;
      ghost var e' := Extend(g, end, w, e, p, steps);
      ExtendCases(g, end, w, e, p, steps);
      if p !in w.visited {
        var walk := Walk(w.steps + steps, w.visited + {p}, p);
        if p == end {
          AppendOne(finished, e.1, walk);
          finished' := finished' + [walk];
        } else {
          var nextTile := g.Get(p.0, p.1).value;
          if nextTile != Forest {
            AppendOne(next, e.0, walk);
            next' := next' + [walk];
          }
        }
      }
      e := e';
    }
    assert cands[..|cands|] == cands;
  }

  lemma AppendOne<T>(a: seq<T>, b: seq<T>, x: T)
    ensures a + b + [x] == a + (b + [x])
  {
  }

  /** One generation of `do_walks`: every current walk is expanded in
    * turn. The finished walks growing out of the current generation are
    * the ones it finishes now and the ones growing out of the next. */
  method Generation(g: Grid<Tile>, fuel: nat, end: Pos, current: seq<Walk>, finished: seq<Walk>)
    returns (next: seq<Walk>, finished': seq<Walk>)
    requires g.Valid() && forall w | w in current :: Sane(g, w)
    ensures forall w | w in next :: Sane(g, w) && Room(g, w) < MaxRoom(g, current)
    ensures Elems(finished) + HikesFrom(g, fuel, end, current) == Elems(finished') + HikesFrom(g, fuel, end, next)
  {
    next, finished' := [], finished;
    assert current[0..] == current;
    for i := 0 to |current|
      invariant forall w | w in next :: Sane(g, w) && Room(g, w) < MaxRoom(g, current)
      invariant forall w | w in current[i..] :: Sane(g, w)
      invariant Elems(finished) + HikesFrom(g, fuel, end, current) ==
                Elems(finished') + HikesFrom(g, fuel, end, next) + HikesFrom(g, fuel, end, current[i..])
    {
      var walk := current[i];
      assert walk in current;
      var next2, finished2 := CalculateNextSteps(g, fuel, walk, end, next, finished');
      GenerationBelow(g, fuel, end, current, i, next, next2);
      GenerationStep(g, fuel, end, current, i, next, finished', next2, finished2);
      next, finished' := next2, finished2;
    }
  }

  /** `do_walks`: generation by generation, every walk goes on to the
    * next; the walks collected are exactly the finished walks growing out
    * of the walk standing at the start. */
  method DoWalks(g: Grid<Tile>, fuel: nat, start: Pos, end: Pos) returns (finished: seq<Walk>)
    requires g.Valid() && g.InBounds(start.0, start.1)
    ensures Sane(g, Walk(0, {start}, start))
    ensures Elems(finished) == Hikes(g, fuel, end, Walk(0, {start}, start))
  {
    var first := Walk(0, {start}, start);
    ghost var all := Hikes(g, fuel, end, first);
    var next := [first];
    finished := [];
    HikesFromSingle(g, fuel, end, first);
    while next != []
      invariant forall w | w in next :: Sane(g, w)
      invariant all == Elems(finished) + HikesFrom(g, fuel, end, next)
      decreases if next == [] then 0 else MaxRoom(g, next) + 1
    {
      var current := next;
      next, finished := Generation(g, fuel, end, current, finished);
      if next != [] {
        MaxRoomBelow(g, next, MaxRoom(g, current));
      }
    }
  }

  /** The walks continued from one of a generation have less room than
    * any of that generation. */
  lemma GenerationBelow(g: Grid<Tile>, fuel: nat, end: Pos, current: seq<Walk>, i: nat, next: seq<Walk>, next': seq<Walk>)
    requires g.Valid() && i < |current| && Sane(g, current[i])
    requires forall w | w in next :: Sane(g, w) && Room(g, w) < MaxRoom(g, current)
    requires next' == next + Next(g, fuel, end, current[i]).0
    ensures forall w | w in next' :: Sane(g, w) && Room(g, w) < MaxRoom(g, current)
  {
    assert current[i] in current;
    ContinuationsSmaller(g, fuel, end, current[i]);
  }

  /** One walk of a generation handled: its continuations join the next
    * generation and its finished walks the collected ones, and together
    * they account for the finished walks growing out of it. */
  lemma GenerationStep(g: Grid<Tile>, fuel: nat, end: Pos, current: seq<Walk>, i: nat,
                       next: seq<Walk>, finished: seq<Walk>, next': seq<Walk>, finished': seq<Walk>)
    requires g.Valid() && i < |current| && (forall w | w in current :: Sane(g, w)) && Sane(g, current[i])
    requires forall w | w in next :: Sane(g, w) && Room(g, w) < MaxRoom(g, current)
    requires next' == next + Next(g, fuel, end, current[i]).0
    requires finished' == finished + Next(g, fuel, end, current[i]).1
    requires forall w | w in next' :: Sane(g, w)
    ensures forall w | w in current[i..] :: Sane(g, w)
    ensures forall w | w in current[i + 1..] :: Sane(g, w)
    ensures Elems(finished) + HikesFrom(g, fuel, end, next) + HikesFrom(g, fuel, end, current[i..]) ==
            Elems(finished') + HikesFrom(g, fuel, end, next') + HikesFrom(g, fuel, end, current[i + 1..])
  {
    var w := current[i];
    assert w in current;
    var e := Next(g, fuel, end, w);
    ContinuationsSmaller(g, fuel, end, w);
    HikesUnfold(g, fuel, end, w);
    assert forall x | x in current[i..] :: x in current;
    assert forall x | x in current[i + 1..] :: x in current;
    SplitFirst(current, i);
    HikesFromConcat(g, fuel, end, [w], current[i + 1..]);
    HikesFromSingle(g, fuel, end, w);
    HikesFromConcat(g, fuel, end, next, e.0);
    ElemsConcat(finished, e.1);
    Regroup(Elems(finished), HikesFrom(g, fuel, end, next), HikesFrom(g, fuel, end, current[i..]),
            Hikes(g, fuel, end, w), HikesFrom(g, fuel, end, current[i + 1..]), Elems(e.1), HikesFrom(g, fuel, end, e.0),
            Elems(finished'), HikesFrom(g, fuel, end, next'));
  }

  lemma SplitLast<T>(a: seq<T>, b: seq<T>)
    requires b != []
    ensures (a + b)[..|a + b| - 1] == a + b[..|b| - 1] && (a + b)[|a + b| - 1] == b[|b| - 1]
  {
  }

  lemma SplitFirst<T>(s: seq<T>, i: nat)
    requires i < |s|
    ensures s[i..] == [s[i]] + s[i + 1..]
  {
  }

  lemma HikesFromSingle(g: Grid<Tile>, fuel: nat, end: Pos, w: Walk)
    requires g.Valid() && Sane(g, w)
    ensures HikesFrom(g, fuel, end, [w]) == Hikes(g, fuel, end, w)
  {
    assert [w][..0] == [];
  }

  lemma Regroup<T>(finished: set<T>, next: set<T>, rest: set<T>, hikes: set<T>, rest': set<T>,
                   done: set<T>, grown: set<T>, finished': set<T>, next': set<T>)
    requires rest == hikes + rest' && hikes == done + grown
    requires next' == next + grown && finished' == finished + done
    ensures finished + next + rest == finished' + next' + rest'
  {
  }

  /** Every hike growing out of a walk ends at the end, has stopped at
    * every cell the walk stopped at and at least one more, and is longer. */
  lemma {:induction false} HikesFinish(g: Grid<Tile>, fuel: nat, end: Pos, w: Walk, h: Walk)
    requires g.Valid() && Sane(g, w) && h in Hikes(g, fuel, end, w)
    ensures h.position == end && end in h.visited && w.visited < h.visited && w.steps < h.steps
    decreases Room(g, w) + 1, 0
  {
    var cands := Candidates(g, fuel, w.position, g.At(w.position));
    var e := Next(g, fuel, end, w);
    HikesUnfold(g, fuel, end, w);
    if h in Elems(e.1) {
      ExpandGrows(g, end, w, cands, h);
    } else {
      ContinuationsSmaller(g, fuel, end, w);
      var c := HikesFromFinish(g, fuel, end, e.0, h, Room(g, w));
      ExpandGrows(g, end, w, cands, c);
    }
  }

  /** A walk the candidates finish or continue has stopped at one more
    * cell and is longer; a finished one stands at the end. */
  lemma ExpandGrows(g: Grid<Tile>, end: Pos, w: Walk, cands: seq<(Pos, nat)>, x: Walk)
    requires g.Valid() && OnMap(g, cands) && forall k | 0 <= k < |cands| :: cands[k].1 >= 1
    requires x in Expand(g, end, w, cands).0 || x in Expand(g, end, w, cands).1
    ensures w.visited < x.visited && w.steps < x.steps
    ensures x in Expand(g, end, w, cands).1 ==> x.position == end && end in x.visited
  {
    ExpandMeaning(g, end, w, cands, x);
    if x in Expand(g, end, w, cands).1 {
      var k :| 0 <= k < |cands| && cands[k].0 !in w.visited && cands[k].0 == end &&
               x == Walk(w.steps + cands[k].1, w.visited + {end}, end);
    } else {
      var k :| 0 <= k < |cands| && cands[k].0 !in w.visited &&
               x == Walk(w.steps + cands[k].1, w.visited + {cands[k].0}, cands[k].0);
    }
  }

  /** A hike growing out of one of some walks grows out of a particular
    * one of them. */
  lemma {:induction false} HikesFromFinish(g: Grid<Tile>, fuel: nat, end: Pos, ws: seq<Walk>, h: Walk, bound: nat)
    returns (c: Walk)
    requires g.Valid() && (forall w | w in ws :: Sane(g, w) && Room(g, w) < bound) && h in HikesFrom(g, fuel, end, ws)
    ensures c in ws && h.position == end && end in h.visited && c.visited < h.visited && c.steps < h.steps
    decreases bound, 1, |ws|
  {
    var front := ws[..|ws| - 1];
    assert forall w | w in front :: w in ws;
    var last := ws[|ws| - 1];
    if h in HikesFrom(g, fuel, end, front) {
      c := HikesFromFinish(g, fuel, end, front, h, bound);
    } else {
      c := last;
      HikesFinish(g, fuel, end, last, h);
    }
  }

  /** The longest of some walks, as `.map(steps).max()`; None for none. */
  function MaxSteps(ws: seq<Walk>): (r: Option<nat>)
    ensures r.None? <==> ws == []
    ensures r.Some? ==> (exists w | w in ws :: w.steps == r.value) && forall w | w in ws :: w.steps <= r.value
  {
    if ws == [] then None
    else
      var front := ws[..|ws| - 1];
      var last := ws[|ws| - 1];
      assert forall w | w in ws :: w in front || w == last;
      assert last in ws && forall w | w in front :: w in ws;
      var m := MaxSteps(front);
      if m.None? || m.value < last.steps then Some(last.steps) else m
  }

  /** The walk standing at the start, (1, 0). */
  const StartWalk: Walk := Walk(0, {(1, 0)}, (1, 0))

  /** The end, (width - 2, height - 1). */
  function EndOf(g: Grid<Tile>): Pos
    requires g.width >= 2 && g.height >= 1
  {
    (g.width - 2, g.height - 1)
  }

  /** `n` is the most steps of any walk of a set, which has one. */
  ghost predicate Longest(hikes: set<Walk>, n: nat) {
    (exists h | h in hikes :: h.steps == n) && forall h | h in hikes :: h.steps <= n
  }

  /** `perform_processing`: the longest of the finished walks from the
    * start to the end. A map less than two wide or without rows is an
    * error where the end's coordinates underflow, and no finished walk
    * is an error where `max` gives nothing to unwrap. */
  method PerformProcessing(g: Grid<Tile>, fuel: nat) returns (r: Result<nat>)
    requires g.Valid()
    ensures g.width < 2 || g.height < 1 ==> r.Err?
    ensures g.width >= 2 && g.height >= 1 ==>
              Sane(g, StartWalk) && (r.Ok? <==> Hikes(g, fuel, EndOf(g), StartWalk) != {})
    ensures r.Ok? ==> g.width >= 2 && g.height >= 1 && Sane(g, StartWalk) &&
                      Longest(Hikes(g, fuel, EndOf(g), StartWalk), r.value)
  {
    if g.width < 2 || g.height < 1 {
      return Err("attempt to subtract with overflow");
    }
    var walks := DoWalks(g, fuel, (1, 0), EndOf(g));
    var best := MaxSteps(walks);
    if best.None? {
      assert Elems(walks) == {};
      return Err("called `Option::unwrap()` on a `None` value");
    }
    assert walks[0] in Elems(walks);
    r := Ok(best.value);
    ghost var hikes := Hikes(g, fuel, EndOf(g), StartWalk);
    assert forall h | h in hikes :: h in walks;
    assert Longest(hikes, best.value);
  }

  // ---------------------------------------------------------------------
  // Part two: a depth-first search from junction to junction

  /** A cell reached, the steps taken to it and the cells stopped at. */
  datatype Visit = Visit(coord: Pos, steps: nat, visited: set<Pos>)

  /** The key of the best-steps map: a cell and the direction it was
    * entered in. */
  datatype Visited = Visited(coord: Pos, direction: Direction)

  /** The corridor loop of `go_to_next`: from the cell just entered,
    * follow corridors of non-forest cells, counting the cells entered on
    * from `steps`. Reaching the end inside a corridor counts one more step
    * and stops there. None where the source returns early; the walk also
    * gives up with None after `fuel` moves. */
  function FollowCorridor(g: Grid<Tile>, end: Pos, c: Pos, dir: Direction, steps: nat, fuel: nat)
    : (r: Option<(Pos, Direction, nat)>)
    requires g.Valid() && g.InBounds(c.0, c.1)
    ensures r.Some? ==> g.InBounds(r.value.0.0, r.value.0.1)
    decreases fuel
  {
    if !Corridor(g, NotForest, c) then Some((c, dir, steps))
    else
      var next := GetNextInCorridor(g, c, dir);
      if next.None? then None
      else if c == end then Some((c, dir, steps + 1))
      else if fuel == 0 then None
      else FollowCorridor(g, end, next.value.0, next.value.1, steps + 1, fuel - 1)
  }

  /** The corridor walk stops at the end or at a cell that is no corridor,
    * never on forest when it starts off it, and counts one step per cell
    * entered, plus one when it stops at the end inside a corridor. */
  lemma {:induction false} FollowCorridorStops(g: Grid<Tile>, end: Pos, c: Pos, dir: Direction, steps: nat, fuel: nat)
    requires g.Valid() && g.InBounds(c.0, c.1) && FollowCorridor(g, end, c, dir, steps, fuel).Some?
    ensures var r := FollowCorridor(g, end, c, dir, steps, fuel).value;
            (r.0 == end || !Corridor(g, NotForest, r.0)) &&
            (g.At(c) != Forest ==> g.At(r.0) != Forest) &&
            steps <= r.2 <= steps + fuel + 1
    decreases fuel
  {
    if Corridor(g, NotForest, c) && c != end {
      var next := GetNextInCorridor(g, c, dir);
      OpenMeaning(g, c, next.value.1);
      FollowCorridorStops(g, end, next.value.0, next.value.1, steps + 1, fuel - 1);
    }
  }

  /** What one call of `go_to_next` finds in a direction: nothing when the
    * neighbour is off the map, already stopped at or forest, or when the
    * corridor beyond ends at a cell already stopped at; otherwise the new
    * visit at the corridor's end and the key it is recorded under. */
  function NextVisit(g: Grid<Tile>, fuel: nat, end: Pos, v: Visit, dir: Direction): (r: Option<(Visit, Visited)>)
    requires g.Valid()
    ensures r.Some? ==> r.value.0.coord == r.value.1.coord && g.InBounds(r.value.0.coord.0, r.value.0.coord.1)
    ensures r.Some? ==> r.value.0.coord !in v.visited && r.value.0.visited == v.visited + {r.value.0.coord}
    ensures r.Some? ==> r.value.0.steps > v.steps && g.At(r.value.0.coord) != Forest
  {
    var n := GetNextCoord(g, v.coord, dir);
    if n.None? || n.value in v.visited || g.At(n.value) == Forest then None
    else
      var f := FollowCorridor(g, end, n.value, dir, 1, fuel);
      if f.None? then None
      else
        FollowCorridorStops(g, end, n.value, dir, 1, fuel);
        Arrive(v, f)
  }

  /** The visit at the end of a corridor walk, unless the walk gave up or
    * ended at a cell already stopped at. */
  function Arrive(v: Visit, f: Option<(Pos, Direction, nat)>): Option<(Visit, Visited)> {
    if f.None? || f.value.0 in v.visited then None
    else Some((Visit(f.value.0, v.steps + f.value.2, v.visited + {f.value.0}), Visited(f.value.0, f.value.1)))
  }

  /** The best-steps map after recording `s` steps under `k`: the larger
    * of what it held (0 when nothing) and `s`. */
  function Raise(m: map<Visited, nat>, k: Visited, s: nat): map<Visited, nat> {
    var current := if k in m then m[k] else 0;
    m[k := if current < s then s else current]
  }

  /** Raising records at least `s` under `k`, keeps every other entry and
    * never lowers one: what was there, or `s`, whichever is larger. */
  lemma RaiseMeaning(m: map<Visited, nat>, k: Visited, s: nat)
    ensures var r := Raise(m, k, s);
            k in r && s <= r[k] && (r[k] == s || (k in m && r[k] == m[k])) &&
            (k in m ==> m[k] <= r[k]) &&
            (forall j | j in m :: j in r && m[j] <= r[j]) &&
            (forall j | j in r && j != k :: j in m && r[j] == m[j])
  {
  }

  /** The stack after a visit is pushed in front of it, when there is one. */
  function Pushed(stack: seq<Visit>, n: Option<(Visit, Visited)>): (r: seq<Visit>)
    ensures n.None? ==> r == stack
    ensures n.Some? ==> |r| == |stack| + 1 && r[0] == n.value.0 && r[1..] == stack
  {
    if n.None? then stack else [n.value.0] + stack
  }

  /** The best-steps map after a visit is recorded, when there is one. */
  function Recorded(m: map<Visited, nat>, n: Option<(Visit, Visited)>): map<Visited, nat> {
    if n.None? then m else Raise(m, n.value.1, n.value.0.steps)
  }

  /** `go_to_next`: try the neighbour in one direction, follow the
    * corridor beyond it, and push the visit found on the front of the
    * stack, raising the best steps recorded for its cell and direction. */
  method GoToNext(g: Grid<Tile>, fuel: nat, end: Pos, visit: Visit, visited: map<Visited, nat>,
                  direction: Direction, toVisit: seq<Visit>)
    returns (visited': map<Visited, nat>, toVisit': seq<Visit>)
    requires g.Valid()
    ensures toVisit' == Pushed(toVisit, NextVisit(g, fuel, end, visit, direction))
    ensures visited' == Recorded(visited, NextVisit(g, fuel, end, visit, direction))
  {
    visited', toVisit' := visited, toVisit;
    var found := LookFrom(g, fuel, end, visit, direction);
    if found.Some? {
      var newVisit, key := found.value.0, found.value.1;
      toVisit' := [newVisit] + toVisit;
      var current := if key in visited then visited[key] else 0;
      visited' := visited[key := if current < newVisit.steps then newVisit.steps else current];
    }
  }

  /** The first half of `go_to_next`: the checks on the neighbour and the
    * corridor loop, giving the visit to push and its key, if any. */
  method LookFrom(g: Grid<Tile>, fuel: nat, end: Pos, visit: Visit, direction: Direction)
    returns (found: Option<(Visit, Visited)>)
    requires g.Valid()
    ensures found == NextVisit(g, fuel, end, visit, direction)
  {
    var nextCoord := GetNextCoord(g, visit.coord, direction);
    if nextCoord.None? {
      NextVisitBlocked(g, fuel, end, visit, direction);
      return None;
    }
    var coord := nextCoord.value;
    if coord in visit.visited || g.At(coord) == Forest {
      NextVisitBlocked(g, fuel, end, visit, direction);
      return None;
    }
    NextVisitUnfold(g, fuel, end, visit, direction);
    var walked := FollowCorridorLoop(g, end, coord, direction, fuel);
    found := Arrive(visit, walked);
  }

  /** The corridor loop of `go_to_next`, from the cell just entered. */
  method FollowCorridorLoop(g: Grid<Tile>, end: Pos, start: Pos, direction: Direction, fuel: nat)
    returns (r: Option<(Pos, Direction, nat)>)
    requires g.Valid() && g.InBounds(start.0, start.1)
    ensures r == FollowCorridor(g, end, start, direction, 1, fuel)
  {
    ghost var whole := FollowCorridor(g, end, start, direction, 1, fuel);
    var coord := start;
    var latestDirection := direction;
    var steps: nat := 1;
    var left: nat := fuel;
    var corridor := IsCorridor(g, NotForest, coord);
    while corridor
      invariant g.InBounds(coord.0, coord.1)
      invariant corridor == Corridor(g, NotForest, coord)
      invariant FollowCorridor(g, end, coord, latestDirection, steps, left) == whole
      decreases left
    {
      var nextAndDirection := GetNextInCorridor(g, coord, latestDirection);
      if nextAndDirection.None? {
        FollowCorridorGivesUp(g, end, coord, latestDirection, steps, left);
        return None;
      }
      if coord == end {
        FollowCorridorAtEnd(g, end, coord, latestDirection, steps, left);
        return Some((coord, latestDirection, steps + 1));
      }
      if left == 0 {
        FollowCorridorGivesUp(g, end, coord, latestDirection, steps, left);
        return None;
      }
      var n, d := nextAndDirection.value.0, nextAndDirection.value.1;
      var steps', left' := steps + 1, left - 1;
      FollowStep(g, end, coord, latestDirection, steps, left, n, d, steps', left');
      coord, latestDirection, steps, left := n, d, steps', left';
      corridor := IsCorridor(g, NotForest, coord);
    }
    FollowCorridorDone(g, end, coord, latestDirection, steps, left);
    r := Some((coord, latestDirection, steps));
  }

  lemma NextVisitBlocked(g: Grid<Tile>, fuel: nat, end: Pos, v: Visit, dir: Direction)
    requires g.Valid()
    requires GetNextCoord(g, v.coord, dir).None? || GetNextCoord(g, v.coord, dir).value in v.visited ||
             g.At(GetNextCoord(g, v.coord, dir).value) == Forest
    ensures NextVisit(g, fuel, end, v, dir).None?
  {
  }

  lemma NextVisitUnfold(g: Grid<Tile>, fuel: nat, end: Pos, v: Visit, dir: Direction)
    requires g.Valid() && GetNextCoord(g, v.coord, dir).Some?
    requires GetNextCoord(g, v.coord, dir).value !in v.visited && g.At(GetNextCoord(g, v.coord, dir).value) != Forest
    ensures NextVisit(g, fuel, end, v, dir) == Arrive(v, FollowCorridor(g, end, GetNextCoord(g, v.coord, dir).value, dir, 1, fuel))
  {
  }

  lemma FollowCorridorGivesUp(g: Grid<Tile>, end: Pos, c: Pos, dir: Direction, steps: nat, fuel: nat)
    requires g.Valid() && g.InBounds(c.0, c.1) && Corridor(g, NotForest, c)
    requires GetNextInCorridor(g, c, dir).None? || (c != end && fuel == 0)
    ensures FollowCorridor(g, end, c, dir, steps, fuel).None?
  {
  }

  lemma FollowCorridorAtEnd(g: Grid<Tile>, end: Pos, c: Pos, dir: Direction, steps: nat, fuel: nat)
    requires g.Valid() && g.InBounds(c.0, c.1) && Corridor(g, NotForest, c)
    requires GetNextInCorridor(g, c, dir).Some? && c == end
    ensures FollowCorridor(g, end, c, dir, steps, fuel) == Some((c, dir, steps + 1))
  {
  }

  lemma FollowCorridorDone(g: Grid<Tile>, end: Pos, c: Pos, dir: Direction, steps: nat, fuel: nat)
    requires g.Valid() && g.InBounds(c.0, c.1) && !Corridor(g, NotForest, c)
    ensures FollowCorridor(g, end, c, dir, steps, fuel) == Some((c, dir, steps))
  {
  }

  lemma {:induction false} FollowStep(g: Grid<Tile>, end: Pos, c: Pos, dir: Direction, steps: nat, fuel: nat, n: Pos, d: Direction,
                                      steps': nat, fuel': nat)
    requires g.Valid() && g.InBounds(c.0, c.1) && Corridor(g, NotForest, c) && c != end && fuel > 0
    requires GetNextInCorridor(g, c, dir) == Some((n, d)) && steps' == steps + 1 && fuel' == fuel - 1
    ensures g.InBounds(n.0, n.1)
    ensures FollowCorridor(g, end, c, dir, steps, fuel) == FollowCorridor(g, end, n, d, steps', fuel')
  {
    var next := GetNextInCorridor(g, c, dir);
    assert next.Some? && next.value.0 == n && next.value.1 == d;
    assert FollowCorridor(g, end, c, dir, steps, fuel) == FollowCorridor(g, end, next.value.0, next.value.1, steps + 1, fuel - 1);
  }

  // ---------------------------------------------------------------------
  // Part two: what the search finds

  /** A visit on the map whose stops are all on the map. */
  ghost predicate SaneVisit(g: Grid<Tile>, v: Visit) {
    v.visited <= AllPos(g) && g.InBounds(v.coord.0, v.coord.1)
  }

  /** How many cells a visit has not stopped at yet. */
  function VisitRoom(g: Grid<Tile>, v: Visit): nat {
    |AllPos(g) - v.visited|
  }

  /** A visit found from a visit on the map is on the map and has less room. */
  lemma NextVisitSmaller(g: Grid<Tile>, fuel: nat, end: Pos, v: Visit, d: Direction)
    requires g.Valid() && SaneVisit(g, v) && NextVisit(g, fuel, end, v, d).Some?
    ensures SaneVisit(g, NextVisit(g, fuel, end, v, d).value.0)
    ensures VisitRoom(g, NextVisit(g, fuel, end, v, d).value.0) < VisitRoom(g, v)
  {
    var c := NextVisit(g, fuel, end, v, d).value.0;
    assert AllPos(g) - c.visited == (AllPos(g) - v.visited) - {c.coord};
  }

  /** The order in which `perform_processing_2` tries the directions. */
  const Directions: seq<Direction> := [North, East, South, West]

  /** Every visit, with its key, that the search records below a visit. */
  ghost function Produced(g: Grid<Tile>, fuel: nat, end: Pos, v: Visit): set<(Visit, Visited)>
    requires g.Valid() && SaneVisit(g, v)
    decreases VisitRoom(g, v), 1
  {
    ProducedDirs(g, fuel, end, v, Directions)
  }

  /** The visits recorded below a visit through some of its directions. */
  ghost function ProducedDirs(g: Grid<Tile>, fuel: nat, end: Pos, v: Visit, ds: seq<Direction>): set<(Visit, Visited)>
    requires g.Valid() && SaneVisit(g, v)
    decreases VisitRoom(g, v), 0, |ds|
  {
    if ds == [] then {}
    else
      var n := NextVisit(g, fuel, end, v, ds[0]);
      if n.None? then ProducedDirs(g, fuel, end, v, ds[1..])
      else
        NextVisitSmaller(g, fuel, end, v, ds[0]);
        {n.value} + Produced(g, fuel, end, n.value.0) + ProducedDirs(g, fuel, end, v, ds[1..])
  }

  /** Every visit recorded below a visit extends it: it has stopped at
    * every cell the visit stopped at and at its own new cell, which is
    * on the map, not forest and its key's cell, and it has taken more
    * steps. */
  lemma {:induction false} ProducedGrows(g: Grid<Tile>, fuel: nat, end: Pos, v: Visit, x: (Visit, Visited))
    requires g.Valid() && SaneVisit(g, v) && x in Produced(g, fuel, end, v)
    ensures v.visited < x.0.visited && x.0.coord in x.0.visited && x.0.coord == x.1.coord
    ensures v.steps < x.0.steps && g.InBounds(x.0.coord.0, x.0.coord.1) && g.At(x.0.coord) != Forest
    decreases VisitRoom(g, v), 1
  {
    ProducedDirsGrows(g, fuel, end, v, Directions, x);
  }

  lemma {:induction false} ProducedDirsGrows(g: Grid<Tile>, fuel: nat, end: Pos, v: Visit, ds: seq<Direction>,
                                             x: (Visit, Visited))
    requires g.Valid() && SaneVisit(g, v) && x in ProducedDirs(g, fuel, end, v, ds)
    ensures v.visited < x.0.visited && x.0.coord in x.0.visited && x.0.coord == x.1.coord
    ensures v.steps < x.0.steps && g.InBounds(x.0.coord.0, x.0.coord.1) && g.At(x.0.coord) != Forest
    decreases VisitRoom(g, v), 0, |ds|
  {
    var n := NextVisit(g, fuel, end, v, ds[0]);
    if n.Some? && x != n.value {
      NextVisitSmaller(g, fuel, end, v, ds[0]);
      if x in Produced(g, fuel, end, n.value.0) {
        ProducedGrows(g, fuel, end, n.value.0, x);
      } else {
        ProducedDirsGrows(g, fuel, end, v, ds[1..], x);
      }
    } else if n.None? {
      ProducedDirsGrows(g, fuel, end, v, ds[1..], x);
    }
  }

  /** How many visits the search pops starting from a visit. */
  ghost function Size(g: Grid<Tile>, fuel: nat, end: Pos, v: Visit): nat
    requires g.Valid() && SaneVisit(g, v)
    decreases VisitRoom(g, v), 1
  {
    1 + SizeDirs(g, fuel, end, v, Directions)
  }

  ghost function SizeDirs(g: Grid<Tile>, fuel: nat, end: Pos, v: Visit, ds: seq<Direction>): nat
    requires g.Valid() && SaneVisit(g, v)
    decreases VisitRoom(g, v), 0, |ds|
  {
    if ds == [] then 0
    else
      var n := NextVisit(g, fuel, end, v, ds[0]);
      if n.None? then SizeDirs(g, fuel, end, v, ds[1..])
      else
        NextVisitSmaller(g, fuel, end, v, ds[0]);
        Size(g, fuel, end, n.value.0) + SizeDirs(g, fuel, end, v, ds[1..])
  }

  /** The visits recorded below each visit of a stack. */
  ghost function ProducedAll(g: Grid<Tile>, fuel: nat, end: Pos, stack: seq<Visit>): set<(Visit, Visited)>
    requires g.Valid() && forall v | v in stack :: SaneVisit(g, v)
  {
    if stack == [] then {}
    else
      assert forall v | v in stack[1..] :: v in stack;
      Produced(g, fuel, end, stack[0]) + ProducedAll(g, fuel, end, stack[1..])
  }

  /** How many visits the search pops from a stack. */
  ghost function SizeAll(g: Grid<Tile>, fuel: nat, end: Pos, stack: seq<Visit>): nat
    requires g.Valid() && forall v | v in stack :: SaneVisit(g, v)
  {
    if stack == [] then 0
    else
      assert forall v | v in stack[1..] :: v in stack;
      Size(g, fuel, end, stack[0]) + SizeAll(g, fuel, end, stack[1..])
  }

  /** The visit found, as a set of none or one. */
  function Emit(n: Option<(Visit, Visited)>): set<(Visit, Visited)> {
    if n.None? then {} else {n.value}
  }

  /** The best-steps map holds, for every key recorded, the most steps of
    * any visit recorded under it, and nothing else. */
  ghost predicate BestOf(best: map<Visited, nat>, emitted: set<(Visit, Visited)>) {
    (forall x | x in emitted :: x.1 in best && x.0.steps <= best[x.1]) &&
    (forall k | k in best :: exists x | x in emitted :: x.1 == k && x.0.steps == best[k])
  }

  /** Midway through a visit's directions: everything below the start is
    * recorded, below the directions left, or below the stack; `size`
    * visits remain to be popped. */
  ghost predicate Accounted(g: Grid<Tile>, fuel: nat, end: Pos, target: set<(Visit, Visited)>, emitted: set<(Visit, Visited)>,
                            v: Visit, ds: seq<Direction>, stack: seq<Visit>, best: map<Visited, nat>, size: nat)
    requires g.Valid()
  {
    SaneVisit(g, v) && (forall x | x in stack :: SaneVisit(g, x)) &&
    target == emitted + ProducedDirs(g, fuel, end, v, ds) + ProducedAll(g, fuel, end, stack) &&
    size == SizeDirs(g, fuel, end, v, ds) + SizeAll(g, fuel, end, stack) &&
    BestOf(best, emitted)
  }

  lemma Pop(g: Grid<Tile>, fuel: nat, end: Pos, target: set<(Visit, Visited)>, emitted: set<(Visit, Visited)>,
            stack: seq<Visit>, best: map<Visited, nat>)
    requires g.Valid() && stack != [] && forall x | x in stack :: SaneVisit(g, x)
    requires target == emitted + ProducedAll(g, fuel, end, stack) && BestOf(best, emitted)
    ensures stack[0] in stack && forall x | x in stack[1..] :: SaneVisit(g, x)
    ensures SizeAll(g, fuel, end, stack) == 1 + SizeDirs(g, fuel, end, stack[0], Directions) + SizeAll(g, fuel, end, stack[1..])
    ensures Accounted(g, fuel, end, target, emitted, stack[0], Directions, stack[1..], best,
                      SizeDirs(g, fuel, end, stack[0], Directions) + SizeAll(g, fuel, end, stack[1..]))
  {
    assert forall x | x in stack[1..] :: x in stack;
  }

  lemma Settle(g: Grid<Tile>, fuel: nat, end: Pos, target: set<(Visit, Visited)>, emitted: set<(Visit, Visited)>,
               v: Visit, ds: seq<Direction>, stack: seq<Visit>, best: map<Visited, nat>, size: nat)
    requires g.Valid() && ds == [] && Accounted(g, fuel, end, target, emitted, v, ds, stack, best, size)
    ensures forall x | x in stack :: SaneVisit(g, x)
    ensures target == emitted + ProducedAll(g, fuel, end, stack) && size == SizeAll(g, fuel, end, stack)
    ensures BestOf(best, emitted)
  {
  }

  lemma Carry(g: Grid<Tile>, fuel: nat, end: Pos, target: set<(Visit, Visited)>, emitted: set<(Visit, Visited)>,
              v: Visit, ds: seq<Direction>, stack: seq<Visit>, best: map<Visited, nat>, size: nat,
              stack': seq<Visit>, best': map<Visited, nat>)
    requires g.Valid() && ds != [] && Accounted(g, fuel, end, target, emitted, v, ds, stack, best, size)
    requires stack' == Pushed(stack, NextVisit(g, fuel, end, v, ds[0]))
    requires best' == Recorded(best, NextVisit(g, fuel, end, v, ds[0]))
    ensures Accounted(g, fuel, end, target, emitted + Emit(NextVisit(g, fuel, end, v, ds[0])), v, ds[1..], stack', best', size)
  {
    var n := NextVisit(g, fuel, end, v, ds[0]);
    DirsUnfold(g, fuel, end, v, ds);
    if n.Some? {
      NextVisitSmaller(g, fuel, end, v, ds[0]);
      var c := n.value.0;
      PushUnfold(g, fuel, end, c, stack);
      RegroupVisit(target, emitted, {n.value}, Produced(g, fuel, end, c), ProducedDirs(g, fuel, end, v, ds[1..]),
                   ProducedAll(g, fuel, end, stack));
      BestGrows(best, emitted, n.value);
    }
  }

  lemma DirsUnfold(g: Grid<Tile>, fuel: nat, end: Pos, v: Visit, ds: seq<Direction>)
    requires g.Valid() && SaneVisit(g, v) && ds != []
    ensures NextVisit(g, fuel, end, v, ds[0]).None? ==>
              ProducedDirs(g, fuel, end, v, ds) == ProducedDirs(g, fuel, end, v, ds[1..]) &&
              SizeDirs(g, fuel, end, v, ds) == SizeDirs(g, fuel, end, v, ds[1..])
    ensures NextVisit(g, fuel, end, v, ds[0]).Some? ==>
              SaneVisit(g, NextVisit(g, fuel, end, v, ds[0]).value.0) &&
              ProducedDirs(g, fuel, end, v, ds) ==
                {NextVisit(g, fuel, end, v, ds[0]).value} + Produced(g, fuel, end, NextVisit(g, fuel, end, v, ds[0]).value.0) +
                ProducedDirs(g, fuel, end, v, ds[1..]) &&
              SizeDirs(g, fuel, end, v, ds) ==
                Size(g, fuel, end, NextVisit(g, fuel, end, v, ds[0]).value.0) + SizeDirs(g, fuel, end, v, ds[1..])
  {
    if NextVisit(g, fuel, end, v, ds[0]).Some? {
      NextVisitSmaller(g, fuel, end, v, ds[0]);
    }
  }

  lemma PushUnfold(g: Grid<Tile>, fuel: nat, end: Pos, c: Visit, stack: seq<Visit>)
    requires g.Valid() && SaneVisit(g, c) && forall x | x in stack :: SaneVisit(g, x)
    ensures forall x | x in [c] + stack :: SaneVisit(g, x)
    ensures ProducedAll(g, fuel, end, [c] + stack) == Produced(g, fuel, end, c) + ProducedAll(g, fuel, end, stack)
    ensures SizeAll(g, fuel, end, [c] + stack) == Size(g, fuel, end, c) + SizeAll(g, fuel, end, stack)
  {
    assert ([c] + stack)[1..] == stack;
  }

  lemma RegroupVisit<T>(target: set<T>, emitted: set<T>, x: set<T>, below: set<T>, rest: set<T>, stack: set<T>)
    requires target == emitted + (x + below + rest) + stack
    ensures target == (emitted + x) + rest + (below + stack)
  {
  }

  /** Recording one more visit keeps the map the best of what was recorded. */
  lemma BestGrows(best: map<Visited, nat>, emitted: set<(Visit, Visited)>, x: (Visit, Visited))
    requires BestOf(best, emitted)
    ensures BestOf(Raise(best, x.1, x.0.steps), emitted + {x})
  {
    var best' := Raise(best, x.1, x.0.steps);
    RaiseMeaning(best, x.1, x.0.steps);
    forall k | k in best'
      ensures exists y | y in emitted + {x} :: y.1 == k && y.0.steps == best'[k]
    {
      if k == x.1 && best'[k] == x.0.steps {
        assert x in emitted + {x};
      } else {
        var y :| y in emitted && y.1 == k && y.0.steps == best[k];
        assert y in emitted + {x};
      }
    }
  }

  /** The longest visit recorded under a key among some: one has it and
    * none has more. */
  ghost predicate LongestUnder(found: set<(Visit, Visited)>, key: Visited, n: nat) {
    (exists x | x in found :: x.1 == key && x.0.steps == n) &&
    forall x | x in found && x.1 == key :: x.0.steps <= n
  }

  /** The visit standing at the start, (1, 0). */
  const StartVisit: Visit := Visit((1, 0), 0, {(1, 0)})

  /** The body of the search loop: `go_to_next` from a popped visit to the
    * north, east, south and west, in that order. */
  method Explore(g: Grid<Tile>, fuel: nat, end: Pos, visit: Visit, visited: map<Visited, nat>, toVisit: seq<Visit>,
                 ghost target: set<(Visit, Visited)>, ghost emitted: set<(Visit, Visited)>, ghost size: nat)
    returns (visited': map<Visited, nat>, toVisit': seq<Visit>, ghost emitted': set<(Visit, Visited)>)
    requires g.Valid() && Accounted(g, fuel, end, target, emitted, visit, Directions, toVisit, visited, size)
    ensures Accounted(g, fuel, end, target, emitted', visit, [], toVisit', visited', size)
  {
    ghost var ds := Directions;
    emitted' := emitted;
    visited', toVisit' := GoToNext(g, fuel, end, visit, visited, North, toVisit);
    Carry(g, fuel, end, target, emitted', visit, ds, toVisit, visited, size, toVisit', visited');
    emitted', ds := emitted' + Emit(NextVisit(g, fuel, end, visit, North)), ds[1..];
    var visited2, toVisit2 := GoToNext(g, fuel, end, visit, visited', East, toVisit');
    Carry(g, fuel, end, target, emitted', visit, ds, toVisit', visited', size, toVisit2, visited2);
    emitted', ds := emitted' + Emit(NextVisit(g, fuel, end, visit, East)), ds[1..];
    var visited3, toVisit3 := GoToNext(g, fuel, end, visit, visited2, South, toVisit2);
    Carry(g, fuel, end, target, emitted', visit, ds, toVisit2, visited2, size, toVisit3, visited3);
    emitted', ds := emitted' + Emit(NextVisit(g, fuel, end, visit, South)), ds[1..];
    visited', toVisit' := GoToNext(g, fuel, end, visit, visited3, West, toVisit3);
    Carry(g, fuel, end, target, emitted', visit, ds, toVisit3, visited3, size, toVisit', visited');
    emitted', ds := emitted' + Emit(NextVisit(g, fuel, end, visit, West)), ds[1..];
  }

  /** `perform_processing_2`: a depth-first search from the start, each
    * popped visit trying north, east, south and west in turn; the answer
    * is the most steps recorded for arriving at the end heading south.
    * A map less than two wide or without rows is an error where the end's
    * coordinates underflow, and no such arrival is the `expect` error. */
  method PerformProcessing2(g: Grid<Tile>, fuel: nat) returns (r: Result<nat>)
    requires g.Valid()
    ensures g.width < 2 || g.height < 1 ==> r.Err?
    ensures g.width >= 2 && g.height >= 1 ==>
              SaneVisit(g, StartVisit) &&
              (r.Ok? <==> exists x | x in Produced(g, fuel, EndOf(g), StartVisit) :: x.1 == Visited(EndOf(g), South))
    ensures r.Ok? ==> g.width >= 2 && g.height >= 1 && SaneVisit(g, StartVisit) &&
                      LongestUnder(Produced(g, fuel, EndOf(g), StartVisit), Visited(EndOf(g), South), r.value)
  {
    if g.width < 2 || g.height < 1 {
      return Err("attempt to subtract with overflow");
    }
    var end := EndOf(g);
    var visited: map<Visited, nat> := map[];
    var toVisit: seq<Visit> := [StartVisit];
    ghost var target := Produced(g, fuel, end, StartVisit);
    ghost var emitted: set<(Visit, Visited)> := {};
    PushUnfold(g, fuel, end, StartVisit, []);
    assert toVisit == [StartVisit] + [];
    while toVisit != []
      invariant forall x | x in toVisit :: SaneVisit(g, x)
      invariant target == emitted + ProducedAll(g, fuel, end, toVisit)
      invariant BestOf(visited, emitted)
      decreases SizeAll(g, fuel, end, toVisit)
    {
      Pop(g, fuel, end, target, emitted, toVisit, visited);
      var visit := toVisit[0];
      toVisit := toVisit[1..];
      ghost var size := SizeDirs(g, fuel, end, visit, Directions) + SizeAll(g, fuel, end, toVisit);
      visited, toVisit, emitted := Explore(g, fuel, end, visit, visited, toVisit, target, emitted, size);
      Settle(g, fuel, end, target, emitted, visit, [], toVisit, visited, size);
    }
    var key := Visited(end, South);
    if key !in visited {
      return Err("Didn't find end visit");
    }
    r := Ok(visited[key]);
  }
}
