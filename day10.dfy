// Pipe maze: a grid of pipe pieces with one animal start tile. Part one
// follows the loop through the start and halves its length; part two
// squeezes between the pipes on the grid of crossing points to find the
// ground tiles the loop encloses.
module Day10 {
  import opened Wrappers
  import opened Grids
  import opened Processor

  datatype Pipe = Vertical | Horizontal | NorthToEast | NorthToWest | SouthToWest | SouthToEast | Ground | Start

  datatype Direction = North | East | South | West

  // ---------------------------------------------------------------------
  // Pipes

  /** The character each pipe is drawn with. */
  function Symbol(p: Pipe): char {
    match p
    case Vertical => '|'
    case Horizontal => '-'
    case NorthToEast => 'L'
    case NorthToWest => 'J'
    case SouthToWest => '7'
    case SouthToEast => 'F'
    case Ground => '.'
    case Start => 'S'
  }

  /** `add_next_pipe`'s table; None for a character it panics on. 'O' and
    * 'I', the markers of the worked examples, are ground as well. */
  function PipeOf(c: char): (r: Option<Pipe>)
    ensures r.Some? <==> c in "|-LJ7F.OIS"
    ensures r == Some(Start) <==> c == 'S'
    ensures r == Some(Ground) <==> c in ".OI"
  {
    match c
    case '|' => Some(Vertical)
    case '-' => Some(Horizontal)
    case 'L' => Some(NorthToEast)
    case 'J' => Some(NorthToWest)
    case '7' => Some(SouthToWest)
    case 'F' => Some(SouthToEast)
    case '.' => Some(Ground)
    case 'O' => Some(Ground)
    case 'I' => Some(Ground)
    case 'S' => Some(Start)
    case _ => None
  }

  /** Every pipe reads back from the character it is drawn with. */
  lemma PipeOfSymbol(p: Pipe)
    ensures PipeOf(Symbol(p)) == Some(p)
  {
  }

  /** Every recognised character other than the markers 'O' and 'I' is the
    * drawing of the pipe it reads as. */
  lemma SymbolOfPipeOf(c: char)
    requires PipeOf(c).Some? && c != 'O' && c != 'I'
    ensures Symbol(PipeOf(c).value) == c
  {
  }

  predicate IsPipe(p: Pipe) {
    p != Ground && p != Start
  }

  /** `get_exits`: whether the pipe opens to the north, east, south and west. */
  function Exits(p: Pipe): (r: (bool, bool, bool, bool))
    ensures Count(r) == if IsPipe(p) then 2 else 0
  {
    match p
    case Vertical => (true, false, true, false)
    case Horizontal => (false, true, false, true)
    case NorthToEast => (true, true, false, false)
    case NorthToWest => (true, false, false, true)
    case SouthToWest => (false, false, true, true)
    case SouthToEast => (false, true, true, false)
    case Ground => (false, false, false, false)
    case Start => (false, false, false, false)
  }

  function Count(flags: (bool, bool, bool, bool)): nat {
    (if flags.0 then 1 else 0) + (if flags.1 then 1 else 0) +
    (if flags.2 then 1 else 0) + (if flags.3 then 1 else 0)
  }

  predicate HasExit(p: Pipe, d: Direction) {
    match d
    case North => Exits(p).0
    case East => Exits(p).1
    case South => Exits(p).2
    case West => Exits(p).3
  }

  function Opposite(d: Direction): (r: Direction)
    ensures r != d
  {
    match d
    case North => South
    case East => West
    case South => North
    case West => East
  }

  /** One cell on in direction `d`; north is towards row 0. */
  function Move(c: Coord, d: Direction): (r: Coord)
    ensures r != c
  {
    match d
    case North => (c.0, c.1 - 1)
    case East => (c.0 + 1, c.1)
    case South => (c.0, c.1 + 1)
    case West => (c.0 - 1, c.1)
  }

  /** Turning round twice faces the first way, and a move undone by a
    * move the opposite way lands where it began. */
  lemma MoveBack(c: Coord, d: Direction)
    ensures Opposite(Opposite(d)) == d
    ensures Move(Move(c, d), Opposite(d)) == c
  {
  }

  /** `get_next_x_y_and_direction`: travelling in `dir` into the pipe at
    * `c`, the cell and direction after passing through it; None for the
    * pairs it panics on. The walk goes on only when the pipe opens on the
    * side it is entered from, leaves through its other exit, and moves
    * one cell that way. */
  function NextStep(c: Coord, pipe: Pipe, dir: Direction): (r: Option<(Coord, Direction)>)
    ensures r.Some? <==> HasExit(pipe, Opposite(dir))
    ensures r.Some? ==> HasExit(pipe, r.value.1) && r.value.1 != Opposite(dir)
    ensures r.Some? ==> r.value.0 == Move(c, r.value.1)
  {
    var (x, y) := c;
    match (pipe, dir)
    case (Vertical, North) => Some(((x, y - 1), North))
    case (Vertical, South) => Some(((x, y + 1), South))
    case (Horizontal, East) => Some(((x + 1, y), East))
    case (Horizontal, West) => Some(((x - 1, y), West))
    case (NorthToEast, South) => Some(((x + 1, y), East))
    case (NorthToEast, West) => Some(((x, y - 1), North))
    case (NorthToWest, South) => Some(((x - 1, y), West))
    case (NorthToWest, East) => Some(((x, y - 1), North))
    case (SouthToWest, North) => Some(((x - 1, y), West))
    case (SouthToWest, East) => Some(((x, y + 1), South))
    case (SouthToEast, North) => Some(((x + 1, y), East))
    case (SouthToEast, West) => Some(((x, y + 1), South))
    case _ => None
  }

  /** A pipe passed through one way is passed through back the other way:
    * entering by the exit just left, the walk comes out where it came in. */
  lemma NextStepReverses(c: Coord, pipe: Pipe, dir: Direction)
    requires NextStep(c, pipe, dir).Some?
    ensures NextStep(c, pipe, Opposite(NextStep(c, pipe, dir).value.1)) ==
              Some((Move(c, Opposite(dir)), Opposite(dir)))
  {
  }

  // ---------------------------------------------------------------------
  // Loading

  /** The builder's lines so far, the last 'S' seen and the pipe the start
    * tile really is (a parameter of the puzzle). */
  datatype LoadingState = LoadingState(start: Option<(nat, nat)>, startPipe: Pipe, lines: seq<seq<Pipe>>)

  /** The recorded start is a cell the builder holds. */
  predicate StartRecorded(s: LoadingState) {
    s.start.Some? ==> s.start.value.1 < |s.lines| && s.start.value.0 < |s.lines[s.start.value.1]|
  }

  /** `parse_line`: a new builder line holding one pipe per character; the
    * start moves to the last 'S' of the line when it has one. A character
    * outside the table is an error (the source panics). */
  method ParseLine(state: LoadingState, line: string) returns (r: Result<LoadingState>)
    ensures r.Ok? <==> forall i | 0 <= i < |line| :: PipeOf(line[i]).Some?
    ensures r.Ok? ==> r.value.startPipe == state.startPipe && |r.value.lines| == |state.lines| + 1
    ensures r.Ok? ==> r.value.lines[..|state.lines|] == state.lines
    ensures r.Ok? ==> |r.value.lines[|state.lines|]| == |line| &&
                      forall i | 0 <= i < |line| :: Some(r.value.lines[|state.lines|][i]) == PipeOf(line[i])
    ensures r.Ok? ==> r.value.start == if 'S' in line then Some((LastIndexOf(line, 'S').value, |state.lines|)) else state.start
    ensures r.Ok? && StartRecorded(state) ==> StartRecorded(r.value)
  {
    var y := |state.lines|;
    var row: seq<Pipe> := [];
    var start := state.start;
    for i := 0 to |line|
      invariant |row| == i && forall k | 0 <= k < i :: PipeOf(line[k]) == Some(row[k])
      invariant start == if 'S' in line[..i] then Some((LastIndexOf(line[..i], 'S').value, y)) else state.start
    {
      var pipe := PipeOf(line[i]);
      if pipe.None? {
        return Err("Unrecognised pipe");
      }
      assert line[..i + 1] == line[..i] + [line[i]];
      row := row + [pipe.value];
      if pipe.value == Start {
        start := Some((i, y));
      }
    }
    assert line[..|line|] == line;
    r := Ok(LoadingState(start, state.startPipe, state.lines + [row]));
    assert r.value.lines[..y] == state.lines;
  }

  /** The loaded maze: the start tile and the grid, its start cell now
    * holding the start's real pipe. */
  datatype State = State(start: (nat, nat), pipes: Grid<Pipe>) {
    ghost predicate Valid() {
      pipes.Valid()
    }
  }

  /** `finalise_state`: an error without a start; otherwise the start's
    * cell is overwritten with the configured pipe and the lines are built
    * into a grid padded with ground. */
  function FinaliseState(state: LoadingState): (r: Result<State>)
    requires StartRecorded(state)
    ensures r.Ok? <==> state.start.Some?
    ensures r.Ok? ==> r.value.Valid() && r.value.start == state.start.value
    ensures r.Ok? ==> r.value.pipes.height == |state.lines| && r.value.pipes.InBounds(r.value.start.0, r.value.start.1)
    ensures r.Ok? ==> r.value.pipes.At(r.value.start) == state.startPipe
    ensures r.Ok? ==> forall x, y | r.value.pipes.InBounds(x, y) && (x, y) != r.value.start ::
                        r.value.pipes.At((x, y)) == if x < |state.lines[y]| then state.lines[y][x] else Ground
  {
    match state.start
    case None => Err("No start found")
    case Some((sx, sy)) =>
      var lines := state.lines[sy := state.lines[sy][sx := state.startPipe]];
      assert |lines[sy]| > 0;
      var pipes := Build(lines, Ground);
      Ok(State((sx, sy), pipes.value))
  }

  // ---------------------------------------------------------------------
  // Following the loop

  /** The first exit of the start pipe in the order north, south, east,
    * west: the way the walk sets off. */
  function InitialDirection(p: Pipe): (r: Option<Direction>)
    ensures r.Some? <==> IsPipe(p)
    ensures r.Some? ==> HasExit(p, r.value)
  {
    var (n, e, s, w) := Exits(p);
    if n then Some(North)
    else if s then Some(South)
    else if e then Some(East)
    else if w then Some(West)
    else None
  }

  /** The loop of `get_loop_tiles` from the point where the walk, going in
    * `dir`, reaches `c` having collected `tiles`: it ends at the first
    * tile already collected; a tile outside the grid or a pipe that cannot
    * be entered from that side is an error. */
  function Trace(state: State, c: Coord, dir: Direction, tiles: set<Coord>): (r: Result<set<Coord>>)
    requires state.Valid() && tiles <= state.pipes.Coords()
    decreases state.pipes.Coords() - tiles
  {
    if c in tiles then Ok(tiles)
    else if !state.pipes.InBounds(c.0, c.1) then Err("not in bounds")
    else
      match NextStep(c, state.pipes.At(c), dir)
      case None => Err("Unrecognised pipe/direction")
      case Some((next, d)) =>
        assert c in state.pipes.Coords() - tiles;
        Trace(state, next, d, tiles + {c})
  }

  /** `get_loop_tiles` as a value: set off from the start by its first
    * exit, then trace. */
  function LoopTiles(state: State): (r: Result<set<Coord>>)
    requires state.Valid()
  {
    var s: Coord := state.start;
    if !state.pipes.InBounds(s.0, s.1) then Err("not in bounds")
    else
      match InitialDirection(state.pipes.At(s))
      case None => Err("Can't get current direction")
      case Some(d) => Trace(state, Move(s, d), d, {s})
  }

  /** `get_loop_tiles`: walks the pipes, adding each tile reached, until it
    * comes to a tile it has already added. */
  method GetLoopTiles(state: State) returns (r: Result<set<Coord>>)
    requires state.Valid()
    ensures r == LoopTiles(state)
  {
    var s: Coord := state.start;
    var startPipe :- state.pipes.Get(s.0, s.1);
    var direction := InitialDirection(startPipe);
    if direction.None? {
      return Err("Can't get current direction");
    }
    var dir := direction.value;
    var c := Move(s, dir);
    var loopTiles := {s};
    while c !in loopTiles
      invariant loopTiles <= state.pipes.Coords()
      invariant Trace(state, c, dir, loopTiles) == LoopTiles(state)
      decreases state.pipes.Coords() - loopTiles
    {
      var pipe :- state.pipes.Get(c.0, c.1);
      var next := NextStep(c, pipe, dir);
      if next.None? {
        return Err("Unrecognised pipe/direction");
      }
      loopTiles := loopTiles + {c};
      c, dir := next.value.0, next.value.1;
    }
    r := Ok(loopTiles);
  }

  /** The tiles collected stay collected. */
  lemma {:induction false} TraceKeeps(state: State, c: Coord, dir: Direction, tiles: set<Coord>)
    requires state.Valid() && tiles <= state.pipes.Coords()
    ensures Trace(state, c, dir, tiles).Ok? ==> tiles <= Trace(state, c, dir, tiles).value
    decreases state.pipes.Coords() - tiles
  {
    if c !in tiles && state.pipes.InBounds(c.0, c.1) {
      match NextStep(c, state.pipes.At(c), dir)
      case None =>
      case Some((next, d)) =>
        TraceKeeps(state, next, d, tiles + {c});
    }
  }

  /** Every tile the trace adds is a pipe inside the grid. */
  lemma {:induction false} TraceAddsPipes(state: State, c: Coord, dir: Direction, tiles: set<Coord>)
    requires state.Valid() && tiles <= state.pipes.Coords()
    ensures Trace(state, c, dir, tiles).Ok? ==>
              forall t | t in Trace(state, c, dir, tiles).value - tiles ::
                state.pipes.InBounds(t.0, t.1) && IsPipe(state.pipes.At(t))
    decreases state.pipes.Coords() - tiles
  {
    if c !in tiles && state.pipes.InBounds(c.0, c.1) {
      match NextStep(c, state.pipes.At(c), dir)
      case None =>
      case Some((next, d)) =>
        TraceAddsPipes(state, next, d, tiles + {c});
    }
  }

  /** The loop holds the start, lies inside the grid and consists of
    * pipes: every tile on it has exactly two exits. */
  lemma LoopIsPipes(state: State)
    requires state.Valid() && LoopTiles(state).Ok?
    ensures state.start in LoopTiles(state).value
    ensures LoopTiles(state).value <= state.pipes.Coords()
    ensures forall t | t in LoopTiles(state).value :: state.pipes.InBounds(t.0, t.1) && Count(Exits(state.pipes.At(t))) == 2
  {
    var s: Coord := state.start;
    var d := InitialDirection(state.pipes.At(s)).value;
    TraceKeeps(state, Move(s, d), d, {s});
    TraceAddsPipes(state, Move(s, d), d, {s});
  }

  /** `perform_processing_1`: half the number of loop tiles, the distance
    * to the farthest point of the loop. */
  method PerformProcessing1(state: State) returns (r: Result<nat>)
    requires state.Valid()
    ensures r.Ok? <==> LoopTiles(state).Ok?
    ensures r.Ok? ==> r.value == |LoopTiles(state).value| / 2
  {
    var tiles :- GetLoopTiles(state);
    r := Ok(|tiles| / 2);
  }

  // ---------------------------------------------------------------------
  // Squeezing between pipes

  /** The ways on from a crossing point (the corner shared by four tiles):
    * the four sides and the four diagonals, in the order they sort in. */
  datatype RunDirection = N | E | S | W | NE | SE | SW | NW

  /** The direction back the way a step came. */
  function Reverse(d: RunDirection): (r: RunDirection)
    ensures Offset(r) == (-Offset(d).0, -Offset(d).1)
  {
    match d
    case N => S
    case E => W
    case S => N
    case W => E
    case NE => SW
    case SE => NW
    case SW => NE
    case NW => SE
  }

  /** The offset of one step in `d`; north is towards row 0. */
  function Offset(d: RunDirection): (r: (int, int))
    ensures -1 <= r.0 <= 1 && -1 <= r.1 <= 1 && r != (0, 0)
  {
    match d
    case N => (0, -1)
    case E => (1, 0)
    case S => (0, 1)
    case W => (-1, 0)
    case NE => (1, -1)
    case SE => (1, 1)
    case SW => (-1, 1)
    case NW => (-1, -1)
  }

  /** The eight directions reach all eight neighbours. */
  lemma OffsetsCoverNeighbours(dx: int, dy: int)
    requires -1 <= dx <= 1 && -1 <= dy <= 1 && (dx, dy) != (0, 0)
    ensures exists d :: Offset(d) == (dx, dy)
  {
    var d :=
      if dy == -1 then (if dx == -1 then NW else if dx == 0 then N else NE)
      else if dy == 0 then (if dx == -1 then W else E)
      else (if dx == -1 then SW else if dx == 0 then S else SE);
    assert Offset(d) == (dx, dy);
  }

  /** `get_next_coord`: the crossing point one step away in `d`, None when
    * it falls outside [0, extents). */
  function GetNextCoord(c: Coord, d: RunDirection, extents: (nat, nat)): (r: Option<Coord>)
    ensures var (x, y) := (c.0 + Offset(d).0, c.1 + Offset(d).1);
            r.Some? <==> 0 <= x < extents.0 && 0 <= y < extents.1
    ensures r.Some? ==> r.value == (c.0 + Offset(d).0, c.1 + Offset(d).1)
  {
    var (x, y) := match d
      case N => (c.0, c.1 - 1)
      case E => (c.0 + 1, c.1)
      case S => (c.0, c.1 + 1)
      case W => (c.0 - 1, c.1)
      case NE => (c.0 + 1, c.1 - 1)
      case SE => (c.0 + 1, c.1 + 1)
      case SW => (c.0 - 1, c.1 + 1)
      case NW => (c.0 - 1, c.1 - 1);
    if x < 0 || y < 0 then None
    else if x >= extents.0 || y >= extents.1 then None
    else Some((x, y))
  }

  /** A step taken can be stepped back: from where it lands, the reverse
    * direction returns to an in-range start. */
  lemma GetNextCoordBack(c: Coord, d: RunDirection, extents: (nat, nat))
    requires 0 <= c.0 < extents.0 && 0 <= c.1 < extents.1
    requires GetNextCoord(c, d, extents).Some?
    ensures GetNextCoord(GetNextCoord(c, d, extents).value, Reverse(d), extents) == Some(c)
  {
  }

  /** `get_pipe_at`: the tile at offset (dx, dy) from the crossing point
    * (x, y) and the pipe part two sees on it: None outside the grid, the
    * real pipe on a loop tile, ground on every other tile. */
  function GetPipeAt(pipes: Grid<Pipe>, x: int, y: int, dx: int, dy: int, loopTiles: set<Coord>): (r: Option<(Pipe, Coord)>)
    requires pipes.Valid()
    ensures r.None? <==> !pipes.InBounds(x + dx, y + dy)
    ensures r.Some? ==> r.value.1 == (x + dx, y + dy)
    ensures r.Some? ==> r.value.0 == if r.value.1 in loopTiles then pipes.At(r.value.1) else Ground
  {
    var (ax, ay) := (x + dx, y + dy);
    if ax < 0 || ay < 0 then None
    else if ax >= pipes.width || ay >= pipes.height then None
    else if (ax, ay) in loopTiles then Some((pipes.Get(ax, ay).value, (ax, ay)))
    else Some((Ground, (ax, ay)))
  }

  /** `get_exits_opt`: no exits where there is no tile. */
  function ExitsOpt(p: Option<(Pipe, Coord)>): (bool, bool, bool, bool) {
    match p
    case Some((pipe, _)) => Exits(pipe)
    case None => (false, false, false, false)
  }

  /** The pipes a diagonal step may pass through on the tile it crosses. */
  const NorthWestPipes: set<Pipe> := {NorthToEast, SouthToWest}
  const NorthEastPipes: set<Pipe> := {NorthToWest, SouthToEast}
  const SouthWestPipes: set<Pipe> := {NorthToWest, SouthToEast}
  const SouthEastPipes: set<Pipe> := {NorthToEast, SouthToWest}

  /** What a crossing point offers the search: whether it is on the edge of
    * the grid, the ways on from it, and the ground tiles around it. */
  datatype PipeRun = PipeRun(onTheEdge: bool, directions: set<RunDirection>, surroundingGround: seq<Coord>)

  /** The four tiles around a crossing point as `get_pipe_at` reports them. */
  datatype Around = Around(nw: Option<(Pipe, Coord)>, ne: Option<(Pipe, Coord)>,
                           sw: Option<(Pipe, Coord)>, se: Option<(Pipe, Coord)>)

  /** The tiles around crossing point (x, y), the top-left corner of tile (x, y). */
  function Surrounding(pipes: Grid<Pipe>, x: nat, y: nat, loopTiles: set<Coord>): Around
    requires pipes.Valid()
  {
    Around(GetPipeAt(pipes, x, y, -1, -1, loopTiles), GetPipeAt(pipes, x, y, 0, -1, loopTiles),
           GetPipeAt(pipes, x, y, -1, 0, loopTiles), GetPipeAt(pipes, x, y, 0, 0, loopTiles))
  }

  /** A side between tiles `a` and `b` is open when at least one of them is
    * present and neither reaches across it. */
  predicate SideOpen(a: Option<(Pipe, Coord)>, aCrosses: bool, b: Option<(Pipe, Coord)>, bCrosses: bool) {
    (a.Some? || b.Some?) && (a.None? || !aCrosses) && (b.None? || !bCrosses)
  }

  /** A diagonal is open through a present tile whose pipe is in `through`. */
  predicate DiagonalOpen(a: Option<(Pipe, Coord)>, through: set<Pipe>) {
    a.Some? && a.value.0 in through
  }

  /** Whether the way `d` on from a crossing point with tiles `a` around it
    * is open; each side lies between two of the tiles, each diagonal
    * passes through one. */
  predicate Open(a: Around, d: RunDirection) {
    match d
    case N => SideOpen(a.nw, ExitsOpt(a.nw).1, a.ne, ExitsOpt(a.ne).3)
    case E => SideOpen(a.ne, ExitsOpt(a.ne).2, a.se, ExitsOpt(a.se).0)
    case S => SideOpen(a.sw, ExitsOpt(a.sw).1, a.se, ExitsOpt(a.se).3)
    case W => SideOpen(a.nw, ExitsOpt(a.nw).2, a.sw, ExitsOpt(a.sw).0)
    case NE => DiagonalOpen(a.ne, NorthEastPipes)
    case NW => DiagonalOpen(a.nw, NorthWestPipes)
    case SW => DiagonalOpen(a.sw, SouthWestPipes)
    case SE => DiagonalOpen(a.se, SouthEastPipes)
  }

  const AllDirections: set<RunDirection> := {N, E, S, W, NE, SE, SW, NW}

  /** The coordinates of the present tiles that are not on the loop. */
  function GroundCoords(around: seq<Option<(Pipe, Coord)>>, loopTiles: set<Coord>): (r: seq<Coord>)
    ensures |r| <= |around|
    ensures forall c :: c in r <==> exists i | 0 <= i < |around| :: around[i].Some? && around[i].value.1 == c && c !in loopTiles
  {
    if around == [] then []
    else
      var rest := GroundCoords(around[1..], loopTiles);
      assert forall i | 1 <= i < |around| :: around[1..][i - 1] == around[i];
      match around[0]
      case Some((_, c)) => if c !in loopTiles then [c] + rest else rest
      case None => rest
  }

  /** `create_pipe_run` for the crossing point (x, y). */
  function CreatePipeRun(pipes: Grid<Pipe>, x: nat, y: nat, loopTiles: set<Coord>): (r: PipeRun)
    requires pipes.Valid()
  {
    var a := Surrounding(pipes, x, y, loopTiles);
    PipeRun(
      a.ne.None? || a.nw.None? || a.se.None? || a.sw.None?,
      (set d | d in AllDirections && Open(a, d)),
      GroundCoords([a.ne, a.nw, a.se, a.sw], loopTiles))
  }

  /** The four tiles around crossing point (x, y). */
  function Corners(x: int, y: int): set<Coord> {
    {(x - 1, y - 1), (x, y - 1), (x - 1, y), (x, y)}
  }

  /** A crossing point is on the edge exactly when it lies on the border of
    * the grid. */
  lemma PipeRunEdge(pipes: Grid<Pipe>, x: nat, y: nat, loopTiles: set<Coord>)
    requires pipes.Valid()
    ensures CreatePipeRun(pipes, x, y, loopTiles).onTheEdge <==> x == 0 || y == 0 || x >= pipes.width || y >= pipes.height
  {
  }

  /** The ground tiles of a crossing point are the tiles around it that
    * lie inside the grid and off the loop. */
  lemma PipeRunGround(pipes: Grid<Pipe>, x: nat, y: nat, loopTiles: set<Coord>)
    requires pipes.Valid()
    ensures forall c :: c in CreatePipeRun(pipes, x, y, loopTiles).surroundingGround <==>
              c in Corners(x, y) && pipes.InBounds(c.0, c.1) && c !in loopTiles
  {
    var a := Surrounding(pipes, x, y, loopTiles);
    var around := [a.ne, a.nw, a.se, a.sw];
    var g := GroundCoords(around, loopTiles);
    assert g == CreatePipeRun(pipes, x, y, loopTiles).surroundingGround;
    forall c
      ensures c in g <==> c in Corners(x, y) && pipes.InBounds(c.0, c.1) && c !in loopTiles
    {
      if c in Corners(x, y) && pipes.InBounds(c.0, c.1) && c !in loopTiles {
        if c == (x, y - 1) {
          assert around[0].Some? && around[0].value.1 == c;
        } else if c == (x - 1, y - 1) {
          assert around[1].Some? && around[1].value.1 == c;
        } else if c == (x, y) {
          assert around[2].Some? && around[2].value.1 == c;
        } else {
          assert around[3].Some? && around[3].value.1 == c;
        }
      }
    }
  }

  /** Away from the loop and the border, every side is open and no diagonal is. */
  lemma PipeRunOpenGround(pipes: Grid<Pipe>, x: nat, y: nat, loopTiles: set<Coord>)
    requires pipes.Valid() && 0 < x < pipes.width && 0 < y < pipes.height
    requires forall c | c in Corners(x, y) :: c !in loopTiles
    ensures CreatePipeRun(pipes, x, y, loopTiles).directions == {N, E, S, W}
  {
  }

  /** A loop pipe that reaches across a side of the crossing point closes
    * that side: the tile above-left opening east closes the north side,
    * the tile above-right opening south the east side, the tile
    * below-right opening west the south side, and the tile below-left
    * opening north the west side. */
  lemma PipeRunBlocked(pipes: Grid<Pipe>, x: nat, y: nat, loopTiles: set<Coord>)
    requires pipes.Valid() && 0 < x < pipes.width && 0 < y < pipes.height
    ensures var t := (x - 1, y - 1); t in loopTiles && HasExit(pipes.At(t), East) ==>
              N !in CreatePipeRun(pipes, x, y, loopTiles).directions
    ensures var t := (x, y - 1); t in loopTiles && HasExit(pipes.At(t), South) ==>
              E !in CreatePipeRun(pipes, x, y, loopTiles).directions
    ensures var t := (x, y); t in loopTiles && HasExit(pipes.At(t), West) ==>
              S !in CreatePipeRun(pipes, x, y, loopTiles).directions
    ensures var t := (x - 1, y); t in loopTiles && HasExit(pipes.At(t), North) ==>
              W !in CreatePipeRun(pipes, x, y, loopTiles).directions
  {
  }

  /** `create_pipe_runs`: the crossing points form a grid one wider and one
    * taller than the tiles, each holding its pipe run. */
  method CreatePipeRuns(pipes: Grid<Pipe>, loopTiles: set<Coord>) returns (r: Grid<PipeRun>)
    requires pipes.Valid()
    ensures r.Valid() && r.width == pipes.width + 1 && r.height == pipes.height + 1
    ensures forall x: nat, y: nat | r.InBounds(x, y) :: r.At((x, y)) == CreatePipeRun(pipes, x, y, loopTiles)
  {
    r := Tabulate(pipes.width + 1, pipes.height + 1, (x, y) => CreatePipeRun(pipes, x, y, loopTiles));
  }

  /** The crossing point one open step in `d` from `c`: None when `c` is
    * outside the grid, `d` is closed there, or the step leaves the grid. */
  function Step(runs: Grid<PipeRun>, c: Coord, d: RunDirection): (r: Option<Coord>)
    requires runs.Valid()
    ensures r.Some? ==> runs.InBounds(r.value.0, r.value.1)
  {
    if runs.InBounds(c.0, c.1) && d in runs.At(c).directions then GetNextCoord(c, d, (runs.width, runs.height))
    else None
  }

  /** The ground tiles around the crossing points of `cs` inside the grid. */
  function GroundOf(runs: Grid<PipeRun>, cs: seq<Coord>): set<Coord>
    requires runs.Valid()
  {
    if cs == [] then {}
    else
      var c := cs[|cs| - 1];
      GroundOf(runs, cs[..|cs| - 1]) + (if runs.InBounds(c.0, c.1) then set t | t in runs.At(c).surroundingGround else {})
  }

  /** Whether one of the crossing points of `cs` inside the grid is on its edge. */
  predicate Escapes(runs: Grid<PipeRun>, cs: seq<Coord>)
    requires runs.Valid()
  {
    cs != [] &&
    (Escapes(runs, cs[..|cs| - 1]) ||
     var c := cs[|cs| - 1]; runs.InBounds(c.0, c.1) && runs.At(c).onTheEdge)
  }

  /** The search's bookkeeping: `reached` are the points taken from the
    * queue, `queue` the ones waiting; together they start at `start`, hold
    * no point twice, make up `visited`, and each but the first is one open
    * step (`via`) from an earlier point (`parent`) of `reached`. */
  ghost predicate Queued(runs: Grid<PipeRun>, start: Coord, reached: seq<Coord>, queue: seq<Coord>,
                         visited: set<Coord>, parent: seq<nat>, via: seq<RunDirection>)
    requires runs.Valid()
  {
    var enqueued := reached + queue;
    |enqueued| > 0 && enqueued[0] == start &&
    (forall i, j | 0 <= i < j < |enqueued| :: enqueued[i] != enqueued[j]) &&
    (forall c :: c in visited <==> c in enqueued) &&
    |parent| == |enqueued| && |via| == |enqueued| &&
    forall i | 0 < i < |enqueued| ::
      parent[i] < i && parent[i] < |reached| && Step(runs, reached[parent[i]], via[i]) == Some(enqueued[i])
  }

  /** Queuing a point not yet visited, one step from the last point taken. */
  lemma PushKeepsQueued(runs: Grid<PipeRun>, start: Coord, reached: seq<Coord>, queue: seq<Coord>,
                        visited: set<Coord>, parent: seq<nat>, via: seq<RunDirection>, d: RunDirection)
    requires runs.Valid() && Queued(runs, start, reached, queue, visited, parent, via) && |reached| > 0
    requires Step(runs, reached[|reached| - 1], d).Some? && Step(runs, reached[|reached| - 1], d).value !in visited
    ensures var n := Step(runs, reached[|reached| - 1], d).value;
            Queued(runs, start, reached, queue + [n], visited + {n}, parent + [|reached| - 1], via + [d])
  {
    var n := Step(runs, reached[|reached| - 1], d).value;
    assert reached + (queue + [n]) == (reached + queue) + [n];
  }

  /** Taking the first point off the queue. */
  lemma PopKeepsQueued(runs: Grid<PipeRun>, start: Coord, reached: seq<Coord>, queue: seq<Coord>,
                       visited: set<Coord>, parent: seq<nat>, via: seq<RunDirection>)
    requires runs.Valid() && Queued(runs, start, reached, queue, visited, parent, via) && queue != []
    ensures Queued(runs, start, reached + [queue[0]], queue[1..], visited, parent, via)
  {
    assert (reached + [queue[0]]) + queue[1..] == reached + queue;
  }

  /** The ground and the edge of the points reached grow by the point taken. */
  lemma ReachedOneMore(runs: Grid<PipeRun>, reached: seq<Coord>, c: Coord)
    requires runs.Valid()
    ensures GroundOf(runs, reached + [c]) ==
              GroundOf(runs, reached) + (if runs.InBounds(c.0, c.1) then set t | t in runs.At(c).surroundingGround else {})
    ensures Escapes(runs, reached + [c]) == (Escapes(runs, reached) || (runs.InBounds(c.0, c.1) && runs.At(c).onTheEdge))
  {
    assert (reached + [c])[..|reached|] == reached;
  }

  /** The inner loop of the search for the point `c` just taken from the
    * queue: every open step from it not yet visited is queued and visited. */
  method QueueNeighbours(runs: Grid<PipeRun>, c: Coord, start: Coord, ghost reached: seq<Coord>,
                         visited: set<Coord>, queue: seq<Coord>, ghost parent: seq<nat>, ghost via: seq<RunDirection>)
    returns (visited': set<Coord>, queue': seq<Coord>, ghost parent': seq<nat>, ghost via': seq<RunDirection>)
    requires runs.Valid() && runs.InBounds(c.0, c.1)
    requires |reached| > 0 && reached[|reached| - 1] == c
    requires Queued(runs, start, reached, queue, visited, parent, via)
    ensures Queued(runs, start, reached, queue', visited', parent', via')
    ensures visited <= visited' && forall d :: Step(runs, c, d).Some? ==> Step(runs, c, d).value in visited'
    ensures runs.Coords() - visited' <= runs.Coords() - visited
    ensures runs.Coords() - visited' == runs.Coords() - visited ==> queue' == queue
  {
    var run := runs.Get(c.0, c.1).value;
    var remaining := run.directions;
    visited', queue', parent', via' := visited, queue, parent, via;
    while remaining != {}
      invariant remaining <= run.directions
      invariant Queued(runs, start, reached, queue', visited', parent', via')
      invariant visited <= visited'
      invariant forall d | d !in remaining :: Step(runs, c, d).Some? ==> Step(runs, c, d).value in visited'
      invariant runs.Coords() - visited' <= runs.Coords() - visited
      invariant runs.Coords() - visited' == runs.Coords() - visited ==> queue' == queue
    {
      var d :| d in remaining;
      remaining := remaining - {d};
      var next := GetNextCoord(c, d, (runs.width, runs.height));
      if next.Some? && next.value !in visited' {
        assert Step(runs, c, d) == next;
        PushKeepsQueued(runs, start, reached, queue', visited', parent', via', d);
        queue' := queue' + [next.value];
        visited' := visited' + {next.value};
        parent' := parent' + [|reached| - 1];
        via' := via' + [d];
        assert next.value in runs.Coords() - visited;
      }
    }
  }

  /** What holds of the search after each point: its bookkeeping is
    * sound, the open steps from every point taken lead to visited points,
    * and the outputs summarise the points taken. */
  ghost predicate Searching(runs: Grid<PipeRun>, start: Coord, reached: seq<Coord>, queue: seq<Coord>,
                            visited: set<Coord>, parent: seq<nat>, via: seq<RunDirection>,
                            tiles: set<Coord>, gotOutside: bool)
    requires runs.Valid()
  {
    Queued(runs, start, reached, queue, visited, parent, via) &&
    (forall i, d | 0 <= i < |reached| :: Step(runs, reached[i], d).Some? ==> Step(runs, reached[i], d).value in visited) &&
    tiles == GroundOf(runs, reached) &&
    gotOutside == Escapes(runs, reached)
  }

  /** One turn of the search loop: take the first queued point, queue its
    * open steps, and add its ground and edge to the outputs. */
  method SearchStep(runs: Grid<PipeRun>, start: Coord, ghost reached: seq<Coord>, queue: seq<Coord>,
                    visited: set<Coord>, ghost parent: seq<nat>, ghost via: seq<RunDirection>,
                    tiles: set<Coord>, gotOutside: bool)
    returns (ghost reached': seq<Coord>, queue': seq<Coord>, visited': set<Coord>, ghost parent': seq<nat>,
             ghost via': seq<RunDirection>, tiles': set<Coord>, gotOutside': bool)
    requires runs.Valid() && queue != []
    requires Searching(runs, start, reached, queue, visited, parent, via, tiles, gotOutside)
    ensures Searching(runs, start, reached', queue', visited', parent', via', tiles', gotOutside')
    ensures runs.Coords() - visited' < runs.Coords() - visited ||
            (runs.Coords() - visited' == runs.Coords() - visited && |queue'| < |queue|)
  {
    var c := queue[0];
    PopKeepsQueued(runs, start, reached, queue, visited, parent, via);
    ReachedOneMore(runs, reached, c);
    reached', queue', visited', parent', via', tiles', gotOutside' :=
      reached + [c], queue[1..], visited, parent, via, tiles, gotOutside;
    var found := runs.Get(c.0, c.1);
    if found.Ok? {
      visited', queue', parent', via' := QueueNeighbours(runs, c, start, reached', visited', queue', parent', via');
      tiles' := tiles' + set t | t in found.value.surroundingGround;
      gotOutside' := gotOutside' || found.value.onTheEdge;
    }
  }

  /** `find_all_connected_ground_tiles`: a breadth-first search over the
    * crossing points from `start`. Each point is queued at most once, the
    * visited set recording the ones already queued. The ghost `reached`
    * lists the points in the order they were taken from the queue, each
    * but the first one open step (`via`) from an earlier one (`parent`);
    * no open step from a point of it leads outside it. The search reports
    * whether it reached the edge of the grid and the ground tiles around
    * what it reached. */
  method FindAllConnectedGroundTiles(start: Coord, runs: Grid<PipeRun>)
    returns (gotOutside: bool, tiles: set<Coord>, ghost reached: seq<Coord>, ghost parent: seq<nat>, ghost via: seq<RunDirection>)
    requires runs.Valid()
    ensures |reached| > 0 && reached[0] == start
    ensures forall i, j | 0 <= i < j < |reached| :: reached[i] != reached[j]
    ensures |parent| == |reached| && |via| == |reached|
    ensures forall i | 0 < i < |reached| :: parent[i] < i && Step(runs, reached[parent[i]], via[i]) == Some(reached[i])
    ensures forall i, d | 0 <= i < |reached| :: Step(runs, reached[i], d).Some? ==> Step(runs, reached[i], d).value in reached
    ensures tiles == GroundOf(runs, reached)
    ensures gotOutside == Escapes(runs, reached)
  {
    var visited: set<Coord> := {start};
    var queue: seq<Coord> := [start];
    tiles := {};
    gotOutside := false;
    reached := [];
    parent := [0];
    via := [N];
    while queue != []
      invariant Searching(runs, start, reached, queue, visited, parent, via, tiles, gotOutside)
      decreases runs.Coords() - visited, |queue|
    {
      reached, queue, visited, parent, via, tiles, gotOutside :=
        SearchStep(runs, start, reached, queue, visited, parent, via, tiles, gotOutside);
    }
    assert reached + queue == reached;
  }

  /** The ground found around crossing points of a pipe-run grid built from
    * `pipes` lies inside the tile grid and off the loop. */
  lemma {:induction false} GroundOfOffLoop(pipes: Grid<Pipe>, loopTiles: set<Coord>, runs: Grid<PipeRun>, cs: seq<Coord>)
    requires pipes.Valid() && runs.Valid()
    requires forall x: nat, y: nat | runs.InBounds(x, y) :: runs.At((x, y)) == CreatePipeRun(pipes, x, y, loopTiles)
    ensures GroundOf(runs, cs) <= pipes.Coords() - loopTiles
  {
    if cs != [] {
      GroundOfOffLoop(pipes, loopTiles, runs, cs[..|cs| - 1]);
      var c := cs[|cs| - 1];
      if runs.InBounds(c.0, c.1) {
        PipeRunGround(pipes, c.0, c.1, loopTiles);
      }
    }
  }

  /** `perform_processing_2`: every ground tile not yet accounted for, taken
    * in row-major order, starts a search from its top-left crossing point;
    * the ground the search finds is inside when the search never reached
    * the edge. Other tiles off the loop are only marked seen. The answer is
    * the number of inside tiles, which are tiles of the grid off the loop. */
  method PerformProcessing2(state: State) returns (r: Result<nat>, ghost inside: set<Coord>)
    requires state.Valid()
    ensures r.Ok? <==> LoopTiles(state).Ok?
    ensures r.Ok? ==> r.value == |inside| && inside <= state.pipes.Coords() - LoopTiles(state).value
  {
    inside := {};
    var loopTiles :- GetLoopTiles(state);
    var pipes := state.pipes;
    var runs := CreatePipeRuns(pipes, loopTiles);
    var visitedTiles: set<Coord> := {};
    var insideTiles: set<Coord> := {};
    for y := 0 to pipes.height
      invariant insideTiles <= pipes.Coords() - loopTiles
    {
      for x := 0 to pipes.width
        invariant insideTiles <= pipes.Coords() - loopTiles
      {
        var c: Coord := (x, y);
        if c in loopTiles || c in visitedTiles {
          continue;
        }
        if pipes.At(c) == Ground {
          var canGetOutside, tiles, reached, _, _ := FindAllConnectedGroundTiles(c, runs);
          GroundOfOffLoop(pipes, loopTiles, runs, reached);
          if !canGetOutside {
            insideTiles := insideTiles + tiles;
          }
          visitedTiles := visitedTiles + tiles;
        } else {
          visitedTiles := visitedTiles + {c};
        }
      }
    }
    inside := insideTiles;
    r := Ok(|insideTiles|);
  }
}
