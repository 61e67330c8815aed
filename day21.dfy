// Step counter: a garden of plots and rocks with one start plot. Part one
// counts the plots an elf can stand on after exactly a given number of
// steps; part two repeats the garden endlessly in every direction, records
// the count after each step and extrapolates it from the repeating pattern
// of its second-order differences.
module Day21 {
  import opened Wrappers
  import opened Grids
  import opened Processor
  import opened Numbers

  datatype Tile = Plot | Rock

  /** `char_rep`. */
  function Symbol(t: Tile): char {
    match t
    case Plot => '.'
    case Rock => '#'
  }

  /** The tile a character of the map stands for, and whether it marks the
    * start; None for a character `parse_line` rejects. */
  function TileOf(c: char): (r: Option<(Tile, bool)>)
    ensures r.Some? <==> c in ".#S"
    ensures r.Some? ==> (r.value.1 <==> c == 'S')
    ensures r.Some? && r.value.1 ==> r.value.0 == Plot
  {
    match c
    case '.' => Some((Plot, false))
    case '#' => Some((Rock, false))
    case 'S' => Some((Plot, true))
    case _ => None
  }

  /** Every tile reads back from the character it is drawn with. */
  lemma TileOfSymbol(t: Tile)
    ensures TileOf(Symbol(t)) == Some((t, false))
  {
  }

  // ---------------------------------------------------------------------
  // Loading

  /** The two step counts the puzzle asks about, the start found so far and
    * the builder's lines. */
  datatype LoadingState = LoadingState(totalSteps: nat, totalToCalculate: nat,
                                       start: Option<(nat, nat)>, lines: seq<seq<Tile>>)

  /** The recorded start is a plot the builder holds. */
  predicate StartRecorded(s: LoadingState) {
    s.start.Some? ==>
      s.start.value.1 < |s.lines| && s.start.value.0 < |s.lines[s.start.value.1]| &&
      s.lines[s.start.value.1][s.start.value.0] == Plot
  }

  /** `parse_line`: an empty line changes nothing; any other line becomes a
    * new builder line of its tiles, and the start moves to the cell of the
    * line's last 'S'. An unknown character is an error. */
  method ParseLine(state: LoadingState, line: string) returns (r: Result<LoadingState>)
    ensures line == [] ==> r == Ok(state)
    ensures r.Ok? <==> forall i | 0 <= i < |line| :: TileOf(line[i]).Some?
    ensures r.Ok? && line != [] ==>
              r.value.totalSteps == state.totalSteps && r.value.totalToCalculate == state.totalToCalculate &&
              r.value.lines == state.lines + [seq(|line|, i requires 0 <= i < |line| => TileOf(line[i]).value.0)]
    ensures r.Ok? && line != [] ==>
              r.value.start == if 'S' in line then Some((LastIndexOf(line, 'S').value, |state.lines|)) else state.start
    ensures r.Ok? && StartRecorded(state) ==> StartRecorded(r.value)
  {
    if line == [] {
      return Ok(state);
    }
    var y := |state.lines|;
    var row: seq<Tile> := [];
    var start := state.start;
    for i := 0 to |line|
      invariant |row| == i && forall k | 0 <= k < i :: TileOf(line[k]).Some? && TileOf(line[k]).value.0 == row[k]
      invariant start == if 'S' in line[..i] then Some((LastIndexOf(line[..i], 'S').value, y)) else state.start
    {
      var tile := TileOf(line[i]);
      if tile.None? {
        return Err("Unrecognised tile");
      }
      assert line[..i + 1] == line[..i] + [line[i]];
      row := row + [tile.value.0];
      if tile.value.1 {
        start := Some((i, y));
      }
    }
    assert line[..|line|] == line;
    r := Ok(LoadingState(state.totalSteps, state.totalToCalculate, start, state.lines + [row]));
    assert row == seq(|line|, i requires 0 <= i < |line| => TileOf(line[i]).value.0);
  }

  /** The loaded garden. The start is a plot inside it. */
  datatype LoadedState = LoadedState(totalSteps: nat, totalToCalculate: nat, start: (nat, nat), tiles: Grid<Tile>) {
    ghost predicate Valid() {
      tiles.Valid() && tiles.InBounds(start.0, start.1) && tiles.At(start) == Plot
    }
  }

  /** `finalise_state`: an error without a start; otherwise the lines are
    * built into a grid padded with plots. */
  function FinaliseState(state: LoadingState): (r: Result<LoadedState>)
    requires StartRecorded(state)
    ensures r.Ok? <==> state.start.Some?
    ensures r.Ok? ==> r.value.Valid() && r.value.start == state.start.value
    ensures r.Ok? ==> r.value.totalSteps == state.totalSteps && r.value.totalToCalculate == state.totalToCalculate
    ensures r.Ok? ==> r.value.tiles.height == |state.lines| && r.value.tiles.width == MaxWidth(state.lines)
    ensures r.Ok? ==> forall x, y | r.value.tiles.InBounds(x, y) ::
                        r.value.tiles.At((x, y)) == if x < |state.lines[y]| then state.lines[y][x] else Plot
  {
    match state.start
    case None => Err("No start found")
    case Some((sx, sy)) =>
      assert |state.lines[sy]| > 0;
      var tiles := Build(state.lines, Plot);
      Ok(LoadedState(state.totalSteps, state.totalToCalculate, (sx, sy), tiles.value))
  }

  // ---------------------------------------------------------------------
  // Part one: the bounded garden

  /** The plots one step up, down, left or right of `p` inside the garden. */
  function PlotNeighbours(tiles: Grid<Tile>, p: (nat, nat)): set<(nat, nat)>
    requires tiles.Valid()
  {
    set q: (nat, nat) | q in AdjacentCartesian(p, (tiles.width, tiles.height)) && tiles.At(q) == Plot
  }

  /** `make_step`'s candidates: exactly the plots inside the garden one
    * step up, down, left or right. */
  lemma PlotNeighboursMeaning(tiles: Grid<Tile>, p: (nat, nat), q: (nat, nat))
    requires tiles.Valid()
    ensures q in PlotNeighbours(tiles, p) <==>
              tiles.InBounds(q.0, q.1) && Touching(q, p) && tiles.At(q) == Plot
  {
  }

  /** One step of the walk: every plot next to a position held now. */
  function Step(tiles: Grid<Tile>, current: set<(nat, nat)>): set<(nat, nat)>
    requires tiles.Valid()
  {
    set p, q | p in current && q in PlotNeighbours(tiles, p) :: q
  }

  /** A step holds exactly the plots next to some position held before. */
  lemma StepMeaning(tiles: Grid<Tile>, current: set<(nat, nat)>, q: (nat, nat))
    requires tiles.Valid()
    ensures q in Step(tiles, current) <==> exists p | p in current :: q in PlotNeighbours(tiles, p)
  {
  }

  /** The positions held after `n` steps from `start`. */
  function Reach(tiles: Grid<Tile>, start: set<(nat, nat)>, n: nat): set<(nat, nat)>
    requires tiles.Valid()
  {
    if n == 0 then start else Step(tiles, Reach(tiles, start, n - 1))
  }

  /** `make_step`: adds to `next` the in-bounds plots next to `position`. */
  method MakeStep(tiles: Grid<Tile>, position: (nat, nat), next: set<(nat, nat)>) returns (r: set<(nat, nat)>)
    requires tiles.Valid()
    ensures r == next + PlotNeighbours(tiles, position)
  {
    var adjacent := AdjacentCartesian(position, (tiles.width, tiles.height));
    r := next;
    for i := 0 to |adjacent|
      invariant r == next + set q: (nat, nat) | q in adjacent[..i] && tiles.At(q) == Plot
    {
      assert adjacent[..i + 1] == adjacent[..i] + [adjacent[i]];
      if tiles.At(adjacent[i]) == Plot {
        r := r + {adjacent[i]};
      }
    }
    assert adjacent[..|adjacent|] == adjacent;
  }

  /** Stepping from one more position adds exactly its plot neighbours. */
  lemma StepAdd(tiles: Grid<Tile>, done: set<(nat, nat)>, p: (nat, nat))
    requires tiles.Valid()
    ensures Step(tiles, done + {p}) == Step(tiles, done) + PlotNeighbours(tiles, p)
  {
    forall q: (nat, nat) | q in Step(tiles, done + {p})
      ensures q in Step(tiles, done) + PlotNeighbours(tiles, p)
    {
      var o :| o in done + {p} && q in PlotNeighbours(tiles, o);
      if o != p {
        assert o in done;
      }
    }
  }

  /** The inner `for_each` of `perform_walk`: every position held now
    * steps into `next`, which starts empty. */
  method StepAll(tiles: Grid<Tile>, current: set<(nat, nat)>) returns (next: set<(nat, nat)>)
    requires tiles.Valid()
    ensures next == Step(tiles, current)
  {
    next := {};
    var pending := current;
    while pending != {}
      invariant pending <= current
      invariant next == Step(tiles, current - pending)
      decreases |pending|
    {
      var p :| p in pending;
      StepAdd(tiles, current - pending, p);
      next := MakeStep(tiles, p, next);
      assert current - (pending - {p}) == (current - pending) + {p};
      pending := pending - {p};
    }
    assert current - pending == current;
  }

  /** `perform_walk`: the number of positions held after `totalSteps`
    * steps from the start. */
  method PerformWalk(state: LoadedState) returns (r: nat)
    requires state.Valid()
    ensures r == |Reach(state.tiles, {state.start}, state.totalSteps)|
  {
    var current: set<(nat, nat)> := {state.start};
    for i := 0 to state.totalSteps
      invariant current == Reach(state.tiles, {state.start}, i)
    {
      var next := StepAll(state.tiles, current);
      current := next;
    }
    r := |current|;
  }

  /** Every position ever held is a plot inside the garden. */
  lemma {:induction false} ReachPlots(state: LoadedState, n: nat, q: (nat, nat))
    requires state.Valid() && q in Reach(state.tiles, {state.start}, n)
    ensures state.tiles.InBounds(q.0, q.1) && state.tiles.At(q) == Plot
  {
    if n > 0 {
      var p := Predecessor(state.tiles, {state.start}, n, q);
      PlotNeighboursMeaning(state.tiles, p, q);
    }
  }

  /** A position held after a step was reached from a position held before
    * it. */
  lemma Predecessor(tiles: Grid<Tile>, start: set<(nat, nat)>, n: nat, q: (nat, nat)) returns (p: (nat, nat))
    requires tiles.Valid() && n > 0 && q in Reach(tiles, start, n)
    ensures p in Reach(tiles, start, n - 1) && q in PlotNeighbours(tiles, p) && Touching(q, p)
  {
    p :| p in Reach(tiles, start, n - 1) && q in PlotNeighbours(tiles, p);
    PlotNeighboursMeaning(tiles, p, q);
  }

  predicate Even(x: int) {
    x % 2 == 0
  }

  /** A step up, down, left or right changes the parity of x + y. */
  lemma StepParity(p: (nat, nat), q: (nat, nat))
    requires Touching(q, p)
    ensures Even(q.0 + q.1) != Even(p.0 + p.1)
  {
  }

  /** `even` flipped `n` times. */
  function Alternate(even: bool, n: nat): (r: bool)
    ensures n > 0 ==> r == !Alternate(even, n - 1)
  {
    if n == 0 then even else !Alternate(even, n - 1)
  }

  /** Flipping the parity of `x` once per step gives the parity of
    * `x + n`. */
  lemma {:induction false} AlternateParity(x: int, n: nat)
    ensures Alternate(Even(x), n) == Even(x + n)
  {
    if n > 0 {
      AlternateParity(x, n - 1);
    }
  }

  /** A plot next to a position held is held one step later. */
  lemma ReachNext(tiles: Grid<Tile>, start: set<(nat, nat)>, n: nat, p: (nat, nat), q: (nat, nat))
    requires tiles.Valid() && p in Reach(tiles, start, n) && q in PlotNeighbours(tiles, p)
    ensures q in Reach(tiles, start, n + 1)
  {
    StepMeaning(tiles, Reach(tiles, start, n), q);
  }

  /** Every position of `s` has x + y even exactly when `even` holds. */
  ghost predicate ParityLayer(s: set<(nat, nat)>, even: bool) {
    forall q | q in s :: Even(q.0 + q.1) == even
  }

  lemma SameLayer(s: set<(nat, nat)>, a: bool, b: bool)
    requires ParityLayer(s, a) && a == b
    ensures ParityLayer(s, b)
  {
  }

  /** A step flips the parity of every position held. */
  lemma StepKeepsParity(tiles: Grid<Tile>, current: set<(nat, nat)>, even: bool)
    requires tiles.Valid() && ParityLayer(current, even)
    ensures ParityLayer(Step(tiles, current), !even)
  {
    forall q | q in Step(tiles, current)
      ensures Even(q.0 + q.1) == !even
    {
      StepMeaning(tiles, current, q);
      var p :| p in current && q in PlotNeighbours(tiles, p);
      PlotNeighboursMeaning(tiles, p, q);
      StepParity(p, q);
    }
  }

  /** The parity of x + y flips with every step taken. */
  lemma {:induction false} ReachParityLayer(tiles: Grid<Tile>, start: set<(nat, nat)>, even: bool, n: nat)
    requires tiles.Valid() && ParityLayer(start, even)
    ensures ParityLayer(Reach(tiles, start, n), Alternate(even, n))
    decreases n
  {
    if n > 0 {
      ReachParityLayer(tiles, start, even, n - 1);
      StepKeepsParity(tiles, Reach(tiles, start, n - 1), Alternate(even, n - 1));
    }
  }

  /** Each step changes the parity of x + y, so after `n` steps only the
    * positions whose x + y has the parity of the start's plus `n` are
    * held. */
  lemma ReachParity(tiles: Grid<Tile>, start: (nat, nat), n: nat)
    requires tiles.Valid()
    ensures ParityLayer(Reach(tiles, {start}, n), Even(start.0 + start.1 + n))
  {
    ReachParityLayer(tiles, {start}, Even(start.0 + start.1), n);
    AlternateParity(start.0 + start.1, n);
    SameLayer(Reach(tiles, {start}, n), Alternate(Even(start.0 + start.1), n), Even(start.0 + start.1 + n));
  }

  /** After at least one step, a position held is held again two steps
    * later: the elf can step back and forth. */
  lemma ReachReturns(state: LoadedState, n: nat)
    requires state.Valid() && n >= 1
    ensures Reach(state.tiles, {state.start}, n) <= Reach(state.tiles, {state.start}, n + 2)
  {
    var tiles := state.tiles;
    var before := Reach(tiles, {state.start}, n - 1);
    forall p | p in before
      ensures tiles.InBounds(p.0, p.1) && tiles.At(p) == Plot
    {
      ReachPlots(state, n - 1, p);
    }
    StepReturns(tiles, before);
    assert Reach(tiles, {state.start}, n) == Step(tiles, before);
    assert Reach(tiles, {state.start}, n + 1) == Step(tiles, Step(tiles, before));
  }

  /** Stepping from plots only, every position reached is reached again
    * two steps later, by stepping back to where it came from and forward
    * again. */
  lemma StepReturns(tiles: Grid<Tile>, before: set<(nat, nat)>)
    requires tiles.Valid()
    requires forall p | p in before :: tiles.InBounds(p.0, p.1) && tiles.At(p) == Plot
    ensures Step(tiles, before) <= Step(tiles, Step(tiles, Step(tiles, before)))
  {
    var once := Step(tiles, before);
    var twice := Step(tiles, once);
    forall q | q in once
      ensures q in Step(tiles, twice)
    {
      StepMeaning(tiles, before, q);
      var p :| p in before && q in PlotNeighbours(tiles, p);
      PlotNeighboursMeaning(tiles, p, q);
      PlotNeighboursMeaning(tiles, q, p);
      StepMeaning(tiles, once, p);
      StepMeaning(tiles, twice, q);
    }
  }

  /** `perform_processing`: part one's answer is the walk's count. */
  method PerformProcessing(state: LoadedState) returns (r: Result<nat>)
    requires state.Valid()
    ensures r == Ok(|Reach(state.tiles, {state.start}, state.totalSteps)|)
  {
    var count := PerformWalk(state);
    r := Ok(count);
  }

  // ---------------------------------------------------------------------
  // Part two: the garden repeated in every direction

  /** Rust's `%` on signed integers: the remainder takes the sign of the
    * dividend. */
  function TruncatedRemainder(a: int, n: int): (r: int)
    requires n > 0
    ensures -n < r < n
    ensures a >= 0 ==> r >= 0
    ensures a < 0 ==> r <= 0
  {
    if a >= 0 then a % n else -((-a) % n)
  }

  /** One axis of `get_position_in_bounds`: a negative remainder has the
    * side added to it, which makes it the Euclidean remainder. */
  function Wrap(a: int, side: int): (r: nat)
    requires side > 0
    ensures r < side && r == a % side
  {
    NegativeRemainder(a, side);
    var x := TruncatedRemainder(a, side);
    if x < 0 then side + x else x
  }

  /** The truncated remainder of a negative dividend, moved up by the side
    * when it is below zero, is the Euclidean remainder. */
  lemma NegativeRemainder(a: int, side: int)
    requires side > 0
    ensures var x := TruncatedRemainder(a, side);
            (if x < 0 then side + x else x) == a % side
  {
    if a < 0 {
      var q := (-a) / side;
      var m := (-a) % side;
      assert -a == side * q + m;
      if m == 0 {
        DivModUnique(a, side, -q, 0);
      } else {
        DivModUnique(a, side, -q - 1, side - m);
      }
    }
  }

  /** A whole side added to the input wraps to the same place. */
  lemma WrapRepeats(a: int, side: int)
    requires side > 0
    ensures Wrap(a + side, side) == Wrap(a, side)
  {
    var q := a / side;
    assert a == side * q + a % side;
    DivModUnique(a + side, side, q + 1, a % side);
  }

  /** A coordinate already inside the side is its own wrap. */
  lemma WrapInside(a: int, side: int)
    requires 0 <= a < side
    ensures Wrap(a, side) == a
  {
    DivModUnique(a, side, 0, a);
  }

  /** `get_position_in_bounds`: the cell of the original garden a
    * coordinate of the repeated garden corresponds to. */
  function PositionInBounds(sides: (nat, nat), x: int, y: int): (r: (nat, nat))
    requires sides.0 > 0 && sides.1 > 0
    ensures r.0 < sides.0 && r.1 < sides.1
    ensures r.0 == x % sides.0 && r.1 == y % sides.1
  {
    (Wrap(x, sides.0), Wrap(y, sides.1))
  }

  /** The cases of the source's unit test on a garden of side 3. */
  lemma PositionInBoundsExamples()
    ensures PositionInBounds((3, 3), 0, 0) == (0, 0)
    ensures PositionInBounds((3, 3), 2, 2) == (2, 2)
    ensures PositionInBounds((3, 3), 3, 3) == (0, 0)
    ensures PositionInBounds((3, 3), 4, 4) == (1, 1)
    ensures PositionInBounds((3, 3), 6, 6) == (0, 0)
    ensures PositionInBounds((3, 3), -1, -1) == (2, 2)
    ensures PositionInBounds((3, 3), -2, -2) == (1, 1)
    ensures PositionInBounds((3, 3), -3, -3) == (0, 0)
    ensures PositionInBounds((3, 3), -4, -4) == (2, 2)
  {
  }

  /** The tile at a coordinate of the repeated garden. */
  function TileAt(tiles: Grid<Tile>, q: Coord): Tile
    requires tiles.Valid() && tiles.width > 0 && tiles.height > 0
  {
    tiles.At(PositionInBounds((tiles.width, tiles.height), q.0, q.1))
  }

  /** The repeated garden repeats: moving a whole garden width or height
    * lands on the same tile. */
  lemma TileAtRepeats(tiles: Grid<Tile>, q: Coord)
    requires tiles.Valid() && tiles.width > 0 && tiles.height > 0
    ensures TileAt(tiles, (q.0 + tiles.width, q.1)) == TileAt(tiles, q)
    ensures TileAt(tiles, (q.0, q.1 + tiles.height)) == TileAt(tiles, q)
  {
    WrapRepeats(q.0, tiles.width);
    WrapRepeats(q.1, tiles.height);
  }

  /** Inside the original garden the repeated garden is the garden itself. */
  lemma TileAtInside(tiles: Grid<Tile>, q: Coord)
    requires tiles.Valid() && tiles.InBounds(q.0, q.1)
    ensures TileAt(tiles, q) == tiles.At(q)
  {
    WrapInside(q.0, tiles.width);
    WrapInside(q.1, tiles.height);
  }

  /** `try_make_step`: the candidate is added, as it is and not wrapped,
    * when the tile it corresponds to in the original garden is a plot. */
  method TryMakeStep(tiles: Grid<Tile>, next: set<Coord>, x: int, y: int) returns (r: set<Coord>)
    requires tiles.Valid() && tiles.width > 0 && tiles.height > 0
    ensures r == next + KeepPlot(tiles, (x, y))
  {
    var (wx, wy) := PositionInBounds((tiles.width, tiles.height), x, y);
    var tile := tiles.At((wx, wy));
    r := next;
    if tile == Plot {
      r := r + {(x, y)};
    }
  }

  /** North, east, south and west of `p`. */
  function Around(p: Coord): seq<Coord> {
    [(p.0, p.1 - 1), (p.0 + 1, p.1), (p.0, p.1 + 1), (p.0 - 1, p.1)]
  }

  /** One step up, down, left or right apart, on the unbounded plane. */
  predicate Adjacent(a: Coord, b: Coord) {
    (a.0 == b.0 && (a.1 == b.1 + 1 || b.1 == a.1 + 1)) ||
    (a.1 == b.1 && (a.0 == b.0 + 1 || b.0 == a.0 + 1))
  }

  /** The plots of the repeated garden next to `p`. */
  function WrappedNeighbours(tiles: Grid<Tile>, p: Coord): set<Coord>
    requires tiles.Valid() && tiles.width > 0 && tiles.height > 0
  {
    set q | q in Around(p) && TileAt(tiles, q) == Plot
  }

  /** `make_step_2`'s candidates: exactly the cells one step up, down, left
    * or right whose tile in the original garden is a plot. */
  lemma WrappedNeighboursMeaning(tiles: Grid<Tile>, p: Coord, q: Coord)
    requires tiles.Valid() && tiles.width > 0 && tiles.height > 0
    ensures q in WrappedNeighbours(tiles, p) <==> Adjacent(q, p) && TileAt(tiles, q) == Plot
  {
  }

  /** In the original garden the repeated garden's plot neighbours that are
    * inside it are the plot neighbours of part one. */
  lemma NeighboursAgree(tiles: Grid<Tile>, p: (nat, nat), q: (nat, nat))
    requires tiles.Valid() && tiles.InBounds(p.0, p.1) && tiles.InBounds(q.0, q.1)
    ensures q in PlotNeighbours(tiles, p) <==> q in WrappedNeighbours(tiles, p)
  {
    PlotNeighboursMeaning(tiles, p, q);
    WrappedNeighboursMeaning(tiles, p, q);
    TileAtInside(tiles, q);
  }

  /** `q` alone when its tile in the repeated garden is a plot. */
  function KeepPlot(tiles: Grid<Tile>, q: Coord): (r: set<Coord>)
    requires tiles.Valid() && tiles.width > 0 && tiles.height > 0
    ensures q in r <==> TileAt(tiles, q) == Plot
    ensures r <= {q}
  {
    if TileAt(tiles, q) == Plot then {q} else {}
  }

  /** The plot neighbours are the four cells around, each kept when it is a
    * plot. */
  lemma WrappedNeighboursSplit(tiles: Grid<Tile>, x: int, y: int)
    requires tiles.Valid() && tiles.width > 0 && tiles.height > 0
    ensures WrappedNeighbours(tiles, (x, y)) ==
              KeepPlot(tiles, (x, y - 1)) + KeepPlot(tiles, (x + 1, y)) +
              KeepPlot(tiles, (x, y + 1)) + KeepPlot(tiles, (x - 1, y))
  {
    assert Around((x, y)) == [(x, y - 1), (x + 1, y), (x, y + 1), (x - 1, y)];
  }

  /** `make_step_2`: tries the four cells around `position`. */
  method MakeStep2(tiles: Grid<Tile>, position: Coord, next: set<Coord>) returns (r: set<Coord>)
    requires tiles.Valid() && tiles.width > 0 && tiles.height > 0
    ensures r == next + WrappedNeighbours(tiles, position)
  {
    var (x, y) := position;
    r := TryMakeStep(tiles, next, x, y - 1);
    r := TryMakeStep(tiles, r, x + 1, y);
    r := TryMakeStep(tiles, r, x, y + 1);
    r := TryMakeStep(tiles, r, x - 1, y);
    WrappedNeighboursSplit(tiles, x, y);
  }

  /** One step in the repeated garden. */
  function Step2(tiles: Grid<Tile>, current: set<Coord>): set<Coord>
    requires tiles.Valid() && tiles.width > 0 && tiles.height > 0
  {
    set p, q | p in current && q in WrappedNeighbours(tiles, p) :: q
  }

  /** A step holds exactly the plots of the repeated garden next to some
    * position held before. */
  lemma Step2Meaning(tiles: Grid<Tile>, current: set<Coord>, q: Coord)
    requires tiles.Valid() && tiles.width > 0 && tiles.height > 0
    ensures q in Step2(tiles, current) <==> exists p | p in current :: q in WrappedNeighbours(tiles, p)
  {
  }

  /** The positions held in the repeated garden after `n` steps. */
  function Reach2(tiles: Grid<Tile>, start: set<Coord>, n: nat): set<Coord>
    requires tiles.Valid() && tiles.width > 0 && tiles.height > 0
  {
    if n == 0 then start else Step2(tiles, Reach2(tiles, start, n - 1))
  }

  lemma Step2Add(tiles: Grid<Tile>, done: set<Coord>, p: Coord)
    requires tiles.Valid() && tiles.width > 0 && tiles.height > 0
    ensures Step2(tiles, done + {p}) == Step2(tiles, done) + WrappedNeighbours(tiles, p)
  {
    forall q: Coord | q in Step2(tiles, done + {p})
      ensures q in Step2(tiles, done) + WrappedNeighbours(tiles, p)
    {
      var o :| o in done + {p} && q in WrappedNeighbours(tiles, o);
      if o != p {
        assert o in done;
      }
    }
  }

  /** The inner `for_each` of `perform_walk_2`. */
  method StepAll2(tiles: Grid<Tile>, current: set<Coord>) returns (next: set<Coord>)
    requires tiles.Valid() && tiles.width > 0 && tiles.height > 0
    ensures next == Step2(tiles, current)
  {
    next := {};
    var pending := current;
    while pending != {}
      invariant pending <= current
      invariant next == Step2(tiles, current - pending)
      decreases |pending|
    {
      var p :| p in pending;
      Step2Add(tiles, current - pending, p);
      next := MakeStep2(tiles, p, next);
      assert current - (pending - {p}) == (current - pending) + {p};
      pending := pending - {p};
    }
    assert current - pending == current;
  }

  /** `perform_walk_2`: the number of positions held after each of the
    * first `totalSteps` steps in the repeated garden. */
  method PerformWalk2(state: LoadedState) returns (lengths: seq<int>)
    requires state.Valid()
    ensures |lengths| == state.totalSteps
    ensures forall i | 0 <= i < |lengths| :: lengths[i] == |Reach2(state.tiles, {state.start}, i + 1)|
  {
    lengths := [];
    var current: set<Coord> := {state.start};
    for i := 0 to state.totalSteps
      invariant current == Reach2(state.tiles, {state.start}, i)
      invariant |lengths| == i
      invariant forall k | 0 <= k < i :: lengths[k] == |Reach2(state.tiles, {state.start}, k + 1)|
    {
      var next := StepAll2(state.tiles, current);
      current := next;
      lengths := lengths + [|current|];
    }
  }

  /** A step on the plane changes the parity of x + y. */
  lemma AdjacentParity(p: Coord, q: Coord)
    requires Adjacent(q, p)
    ensures Even(q.0 + q.1) != Even(p.0 + p.1)
  {
  }

  /** Every position of `s` has x + y even exactly when `even` holds. */
  ghost predicate ParityLayer2(s: set<Coord>, even: bool) {
    forall q | q in s :: Even(q.0 + q.1) == even
  }

  lemma SameLayer2(s: set<Coord>, a: bool, b: bool)
    requires ParityLayer2(s, a) && a == b
    ensures ParityLayer2(s, b)
  {
  }

  /** A step in the repeated garden flips the parity of every position
    * held. */
  lemma Step2KeepsParity(tiles: Grid<Tile>, current: set<Coord>, even: bool)
    requires tiles.Valid() && tiles.width > 0 && tiles.height > 0 && ParityLayer2(current, even)
    ensures ParityLayer2(Step2(tiles, current), !even)
  {
    forall q | q in Step2(tiles, current)
      ensures Even(q.0 + q.1) == !even
    {
      Step2Meaning(tiles, current, q);
      var p :| p in current && q in WrappedNeighbours(tiles, p);
      WrappedNeighboursMeaning(tiles, p, q);
      AdjacentParity(p, q);
    }
  }

  lemma {:induction false} Reach2ParityLayer(tiles: Grid<Tile>, start: set<Coord>, even: bool, n: nat)
    requires tiles.Valid() && tiles.width > 0 && tiles.height > 0 && ParityLayer2(start, even)
    ensures ParityLayer2(Reach2(tiles, start, n), Alternate(even, n))
    decreases n
  {
    if n > 0 {
      Reach2ParityLayer(tiles, start, even, n - 1);
      Step2KeepsParity(tiles, Reach2(tiles, start, n - 1), Alternate(even, n - 1));
    }
  }

  /** The parity argument of part one holds in the repeated garden too. */
  lemma Reach2Parity(tiles: Grid<Tile>, start: Coord, n: nat)
    requires tiles.Valid() && tiles.width > 0 && tiles.height > 0
    ensures ParityLayer2(Reach2(tiles, {start}, n), Even(start.0 + start.1 + n))
  {
    Reach2ParityLayer(tiles, {start}, Even(start.0 + start.1), n);
    AlternateParity(start.0 + start.1, n);
    SameLayer2(Reach2(tiles, {start}, n), Alternate(Even(start.0 + start.1), n), Even(start.0 + start.1 + n));
  }

  /** `perform_processing_2`: the number of steps to extrapolate to and the
    * counts of the walk. */
  method PerformProcessing2(state: LoadedState) returns (r: Result<(nat, seq<int>)>)
    requires state.Valid()
    ensures r.Ok? && r.value.0 == state.totalToCalculate && |r.value.1| == state.totalSteps
    ensures forall i | 0 <= i < |r.value.1| :: r.value.1[i] == |Reach2(state.tiles, {state.start}, i + 1)|
  {
    var lengths := PerformWalk2(state);
    r := Ok((state.totalToCalculate, lengths));
  }

  // ---------------------------------------------------------------------
  // Extrapolation

  /** `get_differences`: each neighbouring pair's later value minus its
    * earlier one. */
  function GetDifferences(nums: seq<int>): (r: seq<int>)
    ensures |r| == if nums == [] then 0 else |nums| - 1
    ensures forall i | 0 <= i < |r| :: r[i] == nums[i + 1] - nums[i]
  {
    if |nums| < 2 then []
    else
      var front := GetDifferences(nums[..|nums| - 1]);
      front + [nums[|nums| - 1] - nums[|nums| - 2]]
  }

  /** The differences lose nothing but the first value: every value is the
    * first plus the differences before it. */
  lemma {:induction false} DifferencesRebuild(nums: seq<int>, k: nat)
    requires k < |nums|
    ensures nums[k] == nums[0] + Sum(GetDifferences(nums)[..k])
  {
    if k > 0 {
      var d := GetDifferences(nums);
      DifferencesRebuild(nums, k - 1);
      assert d[..k][..k - 1] == d[..k - 1];
    }
  }

  /** How many earlier windows the repeat must match (`NUM_REPEAT_CHECKS`). */
  const NumRepeatChecks: nat := 1

  /** The `k`-th window of `c` differences counted back from the end of
    * `second`: the value at each of its indices minus the one `c` before. */
  function Window(second: seq<int>, c: nat, k: nat): (r: seq<int>)
    requires k >= 1 && (k + 1) * c <= |second|
    ensures |r| == c
  {
    var end := |second| - 1;
    assert (k + 1) * c == k * c + c;
    seq(c, j requires 0 <= j < c => second[end - k * c + 1 + j] - second[end - (k + 1) * c + 1 + j])
  }

  /** `calculate_repeat_size` from candidate `c` on: the first candidate
    * whose last window of differences equals the window before it; an
    * error (the source's unsigned underflow) once that earlier window
    * would start before the first value. */
  function RepeatSizeFrom(second: seq<int>, c: nat): (r: Result<(nat, seq<int>)>)
    requires c >= 1
    decreases |second| + 1 - c
  {
    if (NumRepeatChecks + 2) * c > |second| then Err(WindowUnderflow)
    else if Window(second, c, NumRepeatChecks + 1) == Window(second, c, 1) then Ok((c, Window(second, c, 1)))
    else RepeatSizeFrom(second, c + 1)
  }

  /** A repeat of size `c`: its last window of differences equals the
    * window before it. */
  predicate Repeats(second: seq<int>, c: nat)
    requires (NumRepeatChecks + 2) * c <= |second|
  {
    Window(second, c, NumRepeatChecks + 1) == Window(second, c, 1)
  }

  /** `calculate_repeat_size`: an error for an empty sequence (the source's
    * `len() - 1` underflows). */
  function RepeatSize(second: seq<int>): (r: Result<(nat, seq<int>)>) {
    if second == [] then Err("No differences") else RepeatSizeFrom(second, 1)
  }

  /** The search finds the least repeat size that fits, with its window,
    * and fails exactly when no size fits. */
  lemma {:induction false} RepeatSizeFromLeast(second: seq<int>, c: nat)
    requires c >= 1
    ensures var r := RepeatSizeFrom(second, c);
            (r.Ok? ==> r.value.0 >= c && (NumRepeatChecks + 2) * r.value.0 <= |second| &&
                       Repeats(second, r.value.0) && r.value.1 == Window(second, r.value.0, 1) &&
                       forall d | c <= d < r.value.0 :: !Repeats(second, d)) &&
            (r.Err? ==> forall d | c <= d && (NumRepeatChecks + 2) * d <= |second| :: !Repeats(second, d))
    decreases |second| + 1 - c
  {
    if (NumRepeatChecks + 2) * c > |second| {
    } else if !Repeats(second, c) {
      RepeatSizeFromLeast(second, c + 1);
    }
  }

  lemma RepeatSizeLeast(second: seq<int>)
    ensures var r := RepeatSize(second);
            (r.Ok? ==> r.value.0 >= 1 && (NumRepeatChecks + 2) * r.value.0 <= |second| &&
                       Repeats(second, r.value.0) && r.value.1 == Window(second, r.value.0, 1) &&
                       forall d | 1 <= d < r.value.0 :: !Repeats(second, d)) &&
            (r.Err? ==> forall d | 1 <= d && (NumRepeatChecks + 2) * d <= |second| :: !Repeats(second, d))
  {
    if second != [] {
      RepeatSizeFromLeast(second, 1);
    }
  }

  /** One window of `calculate_repeat_size` as its loop builds it: for
    * `i` below `c`, the value `m * c + i` before the end minus the one `c`
    * before that, each pushed at the front; an error (the source's unsigned
    * underflow) when an index would drop below zero. */
  method DifferencesBack(second: seq<int>, c: nat, m: nat) returns (r: Result<seq<int>>)
    requires second != [] && c >= 1
    ensures r.Ok? <==> (m + 2) * c <= |second|
    ensures r.Ok? ==> r.value == Window(second, c, m + 1)
  {
    var end := |second| - 1;
    var mc := m * c;
    assert (m + 1) * c == mc + c && (m + 2) * c == mc + 2 * c;
    var window: seq<int> := [];
    for i := 0 to c
      invariant |window| == i
      invariant i > 0 ==> mc + c + i - 1 <= end
      invariant forall j | 0 <= j < i ::
                  window[j] == second[end - mc - i + 1 + j] - second[end - mc - c - i + 1 + j]
    {
      if mc + i > end || mc + c + i > end {
        return Err(WindowUnderflow);
      }
      var later := end - mc - i;
      var previous := end - mc - c - i;
      window := [second[later] - second[previous]] + window;
    }
    r := Ok(window);
  }

  const WindowUnderflow := "Repeat window starts before the first value"

  /** `calculate_repeat_size`: tries sizes 1, 2, ... until the window of
    * the last `c` differences equals the `NumRepeatChecks` windows before
    * it (the check loop runs once, as `NUM_REPEAT_CHECKS` is 1). */
  method CalculateRepeatSize(second: seq<int>) returns (r: Result<(nat, seq<int>)>)
    ensures r == RepeatSize(second)
  {
    if second == [] {
      return Err("No differences");
    }
    var c: nat := 0;
    while true
      invariant RepeatSizeFrom(second, c + 1) == RepeatSize(second)
      decreases |second| + 1 - c
    {
      c := c + 1;
      var outcome := TrySize(second, c);
      if outcome.Some? {
        return outcome.value;
      }
    }
  }

  /** One round of `calculate_repeat_size`'s loop: the answer when size
    * `c` settles the search (it repeats, or a window underflows), nothing
    * when the search goes on with `c + 1`. */
  method TrySize(second: seq<int>, c: nat) returns (r: Option<Result<(nat, seq<int>)>>)
    requires second != [] && c >= 1
    ensures r.Some? ==> r.value == RepeatSizeFrom(second, c)
    ensures r.None? ==> c < |second| && RepeatSizeFrom(second, c + 1) == RepeatSizeFrom(second, c)
  {
    var first := DifferencesBack(second, c, 0);
    if first.Err? {
      return Some(Err(WindowUnderflow));
    }
    var check := DifferencesBack(second, c, NumRepeatChecks);
    if check.Err? {
      return Some(Err(WindowUnderflow));
    }
    if check.value == first.value {
      return Some(Ok((c, first.value)));
    }
    r := None;
  }

  /** A difference of the second order and how it grows each repeat. */
  datatype RepeatInfo = RepeatInfo(startDiff: int, diff: int)

  /** `create_repeat_infos`: the two sequences paired from their ends, as
    * many pairs as the shorter holds. */
  function CreateRepeatInfos(second: seq<int>, diffs: seq<int>): (r: seq<RepeatInfo>)
    ensures |r| == if |second| < |diffs| then |second| else |diffs|
    ensures forall i | 0 <= i < |r| ::
              r[i] == RepeatInfo(second[|second| - |r| + i], diffs[|diffs| - |r| + i])
  {
    if second == [] || diffs == [] then []
    else
      CreateRepeatInfos(second[..|second| - 1], diffs[..|diffs| - 1]) +
      [RepeatInfo(second[|second| - 1], diffs[|diffs| - 1])]
  }

  /** The total and the difference after `steps` steps of the
    * extrapolation loop of `calc_result_2_internal`: step `i` adds to the
    * difference the repeat's start difference plus its growth times the
    * number of the repeat, then adds the difference to the total. */
  function Extended(total: int, diff: int, infos: seq<RepeatInfo>, size: nat, steps: nat): (r: (int, int))
    requires 1 <= size <= |infos|
  {
    if steps == 0 then (total, diff)
    else
      var (t, d) := Extended(total, diff, infos, size, steps - 1);
      var i := steps - 1;
      var d' := d + infos[i % size].startDiff + infos[i % size].diff * (i / size + 1);
      (t + d', d')
  }

  /** One more step of the extrapolation. */
  lemma ExtendedNext(total: int, diff: int, infos: seq<RepeatInfo>, size: nat, i: nat, t: int, d: int)
    requires 1 <= size <= |infos| && (t, d) == Extended(total, diff, infos, size, i)
    ensures var d' := d + infos[i % size].startDiff + infos[i % size].diff * (i / size + 1);
            Extended(total, diff, infos, size, i + 1) == (t + d', d')
  {
  }

  /** `isize as usize`: the two's complement bit pattern read unsigned. */
  function AsUsize(v: int): (r: nat)
    ensures r < 0x1_0000_0000_0000_0000
    ensures 0 <= v < 0x1_0000_0000_0000_0000 ==> r == v
  {
    v % 0x1_0000_0000_0000_0000
  }

  /** The extrapolation continues the pattern it found: the change of the
    * difference in step `i + size` exceeds the change in step `i` by the
    * growth of the repeat position `i` falls on. */
  lemma ExtendedContinuesRepeat(total: int, diff: int, infos: seq<RepeatInfo>, size: nat, i: nat)
    requires 1 <= size <= |infos|
    ensures Extended(total, diff, infos, size, i + size + 1).1 - Extended(total, diff, infos, size, i + size).1 ==
            Extended(total, diff, infos, size, i + 1).1 - Extended(total, diff, infos, size, i).1 + infos[i % size].diff
  {
    var q := i / size;
    var m := i % size;
    assert i == size * q + m;
    DivModUnique(i + size, size, q + 1, m);
    var x := infos[m].diff;
    assert x * (q + 1 + 1) == x * (q + 1) + x;
  }

  /** A repeat found fits: its size is at least one and its windows lie
    * inside the differences. */
  lemma RepeatSizeBounds(second: seq<int>)
    ensures RepeatSize(second).Ok? ==>
              second != [] && 1 <= RepeatSize(second).value.0 &&
              (NumRepeatChecks + 2) * RepeatSize(second).value.0 <= |second| &&
              |RepeatSize(second).value.1| == RepeatSize(second).value.0
  {
    RepeatSizeLeast(second);
  }

  /** What `calc_result_2_internal` computes: the first and second order
    * differences of the counts, the repeat found in the second, then
    * `numRequired - |values|` steps of extrapolation from the last count
    * and the last difference. It fails where the source panics: no repeat
    * found, or fewer values wanted than known. */
  function Extrapolation(values: seq<int>, numRequired: nat): (r: Result<nat>)
    ensures r.Ok? <==> RepeatSize(GetDifferences(GetDifferences(values))).Ok? && |values| <= numRequired
  {
    var first := GetDifferences(values);
    var second := GetDifferences(first);
    RepeatSizeBounds(second);
    match RepeatSize(second)
    case Err(e) => Err(e)
    case Ok((size, diffs)) =>
      if numRequired < |values| then Err("Fewer values required than known")
      else
        var infos := CreateRepeatInfos(second, diffs);
        Ok(AsUsize(Extended(values[|values| - 1], first[|first| - 1], infos, size, numRequired - |values|).0))
  }

  /** `calc_result_2_internal`. */
  method CalcResult2Internal(values: seq<int>, numRequired: nat) returns (r: Result<nat>)
    ensures r == Extrapolation(values, numRequired)
  {
    var first := GetDifferences(values);
    var second := GetDifferences(first);
    var repeat := CalculateRepeatSize(second);
    if repeat.Err? {
      return Err(repeat.error);
    }
    RepeatSizeBounds(second);
    var (size, diffs) := repeat.value;
    var infos := CreateRepeatInfos(second, diffs);
    if numRequired < |values| {
      return Err("Fewer values required than known");
    }
    var total, _ := Extend(values[|values| - 1], first[|first| - 1], infos, size, numRequired - |values|);
    r := Ok(AsUsize(total));
  }

  /** The extrapolation loop of `calc_result_2_internal`. */
  method Extend(total0: int, diff0: int, infos: seq<RepeatInfo>, size: nat, steps: nat) returns (total: int, diff: int)
    requires 1 <= size <= |infos|
    ensures (total, diff) == Extended(total0, diff0, infos, size, steps)
  {
    total, diff := total0, diff0;
    for i := 0 to steps
      invariant (total, diff) == Extended(total0, diff0, infos, size, i)
    {
      var multiplier := i / size + 1;
      var info := infos[i % size];
      ExtendedNext(total0, diff0, infos, size, i, total, diff);
      diff := diff + info.startDiff + info.diff * multiplier;
      total := total + diff;
    }
  }

  /** `calc_result_2`: extrapolate the walk's counts to the number of steps
    * asked for. */
  method CalcResult2(state: (nat, seq<int>)) returns (r: Result<nat>)
    ensures r == Extrapolation(state.1, state.0)
  {
    r := CalcResult2Internal(state.1, state.0);
  }
}
