// Day 18: the lava lagoon. A dig plan is a list of moves (a direction, a
// number of metres and a colour code); the trench they dig encloses a
// lagoon. Part 1 digs the trench into a grid and flood-fills its inside
// from a given tile; part 2 decodes the real moves from the colour codes
// and measures the polygon with the shoelace formula.
module Day18 {
  import opened Wrappers
  import opened Numbers
  import opened Processor

  datatype Direction = Up | Down | Left | Right

  datatype DigInstruction = DigInstruction(direction: Direction, steps: nat, hexCode: string)

  type Coord = (nat, nat)

  /** The tile the fill starts from and the instructions read so far. */
  type InitialState = (Coord, seq<DigInstruction>)

  datatype Tile = Space | Trench(hexCode: string)

  const Delimiters: set<char> := {' ', '(', ')'}

  // ---------------------------------------------------------------------
  // Reading the plan

  function DirectionOfLetter(c: char): Option<Direction> {
    match c
    case 'U' => Some(Up)
    case 'D' => Some(Down)
    case 'L' => Some(Left)
    case 'R' => Some(Right)
    case _ => None
  }

  /** The letter a part 1 line starts with; it reads back as its direction. */
  function Letter(d: Direction): (c: char)
    ensures DirectionOfLetter(c) == Some(d)
  {
    match d
    case Up => 'U'
    case Down => 'D'
    case Left => 'L'
    case Right => 'R'
  }

  /** `parse_line_1`: an empty line changes nothing; otherwise a direction
    * letter, a number of steps and the colour code are appended. A letter
    * other than U, D, L, R, a missing or malformed number and a missing
    * code are errors. */
  function ParseLine1(state: InitialState, line: string): (r: Result<InitialState>)
    ensures line == [] ==> r == Ok(state)
    ensures line != [] && DirectionOfLetter(line[0]).None? ==> r.Err?
    ensures line != [] ==> (r.Ok? <==> DirectionOfLetter(line[0]).Some?
                                       && ReadNext(line[1..], Delimiters, ParseUsize).Ok?
                                       && NextWord(ReadNext(line[1..], Delimiters, ParseUsize).value.rest, Delimiters).Some?)
    ensures r.Ok? ==> |r.value.1| == |state.1| + (if line == [] then 0 else 1)
                      && r.value.0 == state.0 && r.value.1[..|state.1|] == state.1
    ensures r.Ok? && line != [] ==> Some(r.value.1[|state.1|].direction) == DirectionOfLetter(line[0])
  {
    if line == [] then Ok(state)
    else
      match DirectionOfLetter(line[0])
      case None => Err("Unrecognised direction")
      case Some(direction) =>
        var steps :- ReadNext(line[1..], Delimiters, ParseUsize);
        match NextWord(steps.rest, Delimiters)
        case None => Err("Couldn't read the hex code")
        case Some(code) => Ok((state.0, state.1 + [DigInstruction(direction, steps.value, code.text)]))
  }

  /** A part 1 line as the puzzle writes it: `R 6 (#70c710)`. */
  function ShowInstruction(i: DigInstruction): string {
    [Letter(i.direction)] + " " + ShowNat(i.steps) + " (" + i.hexCode + ")"
  }

  lemma ShowNatHasNoDelimiter(n: nat)
    ensures NoneIn(ShowNat(n), Delimiters)
  {
    var s := ShowNat(n);
    forall i | 0 <= i < |s| ensures s[i] !in Delimiters {
      assert IsDigit(s[i]);
    }
  }

  /** The words of a written instruction after its letter: the number,
    * then the colour code. */
  lemma ShownWords(i: DigInstruction)
    requires i.steps <= USIZE_MAX && |i.hexCode| > 0 && NoneIn(i.hexCode, Delimiters)
    ensures ReadNext(ShowInstruction(i)[1..], Delimiters, ParseUsize)
            == Ok(Token(i.steps, Some(' '), "(" + i.hexCode + ")"))
    ensures NextWord("(" + i.hexCode + ")", Delimiters) == Some(Word(i.hexCode, Some(')'), []))
  {
    var number := ShowNat(i.steps);
    var tail := "(" + i.hexCode + ")";
    assert ShowInstruction(i)[1..] == " " + (number + [' '] + tail);
    ShowNatHasNoDelimiter(i.steps);
    ParseUnsignedShowNat(i.steps, USIZE_MAX);
    NextWordSkipsDelimiters(" ", number + [' '] + tail, Delimiters);
    NextWordSplits(number, ' ', tail, Delimiters);
    assert tail == "(" + (i.hexCode + [')'] + []);
    NextWordSkipsDelimiters("(", i.hexCode + [')'] + [], Delimiters);
    NextWordSplits(i.hexCode, ')', [], Delimiters);
  }

  /** Reading a written instruction appends exactly that instruction. */
  lemma ParseShownInstruction(state: InitialState, i: DigInstruction)
    requires i.steps <= USIZE_MAX && |i.hexCode| > 0 && NoneIn(i.hexCode, Delimiters)
    ensures ParseLine1(state, ShowInstruction(i)) == Ok((state.0, state.1 + [i]))
  {
    ShownWords(i);
  }

  /** `substring(start, end)` counts characters and clamps both ends to
    * the string: empty when `end <= start`. */
  function Substring(s: string, start: nat, end: nat): (r: string)
    ensures start <= end <= |s| ==> |r| == end - start
    ensures |s| <= start ==> r == []
    ensures forall k | 0 <= k < |r| :: start + k < |s| && r[k] == s[start + k]
  {
    if end <= start || |s| <= start then []
    else if end <= |s| then s[start..end]
    else s[start..]
  }

  function DirectionOfCode(code: string): Option<Direction> {
    if code == "0" then Some(Right)
    else if code == "1" then Some(Down)
    else if code == "2" then Some(Left)
    else if code == "3" then Some(Up)
    else None
  }

  /** The last character of a colour code; it reads back as its direction. */
  function CodeOf(d: Direction): (code: string)
    ensures |code| == 1 && IsDigit(code[0])
    ensures DirectionOfCode(code) == Some(d)
  {
    match d
    case Right => "0"
    case Down => "1"
    case Left => "2"
    case Up => "3"
  }

  /** `parse_line_2`: the letter and the number are read and ignored; the
    * colour code's characters 1 to 5 are the steps in hexadecimal and its
    * character 6 the direction. A missing or malformed number, a missing
    * code, bad hexadecimal and an unknown direction digit are errors. */
  function ParseLine2(state: InitialState, line: string): (r: Result<InitialState>)
    ensures line == [] ==> r == Ok(state)
    ensures r.Ok? ==> |r.value.1| == |state.1| + (if line == [] then 0 else 1)
                      && r.value.0 == state.0 && r.value.1[..|state.1|] == state.1
    ensures r.Ok? && line != [] ==>
              var i := r.value.1[|state.1|];
              Some(i.steps) == ParseHexUsize(Substring(i.hexCode, 1, 6))
              && Some(i.direction) == DirectionOfCode(Substring(i.hexCode, 6, 7))
    ensures line != [] && ReadNext(line[1..], Delimiters, ParseUsize).Err? ==> r.Err?
  {
    if line == [] then Ok(state)
    else
      var ignored :- ReadNext(line[1..], Delimiters, ParseUsize);
      match NextWord(ignored.rest, Delimiters)
      case None => Err("Failed to read encoded instruction")
      case Some(encoded) =>
        match ParseHexUsize(Substring(encoded.text, 1, 6))
        case None => Err("invalid digit found in string")
        case Some(steps) =>
          match DirectionOfCode(Substring(encoded.text, 6, 7))
          case None => Err("Unrecognised direction")
          case Some(direction) => Ok((state.0, state.1 + [DigInstruction(direction, steps, encoded.text)]))
  }

  function HexDigitChar(d: nat): (c: char)
    requires d < 16
    ensures IsHexDigit(c) && HexDigitValue(c) == d
  {
    if d < 10 then DigitChar(d) else ('a' as int + d - 10) as char
  }

  /** The last `width` hexadecimal digits of `n`, lower case. */
  function ShowHex(n: nat, width: nat): (r: string)
    ensures |r| == width && AllHexDigits(r)
  {
    if width == 0 then []
    else
      var r := ShowHex(n / 16, width - 1) + [HexDigitChar(n % 16)];
      assert forall i | 0 <= i < width - 1 :: r[i] == ShowHex(n / 16, width - 1)[i];
      r
  }

  /** Hexadecimal printing is undone by hexadecimal reading. */
  lemma {:induction false} HexValueShowHex(n: nat, width: nat)
    requires n < Pow(16, width)
    ensures HexValue(ShowHex(n, width)) == n
  {
    if width > 0 {
      var s := ShowHex(n, width);
      assert s[..width - 1] == ShowHex(n / 16, width - 1);
      HexValueShowHex(n / 16, width - 1);
    }
  }

  /** The colour code that encodes a move: `#`, five hexadecimal digits of
    * the steps, then the direction digit. */
  function Encode(d: Direction, steps: nat): (code: string)
    ensures |code| == 7
  {
    "#" + ShowHex(steps, 5) + CodeOf(d)
  }

  lemma EncodeHasNoDelimiter(d: Direction, steps: nat)
    ensures NoneIn(Encode(d, steps), Delimiters)
  {
    var code := Encode(d, steps);
    forall k | 0 <= k < 7 ensures code[k] !in Delimiters {
      if 1 <= k < 6 {
        assert code[k] == ShowHex(steps, 5)[k - 1];
        assert IsHexDigit(code[k]);
      } else if k == 6 {
        assert code[k] == CodeOf(d)[0];
      }
    }
  }

  /** The colour code of a move decodes to that move. */
  lemma DecodeEncoded(d: Direction, steps: nat)
    requires steps < Pow(16, 5)
    ensures ParseHexUsize(Substring(Encode(d, steps), 1, 6)) == Some(steps)
    ensures DirectionOfCode(Substring(Encode(d, steps), 6, 7)) == Some(d)
  {
    var code := Encode(d, steps);
    assert Substring(code, 1, 6) == ShowHex(steps, 5);
    assert Substring(code, 6, 7) == CodeOf(d);
    HexValueShowHex(steps, 5);
    assert ShowHex(steps, 5)[0] != '+';
    assert Pow(16, 5) <= USIZE_MAX;
  }

  /** A part 2 line whose colour code encodes a move reads back as that
    * move, keeping the code; the letter and number in front play no part. */
  lemma ParseEncodedInstruction(state: InitialState, letter: Direction, ignored: nat, d: Direction, steps: nat)
    requires ignored <= USIZE_MAX && steps < Pow(16, 5)
    ensures ParseLine2(state, ShowInstruction(DigInstruction(letter, ignored, Encode(d, steps))))
            == Ok((state.0, state.1 + [DigInstruction(d, steps, Encode(d, steps))]))
  {
    EncodeHasNoDelimiter(d, steps);
    ShownWords(DigInstruction(letter, ignored, Encode(d, steps)));
    DecodeEncoded(d, steps);
  }

  // ---------------------------------------------------------------------
  // The path of the digger

  /** `get_deltas`: one metre in the direction, y growing downwards. */
  function Delta(d: Direction): (r: (int, int))
    ensures (r.0 == 0) != (r.1 == 0) && -1 <= r.0 <= 1 && -1 <= r.1 <= 1
    ensures r.0 == 0 <==> d == Up || d == Down
    ensures r.0 + r.1 > 0 <==> d == Down || d == Right
  {
    match d
    case Up => (0, -1)
    case Down => (0, 1)
    case Left => (-1, 0)
    case Right => (1, 0)
  }

  /** Where `steps` metres in direction `d` from `p` lead. */
  function Shift(p: (int, int), d: Direction, steps: int): (int, int) {
    match d
    case Up => (p.0, p.1 - steps)
    case Down => (p.0, p.1 + steps)
    case Left => (p.0 - steps, p.1)
    case Right => (p.0 + steps, p.1)
  }

  /** A move of one more metre ends one delta further on. */
  lemma ShiftNext(p: (int, int), d: Direction, steps: int)
    ensures Shift(p, d, steps + 1).0 == Shift(p, d, steps).0 + Delta(d).0
    ensures Shift(p, d, steps + 1).1 == Shift(p, d, steps).1 + Delta(d).1
  {
  }

  /** The source's `position + delta * steps` is the same move. */
  lemma ShiftIsScaledDelta(p: (int, int), d: Direction, steps: int)
    ensures Shift(p, d, steps) == (p.0 + Delta(d).0 * steps, p.1 + Delta(d).1 * steps)
  {
  }

  /** The corners of the dug path, from the origin: one more than there
    * are instructions, each the previous one moved by its instruction
    * (the fold of `finalise_state_2`, and the running position of
    * `calculate_tile_area_bounds`). */
  function Vertices(instructions: seq<DigInstruction>): (r: seq<(int, int)>)
    ensures |r| == |instructions| + 1 && r[0] == (0, 0)
    ensures forall k | 0 <= k < |instructions| ::
              r[k + 1] == Shift(r[k], instructions[k].direction, instructions[k].steps)
  {
    if instructions == [] then [(0, 0)]
    else
      var front := Vertices(instructions[..|instructions| - 1]);
      var last := instructions[|instructions| - 1];
      front + [Shift(front[|front| - 1], last.direction, last.steps)]
  }

  /** The points of part 2: the corners of the polygon the plan traces. */
  datatype LoadedState2 = LoadedState2(instructions: seq<DigInstruction>, points: seq<(int, int)>)

  function FinaliseState2(state: InitialState): LoadedState2 {
    LoadedState2(state.1, Vertices(state.1))
  }

  function Component(p: (int, int), horizontal: bool): int {
    if horizontal then p.0 else p.1
  }

  /** `isize::min` and `isize::max`. */
  function MinOf(a: int, b: int): int {
    if b < a then b else a
  }

  function MaxOf(a: int, b: int): int {
    if b > a then b else a
  }

  /** The least x (or y) among the points, as the running minimum. */
  function Lowest(ps: seq<(int, int)>, horizontal: bool): int
    requires |ps| > 0
  {
    if |ps| == 1 then Component(ps[0], horizontal)
    else
      MinOf(Lowest(ps[..|ps| - 1], horizontal), Component(ps[|ps| - 1], horizontal))
  }

  /** The greatest x (or y) among the points, as the running maximum. */
  function Highest(ps: seq<(int, int)>, horizontal: bool): int
    requires |ps| > 0
  {
    if |ps| == 1 then Component(ps[0], horizontal)
    else
      MaxOf(Highest(ps[..|ps| - 1], horizontal), Component(ps[|ps| - 1], horizontal))
  }

  /** The running minimum is the minimum: no point is below it and some
    * point attains it. */
  lemma {:induction false} LowestIsLeast(ps: seq<(int, int)>, horizontal: bool)
    requires |ps| > 0
    ensures forall j | 0 <= j < |ps| :: Lowest(ps, horizontal) <= Component(ps[j], horizontal)
    ensures exists k | 0 <= k < |ps| :: Component(ps[k], horizontal) == Lowest(ps, horizontal)
  {
    if |ps| > 1 {
      var front := ps[..|ps| - 1];
      LowestIsLeast(front, horizontal);
      var k :| 0 <= k < |front| && Component(front[k], horizontal) == Lowest(front, horizontal);
      assert forall j | 0 <= j < |ps| - 1 :: ps[j] == front[j];
      if Component(ps[|ps| - 1], horizontal) < Lowest(front, horizontal) {
        assert Component(ps[|ps| - 1], horizontal) == Lowest(ps, horizontal);
      } else {
        assert Component(ps[k], horizontal) == Lowest(ps, horizontal);
      }
    } else {
      assert Component(ps[0], horizontal) == Lowest(ps, horizontal);
    }
  }

  /** The running maximum is the maximum. */
  lemma {:induction false} HighestIsGreatest(ps: seq<(int, int)>, horizontal: bool)
    requires |ps| > 0
    ensures forall j | 0 <= j < |ps| :: Component(ps[j], horizontal) <= Highest(ps, horizontal)
    ensures exists k | 0 <= k < |ps| :: Component(ps[k], horizontal) == Highest(ps, horizontal)
  {
    if |ps| > 1 {
      var front := ps[..|ps| - 1];
      HighestIsGreatest(front, horizontal);
      var k :| 0 <= k < |front| && Component(front[k], horizontal) == Highest(front, horizontal);
      assert forall j | 0 <= j < |ps| - 1 :: ps[j] == front[j];
      if Component(ps[|ps| - 1], horizontal) > Highest(front, horizontal) {
        assert Component(ps[|ps| - 1], horizontal) == Highest(ps, horizontal);
      } else {
        assert Component(ps[k], horizontal) == Highest(ps, horizontal);
      }
    } else {
      assert Component(ps[0], horizontal) == Highest(ps, horizontal);
    }
  }

  /** The smallest grid holding every corner, and where the origin lies in
    * it: the start is minus the least corner, the sides run from the least
    * corner to the greatest. */
  function Box(instructions: seq<DigInstruction>): (r: (Coord, (nat, nat)))
  {
    var v := Vertices(instructions);
    LowestIsLeast(v, true);
    LowestIsLeast(v, false);
    HighestIsGreatest(v, true);
    HighestIsGreatest(v, false);
    assert Component(v[0], true) == 0 && Component(v[0], false) == 0;
    var minX, minY := Lowest(v, true), Lowest(v, false);
    ((-minX, -minY), (Highest(v, true) - minX + 1, Highest(v, false) - minY + 1))
  }

  /** Every corner lies in the box once moved by the start, and the box is
    * the smallest that holds them: each of its edges touches a corner. */
  lemma BoxIsTight(instructions: seq<DigInstruction>)
    ensures var (start, sides) := Box(instructions);
            var v := Vertices(instructions);
            && (forall k | 0 <= k < |v| ::
                  0 <= v[k].0 + start.0 < sides.0 && 0 <= v[k].1 + start.1 < sides.1)
            && (exists k | 0 <= k < |v| :: v[k].0 + start.0 == 0)
            && (exists k | 0 <= k < |v| :: v[k].0 + start.0 == sides.0 - 1)
            && (exists k | 0 <= k < |v| :: v[k].1 + start.1 == 0)
            && (exists k | 0 <= k < |v| :: v[k].1 + start.1 == sides.1 - 1)
  {
    var v := Vertices(instructions);
    LowestIsLeast(v, true);
    HighestIsGreatest(v, true);
    LowestIsLeast(v, false);
    HighestIsGreatest(v, false);
    forall k | 0 <= k < |v|
      ensures Lowest(v, true) <= v[k].0 <= Highest(v, true)
      ensures Lowest(v, false) <= v[k].1 <= Highest(v, false)
    {
      assert Component(v[k], true) == v[k].0 && Component(v[k], false) == v[k].1;
    }
  }

  /** What the bounds loop knows after `i` instructions: the position is
    * corner `i` and the extremes are those of corners 0 to `i`. */
  ghost predicate Tracked(v: seq<(int, int)>, i: nat, x: int, y: int, minX: int, maxX: int, minY: int, maxY: int)
    requires i < |v|
  {
    && (x, y) == v[i]
    && minX == Lowest(v[..i + 1], true) && maxX == Highest(v[..i + 1], true)
    && minY == Lowest(v[..i + 1], false) && maxY == Highest(v[..i + 1], false)
  }

  /** One more instruction moves the position to the next corner, and the
    * extremes only where that corner lies beyond them. */
  lemma {:induction false} TrackedStep(instructions: seq<DigInstruction>, i: nat, x: int, y: int, minX: int, maxX: int, minY: int, maxY: int)
    requires i < |instructions|
    requires Tracked(Vertices(instructions), i, x, y, minX, maxX, minY, maxY)
    ensures var p := Shift((x, y), instructions[i].direction, instructions[i].steps);
            Tracked(Vertices(instructions), i + 1, p.0, p.1, MinOf(minX, p.0), MaxOf(maxX, p.0), MinOf(minY, p.1), MaxOf(maxY, p.1))
  {
    var v := Vertices(instructions);
    assert v[..i + 2][..i + 1] == v[..i + 1];
    assert v[i + 1] == v[..i + 2][i + 1];
  }

  /** `calculate_tile_area_bounds`: the loop tracking the running position
    * and the extremes seen so far, proved to compute the box. */
  method CalculateTileAreaBounds(instructions: seq<DigInstruction>) returns (start: Coord, sides: (nat, nat))
    ensures (start, sides) == Box(instructions)
  {
    ghost var v := Vertices(instructions);
    var x: int, y: int := 0, 0;
    var maxX: int, maxY: int, minX: int, minY: int := 0, 0, 0, 0;
    for i := 0 to |instructions|
      invariant Tracked(v, i, x, y, minX, maxX, minY, maxY)
      invariant minX <= 0 && minY <= 0
    {
      TrackedStep(instructions, i, x, y, minX, maxX, minY, maxY);
      ShiftIsScaledDelta((x, y), instructions[i].direction, instructions[i].steps);
      var (deltaX, deltaY) := Delta(instructions[i].direction);
      x := x + deltaX * instructions[i].steps;
      y := y + deltaY * instructions[i].steps;
      maxX := MaxOf(maxX, x);
      maxY := MaxOf(maxY, y);
      minX := MinOf(minX, x);
      minY := MinOf(minY, y);
    }
    assert v[..|instructions| + 1] == v;
    assert minX == Lowest(v, true) && minY == Lowest(v, false);
    sides := (maxX - minX + 1, maxY - minY + 1);
    start := (-minX, -minY);
  }

  // ---------------------------------------------------------------------
  // Digging the trench (part 1)

  /** The cells a move of `steps` from `from` passes over, `from` itself
    * excluded: a run along one row or one column. */
  predicate OnSegment(p: (int, int), from: (int, int), d: Direction, steps: nat) {
    match d
    case Right => p.1 == from.1 && from.0 < p.0 <= from.0 + steps
    case Left => p.1 == from.1 && from.0 - steps <= p.0 < from.0
    case Down => p.0 == from.0 && from.1 < p.1 <= from.1 + steps
    case Up => p.0 == from.0 && from.1 - steps <= p.1 < from.1
  }

  /** The run is exactly the cells one to `steps` metres along. */
  lemma OnSegmentIsShifts(p: (int, int), from: (int, int), d: Direction, steps: nat)
    ensures OnSegment(p, from, d, steps) <==> exists t | 1 <= t <= steps :: p == Shift(from, d, t)
  {
    if OnSegment(p, from, d, steps) {
      var t := match d
        case Right => p.0 - from.0
        case Left => from.0 - p.0
        case Down => p.1 - from.1
        case Up => from.1 - p.1;
      assert p == Shift(from, d, t);
    }
  }

  /** One more metre adds exactly the next cell to the run. */
  lemma OnSegmentExtend(p: (int, int), from: (int, int), d: Direction, steps: nat)
    ensures OnSegment(p, from, d, steps + 1) <==> OnSegment(p, from, d, steps) || p == Shift(from, d, steps + 1)
  {
  }

  predicate InGrid(w: nat, h: nat, p: (int, int)) {
    0 <= p.0 < w && 0 <= p.1 < h
  }

  /** A run whose first and last cells are on the grid lies on the grid. */
  lemma RunInside(w: nat, h: nat, from: (int, int), d: Direction, steps: nat, t: nat)
    requires 1 <= t <= steps
    requires InGrid(w, h, Shift(from, d, 1)) && InGrid(w, h, Shift(from, d, steps))
    ensures InGrid(w, h, Shift(from, d, t))
  {
  }

  /** `now` is `before` with the cells of the run turned into trench of
    * the colour `hex`, every other cell as it was. */
  ghost predicate DugRun(before: seq<Tile>, now: seq<Tile>, w: nat, h: nat,
                         from: (int, int), d: Direction, steps: nat, hex: string)
  {
    && |before| == Mul(h, w) && |now| == Mul(h, w)
    && forall x: nat, y: nat | x < w && y < h ::
         CellAt(now, w, h, x, y) == if OnSegment((x, y), from, d, steps) then Trench(hex) else CellAt(before, w, h, x, y)
  }

  /** Writing trench into the next cell of the run: one cell's view. */
  lemma DugCellStep(before: seq<Tile>, now: seq<Tile>, w: nat, h: nat,
                    from: (int, int), d: Direction, steps: nat, hex: string, x: nat, y: nat, px: nat, py: nat)
    requires |before| == Mul(h, w) && |now| == Mul(h, w)
    requires (x, y) == Shift(from, d, steps + 1) && x < w && y < h && px < w && py < h
    requires CellAt(now, w, h, px, py)
             == if OnSegment((px, py), from, d, steps) then Trench(hex) else CellAt(before, w, h, px, py)
    ensures RowMajor(x, y, w) < |now|
    ensures CellAt(now[RowMajor(x, y, w) := Trench(hex)], w, h, px, py)
            == if OnSegment((px, py), from, d, steps + 1) then Trench(hex) else CellAt(before, w, h, px, py)
  {
    RowMajorInRange(x, y, w, h);
    RowMajorInRange(px, py, w, h);
    OnSegmentExtend((px, py), from, d, steps);
    if (px, py) != (x, y) {
      RowMajorDistinct(px, py, x, y, w);
    }
  }

  /** Writing trench into the next cell of the run extends the dug run by
    * one metre. */
  lemma {:induction false} DugRunStep(before: seq<Tile>, now: seq<Tile>, w: nat, h: nat,
                                      from: (int, int), d: Direction, steps: nat, hex: string, x: nat, y: nat)
    requires DugRun(before, now, w, h, from, d, steps, hex)
    requires (x, y) == Shift(from, d, steps + 1) && x < w && y < h
    ensures RowMajor(x, y, w) < |now|
    ensures DugRun(before, now[RowMajor(x, y, w) := Trench(hex)], w, h, from, d, steps + 1, hex)
  {
    RowMajorInRange(x, y, w, h);
    forall px: nat, py: nat | px < w && py < h
      ensures CellAt(now[RowMajor(x, y, w) := Trench(hex)], w, h, px, py)
              == if OnSegment((px, py), from, d, steps + 1) then Trench(hex) else CellAt(before, w, h, px, py)
    {
      DugCellStep(before, now, w, h, from, d, steps, hex, x, y, px, py);
    }
  }

  /** Whether the first and the last cell of a run are on the grid, which
    * puts the whole run there. */
  predicate RunFits(w: nat, h: nat, from: (int, int), d: Direction, steps: nat) {
    steps > 0 ==> InGrid(w, h, Shift(from, d, 1)) && InGrid(w, h, Shift(from, d, steps))
  }

  lemma RunFitsShorter(w: nat, h: nat, from: (int, int), d: Direction, steps: nat)
    requires steps > 0 && RunFits(w, h, from, d, steps)
    ensures RunFits(w, h, from, d, steps - 1) && InGrid(w, h, Shift(from, d, steps))
  {
  }

  /** The cells after the first `steps` metres of a run have been dug, one
    * write at a time. */
  function DigCells(cells: seq<Tile>, w: nat, h: nat, from: (int, int), d: Direction, steps: nat, hex: string): (r: seq<Tile>)
    requires |cells| == Mul(h, w) && RunFits(w, h, from, d, steps)
    ensures |r| == |cells|
  {
    if steps == 0 then cells
    else
      RunFitsShorter(w, h, from, d, steps);
      var end := Shift(from, d, steps);
      RowMajorInRange(end.0, end.1, w, h);
      DigCells(cells, w, h, from, d, steps - 1, hex)[RowMajor(end.0, end.1, w) := Trench(hex)]
  }

  /** Digging a run turns exactly its cells into trench of its colour. */
  lemma {:induction false} DigCellsDigsRun(cells: seq<Tile>, w: nat, h: nat, from: (int, int), d: Direction, steps: nat, hex: string)
    requires |cells| == Mul(h, w) && RunFits(w, h, from, d, steps)
    ensures DugRun(cells, DigCells(cells, w, h, from, d, steps, hex), w, h, from, d, steps, hex)
  {
    if steps > 0 {
      RunFitsShorter(w, h, from, d, steps);
      DigCellsDigsRun(cells, w, h, from, d, steps - 1, hex);
      var end := Shift(from, d, steps);
      assert InGrid(w, h, end);
      DugRunStep(cells, DigCells(cells, w, h, from, d, steps - 1, hex), w, h, from, d, steps - 1, hex, end.0, end.1);
    }
  }

  /** `*area.get_mut(x, y).unwrap() = Tile::Trench { hex_code }`: the one
    * cell becomes trench; the source unwraps, so the cell must exist. */
  method WriteTrench(area: Cells<Tile>, x: nat, y: nat, hex: string)
    requires area.Valid() && area.InBounds(x, y)
    modifies area
    ensures area.Valid() && area.width == old(area.width) && area.height == old(area.height)
    ensures RowMajor(x, y, area.width) < |old(area.contents)|
    ensures area.contents == old(area.contents)[RowMajor(x, y, area.width) := Trench(hex)]
  {
    var _ := area.Set(x, y, Trench(hex));
  }

  /** `dig`: the digger moves `steps` metres, turning every cell it enters
    * into trench with the instruction's colour, and ends where the move
    * ends. The source unwraps each cell, so the run must be on the grid. */
  method Dig(area: Cells<Tile>, instruction: DigInstruction, currentX: nat, currentY: nat) returns (end: Coord)
    requires area.Valid()
    requires RunFits(area.width, area.height, (currentX, currentY), instruction.direction, instruction.steps)
    modifies area
    ensures area.Valid() && area.width == old(area.width) && area.height == old(area.height)
    ensures end.0 == Shift((currentX, currentY), instruction.direction, instruction.steps).0
    ensures end.1 == Shift((currentX, currentY), instruction.direction, instruction.steps).1
    ensures area.contents == DigCells(old(area.contents), area.width, area.height,
                                      (currentX, currentY), instruction.direction, instruction.steps, instruction.hexCode)
  {
    ghost var from := (currentX, currentY);
    var x: int, y: int := currentX, currentY;
    var (deltaX, deltaY) := Delta(instruction.direction);
    for i := 0 to instruction.steps
      invariant area.Valid() && area.width == old(area.width) && area.height == old(area.height)
      invariant x == Shift(from, instruction.direction, i).0 && y == Shift(from, instruction.direction, i).1
      invariant RunFits(area.width, area.height, from, instruction.direction, i)
      invariant area.contents == DigCells(old(area.contents), area.width, area.height,
                                          from, instruction.direction, i, instruction.hexCode)
    {
      ShiftNext(from, instruction.direction, i);
      x := x + deltaX;
      y := y + deltaY;
      RunInside(area.width, area.height, from, instruction.direction, instruction.steps, i + 1);
      RunInside(area.width, area.height, from, instruction.direction, instruction.steps, 1);
      WriteTrench(area, x, y, instruction.hexCode);
    }
    if instruction.steps > 0 {
      RunInside(area.width, area.height, from, instruction.direction, instruction.steps, instruction.steps);
    }
    end := (x, y);
  }

  /** Corner `k` of the path placed on the grid, the origin at `start`. */
  function Corner(instructions: seq<DigInstruction>, start: (int, int), k: nat): (int, int)
    requires k <= |instructions|
  {
    var v := Vertices(instructions);
    (start.0 + v[k].0, start.1 + v[k].1)
  }

  lemma CornerZero(instructions: seq<DigInstruction>, start: (int, int))
    ensures Corner(instructions, start, 0) == start
  {
    assert Vertices(instructions)[0] == (0, 0);
  }

  /** Each placed corner is the previous one moved by its instruction. */
  lemma CornerStep(instructions: seq<DigInstruction>, start: (int, int), k: nat)
    requires k < |instructions|
    ensures Corner(instructions, start, k + 1)
            == Shift(Corner(instructions, start, k), instructions[k].direction, instructions[k].steps)
  {
    var v := Vertices(instructions);
    assert v[k + 1] == Shift(v[k], instructions[k].direction, instructions[k].steps);
  }

  /** A run from one cell of the grid to another lies on the grid. */
  lemma RunBetween(w: nat, h: nat, from: (int, int), d: Direction, steps: nat)
    requires InGrid(w, h, from) && InGrid(w, h, Shift(from, d, steps))
    ensures RunFits(w, h, from, d, steps)
  {
  }

  /** The tile at `p` after the first `n` instructions have been dug: the
    * start is trench of the first colour when there is an instruction, and
    * each run repaints its cells with its own colour. */
  function Painted(instructions: seq<DigInstruction>, n: nat, start: (int, int), p: (int, int)): Tile
    requires n <= |instructions|
  {
    if n == 0 then
      if |instructions| > 0 && p == start then Trench(instructions[0].hexCode) else Space
    else
      var i := instructions[n - 1];
      if OnSegment(p, Corner(instructions, start, n - 1), i.direction, i.steps) then Trench(i.hexCode)
      else Painted(instructions, n - 1, start, p)
  }

  /** A tile is trench exactly when it is the start of a non-empty plan or
    * lies on one of the first `n` runs. */
  lemma {:induction false} PaintedIsPath(instructions: seq<DigInstruction>, n: nat, start: (int, int), p: (int, int))
    requires n <= |instructions|
    ensures Painted(instructions, n, start, p).Trench?
            <==> (|instructions| > 0 && p == start)
                 || exists k | 0 <= k < n :: OnSegment(p, Corner(instructions, start, k), instructions[k].direction, instructions[k].steps)
  {
    if n > 0 {
      PaintedIsPath(instructions, n - 1, start, p);
      var k := n - 1;
      if OnSegment(p, Corner(instructions, start, k), instructions[k].direction, instructions[k].steps) {
        assert Painted(instructions, n, start, p).Trench?;
      }
    }
  }

  /** The grid holds the painting after the first `n` instructions. */
  ghost predicate Painting(cells: seq<Tile>, w: nat, h: nat, instructions: seq<DigInstruction>, n: nat, start: (int, int))
    requires n <= |instructions|
  {
    && |cells| == Mul(h, w)
    && forall x: nat, y: nat | x < w && y < h :: CellAt(cells, w, h, x, y) == Painted(instructions, n, start, (x, y))
  }

  /** The blank grid with the start dug is the painting before any run. */
  lemma PaintingStart(cells: seq<Tile>, w: nat, h: nat, instructions: seq<DigInstruction>, start: Coord)
    requires |cells| == Mul(h, w) && start.0 < w && start.1 < h
    requires forall i | 0 <= i < |cells| :: cells[i] == Space
    ensures RowMajor(start.0, start.1, w) < |cells|
    ensures Painting(if |instructions| > 0 then cells[RowMajor(start.0, start.1, w) := Trench(instructions[0].hexCode)] else cells,
                     w, h, instructions, 0, start)
  {
    RowMajorInRange(start.0, start.1, w, h);
    var painted := if |instructions| > 0 then cells[RowMajor(start.0, start.1, w) := Trench(instructions[0].hexCode)] else cells;
    forall x: nat, y: nat | x < w && y < h
      ensures CellAt(painted, w, h, x, y) == Painted(instructions, 0, start, (x, y))
    {
      RowMajorInRange(x, y, w, h);
      if (x, y) != start {
        RowMajorDistinct(x, y, start.0, start.1, w);
      }
    }
  }

  /** Digging run `n` from corner `n` extends the painting by that run. */
  lemma PaintingStep(cells: seq<Tile>, w: nat, h: nat, instructions: seq<DigInstruction>, n: nat, start: (int, int))
    requires n < |instructions|
    requires Painting(cells, w, h, instructions, n, start)
    requires RunFits(w, h, Corner(instructions, start, n), instructions[n].direction, instructions[n].steps)
    ensures Painting(DigCells(cells, w, h, Corner(instructions, start, n), instructions[n].direction, instructions[n].steps, instructions[n].hexCode),
                     w, h, instructions, n + 1, start)
  {
    var i := instructions[n];
    var corner := Corner(instructions, start, n);
    DigCellsDigsRun(cells, w, h, corner, i.direction, i.steps, i.hexCode);
  }

  /** What part 1 works on: the fill's start, the plan and the dug grid. */
  datatype LoadedState1 = LoadedState1(insideTile: Coord, instructions: seq<DigInstruction>, area: Cells<Tile>)

  /** `finalise_state_1`: a blank grid the size of the box, the start dug
    * with the first colour, then every instruction dug in turn from where
    * the last one ended. The box holds every corner, so no dig leaves the
    * grid and the source's unwraps never fail. */
  method FinaliseState1(state: InitialState) returns (r: LoadedState1)
    ensures fresh(r.area) && r.area.Valid()
    ensures r.insideTile == state.0 && r.instructions == state.1
    ensures r.area.width == Box(state.1).1.0 && r.area.height == Box(state.1).1.1
    ensures Painting(r.area.contents, r.area.width, r.area.height, state.1, |state.1|, Box(state.1).0)
  {
    var instructions := state.1;
    var start, sides := CalculateTileAreaBounds(instructions);
    CornerZero(instructions, start);
    BoxIsTight(instructions);
    var area := new Cells<Tile>.WithDimension(sides.0, sides.1, Space);
    PaintingStart(area.contents, sides.0, sides.1, instructions, start);
    if |instructions| > 0 {
      WriteTrench(area, start.0, start.1, instructions[0].hexCode);
    }
    var current := start;
    for i := 0 to |instructions|
      invariant area.Valid() && area.width == sides.0 && area.height == sides.1
      invariant current.0 == Corner(instructions, start, i).0 && current.1 == Corner(instructions, start, i).1
      invariant Painting(area.contents, sides.0, sides.1, instructions, i, start)
    {
      CornerStep(instructions, start, i);
      assert InGrid(sides.0, sides.1, Corner(instructions, start, i + 1));
      RunBetween(sides.0, sides.1, Corner(instructions, start, i), instructions[i].direction, instructions[i].steps);
      PaintingStep(area.contents, sides.0, sides.1, instructions, i, start);
      current := Dig(area, instructions[i], current.0, current.1);
    }
    r := LoadedState1(state.0, instructions, area);
  }

  // ---------------------------------------------------------------------
  // Filling the lagoon (part 1)

  /** The four cells `add_next` is tried on, in the source's order: up,
    * down, left, right. */
  function Neighbours(c: (int, int)): seq<(int, int)> {
    [(c.0, c.1 - 1), (c.0, c.1 + 1), (c.0 - 1, c.1), (c.0 + 1, c.1)]
  }

  /** A cell whose four neighbours are all on the grid. */
  predicate Interior(w: nat, h: nat, c: (int, int)) {
    0 < c.0 && c.0 + 1 < w && 0 < c.1 && c.1 + 1 < h
  }

  lemma InteriorMeansNeighboursInGrid(w: nat, h: nat, c: (int, int))
    ensures Interior(w, h, c) <==> forall n | n in Neighbours(c) :: InGrid(w, h, n)
  {
    if !Interior(w, h, c) {
      var ns := Neighbours(c);
      assert !InGrid(w, h, ns[0]) || !InGrid(w, h, ns[1]) || !InGrid(w, h, ns[2]) || !InGrid(w, h, ns[3]);
    }
  }

  /** An undug cell of the grid. */
  predicate Open(cells: seq<Tile>, w: nat, h: nat, c: (int, int)) {
    InGrid(w, h, c) && |cells| == Mul(h, w) && CellAt(cells, w, h, c.0, c.1) == Space
  }

  /** A walk through undug cells, each a neighbour of the one before. */
  ghost predicate IsWalk(cells: seq<Tile>, w: nat, h: nat, p: seq<(int, int)>) {
    && |p| > 0
    && forall i | 0 <= i < |p| - 1 :: Step(cells, w, h, p[i], p[i + 1])
  }

  /** One move of the fill: to an undug neighbour. */
  predicate Step(cells: seq<Tile>, w: nat, h: nat, c: (int, int), n: (int, int)) {
    n in Neighbours(c) && Open(cells, w, h, n)
  }

  /** The cells the fill can reach from `start`. */
  ghost predicate InRegion(cells: seq<Tile>, w: nat, h: nat, start: (int, int), c: (int, int)) {
    exists p :: IsWalk(cells, w, h, p) && p[0] == start && p[|p| - 1] == c
  }

  lemma RegionStart(cells: seq<Tile>, w: nat, h: nat, start: (int, int))
    ensures InRegion(cells, w, h, start, start)
  {
    assert IsWalk(cells, w, h, [start]);
  }

  /** An undug neighbour of a reachable cell is reachable. */
  lemma RegionStep(cells: seq<Tile>, w: nat, h: nat, start: (int, int), c: (int, int), n: (int, int))
    requires InRegion(cells, w, h, start, c) && n in Neighbours(c) && Open(cells, w, h, n)
    ensures InRegion(cells, w, h, start, n)
  {
    var p :| IsWalk(cells, w, h, p) && p[0] == start && p[|p| - 1] == c;
    var q := p + [n];
    forall i | 0 <= i < |q| - 1 ensures Step(cells, w, h, q[i], q[i + 1]) {
      if i < |p| - 1 {
        assert q[i] == p[i] && q[i + 1] == p[i + 1];
      }
    }
    assert IsWalk(cells, w, h, q);
  }

  /** Every cell of the grid, and the start wherever it is. */
  function Universe(w: nat, h: nat, start: (int, int)): set<(int, int)> {
    (set x: int, y: int | 0 <= x < w && 0 <= y < h :: (x, y)) + {start}
  }

  /** The region the fill covers. */
  ghost function Region(cells: seq<Tile>, w: nat, h: nat, start: (int, int)): set<(int, int)> {
    set c | c in Universe(w, h, start) && InRegion(cells, w, h, start, c)
  }

  /** The region reaches the edge of the grid, where the source's fill
    * steps off the grid and panics. */
  ghost predicate Leaks(cells: seq<Tile>, w: nat, h: nat, start: (int, int)) {
    exists c :: InRegion(cells, w, h, start, c) && !Interior(w, h, c)
  }

  /** What `add_next` queues: the candidate when it is undug and unvisited. */
  function Pushed(cells: seq<Tile>, w: nat, h: nat, visited: set<(int, int)>, c: (int, int)): seq<(int, int)> {
    if Open(cells, w, h, c) && c !in visited then [c] else []
  }

  /** `add_next`: a candidate off the grid panics (a negative coordinate in
    * the source's usize subtraction, anything else in the unwrap); an
    * undug, unvisited one joins the back of the queue. */
  method AddNext(area: Cells<Tile>, visited: set<(int, int)>, next: seq<(int, int)>, candidate: (int, int))
    returns (r: Result<seq<(int, int)>>)
    requires area.Valid()
    ensures r.Err? <==> !InGrid(area.width, area.height, candidate)
    ensures r.Ok? ==> r.value == next + Pushed(area.contents, area.width, area.height, visited, candidate)
  {
    if !InGrid(area.width, area.height, candidate) {
      return Err("attempt to leave the area");
    }
    var tile := area.Get(candidate.0, candidate.1);
    if tile.value == Space && candidate !in visited {
      r := Ok(next + [candidate]);
    } else {
      r := Ok(next);
    }
  }

  /** The cells one visit queues: each neighbour, in order, that is undug
    * and unvisited. */
  function Queued(cells: seq<Tile>, w: nat, h: nat, visited: set<(int, int)>, tile: (int, int)): seq<(int, int)> {
    var ns := Neighbours(tile);
    Pushed(cells, w, h, visited, ns[0]) + Pushed(cells, w, h, visited, ns[1])
      + Pushed(cells, w, h, visited, ns[2]) + Pushed(cells, w, h, visited, ns[3])
  }

  lemma QueuedMembers(cells: seq<Tile>, w: nat, h: nat, visited: set<(int, int)>, tile: (int, int))
    ensures forall n :: n in Queued(cells, w, h, visited, tile) <==>
                        Step(cells, w, h, tile, n) && n !in visited
  {
    var ns := Neighbours(tile);
    forall n | Step(cells, w, h, tile, n) && n !in visited
      ensures n in Queued(cells, w, h, visited, tile)
    {
      var k :| 0 <= k < 4 && ns[k] == n;
      assert n in Pushed(cells, w, h, visited, ns[k]);
    }
  }

  /** The four `add_next` calls of one visit: the first neighbour off the
    * grid panics; otherwise the undug, unvisited neighbours are queued. */
  method VisitNeighbours(area: Cells<Tile>, visited: set<(int, int)>, next: seq<(int, int)>, tile: (int, int))
    returns (r: Result<seq<(int, int)>>)
    requires area.Valid()
    ensures r.Err? <==> !Interior(area.width, area.height, tile)
    ensures r.Ok? ==> r.value == next + Queued(area.contents, area.width, area.height, visited, tile)
  {
    var q := next;
    q :- AddNext(area, visited, q, (tile.0, tile.1 - 1));
    q :- AddNext(area, visited, q, (tile.0, tile.1 + 1));
    q :- AddNext(area, visited, q, (tile.0 - 1, tile.1));
    q :- AddNext(area, visited, q, (tile.0 + 1, tile.1));
    return Ok(q);
  }

  /** Every visited cell is in the universe, reachable and interior. */
  ghost predicate VisitedSound(cells: seq<Tile>, w: nat, h: nat, start: (int, int), visited: set<(int, int)>) {
    forall c | c in visited :: c in Universe(w, h, start) && InRegion(cells, w, h, start, c) && Interior(w, h, c)
  }

  /** Every queued cell is in the universe and reachable. */
  ghost predicate QueueSound(cells: seq<Tile>, w: nat, h: nat, start: (int, int), next: seq<(int, int)>) {
    forall i | 0 <= i < |next| :: next[i] in Universe(w, h, start) && InRegion(cells, w, h, start, next[i])
  }

  /** Every undug neighbour of a visited cell is visited or queued. */
  ghost predicate Closed(cells: seq<Tile>, w: nat, h: nat, visited: set<(int, int)>, next: seq<(int, int)>) {
    forall c, n | c in visited && Step(cells, w, h, c, n) :: n in visited || n in next
  }

  /** What the fill loop keeps: the start is visited or queued, what is
    * visited or queued is sound, and the visited set is closed up to the
    * queue. */
  ghost predicate FillInvariant(cells: seq<Tile>, w: nat, h: nat, start: (int, int),
                                visited: set<(int, int)>, next: seq<(int, int)>)
  {
    && (start in visited || start in next)
    && VisitedSound(cells, w, h, start, visited)
    && QueueSound(cells, w, h, start, next)
    && Closed(cells, w, h, visited, next)
  }

  lemma FillStart(cells: seq<Tile>, w: nat, h: nat, start: (int, int))
    ensures FillInvariant(cells, w, h, start, {}, [start])
  {
    RegionStart(cells, w, h, start);
  }

  /** Dropping an already visited cell from the queue keeps the invariant. */
  lemma FillSkip(cells: seq<Tile>, w: nat, h: nat, start: (int, int),
                 visited: set<(int, int)>, next: seq<(int, int)>)
    requires FillInvariant(cells, w, h, start, visited, next) && next != [] && next[0] in visited
    ensures FillInvariant(cells, w, h, start, visited, next[1..])
  {
    var tile, rest := next[0], next[1..];
    assert next == [tile] + rest;
    assert forall i | 0 <= i < |rest| :: rest[i] == ([tile] + rest)[i + 1];
    forall x | x in [tile] + rest && x != tile ensures x in rest {
    }
  }

  lemma SoundVisit(cells: seq<Tile>, w: nat, h: nat, start: (int, int),
                   visited: set<(int, int)>, tile: (int, int), rest: seq<(int, int)>)
    requires VisitedSound(cells, w, h, start, visited) && QueueSound(cells, w, h, start, [tile] + rest)
    requires Interior(w, h, tile)
    ensures VisitedSound(cells, w, h, start, visited + {tile})
    ensures QueueSound(cells, w, h, start, rest + Queued(cells, w, h, visited + {tile}, tile))
  {
    assert tile == ([tile] + rest)[0];
    var q := Queued(cells, w, h, visited + {tile}, tile);
    QueuedMembers(cells, w, h, visited + {tile}, tile);
    forall i | 0 <= i < |rest + q|
      ensures (rest + q)[i] in Universe(w, h, start) && InRegion(cells, w, h, start, (rest + q)[i])
    {
      if i < |rest| {
        assert (rest + q)[i] == ([tile] + rest)[i + 1];
      } else {
        var n := (rest + q)[i];
        assert n in q;
        RegionStep(cells, w, h, start, tile, n);
      }
    }
  }

  lemma ClosedVisit(cells: seq<Tile>, w: nat, h: nat,
                    visited: set<(int, int)>, tile: (int, int), rest: seq<(int, int)>)
    requires Closed(cells, w, h, visited, [tile] + rest)
    ensures Closed(cells, w, h, visited + {tile}, rest + Queued(cells, w, h, visited + {tile}, tile))
  {
    var q := Queued(cells, w, h, visited + {tile}, tile);
    QueuedMembers(cells, w, h, visited + {tile}, tile);
    forall c, n | c in visited + {tile} && Step(cells, w, h, c, n)
      ensures n in visited + {tile} || n in rest + q
    {
      if c == tile {
        if n !in visited + {tile} {
          assert n in q;
        }
      } else if n != tile && n !in visited {
        assert n in [tile] + rest;
        assert n in rest;
      }
    }
  }

  /** Visiting an interior cell and queueing its undug, unvisited
    * neighbours keeps the invariant. */
  lemma FillVisit(cells: seq<Tile>, w: nat, h: nat, start: (int, int),
                  visited: set<(int, int)>, next: seq<(int, int)>)
    requires FillInvariant(cells, w, h, start, visited, next) && next != [] && next[0] !in visited
    requires Interior(w, h, next[0])
    ensures var tile := next[0];
            FillInvariant(cells, w, h, start, visited + {tile}, next[1..] + Queued(cells, w, h, visited + {tile}, tile))
    ensures next[0] in Universe(w, h, start)
    ensures |Universe(w, h, start) - (visited + {next[0]})| < |Universe(w, h, start) - visited|
  {
    var tile, rest := next[0], next[1..];
    assert next == [tile] + rest;
    assert Universe(w, h, start) - visited == (Universe(w, h, start) - (visited + {tile})) + {tile};
    SoundVisit(cells, w, h, start, visited, tile, rest);
    ClosedVisit(cells, w, h, visited, tile, rest);
    if start !in visited + {tile} {
      assert start in [tile] + rest;
      assert start in rest;
    }
  }

  /** A finished fill has visited exactly the region, and the region stays
    * inside the grid's edge. */
  lemma FillDone(cells: seq<Tile>, w: nat, h: nat, start: (int, int), visited: set<(int, int)>)
    requires FillInvariant(cells, w, h, start, visited, [])
    ensures visited == Region(cells, w, h, start)
    ensures !Leaks(cells, w, h, start)
  {
    forall c | InRegion(cells, w, h, start, c) ensures c in visited {
      var p :| IsWalk(cells, w, h, p) && p[0] == start && p[|p| - 1] == c;
      WalkVisited(cells, w, h, visited, p, |p| - 1);
    }
  }

  lemma {:induction false} WalkVisited(cells: seq<Tile>, w: nat, h: nat,
                                       visited: set<(int, int)>, p: seq<(int, int)>, i: nat)
    requires Closed(cells, w, h, visited, []) && IsWalk(cells, w, h, p) && p[0] in visited && i < |p|
    ensures p[i] in visited
  {
    if i > 0 {
      WalkVisited(cells, w, h, visited, p, i - 1);
      assert Step(cells, w, h, p[i - 1], p[i]);
    }
  }

  /** The length of the trench dug by the plan: the sum of the steps. */
  function TrenchLength(instructions: seq<DigInstruction>): nat {
    if instructions == [] then 0
    else TrenchLength(instructions[..|instructions| - 1]) + instructions[|instructions| - 1].steps
  }

  /** `perform_processing_1`: a breadth-first fill from the inside tile over
    * undug cells. The answer counts the filled region plus one cell per
    * metre of trench; a region reaching the grid's edge is the source's
    * panic. */
  method PerformProcessing1(state: LoadedState1) returns (r: Result<nat>)
    requires state.area.Valid()
    ensures r.Err? <==> Leaks(state.area.contents, state.area.width, state.area.height, state.insideTile)
    ensures r.Ok? ==> r.value == |Region(state.area.contents, state.area.width, state.area.height, state.insideTile)|
                                 + TrenchLength(state.instructions)
  {
    var area := state.area;
    ghost var cells, w, h := area.contents, area.width, area.height;
    var start: (int, int) := (state.insideTile.0 as int, state.insideTile.1 as int);
    var next: seq<(int, int)> := [start];
    var visited: set<(int, int)> := {};
    FillStart(cells, w, h, start);
    while next != []
      invariant FillInvariant(cells, w, h, start, visited, next)
      decreases |Universe(w, h, start) - visited|, |next|
    {
      var tile := next[0];
      if tile in visited {
        FillSkip(cells, w, h, start, visited, next);
        next := next[1..];
      } else {
        ghost var before, queue := visited, next;
        next := next[1..];
        visited := visited + {tile};
        assert tile in Universe(w, h, start) && InRegion(cells, w, h, start, tile) by {
          assert tile == queue[0];
        }
        next :- VisitNeighbours(area, visited, next, tile);
        FillVisit(cells, w, h, start, before, queue);
      }
    }
    FillDone(cells, w, h, start, visited);
    r := Ok(|visited| + TrenchLength(state.instructions));
  }

  // ---------------------------------------------------------------------
  // The shoelace formula (part 2)

  /** The cross product of two position vectors. */
  function Det(a: (int, int), b: (int, int)): int {
    a.0 * b.1 - b.0 * a.1
  }

  /** The cross products of consecutive vertices of an open chain. */
  function Chain(ps: seq<(int, int)>): int {
    if |ps| < 2 then 0 else Det(ps[0], ps[1]) + Chain(ps[1..])
  }

  /** Twice the signed area of the polygon through `ps`, closed back to
    * its first vertex (the trapezoid form of Gauss's area formula); it is
    * positive when the vertices run anticlockwise in a y-up frame. */
  function SignedArea2(ps: seq<(int, int)>): int
    requires |ps| > 0
  {
    Chain(ps) + Det(ps[|ps| - 1], ps[0])
  }

  /** One term of the source's fold, from the previous vertex `j` to `i`. */
  function ShoelaceTerm(j: (int, int), i: (int, int)): int {
    (j.0 + i.0) * (j.1 - i.1)
  }

  /** The fold of the source's shoelace sum, starting from vertex `j`. */
  function ShoelaceFold(j: (int, int), area: int, ps: seq<(int, int)>): int
    decreases ps
  {
    if ps == [] then area else ShoelaceFold(ps[0], area + ShoelaceTerm(j, ps[0]), ps[1..])
  }

  function Sq(p: (int, int)): int {
    p.0 * p.1
  }

  lemma TermSplit(j: (int, int), i: (int, int))
    ensures ShoelaceTerm(j, i) == Sq(j) - Sq(i) - Det(j, i)
  {
    calc {
      ShoelaceTerm(j, i);
      (j.0 + i.0) * (j.1 - i.1);
      j.0 * j.1 - j.0 * i.1 + i.0 * j.1 - i.0 * i.1;
    }
  }

  /** The fold telescopes into the chain of cross products. */
  lemma {:induction false} FoldTelescopes(j: (int, int), area: int, ps: seq<(int, int)>)
    requires |ps| > 0
    ensures ShoelaceFold(j, area, ps) == area + Sq(j) - Sq(ps[|ps| - 1]) - Det(j, ps[0]) - Chain(ps)
    decreases ps
  {
    TermSplit(j, ps[0]);
    if |ps| > 1 {
      FoldTelescopes(ps[0], area + ShoelaceTerm(j, ps[0]), ps[1..]);
    }
  }

  /** Started from the last vertex, the source's fold is minus twice the
    * signed area: its sign depends on the direction of travel, its
    * magnitude does not. */
  lemma ShoelaceIsSignedArea(ps: seq<(int, int)>)
    requires |ps| > 0
    ensures ShoelaceFold(ps[|ps| - 1], 0, ps) == -SignedArea2(ps)
  {
    FoldTelescopes(ps[|ps| - 1], 0, ps);
  }

  /** Rust's `/ 2` on a signed integer, which truncates toward zero. */
  function TruncHalf(x: int): int {
    if x >= 0 then x / 2 else -((-x) / 2)
  }

  lemma TruncHalfMagnitude(x: int)
    ensures Abs(TruncHalf(x)) == Abs(x) / 2 == Abs(-x) / 2
  {
  }

  /** `perform_processing_2`: the shoelace area halved, plus half the
    * trench, plus one; a plan without vertices is the source's unwrap
    * panic. */
  function PerformProcessing2(state: LoadedState2): (r: Result<nat>)
    ensures r.Err? <==> state.points == []
    ensures r.Ok? ==> r.value == Abs(SignedArea2(state.points)) / 2 + TrenchLength(state.instructions) / 2 + 1
  {
    if state.points == [] then Err("no vertices")
    else
      var area := ShoelaceFold(state.points[|state.points| - 1], 0, state.points);
      ShoelaceIsSignedArea(state.points);
      TruncHalfMagnitude(area);
      Ok(Abs(TruncHalf(area)) + TrenchLength(state.instructions) / 2 + 1)
  }

  /** The plan `a` right, `b` down, `a` left, `b` up. */
  function Rectangle(a: nat, b: nat, codes: seq<string>): seq<DigInstruction>
    requires |codes| == 4
  {
    [DigInstruction(Right, a, codes[0]), DigInstruction(Down, b, codes[1]),
     DigInstruction(Left, a, codes[2]), DigInstruction(Up, b, codes[3])]
  }

  lemma RectangleVertices(a: nat, b: nat, codes: seq<string>)
    requires |codes| == 4
    ensures Vertices(Rectangle(a, b, codes)) == [(0, 0), (a, 0), (a, b), (0, b), (0, 0)]
  {
    var ps := Vertices(Rectangle(a, b, codes));
    assert ps[1] == Shift(ps[0], Right, a) == (a, 0);
    assert ps[2] == Shift(ps[1], Down, b) == (a, b);
    assert ps[3] == Shift(ps[2], Left, a) == (0, b);
    assert ps[4] == Shift(ps[3], Up, b) == (0, 0);
  }

  lemma RectangleTrench(a: nat, b: nat, codes: seq<string>)
    requires |codes| == 4
    ensures TrenchLength(Rectangle(a, b, codes)) == 2 * a + 2 * b
  {
    var plan := Rectangle(a, b, codes);
    assert plan[..1][..0] == [];
    assert TrenchLength(plan[..1]) == a;
    assert plan[..2][..1] == plan[..1];
    assert TrenchLength(plan[..2]) == a + b;
    assert plan[..3][..2] == plan[..2];
    assert TrenchLength(plan[..3]) == 2 * a + b;
    assert plan[..3] == plan[..|plan| - 1];
  }

  lemma RectangleArea(a: nat, b: nat)
    ensures SignedArea2([(0, 0), (a, 0), (a, b), (0, b), (0, 0)]) == 2 * (a * b)
  {
    var ps := [(0, 0), (a, 0), (a, b), (0, b), (0, 0)];
    assert Chain(ps[3..]) == 0;
    assert Chain(ps[2..]) == a * b;
    assert Chain(ps[1..]) == 2 * (a * b);
  }

  /** A rectangular plan `a` right, `b` down, `a` left, `b` up digs an
    * (a+1) by (b+1) lagoon. */
  lemma RectangleLagoon(a: nat, b: nat, codes: seq<string>)
    requires |codes| == 4
    ensures PerformProcessing2(FinaliseState2(((0, 0), Rectangle(a, b, codes)))) == Ok((a + 1) * (b + 1))
  {
    var plan := Rectangle(a, b, codes);
    var st := FinaliseState2(((0, 0), plan));
    RectangleVertices(a, b, codes);
    RectangleTrench(a, b, codes);
    RectangleArea(a, b);
    assert Abs(SignedArea2(st.points)) / 2 == a * b;
    assert TrenchLength(st.instructions) / 2 == a + b;
    assert (a + 1) * (b + 1) == a * b + a + b + 1;
  }
}
