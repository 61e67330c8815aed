// Clumsy crucible: the cheapest way across a grid of heat-loss digits from
// the top-left cell to the bottom-right one, for a crucible that must go
// at least a minimum and at most a maximum number of cells in a straight
// line before it turns. Moves are explored breadth first; a table keeps,
// for every cell, the best cost seen for each (direction, run) key, and a
// move survives only if it beats that.
module Day17 {
  import opened Wrappers
  import opened Numbers
  import opened Processor
  import opened Grids

  datatype HeatLoss = HeatLoss(amount: nat)

  type Lines = seq<seq<HeatLoss>>

  datatype Direction = Up | Down | Left | Right

  /** A crucible in the queue: where it is, the way it went, what it cost to
    * get there and how many cells it has gone since it last turned. */
  datatype Move = Move(x: nat, y: nat, direction: Direction, cost: nat, turnLastMade: nat)

  datatype BestSoFarKey = BestSoFarKey(direction: Direction, turnLastMade: nat)

  datatype CrucibleParameters = CrucibleParameters(minInStraightLine: nat, maxInStraightLine: nat)

  /** A crucible's situation without its cost: what the best-so-far table is
    * keyed on. */
  datatype Crucible = Crucible(x: nat, y: nat, direction: Direction, turnLastMade: nat)

  /** Where a move would take the crucible, possibly off the grid. */
  datatype Target = Target(x: int, y: int, direction: Direction, turnLastMade: nat)

  datatype Turn = TurnLeft | TurnRight | GoStraight

  // ---------------------------------------------------------------------
  // Loading

  /** The heat losses of a line, None when some character is not a decimal
    * digit. */
  function RowOf(line: string): (r: Option<seq<HeatLoss>>)
    ensures r.Some? <==> AllDigits(line)
    ensures r.Some? ==> |r.value| == |line| && forall i | 0 <= i < |line| :: r.value[i].amount == DigitValue(line[i])
  {
    if line == [] then Some([])
    else
      match RowOf(line[..|line| - 1])
      case None => None
      case Some(front) =>
        var c := line[|line| - 1];
        if IsDigit(c) then Some(front + [HeatLoss(DigitValue(c))]) else None
  }

  /** How a row is written: each heat loss below ten as its digit. */
  function ShowRow(row: seq<HeatLoss>): (r: string)
    requires forall i | 0 <= i < |row| :: row[i].amount < 10
    ensures |r| == |row| && AllDigits(r)
  {
    seq(|row|, i requires 0 <= i < |row| => DigitChar(row[i].amount))
  }

  lemma RowOfShown(row: seq<HeatLoss>)
    requires forall i | 0 <= i < |row| :: row[i].amount < 10
    ensures RowOf(ShowRow(row)) == Some(row)
  {
    var r := RowOf(ShowRow(row));
    assert r.value == row;
  }

  /** `parse_line`: an empty line is skipped; any other line is the next
    * row, one heat loss per digit. A character that is not a digit is an
    * error (the source panics on it). */
  function ParseLine(state: Lines, line: string): (r: Result<Lines>)
    ensures line == [] ==> r == Ok(state)
    ensures line != [] ==> (r.Ok? <==> AllDigits(line))
    ensures line != [] && r.Ok? ==>
              |r.value| == |state| + 1 && r.value[..|state|] == state && |r.value[|state|]| == |line| &&
              forall i | 0 <= i < |line| :: r.value[|state|][i].amount == DigitValue(line[i])
  {
    if line == [] then Ok(state)
    else
      match RowOf(line)
      case None => Err("Non-number in line")
      case Some(row) => Ok(state + [row])
  }

  /** `finalise_state`: the rows become the grid, as wide as the widest row
    * with short rows padded with zero heat loss; no rows, or only empty
    * ones, is an error. */
  method FinaliseState(lines: Lines) returns (r: Result<Cells<HeatLoss>>)
    ensures r.Ok? <==> lines != [] && MaxWidth(lines) > 0
    ensures r.Ok? ==>
              fresh(r.value) && r.value.Valid() &&
              r.value.width == MaxWidth(lines) && r.value.height == |lines| &&
              r.value.contents == Padded(lines, MaxWidth(lines), HeatLoss(0))
  {
    if lines == [] {
      return Err("No point in building cells when there are no lines");
    }
    var width := MaxWidth(lines);
    if width == 0 {
      return Err("No point in building cells when the width is 0");
    }
    PaddedAt(lines, width, HeatLoss(0));
    var grid := new Cells.FromContents(Padded(lines, width, HeatLoss(0)), width, |lines|);
    return Ok(grid);
  }

  // ---------------------------------------------------------------------
  // Moving

  /** One cell in a direction; row 0 is the top. */
  function Delta(d: Direction): (int, int) {
    match d
    case Up => (0, -1)
    case Down => (0, 1)
    case Left => (-1, 0)
    case Right => (1, 0)
  }

  /** The direction after a turn to the crucible's left, as `turn_left`
    * takes it. */
  function LeftOf(d: Direction): Direction {
    match d
    case Up => Left
    case Down => Right
    case Left => Down
    case Right => Up
  }

  /** The direction after a turn to the right, as `turn_right` takes it. */
  function RightOf(d: Direction): Direction {
    match d
    case Up => Right
    case Down => Left
    case Left => Up
    case Right => Down
  }

  predicate Vertical(d: Direction) {
    d == Up || d == Down
  }

  /** Left and right turns are quarter turns the opposite way round: each
    * undoes the other, both leave the axis, and four of one come home. */
  lemma TurnsAreQuarterTurns(d: Direction)
    ensures RightOf(LeftOf(d)) == d && LeftOf(RightOf(d)) == d
    ensures Vertical(LeftOf(d)) != Vertical(d) && Vertical(RightOf(d)) != Vertical(d)
    ensures LeftOf(d) != RightOf(d)
    ensures LeftOf(LeftOf(LeftOf(LeftOf(d)))) == d
  {
  }

  /** `turn_allowed`: a crucible turns only once it has gone the minimum. */
  predicate TurnAllowed(t: nat, params: CrucibleParameters) {
    t >= params.minInStraightLine
  }

  /** `continue_straight_on_allowed`: one more cell must stay within the
    * maximum. */
  predicate ContinueStraightOnAllowed(t: nat, params: CrucibleParameters) {
    t + 1 <= params.maxInStraightLine
  }

  function NewDirection(d: Direction, turn: Turn): Direction {
    match turn
    case TurnLeft => LeftOf(d)
    case TurnRight => RightOf(d)
    case GoStraight => d
  }

  /** Where `turn_left`, `turn_right` and `go_straight` take a crucible: one
    * cell on in the new direction, None when the turn is not allowed. */
  function Candidate(s: Crucible, turn: Turn, params: CrucibleParameters): (r: Option<Target>)
    ensures r.Some? <==> if turn == GoStraight then ContinueStraightOnAllowed(s.turnLastMade, params)
                         else TurnAllowed(s.turnLastMade, params)
    ensures r.Some? ==> r.value.direction == NewDirection(s.direction, turn)
    ensures r.Some? ==> r.value.x == s.x + Delta(r.value.direction).0 && r.value.y == s.y + Delta(r.value.direction).1
    ensures r.Some? ==> r.value.turnLastMade == if turn == GoStraight then s.turnLastMade + 1 else 1
  {
    var d := NewDirection(s.direction, turn);
    var (dx, dy) := Delta(d);
    match turn
    case GoStraight =>
      if ContinueStraightOnAllowed(s.turnLastMade, params) then Some(Target(s.x + dx, s.y + dy, d, s.turnLastMade + 1)) else None
    case _ =>
      if TurnAllowed(s.turnLastMade, params) then Some(Target(s.x + dx, s.y + dy, d, 1)) else None
  }

  predicate Inside(w: nat, h: nat, x: int, y: int) {
    0 <= x < w && 0 <= y < h
  }

  /** `can_move_required_in_a_straight_line`: a crucible that has not yet
    * gone the minimum must be able to finish it on the grid. */
  predicate CanMoveRequiredInAStraightLine(target: Target, w: nat, h: nat, params: CrucibleParameters) {
    var (dx, dy) := Delta(target.direction);
    var stillToGo := params.minInStraightLine - target.turnLastMade;
    target.turnLastMade >= params.minInStraightLine ||
    Inside(w, h, target.x + dx * stillToGo, target.y + dy * stillToGo)
  }

  /** When the check passes, every cell of the remaining forced run from an
    * on-grid target is on the grid. */
  lemma ForcedRunFits(target: Target, w: nat, h: nat, params: CrucibleParameters, k: nat)
    requires Inside(w, h, target.x, target.y) && CanMoveRequiredInAStraightLine(target, w, h, params)
    requires target.turnLastMade + k <= params.minInStraightLine
    ensures Inside(w, h, target.x + Delta(target.direction).0 * k, target.y + Delta(target.direction).1 * k)
  {
  }

  /** The first two checks of `construct_move`: the target is on the grid
    * and can finish its forced run there. */
  predicate Admissible(target: Target, w: nat, h: nat, params: CrucibleParameters) {
    Inside(w, h, target.x, target.y) && CanMoveRequiredInAStraightLine(target, w, h, params)
  }

  function TargetOf(s: Crucible): Target {
    Target(s.x, s.y, s.direction, s.turnLastMade)
  }

  function StateOf(m: Move): Crucible {
    Crucible(m.x, m.y, m.direction, m.turnLastMade)
  }

  function MoveOf(s: Crucible, cost: nat): Move {
    Move(s.x, s.y, s.direction, cost, s.turnLastMade)
  }

  function KeyOf(s: Crucible): BestSoFarKey {
    BestSoFarKey(s.direction, s.turnLastMade)
  }

  /** Crucible b is where a legal `turn` takes crucible a. */
  predicate FollowsBy(w: nat, h: nat, params: CrucibleParameters, a: Crucible, b: Crucible, turn: Turn) {
    Candidate(a, turn, params) == Some(TargetOf(b)) && Admissible(TargetOf(b), w, h, params)
  }

  predicate Follows(w: nat, h: nat, params: CrucibleParameters, a: Crucible, b: Crucible) {
    FollowsBy(w, h, params, a, b, TurnLeft) || FollowsBy(w, h, params, a, b, TurnRight) ||
    FollowsBy(w, h, params, a, b, GoStraight)
  }

  /** Every move keeps its run between one and the largest run allowed. */
  function MaxRun(params: CrucibleParameters): nat {
    if params.maxInStraightLine == 0 then 1 else params.maxInStraightLine
  }

  lemma FollowsRun(w: nat, h: nat, params: CrucibleParameters, a: Crucible, b: Crucible)
    requires Follows(w, h, params, a, b)
    ensures 1 <= b.turnLastMade <= MaxRun(params)
  {
  }

  // ---------------------------------------------------------------------
  // The best-so-far table

  type Table = seq<map<BestSoFarKey, nat>>

  function HeatAt(heat: seq<HeatLoss>, w: nat, h: nat, x: nat, y: nat): nat
    requires |heat| == Mul(h, w) && x < w && y < h
  {
    CellAt(heat, w, h, x, y).amount
  }

  predicate AtEnd(w: nat, h: nat, s: Crucible) {
    s.x == w - 1 && s.y == h - 1
  }

  predicate Recorded(table: Table, w: nat, h: nat, s: Crucible)
    requires |table| == Mul(h, w)
  {
    Inside(w, h, s.x, s.y) && KeyOf(s) in CellAt(table, w, h, s.x, s.y)
  }

  function Best(table: Table, w: nat, h: nat, s: Crucible): nat
    requires |table| == Mul(h, w) && Recorded(table, w, h, s)
  {
    CellAt(table, w, h, s.x, s.y)[KeyOf(s)]
  }

  /** The rest of `construct_move`, given where the move goes: a target off
    * the grid or unable to finish its run is dropped; so is one that costs
    * no less than the best recorded for its key. Otherwise its cost is
    * recorded, and it is returned unless it reached the bottom-right cell. */
  function Relax(heat: seq<HeatLoss>, w: nat, h: nat, table: Table, cost: nat, target: Target, params: CrucibleParameters): (r: (Table, Option<Move>))
    requires |heat| == Mul(h, w) && |table| == Mul(h, w)
    ensures |r.0| == |table|
  {
    if !Admissible(target, w, h, params) then (table, None)
    else
      var s := Crucible(target.x, target.y, target.direction, target.turnLastMade);
      var newCost: nat := cost + HeatAt(heat, w, h, s.x, s.y);
      if Recorded(table, w, h, s) && Best(table, w, h, s) <= newCost then (table, None)
      else
        RowMajorInRange(s.x, s.y, w, h);
        var i := RowMajor(s.x, s.y, w);
        var updated: map<BestSoFarKey, nat> := table[i][KeyOf(s) := newCost];
        (table[i := updated], if AtEnd(w, h, s) then None else Some(MoveOf(s, newCost)))
  }

  /** What `turn_left`, `turn_right` or `go_straight` does to the table and
    * returns. */
  function Attempt(heat: seq<HeatLoss>, w: nat, h: nat, table: Table, m: Move, turn: Turn, params: CrucibleParameters): (r: (Table, Option<Move>))
    requires |heat| == Mul(h, w) && |table| == Mul(h, w)
    ensures |r.0| == |table|
  {
    match Candidate(StateOf(m), turn, params)
    case None => (table, None)
    case Some(target) => Relax(heat, w, h, table, m.cost, target, params)
  }

  // ---------------------------------------------------------------------
  // Why the search ends: every accepted move records a key never seen at
  // its cell, or lowers the cost recorded for one.

  /** Every key a move can be recorded under, for runs 1 to n. */
  function AllKeys(n: nat): seq<BestSoFarKey> {
    if n == 0 then []
    else AllKeys(n - 1) + [BestSoFarKey(Up, n), BestSoFarKey(Down, n), BestSoFarKey(Left, n), BestSoFarKey(Right, n)]
  }

  lemma {:induction false} AllKeysHold(n: nat, k: BestSoFarKey)
    requires 1 <= k.turnLastMade <= n
    ensures k in AllKeys(n)
  {
    var tail := [BestSoFarKey(Up, n), BestSoFarKey(Down, n), BestSoFarKey(Left, n), BestSoFarKey(Right, n)];
    assert AllKeys(n) == AllKeys(n - 1) + tail;
    if k.turnLastMade < n {
      AllKeysHold(n - 1, k);
    } else {
      assert k in tail by {
        match k.direction
        case Up => assert k == tail[0];
        case Down => assert k == tail[1];
        case Left => assert k == tail[2];
        case Right => assert k == tail[3];
      }
    }
  }

  /** How many of the keys a cell's map lacks. */
  function Unrecorded(m: map<BestSoFarKey, nat>, keys: seq<BestSoFarKey>): nat {
    if keys == [] then 0
    else Unrecorded(m, keys[..|keys| - 1]) + (if keys[|keys| - 1] in m then 0 else 1)
  }

  /** The costs a cell's map records for the keys, added up. */
  function Spent(m: map<BestSoFarKey, nat>, keys: seq<BestSoFarKey>): nat {
    if keys == [] then 0
    else Spent(m, keys[..|keys| - 1]) + (if keys[|keys| - 1] in m then m[keys[|keys| - 1]] else 0)
  }

  lemma {:induction false} EntryAdded(m: map<BestSoFarKey, nat>, k: BestSoFarKey, v: nat, keys: seq<BestSoFarKey>)
    requires k !in m
    ensures Unrecorded(m[k := v], keys) <= Unrecorded(m, keys)
    ensures k in keys ==> Unrecorded(m[k := v], keys) < Unrecorded(m, keys)
  {
    if keys != [] {
      var front := keys[..|keys| - 1];
      EntryAdded(m, k, v, front);
      assert keys == front + [keys[|keys| - 1]];
    }
  }

  lemma {:induction false} EntryLowered(m: map<BestSoFarKey, nat>, k: BestSoFarKey, v: nat, keys: seq<BestSoFarKey>)
    requires k in m && v < m[k]
    ensures Unrecorded(m[k := v], keys) == Unrecorded(m, keys)
    ensures Spent(m[k := v], keys) <= Spent(m, keys)
    ensures k in keys ==> Spent(m[k := v], keys) < Spent(m, keys)
  {
    if keys != [] {
      var front := keys[..|keys| - 1];
      EntryLowered(m, k, v, front);
      assert keys == front + [keys[|keys| - 1]];
    }
  }

  function Pending(table: Table, keys: seq<BestSoFarKey>): nat {
    if table == [] then 0 else Pending(table[..|table| - 1], keys) + Unrecorded(table[|table| - 1], keys)
  }

  function Weight(table: Table, keys: seq<BestSoFarKey>): nat {
    if table == [] then 0 else Weight(table[..|table| - 1], keys) + Spent(table[|table| - 1], keys)
  }

  lemma {:induction false} CellReplaced(table: Table, i: nat, m: map<BestSoFarKey, nat>, keys: seq<BestSoFarKey>)
    requires i < |table|
    ensures Pending(table[i := m], keys) + Unrecorded(table[i], keys) == Pending(table, keys) + Unrecorded(m, keys)
    ensures Weight(table[i := m], keys) + Spent(table[i], keys) == Weight(table, keys) + Spent(m, keys)
  {
    var n := |table|;
    var u := table[i := m];
    if i == n - 1 {
      assert u[..n - 1] == table[..n - 1];
    } else {
      assert u[..n - 1] == table[..n - 1][i := m];
      CellReplaced(table[..n - 1], i, m, keys);
    }
  }

  /** The search measure went down: fewer keys unrecorded, or as many and
    * less cost recorded. */
  ghost predicate Progress(table: Table, table': Table, keys: seq<BestSoFarKey>) {
    Pending(table', keys) < Pending(table, keys) ||
    (Pending(table', keys) == Pending(table, keys) && Weight(table', keys) < Weight(table, keys))
  }

  lemma ProgressThen(t1: Table, t2: Table, t3: Table, keys: seq<BestSoFarKey>)
    requires Progress(t1, t2, keys) && (t3 == t2 || Progress(t2, t3, keys))
    ensures Progress(t1, t3, keys)
  {
  }

  // ---------------------------------------------------------------------
  // What one move attempt does to the table

  /** Entries only improve: each key of the old table is kept, at no higher
    * cost. */
  ghost predicate NoHigher(table: Table, table': Table, w: nat, h: nat)
    requires |table| == Mul(h, w) && |table'| == Mul(h, w)
  {
    forall s: Crucible | Recorded(table, w, h, s) :: Recorded(table', w, h, s) && Best(table', w, h, s) <= Best(table, w, h, s)
  }

  /** The entry for s is new or different. */
  ghost predicate Changed(table: Table, table': Table, w: nat, h: nat, s: Crucible)
    requires |table| == Mul(h, w) && |table'| == Mul(h, w)
  {
    Recorded(table', w, h, s) && (!Recorded(table, w, h, s) || Best(table', w, h, s) != Best(table, w, h, s))
  }

  /** The target of a relaxation is in the table afterwards at no more than
    * the cost of getting there, and is the only entry that changed. */
  lemma RelaxFacts(heat: seq<HeatLoss>, w: nat, h: nat, table: Table, cost: nat, s: Crucible, params: CrucibleParameters)
    requires |heat| == Mul(h, w) && |table| == Mul(h, w)
    requires Admissible(TargetOf(s), w, h, params)
    ensures |Relax(heat, w, h, table, cost, TargetOf(s), params).0| == |table|
    ensures var (table', r) := Relax(heat, w, h, table, cost, TargetOf(s), params);
            Recorded(table', w, h, s) && Best(table', w, h, s) <= cost + HeatAt(heat, w, h, s.x, s.y) &&
            NoHigher(table, table', w, h) &&
            (forall u: Crucible | Changed(table, table', w, h, u) :: u == s) &&
            (Changed(table, table', w, h, s) ==> Best(table', w, h, s) == cost + HeatAt(heat, w, h, s.x, s.y)) &&
            (table' == table ==> r.None?) &&
            (r.Some? <==> Changed(table, table', w, h, s) && !AtEnd(w, h, s)) &&
            (r.Some? ==> r.value == MoveOf(s, cost + HeatAt(heat, w, h, s.x, s.y)))
  {
    var newCost := cost + HeatAt(heat, w, h, s.x, s.y);
    assert Crucible(TargetOf(s).x, TargetOf(s).y, TargetOf(s).direction, TargetOf(s).turnLastMade) == s;
    if !(Recorded(table, w, h, s) && Best(table, w, h, s) <= newCost) {
      RowMajorInRange(s.x, s.y, w, h);
      var i := RowMajor(s.x, s.y, w);
      var updated: map<BestSoFarKey, nat> := table[i][KeyOf(s) := newCost];
      var table' := table[i := updated];
      assert CellAt(table', w, h, s.x, s.y) == updated;
      forall u: Crucible | Inside(w, h, u.x, u.y) && (u.x != s.x || u.y != s.y)
        ensures CellAt(table', w, h, u.x, u.y) == CellAt(table, w, h, u.x, u.y)
      {
        RowMajorDistinct(u.x, u.y, s.x, s.y, w);
        RowMajorInRange(u.x, u.y, w, h);
      }
      assert table' != table by {
        assert table'[i] != table[i] by {
          if Recorded(table, w, h, s) {
            assert updated[KeyOf(s)] != table[i][KeyOf(s)];
          } else {
            assert KeyOf(s) !in table[i];
          }
        }
      }
    }
  }

  /** A relaxation that records anything moves the search measure on. */
  lemma RelaxProgress(heat: seq<HeatLoss>, w: nat, h: nat, table: Table, cost: nat, s: Crucible, params: CrucibleParameters)
    requires |heat| == Mul(h, w) && |table| == Mul(h, w)
    requires Admissible(TargetOf(s), w, h, params) && 1 <= s.turnLastMade <= MaxRun(params)
    ensures var table' := Relax(heat, w, h, table, cost, TargetOf(s), params).0;
            table' == table || Progress(table, table', AllKeys(MaxRun(params)))
  {
    var newCost := cost + HeatAt(heat, w, h, s.x, s.y);
    assert Crucible(TargetOf(s).x, TargetOf(s).y, TargetOf(s).direction, TargetOf(s).turnLastMade) == s;
    if !(Recorded(table, w, h, s) && Best(table, w, h, s) <= newCost) {
      var keys := AllKeys(MaxRun(params));
      RowMajorInRange(s.x, s.y, w, h);
      var i := RowMajor(s.x, s.y, w);
      var updated: map<BestSoFarKey, nat> := table[i][KeyOf(s) := newCost];
      AllKeysHold(MaxRun(params), KeyOf(s));
      CellReplaced(table, i, updated, keys);
      if KeyOf(s) in table[i] {
        EntryLowered(table[i], KeyOf(s), newCost, keys);
      } else {
        EntryAdded(table[i], KeyOf(s), newCost, keys);
      }
    }
  }

  function Pushed(r: Option<Move>): seq<Move> {
    if r.Some? then [r.value] else []
  }

  // What an attempt, or several in a row from the same move, leave behind.

  /** Every crucible one of the turns legally reaches is recorded at no more
    * than the cost of getting there. */
  ghost predicate ReachedBy(heat: seq<HeatLoss>, w: nat, h: nat, params: CrucibleParameters, table': Table, m: Move, turns: set<Turn>)
    requires |heat| == Mul(h, w) && |table'| == Mul(h, w)
  {
    forall s: Crucible, turn | turn in turns && FollowsBy(w, h, params, StateOf(m), s, turn) ::
      Recorded(table', w, h, s) && Best(table', w, h, s) <= m.cost + HeatAt(heat, w, h, s.x, s.y)
  }

  /** Whatever changed was reached from m, holds the cost of getting there,
    * and was pushed unless it is at the end. */
  ghost predicate ChangesPushed(heat: seq<HeatLoss>, w: nat, h: nat, params: CrucibleParameters, table: Table, table': Table,
                                m: Move, pushed: seq<Move>)
    requires |heat| == Mul(h, w) && |table| == Mul(h, w) && |table'| == Mul(h, w)
  {
    forall s: Crucible | Changed(table, table', w, h, s) ::
      Follows(w, h, params, StateOf(m), s) && Best(table', w, h, s) == m.cost + HeatAt(heat, w, h, s.x, s.y) &&
      (AtEnd(w, h, s) || MoveOf(s, Best(table', w, h, s)) in pushed)
  }

  /** Every pushed move is a legal step from m, costs what getting there
    * costs, and is not at the end. */
  ghost predicate PushedLegal(heat: seq<HeatLoss>, w: nat, h: nat, params: CrucibleParameters, m: Move, pushed: seq<Move>)
    requires |heat| == Mul(h, w)
  {
    forall k | 0 <= k < |pushed| ::
      Follows(w, h, params, StateOf(m), StateOf(pushed[k])) &&
      pushed[k].cost == m.cost + HeatAt(heat, w, h, pushed[k].x, pushed[k].y) && !AtEnd(w, h, StateOf(pushed[k]))
  }

  /** Nothing happened, or the search measure moved on. */
  ghost predicate Moved(table: Table, table': Table, pushed: seq<Move>, params: CrucibleParameters) {
    (table' == table && pushed == []) || Progress(table, table', AllKeys(MaxRun(params)))
  }

  ghost predicate Stepped(heat: seq<HeatLoss>, w: nat, h: nat, params: CrucibleParameters, table: Table, table': Table,
                          m: Move, pushed: seq<Move>, turns: set<Turn>)
    requires |heat| == Mul(h, w) && |table| == Mul(h, w) && |table'| == Mul(h, w)
  {
    NoHigher(table, table', w, h) && ReachedBy(heat, w, h, params, table', m, turns) &&
    ChangesPushed(heat, w, h, params, table, table', m, pushed) && PushedLegal(heat, w, h, params, m, pushed) &&
    Moved(table, table', pushed, params)
  }

  /** An attempt whose turn is legal and lands on an admissible crucible s. */
  lemma AttemptRelaxes(heat: seq<HeatLoss>, w: nat, h: nat, table: Table, m: Move, turn: Turn, params: CrucibleParameters, s: Crucible)
    requires |heat| == Mul(h, w) && |table| == Mul(h, w)
    requires FollowsBy(w, h, params, StateOf(m), s, turn)
    ensures Stepped(heat, w, h, params, table, Relax(heat, w, h, table, m.cost, TargetOf(s), params).0, m,
                    Pushed(Relax(heat, w, h, table, m.cost, TargetOf(s), params).1), {turn})
  {
    FollowsRun(w, h, params, StateOf(m), s);
    RelaxFacts(heat, w, h, table, m.cost, s, params);
    RelaxProgress(heat, w, h, table, m.cost, s, params);
    forall u: Crucible | FollowsBy(w, h, params, StateOf(m), u, turn)
      ensures u == s
    {
      assert TargetOf(u) == TargetOf(s);
    }
  }

  lemma AttemptFacts(heat: seq<HeatLoss>, w: nat, h: nat, table: Table, m: Move, turn: Turn, params: CrucibleParameters)
    requires |heat| == Mul(h, w) && |table| == Mul(h, w)
    ensures Stepped(heat, w, h, params, table, Attempt(heat, w, h, table, m, turn, params).0, m,
                    Pushed(Attempt(heat, w, h, table, m, turn, params).1), {turn})
  {
    match Candidate(StateOf(m), turn, params)
    case None =>
    case Some(target) =>
      if Admissible(target, w, h, params) {
        var s := Crucible(target.x, target.y, target.direction, target.turnLastMade);
        assert TargetOf(s) == target;
        AttemptRelaxes(heat, w, h, table, m, turn, params, s);
      }
  }

  // ---------------------------------------------------------------------
  // One expansion: `make_next_moves`

  /** `make_next_moves`: turn left, turn right and go straight, each against
    * the table the previous one left; the moves that survive are appended
    * in that order. */
  function NextMoves(heat: seq<HeatLoss>, w: nat, h: nat, table: Table, m: Move, params: CrucibleParameters): (r: (Table, seq<Move>))
    requires |heat| == Mul(h, w) && |table| == Mul(h, w)
    ensures |r.0| == |table| && |r.1| <= 3
  {
    var (t1, r1) := Attempt(heat, w, h, table, m, TurnLeft, params);
    var (t2, r2) := Attempt(heat, w, h, t1, m, TurnRight, params);
    var (t3, r3) := Attempt(heat, w, h, t2, m, GoStraight, params);
    (t3, Pushed(r1) + Pushed(r2) + Pushed(r3))
  }

  lemma NoHigherThen(t1: Table, t2: Table, t3: Table, w: nat, h: nat)
    requires |t1| == Mul(h, w) && |t2| == Mul(h, w) && |t3| == Mul(h, w)
    requires NoHigher(t1, t2, w, h) && NoHigher(t2, t3, w, h)
    ensures NoHigher(t1, t3, w, h)
  {
    forall s: Crucible | Recorded(t1, w, h, s)
      ensures Recorded(t3, w, h, s) && Best(t3, w, h, s) <= Best(t1, w, h, s)
    {
      assert Recorded(t2, w, h, s);
    }
  }

  lemma ReachedThen(heat: seq<HeatLoss>, w: nat, h: nat, params: CrucibleParameters, t1: Table, t2: Table,
                    m: Move, turns: set<Turn>, turn: Turn)
    requires |heat| == Mul(h, w) && |t1| == Mul(h, w) && |t2| == Mul(h, w)
    requires ReachedBy(heat, w, h, params, t1, m, turns) && NoHigher(t1, t2, w, h)
    requires ReachedBy(heat, w, h, params, t2, m, {turn})
    ensures ReachedBy(heat, w, h, params, t2, m, turns + {turn})
  {
    forall s: Crucible, u | u in turns + {turn} && FollowsBy(w, h, params, StateOf(m), s, u)
      ensures Recorded(t2, w, h, s) && Best(t2, w, h, s) <= m.cost + HeatAt(heat, w, h, s.x, s.y)
    {
      if u != turn {
        assert Recorded(t1, w, h, s);
      }
    }
  }

  lemma ChangesThen(heat: seq<HeatLoss>, w: nat, h: nat, params: CrucibleParameters, t0: Table, t1: Table, t2: Table,
                    m: Move, pushed: seq<Move>, more: seq<Move>)
    requires |heat| == Mul(h, w) && |t0| == Mul(h, w) && |t1| == Mul(h, w) && |t2| == Mul(h, w)
    requires ChangesPushed(heat, w, h, params, t0, t1, m, pushed) && ChangesPushed(heat, w, h, params, t1, t2, m, more)
    ensures ChangesPushed(heat, w, h, params, t0, t2, m, pushed + more)
  {
    forall s: Crucible | Changed(t0, t2, w, h, s)
      ensures Follows(w, h, params, StateOf(m), s) && Best(t2, w, h, s) == m.cost + HeatAt(heat, w, h, s.x, s.y) &&
              (AtEnd(w, h, s) || MoveOf(s, Best(t2, w, h, s)) in pushed + more)
    {
      if !Changed(t1, t2, w, h, s) {
        assert Changed(t0, t1, w, h, s);
      }
    }
  }

  lemma PushedThen(heat: seq<HeatLoss>, w: nat, h: nat, params: CrucibleParameters, m: Move, pushed: seq<Move>, more: seq<Move>)
    requires |heat| == Mul(h, w)
    requires PushedLegal(heat, w, h, params, m, pushed) && PushedLegal(heat, w, h, params, m, more)
    ensures PushedLegal(heat, w, h, params, m, pushed + more)
  {
    var all := pushed + more;
    forall k | 0 <= k < |all|
      ensures Follows(w, h, params, StateOf(m), StateOf(all[k])) &&
              all[k].cost == m.cost + HeatAt(heat, w, h, all[k].x, all[k].y) && !AtEnd(w, h, StateOf(all[k]))
    {
      if k >= |pushed| {
        assert all[k] == more[k - |pushed|];
      }
    }
  }

  lemma MovedThen(t0: Table, t1: Table, t2: Table, pushed: seq<Move>, more: seq<Move>, params: CrucibleParameters)
    requires Moved(t0, t1, pushed, params) && Moved(t1, t2, more, params)
    ensures Moved(t0, t2, pushed + more, params)
  {
    if t1 == t0 && pushed == [] {
      assert pushed + more == more;
    } else if t2 == t1 && more == [] {
      assert pushed + more == pushed;
    } else {
      ProgressThen(t0, t1, t2, AllKeys(MaxRun(params)));
    }
  }

  lemma NextStep(heat: seq<HeatLoss>, w: nat, h: nat, params: CrucibleParameters, t0: Table, t1: Table, t2: Table,
                 m: Move, pushed: seq<Move>, turns: set<Turn>, more: seq<Move>, turn: Turn)
    requires |heat| == Mul(h, w) && |t0| == Mul(h, w) && |t1| == Mul(h, w) && |t2| == Mul(h, w)
    requires Stepped(heat, w, h, params, t0, t1, m, pushed, turns)
    requires Stepped(heat, w, h, params, t1, t2, m, more, {turn})
    ensures Stepped(heat, w, h, params, t0, t2, m, pushed + more, turns + {turn})
  {
    NoHigherThen(t0, t1, t2, w, h);
    ReachedThen(heat, w, h, params, t1, t2, m, turns, turn);
    ChangesThen(heat, w, h, params, t0, t1, t2, m, pushed, more);
    PushedThen(heat, w, h, params, m, pushed, more);
    MovedThen(t0, t1, t2, pushed, more, params);
  }

  /** After all three turns, every legal next crucible is recorded at no more
    * than the cost of getting there. */
  lemma AllTurns(heat: seq<HeatLoss>, w: nat, h: nat, params: CrucibleParameters, table': Table, m: Move)
    requires |heat| == Mul(h, w) && |table'| == Mul(h, w)
    requires ReachedBy(heat, w, h, params, table', m, {TurnLeft, TurnRight, GoStraight})
    ensures Relaxed(heat, w, h, params, table', StateOf(m), m.cost)
  {
    forall s: Crucible | Follows(w, h, params, StateOf(m), s)
      ensures Recorded(table', w, h, s) && Best(table', w, h, s) <= m.cost + HeatAt(heat, w, h, s.x, s.y)
    {
      if FollowsBy(w, h, params, StateOf(m), s, TurnLeft) {
        assert TurnLeft in {TurnLeft, TurnRight, GoStraight};
      } else if FollowsBy(w, h, params, StateOf(m), s, TurnRight) {
        assert TurnRight in {TurnLeft, TurnRight, GoStraight};
      } else {
        assert GoStraight in {TurnLeft, TurnRight, GoStraight};
      }
    }
  }

  /** Expanding a move: what `make_next_moves` leaves behind. */
  lemma NextMovesExpand(heat: seq<HeatLoss>, w: nat, h: nat, table: Table, m: Move, params: CrucibleParameters)
    requires |heat| == Mul(h, w) && |table| == Mul(h, w)
    ensures Stepped(heat, w, h, params, table, NextMoves(heat, w, h, table, m, params).0, m,
                    NextMoves(heat, w, h, table, m, params).1, {TurnLeft, TurnRight, GoStraight})
  {
    var (t1, r1) := Attempt(heat, w, h, table, m, TurnLeft, params);
    var (t2, r2) := Attempt(heat, w, h, t1, m, TurnRight, params);
    var (t3, r3) := Attempt(heat, w, h, t2, m, GoStraight, params);
    AttemptFacts(heat, w, h, table, m, TurnLeft, params);
    AttemptFacts(heat, w, h, t1, m, TurnRight, params);
    AttemptFacts(heat, w, h, t2, m, GoStraight, params);
    NextStep(heat, w, h, params, table, t1, t2, m, Pushed(r1), {TurnLeft}, Pushed(r2), TurnRight);
    NextStep(heat, w, h, params, table, t2, t3, m, Pushed(r1) + Pushed(r2), {TurnLeft, TurnRight}, Pushed(r3), GoStraight);
    assert {TurnLeft, TurnRight} + {GoStraight} == {TurnLeft, TurnRight, GoStraight};
  }

  // ---------------------------------------------------------------------
  // The moves, in place on the best-so-far grid

  /** `construct_move`: the table is updated, and the move returned, as
    * Relax says. */
  method ConstructMove(target: Target, heatLossGrid: Cells<HeatLoss>, best: Cells<map<BestSoFarKey, nat>>,
                       previous: Move, params: CrucibleParameters) returns (r: Option<Move>)
    requires heatLossGrid.Valid() && best.Valid()
    requires best.width == heatLossGrid.width && best.height == heatLossGrid.height
    modifies best
    ensures best.Valid() && best.width == heatLossGrid.width && best.height == heatLossGrid.height
    ensures (best.contents, r) ==
            Relax(heatLossGrid.contents, heatLossGrid.width, heatLossGrid.height, old(best.contents), previous.cost, target, params)
  {
    var w, h := heatLossGrid.width, heatLossGrid.height;
    if !heatLossGrid.InBounds(target.x, target.y) {
      return None;
    }
    if !CanMoveRequiredInAStraightLine(target, w, h, params) {
      return None;
    }
    var x: nat, y: nat := target.x, target.y;
    var heatLoss := heatLossGrid.Get(x, y);
    var costToGetHere := previous.cost + heatLoss.value.amount;
    var bestCostsSoFar := best.Get(x, y);
    var key := BestSoFarKey(target.direction, target.turnLastMade);
    if key in bestCostsSoFar.value && bestCostsSoFar.value[key] <= costToGetHere {
      return None;
    }
    var _ := best.Set(x, y, bestCostsSoFar.value[key := costToGetHere]);
    if x == w - 1 && y == h - 1 {
      return None;
    }
    return Some(Move(x, y, target.direction, costToGetHere, target.turnLastMade));
  }

  /** A legal turn's attempt is the relaxation of its target. */
  lemma AttemptIsRelax(heat: seq<HeatLoss>, w: nat, h: nat, table: Table, m: Move, turn: Turn, params: CrucibleParameters, target: Target)
    requires |heat| == Mul(h, w) && |table| == Mul(h, w)
    requires Candidate(StateOf(m), turn, params) == Some(target)
    ensures Attempt(heat, w, h, table, m, turn, params) == Relax(heat, w, h, table, m.cost, target, params)
  {
  }

  /** `turn_left`. */
  method TurnLeftMove(heatLossGrid: Cells<HeatLoss>, best: Cells<map<BestSoFarKey, nat>>, thisMove: Move, params: CrucibleParameters)
      returns (r: Option<Move>)
    requires heatLossGrid.Valid() && best.Valid()
    requires best.width == heatLossGrid.width && best.height == heatLossGrid.height
    modifies best
    ensures best.Valid() && best.width == heatLossGrid.width && best.height == heatLossGrid.height
    ensures (best.contents, r) ==
            Attempt(heatLossGrid.contents, heatLossGrid.width, heatLossGrid.height, old(best.contents), thisMove, TurnLeft, params)
  {
    if !TurnAllowed(thisMove.turnLastMade, params) {
      return None;
    }
    var x: int, y: int := thisMove.x, thisMove.y;
    var target := match thisMove.direction
      case Up => Target(x - 1, y, Left, 1)
      case Down => Target(x + 1, y, Right, 1)
      case Left => Target(x, y + 1, Down, 1)
      case Right => Target(x, y - 1, Up, 1);
    assert Candidate(StateOf(thisMove), TurnLeft, params) == Some(target);
    AttemptIsRelax(heatLossGrid.contents, heatLossGrid.width, heatLossGrid.height, best.contents, thisMove, TurnLeft, params, target);
    r := ConstructMove(target, heatLossGrid, best, thisMove, params);
  }

  /** `turn_right`. */
  method TurnRightMove(heatLossGrid: Cells<HeatLoss>, best: Cells<map<BestSoFarKey, nat>>, thisMove: Move, params: CrucibleParameters)
      returns (r: Option<Move>)
    requires heatLossGrid.Valid() && best.Valid()
    requires best.width == heatLossGrid.width && best.height == heatLossGrid.height
    modifies best
    ensures best.Valid() && best.width == heatLossGrid.width && best.height == heatLossGrid.height
    ensures (best.contents, r) ==
            Attempt(heatLossGrid.contents, heatLossGrid.width, heatLossGrid.height, old(best.contents), thisMove, TurnRight, params)
  {
    if !TurnAllowed(thisMove.turnLastMade, params) {
      return None;
    }
    var x: int, y: int := thisMove.x, thisMove.y;
    var target := match thisMove.direction
      case Up => Target(x + 1, y, Right, 1)
      case Down => Target(x - 1, y, Left, 1)
      case Left => Target(x, y - 1, Up, 1)
      case Right => Target(x, y + 1, Down, 1);
    assert Candidate(StateOf(thisMove), TurnRight, params) == Some(target);
    AttemptIsRelax(heatLossGrid.contents, heatLossGrid.width, heatLossGrid.height, best.contents, thisMove, TurnRight, params, target);
    r := ConstructMove(target, heatLossGrid, best, thisMove, params);
  }

  /** `go_straight`. */
  method GoStraightMove(heatLossGrid: Cells<HeatLoss>, best: Cells<map<BestSoFarKey, nat>>, thisMove: Move, params: CrucibleParameters)
      returns (r: Option<Move>)
    requires heatLossGrid.Valid() && best.Valid()
    requires best.width == heatLossGrid.width && best.height == heatLossGrid.height
    modifies best
    ensures best.Valid() && best.width == heatLossGrid.width && best.height == heatLossGrid.height
    ensures (best.contents, r) ==
            Attempt(heatLossGrid.contents, heatLossGrid.width, heatLossGrid.height, old(best.contents), thisMove, GoStraight, params)
  {
    if !ContinueStraightOnAllowed(thisMove.turnLastMade, params) {
      return None;
    }
    var x: int, y: int, t := thisMove.x, thisMove.y, thisMove.turnLastMade + 1;
    var target := match thisMove.direction
      case Up => Target(x, y - 1, Up, t)
      case Down => Target(x, y + 1, Down, t)
      case Left => Target(x - 1, y, Left, t)
      case Right => Target(x + 1, y, Right, t);
    assert Candidate(StateOf(thisMove), GoStraight, params) == Some(target);
    AttemptIsRelax(heatLossGrid.contents, heatLossGrid.width, heatLossGrid.height, best.contents, thisMove, GoStraight, params, target);
    r := ConstructMove(target, heatLossGrid, best, thisMove, params);
  }

  /** NextMoves, given the outcomes of its three attempts. */
  lemma NextMovesOf(heat: seq<HeatLoss>, w: nat, h: nat, params: CrucibleParameters, t0: Table, t1: Table, t2: Table, t3: Table,
                    m: Move, r1: Option<Move>, r2: Option<Move>, r3: Option<Move>)
    requires |heat| == Mul(h, w) && |t0| == Mul(h, w) && |t1| == Mul(h, w) && |t2| == Mul(h, w)
    requires (t1, r1) == Attempt(heat, w, h, t0, m, TurnLeft, params)
    requires (t2, r2) == Attempt(heat, w, h, t1, m, TurnRight, params)
    requires (t3, r3) == Attempt(heat, w, h, t2, m, GoStraight, params)
    ensures NextMoves(heat, w, h, t0, m, params) == (t3, Pushed(r1) + Pushed(r2) + Pushed(r3))
  {
  }

  /** `make_next_moves`: the table becomes the one NextMoves gives, and the
    * surviving moves are appended to the queue. */
  method MakeNextMoves(heatLossGrid: Cells<HeatLoss>, best: Cells<map<BestSoFarKey, nat>>, thisMove: Move,
                       currentMoves: seq<Move>, params: CrucibleParameters) returns (moves: seq<Move>)
    requires heatLossGrid.Valid() && best.Valid()
    requires best.width == heatLossGrid.width && best.height == heatLossGrid.height
    modifies best
    ensures best.Valid() && best.width == heatLossGrid.width && best.height == heatLossGrid.height
    ensures best.contents == NextMoves(heatLossGrid.contents, heatLossGrid.width, heatLossGrid.height, old(best.contents), thisMove, params).0
    ensures moves == currentMoves + NextMoves(heatLossGrid.contents, heatLossGrid.width, heatLossGrid.height, old(best.contents), thisMove, params).1
  {
    ghost var heat, w, h := heatLossGrid.contents, heatLossGrid.width, heatLossGrid.height;
    ghost var t0 := best.contents;
    moves := currentMoves;
    var left := TurnLeftMove(heatLossGrid, best, thisMove, params);
    ghost var t1 := best.contents;
    moves := moves + Pushed(left);
    var right := TurnRightMove(heatLossGrid, best, thisMove, params);
    ghost var t2 := best.contents;
    moves := moves + Pushed(right);
    var straight := GoStraightMove(heatLossGrid, best, thisMove, params);
    moves := moves + Pushed(straight);
    NextMovesOf(heat, w, h, params, t0, t1, t2, best.contents, thisMove, left, right, straight);
    assert moves == currentMoves + Pushed(left) + Pushed(right) + Pushed(straight);
  }

  // ---------------------------------------------------------------------
  // Routes across the grid

  /** The two crucibles the search starts from: at the top left, heading
    * right or down, with no cells gone yet. */
  predicate IsStart(s: Crucible) {
    s.x == 0 && s.y == 0 && s.turnLastMade == 0 && (s.direction == Right || s.direction == Down)
  }

  /** The keys `perform` primes the top-left cell with. */
  predicate StartKey(s: Crucible) {
    s.x == 0 && s.y == 0 && s.turnLastMade == 1 && (s.direction == Right || s.direction == Down)
  }

  ghost predicate AllInside(w: nat, h: nat, p: seq<Crucible>) {
    forall i | 0 <= i < |p| :: Inside(w, h, p[i].x, p[i].y)
  }

  /** A route: from a start, by legal moves, that does not pass through the
    * bottom-right cell before its end (the search stops there). */
  ghost predicate IsRoute(w: nat, h: nat, params: CrucibleParameters, p: seq<Crucible>) {
    |p| > 0 && IsStart(p[0]) && AllInside(w, h, p) &&
    (forall i | 0 <= i < |p| - 1 :: Follows(w, h, params, p[i], p[i + 1])) &&
    (forall i | 0 < i < |p| - 1 :: !AtEnd(w, h, p[i]))
  }

  /** The heat lost along a route: every cell entered, not the first. */
  function RouteCost(heat: seq<HeatLoss>, w: nat, h: nat, p: seq<Crucible>): nat
    requires |heat| == Mul(h, w) && AllInside(w, h, p)
    decreases |p|
  {
    if |p| <= 1 then 0 else RouteCost(heat, w, h, p[..|p| - 1]) + HeatAt(heat, w, h, p[|p| - 1].x, p[|p| - 1].y)
  }

  /** Some route ends at s and loses c. */
  ghost predicate Reach(heat: seq<HeatLoss>, w: nat, h: nat, params: CrucibleParameters, s: Crucible, c: nat)
    requires |heat| == Mul(h, w)
  {
    exists p :: IsRoute(w, h, params, p) && p[|p| - 1] == s && RouteCost(heat, w, h, p) == c
  }

  /** A route that ends at the bottom-right cell. */
  ghost predicate Arrives(w: nat, h: nat, params: CrucibleParameters, p: seq<Crucible>) {
    IsRoute(w, h, params, p) && AtEnd(w, h, p[|p| - 1])
  }

  /** Nothing moves into a primed key: heading right or down into the top
    * left would need a cell left of or above it. */
  lemma NoStepIntoStartKey(w: nat, h: nat, params: CrucibleParameters, a: Crucible, s: Crucible)
    requires Follows(w, h, params, a, s)
    ensures !StartKey(s) && !IsStart(s)
  {
    FollowsRun(w, h, params, a, s);
  }

  /** A route extends by a legal move from a crucible not at the end. */
  lemma ReachExtend(heat: seq<HeatLoss>, w: nat, h: nat, params: CrucibleParameters, s: Crucible, c: nat, s': Crucible)
    requires |heat| == Mul(h, w)
    requires Reach(heat, w, h, params, s, c) && !AtEnd(w, h, s) && Follows(w, h, params, s, s')
    ensures Reach(heat, w, h, params, s', c + HeatAt(heat, w, h, s'.x, s'.y))
  {
    var p :| IsRoute(w, h, params, p) && p[|p| - 1] == s && RouteCost(heat, w, h, p) == c;
    var q := p + [s'];
    assert q[..|q| - 1] == p;
    assert IsRoute(w, h, params, q);
  }

  /** One legal move from a start is a route. */
  lemma ReachFromStart(heat: seq<HeatLoss>, w: nat, h: nat, params: CrucibleParameters, s: Crucible, s': Crucible)
    requires |heat| == Mul(h, w)
    requires IsStart(s) && Inside(w, h, 0, 0) && Follows(w, h, params, s, s')
    ensures Reach(heat, w, h, params, s', HeatAt(heat, w, h, s'.x, s'.y))
  {
    var q := [s, s'];
    assert q[..1] == [s];
    assert IsRoute(w, h, params, q);
    assert RouteCost(heat, w, h, q) == RouteCost(heat, w, h, [s]) + HeatAt(heat, w, h, s'.x, s'.y);
  }

  // ---------------------------------------------------------------------
  // What holds each time round the search loop

  /** Every move from s costs what the table holds for where it lands, at
    * most: s has been expanded at cost v. */
  ghost predicate Relaxed(heat: seq<HeatLoss>, w: nat, h: nat, params: CrucibleParameters, table: Table, s: Crucible, v: nat)
    requires |heat| == Mul(h, w) && |table| == Mul(h, w)
  {
    forall s': Crucible | Follows(w, h, params, s, s') ::
      Recorded(table, w, h, s') && Best(table, w, h, s') <= v + HeatAt(heat, w, h, s'.x, s'.y)
  }

  /** A queued move is a start at no cost, or the end of a route costing
    * what the move says, short of the bottom-right cell. */
  ghost predicate Queued(heat: seq<HeatLoss>, w: nat, h: nat, params: CrucibleParameters, m: Move)
    requires |heat| == Mul(h, w)
  {
    Inside(w, h, m.x, m.y) &&
    ((IsStart(StateOf(m)) && m.cost == 0) ||
     (Reach(heat, w, h, params, StateOf(m), m.cost) && !AtEnd(w, h, StateOf(m))))
  }

  ghost predicate QueueSound(heat: seq<HeatLoss>, w: nat, h: nat, params: CrucibleParameters, queue: seq<Move>)
    requires |heat| == Mul(h, w)
  {
    forall k | 0 <= k < |queue| :: Queued(heat, w, h, params, queue[k])
  }

  /** Every recorded cost is the cost of a route, bar the primed keys. */
  ghost predicate TableSound(heat: seq<HeatLoss>, w: nat, h: nat, params: CrucibleParameters, table: Table)
    requires |heat| == Mul(h, w) && |table| == Mul(h, w)
  {
    forall s: Crucible | Recorded(table, w, h, s) ::
      Reach(heat, w, h, params, s, Best(table, w, h, s)) || (StartKey(s) && Best(table, w, h, s) == 0)
  }

  /** Every recorded crucible short of the end is waiting in the queue at
    * its recorded cost, or has been expanded at that cost. */
  ghost predicate ClosedBesides(heat: seq<HeatLoss>, w: nat, h: nat, params: CrucibleParameters, table: Table, queue: seq<Move>)
    requires |heat| == Mul(h, w) && |table| == Mul(h, w)
  {
    forall s: Crucible | Recorded(table, w, h, s) && !AtEnd(w, h, s) && !StartKey(s) ::
      MoveOf(s, Best(table, w, h, s)) in queue || Relaxed(heat, w, h, params, table, s, Best(table, w, h, s))
  }

  ghost predicate StartsHandled(heat: seq<HeatLoss>, w: nat, h: nat, params: CrucibleParameters, table: Table, queue: seq<Move>)
    requires |heat| == Mul(h, w) && |table| == Mul(h, w)
  {
    forall s: Crucible | IsStart(s) :: MoveOf(s, 0) in queue || Relaxed(heat, w, h, params, table, s, 0)
  }

  /** The primed keys stay at cost 0. */
  ghost predicate StartKeysKept(w: nat, h: nat, table: Table)
    requires |table| == Mul(h, w)
  {
    forall s: Crucible | StartKey(s) :: Recorded(table, w, h, s) && Best(table, w, h, s) == 0
  }

  ghost predicate Search(heat: seq<HeatLoss>, w: nat, h: nat, params: CrucibleParameters, table: Table, queue: seq<Move>)
    requires |heat| == Mul(h, w) && |table| == Mul(h, w)
  {
    Inside(w, h, 0, 0) &&
    QueueSound(heat, w, h, params, queue) && TableSound(heat, w, h, params, table) &&
    ClosedBesides(heat, w, h, params, table, queue) && StartsHandled(heat, w, h, params, table, queue) &&
    StartKeysKept(w, h, table)
  }

  /** A legal move from a queued move ends a route costing that move's cost
    * plus the heat lost entering the new cell. */
  lemma QueuedReaches(heat: seq<HeatLoss>, w: nat, h: nat, params: CrucibleParameters, m: Move, s: Crucible)
    requires |heat| == Mul(h, w) && Inside(w, h, 0, 0)
    requires Queued(heat, w, h, params, m) && Follows(w, h, params, StateOf(m), s)
    ensures Reach(heat, w, h, params, s, m.cost + HeatAt(heat, w, h, s.x, s.y))
  {
    if IsStart(StateOf(m)) && m.cost == 0 {
      ReachFromStart(heat, w, h, params, StateOf(m), s);
    } else {
      ReachExtend(heat, w, h, params, StateOf(m), m.cost, s);
    }
  }

  lemma RelaxedKept(heat: seq<HeatLoss>, w: nat, h: nat, params: CrucibleParameters, table: Table, table': Table, s: Crucible, v: nat)
    requires |heat| == Mul(h, w) && |table| == Mul(h, w) && |table'| == Mul(h, w)
    requires NoHigher(table, table', w, h) && Relaxed(heat, w, h, params, table, s, v)
    ensures Relaxed(heat, w, h, params, table', s, v)
  {
    forall s': Crucible | Follows(w, h, params, s, s')
      ensures Recorded(table', w, h, s') && Best(table', w, h, s') <= v + HeatAt(heat, w, h, s'.x, s'.y)
    {
      assert Recorded(table, w, h, s');
    }
  }

  /** The facts the loop body needs about one expansion of the front move. */
  ghost predicate Expansion(heat: seq<HeatLoss>, w: nat, h: nat, params: CrucibleParameters, table: Table, table': Table,
                            queue: seq<Move>, pushed: seq<Move>)
    requires |heat| == Mul(h, w) && |table| == Mul(h, w) && |table'| == Mul(h, w)
  {
    queue != [] &&
    Stepped(heat, w, h, params, table, table', queue[0], pushed, {TurnLeft, TurnRight, GoStraight}) &&
    Relaxed(heat, w, h, params, table', StateOf(queue[0]), queue[0].cost)
  }

  /** A move pushed while expanding a queued move is fit to queue. */
  lemma PushedQueued(heat: seq<HeatLoss>, w: nat, h: nat, params: CrucibleParameters, m: Move, n: Move)
    requires |heat| == Mul(h, w) && Inside(w, h, 0, 0) && Queued(heat, w, h, params, m)
    requires Follows(w, h, params, StateOf(m), StateOf(n))
    requires n.cost == m.cost + HeatAt(heat, w, h, n.x, n.y) && !AtEnd(w, h, StateOf(n))
    ensures Queued(heat, w, h, params, n)
  {
    QueuedReaches(heat, w, h, params, m, StateOf(n));
  }

  lemma QueueStep(heat: seq<HeatLoss>, w: nat, h: nat, params: CrucibleParameters, queue: seq<Move>, pushed: seq<Move>)
    requires |heat| == Mul(h, w) && Inside(w, h, 0, 0) && queue != []
    requires QueueSound(heat, w, h, params, queue) && PushedLegal(heat, w, h, params, queue[0], pushed)
    ensures QueueSound(heat, w, h, params, queue[1..] + pushed)
  {
    var q' := queue[1..] + pushed;
    forall k | 0 <= k < |q'|
      ensures Queued(heat, w, h, params, q'[k])
    {
      if k < |queue| - 1 {
        assert q'[k] == queue[k + 1];
      } else {
        assert q'[k] == pushed[k - (|queue| - 1)];
        PushedQueued(heat, w, h, params, queue[0], q'[k]);
      }
    }
  }

  lemma TableStep(heat: seq<HeatLoss>, w: nat, h: nat, params: CrucibleParameters, table: Table, table': Table,
                  queue: seq<Move>, pushed: seq<Move>)
    requires |heat| == Mul(h, w) && |table| == Mul(h, w) && |table'| == Mul(h, w)
    requires Search(heat, w, h, params, table, queue) && Expansion(heat, w, h, params, table, table', queue, pushed)
    ensures TableSound(heat, w, h, params, table')
  {
    var m := queue[0];
    assert Queued(heat, w, h, params, m);
    forall s: Crucible | Recorded(table', w, h, s)
      ensures Reach(heat, w, h, params, s, Best(table', w, h, s)) || (StartKey(s) && Best(table', w, h, s) == 0)
    {
      if Changed(table, table', w, h, s) {
        QueuedReaches(heat, w, h, params, m, s);
      } else {
        assert Recorded(table, w, h, s);
      }
    }
  }

  lemma ClosedStep(heat: seq<HeatLoss>, w: nat, h: nat, params: CrucibleParameters, table: Table, table': Table,
                   queue: seq<Move>, pushed: seq<Move>)
    requires |heat| == Mul(h, w) && |table| == Mul(h, w) && |table'| == Mul(h, w)
    requires Search(heat, w, h, params, table, queue) && Expansion(heat, w, h, params, table, table', queue, pushed)
    ensures ClosedBesides(heat, w, h, params, table', queue[1..] + pushed)
  {
    var m := queue[0];
    var q' := queue[1..] + pushed;
    forall s: Crucible | Recorded(table', w, h, s) && !AtEnd(w, h, s) && !StartKey(s)
      ensures MoveOf(s, Best(table', w, h, s)) in q' || Relaxed(heat, w, h, params, table', s, Best(table', w, h, s))
    {
      if !Changed(table, table', w, h, s) {
        assert Recorded(table, w, h, s);
        var v := Best(table, w, h, s);
        if MoveOf(s, v) in queue {
          if MoveOf(s, v) != m {
            assert MoveOf(s, v) in queue[1..];
          }
        } else {
          RelaxedKept(heat, w, h, params, table, table', s, v);
        }
      }
    }
  }

  lemma StartsStep(heat: seq<HeatLoss>, w: nat, h: nat, params: CrucibleParameters, table: Table, table': Table,
                   queue: seq<Move>, pushed: seq<Move>)
    requires |heat| == Mul(h, w) && |table| == Mul(h, w) && |table'| == Mul(h, w)
    requires Search(heat, w, h, params, table, queue) && Expansion(heat, w, h, params, table, table', queue, pushed)
    ensures StartsHandled(heat, w, h, params, table', queue[1..] + pushed)
    ensures StartKeysKept(w, h, table')
  {
    var m := queue[0];
    var q' := queue[1..] + pushed;
    forall s: Crucible | IsStart(s)
      ensures MoveOf(s, 0) in q' || Relaxed(heat, w, h, params, table', s, 0)
    {
      if MoveOf(s, 0) in queue {
        if MoveOf(s, 0) != m {
          assert MoveOf(s, 0) in queue[1..];
        }
      } else {
        RelaxedKept(heat, w, h, params, table, table', s, 0);
      }
    }
    forall s: Crucible | StartKey(s)
      ensures Recorded(table', w, h, s) && Best(table', w, h, s) == 0
    {
      assert Recorded(table, w, h, s);
    }
  }

  /** One turn of the loop keeps the search invariant. */
  lemma SearchStep(heat: seq<HeatLoss>, w: nat, h: nat, params: CrucibleParameters, table: Table, table': Table,
                   queue: seq<Move>, pushed: seq<Move>)
    requires |heat| == Mul(h, w) && |table| == Mul(h, w) && |table'| == Mul(h, w)
    requires Search(heat, w, h, params, table, queue) && Expansion(heat, w, h, params, table, table', queue, pushed)
    ensures Search(heat, w, h, params, table', queue[1..] + pushed)
  {
    QueueStep(heat, w, h, params, queue, pushed);
    TableStep(heat, w, h, params, table, table', queue, pushed);
    ClosedStep(heat, w, h, params, table, table', queue, pushed);
    StartsStep(heat, w, h, params, table, table', queue, pushed);
  }

  /** The state `perform` primes: both starts queued, their keys recorded
    * at cost 0 in the top-left cell, every other cell empty. */
  lemma StartSearch(heat: seq<HeatLoss>, w: nat, h: nat, params: CrucibleParameters, table: Table)
    requires |heat| == Mul(h, w) && |table| == Mul(h, w) && w > 0 && h > 0
    requires table[0] == map[BestSoFarKey(Right, 1) := 0, BestSoFarKey(Down, 1) := 0]
    requires forall i | 0 < i < |table| :: table[i] == map[]
    ensures Search(heat, w, h, params, table, [Move(0, 0, Right, 0, 0), Move(0, 0, Down, 0, 0)])
  {
    var queue := [Move(0, 0, Right, 0, 0), Move(0, 0, Down, 0, 0)];
    assert Queued(heat, w, h, params, queue[0]) && Queued(heat, w, h, params, queue[1]);
    forall s: Crucible | Recorded(table, w, h, s)
      ensures StartKey(s) && Best(table, w, h, s) == 0
    {
      if (s.x, s.y) != (0, 0) {
        RowMajorDistinct(s.x, s.y, 0, 0, w);
        RowMajorInRange(s.x, s.y, w, h);
      }
    }
    forall s: Crucible | StartKey(s)
      ensures Recorded(table, w, h, s) && Best(table, w, h, s) == 0
    {
      assert RowMajor(0, 0, w) == 0;
    }
    forall s: Crucible | IsStart(s)
      ensures MoveOf(s, 0) in queue
    {
      if s.direction == Right {
        assert MoveOf(s, 0) == queue[0];
      } else {
        assert MoveOf(s, 0) == queue[1];
      }
    }
  }

  /** With the queue empty, every route longer than its start is recorded
    * at its end, at no more than it costs. */
  lemma {:induction false} RouteBound(heat: seq<HeatLoss>, w: nat, h: nat, params: CrucibleParameters, table: Table, p: seq<Crucible>)
    requires |heat| == Mul(h, w) && |table| == Mul(h, w)
    requires Search(heat, w, h, params, table, []) && IsRoute(w, h, params, p) && |p| >= 2
    ensures Recorded(table, w, h, p[|p| - 1]) && Best(table, w, h, p[|p| - 1]) <= RouteCost(heat, w, h, p)
    decreases |p|
  {
    var n := |p|;
    var q := p[..n - 1];
    assert Follows(w, h, params, p[n - 2], p[n - 1]);
    if n == 2 {
      assert IsStart(p[0]);
      assert Relaxed(heat, w, h, params, table, p[0], 0);
    } else {
      assert IsRoute(w, h, params, q);
      RouteBound(heat, w, h, params, table, q);
      var s := p[n - 2];
      assert !AtEnd(w, h, s);
      assert Follows(w, h, params, p[n - 3], s);
      NoStepIntoStartKey(w, h, params, p[n - 3], s);
      assert Relaxed(heat, w, h, params, table, s, Best(table, w, h, s));
    }
  }

  /** The best-so-far map of the bottom-right cell. */
  function BottomRight(table: Table, w: nat, h: nat): map<BestSoFarKey, nat>
    requires |table| == Mul(h, w) && w > 0 && h > 0
  {
    CellAt(table, w, h, w - 1, h - 1)
  }

  /** A route that arrives without moving: the grid is one cell, whose map
    * holds the primed keys at cost 0. */
  lemma StartArrival(heat: seq<HeatLoss>, w: nat, h: nat, params: CrucibleParameters, table: Table, p: seq<Crucible>)
      returns (k: BestSoFarKey)
    requires |heat| == Mul(h, w) && |table| == Mul(h, w) && w > 0 && h > 0
    requires StartKeysKept(w, h, table) && Arrives(w, h, params, p) && |p| == 1
    ensures k in BottomRight(table, w, h) && BottomRight(table, w, h)[k] <= RouteCost(heat, w, h, p)
  {
    assert IsStart(p[0]) && w == 1 && h == 1;
    var s := Crucible(0, 0, Right, 1);
    assert StartKey(s);
    k := KeyOf(s);
  }

  /** Each route to the bottom-right cell is matched by an entry of its map
    * costing no more. */
  lemma ArrivalKey(heat: seq<HeatLoss>, w: nat, h: nat, params: CrucibleParameters, table: Table, p: seq<Crucible>)
      returns (k: BestSoFarKey)
    requires |heat| == Mul(h, w) && |table| == Mul(h, w) && w > 0 && h > 0
    requires Search(heat, w, h, params, table, []) && Arrives(w, h, params, p)
    ensures k in BottomRight(table, w, h) && BottomRight(table, w, h)[k] <= RouteCost(heat, w, h, p)
  {
    if |p| >= 2 {
      var s := p[|p| - 1];
      assert AtEnd(w, h, s);
      RouteBound(heat, w, h, params, table, p);
      k := KeyOf(s);
      assert s.x == w - 1 && s.y == h - 1;
      assert BottomRight(table, w, h) == CellAt(table, w, h, s.x, s.y);
    } else {
      assert StartKeysKept(w, h, table);
      k := StartArrival(heat, w, h, params, table, p);
    }
  }

  /** Each entry of the bottom-right map is the cost of a route there. */
  lemma KeyArrives(heat: seq<HeatLoss>, w: nat, h: nat, params: CrucibleParameters, table: Table, k: BestSoFarKey)
    requires |heat| == Mul(h, w) && |table| == Mul(h, w) && w > 0 && h > 0
    requires Search(heat, w, h, params, table, []) && k in BottomRight(table, w, h)
    ensures exists p :: Arrives(w, h, params, p) && RouteCost(heat, w, h, p) == BottomRight(table, w, h)[k]
  {
    var s := Crucible(w - 1, h - 1, k.direction, k.turnLastMade);
    assert Recorded(table, w, h, s);
    if Reach(heat, w, h, params, s, Best(table, w, h, s)) {
      var p :| IsRoute(w, h, params, p) && p[|p| - 1] == s && RouteCost(heat, w, h, p) == Best(table, w, h, s);
      assert Arrives(w, h, params, p);
    } else {
      var p := [Crucible(0, 0, Right, 0)];
      assert Arrives(w, h, params, p);
    }
  }

  /** c is the least heat lost over all routes to the bottom-right cell,
    * and some route loses exactly c. */
  ghost predicate Cheapest(heat: seq<HeatLoss>, w: nat, h: nat, params: CrucibleParameters, c: nat)
    requires |heat| == Mul(h, w)
  {
    (exists p :: Arrives(w, h, params, p) && RouteCost(heat, w, h, p) == c) &&
    (forall p | Arrives(w, h, params, p) :: c <= RouteCost(heat, w, h, p))
  }

  /** Once the queue is empty, the bottom-right map is empty exactly when no
    * route arrives, and its least entry is the cheapest route. */
  lemma SearchAnswer(heat: seq<HeatLoss>, w: nat, h: nat, params: CrucibleParameters, table: Table, least: nat)
    requires |heat| == Mul(h, w) && |table| == Mul(h, w) && w > 0 && h > 0
    requires Search(heat, w, h, params, table, [])
    ensures (exists p :: Arrives(w, h, params, p)) ==> BottomRight(table, w, h) != map[]
    ensures (exists k | k in BottomRight(table, w, h) :: BottomRight(table, w, h)[k] == least) &&
            (forall k | k in BottomRight(table, w, h) :: least <= BottomRight(table, w, h)[k]) ==>
            Cheapest(heat, w, h, params, least)
  {
    var m := BottomRight(table, w, h);
    if exists p :: Arrives(w, h, params, p) {
      var p :| Arrives(w, h, params, p);
      var k := ArrivalKey(heat, w, h, params, table, p);
    }
    if (exists k | k in m :: m[k] == least) && (forall k | k in m :: least <= m[k]) {
      var k :| k in m && m[k] == least;
      KeyArrives(heat, w, h, params, table, k);
      forall p | Arrives(w, h, params, p)
        ensures least <= RouteCost(heat, w, h, p)
      {
        var k' := ArrivalKey(heat, w, h, params, table, p);
      }
    }
  }

  /** `values().min()`: the least value of a map, None when it is empty. */
  method MinValue(m: map<BestSoFarKey, nat>) returns (r: Option<nat>)
    ensures r.None? <==> m == map[]
    ensures r.Some? ==> (exists k | k in m :: m[k] == r.value) && (forall k | k in m :: r.value <= m[k])
  {
    r := None;
    var todo := m.Keys;
    while todo != {}
      invariant todo <= m.Keys
      invariant r.None? <==> todo == m.Keys
      invariant r.Some? ==> (exists k | k in m :: m[k] == r.value) && (forall k | k in m && k !in todo :: r.value <= m[k])
      decreases todo
    {
      var k :| k in todo;
      if r.None? || m[k] < r.value {
        r := Some(m[k]);
      }
      todo := todo - {k};
    }
    if r.None? {
      assert m.Keys == {};
      assert m == map[];
    }
  }

  /** The loop of `perform`: take the front move, expand it, until the
    * queue is empty. The search invariant holds throughout. */
  method RunMoves(heatLossGrid: Cells<HeatLoss>, best: Cells<map<BestSoFarKey, nat>>, moves: seq<Move>, params: CrucibleParameters)
    requires heatLossGrid.Valid() && best.Valid()
    requires best.width == heatLossGrid.width && best.height == heatLossGrid.height
    requires Search(heatLossGrid.contents, heatLossGrid.width, heatLossGrid.height, params, best.contents, moves)
    modifies best
    ensures best.Valid() && best.width == heatLossGrid.width && best.height == heatLossGrid.height
    ensures Search(heatLossGrid.contents, heatLossGrid.width, heatLossGrid.height, params, best.contents, [])
  {
    ghost var heat, w, h := heatLossGrid.contents, heatLossGrid.width, heatLossGrid.height;
    ghost var keys := AllKeys(MaxRun(params));
    var currentMoves := moves;
    while currentMoves != []
      invariant best.Valid() && best.width == w && best.height == h
      invariant Search(heat, w, h, params, best.contents, currentMoves)
      decreases Pending(best.contents, keys), Weight(best.contents, keys), |currentMoves|
    {
      var thisMove := currentMoves[0];
      ghost var before := best.contents;
      ghost var queue := currentMoves;
      currentMoves := MakeNextMoves(heatLossGrid, best, thisMove, currentMoves[1..], params);
      ghost var pushed := NextMoves(heat, w, h, before, thisMove, params).1;
      NextMovesExpand(heat, w, h, before, thisMove, params);
      AllTurns(heat, w, h, params, best.contents, thisMove);
      assert Expansion(heat, w, h, params, before, best.contents, queue, pushed);
      SearchStep(heat, w, h, params, before, best.contents, queue, pushed);
    }
  }

  /** `perform`: the search from the top left with both starts primed, run
    * until the queue is empty; the answer is the least cost recorded at the
    * bottom right, an error when there is none. The answer exists exactly
    * when some route reaches the bottom-right cell, and is the least heat
    * lost over all such routes. */
  method Perform(heatLossGrid: Cells<HeatLoss>, params: CrucibleParameters) returns (r: Result<nat>)
    requires heatLossGrid.Valid() && heatLossGrid.width > 0 && heatLossGrid.height > 0
    ensures r.Ok? <==> exists p :: Arrives(heatLossGrid.width, heatLossGrid.height, params, p)
    ensures r.Ok? ==> Cheapest(heatLossGrid.contents, heatLossGrid.width, heatLossGrid.height, params, r.value)
  {
    var w, h := heatLossGrid.width, heatLossGrid.height;
    ghost var heat := heatLossGrid.contents;
    var best := new Cells<map<BestSoFarKey, nat>>.WithDimension(w, h, map[]);
    RowMajorInRange(0, 0, w, h);
    assert RowMajor(0, 0, w) == 0;
    var currentMoves := [Move(0, 0, Right, 0, 0)];
    var bestAtStart := best.Get(0, 0);
    var _ := best.Set(0, 0, bestAtStart.value[BestSoFarKey(Right, 1) := 0]);
    currentMoves := currentMoves + [Move(0, 0, Down, 0, 0)];
    bestAtStart := best.Get(0, 0);
    var _ := best.Set(0, 0, bestAtStart.value[BestSoFarKey(Down, 1) := 0]);
    StartSearch(heat, w, h, params, best.contents);
    RunMoves(heatLossGrid, best, currentMoves, params);
    var bottomRight := best.Get(w - 1, h - 1);
    assert bottomRight.value == BottomRight(best.contents, w, h);
    var least := MinValue(bottomRight.value);
    SearchAnswer(heat, w, h, params, best.contents, if least.Some? then least.value else 0);
    if least.None? {
      return Err("Didn't find a bottom right best");
    }
    return Ok(least.value);
  }

  /** `perform_processing_1`: a crucible that may go at most three cells
    * in a straight line. */
  method PerformProcessing1(state: Cells<HeatLoss>) returns (r: Result<nat>)
    requires state.Valid() && state.width > 0 && state.height > 0
    ensures r.Ok? <==> exists p :: Arrives(state.width, state.height, CrucibleParameters(0, 3), p)
    ensures r.Ok? ==> Cheapest(state.contents, state.width, state.height, CrucibleParameters(0, 3), r.value)
  {
    r := Perform(state, CrucibleParameters(0, 3));
  }

  /** `perform_processing_2`: an ultra crucible, at least four and at most
    * ten cells in a straight line. */
  method PerformProcessing2(state: Cells<HeatLoss>) returns (r: Result<nat>)
    requires state.Valid() && state.width > 0 && state.height > 0
    ensures r.Ok? <==> exists p :: Arrives(state.width, state.height, CrucibleParameters(4, 10), p)
    ensures r.Ok? ==> Cheapest(state.contents, state.width, state.height, CrucibleParameters(4, 10), r.value)
  {
    r := Perform(state, CrucibleParameters(4, 10));
  }
}
