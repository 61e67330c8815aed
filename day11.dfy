// Cosmic expansion: galaxies '#' on an image; every row and column
// without a galaxy grows by a fixed increment, and the answer sums the
// Manhattan distances between all pairs of expanded galaxies.
module Day11 {
  import opened Numbers

  datatype Galaxy = Galaxy(id: nat, coord: (nat, nat))

  /** The galaxies read so far, the rows and columns holding one, the row
    * the next line is and the id the next galaxy gets. */
  datatype LoadingState = LoadingState(galaxies: seq<Galaxy>, rows: set<nat>, columns: set<nat>,
                                       currentRow: nat, currentGalaxy: nat)

  // ---------------------------------------------------------------------
  // Loading

  /** The positions of the '#' characters of the line, in increasing order. */
  function Hashes(line: string): (r: seq<nat>)
    ensures forall k | 0 <= k < |r| :: r[k] < |line| && line[r[k]] == '#'
    ensures forall i | 0 <= i < |line| :: line[i] == '#' <==> i in r
    ensures forall a, b | 0 <= a < b < |r| :: r[a] < r[b]
  {
    if line == [] then []
    else
      var n := |line| - 1;
      var front := Hashes(line[..n]);
      assert forall i | 0 <= i < n :: line[..n][i] == line[i];
      front + (if line[n] == '#' then [n] else [])
  }

  /** The galaxies at the given columns of row `row`, numbered from `firstId`. */
  function NewGalaxies(columns: seq<nat>, firstId: nat, row: nat): (r: seq<Galaxy>)
    ensures |r| == |columns|
  {
    seq(|columns|, k requires 0 <= k < |columns| => Galaxy(firstId + k, (columns[k], row)))
  }

  /** Ids run 0, 1, 2, ... in the order the galaxies were found. */
  predicate IdsInOrder(galaxies: seq<Galaxy>) {
    forall k | 0 <= k < |galaxies| :: galaxies[k].id == k
  }

  /** Every galaxy's row and column are marked occupied. */
  predicate Occupied(state: LoadingState) {
    forall k | 0 <= k < |state.galaxies| ::
      state.galaxies[k].coord.0 in state.columns && state.galaxies[k].coord.1 in state.rows
  }

  /** One more character adds its position when it is a '#'. */
  lemma HashesSnoc(line: string, i: nat)
    requires i < |line|
    ensures Hashes(line[..i + 1]) == Hashes(line[..i]) + if line[i] == '#' then [i] else []
  {
    assert line[..i + 1][..i] == line[..i];
  }

  lemma NewGalaxiesSnoc(columns: seq<nat>, c: nat, firstId: nat, row: nat)
    ensures NewGalaxies(columns + [c], firstId, row) ==
              NewGalaxies(columns, firstId, row) + [Galaxy(firstId + |columns|, (c, row))]
  {
  }

  /** The state after the first `i` characters of `line`: what the
    * loop of `parse_line` keeps. */
  ghost predicate Loaded(state: LoadingState, line: string, i: nat, galaxies: seq<Galaxy>,
                         rows: set<nat>, columns: set<nat>, id: nat)
    requires i <= |line|
  {
    var found := Hashes(line[..i]);
    && galaxies == state.galaxies + NewGalaxies(found, state.currentGalaxy, state.currentRow)
    && id == state.currentGalaxy + |found|
    && (forall c :: c in columns <==> c in state.columns || c in found)
    && rows == state.rows + if found == [] then {} else {state.currentRow}
  }

  lemma LoadedStep(state: LoadingState, line: string, i: nat, galaxies: seq<Galaxy>,
                   rows: set<nat>, columns: set<nat>, id: nat)
    requires i < |line| && Loaded(state, line, i, galaxies, rows, columns, id)
    ensures line[i] == '#' ==>
              Loaded(state, line, i + 1, galaxies + [Galaxy(id, (i, state.currentRow))],
                     rows + {state.currentRow}, columns + {i}, id + 1)
    ensures line[i] != '#' ==> Loaded(state, line, i + 1, galaxies, rows, columns, id)
  {
    HashesSnoc(line, i);
    NewGalaxiesSnoc(Hashes(line[..i]), i, state.currentGalaxy, state.currentRow);
  }

  /** `parse_line`: each '#' becomes a galaxy at (column, current row) with
    * the next id, and its row and column are marked occupied; then the
    * row counter moves on. */
  method ParseLine(state: LoadingState, line: string) returns (r: LoadingState)
    ensures r.galaxies == state.galaxies + NewGalaxies(Hashes(line), state.currentGalaxy, state.currentRow)
    ensures r.currentGalaxy == state.currentGalaxy + |Hashes(line)| && r.currentRow == state.currentRow + 1
    ensures forall c :: c in r.columns <==> c in state.columns || c in Hashes(line)
    ensures r.rows == state.rows + if Hashes(line) == [] then {} else {state.currentRow}
  {
    var row := state.currentRow;
    var galaxies := state.galaxies;
    var rows: set<nat> := state.rows;
    var columns: set<nat> := state.columns;
    var id: nat := state.currentGalaxy;
    for i := 0 to |line|
      invariant Loaded(state, line, i, galaxies, rows, columns, id)
    {
      LoadedStep(state, line, i, galaxies, rows, columns, id);
      if line[i] == '#' {
        galaxies := galaxies + [Galaxy(id, (i, row))];
        rows := rows + {row};
        columns := columns + {i};
        id := id + 1;
      }
    }
    assert line[..|line|] == line;
    r := LoadingState(galaxies, rows, columns, row + 1, id);
  }

  /** Loading keeps the ids in order of discovery and every galaxy's row
    * and column marked occupied. */
  lemma ParseLineKeepsIds(state: LoadingState, line: string, r: LoadingState)
    requires r.galaxies == state.galaxies + NewGalaxies(Hashes(line), state.currentGalaxy, state.currentRow)
    requires r.currentGalaxy == state.currentGalaxy + |Hashes(line)|
    requires forall c :: c in r.columns <==> c in state.columns || c in Hashes(line)
    requires r.rows == state.rows + if Hashes(line) == [] then {} else {state.currentRow}
    ensures IdsInOrder(state.galaxies) && state.currentGalaxy == |state.galaxies| ==>
              IdsInOrder(r.galaxies) && r.currentGalaxy == |r.galaxies|
    ensures Occupied(state) ==> Occupied(r)
  {
    var n := |state.galaxies|;
    assert forall k | n <= k < |r.galaxies| ::
             r.galaxies[k] == Galaxy(state.currentGalaxy + (k - n), (Hashes(line)[k - n], state.currentRow));
  }

  // ---------------------------------------------------------------------
  // Expansion

  /** How many of 0 .. n-1 are missing from `occupied`. */
  function Empty(occupied: set<nat>, n: nat): (r: nat)
    ensures r <= n
  {
    if n == 0 then 0 else Empty(occupied, n - 1) + if n - 1 in occupied then 0 else 1
  }

  /** What the lines before n grow by: `increment` for each empty one. */
  function Growth(occupied: set<nat>, n: nat, increment: nat): nat {
    if n == 0 then 0 else Growth(occupied, n - 1, increment) + if n - 1 in occupied then 0 else increment
  }

  /** The growth is the number of empty lines times the increment. */
  lemma {:induction false} GrowthCountsEmpty(occupied: set<nat>, n: nat, increment: nat)
    ensures Growth(occupied, n, increment) == Mul(Empty(occupied, n), increment)
  {
    if n > 0 {
      GrowthCountsEmpty(occupied, n - 1, increment);
    }
  }

  /** A later line grows at least as much as an earlier one, by exactly
    * the increments of the empty lines in between. */
  lemma {:induction false} GrowthBetween(occupied: set<nat>, a: nat, b: nat, increment: nat)
    requires a <= b
    ensures Growth(occupied, a, increment) <= Growth(occupied, b, increment)
    ensures Empty(occupied, a) <= Empty(occupied, b)
    ensures Growth(occupied, b, increment) - Growth(occupied, a, increment) == Mul(Empty(occupied, b) - Empty(occupied, a), increment)
    decreases b - a
  {
    if a < b {
      GrowthBetween(occupied, a, b - 1, increment);
      EmptyMonotone(occupied, a, b - 1);
    }
  }

  lemma {:induction false} EmptyMonotone(occupied: set<nat>, a: nat, b: nat)
    requires a <= b
    ensures Empty(occupied, a) <= Empty(occupied, b)
    decreases b - a
  {
    if a < b {
      EmptyMonotone(occupied, a, b - 1);
    }
  }

  /** The galaxy moved right by `increment` per empty column to its left
    * and down by `increment` per empty row above it. */
  function Expanded(g: Galaxy, state: LoadingState, increment: nat): (r: Galaxy)
    ensures r.id == g.id && r.coord.0 >= g.coord.0 && r.coord.1 >= g.coord.1
  {
    Galaxy(g.id, (g.coord.0 + Growth(state.columns, g.coord.0, increment),
                  g.coord.1 + Growth(state.rows, g.coord.1, increment)))
  }

  /** Expansion keeps the order of columns (and rows), and the gap between
    * two of them grows by `increment` per empty line in between. */
  lemma ExpandedGap(occupied: set<nat>, increment: nat, a: nat, b: nat)
    requires a <= b
    ensures Empty(occupied, a) <= Empty(occupied, b)
    ensures var ea := a + Growth(occupied, a, increment);
            var eb := b + Growth(occupied, b, increment);
            ea <= eb && eb - ea == (b - a) + Mul(Empty(occupied, b) - Empty(occupied, a), increment)
  {
    GrowthBetween(occupied, a, b, increment);
  }

  /** `expand_galaxy`: counts the empty columns left of the galaxy and the
    * empty rows above it, one increment each. */
  method ExpandGalaxy(g: Galaxy, state: LoadingState, increment: nat) returns (r: Galaxy)
    ensures r == Expanded(g, state, increment)
  {
    var incrementX := 0;
    for i := 0 to g.coord.0
      invariant incrementX == Growth(state.columns, i, increment)
    {
      if i !in state.columns {
        incrementX := incrementX + increment;
      }
    }
    var incrementY := 0;
    for i := 0 to g.coord.1
      invariant incrementY == Growth(state.rows, i, increment)
    {
      if i !in state.rows {
        incrementY := incrementY + increment;
      }
    }
    r := Galaxy(g.id, (g.coord.0 + incrementX, g.coord.1 + incrementY));
  }

  /** `expand_universe`: every galaxy expanded, in the same order. */
  method ExpandUniverse(state: LoadingState, increment: nat) returns (r: seq<Galaxy>)
    ensures |r| == |state.galaxies|
    ensures forall k | 0 <= k < |r| :: r[k] == Expanded(state.galaxies[k], state, increment)
  {
    r := [];
    for k := 0 to |state.galaxies|
      invariant |r| == k && forall j | 0 <= j < k :: r[j] == Expanded(state.galaxies[j], state, increment)
    {
      var g := ExpandGalaxy(state.galaxies[k], state, increment);
      r := r + [g];
    }
  }

  /** `finalise_state_1`: each empty line becomes two. */
  method FinaliseState1(state: LoadingState) returns (r: seq<Galaxy>)
    ensures |r| == |state.galaxies|
    ensures forall k | 0 <= k < |r| :: r[k] == Expanded(state.galaxies[k], state, 1)
  {
    r := ExpandUniverse(state, 1);
  }

  /** `finalise_state_2`: each empty line becomes a million. */
  method FinaliseState2(state: LoadingState) returns (r: seq<Galaxy>)
    ensures |r| == |state.galaxies|
    ensures forall k | 0 <= k < |r| :: r[k] == Expanded(state.galaxies[k], state, 999999)
  {
    r := ExpandUniverse(state, 1000000 - 1);
  }

  // ---------------------------------------------------------------------
  // Distances

  /** The length of a shortest path on the grid between two galaxies. */
  function Distance(a: Galaxy, b: Galaxy): nat {
    Abs(b.coord.0 - a.coord.0) + Abs(b.coord.1 - a.coord.1)
  }

  /** The distances from galaxy i to each later galaxy. */
  function DistancesFrom(gs: seq<Galaxy>, i: nat): (r: seq<nat>)
    requires i < |gs|
    ensures |r| == |gs| - i - 1
    ensures forall k | 0 <= k < |r| :: r[k] == Distance(gs[i], gs[i + 1 + k])
  {
    seq<nat>(|gs| - i - 1, k requires 0 <= k < |gs| - i - 1 => Distance(gs[i], gs[i + 1 + k]))
  }

  /** The distances of all pairs whose first galaxy is among the first m. */
  function PairDistances(gs: seq<Galaxy>, m: nat): (r: seq<nat>)
    requires m <= |gs|
    ensures |r| == PairsBefore(|gs|, m)
  {
    if m == 0 then [] else PairDistances(gs, m - 1) + DistancesFrom(gs, m - 1)
  }

  /** The number of pairs i < j < n with i < m. */
  function PairsBefore(n: nat, m: nat): nat
    requires m <= n
  {
    if m == 0 then 0 else PairsBefore(n, m - 1) + (n - m)
  }

  /** The pairs starting among the first m galaxies number
    * m * (2n - m - 1) / 2; all pairs number n * (n - 1) / 2. */
  lemma {:induction false} PairsBeforeClosedForm(n: nat, m: nat)
    requires m <= n
    ensures 2 * PairsBefore(n, m) == m * (2 * n - m - 1)
  {
    if m > 0 {
      PairsBeforeClosedForm(n, m - 1);
      assert (m - 1) * (2 * n - m) + 2 * (n - m) == m * (2 * n - m - 1);
    }
  }

  /** Where the pair (i, j) sits in the list of distances. */
  function PairIndex(n: nat, i: nat, j: nat): nat
    requires i < j < n
  {
    PairsBefore(n, i) + (j - i - 1)
  }

  /** Later rows only add distances at the end. */
  lemma {:induction false} PairsExtend(gs: seq<Galaxy>, m: nat, m': nat)
    requires m <= m' <= |gs|
    ensures PairDistances(gs, m) <= PairDistances(gs, m')
    decreases m' - m
  {
    if m < m' {
      PairsExtend(gs, m, m' - 1);
    }
  }

  /** Each pair i < j has its distance once, at its own index. */
  lemma PairDistanceAt(gs: seq<Galaxy>, i: nat, j: nat)
    requires i < j < |gs|
    ensures PairIndex(|gs|, i, j) < |PairDistances(gs, |gs|)|
    ensures PairDistances(gs, |gs|)[PairIndex(|gs|, i, j)] == Distance(gs[i], gs[j])
  {
    PairsExtend(gs, i + 1, |gs|);
    assert PairDistances(gs, i + 1) == PairDistances(gs, i) + DistancesFrom(gs, i);
  }

  /** Distinct pairs sit at distinct indices. */
  lemma PairIndexInjective(n: nat, i: nat, j: nat, i': nat, j': nat)
    requires i < j < n && i' < j' < n && PairIndex(n, i, j) == PairIndex(n, i', j')
    ensures i == i' && j == j'
  {
    if i < i' {
      PairsBeforeGrows(n, i + 1, i');
    } else if i' < i {
      PairsBeforeGrows(n, i' + 1, i);
    }
  }

  lemma {:induction false} PairsBeforeGrows(n: nat, m: nat, m': nat)
    requires 0 < m <= m' <= n
    ensures PairsBefore(n, m - 1) + (n - m) <= PairsBefore(n, m')
    decreases m' - m
  {
    if m < m' {
      PairsBeforeGrows(n, m, m' - 1);
    }
  }

  /** Distances do not depend on which galaxy comes first. */
  lemma DistanceSymmetric(a: Galaxy, b: Galaxy)
    ensures Distance(a, b) == Distance(b, a)
  {
  }

  /** `perform_processing`: the distance for each pair i < j, row by row. */
  method PerformProcessing(galaxies: seq<Galaxy>) returns (r: seq<nat>)
    ensures r == PairDistances(galaxies, |galaxies|)
    ensures 2 * |r| == |galaxies| * (|galaxies| - 1)
  {
    r := [];
    PairsBeforeClosedForm(|galaxies|, |galaxies|);
    for i := 0 to |galaxies|
      invariant r == PairDistances(galaxies, i)
    {
      var row: seq<nat> := [];
      for j := i + 1 to |galaxies|
        invariant row == DistancesFrom(galaxies, i)[..j - i - 1]
      {
        var horizontal := galaxies[j].coord.0 - galaxies[i].coord.0;
        var vertical := galaxies[j].coord.1 - galaxies[i].coord.1;
        row := row + [Abs(horizontal) + Abs(vertical)];
      }
      r := r + row;
    }
  }

  /** `calc_result`: the sum of the distances. */
  function CalcResult(distances: seq<nat>): int {
    Sum(distances)
  }
}
