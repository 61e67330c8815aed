// The second take on the long walk: the same map of paths, forest and
// slopes, but no corridor shortcuts. Part one moves one cell at a time,
// generation by generation, and counts the cells a finished walk stood
// on. Part two is a depth-first search that remembers, for every arrival
// at a cell from a direction, the most steps and every cell seen on the
// way, and drops a visit whose cells were all seen there already.
module Day23b {
  import opened Wrappers
  import opened Grids
  import Processor
  import D = Day23

  type Pos = D.Pos
  type Tile = D.Tile
  type Direction = D.Direction

  // ---------------------------------------------------------------------
  // Part one: walks, one cell at a time

  /** A walk: the cells it has stood on and where it stands. */
  datatype Walk = Walk(visited: set<Pos>, position: Pos)

  /** The cells `calculate_next_steps` looks at from a cell: every
    * neighbour on the map from a path, only the downhill one from a
    * slope, none from forest. */
  function Candidates(g: Grid<Tile>, c: Pos, t: Tile): (r: seq<Pos>)
    ensures forall p | p in r :: g.InBounds(p.0, p.1) && Processor.Touching(p, c)
    ensures t.Path? ==> forall p: Pos | g.InBounds(p.0, p.1) && Processor.Touching(p, c) :: p in r
    ensures t.Slope? ==> forall p | p in r :: D.GetNextCoord(g, c, t.direction) == Some(p)
    ensures t.Slope? && D.GetNextCoord(g, c, t.direction).Some? ==> r == [D.GetNextCoord(g, c, t.direction).value]
    ensures t.Forest? ==> r == []
  {
    match t
    case Path => Processor.AdjacentCartesian(c, (g.width, g.height))
    case Slope(d) =>
      (match D.GetNextCoord(g, c, d)
       case None => []
       case Some(p) => [p])
    case Forest => []
  }

  /** One candidate of `calculate_next_steps`: a cell already stood on is
    * skipped; the end finishes the walk; forest is skipped; any other
    * cell continues it. */
  function Extend(g: Grid<Tile>, end: Pos, w: Walk, e: (seq<Walk>, seq<Walk>), p: Pos): (seq<Walk>, seq<Walk>)
    requires g.Valid() && g.InBounds(p.0, p.1)
  {
    var walk := Walk(w.visited + {p}, p);
    if p in w.visited then e
    else if p == end then (e.0, e.1 + [walk])
    else if g.At(p) == D.Forest then e
    else (e.0 + [walk], e.1)
  }

  lemma ExtendCases(g: Grid<Tile>, end: Pos, w: Walk, e: (seq<Walk>, seq<Walk>), p: Pos)
    requires g.Valid() && g.InBounds(p.0, p.1)
    ensures p in w.visited ==> Extend(g, end, w, e, p) == e
    ensures p !in w.visited && p == end ==> Extend(g, end, w, e, p) == (e.0, e.1 + [Walk(w.visited + {p}, p)])
    ensures p !in w.visited && p != end && g.At(p) == D.Forest ==> Extend(g, end, w, e, p) == e
    ensures p !in w.visited && p != end && g.At(p) != D.Forest ==> Extend(g, end, w, e, p) == (e.0 + [Walk(w.visited + {p}, p)], e.1)
  {
  }

  /** Every candidate is on the map. */
  predicate OnMap(g: Grid<Tile>, cands: seq<Pos>) {
    forall k | 0 <= k < |cands| :: g.InBounds(cands[k].0, cands[k].1)
  }

  /** The `calculate_next_steps` loop over the candidates, in order. */
  function Expand(g: Grid<Tile>, end: Pos, w: Walk, cands: seq<Pos>): (seq<Walk>, seq<Walk>)
    requires g.Valid() && OnMap(g, cands)
  {
    if cands == [] then ([], [])
    else
      var front := cands[..|cands| - 1];
      assert forall k | 0 <= k < |front| :: front[k] == cands[k];
      Extend(g, end, w, Expand(g, end, w, front), cands[|cands| - 1])
  }

  /** Expanding over one more candidate extends by that candidate. */
  lemma ExpandPrefix(g: Grid<Tile>, end: Pos, w: Walk, cands: seq<Pos>, i: nat)
    requires g.Valid() && OnMap(g, cands) && i < |cands|
    ensures OnMap(g, cands[..i]) && OnMap(g, cands[..i + 1]) && g.InBounds(cands[i].0, cands[i].1)
    ensures Expand(g, end, w, cands[..i + 1]) == Extend(g, end, w, Expand(g, end, w, cands[..i]), cands[i])
  {
    assert cands[..i + 1][..i] == cands[..i];
  }

  /** What the expansion of a walk holds: exactly the walks extended by
    * one candidate not stood on yet; onto the end they finish, onto a
    * cell that is neither the end nor forest they go on. */
  lemma {:induction false} ExpandMeaning(g: Grid<Tile>, end: Pos, w: Walk, cands: seq<Pos>, x: Walk)
    requires g.Valid() && OnMap(g, cands)
    ensures x in Expand(g, end, w, cands).0 <==>
              exists k | 0 <= k < |cands| :: cands[k] !in w.visited && cands[k] != end && g.At(cands[k]) != D.Forest &&
                                             x == Walk(w.visited + {cands[k]}, cands[k])
    ensures x in Expand(g, end, w, cands).1 <==>
              exists k | 0 <= k < |cands| :: cands[k] !in w.visited && cands[k] == end && x == Walk(w.visited + {end}, end)
    decreases |cands|
  {
    if cands != [] {
      var front := cands[..|cands| - 1];
      ExpandMeaning(g, end, w, front, x);
      assert forall k | 0 <= k < |front| :: front[k] == cands[k];
    }
  }

  /** A walk on the map that has stood only on cells of the map. */
  ghost predicate Sane(g: Grid<Tile>, w: Walk) {
    w.visited <= D.AllPos(g) && g.InBounds(w.position.0, w.position.1)
  }

  /** How many cells a walk has not stood on yet. */
  function Room(g: Grid<Tile>, w: Walk): nat {
    |D.AllPos(g) - w.visited|
  }

  /** The expansion of a walk from the tile it stands on. */
  function Next(g: Grid<Tile>, end: Pos, w: Walk): (seq<Walk>, seq<Walk>)
    requires g.Valid() && g.InBounds(w.position.0, w.position.1)
  {
    Expand(g, end, w, Candidates(g, w.position, g.At(w.position)))
  }

  /** Standing on one more cell of the map leaves one less to go. */
  lemma RoomShrinks(g: Grid<Tile>, w: Walk, p: Pos)
    requires Sane(g, w) && p !in w.visited && g.InBounds(p.0, p.1)
    ensures Room(g, Walk(w.visited + {p}, p)) == Room(g, w) - 1
  {
    assert D.AllPos(g) - (w.visited + {p}) == (D.AllPos(g) - w.visited) - {p};
  }

  /** Every walk a walk continues into is on the map and has less room. */
  lemma ContinuationsSmaller(g: Grid<Tile>, end: Pos, w: Walk)
    requires g.Valid() && Sane(g, w)
    ensures forall c | c in Next(g, end, w).0 :: Sane(g, c) && Room(g, c) < Room(g, w)
  {
    var cands := Candidates(g, w.position, g.At(w.position));
    forall c | c in Next(g, end, w).0
      ensures Sane(g, c) && Room(g, c) < Room(g, w)
    {
      ExpandMeaning(g, end, w, cands, c);
      var k :| 0 <= k < |cands| && cands[k] !in w.visited && c == Walk(w.visited + {cands[k]}, cands[k]);
      RoomShrinks(g, w, cands[k]);
    }
  }

  /** The largest room among some walks. */
  function MaxRoom(g: Grid<Tile>, ws: seq<Walk>): (r: nat)
    ensures forall w | w in ws :: Room(g, w) <= r
  {
    if ws == [] then 0
    else
      var m := MaxRoom(g, ws[..|ws| - 1]);
      assert forall w | w in ws :: w in ws[..|ws| - 1] || w == ws[|ws| - 1];
      if m < Room(g, ws[|ws| - 1]) then Room(g, ws[|ws| - 1]) else m
  }

  /** Walks all with less room than a bound have a largest room below it. */
  lemma {:induction false} MaxRoomBelow(g: Grid<Tile>, ws: seq<Walk>, bound: nat)
    requires ws != [] && forall w | w in ws :: Room(g, w) < bound
    ensures MaxRoom(g, ws) < bound
    decreases |ws|
  {
    if |ws| > 1 {
      var front := ws[..|ws| - 1];
      assert forall w | w in front :: w in ws;
      MaxRoomBelow(g, front, bound);
    }
  }

  /** The finished walks that grow out of a walk: the ones it finishes
    * directly and the ones growing out of each walk it goes on to. */
  ghost function Hikes(g: Grid<Tile>, end: Pos, w: Walk): set<Walk>
    requires g.Valid() && Sane(g, w)
    decreases Room(g, w), 0
  {
    var e := Next(g, end, w);
    ContinuationsSmaller(g, end, w);
    if e.0 == [] then D.Elems(e.1)
    else
      MaxRoomBelow(g, e.0, Room(g, w));
      D.Elems(e.1) + HikesFrom(g, end, e.0)
  }

  /** The finished walks growing out of each of some walks. */
  ghost function HikesFrom(g: Grid<Tile>, end: Pos, ws: seq<Walk>): set<Walk>
    requires g.Valid() && forall w | w in ws :: Sane(g, w)
    decreases MaxRoom(g, ws), 1, |ws|
  {
    if ws == [] then {}
    else
      var front := ws[..|ws| - 1];
      assert forall w | w in front :: w in ws;
      HikesFrom(g, end, front) + Hikes(g, end, ws[|ws| - 1])
  }

  /** The finished walks growing out of two lists of walks together. */
  lemma {:induction false} HikesFromConcat(g: Grid<Tile>, end: Pos, a: seq<Walk>, b: seq<Walk>)
    requires g.Valid() && (forall w | w in a :: Sane(g, w)) && forall w | w in b :: Sane(g, w)
    ensures forall w | w in a + b :: Sane(g, w)
    ensures HikesFrom(g, end, a + b) == HikesFrom(g, end, a) + HikesFrom(g, end, b)
    decreases |b|
  {
    if b == [] {
      assert a + b == a;
    } else {
      var front := b[..|b| - 1];
      assert forall w | w in front :: w in b;
      D.SplitLast(a, b);
      HikesFromConcat(g, end, a, front);
    }
  }

  /** The finished walks of a walk: the ones it finishes at once and the
    * ones growing out of each walk it continues into. */
  lemma HikesUnfold(g: Grid<Tile>, end: Pos, w: Walk)
    requires g.Valid() && Sane(g, w)
    ensures forall c | c in Next(g, end, w).0 :: Sane(g, c)
    ensures Hikes(g, end, w) == D.Elems(Next(g, end, w).1) + HikesFrom(g, end, Next(g, end, w).0)
  {
    ContinuationsSmaller(g, end, w);
  }

  lemma HikesFromSingle(g: Grid<Tile>, end: Pos, w: Walk)
    requires g.Valid() && Sane(g, w)
    ensures HikesFrom(g, end, [w]) == Hikes(g, end, w)
  {
    assert [w][..0] == [];
  }

  /** `calculate_next_steps`: the walks a walk goes on to are appended to
    * `next`, the walks it finishes to `finished`. */
  method CalculateNextSteps(g: Grid<Tile>, w: Walk, end: Pos, next: seq<Walk>, finished: seq<Walk>)
    returns (next': seq<Walk>, finished': seq<Walk>)
    requires g.Valid() && g.InBounds(w.position.0, w.position.1)
    ensures next' == next + Next(g, end, w).0
    ensures finished' == finished + Next(g, end, w).1
  {
    var currentTile := g.Get(w.position.0, w.position.1).value;
    var cands := Candidates(g, w.position, currentTile);
    assert OnMap(g, cands);
    next', finished' := next, finished;
    ghost var e: (seq<Walk>, seq<Walk>) := ([], []);
    for i := 0 to |cands|
      invariant OnMap(g, cands[..i]) && e == Expand(g, end, w, cands[..i])
      invariant next' == next + e.0 && finished' == finished + e.1
    {
      ExpandPrefix(g, end, w, cands, i);
      var p := cands[i];
      ghost var e' := Extend(g, end, w, e, p);
      ExtendCases(g, end, w, e, p);
      if p !in w.visited {
        var walk := Walk(w.visited + {p}, p);
        if p == end {
          D.AppendOne(finished, e.1, walk);
          finished' := finished' + [walk];
        } else {
          var nextTile := g.Get(p.0, p.1).value;
          if nextTile != D.Forest {
            D.AppendOne(next, e.0, walk);
            next' := next' + [walk];
          }
        }
      }
      e := e';
    }
    assert cands[..|cands|] == cands;
  }

  /** One generation of `do_walks`: every current walk is expanded in
    * turn. The finished walks growing out of the current generation are
    * the ones it finishes now and the ones growing out of the next. */
  method Generation(g: Grid<Tile>, end: Pos, current: seq<Walk>, finished: seq<Walk>)
    returns (next: seq<Walk>, finished': seq<Walk>)
    requires g.Valid() && forall w | w in current :: Sane(g, w)
    ensures forall w | w in next :: Sane(g, w) && Room(g, w) < MaxRoom(g, current)
    ensures D.Elems(finished) + HikesFrom(g, end, current) == D.Elems(finished') + HikesFrom(g, end, next)
  {
    next, finished' := [], finished;
    assert current[0..] == current;
    for i := 0 to |current|
      invariant forall w | w in next :: Sane(g, w) && Room(g, w) < MaxRoom(g, current)
      invariant forall w | w in current[i..] :: Sane(g, w)
      invariant D.Elems(finished) + HikesFrom(g, end, current) ==
                D.Elems(finished') + HikesFrom(g, end, next) + HikesFrom(g, end, current[i..])
    {
      var walk := current[i];
      assert walk in current;
      var next2, finished2 := CalculateNextSteps(g, walk, end, next, finished');
      GenerationBelow(g, end, current, i, next, next2);
      GenerationStep(g, end, current, i, next, finished', next2, finished2);
      next, finished' := next2, finished2;
    }
  }

  /** The walks continued from one of a generation have less room than
    * any of that generation. */
  lemma GenerationBelow(g: Grid<Tile>, end: Pos, current: seq<Walk>, i: nat, next: seq<Walk>, next': seq<Walk>)
    requires g.Valid() && i < |current| && Sane(g, current[i])
    requires forall w | w in next :: Sane(g, w) && Room(g, w) < MaxRoom(g, current)
    requires next' == next + Next(g, end, current[i]).0
    ensures forall w | w in next' :: Sane(g, w) && Room(g, w) < MaxRoom(g, current)
  {
    assert current[i] in current;
    ContinuationsSmaller(g, end, current[i]);
  }

  /** One walk of a generation handled: its continuations join the next
    * generation and its finished walks the collected ones, and together
    * they account for the finished walks growing out of it. */
  lemma GenerationStep(g: Grid<Tile>, end: Pos, current: seq<Walk>, i: nat,
                       next: seq<Walk>, finished: seq<Walk>, next': seq<Walk>, finished': seq<Walk>)
    requires g.Valid() && i < |current| && (forall w | w in current :: Sane(g, w)) && Sane(g, current[i])
    requires forall w | w in next :: Sane(g, w) && Room(g, w) < MaxRoom(g, current)
    requires next' == next + Next(g, end, current[i]).0
    requires finished' == finished + Next(g, end, current[i]).1
    requires forall w | w in next' :: Sane(g, w)
    ensures forall w | w in current[i..] :: Sane(g, w)
    ensures forall w | w in current[i + 1..] :: Sane(g, w)
    ensures D.Elems(finished) + HikesFrom(g, end, next) + HikesFrom(g, end, current[i..]) ==
            D.Elems(finished') + HikesFrom(g, end, next') + HikesFrom(g, end, current[i + 1..])
  {
    var w := current[i];
    assert w in current;
    var e := Next(g, end, w);
    ContinuationsSmaller(g, end, w);
    HikesUnfold(g, end, w);
    assert forall x | x in current[i..] :: x in current;
    assert forall x | x in current[i + 1..] :: x in current;
    D.SplitFirst(current, i);
    HikesFromConcat(g, end, [w], current[i + 1..]);
    HikesFromSingle(g, end, w);
    HikesFromConcat(g, end, next, e.0);
    D.ElemsConcat(finished, e.1);
    D.Regroup(D.Elems(finished), HikesFrom(g, end, next), HikesFrom(g, end, current[i..]),
              Hikes(g, end, w), HikesFrom(g, end, current[i + 1..]), D.Elems(e.1), HikesFrom(g, end, e.0),
              D.Elems(finished'), HikesFrom(g, end, next'));
  }

  /** `do_walks`: generation by generation, every walk goes on to the
    * next, swapping the current and next lists; the walks collected are
    * exactly the finished walks growing out of the walk at the start. */
  method DoWalks(g: Grid<Tile>, start: Pos, end: Pos) returns (finished: seq<Walk>)
    requires g.Valid() && g.InBounds(start.0, start.1)
    ensures Sane(g, Walk({start}, start))
    ensures D.Elems(finished) == Hikes(g, end, Walk({start}, start))
  {
    var first := Walk({start}, start);
    ghost var all := Hikes(g, end, first);
    var next := [first];
    finished := [];
    HikesFromSingle(g, end, first);
    while next != []
      invariant forall w | w in next :: Sane(g, w)
      invariant all == D.Elems(finished) + HikesFrom(g, end, next)
      decreases if next == [] then 0 else MaxRoom(g, next) + 1
    {
      var current := next;
      next, finished := Generation(g, end, current, finished);
      if next != [] {
        MaxRoomBelow(g, next, MaxRoom(g, current));
      }
    }
  }

  /** Every hike growing out of a walk stands at the end, has stood on
    * every cell the walk stood on and at least one more, and moved one
    * cell at a time from the walk's position. */
  lemma {:induction false} HikesFinish(g: Grid<Tile>, end: Pos, w: Walk, h: Walk)
    requires g.Valid() && Sane(g, w) && h in Hikes(g, end, w)
    ensures h.position == end && end in h.visited && w.visited < h.visited
    decreases Room(g, w) + 1, 0
  {
    var cands := Candidates(g, w.position, g.At(w.position));
    var e := Next(g, end, w);
    HikesUnfold(g, end, w);
    if h in D.Elems(e.1) {
      ExpandGrows(g, end, w, cands, h);
    } else {
      ContinuationsSmaller(g, end, w);
      var c := HikesFromFinish(g, end, e.0, h, Room(g, w));
      ExpandGrows(g, end, w, cands, c);
    }
  }

  /** A walk the candidates finish or continue has stood on one more
    * cell; a finished one stands at the end. */
  lemma ExpandGrows(g: Grid<Tile>, end: Pos, w: Walk, cands: seq<Pos>, x: Walk)
    requires g.Valid() && OnMap(g, cands)
    requires x in Expand(g, end, w, cands).0 || x in Expand(g, end, w, cands).1
    ensures w.visited < x.visited && x.position in x.visited
    ensures x in Expand(g, end, w, cands).1 ==> x.position == end
  {
    ExpandMeaning(g, end, w, cands, x);
    if x in Expand(g, end, w, cands).1 {
      var k :| 0 <= k < |cands| && cands[k] !in w.visited && cands[k] == end && x == Walk(w.visited + {end}, end);
    } else {
      var k :| 0 <= k < |cands| && cands[k] !in w.visited && x == Walk(w.visited + {cands[k]}, cands[k]);
    }
  }

  /** A hike growing out of one of some walks grows out of a particular
    * one of them. */
  lemma {:induction false} HikesFromFinish(g: Grid<Tile>, end: Pos, ws: seq<Walk>, h: Walk, bound: nat)
    returns (c: Walk)
    requires g.Valid() && (forall w | w in ws :: Sane(g, w) && Room(g, w) < bound) && h in HikesFrom(g, end, ws)
    ensures c in ws && h.position == end && end in h.visited && c.visited < h.visited
    decreases bound, 1, |ws|
  {
    var front := ws[..|ws| - 1];
    assert forall w | w in front :: w in ws;
    var last := ws[|ws| - 1];
    if h in HikesFrom(g, end, front) {
      c := HikesFromFinish(g, end, front, h, bound);
    } else {
      c := last;
      HikesFinish(g, end, last, h);
    }
  }

  /** The cells a walk stood on other than the start. */
  function Length(w: Walk, start: Pos): nat {
    |w.visited - {start}|
  }

  /** The longest of some walks, as `.map(count).max()`; None for none. */
  function MaxLength(ws: seq<Walk>, start: Pos): (r: Option<nat>)
    ensures r.None? <==> ws == []
    ensures r.Some? ==> (exists w | w in ws :: Length(w, start) == r.value) && forall w | w in ws :: Length(w, start) <= r.value
  {
    if ws == [] then None
    else
      var front := ws[..|ws| - 1];
      var last := ws[|ws| - 1];
      assert forall w | w in ws :: w in front || w == last;
      assert last in ws && forall w | w in front :: w in ws;
      var m := MaxLength(front, start);
      if m.None? || m.value < Length(last, start) then Some(Length(last, start)) else m
  }

  /** The start, (1, 0). */
  const Start: Pos := (1, 0)

  /** `n` is the most cells beyond the start that any walk of a set stood
    * on, and the set has one. */
  ghost predicate Longest(hikes: set<Walk>, n: nat) {
    (exists h | h in hikes :: Length(h, Start) == n) && forall h | h in hikes :: Length(h, Start) <= n
  }

  /** `perform_processing`: the most cells, other than the start, that a
    * finished walk stood on. A map less than two wide or without rows is
    * an error where the end's coordinates underflow, and no finished walk
    * is an error where `max` gives nothing to unwrap. */
  method PerformProcessing(g: Grid<Tile>) returns (r: Result<nat>)
    requires g.Valid()
    ensures g.width < 2 || g.height < 1 ==> r.Err?
    ensures g.width >= 2 && g.height >= 1 ==>
              Sane(g, Walk({Start}, Start)) && (r.Ok? <==> Hikes(g, D.EndOf(g), Walk({Start}, Start)) != {})
    ensures r.Ok? ==> g.width >= 2 && g.height >= 1 && Sane(g, Walk({Start}, Start)) &&
                      Longest(Hikes(g, D.EndOf(g), Walk({Start}, Start)), r.value)
  {
    if g.width < 2 || g.height < 1 {
      return Err("attempt to subtract with overflow");
    }
    var walks := DoWalks(g, Start, D.EndOf(g));
    var best := MaxLength(walks, Start);
    if best.None? {
      assert D.Elems(walks) == {};
      return Err("called `Option::unwrap()` on a `None` value");
    }
    assert walks[0] in D.Elems(walks);
    r := Ok(best.value);
    ghost var hikes := Hikes(g, D.EndOf(g), Walk({Start}, Start));
    assert forall h | h in hikes :: h in walks;
    assert Longest(hikes, best.value);
  }

  // ---------------------------------------------------------------------
  // Part two: a pruned depth-first search

  /** A cell reached, the steps taken to it and the cells stood on. */
  datatype Visit = Visit(coord: Pos, steps: nat, visited: set<Pos>)

  /** The key of the search's map: a cell and the direction it was
    * entered in. */
  datatype Visited = Visited(coord: Pos, direction: Direction)

  /** What the map holds per key: the most steps of an arrival and every
    * cell any arrival had stood on. */
  type Seen = map<Visited, (nat, set<Pos>)>

  /** A step from a visit in one direction, before the map is consulted:
    * nothing off the map, onto a cell stood on already or onto forest;
    * otherwise the visit one cell further and its key. */
  function Step(g: Grid<Tile>, v: Visit, d: Direction): (r: Option<(Visit, Visited)>)
    requires g.Valid()
    ensures r.Some? <==> D.GetNextCoord(g, v.coord, d).Some? && D.GetNextCoord(g, v.coord, d).value !in v.visited &&
                         g.At(D.GetNextCoord(g, v.coord, d).value) != D.Forest
    ensures r.Some? ==> var n := D.GetNextCoord(g, v.coord, d).value;
                        r.value == (Visit(n, v.steps + 1, v.visited + {n}), Visited(n, d))
  {
    var n := D.GetNextCoord(g, v.coord, d);
    if n.None? || n.value in v.visited || g.At(n.value) == D.Forest then None
    else Some((Visit(n.value, v.steps + 1, v.visited + {n.value}), Visited(n.value, d)))
  }

  /** A visit is dropped when an earlier arrival under the same key had
    * already stood on every cell it has stood on. */
  predicate Dropped(seen: Seen, v: Visit, key: Visited) {
    key in seen && v.visited <= seen[key].1
  }

  /** What one call of `go_to_next` pushes: the step, unless dropped. */
  function NextVisit(g: Grid<Tile>, seen: Seen, v: Visit, d: Direction): (r: Option<(Visit, Visited)>)
    requires g.Valid()
    ensures r.Some? ==> Step(g, v, d) == r && !Dropped(seen, v, r.value.1)
    ensures r.None? ==> Step(g, v, d).None? || Dropped(seen, v, Step(g, v, d).value.1)
  {
    var s := Step(g, v, d);
    if s.Some? && Dropped(seen, v, s.value.1) then None else s
  }

  /** The map after an arrival is recorded: the larger step count and the
    * union of the cells stood on, or the arrival's own when new. */
  function Raise(seen: Seen, key: Visited, v: Visit): Seen {
    if key in seen then seen[key := (if seen[key].0 < v.steps then v.steps else seen[key].0, seen[key].1 + v.visited)]
    else seen[key := (v.steps, v.visited)]
  }

  /** Recording an arrival never lowers the steps or loses a cell under
    * any key, records at least its steps and cells under its own key and
    * keeps every other entry. */
  lemma RaiseMeaning(seen: Seen, key: Visited, v: Visit)
    ensures var r := Raise(seen, key, v);
            key in r && v.steps <= r[key].0 && v.visited <= r[key].1 &&
            (r[key].0 == v.steps || (key in seen && r[key].0 == seen[key].0)) &&
            (forall k | k in seen :: k in r && seen[k].0 <= r[k].0 && seen[k].1 <= r[k].1) &&
            (forall k | k in r && k != key :: k in seen && r[k] == seen[k])
  {
  }

  /** The stack after a visit is pushed in front of it, when there is one. */
  function Pushed(stack: seq<Visit>, n: Option<(Visit, Visited)>): (r: seq<Visit>)
    ensures n.None? ==> r == stack
    ensures n.Some? ==> |r| == |stack| + 1 && r[0] == n.value.0 && r[1..] == stack
  {
    if n.None? then stack else [n.value.0] + stack
  }

  /** The map after a visit is recorded, when there is one. */
  function Recorded(seen: Seen, n: Option<(Visit, Visited)>): Seen {
    if n.None? then seen else Raise(seen, n.value.1, n.value.0)
  }

  /** `go_to_next`: the neighbour in one direction is skipped when off the
    * map, stood on already or forest, and dropped when an arrival under
    * its key had stood on all the visit's cells; otherwise the visit one
    * cell on is pushed on the front of the stack and recorded. */
  method GoToNext(g: Grid<Tile>, visit: Visit, visited: Seen, direction: Direction, toVisit: seq<Visit>)
    returns (visited': Seen, toVisit': seq<Visit>)
    requires g.Valid()
    ensures toVisit' == Pushed(toVisit, NextVisit(g, visited, visit, direction))
    ensures visited' == Recorded(visited, NextVisit(g, visited, visit, direction))
  {
    visited', toVisit' := visited, toVisit;
    var next := D.GetNextCoord(g, visit.coord, direction);
    if next.None? {
      return;
    }
    var nextCoord := next.value;
    if nextCoord in visit.visited {
      return;
    }
    var tile := g.Get(nextCoord.0, nextCoord.1).value;
    if tile == D.Forest {
      return;
    }
    var key := Visited(nextCoord, direction);
    if key in visited && visit.visited <= visited[key].1 {
      return;
    }
    var newVisit := Visit(nextCoord, visit.steps + 1, visit.visited + {nextCoord});
    toVisit' := [newVisit] + toVisit;
    if key in visited {
      var current := visited[key];
      visited' := visited[key := (if current.0 < newVisit.steps then newVisit.steps else current.0, current.1 + newVisit.visited)];
    } else {
      visited' := visited[key := (newVisit.steps, newVisit.visited)];
    }
  }

  /** The steps recorded under any key never go down, and neither does
    * the set of cells: the map only grows along the search. */
  lemma RecordedGrows(seen: Seen, n: Option<(Visit, Visited)>)
    ensures forall k | k in seen :: k in Recorded(seen, n) && seen[k].0 <= Recorded(seen, n)[k].0 &&
                                    seen[k].1 <= Recorded(seen, n)[k].1
  {
    if n.Some? {
      RaiseMeaning(seen, n.value.1, n.value.0);
    }
  }

  /** A visit on the map whose cells are all on the map. */
  ghost predicate SaneVisit(g: Grid<Tile>, v: Visit) {
    v.visited <= D.AllPos(g) && g.InBounds(v.coord.0, v.coord.1)
  }

  /** How many cells a visit has not stood on yet. */
  function VisitRoom(g: Grid<Tile>, v: Visit): nat {
    |D.AllPos(g) - v.visited|
  }

  /** A step from a visit on the map is on the map and has less room. */
  lemma StepSmaller(g: Grid<Tile>, v: Visit, d: Direction)
    requires g.Valid() && SaneVisit(g, v) && Step(g, v, d).Some?
    ensures SaneVisit(g, Step(g, v, d).value.0)
    ensures VisitRoom(g, Step(g, v, d).value.0) < VisitRoom(g, v)
  {
    var c := Step(g, v, d).value.0;
    assert D.AllPos(g) - c.visited == (D.AllPos(g) - v.visited) - {c.coord};
  }

  /** The order in which `perform_processing_2` tries the directions. */
  const Directions: seq<Direction> := [D.North, D.East, D.South, D.West]

  /** Every arrival, with its key, below a visit when nothing is dropped:
    * the search tree the map prunes. */
  ghost function Produced(g: Grid<Tile>, v: Visit): set<(Visit, Visited)>
    requires g.Valid() && SaneVisit(g, v)
    decreases VisitRoom(g, v), 1
  {
    ProducedDirs(g, v, Directions)
  }

  /** The arrivals below a visit through some of its directions. */
  ghost function ProducedDirs(g: Grid<Tile>, v: Visit, ds: seq<Direction>): set<(Visit, Visited)>
    requires g.Valid() && SaneVisit(g, v)
    decreases VisitRoom(g, v), 0, |ds|
  {
    if ds == [] then {}
    else
      var n := Step(g, v, ds[0]);
      if n.None? then ProducedDirs(g, v, ds[1..])
      else
        StepSmaller(g, v, ds[0]);
        {n.value} + Produced(g, n.value.0) + ProducedDirs(g, v, ds[1..])
  }

  /** Every arrival below a visit extends it by cells of the map that are
    * not forest: it stood on every cell the visit stood on and on its own
    * cell, which is its key's, and it took one step per new cell. */
  lemma {:induction false} ProducedGrows(g: Grid<Tile>, v: Visit, x: (Visit, Visited))
    requires g.Valid() && SaneVisit(g, v) && x in Produced(g, v)
    ensures v.visited < x.0.visited && x.0.coord in x.0.visited && x.0.coord == x.1.coord
    ensures x.0.steps - v.steps == |x.0.visited| - |v.visited| > 0
    ensures g.InBounds(x.0.coord.0, x.0.coord.1) && g.At(x.0.coord) != D.Forest
    decreases VisitRoom(g, v), 1
  {
    ProducedDirsGrows(g, v, Directions, x);
  }

  lemma {:induction false} ProducedDirsGrows(g: Grid<Tile>, v: Visit, ds: seq<Direction>, x: (Visit, Visited))
    requires g.Valid() && SaneVisit(g, v) && x in ProducedDirs(g, v, ds)
    ensures v.visited < x.0.visited && x.0.coord in x.0.visited && x.0.coord == x.1.coord
    ensures x.0.steps - v.steps == |x.0.visited| - |v.visited| > 0
    ensures g.InBounds(x.0.coord.0, x.0.coord.1) && g.At(x.0.coord) != D.Forest
    decreases VisitRoom(g, v), 0, |ds|
  {
    var n := Step(g, v, ds[0]);
    if n.Some? && x != n.value {
      StepSmaller(g, v, ds[0]);
      if x in Produced(g, n.value.0) {
        ProducedGrows(g, n.value.0, x);
      } else {
        ProducedDirsGrows(g, v, ds[1..], x);
      }
    } else if n.None? {
      ProducedDirsGrows(g, v, ds[1..], x);
    }
  }

  /** How many visits the search could pop below a visit. */
  ghost function Size(g: Grid<Tile>, v: Visit): nat
    requires g.Valid() && SaneVisit(g, v)
    decreases VisitRoom(g, v), 1
  {
    1 + SizeDirs(g, v, Directions)
  }

  ghost function SizeDirs(g: Grid<Tile>, v: Visit, ds: seq<Direction>): nat
    requires g.Valid() && SaneVisit(g, v)
    decreases VisitRoom(g, v), 0, |ds|
  {
    if ds == [] then 0
    else
      var n := Step(g, v, ds[0]);
      if n.None? then SizeDirs(g, v, ds[1..])
      else
        StepSmaller(g, v, ds[0]);
        Size(g, n.value.0) + SizeDirs(g, v, ds[1..])
  }

  /** The arrivals below each visit of a stack. */
  ghost function ProducedAll(g: Grid<Tile>, stack: seq<Visit>): set<(Visit, Visited)>
    requires g.Valid() && forall v | v in stack :: SaneVisit(g, v)
  {
    if stack == [] then {}
    else
      assert forall v | v in stack[1..] :: v in stack;
      Produced(g, stack[0]) + ProducedAll(g, stack[1..])
  }

  /** How many visits the search could pop from a stack. */
  ghost function SizeAll(g: Grid<Tile>, stack: seq<Visit>): nat
    requires g.Valid() && forall v | v in stack :: SaneVisit(g, v)
  {
    if stack == [] then 0
    else
      assert forall v | v in stack[1..] :: v in stack;
      Size(g, stack[0]) + SizeAll(g, stack[1..])
  }

  /** The visit pushed, as a set of none or one. */
  function Emit(n: Option<(Visit, Visited)>): set<(Visit, Visited)> {
    if n.None? then {} else {n.value}
  }

  /** The map holds, for every key, the most steps of any arrival
    * recorded under it, and nothing else. */
  ghost predicate BestOf(seen: Seen, emitted: set<(Visit, Visited)>) {
    (forall x | x in emitted :: x.1 in seen && x.0.steps <= seen[x.1].0) &&
    (forall k | k in seen :: exists x | x in emitted :: x.1 == k && x.0.steps == seen[k].0)
  }

  /** Midway through a visit's directions: what was recorded, what lies
    * below the directions left and below the stack is all in the search
    * tree from the start, and at most `size` visits remain to be popped. */
  ghost predicate Accounted(g: Grid<Tile>, target: set<(Visit, Visited)>, emitted: set<(Visit, Visited)>,
                            v: Visit, ds: seq<Direction>, stack: seq<Visit>, seen: Seen, size: nat)
    requires g.Valid()
  {
    SaneVisit(g, v) && (forall x | x in stack :: SaneVisit(g, x)) &&
    emitted + ProducedDirs(g, v, ds) + ProducedAll(g, stack) <= target &&
    SizeDirs(g, v, ds) + SizeAll(g, stack) <= size &&
    BestOf(seen, emitted)
  }

  lemma Pop(g: Grid<Tile>, target: set<(Visit, Visited)>, emitted: set<(Visit, Visited)>, stack: seq<Visit>, seen: Seen)
    requires g.Valid() && stack != [] && forall x | x in stack :: SaneVisit(g, x)
    requires emitted + ProducedAll(g, stack) <= target && BestOf(seen, emitted)
    ensures stack[0] in stack && forall x | x in stack[1..] :: SaneVisit(g, x)
    ensures SizeAll(g, stack) == 1 + SizeDirs(g, stack[0], Directions) + SizeAll(g, stack[1..])
    ensures Accounted(g, target, emitted, stack[0], Directions, stack[1..], seen,
                      SizeDirs(g, stack[0], Directions) + SizeAll(g, stack[1..]))
  {
    assert forall x | x in stack[1..] :: x in stack;
  }

  lemma Settle(g: Grid<Tile>, target: set<(Visit, Visited)>, emitted: set<(Visit, Visited)>,
               v: Visit, ds: seq<Direction>, stack: seq<Visit>, seen: Seen, size: nat)
    requires g.Valid() && ds == [] && Accounted(g, target, emitted, v, ds, stack, seen, size)
    ensures forall x | x in stack :: SaneVisit(g, x)
    ensures emitted + ProducedAll(g, stack) <= target && SizeAll(g, stack) <= size
    ensures BestOf(seen, emitted)
  {
  }

  lemma DirsUnfold(g: Grid<Tile>, v: Visit, ds: seq<Direction>)
    requires g.Valid() && SaneVisit(g, v) && ds != []
    ensures Step(g, v, ds[0]).None? ==>
              ProducedDirs(g, v, ds) == ProducedDirs(g, v, ds[1..]) && SizeDirs(g, v, ds) == SizeDirs(g, v, ds[1..])
    ensures Step(g, v, ds[0]).Some? ==>
              SaneVisit(g, Step(g, v, ds[0]).value.0) &&
              ProducedDirs(g, v, ds) == {Step(g, v, ds[0]).value} + Produced(g, Step(g, v, ds[0]).value.0) + ProducedDirs(g, v, ds[1..]) &&
              SizeDirs(g, v, ds) == Size(g, Step(g, v, ds[0]).value.0) + SizeDirs(g, v, ds[1..])
  {
    if Step(g, v, ds[0]).Some? {
      StepSmaller(g, v, ds[0]);
    }
  }

  lemma PushUnfold(g: Grid<Tile>, c: Visit, stack: seq<Visit>)
    requires g.Valid() && SaneVisit(g, c) && forall x | x in stack :: SaneVisit(g, x)
    ensures forall x | x in [c] + stack :: SaneVisit(g, x)
    ensures ProducedAll(g, [c] + stack) == Produced(g, c) + ProducedAll(g, stack)
    ensures SizeAll(g, [c] + stack) == Size(g, c) + SizeAll(g, stack)
  {
    assert ([c] + stack)[1..] == stack;
  }

  lemma Carry(g: Grid<Tile>, target: set<(Visit, Visited)>, emitted: set<(Visit, Visited)>,
              v: Visit, ds: seq<Direction>, stack: seq<Visit>, seen: Seen, size: nat, stack': seq<Visit>, seen': Seen)
    requires g.Valid() && ds != [] && Accounted(g, target, emitted, v, ds, stack, seen, size)
    requires stack' == Pushed(stack, NextVisit(g, seen, v, ds[0]))
    requires seen' == Recorded(seen, NextVisit(g, seen, v, ds[0]))
    ensures Accounted(g, target, emitted + Emit(NextVisit(g, seen, v, ds[0])), v, ds[1..], stack', seen', size)
  {
    var n := NextVisit(g, seen, v, ds[0]);
    DirsUnfold(g, v, ds);
    if n.Some? {
      CarryPushed(g, target, emitted, v, ds, stack, seen, size, n.value);
    } else {
      CarrySkipped(g, target, emitted, v, ds, stack, seen, size);
    }
  }

  /** A direction that pushes nothing leaves everything in place. */
  lemma CarrySkipped(g: Grid<Tile>, target: set<(Visit, Visited)>, emitted: set<(Visit, Visited)>,
                     v: Visit, ds: seq<Direction>, stack: seq<Visit>, seen: Seen, size: nat)
    requires g.Valid() && ds != [] && Accounted(g, target, emitted, v, ds, stack, seen, size)
    ensures Accounted(g, target, emitted, v, ds[1..], stack, seen, size)
  {
    DirsUnfold(g, v, ds);
    assert ProducedDirs(g, v, ds[1..]) <= ProducedDirs(g, v, ds);
    assert SizeDirs(g, v, ds[1..]) <= SizeDirs(g, v, ds);
  }

  /** A direction that pushes its step moves the step's subtree from the
    * directions left onto the stack. */
  lemma CarryPushed(g: Grid<Tile>, target: set<(Visit, Visited)>, emitted: set<(Visit, Visited)>,
                    v: Visit, ds: seq<Direction>, stack: seq<Visit>, seen: Seen, size: nat, x: (Visit, Visited))
    requires g.Valid() && ds != [] && Accounted(g, target, emitted, v, ds, stack, seen, size)
    requires Step(g, v, ds[0]) == Some(x)
    ensures SaneVisit(g, x.0)
    ensures Accounted(g, target, emitted + {x}, v, ds[1..], [x.0] + stack, Raise(seen, x.1, x.0), size)
  {
    DirsUnfold(g, v, ds);
    PushUnfold(g, x.0, stack);
    BestGrows(seen, emitted, x);
    RegroupBelow(target, emitted, {x}, Produced(g, x.0), ProducedDirs(g, v, ds[1..]), ProducedAll(g, stack));
  }

  lemma RegroupBelow<T>(target: set<T>, emitted: set<T>, x: set<T>, below: set<T>, rest: set<T>, stack: set<T>)
    requires emitted + (x + below + rest) + stack <= target
    ensures (emitted + x) + rest + (below + stack) <= target
  {
  }

  /** Recording one more arrival keeps the map the best of what was
    * recorded. */
  lemma BestGrows(seen: Seen, emitted: set<(Visit, Visited)>, x: (Visit, Visited))
    requires BestOf(seen, emitted)
    ensures BestOf(Raise(seen, x.1, x.0), emitted + {x})
  {
    var seen' := Raise(seen, x.1, x.0);
    RaiseMeaning(seen, x.1, x.0);
    forall k | k in seen'
      ensures exists y | y in emitted + {x} :: y.1 == k && y.0.steps == seen'[k].0
    {
      if k == x.1 && seen'[k].0 == x.0.steps {
        assert x in emitted + {x};
      } else {
        var y :| y in emitted && y.1 == k && y.0.steps == seen[k].0;
        assert y in emitted + {x};
      }
    }
  }

  /** The visit standing at the start. */
  const StartVisit: Visit := Visit(Start, 0, {Start})

  /** One `go_to_next` call, with the direction's subtree moved from the
    * directions left onto the stack. */
  method GoStep(g: Grid<Tile>, visit: Visit, visited: Seen, direction: Direction, toVisit: seq<Visit>,
                ghost target: set<(Visit, Visited)>, ghost emitted: set<(Visit, Visited)>, ghost ds: seq<Direction>, ghost size: nat)
    returns (visited': Seen, toVisit': seq<Visit>, ghost emitted': set<(Visit, Visited)>)
    requires g.Valid() && ds != [] && direction == ds[0]
    requires Accounted(g, target, emitted, visit, ds, toVisit, visited, size)
    ensures Accounted(g, target, emitted', visit, ds[1..], toVisit', visited', size)
  {
    visited', toVisit' := GoToNext(g, visit, visited, direction, toVisit);
    Carry(g, target, emitted, visit, ds, toVisit, visited, size, toVisit', visited');
    emitted' := emitted + Emit(NextVisit(g, visited, visit, direction));
  }

  /** Two `go_to_next` calls in a row. */
  method GoTwice(g: Grid<Tile>, visit: Visit, visited: Seen, first: Direction, second: Direction, toVisit: seq<Visit>,
                 ghost target: set<(Visit, Visited)>, ghost emitted: set<(Visit, Visited)>, ghost ds: seq<Direction>, ghost size: nat)
    returns (visited': Seen, toVisit': seq<Visit>, ghost emitted': set<(Visit, Visited)>)
    requires g.Valid() && |ds| >= 2 && first == ds[0] && second == ds[1]
    requires Accounted(g, target, emitted, visit, ds, toVisit, visited, size)
    ensures Accounted(g, target, emitted', visit, ds[2..], toVisit', visited', size)
  {
    visited', toVisit', emitted' := GoStep(g, visit, visited, first, toVisit, target, emitted, ds, size);
    ghost var rest := ds[1..];
    visited', toVisit', emitted' := GoStep(g, visit, visited', second, toVisit', target, emitted', rest, size);
    assert rest[1..] == ds[2..];
  }

  /** The body of the search loop: `go_to_next` from a popped visit to the
    * north, east, south and west, in that order. */
  method Explore(g: Grid<Tile>, visit: Visit, visited: Seen, toVisit: seq<Visit>,
                 ghost target: set<(Visit, Visited)>, ghost emitted: set<(Visit, Visited)>, ghost size: nat)
    returns (visited': Seen, toVisit': seq<Visit>, ghost emitted': set<(Visit, Visited)>)
    requires g.Valid() && Accounted(g, target, emitted, visit, Directions, toVisit, visited, size)
    ensures Accounted(g, target, emitted', visit, [], toVisit', visited', size)
  {
    ghost var ds := Directions;
    visited', toVisit', emitted' := GoTwice(g, visit, visited, D.North, D.East, toVisit, target, emitted, ds, size);
    ds := ds[2..];
    visited', toVisit', emitted' := GoTwice(g, visit, visited', D.South, D.West, toVisit', target, emitted', ds, size);
    assert ds[2..] == [];
  }

  /** `perform_processing_2`: a depth-first search from the start, each
    * popped visit trying north, east, south and west in turn; the answer
    * is the most steps recorded for arriving at the end heading south.
    * Every answer is the length of a real hike: an arrival at the end
    * from the north in the unpruned search tree, whose steps count the
    * cells it stood on beyond the start. Without any such arrival the
    * search records none and the `expect` fails. A map less than two
    * wide or without rows is an error where the end's coordinates
    * underflow. */
  method PerformProcessing2(g: Grid<Tile>) returns (r: Result<nat>)
    requires g.Valid()
    ensures g.width < 2 || g.height < 1 ==> r.Err?
    ensures g.width >= 2 && g.height >= 1 ==> SaneVisit(g, StartVisit)
    ensures g.width >= 2 && g.height >= 1 && (forall x | x in Produced(g, StartVisit) :: x.1 != Visited(D.EndOf(g), D.South)) ==>
              r.Err?
    ensures r.Ok? ==> g.width >= 2 && g.height >= 1 &&
                      exists x | x in Produced(g, StartVisit) :: x.1 == Visited(D.EndOf(g), D.South) && x.0.steps == r.value
  {
    if g.width < 2 || g.height < 1 {
      return Err("attempt to subtract with overflow");
    }
    var end := D.EndOf(g);
    var visited: Seen := map[];
    var toVisit: seq<Visit> := [StartVisit];
    ghost var target := Produced(g, StartVisit);
    ghost var emitted: set<(Visit, Visited)> := {};
    PushUnfold(g, StartVisit, []);
    assert toVisit == [StartVisit] + [];
    while toVisit != []
      invariant forall x | x in toVisit :: SaneVisit(g, x)
      invariant emitted + ProducedAll(g, toVisit) <= target
      invariant BestOf(visited, emitted)
      decreases SizeAll(g, toVisit)
    {
      Pop(g, target, emitted, toVisit, visited);
      var visit := toVisit[0];
      toVisit := toVisit[1..];
      ghost var size := SizeDirs(g, visit, Directions) + SizeAll(g, toVisit);
      visited, toVisit, emitted := Explore(g, visit, visited, toVisit, target, emitted, size);
      Settle(g, target, emitted, visit, [], toVisit, visited, size);
    }
    var key := Visited(end, D.South);
    if key !in visited {
      return Err("Didn't find end visit");
    }
    r := Ok(visited[key].0);
  }

  /** The steps of every arrival in the search tree from the start count
    * the cells it stood on beyond the start: the answer of part two is a
    * number of cells, as part one's is. */
  lemma ArrivalStepsCountCells(g: Grid<Tile>, x: (Visit, Visited))
    requires g.Valid() && g.width >= 2 && g.height >= 1 && SaneVisit(g, StartVisit) && x in Produced(g, StartVisit)
    ensures Start in x.0.visited && x.0.steps == |x.0.visited - {Start}|
  {
    ProducedGrows(g, StartVisit, x);
    assert |x.0.visited - {Start}| == |x.0.visited| - 1;
  }
}
