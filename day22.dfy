// Sand slabs: bricks given by two opposite corners fall, lowest first,
// until they rest on the floor or on bricks below. Part one counts the
// bricks that can be taken away without anything else falling; part two
// adds up, over every brick, how many others would fall with it.
module Day22 {
  import opened Wrappers
  import opened Numbers
  import opened Processor

  datatype Coord3 = Coord3(x: nat, y: nat, z: nat)

  function Min(a: nat, b: nat): nat {
    if a <= b then a else b
  }

  function Max(a: nat, b: nat): nat {
    if a <= b then b else a
  }

  /** A brick: its id, its two corners, and the ids of the bricks it rests
    * on and of the bricks resting on it. */
  datatype Brick = Brick(id: nat, corner1: Coord3, corner2: Coord3, supportedBy: set<nat>, supporting: set<nat>) {
    function MinX(): nat { Min(corner1.x, corner2.x) }
    function MaxX(): nat { Max(corner1.x, corner2.x) }
    function MinY(): nat { Min(corner1.y, corner2.y) }
    function MaxY(): nat { Max(corner1.y, corner2.y) }
    function MinZ(): nat { Min(corner1.z, corner2.z) }
    function MaxZ(): nat { Max(corner1.z, corner2.z) }
  }

  /** The brick covers the column (x, y). */
  predicate Covers(b: Brick, x: nat, y: nat) {
    b.MinX() <= x <= b.MaxX() && b.MinY() <= y <= b.MaxY()
  }

  /** `overlaps_x_y`: the closed x ranges and the closed y ranges meet. */
  predicate Overlaps(a: Brick, b: Brick) {
    a.MinX() <= b.MaxX() && a.MaxX() >= b.MinX() && a.MinY() <= b.MaxY() && a.MaxY() >= b.MinY()
  }

  /** Two bricks overlap exactly when some column lies under both. */
  lemma OverlapsMeaning(a: Brick, b: Brick)
    ensures Overlaps(a, b) <==> exists x: nat, y: nat :: Covers(a, x, y) && Covers(b, x, y)
  {
    if Overlaps(a, b) {
      var x := Max(a.MinX(), b.MinX());
      var y := Max(a.MinY(), b.MinY());
      assert Covers(a, x, y) && Covers(b, x, y);
    }
  }

  lemma OverlapsSymmetric(a: Brick, b: Brick)
    ensures Overlaps(a, b) <==> Overlaps(b, a)
  {
  }

  // ---------------------------------------------------------------------
  // Loading

  const Delimiters: set<char> := {',', '~'}

  /** The six numbers of a line, read as the two corners. */
  function ReadCorners(line: string): Result<(Coord3, Coord3)> {
    var x1 :- ReadNext(line, Delimiters, ParseUsize);
    var y1 :- ReadNext(x1.rest, Delimiters, ParseUsize);
    var z1 :- ReadNext(y1.rest, Delimiters, ParseUsize);
    var x2 :- ReadNext(z1.rest, Delimiters, ParseUsize);
    var y2 :- ReadNext(x2.rest, Delimiters, ParseUsize);
    var z2 :- ReadNext(y2.rest, Delimiters, ParseUsize);
    Ok((Coord3(x1.value, y1.value, z1.value), Coord3(x2.value, y2.value, z2.value)))
  }

  /** `parse_line`: an empty line changes nothing; otherwise six numbers,
    * the two corners, make a new brick whose id is the number of bricks
    * read before it and which supports and rests on nothing yet. */
  function ParseLine(state: seq<Brick>, line: string): (r: Result<seq<Brick>>)
    ensures line == [] ==> r == Ok(state)
    ensures r.Err? <==> line != [] && ReadCorners(line).Err?
    ensures r.Ok? && line != [] ==>
              |r.value| == |state| + 1 && r.value[..|state|] == state &&
              r.value[|state|] == Brick(|state|, ReadCorners(line).value.0, ReadCorners(line).value.1, {}, {})
  {
    if line == [] then Ok(state)
    else
      var (c1, c2) :- ReadCorners(line);
      var brick := Brick(|state|, c1, c2, {}, {});
      assert (state + [brick])[..|state|] == state;
      Ok(state + [brick])
  }

  /** Each brick's id is its position in the input. */
  predicate IdsInOrder(bricks: seq<Brick>) {
    forall i | 0 <= i < |bricks| :: bricks[i].id == i
  }

  /** Reading a line keeps the ids equal to the input positions. */
  lemma ParseLineKeepsOrder(state: seq<Brick>, line: string)
    requires IdsInOrder(state)
    ensures ParseLine(state, line).Ok? ==> IdsInOrder(ParseLine(state, line).value)
  {
    var r := ParseLine(state, line);
    if r.Ok? && line != [] {
      forall i | 0 <= i < |r.value|
        ensures r.value[i].id == i
      {
        if i < |state| {
          assert r.value[i] == r.value[..|state|][i];
        }
      }
    }
  }

  /** The bricks of a whole input carry their line numbers, from 0, as
    * their ids. */
  lemma {:induction false} ParsedIdsInOrder(lines: seq<string>)
    ensures ParseLines([], lines, ParseLine).Ok? ==> IdsInOrder(ParseLines([], lines, ParseLine).value)
    decreases |lines|
  {
    if lines != [] {
      ParsedIdsInOrder(lines[..|lines| - 1]);
      var before := ParseLines([], lines[..|lines| - 1], ParseLine);
      if before.Ok? {
        ParseLineKeepsOrder(before.value, lines[|lines| - 1]);
      }
    }
  }

  /** A brick as the puzzle writes it: `x,y,z~x,y,z`. */
  function ShowBrick(c1: Coord3, c2: Coord3): string {
    ShowNat(c1.x) + "," + ShowNat(c1.y) + "," + ShowNat(c1.z) + "~" +
    ShowNat(c2.x) + "," + ShowNat(c2.y) + "," + ShowNat(c2.z)
  }

  lemma ShowNatHasNoDelimiter(n: nat)
    ensures NoneIn(ShowNat(n), Delimiters)
  {
    var s := ShowNat(n);
    forall i | 0 <= i < |s| ensures s[i] !in Delimiters {
      assert IsDigit(s[i]);
    }
  }

  /** A written number followed by a delimiter reads back as that number. */
  lemma ReadShown(n: nat, d: char, rest: string)
    requires n <= USIZE_MAX && d in Delimiters
    ensures ReadNext(ShowNat(n) + [d] + rest, Delimiters, ParseUsize) == Ok(Token(n, Some(d), rest))
  {
    ShowNatHasNoDelimiter(n);
    ParseUnsignedShowNat(n, USIZE_MAX);
    NextWordSplits(ShowNat(n), d, rest, Delimiters);
  }

  /** A written number on its own reads back as that number. */
  lemma ReadLastShown(n: nat)
    requires n <= USIZE_MAX
    ensures ReadNext(ShowNat(n), Delimiters, ParseUsize) == Ok(Token(n, None, []))
  {
    ShowNatHasNoDelimiter(n);
    ParseUnsignedShowNat(n, USIZE_MAX);
    NextWordWhole(ShowNat(n), Delimiters);
  }

  /** Reading a written brick gives back its corners. */
  lemma ReadCornersShowBrick(c1: Coord3, c2: Coord3)
    requires c1.x <= USIZE_MAX && c1.y <= USIZE_MAX && c1.z <= USIZE_MAX
    requires c2.x <= USIZE_MAX && c2.y <= USIZE_MAX && c2.z <= USIZE_MAX
    ensures ReadCorners(ShowBrick(c1, c2)) == Ok((c1, c2))
  {
    var r5 := ShowNat(c2.z);
    var r4 := ShowNat(c2.y) + [','] + r5;
    var r3 := ShowNat(c2.x) + [','] + r4;
    var r2 := ShowNat(c1.z) + ['~'] + r3;
    var r1 := ShowNat(c1.y) + [','] + r2;
    var s := ShowNat(c1.x) + [','] + r1;
    assert ShowBrick(c1, c2) == s;
    ReadShown(c1.x, ',', r1);
    ReadShown(c1.y, ',', r2);
    ReadShown(c1.z, '~', r3);
    ReadShown(c2.x, ',', r4);
    ReadShown(c2.y, ',', r5);
    ReadLastShown(c2.z);
  }

  /** Reading a written brick adds it with the next id. */
  lemma ParseLineShowBrick(state: seq<Brick>, c1: Coord3, c2: Coord3)
    requires c1.x <= USIZE_MAX && c1.y <= USIZE_MAX && c1.z <= USIZE_MAX
    requires c2.x <= USIZE_MAX && c2.y <= USIZE_MAX && c2.z <= USIZE_MAX
    ensures ParseLine(state, ShowBrick(c1, c2)) == Ok(state + [Brick(|state|, c1, c2, {}, {})])
  {
    ReadCornersShowBrick(c1, c2);
    var r := ParseLine(state, ShowBrick(c1, c2));
    assert r.value == r.value[..|state|] + [r.value[|state|]];
  }

  // ---------------------------------------------------------------------
  // Sorting

  datatype Ordering = Less | Equal | Greater

  function CompareNat(a: nat, b: nat): Ordering {
    if a < b then Less else if a == b then Equal else Greater
  }

  /** `Ordering::then`: the second comparison decides only a tie. */
  function Then(first: Ordering, second: Ordering): Ordering {
    if first == Equal then second else first
  }

  /** `sortby_z_y_x`: by lowest z, then lowest y, then lowest x. */
  function SortByZYX(a: Brick, b: Brick): (r: Ordering)
  {
    Then(Then(Then(Equal, CompareNat(a.MinZ(), b.MinZ())), CompareNat(a.MinY(), b.MinY())), CompareNat(a.MinX(), b.MinX()))
  }

  /** The comparison is the lexicographic order of (lowest z, lowest y,
    * lowest x). */
  lemma SortByZYXMeaning(a: Brick, b: Brick)
    ensures SortByZYX(a, b) == Equal <==> a.MinZ() == b.MinZ() && a.MinY() == b.MinY() && a.MinX() == b.MinX()
    ensures SortByZYX(a, b) == Less <==>
              a.MinZ() < b.MinZ() ||
              (a.MinZ() == b.MinZ() && (a.MinY() < b.MinY() || (a.MinY() == b.MinY() && a.MinX() < b.MinX())))
  {
  }

  /** Swapping the arguments reverses the answer. */
  lemma SortByZYXAntisymmetric(a: Brick, b: Brick)
    ensures SortByZYX(a, b) == Less <==> SortByZYX(b, a) == Greater
    ensures SortByZYX(a, b) == Equal <==> SortByZYX(b, a) == Equal
  {
  }

  lemma SortByZYXTransitive(a: Brick, b: Brick, c: Brick)
    requires SortByZYX(a, b) != Greater && SortByZYX(b, c) != Greater
    ensures SortByZYX(a, c) != Greater
  {
  }

  predicate Sorted(s: seq<Brick>) {
    forall i, j | 0 <= i < j < |s| :: SortByZYX(s[i], s[j]) != Greater
  }

  /** Inserting after every brick that does not come strictly after it. */
  function Insert(b: Brick, s: seq<Brick>): (r: seq<Brick>)
    ensures multiset(r) == multiset(s) + multiset{b}
  {
    if s == [] then [b]
    else if SortByZYX(b, s[0]) == Less then [b] + s
    else
      assert s == [s[0]] + s[1..];
      [s[0]] + Insert(b, s[1..])
  }

  /** Putting in front a brick that comes before all others keeps a
    * sequence sorted. */
  lemma SortedCons(x: Brick, t: seq<Brick>)
    requires Sorted(t) && forall j | 0 <= j < |t| :: SortByZYX(x, t[j]) != Greater
    ensures Sorted([x] + t)
  {
    var r := [x] + t;
    forall i, j | 0 <= i < j < |r| ensures SortByZYX(r[i], r[j]) != Greater {
      if i == 0 {
        assert r[j] == t[j - 1];
      } else {
        assert r[i] == t[i - 1] && r[j] == t[j - 1];
      }
    }
  }

  /** The bricks of an insertion are the inserted one and the others. */
  lemma InsertHas(b: Brick, s: seq<Brick>, x: Brick)
    requires x in Insert(b, s)
    ensures x == b || x in s
  {
    assert x in multiset(Insert(b, s));
  }

  /** Inserting into a sorted sequence keeps it sorted. */
  lemma {:induction false} InsertSorted(b: Brick, s: seq<Brick>)
    requires Sorted(s)
    ensures Sorted(Insert(b, s))
  {
    if s == [] {
    } else if SortByZYX(b, s[0]) == Less {
      forall j | 0 <= j < |s| ensures SortByZYX(b, s[j]) != Greater {
        SortByZYXTransitive(b, s[0], s[j]);
      }
      SortedCons(b, s);
    } else {
      InsertSorted(b, s[1..]);
      InsertAfterHead(b, s);
    }
  }

  /** A brick inserted after the head leaves the head first. */
  lemma InsertAfterHead(b: Brick, s: seq<Brick>)
    requires Sorted(s) && s != [] && SortByZYX(b, s[0]) != Less && Sorted(Insert(b, s[1..]))
    ensures Sorted(Insert(b, s))
  {
    var tail := Insert(b, s[1..]);
    SortByZYXAntisymmetric(b, s[0]);
    forall j | 0 <= j < |tail| ensures SortByZYX(s[0], tail[j]) != Greater {
      InsertHas(b, s[1..], tail[j]);
      if tail[j] != b {
        var k :| 0 <= k < |s[1..]| && s[1..][k] == tail[j];
        assert s[k + 1] == tail[j];
      }
    }
    SortedCons(s[0], tail);
  }

  /** `finalise_state`: the bricks sorted by `sortby_z_y_x` (a stable
    * insertion sort: later bricks go after the ones they tie with). */
  function SortBricks(s: seq<Brick>): (r: seq<Brick>)
    ensures Sorted(r)
    ensures multiset(r) == multiset(s)
  {
    if s == [] then []
    else
      assert s == s[..|s| - 1] + [s[|s| - 1]];
      InsertSorted(s[|s| - 1], SortBricks(s[..|s| - 1]));
      Insert(s[|s| - 1], SortBricks(s[..|s| - 1]))
  }

  function FinaliseState(state: seq<Brick>): (r: Result<seq<Brick>>)
    ensures r.Ok? && Sorted(r.value) && multiset(r.value) == multiset(state)
  {
    Ok(SortBricks(state))
  }

  /** No two bricks share an id. */
  predicate DistinctIds(s: seq<Brick>) {
    forall i, j | 0 <= i < j < |s| :: s[i].id != s[j].id
  }

  /** Bricks numbered by their input position have distinct ids, and
    * sorting keeps them distinct. */
  lemma SortedIdsDistinct(state: seq<Brick>)
    requires IdsInOrder(state)
    ensures DistinctIds(SortBricks(state))
  {
    var r := SortBricks(state);
    forall i, j | 0 <= i < j < |r| ensures r[i].id != r[j].id {
      assert r[i] in multiset(state) && r[j] in multiset(state);
      var a :| 0 <= a < |state| && state[a] == r[i];
      var b :| 0 <= b < |state| && state[b] == r[j];
      if a == b {
        ElementOnce(state, a);
        CountTwice(r, i, j);
      }
    }
  }

  /** In a sequence of bricks with distinct ids each brick occurs once. */
  lemma {:induction false} ElementOnce(s: seq<Brick>, a: nat)
    requires IdsInOrder(s) && a < |s|
    ensures multiset(s)[s[a]] == 1
    decreases |s|
  {
    var last := |s| - 1;
    assert s == s[..last] + [s[last]];
    if a == last {
      assert s[last] !in s[..last];
    } else {
      assert IdsInOrder(s[..last]);
      ElementOnce(s[..last], a);
      assert s[..last][a] == s[a];
      assert s[last] != s[a];
    }
  }

  /** A brick at two positions occurs at least twice. */
  lemma CountTwice(r: seq<Brick>, i: nat, j: nat)
    requires i < j < |r| && r[i] == r[j]
    ensures multiset(r)[r[i]] >= 2
  {
    assert r == r[..j] + [r[j]] + r[j + 1..];
    assert r[i] in r[..j];
  }

  // ---------------------------------------------------------------------
  // Settling

  lemma {:induction false} LeastOf(ks: set<nat>) returns (m: nat)
    requires ks != {}
    ensures m in ks && forall k | k in ks :: m <= k
    decreases |ks|
  {
    var x :| x in ks;
    if ks - {x} == {} {
      m := x;
      forall k | k in ks ensures m <= k {
        assert k in ks - {x} || k == x;
      }
    } else {
      var n := LeastOf(ks - {x});
      m := if x < n then x else n;
      forall k | k in ks ensures m <= k {
        if k != x {
          assert k in ks - {x};
        }
      }
    }
  }

  lemma LeastExists(ks: set<nat>)
    requires ks != {}
    ensures exists m | m in ks :: forall k | k in ks :: m <= k
  {
    var m := LeastOf(ks);
  }

  /** The smallest id of a non-empty set. */
  function Least(ks: set<nat>): (m: nat)
    requires ks != {}
    ensures m in ks && forall k | k in ks :: m <= k
  {
    LeastExists(ks);
    var m :| m in ks && forall k | k in ks :: m <= k;
    m
  }

  /** `BTreeMap::values`: the bricks in increasing order of their keys. */
  function ValuesInOrder(m: map<nat, Brick>): (r: seq<Brick>)
    ensures forall b | b in r :: exists k | k in m :: m[k] == b
    ensures forall k | k in m :: m[k] in r
    decreases |m|
  {
    if m == map[] then []
    else
      var k := Least(m.Keys);
      var rest := m - {k};
      var tail := ValuesInOrder(rest);
      assert forall j | j in m && j != k :: j in rest && rest[j] == m[j];
      [m[k]] + tail
  }

  /** The fold of `place_brick` over the bricks already stacked that
    * overlap the falling one: the highest top seen so far and the ids of
    * the bricks reaching it. */
  function SupportFold(brick: Brick, others: seq<Brick>): (r: (nat, set<nat>))
    decreases |others|
  {
    if others == [] then (0, {})
    else
      var (top, supporters) := SupportFold(brick, others[..|others| - 1]);
      var other := others[|others| - 1];
      if !Overlaps(brick, other) then (top, supporters)
      else
        match CompareNat(top, other.MaxZ())
        case Equal => (top, supporters + {other.id})
        case Less => (other.MaxZ(), {other.id})
        case Greater => (top, supporters)
  }

  /** The fold finds the highest top among the overlapping bricks (0 when
    * there are none), and exactly the overlapping bricks at that top. */
  lemma {:induction false} SupportFoldMeaning(brick: Brick, others: seq<Brick>)
    ensures var (top, supporters) := SupportFold(brick, others);
              (forall o | o in others && Overlaps(brick, o) :: o.MaxZ() <= top) &&
              (top > 0 ==> exists o | o in others :: Overlaps(brick, o) && o.MaxZ() == top) &&
              (forall id :: id in supporters <==>
                 exists o | o in others :: Overlaps(brick, o) && o.MaxZ() == top && o.id == id)
    decreases |others|
  {
    if others != [] {
      var front := others[..|others| - 1];
      var other := others[|others| - 1];
      SupportFoldMeaning(brick, front);
      assert others == front + [other];
      assert forall o :: o in others <==> o in front || o == other;
    }
  }

  /** The top the falling brick comes to rest on, and its supporters. */
  function Support(brick: Brick, stacked: map<nat, Brick>): (nat, set<nat>) {
    SupportFold(brick, ValuesInOrder(stacked))
  }

  /** The same, over the stacked map: the supporters are exactly the
    * overlapping stacked bricks whose top is the highest of them. */
  lemma SupportMeaning(brick: Brick, stacked: map<nat, Brick>)
    ensures var (top, supporters) := Support(brick, stacked);
              (forall k | k in stacked && Overlaps(brick, stacked[k]) :: stacked[k].MaxZ() <= top) &&
              (top > 0 ==> exists k | k in stacked :: Overlaps(brick, stacked[k]) && stacked[k].MaxZ() == top) &&
              (forall id :: id in supporters <==>
                 exists k | k in stacked :: Overlaps(brick, stacked[k]) && stacked[k].MaxZ() == top && stacked[k].id == id)
  {
    SupportFoldMeaning(brick, ValuesInOrder(stacked));
  }

  /** The brick moved down by `drop`. */
  function Lowered(brick: Brick, drop: nat, supporters: set<nat>): Brick
    requires drop <= brick.MinZ()
  {
    Brick(brick.id, Coord3(brick.corner1.x, brick.corner1.y, brick.corner1.z - drop),
          Coord3(brick.corner2.x, brick.corner2.y, brick.corner2.z - drop), supporters, {})
  }

  /** The stacked bricks, with `id` added to the bricks of `supporters`. */
  function Raised(stacked: map<nat, Brick>, supporters: set<nat>, id: nat): map<nat, Brick> {
    map k | k in stacked :: if k in supporters then stacked[k].(supporting := stacked[k].supporting + {id}) else stacked[k]
  }

  /** What `place_brick` leaves in the stack: an error where it panics
    * (a supporter id that is not a key, or a brick whose lowest z is not
    * above the top it lands on, so that the `usize` drop underflows);
    * otherwise the supporters record the new brick, which is inserted
    * moved down to rest one above the top. */
  function Placed(brick: Brick, stacked: map<nat, Brick>): Result<map<nat, Brick>> {
    var (top, supporters) := Support(brick, stacked);
    if !(supporters <= stacked.Keys) then Err("Supporting brick is missing")
    else if brick.MinZ() <= top then Err("attempt to subtract with overflow")
    else Ok(Raised(stacked, supporters, brick.id)[brick.id := Lowered(brick, brick.MinZ() - top - 1, supporters)])
  }

  /** Raising one more supporter updates that brick alone. */
  lemma RaisedStep(stacked: map<nat, Brick>, supporters: set<nat>, pending: set<nat>, id: nat, bid: nat)
    requires id in pending && id in stacked && pending <= supporters
    ensures var before := Raised(stacked, supporters - pending, bid);
            Raised(stacked, supporters - (pending - {id}), bid) ==
              before[id := before[id].(supporting := before[id].supporting + {bid})]
  {
    assert supporters - (pending - {id}) == (supporters - pending) + {id};
  }

  lemma PlacedOk(brick: Brick, stacked: map<nat, Brick>)
    requires Support(brick, stacked).1 <= stacked.Keys && brick.MinZ() > Support(brick, stacked).0
    ensures Placed(brick, stacked) ==
              Ok(Raised(stacked, Support(brick, stacked).1, brick.id)[brick.id :=
                   Lowered(brick, brick.MinZ() - Support(brick, stacked).0 - 1, Support(brick, stacked).1)])
  {
  }

  /** The `for_each` of `place_brick`: each supporter records the new
    * brick; an error at the first supporter that is not in the stack. */
  method RaiseSupporters(stacked: map<nat, Brick>, supporters: set<nat>, id: nat) returns (r: Result<map<nat, Brick>>)
    ensures r.Ok? <==> supporters <= stacked.Keys
    ensures r.Ok? ==> r.value == Raised(stacked, supporters, id)
  {
    var raised := stacked;
    var pending := supporters;
    while pending != {}
      invariant pending <= supporters
      invariant supporters - pending <= stacked.Keys
      invariant raised == Raised(stacked, supporters - pending, id)
      decreases |pending|
    {
      var next :| next in pending;
      if next !in raised {
        assert raised.Keys == stacked.Keys;
        return Err("Supporting brick is missing");
      }
      RaisedStep(stacked, supporters, pending, next, id);
      raised := raised[next := raised[next].(supporting := raised[next].supporting + {id})];
      pending := pending - {next};
    }
    assert supporters - pending == supporters;
    r := Ok(raised);
  }

  /** `place_brick`. */
  method PlaceBrick(brick: Brick, stacked: map<nat, Brick>) returns (r: Result<map<nat, Brick>>)
    ensures r == Placed(brick, stacked)
  {
    var top := Support(brick, stacked).0;
    var supporters := Support(brick, stacked).1;
    var raised := RaiseSupporters(stacked, supporters, brick.id);
    if raised.Err? {
      return Err("Supporting brick is missing");
    }
    if brick.MinZ() <= top {
      return Err("attempt to subtract with overflow");
    }
    PlacedOk(brick, stacked);
    r := Ok(raised.value[brick.id := Lowered(brick, brick.MinZ() - top - 1, supporters)]);
  }

  /** A placed brick rests one above the top it landed on, keeps its x, y
    * and height, and rests on the supporters; the supporters gain its id
    * and nothing else in the stack changes. */
  lemma PlacedMeaning(brick: Brick, stacked: map<nat, Brick>)
    requires Placed(brick, stacked).Ok?
    ensures var m := Placed(brick, stacked).value;
            var (top, supporters) := Support(brick, stacked);
            brick.id in m && m.Keys == stacked.Keys + {brick.id} &&
            m[brick.id].MinZ() == top + 1 && m[brick.id].MaxZ() - m[brick.id].MinZ() == brick.MaxZ() - brick.MinZ() &&
            m[brick.id].corner1.x == brick.corner1.x && m[brick.id].corner1.y == brick.corner1.y &&
            m[brick.id].corner2.x == brick.corner2.x && m[brick.id].corner2.y == brick.corner2.y &&
            m[brick.id].supportedBy == supporters && m[brick.id].supporting == {} &&
            (forall k | k in stacked && k != brick.id ::
               m[k] == if k in supporters then stacked[k].(supporting := stacked[k].supporting + {brick.id}) else stacked[k])
  {
  }

  lemma PlacedKeys(brick: Brick, stacked: map<nat, Brick>)
    requires Placed(brick, stacked).Ok?
    ensures Placed(brick, stacked).value.Keys == stacked.Keys + {brick.id}
  {
  }

  /** `perform_processing`: the bricks placed in order, from an empty stack. */
  function Settle(bricks: seq<Brick>): Result<map<nat, Brick>>
    decreases |bricks|
  {
    if bricks == [] then Ok(map[])
    else
      match Settle(bricks[..|bricks| - 1])
      case Err(e) => Err(e)
      case Ok(m) => Placed(bricks[|bricks| - 1], m)
  }

  method PerformProcessing(bricks: seq<Brick>) returns (r: Result<map<nat, Brick>>)
    ensures r == Settle(bricks)
  {
    var stacked: map<nat, Brick> := map[];
    for i := 0 to |bricks|
      invariant Settle(bricks[..i]) == Ok(stacked)
    {
      assert bricks[..i + 1][..i] == bricks[..i];
      var placed := PlaceBrick(bricks[i], stacked);
      if placed.Err? {
        assert bricks[..i + 1][..i] == bricks[..i];
        SettleErr(bricks, i + 1, placed.error);
        return placed;
      }
      stacked := placed.value;
    }
    assert bricks[..|bricks|] == bricks;
    r := Ok(stacked);
  }

  /** Once placing a brick fails, the whole settling fails the same way. */
  lemma {:induction false} SettleErr(bricks: seq<Brick>, i: nat, e: string)
    requires 0 < i <= |bricks| && Settle(bricks[..i]) == Err(e)
    ensures Settle(bricks) == Err(e)
    decreases |bricks| - i
  {
    if i < |bricks| {
      assert bricks[..i + 1][..i] == bricks[..i];
      SettleErr(bricks, i + 1, e);
    } else {
      assert bricks[..i] == bricks;
    }
  }

  // ---------------------------------------------------------------------
  // The links of a settled stack

  /** Every brick is stored under its id, every brick it rests on is in
    * the stack, lists it as supported and has its top just below it, and
    * every brick it supports is in the stack and lists it as a supporter. */
  ghost predicate Linked(m: map<nat, Brick>) {
    Keyed(m) && RestsOnSupporters(m) && SupportsMirrored(m)
  }

  ghost predicate Keyed(m: map<nat, Brick>) {
    forall k | k in m :: m[k].id == k
  }

  ghost predicate RestsOnSupporters(m: map<nat, Brick>) {
    forall k, s | k in m && s in m[k].supportedBy :: s in m && k in m[s].supporting && m[s].MaxZ() + 1 == m[k].MinZ()
  }

  ghost predicate SupportsMirrored(m: map<nat, Brick>) {
    forall k, s | k in m && s in m[k].supporting :: s in m && k in m[s].supportedBy
  }

  /** In a stack keyed by id the supporters are stacked bricks whose top
    * is the top the new brick lands on. */
  lemma SupportersAtTop(brick: Brick, stacked: map<nat, Brick>)
    requires forall k | k in stacked :: stacked[k].id == k
    ensures forall s | s in Support(brick, stacked).1 :: s in stacked && stacked[s].MaxZ() == Support(brick, stacked).0
  {
    var (top, supporters) := Support(brick, stacked);
    SupportMeaning(brick, stacked);
    forall s | s in supporters ensures s in stacked && stacked[s].MaxZ() == top {
      var k :| k in stacked && Overlaps(brick, stacked[k]) && stacked[k].MaxZ() == top && stacked[k].id == s;
    }
  }

  /** A stack that differs from a linked one only by a new brick resting
    * on bricks at a common top, with those bricks now supporting it. */
  ghost predicate PlacedOn(stacked: map<nat, Brick>, m: map<nat, Brick>, nb: Brick, top: nat) {
    nb.id !in stacked &&
    m.Keys == stacked.Keys + {nb.id} && m[nb.id] == nb && nb.supporting == {} && nb.MinZ() == top + 1 &&
    (forall s | s in nb.supportedBy :: s in stacked && stacked[s].MaxZ() == top) &&
    (forall k | k in stacked ::
       m[k].corner1 == stacked[k].corner1 && m[k].corner2 == stacked[k].corner2 &&
       m[k].id == stacked[k].id && m[k].supportedBy == stacked[k].supportedBy &&
       m[k].supporting == if k in nb.supportedBy then stacked[k].supporting + {nb.id} else stacked[k].supporting)
  }

  lemma KeyedAfterPlacing(stacked: map<nat, Brick>, m: map<nat, Brick>, nb: Brick, top: nat)
    requires Linked(stacked) && PlacedOn(stacked, m, nb, top)
    ensures Keyed(m)
  {
  }

  lemma SupportedByAfterPlacing(stacked: map<nat, Brick>, m: map<nat, Brick>, nb: Brick, top: nat)
    requires Linked(stacked) && PlacedOn(stacked, m, nb, top)
    ensures RestsOnSupporters(m)
  {
    forall k, s | k in m && s in m[k].supportedBy
      ensures s in m && k in m[s].supporting && m[s].MaxZ() + 1 == m[k].MinZ()
    {
      if k != nb.id {
        assert s in stacked[k].supportedBy;
      }
    }
  }

  lemma SupportingAfterPlacing(stacked: map<nat, Brick>, m: map<nat, Brick>, nb: Brick, top: nat)
    requires Linked(stacked) && PlacedOn(stacked, m, nb, top)
    ensures SupportsMirrored(m)
  {
    forall k, s | k in m && s in m[k].supporting
      ensures s in m && k in m[s].supportedBy
    {
      if k in stacked && s != nb.id {
        assert s in stacked[k].supporting;
      }
    }
  }

  /** Such a stack is linked. */
  lemma LinkedAfterPlacing(stacked: map<nat, Brick>, m: map<nat, Brick>, nb: Brick, top: nat)
    requires Linked(stacked) && PlacedOn(stacked, m, nb, top)
    ensures Linked(m)
  {
    KeyedAfterPlacing(stacked, m, nb, top);
    SupportedByAfterPlacing(stacked, m, nb, top);
    SupportingAfterPlacing(stacked, m, nb, top);
  }

  /** Placing a brick with a new id keeps the links of the stack. */
  lemma PlacedLinked(brick: Brick, stacked: map<nat, Brick>)
    requires Linked(stacked) && brick.id !in stacked && Placed(brick, stacked).Ok?
    ensures Linked(Placed(brick, stacked).value)
  {
    var m := Placed(brick, stacked).value;
    SupportersAtTop(brick, stacked);
    PlacedMeaning(brick, stacked);
    LinkedAfterPlacing(stacked, m, m[brick.id], Support(brick, stacked).0);
  }

  /** The ids of a sequence of bricks. */
  function Ids(bricks: seq<Brick>): set<nat> {
    set b | b in bricks :: b.id
  }

  /** The last of bricks with distinct ids has an id none of the others
    * has. */
  lemma LastIdFresh(bricks: seq<Brick>)
    requires DistinctIds(bricks) && bricks != []
    ensures bricks[|bricks| - 1].id !in Ids(bricks[..|bricks| - 1])
    ensures DistinctIds(bricks[..|bricks| - 1])
  {
    var front := bricks[..|bricks| - 1];
    forall b | b in front ensures b.id != bricks[|bricks| - 1].id {
      var i :| 0 <= i < |front| && front[i] == b;
      assert bricks[i] == b;
    }
  }

  lemma IdsSnoc(bricks: seq<Brick>)
    requires bricks != []
    ensures Ids(bricks) == Ids(bricks[..|bricks| - 1]) + {bricks[|bricks| - 1].id}
  {
    assert bricks == bricks[..|bricks| - 1] + [bricks[|bricks| - 1]];
  }

  /** Settling bricks with distinct ids gives a linked stack holding
    * exactly their ids. */
  lemma {:induction false} SettleLinked(bricks: seq<Brick>)
    requires DistinctIds(bricks)
    ensures Settle(bricks).Ok? ==> Linked(Settle(bricks).value) && Settle(bricks).value.Keys == Ids(bricks)
    decreases |bricks|
  {
    if bricks != [] && Settle(bricks).Ok? {
      LastIdFresh(bricks);
      SettleLinked(bricks[..|bricks| - 1]);
      PlacedLinked(bricks[|bricks| - 1], Settle(bricks[..|bricks| - 1]).value);
      PlacedKeys(bricks[|bricks| - 1], Settle(bricks[..|bricks| - 1]).value);
      IdsSnoc(bricks);
    }
  }

  /** The stack built from a read and sorted input is linked. */
  lemma ProcessedLinked(lines: seq<string>)
    requires ParseLines([], lines, ParseLine).Ok?
    ensures var bricks := SortBricks(ParseLines([], lines, ParseLine).value);
            Settle(bricks).Ok? ==> Linked(Settle(bricks).value)
  {
    ParsedIdsInOrder(lines);
    SortedIdsDistinct(ParseLines([], lines, ParseLine).value);
    SettleLinked(SortBricks(ParseLines([], lines, ParseLine).value));
  }

  // ---------------------------------------------------------------------
  // Part one

  /** Every id a brick says it supports is a key of the stack. */
  ghost predicate Closed(m: map<nat, Brick>) {
    forall k, s | k in m && s in m[k].supporting :: s in m
  }

  /** A brick can be taken away when every brick resting on it rests on
    * at least one other brick. */
  predicate Removable(state: map<nat, Brick>, b: Brick) {
    forall s | s in b.supporting :: s in state && |state[s].supportedBy| > 1
  }

  /** The inner loop of `calc_result`: stops at the first supported brick
    * with a single supporter. */
  method CanDisintegrate(state: map<nat, Brick>, brick: Brick) returns (ok: bool)
    requires forall s | s in brick.supporting :: s in state
    ensures ok == Removable(state, brick)
  {
    var pending := brick.supporting;
    while pending != {}
      invariant pending <= brick.supporting
      invariant forall s | s in brick.supporting - pending :: |state[s].supportedBy| > 1
      decreases |pending|
    {
      var id :| id in pending;
      if |state[id].supportedBy| <= 1 {
        return false;
      }
      pending := pending - {id};
    }
    return true;
  }

  /** The ids among `ks` of the bricks that can be taken away. */
  function RemovableAmong(state: map<nat, Brick>, ks: set<nat>): set<nat> {
    set k | k in ks && k in state && Removable(state, state[k])
  }

  /** Looking at one more brick adds one when it can be taken away. */
  lemma RemovableAmongAdd(state: map<nat, Brick>, done: set<nat>, k: nat)
    requires k in state && k !in done
    ensures |RemovableAmong(state, done + {k})| == |RemovableAmong(state, done)| + if Removable(state, state[k]) then 1 else 0
  {
    assert RemovableAmong(state, done + {k}) == RemovableAmong(state, done) + if Removable(state, state[k]) then {k} else {};
  }

  /** `calc_result`: the number of bricks that can be taken away. */
  method CalcResult(state: map<nat, Brick>) returns (r: nat)
    requires Closed(state)
    ensures r == |RemovableAmong(state, state.Keys)|
  {
    var pending := state.Keys;
    r := 0;
    while pending != {}
      invariant pending <= state.Keys
      invariant r == |RemovableAmong(state, state.Keys - pending)|
      decreases |pending|
    {
      var k := Least(pending);
      var ok := CanDisintegrate(state, state[k]);
      ghost var done := state.Keys - pending;
      pending := pending - {k};
      RemovableAmongAdd(state, done, k);
      assert state.Keys - pending == done + {k};
      if ok {
        r := r + 1;
      }
    }
    assert state.Keys - pending == state.Keys;
  }

  // ---------------------------------------------------------------------
  // Part two

  /** A set of fallen bricks is closed when every brick resting on one of
    * them whose supporters have all fallen has fallen too. */
  ghost predicate ClosedUnder(state: map<nat, Brick>, fallen: set<nat>) {
    forall f, s | f in fallen && f in state && s in state[f].supporting && s in state ::
      state[s].supportedBy <= fallen ==> s in fallen
  }

  /** The bricks that fall when `start` is taken away: those in every
    * closed set holding `start`. */
  ghost function Fallen(state: map<nat, Brick>, start: nat): (r: set<nat>)
    ensures r <= state.Keys
    ensures start in state ==> start in r
  {
    set x | x in state && forall g: set<nat> | start in g && ClosedUnder(state, g) :: x in g
  }

  /** The least closed set holding `start` is the fallen set. */
  lemma LeastClosedIsFallen(state: map<nat, Brick>, start: nat, f: set<nat>)
    requires start in f && f <= state.Keys && ClosedUnder(state, f)
    requires forall g: set<nat> | start in g && ClosedUnder(state, g) :: f <= g
    ensures f == Fallen(state, start)
  {
  }

  /** The fallen set is itself closed. */
  lemma FallenClosed(state: map<nat, Brick>, start: nat)
    ensures ClosedUnder(state, Fallen(state, start))
  {
    var fallen := Fallen(state, start);
    forall f, s | f in fallen && f in state && s in state[f].supporting && s in state && state[s].supportedBy <= fallen
      ensures s in fallen
    {
      forall g: set<nat> | start in g && ClosedUnder(state, g) ensures s in g {
      }
    }
  }

  /** A brick other than `start` falls only when it rests on bricks and
    * all of them fall. */
  lemma FallenSupported(state: map<nat, Brick>, start: nat, x: nat)
    requires Linked(state) && start in state
    ensures x in Fallen(state, start) && x != start ==>
              state[x].supportedBy != {} && state[x].supportedBy <= Fallen(state, start)
  {
    var fallen := Fallen(state, start);
    if x != start && !(x in state && state[x].supportedBy != {} && state[x].supportedBy <= fallen) {
      FallenClosed(state, start);
      var smaller := fallen - {x};
      forall f, s | f in smaller && f in state && s in state[f].supporting && s in state && state[s].supportedBy <= smaller
        ensures s in smaller
      {
        assert f in state[s].supportedBy;
      }
      assert start in smaller;
      assert fallen <= smaller;
    }
  }

  /** A brick that can be taken away brings nothing down with it. */
  lemma RemovableNothingFalls(state: map<nat, Brick>, k: nat)
    requires Linked(state) && k in state && Removable(state, state[k])
    ensures Fallen(state, k) == {k}
  {
    forall s | s in state[k].supporting ensures !(state[s].supportedBy <= {k}) {
      var a := OtherThan(state[s].supportedBy, k);
    }
    assert ClosedUnder(state, {k});
  }

  /** A brick that cannot be taken away supports a brick resting on it
    * alone. */
  lemma SoleSupport(state: map<nat, Brick>, k: nat) returns (s: nat)
    requires Linked(state) && k in state && !Removable(state, state[k])
    ensures s in state && s in state[k].supporting && state[s].supportedBy == {k}
  {
    s :| s in state[k].supporting && !(s in state && |state[s].supportedBy| > 1);
    assert k in state[s].supportedBy;
    SubsetSize({k}, state[s].supportedBy);
    forall a | a in state[s].supportedBy ensures a == k {
      SubsetSize({a, k}, state[s].supportedBy);
    }
  }

  /** A brick that cannot be taken away brings down a brick resting only
    * on it. */
  lemma NotRemovableSomethingFalls(state: map<nat, Brick>, k: nat)
    requires Linked(state) && k in state && !Removable(state, state[k])
    ensures exists s | s in Fallen(state, k) :: s != k
  {
    var s := SoleSupport(state, k);
    FallenClosed(state, k);
    assert k in state[s].supportedBy;
    assert state[s].MinZ() > state[k].MinZ();
    assert s in Fallen(state, k);
  }

  /** A set of more than one id holds an id other than `k`. */
  lemma OtherThan(ids: set<nat>, k: nat) returns (a: nat)
    requires |ids| > 1
    ensures a in ids && a != k
  {
    a :| a in ids;
    if a == k {
      assert |ids - {k}| > 0;
      a :| a in ids - {k};
    }
  }

  lemma SubsetSize(a: set<nat>, b: set<nat>)
    requires a <= b
    ensures |a| <= |b|
  {
    assert b == a + (b - a);
  }

  /** A brick can be taken away exactly when nothing else falls with it. */
  lemma RemovableIffNothingFalls(state: map<nat, Brick>, k: nat)
    requires Linked(state) && k in state
    ensures Removable(state, state[k]) <==> Fallen(state, k) == {k}
  {
    if Removable(state, state[k]) {
      RemovableNothingFalls(state, k);
    } else {
      NotRemovableSomethingFalls(state, k);
    }
  }

  /** The `for` over `supporting_ids` in `calc_result_2`: pushes onto the
    * queue every supported brick all of whose supporters have fallen. */
  method PushUnsupported(state: map<nat, Brick>, fallen: set<nat>, supported: set<nat>, queue: seq<nat>)
    returns (q: seq<nat>)
    requires supported <= state.Keys
    ensures |q| >= |queue| && q[..|queue|] == queue
    ensures forall x :: x in q[|queue|..] <==> x in supported && state[x].supportedBy <= fallen
  {
    q := queue;
    var pending := supported;
    while pending != {}
      invariant pending <= supported
      invariant |q| >= |queue| && q[..|queue|] == queue
      invariant forall x :: x in q[|queue|..] <==> x in supported - pending && state[x].supportedBy <= fallen
      decreases |pending|
    {
      var id :| id in pending;
      if state[id].supportedBy <= fallen {
        ghost var before := q;
        q := q + [id];
        assert q[|queue|..] == before[|queue|..] + [id];
        assert q[..|queue|] == before[..|queue|];
      }
      pending := pending - {id};
    }
  }

  /** What holds of the cascade each time round its loop: the fallen and
    * queued bricks are in the stack and lie in every closed set holding
    * `start`, and a brick resting on fallen bricks only has fallen or is
    * queued. */
  ghost predicate CascadeInv(state: map<nat, Brick>, start: nat, fallen: set<nat>, queue: seq<nat>) {
    fallen <= state.Keys && (forall q | q in queue :: q in state) &&
    (start in fallen || start in queue) &&
    (forall g: set<nat> | start in g && ClosedUnder(state, g) :: fallen <= g && forall q | q in queue :: q in g) &&
    (forall f, s | f in fallen && s in state[f].supporting && s in state :: state[s].supportedBy <= fallen ==> s in fallen || s in queue)
  }

  /** The `while let` of `calc_result_2`: drains the queue from `start`,
    * marking each brick as fallen the first time it comes off and
    * queueing the bricks it supports that have lost every supporter. */
  method Cascade(state: map<nat, Brick>, start: nat) returns (fallen: set<nat>)
    requires Linked(state) && start in state
    ensures fallen == Fallen(state, start)
  {
    fallen := {};
    var queue := [start];
    CascadeInit(state, start);
    while queue != []
      invariant CascadeInv(state, start, fallen, queue)
      decreases |state.Keys - fallen|, |queue|
    {
      var id := queue[0];
      CascadeIds(state, start, fallen, queue);
      if id in fallen {
        CascadeSkip(state, start, fallen, queue);
        queue := queue[1..];
      } else {
        SupportingInStack(state, id);
        var rest := queue[1..];
        var next := PushUnsupported(state, fallen + {id}, state[id].supporting, rest);
        CascadeStep(state, start, fallen, queue, id, rest, next);
        RemoveOne(state.Keys, fallen, id);
        fallen := fallen + {id};
        queue := next;
      }
    }
    CascadeDone(state, start, fallen);
  }

  lemma SupportingInStack(state: map<nat, Brick>, id: nat)
    requires Linked(state) && id in state
    ensures state[id].supporting <= state.Keys
  {
  }

  lemma RemoveOne(all: set<nat>, done: set<nat>, x: nat)
    requires x in all && x !in done
    ensures |all - (done + {x})| < |all - done|
  {
    assert all - done == (all - (done + {x})) + {x};
  }

  lemma CascadeInit(state: map<nat, Brick>, start: nat)
    requires start in state
    ensures CascadeInv(state, start, {}, [start])
  {
  }

  lemma CascadeIds(state: map<nat, Brick>, start: nat, fallen: set<nat>, queue: seq<nat>)
    requires CascadeInv(state, start, fallen, queue) && queue != []
    ensures queue[0] in state
  {
  }

  /** A brick that comes off the queue again changes nothing. */
  lemma CascadeSkip(state: map<nat, Brick>, start: nat, fallen: set<nat>, queue: seq<nat>)
    requires CascadeInv(state, start, fallen, queue) && queue != [] && queue[0] in fallen
    ensures CascadeInv(state, start, fallen, queue[1..])
  {
    assert queue == [queue[0]] + queue[1..];
  }

  /** A brick coming off the queue for the first time falls, and the
    * bricks it supports that have lost every supporter are queued. */
  lemma CascadeStep(state: map<nat, Brick>, start: nat, fallen: set<nat>, queue: seq<nat>, id: nat, rest: seq<nat>, next: seq<nat>)
    requires Linked(state) && CascadeInv(state, start, fallen, queue)
    requires queue != [] && id == queue[0] && rest == queue[1..] && id in state
    requires |next| >= |rest| && next[..|rest|] == rest
    requires forall x :: x in next[|rest|..] <==> x in state[id].supporting && state[x].supportedBy <= fallen + {id}
    ensures CascadeInv(state, start, fallen + {id}, next)
  {
    assert queue == [id] + rest;
    forall q | q in next ensures q in rest || q in next[|rest|..] {
      var i :| 0 <= i < |next| && next[i] == q;
      if i < |rest| {
        assert next[..|rest|][i] == q;
      } else {
        assert next[|rest|..][i - |rest|] == q;
      }
    }
    forall x | x in rest ensures x in next {
      var i :| 0 <= i < |rest| && rest[i] == x;
      assert next[i] == next[..|rest|][i];
    }
    forall g: set<nat> | start in g && ClosedUnder(state, g)
      ensures fallen + {id} <= g && forall q | q in next :: q in g
    {
      forall q | q in next[|rest|..] ensures q in g {
        assert id in g && q in state[id].supporting && q in state;
      }
    }
    forall f, s | f in fallen + {id} && s in state[f].supporting && s in state && state[s].supportedBy <= fallen + {id}
      ensures s in fallen + {id} || s in next
    {
      if f != id && !(state[s].supportedBy <= fallen) {
        assert id in state[s].supportedBy;
        assert s in state[id].supporting;
      }
    }
  }

  /** An empty queue leaves exactly the fallen set. */
  lemma CascadeDone(state: map<nat, Brick>, start: nat, fallen: set<nat>)
    requires Linked(state) && CascadeInv(state, start, fallen, [])
    ensures fallen == Fallen(state, start)
  {
    LeastClosedIsFallen(state, start, fallen);
  }

  /** The number of bricks, besides itself, that fall with each brick of
    * `ks`, added up in increasing order of id. */
  ghost function FallTotal(state: map<nat, Brick>, ks: set<nat>): nat
    requires ks <= state.Keys
    decreases |ks|
  {
    if ks == {} then 0
    else
      var k := Least(ks);
      |Fallen(state, k)| - 1 + FallTotal(state, ks - {k})
  }

  /** `calc_result_2`: over every brick, the number of other bricks that
    * fall when it is taken away. */
  method CalcResult2(state: map<nat, Brick>) returns (r: nat)
    requires Linked(state)
    ensures r == FallTotal(state, state.Keys)
  {
    var pending := state.Keys;
    r := 0;
    while pending != {}
      invariant pending <= state.Keys
      invariant r + FallTotal(state, pending) == FallTotal(state, state.Keys)
      decreases |pending|
    {
      var k := Least(pending);
      var fallen := Cascade(state, k);
      r := r + |fallen| - 1;
      pending := pending - {k};
    }
  }
}
