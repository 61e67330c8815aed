// Never tell me the odds: hailstones fly in straight lines. Part two looks
// for the rock's velocity by trying small corrections (dx, dy, dz): with
// the rock's velocity subtracted, every hailstone's path passes through
// the rock's starting point, so the shifted paths of three stones must
// meet a fourth stone's path at one common point. The intersection is
// computed with exact rationals, modelled here by `real`.
module Day24 {
  import opened Wrappers
  import opened Numbers
  import opened Processor

  /** A signed coordinate triple (`isize` in the program). */
  datatype ICoord3 = ICoord3(x: int, y: int, z: int)

  /** A hailstone: its 1-based id, its starting position and velocity. */
  datatype HailStone = HailStone(id: nat, position: ICoord3, velocity: ICoord3)

  /** The test area (used only by the floating-point part one) and the
    * hailstones read so far. */
  datatype State = State(testArea: (int, int), hailstones: seq<HailStone>)

  // ---------------------------------------------------------------------
  // Loading

  const Delimiters: set<char> := {' ', ',', '@'}

  /** Three signed numbers, with what remains unread after them. */
  function ReadTriple(chars: string): Result<(ICoord3, string)> {
    var x :- ReadNext(chars, Delimiters, ParseI64);
    var y :- ReadNext(x.rest, Delimiters, ParseI64);
    var z :- ReadNext(y.rest, Delimiters, ParseI64);
    Ok((ICoord3(x.value, y.value, z.value), z.rest))
  }

  /** The six signed numbers of a line, read one after another: the
    * position, then the velocity. */
  function ReadStone(line: string): Result<(ICoord3, ICoord3)> {
    var (p, rest) :- ReadTriple(line);
    var (v, _) :- ReadTriple(rest);
    Ok((p, v))
  }

  /** `parse_line`: an empty line changes nothing; otherwise a new
    * hailstone is appended whose id is one more than the number of
    * hailstones read before it. The test area is never touched. */
  function ParseLine(state: State, line: string): (r: Result<State>)
    ensures line == [] ==> r == Ok(state)
    ensures r.Err? <==> line != [] && ReadStone(line).Err?
    ensures r.Ok? ==> r.value.testArea == state.testArea
    ensures r.Ok? && line != [] ==>
              var n := |state.hailstones|;
              |r.value.hailstones| == n + 1 && r.value.hailstones[..n] == state.hailstones &&
              r.value.hailstones[n] == HailStone(n + 1, ReadStone(line).value.0, ReadStone(line).value.1)
  {
    if line == [] then Ok(state)
    else
      var (p, v) :- ReadStone(line);
      var stone := HailStone(|state.hailstones| + 1, p, v);
      assert (state.hailstones + [stone])[..|state.hailstones|] == state.hailstones;
      Ok(State(state.testArea, state.hailstones + [stone]))
  }

  /** Each hailstone's id is its position in the input, counted from 1. */
  predicate IdsFromOne(stones: seq<HailStone>) {
    forall i | 0 <= i < |stones| :: stones[i].id == i + 1
  }

  /** Reading a line keeps the ids counting from 1. */
  lemma ParseLineKeepsIds(state: State, line: string)
    requires IdsFromOne(state.hailstones)
    ensures ParseLine(state, line).Ok? ==> IdsFromOne(ParseLine(state, line).value.hailstones)
  {
    var r := ParseLine(state, line);
    if r.Ok? && line != [] {
      forall i | 0 <= i < |r.value.hailstones|
        ensures r.value.hailstones[i].id == i + 1
      {
        if i < |state.hailstones| {
          assert r.value.hailstones[i] == r.value.hailstones[..|state.hailstones|][i];
        }
      }
    }
  }

  /** The hailstones of a whole input carry their line numbers, from 1. */
  lemma {:induction false} ParsedIdsFromOne(area: (int, int), lines: seq<string>)
    ensures ParseLines(State(area, []), lines, ParseLine).Ok? ==>
              IdsFromOne(ParseLines(State(area, []), lines, ParseLine).value.hailstones)
    decreases |lines|
  {
    if lines != [] {
      ParsedIdsFromOne(area, lines[..|lines| - 1]);
      var before := ParseLines(State(area, []), lines[..|lines| - 1], ParseLine);
      if before.Ok? {
        ParseLineKeepsIds(before.value, lines[|lines| - 1]);
      }
    }
  }

  /** A coordinate triple as the puzzle writes it: `x, y, z`. */
  function ShowCoord(c: ICoord3): string {
    ShowInt(c.x) + ", " + ShowInt(c.y) + ", " + ShowInt(c.z)
  }

  /** A hailstone as the puzzle writes it: `x, y, z @ vx, vy, vz`. */
  function ShowStone(p: ICoord3, v: ICoord3): string {
    ShowCoord(p) + " @ " + ShowCoord(v)
  }

  predicate Fits(c: ICoord3) {
    I64_MIN <= c.x <= I64_MAX && I64_MIN <= c.y <= I64_MAX && I64_MIN <= c.z <= I64_MAX
  }

  lemma ShowIntHasNoDelimiter(i: int)
    ensures NoneIn(ShowInt(i), Delimiters)
  {
    var s := ShowInt(i);
    if i < 0 {
      forall k | 0 <= k < |s| ensures s[k] !in Delimiters {
        if k > 0 {
          assert s[k] == ShowNat(-i)[k - 1];
          assert IsDigit(ShowNat(-i)[k - 1]);
        }
      }
    } else {
      forall k | 0 <= k < |s| ensures s[k] !in Delimiters {
        assert IsDigit(s[k]);
      }
    }
  }

  /** Padding, a written number and a delimiter read back as that number,
    * leaving what follows the delimiter. */
  lemma ReadPadded(s: string, pad: string, i: int, d: char, rest: string)
    requires s == pad + (ShowInt(i) + ([d] + rest))
    requires AllIn(pad, Delimiters) && d in Delimiters && I64_MIN <= i <= I64_MAX
    ensures ReadNext(s, Delimiters, ParseI64) == Ok(Token(i, Some(d), rest))
  {
    ShowIntHasNoDelimiter(i);
    ParseSignedShowInt(i, I64_MIN, I64_MAX);
    NextWordSkipsDelimiters(pad, ShowInt(i) + ([d] + rest), Delimiters);
    assert ShowInt(i) + ([d] + rest) == ShowInt(i) + [d] + rest;
    NextWordSplits(ShowInt(i), d, rest, Delimiters);
  }

  /** Padding and a written number at the end read back as that number. */
  lemma ReadPaddedLast(s: string, pad: string, i: int)
    requires s == pad + ShowInt(i)
    requires AllIn(pad, Delimiters) && I64_MIN <= i <= I64_MAX
    ensures ReadNext(s, Delimiters, ParseI64) == Ok(Token(i, None, []))
  {
    ShowIntHasNoDelimiter(i);
    ParseSignedShowInt(i, I64_MIN, I64_MAX);
    NextWordSkipsDelimiters(pad, ShowInt(i), Delimiters);
    NextWordWhole(ShowInt(i), Delimiters);
  }

  /** A written triple followed by a delimiter reads back, leaving what
    * follows the delimiter. */
  lemma ReadTripleShown(c: ICoord3, d: char, rest: string)
    requires Fits(c) && d in Delimiters
    ensures ReadTriple(ShowCoord(c) + ([d] + rest)) == Ok((c, rest))
  {
    var sz := ShowInt(c.z) + ([d] + rest);
    var sy := ShowInt(c.y) + ([','] + (" " + sz));
    var sx := ShowInt(c.x) + ([','] + (" " + sy));
    assert ShowCoord(c) + ([d] + rest) == [] + sx;
    assert AllIn([], Delimiters) && AllIn(" ", Delimiters);
    ReadPadded([] + sx, [], c.x, ',', " " + sy);
    ReadPadded(" " + sy, " ", c.y, ',', " " + sz);
    ReadPadded(" " + sz, " ", c.z, d, rest);
  }

  /** A written triple on its own reads back, leaving nothing. */
  lemma ReadLastTripleShown(c: ICoord3)
    requires Fits(c)
    ensures ReadTriple(ShowCoord(c)) == Ok((c, []))
  {
    var sz := ShowInt(c.z);
    var sy := ShowInt(c.y) + ([','] + (" " + sz));
    var sx := ShowInt(c.x) + ([','] + (" " + sy));
    assert ShowCoord(c) == [] + sx;
    assert AllIn([], Delimiters) && AllIn(" ", Delimiters);
    ReadPadded([] + sx, [], c.x, ',', " " + sy);
    ReadPadded(" " + sy, " ", c.y, ',', " " + sz);
    ReadPaddedLast(" " + sz, " ", c.z);
  }

  /** Padding before a triple is skipped. */
  lemma ReadTripleSkips(pad: string, s: string)
    requires AllIn(pad, Delimiters)
    ensures ReadTriple(pad + s) == ReadTriple(s)
  {
    NextWordSkipsDelimiters(pad, s, Delimiters);
  }

  /** Reading a written hailstone gives back its position and velocity. */
  lemma ReadStoneShowStone(p: ICoord3, v: ICoord3)
    requires Fits(p) && Fits(v)
    ensures ReadStone(ShowStone(p, v)) == Ok((p, v))
  {
    assert ShowStone(p, v) == ShowCoord(p) + ([' '] + ("@ " + ShowCoord(v)));
    ReadTripleShown(p, ' ', "@ " + ShowCoord(v));
    assert AllIn("@ ", Delimiters);
    ReadTripleSkips("@ ", ShowCoord(v));
    ReadLastTripleShown(v);
  }

  /** Reading a written hailstone appends it with the next id. */
  lemma ParseLineShowStone(state: State, p: ICoord3, v: ICoord3)
    requires Fits(p) && Fits(v)
    ensures ParseLine(state, ShowStone(p, v)) ==
              Ok(State(state.testArea, state.hailstones + [HailStone(|state.hailstones| + 1, p, v)]))
  {
    ReadStoneShowStone(p, v);
    var r := ParseLine(state, ShowStone(p, v));
    assert r.value.hailstones == r.value.hailstones[..|state.hailstones|] + [r.value.hailstones[|state.hailstones|]];
  }

  // ---------------------------------------------------------------------
  // Intersecting two paths in the x-y plane

  /** `as_rational`: an integer as an exact rational. */
  function AsRational(i: int): (r: real)
    ensures r.Floor == i
  {
    i as real
  }

  /** Where, and at what time of the first stone, two paths meet. */
  datatype Crossing = Crossing(x: real, y: real, t: real)

  /** A stone's velocity in the x-y plane after the correction (dx, dy). */
  function ShiftedX(s: HailStone, dx: int): real {
    AsRational(s.velocity.x + dx)
  }

  function ShiftedY(s: HailStone, dy: int): real {
    AsRational(s.velocity.y + dy)
  }

  /** The stone's position at time `t` on its corrected path. */
  function XAt(s: HailStone, dx: int, t: real): real {
    AsRational(s.position.x) + t * ShiftedX(s, dx)
  }

  function YAt(s: HailStone, dy: int, t: real): real {
    AsRational(s.position.y) + t * ShiftedY(s, dy)
  }

  /** `get_intersect_pos_time`: Cramer's rule on
    * pos_a + t * vel_a == pos_b + s * vel_b, with both velocities
    * corrected by (dx, dy); None when the determinant is zero. */
  function Intersect(a: HailStone, b: HailStone, dx: int, dy: int): (r: Option<Crossing>)
    ensures r.None? <==> ShiftedX(a, dx) * ShiftedY(b, dy) == ShiftedY(a, dy) * ShiftedX(b, dx)
    ensures r.Some? ==> r.value.x == XAt(a, dx, r.value.t) && r.value.y == YAt(a, dy, r.value.t)
  {
    var minus1 := AsRational(-1);
    var posAx := AsRational(a.position.x);
    var posAy := AsRational(a.position.y);
    var posBx := AsRational(b.position.x);
    var posBy := AsRational(b.position.y);
    var velAx := AsRational(a.velocity.x + dx);
    var velAy := AsRational(a.velocity.y + dy);
    var velBx := AsRational(b.velocity.x + dx);
    var velBy := AsRational(b.velocity.y + dy);
    var det := (velAx * minus1 * velBy) - (velAy * minus1 * velBx);
    if det == 0.0 then None
    else
      var qx := (minus1 * velBy * (posBx - posAx)) - (minus1 * velBx * (posBy - posAy));
      var t := qx / det;
      Some(Crossing(posAx + t * velAx, posAy + t * velAy, t))
  }

  /** The time along the second path, `s = qy / det` in the program. */
  function SecondTime(a: HailStone, b: HailStone, dx: int, dy: int): real
    requires Intersect(a, b, dx, dy).Some?
  {
    var det := ShiftedY(a, dy) * ShiftedX(b, dx) - ShiftedX(a, dx) * ShiftedY(b, dy);
    var qy := ShiftedX(a, dx) * (AsRational(b.position.y) - AsRational(a.position.y)) -
              ShiftedY(a, dy) * (AsRational(b.position.x) - AsRational(a.position.x));
    qy / det
  }

  /** The crossing lies on the second path too, at time `s = qy / det`. */
  lemma CrossingOnSecondPath(a: HailStone, b: HailStone, dx: int, dy: int)
    requires Intersect(a, b, dx, dy).Some?
    ensures var c := Intersect(a, b, dx, dy).value;
            var s := SecondTime(a, b, dx, dy);
            c.x == XAt(b, dx, s) && c.y == YAt(b, dy, s)
  {
    var c := Intersect(a, b, dx, dy).value;
    var vax, vay, vbx, vby := ShiftedX(a, dx), ShiftedY(a, dy), ShiftedX(b, dx), ShiftedY(b, dy);
    var ex := AsRational(b.position.x) - AsRational(a.position.x);
    var ey := AsRational(b.position.y) - AsRational(a.position.y);
    var det := vay * vbx - vax * vby;
    var qx := vbx * ey - vby * ex;
    var qy := vax * ey - vay * ex;
    assert det != 0.0;
    assert c.t == qx / det;
    var s := qy / det;
    assert s == SecondTime(a, b, dx, dy);
    // t * vel_a - s * vel_b == pos_b - pos_a, coordinate by coordinate.
    assert qx * vax - qy * vbx == ex * det;
    assert qx * vay - qy * vby == ey * det;
    assert c.t * vax - s * vbx == ex by {
      assert c.t * vax - s * vbx == (qx * vax - qy * vbx) / det;
    }
    assert c.t * vay - s * vby == ey by {
      assert c.t * vay - s * vby == (qx * vay - qy * vby) / det;
    }
  }

  /** The crossing is the only meeting point: whenever the two corrected
    * paths pass through one point, at times t and s, t is the crossing's
    * time (and so the point is the crossing). */
  lemma CrossingUnique(a: HailStone, b: HailStone, dx: int, dy: int, t: real, s: real)
    requires Intersect(a, b, dx, dy).Some?
    requires XAt(a, dx, t) == XAt(b, dx, s) && YAt(a, dy, t) == YAt(b, dy, s)
    ensures t == Intersect(a, b, dx, dy).value.t
  {
    var vax, vay, vbx, vby := ShiftedX(a, dx), ShiftedY(a, dy), ShiftedX(b, dx), ShiftedY(b, dy);
    var ex := AsRational(b.position.x) - AsRational(a.position.x);
    var ey := AsRational(b.position.y) - AsRational(a.position.y);
    var det := vay * vbx - vax * vby;
    var qx := vbx * ey - vby * ex;
    assert t * vax - s * vbx == ex;
    assert t * vay - s * vby == ey;
    assert t * det == qx by {
      assert t * det == vbx * (t * vay - s * vby) - vby * (t * vax - s * vbx);
    }
    assert Intersect(a, b, dx, dy).value.t == qx / det;
  }

  // ---------------------------------------------------------------------
  // Part two

  /** The three crossings of stones 1, 2 and 3 with stone 0 under the
    * correction (dx, dy), when all three exist and are one point. */
  datatype Meeting = Meeting(x: real, y: real, t1: real, t2: real, t3: real)

  function Meet(stones: seq<HailStone>, dx: int, dy: int): (r: Option<Meeting>)
    requires |stones| >= 4
    ensures r.Some? <==>
              Intersect(stones[1], stones[0], dx, dy).Some? &&
              Intersect(stones[2], stones[0], dx, dy).Some? &&
              Intersect(stones[3], stones[0], dx, dy).Some? &&
              Intersect(stones[1], stones[0], dx, dy).value.x == Intersect(stones[2], stones[0], dx, dy).value.x &&
              Intersect(stones[1], stones[0], dx, dy).value.y == Intersect(stones[2], stones[0], dx, dy).value.y &&
              Intersect(stones[1], stones[0], dx, dy).value.x == Intersect(stones[3], stones[0], dx, dy).value.x &&
              Intersect(stones[1], stones[0], dx, dy).value.y == Intersect(stones[3], stones[0], dx, dy).value.y
    ensures r.Some? ==>
              r.value.t1 == Intersect(stones[1], stones[0], dx, dy).value.t &&
              r.value.t2 == Intersect(stones[2], stones[0], dx, dy).value.t &&
              r.value.t3 == Intersect(stones[3], stones[0], dx, dy).value.t &&
              r.value.x == Intersect(stones[1], stones[0], dx, dy).value.x &&
              r.value.y == Intersect(stones[1], stones[0], dx, dy).value.y
  {
    match (Intersect(stones[1], stones[0], dx, dy), Intersect(stones[2], stones[0], dx, dy), Intersect(stones[3], stones[0], dx, dy))
    case (Some(c1), Some(c2), Some(c3)) =>
      if c1.x == c2.x && c1.y == c2.y && c1.x == c3.x && c1.y == c3.y then Some(Meeting(c1.x, c1.y, c1.t, c2.t, c3.t))
      else None
    case _ => None
  }

  /** A stone's height at time `t` with the z correction `dz`. */
  function ZAt(s: HailStone, dz: int, t: real): real {
    AsRational(s.position.z) + t * AsRational(s.velocity.z + dz)
  }

  /** The correction (dx, dy, dz) is accepted: the three crossings
    * coincide and the three stones are at one height there. */
  predicate Accepts(stones: seq<HailStone>, dx: int, dy: int, dz: int)
    requires |stones| >= 4
  {
    var m := Meet(stones, dx, dy);
    m.Some? && ZAt(stones[1], dz, m.value.t1) == ZAt(stones[2], dz, m.value.t2) &&
    ZAt(stones[1], dz, m.value.t1) == ZAt(stones[3], dz, m.value.t3)
  }

  /** The answer for an accepted correction: the sum of the meeting
    * point's coordinates. */
  function Answer(stones: seq<HailStone>, dx: int, dy: int, dz: int): real
    requires |stones| >= 4 && Accepts(stones, dx, dy, dz)
  {
    var m := Meet(stones, dx, dy).value;
    m.x + m.y + ZAt(stones[1], dz, m.t1)
  }

  /** Every coordinate of the correction lies in [-range, range]. */
  predicate InRange(range: nat, dx: int, dy: int, dz: int) {
    -(range as int) <= dx <= range && -(range as int) <= dy <= range && -(range as int) <= dz <= range
  }

  /** (dx', dy', dz') comes before (dx, dy, dz) in the search order. */
  predicate Before(dx': int, dy': int, dz': int, dx: int, dy: int, dz: int) {
    dx' < dx || (dx' == dx && (dy' < dy || (dy' == dy && dz' < dz)))
  }

  /** The loops of `perform_processing_2`: try every correction in
    * [-range, range], x outermost, z innermost, and answer for the first
    * accepted one. Fewer than four hailstones, or no accepted correction,
    * is an error (the program panics). */
  method SearchCorrections(state: State, range: nat) returns (r: Result<real>)
    ensures |state.hailstones| < 4 ==> r.Err?
    ensures |state.hailstones| >= 4 ==>
              (r.Ok? <==> exists dx, dy, dz :: InRange(range, dx, dy, dz) && Accepts(state.hailstones, dx, dy, dz))
    ensures r.Ok? ==>
              |state.hailstones| >= 4 &&
              exists dx, dy, dz :: InRange(range, dx, dy, dz) && Accepts(state.hailstones, dx, dy, dz) &&
                r.value == Answer(state.hailstones, dx, dy, dz) &&
                forall dx', dy', dz' :: InRange(range, dx', dy', dz') && Before(dx', dy', dz', dx, dy, dz) ==>
                  !Accepts(state.hailstones, dx', dy', dz')
  {
    var stones := state.hailstones;
    if |stones| < 4 {
      return Err("index out of bounds");
    }
    var lo := -(range as int);
    for x := lo to range + 1
      invariant forall dx, dy, dz :: InRange(range, dx, dy, dz) && dx < x ==> !Accepts(stones, dx, dy, dz)
    {
      for y := lo to range + 1
        invariant forall dx, dy, dz :: InRange(range, dx, dy, dz) && (dx < x || (dx == x && dy < y)) ==> !Accepts(stones, dx, dy, dz)
      {
        var meeting := Meet(stones, x, y);
        if meeting.None? {
          assert forall dz :: !Accepts(stones, x, y, dz);
          continue;
        }
        var m := meeting.value;
        for z := lo to range + 1
          invariant forall dz | lo <= dz < z :: !Accepts(stones, x, y, dz)
        {
          var z1 := ZAt(stones[1], z, m.t1);
          var z2 := ZAt(stones[2], z, m.t2);
          var z3 := ZAt(stones[3], z, m.t3);
          if z1 == z2 && z1 == z3 {
            assert InRange(range, x, y, z) && Accepts(stones, x, y, z);
            r := Ok(m.x + m.y + z1);
            assert r.value == Answer(stones, x, y, z);
            return;
          }
        }
      }
    }
    r := Err("Didn't find it");
  }

  /** `RANGE`: the search bound the program uses. */
  const Range: nat := 337

  /** `perform_processing_2`: the search with the program's own bound. */
  method PerformProcessing2(state: State) returns (r: Result<real>)
    ensures |state.hailstones| < 4 ==> r.Err?
    ensures |state.hailstones| >= 4 ==>
              (r.Ok? <==> exists dx, dy, dz :: InRange(Range, dx, dy, dz) && Accepts(state.hailstones, dx, dy, dz))
    ensures r.Ok? ==>
              |state.hailstones| >= 4 &&
              exists dx, dy, dz :: InRange(Range, dx, dy, dz) && Accepts(state.hailstones, dx, dy, dz) &&
                r.value == Answer(state.hailstones, dx, dy, dz) &&
                forall dx', dy', dz' :: InRange(Range, dx', dy', dz') && Before(dx', dy', dz', dx, dy, dz) ==>
                  !Accepts(state.hailstones, dx', dy', dz')
  {
    r := SearchCorrections(state, Range);
  }
}
