// Part two of the seed almanac: ranges of seeds are pushed through the
// mappings whole, each range split into pieces that a map moves and gaps
// that keep their numbers.
module Day5Ranges {
  import opened Numbers
  import opened Day5

  /** A range `(start, length)`. */
  type Range = (nat, nat)

  /** The scan of `add_destination_ranges` from `current` with `remaining`
    * numbers still to place and `m` the maps not yet passed: a range wholly
    * before the next map, or past every map, is kept; a part before the
    * next map is kept and the rest continues from the map's start; a part
    * inside the map is moved. */
  function Ranges(current: nat, remaining: nat, m: Mapping): (r: seq<Range>)
    ensures forall i | 0 <= i < |r| :: r[i].1 > 0
    decreases remaining, |m|
  {
    if remaining == 0 then []
    else if m == [] then [(current, remaining)]
    else
      var im := m[0];
      var last := current + remaining - 1;
      var lastMap := im.sourceStart + im.length - 1;
      if last < im.sourceStart then [(current, remaining)]
      else if current > lastMap then Ranges(current, remaining, m[1..])
      else if current < im.sourceStart then
        var gap := im.sourceStart - current;
        [(current, gap)] + Ranges(im.sourceStart, remaining - gap, m)
      else
        var next := (if last < lastMap then last else lastMap) + 1;
        [(Translate(im, current), next - current)] + Ranges(next, remaining - (next - current), m)
  }

  /** The total length of some ranges. */
  function TotalLength(rs: seq<Range>): nat {
    if rs == [] then 0 else rs[0].1 + TotalLength(rs[1..])
  }

  /** The pieces of a range together are exactly as long as the range. */
  lemma {:induction false} RangesKeepLength(current: nat, remaining: nat, m: Mapping)
    ensures TotalLength(Ranges(current, remaining, m)) == remaining
    decreases remaining, |m|
  {
    if remaining > 0 && m != [] {
      var im := m[0];
      var last := current + remaining - 1;
      var lastMap := im.sourceStart + im.length - 1;
      if last < im.sourceStart {
      } else if current > lastMap {
        RangesKeepLength(current, remaining, m[1..]);
      } else if current < im.sourceStart {
        var gap := im.sourceStart - current;
        RangesKeepLength(im.sourceStart, remaining - gap, m);
        assert ([(current, gap)] + Ranges(im.sourceStart, remaining - gap, m))[1..] == Ranges(im.sourceStart, remaining - gap, m);
      } else {
        var next := (if last < lastMap then last else lastMap) + 1;
        RangesKeepLength(next, remaining - (next - current), m);
        var tail := Ranges(next, remaining - (next - current), m);
        assert ([(Translate(im, current), next - current)] + tail)[1..] == tail;
      }
    }
  }

  /** A range wholly before the first map, or past every map, is passed
    * through unchanged. */
  lemma {:induction false} RangesPassThrough(current: nat, remaining: nat, m: Mapping)
    requires remaining > 0
    requires (m != [] && current + remaining - 1 < m[0].sourceStart) ||
             (forall i | 0 <= i < |m| :: current > m[i].sourceStart + m[i].length - 1)
    ensures Ranges(current, remaining, m) == [(current, remaining)]
    decreases |m|
  {
    if m != [] && !(current + remaining - 1 < m[0].sourceStart) {
      RangesPassThrough(current, remaining, m[1..]);
    }
  }

  // ---------------------------------------------------------------------
  // What the ranges stand for

  /** The numbers `start .. start + length - 1`, in order. */
  function Span(start: nat, length: nat): seq<nat> {
    seq(length, k => start + k)
  }

  /** Every number in some ranges, range by range. */
  function Expand(rs: seq<Range>): seq<nat> {
    if rs == [] then [] else Span(rs[0].0, rs[0].1) + Expand(rs[1..])
  }

  /** Every number looked up in one mapping. */
  function LookupAll(xs: seq<nat>, m: Mapping): seq<nat> {
    seq(|xs|, k requires 0 <= k < |xs| => Lookup(xs[k], m))
  }

  lemma SpanSplit(start: nat, a: nat, b: nat)
    ensures Span(start, a + b) == Span(start, a) + Span(start + a, b)
  {
    var whole, parts := Span(start, a + b), Span(start, a) + Span(start + a, b);
    forall k | 0 <= k < a + b
      ensures whole[k] == parts[k]
    {
      if k >= a {
        assert parts[k] == Span(start + a, b)[k - a];
      }
    }
  }

  lemma ExpandSingle(r: Range)
    ensures Expand([r]) == Span(r.0, r.1)
  {
    assert Expand([r]) == Span(r.0, r.1) + Expand([]);
  }

  lemma LookupAllConcat(xs: seq<nat>, ys: seq<nat>, m: Mapping)
    ensures LookupAll(xs + ys, m) == LookupAll(xs, m) + LookupAll(ys, m)
  {
    assert forall k | 0 <= k < |xs| + |ys| :: LookupAll(xs + ys, m)[k] == (LookupAll(xs, m) + LookupAll(ys, m))[k];
  }

  lemma ExpandConcat(rs: seq<Range>, ts: seq<Range>)
    ensures Expand(rs + ts) == Expand(rs) + Expand(ts)
    decreases |rs|
  {
    if rs != [] {
      assert (rs + ts)[1..] == rs[1..] + ts;
      ExpandConcat(rs[1..], ts);
    } else {
      assert rs + ts == ts;
    }
  }

  /** Numbers below the next map's start, or with no maps left, keep
    * their value. */
  lemma LookupAllBefore(start: nat, n: nat, m: Mapping)
    requires m == [] || start + n <= m[0].sourceStart
    ensures LookupAll(Span(start, n), m) == Span(start, n)
  {
    var xs := Span(start, n);
    assert forall k | 0 <= k < n :: Lookup(xs[k], m) == xs[k];
  }

  /** Numbers inside the next map move by its offset. */
  lemma LookupAllInside(start: nat, n: nat, m: Mapping)
    requires m != [] && m[0].sourceStart <= start && start + n <= m[0].sourceStart + m[0].length
    ensures LookupAll(Span(start, n), m) == Span(Translate(m[0], start), n)
  {
    var xs := Span(start, n);
    assert forall k | 0 <= k < n :: Lookup(xs[k], m) == Translate(m[0], start) + k;
  }

  /** Numbers past the end of the next map skip it. */
  lemma LookupAllPast(start: nat, n: nat, m: Mapping)
    requires m != [] && start > m[0].sourceStart + m[0].length - 1
    ensures LookupAll(Span(start, n), m) == LookupAll(Span(start, n), m[1..])
  {
    var xs := Span(start, n);
    assert forall k | 0 <= k < n :: Lookup(xs[k], m) == Lookup(xs[k], m[1..]);
  }

  /** Splitting a range into its pieces keeps every number in order and
    * sends it where the scan of `get_destination` sends it: the pieces are
    * the source range mapped number by number. */
  lemma {:induction false} RangesAreLookups(current: nat, remaining: nat, m: Mapping)
    ensures Expand(Ranges(current, remaining, m)) == LookupAll(Span(current, remaining), m)
    decreases remaining, |m|
  {
    if remaining == 0 {
      assert Ranges(current, remaining, m) == [];
    } else if m == [] || current + remaining - 1 < m[0].sourceStart {
      assert Ranges(current, remaining, m) == [(current, remaining)];
      LookupAllBefore(current, remaining, m);
      ExpandSingle((current, remaining));
    } else if current > m[0].sourceStart + m[0].length - 1 {
      assert Ranges(current, remaining, m) == Ranges(current, remaining, m[1..]);
      RangesAreLookups(current, remaining, m[1..]);
      LookupAllPast(current, remaining, m);
    } else if current < m[0].sourceStart {
      var gap := m[0].sourceStart - current;
      assert Ranges(current, remaining, m) == [(current, gap)] + Ranges(m[0].sourceStart, remaining - gap, m);
      RangesAreLookups(m[0].sourceStart, remaining - gap, m);
      LookupAllBefore(current, gap, m);
      PieceThenRest(current, gap, remaining, (current, gap), m[0].sourceStart, m);
    } else {
      var last := current + remaining - 1;
      var lastMap := m[0].sourceStart + m[0].length - 1;
      var next := (if last < lastMap then last else lastMap) + 1;
      var n := next - current;
      assert Ranges(current, remaining, m) == [(Translate(m[0], current), n)] + Ranges(next, remaining - n, m);
      RangesAreLookups(next, remaining - n, m);
      LookupAllInside(current, n, m);
      PieceThenRest(current, n, remaining, (Translate(m[0], current), n), next, m);
    }
  }

  /** A first piece standing for the first `n` numbers, followed by the
    * pieces of the rest, stands for the whole range. */
  lemma PieceThenRest(current: nat, n: nat, remaining: nat, piece: Range, next: nat, m: Mapping)
    requires n <= remaining && next == current + n
    requires Span(piece.0, piece.1) == LookupAll(Span(current, n), m)
    requires Expand(Ranges(next, remaining - n, m)) == LookupAll(Span(next, remaining - n), m)
    ensures Expand([piece] + Ranges(next, remaining - n, m)) == LookupAll(Span(current, remaining), m)
  {
    var rest := Ranges(next, remaining - n, m);
    assert ([piece] + rest)[1..] == rest;
    SpanSplit(current, n, remaining - n);
    LookupAllConcat(Span(current, n), Span(next, remaining - n), m);
    calc {
      Expand([piece] + rest);
      Span(piece.0, piece.1) + Expand(rest);
      LookupAll(Span(current, n), m) + LookupAll(Span(next, remaining - n), m);
      LookupAll(Span(current, n) + Span(next, remaining - n), m);
      LookupAll(Span(current, remaining), m);
    }
  }

  /** `add_destination_ranges`: the loop over the sorted maps, appending
    * the pieces of one range to `ranges`. */
  method AddDestinationRanges(start: nat, length: nat, m: Mapping, ranges: seq<Range>) returns (r: seq<Range>)
    requires NoUnderflow(m)
    ensures r == ranges + Ranges(start, length, m)
  {
    var remaining: nat := length;
    var current: nat := start;
    var i := 0;
    r := ranges;
    while remaining > 0 && i < |m|
      invariant i <= |m|
      invariant r + Ranges(current, remaining, m[i..]) == ranges + Ranges(start, length, m)
      decreases remaining, |m| - i
    {
      var im := m[i];
      assert m[i..][0] == im && m[i..][1..] == m[i + 1..];
      var last := current + remaining - 1;
      var lastMap := im.sourceStart + im.length - 1;
      if last < im.sourceStart {
        break;
      }
      if current > lastMap {
        i := i + 1;
        continue;
      }
      if current < im.sourceStart {
        var gap := im.sourceStart - current;
        assert r + Ranges(current, remaining, m[i..]) == (r + [(current, gap)]) + Ranges(im.sourceStart, remaining - gap, m[i..]);
        r := r + [(current, gap)];
        current := im.sourceStart;
        remaining := remaining - gap;
        continue;
      }
      var next := (if last < lastMap then last else lastMap) + 1;
      var consumed := next - current;
      assert r + Ranges(current, remaining, m[i..]) ==
             (r + [(Translate(im, current), consumed)]) + Ranges(next, remaining - consumed, m[i..]);
      r := r + [(Translate(im, current), consumed)];
      current := next;
      remaining := remaining - consumed;
    }
    if remaining > 0 {
      assert i < |m| ==> current + remaining - 1 < m[i..][0].sourceStart;
      r := r + [(current, remaining)];
    } else {
      assert r + [] == r;
    }
  }

  /** The pieces of every source range in turn. */
  function DestinationRanges(sources: seq<Range>, m: Mapping): (r: seq<Range>)
    ensures forall i | 0 <= i < |r| :: r[i].1 > 0
  {
    if sources == [] then []
    else DestinationRanges(sources[..|sources| - 1], m) + Ranges(sources[|sources| - 1].0, sources[|sources| - 1].1, m)
  }

  /** `get_destination_ranges`. */
  method GetDestinationRanges(sources: seq<Range>, m: Mapping) returns (r: seq<Range>)
    requires NoUnderflow(m)
    ensures r == DestinationRanges(sources, m)
  {
    r := [];
    for i := 0 to |sources|
      invariant r == DestinationRanges(sources[..i], m)
    {
      assert sources[..i + 1][..i] == sources[..i];
      r := AddDestinationRanges(sources[i].0, sources[i].1, m, r);
    }
    assert sources[..|sources|] == sources;
  }

  /** Mapping whole ranges is mapping every number in them. */
  lemma {:induction false} DestinationRangesAreLookups(sources: seq<Range>, m: Mapping)
    ensures Expand(DestinationRanges(sources, m)) == LookupAll(Expand(sources), m)
  {
    if sources != [] {
      var front := sources[..|sources| - 1];
      var last := sources[|sources| - 1];
      assert sources == front + [last];
      calc {
        Expand(DestinationRanges(sources, m));
        Expand(DestinationRanges(front, m) + Ranges(last.0, last.1, m));
        { ExpandConcat(DestinationRanges(front, m), Ranges(last.0, last.1, m)); }
        Expand(DestinationRanges(front, m)) + Expand(Ranges(last.0, last.1, m));
        { DestinationRangesAreLookups(front, m); RangesAreLookups(last.0, last.1, m); }
        LookupAll(Expand(front), m) + LookupAll(Span(last.0, last.1), m);
        { LookupAllConcat(Expand(front), Span(last.0, last.1), m); }
        LookupAll(Expand(front) + Span(last.0, last.1), m);
        { ExpandSingle(last); ExpandConcat(front, [last]); }
        LookupAll(Expand(sources), m);
      }
    }
  }

  /** The ranges after every mapping in turn. */
  function LocationRanges(sources: seq<Range>, mappings: seq<Mapping>): seq<Range>
    decreases |mappings|
  {
    if mappings == [] then sources else LocationRanges(DestinationRanges(sources, mappings[0]), mappings[1..])
  }

  /** Every number sent through all the mappings. */
  function LocationAll(xs: seq<nat>, mappings: seq<Mapping>): (r: seq<nat>)
    ensures |r| == |xs| && forall k | 0 <= k < |xs| :: r[k] == Location(xs[k], mappings)
  {
    seq(|xs|, k requires 0 <= k < |xs| => Location(xs[k], mappings))
  }

  /** `get_location_ranges`: the range pushed through the seven mappings. */
  method GetLocationRanges(start: nat, length: nat, mappings: seq<Mapping>) returns (r: seq<Range>)
    requires forall k | 0 <= k < |mappings| :: NoUnderflow(mappings[k])
    ensures r == LocationRanges([(start, length)], mappings)
  {
    r := [(start, length)];
    for k := 0 to |mappings|
      invariant LocationRanges(r, mappings[k..]) == LocationRanges([(start, length)], mappings)
    {
      assert mappings[k..][1..] == mappings[k + 1..];
      r := GetDestinationRanges(r, mappings[k]);
    }
  }

  /** Pushing ranges through the mappings is pushing every number in them
    * through: part two follows exactly the seeds part one would. */
  lemma {:induction false} LocationRangesAreLocations(sources: seq<Range>, mappings: seq<Mapping>)
    ensures Expand(LocationRanges(sources, mappings)) == LocationAll(Expand(sources), mappings)
    decreases |mappings|
  {
    if mappings != [] {
      var next := DestinationRanges(sources, mappings[0]);
      DestinationRangesAreLookups(sources, mappings[0]);
      LocationRangesAreLocations(next, mappings[1..]);
    }
  }

  /** Every range of positive length starts with a number it stands for,
    * and every number stands in a range no later than it. */
  lemma {:induction false} ExpandMembers(rs: seq<Range>)
    ensures forall i | 0 <= i < |rs| && rs[i].1 > 0 :: rs[i].0 in Expand(rs)
    ensures forall v | v in Expand(rs) :: exists i | 0 <= i < |rs| :: rs[i].0 <= v
  {
    if rs != [] {
      ExpandMembers(rs[1..]);
      var e := Expand(rs);
      assert e == Span(rs[0].0, rs[0].1) + Expand(rs[1..]);
      forall i | 1 <= i < |rs| && rs[i].1 > 0
        ensures rs[i].0 in e
      {
        assert rs[1..][i - 1] == rs[i];
      }
      if rs[0].1 > 0 {
        assert e[0] == rs[0].0;
      }
      forall v | v in e
        ensures exists i | 0 <= i < |rs| :: rs[i].0 <= v
      {
        if v in Span(rs[0].0, rs[0].1) {
          var k :| 0 <= k < rs[0].1 && Span(rs[0].0, rs[0].1)[k] == v;
        } else {
          assert v in Expand(rs[1..]);
          var i :| 0 <= i < |rs[1..]| && rs[1..][i].0 <= v;
          assert rs[i + 1].0 <= v;
        }
      }
    }
  }

  lemma ExpandStartIn(rs: seq<Range>, i: nat)
    requires i < |rs| && rs[i].1 > 0
    ensures rs[i].0 in Expand(rs)
  {
    ExpandMembers(rs);
  }

  lemma ExpandMemberBelow(rs: seq<Range>, v: nat)
    requires v in Expand(rs)
    ensures exists i | 0 <= i < |rs| :: rs[i].0 <= v
  {
    ExpandMembers(rs);
  }

  /** The fold of `perform_processing_2` over the starts of some ranges. */
  method MinStart(rs: seq<Range>, acc: nat) returns (r: nat)
    ensures r <= acc && forall i | 0 <= i < |rs| :: r <= rs[i].0
    ensures r == acc || exists i | 0 <= i < |rs| :: r == rs[i].0
  {
    r := acc;
    for i := 0 to |rs|
      invariant r <= acc && forall j | 0 <= j < i :: r <= rs[j].0
      invariant r == acc || exists j | 0 <= j < i :: r == rs[j].0
    {
      if rs[i].0 < r {
        r := rs[i].0;
      }
    }
  }

  /** The seeds `seeds[2j] .. seeds[2j] + seeds[2j+1] - 1` of the j-th pair. */
  predicate InPair(seeds: seq<nat>, j: nat, x: nat) {
    2 * j + 1 < |seeds| && seeds[2 * j] <= x < seeds[2 * j] + seeds[2 * j + 1]
  }

  /** After at least one mapping every range left is non-empty. */
  lemma {:induction false} LocationRangesNonEmpty(sources: seq<Range>, mappings: seq<Mapping>)
    requires mappings != []
    ensures forall i | 0 <= i < |LocationRanges(sources, mappings)| :: LocationRanges(sources, mappings)[i].1 > 0
    decreases |mappings|
  {
    if mappings[1..] != [] {
      LocationRangesNonEmpty(DestinationRanges(sources, mappings[0]), mappings[1..]);
    }
  }

  /** The numbers the location ranges of a pair stand for are the
    * locations of the pair's seeds, in order. */
  lemma PairLocationsExpand(start: nat, length: nat, mappings: seq<Mapping>)
    ensures Expand(LocationRanges([(start, length)], mappings)) == LocationAll(Span(start, length), mappings)
  {
    LocationRangesAreLocations([(start, length)], mappings);
    ExpandSingle((start, length));
  }

  /** Every seed of a pair has a location range starting no later than its
    * location. */
  lemma PairRangesBelow(start: nat, length: nat, mappings: seq<Mapping>, x: nat)
    requires start <= x < start + length
    ensures exists i | 0 <= i < |LocationRanges([(start, length)], mappings)| ::
      LocationRanges([(start, length)], mappings)[i].0 <= Location(x, mappings)
  {
    var ranges := LocationRanges([(start, length)], mappings);
    var locations := LocationAll(Span(start, length), mappings);
    PairLocationsExpand(start, length, mappings);
    assert locations[x - start] == Location(x, mappings);
    ExpandMemberBelow(ranges, Location(x, mappings));
  }

  /** Every location range starts at the location of a seed of the pair. */
  lemma PairRangeStartsAttained(start: nat, length: nat, mappings: seq<Mapping>, i: nat)
    requires mappings != [] && i < |LocationRanges([(start, length)], mappings)|
    ensures exists x | start <= x < start + length ::
      LocationRanges([(start, length)], mappings)[i].0 == Location(x, mappings)
  {
    var ranges := LocationRanges([(start, length)], mappings);
    var locations := LocationAll(Span(start, length), mappings);
    LocationRangesNonEmpty([(start, length)], mappings);
    ExpandStartIn(ranges, i);
    PairLocationsExpand(start, length, mappings);
    var k :| 0 <= k < |locations| && locations[k] == ranges[i].0;
    assert Span(start, length)[k] == start + k;
  }

  /** One pair of `perform_processing_2`: the smallest location of a seed
    * in the pair's range, or `acc` when smaller. */
  method PairMinimum(start: nat, length: nat, mappings: seq<Mapping>, acc: nat) returns (r: nat)
    requires mappings != []
    requires forall k | 0 <= k < |mappings| :: NoUnderflow(mappings[k])
    ensures r <= acc && forall x | start <= x < start + length :: r <= Location(x, mappings)
    ensures r == acc || exists x | start <= x < start + length :: r == Location(x, mappings)
  {
    var ranges := GetLocationRanges(start, length, mappings);
    r := MinStart(ranges, acc);
    forall x | start <= x < start + length
      ensures r <= Location(x, mappings)
    {
      PairRangesBelow(start, length, mappings, x);
    }
    if r != acc {
      var i: nat :| i < |ranges| && r == ranges[i].0;
      PairRangeStartsAttained(start, length, mappings, i);
    }
  }

  /** `perform_processing_2`: the seeds read as (start, length) pairs (an
    * odd last seed is ignored); the smallest location of any seed in any
    * pair, folded from usize::MAX. */
  method PerformProcessing2(almanac: Almanac) returns (r: nat)
    requires |almanac.mappings| == StageCount
    requires forall k | 0 <= k < |almanac.mappings| :: NoUnderflow(almanac.mappings[k])
    ensures r <= USIZE_MAX
    ensures forall j: nat, x: nat | InPair(almanac.seeds, j, x) :: r <= Location(x, almanac.mappings)
    ensures r == USIZE_MAX || exists j: nat, x: nat | InPair(almanac.seeds, j, x) :: r == Location(x, almanac.mappings)
  {
    var seeds := almanac.seeds;
    r := USIZE_MAX;
    for j := 0 to |seeds| / 2
      invariant r <= USIZE_MAX
      invariant forall j': nat, x: nat | j' < j && InPair(seeds, j', x) :: r <= Location(x, almanac.mappings)
      invariant r == USIZE_MAX || exists j': nat, x: nat | j' < j && InPair(seeds, j', x) :: r == Location(x, almanac.mappings)
    {
      var before := r;
      r := PairMinimum(seeds[2 * j], seeds[2 * j + 1], almanac.mappings, r);
      if r != before {
        var x :| seeds[2 * j] <= x < seeds[2 * j] + seeds[2 * j + 1] && r == Location(x, almanac.mappings);
        assert InPair(seeds, j, x);
      }
    }
  }
}
