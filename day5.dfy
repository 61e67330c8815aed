// Seed almanac: a list of seeds and seven mappings (seed to soil, soil to
// fertilizer, ..., humidity to location), each a list of index maps that
// move a source range onto a destination range. Part one follows single
// seeds through the chain; part two (module Day5Ranges) follows whole
// ranges of seeds.
module Day5 {
  import opened Wrappers
  import opened Numbers
  import opened Processor

  /** Sources `sourceStart .. sourceStart + length - 1` go to the same
    * offsets from `destinationStart`. */
  datatype IndexMap = IndexMap(sourceStart: nat, destinationStart: nat, length: nat)

  type Mapping = seq<IndexMap>

  /** The section of the almanac being read. */
  datatype LoadingState =
    | Seeds
    | SeedToSoil
    | SoilToFertilizer
    | FertilizerToWater
    | WaterToLight
    | LightToTemperature
    | TemperatureToHumidity
    | HumidityToLocation

  /** The seeds and the seven mappings, in the order the chain uses them. */
  datatype Almanac = Almanac(seeds: seq<nat>, mappings: seq<Mapping>)

  const StageCount: nat := 7

  const Delimiters: set<char> := {' ', ':'}

  /** The empty almanac loading starts from. */
  function EmptyAlmanac(): (r: Almanac)
    ensures r.seeds == [] && |r.mappings| == StageCount
    ensures forall k | 0 <= k < StageCount :: r.mappings[k] == []
  {
    Almanac([], seq(StageCount, _ => []))
  }

  // ---------------------------------------------------------------------
  // Loading

  /** The position of a section in the file. */
  function Position(s: LoadingState): (r: nat)
    ensures r <= StageCount
    ensures r == 0 <==> s == Seeds
  {
    match s
    case Seeds => 0
    case SeedToSoil => 1
    case SoilToFertilizer => 2
    case FertilizerToWater => 3
    case WaterToLight => 4
    case LightToTemperature => 5
    case TemperatureToHumidity => 6
    case HumidityToLocation => 7
  }

  /** `get_next_loading_state`: the following section; None (the source
    * panics) after the last one. */
  function NextLoadingState(s: LoadingState): (r: Option<LoadingState>)
    ensures r.None? <==> s == HumidityToLocation
    ensures r.Some? ==> Position(r.value) == Position(s) + 1
  {
    match s
    case Seeds => Some(SeedToSoil)
    case SeedToSoil => Some(SoilToFertilizer)
    case SoilToFertilizer => Some(FertilizerToWater)
    case FertilizerToWater => Some(WaterToLight)
    case WaterToLight => Some(LightToTemperature)
    case LightToTemperature => Some(TemperatureToHumidity)
    case TemperatureToHumidity => Some(HumidityToLocation)
    case HumidityToLocation => None
  }

  /** `k` section changes from the seeds. */
  function Advance(s: LoadingState, k: nat): Option<LoadingState>
    decreases k
  {
    if k == 0 then Some(s)
    else
      match NextLoadingState(s)
      case None => None
      case Some(next) => Advance(next, k - 1)
  }

  /** The sections come in one fixed order: the k-th blank line moves to the
    * section at position k, and an eighth one fails. */
  lemma {:induction false} SectionsInOrder(s: LoadingState, k: nat)
    ensures Advance(s, k).Some? <==> Position(s) + k <= StageCount
    ensures Advance(s, k).Some? ==> Position(Advance(s, k).value) == Position(s) + k
    decreases k
  {
    if k > 0 && NextLoadingState(s).Some? {
      SectionsInOrder(NextLoadingState(s).value, k - 1);
    }
  }

  /** Positions name the sections one to one. */
  lemma PositionInjective(s: LoadingState, t: LoadingState)
    ensures Position(s) == Position(t) ==> s == t
  {
  }

  /** `load_seeds` from the word after "seeds:" on: usize words are read
    * while each is followed by a delimiter. The source panics when a word
    * is missing or does not parse. */
  function SeedsFrom(chars: string, seeds: seq<nat>): (r: Result<seq<nat>>)
    ensures r.Ok? ==> |r.value| > |seeds| && r.value[..|seeds|] == seeds
    decreases |chars|
  {
    match ReadNext(chars, Delimiters, ParseUsize)
    case Err(e) => Err(e)
    case Ok(t) =>
      if t.delimiter.Some? then SeedsFrom(t.rest, seeds + [t.value])
      else Ok(seeds + [t.value])
  }

  /** `load_seeds`: the first word is skipped (the source panics when there
    * is none), then the seeds are appended. */
  function SeedsLine(seeds: seq<nat>, line: string): Result<seq<nat>> {
    match NextWord(line, Delimiters)
    case None => Err("no seeds word")
    case Some(w) => SeedsFrom(w.rest, seeds)
  }

  /** The loop of `load_seeds`, proved to read exactly `SeedsLine`. */
  method LoadSeeds(seeds: seq<nat>, line: string) returns (r: Result<seq<nat>>)
    ensures r == SeedsLine(seeds, line)
  {
    var first := ReadWord(line, Delimiters);
    if first.None? {
      return Err("no seeds word");
    }
    var chars := first.value.rest;
    var read := seeds;
    var keepReading := true;
    while keepReading
      invariant keepReading ==> SeedsFrom(chars, read) == SeedsLine(seeds, line)
      invariant !keepReading ==> Ok(read) == SeedsLine(seeds, line)
      decreases |chars|, keepReading
    {
      var next := ReadNext(chars, Delimiters, ParseUsize);
      if next.Err? {
        return Err(next.error);
      }
      read := read + [next.value.value];
      keepReading := next.value.delimiter.Some?;
      chars := next.value.rest;
    }
    r := Ok(read);
  }

  /** The numbers written out with single spaces between them. */
  function Spaced(ns: seq<nat>): string
    requires |ns| > 0
  {
    if |ns| == 1 then ShowNat(ns[0]) else ShowNat(ns[0]) + [' '] + Spaced(ns[1..])
  }

  lemma NumeralHasNoDelimiter(n: nat)
    ensures NoneIn(ShowNat(n), Delimiters)
  {
    var s := ShowNat(n);
    forall i | 0 <= i < |s|
      ensures s[i] !in Delimiters
    {
      assert IsDigit(s[i]);
    }
  }

  /** A seed followed by a space is read and reading goes on. */
  lemma SeedsFromStep(n: nat, rest: string, seeds: seq<nat>)
    requires n <= USIZE_MAX
    ensures SeedsFrom(ShowNat(n) + [' '] + rest, seeds) == SeedsFrom(rest, seeds + [n])
  {
    NumeralHasNoDelimiter(n);
    ParseUnsignedShowNat(n, USIZE_MAX);
    NextWordSplits(ShowNat(n), ' ', rest, Delimiters);
  }

  /** A seed at the end of the line is read and ends the seeds. */
  lemma SeedsFromLast(n: nat, seeds: seq<nat>)
    requires n <= USIZE_MAX
    ensures SeedsFrom(ShowNat(n), seeds) == Ok(seeds + [n])
  {
    NumeralHasNoDelimiter(n);
    ParseUnsignedShowNat(n, USIZE_MAX);
    NextWordWhole(ShowNat(n), Delimiters);
  }

  /** Seeds written with single spaces read back in order. */
  lemma {:induction false} SeedsFromSpaced(ns: seq<nat>, seeds: seq<nat>)
    requires |ns| > 0 && forall i | 0 <= i < |ns| :: ns[i] <= USIZE_MAX
    ensures SeedsFrom(Spaced(ns), seeds) == Ok(seeds + ns)
    decreases |ns|
  {
    if |ns| == 1 {
      SeedsFromLast(ns[0], seeds);
      assert ns == [ns[0]];
    } else {
      SeedsFromStep(ns[0], Spaced(ns[1..]), seeds);
      SeedsFromSpaced(ns[1..], seeds + [ns[0]]);
      assert seeds + [ns[0]] + ns[1..] == seeds + ns;
    }
  }

  /** A space after the last seed makes the reader look for one more seed,
    * which is an error. */
  lemma SeedsFromTrailingSpace(n: nat, seeds: seq<nat>)
    requires n <= USIZE_MAX
    ensures SeedsFrom(ShowNat(n) + [' '], seeds).Err?
  {
    NumeralHasNoDelimiter(n);
    ParseUnsignedShowNat(n, USIZE_MAX);
    NextWordSplits(ShowNat(n), ' ', [], Delimiters);
    assert ShowNat(n) + [' '] == ShowNat(n) + [' '] + [];
    assert NextWord([], Delimiters).None?;
  }

  /** `load_mapping_line`: a line that does not start with a usize adds
    * nothing; otherwise destination start, source start and length are
    * read (the source panics when the last two are missing) and the map
    * appended. */
  function MappingLine(mapping: Mapping, line: string): (r: Result<Mapping>)
    ensures ReadNext(line, Delimiters, ParseUsize).Err? ==> r == Ok(mapping)
    ensures r.Ok? && ReadNext(line, Delimiters, ParseUsize).Ok? ==>
              |r.value| == |mapping| + 1 && r.value[..|mapping|] == mapping &&
              r.value[|mapping|].destinationStart == ReadNext(line, Delimiters, ParseUsize).value.value
  {
    match ReadNext(line, Delimiters, ParseUsize)
    case Err(_) => Ok(mapping)
    case Ok(destination) =>
      match ReadNext(destination.rest, Delimiters, ParseUsize)
      case Err(e) => Err(e)
      case Ok(source) =>
        match ReadNext(source.rest, Delimiters, ParseUsize)
        case Err(e) => Err(e)
        case Ok(length) =>
          var r := mapping + [IndexMap(source.value, destination.value, length.value)];
          assert r[..|mapping|] == mapping;
          Ok(r)
  }

  /** A map line "destination source length" appends that map. */
  lemma MappingLineReads(mapping: Mapping, d: nat, s: nat, l: nat)
    requires d <= USIZE_MAX && s <= USIZE_MAX && l <= USIZE_MAX
    ensures MappingLine(mapping, Spaced([d, s, l])) == Ok(mapping + [IndexMap(s, d, l)])
  {
    SeedsFromSpaced([d, s, l], []);
    assert [d, s, l][1..] == [s, l] && [s, l][1..] == [l];
    NumeralHasNoDelimiter(d);
    NumeralHasNoDelimiter(s);
    NumeralHasNoDelimiter(l);
    ParseUnsignedShowNat(d, USIZE_MAX);
    ParseUnsignedShowNat(s, USIZE_MAX);
    ParseUnsignedShowNat(l, USIZE_MAX);
    NextWordWhole(ShowNat(l), Delimiters);
    NextWordSplits(ShowNat(s), ' ', Spaced([l]), Delimiters);
    NextWordSplits(ShowNat(d), ' ', Spaced([s, l]), Delimiters);
  }

  /** The mapping filled in the section `s`. */
  function Stage(s: LoadingState): (k: nat)
    requires s != Seeds
    ensures k < StageCount
  {
    Position(s) - 1
  }

  /** `parse_line`: a blank line moves to the next section (an error after
    * the last); any other line is read into the current section. */
  function ParseLine(state: (LoadingState, Almanac), line: string): (r: Result<(LoadingState, Almanac)>)
    requires |state.1.mappings| == StageCount
    ensures r.Ok? ==> |r.value.1.mappings| == StageCount
    ensures Trim(line) == [] ==> (r.Ok? <==> state.0 != HumidityToLocation)
    ensures Trim(line) == [] && r.Ok? ==> Position(r.value.0) == Position(state.0) + 1 && r.value.1 == state.1
    ensures Trim(line) != [] && r.Ok? ==> r.value.0 == state.0
    ensures Trim(line) != [] && r.Ok? && state.0 != Seeds ==>
              r.value.1.seeds == state.1.seeds &&
              forall k | 0 <= k < StageCount && k != Stage(state.0) :: r.value.1.mappings[k] == state.1.mappings[k]
  {
    var (loading, almanac) := state;
    if Trim(line) == [] then
      match NextLoadingState(loading)
      case None => Err("HumidityToLocation expected to be last state")
      case Some(next) => Ok((next, almanac))
    else if loading == Seeds then
      match SeedsLine(almanac.seeds, line)
      case Err(e) => Err(e)
      case Ok(seeds) => Ok((loading, almanac.(seeds := seeds)))
    else
      var k := Stage(loading);
      match MappingLine(almanac.mappings[k], line)
      case Err(e) => Err(e)
      case Ok(mapping) => Ok((loading, almanac.(mappings := almanac.mappings[k := mapping])))
  }

  // ---------------------------------------------------------------------
  // Sorting the mappings

  predicate SortedBySource(m: Mapping) {
    forall i, j | 0 <= i < j < |m| :: m[i].sourceStart <= m[j].sourceStart
  }

  /** Inserts `x` after every map that does not start after it. */
  function InsertBySource(x: IndexMap, m: Mapping): (r: Mapping)
    requires SortedBySource(m)
    ensures |r| == |m| + 1 && multiset(r) == multiset(m) + multiset{x}
    ensures r[0] == x || (m != [] && r[0] == m[0])
    ensures SortedBySource(r)
  {
    if m == [] then [x]
    else if x.sourceStart < m[0].sourceStart then [x] + m
    else
      var rest := InsertBySource(x, m[1..]);
      assert m == [m[0]] + m[1..];
      assert m[0].sourceStart <= rest[0].sourceStart;
      [m[0]] + rest
  }

  /** `sort_by(source_first)`: the maps ordered by source start. */
  function SortBySource(m: Mapping): (r: Mapping)
    ensures SortedBySource(r) && multiset(r) == multiset(m)
  {
    if m == [] then []
    else
      assert m == m[..|m| - 1] + [m[|m| - 1]];
      InsertBySource(m[|m| - 1], SortBySource(m[..|m| - 1]))
  }

  /** `finalise_state`: every mapping sorted by source start; the seeds
    * are kept. */
  function FinaliseState(state: (LoadingState, Almanac)): (r: Almanac)
    requires |state.1.mappings| == StageCount
    ensures r.seeds == state.1.seeds && |r.mappings| == StageCount
    ensures forall k | 0 <= k < StageCount ::
              SortedBySource(r.mappings[k]) && multiset(r.mappings[k]) == multiset(state.1.mappings[k])
  {
    var almanac := state.1;
    almanac.(mappings := seq(StageCount, k requires 0 <= k < StageCount => SortBySource(almanac.mappings[k])))
  }

  // ---------------------------------------------------------------------
  // Single seeds

  /** The map sends `source` somewhere. */
  predicate Covers(im: IndexMap, source: nat) {
    im.sourceStart <= source < im.sourceStart + im.length
  }

  /** Where a covering map sends `source`. */
  function Translate(im: IndexMap, source: nat): nat
    requires im.sourceStart <= source
  {
    im.destinationStart + (source - im.sourceStart)
  }

  /** `source_start + length - 1` is computed in usize, so the source
    * needs it not to underflow. */
  predicate NoUnderflow(m: Mapping) {
    forall i | 0 <= i < |m| :: m[i].sourceStart + m[i].length > 0
  }

  /** The scan of `get_destination`: stop at the first map starting after
    * the source, skip maps ending before it, use the first map covering it. */
  function Lookup(source: nat, m: Mapping): nat {
    if m == [] then source
    else if m[0].sourceStart > source then source
    else if source > m[0].sourceStart + m[0].length - 1 then Lookup(source, m[1..])
    else Translate(m[0], source)
  }

  /** On a sorted mapping the scan finds the first map covering the source,
    * and the source is kept when no map covers it. */
  lemma {:induction false} LookupFindsCover(source: nat, m: Mapping)
    requires SortedBySource(m)
    ensures (forall i | 0 <= i < |m| :: !Covers(m[i], source)) ==> Lookup(source, m) == source
    ensures forall i | 0 <= i < |m| && Covers(m[i], source) && (forall j | 0 <= j < i :: !Covers(m[j], source)) ::
              Lookup(source, m) == Translate(m[i], source)
  {
    if m != [] && m[0].sourceStart <= source && source > m[0].sourceStart + m[0].length - 1 {
      LookupFindsCover(source, m[1..]);
      forall i | 1 <= i < |m| && Covers(m[i], source) && (forall j | 0 <= j < i :: !Covers(m[j], source))
        ensures Lookup(source, m) == Translate(m[i], source)
      {
        assert m[1..][i - 1] == m[i];
        assert forall j | 0 <= j < i - 1 :: m[1..][j] == m[j + 1];
      }
      if forall i | 0 <= i < |m| :: !Covers(m[i], source) {
        assert forall i | 0 <= i < |m[1..]| :: m[1..][i] == m[i + 1];
      }
    }
  }

  /** `get_destination`: the scan as a loop with early exits. */
  method GetDestination(source: nat, m: Mapping) returns (r: nat)
    requires NoUnderflow(m)
    ensures r == Lookup(source, m)
  {
    for i := 0 to |m|
      invariant Lookup(source, m[i..]) == Lookup(source, m)
    {
      var im := m[i];
      assert m[i..][1..] == m[i + 1..];
      if im.sourceStart > source {
        return source;
      }
      if source > im.sourceStart + im.length - 1 {
        continue;
      }
      return Translate(im, source);
    }
    r := source;
  }

  /** A seed followed through the mappings in turn. */
  function Location(seed: nat, mappings: seq<Mapping>): nat
    decreases |mappings|
  {
    if mappings == [] then seed else Location(Lookup(seed, mappings[0]), mappings[1..])
  }

  /** `calculate_location`: seed to soil, ..., humidity to location. */
  method CalculateLocation(seed: nat, mappings: seq<Mapping>) returns (r: nat)
    requires forall k | 0 <= k < |mappings| :: NoUnderflow(mappings[k])
    ensures r == Location(seed, mappings)
  {
    r := seed;
    for k := 0 to |mappings|
      invariant Location(r, mappings[k..]) == Location(seed, mappings)
    {
      assert mappings[k..][1..] == mappings[k + 1..];
      r := GetDestination(r, mappings[k]);
    }
  }

  /** `perform_processing_1`: the smallest location of any seed, folded
    * from usize::MAX. */
  method PerformProcessing1(almanac: Almanac) returns (r: nat)
    requires forall k | 0 <= k < |almanac.mappings| :: NoUnderflow(almanac.mappings[k])
    ensures r <= USIZE_MAX
    ensures forall i | 0 <= i < |almanac.seeds| :: r <= Location(almanac.seeds[i], almanac.mappings)
    ensures r == USIZE_MAX || exists i | 0 <= i < |almanac.seeds| :: r == Location(almanac.seeds[i], almanac.mappings)
  {
    r := USIZE_MAX;
    for i := 0 to |almanac.seeds|
      invariant r <= USIZE_MAX
      invariant forall j | 0 <= j < i :: r <= Location(almanac.seeds[j], almanac.mappings)
      invariant r == USIZE_MAX || exists j | 0 <= j < i :: r == Location(almanac.seeds[j], almanac.mappings)
    {
      var location := CalculateLocation(almanac.seeds[i], almanac.mappings);
      if location < r {
        r := location;
      }
    }
  }
}
