// Day 6: toy boat races. Holding the boat's button for `hold` milliseconds
// of a race lasting `time` milliseconds gives it speed `hold` for the
// remaining `time - hold` milliseconds; a hold wins when the distance
// travelled beats the race's record.
module Day6 {
  import opened Wrappers
  import opened Numbers
  import opened Processor

  datatype LoadingState = Times | Distances | Done

  datatype RaceStats = RaceStats(time: nat, recordDistance: nat)

  /** The loading state, the times read and the distances read. */
  type InitialState = (LoadingState, seq<nat>, seq<nat>)

  const Delimiters: set<char> := {':', ' '}

  // ---------------------------------------------------------------------
  // Loading

  /** The read loop of `load_values` from `chars` on: u64 values are
    * appended until a word is missing or does not parse as a u64. */
  function ValuesFrom(chars: string, storage: seq<nat>): (r: seq<nat>)
    ensures |r| >= |storage| && r[..|storage|] == storage
    decreases |chars|
  {
    match ReadNext(chars, Delimiters, ParseU64)
    case Err(_) => storage
    case Ok(t) => ValuesFrom(t.rest, storage + [t.value])
  }

  /** `load_values`: the line's first word names it and is skipped; the
    * values after it are appended. */
  function Loaded(line: string, storage: seq<nat>): (r: seq<nat>)
    ensures |r| >= |storage| && r[..|storage|] == storage
  {
    match NextWord(line, Delimiters)
    case None => storage
    case Some(w) => ValuesFrom(w.rest, storage)
  }

  /** The loop of `load_values`, proved to append exactly `Loaded`. */
  method LoadValues(line: string, storage: seq<nat>) returns (r: seq<nat>)
    ensures r == Loaded(line, storage)
  {
    r := storage;
    var name := ReadWord(line, Delimiters);
    if name.Some? {
      var chars := name.value.rest;
      var keepGoing := true;
      while keepGoing
        invariant keepGoing ==> ValuesFrom(chars, r) == Loaded(line, storage)
        invariant !keepGoing ==> r == Loaded(line, storage)
        decreases |chars|, keepGoing
      {
        match ReadNext(chars, Delimiters, ParseU64) {
          case Ok(t) =>
            r, chars := r + [t.value], t.rest;
          case Err(_) =>
            keepGoing := false;
        }
      }
    }
  }

  /** Values each followed by a space. */
  function Listed(values: seq<nat>): string {
    if values == [] then [] else ShowNat(values[0]) + [' '] + Listed(values[1..])
  }

  /** A named line of values, as in "Time: 7 15 30 ". */
  function ValuesLine(name: string, values: seq<nat>): string {
    name + [':'] + ([' '] + Listed(values))
  }

  lemma NumeralHasNoDelimiter(n: nat)
    ensures NoneIn(ShowNat(n), Delimiters)
  {
    var s := ShowNat(n);
    forall i | 0 <= i < |s|
      ensures s[i] !in Delimiters
    {
      assert IsDigit(s[i]);
    }
  }

  /** A value and the delimiter after it are read and reading goes on. */
  lemma ValuesFromStep(v: nat, tail: string, storage: seq<nat>)
    requires v <= U64_MAX
    ensures ValuesFrom(ShowNat(v) + [' '] + tail, storage) == ValuesFrom(tail, storage + [v])
  {
    NumeralHasNoDelimiter(v);
    ParseUnsignedShowNat(v, U64_MAX);
    NextWordSplits(ShowNat(v), ' ', tail, Delimiters);
  }

  /** Nothing is read from an empty rest of line. */
  lemma ValuesFromEmpty(storage: seq<nat>)
    ensures ValuesFrom([], storage) == storage
  {
    assert NextWord([], Delimiters).None?;
  }

  /** Listed values read back in order. */
  lemma {:induction false} ValuesFromListed(values: seq<nat>, storage: seq<nat>)
    requires forall i | 0 <= i < |values| :: values[i] <= U64_MAX
    ensures ValuesFrom(Listed(values), storage) == storage + values
    decreases |values|
  {
    if values == [] {
      ValuesFromEmpty(storage);
      assert storage + values == storage;
    } else {
      var v, rest := values[0], values[1..];
      var tail := Listed(rest);
      assert forall i | 0 <= i < |rest| :: rest[i] == values[i + 1];
      calc {
        ValuesFrom(Listed(values), storage);
        { assert Listed(values) == ShowNat(v) + [' '] + tail; }
        ValuesFrom(ShowNat(v) + [' '] + tail, storage);
        { ValuesFromStep(v, tail, storage); }
        ValuesFrom(tail, storage + [v]);
        { ValuesFromListed(rest, storage + [v]); }
        storage + [v] + rest;
      }
      assert storage + [v] + rest == storage + values;
    }
  }

  /** Loading a named line of values appends exactly those values. */
  lemma LoadedValuesLine(name: string, values: seq<nat>, storage: seq<nat>)
    requires |name| > 0 && NoneIn(name, Delimiters)
    requires forall i | 0 <= i < |values| :: values[i] <= U64_MAX
    ensures Loaded(ValuesLine(name, values), storage) == storage + values
  {
    NextWordSplits(name, ':', [' '] + Listed(values), Delimiters);
    NextWordSkipsDelimiters([' '], Listed(values), Delimiters);
    ValuesFromListed(values, storage);
  }

  /** `parse_line`: the first line loads the times, the second the
    * distances, and a third is an error. */
  function ParseLine(state: InitialState, line: string): (r: Result<InitialState>)
    ensures r.Err? <==> state.0 == Done
    ensures state.0 == Times && r.Ok? ==> r.value.0 == Distances && r.value.2 == state.2
    ensures state.0 == Distances && r.Ok? ==> r.value.0 == Done && r.value.1 == state.1
    ensures r.Ok? ==> |r.value.1| >= |state.1| && r.value.1[..|state.1|] == state.1
    ensures r.Ok? ==> |r.value.2| >= |state.2| && r.value.2[..|state.2|] == state.2
  {
    match state.0
    case Times => Ok((Distances, Loaded(line, state.1), state.2))
    case Distances => Ok((Done, state.1, Loaded(line, state.2)))
    case Done => Err("Unexpectedly reached Done while loading")
  }

  const Start: InitialState := (Times, [], [])

  /** Two lines load the times from the first and the distances from the
    * second. */
  lemma TwoLines(first: string, second: string)
    ensures ParseLines(Start, [first, second], ParseLine) == Ok((Done, Loaded(first, []), Loaded(second, [])))
  {
    ParseLinesAppend(Start, [], first, ParseLine);
    assert [] + [first] == [first];
    ParseLinesAppend(Start, [first], second, ParseLine);
    assert [first] + [second] == [first, second];
  }

  /** An input of more than two lines is an error. */
  lemma {:induction false} ThirdLineFails(lines: seq<string>)
    requires |lines| >= 3
    ensures ParseLines(Start, lines, ParseLine).Err?
    decreases |lines|
  {
    var front := lines[..|lines| - 1];
    assert lines == front + [lines[|lines| - 1]];
    ParseLinesAppend(Start, front, lines[|lines| - 1], ParseLine);
    if |lines| == 3 {
      TwoLines(lines[0], lines[1]);
      assert front == [lines[0], lines[1]];
    } else {
      ThirdLineFails(front);
    }
  }

  /** `finalise_state_1`: the i-th time paired with the i-th distance, up
    * to the shorter of the two lists (`zip`). */
  function FinaliseState1(times: seq<nat>, distances: seq<nat>): (r: seq<RaceStats>)
    ensures |r| <= |times| && |r| <= |distances|
    ensures |r| == |times| || |r| == |distances|
    ensures forall i | 0 <= i < |r| :: r[i].time == times[i] && r[i].recordDistance == distances[i]
  {
    var n := if |times| < |distances| then |times| else |distances|;
    seq(n, i requires 0 <= i < n => RaceStats(times[i], distances[i]))
  }

  /** The values written one after another in decimal, as the string
    * builder of `finalise_state_2` joins them. */
  function Joined(values: seq<nat>): (r: string)
    ensures AllDigits(r) && (r == [] <==> values == [])
  {
    if values == [] then [] else Joined(values[..|values| - 1]) + ShowNat(values[|values| - 1])
  }

  lemma ShiftDigit(x: nat, p: nat, y: nat, d: nat)
    ensures (x * p + y) * 10 + d == x * (10 * p) + (y * 10 + d)
  {
  }

  /** The value of digits written after other digits. */
  lemma {:induction false} DecimalValueAppend(a: string, b: string)
    requires AllDigits(a) && AllDigits(b)
    ensures AllDigits(a + b)
    ensures DecimalValue(a + b) == DecimalValue(a) * Pow(10, |b|) + DecimalValue(b)
    decreases |b|
  {
    if b == [] {
      assert a + b == a;
    } else {
      var b' := b[..|b| - 1];
      var c := b[|b| - 1];
      var ab := a + b;
      assert ab == (a + b') + [c];
      assert AllDigits(b');
      DecimalValueAppend(a, b');
      assert ab[..|ab| - 1] == a + b';
      ShiftDigit(DecimalValue(a), Pow(10, |b'|), DecimalValue(b'), DigitValue(c));
    }
  }

  /** Joining one more value shifts the digits so far left by the width of
    * its numeral and adds it. */
  lemma JoinedValue(values: seq<nat>, v: nat)
    ensures DecimalValue(Joined(values + [v])) == DecimalValue(Joined(values)) * Pow(10, |ShowNat(v)|) + v
  {
    assert (values + [v])[..|values|] == values;
    DecimalValueAppend(Joined(values), ShowNat(v));
  }

  /** The joined digits read as a u64, as `parse::<u64>` reads them. */
  function JoinedU64(values: seq<nat>): (r: Option<nat>)
    ensures r.Some? <==> values != [] && DecimalValue(Joined(values)) <= U64_MAX
    ensures r.Some? ==> r.value == DecimalValue(Joined(values))
  {
    var s := Joined(values);
    assert s != [] ==> s[0] != '+' by {
      if s != [] {
        assert IsDigit(s[0]);
      }
    }
    ParseU64(s)
  }

  /** `finalise_state_2`: the kerning is ignored, so all the times form one
    * number and all the distances another. */
  function FinaliseState2(times: seq<nat>, distances: seq<nat>): (r: Result<RaceStats>)
    ensures r.Ok? <==> times != [] && distances != []
                       && DecimalValue(Joined(times)) <= U64_MAX && DecimalValue(Joined(distances)) <= U64_MAX
    ensures r.Ok? ==> r.value.time == DecimalValue(Joined(times))
                      && r.value.recordDistance == DecimalValue(Joined(distances))
  {
    match JoinedU64(times)
    case None => Err("invalid digit found in string")
    case Some(time) =>
      match JoinedU64(distances)
      case None => Err("invalid digit found in string")
      case Some(distance) => Ok(RaceStats(time, distance))
  }

  /** A single race is read back unchanged. */
  lemma FinaliseSingleRace(time: nat, distance: nat)
    requires time <= U64_MAX && distance <= U64_MAX
    ensures FinaliseState2([time], [distance]) == Ok(RaceStats(time, distance))
  {
    assert [time][..0] == [];
    assert [distance][..0] == [];
    assert Joined([time]) == ShowNat(time);
    assert Joined([distance]) == ShowNat(distance);
  }

  // ---------------------------------------------------------------------
  // Races

  /** `caclulate_distance_for_hold_time`. */
  function Distance(race: RaceStats, hold: nat): nat
    requires hold <= race.time
  {
    (race.time - hold) * hold
  }

  predicate Wins(race: RaceStats, hold: nat) {
    hold <= race.time && Distance(race, hold) > race.recordDistance
  }

  /** Holding for `hold` or for `time - hold` goes the same distance. */
  lemma DistanceSymmetric(race: RaceStats, hold: nat)
    requires hold <= race.time
    ensures Distance(race, race.time - hold) == Distance(race, hold)
  {
  }

  /** Holding for no time or for the whole race goes nowhere, so neither
    * ever wins. */
  lemma EndsNeverWin(race: RaceStats)
    ensures !Wins(race, 0) && !Wins(race, race.time)
  {
  }

  /** How much further holding for `b` goes than holding for `a`. */
  lemma DistanceGap(t: int, a: int, b: int)
    ensures (t - b) * b - (t - a) * a == (b - a) * (t - a - b)
  {
    calc {
      (b - a) * (t - a - b);
      b * (t - a - b) - a * (t - a - b);
      (b * t - b * a - b * b) - (a * t - a * a - a * b);
      (t - b) * b - (t - a) * a;
    }
  }

  lemma NonNegativeProduct(x: int, y: int)
    requires x >= 0 && y >= 0
    ensures x * y >= 0
  {
  }

  /** The winning holds have no gaps: the distance rises and then falls. */
  lemma WinnersContiguous(race: RaceStats, a: nat, b: nat, c: nat)
    requires a <= b <= c && Wins(race, a) && Wins(race, c)
    ensures Wins(race, b)
  {
    var t: int := race.time;
    if a + b <= race.time {
      DistanceGap(t, a, b);
      NonNegativeProduct(b - a, t - a - b);
    } else {
      DistanceGap(t, c, b);
      NonNegativeProduct(c - b, b + c - t);
    }
  }

  /** The distances of the winning holds in `lo .. hi - 1`, in hold order:
    * the map and filter of `find_winning_combinations`. */
  function WinningDistances(race: RaceStats, lo: nat, hi: nat): (r: seq<nat>)
    ensures |r| <= if lo <= hi then hi - lo else 0
    ensures forall i | 0 <= i < |r| :: r[i] > race.recordDistance
    ensures forall h | lo <= h < hi && Wins(race, h) :: Distance(race, h) in r
    decreases hi - lo
  {
    if hi <= lo then []
    else (if Wins(race, lo) then [Distance(race, lo)] else []) + WinningDistances(race, lo + 1, hi)
  }

  lemma {:induction false} WinningDistancesSplit(race: RaceStats, lo: nat, mid: nat, hi: nat)
    requires lo <= mid <= hi
    ensures WinningDistances(race, lo, hi) == WinningDistances(race, lo, mid) + WinningDistances(race, mid, hi)
    decreases mid - lo
  {
    if lo < mid {
      WinningDistancesSplit(race, lo + 1, mid, hi);
    }
  }

  /** When every hold of a stretch wins, each contributes one distance. */
  lemma {:induction false} AllWinCount(race: RaceStats, lo: nat, hi: nat)
    requires lo <= hi && forall h | lo <= h < hi :: Wins(race, h)
    ensures |WinningDistances(race, lo, hi)| == hi - lo
    decreases hi - lo
  {
    if lo < hi {
      AllWinCount(race, lo + 1, hi);
    }
  }

  /** When no hold of a stretch wins, it contributes nothing. */
  lemma {:induction false} NoneWinEmpty(race: RaceStats, lo: nat, hi: nat)
    requires forall h | lo <= h < hi :: !Wins(race, h)
    ensures WinningDistances(race, lo, hi) == []
    decreases hi - lo
  {
    if lo < hi {
      NoneWinEmpty(race, lo + 1, hi);
    }
  }

  /** `find_winning_combinations`: the holds `1 .. time - 2` (the range
    * `1..time - 1` excludes its end). */
  function FindWinningCombinations(race: RaceStats): (r: seq<nat>)
    requires race.time >= 1
    ensures forall i | 0 <= i < |r| :: r[i] > race.recordDistance
    ensures forall h | 1 <= h < race.time - 1 && Wins(race, h) :: Distance(race, h) in r
  {
    WinningDistances(race, 1, race.time - 1)
  }

  /** `find_winning_combinations` over the holds the source's comment
    * intends: all but 0 and `time`. */
  function FindWinningCombinationsCorrected(race: RaceStats): (r: seq<nat>)
    ensures forall h | 1 <= h < race.time && Wins(race, h) :: Distance(race, h) in r
  {
    WinningDistances(race, 1, race.time)
  }

  /** Leaving out holds 0 and `time` loses no winner: the corrected count is
    * that of every possible hold. */
  lemma CorrectedCountsEveryHold(race: RaceStats)
    ensures FindWinningCombinationsCorrected(race) == WinningDistances(race, 0, race.time + 1)
  {
    EndsNeverWin(race);
    if race.time == 0 {
      NoneWinEmpty(race, 0, 1);
    } else {
      WinningDistancesSplit(race, 0, 1, race.time + 1);
      WinningDistancesSplit(race, 1, race.time, race.time + 1);
      NoneWinEmpty(race, race.time, race.time + 1);
    }
  }

  /** Holding for `time - 1` goes as far as holding for 1, so the range of
    * the source misses a winner whenever hold 1 wins: a 7 ms race with
    * record 5 has six winning holds and five are counted. */
  lemma MissedLastHold()
    ensures Wins(RaceStats(7, 5), 6)
    ensures |FindWinningCombinations(RaceStats(7, 5))| == 5
    ensures |FindWinningCombinationsCorrected(RaceStats(7, 5))| == 6
  {
    var race := RaceStats(7, 5);
    forall h | 1 <= h < 7
      ensures Wins(race, h)
    {
      assert Distance(race, h) == (7 - h) * h;
    }
    AllWinCount(race, 1, 6);
    AllWinCount(race, 1, 7);
  }

  // ---------------------------------------------------------------------
  // Part one

  /** `perform_processing_1`: the number of winning holds of each race;
    * a race of time 0 makes `time - 1` overflow, a panic here an error. */
  function PerformProcessing1(races: seq<RaceStats>): (r: Result<seq<nat>>)
    ensures r.Err? <==> exists i | 0 <= i < |races| :: races[i].time == 0
    ensures r.Ok? ==> |r.value| == |races|
    ensures r.Ok? ==> forall i | 0 <= i < |races| :: r.value[i] == |FindWinningCombinations(races[i])|
  {
    if exists i | 0 <= i < |races| :: races[i].time == 0 then Err("attempt to subtract with overflow")
    else Ok(seq(|races|, i requires 0 <= i < |races| => |FindWinningCombinations(races[i])|))
  }

  /** `calc_result_1`. */
  function CalcResult1(counts: seq<nat>): (r: nat)
    ensures r == 0 <==> exists i | 0 <= i < |counts| :: counts[i] == 0
    decreases |counts|
  {
    if counts == [] then 1
    else
      var front := CalcResult1(counts[..|counts| - 1]);
      assert forall i | 0 <= i < |counts| - 1 :: counts[..|counts| - 1][i] == counts[i];
      front * counts[|counts| - 1]
  }

  /** The fold is the product of the counts. */
  lemma {:induction false} CalcResult1IsProduct(counts: seq<nat>)
    ensures CalcResult1(counts) == Product(counts)
    decreases |counts|
  {
    if counts != [] {
      CalcResult1IsProduct(counts[..|counts| - 1]);
    }
  }

  // ---------------------------------------------------------------------
  // Part two

  /** The `find` of `perform_processing_2`: the first winning hold. */
  function FirstWinning(race: RaceStats, lo: nat, hi: nat): (r: Option<nat>)
    ensures r.Some? ==> lo <= r.value < hi && Wins(race, r.value)
    ensures r.Some? ==> forall h | lo <= h < r.value :: !Wins(race, h)
    ensures r.None? ==> forall h | lo <= h < hi :: !Wins(race, h)
    decreases hi - lo
  {
    if hi <= lo then None
    else if Wins(race, lo) then Some(lo)
    else FirstWinning(race, lo + 1, hi)
  }

  /** The reversed `find` of `perform_processing_2`: the last winning hold. */
  function LastWinning(race: RaceStats, lo: nat, hi: nat): (r: Option<nat>)
    ensures r.Some? ==> lo <= r.value < hi && Wins(race, r.value)
    ensures r.Some? ==> forall h | r.value < h < hi :: !Wins(race, h)
    ensures r.None? ==> forall h | lo <= h < hi :: !Wins(race, h)
    decreases hi - lo
  {
    if hi <= lo then None
    else if Wins(race, hi - 1) then Some(hi - 1)
    else LastWinning(race, lo, hi - 1)
  }

  const LastMissing: Result<nat> := Err("Failed to find the last winning time")

  /** The span from the first to the last winning hold of `lo .. hi - 1`. */
  function WinningSpan(race: RaceStats, lo: nat, hi: nat): Result<nat> {
    match FirstWinning(race, lo, hi)
    case None => Err("Failed to find the first winning time")
    case Some(first) =>
      match LastWinning(race, lo, hi)
      case None => LastMissing
      case Some(last) => Ok(last - first + 1)
  }

  /** Winners from `first` to `last` and none elsewhere: the stretch
    * counts `last - first + 1` winners. */
  lemma CountBetween(race: RaceStats, lo: nat, first: nat, last: nat, hi: nat)
    requires lo <= first <= last < hi && Wins(race, first) && Wins(race, last)
    requires forall h | lo <= h < first :: !Wins(race, h)
    requires forall h | last < h < hi :: !Wins(race, h)
    ensures |WinningDistances(race, lo, hi)| == last - first + 1
  {
    AllBetweenWin(race, first, last);
    AllWinCount(race, first, last + 1);
    NoneWinEmpty(race, lo, first);
    NoneWinEmpty(race, last + 1, hi);
    WinningDistancesSplit(race, lo, first, hi);
    WinningDistancesSplit(race, first, last + 1, hi);
    var middle := WinningDistances(race, first, last + 1);
    assert WinningDistances(race, lo, hi) == [] + (middle + []);
  }

  /** Every hold between two winners wins. */
  lemma AllBetweenWin(race: RaceStats, first: nat, last: nat)
    requires Wins(race, first) && Wins(race, last)
    ensures forall h | first <= h < last + 1 :: Wins(race, h)
  {
    forall h | first <= h < last + 1
      ensures Wins(race, h)
    {
      WinnersContiguous(race, first, h, last);
    }
  }

  /** Because the winners have no gaps, the span counts exactly the
    * winning holds, and there is none exactly when it is an error. */
  lemma WinningSpanCounts(race: RaceStats, lo: nat, hi: nat)
    ensures WinningSpan(race, lo, hi).Err? <==> WinningDistances(race, lo, hi) == []
    ensures WinningSpan(race, lo, hi).Ok? ==> WinningSpan(race, lo, hi).value == |WinningDistances(race, lo, hi)|
  {
    var first := FirstWinning(race, lo, hi);
    if first.None? {
      NoneWinEmpty(race, lo, hi);
    } else {
      var last := LastWinning(race, lo, hi);
      CountBetween(race, lo, first.value, last.value, hi);
    }
  }

  /** `perform_processing_2`: the last winning hold less the first plus
    * one, over the same holds as part one; this is part one's count. */
  function PerformProcessing2(race: RaceStats): (r: Result<nat>)
    ensures r.Err? <==> race.time == 0 || FindWinningCombinations(race) == []
    ensures r.Ok? ==> r.value == |FindWinningCombinations(race)|
  {
    if race.time == 0 then Err("attempt to subtract with overflow")
    else
      WinningSpanCounts(race, 1, race.time - 1);
      WinningSpan(race, 1, race.time - 1)
  }

  /** `perform_processing_2` over the intended holds. */
  function PerformProcessing2Corrected(race: RaceStats): (r: Result<nat>)
    ensures r.Err? <==> WinningDistances(race, 0, race.time + 1) == []
    ensures r.Ok? ==> r.value == |WinningDistances(race, 0, race.time + 1)|
  {
    WinningSpanCounts(race, 1, race.time);
    CorrectedCountsEveryHold(race);
    WinningSpan(race, 1, race.time)
  }

  /** Part two misses the same hold: the 7 ms race with record 5 gives 5
    * instead of 6. */
  lemma MissedLastHoldPartTwo()
    ensures PerformProcessing2(RaceStats(7, 5)) == Ok(5)
    ensures PerformProcessing2Corrected(RaceStats(7, 5)) == Ok(6)
  {
    MissedLastHold();
    CorrectedCountsEveryHold(RaceStats(7, 5));
  }
}
