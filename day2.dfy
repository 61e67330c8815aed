// Cube games: each line is "Game n: " followed by picks separated by ';',
// each pick a list of "count colour" separated by ','. Part one sums the
// numbers of the games possible with 12 red, 13 green and 14 blue cubes;
// part two sums the games' powers.
module Day2 {
  import opened Wrappers
  import opened Numbers
  import opened Processor

  /** The count shown of each colour in one pick. */
  type Pick = map<string, int>

  datatype Game = Game(number: int, picks: seq<Pick>)

  const Delimiters: set<char> := {' ', ':', ',', ';'}

  // ---------------------------------------------------------------------
  // Parsing

  /** A colour word ends its pick when a ';' or the end of the line follows it. */
  predicate EndsPick(delimiter: Option<char>) {
    delimiter.None? || delimiter == Some(';')
  }

  function PickMeasure(next: Result<Token<int>>): nat {
    if next.Ok? then |next.value.rest| + 1 else 0
  }

  /** The picks of a line, given the outcome `next` of reading the next
    * count, the colours of the pick being read (`cubes`) and the picks
    * finished so far. Reading stops quietly at the first word that is not
    * a count, dropping an unfinished pick; a count with no colour word
    * after it is an error. A colour seen twice in a pick keeps the later
    * count. */
  function ReadPicks(next: Result<Token<int>>, cubes: Pick, picks: seq<Pick>): Result<seq<Pick>>
    decreases PickMeasure(next)
  {
    if next.Err? then Ok(picks)
    else
      match NextWord(next.value.rest, Delimiters)
      case None => Err("Expected a colour after the count")
      case Some(colour) =>
        var cubes' := cubes[colour.text := next.value.value];
        var following := ReadNext(colour.rest, Delimiters, ParseI64);
        if EndsPick(colour.delimiter) then ReadPicks(following, map[], picks + [cubes'])
        else ReadPicks(following, cubes', picks)
  }

  /** What `parse_line` does to the games read so far: a line with no
    * word leaves them as they are; otherwise the second word must be the
    * game number, and the game with its picks is appended. */
  function ParsedLine(state: seq<Game>, line: string): (r: Result<seq<Game>>)
    ensures NextWord(line, Delimiters).None? ==> r == Ok(state)
    ensures r.Ok? && NextWord(line, Delimiters).Some? ==>
              |r.value| == |state| + 1 && r.value[..|state|] == state
  {
    match NextWord(line, Delimiters)
    case None => Ok(state)
    case Some(game) =>
      match ReadNext(game.rest, Delimiters, ParseI64)
      case Err(e) => Err(e)
      case Ok(number) =>
        match ReadPicks(ReadNext(number.rest, Delimiters, ParseI64), map[], [])
        case Err(e) => Err(e)
        case Ok(picks) =>
          assert (state + [Game(number.value, picks)])[..|state|] == state;
          Ok(state + [Game(number.value, picks)])
  }

  /** `parse_line`: the word loop, proved to read exactly `ParsedLine`. */
  method ParseLine(state: seq<Game>, line: string) returns (r: Result<seq<Game>>)
    ensures r == ParsedLine(state, line)
  {
    var game := ReadWord(line, Delimiters);
    if game.None? {
      return Ok(state);
    }
    var number := ReadNext(game.value.rest, Delimiters, ParseI64);
    if number.Err? {
      return Err(number.error);
    }
    var next := ReadNext(number.value.rest, Delimiters, ParseI64);
    ghost var first := next;
    var picks: seq<Pick> := [];
    var cubes: Pick := map[];
    while next.Ok?
      invariant ReadPicks(next, cubes, picks) == ReadPicks(first, map[], [])
      decreases PickMeasure(next)
    {
      var colour := ReadWord(next.value.rest, Delimiters);
      if colour.None? {
        return Err("Expected a colour after the count");
      }
      cubes := cubes[colour.value.text := next.value.value];
      if EndsPick(colour.value.delimiter) {
        picks := picks + [cubes];
        cubes := map[];
      }
      next := ReadNext(colour.value.rest, Delimiters, ParseI64);
    }
    r := Ok(state + [Game(number.value.value, picks)]);
  }

  /** Every pick read holds at least one colour. */
  lemma {:induction false} PicksAreNonEmpty(next: Result<Token<int>>, cubes: Pick, picks: seq<Pick>)
    requires forall i | 0 <= i < |picks| :: |picks[i]| > 0
    ensures ReadPicks(next, cubes, picks).Ok? ==>
              forall i | 0 <= i < |ReadPicks(next, cubes, picks).value| :: |ReadPicks(next, cubes, picks).value[i]| > 0
    decreases PickMeasure(next)
  {
    if next.Ok? {
      match NextWord(next.value.rest, Delimiters)
      case None =>
      case Some(colour) =>
        var cubes' := cubes[colour.text := next.value.value];
        assert colour.text in cubes';
        var following := ReadNext(colour.rest, Delimiters, ParseI64);
        if EndsPick(colour.delimiter) {
          assert (picks + [cubes'])[|picks|] == cubes';
          PicksAreNonEmpty(following, map[], picks + [cubes']);
        } else {
          PicksAreNonEmpty(following, cubes', picks);
        }
    }
  }

  /** Picks already finished are kept, in order, ahead of those read later. */
  lemma {:induction false} PicksKeepEarlier(next: Result<Token<int>>, cubes: Pick, picks: seq<Pick>)
    ensures ReadPicks(next, cubes, picks).Ok? ==> picks <= ReadPicks(next, cubes, picks).value
    decreases PickMeasure(next)
  {
    if next.Ok? {
      match NextWord(next.value.rest, Delimiters)
      case None =>
      case Some(colour) =>
        var cubes' := cubes[colour.text := next.value.value];
        var following := ReadNext(colour.rest, Delimiters, ParseI64);
        if EndsPick(colour.delimiter) {
          PicksKeepEarlier(following, map[], picks + [cubes']);
        } else {
          PicksKeepEarlier(following, cubes', picks);
        }
    }
  }

  /** A count with nothing after it is an error. */
  lemma CountWithoutColour(chars: string, cubes: Pick, picks: seq<Pick>)
    requires ReadNext(chars, Delimiters, ParseI64).Ok?
    requires AllIn(ReadNext(chars, Delimiters, ParseI64).value.rest, Delimiters)
    ensures ReadPicks(ReadNext(chars, Delimiters, ParseI64), cubes, picks).Err?
  {
  }

  /** A count followed by a colour and the end of the line finishes the
    * pick being read, with that colour added. */
  lemma LastColourEndsPick(chars: string, cubes: Pick, picks: seq<Pick>)
    requires ReadNext(chars, Delimiters, ParseI64).Ok?
    requires NextWord(ReadNext(chars, Delimiters, ParseI64).value.rest, Delimiters).Some?
    requires AllIn(NextWord(ReadNext(chars, Delimiters, ParseI64).value.rest, Delimiters).value.rest, Delimiters)
    requires NextWord(ReadNext(chars, Delimiters, ParseI64).value.rest, Delimiters).value.delimiter.None?
    ensures var count := ReadNext(chars, Delimiters, ParseI64).value;
            var colour := NextWord(count.rest, Delimiters).value;
            ReadPicks(ReadNext(chars, Delimiters, ParseI64), cubes, picks) ==
              Ok(picks + [cubes[colour.text := count.value]])
  {
  }

  // ---------------------------------------------------------------------
  // Part one: possible games

  /** The bag: 12 red, 13 green and 14 blue cubes. */
  const Limits: map<string, int> := map["red" := 12, "green" := 13, "blue" := 14]

  /** No colour of the bag is shown more often than the bag holds; an
    * absent colour, or one the bag does not list, is no obstacle. */
  predicate PickWithin(pick: Pick) {
    forall colour | colour in Limits && colour in pick :: pick[colour] <= Limits[colour]
  }

  predicate Possible(game: Game) {
    forall i | 0 <= i < |game.picks| :: PickWithin(game.picks[i])
  }

  /** The possible games, in order. */
  function PossibleGames(games: seq<Game>): (r: seq<Game>)
    ensures |r| <= |games|
    ensures forall i | 0 <= i < |r| :: Possible(r[i]) && r[i] in games
    ensures forall i | 0 <= i < |games| :: Possible(games[i]) ==> games[i] in r
  {
    if games == [] then []
    else
      var front := PossibleGames(games[..|games| - 1]);
      var last := games[|games| - 1];
      assert forall i | 0 <= i < |games| - 1 :: games[i] == games[..|games| - 1][i];
      if Possible(last) then front + [last] else front
  }

  function GameNumbers(games: seq<Game>): (r: seq<int>)
    ensures |r| == |games| && forall i | 0 <= i < |games| :: r[i] == games[i].number
  {
    seq(|games|, i requires 0 <= i < |games| => games[i].number)
  }

  /** `perform_processing_1`: the sum of the possible games' numbers. */
  function PerformProcessing1(games: seq<Game>): int {
    Sum(GameNumbers(PossibleGames(games)))
  }

  /** One more game adds its number exactly when it is possible. */
  lemma PerformProcessing1Append(games: seq<Game>, game: Game)
    ensures PerformProcessing1(games + [game]) ==
              PerformProcessing1(games) + (if Possible(game) then game.number else 0)
  {
    assert (games + [game])[..|games|] == games;
    var front := GameNumbers(PossibleGames(games));
    if Possible(game) {
      assert GameNumbers(PossibleGames(games) + [game]) == front + [game.number];
      SumAppend(front, [game.number]);
    }
  }

  // ---------------------------------------------------------------------
  // Part two: powers

  predicate KnownColour(colour: string) {
    colour == "red" || colour == "green" || colour == "blue"
  }

  /** Part two knows only red, green and blue; any other colour is an error. */
  predicate KnownColours(game: Game) {
    forall i, colour | 0 <= i < |game.picks| && colour in game.picks[i] :: KnownColour(colour)
  }

  function Max(a: int, b: int): int {
    if a < b then b else a
  }

  /** The largest count of `colour` over the picks, starting from 0. */
  function MaxCount(picks: seq<Pick>, colour: string): int {
    if picks == [] then 0
    else
      var last := picks[|picks| - 1];
      var before := MaxCount(picks[..|picks| - 1], colour);
      if colour in last then Max(before, last[colour]) else before
  }

  /** `MaxCount` is the least bound from 0 up: no pick shows more, and it is
    * 0 or shown by some pick. */
  lemma {:induction false} MaxCountIsLargest(picks: seq<Pick>, colour: string)
    ensures MaxCount(picks, colour) >= 0
    ensures forall i | 0 <= i < |picks| && colour in picks[i] :: picks[i][colour] <= MaxCount(picks, colour)
    ensures MaxCount(picks, colour) == 0 ||
            exists i | 0 <= i < |picks| :: colour in picks[i] && picks[i][colour] == MaxCount(picks, colour)
  {
    if picks != [] {
      var front := picks[..|picks| - 1];
      MaxCountIsLargest(front, colour);
      assert forall i | 0 <= i < |front| :: picks[i] == front[i];
      if MaxCount(picks, colour) != 0 && MaxCount(picks, colour) == MaxCount(front, colour) {
        var i :| 0 <= i < |front| && colour in front[i] && front[i][colour] == MaxCount(front, colour);
        assert picks[i] == front[i];
      }
    }
  }

  /** The power of a game: the product of the three colours' maxima. */
  function Power(game: Game): int {
    MaxCount(game.picks, "red") * MaxCount(game.picks, "green") * MaxCount(game.picks, "blue")
  }

  lemma MaximaStep(picks: seq<Pick>, pick: Pick, colour: string)
    ensures MaxCount(picks + [pick], colour) ==
              if colour in pick then Max(MaxCount(picks, colour), pick[colour]) else MaxCount(picks, colour)
  {
    assert (picks + [pick])[..|picks|] == picks;
  }

  const ColourNames: set<string> := {"red", "green", "blue"}

  /** One pick's colours folded into the maxima, in an unspecified order;
    * a colour the map does not hold is an error. */
  method RecordPick(maxCubes: map<string, int>, pick: Pick) returns (r: Result<map<string, int>>)
    requires maxCubes.Keys == ColourNames
    ensures r.Ok? <==> forall colour | colour in pick :: KnownColour(colour)
    ensures r.Ok? ==> r.value.Keys == ColourNames
    ensures r.Ok? ==> forall colour | colour in ColourNames ::
                        r.value[colour] == if colour in pick then Max(maxCubes[colour], pick[colour]) else maxCubes[colour]
  {
    var updated := maxCubes;
    var remaining := pick.Keys;
    while remaining != {}
      invariant remaining <= pick.Keys && updated.Keys == ColourNames
      invariant forall colour | colour in pick && colour !in remaining :: KnownColour(colour)
      invariant forall colour | colour in ColourNames ::
                  updated[colour] == if colour in pick && colour !in remaining
                                     then Max(maxCubes[colour], pick[colour]) else maxCubes[colour]
      decreases remaining
    {
      var colour :| colour in remaining;
      if colour !in updated {
        assert !KnownColour(colour);
        return Err("unknown colour");
      }
      if updated[colour] < pick[colour] {
        updated := updated[colour := pick[colour]];
      }
      remaining := remaining - {colour};
    }
    r := Ok(updated);
  }

  /** The power of one game: the maxima kept in a map updated in place,
    * one pick at a time. */
  method GamePower(game: Game) returns (r: Result<int>)
    ensures r.Ok? <==> KnownColours(game)
    ensures r.Ok? ==> r.value == Power(game)
  {
    var maxCubes: map<string, int> := map["red" := 0, "green" := 0, "blue" := 0];
    for i := 0 to |game.picks|
      invariant maxCubes.Keys == ColourNames
      invariant forall colour | colour in ColourNames :: maxCubes[colour] == MaxCount(game.picks[..i], colour)
      invariant forall j, colour | 0 <= j < i && colour in game.picks[j] :: KnownColour(colour)
    {
      var pick := game.picks[i];
      var recorded := RecordPick(maxCubes, pick);
      if recorded.Err? {
        return Err(recorded.error);
      }
      assert game.picks[..i + 1] == game.picks[..i] + [pick];
      forall colour | colour in ColourNames
        ensures recorded.value[colour] == MaxCount(game.picks[..i + 1], colour)
      {
        MaximaStep(game.picks[..i], pick, colour);
      }
      maxCubes := recorded.value;
    }
    assert game.picks[..|game.picks|] == game.picks;
    assert "red" in ColourNames && "green" in ColourNames && "blue" in ColourNames;
    r := Ok(maxCubes["red"] * maxCubes["green"] * maxCubes["blue"]);
  }

  /** The games' powers, in order. */
  function Powers(games: seq<Game>): seq<int> {
    if games == [] then [] else Powers(games[..|games| - 1]) + [Power(games[|games| - 1])]
  }

  lemma PowersStep(games: seq<Game>, i: nat)
    requires i < |games|
    ensures Powers(games[..i + 1]) == Powers(games[..i]) + [Power(games[i])]
  {
    assert games[..i + 1][..i] == games[..i];
  }

  /** `perform_processing_2`: the sum of the games' powers; an error as
    * soon as a game shows a colour other than red, green or blue. */
  method PerformProcessing2(games: seq<Game>) returns (r: Result<int>)
    ensures r.Ok? <==> forall i | 0 <= i < |games| :: KnownColours(games[i])
    ensures r.Ok? ==> r.value == Sum(Powers(games))
  {
    var result := 0;
    for i := 0 to |games|
      invariant forall j | 0 <= j < i :: KnownColours(games[j])
      invariant result == Sum(Powers(games[..i]))
    {
      var power := GamePower(games[i]);
      if power.Err? {
        return Err(power.error);
      }
      PowersStep(games, i);
      SumSnoc(Powers(games[..i]), power.value);
      result := result + power.value;
    }
    assert games[..|games|] == games;
    r := Ok(result);
  }
}
