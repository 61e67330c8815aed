// Scratchcards: each card lists winning numbers and the numbers held.
// Part one scores 2^(k-1) points for k matches; in part two every card
// wins one copy of each of the next k cards, and the answer is the
// number of cards held in the end.
module Day4 {
  import opened Wrappers
  import opened Numbers
  import opened Processor

  datatype Card = Card(number: nat, winning: set<int>, numbers: set<int>)

  const Delimiters: set<char> := {' ', ':'}

  // ---------------------------------------------------------------------
  // Parsing

  /** One of the two number loops of `parse_line`: i64 words are collected
    * until a word that is not one (which is consumed) or the end of the
    * line. Gives the numbers and what remains unread. */
  function ReadNumbers(chars: string, acc: set<int>): (r: (set<int>, string))
    ensures acc <= r.0 && |r.1| <= |chars|
    decreases |chars|
  {
    match NextWord(chars, Delimiters)
    case None => (acc, [])
    case Some(w) =>
      match ParseI64(w.text)
      case None => (acc, w.rest)
      case Some(n) => ReadNumbers(w.rest, acc + {n})
  }

  /** The loop itself, proved to read exactly `ReadNumbers`. */
  method CollectNumbers(chars: string) returns (numbers: set<int>, rest: string)
    ensures (numbers, rest) == ReadNumbers(chars, {})
  {
    numbers, rest := {}, chars;
    var done := false;
    while !done
      invariant !done ==> ReadNumbers(rest, numbers) == ReadNumbers(chars, {})
      invariant done ==> (numbers, rest) == ReadNumbers(chars, {})
      decreases |rest| + (if done then 0 else 1)
    {
      var word := ReadWord(rest, Delimiters);
      match word {
        case None =>
          rest, done := [], true;
        case Some(w) =>
          match ParseI64(w.text) {
            case None =>
              rest, done := w.rest, true;
            case Some(n) =>
              numbers, rest := numbers + {n}, w.rest;
          }
      }
    }
  }

  /** `parse_line` as a function: a blank line adds nothing; otherwise the
    * first word is skipped, the next must be a u64 card number, then come
    * the winning numbers and, after the word that ended them, the
    * numbers held. */
  function ParsedLine(state: seq<Card>, line: string): (r: Result<seq<Card>>)
    ensures NextWord(line, Delimiters).None? ==> r == Ok(state)
    ensures r.Ok? && NextWord(line, Delimiters).Some? ==> |r.value| == |state| + 1 && r.value[..|state|] == state
    ensures r.Err? <==> NextWord(line, Delimiters).Some? && ReadNext(NextWord(line, Delimiters).value.rest, Delimiters, ParseU64).Err?
  {
    match NextWord(line, Delimiters)
    case None => Ok(state)
    case Some(card) =>
      match ReadNext(card.rest, Delimiters, ParseU64)
      case Err(e) => Err(e)
      case Ok(number) =>
        var winning := ReadNumbers(number.rest, {});
        var numbers := ReadNumbers(winning.1, {});
        assert (state + [Card(number.value, winning.0, numbers.0)])[..|state|] == state;
        Ok(state + [Card(number.value, winning.0, numbers.0)])
  }

  /** `parse_line`: the word reads and both number loops. */
  method ParseLine(state: seq<Card>, line: string) returns (r: Result<seq<Card>>)
    ensures r == ParsedLine(state, line)
  {
    var card := ReadWord(line, Delimiters);
    if card.None? {
      return Ok(state);
    }
    var number := ReadNext(card.value.rest, Delimiters, ParseU64);
    if number.Err? {
      return Err(number.error);
    }
    var winning, rest := CollectNumbers(number.value.rest);
    var numbers, _ := CollectNumbers(rest);
    r := Ok(state + [Card(number.value.value, winning, numbers)]);
  }

  /** The numbers written out, each followed by one space. */
  function Numerals(ns: seq<int>): string {
    if ns == [] then [] else ShowInt(ns[0]) + " " + Numerals(ns[1..])
  }

  lemma NumeralHasNoDelimiter(n: int)
    ensures NoneIn(ShowInt(n), Delimiters)
  {
    var s := ShowInt(n);
    if n < 0 {
      assert s == "-" + ShowNat(-n);
      forall i | 1 <= i < |s|
        ensures s[i] !in Delimiters
      {
        assert s[i] == ShowNat(-n)[i - 1];
        assert IsDigit(s[i]);
      }
    } else {
      forall i | 0 <= i < |s|
        ensures s[i] !in Delimiters
      {
        assert IsDigit(s[i]);
      }
    }
  }

  /** Numbers written out are read back, and reading goes on after them. */
  lemma {:induction false} ReadNumbersOfNumerals(ns: seq<int>, rest: string, acc: set<int>)
    requires forall i | 0 <= i < |ns| :: I64_MIN <= ns[i] <= I64_MAX
    ensures ReadNumbers(Numerals(ns) + rest, acc) == ReadNumbers(rest, acc + set n | n in ns)
    decreases |ns|
  {
    if ns == [] {
      assert Numerals(ns) + rest == rest;
      assert acc + (set n | n in ns) == acc;
    } else {
      var tail := Numerals(ns[1..]) + rest;
      assert Numerals(ns) + rest == ShowInt(ns[0]) + [' '] + tail;
      NumeralHasNoDelimiter(ns[0]);
      NextWordSplits(ShowInt(ns[0]), ' ', tail, Delimiters);
      ParseSignedShowInt(ns[0], I64_MIN, I64_MAX);
      ReadNumbersOfNumerals(ns[1..], rest, acc + {ns[0]});
      assert acc + {ns[0]} + (set n | n in ns[1..]) == acc + set n | n in ns by {
        assert forall n | n in ns :: n == ns[0] || n in ns[1..];
      }
    }
  }

  /** A card in the puzzle's format: "Card 7: 41 48 | 83 86 ". */
  function CardText(number: nat, winning: seq<int>, held: seq<int>): string {
    "Card" + [' '] + (ShowNat(number) + [':'] + ([' '] + (Numerals(winning) + ("|" + [' '] + Numerals(held)))))
  }

  /** The card word is skipped and the card number read. */
  lemma ReadCardHeader(number: nat, after: string)
    requires number <= U64_MAX
    ensures NextWord("Card" + [' '] + (ShowNat(number) + [':'] + after), Delimiters).Some?
    ensures var header := NextWord("Card" + [' '] + (ShowNat(number) + [':'] + after), Delimiters).value;
            ReadNext(header.rest, Delimiters, ParseU64) == Ok(Token(number, Some(':'), after))
  {
    NextWordSplits("Card", ' ', ShowNat(number) + [':'] + after, Delimiters);
    NumeralHasNoDelimiter(number);
    NextWordSplits(ShowNat(number), ':', after, Delimiters);
    ParseUnsignedShowNat(number, U64_MAX);
  }

  /** The bar is not a number: it ends the winning numbers. */
  lemma ReadNumbersAtBar(afterBar: string, acc: set<int>)
    ensures ReadNumbers("|" + [' '] + afterBar, acc) == (acc, afterBar)
  {
    NextWordSplits("|", ' ', afterBar, Delimiters);
    assert ParseI64("|") == None;
  }

  /** Leading delimiters do not change what is read. */
  lemma ReadNumbersSkipsSpace(s: string, acc: set<int>)
    ensures ReadNumbers([' '] + s, acc) == ReadNumbers(s, acc)
  {
    NextWordSkipsDelimiters([' '], s, Delimiters);
  }

  /** The winning numbers end at the bar. */
  lemma ReadWinningNumbers(winning: seq<int>, afterBar: string)
    requires forall i | 0 <= i < |winning| :: I64_MIN <= winning[i] <= I64_MAX
    ensures ReadNumbers([' '] + (Numerals(winning) + ("|" + [' '] + afterBar)), {}) ==
            ((set n | n in winning), afterBar)
  {
    var afterColon := Numerals(winning) + ("|" + [' '] + afterBar);
    ReadNumbersSkipsSpace(afterColon, {});
    ReadNumbersOfNumerals(winning, "|" + [' '] + afterBar, {});
    ReadNumbersAtBar(afterBar, {} + set n | n in winning);
    assert {} + (set n | n in winning) == set n | n in winning;
  }

  /** The held numbers run to the end of the line. */
  lemma ReadHeldNumbers(held: seq<int>)
    requires forall i | 0 <= i < |held| :: I64_MIN <= held[i] <= I64_MAX
    ensures ReadNumbers(Numerals(held), {}) == ((set n | n in held), [])
  {
    ReadNumbersOfNumerals(held, [], {});
    assert Numerals(held) + [] == Numerals(held);
    assert {} + (set n | n in held) == set n | n in held;
  }

  /** A card written in the puzzle's format is read back as that card. */
  lemma ParseCardLine(state: seq<Card>, number: nat, winning: seq<int>, held: seq<int>)
    requires number <= U64_MAX
    requires forall i | 0 <= i < |winning| :: I64_MIN <= winning[i] <= I64_MAX
    requires forall i | 0 <= i < |held| :: I64_MIN <= held[i] <= I64_MAX
    ensures ParsedLine(state, CardText(number, winning, held)) ==
            Ok(state + [Card(number, set n | n in winning, set n | n in held)])
  {
    ReadCardHeader(number, [' '] + (Numerals(winning) + ("|" + [' '] + Numerals(held))));
    ReadWinningNumbers(winning, Numerals(held));
    ReadHeldNumbers(held);
  }

  // ---------------------------------------------------------------------
  // Points

  /** `num_matching`: how many numbers held are winning numbers. */
  function NumMatching(card: Card): (r: nat)
    ensures r <= |card.numbers| && r <= |card.winning|
  {
    var matching := set n | n in card.numbers && n in card.winning;
    SubsetSmaller(matching, card.numbers);
    SubsetSmaller(matching, card.winning);
    |matching|
  }

  lemma {:induction false} SubsetSmaller<T>(a: set<T>, b: set<T>)
    requires a <= b
    ensures |a| <= |b|
    decreases |a|
  {
    if a != {} {
      var x :| x in a;
      SubsetSmaller(a - {x}, b - {x});
    }
  }

  /** Holding one more winning number is one more match. */
  lemma OneMoreMatch(card: Card, n: int)
    requires n in card.winning && n !in card.numbers
    ensures NumMatching(card.(numbers := card.numbers + {n})) == NumMatching(card) + 1
  {
    var before := set m | m in card.numbers && m in card.winning;
    var after := set m | m in card.numbers + {n} && m in card.winning;
    assert after == before + {n};
  }

  /** `calculate_points`: nothing without a match, 2^(k-1) for k matches. */
  function Points(card: Card): (r: nat)
    ensures r == 0 <==> NumMatching(card) == 0
  {
    var k := NumMatching(card);
    if k == 0 then 0 else Pow(2, k - 1)
  }

  /** The first match scores one point and every further match doubles
    * the score. */
  lemma PointsDouble(card: Card, n: int)
    requires n in card.winning && n !in card.numbers
    ensures var more := card.(numbers := card.numbers + {n});
            Points(more) == if Points(card) == 0 then 1 else 2 * Points(card)
  {
    OneMoreMatch(card, n);
  }

  /** `perform_processing_1`: the total of the cards' points. */
  function TotalPoints(cards: seq<Card>): (r: nat)
    ensures r == 0 <==> forall i | 0 <= i < |cards| :: NumMatching(cards[i]) == 0
  {
    if cards == [] then 0 else TotalPoints(cards[..|cards| - 1]) + Points(cards[|cards| - 1])
  }

  // ---------------------------------------------------------------------
  // Copies

  /** Card `i` holding `copies[i]` copies wins that many more of each of
    * the next `m` cards; cards past the last one are not won. */
  function Spread(copies: seq<nat>, i: nat, m: nat): (r: seq<nat>)
    requires i < |copies|
    ensures |r| == |copies|
    ensures forall j | 0 <= j < |copies| && (j <= i || j > i + m) :: r[j] == copies[j]
    ensures forall j | i < j <= i + m && j < |copies| :: r[j] == copies[j] + copies[i]
  {
    seq(|copies|, j requires 0 <= j < |copies| => if i < j <= i + m then copies[j] + copies[i] else copies[j])
  }

  /** The copy counts before card `i` is processed: one of each card, then
    * each earlier card's winnings added in turn. */
  function CopiesBefore(cards: seq<Card>, i: nat): (r: seq<nat>)
    requires i <= |cards|
    ensures |r| == |cards|
  {
    if i == 0 then seq(|cards|, _ => 1)
    else Spread(CopiesBefore(cards, i - 1), i - 1, NumMatching(cards[i - 1]))
  }

  /** The cards counted up to card `n`: each card's copies when it is reached. */
  function CardsWon(cards: seq<Card>, n: nat): nat
    requires n <= |cards|
  {
    if n == 0 then 0 else CardsWon(cards, n - 1) + CopiesBefore(cards, n - 1)[n - 1]
  }

  /** The inner loop of `perform_processing_2`: the next `m` cards after
    * card `i` each gain card `i`'s copies, stopping at the last card. */
  method AddCopies(copies: array<nat>, i: nat, m: nat)
    requires i < copies.Length
    modifies copies
    ensures copies[..] == Spread(old(copies[..]), i, m)
  {
    ghost var start := copies[..];
    var numCopies := copies[i];
    for j := 0 to m
      invariant copies[..] == Spread(start, i, j)
    {
      var index := i + 1 + j;
      if index >= copies.Length {
        assert Spread(start, i, j) == Spread(start, i, m);
        return;
      }
      copies[index] := copies[index] + numCopies;
      assert copies[..] == Spread(start, i, j + 1);
    }
  }

  /** `perform_processing_2`: every card starts with one copy; card by card,
    * its copies are counted and spread over the cards it wins. */
  method PerformProcessing2(cards: seq<Card>) returns (r: nat)
    ensures r == CardsWon(cards, |cards|)
  {
    var copies := new nat[|cards|](_ => 1);
    r := 0;
    assert copies[..] == CopiesBefore(cards, 0);
    for i := 0 to copies.Length
      invariant copies.Length == |cards|
      invariant copies[..] == CopiesBefore(cards, i)
      invariant r == CardsWon(cards, i)
    {
      var numCopies := copies[i];
      r := r + numCopies;
      AddCopies(copies, i, NumMatching(cards[i]));
      CopiesStep(cards, i);
    }
  }

  lemma CopiesStep(cards: seq<Card>, i: nat)
    requires i < |cards|
    ensures CopiesBefore(cards, i + 1) == Spread(CopiesBefore(cards, i), i, NumMatching(cards[i]))
    ensures CardsWon(cards, i + 1) == CardsWon(cards, i) + CopiesBefore(cards, i)[i]
  {
  }

  /** Every card is held at least once at every stage. */
  lemma {:induction false} CopiesAtLeastOne(cards: seq<Card>, i: nat, j: nat)
    requires i <= |cards| && j < |cards|
    ensures CopiesBefore(cards, i)[j] >= 1
  {
    if i > 0 {
      CopiesAtLeastOne(cards, i - 1, j);
    }
  }

  /** A card's count is settled once the cards before it are processed:
    * processing card `i` changes no entry at or before `i`. */
  lemma {:induction false} CopiesSettled(cards: seq<Card>, j: nat, k: nat)
    requires j <= k <= |cards| && j < |cards|
    ensures CopiesBefore(cards, k)[j] == CopiesBefore(cards, j)[j]
    decreases k
  {
    if k > j {
      CopiesSettled(cards, j, k - 1);
    }
  }

  /** The answer is the sum of the final copy counts. */
  lemma CardsWonIsFinalSum(cards: seq<Card>)
    ensures CardsWon(cards, |cards|) == Sum(CopiesBefore(cards, |cards|))
  {
    var final := CopiesBefore(cards, |cards|);
    forall j | 0 <= j < |cards|
      ensures final[j] == CopiesBefore(cards, j)[j]
    {
      CopiesSettled(cards, j, |cards|);
    }
    CardsWonIsSettledSum(cards, final, |cards|);
    assert final[..|cards|] == final;
  }

  /** Counting each card's copies when it is reached sums the counts the
    * cards have once they are settled. */
  lemma {:induction false} CardsWonIsSettledSum(cards: seq<Card>, settled: seq<nat>, n: nat)
    requires n <= |cards| == |settled|
    requires forall j | 0 <= j < |cards| :: settled[j] == CopiesBefore(cards, j)[j]
    ensures CardsWon(cards, n) == Sum(settled[..n])
  {
    if n > 0 {
      CardsWonIsSettledSum(cards, settled, n - 1);
      assert settled[..n][..n - 1] == settled[..n - 1];
    }
  }

  /** Every card is won at least once, so the answer is at least the
    * number of cards. */
  lemma {:induction false} CardsWonAtLeastCards(cards: seq<Card>, n: nat)
    requires n <= |cards|
    ensures CardsWon(cards, n) >= n
  {
    if n > 0 {
      CardsWonAtLeastCards(cards, n - 1);
      CopiesAtLeastOne(cards, n - 1, n - 1);
    }
  }
}
