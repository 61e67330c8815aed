// Day 7: Camel Cards. Hands of five cards are typed by the sizes of their
// groups of equal cards, ordered by type and then card by card, and each
// bid is multiplied by its hand's rank. In part two J is a joker.
module Day7 {
  import opened Wrappers
  import opened Numbers
  import opened Processor

  datatype Card = Card(name: char, strength: nat)

  /** Declared strongest first, so the derived order makes FiveOfAKind the
    * least. */
  datatype HandType = FiveOfAKind | FourOfAKind | FullHouse | ThreeOfAKind | TwoPair | OnePair | HighCard | NotCategorised

  datatype Hand = Hand(cards: seq<Card>, bid: nat, handType: HandType)

  datatype Ordering = Less | Equal | Greater

  const Delimiters: set<char> := {' '}

  /** The card names in falling strength. */
  const Names: string := "AKQJT98765432"

  // ---------------------------------------------------------------------
  // Cards

  /** One arm of the match in `convert_cards`; `None` for an unknown card. */
  function CardOf(c: char): (r: Option<Card>)
    ensures r.Some? <==> c in Names
    ensures r.Some? ==> r.value.name == c && 2 <= r.value.strength <= 14
  {
    match c
    case 'A' => Some(Card('A', 14))
    case 'K' => Some(Card('K', 13))
    case 'Q' => Some(Card('Q', 12))
    case 'J' => Some(Card('J', 11))
    case 'T' => Some(Card('T', 10))
    case '9' => Some(Card('9', 9))
    case '8' => Some(Card('8', 8))
    case '7' => Some(Card('7', 7))
    case '6' => Some(Card('6', 6))
    case '5' => Some(Card('5', 5))
    case '4' => Some(Card('4', 4))
    case '3' => Some(Card('3', 3))
    case '2' => Some(Card('2', 2))
    case _ => None
  }

  /** Strength falls along `Names`: A is 14 and each later name one less. */
  lemma StrengthFollowsNames(k: nat)
    requires k < |Names|
    ensures CardOf(Names[k]) == Some(Card(Names[k], 14 - k))
  {
  }

  /** Different names never share a strength. */
  lemma StrengthInjective(c: char, d: char)
    requires c in Names && d in Names && c != d
    ensures CardOf(c).value.strength != CardOf(d).value.strength
  {
    var k :| 0 <= k < |Names| && Names[k] == c;
    var l :| 0 <= l < |Names| && Names[l] == d;
    StrengthFollowsNames(k);
    StrengthFollowsNames(l);
  }

  /** `convert_cards`: every character converted; an unknown character
    * panics, an error here. */
  function ConvertCards(s: string): (r: Result<seq<Card>>)
    ensures r.Ok? <==> forall i | 0 <= i < |s| :: s[i] in Names
    ensures r.Ok? ==> |r.value| == |s| && forall i | 0 <= i < |s| :: Some(r.value[i]) == CardOf(s[i])
  {
    if s == [] then Ok([])
    else
      match CardOf(s[0])
      case None => Err("Unknown card")
      case Some(card) =>
        match ConvertCards(s[1..])
        case Err(e) => Err(e)
        case Ok(rest) =>
          assert forall i | 1 <= i < |s| :: s[i] == s[1..][i - 1];
          Ok([card] + rest)
  }

  // ---------------------------------------------------------------------
  // Loading

  /** `parse_line`: the first word must be five known cards and the next
    * a u64 bid; the hand is appended uncategorised. */
  function ParseLine(state: seq<Hand>, line: string): (r: Result<seq<Hand>>)
    ensures r.Ok? ==> |r.value| == |state| + 1 && r.value[..|state|] == state
    ensures r.Ok? ==> |r.value[|state|].cards| == 5 && r.value[|state|].handType == NotCategorised
    ensures NextWord(line, Delimiters).Some? && |NextWord(line, Delimiters).value.text| != 5 ==> r.Err?
  {
    match NextWord(line, Delimiters)
    case None => Err("No cards on line")
    case Some(w) =>
      if |w.text| != 5 then Err("Wrong number of cards on line")
      else
        match ConvertCards(w.text)
        case Err(e) => Err(e)
        case Ok(cards) =>
          match ReadNext(w.rest, Delimiters, ParseU64)
          case Err(e) => Err("Failed to read bid on line")
          case Ok(t) => Ok(state + [Hand(cards, t.value, NotCategorised)])
  }

  /** A bid alone at the end of the line reads back. */
  lemma ReadBid(bid: nat)
    requires bid <= U64_MAX
    ensures ReadNext(ShowNat(bid), Delimiters, ParseU64) == Ok(Token(bid, None, []))
  {
    var numeral := ShowNat(bid);
    forall i | 0 <= i < |numeral|
      ensures numeral[i] !in Delimiters
    {
      assert IsDigit(numeral[i]);
    }
    NextWordWhole(numeral, Delimiters);
    ParseUnsignedShowNat(bid, U64_MAX);
  }

  /** A line of five known cards and a bid appends exactly that hand. */
  lemma ParseHandLine(state: seq<Hand>, text: string, bid: nat)
    requires |text| == 5 && forall i | 0 <= i < 5 :: text[i] in Names
    requires bid <= U64_MAX
    ensures ParseLine(state, text + [' '] + ShowNat(bid)) ==
              Ok(state + [Hand(ConvertCards(text).value, bid, NotCategorised)])
  {
    assert NoneIn(text, Delimiters);
    NextWordSplits(text, ' ', ShowNat(bid), Delimiters);
    ReadBid(bid);
  }

  /** Every hand that parsing builds has five cards. */
  predicate FiveCards(hands: seq<Hand>) {
    forall i | 0 <= i < |hands| :: |hands[i].cards| == 5
  }

  lemma ParseLineKeepsFiveCards(state: seq<Hand>, line: string)
    requires FiveCards(state) && ParseLine(state, line).Ok?
    ensures FiveCards(ParseLine(state, line).value)
  {
    var r := ParseLine(state, line).value;
    forall i | 0 <= i < |r|
      ensures |r[i].cards| == 5
    {
      if i < |state| {
        assert r[..|state|][i] == r[i];
      }
    }
  }

  // ---------------------------------------------------------------------
  // Group sizes

  /** A group of equal cards: the name and how many there are. */
  type Group = (char, nat)

  /** How many cards named `n` the groups hold. */
  function CountOf(groups: seq<Group>, n: char): nat {
    if groups == [] then 0 else (if groups[0].0 == n then groups[0].1 else 0) + CountOf(groups[1..], n)
  }

  function Total(groups: seq<Group>): nat {
    if groups == [] then 0 else groups[0].1 + Total(groups[1..])
  }

  /** The names that have a group. */
  function Keys(groups: seq<Group>): set<char> {
    if groups == [] then {} else {groups[0].0} + Keys(groups[1..])
  }

  /** Every group is non-empty and no name has two groups. */
  predicate WellFormed(groups: seq<Group>) {
    groups == [] || (groups[0].1 > 0 && groups[0].0 !in Keys(groups[1..]) && WellFormed(groups[1..]))
  }

  /** One step of the grouping fold: `entry(name).or_default().push`. */
  function AddName(groups: seq<Group>, n: char): (r: seq<Group>)
    requires WellFormed(groups)
    ensures WellFormed(r) && Total(r) == Total(groups) + 1
    ensures Keys(r) == Keys(groups) + {n}
  {
    if groups == [] then
      assert Keys([(n, 1)]) == {n} + Keys([]);
      [(n, 1)]
    else if groups[0].0 == n then
      var r := [(n, groups[0].1 + 1)] + groups[1..];
      assert r[1..] == groups[1..];
      r
    else
      var rest := AddName(groups[1..], n);
      var r := [groups[0]] + rest;
      assert r[1..] == rest;
      r
  }

  /** No group of a well-formed list is empty. */
  lemma {:induction false} WellFormedPositive(groups: seq<Group>)
    requires WellFormed(groups)
    ensures forall i | 0 <= i < |groups| :: groups[i].1 > 0
  {
    if groups != [] {
      WellFormedPositive(groups[1..]);
      assert forall i | 1 <= i < |groups| :: groups[i] == groups[1..][i - 1];
    }
  }

  /** Adding a name counts one more card of that name and no other. */
  lemma {:induction false} AddNameCounts(groups: seq<Group>, n: char, m: char)
    requires WellFormed(groups)
    ensures CountOf(AddName(groups, n), m) == CountOf(groups, m) + (if m == n then 1 else 0)
  {
    if groups != [] && groups[0].0 != n {
      AddNameCounts(groups[1..], n, m);
    } else if groups != [] {
      assert AddName(groups, n)[1..] == groups[1..];
    }
  }

  /** The grouping fold of `categorize_hand_*` over the card names. */
  function GroupNames(names: string): (r: seq<Group>)
    ensures WellFormed(r) && Total(r) == |names|
  {
    if names == [] then []
    else
      var front := names[..|names| - 1];
      assert names == front + [names[|names| - 1]];
      AddName(GroupNames(front), names[|names| - 1])
  }

  /** Each group counts exactly the cards of its name. */
  lemma {:induction false} GroupNamesCounts(names: string, m: char)
    ensures CountOf(GroupNames(names), m) == multiset(names)[m]
  {
    if names != [] {
      var front := names[..|names| - 1];
      assert names == front + [names[|names| - 1]];
      GroupNamesCounts(front, m);
      AddNameCounts(GroupNames(front), names[|names| - 1], m);
    }
  }

  function NamesOf(cards: seq<Card>): (r: string)
    ensures |r| == |cards| && forall i | 0 <= i < |cards| :: r[i] == cards[i].name
  {
    seq(|cards|, i requires 0 <= i < |cards| => cards[i].name)
  }

  function Sizes(groups: seq<Group>): (r: seq<nat>)
    ensures |r| == |groups| && forall i | 0 <= i < |groups| :: r[i] == groups[i].1
  {
    seq(|groups|, i requires 0 <= i < |groups| => groups[i].1)
  }

  /** The sum of some sizes. */
  function SizeSum(s: seq<nat>): nat {
    if s == [] then 0 else s[0] + SizeSum(s[1..])
  }

  lemma {:induction false} SizeSumIsTotal(groups: seq<Group>)
    ensures SizeSum(Sizes(groups)) == Total(groups)
  {
    if groups != [] {
      SizeSumIsTotal(groups[1..]);
      assert Sizes(groups)[1..] == Sizes(groups[1..]);
    }
  }

  /** Each size at least the next. */
  predicate Descending(s: seq<nat>) {
    forall i | 0 < i < |s| :: s[i - 1] >= s[i]
  }

  predicate Positive(s: seq<nat>) {
    forall i | 0 <= i < |s| :: s[i] > 0
  }

  function InsertDescending(x: nat, s: seq<nat>): (r: seq<nat>)
    requires Descending(s)
    ensures |r| == |s| + 1
    ensures SizeSum(r) == SizeSum(s) + x
    ensures r[0] == x || (s != [] && r[0] == s[0])
    ensures Descending(r)
  {
    if s == [] || x >= s[0] then
      assert ([x] + s)[1..] == s;
      [x] + s
    else
      var rest := InsertDescending(x, s[1..]);
      assert s == [s[0]] + s[1..];
      assert s[0] >= rest[0];
      var r := [s[0]] + rest;
      assert r[1..] == rest;
      r
  }

  /** `sort` then `reverse`: the sizes largest first. */
  function SortDescending(s: seq<nat>): (r: seq<nat>)
    ensures Descending(r) && SizeSum(r) == SizeSum(s)
  {
    if s == [] then []
    else
      assert s == [s[0]] + s[1..];
      InsertDescending(s[0], SortDescending(s[1..]))
  }

  lemma {:induction false} InsertDescendingPermutes(x: nat, s: seq<nat>)
    requires Descending(s)
    ensures multiset(InsertDescending(x, s)) == multiset(s) + multiset{x}
  {
    if s != [] && x < s[0] {
      InsertDescendingPermutes(x, s[1..]);
      assert s == [s[0]] + s[1..];
    }
  }

  /** The sort only reorders the sizes. */
  lemma {:induction false} SortDescendingPermutes(s: seq<nat>)
    ensures multiset(SortDescending(s)) == multiset(s)
  {
    if s != [] {
      SortDescendingPermutes(s[1..]);
      InsertDescendingPermutes(s[0], SortDescending(s[1..]));
      assert s == [s[0]] + s[1..];
    }
  }

  lemma {:induction false} InsertDescendingPositive(x: nat, s: seq<nat>)
    requires Descending(s) && x > 0 && Positive(s)
    ensures Positive(InsertDescending(x, s))
  {
    if s != [] && x < s[0] {
      InsertDescendingPositive(x, s[1..]);
    }
  }

  lemma {:induction false} SortDescendingPositive(s: seq<nat>)
    requires Positive(s)
    ensures Positive(SortDescending(s))
  {
    if s != [] {
      SortDescendingPositive(s[1..]);
      InsertDescendingPositive(s[0], SortDescending(s[1..]));
    }
  }

  /** `categorize_hand`: the seven patterns of sizes; any other panics, an
    * error here. */
  function Categorize(sizes: seq<nat>): (r: Result<HandType>)
    ensures r.Ok? ==> r.value != NotCategorised
  {
    if sizes == [5] then Ok(FiveOfAKind)
    else if sizes == [4, 1] then Ok(FourOfAKind)
    else if sizes == [3, 2] then Ok(FullHouse)
    else if sizes == [3, 1, 1] then Ok(ThreeOfAKind)
    else if sizes == [2, 2, 1] then Ok(TwoPair)
    else if sizes == [2, 1, 1, 1] then Ok(OnePair)
    else if sizes == [1, 1, 1, 1, 1] then Ok(HighCard)
    else Err("Failed to categorize hand")
  }

  lemma SplitTwo(x: nat, y: nat)
    requires x >= y >= 1 && x + y == 5
    ensures Categorize([x, y]).Ok?
  {
  }

  lemma SplitThree(x: nat, y: nat, z: nat)
    requires x >= y >= z >= 1 && x + y + z == 5
    ensures Categorize([x, y, z]).Ok?
  {
  }

  lemma SplitFour(x: nat, y: nat, z: nat, w: nat)
    requires x >= y >= z >= w >= 1 && x + y + z + w == 5
    ensures Categorize([x, y, z, w]).Ok?
  {
  }

  /** The seven patterns are all the ways to split five cards into groups,
    * so no five-card hand panics. */
  lemma {:induction false} FiveSplitsSevenWays(s: seq<nat>)
    requires Descending(s) && Positive(s) && SizeSum(s) == 5
    ensures Categorize(s).Ok?
  {
    assert s != [];
    var t := s[1..];
    assert SizeSum(s) == s[0] + SizeSum(t);
    if t == [] {
      assert s == [5];
      return;
    }
    var u := t[1..];
    assert SizeSum(t) == t[0] + SizeSum(u);
    assert s[0] >= t[0] >= 1;
    if u == [] {
      assert s == [s[0], t[0]];
      SplitTwo(s[0], t[0]);
      return;
    }
    var v := u[1..];
    assert SizeSum(u) == u[0] + SizeSum(v);
    assert t[0] >= u[0] >= 1;
    if v == [] {
      assert s == [s[0], t[0], u[0]];
      SplitThree(s[0], t[0], u[0]);
      return;
    }
    var w := v[1..];
    assert SizeSum(v) == v[0] + SizeSum(w);
    assert u[0] >= v[0] >= 1;
    if w == [] {
      assert s == [s[0], t[0], u[0], v[0]];
      SplitFour(s[0], t[0], u[0], v[0]);
      return;
    }
    assert SizeSum(w) == w[0] + SizeSum(w[1..]);
    assert w[1..] == [];
    assert s == [1, 1, 1, 1, 1];
  }

  /** The group sizes of some cards, largest first. */
  function GroupSizes(names: string): (r: seq<nat>)
    ensures Descending(r) && Positive(r) && SizeSum(r) == |names|
  {
    var groups := GroupNames(names);
    SizeSumIsTotal(groups);
    WellFormedPositive(groups);
    assert Positive(Sizes(groups));
    SortDescendingPositive(Sizes(groups));
    var r := SortDescending(Sizes(groups));
    r
  }

  /** `categorize_hand_1`. */
  function CategorizeHand1(cards: seq<Card>): (r: Result<HandType>)
    ensures |cards| == 5 ==> r.Ok?
  {
    var sizes := GroupSizes(NamesOf(cards));
    assert |cards| == 5 ==> Categorize(sizes).Ok? by {
      if |cards| == 5 {
        FiveSplitsSevenWays(sizes);
      }
    }
    Categorize(sizes)
  }

  /** `update_jack_strength`: a J becomes the weakest card; everything
    * else is kept. */
  function UpdateJackStrength(hand: Hand): (r: Hand)
    ensures |r.cards| == |hand.cards| && r.bid == hand.bid && r.handType == hand.handType
    ensures forall i | 0 <= i < |hand.cards| ::
      if hand.cards[i].name == 'J' then r.cards[i] == Card('J', 1) else r.cards[i] == hand.cards[i]
  {
    hand.(cards := seq(|hand.cards|, i requires 0 <= i < |hand.cards| =>
      if hand.cards[i].name == 'J' then Card('J', 1) else hand.cards[i]))
  }

  /** After the update a joker is weaker than every other known card. */
  lemma JokerWeakest(c: char)
    requires c in Names && c != 'J'
    ensures CardOf(c).value.strength > 1
  {
  }

  function Jokers(names: string): (r: nat)
    ensures r <= |names|
  {
    if names == [] then 0 else (if names[0] == 'J' then 1 else 0) + Jokers(names[1..])
  }

  function NonJokers(names: string): (r: string)
    ensures |r| + Jokers(names) == |names| && 'J' !in r
    ensures forall m | m in r :: m in names
  {
    if names == [] then [] else (if names[0] == 'J' then [] else [names[0]]) + NonJokers(names[1..])
  }

  /** Every joker added to the first (largest) group; a lone group of
    * jokers when there is no other group. */
  function AddJokers(s: seq<nat>, jokers: nat): (r: seq<nat>)
    requires Descending(s) && Positive(s)
    ensures Descending(r) && SizeSum(r) == SizeSum(s) + jokers
    ensures jokers > 0 || s != [] ==> Positive(r)
  {
    if s == [] then [jokers]
    else
      var r := [s[0] + jokers] + s[1..];
      assert r[1..] == s[1..];
      assert forall j | 1 <= j < |r| :: r[j] == s[j];
      r
  }

  /** The sizes of `categorize_hand_2`: the non-joker groups largest first,
    * with every joker added to the first. Which of two equally large groups
    * comes first does not change the sizes. */
  function JokerSizes(names: string): (r: seq<nat>)
    ensures Descending(r) && SizeSum(r) == |names|
    ensures names != [] ==> Positive(r)
  {
    var s := GroupSizes(NonJokers(names));
    assert s == [] ==> Jokers(names) == |names|;
    AddJokers(s, Jokers(names))
  }

  /** `categorize_hand_2`. */
  function CategorizeHand2(cards: seq<Card>): (r: Result<HandType>)
    ensures |cards| == 5 ==> r.Ok?
  {
    var sizes := JokerSizes(NamesOf(cards));
    assert |cards| == 5 ==> Categorize(sizes).Ok? by {
      if |cards| == 5 {
        FiveSplitsSevenWays(sizes);
      }
    }
    Categorize(sizes)
  }

  /** Without jokers both rules give the same type. */
  lemma NoJokersSameType(cards: seq<Card>)
    requires forall i | 0 <= i < |cards| :: cards[i].name != 'J'
    ensures CategorizeHand2(cards) == CategorizeHand1(cards)
  {
    var names := NamesOf(cards);
    assert 'J' !in names;
    NonJokersWithout(names);
  }

  lemma {:induction false} NonJokersWithout(names: string)
    requires 'J' !in names
    ensures NonJokers(names) == names
  {
    if names != [] {
      NonJokersWithout(names[1..]);
    }
  }

  lemma {:induction false} NonJokersOfJokers(names: string)
    requires forall i | 0 <= i < |names| :: names[i] == 'J'
    ensures NonJokers(names) == []
  {
    if names != [] {
      NonJokersOfJokers(names[1..]);
    }
  }

  /** Five jokers make five of a kind. */
  lemma AllJokers(cards: seq<Card>)
    requires |cards| == 5 && forall i | 0 <= i < 5 :: cards[i].name == 'J'
    ensures CategorizeHand2(cards) == Ok(FiveOfAKind)
  {
    var names := NamesOf(cards);
    NonJokersOfJokers(names);
    assert GroupNames([]) == [];
  }

  // ---------------------------------------------------------------------
  // Typing every hand in place

  /** A five-card hand's part-one type. */
  function Type1(cards: seq<Card>): (r: HandType)
    requires |cards| == 5
    ensures Ok(r) == CategorizeHand1(cards) && r != NotCategorised
  {
    CategorizeHand1(cards).value
  }

  /** A five-card hand's part-two type. */
  function Type2(cards: seq<Card>): (r: HandType)
    requires |cards| == 5
    ensures Ok(r) == CategorizeHand2(cards) && r != NotCategorised
  {
    CategorizeHand2(cards).value
  }

  /** The part-one hand: its type assigned, cards and bid kept. */
  function Typed1(h: Hand): Hand
    requires |h.cards| == 5
  {
    h.(handType := Type1(h.cards))
  }

  /** The part-two hand: jacks made jokers, then the type of the updated
    * cards assigned. The update keeps the names, so the type is that of
    * the original cards. */
  function Typed2(h: Hand): Hand
    requires |h.cards| == 5
  {
    var updated := UpdateJackStrength(h);
    updated.(handType := Type2(updated.cards))
  }

  /** Making jacks jokers keeps the names, so the part-two type of the
    * updated cards is that of the original cards. */
  lemma JokerUpdateKeepsType(h: Hand)
    requires |h.cards| == 5
    ensures Typed2(h).handType == Type2(h.cards)
  {
    assert NamesOf(UpdateJackStrength(h).cards) == NamesOf(h.cards);
  }

  /** Every hand typed for part one. */
  function AllTyped1(hands: seq<Hand>): (r: seq<Hand>)
    requires FiveCards(hands)
    ensures |r| == |hands| && forall i | 0 <= i < |hands| :: r[i] == Typed1(hands[i])
  {
    seq(|hands|, i requires 0 <= i < |hands| => Typed1(hands[i]))
  }

  /** Every hand typed for part two. */
  function AllTyped2(hands: seq<Hand>): (r: seq<Hand>)
    requires FiveCards(hands)
    ensures |r| == |hands| && forall i | 0 <= i < |hands| :: r[i] == Typed2(hands[i])
  {
    seq(|hands|, i requires 0 <= i < |hands| => Typed2(hands[i]))
  }

  /** The `iter_mut().for_each` of both finalisers: each hand's type is
    * set by the given rule from its cards. */
  method SetTypes(hands: array<Hand>, typeOf: seq<Card> --> HandType)
    requires forall i | 0 <= i < hands.Length :: typeOf.requires(hands[i].cards)
    modifies hands
    ensures forall i | 0 <= i < hands.Length ::
      typeOf.requires(old(hands[i]).cards) && hands[i] == old(hands[i]).(handType := typeOf(old(hands[i]).cards))
  {
    for i := 0 to hands.Length
      invariant forall k | 0 <= k < i ::
        typeOf.requires(old(hands[k]).cards) && hands[k] == old(hands[k]).(handType := typeOf(old(hands[k]).cards))
      invariant forall k | i <= k < hands.Length :: hands[k] == old(hands[k])
    {
      hands[i] := hands[i].(handType := typeOf(hands[i].cards));
    }
  }

  /** The `map(update_jack_strength)` of part two, in place. */
  method UpdateJacks(hands: array<Hand>)
    modifies hands
    ensures forall i | 0 <= i < hands.Length :: hands[i] == UpdateJackStrength(old(hands[i]))
  {
    for i := 0 to hands.Length
      invariant forall k | 0 <= k < i :: hands[k] == UpdateJackStrength(old(hands[k]))
      invariant forall k | i <= k < hands.Length :: hands[k] == old(hands[k])
    {
      hands[i] := UpdateJackStrength(hands[i]);
    }
  }

  /** `finalise_state_1`: every hand gets its part-one type in place. */
  method FinaliseState1(hands: array<Hand>)
    requires FiveCards(hands[..])
    modifies hands
    ensures hands[..] == AllTyped1(old(hands[..]))
  {
    assert forall i | 0 <= i < hands.Length :: |hands[..][i].cards| == 5;
    SetTypes(hands, Type1);
  }

  /** `finalise_state_2`: every J becomes a joker and every hand gets its
    * part-two type, in place. */
  method FinaliseState2(hands: array<Hand>)
    requires FiveCards(hands[..])
    modifies hands
    ensures hands[..] == AllTyped2(old(hands[..]))
  {
    assert forall i | 0 <= i < hands.Length :: |hands[..][i].cards| == 5;
    UpdateJacks(hands);
    SetTypes(hands, Type2);
  }

  // ---------------------------------------------------------------------
  // Ordering

  /** `cmp` on strengths. */
  function CompareStrength(a: nat, b: nat): (r: Ordering)
    ensures r == Less <==> a < b
    ensures r == Equal <==> a == b
    ensures r == Greater <==> a > b
  {
    if a < b then Less else if a == b then Equal else Greater
  }

  function Flip(o: Ordering): Ordering {
    match o
    case Less => Greater
    case Equal => Equal
    case Greater => Less
  }

  /** `compare_cards`: the zipped cards in turn, the first that differs in
    * strength decides; cards past the shorter hand are ignored. */
  function CompareCards(c1: seq<Card>, c2: seq<Card>): (r: Ordering)
    ensures r == Equal <==>
      forall i | 0 <= i < |c1| && i < |c2| :: c1[i].strength == c2[i].strength
  {
    if c1 == [] || c2 == [] then Equal
    else
      var first := CompareStrength(c1[0].strength, c2[0].strength);
      if first == Equal then
        var r := CompareCards(c1[1..], c2[1..]);
        assert forall i | 1 <= i < |c1| && i < |c2| ::
          c1[i] == c1[1..][i - 1] && c2[i] == c2[1..][i - 1];
        r
      else first
  }

  /** The first card that differs decides the order. */
  lemma {:induction false} FirstDifferenceDecides(c1: seq<Card>, c2: seq<Card>, k: nat)
    requires k < |c1| && k < |c2| && c1[k].strength != c2[k].strength
    requires forall i | 0 <= i < k :: c1[i].strength == c2[i].strength
    ensures CompareCards(c1, c2) == CompareStrength(c1[k].strength, c2[k].strength)
  {
    if k > 0 {
      assert c1[0].strength == c2[0].strength;
      assert forall i | 0 <= i < k - 1 :: c1[1..][i] == c1[i + 1] && c2[1..][i] == c2[i + 1];
      FirstDifferenceDecides(c1[1..], c2[1..], k - 1);
    }
  }

  /** Swapping the arguments reverses the order. */
  lemma {:induction false} CompareCardsFlip(c1: seq<Card>, c2: seq<Card>)
    ensures CompareCards(c2, c1) == Flip(CompareCards(c1, c2))
  {
    if c1 != [] && c2 != [] && c1[0].strength == c2[0].strength {
      CompareCardsFlip(c1[1..], c2[1..]);
    }
  }

  /** On hands of one length the order is transitive. */
  lemma {:induction false} CompareCardsTransitive(a: seq<Card>, b: seq<Card>, c: seq<Card>)
    requires |a| == |b| == |c|
    requires CompareCards(a, b) != Greater && CompareCards(b, c) != Greater
    ensures CompareCards(a, c) != Greater
  {
    if a != [] && a[0].strength == b[0].strength == c[0].strength {
      CompareCardsTransitive(a[1..], b[1..], c[1..]);
    }
  }

  /** The place of a type in the declaration, which the derived order
    * compares: FiveOfAKind is 0. */
  function TypeRank(t: HandType): (r: nat)
    ensures r < 8
  {
    match t
    case FiveOfAKind => 0
    case FourOfAKind => 1
    case FullHouse => 2
    case ThreeOfAKind => 3
    case TwoPair => 4
    case OnePair => 5
    case HighCard => 6
    case NotCategorised => 7
  }

  lemma TypeRankInjective(s: HandType, t: HandType)
    requires TypeRank(s) == TypeRank(t)
    ensures s == t
  {
  }

  /** The comparator of `perform_processing`: a weaker type (later in the
    * declaration) comes first, equal types go by the cards. */
  function CompareHands(h1: Hand, h2: Hand): (r: Ordering)
    ensures TypeRank(h1.handType) > TypeRank(h2.handType) ==> r == Less
    ensures TypeRank(h1.handType) < TypeRank(h2.handType) ==> r == Greater
    ensures h1.handType == h2.handType ==> r == CompareCards(h1.cards, h2.cards)
  {
    if h1.handType == h2.handType then CompareCards(h1.cards, h2.cards)
    else Flip(CompareStrength(TypeRank(h1.handType), TypeRank(h2.handType)))
  }

  lemma CompareHandsFlip(h1: Hand, h2: Hand)
    ensures CompareHands(h2, h1) == Flip(CompareHands(h1, h2))
  {
    if h1.handType == h2.handType {
      CompareCardsFlip(h1.cards, h2.cards);
    } else {
      if TypeRank(h1.handType) == TypeRank(h2.handType) {
        TypeRankInjective(h1.handType, h2.handType);
      }
    }
  }

  predicate NotAfter(h1: Hand, h2: Hand) {
    CompareHands(h1, h2) != Greater
  }

  lemma NotAfterTransitive(a: Hand, b: Hand, c: Hand)
    requires |a.cards| == |b.cards| == |c.cards|
    requires NotAfter(a, b) && NotAfter(b, c)
    ensures NotAfter(a, c)
  {
    if TypeRank(a.handType) == TypeRank(b.handType) {
      TypeRankInjective(a.handType, b.handType);
    }
    if TypeRank(b.handType) == TypeRank(c.handType) {
      TypeRankInjective(b.handType, c.handType);
    }
    if a.handType == b.handType == c.handType {
      CompareCardsTransitive(a.cards, b.cards, c.cards);
    }
  }

  // ---------------------------------------------------------------------
  // Sorting by rank

  /** The hands from `lo` up to `hi` are in order. */
  predicate SortedRange(s: seq<Hand>, lo: nat, hi: nat)
    requires lo <= hi <= |s|
  {
    forall p, q | lo <= p < q < hi :: NotAfter(s[p], s[q])
  }

  /** Every hand before `j` comes no later than every hand after it, up to
    * `i`. */
  predicate OrderedAcross(s: seq<Hand>, j: nat, i: nat)
    requires j <= i < |s|
  {
    forall p, q | 0 <= p < j < q <= i :: NotAfter(s[p], s[q])
  }

  /** Exchanging the hand at `j` with the one before it when they are out
    * of order keeps both halves sorted around the new gap. */
  lemma SinkStep(s: seq<Hand>, j: nat, i: nat)
    requires 0 < j <= i < |s| && FiveCards(s)
    requires SortedRange(s, 0, j) && SortedRange(s, j, i + 1) && OrderedAcross(s, j, i)
    requires CompareHands(s[j - 1], s[j]) == Greater
    ensures var t := s[j - 1 := s[j]][j := s[j - 1]];
      SortedRange(t, 0, j - 1) && SortedRange(t, j - 1, i + 1) && OrderedAcross(t, j - 1, i)
  {
    CompareHandsFlip(s[j - 1], s[j]);
    var t := s[j - 1 := s[j]][j := s[j - 1]];
    forall p, q | j - 1 <= p < q <= i
      ensures NotAfter(t[p], t[q])
    {
      if p == j - 1 && q > j {
        NotAfterTransitive(s[j], s[j - 1], s[q]);
      }
    }
  }

  /** Once the hand at `j` is not before the one ahead of it, the whole
    * range up to `i` is sorted. */
  lemma SinkDone(s: seq<Hand>, j: nat, i: nat)
    requires j <= i < |s| && FiveCards(s)
    requires SortedRange(s, 0, j) && SortedRange(s, j, i + 1) && OrderedAcross(s, j, i)
    requires j > 0 ==> NotAfter(s[j - 1], s[j])
    ensures SortedRange(s, 0, i + 1)
  {
    forall p, q | 0 <= p < q <= i
      ensures NotAfter(s[p], s[q])
    {
      if p < j - 1 && q == j {
        NotAfterTransitive(s[p], s[j - 1], s[j]);
      }
    }
  }

  /** One pass of insertion: the hand at `i` is moved down past every hand
    * that should come after it. */
  method SinkLast(a: array<Hand>, i: nat)
    requires i < a.Length && FiveCards(a[..]) && SortedRange(a[..], 0, i)
    modifies a
    ensures SortedRange(a[..], 0, i + 1) && FiveCards(a[..])
    ensures multiset(a[..]) == multiset(old(a[..])) && a[i + 1..] == old(a[i + 1..])
  {
    var j: nat := i;
    while j > 0 && CompareHands(a[j - 1], a[j]) == Greater
      invariant j <= i && FiveCards(a[..])
      invariant SortedRange(a[..], 0, j) && SortedRange(a[..], j, i + 1) && OrderedAcross(a[..], j, i)
      invariant multiset(a[..]) == multiset(old(a[..])) && a[i + 1..] == old(a[i + 1..])
      decreases j
    {
      SinkStep(a[..], j, i);
      a[j - 1], a[j] := a[j], a[j - 1];
      j := j - 1;
    }
    SinkDone(a[..], j, i);
  }

  /** `perform_processing`: the hands sorted in place, weakest first. */
  method PerformProcessing(a: array<Hand>)
    requires FiveCards(a[..])
    modifies a
    ensures SortedRange(a[..], 0, a.Length) && multiset(a[..]) == multiset(old(a[..]))
  {
    for i := 0 to a.Length
      invariant FiveCards(a[..]) && SortedRange(a[..], 0, i)
      invariant multiset(a[..]) == multiset(old(a[..]))
    {
      SinkLast(a, i);
    }
  }

  // ---------------------------------------------------------------------
  // Winnings

  /** `calc_result`: each bid times its 1-based rank, summed. */
  function CalcResult(hands: seq<Hand>): int {
    Sum(seq(|hands|, i requires 0 <= i < |hands| => (i + 1) * hands[i].bid))
  }

  /** One more hand, ranked last, adds its bid times the new count. */
  lemma CalcResultSnoc(hands: seq<Hand>, h: Hand)
    ensures CalcResult(hands + [h]) == CalcResult(hands) + (|hands| + 1) * h.bid
  {
    var terms := seq(|hands|, i requires 0 <= i < |hands| => (i + 1) * hands[i].bid);
    var more := hands + [h];
    assert seq(|more|, i requires 0 <= i < |more| => (i + 1) * more[i].bid) == terms + [(|hands| + 1) * h.bid];
    SumSnoc(terms, (|hands| + 1) * h.bid);
  }

  /** The result is never negative and is at least the sum of the bids. */
  lemma {:induction false} CalcResultAtLeastBids(hands: seq<Hand>)
    ensures CalcResult(hands) >= BidTotal(hands)
  {
    if hands != [] {
      var init := hands[..|hands| - 1];
      CalcResultAtLeastBids(init);
      assert init + [hands[|hands| - 1]] == hands;
      CalcResultSnoc(init, hands[|hands| - 1]);
    }
  }

  function BidTotal(hands: seq<Hand>): nat {
    if hands == [] then 0 else BidTotal(hands[..|hands| - 1]) + hands[|hands| - 1].bid
  }
}
