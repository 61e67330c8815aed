// Day 9: Mirage Maintenance. Each line is a sequence of readings; the
// next (part one) or previous (part two) reading is extrapolated from the
// repeated differences until they are all zero.
module Day9 {
  import opened Wrappers
  import opened Numbers
  import opened Processor

  const Delimiters: set<char> := {' '}

  // ---------------------------------------------------------------------
  // Loading

  /** The `while let Ok(..) = read_next::<i64>` loop: values are appended
    * until a word is missing or is not an i64. */
  function ReadNums(chars: string, nums: seq<int>): seq<int> {
    ReadValues(ParseI64, chars, nums)
  }

  /** Values read with `parse` until a word is missing or does not parse. */
  function ReadValues(parse: string -> Option<int>, chars: string, nums: seq<int>): seq<int>
    decreases |chars|
  {
    match ReadNext(chars, Delimiters, parse)
    case Err(_) => nums
    case Ok(t) => ReadValues(parse, t.rest, nums + [t.value])
  }

  /** The read loop of `parse_line`, proved to read exactly `ReadNums`. */
  method ParseNums(line: string) returns (nums: seq<int>)
    ensures nums == ReadNums(line, [])
  {
    nums := [];
    var chars := line;
    var reading := true;
    while reading
      invariant reading ==> ReadNums(chars, nums) == ReadNums(line, [])
      invariant !reading ==> nums == ReadNums(line, [])
      decreases |chars|, reading
    {
      match ReadNext(chars, Delimiters, ParseI64) {
        case Ok(t) =>
          nums, chars := nums + [t.value], t.rest;
        case Err(_) =>
          reading := false;
      }
    }
  }

  /** `parse_line`: every line adds one sequence, possibly empty. */
  function ParseLine(state: seq<seq<int>>, line: string): (r: Result<seq<seq<int>>>)
    ensures r.Ok? && |r.value| == |state| + 1 && r.value[..|state|] == state
  {
    Ok(state + [ReadNums(line, [])])
  }

  /** Values written with a space after each. */
  function Spaced(values: seq<int>): string {
    SpacedBy(ShowInt, values)
  }

  /** Values written by `show`, with a space after each. */
  function SpacedBy(show: int -> string, values: seq<int>): string {
    if values == [] then [] else show(values[0]) + [' '] + SpacedBy(show, values[1..])
  }

  /** `show` writes every i64 as a word without spaces that reads back. */
  ghost predicate ReadsBack(show: int -> string, parse: string -> Option<int>) {
    forall v | I64_MIN <= v <= I64_MAX :: |show(v)| > 0 && NoneIn(show(v), Delimiters) && parse(show(v)) == Some(v)
  }

  predicate FitsI64(values: seq<int>) {
    forall i | 0 <= i < |values| :: I64_MIN <= values[i] <= I64_MAX
  }

  lemma NumeralHasNoSpace(v: int)
    ensures NoneIn(ShowInt(v), Delimiters)
  {
    var s := ShowInt(v);
    var digits := ShowNat(if v < 0 then -v else v);
    forall i | 0 <= i < |s|
      ensures s[i] != ' '
    {
      if v < 0 {
        if i > 0 {
          assert s[i] == digits[i - 1];
          assert IsDigit(digits[i - 1]);
        }
      } else {
        assert IsDigit(digits[i]);
      }
    }
  }

  /** The numerals read back. */
  lemma ShowIntReadsBack()
    ensures ReadsBack(ShowInt, ParseI64)
  {
    forall v | I64_MIN <= v <= I64_MAX
      ensures |ShowInt(v)| > 0 && NoneIn(ShowInt(v), Delimiters) && ParseI64(ShowInt(v)) == Some(v)
    {
      NumeralHasNoSpace(v);
      ParseSignedShowInt(v, I64_MIN, I64_MAX);
    }
  }

  /** The first written value followed by a space reads back as that
    * value, leaving the rest written. */
  lemma ReadNextSpaced(show: int -> string, parse: string -> Option<int>, values: seq<int>)
    requires ReadsBack(show, parse) && values != [] && FitsI64(values)
    ensures ReadNext(SpacedBy(show, values), Delimiters, parse) == Ok(Token(values[0], Some(' '), SpacedBy(show, values[1..])))
  {
    var v := values[0];
    assert I64_MIN <= v <= I64_MAX;
    NextWordSplits(show(v), ' ', SpacedBy(show, values[1..]), Delimiters);
  }

  /** Reading one value and going on with the rest. */
  lemma ReadValuesStep(parse: string -> Option<int>, chars: string, nums: seq<int>, t: Token<int>)
    requires ReadNext(chars, Delimiters, parse) == Ok(t)
    ensures ReadValues(parse, chars, nums) == ReadValues(parse, t.rest, nums + [t.value])
  {
  }

  /** Values written by any writer that reads back are read back in
    * order. */
  lemma {:induction false} ReadValuesSpacedBy(show: int -> string, parse: string -> Option<int>, values: seq<int>, nums: seq<int>)
    requires ReadsBack(show, parse) && FitsI64(values)
    ensures ReadValues(parse, SpacedBy(show, values), nums) == nums + values
    decreases |values|
  {
    if values == [] {
      assert ReadValues(parse, [], nums) == nums by {
        assert NextWord([], Delimiters).None?;
      }
      assert nums + values == nums;
    } else {
      var rest := values[1..];
      assert FitsI64(rest) by {
        assert forall i | 0 <= i < |rest| :: rest[i] == values[i + 1];
      }
      ReadNextSpaced(show, parse, values);
      ReadValuesStep(parse, SpacedBy(show, values), nums, Token(values[0], Some(' '), SpacedBy(show, rest)));
      ReadValuesSpacedBy(show, parse, rest, nums + [values[0]]);
      assert nums + [values[0]] + rest == nums + values;
    }
  }

  /** Written values read back in order. */
  lemma ReadNumsSpaced(values: seq<int>, nums: seq<int>)
    requires FitsI64(values)
    ensures ReadNums(Spaced(values), nums) == nums + values
  {
    ShowIntReadsBack();
    ReadValuesSpacedBy(ShowInt, ParseI64, values, nums);
  }

  // ---------------------------------------------------------------------
  // Extrapolating

  /** The differences of neighbouring values (`windows(2)`). */
  function Diffs(nums: seq<int>): (r: seq<int>)
    ensures |nums| > 0 ==> |r| == |nums| - 1
    ensures |nums| == 0 ==> r == []
    ensures forall i | 0 <= i < |r| :: r[i] == nums[i + 1] - nums[i]
  {
    if |nums| == 0 then [] else seq(|nums| - 1, i requires 0 <= i < |nums| - 1 => nums[i + 1] - nums[i])
  }

  predicate AllZero(s: seq<int>) {
    forall i | 0 <= i < |s| :: s[i] == 0
  }

  /** The two closures passed to `calculate_seq_number`: part one reads the
    * last value and adds, part two the first and subtracts. */
  datatype Direction = Forwards | Backwards

  function SeqNumber(dir: Direction, nums: seq<int>): (r: int)
    requires |nums| > 0
    ensures dir == Forwards ==> r == nums[|nums| - 1]
    ensures dir == Backwards ==> r == nums[0]
  {
    match dir
    case Forwards => nums[|nums| - 1]
    case Backwards => nums[0]
  }

  function Adjust(dir: Direction, num: int, adjustment: int): int {
    match dir
    case Forwards => num + adjustment
    case Backwards => num - adjustment
  }

  /** `calculate_seq_number`: when the differences are all zero the
    * selected value itself, otherwise it adjusted by the value extrapolated
    * from the (shorter) differences. */
  function CalculateSeqNumber(nums: seq<int>, dir: Direction): int
    requires |nums| > 0
    decreases |nums|
  {
    var diffs := Diffs(nums);
    if AllZero(diffs) then SeqNumber(dir, nums)
    else Adjust(dir, SeqNumber(dir, nums), CalculateSeqNumber(diffs, dir))
  }

  function Next(nums: seq<int>): int
    requires |nums| > 0
  {
    CalculateSeqNumber(nums, Forwards)
  }

  function Previous(nums: seq<int>): int
    requires |nums| > 0
  {
    CalculateSeqNumber(nums, Backwards)
  }

  /** A constant sequence extrapolates to its constant either way. */
  lemma ConstantSequence(nums: seq<int>, c: int, dir: Direction)
    requires |nums| > 0 && forall i | 0 <= i < |nums| :: nums[i] == c
    ensures CalculateSeqNumber(nums, dir) == c
  {
    assert AllZero(Diffs(nums));
  }

  /** The differences of an arithmetic progression are its step. */
  lemma ProgressionDiffs(nums: seq<int>, a: int, d: int)
    requires forall i | 0 <= i < |nums| :: nums[i] == a + i * d
    ensures forall i | 0 <= i < |Diffs(nums)| :: Diffs(nums)[i] == d
  {
    forall i | 0 <= i < |Diffs(nums)|
      ensures Diffs(nums)[i] == d
    {
      assert nums[i + 1] == a + (i + 1) * d && nums[i] == a + i * d;
      assert (i + 1) * d == i * d + d;
    }
  }

  /** An arithmetic progression extrapolates to its next term. */
  lemma ArithmeticProgression(nums: seq<int>, a: int, d: int)
    requires |nums| >= 2 && forall i | 0 <= i < |nums| :: nums[i] == a + i * d
    ensures Next(nums) == a + |nums| * d
    ensures Previous(nums) == a - d
  {
    var n := |nums|;
    var diffs := Diffs(nums);
    ProgressionDiffs(nums, a, d);
    NextStep(nums);
    PreviousStep(nums);
    assert nums[n - 1] == a + (n - 1) * d && nums[0] == a + 0 * d;
    assert (n - 1) * d + d == n * d;
    if AllZero(diffs) {
      assert d == diffs[0] == 0;
    } else {
      ConstantSequence(diffs, d, Forwards);
      ConstantSequence(diffs, d, Backwards);
    }
  }

  /** One more reading at the end adds one difference at the end. */
  lemma DiffsSnoc(nums: seq<int>, v: int)
    requires |nums| > 0
    ensures Diffs(nums + [v]) == Diffs(nums) + [v - nums[|nums| - 1]]
  {
    var longer := nums + [v];
    forall i | 0 <= i < |nums| - 1
      ensures Diffs(longer)[i] == Diffs(nums)[i]
    {
      assert longer[i] == nums[i] && longer[i + 1] == nums[i + 1];
    }
  }

  /** One more reading at the front adds one difference at the front. */
  lemma DiffsCons(v: int, nums: seq<int>)
    requires |nums| > 0
    ensures Diffs([v] + nums) == [nums[0] - v] + Diffs(nums)
  {
    var longer := [v] + nums;
    var r := Diffs(longer);
    var e := [nums[0] - v] + Diffs(nums);
    assert |r| == |e|;
    forall i | 0 <= i < |r|
      ensures r[i] == e[i]
    {
      if i > 0 {
        assert longer[i] == nums[i - 1] && longer[i + 1] == nums[i];
      }
    }
  }

  /** Unfolding part one by one level. */
  lemma NextStep(nums: seq<int>)
    requires |nums| > 0
    ensures Next(nums) == nums[|nums| - 1] + (if AllZero(Diffs(nums)) then 0 else Next(Diffs(nums)))
  {
  }

  /** Unfolding part two by one level. */
  lemma PreviousStep(nums: seq<int>)
    requires |nums| > 0
    ensures Previous(nums) == nums[0] - (if AllZero(Diffs(nums)) then 0 else Previous(Diffs(nums)))
  {
  }

  /** The extrapolated next value continues the differences: appended to
    * the readings, it appends the next difference (zero once they are all
    * zero). */
  lemma NextContinuesDiffs(nums: seq<int>)
    requires |nums| > 0
    ensures Diffs(nums + [Next(nums)]) ==
      Diffs(nums) + [if AllZero(Diffs(nums)) then 0 else Next(Diffs(nums))]
  {
    NextStep(nums);
    DiffsSnoc(nums, Next(nums));
  }

  /** Likewise the extrapolated previous value prepends the previous
    * difference. */
  lemma PreviousContinuesDiffs(nums: seq<int>)
    requires |nums| > 0
    ensures Diffs([Previous(nums)] + nums) ==
      [if AllZero(Diffs(nums)) then 0 else Previous(Diffs(nums))] + Diffs(nums)
  {
    PreviousStep(nums);
    DiffsCons(Previous(nums), nums);
  }

  // The two parts are mirror images: the previous value of a sequence is
  // the next value of the reversed sequence.

  function Reversed(s: seq<int>): (r: seq<int>)
    ensures |r| == |s| && forall i | 0 <= i < |s| :: r[i] == s[|s| - 1 - i]
  {
    seq(|s|, i requires 0 <= i < |s| => s[|s| - 1 - i])
  }

  function Negated(s: seq<int>): (r: seq<int>)
    ensures |r| == |s| && forall i | 0 <= i < |s| :: r[i] == -s[i]
  {
    seq(|s|, i requires 0 <= i < |s| => -s[i])
  }

  lemma DiffsReversed(s: seq<int>)
    ensures Diffs(Reversed(s)) == Negated(Reversed(Diffs(s)))
  {
    if |s| > 0 {
      var l := Diffs(Reversed(s));
      var r := Negated(Reversed(Diffs(s)));
      forall i | 0 <= i < |l|
        ensures l[i] == r[i]
      {
        var n := |s|;
        assert Reversed(Diffs(s))[i] == Diffs(s)[n - 2 - i];
      }
    }
  }

  lemma DiffsNegated(s: seq<int>)
    ensures Diffs(Negated(s)) == Negated(Diffs(s))
  {
  }

  /** Negating the readings negates the extrapolated value. */
  lemma {:induction false} NextNegated(s: seq<int>)
    requires |s| > 0
    ensures Next(Negated(s)) == -Next(s)
    decreases |s|
  {
    DiffsNegated(s);
    var diffs := Diffs(s);
    assert AllZero(Negated(diffs)) == AllZero(diffs) by {
      assert forall i | 0 <= i < |diffs| :: Negated(diffs)[i] == -diffs[i];
    }
    if !AllZero(diffs) {
      NextNegated(diffs);
    }
  }

  lemma AllZeroReversedNegated(d: seq<int>)
    ensures AllZero(Negated(Reversed(d))) == AllZero(d)
  {
    var n := Negated(Reversed(d));
    assert forall i | 0 <= i < |d| :: n[i] == -d[|d| - 1 - i];
    assert forall i | 0 <= i < |d| :: d[i] == -n[|d| - 1 - i];
  }

  /** Part two is part one on the reversed readings. */
  lemma {:induction false} PreviousIsNextReversed(s: seq<int>)
    requires |s| > 0
    ensures Previous(s) == Next(Reversed(s))
    decreases |s|
  {
    var d := Diffs(s);
    var rd := Reversed(d);
    NextStep(Reversed(s));
    PreviousStep(s);
    DiffsReversed(s);
    AllZeroReversedNegated(d);
    assert Reversed(s)[|s| - 1] == s[0];
    if !AllZero(d) {
      PreviousIsNextReversed(d);
      NextNegated(rd);
    }
  }

  // ---------------------------------------------------------------------
  // Parts one and two

  /** `perform_processing_1`/`_2`: one extrapolated value per line; an
    * empty line panics (`unwrap` on no value), an error here. */
  function PerformProcessing(state: seq<seq<int>>, dir: Direction): (r: Result<seq<int>>)
    ensures r.Ok? <==> forall i | 0 <= i < |state| :: |state[i]| > 0
    ensures r.Ok? ==> |r.value| == |state|
    ensures r.Ok? ==> forall i | 0 <= i < |state| :: r.value[i] == CalculateSeqNumber(state[i], dir)
  {
    if state == [] then Ok([])
    else if |state[0]| == 0 then Err("called `Option::unwrap()` on a `None` value")
    else
      match PerformProcessing(state[1..], dir)
      case Err(e) => Err(e)
      case Ok(rest) =>
        assert forall i | 1 <= i < |state| :: state[i] == state[1..][i - 1];
        Ok([CalculateSeqNumber(state[0], dir)] + rest)
  }

  /** `calc_result`: the sum. */
  function CalcResult(values: seq<int>): int {
    Sum(values)
  }
}
