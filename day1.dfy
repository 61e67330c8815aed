// Calibration values: the first and last digit on each line, read as a
// two-digit number; in the second part spelled-out digits count as well.
module Day1 {
  import opened Wrappers
  import opened Numbers
  import opened Processor

  // ---------------------------------------------------------------------
  // Part one: digit characters only

  /** The position of the first decimal digit in `s`. */
  function FirstDigit(s: string): (r: Option<nat>)
    ensures r.Some? ==> r.value < |s| && IsDigit(s[r.value]) &&
                        forall j | 0 <= j < r.value :: !IsDigit(s[j])
    ensures r.None? ==> forall j | 0 <= j < |s| :: !IsDigit(s[j])
  {
    if s == [] then None
    else
      var f := FirstDigit(s[..|s| - 1]);
      if f.Some? then f
      else if IsDigit(s[|s| - 1]) then Some(|s| - 1)
      else None
  }

  /** The position of the last decimal digit in `s`. */
  function LastDigit(s: string): (r: Option<nat>)
    ensures r.Some? ==> r.value < |s| && IsDigit(s[r.value]) &&
                        forall j | r.value < j < |s| :: !IsDigit(s[j])
    ensures r.None? ==> forall j | 0 <= j < |s| :: !IsDigit(s[j])
  {
    if s == [] then None
    else if IsDigit(s[|s| - 1]) then Some(|s| - 1)
    else LastDigit(s[..|s| - 1])
  }

  /** `parse_line_1`: scans the line keeping the first digit seen and the
    * latest one; the value is ten times the first plus the last. A line
    * without a digit is an error. */
  method ParseLine1(state: seq<int>, line: string) returns (r: Result<seq<int>>)
    ensures r.Err? <==> FirstDigit(line).None?
    ensures r.Ok? ==> r.value == state + [10 * DigitValue(line[FirstDigit(line).value]) +
                                           DigitValue(line[LastDigit(line).value])]
  {
    var first: Option<int> := None;
    var second: Option<int> := None;
    for i := 0 to |line|
      invariant first.None? <==> FirstDigit(line[..i]).None?
      invariant second.None? <==> LastDigit(line[..i]).None?
      invariant first.Some? ==> first.value == DigitValue(line[FirstDigit(line[..i]).value])
      invariant second.Some? ==> second.value == DigitValue(line[LastDigit(line[..i]).value])
    {
      assert line[..i + 1][..i] == line[..i];
      if IsDigit(line[i]) {
        if first.None? {
          first := Some(DigitValue(line[i]));
        }
        second := Some(DigitValue(line[i]));
      }
    }
    assert line[..|line|] == line;
    if first.None? || second.None? {
      return Err("Didn't get the 2 numbers on line");
    }
    r := Ok(state + [10 * first.value + second.value]);
  }

  /** A line with a single digit d reads as 11 * d: it is both the first and
    * the last digit. */
  lemma SingleDigit(line: string, i: nat)
    requires i < |line| && IsDigit(line[i])
    requires forall j | 0 <= j < |line| && j != i :: !IsDigit(line[j])
    ensures FirstDigit(line) == Some(i) && LastDigit(line) == Some(i)
    ensures 10 * DigitValue(line[FirstDigit(line).value]) + DigitValue(line[LastDigit(line).value])
            == 11 * DigitValue(line[i])
  {
  }

  // ---------------------------------------------------------------------
  // Part two: digits and digit words

  const Names: seq<string> := ["one", "two", "three", "four", "five", "six", "seven", "eight", "nine"]

  /** The names spelled backwards, as the backwards search looks for them. */
  const ReversedNames: seq<string> := ["eno", "owt", "eerht", "ruof", "evif", "xis", "neves", "thgie", "enin"]

  lemma ReversedNamesAreReversed()
    ensures |ReversedNames| == |Names|
    ensures forall k | 0 <= k < |Names| :: ReversedNames[k] == Reverse(Names[k])
  {
    assert Reverse("one") == "eno";
    assert Reverse("two") == "owt";
    assert Reverse("three") == "eerht";
    assert Reverse("four") == "ruof";
    assert Reverse("five") == "evif";
    assert Reverse("six") == "xis";
    assert Reverse("seven") == "neves";
    assert Reverse("eight") == "thgie";
    assert Reverse("nine") == "enin";
  }

  predicate IsNonZeroDigit(c: char) {
    '1' <= c <= '9'
  }

  /** `get_num`: "1".."9" and "one".."nine" are 1..9; anything else is None. */
  function GetNum(s: string): Option<nat> {
    if |s| == 1 && IsNonZeroDigit(s[0]) then Some(DigitValue(s[0]))
    else if s == "one" then Some(1)
    else if s == "two" then Some(2)
    else if s == "three" then Some(3)
    else if s == "four" then Some(4)
    else if s == "five" then Some(5)
    else if s == "six" then Some(6)
    else if s == "seven" then Some(7)
    else if s == "eight" then Some(8)
    else if s == "nine" then Some(9)
    else None
  }

  /** Each digit name reads as its position in the list, counting from one. */
  lemma GetNumName(k: nat)
    requires k < |Names|
    ensures GetNum(Names[k]) == Some(k + 1)
  {
  }

  /** A non-zero digit reads as its value. */
  lemma GetNumDigit(c: char)
    requires IsNonZeroDigit(c)
    ensures GetNum([c]) == Some(DigitValue(c))
  {
  }

  /** `get_num` knows nothing but the digits 1-9 and their names, and reads
    * each as a value from 1 to 9. */
  lemma GetNumOnlyDigits(s: string)
    ensures GetNum(s).Some? <==> (|s| == 1 && IsNonZeroDigit(s[0])) || s in Names
    ensures GetNum(s).Some? ==> 1 <= GetNum(s).value <= 9
  {
  }

  /** The first name in `names` that starts at position i, from index k on. */
  function NameAt(s: string, i: nat, names: seq<string>, k: nat): (r: Option<string>)
    requires i <= |s|
    ensures r.Some? ==> exists j | k <= j < |names| :: r.value == names[j] && names[j] <= s[i..]
    ensures r.None? ==> forall j | k <= j < |names| :: !(names[j] <= s[i..])
    decreases |names| - k
  {
    if k >= |names| then None
    else if names[k] <= s[i..] then Some(names[k])
    else NameAt(s, i, names, k + 1)
  }

  /** The text the alternation `[1-9]|name|...` matches at position i, if any. */
  function MatchAt(s: string, i: nat, names: seq<string>): Option<string>
    requires i < |s|
  {
    if IsNonZeroDigit(s[i]) then Some([s[i]]) else NameAt(s, i, names, 0)
  }

  /** The leftmost position at or after `from` where the alternation matches. */
  function Leftmost(s: string, names: seq<string>, from: nat): (r: Option<nat>)
    requires from <= |s|
    ensures r.Some? ==> from <= r.value < |s| && MatchAt(s, r.value, names).Some? &&
                        forall j | from <= j < r.value :: MatchAt(s, j, names).None?
    ensures r.None? ==> forall j | from <= j < |s| :: MatchAt(s, j, names).None?
    decreases |s| - from
  {
    if from == |s| then None
    else if MatchAt(s, from, names).Some? then Some(from)
    else Leftmost(s, names, from + 1)
  }

  /** The value of the leftmost match on the line. */
  function FirstValue(line: string): Option<nat> {
    match Leftmost(line, Names, 0)
    case Some(i) => GetNum(MatchAt(line, i, Names).value)
    case None => None
  }

  /** The leftmost match of the reversed names on the reversed line,
    * reversed back and read as a value. */
  function SecondValue(line: string): Option<nat> {
    var backwards := Reverse(line);
    match Leftmost(backwards, ReversedNames, 0)
    case Some(i) => GetNum(Reverse(MatchAt(backwards, i, ReversedNames).value))
    case None => None
  }

  /** `parse_line_2`: ten times the first value plus the second; a line
    * with no match is an error. */
  function ParseLine2(state: seq<int>, line: string): (r: Result<seq<int>>)
  {
    var first := FirstValue(line);
    var second := SecondValue(line);
    if first.None? || second.None? then Err("Didn't get the 2 numbers on line")
    else Ok(state + [10 * first.value + second.value])
  }

  /** The value of a digit or digit name ending just before position j. */
  function EndingAt(s: string, j: nat): (r: Option<nat>)
    requires j <= |s|
  {
    if j > 0 && IsNonZeroDigit(s[j - 1]) then Some(DigitValue(s[j - 1]))
    else EndingName(s, j, 0)
  }

  function EndingName(s: string, j: nat, k: nat): Option<nat>
    requires j <= |s|
    decreases |Names| - k
  {
    if k >= |Names| then None
    else if |Names[k]| <= j && s[j - |Names[k]|..j] == Names[k] then Some(k + 1)
    else EndingName(s, j, k + 1)
  }

  /** The value of the digit or digit name starting at position i. */
  function StartingAt(s: string, i: nat): (r: Option<nat>)
    requires i < |s|
  {
    match MatchAt(s, i, Names)
    case Some(m) => GetNum(m)
    case None => None
  }

  lemma ReverseSlice(s: string, i: nat, n: nat)
    requires i + n <= |s|
    ensures Reverse(s)[i..i + n] == Reverse(s[|s| - i - n..|s| - i])
  {
  }

  /** A word is a prefix of the reversed line from i exactly when the word
    * itself ends at |s| - i of the line. */
  lemma PrefixSlice(p: string, t: string, i: nat)
    requires i <= |t|
    ensures (p <= t[i..]) <==> (|p| <= |t| - i && t[i..i + |p|] == p)
  {
  }
  lemma ReverseInjective(a: string, b: string)
    ensures Reverse(a) == Reverse(b) <==> a == b
  {
    if Reverse(a) == Reverse(b) {
      ReverseReverse(a);
      ReverseReverse(b);
    }
  }
  /** A word is a prefix of the reversed line from i exactly when the word
    * itself ends at |s| - i of the line. */
  lemma PrefixReversed(s: string, i: nat, w: string)
    requires i <= |s|
    ensures (Reverse(w) <= Reverse(s)[i..]) <==> (|w| <= |s| - i && s[|s| - i - |w|..|s| - i] == w)
  {
    var rs := Reverse(s);
    var rw := Reverse(w);
    PrefixSlice(rw, rs, i);
    assert |rw| == |w| && |rs| == |s|;
    if |w| <= |s| - i {
      var piece := s[|s| - i - |w|..|s| - i];
      ReverseSlice(s, i, |w|);
      assert rs[i..i + |rw|] == Reverse(piece);
      ReverseInjective(piece, w);
      assert (rw <= rs[i..]) <==> Reverse(piece) == rw;
    }
  }

  /** The k-th reversed name spells the k-th name backwards, and reads back
    * as k + 1. */
  lemma ReversedNameValue(k: nat)
    requires k < |Names|
    ensures |ReversedNames| == |Names| && ReversedNames[k] == Reverse(Names[k])
    ensures Reverse(ReversedNames[k]) == Names[k] && GetNum(Names[k]) == Some(k + 1)
  {
    ReversedNamesAreReversed();
    ReverseReverse(Names[k]);
    GetNumName(k);
  }

  lemma NameAtReversed(s: string, i: nat, k: nat)
    requires i <= |s|
    ensures var m := NameAt(Reverse(s), i, ReversedNames, k);
            (m.Some? <==> EndingName(s, |s| - i, k).Some?) &&
            (m.Some? ==> GetNum(Reverse(m.value)) == EndingName(s, |s| - i, k))
    decreases |Names| - k
  {
    if k < |Names| {
      ReversedNameValue(k);
      var r := Reverse(s);
      PrefixReversed(s, i, Names[k]);
      if ReversedNames[k] <= r[i..] {
        assert NameAt(r, i, ReversedNames, k) == Some(ReversedNames[k]);
        assert EndingName(s, |s| - i, k) == Some(k + 1);
      } else {
        assert NameAt(r, i, ReversedNames, k) == NameAt(r, i, ReversedNames, k + 1);
        assert EndingName(s, |s| - i, k) == EndingName(s, |s| - i, k + 1);
        NameAtReversed(s, i, k + 1);
      }
    }
  }

  /** Matching the reversed names at position i of the reversed line finds
    * exactly the digit or digit name that ends at |s| - i of the line. */
  lemma MatchReversed(s: string, i: nat)
    requires i < |s|
    ensures var m := MatchAt(Reverse(s), i, ReversedNames);
            (m.Some? <==> EndingAt(s, |s| - i).Some?) &&
            (m.Some? ==> GetNum(Reverse(m.value)) == EndingAt(s, |s| - i))
  {
    var r := Reverse(s);
    assert r[i] == s[|s| - i - 1];
    if IsNonZeroDigit(r[i]) {
      assert Reverse([r[i]]) == [r[i]];
    } else {
      NameAtReversed(s, i, 0);
    }
  }

  /** Part two's second value is the rightmost digit or digit name: the
    * one that ends last on the line. */
  lemma SecondIsRightmost(line: string)
    ensures var i := Leftmost(Reverse(line), ReversedNames, 0);
            (i.None? <==> forall j | 0 < j <= |line| :: EndingAt(line, j).None?) &&
            (i.Some? ==>
               GetNum(Reverse(MatchAt(Reverse(line), i.value, ReversedNames).value)) == EndingAt(line, |line| - i.value) &&
               EndingAt(line, |line| - i.value).Some? &&
               forall j | |line| - i.value < j <= |line| :: EndingAt(line, j).None?)
  {
    var i := Leftmost(Reverse(line), ReversedNames, 0);
    MatchesEndings(line);
    if i.Some? {
      MatchReversed(line, i.value);
    }
  }

  /** A match at position `|line| - j` of the reversed line is a digit or
    * digit name ending at `j` on the line. */
  lemma MatchesEndings(line: string)
    ensures forall j | 0 < j <= |line| ::
              MatchAt(Reverse(line), |line| - j, ReversedNames).Some? <==> EndingAt(line, j).Some?
  {
    forall j | 0 < j <= |line|
      ensures MatchAt(Reverse(line), |line| - j, ReversedNames).Some? <==> EndingAt(line, j).Some?
    {
      MatchReversed(line, |line| - j);
    }
  }

  /** Part two's first value is the leftmost digit or digit name. */
  lemma FirstIsLeftmost(line: string)
    ensures var i := Leftmost(line, Names, 0);
            (i.None? <==> forall j | 0 <= j < |line| :: StartingAt(line, j).None?) &&
            (i.Some? ==> StartingAt(line, i.value).Some? &&
                         forall j | 0 <= j < i.value :: StartingAt(line, j).None?)
  {
    var i := Leftmost(line, Names, 0);
    forall j | 0 <= j < |line|
      ensures MatchAt(line, j, Names).Some? <==> StartingAt(line, j).Some?
    {
      var m := MatchAt(line, j, Names);
      if m.Some? && !IsNonZeroDigit(line[j]) {
        var k :| 0 <= k < |Names| && m.value == Names[k] && Names[k] <= line[j..];
        GetNumName(k);
      }
    }
  }

  /** Whatever matches at position i also ends somewhere on the line. */
  lemma StartAlsoEnds(line: string, i: nat)
    requires i < |line| && MatchAt(line, i, Names).Some?
    ensures exists j | 0 < j <= |line| :: EndingAt(line, j).Some?
  {
    var m := MatchAt(line, i, Names).value;
    if IsNonZeroDigit(line[i]) {
      assert EndingAt(line, i + 1).Some?;
    } else {
      var n :| 0 <= n < |Names| && m == Names[n] && Names[n] <= line[i..];
      var e := i + |m|;
      assert line[i..e] == Names[n];
      EndingNameFinds(line, e, 0, n);
      assert EndingAt(line, e).Some?;
    }
  }

  /** Position i holds the leftmost digit or digit name of the line. */
  predicate LeftmostStart(line: string, i: nat) {
    i < |line| && StartingAt(line, i).Some? &&
    forall j | 0 <= j < i :: StartingAt(line, j).None?
  }

  /** A digit or digit name ends at e, and none ends later. */
  predicate RightmostEnd(line: string, e: nat) {
    0 < e <= |line| && EndingAt(line, e).Some? &&
    forall j | e < j <= |line| :: EndingAt(line, j).None?
  }

  /** The forward search finds the leftmost digit or digit name. */
  lemma FirstValueIsLeftmost(line: string) returns (i: nat)
    requires FirstValue(line).Some?
    ensures LeftmostStart(line, i) && FirstValue(line) == StartingAt(line, i)
  {
    FirstIsLeftmost(line);
    i := Leftmost(line, Names, 0).value;
  }

  /** The backward search finds the digit or digit name ending last. */
  lemma SecondValueIsRightmost(line: string) returns (e: nat)
    requires SecondValue(line).Some?
    ensures RightmostEnd(line, e) && SecondValue(line) == EndingAt(line, e)
  {
    SecondIsRightmost(line);
    e := |line| - Leftmost(Reverse(line), ReversedNames, 0).value;
  }

  /** The forward search finds something exactly when the line holds a digit
    * or digit name, and then so does the backward search. */
  lemma SearchesAgree(line: string)
    ensures FirstValue(line).Some? <==> exists j | 0 <= j < |line| :: StartingAt(line, j).Some?
    ensures FirstValue(line).Some? ==> SecondValue(line).Some?
  {
    FirstIsLeftmost(line);
    SecondIsRightmost(line);
    var i := Leftmost(line, Names, 0);
    if i.Some? {
      StartAlsoEnds(line, i.value);
    }
  }

  /** When part two reads a line, it appends ten times the first value
    * plus the second: the leftmost digit or digit name (see
    * `FirstValueIsLeftmost`) and the one ending last (see
    * `SecondValueIsRightmost`). */
  lemma ParseLine2Combines(state: seq<int>, line: string)
    requires FirstValue(line).Some? && SecondValue(line).Some?
    ensures ParseLine2(state, line).Ok?
    ensures ParseLine2(state, line).value == state + [10 * FirstValue(line).value + SecondValue(line).value]
  {
  }

  /** Part two on a line is Ok exactly when the line holds some digit or
    * digit name. */
  lemma ParseLine2Ok(state: seq<int>, line: string)
    ensures ParseLine2(state, line).Ok? <==> exists j | 0 <= j < |line| :: StartingAt(line, j).Some?
  {
    SearchesAgree(line);
  }

  lemma EndingNameFinds(s: string, j: nat, k: nat, n: nat)
    requires j <= |s| && k <= n < |Names|
    requires |Names[n]| <= j && s[j - |Names[n]|..j] == Names[n]
    ensures EndingName(s, j, k).Some?
    decreases n - k
  {
    if k < n && !(|Names[k]| <= j && s[j - |Names[k]|..j] == Names[k]) {
      EndingNameFinds(s, j, k + 1, n);
    }
  }

  /** `perform_processing`: the sum of the calibration values. */
  function PerformProcessing(values: seq<int>): (r: int)
    ensures values == [] ==> r == 0
  {
    Sum(values)
  }

  lemma PerformProcessingAppend(values: seq<int>, v: int)
    ensures PerformProcessing(values + [v]) == PerformProcessing(values) + v
  {
    assert (values + [v])[..|values|] == values;
  }
}
