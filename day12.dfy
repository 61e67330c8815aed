// Hot springs: each line lists spring conditions ('.' operational, '#'
// damaged, '?' unknown) and the lengths of the contiguous damaged groups.
// The answer counts, per line, the ways of filling in the unknowns so that
// the damaged runs are exactly the groups. Part two first unfolds each line
// into five copies.
module Day12 {
  import opened Wrappers
  import opened Numbers
  import opened Processor

  datatype Condition = Operational | Damaged | Unknown

  /** `character_rep`. */
  function Symbol(c: Condition): char {
    match c
    case Operational => '.'
    case Damaged => '#'
    case Unknown => '?'
  }

  /** The condition a character stands for; None for any other character. */
  function ConditionOf(ch: char): (r: Option<Condition>)
    ensures r.Some? <==> ch in {'.', '#', '?'}
    ensures r.Some? ==> Symbol(r.value) == ch
  {
    if ch == '.' then Some(Operational)
    else if ch == '#' then Some(Damaged)
    else if ch == '?' then Some(Unknown)
    else None
  }

  lemma ConditionOfSymbol(c: Condition)
    ensures ConditionOf(Symbol(c)) == Some(c)
  {
  }

  datatype Line = Line(conditions: seq<Condition>, groups: seq<nat>)

  const Delimiters: set<char> := {' ', ','}

  // ---------------------------------------------------------------------
  // Parsing

  /** The conditions a word spells, None when a character is not one of
    * '.', '#', '?' (the source panics). */
  function Conditions(word: string): (r: Option<seq<Condition>>)
    ensures r.Some? <==> forall i | 0 <= i < |word| :: ConditionOf(word[i]).Some?
    ensures r.Some? ==> |r.value| == |word| && forall i | 0 <= i < |word| :: Symbol(r.value[i]) == word[i]
  {
    if word == [] then Some([])
    else
      match (ConditionOf(word[0]), Conditions(word[1..]))
      case (Some(c), Some(cs)) => Some([c] + cs)
      case _ =>
        assert forall i | 1 <= i < |word| :: word[1..][i - 1] == word[i];
        None
  }

  /** How conditions are written. */
  function ShowConditions(cs: seq<Condition>): (r: string)
    ensures |r| == |cs| && NoneIn(r, Delimiters)
  {
    if cs == [] then [] else [Symbol(cs[0])] + ShowConditions(cs[1..])
  }

  lemma {:induction false} ConditionsOfShown(cs: seq<Condition>)
    ensures Conditions(ShowConditions(cs)) == Some(cs)
  {
    if cs != [] {
      ConditionsOfShown(cs[1..]);
      ConditionOfSymbol(cs[0]);
      assert ShowConditions(cs)[1..] == ShowConditions(cs[1..]);
      assert cs == [cs[0]] + cs[1..];
    }
  }

  /** The numbers `read_next::<usize>` yields until a word is missing or
    * does not parse. */
  function Groups(chars: string): (r: seq<nat>)
    ensures forall i | 0 <= i < |r| :: r[i] <= USIZE_MAX
    decreases |chars|
  {
    match ReadNext(chars, Delimiters, ParseUsize)
    case Err(_) => []
    case Ok(t) => [t.value] + Groups(t.rest)
  }

  /** The line `parse_condition_line` reads: the first word is the
    * conditions, the numbers after it are the group lengths. */
  function LineOf(line: string): (r: Result<Line>) {
    match NextWord(line, Delimiters)
    case None => Err("No Conditions")
    case Some(w) =>
      match Conditions(w.text)
      case None => Err("Unknown condition")
      case Some(cs) => Ok(Line(cs, Groups(w.rest)))
  }

  /** `parse_condition_line`, with its `while let` loop over the groups. */
  method ParseConditionLine(line: string) returns (r: Result<Line>)
    ensures r == LineOf(line)
  {
    var word := NextWord(line, Delimiters);
    if word.None? {
      return Err("No Conditions");
    }
    var conditions := Conditions(word.value.text);
    if conditions.None? {
      return Err("Unknown condition");
    }
    var groups: seq<nat> := [];
    var chars := word.value.rest;
    var next := ReadNext(chars, Delimiters, ParseUsize);
    while next.Ok?
      invariant next == ReadNext(chars, Delimiters, ParseUsize)
      invariant groups + Groups(chars) == Groups(word.value.rest)
      decreases |chars|
    {
      groups := groups + [next.value.value];
      chars := next.value.rest;
      next := ReadNext(chars, Delimiters, ParseUsize);
    }
    assert Groups(chars) == [];
    assert groups == Groups(word.value.rest);
    assert LineOf(line) == Ok(Line(conditions.value, Groups(word.value.rest)));
    r := Ok(Line(conditions.value, groups));
  }

  /** How group lengths are written: decimal numbers. */
  function ShowGroups(groups: seq<nat>): (r: seq<string>)
    ensures |r| == |groups|
    ensures forall i | 0 <= i < |r| :: r[i] == ShowNat(groups[i])
  {
    if groups == [] then [] else [ShowNat(groups[0])] + ShowGroups(groups[1..])
  }

  /** How a line is written: the conditions, a space, the groups
    * separated by commas. */
  function ShowLine(l: Line): string {
    ShowConditions(l.conditions) + " " + Join(ShowGroups(l.groups), ",")
  }

  lemma ShowNatHasNoDelimiter(n: nat)
    ensures NoneIn(ShowNat(n), Delimiters)
  {
    var s := ShowNat(n);
    forall i | 0 <= i < |s| ensures s[i] !in Delimiters {
      assert IsDigit(s[i]);
    }
  }

  /** A written number followed by a comma reads back as that number. */
  lemma ReadShownGroup(n: nat, rest: string)
    requires n <= USIZE_MAX
    ensures ReadNext(ShowNat(n) + [','] + rest, Delimiters, ParseUsize) == Ok(Token(n, Some(','), rest))
  {
    ShowNatHasNoDelimiter(n);
    ParseUnsignedShowNat(n, USIZE_MAX);
    NextWordSplits(ShowNat(n), ',', rest, Delimiters);
  }

  /** A written number on its own reads back as that number. */
  lemma ReadLastShownGroup(n: nat)
    requires n <= USIZE_MAX
    ensures ReadNext(ShowNat(n), Delimiters, ParseUsize) == Ok(Token(n, None, []))
  {
    ShowNatHasNoDelimiter(n);
    ParseUnsignedShowNat(n, USIZE_MAX);
    NextWordWhole(ShowNat(n), Delimiters);
  }

  lemma GroupOfShown(n: nat)
    requires n <= USIZE_MAX
    ensures Groups(ShowNat(n)) == [n]
  {
    ReadLastShownGroup(n);
    assert Groups([]) == [] by {
      assert NextWord([], Delimiters).None?;
    }
  }

  /** Reading the groups back from their comma-separated form. */
  lemma {:induction false} GroupsOfShown(groups: seq<nat>)
    requires forall i | 0 <= i < |groups| :: groups[i] <= USIZE_MAX
    ensures Groups(Join(ShowGroups(groups), ",")) == groups
  {
    if |groups| == 1 {
      GroupOfShown(groups[0]);
      assert Join(ShowGroups(groups), ",") == ShowNat(groups[0]);
    } else if |groups| > 1 {
      var tail := Join(ShowGroups(groups[1..]), ",");
      ShownGroupsSplit(groups);
      ReadShownGroup(groups[0], tail);
      assert Groups(Join(ShowGroups(groups), ",")) == [groups[0]] + Groups(tail);
      GroupsOfShown(groups[1..]);
      assert groups == [groups[0]] + groups[1..];
    }
  }

  /** The first group's text, a comma, then the others'. */
  lemma ShownGroupsSplit(groups: seq<nat>)
    requires |groups| > 1
    ensures Join(ShowGroups(groups), ",") ==
            ShowNat(groups[0]) + [','] + Join(ShowGroups(groups[1..]), ",")
  {
    assert ShowGroups(groups)[1..] == ShowGroups(groups[1..]);
  }

  /** Parsing a written line gives the line back. */
  lemma LineOfShown(l: Line)
    requires |l.conditions| > 0
    requires forall i | 0 <= i < |l.groups| :: l.groups[i] <= USIZE_MAX
    ensures LineOf(ShowLine(l)) == Ok(l)
  {
    var text := ShowConditions(l.conditions);
    var rest := Join(ShowGroups(l.groups), ",");
    assert ShowLine(l) == text + [' '] + rest;
    NextWordSplits(text, ' ', rest, Delimiters);
    ConditionsOfShown(l.conditions);
    GroupsOfShown(l.groups);
  }

  /** `parse_line`: the line is appended to the lines read so far. */
  function ParseLine(state: seq<Line>, line: string): (r: Result<seq<Line>>)
    ensures r.Ok? <==> LineOf(line).Ok?
    ensures r.Ok? ==> r.value == state + [LineOf(line).value]
  {
    var l :- LineOf(line);
    Ok(state + [l])
  }

  // ---------------------------------------------------------------------
  // Unfolding (part two)

  function Repeat<T>(s: seq<T>, n: nat): (r: seq<T>)
    ensures |r| == |s| * n
  {
    if n == 0 then [] else s + Repeat(s, n - 1)
  }

  lemma RepeatFive<T>(s: seq<T>)
    ensures Repeat(s, 5) == s + s + s + s + s
  {
    assert Repeat(s, 1) == s + [];
    assert Repeat(s, 2) == s + s;
    assert Repeat(s, 3) == s + s + s;
    assert Repeat(s, 4) == s + s + s + s;
  }

  /** `expand_line`: five copies of the conditions joined by an Unknown,
    * and five copies of the groups. */
  function ExpandLine(l: Line): (r: Line)
    ensures var c := l.conditions;
            r.conditions == c + [Unknown] + c + [Unknown] + c + [Unknown] + c + [Unknown] + c
    ensures r.groups == l.groups + l.groups + l.groups + l.groups + l.groups
  {
    var c := l.conditions + [Unknown];
    var repeated := Repeat(c, 5);
    RepeatFive(c);
    RepeatFive(l.groups);
    Line(repeated[..|repeated| - 1], Repeat(l.groups, 5))
  }

  /** `finalise_state_2`: every line unfolded. */
  function FinaliseState2(lines: seq<Line>): (r: seq<Line>)
    ensures |r| == |lines| && forall i | 0 <= i < |r| :: r[i] == ExpandLine(lines[i])
  {
    seq(|lines|, i requires 0 <= i < |lines| => ExpandLine(lines[i]))
  }

  // ---------------------------------------------------------------------
  // Damaged runs

  /** A run that is still open, once closed. */
  function Open(n: nat): seq<nat> {
    if n > 0 then [n] else []
  }

  predicate Positive(g: seq<nat>) {
    forall i | 0 <= i < |g| :: g[i] > 0
  }

  /** The left-to-right scan of `is_possible_arrangement`: the runs closed
    * so far and the length of the damaged run still open. */
  function Scan(s: seq<Condition>): (r: (seq<nat>, nat))
    ensures Positive(r.0)
  {
    if s == [] then ([], 0)
    else
      var front := Scan(s[..|s| - 1]);
      if s[|s| - 1] == Damaged then (front.0, front.1 + 1) else (front.0 + Open(front.1), 0)
  }

  /** The lengths of the maximal runs of Damaged, left to right. */
  function Runs(s: seq<Condition>): (r: seq<nat>)
    ensures Positive(r)
  {
    Scan(s).0 + Open(Scan(s).1)
  }

  /** The number of leading conditions that are not Unknown. */
  function KnownPrefix(s: seq<Condition>): (r: nat)
    ensures r <= |s| && (r < |s| ==> s[r] == Unknown)
    ensures forall i | 0 <= i < r :: s[i] != Unknown
  {
    if s == [] || s[0] == Unknown then 0 else 1 + KnownPrefix(s[1..])
  }

  predicate Known(s: seq<Condition>) {
    forall i | 0 <= i < |s| :: s[i] != Unknown
  }

  /** The runs before the first Unknown. */
  function KnownRuns(s: seq<Condition>): seq<nat> {
    Runs(s[..KnownPrefix(s)])
  }

  /** The check of `is_possible_arrangement` on measured runs: no more runs
    * than groups (exactly as many in the final check), each run its
    * group's length, except that outside the final check the last run
    * may still grow. */
  predicate Possible(runs: seq<nat>, groups: seq<nat>, final: bool) {
    |runs| <= |groups| && (!final || |runs| == |groups|) &&
    forall i | 0 <= i < |runs| :: if !final && i == |runs| - 1 then runs[i] <= groups[i] else runs[i] == groups[i]
  }

  /** `is_possible_arrangement`: the counting loop, proved to measure the
    * runs before the first Unknown. */
  method IsPossibleArrangement(toArrange: seq<Condition>, groups: seq<nat>, final: bool) returns (r: bool)
    ensures r == Possible(KnownRuns(toArrange), groups, final)
  {
    var lengths: seq<nat> := [];
    var current := 0;
    var i := 0;
    while i < |toArrange|
      invariant i <= KnownPrefix(toArrange)
      invariant (lengths, current) == Scan(toArrange[..i])
      decreases |toArrange| - i
    {
      assert toArrange[..i + 1][..i] == toArrange[..i];
      assert lengths + Open(0) == lengths && lengths + Open(current) == if current > 0 then lengths + [current] else lengths;
      if toArrange[i] == Unknown {
        break;
      } else if toArrange[i] == Damaged {
        current := current + 1;
      } else {
        if current > 0 {
          lengths := lengths + [current];
        }
        current := 0;
      }
      i := i + 1;
    }
    if current > 0 {
      lengths := lengths + [current];
    }
    r := Possible(lengths, groups, final);
  }

  /** The final check passes exactly when the runs are the groups. */
  lemma PossibleFinal(runs: seq<nat>, groups: seq<nat>)
    ensures Possible(runs, groups, true) <==> runs == groups
  {
  }

  /** The lenient check is a preorder: runs pass against themselves ... */
  lemma PossibleSelf(runs: seq<nat>)
    ensures Possible(runs, runs, false)
  {
  }

  /** ... and it is transitive. */
  lemma PossibleTransitive(a: seq<nat>, b: seq<nat>, c: seq<nat>)
    requires Possible(a, b, false) && Possible(b, c, false)
    ensures Possible(a, c, false)
  {
    forall i | 0 <= i < |a|
      ensures if i == |a| - 1 then a[i] <= c[i] else a[i] == c[i]
    {
      assert i < |b|;
      if i < |b| - 1 {
        assert b[i] == c[i];
      }
    }
  }

  /** One more condition only extends the last run or adds runs. */
  lemma RunsGrowByOne(p: seq<Condition>, x: Condition)
    ensures Possible(Runs(p), Runs(p + [x]), false)
  {
    assert (p + [x])[..|p|] == p;
    var (closed, open) := Scan(p);
    if x != Damaged {
      PossibleSelf(Runs(p));
    }
  }

  /** Reading further only extends the last run or adds runs: the runs
    * measured so far pass the lenient check against any later ones. */
  lemma {:induction false} RunsGrow(p: seq<Condition>, w: seq<Condition>)
    ensures Possible(Runs(p), Runs(p + w), false)
    decreases |w|
  {
    if w == [] {
      assert p + w == p;
      PossibleSelf(Runs(p));
    } else {
      var w' := w[..|w| - 1];
      RunsGrow(p, w');
      RunsGrowByOne(p + w', w[|w| - 1]);
      assert p + w' + [w[|w| - 1]] == p + w;
      PossibleTransitive(Runs(p), Runs(p + w'), Runs(p + w));
    }
  }

  /** A prefix ending with every run closed contributes its runs unchanged. */
  lemma {:induction false} ScanAppend(p: seq<Condition>, c: seq<Condition>)
    requires Scan(p).1 == 0
    ensures Scan(p + c) == (Scan(p).0 + Scan(c).0, Scan(c).1)
    decreases |c|
  {
    if c == [] {
      assert p + c == p;
      assert Scan(c).0 == [] && Scan(c).1 == 0;
      assert Scan(p).0 + Scan(c).0 == Scan(p).0;
    } else {
      var c' := c[..|c| - 1];
      ScanAppend(p, c');
      assert (p + c)[..|p + c| - 1] == p + c';
      assert (p + c)[|p + c| - 1] == c[|c| - 1];
      assert Scan(p).0 + Scan(c').0 + Open(Scan(c').1) == Scan(p).0 + (Scan(c').0 + Open(Scan(c').1));
    }
  }

  /** ... so its runs come first. */
  lemma RunsAfterPrefix(p: seq<Condition>, c: seq<Condition>)
    requires Scan(p).1 == 0
    ensures Runs(p + c) == Scan(p).0 + Runs(c)
  {
    ScanAppend(p, c);
  }

  lemma AppendCancel<T>(a: seq<T>, x: seq<T>, y: seq<T>)
    ensures a + x == a + y <==> x == y
  {
    if a + x == a + y {
      assert (a + x)[|a|..] == x && (a + y)[|a|..] == y;
    }
  }

  /** A run of n Damaged is one open run of length n. */
  lemma {:induction false} ScanDamaged(q: seq<Condition>)
    requires forall i | 0 <= i < |q| :: q[i] == Damaged
    ensures Scan(q) == ([], |q|)
  {
    if q == [] {
      assert Scan(q).0 == [] && Scan(q).1 == 0;
    } else {
      ScanDamaged(q[..|q| - 1]);
    }
  }

  lemma {:induction false} ScanOperational(q: seq<Condition>)
    requires forall i | 0 <= i < |q| :: q[i] == Operational
    ensures Scan(q) == ([], 0)
  {
    if q == [] {
      assert Scan(q).0 == [] && Scan(q).1 == 0;
    } else {
      ScanOperational(q[..|q| - 1]);
      assert q[|q| - 1] == Operational;
      assert Scan(q).0 == [] && Scan(q).1 == 0;
    }
  }

  // ---------------------------------------------------------------------
  // Counting the arrangements

  function Unknowns(s: seq<Condition>): nat {
    multiset(s)[Unknown]
  }

  /** A suffix has no more Unknowns than the whole. */
  lemma SuffixUnknowns(s: seq<Condition>, k: nat)
    requires k <= |s|
    ensures Unknowns(s[k..]) <= Unknowns(s)
  {
    assert s == s[..k] + s[k..];
  }

  /** Fixing an Unknown leaves one fewer. */
  lemma FixUnknown(s: seq<Condition>, u: nat, x: Condition)
    requires u < |s| && s[u] == Unknown && x != Unknown
    ensures Unknowns(s[u := x]) < Unknowns(s)
  {
  }

  /** The reference count: every way of fixing the Unknowns, one at a time
    * from the left, whose damaged runs are exactly the groups. */
  function Count(s: seq<Condition>, groups: seq<nat>): nat
    decreases Unknowns(s)
  {
    var u := KnownPrefix(s);
    if u == |s| then (if Runs(s) == groups then 1 else 0)
    else
      FixUnknown(s, u, Damaged);
      FixUnknown(s, u, Operational);
      Count(s[u := Damaged], groups) + Count(s[u := Operational], groups)
  }

  /** `skip_while(Operational)`. */
  function SkipOperational(s: seq<Condition>): (r: seq<Condition>)
    ensures |r| <= |s| && r == s[|s| - |r|..]
    ensures r == [] || r[0] != Operational
    ensures forall i | 0 <= i < |s| - |r| :: s[i] == Operational
  {
    if s != [] && s[0] == Operational then SkipOperational(s[1..]) else s
  }

  /** `take_while(Damaged)`: the length of the leading damaged run. */
  function DamagedPrefix(s: seq<Condition>): (r: nat)
    ensures r <= |s| && (r < |s| ==> s[r] != Damaged)
    ensures forall i | 0 <= i < r :: s[i] == Damaged
  {
    if s != [] && s[0] == Damaged then 1 + DamagedPrefix(s[1..]) else 0
  }

  /** Consuming the first group: when the conditions start with exactly
    * that many Damaged followed by an Operational, both go (with the
    * Operationals after them); otherwise nothing changes. */
  function Consume(t: seq<Condition>, groups: seq<nat>): (r: (seq<Condition>, seq<nat>))
    ensures |r.0| <= |t| && r.0 == t[|t| - |r.0|..]
    ensures r.1 == groups || (groups != [] && r.1 == groups[1..])
  {
    if groups == [] then (t, groups)
    else
      var k := DamagedPrefix(t);
      if 0 < k == groups[0] && k < |t| && t[k] == Operational then (SkipOperational(t[k..]), groups[1..])
      else (t, groups)
  }

  /** `calculate_arrangements` without its memo: give up when the runs
    * before the first Unknown already fail the lenient check, drop
    * leading Operationals and consume the first group when it is
    * complete, then branch. */
  function Arrangements(s: seq<Condition>, groups: seq<nat>): nat
    decreases Unknowns(s), 1
  {
    if !Possible(KnownRuns(s), groups, false) then 0
    else
      var c := Settle(s, groups);
      Branch(c.0, c.1)
  }

  /** Leading Operationals dropped, then a complete first group consumed. */
  function Settle(s: seq<Condition>, groups: seq<nat>): (r: (seq<Condition>, seq<nat>))
    ensures Unknowns(r.0) <= Unknowns(s)
    ensures r.1 == groups || (groups != [] && r.1 == groups[1..])
  {
    var t := SkipOperational(s);
    SuffixUnknowns(s, |s| - |t|);
    SuffixUnknowns(t, |t| - |Consume(t, groups).0|);
    Consume(t, groups)
  }

  /** Try the first Unknown as Damaged and as Operational; without one,
    * apply the final check. */
  function Branch(t: seq<Condition>, groups: seq<nat>): nat
    decreases Unknowns(t), 0
  {
    var u := KnownPrefix(t);
    if u < |t| then
      FixUnknown(t, u, Damaged);
      FixUnknown(t, u, Operational);
      Arrangements(t[u := Damaged], groups) + Arrangements(t[u := Operational], groups)
    else if Possible(KnownRuns(t), groups, true) then 1 else 0
  }

  /** Known conditions in front shift the first Unknown. */
  lemma KnownPrefixAppend(p: seq<Condition>, s: seq<Condition>)
    requires Known(p)
    ensures KnownPrefix(p + s) == |p| + KnownPrefix(s)
  {
    var u := KnownPrefix(s);
    var v := KnownPrefix(p + s);
    assert forall i | 0 <= i < u :: (p + s)[|p| + i] == s[i];
    if |p| + u < |p + s| {
      assert (p + s)[|p| + u] == s[u];
    }
  }

  /** A known prefix whose runs are all closed matches the same groups
    * in front, whatever follows. */
  lemma {:induction false} CountAfterPrefix(p: seq<Condition>, s: seq<Condition>, groups: seq<nat>)
    requires Known(p) && Scan(p).1 == 0
    ensures Count(p + s, Scan(p).0 + groups) == Count(s, groups)
    decreases Unknowns(s)
  {
    var u := KnownPrefix(s);
    KnownPrefixAppend(p, s);
    if u == |s| {
      RunsAfterPrefix(p, s);
      AppendCancel(Scan(p).0, Runs(s), groups);
    } else {
      FixUnknown(s, u, Damaged);
      FixUnknown(s, u, Operational);
      CountSplitAfterPrefix(p, s, Scan(p).0 + groups);
      CountSplit(s, groups, u);
      CountAfterPrefix(p, s[u := Damaged], groups);
      CountAfterPrefix(p, s[u := Operational], groups);
    }
  }

  /** Behind a known prefix, the first Unknown of `p + s` is the first
    * Unknown of `s`. */
  lemma CountSplitAfterPrefix(p: seq<Condition>, s: seq<Condition>, h: seq<nat>)
    requires Known(p) && KnownPrefix(s) < |s|
    ensures var u := KnownPrefix(s);
            Count(p + s, h) == Count(p + s[u := Damaged], h) + Count(p + s[u := Operational], h)
  {
    var u := KnownPrefix(s);
    var t := p + s;
    KnownPrefixAppend(p, s);
    CountSplit(t, h, |p| + u);
    UpdateAfterPrefix(p, s, u, Damaged);
    UpdateAfterPrefix(p, s, u, Operational);
  }

  lemma UpdateAfterPrefix(p: seq<Condition>, s: seq<Condition>, u: nat, x: Condition)
    requires u < |s|
    ensures (p + s)[|p| + u := x] == p + s[u := x]
  {
  }

  /** `Count` branches on the first Unknown. */
  lemma CountSplit(t: seq<Condition>, h: seq<nat>, u: nat)
    requires u == KnownPrefix(t) < |t|
    ensures Count(t, h) == Count(t[u := Damaged], h) + Count(t[u := Operational], h)
  {
  }

  /** Leading Operationals do not change the count. */
  lemma SkipKeepsCount(s: seq<Condition>, groups: seq<nat>)
    ensures Count(SkipOperational(s), groups) == Count(s, groups)
  {
    var t := SkipOperational(s);
    var p := s[..|s| - |t|];
    ScanOperational(p);
    assert s == p + t;
    CountAfterPrefix(p, t, groups);
    assert [] + groups == groups;
  }

  /** A run of `k` Damaged closed by an Operational scans as that one run. */
  lemma ScanClosedRun(t: seq<Condition>, k: nat)
    requires 0 < k < |t| && t[k] == Operational
    requires forall i | 0 <= i < k :: t[i] == Damaged
    ensures Scan(t[..k + 1]).0 == [k] && Scan(t[..k + 1]).1 == 0
  {
    var p := t[..k + 1];
    ScanDamaged(t[..k]);
    assert p[..|p| - 1] == t[..k] && p[|p| - 1] == Operational;
    assert Open(k) == [k];
  }

  /** Consuming a complete first group does not change the count. */
  lemma ConsumeKeepsCount(t: seq<Condition>, groups: seq<nat>)
    ensures Count(Consume(t, groups).0, Consume(t, groups).1) == Count(t, groups)
  {
    if groups != [] {
      var k := DamagedPrefix(t);
      if 0 < k == groups[0] && k < |t| && t[k] == Operational {
        assert t[k..][1..] == t[k + 1..];
        assert groups == [k] + groups[1..];
        ClosedRunKeepsCount(t, k, groups[1..]);
      }
    }
  }

  /** A closed run of `k` Damaged in front matches a first group `k`. */
  lemma ClosedRunKeepsCount(t: seq<Condition>, k: nat, g: seq<nat>)
    requires 0 < k < |t| && t[k] == Operational
    requires forall i | 0 <= i < k :: t[i] == Damaged
    ensures Count(SkipOperational(t[k + 1..]), g) == Count(t, [k] + g)
  {
    var p, rest := t[..k + 1], t[k + 1..];
    ScanClosedRun(t, k);
    assert Known(p);
    assert t == p + rest;
    CountAfterPrefix(p, rest, g);
    SkipKeepsCount(rest, g);
  }

  /** Dropping leading Operationals and consuming a complete first group
    * keep the count. */
  lemma SettleKeepsCount(s: seq<Condition>, groups: seq<nat>)
    ensures Count(Settle(s, groups).0, Settle(s, groups).1) == Count(s, groups)
  {
    SkipKeepsCount(s, groups);
    ConsumeKeepsCount(SkipOperational(s), groups);
  }

  /** Fixing the first Unknown only extends the runs before it. */
  lemma KnownRunsGrow(s: seq<Condition>, x: Condition)
    requires KnownPrefix(s) < |s| && x != Unknown
    ensures Possible(KnownRuns(s), KnownRuns(s[KnownPrefix(s) := x]), false)
  {
    var u := KnownPrefix(s);
    var s' := s[u := x];
    var v := KnownPrefix(s');
    assert v > u by {
      assert forall i | 0 <= i <= u :: s'[i] != Unknown;
    }
    assert s'[..v] == s[..u] + s'[u..v];
    RunsGrow(s[..u], s'[u..v]);
  }

  /** Pruning is sound: a line with some arrangement passes the lenient
    * check on the runs before its first Unknown. */
  lemma {:induction false} PruneSound(s: seq<Condition>, groups: seq<nat>)
    requires Count(s, groups) > 0
    ensures Possible(KnownRuns(s), groups, false)
    decreases Unknowns(s)
  {
    var u := KnownPrefix(s);
    if u == |s| {
      assert s[..u] == s;
      PossibleSelf(groups);
    } else {
      FixUnknown(s, u, Damaged);
      FixUnknown(s, u, Operational);
      var x := if Count(s[u := Damaged], groups) > 0 then Damaged else Operational;
      PruneSound(s[u := x], groups);
      KnownRunsGrow(s, x);
      PossibleTransitive(KnownRuns(s), KnownRuns(s[u := x]), groups);
    }
  }

  /** The search counts exactly the arrangements. */
  lemma {:induction false} ArrangementsCount(s: seq<Condition>, groups: seq<nat>)
    ensures Arrangements(s, groups) == Count(s, groups)
    decreases Unknowns(s), 2
  {
    if !Possible(KnownRuns(s), groups, false) {
      ArrangementsPruned(s, groups);
    } else {
      ArrangementsSettled(s, groups);
    }
  }

  /** When the search gives up, there is no arrangement. */
  lemma ArrangementsPruned(s: seq<Condition>, groups: seq<nat>)
    requires !Possible(KnownRuns(s), groups, false)
    ensures Arrangements(s, groups) == 0 && Count(s, groups) == 0
  {
    if Count(s, groups) > 0 {
      PruneSound(s, groups);
    }
  }

  lemma {:induction false} ArrangementsSettled(s: seq<Condition>, groups: seq<nat>)
    requires Possible(KnownRuns(s), groups, false)
    ensures Arrangements(s, groups) == Count(s, groups)
    decreases Unknowns(s), 1
  {
    var c := Settle(s, groups);
    SettleKeepsCount(s, groups);
    BranchCount(c.0, c.1);
  }

  lemma {:induction false} BranchCount(t: seq<Condition>, groups: seq<nat>)
    ensures Branch(t, groups) == Count(t, groups)
    decreases Unknowns(t), 0
  {
    var u := KnownPrefix(t);
    if u < |t| {
      FixUnknown(t, u, Damaged);
      FixUnknown(t, u, Operational);
      ArrangementsCount(t[u := Damaged], groups);
      ArrangementsCount(t[u := Operational], groups);
    } else {
      assert t[..u] == t;
      PossibleFinal(Runs(t), groups);
    }
  }

  // ---------------------------------------------------------------------
  // The memoised search

  /** The memo key: the conditions still to arrange and how many groups
    * remain. The number alone identifies the groups because they are
    * always a suffix of the line's groups. */
  datatype Key = Key(toArrange: seq<Condition>, groupsToMatch: nat)

  /** The memo shared by one line's search. */
  class Memo {
    var entries: map<Key, nat>

    constructor()
      ensures entries == map[]
    {
      entries := map[];
    }

    ghost predicate Sound(all: seq<nat>)
      reads this
    {
      Holds(entries, all, Arrangements)
    }
  }

  /** Every stored count is `count` of its key's conditions and the last
    * `groupsToMatch` of the groups `all`. */
  ghost predicate Holds(entries: map<Key, nat>, all: seq<nat>, count: (seq<Condition>, seq<nat>) -> nat) {
    forall k | k in entries :: k.groupsToMatch <= |all| &&
      entries[k] == count(k.toArrange, all[|all| - k.groupsToMatch..])
  }

  /** Storing a computed count keeps the memo sound. */
  lemma HoldsInsert(entries: map<Key, nat>, all: seq<nat>, count: (seq<Condition>, seq<nat>) -> nat,
                    s: seq<Condition>, groups: seq<nat>, n: nat)
    requires Holds(entries, all, count) && |groups| <= |all| && groups == all[|all| - |groups|..]
    requires n == count(s, groups)
    ensures Holds(entries[Key(s, |groups|) := n], all, count)
  {
  }

  /** A stored count is the count for the key's conditions and groups. */
  lemma HoldsLookup(entries: map<Key, nat>, all: seq<nat>, count: (seq<Condition>, seq<nat>) -> nat,
                    s: seq<Condition>, groups: seq<nat>)
    requires Holds(entries, all, count) && |groups| <= |all| && groups == all[|all| - |groups|..]
    requires Key(s, |groups|) in entries
    ensures entries[Key(s, |groups|)] == count(s, groups)
  {
  }

  /** Dropping the first of the remaining groups leaves a suffix. */
  lemma SuffixTail(all: seq<nat>, groups: seq<nat>)
    requires |groups| <= |all| && groups == all[|all| - |groups|..] && groups != []
    ensures groups[1..] == all[|all| - |groups[1..]|..]
  {
  }

  /** One step of the search, as the memoised method takes it: after
    * settling, the count is the sum over both choices for the first
    * Unknown, or the final check when none is left. */
  lemma ArrangementsStep(s: seq<Condition>, groups: seq<nat>, rest: seq<Condition>, restGroups: seq<nat>)
    requires Possible(KnownRuns(s), groups, false)
    requires (rest, restGroups) == Settle(s, groups)
    ensures KnownPrefix(rest) < |rest| ==>
              Arrangements(s, groups) ==
                Arrangements(rest[KnownPrefix(rest) := Damaged], restGroups) +
                Arrangements(rest[KnownPrefix(rest) := Operational], restGroups)
    ensures KnownPrefix(rest) == |rest| ==>
              Arrangements(s, groups) == if Possible(KnownRuns(rest), restGroups, true) then 1 else 0
  {
    assert Arrangements(s, groups) == Branch(rest, restGroups);
  }

  /** `calculate_arrangements`: a memo hit returns the stored count (and
    * says so); otherwise the search of `Arrangements`, storing the count
    * of each branch it computed itself. */
  method CalculateArrangements(toArrange: seq<Condition>, groups: seq<nat>, memo: Memo, ghost all: seq<nat>)
    returns (wasCached: bool, n: nat)
    requires memo.Sound(all) && |groups| <= |all| && groups == all[|all| - |groups|..]
    modifies memo
    ensures memo.Sound(all)
    ensures n == Arrangements(toArrange, groups)
    ensures wasCached ==> Key(toArrange, |groups|) in old(memo.entries)
    decreases Unknowns(toArrange)
  {
    var key := Key(toArrange, |groups|);
    if key in memo.entries {
      HoldsLookup(memo.entries, all, Arrangements, toArrange, groups);
      return true, memo.entries[key];
    }
    var possible := IsPossibleArrangement(toArrange, groups, false);
    if !possible {
      ArrangementsPruned(toArrange, groups);
      return false, 0;
    }
    var settled := Settle(toArrange, groups);
    var rest := settled.0;
    var restGroups := settled.1;
    if restGroups != groups {
      SuffixTail(all, groups);
    }
    ArrangementsStep(toArrange, groups, rest, restGroups);
    var u := KnownPrefix(rest);
    if u < |rest| {
      FixUnknown(rest, u, Damaged);
      FixUnknown(rest, u, Operational);
      var damaged := rest[u := Damaged];
      var operational := rest[u := Operational];
      ghost var whole := Arrangements(toArrange, groups);
      assert whole == Arrangements(damaged, restGroups) + Arrangements(operational, restGroups);
      var cached1, n1 := CalculateArrangements(damaged, restGroups, memo, all);
      if !cached1 {
        HoldsInsert(memo.entries, all, Arrangements, damaged, restGroups, n1);
        memo.entries := memo.entries[Key(damaged, |restGroups|) := n1];
      }
      var cached2, n2 := CalculateArrangements(operational, restGroups, memo, all);
      if !cached2 {
        HoldsInsert(memo.entries, all, Arrangements, operational, restGroups, n2);
        memo.entries := memo.entries[Key(operational, |restGroups|) := n2];
      }
      wasCached, n := false, n1 + n2;
      assert n == whole;
    } else {
      var ok := IsPossibleArrangement(rest, restGroups, true);
      wasCached, n := false, if ok then 1 else 0;
    }
  }

  /** `calculate_possible_arrangements`: a fresh memo per line; the result
    * is the number of arrangements. */
  method CalculatePossibleArrangements(line: Line) returns (n: nat)
    ensures n == Count(line.conditions, line.groups)
  {
    var memo := new Memo();
    assert line.groups[|line.groups| - |line.groups|..] == line.groups;
    var _, result := CalculateArrangements(line.conditions, line.groups, memo, line.groups);
    ArrangementsCount(line.conditions, line.groups);
    n := result;
  }

  /** `perform_processing`: the count of each line, in order (both parts). */
  method PerformProcessing(lines: seq<Line>) returns (r: seq<nat>)
    ensures |r| == |lines|
    ensures forall i | 0 <= i < |r| :: r[i] == Count(lines[i].conditions, lines[i].groups)
  {
    r := [];
    for i := 0 to |lines|
      invariant |r| == i
      invariant forall j | 0 <= j < i :: r[j] == Count(lines[j].conditions, lines[j].groups)
    {
      var n := CalculatePossibleArrangements(lines[i]);
      r := r + [n];
    }
  }

  /** `calc_result` and `calc_result_2`: the sum of the counts. */
  function CalcResult(counts: seq<nat>): int {
    Sum(counts)
  }
}
