// Hot springs, counted by position: the same lines and the same unfolding
// as day 12, but the search walks one index through the conditions and one
// through the groups, and memoises on that pair of indices.
module Day12b {
  import opened Wrappers
  import opened Numbers
  import opened Day12

  // ---------------------------------------------------------------------
  // Scanning helpers

  predicate NoDamaged(t: seq<Condition>) {
    forall i | 0 <= i < |t| :: t[i] != Damaged
  }

  predicate NoOperational(t: seq<Condition>) {
    forall i | 0 <= i < |t| :: t[i] != Operational
  }

  /** The first index from `i` on that is not Operational, or the end. */
  function SkipOperationalFrom(s: seq<Condition>, i: nat): (r: nat)
    requires i <= |s|
    ensures i <= r <= |s| && (r < |s| ==> s[r] != Operational)
    ensures forall j | i <= j < r :: s[j] == Operational
    decreases |s| - i
  {
    if i < |s| && s[i] == Operational then SkipOperationalFrom(s, i + 1) else i
  }

  /** The first index from `i` on that is Operational, or the end. */
  function SkipNonOperationalFrom(s: seq<Condition>, i: nat): (r: nat)
    requires i <= |s|
    ensures i <= r <= |s| && (r < |s| ==> s[r] == Operational)
    ensures forall j | i <= j < r :: s[j] != Operational
    decreases |s| - i
  {
    if i < |s| && s[i] != Operational then SkipNonOperationalFrom(s, i + 1) else i
  }

  /** The sum of group lengths splits off its first element. */
  lemma SumFront(h: seq<nat>)
    requires h != []
    ensures Sum(h) == h[0] + Sum(h[1..])
  {
    assert h == [h[0]] + h[1..];
    SumAppend([h[0]], h[1..]);
    assert [h[0]][..0] == [];
  }

  lemma {:induction false} SumNonNegative(h: seq<nat>)
    ensures Sum(h) >= 0
  {
    if h != [] {
      SumNonNegative(h[..|h| - 1]);
    }
  }

  /** Past the space check, and unless the last group exactly fills what
    * is left, the first group leaves room for at least one more cell. */
  lemma SpaceFits(g: seq<nat>, gi: nat, remaining: nat)
    requires gi < |g|
    requires remaining >= Sum(g[gi..]) + (|g| - gi) - 1
    requires !(gi == |g| - 1 && remaining == g[gi])
    ensures g[gi] < remaining
  {
    var h := g[gi..];
    SumFront(h);
    SumNonNegative(h[1..]);
    if |h| == 1 {
      assert h[1..] == [];
    }
  }

  // ---------------------------------------------------------------------
  // `calculate_arrangements_from`, as written

  /** The count `calculate_arrangements_from` returns for the conditions
    * from index `a` and the groups from index `gi`: past the end, 1 when
    * the groups are used up; with no group left, 1 when no Damaged
    * remains; otherwise the search after skipping Operationals. */
  function ArrangementsFrom(s: seq<Condition>, a: nat, g: seq<nat>, gi: nat): nat
    decreases |s| - a, 1
  {
    if a >= |s| then (if gi >= |g| then 1 else 0)
    else if gi >= |g| then (if NoDamaged(s[a..]) then 1 else 0)
    else
      var b := SkipOperationalFrom(s, a);
      if b >= |s| then 0 else ArrangementsAt(s, b, g, gi)
  }

  /** The search once the index is at a condition that is not Operational
    * and some group is left: the last-group shortcut, the space check,
    * the jump over a window that holds an Operational, the check after
    * the last group, then the group put here plus the group moved on by
    * one. */
  function ArrangementsAt(s: seq<Condition>, b: nat, g: seq<nat>, gi: nat): nat
    requires b < |s| && s[b] != Operational && gi < |g|
    decreases |s| - b, 0
  {
    var k := g[gi];
    var remaining := |s| - b;
    var remainingGroups := |g| - gi;
    if gi == |g| - 1 && remaining == k then 1
    else if remaining < Sum(g[gi..]) + remainingGroups - 1 then 0
    else
      SpaceFits(g, gi, remaining);
      if !NoOperational(s[b..b + k]) then
        var next := SkipOperationalFrom(s, SkipNonOperationalFrom(s, b));
        if next > b then ArrangementsFrom(s, next, g, gi) else 0
      else if remainingGroups == 1 && !NoDamaged(s[b + k..]) then 0
      else
        var after := b + k;
        var placed :=
          if s[after] == Operational then ArrangementsFrom(s, SkipOperationalFrom(s, after), g, gi + 1)
          else if s[after] == Unknown then ArrangementsFrom(s, after + 1, g, gi + 1)
          else 0;
        var shifted := if s[b] == Unknown && s[after] != Operational then ArrangementsFrom(s, b + 1, g, gi) else 0;
        placed + shifted
  }

  // ---------------------------------------------------------------------
  // The memo and the memoised search

  datatype ResultKey = ResultKey(arrangeFrom: nat, groupFrom: nat)

  /** Every stored count is the count of its pair of indices. */
  ghost predicate Correct(entries: map<ResultKey, nat>, s: seq<Condition>, g: seq<nat>) {
    forall key | key in entries :: entries[key] == ArrangementsFrom(s, key.arrangeFrom, g, key.groupFrom)
  }

  lemma CorrectInsert(entries: map<ResultKey, nat>, s: seq<Condition>, g: seq<nat>, key: ResultKey, n: nat)
    requires Correct(entries, s, g) && n == ArrangementsFrom(s, key.arrangeFrom, g, key.groupFrom)
    ensures Correct(entries[key := n], s, g)
  {
  }

  /** The `HashMap<ResultKey, usize>` threaded through the search. */
  class ResultMemo {
    var entries: map<ResultKey, nat>

    constructor()
      ensures entries == map[]
    {
      entries := map[];
    }

    ghost predicate Sound(s: seq<Condition>, g: seq<nat>)
      reads this
    {
      Correct(entries, s, g)
    }
  }

  /** `calculate_arrangements_from`: the loops and the recursion, proved to
    * return the count above and to store only correct counts. */
  method CalculateArrangementsFrom(toArrange: seq<Condition>, arrangeFrom: nat, groups: seq<nat>, groupFrom: nat,
                                   memo: ResultMemo)
    returns (wasMemoized: bool, n: nat)
    requires memo.Sound(toArrange, groups)
    modifies memo
    ensures memo.Sound(toArrange, groups)
    ensures n == ArrangementsFrom(toArrange, arrangeFrom, groups, groupFrom)
    decreases |toArrange| - arrangeFrom, 3
  {
    var key := ResultKey(arrangeFrom, groupFrom);
    if key in memo.entries {
      return true, memo.entries[key];
    }
    if arrangeFrom >= |toArrange| {
      return false, if groupFrom >= |groups| then 1 else 0;
    }
    if groupFrom >= |groups| {
      return false, if NoDamaged(toArrange[arrangeFrom..]) then 1 else 0;
    }
    var from := arrangeFrom;
    while from < |toArrange| && toArrange[from] == Operational
      invariant arrangeFrom <= from <= |toArrange|
      invariant SkipOperationalFrom(toArrange, from) == SkipOperationalFrom(toArrange, arrangeFrom)
    {
      from := from + 1;
    }
    if from >= |toArrange| {
      return false, 0;
    }
    wasMemoized, n := SearchAt(toArrange, from, groups, groupFrom, memo);
  }

  /** The rest of `calculate_arrangements_from`, once the leading
    * Operationals are skipped: its checks, then the two options. */
  method SearchAt(toArrange: seq<Condition>, from: nat, groups: seq<nat>, groupFrom: nat, memo: ResultMemo)
    returns (wasMemoized: bool, n: nat)
    requires from < |toArrange| && toArrange[from] != Operational && groupFrom < |groups|
    requires memo.Sound(toArrange, groups)
    modifies memo
    ensures memo.Sound(toArrange, groups)
    ensures n == ArrangementsAt(toArrange, from, groups, groupFrom)
    decreases |toArrange| - from, 2
  {
    ghost var whole := ArrangementsAt(toArrange, from, groups, groupFrom);
    var groupLength := groups[groupFrom];
    var isLastGroup := groupFrom == |groups| - 1;
    var remainingToConsume := |toArrange| - from;
    var remainingGroups := |groups| - groupFrom;
    if isLastGroup && remainingToConsume == groupLength {
      return false, 1;
    }
    var spaceRequired := Sum(groups[groupFrom..]) + remainingGroups - 1;
    if remainingToConsume < spaceRequired {
      return false, 0;
    }
    SpaceFits(groups, groupFrom, remainingToConsume);

    if !NoOperational(toArrange[from..from + groupLength]) {
      var nextFrom := NextCandidate(toArrange, from);
      // `nextFrom` is past `from`, so the source's
      // `next_from > arrange_from` test holds here
      assert whole == ArrangementsFrom(toArrange, nextFrom, groups, groupFrom);
      wasMemoized, n := CalculateArrangementsFrom(toArrange, nextFrom, groups, groupFrom, memo);
      return;
    }

    if remainingGroups == 1 && !NoDamaged(toArrange[from + groupLength..]) {
      return false, 0;
    }

    n := BothOptions(toArrange, from, groups, groupFrom, memo);
    wasMemoized := false;
  }

  /** The jump past a window that holds an Operational: over the
    * conditions that are not Operational, then over the Operationals. */
  method NextCandidate(toArrange: seq<Condition>, from: nat) returns (nextFrom: nat)
    requires from < |toArrange| && toArrange[from] != Operational
    ensures from < nextFrom <= |toArrange|
    ensures nextFrom == SkipOperationalFrom(toArrange, SkipNonOperationalFrom(toArrange, from))
  {
    nextFrom := from;
    while nextFrom < |toArrange| && toArrange[nextFrom] != Operational
      invariant from <= nextFrom <= |toArrange|
      invariant SkipNonOperationalFrom(toArrange, nextFrom) == SkipNonOperationalFrom(toArrange, from)
    {
      nextFrom := nextFrom + 1;
    }
    ghost var firstOperational := nextFrom;
    while nextFrom < |toArrange| && toArrange[nextFrom] == Operational
      invariant firstOperational <= nextFrom <= |toArrange|
      invariant SkipOperationalFrom(toArrange, nextFrom) == SkipOperationalFrom(toArrange, firstOperational)
    {
      nextFrom := nextFrom + 1;
    }
  }

  /** The two options of `calculate_arrangements_from`: the group put right
    * here (followed by Operationals, or by an Unknown taken as one), plus,
    * when the first condition is Unknown and the one after the group is
    * not Operational, the same groups from one further on. */
  method BothOptions(toArrange: seq<Condition>, from: nat, groups: seq<nat>, groupFrom: nat, memo: ResultMemo)
    returns (n: nat)
    requires groupFrom < |groups| && from + groups[groupFrom] < |toArrange|
    requires toArrange[from] != Operational
    requires memo.Sound(toArrange, groups)
    modifies memo
    ensures memo.Sound(toArrange, groups)
    ensures var after := from + groups[groupFrom];
            n == (if toArrange[after] == Operational then
                    ArrangementsFrom(toArrange, SkipOperationalFrom(toArrange, after), groups, groupFrom + 1)
                  else if toArrange[after] == Unknown then ArrangementsFrom(toArrange, after + 1, groups, groupFrom + 1)
                  else 0) +
                 (if toArrange[from] == Unknown && toArrange[after] != Operational then
                    ArrangementsFrom(toArrange, from + 1, groups, groupFrom)
                  else 0)
    decreases |toArrange| - from, 1
  {
    var numArrangements := GroupHere(toArrange, from, groups, groupFrom, memo);
    // the group moved on by one
    var afterGroup := from + groups[groupFrom];
    if toArrange[from] == Unknown && toArrange[afterGroup] != Operational {
      var result := Recurse(toArrange, from + 1, groups, groupFrom, memo);
      numArrangements := numArrangements + result;
    }
    n := numArrangements;
  }

  /** The first option: the group put right here, followed by Operationals
    * (all skipped) or by an Unknown taken as Operational. */
  method GroupHere(toArrange: seq<Condition>, from: nat, groups: seq<nat>, groupFrom: nat, memo: ResultMemo)
    returns (n: nat)
    requires groupFrom < |groups| && from + groups[groupFrom] < |toArrange|
    requires toArrange[from] != Operational
    requires memo.Sound(toArrange, groups)
    modifies memo
    ensures memo.Sound(toArrange, groups)
    ensures var after := from + groups[groupFrom];
            n == if toArrange[after] == Operational then
                   ArrangementsFrom(toArrange, SkipOperationalFrom(toArrange, after), groups, groupFrom + 1)
                 else if toArrange[after] == Unknown then ArrangementsFrom(toArrange, after + 1, groups, groupFrom + 1)
                 else 0
    decreases |toArrange| - from, 0
  {
    var newGroupFrom := groupFrom + 1;
    var afterGroup := from + groups[groupFrom];
    var firstCondition := toArrange[afterGroup];
    if firstCondition == Operational {
      var nextFrom := afterGroup;
      while nextFrom < |toArrange| && toArrange[nextFrom] == Operational
        invariant afterGroup <= nextFrom <= |toArrange|
        invariant SkipOperationalFrom(toArrange, nextFrom) == SkipOperationalFrom(toArrange, afterGroup)
      {
        nextFrom := nextFrom + 1;
      }
      n := Recurse(toArrange, nextFrom, groups, newGroupFrom, memo);
    } else if firstCondition == Unknown {
      n := Recurse(toArrange, afterGroup + 1, groups, newGroupFrom, memo);
    } else {
      n := 0;
    }
  }

  /** A recursive call whose count is stored under its own key unless it
    * came from the memo. */
  method Recurse(toArrange: seq<Condition>, from: nat, groups: seq<nat>, groupFrom: nat, memo: ResultMemo)
    returns (n: nat)
    requires memo.Sound(toArrange, groups)
    modifies memo
    ensures memo.Sound(toArrange, groups)
    ensures n == ArrangementsFrom(toArrange, from, groups, groupFrom)
    decreases |toArrange| - from, 4
  {
    var wasMemoized, result := CalculateArrangementsFrom(toArrange, from, groups, groupFrom, memo);
    if !wasMemoized {
      CorrectInsert(memo.entries, toArrange, groups, ResultKey(from, groupFrom), result);
      memo.entries := memo.entries[ResultKey(from, groupFrom) := result];
    }
    n := result;
  }

  // ---------------------------------------------------------------------
  // How the count of day 12 splits at the first condition

  lemma CountEmpty(h: seq<nat>)
    ensures Count([], h) == if h == [] then 1 else 0
  {
    assert Scan([]).0 == [] && Scan([]).1 == 0;
    assert Runs([]) == [];
  }

  /** A leading Operational changes nothing. */
  lemma CountOperationalFirst(t: seq<Condition>, h: seq<nat>)
    requires t != [] && t[0] == Operational
    ensures Count(t, h) == Count(t[1..], h)
  {
    var p := [Operational];
    assert p[..0] == [];
    assert Scan(p[..0]).0 == [] && Scan(p[..0]).1 == 0;
    assert Scan(p).0 == [] && Scan(p).1 == 0;
    assert t == p + t[1..];
    CountAfterPrefix(p, t[1..], h);
    assert [] + h == h;
  }

  /** A leading Unknown is either. */
  lemma CountUnknownFirst(t: seq<Condition>, h: seq<nat>)
    requires t != [] && t[0] == Unknown
    ensures Count(t, h) == Count(t[0 := Damaged], h) + Count(t[0 := Operational], h)
  {
    assert KnownPrefix(t) == 0;
  }

  /** Runs are found exactly when something is Damaged. */
  lemma {:induction false} RunsEmpty(t: seq<Condition>)
    ensures Runs(t) == [] <==> NoDamaged(t)
  {
    if t != [] {
      var t' := t[..|t| - 1];
      RunsEmpty(t');
      var (closed, open) := Scan(t');
      if t[|t| - 1] == Damaged {
        assert Runs(t) == closed + [open + 1];
      } else {
        assert Runs(t) == Runs(t');
        assert NoDamaged(t) <==> NoDamaged(t');
      }
    }
  }

  /** With no group left, one arrangement exactly when nothing is Damaged. */
  lemma {:induction false} CountNoGroups(t: seq<Condition>)
    ensures Count(t, []) == if NoDamaged(t) then 1 else 0
    decreases Unknowns(t)
  {
    var u := KnownPrefix(t);
    if u == |t| {
      RunsEmpty(t);
    } else {
      FixUnknown(t, u, Damaged);
      FixUnknown(t, u, Operational);
      CountNoGroups(t[u := Damaged]);
      CountNoGroups(t[u := Operational]);
      assert t[u := Damaged][u] == Damaged;
      forall i | 0 <= i < |t|
        ensures (t[u := Operational][i] != Damaged) == (t[i] != Damaged)
      {
      }
    }
  }

  /** A group of length zero is never matched: runs are positive. */
  lemma {:induction false} CountZeroGroup(t: seq<Condition>, h: seq<nat>)
    requires !Positive(h)
    ensures Count(t, h) == 0
    decreases Unknowns(t)
  {
    var u := KnownPrefix(t);
    if u < |t| {
      FixUnknown(t, u, Damaged);
      FixUnknown(t, u, Operational);
      CountZeroGroup(t[u := Damaged], h);
      CountZeroGroup(t[u := Operational], h);
    }
  }

  /** A known prefix whose closed runs do not start the groups leaves no
    * arrangement. */
  lemma {:induction false} CountAfterPrefixMismatch(p: seq<Condition>, s: seq<Condition>, h: seq<nat>)
    requires Known(p) && Scan(p).1 == 0
    requires !(Scan(p).0 <= h)
    ensures Count(p + s, h) == 0
    decreases Unknowns(s)
  {
    var u := KnownPrefix(s);
    if u == |s| {
      KnownPrefixAppend(p, s);
      KnownMismatch(p, s, h);
    } else {
      FixUnknown(s, u, Damaged);
      FixUnknown(s, u, Operational);
      CountSplitAfterPrefix(p, s, h);
      CountAfterPrefixMismatch(p, s[u := Damaged], h);
      CountAfterPrefixMismatch(p, s[u := Operational], h);
    }
  }

  lemma KnownMismatch(p: seq<Condition>, s: seq<Condition>, h: seq<nat>)
    requires Scan(p).1 == 0 && !(Scan(p).0 <= h)
    requires KnownPrefix(p + s) == |p + s|
    ensures Count(p + s, h) == 0
  {
    RunsAfterPrefix(p, s);
    assert Scan(p).0 <= Runs(p + s);
  }

  /** What a leading Damaged leaves to match: the first group must be the
    * next `k` conditions, none of them Operational, and must not run on
    * into a Damaged; then the conditions after it and the other groups. */
  function AfterFirst(t: seq<Condition>, h: seq<nat>): Option<(seq<Condition>, seq<nat>)>
    requires t != [] && h != []
  {
    var k := h[0];
    if k <= |t| && NoOperational(t[..k]) then
      if k == |t| then Some(([], h[1..]))
      else if t[k] != Damaged then Some((t[k + 1..], h[1..]))
      else None
    else None
  }

  function PlaceFirst(t: seq<Condition>, h: seq<nat>): nat
    requires t != [] && h != []
  {
    var rest := AfterFirst(t, h);
    if rest.Some? then Count(rest.value.0, rest.value.1) else 0
  }

  lemma {:induction false} CountDamagedFirst(t: seq<Condition>, h: seq<nat>)
    requires t != [] && t[0] == Damaged && h != [] && h[0] > 0
    ensures Count(t, h) == PlaceFirst(t, h)
    decreases Unknowns(t)
  {
    var k := h[0];
    var u := KnownPrefix(t);
    if u < |t| && u <= k {
      FixUnknown(t, u, Damaged);
      FixUnknown(t, u, Operational);
      CountDamagedFirst(t[u := Damaged], h);
      CountDamagedFirst(t[u := Operational], h);
      SplitKeepsPlace(t, h, u);
    } else {
      KnownWindowCount(t, h);
    }
  }

  /** Fixing an Unknown inside the window, or just after it, splits the
    * placement the way it splits the count. */
  lemma SplitKeepsPlace(t: seq<Condition>, h: seq<nat>, u: nat)
    requires t != [] && t[0] == Damaged && h != [] && h[0] > 0
    requires 0 < u < |t| && u <= h[0] && t[u] == Unknown
    ensures u < h[0] ==> AfterFirst(t[u := Damaged], h) == AfterFirst(t, h) && AfterFirst(t[u := Operational], h) == None
    ensures u == h[0] ==> AfterFirst(t[u := Damaged], h) == None && AfterFirst(t[u := Operational], h) == AfterFirst(t, h)
  {
    var k := h[0];
    var d, o := t[u := Damaged], t[u := Operational];
    if u < k {
      if k <= |t| {
        assert !NoOperational(o[..k]) by { assert o[..k][u] == Operational; }
        assert NoOperational(d[..k]) <==> NoOperational(t[..k]) by {
          assert forall i | 0 <= i < k && i != u :: d[..k][i] == t[..k][i];
        }
        if k < |t| {
          assert d[k + 1..] == t[k + 1..];
        }
      }
    } else {
      assert d[..k] == t[..k] && o[..k] == t[..k];
      assert o[k + 1..] == t[k + 1..];
    }
  }

  /** With the window and the condition after it known, the count is the
    * placement. */
  lemma KnownWindowCount(t: seq<Condition>, h: seq<nat>)
    requires t != [] && t[0] == Damaged && h != [] && h[0] > 0
    requires KnownPrefix(t) == |t| || KnownPrefix(t) > h[0]
    ensures Count(t, h) == PlaceFirst(t, h)
  {
    var k := h[0];
    var m := if k < |t| then k else |t|;
    assert forall i | 0 <= i < m :: t[i] != Unknown;
    if i :| 0 <= i < m && t[i] == Operational {
      var i0 := FirstOperational(t, m);
      OperationalInWindow(t, h, i0);
    } else {
      assert forall i | 0 <= i < m :: t[i] == Damaged;
      if k > |t| {
        DamagedRow(t, h);
      } else if k == |t| {
        DamagedRow(t, h);
      } else if t[k] == Operational {
        ClosedWindow(t, h);
      } else {
        OverlongRun(t, h);
      }
    }
  }

  /** The first Operational among the first `m` conditions. */
  function FirstOperational(t: seq<Condition>, m: nat): (i: nat)
    requires m <= |t| && exists i | 0 <= i < m :: t[i] == Operational
    ensures i < m && t[i] == Operational && forall j | 0 <= j < i :: t[j] != Operational
  {
    if t[0] == Operational then 0
    else
      assert exists i | 0 <= i < m - 1 :: t[1..][i] == Operational by {
        var i :| 0 <= i < m && t[i] == Operational;
        assert t[1..][i - 1] == Operational;
      }
      1 + FirstOperational(t[1..], m - 1)
  }

  /** An Operational inside the window closes a run shorter than the
    * group. */
  lemma OperationalInWindow(t: seq<Condition>, h: seq<nat>, i: nat)
    requires t != [] && h != [] && 0 < i < h[0] && i < |t| && t[i] == Operational
    requires forall j | 0 <= j < i :: t[j] == Damaged
    ensures Count(t, h) == 0 && PlaceFirst(t, h) == 0
  {
    var p := t[..i + 1];
    ScanClosedRun(t, i);
    assert Known(p);
    assert t == p + t[i + 1..];
    assert !([i] <= h);
    CountAfterPrefixMismatch(p, t[i + 1..], h);
    if h[0] <= |t| {
      assert t[..h[0]][i] == Operational;
    }
  }

  /** A row of Damaged only has its own length as its one run. */
  lemma DamagedRow(t: seq<Condition>, h: seq<nat>)
    requires t != [] && h != [] && |t| <= h[0]
    requires forall i | 0 <= i < |t| :: t[i] == Damaged
    ensures Count(t, h) == PlaceFirst(t, h)
  {
    ScanDamaged(t);
    assert KnownPrefix(t) == |t|;
    assert Count(t, h) == if [|t|] == h then 1 else 0;
    if h[0] == |t| {
      assert t[..h[0]] == t;
      assert NoOperational(t);
      assert AfterFirst(t, h) == Some(([], h[1..]));
      CountEmpty(h[1..]);
      assert ([|t|] == h) == (h[1..] == []) by {
        assert h == [h[0]] + h[1..];
      }
    } else {
      assert AfterFirst(t, h) == None;
      assert [|t|] != h;
    }
  }

  /** Exactly `k` Damaged closed by an Operational match a first group `k`. */
  lemma ClosedWindow(t: seq<Condition>, h: seq<nat>)
    requires h != [] && 0 < h[0] < |t| && t[h[0]] == Operational
    requires forall i | 0 <= i < h[0] :: t[i] == Damaged
    ensures Count(t, h) == PlaceFirst(t, h)
  {
    var k := h[0];
    assert [k] + h[1..] == h;
    assert NoOperational(t[..k]);
    assert AfterFirst(t, h) == Some((t[k + 1..], h[1..]));
    ClosedRunKeepsCount(t, k, h[1..]);
    SkipKeepsCount(t[k + 1..], h[1..]);
  }

  /** More than `k` Damaged in front cannot match a first group `k`. */
  lemma OverlongRun(t: seq<Condition>, h: seq<nat>)
    requires h != [] && h[0] < |t|
    requires forall i | 0 <= i <= h[0] :: t[i] == Damaged
    ensures Count(t, h) == 0 && PlaceFirst(t, h) == 0
  {
    var k := h[0];
    var u := KnownPrefix(t);
    assert u > k;
    var q := t[..k + 1];
    ScanDamaged(q);
    assert Runs(q) == [k + 1];
    assert t[..u] == q + t[k + 1..u];
    RunsGrow(q, t[k + 1..u]);
    if Count(t, h) > 0 {
      PruneSound(t, h);
      PossibleTransitive(Runs(q), KnownRuns(t), h);
    }
  }

  /** The runs of any row need their lengths plus a gap between each two. */
  lemma {:induction false} ScanSpace(s: seq<Condition>)
    ensures Sum(Scan(s).0) + |Scan(s).0| + Scan(s).1 <= |s|
  {
    if s != [] {
      var s' := s[..|s| - 1];
      ScanSpace(s');
      var (closed, open) := Scan(s');
      if s[|s| - 1] != Damaged {
        SumAppend(closed, Open(open));
        if open > 0 {
          assert Sum([open]) == Sum([open][..0]) + open;
        }
      }
    }
  }

  lemma RunsSpace(s: seq<Condition>)
    ensures Sum(Runs(s)) + |Runs(s)| <= |s| + 1
  {
    ScanSpace(s);
    var (closed, open) := Scan(s);
    SumAppend(closed, Open(open));
    if open > 0 {
      assert Sum([open]) == Sum([open][..0]) + open;
    }
  }

  /** The space check: a row shorter than the groups and the gaps between
    * them has no arrangement. */
  lemma {:induction false} CountNeedsSpace(t: seq<Condition>, h: seq<nat>)
    requires Count(t, h) > 0
    ensures Sum(h) + |h| <= |t| + 1
    decreases Unknowns(t)
  {
    var u := KnownPrefix(t);
    if u == |t| {
      RunsSpace(t);
    } else {
      FixUnknown(t, u, Damaged);
      FixUnknown(t, u, Operational);
      if Count(t[u := Damaged], h) > 0 {
        CountNeedsSpace(t[u := Damaged], h);
      } else {
        CountNeedsSpace(t[u := Operational], h);
      }
    }
  }

  // ---------------------------------------------------------------------
  // The search corrected, and proved to count the arrangements

  /** `calculate_arrangements_from` with its four departures from the count
    * put right: the last-group shortcut and the group put here both need
    * a window with no Operational; a window that holds one moves on by a
    * single Unknown instead of jumping over Damaged; the check after the
    * last group only rules out putting it here; and the group moves on by
    * one whenever the first condition is Unknown. */
  function Corrected(s: seq<Condition>, a: nat, g: seq<nat>, gi: nat): nat
    decreases |s| - a, 1
  {
    if a >= |s| then (if gi >= |g| then 1 else 0)
    else if gi >= |g| then (if NoDamaged(s[a..]) then 1 else 0)
    else if s[a] == Operational then Corrected(s, a + 1, g, gi)
    else if |s| - a < Sum(g[gi..]) + (|g| - gi) - 1 then 0
    else
      var shifted := if s[a] == Unknown then Corrected(s, a + 1, g, gi) else 0;
      Placed(s, a, g, gi) + shifted
  }

  /** The group put at `a`: a window of its length with no Operational,
    * not followed by a Damaged; then the rest after the condition that
    * closes it. */
  function Placed(s: seq<Condition>, a: nat, g: seq<nat>, gi: nat): nat
    requires a < |s| && gi < |g|
    decreases |s| - a, 0
  {
    var k := g[gi];
    var after := a + k;
    if 0 < k && after <= |s| && NoOperational(s[a..after]) then
      if after == |s| then Corrected(s, after, g, gi + 1)
      else if s[after] != Damaged then Corrected(s, after + 1, g, gi + 1)
      else 0
    else 0
  }

  /** The corrected search from `a` and `gi` counts the arrangements of the
    * conditions from `a` that match the groups from `gi`. */
  lemma {:induction false} CorrectedCounts(s: seq<Condition>, a: nat, g: seq<nat>, gi: nat)
    requires a <= |s| && gi <= |g|
    ensures Corrected(s, a, g, gi) == Count(s[a..], g[gi..])
    decreases |s| - a, 2
  {
    var t, h := s[a..], g[gi..];
    if a == |s| {
      CountEmpty(h);
    } else if gi == |g| {
      CountNoGroups(t);
    } else if s[a] == Operational {
      CountOperationalFirst(t, h);
      assert t[1..] == s[a + 1..];
      CorrectedCounts(s, a + 1, g, gi);
    } else if |s| - a < Sum(h) + |h| - 1 {
      if Count(t, h) > 0 {
        CountNeedsSpace(t, h);
      }
    } else {
      if g[gi] == 0 {
        CountZeroGroup([Damaged] + s[a + 1..], h);
      } else {
        CountDamagedFirst([Damaged] + s[a + 1..], h);
        PlacedCounts(s, a, g, gi);
      }
      if s[a] == Unknown {
        CountUnknownFirst(t, h);
        assert t[0 := Damaged] == [Damaged] + s[a + 1..];
        CountOperationalFirst(t[0 := Operational], h);
        assert t[0 := Operational][1..] == s[a + 1..];
        CorrectedCounts(s, a + 1, g, gi);
      } else {
        assert t == [Damaged] + s[a + 1..];
      }
    }
  }

  /** The group put at `a` counts the arrangements that start with a
    * Damaged there. */
  lemma PlacedCounts(s: seq<Condition>, a: nat, g: seq<nat>, gi: nat)
    requires a < |s| && gi < |g| && s[a] != Operational && g[gi] > 0
    ensures PlaceFirst([Damaged] + s[a + 1..], g[gi..]) == Placed(s, a, g, gi)
    decreases |s| - a, 1
  {
    var h := g[gi..];
    var after := a + g[gi];
    if after <= |s| && NoOperational(s[a..after]) {
      if after == |s| {
        PlacedAtEnd(s, a, g, gi);
      } else if s[after] != Damaged {
        PlacedInside(s, a, g, gi);
      } else {
        PlaceFirstAt(s, a, h);
      }
    } else {
      PlaceFirstAt(s, a, h);
    }
  }

  /** A group that ends with the conditions leaves the other groups nothing. */
  lemma PlacedAtEnd(s: seq<Condition>, a: nat, g: seq<nat>, gi: nat)
    requires a < |s| && gi < |g| && s[a] != Operational && g[gi] > 0
    requires a + g[gi] == |s| && NoOperational(s[a..a + g[gi]])
    ensures PlaceFirst([Damaged] + s[a + 1..], g[gi..]) == Placed(s, a, g, gi)
    decreases |s| - a, 0
  {
    var td, h := [Damaged] + s[a + 1..], g[gi..];
    PlaceFirstAt(s, a, h);
    assert AfterFirst(td, h) == Some(([], g[gi + 1..]));
    CorrectedCounts(s, |s|, g, gi + 1);
    assert s[|s|..] == [];
  }

  /** A group closed by a condition that is not Damaged leaves the
    * conditions after that one to the other groups. */
  lemma PlacedInside(s: seq<Condition>, a: nat, g: seq<nat>, gi: nat)
    requires a < |s| && gi < |g| && s[a] != Operational && g[gi] > 0
    requires a + g[gi] < |s| && NoOperational(s[a..a + g[gi]]) && s[a + g[gi]] != Damaged
    ensures PlaceFirst([Damaged] + s[a + 1..], g[gi..]) == Placed(s, a, g, gi)
    decreases |s| - a, 0
  {
    var td, h := [Damaged] + s[a + 1..], g[gi..];
    var after := a + g[gi];
    PlaceFirstAt(s, a, h);
    assert h[1..] == g[gi + 1..];
    assert AfterFirst(td, h) == Some((s[after + 1..], g[gi + 1..]));
    assert Placed(s, a, g, gi) == Corrected(s, after + 1, g, gi + 1);
    CorrectedCounts(s, after + 1, g, gi + 1);
  }

  /** The placement of a first group read off the conditions from `a`. */
  lemma PlaceFirstAt(s: seq<Condition>, a: nat, h: seq<nat>)
    requires a < |s| && s[a] != Operational && h != [] && h[0] > 0
    ensures var k := h[0];
            AfterFirst([Damaged] + s[a + 1..], h) ==
              if a + k <= |s| && NoOperational(s[a..a + k]) then
                if a + k == |s| then Some(([], h[1..]))
                else if s[a + k] != Damaged then Some((s[a + k + 1..], h[1..]))
                else None
              else None
  {
    var td := [Damaged] + s[a + 1..];
    var k := h[0];
    if a + k <= |s| {
      WindowAgrees(td[..k], s[a..a + k]);
      if a + k < |s| {
        assert td[k] == s[a + k];
        assert td[k + 1..] == s[a + k + 1..];
      }
    }
  }

  /** Two windows that differ at most in a first condition that is not
    * Operational in either are both free of Operationals or neither is. */
  lemma WindowAgrees(x: seq<Condition>, y: seq<Condition>)
    requires |x| == |y| && (x != [] ==> x[0] != Operational && y[0] != Operational)
    requires forall i | 0 < i < |x| :: x[i] == y[i]
    ensures NoOperational(x) <==> NoOperational(y)
  {
    if !NoOperational(x) {
      var i :| 0 <= i < |x| && x[i] == Operational;
      assert y[i] == Operational;
    }
    if !NoOperational(y) {
      var i :| 0 <= i < |y| && y[i] == Operational;
      assert x[i] == Operational;
    }
  }

  // ---------------------------------------------------------------------
  // Inputs on which the search as written and the count differ

  /** "#.# 3": the last group is taken to fill the three conditions left,
    * Operational and all; there is no arrangement. */
  lemma LastGroupFillsRest()
    ensures ArrangementsFrom([Damaged, Operational, Damaged], 0, [3], 0) == 1
    ensures Count([Damaged, Operational, Damaged], [3]) == 0
  {
    var s := [Damaged, Operational, Damaged];
    assert SkipOperationalFrom(s, 0) == 0;
    CorrectedCounts(s, 0, [3], 0);
    assert s[0..] == s && [3][0..] == [3];
    assert NoOperational(s[0..0]);
    assert !NoOperational(s[1..1]) == false;
  }

  /** "#.## 2": the window "#." holds an Operational, and the jump past it
    * drops the leading Damaged; the search then finds "##". */
  lemma WindowJumpDropsDamaged()
    ensures ArrangementsFrom([Damaged, Operational, Damaged, Damaged], 0, [2], 0) == 1
    ensures Count([Damaged, Operational, Damaged, Damaged], [2]) == 0
  {
    var s := [Damaged, Operational, Damaged, Damaged];
    assert SkipOperationalFrom(s, 0) == 0;
    assert !NoOperational(s[0..2]) by { assert s[0..2][1] == Operational; }
    assert SkipNonOperationalFrom(s, 0) == 1;
    assert SkipOperationalFrom(s, 1) == 2;
    assert SkipOperationalFrom(s, 2) == 2;
    CorrectedCounts(s, 0, [2], 0);
    assert s[0..] == s && [2][0..] == [2];
  }

  /** "?.? 1": with an Operational after the window the group is never
    * moved on, so the arrangement "..#" is missed. */
  lemma ShiftSkippedBeforeOperational()
    ensures ArrangementsFrom([Unknown, Operational, Unknown], 0, [1], 0) == 1
    ensures Count([Unknown, Operational, Unknown], [1]) == 2
  {
    var s := [Unknown, Operational, Unknown];
    assert SkipOperationalFrom(s, 0) == 0;
    assert NoOperational(s[0..1]);
    assert NoDamaged(s[1..]);
    CountOfShiftExample();
  }

  lemma CountOfShiftExample()
    ensures Count([Unknown, Operational, Unknown], [1]) == 2
  {
    var s, g := [Unknown, Operational, Unknown], [1];
    assert Corrected(s, 3, g, 0) == 0;
    assert Corrected(s, 2, g, 0) == 1 by {
      assert NoOperational(s[2..3]);
      assert Placed(s, 2, g, 0) == Corrected(s, 3, g, 1) == 1;
    }
    assert Corrected(s, 0, g, 0) == 2 by {
      assert NoOperational(s[0..1]);
      assert NoDamaged(s[2..]);
      assert Placed(s, 0, g, 0) == Corrected(s, 2, g, 1) == 1;
      assert Corrected(s, 1, g, 0) == 1;
    }
    CorrectedCounts(s, 0, g, 0);
    assert s[0..] == s && g[0..] == g;
  }

  /** "?.# 1": the Damaged after the window rules out putting the last
    * group here, and the search gives up instead of moving it on. */
  lemma LastGroupCheckStopsShift()
    ensures ArrangementsFrom([Unknown, Operational, Damaged], 0, [1], 0) == 0
    ensures Count([Unknown, Operational, Damaged], [1]) == 1
  {
    var s := [Unknown, Operational, Damaged];
    assert SkipOperationalFrom(s, 0) == 0;
    assert NoOperational(s[0..1]);
    assert !NoDamaged(s[1..]) by { assert s[1..][1] == Damaged; }
    CountOfStopExample();
  }

  lemma CountOfStopExample()
    ensures Count([Unknown, Operational, Damaged], [1]) == 1
  {
    var s := [Unknown, Operational, Damaged];
    CorrectedCounts(s, 0, [1], 0);
    assert s[0..] == s && [1][0..] == [1];
    assert s[1..] == [Operational, Damaged];
    assert s[2..] == [Damaged];
  }

  /** The corrected count of a line: the number of its arrangements. */
  function PossibleArrangementsCorrected(line: Line): (n: nat)
    ensures n == Count(line.conditions, line.groups)
  {
    CorrectedCounts(line.conditions, 0, line.groups, 0);
    assert line.conditions[0..] == line.conditions && line.groups[0..] == line.groups;
    Corrected(line.conditions, 0, line.groups, 0)
  }

  /** `calculate_possible_arrangements`: the search from the start with a
    * fresh memo. */
  method CalculatePossibleArrangements(line: Line) returns (n: nat)
    ensures n == ArrangementsFrom(line.conditions, 0, line.groups, 0)
  {
    var memo := new ResultMemo();
    var _, result := CalculateArrangementsFrom(line.conditions, 0, line.groups, 0, memo);
    n := result;
  }

  /** `perform_processing`: the count of each line, in order. */
  method PerformProcessing(lines: seq<Line>) returns (r: seq<nat>)
    ensures |r| == |lines|
    ensures forall i | 0 <= i < |r| :: r[i] == ArrangementsFrom(lines[i].conditions, 0, lines[i].groups, 0)
  {
    r := [];
    for i := 0 to |lines|
      invariant |r| == i
      invariant forall j | 0 <= j < i :: r[j] == ArrangementsFrom(lines[j].conditions, 0, lines[j].groups, 0)
    {
      var n := CalculatePossibleArrangements(lines[i]);
      r := r + [n];
    }
  }
}
