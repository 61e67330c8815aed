// Day 8: Haunted Wasteland. A line of left/right steps is followed
// cyclically through a network of named nodes, each with a left and a
// right successor, counting steps until a finishing node is reached.
module Day8 {
  import opened Wrappers
  import opened Numbers
  import opened Processor

  datatype Step = Left | Right

  /** A node with its two successors. */
  datatype Path = Path(node: string, left: string, right: string)

  /** The loaded state: the steps and the paths keyed by node name. */
  datatype State = State(steps: seq<Step>, nodes: map<string, Path>)

  datatype LoadingState = StepsLine | NodeLines

  type InitialState = (LoadingState, State)

  const Delimiters: set<char> := {' ', '=', '(', ',', ')'}

  const Start: InitialState := (StepsLine, State([], map[]))

  // ---------------------------------------------------------------------
  // Loading

  /** `map_step`; any other character panics, `None` here. */
  function MapStep(c: char): (r: Option<Step>)
    ensures r == Some(Left) <==> c == 'L'
    ensures r == Some(Right) <==> c == 'R'
    ensures r.None? <==> c != 'L' && c != 'R'
  {
    if c == 'L' then Some(Left) else if c == 'R' then Some(Right) else None
  }

  /** The first line, every character a step. */
  function ParseSteps(line: string): (r: Result<seq<Step>>)
    ensures r.Ok? <==> forall i | 0 <= i < |line| :: line[i] in "LR"
    ensures r.Ok? ==> |r.value| == |line| && forall i | 0 <= i < |line| :: Some(r.value[i]) == MapStep(line[i])
  {
    if line == [] then Ok([])
    else
      match MapStep(line[0])
      case None => Err("Unrecognised Step character")
      case Some(step) =>
        match ParseSteps(line[1..])
        case Err(e) => Err(e)
        case Ok(rest) =>
          assert forall i | 1 <= i < |line| :: line[i] == line[1..][i - 1];
          Ok([step] + rest)
  }

  /** `parse_node_line`: a line with no word is no node; a node name
    * must be followed by a left and a right name (panics otherwise). */
  function ParseNodeLine(line: string): (r: Result<Option<(string, Path)>>)
    ensures r == Ok(None) <==> AllIn(line, Delimiters)
    ensures r.Ok? && r.value.Some? ==> r.value.value.1.node == r.value.value.0
  {
    match NextWord(line, Delimiters)
    case None => Ok(None)
    case Some(name) =>
      match NextWord(name.rest, Delimiters)
      case None => Err("Failed to read left node")
      case Some(left) =>
        match NextWord(left.rest, Delimiters)
        case None => Err("Failed to read right node")
        case Some(right) => Ok(Some((name.text, Path(name.text, left.text, right.text))))
  }

  /** A name: a non-empty word with no delimiter in it. */
  predicate IsName(s: string) {
    |s| > 0 && NoneIn(s, Delimiters)
  }

  /** `AAA = (BBB, CCC)` reads back as the node and its two successors. */
  lemma ParseNodeLineReadsBack(a: string, b: string, c: string)
    requires IsName(a) && IsName(b) && IsName(c)
    ensures ParseNodeLine(a + " = (" + b + ", " + c + ")") == Ok(Some((a, Path(a, b, c))))
  {
    var afterC := ")";
    var afterB := " " + c + afterC;
    var afterA := "= (" + b + [','] + afterB;
    assert a + " = (" + b + ", " + c + ")" == a + [' '] + afterA;
    NextWordSplits(a, ' ', afterA, Delimiters);
    assert afterA == "= (" + (b + [','] + afterB);
    NextWordSkipsDelimiters("= (", b + [','] + afterB, Delimiters);
    NextWordSplits(b, ',', afterB, Delimiters);
    assert afterB == " " + (c + [')'] + []);
    NextWordSkipsDelimiters(" ", c + [')'] + [], Delimiters);
    NextWordSplits(c, ')', [], Delimiters);
  }

  /** Every path is stored under its own node's name. */
  predicate KeysMatch(nodes: map<string, Path>) {
    forall k | k in nodes :: nodes[k].node == k
  }

  /** `parse_line`: the first line sets the steps; each later line adds
    * (or replaces) the path of its node, and a line with no word is
    * skipped. */
  function ParseLine(istate: InitialState, line: string): (r: Result<InitialState>)
    ensures istate.0 == StepsLine ==>
      (r.Ok? <==> ParseSteps(line).Ok?) &&
      (r.Ok? ==> r.value == (NodeLines, istate.1.(steps := ParseSteps(line).value)))
    ensures istate.0 == NodeLines && ParseNodeLine(line).Ok? ==>
      r.Ok? && r.value.0 == NodeLines && r.value.1.steps == istate.1.steps &&
      match ParseNodeLine(line).value
      case None => r.value.1.nodes == istate.1.nodes
      case Some(entry) => r.value.1.nodes == istate.1.nodes[entry.0 := entry.1]
    ensures istate.0 == NodeLines ==> (r.Ok? <==> ParseNodeLine(line).Ok?)
  {
    var (loading, state) := istate;
    match loading
    case StepsLine =>
      (match ParseSteps(line)
       case Err(e) => Err(e)
       case Ok(steps) => Ok((NodeLines, state.(steps := steps))))
    case NodeLines =>
      match ParseNodeLine(line)
      case Err(e) => Err(e)
      case Ok(None) => Ok((NodeLines, state))
      case Ok(Some(entry)) => Ok((NodeLines, state.(nodes := state.nodes[entry.0 := entry.1])))
  }

  /** Loading keeps every path under its own node's name. */
  lemma ParseLineKeysMatch(istate: InitialState, line: string)
    requires KeysMatch(istate.1.nodes) && ParseLine(istate, line).Ok?
    ensures KeysMatch(ParseLine(istate, line).value.1.nodes)
  {
  }

  /** `finalise_state`: the loading phase is dropped. */
  function FinaliseState(istate: InitialState): (r: State)
    ensures r == istate.1
  {
    istate.1
  }

  // ---------------------------------------------------------------------
  // Following the steps

  /** The two finishing checks the program passes to `calc_steps`. */
  datatype Finish = Named(target: string) | EndsWith(last: char)

  predicate Finished(finish: Finish, name: string) {
    match finish
    case Named(target) => name == target
    case EndsWith(last) => |name| > 0 && name[|name| - 1] == last
  }

  /** How a walk ends: after `n` steps at a finishing node, at a name with
    * no path after `at` steps (a panic), or with the fuel bound reached
    * (the program would go on forever); part two may also find fewer than
    * two starting nodes (a panic). */
  datatype Outcome = Count(n: nat) | MissingNode(at: nat) | OutOfFuel | TooFewStarts

  /** The step taken as the `i`th (from 0): the steps repeat. */
  function StepAt(steps: seq<Step>, i: nat): (r: Step)
    requires steps != []
    ensures r == steps[i % |steps|]
  {
    steps[i % |steps|]
  }

  /** One move from a path. */
  function Move(state: State, path: Path, step: Step): (r: Option<Path>)
    ensures r.Some? <==> (if step == Left then path.left else path.right) in state.nodes
  {
    var next := if step == Left then path.left else path.right;
    if next in state.nodes then Some(state.nodes[next]) else None
  }

  /** The path reached after `n` steps from `start`, if every name on the
    * way has a path. */
  function PathAfter(state: State, start: string, n: nat): (r: Option<Path>)
    requires state.steps != []
  {
    if n == 0 then
      if start in state.nodes then Some(state.nodes[start]) else None
    else
      match PathAfter(state, start, n - 1)
      case None => None
      case Some(p) => Move(state, p, StepAt(state.steps, n - 1))
  }

  /** The first step count from `n` up to `fuel` that ends the walk. */
  function Search(state: State, start: string, finish: Finish, n: nat, fuel: nat): (r: Outcome)
    requires state.steps != [] && n >= 1
    ensures r.Count? ==> n <= r.n <= fuel
    ensures r.MissingNode? ==> n <= r.at <= fuel
    ensures !r.TooFewStarts?
    decreases fuel + 1 - n
  {
    if n > fuel then OutOfFuel
    else
      match PathAfter(state, start, n)
      case None => MissingNode(n)
      case Some(p) => if Finished(finish, p.node) then Count(n) else Search(state, start, finish, n + 1, fuel)
  }

  /** What `calc_steps` computes with at most `fuel` steps: a missing start
    * panics before anything else, no steps count nothing, and otherwise
    * the first step count reaching a finishing node (the start itself is
    * never checked). */
  function Walk(state: State, start: string, finish: Finish, fuel: nat): Outcome {
    if start !in state.nodes then MissingNode(0)
    else if state.steps == [] then Count(0)
    else Search(state, start, finish, 1, fuel)
  }

  /** A count found from `n` is the first finishing step from `n`. */
  lemma {:induction false} SearchCountIsFirst(state: State, start: string, finish: Finish, n: nat, fuel: nat)
    requires state.steps != [] && n >= 1 && Search(state, start, finish, n, fuel).Count?
    ensures var c := Search(state, start, finish, n, fuel).n;
      n <= c <= fuel && PathAfter(state, start, c).Some? && Finished(finish, PathAfter(state, start, c).value.node)
    ensures var c := Search(state, start, finish, n, fuel).n;
      forall k | n <= k < c :: PathAfter(state, start, k).Some? && !Finished(finish, PathAfter(state, start, k).value.node)
    decreases fuel + 1 - n
  {
    var p := PathAfter(state, start, n);
    if !Finished(finish, p.value.node) {
      SearchCountIsFirst(state, start, finish, n + 1, fuel);
    }
  }

  /** A missing name found from `n` is the first step whose name has no
    * path, and no earlier step finished. */
  lemma {:induction false} SearchMissingIsFirst(state: State, start: string, finish: Finish, n: nat, fuel: nat)
    requires state.steps != [] && n >= 1 && Search(state, start, finish, n, fuel).MissingNode?
    ensures var m := Search(state, start, finish, n, fuel).at;
      n <= m <= fuel && PathAfter(state, start, m).None? &&
      forall k | n <= k < m :: PathAfter(state, start, k).Some? && !Finished(finish, PathAfter(state, start, k).value.node)
    decreases fuel + 1 - n
  {
    if PathAfter(state, start, n).Some? {
      SearchMissingIsFirst(state, start, finish, n + 1, fuel);
    }
  }

  /** Running out of fuel means every step from `n` to `fuel` was reached
    * and none finished. */
  lemma {:induction false} SearchOutOfFuel(state: State, start: string, finish: Finish, n: nat, fuel: nat)
    requires state.steps != [] && n >= 1 && Search(state, start, finish, n, fuel).OutOfFuel?
    ensures forall k | n <= k <= fuel :: PathAfter(state, start, k).Some? && !Finished(finish, PathAfter(state, start, k).value.node)
    decreases fuel + 1 - n
  {
    if n <= fuel {
      SearchOutOfFuel(state, start, finish, n + 1, fuel);
    }
  }

  /** More fuel never changes a walk that ended within the bound. */
  lemma {:induction false} SearchMoreFuel(state: State, start: string, finish: Finish, n: nat, fuel: nat, more: nat)
    requires state.steps != [] && n >= 1 && fuel <= more
    requires !Search(state, start, finish, n, fuel).OutOfFuel?
    ensures Search(state, start, finish, n, more) == Search(state, start, finish, n, fuel)
    decreases fuel + 1 - n
  {
    var p := PathAfter(state, start, n);
    if p.Some? && !Finished(finish, p.value.node) {
      SearchMoreFuel(state, start, finish, n + 1, fuel, more);
    }
  }

  /** A walk that ends with a count stops at the first finishing node. */
  lemma WalkCountIsFirst(state: State, start: string, finish: Finish, fuel: nat)
    requires state.steps != [] && Walk(state, start, finish, fuel).Count?
    ensures var c := Walk(state, start, finish, fuel).n;
      1 <= c <= fuel && PathAfter(state, start, c).Some? && Finished(finish, PathAfter(state, start, c).value.node) &&
      forall k | 1 <= k < c :: PathAfter(state, start, k).Some? && !Finished(finish, PathAfter(state, start, k).value.node)
  {
    SearchCountIsFirst(state, start, finish, 1, fuel);
  }

  /** Once a whole round of steps is done, the walk carries on as a walk
    * from the node reached. */
  lemma {:induction false} PathAfterRound(state: State, start: string, a: nat, b: nat)
    requires state.steps != [] && KeysMatch(state.nodes)
    requires a % |state.steps| == 0 && PathAfter(state, start, a).Some?
    ensures PathAfter(state, start, a + b) == PathAfter(state, PathAfter(state, start, a).value.node, b)
  {
    var p := PathAfter(state, start, a).value;
    if b > 0 {
      PathAfterRound(state, start, a, b - 1);
      ShiftedStep(state.steps, a, b - 1);
    } else {
      assert p == state.nodes[p.node];
    }
  }

  /** A whole number of rounds does not change the step taken. */
  lemma ShiftedStep(steps: seq<Step>, a: nat, i: nat)
    requires steps != [] && a % |steps| == 0
    ensures StepAt(steps, a + i) == StepAt(steps, i)
  {
    var n := |steps|;
    var q := a / n;
    assert a == q * n;
    assert (a + i) % n == i % n by {
      DivModUnique(a + i, n, q + (i / n), i % n);
    }
  }

  /** One more step from the path reached after `n` steps. */
  lemma PathAfterNext(state: State, start: string, n: nat, path: Path)
    requires state.steps != [] && PathAfter(state, start, n) == Some(path)
    ensures PathAfter(state, start, n + 1) == Move(state, path, state.steps[n % |state.steps|])
  {
  }

  /** The iterator position after one more step, wrapping at the end. */
  lemma NextIndex(num: nat, index: nat, len: nat)
    requires len > 0 && index == num % len
    ensures (if index + 1 == len then 0 else index + 1) == (num + 1) % len
  {
    var q := num / len;
    assert num == q * len + index;
    if index + 1 == len {
      DivModUnique(num + 1, len, q + 1, 0);
    } else {
      DivModUnique(num + 1, len, q, index + 1);
    }
  }

  /** The name the step after `num` steps leads to. */
  function NextName(state: State, path: Path, num: nat): string
    requires state.steps != []
  {
    if StepAt(state.steps, num) == Left then path.left else path.right
  }

  /** One step of the search from the path reached after `num` steps: a
    * name without a path ends it, a finishing node counts, and otherwise
    * the search goes on from the next step. */
  lemma SearchStep(state: State, start: string, finish: Finish, num: nat, fuel: nat, path: Path)
    requires state.steps != [] && num < fuel && PathAfter(state, start, num) == Some(path)
    ensures NextName(state, path, num) !in state.nodes ==> Search(state, start, finish, num + 1, fuel) == MissingNode(num + 1)
    ensures NextName(state, path, num) in state.nodes ==> PathAfter(state, start, num + 1) == Some(state.nodes[NextName(state, path, num)])
    ensures NextName(state, path, num) in state.nodes ==>
      Search(state, start, finish, num + 1, fuel) ==
        if Finished(finish, state.nodes[NextName(state, path, num)].node) then Count(num + 1) else Search(state, start, finish, num + 2, fuel)
  {
    PathAfterNext(state, start, num, path);
  }

  /** One step of `calc_steps`: follow the step at `index` from `path`;
    * a missing name or a finishing node ends the search. */
  method Advance(state: State, start: string, finish: Finish, fuel: nat, num: nat, nextNum: nat, index: nat, path: Path)
    returns (stop: Option<Outcome>, next: Path)
    requires state.steps != [] && num < fuel && nextNum == num + 1 && index == num % |state.steps|
    requires PathAfter(state, start, num) == Some(path)
    ensures stop.Some? ==> stop.value == Search(state, start, finish, nextNum, fuel)
    ensures stop.None? ==> PathAfter(state, start, nextNum) == Some(next)
    ensures stop.None? ==> Search(state, start, finish, nextNum, fuel) == Search(state, start, finish, nextNum + 1, fuel)
  {
    SearchStep(state, start, finish, num, fuel, path);
    var name := if state.steps[index] == Left then path.left else path.right;
    assert name == NextName(state, path, num);
    next := path;
    if name !in state.nodes {
      return Some(MissingNode(num + 1)), next;
    }
    next := state.nodes[name];
    if Finished(finish, next.node) {
      return Some(Count(num + 1)), next;
    }
    stop := None;
  }

  /** `calc_steps`: the step iterator is restarted whenever it runs out;
    * at most `fuel` steps are taken. */
  method CalcSteps(state: State, start: string, finish: Finish, fuel: nat) returns (r: Outcome)
    ensures r == Walk(state, start, finish, fuel)
  {
    if start !in state.nodes {
      return MissingNode(0);
    }
    if state.steps == [] {
      return Count(0);
    }
    ghost var walk := Search(state, start, finish, 1, fuel);
    assert walk == Walk(state, start, finish, fuel);
    var path := state.nodes[start];
    var num: nat := 0;
    var index: nat := 0;
    while true
      invariant num <= fuel && index == num % |state.steps|
      invariant PathAfter(state, start, num) == Some(path)
      invariant walk == Search(state, start, finish, num + 1, fuel)
      decreases fuel - num
    {
      if num == fuel {
        return OutOfFuel;
      }
      var stop;
      var nextNum := num + 1;
      stop, path := Advance(state, start, finish, fuel, num, nextNum, index, path);
      if stop.Some? {
        return stop.value;
      }
      NextIndex(num, index, |state.steps|);
      num := nextNum;
      index := if index + 1 == |state.steps| then 0 else index + 1;
    }
  }

  // ---------------------------------------------------------------------
  // Parts one and two

  /** `perform_processing_1`: from AAA to ZZZ. */
  method PerformProcessing1(state: State, fuel: nat) returns (r: Outcome)
    ensures r == Walk(state, "AAA", Named("ZZZ"), fuel)
  {
    r := CalcSteps(state, "AAA", Named("ZZZ"), fuel);
  }

  /** The nodes whose paths name a node ending in A. */
  function Starts(state: State): (r: set<string>)
    ensures forall s | s in r :: Finished(EndsWith('A'), s)
  {
    set p | p in state.nodes.Values && Finished(EndsWith('A'), p.node) :: p.node
  }

  /** The lcm of the recorded counts is a multiple of every start's count,
    * and positive when there are steps. */
  lemma LcmOfWalks(state: State, fuel: nat, starts: set<string>, walked: seq<string>, counts: seq<nat>)
    requires |counts| == |walked| > 0
    requires forall s | s in starts :: s in walked
    requires forall i | 0 <= i < |walked| :: Walk(state, walked[i], EndsWith('Z'), fuel) == Count(counts[i])
    ensures forall s | s in starts ::
      Walk(state, s, EndsWith('Z'), fuel).Count? &&
      (Walk(state, s, EndsWith('Z'), fuel).n > 0 ==> LcmAll(counts) % Walk(state, s, EndsWith('Z'), fuel).n == 0)
    ensures state.steps != [] ==> LcmAll(counts) > 0
  {
    if state.steps != [] {
      forall i | 0 <= i < |counts|
        ensures counts[i] > 0
      {
        WalkCountIsFirst(state, walked[i], EndsWith('Z'), fuel);
      }
      LcmAllIsCommonMultiple(counts);
    }
    forall s | s in starts
      ensures Walk(state, s, EndsWith('Z'), fuel).Count?
      ensures Walk(state, s, EndsWith('Z'), fuel).n > 0 ==> LcmAll(counts) % Walk(state, s, EndsWith('Z'), fuel).n == 0
    {
      var i :| 0 <= i < |walked| && walked[i] == s;
      assert Walk(state, s, EndsWith('Z'), fuel) == Count(counts[i]);
    }
  }

  /** `m` is a press count at which every start's walk is at a Z node
    * again: a common multiple of every start's step count. */
  ghost predicate CommonMultipleOfWalks(state: State, fuel: nat, m: nat) {
    forall s | s in Starts(state) ::
      Walk(state, s, EndsWith('Z'), fuel).Count? && Walk(state, s, EndsWith('Z'), fuel).n > 0 &&
      m % Walk(state, s, EndsWith('Z'), fuel).n == 0
  }

  /** The lcm of the recorded counts divides every positive common multiple
    * of the walks, so no smaller positive count lines them all up. */
  lemma LcmOfWalksIsLeast(state: State, fuel: nat, walked: seq<string>, counts: seq<nat>, m: nat)
    requires |counts| == |walked| > 0 && m > 0
    requires forall i | 0 <= i < |walked| :: walked[i] in Starts(state)
    requires forall i | 0 <= i < |walked| :: Walk(state, walked[i], EndsWith('Z'), fuel) == Count(counts[i])
    requires CommonMultipleOfWalks(state, fuel, m)
    ensures LcmAll(counts) > 0 && m % LcmAll(counts) == 0 && LcmAll(counts) <= m
  {
    forall i | 0 <= i < |counts|
      ensures counts[i] > 0 && m % counts[i] == 0
    {
      assert walked[i] in Starts(state);
    }
    LcmAllIsLeast(counts, m);
  }

  /** `perform_processing_2`: every start is walked to a node ending in Z
    * (in the order the map yields them, any order here); at least two
    * counts are needed, and their lcm is the answer. */
  method PerformProcessing2(state: State, fuel: nat) returns (r: Outcome)
    ensures r.Count? ==> |Starts(state)| >= 2
    ensures r.Count? ==> forall s | s in Starts(state) ::
      Walk(state, s, EndsWith('Z'), fuel).Count? &&
      (Walk(state, s, EndsWith('Z'), fuel).n > 0 ==> r.n % Walk(state, s, EndsWith('Z'), fuel).n == 0)
    ensures r.Count? && state.steps != [] ==> r.n > 0
    ensures r.Count? ==> forall m: nat | m > 0 && CommonMultipleOfWalks(state, fuel, m) :: m % r.n == 0 && r.n <= m
    ensures r == TooFewStarts ==> |Starts(state)| < 2
    ensures (r.MissingNode? || r.OutOfFuel?) ==>
      exists s | s in Starts(state) :: Walk(state, s, EndsWith('Z'), fuel) == r
    ensures (forall s | s in Starts(state) :: Walk(state, s, EndsWith('Z'), fuel).Count?) ==> r.Count? || r == TooFewStarts
  {
    var starts := Starts(state);
    var remaining := starts;
    var counts: seq<nat> := [];
    ghost var walked: seq<string> := [];
    while remaining != {}
      invariant remaining <= starts && |counts| == |walked|
      invariant forall i | 0 <= i < |walked| :: walked[i] in starts && walked[i] !in remaining
      invariant forall s | s in starts && s !in remaining :: s in walked
      invariant forall i | 0 <= i < |walked| :: Walk(state, walked[i], EndsWith('Z'), fuel) == Count(counts[i])
      invariant |walked| + |remaining| == |starts|
      decreases |remaining|
    {
      var s :| s in remaining;
      var o := CalcSteps(state, s, EndsWith('Z'), fuel);
      if !o.Count? {
        return o;
      }
      counts := counts + [o.n];
      walked := walked + [s];
      remaining := remaining - {s};
    }
    if |counts| < 2 {
      return TooFewStarts;
    }
    LcmOfWalks(state, fuel, starts, walked, counts);
    forall m: nat | m > 0 && CommonMultipleOfWalks(state, fuel, m)
      ensures LcmAll(counts) > 0 && m % LcmAll(counts) == 0 && LcmAll(counts) <= m
    {
      LcmOfWalksIsLeast(state, fuel, walked, counts, m);
    }
    r := Count(LcmAll(counts));
  }
}
