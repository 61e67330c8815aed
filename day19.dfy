// Aplenty: workflows of rules send machine parts (ratings for the
// attributes x, m, a and s) from workflow to workflow until a part is
// accepted or rejected. Part one sums the ratings of the accepted parts;
// part two pushes whole ranges of ratings through the workflows, splitting
// them at each rule, and counts the accepted combinations.
module Day19 {
  import opened Wrappers
  import opened Numbers
  import opened Processor

  datatype Check = LessThan(amount: nat) | GreaterThan(amount: nat)

  /** Where a rule or a workflow sends a part; `Forward` is the source's
    * `Destination::Workflow`. */
  datatype Destination = Rejected | Accepted | Forward(name: string)

  datatype Rule = Rule(attribute: char, check: Check, destination: Destination)

  datatype Workflow = Workflow(name: string, rules: seq<Rule>, unmatchedDestination: Destination)

  datatype Part = Part(index: nat, attributes: map<char, nat>)

  datatype LoadingState = Workflows | Parts

  datatype State = State(workflows: map<string, Workflow>, parts: seq<Part>)

  type InitialState = (LoadingState, State)

  const WorkflowDelimiters: set<char> := {'{', '}', ':', ',', '<', '>'}
  const PartDelimiters: set<char> := {'{', '}', '=', ','}
  const InitialWorkflow: string := "in"

  // ---------------------------------------------------------------------
  // Parsing workflows

  /** `parse_check`: '>' and '<' are the two comparisons; any other
    * delimiter is the source's panic. */
  function ParseCheck(delimiter: char, amount: nat): (r: Option<Check>)
    ensures r.Some? <==> delimiter == '>' || delimiter == '<'
    ensures delimiter == '>' ==> r == Some(GreaterThan(amount))
    ensures delimiter == '<' ==> r == Some(LessThan(amount))
  {
    match delimiter
    case '>' => Some(GreaterThan(amount))
    case '<' => Some(LessThan(amount))
    case _ => None
  }

  /** `parse_destination`: "A" accepts, "R" rejects, any other name is a
    * workflow. */
  function ParseDestination(s: string): (r: Destination)
    ensures r == Accepted <==> s == "A"
    ensures r == Rejected <==> s == "R"
    ensures r.Forward? ==> r.name == s
  {
    if s == "A" then Accepted
    else if s == "R" then Rejected
    else Forward(s)
  }

  /** How a destination is written in a workflow. */
  function DestinationText(d: Destination): string {
    match d
    case Accepted => "A"
    case Rejected => "R"
    case Forward(name) => name
  }

  /** A destination that can be written: a workflow name that is not "A" or
    * "R" and holds no delimiter. */
  predicate Writable(d: Destination) {
    d.Forward? ==> d.name != [] && d.name != "A" && d.name != "R" && NoneIn(d.name, WorkflowDelimiters)
  }

  lemma ParseDestinationText(d: Destination)
    requires Writable(d)
    ensures ParseDestination(DestinationText(d)) == d
    ensures |DestinationText(d)| > 0 && NoneIn(DestinationText(d), WorkflowDelimiters)
  {
  }

  /** The rest of `load_worflow`'s loop from `chars` on, with the rules and
    * the unmatched destination read so far: a word ended by '>' or '<'
    * starts a rule (its first character is the attribute, then an amount
    * and a destination follow, each missing one being the source's
    * panic); any other word sets the unmatched destination. */
  function RulesFrom(chars: string, rules: seq<Rule>, unmatched: Option<Destination>)
    : Result<(seq<Rule>, Option<Destination>)>
    decreases |chars|
  {
    match NextWord(chars, WorkflowDelimiters)
    case None => Ok((rules, unmatched))
    case Some(w) =>
      if w.delimiter == Some('>') || w.delimiter == Some('<') then
        match ReadNext(w.rest, WorkflowDelimiters, ParseUsize)
        case Err(e) => Err(e)
        case Ok(amount) =>
          match NextWord(amount.rest, WorkflowDelimiters)
          case None => Err("No rule destination")
          case Some(d) =>
            var check := ParseCheck(w.delimiter.value, amount.value).value;
            RulesFrom(d.rest, rules + [Rule(w.text[0], check, ParseDestination(d.text))], unmatched)
      else
        RulesFrom(w.rest, rules, Some(ParseDestination(w.text)))
  }

  /** What `load_worflow` reads from a line: the name, then the rules; a
    * missing name or unmatched destination is the source's panic. */
  function WorkflowOf(line: string): Result<Workflow> {
    match NextWord(line, WorkflowDelimiters)
    case None => Err("No name")
    case Some(n) =>
      var read :- RulesFrom(n.rest, [], None);
      if read.1.None? then Err("Didn't get the unmatched destination")
      else Ok(Workflow(n.text, read.0, read.1.value))
  }

  /** `load_worflow`, with its `while let` loop over the words. */
  method LoadWorkflow(line: string) returns (r: Result<Workflow>)
    ensures r == WorkflowOf(line)
  {
    var name := NextWord(line, WorkflowDelimiters);
    if name.None? {
      return Err("No name");
    }
    var rules: seq<Rule> := [];
    var unmatched: Option<Destination> := None;
    var chars := name.value.rest;
    var word := NextWord(chars, WorkflowDelimiters);
    while word.Some?
      invariant word == NextWord(chars, WorkflowDelimiters)
      invariant RulesFrom(chars, rules, unmatched) == RulesFrom(name.value.rest, [], None)
      decreases |chars|
    {
      var w := word.value;
      if w.delimiter == Some('>') || w.delimiter == Some('<') {
        var attribute := w.text[0];
        var amount := ReadNext(w.rest, WorkflowDelimiters, ParseUsize);
        if amount.Err? {
          return Err(amount.error);
        }
        var check := ParseCheck(w.delimiter.value, amount.value.value).value;
        var destination := NextWord(amount.value.rest, WorkflowDelimiters);
        if destination.None? {
          return Err("No rule destination");
        }
        rules := rules + [Rule(attribute, check, ParseDestination(destination.value.text))];
        chars := destination.value.rest;
      } else {
        unmatched := Some(ParseDestination(w.text));
        chars := w.rest;
      }
      word := NextWord(chars, WorkflowDelimiters);
    }
    if unmatched.None? {
      return Err("Didn't get the unmatched destination");
    }
    r := Ok(Workflow(name.value.text, rules, unmatched.value));
  }

  /** A rule written before `after`: attribute, comparison, amount, ':',
    * destination and a comma. */
  function ShowRule(rule: Rule, after: string): string {
    [rule.attribute] + [if rule.check.GreaterThan? then '>' else '<']
      + (ShowNat(rule.check.amount) + [':'] + (DestinationText(rule.destination) + [','] + after))
  }

  /** The rules written one after the other before `after`. */
  function ShowRules(rules: seq<Rule>, after: string): string {
    if rules == [] then after else ShowRule(rules[0], ShowRules(rules[1..], after))
  }

  /** How a workflow is written: `name{rule,rule,...,unmatched}`. */
  function ShowWorkflow(wf: Workflow): string {
    wf.name + ['{'] + ShowRules(wf.rules, DestinationText(wf.unmatchedDestination) + ['}'] + [])
  }

  /** A rule that can be written and read back. */
  predicate WritableRule(rule: Rule) {
    rule.attribute !in WorkflowDelimiters && rule.check.amount <= USIZE_MAX && Writable(rule.destination)
  }

  /** A workflow that can be written and read back. */
  predicate WritableWorkflow(wf: Workflow) {
    && wf.name != [] && NoneIn(wf.name, WorkflowDelimiters)
    && (forall k | 0 <= k < |wf.rules| :: WritableRule(wf.rules[k]))
    && Writable(wf.unmatchedDestination)
  }

  lemma ShowNatHasNoDelimiter(n: nat, delims: set<char>)
    requires forall c | c in delims :: !IsDigit(c)
    ensures NoneIn(ShowNat(n), delims)
  {
    var s := ShowNat(n);
    forall i | 0 <= i < |s| ensures s[i] !in delims {
      assert IsDigit(s[i]);
    }
  }

  /** Reading one written rule continues with the rules after it. */
  lemma ReadShownRule(rule: Rule, tail: string, rules: seq<Rule>, unmatched: Option<Destination>)
    requires WritableRule(rule)
    ensures RulesFrom(ShowRule(rule, tail), rules, unmatched) == RulesFrom(tail, rules + [rule], unmatched)
  {
    var op := if rule.check.GreaterThan? then '>' else '<';
    var amount := ShowNat(rule.check.amount);
    var dest := DestinationText(rule.destination);
    ParseDestinationText(rule.destination);
    ShowNatHasNoDelimiter(rule.check.amount, WorkflowDelimiters);
    ParseUnsignedShowNat(rule.check.amount, USIZE_MAX);
    NextWordSplits([rule.attribute], op, amount + [':'] + (dest + [','] + tail), WorkflowDelimiters);
    NextWordSplits(amount, ':', dest + [','] + tail, WorkflowDelimiters);
    NextWordSplits(dest, ',', tail, WorkflowDelimiters);
  }

  lemma {:induction false} ReadShownRules(rs: seq<Rule>, tail: string, rules: seq<Rule>, unmatched: Option<Destination>)
    requires forall k | 0 <= k < |rs| :: WritableRule(rs[k])
    ensures RulesFrom(ShowRules(rs, tail), rules, unmatched) == RulesFrom(tail, rules + rs, unmatched)
  {
    if rs == [] {
      assert rules + rs == rules;
    } else {
      assert rules + [rs[0]] + rs[1..] == rules + rs;
      assert WritableRule(rs[0]);
      ReadShownRules(rs[1..], tail, rules + [rs[0]], unmatched);
      ReadShownRule(rs[0], ShowRules(rs[1..], tail), rules, unmatched);
    }
  }

  /** A written workflow reads back as itself. */
  lemma WorkflowOfShown(wf: Workflow)
    requires WritableWorkflow(wf)
    ensures WorkflowOf(ShowWorkflow(wf)) == Ok(wf)
  {
    var dest := DestinationText(wf.unmatchedDestination);
    ParseDestinationText(wf.unmatchedDestination);
    NextWordSplits(wf.name, '{', ShowRules(wf.rules, dest + ['}'] + []), WorkflowDelimiters);
    ReadShownRules(wf.rules, dest + ['}'] + [], [], None);
    assert [] + wf.rules == wf.rules;
    NextWordSplits(dest, '}', [], WorkflowDelimiters);
    assert NextWord([], WorkflowDelimiters).None?;
  }

  // ---------------------------------------------------------------------
  // Parsing parts

  /** The rest of `load_part`'s loop from `chars` on: each word's first
    * character is an attribute and the number after it its rating; a
    * missing or malformed rating is the source's panic. */
  function AttributesFrom(chars: string, attributes: map<char, nat>): Result<map<char, nat>>
    decreases |chars|
  {
    match NextWord(chars, PartDelimiters)
    case None => Ok(attributes)
    case Some(w) =>
      match ReadNext(w.rest, PartDelimiters, ParseUsize)
      case Err(e) => Err(e)
      case Ok(v) => AttributesFrom(v.rest, attributes[w.text[0] := v.value])
  }

  /** What `load_part` reads from a line. */
  function PartOf(index: nat, line: string): Result<Part> {
    var attributes :- AttributesFrom(line, map[]);
    Ok(Part(index, attributes))
  }

  /** `load_part`, with its `while let` loop over the words. */
  method LoadPart(index: nat, line: string) returns (r: Result<Part>)
    ensures r == PartOf(index, line)
  {
    var attributes: map<char, nat> := map[];
    var chars := line;
    var word := NextWord(chars, PartDelimiters);
    while word.Some?
      invariant word == NextWord(chars, PartDelimiters)
      invariant AttributesFrom(chars, attributes) == AttributesFrom(line, map[])
      decreases |chars|
    {
      var value := ReadNext(word.value.rest, PartDelimiters, ParseUsize);
      if value.Err? {
        return Err(value.error);
      }
      attributes := attributes[word.value.text[0] := value.value.value];
      chars := value.value.rest;
      word := NextWord(chars, PartDelimiters);
    }
    r := Ok(Part(index, attributes));
  }

  /** The ratings inserted one after the other; a later one for the same
    * attribute replaces an earlier one, as HashMap::insert does. */
  function InsertAll(attributes: map<char, nat>, ratings: seq<(char, nat)>): map<char, nat>
    decreases ratings
  {
    if ratings == [] then attributes else InsertAll(attributes[ratings[0].0 := ratings[0].1], ratings[1..])
  }

  /** One rating `c=n` written before `after`. */
  function ShowRating(rating: (char, nat), after: string): string {
    [rating.0] + ['='] + (ShowNat(rating.1) + after)
  }

  /** The ratings separated by commas and closed by '}'. */
  function ShowRatings(ratings: seq<(char, nat)>): string {
    if ratings == [] then "}"
    else if |ratings| == 1 then ShowRating(ratings[0], "}")
    else ShowRating(ratings[0], [','] + ShowRatings(ratings[1..]))
  }

  /** How a part is written: `{x=787,m=2655,a=1222,s=2876}`. */
  function ShowPart(ratings: seq<(char, nat)>): string {
    ['{'] + ShowRatings(ratings)
  }

  predicate WritableRatings(ratings: seq<(char, nat)>) {
    forall k | 0 <= k < |ratings| :: ratings[k].0 !in PartDelimiters && ratings[k].1 <= USIZE_MAX
  }

  /** Reading one written rating continues after its separator. */
  lemma ReadShownRating(c: char, n: nat, sep: char, rest: string, attributes: map<char, nat>)
    requires c !in PartDelimiters && n <= USIZE_MAX && sep in PartDelimiters
    ensures AttributesFrom(ShowRating((c, n), [sep] + rest), attributes) == AttributesFrom(rest, attributes[c := n])
  {
    ShowNatHasNoDelimiter(n, PartDelimiters);
    ParseUnsignedShowNat(n, USIZE_MAX);
    NextWordSplits([c], '=', ShowNat(n) + ([sep] + rest), PartDelimiters);
    assert ShowNat(n) + ([sep] + rest) == ShowNat(n) + [sep] + rest;
    NextWordSplits(ShowNat(n), sep, rest, PartDelimiters);
    assert [c][0] == c;
  }

  lemma {:induction false} ReadShownRatings(ratings: seq<(char, nat)>, attributes: map<char, nat>)
    requires WritableRatings(ratings)
    ensures AttributesFrom(ShowRatings(ratings), attributes) == Ok(InsertAll(attributes, ratings))
  {
    if ratings == [] {
      assert NextWord("}", PartDelimiters).None?;
    } else if |ratings| == 1 {
      ReadShownRating(ratings[0].0, ratings[0].1, '}', [], attributes);
      assert NextWord([], PartDelimiters).None?;
      assert "}" == ['}'] + [];
    } else {
      ReadShownRating(ratings[0].0, ratings[0].1, ',', ShowRatings(ratings[1..]), attributes);
      ReadShownRatings(ratings[1..], attributes[ratings[0].0 := ratings[0].1]);
    }
  }

  /** A written part reads back as its ratings. */
  lemma PartOfShown(index: nat, ratings: seq<(char, nat)>)
    requires WritableRatings(ratings)
    ensures PartOf(index, ShowPart(ratings)) == Ok(Part(index, InsertAll(map[], ratings)))
  {
    NextWordSkipsDelimiters(['{'], ShowRatings(ratings), PartDelimiters);
    ReadShownRatings(ratings, map[]);
    assert AttributesFrom(ShowPart(ratings), map[]) == AttributesFrom(ShowRatings(ratings), map[]);
  }

  // ---------------------------------------------------------------------
  // Loading

  /** `parse_line`: the first empty line switches to parts (and any later
    * one keeps to them); a workflow line files the workflow under its
    * name; a part line appends the part with the next index. */
  function ParseLine(istate: InitialState, line: string): (r: Result<InitialState>)
    ensures line == [] ==> r == Ok((Parts, istate.1))
    ensures line != [] && istate.0 == Workflows ==>
              (r.Ok? <==> WorkflowOf(line).Ok?) &&
              (r.Ok? ==> var wf := WorkflowOf(line).value;
                         r.value == (Workflows, State(istate.1.workflows[wf.name := wf], istate.1.parts)))
    ensures line != [] && istate.0 == Parts ==>
              (r.Ok? <==> PartOf(|istate.1.parts|, line).Ok?) &&
              (r.Ok? ==> r.value.0 == Parts && r.value.1.workflows == istate.1.workflows &&
                         r.value.1.parts == istate.1.parts + [PartOf(|istate.1.parts|, line).value] &&
                         r.value.1.parts[|istate.1.parts|].index == |istate.1.parts|)
  {
    var (loading, state) := istate;
    if line == [] then Ok((Parts, state))
    else
      match loading
      case Workflows =>
        var wf :- WorkflowOf(line);
        Ok((Workflows, State(state.workflows[wf.name := wf], state.parts)))
      case Parts =>
        var part :- PartOf(|state.parts|, line);
        Ok((Parts, State(state.workflows, state.parts + [part])))
  }

  /** The number of non-empty lines. */
  function NonEmptyLines(lines: seq<string>): nat {
    if lines == [] then 0
    else NonEmptyLines(lines[..|lines| - 1]) + if lines[|lines| - 1] == [] then 0 else 1
  }

  /** Once switched to parts, loading stays with parts: every later
    * non-empty line, even one that looks like a workflow, is read as a
    * part. */
  lemma {:induction false} PartsStayParts(state: State, lines: seq<string>)
    ensures var r := ParseLines((Parts, state), lines, ParseLine);
            r.Ok? ==> r.value.0 == Parts && r.value.1.workflows == state.workflows
                      && |r.value.1.parts| == |state.parts| + NonEmptyLines(lines)
  {
    if lines != [] {
      PartsStayParts(state, lines[..|lines| - 1]);
    }
  }

  // ---------------------------------------------------------------------
  // Sums over a map's values, in increasing order of the keys

  lemma LeastCharExists(s: set<char>)
    requires s != {}
    ensures exists k | k in s :: forall c | c in s :: k <= c
  {
    var x :| x in s;
    if s - {x} != {} {
      LeastCharExists(s - {x});
      var k :| k in s - {x} && forall c | c in s - {x} :: k <= c;
      var least := if x < k then x else k;
      forall c | c in s
        ensures least <= c
      {
        if c != x {
          assert c in s - {x};
        }
      }
    } else {
      forall c | c in s
        ensures x <= c
      {
        assert c in s - {x} || c == x;
      }
    }
  }

  /** The least key of a non-empty map. */
  function LeastKey<V>(m: map<char, V>): (k: char)
    requires m != map[]
    ensures k in m && forall c | c in m :: k <= c
  {
    assert m.Keys != {} by {
      var c :| c in m;
      assert c in m.Keys;
    }
    LeastCharExists(m.Keys);
    var k :| k in m && forall c | c in m :: k <= c;
    k
  }

  /** `values().sum()`: the sum of a map's values. */
  function ValuesSum(m: map<char, nat>): nat
    decreases |m|
  {
    if m == map[] then 0
    else
      var k := LeastKey(m);
      m[k] + ValuesSum(m - {k})
  }

  /** The sum does not depend on the order the values are visited in:
    * any key's value can be taken out first. */
  lemma {:induction false} ValuesSumRemove(m: map<char, nat>, k: char)
    requires k in m
    ensures ValuesSum(m) == m[k] + ValuesSum(m - {k})
    decreases |m|
  {
    var j := LeastKey(m);
    if j != k {
      var rest := m - {j};
      ValuesSumRemove(rest, k);
      ValuesSumRemove(m - {k}, j);
      assert rest - {k} == (m - {k}) - {j};
      assert (m - {k})[j] == m[j] && rest[k] == m[k];
    }
  }

  // ---------------------------------------------------------------------
  // Routing parts (part 1)

  /** A strict comparison of a rating with a rule's amount. */
  predicate Holds(check: Check, rating: nat) {
    match check
    case GreaterThan(amount) => rating > amount
    case LessThan(amount) => rating < amount
  }

  /** The rule applies to the part. */
  predicate Fires(rule: Rule, attributes: map<char, nat>) {
    rule.attribute in attributes && Holds(rule.check, attributes[rule.attribute])
  }

  /** The part has the rule's attribute and the rule does not apply. */
  predicate Passes(rule: Rule, attributes: map<char, nat>) {
    rule.attribute in attributes && !Holds(rule.check, attributes[rule.attribute])
  }

  /** Every rule before the k-th passes the part by. */
  predicate PassesFirst(rules: seq<Rule>, k: nat, attributes: map<char, nat>)
    requires k <= |rules|
  {
    forall j | 0 <= j < k :: Passes(rules[j], attributes)
  }

  /** The destinations of a workflow's rules. */
  function Destinations(rules: seq<Rule>): (r: seq<Destination>)
    ensures |r| == |rules| && forall k | 0 <= k < |rules| :: r[k] == rules[k].destination
  {
    seq(|rules|, k requires 0 <= k < |rules| => rules[k].destination)
  }

  /** Everywhere a workflow can send a part. */
  function Exits(workflow: Workflow): seq<Destination> {
    Destinations(workflow.rules) + [workflow.unmatchedDestination]
  }

  /** The rule loop of `perform_processing_1`: the destination of the first
    * rule that applies, if any; a rule on an attribute the part lacks is
    * an error. */
  function FirstMatch(rules: seq<Rule>, attributes: map<char, nat>): (r: Result<Option<Destination>>)
    ensures r.Ok? && r.value.Some? ==> r.value.value in Destinations(rules)
  {
    if rules == [] then Ok(None)
    else if rules[0].attribute !in attributes then Err("Rule attribute not found in part")
    else if Holds(rules[0].check, attributes[rules[0].attribute]) then Ok(Some(rules[0].destination))
    else
      var r := FirstMatch(rules[1..], attributes);
      assert Destinations(rules[1..]) == Destinations(rules)[1..];
      r
  }

  /** The part goes to the destination of the first rule that applies,
    * to none when every rule passes it by, and fails at a rule on a
    * missing attribute reached before any rule applies. */
  lemma {:induction false} FirstMatchIsFirst(rules: seq<Rule>, attributes: map<char, nat>)
    ensures FirstMatch(rules, attributes) == Ok(None) <==> PassesFirst(rules, |rules|, attributes)
    ensures forall k | 0 <= k < |rules| && PassesFirst(rules, k, attributes) ::
              (Fires(rules[k], attributes) ==> FirstMatch(rules, attributes) == Ok(Some(rules[k].destination))) &&
              (rules[k].attribute !in attributes ==> FirstMatch(rules, attributes).Err?)
  {
    if rules != [] {
      FirstMatchIsFirst(rules[1..], attributes);
      assert forall k | 1 <= k <= |rules| :: PassesFirst(rules, k, attributes) ==
               (Passes(rules[0], attributes) && PassesFirst(rules[1..], k - 1, attributes));
    }
  }

  /** Where a workflow sends a part: the first rule that applies, else the
    * unmatched destination. */
  function StepOf(workflow: Workflow, attributes: map<char, nat>): (r: Result<Destination>)
    ensures r.Ok? ==> r.value in Exits(workflow)
  {
    var matched :- FirstMatch(workflow.rules, attributes);
    Ok(if matched.Some? then matched.value else workflow.unmatchedDestination)
  }

  /** A ranking of the workflows under which every workflow sends parts
    * only to workflows of lower rank: the workflows have no cycle, so
    * following them ends. */
  ghost predicate Ranked(workflows: map<string, Workflow>, rank: map<string, nat>) {
    forall n | n in workflows ::
      n in rank &&
      forall d | d in Exits(workflows[n]) && d.Forward? && d.name in workflows ::
        d.name in rank && rank[d.name] < rank[n]
  }

  /** How `perform_processing_1` routes a part from workflow `name`:
    * Ok(true) when it ends accepted, Ok(false) when rejected; a missing
    * workflow or attribute is an error. */
  ghost function Route(workflows: map<string, Workflow>, rank: map<string, nat>,
                       attributes: map<char, nat>, name: string): Result<bool>
    requires Ranked(workflows, rank)
    decreases if name in workflows then rank[name] + 1 else 0
  {
    if name !in workflows then Err("No workflow found")
    else
      var d :- StepOf(workflows[name], attributes);
      match d
      case Accepted => Ok(true)
      case Rejected => Ok(false)
      case Forward(next) => Route(workflows, rank, attributes, next)
  }

  /** The rule loop of `perform_processing_1` for one workflow, with its
    * `break` at the first rule that applies. */
  method FindDestination(workflow: Workflow, part: Part) returns (r: Result<Destination>)
    ensures r == StepOf(workflow, part.attributes)
  {
    var rules := workflow.rules;
    var destination: Option<Destination> := None;
    for i := 0 to |rules|
      invariant FirstMatch(rules[i..], part.attributes) == FirstMatch(rules, part.attributes)
    {
      var rule := rules[i];
      assert rules[i..][1..] == rules[i + 1..];
      if rule.attribute !in part.attributes {
        return Err("Rule attribute not found in part");
      }
      var rating := part.attributes[rule.attribute];
      if Holds(rule.check, rating) {
        destination := Some(rule.destination);
        break;
      }
    }
    r := Ok(if destination.Some? then destination.value else workflow.unmatchedDestination);
  }

  /** The `while let` loop of `perform_processing_1` for one part: follow
    * the workflows from "in" until the part is accepted or rejected. */
  method RoutePart(workflows: map<string, Workflow>, ghost rank: map<string, nat>, part: Part)
    returns (r: Result<bool>)
    requires Ranked(workflows, rank)
    ensures r == Route(workflows, rank, part.attributes, InitialWorkflow)
  {
    var current: Option<string> := Some(InitialWorkflow);
    var accepted := false;
    while current.Some?
      invariant current.Some? ==>
                  Route(workflows, rank, part.attributes, current.value) ==
                  Route(workflows, rank, part.attributes, InitialWorkflow)
      invariant current.Some? ==> !accepted
      invariant current.None? ==> Route(workflows, rank, part.attributes, InitialWorkflow) == Ok(accepted)
      decreases if current.Some? && current.value in workflows then rank[current.value] + 2
                else if current.Some? then 1 else 0
    {
      var name := current.value;
      if name !in workflows {
        return Err("No workflow found");
      }
      var destination :- FindDestination(workflows[name], part);
      match destination
      case Accepted =>
        assert Route(workflows, rank, part.attributes, name) == Ok(true);
        accepted := true;
        current := None;
      case Rejected =>
        assert Route(workflows, rank, part.attributes, name) == Ok(false);
        current := None;
      case Forward(next) =>
        current := Some(next);
    }
    r := Ok(accepted);
  }

  /** The parts of `parts` the workflows accept, in order. A part that
    * cannot be routed is an error, and the first such part decides it. */
  ghost function AcceptedParts(workflows: map<string, Workflow>, rank: map<string, nat>,
                               parts: seq<Part>): Result<seq<Part>>
    requires Ranked(workflows, rank)
  {
    if parts == [] then Ok([])
    else
      var before :- AcceptedParts(workflows, rank, parts[..|parts| - 1]);
      var last := parts[|parts| - 1];
      var accepted :- Route(workflows, rank, last.attributes, InitialWorkflow);
      Ok(if accepted then before + [last] else before)
  }

  /** Routing the parts fails exactly when some part fails to route; when
    * it does not, the accepted parts are those part 1 accepts. */
  lemma {:induction false} AcceptedPartsMembers(workflows: map<string, Workflow>, rank: map<string, nat>,
                                                parts: seq<Part>)
    requires Ranked(workflows, rank)
    ensures AcceptedParts(workflows, rank, parts).Err? <==>
              exists k | 0 <= k < |parts| :: Route(workflows, rank, parts[k].attributes, InitialWorkflow).Err?
    ensures AcceptedParts(workflows, rank, parts).Ok? ==>
              forall q :: q in AcceptedParts(workflows, rank, parts).value <==>
                q in parts && Route(workflows, rank, q.attributes, InitialWorkflow) == Ok(true)
  {
    if parts != [] {
      var before := parts[..|parts| - 1];
      var last := parts[|parts| - 1];
      assert forall k | 0 <= k < |before| :: before[k] == parts[k];
      assert parts == before + [last];
      AcceptedPartsMembers(workflows, rank, before);
    }
  }

  /** Once a prefix of the parts fails to route, the whole list fails
    * with the same error: later parts are never looked at. */
  lemma {:induction false} AcceptedPartsFirstError(workflows: map<string, Workflow>, rank: map<string, nat>,
                                                   parts: seq<Part>, n: nat)
    requires Ranked(workflows, rank) && n <= |parts|
    requires AcceptedParts(workflows, rank, parts[..n]).Err?
    ensures AcceptedParts(workflows, rank, parts) == AcceptedParts(workflows, rank, parts[..n])
    decreases |parts| - n
  {
    if n < |parts| {
      var m := |parts| - 1;
      assert parts[..m][..n] == parts[..n];
      AcceptedPartsFirstError(workflows, rank, parts[..m], n);
    } else {
      assert parts[..n] == parts;
    }
  }

  /** A part's rating: the sum of its attribute values. */
  function Rating(part: Part): nat {
    ValuesSum(part.attributes)
  }

  /** An x, m, a, s part's rating is the sum of those four ratings. */
  lemma XmasRating(part: Part)
    requires part.attributes.Keys == {'x', 'm', 'a', 's'}
    ensures Rating(part) == part.attributes['x'] + part.attributes['m'] +
                            part.attributes['a'] + part.attributes['s']
  {
    var m := part.attributes;
    ValuesSumRemove(m, 'x');
    var m1 := m - {'x'};
    ValuesSumRemove(m1, 'm');
    var m2 := m1 - {'m'};
    ValuesSumRemove(m2, 'a');
    var m3 := m2 - {'a'};
    ValuesSumRemove(m3, 's');
    assert m3 - {'s'} == map[];
  }

  /** The sum of the ratings of `parts`. */
  function RatingsSum(parts: seq<Part>): nat {
    if parts == [] then 0 else RatingsSum(parts[..|parts| - 1]) + Rating(parts[|parts| - 1])
  }

  /** Part 1's answer: the sum of the ratings of the accepted parts. */
  ghost function AcceptedRatings(workflows: map<string, Workflow>, rank: map<string, nat>,
                                 parts: seq<Part>): Result<nat>
    requires Ranked(workflows, rank)
  {
    var accepted :- AcceptedParts(workflows, rank, parts);
    Ok(RatingsSum(accepted))
  }

  /** `perform_processing_1`: route every part from "in" and add up the
    * ratings of the accepted ones. The ranking is a proof device only. */
  method PerformProcessing1(state: State, ghost rank: map<string, nat>) returns (r: Result<nat>)
    requires Ranked(state.workflows, rank)
    ensures r == AcceptedRatings(state.workflows, rank, state.parts)
  {
    var accepted: seq<Part> := [];
    for i := 0 to |state.parts|
      invariant AcceptedParts(state.workflows, rank, state.parts[..i]) == Ok(accepted)
    {
      var part := state.parts[i];
      assert state.parts[..i + 1][..i] == state.parts[..i];
      assert AcceptedParts(state.workflows, rank, state.parts[..i + 1]) ==
             (var accepted' :- Route(state.workflows, rank, part.attributes, InitialWorkflow);
              Ok(if accepted' then accepted + [part] else accepted));
      var routed := RoutePart(state.workflows, rank, part);
      if routed.Err? {
        AcceptedPartsFirstError(state.workflows, rank, state.parts, i + 1);
        return Err(routed.error);
      }
      if routed.value {
        accepted := accepted + [part];
      }
    }
    assert state.parts[..|state.parts|] == state.parts;
    r := Ok(RatingsSum(accepted));
  }
}
