// The two-operand calculator: groups of lines separated by blank lines,
// each group "a", operator, "b"; the answer is the sum of the results.
module TestBin {
  import opened Wrappers
  import opened Numbers
  import opened Processor

  /** The groups of trimmed lines read so far. */
  type Groups = seq<seq<string>>

  /** `parse_line`: a blank line (after trimming) starts a new group; any
    * other line, trimmed, joins the last group. The first line also opens
    * the first group. */
  function ParseLine(state: Groups, line: string): (r: Groups)
    ensures |r| > 0
    ensures var base := if state == [] then [[]] else state;
            (Trim(line) == [] ==> |r| == |base| + 1 && r[..|base|] == base && r[|base|] == []) &&
            (Trim(line) != [] ==> |r| == |base| && r[..|base| - 1] == base[..|base| - 1] &&
                                  r[|base| - 1] == base[|base| - 1] + [Trim(line)])
  {
    var base := if state == [] then [[]] else state;
    if Trim(line) == [] then base + [[]]
    else base[..|base| - 1] + [base[|base| - 1] + [Trim(line)]]
  }

  function ParseStep(state: Groups, line: string): Result<Groups> {
    Ok(ParseLine(state, line))
  }

  /** All groups laid end to end. */
  function Flatten(groups: Groups): seq<string> {
    if groups == [] then [] else Flatten(groups[..|groups| - 1]) + groups[|groups| - 1]
  }

  /** The non-blank lines, trimmed, in order. */
  function NonBlank(lines: seq<string>): seq<string> {
    if lines == [] then []
    else NonBlank(lines[..|lines| - 1]) + (if Trim(lines[|lines| - 1]) == [] then [] else [Trim(lines[|lines| - 1])])
  }

  function CountBlank(lines: seq<string>): nat {
    if lines == [] then 0
    else CountBlank(lines[..|lines| - 1]) + (if Trim(lines[|lines| - 1]) == [] then 1 else 0)
  }

  lemma FlattenAppendLast(groups: Groups, more: seq<string>)
    requires |groups| > 0
    ensures Flatten(groups[..|groups| - 1] + [groups[|groups| - 1] + more]) == Flatten(groups) + more
  {
    var front := groups[..|groups| - 1];
    assert (front + [groups[|groups| - 1] + more])[..|front|] == front;
  }

  /** Reading the lines groups them: the groups hold exactly the non-blank
    * lines, trimmed and in order, and there is one more group than there
    * are blank lines. */
  lemma {:induction false} LoadGroups(lines: seq<string>)
    requires |lines| > 0
    ensures ParseLines([], lines, ParseStep).Ok?
    ensures var groups := ParseLines([], lines, ParseStep).value;
            Flatten(groups) == NonBlank(lines) && |groups| == CountBlank(lines) + 1
  {
    var front := lines[..|lines| - 1];
    var line := lines[|lines| - 1];
    if front == [] {
      assert ParseLines([], front, ParseStep) == Ok([]);
      assert Flatten([[]]) == [];
      assert Flatten([[] + [Trim(line)]]) == [Trim(line)];
      assert Flatten([[], []]) == [];
    } else {
      LoadGroups(front);
      var groups := ParseLines([], front, ParseStep).value;
      assert ParseLines([], lines, ParseStep) == Ok(ParseLine(groups, line));
      if Trim(line) == [] {
        assert ParseLine(groups, line)[..|groups|] == groups;
        assert Flatten(ParseLine(groups, line)) == Flatten(groups) + [];
      } else {
        FlattenAppendLast(groups, [Trim(line)]);
      }
    }
  }

  /** `a op b` for one group: Err when an entry is missing, when an operand
    * is not an i64, or when the operator is neither "+" nor "*". */
  function Evaluate(group: seq<string>): (r: Result<int>)
    ensures r.Ok? <==> |group| >= 3 && ParseI64(group[0]).Some? && ParseI64(group[2]).Some? &&
                       (group[1] == "+" || group[1] == "*")
    ensures r.Ok? && group[1] == "+" ==> r.value == ParseI64(group[0]).value + ParseI64(group[2]).value
    ensures r.Ok? && group[1] == "*" ==> r.value == ParseI64(group[0]).value * ParseI64(group[2]).value
  {
    if |group| < 1 then Err("missing first operand")
    else if ParseI64(group[0]).None? then Err("invalid digit found in string")
    else if |group| < 2 then Err("missing operator")
    else if |group| < 3 then Err("missing second operand")
    else if ParseI64(group[2]).None? then Err("invalid digit found in string")
    else
      var a := ParseI64(group[0]).value;
      var b := ParseI64(group[2]).value;
      if group[1] == "+" then Ok(a + b)
      else if group[1] == "*" then Ok(a * b)
      else Err("Unrecognised operator")
  }

  /** `perform_processing`: one result per group, in order; the first
    * failing group's error otherwise. */
  method PerformProcessing(state: Groups) returns (r: Result<seq<int>>)
    ensures r.Ok? <==> forall i | 0 <= i < |state| :: Evaluate(state[i]).Ok?
    ensures r.Ok? ==> |r.value| == |state| && forall i | 0 <= i < |state| :: r.value[i] == Evaluate(state[i]).value
    ensures r.Err? ==> exists i | 0 <= i < |state| ::
                         Evaluate(state[i]).Err? && r.error == Evaluate(state[i]).error &&
                         forall j | 0 <= j < i :: Evaluate(state[j]).Ok?
  {
    var results: seq<int> := [];
    for i := 0 to |state|
      invariant |results| == i
      invariant forall j | 0 <= j < i :: Evaluate(state[j]).Ok? && results[j] == Evaluate(state[j]).value
    {
      var result := Evaluate(state[i]);
      if result.Err? {
        return Err(result.error);
      }
      results := results + [result.value];
    }
    r := Ok(results);
  }

  /** `calc_result`: the sum of the results. */
  function CalcResult(results: seq<int>): (r: int)
    ensures results == [] ==> r == 0
  {
    Sum(results)
  }

  /** Adding a group adds its result to the answer. */
  lemma CalcResultAppend(results: seq<int>, last: int)
    ensures CalcResult(results + [last]) == CalcResult(results) + last
  {
    assert (results + [last])[..|results|] == results;
  }
}
