// Part two of the part sorter: instead of single parts, boxes of possible
// ratings flow through the workflows, each rule splitting a box into the
// piece it applies to and the piece that moves on to the next rule.
module Day19Ranges {
  import opened Wrappers
  import opened Day19

  /** An inclusive range `(min, max)` of ratings. */
  type MinMax = (nat, nat)

  /** A box of parts: a range for every attribute. */
  type Box = map<char, MinMax>

  /** A single part's ratings, as in part 1. */
  type Point = map<char, nat>

  /** A box waiting at a workflow. */
  datatype ToProcess = ToProcess(possibilities: Box, workflow: string)

  /** Boxes sent on by one or more workflows: those accepted and those
    * queued at another workflow. */
  datatype Pieces = Pieces(accepted: seq<Box>, queued: seq<ToProcess>)

  /** Every part starts with x, m, a and s each in [1, 4000] at "in". */
  const InitialBox: Box := map['x' := (1, 4000), 'm' := (1, 4000), 'a' := (1, 4000), 's' := (1, 4000)]

  /** The rating lies in the range, if there is one. */
  predicate Within(v: nat, range: Option<MinMax>) {
    range.Some? && range.value.0 <= v <= range.value.1
  }

  /** The range is not empty. */
  predicate Proper(range: MinMax) {
    range.0 <= range.1
  }

  /** `match_rule`: split a range into the ratings the rule applies to and
    * the ratings it does not; either may be missing. */
  function MatchRule(rule: Rule, minMax: MinMax): (r: (Option<MinMax>, Option<MinMax>))
    ensures forall v | minMax.0 <= v <= minMax.1 ::
              (Within(v, r.0) <==> Holds(rule.check, v)) && (Within(v, r.1) <==> !Holds(rule.check, v))
    ensures Proper(minMax) ==>
              (r.0.Some? ==> Proper(r.0.value) && minMax.0 <= r.0.value.0 && r.0.value.1 <= minMax.1) &&
              (r.1.Some? ==> Proper(r.1.value) && minMax.0 <= r.1.value.0 && r.1.value.1 <= minMax.1) &&
              (r.0.Some? || r.1.Some?)
  {
    var (min, max) := minMax;
    match rule.check
    case GreaterThan(amount) =>
      if amount < min then (Some(minMax), None)
      else if amount >= max then (None, Some(minMax))
      else (Some((amount + 1, max)), Some((min, amount)))
    case LessThan(amount) =>
      if amount > max then (Some(minMax), None)
      else if amount <= min then (None, Some(minMax))
      else (Some((min, amount - 1)), Some((amount, max)))
  }

  // ---------------------------------------------------------------------
  // Boxes and the points in them

  /** The point lies in the box: same attributes, each within its range. */
  predicate InBox(p: Point, box: Box) {
    p.Keys == box.Keys && forall k | k in box :: box[k].0 <= p[k] <= box[k].1
  }

  /** Box `b` lies inside box `c`. */
  predicate Inside(b: Box, c: Box) {
    b.Keys == c.Keys && forall k | k in b :: c[k].0 <= b[k].0 && b[k].1 <= c[k].1
  }

  /** No range of the box is empty. */
  predicate NonEmpty(box: Box) {
    forall k | k in box :: Proper(box[k])
  }

  /** The least point of a box. */
  function Corner(box: Box): (p: Point)
    ensures NonEmpty(box) ==> InBox(p, box)
  {
    map k | k in box :: box[k].0
  }

  lemma InsideInBox(p: Point, b: Box, c: Box)
    requires InBox(p, b) && Inside(b, c)
    ensures InBox(p, c)
  {
  }

  /** How many of the boxes hold the point. */
  function Count(p: Point, boxes: seq<Box>): nat {
    if boxes == [] then 0 else (if InBox(p, boxes[0]) then 1 else 0) + Count(p, boxes[1..])
  }

  /** How many of the queued boxes hold the point. */
  function CountQ(p: Point, queue: seq<ToProcess>): nat {
    if queue == [] then 0 else (if InBox(p, queue[0].possibilities) then 1 else 0) + CountQ(p, queue[1..])
  }

  lemma {:induction false} CountAppend(p: Point, a: seq<Box>, b: seq<Box>)
    ensures Count(p, a + b) == Count(p, a) + Count(p, b)
  {
    if a != [] {
      assert (a + b)[1..] == a[1..] + b;
      CountAppend(p, a[1..], b);
    } else {
      assert a + b == b;
    }
  }

  lemma {:induction false} CountQAppend(p: Point, a: seq<ToProcess>, b: seq<ToProcess>)
    ensures CountQ(p, a + b) == CountQ(p, a) + CountQ(p, b)
  {
    if a != [] {
      assert (a + b)[1..] == a[1..] + b;
      CountQAppend(p, a[1..], b);
    } else {
      assert a + b == b;
    }
  }

  /** A point is counted exactly when some box holds it. */
  lemma {:induction false} CountPositive(p: Point, boxes: seq<Box>)
    ensures Count(p, boxes) > 0 <==> exists k | 0 <= k < |boxes| :: InBox(p, boxes[k])
  {
    if boxes != [] {
      CountPositive(p, boxes[1..]);
      if exists k | 0 <= k < |boxes| :: InBox(p, boxes[k]) {
        var k :| 0 <= k < |boxes| && InBox(p, boxes[k]);
        if k > 0 {
          assert InBox(p, boxes[1..][k - 1]);
        }
      }
      if exists k | 0 <= k < |boxes[1..]| :: InBox(p, boxes[1..][k]) {
        var k :| 0 <= k < |boxes[1..]| && InBox(p, boxes[1..][k]);
        assert InBox(p, boxes[k + 1]);
      }
    }
  }

  /** A queued box holding the point is counted. */
  lemma {:induction false} CountQPositive(p: Point, queue: seq<ToProcess>, k: nat)
    requires k < |queue| && InBox(p, queue[k].possibilities)
    ensures CountQ(p, queue) > 0
  {
    if k > 0 {
      CountQPositive(p, queue[1..], k - 1);
    }
  }

  /** No box inside `box` holds a point outside it. */
  lemma {:induction false} CountOutside(p: Point, boxes: seq<Box>, box: Box)
    requires !InBox(p, box) && forall k | 0 <= k < |boxes| :: Inside(boxes[k], box)
    ensures Count(p, boxes) == 0
  {
    if boxes != [] {
      if InBox(p, boxes[0]) {
        InsideInBox(p, boxes[0], box);
      }
      CountOutside(p, boxes[1..], box);
    }
  }

  lemma {:induction false} CountQOutside(p: Point, queue: seq<ToProcess>, box: Box)
    requires !InBox(p, box) && forall k | 0 <= k < |queue| :: Inside(queue[k].possibilities, box)
    ensures CountQ(p, queue) == 0
  {
    if queue != [] {
      if InBox(p, queue[0].possibilities) {
        InsideInBox(p, queue[0].possibilities, box);
      }
      CountQOutside(p, queue[1..], box);
    }
  }

  // ---------------------------------------------------------------------
  // One workflow

  /** `process_matched_part` and the default at the end of `process_next`:
    * an accepted box is kept, a box for a workflow is queued there, a
    * rejected box is dropped. */
  function Dispatch(destination: Destination, box: Box): (r: Pieces)
    ensures |r.accepted| + |r.queued| <= 1
    ensures r.accepted != [] <==> destination.Accepted?
    ensures r.queued != [] <==> destination.Forward?
    ensures forall b | b in r.accepted :: b == box
    ensures forall t | t in r.queued :: t == ToProcess(box, destination.name)
  {
    match destination
    case Accepted => Pieces([box], [])
    case Forward(name) => Pieces([], [ToProcess(box, name)])
    case Rejected => Pieces([], [])
  }

  /** The pieces of both, in order. */
  function Join(a: Pieces, b: Pieces): Pieces {
    Pieces(a.accepted + b.accepted, a.queued + b.queued)
  }

  /** The rule loop of `process_next` from the box still unmatched: each
    * rule dispatches the piece it applies to and passes the rest on; what
    * no rule takes goes to the unmatched destination. A rule on an
    * attribute the box lacks is an error. */
  function SplitRules(rules: seq<Rule>, current: Option<Box>, unmatched: Destination): Result<Pieces> {
    if current.None? then Ok(Pieces([], []))
    else if rules == [] then Ok(Dispatch(unmatched, current.value))
    else
      var rule := rules[0];
      var box := current.value;
      if rule.attribute !in box then Err("Rule attribute not found in possibilities")
      else
        var (matched, rest) := MatchRule(rule, box[rule.attribute]);
        var here := if matched.Some? then Dispatch(rule.destination, box[rule.attribute := matched.value])
                    else Pieces([], []);
        var next := if rest.Some? then Some(box[rule.attribute := rest.value]) else None;
        var later :- SplitRules(rules[1..], next, unmatched);
        Ok(Join(here, later))
  }

  /** Everything `process_next` does to the box waiting at a workflow; a
    * missing workflow is an error. */
  function Processed(workflows: map<string, Workflow>, item: ToProcess): Result<Pieces> {
    if item.workflow !in workflows then Err("No workflow found")
    else
      var workflow := workflows[item.workflow];
      SplitRules(workflow.rules, Some(item.possibilities), workflow.unmatchedDestination)
  }

  lemma JoinAssociative(a: Pieces, b: Pieces, c: Pieces)
    ensures Join(a, Join(b, c)) == Join(Join(a, b), c)
  {
    assert a.accepted + (b.accepted + c.accepted) == (a.accepted + b.accepted) + c.accepted;
    assert a.queued + (b.queued + c.queued) == (a.queued + b.queued) + c.queued;
  }

  /** The first rule's piece joins what came before; the rest of the box
    * goes on to the remaining rules. */
  lemma SplitFirst(start: Pieces, rules: seq<Rule>, box: Box, unmatched: Destination)
    requires rules != [] && rules[0].attribute in box
    ensures var rule := rules[0];
            var (matched, rest) := MatchRule(rule, box[rule.attribute]);
            var next := if rest.Some? then Some(box[rule.attribute := rest.value]) else None;
            var start' := if matched.Some? then Join(start, Dispatch(rule.destination, box[rule.attribute := matched.value]))
                          else start;
            Extend(start, SplitRules(rules, Some(box), unmatched)) == Extend(start', SplitRules(rules[1..], next, unmatched))
  {
    var rule := rules[0];
    var (matched, rest) := MatchRule(rule, box[rule.attribute]);
    var here := if matched.Some? then Dispatch(rule.destination, box[rule.attribute := matched.value])
                else Pieces([], []);
    var next := if rest.Some? then Some(box[rule.attribute := rest.value]) else None;
    var later := SplitRules(rules[1..], next, unmatched);
    if later.Ok? {
      JoinAssociative(start, here, later.value);
    }
    assert Join(start, Pieces([], [])) == start;
  }

  /** `start` followed by the pieces `r` adds, or `r`'s error. */
  function Extend(start: Pieces, r: Result<Pieces>): Result<Pieces> {
    if r.Err? then Err(r.error) else Ok(Join(start, r.value))
  }

  /** Box `b` lies inside `box`, and is not empty when `box` is not. */
  predicate Fits(b: Box, box: Box) {
    Inside(b, box) && (NonEmpty(box) ==> NonEmpty(b))
  }

  /** Every piece fits in `box`. */
  predicate PiecesFit(pieces: Pieces, box: Box) {
    && (forall k | 0 <= k < |pieces.accepted| :: Fits(pieces.accepted[k], box))
    && (forall k | 0 <= k < |pieces.queued| :: Fits(pieces.queued[k].possibilities, box))
  }

  lemma FitsNarrowed(box: Box, attribute: char, range: MinMax)
    requires attribute in box && box[attribute].0 <= range.0 && range.1 <= box[attribute].1
    requires Proper(box[attribute]) ==> Proper(range)
    ensures Fits(box[attribute := range], box)
  {
  }

  lemma FitsTrans(a: Box, b: Box, c: Box)
    requires Fits(a, b) && Fits(b, c)
    ensures Fits(a, c)
  {
  }

  lemma PiecesFitDispatch(destination: Destination, b: Box, box: Box)
    requires Fits(b, box)
    ensures PiecesFit(Dispatch(destination, b), box)
  {
  }

  lemma PiecesFitJoin(a: Pieces, b: Pieces, box: Box)
    requires PiecesFit(a, box) && PiecesFit(b, box)
    ensures PiecesFit(Join(a, b), box)
  {
    var j := Join(a, b);
    assert forall k | 0 <= k < |j.accepted| :: j.accepted[k] == if k < |a.accepted| then a.accepted[k] else b.accepted[k - |a.accepted|];
    assert forall k | 0 <= k < |j.queued| :: j.queued[k] == if k < |a.queued| then a.queued[k] else b.queued[k - |a.queued|];
  }

  lemma PiecesFitWiden(pieces: Pieces, next: Box, box: Box)
    requires PiecesFit(pieces, next) && Fits(next, box)
    ensures PiecesFit(pieces, box)
  {
    forall k | 0 <= k < |pieces.accepted|
      ensures Fits(pieces.accepted[k], box)
    {
      FitsTrans(pieces.accepted[k], next, box);
    }
    forall k | 0 <= k < |pieces.queued|
      ensures Fits(pieces.queued[k].possibilities, box)
    {
      FitsTrans(pieces.queued[k].possibilities, next, box);
    }
  }

  /** Every piece lies inside the box it was cut from, and is not empty
    * when that box is not. */
  lemma {:induction false} SplitInside(rules: seq<Rule>, box: Box, unmatched: Destination)
    requires SplitRules(rules, Some(box), unmatched).Ok?
    ensures PiecesFit(SplitRules(rules, Some(box), unmatched).value, box)
  {
    if rules == [] {
      PiecesFitDispatch(unmatched, box, box);
    } else {
      var rule := rules[0];
      var (matched, rest) := MatchRule(rule, box[rule.attribute]);
      var here := if matched.Some? then Dispatch(rule.destination, box[rule.attribute := matched.value])
                  else Pieces([], []);
      if matched.Some? {
        FitsNarrowed(box, rule.attribute, matched.value);
        PiecesFitDispatch(rule.destination, box[rule.attribute := matched.value], box);
      }
      var next := if rest.Some? then Some(box[rule.attribute := rest.value]) else None;
      var later := SplitRules(rules[1..], next, unmatched).value;
      if rest.Some? {
        SplitInside(rules[1..], next.value, unmatched);
        FitsNarrowed(box, rule.attribute, rest.value);
        PiecesFitWiden(later, next.value, box);
      }
      PiecesFitJoin(here, later, box);
    }
  }

  /** The pieces hold the point once, accepted or queued at a workflow as
    * `destination` says, and hold it nowhere when it is rejected. */
  predicate PointGoes(p: Point, pieces: Pieces, destination: Destination) {
    && Count(p, pieces.accepted) == (if destination.Accepted? then 1 else 0)
    && CountQ(p, pieces.queued) == (if destination.Forward? then 1 else 0)
    && forall k | 0 <= k < |pieces.queued| && InBox(p, pieces.queued[k].possibilities) ::
         destination == Forward(pieces.queued[k].workflow)
  }

  /** No piece holds the point. */
  predicate NoPoint(p: Point, pieces: Pieces) {
    Count(p, pieces.accepted) == 0 && CountQ(p, pieces.queued) == 0
  }

  lemma DispatchPoint(destination: Destination, b: Box, p: Point)
    ensures InBox(p, b) ==> PointGoes(p, Dispatch(destination, b), destination)
    ensures !InBox(p, b) ==> NoPoint(p, Dispatch(destination, b))
  {
  }

  lemma PointGoesJoin(p: Point, a: Pieces, b: Pieces, destination: Destination)
    requires (PointGoes(p, a, destination) && NoPoint(p, b)) || (NoPoint(p, a) && PointGoes(p, b, destination))
    ensures PointGoes(p, Join(a, b), destination)
  {
    CountAppend(p, a.accepted, b.accepted);
    CountQAppend(p, a.queued, b.queued);
    var q := a.queued + b.queued;
    forall k | 0 <= k < |q| && InBox(p, q[k].possibilities)
      ensures destination == Forward(q[k].workflow)
    {
      if k < |a.queued| {
        assert q[k] == a.queued[k];
        if NoPoint(p, a) {
          CountQPositive(p, a.queued, k);
        }
      } else {
        assert q[k] == b.queued[k - |a.queued|];
        if NoPoint(p, b) {
          CountQPositive(p, b.queued, k - |a.queued|);
        }
      }
    }
  }

  lemma NoPointInside(p: Point, pieces: Pieces, box: Box)
    requires PiecesFit(pieces, box) && !InBox(p, box)
    ensures NoPoint(p, pieces)
  {
    CountOutside(p, pieces.accepted, box);
    CountQOutside(p, pieces.queued, box);
  }

  /** A point of the box ends up where a single part with its ratings goes
    * in part 1: the rules split the box along the same comparisons. */
  lemma {:induction false} SplitPoint(rules: seq<Rule>, box: Box, unmatched: Destination, p: Point)
    requires SplitRules(rules, Some(box), unmatched).Ok? && InBox(p, box)
    ensures FirstMatch(rules, p).Ok?
    ensures PointGoes(p, SplitRules(rules, Some(box), unmatched).value,
                      FirstMatch(rules, p).value.UnwrapOr(unmatched))
  {
    if rules == [] {
      DispatchPoint(unmatched, box, p);
    } else {
      var rule := rules[0];
      var a := rule.attribute;
      var (matched, rest) := MatchRule(rule, box[a]);
      var here := if matched.Some? then Dispatch(rule.destination, box[a := matched.value])
                  else Pieces([], []);
      var next := if rest.Some? then Some(box[a := rest.value]) else None;
      var later := SplitRules(rules[1..], next, unmatched).value;
      assert SplitRules(rules, Some(box), unmatched).value == Join(here, later);
      if Holds(rule.check, p[a]) {
        assert InBox(p, box[a := matched.value]);
        DispatchPoint(rule.destination, box[a := matched.value], p);
        if rest.Some? {
          SplitInside(rules[1..], next.value, unmatched);
          NoPointInside(p, later, next.value);
        }
        PointGoesJoin(p, here, later, rule.destination);
      } else {
        if matched.Some? {
          DispatchPoint(rule.destination, box[a := matched.value], p);
        }
        assert InBox(p, next.value);
        SplitPoint(rules[1..], next.value, unmatched, p);
        PointGoesJoin(p, here, later, FirstMatch(rules, p).value.UnwrapOr(unmatched));
      }
    }
  }

  /** When the rules fail on a non-empty box, some single part in the box
    * fails in part 1 too. */
  lemma {:induction false} SplitError(rules: seq<Rule>, box: Box, unmatched: Destination)
    requires NonEmpty(box) && SplitRules(rules, Some(box), unmatched).Err?
    ensures exists p :: InBox(p, box) && FirstMatch(rules, p).Err?
  {
    var rule := rules[0];
    var a := rule.attribute;
    if a !in box {
      var p := Corner(box);
      assert FirstMatch(rules, p).Err?;
    } else {
      var (matched, rest) := MatchRule(rule, box[a]);
      var next := box[a := rest.value];
      SplitError(rules[1..], next, unmatched);
      var p :| InBox(p, next) && FirstMatch(rules[1..], p).Err?;
      FitsNarrowed(box, a, rest.value);
      InsideInBox(p, next, box);
      assert Within(p[a], rest);
      assert FirstMatch(rules, p).Err?;
    }
  }

  /** `process_next`: cut the box waiting at a workflow along its rules,
    * adding the accepted pieces to `accepted` and the forwarded ones to the
    * back of `toProcess`. */
  method ProcessNext(workflows: map<string, Workflow>, accepted: seq<Box>, toProcess: seq<ToProcess>,
                     thisOne: ToProcess) returns (r: Result<Pieces>)
    ensures r == Extend(Pieces(accepted, toProcess), Processed(workflows, thisOne))
  {
    if thisOne.workflow !in workflows {
      return Err("No workflow found");
    }
    var workflow := workflows[thisOne.workflow];
    var rules := workflow.rules;
    var pieces := Pieces(accepted, toProcess);
    var current: Option<Box> := Some(thisOne.possibilities);
    for i := 0 to |rules|
      invariant Extend(pieces, SplitRules(rules[i..], current, workflow.unmatchedDestination)) ==
                Extend(Pieces(accepted, toProcess), Processed(workflows, thisOne))
    {
      var rule := rules[i];
      assert rules[i..][1..] == rules[i + 1..];
      if current.Some? {
        var possibilities := current.value;
        if rule.attribute !in possibilities {
          return Err("Rule attribute not found in possibilities");
        }
        var (matched, unmatched) := MatchRule(rule, possibilities[rule.attribute]);
        SplitFirst(pieces, rules[i..], possibilities, workflow.unmatchedDestination);
        if matched.Some? {
          pieces := Join(pieces, Dispatch(rule.destination, possibilities[rule.attribute := matched.value]));
        }
        current := if unmatched.Some? then Some(possibilities[rule.attribute := unmatched.value]) else None;
      }
    }
    assert rules[|rules|..] == [];
    if current.Some? {
      pieces := Join(pieces, Dispatch(workflow.unmatchedDestination, current.value));
    } else {
      assert Join(pieces, Pieces([], [])) == pieces;
    }
    r := Ok(pieces);
  }

  // ---------------------------------------------------------------------
  // Sizes of boxes

  /** The number of ratings in a range. */
  function Width(range: MinMax): int {
    range.1 - range.0 + 1
  }

  /** The number of parts in a box: the product of its widths, taken in
    * increasing order of the attributes. */
  function Volume(box: Box): int
    decreases |box|
  {
    if box == map[] then 1
    else
      var k := LeastKey(box);
      Width(box[k]) * Volume(box - {k})
  }

  /** The product does not depend on the order the attributes are taken
    * in: any attribute's width can be taken out first. */
  lemma {:induction false} VolumeRemove(box: Box, k: char)
    requires k in box
    ensures Volume(box) == Width(box[k]) * Volume(box - {k})
    decreases |box|
  {
    var j := LeastKey(box);
    if j != k {
      var rest := box - {j};
      VolumeRemove(rest, k);
      VolumeRemove(box - {k}, j);
      assert rest - {k} == (box - {k}) - {j};
      assert (box - {k})[j] == box[j] && rest[k] == box[k];
      var x := Volume(rest - {k});
      assert Volume(box) == Width(box[j]) * (Width(box[k]) * x);
      assert Volume(box - {k}) == Width(box[j]) * x;
      MulSwap(Width(box[j]), Width(box[k]), x);
    }
  }

  lemma MulAtLeastOne(a: int, b: int)
    requires a >= 1 && b >= 1
    ensures a * b >= 1
  {
  }

  lemma MulSwap(a: int, b: int, c: int)
    ensures a * (b * c) == b * (a * c)
  {
  }

  /** An x, m, a, s box holds the product of its four widths. */
  lemma XmasVolume(box: Box)
    requires box.Keys == {'x', 'm', 'a', 's'}
    ensures Volume(box) == Width(box['x']) * (Width(box['m']) * (Width(box['a']) * Width(box['s'])))
  {
    var b1 := box - {'x'};
    var b2 := b1 - {'m'};
    var b3 := b2 - {'a'};
    assert b3 - {'s'} == map[];
    VolumeRemove(b3, 's');
    assert Volume(b3) == Width(box['s']);
    VolumeRemove(b2, 'a');
    VolumeRemove(b1, 'm');
    VolumeRemove(box, 'x');
  }

  /** A box with no empty range holds at least one part. */
  lemma {:induction false} VolumePositive(box: Box)
    requires NonEmpty(box)
    ensures Volume(box) >= 1
    decreases |box|
  {
    if box != map[] {
      var k := LeastKey(box);
      VolumePositive(box - {k});
      assert Proper(box[k]);
      MulAtLeastOne(Width(box[k]), Volume(box - {k}));
    }
  }

  /** The summed volumes of the boxes; at least one part per box when
    * none is empty. */
  function TotalVolume(boxes: seq<Box>): (r: int)
    ensures (forall k | 0 <= k < |boxes| :: NonEmpty(boxes[k])) ==> r >= |boxes|
  {
    if boxes == [] then 0
    else
      if NonEmpty(boxes[0]) then VolumePositive(boxes[0]); Volume(boxes[0]) + TotalVolume(boxes[1..])
      else Volume(boxes[0]) + TotalVolume(boxes[1..])
  }

  // ---------------------------------------------------------------------
  // The queue

  /** How many workflow visits a box at `name` can still lead to: one for
    * this workflow and those of every workflow it forwards to. Finite
    * because the workflows are ranked. */
  ghost function Weight(workflows: map<string, Workflow>, rank: map<string, nat>, name: string): nat
    requires Ranked(workflows, rank)
    decreases if name in workflows then rank[name] + 1 else 0, 0
  {
    if name !in workflows then 0
    else 1 + ExitsWeight(workflows, rank, Exits(workflows[name]), rank[name])
  }

  /** The weights of the workflows the destinations forward to. */
  ghost function ExitsWeight(workflows: map<string, Workflow>, rank: map<string, nat>,
                             exits: seq<Destination>, bound: nat): nat
    requires Ranked(workflows, rank)
    requires forall d | d in exits && d.Forward? && d.name in workflows :: d.name in rank && rank[d.name] < bound
    decreases bound, |exits|
  {
    if exits == [] then 0
    else
      (if exits[0].Forward? && exits[0].name in workflows then Weight(workflows, rank, exits[0].name) else 0)
      + ExitsWeight(workflows, rank, exits[1..], bound)
  }

  /** The weights of the queued boxes' workflows. */
  ghost function QueueWeight(workflows: map<string, Workflow>, rank: map<string, nat>,
                             queue: seq<ToProcess>): nat
    requires Ranked(workflows, rank)
  {
    if queue == [] then 0
    else Weight(workflows, rank, queue[0].workflow) + QueueWeight(workflows, rank, queue[1..])
  }

  lemma {:induction false} QueueWeightAppend(workflows: map<string, Workflow>, rank: map<string, nat>,
                                             a: seq<ToProcess>, b: seq<ToProcess>)
    requires Ranked(workflows, rank)
    ensures QueueWeight(workflows, rank, a + b) == QueueWeight(workflows, rank, a) + QueueWeight(workflows, rank, b)
  {
    if a != [] {
      assert (a + b)[1..] == a[1..] + b;
      QueueWeightAppend(workflows, rank, a[1..], b);
    } else {
      assert a + b == b;
    }
  }

  lemma ExitsWeightFirst(workflows: map<string, Workflow>, rank: map<string, nat>,
                         exits: seq<Destination>, bound: nat)
    requires Ranked(workflows, rank) && exits != []
    requires forall d | d in exits && d.Forward? && d.name in workflows :: d.name in rank && rank[d.name] < bound
    ensures ExitsWeight(workflows, rank, exits, bound) ==
            (if exits[0].Forward? then Weight(workflows, rank, exits[0].name) else 0) +
            ExitsWeight(workflows, rank, exits[1..], bound)
  {
  }

  lemma DispatchWeight(workflows: map<string, Workflow>, rank: map<string, nat>, destination: Destination, box: Box)
    requires Ranked(workflows, rank)
    ensures QueueWeight(workflows, rank, Dispatch(destination, box).queued) ==
            if destination.Forward? then Weight(workflows, rank, destination.name) else 0
  {
  }

  /** Cutting a box along some rules queues boxes at most once per
    * destination of those rules. */
  lemma {:induction false} SplitWeight(workflows: map<string, Workflow>, rank: map<string, nat>,
                                       rules: seq<Rule>, current: Option<Box>, unmatched: Destination, bound: nat)
    requires Ranked(workflows, rank) && SplitRules(rules, current, unmatched).Ok?
    requires forall d | d in Destinations(rules) + [unmatched] && d.Forward? && d.name in workflows ::
               d.name in rank && rank[d.name] < bound
    ensures QueueWeight(workflows, rank, SplitRules(rules, current, unmatched).value.queued) <=
            ExitsWeight(workflows, rank, Destinations(rules) + [unmatched], bound)
  {
    var exits := Destinations(rules) + [unmatched];
    if current.Some? {
      if rules == [] {
        assert exits == [unmatched];
        DispatchWeight(workflows, rank, unmatched, current.value);
        ExitsWeightFirst(workflows, rank, exits, bound);
      } else {
        var rule := rules[0];
        var box := current.value;
        var (matched, rest) := MatchRule(rule, box[rule.attribute]);
        var here := if matched.Some? then Dispatch(rule.destination, box[rule.attribute := matched.value])
                    else Pieces([], []);
        var next := if rest.Some? then Some(box[rule.attribute := rest.value]) else None;
        var later := SplitRules(rules[1..], next, unmatched).value;
        assert exits[0] == rule.destination;
        assert exits[1..] == Destinations(rules[1..]) + [unmatched];
        SplitWeight(workflows, rank, rules[1..], next, unmatched, bound);
        QueueWeightAppend(workflows, rank, here.queued, later.queued);
        if matched.Some? {
          DispatchWeight(workflows, rank, rule.destination, box[rule.attribute := matched.value]);
        }
        ExitsWeightFirst(workflows, rank, exits, bound);
      }
    }
  }

  // ---------------------------------------------------------------------
  // The pump of `perform_processing_2`

  /** Every point of an accepted box is a part that part 1 accepts. */
  ghost predicate AcceptedSound(workflows: map<string, Workflow>, rank: map<string, nat>, accepted: seq<Box>)
    requires Ranked(workflows, rank)
  {
    forall k, p | 0 <= k < |accepted| && InBox(p, accepted[k]) ::
      Route(workflows, rank, p, InitialWorkflow) == Ok(true)
  }

  /** Every point of a queued box is at a workflow on its own route. */
  ghost predicate OnPath(workflows: map<string, Workflow>, rank: map<string, nat>, queue: seq<ToProcess>)
    requires Ranked(workflows, rank)
  {
    forall k, p | 0 <= k < |queue| && InBox(p, queue[k].possibilities) ::
      Route(workflows, rank, p, queue[k].workflow) == Route(workflows, rank, p, InitialWorkflow)
  }

  /** Every starting part not yet rejected is held by exactly one box,
    * accepted or queued. */
  ghost predicate CoveredOnce(workflows: map<string, Workflow>, rank: map<string, nat>,
                              accepted: seq<Box>, queue: seq<ToProcess>)
    requires Ranked(workflows, rank)
  {
    forall p | InBox(p, InitialBox) && Route(workflows, rank, p, InitialWorkflow) != Ok(false) ::
      Count(p, accepted) + CountQ(p, queue) == 1
  }

  /** The invariant of the pump. */
  ghost predicate Pumping(workflows: map<string, Workflow>, rank: map<string, nat>,
                          accepted: seq<Box>, queue: seq<ToProcess>)
    requires Ranked(workflows, rank)
  {
    && PiecesFit(Pieces(accepted, queue), InitialBox)
    && AcceptedSound(workflows, rank, accepted)
    && OnPath(workflows, rank, queue)
    && CoveredOnce(workflows, rank, accepted, queue)
  }

  lemma PumpStart(workflows: map<string, Workflow>, rank: map<string, nat>)
    requires Ranked(workflows, rank)
    ensures Pumping(workflows, rank, [], [ToProcess(InitialBox, InitialWorkflow)])
  {
    forall p | InBox(p, InitialBox)
      ensures CountQ(p, [ToProcess(InitialBox, InitialWorkflow)]) == 1
    {
    }
  }

  /** Where the rules of the workflow a point waits at send it. */
  lemma RouteStep(workflows: map<string, Workflow>, rank: map<string, nat>, item: ToProcess, p: Point)
    requires Ranked(workflows, rank) && item.workflow in workflows
    requires var w := workflows[item.workflow];
             SplitRules(w.rules, Some(item.possibilities), w.unmatchedDestination).Ok?
    requires InBox(p, item.possibilities)
    ensures FirstMatch(workflows[item.workflow].rules, p).Ok?
    ensures var w := workflows[item.workflow];
            var d := FirstMatch(w.rules, p).value.UnwrapOr(w.unmatchedDestination);
            && PointGoes(p, SplitRules(w.rules, Some(item.possibilities), w.unmatchedDestination).value, d)
            && Route(workflows, rank, p, item.workflow) ==
               match d
               case Accepted => Ok(true)
               case Rejected => Ok(false)
               case Forward(next) => Route(workflows, rank, p, next)
  {
    var w := workflows[item.workflow];
    SplitPoint(w.rules, item.possibilities, w.unmatchedDestination, p);
  }

  lemma PumpFits(workflows: map<string, Workflow>, rank: map<string, nat>,
                 accepted: seq<Box>, queue: seq<ToProcess>, pieces: Pieces)
    requires Ranked(workflows, rank) && queue != [] && PiecesFit(Pieces(accepted, queue), InitialBox)
    requires Processed(workflows, queue[0]) == Ok(pieces)
    ensures PiecesFit(Join(Pieces(accepted, queue[1..]), pieces), InitialBox)
  {
    var w := workflows[queue[0].workflow];
    SplitInside(w.rules, queue[0].possibilities, w.unmatchedDestination);
    PiecesFitWiden(pieces, queue[0].possibilities, InitialBox);
    assert PiecesFit(Pieces(accepted, queue[1..]), InitialBox) by {
      assert forall k | 0 <= k < |queue[1..]| :: queue[1..][k] == queue[k + 1];
    }
    PiecesFitJoin(Pieces(accepted, queue[1..]), pieces, InitialBox);
  }

  /** A point of a box a workflow accepts is accepted by that workflow. */
  lemma AcceptedByStep(workflows: map<string, Workflow>, rank: map<string, nat>,
                       item: ToProcess, pieces: Pieces, j: nat, p: Point)
    requires Ranked(workflows, rank) && Processed(workflows, item) == Ok(pieces)
    requires j < |pieces.accepted| && InBox(p, pieces.accepted[j])
    ensures InBox(p, item.possibilities)
    ensures Route(workflows, rank, p, item.workflow) == Ok(true)
  {
    var w := workflows[item.workflow];
    SplitInside(w.rules, item.possibilities, w.unmatchedDestination);
    InsideInBox(p, pieces.accepted[j], item.possibilities);
    RouteStep(workflows, rank, item, p);
    CountPositive(p, pieces.accepted);
  }

  lemma PumpSound(workflows: map<string, Workflow>, rank: map<string, nat>,
                  accepted: seq<Box>, queue: seq<ToProcess>, pieces: Pieces)
    requires Ranked(workflows, rank) && queue != [] && Pumping(workflows, rank, accepted, queue)
    requires Processed(workflows, queue[0]) == Ok(pieces)
    ensures AcceptedSound(workflows, rank, accepted + pieces.accepted)
  {
    var item := queue[0];
    var all := accepted + pieces.accepted;
    forall k, p | 0 <= k < |all| && InBox(p, all[k])
      ensures Route(workflows, rank, p, InitialWorkflow) == Ok(true)
    {
      if k >= |accepted| {
        var j := k - |accepted|;
        assert all[k] == pieces.accepted[j];
        AcceptedByStep(workflows, rank, item, pieces, j, p);
      } else {
        assert all[k] == accepted[k];
      }
    }
  }

  /** A point of a box queued at `next` by a workflow is sent to `next`
    * by that workflow. */
  lemma QueuedOnPath(workflows: map<string, Workflow>, rank: map<string, nat>,
                     item: ToProcess, pieces: Pieces, j: nat, p: Point)
    requires Ranked(workflows, rank) && Processed(workflows, item) == Ok(pieces)
    requires j < |pieces.queued| && InBox(p, pieces.queued[j].possibilities)
    ensures InBox(p, item.possibilities)
    ensures Route(workflows, rank, p, pieces.queued[j].workflow) == Route(workflows, rank, p, item.workflow)
  {
    var w := workflows[item.workflow];
    SplitInside(w.rules, item.possibilities, w.unmatchedDestination);
    InsideInBox(p, pieces.queued[j].possibilities, item.possibilities);
    RouteStep(workflows, rank, item, p);
  }

  lemma PumpOnPath(workflows: map<string, Workflow>, rank: map<string, nat>,
                   accepted: seq<Box>, queue: seq<ToProcess>, pieces: Pieces)
    requires Ranked(workflows, rank) && queue != [] && Pumping(workflows, rank, accepted, queue)
    requires Processed(workflows, queue[0]) == Ok(pieces)
    ensures OnPath(workflows, rank, queue[1..] + pieces.queued)
  {
    var item := queue[0];
    var all := queue[1..] + pieces.queued;
    forall k, p | 0 <= k < |all| && InBox(p, all[k].possibilities)
      ensures Route(workflows, rank, p, all[k].workflow) == Route(workflows, rank, p, InitialWorkflow)
    {
      if k >= |queue| - 1 {
        var j := k - (|queue| - 1);
        assert all[k] == pieces.queued[j];
        QueuedOnPath(workflows, rank, item, pieces, j, p);
      } else {
        assert all[k] == queue[k + 1];
      }
    }
  }

  lemma PumpCovered(workflows: map<string, Workflow>, rank: map<string, nat>,
                    accepted: seq<Box>, queue: seq<ToProcess>, pieces: Pieces)
    requires Ranked(workflows, rank) && queue != [] && Pumping(workflows, rank, accepted, queue)
    requires Processed(workflows, queue[0]) == Ok(pieces)
    ensures CoveredOnce(workflows, rank, accepted + pieces.accepted, queue[1..] + pieces.queued)
  {
    var item := queue[0];
    var w := workflows[item.workflow];
    SplitInside(w.rules, item.possibilities, w.unmatchedDestination);
    forall p | InBox(p, InitialBox) && Route(workflows, rank, p, InitialWorkflow) != Ok(false)
      ensures Count(p, accepted + pieces.accepted) + CountQ(p, queue[1..] + pieces.queued) == 1
    {
      CountAppend(p, accepted, pieces.accepted);
      CountQAppend(p, queue[1..], pieces.queued);
      if InBox(p, item.possibilities) {
        RouteStep(workflows, rank, item, p);
      } else {
        NoPointInside(p, pieces, item.possibilities);
      }
    }
  }

  /** One turn of the pump keeps its invariant, and the queue's weight
    * goes down. */
  lemma PumpStep(workflows: map<string, Workflow>, rank: map<string, nat>,
                 accepted: seq<Box>, queue: seq<ToProcess>, pieces: Pieces)
    requires Ranked(workflows, rank) && queue != [] && Pumping(workflows, rank, accepted, queue)
    requires Processed(workflows, queue[0]) == Ok(pieces)
    ensures Pumping(workflows, rank, accepted + pieces.accepted, queue[1..] + pieces.queued)
    ensures QueueWeight(workflows, rank, queue[1..] + pieces.queued) < QueueWeight(workflows, rank, queue)
  {
    PumpFits(workflows, rank, accepted, queue, pieces);
    PumpSound(workflows, rank, accepted, queue, pieces);
    PumpOnPath(workflows, rank, accepted, queue, pieces);
    PumpCovered(workflows, rank, accepted, queue, pieces);
    var w := workflows[queue[0].workflow];
    SplitWeight(workflows, rank, w.rules, Some(queue[0].possibilities), w.unmatchedDestination, rank[queue[0].workflow]);
    QueueWeightAppend(workflows, rank, queue[1..], pieces.queued);
  }

  /** When the pump fails on a box, some starting part fails in part 1. */
  lemma PumpError(workflows: map<string, Workflow>, rank: map<string, nat>,
                  accepted: seq<Box>, queue: seq<ToProcess>)
    requires Ranked(workflows, rank) && queue != [] && Pumping(workflows, rank, accepted, queue)
    requires Processed(workflows, queue[0]).Err?
    ensures exists p | InBox(p, InitialBox) :: Route(workflows, rank, p, InitialWorkflow).Err?
  {
    var item := queue[0];
    assert Fits(item.possibilities, InitialBox);
    var p: Point;
    if item.workflow !in workflows {
      p := Corner(item.possibilities);
    } else {
      var w := workflows[item.workflow];
      SplitError(w.rules, item.possibilities, w.unmatchedDestination);
      p :| InBox(p, item.possibilities) && FirstMatch(w.rules, p).Err?;
    }
    InsideInBox(p, item.possibilities, InitialBox);
    assert Route(workflows, rank, p, item.workflow).Err?;
  }

  /** Once the queue is empty, every starting part routes without error
    * and the accepted boxes hold exactly the accepted parts, once each. */
  lemma PumpDone(workflows: map<string, Workflow>, rank: map<string, nat>, accepted: seq<Box>)
    requires Ranked(workflows, rank) && Pumping(workflows, rank, accepted, [])
    ensures forall p | InBox(p, InitialBox) :: Route(workflows, rank, p, InitialWorkflow).Ok?
    ensures forall p | InBox(p, InitialBox) ::
              Count(p, accepted) == if Route(workflows, rank, p, InitialWorkflow) == Ok(true) then 1 else 0
  {
    forall p | InBox(p, InitialBox)
      ensures Route(workflows, rank, p, InitialWorkflow).Ok?
      ensures Count(p, accepted) == if Route(workflows, rank, p, InitialWorkflow) == Ok(true) then 1 else 0
    {
      CountPositive(p, accepted);
      if Count(p, accepted) > 0 {
        var k :| 0 <= k < |accepted| && InBox(p, accepted[k]);
      }
    }
  }

  /** `perform_processing_2`: push the box of all starting parts through
    * the workflows, cutting it as the rules say, and add up the sizes of
    * the accepted pieces. The accepted pieces are returned beside the
    * answer; the ranking is a proof device only. */
  method PerformProcessing2(state: State, ghost rank: map<string, nat>)
    returns (r: Result<nat>, ghost pieces: seq<Box>)
    requires Ranked(state.workflows, rank)
    ensures r.Err? <==> exists p | InBox(p, InitialBox) :: Route(state.workflows, rank, p, InitialWorkflow).Err?
    ensures r.Ok? ==> r.value == TotalVolume(pieces)
    ensures r.Ok? ==> forall p | InBox(p, InitialBox) ::
              Count(p, pieces) == if Route(state.workflows, rank, p, InitialWorkflow) == Ok(true) then 1 else 0
    ensures forall k | 0 <= k < |pieces| :: Inside(pieces[k], InitialBox) && NonEmpty(pieces[k])
  {
    var workflows := state.workflows;
    var accepted: seq<Box> := [];
    var toProcess := [ToProcess(InitialBox, InitialWorkflow)];
    PumpStart(workflows, rank);
    while toProcess != []
      invariant Pumping(workflows, rank, accepted, toProcess)
      decreases QueueWeight(workflows, rank, toProcess)
    {
      var nextToProcess := toProcess[0];
      var processed := ProcessNext(workflows, accepted, toProcess[1..], nextToProcess);
      if processed.Err? {
        PumpError(workflows, rank, accepted, toProcess);
        return Err(processed.error), [];
      }
      PumpStep(workflows, rank, accepted, toProcess, Processed(workflows, nextToProcess).value);
      accepted, toProcess := processed.value.accepted, processed.value.queued;
    }
    PumpDone(workflows, rank, accepted);
    pieces := accepted;
    r := Ok(TotalVolume(accepted));
  }
}
