// Snowverload: components wired to each other. Cutting exactly three
// wires splits the machine into two groups; the answer is the product of
// the two group sizes. Groups are found by a depth-first search that
// ignores the cut wires.
module Day25b {
  import opened Wrappers
  import opened Processor

  /** A wire between two components, kept in one direction only. */
  datatype Connection = Connection(from: string, to: string)

  /** The wiring: each component's name with the names it is wired to,
    * and every wire once. */
  datatype State = State(components: map<string, set<string>>, connections: set<Connection>)

  const Delimiters: set<char> := {':', ' '}

  /** `b` is listed among `a`'s connections. */
  predicate Linked(s: State, a: string, b: string) {
    a in s.components && b in s.components[a]
  }

  /** Every connection is listed at both ends. */
  predicate Symmetric(components: map<string, set<string>>) {
    forall a, b | a in components && b in components[a] :: b in components && a in components[b]
  }

  /** The wiring as the loader keeps it: connections listed at both ends,
    * each wire in the wire set in one direction exactly, and the wire set
    * holding exactly the listed connections. */
  predicate Valid(s: State) {
    Symmetric(s.components) &&
    (forall c | c in s.connections :: Linked(s, c.from, c.to)) &&
    (forall a, b | a in s.components && b in s.components[a] :: Connection(a, b) in s.connections || Connection(b, a) in s.connections) &&
    (forall c | c in s.connections && Connection(c.to, c.from) in s.connections :: c.to == c.from)
  }

  function Elems<T>(s: seq<T>): set<T> {
    set x | x in s
  }

  // ---------------------------------------------------------------------
  // Loading

  /** One wire read from a line: `name` lists `other` and `other`, added
    * if new, lists `name`; the wire is kept unless it is already kept in
    * either direction. */
  function Link(s: State, name: string, other: string): (r: State)
    requires name in s.components
    ensures r.components.Keys == s.components.Keys + {other}
    ensures forall a, b :: Linked(r, a, b) <==> Linked(s, a, b) || (a == name && b == other) || (b == name && a == other)
    ensures forall c :: c in r.connections <==>
              c in s.connections || (c == Connection(name, other) && Connection(other, name) !in s.connections)
  {
    var withOther := s.components[name := s.components[name] + {other}];
    var others := if other in withOther then withOther[other] else {};
    var components := withOther[other := others + {name}];
    var connections :=
      if Connection(name, other) !in s.connections && Connection(other, name) !in s.connections
      then s.connections + {Connection(name, other)}
      else s.connections;
    State(components, connections)
  }

  /** The loop over the rest of a line: every further word is wired to
    * `name`. The result lists exactly the old connections and the new
    * ones in both directions, and keeps a new wire only in the direction
    * `name` to other, and only when neither direction was kept before. */
  function AddLinks(s: State, name: string, others: seq<string>): (r: State)
    requires name in s.components
    ensures r.components.Keys == s.components.Keys + Elems(others)
    ensures forall a, b :: Linked(r, a, b) <==> Linked(s, a, b) || (a == name && b in others) || (b == name && a in others)
    ensures forall c :: c in r.connections <==>
              c in s.connections || (c.from == name && c.to in others && Connection(c.to, name) !in s.connections)
    decreases |others|
  {
    if others == [] then s
    else
      var next := Link(s, name, others[0]);
      var r := AddLinks(next, name, others[1..]);
      assert forall x :: x in others <==> x == others[0] || x in others[1..];
      assert Elems(others) == {others[0]} + Elems(others[1..]);
      r
  }

  /** `parse_line`: an empty line changes nothing; a line with no word is
    * an error; otherwise the first word names a component, added if new,
    * and it is wired to each following word. */
  function ParseLine(state: State, line: string): (r: Result<State>)
    ensures line == [] ==> r == Ok(state)
    ensures r.Err? <==> line != [] && NextWord(line, Delimiters).None?
    ensures r.Ok? && line != [] ==>
              var name := NextWord(line, Delimiters).value.text;
              var others := Words(NextWord(line, Delimiters).value.rest, Delimiters);
              r.value.components.Keys == state.components.Keys + {name} + Elems(others) &&
              (forall a, b :: Linked(r.value, a, b) <==>
                 Linked(state, a, b) || (a == name && b in others) || (b == name && a in others))
  {
    if line == [] then Ok(state)
    else
      match NextWord(line, Delimiters)
      case None => Err("Didn't find word")
      case Some(w) =>
        var components :=
          if w.text in state.components then state.components else state.components[w.text := {}];
        var named := State(components, state.connections);
        assert forall a, b :: Linked(named, a, b) <==> Linked(state, a, b);
        Ok(AddLinks(named, w.text, Words(w.rest, Delimiters)))
  }

  /** Wiring one pair keeps the wiring well formed. */
  lemma LinkKeepsValid(s: State, name: string, other: string)
    requires Valid(s) && name in s.components
    ensures Valid(Link(s, name, other))
  {
    var r := Link(s, name, other);
    assert Symmetric(r.components) by {
      forall a, b | a in r.components && b in r.components[a]
        ensures b in r.components && a in r.components[b]
      {
        assert Linked(r, a, b);
      }
    }
    forall a, b | a in r.components && b in r.components[a]
      ensures Connection(a, b) in r.connections || Connection(b, a) in r.connections
    {
      assert Linked(r, a, b);
    }
    forall c | c in r.connections && Connection(c.to, c.from) in r.connections
      ensures c.to == c.from
    {
    }
  }

  /** Wiring a line's words keeps the wiring well formed. */
  lemma {:induction false} AddLinksKeepsValid(s: State, name: string, others: seq<string>)
    requires Valid(s) && name in s.components
    ensures Valid(AddLinks(s, name, others))
    decreases |others|
  {
    if others != [] {
      LinkKeepsValid(s, name, others[0]);
      AddLinksKeepsValid(Link(s, name, others[0]), name, others[1..]);
    }
  }

  /** Reading a line keeps the wiring well formed: connections listed at
    * both ends, each wire kept once. */
  lemma ParseLineKeepsValid(state: State, line: string)
    requires Valid(state)
    ensures ParseLine(state, line).Ok? ==> Valid(ParseLine(state, line).value)
  {
    if line != [] && NextWord(line, Delimiters).Some? {
      var w := NextWord(line, Delimiters).value;
      var components :=
        if w.text in state.components then state.components else state.components[w.text := {}];
      var named := State(components, state.connections);
      assert forall a, b :: Linked(named, a, b) <==> Linked(state, a, b);
      AddLinksKeepsValid(named, w.text, Words(w.rest, Delimiters));
    }
  }

  /** A whole input loads into a well-formed wiring. */
  lemma {:induction false} ParsedValid(lines: seq<string>)
    ensures ParseLines(State(map[], {}), lines, ParseLine).Ok? ==>
              Valid(ParseLines(State(map[], {}), lines, ParseLine).value)
    decreases |lines|
  {
    if lines != [] {
      ParsedValid(lines[..|lines| - 1]);
      var before := ParseLines(State(map[], {}), lines[..|lines| - 1], ParseLine);
      if before.Ok? {
        ParseLineKeepsValid(before.value, lines[|lines| - 1]);
      }
    }
  }

  // ---------------------------------------------------------------------
  // Walks along uncut wires

  /** The wire between `a` and `b` is not cut, in either direction. */
  predicate Allowed(disconnected: set<Connection>, a: string, b: string) {
    Connection(a, b) !in disconnected && Connection(b, a) !in disconnected
  }

  /** The walk `p` steps from its `i`th component to the next along an
    * uncut wire. */
  ghost predicate Step(components: map<string, set<string>>, disconnected: set<Connection>, p: seq<string>, i: int) {
    0 <= i && i + 1 < |p| && p[i] in components && p[i + 1] in components &&
    p[i + 1] in components[p[i]] && Allowed(disconnected, p[i], p[i + 1])
  }

  /** A walk that starts at a component and steps only along uncut wires. */
  ghost predicate IsPath(components: map<string, set<string>>, disconnected: set<Connection>, p: seq<string>) {
    |p| > 0 && p[0] in components &&
    forall i | 0 <= i < |p| - 1 :: Step(components, disconnected, p, i)
  }

  /** Every component on a walk is a known component. */
  lemma PathMembers(components: map<string, set<string>>, disconnected: set<Connection>, p: seq<string>, k: int)
    requires IsPath(components, disconnected, p) && 0 <= k < |p|
    ensures p[k] in components
  {
    if k > 0 {
      assert Step(components, disconnected, p, k - 1);
    }
  }

  /** `b` can be reached from `a` without crossing a cut wire. */
  ghost predicate Reach(components: map<string, set<string>>, disconnected: set<Connection>, a: string, b: string) {
    exists p :: IsPath(components, disconnected, p) && p[0] == a && p[|p| - 1] == b
  }

  lemma ReachRefl(components: map<string, set<string>>, disconnected: set<Connection>, a: string)
    requires a in components
    ensures Reach(components, disconnected, a, a)
  {
    assert IsPath(components, disconnected, [a]);
  }

  /** A reached component's uncut wire extends the reach. */
  lemma ReachStep(components: map<string, set<string>>, disconnected: set<Connection>, a: string, b: string, c: string)
    requires Symmetric(components)
    requires Reach(components, disconnected, a, b) && b in components && c in components[b] && Allowed(disconnected, b, c)
    ensures Reach(components, disconnected, a, c)
  {
    var p :| IsPath(components, disconnected, p) && p[0] == a && p[|p| - 1] == b;
    var q := p + [c];
    forall i | 0 <= i < |q| - 1
      ensures Step(components, disconnected, q, i)
    {
      if i < |p| - 1 {
        assert Step(components, disconnected, p, i);
        assert q[i] == p[i] && q[i + 1] == p[i + 1];
      }
    }
    assert IsPath(components, disconnected, q);
  }

  function Reversed(p: seq<string>): (r: seq<string>)
    ensures |r| == |p| && forall i | 0 <= i < |p| :: r[i] == p[|p| - 1 - i]
  {
    if p == [] then [] else Reversed(p[1..]) + [p[0]]
  }

  /** With every wire listed at both ends, reach goes both ways. */
  lemma ReachSymmetric(components: map<string, set<string>>, disconnected: set<Connection>, a: string, b: string)
    requires Symmetric(components) && Reach(components, disconnected, a, b)
    ensures Reach(components, disconnected, b, a)
  {
    var p :| IsPath(components, disconnected, p) && p[0] == a && p[|p| - 1] == b;
    var q := Reversed(p);
    PathMembers(components, disconnected, p, |p| - 1);
    forall i | 0 <= i < |q| - 1
      ensures Step(components, disconnected, q, i)
    {
      var k := |p| - 2 - i;
      assert q[i] == p[k + 1] && q[i + 1] == p[k];
      assert Step(components, disconnected, p, k);
    }
    assert IsPath(components, disconnected, q);
  }

  lemma ReachTransitive(components: map<string, set<string>>, disconnected: set<Connection>, a: string, b: string, c: string)
    requires Reach(components, disconnected, a, b) && Reach(components, disconnected, b, c)
    ensures Reach(components, disconnected, a, c)
  {
    var p :| IsPath(components, disconnected, p) && p[0] == a && p[|p| - 1] == b;
    var q :| IsPath(components, disconnected, q) && q[0] == b && q[|q| - 1] == c;
    var r := p + q[1..];
    forall i | 0 <= i < |r| - 1
      ensures Step(components, disconnected, r, i)
    {
      if i < |p| - 1 {
        assert r[i] == p[i] && r[i + 1] == p[i + 1];
        assert Step(components, disconnected, p, i);
      } else {
        assert r[i] == q[i - |p| + 1] && r[i + 1] == q[i - |p| + 2];
        assert Step(components, disconnected, q, i - |p| + 1);
      }
    }
    assert IsPath(components, disconnected, r);
  }

  /** A set of components that no uncut wire leaves. */
  ghost predicate Closed(components: map<string, set<string>>, disconnected: set<Connection>, group: set<string>) {
    forall a, b | a in group && a in components && b in components[a] && Allowed(disconnected, a, b) :: b in group
  }

  /** A walk never leaves a closed set it starts in. */
  lemma {:induction false} PathStaysIn(components: map<string, set<string>>, disconnected: set<Connection>, group: set<string>, p: seq<string>)
    requires IsPath(components, disconnected, p) && p[0] in group && Closed(components, disconnected, group)
    ensures p[|p| - 1] in group
    decreases |p|
  {
    if |p| > 1 {
      var q := p[..|p| - 1];
      forall i | 0 <= i < |q| - 1
        ensures Step(components, disconnected, q, i)
      {
        assert Step(components, disconnected, p, i);
      }
      PathStaysIn(components, disconnected, group, q);
      assert Step(components, disconnected, p, |p| - 2);
    }
  }

  // ---------------------------------------------------------------------
  // Groups

  /** Groups as the search reports them: each keyed by one of its own
    * components, pairwise disjoint, left by no uncut wire, and every
    * member reachable from the key without crossing a cut wire. */
  ghost predicate Grouping(components: map<string, set<string>>, disconnected: set<Connection>, groups: map<string, set<string>>) {
    (forall g | g in groups :: g in groups[g] && groups[g] <= components.Keys) &&
    (forall g, h | g in groups && h in groups && g != h :: groups[g] !! groups[h]) &&
    (forall g | g in groups :: Closed(components, disconnected, groups[g])) &&
    (forall g, a | g in groups && a in groups[g] :: Reach(components, disconnected, g, a))
  }

  /** `a` is in some group. */
  ghost predicate Grouped(groups: map<string, set<string>>, a: string) {
    exists g | g in groups :: a in groups[g]
  }

  /** Every component is in some group. */
  ghost predicate Covers(components: map<string, set<string>>, groups: map<string, set<string>>) {
    forall a {:trigger Grouped(groups, a)} | a in components :: Grouped(groups, a)
  }

  /** With the cut wires removed the components fall into exactly `n`
    * groups. */
  ghost predicate SplitsInto(components: map<string, set<string>>, disconnected: set<Connection>, n: nat) {
    exists groups :: Grouping(components, disconnected, groups) && Covers(components, groups) && |groups| == n
  }

  /** A group is exactly what its key reaches: a connected component of
    * the wiring without the cut wires. */
  lemma GroupIsComponent(components: map<string, set<string>>, disconnected: set<Connection>, groups: map<string, set<string>>, g: string, b: string)
    requires Grouping(components, disconnected, groups) && g in groups
    ensures b in groups[g] <==> Reach(components, disconnected, g, b)
  {
    if Reach(components, disconnected, g, b) {
      var p :| IsPath(components, disconnected, p) && p[0] == g && p[|p| - 1] == b;
      PathStaysIn(components, disconnected, groups[g], p);
    }
  }

  /** An injection from one finite set into another cannot make it larger. */
  lemma {:induction false} InjectionBound<A, B>(dom: set<A>, cod: set<B>, f: map<A, B>)
    requires forall x | x in dom :: x in f && f[x] in cod
    requires forall x, y | x in dom && y in dom && x in f && y in f && f[x] == f[y] :: x == y
    ensures |dom| <= |cod|
    decreases dom
  {
    if dom != {} {
      var x :| x in dom;
      InjectionBound(dom - {x}, cod - {f[x]}, f);
    }
  }

  ghost function GroupOf(groups: map<string, set<string>>, a: string): (g: string)
    requires Grouped(groups, a)
    ensures g in groups && a in groups[g]
  {
    var g :| g in groups && a in groups[g]; g
  }

  /** Two keys of one grouping that share a group of another grouping
    * reach each other, so they share their own group too. */
  lemma SharedGroup(components: map<string, set<string>>, disconnected: set<Connection>, full: map<string, set<string>>, part: map<string, set<string>>, h: string, g: string, a: string)
    requires Symmetric(components)
    requires Grouping(components, disconnected, full) && Grouping(components, disconnected, part)
    requires h in full && g in full[h] && a in full[h] && g in part
    ensures a in part[g]
  {
    assert Reach(components, disconnected, h, g) && Reach(components, disconnected, h, a);
    ReachSymmetric(components, disconnected, h, g);
    ReachTransitive(components, disconnected, g, h, a);
    GroupIsComponent(components, disconnected, part, g, a);
  }

  /** Sending each key of one grouping to the group of a covering grouping
    * that holds it never sends two keys to one group. */
  lemma GroupOfInjective(components: map<string, set<string>>, disconnected: set<Connection>, full: map<string, set<string>>, part: map<string, set<string>>, f: map<string, string>)
    requires Symmetric(components)
    requires Grouping(components, disconnected, full) && Grouping(components, disconnected, part)
    requires forall g | g in part :: g in f && f[g] in full && g in full[f[g]]
    ensures forall g1, g2 | g1 in part && g2 in part && f[g1] == f[g2] :: g1 == g2
  {
    forall g1, g2 | g1 in part && g2 in part && f[g1] == f[g2]
      ensures g1 == g2
    {
      SharedGroup(components, disconnected, full, part, f[g1], g1, g2);
      assert g2 in part[g1] && g2 in part[g2];
    }
  }

  /** A component outside every group of a grouping lies in a group of a
    * covering grouping that holds none of its keys. */
  lemma MissedGroup(components: map<string, set<string>>, disconnected: set<Connection>, full: map<string, set<string>>, part: map<string, set<string>>, f: map<string, string>, a: string, k: string)
    requires Symmetric(components)
    requires Grouping(components, disconnected, full) && Grouping(components, disconnected, part)
    requires forall g | g in part :: g in f && f[g] in full && g in full[f[g]]
    requires k in full && a in full[k] && forall g | g in part :: a !in part[g]
    ensures forall g | g in part :: f[g] != k
  {
    forall g | g in part ensures f[g] != k {
      if f[g] == k {
        SharedGroup(components, disconnected, full, part, k, g, a);
      }
    }
  }

  /** Each key of a grouping lies in some group of a covering grouping. */
  lemma KeyGroups(components: map<string, set<string>>, disconnected: set<Connection>, full: map<string, set<string>>, part: map<string, set<string>>)
      returns (f: map<string, string>)
    requires Covers(components, full) && Grouping(components, disconnected, part)
    ensures forall g | g in part :: g in f && f[g] in full && g in full[f[g]]
  {
    forall g | g in part ensures Grouped(full, g) {
      assert g in part[g] && part[g] <= components.Keys;
    }
    f := map g | g in part :: GroupOf(full, g);
  }

  /** Groups that cover every component are the most there can be: any
    * other grouping has at most as many. */
  lemma GroupingAtMost(components: map<string, set<string>>, disconnected: set<Connection>, full: map<string, set<string>>, part: map<string, set<string>>)
    requires Symmetric(components)
    requires Grouping(components, disconnected, full) && Covers(components, full)
    requires Grouping(components, disconnected, part)
    ensures |part| <= |full|
  {
    var f := KeyGroups(components, disconnected, full, part);
    GroupOfInjective(components, disconnected, full, part, f);
    InjectionBound(part.Keys, full.Keys, f);
  }

  /** A grouping that leaves some component out has fewer groups than one
    * that covers every component. */
  lemma GroupingFewer(components: map<string, set<string>>, disconnected: set<Connection>, full: map<string, set<string>>, part: map<string, set<string>>)
    requires Symmetric(components)
    requires Grouping(components, disconnected, full) && Covers(components, full)
    requires Grouping(components, disconnected, part) && !Covers(components, part)
    ensures |part| < |full|
  {
    var f := KeyGroups(components, disconnected, full, part);
    GroupOfInjective(components, disconnected, full, part, f);
    var a :| a in components && !Grouped(part, a);
    assert Grouped(full, a);
    var k := GroupOf(full, a);
    MissedGroup(components, disconnected, full, part, f, a, k);
    InjectionBound(part.Keys, full.Keys - {k}, f);
  }

  // ---------------------------------------------------------------------
  // The search

  /** A component still to visit and the group it would join. */
  datatype Visit = Visit(currentGroup: string, toVisit: string)

  /** The groups found so far: `owner` (bookkeeping for the proof) names
    * each visited component's group, every component not in `names` is
    * visited, and each group is keyed by its first component. */
  ghost predicate Assigned(components: map<string, set<string>>, names: set<string>, owner: map<string, string>, result: map<string, set<string>>) {
    names <= components.Keys &&
    owner.Keys == components.Keys - names &&
    (forall a | a in owner :: owner[a] in result && a in result[owner[a]]) &&
    (forall g, a | g in result && a in result[g] :: a in owner && owner[a] == g) &&
    (forall g | g in result :: g in owner && owner[g] == g)
  }

  /** Every pending visit belongs to the current group, whose key reaches
    * it. */
  ghost predicate Pending(components: map<string, set<string>>, disconnected: set<Connection>, toVisit: seq<Visit>, current: string) {
    forall i | 0 <= i < |toVisit| ::
      toVisit[i].currentGroup == current && toVisit[i].toVisit in components &&
      Reach(components, disconnected, current, toVisit[i].toVisit)
  }

  /** Every visited component is reached from its group's key. */
  ghost predicate Connected(components: map<string, set<string>>, disconnected: set<Connection>, owner: map<string, string>) {
    forall a | a in owner :: Reach(components, disconnected, owner[a], a)
  }

  /** Every uncut wire out of a visited component leads to a component
    * of the same group or to one that is unvisited and pending for that
    * group. */
  ghost predicate Frontier(components: map<string, set<string>>, disconnected: set<Connection>, names: set<string>, owner: map<string, string>, toVisit: seq<Visit>) {
    forall a, b | a in owner && a in components && b in components[a] && Allowed(disconnected, a, b) ::
      (b in owner && owner[b] == owner[a]) || (b in names && Visit(owner[a], b) in toVisit)
  }

  /** The loop invariant of the search. */
  ghost predicate Searching(components: map<string, set<string>>, disconnected: set<Connection>, names: set<string>, owner: map<string, string>,
                            result: map<string, set<string>>, toVisit: seq<Visit>, current: string) {
    Assigned(components, names, owner, result) &&
    Pending(components, disconnected, toVisit, current) &&
    Connected(components, disconnected, owner) &&
    Frontier(components, disconnected, names, owner, toVisit) &&
    (current !in result ==> toVisit == [Visit(current, current)] && current in names)
  }

  /** Pending visits to components already visited. */
  ghost function Stale(toVisit: seq<Visit>, names: set<string>): nat {
    if toVisit == [] then 0
    else (if toVisit[0].toVisit in names then 0 else 1) + Stale(toVisit[1..], names)
  }

  lemma DoneClosed(components: map<string, set<string>>, disconnected: set<Connection>, names: set<string>, owner: map<string, string>,
                   result: map<string, set<string>>)
    requires Assigned(components, names, owner, result) && Frontier(components, disconnected, names, owner, [])
    ensures forall g | g in result :: Closed(components, disconnected, result[g])
  {
    forall g | g in result ensures Closed(components, disconnected, result[g]) {
      forall a, b | a in result[g] && a in components && b in components[a] && Allowed(disconnected, a, b)
        ensures b in result[g]
      {
        assert a in owner;
      }
    }
  }

  lemma DoneConnected(components: map<string, set<string>>, disconnected: set<Connection>, names: set<string>, owner: map<string, string>,
                      result: map<string, set<string>>)
    requires Assigned(components, names, owner, result) && Connected(components, disconnected, owner)
    ensures forall g, a | g in result && a in result[g] :: Reach(components, disconnected, g, a)
  {
    forall g, a | g in result && a in result[g] ensures Reach(components, disconnected, g, a) {
      assert a in owner;
    }
  }

  lemma DoneCovers(components: map<string, set<string>>, names: set<string>, owner: map<string, string>, result: map<string, set<string>>)
    requires Assigned(components, names, owner, result)
    ensures names == {} ==> Covers(components, result)
    ensures forall n | n in names :: !Grouped(result, n)
  {
    if names == {} {
      forall a | a in components ensures Grouped(result, a) {
        assert a in owner;
      }
    }
    forall n | n in names ensures !Grouped(result, n) {
      assert n !in owner;
    }
  }

  /** With nothing pending, the groups found so far form a grouping, and
    * an unvisited component is in none of them. */
  lemma SearchDone(components: map<string, set<string>>, disconnected: set<Connection>, names: set<string>, owner: map<string, string>,
                   result: map<string, set<string>>)
    requires Assigned(components, names, owner, result) && Connected(components, disconnected, owner)
    requires Frontier(components, disconnected, names, owner, [])
    ensures Grouping(components, disconnected, result)
    ensures names == {} ==> Covers(components, result)
    ensures forall n | n in names :: !Grouped(result, n)
  {
    DoneClosed(components, disconnected, names, owner, result);
    DoneConnected(components, disconnected, names, owner, result);
    DoneCovers(components, names, owner, result);
    forall g | g in result ensures g in result[g] && result[g] <= components.Keys {
      assert forall a | a in result[g] :: a in owner;
    }
    forall g, h | g in result && h in result && g != h ensures result[g] !! result[h] {
      forall a | a in result[g] ensures a !in result[h] {
        assert owner[a] == g;
      }
    }
  }

  /** Starting the search, or a new group, at an unvisited component. */
  lemma StartGroup(components: map<string, set<string>>, disconnected: set<Connection>, names: set<string>, owner: map<string, string>,
                   result: map<string, set<string>>, n: string)
    requires Assigned(components, names, owner, result) && Connected(components, disconnected, owner)
    requires Frontier(components, disconnected, names, owner, [])
    requires n in names
    ensures Searching(components, disconnected, names, owner, result, [Visit(n, n)], n)
  {
    ReachRefl(components, disconnected, n);
    assert n !in owner;
  }

  /** Dropping a pending visit to a component already visited. */
  lemma SkipVisit(components: map<string, set<string>>, disconnected: set<Connection>, names: set<string>, owner: map<string, string>,
                  result: map<string, set<string>>, toVisit: seq<Visit>, current: string)
    requires Searching(components, disconnected, names, owner, result, toVisit, current)
    requires toVisit != [] && toVisit[0].toVisit !in names
    ensures Searching(components, disconnected, names, owner, result, toVisit[1..], current)
    ensures Stale(toVisit[1..], names) < Stale(toVisit, names)
  {
    forall a, b | a in owner && a in components && b in components[a] && Allowed(disconnected, a, b) && !(b in owner && owner[b] == owner[a])
      ensures b in names && Visit(owner[a], b) in toVisit[1..]
    {
      var i :| 0 <= i < |toVisit| && toVisit[i] == Visit(owner[a], b);
      assert i != 0;
      assert toVisit[1..][i - 1] == toVisit[i];
    }
    assert forall i | 0 <= i < |toVisit[1..]| :: toVisit[1..][i] == toVisit[i + 1];
  }

  /** The groups after `b` joins `g`. */
  function Joined(result: map<string, set<string>>, g: string, b: string): map<string, set<string>> {
    if g in result then result[g := result[g] + {b}] else result[g := {b}]
  }

  lemma TakeAssigned(components: map<string, set<string>>, names: set<string>, owner: map<string, string>,
                     result: map<string, set<string>>, current: string, b: string)
    requires Assigned(components, names, owner, result) && b in names
    requires current !in result ==> current == b
    ensures Assigned(components, names - {b}, owner[b := current], Joined(result, current, b))
  {
  }

  lemma TakeConnected(components: map<string, set<string>>, disconnected: set<Connection>, owner: map<string, string>, current: string, b: string)
    requires Connected(components, disconnected, owner) && Reach(components, disconnected, current, b)
    ensures Connected(components, disconnected, owner[b := current])
  {
  }

  /** The visits pushed for a newly visited `b` all continue its group
    * along uncut wires, and cover every unvisited neighbour. */
  ghost predicate PushedFrom(components: map<string, set<string>>, disconnected: set<Connection>, names: set<string>, b: string, current: string, pushed: seq<Visit>)
    requires b in components
  {
    (forall i | 0 <= i < |pushed| ::
       pushed[i].currentGroup == current && pushed[i].toVisit in components[b] && Allowed(disconnected, b, pushed[i].toVisit)) &&
    (forall c | c in components[b] && c in names && Allowed(disconnected, b, c) :: Visit(current, c) in pushed)
  }

  lemma TakePending(components: map<string, set<string>>, disconnected: set<Connection>, names: set<string>, rest: seq<Visit>, current: string, b: string, pushed: seq<Visit>)
    requires Symmetric(components) && b in components
    requires Pending(components, disconnected, rest, current) && Reach(components, disconnected, current, b)
    requires PushedFrom(components, disconnected, names, b, current, pushed)
    ensures Pending(components, disconnected, pushed + rest, current)
  {
    forall i | 0 <= i < |pushed + rest|
      ensures (pushed + rest)[i].currentGroup == current && (pushed + rest)[i].toVisit in components &&
              Reach(components, disconnected, current, (pushed + rest)[i].toVisit)
    {
      if i < |pushed| {
        ReachStep(components, disconnected, current, b, pushed[i].toVisit);
      } else {
        assert (pushed + rest)[i] == rest[i - |pushed|];
      }
    }
  }

  lemma TakeFrontier(components: map<string, set<string>>, disconnected: set<Connection>, names: set<string>, owner: map<string, string>,
                     toVisit: seq<Visit>, current: string, pushed: seq<Visit>)
    requires Symmetric(components)
    requires toVisit != [] && toVisit[0].toVisit in names && toVisit[0].currentGroup == current
    requires forall i | 0 <= i < |toVisit| :: toVisit[i].currentGroup == current
    requires names <= components.Keys && owner.Keys == components.Keys - names
    requires Frontier(components, disconnected, names, owner, toVisit)
    requires PushedFrom(components, disconnected, names - {toVisit[0].toVisit}, toVisit[0].toVisit, current, pushed)
    ensures Frontier(components, disconnected, names - {toVisit[0].toVisit}, owner[toVisit[0].toVisit := current], pushed + toVisit[1..])
  {
    var b := toVisit[0].toVisit;
    var owner' := owner[b := current];
    var names' := names - {b};
    forall a, x | a in owner' && a in components && x in components[a] && Allowed(disconnected, a, x)
      ensures (x in owner' && owner'[x] == owner'[a]) || (x in names' && Visit(owner'[a], x) in pushed + toVisit[1..])
    {
      assert x in components;
      if a == b {
        if x in owner {
          assert b in components[x] && Allowed(disconnected, x, b);
          var i :| 0 <= i < |toVisit| && toVisit[i] == Visit(owner[x], b);
          assert owner'[x] == owner[x] == current;
        } else if x != b {
          assert x in names';
          assert Visit(current, x) in pushed;
        }
      } else if !(x in owner && owner[x] == owner[a]) {
        assert x in names && Visit(owner[a], x) in toVisit;
        var i :| 0 <= i < |toVisit| && toVisit[i] == Visit(owner[a], x);
        if x != b {
          assert i != 0;
          assert (pushed + toVisit[1..])[|pushed| + i - 1] == toVisit[i];
        } else {
          assert owner[a] == current;
        }
      }
    }
  }

  /** Visiting the first pending component `b`: it joins the current
    * group and its unvisited neighbours along uncut wires are pushed in
    * front of the other pending visits. */
  lemma TakeVisit(components: map<string, set<string>>, disconnected: set<Connection>, names: set<string>, owner: map<string, string>,
                  result: map<string, set<string>>, toVisit: seq<Visit>, current: string, pushed: seq<Visit>)
    requires Symmetric(components)
    requires Searching(components, disconnected, names, owner, result, toVisit, current)
    requires toVisit != [] && toVisit[0].toVisit in names
    requires PushedFrom(components, disconnected, names - {toVisit[0].toVisit}, toVisit[0].toVisit, current, pushed)
    ensures var b := toVisit[0].toVisit;
            Searching(components, disconnected, names - {b}, owner[b := current], Joined(result, current, b), pushed + toVisit[1..], current)
  {
    var b := toVisit[0].toVisit;
    assert toVisit[0].currentGroup == current;
    TakeAssigned(components, names, owner, result, current, b);
    TakeConnected(components, disconnected, owner, current, b);
    assert Pending(components, disconnected, toVisit[1..], current) by {
      assert forall i | 0 <= i < |toVisit[1..]| :: toVisit[1..][i] == toVisit[i + 1];
    }
    TakePending(components, disconnected, names - {b}, toVisit[1..], current, b, pushed);
    TakeFrontier(components, disconnected, names, owner, toVisit, current, pushed);
  }

  /** The loop over a visited component's wires: each unvisited
    * neighbour along an uncut wire is pushed to the front. */
  method PushNeighbours(components: map<string, set<string>>, disconnected: set<Connection>, names: set<string>,
                        componentName: string, groupName: string, toVisit: seq<Visit>)
      returns (toVisit': seq<Visit>, ghost pushed: seq<Visit>)
    requires componentName in components
    ensures toVisit' == pushed + toVisit
    ensures PushedFrom(components, disconnected, names, componentName, groupName, pushed)
  {
    toVisit' := toVisit;
    pushed := [];
    var links := components[componentName];
    while links != {}
      invariant links <= components[componentName]
      invariant toVisit' == pushed + toVisit
      invariant forall i | 0 <= i < |pushed| ::
                  pushed[i].currentGroup == groupName && pushed[i].toVisit in components[componentName] &&
                  Allowed(disconnected, componentName, pushed[i].toVisit)
      invariant forall c | c in components[componentName] - links && c in names && Allowed(disconnected, componentName, c) ::
                  Visit(groupName, c) in pushed
      decreases links
    {
      var connection :| connection in links;
      links := links - {connection};
      if connection in names && Allowed(disconnected, componentName, connection) {
        toVisit' := [Visit(groupName, connection)] + toVisit';
        pushed := [Visit(groupName, connection)] + pushed;
      }
    }
  }

  /** Groups that leave a component out but are already `n` or more:
    * the components cannot fall into exactly `n` groups. */
  lemma NoSplit(components: map<string, set<string>>, disconnected: set<Connection>, result: map<string, set<string>>, n: nat, name: string)
    requires Symmetric(components) && Grouping(components, disconnected, result)
    requires name in components && !Grouped(result, name) && |result| >= n
    ensures !SplitsInto(components, disconnected, n)
  {
    assert !Covers(components, result);
    if SplitsInto(components, disconnected, n) {
      var full :| Grouping(components, disconnected, full) && Covers(components, full) && |full| == n;
      GroupingFewer(components, disconnected, full, result);
    }
  }

  /** Groups that cover every component fix the number of groups: any
    * other number is impossible. */
  lemma SameCount(components: map<string, set<string>>, disconnected: set<Connection>, result: map<string, set<string>>, n: nat)
    requires Symmetric(components) && Grouping(components, disconnected, result) && Covers(components, result)
    requires |result| != n
    ensures !SplitsInto(components, disconnected, n)
  {
    if SplitsInto(components, disconnected, n) {
      var full :| Grouping(components, disconnected, full) && Covers(components, full) && |full| == n;
      GroupingAtMost(components, disconnected, full, result);
      GroupingAtMost(components, disconnected, result, full);
    }
  }

  /** One turn of the search when the first pending component is
    * unvisited: it is marked visited, added to its group (created if
    * new), and its unvisited neighbours along uncut wires are pushed. */
  method VisitComponent(components: map<string, set<string>>, disconnected: set<Connection>, names: set<string>,
                        result: map<string, set<string>>, toVisit: seq<Visit>, ghost owner: map<string, string>, ghost current: string)
      returns (names': set<string>, result': map<string, set<string>>, toVisit': seq<Visit>, ghost owner': map<string, string>)
    requires Symmetric(components)
    requires Searching(components, disconnected, names, owner, result, toVisit, current)
    requires toVisit != [] && toVisit[0].toVisit in names
    ensures Searching(components, disconnected, names', owner', result', toVisit', current)
    ensures names' == names - {toVisit[0].toVisit}
  {
    var visit := toVisit[0];
    var componentName := visit.toVisit;
    names' := names - {componentName};
    var groupName := visit.currentGroup;
    result' := result;
    if groupName !in result' {
      result' := result'[groupName := {}];
    }
    result' := result'[groupName := result'[groupName] + {componentName}];
    assert groupName == current;
    assert result' == Joined(result, current, componentName) by {
      if groupName !in result {
        assert {} + {componentName} == {componentName};
      }
    }
    ghost var pushed;
    toVisit', pushed := PushNeighbours(components, disconnected, names', componentName, groupName, toVisit[1..]);
    TakeVisit(components, disconnected, names, owner, result, toVisit, current, pushed);
    owner' := owner[componentName := current];
  }

  /** `get_groups`: a depth-first search from an arbitrary component that
    * never crosses a cut wire; when it runs dry it starts a new group at
    * an arbitrary unvisited component, giving up (None) if that would make
    * more than `maxGroups` groups. It answers Some exactly when the
    * components, with the cut wires removed, fall into exactly
    * `maxGroups` groups, and then the groups are those connected
    * components. An empty wiring panics. */
  method GetGroups(components: map<string, set<string>>, disconnected: set<Connection>, maxGroups: nat)
      returns (r: Result<Option<map<string, set<string>>>>)
    requires Symmetric(components)
    ensures r.Err? <==> components == map[]
    ensures r.Ok? ==> (r.value.Some? <==> SplitsInto(components, disconnected, maxGroups))
    ensures r.Ok? && r.value.Some? ==>
              Grouping(components, disconnected, r.value.value) && Covers(components, r.value.value) &&
              |r.value.value| == maxGroups
  {
    var names := components.Keys;
    var result: map<string, set<string>> := map[];
    if names == {} {
      assert components == map[] by {
        assert forall a | a in components :: a in names;
      }
      return Err("called `Option::unwrap()` on a `None` value");
    }
    var first :| first in names;
    var toVisit := [Visit(first, first)];
    ghost var owner: map<string, string> := map[];
    ghost var current := first;
    StartGroup(components, disconnected, names, owner, result, first);
    while toVisit != []
      invariant Searching(components, disconnected, names, owner, result, toVisit, current)
      invariant toVisit == [] ==> names == {}
      decreases |names|, Stale(toVisit, names)
    {
      var visit := toVisit[0];
      var componentName := visit.toVisit;
      if componentName in names {
        names, result, toVisit, owner := VisitComponent(components, disconnected, names, result, toVisit, owner, current);
      } else {
        SkipVisit(components, disconnected, names, owner, result, toVisit, current);
        toVisit := toVisit[1..];
      }
      if toVisit == [] && names != {} {
        var name :| name in names;
        if |result| >= maxGroups {
          SearchDone(components, disconnected, names, owner, result);
          NoSplit(components, disconnected, result, maxGroups, name);
          return Ok(None);
        }
        StartGroup(components, disconnected, names, owner, result, name);
        toVisit := [Visit(name, name)];
        assert Stale(toVisit, names) == 0;
        current := name;
      }
    }
    SearchDone(components, disconnected, names, owner, result);
    if |result| == maxGroups {
      return Ok(Some(result));
    }
    SameCount(components, disconnected, result, maxGroups);
    return Ok(None);
  }

  // ---------------------------------------------------------------------
  // Cutting three wires

  /** The product the puzzle asks for: two groups covering every
    * component, keyed `a` and `b`, and `v` the product of their sizes. */
  ghost predicate SplitAnswer(components: map<string, set<string>>, disconnected: set<Connection>, v: nat) {
    exists groups: map<string, set<string>>, a: string, b: string ::
      Grouping(components, disconnected, groups) && Covers(components, groups) && |groups| == 2 &&
      a in groups && b in groups && a != b && v == |groups[a]| * |groups[b]|
  }

  /** Two disjoint parts of `keys` that hold every key between them
    * have sizes adding up to the size of `keys`. */
  lemma TwoParts(keys: set<string>, groups: map<string, set<string>>, a: string, b: string)
    requires groups.Keys == {a, b} && groups[a] <= keys && groups[b] <= keys && groups[a] !! groups[b]
    requires forall x {:trigger Grouped(groups, x)} | x in keys :: Grouped(groups, x)
    ensures |groups[a]| + |groups[b]| == |keys|
  {
    forall x | x in keys ensures x in groups[a] + groups[b] {
      assert Grouped(groups, x);
    }
    assert groups[a] + groups[b] == keys;
  }

  /** A map with two different keys and no more than two entries has
    * exactly those keys. */
  lemma TwoKeys(groups: map<string, set<string>>, a: string, b: string)
    requires a in groups && b in groups && a != b && |groups| == 2
    ensures groups.Keys == {a, b}
  {
    var keys := groups.Keys;
    assert |keys| == 2;
    assert {a, b} <= keys && |{a, b}| == 2;
    assert |keys - {a, b}| == |keys| - |{a, b}| == 0;
    assert keys - {a, b} == {};
  }

  /** The two groups of a split account for every component. */
  lemma SplitSizes(components: map<string, set<string>>, disconnected: set<Connection>, groups: map<string, set<string>>, a: string, b: string)
    requires Grouping(components, disconnected, groups) && Covers(components, groups)
    requires a in groups && b in groups && a != b && |groups| == 2
    ensures |groups[a]| + |groups[b]| == |components|
  {
    TwoKeys(groups, a, b);
    assert components.Keys == components.Keys;
    TwoParts(components.Keys, groups, a, b);
  }

  /** Three pairwise different wires. */
  predicate Distinct3(c1: Connection, c2: Connection, c3: Connection) {
    c1 != c2 && c1 != c3 && c2 != c3
  }

  /** The wire set as a list, each wire once (the program lists the
    * ordered set in its sort order; any order is modelled here). */
  method ListConnections(connections: set<Connection>) returns (edges: seq<Connection>)
    ensures Elems(edges) == connections
    ensures forall x, y | 0 <= x < y < |edges| :: edges[x] != edges[y]
  {
    edges := [];
    var left := connections;
    while left != {}
      invariant left <= connections && Elems(edges) == connections - left
      invariant forall x, y | 0 <= x < y < |edges| :: edges[x] != edges[y]
      decreases left
    {
      var c :| c in left;
      assert forall x | 0 <= x < |edges| :: edges[x] != c;
      assert Elems(edges + [c]) == Elems(edges) + {c};
      edges := edges + [c];
      left := left - {c};
    }
  }

  /** No three listed wires, taken in list order, split the components in
    * two. */
  ghost predicate NoneSplit(components: map<string, set<string>>, edges: seq<Connection>) {
    NoneSplitBefore(components, edges, |edges|)
  }

  /** No three listed wires whose first is before position `n` split the
    * components in two. */
  ghost predicate NoneSplitBefore(components: map<string, set<string>>, edges: seq<Connection>, n: int) {
    forall i, j, k | 0 <= i < n && i < j < k < |edges| :: !SplitsInto(components, {edges[i], edges[j], edges[k]}, 2)
  }

  /** Three listed wires at increasing positions do not split the
    * components in two. */
  lemma NoneSplitAt(components: map<string, set<string>>, edges: seq<Connection>, x: nat, y: nat, z: nat, cut: set<Connection>)
    requires NoneSplit(components, edges)
    requires x < y < z < |edges| && cut == {edges[x], edges[y], edges[z]}
    ensures !SplitsInto(components, cut, 2)
  {
  }

  /** If no three listed wires split the components, no three different
    * wires of the set do. */
  lemma NoneSplitAtAll(components: map<string, set<string>>, edges: seq<Connection>, c1: Connection, c2: Connection, c3: Connection)
    requires NoneSplit(components, edges)
    requires c1 in edges && c2 in edges && c3 in edges && Distinct3(c1, c2, c3)
    ensures !SplitsInto(components, {c1, c2, c3}, 2)
  {
    var x :| 0 <= x < |edges| && edges[x] == c1;
    var y :| 0 <= y < |edges| && edges[y] == c2;
    var z :| 0 <= z < |edges| && edges[z] == c3;
    var cut := {c1, c2, c3};
    if x < y < z {
      NoneSplitAt(components, edges, x, y, z, cut);
    } else if x < z < y {
      NoneSplitAt(components, edges, x, z, y, cut);
    } else if y < x < z {
      NoneSplitAt(components, edges, y, x, z, cut);
    } else if y < z < x {
      NoneSplitAt(components, edges, y, z, x, cut);
    } else if z < x < y {
      NoneSplitAt(components, edges, z, x, y, cut);
    } else {
      NoneSplitAt(components, edges, z, y, x, cut);
    }
  }

  /** One attempt: cut three wires and ask for at most two groups; a
    * split into exactly two gives the product of their sizes. */
  method TryCut(components: map<string, set<string>>, cut: set<Connection>) returns (answer: Option<nat>)
    requires Symmetric(components) && components != map[]
    ensures answer.None? ==> !SplitsInto(components, cut, 2)
    ensures answer.Some? ==> SplitAnswer(components, cut, answer.value)
  {
    var found := GetGroups(components, cut, 2);
    if found.value.Some? && |found.value.value| == 2 {
      var groups := found.value.value;
      var a :| a in groups;
      assert groups.Keys - {a} != {} by {
        assert |groups.Keys - {a}| == 1;
      }
      var b :| b in groups && b != a;
      answer := Some(|groups[a]| * |groups[b]|);
    } else {
      answer := None;
    }
  }

  /** The innermost loop: the first and second wire fixed, try every later
    * third wire. */
  method TryThird(components: map<string, set<string>>, edges: seq<Connection>, i: nat, j: nat) returns (answer: Option<nat>)
    requires Symmetric(components) && components != map[] && i < j < |edges|
    ensures answer.None? ==> forall k | j < k < |edges| :: !SplitsInto(components, {edges[i], edges[j], edges[k]}, 2)
    ensures answer.Some? ==> exists k | j < k < |edges| :: SplitAnswer(components, {edges[i], edges[j], edges[k]}, answer.value)
  {
    for k := j + 1 to |edges|
      invariant forall k' | j < k' < k :: !SplitsInto(components, {edges[i], edges[j], edges[k']}, 2)
    {
      answer := TryCut(components, {edges[i], edges[j], edges[k]});
      if answer.Some? {
        return;
      }
    }
    answer := None;
  }

  /** The middle loop: the first wire fixed, try every later pair. */
  method TrySecond(components: map<string, set<string>>, edges: seq<Connection>, i: nat) returns (answer: Option<nat>)
    requires Symmetric(components) && components != map[] && i < |edges|
    ensures answer.None? ==> forall j, k | i < j < k < |edges| :: !SplitsInto(components, {edges[i], edges[j], edges[k]}, 2)
    ensures answer.Some? ==> exists j, k | i < j < k < |edges| :: SplitAnswer(components, {edges[i], edges[j], edges[k]}, answer.value)
  {
    for j := i + 1 to |edges|
      invariant forall j', k | i < j' < j && j' < k < |edges| :: !SplitsInto(components, {edges[i], edges[j'], edges[k]}, 2)
    {
      answer := TryThird(components, edges, i, j);
      if answer.Some? {
        return;
      }
    }
    answer := None;
  }

  /** Cutting the wires at some three increasing positions of the list
    * splits the components in two, with `v` the product of the two group
    * sizes. */
  ghost predicate FoundAt(components: map<string, set<string>>, edges: seq<Connection>, v: nat) {
    exists i, j, k | 0 <= i < j < k < |edges| :: SplitAnswer(components, {edges[i], edges[j], edges[k]}, v)
  }

  /** The outer loop: try every first wire, in list order. */
  method FindCut(components: map<string, set<string>>, edges: seq<Connection>) returns (answer: Option<nat>)
    requires Symmetric(components) && (edges != [] ==> components != map[])
    ensures answer.None? ==> NoneSplit(components, edges)
    ensures answer.Some? ==> FoundAt(components, edges, answer.value)
  {
    for i := 0 to |edges|
      invariant NoneSplitBefore(components, edges, i)
    {
      answer := TrySecond(components, edges, i);
      if answer.Some? {
        return;
      }
    }
    answer := None;
  }

  /** Cutting some three different wires of `connections` splits the
    * components in two, with `v` the product of the two group sizes. */
  ghost predicate SomeCutGives(components: map<string, set<string>>, connections: set<Connection>, v: nat) {
    exists c1, c2, c3 :: c1 in connections && c2 in connections && c3 in connections && Distinct3(c1, c2, c3) &&
      SplitAnswer(components, {c1, c2, c3}, v)
  }

  /** Cutting no three different wires of `connections` splits the
    * components in two. */
  ghost predicate NoCutSplits(components: map<string, set<string>>, connections: set<Connection>) {
    forall c1, c2, c3 | c1 in connections && c2 in connections && c3 in connections && Distinct3(c1, c2, c3) ::
      !SplitsInto(components, {c1, c2, c3}, 2)
  }

  /** A split found at three positions of a list without repeats is a
    * split by three different wires of the listed set. */
  lemma FoundCut(components: map<string, set<string>>, connections: set<Connection>, edges: seq<Connection>, v: nat)
    requires Elems(edges) == connections && forall x, y | 0 <= x < y < |edges| :: edges[x] != edges[y]
    requires FoundAt(components, edges, v)
    ensures SomeCutGives(components, connections, v)
  {
    var i, j, k :| 0 <= i < j < k < |edges| && SplitAnswer(components, {edges[i], edges[j], edges[k]}, v);
    assert edges[i] in Elems(edges) && edges[j] in Elems(edges) && edges[k] in Elems(edges);
    assert Distinct3(edges[i], edges[j], edges[k]);
  }

  /** When no three listed wires split the components, no three different
    * wires of the listed set do. */
  lemma NoCut(components: map<string, set<string>>, connections: set<Connection>, edges: seq<Connection>)
    requires Elems(edges) == connections && NoneSplit(components, edges)
    ensures NoCutSplits(components, connections)
  {
    forall c1, c2, c3 | c1 in connections && c2 in connections && c3 in connections && Distinct3(c1, c2, c3)
      ensures !SplitsInto(components, {c1, c2, c3}, 2)
    {
      assert c1 in Elems(edges) && c2 in Elems(edges) && c3 in Elems(edges);
      NoneSplitAtAll(components, edges, c1, c2, c3);
    }
  }

  /** `perform_processing`: try every three different wires, in list
    * order, until cutting them leaves exactly two groups; the answer is
    * the product of the two group sizes. No such three wires is an error
    * (the program panics). */
  method PerformProcessing(state: State) returns (r: Result<nat>)
    requires Symmetric(state.components) && forall c | c in state.connections :: c.from in state.components
    ensures r.Ok? ==> SomeCutGives(state.components, state.connections, r.value)
    ensures r.Err? ==> NoCutSplits(state.components, state.connections)
  {
    var edges := ListConnections(state.connections);
    if edges != [] {
      assert edges[0] in Elems(edges);
    }
    var answer := FindCut(state.components, edges);
    if answer.Some? {
      FoundCut(state.components, state.connections, edges, answer.value);
      return Ok(answer.value);
    }
    NoCut(state.components, state.connections, edges);
    r := Err("Didn't find the groups");
  }
}
