// The second version of the pulse network: every module also remembers the
// last pulse from each of its inputs, and part two watches the inputs of
// one conjunction to find how often each of them goes high.
module Day20b {
  import opened Wrappers
  import opened Numbers
  import opened Processor
  import D = Day20

  /** `NotSeen` marks an input of a flip-flop or the broadcaster that has not
    * sent anything yet. */
  datatype Pulse = High | Low | NotSeen

  datatype Module =
    | FlipFlop(on: bool, inputs: map<string, Pulse>, outputs: seq<string>)
    | Conjunction(inputs: map<string, Pulse>, outputs: seq<string>)
    | Broadcast(inputs: map<string, Pulse>, outputs: seq<string>)

  type State = map<string, Module>

  datatype Signal = Signal(source: string, level: Pulse, dest: string)

  // ---------------------------------------------------------------------
  // Parsing

  /** `parse_line`: as in the first version, with every module's inputs
    * empty. */
  function ParseLine(state: State, line: string): (r: Result<State>)
    ensures NextWord(line, D.Delimiters).None? ==> r == Ok(state)
    ensures NextWord(line, D.Delimiters).Some? ==>
              var head := NextWord(line, D.Delimiters).value.text;
              var outputs := Words(NextWord(line, D.Delimiters).value.rest, D.Delimiters);
              (head == D.BroadcasterName ==> r == Ok(state[D.BroadcasterName := Broadcast(map[], outputs)])) &&
              (head[0] == '%' ==> r == Ok(state[head[1..] := FlipFlop(false, map[], outputs)])) &&
              (head[0] == '&' ==> r == Ok(state[head[1..] := Conjunction(map[], outputs)])) &&
              (head != D.BroadcasterName && head[0] != '%' && head[0] != '&' ==> r.Err?)
  {
    match NextWord(line, D.Delimiters)
    case None => Ok(state)
    case Some(w) =>
      var head := w.text;
      var outputs := Words(w.rest, D.Delimiters);
      if head[0] == 'b' then
        if head != D.BroadcasterName then Err("Unexpected module name following 'b'")
        else Ok(state[D.BroadcasterName := Broadcast(map[], outputs)])
      else if head[0] == '%' then Ok(state[head[1..] := FlipFlop(false, map[], outputs)])
      else if head[0] == '&' then Ok(state[head[1..] := Conjunction(map[], outputs)])
      else Err("indecipherable module type/name")
  }

  // ---------------------------------------------------------------------
  // Delivering one pulse

  function Emit(source: string, level: Pulse, outputs: seq<string>): (r: seq<Signal>)
    ensures |r| == |outputs|
    ensures forall i | 0 <= i < |r| :: r[i] == Signal(source, level, outputs[i])
  {
    seq(|outputs|, i requires 0 <= i < |outputs| => Signal(source, level, outputs[i]))
  }

  predicate AllHigh(inputs: map<string, Pulse>) {
    inputs.Keys != {} && forall k | k in inputs :: inputs[k] == High
  }

  /** Delivering one pulse: every kind of module first records the level
    * under the sender's name, then reacts as in the first version; a
    * flip-flop treats anything but Low as it treats High. */
  function Deliver(state: State, s: Signal): (r: (State, seq<Signal>)) {
    if s.dest !in state then (state, [])
    else
      match state[s.dest]
      case Broadcast(inputs, outputs) =>
        (state[s.dest := Broadcast(inputs[s.source := s.level], outputs)], Emit(s.dest, s.level, outputs))
      case FlipFlop(on, inputs, outputs) =>
        var recorded := inputs[s.source := s.level];
        if s.level == Low then
          (state[s.dest := FlipFlop(!on, recorded, outputs)], Emit(s.dest, if !on then High else Low, outputs))
        else (state[s.dest := FlipFlop(on, recorded, outputs)], [])
      case Conjunction(inputs, outputs) =>
        var memory := inputs[s.source := s.level];
        (state[s.dest := Conjunction(memory, outputs)],
         Emit(s.dest, if AllHigh(memory) then Low else High, outputs))
  }

  /** Delivering a pulse changes only the receiving module, which records
    * the level under the sender's name and keeps its outputs; no module is
    * added or removed, and every pulse sent comes from the receiver. */
  lemma DeliverRecordsInput(state: State, s: Signal)
    ensures Deliver(state, s).0.Keys == state.Keys
    ensures forall k | k in state && k != s.dest :: Deliver(state, s).0[k] == state[k]
    ensures s.dest in state ==>
              s.source in Deliver(state, s).0[s.dest].inputs &&
              Deliver(state, s).0[s.dest].inputs[s.source] == s.level &&
              Deliver(state, s).0[s.dest].outputs == state[s.dest].outputs
    ensures forall i | 0 <= i < |Deliver(state, s).1| :: Deliver(state, s).1[i].source == s.dest
  {
  }

  /** No pulse in the list is `NotSeen`. */
  predicate Seen(signals: seq<Signal>) {
    forall i | 0 <= i < |signals| :: signals[i].level != NotSeen
  }

  /** A delivered pulse that is seen only ever causes seen pulses:
    * `NotSeen` lives in the memories and never travels on a wire. */
  lemma DeliverSendsSeen(state: State, s: Signal)
    requires s.level != NotSeen
    ensures Seen(Deliver(state, s).1)
  {
  }

  /** The fold over the memory's values, iterated in an unspecified order. */
  method MemoryAllSame(memory: map<string, Pulse>) returns (r: Option<Pulse>)
    ensures forall p :: r == Some(p) <==> memory.Keys != {} && forall k | k in memory :: memory[k] == p
  {
    if memory.Keys == {} {
      return None;
    }
    var first :| first in memory.Keys;
    r := Some(memory[first]);
    var remaining := memory.Keys;
    while remaining != {}
      invariant remaining <= memory.Keys
      invariant r.Some? ==> r.value == memory[first] && forall k | k in memory.Keys - remaining :: memory[k] == r.value
      invariant r.None? ==> exists k | k in memory.Keys - remaining :: memory[k] != memory[first]
      decreases remaining
    {
      var k :| k in remaining;
      if r != Some(memory[k]) {
        r := None;
      }
      remaining := remaining - {k};
    }
  }

  method Send(queue: seq<Signal>, source: string, level: Pulse, outputs: seq<string>) returns (q: seq<Signal>)
    ensures q == queue + Emit(source, level, outputs)
  {
    q := queue;
    for i := 0 to |outputs|
      invariant q == queue + Emit(source, level, outputs[..i])
    {
      assert Emit(source, level, outputs[..i + 1]) == Emit(source, level, outputs[..i]) + [Signal(source, level, outputs[i])];
      q := q + [Signal(source, level, outputs[i])];
    }
    assert outputs[..|outputs|] == outputs;
  }

  // ---------------------------------------------------------------------
  // A button press

  datatype Outcome = Outcome(state: State, trace: seq<Signal>, finished: bool)

  function Run(state: State, queue: seq<Signal>, fuel: nat): Outcome
    decreases fuel
  {
    if queue == [] then Outcome(state, [], true)
    else if fuel == 0 then Outcome(state, [], false)
    else
      var (next, sent) := Deliver(state, queue[0]);
      var rest := Run(next, queue[1..] + sent, fuel - 1);
      Outcome(rest.state, [queue[0]] + rest.trace, rest.finished)
  }

  const ButtonPulse := Signal(D.ButtonName, Low, D.BroadcasterName)

  function Press(state: State, fuel: nat): Outcome {
    Run(state, [ButtonPulse], fuel)
  }

  function Prepend(done: seq<Signal>, o: Outcome): Outcome {
    Outcome(o.state, done + o.trace, o.finished)
  }

  lemma RunStep(state: State, queue: seq<Signal>, fuel: nat)
    requires queue != [] && fuel > 0
    ensures var (next, sent) := Deliver(state, queue[0]);
            Run(state, queue, fuel) == Prepend([queue[0]], Run(next, queue[1..] + sent, fuel - 1))
  {
  }

  lemma RunStops(state: State, queue: seq<Signal>, fuel: nat)
    requires queue == [] || fuel == 0
    ensures Run(state, queue, fuel) == Outcome(state, [], queue == [])
  {
  }

  lemma PrependAppend(done: seq<Signal>, s: Signal, o: Outcome)
    ensures Prepend(done, Prepend([s], o)) == Prepend(done + [s], o)
  {
    assert done + ([s] + o.trace) == done + [s] + o.trace;
  }

  /** Pulses of the given level in the trace; `NotSeen` is counted as neither. */
  function CountLevel(trace: seq<Signal>, level: Pulse): nat {
    if trace == [] then 0
    else CountLevel(trace[..|trace| - 1], level) + (if trace[|trace| - 1].level == level then 1 else 0)
  }

  lemma {:induction false} CountLevelAppend(trace: seq<Signal>, more: seq<Signal>, level: Pulse)
    ensures CountLevel(trace + more, level) == CountLevel(trace, level) + CountLevel(more, level)
    decreases |more|
  {
    if more == [] {
      assert trace + more == trace;
    } else {
      var front := more[..|more| - 1];
      assert (trace + more)[..|trace + more| - 1] == trace + front;
      CountLevelAppend(trace, front, level);
    }
  }

  // ---------------------------------------------------------------------
  // Priming

  function Edges(state: State): set<(string, string)> {
    set name, output | name in state && output in state[name].outputs :: (name, output)
  }

  function Senders(edges: set<(string, string)>, dest: string): set<string> {
    set e | e in edges && e.1 == dest :: e.0
  }

  function AllAs(senders: set<string>, level: Pulse): map<string, Pulse> {
    map s | s in senders :: level
  }

  /** A module once the given senders are primed: a conjunction remembers
    * Low from each, a flip-flop or the broadcaster NotSeen. */
  function Prime(m: Module, senders: set<string>): Module {
    match m
    case FlipFlop(on, inputs, outputs) => FlipFlop(on, inputs + AllAs(senders, NotSeen), outputs)
    case Broadcast(inputs, outputs) => Broadcast(inputs + AllAs(senders, NotSeen), outputs)
    case Conjunction(inputs, outputs) => Conjunction(inputs + AllAs(senders, Low), outputs)
  }

  function PrimeWith(state: State, edges: set<(string, string)>): State {
    map name | name in state :: Prime(state[name], Senders(edges, name))
  }

  /** The level a module of this kind is primed with. */
  function PrimeLevel(m: Module): Pulse {
    if m.Conjunction? then Low else NotSeen
  }

  function WithInputs(m: Module, inputs: map<string, Pulse>): Module {
    match m
    case FlipFlop(on, _, outputs) => FlipFlop(on, inputs, outputs)
    case Broadcast(_, outputs) => Broadcast(inputs, outputs)
    case Conjunction(_, outputs) => Conjunction(inputs, outputs)
  }

  lemma PrimeNothing(m: Module)
    ensures Prime(m, {}) == m
  {
    assert m.inputs + AllAs({}, PrimeLevel(m)) == m.inputs;
  }

  lemma PrimeOneMore(m: Module, senders: set<string>, source: string)
    ensures Prime(m, senders + {source}) ==
              WithInputs(m, Prime(m, senders).inputs[source := PrimeLevel(m)])
  {
    var level := PrimeLevel(m);
    var before := m.inputs + AllAs(senders, level);
    var after := m.inputs + AllAs(senders + {source}, level);
    assert after.Keys == before[source := level].Keys;
    forall k | k in after
      ensures after[k] == before[source := level][k]
    {
    }
    assert after == before[source := level];
  }

  lemma SendersOneMore(edges: set<(string, string)>, e: (string, string), name: string)
    ensures Senders(edges + {e}, name) == Senders(edges, name) + (if e.1 == name then {e.0} else {})
  {
  }

  /** Priming one more wire (source, destination) updates only the destination. */
  function PrimeEdge(state: State, e: (string, string)): State {
    if e.1 in state
    then state[e.1 := WithInputs(state[e.1], state[e.1].inputs[e.0 := PrimeLevel(state[e.1])])]
    else state
  }

  /** Priming one more wire on top of the wires `done` primes `done + {e}`. */
  lemma PrimeWithOneMore(start: State, done: set<(string, string)>, e: (string, string))
    ensures PrimeEdge(PrimeWith(start, done), e) == PrimeWith(start, done + {e})
  {
    var before := PrimeWith(start, done);
    forall name | name in start
      ensures PrimeEdge(before, e)[name] == Prime(start[name], Senders(done + {e}, name))
    {
      SendersOneMore(done, e, name);
      if name == e.1 {
        PrimeOneMore(start[name], Senders(done, name), e.0);
      } else {
        assert Senders(done + {e}, name) == Senders(done, name);
      }
    }
  }

  lemma PrimeWithNothing(start: State)
    ensures PrimeWith(start, {}) == start
  {
    forall name | name in start
      ensures Prime(start[name], Senders({}, name)) == start[name]
    {
      PrimeNothing(start[name]);
    }
  }

  /** After priming, every module records each module wired into it: a
    * conjunction as Low, a flip-flop or the broadcaster as NotSeen. */
  lemma PrimedInputs(state: State)
    ensures var primed := PrimeWith(state, Edges(state));
            primed.Keys == state.Keys &&
            (forall name | name in state ::
               WithInputs(state[name], primed[name].inputs) == primed[name]) &&
            (forall source, dest | source in state && dest in state && dest in state[source].outputs ::
               source in primed[dest].inputs && primed[dest].inputs[source] == PrimeLevel(state[dest]))
  {
    var primed := PrimeWith(state, Edges(state));
    forall source, dest | source in state && dest in state && dest in state[source].outputs
      ensures source in primed[dest].inputs && primed[dest].inputs[source] == PrimeLevel(state[dest])
    {
      assert (source, dest) in Edges(state);
      assert source in Senders(Edges(state), dest);
    }
  }

  // ---------------------------------------------------------------------
  // Repeated presses

  datatype Tally = Tally(state: State, low: nat, high: nat, finished: bool)

  function Presses(state: State, n: nat, fuel: nat): Tally {
    if n == 0 then Tally(state, 0, 0, true)
    else
      var t := Presses(state, n - 1, fuel);
      if !t.finished then t
      else
        var o := Press(t.state, fuel);
        Tally(o.state, t.low + CountLevel(o.trace, Low), t.high + CountLevel(o.trace, High), o.finished)
  }

  lemma {:induction false} PressesStayUnfinished(state: State, n: nat, n': nat, fuel: nat)
    requires n <= n' && !Presses(state, n, fuel).finished
    ensures Presses(state, n', fuel) == Presses(state, n, fuel)
    decreases n' - n
  {
    if n < n' {
      PressesStayUnfinished(state, n, n' - 1, fuel);
    }
  }

  // ---------------------------------------------------------------------
  // Watching the inputs of one conjunction

  /** After a press the gate is a conjunction whose last pulse from `w` was High. */
  predicate HighAt(state: State, gate: string, w: string) {
    gate in state && state[gate].Conjunction? && w in state[gate].inputs && state[gate].inputs[w] == High
  }

  /** Press `j` (from 1) is the first after which the gate remembers High from `w`. */
  predicate FirstHigh(state: State, gate: string, w: string, j: nat, fuel: nat) {
    j >= 1 && Presses(state, j, fuel).finished && HighAt(Presses(state, j, fuel).state, gate, w) &&
    forall j' | 1 <= j' < j :: !HighAt(Presses(state, j', fuel).state, gate, w)
  }

  /** A watched name not yet recorded that the gate has never heard from:
    * `inputs.get(name).unwrap()` fails. */
  predicate Missing(inputs: map<string, Pulse>, watched: seq<string>, recorded: seq<Option<nat>>)
    requires |recorded| == |watched|
  {
    exists i | 0 <= i < |watched| :: recorded[i].None? && watched[i] !in inputs
  }

  /** Records press `n` for every watched name not yet recorded whose last
    * pulse was High. */
  function Observe(inputs: map<string, Pulse>, watched: seq<string>, recorded: seq<Option<nat>>, n: nat): (r: seq<Option<nat>>)
    requires |recorded| == |watched|
    requires !Missing(inputs, watched, recorded)
    ensures |r| == |watched|
    ensures forall i | 0 <= i < |watched| ::
              r[i] == if recorded[i].None? && inputs[watched[i]] == High then Some(n) else recorded[i]
  {
    seq(|watched|, i requires 0 <= i < |watched| =>
      if recorded[i].None? && inputs[watched[i]] == High then Some(n) else recorded[i])
  }

  predicate AllRecorded(recorded: seq<Option<nat>>) {
    forall i | 0 <= i < |recorded| :: recorded[i].Some?
  }

  function Unwrapped(recorded: seq<Option<nat>>): (r: seq<nat>)
    requires AllRecorded(recorded)
    ensures |r| == |recorded| && forall i | 0 <= i < |r| :: Some(r[i]) == recorded[i]
  {
    seq(|recorded|, i requires 0 <= i < |recorded| => recorded[i].value)
  }

  function Nones(n: nat): (r: seq<Option<nat>>)
    ensures |r| == n && forall i | 0 <= i < n :: r[i].None?
  {
    seq(n, _ => None)
  }

  /** Where the watch stops: the network, and the press numbers recorded
    * for the watched names (or why there are none). */
  datatype Watch = Watch(state: State, presses: Result<seq<nat>>)

  /** Presses the button until every watched input of `gate` has been seen
    * High after some press; `maxPresses` bounds the presses. */
  function Cadences(state: State, gate: string, watched: seq<string>, fuel: nat,
                    pressed: nat, maxPresses: nat, recorded: seq<Option<nat>>): Watch
    requires |recorded| == |watched|
    decreases maxPresses - pressed
  {
    if pressed >= maxPresses then Watch(state, Err("no cadence within the press limit"))
    else
      var o := Press(state, fuel);
      if !o.finished then Watch(o.state, Err("a press did not settle"))
      else if gate in o.state && o.state[gate].Conjunction? && Missing(o.state[gate].inputs, watched, recorded) then
        Watch(o.state, Err("watched input missing"))
      else
        var next := if gate in o.state && o.state[gate].Conjunction?
                    then Observe(o.state[gate].inputs, watched, recorded, pressed + 1)
                    else recorded;
        if AllRecorded(next) then Watch(o.state, Ok(Unwrapped(next)))
        else Cadences(o.state, gate, watched, fuel, pressed + 1, maxPresses, next)
  }

  /** The watch after `k` presses: every recorded number is the first press
    * to show its name High, and no name still unrecorded has shown High. */
  predicate WatchedSoFar(state: State, gate: string, watched: seq<string>, fuel: nat, k: nat,
                         recorded: seq<Option<nat>>)
  {
    |recorded| == |watched| && Presses(state, k, fuel).finished &&
    (forall i | 0 <= i < |watched| && recorded[i].Some? ::
       recorded[i].value <= k && FirstHigh(state, gate, watched[i], recorded[i].value, fuel)) &&
    (forall i | 0 <= i < |watched| && recorded[i].None? ::
       forall j | 1 <= j <= k :: !HighAt(Presses(state, j, fuel).state, gate, watched[i]))
  }

  lemma ObserveKeepsWatch(state: State, gate: string, watched: seq<string>, fuel: nat, k: nat,
                          recorded: seq<Option<nat>>, next: seq<Option<nat>>)
    requires WatchedSoFar(state, gate, watched, fuel, k, recorded)
    requires Presses(state, k + 1, fuel).finished
    requires var after := Presses(state, k + 1, fuel).state;
             |next| == |watched| &&
             forall i | 0 <= i < |watched| ::
               next[i] == if recorded[i].None? && HighAt(after, gate, watched[i]) then Some(k + 1) else recorded[i]
    ensures WatchedSoFar(state, gate, watched, fuel, k + 1, next)
  {
    forall i | 0 <= i < |watched| && next[i].Some?
      ensures next[i].value <= k + 1 && FirstHigh(state, gate, watched[i], next[i].value, fuel)
    {
    }
  }

  lemma {:induction false} CadencesFrom(state: State, gate: string, watched: seq<string>, fuel: nat,
                                        k: nat, maxPresses: nat, recorded: seq<Option<nat>>)
    requires WatchedSoFar(state, gate, watched, fuel, k, recorded)
    ensures var p := Cadences(Presses(state, k, fuel).state, gate, watched, fuel, k, maxPresses, recorded).presses;
            p.Ok? ==> |p.value| == |watched| &&
                      forall i | 0 <= i < |watched| :: FirstHigh(state, gate, watched[i], p.value[i], fuel)
    decreases maxPresses - k
  {
    if k < maxPresses {
      var o := Press(Presses(state, k, fuel).state, fuel);
      if o.finished {
        assert Presses(state, k + 1, fuel).state == o.state;
        assert Presses(state, k + 1, fuel).finished;
        var gated := gate in o.state && o.state[gate].Conjunction?;
        if !(gated && Missing(o.state[gate].inputs, watched, recorded)) {
          var next := if gated then Observe(o.state[gate].inputs, watched, recorded, k + 1) else recorded;
          ObserveKeepsWatch(state, gate, watched, fuel, k, recorded, next);
          if AllRecorded(next) {
            var js := Unwrapped(next);
            forall i | 0 <= i < |watched|
              ensures FirstHigh(state, gate, watched[i], js[i], fuel)
            {
              assert next[i] == Some(js[i]);
            }
          } else {
            CadencesFrom(state, gate, watched, fuel, k + 1, maxPresses, next);
          }
        }
      }
    }
  }

  /** Every press number part two reports is, for its watched name, the
    * first press after which the gate remembers High from that name. */
  lemma CadencesAreFirstHighs(state: State, gate: string, watched: seq<string>, fuel: nat, maxPresses: nat)
    ensures var p := Cadences(state, gate, watched, fuel, 0, maxPresses, Nones(|watched|)).presses;
            p.Ok? ==> |p.value| == |watched| &&
                      forall i | 0 <= i < |watched| :: FirstHigh(state, gate, watched[i], p.value[i], fuel)
  {
    CadencesFrom(state, gate, watched, fuel, 0, maxPresses, Nones(|watched|));
  }

  /** When the gate is a conjunction it remembers every watched name, so
    * none of the reads `inputs.get(name).unwrap()` fails. */
  predicate GateKnows(state: State, gate: string, watched: seq<string>) {
    gate in state && state[gate].Conjunction? ==> forall i | 0 <= i < |watched| :: watched[i] in state[gate].inputs
  }

  /** Presses that all finished were preceded by presses that all finished. */
  lemma PressesFinishedBefore(state: State, m: nat, n: nat, fuel: nat)
    requires m <= n && Presses(state, n, fuel).finished
    ensures Presses(state, m, fuel).finished
  {
    if !Presses(state, m, fuel).finished {
      PressesStayUnfinished(state, m, n, fuel);
    }
  }

  /** The names recorded by the watch after the press numbered `k + 1`. */
  function NextRecorded(after: State, gate: string, watched: seq<string>, recorded: seq<Option<nat>>, k: nat): seq<Option<nat>>
    requires |recorded| == |watched|
    requires !(gate in after && after[gate].Conjunction? && Missing(after[gate].inputs, watched, recorded))
  {
    if gate in after && after[gate].Conjunction? then Observe(after[gate].inputs, watched, recorded, k + 1) else recorded
  }

  /** One press of the watch that finishes and reads the gate's memory. */
  lemma CadencesStep(state: State, gate: string, watched: seq<string>, fuel: nat,
                     k: nat, maxPresses: nat, recorded: seq<Option<nat>>)
    requires |recorded| == |watched| && k < maxPresses
    requires var o := Press(state, fuel);
             o.finished && !(gate in o.state && o.state[gate].Conjunction? && Missing(o.state[gate].inputs, watched, recorded))
    ensures var o := Press(state, fuel);
            var next := NextRecorded(o.state, gate, watched, recorded, k);
            Cadences(state, gate, watched, fuel, k, maxPresses, recorded) ==
              if AllRecorded(next) then Watch(o.state, Ok(Unwrapped(next)))
              else Cadences(o.state, gate, watched, fuel, k + 1, maxPresses, next)
  {
  }

  /** After press `k + 1` the watch has recorded exactly the names whose
    * first High press is at most `k + 1`. */
  lemma NextRecordedFirstHighs(state: State, gate: string, watched: seq<string>, fuel: nat,
                               k: nat, recorded: seq<Option<nat>>, js: seq<nat>)
    requires |js| == |watched| && |recorded| == |watched|
    requires forall i | 0 <= i < |watched| :: FirstHigh(state, gate, watched[i], js[i], fuel)
    requires forall i | 0 <= i < |watched| :: recorded[i] == if js[i] <= k then Some(js[i]) else None
    requires var after := Presses(state, k + 1, fuel).state;
             GateKnows(after, gate, watched) &&
             !(gate in after && after[gate].Conjunction? && Missing(after[gate].inputs, watched, recorded))
    ensures var next := NextRecorded(Presses(state, k + 1, fuel).state, gate, watched, recorded, k);
            |next| == |watched| && forall i | 0 <= i < |watched| :: next[i] == if js[i] <= k + 1 then Some(js[i]) else None
  {
    var after := Presses(state, k + 1, fuel).state;
    var next := NextRecorded(after, gate, watched, recorded, k);
    forall i | 0 <= i < |watched|
      ensures next[i] == if js[i] <= k + 1 then Some(js[i]) else None
    {
      if js[i] == k + 1 {
        assert HighAt(Presses(state, js[i], fuel).state, gate, watched[i]);
      } else if js[i] > k + 1 {
        assert !HighAt(after, gate, watched[i]);
      }
    }
  }

  /** Press `k + 1` finishing means the presses before it finished and it
    * is made on the network they left. */
  lemma PressesStepBack(state: State, k: nat, fuel: nat)
    requires Presses(state, k + 1, fuel).finished
    ensures Presses(state, k, fuel).finished
    ensures var o := Press(Presses(state, k, fuel).state, fuel);
            o.finished && Presses(state, k + 1, fuel).state == o.state
  {
  }

  lemma UnwrappedAll(recorded: seq<Option<nat>>, js: seq<nat>, k: nat)
    requires |recorded| == |js| && AllRecorded(recorded)
    requires forall i | 0 <= i < |js| :: recorded[i] == if js[i] <= k then Some(js[i]) else None
    ensures Unwrapped(recorded) == js
  {
    var u := Unwrapped(recorded);
    forall i | 0 <= i < |js|
      ensures u[i] == js[i]
    {
      assert recorded[i] == Some(u[i]);
    }
  }

  /** Every watched name has its first High press `js[i]` within `last`
    * presses, `last` is within the limit, those presses all finish, and
    * the gate's memory reads after each of them. */
  ghost predicate FirstHighsWithin(state: State, gate: string, watched: seq<string>, fuel: nat,
                                   maxPresses: nat, js: seq<nat>, last: nat)
  {
    |js| == |watched| && 1 <= last <= maxPresses && Presses(state, last, fuel).finished &&
    (forall i | 0 <= i < |watched| :: js[i] <= last && FirstHigh(state, gate, watched[i], js[i], fuel)) &&
    forall n | 1 <= n <= last :: GateKnows(Presses(state, n, fuel).state, gate, watched)
  }

  /** The watch has recorded exactly the names whose first High press is
    * at most `k`. */
  predicate RecordedUpTo(recorded: seq<Option<nat>>, js: seq<nat>, k: nat) {
    |recorded| == |js| && forall i | 0 <= i < |js| :: recorded[i] == if js[i] <= k then Some(js[i]) else None
  }

  /** One press of the watch towards the first High presses `js`: the
    * press finishes, the gate's memory reads, and the names with first
    * High press at most `k + 1` are then recorded. */
  lemma CadencesCompleteStep(state: State, gate: string, watched: seq<string>, fuel: nat,
                             k: nat, maxPresses: nat, recorded: seq<Option<nat>>,
                             js: seq<nat>, last: nat)
    requires FirstHighsWithin(state, gate, watched, fuel, maxPresses, js, last)
    requires k < last && RecordedUpTo(recorded, js, k)
    ensures var after := Presses(state, k + 1, fuel).state;
            !(gate in after && after[gate].Conjunction? && Missing(after[gate].inputs, watched, recorded))
    ensures var after := Presses(state, k + 1, fuel).state;
            var next := NextRecorded(after, gate, watched, recorded, k);
            RecordedUpTo(next, js, k + 1) &&
            Cadences(Presses(state, k, fuel).state, gate, watched, fuel, k, maxPresses, recorded) ==
              if AllRecorded(next) then Watch(after, Ok(Unwrapped(next)))
              else Cadences(after, gate, watched, fuel, k + 1, maxPresses, next)
  {
    PressesFinishedBefore(state, k + 1, last, fuel);
    PressesStepBack(state, k, fuel);
    assert GateKnows(Presses(state, k + 1, fuel).state, gate, watched);
    CadencesStep(Presses(state, k, fuel).state, gate, watched, fuel, k, maxPresses, recorded);
    NextRecordedFirstHighs(state, gate, watched, fuel, k, recorded, js);
  }

  lemma {:induction false} CadencesCompleteFrom(state: State, gate: string, watched: seq<string>, fuel: nat,
                                                k: nat, maxPresses: nat, recorded: seq<Option<nat>>,
                                                js: seq<nat>, last: nat)
    requires FirstHighsWithin(state, gate, watched, fuel, maxPresses, js, last)
    requires k < last && RecordedUpTo(recorded, js, k)
    ensures Cadences(Presses(state, k, fuel).state, gate, watched, fuel, k, maxPresses, recorded).presses == Ok(js)
    decreases last - k
  {
    CadencesCompleteStep(state, gate, watched, fuel, k, maxPresses, recorded, js, last);
    var next := NextRecorded(Presses(state, k + 1, fuel).state, gate, watched, recorded, k);
    if AllRecorded(next) {
      UnwrappedAll(next, js, k + 1);
    } else {
      var i :| 0 <= i < |next| && next[i].None?;
      assert k + 1 < js[i] <= last;
      CadencesCompleteFrom(state, gate, watched, fuel, k + 1, maxPresses, next, js, last);
    }
  }

  /** Part two does not give up too early: when every watched name has a
    * first High press within `last` presses, `last` is within the limit,
    * those presses all finish, and the gate's memory can be read after
    * each of them, the watch reports exactly those first High presses. */
  lemma CadencesComplete(state: State, gate: string, watched: seq<string>, fuel: nat, maxPresses: nat,
                         js: seq<nat>, last: nat)
    requires |js| == |watched|
    requires 1 <= last <= maxPresses && Presses(state, last, fuel).finished
    requires forall i | 0 <= i < |watched| :: js[i] <= last && FirstHigh(state, gate, watched[i], js[i], fuel)
    requires forall n | 1 <= n <= last :: GateKnows(Presses(state, n, fuel).state, gate, watched)
    ensures Cadences(state, gate, watched, fuel, 0, maxPresses, Nones(|watched|)).presses == Ok(js)
  {
    assert FirstHighsWithin(state, gate, watched, fuel, maxPresses, js, last);
    CadencesCompleteFrom(state, gate, watched, fuel, 0, maxPresses, Nones(|watched|), js, last);
  }

  /** Part two's answer: the lcm of the recorded press numbers. */
  function Part2Answer(w: Watch): Result<nat> {
    match w.presses
    case Err(e) => Err(e)
    case Ok(js) => if js == [] then Err("nothing watched") else Ok(LcmAll(js))
  }

  /** The answer is a positive common multiple of every watched name's first
    * High press: a press number at which all of them line up. */
  lemma Part2AnswerIsCommonMultiple(state: State, gate: string, watched: seq<string>, fuel: nat, maxPresses: nat)
    requires |watched| > 0
    ensures var w := Cadences(state, gate, watched, fuel, 0, maxPresses, Nones(|watched|));
            Part2Answer(w).Ok? ==>
              w.presses.Ok? && |w.presses.value| == |watched| && Part2Answer(w).value > 0 &&
              forall i | 0 <= i < |watched| ::
                FirstHigh(state, gate, watched[i], w.presses.value[i], fuel) &&
                w.presses.value[i] > 0 && Part2Answer(w).value % w.presses.value[i] == 0
  {
    var w := Cadences(state, gate, watched, fuel, 0, maxPresses, Nones(|watched|));
    CadencesAreFirstHighs(state, gate, watched, fuel, maxPresses);
    if w.presses.Ok? && w.presses.value != [] {
      LcmAllIsCommonMultiple(w.presses.value);
    }
  }

  /** No smaller positive press count lines the watched names up: the
    * answer divides every positive common multiple of their first High
    * presses. */
  lemma Part2AnswerIsLeast(state: State, gate: string, watched: seq<string>, fuel: nat, maxPresses: nat, m: nat)
    requires |watched| > 0 && m > 0
    requires var w := Cadences(state, gate, watched, fuel, 0, maxPresses, Nones(|watched|));
             w.presses.Ok? && |w.presses.value| == |watched| &&
             forall i | 0 <= i < |watched| :: w.presses.value[i] > 0 && m % w.presses.value[i] == 0
    ensures var w := Cadences(state, gate, watched, fuel, 0, maxPresses, Nones(|watched|));
            Part2Answer(w).Ok? && Part2Answer(w).value > 0 && m % Part2Answer(w).value == 0 && Part2Answer(w).value <= m
  {
    var w := Cadences(state, gate, watched, fuel, 0, maxPresses, Nones(|watched|));
    Part2AnswerIsCommonMultiple(state, gate, watched, fuel, maxPresses);
    assert w.presses.value != [];
    LcmAllIsLeast(w.presses.value, m);
  }

  // ---------------------------------------------------------------------
  // The network, changed in place

  class Network {
    var state: State

    constructor (state: State)
      ensures this.state == state
    {
      this.state := state;
    }

    method DeliverPulse(s: Signal, queue: seq<Signal>) returns (q: seq<Signal>)
      modifies this
      ensures state == Deliver(old(state), s).0
      ensures q == queue + Deliver(old(state), s).1
    {
      q := queue;
      if s.dest in state {
        match state[s.dest]
        case Broadcast(inputs, outputs) =>
          state := state[s.dest := Broadcast(inputs[s.source := s.level], outputs)];
          q := Send(q, s.dest, s.level, outputs);
        case FlipFlop(on, inputs, outputs) =>
          var recorded := inputs[s.source := s.level];
          if s.level == Low {
            state := state[s.dest := FlipFlop(!on, recorded, outputs)];
            q := Send(q, s.dest, if !on then High else Low, outputs);
          } else {
            state := state[s.dest := FlipFlop(on, recorded, outputs)];
            assert q == queue + [];
          }
        case Conjunction(inputs, outputs) =>
          var memory := inputs[s.source := s.level];
          state := state[s.dest := Conjunction(memory, outputs)];
          var same := MemoryAllSame(memory);
          assert same == Some(High) <==> AllHigh(memory);
          q := Send(q, s.dest, if same == Some(High) then Low else High, outputs);
      } else {
        assert q == queue + [];
      }
    }

    /** `push_button`: the low and high pulses delivered by one press. */
    method PushButton(fuel: nat) returns (low: nat, high: nat, finished: bool)
      modifies this
      ensures var o := Press(old(state), fuel);
              state == o.state && finished == o.finished &&
              low == CountLevel(o.trace, Low) && high == CountLevel(o.trace, High)
    {
      ghost var start := state;
      ghost var done: seq<Signal> := [];
      var queue := [ButtonPulse];
      low, high := 0, 0;
      var steps: nat := 0;
      while queue != [] && steps < fuel
        invariant steps <= fuel
        invariant Press(start, fuel) == Prepend(done, Run(state, queue, fuel - steps))
        invariant low == CountLevel(done, Low) && high == CountLevel(done, High)
        decreases fuel - steps
      {
        ghost var before := state;
        ghost var pending := queue;
        var s := queue[0];
        queue := queue[1..];
        CountLevelAppend(done, [s], Low);
        CountLevelAppend(done, [s], High);
        if s.level == Low {
          low := low + 1;
        } else if s.level == High {
          high := high + 1;
        }
        queue := DeliverPulse(s, queue);
        RunStep(before, pending, fuel - steps);
        PrependAppend(done, s, Run(state, queue, fuel - steps - 1));
        done := done + [s];
        steps := steps + 1;
      }
      RunStops(state, queue, fuel - steps);
      assert done + [] == done;
      finished := queue == [];
    }

    /** One wire of `finalise_state`: the receiver records the sender as
      * an input, Low for a conjunction and not seen otherwise. */
    method PrimeInput(e: (string, string))
      modifies this
      ensures state == PrimeEdge(old(state), e)
    {
      var (source, destination) := e;
      if destination in state {
        match state[destination]
        case FlipFlop(on, inputs, outputs) =>
          state := state[destination := FlipFlop(on, inputs[source := NotSeen], outputs)];
        case Broadcast(inputs, outputs) =>
          state := state[destination := Broadcast(inputs[source := NotSeen], outputs)];
        case Conjunction(inputs, outputs) =>
          state := state[destination := Conjunction(inputs[source := Low], outputs)];
      }
    }

    /** `finalise_state`: every module records each module wired into it,
      * conjunctions as Low and the other kinds as NotSeen. */
    method FinaliseState()
      modifies this
      ensures state == PrimeWith(old(state), Edges(old(state)))
    {
      ghost var start := state;
      var sourceDestinations := Edges(state);
      var remaining := sourceDestinations;
      PrimeWithNothing(start);
      while remaining != {}
        invariant remaining <= sourceDestinations
        invariant state == PrimeWith(start, sourceDestinations - remaining)
        decreases remaining
      {
        ghost var done := sourceDestinations - remaining;
        var e :| e in remaining;
        PrimeInput(e);
        PrimeWithOneMore(start, done, e);
        remaining := remaining - {e};
        assert sourceDestinations - remaining == done + {e};
      }
      assert sourceDestinations - remaining == sourceDestinations;
    }

    /** `perform_processing_1`: 1000 presses; the product of the low and
      * high totals. None when a press runs out of fuel. */
    method PerformProcessing1(fuel: nat) returns (r: Option<nat>)
      modifies this
      ensures var t := Presses(old(state), D.NumIterations, fuel);
              state == t.state && r == (if t.finished then Some(t.low * t.high) else None)
    {
      ghost var start := state;
      var lowCount, highCount := 0, 0;
      for i := 0 to D.NumIterations
        invariant Presses(start, i, fuel) == Tally(state, lowCount, highCount, true)
      {
        var low, high, finished := PushButton(fuel);
        lowCount := lowCount + low;
        highCount := highCount + high;
        if !finished {
          PressesStayUnfinished(start, i + 1, D.NumIterations, fuel);
          return None;
        }
      }
      r := Some(lowCount * highCount);
    }

    /** One pass of `perform_processing_2`'s checks on the gate's memory:
      * Err when a watched name not yet recorded is absent from it. */
    method RecordHighs(inputs: map<string, Pulse>, watched: seq<string>, recorded: seq<Option<nat>>, n: nat)
      returns (r: Result<seq<Option<nat>>>)
      requires |recorded| == |watched|
      ensures Missing(inputs, watched, recorded) <==> r.Err?
      ensures r.Ok? ==> r.value == Observe(inputs, watched, recorded, n)
    {
      var next := recorded;
      for i := 0 to |watched|
        invariant |next| == |watched|
        invariant forall j | 0 <= j < i :: recorded[j].None? ==> watched[j] in inputs
        invariant forall j | 0 <= j < i ::
                    next[j] == if recorded[j].None? && inputs[watched[j]] == High then Some(n) else recorded[j]
        invariant forall j | i <= j < |watched| :: next[j] == recorded[j]
      {
        if next[i].None? {
          if watched[i] !in inputs {
            return Err("watched input missing");
          }
          if inputs[watched[i]] == High {
            next := next[i := Some(n)];
          }
        }
      }
      r := Ok(next);
    }

    /** `perform_processing_2`: presses the button until the gate has
      * remembered High from every watched name after some press, then
      * answers the lcm of those press numbers. */
    method PerformProcessing2(gate: string, watched: seq<string>, maxPresses: nat, fuel: nat)
      returns (r: Result<nat>)
      requires |watched| > 0
      modifies this
      ensures var w := Cadences(old(state), gate, watched, fuel, 0, maxPresses, Nones(|watched|));
              state == w.state && r == Part2Answer(w)
    {
      ghost var start := state;
      var recorded := Nones(|watched|);
      var numPresses := 0;
      while numPresses < maxPresses
        invariant numPresses <= maxPresses && |recorded| == |watched|
        invariant Cadences(start, gate, watched, fuel, 0, maxPresses, Nones(|watched|)) ==
                  Cadences(state, gate, watched, fuel, numPresses, maxPresses, recorded)
        decreases maxPresses - numPresses
      {
        numPresses := numPresses + 1;
        var _, _, finished := PushButton(fuel);
        if !finished {
          return Err("a press did not settle");
        }
        if gate in state && state[gate].Conjunction? {
          var next := RecordHighs(state[gate].inputs, watched, recorded, numPresses);
          if next.Err? {
            return Err("watched input missing");
          }
          recorded := next.value;
        }
        if forall i | 0 <= i < |recorded| :: recorded[i].Some? {
          return Ok(LcmAll(Unwrapped(recorded)));
        }
      }
      r := Err("no cadence within the press limit");
    }
  }

  // ---------------------------------------------------------------------
  // Agreement with the first version

  /** Forgetting the inputs: a flip-flop's and the broadcaster's record is
    * dropped, and a conjunction's NotSeen (never sent) reads as Low. */
  function Lower(p: Pulse): D.Pulse {
    if p == High then D.High else D.Low
  }

  function LowerMemory(inputs: map<string, Pulse>): map<string, D.Pulse> {
    map k | k in inputs :: Lower(inputs[k])
  }

  function LowerModule(m: Module): D.Module {
    match m
    case FlipFlop(on, _, outputs) => D.FlipFlop(on, outputs)
    case Conjunction(inputs, outputs) => D.Conjunction(LowerMemory(inputs), outputs)
    case Broadcast(_, outputs) => D.Broadcast(outputs)
  }

  function LowerState(state: State): D.State {
    map k | k in state :: LowerModule(state[k])
  }

  function LowerSignal(s: Signal): D.Signal {
    D.Signal(s.source, Lower(s.level), s.dest)
  }

  function LowerTrace(t: seq<Signal>): (r: seq<D.Signal>)
    ensures |r| == |t| && forall i | 0 <= i < |t| :: r[i] == LowerSignal(t[i])
  {
    seq(|t|, i requires 0 <= i < |t| => LowerSignal(t[i]))
  }

  lemma LowerTraceAppend(a: seq<Signal>, b: seq<Signal>)
    ensures LowerTrace(a + b) == LowerTrace(a) + LowerTrace(b)
  {
  }

  lemma LowerMemoryUpdate(inputs: map<string, Pulse>, k: string, p: Pulse)
    ensures LowerMemory(inputs[k := p]) == LowerMemory(inputs)[k := Lower(p)]
  {
  }

  lemma AllHighLowered(inputs: map<string, Pulse>)
    ensures AllHigh(inputs) <==> D.AllHigh(LowerMemory(inputs))
  {
    var low := LowerMemory(inputs);
    if D.AllHigh(low) {
      var k :| k in low;
      assert k in inputs.Keys;
      forall k | k in inputs
        ensures inputs[k] == High
      {
        assert low[k] == D.High;
      }
    }
    if AllHigh(inputs) {
      var k :| k in inputs;
      assert k in low.Keys;
    }
  }

  lemma LowerStateUpdate(state: State, k: string, m: Module)
    ensures LowerState(state[k := m]) == LowerState(state)[k := LowerModule(m)]
  {
  }

  /** Delivering a seen pulse and then forgetting the inputs is the same as
    * forgetting them first and delivering in the first version. */
  lemma DeliverAgrees(state: State, s: Signal)
    requires s.level != NotSeen
    ensures LowerState(Deliver(state, s).0) == D.Deliver(LowerState(state), LowerSignal(s)).0
    ensures LowerTrace(Deliver(state, s).1) == D.Deliver(LowerState(state), LowerSignal(s)).1
  {
    if s.dest in state {
      var m := state[s.dest];
      var memory := m.inputs[s.source := s.level];
      LowerMemoryUpdate(m.inputs, s.source, s.level);
      AllHighLowered(memory);
      LowerStateUpdate(state, s.dest, Deliver(state, s).0[s.dest]);
      assert Deliver(state, s).0 == state[s.dest := Deliver(state, s).0[s.dest]];
    }
  }

  /** A run from a queue of seen pulses agrees with the first version's run
    * from the same queue, pulse for pulse. */
  lemma {:induction false} RunAgrees(state: State, queue: seq<Signal>, fuel: nat)
    requires Seen(queue)
    ensures var o := Run(state, queue, fuel);
            var o' := D.Run(LowerState(state), LowerTrace(queue), fuel);
            LowerState(o.state) == o'.state && LowerTrace(o.trace) == o'.trace &&
            o.finished == o'.finished && Seen(o.trace)
    decreases fuel
  {
    var low := LowerTrace(queue);
    if queue != [] && fuel > 0 {
      var (next, sent) := Deliver(state, queue[0]);
      var (next', sent') := D.Deliver(LowerState(state), low[0]);
      QueueStepAgrees(state, queue);
      RunAgrees(next, queue[1..] + sent, fuel - 1);
      var o := Run(next, queue[1..] + sent, fuel - 1);
      RunStep(state, queue, fuel);
      D.RunStep(LowerState(state), low, fuel);
      LowerTraceAppend([queue[0]], o.trace);
      assert LowerTrace([queue[0]]) == [low[0]];
      SeenPrepend(queue[0], o.trace);
    } else {
      RunStops(state, queue, fuel);
      D.RunStops(LowerState(state), low, fuel);
    }
  }

  lemma SeenPrepend(s: Signal, trace: seq<Signal>)
    requires s.level != NotSeen && Seen(trace)
    ensures Seen([s] + trace)
  {
    forall i | 0 <= i < |[s] + trace|
      ensures ([s] + trace)[i].level != NotSeen
    {
      if i > 0 {
        assert ([s] + trace)[i] == trace[i - 1];
      }
    }
  }

  /** One delivery from a queue of seen pulses leaves a queue of seen
    * pulses, lowered to the first version's next queue. */
  lemma QueueStepAgrees(state: State, queue: seq<Signal>)
    requires Seen(queue) && queue != []
    ensures var (next, sent) := Deliver(state, queue[0]);
            var (next', sent') := D.Deliver(LowerState(state), LowerTrace(queue)[0]);
            LowerState(next) == next' && LowerTrace(queue[1..] + sent) == LowerTrace(queue)[1..] + sent' &&
            Seen(queue[1..] + sent)
  {
    var (next, sent) := Deliver(state, queue[0]);
    DeliverAgrees(state, queue[0]);
    DeliverSendsSeen(state, queue[0]);
    LowerTraceAppend(queue[1..], sent);
    assert LowerTrace(queue[1..]) == LowerTrace(queue)[1..];
  }

  lemma {:induction false} CountLevelAgrees(trace: seq<Signal>, level: Pulse)
    requires Seen(trace) && level != NotSeen
    ensures CountLevel(trace, level) == D.CountLevel(LowerTrace(trace), Lower(level))
  {
    if trace != [] {
      var front := trace[..|trace| - 1];
      assert LowerTrace(trace)[..|trace| - 1] == LowerTrace(front);
      CountLevelAgrees(front, level);
    }
  }

  /** Recording inputs changes nothing that part one counts: `n` presses
    * give the same totals as in the first version. */
  lemma {:induction false} PressesAgree(state: State, n: nat, fuel: nat)
    ensures var t := Presses(state, n, fuel);
            var t' := D.Presses(LowerState(state), n, fuel);
            LowerState(t.state) == t'.state && t.low == t'.low && t.high == t'.high && t.finished == t'.finished
  {
    if n > 0 {
      PressesAgree(state, n - 1, fuel);
      var t := Presses(state, n - 1, fuel);
      if t.finished {
        assert Seen([ButtonPulse]);
        assert LowerTrace([ButtonPulse]) == [D.ButtonPulse];
        RunAgrees(t.state, [ButtonPulse], fuel);
        var o := Press(t.state, fuel);
        CountLevelAgrees(o.trace, Low);
        CountLevelAgrees(o.trace, High);
      }
    }
  }

  /** Both versions read a line into the same network, up to the inputs. */
  lemma ParseLineAgrees(state: State, line: string)
    ensures ParseLine(state, line).Ok? == D.ParseLine(LowerState(state), line).Ok?
    ensures ParseLine(state, line).Ok? ==>
              LowerState(ParseLine(state, line).value) == D.ParseLine(LowerState(state), line).value
  {
    match NextWord(line, D.Delimiters)
    case None =>
    case Some(w) =>
      var outputs := Words(w.rest, D.Delimiters);
      if w.text == D.BroadcasterName {
        LowerStateUpdate(state, D.BroadcasterName, Broadcast(map[], outputs));
      } else if w.text[0] == '%' {
        LowerStateUpdate(state, w.text[1..], FlipFlop(false, map[], outputs));
      } else if w.text[0] == '&' {
        LowerStateUpdate(state, w.text[1..], Conjunction(map[], outputs));
        assert LowerMemory(map[]) == map[];
      }
  }

  /** Both versions prime the same conjunction memories. */
  lemma PrimeAgrees(state: State)
    ensures LowerState(PrimeWith(state, Edges(state))) == D.PrimeWith(LowerState(state), D.Edges(LowerState(state)))
  {
    var low := LowerState(state);
    EdgesAgree(state);
    forall name | name in state
      ensures LowerModule(PrimeWith(state, Edges(state))[name]) == D.PrimeWith(low, D.Edges(low))[name]
    {
      PrimeModuleAgrees(state[name], Senders(Edges(state), name));
    }
  }

  lemma EdgesAgree(state: State)
    ensures Edges(state) == D.Edges(LowerState(state))
    ensures forall name :: Senders(Edges(state), name) == D.Senders(D.Edges(LowerState(state)), name)
  {
    var low := LowerState(state);
    forall e | e in D.Edges(low)
      ensures e in Edges(state)
    {
      var name, output :| name in low && output in low[name].outputs && e == (name, output);
    }
  }

  lemma PrimeModuleAgrees(m: Module, senders: set<string>)
    ensures LowerModule(Prime(m, senders)) == D.Prime(LowerModule(m), senders)
  {
    if m.Conjunction? {
      assert LowerMemory(m.inputs + AllAs(senders, Low)) == LowerMemory(m.inputs) + D.AllLow(senders);
    }
  }
}
