// The pulse-propagation network of day 20: flip-flops, conjunctions and a
// broadcaster joined by named wires. Each button press sends one low pulse
// to the broadcaster; pulses are delivered first in, first out until none
// are left.
module Day20 {
  import opened Wrappers
  import opened Processor

  datatype Pulse = High | Low

  /** A module with the names it sends to, in order; `outputs` is what
    * `get_outputs` returns for every kind. */
  datatype Module =
    | FlipFlop(on: bool, outputs: seq<string>)
    | Conjunction(received: map<string, Pulse>, outputs: seq<string>)
    | Broadcast(outputs: seq<string>)

  /** The modules by name. */
  type State = map<string, Module>

  /** A pulse on a wire: who sent it, its level and who receives it. */
  datatype Signal = Signal(source: string, level: Pulse, dest: string)

  const Delimiters: set<char> := {' ', '-', '>', ','}
  const ButtonName := "button"
  const BroadcasterName := "broadcaster"

  // ---------------------------------------------------------------------
  // Parsing

  /** `parse_line`: "broadcaster" is the broadcaster, "%x" a flip-flop x that
    * starts off, "&x" a conjunction x with an empty memory; the remaining
    * words of the line are its outputs. Any other name starting with 'b',
    * or any other first character, is an error; a blank line changes nothing. */
  function ParseLine(state: State, line: string): (r: Result<State>)
    ensures NextWord(line, Delimiters).None? ==> r == Ok(state)
    ensures NextWord(line, Delimiters).Some? ==>
              var head := NextWord(line, Delimiters).value.text;
              var outputs := Words(NextWord(line, Delimiters).value.rest, Delimiters);
              (head == BroadcasterName ==> r == Ok(state[BroadcasterName := Broadcast(outputs)])) &&
              (head[0] == '%' ==> r == Ok(state[head[1..] := FlipFlop(false, outputs)])) &&
              (head[0] == '&' ==> r == Ok(state[head[1..] := Conjunction(map[], outputs)])) &&
              (head != BroadcasterName && head[0] != '%' && head[0] != '&' ==> r.Err?)
  {
    match NextWord(line, Delimiters)
    case None => Ok(state)
    case Some(w) =>
      var head := w.text;
      var outputs := Words(w.rest, Delimiters);
      if head[0] == 'b' then
        if head != BroadcasterName then Err("Unexpected module name following 'b'")
        else Ok(state[BroadcasterName := Broadcast(outputs)])
      else if head[0] == '%' then Ok(state[head[1..] := FlipFlop(false, outputs)])
      else if head[0] == '&' then Ok(state[head[1..] := Conjunction(map[], outputs)])
      else Err("indecipherable module type/name")
  }

  /** A name that reads back as one word. */
  predicate IsName(s: string) {
    |s| > 0 && NoneIn(s, Delimiters)
  }

  /** The input line that declares a module: its type prefix and name, an
    * arrow, and its outputs separated by ", ". */
  function ShowLine(name: string, m: Module): string {
    var prefix := match m
      case FlipFlop(_, _) => "%" + name
      case Conjunction(_, _) => "&" + name
      case Broadcast(_) => BroadcasterName;
    prefix + " -> " + Join(m.outputs, ", ")
  }

  /** A freshly parsed module: flip-flops off, conjunction memories empty. */
  predicate FreshlyParsed(m: Module) {
    match m
    case FlipFlop(on, _) => !on
    case Conjunction(received, _) => received == map[]
    case Broadcast(_) => true
  }

  lemma ArrowSplits(head: string, joined: string)
    ensures head + " -> " + joined == head + [' '] + ("-> " + joined)
  {
    assert " -> " == [' '] + "-> ";
  }

  /** A declaration line reads back as its head word followed by its outputs. */
  lemma DeclarationWords(head: string, outputs: seq<string>)
    requires IsName(head)
    requires forall i | 0 <= i < |outputs| :: IsName(outputs[i])
    ensures NextWord(head + " -> " + Join(outputs, ", "), Delimiters).Some?
    ensures var w := NextWord(head + " -> " + Join(outputs, ", "), Delimiters).value;
            w.text == head && Words(w.rest, Delimiters) == outputs
  {
    var joined := Join(outputs, ", ");
    ArrowSplits(head, joined);
    SeparatorsAreDelimiters();
    NextWordSplits(head, ' ', "-> " + joined, Delimiters);
    WordsSkipDelimiters("-> ", joined, Delimiters);
    WordsOfJoin(outputs, ", ", Delimiters);
  }

  lemma SeparatorsAreDelimiters()
    ensures ' ' in Delimiters && AllIn("-> ", Delimiters) && AllIn(", ", Delimiters) && |", "| > 0
  {
  }

  /** Parsing a declaration line adds exactly the module it declares. */
  lemma ParseShowLine(state: State, name: string, m: Module)
    requires FreshlyParsed(m)
    requires m.Broadcast? ==> name == BroadcasterName
    requires !m.Broadcast? ==> NoneIn(name, Delimiters)
    requires forall i | 0 <= i < |m.outputs| :: IsName(m.outputs[i])
    ensures ParseLine(state, ShowLine(name, m)) == Ok(state[name := m])
  {
    var head := match m
      case FlipFlop(_, _) => "%" + name
      case Conjunction(_, _) => "&" + name
      case Broadcast(_) => BroadcasterName;
    assert head[1..] == name || m.Broadcast?;
    assert IsName(head) by {
      if !m.Broadcast? {
        forall i | 0 <= i < |head|
          ensures head[i] !in Delimiters
        {
          if i > 0 {
            assert head[i] == name[i - 1];
          }
        }
      }
    }
    assert ShowLine(name, m) == head + " -> " + Join(m.outputs, ", ");
    DeclarationWords(head, m.outputs);
  }

  // ---------------------------------------------------------------------
  // Delivering one pulse

  /** The pulses a module sends: one per output, in output order. */
  function Emit(source: string, level: Pulse, outputs: seq<string>): (r: seq<Signal>)
    ensures |r| == |outputs|
    ensures forall i | 0 <= i < |r| :: r[i] == Signal(source, level, outputs[i])
  {
    seq(|outputs|, i requires 0 <= i < |outputs| => Signal(source, level, outputs[i]))
  }

  /** A conjunction's memory when it sends Low: not empty, every entry High. */
  predicate AllHigh(received: map<string, Pulse>) {
    received.Keys != {} && forall k | k in received :: received[k] == High
  }

  /** Delivering one pulse: the network afterwards and the pulses sent, in
    * the order they join the queue. */
  function Deliver(state: State, s: Signal): (r: (State, seq<Signal>)) {
    if s.dest !in state then (state, [])
    else
      match state[s.dest]
      case Broadcast(outputs) => (state, Emit(s.dest, s.level, outputs))
      case FlipFlop(on, outputs) =>
        if s.level == High then (state, [])
        else (state[s.dest := FlipFlop(!on, outputs)], Emit(s.dest, if !on then High else Low, outputs))
      case Conjunction(received, outputs) =>
        var memory := received[s.source := s.level];
        (state[s.dest := Conjunction(memory, outputs)],
         Emit(s.dest, if AllHigh(memory) then Low else High, outputs))
  }

  /** Delivering a pulse changes only the receiving module, adds and removes
    * no module, and every pulse it sends comes from the receiver. */
  lemma DeliverChangesOnlyReceiver(state: State, s: Signal)
    ensures Deliver(state, s).0.Keys == state.Keys
    ensures forall k | k in state && k != s.dest :: Deliver(state, s).0[k] == state[k]
    ensures forall i | 0 <= i < |Deliver(state, s).1| :: Deliver(state, s).1[i].source == s.dest
  {
  }

  /** A pulse to a name with no module is absorbed: nothing changes, nothing is sent. */
  lemma SinkAbsorbs(state: State, s: Signal)
    requires s.dest !in state
    ensures Deliver(state, s) == (state, [])
  {
  }

  /** The broadcaster forwards the level it receives to every output, in order. */
  lemma BroadcastForwards(state: State, s: Signal)
    requires s.dest in state && state[s.dest].Broadcast?
    ensures Deliver(state, s).0 == state
    ensures |Deliver(state, s).1| == |state[s.dest].outputs|
    ensures forall i | 0 <= i < |state[s.dest].outputs| ::
              Deliver(state, s).1[i] == Signal(s.dest, s.level, state[s.dest].outputs[i])
  {
  }

  /** A flip-flop ignores a high pulse. */
  lemma FlipFlopIgnoresHigh(state: State, s: Signal)
    requires s.dest in state && state[s.dest].FlipFlop? && s.level == High
    ensures Deliver(state, s) == (state, [])
  {
  }

  /** On a low pulse a flip-flop toggles and sends High if it is now on,
    * Low if it is now off. */
  lemma FlipFlopTogglesOnLow(state: State, s: Signal)
    requires s.dest in state && state[s.dest].FlipFlop? && s.level == Low
    ensures Deliver(state, s).0[s.dest].on == !state[s.dest].on
    ensures forall i | 0 <= i < |Deliver(state, s).1| ::
              Deliver(state, s).1[i].level == (if Deliver(state, s).0[s.dest].on then High else Low)
  {
  }

  /** Two low pulses bring a flip-flop back to where it started. */
  lemma FlipFlopTwoLowsRestore(state: State, s: Signal)
    requires s.dest in state && state[s.dest].FlipFlop? && s.level == Low
    ensures Deliver(Deliver(state, s).0, s).0 == state
  {
    var once := Deliver(state, s).0;
    var twice := Deliver(once, s).0;
    assert twice[s.dest] == state[s.dest];
  }

  /** A conjunction first remembers the level under the sender's name, then
    * sends Low exactly when every remembered level is High. */
  lemma ConjunctionRule(state: State, s: Signal)
    requires s.dest in state && state[s.dest].Conjunction?
    ensures var after := Deliver(state, s).0[s.dest];
            after.Conjunction? && after.received == state[s.dest].received[s.source := s.level]
    ensures forall i | 0 <= i < |Deliver(state, s).1| ::
              Deliver(state, s).1[i].level == Low <==>
                forall k | k in Deliver(state, s).0[s.dest].received ::
                  Deliver(state, s).0[s.dest].received[k] == High
  {
    var memory := state[s.dest].received[s.source := s.level];
    assert s.source in memory;
  }

  // The fold `values().fold(values().next(), ...)` over a conjunction's memory.

  /** The fold over a list of levels: the accumulator survives only while
    * every level equals it. */
  function SameFold(acc: Option<Pulse>, values: seq<Pulse>): Option<Pulse>
    decreases |values|
  {
    if values == [] then acc
    else SameFold(if acc == Some(values[0]) then acc else None, values[1..])
  }

  /** The fold seeded with the first level. */
  function AllSame(values: seq<Pulse>): Option<Pulse> {
    if values == [] then None else SameFold(Some(values[0]), values)
  }

  lemma {:induction false} SameFoldMeansEqual(acc: Option<Pulse>, values: seq<Pulse>, p: Pulse)
    ensures SameFold(acc, values) == Some(p) <==> acc == Some(p) && forall i | 0 <= i < |values| :: values[i] == p
    decreases |values|
  {
    if values != [] {
      var next := if acc == Some(values[0]) then acc else None;
      SameFoldMeansEqual(next, values[1..], p);
      if SameFold(acc, values) == Some(p) {
        assert next == Some(p);
        forall i | 0 <= i < |values|
          ensures values[i] == p
        {
          if i > 0 {
            assert values[1..][i - 1] == values[i];
          }
        }
      }
    }
  }

  /** The fold yields Some(p) exactly when the list is not empty and every
    * level in it is p, whatever the order of the list. */
  lemma AllSameMeansEqual(values: seq<Pulse>, p: Pulse)
    ensures AllSame(values) == Some(p) <==> |values| > 0 && forall i | 0 <= i < |values| :: values[i] == p
  {
    if values != [] {
      SameFoldMeansEqual(Some(values[0]), values, p);
    }
  }

  /** Folding the memory's levels, listed in any order, decides Low exactly
    * as `AllHigh` does. */
  lemma ConjunctionFoldAgrees(received: map<string, Pulse>, values: seq<Pulse>)
    requires forall v :: v in values <==> v in received.Values
    ensures (AllSame(values) == Some(High)) == AllHigh(received)
  {
    AllSameMeansEqual(values, High);
    if AllHigh(received) {
      var k :| k in received;
      assert received[k] in received.Values;
      forall i | 0 <= i < |values|
        ensures values[i] == High
      {
        assert values[i] in received.Values;
      }
    }
    if AllSame(values) == Some(High) {
      forall k | k in received
        ensures received[k] == High
      {
        assert received[k] in received.Values;
      }
      assert values[0] in received.Values;
      var k :| k in received && received[k] == values[0];
      assert k in received.Keys;
    }
  }

  /** The fold over the memory, iterated in an unspecified order. */
  method MemoryAllSame(memory: map<string, Pulse>) returns (r: Option<Pulse>)
    ensures forall p :: r == Some(p) <==> memory.Keys != {} && forall k | k in memory :: memory[k] == p
  {
    if memory.Keys == {} {
      return None;
    }
    var first :| first in memory.Keys;
    r := Some(memory[first]);
    var remaining := memory.Keys;
    while remaining != {}
      invariant remaining <= memory.Keys
      invariant first in memory.Keys - remaining ==> r.Some? ==> r.value == memory[first]
      invariant r.Some? ==> r.value == memory[first] && forall k | k in memory.Keys - remaining :: memory[k] == r.value
      invariant r.None? ==> exists k | k in memory.Keys - remaining :: memory[k] != memory[first]
      decreases remaining
    {
      var k :| k in remaining;
      if r != Some(memory[k]) {
        r := None;
      }
      remaining := remaining - {k};
    }
  }

  /** `outputs.iter().for_each(push_back)`: one pulse per output, appended in order. */
  method Send(queue: seq<Signal>, source: string, level: Pulse, outputs: seq<string>) returns (q: seq<Signal>)
    ensures q == queue + Emit(source, level, outputs)
  {
    q := queue;
    for i := 0 to |outputs|
      invariant q == queue + Emit(source, level, outputs[..i])
    {
      assert Emit(source, level, outputs[..i + 1]) == Emit(source, level, outputs[..i]) + [Signal(source, level, outputs[i])];
      q := q + [Signal(source, level, outputs[i])];
    }
    assert outputs[..|outputs|] == outputs;
  }

  // ---------------------------------------------------------------------
  // A button press

  /** Where delivering a queue leads: the final network, every pulse
    * delivered in order, and whether the queue emptied before the fuel
    * (a bound on deliveries) ran out. */
  datatype Outcome = Outcome(state: State, trace: seq<Signal>, finished: bool)

  function Run(state: State, queue: seq<Signal>, fuel: nat): Outcome
    decreases fuel
  {
    if queue == [] then Outcome(state, [], true)
    else if fuel == 0 then Outcome(state, [], false)
    else
      var (next, sent) := Deliver(state, queue[0]);
      var rest := Run(next, queue[1..] + sent, fuel - 1);
      Outcome(rest.state, [queue[0]] + rest.trace, rest.finished)
  }

  /** The pulse every press starts with. */
  const ButtonPulse := Signal(ButtonName, Low, BroadcasterName)

  function Press(state: State, fuel: nat): Outcome {
    Run(state, [ButtonPulse], fuel)
  }

  function Prepend(done: seq<Signal>, o: Outcome): Outcome {
    Outcome(o.state, done + o.trace, o.finished)
  }

  /** One delivery: the head of the queue goes first in the trace. */
  lemma RunStep(state: State, queue: seq<Signal>, fuel: nat)
    requires queue != [] && fuel > 0
    ensures var (next, sent) := Deliver(state, queue[0]);
            Run(state, queue, fuel) == Prepend([queue[0]], Run(next, queue[1..] + sent, fuel - 1))
  {
  }

  /** A run stops with nothing more delivered once the queue is empty or
    * the fuel is spent. */
  lemma RunStops(state: State, queue: seq<Signal>, fuel: nat)
    requires queue == [] || fuel == 0
    ensures Run(state, queue, fuel) == Outcome(state, [], queue == [])
  {
  }

  lemma PrependAppend(done: seq<Signal>, s: Signal, o: Outcome)
    ensures Prepend(done, Prepend([s], o)) == Prepend(done + [s], o)
  {
    assert done + ([s] + o.trace) == done + [s] + o.trace;
  }

  /** A press seen part way ends where its queue empties or its fuel is
    * spent, having delivered exactly `done`. */
  lemma PressEnds(whole: Outcome, done: seq<Signal>, state: State, queue: seq<Signal>, fuel: nat)
    requires queue == [] || fuel == 0
    requires whole == Prepend(done, Run(state, queue, fuel))
    ensures whole == Outcome(state, done, queue == [])
  {
    RunStops(state, queue, fuel);
    assert done + [] == done;
  }

  /** A press seen part way: `done` delivered, `queue` pending on `state`;
    * one more delivery moves the head of the queue into `done`. */
  lemma PressAdvances(whole: Outcome, done: seq<Signal>, state: State, queue: seq<Signal>, fuel: nat)
    requires queue != [] && fuel > 0
    requires whole == Prepend(done, Run(state, queue, fuel))
    ensures var (next, sent) := Deliver(state, queue[0]);
            whole == Prepend(done + [queue[0]], Run(next, queue[1..] + sent, fuel - 1))
  {
    var (next, sent) := Deliver(state, queue[0]);
    RunStep(state, queue, fuel);
    PrependAppend(done, queue[0], Run(next, queue[1..] + sent, fuel - 1));
  }

  /** How many pulses in the trace have the given level. */
  function CountLevel(trace: seq<Signal>, level: Pulse): nat {
    if trace == [] then 0
    else CountLevel(trace[..|trace| - 1], level) + (if trace[|trace| - 1].level == level then 1 else 0)
  }

  /** Pulses are delivered first in, first out: a finished run delivers the
    * queue it started with before anything those pulses cause. */
  lemma {:induction false} RunIsFirstInFirstOut(state: State, queue: seq<Signal>, fuel: nat)
    requires Run(state, queue, fuel).finished
    ensures queue <= Run(state, queue, fuel).trace
    decreases fuel
  {
    if queue != [] {
      var (next, sent) := Deliver(state, queue[0]);
      RunIsFirstInFirstOut(next, queue[1..] + sent, fuel - 1);
      var rest := Run(next, queue[1..] + sent, fuel - 1).trace;
      assert queue[1..] <= rest;
      assert queue == [queue[0]] + queue[1..];
    }
  }

  /** Every finished press begins by delivering the button's low pulse to
    * the broadcaster. */
  lemma PressStartsAtBroadcaster(state: State, fuel: nat)
    requires Press(state, fuel).finished
    ensures |Press(state, fuel).trace| > 0 && Press(state, fuel).trace[0] == ButtonPulse
  {
    RunIsFirstInFirstOut(state, [ButtonPulse], fuel);
  }

  /** Every delivered pulse is counted once, as low or as high. */
  lemma {:induction false} CountsCoverTrace(trace: seq<Signal>)
    ensures CountLevel(trace, Low) + CountLevel(trace, High) == |trace|
  {
    if trace != [] {
      CountsCoverTrace(trace[..|trace| - 1]);
    }
  }

  lemma {:induction false} CountLevelAppend(trace: seq<Signal>, more: seq<Signal>, level: Pulse)
    ensures CountLevel(trace + more, level) == CountLevel(trace, level) + CountLevel(more, level)
    decreases |more|
  {
    if more == [] {
      assert trace + more == trace;
    } else {
      var front := more[..|more| - 1];
      assert (trace + more)[..|trace + more| - 1] == trace + front;
      CountLevelAppend(trace, front, level);
    }
  }

  /** The pulses `push_button`'s caller asks to be told about: any pulse
    * at all (part one), or a low pulse to the named module (part two). */
  datatype Watch = AnyPulse | LowTo(dest: string)

  predicate Watched(watch: Watch, s: Signal) {
    match watch
    case AnyPulse => true
    case LowTo(dest) => s.level == Low && s.dest == dest
  }

  /** Whether some pulse of the trace is watched for. */
  predicate Notified(watch: Watch, trace: seq<Signal>) {
    trace != [] && (Notified(watch, trace[..|trace| - 1]) || Watched(watch, trace[|trace| - 1]))
  }

  /** `Notified` holds exactly when some delivered pulse is watched for. */
  lemma {:induction false} NotifiedMeansSome(watch: Watch, trace: seq<Signal>)
    ensures Notified(watch, trace) <==> exists i | 0 <= i < |trace| :: Watched(watch, trace[i])
  {
    if trace != [] {
      var front := trace[..|trace| - 1];
      NotifiedMeansSome(watch, front);
      if exists i | 0 <= i < |trace| :: Watched(watch, trace[i]) {
        var i :| 0 <= i < |trace| && Watched(watch, trace[i]);
        if i < |front| {
          assert front[i] == trace[i];
        }
      }
      if exists i | 0 <= i < |front| :: Watched(watch, front[i]) {
        var i :| 0 <= i < |front| && Watched(watch, front[i]);
        assert trace[i] == front[i];
      }
    }
  }

  /** Delivering one more pulse `s` adds it to the counts and to the
    * notification. */
  lemma TraceStep(watch: Watch, done: seq<Signal>, s: Signal)
    ensures CountLevel(done + [s], Low) == CountLevel(done, Low) + (if s.level == Low then 1 else 0)
    ensures CountLevel(done + [s], High) == CountLevel(done, High) + (if s.level == High then 1 else 0)
    ensures Notified(watch, done + [s]) == (Notified(watch, done) || Watched(watch, s))
  {
    assert (done + [s])[..|done|] == done;
  }

  /** A button press on a network of modules whose state is changed in place. */
  class Network {
    var state: State

    constructor (state: State)
      ensures this.state == state
    {
      this.state := state;
    }

    /** One iteration of `push_button`'s loop after the pulse is counted:
      * the receiving module reacts and its pulses join the back of the queue. */
    method DeliverPulse(s: Signal, queue: seq<Signal>) returns (q: seq<Signal>)
      modifies this
      ensures state == Deliver(old(state), s).0
      ensures q == queue + Deliver(old(state), s).1
    {
      q := queue;
      if s.dest in state {
        match state[s.dest]
        case Broadcast(outputs) =>
          q := Send(q, s.dest, s.level, outputs);
        case FlipFlop(on, outputs) =>
          if s.level == Low {
            state := state[s.dest := FlipFlop(!on, outputs)];
            q := Send(q, s.dest, if !on then High else Low, outputs);
          } else {
            assert q == queue + [];
          }
        case Conjunction(received, outputs) =>
          var memory := received[s.source := s.level];
          state := state[s.dest := Conjunction(memory, outputs)];
          var same := MemoryAllSame(memory);
          assert same == Some(High) <==> AllHigh(memory);
          q := Send(q, s.dest, if same == Some(High) then Low else High, outputs);
      } else {
        assert q == queue + [];
      }
    }

    /** `push_button`: delivers pulses first in, first out from the single
      * button pulse until the queue is empty (or `fuel` deliveries were
      * made), counting low and high pulses and whether a watched pulse was among
      * any delivered pulse. */
    method PushButton(watch: Watch, fuel: nat) returns (low: nat, high: nat, got: bool, finished: bool)
      modifies this
      ensures state == Press(old(state), fuel).state
      ensures finished == Press(old(state), fuel).finished
      ensures low == CountLevel(Press(old(state), fuel).trace, Low)
      ensures high == CountLevel(Press(old(state), fuel).trace, High)
      ensures got == Notified(watch, Press(old(state), fuel).trace)
    {
      ghost var whole := Press(state, fuel);
      ghost var done: seq<Signal> := [];
      var queue := [ButtonPulse];
      low, high, got := 0, 0, false;
      var steps: nat := 0;
      while queue != [] && steps < fuel
        invariant steps <= fuel
        invariant whole == Prepend(done, Run(state, queue, fuel - steps))
        invariant low == CountLevel(done, Low) && high == CountLevel(done, High)
        invariant got == Notified(watch, done)
        decreases fuel - steps
      {
        ghost var before := state;
        ghost var pending := queue;
        var s := queue[0];
        queue := queue[1..];
        TraceStep(watch, done, s);
        if s.level == Low {
          low := low + 1;
        } else {
          high := high + 1;
        }
        var hit := Watched(watch, s);
        got := got || hit;
        PressAdvances(whole, done, before, pending, fuel - steps);
        queue := DeliverPulse(s, queue);
        done := done + [s];
        steps := steps + 1;
      }
      PressEnds(whole, done, state, queue, fuel - steps);
      finished := queue == [];
      assert whole == Press(old(state), fuel);
      assert whole.trace == done && whole.state == state && whole.finished == finished;
    }

    /** One wire of `finalise_state`: a conjunction at the receiving end
      * remembers Low from the sender. */
    method PrimeInput(e: (string, string))
      modifies this
      ensures state == PrimeEdge(old(state), e)
    {
      var (source, destination) := e;
      if destination in state && state[destination].Conjunction? {
        var m := state[destination];
        state := state[destination := Conjunction(m.received[source := Low], m.outputs)];
      }
    }

    /** `finalise_state`: every conjunction remembers Low from each module
      * wired into it; the edges are collected first, then applied in an
      * unspecified order. */
    method FinaliseState()
      modifies this
      ensures state == PrimeWith(old(state), Edges(old(state)))
    {
      ghost var start := state;
      var sourceDestinations := Edges(state);
      var remaining := sourceDestinations;
      PrimeWithNothing(start);
      while remaining != {}
        invariant remaining <= sourceDestinations
        invariant state == PrimeWith(start, sourceDestinations - remaining)
        decreases remaining
      {
        ghost var done := sourceDestinations - remaining;
        var e :| e in remaining;
        PrimeInput(e);
        PrimeWithOneMore(start, done, e);
        remaining := remaining - {e};
        assert sourceDestinations - remaining == done + {e};
      }
      assert sourceDestinations - remaining == sourceDestinations;
    }

    /** `perform_processing_1`: 1000 presses; the product of the total low
      * and total high counts. None when a press runs out of fuel. */
    method PerformProcessing1(fuel: nat) returns (r: Option<nat>)
      modifies this
      ensures var t := Presses(old(state), NumIterations, fuel);
              state == t.state && r == (if t.finished then Some(t.low * t.high) else None)
    {
      ghost var start := state;
      var lowCount, highCount := 0, 0;
      for i := 0 to NumIterations
        invariant Presses(start, i, fuel) == Tally(state, lowCount, highCount, true)
      {
        var low, high, _, finished := PushButton(AnyPulse, fuel);
        lowCount := lowCount + low;
        highCount := highCount + high;
        if !finished {
          PressesStayUnfinished(start, i + 1, NumIterations, fuel);
          return None;
        }
      }
      r := Some(lowCount * highCount);
    }

    /** `perform_processing_2`: the number of the first press during which
      * a low pulse reaches "rx". None when `maxPresses` presses go by
      * without one, or when a press runs out of fuel. */
    method PerformProcessing2(maxPresses: nat, fuel: nat) returns (r: Option<nat>)
      modifies this
      ensures var s := FirstLowToTarget(old(state), fuel, 0, maxPresses);
              state == s.state && r == s.found
    {
      ghost var start := state;
      var numPresses := 0;
      while numPresses < maxPresses
        invariant numPresses <= maxPresses
        invariant FirstLowToTarget(start, fuel, 0, maxPresses) == FirstLowToTarget(state, fuel, numPresses, maxPresses)
        decreases maxPresses - numPresses
      {
        numPresses := numPresses + 1;
        var _, _, gotIt, finished := PushButton(LowTo(TargetName), fuel);
        if !finished {
          return None;
        }
        if gotIt {
          return Some(numPresses);
        }
      }
      r := None;
    }
  }

  // ---------------------------------------------------------------------
  // Priming the conjunctions

  /** Every wire (sender, receiver) named by some module's outputs. */
  function Edges(state: State): set<(string, string)> {
    set name, output | name in state && output in state[name].outputs :: (name, output)
  }

  /** The senders wired into `dest`. */
  function Senders(edges: set<(string, string)>, dest: string): set<string> {
    set e | e in edges && e.1 == dest :: e.0
  }

  /** Every sender remembered as Low. */
  function AllLow(senders: set<string>): map<string, Pulse> {
    map s | s in senders :: Low
  }

  /** A module once the given senders are primed: a conjunction remembers
    * Low from each of them; other kinds are untouched. */
  function Prime(m: Module, senders: set<string>): Module {
    match m
    case Conjunction(received, outputs) => Conjunction(received + AllLow(senders), outputs)
    case _ => m
  }

  /** The network after the given wires have been primed. */
  function PrimeWith(state: State, edges: set<(string, string)>): State {
    map name | name in state :: Prime(state[name], Senders(edges, name))
  }

  lemma PrimeNothing(m: Module)
    ensures Prime(m, {}) == m
  {
    if m.Conjunction? {
      assert m.received + AllLow({}) == m.received;
    }
  }

  lemma PrimeOneMore(m: Module, senders: set<string>, source: string)
    ensures Prime(m, senders + {source}) ==
              if m.Conjunction?
              then Conjunction(Prime(m, senders).received[source := Low], m.outputs)
              else m
  {
    if m.Conjunction? {
      var before := m.received + AllLow(senders);
      var after := m.received + AllLow(senders + {source});
      assert after.Keys == before[source := Low].Keys;
      forall k | k in after
        ensures after[k] == before[source := Low][k]
      {
      }
      assert after == before[source := Low];
    }
  }

  lemma SendersOneMore(edges: set<(string, string)>, e: (string, string), name: string)
    ensures Senders(edges + {e}, name) == Senders(edges, name) + (if e.1 == name then {e.0} else {})
  {
  }

  /** Priming one more wire (source, destination) updates only a
    * conjunction at the destination. */
  function PrimeEdge(state: State, e: (string, string)): State {
    if e.1 in state && state[e.1].Conjunction?
    then state[e.1 := Conjunction(state[e.1].received[e.0 := Low], state[e.1].outputs)]
    else state
  }

  /** Priming one more wire on top of the wires `done` primes `done + {e}`. */
  lemma PrimeWithOneMore(start: State, done: set<(string, string)>, e: (string, string))
    ensures PrimeEdge(PrimeWith(start, done), e) == PrimeWith(start, done + {e})
  {
    var before := PrimeWith(start, done);
    forall name | name in start
      ensures PrimeEdge(before, e)[name] == Prime(start[name], Senders(done + {e}, name))
    {
      SendersOneMore(done, e, name);
      if name == e.1 {
        PrimeOneMore(start[name], Senders(done, name), e.0);
      } else {
        assert Senders(done + {e}, name) == Senders(done, name);
      }
    }
  }

  lemma PrimeWithNothing(start: State)
    ensures PrimeWith(start, {}) == start
  {
    forall name | name in start
      ensures Prime(start[name], Senders({}, name)) == start[name]
    {
      PrimeNothing(start[name]);
    }
  }

  /** After `finalise_state` every conjunction remembers Low from every module
    * wired into it; no module is added, removed or changes kind, and only
    * conjunction memories change. */
  lemma PrimedMemory(state: State)
    ensures var primed := PrimeWith(state, Edges(state));
            primed.Keys == state.Keys &&
            (forall name | name in state && !state[name].Conjunction? :: primed[name] == state[name]) &&
            (forall name | name in state && state[name].Conjunction? ::
               primed[name].Conjunction? && primed[name].outputs == state[name].outputs) &&
            (forall source, dest | source in state && dest in state && state[dest].Conjunction? &&
                                   dest in state[source].outputs ::
               source in primed[dest].received && primed[dest].received[source] == Low)
  {
    var primed := PrimeWith(state, Edges(state));
    forall source, dest | source in state && dest in state && state[dest].Conjunction? &&
                          dest in state[source].outputs
      ensures source in primed[dest].received && primed[dest].received[source] == Low
    {
      assert (source, dest) in Edges(state);
      assert source in Senders(Edges(state), dest);
    }
  }

  // ---------------------------------------------------------------------
  // Repeated presses

  const NumIterations: nat := 1000

  /** The network after `n` presses and the low and high pulses counted
    * over them; presses stop at the first that runs out of fuel. */
  datatype Tally = Tally(state: State, low: nat, high: nat, finished: bool)

  function Presses(state: State, n: nat, fuel: nat): Tally {
    if n == 0 then Tally(state, 0, 0, true)
    else
      var t := Presses(state, n - 1, fuel);
      if !t.finished then t
      else
        var o := Press(t.state, fuel);
        Tally(o.state, t.low + CountLevel(o.trace, Low), t.high + CountLevel(o.trace, High), o.finished)
  }

  lemma {:induction false} PressesStayUnfinished(state: State, n: nat, n': nat, fuel: nat)
    requires n <= n' && !Presses(state, n, fuel).finished
    ensures Presses(state, n', fuel) == Presses(state, n, fuel)
    decreases n' - n
  {
    if n < n' {
      PressesStayUnfinished(state, n, n' - 1, fuel);
    }
  }

  /** Over finished presses, the low and high totals together count every
    * pulse delivered. */
  lemma {:induction false} PressesCountEveryPulse(state: State, n: nat, fuel: nat)
    requires Presses(state, n, fuel).finished
    ensures Presses(state, n, fuel).low + Presses(state, n, fuel).high == DeliveredOver(state, n, fuel)
  {
    if n > 0 {
      PressesCountEveryPulse(state, n - 1, fuel);
      CountsCoverTrace(Press(Presses(state, n - 1, fuel).state, fuel).trace);
    }
  }

  /** How many pulses `n` finished presses deliver in all. */
  function DeliveredOver(state: State, n: nat, fuel: nat): nat
    requires Presses(state, n, fuel).finished
  {
    if n == 0 then 0
    else
      PressesStayFinishedBefore(state, n, fuel);
      DeliveredOver(state, n - 1, fuel) + |Press(Presses(state, n - 1, fuel).state, fuel).trace|
  }

  lemma PressesStayFinishedBefore(state: State, n: nat, fuel: nat)
    requires n > 0 && Presses(state, n, fuel).finished
    ensures Presses(state, n - 1, fuel).finished
  {
  }

  // ---------------------------------------------------------------------
  // Waiting for a low pulse to "rx"

  const TargetName := "rx"

  /** Whether a low pulse reaches "rx" during the trace (see
    * `NotifiedMeansSome`: some delivered pulse is one). */
  predicate ReachesTarget(trace: seq<Signal>) {
    Notified(LowTo(TargetName), trace)
  }

  /** Where the search stops and the press number it reports. */
  datatype Search = Search(state: State, found: Option<nat>)

  function FirstLowToTarget(state: State, fuel: nat, pressed: nat, maxPresses: nat): Search
    decreases maxPresses - pressed
  {
    if pressed >= maxPresses then Search(state, None)
    else
      var o := Press(state, fuel);
      if !o.finished then Search(o.state, None)
      else if ReachesTarget(o.trace) then Search(o.state, Some(pressed + 1))
      else FirstLowToTarget(o.state, fuel, pressed + 1, maxPresses)
  }

  /** The press numbered `j` (from 1), made on the network left by the
    * presses before it. */
  function PressNumber(state: State, j: nat, fuel: nat): Outcome
    requires j >= 1
  {
    Press(Presses(state, j - 1, fuel).state, fuel)
  }

  lemma {:induction false} FirstLowToTargetFrom(state: State, fuel: nat, k: nat, maxPresses: nat)
    requires Presses(state, k, fuel).finished
    requires forall j | 1 <= j <= k :: !ReachesTarget(PressNumber(state, j, fuel).trace)
    ensures var found := FirstLowToTarget(Presses(state, k, fuel).state, fuel, k, maxPresses).found;
            found.Some? ==>
              k < found.value <= maxPresses &&
              Presses(state, found.value - 1, fuel).finished &&
              PressNumber(state, found.value, fuel).finished &&
              ReachesTarget(PressNumber(state, found.value, fuel).trace) &&
              forall j | 1 <= j < found.value :: !ReachesTarget(PressNumber(state, j, fuel).trace)
    decreases maxPresses - k
  {
    if k < maxPresses {
      var o := PressNumber(state, k + 1, fuel);
      if o.finished && !ReachesTarget(o.trace) {
        PressesStep(state, k, fuel);
        NoneReachExtend(state, fuel, k);
        FirstLowToTargetFrom(state, fuel, k + 1, maxPresses);
      }
    }
  }

  /** A finished press after `k` finished presses makes `k + 1` of them. */
  lemma PressesStep(state: State, k: nat, fuel: nat)
    requires Presses(state, k, fuel).finished && PressNumber(state, k + 1, fuel).finished
    ensures Presses(state, k + 1, fuel).finished
    ensures Presses(state, k + 1, fuel).state == PressNumber(state, k + 1, fuel).state
  {
  }

  lemma NoneReachExtend(state: State, fuel: nat, k: nat)
    requires forall j | 1 <= j <= k :: !ReachesTarget(PressNumber(state, j, fuel).trace)
    requires !ReachesTarget(PressNumber(state, k + 1, fuel).trace)
    ensures forall j | 1 <= j <= k + 1 :: !ReachesTarget(PressNumber(state, j, fuel).trace)
  {
  }

  /** Part two reports the first press during which a low pulse reaches
    * "rx": that press does, and none before it does. */
  lemma FirstLowToTargetIsFirst(state: State, fuel: nat, maxPresses: nat)
    ensures var found := FirstLowToTarget(state, fuel, 0, maxPresses).found;
            found.Some? ==>
              1 <= found.value <= maxPresses &&
              PressNumber(state, found.value, fuel).finished &&
              ReachesTarget(PressNumber(state, found.value, fuel).trace) &&
              forall j | 1 <= j < found.value :: !ReachesTarget(PressNumber(state, j, fuel).trace)
  {
    FirstLowToTargetFrom(state, fuel, 0, maxPresses);
  }

  /** Presses that all finished were preceded by presses that all finished. */
  lemma PressesFinishedBefore(state: State, m: nat, n: nat, fuel: nat)
    requires m <= n && Presses(state, n, fuel).finished
    ensures Presses(state, m, fuel).finished
  {
    if !Presses(state, m, fuel).finished {
      PressesStayUnfinished(state, m, n, fuel);
    }
  }

  lemma {:induction false} FirstLowToTargetReachesFrom(state: State, fuel: nat, k: nat, maxPresses: nat, j: nat)
    requires k < j <= maxPresses && Presses(state, j, fuel).finished
    requires ReachesTarget(PressNumber(state, j, fuel).trace)
    ensures var found := FirstLowToTarget(Presses(state, k, fuel).state, fuel, k, maxPresses).found;
            found.Some? && found.value <= j
    decreases j - k
  {
    PressesFinishedBefore(state, k, j, fuel);
    PressesFinishedBefore(state, k + 1, j, fuel);
    var o := PressNumber(state, k + 1, fuel);
    assert o.finished;
    if !ReachesTarget(o.trace) {
      PressesStep(state, k, fuel);
      FirstLowToTargetReachesFrom(state, fuel, k + 1, maxPresses, j);
    }
  }

  /** Part two does not miss a press: when press `j`, within the limit,
    * sends a low pulse to "rx" and it and every press before it finish,
    * the search reports a press no later than `j`. */
  lemma FirstLowToTargetComplete(state: State, fuel: nat, maxPresses: nat, j: nat)
    requires 1 <= j <= maxPresses && Presses(state, j, fuel).finished
    requires ReachesTarget(PressNumber(state, j, fuel).trace)
    ensures var found := FirstLowToTarget(state, fuel, 0, maxPresses).found;
            found.Some? && found.value <= j
  {
    FirstLowToTargetReachesFrom(state, fuel, 0, maxPresses, j);
  }
}
