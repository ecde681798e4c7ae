/** Calls from a plugin to its host: the reader hands each reply and each stream event to the call
    whose ID it bears, while the calls take them in any interleaving. */
module Demux {
  import opened Wrappers
  import opened Integers

  /** What the reader meets on the wire: an event note, a response, any other request, a frame that is no
      JSON, or input that ends the connection. */
  datatype Input = Event(call: Option<nat>, value: string) | Response(id: nat, body: string) | Request(text: string) | Noise | Invalid

  datatype Phase = Waiting | Draining(body: string) | Done(body: string) | Failed

  /** `since` and `streamSince` are how much was read when the reply and the stream were registered. */
  datatype Call = Call(
    since: nat,
    streamSince: Option<nat>,
    queue: seq<string>,
    reply: Option<string>,
    delivered: seq<string>,
    phase: Phase)

  datatype State = State(
    next: nat,
    calls: map<nat, Call>,
    replies: set<nat>,
    streams: set<nat>,
    closed: set<nat>,
    wire: seq<Input>,
    incoming: seq<Input>,
    reading: bool)

  const Start := State(1, map[], {}, {}, {}, [], [], true)

  // ---------- Steps ----------

  datatype Step =
    | Open
    | OpenStream(id: nat)
    | Read(input: Input)
    | TakeEvent(id: nat, accepted: bool)
    | TakeReply(id: nat)
    | Finish(id: nat)
    | TimeOut(id: nat)
    | Close(id: nat)

  /** IDs are handed out while they last. A timeout stands for every way a call gives up. */
  predicate Enabled(s: State, step: Step) {
    match step
    case Open => s.next < U64_MAX
    case OpenStream(id) => id in s.calls && s.calls[id].streamSince.None? && s.calls[id].phase.Waiting?
    case Read(_) => s.reading
    case TakeEvent(id, _) => Taking(s, id) && s.calls[id].queue != []
    case TakeReply(id) => Taking(s, id) && s.calls[id].phase.Waiting? && s.calls[id].reply.Some?
    case Finish(id) => Taking(s, id) && s.calls[id].phase.Draining? && s.calls[id].queue == []
    case TimeOut(id) => Taking(s, id)
    case Close(id) => id in s.calls && (s.calls[id].phase.Done? || s.calls[id].phase.Failed?)
  }

  /** The call's own loop runs: its stream is open and it has no result. */
  predicate Taking(s: State, id: nat) {
    id in s.calls && s.calls[id].streamSince.Some? && (s.calls[id].phase.Waiting? || s.calls[id].phase.Draining?)
  }

  function Put(s: State, id: nat, call: Call): State {
    s.(calls := s.calls[id := call])
  }

  /** An event of an open stream goes to its call, a response to the call that waits for it, and any other
      event or request is handed on to the server; a response nobody waits for ends the reading. */
  function AfterRead(s: State, input: Input): State
    requires s.streams <= s.calls.Keys && s.replies <= s.calls.Keys
  {
    var read := s.(wire := s.wire + [input]);
    match input
    case Event(call, value) =>
      if call.Some? && call.value in s.streams
      then Put(read, call.value, s.calls[call.value].(queue := s.calls[call.value].queue + [value]))
      else read.(incoming := s.incoming + [input])
    case Request(_) => read.(incoming := s.incoming + [input])
    case Response(id, body) =>
      if id in s.replies then Put(read, id, s.calls[id].(reply := Some(body))).(replies := s.replies - {id})
      else read.(reading := false)
    case Invalid => read.(reading := false)
    case Noise => read
  }

  function Next(s: State, step: Step): State
    requires Enabled(s, step) && s.streams <= s.calls.Keys && s.replies <= s.calls.Keys
  {
    match step
    case Open =>
      Put(s, s.next, Call(|s.wire|, None, [], None, [], Waiting)).(next := s.next + 1, replies := s.replies + {s.next})
    case OpenStream(id) =>
      Put(s, id, s.calls[id].(streamSince := Some(|s.wire|))).(streams := s.streams + {id})
    case Read(input) => AfterRead(s, input)
    case TakeEvent(id, accepted) =>
      var c := s.calls[id];
      Put(s, id, c.(delivered := c.delivered + [c.queue[0]], queue := c.queue[1..], phase := if accepted then c.phase else Failed))
    case TakeReply(id) => Put(s, id, s.calls[id].(phase := Draining(s.calls[id].reply.value)))
    case Finish(id) => Put(s, id, s.calls[id].(phase := Done(s.calls[id].phase.body)))
    case TimeOut(id) => Put(s, id, s.calls[id].(phase := Failed))
    case Close(id) => s.(replies := s.replies - {id}, streams := s.streams - {id}, closed := s.closed + {id})
  }

  // ---------- What was on the wire ----------

  /** The events of a call between two positions, in order. */
  function Tagged(wire: seq<Input>, start: nat, end: nat, id: nat): seq<string>
    requires end <= |wire|
    decreases end
  {
    if end <= start then []
    else Tagged(wire, start, end - 1, id) + match wire[end - 1] case Event(Some(call), value) => (if call == id then [value] else []) case _ => []
  }

  predicate IsResponse(input: Input, id: nat) {
    input.Response? && input.id == id
  }

  ghost predicate Unanswered(wire: seq<Input>, start: nat, end: nat, id: nat)
    requires end <= |wire|
  {
    forall p :: start <= p < end ==> !IsResponse(wire[p], id)
  }

  /** The first response to a call after a position. */
  ghost predicate FirstResponse(wire: seq<Input>, start: nat, id: nat, at: nat, body: string) {
    start <= at < |wire| && wire[at] == Response(id, body) && Unanswered(wire, start, at, id)
  }

  lemma {:induction false} TaggedStable(wire: seq<Input>, input: Input, start: nat, end: nat, id: nat)
    requires end <= |wire|
    ensures Tagged(wire + [input], start, end, id) == Tagged(wire, start, end, id)
    decreases end
  {
    if end > start { TaggedStable(wire, input, start, end - 1, id); }
  }

  lemma {:induction false} TaggedGrows(wire: seq<Input>, start: nat, middle: nat, end: nat, id: nat)
    requires middle <= end <= |wire|
    ensures Tagged(wire, start, middle, id) <= Tagged(wire, start, end, id)
    decreases end
  {
    if middle < end && end > start {
      TaggedGrows(wire, start, middle, end - 1, id);
    }
  }

  // ---------- The invariant ----------

  /** What a call has, takes and gives back. While its stream is open, what was delivered and what is
      queued are together all its events so far. */
  ghost predicate EventsInv(wire: seq<Input>, open: bool, id: nat, c: Call) {
    if c.streamSince.None? then c.queue == [] && c.delivered == [] && !open
    else
      && c.streamSince.value <= |wire|
      && c.delivered <= Tagged(wire, c.streamSince.value, |wire|, id)
      && (open ==> c.delivered + c.queue == Tagged(wire, c.streamSince.value, |wire|, id))
      && (c.phase.Waiting? || c.phase.Draining? ==> open)
  }

  ghost predicate ReplyInv(wire: seq<Input>, waits: bool, id: nat, c: Call) {
    && c.since <= |wire|
    && (waits ==> c.reply.None? && Unanswered(wire, c.since, |wire|, id))
    && (c.reply.Some? ==> exists at :: FirstResponse(wire, c.since, id, at, c.reply.value))
    && (c.phase.Draining? || c.phase.Done? ==> c.reply == Some(c.phase.body))
  }

  /** A finished call saw every event that came before its response. */
  ghost predicate DoneInv(wire: seq<Input>, id: nat, c: Call) {
    c.phase.Done? && c.streamSince.Some? ==>
      forall at :: FirstResponse(wire, c.since, id, at, c.phase.body) ==> Tagged(wire, c.streamSince.value, at, id) <= c.delivered
  }

  /** A call waits for a reply until it has one or is closed. While the reading goes on, or once a reply
      came, no response bore its ID before the call was made. */
  ghost predicate WaitInv(s: State, id: nat)
    requires id in s.calls
  {
    && (id in s.replies <==> s.calls[id].reply.None? && id !in s.closed)
    && s.calls[id].since <= |s.wire|
    && (s.reading || s.calls[id].reply.Some? ==> Unanswered(s.wire, 0, s.calls[id].since, id))
  }

  ghost predicate CallInv(s: State, id: nat)
    requires id in s.calls
  {
    && EventsInv(s.wire, id in s.streams, id, s.calls[id])
    && ReplyInv(s.wire, id in s.replies, id, s.calls[id])
    && DoneInv(s.wire, id, s.calls[id])
    && (s.calls[id].phase.Done? ==> s.calls[id].streamSince.Some?)
    && WaitInv(s, id)
  }

  ghost predicate Inv(s: State) {
    && s.streams <= s.calls.Keys && s.replies <= s.calls.Keys && s.closed <= s.calls.Keys
    && (forall id :: id in s.calls ==> id < s.next && CallInv(s, id))
    && (s.reading ==> forall id: nat :: id >= s.next ==> Unanswered(s.wire, 0, |s.wire|, id))
  }

  // ---------- Every step keeps the invariant ----------

  lemma FirstResponseOnce(wire: seq<Input>, start: nat, id: nat, a: nat, b: nat, x: string, y: string)
    requires FirstResponse(wire, start, id, a, x) && FirstResponse(wire, start, id, b, y)
    ensures a == b && x == y
  {
    assert IsResponse(wire[a], id) && IsResponse(wire[b], id);
  }

  lemma FirstResponseStays(wire: seq<Input>, input: Input, start: nat, id: nat, at: nat, body: string)
    requires FirstResponse(wire, start, id, at, body)
    ensures FirstResponse(wire + [input], start, id, at, body)
  {}

  /** The events part, when one more input is read and its event, if the stream is open, is queued. */
  lemma ReadKeepsEvents(wire: seq<Input>, input: Input, open: bool, id: nat, c: Call)
    requires EventsInv(wire, open, id, c)
    ensures EventsInv(wire + [input], open, id,
      if open && input.Event? && input.call == Some(id) then c.(queue := c.queue + [input.value]) else c)
  {
    if c.streamSince.Some? {
      TaggedStable(wire, input, c.streamSince.value, |wire|, id);
      TaggedGrows(wire + [input], c.streamSince.value, |wire|, |wire| + 1, id);
    }
  }

  lemma ReadKeepsReply(wire: seq<Input>, input: Input, waits: bool, id: nat, c: Call)
    requires ReplyInv(wire, waits, id, c)
    ensures IsResponse(input, id) && waits ==>
      ReplyInv(wire + [input], false, id, c.(reply := Some(input.body)))
    ensures !(IsResponse(input, id) && waits) ==> ReplyInv(wire + [input], waits, id, c)
  {
    if IsResponse(input, id) && waits {
      assert FirstResponse(wire + [input], c.since, id, |wire|, input.body);
    } else if c.reply.Some? {
      var at :| FirstResponse(wire, c.since, id, at, c.reply.value);
      FirstResponseStays(wire, input, c.since, id, at, c.reply.value);
    }
  }

  lemma ReadKeepsDone(wire: seq<Input>, input: Input, waits: bool, open: bool, id: nat, c: Call)
    requires ReplyInv(wire, waits, id, c) && EventsInv(wire, open, id, c) && DoneInv(wire, id, c)
    ensures DoneInv(wire + [input], id, c)
  {
    if c.phase.Done? && c.streamSince.Some? {
      var next := wire + [input];
      var first :| FirstResponse(wire, c.since, id, first, c.phase.body);
      FirstResponseStays(wire, input, c.since, id, first, c.phase.body);
      TaggedStable(wire, input, c.streamSince.value, first, id);
      forall at | FirstResponse(next, c.since, id, at, c.phase.body)
        ensures Tagged(next, c.streamSince.value, at, id) <= c.delivered
      {
        FirstResponseOnce(next, c.since, id, first, at, c.phase.body, c.phase.body);
      }
    }
  }

  /** While the reading goes on no response has borne an ID that is not yet given out. */
  lemma UnusedIds(s: State, input: Input, next: State)
    requires Inv(s) && s.reading && next == AfterRead(s, input)
    ensures next.reading ==> forall id: nat :: id >= next.next ==> Unanswered(next.wire, 0, |next.wire|, id)
  {
    if next.reading {
      forall id: nat | id >= next.next ensures Unanswered(next.wire, 0, |next.wire|, id) {
        assert id !in s.replies;
        assert Unanswered(s.wire, 0, |s.wire|, id);
      }
    }
  }

  lemma ReadKeeps(s: State, input: Input)
    requires Inv(s) && s.reading
    ensures Inv(AfterRead(s, input))
  {
    var next := AfterRead(s, input);
    UnusedIds(s, input, next);
    forall id | id in next.calls ensures id < next.next && CallInv(next, id) {
      assert CallInv(s, id);
      ReadKeepsCall(s, input, id);
    }
  }

  lemma ReadKeepsCall(s: State, input: Input, id: nat)
    requires s.streams <= s.calls.Keys && s.replies <= s.calls.Keys && s.reading && id in s.calls && CallInv(s, id)
    ensures CallInv(AfterRead(s, input), id)
  {
    var c := s.calls[id];
    ReadKeepsEvents(s.wire, input, id in s.streams, id, c);
    ReadKeepsReply(s.wire, input, id in s.replies, id, c);
    ReadKeepsDone(s.wire, input, id in s.replies, id in s.streams, id, c);
  }

  /** A call's own steps change nothing about any other call. */
  lemma OthersKeep(s: State, next: State, id: nat)
    requires Inv(s) && next.wire == s.wire && next.reading == s.reading && next.next >= s.next
    requires next.calls.Keys == s.calls.Keys + {id}
    requires next.streams <= next.calls.Keys && next.replies <= next.calls.Keys && next.closed <= next.calls.Keys
    requires forall other :: other in s.calls && other != id ==> next.calls[other] == s.calls[other]
    requires forall other :: other != id ==> (other in next.streams <==> other in s.streams)
    requires forall other :: other != id ==> (other in next.replies <==> other in s.replies)
    requires forall other :: other != id ==> (other in next.closed <==> other in s.closed)
    requires id < next.next && CallInv(next, id)
    ensures Inv(next)
  {
    forall other | other in next.calls ensures other < next.next && CallInv(next, other) {
      if other != id { assert CallInv(s, other); }
    }
  }

  lemma FinishSees(wire: seq<Input>, id: nat, c: Call)
    requires EventsInv(wire, true, id, c) && c.queue == [] && c.phase.Draining? && c.streamSince.Some?
    ensures DoneInv(wire, id, c.(phase := Done(c.phase.body)))
  {
    forall at | FirstResponse(wire, c.since, id, at, c.phase.body)
      ensures Tagged(wire, c.streamSince.value, at, id) <= c.delivered
    {
      TaggedGrows(wire, c.streamSince.value, at, |wire|, id);
    }
  }

  lemma OwnStepKeeps(s: State, step: Step)
    requires Inv(s) && Enabled(s, step) && !step.Read? && !step.Open?
    ensures CallInv(Next(s, step), step.id)
  {
    assert CallInv(s, step.id);
    var c := s.calls[step.id];
    match step {
      case OpenStream(id) => assert Tagged(s.wire, |s.wire|, |s.wire|, id) == [];
      case TakeEvent(id, accepted) => assert c.delivered + c.queue == (c.delivered + [c.queue[0]]) + c.queue[1..];
      case Finish(id) => FinishSees(s.wire, id, c);
      case _ =>
    }
  }

  lemma OpenKeeps(s: State)
    requires Inv(s) && Enabled(s, Step.Open)
    ensures Inv(Next(s, Step.Open))
  {
    OthersKeep(s, Next(s, Step.Open), s.next);
  }

  lemma CallStepKeeps(s: State, step: Step)
    requires Inv(s) && Enabled(s, step) && !step.Read? && !step.Open?
    ensures Inv(Next(s, step))
  {
    OwnStepKeeps(s, step);
    OwnStepFrame(s, step, Next(s, step));
    OthersKeep(s, Next(s, step), step.id);
  }

  /** A call's own step touches nothing but its own entries. */
  lemma OwnStepFrame(s: State, step: Step, next: State)
    requires s.streams <= s.calls.Keys && s.replies <= s.calls.Keys && s.closed <= s.calls.Keys
    requires Enabled(s, step) && !step.Read? && !step.Open? && next == Next(s, step)
    ensures next.wire == s.wire && next.reading == s.reading && next.next == s.next && next.calls.Keys == s.calls.Keys && step.id in s.calls
    ensures next.streams <= next.calls.Keys && next.replies <= next.calls.Keys && next.closed <= next.calls.Keys
    ensures forall other :: other in s.calls && other != step.id ==> next.calls[other] == s.calls[other]
    ensures forall other :: other != step.id ==> (other in next.streams <==> other in s.streams)
    ensures forall other :: other != step.id ==> (other in next.replies <==> other in s.replies)
    ensures forall other :: other != step.id ==> (other in next.closed <==> other in s.closed)
  {}

  lemma StepKeeps(s: State, step: Step)
    requires Inv(s) && Enabled(s, step)
    ensures Inv(Next(s, step))
  {
    match step {
      case Read(input) => ReadKeeps(s, input);
      case Open => OpenKeeps(s);
      case _ => CallStepKeeps(s, step);
    }
  }

  // ---------- Whole runs ----------

  ghost predicate Possible(s: State, steps: seq<Step>)
    requires Inv(s)
    decreases |steps|
  {
    steps == [] || (Enabled(s, steps[0]) && (StepKeeps(s, steps[0]); Possible(Next(s, steps[0]), steps[1..])))
  }

  ghost function After(s: State, steps: seq<Step>): State
    requires Inv(s) && Possible(s, steps)
    decreases |steps|
  {
    if steps == [] then s else StepKeeps(s, steps[0]); After(Next(s, steps[0]), steps[1..])
  }

  lemma {:induction false} RunKeeps(s: State, steps: seq<Step>)
    requires Inv(s) && Possible(s, steps)
    ensures Inv(After(s, steps))
    decreases |steps|
  {
    if steps != [] {
      StepKeeps(s, steps[0]);
      RunKeeps(Next(s, steps[0]), steps[1..]);
    }
  }

  /** In every run, what a call's callback saw is a prefix of the events that bear its ID, in wire
      order, counted from when its stream was opened. */
  lemma CallbackSeesPrefix(steps: seq<Step>, s: State, id: nat)
    requires Possible(Start, steps) && s == After(Start, steps)
    requires id in s.calls && s.calls[id].streamSince.Some?
    ensures s.calls[id].streamSince.value <= |s.wire|
    ensures s.calls[id].delivered <= Tagged(s.wire, s.calls[id].streamSince.value, |s.wire|, id)
  {
    RunKeeps(Start, steps);
    assert CallInv(s, id);
  }

  /** In every run a call that returns does so with the first response on the wire that bears its ID,
      and its callback saw every such event that came before it. */
  lemma ResultIsFirstResponse(steps: seq<Step>, s: State, id: nat) returns (at: nat)
    requires Possible(Start, steps) && s == After(Start, steps) && id in s.calls && s.calls[id].phase.Done?
    ensures var c := s.calls[id];
      && FirstResponse(s.wire, 0, id, at, c.phase.body) && c.since <= at && c.streamSince.Some?
      && Tagged(s.wire, c.streamSince.value, at, id) <= c.delivered
  {
    RunKeeps(Start, steps);
    assert CallInv(s, id);
    var c := s.calls[id];
    at :| FirstResponse(s.wire, c.since, id, at, c.phase.body);
  }

  lemma FirstOnWire(s: State, id: nat)
    requires Inv(s) && id in s.calls && s.calls[id].reply.Some?
    ensures exists at :: FirstResponse(s.wire, 0, id, at, s.calls[id].reply.value)
  {
    assert CallInv(s, id);
    var c := s.calls[id];
    var at :| FirstResponse(s.wire, c.since, id, at, c.reply.value);
    assert FirstResponse(s.wire, 0, id, at, c.reply.value);
  }

  /** A response ends the reading exactly when nobody waits for it: no call has its ID, the call was
      answered, or it is closed. It reaches no call then, and otherwise only the one that waits. */
  lemma StrayResponseStops(s: State, id: nat, body: string)
    requires Inv(s) && s.reading
    ensures var next := AfterRead(s, Response(id, body));
      && (!next.reading <==> id !in s.calls || s.calls[id].reply.Some? || id in s.closed)
      && (!next.reading ==> next.calls == s.calls)
      && (next.reading ==> next.calls == s.calls[id := s.calls[id].(reply := Some(body))])
  {
    if id in s.calls { assert CallInv(s, id); }
  }

  // ---------- How a call ends ----------

  /** A call waits until it has its reply, fails when its callback refuses an event or it gives up, and waits for
      nothing once it is closed. */
  lemma OwnOutcome(s: State, step: Step)
    requires Inv(s) && Enabled(s, step) && !step.Read?
    ensures var next := Next(s, step);
      match step
      case Open =>
        && next.next == s.next + 1 && s.next !in s.calls && s.next in next.calls && s.next in next.replies && s.next !in next.streams
        && next.calls[s.next].phase.Waiting? && next.calls[s.next].queue == [] && next.calls[s.next].reply.None?
      case OpenStream(id) => id in next.streams && next.calls[id].phase.Waiting? && next.calls[id].queue == []
      case TakeEvent(id, accepted) => next.calls[id].phase == (if accepted then s.calls[id].phase else Failed)
      case TakeReply(id) => s.calls[id].reply == Some(next.calls[id].phase.body) && next.calls[id].phase.Draining?
      case Finish(id) => next.calls[id].phase.Done? && next.calls[id].phase.body == s.calls[id].phase.body
      case TimeOut(id) => next.calls[id].phase.Failed? && Enabled(next, Close(id))
      case Close(id) => id !in next.replies && id !in next.streams && id in next.closed && next.calls == s.calls
      case _ => true
  {
    if !step.Open? { assert CallInv(s, step.id); }
  }

  /** A call whose response is there can return it by steps of its own: it takes the events that are queued,
      in order, then finishes and closes. */
  lemma {:induction false} CallCanReturn(s: State, id: nat) returns (steps: seq<Step>)
    requires Inv(s) && Taking(s, id) && s.calls[id].reply.Some?
    ensures Possible(s, steps) && id in After(s, steps).calls && id in After(s, steps).closed
    ensures var c, end := s.calls[id], After(s, steps).calls[id];
            end.phase == Done(c.reply.value) && end.delivered == c.delivered + c.queue
    decreases s.calls[id].phase.Waiting?, |s.calls[id].queue|
  {
    var c := s.calls[id];
    assert CallInv(s, id);
    if c.phase.Waiting? {
      steps := Onward(s, TakeReply(id), id);
    } else if c.queue != [] {
      steps := Onward(s, TakeEvent(id, true), id);
      assert c.delivered + [c.queue[0]] + c.queue[1..] == c.delivered + c.queue;
    } else {
      steps := [Finish(id), Close(id)];
      Closes(s, id);
    }
  }

  lemma {:induction false} Onward(s: State, step: Step, id: nat) returns (steps: seq<Step>)
    requires Inv(s) && Taking(s, id) && s.calls[id].reply.Some? && Enabled(s, step)
    requires (step == TakeReply(id) && s.calls[id].phase.Waiting?) || (step == TakeEvent(id, true) && !s.calls[id].phase.Waiting?)
    ensures Possible(s, steps) && id in After(s, steps).calls && id in After(s, steps).closed
    ensures var c, end := Next(s, step).calls[id], After(s, steps).calls[id];
            end.phase == Done(s.calls[id].reply.value) && end.delivered == c.delivered + c.queue
    decreases s.calls[id].phase.Waiting?, |s.calls[id].queue|, 0
  {
    StepKeeps(s, step);
    var rest := CallCanReturn(Next(s, step), id);
    steps := [step] + rest;
    assert steps[1..] == rest;
  }

  lemma Closes(s: State, id: nat)
    requires Inv(s) && Taking(s, id) && s.calls[id].phase.Draining? && s.calls[id].queue == []
    ensures var steps := [Finish(id), Close(id)];
      && Possible(s, steps) && id in After(s, steps).calls && id in After(s, steps).closed
      && After(s, steps).calls[id] == s.calls[id].(phase := Done(s.calls[id].phase.body))
  {
    StepKeeps(s, Finish(id));
    TwoSteps(s, Finish(id), Close(id));
  }

  lemma TwoSteps(s: State, a: Step, b: Step)
    requires Inv(s) && Enabled(s, a) && Inv(Next(s, a)) && Enabled(Next(s, a), b)
    ensures Possible(s, [a, b]) && After(s, [a, b]) == Next(Next(s, a), b)
  {
    var middle := Next(s, a);
    StepKeeps(middle, b);
    assert [a, b][1..] == [b] && [b][1..] == [];
    assert Possible(Next(middle, b), []);
    assert Possible(middle, [b]) && After(middle, [b]) == After(Next(middle, b), []);
  }

  // ---------- Where every input goes ----------

  /** An event that belongs to an open stream. */
  predicate ForStream(s: State, input: Input) {
    input.Event? && input.call.Some? && input.call.value in s.streams
  }

  /** A response to a call that was not answered and is not closed. */
  predicate Awaited(s: State, input: Input) {
    input.Response? && input.id in s.calls && s.calls[input.id].reply.None? && input.id !in s.closed
  }

  /** For every input: what ends the reading, what is handed on, and what becomes of the calls. */
  lemma ReadOutcome(s: State, input: Input)
    requires Inv(s) && s.reading
    ensures var next := AfterRead(s, input);
      && (next.reading <==> !input.Invalid? && (input.Response? ==> Awaited(s, input)))
      && next.incoming == s.incoming + (if input.Request? || (input.Event? && !ForStream(s, input)) then [input] else [])
      && next.wire == s.wire + [input] && next.streams == s.streams && next.closed == s.closed && next.next == s.next
    ensures var next := AfterRead(s, input);
      if ForStream(s, input) then
        var c := s.calls[input.call.value];
        next.replies == s.replies && next.calls == s.calls[input.call.value := c.(queue := c.queue + [input.value])]
      else if Awaited(s, input) then
        next.replies == s.replies - {input.id} && next.calls == s.calls[input.id := s.calls[input.id].(reply := Some(input.body))]
      else next.replies == s.replies && next.calls == s.calls
  {
    if input.Response? && input.id in s.calls { assert CallInv(s, input.id); }
  }

  /** The input at a position did not end the reading: it is valid, and a response that reached its call. */
  ghost predicate Reached(s: State, p: nat)
    requires p < |s.wire|
  {
    match s.wire[p]
    case Invalid => false
    case Response(id, body) => id in s.calls && s.calls[id].reply == Some(body) && FirstResponse(s.wire, 0, id, p, body)
    case _ => true
  }

  ghost predicate ReadingInv(s: State) {
    if s.reading then forall p :: 0 <= p < |s.wire| ==> Reached(s, p)
    else s.wire != [] && !Reached(s, |s.wire| - 1)
  }

  lemma ReadReaches(s: State, input: Input, p: nat)
    requires Inv(s) && s.reading && p < |s.wire| && Reached(s, p)
    ensures Reached(AfterRead(s, input), p)
  {
    if s.wire[p].Response? {
      assert CallInv(s, s.wire[p].id);
      FirstResponseStays(s.wire, input, 0, s.wire[p].id, p, s.wire[p].body);
    }
  }

  lemma LastReached(s: State, input: Input)
    requires Inv(s) && s.reading
    ensures AfterRead(s, input).reading <==> Reached(AfterRead(s, input), |s.wire|)
  {
    if input.Response? && input.id in s.calls {
      var next, id := AfterRead(s, input), input.id;
      assert CallInv(s, id);
      if s.calls[id].reply.Some? {
        var at: nat :| FirstResponse(s.wire, s.calls[id].since, id, at, s.calls[id].reply.value);
        assert IsResponse(next.wire[at], id);
      }
    }
  }

  lemma ReadingKeeps(s: State, step: Step)
    requires Inv(s) && Enabled(s, step) && ReadingInv(s)
    ensures ReadingInv(Next(s, step))
  {
    var next := Next(s, step);
    if step.Read? {
      LastReached(s, step.input);
      forall p | 0 <= p < |s.wire| ensures Reached(next, p) { ReadReaches(s, step.input, p); }
    } else {
      forall p | 0 <= p < |s.wire| ensures Reached(next, p) <==> Reached(s, p) {
        OthersReach(s, step, p);
      }
    }
  }

  lemma OthersReach(s: State, step: Step, p: nat)
    requires Inv(s) && Enabled(s, step) && !step.Read? && p < |s.wire|
    ensures Next(s, step).wire == s.wire && (Reached(Next(s, step), p) <==> Reached(s, p))
  {
    if s.wire[p].Response? { ReplyStays(s, step, s.wire[p].id); }
  }

  lemma ReplyStays(s: State, step: Step, id: nat)
    requires Inv(s) && Enabled(s, step) && !step.Read?
    ensures var next := Next(s, step);
      && (id in s.calls ==> id in next.calls && next.calls[id].reply == s.calls[id].reply)
      && (id !in s.calls && id in next.calls ==> next.calls[id].reply.None?)
  {}

  function Requests(inputs: seq<Input>): seq<Input> {
    if inputs == [] then []
    else
      var last := inputs[|inputs| - 1];
      Requests(inputs[..|inputs| - 1]) + if last.Request? then [last] else []
  }

  /** The events that bear an ID, all of them. */
  function EventsOf(inputs: seq<Input>, id: nat): seq<string> {
    Tagged(inputs, 0, |inputs|, id)
  }

  /** Every event with this ID is handed on, but for those of its stream while that is open, which its call
      has seen or will see. */
  ghost predicate EventsHandedOn(s: State, id: nat) {
    && (id !in s.calls || s.calls[id].streamSince.None? ==> EventsOf(s.incoming, id) == EventsOf(s.wire, id))
    && (id in s.calls && id in s.streams ==>
          EventsOf(s.incoming, id) + (s.calls[id].delivered + s.calls[id].queue) == EventsOf(s.wire, id))
  }

  ghost predicate HandedOn(s: State) {
    Requests(s.incoming) == Requests(s.wire) && forall id: nat :: EventsHandedOn(s, id)
  }

  lemma OneMoreInput(inputs: seq<Input>, input: Input, id: nat)
    ensures Requests(inputs + [input]) == Requests(inputs) + if input.Request? then [input] else []
    ensures EventsOf(inputs + [input], id) == EventsOf(inputs, id) + if input.Event? && input.call == Some(id) then [input.value] else []
  {
    assert (inputs + [input])[..|inputs|] == inputs;
    TaggedStable(inputs, input, 0, |inputs|, id);
  }

  lemma ReadHandsOn(s: State, input: Input)
    requires Inv(s) && s.reading && HandedOn(s)
    ensures HandedOn(AfterRead(s, input))
  {
    OneMoreInput(s.wire, input, 0);
    OneMoreInput(s.incoming, input, 0);
    forall id: nat ensures EventsHandedOn(AfterRead(s, input), id) {
      OneEventMore(s, input, id);
    }
  }

  lemma OneEventMore(s: State, input: Input, id: nat)
    requires Inv(s) && s.reading && EventsHandedOn(s, id)
    ensures EventsHandedOn(AfterRead(s, input), id)
  {
    OneMoreInput(s.wire, input, id);
    OneMoreInput(s.incoming, input, id);
    if input.Event? && input.call == Some(id) {
      OwnEvent(s, input, id);
    } else {
      OtherInput(s, input, id);
    }
  }

  lemma OwnEvent(s: State, input: Input, id: nat)
    requires Inv(s) && s.reading && EventsHandedOn(s, id) && input.Event? && input.call == Some(id)
    requires EventsOf(s.wire + [input], id) == EventsOf(s.wire, id) + [input.value]
    requires EventsOf(s.incoming + [input], id) == EventsOf(s.incoming, id) + [input.value]
    ensures EventsHandedOn(AfterRead(s, input), id)
  {
    if id in s.streams {
      var c := s.calls[id];
      var front := EventsOf(s.incoming, id);
      assert front + (c.delivered + (c.queue + [input.value])) == front + (c.delivered + c.queue) + [input.value];
      assert CallInv(s, id);
    }
  }

  lemma OtherInput(s: State, input: Input, id: nat)
    requires Inv(s) && s.reading && EventsHandedOn(s, id) && !(input.Event? && input.call == Some(id))
    requires EventsOf(s.wire + [input], id) == EventsOf(s.wire, id)
    requires EventsOf(s.incoming + [input], id) == EventsOf(s.incoming, id)
    ensures EventsHandedOn(AfterRead(s, input), id)
  {
    ReadOutcome(s, input);
    var next := AfterRead(s, input);
    assert EventsOf(next.incoming, id) == EventsOf(s.incoming, id) && EventsOf(next.wire, id) == EventsOf(s.wire, id);
  }

  lemma HandingKeeps(s: State, step: Step)
    requires Inv(s) && Enabled(s, step) && HandedOn(s)
    ensures HandedOn(Next(s, step))
  {
    if step.Read? {
      ReadHandsOn(s, step.input);
    } else {
      forall id: nat ensures EventsHandedOn(Next(s, step), id) {
        OthersHandOn(s, step, id);
      }
    }
  }

  lemma OthersHandOn(s: State, step: Step, id: nat)
    requires Inv(s) && Enabled(s, step) && !step.Read? && EventsHandedOn(s, id)
    ensures EventsHandedOn(Next(s, step), id)
  {
    if id in s.calls { assert CallInv(s, id); }
    if step.TakeEvent? && step.id == id {
      var c := s.calls[id];
      assert c.delivered + c.queue == (c.delivered + [c.queue[0]]) + c.queue[1..];
    }
  }

  lemma {:induction false} WireFrom(s: State, steps: seq<Step>)
    requires Inv(s) && Possible(s, steps) && ReadingInv(s) && HandedOn(s)
    ensures ReadingInv(After(s, steps)) && HandedOn(After(s, steps))
    decreases |steps|
  {
    if steps != [] {
      StepKeeps(s, steps[0]);
      ReadingKeeps(s, steps[0]);
      HandingKeeps(s, steps[0]);
      WireFrom(Next(s, steps[0]), steps[1..]);
    }
  }

  /** In every run the reading still goes on if and only if no input was invalid and every response read
      is the first one of a call and reached that call. */
  lemma ReadingGoesOn(steps: seq<Step>, s: State)
    requires Possible(Start, steps) && s == After(Start, steps)
    ensures s.reading <==> forall p :: 0 <= p < |s.wire| ==> Reached(s, p)
  {
    WireFrom(Start, steps);
  }

  /** In every run the server was handed all requests in order, and no event is lost: what was handed on,
      what the callback saw and what is queued are together the events on the wire. */
  lemma NothingLost(steps: seq<Step>, s: State)
    requires Possible(Start, steps) && s == After(Start, steps)
    ensures HandedOn(s)
  {
    WireFrom(Start, steps);
  }

  // ---------- The program ----------

  /** The tables the reader and the calls share. Each method is what happens between two points where
      another task can run. */
  class Connection {
    var next: nat
    var calls: map<nat, Call>
    var replies: set<nat>
    var streams: set<nat>
    var reading: bool
    var incoming: seq<Input>
    ghost var closed: set<nat>
    ghost var wire: seq<Input>
    var position: nat

    ghost function Model(): State
      reads this
    {
      State(next, calls, replies, streams, closed, wire, incoming, reading)
    }

    ghost predicate Valid()
      reads this
    {
      Inv(Model()) && position == |wire|
    }

    constructor ()
      ensures Valid() && Model() == Start
    {
      next, calls, replies, streams, incoming, reading, closed, wire, position := 1, map[], {}, {}, [], true, {}, [], 0;
    }

    method OpenCall() returns (id: Option<nat>)
      requires Valid() && next <= U64_MAX
      modifies this
      ensures Valid()
      ensures old(next) == U64_MAX ==> id == None && Model() == old(Model())
      ensures old(next) < U64_MAX ==> id == Some(old(next)) && Model() == Next(old(Model()), Step.Open)
    {
      if next == U64_MAX {
        return None;
      }
      StepKeeps(Model(), Step.Open);
      calls := calls[next := Call(position, None, [], None, [], Waiting)];
      replies := replies + {next};
      id := Some(next);
      next := next + 1;
    }

    method OpenStream(id: nat)
      requires Valid() && Enabled(Model(), Step.OpenStream(id))
      modifies this
      ensures Valid() && Model() == Next(old(Model()), Step.OpenStream(id))
    {
      StepKeeps(Model(), Step.OpenStream(id));
      streams := streams + {id};
      calls := calls[id := calls[id].(streamSince := Some(position))];
    }

    method Read(input: Input)
      requires Valid() && reading
      modifies this
      ensures Valid() && Model() == Next(old(Model()), Step.Read(input))
    {
      StepKeeps(Model(), Step.Read(input));
      Route(input);
    }

    method Route(input: Input)
      requires streams <= calls.Keys && replies <= calls.Keys && position == |wire|
      modifies this`calls, this`replies, this`reading, this`incoming, this`wire, this`position
      ensures Model() == AfterRead(old(Model()), input) && position == |wire|
    {
      wire := wire + [input];
      position := position + 1;
      match input {
        case Event(call, value) =>
          if call.Some? && call.value in streams {
            var c := calls[call.value];
            calls := calls[call.value := c.(queue := c.queue + [value])];
          } else {
            incoming := incoming + [input];
          }
        case Request(_) => incoming := incoming + [input];
        case Response(id, body) =>
          if id in replies {
            replies := replies - {id};
            calls := calls[id := calls[id].(reply := Some(body))];
          } else {
            reading := false;
          }
        case Invalid => reading := false;
        case Noise =>
      }
    }

    method TakeEvent(id: nat, accepted: bool) returns (value: string)
      requires Valid() && Enabled(Model(), Step.TakeEvent(id, accepted))
      modifies this
      ensures Valid() && value == old(calls)[id].queue[0] && Model() == Next(old(Model()), Step.TakeEvent(id, accepted))
    {
      StepKeeps(Model(), Step.TakeEvent(id, accepted));
      var c := calls[id];
      value := c.queue[0];
      c := c.(queue := c.queue[1..], delivered := c.delivered + [value]);
      if !accepted {
        c := c.(phase := Failed);
      }
      calls := calls[id := c];
    }

    method TakeReply(id: nat)
      requires Valid() && Enabled(Model(), Step.TakeReply(id))
      modifies this
      ensures Valid() && Model() == Next(old(Model()), Step.TakeReply(id))
    {
      StepKeeps(Model(), Step.TakeReply(id));
      calls := calls[id := calls[id].(phase := Draining(calls[id].reply.value))];
    }

    method Return(id: nat) returns (body: string)
      requires Valid() && Enabled(Model(), Step.Finish(id))
      modifies this
      ensures Valid() && Model() == Next(old(Model()), Step.Finish(id))
      ensures exists at :: FirstResponse(wire, 0, id, at, body)
    {
      StepKeeps(Model(), Step.Finish(id));
      body := calls[id].phase.body;
      FirstOnWire(Model(), id);
      calls := calls[id := calls[id].(phase := Done(body))];
    }

    method Close(id: nat)
      requires Valid() && Enabled(Model(), Step.Close(id))
      modifies this
      ensures Valid() && Model() == Next(old(Model()), Step.Close(id))
    {
      StepKeeps(Model(), Step.Close(id));
      replies := replies - {id};
      streams := streams - {id};
      closed := closed + {id};
    }
  }
}
