/** The concurrent request server of a plugin: requests arrive, workers finish, are cancelled and
    joined in any order. Every event is one step; `Server` performs the steps in place. */
module RequestServer {
  import opened Wrappers

  const CONCURRENT_HANDLERS := 4

  /** A call has an ID, a note has none. `Cancel` holds the ID its parameters name. */
  datatype Method = Hello | Ping | Shutdown | Cancel(target: Option<nat>) | Other

  datatype Request = Request(id: Option<nat>, kind: Method, valid: bool)

  datatype Outcome = Answered | Silent | Cancelled | Broken

  datatype Worker = Running(id: Option<nat>, aborted: bool) | Finished(id: Option<nat>, outcome: Outcome)

  datatype Response = Response(ticket: nat, id: nat)

  datatype Mode = Serving | Draining | Returned | Failed

  /** `requests` are those taken from the input so far, and a ticket is a position there. A worker
      stays until it is joined; `active` may still name workers that have finished. */
  datatype State = State(
    requests: seq<Request>,
    workers: map<nat, Worker>,
    active: map<nat, nat>,
    responses: seq<Response>,
    aborted: set<nat>,
    mode: Mode)

  const Start := State([], map[], map[], [], {}, Serving)

  // ---------- Steps ----------

  datatype Event =
    | Receive(request: Request, sent: bool)
    | Closed
    | InputError
    | Finish(ticket: nat, outcome: Outcome)
    | Join(ticket: nat)
    | Return

  predicate IsRunning(workers: map<nat, Worker>, ticket: nat) {
    ticket in workers && workers[ticket].Running?
  }

  function Unfinished(active: map<nat, nat>, workers: map<nat, Worker>): map<nat, nat> {
    map id | id in active && IsRunning(workers, active[id]) :: active[id]
  }

  /** The answer of the server itself to a call, if the output still takes it. */
  function Answer(s: State, ticket: nat, id: Option<nat>, sent: bool): State {
    if id.None? then s
    else if sent then s.(responses := s.responses + [Response(ticket, id.value)])
    else s.(mode := Failed)
  }

  function Abort(s: State, ticket: nat): State {
    if IsRunning(s.workers, ticket) then
      s.(workers := s.workers[ticket := s.workers[ticket].(aborted := true)], aborted := s.aborted + {ticket})
    else s
  }

  function Spawn(s: State, ticket: nat, id: Option<nat>): State {
    s.(workers := s.workers[ticket := Running(id, false)],
       active := if id.None? then s.active else Unfinished(s.active, s.workers)[id.value := ticket])
  }

  function Received(s: State, request: Request, sent: bool): State {
    var ticket, id := |s.requests|, request.id;
    var next := s.(requests := s.requests + [request]);
    if !request.valid then Answer(next, ticket, id, sent)
    else if id.None? && request.kind.Cancel? then
      if request.kind.target.Some? && request.kind.target.value in s.active
      then Abort(next, s.active[request.kind.target.value]) else next
    else if |s.workers| >= CONCURRENT_HANDLERS && !request.kind.Hello? && !request.kind.Ping? && !request.kind.Shutdown? then
      Answer(next, ticket, id, sent)
    else if id.Some? && id.value in s.active then Answer(next, ticket, id, sent)
    else match request.kind
      case Hello => Answer(next, ticket, id, sent)
      case Ping => Answer(next, ticket, id, sent)
      case Shutdown =>
        var answered := Answer(next, ticket, id, sent);
        if answered.mode.Failed? then answered else answered.(mode := Draining)
      case _ => Spawn(next, ticket, id)
  }

  /** A worker writes its response, if it owes one, and finishes at once. Only an aborted one can end
      cancelled, and an aborted one may still finish by itself. */
  predicate CanFinish(s: State, ticket: nat, outcome: Outcome) {
    IsRunning(s.workers, ticket)
    && match outcome
       case Answered => s.workers[ticket].id.Some?
       case Silent => s.workers[ticket].id.None?
       case Cancelled => s.workers[ticket].aborted
       case Broken => true
  }

  function AfterFinish(s: State, ticket: nat, outcome: Outcome): State
    requires CanFinish(s, ticket, outcome)
  {
    var id := s.workers[ticket].id;
    s.(workers := s.workers[ticket := Finished(id, outcome)],
       responses := if outcome.Answered? then s.responses + [Response(ticket, id.value)] else s.responses)
  }

  function AfterJoin(s: State, ticket: nat): State
    requires ticket in s.workers && s.workers[ticket].Finished?
  {
    var joined := s.(workers := s.workers - {ticket});
    if s.workers[ticket].outcome.Broken? then joined.(mode := Failed)
    else if s.mode.Serving? then joined.(active := Unfinished(s.active, joined.workers))
    else joined
  }

  predicate Enabled(s: State, e: Event) {
    match e
    case Receive(_, _) => s.mode.Serving?
    case Closed => s.mode.Serving?
    case InputError => s.mode.Serving?
    case Finish(ticket, outcome) => !s.mode.Returned? && CanFinish(s, ticket, outcome)
    case Join(ticket) => (s.mode.Serving? || s.mode.Draining?) && ticket in s.workers && s.workers[ticket].Finished?
    case Return => s.mode.Draining? && s.workers == map[]
  }

  function Next(s: State, e: Event): State
    requires Enabled(s, e)
  {
    match e
    case Receive(request, sent) => Received(s, request, sent)
    case Closed => s.(mode := Draining)
    case InputError => s.(mode := Failed)
    case Finish(ticket, outcome) => AfterFinish(s, ticket, outcome)
    case Join(ticket) => AfterJoin(s, ticket)
    case Return => s.(mode := Returned)
  }

  // ---------- The invariant ----------

  ghost predicate HasResponse(responses: seq<Response>, ticket: nat) {
    exists i :: 0 <= i < |responses| && responses[i].ticket == ticket
  }

  ghost predicate WorkersInv(requests: seq<Request>, workers: map<nat, Worker>, active: map<nat, nat>) {
    && |workers| <= CONCURRENT_HANDLERS
    && (forall t :: t in workers ==> t < |requests| && workers[t].id == requests[t].id)
    && (forall id :: id in active ==> active[id] < |requests| && requests[active[id]].id == Some(id))
  }

  /** Every unfinished worker of a call is the one its ID stands for. */
  ghost predicate Tracked(workers: map<nat, Worker>, active: map<nat, nat>) {
    forall t :: IsRunning(workers, t) && workers[t].id.Some? ==> workers[t].id.value in active && active[workers[t].id.value] == t
  }

  ghost predicate CancelledBy(requests: seq<Request>, ticket: nat, k: nat) {
    ticket < k < |requests| && requests[ticket].id.Some? && requests[k].valid && requests[k].id.None?
    && requests[k].kind == Cancel(requests[ticket].id)
  }

  predicate EndsCancelled(workers: map<nat, Worker>, ticket: nat) {
    ticket in workers && if workers[ticket].Running? then workers[ticket].aborted else workers[ticket].outcome.Cancelled?
  }

  ghost predicate AbortInv(requests: seq<Request>, workers: map<nat, Worker>, aborted: set<nat>) {
    && (forall t :: t in aborted ==> exists k :: CancelledBy(requests, t, k))
    && (forall t :: EndsCancelled(workers, t) ==> t in aborted)
  }

  ghost predicate ResponsesInv(requests: seq<Request>, responses: seq<Response>) {
    && (forall i :: 0 <= i < |responses| ==>
          responses[i].ticket < |requests| && requests[responses[i].ticket].id == Some(responses[i].id))
    && (forall i, j :: 0 <= i < j < |responses| ==> responses[i].ticket != responses[j].ticket)
  }

  ghost predicate Owing(workers: map<nat, Worker>, responses: seq<Response>) {
    forall t :: IsRunning(workers, t) ==> !HasResponse(responses, t)
  }

  predicate IsBroken(workers: map<nat, Worker>, ticket: nat) {
    ticket in workers && workers[ticket].Finished? && workers[ticket].outcome.Broken?
  }

  /** The first `n` calls were answered, are at work, were aborted, or broke the connection. */
  ghost predicate Settled(requests: seq<Request>, workers: map<nat, Worker>, responses: seq<Response>, aborted: set<nat>, n: nat)
    requires n <= |requests|
  {
    forall t :: 0 <= t < n && requests[t].id.Some? ==>
      HasResponse(responses, t) || IsRunning(workers, t) || t in aborted || IsBroken(workers, t)
  }

  ghost predicate Inv(s: State) {
    && WorkersInv(s.requests, s.workers, s.active)
    && Tracked(s.workers, s.active)
    && AbortInv(s.requests, s.workers, s.aborted)
    && ResponsesInv(s.requests, s.responses)
    && Owing(s.workers, s.responses)
    && (s.mode.Failed? || Settled(s.requests, s.workers, s.responses, s.aborted, |s.requests|))
    && (s.mode.Returned? ==> s.workers == map[])
  }

  // ---------- Every step keeps the invariant ----------

  lemma Responded(requests: seq<Request>, responses: seq<Response>, ticket: nat, id: nat)
    requires ResponsesInv(requests, responses) && ticket < |requests| && requests[ticket].id == Some(id)
    requires !HasResponse(responses, ticket)
    ensures ResponsesInv(requests, responses + [Response(ticket, id)])
    ensures forall t :: HasResponse(responses + [Response(ticket, id)], t) <==> HasResponse(responses, t) || t == ticket
  {
    var next := responses + [Response(ticket, id)];
    assert next[|responses|].ticket == ticket;
    forall t | HasResponse(responses, t) ensures HasResponse(next, t) {
      var i :| 0 <= i < |responses| && responses[i].ticket == t;
      assert next[i].ticket == t;
    }
  }

  /** The state once a request is taken from the input, but not dealt with. */
  function Taken(s: State, request: Request): State {
    s.(requests := s.requests + [request])
  }

  ghost predicate TakenInv(s: State) {
    && s.mode.Serving? && s.requests != []
    && WorkersInv(s.requests, s.workers, s.active) && Tracked(s.workers, s.active)
    && AbortInv(s.requests, s.workers, s.aborted)
    && ResponsesInv(s.requests, s.responses) && Owing(s.workers, s.responses)
    && Settled(s.requests, s.workers, s.responses, s.aborted, |s.requests| - 1)
    && |s.requests| - 1 !in s.workers && !HasResponse(s.responses, |s.requests| - 1)
  }

  lemma CancelsStay(requests: seq<Request>, request: Request, workers: map<nat, Worker>, aborted: set<nat>)
    requires AbortInv(requests, workers, aborted)
    ensures AbortInv(requests + [request], workers, aborted)
  {
    forall t | t in aborted ensures exists k :: CancelledBy(requests + [request], t, k) {
      var k :| CancelledBy(requests, t, k);
      assert CancelledBy(requests + [request], t, k);
    }
  }

  lemma TakenKeeps(s: State, request: Request)
    requires Inv(s) && s.mode.Serving?
    ensures TakenInv(Taken(s, request))
  {
    CancelsStay(s.requests, request, s.workers, s.aborted);
  }

  lemma AnswerKeeps(s: State, sent: bool)
    requires TakenInv(s)
    ensures Inv(Answer(s, |s.requests| - 1, s.requests[|s.requests| - 1].id, sent))
  {
    var ticket := |s.requests| - 1;
    if s.requests[ticket].id.Some? && sent {
      Responded(s.requests, s.responses, ticket, s.requests[ticket].id.value);
    }
  }

  lemma AbortKeeps(s: State, target: nat)
    requires TakenInv(s) && target in s.active
    requires var last := s.requests[|s.requests| - 1]; last.valid && last.id.None? && last.kind == Cancel(Some(target))
    ensures Inv(Abort(s, s.active[target]))
  {
    if IsRunning(s.workers, s.active[target]) {
      assert CancelledBy(s.requests, s.active[target], |s.requests| - 1);
      RunningAborted(s, s.active[target]);
    } else {
      AnswerKeeps(s, true);
    }
  }

  lemma RunningAborted(s: State, ticket: nat)
    requires TakenInv(s) && IsRunning(s.workers, ticket) && CancelledBy(s.requests, ticket, |s.requests| - 1)
    ensures Inv(Abort(s, ticket))
  {
    AbortedIsCancelled(s, ticket, |s.requests| - 1);
    AbortedWorkers(s, ticket);
    AbortedSettles(s, ticket);
  }

  lemma AbortedIsCancelled(s: State, ticket: nat, k: nat)
    requires AbortInv(s.requests, s.workers, s.aborted) && IsRunning(s.workers, ticket) && CancelledBy(s.requests, ticket, k)
    ensures var next := Abort(s, ticket); AbortInv(next.requests, next.workers, next.aborted)
  {}

  lemma AbortedWorkers(s: State, ticket: nat)
    requires WorkersInv(s.requests, s.workers, s.active) && Tracked(s.workers, s.active) && Owing(s.workers, s.responses)
    requires IsRunning(s.workers, ticket)
    ensures var next := Abort(s, ticket);
            && WorkersInv(s.requests, next.workers, s.active) && Tracked(next.workers, s.active)
            && Owing(next.workers, s.responses)
  {
    var next := Abort(s, ticket);
    assert next.workers.Keys == s.workers.Keys;
    assert |next.workers| == |next.workers.Keys| && |s.workers| == |s.workers.Keys|;
  }

  lemma AbortedSettles(s: State, ticket: nat)
    requires IsRunning(s.workers, ticket) && s.requests != [] && s.requests[|s.requests| - 1].id.None?
    requires Settled(s.requests, s.workers, s.responses, s.aborted, |s.requests| - 1)
    ensures var next := Abort(s, ticket); Settled(s.requests, next.workers, s.responses, next.aborted, |s.requests|)
  {}

  lemma SpawnKeeps(s: State)
    requires TakenInv(s) && |s.workers| < CONCURRENT_HANDLERS
    requires var id := s.requests[|s.requests| - 1].id; id.Some? ==> id.value !in s.active
    ensures Inv(Spawn(s, |s.requests| - 1, s.requests[|s.requests| - 1].id))
  {
    var ticket := |s.requests| - 1;
    SpawnTracks(s.workers, s.active, ticket, s.requests[ticket].id);
    SpawnedWorkers(s, ticket);
    SpawnedSettles(s, ticket);
  }

  lemma SpawnedWorkers(s: State, ticket: nat)
    requires WorkersInv(s.requests, s.workers, s.active) && AbortInv(s.requests, s.workers, s.aborted)
    requires ticket < |s.requests| && ticket !in s.workers && |s.workers| < CONCURRENT_HANDLERS
    ensures var next := Spawn(s, ticket, s.requests[ticket].id);
            WorkersInv(s.requests, next.workers, next.active) && AbortInv(s.requests, next.workers, s.aborted)
  {
    var next := Spawn(s, ticket, s.requests[ticket].id);
    OneMoreWorker(s.workers, ticket, Running(s.requests[ticket].id, false));
    forall t | EndsCancelled(next.workers, t) ensures t in s.aborted {
      assert t != ticket && EndsCancelled(s.workers, t);
    }
  }

  lemma OneMoreWorker(workers: map<nat, Worker>, ticket: nat, worker: Worker)
    requires ticket !in workers
    ensures |workers[ticket := worker]| == |workers| + 1
  {
    var next := workers[ticket := worker];
    assert next.Keys == workers.Keys + {ticket};
    assert |next| == |next.Keys| && |workers| == |workers.Keys|;
  }

  lemma SpawnedSettles(s: State, ticket: nat)
    requires ticket == |s.requests| - 1 && ticket !in s.workers
    requires Settled(s.requests, s.workers, s.responses, s.aborted, ticket)
    requires Owing(s.workers, s.responses) && !HasResponse(s.responses, ticket)
    ensures var next := Spawn(s, ticket, s.requests[ticket].id);
            Settled(s.requests, next.workers, s.responses, s.aborted, |s.requests|) && Owing(next.workers, s.responses)
  {}

  lemma SpawnTracks(workers: map<nat, Worker>, active: map<nat, nat>, ticket: nat, id: Option<nat>)
    requires Tracked(workers, active) && ticket !in workers && (id.Some? ==> id.value !in active)
    ensures Tracked(workers[ticket := Running(id, false)],
                    if id.None? then active else Unfinished(active, workers)[id.value := ticket])
  {}

  predicate Refused(s: State, request: Request) {
    || (|s.workers| >= CONCURRENT_HANDLERS && !request.kind.Hello? && !request.kind.Ping? && !request.kind.Shutdown?)
    || (request.id.Some? && request.id.value in s.active)
  }

  predicate IsCancelNote(request: Request) {
    request.valid && request.id.None? && request.kind.Cancel?
  }

  predicate Aborts(s: State, request: Request) {
    IsCancelNote(request) && request.kind.target.Some? && request.kind.target.value in s.active
  }

  predicate Spawns(s: State, request: Request) {
    request.valid && !IsCancelNote(request) && !Refused(s, request) && (request.kind.Cancel? || request.kind.Other?)
  }

  predicate ShutsDown(s: State, request: Request, sent: bool) {
    request.valid && !Refused(s, request) && request.kind.Shutdown? && (request.id.None? || sent)
  }

  /** What becomes of a request is one of four things. */
  lemma ReceivedCases(s: State, request: Request, sent: bool)
    requires s.mode.Serving?
    ensures var taken := Taken(s, request);
            var answered := Answer(taken, |s.requests|, request.id, sent);
            Received(s, request, sent) ==
              if Aborts(s, request) then Abort(taken, s.active[request.kind.target.value])
              else if Spawns(s, request) then Spawn(taken, |s.requests|, request.id)
              else if ShutsDown(s, request, sent) then answered.(mode := Draining)
              else answered
  {}

  lemma DrainingKeeps(s: State)
    requires Inv(s) && s.mode.Serving?
    ensures Inv(s.(mode := Draining))
  {}

  lemma ReceiveKeeps(s: State, request: Request, sent: bool)
    requires Inv(s) && s.mode.Serving?
    ensures Inv(Received(s, request, sent))
  {
    TakenKeeps(s, request);
    ReceivedCases(s, request, sent);
    var taken := Taken(s, request);
    assert taken.requests[|s.requests|] == request;
    if Aborts(s, request) {
      AbortKeeps(taken, request.kind.target.value);
    } else if Spawns(s, request) {
      SpawnKeeps(taken);
    } else {
      AnswerKeeps(taken, sent);
      if ShutsDown(s, request, sent) {
        DrainingKeeps(Answer(taken, |s.requests|, request.id, sent));
      }
    }
  }

  lemma FinishKeeps(s: State, ticket: nat, outcome: Outcome)
    requires Inv(s) && CanFinish(s, ticket, outcome) && !s.mode.Returned?
    ensures Inv(AfterFinish(s, ticket, outcome))
  {
    FinishedWorkers(s, ticket, outcome);
    FinishedAborts(s, ticket, outcome);
    if outcome.Answered? {
      Responded(s.requests, s.responses, ticket, s.workers[ticket].id.value);
    }
    if !s.mode.Failed? {
      FinishSettles(s, ticket, outcome);
    }
  }

  lemma FinishedWorkers(s: State, ticket: nat, outcome: Outcome)
    requires WorkersInv(s.requests, s.workers, s.active) && Tracked(s.workers, s.active) && CanFinish(s, ticket, outcome)
    ensures var next := AfterFinish(s, ticket, outcome);
            WorkersInv(s.requests, next.workers, s.active) && Tracked(next.workers, s.active)
  {
    var next := AfterFinish(s, ticket, outcome);
    assert next.workers.Keys == s.workers.Keys;
    assert |next.workers| == |next.workers.Keys| && |s.workers| == |s.workers.Keys|;
  }

  lemma FinishedAborts(s: State, ticket: nat, outcome: Outcome)
    requires AbortInv(s.requests, s.workers, s.aborted) && CanFinish(s, ticket, outcome)
    ensures AbortInv(s.requests, AfterFinish(s, ticket, outcome).workers, s.aborted)
  {
    forall t | EndsCancelled(AfterFinish(s, ticket, outcome).workers, t) ensures t in s.aborted {
      assert EndsCancelled(s.workers, t);
    }
  }

  lemma FinishSettles(s: State, ticket: nat, outcome: Outcome)
    requires Inv(s) && CanFinish(s, ticket, outcome) && !s.mode.Failed?
    ensures var next := AfterFinish(s, ticket, outcome);
            Settled(next.requests, next.workers, next.responses, next.aborted, |next.requests|)
  {
    var next := AfterFinish(s, ticket, outcome);
    if outcome.Answered? {
      Responded(s.requests, s.responses, ticket, s.workers[ticket].id.value);
    }
    forall t | 0 <= t < |s.requests| && s.requests[t].id.Some?
      ensures HasResponse(next.responses, t) || IsRunning(next.workers, t) || t in s.aborted || IsBroken(next.workers, t)
    {
      assert EndsCancelled(s.workers, ticket) ==> ticket in s.aborted;
      assert HasResponse(s.responses, t) || IsRunning(s.workers, t) || t in s.aborted || IsBroken(s.workers, t);
    }
  }

  lemma JoinKeeps(s: State, ticket: nat)
    requires Inv(s) && (s.mode.Serving? || s.mode.Draining?) && ticket in s.workers && s.workers[ticket].Finished?
    ensures Inv(AfterJoin(s, ticket))
  {
    JoinedWorkers(s, ticket);
    if !IsBroken(s.workers, ticket) {
      JoinSettles(s, ticket);
    }
  }

  lemma JoinedWorkers(s: State, ticket: nat)
    requires WorkersInv(s.requests, s.workers, s.active) && Tracked(s.workers, s.active)
    requires ticket in s.workers && s.workers[ticket].Finished?
    ensures var next := AfterJoin(s, ticket);
            WorkersInv(s.requests, next.workers, next.active) && Tracked(next.workers, next.active)
  {
    OneWorkerLess(s.workers, ticket);
  }

  lemma OneWorkerLess(workers: map<nat, Worker>, ticket: nat)
    requires ticket in workers
    ensures |workers - {ticket}| == |workers| - 1
  {
    var next := workers - {ticket};
    assert next.Keys == workers.Keys - {ticket};
    assert |next| == |next.Keys| && |workers| == |workers.Keys|;
  }

  lemma JoinSettles(s: State, ticket: nat)
    requires ticket in s.workers && s.workers[ticket].Finished? && !IsBroken(s.workers, ticket)
    requires Settled(s.requests, s.workers, s.responses, s.aborted, |s.requests|)
    ensures Settled(s.requests, s.workers - {ticket}, s.responses, s.aborted, |s.requests|)
  {
    forall t | 0 <= t < |s.requests| && s.requests[t].id.Some?
      ensures var rest := s.workers - {ticket};
              HasResponse(s.responses, t) || IsRunning(rest, t) || t in s.aborted || IsBroken(rest, t)
    {
      assert HasResponse(s.responses, t) || IsRunning(s.workers, t) || t in s.aborted || IsBroken(s.workers, t);
    }
  }

  lemma StepKeeps(s: State, e: Event)
    requires Inv(s) && Enabled(s, e)
    ensures Inv(Next(s, e))
  {
    match e
    case Receive(request, sent) => ReceiveKeeps(s, request, sent);
    case Closed =>
    case InputError =>
    case Finish(ticket, outcome) => FinishKeeps(s, ticket, outcome);
    case Join(ticket) => JoinKeeps(s, ticket);
    case Return =>
  }

  // ---------- Whole runs ----------

  ghost predicate Possible(s: State, events: seq<Event>)
    decreases |events|
  {
    events == [] || (Enabled(s, events[0]) && Possible(Next(s, events[0]), events[1..]))
  }

  function After(s: State, events: seq<Event>): State
    requires Possible(s, events)
    decreases |events|
  {
    if events == [] then s else After(Next(s, events[0]), events[1..])
  }

  lemma {:induction false} RunKeeps(s: State, events: seq<Event>)
    requires Inv(s) && Possible(s, events)
    ensures Inv(After(s, events))
    decreases |events|
  {
    if events != [] {
      StepKeeps(s, events[0]);
      RunKeeps(Next(s, events[0]), events[1..]);
    }
  }

  /** In every run at most four workers exist and no two unfinished ones have one call ID. */
  lemma WorkersBounded(events: seq<Event>, s: State)
    requires Possible(Start, events) && s == After(Start, events)
    ensures |s.workers| <= CONCURRENT_HANDLERS
    ensures forall a, b :: IsRunning(s.workers, a) && IsRunning(s.workers, b) && a != b && s.workers[a].id.Some? ==>
      s.workers[a].id != s.workers[b].id
  {
    RunKeeps(Start, events);
  }

  /** In every run each response bears the ID of the request it answers, and no request is answered
      twice. */
  lemma AnsweredOnce(events: seq<Event>, s: State)
    requires Possible(Start, events) && s == After(Start, events)
    ensures forall i :: 0 <= i < |s.responses| ==>
      s.responses[i].ticket < |s.requests| && s.requests[s.responses[i].ticket].id == Some(s.responses[i].id)
    ensures forall i, j :: 0 <= i < j < |s.responses| ==> s.responses[i].ticket != s.responses[j].ticket
  {
    RunKeeps(Start, events);
  }

  /** When the server returns cleanly every call was answered, unless a later cancel note named its ID
      while its worker was still at work. */
  lemma CleanReturnAnswersAll(events: seq<Event>, s: State, ticket: nat)
    requires Possible(Start, events) && s == After(Start, events) && s.mode.Returned?
    requires ticket < |s.requests| && s.requests[ticket].id.Some?
    ensures HasResponse(s.responses, ticket) || (ticket in s.aborted && exists k :: CancelledBy(s.requests, ticket, k))
  {
    RunKeeps(Start, events);
  }

  /** A cancel note aborts the unfinished worker of the ID it names and touches nothing else. */
  lemma CancelAbortsItsOwn(s: State, target: nat, sent: bool, ticket: nat)
    requires Inv(s) && s.mode.Serving?
    ensures var next := Received(s, Request(None, Cancel(Some(target)), true), sent);
            && next.responses == s.responses && next.active == s.active && next.workers.Keys == s.workers.Keys
            && (ticket in s.workers ==>
                  next.workers[ticket] == if s.workers[ticket].Running? && s.workers[ticket].id == Some(target)
                                          then Running(Some(target), true) else s.workers[ticket])
  {}

  /** Where a call stands on arrival: refused at the limit, refused for its ID, or at work. */
  lemma CallArrives(s: State, id: nat, kind: Method)
    requires Inv(s) && s.mode.Serving? && (kind.Other? || kind.Cancel?)
    ensures var ticket := |s.requests|;
            var next := Received(s, Request(Some(id), kind, true), true);
            if |s.workers| >= CONCURRENT_HANDLERS || id in s.active
            then next.workers == s.workers && HasResponse(next.responses, ticket)
            else next.workers == s.workers[ticket := Running(Some(id), false)] && !HasResponse(next.responses, ticket)
  {
    var ticket := |s.requests|;
    var next := Received(s, Request(Some(id), kind, true), true);
    if |s.workers| >= CONCURRENT_HANDLERS || id in s.active {
      assert next.responses[|s.responses|].ticket == ticket;
    }
  }

  /** What every request leads to, field by field: the server's own answers and what they cost, the workers
      that start or are told to stop, and when the serving ends. */
  lemma ReceiveOutcome(s: State, request: Request, sent: bool)
    requires Inv(s) && s.mode.Serving?
    ensures var next, ticket := Received(s, request, sent), |s.requests|;
      var answers := request.id.Some? && !Spawns(s, request);
      && next.requests == s.requests + [request]
      && next.responses == s.responses + (if answers && sent then [Response(ticket, request.id.value)] else [])
      && (if answers && !sent then next.mode.Failed? else if ShutsDown(s, request, sent) then next.mode.Draining? else next.mode.Serving?)
      && (if Spawns(s, request) then next.workers == s.workers[ticket := Running(request.id, false)]
          else if !Aborts(s, request) then next.workers == s.workers
          else next.workers.Keys == s.workers.Keys)
      && (if Spawns(s, request) && request.id.Some? then ActiveWith(s, next, request.id.value, ticket) else next.active == s.active)
      && (!Aborts(s, request) ==> next.aborted == s.aborted)
  {
    ReceivedCases(s, request, sent);
  }

  /** The ID stands for the ticket; the IDs of unfinished workers stand for what they did, others for nothing. */
  ghost predicate ActiveWith(s: State, next: State, id: nat, ticket: nat) {
    && id in next.active && next.active[id] == ticket
    && forall other :: other != id ==>
         && (other in next.active <==> other in s.active && IsRunning(s.workers, s.active[other]))
         && (other in next.active ==> next.active[other] == s.active[other])
  }

  /** A note without an ID is never answered: it is dropped at the limit, and else it gets a worker that no
      cancel can name. */
  lemma NoteArrives(s: State, sent: bool)
    requires Inv(s) && s.mode.Serving?
    ensures var next := Received(s, Request(None, Other, true), sent);
      && next.responses == s.responses && next.active == s.active && next.mode.Serving?
      && next.workers == if |s.workers| < CONCURRENT_HANDLERS then s.workers[|s.requests| := Running(None, false)] else s.workers
  {}

  /** A worker that finishes answers once if it answers, and keeps its place until it is joined. */
  lemma FinishOutcome(s: State, ticket: nat, outcome: Outcome)
    requires Inv(s) && Enabled(s, Finish(ticket, outcome))
    ensures var next := Next(s, Finish(ticket, outcome));
      && next.workers == s.workers[ticket := Finished(s.requests[ticket].id, outcome)]
      && next.active == s.active && next.aborted == s.aborted && next.mode == s.mode && next.requests == s.requests
      && (if outcome.Answered? then
            s.requests[ticket].id.Some? && next.responses == s.responses + [Response(ticket, s.requests[ticket].id.value)]
          else next.responses == s.responses)
  {}

  /** Joining takes out the one worker, and the serving goes on unless that worker broke. */
  lemma JoinOutcome(s: State, ticket: nat)
    requires Inv(s) && Enabled(s, Join(ticket))
    ensures var next := Next(s, Join(ticket));
      && next.workers.Keys == s.workers.Keys - {ticket} && (forall t :: t in next.workers ==> next.workers[t] == s.workers[t])
      && next.responses == s.responses && next.aborted == s.aborted && next.requests == s.requests
      && next.mode == (if s.workers[ticket].outcome.Broken? then Failed else s.mode)
      && (forall id :: id in next.active ==> id in s.active && next.active[id] == s.active[id])
      && (forall id :: id in s.active && IsRunning(s.workers, s.active[id]) ==> id in next.active)
      && (next.mode.Serving? ==> forall id :: id in next.active ==> IsRunning(next.workers, next.active[id]))
  {}

  /** A worker at work can break at any time; it answers if it serves a call, is silent if it serves a note, and
      ends cancelled only if it was told to. */
  lemma WorkerEnds(s: State, ticket: nat)
    requires !s.mode.Returned? && IsRunning(s.workers, ticket)
    ensures Enabled(s, Finish(ticket, Broken))
    ensures Enabled(s, Finish(ticket, if s.workers[ticket].id.Some? then Answered else Silent))
    ensures Enabled(s, Finish(ticket, Cancelled)) <==> s.workers[ticket].aborted
  {}

  /** The end of the input lets the workers finish, an error does not, and the server returns when none is left. */
  lemma EndOutcome(s: State)
    requires s.mode.Serving?
    ensures Next(s, Closed) == s.(mode := Draining) && Next(s, InputError) == s.(mode := Failed)
    ensures s.workers == map[] ==> Enabled(Next(s, Closed), Return) && Next(Next(s, Closed), Return).mode.Returned?
    ensures forall t, outcome :: CanFinish(s, t, outcome) ==> Enabled(Next(s, Closed), Finish(t, outcome))
  {}

  /** A server whose input has ended can always come to a clean end: every worker at work finishes, every
      finished one is joined, and then it returns. */
  lemma {:induction false} CanReturn(s: State) returns (events: seq<Event>)
    requires Inv(s) && s.mode.Draining? && forall t :: !IsBroken(s.workers, t)
    ensures Possible(s, events) && After(s, events).mode.Returned?
    decreases |s.workers|, 1
  {
    if s.workers == map[] {
      events := [Return];
      assert events[1..] == [];
    } else {
      var t :| t in s.workers;
      if s.workers[t].Running? {
        var outcome := if s.workers[t].id.Some? then Answered else Silent;
        FinishedWell(s, t, outcome);
        assert Next(s, Finish(t, outcome)) == AfterFinish(s, t, outcome);
        var rest := JoinAndReturn(Next(s, Finish(t, outcome)), t);
        events := [Finish(t, outcome)] + rest;
        assert events[1..] == rest;
      } else {
        events := JoinAndReturn(s, t);
      }
    }
  }

  lemma FinishedWell(s: State, ticket: nat, outcome: Outcome)
    requires Inv(s) && s.mode.Draining? && CanFinish(s, ticket, outcome) && !outcome.Broken? && forall t :: !IsBroken(s.workers, t)
    ensures var next := AfterFinish(s, ticket, outcome);
      && Inv(next) && next.mode.Draining? && ticket in next.workers && next.workers[ticket].Finished?
      && |next.workers| == |s.workers| && forall t :: !IsBroken(next.workers, t)
  {
    FinishKeeps(s, ticket, outcome);
    FinishedInPlace(s.workers, ticket, AfterFinish(s, ticket, outcome).workers);
  }

  lemma FinishedInPlace(workers: map<nat, Worker>, ticket: nat, next: map<nat, Worker>)
    requires ticket in workers && ticket in next && next == workers[ticket := next[ticket]]
    requires next[ticket].Finished? && !next[ticket].outcome.Broken? && forall t :: !IsBroken(workers, t)
    ensures |next| == |workers| && forall t :: !IsBroken(next, t)
  {
    assert next.Keys == workers.Keys;
    assert |next| == |next.Keys| && |workers| == |workers.Keys|;
    forall t ensures !IsBroken(next, t) {
      assert !IsBroken(workers, t);
    }
  }

  lemma {:induction false} JoinAndReturn(s: State, ticket: nat) returns (events: seq<Event>)
    requires Inv(s) && s.mode.Draining? && ticket in s.workers && s.workers[ticket].Finished? && forall t :: !IsBroken(s.workers, t)
    ensures Possible(s, events) && After(s, events).mode.Returned?
    decreases |s.workers|, 0
  {
    assert !IsBroken(s.workers, ticket);
    JoinKeeps(s, ticket);
    OneWorkerLess(s.workers, ticket);
    var joined := Next(s, Join(ticket));
    forall t ensures !IsBroken(joined.workers, t) {
      assert !IsBroken(s.workers, t);
    }
    var rest := CanReturn(joined);
    events := [Join(ticket)] + rest;
    assert events[1..] == rest;
  }

  // ---------- The program ----------

  class Server {
    ghost var requests: seq<Request>
    var workers: map<nat, Worker>
    var active: map<nat, nat>
    var responses: seq<Response>
    ghost var aborted: set<nat>
    var mode: Mode
    var next: nat

    ghost function Model(): State
      reads this
    {
      State(requests, workers, active, responses, aborted, mode)
    }

    ghost predicate Valid()
      reads this
    {
      Inv(Model()) && next == |requests|
    }

    constructor ()
      ensures Valid() && Model() == Start
    {
      requests, workers, active, responses, aborted, mode, next := [], map[], map[], [], {}, Serving, 0;
    }

    method Write(ticket: nat, id: Option<nat>, sent: bool)
      modifies this`responses, this`mode
      ensures Model() == Answer(old(Model()), ticket, id, sent)
    {
      if id.Some? {
        if sent {
          responses := responses + [Response(ticket, id.value)];
        } else {
          mode := Failed;
        }
      }
    }

    /** Drops the entries of workers that have finished. */
    method Retain()
      modifies this`active
      ensures active == Unfinished(old(active), workers)
    {
      var left := active.Keys;
      while left != {}
        invariant left <= active.Keys <= old(active).Keys
        invariant forall id :: id in active ==> active[id] == old(active)[id]
        invariant forall id :: id in old(active) && id !in left ==> (id in active <==> IsRunning(workers, old(active)[id]))
      {
        var id :| id in left;
        if !(active[id] in workers && workers[active[id]].Running?) {
          active := active - {id};
        }
        left := left - {id};
      }
    }

    method Receive(request: Request, sent: bool)
      requires Valid() && mode.Serving?
      modifies this
      ensures Valid() && Model() == Received(old(Model()), request, sent)
    {
      ReceiveKeeps(Model(), request, sent);
      Handle(request, sent);
    }

    method Handle(request: Request, sent: bool)
      requires next == |requests| && next !in workers && mode.Serving?
      modifies this
      ensures Model() == Received(old(Model()), request, sent) && next == |requests|
    {
      var ticket := next;
      var id := request.id;
      requests := requests + [request];
      next := next + 1;
      if !request.valid {
        Write(ticket, id, sent);
        return;
      }
      if id.None? && request.kind.Cancel? {
        if request.kind.target.Some? && request.kind.target.value in active {
          AbortWorker(active[request.kind.target.value]);
        }
        return;
      }
      if |workers| >= CONCURRENT_HANDLERS && !(request.kind.Hello? || request.kind.Ping? || request.kind.Shutdown?) {
        Write(ticket, id, sent);
        return;
      }
      if id.Some? && id.value in active {
        Write(ticket, id, sent);
        return;
      }
      match request.kind {
        case Hello => Write(ticket, id, sent);
        case Ping => Write(ticket, id, sent);
        case Shutdown =>
          Write(ticket, id, sent);
          if mode.Serving? { mode := Draining; }
        case _ =>
          SpawnWorker(ticket, id);
      }
    }

    method SpawnWorker(ticket: nat, id: Option<nat>)
      requires ticket !in workers
      modifies this`workers, this`active
      ensures Model() == Spawn(old(Model()), ticket, id)
    {
      if id.Some? {
        Retain();
        active := active[id.value := ticket];
      }
      workers := workers[ticket := Running(id, false)];
    }

    method AbortWorker(ticket: nat)
      modifies this`workers, this`aborted
      ensures Model() == Abort(old(Model()), ticket)
    {
      if ticket in workers && workers[ticket].Running? {
        workers := workers[ticket := workers[ticket].(aborted := true)];
        aborted := aborted + {ticket};
      }
    }

    method Complete(ticket: nat, outcome: Outcome)
      requires Valid() && !mode.Returned? && CanFinish(Model(), ticket, outcome)
      modifies this
      ensures Valid() && Model() == AfterFinish(old(Model()), ticket, outcome)
    {
      FinishKeeps(Model(), ticket, outcome);
      Settle(ticket, outcome);
    }

    method Settle(ticket: nat, outcome: Outcome)
      requires CanFinish(Model(), ticket, outcome)
      modifies this`workers, this`responses
      ensures Model() == AfterFinish(old(Model()), ticket, outcome)
    {
      var id := workers[ticket].id;
      if outcome.Answered? {
        responses := responses + [Response(ticket, id.value)];
      }
      workers := workers[ticket := Finished(id, outcome)];
    }

    method JoinNext(ticket: nat)
      requires Valid() && (mode.Serving? || mode.Draining?) && ticket in workers && workers[ticket].Finished?
      modifies this
      ensures Valid() && Model() == AfterJoin(old(Model()), ticket)
    {
      JoinKeeps(Model(), ticket);
      TakeResult(ticket);
    }

    method TakeResult(ticket: nat)
      requires ticket in workers && workers[ticket].Finished?
      modifies this`workers, this`active, this`mode
      ensures Model() == AfterJoin(old(Model()), ticket)
    {
      var outcome := workers[ticket].outcome;
      workers := workers - {ticket};
      if outcome.Broken? {
        mode := Failed;
      } else if mode.Serving? {
        Retain();
      }
    }
  }
}
