/** Ownership, queues and deliveries over runs of the session store. */
module StoreRuns {
  import opened Wrappers
  import opened Messages
  import opened StoreModel
  import opened StoreInvariants
  import Events = ChannelEvents

  // ---------- Who owns a reservation ----------

  ghost predicate Owns(s: State, id: string, owner: string) {
    id in s.sessions && s.sessions[id].reservationOwner == Some(owner)
  }

  /** An owner after a step owned the session before, or this step reserved the free session for it. */
  lemma OwnerOrigin(s: State, op: Op, now: nat, id: string, owner: string)
    requires Inv(s) && Step(s, op, now).Change? && Owns(Step(s, op, now).state, id, owner)
    ensures Owns(s, id, owner) || (op == Reserve(id, owner) && id in s.sessions && s.sessions[id].reservationOwner.None?)
  {
    if IsCatalogOp(op) {
      CatalogOwners(s, op, now, id, owner);
    } else if IsDeliveryOp(op) || IsEventOp(op) {
      OutsideOwners(s, op, now, id, owner);
    } else {
      AddressedOwners(s, op, now, id, owner);
    }
  }

  lemma OutsideOwners(s: State, op: Op, now: nat, id: string, owner: string)
    requires IsDeliveryOp(op) || IsEventOp(op)
    requires Step(s, op, now).Change? && Owns(Step(s, op, now).state, id, owner)
    ensures Owns(s, id, owner)
  {
    if IsDeliveryOp(op) {
      DeliveryKeepsSessions(s, op, now);
    } else {
      EventsKeepSessions(s, op, now);
    }
  }

  lemma AddressedOwners(s: State, op: Op, now: nat, id: string, owner: string)
    requires IsSessionOp(op) || IsTurnOp(op)
    requires Inv(s) && Step(s, op, now).Change? && Owns(Step(s, op, now).state, id, owner)
    ensures Owns(s, id, owner) || (op == Reserve(id, owner) && id in s.sessions && s.sessions[id].reservationOwner.None?)
  {
    if op.id == id {
      SessionOwners(s, op, now, owner);
    } else {
      OneSessionChanges(s, op, now, id);
    }
  }

  lemma DeliveryKeepsSessions(s: State, op: Op, now: nat)
    requires IsDeliveryOp(op) && DeliveryStep(s, op, now).Change?
    ensures DeliveryStep(s, op, now).state.sessions == s.sessions && DeliveryStep(s, op, now).state.events == s.events
  {}

  lemma EventsKeepSessions(s: State, op: Op, now: nat)
    requires IsEventOp(op) && EventStep(s, op, now).Change?
    ensures EventStep(s, op, now).state.sessions == s.sessions && EventStep(s, op, now).state.outbox == s.outbox
  {}

  lemma OneSessionChanges(s: State, op: Op, now: nat, id: string)
    requires IsSessionOp(op) || IsTurnOp(op)
    requires Step(s, op, now).Change? && op.id != id
    ensures var next := Step(s, op, now).state;
            (id in next.sessions <==> id in s.sessions) && (id in s.sessions ==> next.sessions[id] == s.sessions[id])
  {
    if IsTurnOp(op) {
      OneTurnChanges(s, op, now, id);
    } else {
      OneChanges(s, op, now, id);
    }
  }

  lemma OneTurnChanges(s: State, op: Op, now: nat, id: string)
    requires IsTurnOp(op) && TurnStep(s, op, now).Change? && op.id != id
    ensures var next := TurnStep(s, op, now).state;
            (id in next.sessions <==> id in s.sessions) && (id in s.sessions ==> next.sessions[id] == s.sessions[id])
  {}

  lemma OneChanges(s: State, op: Op, now: nat, id: string)
    requires IsSessionOp(op) && SessionStep(s, op, now).Change? && op.id != id
    ensures var next := SessionStep(s, op, now).state;
            (id in next.sessions <==> id in s.sessions) && (id in s.sessions ==> next.sessions[id] == s.sessions[id])
  {}

  lemma CatalogOwners(s: State, op: Op, now: nat, id: string, owner: string)
    requires IsCatalogOp(op)
    requires Inv(s) && CatalogStep(s, op, now).Change? && Owns(CatalogStep(s, op, now).state, id, owner)
    ensures Owns(s, id, owner)
  {
    if op.Rename? {
      assert SessionInv(op.source, s.sessions[op.source]);
    }
  }

  lemma SessionOwners(s: State, op: Op, now: nat, owner: string)
    requires IsSessionOp(op) || IsTurnOp(op)
    requires Inv(s) && Step(s, op, now).Change? && Owns(Step(s, op, now).state, op.id, owner)
    ensures op.id in s.sessions
    ensures Owns(s, op.id, owner) || (op == Reserve(op.id, owner) && s.sessions[op.id].reservationOwner.None?)
  {
    if IsTurnOp(op) {
      TurnOwners(s, op, now, owner);
    } else {
      OtherOwners(s, op, now, owner);
    }
  }

  lemma TurnOwners(s: State, op: Op, now: nat, owner: string)
    requires IsTurnOp(op) && TurnStep(s, op, now).Change? && Owns(TurnStep(s, op, now).state, op.id, owner)
    ensures Owns(s, op.id, owner)
  {}

  lemma OtherOwners(s: State, op: Op, now: nat, owner: string)
    requires IsSessionOp(op) && Inv(s) && SessionStep(s, op, now).Change? && Owns(SessionStep(s, op, now).state, op.id, owner)
    ensures op.id in s.sessions
    ensures Owns(s, op.id, owner) || (op == Reserve(op.id, owner) && s.sessions[op.id].reservationOwner.None?)
  {
    assert op.id in s.sessions;
    assert SessionInv(op.id, s.sessions[op.id]);
  }

  /** No step replaces one owner by another. */
  lemma OwnerNotReplaced(s: State, op: Op, now: nat, id: string, before: string, after: string)
    requires Inv(s) && Step(s, op, now).Change?
    requires Owns(s, id, before) && Owns(Step(s, op, now).state, id, after)
    ensures before == after
  {
    OwnerOrigin(s, op, now, id, after);
  }

  /** A turn begins only where nothing is in flight and no reservation is alive, and then neither
      the old reservation nor its owner is left. */
  lemma BeginNeedsFreeSession(s: State, id: string, message: Message, roles: seq<string>, deferred: Option<(string, string)>, now: nat)
    requires Inv(s) && Step(s, Begin(id, message, roles, deferred), now).Change?
    ensures !HasLiveReservation(s.sessions[id], now) && s.sessions[id].inflight.None?
    ensures var next := Step(s, Begin(id, message, roles, deferred), now).state.sessions[id];
            next.inflight == Some(message) && next.reservationOwner.None? && !Contains(next.queued, message.id)
  {
    var session := s.sessions[id];
    assert SessionInv(id, session);
    IndexOfContains(session.queued, message.id);
  }

  predicate ChecksOwner(op: Op, owner: string) {
    || (op.AppendReserved? && op.owner == owner)
    || (op.SetContextReserved? && op.owner == owner)
    || (op.Renew? && op.owner == owner)
  }

  predicate Reserves(op: Op, owner: string) {
    op.Reserve? && op.owner == owner
  }

  /** An owner-checked call by somebody who owns nothing is refused and changes nothing. */
  lemma StrangerRefused(s: State, call: Call, owner: string)
    requires ChecksOwner(call.op, owner) && forall id :: !Owns(s, id, owner)
    ensures Apply(s, call.op, call.now, call.saved).0 == s
    ensures Apply(s, call.op, call.now, call.saved).1.Err?
  {
    var id := call.op.id;
    assert !Owns(s, id, owner);
  }

  lemma StrangerStays(s: State, call: Call, owner: string)
    requires Inv(s) && !Reserves(call.op, owner) && forall id :: !Owns(s, id, owner)
    ensures forall id :: !Owns(Apply(s, call.op, call.now, call.saved).0, id, owner)
  {
    var next := Apply(s, call.op, call.now, call.saved).0;
    forall id ensures !Owns(next, id, owner) {
      if Owns(next, id, owner) && next != s {
        OwnerOrigin(s, call.op, call.now, id, owner);
      }
    }
  }

  lemma {:induction false} RunSplits(s: State, calls: seq<Call>, i: nat)
    requires i <= |calls|
    ensures Run(s, calls) == Run(Run(s, calls[..i]), calls[i..])
    decreases |calls|
  {
    if i == 0 {
      assert calls[..0] == [] && calls[0..] == calls;
    } else {
      var next := Apply(s, calls[0].op, calls[0].now, calls[0].saved).0;
      RunSplits(next, calls[1..], i - 1);
      assert calls[..i][1..] == calls[1..][..i - 1] && calls[i..] == calls[1..][i - 1..];
    }
  }

  lemma {:induction false} StrangerThroughout(s: State, calls: seq<Call>, owner: string)
    requires Inv(s) && (forall id :: !Owns(s, id, owner))
    requires forall i :: 0 <= i < |calls| ==> !Reserves(calls[i].op, owner)
    ensures forall id :: !Owns(Run(s, calls), id, owner)
    decreases |calls|
  {
    if calls != [] {
      var call := calls[0];
      StrangerStays(s, call, owner);
      if Step(s, call.op, call.now).Change? { StepKeeps(s, call.op, call.now); }
      StrangerThroughout(Apply(s, call.op, call.now, call.saved).0, calls[1..], owner);
    }
  }

  /** Owners after a call owned the session before, or the call reserved it for them. */
  ghost predicate OwnersFrom(s: State, call: Call, next: State) {
    forall id, owner :: Owns(next, id, owner) ==> Owns(s, id, owner) || call.op == Reserve(id, owner)
  }

  lemma OneCall(s: State, call: Call, next: State)
    requires Inv(s) && next == Apply(s, call.op, call.now, call.saved).0
    ensures Inv(next) && OwnersFrom(s, call, next)
  {
    if next != s {
      StepKeeps(s, call.op, call.now);
      forall id, owner | Owns(next, id, owner) ensures Owns(s, id, owner) || call.op == Reserve(id, owner) {
        OwnerOrigin(s, call.op, call.now, id, owner);
      }
    }
  }

  /** The states a run passes through. */
  lemma {:induction false} RunStates(s: State, calls: seq<Call>) returns (states: seq<State>)
    requires Inv(s)
    ensures |states| == |calls| + 1 && states[0] == s && states[|calls|] == Run(s, calls)
    ensures forall i :: 0 <= i < |calls| ==> OwnersFrom(states[i], calls[i], states[i + 1])
    decreases |calls|
  {
    if calls == [] {
      states := [s];
    } else {
      var next := Apply(s, calls[0].op, calls[0].now, calls[0].saved).0;
      OneCall(s, calls[0], next);
      var rest := RunStates(next, calls[1..]);
      states := [s] + rest;
      OneMoreState(s, rest, calls);
    }
  }

  lemma OneMoreState(s: State, rest: seq<State>, calls: seq<Call>)
    requires calls != [] && |rest| == |calls| && OwnersFrom(s, calls[0], rest[0])
    requires forall i :: 0 <= i < |calls| - 1 ==> OwnersFrom(rest[i], calls[1..][i], rest[i + 1])
    ensures var states := [s] + rest; forall i :: 0 <= i < |calls| ==> OwnersFrom(states[i], calls[i], states[i + 1])
  {
    var states := [s] + rest;
    forall i | 0 <= i < |calls| ensures OwnersFrom(states[i], calls[i], states[i + 1]) {
      if i > 0 { assert OwnersFrom(rest[i - 1], calls[1..][i - 1], rest[i]); }
    }
  }

  /** Every owner got its reservation from a call for that very session. */
  lemma OwnerReserved(s: State, calls: seq<Call>, id: string, owner: string) returns (k: int)
    requires Inv(s) && Owns(Run(s, calls), id, owner)
    ensures -1 <= k < |calls|
    ensures k >= 0 ==> calls[k].op == Reserve(id, owner)
    ensures k == -1 ==> Owns(s, id, owner)
  {
    var states := RunStates(s, calls);
    k := ReservedWithin(states, calls, |calls|, id, owner);
  }

  lemma {:induction false} ReservedWithin(states: seq<State>, calls: seq<Call>, n: nat, id: string, owner: string) returns (k: int)
    requires n < |states| == |calls| + 1 && Owns(states[n], id, owner)
    requires forall i :: 0 <= i < |calls| ==> OwnersFrom(states[i], calls[i], states[i + 1])
    ensures -1 <= k < n
    ensures k >= 0 ==> calls[k].op == Reserve(id, owner)
    ensures k == -1 ==> Owns(states[0], id, owner)
  {
    if n == 0 {
      k := -1;
    } else {
      assert OwnersFrom(states[n - 1], calls[n - 1], states[n]);
      if calls[n - 1].op == Reserve(id, owner) {
        k := n - 1;
      } else {
        k := ReservedWithin(states, calls, n - 1, id, owner);
      }
    }
  }

  /** Every reservation uses a token of its own. */
  ghost predicate FreshTokens(calls: seq<Call>) {
    forall i, j :: 0 <= i < j < |calls| && calls[i].op.Reserve? && calls[j].op.Reserve? ==>
      calls[i].op.owner != calls[j].op.owner
  }

  ghost function StateAfter(calls: seq<Call>, n: nat): State
    requires n <= |calls|
  {
    Run(EmptyState, calls[..n])
  }

  lemma OwnerFromReserve(calls: seq<Call>, n: nat, id: string, owner: string) returns (k: nat)
    requires n <= |calls| && Owns(StateAfter(calls, n), id, owner)
    ensures k < n && calls[k].op == Reserve(id, owner)
  {
    RunKeeps([]);
    k := OwnerReserved(EmptyState, calls[..n], id, owner);
  }

  /** With fresh tokens a token never owns two sessions, not even at different times. */
  lemma OneSessionPerToken(calls: seq<Call>, m: nat, n: nat, id: string, other: string, owner: string)
    requires m <= |calls| && n <= |calls| && FreshTokens(calls)
    requires Owns(StateAfter(calls, m), id, owner) && Owns(StateAfter(calls, n), other, owner)
    ensures id == other
  {
    var j := OwnerFromReserve(calls, m, id, owner);
    var k := OwnerFromReserve(calls, n, other, owner);
    assert calls[j].op == Reserve(id, owner) && calls[k].op == Reserve(other, owner);
  }

  /** A superseded owner stays out. Over every run from the empty store with fresh tokens: once an
      owner has lost its session, all its owner-checked calls fail and change nothing. */
  lemma SupersededOwnerFails(calls: seq<Call>, id: string, owner: string, held: nat, lost: nat, later: nat)
    requires held <= lost <= later < |calls| && FreshTokens(calls)
    requires Owns(StateAfter(calls, held), id, owner) && !Owns(StateAfter(calls, lost), id, owner)
    requires ChecksOwner(calls[later].op, owner)
    ensures Apply(StateAfter(calls, later), calls[later].op, calls[later].now, calls[later].saved).1.Err?
    ensures StateAfter(calls, later + 1) == StateAfter(calls, later)
  {
    RunKeeps([]);
    forall other ensures !Owns(StateAfter(calls, lost), other, owner) {
      if Owns(StateAfter(calls, lost), other, owner) {
        OneSessionPerToken(calls, held, lost, id, other, owner);
      }
    }
    var k := OwnerFromReserve(calls, held, id, owner);
    var between := calls[lost..later];
    forall i | 0 <= i < |between| ensures !Reserves(between[i].op, owner) {
      assert between[i] == calls[lost + i];
    }
    RunKeeps(calls[..lost]);
    StrangerThroughout(StateAfter(calls, lost), between, owner);
    RunSplits(EmptyState, calls[..later], lost);
    assert calls[..later][..lost] == calls[..lost] && calls[..later][lost..] == between;
    StrangerRefused(StateAfter(calls, later), calls[later], owner);
    LastCall(calls, later);
  }

  lemma LastCall(calls: seq<Call>, n: nat)
    requires n < |calls|
    ensures StateAfter(calls, n + 1) == Apply(StateAfter(calls, n), calls[n].op, calls[n].now, calls[n].saved).0
  {
    RunSplits(EmptyState, calls[..n + 1], n);
    assert calls[..n + 1][..n] == calls[..n] && calls[..n + 1][n..] == [calls[n]];
    var s := StateAfter(calls, n);
    var next := Apply(s, calls[n].op, calls[n].now, calls[n].saved).0;
    assert [calls[n]][1..] == [];
    assert Run(s, [calls[n]]) == Run(next, []);
  }

  // ---------- What happens to a queue ----------

  /** One message, the begun one, is gone; the others keep their order. */
  ghost predicate OneRemoved(before: seq<Message>, after: seq<Message>, id: string) {
    exists i :: 0 <= i < |before| && before[i].id == id && after == before[..i] + before[i + 1..]
  }

  /** A queue changes only by appending, by the removal of a begun message, or by being cleared on
      cancellation. */
  lemma QueueChanges(s: State, op: Op, now: nat, id: string)
    requires Step(s, op, now).Change? && id in s.sessions && id in Step(s, op, now).state.sessions
    ensures QueueStepChanges(op, id, s.sessions[id].queued, Step(s, op, now).state.sessions[id].queued)
  {
    if op.Queue? || op.Begin? || op.Clear? {
      if op.id == id { TurnChangesQueue(s, op, now); }
    } else if op.SetStatus? {
      if op.id == id { StatusChangesQueue(s, op, now); }
    } else if IsTurnOp(op) {
      TurnLeavesQueue(s, op, now, id);
    } else if IsCatalogOp(op) {
      CatalogLeavesQueue(s, op, now, id);
    } else if IsSessionOp(op) {
      SessionLeavesQueue(s, op, now, id);
    } else if IsDeliveryOp(op) {
      DeliveryKeepsSessions(s, op, now);
    } else {
      EventsKeepSessions(s, op, now);
    }
  }

  ghost predicate QueueStepChanges(op: Op, id: string, before: seq<Message>, after: seq<Message>) {
    || after == before
    || (op.Queue? && op.id == id && after == before + [op.message] && !Contains(before, op.message.id))
    || (op.Begin? && op.id == id && OneRemoved(before, after, op.message.id))
    || ((op.Clear? || op.SetStatus?) && op.id == id && op.status == CANCELLED && after == [])
  }

  lemma TurnChangesQueue(s: State, op: Op, now: nat)
    requires (op.Queue? || op.Begin? || op.Clear?) && TurnStep(s, op, now).Change?
    ensures op.id in s.sessions && op.id in TurnStep(s, op, now).state.sessions
    ensures QueueStepChanges(op, op.id, s.sessions[op.id].queued, TurnStep(s, op, now).state.sessions[op.id].queued)
  {
    if op.Begin? { BegunRemovesOne(s.sessions[op.id].queued, op.message.id); }
  }

  lemma BegunRemovesOne(queued: seq<Message>, id: string)
    ensures WithoutFirst(queued, id) == queued || OneRemoved(queued, WithoutFirst(queued, id), id)
  {
    var i := IndexOf(queued, id);
    if i < |queued| {
      assert OneRemoved(queued, queued[..i] + queued[i + 1..], id);
    }
  }

  lemma StatusChangesQueue(s: State, op: Op, now: nat)
    requires op.SetStatus? && SessionStep(s, op, now).Change?
    ensures op.id in s.sessions && op.id in SessionStep(s, op, now).state.sessions
    ensures QueueStepChanges(op, op.id, s.sessions[op.id].queued, SessionStep(s, op, now).state.sessions[op.id].queued)
  {}

  lemma TurnLeavesQueue(s: State, op: Op, now: nat, id: string)
    requires (op.Reply? || op.StartStream?) && TurnStep(s, op, now).Change?
    requires id in s.sessions && id in TurnStep(s, op, now).state.sessions
    ensures TurnStep(s, op, now).state.sessions[id].queued == s.sessions[id].queued
  {}

  lemma SessionLeavesQueue(s: State, op: Op, now: nat, id: string)
    requires IsSessionOp(op) && !op.SetStatus? && SessionStep(s, op, now).Change?
    requires id in s.sessions && id in SessionStep(s, op, now).state.sessions
    ensures SessionStep(s, op, now).state.sessions[id].queued == s.sessions[id].queued
  {}

  lemma CatalogLeavesQueue(s: State, op: Op, now: nat, id: string)
    requires IsCatalogOp(op) && CatalogStep(s, op, now).Change?
    requires id in s.sessions && id in CatalogStep(s, op, now).state.sessions
    ensures CatalogStep(s, op, now).state.sessions[id].queued == s.sessions[id].queued
  {}

  /** Renaming moves the queue along, message for message. */
  lemma QueueMovesWithRename(s: State, source: string, target: string, now: nat)
    requires Inv(s) && Step(s, Rename(source, target), now).Change?
    ensures var next := Step(s, Rename(source, target), now).state;
            && source !in next.sessions && target in next.sessions
            && |next.sessions[target].queued| == |s.sessions[source].queued|
            && (forall i :: 0 <= i < |s.sessions[source].queued| ==>
                  next.sessions[target].queued[i] == s.sessions[source].queued[i].(session := target))
            && next.sessions[target].queueRoles == s.sessions[source].queueRoles
            && next.sessions.Keys == s.sessions.Keys - {source} + {target}
  {}

  // ---------- How a delivery becomes pending ----------

  ghost predicate BecamePending(s: State, op: Op, d: Delivery) {
    || (op.QueueDelivery? && op.delivery == d.id && !HasDelivery(s.outbox, d.id))
    || (op.Reply? && op.delivery == d.id && !HasDelivery(s.outbox, d.id))
    || (op.RetryDelivery? && op.delivery == d.id && HasDelivery(s.outbox, d.id)
        && FindDelivery(s.outbox, d.id).status == Uncertain)
    || (op.Reply? && op.delivery == d.id && HasDelivery(s.outbox, d.id)
        && op.id in s.sessions && s.sessions[op.id].streamDelivery == Some(d.id)
        && FindDelivery(s.outbox, d.id).status in {Pending, Streaming})
  }

  /** All that a step can do to the outbox: leave it, update one delivery in place, append a new
      one, remove the acknowledged or dead one, or purge it; and `d` is the delivery it concerns. */
  ghost predicate OutboxMove(s: State, op: Op, next: seq<Delivery>, d: Delivery) {
    || next == s.outbox
    || (HasDelivery(s.outbox, d.id) && next == Updated(s.outbox, d) && (d.status == Pending ==> BecamePending(s, op, d)))
    || (!HasDelivery(s.outbox, d.id) && next == s.outbox + [d] && (d.status == Pending ==> BecamePending(s, op, d)))
    || ((op == Ack(d.id) || op == Dead(d.id)) && HasDelivery(s.outbox, d.id) && next == Delivered(s.outbox, d.id))
    || (op.Purge? && op.deliveries && next == [])
  }

  lemma OutboxMoves(s: State, op: Op, now: nat) returns (d: Delivery)
    requires Step(s, op, now).Change?
    ensures OutboxMove(s, op, Step(s, op, now).state.outbox, d)
  {
    d := NewDelivery("", Route("", "", true, None), "", Sending, now);
    if IsMarkOp(op) {
      d := MarkMoves(s, op, now);
    } else if IsDeliveryOp(op) {
      d := DeliveryMoves(s, op, now);
    } else if op.Clear? {
      d := ClearMoves(s, op, now);
    } else if op.Reply? {
      d := ReplyMoves(s, op, now);
    } else if op.StartStream? {
      d := StreamMoves(s, op, now);
    } else {
      OthersKeepOutbox(s, op, now);
    }
  }

  lemma OthersKeepOutbox(s: State, op: Op, now: nat)
    requires Step(s, op, now).Change? && !IsDeliveryOp(op) && !op.Clear? && !op.Reply? && !op.StartStream?
    ensures Step(s, op, now).state.outbox == s.outbox || (op.Purge? && op.deliveries && Step(s, op, now).state.outbox == [])
  {
    if IsCatalogOp(op) {
      CatalogKeepsOutbox(s, op, now);
    } else if IsSessionOp(op) {
      SessionKeepsOutbox(s, op, now);
    } else if IsEventOp(op) {
      EventsKeepSessions(s, op, now);
    }
  }

  lemma CatalogKeepsOutbox(s: State, op: Op, now: nat)
    requires IsCatalogOp(op) && CatalogStep(s, op, now).Change?
    ensures var next := CatalogStep(s, op, now).state;
            next.events == s.events && (next.outbox == s.outbox || (op.Purge? && op.deliveries && next.outbox == []))
  {}

  lemma SessionKeepsOutbox(s: State, op: Op, now: nat)
    requires IsSessionOp(op) && SessionStep(s, op, now).Change?
    ensures SessionStep(s, op, now).state.outbox == s.outbox && SessionStep(s, op, now).state.events == s.events
  {}

  lemma MarkMoves(s: State, op: Op, now: nat) returns (d: Delivery)
    requires IsMarkOp(op) && DeliveryStep(s, op, now).Change?
    ensures OutboxMove(s, op, DeliveryStep(s, op, now).state.outbox, d)
  {
    d := DeliveryStep(s, op, now).state.outbox[DeliveryIndex(s.outbox, op.delivery)];
  }

  lemma DeliveryMoves(s: State, op: Op, now: nat) returns (d: Delivery)
    requires IsDeliveryOp(op) && !IsMarkOp(op) && DeliveryStep(s, op, now).Change?
    ensures OutboxMove(s, op, DeliveryStep(s, op, now).state.outbox, d)
  {
    if op.QueueDelivery? {
      d := NewDelivery(op.delivery, op.route, op.text, Pending, now);
    } else {
      d := FindDelivery(s.outbox, op.delivery);
    }
  }

  lemma ClearMoves(s: State, op: Op, now: nat) returns (d: Delivery)
    requires op.Clear? && TurnStep(s, op, now).Change?
    ensures OutboxMove(s, op, TurnStep(s, op, now).state.outbox, d)
  {
    var next := TurnStep(s, op, now).state.outbox;
    d := NewDelivery("", Route("", "", true, None), "", Sending, now);
    if next != s.outbox {
      d := next[DeliveryIndex(s.outbox, s.sessions[op.id].streamDelivery.value)];
    }
  }

  lemma StreamMoves(s: State, op: Op, now: nat) returns (d: Delivery)
    requires op.StartStream? && TurnStep(s, op, now).Change?
    ensures OutboxMove(s, op, TurnStep(s, op, now).state.outbox, d)
  {
    d := TurnStep(s, op, now).state.outbox[|s.outbox|];
  }

  lemma ReplyMoves(s: State, op: Op, now: nat) returns (d: Delivery)
    requires op.Reply? && TurnStep(s, op, now).Change?
    ensures OutboxMove(s, op, TurnStep(s, op, now).state.outbox, d)
  {
    var session := s.sessions[op.id];
    var route := Route(op.channel, op.chat, session.isPrivate, op.thread);
    if !HasDelivery(s.outbox, op.delivery) {
      d := NewDelivery(op.delivery, route, op.text, Pending, now);
    } else {
      d := CompletedStream(FindDelivery(s.outbox, op.delivery), route, op.text, now);
      StatusCases(FindDelivery(s.outbox, op.delivery).status);
    }
  }

  lemma StatusCases(status: DeliveryStatus)
    ensures status !in {Sending, Uncertain} ==> status in {Pending, Streaming}
  {
    match status {
      case Pending => case Sending => case Streaming => case Uncertain =>
    }
  }

  /** A pending delivery was there before as it is, was created by this step, was retried from
      uncertain, or completes a pending or streaming stream. */
  lemma PendingOrigin(s: State, op: Op, now: nat, d: Delivery)
    requires Step(s, op, now).Change?
    requires d in Step(s, op, now).state.outbox && d.status == Pending && d !in s.outbox
    ensures BecamePending(s, op, d)
  {
    var moved := OutboxMoves(s, op, now);
    MoveOrigin(s, op, Step(s, op, now).state.outbox, moved, d);
  }

  lemma MoveOrigin(s: State, op: Op, next: seq<Delivery>, moved: Delivery, d: Delivery)
    requires OutboxMove(s, op, next, moved) && d in next && d !in s.outbox
    ensures d == moved && (d.status == Pending ==> BecamePending(s, op, d))
  {
    if HasDelivery(s.outbox, moved.id) && next == Updated(s.outbox, moved) {
      UpdatedElements(s.outbox, moved);
    }
  }

  lemma UpdatedElements(outbox: seq<Delivery>, changed: Delivery)
    requires HasDelivery(outbox, changed.id)
    ensures forall d :: d in Updated(outbox, changed) ==> d in outbox || d == changed
  {}

  /** A delivery leaves the outbox only by being acknowledged, moved to the dead letters or purged. */
  lemma DeliveryKept(s: State, op: Op, now: nat, id: string)
    requires Step(s, op, now).Change? && HasDelivery(s.outbox, id)
    ensures var next := Step(s, op, now).state;
            || HasDelivery(next.outbox, id)
            || op == Ack(id)
            || (op == Dead(id) && FindDelivery(s.outbox, id) in next.dead)
            || (op.Purge? && op.deliveries)
  {
    if op == Dead(id) {
      var dead := s.dead + [FindDelivery(s.outbox, id)];
      assert Recent(dead)[|Recent(dead)| - 1] == dead[|dead| - 1];
    } else {
      var moved := OutboxMoves(s, op, now);
      MoveKeeps(s, op, Step(s, op, now).state.outbox, moved, id);
    }
  }

  lemma MoveKeeps(s: State, op: Op, next: seq<Delivery>, moved: Delivery, id: string)
    requires OutboxMove(s, op, next, moved) && HasDelivery(s.outbox, id)
    ensures HasDelivery(next, id) || op == Ack(id) || op == Dead(id) || (op.Purge? && op.deliveries)
  {
    var i, k := DeliveryIndex(s.outbox, id), DeliveryIndex(s.outbox, moved.id);
    DeliveryIndexFinds(next, id);
    if (op == Ack(moved.id) || op == Dead(moved.id)) && HasDelivery(s.outbox, moved.id) && next == Delivered(s.outbox, moved.id) {
      assert id != moved.id ==> next[if i < k then i else i - 1].id == id;
    } else {
      assert next != [] ==> next[i].id == id;
    }
  }

  // ---------- Acknowledged channel events ----------

  /** Where an operation names an event of a channel, it names the key it is seen under. */
  predicate UsesKeys(op: Op, keyOf: (string, string) -> string) {
    && (op.Acknowledge? ==> op.key == keyOf(op.channel, op.eventId))
    && (op.Commit? ==> op.key == keyOf(op.channel, op.eventId))
    && (op.Begin? && op.deferred.Some? ==> op.deferred.value.1 == keyOf(op.deferred.value.0, op.message.id))
  }

  lemma EventsStay(s: State, op: Op, now: nat)
    requires Step(s, op, now).Change? && !IsEventOp(op) && !op.Begin?
    ensures Step(s, op, now).state.events == s.events
  {
    if IsCatalogOp(op) {
      CatalogKeepsOutbox(s, op, now);
    } else if IsTurnOp(op) {
      TurnKeepsEvents(s, op, now);
    } else if IsDeliveryOp(op) {
      DeliveryKeepsSessions(s, op, now);
    } else {
      SessionKeepsOutbox(s, op, now);
    }
  }

  lemma TurnKeepsEvents(s: State, op: Op, now: nat)
    requires IsTurnOp(op) && !op.Begin? && TurnStep(s, op, now).Change?
    ensures TurnStep(s, op, now).state.events == s.events
  {}

  lemma AcknowledgedStep(s: State, op: Op, now: nat, keyOf: (string, string) -> string)
    requires Step(s, op, now).Change? && UsesKeys(op, keyOf) && Events.AcknowledgedWait(s.events, keyOf)
    ensures Events.AcknowledgedWait(Step(s, op, now).state.events, keyOf)
  {
    EventsAfter(s, op, now);
    if op.Begin? {
      BegunWaits(s, op, now, keyOf);
    } else if IsEventOp(op) {
      EventStepWaits(s, op, now, keyOf);
    }
  }

  /** Channel events change by their own operations and when a message is begun. */
  lemma EventsAfter(s: State, op: Op, now: nat)
    requires Step(s, op, now).Change?
    ensures if op.Begin? then Step(s, op, now) == TurnStep(s, op, now)
            else if IsEventOp(op) then Step(s, op, now) == EventStep(s, op, now)
            else Step(s, op, now).state.events == s.events
  {
    if !op.Begin? && !IsEventOp(op) { EventsStay(s, op, now); }
  }

  lemma BegunWaits(s: State, op: Op, now: nat, keyOf: (string, string) -> string)
    requires op.Begin? && TurnStep(s, op, now).Change? && UsesKeys(op, keyOf) && Events.AcknowledgedWait(s.events, keyOf)
    ensures Events.AcknowledgedWait(TurnStep(s, op, now).state.events, keyOf)
  {
    if op.deferred.Some? { Events.ClearedWait(s.events, op.deferred.value.0, op.message.id, keyOf); }
  }

  lemma EventStepWaits(s: State, op: Op, now: nat, keyOf: (string, string) -> string)
    requires IsEventOp(op) && EventStep(s, op, now).Change? && UsesKeys(op, keyOf) && Events.AcknowledgedWait(s.events, keyOf)
    ensures Events.AcknowledgedWait(EventStep(s, op, now).state.events, keyOf)
  {
    match op {
      case Commit(channel, eventId, key, offset, retained) =>
        if !retained { Events.ClearedWait(s.events, channel, eventId, keyOf); }
        CommittedWaits(s.events, op, now, keyOf);
      case Defer(channel, event, fits) => DeferredWaits(s, channel, event, fits, keyOf);
      case Acknowledge(channel, eventId, key) =>
        SameDeferred(s.events, EventStep(s, op, now).state.events, key, channel, eventId, keyOf);
    }
  }

  lemma CommittedWaits(e: Events.EventState, op: Op, now: nat, keyOf: (string, string) -> string)
    requires op.Commit? && op.key == keyOf(op.channel, op.eventId)
    requires Events.AcknowledgedWait(if op.retained then e else Events.Cleared(e, op.channel, op.eventId, op.key), keyOf)
    ensures Events.AcknowledgedWait(Events.Committed(e, op.channel, op.eventId, op.key, op.offset, op.retained, now), keyOf)
  {
    var settled := if op.retained then e else Events.Cleared(e, op.channel, op.eventId, op.key);
    var next := Events.Committed(e, op.channel, op.eventId, op.key, op.offset, op.retained, now);
    forall key | key in next.acknowledged ensures exists c, i :: keyOf(c, i) == key && Events.HasDeferred(next, c, i) {
      var c, i :| keyOf(c, i) == key && Events.HasDeferred(settled, c, i);
      assert Events.HasDeferred(next, c, i);
    }
  }

  lemma SameDeferred(e: Events.EventState, next: Events.EventState, added: string, channel: string, id: string, keyOf: (string, string) -> string)
    requires Events.AcknowledgedWait(e, keyOf) && next == e.(acknowledged := e.acknowledged + {added})
    requires keyOf(channel, id) == added && Events.HasDeferred(e, channel, id)
    ensures Events.AcknowledgedWait(next, keyOf)
  {
    assert Events.HasDeferred(next, channel, id);
    forall key | key in e.acknowledged ensures exists c, i :: keyOf(c, i) == key && Events.HasDeferred(next, c, i) {
      var c, i :| keyOf(c, i) == key && Events.HasDeferred(e, c, i);
      assert Events.HasDeferred(next, c, i);
    }
  }

  lemma DeferredWaits(s: State, channel: string, event: Events.Event, fits: bool, keyOf: (string, string) -> string)
    requires DeferStep(s, channel, event, fits).Change? && Events.AcknowledgedWait(s.events, keyOf)
    ensures Events.AcknowledgedWait(DeferStep(s, channel, event, fits).state.events, keyOf)
  {
    var next := DeferStep(s, channel, event, fits).state.events;
    forall key | key in next.acknowledged ensures exists c, i :: keyOf(c, i) == key && Events.HasDeferred(next, c, i) {
      var c, i :| keyOf(c, i) == key && Events.HasDeferred(s.events, c, i);
      var k :| 0 <= k < |s.events.deferred[c]| && Events.Named(s.events.deferred[c][k], i);
      assert next.deferred[c][k] == s.events.deferred[c][k];
      assert Events.HasDeferred(next, c, i);
    }
  }

  lemma {:induction false} AcknowledgedFrom(s: State, calls: seq<Call>, keyOf: (string, string) -> string)
    requires Events.AcknowledgedWait(s.events, keyOf) && forall i :: 0 <= i < |calls| ==> UsesKeys(calls[i].op, keyOf)
    ensures Events.AcknowledgedWait(Run(s, calls).events, keyOf)
    decreases |calls|
  {
    if calls != [] {
      var call := calls[0];
      if Step(s, call.op, call.now).Change? { AcknowledgedStep(s, call.op, call.now, keyOf); }
      AcknowledgedFrom(Apply(s, call.op, call.now, call.saved).0, calls[1..], keyOf);
    }
  }

  /** Over every run from the empty store, whichever saves fail, an acknowledged event is one that waits. */
  lemma AcknowledgedAlwaysWait(calls: seq<Call>, keyOf: (string, string) -> string)
    requires forall i :: 0 <= i < |calls| ==> UsesKeys(calls[i].op, keyOf)
    ensures Events.AcknowledgedWait(Run(EmptyState, calls).events, keyOf)
  {
    AcknowledgedFrom(EmptyState, calls, keyOf);
  }
}
