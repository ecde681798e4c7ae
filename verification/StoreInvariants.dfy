/** What every operation of the session store keeps, and what holds over whole runs. */
module StoreInvariants {
  import opened Wrappers
  import opened Messages
  import opened Compaction
  import opened StoreModel
  import Events = ChannelEvents

  // ---------- The invariant ----------

  ghost predicate DistinctIds(messages: seq<Message>) {
    forall i, j :: 0 <= i < j < |messages| ==> messages[i].id != messages[j].id
  }

  ghost predicate DistinctDeliveries(outbox: seq<Delivery>) {
    forall i, j :: 0 <= i < j < |outbox| ==> outbox[i].id != outbox[j].id
  }

  /** A turn in flight excludes a reservation; an owner and a deadline come and go together, with
      the status `working`. */
  ghost predicate LeaseInv(s: Session) {
    && (s.inflight.Some? ==> s.reservationOwner.None?)
    && (s.reservationOwner.Some? <==> s.reservationUntil.Some?)
    && (s.reservationOwner.Some? ==> s.status == WORKING)
  }

  ghost predicate QueueInv(s: Session) {
    && DistinctIds(s.queued) && |s.queued| <= LIMIT
    && forall id :: id in s.queueRoles ==> Contains(s.queued, id)
  }

  ghost predicate SessionInv(id: string, s: Session) {
    && s.id == id && ValidId(id) && s.scheduled == IsScheduleId(id)
    && LeaseInv(s) && QueueInv(s)
  }

  ghost predicate SessionsInv(sessions: map<string, Session>) {
    && (forall id :: id in sessions ==> SessionInv(id, sessions[id]))
    && |Users(sessions)| <= LIMIT
    && |Schedules(sessions)| <= SCHEDULE_SESSION_LIMIT
  }

  ghost predicate OutboxInv(outbox: seq<Delivery>) {
    DistinctDeliveries(outbox) && |outbox| <= LIMIT
  }

  ghost predicate Inv(s: State) {
    SessionsInv(s.sessions) && OutboxInv(s.outbox) && |s.dead| <= LIMIT && Events.EventsInv(s.events)
  }

  // ---------- Queues ----------

  lemma {:induction false} IndexOfContains(messages: seq<Message>, id: string)
    ensures Contains(messages, id) <==> IndexOf(messages, id) < |messages|
  {
    if messages != [] && messages[0].id != id {
      IndexOfContains(messages[1..], id);
      if Contains(messages, id) {
        var i :| 0 <= i < |messages| && messages[i].id == id;
        assert messages[1..][i - 1].id == id;
      }
    }
  }

  lemma UnqueuedKeeps(queued: seq<Message>, roles: map<string, seq<string>>, id: string)
    requires DistinctIds(queued) && forall k :: k in roles ==> Contains(queued, k)
    ensures var rest := WithoutFirst(queued, id);
            DistinctIds(rest) && |rest| <= |queued| && forall k :: k in roles - {id} ==> Contains(rest, k)
  {
    forall k | k in roles - {id} ensures Contains(WithoutFirst(queued, id), k) {
      OtherStays(queued, id, k);
    }
  }

  lemma OtherStays(queued: seq<Message>, id: string, k: string)
    requires Contains(queued, k) && k != id
    ensures Contains(WithoutFirst(queued, id), k)
  {
    var i := IndexOf(queued, id);
    var at :| 0 <= at < |queued| && queued[at].id == k;
    if i < |queued| {
      assert WithoutFirst(queued, id)[if at < i then at else at - 1].id == k;
    }
  }

  lemma BegunKeepsQueue(s: Session, message: Message, roles: seq<string>, now: nat)
    requires QueueInv(s)
    ensures QueueInv(Begun(s, message, roles, now))
  {
    UnqueuedKeeps(s.queued, s.queueRoles, message.id);
  }

  lemma AppendedKeeps(queued: seq<Message>, message: Message)
    requires DistinctIds(queued) && !Contains(queued, message.id)
    ensures DistinctIds(queued + [message])
    ensures forall id :: Contains(queued, id) || id == message.id ==> Contains(queued + [message], id)
  {
    var next := queued + [message];
    assert next[|queued|].id == message.id;
    forall id | Contains(queued, id) ensures Contains(next, id) {
      var k :| 0 <= k < |queued| && queued[k].id == id;
      assert next[k].id == id;
    }
  }

  lemma EnqueuedKeepsQueue(s: Session, message: Message, roles: seq<string>, now: nat)
    requires QueueInv(s) && !Contains(s.queued, message.id) && |s.queued| < LIMIT
    ensures QueueInv(Enqueued(s, message, roles, now))
  {
    AppendedKeeps(s.queued, message);
  }

  lemma RelabelledKeepsQueue(s: Session, target: string, now: nat)
    requires QueueInv(s)
    ensures QueueInv(Renamed(s, target, now))
  {
    var next := Renamed(s, target, now);
    forall id | id in next.queueRoles ensures Contains(next.queued, id) {
      var k :| 0 <= k < |s.queued| && s.queued[k].id == id;
      assert next.queued[k].id == id;
    }
  }

  // ---------- Outbox ----------

  lemma {:induction false} DeliveryIndexFinds(outbox: seq<Delivery>, id: string)
    ensures HasDelivery(outbox, id) <==> exists i :: 0 <= i < |outbox| && outbox[i].id == id
  {
    if outbox != [] && outbox[0].id != id {
      DeliveryIndexFinds(outbox[1..], id);
      if i :| 0 <= i < |outbox| && outbox[i].id == id {
        assert outbox[1..][i - 1].id == id;
      }
    }
  }

  lemma AddedIsThere(outbox: seq<Delivery>, d: Delivery)
    ensures HasDelivery(outbox + [d], d.id)
  {
    DeliveryIndexFinds(outbox + [d], d.id);
    assert (outbox + [d])[|outbox|].id == d.id;
  }

  lemma UpdatedIsThere(outbox: seq<Delivery>, d: Delivery)
    requires HasDelivery(outbox, d.id)
    ensures HasDelivery(Updated(outbox, d), d.id)
  {
    DeliveryIndexFinds(Updated(outbox, d), d.id);
    assert Updated(outbox, d)[DeliveryIndex(outbox, d.id)].id == d.id;
  }

  lemma AddedKeepsOutbox(outbox: seq<Delivery>, d: Delivery)
    requires OutboxInv(outbox) && !HasDelivery(outbox, d.id) && |outbox| < LIMIT
    ensures OutboxInv(outbox + [d])
  {
    DeliveryIndexFinds(outbox, d.id);
  }

  lemma UpdatedKeepsOutbox(outbox: seq<Delivery>, d: Delivery)
    requires OutboxInv(outbox) && HasDelivery(outbox, d.id)
    ensures OutboxInv(Updated(outbox, d))
  {}

  lemma DeliveredKeepsOutbox(outbox: seq<Delivery>, id: string)
    requires OutboxInv(outbox) && HasDelivery(outbox, id)
    ensures OutboxInv(Delivered(outbox, id))
  {}

  // ---------- Sessions ----------

  lemma PutKeeps(sessions: map<string, Session>, id: string, session: Session)
    requires SessionsInv(sessions) && id in sessions && SessionInv(id, session)
    ensures SessionsInv(sessions[id := session])
  {
    assert SessionInv(id, sessions[id]);
    assert Users(sessions[id := session]) == Users(sessions);
    assert Schedules(sessions[id := session]) == Schedules(sessions);
  }

  lemma AddCounts(sessions: map<string, Session>, id: string, session: Session)
    requires id !in sessions
    ensures var next := sessions[id := session];
            && Schedules(next) == (if session.scheduled then Schedules(sessions) + {id} else Schedules(sessions))
            && Users(next) == (if session.scheduled then Users(sessions) else Users(sessions) + {id})
  {}

  lemma AddKeeps(sessions: map<string, Session>, id: string, session: Session)
    requires SessionsInv(sessions) && id !in sessions && SessionInv(id, session)
    requires if session.scheduled then |Schedules(sessions)| < SCHEDULE_SESSION_LIMIT else |Users(sessions)| < LIMIT
    ensures SessionsInv(sessions[id := session])
  {
    AddCounts(sessions, id, session);
    var next := sessions[id := session];
    forall other | other in next ensures SessionInv(other, next[other]) {
      if other != id { assert SessionInv(other, sessions[other]); }
    }
  }

  lemma RemoveKeeps(sessions: map<string, Session>, id: string)
    requires SessionsInv(sessions) && id in sessions
    ensures SessionsInv(sessions - {id})
    ensures !sessions[id].scheduled ==> |Users(sessions - {id})| == |Users(sessions)| - 1
  {
    var next := sessions - {id};
    if sessions[id].scheduled {
      assert Schedules(next) == Schedules(sessions) - {id} && Users(next) == Users(sessions);
    } else {
      assert Users(next) == Users(sessions) - {id} && Schedules(next) == Schedules(sessions);
    }
  }

  lemma RenameKeeps(s: State, source: string, target: string, now: nat)
    requires Inv(s) && RenameStep(s, source, target, now).Change?
    ensures Inv(RenameStep(s, source, target, now).state)
  {
    var session := s.sessions[source];
    assert SessionInv(source, session);
    RemoveKeeps(s.sessions, source);
    RelabelledKeepsQueue(session, target, now);
    assert SessionInv(target, Renamed(session, target, now));
    AddKeeps(s.sessions - {source}, target, Renamed(session, target, now));
  }

  lemma ReleaseKeeps(sessions: map<string, Session>, now: nat)
    requires SessionsInv(sessions)
    ensures SessionsInv(ReleaseAll(sessions, now))
  {
    var next := ReleaseAll(sessions, now);
    forall id | id in next ensures SessionInv(id, next[id]) {
      assert SessionInv(id, sessions[id]);
    }
    assert Users(next) == Users(sessions) && Schedules(next) == Schedules(sessions);
  }

  /** The session an operation addresses keeps its own invariant. */
  lemma AppendedKeepsSession(id: string, s: Session, message: Message, now: nat)
    requires SessionInv(id, s)
    ensures SessionInv(id, Appended(s, message, now))
    ensures SessionInv(id, WithStatus(Appended(s, message, now), IDLE))
    ensures SessionInv(id, Extended(Appended(s, message, now), now))
  {}

  lemma StatusKeepsSession(id: string, s: Session, status: string, now: nat)
    requires SessionInv(id, s)
    ensures SessionInv(id, Restatused(s, status, now))
  {}

  lemma ClearedKeepsSession(id: string, s: Session, status: string, now: nat)
    requires SessionInv(id, s)
    ensures SessionInv(id, Cleared(s, status, now))
  {}

  lemma PutStepKeeps(s: State, id: string, session: Session)
    requires Inv(s) && id in s.sessions && SessionInv(id, session)
    ensures Inv(Put(s, id, session).state)
  {
    PutKeeps(s.sessions, id, session);
  }

  lemma PushKeeps(s: State, id: string, message: Message, resumeCancelled: bool, now: nat)
    requires Inv(s) && PushStep(s, id, message, resumeCancelled, now).Change?
    ensures Inv(PushStep(s, id, message, resumeCancelled, now).state)
  {
    assert SessionInv(id, s.sessions[id]);
    AppendedKeepsSession(id, s.sessions[id], message, now);
    PutStepKeeps(s, id, PushStep(s, id, message, resumeCancelled, now).state.sessions[id]);
  }

  lemma AppendReservedKeeps(s: State, id: string, owner: string, message: Message, now: nat)
    requires Inv(s) && AppendReservedStep(s, id, owner, message, now).Change?
    ensures Inv(AppendReservedStep(s, id, owner, message, now).state)
  {
    assert SessionInv(id, s.sessions[id]);
    AppendedKeepsSession(id, s.sessions[id], message, now);
    PutStepKeeps(s, id, Extended(Appended(s.sessions[id], message, now), now));
  }

  lemma SessionStepKeeps(s: State, op: Op, now: nat)
    requires IsSessionOp(op) && Inv(s) && SessionStep(s, op, now).Change?
    ensures Inv(SessionStep(s, op, now).state)
  {
    if op.Push? {
      PushKeeps(s, op.id, op.message, op.resumeCancelled, now);
    } else if op.AppendReserved? {
      AppendReservedKeeps(s, op.id, op.owner, op.message, now);
    } else {
      PlainStepKeeps(s, op, now);
    }
  }

  lemma PlainStepKeeps(s: State, op: Op, now: nat)
    requires IsSessionOp(op) && !op.Push? && !op.AppendReserved?
    requires Inv(s) && SessionStep(s, op, now).Change?
    ensures Inv(SessionStep(s, op, now).state)
  {
    var next := SessionStep(s, op, now).state.sessions[op.id];
    assert SessionInv(op.id, s.sessions[op.id]);
    if op.SetStatus? { StatusKeepsSession(op.id, s.sessions[op.id], op.status, now); }
    PutStepKeeps(s, op.id, next);
  }

  lemma QueueKeeps(s: State, id: string, message: Message, roles: seq<string>, now: nat)
    requires Inv(s) && QueueStep(s, id, message, roles, now).Change?
    ensures Inv(QueueStep(s, id, message, roles, now).state)
  {
    assert SessionInv(id, s.sessions[id]);
    EnqueuedKeepsSession(id, s.sessions[id], message, roles, now);
    PutStepKeeps(s, id, Enqueued(s.sessions[id], message, roles, now));
  }

  lemma EnqueuedKeepsSession(id: string, s: Session, message: Message, roles: seq<string>, now: nat)
    requires SessionInv(id, s) && !Contains(s.queued, message.id) && |s.queued| < LIMIT
    ensures SessionInv(id, Enqueued(s, message, roles, now))
  {
    EnqueuedKeepsQueue(s, message, roles, now);
  }

  lemma BeginKeeps(s: State, id: string, message: Message, roles: seq<string>, deferred: Option<(string, string)>, now: nat)
    requires Inv(s) && BeginStep(s, id, message, roles, deferred, now).Change?
    ensures Inv(BeginStep(s, id, message, roles, deferred, now).state)
  {
    if deferred.Some? { Events.ClearedKeeps(s.events, deferred.value.0, message.id, deferred.value.1); }
    assert SessionInv(id, s.sessions[id]);
    BegunKeepsQueue(s.sessions[id], message, roles, now);
    PutStepKeeps(s, id, Begun(s.sessions[id], message, roles, now));
  }

  lemma ClearKeeps(s: State, id: string, status: string, now: nat)
    requires Inv(s) && ClearStep(s, id, status, now).Change?
    ensures Inv(ClearStep(s, id, status, now).state)
  {
    assert SessionInv(id, s.sessions[id]);
    ClearedKeepsSession(id, s.sessions[id], status, now);
    EndedStreamKeeps(s.outbox, s.sessions[id].streamDelivery, now);
    PutStepKeeps(s, id, Cleared(s.sessions[id], status, now));
  }

  lemma ReplyKeeps(s: State, op: Op, now: nat)
    requires op.Reply? && Inv(s) && TurnStep(s, op, now).Change?
    ensures Inv(TurnStep(s, op, now).state)
  {
    var next := TurnStep(s, op, now).state;
    var session := s.sessions[op.id];
    var route := Route(op.channel, op.chat, session.isPrivate, op.thread);
    assert SessionInv(op.id, session);
    if HasDelivery(s.outbox, op.delivery) {
      UpdatedKeepsOutbox(s.outbox, CompletedStream(FindDelivery(s.outbox, op.delivery), route, op.text, now));
    } else {
      AddedKeepsOutbox(s.outbox, NewDelivery(op.delivery, route, op.text, Pending, now));
    }
    PutStepKeeps(s, op.id, Replied(session, op.message, now));
  }

  lemma StartStreamKeeps(s: State, op: Op, now: nat)
    requires op.StartStream? && Inv(s) && TurnStep(s, op, now).Change?
    ensures Inv(TurnStep(s, op, now).state)
  {
    var next := TurnStep(s, op, now).state;
    assert SessionInv(op.id, s.sessions[op.id]);
    AddedKeepsOutbox(s.outbox, next.outbox[|s.outbox|]);
    PutStepKeeps(s, op.id, next.sessions[op.id]);
  }

  lemma TurnStepKeeps(s: State, op: Op, now: nat)
    requires IsTurnOp(op) && Inv(s) && TurnStep(s, op, now).Change?
    ensures Inv(TurnStep(s, op, now).state)
  {
    if op.Queue? {
      QueueKeeps(s, op.id, op.message, op.roles, now);
    } else if op.Begin? {
      BeginKeeps(s, op.id, op.message, op.roles, op.deferred, now);
    } else if op.Clear? {
      ClearKeeps(s, op.id, op.status, now);
    } else if op.Reply? {
      ReplyKeeps(s, op, now);
    } else {
      StartStreamKeeps(s, op, now);
    }
  }

  lemma EndedStreamKeeps(outbox: seq<Delivery>, id: Option<string>, now: nat)
    requires OutboxInv(outbox)
    ensures OutboxInv(EndedStream(outbox, id, now))
  {}

  lemma ForkKeeps(s: State, source: string, target: string, now: nat)
    requires Inv(s) && ForkStep(s, source, target, now).Change?
    ensures Inv(ForkStep(s, source, target, now).state)
  {
    AddKeeps(s.sessions, target, Forked(s.sessions[source], target, now));
  }

  lemma CatalogStepKeeps(s: State, op: Op, now: nat)
    requires IsCatalogOp(op) && Inv(s) && CatalogStep(s, op, now).Change?
    ensures Inv(CatalogStep(s, op, now).state)
  {
    match op
    case Create(id, scheduled, _) => AddKeeps(s.sessions, id, NewSession(id, scheduled, now));
    case Rename(source, target) => RenameKeeps(s, source, target, now);
    case Fork(source, target) => ForkKeeps(s, source, target, now);
    case Remove(id) => RemoveKeeps(s.sessions, id);
    case RecoverReservations => ReleaseKeeps(s.sessions, now);
    case Purge(sessions, deliveries) =>
      assert Users(map[]) == {} && Schedules(map[]) == {};
  }

  lemma MarkKeeps(s: State, id: string, status: DeliveryStatus, error: Option<string>, detail: Detail, now: nat)
    requires Inv(s) && MarkStep(s, id, status, error, detail, now).Change?
    ensures Inv(MarkStep(s, id, status, error, detail, now).state)
  {
    UpdatedKeepsOutbox(s.outbox, Marked(FindDelivery(s.outbox, id), status, error, detail, now));
  }

  lemma QueueDeliveryKeeps(s: State, id: string, route: Route, text: string, now: nat)
    requires Inv(s) && QueueDeliveryStep(s, id, route, text, now).Change?
    ensures Inv(QueueDeliveryStep(s, id, route, text, now).state)
  {
    if !HasDelivery(s.outbox, id) {
      AddedKeepsOutbox(s.outbox, NewDelivery(id, route, text, Pending, now));
    }
  }

  lemma RemovedDeliveryKeeps(s: State, op: Op, now: nat)
    requires (op.Ack? || op.Dead?) && Inv(s) && DeliveryStep(s, op, now).Change?
    ensures Inv(DeliveryStep(s, op, now).state)
  {
    DeliveredKeepsOutbox(s.outbox, op.delivery);
  }

  lemma MarkStepKeeps(s: State, op: Op, now: nat)
    requires IsMarkOp(op) && Inv(s) && DeliveryStep(s, op, now).Change?
    ensures Inv(DeliveryStep(s, op, now).state)
  {
    match op {
      case StreamSending(id, text) => MarkKeeps(s, id, Sending, None, Text(text), now);
      case StreamStarted(id, messageId) => MarkKeeps(s, id, Streaming, None, SentAs(messageId), now);
      case StreamUpdated(id) => MarkKeeps(s, id, Streaming, None, Nothing, now);
      case MarkSending(id) => MarkKeeps(s, id, Sending, None, Nothing, now);
      case MarkUncertain(id, error) => MarkKeeps(s, id, Uncertain, Some(error), Nothing, now);
      case RetryDelivery(id) => MarkKeeps(s, id, Pending, None, Nothing, now);
    }
  }

  lemma DeliveryStepKeeps(s: State, op: Op, now: nat)
    requires IsDeliveryOp(op) && Inv(s) && DeliveryStep(s, op, now).Change?
    ensures Inv(DeliveryStep(s, op, now).state)
  {
    if op.Ack? || op.Dead? {
      RemovedDeliveryKeeps(s, op, now);
    } else if op.QueueDelivery? {
      QueueDeliveryKeeps(s, op.delivery, op.route, op.text, now);
    } else {
      MarkStepKeeps(s, op, now);
    }
  }

  lemma DeferKeeps(s: State, channel: string, event: Events.Event, fits: bool)
    requires Inv(s) && DeferStep(s, channel, event, fits).Change?
    ensures Inv(DeferStep(s, channel, event, fits).state)
  {
    var waiting := Events.Deferred(s.events, channel);
    assert Events.DistinctEvents(waiting + [event]);
  }

  lemma EventStepKeeps(s: State, op: Op, now: nat)
    requires IsEventOp(op) && Inv(s) && EventStep(s, op, now).Change?
    ensures Inv(EventStep(s, op, now).state)
  {
    if op.Defer? {
      DeferKeeps(s, op.channel, op.event, op.fits);
    } else if op.Commit? {
      Events.CommittedKeeps(s.events, op.channel, op.eventId, op.key, op.offset, op.retained, now);
    }
  }

  /** Every step of the store keeps the invariant. */
  lemma StepKeeps(s: State, op: Op, now: nat)
    requires Inv(s) && Step(s, op, now).Change?
    ensures Inv(Step(s, op, now).state)
  {
    if IsCatalogOp(op) {
      CatalogStepKeeps(s, op, now);
    } else if IsTurnOp(op) {
      TurnStepKeeps(s, op, now);
    } else if IsDeliveryOp(op) {
      DeliveryStepKeeps(s, op, now);
    } else if IsEventOp(op) {
      EventStepKeeps(s, op, now);
    } else {
      SessionStepKeeps(s, op, now);
    }
  }

  lemma {:induction false} RunFrom(s: State, calls: seq<Call>)
    requires Inv(s)
    ensures Inv(Run(s, calls))
    decreases |calls|
  {
    if calls != [] {
      var call := calls[0];
      if Step(s, call.op, call.now).Change? { StepKeeps(s, call.op, call.now); }
      RunFrom(Apply(s, call.op, call.now, call.saved).0, calls[1..]);
    }
  }

  /** Over every run of operations from an empty store, whichever saves fail. */
  lemma RunKeeps(calls: seq<Call>)
    ensures Inv(Run(EmptyState, calls))
  {
    assert Users(map[]) == {} && Schedules(map[]) == {};
    RunFrom(EmptyState, calls);
  }
}
