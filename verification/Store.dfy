/** The session store as the program keeps it: a value that every operation updates in place and
    puts back when its save fails. Each operation is proved to be the step of the state machine. */
module Store {
  import opened Wrappers
  import opened Messages
  import opened Compaction
  import opened Ages
  import opened StoreModel
  import opened StoreInvariants
  import Events = ChannelEvents

  ghost predicate IdleSchedule(s: Session) {
    s.scheduled && !Busy(s)
  }

  /** When idle scheduled sessions were last used. */
  ghost function IdleSchedules(sessions: map<string, Session>): map<string, nat> {
    map id | id in sessions && IdleSchedule(sessions[id]) :: sessions[id].updated
  }

  class Store {
    var sessions: map<string, Session>
    var outbox: seq<Delivery>
    var dead: seq<Delivery>
    var events: Events.EventState

    ghost function Model(): State
      reads this
    {
      State(sessions, outbox, dead, events)
    }

    constructor ()
      ensures Model() == EmptyState
    {
      sessions, outbox, dead, events := map[], [], [], Events.NoEvents;
    }

    /** Writes the store; on failure everything the change did is put back. */
    method Save(previous: State, saved: bool) returns (r: Result<(), StoreError>)
      modifies this
      ensures r == if saved then Ok(()) else Err(SaveFailed)
      ensures Model() == if saved then old(Model()) else previous
    {
      if !saved {
        sessions, outbox, dead, events := previous.sessions, previous.outbox, previous.dead, previous.events;
        return Err(SaveFailed);
      }
      return Ok(());
    }

    method Compact(messages: seq<Message>) returns (r: seq<Message>)
      ensures r == Compacted(messages)
    {
      var history := new History(messages);
      history.CompactMessages();
      r := history.messages;
    }

    // ---------- Sessions come and go ----------

    method Count(scheduled: bool) returns (n: nat)
      ensures n == if scheduled then |Schedules(sessions)| else |Users(sessions)|
    {
      n := 0;
      var left, counted := sessions.Keys, {};
      while left != {}
        invariant left <= sessions.Keys && n == |counted|
        invariant counted == set id | id in sessions && id !in left && sessions[id].scheduled == scheduled
      {
        var id :| id in left;
        if sessions[id].scheduled == scheduled {
          n := n + 1;
          counted := counted + {id};
        }
        left := left - {id};
      }
      assert counted == if scheduled then Schedules(sessions) else Users(sessions);
    }

    method Create(id: string, scheduled: bool, blankModel: bool, now: nat, saved: bool) returns (r: Result<(), StoreError>)
      modifies this
      ensures (Model(), r) == Concluded(old(Model()), CreateStep(old(Model()), id, scheduled, blankModel, now), saved)
      ensures r.Ok? ==> id in sessions && sessions[id].scheduled == IsScheduleId(id) && sessions[id].status == IDLE && sessions[id].queued == []
    {
      if !ValidId(id) || IsScheduleId(id) != scheduled || blankModel { return Err(InvalidInput); }
      if id in sessions { return Err(AlreadyExists); }
      var count := Count(scheduled);
      if count >= (if scheduled then SCHEDULE_SESSION_LIMIT else LIMIT) { return Err(WouldBlock); }
      var previous := State(sessions, outbox, dead, events);
      sessions := sessions[id := NewSession(id, scheduled, now)];
      r := Save(previous, saved);
    }

    method Rename(source: string, target: string, now: nat, saved: bool) returns (r: Result<(), StoreError>)
      modifies this
      ensures (Model(), r) == Concluded(old(Model()), RenameStep(old(Model()), source, target, now), saved)
      ensures r.Ok? ==> sessions.Keys == old(sessions).Keys - {source} + {target} && target !in old(sessions) && sessions[target].id == target
    {
      if !ValidId(source) || !ValidId(target) || source == target { return Err(InvalidInput); }
      if target in sessions { return Err(AlreadyExists); }
      if source !in sessions { return Err(NotFound); }
      var session := sessions[source];
      if session.scheduled || IsScheduleId(target) || session.channel.Some? { return Err(InvalidInput); }
      if session.status == WORKING || session.inflight.Some? { return Err(WouldBlock); }
      session := session.(id := target, updated := now);
      var messages := Relabel(session.messages, target);
      var queued := Relabel(session.queued, target);
      session := session.(messages := messages, queued := queued);
      var previous := State(sessions, outbox, dead, events);
      sessions := sessions - {source};
      sessions := sessions[target := session];
      r := Save(previous, saved);
    }

    method Relabel(messages: seq<Message>, session: string) returns (r: seq<Message>)
      ensures r == Relabelled(messages, session)
    {
      r := messages;
      for i := 0 to |messages|
        invariant |r| == |messages|
        invariant forall k :: 0 <= k < |r| ==> r[k] == if k < i then messages[k].(session := session) else messages[k]
      {
        r := r[i := r[i].(session := session)];
      }
    }

    method Fork(source: string, target: string, now: nat, saved: bool) returns (r: Result<(), StoreError>)
      modifies this
      ensures (Model(), r) == Concluded(old(Model()), ForkStep(old(Model()), source, target, now), saved)
      ensures r.Ok? ==>
        && target !in old(sessions) && source in old(sessions) && sessions.Keys == old(sessions).Keys + {target}
        && sessions[target].messages == Relabelled(old(sessions)[source].messages, target) && !Busy(sessions[target])
    {
      if !ValidId(target) { return Err(InvalidInput); }
      if target in sessions { return Err(AlreadyExists); }
      if source !in sessions { return Err(NotFound); }
      if IsScheduleId(target) { return Err(InvalidInput); }
      var users := Count(false);
      if users >= LIMIT { return Err(WouldBlock); }
      var from := sessions[source];
      var messages := Relabel(from.messages, target);
      var context := None;
      if from.compactedContext.Some? {
        var relabelled := Relabel(from.compactedContext.value, target);
        context := Some(relabelled);
      }
      var previous := State(sessions, outbox, dead, events);
      sessions := sessions[target := NewSession(target, false, now).(
        channel := from.channel, isPrivate := from.isPrivate, messages := messages,
        compactedThrough := from.compactedThrough, compactedContext := context)];
      r := Save(previous, saved);
    }

    method Remove(id: string, saved: bool) returns (r: Result<(), StoreError>)
      modifies this
      ensures (Model(), r) == Concluded(old(Model()), RemoveStep(old(Model()), id), saved)
      ensures r.Ok? ==> id in old(sessions) && !Busy(old(sessions)[id]) && id !in sessions && outbox == old(outbox)
    {
      if id !in sessions { return Err(NotFound); }
      if sessions[id].status == WORKING || sessions[id].inflight.Some? { return Err(WouldBlock); }
      var previous := State(sessions, outbox, dead, events);
      sessions := sessions - {id};
      r := Save(previous, saved);
    }

    method Purge(purgeSessions: bool, deliveries: bool, saved: bool)
      returns (r: Result<(), StoreError>, ids: set<string>, count: nat)
      modifies this
      ensures (Model(), r) == Concluded(old(Model()), PurgeStep(old(Model()), purgeSessions, deliveries), saved)
      ensures r.Ok? ==>
        && ids == (if purgeSessions then old(sessions).Keys else {}) && (purgeSessions ==> sessions == map[])
        && count == (if deliveries then |old(outbox)| + |old(dead)| else 0) && (deliveries ==> outbox == [] && dead == [])
    {
      ids, count := {}, 0;
      if purgeSessions && exists id :: id in sessions && Busy(sessions[id]) { return Err(WouldBlock), ids, count; }
      ids := if purgeSessions then sessions.Keys else {};
      count := if deliveries then |outbox| + |dead| else 0;
      if ids == {} && count == 0 { return Ok(()), ids, count; }
      var previous := State(sessions, outbox, dead, events);
      if purgeSessions { sessions := map[]; }
      if deliveries { outbox, dead := [], []; }
      r := Save(previous, saved);
    }

    /** Makes a scheduled session. When all slots are taken the session that was idle longest makes
        room; a busy one never does. */
    method EnsureSchedule(id: string, blankModel: bool, now: nat, removeSaved: bool, recordsRemoved: bool, createSaved: bool)
      returns (r: Result<(), StoreError>, ghost victim: Option<string>)
      modifies this
      ensures !IsScheduleId(id) ==> Model() == old(Model()) && r == Err(InvalidInput)
      ensures IsScheduleId(id) && id in old(sessions) ==>
                Model() == old(Model()) && r == (if old(sessions)[id].scheduled then Ok(()) else Err(AlreadyExists))
      ensures IsScheduleId(id) && id !in old(sessions) ==>
                if |Schedules(old(sessions))| < SCHEDULE_SESSION_LIMIT then
                  (Model(), r) == Concluded(old(Model()), CreateStep(old(Model()), id, true, blankModel, now), createSaved)
                else if IdleSchedules(old(sessions)) == map[] then
                  Model() == old(Model()) && r == Err(WouldBlock)
                else
                  && victim.Some? && IsOldest(IdleSchedules(old(sessions)), 1, {victim.value})
                  && var removed := Concluded(old(Model()), RemoveStep(old(Model()), victim.value), removeSaved);
                     if removed.1.Err? || !recordsRemoved then Model() == removed.0 && r == Err(SaveFailed)
                     else (Model(), r) == Concluded(removed.0, CreateStep(removed.0, id, true, blankModel, now), createSaved)
    {
      victim := None;
      if !IsScheduleId(id) { return Err(InvalidInput), None; }
      if id in sessions {
        return if sessions[id].scheduled then Ok(()) else Err(AlreadyExists), None;
      }
      var count := Count(true);
      if count >= SCHEDULE_SESSION_LIMIT {
        var oldest := OldestIdleSchedule();
        if oldest.None? { return Err(WouldBlock), None; }
        victim := oldest;
        r := Remove(oldest.value, removeSaved);
        if r.Err? { return r, victim; }
        if !recordsRemoved { return Err(SaveFailed), victim; }
      }
      r := Create(id, true, blankModel, now, createSaved);
    }

    method OldestIdleSchedule() returns (r: Option<string>)
      ensures r.None? <==> IdleSchedules(sessions) == map[]
      ensures r.Some? ==> IsOldest(IdleSchedules(sessions), 1, {r.value})
    {
      r := None;
      ghost var idle := IdleSchedules(sessions);
      var left := sessions.Keys;
      while left != {}
        invariant left <= sessions.Keys
        invariant r.None? ==> forall id :: id in idle ==> id in left
        invariant r.Some? ==> r.value in idle && r.value !in left
        invariant r.Some? ==> forall id :: id in idle && id !in left && id != r.value ==> Older(idle, r.value, id)
      {
        var id :| id in left;
        if sessions[id].scheduled && sessions[id].status != WORKING && sessions[id].inflight.None? {
          assert id in idle;
          if r.None? || EntryLeq(Aged(id, sessions[id].updated), Aged(r.value, sessions[r.value].updated)) {
            OlderIsOrder(idle);
            r := Some(id);
          } else {
            EntryOrder();
          }
        }
        left := left - {id};
      }
      if r.Some? {
        assert idle[r.value] == idle[r.value];
        assert |idle| == |idle.Keys| && r.value in idle.Keys;
        assert |idle.Keys| == 1 + |idle.Keys - {r.value}|;
      }
    }

    // ---------- Messages ----------

    method Push(id: string, message: Message, resumeCancelled: bool, now: nat, saved: bool) returns (r: Result<(), StoreError>)
      modifies this
      ensures (Model(), r) == Concluded(old(Model()), PushStep(old(Model()), id, message, resumeCancelled, now), saved)
      ensures r.Ok? ==> id in sessions && sessions[id].messages == Compacted(old(sessions)[id].messages + [message]) && sessions[id].queued == old(sessions)[id].queued
    {
      r := PushWithStatus(id, message, resumeCancelled, false, now, saved);
    }

    method AppendReserved(id: string, owner: string, message: Message, now: nat, saved: bool) returns (r: Result<(), StoreError>)
      modifies this
      ensures (Model(), r) == Concluded(old(Model()), AppendReservedStep(old(Model()), id, owner, message, now), saved)
      ensures r.Ok? ==> id in old(sessions) && HeldBy(old(sessions)[id], owner) && HeldBy(sessions[id], owner)
    {
      if id !in sessions { return Err(NotFound); }
      var session := sessions[id];
      if session.inflight.Some? || session.status != WORKING || session.reservationOwner != Some(owner) {
        return Err(WouldBlock);
      }
      r := PushWithStatus(id, message, true, true, now, saved);
    }

    method PushWithStatus(id: string, message: Message, resumeCancelled: bool, preserveWorking: bool, now: nat, saved: bool)
      returns (r: Result<(), StoreError>)
      modifies this
      ensures id !in old(sessions) ==> Model() == old(Model()) && r == Err(NotFound)
      ensures id in old(sessions) ==>
        var pushed := Appended(old(sessions)[id], message, now);
        var session := if preserveWorking then Extended(pushed.(status := WORKING), now)
                       else if pushed.status != CANCELLED || resumeCancelled then WithStatus(pushed, IDLE)
                       else pushed;
        r == (if saved then Ok(()) else Err(SaveFailed))
        && Model() == if saved then old(Model()).(sessions := old(sessions)[id := session]) else old(Model())
    {
      if id !in sessions { return Err(NotFound); }
      var previous := State(sessions, outbox, dead, events);
      var session := sessions[id];
      var messages := Compact(session.messages + [message]);
      session := session.(messages := messages, updated := now);
      if preserveWorking {
        session := session.(status := WORKING);
        if session.reservationUntil.Some? {
          session := session.(reservationUntil := Some(SaturatingAdd(now, TUI_RESERVATION_TTL)));
        }
      } else if session.status != CANCELLED || resumeCancelled {
        session := session.(status := IDLE, reservationUntil := None, reservationOwner := None);
      }
      sessions := sessions[id := session];
      r := Save(previous, saved);
    }

    method AppendNotice(id: string, message: Message, now: nat, saved: bool) returns (r: Result<(), StoreError>)
      modifies this
      ensures (Model(), r) == Concluded(old(Model()), AppendNoticeStep(old(Model()), id, message, now), saved)
      ensures r.Ok? ==> id in old(sessions) && sessions[id] == old(sessions)[id].(messages := sessions[id].messages, updated := now)
    {
      if id !in sessions || message.session != id { return Err(NotFound); }
      var previous := State(sessions, outbox, dead, events);
      var messages := Compact(sessions[id].messages + [message]);
      sessions := sessions[id := sessions[id].(messages := messages, updated := now)];
      r := Save(previous, saved);
    }

    method SetContextReserved(id: string, owner: string, context: seq<Message>, now: nat, saved: bool)
      returns (r: Result<(), StoreError>)
      modifies this
      ensures (Model(), r) == Concluded(old(Model()), SetContextReservedStep(old(Model()), id, owner, context, now), saved)
      ensures r.Ok? ==> id in old(sessions) && HeldBy(old(sessions)[id], owner) && HeldBy(sessions[id], owner) && sessions[id].compactedContext == Some(context)
    {
      if id !in sessions { return Err(NotFound); }
      var session := sessions[id];
      if session.inflight.Some? || session.status != WORKING || session.reservationOwner != Some(owner)
         || exists i :: 0 <= i < |context| && context[i].session != id {
        return Err(WouldBlock);
      }
      var previous := State(sessions, outbox, dead, events);
      var last := if session.messages == [] then None else Some(session.messages[|session.messages| - 1].id);
      sessions := sessions[id := session.(compactedThrough := last, compactedContext := Some(context), updated := now)];
      r := Save(previous, saved);
    }

    method ClearHistory(id: string, now: nat, saved: bool) returns (r: Result<(), StoreError>)
      modifies this
      ensures (Model(), r) == Concluded(old(Model()), ClearHistoryStep(old(Model()), id, now), saved)
      ensures r.Ok? ==> id in sessions && sessions[id].messages == [] && sessions[id].queued == old(sessions)[id].queued && sessions[id].inflight == old(sessions)[id].inflight
    {
      if id !in sessions { return Err(NotFound); }
      var previous := State(sessions, outbox, dead, events);
      sessions := sessions[id := sessions[id].(messages := [], compactedThrough := None, compactedContext := None, updated := now)];
      r := Save(previous, saved);
    }

    // ---------- Turns ----------

    method Queue(id: string, message: Message, roles: seq<string>, now: nat, saved: bool) returns (r: Result<(), StoreError>)
      modifies this
      ensures (Model(), r) == Concluded(old(Model()), QueueStep(old(Model()), id, message, roles, now), saved)
      ensures r.Ok? ==> id in sessions && Contains(sessions[id].queued, message.id) && sessions[id].inflight == old(sessions)[id].inflight
    {
      if id !in sessions { return Err(NotFound); }
      var session := sessions[id];
      if Contains(session.queued, message.id) { return Ok(()); }
      if |session.queued| + (if session.inflight.Some? then 1 else 0) >= LIMIT { return Err(WouldBlock); }
      var previous := State(sessions, outbox, dead, events);
      if roles == [] {
        session := session.(queueRoles := session.queueRoles - {message.id});
      } else {
        session := session.(queueRoles := session.queueRoles[message.id := roles]);
      }
      assert (session.queued + [message])[|session.queued|] == message;
      session := session.(queued := session.queued + [message]);
      if session.status == CANCELLED {
        session := session.(status := IDLE, reservationUntil := None, reservationOwner := None);
      }
      sessions := sessions[id := session.(updated := now)];
      r := Save(previous, saved);
    }

    method Begin(id: string, message: Message, roles: seq<string>, deferred: Option<(string, string)>, now: nat, saved: bool)
      returns (r: Result<(), StoreError>)
      modifies this
      ensures (Model(), r) == Concluded(old(Model()), BeginStep(old(Model()), id, message, roles, deferred, now), saved)
      ensures r.Ok? ==>
        && id in sessions && old(sessions)[id].inflight.None? && !HasLiveReservation(old(sessions)[id], now)
        && sessions[id].inflight == Some(message) && sessions[id].status == WORKING && sessions[id].reservationOwner.None?
    {
      if id !in sessions { return Err(NotFound); }
      var session := sessions[id];
      if HasLiveReservation(session, now) || session.inflight.Some?
         || (session.status == WORKING && !Contains(session.queued, message.id)) {
        return Err(WouldBlock);
      }
      var previous := State(sessions, outbox, dead, events);
      if deferred.Some? {
        events := Events.Undefer(events, deferred.value.0, message.id, deferred.value.1);
      }
      session := Lease(session, message, roles, now);
      sessions := sessions[id := session];
      r := Save(previous, saved);
    }

    /** Takes the message off the queue and puts it in flight. */
    method Lease(from: Session, message: Message, roles: seq<string>, now: nat) returns (session: Session)
      ensures session == Begun(from, message, roles, now)
    {
      session := from;
      var queued := Unqueue(session.queued, message.id);
      session := session.(queued := queued);
      var queuedRoles := [];
      if message.id in session.queueRoles {
        queuedRoles := session.queueRoles[message.id];
        session := session.(queueRoles := session.queueRoles - {message.id});
      } else {
        assert session.queueRoles - {message.id} == session.queueRoles;
      }
      if !Contains(session.messages, message.id) {
        var messages := Compact(session.messages + [message]);
        session := session.(messages := messages);
      }
      session := session.(inflight := Some(message), inflightRoles := if roles == [] then queuedRoles else roles);
      session := session.(streamDelivery := None, phase := Safe, status := WORKING);
      session := session.(reservationUntil := None, reservationOwner := None, updated := now);
    }

    method Unqueue(messages: seq<Message>, id: string) returns (rest: seq<Message>)
      ensures rest == WithoutFirst(messages, id)
    {
      rest := messages;
      var index := Position(messages, id);
      if index < |messages| {
        rest := messages[..index] + messages[index + 1..];
      }
    }

    method Position(messages: seq<Message>, id: string) returns (i: nat)
      ensures i == IndexOf(messages, id)
    {
      i := 0;
      while i < |messages| && messages[i].id != id
        invariant i <= |messages| && IndexOf(messages, id) == i + IndexOf(messages[i..], id)
      {
        assert messages[i..][1..] == messages[i + 1..];
        i := i + 1;
      }
    }

    method Clear(id: string, status: string, now: nat, saved: bool) returns (r: Result<(), StoreError>)
      modifies this
      ensures (Model(), r) == Concluded(old(Model()), ClearStep(old(Model()), id, status, now), saved)
      ensures r.Ok? ==> id in sessions && sessions[id].inflight.None? && sessions[id].status == status && sessions[id].reservationOwner.None?
    {
      if id !in sessions { return Err(NotFound); }
      var previous := State(sessions, outbox, dead, events);
      var session := sessions[id];
      var delivery := session.streamDelivery;
      session := session.(streamDelivery := None, inflight := None, inflightRoles := []);
      if status == CANCELLED {
        session := session.(queued := [], queueRoles := map[]);
      }
      session := session.(phase := Safe, status := status, reservationUntil := None, reservationOwner := None, updated := now);
      sessions := sessions[id := session];
      EndStream(delivery, now);
      r := Save(previous, saved);
    }

    method EndStream(delivery: Option<string>, now: nat)
      modifies this`outbox
      ensures outbox == EndedStream(old(outbox), delivery, now)
    {
      if delivery.Some? {
        var i := DeliveryPosition(outbox, delivery.value);
        if i < |outbox| && outbox[i].status in {Sending, Streaming} {
          outbox := outbox[i := outbox[i].(
            status := Uncertain, lastError := Some("The turn ended before streaming completed."), updated := now)];
        }
      }
    }

    method DeliveryPosition(deliveries: seq<Delivery>, id: string) returns (i: nat)
      ensures i == DeliveryIndex(deliveries, id)
    {
      i := 0;
      while i < |deliveries| && deliveries[i].id != id
        invariant i <= |deliveries| && DeliveryIndex(deliveries, id) == i + DeliveryIndex(deliveries[i..], id)
      {
        assert deliveries[i..][1..] == deliveries[i + 1..];
        i := i + 1;
      }
    }

    method Reply(id: string, message: Message, delivery: string, channel: string, chat: string, thread: Option<string>,
                 text: string, now: nat, saved: bool) returns (r: Result<(), StoreError>)
      modifies this
      ensures (Model(), r) == Concluded(old(Model()), ReplyStep(old(Model()), id, message, delivery, channel, chat, thread, text, now), saved)
      ensures r.Ok? ==> id in sessions && sessions[id].inflight.None? && sessions[id].status == IDLE && HasDelivery(outbox, delivery)
    {
      if id !in sessions { return Err(NotFound); }
      var session := sessions[id];
      var i := DeliveryPosition(outbox, delivery);
      if i == |outbox| && |outbox| >= LIMIT { return Err(WouldBlock); }
      var previous := State(sessions, outbox, dead, events);
      var route := Route(channel, chat, session.isPrivate, thread);
      var replied := EndTurn(session, message, now);
      sessions := sessions[id := replied];
      Answer(delivery, session.streamDelivery == Some(delivery), route, text, now);
      r := Save(previous, saved);
    }

    method Answer(delivery: string, completing: bool, route: Route, text: string, now: nat)
      modifies this`outbox
      ensures outbox == RepliedOutbox(old(outbox), delivery, completing, route, text, now) && HasDelivery(outbox, delivery)
    {
      var i := DeliveryPosition(outbox, delivery);
      if i == |outbox| {
        AddedIsThere(outbox, NewDelivery(delivery, route, text, Pending, now));
        outbox := outbox + [NewDelivery(delivery, route, text, Pending, now)];
      } else if completing {
        UpdatedIsThere(outbox, CompletedStream(outbox[i], route, text, now));
        CompleteStream(i, route, text, now);
      }
    }

    method EndTurn(from: Session, message: Message, now: nat) returns (session: Session)
      ensures session == Replied(from, message, now)
    {
      var messages := Compact(from.messages + [message]);
      session := from.(messages := messages, updated := now, status := IDLE, reservationUntil := None, reservationOwner := None);
      session := session.(inflight := None, inflightRoles := [], streamDelivery := None, phase := Safe);
    }

    method CompleteStream(i: nat, route: Route, text: string, now: nat)
      requires i < |outbox|
      modifies this`outbox
      ensures outbox == old(outbox)[i := CompletedStream(old(outbox)[i], route, text, now)]
    {
      var d := outbox[i];
      var uncertain := d.status in {Sending, Uncertain};
      d := d.(route := route, text := text, status := if uncertain then Uncertain else Pending);
      if !uncertain {
        d := d.(lastError := None);
      }
      outbox := outbox[i := d.(updated := now)];
    }

    method StartStream(id: string, delivery: string, channel: string, chat: string, thread: Option<string>, text: string,
                       now: nat, saved: bool) returns (r: Result<(), StoreError>)
      modifies this
      ensures (Model(), r) == Concluded(old(Model()), StartStreamStep(old(Model()), id, delivery, channel, chat, thread, text, now), saved)
      ensures r.Ok? ==>
        && id in sessions && sessions[id].streamDelivery == Some(delivery) && sessions[id].phase == Unsafe
        && !HasDelivery(old(outbox), delivery) && |outbox| == |old(outbox)| + 1 <= LIMIT
    {
      if id !in sessions { return Err(NotFound); }
      var session := sessions[id];
      if session.inflight.None? || session.streamDelivery.Some? { return Err(WouldBlock); }
      var i := DeliveryPosition(outbox, delivery);
      if i < |outbox| { return Err(AlreadyExists); }
      if |outbox| >= LIMIT { return Err(WouldBlock); }
      var previous := State(sessions, outbox, dead, events);
      sessions := sessions[id := session.(phase := Unsafe, streamDelivery := Some(delivery), updated := now)];
      outbox := outbox + [NewDelivery(delivery, Route(channel, chat, session.isPrivate, thread), text, Sending, now)];
      r := Save(previous, saved);
    }

    method SetStatus(id: string, status: string, now: nat, saved: bool) returns (r: Result<(), StoreError>)
      modifies this
      ensures (Model(), r) == Concluded(old(Model()), SetStatusStep(old(Model()), id, status, now), saved)
      ensures r.Ok? ==>
        && id in sessions && sessions[id].inflight == old(sessions)[id].inflight
        && (sessions[id].status == status || (sessions[id] == old(sessions)[id] && Busy(sessions[id])))
    {
      if id !in sessions { return Err(NotFound); }
      var previous := State(sessions, outbox, dead, events);
      var session := sessions[id];
      session := Restatus(session, status, now);
      sessions := sessions[id := session];
      r := Save(previous, saved);
    }

    method Restatus(from: Session, status: string, now: nat) returns (session: Session)
      ensures session == Restatused(from, status, now)
    {
      session := from;
      if !(session.status == CANCELLED && session.inflight.Some? && status != CANCELLED) {
        if status == CANCELLED {
          session := session.(queued := [], queueRoles := map[]);
        }
        session := session.(status := status);
        if status != WORKING {
          session := session.(reservationUntil := None, reservationOwner := None);
        }
        session := session.(updated := now);
      }
    }

    /** Cancelling keeps a turn in flight until it ends itself, and empties the queue either way. */
    method Cancel(id: string, now: nat, saved: bool) returns (r: Result<(), StoreError>)
      modifies this
      ensures var step := if id in old(sessions) && old(sessions)[id].inflight.Some? then SetStatusStep(old(Model()), id, CANCELLED, now)
                          else ClearStep(old(Model()), id, CANCELLED, now);
              (Model(), r) == Concluded(old(Model()), step, saved)
      ensures r.Ok? ==>
        && id in sessions && sessions[id].status == CANCELLED && sessions[id].queued == []
        && sessions[id].inflight == old(sessions)[id].inflight && sessions[id].reservationOwner.None?
    {
      var active := id in sessions && sessions[id].inflight.Some?;
      if active {
        r := SetStatus(id, CANCELLED, now, saved);
      } else {
        r := Clear(id, CANCELLED, now, saved);
      }
    }

    method SetPhase(id: string, phase: Phase, now: nat, saved: bool) returns (r: Result<(), StoreError>)
      modifies this
      ensures (Model(), r) == Concluded(old(Model()), SetPhaseStep(old(Model()), id, phase, now), saved)
      ensures r.Ok? ==> id in sessions && sessions[id].phase == phase && (sessions[id].inflight.Some? || HasLiveReservation(old(sessions)[id], now))
    {
      if id !in sessions { return Err(NotFound); }
      if sessions[id].inflight.None? && !HasLiveReservation(sessions[id], now) { return Err(InvalidInput); }
      var previous := State(sessions, outbox, dead, events);
      sessions := sessions[id := sessions[id].(phase := phase, updated := now)];
      r := Save(previous, saved);
    }

    // ---------- Reservations ----------

    method Reserve(id: string, owner: string, now: nat, saved: bool) returns (r: Result<(), StoreError>)
      modifies this
      ensures (Model(), r) == Concluded(old(Model()), ReserveStep(old(Model()), id, owner, now), saved)
      ensures r.Ok? ==> id in old(sessions) && !Busy(old(sessions)[id]) && HeldBy(sessions[id], owner)
    {
      if id !in sessions { return Err(NotFound); }
      var session := sessions[id];
      if session.inflight.Some? || session.status == WORKING { return Err(WouldBlock); }
      var previous := State(sessions, outbox, dead, events);
      session := session.(status := WORKING, reservationUntil := Some(SaturatingAdd(now, TUI_RESERVATION_TTL)));
      sessions := sessions[id := session.(reservationOwner := Some(owner), updated := now)];
      r := Save(previous, saved);
    }

    method RecoverReservations(now: nat, saved: bool) returns (r: Result<(), StoreError>)
      modifies this
      ensures (Model(), r) == Concluded(old(Model()), RecoverReservationsStep(old(Model()), now), saved)
      ensures r.Ok? ==> forall id :: id in sessions ==> !Overdue(sessions[id], now) && sessions[id].inflight == old(sessions)[id].inflight
    {
      if !exists id :: id in sessions && Overdue(sessions[id], now) { return Ok(()); }
      var previous := State(sessions, outbox, dead, events);
      ReleaseOverdue(now);
      r := Save(previous, saved);
    }

    method ReleaseOverdue(now: nat)
      modifies this`sessions
      ensures sessions == ReleaseAll(old(sessions), now)
    {
      var left := sessions.Keys;
      while left != {}
        invariant left <= sessions.Keys == old(sessions).Keys
        invariant forall id :: id in left ==> sessions[id] == old(sessions)[id]
        invariant forall id :: id in sessions && id !in left ==> sessions[id] == Released(old(sessions)[id], now)
      {
        var id :| id in left;
        var session := sessions[id];
        if session.status == WORKING && session.inflight.None?
           && ReservationExpired(session.reservationUntil, session.updated, now) {
          sessions := sessions[id := session.(status := IDLE, reservationUntil := None, reservationOwner := None, updated := now)];
        }
        left := left - {id};
      }
    }

    method Renew(id: string, owner: string, now: nat, saved: bool) returns (r: Result<(), StoreError>)
      modifies this
      ensures (Model(), r) == Concluded(old(Model()), RenewStep(old(Model()), id, owner, now), saved)
      ensures r.Ok? ==> id in old(sessions) && HeldBy(old(sessions)[id], owner) && HeldBy(sessions[id], owner)
    {
      if id !in sessions { return Err(NotFound); }
      var session := sessions[id];
      if session.status != WORKING || session.inflight.Some? || session.reservationUntil.None?
         || session.reservationOwner != Some(owner) {
        return Err(WouldBlock);
      }
      var previous := State(sessions, outbox, dead, events);
      sessions := sessions[id := session.(reservationUntil := Some(SaturatingAdd(now, TUI_RESERVATION_TTL)))];
      r := Save(previous, saved);
    }

    // ---------- Deliveries ----------

    method QueueDelivery(delivery: string, route: Route, text: string, now: nat, saved: bool) returns (r: Result<(), StoreError>)
      modifies this
      ensures (Model(), r) == Concluded(old(Model()), QueueDeliveryStep(old(Model()), delivery, route, text, now), saved)
      ensures r.Ok? ==> HasDelivery(outbox, delivery) && |outbox| <= LIMIT
    {
      if |outbox| >= LIMIT { return Err(WouldBlock); }
      var previous := State(sessions, outbox, dead, events);
      var i := DeliveryPosition(outbox, delivery);
      if i == |outbox| {
        AddedIsThere(outbox, NewDelivery(delivery, route, text, Pending, now));
        outbox := outbox + [NewDelivery(delivery, route, text, Pending, now)];
      }
      r := Save(previous, saved);
    }

    /** What the updates of one delivery share. */
    method UpdateDelivery(delivery: string, status: DeliveryStatus, error: Option<string>, detail: Detail, now: nat, saved: bool)
      returns (r: Result<(), StoreError>)
      modifies this
      ensures (Model(), r) == Concluded(old(Model()), MarkStep(old(Model()), delivery, status, error, detail, now), saved)
    {
      var i := DeliveryPosition(outbox, delivery);
      if i == |outbox| { return Err(NotFound); }
      var previous := State(sessions, outbox, dead, events);
      var d := outbox[i];
      match detail {
        case Nothing =>
        case Text(text) => d := d.(text := text);
        case SentAs(messageId) => d := d.(messageId := Some(messageId));
      }
      outbox := outbox[i := d.(status := status, lastError := error, updated := now)];
      r := Save(previous, saved);
    }

    method StreamSending(delivery: string, text: string, now: nat, saved: bool) returns (r: Result<(), StoreError>)
      modifies this
      ensures (Model(), r) == Concluded(old(Model()), MarkStep(old(Model()), delivery, Sending, None, Text(text), now), saved)
    {
      r := UpdateDelivery(delivery, Sending, None, Text(text), now, saved);
    }

    method StreamStarted(delivery: string, messageId: string, now: nat, saved: bool) returns (r: Result<(), StoreError>)
      modifies this
      ensures (Model(), r) == Concluded(old(Model()), MarkStep(old(Model()), delivery, Streaming, None, SentAs(messageId), now), saved)
    {
      r := UpdateDelivery(delivery, Streaming, None, SentAs(messageId), now, saved);
    }

    method StreamUpdated(delivery: string, now: nat, saved: bool) returns (r: Result<(), StoreError>)
      modifies this
      ensures (Model(), r) == Concluded(old(Model()), MarkStep(old(Model()), delivery, Streaming, None, Nothing, now), saved)
    {
      r := UpdateDelivery(delivery, Streaming, None, Nothing, now, saved);
    }

    method MarkSending(delivery: string, now: nat, saved: bool) returns (r: Result<(), StoreError>)
      modifies this
      ensures (Model(), r) == Concluded(old(Model()), MarkStep(old(Model()), delivery, Sending, None, Nothing, now), saved)
    {
      r := UpdateDelivery(delivery, Sending, None, Nothing, now, saved);
    }

    method MarkUncertain(delivery: string, error: string, now: nat, saved: bool) returns (r: Result<(), StoreError>)
      modifies this
      ensures (Model(), r) == Concluded(old(Model()), MarkStep(old(Model()), delivery, Uncertain, Some(error), Nothing, now), saved)
    {
      r := UpdateDelivery(delivery, Uncertain, Some(error), Nothing, now, saved);
    }

    method RetryDelivery(delivery: string, now: nat, saved: bool) returns (r: Result<(), StoreError>)
      modifies this
      ensures (Model(), r) == Concluded(old(Model()), RetryStep(old(Model()), delivery, now), saved)
      ensures r.Ok? ==> HasDelivery(old(outbox), delivery) && FindDelivery(old(outbox), delivery).status == Uncertain && outbox[DeliveryIndex(old(outbox), delivery)].status == Pending
    {
      var i := DeliveryPosition(outbox, delivery);
      if i == |outbox| { return Err(NotFound); }
      if outbox[i].status != Uncertain { return Err(InvalidInput); }
      r := UpdateDelivery(delivery, Pending, None, Nothing, now, saved);
    }

    method Ack(delivery: string, saved: bool) returns (r: Result<(), StoreError>)
      modifies this
      ensures (Model(), r) == Concluded(old(Model()), AckStep(old(Model()), delivery), saved)
      ensures r.Ok? && DistinctDeliveries(old(outbox)) ==> !HasDelivery(outbox, delivery)
    {
      var i := DeliveryPosition(outbox, delivery);
      if i == |outbox| { return Ok(()); }
      var previous := State(sessions, outbox, dead, events);
      outbox := outbox[..i] + outbox[i + 1..];
      r := Save(previous, saved);
    }

    /** Moves a delivery to the dead letters, of which the last hundred are kept. */
    method Dead(delivery: string, saved: bool) returns (r: Result<(), StoreError>)
      modifies this
      ensures (Model(), r) == Concluded(old(Model()), DeadStep(old(Model()), delivery), saved)
      ensures r.Ok? && DistinctDeliveries(old(outbox)) ==> !HasDelivery(outbox, delivery)
    {
      var i := DeliveryPosition(outbox, delivery);
      if i == |outbox| { return Ok(()); }
      var previous := State(sessions, outbox, dead, events);
      var d := outbox[i];
      outbox := outbox[..i] + outbox[i + 1..];
      Bury(d);
      r := Save(previous, saved);
    }

    method Bury(d: Delivery)
      modifies this`dead
      ensures dead == Recent(old(dead) + [d])
    {
      dead := dead + [d];
      if |dead| > LIMIT {
        dead := dead[|dead| - LIMIT..];
      }
    }

    /** What an operator drops must be there. */
    method DropDelivery(delivery: string, saved: bool) returns (r: Result<(), StoreError>)
      modifies this
      ensures if HasDelivery(old(outbox), delivery)
              then (Model(), r) == Concluded(old(Model()), DeadStep(old(Model()), delivery), saved)
              else Model() == old(Model()) && r == Err(NotFound)
    {
      var i := DeliveryPosition(outbox, delivery);
      if i == |outbox| { return Err(NotFound); }
      r := Dead(delivery, saved);
    }

    // ---------- Channel events ----------

    method DeferEvent(channel: string, event: Events.Event, fits: bool, saved: bool) returns (r: Result<(), StoreError>)
      modifies this
      ensures (Model(), r) == Concluded(old(Model()), DeferStep(old(Model()), channel, event, fits), saved)
      ensures r.Ok? ==> Events.Waits(Events.Deferred(events, channel), event.id)
    {
      var waiting := if channel in events.deferred then events.deferred[channel] else [];
      if Events.Waits(waiting, event.id) { return Ok(()); }
      if |waiting| >= Events.DEFERRED_LIMIT { return Err(WouldBlock); }
      if !fits { return Err(WouldBlock); }
      var previous := State(sessions, outbox, dead, events);
      events := events.(deferred := events.deferred[channel := waiting + [event]]);
      assert events.deferred[channel][|waiting|] == event;
      r := Save(previous, saved);
    }

    method AcknowledgeEvent(channel: string, eventId: string, key: string, saved: bool) returns (r: Result<(), StoreError>)
      modifies this
      ensures (Model(), r) == Concluded(old(Model()), AcknowledgeStep(old(Model()), channel, eventId, key), saved)
      ensures r.Ok? && Events.HasDeferred(old(events), channel, eventId) ==> key in events.acknowledged
    {
      if key in events.acknowledged || !Events.HasDeferred(events, channel, eventId) { return Ok(()); }
      var previous := State(sessions, outbox, dead, events);
      events := events.(acknowledged := events.acknowledged + {key});
      r := Save(previous, saved);
    }

    method CommitEvent(channel: string, eventId: string, key: string, offset: Option<int>, retained: bool, now: nat, saved: bool)
      returns (r: Result<(), StoreError>)
      modifies this
      ensures (Model(), r) == Concluded(old(Model()), CommitStep(old(Model()), channel, eventId, key, offset, retained, now), saved)
      ensures r.Ok? ==> key in events.seen && |events.seen| <= Events.SEEN_LIMIT
      ensures r.Ok? && !retained ==> !Events.HasDeferred(events, channel, eventId)
    {
      Events.CommitMeaning(events, channel, eventId, key, offset, retained, now);
      var previous := State(sessions, outbox, dead, events);
      events := Events.Settle(events, channel, eventId, key, offset, retained, now);
      r := Save(previous, saved);
    }
  }
}
