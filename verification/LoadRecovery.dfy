/** Loading the session store from its flat file: what a restart does to turns, reservations and
    deliveries that the last run left behind. */
module LoadRecovery {
  import opened Wrappers
  import opened Messages
  import opened Compaction
  import opened Ages
  import opened StoreModel
  import opened StoreInvariants
  import Events = ChannelEvents

  datatype LoadError = InvalidData

  // ---------- One session ----------

  predicate Rejected(key: string, s: Session) {
    !ValidId(key) || s.id != key || (s.inflight.Some? && |s.queued| > LIMIT)
  }

  function RolesOf(queued: seq<Message>, roles: map<string, seq<string>>): map<string, seq<string>> {
    map id | id in roles && Contains(queued, id) :: roles[id]
  }

  function Bounded(s: Session): seq<Message> {
    if |s.queued| > LIMIT && s.inflight.None? then s.queued[|s.queued| - LIMIT..] else s.queued
  }

  function Tidied(s: Session): Session {
    s.(messages := Compacted(s.messages), queued := Bounded(s), queueRoles := RolesOf(Bounded(s), s.queueRoles))
  }

  predicate HoldsReservation(s: Session) {
    s.status == WORKING && s.inflight.None? && s.reservationUntil.Some?
  }

  /** The turn in flight is given another try. */
  predicate Requeues(s: Session) {
    s.inflight.Some? && s.status != CANCELLED && s.phase == Safe
  }

  function Interrupted(s: Session): Session {
    var stopped := s.(inflight := None, inflightRoles := [], streamDelivery := None, phase := Safe,
                      status := INTERRUPTED, reservationUntil := None, reservationOwner := None);
    if Requeues(s) then
      stopped.(
        queued := [s.inflight.value] + s.queued,
        queueRoles := if s.inflightRoles == [] then s.queueRoles else s.queueRoles[s.inflight.value.id := s.inflightRoles])
    else stopped
  }

  function Recovered(s: Session): Session {
    var t := Tidied(s);
    if !HoldsReservation(t) && Busy(t) then Interrupted(t) else t
  }

  // ---------- Deliveries ----------

  const STOPPED := "The daemon stopped during channel delivery."

  predicate IsSending(d: Delivery) {
    d.status in {Sending, Streaming}
  }

  function Dated(d: Delivery): Delivery {
    if d.updated == 0 then d.(updated := d.created) else d
  }

  function Settled(d: Delivery, now: nat): Delivery {
    if IsSending(d) then Dated(d).(status := Uncertain, lastError := Some(STOPPED), updated := now) else Dated(d)
  }

  function AllSettled(outbox: seq<Delivery>, now: nat): (r: seq<Delivery>)
    ensures |r| == |outbox| && forall i :: 0 <= i < |r| ==> r[i] == Settled(outbox[i], now)
  {
    seq(|outbox|, i requires 0 <= i < |outbox| => Settled(outbox[i], now))
  }

  // ---------- The whole store ----------

  function Excess(n: nat, limit: nat): nat {
    if n > limit then n - limit else 0
  }

  function Times(sessions: map<string, Session>, scheduled: bool): map<string, nat> {
    map id | id in sessions && sessions[id].scheduled == scheduled :: sessions[id].updated
  }

  function Capacity(scheduled: bool): nat {
    if scheduled then SCHEDULE_SESSION_LIMIT else LIMIT
  }

  /** The sessions of one kind beyond its limit, least recently updated first. */
  ghost function DiscardedOf(sessions: map<string, Session>, scheduled: bool): set<string> {
    var times := Times(sessions, scheduled);
    Oldest(times, Excess(|times|, Capacity(scheduled)))
  }

  ghost function Discarded(sessions: map<string, Session>): set<string> {
    DiscardedOf(sessions, false) + DiscardedOf(sessions, true)
  }

  ghost function Pruned(sessions: map<string, Session>): map<string, Session> {
    sessions - Discarded(sessions)
  }

  function RecoveredAll(sessions: map<string, Session>): map<string, Session> {
    map id | id in sessions :: Recovered(sessions[id])
  }

  predicate Acceptable(sessions: map<string, Session>) {
    forall id :: id in sessions ==> !Rejected(id, sessions[id])
  }

  function LoadedOutbox(outbox: seq<Delivery>, now: nat): seq<Delivery> {
    Recent(AllSettled(outbox, now))
  }

  ghost function LoadedSessions(sessions: map<string, Session>): map<string, Session> {
    Pruned(RecoveredAll(sessions))
  }

  ghost function LoadedEvents(e: Events.EventState): Events.EventState {
    e.(offsets := Events.Bounded(e.offsets, LIMIT), seen := Events.Trimmed(e.seen, None))
  }

  ghost function Loaded(stored: State, now: nat): State {
    State(LoadedSessions(stored.sessions), LoadedOutbox(stored.outbox, now), Recent(stored.dead), LoadedEvents(stored.events))
  }

  // ---------- What recovery does to a session ----------

  /** No turn stays in flight. The leased message is back at the head of the queue, with its roles,
      exactly when its phase is safe and it was not cancelled; otherwise the queue is as it was. */
  lemma RecoveredTurn(key: string, s: Session)
    requires !Rejected(key, s) && s.inflight.Some?
    ensures var r := Recovered(s);
      && r.inflight.None? && r.streamDelivery.None? && r.status == INTERRUPTED && r.reservationOwner.None?
      && r.queued == (if s.phase == Safe && s.status != CANCELLED then [s.inflight.value] else []) + s.queued
      && forall id :: id in r.queueRoles <==>
           || (id in s.queueRoles && Contains(s.queued, id))
           || (s.phase == Safe && s.status != CANCELLED && s.inflightRoles != [] && id == s.inflight.value.id)
    ensures s.phase == Safe && s.status != CANCELLED && s.inflightRoles != [] ==>
      Recovered(s).queueRoles[s.inflight.value.id] == s.inflightRoles
  {}

  /** A reservation with a deadline survives, together with its owner; nothing but history length,
      queue length and left-over roles can change. */
  lemma ReservationSurvives(s: Session)
    requires HoldsReservation(s)
    ensures Recovered(s) == s.(messages := Compacted(s.messages), queued := Bounded(s), queueRoles := RolesOf(Bounded(s), s.queueRoles))
    ensures QueueInv(s) ==> Recovered(s) == s.(messages := Compacted(s.messages))
  {
    if QueueInv(s) {
      assert RolesOf(s.queued, s.queueRoles) == s.queueRoles;
    }
  }

  /** Whatever the session, a recovery keeps who it is, when it was used and its context, and compacts its
      history. */
  lemma RecoveredKeeps(s: Session)
    ensures var r := Recovered(s);
      && r.id == s.id && r.scheduled == s.scheduled && r.channel == s.channel && r.isPrivate == s.isPrivate && r.updated == s.updated
      && r.compactedContext == s.compactedContext && r.compactedThrough == s.compactedThrough
      && exists cut :: IsCut(s.messages, cut) && r.messages == Kept(s.messages, cut)
  {
    var cut := CompactionMeaning(s.messages);
  }

  /** A turn, or a claim without a deadline, is interrupted; any other state stays. */
  lemma RecoveredState(s: Session)
    ensures var r := Recovered(s);
      if s.inflight.Some? || (s.status == WORKING && s.reservationUntil.None?) then
           && r.inflight.None? && r.inflightRoles == [] && r.streamDelivery.None? && r.phase == Safe
           && r.status == INTERRUPTED && r.reservationOwner.None? && r.reservationUntil.None?
         else
           && r.inflight.None? && r.inflightRoles == s.inflightRoles && r.streamDelivery == s.streamDelivery && r.phase == s.phase
           && r.status == s.status && r.reservationOwner == s.reservationOwner && r.reservationUntil == s.reservationUntil
  {}

  /** The last hundred messages stay queued when no turn was in flight, and every message that stays keeps its
      roles. */
  lemma RecoveredQueue(key: string, s: Session)
    requires !Rejected(key, s)
    ensures s.inflight.None? ==>
      |Recovered(s).queued| == Min(|s.queued|, LIMIT) && Recovered(s).queued == s.queued[|s.queued| - |Recovered(s).queued|..]
    ensures forall id :: Contains(Recovered(s).queued, id) && !(s.inflight.Some? && s.inflight.value.id == id) ==>
      SameRoles(s.queueRoles, Recovered(s).queueRoles, id)
  {
    forall id | Contains(Recovered(s).queued, id) && !(s.inflight.Some? && s.inflight.value.id == id)
      ensures SameRoles(s.queueRoles, Recovered(s).queueRoles, id)
    {
      WasQueued(key, s, Recovered(s), id);
    }
  }

  predicate SameRoles(before: map<string, seq<string>>, after: map<string, seq<string>>, id: string) {
    (id in after <==> id in before) && (id in after ==> after[id] == before[id])
  }

  lemma WasQueued(key: string, s: Session, r: Session, id: string)
    requires !Rejected(key, s) && r == Recovered(s)
    requires Contains(r.queued, id) && !(s.inflight.Some? && s.inflight.value.id == id)
    ensures SameRoles(s.queueRoles, r.queueRoles, id)
  {
    var k :| 0 <= k < |r.queued| && r.queued[k].id == id;
    assert Contains(Bounded(s), id) by {
      if r.queued != Bounded(s) { assert s.queued[k - 1].id == id; }
    }
  }

  lemma RolesStay(queued: seq<Message>, roles: map<string, seq<string>>)
    ensures RolesOf(queued, RolesOf(queued, roles)) == RolesOf(queued, roles)
  {}

  /** A session is settled by one recovery, unless its turn joins a queue that is already full: the
      next recovery then drops that very message again. */
  lemma RecoveredSettles(key: string, s: Session)
    requires !Rejected(key, s)
    ensures !Rejected(key, Recovered(s))
    ensures Recovered(Recovered(s)) == Recovered(s) <==> !(Requeues(s) && |s.queued| == LIMIT)
  {
    if Requeues(s) {
      RequeuedSettles(key, s);
    } else {
      OtherSettles(key, s);
    }
  }

  lemma OtherSettles(key: string, s: Session)
    requires !Rejected(key, s) && !Requeues(s)
    ensures !Rejected(key, Recovered(s)) && Recovered(Recovered(s)) == Recovered(s)
  {
    CompactionSettles(s.messages);
    RolesStay(Bounded(s), s.queueRoles);
  }

  lemma RequeuedSettles(key: string, s: Session)
    requires !Rejected(key, s) && Requeues(s)
    ensures !Rejected(key, Recovered(s))
    ensures Recovered(Recovered(s)) == Recovered(s) <==> |s.queued| != LIMIT
  {
    CompactionSettles(s.messages);
    RequeuedRoles(s);
    var r := Recovered(s);
    assert |r.queued| == |s.queued| + 1 && r.inflight.None? && r.status == INTERRUPTED;
    if |s.queued| == LIMIT {
      assert |Recovered(r).queued| != |r.queued|;
    }
  }

  lemma RequeuedRoles(s: Session)
    requires Requeues(s)
    ensures RolesOf(Recovered(s).queued, Recovered(s).queueRoles) == Recovered(s).queueRoles
  {
    var r := Recovered(s);
    forall id | id in r.queueRoles ensures Contains(r.queued, id) {
      if Contains(s.queued, id) {
        var i :| 0 <= i < |s.queued| && s.queued[i].id == id;
        assert r.queued[i + 1].id == id;
      } else {
        assert r.queued[0].id == id;
      }
    }
  }

  /** The turn that met a full queue is gone after a second restart. */
  lemma FullQueueLosesTurn(key: string, s: Session)
    requires !Rejected(key, s) && Requeues(s) && |s.queued| == LIMIT
    ensures Recovered(s).queued == [s.inflight.value] + s.queued
    ensures Recovered(Recovered(s)).queued == s.queued
  {}

  /** Such a session is one step away from any idle session with a full queue. */
  lemma FullQueueReachable(s: State, id: string, message: Message, now: nat)
    requires Inv(s) && id in s.sessions && s.sessions[id].status == IDLE && s.sessions[id].inflight.None?
    requires |s.sessions[id].queued| == LIMIT && !Contains(s.sessions[id].queued, message.id)
    ensures Step(s, Begin(id, message, [], None), now).Change?
    ensures var begun := Step(s, Begin(id, message, [], None), now).state.sessions[id];
            !Rejected(id, begun) && Requeues(begun) && begun.inflight == Some(message) && |begun.queued| == LIMIT
  {
    assert SessionInv(id, s.sessions[id]);
    IndexOfContains(s.sessions[id].queued, message.id);
  }

  // ---------- What recovery does to deliveries ----------

  /** Every delivery in the loaded outbox is a stored one; none is being sent; a pending one was
      pending, and an uncertain one was uncertain or being sent. */
  lemma DeliveriesSettled(outbox: seq<Delivery>, now: nat, i: nat)
    requires i < |LoadedOutbox(outbox, now)|
    ensures var d := LoadedOutbox(outbox, now)[i];
            var from := outbox[Excess(|outbox|, LIMIT) + i];
      && d == Settled(from, now)
      && !IsSending(d)
      && (d.status == Pending <==> from.status == Pending)
      && d.(status := from.status, lastError := from.lastError, updated := from.updated) == from
      && (if from.status == Pending || from.status == Uncertain
          then d.lastError == from.lastError && d.updated == (if from.updated == 0 then from.created else from.updated)
          else d.lastError.Some? && d.updated == now)
  {
    SettledStatus(outbox[Excess(|outbox|, LIMIT) + i], now);
  }

  lemma SettledStatus(d: Delivery, now: nat)
    ensures !IsSending(Settled(d, now)) && (Settled(d, now).status == Pending <==> d.status == Pending)
    ensures IsSending(d) <==> d.status != Pending && d.status != Uncertain
  {
    match d.status {
      case Pending => case Sending => case Streaming => case Uncertain =>
    }
  }

  // ---------- Limits ----------

  function OfKind(sessions: map<string, Session>, scheduled: bool): set<string> {
    set id | id in sessions && sessions[id].scheduled == scheduled
  }

  lemma Kinds(sessions: map<string, Session>)
    ensures OfKind(sessions, false) == Users(sessions) && OfKind(sessions, true) == Schedules(sessions)
  {}

  lemma TimesCount(sessions: map<string, Session>, scheduled: bool)
    ensures Times(sessions, scheduled).Keys == OfKind(sessions, scheduled)
    ensures |Times(sessions, scheduled)| == |OfKind(sessions, scheduled)|
  {
    var times := Times(sessions, scheduled);
    assert times.Keys == OfKind(sessions, scheduled);
    assert |times| == |times.Keys|;
  }

  /** Pruning leaves as many sessions of each kind as its limit allows. */
  lemma KeptSize(sessions: map<string, Session>, scheduled: bool)
    ensures |OfKind(Pruned(sessions), scheduled)| == Min(|OfKind(sessions, scheduled)|, Capacity(scheduled))
  {
    TimesCount(sessions, scheduled);
    TimesCount(sessions, !scheduled);
    var gone := DiscardedOf(sessions, scheduled);
    assert gone <= OfKind(sessions, scheduled) && |gone| == Excess(|OfKind(sessions, scheduled)|, Capacity(scheduled));
    assert DiscardedOf(sessions, !scheduled) <= OfKind(sessions, !scheduled);
    KeptOfKind(sessions, scheduled);
  }

  lemma KeptOfKind(sessions: map<string, Session>, scheduled: bool)
    requires DiscardedOf(sessions, !scheduled) <= OfKind(sessions, !scheduled)
    ensures OfKind(Pruned(sessions), scheduled) == OfKind(sessions, scheduled) - DiscardedOf(sessions, scheduled)
  {
    assert Discarded(sessions) == DiscardedOf(sessions, scheduled) + DiscardedOf(sessions, !scheduled);
  }

  lemma NothingDiscarded(sessions: map<string, Session>)
    requires |OfKind(sessions, false)| <= LIMIT && |OfKind(sessions, true)| <= SCHEDULE_SESSION_LIMIT
    ensures Discarded(sessions) == {} && Pruned(sessions) == sessions
  {
    TimesCount(sessions, false);
    TimesCount(sessions, true);
    assert DiscardedOf(sessions, false) == {} && DiscardedOf(sessions, true) == {};
  }

  /** A session is discarded only for newer ones of its kind. */
  lemma DiscardedAreOldest(sessions: map<string, Session>, gone: string, kept: string)
    requires gone in Discarded(sessions) && kept in Pruned(sessions)
    requires gone in sessions ==> sessions[gone].scheduled == sessions[kept].scheduled
    ensures gone in sessions && sessions[gone].updated <= sessions[kept].updated
  {
    var times := Times(sessions, sessions[kept].scheduled);
    var other := Times(sessions, !sessions[kept].scheduled);
    TimesCount(sessions, sessions[kept].scheduled);
    TimesCount(sessions, !sessions[kept].scheduled);
    if gone in DiscardedOf(sessions, sessions[kept].scheduled) {
      assert Older(times, gone, kept);
    }
  }

  lemma SameKinds(a: map<string, Session>, b: map<string, Session>)
    requires a.Keys == b.Keys && forall id :: id in a ==> a[id].scheduled == b[id].scheduled
    ensures forall scheduled :: OfKind(a, scheduled) == OfKind(b, scheduled)
  {}

  lemma RecoveredKinds(sessions: map<string, Session>, recovered: map<string, Session>)
    requires recovered == RecoveredAll(sessions)
    ensures forall scheduled :: OfKind(recovered, scheduled) == OfKind(sessions, scheduled)
  {
    forall id | id in sessions ensures sessions[id].scheduled == recovered[id].scheduled { RecoveredFields(sessions[id]); }
    SameKinds(recovered, sessions);
  }

  lemma RecoveredFields(s: Session)
    ensures Recovered(s).scheduled == s.scheduled && Recovered(s).id == s.id && Recovered(s).updated == s.updated
  {}

  lemma RecoveredBounds(key: string, s: Session)
    requires !Rejected(key, s)
    ensures !Rejected(key, Recovered(s)) && Recovered(s).inflight.None? && |Recovered(s).queued| <= LIMIT + 1
  {}

  lemma LoadedSessionBounds(sessions: map<string, Session>, id: string)
    requires Acceptable(sessions) && id in LoadedSessions(sessions)
    ensures var s := LoadedSessions(sessions)[id];
            s == Recovered(sessions[id]) && !Rejected(id, s) && s.inflight.None? && |s.queued| <= LIMIT + 1
  {
    RecoveredBounds(id, sessions[id]);
  }

  /** After a load no turn is in flight, no delivery is being sent, and every limit holds but one:
      a queue can hold a hundred messages and the recovered turn. */
  lemma LoadBounds(stored: State, now: nat, next: State)
    requires Acceptable(stored.sessions) && next == Loaded(stored, now)
    ensures Acceptable(next.sessions)
    ensures forall id :: id in next.sessions ==> next.sessions[id].inflight.None? && |next.sessions[id].queued| <= LIMIT + 1
    ensures |Users(next.sessions)| <= LIMIT && |Schedules(next.sessions)| <= SCHEDULE_SESSION_LIMIT
    ensures |next.outbox| <= LIMIT && |next.dead| <= LIMIT
    ensures |next.events.offsets| <= LIMIT && |next.events.seen| <= Events.SEEN_LIMIT
    ensures forall i :: 0 <= i < |next.outbox| ==> !IsSending(next.outbox[i])
  {
    EventsBound(stored.events);
    LoadedCounts(stored.sessions, next.sessions);
    SessionsBound(stored.sessions, next.sessions);
    forall i | 0 <= i < |next.outbox| ensures !IsSending(next.outbox[i]) { DeliveriesSettled(stored.outbox, now, i); }
  }

  /** Trimming leaves the youngest seen events and no more offsets than allowed; the rest stays. */
  lemma EventsBound(e: Events.EventState)
    ensures var next := LoadedEvents(e);
      && |next.offsets| == Min(|e.offsets|, LIMIT) && next.offsets.Items <= e.offsets.Items
      && |next.seen| == Min(|e.seen|, Events.SEEN_LIMIT) && next.seen.Items <= e.seen.Items
      && (forall gone, stays :: gone in e.seen && gone !in next.seen && stays in next.seen ==> e.seen[gone] <= e.seen[stays])
      && next.deferred == e.deferred && next.acknowledged == e.acknowledged
      && LoadedEvents(next) == next
  {
    Events.BoundedSize(e.offsets, LIMIT);
    Events.TrimmedMeaning(e.seen, None);
  }

  lemma LoadedCounts(sessions: map<string, Session>, next: map<string, Session>)
    requires next == LoadedSessions(sessions)
    ensures |Users(next)| <= LIMIT && |Schedules(next)| <= SCHEDULE_SESSION_LIMIT
  {
    KeptSize(RecoveredAll(sessions), false);
    KeptSize(RecoveredAll(sessions), true);
    Kinds(next);
  }

  lemma SessionsBound(sessions: map<string, Session>, next: map<string, Session>)
    requires Acceptable(sessions) && next == LoadedSessions(sessions)
    ensures forall id :: id in next ==> !Rejected(id, next[id]) && next[id].inflight.None? && |next[id].queued| <= LIMIT + 1
  {
    forall id | id in next ensures !Rejected(id, next[id]) && next[id].inflight.None? && |next[id].queued| <= LIMIT + 1 {
      LoadedSessionBounds(sessions, id);
    }
  }

  // ---------- Loading twice ----------

  /** A turn that exceeds the queue it goes back to. */
  predicate Overfills(s: Session) {
    Requeues(s) && |s.queued| == LIMIT
  }

  ghost predicate Overfull(sessions: map<string, Session>) {
    exists id :: id in LoadedSessions(sessions) && Overfills(sessions[id])
  }

  /** A delivery stopped at time zero, which reads as no time at all. */
  predicate StopsUndated(d: Delivery, now: nat) {
    now == 0 && IsSending(d) && d.created != 0
  }

  predicate Undated(outbox: seq<Delivery>, now: nat) {
    exists i :: Excess(|outbox|, LIMIT) <= i < |outbox| && StopsUndated(outbox[i], now)
  }

  lemma SettledOnce(d: Delivery, now: nat, later: nat)
    ensures Settled(Settled(d, now), later) == Settled(d, now) <==> !StopsUndated(d, now)
  {}

  lemma OutboxLoadsTwice(stored: seq<Delivery>, now: nat, later: nat, outbox: seq<Delivery>)
    requires outbox == LoadedOutbox(stored, now)
    ensures LoadedOutbox(outbox, later) == outbox <==> !Undated(stored, now)
  {
    var skip := Excess(|stored|, LIMIT);
    var again := AllSettled(outbox, later);
    forall i | 0 <= i < |outbox| ensures again[i] == outbox[i] <==> !StopsUndated(stored[skip + i], now) {
      SettledOnce(stored[skip + i], now, later);
    }
    assert LoadedOutbox(outbox, later) == again;
    if Undated(stored, now) {
      var i :| skip <= i < |stored| && StopsUndated(stored[i], now);
      assert StopsUndated(stored[skip + (i - skip)], now);
      assert again[i - skip] != outbox[i - skip];
    } else {
      assert forall i :: 0 <= i < |outbox| ==> again[i] == outbox[i];
    }
  }

  lemma SessionsLoadTwice(stored: map<string, Session>, sessions: map<string, Session>, again: map<string, Session>)
    requires Acceptable(stored) && sessions == LoadedSessions(stored) && again == RecoveredAll(sessions)
    ensures again == sessions <==> !Overfull(stored)
  {
    KeptSettle(stored, sessions, again);
  }

  lemma KeptSettle(stored: map<string, Session>, sessions: map<string, Session>, again: map<string, Session>)
    requires Acceptable(stored) && sessions.Keys <= stored.Keys && again.Keys == sessions.Keys
    requires forall id :: id in sessions ==> sessions[id] == Recovered(stored[id])
    requires forall id :: id in sessions ==> again[id] == Recovered(sessions[id])
    ensures again == sessions <==> forall id :: id in sessions ==> !Overfills(stored[id])
  {
    forall id | id in sessions ensures again[id] == sessions[id] <==> !Overfills(stored[id]) {
      RecoveredSettles(id, stored[id]);
    }
    SameMaps(again, sessions);
  }

  lemma SameMaps(a: map<string, Session>, b: map<string, Session>)
    requires a.Keys == b.Keys
    ensures a == b <==> forall id :: id in a ==> a[id] == b[id]
  {}

  /** Loading what was loaded changes nothing, exactly unless a recovered turn met a full queue
      (or a delivery was stopped at time zero). */
  lemma LoadIdempotent(stored: State, now: nat, later: nat)
    requires Acceptable(stored.sessions)
    ensures Loaded(Loaded(stored, now), later) == Loaded(stored, now) <==> !Overfull(stored.sessions) && !Undated(stored.outbox, now)
  {
    var next := Loaded(stored, now);
    LoadBounds(stored, now, next);
    NothingLeftToDiscard(next.sessions);
    OutboxLoadsTwice(stored.outbox, now, later, next.outbox);
    SessionsLoadTwice(stored.sessions, next.sessions, RecoveredAll(next.sessions));
    EventsBound(stored.events);
    assert Recent(next.dead) == next.dead;
  }

  lemma NothingLeftToDiscard(sessions: map<string, Session>)
    requires |Users(sessions)| <= LIMIT && |Schedules(sessions)| <= SCHEDULE_SESSION_LIMIT
    ensures LoadedSessions(sessions) == RecoveredAll(sessions)
  {
    Kinds(sessions);
    RecoveredKinds(sessions, RecoveredAll(sessions));
    NothingDiscarded(RecoveredAll(sessions));
  }

  // ---------- Recovery and the store's invariant ----------

  ghost predicate Collides(s: Session) {
    Requeues(s) && (|s.queued| == LIMIT || Contains(s.queued, s.inflight.value.id))
  }

  lemma RequeuedDistinct(queued: seq<Message>, message: Message)
    requires DistinctIds(queued)
    ensures DistinctIds([message] + queued) <==> !Contains(queued, message.id)
  {
    var all := [message] + queued;
    if Contains(queued, message.id) {
      var i :| 0 <= i < |queued| && queued[i].id == message.id;
      assert all[0].id == all[i + 1].id;
    }
  }

  lemma RecoveredKeepsSession(id: string, s: Session)
    requires SessionInv(id, s)
    ensures SessionInv(id, Recovered(s)) <==> !Collides(s)
  {
    if Requeues(s) {
      assert Recovered(s).queued == [s.inflight.value] + s.queued;
      RequeuedRoles(s);
      RequeuedDistinct(s.queued, s.inflight.value);
    }
  }

  lemma RecoveredSessionsInv(sessions: map<string, Session>, recovered: map<string, Session>)
    requires SessionsInv(sessions) && recovered == RecoveredAll(sessions)
    ensures (forall id :: id in recovered ==> SessionInv(id, recovered[id])) <==> forall id :: id in sessions ==> !Collides(sessions[id])
  {
    forall id | id in sessions ensures SessionInv(id, recovered[id]) <==> !Collides(sessions[id]) {
      assert SessionInv(id, sessions[id]);
      RecoveredKeepsSession(id, sessions[id]);
    }
  }

  lemma LoadedOutboxInv(outbox: seq<Delivery>, now: nat)
    requires OutboxInv(outbox)
    ensures OutboxInv(LoadedOutbox(outbox, now))
  {
    assert LoadedOutbox(outbox, now) == AllSettled(outbox, now);
  }

  lemma InvAcceptable(sessions: map<string, Session>)
    requires SessionsInv(sessions)
    ensures Acceptable(sessions)
  {
    forall id | id in sessions ensures !Rejected(id, sessions[id]) { assert SessionInv(id, sessions[id]); }
  }

  /** A load keeps the store's invariant exactly when no recovered turn meets a full queue or a
      queued message that took its ID meanwhile. */
  lemma LoadKeepsInvariant(stored: State, now: nat)
    requires Inv(stored)
    ensures Acceptable(stored.sessions)
    ensures Inv(Loaded(stored, now)) <==> forall id :: id in stored.sessions ==> !Collides(stored.sessions[id])
  {
    InvAcceptable(stored.sessions);
    LoadedSessionsInv(stored.sessions, LoadedSessions(stored.sessions));
    LoadedOutboxInv(stored.outbox, now);
    EventsBound(stored.events);
  }

  lemma LoadedSessionsInv(sessions: map<string, Session>, next: map<string, Session>)
    requires SessionsInv(sessions) && next == LoadedSessions(sessions)
    ensures SessionsInv(next) <==> forall id :: id in sessions ==> !Collides(sessions[id])
  {
    NothingLeftToDiscard(sessions);
    RecoveredKinds(sessions, next);
    Kinds(sessions);
    Kinds(next);
    RecoveredSessionsInv(sessions, next);
  }

  /** A message queued under the ID of the turn in flight leads to such a collision. */
  lemma ReusedIdCollides(s: State, id: string, message: Message, now: nat)
    requires Inv(s) && id in s.sessions && Requeues(s.sessions[id]) && message.id == s.sessions[id].inflight.value.id
    requires !Contains(s.sessions[id].queued, message.id) && |s.sessions[id].queued| + 1 < LIMIT
    ensures QueueStep(s, id, message, [], now).Change?
    ensures Collides(QueueStep(s, id, message, [], now).state.sessions[id])
  {
    var queued := s.sessions[id].queued + [message];
    assert queued[|queued| - 1].id == message.id;
  }

  /** It is three operations away from the empty store. */
  lemma CollisionReachable(id: string, message: Message, now: nat)
    requires ValidId(id) && !IsScheduleId(id)
    ensures var calls := [Call(Create(id, false, false), now, true), Call(Begin(id, message, [], None), now, true), Call(Queue(id, message, []), now, true)];
            var s := Run(EmptyState, calls);
            id in s.sessions && Collides(s.sessions[id])
  {
    var create, begin, queue := Call(Create(id, false, false), now, true), Call(Begin(id, message, [], None), now, true), Call(Queue(id, message, []), now, true);
    var created := CreateStep(EmptyState, id, false, false, now).state;
    assert created.sessions[id] == NewSession(id, false, now) by { assert Users(map[]) == {}; }
    var begun := BeginStep(created, id, message, [], None, now).state;
    var both := QueueStep(begun, id, message, [], now).state;
    RunThree(EmptyState, create, begin, queue);
    assert (both.sessions[id].queued)[0].id == message.id;
  }

  lemma RunThree(s: State, a: Call, b: Call, c: Call)
    ensures var first := Apply(s, a.op, a.now, a.saved).0;
            var second := Apply(first, b.op, b.now, b.saved).0;
            Run(s, [a, b, c]) == Apply(second, c.op, c.now, c.saved).0
  {
    var first := Apply(s, a.op, a.now, a.saved).0;
    var second := Apply(first, b.op, b.now, b.saved).0;
    assert [a, b, c][1..] == [b, c] && [b, c][1..] == [c] && [c][1..] == [];
    assert Run(s, [a, b, c]) == Run(first, [b, c]) == Run(second, [c]) == Run(Apply(second, c.op, c.now, c.saved).0, []);
  }

  // ---------- The program ----------

  predicate Shrinks(s: Session) {
    |Compacted(s.messages)| != |s.messages|
  }

  /** Whether a load rewrites the file: a history shrank, a delivery changed, or a session went. */
  ghost predicate Rewrites(sessions: map<string, Session>, outbox: seq<Delivery>) {
    || (exists id :: id in sessions && Shrinks(sessions[id]))
    || (exists i :: 0 <= i < |outbox| && Unsettled(outbox[i]))
    || Discarded(RecoveredAll(sessions)) != {}
  }

  predicate Unsettled(d: Delivery) {
    d.updated == 0 || IsSending(d)
  }

  class Loader {
    var sessions: map<string, Session>
    var outbox: seq<Delivery>
    var dead: seq<Delivery>
    var events: Events.EventState
    var changed: bool

    constructor (stored: State)
      ensures sessions == stored.sessions && outbox == stored.outbox && dead == stored.dead && events == stored.events && !changed
    {
      sessions, outbox, dead, events, changed := stored.sessions, stored.outbox, stored.dead, stored.events, false;
    }

    method Load(now: nat) returns (r: Result<(), LoadError>)
      requires !changed
      modifies this
      ensures r == if Acceptable(old(sessions)) then Ok(()) else Err(InvalidData)
      ensures r.Ok? ==> sessions == LoadedSessions(old(sessions))
      ensures r.Ok? ==> outbox == LoadedOutbox(old(outbox), now) && dead == Recent(old(dead)) && events == LoadedEvents(old(events))
      ensures r.Ok? ==> (changed <==> Rewrites(old(sessions), old(outbox)))
    {
      r := RecoverSessions();
      if r.Err? { return; }
      SettleDeliveries(now);
      Prune();
      outbox := Last(outbox);
      dead := Last(dead);
      TrimEvents();
    }

    method TrimEvents()
      modifies this`events
      ensures events == LoadedEvents(old(events))
    {
      var offsets := Events.Bound(events.offsets, LIMIT);
      var seen := Events.Trim(events.seen, None);
      events := events.(offsets := offsets, seen := seen);
    }

    method Last(deliveries: seq<Delivery>) returns (r: seq<Delivery>)
      ensures r == Recent(deliveries)
    {
      r := deliveries;
      if |r| > LIMIT {
        r := r[|r| - LIMIT..];
      }
    }

    method RecoverSessions() returns (r: Result<(), LoadError>)
      modifies this`sessions, this`changed
      ensures r == if Acceptable(old(sessions)) then Ok(()) else Err(InvalidData)
      ensures r.Ok? ==> sessions == RecoveredAll(old(sessions))
      ensures r.Ok? ==> (changed <==> old(changed) || exists id :: id in old(sessions) && Shrinks(old(sessions)[id]))
    {
      var recovered, shrunk := RecoverEach(sessions);
      if recovered.Err? { return Err(InvalidData); }
      sessions := recovered.value;
      changed := changed || shrunk;
      r := Ok(());
    }

    method RecoverEach(stored: map<string, Session>) returns (r: Result<map<string, Session>, LoadError>, shrunk: bool)
      ensures r == if Acceptable(stored) then Ok(RecoveredAll(stored)) else Err(InvalidData)
      ensures r.Ok? ==> (shrunk <==> exists id :: id in stored && Shrinks(stored[id]))
    {
      var all := stored;
      var left := stored.Keys;
      shrunk := false;
      while left != {}
        invariant left <= stored.Keys && all.Keys == stored.Keys
        invariant forall id :: id in stored && id !in left ==> !Rejected(id, stored[id]) && all[id] == Recovered(stored[id])
        invariant shrunk <==> exists id :: id in stored && id !in left && Shrinks(stored[id])
      {
        var id :| id in left;
        var one := RecoverOne(id, stored[id]);
        if one.Err? { return Err(InvalidData), shrunk; }
        shrunk := shrunk || |one.value.messages| != |stored[id].messages|;
        all := all[id := one.value];
        left := left - {id};
      }
      assert all == RecoveredAll(stored);
      r := Ok(all);
    }

    method RecoverOne(id: string, session: Session) returns (r: Result<Session, LoadError>)
      ensures r == if Rejected(id, session) then Err(InvalidData) else Ok(Recovered(session))
      ensures r.Ok? ==> r.value.messages == Compacted(session.messages)
    {
      if !ValidId(id) || session.id != id { return Err(InvalidData); }
      if session.inflight.Some? && |session.queued| > LIMIT { return Err(InvalidData); }
      var recovered := RecoverSession(session);
      r := Ok(recovered);
    }

    method RecoverSession(from: Session) returns (session: Session)
      ensures session == Recovered(from)
    {
      var history := new History(from.messages);
      history.CompactMessages();
      session := BoundQueue(from.(messages := history.messages));
      assert session == Tidied(from);
      var reserved := session.status == WORKING && session.inflight.None? && session.reservationUntil.Some?;
      if !reserved && (session.status == WORKING || session.inflight.Some?) {
        session := EndTurn(session);
      }
    }

    method BoundQueue(from: Session) returns (session: Session)
      ensures session == from.(queued := Bounded(from), queueRoles := RolesOf(Bounded(from), from.queueRoles))
    {
      session := from;
      if |session.queued| > LIMIT && session.inflight.None? {
        session := session.(queued := session.queued[|session.queued| - LIMIT..]);
      }
      session := session.(queueRoles := RolesOf(session.queued, session.queueRoles));
    }

    method EndTurn(from: Session) returns (session: Session)
      ensures session == Interrupted(from)
    {
      session := from.(inflight := None, inflightRoles := [], streamDelivery := None);
      if from.inflight.Some? && session.status != CANCELLED && session.phase == Safe {
        if from.inflightRoles != [] {
          session := session.(queueRoles := session.queueRoles[from.inflight.value.id := from.inflightRoles]);
        }
        session := session.(queued := [from.inflight.value] + session.queued);
      }
      session := session.(phase := Safe, status := INTERRUPTED, reservationUntil := None, reservationOwner := None);
    }

    method SettleDeliveries(now: nat)
      modifies this`outbox, this`changed
      ensures outbox == AllSettled(old(outbox), now)
      ensures changed <==> old(changed) || exists i :: 0 <= i < |old(outbox)| && Unsettled(old(outbox)[i])
    {
      for i := 0 to |outbox|
        invariant |outbox| == |old(outbox)|
        invariant forall k :: 0 <= k < i ==> outbox[k] == Settled(old(outbox)[k], now)
        invariant forall k :: i <= k < |outbox| ==> outbox[k] == old(outbox)[k]
        invariant changed <==> old(changed) || exists k :: 0 <= k < i && Unsettled(old(outbox)[k])
      {
        var d := outbox[i];
        if d.updated == 0 {
          d := d.(updated := d.created);
          changed := true;
        }
        if d.status in {Sending, Streaming} {
          d := d.(status := Uncertain, lastError := Some(STOPPED), updated := now);
          changed := true;
        }
        outbox := outbox[i := d];
      }
    }

    method Prune()
      modifies this`sessions, this`changed
      ensures sessions == Pruned(old(sessions))
      ensures changed <==> old(changed) || Discarded(old(sessions)) != {}
    {
      var users, schedules := Times(sessions, false), Times(sessions, true);
      var oldUsers := TakeOldest(users, Excess(|users|, LIMIT));
      var oldSchedules := TakeOldest(schedules, Excess(|schedules|, SCHEDULE_SESSION_LIMIT));
      RemoveAll(oldUsers + oldSchedules);
    }

    method RemoveAll(discarded: set<string>)
      modifies this`sessions, this`changed
      ensures sessions == old(sessions) - discarded
      ensures changed <==> old(changed) || discarded != {}
    {
      var left := discarded;
      while left != {}
        invariant left <= discarded && sessions == old(sessions) - (discarded - left)
        invariant changed <==> old(changed) || left != discarded
      {
        var id :| id in left;
        sessions := sessions - {id};
        changed := true;
        left := left - {id};
      }
    }
  }
}
