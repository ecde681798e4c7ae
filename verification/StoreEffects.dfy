/** What an operation of the session store changes, and that it changes nothing else: sessions come and go
    only by name, and each field of a session, each delivery and each dead letter has its own causes. */
module StoreEffects {
  import opened Wrappers
  import opened Integers
  import opened Messages
  import opened Compaction
  import opened StoreModel
  import opened StoreInvariants
  import opened StoreRuns
  import Events = ChannelEvents

  // ---------- Which sessions there are ----------

  function Added(op: Op): set<string> {
    match op
    case Create(id, _, _) => {id}
    case Rename(_, target) => {target}
    case Fork(_, target) => {target}
    case _ => {}
  }

  function Gone(s: State, op: Op): set<string> {
    match op
    case Remove(id) => {id}
    case Rename(source, _) => {source}
    case Purge(sessions, _) => if sessions then s.sessions.Keys else {}
    case _ => {}
  }

  /** The session an operation is about, besides those it adds or removes. */
  predicate Addresses(s: State, op: Op, now: nat, id: string) {
    if IsSessionOp(op) || IsTurnOp(op) then op.id == id
    else op.RecoverReservations? && id in s.sessions && Overdue(s.sessions[id], now)
  }

  /** An operation adds and removes exactly the sessions it names, and what it adds was not there. */
  lemma SessionsNamed(s: State, op: Op, now: nat)
    requires Step(s, op, now).Change?
    ensures Step(s, op, now).state.sessions.Keys == s.sessions.Keys - Gone(s, op) + Added(op)
    ensures Added(op) !! s.sessions.Keys && Gone(s, op) <= s.sessions.Keys
  {
    if IsCatalogOp(op) {
      CatalogNames(s, op, now);
    } else {
      OthersKeepKeys(s, op, now);
      NamesNone(s, op);
    }
  }

  lemma NamesNone(s: State, op: Op)
    requires !IsCatalogOp(op)
    ensures Added(op) == {} && Gone(s, op) == {}
  {}

  lemma OthersKeepKeys(s: State, op: Op, now: nat)
    requires !IsCatalogOp(op) && Step(s, op, now).Change?
    ensures Step(s, op, now).state.sessions.Keys == s.sessions.Keys
  {
    if IsDeliveryOp(op) {
      DeliveryKeepsSessions(s, op, now);
    } else if IsEventOp(op) {
      EventsKeepSessions(s, op, now);
    } else if IsTurnOp(op) {
      TurnKeepsKeys(s, op, now);
    } else {
      SessionKeepsKeys(s, op, now);
    }
  }

  lemma CatalogNames(s: State, op: Op, now: nat)
    requires IsCatalogOp(op) && CatalogStep(s, op, now).Change?
    ensures CatalogStep(s, op, now).state.sessions.Keys == s.sessions.Keys - Gone(s, op) + Added(op)
    ensures Added(op) !! s.sessions.Keys && Gone(s, op) <= s.sessions.Keys
  {
    if op.Create? || op.Fork? {
      AddingNames(s, op, now);
    } else if op.Rename? {
      RenamingNames(s, op, now);
    } else {
      RemovingNames(s, op, now);
    }
  }

  lemma AddingNames(s: State, op: Op, now: nat)
    requires (op.Create? || op.Fork?) && CatalogStep(s, op, now).Change?
    ensures Gone(s, op) == {} && CatalogStep(s, op, now).state.sessions.Keys == s.sessions.Keys + Added(op)
    ensures Added(op) !! s.sessions.Keys
  {}

  lemma RenamingNames(s: State, op: Op, now: nat)
    requires op.Rename? && CatalogStep(s, op, now).Change?
    ensures CatalogStep(s, op, now).state.sessions.Keys == s.sessions.Keys - Gone(s, op) + Added(op)
    ensures Added(op) !! s.sessions.Keys && Gone(s, op) <= s.sessions.Keys
  {}

  lemma RemovingNames(s: State, op: Op, now: nat)
    requires (op.Remove? || op.Purge? || op.RecoverReservations?) && CatalogStep(s, op, now).Change?
    ensures Added(op) == {} && CatalogStep(s, op, now).state.sessions.Keys == s.sessions.Keys - Gone(s, op)
    ensures Gone(s, op) <= s.sessions.Keys
  {}

  lemma TurnKeepsKeys(s: State, op: Op, now: nat)
    requires IsTurnOp(op) && TurnStep(s, op, now).Change?
    ensures op.id in s.sessions && TurnStep(s, op, now).state.sessions.Keys == s.sessions.Keys
  {}

  lemma SessionKeepsKeys(s: State, op: Op, now: nat)
    requires IsSessionOp(op) && SessionStep(s, op, now).Change?
    ensures op.id in s.sessions && SessionStep(s, op, now).state.sessions.Keys == s.sessions.Keys
  {}

  /** Every session that an operation neither names nor addresses stays as it was. */
  lemma OthersStay(s: State, op: Op, now: nat, id: string)
    requires Step(s, op, now).Change? && id in s.sessions
    requires id !in Gone(s, op) + Added(op) && !Addresses(s, op, now, id)
    ensures var next := Step(s, op, now).state; id in next.sessions && next.sessions[id] == s.sessions[id]
  {
    if IsCatalogOp(op) {
      CatalogLeaves(s, op, now, id);
    } else if IsDeliveryOp(op) {
      DeliveryKeepsSessions(s, op, now);
    } else if IsEventOp(op) {
      EventsKeepSessions(s, op, now);
    } else {
      OneSessionChanges(s, op, now, id);
    }
  }

  lemma CatalogLeaves(s: State, op: Op, now: nat, id: string)
    requires IsCatalogOp(op) && CatalogStep(s, op, now).Change? && id in s.sessions
    requires id !in Gone(s, op) + Added(op) && !Addresses(s, op, now, id)
    ensures var next := CatalogStep(s, op, now).state; id in next.sessions && next.sessions[id] == s.sessions[id]
  {}

  predicate Ends(op: Op, id: string) {
    op == Remove(id) || (op.Rename? && op.source == id) || (op.Purge? && op.sessions)
  }

  /** Over every run a session stays until it is removed or renamed by its own ID, or all are purged. */
  lemma {:induction false} SessionStays(s: State, calls: seq<Call>, id: string)
    requires id in s.sessions && forall i :: 0 <= i < |calls| ==> !Ends(calls[i].op, id)
    ensures id in Run(s, calls).sessions
    decreases |calls|
  {
    if calls != [] {
      var call := calls[0];
      if Step(s, call.op, call.now).Change? { SessionsNamed(s, call.op, call.now); }
      SessionStays(Apply(s, call.op, call.now, call.saved).0, calls[1..], id);
    }
  }

  // ---------- What is accepted ----------

  /** What the operation is about is not there; a notice must be for its own session. */
  predicate Missing(s: State, op: Op) {
    if IsSessionOp(op) || IsTurnOp(op) then op.id !in s.sessions || (op.AppendNotice? && op.message.session != op.id)
    else if IsMarkOp(op) then !HasDelivery(s.outbox, op.delivery)
    else match op
      case Remove(id) => id !in s.sessions
      case Rename(source, target) => source !in s.sessions && target !in s.sessions && ValidId(source) && ValidId(target) && source != target
      case Fork(source, target) => source !in s.sessions && target !in s.sessions && ValidId(target)
      case _ => false
  }

  lemma NotFoundWhenMissing(s: State, op: Op, now: nat)
    ensures Step(s, op, now) == Refuse(NotFound) <==> Missing(s, op)
  {
    if IsCatalogOp(op) {
      CatalogMissing(s, op, now);
    } else if IsTurnOp(op) {
      TurnMissing(s, op, now);
    } else if IsDeliveryOp(op) {
      DeliveryMissing(s, op, now);
    } else if IsEventOp(op) {
      EventMissing(s, op, now);
    } else {
      SessionMissing(s, op, now);
    }
  }

  lemma CatalogMissing(s: State, op: Op, now: nat)
    requires IsCatalogOp(op)
    ensures CatalogStep(s, op, now) == Refuse(NotFound) <==> Missing(s, op)
  {}

  lemma TurnMissing(s: State, op: Op, now: nat)
    requires IsTurnOp(op)
    ensures TurnStep(s, op, now) == Refuse(NotFound) <==> Missing(s, op)
  {}

  lemma DeliveryMissing(s: State, op: Op, now: nat)
    requires IsDeliveryOp(op)
    ensures DeliveryStep(s, op, now) == Refuse(NotFound) <==> Missing(s, op)
  {}

  lemma EventMissing(s: State, op: Op, now: nat)
    requires IsEventOp(op)
    ensures EventStep(s, op, now) == Refuse(NotFound) <==> Missing(s, op)
  {}

  lemma SessionMissing(s: State, op: Op, now: nat)
    requires IsSessionOp(op)
    ensures SessionStep(s, op, now) == Refuse(NotFound) <==> Missing(s, op)
  {}

  /** A session that is there takes any message, status and clearing; who uses a reservation must hold it, and
      what needs a free session or room needs it. */
  predicate AcceptsSession(s: State, op: Op, b: Session, now: nat)
    requires IsSessionOp(op)
  {
    match op
    case Reserve(_, _) => b.status != WORKING && b.inflight.None?
    case Renew(_, owner) => HeldBy(b, owner) && b.reservationUntil.Some?
    case AppendReserved(_, owner, _) => HeldBy(b, owner)
    case SetContextReserved(id, owner, context) => HeldBy(b, owner) && forall m :: m in context ==> m.session == id
    case SetPhase(_, _) => b.inflight.Some? || HasLiveReservation(b, now)
    case _ => true
  }

  predicate AcceptsTurn(s: State, op: Op, b: Session, now: nat)
    requires IsTurnOp(op)
  {
    match op
    case Queue(_, message, _) => !Contains(b.queued, message.id) && |b.queued| + (if b.inflight.Some? then 1 else 0) < 100
    case Begin(_, message, _, _) =>
      b.inflight.None? && !HasLiveReservation(b, now) && (b.status == WORKING ==> Contains(b.queued, message.id))
    case Clear(_, _) => true
    case Reply(_, _, delivery, _, _, _, _) => HasDelivery(s.outbox, delivery) || |s.outbox| < 100
    case StartStream(_, delivery, _, _, _, _) =>
      b.inflight.Some? && b.streamDelivery.None? && !HasDelivery(s.outbox, delivery) && |s.outbox| < 100
  }

  predicate AcceptsCatalog(s: State, op: Op, now: nat)
    requires IsCatalogOp(op)
  {
    match op
    case Create(id, scheduled, blankModel) =>
      && ValidId(id) && IsScheduleId(id) == scheduled && !blankModel && id !in s.sessions
      && (if scheduled then |Schedules(s.sessions)| < 1_000 else |Users(s.sessions)| < 100)
    case Rename(source, target) =>
      && source in s.sessions && target !in s.sessions && ValidId(source) && ValidId(target) && !IsScheduleId(target)
      && !s.sessions[source].scheduled && s.sessions[source].channel.None? && !Busy(s.sessions[source])
    case Fork(source, target) =>
      source in s.sessions && target !in s.sessions && ValidId(target) && !IsScheduleId(target) && |Users(s.sessions)| < 100
    case Remove(id) => id in s.sessions && !Busy(s.sessions[id])
    case Purge(sessions, deliveries) =>
      && (sessions ==> forall id :: id in s.sessions ==> !Busy(s.sessions[id]))
      && ((sessions && s.sessions != map[]) || (deliveries && (s.outbox != [] || s.dead != [])))
    case RecoverReservations => exists id :: id in s.sessions && Overdue(s.sessions[id], now)
  }

  predicate AcceptsDelivery(s: State, op: Op)
    requires IsDeliveryOp(op)
  {
    if op.QueueDelivery? then |s.outbox| < 100
    else HasDelivery(s.outbox, op.delivery) && (op.RetryDelivery? ==> FindDelivery(s.outbox, op.delivery).status == Uncertain)
  }

  /** An operation changes the store if and only if what it names is there, or is not yet, and nothing stands
      in its way. */
  lemma AcceptedExactly(s: State, op: Op, now: nat)
    requires !IsEventOp(op)
    ensures Step(s, op, now).Change? <==>
      if IsCatalogOp(op) then AcceptsCatalog(s, op, now)
      else if IsDeliveryOp(op) then AcceptsDelivery(s, op)
      else if IsTurnOp(op) then !Missing(s, op) && AcceptsTurn(s, op, s.sessions[op.id], now)
      else !Missing(s, op) && AcceptsSession(s, op, s.sessions[op.id], now)
  {
    if IsCatalogOp(op) {
      CatalogAccepted(s, op, now);
    } else if IsTurnOp(op) {
      TurnAccepted(s, op, now);
    } else if IsDeliveryOp(op) {
      DeliveryAccepted(s, op, now);
    } else {
      SessionAccepted(s, op, now);
    }
  }

  lemma CatalogAccepted(s: State, op: Op, now: nat)
    requires IsCatalogOp(op)
    ensures CatalogStep(s, op, now).Change? <==> AcceptsCatalog(s, op, now)
  {}

  lemma TurnAccepted(s: State, op: Op, now: nat)
    requires IsTurnOp(op)
    ensures TurnStep(s, op, now).Change? <==> !Missing(s, op) && AcceptsTurn(s, op, s.sessions[op.id], now)
  {}

  lemma DeliveryAccepted(s: State, op: Op, now: nat)
    requires IsDeliveryOp(op)
    ensures DeliveryStep(s, op, now).Change? <==> AcceptsDelivery(s, op)
  {}

  lemma SessionAccepted(s: State, op: Op, now: nat)
    requires IsSessionOp(op)
    ensures SessionStep(s, op, now).Change? <==> !Missing(s, op) && AcceptsSession(s, op, s.sessions[op.id], now)
  {}

  // ---------- What a new session is like ----------

  /** Nothing waits, nothing runs and nobody holds it. */
  predicate AtRest(s: Session) {
    && s.queued == [] && s.queueRoles == map[] && s.inflight.None? && s.inflightRoles == []
    && s.reservationOwner.None? && s.reservationUntil.None? && s.streamDelivery.None? && s.phase == Safe && s.status == IDLE
  }

  lemma CreatedSession(s: State, id: string, scheduled: bool, blankModel: bool, now: nat)
    requires Step(s, Create(id, scheduled, blankModel), now).Change?
    ensures var c := Step(s, Create(id, scheduled, blankModel), now).state.sessions[id];
      && AtRest(c) && c.messages == [] && c.compactedContext.None? && c.compactedThrough.None?
      && c.id == id && c.scheduled == scheduled && c.channel.None? && c.isPrivate && c.updated == now
  {}

  /** A fork has the history of its source, as its own, and nothing of what the source is doing. */
  lemma ForkedSession(s: State, source: string, target: string, now: nat)
    requires Step(s, Fork(source, target), now).Change?
    ensures source in s.sessions && target in Step(s, Fork(source, target), now).state.sessions
    ensures var a, c := s.sessions[source], Step(s, Fork(source, target), now).state.sessions[target];
      && AtRest(c) && c.id == target && !c.scheduled && c.channel == a.channel && c.isPrivate == a.isPrivate && c.updated == now
      && SameBut(a.messages, c.messages, target)
      && c.compactedThrough == a.compactedThrough
      && (c.compactedContext.Some? <==> a.compactedContext.Some?)
      && (c.compactedContext.Some? ==> SameBut(a.compactedContext.value, c.compactedContext.value, target))
  {}

  ghost predicate SameBut(before: seq<Message>, after: seq<Message>, session: string) {
    |after| == |before| && forall i :: 0 <= i < |after| ==> after[i] == before[i].(session := session)
  }

  /** A rename takes everything along and relabels history and queue; the session was at rest but for its queue. */
  lemma RenamedSession(s: State, source: string, target: string, now: nat)
    requires Step(s, Rename(source, target), now).Change?
    ensures source in s.sessions && target in Step(s, Rename(source, target), now).state.sessions
    ensures var a, c := s.sessions[source], Step(s, Rename(source, target), now).state.sessions[target];
      && c.id == target && c.updated == now && SameBut(a.messages, c.messages, target) && SameBut(a.queued, c.queued, target)
      && c == a.(id := target, updated := now, messages := c.messages, queued := c.queued)
      && a.status != WORKING && a.inflight.None? && !a.scheduled && a.channel.None?
  {}

  /** Recovering reservations ends the overdue ones, and does nothing else to those sessions. */
  lemma ReleasedSession(s: State, now: nat, id: string)
    requires Step(s, RecoverReservations, now).Change? && id in s.sessions && Overdue(s.sessions[id], now)
    ensures id in Step(s, RecoverReservations, now).state.sessions
    ensures var a, c := s.sessions[id], Step(s, RecoverReservations, now).state.sessions[id];
      c == a.(status := IDLE, reservationOwner := None, reservationUntil := None, updated := now)
  {}

  // ---------- The fields of an addressed session ----------

  /** Who and where it is. */
  predicate SameIdentity(b: Session, a: Session) {
    a.id == b.id && a.scheduled == b.scheduled && a.channel == b.channel && a.isPrivate == b.isPrivate
  }

  /** The operation adds its message to the history; a begun message may be there already. */
  predicate Appends(op: Op, b: Session) {
    op.Push? || op.AppendNotice? || op.AppendReserved? || op.Reply? || (op.Begin? && !Contains(b.messages, op.message.id))
  }

  ghost predicate HistoryEffect(op: Op, b: Session, a: Session) {
    if Appends(op, b) then exists cut :: IsCut(b.messages + [op.message], cut) && a.messages == Kept(b.messages + [op.message], cut)
    else a.messages == if op.ClearHistory? then [] else b.messages
  }

  predicate ContextEffect(op: Op, b: Session, a: Session) {
    if op.ClearHistory? then a.compactedContext.None? && a.compactedThrough.None?
    else if op.SetContextReserved? then
      && a.compactedContext == Some(op.context)
      && (if b.messages == [] then a.compactedThrough.None? else a.compactedThrough == Some(b.messages[|b.messages| - 1].id))
    else a.compactedContext == b.compactedContext && a.compactedThrough == b.compactedThrough
  }

  predicate EndsTurn(op: Op) {
    op.Clear? || op.Reply?
  }

  function RolesOf(s: Session, id: string): seq<string> {
    if id in s.queueRoles then s.queueRoles[id] else []
  }

  /** A turn runs the message it begins, with the roles given to it, or else those the message was queued with. */
  predicate TurnEffect(op: Op, b: Session, a: Session) {
    if op.Begin? then
      a.inflight == Some(op.message) && a.inflightRoles == if op.roles != [] then op.roles else RolesOf(b, op.message.id)
    else if EndsTurn(op) then a.inflight.None? && a.inflightRoles == []
    else a.inflight == b.inflight && a.inflightRoles == b.inflightRoles
  }

  predicate StreamEffect(op: Op, b: Session, a: Session) {
    if op.StartStream? then a.streamDelivery == Some(op.delivery) && a.phase == Unsafe
    else if op.Begin? || EndsTurn(op) then a.streamDelivery.None? && a.phase == Safe
    else a.streamDelivery == b.streamDelivery && a.phase == if op.SetPhase? then op.phase else b.phase
  }

  /** The roles queued with a message go with it; a queue cleared on cancellation takes all along. */
  predicate RolesEffect(op: Op, b: Session, a: Session) {
    if op.Queue? then a.queueRoles == if op.roles == [] then b.queueRoles - {op.message.id} else b.queueRoles[op.message.id := op.roles]
    else if op.Begin? then a.queueRoles == b.queueRoles - {op.message.id}
    else a.queueRoles == if Cancels(op) then map[] else b.queueRoles
  }

  predicate Cancels(op: Op) {
    (op.Clear? || op.SetStatus?) && op.status == CANCELLED
  }

  ghost predicate QueueEffect(op: Op, b: Session, a: Session) {
    if op.Queue? then a.queued == b.queued + [op.message]
    else if op.Begin? && Contains(b.queued, op.message.id) then OneRemoved(b.queued, a.queued, op.message.id)
    else a.queued == if Cancels(op) then [] else b.queued
  }

  predicate IgnoresStatus(op: Op, b: Session) {
    op.SetStatus? && b.status == CANCELLED && b.inflight.Some? && op.status != CANCELLED
  }

  predicate StatusEffect(op: Op, b: Session, a: Session) {
    if op.Begin? || op.Reserve? then a.status == WORKING
    else if op.Reply? then a.status == IDLE
    else if op.Clear? || op.SetStatus? then a.status == if IgnoresStatus(op, b) then b.status else op.status
    else if op.Push? then a.status == if b.status == CANCELLED && !op.resumeCancelled then CANCELLED else IDLE
    else if op.Queue? then a.status == if b.status == CANCELLED then IDLE else b.status
    else a.status == b.status
  }

  /** The operation hands a session back, whoever held it. */
  predicate Frees(op: Op, b: Session) {
    || op.Begin? || EndsTurn(op)
    || (op.SetStatus? && op.status != WORKING && !IgnoresStatus(op, b))
    || (op.Push? && (b.status != CANCELLED || op.resumeCancelled))
    || (op.Queue? && b.status == CANCELLED)
  }

  /** Only its own holder prolongs a reservation, by two minutes from now. */
  predicate LeaseEffect(op: Op, b: Session, a: Session, now: nat) {
    var deadline := Some(if now + 120 > U64_MAX then U64_MAX else now + 120);
    if Frees(op, b) then a.reservationOwner.None? && a.reservationUntil.None?
    else if op.Reserve? then a.reservationOwner == Some(op.owner) && a.reservationUntil == deadline
    else
      && a.reservationOwner == b.reservationOwner
      && a.reservationUntil == if (op.Renew? || op.AppendReserved?) && b.reservationUntil.Some? then deadline else b.reservationUntil
  }

  predicate ClockEffect(op: Op, b: Session, a: Session, now: nat) {
    a.updated == if op.Renew? || IgnoresStatus(op, b) then b.updated else now
  }

  lemma AppendedHistory(before: seq<Message>, message: Message)
    ensures exists cut :: IsCut(before + [message], cut) && Compacted(before + [message]) == Kept(before + [message], cut)
  {
    var cut := CompactionMeaning(before + [message]);
  }

  predicate LeaseEffects(op: Op, b: Session, a: Session, now: nat) {
    StatusEffect(op, b, a) && LeaseEffect(op, b, a, now) && ClockEffect(op, b, a, now)
  }

  ghost predicate TextEffects(op: Op, b: Session, a: Session) {
    HistoryEffect(op, b, a) && ContextEffect(op, b, a)
  }

  /** Every operation on a session, and what it does to each of its fields. */
  lemma SessionEffects(s: State, op: Op, now: nat)
    requires (IsSessionOp(op) || IsTurnOp(op)) && Step(s, op, now).Change?
    ensures op.id in s.sessions && op.id in Step(s, op, now).state.sessions
    ensures var b, a := s.sessions[op.id], Step(s, op, now).state.sessions[op.id];
      SameIdentity(b, a) && TextEffects(op, b, a) && TurnEffect(op, b, a) && RolesEffect(op, b, a)
      && QueueEffect(op, b, a) && StreamEffect(op, b, a) && LeaseEffects(op, b, a, now)
  {
    if IsTurnOp(op) {
      TurnTexts(s, op, now);
      TurnTurns(s, op, now);
      TurnRoles(s, op, now);
      TurnQueues(s, op, now);
      TurnStreams(s, op, now);
      TurnKeepsIdentity(s, op, now);
      TurnLeases(s, op, now);
    } else {
      OtherTexts(s, op, now);
      OtherTurns(s, op, now);
      OtherRoles(s, op, now);
      OtherQueues(s, op, now);
      OtherStreams(s, op, now);
      OtherKeepsIdentity(s, op, now);
      OtherLeases(s, op, now);
    }
  }

  lemma TurnTurns(s: State, op: Op, now: nat)
    requires IsTurnOp(op) && TurnStep(s, op, now).Change?
    ensures op.id in s.sessions && op.id in TurnStep(s, op, now).state.sessions
    ensures TurnEffect(op, s.sessions[op.id], TurnStep(s, op, now).state.sessions[op.id])
  {}

  lemma TurnKeepsIdentity(s: State, op: Op, now: nat)
    requires IsTurnOp(op) && TurnStep(s, op, now).Change?
    ensures op.id in s.sessions && op.id in TurnStep(s, op, now).state.sessions
    ensures SameIdentity(s.sessions[op.id], TurnStep(s, op, now).state.sessions[op.id])
  {}

  lemma OtherKeepsIdentity(s: State, op: Op, now: nat)
    requires IsSessionOp(op) && SessionStep(s, op, now).Change?
    ensures op.id in s.sessions && op.id in SessionStep(s, op, now).state.sessions
    ensures SameIdentity(s.sessions[op.id], SessionStep(s, op, now).state.sessions[op.id])
  {}

  lemma TurnQueues(s: State, op: Op, now: nat)
    requires IsTurnOp(op) && TurnStep(s, op, now).Change?
    ensures op.id in s.sessions && op.id in TurnStep(s, op, now).state.sessions
    ensures QueueEffect(op, s.sessions[op.id], TurnStep(s, op, now).state.sessions[op.id])
  {
    if op.Begin? {
      IndexOfContains(s.sessions[op.id].queued, op.message.id);
      BegunRemovesOne(s.sessions[op.id].queued, op.message.id);
    }
  }

  lemma OtherQueues(s: State, op: Op, now: nat)
    requires IsSessionOp(op) && SessionStep(s, op, now).Change?
    ensures op.id in s.sessions && op.id in SessionStep(s, op, now).state.sessions
    ensures QueueEffect(op, s.sessions[op.id], SessionStep(s, op, now).state.sessions[op.id])
  {}

  lemma TurnStreams(s: State, op: Op, now: nat)
    requires IsTurnOp(op) && TurnStep(s, op, now).Change?
    ensures op.id in s.sessions && op.id in TurnStep(s, op, now).state.sessions
    ensures StreamEffect(op, s.sessions[op.id], TurnStep(s, op, now).state.sessions[op.id])
  {}

  lemma TurnRoles(s: State, op: Op, now: nat)
    requires IsTurnOp(op) && TurnStep(s, op, now).Change?
    ensures op.id in s.sessions && op.id in TurnStep(s, op, now).state.sessions
    ensures RolesEffect(op, s.sessions[op.id], TurnStep(s, op, now).state.sessions[op.id])
  {}

  lemma TurnLeases(s: State, op: Op, now: nat)
    requires IsTurnOp(op) && TurnStep(s, op, now).Change?
    ensures op.id in s.sessions && op.id in TurnStep(s, op, now).state.sessions
    ensures LeaseEffects(op, s.sessions[op.id], TurnStep(s, op, now).state.sessions[op.id], now)
  {}

  lemma TurnTexts(s: State, op: Op, now: nat)
    requires IsTurnOp(op) && TurnStep(s, op, now).Change?
    ensures op.id in s.sessions && op.id in TurnStep(s, op, now).state.sessions
    ensures TextEffects(op, s.sessions[op.id], TurnStep(s, op, now).state.sessions[op.id])
  {
    if Appends(op, s.sessions[op.id]) { AppendedHistory(s.sessions[op.id].messages, op.message); }
  }

  lemma OtherTurns(s: State, op: Op, now: nat)
    requires IsSessionOp(op) && SessionStep(s, op, now).Change?
    ensures op.id in s.sessions && op.id in SessionStep(s, op, now).state.sessions
    ensures TurnEffect(op, s.sessions[op.id], SessionStep(s, op, now).state.sessions[op.id])
  {}

  lemma OtherStreams(s: State, op: Op, now: nat)
    requires IsSessionOp(op) && SessionStep(s, op, now).Change?
    ensures op.id in s.sessions && op.id in SessionStep(s, op, now).state.sessions
    ensures StreamEffect(op, s.sessions[op.id], SessionStep(s, op, now).state.sessions[op.id])
  {}

  lemma OtherRoles(s: State, op: Op, now: nat)
    requires IsSessionOp(op) && SessionStep(s, op, now).Change?
    ensures op.id in s.sessions && op.id in SessionStep(s, op, now).state.sessions
    ensures RolesEffect(op, s.sessions[op.id], SessionStep(s, op, now).state.sessions[op.id])
  {}

  lemma OtherLeases(s: State, op: Op, now: nat)
    requires IsSessionOp(op) && SessionStep(s, op, now).Change?
    ensures op.id in s.sessions && op.id in SessionStep(s, op, now).state.sessions
    ensures LeaseEffects(op, s.sessions[op.id], SessionStep(s, op, now).state.sessions[op.id], now)
  {}

  lemma OtherTexts(s: State, op: Op, now: nat)
    requires IsSessionOp(op) && SessionStep(s, op, now).Change?
    ensures op.id in s.sessions && op.id in SessionStep(s, op, now).state.sessions
    ensures TextEffects(op, s.sessions[op.id], SessionStep(s, op, now).state.sessions[op.id])
  {
    if Appends(op, s.sessions[op.id]) { AppendedHistory(s.sessions[op.id].messages, op.message); }
  }

  /** It makes a reservation, or uses one that the caller holds. */
  predicate Leases(op: Op, b: Session) {
    if op.Reserve? then !Busy(b) else (op.Renew? || op.AppendReserved?) && HeldBy(b, op.owner)
  }

  /** A reservation that was made or prolonged lives for two minutes, to the second. */
  lemma LeaseLasts(s: State, op: Op, now: nat, later: nat)
    requires IsSessionOp(op) && (op.Reserve? || op.Renew? || op.AppendReserved?)
    requires Inv(s) && SessionStep(s, op, now).Change? && now <= later
    ensures op.id in SessionStep(s, op, now).state.sessions
    ensures HasLiveReservation(SessionStep(s, op, now).state.sessions[op.id], later) <==> later < now + 120 && later < U64_MAX
  {
    LeaseSteps(s, op, now);
    LeaseOf(s.sessions, op.id);
    LiveUntil(op, s.sessions[op.id], SessionStep(s, op, now).state.sessions[op.id], now, later);
  }

  lemma LeaseSteps(s: State, op: Op, now: nat)
    requires IsSessionOp(op) && (op.Reserve? || op.Renew? || op.AppendReserved?) && SessionStep(s, op, now).Change?
    ensures op.id in s.sessions && op.id in SessionStep(s, op, now).state.sessions
    ensures Leases(op, s.sessions[op.id])
    ensures LeaseEffects(op, s.sessions[op.id], SessionStep(s, op, now).state.sessions[op.id], now)
    ensures SessionStep(s, op, now).state.sessions[op.id].inflight == s.sessions[op.id].inflight
  {
    OtherLeases(s, op, now);
  }

  lemma LeaseOf(sessions: map<string, Session>, id: string)
    requires SessionsInv(sessions) && id in sessions
    ensures LeaseInv(sessions[id])
  {
    assert SessionInv(id, sessions[id]);
  }

  lemma LiveUntil(op: Op, b: Session, a: Session, now: nat, later: nat)
    requires Leases(op, b) && LeaseInv(b) && LeaseEffects(op, b, a, now) && a.inflight == b.inflight
    ensures HasLiveReservation(a, later) <==> later < now + 120 && later < U64_MAX
  {}

  // ---------- Roles over a run ----------

  /** The message waits in the session with these roles. */
  ghost predicate WaitsWith(s: State, id: string, message: string, roles: seq<string>) {
    id in s.sessions && Contains(s.sessions[id].queued, message) && RolesOf(s.sessions[id], message) == roles
  }

  /** The operation may take the message out of the queue. */
  predicate Takes(op: Op, id: string, message: string) {
    || Ends(op, id)
    || (op.Begin? && op.id == id && op.message.id == message)
    || (Cancels(op) && op.id == id)
  }

  lemma WaitsOn(s: State, op: Op, now: nat, id: string, message: string, roles: seq<string>)
    requires WaitsWith(s, id, message, roles) && Step(s, op, now).Change? && !Takes(op, id, message)
    ensures WaitsWith(Step(s, op, now).state, id, message, roles)
  {
    SessionsNamed(s, op, now);
    QueueChanges(s, op, now, id);
    if !Addresses(s, op, now, id) {
      OthersStay(s, op, now, id);
    } else if op.RecoverReservations? {
      ReleasedSession(s, now, id);
    } else {
      SessionEffects(s, op, now);
      StillQueued(op, id, s.sessions[id], Step(s, op, now).state.sessions[id], message);
    }
  }

  lemma StillQueued(op: Op, id: string, b: Session, a: Session, message: string)
    requires (IsSessionOp(op) || IsTurnOp(op)) && op.id == id && Contains(b.queued, message) && !Takes(op, id, message)
    requires QueueStepChanges(op, id, b.queued, a.queued) && RolesEffect(op, b, a)
    requires op.Queue? ==> a.queued != b.queued
    ensures Contains(a.queued, message) && RolesOf(a, message) == RolesOf(b, message)
  {
    QueueKeeps(op, id, b.queued, a.queued, message);
  }

  lemma QueueKeeps(op: Op, id: string, before: seq<Message>, after: seq<Message>, message: string)
    requires QueueStepChanges(op, id, before, after) && Contains(before, message) && !Takes(op, id, message)
    ensures Contains(after, message)
    ensures op.Queue? && op.id == id && after != before ==> op.message.id != message
  {
    var k :| 0 <= k < |before| && before[k].id == message;
    if op.Begin? && op.id == id && OneRemoved(before, after, op.message.id) {
      var i :| 0 <= i < |before| && before[i].id == op.message.id && after == before[..i] + before[i + 1..];
      assert after[if k < i then k else k - 1].id == message;
    } else {
      assert after != [] ==> after[k].id == message;
    }
  }

  lemma {:induction false} WaitsThroughout(s: State, calls: seq<Call>, id: string, message: string, roles: seq<string>)
    requires WaitsWith(s, id, message, roles) && forall i :: 0 <= i < |calls| ==> !Takes(calls[i].op, id, message)
    ensures WaitsWith(Run(s, calls), id, message, roles)
    decreases |calls|
  {
    if calls != [] {
      var call := calls[0];
      if Step(s, call.op, call.now).Change? { WaitsOn(s, call.op, call.now, id, message, roles); }
      WaitsThroughout(Apply(s, call.op, call.now, call.saved).0, calls[1..], id, message, roles);
    }
  }

  /** Over every run, a message that was queued with roles and is begun without any runs with the roles it
      was queued with, whatever happened in between. */
  lemma {:induction false} QueuedRolesAreUsed(s: State, id: string, message: Message, roles: seq<string>, before: nat, calls: seq<Call>, deferred: Option<(string, string)>, now: nat)
    requires Step(s, Queue(id, message, roles), before).Change?
    requires forall i :: 0 <= i < |calls| ==> !Takes(calls[i].op, id, message.id)
    requires Step(Run(Step(s, Queue(id, message, roles), before).state, calls), Begin(id, message, [], deferred), now).Change?
    ensures var after := Run(Step(s, Queue(id, message, roles), before).state, calls);
            Step(after, Begin(id, message, [], deferred), now).state.sessions[id].inflightRoles == roles
  {
    QueuedWaits(s, id, message, roles, before);
    var queued := Step(s, Queue(id, message, roles), before).state;
    WaitsThroughout(queued, calls, id, message.id, roles);
    BegunWith(Run(queued, calls), id, message, roles, deferred, now);
  }

  lemma BegunWith(s: State, id: string, message: Message, roles: seq<string>, deferred: Option<(string, string)>, now: nat)
    requires WaitsWith(s, id, message.id, roles) && Step(s, Begin(id, message, [], deferred), now).Change?
    ensures id in Step(s, Begin(id, message, [], deferred), now).state.sessions
    ensures Step(s, Begin(id, message, [], deferred), now).state.sessions[id].inflightRoles == roles
  {
    SessionEffects(s, Begin(id, message, [], deferred), now);
  }

  lemma QueuedWaits(s: State, id: string, message: Message, roles: seq<string>, now: nat)
    requires Step(s, Queue(id, message, roles), now).Change?
    ensures WaitsWith(Step(s, Queue(id, message, roles), now).state, id, message.id, roles)
  {
    SessionEffects(s, Queue(id, message, roles), now);
    QueuedIsThere(s, id, message, roles, now);
  }

  lemma QueuedIsThere(s: State, id: string, message: Message, roles: seq<string>, now: nat)
    requires TurnStep(s, Queue(id, message, roles), now).Change?
    ensures id in s.sessions && id in TurnStep(s, Queue(id, message, roles), now).state.sessions
    ensures var b, a := s.sessions[id], TurnStep(s, Queue(id, message, roles), now).state.sessions[id];
            a.queued == b.queued + [message] && !Contains(b.queued, message.id) && Contains(a.queued, message.id)
  {
    var b, a := s.sessions[id], TurnStep(s, Queue(id, message, roles), now).state.sessions[id];
    assert a.queued[|b.queued|].id == message.id;
  }

  // ---------- Deliveries ----------

  /** Only this one delivery differs. */
  ghost predicate OneDiffers(before: seq<Delivery>, after: seq<Delivery>, i: nat) {
    |after| == |before| && i < |before| && forall k :: 0 <= k < |before| && k != i ==> after[k] == before[k]
  }

  /** It is addressed and was made as before. */
  predicate SameDelivery(d: Delivery, e: Delivery) {
    e.id == d.id && e.route == d.route && e.created == d.created
  }

  predicate IsFresh(e: Delivery, id: string, route: Route, text: string, status: DeliveryStatus, now: nat) {
    && e.id == id && e.route == route && e.text == text && e.status == status
    && e.created == now && e.updated == now && e.lastError.None? && e.messageId.None?
  }

  function MarkOf(op: Op): DeliveryStatus
    requires IsMarkOp(op)
  {
    if op.StreamSending? || op.MarkSending? then Sending
    else if op.StreamStarted? || op.StreamUpdated? then Streaming
    else if op.MarkUncertain? then Uncertain
    else Pending
  }

  /** An update names one delivery and sets its status, the text it streams or the ID it got; an error stays
      only with an uncertain one. */
  lemma MarkedDelivery(s: State, op: Op, now: nat)
    requires IsMarkOp(op) && DeliveryStep(s, op, now).Change?
    ensures HasDelivery(s.outbox, op.delivery)
    ensures var i, next := DeliveryIndex(s.outbox, op.delivery), DeliveryStep(s, op, now).state.outbox;
      && OneDiffers(s.outbox, next, i) && SameDelivery(s.outbox[i], next[i])
      && next[i].status == MarkOf(op) && next[i].updated == now
      && next[i].text == (if op.StreamSending? then op.text else s.outbox[i].text)
      && next[i].messageId == (if op.StreamStarted? then Some(op.messageId) else s.outbox[i].messageId)
      && next[i].lastError == (if op.MarkUncertain? then Some(op.error) else None)
  {}

  lemma QueuedDelivery(s: State, id: string, route: Route, text: string, now: nat)
    requires DeliveryStep(s, QueueDelivery(id, route, text), now).Change?
    ensures var next := DeliveryStep(s, QueueDelivery(id, route, text), now).state.outbox;
      if HasDelivery(s.outbox, id) then next == s.outbox
      else |next| == |s.outbox| + 1 && s.outbox < next && IsFresh(next[|s.outbox|], id, route, text, Pending, now)
  {}

  /** A reply is delivered where it was asked for: by a new delivery, or by the stream of this very turn, which
      is pending again unless it may have been sent already. */
  lemma ReplyDelivery(s: State, op: Op, now: nat)
    requires op.Reply? && TurnStep(s, op, now).Change?
    ensures op.id in s.sessions
    ensures var next, i := TurnStep(s, op, now).state.outbox, DeliveryIndex(s.outbox, op.delivery);
      var route := Route(op.channel, op.chat, s.sessions[op.id].isPrivate, op.thread);
      if i == |s.outbox| then |next| == i + 1 && s.outbox < next && IsFresh(next[i], op.delivery, route, op.text, Pending, now)
      else if s.sessions[op.id].streamDelivery != Some(op.delivery) then next == s.outbox
      else
        var d := s.outbox[i];
        && OneDiffers(s.outbox, next, i) && next[i].id == d.id && next[i].created == d.created && next[i].messageId == d.messageId
        && next[i].route == route && next[i].text == op.text && next[i].updated == now
        && (if d.status == Pending || d.status == Streaming then next[i].status == Pending && next[i].lastError.None?
            else next[i].status == Uncertain && next[i].lastError == d.lastError)
  {
    if HasDelivery(s.outbox, op.delivery) { StatusCases(FindDelivery(s.outbox, op.delivery).status); }
  }

  lemma StreamedDelivery(s: State, op: Op, now: nat)
    requires op.StartStream? && TurnStep(s, op, now).Change?
    ensures op.id in s.sessions && s.sessions[op.id].inflight.Some? && !HasDelivery(s.outbox, op.delivery)
    ensures var next := TurnStep(s, op, now).state.outbox;
      var route := Route(op.channel, op.chat, s.sessions[op.id].isPrivate, op.thread);
      |next| == |s.outbox| + 1 && s.outbox < next && IsFresh(next[|s.outbox|], op.delivery, route, op.text, Sending, now)
  {}

  /** A turn that is cleared leaves its stream uncertain if that was under way, and no other delivery different. */
  lemma ClearedDelivery(s: State, id: string, status: string, now: nat)
    requires TurnStep(s, Clear(id, status), now).Change?
    ensures id in s.sessions
    ensures var next, stream := TurnStep(s, Clear(id, status), now).state.outbox, s.sessions[id].streamDelivery;
      if stream.None? || !HasDelivery(s.outbox, stream.value) || FindDelivery(s.outbox, stream.value).status in {Pending, Uncertain}
      then next == s.outbox
      else
        var i := DeliveryIndex(s.outbox, stream.value);
        && OneDiffers(s.outbox, next, i) && SameDelivery(s.outbox[i], next[i])
        && next[i].status == Uncertain && next[i].lastError.Some? && next[i].updated == now
        && next[i].text == s.outbox[i].text && next[i].messageId == s.outbox[i].messageId
  {
    var stream := s.sessions[id].streamDelivery;
    if stream.Some? && HasDelivery(s.outbox, stream.value) { ClearedCases(FindDelivery(s.outbox, stream.value).status); }
  }

  lemma ClearedCases(status: DeliveryStatus)
    ensures status in {Pending, Uncertain} <==> status !in {Sending, Streaming}
  {
    match status {
      case Pending => case Sending => case Streaming => case Uncertain =>
    }
  }

  /** The last of the dead letters, and the ninety-nine most recent ones before it. */
  ghost predicate Buried(before: seq<Delivery>, after: seq<Delivery>, d: Delivery) {
    && after != [] && after[|after| - 1] == d
    && |after| == (if |before| >= 100 then 100 else |before| + 1)
    && forall k :: 0 <= k < |after| - 1 ==> after[k] == before[|before| + 1 - |after| + k]
  }

  lemma RecentMeaning(before: seq<Delivery>, d: Delivery)
    requires |before| <= 100
    ensures Buried(before, Recent(before + [d]), d)
  {}

  /** A dead delivery is buried as it was, behind the most recent ones. */
  lemma BuriedDelivery(s: State, id: string, now: nat)
    requires |s.dead| <= 100 && DeliveryStep(s, Dead(id), now).Change?
    ensures HasDelivery(s.outbox, id) && Buried(s.dead, DeliveryStep(s, Dead(id), now).state.dead, FindDelivery(s.outbox, id))
  {
    RecentMeaning(s.dead, FindDelivery(s.outbox, id));
  }

  /** A purge takes all sessions or all deliveries, the dead letters among them, or both, and nothing else. */
  lemma PurgedStore(s: State, sessions: bool, deliveries: bool, now: nat)
    requires CatalogStep(s, Purge(sessions, deliveries), now).Change?
    ensures var next := CatalogStep(s, Purge(sessions, deliveries), now).state;
      && next.sessions == (if sessions then map[] else s.sessions) && next.events == s.events
      && (if deliveries then next.outbox == next.dead == [] else next.outbox == s.outbox && next.dead == s.dead)
  {}

  lemma DeadStay(s: State, op: Op, now: nat)
    requires Step(s, op, now).Change? && !op.Dead? && !(op.Purge? && op.deliveries)
    ensures Step(s, op, now).state.dead == s.dead
  {
    if IsCatalogOp(op) {
      CatalogKeepsDead(s, op, now);
    } else if IsTurnOp(op) {
      TurnKeepsDead(s, op, now);
    } else if IsDeliveryOp(op) {
      DeliveryKeepsDead(s, op, now);
    } else if IsEventOp(op) {
      EventKeepsDead(s, op, now);
    } else {
      SessionKeepsDead(s, op, now);
    }
  }

  lemma CatalogKeepsDead(s: State, op: Op, now: nat)
    requires IsCatalogOp(op) && CatalogStep(s, op, now).Change? && !(op.Purge? && op.deliveries)
    ensures CatalogStep(s, op, now).state.dead == s.dead
  {}

  lemma TurnKeepsDead(s: State, op: Op, now: nat)
    requires IsTurnOp(op) && TurnStep(s, op, now).Change?
    ensures TurnStep(s, op, now).state.dead == s.dead
  {}

  lemma DeliveryKeepsDead(s: State, op: Op, now: nat)
    requires IsDeliveryOp(op) && !op.Dead? && DeliveryStep(s, op, now).Change?
    ensures DeliveryStep(s, op, now).state.dead == s.dead
  {}

  lemma EventKeepsDead(s: State, op: Op, now: nat)
    requires IsEventOp(op) && EventStep(s, op, now).Change?
    ensures EventStep(s, op, now).state.dead == s.dead
  {}

  lemma SessionKeepsDead(s: State, op: Op, now: nat)
    requires IsSessionOp(op) && SessionStep(s, op, now).Change?
    ensures SessionStep(s, op, now).state.dead == s.dead
  {}

  // ---------- Channel events ----------

  /** Beginning a message that its channel had deferred takes it out of those that wait there, with its
      acknowledgement; the other channels wait as before, and without such a channel nothing changes. */
  lemma BegunEvents(s: State, op: Op, now: nat)
    requires op.Begin? && TurnStep(s, op, now).Change?
    ensures var a, b := TurnStep(s, op, now).state.events, s.events;
      match op.deferred
      case None => a == b
      case Some((channel, key)) =>
        && (forall e :: e in Events.Deferred(a, channel) <==> e in Events.Deferred(b, channel) && !Events.Named(e, op.message.id))
        && (forall other :: other != channel ==> Events.Deferred(a, other) == Events.Deferred(b, other))
        && a.acknowledged == b.acknowledged - {key} && a.seen == b.seen && a.offsets == b.offsets
  {
    if op.deferred.Some? { Events.WithoutMeaning(Events.Deferred(s.events, op.deferred.value.0), op.message.id); }
  }

  /** A deferred event waits last in its channel, which had room, and did not wait there before. */
  lemma DeferredEvent(s: State, channel: string, event: Events.Event, fits: bool)
    ensures DeferStep(s, channel, event, fits).Change? <==>
      fits && |Events.Deferred(s.events, channel)| < 100 && !Events.Waits(Events.Deferred(s.events, channel), event.id)
    ensures DeferStep(s, channel, event, fits).Change? ==>
      var a, b := DeferStep(s, channel, event, fits).state.events, s.events;
      && Events.Deferred(a, channel) == Events.Deferred(b, channel) + [event]
      && (forall other :: other != channel ==> Events.Deferred(a, other) == Events.Deferred(b, other))
      && a.acknowledged == b.acknowledged && a.seen == b.seen && a.offsets == b.offsets
  {}

  /** A commit is always made, and is about its event and its channel alone. */
  lemma CommittedEvent(s: State, op: Op, now: nat)
    requires op.Commit?
    ensures EventStep(s, op, now).Change?
    ensures var a, b := EventStep(s, op, now).state.events, s.events;
      && EventStep(s, op, now).state == s.(events := a)
      && op.key in a.seen && a.seen[op.key] == now && (!op.retained ==> !Events.HasDeferred(a, op.channel, op.eventId))
      && (op.offset.Some? ==> Events.OffsetOf(a, op.channel).Some? && Events.OffsetOf(a, op.channel).value >= op.offset.value)
      && forall other :: other != op.channel ==>
           Events.Deferred(a, other) == Events.Deferred(b, other) && Events.OffsetOf(a, other) == Events.OffsetOf(b, other)
  {
    Events.CommitMeaning(s.events, op.channel, op.eventId, op.key, op.offset, op.retained, now);
    Events.CommitOffsets(s.events, op.channel, op.eventId, op.key, op.offset, op.retained, now);
    Events.CommitTimes(s.events, op.channel, op.eventId, op.key, op.offset, op.retained, now);
  }

  /** Only an event that waits is acknowledged, once, and nothing else changes. */
  lemma AcknowledgedEvent(s: State, channel: string, eventId: string, key: string)
    ensures AcknowledgeStep(s, channel, eventId, key).Change? <==>
      key !in s.events.acknowledged && exists e :: e in Events.Deferred(s.events, channel) && Events.Named(e, eventId)
    ensures AcknowledgeStep(s, channel, eventId, key).Change? ==>
      AcknowledgeStep(s, channel, eventId, key).state == s.(events := s.events.(acknowledged := s.events.acknowledged + {key}))
  {
    if Events.HasDeferred(s.events, channel, eventId) {
      var i :| 0 <= i < |s.events.deferred[channel]| && Events.Named(s.events.deferred[channel][i], eventId);
      assert s.events.deferred[channel][i] in Events.Deferred(s.events, channel);
    }
  }
}
