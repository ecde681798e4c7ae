/** The session store of `krabb-runtime/src/state.rs` as a state machine: what each operation does
    to sessions, outbox and dead letters. The clock and the outcome of each save are inputs. */
module StoreModel {
  import opened Wrappers
  import opened Integers
  import opened Messages
  import opened Compaction
  import Events = ChannelEvents

  const LIMIT := 100
  const SCHEDULE_SESSION_LIMIT := 1_000
  const TUI_RESERVATION_TTL := 120

  const WORKING := "working"
  const IDLE := "idle"
  const CANCELLED := "cancelled"
  const INTERRUPTED := "interrupted"

  datatype Phase = Safe | Unsafe

  datatype Session = Session(
    id: string,
    scheduled: bool,
    channel: Option<string>,
    isPrivate: bool,
    messages: seq<Message>,
    compactedThrough: Option<string>,
    compactedContext: Option<seq<Message>>,
    queued: seq<Message>,
    queueRoles: map<string, seq<string>>,
    inflight: Option<Message>,
    reservationUntil: Option<nat>,
    reservationOwner: Option<string>,
    inflightRoles: seq<string>,
    streamDelivery: Option<string>,
    phase: Phase,
    status: string,
    updated: nat)

  datatype DeliveryStatus = Pending | Sending | Streaming | Uncertain

  datatype Route = Route(channel: string, chat: string, isPrivate: bool, thread: Option<string>)

  datatype Delivery = Delivery(
    id: string,
    route: Route,
    text: string,
    created: nat,
    status: DeliveryStatus,
    lastError: Option<string>,
    messageId: Option<string>,
    updated: nat)

  datatype State = State(sessions: map<string, Session>, outbox: seq<Delivery>, dead: seq<Delivery>, events: Events.EventState)

  const EmptyState := State(map[], [], [], Events.NoEvents)

  datatype StoreError = NotFound | WouldBlock | InvalidInput | AlreadyExists | SaveFailed

  // ---------- Identifiers and clocks ----------

  predicate IsDigit(c: char) {
    '0' <= c <= '9'
  }

  predicate ValidId(id: string) {
    id != "" && forall c :: c in id ==> 'a' <= c <= 'z' || IsDigit(c) || c == '-'
  }

  const SCHEDULE_PREFIX := "schedule-"

  predicate IsScheduleId(id: string) {
    |id| > |SCHEDULE_PREFIX| && SCHEDULE_PREFIX <= id && forall c :: c in id[|SCHEDULE_PREFIX|..] ==> IsDigit(c)
  }

  function SaturatingAdd(a: nat, b: nat): nat {
    if a + b > U64_MAX then U64_MAX else a + b
  }

  predicate ReservationExpired(until: Option<nat>, updated: nat, now: nat) {
    match until
    case Some(time) => time <= now
    case None => SaturatingAdd(updated, TUI_RESERVATION_TTL) <= now
  }

  predicate HasLiveReservation(s: Session, now: nat) {
    s.status == WORKING && s.inflight.None? && !ReservationExpired(s.reservationUntil, s.updated, now)
  }

  // ---------- Operations ----------

  datatype Op =
    | Create(id: string, scheduled: bool, blankModel: bool)
    | Rename(source: string, target: string)
    | Push(id: string, message: Message, resumeCancelled: bool)
    | AppendNotice(id: string, message: Message)
    | AppendReserved(id: string, owner: string, message: Message)
    | SetContextReserved(id: string, owner: string, context: seq<Message>)
    | ClearHistory(id: string)
    | Queue(id: string, message: Message, roles: seq<string>)
    | Begin(id: string, message: Message, roles: seq<string>, deferred: Option<(string, string)>)
    | Clear(id: string, status: string)
    | Reply(id: string, message: Message, delivery: string, channel: string, chat: string, thread: Option<string>, text: string)
    | StartStream(id: string, delivery: string, channel: string, chat: string, thread: Option<string>, text: string)
    | StreamSending(delivery: string, text: string)
    | StreamStarted(delivery: string, messageId: string)
    | StreamUpdated(delivery: string)
    | SetStatus(id: string, status: string)
    | Reserve(id: string, owner: string)
    | RecoverReservations
    | Renew(id: string, owner: string)
    | Fork(source: string, target: string)
    | SetPhase(id: string, phase: Phase)
    | Remove(id: string)
    | Purge(sessions: bool, deliveries: bool)
    | QueueDelivery(delivery: string, route: Route, text: string)
    | Ack(delivery: string)
    | MarkSending(delivery: string)
    | MarkUncertain(delivery: string, error: string)
    | RetryDelivery(delivery: string)
    | Dead(delivery: string)
    | Defer(channel: string, event: Events.Event, fits: bool)
    | Acknowledge(channel: string, eventId: string, key: string)
    | Commit(channel: string, eventId: string, key: string, offset: Option<int>, retained: bool)

  /** What an operation does before its save: refuse, leave everything as it is, or change the state. */
  datatype Outcome = Refuse(error: StoreError) | Keep | Change(state: State)

  // ---------- Sessions ----------

  function NewSession(id: string, scheduled: bool, now: nat): Session {
    Session(id, scheduled, None, true, [], None, None, [], map[], None, None, None, [], None, Safe, IDLE, now)
  }

  function WithStatus(s: Session, status: string): Session {
    s.(status := status, reservationUntil := None, reservationOwner := None)
  }

  function Appended(s: Session, message: Message, now: nat): Session {
    s.(messages := Compacted(s.messages + [message]), updated := now)
  }

  predicate HeldBy(s: Session, owner: string) {
    s.inflight.None? && s.status == WORKING && s.reservationOwner == Some(owner)
  }

  function Extended(s: Session, now: nat): Session {
    if s.reservationUntil.Some? then s.(reservationUntil := Some(SaturatingAdd(now, TUI_RESERVATION_TTL))) else s
  }

  /** The index of the first message with an ID, or the length. */
  function IndexOf(messages: seq<Message>, id: string): (i: nat)
    ensures i <= |messages|
    ensures i < |messages| ==> messages[i].id == id
  {
    if messages == [] || messages[0].id == id then 0 else 1 + IndexOf(messages[1..], id)
  }

  predicate Contains(messages: seq<Message>, id: string) {
    exists i :: 0 <= i < |messages| && messages[i].id == id
  }

  function WithoutFirst(messages: seq<Message>, id: string): seq<Message> {
    var i := IndexOf(messages, id);
    if i < |messages| then messages[..i] + messages[i + 1..] else messages
  }

  function Relabelled(messages: seq<Message>, session: string): (r: seq<Message>)
    ensures |r| == |messages| && forall i :: 0 <= i < |r| ==> r[i] == messages[i].(session := session)
  {
    seq(|messages|, i requires 0 <= i < |messages| => messages[i].(session := session))
  }

  function Renamed(s: Session, target: string, now: nat): Session {
    s.(id := target, updated := now, messages := Relabelled(s.messages, target), queued := Relabelled(s.queued, target))
  }

  function Begun(s: Session, message: Message, roles: seq<string>, now: nat): Session {
    var queuedRoles := if message.id in s.queueRoles then s.queueRoles[message.id] else [];
    s.(queued := WithoutFirst(s.queued, message.id),
       queueRoles := s.queueRoles - {message.id},
       messages := if Contains(s.messages, message.id) then s.messages else Compacted(s.messages + [message]),
       inflight := Some(message),
       inflightRoles := if roles == [] then queuedRoles else roles,
       streamDelivery := None,
       phase := Safe,
       status := WORKING,
       reservationUntil := None,
       reservationOwner := None,
       updated := now)
  }

  function Enqueued(s: Session, message: Message, roles: seq<string>, now: nat): Session {
    var queued := s.(
      queueRoles := if roles == [] then s.queueRoles - {message.id} else s.queueRoles[message.id := roles],
      queued := s.queued + [message],
      updated := now);
    if s.status == CANCELLED then WithStatus(queued, IDLE) else queued
  }

  function Unqueued(s: Session, status: string): Session {
    if status == CANCELLED then s.(queued := [], queueRoles := map[]) else s
  }

  function Cleared(s: Session, status: string, now: nat): Session {
    WithStatus(Unqueued(s, status).(inflight := None, inflightRoles := [], streamDelivery := None, phase := Safe, updated := now), status)
  }

  function Forked(s: Session, target: string, now: nat): Session {
    NewSession(target, false, now).(
      channel := s.channel,
      isPrivate := s.isPrivate,
      messages := Relabelled(s.messages, target),
      compactedThrough := s.compactedThrough,
      compactedContext := match s.compactedContext
        case None => None
        case Some(context) => Some(Relabelled(context, target)))
  }

  function Restatused(s: Session, status: string, now: nat): Session {
    if s.status == CANCELLED && s.inflight.Some? && status != CANCELLED then s
    else
      var u := Unqueued(s, status).(status := status, updated := now);
      if status != WORKING then u.(reservationUntil := None, reservationOwner := None) else u
  }

  predicate Busy(s: Session) {
    s.status == WORKING || s.inflight.Some?
  }

  predicate Overdue(s: Session, now: nat) {
    s.status == WORKING && s.inflight.None? && ReservationExpired(s.reservationUntil, s.updated, now)
  }

  function Released(s: Session, now: nat): Session {
    if Overdue(s, now) then WithStatus(s, IDLE).(updated := now) else s
  }

  // ---------- Deliveries ----------

  function DeliveryIndex(outbox: seq<Delivery>, id: string): (i: nat)
    ensures i <= |outbox|
    ensures i < |outbox| ==> outbox[i].id == id
  {
    if outbox == [] || outbox[0].id == id then 0 else 1 + DeliveryIndex(outbox[1..], id)
  }

  predicate HasDelivery(outbox: seq<Delivery>, id: string) {
    DeliveryIndex(outbox, id) < |outbox|
  }

  function FindDelivery(outbox: seq<Delivery>, id: string): Delivery
    requires HasDelivery(outbox, id)
  {
    outbox[DeliveryIndex(outbox, id)]
  }

  function Updated(outbox: seq<Delivery>, delivery: Delivery): seq<Delivery>
    requires HasDelivery(outbox, delivery.id)
  {
    outbox[DeliveryIndex(outbox, delivery.id) := delivery]
  }

  function Delivered(outbox: seq<Delivery>, id: string): seq<Delivery>
    requires HasDelivery(outbox, id)
  {
    var i := DeliveryIndex(outbox, id);
    outbox[..i] + outbox[i + 1..]
  }

  function NewDelivery(id: string, route: Route, text: string, status: DeliveryStatus, now: nat): Delivery {
    Delivery(id, route, text, now, status, None, None, now)
  }

  /** A turn that ends leaves its unfinished stream uncertain. */
  function EndedStream(outbox: seq<Delivery>, id: Option<string>, now: nat): seq<Delivery> {
    if id.Some? && HasDelivery(outbox, id.value) && FindDelivery(outbox, id.value).status in {Sending, Streaming} then
      Updated(outbox, FindDelivery(outbox, id.value).(
        status := Uncertain, lastError := Some("The turn ended before streaming completed."), updated := now))
    else outbox
  }

  /** The delivery of a finished reply that was streamed. */
  function CompletedStream(d: Delivery, route: Route, text: string, now: nat): Delivery {
    var uncertain := d.status in {Sending, Uncertain};
    d.(route := route, text := text, status := if uncertain then Uncertain else Pending,
       lastError := if uncertain then d.lastError else None, updated := now)
  }

  function Recent(dead: seq<Delivery>): seq<Delivery> {
    if |dead| > LIMIT then dead[|dead| - LIMIT..] else dead
  }

  // ---------- The operations as steps ----------

  function Users(sessions: map<string, Session>): set<string> {
    set id | id in sessions && !sessions[id].scheduled
  }

  function Schedules(sessions: map<string, Session>): set<string> {
    set id | id in sessions && sessions[id].scheduled
  }

  function Put(s: State, id: string, session: Session): Outcome {
    Change(s.(sessions := s.sessions[id := session]))
  }

  /** What an update sets in a delivery besides its status, error and time. */
  datatype Detail = Nothing | Text(text: string) | SentAs(messageId: string)

  function Marked(d: Delivery, status: DeliveryStatus, error: Option<string>, detail: Detail, now: nat): Delivery {
    var marked := d.(status := status, lastError := error, updated := now);
    match detail
    case Nothing => marked
    case Text(text) => marked.(text := text)
    case SentAs(messageId) => marked.(messageId := Some(messageId))
  }

  function MarkStep(s: State, id: string, status: DeliveryStatus, error: Option<string>, detail: Detail, now: nat): Outcome {
    if !HasDelivery(s.outbox, id) then Refuse(NotFound)
    else Change(s.(outbox := Updated(s.outbox, Marked(FindDelivery(s.outbox, id), status, error, detail, now))))
  }

  function CreateStep(s: State, id: string, scheduled: bool, blankModel: bool, now: nat): Outcome {
    if !ValidId(id) || IsScheduleId(id) != scheduled || blankModel then Refuse(InvalidInput)
    else if id in s.sessions then Refuse(AlreadyExists)
    else if |if scheduled then Schedules(s.sessions) else Users(s.sessions)|
              >= (if scheduled then SCHEDULE_SESSION_LIMIT else LIMIT) then Refuse(WouldBlock)
    else Put(s, id, NewSession(id, scheduled, now))
  }

  function RenameStep(s: State, source: string, target: string, now: nat): Outcome {
    if !ValidId(source) || !ValidId(target) || source == target then Refuse(InvalidInput)
    else if target in s.sessions then Refuse(AlreadyExists)
    else if source !in s.sessions then Refuse(NotFound)
    else if s.sessions[source].scheduled || IsScheduleId(target) || s.sessions[source].channel.Some? then Refuse(InvalidInput)
    else if Busy(s.sessions[source]) then Refuse(WouldBlock)
    else Change(s.(sessions := (s.sessions - {source})[target := Renamed(s.sessions[source], target, now)]))
  }

  function PushStep(s: State, id: string, message: Message, resumeCancelled: bool, now: nat): Outcome {
    if id !in s.sessions then Refuse(NotFound)
    else
      var session := Appended(s.sessions[id], message, now);
      Put(s, id, if session.status != CANCELLED || resumeCancelled then WithStatus(session, IDLE) else session)
  }

  /** A begun message that its channel had deferred is deferred no longer; `deferred` is the channel
      and the key the message is seen under. */
  function Undeferred(e: Events.EventState, message: Message, deferred: Option<(string, string)>): Events.EventState {
    if deferred.None? then e else Events.Cleared(e, deferred.value.0, message.id, deferred.value.1)
  }

  function BeginStep(s: State, id: string, message: Message, roles: seq<string>, deferred: Option<(string, string)>, now: nat): Outcome {
    if id !in s.sessions then Refuse(NotFound)
    else
      var session := s.sessions[id];
      if HasLiveReservation(session, now) || session.inflight.Some?
         || (session.status == WORKING && !Contains(session.queued, message.id)) then Refuse(WouldBlock)
      else Change(s.(
        sessions := s.sessions[id := Begun(session, message, roles, now)],
        events := Undeferred(s.events, message, deferred)))
  }

  function QueueStep(s: State, id: string, message: Message, roles: seq<string>, now: nat): Outcome {
    if id !in s.sessions then Refuse(NotFound)
    else
      var session := s.sessions[id];
      if Contains(session.queued, message.id) then Keep
      else if |session.queued| + (if session.inflight.Some? then 1 else 0) >= LIMIT then Refuse(WouldBlock)
      else Put(s, id, Enqueued(session, message, roles, now))
  }

  function ClearStep(s: State, id: string, status: string, now: nat): Outcome {
    if id !in s.sessions then Refuse(NotFound)
    else Change(s.(
      sessions := s.sessions[id := Cleared(s.sessions[id], status, now)],
      outbox := EndedStream(s.outbox, s.sessions[id].streamDelivery, now)))
  }

  function Replied(s: Session, message: Message, now: nat): Session {
    WithStatus(Appended(s, message, now).(inflight := None, inflightRoles := [], streamDelivery := None, phase := Safe), IDLE)
  }

  /** The delivery of a reply: a new one, or the stream the turn completes. */
  function RepliedOutbox(outbox: seq<Delivery>, id: string, completing: bool, route: Route, text: string, now: nat): seq<Delivery> {
    if !HasDelivery(outbox, id) then outbox + [NewDelivery(id, route, text, Pending, now)]
    else if completing then Updated(outbox, CompletedStream(FindDelivery(outbox, id), route, text, now))
    else outbox
  }

  function ReplyStep(s: State, id: string, message: Message, delivery: string, channel: string, chat: string,
                     thread: Option<string>, text: string, now: nat): Outcome {
    if id !in s.sessions then Refuse(NotFound)
    else if !HasDelivery(s.outbox, delivery) && |s.outbox| >= LIMIT then Refuse(WouldBlock)
    else
      var session := s.sessions[id];
      var route := Route(channel, chat, session.isPrivate, thread);
      Change(s.(
        sessions := s.sessions[id := Replied(session, message, now)],
        outbox := RepliedOutbox(s.outbox, delivery, session.streamDelivery == Some(delivery), route, text, now)))
  }

  function StartStreamStep(s: State, id: string, delivery: string, channel: string, chat: string,
                           thread: Option<string>, text: string, now: nat): Outcome {
    if id !in s.sessions then Refuse(NotFound)
    else
      var session := s.sessions[id];
      if session.inflight.None? || session.streamDelivery.Some? then Refuse(WouldBlock)
      else if HasDelivery(s.outbox, delivery) then Refuse(AlreadyExists)
      else if |s.outbox| >= LIMIT then Refuse(WouldBlock)
      else Change(s.(
        sessions := s.sessions[id := session.(phase := Unsafe, streamDelivery := Some(delivery), updated := now)],
        outbox := s.outbox + [NewDelivery(delivery, Route(channel, chat, session.isPrivate, thread), text, Sending, now)]))
  }

  function ReserveStep(s: State, id: string, owner: string, now: nat): Outcome {
    if id !in s.sessions then Refuse(NotFound)
    else if Busy(s.sessions[id]) then Refuse(WouldBlock)
    else Put(s, id, s.sessions[id].(
      status := WORKING,
      reservationUntil := Some(SaturatingAdd(now, TUI_RESERVATION_TTL)),
      reservationOwner := Some(owner),
      updated := now))
  }

  function ReleaseAll(sessions: map<string, Session>, now: nat): map<string, Session> {
    map id | id in sessions :: Released(sessions[id], now)
  }

  function RecoverReservationsStep(s: State, now: nat): Outcome {
    if forall id :: id in s.sessions ==> !Overdue(s.sessions[id], now) then Keep
    else Change(s.(sessions := ReleaseAll(s.sessions, now)))
  }

  function RenewStep(s: State, id: string, owner: string, now: nat): Outcome {
    if id !in s.sessions then Refuse(NotFound)
    else if !HeldBy(s.sessions[id], owner) || s.sessions[id].reservationUntil.None? then Refuse(WouldBlock)
    else Put(s, id, Extended(s.sessions[id], now))
  }

  function ForkStep(s: State, source: string, target: string, now: nat): Outcome {
    if !ValidId(target) then Refuse(InvalidInput)
    else if target in s.sessions then Refuse(AlreadyExists)
    else if source !in s.sessions then Refuse(NotFound)
    else if IsScheduleId(target) then Refuse(InvalidInput)
    else if |Users(s.sessions)| >= LIMIT then Refuse(WouldBlock)
    else Put(s, target, Forked(s.sessions[source], target, now))
  }

  function SetPhaseStep(s: State, id: string, phase: Phase, now: nat): Outcome {
    if id !in s.sessions then Refuse(NotFound)
    else if s.sessions[id].inflight.None? && !HasLiveReservation(s.sessions[id], now) then Refuse(InvalidInput)
    else Put(s, id, s.sessions[id].(phase := phase, updated := now))
  }

  function RemoveStep(s: State, id: string): Outcome {
    if id !in s.sessions then Refuse(NotFound)
    else if Busy(s.sessions[id]) then Refuse(WouldBlock)
    else Change(s.(sessions := s.sessions - {id}))
  }

  function PurgeStep(s: State, sessions: bool, deliveries: bool): Outcome {
    if sessions && exists id :: id in s.sessions && Busy(s.sessions[id]) then Refuse(WouldBlock)
    else if (!sessions || s.sessions == map[]) && (!deliveries || |s.outbox| + |s.dead| == 0) then Keep
    else Change(s.(
      sessions := if sessions then map[] else s.sessions,
      outbox := if deliveries then [] else s.outbox,
      dead := if deliveries then [] else s.dead))
  }

  function QueueDeliveryStep(s: State, delivery: string, route: Route, text: string, now: nat): Outcome {
    if |s.outbox| >= LIMIT then Refuse(WouldBlock)
    else Change(if HasDelivery(s.outbox, delivery) then s
                else s.(outbox := s.outbox + [NewDelivery(delivery, route, text, Pending, now)]))
  }

  function RetryStep(s: State, delivery: string, now: nat): Outcome {
    if !HasDelivery(s.outbox, delivery) then Refuse(NotFound)
    else if FindDelivery(s.outbox, delivery).status != Uncertain then Refuse(InvalidInput)
    else MarkStep(s, delivery, Pending, None, Nothing, now)
  }

  function AckStep(s: State, delivery: string): Outcome {
    if HasDelivery(s.outbox, delivery) then Change(s.(outbox := Delivered(s.outbox, delivery))) else Keep
  }

  function DeadStep(s: State, delivery: string): Outcome {
    if !HasDelivery(s.outbox, delivery) then Keep
    else Change(s.(
      outbox := Delivered(s.outbox, delivery),
      dead := Recent(s.dead + [FindDelivery(s.outbox, delivery)])))
  }

  function AppendNoticeStep(s: State, id: string, message: Message, now: nat): Outcome {
    if id !in s.sessions || message.session != id then Refuse(NotFound)
    else Put(s, id, Appended(s.sessions[id], message, now))
  }

  function AppendReservedStep(s: State, id: string, owner: string, message: Message, now: nat): Outcome {
    if id !in s.sessions then Refuse(NotFound)
    else if !HeldBy(s.sessions[id], owner) then Refuse(WouldBlock)
    else Put(s, id, Extended(Appended(s.sessions[id], message, now), now))
  }

  function SetContextReservedStep(s: State, id: string, owner: string, context: seq<Message>, now: nat): Outcome {
    if id !in s.sessions then Refuse(NotFound)
    else
      var session := s.sessions[id];
      if !HeldBy(session, owner) || exists i :: 0 <= i < |context| && context[i].session != id then Refuse(WouldBlock)
      else Put(s, id, session.(
        compactedThrough := if session.messages == [] then None else Some(session.messages[|session.messages| - 1].id),
        compactedContext := Some(context),
        updated := now))
  }

  function ClearHistoryStep(s: State, id: string, now: nat): Outcome {
    if id !in s.sessions then Refuse(NotFound)
    else Put(s, id, s.sessions[id].(messages := [], compactedThrough := None, compactedContext := None, updated := now))
  }

  function SetStatusStep(s: State, id: string, status: string, now: nat): Outcome {
    if id !in s.sessions then Refuse(NotFound) else Put(s, id, Restatused(s.sessions[id], status, now))
  }

  function DeferStep(s: State, channel: string, event: Events.Event, fits: bool): Outcome {
    var waiting := Events.Deferred(s.events, channel);
    if Events.Waits(waiting, event.id) then Keep
    else if |waiting| >= Events.DEFERRED_LIMIT || !fits then Refuse(WouldBlock)
    else Change(s.(events := s.events.(deferred := s.events.deferred[channel := waiting + [event]])))
  }

  function AcknowledgeStep(s: State, channel: string, eventId: string, key: string): Outcome {
    if key in s.events.acknowledged || !Events.HasDeferred(s.events, channel, eventId) then Keep
    else Change(s.(events := s.events.(acknowledged := s.events.acknowledged + {key})))
  }

  ghost function CommitStep(s: State, channel: string, eventId: string, key: string, offset: Option<int>, retained: bool, now: nat): Outcome {
    Change(s.(events := Events.Committed(s.events, channel, eventId, key, offset, retained, now)))
  }

  // ---------- Every operation ----------

  /** Sessions come and go. */
  predicate IsCatalogOp(op: Op) {
    op.Create? || op.Rename? || op.Fork? || op.Remove? || op.Purge? || op.RecoverReservations?
  }

  predicate IsTurnOp(op: Op) {
    op.Queue? || op.Begin? || op.Clear? || op.Reply? || op.StartStream?
  }

  predicate IsMarkOp(op: Op) {
    op.StreamSending? || op.StreamStarted? || op.StreamUpdated? || op.MarkSending? || op.MarkUncertain? || op.RetryDelivery?
  }

  predicate IsDeliveryOp(op: Op) {
    IsMarkOp(op) || op.QueueDelivery? || op.Ack? || op.Dead?
  }

  predicate IsEventOp(op: Op) {
    op.Defer? || op.Acknowledge? || op.Commit?
  }

  predicate IsSessionOp(op: Op) {
    !IsCatalogOp(op) && !IsTurnOp(op) && !IsDeliveryOp(op) && !IsEventOp(op)
  }

  function CatalogStep(s: State, op: Op, now: nat): Outcome
    requires IsCatalogOp(op)
  {
    match op
    case Create(id, scheduled, blankModel) => CreateStep(s, id, scheduled, blankModel, now)
    case Rename(source, target) => RenameStep(s, source, target, now)
    case Fork(source, target) => ForkStep(s, source, target, now)
    case Remove(id) => RemoveStep(s, id)
    case Purge(sessions, deliveries) => PurgeStep(s, sessions, deliveries)
    case RecoverReservations => RecoverReservationsStep(s, now)
  }

  function SessionStep(s: State, op: Op, now: nat): Outcome
    requires IsSessionOp(op)
  {
    match op
    case Push(id, message, resumeCancelled) => PushStep(s, id, message, resumeCancelled, now)
    case AppendNotice(id, message) => AppendNoticeStep(s, id, message, now)
    case AppendReserved(id, owner, message) => AppendReservedStep(s, id, owner, message, now)
    case SetContextReserved(id, owner, context) => SetContextReservedStep(s, id, owner, context, now)
    case ClearHistory(id) => ClearHistoryStep(s, id, now)
    case SetStatus(id, status) => SetStatusStep(s, id, status, now)
    case Reserve(id, owner) => ReserveStep(s, id, owner, now)
    case Renew(id, owner) => RenewStep(s, id, owner, now)
    case SetPhase(id, phase) => SetPhaseStep(s, id, phase, now)
  }

  function TurnStep(s: State, op: Op, now: nat): Outcome
    requires IsTurnOp(op)
  {
    match op
    case Queue(id, message, roles) => QueueStep(s, id, message, roles, now)
    case Begin(id, message, roles, deferred) => BeginStep(s, id, message, roles, deferred, now)
    case Clear(id, status) => ClearStep(s, id, status, now)
    case Reply(id, message, delivery, channel, chat, thread, text) =>
      ReplyStep(s, id, message, delivery, channel, chat, thread, text, now)
    case StartStream(id, delivery, channel, chat, thread, text) =>
      StartStreamStep(s, id, delivery, channel, chat, thread, text, now)
  }

  function DeliveryStep(s: State, op: Op, now: nat): Outcome
    requires IsDeliveryOp(op)
  {
    match op
    case StreamSending(delivery, text) => MarkStep(s, delivery, Sending, None, Text(text), now)
    case StreamStarted(delivery, messageId) => MarkStep(s, delivery, Streaming, None, SentAs(messageId), now)
    case StreamUpdated(delivery) => MarkStep(s, delivery, Streaming, None, Nothing, now)
    case MarkSending(delivery) => MarkStep(s, delivery, Sending, None, Nothing, now)
    case MarkUncertain(delivery, error) => MarkStep(s, delivery, Uncertain, Some(error), Nothing, now)
    case RetryDelivery(delivery) => RetryStep(s, delivery, now)
    case QueueDelivery(delivery, route, text) => QueueDeliveryStep(s, delivery, route, text, now)
    case Ack(delivery) => AckStep(s, delivery)
    case Dead(delivery) => DeadStep(s, delivery)
  }

  ghost function EventStep(s: State, op: Op, now: nat): Outcome
    requires IsEventOp(op)
  {
    match op
    case Defer(channel, event, fits) => DeferStep(s, channel, event, fits)
    case Acknowledge(channel, eventId, key) => AcknowledgeStep(s, channel, eventId, key)
    case Commit(channel, eventId, key, offset, retained) => CommitStep(s, channel, eventId, key, offset, retained, now)
  }

  ghost function Step(s: State, op: Op, now: nat): Outcome {
    if IsCatalogOp(op) then CatalogStep(s, op, now)
    else if IsTurnOp(op) then TurnStep(s, op, now)
    else if IsDeliveryOp(op) then DeliveryStep(s, op, now)
    else if IsEventOp(op) then EventStep(s, op, now)
    else SessionStep(s, op, now)
  }

  /** `change`: a failed save leaves the state as it was. */
  function Concluded(s: State, outcome: Outcome, saved: bool): (State, Result<(), StoreError>) {
    match outcome
    case Refuse(error) => (s, Err(error))
    case Keep => (s, Ok(()))
    case Change(next) => if saved then (next, Ok(())) else (s, Err(SaveFailed))
  }

  ghost function Apply(s: State, op: Op, now: nat, saved: bool): (State, Result<(), StoreError>) {
    Concluded(s, Step(s, op, now), saved)
  }

  /** One call: the operation, the clock it reads, and whether its save succeeds. */
  datatype Call = Call(op: Op, now: nat, saved: bool)

  ghost function Run(s: State, calls: seq<Call>): State
    decreases |calls|
  {
    if calls == [] then s else Run(Apply(s, calls[0].op, calls[0].now, calls[0].saved).0, calls[1..])
  }
}
