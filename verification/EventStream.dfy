/** The event-stream splitter of `krabb-plugins/a2a`: extraction does not depend on how the bytes
    arrive in chunks. */
module EventStream {
  import opened Wrappers
  import opened Integers
  import opened Sequences
  import opened Splitting

  const CR: byte := 13
  const LF: byte := 10
  const BODY_LIMIT := 4 * 1024 * 1024

  // ---------- Boundaries ----------

  predicate LfAt(s: seq<byte>, i: nat) {
    i + 2 <= |s| && s[i] == LF && s[i + 1] == LF
  }

  predicate CrlfAt(s: seq<byte>, i: nat) {
    i + 4 <= |s| && s[i] == CR && s[i + 1] == LF && s[i + 2] == CR && s[i + 3] == LF
  }

  /** `windows(2).position(..)` on a line feed pair. */
  function FindLf(s: seq<byte>): (r: Option<nat>)
    ensures r.Some? ==> LfAt(s, r.value) && forall k :: 0 <= k < r.value ==> !LfAt(s, k)
    ensures r.None? ==> forall k: nat :: !LfAt(s, k)
  {
    if !exists i :: 0 <= i < |s| && LfAt(s, i) then None
    else
      LeastLf(s);
      var i :| 0 <= i < |s| && LfAt(s, i) && forall k :: 0 <= k < i ==> !LfAt(s, k);
      Some(i)
  }

  /** `windows(4).position(..)` on a carriage return and line feed, twice. */
  function FindCrlf(s: seq<byte>): (r: Option<nat>)
    ensures r.Some? ==> CrlfAt(s, r.value) && forall k :: 0 <= k < r.value ==> !CrlfAt(s, k)
    ensures r.None? ==> forall k: nat :: !CrlfAt(s, k)
  {
    if !exists i :: 0 <= i < |s| && CrlfAt(s, i) then None
    else
      LeastCrlf(s);
      var i :| 0 <= i < |s| && CrlfAt(s, i) && forall k :: 0 <= k < i ==> !CrlfAt(s, k);
      Some(i)
  }

  lemma LeastLf(s: seq<byte>)
    requires exists i :: 0 <= i < |s| && LfAt(s, i)
    ensures exists i :: 0 <= i < |s| && LfAt(s, i) && forall k :: 0 <= k < i ==> !LfAt(s, k)
  {
    var i: nat :| i < |s| && LfAt(s, i);
    while exists k :: 0 <= k < i && LfAt(s, k)
      invariant i < |s| && LfAt(s, i)
      decreases i
    {
      var k: nat :| k < i && LfAt(s, k);
      i := k;
    }
  }

  lemma LeastCrlf(s: seq<byte>)
    requires exists i :: 0 <= i < |s| && CrlfAt(s, i)
    ensures exists i :: 0 <= i < |s| && CrlfAt(s, i) && forall k :: 0 <= k < i ==> !CrlfAt(s, k)
  {
    var i: nat :| i < |s| && CrlfAt(s, i);
    while exists k :: 0 <= k < i && CrlfAt(s, k)
      invariant i < |s| && CrlfAt(s, i)
      decreases i
    {
      var k: nat :| k < i && CrlfAt(s, k);
      i := k;
    }
  }

  /** The position and length of the first blank line. */
  function EventBoundary(buffer: seq<byte>): (r: Option<(nat, nat)>)
    ensures r.Some? ==> r.value.0 + r.value.1 <= |buffer| && r.value.1 > 0
  {
    match (FindLf(buffer), FindCrlf(buffer))
    case (Some(lf), Some(crlf)) => if crlf <= lf then Some((crlf, 4)) else Some((lf, 2))
    case (Some(lf), None) => Some((lf, 2))
    case (None, Some(crlf)) => Some((crlf, 4))
    case (None, None) => None
  }

  /** `end` is where the first boundary of `s` ends. */
  ghost predicate FirstBoundaryEnds(s: seq<byte>, end: nat) {
    exists start: nat :: BoundaryAt(s, start, end) && forall k :: 0 <= k < start ==> !LfAt(s, k) && !CrlfAt(s, k)
  }

  ghost predicate BoundaryAt(s: seq<byte>, start: nat, end: nat) {
    (LfAt(s, start) && end == start + 2) || (CrlfAt(s, start) && end == start + 4)
  }

  ghost predicate NoBoundary(s: seq<byte>) {
    forall k: nat :: !LfAt(s, k) && !CrlfAt(s, k)
  }

  lemma EventBoundaryMeaning(buffer: seq<byte>)
    ensures EventBoundary(buffer).None? <==> NoBoundary(buffer)
    ensures EventBoundary(buffer).Some? ==>
      var (start, length) := EventBoundary(buffer).value;
      && start + length <= |buffer|
      && BoundaryAt(buffer, start, start + length)
      && (forall k :: 0 <= k < start ==> !LfAt(buffer, k) && !CrlfAt(buffer, k))
      && FirstBoundaryEnds(buffer, start + length)
  {
    var boundary := EventBoundary(buffer);
    if boundary.Some? {
      var (start, length) := boundary.value;
      assert BoundaryAt(buffer, start, start + length);
      assert forall k :: 0 <= k < start ==> !LfAt(buffer, k) && !CrlfAt(buffer, k);
    }
  }

  /** A boundary once seen stays the first one when more bytes arrive. */
  lemma BoundaryIsStable(buffer: seq<byte>, more: seq<byte>)
    requires EventBoundary(buffer).Some?
    ensures EventBoundary(buffer + more) == EventBoundary(buffer)
  {
    var all := buffer + more;
    EventBoundaryMeaning(buffer);
    EventBoundaryMeaning(all);
    var (start, length) := EventBoundary(buffer).value;
    assert BoundaryAt(all, start, start + length);
    forall k | 0 <= k < start ensures !LfAt(all, k) && !CrlfAt(all, k) {
      EarlierWindow(buffer, more, start, length, k);
    }
    var (allStart, allLength) := EventBoundary(all).value;
    assert allStart == start;
  }

  /** A later arrival cannot complete a boundary that starts before a complete one. */
  lemma EarlierWindow(buffer: seq<byte>, more: seq<byte>, start: nat, length: nat, k: nat)
    requires k < start && BoundaryAt(buffer, start, start + length)
    requires !LfAt(buffer, k) && !CrlfAt(buffer, k)
    ensures !LfAt(buffer + more, k) && !CrlfAt(buffer + more, k)
  {
    var all := buffer + more;
    assert forall i :: 0 <= i < |buffer| ==> all[i] == buffer[i];
    assert k + 2 <= |buffer|;
  }

  // ---------- The boundary as a cut ----------

  function EventEnd(buffer: seq<byte>): Option<nat> {
    match EventBoundary(buffer)
    case None => None
    case Some((end, delimiter)) => Some(end + delimiter)
  }

  /** An event is found again when it stands alone. */
  lemma BoundaryOfEvent(buffer: seq<byte>)
    requires EventBoundary(buffer).Some?
    ensures var (start, length) := EventBoundary(buffer).value;
            EventBoundary(buffer[..start + length]) == EventBoundary(buffer)
  {
    EventBoundaryMeaning(buffer);
    var (start, length) := EventBoundary(buffer).value;
    var event := buffer[..start + length];
    EventBoundaryMeaning(event);
    assert BoundaryAt(event, start, |event|);
    forall k | 0 <= k < start ensures !LfAt(event, k) && !CrlfAt(event, k) {
      assert !LfAt(buffer, k) && !CrlfAt(buffer, k);
    }
    assert EventBoundary(event).value.0 == start;
  }

  lemma EventEndSettled()
    ensures Settled(EventEnd)
  {
    forall s: seq<byte> | EventEnd(s).Some?
      ensures 0 < EventEnd(s).value <= |s|
    {}
    forall s: seq<byte>, end: nat | EventEnd(s) == Some(end) && end <= |s| ensures EventEnd(s[..end]) == Some(end) {
      BoundaryOfEvent(s);
    }
    forall s: seq<byte>, more: seq<byte> | EventEnd(s).Some? ensures EventEnd(s + more) == EventEnd(s) {
      BoundaryIsStable(s, more);
    }
  }

  /** The two conditions of a division, in terms of blank lines. */
  lemma EventEndMeaning(s: seq<byte>)
    ensures EventEnd(s) == Some(|s|) <==> FirstBoundaryEnds(s, |s|)
    ensures EventEnd(s).None? <==> NoBoundary(s)
  {
    EventBoundaryMeaning(s);
    if FirstBoundaryEnds(s, |s|) {
      var start: nat :| BoundaryAt(s, start, |s|) && forall k :: 0 <= k < start ==> !LfAt(s, k) && !CrlfAt(s, k);
      assert LfAt(s, start) || CrlfAt(s, start);
      assert EventBoundary(s).value.0 == start;
    }
  }

  // ---------- The stream loop ----------

  /** All events of a stream, and what is left of it. */
  function Events(stream: seq<byte>): Extraction<byte> {
    EventEndSettled();
    Extract(stream, EventEnd)
  }

  /** The events are the stream, in order; each ends at its own first blank line and the rest holds
      none; and no other division of the stream is like this. */
  lemma EventsMeaning(stream: seq<byte>, x: Extraction<byte>)
    ensures x == Events(stream) <==>
      && Concat(x.events) + x.rest == stream
      && (forall e :: e in x.events ==> FirstBoundaryEnds(e, |e|))
      && NoBoundary(x.rest)
  {
    EventEndSettled();
    ExtractDivides(stream, EventEnd);
    forall e: seq<byte> ensures EventEnd(e) == Some(|e|) <==> FirstBoundaryEnds(e, |e|) {
      EventEndMeaning(e);
    }
    EventEndMeaning(x.rest);
    if Divides(x, stream, EventEnd) {
      DivisionUnique(x, stream, EventEnd);
    }
  }

  // ---------- The program ----------

  datatype StreamError = LimitExceeded | EventRejected

  /** The first `count` chunks are the last to stay within the limit. */
  ghost predicate LimitReached(chunks: seq<seq<byte>>, count: nat) {
    count < |chunks| && |Concat(chunks[..count])| <= BODY_LIMIT < |Concat(chunks[..count + 1])|
  }

  /** These are the events before the first one that is not accepted. */
  ghost predicate StoppedAt(all: seq<seq<byte>>, accepts: seq<byte> -> bool, events: seq<seq<byte>>) {
    |events| < |all| && events == all[..|events|] && (forall e :: e in events ==> accepts(e)) && !accepts(all[|events|])
  }

  /** More bytes only add events. */
  lemma EventsGrow(stream: seq<byte>, more: seq<byte>)
    ensures Events(stream).events <= Events(stream + more).events
  {
    EventEndSettled();
    ExtractResumes(stream, more, EventEnd);
  }

  /** The inner loop: hands on the complete events of the buffer until one is not accepted. `cut` is
      `EventEnd`. */
  method Drain(buffer: seq<byte>, events: seq<seq<byte>>, cut: Cut<byte>, accepts: seq<byte> -> bool)
    returns (after: seq<byte>, all: seq<seq<byte>>, rejected: bool)
    requires Settled(cut) && forall e :: e in events ==> accepts(e)
    ensures forall e :: e in all ==> accepts(e)
    ensures !rejected ==> all == events + Extract(buffer, cut).events && after == Extract(buffer, cut).rest
    ensures rejected ==> StoppedAt(events + Extract(buffer, cut).events, accepts, all)
  {
    after, all, rejected := buffer, events, false;
    var end := cut(after);
    while end.Some?
      invariant end == cut(after)
      invariant events + Extract(buffer, cut).events == all + Extract(after, cut).events
      invariant Extract(buffer, cut).rest == Extract(after, cut).rest
      invariant forall e :: e in all ==> accepts(e)
      decreases |after|
    {
      var event := after[..end.value];
      ghost var later := Extract(after[end.value..], cut);
      assert all + ([event] + later.events) == (all + [event]) + later.events;
      after := after[end.value..];
      if !accepts(event) {
        return after, all, true;
      }
      all := all + [event];
      end := cut(after);
    }
  }

  /** The outer loop over arriving chunks; `events` are those that were handed on and accepted. */
  method StreamEvents(chunks: seq<seq<byte>>, accepts: seq<byte> -> bool)
    returns (events: seq<seq<byte>>, buffer: seq<byte>, error: Option<StreamError>)
    ensures error.None? <==> |Concat(chunks)| <= BODY_LIMIT && forall e :: e in Events(Concat(chunks)).events ==> accepts(e)
    ensures error.None? ==> Extraction(events, buffer) == Events(Concat(chunks))
    ensures error == Some(LimitExceeded) ==> exists count: nat ::
      && LimitReached(chunks, count) && Extraction(events, buffer) == Events(Concat(chunks[..count]))
      && forall e :: e in events ==> accepts(e)
    ensures error == Some(EventRejected) ==> exists count: nat ::
      && count <= |chunks| && |Concat(chunks[..count])| <= BODY_LIMIT
      && StoppedAt(Events(Concat(chunks[..count])).events, accepts, events)
  {
    EventEndSettled();
    events, buffer, error := [], [], None;
    var bytes := 0;
    var i := 0;
    assert chunks[..0] == [];
    EventEndMeaning([]);
    while i < |chunks|
      invariant 0 <= i <= |chunks|
      invariant bytes == |Concat(chunks[..i])| <= BODY_LIMIT
      invariant Extraction(events, buffer) == Extract(Concat(chunks[..i]), EventEnd)
      invariant forall e :: e in events ==> accepts(e)
    {
      ConcatStep(chunks, i);
      bytes := bytes + |chunks[i]|;
      if bytes > BODY_LIMIT {
        ConcatSplit(chunks, i + 1);
        assert LimitReached(chunks, i);
        return events, buffer, Some(LimitExceeded);
      }
      ExtractResumes(Concat(chunks[..i]), chunks[i], EventEnd);
      buffer := buffer + chunks[i];
      var rejected;
      buffer, events, rejected := Drain(buffer, events, EventEnd, accepts);
      if rejected {
        RejectedInStream(chunks, i + 1, accepts, events);
        return events, buffer, Some(EventRejected);
      }
      i := i + 1;
    }
    assert chunks[..i] == chunks;
  }

  lemma RejectedInStream(chunks: seq<seq<byte>>, count: nat, accepts: seq<byte> -> bool, events: seq<seq<byte>>)
    requires count <= |chunks| && StoppedAt(Events(Concat(chunks[..count])).events, accepts, events)
    ensures exists e :: e in Events(Concat(chunks)).events && !accepts(e)
  {
    ConcatSplit(chunks, count);
    EventsGrow(Concat(chunks[..count]), Concat(chunks[count..]));
    var some, all := Events(Concat(chunks[..count])).events, Events(Concat(chunks)).events;
    assert all[|events|] == some[|events|];
    assert all[|events|] in all;
  }
}
