/** Cutting a stream into pieces with a cut that depends on nothing behind it. */
module Splitting {
  import opened Wrappers
  import opened Sequences

  /** Where the first piece of a buffer ends, if it holds a whole one. */
  type Cut<!T> = seq<T> -> Option<nat>

  /** A cut is inside the buffer, stays when more arrives, and is found again in the piece itself. */
  ghost predicate Settled<T(!new)>(cut: Cut<T>) {
    && (forall s :: cut(s).Some? ==> 0 < cut(s).value <= |s|)
    && (forall s, end: nat {:trigger s[..end], cut(s)} :: cut(s) == Some(end) && end <= |s| ==> cut(s[..end]) == Some(end))
    && (forall s, more {:trigger s + more, cut(s)} :: cut(s).Some? ==> cut(s + more) == cut(s))
  }

  datatype Extraction<T> = Extraction(events: seq<seq<T>>, rest: seq<T>)

  /** All pieces of the buffer, and what is left. */
  function Extract<T(!new)>(buffer: seq<T>, cut: Cut<T>): Extraction<T>
    requires Settled(cut)
    decreases |buffer|
  {
    match cut(buffer)
    case None => Extraction([], buffer)
    case Some(end) =>
      var later := Extract(buffer[end..], cut);
      Extraction([buffer[..end]] + later.events, later.rest)
  }

  /** One chunk arrives after the elements extracted so far. */
  function Feed<T(!new)>(state: Extraction<T>, chunk: seq<T>, cut: Cut<T>): Extraction<T>
    requires Settled(cut)
  {
    var now := Extract(state.rest + chunk, cut);
    Extraction(state.events + now.events, now.rest)
  }

  function FeedAll<T(!new)>(state: Extraction<T>, chunks: seq<seq<T>>, cut: Cut<T>): Extraction<T>
    requires Settled(cut)
    decreases |chunks|
  {
    if chunks == [] then state else FeedAll(Feed(state, chunks[0], cut), chunks[1..], cut)
  }

  /** Extracting early and carrying the rest over changes nothing. */
  lemma {:induction false} ExtractResumes<T(!new)>(buffer: seq<T>, more: seq<T>, cut: Cut<T>)
    requires Settled(cut)
    ensures Extract(buffer + more, cut) == Feed(Extract(buffer, cut), more, cut)
    decreases |buffer|
  {
    if cut(buffer).Some? {
      var end := cut(buffer).value;
      assert cut(buffer + more) == cut(buffer);
      assert (buffer + more)[..end] == buffer[..end];
      assert (buffer + more)[end..] == buffer[end..] + more;
      ExtractResumes(buffer[end..], more, cut);
      var rest := Extract(buffer[end..], cut);
      var now := Extract(rest.rest + more, cut);
      assert [buffer[..end]] + (rest.events + now.events) == [buffer[..end]] + rest.events + now.events;
    }
  }

  lemma {:induction false} FeedAllResumes<T(!new)>(state: Extraction<T>, buffer: seq<T>, chunks: seq<seq<T>>, cut: Cut<T>)
    requires Settled(cut) && state == Extract(buffer, cut)
    ensures FeedAll(state, chunks, cut) == Extract(buffer + Concat(chunks), cut)
    decreases |chunks|
  {
    if chunks == [] {
      assert buffer + Concat(chunks) == buffer;
    } else {
      ConcatHead(buffer, chunks);
      ExtractResumes(buffer, chunks[0], cut);
      FeedAllResumes(Feed(state, chunks[0], cut), buffer + chunks[0], chunks[1..], cut);
    }
  }

  lemma ConcatHead<T>(buffer: seq<T>, chunks: seq<seq<T>>)
    requires chunks != []
    ensures buffer + Concat(chunks) == (buffer + chunks[0]) + Concat(chunks[1..])
  {}

  /** Chunking does not matter: feeding a stream piece by piece is extracting from all of it, so two
      ways to cut one stream into chunks give the same events and the same leftover. */
  lemma ChunkingDoesNotMatter<T(!new)>(chunks: seq<seq<T>>, others: seq<seq<T>>, cut: Cut<T>)
    requires Settled(cut)
    ensures FeedAll(Extraction([], []), chunks, cut) == Extract(Concat(chunks), cut)
    ensures Concat(chunks) == Concat(others) ==>
      FeedAll(Extraction([], []), chunks, cut) == FeedAll(Extraction([], []), others, cut)
  {
    var empty: seq<T> := [];
    assert Extract(empty, cut) == Extraction([], []);
    FeedAllResumes(Extraction([], []), empty, chunks, cut);
    FeedAllResumes(Extraction([], []), empty, others, cut);
    assert empty + Concat(chunks) == Concat(chunks) && empty + Concat(others) == Concat(others);
  }

  /** A division of a stream: the pieces are the stream, each ends where its own first cut is, and
      the rest holds none. */
  ghost predicate Divides<T(!new)>(x: Extraction<T>, stream: seq<T>, cut: Cut<T>) {
    && Concat(x.events) + x.rest == stream
    && (forall e :: e in x.events ==> cut(e) == Some(|e|))
    && cut(x.rest).None?
  }

  lemma DividesStep<T(!new)>(event: seq<T>, later: Extraction<T>, tail: seq<T>, cut: Cut<T>)
    requires Divides(later, tail, cut) && cut(event) == Some(|event|)
    ensures Divides(Extraction([event] + later.events, later.rest), event + tail, cut)
  {
    var events := [event] + later.events;
    assert events[1..] == later.events;
    assert event + (Concat(later.events) + later.rest) == event + Concat(later.events) + later.rest;
  }

  lemma {:induction false} ExtractDivides<T(!new)>(buffer: seq<T>, cut: Cut<T>)
    requires Settled(cut)
    ensures Divides(Extract(buffer, cut), buffer, cut)
    decreases |buffer|
  {
    if cut(buffer).Some? {
      var end := cut(buffer).value;
      var event, tail := buffer[..end], buffer[end..];
      assert event + tail == buffer;
      ExtractDivides(tail, cut);
      DividesStep(event, Extract(tail, cut), tail, cut);
    }
  }

  /** The first piece of a division is what the cut finds in the stream. */
  lemma DivisionStarts<T(!new)>(x: Extraction<T>, stream: seq<T>, cut: Cut<T>)
    requires Settled(cut) && Divides(x, stream, cut) && x.events != []
    ensures var end := |x.events[0]|;
            && cut(stream) == Some(end)
            && end <= |stream| && stream[..end] == x.events[0]
            && Divides(Extraction(x.events[1..], x.rest), stream[end..], cut)
  {
    var event := x.events[0];
    var tail := Concat(x.events[1..]) + x.rest;
    assert event in x.events;
    assert stream == event + tail;
    assert cut(event + tail) == cut(event);
    assert stream[|event|..] == tail;
  }

  /** There is one division, so the meaning pins extraction down. */
  lemma {:induction false} DivisionUnique<T(!new)>(x: Extraction<T>, stream: seq<T>, cut: Cut<T>)
    requires Settled(cut) && Divides(x, stream, cut)
    ensures x == Extract(stream, cut)
    decreases |x.events|
  {
    if x.events == [] {
      assert stream == x.rest;
    } else {
      DivisionStarts(x, stream, cut);
      DivisionUnique(Extraction(x.events[1..], x.rest), stream[|x.events[0]|..], cut);
      assert x.events == [x.events[0]] + x.events[1..];
    }
  }
}
