/** Events that channels deliver: which were dealt with, which wait, and how far each channel was read. */
module ChannelEvents {
  import opened Wrappers
  import opened Sorting
  import opened Ages
  import opened Text

  const SEEN_LIMIT := 10_000
  const DEFERRED_LIMIT := 100

  /** The `id` of an event, which is any JSON value. */
  datatype EventId = Number(value: int) | Word(word: string) | Other(json: string)

  datatype Event = Event(id: EventId, body: string)

  datatype EventState = EventState(
    seen: map<string, nat>,
    offsets: map<string, int>,
    deferred: map<string, seq<Event>>,
    acknowledged: set<string>)

  const NoEvents := EventState(map[], map[], map[], {})

  /** The event goes by this ID, whether it is a number or a string. */
  predicate Named(event: Event, id: string) {
    match event.id
    case Number(value) => (if value < 0 then "-" + Decimal(-value) else Decimal(value)) == id
    case Word(word) => word == id
    case Other(_) => false
  }

  // ---------- Deferred events ----------

  predicate HasDeferred(e: EventState, channel: string, id: string) {
    channel in e.deferred && exists i :: 0 <= i < |e.deferred[channel]| && Named(e.deferred[channel][i], id)
  }

  predicate Waits(events: seq<Event>, id: EventId) {
    exists i :: 0 <= i < |events| && events[i].id == id
  }

  /** `retain`: the events that do not go by an ID, in order. */
  function Without(events: seq<Event>, id: string): seq<Event> {
    if events == [] then []
    else if Named(events[0], id) then Without(events[1..], id)
    else [events[0]] + Without(events[1..], id)
  }

  function Deferred(e: EventState, channel: string): seq<Event> {
    if channel in e.deferred then e.deferred[channel] else []
  }

  /** The event is no longer deferred, nor acknowledged as such. A channel without events goes. */
  function Cleared(e: EventState, channel: string, id: string, key: string): EventState {
    var rest := Without(Deferred(e, channel), id);
    e.(deferred := if rest == [] then e.deferred - {channel} else e.deferred[channel := rest],
       acknowledged := e.acknowledged - {key})
  }

  lemma {:induction false} WithoutMeaning(events: seq<Event>, id: string)
    ensures forall event :: event in Without(events, id) <==> event in events && !Named(event, id)
  {
    if events != [] {
      WithoutMeaning(events[1..], id);
      assert events == [events[0]] + events[1..];
    }
  }

  ghost predicate DistinctEvents(events: seq<Event>) {
    forall i, j :: 0 <= i < j < |events| ==> events[i].id != events[j].id
  }

  lemma {:induction false} WithoutKeeps(events: seq<Event>, id: string)
    requires DistinctEvents(events)
    ensures DistinctEvents(Without(events, id)) && |Without(events, id)| <= |events|
  {
    if events != [] {
      WithoutKeeps(events[1..], id);
      WithoutMeaning(events[1..], id);
      forall event | event in events[1..] ensures event.id != events[0].id {
        var i :| 0 <= i < |events[1..]| && events[1..][i] == event;
        assert event == events[i + 1];
      }
    }
  }

  method RetainOthers(waiting: seq<Event>, id: string) returns (rest: seq<Event>)
    ensures rest == Without(waiting, id)
  {
    rest := [];
    for i := 0 to |waiting|
      invariant rest + Without(waiting[i..], id) == Without(waiting, id)
    {
      assert waiting[i..][1..] == waiting[i + 1..];
      if !Named(waiting[i], id) { rest := rest + [waiting[i]]; }
    }
  }

  /** Drops the deferred event and its acknowledgement, and a channel that has none left. */
  method Undefer(e: EventState, channel: string, id: string, key: string) returns (r: EventState)
    ensures r == Cleared(e, channel, id, key)
  {
    r := e;
    if channel in e.deferred {
      var rest := RetainOthers(e.deferred[channel], id);
      r := r.(deferred := if rest == [] then r.deferred - {channel} else r.deferred[channel := rest]);
    } else {
      assert e.deferred - {channel} == e.deferred;
    }
    r := r.(acknowledged := r.acknowledged - {key});
  }

  // ---------- Seen events ----------

  function Others(seen: map<string, nat>, keep: Option<string>): map<string, nat> {
    if keep.Some? then seen - {keep.value} else seen
  }

  /** The oldest entries beyond the limit go, but never the one to keep. */
  ghost function Trimmed(seen: map<string, nat>, keep: Option<string>): map<string, nat> {
    if |seen| <= SEEN_LIMIT then seen else seen - Oldest(Others(seen, keep), |seen| - SEEN_LIMIT)
  }

  lemma KeptTimes(seen: map<string, nat>, kept: map<string, nat>)
    requires kept.Items <= seen.Items
    ensures forall k :: k in kept ==> k in seen && kept[k] == seen[k]
  {
    forall k | k in kept ensures k in seen && kept[k] == seen[k] {
      assert (k, kept[k]) in kept.Items;
    }
  }

  lemma SizeOfKeys<V>(m: map<string, V>)
    ensures |m| == |m.Keys|
  {}

  lemma OthersSize(seen: map<string, nat>, keep: Option<string>)
    ensures |Others(seen, keep)| >= |seen| - 1
  {
    SizeOfKeys(seen);
    SizeOfKeys(Others(seen, keep));
    if keep.Some? {
      assert Others(seen, keep).Keys == seen.Keys - {keep.value};
    }
  }

  /** Exactly the limit remains, the kept entry among it, and nothing that goes is younger than
      anything else that stays. */
  lemma TrimmedMeaning(seen: map<string, nat>, keep: Option<string>)
    ensures var kept := Trimmed(seen, keep);
      && |kept| == Min(|seen|, SEEN_LIMIT)
      && kept.Items <= seen.Items
      && (keep.Some? && keep.value in seen ==> keep.value in kept)
      && forall gone, stays :: gone in seen && gone !in kept && stays in kept && Some(stays) != keep ==> seen[gone] <= seen[stays]
  {
    if |seen| > SEEN_LIMIT {
      var others := Others(seen, keep);
      var oldest := Oldest(others, |seen| - SEEN_LIMIT);
      OthersSize(seen, keep);
      var kept := Trimmed(seen, keep);
      assert kept.Keys == seen.Keys - oldest;
      SizeOfKeys(seen);
      SizeOfKeys(kept);
      forall gone, stays | gone in seen && gone !in kept && stays in kept && Some(stays) != keep ensures seen[gone] <= seen[stays] {
        assert Older(others, gone, stays);
      }
    }
  }

  method Trim(seen: map<string, nat>, keep: Option<string>) returns (kept: map<string, nat>)
    ensures kept == Trimmed(seen, keep)
  {
    if |seen| <= SEEN_LIMIT { return seen; }
    var keys := TakeOldest(Others(seen, keep), |seen| - SEEN_LIMIT);
    kept := seen - keys;
  }

  // ---------- Offsets ----------

  /** An offset only moves forward. */
  function Advanced(offsets: map<string, int>, channel: string, offset: Option<int>): map<string, int> {
    if offset.None? then offsets
    else if channel in offsets && offsets[channel] > offset.value then offsets
    else offsets[channel := offset.value]
  }

  method Advance(offsets: map<string, int>, channel: string, offset: Option<int>) returns (r: map<string, int>)
    ensures r == Advanced(offsets, channel, offset)
  {
    r := offsets;
    if offset.Some? {
      if channel !in offsets {
        r := offsets[channel := offset.value];
      } else if offset.value > offsets[channel] {
        r := offsets[channel := offset.value];
      } else {
        assert offsets[channel := offsets[channel]] == offsets;
      }
    }
  }

  function Elements(keys: seq<string>): set<string> {
    if keys == [] then {} else Elements(keys[1..]) + {keys[0]}
  }

  lemma {:induction false} ElementsMeaning(keys: seq<string>)
    ensures forall k :: k in Elements(keys) <==> k in keys
  {
    if keys != [] { ElementsMeaning(keys[1..]); }
  }

  lemma {:induction false} ElementsSize(keys: seq<string>)
    requires Distinct(keys)
    ensures |Elements(keys)| == |keys|
  {
    if keys != [] {
      ElementsSize(keys[1..]);
      ElementsMeaning(keys[1..]);
      DistinctHead(keys);
    }
  }

  /** Of too many offsets those of the first channels go. */
  ghost function Bounded(offsets: map<string, int>, limit: nat): map<string, int> {
    if |offsets| <= limit then offsets
    else
      SizeOfKeys(offsets);
      offsets - Elements(SortedKeys(offsets.Keys)[..|offsets| - limit])
  }

  lemma BoundedSize(offsets: map<string, int>, limit: nat)
    ensures |Bounded(offsets, limit)| == Min(|offsets|, limit) && Bounded(offsets, limit).Items <= offsets.Items
  {
    if |offsets| > limit {
      SizeOfKeys(offsets);
      SortedKeysList(offsets.Keys);
      var first := SortedKeys(offsets.Keys)[..|offsets| - limit];
      FirstKeysInside(SortedKeys(offsets.Keys), first, offsets.Keys);
      RemovedSize(offsets, Elements(first));
    }
  }

  lemma FirstKeysInside(keys: seq<string>, first: seq<string>, all: set<string>)
    requires first <= keys && (forall k :: k in keys <==> k in all) && Distinct(keys)
    ensures Elements(first) <= all && |Elements(first)| == |first|
  {
    ElementsMeaning(first);
    ElementsSize(first);
  }

  lemma RemovedSize<V>(m: map<string, V>, gone: set<string>)
    requires gone <= m.Keys
    ensures |m - gone| == |m| - |gone| && (m - gone).Items <= m.Items
  {
    SizeOfKeys(m);
    SizeOfKeys(m - gone);
    assert (m - gone).Keys == m.Keys - gone;
  }

  lemma OneKeyMore<V>(m: map<string, V>, gone: set<string>, key: string)
    ensures m - {key} - gone == m - (gone + {key})
  {}

  method Bound(offsets: map<string, int>, limit: nat) returns (r: map<string, int>)
    ensures r == Bounded(offsets, limit)
  {
    if |offsets| <= limit { return offsets; }
    var keys := ListKeys(offsets.Keys);
    SizeOfKeys(offsets);
    r := RemoveKeys(offsets, keys[..|offsets| - limit]);
  }

  method RemoveKeys(offsets: map<string, int>, keys: seq<string>) returns (r: map<string, int>)
    ensures r == offsets - Elements(keys)
  {
    r := offsets;
    var left := keys;
    while left != []
      invariant r - Elements(left) == offsets - Elements(keys)
      decreases |left|
    {
      OneKeyMore(r, Elements(left[1..]), left[0]);
      r, left := r - {left[0]}, left[1..];
    }
    assert r - {} == r;
  }

  // ---------- The effect of a commit ----------

  function OffsetOf(e: EventState, channel: string): Option<int> {
    if channel in e.offsets then Some(e.offsets[channel]) else None
  }

  function Greater(a: int, b: int): int {
    if a < b then b else a
  }

  /** An event was dealt with: it is seen, it is no longer deferred unless it is retained, and its
      channel was read up to it. */
  ghost function Committed(e: EventState, channel: string, id: string, key: string, offset: Option<int>, retained: bool, now: nat): EventState {
    var settled := if retained then e else Cleared(e, channel, id, key);
    settled.(offsets := Advanced(e.offsets, channel, offset), seen := Trimmed(e.seen[key := now], Some(key)))
  }

  method Settle(from: EventState, channel: string, eventId: string, key: string, offset: Option<int>, retained: bool, now: nat)
    returns (e: EventState)
    ensures e == Committed(from, channel, eventId, key, offset, retained, now)
  {
    e := from;
    var seen := e.seen[key := now];
    if !retained {
      e := Undefer(e, channel, eventId, key);
    }
    var offsets := Advance(e.offsets, channel, offset);
    seen := Trim(seen, Some(key));
    e := e.(offsets := offsets, seen := seen);
  }

  /** After a commit the event is known, at most ten thousand are, no offset went back, and the event
      is deferred only if it was retained; every other event waits as before, in order. */
  lemma CommitMeaning(e: EventState, channel: string, id: string, key: string, offset: Option<int>, retained: bool, now: nat)
    ensures var next := Committed(e, channel, id, key, offset, retained, now);
      && key in next.seen && |next.seen| <= SEEN_LIMIT
      && (forall c :: c in e.offsets ==> c in next.offsets && e.offsets[c] <= next.offsets[c])
      && (forall c :: c != channel ==> Deferred(next, c) == Deferred(e, c))
      && (if retained then next.deferred == e.deferred
          else !HasDeferred(next, channel, id) && Deferred(next, channel) == Without(Deferred(e, channel), id))
  {
    TrimmedMeaning(e.seen[key := now], Some(key));
    WithoutMeaning(Deferred(e, channel), id);
    if !retained {
      forall event | event in Without(Deferred(e, channel), id) ensures !Named(event, id) {}
    }
  }

  /** The channel was read up to the greater offset of the two, the others as far as before. */
  lemma CommitOffsets(e: EventState, channel: string, id: string, key: string, offset: Option<int>, retained: bool, now: nat)
    ensures var next := Committed(e, channel, id, key, offset, retained, now);
      && (forall c :: c != channel || offset.None? ==> OffsetOf(next, c) == OffsetOf(e, c))
      && (offset.Some? ==>
            OffsetOf(next, channel) == if OffsetOf(e, channel).None? then offset else Some(Greater(OffsetOf(e, channel).value, offset.value)))
  {}

  /** The event was seen now, any other one that is still known when it was, and the event is acknowledged no
      longer unless it is retained. */
  lemma CommitTimes(e: EventState, channel: string, id: string, key: string, offset: Option<int>, retained: bool, now: nat)
    ensures var next := Committed(e, channel, id, key, offset, retained, now);
      && key in next.seen && next.seen[key] == now
      && (forall k :: k in next.seen && k != key ==> k in e.seen && next.seen[k] == e.seen[k])
      && next.acknowledged == (if retained then e.acknowledged else e.acknowledged - {key})
  {
    TrimmedMeaning(e.seen[key := now], Some(key));
    KeptTimes(e.seen[key := now], Trimmed(e.seen[key := now], Some(key)));
  }

  // ---------- The invariant ----------

  /** Channels with deferred events have between one and a hundred, of distinct IDs. */
  ghost predicate EventsInv(e: EventState) {
    && |e.seen| <= SEEN_LIMIT
    && forall channel :: channel in e.deferred ==> 1 <= |e.deferred[channel]| <= DEFERRED_LIMIT && DistinctEvents(e.deferred[channel])
  }

  lemma ClearedKeeps(e: EventState, channel: string, id: string, key: string)
    requires EventsInv(e)
    ensures EventsInv(Cleared(e, channel, id, key))
  {
    WithoutKeeps(Deferred(e, channel), id);
  }

  lemma CommittedKeeps(e: EventState, channel: string, id: string, key: string, offset: Option<int>, retained: bool, now: nat)
    requires EventsInv(e)
    ensures EventsInv(Committed(e, channel, id, key, offset, retained, now))
  {
    TrimmedMeaning(e.seen[key := now], Some(key));
    ClearedKeeps(e, channel, id, key);
  }

  /** Every acknowledged event waits, where `keyOf` names an event of a channel. */
  ghost predicate AcknowledgedWait(e: EventState, keyOf: (string, string) -> string) {
    forall key :: key in e.acknowledged ==> exists channel, id :: keyOf(channel, id) == key && HasDeferred(e, channel, id)
  }

  lemma ClearedWait(e: EventState, channel: string, id: string, keyOf: (string, string) -> string)
    requires AcknowledgedWait(e, keyOf)
    ensures AcknowledgedWait(Cleared(e, channel, id, keyOf(channel, id)), keyOf)
  {
    var next := Cleared(e, channel, id, keyOf(channel, id));
    forall key | key in next.acknowledged ensures exists c, i :: keyOf(c, i) == key && HasDeferred(next, c, i) {
      var c, i :| keyOf(c, i) == key && HasDeferred(e, c, i);
      if c == channel {
        OthersWait(e, channel, id, keyOf(channel, id), i);
      } else {
        assert next.deferred[c] == e.deferred[c];
      }
      assert HasDeferred(next, c, i);
    }
  }

  /** A numbered event goes by its number. */
  lemma NumberNamed(n: nat, body: string)
    ensures Named(Event(Number(n), body), Decimal(n))
    ensures n > 0 ==> Named(Event(Number(-(n as int)), body), "-" + Decimal(n))
  {}

  /** An event goes by one ID only. */
  lemma NamedOnce(event: Event, id: string, other: string)
    requires Named(event, id) && Named(event, other)
    ensures id == other
  {}

  lemma OthersWait(e: EventState, channel: string, id: string, key: string, other: string)
    requires HasDeferred(e, channel, other) && other != id
    ensures HasDeferred(Cleared(e, channel, id, key), channel, other)
  {
    var i :| 0 <= i < |e.deferred[channel]| && Named(e.deferred[channel][i], other);
    var event := e.deferred[channel][i];
    if Named(event, id) { NamedOnce(event, id, other); }
    WithoutMeaning(e.deferred[channel], id);
    assert event in Without(e.deferred[channel], id);
  }
}
