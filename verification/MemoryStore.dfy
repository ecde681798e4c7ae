/** The agent's memories: remembering, forgetting, and what is evicted when the store is full. */
module MemoryStore {
  import opened Wrappers
  import opened Integers
  import opened Ages
  import opened Text

  const LIMIT := 1_000
  const VALUE_LIMIT := 256 * 1024
  const NUL := '\0'

  datatype Entry = Entry(key: string, value: string, scope: string, created: nat, updated: nat)

  datatype Audit = Audit(action: string, key: string, scope: string, at: nat)

  datatype State = State(items: map<string, Entry>, audit: seq<Audit>, learning: string)

  datatype MemoryError = Denied | PersistFailed

  const GUIDED := "guided"
  const AUTONOMOUS := "autonomous"

  const Empty := State(map[], [], GUIDED)

  // ---------- Where a memory is kept ----------

  function Storage(scope: string, key: string): string {
    scope + [NUL] + key
  }

  /** Different memories are kept apart, as scopes hold no NUL. */
  lemma {:induction false} StorageInjective(s: string, k: string, t: string, l: string)
    requires NUL !in s && NUL !in t && Storage(s, k) == Storage(t, l)
    ensures s == t && k == l
  {
    var a, b := Storage(s, k), Storage(t, l);
    assert a[0] == if s == "" then NUL else s[0];
    assert b[0] == if t == "" then NUL else t[0];
    if s != "" && t != "" {
      assert a[1..] == Storage(s[1..], k) && b[1..] == Storage(t[1..], l);
      StorageInjective(s[1..], k, t[1..], l);
      assert s == [s[0]] + s[1..] && t == [t[0]] + t[1..];
    } else {
      assert s == "" && t == "";
      assert k == a[1..] && l == b[1..];
    }
  }

  predicate Blank(s: string) {
    forall c :: c in s ==> IsWhitespace(c)
  }

  predicate Refused(scope: string, key: string, value: string) {
    Blank(key) || NUL in key || Bytes(key) > VALUE_LIMIT || Bytes(value) > VALUE_LIMIT || Blank(scope) || NUL in scope
  }

  /** Key and scope need a character that is not white space and none that is NUL, and key and value fit. */
  lemma AcceptableMeaning(scope: string, key: string, value: string)
    ensures !Refused(scope, key, value) <==>
      && (exists i :: 0 <= i < |key| && !IsWhitespace(key[i])) && (exists i :: 0 <= i < |scope| && !IsWhitespace(scope[i]))
      && '\0' !in key && '\0' !in scope && Bytes(key) <= 256 * 1024 && Bytes(value) <= 256 * 1024
  {}

  /** The learning mode a call asks for, or that of the store, under its present name. */
  function Mode(learning: string, mode: Option<string>): string {
    var name := if mode.Some? then mode.value else learning;
    if name == "suggest" then GUIDED else if name == "auto" then AUTONOMOUS else name
  }

  /** Memory is off, the mode is unknown, or it is guided and nobody approved. */
  predicate Unapproved(learning: string, mode: Option<string>, approved: bool) {
    var name := Mode(learning, mode);
    name != AUTONOMOUS && !(name == GUIDED && approved)
  }

  /** What lets a memory be written: the autonomous mode, or the guided one and an approval, where the mode of
      the call goes before that of the store and both have an older name. */
  lemma ApprovedMeaning(learning: string, mode: Option<string>, approved: bool)
    ensures var name := match mode case Some(own) => own case None => learning;
            !Unapproved(learning, mode, approved) <==>
              name in {"autonomous", "auto"} || (name in {"guided", "suggest"} && approved)
  {}

  // ---------- Times ----------

  function Times(items: map<string, Entry>): map<string, nat> {
    map k | k in items :: items[k].updated
  }

  ghost predicate IsLatest(items: map<string, Entry>, latest: nat) {
    && (forall k :: k in items ==> items[k].updated <= latest)
    && (latest == 0 || exists k :: k in items && items[k].updated == latest)
  }

  /** After every memory there is, and not before now; the clock saturates. */
  function NextTimestamp(latest: nat, now: nat): nat {
    var next := if latest >= U64_MAX then U64_MAX else latest + 1;
    if now > next then now else next
  }

  /** Below saturation it is the least time that is after every memory's and not before now. */
  lemma NextTimestampMeaning(latest: nat, now: nat, time: nat)
    requires latest < U64_MAX
    ensures latest < NextTimestamp(latest, now) && now <= NextTimestamp(latest, now)
    ensures latest < time && now <= time ==> NextTimestamp(latest, now) <= time
  {}

  // ---------- Operations ----------

  function Inserted(items: map<string, Entry>, scope: string, key: string, value: string, at: nat): map<string, Entry> {
    var k := Storage(scope, key);
    items[k := Entry(key, value, scope, if k in items then items[k].created else at, at)]
  }

  ghost function Evicted(items: map<string, Entry>): set<string> {
    Oldest(Times(items), if |items| > LIMIT then |items| - LIMIT else 0)
  }

  function Logged(audit: seq<Audit>, entry: Audit): seq<Audit> {
    var all := audit + [entry];
    if |all| > LIMIT then all[|all| - LIMIT..] else all
  }

  ghost function Remembered(s: State, scope: string, key: string, value: string, at: nat): State {
    var items := Inserted(s.items, scope, key, value, at);
    s.(items := items - Evicted(items), audit := Logged(s.audit, Audit("remember", key, scope, at)))
  }

  function Forgotten(s: State, scope: string, key: string, now: nat): State {
    var k := Storage(scope, key);
    if k in s.items then s.(items := s.items - {k}, audit := Logged(s.audit, Audit("forget", key, s.items[k].scope, now))) else s
  }

  // ---------- What is evicted ----------

  lemma TimesCount(items: map<string, Entry>)
    ensures Times(items).Keys == items.Keys && |Times(items)| == |items|
  {
    assert Times(items).Keys == items.Keys;
    assert |Times(items)| == |Times(items).Keys| && |items| == |items.Keys|;
  }

  /** Eviction leaves at most the limit, and only takes what is older than all that stays. */
  lemma EvictionMeaning(items: map<string, Entry>)
    ensures |items - Evicted(items)| == Min(|items|, LIMIT)
    ensures forall gone, kept :: gone in Evicted(items) && kept in items - Evicted(items) ==>
      gone in items && items[gone].updated <= items[kept].updated
  {
    TimesCount(items);
    var left := items - Evicted(items);
    assert left.Keys == items.Keys - Evicted(items);
    assert |left| == |left.Keys| && |items| == |items.Keys|;
    forall gone, kept | gone in Evicted(items) && kept in left ensures gone in items && items[gone].updated <= items[kept].updated {
      assert Older(Times(items), gone, kept);
    }
  }

  lemma NothingEvicted(items: map<string, Entry>)
    requires |items| <= LIMIT
    ensures Evicted(items) == {} && items - Evicted(items) == items
  {
    TimesCount(items);
  }

  /** The entries that a saturated clock cannot tell from the one just written, with later keys. */
  function Ties(items: map<string, Entry>, k: string): set<string> {
    set o | o in items && o != k && items[o].updated == U64_MAX && KeyLeq(k, o)
  }

  /** The memory just written is evicted exactly when a full limit of others, under later keys,
      already bears the last time there is. Below saturation it never is. */
  lemma WrittenEvicted(items: map<string, Entry>, latest: nat, now: nat, scope: string, key: string, value: string)
    requires IsLatest(items, latest) && latest <= U64_MAX && now <= U64_MAX
    ensures var all := Inserted(items, scope, key, value, NextTimestamp(latest, now));
            Storage(scope, key) in Evicted(all) <==> |Ties(items, Storage(scope, key))| >= LIMIT
    ensures latest < U64_MAX ==> Ties(items, Storage(scope, key)) == {}
  {
    var k := Storage(scope, key);
    var all := Inserted(items, scope, key, value, NextTimestamp(latest, now));
    YoungerThanWritten(items, latest, now, scope, key, value);
    RankDecides(items, all, k);
  }

  lemma RankDecides(items: map<string, Entry>, all: map<string, Entry>, k: string)
    requires all.Keys == items.Keys + {k} && k in Times(all) && Younger(Times(all), k) == Ties(items, k)
    ensures k in Evicted(all) <==> |Ties(items, k)| >= LIMIT
  {
    EvictedByRank(all, k);
    FewTies(items, all, k);
  }

  lemma EvictedByRank(items: map<string, Entry>, k: string)
    requires k in items
    ensures k in Times(items)
    ensures k in Evicted(items) <==> |items| > LIMIT && |Younger(Times(items), k)| >= LIMIT
  {
    TimesCount(items);
    if |items| > LIMIT {
      OldestByRank(Times(items), |items| - LIMIT, k);
    }
  }

  lemma FewTies(items: map<string, Entry>, all: map<string, Entry>, k: string)
    requires all.Keys == items.Keys + {k}
    ensures |Ties(items, k)| < |all|
  {
    SubsetSize(Ties(items, k), all.Keys - {k});
    assert |all| == |all.Keys|;
  }

  lemma YoungerThanWritten(items: map<string, Entry>, latest: nat, now: nat, scope: string, key: string, value: string)
    requires IsLatest(items, latest) && latest <= U64_MAX && now <= U64_MAX
    ensures var k := Storage(scope, key);
            Younger(Times(Inserted(items, scope, key, value, NextTimestamp(latest, now))), k) == Ties(items, k)
  {
    var k, at := Storage(scope, key), NextTimestamp(latest, now);
    var all := Inserted(items, scope, key, value, at);
    forall o | o in items && o != k ensures Older(Times(all), k, o) <==> o in Ties(items, k) {
      assert Times(all)[o] == items[o].updated <= latest;
    }
  }

  // ---------- Runs ----------

  predicate EntryInv(k: string, e: Entry) {
    k == Storage(e.scope, e.key) && NUL !in e.scope && e.created <= e.updated <= U64_MAX
  }

  ghost predicate Inv(s: State) {
    && |s.items| <= LIMIT && |s.audit| <= LIMIT && s.learning in {GUIDED, AUTONOMOUS}
    && forall k :: k in s.items ==> EntryInv(k, s.items[k])
  }

  datatype Op =
    | Remember(scope: string, key: string, value: string, mode: Option<string>, approved: bool)
    | Forget(scope: string, key: string)
    | Learn(learning: string)

  datatype Call = Call(op: Op, now: nat, saved: bool)

  lemma {:induction false} LatestExists(items: map<string, Entry>) returns (latest: nat)
    ensures IsLatest(items, latest)
    decreases |items|
  {
    if items == map[] {
      latest := 0;
    } else {
      var k :| k in items;
      assert (items - {k}).Keys == items.Keys - {k};
      assert |items - {k}| == |(items - {k}).Keys| && |items| == |items.Keys|;
      latest := LatestExists(items - {k});
      assert forall o :: o in items && o != k ==> o in items - {k} && (items - {k})[o] == items[o];
      if items[k].updated > latest {
        latest := items[k].updated;
      } else if latest > 0 {
        var o :| o in items - {k} && items[o].updated == latest;
        assert o in items;
      }
    }
  }

  ghost function Latest(items: map<string, Entry>): (latest: nat)
    ensures IsLatest(items, latest)
  {
    assert exists latest: nat :: IsLatest(items, latest) by { var latest := LatestExists(items); }
    var latest: nat :| IsLatest(items, latest);
    latest
  }

  ghost function Apply(s: State, call: Call): State {
    match call.op
    case Remember(scope, key, value, mode, approved) =>
      if Refused(scope, key, value) || Unapproved(s.learning, mode, approved) || !call.saved then s
      else Remembered(s, scope, key, value, NextTimestamp(Latest(s.items), call.now))
    case Forget(scope, key) =>
      if NUL in key || NUL in scope || !call.saved then s else Forgotten(s, scope, key, call.now)
    case Learn(learning) =>
      if learning !in {GUIDED, AUTONOMOUS} || !call.saved then s else s.(learning := learning)
  }

  /** A memory that is not refused and can be saved is remembered. */
  lemma Remembers(s: State, call: Call, at: nat)
    requires call.op.Remember? && call.saved && !Refused(call.op.scope, call.op.key, call.op.value)
    requires !Unapproved(s.learning, call.op.mode, call.op.approved) && at == NextTimestamp(Latest(s.items), call.now)
    ensures Apply(s, call) == Remembered(s, call.op.scope, call.op.key, call.op.value, at)
  {}

  ghost function Run(s: State, calls: seq<Call>): State
    decreases |calls|
  {
    if calls == [] then s else Run(Apply(s, calls[0]), calls[1..])
  }

  lemma RememberKeeps(s: State, scope: string, key: string, value: string, now: nat)
    requires Inv(s) && now <= U64_MAX && NUL !in scope
    ensures Inv(Remembered(s, scope, key, value, NextTimestamp(Latest(s.items), now)))
  {
    var at := NextTimestamp(Latest(s.items), now);
    EvictionMeaning(Inserted(s.items, scope, key, value, at));
    InsertedEntries(s.items, scope, key, value, at);
  }

  lemma InsertedEntries(items: map<string, Entry>, scope: string, key: string, value: string, at: nat)
    requires at <= U64_MAX && NUL !in scope && (forall k :: k in items ==> EntryInv(k, items[k]))
    requires forall k :: k in items ==> items[k].updated <= at
    ensures var all := Inserted(items, scope, key, value, at); forall k :: k in all ==> EntryInv(k, all[k])
  {}

  lemma ForgetKeeps(s: State, scope: string, key: string, now: nat)
    requires Inv(s)
    ensures Inv(Forgotten(s, scope, key, now))
  {
    var k := Storage(scope, key);
    assert (s.items - {k}).Keys == s.items.Keys - {k};
    assert |s.items - {k}| == |(s.items - {k}).Keys| && |s.items| == |s.items.Keys|;
    SubsetSize(s.items.Keys - {k}, s.items.Keys);
  }

  lemma CallKeeps(s: State, call: Call)
    requires Inv(s) && call.now <= U64_MAX
    ensures Inv(Apply(s, call))
  {
    match call.op {
      case Remember(scope, key, value, _, _) =>
        if NUL !in scope { RememberKeeps(s, scope, key, value, call.now); }
      case Forget(scope, key) => ForgetKeeps(s, scope, key, call.now);
      case Learn(_) =>
    }
  }

  lemma {:induction false} RunFrom(s: State, calls: seq<Call>)
    requires Inv(s) && forall i :: 0 <= i < |calls| ==> calls[i].now <= U64_MAX
    ensures Inv(Run(s, calls))
    decreases |calls|
  {
    if calls != [] {
      CallKeeps(s, calls[0]);
      RunFrom(Apply(s, calls[0]), calls[1..]);
    }
  }

  /** Over every run from the empty store, whichever saves fail. */
  lemma RunKeeps(calls: seq<Call>)
    requires forall i :: 0 <= i < |calls| ==> calls[i].now <= U64_MAX
    ensures Inv(Run(Empty, calls))
  {
    RunFrom(Empty, calls);
  }

  /** Below saturation a memory can be recalled as it was written, and every other one is as it was
      or evicted. */
  lemma RecallsWhatWasWritten(s: State, call: Call, scope: string, key: string)
    requires Inv(s) && call.op.Remember? && call.saved && call.now <= U64_MAX && Latest(s.items) < U64_MAX
    requires !Refused(call.op.scope, call.op.key, call.op.value) && !Unapproved(s.learning, call.op.mode, call.op.approved) && NUL !in scope
    ensures var next := Apply(s, call).items;
            var k := Storage(scope, key);
            if scope == call.op.scope && key == call.op.key then
              && k in next && next[k].value == call.op.value && next[k].updated > Latest(s.items) && next[k].updated >= call.now
              && next[k].created == (if k in s.items then s.items[k].created else next[k].updated)
            else k in next ==> k in s.items && next[k] == s.items[k]
  {
    WrittenEvicted(s.items, Latest(s.items), call.now, call.op.scope, call.op.key, call.op.value);
    if Storage(scope, key) == Storage(call.op.scope, call.op.key) {
      StorageInjective(scope, key, call.op.scope, call.op.key);
    }
  }

  /** A memory that is forgotten is gone, and every other one stays as it was. */
  lemma ForgetsOne(s: State, scope: string, key: string, now: nat, saved: bool)
    ensures var next := Apply(s, Call(Forget(scope, key), now, saved));
            var k := Storage(scope, key);
            && next.learning == s.learning
            && (saved && NUL !in scope && NUL !in key ==> k !in next.items)
            && (!saved || NUL in scope || NUL in key ==> next == s)
            && forall o :: o != k ==> (o in next.items <==> o in s.items) && (o in s.items ==> next.items[o] == s.items[o])
  {}

  /** A learning mode is set if it is one of the two and can be saved; the memories stay. */
  lemma LearnsMode(s: State, mode: string, now: nat, saved: bool)
    ensures Apply(s, Call(Learn(mode), now, saved)) == s.(learning := if saved && mode in {"guided", "autonomous"} then mode else s.learning)
  {}

  /** The newest entry, and the most recent ones before it. */
  ghost predicate Recorded(before: seq<Audit>, after: seq<Audit>, entry: Audit) {
    && |after| == Min(|before| + 1, 1_000) && after[|after| - 1] == entry
    && forall k :: 0 <= k < |after| - 1 ==> after[k] == before[|before| + 1 - |after| + k]
  }

  lemma LoggedMeaning(audit: seq<Audit>, entry: Audit)
    requires |audit| <= LIMIT
    ensures Recorded(audit, Logged(audit, entry), entry)
  {
    var all, after := audit + [entry], Logged(audit, entry);
    forall k | 0 <= k < |after| - 1 ensures after[k] == audit[|audit| + 1 - |after| + k] {
      assert after[k] == all[|all| - |after| + k];
    }
  }

  /** What changes the memories is audited. */
  lemma Audited(s: State, call: Call) returns (at: nat)
    requires Inv(s) && Apply(s, call).items != s.items
    ensures !call.op.Learn? && Recorded(s.audit, Apply(s, call).audit,
      Audit(if call.op.Remember? then "remember" else "forget", call.op.key, call.op.scope, at))
  {
    if call.op.Remember? {
      at := NextTimestamp(Latest(s.items), call.now);
      LoggedMeaning(s.audit, Audit("remember", call.op.key, call.op.scope, at));
    } else {
      at := call.now;
      ForgetAudited(s, call.op.scope, call.op.key, call.now);
    }
  }

  lemma ForgetAudited(s: State, scope: string, key: string, now: nat)
    requires Inv(s) && NUL !in scope && Storage(scope, key) in s.items
    ensures Recorded(s.audit, Forgotten(s, scope, key, now).audit, Audit("forget", key, scope, now))
  {
    var k := Storage(scope, key);
    assert EntryInv(k, s.items[k]);
    StorageInjective(s.items[k].scope, s.items[k].key, scope, key);
    LoggedMeaning(s.audit, Audit("forget", key, scope, now));
  }

  // ---------- The program ----------

  lemma LatestOnce(items: map<string, Entry>, latest: nat)
    requires IsLatest(items, latest)
    ensures latest == Latest(items)
  {}

  class Memory {
    var items: map<string, Entry>
    var audit: seq<Audit>
    var learning: string

    ghost function Model(): State
      reads this
    {
      State(items, audit, learning)
    }

    constructor ()
      ensures Model() == Empty
    {
      items, audit, learning := map[], [], GUIDED;
    }

    method Timestamp(now: nat) returns (at: nat)
      ensures at == NextTimestamp(Latest(items), now)
    {
      var latest := 0;
      var left := items.Keys;
      while left != {}
        invariant left <= items.Keys
        invariant forall k :: k in items && k !in left ==> items[k].updated <= latest
        invariant latest == 0 || exists k :: k in items && items[k].updated == latest
      {
        var k :| k in left;
        if items[k].updated > latest {
          latest := items[k].updated;
        }
        left := left - {k};
      }
      LatestOnce(items, latest);
      at := NextTimestamp(latest, now);
    }

    method Log(entry: Audit)
      modifies this`audit
      ensures audit == Logged(old(audit), entry)
    {
      audit := audit + [entry];
      if |audit| > LIMIT {
        audit := audit[|audit| - LIMIT..];
      }
    }

    /** Makes room by dropping the oldest entries. */
    method Evict()
      modifies this`items
      ensures items == old(items) - Evicted(old(items))
    {
      if |items| > LIMIT {
        var keys := TakeOldest(Times(items), |items| - LIMIT);
        items := items - keys;
      } else {
        NothingEvicted(items);
      }
    }

    method Remember(scope: string, key: string, value: string, mode: Option<string>, approved: bool, now: nat, saved: bool)
      returns (r: Result<(), MemoryError>)
      modifies this
      ensures Model() == Apply(old(Model()), Call(Op.Remember(scope, key, value, mode, approved), now, saved))
      ensures r == if Refused(scope, key, value) || Unapproved(old(learning), mode, approved) then Err(Denied)
                   else if saved then Ok(()) else Err(PersistFailed)
    {
      if Refused(scope, key, value) { return Err(Denied); }
      var name := Mode(learning, mode);
      if name == "off" || name !in {GUIDED, AUTONOMOUS} { return Err(Denied); }
      if name == GUIDED && !approved { return Err(Denied); }
      var at := Timestamp(now);
      var previousItems, previousAudit := items, audit;
      Write(scope, key, value, at);
      if !saved {
        items, audit := previousItems, previousAudit;
        return Err(PersistFailed);
      }
      r := Ok(());
    }

    method Write(scope: string, key: string, value: string, at: nat)
      modifies this`items, this`audit
      ensures Model() == Remembered(old(Model()), scope, key, value, at)
    {
      var storage := Storage(scope, key);
      var created := if storage in items then items[storage].created else at;
      items := items[storage := Entry(key, value, scope, created, at)];
      Evict();
      Log(Audit("remember", key, scope, at));
    }

    method Learn(mode: string, ghost now: nat, saved: bool) returns (r: Result<(), MemoryError>)
      modifies this
      ensures Model() == Apply(old(Model()), Call(Op.Learn(mode), now, saved))
      ensures r == if mode !in {GUIDED, AUTONOMOUS} then Err(Denied) else if saved then Ok(()) else Err(PersistFailed)
    {
      if mode !in {GUIDED, AUTONOMOUS} { return Err(Denied); }
      var previous := learning;
      learning := mode;
      if !saved {
        learning := previous;
        return Err(PersistFailed);
      }
      r := Ok(());
    }

    method Forget(scope: string, key: string, now: nat, saved: bool) returns (r: Result<bool, MemoryError>)
      modifies this
      ensures Model() == Apply(old(Model()), Call(Op.Forget(scope, key), now, saved))
      ensures r == if NUL in key || NUL in scope then Err(Denied)
                   else if saved then Ok(Storage(scope, key) in old(items)) else Err(PersistFailed)
    {
      if NUL in key || NUL in scope { return Err(Denied); }
      var previousItems, previousAudit := items, audit;
      var storage := Storage(scope, key);
      var deleted := storage in items;
      if deleted {
        var entry := items[storage];
        items := items - {storage};
        Log(Audit("forget", key, entry.scope, now));
      }
      if !saved {
        items, audit := previousItems, previousAudit;
        return Err(PersistFailed);
      }
      r := Ok(deleted);
    }
  }
}
