/** A run that leads to a memory store in which a memory does not survive its own writing. */
module MemorySaturation {
  import opened Wrappers
  import opened Integers
  import opened Text
  import opened Ages
  import opened MemoryStore

  const SCOPE := "s"

  function FillKey(i: nat): string {
    if i == 0 then "b" else "b" + FillKey(i - 1)
  }

  /** The `i`-th memory, written when the clock stands at its end. */
  function FillCall(i: nat): Call {
    Call(Remember(SCOPE, FillKey(i), "", Some(AUTONOMOUS), false), U64_MAX, true)
  }

  function FillCalls(n: nat): seq<Call> {
    if n == 0 then [] else FillCalls(n - 1) + [FillCall(n - 1)]
  }

  function FillKeys(n: nat): set<string> {
    if n == 0 then {} else FillKeys(n - 1) + {Storage(SCOPE, FillKey(n - 1))}
  }

  lemma {:induction false} FillKeyFacts(i: nat)
    ensures |FillKey(i)| == i + 1 && FillKey(i)[0] == 'b' && Bytes(FillKey(i)) == i + 1
    ensures forall c :: c in FillKey(i) ==> c == 'b'
  {
    if i > 0 {
      FillKeyFacts(i - 1);
      assert FillKey(i)[1..] == FillKey(i - 1);
    }
  }

  lemma FillAccepted(i: nat)
    requires i < VALUE_LIMIT
    ensures !Refused(SCOPE, FillKey(i), "")
  {
    FillKeyFacts(i);
    assert !IsWhitespace(FillKey(i)[0]) && !IsWhitespace(SCOPE[0]);
  }

  lemma {:induction false} FillKeysSize(n: nat)
    ensures |FillKeys(n)| == n && forall k :: k in FillKeys(n) ==> |k| <= n + 2
  {
    if n > 0 {
      FillKeysSize(n - 1);
      FillKeyFacts(n - 1);
      assert |Storage(SCOPE, FillKey(n - 1))| == n + 2;
    }
  }

  /** They all come after the key `a`. */
  lemma {:induction false} FillKeysLater(n: nat)
    ensures forall k :: k in FillKeys(n) ==> LexLess(Storage(SCOPE, "a"), k)
  {
    if n > 0 {
      FillKeysLater(n - 1);
      FillKeyFacts(n - 1);
      var front := SCOPE + [NUL];
      LexBlocks(front, front, "a", FillKey(n - 1));
      assert LexLess("a", FillKey(n - 1));
      assert Storage(SCOPE, "a") == front + "a" && Storage(SCOPE, FillKey(n - 1)) == front + FillKey(n - 1);
    }
  }

  ghost predicate Saturated(items: map<string, Entry>, n: nat) {
    items.Keys == FillKeys(n) && forall k :: k in items ==> items[k].updated == U64_MAX
  }

  lemma {:induction false} RunSnoc(s: State, calls: seq<Call>, last: Call)
    ensures Run(s, calls + [last]) == Apply(Run(s, calls), last)
    decreases |calls|
  {
    if calls == [] {
      assert ([] + [last])[1..] == [];
    } else {
      assert (calls + [last])[1..] == calls[1..] + [last];
      RunSnoc(Apply(s, calls[0]), calls[1..], last);
    }
  }

  lemma {:induction false} FillRun(n: nat)
    requires n <= LIMIT
    ensures Saturated(Run(Empty, FillCalls(n)).items, n)
  {
    if n > 0 {
      FillRun(n - 1);
      var before := Run(Empty, FillCalls(n - 1));
      RunSnoc(Empty, FillCalls(n - 1), FillCall(n - 1));
      assert FillCalls(n) == FillCalls(n - 1) + [FillCall(n - 1)];
      FillStep(before, n);
    }
  }

  lemma FillStep(s: State, n: nat)
    requires 0 < n <= LIMIT && Saturated(s.items, n - 1)
    ensures Saturated(Apply(s, FillCall(n - 1)).items, n)
  {
    FillRemembers(s, n);
    FillInserts(s.items, n);
  }

  lemma FillRemembers(s: State, n: nat)
    requires 0 < n <= LIMIT && Saturated(s.items, n - 1)
    ensures Apply(s, FillCall(n - 1)) == Remembered(s, SCOPE, FillKey(n - 1), "", U64_MAX)
  {
    FillAccepted(n - 1);
    SaturatedLatest(s.items, n - 1);
    Remembers(s, FillCall(n - 1), U64_MAX);
  }

  lemma FillInserts(items: map<string, Entry>, n: nat)
    requires 0 < n <= LIMIT && Saturated(items, n - 1)
    ensures var all := Inserted(items, SCOPE, FillKey(n - 1), "", U64_MAX); Saturated(all - Evicted(all), n)
  {
    var all := Inserted(items, SCOPE, FillKey(n - 1), "", U64_MAX);
    assert all.Keys == FillKeys(n);
    SaturatedSize(all, n);
    NothingEvicted(all);
  }

  lemma SaturatedSize(items: map<string, Entry>, n: nat)
    requires items.Keys == FillKeys(n)
    ensures |items| == n
  {
    FillKeysSize(n);
    assert |items| == |items.Keys|;
  }

  lemma SaturatedLatest(items: map<string, Entry>, n: nat)
    requires Saturated(items, n)
    ensures Latest(items) <= U64_MAX && NextTimestamp(Latest(items), U64_MAX) == U64_MAX
  {
    var latest := Latest(items);
    assert IsLatest(items, latest);
  }

  lemma AllTie(items: map<string, Entry>, n: nat, k: string)
    requires Saturated(items, n) && k == Storage(SCOPE, "a")
    ensures |Ties(items, k)| == n
  {
    FillKeysSize(n);
    FillKeysLater(n);
    LexIrreflexive(k);
    assert Ties(items, k) == items.Keys;
  }

  lemma FirstAccepted(value: string)
    requires Bytes(value) <= VALUE_LIMIT
    ensures !Refused(SCOPE, "a", value)
  {
    assert !IsWhitespace("a"[0]) && !IsWhitespace(SCOPE[0]) && Bytes("a") == 1;
  }

  /** A full limit of memories written at the end of time, then one under an earlier key: it is evicted
      by its own writing. */
  lemma WrittenEvictedReachable(value: string, now: nat) returns (calls: seq<Call>)
    requires now <= U64_MAX && Bytes(value) <= VALUE_LIMIT
    ensures var call := Call(Remember(SCOPE, "a", value, Some(AUTONOMOUS), false), now, true);
            !Refused(SCOPE, "a", value) && Storage(SCOPE, "a") !in Apply(Run(Empty, calls), call).items
  {
    FirstAccepted(value);
    var s;
    calls, s := FullStore();
    LostAgain(s, LIMIT, value, now);
  }

  lemma FullStore() returns (calls: seq<Call>, s: State)
    ensures s == Run(Empty, calls) && Saturated(s.items, LIMIT)
  {
    var limit := LIMIT;
    calls, s := FillCalls(limit), Run(Empty, FillCalls(limit));
    FillRun(limit);
  }

  lemma LostAgain(s: State, limit: nat, value: string, now: nat)
    requires limit == LIMIT && now <= U64_MAX && Saturated(s.items, limit) && !Refused(SCOPE, "a", value)
    ensures Storage(SCOPE, "a") !in Apply(s, Call(Remember(SCOPE, "a", value, Some(AUTONOMOUS), false), now, true)).items
  {
    SaturatedLatest(s.items, limit);
    AllTie(s.items, limit, Storage(SCOPE, "a"));
    WrittenEvicted(s.items, Latest(s.items), now, SCOPE, "a", value);
  }
}
