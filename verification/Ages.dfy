/** Ordered maps from keys to times, and their oldest entries: what is evicted when a store is full. */
module Ages {
  import opened Sorting
  import opened Text

  /** The order of the keys of a sorted map. */
  predicate KeyLeq(a: string, b: string) {
    a == b || LexLess(a, b)
  }

  lemma KeyTotal(a: string, b: string)
    ensures KeyLeq(a, b) || KeyLeq(b, a)
    ensures KeyLeq(a, b) && KeyLeq(b, a) ==> a == b
  {
    LexTotal(a, b);
  }

  lemma KeyTransitive(a: string, b: string, c: string)
    requires KeyLeq(a, b) && KeyLeq(b, c)
    ensures KeyLeq(a, c)
  {
    if a != b && b != c { LexTransitive(a, b, c); }
  }

  datatype Aged = Aged(key: string, time: nat)

  /** Older first; entries of one time in key order, as a stable sort leaves them. */
  predicate EntryLeq(a: Aged, b: Aged) {
    a.time < b.time || (a.time == b.time && KeyLeq(a.key, b.key))
  }

  lemma EntryOrder()
    ensures TotalPreorder(EntryLeq)
    ensures forall a, b :: EntryLeq(a, b) && EntryLeq(b, a) ==> a == b
  {
    forall a, b ensures EntryLeq(a, b) || EntryLeq(b, a) { KeyTotal(a.key, b.key); }
    forall a, b | EntryLeq(a, b) && EntryLeq(b, a) ensures a == b { KeyTotal(a.key, b.key); }
    forall a, b, c | EntryLeq(a, b) && EntryLeq(b, c) ensures EntryLeq(a, c) {
      if a.time == b.time == c.time { KeyTransitive(a.key, b.key, c.key); }
    }
  }

  predicate Older(times: map<string, nat>, a: string, b: string)
    requires a in times && b in times
  {
    a != b && EntryLeq(Aged(a, times[a]), Aged(b, times[b]))
  }

  function Min(a: int, b: int): int {
    if a < b then a else b
  }

  /** `s` holds the `n` oldest keys, or all when there are fewer. */
  ghost predicate IsOldest(times: map<string, nat>, n: nat, s: set<string>) {
    && s <= times.Keys && |s| == Min(n, |times|)
    && forall a, b :: a in s && b in times && b !in s ==> Older(times, a, b)
  }

  lemma OlderOneWay(times: map<string, nat>, a: string, b: string)
    requires a in times && b in times
    ensures !(Older(times, a, b) && Older(times, b, a))
  {
    KeyTotal(a, b);
  }

  lemma OlderIsOrder(times: map<string, nat>)
    ensures forall a, b, c :: a in times && b in times && c in times && Older(times, a, b) && Older(times, b, c) ==> Older(times, a, c)
    ensures forall a, b :: a in times && b in times && a != b ==> Older(times, a, b) || Older(times, b, a)
  {
    EntryOrder();
    forall a, b, c | a in times && b in times && c in times && Older(times, a, b) && Older(times, b, c)
      ensures Older(times, a, c)
    {
      OlderOneWay(times, a, b);
    }
  }

  /** That determines the set. */
  lemma OldestUnique(times: map<string, nat>, n: nat, s: set<string>, t: set<string>)
    requires IsOldest(times, n, s) && IsOldest(times, n, t)
    ensures s == t
  {
    if s != t {
      assert |s - t| == |s| - |s * t| && |t - s| == |t| - |s * t|;
      assert s - t != {} || t - s != {};
      var a :| a in s - t;
      var b :| b in t - s;
      OlderOneWay(times, a, b);
    }
  }

  lemma {:induction false} OldestOf(times: map<string, nat>, keys: set<string>) returns (k: string)
    requires keys <= times.Keys && keys != {}
    ensures k in keys && forall a :: a in keys && a != k ==> Older(times, k, a)
    decreases |keys|
  {
    k :| k in keys;
    var rest := keys - {k};
    if rest != {} {
      OlderIsOrder(times);
      var r := OldestOf(times, rest);
      if Older(times, r, k) { k := r; }
    }
  }

  lemma {:induction false} OldestExists(times: map<string, nat>, n: nat) returns (s: set<string>)
    ensures IsOldest(times, n, s)
  {
    if n == 0 {
      s := {};
    } else {
      s := OldestExists(times, n - 1);
      assert |times| == |times.Keys|;
      var rest := times.Keys - s;
      if rest != {} {
        assert |rest| == |times.Keys| - |s|;
        var k := OldestOf(times, rest);
        s := s + {k};
      } else {
        assert forall k :: k in times.Keys ==> k in s || k in rest;
        assert s == times.Keys;
      }
    }
  }

  ghost function Oldest(times: map<string, nat>, n: nat): (s: set<string>)
    ensures IsOldest(times, n, s)
  {
    assert exists s :: IsOldest(times, n, s) by {
      var s := OldestExists(times, n);
    }
    var s :| IsOldest(times, n, s);
    s
  }

  /** The keys younger than a key. */
  function Younger(times: map<string, nat>, k: string): set<string>
    requires k in times
  {
    set o | o in times && Older(times, k, o)
  }

  /** A key is among the `n` oldest exactly when enough others are younger. */
  lemma OldestByRank(times: map<string, nat>, n: nat, k: string)
    requires n <= |times| && k in times
    ensures k in Oldest(times, n) <==> |Younger(times, k)| >= |times| - n
  {
    var oldest := Oldest(times, n);
    assert |times| == |times.Keys|;
    var rest := times.Keys - oldest;
    assert |rest| == |times| - n;
    if k in oldest {
      assert rest <= Younger(times, k);
      SubsetSize(rest, Younger(times, k));
    } else {
      forall o | o in Younger(times, k) ensures o in rest - {k} {
        OlderOneWay(times, o, k);
      }
      SubsetSize(Younger(times, k), rest - {k});
    }
  }

  lemma {:induction false} SubsetSize(a: set<string>, b: set<string>)
    requires a <= b
    ensures |a| <= |b|
  {
    assert b == a + (b - a);
  }

  // ---------- Keys in order ----------

  lemma {:induction false} LeastKey(keys: set<string>) returns (k: string)
    requires keys != {}
    ensures k in keys && forall o :: o in keys ==> KeyLeq(k, o)
    decreases |keys|
  {
    k :| k in keys;
    KeyTotal(k, k);
    var rest := keys - {k};
    if rest != {} {
      var r := LeastKey(rest);
      KeyTotal(k, r);
      if KeyLeq(r, k) {
        k := r;
      } else {
        forall o | o in keys ensures KeyLeq(k, o) {
          if o != k { KeyTransitive(k, r, o); }
        }
      }
    }
  }

  lemma LeastKeyOnce(keys: set<string>, a: string, b: string)
    requires a in keys && b in keys
    requires forall o :: o in keys ==> KeyLeq(a, o)
    requires forall o :: o in keys ==> KeyLeq(b, o)
    ensures a == b
  {
    KeyTotal(a, b);
  }

  /** The keys as a sorted map lists them. */
  ghost function SortedKeys(keys: set<string>): (r: seq<string>)
    ensures |r| == |keys|
    decreases |keys|
  {
    if keys == {} then []
    else
      assert exists k :: k in keys && forall o :: o in keys ==> KeyLeq(k, o) by { var k := LeastKey(keys); }
      var k :| k in keys && forall o :: o in keys ==> KeyLeq(k, o);
      [k] + SortedKeys(keys - {k})
  }

  lemma {:induction false} SortedKeysList(keys: set<string>)
    ensures forall k :: k in SortedKeys(keys) <==> k in keys
    ensures Distinct(SortedKeys(keys))
    ensures SortedBy(SortedKeys(keys), KeyLeq)
    decreases |keys|
  {
    if keys != {} {
      var k := SortedKeys(keys)[0];
      SortedKeysList(keys - {k});
      assert SortedKeys(keys) == [k] + SortedKeys(keys - {k});
    }
  }

  /** Lists the keys by repeatedly taking the least. */
  method ListKeys(keys: set<string>) returns (r: seq<string>)
    ensures r == SortedKeys(keys)
  {
    r := [];
    var left := keys;
    while left != {}
      invariant left <= keys && r + SortedKeys(left) == SortedKeys(keys)
    {
      var k := TakeLeast(left);
      LeastKeyOnce(left, k, SortedKeys(left)[0]);
      r := r + [k];
      left := left - {k};
    }
  }

  method TakeLeast(keys: set<string>) returns (k: string)
    requires keys != {}
    ensures k in keys && forall o :: o in keys ==> KeyLeq(k, o)
  {
    k :| k in keys;
    KeyTotal(k, k);
    var left := keys - {k};
    while left != {}
      invariant left <= keys && k in keys
      invariant forall o :: o in keys && o !in left ==> KeyLeq(k, o)
    {
      var next :| next in left;
      KeyTotal(k, next);
      if !KeyLeq(k, next) {
        forall o | o in keys && o !in left ensures KeyLeq(next, o) { KeyTransitive(next, k, o); }
        KeyTotal(next, next);
        k := next;
      }
      left := left - {next};
    }
  }

  /** The entries of a map, by repeated choice of a key. */
  method Entries(times: map<string, nat>) returns (entries: seq<Aged>)
    ensures Distinct(entries) && |entries| == |times|
    ensures forall e :: e in entries <==> e.key in times && times[e.key] == e.time
  {
    entries := [];
    var left := times.Keys;
    while left != {}
      invariant left <= times.Keys && |entries| + |left| == |times|
      invariant Distinct(entries)
      invariant forall e :: e in entries <==> e.key in times && e.key !in left && times[e.key] == e.time
    {
      var key :| key in left;
      assert Aged(key, times[key]) !in entries;
      entries := entries + [Aged(key, times[key])];
      left := left - {key};
    }
    assert |times| == |times.Keys|;
  }

  ghost predicate DistinctKeys(entries: seq<Aged>) {
    forall i, j :: 0 <= i < j < |entries| ==> entries[i].key != entries[j].key
  }

  ghost predicate ListsEntries(times: map<string, nat>, entries: seq<Aged>) {
    DistinctKeys(entries) && |entries| == |times|
    && forall e :: e in entries <==> e.key in times && times[e.key] == e.time
  }

  lemma SortedEntriesList(times: map<string, nat>, entries: seq<Aged>)
    requires Distinct(entries) && |entries| == |times|
    requires forall e :: e in entries <==> e.key in times && times[e.key] == e.time
    ensures var sorted := Sort(entries, EntryLeq); SortedBy(sorted, EntryLeq) && ListsEntries(times, sorted)
  {
    EntryOrder();
    SortSorts(entries, EntryLeq);
    SortDistinct(entries, EntryLeq);
    var sorted := Sort(entries, EntryLeq);
    forall e ensures e in sorted <==> e.key in times && times[e.key] == e.time { SortElements(entries, EntryLeq, e); }
    forall i, j | 0 <= i < j < |sorted| ensures sorted[i].key != sorted[j].key {
      assert sorted[i] in sorted && sorted[j] in sorted;
      assert sorted[i] != sorted[j];
    }
  }

  method SortedEntries(times: map<string, nat>) returns (sorted: seq<Aged>)
    ensures SortedBy(sorted, EntryLeq) && ListsEntries(times, sorted)
  {
    var entries := Entries(times);
    sorted := Sort(entries, EntryLeq);
    SortedEntriesList(times, entries);
  }

  /** Sorts the entries and takes the first `n`. */
  method TakeOldest(times: map<string, nat>, n: nat) returns (keys: set<string>)
    ensures keys == Oldest(times, n)
  {
    var sorted := SortedEntries(times);
    keys := FirstKeys(sorted, n);
    FirstAreOldest(times, sorted, Min(n, |sorted|), keys);
    OldestUnique(times, n, keys, Oldest(times, n));
  }

  method FirstKeys(entries: seq<Aged>, n: nat) returns (keys: set<string>)
    requires DistinctKeys(entries)
    ensures |keys| == Min(n, |entries|)
    ensures forall j :: 0 <= j < Min(n, |entries|) ==> entries[j].key in keys
    ensures forall k :: k in keys ==> exists j :: 0 <= j < Min(n, |entries|) && entries[j].key == k
  {
    keys := {};
    for i := 0 to Min(n, |entries|)
      invariant |keys| == i
      invariant forall j :: 0 <= j < i ==> entries[j].key in keys
      invariant forall k :: k in keys ==> exists j :: 0 <= j < i && entries[j].key == k
    {
      keys := keys + {entries[i].key};
    }
  }

  lemma FirstAreOldest(times: map<string, nat>, sorted: seq<Aged>, i: nat, keys: set<string>)
    requires i <= |sorted| && SortedBy(sorted, EntryLeq) && ListsEntries(times, sorted)
    requires forall j :: 0 <= j < i ==> sorted[j].key in keys
    requires forall k :: k in keys ==> exists j :: 0 <= j < i && sorted[j].key == k
    ensures keys <= times.Keys
    ensures forall a, b :: a in keys && b in times && b !in keys ==> Older(times, a, b)
  {
    forall a | a in keys ensures a in times {
      var j :| 0 <= j < i && sorted[j].key == a;
      assert sorted[j] in sorted;
    }
    forall a, b | a in keys && b in times && b !in keys ensures Older(times, a, b) {
      var j :| 0 <= j < i && sorted[j].key == a;
      assert Aged(b, times[b]) in sorted;
      var k :| 0 <= k < |sorted| && sorted[k] == Aged(b, times[b]);
      assert sorted[j] in sorted;
      assert EntryLeq(sorted[j], sorted[k]);
    }
  }
}
