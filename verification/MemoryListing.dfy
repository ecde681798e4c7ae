/** What the agent is shown of its memories: the index with its quotas, and the pages of the list. */
module MemoryListing {
  import opened Wrappers
  import opened Sorting
  import opened Ages
  import opened MemoryStore

  const INDEX_LIMIT := 32
  const GLOBAL_INDEX_RESERVE := 16
  const LIST_PAGE_SIZE := 5
  const GLOBAL := "global"

  type Items = map<string, Entry>

  // ---------- Entries in storage order ----------

  ghost function Rows(items: Items): (r: seq<Entry>)
    ensures |r| == |items|
  {
    var keys := SortedKeys(items.Keys);
    SortedKeysList(items.Keys);
    assert |items| == |items.Keys|;
    seq(|keys|, i requires 0 <= i < |keys| => assert keys[i] in keys; items[keys[i]])
  }

  function Select(rows: seq<Entry>, wanted: Entry -> bool): (r: seq<Entry>)
    ensures |r| <= |rows|
  {
    if rows == [] then []
    else if wanted(rows[0]) then [rows[0]] + Select(rows[1..], wanted)
    else Select(rows[1..], wanted)
  }

  lemma {:induction false} SelectMeaning(rows: seq<Entry>, wanted: Entry -> bool)
    ensures forall e :: e in Select(rows, wanted) <==> e in rows && wanted(e)
    ensures forall e :: multiset(Select(rows, wanted))[e] == if wanted(e) then multiset(rows)[e] else 0
  {
    if rows != [] {
      SelectMeaning(rows[1..], wanted);
      assert rows == [rows[0]] + rows[1..];
    }
  }

  method ListRows(items: Items) returns (rows: seq<Entry>)
    ensures rows == Rows(items)
  {
    var keys := ListKeys(items.Keys);
    SortedKeysList(items.Keys);
    rows := [];
    for i := 0 to |keys|
      invariant |rows| == i && forall k :: 0 <= k < i ==> keys[k] in items && rows[k] == items[keys[k]]
    {
      assert keys[i] in keys;
      rows := rows + [items[keys[i]]];
    }
    assert |items| == |items.Keys|;
  }

  method Collect(rows: seq<Entry>, wanted: Entry -> bool) returns (r: seq<Entry>)
    ensures r == Select(rows, wanted)
  {
    r := [];
    for i := 0 to |rows|
      invariant r + Select(rows[i..], wanted) == Select(rows, wanted)
    {
      assert rows[i..][1..] == rows[i + 1..];
      if wanted(rows[i]) { r := r + [rows[i]]; }
    }
  }

  // ---------- The index ----------

  predicate Newer(a: Entry, b: Entry) {
    a.updated >= b.updated
  }

  function InScope(scope: Option<string>): Entry -> bool {
    (e: Entry) => scope.None? || e.scope == scope.value
  }

  /** The entries of a scope, newest first; entries of one time stay in storage order. */
  ghost function NewestOf(items: Items, scope: Option<string>): seq<Entry> {
    Sort(Select(Rows(items), InScope(scope)), Newer)
  }

  /** A prefix of these is at least as new as everything left out. */
  lemma NewestFirst(items: Items, scope: Option<string>)
    ensures SortedBy(NewestOf(items, scope), Newer)
    ensures var all := NewestOf(items, scope); forall i, j :: 0 <= i < j < |all| ==> all[i].updated >= all[j].updated
    ensures forall e :: e in NewestOf(items, scope) <==> e in Rows(items) && (scope.None? || e.scope == scope.value)
  {
    var chosen := Select(Rows(items), InScope(scope));
    SortSorts(chosen, Newer);
    SelectMeaning(Rows(items), InScope(scope));
    forall e ensures e in NewestOf(items, scope) <==> e in chosen { SortElements(chosen, Newer, e); }
  }

  function First(rows: seq<Entry>, n: nat): seq<Entry> {
    rows[..Min(n, |rows|)]
  }

  /** Reserved globals, then scoped entries, then globals again while there is room. */
  function Shared(scoped: seq<Entry>, global: seq<Entry>): seq<Entry> {
    var reserved := First(global, GLOBAL_INDEX_RESERVE);
    var shown := First(scoped, INDEX_LIMIT - |reserved|);
    reserved + shown + First(global[|reserved|..], INDEX_LIMIT - (|reserved| + |shown|))
  }

  ghost function IndexOf(items: Items, scope: Option<string>): seq<Entry> {
    if scope.Some? && scope.value != GLOBAL then
      Sort(Shared(NewestOf(items, scope), NewestOf(items, Some(GLOBAL))), Newer)
    else First(NewestOf(items, scope), INDEX_LIMIT)
  }

  /** The two classes share the room: it is used up as far as there are entries, half of it is
      promised to either class, and each shows its first ones. */
  lemma SharedMeaning(scoped: seq<Entry>, global: seq<Entry>) returns (shown: nat, globals: nat)
    ensures shown <= |scoped| && globals <= |global|
    ensures multiset(Shared(scoped, global)) == multiset(scoped[..shown]) + multiset(global[..globals])
    ensures shown + globals == Min(INDEX_LIMIT, |scoped| + |global|)
    ensures shown >= Min(|scoped|, INDEX_LIMIT - GLOBAL_INDEX_RESERVE) && globals >= Min(|global|, GLOBAL_INDEX_RESERVE)
  {
    var reserved := Min(|global|, GLOBAL_INDEX_RESERVE);
    shown := Min(|scoped|, INDEX_LIMIT - reserved);
    var rest := Min(|global| - reserved, INDEX_LIMIT - reserved - shown);
    globals := reserved + rest;
    ShareCounts(|scoped|, |global|, reserved, shown, rest);
    SharedMultiset(scoped, global, reserved, shown, rest);
  }

  lemma SharedMultiset(scoped: seq<Entry>, global: seq<Entry>, reserved: nat, shown: nat, rest: nat)
    requires reserved == Min(|global|, GLOBAL_INDEX_RESERVE) && shown == Min(|scoped|, INDEX_LIMIT - reserved)
    requires rest == Min(|global| - reserved, INDEX_LIMIT - reserved - shown)
    ensures multiset(Shared(scoped, global)) == multiset(scoped[..shown]) + multiset(global[..reserved + rest])
  {
    SharedParts(scoped, global, reserved, shown, rest);
    Regroup(global[..reserved], scoped[..shown], global[reserved..][..rest]);
    TwoParts(global, reserved, rest);
  }

  lemma SharedParts(scoped: seq<Entry>, global: seq<Entry>, reserved: nat, shown: nat, rest: nat)
    requires reserved == Min(|global|, GLOBAL_INDEX_RESERVE) && shown == Min(|scoped|, INDEX_LIMIT - reserved)
    requires rest == Min(|global| - reserved, INDEX_LIMIT - reserved - shown)
    ensures Shared(scoped, global) == global[..reserved] + scoped[..shown] + global[reserved..][..rest]
  {}

  lemma TwoParts(rows: seq<Entry>, a: nat, b: nat)
    requires a + b <= |rows|
    ensures rows[..a] + rows[a..][..b] == rows[..a + b]
  {}

  lemma ShareCounts(scoped: nat, global: nat, reserved: nat, shown: nat, rest: nat)
    requires reserved == Min(global, GLOBAL_INDEX_RESERVE) && shown == Min(scoped, INDEX_LIMIT - reserved)
    requires rest == Min(global - reserved, INDEX_LIMIT - reserved - shown)
    ensures shown + reserved + rest == Min(INDEX_LIMIT, scoped + global)
    ensures shown >= Min(scoped, INDEX_LIMIT - GLOBAL_INDEX_RESERVE) && reserved + rest >= Min(global, GLOBAL_INDEX_RESERVE)
  {}

  lemma Regroup(a: seq<Entry>, b: seq<Entry>, c: seq<Entry>)
    ensures multiset(a + b + c) == multiset(b) + multiset(a + c)
  {}

  /** What the index of a scope shows: the newest scoped and the newest global entries, newest first. */
  lemma IndexMeaning(items: Items, scope: string) returns (shown: nat, globals: nat)
    requires scope != GLOBAL
    ensures var s, g := NewestOf(items, Some(scope)), NewestOf(items, Some(GLOBAL));
      && shown <= |s| && globals <= |g|
      && multiset(IndexOf(items, Some(scope))) == multiset(s[..shown]) + multiset(g[..globals])
      && shown + globals == Min(INDEX_LIMIT, |s| + |g|)
      && shown >= Min(|s|, INDEX_LIMIT - GLOBAL_INDEX_RESERVE) && globals >= Min(|g|, GLOBAL_INDEX_RESERVE)
    ensures var all := IndexOf(items, Some(scope)); forall i, j :: 0 <= i < j < |all| ==> all[i].updated >= all[j].updated
  {
    var s, g := NewestOf(items, Some(scope)), NewestOf(items, Some(GLOBAL));
    shown, globals := SharedMeaning(s, g);
    SortSorts(Shared(s, g), Newer);
  }

  /** The index of everything, or of the globals: the newest entries there are. */
  lemma WholeIndexMeaning(items: Items, scope: Option<string>)
    requires scope.None? || scope.value == GLOBAL
    ensures var all := NewestOf(items, scope);
            IndexOf(items, scope) <= all && |IndexOf(items, scope)| == Min(|all|, INDEX_LIMIT)
  {}

  method Truncate(rows: seq<Entry>, n: nat) returns (r: seq<Entry>)
    ensures r == First(rows, n)
  {
    r := if |rows| > n then rows[..n] else rows;
  }

  method SortedScope(rows: seq<Entry>, scope: Option<string>) returns (r: seq<Entry>)
    ensures r == Sort(Select(rows, InScope(scope)), Newer)
  {
    r := Collect(rows, InScope(scope));
    r := Sort(r, Newer);
  }

  method Share(scoped: seq<Entry>, global: seq<Entry>) returns (entries: seq<Entry>)
    ensures entries == Shared(scoped, global)
  {
    var reserved := Min(|global|, GLOBAL_INDEX_RESERVE);
    var kept := Truncate(scoped, INDEX_LIMIT - reserved);
    entries := global[..reserved];
    entries := entries + kept;
    var rest := Truncate(global[reserved..], INDEX_LIMIT - |entries|);
    entries := entries + rest;
  }

  /** The index of a scope, of the globals, or of everything. */
  method Index(items: Items, scope: Option<string>) returns (entries: seq<Entry>)
    ensures entries == IndexOf(items, scope)
  {
    var rows := ListRows(items);
    if scope.Some? && scope.value != GLOBAL {
      var scoped := SortedScope(rows, scope);
      var global := SortedScope(rows, Some(GLOBAL));
      entries := Share(scoped, global);
    } else {
      entries := SortedScope(rows, scope);
      entries := Truncate(entries, INDEX_LIMIT);
      FirstSorted(items, scope);
    }
    entries := Sort(entries, Newer);
  }

  lemma FirstSorted(items: Items, scope: Option<string>)
    ensures var first := First(NewestOf(items, scope), INDEX_LIMIT); Sort(first, Newer) == first
  {
    NewestFirst(items, scope);
    SortSettles(First(NewestOf(items, scope), INDEX_LIMIT), Newer);
  }

  // ---------- The list ----------

  datatype Query = Query(scope: Option<string>, scopes: Option<seq<string>>, globals: Option<bool>)

  predicate Matches(q: Query, e: Entry) {
    && (q.scope.Some? ==> e.scope == q.scope.value)
    && (q.scopes.Some? ==> e.scope in q.scopes.value)
    && (q.globals.Some? ==> (e.scope == GLOBAL) == q.globals.value)
  }

  function Position(scopes: seq<string>, scope: string): nat {
    if scopes == [] || scopes[0] == scope then 0 else 1 + Position(scopes[1..], scope)
  }

  function MatchedBy(q: Query): Entry -> bool {
    (e: Entry) => Matches(q, e)
  }

  function ByPosition(scopes: seq<string>): (Entry, Entry) -> bool {
    (a: Entry, b: Entry) => Position(scopes, a.scope) <= Position(scopes, b.scope)
  }

  /** Of session memories under one key only the first remains. */
  function Unshadowed(rows: seq<Entry>, seen: set<string>): seq<Entry> {
    if rows == [] then []
    else if rows[0].scope == GLOBAL then [rows[0]] + Unshadowed(rows[1..], seen)
    else if rows[0].key in seen then Unshadowed(rows[1..], seen)
    else [rows[0]] + Unshadowed(rows[1..], seen + {rows[0].key})
  }

  predicate ListOrder(a: Entry, b: Entry) {
    a.updated > b.updated || (a.updated == b.updated && KeyLeq(a.key, b.key))
  }

  ghost function Candidates(items: Items, q: Query): seq<Entry> {
    var chosen := Select(Rows(items), MatchedBy(q));
    if q.scopes.None? then chosen
    else Unshadowed(Sort(chosen, ByPosition(q.scopes.value)), {})
  }

  ghost function Listed(items: Items, q: Query): seq<Entry> {
    Sort(Candidates(items, q), ListOrder)
  }

  // ---------- Which memories are listed ----------

  ghost predicate FirstOfKey(rows: seq<Entry>, seen: set<string>, i: nat)
    requires i < |rows|
  {
    rows[i].scope == GLOBAL
    || (rows[i].key !in seen && forall j :: 0 <= j < i ==> rows[j].scope == GLOBAL || rows[j].key != rows[i].key)
  }

  lemma {:induction false} UnshadowedMeaning(rows: seq<Entry>, seen: set<string>, e: Entry)
    ensures e in Unshadowed(rows, seen) <==> exists i :: 0 <= i < |rows| && rows[i] == e && FirstOfKey(rows, seen, i)
  {
    if rows != [] {
      var rest := rows[1..];
      var next := if rows[0].scope == GLOBAL || rows[0].key in seen then seen else seen + {rows[0].key};
      UnshadowedMeaning(rest, next, e);
      forall i | 0 <= i < |rest| ensures FirstOfKey(rest, next, i) <==> FirstOfKey(rows, seen, i + 1) {
        assert rest[i] == rows[i + 1];
        assert forall j :: 0 <= j < i ==> rest[j] == rows[j + 1];
        assert forall j :: 1 <= j < i + 1 ==> rows[j] == rest[j - 1];
      }
      if e in Unshadowed(rest, next) {
        var i :| 0 <= i < |rest| && rest[i] == e && FirstOfKey(rest, next, i);
        assert rows[i + 1] == e && FirstOfKey(rows, seen, i + 1);
      }
      if i :| 0 < i < |rows| && rows[i] == e && FirstOfKey(rows, seen, i) {
        assert rest[i - 1] == e && FirstOfKey(rest, next, i - 1);
      }
      assert FirstOfKey(rows, seen, 0) <==> rows[0].scope == GLOBAL || rows[0].key !in seen;
    }
  }

  lemma RowsMeaning(items: Items, e: Entry)
    ensures e in Rows(items) <==> exists k :: k in items && items[k] == e
  {
    SortedKeysList(items.Keys);
    var keys := SortedKeys(items.Keys);
    if k :| k in items && items[k] == e {
      assert k in keys;
      var i :| 0 <= i < |keys| && keys[i] == k;
      assert Rows(items)[i] == e;
    }
    if e in Rows(items) {
      var i :| 0 <= i < |keys| && Rows(items)[i] == e;
      assert keys[i] in keys;
    }
  }

  /** In a store that keeps its invariant a memory is determined by scope and key. */
  lemma OneMemory(s: State, a: Entry, b: Entry)
    requires MemoryStore.Inv(s) && a in Rows(s.items) && b in Rows(s.items) && a.scope == b.scope && a.key == b.key
    ensures a == b
  {
    RowsMeaning(s.items, a);
    RowsMeaning(s.items, b);
  }

  lemma {:induction false} PositionMeaning(scopes: seq<string>, scope: string)
    requires scope in scopes
    ensures Position(scopes, scope) < |scopes| && scopes[Position(scopes, scope)] == scope
  {
    if scopes[0] != scope { PositionMeaning(scopes[1..], scope); }
  }

  lemma ByPositionOrder(scopes: seq<string>)
    ensures TotalPreorder(ByPosition(scopes))
  {}

  /** A session memory is shadowed by one of the same key in a scope asked for earlier. */
  ghost predicate Shadowed(items: Items, q: Query, e: Entry)
    requires q.scopes.Some?
  {
    e.scope != GLOBAL && exists o :: o in Rows(items) && Shadows(q, o, e)
  }

  predicate Shadows(q: Query, o: Entry, e: Entry)
    requires q.scopes.Some?
  {
    Matches(q, o) && o.scope != GLOBAL && o.key == e.key && Position(q.scopes.value, o.scope) < Position(q.scopes.value, e.scope)
  }

  lemma EarlierIsNearer(rows: seq<Entry>, scopes: seq<string>, i: nat, j: nat)
    requires SortedBy(rows, ByPosition(scopes)) && i < |rows| && j < |rows|
    ensures i < j ==> Position(scopes, rows[i].scope) <= Position(scopes, rows[j].scope)
  {
    if i < j {
      assert ByPosition(scopes)(rows[i], rows[j]);
    }
  }

  /** The list shows exactly the memories of the asked scopes, global or not as asked, that are not shadowed. */
  lemma ListedExactly(s: State, q: Query, e: Entry)
    requires MemoryStore.Inv(s)
    ensures e in Listed(s.items, q) <==>
      && e in Rows(s.items)
      && (match q.scope case None => true case Some(scope) => e.scope == scope)
      && (match q.scopes case None => true case Some(scopes) => e.scope in scopes && !Shadowed(s.items, q, e))
      && (match q.globals case None => true case Some(global) => if global then e.scope == GLOBAL else e.scope != GLOBAL)
  {
    SortElements(Candidates(s.items, q), ListOrder, e);
    SelectMeaning(Rows(s.items), MatchedBy(q));
    if q.scopes.Some? {
      var chosen := Select(Rows(s.items), MatchedBy(q));
      var rows := Sort(chosen, ByPosition(q.scopes.value));
      ByPositionOrder(q.scopes.value);
      SortSorts(chosen, ByPosition(q.scopes.value));
      forall o ensures o in rows <==> o in Rows(s.items) && Matches(q, o) { SortElements(chosen, ByPosition(q.scopes.value), o); }
      UnshadowedMeaning(rows, {}, e);
      if e in rows {
        ShadowedRow(s, q, rows, e);
      }
    }
  }

  lemma ShadowedRow(s: State, q: Query, rows: seq<Entry>, e: Entry)
    requires MemoryStore.Inv(s) && q.scopes.Some? && e in rows && SortedBy(rows, ByPosition(q.scopes.value))
    requires forall o :: o in rows <==> o in Rows(s.items) && Matches(q, o)
    ensures (exists i :: 0 <= i < |rows| && rows[i] == e && FirstOfKey(rows, {}, i)) <==> !Shadowed(s.items, q, e)
  {
    var i := FirstAt(rows, e);
    if FirstOfKey(rows, {}, i) && Shadowed(s.items, q, e) {
      ShadowIsEarlier(s, q, rows, i);
    }
    if !FirstOfKey(rows, {}, i) {
      NotFirstIsShadowed(s, q, rows, i);
      forall k | 0 <= k < |rows| && rows[k] == e ensures !FirstOfKey(rows, {}, k) {
        assert i <= k;
      }
    } else if k :| 0 <= k < |rows| && rows[k] == e && FirstOfKey(rows, {}, k) {
      assert rows[i] == e;
    }
  }

  lemma {:induction false} FirstAt(rows: seq<Entry>, e: Entry) returns (i: nat)
    requires e in rows
    ensures i < |rows| && rows[i] == e && forall j :: 0 <= j < i ==> rows[j] != e
  {
    if rows[0] == e {
      i := 0;
    } else {
      var k := FirstAt(rows[1..], e);
      i := k + 1;
      assert forall j :: 1 <= j < i ==> rows[j] == rows[1..][j - 1];
    }
  }

  lemma ShadowIsEarlier(s: State, q: Query, rows: seq<Entry>, i: nat)
    requires q.scopes.Some? && i < |rows| && SortedBy(rows, ByPosition(q.scopes.value))
    requires forall o :: o in rows <==> o in Rows(s.items) && Matches(q, o)
    requires Shadowed(s.items, q, rows[i])
    ensures !FirstOfKey(rows, {}, i)
  {
    var e := rows[i];
    var o :| o in Rows(s.items) && Shadows(q, o, e);
    assert o in rows;
    var j :| 0 <= j < |rows| && rows[j] == o;
    EarlierIsNearer(rows, q.scopes.value, i, j);
  }

  lemma NotFirstIsShadowed(s: State, q: Query, rows: seq<Entry>, i: nat)
    requires MemoryStore.Inv(s) && q.scopes.Some? && i < |rows| && SortedBy(rows, ByPosition(q.scopes.value))
    requires forall o :: o in rows <==> o in Rows(s.items) && Matches(q, o)
    requires !FirstOfKey(rows, {}, i) && forall j :: 0 <= j < i ==> rows[j] != rows[i]
    ensures Shadowed(s.items, q, rows[i])
  {
    var e := rows[i];
    var j :| 0 <= j < i && rows[j].scope != GLOBAL && rows[j].key == e.key;
    EarlierIsNearer(rows, q.scopes.value, j, i);
    assert rows[j] in rows && rows[i] in rows;
    SameKeyShadows(s, q, rows[j], e);
  }

  lemma SameKeyShadows(s: State, q: Query, o: Entry, e: Entry)
    requires MemoryStore.Inv(s) && q.scopes.Some? && o != e && o.scope != GLOBAL && o.key == e.key
    requires o in Rows(s.items) && e in Rows(s.items) && Matches(q, o) && Matches(q, e)
    requires Position(q.scopes.value, o.scope) <= Position(q.scopes.value, e.scope)
    ensures Shadows(q, o, e)
  {
    if o.scope == e.scope { OneMemory(s, o, e); }
    PositionMeaning(q.scopes.value, o.scope);
    PositionMeaning(q.scopes.value, e.scope);
  }

  lemma {:induction false} UnshadowedOnce(rows: seq<Entry>, seen: set<string>)
    ensures multiset(Unshadowed(rows, seen)) <= multiset(rows)
  {
    if rows != [] {
      assert rows == [rows[0]] + rows[1..];
      UnshadowedOnce(rows[1..], if rows[0].scope == GLOBAL || rows[0].key in seen then seen else seen + {rows[0].key});
    }
  }

  /** No memory is listed twice. */
  lemma ListedOnce(s: State, q: Query)
    requires MemoryStore.Inv(s)
    ensures Distinct(Listed(s.items, q))
  {
    RowsDistinct(s);
    DistinctMultiset(Rows(s.items));
    var chosen := Select(Rows(s.items), MatchedBy(q));
    SelectMeaning(Rows(s.items), MatchedBy(q));
    if q.scopes.Some? {
      UnshadowedOnce(Sort(chosen, ByPosition(q.scopes.value)), {});
    }
    FewerDistinct(Rows(s.items), Candidates(s.items, q));
    SortDistinct(Candidates(s.items, q), ListOrder);
  }

  lemma FewerDistinct(rows: seq<Entry>, some: seq<Entry>)
    requires Distinct(rows) && forall e :: multiset(some)[e] <= multiset(rows)[e]
    ensures Distinct(some)
  {
    DistinctMultiset(rows);
    DistinctMultiset(some);
  }

  lemma RowsDistinct(s: State)
    requires MemoryStore.Inv(s)
    ensures Distinct(Rows(s.items))
  {
    var keys, rows := SortedKeys(s.items.Keys), Rows(s.items);
    SortedKeysList(s.items.Keys);
    forall i, j | 0 <= i < j < |rows| ensures rows[i] != rows[j] {
      assert keys[i] in keys && keys[j] in keys;
      assert keys[i] != keys[j];
    }
  }

  lemma ListedInOrder(items: Items, q: Query)
    ensures var all := Listed(items, q); forall i, j :: 0 <= i < j < |all| ==>
      all[i].updated > all[j].updated || (all[i].updated == all[j].updated && KeyLeq(all[i].key, all[j].key))
  {
    assert TotalPreorder(ListOrder) by {
      forall a, b ensures ListOrder(a, b) || ListOrder(b, a) { KeyTotal(a.key, b.key); }
      forall a, b, c | ListOrder(a, b) && ListOrder(b, c) ensures ListOrder(a, c) {
        if a.updated == b.updated == c.updated { KeyTransitive(a.key, b.key, c.key); }
      }
    }
    SortSorts(Candidates(items, q), ListOrder);
  }

  // ---------- Pages ----------

  function PageCount(total: nat): nat {
    if total == 0 then 1 else (total + LIST_PAGE_SIZE - 1) / LIST_PAGE_SIZE
  }

  lemma PageCountMeaning(total: nat)
    ensures LIST_PAGE_SIZE * (PageCount(total) - 1) <= total <= LIST_PAGE_SIZE * PageCount(total)
    ensures total > 0 ==> LIST_PAGE_SIZE * (PageCount(total) - 1) < total
    ensures PageCount(total) >= 1
  {}

  function PageOf(rows: seq<Entry>, page: nat): seq<Entry>
    requires 1 <= page <= PageCount(|rows|)
  {
    PageCountMeaning(|rows|);
    rows[(page - 1) * LIST_PAGE_SIZE..Min((page - 1) * LIST_PAGE_SIZE + LIST_PAGE_SIZE, |rows|)]
  }

  function Pages(rows: seq<Entry>, n: nat): seq<Entry>
    requires n <= PageCount(|rows|)
  {
    if n == 0 then [] else Pages(rows, n - 1) + PageOf(rows, n)
  }

  lemma {:induction false} PagesJoin(rows: seq<Entry>, n: nat)
    requires n <= PageCount(|rows|)
    ensures Pages(rows, n) == rows[..Min(n * LIST_PAGE_SIZE, |rows|)]
  {
    PageCountMeaning(|rows|);
    if n > 0 {
      PagesJoin(rows, n - 1);
    }
  }

  /** One page after the other is the whole list; every page but the last is full, and the last one
      is empty only when everything is. */
  lemma PagesPartition(rows: seq<Entry>)
    ensures Pages(rows, PageCount(|rows|)) == rows
    ensures forall page :: 1 <= page < PageCount(|rows|) ==> |PageOf(rows, page)| == LIST_PAGE_SIZE
    ensures var last := |PageOf(rows, PageCount(|rows|))|; last <= LIST_PAGE_SIZE && (last == 0 <==> rows == [])
  {
    PageCountMeaning(|rows|);
    PagesJoin(rows, PageCount(|rows|));
  }

  datatype Listing = Listing(items: seq<Entry>, total: nat, page: nat, pages: nat)

  predicate BadQuery(q: Query) {
    (q.scope.Some? && q.scopes.Some?) || (q.scopes.Some? && !(1 <= |q.scopes.value| <= 8))
  }

  method Retain(rows: seq<Entry>) returns (r: seq<Entry>)
    ensures r == Unshadowed(rows, {})
  {
    r := [];
    var seen := {};
    for i := 0 to |rows|
      invariant r + Unshadowed(rows[i..], seen) == Unshadowed(rows, {})
    {
      assert rows[i..][1..] == rows[i + 1..];
      if rows[i].scope == GLOBAL {
        r := r + [rows[i]];
      } else if rows[i].key !in seen {
        seen := seen + {rows[i].key};
        r := r + [rows[i]];
      }
    }
  }

  method Arrange(items: Items, q: Query) returns (entries: seq<Entry>)
    ensures entries == Listed(items, q)
  {
    var rows := ListRows(items);
    entries := Collect(rows, MatchedBy(q));
    if q.scopes.Some? {
      entries := Sort(entries, ByPosition(q.scopes.value));
      entries := Retain(entries);
    }
    entries := Sort(entries, ListOrder);
  }

  method List(items: Items, q: Query, page: nat) returns (r: Result<Listing, MemoryError>)
    ensures r.Ok? <==>
      && (q.scope.None? || q.scopes.None?) && (q.scopes.Some? ==> 1 <= |q.scopes.value| <= 8)
      && 1 <= page <= PageCount(|Listed(items, q)|)
    ensures r.Ok? ==>
      r.value == Listing(PageOf(Listed(items, q), page), |Listed(items, q)|, page, PageCount(|Listed(items, q)|))
  {
    if BadQuery(q) || page == 0 { return Err(Denied); }
    var entries := Arrange(items, q);
    var pages := PageCount(|entries|);
    if page > pages { return Err(Denied); }
    PageCountMeaning(|entries|);
    var start := (page - 1) * LIST_PAGE_SIZE;
    var end := if start + LIST_PAGE_SIZE < |entries| then start + LIST_PAGE_SIZE else |entries|;
    r := Ok(Listing(entries[start..end], |entries|, page, pages));
  }
}
