/** Stable sorting as the standard library's `sort_by` performs it. */
module Sorting {
  ghost predicate TotalPreorder<T(!new)>(leq: (T, T) -> bool) {
    && (forall a, b :: leq(a, b) || leq(b, a))
    && (forall a, b, c :: leq(a, b) && leq(b, c) ==> leq(a, c))
  }

  ghost predicate SortedBy<T>(s: seq<T>, leq: (T, T) -> bool) {
    forall i, j :: 0 <= i < j < |s| ==> leq(s[i], s[j])
  }

  /** Places `x` before the first element it does not exceed, so equal elements keep their order. */
  function Insert<T>(x: T, s: seq<T>, leq: (T, T) -> bool): (r: seq<T>)
    ensures multiset(r) == multiset(s) + multiset{x}
    ensures |r| == |s| + 1
  {
    if s == [] then [x]
    else if leq(x, s[0]) then [x] + s
    else
      assert s == [s[0]] + s[1..];
      [s[0]] + Insert(x, s[1..], leq)
  }

  function Sort<T>(s: seq<T>, leq: (T, T) -> bool): (r: seq<T>)
    ensures multiset(r) == multiset(s)
    ensures |r| == |s|
  {
    if s == [] then []
    else
      assert s == [s[0]] + s[1..];
      Insert(s[0], Sort(s[1..], leq), leq)
  }

  lemma {:induction false} InsertSorted<T(!new)>(x: T, s: seq<T>, leq: (T, T) -> bool)
    requires TotalPreorder(leq) && SortedBy(s, leq)
    ensures SortedBy(Insert(x, s, leq), leq)
  {
    if s != [] && !leq(x, s[0]) {
      InsertSorted(x, s[1..], leq);
      var tail := Insert(x, s[1..], leq);
      forall j | 0 <= j < |tail| ensures leq(s[0], tail[j]) {
        assert tail[j] in multiset(tail);
        if tail[j] != x {
          assert tail[j] in multiset(s[1..]);
          assert tail[j] in s[1..];
        }
      }
    }
  }

  lemma {:induction false} SortSorts<T(!new)>(s: seq<T>, leq: (T, T) -> bool)
    requires TotalPreorder(leq)
    ensures SortedBy(Sort(s, leq), leq)
  {
    if s != [] {
      SortSorts(s[1..], leq);
      InsertSorted(s[0], Sort(s[1..], leq), leq);
    }
  }

  lemma SortElements<T>(s: seq<T>, leq: (T, T) -> bool, x: T)
    ensures x in Sort(s, leq) <==> x in s
  {
    assert x in Sort(s, leq) <==> x in multiset(Sort(s, leq));
    assert x in s <==> x in multiset(s);
  }

  /** Sorting what is sorted changes nothing. */
  lemma {:induction false} SortSettles<T(!new)>(s: seq<T>, leq: (T, T) -> bool)
    requires SortedBy(s, leq)
    ensures Sort(s, leq) == s
  {
    if s != [] {
      SortSettles(s[1..], leq);
      assert s == [s[0]] + s[1..];
    }
  }

  /** No element occurs twice. */
  ghost predicate Distinct<T>(s: seq<T>) {
    forall i, j :: 0 <= i < j < |s| ==> s[i] != s[j]
  }

  lemma {:induction false} DistinctMultiset<T>(s: seq<T>)
    ensures Distinct(s) <==> forall x :: multiset(s)[x] <= 1
  {
    if s != [] {
      var head, tail := s[0], s[1..];
      assert s == [head] + tail;
      DistinctMultiset(tail);
      DistinctHead(s);
      assert forall x :: multiset(s)[x] == multiset(tail)[x] + if x == head then 1 else 0;
      assert head in tail <==> multiset(tail)[head] >= 1;
      if head !in tail && Distinct(tail) {
        assert forall x :: multiset(s)[x] <= 1;
      } else {
        assert exists x :: multiset(s)[x] > 1;
      }
    }
  }

  lemma DistinctHead<T>(s: seq<T>)
    requires s != []
    ensures Distinct(s) <==> s[0] !in s[1..] && Distinct(s[1..])
  {
    if s[0] !in s[1..] && Distinct(s[1..]) {
      forall i, j | 0 <= i < j < |s| ensures s[i] != s[j] {
        assert s[j] == s[1..][j - 1];
        if i > 0 { assert s[i] == s[1..][i - 1]; }
      }
    } else if s[0] in s[1..] {
      var j :| 0 <= j < |s[1..]| && s[1..][j] == s[0];
      assert s[j + 1] == s[0];
    }
  }

  lemma SortDistinct<T>(s: seq<T>, leq: (T, T) -> bool)
    requires Distinct(s)
    ensures Distinct(Sort(s, leq))
  {
    DistinctMultiset(s);
    DistinctMultiset(Sort(s, leq));
  }

  // ---------- Ascending numbers, `sort_unstable` followed by `dedup` ----------

  ghost predicate StrictlyAscending(s: seq<nat>) {
    forall i, j :: 0 <= i < j < |s| ==> s[i] < s[j]
  }

  function Ascending(a: nat, b: nat): bool {
    a <= b
  }

  /** Drops each element that equals its predecessor. */
  function Dedup(s: seq<nat>): (r: seq<nat>) {
    if |s| <= 1 then s
    else if s[0] == s[1] then Dedup(s[1..])
    else [s[0]] + Dedup(s[1..])
  }

  lemma {:induction false} DedupKeeps(s: seq<nat>)
    ensures forall v :: v in Dedup(s) <==> v in s
    ensures s != [] ==> Dedup(s) != [] && Dedup(s)[0] == s[0]
  {
    if |s| > 1 {
      DedupKeeps(s[1..]);
      assert s == [s[0]] + s[1..];
    }
  }

  lemma {:induction false} DedupStrict(s: seq<nat>)
    requires forall i, j :: 0 <= i < j < |s| ==> s[i] <= s[j]
    ensures StrictlyAscending(Dedup(s))
  {
    if |s| > 1 {
      DedupStrict(s[1..]);
      DedupKeeps(s[1..]);
      if s[0] != s[1] {
        var tail := Dedup(s[1..]);
        forall j | 0 <= j < |tail| ensures s[0] < tail[j] {
          assert tail[j] in s[1..];
          var k :| 0 <= k < |s[1..]| && s[1..][k] == tail[j];
          assert s[1] <= s[k + 1];
        }
      }
    }
  }

  /** Sorting and removing duplicates yields the set of values in ascending order. */
  lemma SortedSet(s: seq<nat>)
    ensures var r := Dedup(Sort(s, Ascending));
            && StrictlyAscending(r)
            && (forall v :: v in r <==> v in s)
            && (s != [] ==> r != [])
  {
    SortSorts(s, Ascending);
    var sorted := Sort(s, Ascending);
    assert forall i, j :: 0 <= i < j < |sorted| ==> Ascending(sorted[i], sorted[j]);
    DedupStrict(sorted);
    DedupKeeps(sorted);
    forall v ensures v in sorted <==> v in s { SortElements(s, Ascending, v); }
  }

  /** Ascending sequences with the same members are equal. */
  lemma {:induction false} AscendingUnique(a: seq<nat>, b: seq<nat>)
    requires StrictlyAscending(a) && StrictlyAscending(b)
    requires forall v :: v in a <==> v in b
    ensures a == b
  {
    if b != [] {
      assert b[0] in b;
      assert a != [];
    }
    if a != [] {
      assert a[0] in b;
      assert b[0] in a;
      assert a[0] == b[0];
      forall v ensures v in a[1..] <==> v in b[1..] {
        assert a == [a[0]] + a[1..] && b == [b[0]] + b[1..];
        assert v in a[1..] ==> v in a && v != a[0];
        assert v in b[1..] ==> v in b && v != b[0];
      }
      AscendingUnique(a[1..], b[1..]);
      assert a == [a[0]] + a[1..] && b == [b[0]] + b[1..];
    }
  }
}
