/** The torn-tail repair of `append_jsonl` in `krabb-libs/file`. Whether a tail is one JSON value is
    a parameter. */
module JsonlAppend {
  import opened Wrappers
  import opened Integers
  import opened Sequences

  const NEWLINE: byte := 10
  const CHUNK := 8192

  // ---------- Lines ----------

  /** The position after the last newline. */
  function TailStart(s: seq<byte>): (start: nat)
    ensures start <= |s|
    ensures start > 0 ==> s[start - 1] == NEWLINE
    ensures NEWLINE !in s[start..]
  {
    if s == [] then 0
    else if s[|s| - 1] == NEWLINE then |s|
    else
      var start := TailStart(s[..|s| - 1]);
      assert s[start..] == s[..|s| - 1][start..] + [s[|s| - 1]];
      start
  }

  function Tail(s: seq<byte>): seq<byte> {
    s[TailStart(s)..]
  }

  /** The complete lines, each with its newline. */
  function Lines(s: seq<byte>): seq<seq<byte>> {
    LinesFrom(s, [])
  }

  function LinesFrom(s: seq<byte>, line: seq<byte>): seq<seq<byte>> {
    if s == [] then []
    else if s[0] == NEWLINE then [line + [NEWLINE]] + LinesFrom(s[1..], [])
    else LinesFrom(s[1..], line + [s[0]])
  }

  // ---------- The result of an append ----------

  /** The file once its torn tail is repaired: completed when it is a JSON value, dropped when not. */
  function Repaired(content: seq<byte>, valid: seq<byte> -> bool): seq<byte> {
    if Tail(content) == [] then content
    else if valid(Tail(content)) then content + [NEWLINE]
    else content[..TailStart(content)]
  }

  // ---------- Properties of the line structure ----------

  lemma TailStartUnique(s: seq<byte>, start: nat)
    requires start <= |s| && (start > 0 ==> s[start - 1] == NEWLINE) && NEWLINE !in s[start..]
    ensures start == TailStart(s)
  {
    NewlineAfter(s, start, TailStart(s));
    NewlineAfter(s, TailStart(s), start);
  }

  lemma NewlineAfter(s: seq<byte>, from: nat, end: nat)
    requires from <= |s| && end <= |s|
    ensures from < end && s[end - 1] == NEWLINE ==> NEWLINE in s[from..]
  {
    if from < end { assert s[from..][end - 1 - from] == s[end - 1]; }
  }

  lemma {:induction false} LinesWithoutNewline(s: seq<byte>, line: seq<byte>)
    requires NEWLINE !in s
    ensures LinesFrom(s, line) == []
  {
    if s != [] {
      assert s[0] in s;
      LinesWithoutNewline(s[1..], line + [s[0]]);
    }
  }

  lemma {:induction false} LineAlone(s: seq<byte>, line: seq<byte>)
    requires NEWLINE !in s
    ensures LinesFrom(s + [NEWLINE], line) == [line + s + [NEWLINE]]
  {
    if s == [] {
      assert s + [NEWLINE] == [NEWLINE];
      assert line + s == line;
    } else {
      assert s[0] in s;
      assert (s + [NEWLINE])[1..] == s[1..] + [NEWLINE];
      LineAlone(s[1..], line + [s[0]]);
      assert line + [s[0]] + s[1..] == line + s;
    }
  }

  /** Text that ends with a newline, or nothing, closes its lines. */
  lemma {:induction false} LinesJoinFrom(a: seq<byte>, b: seq<byte>, line: seq<byte>)
    requires (a == [] && line == []) || (a != [] && a[|a| - 1] == NEWLINE)
    ensures LinesFrom(a + b, line) == LinesFrom(a, line) + Lines(b)
  {
    if a == [] {
      assert a + b == b;
    } else {
      assert (a + b)[1..] == a[1..] + b;
      if a[0] == NEWLINE {
        LinesJoinFrom(a[1..], b, []);
      } else {
        LinesJoinFrom(a[1..], b, line + [a[0]]);
      }
    }
  }

  lemma LinesJoin(a: seq<byte>, b: seq<byte>)
    requires Tail(a) == []
    ensures Lines(a + b) == Lines(a) + Lines(b)
  {
    LinesJoinFrom(a, b, []);
  }

  /** A file is its complete lines followed by its tail. */
  lemma LinesOfContent(s: seq<byte>)
    ensures Lines(s) == Lines(s[..TailStart(s)])
    ensures Tail(s[..TailStart(s)]) == []
    ensures s == s[..TailStart(s)] + Tail(s)
  {
    var head := s[..TailStart(s)];
    TailStartUnique(head, |head|);
    LinesJoin(head, Tail(s));
    LinesWithoutNewline(Tail(s), []);
    assert s == head + Tail(s);
  }

  lemma {:induction false} LinesConcatFrom(s: seq<byte>, line: seq<byte>)
    requires (s == [] && line == []) || (s != [] && s[|s| - 1] == NEWLINE)
    ensures Concat(LinesFrom(s, line)) == line + s
  {
    if s != [] {
      if s[0] == NEWLINE {
        LinesConcatFrom(s[1..], []);
        var rest := LinesFrom(s[1..], []);
        assert LinesFrom(s, line)[1..] == rest;
        assert line + s == (line + [NEWLINE]) + s[1..];
      } else {
        LinesConcatFrom(s[1..], line + [s[0]]);
        assert line + s == (line + [s[0]]) + s[1..];
      }
    }
  }

  /** The lines and the tail are the file, byte for byte. */
  lemma LinesConcat(s: seq<byte>)
    ensures Concat(Lines(s)) + Tail(s) == s
  {
    LinesOfContent(s);
    LinesConcatFrom(s[..TailStart(s)], []);
    assert [] + s[..TailStart(s)] == s[..TailStart(s)];
  }

  // ---------- What an append guarantees ----------

  /** What a repair adds: the tail as a line of its own, if it was a JSON value. */
  function Completed(content: seq<byte>, valid: seq<byte> -> bool): seq<seq<byte>> {
    if Tail(content) != [] && valid(Tail(content)) then [Tail(content) + [NEWLINE]] else []
  }

  lemma TailClosed(head: seq<byte>, tail: seq<byte>)
    requires Tail(head) == [] && NEWLINE !in tail
    ensures Tail(head + tail + [NEWLINE]) == []
    ensures Lines(head + tail + [NEWLINE]) == Lines(head) + [tail + [NEWLINE]]
  {
    var whole := head + tail + [NEWLINE];
    TailStartUnique(whole, |whole|);
    LinesJoin(head, tail + [NEWLINE]);
    LineAlone(tail, []);
    assert [] + tail == tail;
    assert whole == head + (tail + [NEWLINE]);
  }

  lemma RepairedLines(content: seq<byte>, valid: seq<byte> -> bool)
    ensures Tail(Repaired(content, valid)) == []
    ensures Lines(Repaired(content, valid)) == Lines(content) + Completed(content, valid)
  {
    LinesOfContent(content);
    if Tail(content) != [] && valid(Tail(content)) {
      TailClosed(content[..TailStart(content)], Tail(content));
    }
  }

  /** The lines after a repair and an append: all complete lines, the tail if it was a JSON value,
      then the record. */
  lemma AppendedLines(content: seq<byte>, valid: seq<byte> -> bool, record: seq<byte>)
    ensures Tail(Repaired(content, valid)) == []
    ensures Lines(Repaired(content, valid) + record) == Lines(content) + Completed(content, valid) + Lines(record)
  {
    RepairedLines(content, valid);
    LinesJoin(Repaired(content, valid), record);
  }

  /** The states an append passes through: the repair, then `cut` bytes of the record, then all of it. */
  function AppendTrace(content: seq<byte>, valid: seq<byte> -> bool, record: seq<byte>, cut: nat): seq<seq<byte>>
    requires cut <= |record|
  {
    var repaired := Repaired(content, valid);
    [repaired, repaired + record[..cut], repaired + record]
  }

  /** No crash during an append loses a complete line. */
  lemma CrashKeepsLines(content: seq<byte>, valid: seq<byte> -> bool, record: seq<byte>, cut: nat, step: nat)
    requires cut <= |record| && step < 3
    ensures Lines(content) <= Lines(AppendTrace(content, valid, record, cut)[step])
  {
    var repaired := Repaired(content, valid);
    AppendedLines(content, valid, []);
    AppendedLines(content, valid, record[..cut]);
    AppendedLines(content, valid, record);
    assert repaired + [] == repaired;
  }

  datatype Append = Append(record: seq<byte>, cut: nat, step: nat)

  /** A run of appends, each of which may be cut short by a crash. */
  function Run(content: seq<byte>, valid: seq<byte> -> bool, appends: seq<Append>): seq<byte>
    requires forall a :: a in appends ==> a.cut <= |a.record| && a.step < 3
    decreases |appends|
  {
    if appends == [] then content
    else
      var a := appends[0];
      Run(AppendTrace(content, valid, a.record, a.cut)[a.step], valid, appends[1..])
  }

  /** Over any run of appends and crashes complete lines stay, unchanged and in place. */
  lemma {:induction false} RunKeepsLines(content: seq<byte>, valid: seq<byte> -> bool, appends: seq<Append>)
    requires forall a :: a in appends ==> a.cut <= |a.record| && a.step < 3
    ensures Lines(content) <= Lines(Run(content, valid, appends))
    decreases |appends|
  {
    if appends != [] {
      var a := appends[0];
      CrashKeepsLines(content, valid, a.record, a.cut, a.step);
      RunKeepsLines(AppendTrace(content, valid, a.record, a.cut)[a.step], valid, appends[1..]);
    }
  }

  /** These lines are in the file, one behind the other. */
  predicate LinesAt(content: seq<byte>, p: nat, lines: seq<seq<byte>>) {
    p + |lines| <= |Lines(content)| && Lines(content)[p..p + |lines|] == lines
  }

  /** Over any run, a record whose append was not cut short is in the file, whatever crashed after it. */
  lemma {:induction false} RunHasRecord(content: seq<byte>, valid: seq<byte> -> bool, appends: seq<Append>, i: nat) returns (p: nat)
    requires forall a :: a in appends ==> a.cut <= |a.record| && a.step < 3
    requires i < |appends| && appends[i].step == 2
    ensures LinesAt(Run(content, valid, appends), p, Lines(appends[i].record))
    decreases |appends|
  {
    var a := appends[0];
    var next := AppendTrace(content, valid, a.record, a.cut)[a.step];
    if i == 0 {
      AppendedLines(content, valid, a.record);
      RunKeepsLines(next, valid, appends[1..]);
      var front, lines := Lines(content) + Completed(content, valid), Lines(a.record);
      assert Lines(next) == front + lines;
      p := |front|;
      assert Lines(Run(content, valid, appends))[|front|..|front| + |lines|] == (front + lines)[|front|..] == lines;
    } else {
      assert appends[1..][i - 1] == appends[i];
      p := RunHasRecord(next, valid, appends[1..], i - 1);
    }
  }

  /** A record torn by a crash is gone or whole after the next append: its fragment becomes a line
      only if it is a JSON value by itself. */
  lemma TornRecordHeals(content: seq<byte>, valid: seq<byte> -> bool, record: seq<byte>, cut: nat, next: seq<byte>)
    requires Tail(content) == [] && cut < |record| && NEWLINE !in record[..|record| - 1]
    ensures var torn := content + record[..cut];
            Lines(Repaired(torn, valid) + next) ==
            Lines(content) + (if cut > 0 && valid(record[..cut]) then [record[..cut] + [NEWLINE]] else []) + Lines(next)
  {
    var torn := content + record[..cut];
    assert record[..cut] == record[..|record| - 1][..cut];
    assert torn[|content|..] == record[..cut];
    if content != [] { assert TailStart(content) == |content|; }
    TailStartUnique(torn, |content|);
    assert torn[..|content|] == content;
    LinesOfContent(torn);
    AppendedLines(torn, valid, next);
  }

  // ---------- The program ----------

  datatype AppendError = InvalidInput

  /** `rposition` of a newline. */
  method LastNewline(chunk: seq<byte>) returns (r: Option<nat>)
    ensures r.None? <==> NEWLINE !in chunk
    ensures r.Some? ==> r.value < |chunk| && chunk[r.value] == NEWLINE && NEWLINE !in chunk[r.value + 1..]
  {
    var i := |chunk|;
    while i > 0
      invariant 0 <= i <= |chunk| && NEWLINE !in chunk[i..]
    {
      i := i - 1;
      if chunk[i] == NEWLINE {
        return Some(i);
      }
      assert chunk[i..] == [chunk[i]] + chunk[i + 1..];
    }
    assert chunk[0..] == chunk;
    return None;
  }

  class File {
    var content: seq<byte>
    /** The states a crash during the last append could have left. */
    ghost var history: seq<seq<byte>>

    /** The backward scan, one chunk at a time. */
    method FindTail() returns (start: nat)
      ensures start == TailStart(content)
    {
      start := |content|;
      while start > 0
        invariant start <= |content|
        invariant NEWLINE !in content[start..]
      {
        var chunkStart := if start > CHUNK then start - CHUNK else 0;
        var index := LastNewline(content[chunkStart..start]);
        assert content[chunkStart..] == content[chunkStart..start] + content[start..];
        if index.Some? {
          start := chunkStart + index.value + 1;
          assert content[start..] == content[chunkStart..][index.value + 1..];
          break;
        }
        start := chunkStart;
      }
      TailStartUnique(content, start);
    }

    method AppendJsonl(record: seq<byte>, valid: seq<byte> -> bool, cut: nat) returns (r: Result<(), AppendError>)
      requires cut <= |record|
      modifies this
      ensures r.Err? <==> record == [] || record[|record| - 1] != NEWLINE
      ensures r.Err? ==> content == old(content) && history == old(history)
      ensures r.Ok? ==>
        && content == Repaired(old(content), valid) + record
        && history == old(history) + AppendTrace(old(content), valid, record, cut)
        && Tail(content) == []
    {
      if record == [] || record[|record| - 1] != NEWLINE {
        return Err(InvalidInput);
      }
      ghost var before := content;
      if content != [] && content[|content| - 1] != NEWLINE {
        var start := FindTail();
        if valid(content[start..]) {
          content := content + [NEWLINE];
        } else {
          content := content[..start];
        }
      }
      ghost var repaired := content;
      content := content + record;
      history := history + [repaired, repaired + record[..cut], content];
      TailStartUnique(content, |content|);
      return Ok(());
    }
  }
}
