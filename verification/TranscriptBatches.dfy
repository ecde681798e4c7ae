/** The transcript batcher of `krabb-runtime/src/ipc.rs`: bounded pieces that lose nothing. */
module TranscriptBatches {
  import opened Messages
  import opened Sequences
  import opened Text

  const COMPACT_BATCH_BYTES := 48 * 1024

  function RoleName(role: Role): string {
    match role
    case System => "System"
    case User => "User"
    case Assistant => "Assistant"
    case Tool => "Tool"
  }

  function Join(parts: seq<string>): string {
    if parts == [] then "" else if |parts| == 1 then parts[0] else parts[0] + "\n" + Join(parts[1..])
  }

  /** Joining puts a line feed between the parts and nothing else. */
  lemma {:induction false} JoinMeaning(a: seq<string>, b: seq<string>)
    ensures a != [] && b != [] ==> Join(a + b) == Join(a) + "\n" + Join(b)
    ensures |a| == 1 ==> Join(a) == a[0]
    ensures a == [] ==> Join(a) == ""
  {
    if |a| == 1 && b != [] {
      assert (a + b)[1..] == b;
    } else if |a| > 1 && b != [] {
      assert (a + b)[1..] == a[1..] + b;
      JoinMeaning(a[1..], b);
    }
  }

  function Line(message: Message): (line: string)
    ensures line != ""
  {
    RoleName(message.role) + ": " + Join(message.parts) + "\n"
  }

  /** A line tells the role of its message and what it says. */
  lemma LineTells(a: Message, b: Message)
    requires Line(a) == Line(b)
    ensures a.role == b.role && Join(a.parts) == Join(b.parts)
  {
    assert Line(a)[0] == RoleName(a.role)[0] && Line(b)[0] == RoleName(b.role)[0];
    assert a.role == b.role;
    var head := |RoleName(a.role)| + 2;
    assert Line(a)[head..|Line(a)| - 1] == Join(a.parts);
    assert Line(b)[head..|Line(b)| - 1] == Join(b.parts);
  }

  function AllLines(messages: seq<Message>): (lines: seq<string>)
    ensures |lines| == |messages| && forall i :: 0 <= i < |lines| ==> lines[i] == Line(messages[i])
  {
    seq(|messages|, i requires 0 <= i < |messages| => Line(messages[i]))
  }

  // ---------- Where pieces lie in the text ----------

  /** The offset at which piece `i` starts. */
  ghost function Start(pieces: seq<string>, i: nat): nat
    requires i <= |pieces|
  {
    |Concat(pieces[..i])|
  }

  lemma StartStep(pieces: seq<string>, i: nat)
    requires i < |pieces|
    ensures Start(pieces, i + 1) == Start(pieces, i) + |pieces[i]|
  {
    assert pieces[..i + 1] == pieces[..i] + [pieces[i]];
    ConcatSnoc(pieces[..i], pieces[i]);
  }

  /** Pieces that agree up to `i` start at the same offsets up to `i`. */
  lemma StartAgrees(a: seq<string>, b: seq<string>, i: nat)
    requires i <= |a| && i <= |b| && a[..i] == b[..i]
    ensures Start(a, i) == Start(b, i)
  {}

  /** Line `k` lies inside piece `j`. */
  ghost predicate Inside(pieces: seq<string>, j: nat, lines: seq<string>, k: nat) {
    && j < |pieces| && k < |lines|
    && Start(pieces, j) <= Start(lines, k)
    && Start(lines, k + 1) <= Start(pieces, j + 1)
  }

  ghost predicate Unsplit(pieces: seq<string>, lines: seq<string>, k: nat) {
    exists j: nat :: Inside(pieces, j, lines, k)
  }

  /** Every one of the first `count` lines that fits the bound is whole. */
  ghost predicate FittingLinesUnsplit(pieces: seq<string>, lines: seq<string>, count: nat)
    requires count <= |lines|
  {
    forall k :: 0 <= k < count && Bytes(lines[k]) <= COMPACT_BATCH_BYTES ==> Unsplit(pieces, lines, k)
  }

  /** `later` keeps every piece of `pieces`, the last one perhaps longer. */
  ghost predicate Extends(later: seq<string>, pieces: seq<string>) {
    && pieces != [] && |pieces| <= |later|
    && pieces[..|pieces| - 1] == later[..|pieces| - 1]
    && pieces[|pieces| - 1] <= later[|pieces| - 1]
  }

  lemma ExtendingKeepsLines(pieces: seq<string>, later: seq<string>, lines: seq<string>, count: nat)
    requires count <= |lines| && Extends(later, pieces) && FittingLinesUnsplit(pieces, lines, count)
    ensures FittingLinesUnsplit(later, lines, count)
  {
    forall k | 0 <= k < count && Bytes(lines[k]) <= COMPACT_BATCH_BYTES ensures Unsplit(later, lines, k) {
      var j: nat :| Inside(pieces, j, lines, k);
      assert pieces[..j] == pieces[..|pieces| - 1][..j] && later[..j] == later[..|pieces| - 1][..j];
      StartAgrees(pieces, later, j);
      StartStep(pieces, j);
      StartStep(later, j);
      if j < |pieces| - 1 { assert pieces[j] == pieces[..|pieces| - 1][j] == later[..|pieces| - 1][j] == later[j]; }
      assert Inside(later, j, lines, k);
    }
  }

  /** A line appended to the last piece is inside it. */
  lemma LastLineInside(done: seq<string>, last: string, lines: seq<string>, k: nat)
    requires k < |lines| && Concat(done) + last == Concat(lines[..k])
    ensures Unsplit(done + [last + lines[k]], lines, k)
  {
    var pieces := done + [last + lines[k]];
    assert pieces[..|done|] == done;
    StartStep(pieces, |done|);
    StartStep(lines, k);
    assert Inside(pieces, |done|, lines, k);
  }

  // ---------- The batcher ----------

  ghost predicate Bounded(pieces: seq<string>) {
    forall p :: p in pieces ==> p != "" && Bytes(p) <= COMPACT_BATCH_BYTES
  }

  /** Cuts an oversized line into pieces of whole characters. */
  method SplitLine(line: string) returns (pieces: seq<string>)
    requires line != ""
    ensures Concat(pieces) == line && Bounded(pieces) && pieces != []
  {
    pieces := [];
    var part := "";
    for i := 0 to |line|
      invariant Concat(pieces) + part == line[..i]
      invariant Bounded(pieces) && Bytes(part) <= COMPACT_BATCH_BYTES
      invariant i > 0 ==> part != ""
    {
      var character := line[i];
      assert line[..i + 1] == line[..i] + [character];
      if Bytes(part) + Utf8Length(character) > COMPACT_BATCH_BYTES {
        ConcatSnoc(pieces, part);
        pieces := pieces + [part];
        part := "";
      }
      BytesJoin(part, [character]);
      BytesOfCharacter(character);
      part := part + [character];
    }
    ConcatSnoc(pieces, part);
    assert line[..|line|] == line;
    if part != "" {
      pieces := pieces + [part];
    }
  }

  /** What has become of the first `count` lines: text kept, bounds kept, fitting lines whole. */
  ghost predicate Progress(batches: seq<string>, batch: string, lines: seq<string>, count: nat) {
    && count <= |lines|
    && Concat(batches) + batch == Concat(lines[..count])
    && Bounded(batches) && Bytes(batch) <= COMPACT_BATCH_BYTES
    && FittingLinesUnsplit(batches + [batch], lines, count)
  }

  lemma LinesText(lines: seq<string>, i: nat)
    requires i < |lines|
    ensures Concat(lines[..i + 1]) == Concat(lines[..i]) + lines[i]
  {
    assert lines[..i + 1] == lines[..i] + [lines[i]];
    ConcatSnoc(lines[..i], lines[i]);
  }

  lemma FlushStep(batches: seq<string>, batch: string, lines: seq<string>, i: nat)
    requires Progress(batches, batch, lines, i) && batch != ""
    ensures Progress(batches + [batch], "", lines, i)
  {
    ConcatSnoc(batches, batch);
    assert Concat(batches) + batch + "" == Concat(batches) + batch;
    var before, after := batches + [batch], batches + [batch] + [""];
    assert after[..|batches|] == batches == before[..|batches|];
    ExtendingKeepsLines(before, after, lines, i);
  }

  lemma OversizedStep(batches: seq<string>, pieces: seq<string>, lines: seq<string>, i: nat)
    requires i < |lines| && Progress(batches, "", lines, i) && Bytes(lines[i]) > COMPACT_BATCH_BYTES
    requires Concat(pieces) == lines[i] && Bounded(pieces)
    ensures Progress(batches + pieces, "", lines, i + 1)
  {
    var before, after := batches + [""], batches + pieces + [""];
    ConcatJoin(batches, pieces);
    LinesText(lines, i);
    assert after[..|batches|] == batches == before[..|batches|];
    assert before[|batches|] <= after[|batches|];
    ExtendingKeepsLines(before, after, lines, i);
  }

  lemma FittingStep(batches: seq<string>, batch: string, lines: seq<string>, i: nat)
    requires i < |lines| && Progress(batches, batch, lines, i)
    requires Bytes(batch) + Bytes(lines[i]) <= COMPACT_BATCH_BYTES
    ensures Progress(batches, batch + lines[i], lines, i + 1)
  {
    LinesText(lines, i);
    BytesJoin(batch, lines[i]);
    assert Concat(batches) + (batch + lines[i]) == Concat(batches) + batch + lines[i];
    FittingLines(batches, batch, lines, i);
  }

  lemma FittingLines(batches: seq<string>, batch: string, lines: seq<string>, i: nat)
    requires i < |lines| && FittingLinesUnsplit(batches + [batch], lines, i)
    requires Concat(batches) + batch == Concat(lines[..i])
    ensures FittingLinesUnsplit(batches + [batch + lines[i]], lines, i + 1)
  {
    var before, after := batches + [batch], batches + [batch + lines[i]];
    LastLineInside(batches, batch, lines, i);
    assert after[..|batches|] == batches == before[..|batches|];
    assert before[|batches|] == batch <= after[|batches|];
    ExtendingKeepsLines(before, after, lines, i);
  }

  method Batches(messages: seq<Message>) returns (batches: seq<string>)
    ensures Concat(batches) == Concat(AllLines(messages))
    ensures Bounded(batches)
    ensures FittingLinesUnsplit(batches, AllLines(messages), |messages|)
  {
    ghost var lines := AllLines(messages);
    batches := [];
    var batch := "";
    assert lines[..0] == [];
    for i := 0 to |messages|
      invariant Progress(batches, batch, lines, i)
    {
      var line := Line(messages[i]);
      if Bytes(line) > COMPACT_BATCH_BYTES {
        if batch != "" {
          FlushStep(batches, batch, lines, i);
          batches := batches + [batch];
          batch := "";
        }
        var pieces := SplitLine(line);
        OversizedStep(batches, pieces, lines, i);
        batches := batches + pieces;
        continue;
      }
      if batch != "" && Bytes(batch) + Bytes(line) > COMPACT_BATCH_BYTES {
        FlushStep(batches, batch, lines, i);
        batches := batches + [batch];
        batch := "";
      }
      assert batch == "" ==> Bytes(batch) == 0;
      FittingStep(batches, batch, lines, i);
      batch := batch + line;
    }
    assert lines[..|messages|] == lines;
    if batch != "" {
      FlushStep(batches, batch, lines, |messages|);
      batches := batches + [batch];
    }
    assert Concat(batches) + "" == Concat(batches);
    DropEmptyLast(batches, lines);
  }

  /** No line lies inside an empty piece, because no line is empty. */
  lemma DropEmptyLast(pieces: seq<string>, lines: seq<string>)
    requires forall k :: 0 <= k < |lines| ==> lines[k] != ""
    requires FittingLinesUnsplit(pieces + [""], lines, |lines|)
    ensures FittingLinesUnsplit(pieces, lines, |lines|)
  {
    forall k | 0 <= k < |lines| && Bytes(lines[k]) <= COMPACT_BATCH_BYTES ensures Unsplit(pieces, lines, k) {
      var all := pieces + [""];
      var j: nat :| Inside(all, j, lines, k);
      StartStep(all, j);
      StartStep(lines, k);
      assert j < |pieces|;
      assert all[..j] == pieces[..j] && all[..j + 1] == pieces[..j + 1];
      assert Inside(pieces, j, lines, k);
    }
  }
}
