/** The journaled `save` and `recover` of `krabb-libs/file` as a crash protocol: every
    primitive file operation leaves a state a crash can expose. */
module JournaledSave {
  import opened Wrappers

  type Content = seq<bv8>

  datatype Phase = Prepared | BackedUp | Installed

  /** A journal file: a transaction in some phase, or bytes that do not parse. */
  datatype Journal = Torn | Entry(phase: Phase)

  /** The saved path and the three files one save names after its nonce. */
  datatype Files = Files(
    path: Option<Content>,
    temporary: Option<Content>,
    backup: Option<Content>,
    journal: Option<Journal>)

  predicate Unused(f: Files) {
    f.temporary.None? && f.backup.None? && f.journal.None?
  }

  // ---------- What a save does ----------

  /** The states a save passes through. Writing the new content may be caught after `cut` bytes,
      every journal write may be caught after truncation, and removing the backup may fail unnoticed. */
  function SaveTrace(f: Files, content: Content, cut: nat, keepBackup: bool): (trace: seq<Files>)
    requires cut <= |content|
    ensures |trace| == if f.path.Some? then 13 else 10
  {
    var prepared := f.(temporary := Some(content), journal := Some(Entry(Prepared)));
    PrepareTrace(f, content, cut)
    + (if f.path.Some? then BackupTrace(prepared) else [])
    + InstallTrace(if f.path.Some? then BackupTrace(prepared)[2] else prepared, keepBackup)
  }

  function PrepareTrace(f: Files, content: Content, cut: nat): (trace: seq<Files>)
    requires cut <= |content|
    ensures |trace| == 5
  {
    [ f.(temporary := Some([])),
      f.(temporary := Some(content[..cut])),
      f.(temporary := Some(content)),
      f.(temporary := Some(content), journal := Some(Torn)),
      f.(temporary := Some(content), journal := Some(Entry(Prepared))) ]
  }

  function BackupTrace(f: Files): (trace: seq<Files>)
    ensures |trace| == 3
  {
    var moved := f.(path := None, backup := f.path);
    [moved, moved.(journal := Some(Torn)), moved.(journal := Some(Entry(BackedUp)))]
  }

  function InstallTrace(f: Files, keepBackup: bool): (trace: seq<Files>)
    ensures |trace| == 5
  {
    var renamed := f.(path := f.temporary, temporary := None);
    var installed := renamed.(journal := Some(Entry(Installed)));
    var cleaned := if keepBackup then installed else installed.(backup := None);
    [renamed, renamed.(journal := Some(Torn)), installed, cleaned, cleaned.(journal := None)]
  }

  /** The state after `steps` primitives of a save. */
  function SaveState(f: Files, content: Content, cut: nat, keepBackup: bool, steps: nat): Files
    requires cut <= |content| && steps <= |SaveTrace(f, content, cut, keepBackup)|
  {
    if steps == 0 then f else SaveTrace(f, content, cut, keepBackup)[steps - 1]
  }

  /** The number of primitives after which the new content is what survives: the `backed_up`
      journal write if there was a file to replace, otherwise the final rename. */
  function CommitStep(previous: Option<Content>): nat {
    if previous.Some? then 8 else 6
  }

  /** The number of primitives after which the new content is in place. */
  function InstallStep(previous: Option<Content>): nat {
    if previous.Some? then 9 else 6
  }

  /** One atomic file operation: a file is created or grows, the journal is truncated or written, a file is
      moved over another or removed, or nothing happens. */
  predicate Primitive(a: Files, b: Files) {
    || b == a
    || (a.temporary.None? && b == a.(temporary := Some([])))
    || (a.temporary.Some? && b.temporary.Some? && a.temporary.value <= b.temporary.value && b == a.(temporary := b.temporary))
    || b == a.(journal := Some(Torn))
    || (a.journal == Some(Torn) && b.journal.Some? && b == a.(journal := b.journal))
    || (a.path.Some? && b == a.(path := None, backup := a.path))
    || (a.temporary.Some? && b == a.(path := a.temporary, temporary := None))
    || (a.backup.Some? && b == a.(path := a.backup, backup := None))
    || b == a.(temporary := None) || b == a.(backup := None) || b == a.(journal := None)
  }

  function Before(f: Files, trace: seq<Files>, i: nat): Files
    requires i < |trace|
  {
    if i == 0 then f else trace[i - 1]
  }

  ghost predicate Primitives(f: Files, trace: seq<Files>) {
    forall i :: 0 <= i < |trace| ==> Primitive(Before(f, trace, i), trace[i])
  }

  /** Between two states of a save lies a single atomic operation, so no crash falls in between. */
  lemma SavePrimitives(f: Files, content: Content, cut: nat, keepBackup: bool)
    requires cut <= |content| && Unused(f)
    ensures Primitives(f, SaveTrace(f, content, cut, keepBackup))
  {
    var first := PrepareTrace(f, content, cut);
    PreparePrimitives(f, content, cut);
    if f.path.Some? {
      var second := BackupTrace(first[4]);
      BackupPrimitives(first[4]);
      PrimitivesJoin(f, first, second);
      InstallPrimitives(second[2], keepBackup);
      PrimitivesJoin(f, first + second, InstallTrace(second[2], keepBackup));
    } else {
      InstallPrimitives(first[4], keepBackup);
      PrimitivesJoin(f, first, InstallTrace(first[4], keepBackup));
      assert first + [] == first;
    }
  }

  lemma PreparePrimitives(f: Files, content: Content, cut: nat)
    requires cut <= |content| && Unused(f)
    ensures Primitives(f, PrepareTrace(f, content, cut))
  {
    var trace := PrepareTrace(f, content, cut);
    assert content[..cut] <= content;
    forall i | 0 <= i < 5 ensures Primitive(Before(f, trace, i), trace[i]) {}
  }

  lemma BackupPrimitives(f: Files)
    requires f.path.Some?
    ensures Primitives(f, BackupTrace(f))
  {
    var trace := BackupTrace(f);
    forall i | 0 <= i < 3 ensures Primitive(Before(f, trace, i), trace[i]) {}
  }

  lemma InstallPrimitives(f: Files, keepBackup: bool)
    requires f.temporary.Some?
    ensures Primitives(f, InstallTrace(f, keepBackup))
  {
    var trace := InstallTrace(f, keepBackup);
    forall i | 0 <= i < 5 ensures Primitive(Before(f, trace, i), trace[i]) {}
  }

  lemma PrimitivesJoin(f: Files, a: seq<Files>, b: seq<Files>)
    requires a != [] && Primitives(f, a) && Primitives(a[|a| - 1], b)
    ensures Primitives(f, a + b)
  {
    forall i | 0 <= i < |a + b| ensures Primitive(Before(f, a + b, i), (a + b)[i]) {
      if i < |a| {
        BeforeJoin(f, a, b, i);
        assert Primitive(Before(f, a, i), a[i]);
      } else {
        BeforeJoin(f, a, b, i);
        assert Primitive(Before(a[|a| - 1], b, i - |a|), b[i - |a|]);
      }
    }
  }

  lemma BeforeJoin(f: Files, a: seq<Files>, b: seq<Files>, i: nat)
    requires a != [] && i < |a + b|
    ensures if i < |a| then (a + b)[i] == a[i] && Before(f, a + b, i) == Before(f, a, i)
            else (a + b)[i] == b[i - |a|] && Before(f, a + b, i) == Before(a[|a| - 1], b, i - |a|)
  {}

  // ---------- What recovery does ----------

  /** The removals, among those whose failure recovery ignores, that did fail. */
  datatype Kept = Kept(temporary: bool, backup: bool, journal: bool)

  const NothingKept := Kept(false, false, false)

  function Restore(f: Files, phase: Phase, kept: Kept): Files {
    if phase == BackedUp && f.path.None? then
      if f.temporary.Some? then f.(path := f.temporary, temporary := None)
      else if f.backup.Some? then f.(path := f.backup, backup := None)
      else f
    else if phase == Prepared && f.path.Some? then
      if kept.temporary then f else f.(temporary := None)
    else if phase == Prepared && f.path.None? && f.backup.Some? then f.(path := f.backup, backup := None)
    else if phase == Installed && f.path.None? && f.backup.Some? then f.(path := f.backup, backup := None)
    else f
  }

  /** The states the recovery of one journal passes through. */
  function RecoverTrace(f: Files, kept: Kept): (trace: seq<Files>)
    ensures |trace| <= 4
  {
    match f.journal
    case None => []
    case Some(Torn) => [if kept.journal then f else f.(journal := None)]
    case Some(Entry(phase)) =>
      var restored := Restore(f, phase, kept);
      var second := if kept.temporary then restored else restored.(temporary := None);
      var third := if kept.backup then second else second.(backup := None);
      [restored, second, third, if kept.journal then third else third.(journal := None)]
  }

  lemma RecoverPrimitives(f: Files, kept: Kept)
    ensures Primitives(f, RecoverTrace(f, kept))
  {
    var trace := RecoverTrace(f, kept);
    forall i | 0 <= i < |trace| ensures Primitive(Before(f, trace, i), trace[i]) {}
  }

  function RecoverState(f: Files, kept: Kept, steps: nat): Files
    requires steps <= |RecoverTrace(f, kept)|
  {
    if steps == 0 then f else RecoverTrace(f, kept)[steps - 1]
  }

  function Recovered(f: Files): Files {
    RecoverState(f, NothingKept, |RecoverTrace(f, NothingKept)|)
  }

  /** The content a complete recovery leaves at the path. */
  function Lands(f: Files): Option<Content> {
    Recovered(f).path
  }

  /** The one family of states that recovers to neither content: the journal rewrite was torn
      after the old file had been moved away. */
  predicate Lost(f: Files, previous: Option<Content>) {
    previous.Some? && f.path.None? && f.journal == Some(Torn)
  }

  // ---------- One save and its recoveries ----------

  /** What each crash point of a save recovers to, and where the commit point lies. */
  lemma SaveCrash(f: Files, content: Content, cut: nat, keepBackup: bool, steps: nat)
    requires cut <= |content| && Unused(f)
    requires steps <= |SaveTrace(f, content, cut, keepBackup)|
    ensures var s := SaveState(f, content, cut, keepBackup, steps);
            && (Lost(s, f.path) <==> f.path.Some? && steps == 7)
            && Lands(s) == if Lost(s, f.path) then None
                           else if steps >= CommitStep(f.path) then Some(content)
                           else f.path
  {}

  /** The error path: the step after `steps` fails, and the temporary file is removed. */
  lemma SaveFailure(f: Files, content: Content, cut: nat, keepBackup: bool, steps: nat)
    requires cut <= |content| && Unused(f)
    requires steps <= |SaveTrace(f, content, cut, keepBackup)|
    ensures var s := SaveState(f, content, cut, keepBackup, steps).(temporary := None);
            && (Lost(s, f.path) <==> f.path.Some? && steps == 7)
            && Lands(s) == if Lost(s, f.path) then None
                           else if steps >= InstallStep(f.path) then Some(content)
                           else f.path
  {}

  /** A crash inside recovery does not change what recovery leads to, whatever the state and
      whichever ignored removals failed. */
  lemma RecoverCrash(f: Files, kept: Kept, steps: nat)
    requires steps <= |RecoverTrace(f, kept)|
    ensures Lands(RecoverState(f, kept, steps)) == Lands(f)
    ensures steps == |RecoverTrace(f, kept)| ==> RecoverState(f, kept, steps).path == Lands(f)
  {}

  lemma RecoverIdempotent(f: Files)
    ensures Recovered(f).journal == None && Recovered(Recovered(f)) == Recovered(f)
  {}

  /** A complete recovery leaves of a transaction nothing but the path, and of a torn journal everything else. */
  lemma RecoveredLeaves(f: Files)
    ensures Recovered(f) == match f.journal
                            case None => f
                            case Some(Torn) => f.(journal := None)
                            case Some(Entry(_)) => Files(Lands(f), None, None, None)
    ensures f.path.Some? ==> Lands(f) == f.path
  {}

  /** Where something is at the path, a recovery leaves exactly the files that it failed to remove. */
  lemma FailedRemovals(f: Files, kept: Kept)
    requires f.path.Some? && f.journal.Some?
    ensures RecoverState(f, kept, |RecoverTrace(f, kept)|) ==
      if f.journal == Some(Torn) then (if kept.journal then f else f.(journal := None))
      else Files(f.path, if kept.temporary then f.temporary else None, if kept.backup then f.backup else None,
                 if kept.journal then f.journal else None)
  {}

  /** One interrupted recovery: how far it came and which removals failed. */
  datatype Attempt = Attempt(kept: Kept, steps: nat)

  function RunAttempt(f: Files, attempt: Attempt): Files {
    var length := |RecoverTrace(f, attempt.kept)|;
    RecoverState(f, attempt.kept, if attempt.steps <= length then attempt.steps else length)
  }

  function RunAttempts(f: Files, attempts: seq<Attempt>): Files
    decreases |attempts|
  {
    if attempts == [] then f else RunAttempts(RunAttempt(f, attempts[0]), attempts[1..])
  }

  /** Any number of interrupted recoveries leaves the outcome as it was. */
  lemma {:induction false} RecoveriesAgree(f: Files, attempts: seq<Attempt>)
    ensures Lands(RunAttempts(f, attempts)) == Lands(f)
    decreases |attempts|
  {
    if attempts != [] {
      var length := |RecoverTrace(f, attempts[0].kept)|;
      RecoverCrash(f, attempts[0].kept, if attempts[0].steps <= length then attempts[0].steps else length);
      RecoveriesAgree(RunAttempt(f, attempts[0]), attempts[1..]);
    }
  }

  /** The old-or-new theorem. A crash after any step of a save, or a failure there, then any number
      of interrupted recoveries, then a complete one leaves exactly the old or exactly the new
      content. It holds of a crash state if and only if its journal was not torn while the file
      was away. */
  lemma OldOrNew(f: Files, content: Content, cut: nat, keepBackup: bool, steps: nat, failed: bool, attempts: seq<Attempt>)
    requires cut <= |content| && Unused(f)
    requires steps <= |SaveTrace(f, content, cut, keepBackup)|
    ensures var state := SaveState(f, content, cut, keepBackup, steps);
            var crash := if failed then state.(temporary := None) else state;
            var result := Recovered(RunAttempts(crash, attempts));
            && (result.path in {f.path, Some(content)} <==> !Lost(crash, f.path))
            && (!Lost(crash, f.path) ==>
                  var commit := if failed then InstallStep(f.path) else CommitStep(f.path);
                  result.path == if steps >= commit then Some(content) else f.path)
  {
    var state := SaveState(f, content, cut, keepBackup, steps);
    SaveCrash(f, content, cut, keepBackup, steps);
    SaveFailure(f, content, cut, keepBackup, steps);
    RecoveriesAgree(if failed then state.(temporary := None) else state, attempts);
  }

  // ---------- A directory with the files of many saves ----------

  datatype Slot = Slot(temporary: Option<Content>, backup: Option<Content>, journal: Option<Journal>)

  datatype Disk = Disk(path: Option<Content>, slots: map<nat, Slot>) {
    function View(n: nat): Files {
      if n in slots then Files(path, slots[n].temporary, slots[n].backup, slots[n].journal)
      else Files(path, None, None, None)
    }

    function Put(n: nat, f: Files): Disk {
      Disk(f.path, slots[n := Slot(f.temporary, f.backup, f.journal)])
    }
  }

  lemma PutView(d: Disk, n: nat, f: Files, m: nat)
    ensures d.Put(n, f).View(n) == f
    ensures m != n ==> d.Put(n, f).View(m) == d.View(m).(path := f.path)
  {}

  function RecoverAll(d: Disk, listing: seq<nat>): Disk
    decreases |listing|
  {
    if listing == [] then d
    else RecoverAll(d.Put(listing[0], Recovered(d.View(listing[0]))), listing[1..])
  }

  /** No journal in the directory other than `n`'s. */
  ghost predicate OnlyJournal(d: Disk, n: nat) {
    forall m: nat :: m != n ==> d.View(m).journal == None
  }

  /** With one journal in the directory, recovering the whole listing is recovering that journal. */
  lemma {:induction false} RecoverListing(d: Disk, n: nat, listing: seq<nat>)
    requires OnlyJournal(d, n)
    ensures RecoverAll(d, listing).path == if n in listing then Lands(d.View(n)) else d.path
    ensures RecoverAll(d, listing).View(n) == if n in listing then Recovered(d.View(n)) else d.View(n)
    ensures OnlyJournal(RecoverAll(d, listing), n)
    decreases |listing|
  {
    if listing != [] {
      var head := listing[0];
      assert listing == [head] + listing[1..];
      var next := d.Put(head, Recovered(d.View(head)));
      if head != n { assert Recovered(d.View(head)) == d.View(head); }
      forall m: nat | m != n ensures next.View(m).journal == None {
        PutView(d, head, Recovered(d.View(head)), m);
      }
      PutView(d, head, Recovered(d.View(head)), n);
      RecoverIdempotent(d.View(n));
      RecoverListing(next, n, listing[1..]);
    }
  }

  // ---------- Leftover journals ----------

  /** What a leftover journal puts back while nothing is at the path. */
  function Back(d: Disk, m: nat): Option<Content> {
    Lands(d.View(m).(path := None))
  }

  /** A `backed_up` journal installs its new file, or else its backup; a `prepared` or `installed` one
      its backup; a torn one nothing. */
  lemma BackMeaning(d: Disk, m: nat)
    ensures var f := d.View(m);
            Back(d, m) == match f.journal
                          case Some(Entry(BackedUp)) => if f.temporary.Some? then f.temporary else f.backup
                          case Some(Entry(_)) => f.backup
                          case _ => None
  {}

  /** The first content that a listing puts back, where the journal of `n` puts back `own`. */
  function FirstBack(d: Disk, n: nat, own: Option<Content>, listing: seq<nat>): Option<Content>
    decreases |listing|
  {
    if listing == [] then None
    else
      var back := if listing[0] == n then own else Back(d, listing[0]);
      if back.Some? then back else FirstBack(d, n, own, listing[1..])
  }

  /** A recovery never replaces what is at the path. */
  lemma PathStays(f: Files)
    ensures f.path.Some? ==> Recovered(f).path == f.path
    ensures f.path.None? && Recovered(f).path.None? ==> Lands(Recovered(f)).None?
  {}

  lemma {:induction false} FirstBackStays(d: Disk, next: Disk, n: nat, own: Option<Content>, after: Option<Content>, listing: seq<nat>)
    requires forall m :: m in listing ==> if m == n then after == own else Back(next, m) == Back(d, m)
    ensures FirstBack(next, n, after, listing) == FirstBack(d, n, own, listing)
    decreases |listing|
  {
    if listing != [] {
      assert listing[0] in listing && forall m :: m in listing[1..] ==> m in listing;
      FirstBackStays(d, next, n, own, after, listing[1..]);
    }
  }

  /** Whatever the journals, a recovery of the listing leaves what is at the path, or else the first
      content that a journal puts back. */
  lemma {:induction false} RecoverAnyListing(d: Disk, n: nat, listing: seq<nat>)
    ensures RecoverAll(d, listing).path == if d.path.Some? then d.path else FirstBack(d, n, Back(d, n), listing)
    decreases |listing|
  {
    if listing != [] {
      var head := listing[0];
      var f := d.View(head);
      var next := d.Put(head, Recovered(f));
      PathStays(f);
      PutView(d, head, Recovered(f), head);
      RecoverAnyListing(next, n, listing[1..]);
      if d.path.None? {
        assert f.(path := None) == f;
        if next.path.None? {
          forall m | m in listing[1..] ensures Back(next, m) == Back(d, m) {
            PutView(d, head, Recovered(f), m);
          }
          PutView(d, head, Recovered(f), n);
          FirstBackStays(d, next, n, Back(d, n), Back(next, n), listing[1..]);
        }
      }
    }
  }

  /** Old or new in a directory with leftover journals. A crash or failure of a save, then the recovery of
      any listing, leaves the old or the new content if and only if something is at the path, or the
      first content put back is one of the two: by the save's own journal, or by one left over from
      before. */
  lemma OldOrNewAmongLeftovers(d: Disk, n: nat, content: Content, cut: nat, keepBackup: bool, steps: nat, failed: bool, listing: seq<nat>)
    requires cut <= |content| && Unused(d.View(n))
    requires steps <= |SaveTrace(d.View(n), content, cut, keepBackup)|
    ensures var state := SaveState(d.View(n), content, cut, keepBackup, steps);
            var crash := if failed then state.(temporary := None) else state;
            RecoverAll(d.Put(n, crash), listing).path in {d.path, Some(content)} <==>
              crash.path.Some? || FirstBack(d, n, Lands(crash), listing) in {d.path, Some(content)}
  {
    var state := SaveState(d.View(n), content, cut, keepBackup, steps);
    var crash := if failed then state.(temporary := None) else state;
    var disk := d.Put(n, crash);
    PathDuringSave(d.View(n), content, cut, keepBackup, steps);
    PutView(d, n, crash, n);
    RecoverAnyListing(disk, n, listing);
    if crash.path.None? {
      assert crash.(path := None) == crash;
      forall m | m in listing ensures if m == n then Back(disk, n) == Lands(crash) else Back(disk, m) == Back(d, m) {
        PutView(d, n, crash, m);
      }
      FirstBackStays(d, disk, n, Lands(crash), Back(disk, n), listing);
    }
  }

  lemma PathDuringSave(f: Files, content: Content, cut: nat, keepBackup: bool, steps: nat)
    requires cut <= |content| && steps <= |SaveTrace(f, content, cut, keepBackup)|
    ensures SaveState(f, content, cut, keepBackup, steps).path in {f.path, None, Some(content)}
  {}

  /** A listing that fails: the journal of a save that crashed after its
      install, found again while a second save has the file moved away, restores the first save's
      backup, which is neither the second save's old nor its new content. */
  lemma LeftoverJournalLoses(oldest: Content, first: Content, second: Content)
    requires oldest != first && oldest != second
    ensures var start := Disk(Some(oldest), map[]);
            var leftover := start.Put(1, SaveState(start.View(1), first, 0, false, 11));
            var crash := leftover.Put(2, SaveState(leftover.View(2), second, 0, false, 8));
            && Lands(leftover.View(1)) == Some(first)
            && RecoverAll(crash, [1, 2]).path == Some(oldest)
  {
    var start := Disk(Some(oldest), map[]);
    var leftover := start.Put(1, SaveState(start.View(1), first, 0, false, 11));
    assert leftover.View(1) == Files(Some(first), None, Some(oldest), Some(Entry(Installed)));
    assert leftover.View(2) == Files(Some(first), None, None, None);
    var backedUp := SaveState(leftover.View(2), second, 0, false, 8);
    assert backedUp == Files(None, Some(second), Some(first), Some(Entry(BackedUp)));
    var crash := leftover.Put(2, backedUp);
    assert crash.View(1) == Files(None, None, Some(oldest), Some(Entry(Installed)));
    var restored := crash.Put(1, Recovered(crash.View(1)));
    assert restored.View(2) == Files(Some(oldest), Some(second), Some(first), Some(Entry(BackedUp)));
    var settled := restored.Put(2, Recovered(restored.View(2)));
    assert [1, 2][1..] == [2] && [2][1..] == [];
    assert RecoverAll(crash, [1, 2]) == RecoverAll(restored, [2]) == RecoverAll(settled, []);
  }

  // ---------- Many saves, one after the other ----------

  /** A completed save leaves the new content and, unless its removal failed, nothing else. */
  lemma SaveLeaves(f: Files, content: Content, cut: nat, keepBackup: bool)
    requires cut <= |content|
    ensures SaveState(f, content, cut, keepBackup, |SaveTrace(f, content, cut, keepBackup)|) ==
      Files(Some(content), None, if !keepBackup then None else if f.path.Some? then f.path else f.backup, None)
  {}

  /** A save under a nonce of its own: it completes, or it stops or fails after some of its steps and the
      directory is recovered before the next one. */
  datatype Round = Round(n: nat, content: Content, cut: nat, keepBackup: bool, steps: nat, failed: bool, listing: seq<nat>)

  ghost predicate Possible(d: Disk, r: Round) {
    && r.cut <= |r.content| && Unused(d.View(r.n)) && r.n in r.listing
    && r.steps <= |SaveTrace(d.View(r.n), r.content, r.cut, r.keepBackup)|
  }

  ghost predicate Completed(d: Disk, r: Round)
    requires Possible(d, r)
  {
    !r.failed && r.steps == |SaveTrace(d.View(r.n), r.content, r.cut, r.keepBackup)|
  }

  ghost function Left(d: Disk, r: Round): Files
    requires Possible(d, r)
  {
    var state := SaveState(d.View(r.n), r.content, r.cut, r.keepBackup, r.steps);
    if r.failed then state.(temporary := None) else state
  }

  ghost function AfterRound(d: Disk, r: Round): Disk
    requires Possible(d, r)
  {
    if Completed(d, r) then d.Put(r.n, Left(d, r)) else RecoverAll(d.Put(r.n, Left(d, r)), r.listing)
  }

  ghost predicate NoJournals(d: Disk) {
    forall m: nat :: d.View(m).journal.None?
  }

  /** A round that finds no journal leaves none, so the next one starts like the first. It leaves the old
      or the new content unless it stopped at the torn journal, and the new one when it completed. */
  lemma RoundOutcome(d: Disk, r: Round)
    requires NoJournals(d) && Possible(d, r)
    ensures NoJournals(AfterRound(d, r))
    ensures AfterRound(d, r).path in {d.path, Some(r.content)} <==> !Lost(Left(d, r), d.path)
    ensures Completed(d, r) ==> AfterRound(d, r).path == Some(r.content)
  {
    var f := d.View(r.n);
    var disk := d.Put(r.n, Left(d, r));
    OldOrNew(f, r.content, r.cut, r.keepBackup, r.steps, r.failed, []);
    forall m: nat ensures m != r.n ==> disk.View(m).journal.None? {
      PutView(d, r.n, Left(d, r), m);
    }
    RecoverListing(disk, r.n, r.listing);
    RecoverIdempotent(Left(d, r));
    if Completed(d, r) { SaveLeaves(f, r.content, r.cut, r.keepBackup); }
  }

  ghost predicate PossibleRun(d: Disk, rounds: seq<Round>)
    decreases |rounds|
  {
    rounds == [] || (Possible(d, rounds[0]) && !Lost(Left(d, rounds[0]), d.path) && PossibleRun(AfterRound(d, rounds[0]), rounds[1..]))
  }

  ghost function AfterRun(d: Disk, rounds: seq<Round>): Disk
    requires PossibleRun(d, rounds)
    decreases |rounds|
  {
    if rounds == [] then d else AfterRun(AfterRound(d, rounds[0]), rounds[1..])
  }

  /** The contents a run may end with, newest last: those saved since the last save that completed. */
  ghost function Survivors(d: Disk, rounds: seq<Round>, before: set<Option<Content>>): set<Option<Content>>
    requires PossibleRun(d, rounds)
    decreases |rounds|
  {
    if rounds == [] then before
    else
      var saved := {Some(rounds[0].content)};
      Survivors(AfterRound(d, rounds[0]), rounds[1..], if Completed(d, rounds[0]) then saved else before + saved)
  }

  /** Over any run of saves, each interrupted anywhere but at the torn journal and then recovered, no journal
      is left and the path holds what the last completed save wrote, or what a later one tried to write. */
  lemma {:induction false} RunOldOrNew(d: Disk, rounds: seq<Round>, before: set<Option<Content>>)
    requires NoJournals(d) && d.path in before && PossibleRun(d, rounds)
    ensures NoJournals(AfterRun(d, rounds)) && AfterRun(d, rounds).path in Survivors(d, rounds, before)
    decreases |rounds|
  {
    if rounds != [] {
      RoundOutcome(d, rounds[0]);
      var saved := {Some(rounds[0].content)};
      RunOldOrNew(AfterRound(d, rounds[0]), rounds[1..], if Completed(d, rounds[0]) then saved else before + saved);
    }
  }

  // ---------- The trace of a save, piece by piece ----------

  lemma TakeJoin<T>(a: seq<T>, b: seq<T>, count: nat)
    requires count <= |b|
    ensures (a + b)[..|a| + count] == a + b[..count]
  {}

  lemma TracePrefix(f: Files, content: Content, cut: nat, keepBackup: bool, steps: nat)
    requires cut <= |content| && steps < 5
    ensures var trace := PrepareTrace(f, content, cut);
            && SaveTrace(f, content, cut, keepBackup)[..steps] == trace[..steps]
            && SaveState(f, content, cut, keepBackup, steps) == if steps == 0 then f else trace[steps - 1]
  {}

  lemma TraceToBackup(f: Files, content: Content, cut: nat, keepBackup: bool, steps: nat)
    requires cut <= |content| && f.path.Some? && steps < 3
    ensures var first := PrepareTrace(f, content, cut);
            var trace := BackupTrace(first[4]);
            && SaveTrace(f, content, cut, keepBackup)[..5 + steps] == first + trace[..steps]
            && SaveState(f, content, cut, keepBackup, 5 + steps) == if steps == 0 then first[4] else trace[steps - 1]
  {
    var first := PrepareTrace(f, content, cut);
    var trace := BackupTrace(first[4]);
    TakeJoin(first, trace + InstallTrace(trace[2], keepBackup), steps);
    assert SaveTrace(f, content, cut, keepBackup) == first + (trace + InstallTrace(trace[2], keepBackup));
  }

  lemma TraceWithoutBackup(f: Files, content: Content, cut: nat, keepBackup: bool, steps: nat)
    requires cut <= |content| && f.path.None? && steps <= 5
    ensures var first := PrepareTrace(f, content, cut);
            var trace := InstallTrace(first[4], keepBackup);
            && SaveTrace(f, content, cut, keepBackup)[..5 + steps] == first + trace[..steps]
            && SaveState(f, content, cut, keepBackup, 5 + steps) == if steps == 0 then first[4] else trace[steps - 1]
  {
    var first := PrepareTrace(f, content, cut);
    TakeJoin(first, InstallTrace(first[4], keepBackup), steps);
  }

  lemma TraceWithBackup(f: Files, content: Content, cut: nat, keepBackup: bool, steps: nat)
    requires cut <= |content| && f.path.Some? && steps <= 5
    ensures var first := PrepareTrace(f, content, cut);
            var second := BackupTrace(first[4]);
            var trace := InstallTrace(second[2], keepBackup);
            && SaveTrace(f, content, cut, keepBackup)[..8 + steps] == first + second + trace[..steps]
            && SaveState(f, content, cut, keepBackup, 8 + steps) == if steps == 0 then second[2] else trace[steps - 1]
  {
    var first := PrepareTrace(f, content, cut);
    var second := BackupTrace(first[4]);
    TakeJoin(first + second, InstallTrace(second[2], keepBackup), steps);
  }

  // ---------- The protocol as it runs ----------

  /** A fault is numbered among the operations that can fail the save. Removing the backup, the last
      primitive but one, cannot; syncing the parent directory, which follows the last one, can. */
  predicate Completes(fault: nat, length: nat) {
    fault >= length
  }

  function PerformedSteps(fault: nat, length: nat): nat
    requires length >= 2
  {
    if fault + 1 >= length then length else if fault + 2 == length then length - 1 else fault
  }

  lemma Prefixes<T>(trace: seq<T>)
    requires |trace| == 5
    ensures trace[..0] == [] && trace[..1] == [trace[0]] && trace[..2] == [trace[0], trace[1]]
    ensures trace[..4] == [trace[0], trace[1], trace[2], trace[3]] && trace[..5] == trace
  {}

  class Directory {
    var path: Option<Content>
    var temporary: map<nat, Content>
    var backup: map<nat, Content>
    var journal: map<nat, Journal>
    /** What the files of the nonce at work looked like after each primitive operation: the states
        a crash can leave behind. */
    ghost var history: seq<Files>

    constructor (content: Option<Content>)
      ensures path == content && history == [] && forall n :: Unused(View(n))
    {
      path, temporary, backup, journal, history := content, map[], map[], map[], [];
    }

    static function Lookup<V>(m: map<nat, V>, n: nat): Option<V> {
      if n in m then Some(m[n]) else None
    }

    function View(n: nat): Files
      reads this
    {
      Files(path, Lookup(temporary, n), Lookup(backup, n), Lookup(journal, n))
    }

    /** Nothing but the path and the files of `n` differs from the old state. */
    twostate predicate OthersKept(n: nat)
      reads this
    {
      && temporary - {n} == old(temporary) - {n}
      && backup - {n} == old(backup) - {n}
      && journal - {n} == old(journal) - {n}
    }

    method Write(n: nat, content: Content)
      modifies this
      ensures OthersKept(n) && View(n) == old(View(n)).(temporary := Some(content))
      ensures history == old(history) + [View(n)]
    {
      temporary := temporary[n := content];
      history := history + [View(n)];
    }

    method PutJournal(n: nat, content: Journal)
      modifies this
      ensures OthersKept(n) && View(n) == old(View(n)).(journal := Some(content))
      ensures history == old(history) + [View(n)]
    {
      journal := journal[n := content];
      history := history + [View(n)];
    }

    method MovePathAway(n: nat)
      requires path.Some?
      modifies this
      ensures OthersKept(n) && View(n) == old(View(n)).(path := None, backup := old(path))
      ensures history == old(history) + [View(n)]
    {
      backup := backup[n := path.value];
      path := None;
      history := history + [View(n)];
    }

    method MoveTemporaryIn(n: nat)
      requires n in temporary
      modifies this
      ensures OthersKept(n) && View(n) == old(View(n)).(path := old(View(n)).temporary, temporary := None)
      ensures history == old(history) + [View(n)]
    {
      path := Some(temporary[n]);
      temporary := temporary - {n};
      history := history + [View(n)];
    }

    method MoveBackupIn(n: nat)
      requires n in backup
      modifies this
      ensures OthersKept(n) && View(n) == old(View(n)).(path := old(View(n)).backup, backup := None)
      ensures history == old(history) + [View(n)]
    {
      path := Some(backup[n]);
      backup := backup - {n};
      history := history + [View(n)];
    }

    method RemoveTemporary(n: nat, fails: bool)
      modifies this
      ensures OthersKept(n) && View(n) == if fails then old(View(n)) else old(View(n)).(temporary := None)
      ensures history == old(history) + [View(n)]
    {
      if !fails { temporary := temporary - {n}; }
      history := history + [View(n)];
    }

    method RemoveBackup(n: nat, fails: bool)
      modifies this
      ensures OthersKept(n) && View(n) == if fails then old(View(n)) else old(View(n)).(backup := None)
      ensures history == old(history) + [View(n)]
    {
      if !fails { backup := backup - {n}; }
      history := history + [View(n)];
    }

    method RemoveJournal(n: nat, fails: bool)
      modifies this
      ensures OthersKept(n) && View(n) == if fails then old(View(n)) else old(View(n)).(journal := None)
      ensures history == old(history) + [View(n)]
    {
      if !fails { journal := journal - {n}; }
      history := history + [View(n)];
    }

    /** `write_journal`: truncate, then write. */
    method WriteJournal(n: nat, phase: Phase, fault: nat) returns (ok: bool)
      modifies this
      ensures OthersKept(n) && ok == (fault >= 2)
      ensures var before := old(View(n));
              && View(n) == (if fault == 0 then before
                             else before.(journal := Some(if ok then Entry(phase) else Torn)))
              && history == old(history)
                 + [before.(journal := Some(Torn)), before.(journal := Some(Entry(phase)))][..if ok then 2 else fault]
    {
      if fault == 0 { return false; }
      PutJournal(n, Torn);
      if fault == 1 { return false; }
      PutJournal(n, Entry(phase));
      return true;
    }

    /** `save`: on failure the temporary file is removed, unless that fails too. */
    method Save(n: nat, content: Content, cut: nat, keepBackup: bool, keepTemporary: bool, fault: nat) returns (ok: bool)
      requires cut <= |content|
      modifies this
      ensures OthersKept(n)
      ensures var trace := SaveTrace(old(View(n)), content, cut, keepBackup);
              var steps := PerformedSteps(fault, |trace|);
              var reached := SaveState(old(View(n)), content, cut, keepBackup, steps);
              && ok == Completes(fault, |trace|)
              && View(n) == (if ok || keepTemporary then reached else reached.(temporary := None))
              && history == old(history) + trace[..steps] + (if ok then [] else [View(n)])
      ensures ok ==> path == Some(content) && n !in journal && n !in temporary
      ensures ok && !keepBackup ==> n !in backup
    {
      SaveLeaves(View(n), content, cut, keepBackup);
      ok := Perform(n, content, cut, keepBackup, fault);
      if !ok {
        RemoveTemporary(n, keepTemporary);
      }
    }

    /** The part of `save` that runs inside its closure. */
    method Perform(n: nat, content: Content, cut: nat, keepBackup: bool, fault: nat) returns (ok: bool)
      requires cut <= |content|
      modifies this
      ensures OthersKept(n)
      ensures var trace := SaveTrace(old(View(n)), content, cut, keepBackup);
              var steps := PerformedSteps(fault, |trace|);
              && ok == Completes(fault, |trace|)
              && View(n) == SaveState(old(View(n)), content, cut, keepBackup, steps)
              && history == old(history) + trace[..steps]
    {
      ghost var start := View(n);
      ok := Prepare(n, content, cut, fault);
      if !ok {
        TracePrefix(start, content, cut, keepBackup, fault);
        return;
      }
      ok := Replace(n, content, cut, keepBackup, fault, start, old(history));
    }

    /** What follows the first journal write, in a save that found `start`. */
    method Replace(n: nat, ghost content: Content, ghost cut: nat, keepBackup: bool, fault: nat, ghost start: Files, ghost before: seq<Files>)
      returns (ok: bool)
      requires cut <= |content| && fault >= 5
      requires View(n) == PrepareTrace(start, content, cut)[4] && history == before + PrepareTrace(start, content, cut)
      modifies this
      ensures OthersKept(n)
      ensures var trace := SaveTrace(start, content, cut, keepBackup);
              var steps := PerformedSteps(fault, |trace|);
              && ok == Completes(fault, |trace|)
              && View(n) == SaveState(start, content, cut, keepBackup, steps)
              && history == before + trace[..steps]
    {
      if path.None? {
        ok := Install(n, keepBackup, fault - 5);
        TraceWithoutBackup(start, content, cut, keepBackup, PerformedSteps(fault - 5, 5));
        return;
      }
      ok := ReplaceFile(n, content, cut, keepBackup, fault, start, before);
    }

    method ReplaceFile(n: nat, ghost content: Content, ghost cut: nat, keepBackup: bool, fault: nat, ghost start: Files, ghost before: seq<Files>)
      returns (ok: bool)
      requires cut <= |content| && fault >= 5 && path.Some? && start.path.Some?
      requires View(n) == PrepareTrace(start, content, cut)[4] && history == before + PrepareTrace(start, content, cut)
      modifies this
      ensures OthersKept(n)
      ensures ok == Completes(fault, 13)
      ensures var steps := PerformedSteps(fault, 13);
              && View(n) == SaveState(start, content, cut, keepBackup, steps)
              && history == before + SaveTrace(start, content, cut, keepBackup)[..steps]
    {
      ok := BackUp(n, fault - 5);
      if !ok {
        TraceToBackup(start, content, cut, keepBackup, fault - 5);
        return;
      }
      ok := Install(n, keepBackup, fault - 8);
      TraceWithBackup(start, content, cut, keepBackup, PerformedSteps(fault - 8, 5));
    }

    method Prepare(n: nat, content: Content, cut: nat, fault: nat) returns (ok: bool)
      requires cut <= |content|
      modifies this
      ensures OthersKept(n) && ok == (fault >= 5)
      ensures var trace := PrepareTrace(old(View(n)), content, cut);
              var steps := if ok then 5 else fault;
              && View(n) == (if steps == 0 then old(View(n)) else trace[steps - 1])
              && history == old(history) + trace[..steps]
    {
      if fault == 0 { return false; }
      Write(n, []);
      if fault == 1 { return false; }
      Write(n, content[..cut]);
      if fault == 2 { return false; }
      Write(n, content);
      ok := WriteJournal(n, Prepared, fault - 3);
    }

    method BackUp(n: nat, fault: nat) returns (ok: bool)
      requires path.Some?
      modifies this
      ensures OthersKept(n) && ok == (fault >= 3)
      ensures var trace := BackupTrace(old(View(n)));
              var steps := if ok then 3 else fault;
              && View(n) == (if steps == 0 then old(View(n)) else trace[steps - 1])
              && history == old(history) + trace[..steps]
    {
      if fault == 0 { return false; }
      MovePathAway(n);
      ok := WriteJournal(n, BackedUp, fault - 1);
    }

    method Install(n: nat, keepBackup: bool, fault: nat) returns (ok: bool)
      requires n in temporary
      modifies this
      ensures OthersKept(n) && ok == Completes(fault, 5)
      ensures var trace := InstallTrace(old(View(n)), keepBackup);
              var steps := PerformedSteps(fault, 5);
              && View(n) == (if steps == 0 then old(View(n)) else trace[steps - 1])
              && history == old(history) + trace[..steps]
    {
      ghost var trace := InstallTrace(View(n), keepBackup);
      Prefixes(trace);
      if fault == 0 { return false; }
      MoveTemporaryIn(n);
      ok := WriteJournal(n, Installed, fault - 1);
      if !ok { return; }
      RemoveBackup(n, keepBackup);
      if fault == 3 { return false; }
      RemoveJournal(n, false);
      ok := fault >= 5;
    }

    /** `recover` for one journal: every state it passes through is recorded. */
    method RecoverOne(n: nat, kept: Kept)
      modifies this
      ensures OthersKept(n)
      ensures history == old(history) + RecoverTrace(old(View(n)), kept)
      ensures View(n) == RecoverState(old(View(n)), kept, |RecoverTrace(old(View(n)), kept)|)
    {
      if n !in journal { return; }
      var entry := journal[n];
      if entry.Torn? {
        RemoveJournal(n, kept.journal);
        return;
      }
      RestorePath(n, entry.phase, kept);
      RemoveTemporary(n, kept.temporary);
      RemoveBackup(n, kept.backup);
      RemoveJournal(n, kept.journal);
    }

    method RestorePath(n: nat, phase: Phase, kept: Kept)
      modifies this
      ensures OthersKept(n) && View(n) == Restore(old(View(n)), phase, kept)
      ensures history == old(history) + [View(n)]
    {
      if phase == BackedUp && path.None? && n in temporary {
        MoveTemporaryIn(n);
      } else if path.None? && n in backup {
        MoveBackupIn(n);
      } else if phase == Prepared && path.Some? {
        RemoveTemporary(n, kept.temporary);
      } else {
        history := history + [View(n)];
      }
    }

    /** `recover`: the journals in listing order. */
    method Recover(n: nat, listing: seq<nat>)
      requires forall m :: m != n ==> m !in journal
      modifies this
      ensures path == if n in listing then Lands(old(View(n))) else old(path)
      ensures n in listing ==> journal == map[]
    {
      var i := 0;
      while i < |listing|
        invariant 0 <= i <= |listing|
        invariant forall m :: m != n ==> m !in journal
        invariant View(n) == if n in listing[..i] then Recovered(old(View(n))) else old(View(n))
      {
        assert listing[..i + 1] == listing[..i] + [listing[i]];
        RecoverIdempotent(old(View(n)));
        if listing[i] in journal {
          ghost var others := journal - {n};
          RecoverOne(listing[i], NothingKept);
          assert journal - {n} == others;
          forall m | m != n ensures m !in journal {
            assert m in journal ==> m in journal - {n};
          }
        }
        i := i + 1;
      }
      assert listing[..i] == listing;
      RecoverIdempotent(old(View(n)));
      if n in listing {
        assert forall m :: Lookup(journal, m) == None;
      }
    }
  }
}
