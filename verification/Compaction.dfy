/** History compaction in `krabb-runtime/src/state.rs`: which messages survive `compact_messages`,
    and when the scan for a removable group comes to an end. */
module Compaction {
  import opened Wrappers
  import opened Messages

  const MESSAGE_HISTORY_LIMIT := 100

  // ---------- Groups ----------

  /** Message `i` is a tool result that belongs to the assistant message before its run. */
  predicate InAssistantRun(m: seq<Message>, i: nat)
    requires i < |m|
  {
    m[i].role == Tool && i > 0 && (m[i - 1].role == Assistant || InAssistantRun(m, i - 1))
  }

  ghost predicate NoOrphans(m: seq<Message>) {
    forall i :: 0 <= i < |m| && m[i].role == Tool ==> InAssistantRun(m, i)
  }

  /** A position where no group is cut in two. */
  ghost predicate IsBoundary(m: seq<Message>, cut: nat) {
    cut <= |m| && (cut < |m| ==> !InAssistantRun(m, cut))
  }

  function FirstTool(m: seq<Message>, i: nat): (start: nat)
    requires i < |m|
    ensures start <= i
  {
    if i > 0 && m[i - 1].role == Tool then FirstTool(m, i - 1) else i
  }

  function GroupStart(m: seq<Message>, i: nat): (start: nat)
    requires i < |m|
    ensures start <= i
  {
    if m[i].role != Tool then i
    else
      var start := FirstTool(m, i);
      if start > 0 && m[start - 1].role == Assistant then start - 1 else start
  }

  /** The last of the tool messages that follow `i` without a gap. */
  function LastTool(m: seq<Message>, i: nat): (end: nat)
    requires i < |m|
    ensures i <= end < |m|
    decreases |m| - i
  {
    if i + 1 < |m| && m[i + 1].role == Tool then LastTool(m, i + 1) else i
  }

  lemma {:induction false} ToolRun(m: seq<Message>, i: nat)
    requires i < |m|
    ensures forall k :: i < k <= LastTool(m, i) ==> m[k].role == Tool
    ensures LastTool(m, i) + 1 < |m| ==> m[LastTool(m, i) + 1].role != Tool
    decreases |m| - i
  {
    if i + 1 < |m| && m[i + 1].role == Tool { ToolRun(m, i + 1); }
  }

  function GroupEnd(m: seq<Message>, start: nat): (end: nat)
    requires start < |m|
    ensures start <= end < |m|
  {
    if m[start].role == Assistant then LastTool(m, start) else start
  }

  /** The first message from `i` on that is not a System message, or the end. */
  function FirstOther(m: seq<Message>, i: nat): (r: nat)
    requires i <= |m|
    ensures i <= r <= |m|
    ensures r < |m| ==> m[r].role != System
    decreases |m| - i
  {
    if i < |m| && m[i].role == System then FirstOther(m, i + 1) else i
  }

  lemma {:induction false} SystemRun(m: seq<Message>, i: nat)
    requires i <= |m|
    ensures forall k :: i <= k < FirstOther(m, i) ==> m[k].role == System
    decreases |m| - i
  {
    if i < |m| && m[i].role == System { SystemRun(m, i + 1); }
  }

  // ---------- Removing one group ----------

  datatype Group = Group(start: nat, end: nat)

  predicate Holds(group: Group, protected: Option<nat>) {
    protected.Some? && group.start <= protected.value <= group.end
  }

  function GroupAt(m: seq<Message>, start: nat): Group
    requires start < |m|
  {
    Group(start, GroupEnd(m, start))
  }

  /** The group the scan removes: the first one, or the one behind it if the first holds the
      protected message. */
  function Target(m: seq<Message>, protected: Option<nat>): (r: Option<Group>)
    ensures r.Some? ==> r.value.start <= r.value.end < |m|
  {
    var first := FirstOther(m, 0);
    if first == |m| then None
    else if !Holds(GroupAt(m, first), protected) then Some(GroupAt(m, first))
    else
      var second := FirstOther(m, GroupEnd(m, first) + 1);
      if second == |m| then None else Some(GroupAt(m, second))
  }

  function Without(m: seq<Message>, group: Group): seq<Message>
    requires group.start <= group.end < |m|
  {
    m[..group.start] + m[group.end + 1..]
  }

  /** The scan repeats itself forever: the protected message is a tool result without its assistant
      message, nothing but System messages come before it, and another tool result follows. */
  predicate Stalls(m: seq<Message>, protected: Option<nat>) {
    var first := FirstOther(m, 0);
    protected == Some(first) && first + 1 < |m| && m[first].role == Tool && m[first + 1].role == Tool
  }

  // ---------- The scan as a state machine ----------

  datatype Scan = At(index: nat) | Removing(group: Group) | Exhausted

  /** One turn of the scan's loop. */
  function ScanStep(m: seq<Message>, protected: Option<nat>, s: Scan): Scan {
    match s
    case At(index) =>
      if index >= |m| then Exhausted
      else if m[index].role == System then At(index + 1)
      else
        var start := GroupStart(m, index);
        var group := GroupAt(m, start);
        if Holds(group, protected) then At(group.end + 1) else Removing(group)
    case _ => s
  }

  function ScanAfter(m: seq<Message>, protected: Option<nat>, turns: nat): Scan {
    if turns == 0 then At(0) else ScanStep(m, protected, ScanAfter(m, protected, turns - 1))
  }

  lemma {:induction false} ScanSkipsSystem(m: seq<Message>, protected: Option<nat>, turns: nat)
    requires turns <= FirstOther(m, 0)
    ensures ScanAfter(m, protected, turns) == At(turns)
  {
    SystemRun(m, 0);
    if turns > 0 { ScanSkipsSystem(m, protected, turns - 1); }
  }

  /** Behind a message that is no tool result, a tool run starts where it stands. */
  lemma GroupStartsHere(m: seq<Message>, i: nat)
    requires i < |m|
    requires i > 0 ==> m[i - 1].role in {System, User}
    ensures GroupStart(m, i) == i
  {}

  /** In a stalling history the scan never leaves the second tool result. */
  lemma {:induction false} StallingScan(m: seq<Message>, protected: Option<nat>, turns: nat)
    requires Stalls(m, protected) && turns > FirstOther(m, 0)
    ensures ScanAfter(m, protected, turns) == At(FirstOther(m, 0) + 1)
  {
    var first := FirstOther(m, 0);
    SystemRun(m, 0);
    if turns == first + 1 {
      ScanSkipsSystem(m, protected, first);
      GroupStartsHere(m, first);
    } else {
      StallingScan(m, protected, turns - 1);
      assert FirstTool(m, first + 1) == FirstTool(m, first) == first;
    }
  }

  lemma {:induction false} ScanSkipsTo(m: seq<Message>, protected: Option<nat>, turns: nat, index: nat, target: nat)
    requires ScanAfter(m, protected, turns) == At(index) && index <= target <= |m|
    requires forall k :: index <= k < target ==> m[k].role == System
    ensures ScanAfter(m, protected, turns + (target - index)) == At(target)
    decreases target
  {
    if index < target {
      var before := turns + (target - 1 - index);
      ScanSkipsTo(m, protected, turns, index, target - 1);
      SystemTurn(m, protected, before, target - 1);
      assert turns + (target - index) == before + 1;
    }
  }

  lemma OneTurn(m: seq<Message>, protected: Option<nat>, turns: nat, s: Scan)
    requires ScanAfter(m, protected, turns) == s
    ensures ScanAfter(m, protected, turns + 1) == ScanStep(m, protected, s)
  {}

  lemma SystemTurn(m: seq<Message>, protected: Option<nat>, turns: nat, index: nat)
    requires ScanAfter(m, protected, turns) == At(index) && index < |m| && m[index].role == System
    ensures ScanAfter(m, protected, turns + 1) == At(index + 1)
  {}

  lemma ScanReachesFirst(m: seq<Message>, protected: Option<nat>)
    ensures var first := FirstOther(m, 0);
            ScanAfter(m, protected, first + 1) ==
              if first == |m| then Exhausted
              else if Holds(GroupAt(m, first), protected) then At(GroupEnd(m, first) + 1)
              else Removing(GroupAt(m, first))
  {
    var first := FirstOther(m, 0);
    ScanSkipsSystem(m, protected, first);
    SystemRun(m, 0);
    if first < |m| { GroupStartsHere(m, first); }
  }

  lemma ScanReachesSecond(m: seq<Message>, protected: Option<nat>, turns: nat, next: nat, second: nat)
    requires !Stalls(m, protected) && FirstOther(m, 0) < |m| && Holds(GroupAt(m, FirstOther(m, 0)), protected)
    requires next == GroupEnd(m, FirstOther(m, 0)) + 1 && second == FirstOther(m, next)
    requires ScanAfter(m, protected, turns) == At(next)
    ensures ScanAfter(m, protected, turns + (second - next) + 1) ==
      if second == |m| then Exhausted else Removing(GroupAt(m, second))
  {
    SystemRun(m, next);
    ScanSkipsTo(m, protected, turns, next, second);
    OneTurn(m, protected, turns + (second - next), At(second));
    if second < |m| {
      SecondIsNotProtected(m, protected, next, second);
    }
  }

  lemma SecondIsNotProtected(m: seq<Message>, protected: Option<nat>, next: nat, second: nat)
    requires !Stalls(m, protected) && FirstOther(m, 0) < |m| && Holds(GroupAt(m, FirstOther(m, 0)), protected)
    requires next == GroupEnd(m, FirstOther(m, 0)) + 1 && second == FirstOther(m, next) < |m|
    ensures ScanStep(m, protected, At(second)) == Removing(GroupAt(m, second))
  {
    BehindProtected(m, protected, FirstOther(m, 0), second);
  }

  /** Otherwise it ends, with the target removed or nothing left to remove. */
  lemma ScanEnds(m: seq<Message>, protected: Option<nat>) returns (turns: nat)
    requires !Stalls(m, protected)
    ensures ScanAfter(m, protected, turns) ==
      match Target(m, protected)
      case Some(group) => Removing(group)
      case None => Exhausted
  {
    var first := FirstOther(m, 0);
    turns := first + 1;
    ScanReachesFirst(m, protected);
    if first < |m| && Holds(GroupAt(m, first), protected) {
      var next := GroupEnd(m, first) + 1;
      var second := FirstOther(m, next);
      ScanReachesSecond(m, protected, turns, next, second);
      TargetIsSecond(m, protected, next, second);
      turns := turns + (second - next) + 1;
    } else {
      TargetIsFirst(m, protected);
    }
  }

  /** The scan of a history ends exactly when the history does not stall it. */
  lemma ScanEndsUnlessStalled(m: seq<Message>, protected: Option<nat>)
    ensures !Stalls(m, protected) <==> exists turns: nat :: !ScanAfter(m, protected, turns).At?
  {
    if Stalls(m, protected) {
      forall turns: nat ensures ScanAfter(m, protected, turns).At? {
        if turns <= FirstOther(m, 0) { ScanSkipsSystem(m, protected, turns); } else { StallingScan(m, protected, turns); }
      }
    } else {
      var turns := ScanEnds(m, protected);
      assert !ScanAfter(m, protected, turns).At?;
    }
  }

  lemma TargetIsFirst(m: seq<Message>, protected: Option<nat>)
    requires FirstOther(m, 0) < |m| ==> !Holds(GroupAt(m, FirstOther(m, 0)), protected)
    ensures Target(m, protected) == if FirstOther(m, 0) == |m| then None else Some(GroupAt(m, FirstOther(m, 0)))
  {}

  lemma TargetIsSecond(m: seq<Message>, protected: Option<nat>, next: nat, second: nat)
    requires FirstOther(m, 0) < |m| && Holds(GroupAt(m, FirstOther(m, 0)), protected)
    requires next == GroupEnd(m, FirstOther(m, 0)) + 1 && second == FirstOther(m, next)
    ensures Target(m, protected) == if second == |m| then None else Some(GroupAt(m, second))
  {}

  lemma BehindProtected(m: seq<Message>, protected: Option<nat>, first: nat, second: nat)
    requires !Stalls(m, protected) && first == FirstOther(m, 0) < |m| && Holds(GroupAt(m, first), protected)
    requires second == FirstOther(m, GroupEnd(m, first) + 1) < |m|
    ensures GroupStart(m, second) == second
  {
    var end := GroupEnd(m, first);
    if second > end + 1 {
      SystemRun(m, end + 1);
      GroupStartsHere(m, second);
    } else if m[second].role == Tool {
      ToolBehindGroup(m, protected, first);
      GroupStartsHere(m, second);
    }
  }

  /** A tool result right behind the protected group does not belong to an assistant message. */
  lemma ToolBehindGroup(m: seq<Message>, protected: Option<nat>, first: nat)
    requires !Stalls(m, protected) && first == FirstOther(m, 0) < |m| && Holds(GroupAt(m, first), protected)
    requires var end := GroupEnd(m, first); end + 1 < |m| && m[end + 1].role == Tool
    ensures GroupEnd(m, first) == first && m[first].role != Tool && m[first].role != Assistant
  {
    if m[first].role == Assistant { ToolRun(m, first); }
  }

  /** With every tool result behind its assistant message the scan always ends. */
  lemma NoOrphansNoStall(m: seq<Message>, protected: Option<nat>)
    requires NoOrphans(m)
    ensures !Stalls(m, protected)
  {
    var first := FirstOther(m, 0);
    if first < |m| && m[first].role == Tool {
      SystemRun(m, 0);
      GroupStartsHere(m, first);
      NotInRun(m, first);
    }
  }

  // ---------- What one removal keeps ----------

  lemma TargetIsGroup(m: seq<Message>, protected: Option<nat>)
    requires Target(m, protected).Some? && !Stalls(m, protected)
    ensures var group := Target(m, protected).value;
            && IsBoundary(m, group.start) && IsBoundary(m, group.end + 1)
            && (forall k :: group.start <= k <= group.end ==> m[k].role != System)
  {
    var group := Target(m, protected).value;
    var first := FirstOther(m, 0);
    SystemRun(m, 0);
    ToolRun(m, group.start);
    if group.start != first {
      BehindProtected(m, protected, first, group.start);
    } else {
      GroupStartsHere(m, first);
    }
    NotInRun(m, group.start);
    if m[group.start].role == Assistant {
    } else if group.end + 1 < |m| && m[group.end + 1].role == Tool {
      assert !InAssistantRun(m, group.end);
    }
  }

  lemma NotInRun(m: seq<Message>, i: nat)
    requires i < |m| && GroupStart(m, i) == i
    ensures !InAssistantRun(m, i)
  {
    if m[i].role == Tool && i > 0 {
      assert m[i - 1].role != Tool;
    }
  }

  /** Where a message that is not removed is found afterwards. */
  function Moved(group: Group, i: nat): nat
    requires !(group.start <= i <= group.end) && group.start <= group.end
  {
    if i < group.start then i else i - (group.end + 1 - group.start)
  }

  /** A removal shortens the history, and the protected message survives it. */
  lemma RemovalKeepsProtected(m: seq<Message>, protected: Option<nat>)
    requires Target(m, protected).Some?
    ensures var group := Target(m, protected).value;
            && |Without(m, group)| < |m|
            && !Holds(group, protected)
            && (protected.Some? && protected.value < |m| ==>
                  m[protected.value] == Without(m, group)[Moved(group, protected.value)])
  {}

  /** No removal takes the assistant message from a tool result. */
  lemma RemovalKeepsNoOrphans(m: seq<Message>, protected: Option<nat>)
    requires Target(m, protected).Some? && NoOrphans(m)
    ensures NoOrphans(Without(m, Target(m, protected).value))
  {
    var group := Target(m, protected).value;
    NoOrphansNoStall(m, protected);
    TargetIsGroup(m, protected);
    var rest := Without(m, group);
    var next := group.end + 1;
    assert m[..group.start] == rest[..group.start] && m[next..] == rest[group.start..];
    forall i | 0 <= i < |rest| && rest[i].role == Tool ensures InAssistantRun(rest, i) {
      if i < group.start {
        assert rest[i] == rest[..group.start][i] == m[i];
        RunBefore(m, rest, i, group.start);
      } else {
        var j := i + (next - group.start);
        assert rest[i] == rest[group.start..][i - group.start] == m[next..][i - group.start] == m[j];
        RunBehind(m, rest, j, next, group.start);
      }
    }
  }

  lemma {:induction false} RunBefore(m: seq<Message>, rest: seq<Message>, i: nat, cut: nat)
    requires i < cut <= |m| && cut <= |rest| && m[..cut] == rest[..cut] && InAssistantRun(m, i)
    ensures InAssistantRun(rest, i)
  {
    assert m[i] == m[..cut][i] == rest[..cut][i] && m[i - 1] == m[..cut][i - 1] == rest[..cut][i - 1];
    if m[i - 1].role != Assistant { RunBefore(m, rest, i - 1, cut); }
  }

  /** A run that lies behind a boundary stays a run when something in front of it goes. */
  lemma {:induction false} RunBehind(m: seq<Message>, rest: seq<Message>, i: nat, cut: nat, at: nat)
    requires cut <= i < |m| && at <= |rest| && m[cut..] == rest[at..]
    requires IsBoundary(m, cut) && InAssistantRun(m, i)
    ensures InAssistantRun(rest, i - cut + at)
  {
    assert i > cut;
    assert m[i] == m[cut..][i - cut] == rest[at..][i - cut] == rest[i - cut + at];
    assert m[i - 1] == m[cut..][i - 1 - cut] == rest[at..][i - 1 - cut] == rest[i - 1 - cut + at];
    if m[i - 1].role != Assistant { RunBehind(m, rest, i - 1, cut, at); }
  }

  // ---------- Compaction as a whole ----------

  function Compacted(m: seq<Message>): seq<Message>
    decreases |m|
  {
    if |m| > MESSAGE_HISTORY_LIMIT && Target(m, None).Some? then Compacted(Without(m, Target(m, None).value)) else m
  }

  function Systems(m: seq<Message>): seq<Message> {
    if m == [] then [] else if m[0].role == System then [m[0]] + Systems(m[1..]) else Systems(m[1..])
  }

  /** The System messages of a prefix, then everything behind it. */
  function Kept(m: seq<Message>, cut: nat): seq<Message>
    requires cut <= |m|
  {
    Systems(m[..cut]) + m[cut..]
  }

  /** The earliest group boundary that brings the history within its limit, or the end. */
  ghost predicate IsCut(m: seq<Message>, cut: nat) {
    && IsBoundary(m, cut)
    && (|Kept(m, cut)| <= MESSAGE_HISTORY_LIMIT || cut == |m|)
    && forall earlier :: 0 <= earlier < cut && IsBoundary(m, earlier) ==> |Kept(m, earlier)| > MESSAGE_HISTORY_LIMIT
  }

  lemma {:induction false} SystemsJoin(a: seq<Message>, b: seq<Message>)
    ensures Systems(a + b) == Systems(a) + Systems(b)
  {
    if a == [] {
      assert a + b == b;
    } else {
      assert (a + b)[1..] == a[1..] + b;
      SystemsJoin(a[1..], b);
    }
  }

  lemma {:induction false} SystemsAreSystem(m: seq<Message>)
    ensures forall k :: 0 <= k < |Systems(m)| ==> Systems(m)[k].role == System
  {
    if m != [] { SystemsAreSystem(m[1..]); }
  }

  lemma {:induction false} SystemsOfSystems(m: seq<Message>)
    requires forall k :: 0 <= k < |m| ==> m[k].role == System
    ensures Systems(m) == m
  {
    if m != [] {
      SystemsOfSystems(m[1..]);
      assert m == [m[0]] + m[1..];
    }
  }

  lemma {:induction false} SystemsOfOthers(m: seq<Message>)
    requires forall k :: 0 <= k < |m| ==> m[k].role != System
    ensures Systems(m) == []
  {
    if m != [] { SystemsOfOthers(m[1..]); }
  }

  /** Moving the cut over System messages changes nothing. */
  lemma KeptOverSystems(m: seq<Message>, low: nat, high: nat)
    requires low <= high <= |m| && forall k :: low <= k < high ==> m[k].role == System
    ensures Kept(m, low) == Kept(m, high)
  {
    assert m[..high] == m[..low] + m[low..high];
    SystemsJoin(m[..low], m[low..high]);
    SystemsOfSystems(m[low..high]);
    assert m[low..] == m[low..high] + m[high..];
  }

  /** Moving the cut over other messages drops them. */
  lemma KeptOverOthers(m: seq<Message>, low: nat, high: nat)
    requires low <= high <= |m| && forall k :: low <= k < high ==> m[k].role != System
    ensures Kept(m, high) == Systems(m[..low]) + m[high..]
  {
    assert m[..high] == m[..low] + m[low..high];
    SystemsJoin(m[..low], m[low..high]);
    SystemsOfOthers(m[low..high]);
  }

  lemma {:induction false} FirstOtherBehindSystems(systems: seq<Message>, m: seq<Message>, i: nat)
    requires i <= |systems| && forall k :: 0 <= k < |systems| ==> systems[k].role == System
    ensures FirstOther(systems + m, i) == |systems| + FirstOther(m, 0)
    decreases |systems| - i
  {
    if i < |systems| {
      FirstOtherBehindSystems(systems, m, i + 1);
    } else {
      FirstOtherShift(systems, m, 0);
    }
  }

  lemma {:induction false} FirstOtherShift(front: seq<Message>, m: seq<Message>, i: nat)
    requires i <= |m|
    ensures FirstOther(front + m, |front| + i) == |front| + FirstOther(m, i)
    decreases |m| - i
  {
    if i < |m| && m[i].role == System { FirstOtherShift(front, m, i + 1); }
  }

  lemma {:induction false} GroupEndShift(front: seq<Message>, m: seq<Message>, start: nat)
    requires start < |m|
    ensures GroupEnd(front + m, |front| + start) == |front| + GroupEnd(m, start)
  {
    if m[start].role == Assistant { LastToolShift(front, m, start); }
  }

  lemma {:induction false} LastToolShift(front: seq<Message>, m: seq<Message>, i: nat)
    requires i < |m|
    ensures LastTool(front + m, |front| + i) == |front| + LastTool(m, i)
    decreases |m| - i
  {
    if i + 1 < |m| && m[i + 1].role == Tool { LastToolShift(front, m, i + 1); }
  }

  lemma TargetBehindSystems(systems: seq<Message>, rest: seq<Message>, start: nat, end: nat)
    requires start == FirstOther(rest, 0) < |rest| && end == GroupEnd(rest, start)
    requires forall k :: 0 <= k < |systems| ==> systems[k].role == System
    ensures Target(systems + rest, None) == Some(Group(|systems| + start, |systems| + end))
  {
    FirstOtherBehindSystems(systems, rest, 0);
    GroupEndShift(systems, rest, start);
  }

  lemma GroupOfSuffix(m: seq<Message>, cut: nat, first: nat, end: nat)
    requires cut <= |m| && first == FirstOther(m, cut) < |m| && end == GroupEnd(m, first)
    ensures FirstOther(m[cut..], 0) == first - cut && GroupEnd(m[cut..], first - cut) == end - cut
  {
    assert m == m[..cut] + m[cut..];
    FirstOtherShift(m[..cut], m[cut..], 0);
    GroupEndShift(m[..cut], m[cut..], first - cut);
  }

  /** The group a removal takes from System messages and a rest of the history is the next group of
      the history. */
  lemma TargetOfKept(m: seq<Message>, cut: nat, first: nat, end: nat, systems: seq<Message>, kept: seq<Message>)
    requires cut <= |m| && kept == systems + m[cut..] && first == FirstOther(m, cut) < |m| && end == GroupEnd(m, first)
    requires forall k :: 0 <= k < |systems| ==> systems[k].role == System
    ensures Target(kept, None) == Some(Group(|systems| + (first - cut), |systems| + (end - cut)))
  {
    GroupOfSuffix(m, cut, first, end);
    TargetBehindSystems(systems, m[cut..], first - cut, end - cut);
  }

  /** Taking messages that are not System ones away leaves what is kept behind them. */
  lemma WithoutNext(m: seq<Message>, cut: nat, first: nat, end: nat, kept: seq<Message>, group: Group)
    requires cut <= first <= end < |m| && kept == Kept(m, cut)
    requires group == Group(|Systems(m[..cut])| + (first - cut), |Systems(m[..cut])| + (end - cut))
    requires forall k :: cut <= k < first ==> m[k].role == System
    requires forall k :: first <= k <= end ==> m[k].role != System
    ensures group.end < |kept| && Without(kept, group) == Kept(m, end + 1)
  {
    KeptOverSystems(m, cut, first);
    KeptOverOthers(m, first, end + 1);
    SystemsUpTo(m, cut, first);
    var systems := Systems(m[..first]);
    assert kept == systems + m[first..];
    assert kept[..|systems|] == systems;
    assert kept[|systems| + (end - first) + 1..] == m[end + 1..];
  }

  lemma SystemsUpTo(m: seq<Message>, cut: nat, first: nat)
    requires cut <= first <= |m| && forall k :: cut <= k < first ==> m[k].role == System
    ensures |Systems(m[..first])| == |Systems(m[..cut])| + (first - cut)
  {
    assert m[..first] == m[..cut] + m[cut..first];
    SystemsJoin(m[..cut], m[cut..first]);
    SystemsOfSystems(m[cut..first]);
  }

  lemma GroupHasNoSystem(m: seq<Message>, first: nat)
    requires first < |m| && m[first].role != System
    ensures forall k :: first <= k <= GroupEnd(m, first) ==> m[k].role != System
  {
    ToolRun(m, first);
  }

  lemma RemovalResult(m: seq<Message>, cut: nat, first: nat, end: nat, kept: seq<Message>, group: Group)
    requires cut <= |m| && first == FirstOther(m, cut) < |m| && end == GroupEnd(m, first)
    requires kept == Kept(m, cut)
    requires group == Group(|Systems(m[..cut])| + (first - cut), |Systems(m[..cut])| + (end - cut))
    ensures Target(kept, None) == Some(group)
    ensures Without(kept, group) == Kept(m, end + 1)
  {
    GroupHasNoSystem(m, first);
    SystemRun(m, cut);
    WithoutNext(m, cut, first, end, kept, group);
    SystemsAreSystem(m[..cut]);
    TargetOfKept(m, cut, first, end, Systems(m[..cut]), kept);
  }

  lemma BoundariesInside(m: seq<Message>, cut: nat, first: nat, end: nat)
    requires cut <= |m| && first == FirstOther(m, cut) < |m| && end == GroupEnd(m, first)
    ensures forall b :: cut < b <= end && IsBoundary(m, b) ==> Kept(m, b) == Kept(m, cut)
  {
    SystemRun(m, cut);
    forall b | cut < b <= end && IsBoundary(m, b) ensures Kept(m, b) == Kept(m, cut) {
      InsideGroup(m, first, b);
      KeptOverSystems(m, cut, b);
    }
  }

  /** One removal moves the cut over the next group. */
  lemma RemovalMovesCut(m: seq<Message>, cut: nat) returns (next: nat)
    requires IsBoundary(m, cut) && FirstOther(m, cut) < |m|
    ensures cut < next <= |m| && IsBoundary(m, next)
    ensures Target(Kept(m, cut), None).Some?
    ensures Without(Kept(m, cut), Target(Kept(m, cut), None).value) == Kept(m, next)
    ensures forall b :: cut < b < next && IsBoundary(m, b) ==> Kept(m, b) == Kept(m, cut)
  {
    var first := FirstOther(m, cut);
    var end := GroupEnd(m, first);
    next := end + 1;
    GroupEndsAtBoundary(m, cut, first);
    BoundariesInside(m, cut, first, end);
    var before := |Systems(m[..cut])|;
    RemovalResult(m, cut, first, end, Kept(m, cut), Group(before + (first - cut), before + (end - cut)));
  }

  lemma {:induction false} InsideGroup(m: seq<Message>, first: nat, b: nat)
    requires first < |m| && b <= GroupEnd(m, first) && IsBoundary(m, b)
    ensures b <= first
    decreases b
  {
    ToolRun(m, first);
    if b > first {
      if b > first + 1 && InAssistantRun(m, b - 1) {
      } else if b > first + 1 {
        InsideGroup(m, first, b - 1);
      }
    }
  }

  lemma GroupEndsAtBoundary(m: seq<Message>, cut: nat, first: nat)
    requires IsBoundary(m, cut) && first == FirstOther(m, cut) < |m|
    ensures IsBoundary(m, GroupEnd(m, first) + 1)
  {
    ToolRun(m, first);
    SystemRun(m, cut);
    if m[first].role == Tool {
      assert !InAssistantRun(m, first);
    }
  }

  /** From a cut reached so far, compaction goes on to the final one. */
  lemma {:induction false} CompactFrom(m: seq<Message>, cut: nat) returns (final: nat)
    requires IsBoundary(m, cut)
    requires forall earlier :: 0 <= earlier < cut && IsBoundary(m, earlier) ==> |Kept(m, earlier)| > MESSAGE_HISTORY_LIMIT
    ensures final <= |m| && Compacted(Kept(m, cut)) == Kept(m, final)
    ensures IsCut(m, final)
    decreases |m| - cut
  {
    var kept := Kept(m, cut);
    if |kept| <= MESSAGE_HISTORY_LIMIT {
      final := cut;
    } else if FirstOther(m, cut) == |m| {
      final := |m|;
      SystemRun(m, cut);
      KeptOverSystems(m, cut, |m|);
      forall earlier | 0 <= earlier < |m| && IsBoundary(m, earlier) ensures |Kept(m, earlier)| > MESSAGE_HISTORY_LIMIT {
        if earlier >= cut { KeptOverSystems(m, cut, earlier); }
      }
      assert Kept(m, |m|) == Systems(m) by { assert m[..|m|] == m; }
      SystemsAreSystem(m);
      assert Target(Systems(m), None).None? by {
        assert forall k :: 0 <= k < |Systems(m)| ==> Systems(m)[k].role == System;
      }
    } else {
      var next := RemovalMovesCut(m, cut);
      final := CompactFrom(m, next);
    }
  }

  /** What compaction means: the System messages of some prefix followed by the untouched rest, cut
      at the earliest group boundary that reaches the limit, or with only System messages left. */
  lemma CompactionMeaning(m: seq<Message>) returns (cut: nat)
    ensures IsCut(m, cut) && Compacted(m) == Kept(m, cut)
  {
    assert Kept(m, 0) == m;
    cut := CompactFrom(m, 0);
  }

  lemma {:induction false} CompactionSettles(m: seq<Message>)
    ensures |Compacted(m)| <= MESSAGE_HISTORY_LIMIT || Target(Compacted(m), None).None?
    ensures Compacted(Compacted(m)) == Compacted(m)
    decreases |m|
  {
    if |m| > MESSAGE_HISTORY_LIMIT && Target(m, None).Some? {
      CompactionSettles(Without(m, Target(m, None).value));
    }
  }

  lemma {:induction false} CompactionKeepsNoOrphans(m: seq<Message>)
    requires NoOrphans(m)
    ensures NoOrphans(Compacted(m))
    decreases |m|
  {
    if |m| > MESSAGE_HISTORY_LIMIT && Target(m, None).Some? {
      RemovalKeepsNoOrphans(m, None);
      CompactionKeepsNoOrphans(Without(m, Target(m, None).value));
    }
  }

  // ---------- The program ----------

  /** What lies before the scan's index: System messages, and the protected group once passed. */
  ghost predicate Scanned(m: seq<Message>, protected: Option<nat>, index: nat, passed: bool) {
    var first := FirstOther(m, 0);
    && index <= |m|
    && if passed then
         && first < |m| && Holds(GroupAt(m, first), protected) && index > GroupEnd(m, first)
         && FirstOther(m, index) == FirstOther(m, GroupEnd(m, first) + 1)
       else FirstOther(m, index) == first
  }

  lemma ReachedGroup(m: seq<Message>, protected: Option<nat>, index: nat, passed: bool)
    requires !Stalls(m, protected) && Scanned(m, protected, index, passed)
    requires index < |m| && m[index].role != System
    ensures GroupStart(m, index) == index
    ensures !Holds(GroupAt(m, index), protected) ==> Target(m, protected) == Some(GroupAt(m, index))
    ensures Holds(GroupAt(m, index), protected) ==> !passed && index == FirstOther(m, 0)
  {
    if passed {
      BehindProtected(m, protected, FirstOther(m, 0), index);
    } else {
      SystemRun(m, 0);
      ScannedFirst(m, index);
      GroupStartsHere(m, index);
    }
  }

  /** Nothing but System messages lie before the first other message. */
  lemma {:induction false} ScannedFirst(m: seq<Message>, index: nat)
    requires index < |m| && FirstOther(m, index) == FirstOther(m, 0) && m[index].role != System
    ensures index == FirstOther(m, 0)
  {}

  lemma ScannedSystem(m: seq<Message>, protected: Option<nat>, index: nat, passed: bool)
    requires Scanned(m, protected, index, passed) && index < |m| && m[index].role == System
    ensures Scanned(m, protected, index + 1, passed)
  {}

  lemma ScannedOn(m: seq<Message>, protected: Option<nat>, index: nat, passed: bool)
    requires !Stalls(m, protected) && Scanned(m, protected, index, passed)
    requires index < |m| && m[index].role != System && Holds(GroupAt(m, index), protected)
    ensures Scanned(m, protected, GroupEnd(m, index) + 1, true)
  {
    ReachedGroup(m, protected, index, passed);
  }

  lemma ScannedAll(m: seq<Message>, protected: Option<nat>, index: nat, passed: bool)
    requires Scanned(m, protected, index, passed) && index >= |m|
    ensures Target(m, protected).None?
  {}

  /** A message list that is compacted in place. */
  class History {
    var messages: seq<Message>

    constructor (messages: seq<Message>)
      ensures this.messages == messages
    {
      this.messages := messages;
    }

    method MessageGroup(index: nat) returns (start: nat, end: nat)
      requires index < |messages|
      ensures start == GroupStart(messages, index) && end == GroupEnd(messages, start)
    {
      start := index;
      if messages[index].role == Tool {
        while start > 0 && messages[start - 1].role == Tool
          invariant start <= index && FirstTool(messages, start) == FirstTool(messages, index)
        {
          start := start - 1;
        }
        if start > 0 && messages[start - 1].role == Assistant {
          start := start - 1;
        }
      }
      end := start;
      if messages[start].role == Assistant {
        while end + 1 < |messages| && messages[end + 1].role == Tool
          invariant end < |messages| && LastTool(messages, end) == LastTool(messages, start)
        {
          end := end + 1;
        }
      }
    }

    /** Where `Stalls` holds, the loop below runs forever. */
    method OldestGroup(protected: Option<nat>) returns (group: Option<Group>)
      requires !Stalls(messages, protected)
      ensures group == Target(messages, protected)
    {
      var index := 0;
      ghost var passed := false;
      while index < |messages|
        invariant index <= |messages|
        invariant Scanned(messages, protected, index, passed)
        decreases |messages| - index
      {
        if messages[index].role == System {
          ScannedSystem(messages, protected, index, passed);
          index := index + 1;
          continue;
        }
        ReachedGroup(messages, protected, index, passed);
        var start, end := MessageGroup(index);
        if protected.None? || protected.value < start || protected.value > end {
          return Some(Group(start, end));
        }
        assert start == index && end == GroupEnd(messages, index);
        ScannedOn(messages, protected, index, passed);
        passed := true;
        index := end + 1;
      }
      ScannedAll(messages, protected, index, passed);
      return None;
    }

    method RemoveOldestMessageGroup(protected: Option<nat>) returns (removed: bool)
      requires !Stalls(messages, protected)
      modifies this
      ensures removed == Target(old(messages), protected).Some?
      ensures messages == if removed then Without(old(messages), Target(old(messages), protected).value) else old(messages)
    {
      var group := OldestGroup(protected);
      if group.None? { return false; }
      messages := messages[..group.value.start] + messages[group.value.end + 1..];
      removed := true;
    }

    method CompactMessages()
      modifies this
      ensures messages == Compacted(old(messages))
    {
      while |messages| > MESSAGE_HISTORY_LIMIT
        invariant Compacted(messages) == Compacted(old(messages))
        decreases |messages|
      {
        var removed := RemoveOldestMessageGroup(None);
        if !removed {
          break;
        }
      }
    }
  }
}
