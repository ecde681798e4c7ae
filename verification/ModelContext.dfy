/** What the model is shown of a conversation: a summarised context and the messages behind it. */
module ModelContext {
  import opened Wrappers
  import opened Messages
  import opened Compaction
  import opened StoreModel

  const COMPACT_RETAIN_TURNS := 2

  // ---------- The context ----------

  /** `rposition` of a message ID, searched downwards from a position. */
  function LastBefore(messages: seq<Message>, n: nat, id: string): (r: Option<nat>)
    requires n <= |messages|
    ensures r.Some? ==> r.value < n
  {
    if n == 0 then None else if messages[n - 1].id == id then Some(n - 1) else LastBefore(messages, n - 1, id)
  }

  function LastIndexOf(messages: seq<Message>, id: string): (r: Option<nat>)
    ensures r.Some? ==> r.value < |messages|
  {
    LastBefore(messages, |messages|, id)
  }

  function ContextOf(s: Session): seq<Message> {
    if s.compactedContext.None? || s.compactedThrough.None? then s.messages
    else
      var index := LastIndexOf(s.messages, s.compactedThrough.value);
      if index.None? then s.messages else s.compactedContext.value + s.messages[index.value + 1..]
  }

  lemma {:induction false} LastBeforeMeaning(messages: seq<Message>, n: nat, id: string)
    requires n <= |messages|
    ensures var r := LastBefore(messages, n, id);
            if r.None? then forall k :: 0 <= k < n ==> messages[k].id != id
            else messages[r.value].id == id && forall k :: r.value < k < n ==> messages[k].id != id
  {
    if n > 0 { LastBeforeMeaning(messages, n - 1, id); }
  }

  /** It is the only position with the ID behind which the ID does not come again. */
  lemma LastIndexIs(messages: seq<Message>, id: string, i: nat)
    requires i < |messages|
    ensures LastIndexOf(messages, id) == Some(i) <==> messages[i].id == id && forall k :: i < k < |messages| ==> messages[k].id != id
  {
    LastBeforeMeaning(messages, |messages|, id);
  }

  /** Without a context, or when no message has the ID it reaches up to, the model sees the history; else the
      context and what is behind the last message with that ID. */
  lemma ContextMeaning(s: Session)
    ensures s.compactedContext.None? || s.compactedThrough.None? ==> ContextOf(s) == s.messages
    ensures s.compactedContext.Some? && s.compactedThrough.Some? ==>
      var id := s.compactedThrough.value;
      && ((forall k :: 0 <= k < |s.messages| ==> s.messages[k].id != id) ==> ContextOf(s) == s.messages)
      && forall i :: 0 <= i < |s.messages| && s.messages[i].id == id && (forall k :: i < k < |s.messages| ==> s.messages[k].id != id) ==>
           ContextOf(s) == s.compactedContext.value + s.messages[i + 1..]
  {
    if s.compactedContext.Some? && s.compactedThrough.Some? {
      LastBeforeMeaning(s.messages, |s.messages|, s.compactedThrough.value);
      forall i | 0 <= i < |s.messages| { LastIndexIs(s.messages, s.compactedThrough.value, i); }
    }
  }

  /** A context that is set is what the model sees, unless there was no message to tie it to. */
  lemma SetContextShown(s: State, id: string, owner: string, context: seq<Message>, now: nat)
    requires Step(s, SetContextReserved(id, owner, context), now).Change?
    ensures var next := Step(s, SetContextReserved(id, owner, context), now).state.sessions[id];
            ContextOf(next) == context <==> s.sessions[id].messages != [] || context == []
  {
    var messages := s.sessions[id].messages;
    if messages != [] {
      LastIndexIs(messages, messages[|messages| - 1].id, |messages| - 1);
    }
  }

  // ---------- The context while the history grows ----------

  /** Compaction that cuts at `cut` leaves message `k`. */
  predicate Stays(all: seq<Message>, cut: nat, k: nat)
    requires k < |all|
  {
    k >= cut || all[k].role == System
  }

  /** The last message with an ID that compaction leaves, searched downwards from a position. */
  function LastKeptBefore(all: seq<Message>, n: nat, id: string, cut: nat): (r: Option<nat>)
    requires n <= |all|
    ensures r.Some? ==> r.value < n
  {
    if n == 0 then None
    else if all[n - 1].id == id && Stays(all, cut, n - 1) then Some(n - 1)
    else LastKeptBefore(all, n - 1, id, cut)
  }

  lemma {:induction false} LastKeptMeaning(all: seq<Message>, n: nat, id: string, cut: nat)
    requires n <= |all|
    ensures var r := LastKeptBefore(all, n, id, cut);
            && (r.Some? ==> all[r.value].id == id && Stays(all, cut, r.value))
            && forall k :: (if r.Some? then r.value + 1 else 0) <= k < n ==> !(all[k].id == id && Stays(all, cut, k))
  {
    if n > 0 { LastKeptMeaning(all, n - 1, id, cut); }
  }

  /** What compaction leaves behind message `j`. */
  function KeptBehind(all: seq<Message>, cut: nat, j: nat): seq<Message>
    requires j < |all| && cut <= |all|
  {
    if j >= cut then all[j + 1..] else Systems(all[j + 1..cut]) + all[cut..]
  }

  lemma {:induction false} SystemsMembers(m: seq<Message>)
    ensures forall x :: x in Systems(m) <==> x in m && x.role == System
  {
    if m != [] {
      SystemsMembers(m[1..]);
      assert m == [m[0]] + m[1..];
    }
  }

  lemma SystemsAround(m: seq<Message>, j: nat)
    requires j < |m| && m[j].role == System
    ensures Systems(m) == Systems(m[..j]) + [m[j]] + Systems(m[j + 1..])
  {
    assert m == m[..j] + m[j..] && m[j..][1..] == m[j + 1..];
    SystemsJoin(m[..j], m[j..]);
  }

  /** A message of the untouched rest: its place in the compacted history. */
  lemma PlaceInRest(all: seq<Message>, cut: nat, id: string, j: nat) returns (at: nat)
    requires cut <= j < |all| && all[j].id == id && forall k :: j < k < |all| ==> all[k].id != id
    ensures LastIndexOf(Kept(all, cut), id) == Some(at) && Kept(all, cut)[at + 1..] == KeptBehind(all, cut, j)
  {
    var front := Systems(all[..cut]);
    var kept := front + all[cut..];
    at := |front| + j - cut;
    assert kept[at] == all[j];
    forall k | at < k < |kept| ensures kept[k].id != id {
      assert kept[k] == all[k - |front| + cut];
    }
    LastIndexIs(kept, id, at);
    assert kept[at + 1..] == all[j + 1..];
  }

  /** A System message of the cut prefix: its place in the compacted history. */
  lemma PlaceInFront(all: seq<Message>, cut: nat, id: string, j: nat) returns (at: nat)
    requires j < cut <= |all| && all[j].id == id && all[j].role == System
    requires forall k :: j < k < |all| ==> !(all[k].id == id && Stays(all, cut, k))
    ensures LastIndexOf(Kept(all, cut), id) == Some(at) && Kept(all, cut)[at + 1..] == KeptBehind(all, cut, j)
  {
    var front := all[..cut];
    SystemsAround(front, j);
    assert front[..j] == all[..j] && front[j + 1..] == all[j + 1..cut];
    at := |Systems(all[..j])|;
    var behind := Systems(all[j + 1..cut]) + all[cut..];
    var kept := Kept(all, cut);
    assert kept == Systems(all[..j]) + [all[j]] + behind;
    NotBehind(all, cut, id, j);
    forall k | at < k < |kept| ensures kept[k].id != id {
      assert kept[k] == behind[k - at - 1];
    }
    LastIndexIs(kept, id, at);
  }

  lemma NotBehind(all: seq<Message>, cut: nat, id: string, j: nat)
    requires j < cut <= |all| && forall k :: j < k < |all| ==> !(all[k].id == id && Stays(all, cut, k))
    ensures forall x :: x in Systems(all[j + 1..cut]) + all[cut..] ==> x.id != id
  {
    SystemsMembers(all[j + 1..cut]);
    forall x | x in all[j + 1..cut] && x.role == System ensures x.id != id {
      var k :| 0 <= k < |all[j + 1..cut]| && all[j + 1..cut][k] == x;
      assert x == all[j + 1 + k];
    }
    forall x | x in all[cut..] ensures x.id != id {
      var k :| 0 <= k < |all[cut..]| && all[cut..][k] == x;
      assert x == all[cut + k];
    }
  }

  lemma NoPlace(all: seq<Message>, cut: nat, id: string)
    requires cut <= |all| && forall k :: 0 <= k < |all| ==> !(all[k].id == id && Stays(all, cut, k))
    ensures LastIndexOf(Kept(all, cut), id).None?
  {
    SystemsMembers(all[..cut]);
    forall x | x in Kept(all, cut) ensures x.id != id {
      if x in all[cut..] {
        var k :| 0 <= k < |all[cut..]| && all[cut..][k] == x;
        assert x == all[cut + k];
      } else {
        var k :| 0 <= k < |all[..cut]| && all[..cut][k] == x;
        assert x == all[k];
      }
    }
    LastBeforeMeaning(Kept(all, cut), |Kept(all, cut)|, id);
  }

  /** The context after a message is appended, for every history. It is followed by what compaction
      leaves behind the last message with the ID it reaches up to; when compaction leaves none, the
      context is given up and the model sees the shortened history alone. */
  lemma ContextAfterAppend(s: Session, message: Message, now: nat) returns (cut: nat)
    requires s.compactedContext.Some? && s.compactedThrough.Some?
    ensures IsCut(s.messages + [message], cut) && Appended(s, message, now).messages == Kept(s.messages + [message], cut)
    ensures var all := s.messages + [message];
            ContextOf(Appended(s, message, now)) ==
              match LastKeptBefore(all, |all|, s.compactedThrough.value, cut)
              case None => Kept(all, cut)
              case Some(j) => s.compactedContext.value + KeptBehind(all, cut, j)
  {
    cut := CompactionMeaning(s.messages + [message]);
    ContextOfKept(s, s.messages + [message], cut, now);
  }

  lemma ContextOfKept(s: Session, all: seq<Message>, cut: nat, now: nat)
    requires s.compactedContext.Some? && s.compactedThrough.Some? && cut <= |all|
    ensures ContextOf(s.(messages := Kept(all, cut), updated := now)) ==
      match LastKeptBefore(all, |all|, s.compactedThrough.value, cut)
      case None => Kept(all, cut)
      case Some(j) => s.compactedContext.value + KeptBehind(all, cut, j)
  {
    var kept, id := Kept(all, cut), s.compactedThrough.value;
    KeptPlace(all, cut, id, kept);
  }

  lemma KeptPlace(all: seq<Message>, cut: nat, id: string, kept: seq<Message>)
    requires cut <= |all| && kept == Kept(all, cut)
    ensures match LastKeptBefore(all, |all|, id, cut)
            case None => LastIndexOf(kept, id).None?
            case Some(j) => LastIndexOf(kept, id).Some? && kept[LastIndexOf(kept, id).value + 1..] == KeptBehind(all, cut, j)
  {
    LastKeptMeaning(all, |all|, id, cut);
    match LastKeptBefore(all, |all|, id, cut) {
      case None => NoPlace(all, cut, id);
      case Some(j) =>
        var at;
        if j >= cut {
          at := PlaceInRest(all, cut, id, j);
        } else {
          at := PlaceInFront(all, cut, id, j);
        }
    }
  }

  /** A context is in use and the last message with the ID it reaches up to is at `i`. */
  predicate ReachesTo(s: Session, i: nat) {
    s.compactedContext.Some? && s.compactedThrough.Some? && LastIndexOf(s.messages, s.compactedThrough.value) == Some(i)
  }

  /** A context grows by the new message exactly as long as compaction does not pass the message it
      reaches up to, where that message is not a System message and its ID its own. */
  lemma ContextLivesOn(s: Session, message: Message, now: nat, i: nat, cut: nat)
    requires ReachesTo(s, i) && cut <= |s.messages| + 1 && message.id != s.compactedThrough.value
    ensures var all := s.messages + [message]; var last := LastKeptBefore(all, |all|, s.compactedThrough.value, cut);
      && (cut <= i ==> last == Some(i) && s.compactedContext.value + KeptBehind(all, cut, i) == ContextOf(s) + [message])
      && (i < cut && s.messages[i].role == System ==> last == Some(i))
      && (i < cut && (forall k :: 0 <= k <= i && s.messages[k].id == s.compactedThrough.value ==> s.messages[k].role != System) ==>
            last.None?)
  {
    var all, id := s.messages + [message], s.compactedThrough.value;
    LastIndexIs(s.messages, id, i);
    LastKeptMeaning(all, |all|, id, cut);
    assert forall k :: 0 <= k < |s.messages| ==> all[k] == s.messages[k];
    assert all[i + 1..] == s.messages[i + 1..] + [message];
  }

  // ---------- Where a context begins ----------

  function Users(messages: seq<Message>): nat {
    if messages == [] then 0 else Users(messages[1..]) + if messages[0].role == User then 1 else 0
  }

  lemma {:induction false} UsersJoin(a: seq<Message>, b: seq<Message>)
    ensures Users(a + b) == Users(a) + Users(b)
  {
    if a == [] {
      assert a + b == b;
    } else {
      assert (a + b)[1..] == a[1..] + b;
      UsersJoin(a[1..], b);
    }
  }

  /** The boundary is the User message that opens the second to last turn; without more turns than
      are retained there is none. */
  method CompactionBoundary(messages: seq<Message>) returns (r: Option<nat>)
    ensures r.Some? <==> Users(messages) > COMPACT_RETAIN_TURNS
    ensures r.Some? ==> r.value < |messages| && messages[r.value].role == User && Users(messages[r.value..]) == COMPACT_RETAIN_TURNS
  {
    var users: seq<nat> := [];
    for i := 0 to |messages|
      invariant |users| == Users(messages[..i])
      invariant forall k :: 0 <= k < |users| ==>
        users[k] < i && messages[users[k]].role == User && Users(messages[..users[k]]) == k
    {
      assert messages[..i + 1] == messages[..i] + [messages[i]];
      UsersJoin(messages[..i], [messages[i]]);
      if messages[i].role == User {
        users := users + [i];
      }
    }
    assert messages[..|messages|] == messages;
    if |users| > COMPACT_RETAIN_TURNS {
      var boundary := users[|users| - COMPACT_RETAIN_TURNS];
      assert messages == messages[..boundary] + messages[boundary..];
      UsersJoin(messages[..boundary], messages[boundary..]);
      r := Some(boundary);
    } else {
      r := None;
    }
  }

  /** A new context is a summary and the retained turns. It leaves no tool result without its call,
      and it is not compacted again before another turn. */
  lemma NewContext(messages: seq<Message>, boundary: nat, summary: Message)
    requires NoOrphans(messages) && boundary < |messages| && messages[boundary].role == User
    requires Users(messages[boundary..]) == COMPACT_RETAIN_TURNS && summary.role == Assistant
    ensures NoOrphans([summary] + messages[boundary..])
    ensures Users([summary] + messages[boundary..]) == COMPACT_RETAIN_TURNS
  {
    var context := [summary] + messages[boundary..];
    assert context[1..] == messages[boundary..];
    forall i | 0 <= i < |context| && context[i].role == Tool ensures InAssistantRun(context, i) {
      assert context[i] == messages[boundary + i - 1];
      RunBehind(messages, context, boundary + i - 1, boundary, 1);
    }
  }
}
