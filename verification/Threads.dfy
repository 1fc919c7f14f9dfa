/** Threads and messages: app/threads/service.py, and the branch walk of app/threads/pdf.py. */
module Threads {
  import opened Wrappers

  type ThreadId = int

  datatype Thread = Thread(owner: string, title: Option<string>, status: string, head: Option<string>,
                           updatedAt: int, deletedAt: Option<int>)

  datatype Message = Message(id: string, thread: ThreadId, parent: Option<string>, format: string, content: string)

  datatype Store = Store(threads: map<ThreadId, Thread>, messages: map<string, Message>)

  /** A request; `thread` is None when the id in the URL is not a UUID. */
  datatype Op =
    | CreateThread(user: string, id: ThreadId, now: int)
    | UpdateThread(user: string, thread: Option<ThreadId>, title: Option<string>, status: Option<string>, now: int)
    | DeleteThread(user: string, thread: Option<ThreadId>, now: int)
    | UpsertMessage(user: string, thread: Option<ThreadId>, message: string, parent: Option<string>, format: string,
                    content: string, head: bool, now: int)
    | DeleteMessages(user: string, thread: Option<ThreadId>, ids: seq<string>, now: int)

  // ---- What each request does ----

  /** `_get_thread_or_404`: the thread exists, belongs to the user, and is not deleted. */
  predicate MayUse(st: Store, user: string, thread: Option<ThreadId>) {
    && thread.Some? && thread.value in st.threads && st.threads[thread.value].owner == user
    && st.threads[thread.value].deletedAt.None?
  }

  predicate Succeeds(st: Store, op: Op) {
    match op
    case CreateThread(_, _, _) => true
    case UpsertMessage(user, thread, message, _, _, _, _, _) =>
      MayUse(st, user, thread) && (message in st.messages ==> st.messages[message].thread == thread.value)
    case _ => MayUse(st, op.user, op.thread)
  }

  /** `onupdate` of `threads.updated_at`: a row that is written is refreshed, and one without a change is not written. */
  function Refreshed(t: Thread, t': Thread, now: int): Thread {
    if t' == t then t else t'.(updatedAt := now)
  }

  /** The store after a request; a request that is answered 404 changes nothing. */
  function Apply(st: Store, op: Op): Store {
    if !Succeeds(st, op) then st else
      match op
      case CreateThread(user, id, now) => st.(threads := st.threads[id := Thread(user, None, "regular", None, now, None)])
      case UpdateThread(_, thread, title, status, now) =>
        var t := st.threads[thread.value];
        var t' := t.(title := if title.Some? then title else t.title, status := if status.Some? then status.value else t.status);
        st.(threads := st.threads[thread.value := Refreshed(t, t', now)])
      case DeleteThread(_, thread, now) =>
        st.(threads := st.threads[thread.value := st.threads[thread.value].(deletedAt := Some(now), updatedAt := now)])
      case UpsertMessage(_, thread, message, parent, format, content, head, now) =>
        var t := st.threads[thread.value].(updatedAt := now);
        var m := if message in st.messages then st.messages[message].(parent := parent, format := format, content := content)
                 else Message(message, thread.value, parent, format, content);
        Store(st.threads[thread.value := if head then t.(head := Some(message)) else t], st.messages[message := m])
      case DeleteMessages(_, thread, ids, now) =>
        var t := st.threads[thread.value];
        var gone := set m | m in st.messages && st.messages[m].thread == thread.value && m in ids;
        Store(st.threads[thread.value := if t.head.Some? && t.head.value in ids then t.(head := None, updatedAt := now) else t],
              st.messages - gone)
  }

  class ThreadService {
    var threads: map<ThreadId, Thread>
    var messages: map<string, Message>

    function View(): Store
      reads this
    {
      Store(threads, messages)
    }

    constructor ()
      ensures View() == Store(map[], map[])
    {
      threads, messages := map[], map[];
    }

    /** `uuid4` gives an id that is not in use. */
    method Create(user: string, id: ThreadId, now: int)
      requires id !in threads
      modifies this
      ensures View() == Apply(old(View()), CreateThread(user, id, now))
      ensures threads == old(threads)[id := Thread(user, None, "regular", None, now, None)] && messages == old(messages)
    {
      threads := threads[id := Thread(user, None, "regular", None, now, None)];
    }

    /** `_get_thread_or_404`; None is the 404. */
    method GetThread(user: string, thread: Option<ThreadId>) returns (r: Option<Thread>)
      ensures r.Some? <==> thread.Some? && thread.value in threads && threads[thread.value].owner == user
                           && threads[thread.value].deletedAt.None?
      ensures r.Some? ==> r.value == threads[thread.value]
    {
      if thread.None? || thread.value !in threads {
        return None;
      }
      var t := threads[thread.value];
      return if t.owner == user && t.deletedAt.None? then Some(t) else None;
    }

    /** Writes a row that differs from what it was, `t`. */
    method Flush(id: ThreadId, t: Thread, now: int)
      requires id in threads
      modifies this
      ensures View() == old(View()).(threads := old(threads)[id := Refreshed(t, old(threads)[id], now)])
    {
      if threads[id] != t {
        threads := threads[id := threads[id].(updatedAt := now)];
      } else {
        assert threads == threads[id := threads[id]];
      }
    }

    method Update(user: string, thread: Option<ThreadId>, title: Option<string>, status: Option<string>, now: int)
      returns (ok: bool)
      modifies this
      ensures View() == Apply(old(View()), UpdateThread(user, thread, title, status, now))
      ensures ok == MayUse(old(View()), user, thread) && messages == old(messages)
      ensures ok ==> thread.value in threads && threads - {thread.value} == old(threads) - {thread.value}
                     && var t, was := threads[thread.value], old(threads)[thread.value];
                        && (title.Some? ==> t.title == title) && (title.None? ==> t.title == was.title)
                        && t.status == (if status.Some? then status.value else was.status)
                        && t.updatedAt == (if t.title == was.title && t.status == was.status then was.updatedAt else now)
                        && t.head == was.head && t.owner == was.owner && t.deletedAt == was.deletedAt
    {
      var t := GetThread(user, thread);
      if t.None? {
        return false;
      }
      if title.Some? {
        threads := threads[thread.value := threads[thread.value].(title := title)];
      }
      if status.Some? {
        threads := threads[thread.value := threads[thread.value].(status := status.value)];
      }
      Flush(thread.value, t.value, now);
      assert threads == old(threads)[thread.value := threads[thread.value]];
      return true;
    }

    method Delete(user: string, thread: Option<ThreadId>, now: int) returns (ok: bool)
      modifies this
      ensures View() == Apply(old(View()), DeleteThread(user, thread, now))
      ensures ok == MayUse(old(View()), user, thread) && messages == old(messages)
      ensures ok ==> threads == old(threads)[thread.value := old(threads)[thread.value].(deletedAt := Some(now), updatedAt := now)]
    {
      var t := GetThread(user, thread);
      if t.None? {
        return false;
      }
      threads := threads[thread.value := t.value.(deletedAt := Some(now))];
      Flush(thread.value, t.value, now);
      return true;
    }

    method Upsert(user: string, thread: Option<ThreadId>, id: string, parent: Option<string>, format: string, content: string,
                  head: bool, now: int) returns (ok: bool)
      modifies this
      ensures View() == Apply(old(View()), UpsertMessage(user, thread, id, parent, format, content, head, now))
      ensures ok <==> MayUse(old(View()), user, thread) && (id in old(messages) ==> old(messages)[id].thread == thread.value)
      ensures ok ==> id in messages && messages[id].thread == thread.value && messages[id].parent == parent
                     && messages[id].format == format && messages[id].content == content
                     && messages - {id} == old(messages) - {id}
      ensures ok ==> threads == old(threads)[thread.value :=
                                  old(threads)[thread.value].(head := if head then Some(id) else old(threads)[thread.value].head, updatedAt := now)]
    {
      var t := GetThread(user, thread);
      if t.None? {
        return false;
      }
      if id in messages && messages[id].thread != thread.value {
        return false;
      }
      if id in messages {
        messages := messages[id := messages[id].(parent := parent, format := format, content := content)];
      } else {
        messages := messages[id := Message(id, thread.value, parent, format, content)];
      }
      if head {
        threads := threads[thread.value := threads[thread.value].(head := Some(id))];
      }
      threads := threads[thread.value := threads[thread.value].(updatedAt := now)];
      assert threads == old(threads)[thread.value := threads[thread.value]];
      return true;
    }

    method Remove(user: string, thread: Option<ThreadId>, ids: seq<string>, now: int) returns (ok: bool)
      modifies this
      ensures View() == Apply(old(View()), DeleteMessages(user, thread, ids, now))
      ensures ok == MayUse(old(View()), user, thread)
      ensures ok ==> messages == map m | m in old(messages) && !(old(messages)[m].thread == thread.value && m in ids) :: old(messages)[m]
      ensures ok ==> thread.value in threads && threads - {thread.value} == old(threads) - {thread.value}
                     && var t := old(threads)[thread.value];
                        threads[thread.value] == if t.head.Some? && t.head.value in ids then t.(head := None, updatedAt := now) else t
    {
      var t := GetThread(user, thread);
      if t.None? {
        return false;
      }
      if ids == [] {
        assert threads == threads[thread.value := threads[thread.value]];
        return true;
      }
      messages := messages - (set m | m in messages && messages[m].thread == thread.value && m in ids);
      if t.value.head.Some? && t.value.head.value in ids {
        threads := threads[thread.value := t.value.(head := None)];
        Flush(thread.value, t.value, now);
      }
      assert threads == old(threads)[thread.value := threads[thread.value]];
      return true;
    }
  }

  // ---- What every run keeps ----

  ghost predicate HeadsInside(st: Store) {
    forall t :: t in st.threads && st.threads[t].head.Some? ==>
      st.threads[t].head.value in st.messages && st.messages[st.threads[t].head.value].thread == t
  }

  /** A thread's head is null or one of its own messages, and messages belong to existing threads under their own id. */
  ghost predicate Consistent(st: Store) {
    && HeadsInside(st)
    && (forall m :: m in st.messages ==> st.messages[m].thread in st.threads && st.messages[m].id == m)
  }

  /** Nothing of anyone but `user` differs, and no message has moved between threads. */
  ghost predicate OthersUntouched(st: Store, st': Store, user: string) {
    && (forall t :: t in st.threads && st.threads[t].owner != user ==> t in st'.threads && st'.threads[t] == st.threads[t])
    && (forall t :: t in st'.threads && st'.threads[t].owner != user ==> t in st.threads)
    && (forall m :: m in st.messages && Owner(st, m) != user ==> m in st'.messages && st'.messages[m] == st.messages[m])
    && (forall m :: m in st'.messages && Owner(st', m) != user ==> m in st.messages && st'.messages[m] == st.messages[m])
    && (forall m :: m in st.messages && m in st'.messages ==> st'.messages[m].thread == st.messages[m].thread)
  }

  ghost function Owner(st: Store, m: string): string
    requires m in st.messages
  {
    if st.messages[m].thread in st.threads then st.threads[st.messages[m].thread].owner else ""
  }

  /** A fresh thread id is not in use. */
  predicate FreshIds(st: Store, op: Op) {
    op.CreateThread? ==> op.id !in st.threads
  }

  ghost predicate SameOwners(st: Store, st': Store, user: string) {
    && (forall t :: t in st.threads ==> t in st'.threads && st'.threads[t].owner == st.threads[t].owner)
    && (forall t :: t in st.threads && st.threads[t].owner != user ==> st'.threads[t] == st.threads[t])
    && (forall t :: t in st'.threads && t !in st.threads ==> st'.threads[t].owner == user && st'.threads[t].head.None?)
  }

  ghost predicate SameMessages(st: Store, st': Store, user: string) {
    && (forall m :: m in st.messages && Owner(st, m) != user ==> m in st'.messages && st'.messages[m] == st.messages[m])
    && (forall m :: m in st.messages && m in st'.messages ==> st'.messages[m].thread == st.messages[m].thread)
    && (forall m :: m in st'.messages ==> st'.messages[m].id == m)
    && (forall m :: m in st'.messages && m !in st.messages ==>
          st'.messages[m].thread in st.threads && st.threads[st'.messages[m].thread].owner == user)
  }

  lemma OwnersKept(st: Store, op: Op)
    requires FreshIds(st, op)
    ensures SameOwners(st, Apply(st, op), op.user)
  {
    match op
    case CreateThread(_, _, _) =>
    case UpdateThread(_, _, _, _, _) =>
    case DeleteThread(_, _, _) =>
    case UpsertMessage(_, _, _, _, _, _, _, _) =>
    case DeleteMessages(_, _, _, _) =>
  }

  /** A request changes only messages of a live thread of its user, and leaves the ones that survive in their thread. */
  lemma MessagesKept(st: Store, op: Op)
    requires Consistent(st)
    ensures SameMessages(st, Apply(st, op), op.user)
  {
    match op
    case CreateThread(_, _, _) =>
    case UpdateThread(_, _, _, _, _) =>
    case DeleteThread(_, _, _) =>
    case UpsertMessage(_, _, _, _, _, _, _, _) =>
    case DeleteMessages(_, _, _, _) =>
  }

  lemma HeadsKept(st: Store, op: Op)
    requires Consistent(st) && FreshIds(st, op)
    ensures HeadsInside(Apply(st, op))
  {
    match op
    case CreateThread(_, _, _) =>
    case UpdateThread(_, _, _, _, _) =>
    case DeleteThread(_, _, _) =>
    case UpsertMessage(_, _, _, _, _, _, _, _) =>
    case DeleteMessages(_, _, _, _) =>
  }

  lemma KeptTogether(st: Store, st': Store, user: string)
    requires Consistent(st) && SameOwners(st, st', user) && SameMessages(st, st', user) && HeadsInside(st')
    ensures Consistent(st') && OthersUntouched(st, st', user)
  {
    assert forall m :: m in st'.messages ==> st'.messages[m].thread in st'.threads;
  }

  lemma StepKeeps(st: Store, op: Op)
    requires Consistent(st) && FreshIds(st, op)
    ensures Consistent(Apply(st, op)) && OthersUntouched(st, Apply(st, op), op.user)
  {
    OwnersKept(st, op);
    MessagesKept(st, op);
    HeadsKept(st, op);
    KeptTogether(st, Apply(st, op), op.user);
  }

  function ApplyAll(st: Store, ops: seq<Op>): Store {
    if ops == [] then st else Apply(ApplyAll(st, ops[..|ops| - 1]), ops[|ops| - 1])
  }

  ghost predicate AllFresh(st: Store, ops: seq<Op>) {
    forall i :: 0 <= i < |ops| ==> FreshIds(ApplyAll(st, ops[..i]), ops[i])
  }

  lemma AllFreshPrefix(st: Store, ops: seq<Op>)
    requires ops != [] && AllFresh(st, ops)
    ensures AllFresh(st, ops[..|ops| - 1]) && FreshIds(ApplyAll(st, ops[..|ops| - 1]), ops[|ops| - 1])
  {
    var front := ops[..|ops| - 1];
    forall i | 0 <= i < |front| ensures FreshIds(ApplyAll(st, front[..i]), front[i]) {
      assert front[..i] == ops[..i];
    }
  }

  /** Over any run from an empty store, heads stay inside their threads. */
  lemma {:induction false} RunKeeps(ops: seq<Op>)
    requires AllFresh(Store(map[], map[]), ops)
    ensures Consistent(ApplyAll(Store(map[], map[]), ops))
  {
    if ops != [] {
      AllFreshPrefix(Store(map[], map[]), ops);
      RunKeeps(ops[..|ops| - 1]);
      StepKeeps(ApplyAll(Store(map[], map[]), ops[..|ops| - 1]), ops[|ops| - 1]);
    }
  }

  // ---- Runs remember ----

  /** The request writes the message: a new one, or one of the same thread. */
  predicate WritesMessage(st: Store, op: Op, m: string) {
    && op.UpsertMessage? && op.message == m && MayUse(st, op.user, op.thread)
    && (m in st.messages ==> st.messages[m].thread == op.thread.value)
  }

  predicate RemovesMessage(st: Store, op: Op, m: string) {
    && op.DeleteMessages? && m in op.ids && MayUse(st, op.user, op.thread)
    && m in st.messages && st.messages[m].thread == op.thread.value
  }

  /** Request `i` wrote the message, and none after it wrote or removed it. */
  ghost predicate LastWrite(ops: seq<Op>, m: string, i: nat) {
    && i < |ops| && WritesMessage(ApplyAll(Store(map[], map[]), ops[..i]), ops[i], m)
    && forall j :: i < j < |ops| ==>
         var st := ApplyAll(Store(map[], map[]), ops[..j]); !WritesMessage(st, ops[j], m) && !RemovesMessage(st, ops[j], m)
  }

  /** The message holds what the request says. */
  predicate Holds(m: Message, op: Op)
    requires op.UpsertMessage?
  {
    Some(m.thread) == op.thread && m.parent == op.parent && m.format == op.format && m.content == op.content
  }

  lemma StepWrites(st: Store, op: Op, m: string)
    ensures var st' := Apply(st, op);
      if WritesMessage(st, op, m) then m in st'.messages && Holds(st'.messages[m], op)
      else if RemovesMessage(st, op, m) then m !in st'.messages
      else (m in st'.messages <==> m in st.messages) && (m in st.messages ==> st'.messages[m] == st.messages[m])
  {
  }

  lemma LastWriteBefore(ops: seq<Op>, m: string, i: nat)
    requires ops != [] && i < |ops| - 1
    requires var st := ApplyAll(Store(map[], map[]), ops[..|ops| - 1]);
      !WritesMessage(st, ops[|ops| - 1], m) && !RemovesMessage(st, ops[|ops| - 1], m)
    ensures LastWrite(ops, m, i) <==> LastWrite(ops[..|ops| - 1], m, i)
  {
    var n := |ops| - 1;
    assert forall j :: 0 <= j <= n ==> ops[..n][..j] == ops[..j];
    if LastWrite(ops[..n], m, i) {
      forall j | i < j < |ops|
        ensures var st := ApplyAll(Store(map[], map[]), ops[..j]); !WritesMessage(st, ops[j], m) && !RemovesMessage(st, ops[j], m)
      {
        assert j < n ==> ops[..n][j] == ops[j];
      }
    }
    if LastWrite(ops, m, i) {
      forall j | i < j < n
        ensures var st := ApplyAll(Store(map[], map[]), ops[..n][..j]);
          !WritesMessage(st, ops[..n][j], m) && !RemovesMessage(st, ops[..n][j], m)
      {
        assert ops[..n][j] == ops[j];
      }
    }
  }

  /** After any run, the messages are those that were written and not removed since, and each holds what its last writer said. */
  lemma {:induction false} LastWriteWins(ops: seq<Op>, m: string)
    ensures var messages := ApplyAll(Store(map[], map[]), ops).messages;
      && (m in messages <==> exists i: nat :: LastWrite(ops, m, i))
      && (forall i: nat :: LastWrite(ops, m, i) ==> m in messages && Holds(messages[m], ops[i]))
  {
    if ops != [] {
      var n := |ops| - 1;
      var st, op := ApplyAll(Store(map[], map[]), ops[..n]), ops[n];
      LastWriteWins(ops[..n], m);
      StepWrites(st, op, m);
      if WritesMessage(st, op, m) {
        assert LastWrite(ops, m, n);
      } else if !RemovesMessage(st, op, m) {
        forall i | 0 <= i < n ensures LastWrite(ops, m, i) <==> LastWrite(ops[..n], m, i) {
          LastWriteBefore(ops, m, i);
        }
      }
    }
  }

  /** Once deleted, a thread never changes again, whoever asks. */
  lemma {:induction false} DeletedStays(st: Store, ops: seq<Op>, t: ThreadId)
    requires AllFresh(st, ops) && t in st.threads && st.threads[t].deletedAt.Some?
    ensures t in ApplyAll(st, ops).threads && ApplyAll(st, ops).threads[t] == st.threads[t]
  {
    if ops != [] {
      AllFreshPrefix(st, ops);
      DeletedStays(st, ops[..|ops| - 1], t);
    }
  }

  /** What a user owns: threads, and the messages in them. */
  ghost function OwnedThreads(st: Store, user: string): map<ThreadId, Thread> {
    map t | t in st.threads && st.threads[t].owner == user :: st.threads[t]
  }

  ghost function OwnedMessages(st: Store, user: string): map<string, Message> {
    map m | m in st.messages && Owner(st, m) == user :: st.messages[m]
  }

  /** No run of other users' requests changes what a user owns. */
  lemma {:induction false} RunIsolated(st: Store, ops: seq<Op>, user: string)
    requires Consistent(st) && AllFresh(st, ops) && forall i :: 0 <= i < |ops| ==> ops[i].user != user
    ensures Consistent(ApplyAll(st, ops))
    ensures OwnedThreads(ApplyAll(st, ops), user) == OwnedThreads(st, user)
    ensures OwnedMessages(ApplyAll(st, ops), user) == OwnedMessages(st, user)
  {
    if ops != [] {
      var front, op := ops[..|ops| - 1], ops[|ops| - 1];
      AllFreshPrefix(st, ops);
      RunIsolated(st, front, user);
      StepIsolated(ApplyAll(st, front), op, user);
    }
  }

  lemma StepIsolated(st: Store, op: Op, user: string)
    requires Consistent(st) && FreshIds(st, op) && op.user != user
    ensures Consistent(Apply(st, op))
    ensures OwnedThreads(Apply(st, op), user) == OwnedThreads(st, user)
    ensures OwnedMessages(Apply(st, op), user) == OwnedMessages(st, user)
  {
    StepKeeps(st, op);
    OwnersKept(st, op);
    SameOwned(st, Apply(st, op), op.user, user);
  }

  lemma SameOwned(st: Store, st': Store, actor: string, user: string)
    requires Consistent(st) && Consistent(st') && OthersUntouched(st, st', actor) && actor != user
    requires forall t :: t in st.threads ==> t in st'.threads && st'.threads[t].owner == st.threads[t].owner
    ensures OwnedThreads(st', user) == OwnedThreads(st, user)
    ensures OwnedMessages(st', user) == OwnedMessages(st, user)
  {
    forall m ensures m in OwnedMessages(st', user) <==> m in OwnedMessages(st, user) {
      assert m in st.messages && Owner(st, m) == user ==> m in st'.messages && st'.messages[m] == st.messages[m];
      assert m in st'.messages && Owner(st', m) == user ==> m in st.messages && st'.messages[m] == st.messages[m];
    }
    forall t ensures t in OwnedThreads(st', user) <==> t in OwnedThreads(st, user) {
      assert t in st.threads && st.threads[t].owner == user ==> st'.threads[t] == st.threads[t];
      assert t in st'.threads && st'.threads[t].owner == user ==> t in st.threads;
    }
    forall t | t in OwnedThreads(st, user) ensures OwnedThreads(st', user)[t] == OwnedThreads(st, user)[t] {
      assert st.threads[t].owner == user;
    }
    assert OwnedThreads(st', user) == OwnedThreads(st, user);
  }

  // ---- The active branch ----

  /** `{m.id: m for m in messages}`. */
  function ById(messages: seq<Message>): map<string, Message> {
    if messages == [] then map[] else
      ById(messages[..|messages| - 1])[messages[|messages| - 1].id := messages[|messages| - 1]]
  }

  lemma {:induction false} ByIdKeys(messages: seq<Message>)
    ensures forall k :: k in ById(messages) ==> ById(messages)[k] in messages && ById(messages)[k].id == k
    ensures forall m :: m in messages ==> m.id in ById(messages)
  {
    if messages != [] {
      var front := messages[..|messages| - 1];
      ByIdKeys(front);
      assert messages == front + [messages[|messages| - 1]];
    }
  }

  /** A duplicate-free chain of messages, each the parent of the next, that ends at the head and starts at a message whose parent
      is null, missing, or already in the chain. */
  ghost predicate IsBranch(byId: map<string, Message>, head: string, chain: seq<Message>) {
    && chain != [] && chain[|chain| - 1].id == head
    && (forall k :: 0 <= k < |chain| ==> chain[k].id in byId && byId[chain[k].id] == chain[k])
    && (forall a, b :: 0 <= a < b < |chain| ==> chain[a].id != chain[b].id)
    && (forall k :: 0 <= k < |chain| - 1 ==> chain[k + 1].parent == Some(chain[k].id))
    && (chain[0].parent.Some? ==> chain[0].parent.value !in byId || exists k :: 0 <= k < |chain| && chain[k].id == chain[0].parent.value)
  }

  predicate Usable(head: Option<string>, byId: map<string, Message>) {
    head.Some? && head.value != "" && head.value in byId
  }

  /** `active_branch`: terminates even when parents form a cycle. Without a usable head all messages come back. */
  method ActiveBranch(head: Option<string>, messages: seq<Message>) returns (branch: seq<Message>)
    ensures if Usable(head, ById(messages)) then IsBranch(ById(messages), head.value, branch) else branch == messages
  {
    if head.None? || head.value == "" {
      return messages;
    }
    var byId := ById(messages);
    if head.value !in byId {
      return messages;
    }
    ByIdKeys(messages);
    var chain: seq<Message>, seen: set<string>, cursor := [], {}, head;
    while cursor.Some? && cursor.value in byId && cursor.value !in seen
      invariant seen <= byId.Keys && seen == Ids(chain)
      invariant IsWalk(byId, head.value, chain, cursor)
      decreases byId.Keys - seen
    {
      seen := seen + {cursor.value};
      var message := byId[cursor.value];
      WalkStep(byId, head.value, chain, message);
      chain := chain + [message];
      cursor := message.parent;
    }
    WalkIsBranch(byId, head.value, chain, cursor);
    branch := Reversed(chain);
  }

  ghost function Ids(messages: seq<Message>): set<string> {
    set m | m in messages :: m.id
  }

  lemma IdAt(messages: seq<Message>, k: nat)
    requires k < |messages|
    ensures messages[k].id in Ids(messages)
  {
    assert messages[k] in messages;
  }

  /** The messages collected on the way from the head to the cursor, the head first. */
  ghost predicate IsWalk(byId: map<string, Message>, head: string, chain: seq<Message>, cursor: Option<string>) {
    && (forall k :: 0 <= k < |chain| ==> chain[k].id in byId && byId[chain[k].id] == chain[k])
    && (forall a, b :: 0 <= a < b < |chain| ==> chain[a].id != chain[b].id)
    && (forall k :: 0 <= k < |chain| - 1 ==> chain[k].parent == Some(chain[k + 1].id))
    && (if chain == [] then cursor == Some(head) else chain[0].id == head && chain[|chain| - 1].parent == cursor)
  }

  lemma WalkStep(byId: map<string, Message>, head: string, chain: seq<Message>, message: Message)
    requires IsWalk(byId, head, chain, Some(message.id)) && message.id !in Ids(chain)
    requires message.id in byId && byId[message.id] == message
    ensures IsWalk(byId, head, chain + [message], message.parent)
    ensures Ids(chain + [message]) == Ids(chain) + {message.id}
  {
    forall k | 0 <= k < |chain| ensures chain[k].id != message.id {
      IdAt(chain, k);
    }
    assert forall m :: m in chain + [message] <==> m in chain || m == message;
  }

  lemma WalkIsBranch(byId: map<string, Message>, head: string, chain: seq<Message>, cursor: Option<string>)
    requires IsWalk(byId, head, chain, cursor) && chain != []
    requires cursor.Some? ==> cursor.value !in byId || cursor.value in Ids(chain)
    ensures IsBranch(byId, head, Reversed(chain))
  {
    var branch := Reversed(chain);
    forall k | 0 <= k < |branch| - 1 ensures branch[k + 1].parent == Some(branch[k].id) {
      assert chain[|chain| - 2 - k].parent == Some(chain[|chain| - 2 - k + 1].id);
    }
    if cursor.Some? && cursor.value in byId {
      var m :| m in chain && m.id == cursor.value;
      var k :| 0 <= k < |chain| && chain[k] == m;
      assert branch[|chain| - 1 - k].id == cursor.value;
    }
  }

  function Reversed<T>(s: seq<T>): (r: seq<T>)
    ensures |r| == |s| && forall k :: 0 <= k < |s| ==> r[k] == s[|s| - 1 - k]
  {
    if s == [] then [] else Reversed(s[1..]) + [s[0]]
  }

  function FromHead(chain: seq<Message>, k: nat): Message
    requires k < |chain|
  {
    chain[|chain| - 1 - k]
  }

  /** The chain is determined by the messages and the head. */
  lemma BranchUnique(byId: map<string, Message>, head: string, a: seq<Message>, b: seq<Message>)
    requires IsBranch(byId, head, a) && IsBranch(byId, head, b)
    ensures a == b
  {
    if |a| < |b| {
      BranchNoLonger(byId, head, a, b);
    } else if |b| < |a| {
      BranchNoLonger(byId, head, b, a);
    } else {
      forall k | 0 <= k < |a| ensures a[k] == b[k] {
        BranchAgree(byId, head, a, b, |a| - 1 - k);
        assert FromHead(a, |a| - 1 - k) == a[k] && FromHead(b, |a| - 1 - k) == b[k];
      }
    }
  }

  /** Read from the head, two chains agree as far as both go. */
  lemma {:induction false} BranchAgree(byId: map<string, Message>, head: string, a: seq<Message>, b: seq<Message>, k: nat)
    requires IsBranch(byId, head, a) && IsBranch(byId, head, b) && k < |a| && k < |b|
    ensures FromHead(a, k) == FromHead(b, k)
  {
    if k > 0 {
      BranchAgree(byId, head, a, b, k - 1);
      var i, j := |a| - 1 - k, |b| - 1 - k;
      assert a[i + 1] == FromHead(a, k - 1) && b[j + 1] == FromHead(b, k - 1);
      assert a[i + 1].parent == Some(a[i].id) && b[j + 1].parent == Some(b[j].id);
    }
  }

  lemma BranchNoLonger(byId: map<string, Message>, head: string, a: seq<Message>, b: seq<Message>)
    requires IsBranch(byId, head, a) && IsBranch(byId, head, b)
    ensures |b| <= |a|
  {
    if |a| < |b| {
      var d := |b| - |a|;
      BranchAgree(byId, head, a, b, |a| - 1);
      assert a[0] == b[d];
      assert b[d - 1 + 1].parent == Some(b[d - 1].id) && b[d - 1].id in byId;
      var k :| 0 <= k < |a| && a[k].id == b[d - 1].id;
      BranchAgree(byId, head, a, b, |a| - 1 - k);
      assert false;
    }
  }

  /** In a consistent store a head is usable on the thread's own messages unless its id is empty, which the API accepts. */
  lemma HeadIsUsable(st: Store, t: ThreadId, messages: seq<Message>)
    requires Consistent(st) && t in st.threads && st.threads[t].head.Some?
    requires forall m :: m in messages <==> m.id in st.messages && st.messages[m.id] == m && m.thread == t
    ensures Usable(st.threads[t].head, ById(messages)) <==> st.threads[t].head.value != ""
  {
    ByIdKeys(messages);
    var head := st.threads[t].head.value;
    assert st.messages[head].id == head && st.messages[head] in messages;
  }
}
