/** RequestName as the daemon performs it, on the registry, the pending activations and the reply licences together (bus/services.c:532-770). */
module RequestObject {
  import opened BusTypes
  import opened OwnerQueues
  import opened NameRegistry
  import opened Transactions
  import opened OwnerIndex
  import RR = RegistryRuns
  import opened RequestNames
  import opened RegistryObject
  import opened ActivationObject
  import opened ReplyObject
  import A = Activations
  import AA = ActivationAnswers
  import R = PendingReplies
  import D = Dispatch
  import TC = TransactionCore

  /** Freeing the hooks drops the references they hold on pending activations. */
  function UnrefHooks(st: A.State, hooks: seq<CancelHook>): A.State
    decreases |hooks|
  {
    if hooks == [] then st
    else UnrefHooks(if A.PendingOf(hooks[0]).Some? then A.Unref(st, A.PendingOf(hooks[0]).value) else st, hooks[1..])
  }

  // ----- whose hooks are whose

  lemma {:induction false} AllOwnerHooks(ix: Index, hooks: seq<CancelHook>, st: A.State)
    requires ix.CanFree(hooks)
    ensures TC.Only(hooks, IsOwnerHook) == hooks && UnrefHooks(st, hooks) == st
    decreases |hooks|
  {
    if hooks != [] {
      AllOwnerHooks(ix.Unref(hooks[0].name, HookConn(hooks[0])), hooks[1..], st);
    }
  }

  /** The licences' hooks concern neither owners nor activations. */
  lemma DoHooks(s: R.InTxn, op: R.Op, max: int, st: A.State)
    ensures TC.Only(R.Do(s, op, max).hooks, IsOwnerHook) == TC.Only(s.hooks, IsOwnerHook)
    ensures UnrefHooks(st, R.Do(s, op, max).hooks) == UnrefHooks(st, s.hooks)
  {
    var s' := R.Do(s, op, max);
    if s'.hooks != s.hooks {
      assert s'.hooks[1..] == s.hooks;
      assert s'.hooks == [s'.hooks[0]] + s.hooks;
      TC.OnlyCons(s'.hooks[0], s.hooks, IsOwnerHook);
    }
  }

  lemma CheckHooks(w: D.World, x: D.Incoming, to: Conn, s: R.InTxn, st: A.State)
    requires x.sender in w.rules && to in w.rules
    ensures var s' := D.Check(w, x, to, s).s;
            TC.Only(s'.hooks, IsOwnerHook) == TC.Only(s.hooks, IsOwnerHook) && UnrefHooks(st, s'.hooks) == UnrefHooks(st, s.hooks)
  {
    D.CheckEnds(w, x, to, s);
    DoHooks(s, D.Consume(x, to), w.maxReplies, st);
    DoHooks(s, D.License(x, to), w.maxReplies, st);
    DoHooks(R.Do(s, D.Consume(x, to), w.maxReplies), D.License(x, to), w.maxReplies, st);
  }

  lemma {:induction false} ForwardHooks(content: int -> D.Incoming, w: D.World, owner: Conn, entries: seq<A.Entry>, connected: set<Conn>,
                                        s: R.InTxn, st: A.State)
    requires AA.PeersKnown(w, owner, entries, connected)
    ensures var s' := AA.Forward(content, w, owner, entries, connected, s).s;
            TC.Only(s'.hooks, IsOwnerHook) == TC.Only(s.hooks, IsOwnerHook) && UnrefHooks(st, s'.hooks) == UnrefHooks(st, s.hooks)
    decreases |entries|
  {
    if entries != [] {
      var e := entries[0];
      if e.conn in connected && e.auto {
        var x := AA.Letter(content, e, owner);
        CheckHooks(w, x, owner, s, st);
        ForwardHooks(content, w, owner, entries[1..], connected, D.Check(w, x, owner, s).s, st);
      } else {
        ForwardHooks(content, w, owner, entries[1..], connected, s, st);
      }
    }
  }

  /** What is sent does not depend on the hooks recorded so far. */
  lemma {:induction false} ForwardIgnoresHooks(content: int -> D.Incoming, w: D.World, owner: Conn, entries: seq<A.Entry>, connected: set<Conn>,
                                               s: R.InTxn, s1: R.InTxn)
    requires AA.PeersKnown(w, owner, entries, connected) && s1.list == s.list && s1.nextId == s.nextId
    ensures var f, f' := AA.Forward(content, w, owner, entries, connected, s), AA.Forward(content, w, owner, entries, connected, s1);
            f'.sent == f.sent && f'.refused == f.refused && f'.s.list == f.s.list && f'.s.nextId == f.s.nextId
    decreases |entries|
  {
    if entries != [] {
      var e := entries[0];
      if e.conn in connected && e.auto {
        var x := AA.Letter(content, e, owner);
        D.CheckIgnoresHooks(w, x, owner, s, s1.hooks);
        assert s1 == s.(hooks := s1.hooks);
        ForwardIgnoresHooks(content, w, owner, entries[1..], connected, D.Check(w, x, owner, s).s, D.Check(w, x, owner, s1).s);
      } else {
        ForwardIgnoresHooks(content, w, owner, entries[1..], connected, s, s1);
      }
    }
  }

  lemma UnrefRecords(st: A.State, id: nat)
    requires A.TableOk(st) && forall k :: k in st.table ==> st.table[k] != id
    ensures A.TableOk(A.Unref(st, id)) && Records(A.Unref(st, id)) == Records(st)
    ensures A.Unref(st, id).heap.Keys <= st.heap.Keys && A.Unref(st, id).nextId == st.nextId
  {
  }

  /** `bus_transaction_execute_and_free`: the signals go out and the hooks are freed, newest first. */
  method ExecuteTransaction(reg: Registry, act: ActivationKeeper, t: Transaction)
    requires reg.Owners().CanFree(TC.Only(t.cancelHooks, IsOwnerHook))
    modifies reg`clients, reg`refs, reg`log, act`heap, act`count, t
    ensures reg.Owners() == old(reg.Owners().Free(TC.Only(t.cancelHooks, IsOwnerHook)))
    ensures reg.log == old(reg.log + t.announced)
    ensures act.View() == UnrefHooks(old(act.View()), old(t.cancelHooks))
  {
    reg.log := reg.log + t.announced;
    while t.cancelHooks != []
      invariant reg.Owners().CanFree(TC.Only(t.cancelHooks, IsOwnerHook))
      invariant reg.Owners().Free(TC.Only(t.cancelHooks, IsOwnerHook)) == old(reg.Owners().Free(TC.Only(t.cancelHooks, IsOwnerHook)))
      invariant reg.log == old(reg.log + t.announced)
      invariant UnrefHooks(act.View(), t.cancelHooks) == UnrefHooks(old(act.View()), old(t.cancelHooks))
      decreases |t.cancelHooks|
    {
      var h := t.cancelHooks[0];
      ghost var rest := TC.Only(t.cancelHooks[1..], IsOwnerHook);
      if IsOwnerHook(h) {
        assert TC.Only(t.cancelHooks, IsOwnerHook) == [h] + rest && ([h] + rest)[1..] == rest;
        reg.UnrefOwner(h.name, HookConn(h));
      } else if h.CancelActivation? || h.RestoreActivation? {
        act.UnrefPending(h.pendingId);
      }
      t.cancelHooks := t.cancelHooks[1..];
    }
  }

  ghost function DaemonOf(reg: Registry, act: ActivationKeeper, connected: set<Conn>): Daemon
    reads reg, act
  {
    Daemon(reg.View(), AA.State(Records(act.View()), reg.services.Keys, connected, map[], []))
  }

  // ----- the activation part of a request, on values

  predicate Waits(st: A.State, n: Name) { n in st.table && st.table[n] in st.heap }

  /** The requests and messages that wait for a name. */
  function EntriesFor(st: A.State, n: Name): seq<A.Entry> { if Waits(st, n) then st.heap[st.table[n]].entries else [] }

  ghost predicate CanForward(st: A.State, n: Name, w: D.World, owner: Conn, connected: set<Conn>) {
    Waits(st, n) ==> AA.PeersKnown(w, owner, EntriesFor(st, n), connected)
  }

  /** What becomes of the messages, if there are any. */
  ghost function Forwarded(st: A.State, n: Name, w: D.World, owner: Conn, connected: set<Conn>, s: R.InTxn, content: int -> D.Incoming): AA.Forwarding
    requires CanForward(st, n, w, owner, connected)
  {
    if Waits(st, n) then AA.Forward(content, w, owner, EntriesFor(st, n), connected, s) else AA.Forwarding([], false, s)
  }

  /** The replies, the messages sent and the licences are those of the forwarding `f`. */
  predicate Answered(f: AA.Forwarding, entries: seq<A.Entry>, isNew: bool, connected: set<Conn>,
                     ok: bool, replied: seq<A.Entry>, sent: seq<A.Entry>, replies: seq<PendingReply>, nextId: nat)
  {
    && ok == !f.refused && sent == f.sent && replies == f.s.list && nextId == f.s.nextId
    && replied == if isNew then AA.Replied(entries, connected) else []
  }

  /** The pending activations while the transaction is open: a finished one is held by its hook only. */
  function Opened(st: A.State, n: Name, ok: bool): A.State { if ok && Waits(st, n) then A.Finish(st, n) else st }

  /** The pending activations when the transaction was executed. */
  function Released(st: A.State, n: Name, ok: bool): A.State {
    if ok && Waits(st, n) then A.Unref(Opened(st, n, ok), st.table[n]) else st
  }

  /** Among the hooks of the open transaction these concern owners; freeing all of them lets go of the finished activation. */
  ghost predicate HooksLeft(st: A.State, n: Name, ok: bool, owners: seq<CancelHook>, hooks: seq<CancelHook>) {
    TC.Only(hooks, IsOwnerHook) == owners && UnrefHooks(Opened(st, n, ok), hooks) == Released(st, n, ok)
  }

  /** The licences do not depend on the hooks recorded so far, and their hooks concern neither owners nor activations. */
  lemma ForwardedHooks(ix: Index, st: A.State, n: Name, w: D.World, owner: Conn, connected: set<Conn>, s: R.InTxn, content: int -> D.Incoming)
    requires A.TableOk(st) && ix.CanFree(s.hooks) && CanForward(st, n, w, owner, connected)
    ensures var f, g := Forwarded(st, n, w, owner, connected, s, content), Forwarded(st, n, w, owner, connected, s.(hooks := []), content);
            f.sent == g.sent && f.refused == g.refused && f.s.list == g.s.list && f.s.nextId == g.s.nextId
    ensures var f := Forwarded(st, n, w, owner, connected, s, content);
            var hooks := if !f.refused && Waits(st, n) then [RestoreActivation(st.table[n])] + f.s.hooks else f.s.hooks;
            HooksLeft(st, n, !f.refused, s.hooks, hooks)
  {
    AllOwnerHooks(ix, s.hooks, st);
    if Waits(st, n) {
      ForwardIgnoresHooks(content, w, owner, EntriesFor(st, n), connected, s.(hooks := []), s);
      AppearHooks(ix, st, n, content, w, owner, connected, s);
    }
  }

  lemma AppearHooks(ix: Index, st: A.State, n: Name, content: int -> D.Incoming, w: D.World, owner: Conn, connected: set<Conn>, s: R.InTxn)
    requires A.TableOk(st) && Waits(st, n) && ix.CanFree(s.hooks) && AA.PeersKnown(w, owner, EntriesFor(st, n), connected)
    ensures var f := AA.Forward(content, w, owner, EntriesFor(st, n), connected, s);
            HooksLeft(st, n, !f.refused, s.hooks, if f.refused then f.s.hooks else [RestoreActivation(st.table[n])] + f.s.hooks)
  {
    var entries, id := EntriesFor(st, n), st.table[n];
    var freed := Released(st, n, true);
    AllOwnerHooks(ix, s.hooks, st);
    AllOwnerHooks(ix, s.hooks, freed);
    ForwardHooks(content, w, owner, entries, connected, s, st);
    ForwardHooks(content, w, owner, entries, connected, s, freed);
    var hooks := AA.Forward(content, w, owner, entries, connected, s).s.hooks;
    TC.OnlyCons(RestoreActivation(id), hooks, IsOwnerHook);
    assert ([RestoreActivation(id)] + hooks)[1..] == hooks;
  }

  /** Freeing the hook that holds a finished activation changes no other. */
  lemma ReleasedRecords(st: A.State, n: Name, ok: bool)
    requires A.TableOk(st)
    ensures var st' := Released(st, n, ok);
            && A.TableOk(st') && Records(st') == (if ok && Waits(st, n) then Records(st) - {n} else Records(st))
            && st'.heap.Keys <= st.heap.Keys && st'.nextId == st.nextId
  {
    if ok && Waits(st, n) {
      var st1 := Opened(st, n, ok);
      FinishRecords(st, n);
      assert forall k :: k in st1.table ==> k != n && st1.table[k] == st.table[k];
      UnrefRecords(st1, st.table[n]);
    }
  }

  // ----- the methods

  /** The replies to those who asked for the service and the messages that waited for it. */
  method AnswerWaiting(act: ActivationKeeper, keeper: ReplyKeeper, t: Transaction, n: Name, isNew: bool, w: D.World, owner: Conn, connected: set<Conn>,
                       content: int -> D.Incoming, ghost ix: Index)
    returns (ok: bool, replied: seq<A.Entry>, sent: seq<A.Entry>)
    requires act.Valid() && R.Sound(keeper.View(t)) && ix.CanFree(t.cancelHooks) && CanForward(act.View(), n, w, owner, connected)
    modifies act, keeper`nextId, keeper.pendingReplies`items, keeper.pendingReplies`timer, t`cancelHooks
    ensures act.View() == Opened(old(act.View()), n, ok)
    ensures Answered(Forwarded(old(act.View()), n, w, owner, connected, R.InTxn(old(keeper.pendingReplies.items), old(keeper.nextId), []), content),
                     EntriesFor(old(act.View()), n), isNew, connected, ok, replied, sent, keeper.pendingReplies.items, keeper.nextId)
    ensures HooksLeft(old(act.View()), n, ok, old(t.cancelHooks), t.cancelHooks)
  {
    ghost var st, s := act.View(), keeper.View(t);
    assert Waits(st, n) <==> n in act.table;
    ForwardedHooks(ix, st, n, w, owner, connected, s, content);
    replied := [];
    if isNew {
      replied := act.ServiceCreated(n, connected);
    }
    ok, sent := act.SendPendingAutoActivationMessages(t, keeper, w, n, owner, connected, content);
    assert act.View() == Opened(st, n, ok);
  }

  /** What an allowed request made of the registry and the pending activations, and whom it answered. */
  ghost predicate Acquired(services: map<Name, Queue>, st: A.State, x: Call, w: D.World, connected: set<Conn>, s: R.InTxn, content: int -> D.Incoming,
                           r: Reply, replied: seq<A.Entry>, sent: seq<A.Entry>, replies: seq<PendingReply>, nextId: nat)
    requires CanForward(st, x.n, w, Recipient(services, x), connected)
  {
    && (r == WaitingRefused || r == Code(Request(QueueOf(services, x.n), x.c, x.f).1))
    && Answered(Forwarded(st, x.n, w, Recipient(services, x), connected, s, content), EntriesFor(st, x.n), x.n !in services, connected,
                r.Code?, replied, sent, replies, nextId)
  }

  /**
   `bus_registry_acquire_service`: the checks, the change of owners with its signals, the replies to those who
   asked for the service, and the messages that waited for it. The last of these may fail when all else is done.
   */
  method AcquireService(reg: Registry, act: ActivationKeeper, keeper: ReplyKeeper, t: Transaction, x: Call, w: D.World, connected: set<Conn>,
                        content: int -> D.Incoming)
    returns (r: Reply, replied: seq<A.Entry>, sent: seq<A.Entry>)
    requires reg.Ready(x.c, x.n) && act.Valid() && R.Sound(keeper.View(t)) && t.cancelHooks == [] && t.announced == []
    requires CanForward(act.View(), x.n, w, Recipient(reg.services, x), connected)
    modifies reg`services, reg`clients, reg`refs, act, keeper`nextId, keeper.pendingReplies`items, keeper.pendingReplies`timer, t`cancelHooks, t`announced
    ensures var e := RR.RequestRefusal(old(reg.clients)[x.c], x.n, x.checks, x.maxServices);
            e.Some? ==>
              && r == Reply.Refused(e.value) && replied == [] && sent == []
              && reg.View() == old(reg.View()) && reg.refs == old(reg.refs) && act.View() == old(act.View())
              && keeper.View(t) == old(keeper.View(t)) && t.announced == []
    ensures RR.RequestRefusal(old(reg.clients)[x.c], x.n, x.checks, x.maxServices).None? ==>
              && Acquired(old(reg.services), old(act.View()), x, w, connected, R.InTxn(old(keeper.pendingReplies.items), old(keeper.nextId), []), content,
                          r, replied, sent, keeper.pendingReplies.items, keeper.nextId)
              && act.View() == Opened(old(act.View()), x.n, r.Code?)
    ensures RR.RequestRefusal(old(reg.clients)[x.c], x.n, x.checks, x.maxServices).None? ==>
              && reg.Changed(old(reg.View()), x.n, QueueAfter(old(reg.services), x), TC.Only(t.cancelHooks, IsOwnerHook), t.announced)
              && UnrefHooks(act.View(), t.cancelHooks) == Released(old(act.View()), x.n, r.Code?)
  {
    var isNew := x.n !in reg.services;
    var owner := Recipient(reg.services, x);
    var outcome := reg.ChangeOwners(t, x.c, x.n, x.f, x.checks, x.maxServices);
    if outcome.Refused? {
      return Reply.Refused(outcome.error), [], [];
    }
    ghost var hooks := t.cancelHooks;
    var ok;
    ok, replied, sent := AnswerWaiting(act, keeper, t, x.n, isNew, w, owner, connected, content, reg.Owners());
    r := if ok then Code(outcome.reply) else WaitingRefused;
    assert TC.Only(t.cancelHooks, IsOwnerHook) == hooks;
  }

  /** Executing commits exactly one change of queue, and lets go of what the hooks hold. */
  method CommitRequest(reg: Registry, act: ActivationKeeper, t: Transaction, ghost st: State, ghost n: Name, ghost q': Queue)
    requires reg.Changed(st, n, q', TC.Only(t.cancelHooks, IsOwnerHook), t.announced)
    modifies reg`clients, reg`refs, reg`log, act`heap, act`count, t
    ensures reg.View() == SetQueue(st, n, q') && AtRest(reg.services, reg.refs)
    ensures act.View() == UnrefHooks(old(act.View()), old(t.cancelHooks))
  {
    ExecuteTransaction(reg, act, t);
  }

  /** One transaction: the request and its execution. */
  method AcquireAndExecute(reg: Registry, act: ActivationKeeper, keeper: ReplyKeeper, t: Transaction, x: Call, w: D.World, connected: set<Conn>, content: int -> D.Incoming)
    returns (r: Reply, replied: seq<A.Entry>, sent: seq<A.Entry>)
    requires reg.Ready(x.c, x.n) && act.Valid() && R.Sound(keeper.View(t)) && t.cancelHooks == [] && t.announced == []
    requires CanForward(act.View(), x.n, w, Recipient(reg.services, x), connected)
    modifies reg, act, keeper`nextId, keeper.pendingReplies`items, keeper.pendingReplies`timer, t
    ensures AtRest(reg.services, reg.refs)
    ensures var e := RR.RequestRefusal(old(reg.clients)[x.c], x.n, x.checks, x.maxServices);
            e.Some? ==>
              && r == Reply.Refused(e.value) && replied == [] && sent == [] && reg.View() == old(reg.View()) && act.View() == old(act.View())
              && keeper.pendingReplies.items == old(keeper.pendingReplies.items) && keeper.nextId == old(keeper.nextId)
    ensures RR.RequestRefusal(old(reg.clients)[x.c], x.n, x.checks, x.maxServices).None? ==>
              && Acquired(old(reg.services), old(act.View()), x, w, connected, R.InTxn(old(keeper.pendingReplies.items), old(keeper.nextId), []), content,
                          r, replied, sent, keeper.pendingReplies.items, keeper.nextId)
              && reg.View() == SetQueue(old(reg.View()), x.n, QueueAfter(old(reg.services), x))
              && act.View() == Released(old(act.View()), x.n, r.Code?)
  {
    ghost var st, q' := reg.View(), QueueAfter(reg.services, x);
    r, replied, sent := AcquireService(reg, act, keeper, t, x, w, connected, content);
    if !r.Refused? {
      CommitRequest(reg, act, t, st, x.n, q');
    }
  }

  /** The licences after a request. */
  ghost function LicensedBy(d: Daemon, x: Call, w: D.World, s: R.InTxn, content: int -> D.Incoming): R.InTxn
    requires Possible(d, x, w)
  {
    var waiting := d.activation.waiting;
    if Refusal(d, x).Some? || x.n !in waiting then s
    else AA.Forward(content, w, PrimaryAfter(d, x), waiting[x.n].entries, d.activation.connected, s).s
  }

  /** What an appearing service means for the requests that wait for it, in terms of the forwarding. */
  lemma AppearAnswers(a: AA.State, st: A.State, n: Name, owner: Conn, w: D.World, s: R.InTxn, content: int -> D.Incoming)
    requires A.TableOk(st) && a.waiting == Records(st) && a.log == [] && CanForward(st, n, w, owner, a.connected)
    ensures n in a.waiting ==> AA.PeersKnown(w, owner, a.waiting[n].entries, a.connected)
    ensures var a', f := AA.DoAppear(a, n, owner, w, s, content), Forwarded(st, n, w, owner, a.connected, s, content);
            var replied := if n in a.active then [] else AA.Replied(EntriesFor(st, n), a.connected);
            && a'.waiting == Records(Released(st, n, !f.refused))
            && a'.log == AA.Answers(replied, AA.Started) + AA.Answers(f.sent, AA.Delivered(owner))
  {
    assert Waits(st, n) <==> n in Records(st);
    ReleasedRecords(st, n, !Forwarded(st, n, w, owner, a.connected, s, content).refused);
    if Waits(st, n) {
      var replied := if n in a.active then [] else AA.Replied(EntriesFor(st, n), a.connected);
      assert [] + AA.Answers(replied, AA.Started) == AA.Answers(replied, AA.Started);
    }
  }

  /** The reply, the registry, the pending activations, the answers and the licences are those of the specification. */
  ghost predicate Handled(d: Daemon, x: Call, w: D.World, s: R.InTxn, content: int -> D.Incoming,
                          r: Reply, registry: State, acts: A.State, replied: seq<A.Entry>, sent: seq<A.Entry>, replies: seq<PendingReply>, nextId: nat)
    requires Possible(d, x, w)
  {
    var (d', reply) := HandleRequest(d, x, w, s, content);
    && r == reply && registry == d'.registry && Records(acts) == d'.activation.waiting
    && AA.Answers(replied, AA.Started) + AA.Answers(sent, AA.Delivered(PrimaryAfter(d, x))) == d'.activation.log
    && replies == LicensedBy(d, x, w, s, content).list && nextId == LicensedBy(d, x, w, s, content).nextId
  }

  lemma RequestHandled(d: Daemon, x: Call, w: D.World, s: R.InTxn, content: int -> D.Incoming, st: A.State,
                       r: Reply, replied: seq<A.Entry>, sent: seq<A.Entry>, replies: seq<PendingReply>, nextId: nat)
    requires Possible(d, x, w) && Refusal(d, x).None? && A.TableOk(st)
    requires d.activation.waiting == Records(st) && d.activation.log == []
    requires CanForward(st, x.n, w, PrimaryAfter(d, x), d.activation.connected)
    requires Acquired(d.registry.services, st, x, w, d.activation.connected, s, content, r, replied, sent, replies, nextId)
    ensures Handled(d, x, w, s, content, r, SetQueue(d.registry, x.n, NewQueue(d, x)), Released(st, x.n, r.Code?), replied, sent, replies, nextId)
  {
    AppearAnswers(d.activation, st, x.n, PrimaryAfter(d, x), w, s, content);
    assert Waits(st, x.n) <==> x.n in Records(st);
  }

  lemma RefusalHandled(d: Daemon, x: Call, w: D.World, s: R.InTxn, content: int -> D.Incoming, st: A.State)
    requires Possible(d, x, w) && Refusal(d, x).Some? && d.activation.waiting == Records(st) && d.activation.log == []
    ensures Handled(d, x, w, s, content, Reply.Refused(Refusal(d, x).value), d.registry, st, [], [], s.list, s.nextId)
  {
  }

  /** A reply code tells where the caller stands. */
  lemma HandledDescribes(d: Daemon, x: Call, w: D.World, s: R.InTxn, content: int -> D.Incoming)
    requires Possible(d, x, w)
    ensures var (d', reply) := HandleRequest(d, x, w, s, content);
            reply.Code? ==> Describes(reply.code, QueueOf(d.registry.services, x.n), QueueOf(d'.registry.services, x.n), x.c)
  {
    RequestFacts(QueueOf(d.registry.services, x.n), x.c, x.f);
    QueueOfPut(d.registry.services, x.n, NewQueue(d, x));
  }

  /**
   A dispatched RequestName, executed: a change that was made stays made although the reply is an error, and
   so do the answers and licences of the messages that were not refused.
   */
  method RequestName(reg: Registry, act: ActivationKeeper, keeper: ReplyKeeper, x: Call, w: D.World, connected: set<Conn>, content: int -> D.Incoming)
    returns (r: Reply, replied: seq<A.Entry>, sent: seq<A.Entry>)
    requires reg.Valid() && act.Valid() && R.Sound(R.InTxn(keeper.pendingReplies.items, keeper.nextId, []))
    requires Possible(DaemonOf(reg, act, connected), x, w)
    modifies reg, act, keeper`nextId, keeper.pendingReplies`items, keeper.pendingReplies`timer
    ensures reg.Valid() && act.Valid()
    ensures Handled(old(DaemonOf(reg, act, connected)), x, w, R.InTxn(old(keeper.pendingReplies.items), old(keeper.nextId), []), content,
                    r, reg.View(), act.View(), replied, sent, keeper.pendingReplies.items, keeper.nextId)
    ensures r.Code? ==> Describes(r.code, QueueOf(old(reg.services), x.n), QueueOf(reg.services, x.n), x.c)
  {
    ghost var d, s, st := DaemonOf(reg, act, connected), R.InTxn(keeper.pendingReplies.items, keeper.nextId, []), act.View();
    MayForward(d, x, w, st);
    RequestKeepsDaemon(d, x, w, s, content);
    HandledDescribes(d, x, w, s, content);
    reg.ValidIsReady(x.c, x.n);
    var t := new Transaction();
    r, replied, sent := AcquireAndExecute(reg, act, keeper, t, x, w, connected, content);
    if Refusal(d, x).Some? {
      RefusalHandled(d, x, w, s, content, st);
    } else {
      RequestHandled(d, x, w, s, content, st, r, replied, sent, keeper.pendingReplies.items, keeper.nextId);
      ReleasedRecords(st, x.n, r.Code?);
    }
  }

  lemma MayForward(d: Daemon, x: Call, w: D.World, st: A.State)
    requires Possible(d, x, w) && d.activation.waiting == Records(st)
    ensures CanForward(st, x.n, w, PrimaryAfter(d, x), d.activation.connected)
  {
    assert Waits(st, x.n) ==> x.n in Records(st);
  }
}
