/** A RequestName given up for want of memory, at any point, and cancelled (bus/connection.c:2160-2178, bus/services.c:941-994, bus/activation.c:949-982). */
module CancelObject {
  import opened BusTypes
  import opened OwnerQueues
  import NR = NameRegistry
  import RR = RegistryRuns
  import opened Transactions
  import opened OwnerIndex
  import OU = OwnerUndo
  import opened RegistryObject
  import opened ActivationObject
  import opened ReplyObject
  import opened OutboxObject
  import opened RequestNames
  import A = Activations
  import AA = ActivationAnswers
  import R = PendingReplies
  import D = Dispatch
  import O = Outbox
  import C = Connections
  import TC = TransactionCore

  /** The parts of the bus that a RequestName changes. */
  ghost function BusOf(reg: Registry, act: ActivationKeeper, keeper: ReplyKeeper, mq: MessageQueues): TC.Bus
    reads reg, act, keeper, keeper.pendingReplies, mq
  {
    TC.Bus(reg.InTransaction(), keeper.pendingReplies.items, keeper.nextId, act.View(), mq.View(), C.INIT)
  }

  // ----- cancelling a transaction

  /** The cancel function of one hook. */
  method RunHook(reg: Registry, act: ActivationKeeper, keeper: ReplyKeeper, h: CancelHook, ghost mq: MessageQueues)
    modifies reg`services, reg`clients, reg`refs, act`heap, act`table, act`count, keeper.pendingReplies`items, keeper.pendingReplies`timer
    ensures BusOf(reg, act, keeper, mq) == TC.RunHook(old(BusOf(reg, act, keeper, mq)), h)
  {
    match h
    case CancelOwnership(n, c) =>
      if (n, c) in reg.refs && c in reg.clients {
        reg.CancelOwnershipHook(n, c);
      }
    case RestoreOwnership(n, o, before) =>
      if o.conn in reg.clients {
        reg.RestoreOwnershipHook(n, o, before);
      }
    case CancelPendingReply(_) => keeper.RunCancelHook(h);
    case RestorePendingReply(_) => keeper.RunCancelHook(h);
    case CancelActivation(_) => act.RunCancelHook(h);
    case RestoreActivation(_) => act.RunCancelHook(h);
  }

  /** The free function of one hook. */
  method FreeHook(reg: Registry, act: ActivationKeeper, keeper: ReplyKeeper, h: CancelHook, ghost mq: MessageQueues)
    modifies reg`clients, reg`refs, act`heap, act`count
    ensures BusOf(reg, act, keeper, mq) == TC.FreeHook(old(BusOf(reg, act, keeper, mq)), h)
  {
    if IsOwnerHook(h) {
      if (h.name, HookConn(h)) in reg.refs && HookConn(h) in reg.clients {
        reg.UnrefOwner(h.name, HookConn(h));
      }
    } else if h.CancelActivation? || h.RestoreActivation? {
      act.UnrefPending(h.pendingId);
    }
  }

  /** The hooks of `bus_transaction_cancel_and_free`: all of them run, newest first, before any is freed. */
  method CancelHooks(reg: Registry, act: ActivationKeeper, keeper: ReplyKeeper, t: Transaction, ghost mq: MessageQueues)
    modifies reg`services, reg`clients, reg`refs, act`heap, act`table, act`count, keeper.pendingReplies`items, keeper.pendingReplies`timer, t`cancelHooks
    ensures BusOf(reg, act, keeper, mq) ==
            TC.FreeAll(TC.RunAll(old(BusOf(reg, act, keeper, mq)), old(t.cancelHooks)), old(t.cancelHooks))
    ensures t.cancelHooks == []
  {
    var hooks := t.cancelHooks;
    ghost var b := BusOf(reg, act, keeper, mq);
    for i := 0 to |hooks|
      invariant TC.RunAll(BusOf(reg, act, keeper, mq), hooks[i..]) == TC.RunAll(b, hooks)
    {
      assert hooks[i..][0] == hooks[i] && hooks[i..][1..] == hooks[i + 1..];
      RunHook(reg, act, keeper, hooks[i], mq);
    }
    ghost var b1 := TC.RunAll(b, hooks);
    assert hooks[|hooks|..] == [];
    assert BusOf(reg, act, keeper, mq) == b1;
    for i := 0 to |hooks|
      invariant TC.FreeAll(BusOf(reg, act, keeper, mq), hooks[i..]) == TC.FreeAll(b1, hooks)
    {
      assert hooks[i..][0] == hooks[i] && hooks[i..][1..] == hooks[i + 1..];
      FreeHook(reg, act, keeper, hooks[i], mq);
    }
    assert hooks[|hooks|..] == [];
    t.cancelHooks := [];
  }

  /** `bus_transaction_cancel_and_free`: first the messages, then the hooks. */
  method CancelTransaction(reg: Registry, act: ActivationKeeper, keeper: ReplyKeeper, mq: MessageQueues, t: Transaction, id: O.Txn)
    requires mq.Valid() && id in mq.txns && O.AllKnown(mq.View(), mq.txns[id])
    modifies reg`services, reg`clients, reg`refs, act`heap, act`table, act`count, keeper.pendingReplies`items, keeper.pendingReplies`timer,
             mq`pending, mq`txns, t`cancelHooks
    ensures mq.Valid()
    ensures BusOf(reg, act, keeper, mq) == TC.Cancel(old(TC.Open(BusOf(reg, act, keeper, mq), t.cancelHooks)), id)
  {
    mq.Cancel(id);
    CancelHooks(reg, act, keeper, t, mq);
  }

  // ----- a request as a sequence of steps

  function ReplyPrims(ops: seq<R.Op>): seq<TC.Prim>
    decreases |ops|
  {
    if ops == [] then [] else ReplyPrims(ops[..|ops| - 1]) + [TC.Reply(ops[|ops| - 1])]
  }

  lemma DoPrimsSnoc(b: TC.Bus, t: O.Txn, prims: seq<TC.Prim>, p: TC.Prim, max: int)
    ensures TC.DoPrims(b, t, prims + [p], max) == TC.Do(TC.DoPrims(b, t, prims, max), t, p, max)
  {
    assert (prims + [p])[..|prims|] == prims;
  }

  lemma CountsSnoc(prims: seq<TC.Prim>, p: TC.Prim)
    ensures TC.Owners(prims + [p]) == TC.Owners(prims) + if p.Own? then 1 else 0
    ensures TC.Activations(prims + [p]) == TC.Activations(prims) + if p.Appear? || p.Start? then 1 else 0
    ensures TC.Completions(prims + [p]) == TC.Completions(prims) + if p.Complete? then 1 else 0
    ensures forall b :: TC.Joins(b, prims + [p]) <==> TC.Joins(b, prims) || (p.Start? && p.n in b.activation.table)
    ensures forall b :: TC.Completes(b, prims + [p]) <==> TC.Completes(b, prims) || TC.Counts(b, p)
    ensures forall b :: TC.Lingers(b, prims + [p]) <==>
                        TC.Lingers(b, prims) || (p.Own? && OU.Applies(b.tables, p.edit) && !OU.CanBeUndone(NR.QueueOf(b.tables.services, p.edit.n), p.edit))
  {
    assert (prims + [p])[..|prims|] == prims;
  }

  /** Adding operations on licences to the steps changes the licences and nothing else. */
  lemma {:induction false} RepliesDone(b: TC.Bus, t: O.Txn, prims: seq<TC.Prim>, ops: seq<R.Op>, max: int)
    ensures var o, o' := TC.DoPrims(b, t, prims, max), TC.DoPrims(b, t, prims + ReplyPrims(ops), max);
            var s := R.DoAll(R.InTxn(o.bus.replies, o.bus.nextReply, o.hooks), ops, max);
            o' == TC.Open(o.bus.(replies := s.list, nextReply := s.nextId), s.hooks)
    ensures TC.Owners(prims + ReplyPrims(ops)) == TC.Owners(prims)
    ensures TC.Activations(prims + ReplyPrims(ops)) == TC.Activations(prims)
    ensures TC.Completions(prims + ReplyPrims(ops)) == TC.Completions(prims)
    ensures !TC.Joins(b, prims) ==> !TC.Joins(b, prims + ReplyPrims(ops))
    ensures !TC.Completes(b, prims) ==> !TC.Completes(b, prims + ReplyPrims(ops))
    ensures TC.Lingers(b, prims + ReplyPrims(ops)) <==> TC.Lingers(b, prims)
    decreases |ops|
  {
    if ops == [] {
      assert prims + ReplyPrims(ops) == prims;
    } else {
      var front, op := ops[..|ops| - 1], ops[|ops| - 1];
      RepliesDone(b, t, prims, front, max);
      var steps := prims + ReplyPrims(front);
      assert prims + ReplyPrims(ops) == steps + [TC.Reply(op)];
      DoPrimsSnoc(b, t, steps, TC.Reply(op), max);
      CountsSnoc(steps, TC.Reply(op));
    }
  }

  /** Sending the waiting messages is a sequence of operations on licences. */
  lemma {:induction false} ForwardIsOps(content: int -> D.Incoming, w: D.World, owner: Conn, entries: seq<A.Entry>, connected: set<Conn>,
                                        s0: R.InTxn, ops: seq<R.Op>) returns (ops': seq<R.Op>)
    requires AA.PeersKnown(w, owner, entries, connected)
    ensures AA.Forward(content, w, owner, entries, connected, R.DoAll(s0, ops, w.maxReplies)).s == R.DoAll(s0, ops', w.maxReplies)
    decreases |entries|
  {
    ops' := ops;
    if entries != [] {
      var e, s := entries[0], R.DoAll(s0, ops, w.maxReplies);
      if e.conn in connected && e.auto {
        var x := AA.Letter(content, e, owner);
        ops' := D.CheckIsOps(w, x, owner, s0, ops);
        if D.Check(w, x, owner, s).allowed {
          ops' := ForwardIsOps(content, w, owner, entries[1..], connected, s0, ops');
        }
      } else {
        ops' := ForwardIsOps(content, w, owner, entries[1..], connected, s0, ops);
      }
    }
  }

  /** The open transaction `id` is where these steps lead from `b`. */
  ghost predicate Reached(reg: Registry, act: ActivationKeeper, keeper: ReplyKeeper, mq: MessageQueues, t: Transaction, id: O.Txn,
                          b: TC.Bus, prims: seq<TC.Prim>, max: int)
    reads reg, act, keeper, keeper.pendingReplies, mq, t
  {
    TC.Open(BusOf(reg, act, keeper, mq), t.cancelHooks) == TC.DoPrims(b, id, prims, max)
  }

  /** The steps of a request before its waiting messages are dealt with. */
  ghost predicate Plain(b: TC.Bus, prims: seq<TC.Prim>, owners: nat) {
    && TC.Owners(prims) == owners && TC.Activations(prims) == 0 && TC.Completions(prims) == 0
    && !TC.Joins(b, prims) && !TC.Completes(b, prims)
  }

  /** Puts messages into the transaction. */
  method SendSignals(reg: Registry, act: ActivationKeeper, keeper: ReplyKeeper, mq: MessageQueues, t: Transaction, id: O.Txn,
                     signals: seq<(Conn, O.Message)>, ghost max: int)
    returns (ghost prims: seq<TC.Prim>)
    requires mq.Valid() && id in mq.txns && t.cancelHooks == []
    modifies mq`pending, mq`txns
    ensures mq.Valid() && id in mq.txns
    ensures var b := old(BusOf(reg, act, keeper, mq));
            Reached(reg, act, keeper, mq, t, id, b, prims, max) && Plain(b, prims, 0) && !TC.Lingers(b, prims)
  {
    ghost var b := BusOf(reg, act, keeper, mq);
    prims := [];
    for i := 0 to |signals|
      invariant mq.Valid() && id in mq.txns
      invariant Reached(reg, act, keeper, mq, t, id, b, prims, max) && Plain(b, prims, 0) && !TC.Lingers(b, prims)
    {
      var (c, m) := signals[i];
      if c in mq.pending {
        CountsSnoc(prims, TC.Send(c, m));
        DoPrimsSnoc(b, id, prims, TC.Send(c, m), max);
        mq.Send(id, c, m);
        prims := prims + [TC.Send(c, m)];
      }
    }
  }

  /** Where memory runs out: before the owners have changed altogether, or after so many of the waiting messages. */
  datatype Point = Early | Waiting(sent: nat)

  /** The change of owners that was made by then. */
  function Performed(services: map<Name, Queue>, x: Call, point: Point): OU.Edit {
    var q := NR.QueueOf(services, x.n);
    OU.Acquire(x.n, x.c, x.f,
               if point.Waiting? then OU.Whole
               else if q == [] then OU.Unhashed
               else if q[0].conn != x.c && Replaces(q, x.f) then OU.Added
               else OU.Whole)
  }

  /** Changes the owners as far as memory lasts. */
  method ChangeSome(reg: Registry, t: Transaction, x: Call, point: Point)
    requires reg.Ready(x.c, x.n) && t.cancelHooks == [] && t.announced == []
    requires RR.RequestRefusal(reg.clients[x.c], x.n, x.checks, x.maxServices).None?
    modifies reg`services, reg`clients, reg`refs, t`cancelHooks, t`announced
    ensures var e := Performed(old(reg.services), x, point);
            && OU.Applies(old(reg.InTransaction()), e)
            && reg.InTransaction() == OU.Done(old(reg.InTransaction()), e)
            && t.cancelHooks == OU.HooksOf(NR.QueueOf(old(reg.services), x.n), e)
  {
    var e := Performed(reg.services, x, point);
    assert OU.Applies(reg.InTransaction(), e);
    match e.stage
    case Unhashed => var q := reg.AddOwner(t, x.n, [], x.c, x.f);
    case Added => reg.EnterQueue(t, x.n, x.c, x.f);
    case Whole => var r := reg.ChangeOwners(t, x.c, x.n, x.f, x.checks, x.maxServices);
  }

  /** One more step, which changes the owners. */
  lemma OwnStep(b: TC.Bus, id: O.Txn, prims: seq<TC.Prim>, e: OU.Edit, max: int)
    requires Plain(b, prims, 0) && !TC.Lingers(b, prims) && OU.Applies(b.tables, e)
    requires var o := TC.DoPrims(b, id, prims, max); o.bus.tables == b.tables && o.hooks == []
    ensures var prims', q := prims + [TC.Own(e)], NR.QueueOf(b.tables.services, e.n);
            && Plain(b, prims', 1) && (TC.Lingers(b, prims') <==> !OU.CanBeUndone(q, e))
            && TC.DoPrims(b, id, prims', max) ==
               TC.Open(TC.DoPrims(b, id, prims, max).bus.(tables := OU.Done(b.tables, e)), OU.HooksOf(q, e))
  {
    CountsSnoc(prims, TC.Own(e));
    DoPrimsSnoc(b, id, prims, TC.Own(e), max);
    assert OU.HooksOf(NR.QueueOf(b.tables.services, e.n), e) + [] == OU.HooksOf(NR.QueueOf(b.tables.services, e.n), e);
  }

  /** Sends the first messages that waited, and if all were sent takes the record off the table. */
  method SendSome(reg: Registry, act: ActivationKeeper, keeper: ReplyKeeper, mq: MessageQueues, t: Transaction, id: O.Txn, n: Name, owner: Conn,
                  w: D.World, connected: set<Conn>, content: int -> D.Incoming, after: nat, ghost b: TC.Bus, ghost prims: seq<TC.Prim>)
    returns (ghost prims': seq<TC.Prim>)
    requires act.Valid() && n in act.table && R.Sound(keeper.View(t))
    requires AA.PeersKnown(w, owner, act.heap[act.table[n]].entries, connected)
    requires Plain(b, prims, 1) && Reached(reg, act, keeper, mq, t, id, b, prims, w.maxReplies)
    modifies act, keeper`nextId, keeper.pendingReplies`items, keeper.pendingReplies`timer, t`cancelHooks
    ensures TC.OneDispatch(prims') && !TC.Joins(b, prims') && !TC.Completes(b, prims') && (TC.Lingers(b, prims') <==> TC.Lingers(b, prims))
    ensures Reached(reg, act, keeper, mq, t, id, b, prims', w.maxReplies)
    ensures act.nextId == old(act.nextId)
  {
    var entries := act.heap[act.table[n]].entries;
    var some := if after < |entries| then entries[..after] else entries;
    ghost var s, max := keeper.View(t), w.maxReplies;
    ghost var ops := ForwardIsOps(content, w, owner, some, connected, s, []);
    RepliesDone(b, id, prims, ops, max);
    var ok, sent := ForwardAll(t, keeper, w, owner, some, connected, content);
    prims' := prims + ReplyPrims(ops);
    if ok && after > |entries| {
      CountsSnoc(prims', TC.Appear(n));
      DoPrimsSnoc(b, id, prims', TC.Appear(n), max);
      act.FinishActivation(t, n);
      prims' := prims' + [TC.Appear(n)];
    }
  }

  /** The step that changes the owners. */
  method ChangeStep(reg: Registry, act: ActivationKeeper, keeper: ReplyKeeper, mq: MessageQueues, t: Transaction, id: O.Txn, x: Call, point: Point,
                    ghost b: TC.Bus, ghost prims: seq<TC.Prim>, ghost max: int)
    returns (ghost prims': seq<TC.Prim>)
    requires reg.Ready(x.c, x.n) && t.cancelHooks == [] && t.announced == []
    requires RR.RequestRefusal(reg.clients[x.c], x.n, x.checks, x.maxServices).None?
    requires Plain(b, prims, 0) && !TC.Lingers(b, prims) && b.tables == reg.InTransaction()
    requires Reached(reg, act, keeper, mq, t, id, b, prims, max)
    modifies reg`services, reg`clients, reg`refs, t`cancelHooks, t`announced
    ensures Plain(b, prims', 1) && Reached(reg, act, keeper, mq, t, id, b, prims', max)
    ensures TC.Lingers(b, prims') <==> !OU.CanBeUndone(NR.QueueOf(b.tables.services, x.n), Performed(b.tables.services, x, point))
  {
    ghost var e, o := Performed(reg.services, x, point), TC.DoPrims(b, id, prims, max);
    assert o.bus == BusOf(reg, act, keeper, mq);
    ChangeSome(reg, t, x, point);
    OwnStep(b, id, prims, e, max);
    assert BusOf(reg, act, keeper, mq) == o.bus.(tables := OU.Done(b.tables, e));
    prims' := prims + [TC.Own(e)];
  }

  /** The steps of an allowed request, after those that put its signals into the transaction. */
  method RequestSteps(reg: Registry, act: ActivationKeeper, keeper: ReplyKeeper, mq: MessageQueues, t: Transaction, id: O.Txn, x: Call,
                      w: D.World, connected: set<Conn>, content: int -> D.Incoming, point: Point, ghost b: TC.Bus, ghost prims: seq<TC.Prim>)
    returns (ghost prims': seq<TC.Prim>)
    requires reg.Ready(x.c, x.n) && act.Valid() && R.Sound(keeper.View(t)) && t.cancelHooks == [] && t.announced == []
    requires RR.RequestRefusal(reg.clients[x.c], x.n, x.checks, x.maxServices).None?
    requires x.n in act.table ==> AA.PeersKnown(w, Recipient(reg.services, x), act.heap[act.table[x.n]].entries, connected)
    requires Plain(b, prims, 0) && !TC.Lingers(b, prims) && b.tables == reg.InTransaction()
    requires Reached(reg, act, keeper, mq, t, id, b, prims, w.maxReplies)
    modifies reg`services, reg`clients, reg`refs, act, keeper`nextId, keeper.pendingReplies`items, keeper.pendingReplies`timer,
             t`cancelHooks, t`announced
    ensures TC.OneDispatch(prims') && !TC.Joins(b, prims') && !TC.Completes(b, prims')
    ensures TC.Lingers(b, prims') <==> !OU.CanBeUndone(NR.QueueOf(b.tables.services, x.n), Performed(b.tables.services, x, point))
    ensures Reached(reg, act, keeper, mq, t, id, b, prims', w.maxReplies)
    ensures act.nextId == old(act.nextId)
  {
    var owner := Recipient(reg.services, x);
    prims' := ChangeStep(reg, act, keeper, mq, t, id, x, point, b, prims, w.maxReplies);
    if point.Waiting? && x.n in act.table {
      prims' := SendSome(reg, act, keeper, mq, t, id, x.n, owner, w, connected, content, point.sent, b, prims');
    }
  }

  /** What is left when the steps of a request are cancelled. */
  ghost predicate CancelledTo(b: TC.Bus, b': TC.Bus, id: O.Txn, undone: bool) {
    && (b'.tables == b.tables <==> undone)
    && multiset(b'.replies) == multiset(b.replies)
    && b'.activation.(nextId := b.activation.nextId) == b.activation
    && b'.outbox == b.outbox.(txns := b.outbox.txns - {id})
  }

  /** Cancelling what no step of which completes a connection or joins an activation. */
  method CancelSteps(reg: Registry, act: ActivationKeeper, keeper: ReplyKeeper, mq: MessageQueues, t: Transaction, id: O.Txn,
                     ghost b: TC.Bus, ghost prims: seq<TC.Prim>, ghost max: int, ghost others: seq<CancelHook>)
    requires TC.Ready(b, id, others) && mq.Valid() && id in mq.txns
    requires TC.OneDispatch(prims) && !TC.Joins(b, prims) && !TC.Completes(b, prims)
    requires Reached(reg, act, keeper, mq, t, id, b, prims, max)
    modifies reg`services, reg`clients, reg`refs, act`heap, act`table, act`count, keeper.pendingReplies`items, keeper.pendingReplies`timer,
             mq`pending, mq`txns, t`cancelHooks
    ensures mq.Valid() && CancelledTo(b, BusOf(reg, act, keeper, mq), id, !TC.Lingers(b, prims))
  {
    TC.CancelRestoresBus(b, id, prims, max, others);
    TC.CompletionStays(b, prims);
    CancelTransaction(reg, act, keeper, mq, t, id);
  }

  /**
   A RequestName that runs out of memory, before the owners have changed altogether, while the messages that
   waited for the service are sent or after that, and is cancelled. The pending activations and replies are as
   they were, and no message of the transaction is left. So is the registry if and only if the change of owners
   that was made by then can be undone; for a name without owner it always can.
   */
  method CancelledRequestName(reg: Registry, act: ActivationKeeper, keeper: ReplyKeeper, mq: MessageQueues, id: O.Txn, x: Call,
                              signals: seq<(Conn, O.Message)>, w: D.World, connected: set<Conn>, content: int -> D.Incoming, point: Point,
                              ghost others: seq<CancelHook>)
    requires reg.Ready(x.c, x.n) && act.Valid() && A.RefsOk(act.View(), others)
    requires R.Sound(R.InTxn(keeper.pendingReplies.items, keeper.nextId, []))
    requires mq.Valid() && id in mq.txns && mq.txns[id] == []
    requires x.n in act.table ==> AA.PeersKnown(w, Recipient(reg.services, x), act.heap[act.table[x.n]].entries, connected)
    modifies reg`services, reg`clients, reg`refs, act, keeper`nextId, keeper.pendingReplies`items, keeper.pendingReplies`timer, mq`pending, mq`txns
    ensures mq.Valid()
    ensures CancelledTo(old(BusOf(reg, act, keeper, mq)), BusOf(reg, act, keeper, mq), id,
                        || RR.RequestRefusal(old(reg.clients)[x.c], x.n, x.checks, x.maxServices).Some?
                        || OU.CanBeUndone(NR.QueueOf(old(reg.services), x.n), Performed(old(reg.services), x, point)))
  {
    var t := new Transaction();
    ghost var b, max := BusOf(reg, act, keeper, mq), w.maxReplies;
    ghost var prims := SendSignals(reg, act, keeper, mq, t, id, signals, max);
    if RR.RequestRefusal(reg.clients[x.c], x.n, x.checks, x.maxServices).None? {
      prims := RequestSteps(reg, act, keeper, mq, t, id, x, w, connected, content, point, b, prims);
    }
    CancelSteps(reg, act, keeper, mq, t, id, b, prims, max, others);
  }
}
