/**
 One dispatched message and its transaction across the whole daemon: owner queues and back-index,
 pending replies, pending activations and buffered messages (bus/dispatch.c:129-367,
 bus/connection.c:2160-2178, bus/services.c:257-332, bus/activation.c:1012-1144).
 */
module TransactionCore {
  import opened BusTypes
  import opened OwnerQueues
  import NR = NameRegistry
  import opened Transactions
  import opened OwnerIndex
  import OU = OwnerUndo
  import R = PendingReplies
  import A = Activations
  import O = Outbox
  import C = Connections

  datatype Bus = Bus(tables: Tables, replies: seq<PendingReply>, nextReply: nat, activation: A.State, outbox: O.State, connections: C.State)

  /** The bus while a transaction with these hooks, newest first, is open. */
  datatype Open = Open(bus: Bus, hooks: seq<CancelHook>)

  /** The steps that dispatching a message is made of; running out of memory ends the sequence after any of them. */
  datatype Prim =
    /** A message for a connection. */
    | Send(c: Conn, m: O.Message)
    /** The owners of a name change, as far as that got. */
    | Own(edit: OU.Edit)
    /** A reply is licensed or a licence is used. */
    | Reply(op: R.Op)
    /** The pending activation of a name is done. */
    | Appear(n: Name)
    /** A service has to be started. */
    | Start(n: Name, exec: string, e: A.Entry)
    /** `bus_connection_complete` for a Hello, which records no hook. */
    | Complete(c: Conn, u: Name, outcome: C.Outcome, now: Timestamp, lim: C.Limits)

  /** The connection has not said Hello yet. */
  predicate CanComplete(b: Bus, c: Conn) {
    c in b.tables.owners.clients && b.tables.owners.clients[c].uniqueName.None? && C.Listed(b.connections.incomplete, c)
  }

  function NameIndex(ix: Index, c: Conn, u: Name): Index
    requires c in ix.clients
  {
    ix.(clients := ix.clients[c := ix.clients[c].(uniqueName := Some(u))])
  }

  function NameClient(tb: Tables, c: Conn, u: Name): Tables
    requires c in tb.owners.clients
  {
    tb.(owners := NameIndex(tb.owners, c, u))
  }

  ghost predicate Enabled(b: Bus, t: O.Txn, p: Prim) {
    match p
    case Send(c, m) => t in b.outbox.txns && c in b.outbox.pending
    case Own(e) => OU.Applies(b.tables, e)
    case Reply(op) => true
    case Appear(n) => n in b.activation.table && b.activation.table[n] in b.activation.heap
    case Start(n, exec, e) => true
    case Complete(c, u, outcome, now, lim) => CanComplete(b, c)
  }

  /** A step that does not apply changes nothing. */
  ghost function Do(o: Open, t: O.Txn, p: Prim, max: int): Open {
    if Enabled(o.bus, t, p) then DoEnabled(o, t, p, max) else o
  }

  ghost function DoEnabled(o: Open, t: O.Txn, p: Prim, max: int): Open
    requires Enabled(o.bus, t, p)
  {
    var b := o.bus;
    match p
    case Send(c, m) => o.(bus := b.(outbox := O.Send(b.outbox, t, c, m)))
    case Own(e) => Open(b.(tables := OU.Done(b.tables, e)), OU.HooksOf(NR.QueueOf(b.tables.services, e.n), e) + o.hooks)
    case Reply(op) =>
      var s := R.Do(R.InTxn(b.replies, b.nextReply, o.hooks), op, max);
      Open(b.(replies := s.list, nextReply := s.nextId), s.hooks)
    case Appear(n) =>
      Open(b.(activation := A.Finish(b.activation, n)), [RestoreActivation(b.activation.table[n])] + o.hooks)
    case Start(n, exec, e) =>
      Open(b.(activation := A.Activate(b.activation, n, exec, e)), [CancelActivation(A.ActivatedId(b.activation, n))] + o.hooks)
    case Complete(c, u, outcome, now, lim) =>
      o.(bus := b.(connections := C.Complete(b.connections, c, outcome, now, lim),
                   tables := if outcome == C.Done then NameClient(b.tables, c, u) else b.tables))
  }

  ghost function DoPrims(b: Bus, t: O.Txn, prims: seq<Prim>, max: int): Open
    decreases |prims|
  {
    if prims == [] then Open(b, []) else Do(DoPrims(b, t, prims[..|prims| - 1], max), t, prims[|prims| - 1], max)
  }

  // ----- cancelling the whole transaction

  /** The cancel function of one hook. */
  function RunHook(b: Bus, h: CancelHook): Bus {
    match h
    case CancelOwnership(_, _) => b.(tables := OU.Run(b.tables, h))
    case RestoreOwnership(_, _, _) => b.(tables := OU.Run(b.tables, h))
    case CancelPendingReply(_) => b.(replies := R.Undo(b.replies, h))
    case RestorePendingReply(_) => b.(replies := R.Undo(b.replies, h))
    case CancelActivation(_) => b.(activation := A.CancelHookRuns(b.activation, h))
    case RestoreActivation(_) => b.(activation := A.CancelHookRuns(b.activation, h))
  }

  /** The free function of one hook. */
  function FreeHook(b: Bus, h: CancelHook): Bus {
    match h
    case CancelOwnership(_, _) => b.(tables := OU.Free(b.tables, h))
    case RestoreOwnership(_, _, _) => b.(tables := OU.Free(b.tables, h))
    case CancelActivation(id) => b.(activation := A.Unref(b.activation, id))
    case RestoreActivation(id) => b.(activation := A.Unref(b.activation, id))
    case _ => b
  }

  function RunAll(b: Bus, hooks: seq<CancelHook>): Bus
    decreases |hooks|
  {
    if hooks == [] then b else RunAll(RunHook(b, hooks[0]), hooks[1..])
  }

  function FreeAll(b: Bus, hooks: seq<CancelHook>): Bus
    decreases |hooks|
  {
    if hooks == [] then b else FreeAll(FreeHook(b, hooks[0]), hooks[1..])
  }

  /** `bus_transaction_cancel_and_free`: drops the messages, runs all hooks, then frees them. */
  function Cancel(o: Open, t: O.Txn): Bus
    requires t in o.bus.outbox.txns && O.AllKnown(o.bus.outbox, o.bus.outbox.txns[t])
  {
    var b := o.bus.(outbox := O.Cancel(o.bus.outbox, t));
    FreeAll(RunAll(b, o.hooks), o.hooks)
  }

  // ----- each hook concerns one part of the bus

  predicate IsReplyHook(h: CancelHook) { h.CancelPendingReply? || h.RestorePendingReply? }
  predicate IsActivationHook(h: CancelHook) { h.CancelActivation? || h.RestoreActivation? }

  function Only(hooks: seq<CancelHook>, which: CancelHook -> bool): seq<CancelHook> {
    if hooks == [] then []
    else if which(hooks[0]) then [hooks[0]] + Only(hooks[1..], which)
    else Only(hooks[1..], which)
  }

  lemma OnlyCons(h: CancelHook, hooks: seq<CancelHook>, which: CancelHook -> bool)
    ensures Only([h] + hooks, which) == if which(h) then [h] + Only(hooks, which) else Only(hooks, which)
  {
    assert ([h] + hooks)[1..] == hooks;
  }

  /** Running all hooks runs, for each part, the hooks that concern it. */
  lemma {:induction false} RunAllParts(b: Bus, hooks: seq<CancelHook>)
    ensures var b' := RunAll(b, hooks);
            && b'.replies == R.UndoAll(b.replies, Only(hooks, IsReplyHook))
            && b'.tables == RunAll(b, Only(hooks, IsOwnerHook)).tables
            && b'.activation == RunAll(b, Only(hooks, IsActivationHook)).activation
            && b'.outbox == b.outbox && b'.nextReply == b.nextReply && b'.connections == b.connections
    decreases |hooks|
  {
    if hooks != [] {
      var h, rest := hooks[0], hooks[1..];
      var b1 := RunHook(b, h);
      RunAllParts(b1, rest);
      if IsReplyHook(h) {
        assert ([h] + Only(rest, IsReplyHook))[1..] == Only(rest, IsReplyHook);
      }
      if IsOwnerHook(h) {
        assert ([h] + Only(rest, IsOwnerHook))[1..] == Only(rest, IsOwnerHook);
      } else {
        OnlyOwners(b, b1, Only(rest, IsOwnerHook));
      }
      if IsActivationHook(h) {
        assert ([h] + Only(rest, IsActivationHook))[1..] == Only(rest, IsActivationHook);
      } else {
        OnlyActivations(b, b1, Only(rest, IsActivationHook));
      }
    }
  }

  /** The tables after running hooks depend on the tables alone. */
  lemma {:induction false} OnlyOwners(b: Bus, b1: Bus, hooks: seq<CancelHook>)
    requires b.tables == b1.tables
    ensures RunAll(b, hooks).tables == RunAll(b1, hooks).tables
    ensures FreeAll(b, hooks).tables == FreeAll(b1, hooks).tables
    decreases |hooks|
  {
    if hooks != [] {
      OnlyOwners(RunHook(b, hooks[0]), RunHook(b1, hooks[0]), hooks[1..]);
      OnlyOwners(FreeHook(b, hooks[0]), FreeHook(b1, hooks[0]), hooks[1..]);
    }
  }

  lemma {:induction false} OnlyActivations(b: Bus, b1: Bus, hooks: seq<CancelHook>)
    requires b.activation == b1.activation
    ensures RunAll(b, hooks).activation == RunAll(b1, hooks).activation
    ensures FreeAll(b, hooks).activation == FreeAll(b1, hooks).activation
    decreases |hooks|
  {
    if hooks != [] {
      OnlyActivations(RunHook(b, hooks[0]), RunHook(b1, hooks[0]), hooks[1..]);
      OnlyActivations(FreeHook(b, hooks[0]), FreeHook(b1, hooks[0]), hooks[1..]);
    }
  }

  lemma {:induction false} FreeAllParts(b: Bus, hooks: seq<CancelHook>)
    ensures var b' := FreeAll(b, hooks);
            && b'.replies == b.replies
            && b'.tables == FreeAll(b, Only(hooks, IsOwnerHook)).tables
            && b'.activation == FreeAll(b, Only(hooks, IsActivationHook)).activation
            && b'.outbox == b.outbox && b'.nextReply == b.nextReply && b'.connections == b.connections
    decreases |hooks|
  {
    if hooks != [] {
      var h, rest := hooks[0], hooks[1..];
      var b1 := FreeHook(b, h);
      FreeAllParts(b1, rest);
      if IsOwnerHook(h) {
        assert ([h] + Only(rest, IsOwnerHook))[1..] == Only(rest, IsOwnerHook);
      } else {
        OnlyOwners(b, b1, Only(rest, IsOwnerHook));
      }
      if IsActivationHook(h) {
        assert ([h] + Only(rest, IsActivationHook))[1..] == Only(rest, IsActivationHook);
      } else {
        OnlyActivations(b, b1, Only(rest, IsActivationHook));
      }
    }
  }

  // ----- what the steps of one dispatched message did to each part

  function Ops(prims: seq<Prim>): seq<R.Op>
    decreases |prims|
  {
    if prims == [] then []
    else
      var before, p := Ops(prims[..|prims| - 1]), prims[|prims| - 1];
      if p.Reply? then before + [p.op] else before
  }

  function Owners(prims: seq<Prim>): nat {
    if prims == [] then 0 else Owners(prims[..|prims| - 1]) + if prims[|prims| - 1].Own? then 1 else 0
  }

  function Activations(prims: seq<Prim>): nat {
    if prims == [] then 0
    else Activations(prims[..|prims| - 1]) + if prims[|prims| - 1].Appear? || prims[|prims| - 1].Start? then 1 else 0
  }

  function Completions(prims: seq<Prim>): nat {
    if prims == [] then 0 else Completions(prims[..|prims| - 1]) + if prims[|prims| - 1].Complete? then 1 else 0
  }

  /** Dispatching one message changes the owners of at most one name, starts or finishes at most one activation, and completes at most one connection. */
  predicate OneDispatch(prims: seq<Prim>) {
    Owners(prims) <= 1 && Activations(prims) <= 1 && Completions(prims) <= 1
  }

  /** What no hook takes back: the tables and the connection lists with the completed connection in them. */
  function Named(b: Bus, prims: seq<Prim>): (tb: Tables)
    ensures tb.services == b.tables.services && tb.owners.refs == b.tables.owners.refs
    ensures tb.owners.clients.Keys == b.tables.owners.clients.Keys
    decreases |prims|
  {
    if prims == [] then b.tables
    else
      var tb, p := Named(b, prims[..|prims| - 1]), prims[|prims| - 1];
      if p.Complete? && CanComplete(b, p.c) && p.outcome == C.Done then NameClient(tb, p.c, p.u) else tb
  }

  function Completed(b: Bus, prims: seq<Prim>): C.State
    decreases |prims|
  {
    if prims == [] then b.connections
    else
      var p := prims[|prims| - 1];
      if p.Complete? && CanComplete(b, p.c) then C.Complete(b.connections, p.c, p.outcome, p.now, p.lim)
      else Completed(b, prims[..|prims| - 1])
  }

  /** The step changes what is known of a connection: it is completed, or its user is charged for it. */
  predicate Counts(b: Bus, p: Prim) {
    p.Complete? && CanComplete(b, p.c) &&
      (p.outcome == C.Done || (p.outcome == C.NoLoginInfo && C.PeerOf(b.connections.incomplete, p.c).uid.Some?))
  }

  predicate Completes(b: Bus, prims: seq<Prim>) {
    prims != [] && (Completes(b, prims[..|prims| - 1]) || Counts(b, prims[|prims| - 1]))
  }

  /** Some step changed owners in a way that its hooks cannot undo. */
  ghost predicate Lingers(b: Bus, prims: seq<Prim>) {
    prims != [] &&
      var p := prims[|prims| - 1];
      || Lingers(b, prims[..|prims| - 1])
      || (p.Own? && OU.Applies(b.tables, p.edit) && !OU.CanBeUndone(NR.QueueOf(b.tables.services, p.edit.n), p.edit))
  }

  lemma ReplyStep(s: R.InTxn, op: R.Op, max: int, hooks: seq<CancelHook>)
    requires s.hooks == Only(hooks, IsReplyHook)
    ensures var s1, s2 := R.Do(s, op, max), R.Do(s.(hooks := hooks), op, max);
            s1.list == s2.list && s1.nextId == s2.nextId && s1.hooks == Only(s2.hooks, IsReplyHook)
            && Only(s2.hooks, IsOwnerHook) == Only(hooks, IsOwnerHook)
            && Only(s2.hooks, IsActivationHook) == Only(hooks, IsActivationHook)
  {
    var s2 := R.Do(s.(hooks := hooks), op, max);
    if s2.hooks != hooks {
      assert s2.hooks == [s2.hooks[0]] + hooks;
      OnlyCons(s2.hooks[0], hooks, IsReplyHook);
      OnlyCons(s2.hooks[0], hooks, IsOwnerHook);
      OnlyCons(s2.hooks[0], hooks, IsActivationHook);
    }
  }

  ghost predicate OwnersMoved(tb: Tables, o: Open, e: OU.Edit) {
    && OU.Applies(tb, e) && o.bus.tables == OU.Done(tb, e)
    && Only(o.hooks, IsOwnerHook) == OU.HooksOf(NR.QueueOf(tb.services, e.n), e)
  }

  ghost predicate OwnersSame(tb: Tables, o: Open) {
    o.bus.tables == tb && Only(o.hooks, IsOwnerHook) == []
  }

  ghost predicate Appeared(b: Bus, o: Open, n: Name) {
    && n in b.activation.table && b.activation.table[n] in b.activation.heap
    && o.bus.activation == A.Finish(b.activation, n)
    && Only(o.hooks, IsActivationHook) == [RestoreActivation(b.activation.table[n])]
  }

  ghost predicate Started(b: Bus, o: Open, n: Name, exec: string, e: A.Entry) {
    && o.bus.activation == A.Activate(b.activation, n, exec, e)
    && Only(o.hooks, IsActivationHook) == [CancelActivation(A.ActivatedId(b.activation, n))]
  }

  ghost predicate ActivationSame(b: Bus, o: Open) {
    o.bus.activation == b.activation && Only(o.hooks, IsActivationHook) == []
  }

  /** The other transactions' messages are where they were, and nothing was delivered. */
  ghost predicate OutboxMoved(b: Bus, o: Open, t: O.Txn) {
    && O.Listed(o.bus.outbox) && t in o.bus.outbox.txns
    && o.bus.outbox.wire == b.outbox.wire && o.bus.outbox.connected == b.outbox.connected
    && o.bus.outbox.txns - {t} == b.outbox.txns - {t}
    && O.WithoutTxn(o.bus.outbox.pending, t) == b.outbox.pending
  }

  lemma {:induction false} OnlyConcat(a: seq<CancelHook>, b: seq<CancelHook>, which: CancelHook -> bool)
    ensures Only(a + b, which) == Only(a, which) + Only(b, which)
  {
    if a == [] {
      assert a + b == b;
    } else {
      assert (a + b)[1..] == a[1..] + b;
      OnlyConcat(a[1..], b, which);
    }
  }

  lemma {:induction false} OnlyOwnerHooks(hooks: seq<CancelHook>)
    requires forall h :: h in hooks ==> IsOwnerHook(h)
    ensures Only(hooks, IsOwnerHook) == hooks && Only(hooks, IsReplyHook) == [] && Only(hooks, IsActivationHook) == []
  {
    if hooks != [] {
      assert hooks[0] in hooks;
      OnlyOwnerHooks(hooks[1..]);
      assert hooks == [hooks[0]] + hooks[1..];
    }
  }

  /** A change of owners adds hooks that concern owners. */
  lemma OwnHooks(o: Open, t: O.Txn, e: OU.Edit, max: int)
    requires OU.Applies(o.bus.tables, e)
    ensures var o' := Do(o, t, Own(e), max);
            && Only(o'.hooks, IsOwnerHook) == OU.HooksOf(NR.QueueOf(o.bus.tables.services, e.n), e) + Only(o.hooks, IsOwnerHook)
            && Only(o'.hooks, IsReplyHook) == Only(o.hooks, IsReplyHook)
            && Only(o'.hooks, IsActivationHook) == Only(o.hooks, IsActivationHook)
  {
    var added := OU.HooksOf(NR.QueueOf(o.bus.tables.services, e.n), e);
    OU.HooksAreOwners(NR.QueueOf(o.bus.tables.services, e.n), e);
    OnlyOwnerHooks(added);
    OnlyConcat(added, o.hooks, IsOwnerHook);
    OnlyConcat(added, o.hooks, IsReplyHook);
    OnlyConcat(added, o.hooks, IsActivationHook);
  }

  /** The part of the hooks that a step adds. */
  lemma StepHooks(o: Open, t: O.Txn, p: Prim, max: int)
    requires !p.Reply?
    ensures var o' := Do(o, t, p, max);
            && Only(o'.hooks, IsReplyHook) == Only(o.hooks, IsReplyHook)
            && (!p.Own? ==> Only(o'.hooks, IsOwnerHook) == Only(o.hooks, IsOwnerHook))
            && (!p.Appear? && !p.Start? ==> Only(o'.hooks, IsActivationHook) == Only(o.hooks, IsActivationHook))
  {
    var o' := Do(o, t, p, max);
    if Enabled(o.bus, t, p) {
      if p.Own? {
        OwnHooks(o, t, p.edit, max);
      } else if p.Appear? || p.Start? {
        assert o'.hooks == [o'.hooks[0]] + o.hooks;
        OnlyCons(o'.hooks[0], o.hooks, IsReplyHook);
        OnlyCons(o'.hooks[0], o.hooks, IsOwnerHook);
      }
    }
  }

  lemma {:induction false} RepliesMoved(b: Bus, t: O.Txn, prims: seq<Prim>, max: int)
    ensures var o := DoPrims(b, t, prims, max);
            R.InTxn(o.bus.replies, o.bus.nextReply, Only(o.hooks, IsReplyHook))
            == R.DoAll(R.InTxn(b.replies, b.nextReply, []), Ops(prims), max)
    decreases |prims|
  {
    if prims != [] {
      var front, p := prims[..|prims| - 1], prims[|prims| - 1];
      RepliesMoved(b, t, front, max);
      var o := DoPrims(b, t, front, max);
      if p.Reply? {
        ReplyStep(R.InTxn(o.bus.replies, o.bus.nextReply, Only(o.hooks, IsReplyHook)), p.op, max, o.hooks);
        assert (Ops(front) + [p.op])[..|Ops(front)|] == Ops(front);
      } else {
        StepHooks(o, t, p, max);
      }
    }
  }

  /** Naming a connection leaves it open which changes of owners are possible. */
  lemma NamedApplies(tb: Tables, e: OU.Edit, d: Conn, u: Name)
    requires d in tb.owners.clients
    ensures OU.Applies(NameClient(tb, d, u), e) <==> OU.Applies(tb, e)
  {
  }

  lemma DoneKeepsClients(tb: Tables, e: OU.Edit, c: Conn)
    requires OU.Applies(tb, e)
    ensures c in OU.Done(tb, e).owners.clients <==> c in tb.owners.clients
    ensures c in tb.owners.clients ==> OU.Done(tb, e).owners.clients[c].uniqueName == tb.owners.clients[c].uniqueName
  {
    OU.Known(tb, e.n, e.c);
  }

  lemma NameTake(ix: Index, n: Name, c: Conn, d: Conn, u: Name)
    requires c in ix.clients && d in ix.clients
    ensures NameIndex(ix, d, u).Take(n, c) == NameIndex(ix.Take(n, c), d, u)
    ensures NameIndex(ix, d, u).Take(n, c).Ref(n, c) == NameIndex(ix.Take(n, c).Ref(n, c), d, u)
  {
    assert NameIndex(ix, d, u).Take(n, c).clients == NameIndex(ix.Take(n, c), d, u).clients;
  }

  lemma NameUnref(ix: Index, n: Name, c: Conn, d: Conn, u: Name)
    requires ix.Holds(n, c) && d in ix.clients
    ensures NameIndex(ix, d, u).Unref(n, c) == NameIndex(ix.Unref(n, c), d, u)
    ensures NameIndex(ix, d, u).Ref(n, c) == NameIndex(ix.Ref(n, c), d, u)
  {
    assert NameIndex(ix, d, u).Unref(n, c).clients == NameIndex(ix.Unref(n, c), d, u).clients;
  }

  lemma NameRequest(ix: Index, q: Queue, n: Name, c: Conn, f: Flags, d: Conn, u: Name)
    requires d in ix.clients && c in ix.clients && (Has(q, c) ==> ix.Holds(n, c)) && (q != [] ==> ix.Holds(n, q[0].conn))
    ensures NameIndex(ix, d, u).Holds(n, c) <==> ix.Holds(n, c)
    ensures OU.RequestIndex(NameIndex(ix, d, u), q, n, c, f) == NameIndex(OU.RequestIndex(ix, q, n, c, f), d, u)
  {
    NameTake(ix, n, c, d, u);
    if Has(q, c) {
      NameUnref(ix, n, c, d, u);
    }
    if q != [] {
      NameUnref(AddIndex(ix, q, n, c), n, q[0].conn, d, u);
    }
  }

  /** Naming a connection and changing owners do not get in each other's way. */
  lemma NameCommutes(tb: Tables, e: OU.Edit, d: Conn, u: Name)
    requires OU.Applies(tb, e) && d in tb.owners.clients && OU.Applies(NameClient(tb, d, u), e)
    ensures d in OU.Done(tb, e).owners.clients
    ensures NameClient(OU.Done(tb, e), d, u) == OU.Done(NameClient(tb, d, u), e)
  {
    OU.Known(tb, e.n, e.c);
    DoneKeepsClients(tb, e, d);
    var ix, q := tb.owners, NR.QueueOf(tb.services, e.n);
    NameTake(ix, e.n, e.c, d, u);
    match e
    case Acquire(n, c, f, _) => NameRequest(ix, q, n, c, f, d, u);
    case Release(n, c) => if Has(q, c) { NameUnref(ix, n, c, d, u); }
  }

  /** Without a completed connection the names and lists are those of the start. */
  lemma {:induction false} NobodyCompleted(b: Bus, prims: seq<Prim>)
    requires Completions(prims) == 0
    ensures Named(b, prims) == b.tables && Completed(b, prims) == b.connections && !Completes(b, prims)
    decreases |prims|
  {
    if prims != [] {
      NobodyCompleted(b, prims[..|prims| - 1]);
    }
  }

  /** The tables are as they were, or one change was made to them; `lingers` says that it cannot be undone. */
  ghost predicate TablesAfter(tb: Tables, o: Open, owners: nat, lingers: bool) {
    || (OwnersSame(tb, o) && !lingers)
    || (owners == 1 && exists e :: OwnersMoved(tb, o, e) && (lingers <==> !OU.CanBeUndone(NR.QueueOf(tb.services, e.n), e)))
  }

  lemma SomeChange(tb: Tables, o: Open, owners: nat, lingers: bool) returns (e: OU.Edit)
    requires TablesAfter(tb, o, owners, lingers) && !(OwnersSame(tb, o) && !lingers)
    ensures owners == 1 && OwnersMoved(tb, o, e) && (lingers <==> !OU.CanBeUndone(NR.QueueOf(tb.services, e.n), e))
  {
    e :| OwnersMoved(tb, o, e) && (lingers <==> !OU.CanBeUndone(NR.QueueOf(tb.services, e.n), e));
  }

  /** Changing owners leaves it open who may be completed. */
  lemma CompletableAfter(b: Bus, o: Open, owners: nat, lingers: bool, c: Conn)
    requires TablesAfter(b.tables, o, owners, lingers) && o.bus.connections == b.connections
    ensures CanComplete(o.bus, c) <==> CanComplete(b, c)
  {
    if !(OwnersSame(b.tables, o) && !lingers) {
      var e := SomeChange(b.tables, o, owners, lingers);
      DoneKeepsClients(b.tables, e, c);
    }
  }

  lemma NamedAfter(tb: Tables, o: Open, owners: nat, lingers: bool, c: Conn, u: Name, o': Open)
    requires TablesAfter(tb, o, owners, lingers) && c in o.bus.tables.owners.clients && c in tb.owners.clients
    requires o'.bus.tables == NameClient(o.bus.tables, c, u) && o'.hooks == o.hooks
    ensures TablesAfter(NameClient(tb, c, u), o', owners, lingers)
  {
    if !(OwnersSame(tb, o) && !lingers) {
      var e := SomeChange(tb, o, owners, lingers);
      NamedApplies(tb, e, c, u);
      NameCommutes(tb, e, c, u);
      assert OwnersMoved(NameClient(tb, c, u), o', e);
    }
  }

  lemma {:induction false} NobodyLingers(b: Bus, prims: seq<Prim>)
    requires Owners(prims) == 0
    ensures !Lingers(b, prims)
    decreases |prims|
  {
    if prims != [] {
      NobodyLingers(b, prims[..|prims| - 1]);
    }
  }

  /** The step that changes owners. */
  lemma OwnMoved(b: Bus, t: O.Txn, front: seq<Prim>, e: OU.Edit, max: int)
    requires Owners(front) == 0 && TablesAfter(Named(b, front), DoPrims(b, t, front, max), 0, Lingers(b, front))
    ensures var o, q := DoPrims(b, t, front, max), NR.QueueOf(b.tables.services, e.n);
            TablesAfter(Named(b, front), Do(o, t, Own(e), max), 1, OU.Applies(b.tables, e) && !OU.CanBeUndone(q, e))
  {
    var o, tb := DoPrims(b, t, front, max), Named(b, front);
    NobodyLingers(b, front);
    assert OU.Applies(tb, e) <==> OU.Applies(b.tables, e);
    if OU.Applies(tb, e) {
      var o' := Do(o, t, Own(e), max);
      OwnHooks(o, t, e, max);
      assert Only(o'.hooks, IsOwnerHook) == OU.HooksOf(NR.QueueOf(tb.services, e.n), e);
      assert OwnersMoved(tb, o', e);
    }
  }

  lemma {:induction false} TablesMoved(b: Bus, t: O.Txn, prims: seq<Prim>, max: int)
    requires Owners(prims) <= 1 && Completions(prims) <= 1
    ensures var o := DoPrims(b, t, prims, max);
            TablesAfter(Named(b, prims), o, Owners(prims), Lingers(b, prims)) && o.bus.connections == Completed(b, prims)
    decreases |prims|
  {
    if prims != [] {
      var front, p := prims[..|prims| - 1], prims[|prims| - 1];
      TablesMoved(b, t, front, max);
      var o, o', tb, lingers := DoPrims(b, t, front, max), DoPrims(b, t, prims, max), Named(b, front), Lingers(b, front);
      if p.Own? {
        NobodyLingers(b, front);
        OwnMoved(b, t, front, p.edit, max);
      } else if p.Complete? {
        NobodyCompleted(b, front);
        CompletableAfter(b, o, Owners(front), lingers, p.c);
        if CanComplete(b, p.c) && p.outcome == C.Done {
          NamedAfter(tb, o, Owners(front), lingers, p.c, p.u, o');
        } else {
          SameTables(tb, o, Owners(front), lingers, o');
        }
      } else {
        OwnersKept(o, t, p, max);
        SameTables(tb, o, Owners(front), lingers, o');
      }
    }
  }

  lemma SameTables(tb: Tables, o: Open, owners: nat, lingers: bool, o': Open)
    requires TablesAfter(tb, o, owners, lingers) && o'.bus.tables == o.bus.tables
    requires Only(o'.hooks, IsOwnerHook) == Only(o.hooks, IsOwnerHook)
    ensures TablesAfter(tb, o', owners, lingers)
  {
    if !(OwnersSame(tb, o) && !lingers) {
      var e := SomeChange(tb, o, owners, lingers);
      assert OwnersMoved(tb, o', e);
    }
  }

  lemma OwnersKept(o: Open, t: O.Txn, p: Prim, max: int)
    requires !p.Own? && !p.Complete?
    ensures var o' := Do(o, t, p, max);
            o'.bus.tables == o.bus.tables && o'.bus.connections == o.bus.connections && Only(o'.hooks, IsOwnerHook) == Only(o.hooks, IsOwnerHook)
  {
    if p.Reply? {
      ReplyStep(R.InTxn(o.bus.replies, o.bus.nextReply, Only(o.hooks, IsReplyHook)), p.op, max, o.hooks);
    } else {
      StepHooks(o, t, p, max);
    }
  }

  lemma ActivationKept(o: Open, t: O.Txn, p: Prim, max: int)
    requires !p.Appear? && !p.Start?
    ensures var o' := Do(o, t, p, max);
            o'.bus.activation == o.bus.activation && Only(o'.hooks, IsActivationHook) == Only(o.hooks, IsActivationHook)
  {
    if p.Reply? {
      ReplyStep(R.InTxn(o.bus.replies, o.bus.nextReply, Only(o.hooks, IsReplyHook)), p.op, max, o.hooks);
    } else {
      StepHooks(o, t, p, max);
    }
  }

  /** Some step asked for a service that others are already waiting for. */
  predicate Joins(b: Bus, prims: seq<Prim>) {
    prims != [] &&
      var p := prims[|prims| - 1];
      Joins(b, prims[..|prims| - 1]) || (p.Start? && p.n in b.activation.table)
  }

  lemma {:induction false} NoneJoins(b: Bus, prims: seq<Prim>)
    requires Activations(prims) == 0
    ensures !Joins(b, prims)
    decreases |prims|
  {
    if prims != [] {
      NoneJoins(b, prims[..|prims| - 1]);
    }
  }

  ghost predicate ActivationMoved(b: Bus, o: Open, joins: bool) {
    || (ActivationSame(b, o) && !joins)
    || (exists n :: Appeared(b, o, n) && !joins)
    || (exists n, exec, e :: Started(b, o, n, exec, e) && (joins <==> n in b.activation.table))
  }

  lemma {:induction false} ActivationsMoved(b: Bus, t: O.Txn, prims: seq<Prim>, max: int)
    requires Activations(prims) <= 1
    ensures var o := DoPrims(b, t, prims, max);
            && ActivationMoved(b, o, Joins(b, prims))
            && (Activations(prims) == 0 ==> ActivationSame(b, o))
    decreases |prims|
  {
    if prims != [] {
      var front, p := prims[..|prims| - 1], prims[|prims| - 1];
      ActivationsMoved(b, t, front, max);
      var o, o' := DoPrims(b, t, front, max), DoPrims(b, t, prims, max);
      if p.Appear? {
        NoneJoins(b, front);
        if Enabled(o.bus, t, p) {
          OnlyCons(RestoreActivation(b.activation.table[p.n]), o.hooks, IsActivationHook);
          assert Appeared(b, o', p.n);
        }
      } else if p.Start? {
        NoneJoins(b, front);
        OnlyCons(CancelActivation(A.ActivatedId(b.activation, p.n)), o.hooks, IsActivationHook);
        assert Started(b, o', p.n, p.exec, p.e);
      } else {
        ActivationKept(o, t, p, max);
        SameActivation(b, o, o', Joins(b, front));
      }
    }
  }

  lemma SameActivation(b: Bus, o: Open, o': Open, joins: bool)
    requires ActivationMoved(b, o, joins) && o'.bus.activation == o.bus.activation
    requires Only(o'.hooks, IsActivationHook) == Only(o.hooks, IsActivationHook)
    ensures ActivationMoved(b, o', joins)
  {
    if !(ActivationSame(b, o) && !joins) {
      if n :| Appeared(b, o, n) && !joins {
        assert Appeared(b, o', n);
      } else {
        var n, exec, e :| Started(b, o, n, exec, e) && (joins <==> n in b.activation.table);
        assert Started(b, o', n, exec, e);
      }
    }
  }

  lemma OthersOfSent(st: O.State, t: O.Txn, c: Conn, m: O.Message)
    requires t in st.txns && c in st.pending
    ensures O.WithoutTxn(O.Send(st, t, c, m).pending, t) == O.WithoutTxn(st.pending, t)
  {
    assert ([O.ToSend(t, m)] + st.pending[c])[1..] == st.pending[c];
  }

  lemma {:induction false} MessagesMoved(b: Bus, t: O.Txn, prims: seq<Prim>, max: int)
    requires OutboxMoved(b, Open(b, []), t)
    ensures OutboxMoved(b, DoPrims(b, t, prims, max), t)
    decreases |prims|
  {
    if prims != [] {
      var front, p := prims[..|prims| - 1], prims[|prims| - 1];
      MessagesMoved(b, t, front, max);
      var o := DoPrims(b, t, front, max);
      if p.Send? && Enabled(o.bus, t, p) && p.c in o.bus.outbox.connected {
        OthersOfSent(o.bus.outbox, t, p.c, p.m);
        O.SendKeepsListed(o.bus.outbox, t, p.c, p.m);
      }
    }
  }

  // ----- cancelling

  lemma OneHook(b: Bus, h: CancelHook)
    ensures RunAll(b, [h]) == RunHook(b, h) && FreeAll(b, [h]) == FreeHook(b, h)
  {
    assert [h][1..] == [];
    assert RunAll(RunHook(b, h), []) == RunHook(b, h);
    assert FreeAll(FreeHook(b, h), []) == FreeHook(b, h);
  }

  /** What the hooks do to the tables. */
  lemma {:induction false} TablesUndone(b: Bus, hooks: seq<CancelHook>)
    ensures RunAll(b, hooks).tables == OU.RunAll(b.tables, hooks)
    ensures FreeAll(b, hooks).tables == OU.FreeAll(b.tables, hooks)
    decreases |hooks|
  {
    if hooks != [] {
      TablesUndone(RunHook(b, hooks[0]), hooks[1..]);
      TablesUndone(FreeHook(b, hooks[0]), hooks[1..]);
    }
  }

  /** Cancelling undoes, for each part, what its own hooks say. */
  lemma CancelParts(b: Bus, hooks: seq<CancelHook>)
    ensures var b', owner, act := FreeAll(RunAll(b, hooks), hooks), Only(hooks, IsOwnerHook), Only(hooks, IsActivationHook);
            && b'.replies == R.UndoAll(b.replies, Only(hooks, IsReplyHook))
            && b'.tables == FreeAll(RunAll(b, owner), owner).tables
            && b'.activation == FreeAll(RunAll(b, act), act).activation
            && b'.outbox == b.outbox && b'.connections == b.connections
  {
    var owner, act := Only(hooks, IsOwnerHook), Only(hooks, IsActivationHook);
    RunAllParts(b, hooks);
    FreeAllParts(RunAll(b, hooks), hooks);
    OnlyOwners(RunAll(b, hooks), RunAll(b, owner), owner);
    OnlyActivations(RunAll(b, hooks), RunAll(b, act), act);
  }

  lemma ActivationCancelled(b: Bus, h: CancelHook)
    requires IsActivationHook(h)
    ensures FreeAll(RunAll(b, [h]), [h]).activation == A.CancelAndFree(b.activation, h)
  {
    OneHook(b, h);
    OneHook(RunHook(b, h), h);
  }

  /** What holds whenever a message is about to be dispatched in the new transaction `t`; `others` are the hooks of other open transactions. */
  ghost predicate Ready(b: Bus, t: O.Txn, others: seq<CancelHook>) {
    && R.Sound(R.InTxn(b.replies, b.nextReply, []))
    && A.RefsOk(b.activation, others)
    && O.Listed(b.outbox) && t in b.outbox.txns && b.outbox.txns[t] == []
  }

  lemma NewHoldsNothing(st: O.State, t: O.Txn)
    requires O.Listed(st) && t in st.txns && st.txns[t] == []
    ensures O.WithoutTxn(st.pending, t) == st.pending
  {
    forall c | c in st.pending
      ensures O.Others(st.pending[c], t) == st.pending[c]
    {
      assert O.Held(st.pending, c, t) == [];
      O.OthersOfNone(st.pending[c], t);
    }
  }

  lemma RepliesRestored(b: Bus, t: O.Txn, prims: seq<Prim>, max: int)
    requires R.Sound(R.InTxn(b.replies, b.nextReply, []))
    ensures var o := DoPrims(b, t, prims, max);
            && R.CanUndoAll(o.bus.replies, Only(o.hooks, IsReplyHook))
            && multiset(R.UndoAll(o.bus.replies, Only(o.hooks, IsReplyHook))) == multiset(b.replies)
  {
    RepliesMoved(b, t, prims, max);
    R.CancelRestores(b.replies, b.nextReply, Ops(prims), max);
  }

  lemma TablesRestored(b: Bus, b1: Bus, t: O.Txn, prims: seq<Prim>, max: int)
    requires Owners(prims) <= 1 && Completions(prims) <= 1
    requires b1.tables == DoPrims(b, t, prims, max).bus.tables
    ensures var owner := Only(DoPrims(b, t, prims, max).hooks, IsOwnerHook);
            FreeAll(RunAll(b1, owner), owner).tables == Named(b, prims) <==> !Lingers(b, prims)
    ensures DoPrims(b, t, prims, max).bus.connections == Completed(b, prims)
  {
    TablesMoved(b, t, prims, max);
    var o, tb, lingers := DoPrims(b, t, prims, max), Named(b, prims), Lingers(b, prims);
    var owner := Only(o.hooks, IsOwnerHook);
    TablesUndone(b1, owner);
    TablesUndone(RunAll(b1, owner), owner);
    if !(OwnersSame(tb, o) && !lingers) {
      var e := SomeChange(tb, o, Owners(prims), lingers);
      OU.EditUndoneIff(tb, e);
    }
  }

  lemma CountsShows(b: Bus, p: Prim)
    requires p.Complete? && CanComplete(b, p.c)
    ensures var now := C.Complete(b.connections, p.c, p.outcome, p.now, p.lim);
            Counts(b, p) <==> now != b.connections
  {
    C.UnlinkFacts(b.connections.incomplete, p.c);
    if p.outcome == C.Done {
      assert |C.Complete(b.connections, p.c, p.outcome, p.now, p.lim).incomplete| == |b.connections.incomplete| - 1;
    } else if p.outcome == C.NoLoginInfo {
      var uid := C.PeerOf(b.connections.incomplete, p.c).uid;
      if uid.Some? {
        C.AdjustChanges(b.connections.byUser, uid.value);
      }
    }
  }

  /** A completion that counts is there to stay, and nothing else of the connections and their names is. */
  lemma {:induction false} CompletionStays(b: Bus, prims: seq<Prim>)
    requires Completions(prims) <= 1
    ensures Completed(b, prims) == b.connections <==> !Completes(b, prims)
    ensures !Completes(b, prims) ==> Named(b, prims) == b.tables
    decreases |prims|
  {
    if prims != [] {
      var front, p := prims[..|prims| - 1], prims[|prims| - 1];
      if p.Complete? {
        NobodyCompleted(b, front);
        if CanComplete(b, p.c) { CountsShows(b, p); }
      } else {
        CompletionStays(b, front);
      }
    }
  }

  lemma ActivationRestored(b: Bus, b1: Bus, t: O.Txn, prims: seq<Prim>, max: int, others: seq<CancelHook>)
    requires Activations(prims) <= 1 && A.RefsOk(b.activation, others)
    requires b1.activation == DoPrims(b, t, prims, max).bus.activation
    ensures var act := Only(DoPrims(b, t, prims, max).hooks, IsActivationHook);
            var st' := FreeAll(RunAll(b1, act), act).activation;
            && (!Joins(b, prims) ==> st' == b.activation.(nextId := st'.nextId))
            && (Joins(b, prims) ==> st'.table != b.activation.table)
  {
    ActivationsMoved(b, t, prims, max);
    var o, joins := DoPrims(b, t, prims, max), Joins(b, prims);
    if !(ActivationSame(b, o) && !joins) {
      if n :| Appeared(b, o, n) && !joins {
        ActivationCancelled(b1, RestoreActivation(b.activation.table[n]));
        A.CancelRestoresFinished(b.activation, others, n);
      } else {
        var n, exec, e :| Started(b, o, n, exec, e) && (joins <==> n in b.activation.table);
        ActivationCancelled(b1, CancelActivation(A.ActivatedId(b.activation, n)));
        A.CancelRestoresTableIff(b.activation, others, n, exec, e);
        if !joins { A.CancelRestoresCreated(b.activation, others, n, exec, e); }
      }
    }
  }

  /** The bus as it was before the transaction, which is gone. Records are compared, not the numbers they are identified by. */
  ghost predicate Restored(b: Bus, b': Bus, t: O.Txn) {
    && b'.tables == b.tables && b'.connections == b.connections
    && multiset(b'.replies) == multiset(b.replies)
    && b'.outbox == b.outbox.(txns := b.outbox.txns - {t})
    && b'.activation.(nextId := b.activation.nextId) == b.activation
  }

  /**
   Running out of memory after any step of dispatching a message, and cancelling: the messages of other
   transactions and the pending replies are always as they were. The owners are, apart from the name of a
   completed connection, if and only if no step changed them in a way that cannot be undone. The whole
   bus is as it was if and only if there was no such step, no step joined the activation of a service
   that was already being started and no step completed a connection.
   */
  lemma CancelRestoresBus(b: Bus, t: O.Txn, prims: seq<Prim>, max: int, others: seq<CancelHook>)
    requires Ready(b, t, others) && OneDispatch(prims)
    ensures var o := DoPrims(b, t, prims, max);
            && t in o.bus.outbox.txns && O.AllKnown(o.bus.outbox, o.bus.outbox.txns[t])
            && var b' := Cancel(o, t);
               && (b'.tables == Named(b, prims) <==> !Lingers(b, prims)) && b'.connections == Completed(b, prims)
               && multiset(b'.replies) == multiset(b.replies)
               && b'.outbox == b.outbox.(txns := b.outbox.txns - {t})
               && (b'.activation.(nextId := b.activation.nextId) == b.activation <==> !Joins(b, prims))
               && (Restored(b, b', t) <==> !Lingers(b, prims) && !Joins(b, prims) && !Completes(b, prims))
  {
    var o := DoPrims(b, t, prims, max);
    NewHoldsNothing(b.outbox, t);
    MessagesMoved(b, t, prims, max);
    O.CancelForgets(o.bus.outbox, t);
    var b1 := o.bus.(outbox := O.Cancel(o.bus.outbox, t));
    CancelParts(b1, o.hooks);
    RepliesRestored(b, t, prims, max);
    TablesRestored(b, b1, t, prims, max);
    ActivationRestored(b, b1, t, prims, max, others);
    CompletionStays(b, prims);
  }
}
