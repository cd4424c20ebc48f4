/** Pending activations as the daemon updates them (bus/activation.c:949-1209, 1376-1413, 1571-1915). */
module ActivationObject {
  import opened BusTypes
  import opened Transactions
  import opened Activations
  import AA = ActivationAnswers
  import D = Dispatch
  import R = PendingReplies
  import Routing
  import opened DispatchObject
  import opened ReplyObject

  datatype ActivateError = LimitsExceeded | ServiceUnknown | SpawnFailed

  /** What becomes of a request to activate; `spawn` says that a program was started for it. */
  datatype ActivateResult = Failed(error: ActivateError) | AlreadyRunning | Waiting(spawn: bool)

  /** What the sender of the request is told at once. */
  function Told(e: Entry, r: ActivateResult): seq<AA.Answer> {
    match r
    case Failed(_) => [AA.Answer(e.message, AA.Failed)]
    case AlreadyRunning => [AA.Answer(e.message, AA.AlreadyRunning)]
    case Waiting(_) => []
  }

  lemma {:induction false} KeepSnoc(entries: seq<Entry>, e: Entry, p: Entry -> bool)
    ensures AA.Keep(entries + [e], p) == AA.Keep(entries, p) + if p(e) then [e] else []
  {
    if entries == [] {
      assert entries + [e] == [e] && [e][1..] == [];
    } else {
      assert (entries + [e])[1..] == entries[1..] + [e] && (entries + [e])[0] == entries[0];
      KeepSnoc(entries[1..], e, p);
    }
  }

  /** The requests in the table, by service. */
  function Records(st: State): map<Name, AA.Record> {
    map n | n in st.table && st.table[n] in st.heap :: AA.Record(st.heap[st.table[n]].exec, st.heap[st.table[n]].entries)
  }

  /** The table with one more request. */
  function WithRequest(rs: map<Name, AA.Record>, n: Name, exec: string, e: Entry): map<Name, AA.Record> {
    rs[n := if n in rs then AA.Record(rs[n].exec, rs[n].entries + [e]) else AA.Record(exec, [e])]
  }

  lemma JoinRecords(st: State, n: Name, exec: string, e: Entry)
    requires TableOk(st) && n in st.table
    ensures TableOk(Activate(st, n, exec, e)) && Records(Activate(st, n, exec, e)) == WithRequest(Records(st), n, exec, e)
  {
    var st', id := Activate(st, n, exec, e), st.table[n];
    assert st'.table == st.table && st'.heap.Keys == st.heap.Keys;
    assert forall k :: k in st.heap && k != id ==> st'.heap[k] == st.heap[k];
    assert forall k :: k in st.table && k != n ==> st.table[k] != id;
  }

  lemma CreateRecords(st: State, n: Name, exec: string, e: Entry)
    requires TableOk(st) && n !in st.table && st.nextId !in st.heap
    ensures TableOk(Activate(st, n, exec, e)) && Records(Activate(st, n, exec, e)) == WithRequest(Records(st), n, exec, e)
  {
    var st', id := Activate(st, n, exec, e), st.nextId;
    assert st'.table == st.table[n := id];
    assert forall k :: k in st.heap ==> st'.heap[k] == st.heap[k];
    assert forall k :: k in st.table ==> st.table[k] != id;
  }

  /** The program has to be started: nobody waits for this service or for another one it provides. */
  predicate Needs(st: State, n: Name, exec: string)
    requires TableOk(st)
  {
    n !in st.table && forall k :: k in st.table ==> st.heap[st.table[k]].exec != exec
  }

  lemma NeedsRecords(st: State, n: Name, exec: string)
    requires TableOk(st)
    ensures Needs(st, n, exec) <==> n !in Records(st) && forall k :: k in Records(st) ==> Records(st)[k].exec != exec
  {
    assert Records(st).Keys == st.table.Keys;
  }

  /** What the request does to the table, and what its sender is told, if nothing keeps it from being entered. */
  lemma AskEntered(rs: map<Name, AA.Record>, active: bool, n: Name, e: Entry, exec: string, spawn: AA.Spawn)
    requires e.auto || !active
    ensures var asked := AA.State(rs, if active then {n} else {}, {e.conn}, map[], []);
            var asked' := AA.DoAsk(asked, n, e, Some(exec), false, spawn);
            var needs := n !in rs && forall k :: k in rs ==> rs[k].exec != exec;
            && asked'.waiting == (if needs && spawn == AA.BadCommand then rs else WithRequest(rs, n, exec, e))
            && asked'.log == if needs && spawn != AA.Spawned then [AA.Answer(e.message, AA.Failed)] else []
  {
    var asked := AA.State(rs, if active then {n} else {}, {e.conn}, map[], []);
    assert AA.NeedsSpawn(asked, n, exec) <==> n !in rs && forall k :: k in rs ==> rs[k].exec != exec;
  }

  lemma RemoveRecords(st: State, n: Name)
    requires TableOk(st)
    ensures TableOk(TableRemove(st, n)) && Records(TableRemove(st, n)) == Records(st) - {n}
    ensures TableRemove(st, n).heap.Keys <= st.heap.Keys && TableRemove(st, n).nextId == st.nextId
  {
    var st' := TableRemove(st, n);
    if n in st.table {
      assert st'.table == st.table - {n};
      assert forall k :: k in st'.table ==> st'.table[k] in st'.heap && st'.heap[st'.table[k]] == st.heap[st.table[k]];
    }
  }

  /** The state after the program was started, or not, for a new request. */
  function Started(st: State, n: Name, exec: string, e: Entry, spawn: AA.Spawn): State
    requires TableOk(st)
  {
    if Needs(st, n, exec) && spawn == AA.BadCommand then TableRemove(Activate(st, n, exec, e), n) else Activate(st, n, exec, e)
  }

  lemma WithdrawnRequest(rs: map<Name, AA.Record>, n: Name, exec: string, e: Entry)
    requires n !in rs
    ensures WithRequest(rs, n, exec, e) - {n} == rs
  {
  }

  /** Taking back the first request for a service leaves the table as it was. */
  lemma WithdrawnRecords(st: State, n: Name, exec: string, e: Entry)
    requires TableOk(st) && n !in st.table && st.nextId !in st.heap
    ensures Records(TableRemove(Activate(st, n, exec, e), n)) == Records(st)
  {
    CreateRecords(st, n, exec, e);
    RemoveRecords(Activate(st, n, exec, e), n);
    WithdrawnRequest(Records(st), n, exec, e);
  }

  lemma StartedRecords(st: State, n: Name, exec: string, e: Entry, spawn: AA.Spawn)
    requires TableOk(st) && st.nextId !in st.heap
    ensures Records(Started(st, n, exec, e, spawn)) ==
            if Needs(st, n, exec) && spawn == AA.BadCommand then Records(st) else WithRequest(Records(st), n, exec, e)
  {
    if n in st.table {
      JoinRecords(st, n, exec, e);
    } else if Needs(st, n, exec) && spawn == AA.BadCommand {
      WithdrawnRecords(st, n, exec, e);
    } else {
      CreateRecords(st, n, exec, e);
    }
  }

  lemma FinishRecords(st: State, n: Name)
    requires TableOk(st) && n in st.table
    ensures TableOk(Finish(st, n)) && Records(Finish(st, n)) == Records(st) - {n}
    ensures Finish(st, n).heap.Keys <= st.heap.Keys && Finish(st, n).nextId == st.nextId
  {
    var st1 := Ref(st, st.table[n]);
    assert Records(st1) == Records(st);
    RemoveRecords(st1, n);
  }

  lemma ActivateKeepsTable(st: State, n: Name, exec: string, e: Entry)
    requires TableOk(st) && forall id :: id in st.heap ==> id < st.nextId
    ensures var st' := Activate(st, n, exec, e); TableOk(st') && forall id :: id in st'.heap ==> id < st'.nextId
  {
    if n in st.table { JoinRecords(st, n, exec, e); } else { CreateRecords(st, n, exec, e); }
  }

  class ActivationKeeper {
    var heap: map<nat, Pending>
    var table: map<Name, nat>
    var count: int
    var nextId: nat

    ghost function View(): State
      reads this
    {
      State(heap, table, count, nextId)
    }

    ghost predicate Valid()
      reads this
    {
      TableOk(View()) && forall id :: id in heap ==> id < nextId
    }

    constructor ()
      ensures Valid() && View() == INIT
    {
      heap, table, count, nextId := map[], map[], 0, 0;
    }

    method UnrefPending(id: nat)
      modifies this`heap, this`count
      ensures View() == Unref(old(View()), id)
    {
      if id !in heap {
        return;
      }
      var p := heap[id];
      if p.refs - 1 > 0 {
        heap := heap[id := p.(refs := p.refs - 1)];
        return;
      }
      heap := heap - {id};
      count := count - p.nEntries;
    }

    method RemoveFromTable(n: Name)
      modifies this`heap, this`table, this`count
      ensures View() == TableRemove(old(View()), n)
    {
      if n in table {
        var id := table[n];
        table := table - {n};
        UnrefPending(id);
      }
    }

    /** Takes the record out of the table. */
    method Withdraw(n: Name)
      requires Valid()
      modifies this`heap, this`table, this`count
      ensures Valid() && View() == TableRemove(old(View()), n)
    {
      RemoveRecords(View(), n);
      RemoveFromTable(n);
    }

    /** Joins or creates the record; `activated` says that its program has been started already. */
    method EnterRequest(n: Name, exec: string, e: Entry) returns (id: nat, activated: bool)
      requires Valid()
      modifies this
      ensures id == ActivatedId(old(View()), n) && id in heap
      ensures Ref(View(), id) == Activate(old(View()), n, exec, e)
      ensures activated <==> !Needs(old(View()), n, exec)
    {
      activated, id := true, nextId;
      if n in table {
        id := table[n];
        var p := heap[id];
        heap := heap[id := p.(entries := p.entries + [e], nEntries := p.nEntries + 1)];
      } else {
        activated := exists k :: k in table && heap[table[k]].exec == exec;
        heap := heap[id := Pending(n, exec, [e], 1, 1)];
        table := table[n := id];
        nextId := nextId + 1;
      }
      count := count + 1;
    }

    /**
     `bus_activation_activate_service`; `provided` is the command line of the service file, if there is one, and
     `spawn` says how starting it would go. A program is started for the first of its services only. If that
     fails the sender is told so, and yet its request stays in the table unless the command line is at fault.
     */
    method ActivateService(t: Transaction, n: Name, provided: Option<string>, active: bool, e: Entry, max: int, spawn: AA.Spawn)
      returns (r: ActivateResult)
      requires Valid()
      modifies this, t`cancelHooks
      ensures Valid()
      ensures r == Failed(LimitsExceeded) <==> old(count) >= max
      ensures r == Failed(ServiceUnknown) <==> old(count) < max && provided.None?
      ensures r == AlreadyRunning <==> old(count) < max && provided.Some? && !e.auto && active
      ensures var asked := AA.State(Records(old(View())), if active then {n} else {}, {e.conn}, map[], []);
              var asked' := AA.DoAsk(asked, n, e, provided, old(count) >= max, spawn);
              Records(View()) == asked'.waiting && Told(e, r) == asked'.log
      ensures r.Waiting? ==> View() == Activate(old(View()), n, provided.value, e)
      ensures r.Waiting? ==> (r.spawn <==> Needs(old(View()), n, provided.value))
      ensures r == Failed(SpawnFailed) ==>
                View() == if spawn == AA.BadCommand then TableRemove(Activate(old(View()), n, provided.value, e), n)
                          else Activate(old(View()), n, provided.value, e)
      ensures t.cancelHooks == if r.Waiting? || r == Failed(SpawnFailed) then [CancelActivation(ActivatedId(old(View()), n))] + old(t.cancelHooks)
                               else old(t.cancelHooks)
      ensures !r.Waiting? && r != Failed(SpawnFailed) ==> View() == old(View())
    {
      if count >= max {
        return Failed(LimitsExceeded);
      }
      if provided.None? {
        return Failed(ServiceUnknown);
      }
      if !e.auto && active {
        return AlreadyRunning;
      }
      AskEntered(Records(View()), active, n, e, provided.value, spawn);
      NeedsRecords(View(), n, provided.value);
      StartedRecords(View(), n, provided.value, e, spawn);
      r := StartService(t, n, provided.value, e, spawn);
    }

    /** Enters the request and starts the program if nobody else waits for it. */
    method StartService(t: Transaction, n: Name, exec: string, e: Entry, spawn: AA.Spawn) returns (r: ActivateResult)
      requires Valid()
      modifies this, t`cancelHooks
      ensures Valid()
      ensures var needs := Needs(old(View()), n, exec);
              && r == (if !needs then Waiting(false) else if spawn == AA.Spawned then Waiting(true) else Failed(SpawnFailed))
              && View() == Started(old(View()), n, exec, e, spawn)
      ensures t.cancelHooks == [CancelActivation(ActivatedId(old(View()), n))] + old(t.cancelHooks)
    {
      var activated := EnterWithHook(t, n, exec, e);
      if activated {
        return Waiting(false);
      }
      if spawn == AA.Spawned {
        return Waiting(true);
      }
      if spawn == AA.BadCommand {
        Withdraw(n);
      }
      r := Failed(SpawnFailed);
    }

    /** The request with its cancel hook, which holds the record. */
    method EnterWithHook(t: Transaction, n: Name, exec: string, e: Entry) returns (activated: bool)
      requires Valid()
      modifies this, t`cancelHooks
      ensures Valid() && View() == Activate(old(View()), n, exec, e)
      ensures activated <==> !Needs(old(View()), n, exec)
      ensures t.cancelHooks == [CancelActivation(ActivatedId(old(View()), n))] + old(t.cancelHooks)
    {
      ghost var st1 := Activate(View(), n, exec, e);
      ActivateKeepsTable(View(), n, exec, e);
      var id: nat;
      id, activated := EnterRequest(n, exec, e);
      t.AddCancelHook(CancelActivation(id));
      heap := heap[id := heap[id].(refs := heap[id].refs + 1)];
      assert View() == st1;
    }

    /** `cancel_pending` and `restore_pending`. */
    method RunCancelHook(h: CancelHook)
      requires h.CancelActivation? || h.RestoreActivation?
      modifies this`heap, this`table, this`count
      ensures View() == CancelHookRuns(old(View()), h)
    {
      if h.pendingId !in heap {
        return;
      }
      var n := heap[h.pendingId].name;
      RemoveFromTable(n);
      if h.RestoreActivation? {
        table := table[n := h.pendingId];
        if h.pendingId in heap {
          heap := heap[h.pendingId := heap[h.pendingId].(refs := heap[h.pendingId].refs + 1)];
        }
      }
    }

    /** `bus_activation_service_created`: answers the explicit requests. */
    method ServiceCreated(n: Name, connected: set<Conn>) returns (replied: seq<Entry>)
      requires Valid()
      ensures replied == if n in table then AA.Replied(heap[table[n]].entries, connected) else []
    {
      replied := [];
      if n !in table {
        return;
      }
      ghost var p := (e: Entry) => e.conn in connected && !e.auto;
      var entries := heap[table[n]].entries;
      for i := 0 to |entries|
        invariant replied == AA.Keep(entries[..i], p)
      {
        var entry := entries[i];
        assert entries[..i + 1] == entries[..i] + [entry];
        KeepSnoc(entries[..i], entry, p);
        if entry.conn in connected {
          if !entry.auto {
            replied := replied + [entry];
          }
        }
      }
      assert entries[..|entries|] == entries;
    }

    /**
     `bus_activation_send_pending_auto_activation_messages`: delivers the waiting messages and takes the
     record off the table; the first message that is refused stops that and leaves the record in place, and
     the messages and licences already put into the transaction too.
     */
    method SendPendingAutoActivationMessages(t: Transaction, keeper: ReplyKeeper, w: D.World, n: Name, owner: Conn, connected: set<Conn>,
                                             content: int -> D.Incoming)
      returns (ok: bool, sent: seq<Entry>)
      requires Valid() && R.Sound(keeper.View(t))
      requires n in table ==> AA.PeersKnown(w, owner, heap[table[n]].entries, connected)
      modifies this, t`cancelHooks, keeper`nextId, keeper.pendingReplies`items, keeper.pendingReplies`timer
      ensures Valid() && R.Sound(keeper.View(t))
      ensures n !in old(table) ==> ok && sent == [] && View() == old(View()) && keeper.View(t) == old(keeper.View(t))
      ensures n in old(table) ==>
                var f := AA.Forward(content, w, owner, old(heap)[old(table)[n]].entries, connected, old(keeper.View(t)));
                && ok == !f.refused && sent == f.sent
                && View() == (if ok then Finish(old(View()), n) else old(View()))
                && Records(View()) == (if ok then Records(old(View())) - {n} else Records(old(View())))
                && keeper.View(t) == if ok then f.s.(hooks := [RestoreActivation(old(table)[n])] + f.s.hooks) else f.s
    {
      sent := [];
      if n !in table {
        return true, [];
      }
      FinishRecords(View(), n);
      var id := table[n];
      var entries := heap[id].entries;
      ok, sent := ForwardAll(t, keeper, w, owner, entries, connected, content);
      if !ok {
        return;
      }
      FinishActivation(t, n);
    }

    /** The record leaves the table and is held by a hook that would put it back. */
    method FinishActivation(t: Transaction, n: Name)
      requires n in table && table[n] in heap
      modifies this`heap, this`table, this`count, t`cancelHooks
      ensures View() == Finish(old(View()), n)
      ensures t.cancelHooks == [RestoreActivation(old(table)[n])] + old(t.cancelHooks)
    {
      var id := table[n];
      t.AddCancelHook(RestoreActivation(id));
      heap := heap[id := heap[id].(refs := heap[id].refs + 1)];
      RemoveFromTable(n);
    }

    /** `pending_activation_failed`: everybody who still waits gets an error. */
    method PendingActivationFailed(n: Name, connected: set<Conn>) returns (told: seq<Entry>)
      requires Valid()
      modifies this`heap, this`table, this`count
      ensures Valid() && View() == TableRemove(old(View()), n)
      ensures told == if n in old(table) then AA.StillThere(old(heap)[old(table)[n]].entries, connected) else []
    {
      told := [];
      RemoveRecords(View(), n);
      if n in table {
        ghost var p := (e: Entry) => e.conn in connected;
        var entries := heap[table[n]].entries;
        for i := 0 to |entries|
          invariant told == AA.Keep(entries[..i], p)
          modifies {}
        {
          assert entries[..i + 1] == entries[..i] + [entries[i]];
          KeepSnoc(entries[..i], entries[i], p);
          if entries[i].conn in connected {
            told := told + [entries[i]];
          }
        }
        assert entries[..|entries|] == entries;
      }
      RemoveFromTable(n);
    }
  }

  /** The check of one waiting message. */
  method CheckWaiting(t: Transaction, keeper: ReplyKeeper, w: D.World, x: D.Incoming, owner: Conn) returns (allowed: bool)
    requires x.sender in w.rules && owner in w.rules && R.Sound(keeper.View(t))
    modifies keeper`nextId, keeper.pendingReplies`items, keeper.pendingReplies`timer, t`cancelHooks
    ensures var v := D.Check(w, x, owner, old(keeper.View(t))); allowed == v.allowed && keeper.View(t) == v.s
    ensures R.Sound(keeper.View(t))
  {
    D.CheckBalance(w, x, owner, keeper.View(t), 0, 0, 0);
    Routing.DecideIsCheck(w, x, owner, keeper.View(t));
    var fault, requested := CheckSecurityPolicy(keeper, t, w, x, false, Some(owner), owner in x.barred);
    allowed := fault.None?;
  }

  /** The loop over the waiting messages. */
  method ForwardAll(t: Transaction, keeper: ReplyKeeper, w: D.World, owner: Conn, entries: seq<Entry>, connected: set<Conn>, content: int -> D.Incoming)
    returns (ok: bool, sent: seq<Entry>)
    requires AA.PeersKnown(w, owner, entries, connected) && R.Sound(keeper.View(t))
    modifies keeper`nextId, keeper.pendingReplies`items, keeper.pendingReplies`timer, t`cancelHooks
    ensures AA.Forwarding(sent, !ok, keeper.View(t)) == AA.Forward(content, w, owner, entries, connected, old(keeper.View(t)))
    ensures R.Sound(keeper.View(t))
  {
    sent := [];
    ghost var want := AA.Forward(content, w, owner, entries, connected, keeper.View(t));
    assert entries[0..] == entries && [] + want.sent == want.sent;
    for i := 0 to |entries|
      invariant R.Sound(keeper.View(t)) && AA.PeersKnown(w, owner, entries[i..], connected)
      invariant var f := AA.Forward(content, w, owner, entries[i..], connected, keeper.View(t));
                want == f.(sent := sent + f.sent)
    {
      var entry := entries[i];
      assert entries[i..][0] == entry && entries[i..][1..] == entries[i + 1..];
      if entry.auto && entry.conn in connected {
        ghost var before := sent;
        var allowed := CheckWaiting(t, keeper, w, AA.Letter(content, entry, owner), owner);
        if !allowed {
          assert sent + [] == sent;
          return false, sent;
        }
        sent := sent + [entry];
        ghost var g := AA.Forward(content, w, owner, entries[i + 1..], connected, keeper.View(t));
        assert before + ([entry] + g.sent) == sent + g.sent;
      }
    }
    assert entries[|entries|..] == [] && sent + [] == sent;
    ok := true;
  }
}
