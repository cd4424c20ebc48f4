/** The registry object and its operations, step by step as the daemon performs them (bus/services.c, bus/driver.c). */
module RegistryObject {
  import opened BusTypes
  import opened ListFacts
  import opened OwnerQueues
  import opened UniqueNames
  import opened NameRegistry
  import opened RegistryRuns
  import opened Transactions
  import OU = OwnerUndo
  import opened OwnerIndex

  lemma ReleaseIsStep(st: State, c: Conn, n: Name, validName: bool)
    requires Inv(st) && Active(st.clients, c)
    ensures var st' := Apply(st, Step.ReleaseName(c, n, validName), 0);
            Inv(st') && st' == if NameRefusal(n, validName).None? then DoRelease(st, c, n) else st
  {
    ApplyKeepsInv(st, Step.ReleaseName(c, n, validName), 0);
  }

  datatype Outcome = Replied(reply: RequestReply) | Refused(error: Error)

  class Registry {
    var services: map<Name, Queue>
    var clients: map<Conn, Client>
    var refs: map<OwnerKey, int>
    var counters: Counters
    /** Ownership signals of executed transactions. */
    ghost var log: seq<Signal>

    ghost function View(): State
      reads this
    {
      State(services, clients, counters, log)
    }

    ghost function Owners(): Index
      reads this
    {
      Index(clients, refs)
    }

    ghost function InTransaction(): Tables
      reads this
    {
      Tables(services, Owners())
    }

    ghost predicate Valid()
      reads this
    {
      Inv(View()) && AtRest(services, refs)
    }

    constructor ()
      ensures Valid() && View() == INIT
    {
      services, clients, refs, counters, log := map[], map[], map[], INITIAL, [];
      new;
      InitInv();
    }

    /** `_bus_service_find_owner_link`. */
    method FindOwner(q: Queue, c: Conn) returns (p: int)
      ensures p == Position(q, c)
    {
      var i := 0;
      while i < |q| && q[i].conn != c
        invariant 0 <= i <= |q|
        invariant forall k :: 0 <= k < i ==> q[k].conn != c
      {
        i := i + 1;
      }
      p := if i < |q| then i else -1;
      PositionIs(q, c, p);
    }

    method UnrefOwner(n: Name, c: Conn)
      requires Owners().Holds(n, c)
      modifies this`clients, this`refs
      ensures Owners() == old(Owners()).Unref(n, c)
    {
      refs := refs[(n, c) := refs[(n, c)] - 1];
      if refs[(n, c)] <= 0 {
        refs := refs - {(n, c)};
        var d := clients[c];
        clients := clients[c := Client(d.uniqueName, RemoveLast(d.owned, n), d.nOwned - 1)];
      }
      assert Owners() == old(Owners()).Unref(n, c);
    }

    method FreeCancelHooks(t: Transaction)
      requires Owners().CanFree(t.cancelHooks)
      modifies this`clients, this`refs, t`cancelHooks
      ensures Owners() == old(Owners()).Free(old(t.cancelHooks)) && t.cancelHooks == []
    {
      while t.cancelHooks != []
        invariant Owners().CanFree(t.cancelHooks)
        invariant Owners().Free(t.cancelHooks) == old(Owners()).Free(old(t.cancelHooks))
        decreases |t.cancelHooks|
      {
        var h := t.cancelHooks[0];
        UnrefOwner(h.name, HookConn(h));
        t.cancelHooks := t.cancelHooks[1..];
      }
    }

    /** `bus_transaction_execute_and_free`, as far as the registry is concerned. */
    method Execute(t: Transaction)
      requires Owners().CanFree(t.cancelHooks)
      modifies this`clients, this`refs, this`log, t
      ensures Owners() == old(Owners()).Free(old(t.cancelHooks))
      ensures log == old(log + t.announced)
    {
      log := log + t.announced;
      FreeCancelHooks(t);
    }

    /** Where the link of an owner goes; `p` is where it is in the list, -1 if it is new. */
    method LinkOwner(q: Queue, p: int, c: Conn, f: Flags) returns (q': Queue)
      requires p == Position(q, c) && (q != [] ==> q[0].conn != c)
      ensures q' == PutOwner(q, c, f)
    {
      var o := NewOwner(c, f);
      PutOwnerAt(q, c, f);
      if p < 0 {
        if !f.replaceExisting || q == [] {
          q' := q + [o];
        } else {
          q' := [q[0]] + [o] + q[1..];
        }
      } else if f.replaceExisting {
        q' := q[..p] + q[p + 1..];
        q' := [q'[0]] + [o] + q'[1..];
      } else {
        q' := q[p := o];
      }
    }

    /** `bus_service_add_owner` on the owner list `q` of the service `n`. */
    method AddOwner(t: Transaction, n: Name, q: Queue, c: Conn, f: Flags) returns (q': Queue)
      requires c in clients && (q != [] ==> q[0].conn != c)
      modifies this`clients, this`refs, t`cancelHooks, t`announced
      ensures q' == PutOwner(q, c, f)
      ensures t.announced == old(t.announced) + if q == [] then [NameAcquired(c, n)] else []
      ensures Owners() == AddIndex(old(Owners()), q, n, c)
      ensures t.cancelHooks == AddHooks(q, n, c) + old(t.cancelHooks)
    {
      if q == [] {
        t.Announce(NameAcquired(c, n));
      }
      var p := FindOwner(q, c);
      if p < 0 {
        var d := clients[c];
        clients := clients[c := Client(d.uniqueName, d.owned + [n], d.nOwned + 1)];
        refs := refs[(n, c) := 1];
        t.AddCancelHook(CancelOwnership(n, c));
        refs := refs[(n, c) := refs[(n, c)] + 1];
      }
      q' := LinkOwner(q, p, c, f);
    }

    /** `bus_service_swap_owner`: the primary owner `c` changes places with the one behind it. */
    method SwapOwner(t: Transaction, n: Name, q: Queue, c: Conn) returns (q': Queue)
      requires |q| > 1 && q[0].conn == c && Owners().Holds(n, c)
      modifies this`refs, t`cancelHooks, t`announced
      ensures q' == [q[1], q[0]] + q[2..]
      ensures Owners() == old(Owners()).Ref(n, c)
      ensures t.cancelHooks == [RestoreOwnership(n, q[0], Some(q[1].conn))] + old(t.cancelHooks)
      ensures t.announced == old(t.announced)
              + [NameLost(c, n), NameOwnerChanged(n, ConnName(clients, c), ConnName(clients, q[1].conn)), NameAcquired(q[1].conn, n)]
    {
      t.Announce(NameLost(c, n));
      t.Announce(NameOwnerChanged(n, ConnName(clients, c), ConnName(clients, q[1].conn)));
      t.Announce(NameAcquired(q[1].conn, n));
      t.AddCancelHook(RestoreOwnership(n, q[0], Some(q[1].conn)));
      refs := refs[(n, c) := refs[(n, c)] + 1];
      var swapped := q[0];
      q' := q[1..];
      q' := [q'[0]] + [swapped] + q'[1..];
    }

    /** `bus_service_remove_owner` on the owner list `q`; an empty result unlinks the service. */
    method RemoveOwner(t: Transaction, n: Name, q: Queue, c: Conn) returns (q': Queue)
      requires Distinct(q) && Has(q, c) && Owners().Holds(n, c) && refs[(n, c)] == 1
      modifies this`clients, this`refs, t`cancelHooks, t`announced
      ensures q' == Without(q, c)
      ensures t.announced == old(t.announced) + ChangeSignals(old(clients), n, Primary(q), Primary(q'))
      ensures Owners() == RemoveIndex(old(Owners()), q, n, c)
      ensures t.cancelHooks == RemoveHooks(q, n, c) + old(t.cancelHooks)
    {
      var p := FindOwner(q, c);
      WithoutAt(q, c);
      ghost var ix := Owners();
      if p == 0 {
        t.Announce(NameLost(c, n));
        if |q| == 1 {
          t.Announce(NameOwnerChanged(n, ConnName(clients, c), ""));
        } else {
          t.Announce(NameOwnerChanged(n, ConnName(clients, c), ConnName(clients, q[1].conn)));
          t.Announce(NameAcquired(q[1].conn, n));
        }
        t.AddCancelHook(RestoreOwnership(n, q[0], Second(q)));
        refs := refs[(n, c) := refs[(n, c)] + 1];
        q' := q[1..];
        UnrefOwner(n, c);
        RefUnref(ix, n, c);
      } else {
        q' := q[..p] + q[p + 1..];
        UnrefOwner(n, c);
      }
    }

    /** `bus_registry_ensure` for a name that has no service yet. */
    method Ensure(t: Transaction, n: Name, c: Conn, f: Flags)
      requires n !in services && c in clients
      modifies this`services, this`clients, this`refs, t`cancelHooks, t`announced
      ensures services == old(services)[n := [NewOwner(c, f)]]
      ensures Owners() == old(Owners()).Take(n, c).Ref(n, c)
      ensures t.cancelHooks == [CancelOwnership(n, c)] + old(t.cancelHooks)
      ensures t.announced == old(t.announced) + [NameOwnerChanged(n, "", ConnName(old(clients), c)), NameAcquired(c, n)]
    {
      t.Announce(NameOwnerChanged(n, "", ConnName(clients, c)));
      var q := AddOwner(t, n, [], c, f);
      assert q == [NewOwner(c, f)];
      services := services[n := q];
    }

    /** The primary owner makes way for the one behind it: it is removed if it does not want to wait. */
    method Displace(t: Transaction, n: Name, q: Queue) returns (q': Queue)
      requires Distinct(q) && |q| > 1 && Owners().Holds(n, q[0].conn) && refs[(n, q[0].conn)] == 1
      modifies this`clients, this`refs, t`cancelHooks, t`announced
      ensures q' == if q[0].doNotQueue then Without(q, q[0].conn) else [q[1], q[0]] + q[2..]
      ensures Owners() == if q[0].doNotQueue then old(Owners()) else old(Owners()).Ref(n, q[0].conn)
      ensures t.cancelHooks == [RestoreOwnership(n, q[0], Some(q[1].conn))] + old(t.cancelHooks)
      ensures t.announced == old(t.announced) + ChangeSignals(old(clients), n, Some(q[0].conn), Some(q[1].conn))
    {
      var p := q[0].conn;
      if q[0].doNotQueue {
        assert q[0] in q;
        q' := RemoveOwner(t, n, q, p);
        assert q' == q[1..] by { WithoutAt(q, p); PositionIs(q, p, 0); }
      } else {
        q' := SwapOwner(t, n, q, p);
      }
    }

    /** The branch of `bus_registry_acquire_service` that displaces the primary owner of the queue `q` of `n`. */
    method ReplacePrimary(t: Transaction, n: Name, q: Queue, c: Conn, f: Flags) returns (q': Queue)
      requires AtRest(services, refs) && q == QueueOf(services, n) && WellFormed(q)
      requires c in clients && q[0].conn in clients && q[0].conn != c && Replaces(q, f)
      requires t.cancelHooks == [] && t.announced == []
      modifies this`clients, this`refs, t`cancelHooks, t`announced
      ensures q' == Request(q, c, f).0
      ensures Edited(services, old(clients), n, q', Owners(), t.cancelHooks, t.announced)
      ensures var p, ix1 := q[0].conn, AddIndex(old(Owners()), q, n, c);
              && Owners() == (if q[0].doNotQueue then ix1 else ix1.Ref(n, p))
              && t.cancelHooks == [RestoreOwnership(n, q[0], Some(c))] + AddHooks(q, n, c)
    {
      ghost var p, ix1 := q[0].conn, AddIndex(Owners(), q, n, c);
      ReplaceEdited(services, Owners(), n, c, f);
      var q1 := AddOwner(t, n, q, c, f);
      assert Owners() == ix1 && t.cancelHooks == AddHooks(q, n, c) && t.announced == [];
      q' := Displace(t, n, q1);
      assert Owners() == if q[0].doNotQueue then ix1 else ix1.Ref(n, p);
      assert t.cancelHooks == [RestoreOwnership(n, q[0], Some(c))] + AddHooks(q, n, c);
      assert t.announced == ChangeSignals(ix1.clients, n, Some(p), Some(c));
    }

    /** The branches of `bus_registry_acquire_service`, once the request is allowed. */
    method EditQueue(t: Transaction, c: Conn, n: Name, f: Flags) returns (r: RequestReply)
      requires AtRest(services, refs) && c in clients
      requires n in services ==> WellFormed(services[n]) && services[n][0].conn in clients
      requires t.cancelHooks == [] && t.announced == []
      modifies this`services, this`clients, this`refs, t`cancelHooks, t`announced
      ensures r == Request(QueueOf(old(services), n), c, f).1
      ensures services == old(services)[n := Request(QueueOf(old(services), n), c, f).0]
      ensures Edited(old(services), old(clients), n, services[n], Owners(), t.cancelHooks, t.announced)
      ensures InTransaction() == OU.Done(old(InTransaction()), OU.Acquire(n, c, f, OU.Whole))
      ensures t.cancelHooks == OU.RequestHooks(QueueOf(old(services), n), n, c, f)
    {
      var q := QueueOf(services, n);
      OU.Known(InTransaction(), n, c);
      ghost var hooks, ix := OU.RequestHooks(q, n, c, f), OU.RequestIndex(Owners(), q, n, c, f);
      if q == [] {
        SettleFresh(services, Owners(), n, c, f);
        Ensure(t, n, c, f);
        r := PrimaryOwner;
      } else if q[0].conn == c {
        SettleSame(services, Owners(), n, c, f);
        services := services[n := q[0 := NewOwner(c, f)]];
        r := AlreadyOwner;
      } else if f.doNotQueue && (!q[0].allowReplacement || !f.replaceExisting) {
        LeaveQueue(t, n, c);
        r := Exists;
      } else if !f.doNotQueue && (!f.replaceExisting || !q[0].allowReplacement) {
        EnterQueue(t, n, c, f);
        r := InQueue;
      } else {
        var q' := ReplacePrimary(t, n, q, c, f);
        services := services[n := q'];
        r := PrimaryOwner;
      }
      assert t.cancelHooks == hooks && Owners() == ix;
    }

    /** A caller that may not wait is taken out of the queue if it was in it. */
    method LeaveQueue(t: Transaction, n: Name, c: Conn)
      requires AtRest(services, refs) && c in clients
      requires n in services && WellFormed(services[n]) && services[n][0].conn != c
      requires t.cancelHooks == [] && t.announced == []
      modifies this`services, this`clients, this`refs
      ensures services == old(services)[n := Without(old(services)[n], c)]
      ensures Owners() == if Has(old(services)[n], c) then old(Owners()).Unref(n, c) else old(Owners())
      ensures Edited(old(services), old(clients), n, services[n], Owners(), t.cancelHooks, t.announced)
    {
      var q := services[n];
      SettleDrop(services, Owners(), n, c);
      WithoutAt(q, c);
      var p := FindOwner(q, c);
      if p >= 0 {
        services := services[n := q[..p] + q[p + 1..]];
        UnrefOwner(n, c);
      }
    }

    /** A caller that has to wait is put into the queue. */
    method EnterQueue(t: Transaction, n: Name, c: Conn, f: Flags)
      requires AtRest(services, refs) && c in clients
      requires n in services && WellFormed(services[n]) && services[n][0].conn != c
      requires t.cancelHooks == [] && t.announced == []
      modifies this`services, this`clients, this`refs, t`cancelHooks, t`announced
      ensures services == old(services)[n := PutOwner(old(services)[n], c, f)]
      ensures Owners() == AddIndex(old(Owners()), old(services)[n], n, c) && t.cancelHooks == AddHooks(old(services)[n], n, c)
      ensures Edited(old(services), old(clients), n, services[n], Owners(), t.cancelHooks, t.announced)
    {
      var q := services[n];
      SettleEnter(services, Owners(), n, c, f);
      var q' := AddOwner(t, n, q, c, f);
      assert t.cancelHooks == AddHooks(q, n, c);
      services := services[n := q'];
    }

    /** In the open transaction the queue of `n` was changed to `q'` since `st`; executing it commits exactly that. */
    ghost predicate Changed(st: State, n: Name, q': Queue, hooks: seq<CancelHook>, announced: seq<Signal>)
      reads this
    {
      && services == PutQueue(st.services, n, q') && counters == st.counters && log == st.log
      && Edited(st.services, st.clients, n, q', Owners(), hooks, announced)
    }

    /** What a request needs of the registry. */
    ghost predicate Ready(c: Conn, n: Name)
      reads this
    {
      && AtRest(services, refs) && Active(clients, c)
      && (n in services ==> WellFormed(services[n]) && services[n][0].conn in clients)
    }

    lemma ValidIsReady(c: Conn, n: Name)
      requires Valid() && Active(clients, c)
      ensures Ready(c, n)
    {
      if n in services {
        PrimaryIsActive(View(), n);
      }
    }

    /** `bus_registry_acquire_service` up to the change of owners. */
    method ChangeOwners(t: Transaction, c: Conn, n: Name, f: Flags, k: Checks, maxServices: int) returns (r: Outcome)
      requires Ready(c, n)
      requires t.cancelHooks == [] && t.announced == []
      modifies this`services, this`clients, this`refs, t`cancelHooks, t`announced
      ensures var e := RequestRefusal(old(clients)[c], n, k, maxServices);
              e.Some? ==> r == Refused(e.value) && View() == old(View()) && refs == old(refs) && t.cancelHooks == [] && t.announced == []
      ensures RequestRefusal(old(clients)[c], n, k, maxServices).None? ==>
                && r == Replied(Request(QueueOf(old(services), n), c, f).1)
                && Changed(old(View()), n, Request(QueueOf(old(services), n), c, f).0, t.cancelHooks, t.announced)
                && InTransaction() == OU.Done(old(InTransaction()), OU.Acquire(n, c, f, OU.Whole))
                && t.cancelHooks == OU.RequestHooks(QueueOf(old(services), n), n, c, f)
    {
      if !k.validName || IsUniqueName(n) || n == DBUS_SERVICE_DBUS {
        return Refused(InvalidArgs);
      }
      if !k.selinuxAllows || !k.policyAllows {
        return Refused(AccessDenied);
      }
      if clients[c].nOwned >= maxServices {
        return Refused(LimitsExceeded);
      }
      RequestFacts(QueueOf(services, n), c, f);
      var code := EditQueue(t, c, n, f);
      r := Replied(code);
    }

    /** `bus_registry_release_service`. */
    method ReleaseService(t: Transaction, c: Conn, n: Name, validName: bool) returns (r: Option<ReleaseReply>)
      requires Ready(c, n)
      requires t.cancelHooks == [] && t.announced == []
      modifies this`services, this`clients, this`refs, t`cancelHooks, t`announced
      ensures r.None? <==> NameRefusal(n, validName).Some?
      ensures r == Some(NonExistent) ==> n !in old(services)
      ensures r == Some(NotOwner) ==> n in old(services) && !Has(old(services)[n], c)
      ensures r == Some(Released) ==> n in old(services) && Has(old(services)[n], c)
      ensures r.None? ==> View() == old(View()) && refs == old(refs) && t.cancelHooks == [] && t.announced == []
      ensures r.Some? ==>
                && services == PutQueue(old(services), n, Without(QueueOf(old(services), n), c))
                && Edited(old(services), old(clients), n, Without(QueueOf(old(services), n), c), Owners(), t.cancelHooks, t.announced)
      ensures r.Some? ==>
                && InTransaction() == OU.Done(old(InTransaction()), OU.Release(n, c))
                && t.cancelHooks == RemoveHooks(QueueOf(old(services), n), n, c)
    {
      if !validName || IsUniqueName(n) || n == DBUS_SERVICE_DBUS {
        return None;
      }
      SettleDrop(services, Owners(), n, c);
      var q := QueueOf(services, n);
      var p := FindOwner(q, c);
      if p < 0 {
        r := Some(if n in services then NotOwner else NonExistent);
      } else {
        WithdrawOwner(t, n, c);
        r := Some(Released);
      }
    }

    /** Removes `c` from the queue of `n`, unlinking the service if it was the only owner. */
    method WithdrawOwner(t: Transaction, n: Name, c: Conn)
      requires AtRest(services, refs) && c in clients
      requires n in services && WellFormed(services[n]) && Has(services[n], c)
      requires t.cancelHooks == [] && t.announced == []
      modifies this`services, this`clients, this`refs, t`cancelHooks, t`announced
      ensures services == PutQueue(old(services), n, Without(old(services)[n], c))
      ensures Edited(old(services), old(clients), n, Without(old(services)[n], c), Owners(), t.cancelHooks, t.announced)
      ensures Owners() == RemoveIndex(old(Owners()), old(services)[n], n, c) && t.cancelHooks == RemoveHooks(old(services)[n], n, c)
    {
      var q := services[n];
      SettleWithdraw(services, Owners(), n, c);
      var q' := RemoveOwner(t, n, q, c);
      assert t.cancelHooks == RemoveHooks(q, n, c);
      services := if q' == [] then services - {n} else services[n := q'];
    }

    method CancelOwnershipHook(n: Name, c: Conn)
      requires Owners().Holds(n, c)
      modifies this`services, this`clients, this`refs
      ensures InTransaction() == old(InTransaction()).CancelOwner(n, c)
    {
      var q := QueueOf(services, n);
      var p := FindOwner(q, c);
      WithoutAt(q, c);
      if p < 0 {
        WithoutAbsent(q, c);
      } else {
        q := q[..p] + q[p + 1..];
      }
      UnrefOwner(n, c);
      services := if q == [] then services - {n} else services[n := q];
    }

    /** Where the owner goes that is put back: in front of the one it stood before. */
    method PlaceBefore(q: Queue, o: Owner, before: Option<Conn>) returns (q': Queue)
      ensures q' == InsertBefore(q, o, before)
    {
      var i := 0;
      while i < |q| && before != Some(q[i].conn)
        invariant 0 <= i <= |q| && forall k :: 0 <= k < i ==> before != Some(q[k].conn)
      {
        i := i + 1;
      }
      InsertAt(q, o, before, i);
      q' := q[..i] + [o] + q[i..];
    }

    method RestoreOwnershipHook(n: Name, o: Owner, before: Option<Conn>)
      requires o.conn in clients
      modifies this`services, this`clients
      ensures InTransaction() == old(InTransaction()).RestoreOwner(n, o, before)
    {
      var q := PlaceBefore(QueueOf(services, n), o, before);
      services := if q == [] then services - {n} else services[n := q];
      var d := clients[o.conn];
      clients := clients[o.conn := Client(d.uniqueName, d.owned + [n], d.nOwned + 1)];
    }

    /** Executing an edit commits exactly one change of queue. */
    method Commit(t: Transaction, ghost st: State, ghost n: Name, ghost q': Queue)
      requires services == PutQueue(st.services, n, q') && counters == st.counters && log == st.log
      requires Edited(st.services, st.clients, n, q', Owners(), t.cancelHooks, t.announced)
      modifies this`clients, this`refs, this`log, t
      ensures View() == SetQueue(st, n, q') && AtRest(services, refs)
    {
      Execute(t);
    }

    /** One transaction: the release and its execution. */
    method ReleaseAndExecute(c: Conn, n: Name, validName: bool) returns (r: Option<ReleaseReply>)
      requires Ready(c, n)
      modifies this
      ensures AtRest(services, refs)
      ensures View() == if NameRefusal(n, validName).None? then DoRelease(old(View()), c, n) else old(View())
      ensures r.None? <==> NameRefusal(n, validName).Some?
      ensures r == Some(Released) ==> Has(QueueOf(old(services), n), c)
      ensures r == Some(NotOwner) ==> n in old(services) && !Has(old(services)[n], c)
      ensures r == Some(NonExistent) ==> n !in old(services)
    {
      var t := new Transaction();
      ghost var st := View();
      r := ReleaseService(t, c, n, validName);
      if r.Some? {
        Commit(t, st, n, Without(QueueOf(st.services, n), c));
      }
    }

    /** A dispatched ReleaseName. */
    method ReleaseName(c: Conn, n: Name, validName: bool) returns (r: Option<ReleaseReply>)
      requires Valid() && Active(clients, c)
      modifies this
      ensures Valid()
      ensures View() == Apply(old(View()), Step.ReleaseName(c, n, validName), 0)
      ensures r.None? <==> NameRefusal(n, validName).Some?
      ensures r == Some(Released) ==> Has(QueueOf(old(services), n), c) && !Has(QueueOf(services, n), c)
      ensures r == Some(NotOwner) ==> n in old(services) && !Has(old(services)[n], c) && View() == old(View())
      ensures r == Some(NonExistent) ==> n !in old(services) && View() == old(View())
    {
      ReleaseIsStep(View(), c, n, validName);
      ReleaseEffect(View(), n, c);
      ValidIsReady(c, n);
      r := ReleaseAndExecute(c, n, validName);
    }

    /** `bus_connection_setup_connection`: a connection without a name yet. */
    method Connect(c: Conn)
      requires Valid() && c !in clients
      modifies this`clients
      ensures Valid() && View() == Apply(old(View()), Step.Connect(c), 0)
    {
      ApplyKeepsInv(View(), Step.Connect(c), 0);
      clients := clients[c := Client(None, [], 0)];
    }

    /** `create_unique_client_name`: the first name of the sequence that is not taken; None stands for the abort when major numbers run out. */
    method CreateUniqueName() returns (u: Option<Name>)
      requires counters.Valid()
      modifies this`counters
      ensures counters.Valid()
      ensures old(counters).Exhausted() ==> u.None? && counters == old(counters)
      ensures u.Some? ==> u.value !in services
      ensures !old(counters).Exhausted() && old(counters).NextName() !in services ==>
                u == Some(old(counters).NextName()) && counters == old(counters).Issue()
    {
      ghost var tries := 0;
      while true
        invariant counters.Valid()
        invariant tries == 0 ==> counters == old(counters)
        invariant tries > 0 ==> !old(counters).Exhausted() && old(counters).NextName() in services
        decreases INT_MAX - counters.NextMajor(), INT_MAX - counters.NextMinor()
      {
        var major, minor := counters.major, counters.minor;
        if minor <= 0 {
          major, minor := Wrap32(major + 1), 0;
          if major <= 0 {
            return None;
          }
        }
        var name := UniqueName(major, minor);
        counters := Counters(major, Wrap32(minor + 1));
        if name !in services {
          return Some(name);
        }
        tries := tries + 1;
      }
    }

    /** The first half of `bus_driver_handle_hello`: the connection gets its name; the retry loop never goes round twice. */
    method NameConnection(c: Conn) returns (u: Option<Name>)
      requires Valid() && c in clients && !Active(clients, c)
      modifies this`counters, this`clients
      ensures u.None? <==> old(counters).Exhausted()
      ensures u.None? ==> View() == old(View())
      ensures u.Some? ==> u.value == old(counters).NextName() && u.value !in services && View() == DoHello(old(View()), c, true)
    {
      if !counters.Exhausted() {
        NamingKeepsInv(View(), c);
      }
      u := CreateUniqueName();
      if u.Some? {
        clients := clients[c := clients[c].(uniqueName := u)];
      }
    }

    /** A name is issued, but `bus_connection_complete` fails and takes it off the connection again. */
    method WasteName(c: Conn) returns (u: Option<Name>)
      requires Valid() && c in clients && !Active(clients, c)
      modifies this`counters, this`clients
      ensures u.None? <==> old(counters).Exhausted()
      ensures u.None? ==> View() == old(View())
      ensures u.Some? ==> u.value == old(counters).NextName() && View() == old(View()).(counters := old(counters).Issue())
    {
      u := NameConnection(c);
      if u.Some? {
        clients := clients[c := clients[c].(uniqueName := None)];
        assert clients == old(clients);
      }
    }

    /** The connection is named, and registered under its name unless that is cancelled. */
    method EndHello(c: Conn, cancelled: bool) returns (u: Option<Name>)
      requires Valid() && c in clients && !Active(clients, c)
      modifies this
      ensures AtRest(services, refs)
      ensures u.None? <==> old(counters).Exhausted()
      ensures u.None? ==> View() == old(View())
      ensures u.Some? ==> u.value == old(counters).NextName() && View() == DoHello(old(View()), c, cancelled)
    {
      u := NameConnection(c);
      if u.Some? && !cancelled {
        RegisterUnique(c, u.value);
      }
    }

    /**
     `bus_driver_handle_hello`: a connection that could not be completed uses up a name, and a Hello cancelled
     after the connection was completed leaves it named.
     */
    method Hello(c: Conn, end: HelloEnd) returns (u: Option<Name>)
      requires Valid() && c in clients
      modifies this
      ensures Valid() && View() == Apply(old(View()), Step.Hello(c, end), 0)
      ensures u.Some? ==> !Active(old(clients), c) && u.value == old(counters).NextName()
    {
      ghost var st := View();
      ghost var st' := Apply(st, Step.Hello(c, end), 0);
      ApplyKeepsInv(st, Step.Hello(c, end), 0);
      if clients[c].uniqueName.Some? || end == OverLimits {
        return None;
      }
      if end == NotCompleted {
        u := WasteName(c);
        assert View() == st';
      } else {
        u := EndHello(c, end == Cancelled);
        assert View() == st';
      }
    }

    method RegisterUnique(c: Conn, u: Name)
      requires AtRest(services, refs) && c in clients && u !in services
      modifies this
      ensures View() == SetQueue(old(View()), u, [NewOwner(c, NO_FLAGS)]) && AtRest(services, refs)
    {
      ghost var st := View();
      var t := new Transaction();
      ghost var q', ix := [NewOwner(c, NO_FLAGS)], Owners();
      SettleFresh(services, ix, u, c, NO_FLAGS);
      Ensure(t, u, c, NO_FLAGS);
      assert t.cancelHooks == [CancelOwnership(u, c)] && Owners() == ix.Take(u, c).Ref(u, c);
      assert t.announced == ChangeSignals(st.clients, u, None, Some(c));
      assert Edited(st.services, st.clients, u, q', Owners(), t.cancelHooks, t.announced);
      Commit(t, st, u, q');
    }

    /** `bus_connection_disconnected`: gives up the names one transaction at a time, the most recent one first. */
    method Disconnect(c: Conn)
      requires Valid() && c in clients
      modifies this
      ensures Valid() && View() == Apply(old(View()), Step.Disconnect(c), 0)
    {
      ghost var st := View();
      ApplyKeepsInv(st, Step.Disconnect(c), 0);
      while clients[c].owned != []
        invariant Valid() && c in clients
        invariant DropNames(View(), c, clients[c].owned) == DropNames(st, c, st.clients[c].owned)
        decreases clients[c].nOwned
      {
        DropLastName(c);
      }
      clients := clients - {c};
    }

    /** One transaction in which a connection leaves the queue of a name. */
    method GiveUpName(c: Conn, n: Name)
      requires AtRest(services, refs) && c in clients
      requires n in services && WellFormed(services[n]) && Has(services[n], c)
      modifies this
      ensures View() == DoRelease(old(View()), c, n) && AtRest(services, refs)
    {
      var t := new Transaction();
      ghost var st := View();
      WithdrawOwner(t, n, c);
      Commit(t, st, n, Without(QueueOf(st.services, n), c));
    }

    method DropLastName(c: Conn)
      requires Valid() && c in clients && clients[c].owned != []
      modifies this
      ensures var names := old(clients)[c].owned;
              && Valid() && c in clients
              && View() == DoRelease(old(View()), c, names[|names| - 1])
              && clients[c].owned == names[..|names| - 1]
              && 0 <= clients[c].nOwned < old(clients)[c].nOwned
    {
      var names := clients[c].owned;
      var n := names[|names| - 1];
      ghost var st' := DoRelease(View(), c, n);
      DropOne(View(), c);
      GiveUpName(c, n);
      assert View() == st';
    }
  }
}
