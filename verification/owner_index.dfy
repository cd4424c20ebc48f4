/**
 Owner reference counts inside a transaction: cancel hooks keep owners, and with them the
 back-index entries, alive until the hooks are freed (bus/services.c).
 */
module OwnerIndex {
  import opened BusTypes
  import opened ListFacts
  import opened OwnerQueues
  import opened UniqueNames
  import opened NameRegistry
  import opened RegistryRuns
  import opened Transactions

  type OwnerKey = (Name, Conn)

  /** The back-index together with the owners' reference counts that keep its entries alive. */
  datatype Index = Index(clients: map<Conn, Client>, refs: map<OwnerKey, int>) {
    predicate Holds(n: Name, c: Conn) {
      (n, c) in refs && c in clients
    }

    /** `bus_owner_new`: a new owner enters the back-index. */
    function Take(n: Name, c: Conn): Index
      requires c in clients
    {
      Index(clients[c := Reindex(clients[c], n, false, true)], refs[(n, c) := 1])
    }

    function Ref(n: Name, c: Conn): Index
      requires Holds(n, c)
    {
      Index(clients, refs[(n, c) := refs[(n, c)] + 1])
    }

    /** `bus_owner_unref`: the last reference takes the back-index entry with it. */
    function Unref(n: Name, c: Conn): Index
      requires Holds(n, c)
    {
      if refs[(n, c)] > 1 then Index(clients, refs[(n, c) := refs[(n, c)] - 1])
      else Index(clients[c := Reindex(clients[c], n, true, false)], refs - {(n, c)})
    }

    /** Freeing the hooks, newest first, drops the reference each of them holds. */
    predicate CanFree(hooks: seq<CancelHook>)
      decreases |hooks|
    {
      hooks == [] ||
      var h := hooks[0];
      IsOwnerHook(h) && Holds(h.name, HookConn(h)) && Unref(h.name, HookConn(h)).CanFree(hooks[1..])
    }

    function Free(hooks: seq<CancelHook>): Index
      requires CanFree(hooks)
      decreases |hooks|
    {
      if hooks == [] then this else Unref(hooks[0].name, HookConn(hooks[0])).Free(hooks[1..])
    }
  }

  /** Between transactions every owner is referenced by its queue and by nothing else. */
  ghost predicate AtRest(services: map<Name, Queue>, refs: map<OwnerKey, int>) {
    && (forall n, c :: (n, c) in refs <==> Has(QueueOf(services, n), c))
    && (forall k :: k in refs ==> refs[k] == 1)
  }

  /** `ix` is the index of a registry at rest in which the queue of `n` went from `q` to `q'`. */
  ghost predicate Settled(services: map<Name, Queue>, clients: map<Conn, Client>, n: Name, q': Queue, ix: Index) {
    && ix.clients == ReindexAll(clients, n, QueueOf(services, n), q')
    && AtRest(PutQueue(services, n, q'), ix.refs)
  }

  ghost predicate SameMembersBut(q: Queue, q': Queue, c: Conn) {
    forall d :: d != c ==> (Has(q', d) <==> Has(q, d))
  }

  /** The index when the membership of `c`, and nobody else's, changed. */
  function MoveOne(ix: Index, n: Name, was: bool, now: bool, c: Conn): Index
    requires c in ix.clients && (was ==> (n, c) in ix.refs)
  {
    if now && !was then ix.Take(n, c) else if was && !now then ix.Unref(n, c) else ix
  }

  lemma QueueOfPut(services: map<Name, Queue>, n: Name, q: Queue)
    ensures QueueOf(PutQueue(services, n, q), n) == q
    ensures forall m :: m != n ==> QueueOf(PutQueue(services, n, q), m) == QueueOf(services, m)
  {
  }

  lemma SettleOne(services: map<Name, Queue>, ix: Index, n: Name, q': Queue, c: Conn)
    requires AtRest(services, ix.refs) && c in ix.clients
    requires SameMembersBut(QueueOf(services, n), q', c)
    ensures Settled(services, ix.clients, n, q', MoveOne(ix, n, Has(QueueOf(services, n), c), Has(q', c), c))
  {
    QueueOfPut(services, n, q');
    var ix' := MoveOne(ix, n, Has(QueueOf(services, n), c), Has(q', c), c);
    assert ix'.clients == ReindexAll(ix.clients, n, QueueOf(services, n), q');
  }

  /** Two changes in a row that move different connections amount to one change. */
  lemma SettleTwo(services: map<Name, Queue>, clients: map<Conn, Client>, n: Name, q1: Queue, q': Queue, ix: Index)
    requires Settled(PutQueue(services, n, q1), ReindexAll(clients, n, QueueOf(services, n), q1), n, q', ix)
    requires forall c :: Has(QueueOf(services, n), c) ==> Has(q1, c)
    requires forall c :: Has(q1, c) && !Has(q', c) ==> Has(QueueOf(services, n), c)
    requires forall c :: Has(q', c) ==> Has(q1, c)
    ensures Settled(services, clients, n, q', ix)
  {
    QueueOfPut(services, n, q1);
    assert PutQueue(PutQueue(services, n, q1), n, q') == PutQueue(services, n, q');
    var q := QueueOf(services, n);
    assert ReindexAll(ReindexAll(clients, n, q, q1), n, q1, q') == ReindexAll(clients, n, q, q');
  }

  lemma PositionIs(q: Queue, c: Conn, p: int)
    requires -1 <= p < |q|
    requires p >= 0 ==> q[p].conn == c && forall i :: 0 <= i < p ==> q[i].conn != c
    requires p < 0 ==> forall i :: 0 <= i < |q| ==> q[i].conn != c
    ensures p == Position(q, c)
  {
    var r := Position(q, c);
    assert p >= 0 ==> q[p] in q;
  }

  /** Cutting the entry at its position out of the list. */
  lemma {:induction false} WithoutAt(q: Queue, c: Conn)
    ensures var p := Position(q, c); p >= 0 ==> Without(q, c) == q[..p] + q[p + 1..]
  {
    if q != [] && q[0].conn != c {
      WithoutAt(q[1..], c);
      var p := Position(q[1..], c);
      if p >= 0 {
        assert q[..p + 1] + q[p + 2..] == [q[0]] + (q[1..][..p] + q[1..][p + 1..]);
      }
    }
  }

  /** Adding an owner in terms of its position. */
  lemma PutOwnerAt(q: Queue, c: Conn, f: Flags)
    requires q != [] ==> q[0].conn != c
    ensures var p, o := Position(q, c), NewOwner(c, f);
            PutOwner(q, c, f) ==
            if p < 0 then if !f.replaceExisting || q == [] then q + [o] else [q[0]] + [o] + q[1..]
            else if !f.replaceExisting then q[p := o]
            else var r := q[..p] + q[p + 1..]; [r[0]] + [o] + r[1..]
  {
    var p, o := Position(q, c), NewOwner(c, f);
    WithoutAt(q, c);
    if p < 0 {
      WithoutAbsent(q, c);
    }
    var r := Without(q, c);
    assert r != [] ==> [r[0], o] + r[1..] == [r[0]] + [o] + r[1..];
  }

  // ----- requests that change nothing

  /** The connection is in the queue with these flags, where adding it would put it. */
  predicate InPlace(q: Queue, c: Conn, f: Flags) {
    var p := Position(q, c);
    p >= 0 && q[p] == NewOwner(c, f) && (f.replaceExisting ==> p == 1)
  }

  /**
   The caller has what it asks for: it is the primary owner with these flags; or it replaces nobody and
   does not want to wait, nor waits; or it replaces nobody and waits in its place with these flags.
   */
  predicate AsksForNothing(q: Queue, c: Conn, f: Flags) {
    q != [] &&
      if q[0].conn == c then q[0] == NewOwner(c, f)
      else !Replaces(q, f) && if f.doNotQueue then !Has(q, c) else InPlace(q, c, f)
  }

  lemma PutUnchangedIff(q: Queue, c: Conn, f: Flags)
    requires WellFormed(q) && q[0].conn != c
    ensures PutOwner(q, c, f) == q <==> InPlace(q, c, f)
  {
    var p, o := Position(q, c), NewOwner(c, f);
    PutOwnerFacts(q, c, f);
    WithoutFacts(q, c);
    WithoutAt(q, c);
    if f.replaceExisting && p >= 0 {
      if PutOwner(q, c, f) == q {
        assert q[1] == o;
        PositionIs(q, c, 1);
      } else if p == 1 {
        assert Without(q, c)[1..] == q[2..];
        assert q == [q[0], q[1]] + q[2..];
      }
    }
  }

  /** A request leaves the queue as it is if and only if the caller asks for what it has. */
  lemma RequestUnchangedIff(q: Queue, c: Conn, f: Flags)
    requires q == [] || WellFormed(q)
    ensures Request(q, c, f).0 == q <==> AsksForNothing(q, c, f)
  {
    if q != [] && q[0].conn != c {
      WithoutFacts(q, c);
      PutUnchangedIff(q, c, f);
    }
  }

  // ----- what freeing the hooks of one operation leaves behind

  lemma FreeNew(ix: Index, n: Name, c: Conn)
    requires c in ix.clients
    ensures ix.Take(n, c).Ref(n, c).CanFree([CancelOwnership(n, c)])
    ensures ix.Take(n, c).Ref(n, c).Free([CancelOwnership(n, c)]) == ix.Take(n, c)
  {
    var ix1 := ix.Take(n, c).Ref(n, c);
    assert ix1.Unref(n, c) == ix.Take(n, c);
    assert [CancelOwnership(n, c)][1..] == [];
    assert ix1.Unref(n, c).CanFree([]);
  }

  lemma FreeRestore(ix: Index, n: Name, o: Owner, before: Option<Conn>, rest: seq<CancelHook>)
    requires ix.Holds(n, o.conn)
    requires ix.Unref(n, o.conn).CanFree(rest)
    ensures ix.CanFree([RestoreOwnership(n, o, before)] + rest)
    ensures ix.Free([RestoreOwnership(n, o, before)] + rest) == ix.Unref(n, o.conn).Free(rest)
  {
    assert ([RestoreOwnership(n, o, before)] + rest)[1..] == rest;
  }

  lemma RefUnref(ix: Index, n: Name, p: Conn)
    requires ix.Holds(n, p) && ix.refs[(n, p)] >= 1
    ensures ix.Ref(n, p).Unref(n, p) == ix
  {
  }

  /** The hooks of an owner put behind the primary one: none if it was queued already. */
  function AddHooks(q: Queue, n: Name, c: Conn): seq<CancelHook> {
    if Has(q, c) then [] else [CancelOwnership(n, c)]
  }

  function AddIndex(ix: Index, q: Queue, n: Name, c: Conn): Index
    requires c in ix.clients
  {
    if Has(q, c) then ix else ix.Take(n, c).Ref(n, c)
  }

  /** Freeing the hooks of `AddOwner`. */
  lemma SettleAdd(services: map<Name, Queue>, ix: Index, n: Name, q': Queue, c: Conn)
    requires AtRest(services, ix.refs) && c in ix.clients && Has(q', c)
    requires SameMembersBut(QueueOf(services, n), q', c)
    ensures var q := QueueOf(services, n);
            && AddIndex(ix, q, n, c).CanFree(AddHooks(q, n, c))
            && Settled(services, ix.clients, n, q', AddIndex(ix, q, n, c).Free(AddHooks(q, n, c)))
  {
    FreeNew(ix, n, c);
    SettleOne(services, ix, n, q', c);
  }

  /** Freeing the hooks of `AddOwner` followed by `SwapOwner`: both stay queued. */
  lemma SettleSwap(services: map<Name, Queue>, ix: Index, n: Name, q': Queue, c: Conn, o: Owner)
    requires AtRest(services, ix.refs) && c in ix.clients && Has(q', c) && c != o.conn
    requires SameMembersBut(QueueOf(services, n), q', c)
    requires ix.Holds(n, o.conn)
    ensures var q := QueueOf(services, n);
            var ix1 := AddIndex(ix, q, n, c);
            var hooks := [RestoreOwnership(n, o, Some(c))] + AddHooks(q, n, c);
            && ix1.Holds(n, o.conn) && ix1.Ref(n, o.conn).CanFree(hooks)
            && Settled(services, ix.clients, n, q', ix1.Ref(n, o.conn).Free(hooks))
  {
    var q := QueueOf(services, n);
    var ix1 := AddIndex(ix, q, n, c);
    SettleAdd(services, ix, n, q', c);
    RefUnref(ix1, n, o.conn);
    FreeRestore(ix1.Ref(n, o.conn), n, o, Some(c), AddHooks(q, n, c));
  }

  /** Freeing the hooks of `AddOwner` followed by `RemoveOwner` of the old primary owner. */
  lemma SettleReplace(services: map<Name, Queue>, ix: Index, n: Name, q1: Queue, q': Queue, c: Conn, o: Owner)
    requires AtRest(services, ix.refs) && c in ix.clients && c != o.conn
    requires Has(q1, c) && Has(q', c) && Has(QueueOf(services, n), o.conn) && !Has(q', o.conn)
    requires SameMembersBut(QueueOf(services, n), q1, c) && SameMembersBut(q1, q', o.conn)
    requires ix.Holds(n, o.conn)
    ensures var q := QueueOf(services, n);
            var ix1 := AddIndex(ix, q, n, c);
            var hooks := [RestoreOwnership(n, o, Some(c))] + AddHooks(q, n, c);
            && ix1.Holds(n, o.conn) && ix1.CanFree(hooks)
            && Settled(services, ix.clients, n, q', ix1.Free(hooks))
  {
    var q, p := QueueOf(services, n), o.conn;
    var ix1 := AddIndex(ix, q, n, c);
    var ix2 := MoveOne(ix, n, Has(q, c), true, c);
    SettleOne(services, ix, n, q1, c);
    QueueOfPut(services, n, q1);
    SettleOne(PutQueue(services, n, q1), ix2, n, q', p);
    SettleTwo(services, ix.clients, n, q1, q', ix2.Unref(n, p));
    FreeNew(ix, n, c);
    if !Has(q, c) {
      FreeNew(ix.Unref(n, p), n, c);
      assert ix1.Unref(n, p) == ix.Unref(n, p).Take(n, c).Ref(n, c);
      assert ix2.Unref(n, p) == ix.Unref(n, p).Take(n, c);
    }
    FreeRestore(ix1, n, o, Some(c), AddHooks(q, n, c));
  }

  lemma SameWithout(q: Queue, q': Queue, c: Conn)
    requires Distinct(q) && Distinct(q') && Without(q', c) == Without(q, c)
    ensures SameMembersBut(q, q', c)
  {
    WithoutFacts(q, c);
    WithoutFacts(q', c);
  }

  lemma PutMembers(q: Queue, c: Conn, f: Flags)
    requires WellFormed(q) && q[0].conn != c
    ensures SameMembersBut(q, PutOwner(q, c, f), c) && Has(PutOwner(q, c, f), c)
  {
    PutOwnerFacts(q, c, f);
    SameWithout(q, PutOwner(q, c, f), c);
  }

  /** The queue while an owner is being replaced: the newcomer first stands behind the primary owner. */
  lemma ReplaceQueues(q: Queue, c: Conn, f: Flags)
    requires WellFormed(q) && q[0].conn != c && Replaces(q, f)
    ensures var q1, q' := PutOwner(q, c, f), Request(q, c, f).0;
            && |q1| > 1 && q1[0] == q[0] && q1[1] == NewOwner(c, f) && Distinct(q1) && Has(q1, q[0].conn)
            && (q[0].doNotQueue ==> q' == Without(q1, q[0].conn) && SameMembersBut(q1, q', q[0].conn) && !Has(q', q[0].conn))
            && (!q[0].doNotQueue ==> q' == [q1[1], q1[0]] + q1[2..] && SameMembersBut(q, q', c))
            && Has(q', c)
  {
    var q1, q' := PutOwner(q, c, f), Request(q, c, f).0;
    PutOwnerFacts(q, c, f);
    RequestFacts(q, c, f);
    assert q'[0] == NewOwner(c, f) && q'[0] in q' && q1[0] in q1;
    assert q1 == [q[0], NewOwner(c, f)] + Without(q[1..], c);
    if q[0].doNotQueue {
      assert q1[1..] == q';
      WithoutFacts(q1, q[0].conn);
    } else {
      SameWithout(q, q', c);
    }
  }

  lemma SettleFresh(services: map<Name, Queue>, ix: Index, n: Name, c: Conn, f: Flags)
    requires AtRest(services, ix.refs) && c in ix.clients && QueueOf(services, n) == []
    ensures var ix1, hooks := ix.Take(n, c).Ref(n, c), [CancelOwnership(n, c)];
            ix1.CanFree(hooks) && Settled(services, ix.clients, n, [NewOwner(c, f)], ix1.Free(hooks))
  {
    var q' := [NewOwner(c, f)];
    assert q'[0] in q';
    SettleAdd(services, ix, n, q', c);
  }

  lemma SettleSame(services: map<Name, Queue>, ix: Index, n: Name, c: Conn, f: Flags)
    requires AtRest(services, ix.refs) && c in ix.clients
    requires var q := QueueOf(services, n); q != [] && Distinct(q) && q[0].conn == c
    ensures Settled(services, ix.clients, n, QueueOf(services, n)[0 := NewOwner(c, f)], ix.Free([]))
  {
    var q := QueueOf(services, n);
    var q' := q[0 := NewOwner(c, f)];
    assert q == [q[0]] + q[1..] && q' == [NewOwner(c, f)] + q[1..];
    assert q[0] in q && q'[0] in q';
    SettleOne(services, ix, n, q', c);
  }

  lemma SettleDrop(services: map<Name, Queue>, ix: Index, n: Name, c: Conn)
    requires AtRest(services, ix.refs) && c in ix.clients && Distinct(QueueOf(services, n))
    ensures var q := QueueOf(services, n);
            && (Has(q, c) ==> ix.Holds(n, c) && Settled(services, ix.clients, n, Without(q, c), ix.Unref(n, c).Free([])))
            && (!Has(q, c) ==> Without(q, c) == q && Settled(services, ix.clients, n, q, ix.Free([])))
  {
    var q := QueueOf(services, n);
    WithoutFacts(q, c);
    SettleOne(services, ix, n, Without(q, c), c);
  }

  /** Whichever way the primary owner is displaced, freeing the hooks leaves the registry at rest. */
  lemma SettleRequest(services: map<Name, Queue>, ix: Index, n: Name, c: Conn, f: Flags)
    requires AtRest(services, ix.refs) && WellFormed(QueueOf(services, n)) && c in ix.clients
    requires var q := QueueOf(services, n); q[0].conn in ix.clients && q[0].conn != c && Replaces(q, f)
    ensures var q := QueueOf(services, n);
            var p, q' := q[0].conn, Request(q, c, f).0;
            var ix1, hooks := AddIndex(ix, q, n, c), [RestoreOwnership(n, q[0], Some(c))] + AddHooks(q, n, c);
            && ix1.Holds(n, p) && ix1.refs[(n, p)] == 1
            && (q[0].doNotQueue ==> ix1.CanFree(hooks) && Settled(services, ix.clients, n, q', ix1.Free(hooks)))
            && (!q[0].doNotQueue ==> ix1.Ref(n, p).CanFree(hooks) && Settled(services, ix.clients, n, q', ix1.Ref(n, p).Free(hooks)))
  {
    var q := QueueOf(services, n);
    var p, q1, q' := q[0].conn, PutOwner(q, c, f), Request(q, c, f).0;
    assert q[0] in q && ix.Holds(n, p);
    PutMembers(q, c, f);
    ReplaceQueues(q, c, f);
    if q[0].doNotQueue {
      SettleReplace(services, ix, n, q1, q', c, q[0]);
    } else {
      SettleSwap(services, ix, n, q', c, q[0]);
    }
  }

  lemma SettleEnter(services: map<Name, Queue>, ix: Index, n: Name, c: Conn, f: Flags)
    requires AtRest(services, ix.refs) && c in ix.clients
    requires var q := QueueOf(services, n); WellFormed(q) && q[0].conn != c
    ensures var q := QueueOf(services, n);
            var ix1, hooks := AddIndex(ix, q, n, c), AddHooks(q, n, c);
            && Primary(PutOwner(q, c, f)) == Primary(q)
            && ix1.CanFree(hooks) && Settled(services, ix.clients, n, PutOwner(q, c, f), ix1.Free(hooks))
  {
    var q := QueueOf(services, n);
    PutMembers(q, c, f);
    PutOwnerFacts(q, c, f);
    SettleAdd(services, ix, n, PutOwner(q, c, f), c);
  }

  lemma PrimaryIsActive(st: State, n: Name)
    requires QueuesOk(st) && n in st.services
    ensures Active(st.clients, st.services[n][0].conn)
  {
    assert st.services[n][0] in st.services[n];
  }

  /** What editing the queue of `n` leaves for the transaction to execute: the announcements of the change, and hooks whose release brings the registry to rest. */
  ghost predicate Edited(services: map<Name, Queue>, clients: map<Conn, Client>, n: Name, q': Queue, ix: Index, hooks: seq<CancelHook>, announced: seq<Signal>) {
    && announced == ChangeSignals(clients, n, Primary(QueueOf(services, n)), Primary(q'))
    && ix.CanFree(hooks)
    && Settled(services, clients, n, q', ix.Free(hooks))
  }

  /** Displacing the primary owner: add the new owner behind it, then remove the old one or let the two change places. */
  lemma ReplaceEdited(services: map<Name, Queue>, ix: Index, n: Name, c: Conn, f: Flags)
    requires AtRest(services, ix.refs) && WellFormed(QueueOf(services, n)) && c in ix.clients
    requires var q := QueueOf(services, n); q[0].conn in ix.clients && q[0].conn != c && Replaces(q, f)
    ensures var q := QueueOf(services, n);
            var p, q1, ix1 := q[0].conn, PutOwner(q, c, f), AddIndex(ix, q, n, c);
            var q' := if q[0].doNotQueue then Without(q1, p) else [q1[1], q1[0]] + q1[2..];
            && Distinct(q1) && |q1| > 1 && q1[0] == q[0] && q1[1].conn == c && ix1.Holds(n, p) && ix1.refs[(n, p)] == 1
            && q' == Request(q, c, f).0
            && Edited(services, ix.clients, n, q', if q[0].doNotQueue then ix1 else ix1.Ref(n, p),
                      [RestoreOwnership(n, q[0], Some(c))] + AddHooks(q, n, c), ChangeSignals(ix1.clients, n, Some(p), Some(c)))
  {
    var q := QueueOf(services, n);
    SettleRequest(services, ix, n, c, f);
    ReplaceQueues(q, c, f);
    assert ChangeSignals(AddIndex(ix, q, n, c).clients, n, Some(q[0].conn), Some(c)) == ChangeSignals(ix.clients, n, Some(q[0].conn), Some(c));
  }

  /** Who stands behind the primary owner. */
  function Second(q: Queue): Option<Conn> { if |q| > 1 then Some(q[1].conn) else None }

  function RemoveHooks(q: Queue, n: Name, c: Conn): seq<CancelHook> {
    if Primary(q) == Some(c) then [RestoreOwnership(n, q[0], Second(q))] else []
  }

  function RemoveIndex(ix: Index, q: Queue, n: Name, c: Conn): Index
    requires ix.Holds(n, c)
  {
    if Primary(q) == Some(c) then ix else ix.Unref(n, c)
  }

  lemma SettleWithdraw(services: map<Name, Queue>, ix: Index, n: Name, c: Conn)
    requires AtRest(services, ix.refs) && c in ix.clients
    requires Distinct(QueueOf(services, n)) && Has(QueueOf(services, n), c)
    ensures var q := QueueOf(services, n);
            && ix.Holds(n, c) && ix.refs[(n, c)] == 1
            && RemoveIndex(ix, q, n, c).CanFree(RemoveHooks(q, n, c))
            && Settled(services, ix.clients, n, Without(q, c), RemoveIndex(ix, q, n, c).Free(RemoveHooks(q, n, c)))
  {
    SettleDrop(services, ix, n, c);
    var q := QueueOf(services, n);
    if Primary(q) == Some(c) {
      assert RemoveHooks(q, n, c) == [RestoreOwnership(n, q[0], Second(q))] + [];
      FreeRestore(ix, n, q[0], Second(q), []);
    }
  }

  // ----- cancelling

  /** The tables of the registry inside a transaction. */
  datatype Tables = Tables(services: map<Name, Queue>, owners: Index) {

    /** `cancel_ownership`: the owner leaves the queue, and an empty service leaves the table. */
    function CancelOwner(n: Name, c: Conn): Tables
      requires owners.Holds(n, c)
    {
      Tables(PutQueue(services, n, Without(QueueOf(services, n), c)), owners.Unref(n, c))
    }

    /** `restore_ownership`: the owner is put back into the queue and the back-index, without a reference. */
    function RestoreOwner(n: Name, o: Owner, before: Option<Conn>): Tables
      requires o.conn in owners.clients
    {
      Tables(PutQueue(services, n, InsertBefore(QueueOf(services, n), o, before)),
             owners.(clients := owners.clients[o.conn := Reindex(owners.clients[o.conn], n, false, true)]))
    }
  }

  /** The owner in front of the one it stood before, or at the end if that one is gone. */
  function InsertBefore(q: Queue, o: Owner, before: Option<Conn>): Queue {
    if q == [] || before == Some(q[0].conn) then [o] + q else [q[0]] + InsertBefore(q[1..], o, before)
  }

  /** In terms of the position. */
  lemma {:induction false} InsertAt(q: Queue, o: Owner, before: Option<Conn>, i: nat)
    requires i <= |q| && (i < |q| ==> before == Some(q[i].conn)) && forall k :: 0 <= k < i ==> before != Some(q[k].conn)
    ensures InsertBefore(q, o, before) == q[..i] + [o] + q[i..]
  {
    if i == 0 {
      assert q[..0] + [o] + q[0..] == [o] + q;
    } else {
      InsertAt(q[1..], o, before, i - 1);
      assert q[1..][..i - 1] == q[1..i] && q[1..][i - 1..] == q[i..];
      assert q[..i] == [q[0]] + q[1..i];
      assert [q[0]] + (q[1..i] + [o] + q[i..]) == q[..i] + [o] + q[i..];
    }
  }

  lemma {:induction false} RemoveLastOfSnoc<T>(s: seq<T>, x: T)
    ensures RemoveLast(s + [x], x) == s
  {
    assert (s + [x])[..|s|] == s;
  }

  /** Dropping both references to a new owner gives the index back. */
  lemma UnrefNew(ix: Index, n: Name, c: Conn)
    requires c in ix.clients && (n, c) !in ix.refs
    ensures var ix1 := ix.Take(n, c).Ref(n, c);
            && ix1.Holds(n, c) && ix1.Unref(n, c) == ix.Take(n, c) && ix.Take(n, c).Holds(n, c)
            && ix.Take(n, c).Unref(n, c) == ix
  {
    RemoveLastOfSnoc(ix.clients[c].owned, n);
    RefUnref(ix.Take(n, c), n, c);
    assert ix.Take(n, c).Unref(n, c) == ix;
  }

  lemma CancelAddedQueue(services: map<Name, Queue>, n: Name, c: Conn, f: Flags)
    requires n in services ==> services[n] != []
    requires Distinct(QueueOf(services, n)) && !Has(QueueOf(services, n), c)
    ensures var services1 := PutQueue(services, n, PutOwner(QueueOf(services, n), c, f));
            PutQueue(services1, n, Without(QueueOf(services1, n), c)) == services
  {
    var q := QueueOf(services, n);
    PutThenWithout(q, c, f);
    QueueOfPut(services, n, PutOwner(q, c, f));
  }

  lemma PutThenWithout(q: Queue, c: Conn, f: Flags)
    requires Distinct(q) && !Has(q, c)
    ensures PutOwner(q, c, f) != [] && Without(PutOwner(q, c, f), c) == q
  {
    WithoutAbsent(q, c);
    var o := NewOwner(c, f);
    if q == [] || !f.replaceExisting {
      assert q + [] == q && PutOwner(q, c, f) == q + [o] + [];
      Rejoin(q, o, []);
    } else {
      assert q == [q[0]] + q[1..] && PutOwner(q, c, f) == [q[0]] + [o] + q[1..];
      Rejoin([q[0]], o, q[1..]);
    }
  }

  lemma ReleaseEffect(st: State, n: Name, c: Conn)
    requires QueuesOk(st)
    ensures !Has(QueueOf(st.services, n), c) ==> DoRelease(st, c, n) == st
    ensures !Has(QueueOf(DoRelease(st, c, n).services, n), c)
  {
    var q := QueueOf(st.services, n);
    QueueOfPut(st.services, n, Without(q, c));
    WithoutFacts(q, c);
    if !Has(q, c) {
      SetQueueSame(st, n);
    }
  }

  lemma SetQueueSame(st: State, n: Name)
    requires n in st.services ==> st.services[n] != []
    ensures SetQueue(st, n, QueueOf(st.services, n)) == st
  {
    var q := QueueOf(st.services, n);
    assert PutQueue(st.services, n, q) == st.services;
    assert ReindexAll(st.clients, n, q, q) == st.clients;
    assert st.log + [] == st.log;
  }
}
