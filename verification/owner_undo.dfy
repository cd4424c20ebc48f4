/**
 Which changes of owners can be undone: the hooks of `bus_service_add_owner` give everything back, those for a
 primary owner that was displaced or removed do not, and there are none for an owner that only moved
 (bus/services.c:941-994, 1052-1071, 1085-1212, 1274-1286, 1312-1324).
 */
module OwnerUndo {
  import opened BusTypes
  import opened OwnerQueues
  import opened NameRegistry
  import opened OwnerIndex
  import opened Transactions

  /** `cancel_ownership` or `restore_ownership`. */
  function Run(tb: Tables, h: CancelHook): Tables {
    match h
    case CancelOwnership(n, c) => if tb.owners.Holds(n, c) then tb.CancelOwner(n, c) else tb
    case RestoreOwnership(n, o, before) => if o.conn in tb.owners.clients then tb.RestoreOwner(n, o, before) else tb
    case _ => tb
  }

  /** The free function of either hook. */
  function Free(tb: Tables, h: CancelHook): Tables {
    if IsOwnerHook(h) && tb.owners.Holds(h.name, HookConn(h)) then tb.(owners := tb.owners.Unref(h.name, HookConn(h))) else tb
  }

  function RunAll(tb: Tables, hooks: seq<CancelHook>): Tables
    decreases |hooks|
  {
    if hooks == [] then tb else RunAll(Run(tb, hooks[0]), hooks[1..])
  }

  function FreeAll(tb: Tables, hooks: seq<CancelHook>): Tables
    decreases |hooks|
  {
    if hooks == [] then tb else FreeAll(Free(tb, hooks[0]), hooks[1..])
  }

  /** All hooks run, newest first, before any is freed. */
  function Undone(tb: Tables, hooks: seq<CancelHook>): Tables { FreeAll(RunAll(tb, hooks), hooks) }

  lemma UndoneOne(tb: Tables, h: CancelHook)
    ensures Undone(tb, [h]) == Free(Run(tb, h), h)
  {
    assert [h][1..] == [];
    assert RunAll(tb, [h]) == Run(tb, h);
    assert FreeAll(Run(tb, h), [h]) == Free(Run(tb, h), h);
  }

  lemma UndoneTwo(tb: Tables, g: CancelHook, h: CancelHook)
    ensures Undone(tb, [g, h]) == Free(Free(Run(Run(tb, g), h), g), h)
  {
    assert [g, h][1..] == [h] && [h][1..] == [];
    assert RunAll(Run(tb, g), [h]) == Run(Run(tb, g), h);
    var tb' := Run(Run(tb, g), h);
    assert FreeAll(Free(tb', g), [h]) == Free(Free(tb', g), h);
  }

  // ----- changes of owners

  /** How far a request got: the new service was not entered into the table, the primary owner not displaced yet, or all was done. */
  datatype Stage = Unhashed | Added | Whole

  datatype Edit = Acquire(n: Name, c: Conn, f: Flags, stage: Stage) | Release(n: Name, c: Conn)

  /** What RequestName and ReleaseName start from. */
  ghost predicate Ready(tb: Tables, n: Name, c: Conn) {
    && AtRest(tb.services, tb.owners.refs) && c in tb.owners.clients
    && (n in tb.services ==> WellFormed(tb.services[n]) && tb.services[n][0].conn in tb.owners.clients)
  }

  ghost predicate Applies(tb: Tables, e: Edit) {
    && Ready(tb, e.n, e.c)
    && (e.Acquire? && e.stage == Unhashed ==> e.n !in tb.services)
    && (e.Acquire? && e.stage == Added ==> e.n in tb.services && tb.services[e.n][0].conn != e.c && Replaces(tb.services[e.n], e.f))
  }

  /** The index while the transaction of a request that was carried out is open. */
  function RequestIndex(ix: Index, q: Queue, n: Name, c: Conn, f: Flags): Index
    requires c in ix.clients && (Has(q, c) ==> ix.Holds(n, c)) && (q != [] ==> ix.Holds(n, q[0].conn))
  {
    if q == [] then ix.Take(n, c).Ref(n, c)
    else if q[0].conn == c then ix
    else if Replaces(q, f) then if q[0].doNotQueue then AddIndex(ix, q, n, c) else AddIndex(ix, q, n, c).Ref(n, q[0].conn)
    else if f.doNotQueue then if Has(q, c) then ix.Unref(n, c) else ix
    else AddIndex(ix, q, n, c)
  }

  /** Its hooks. The displaced owner stood before the one that displaced it. */
  function RequestHooks(q: Queue, n: Name, c: Conn, f: Flags): seq<CancelHook> {
    if q == [] then [CancelOwnership(n, c)]
    else if q[0].conn == c then []
    else if Replaces(q, f) then [RestoreOwnership(n, q[0], Some(c))] + AddHooks(q, n, c)
    else if f.doNotQueue then []
    else AddHooks(q, n, c)
  }

  lemma Known(tb: Tables, n: Name, c: Conn)
    requires Ready(tb, n, c)
    ensures var q := QueueOf(tb.services, n); (Has(q, c) ==> tb.owners.Holds(n, c)) && (q != [] ==> tb.owners.Holds(n, q[0].conn))
  {
    var q := QueueOf(tb.services, n);
    if q != [] {
      assert q[0] in q;
    }
  }

  /** The tables in the open transaction. */
  ghost function Done(tb: Tables, e: Edit): Tables
    requires Applies(tb, e)
  {
    Known(tb, e.n, e.c);
    var q := QueueOf(tb.services, e.n);
    match e
    case Acquire(n, c, f, Unhashed) => Tables(tb.services, tb.owners.Take(n, c).Ref(n, c))
    case Acquire(n, c, f, Added) => Tables(PutQueue(tb.services, n, PutOwner(q, c, f)), AddIndex(tb.owners, q, n, c))
    case Acquire(n, c, f, Whole) => Tables(PutQueue(tb.services, n, Request(q, c, f).0), RequestIndex(tb.owners, q, n, c, f))
    case Release(n, c) => Tables(PutQueue(tb.services, n, Without(q, c)), if Has(q, c) then RemoveIndex(tb.owners, q, n, c) else tb.owners)
  }

  function HooksOf(q: Queue, e: Edit): seq<CancelHook> {
    match e
    case Acquire(n, c, _, Unhashed) => [CancelOwnership(n, c)]
    case Acquire(n, c, _, Added) => AddHooks(q, n, c)
    case Acquire(n, c, f, Whole) => RequestHooks(q, n, c, f)
    case Release(n, c) => RemoveHooks(q, n, c)
  }

  lemma HooksAreOwners(q: Queue, e: Edit)
    ensures forall h :: h in HooksOf(q, e) ==> IsOwnerHook(h)
  {
  }

  /**
   A connection that was not queued and displaced nobody, or a change that is none. A request that had
   only added its owner so far can be undone if that owner was not queued, or stays in its place.
   */
  predicate CanBeUndone(q: Queue, e: Edit) {
    match e
    case Acquire(_, _, _, Unhashed) => true
    case Acquire(_, c, f, Added) => !Has(q, c) || InPlace(q, c, f)
    case Acquire(_, c, f, Whole) => q == [] || (!Has(q, c) && !Replaces(q, f)) || AsksForNothing(q, c, f)
    case Release(_, c) => !Has(q, c)
  }

  // ----- an owner that was added

  /** Adding an owner, running its hook and freeing it gives back what was there. */
  lemma AddedIsUndone(tb: Tables, n: Name, c: Conn, f: Flags)
    requires Ready(tb, n, c) && !Has(QueueOf(tb.services, n), c)
    ensures var q := QueueOf(tb.services, n);
            Undone(Tables(PutQueue(tb.services, n, PutOwner(q, c, f)), tb.owners.Take(n, c).Ref(n, c)), [CancelOwnership(n, c)]) == tb
  {
    var tb1 := Tables(PutQueue(tb.services, n, PutOwner(QueueOf(tb.services, n), c, f)), tb.owners.Take(n, c).Ref(n, c));
    UndoneOne(tb1, CancelOwnership(n, c));
    UnrefNew(tb.owners, n, c);
    CancelAddedQueue(tb.services, n, c, f);
  }

  /** The same if the new service never got into the table. */
  lemma UnhashedIsUndone(tb: Tables, n: Name, c: Conn)
    requires Ready(tb, n, c) && n !in tb.services
    ensures Undone(Tables(tb.services, tb.owners.Take(n, c).Ref(n, c)), [CancelOwnership(n, c)]) == tb
  {
    UndoneOne(Tables(tb.services, tb.owners.Take(n, c).Ref(n, c)), CancelOwnership(n, c));
    assert !Has(QueueOf(tb.services, n), c);
    UnrefNew(tb.owners, n, c);
    assert tb.services - {n} == tb.services;
  }

  /** Without hooks nothing is undone. */
  lemma NothingUndone(tb: Tables, tb1: Tables, n: Name, q': Queue)
    requires n in tb.services ==> tb.services[n] != []
    requires tb1.services == PutQueue(tb.services, n, q')
    requires q' == QueueOf(tb.services, n) ==> tb1.owners == tb.owners
    ensures Undone(tb1, []) == tb <==> q' == QueueOf(tb.services, n)
  {
    QueueOfPut(tb.services, n, q');
    assert PutQueue(tb.services, n, QueueOf(tb.services, n)) == tb.services;
  }

  lemma PartUndoneIff(tb: Tables, n: Name, c: Conn, f: Flags)
    requires Applies(tb, Acquire(n, c, f, Added))
    ensures var q, e := QueueOf(tb.services, n), Acquire(n, c, f, Added);
            Undone(Done(tb, e), HooksOf(q, e)) == tb <==> CanBeUndone(q, e)
  {
    var q := QueueOf(tb.services, n);
    if !Has(q, c) {
      AddedIsUndone(tb, n, c, f);
    } else {
      PutUnchangedIff(q, c, f);
      NothingUndone(tb, Done(tb, Acquire(n, c, f, Added)), n, PutOwner(q, c, f));
    }
  }

  // ----- a primary owner that is displaced

  /** What is left of the displaced owner `p`, whether or not the new one is forgotten as well. */
  lemma DisplacedIndex(tb: Tables, n: Name, c: Conn, f: Flags)
    requires Ready(tb, n, c)
    requires var q := QueueOf(tb.services, n); q != [] && q[0].conn != c && Replaces(q, f)
    ensures var q := QueueOf(tb.services, n);
            var tb', p := Undone(Done(tb, Acquire(n, c, f, Whole)), RequestHooks(q, n, c, f)), q[0].conn;
            && p in tb'.owners.clients
            && (q[0].doNotQueue ==> (n, p) !in tb'.owners.refs)
            && (!q[0].doNotQueue ==> tb'.owners.clients[p].nOwned == tb.owners.clients[p].nOwned + 1)
  {
    var q := QueueOf(tb.services, n);
    var p, h, tb1 := q[0].conn, RestoreOwnership(n, q[0], Some(c)), Done(tb, Acquire(n, c, f, Whole));
    Known(tb, n, c);
    assert tb.owners.refs[(n, p)] == 1;
    if Has(q, c) {
      assert RequestHooks(q, n, c, f) == [h];
      UndoneOne(tb1, h);
    } else {
      assert RequestHooks(q, n, c, f) == [h, CancelOwnership(n, c)];
      UndoneTwo(tb1, h, CancelOwnership(n, c));
    }
  }

  /**
   A RequestName whose transaction is cancelled after it was carried out leaves the owner queues, the
   back-index and the reference counts as they were if and only if the caller was not queued before and
   displaced nobody, or asked for what it had.
   */
  lemma RequestUndoneIff(tb: Tables, n: Name, c: Conn, f: Flags)
    requires Ready(tb, n, c)
    ensures var q, e := QueueOf(tb.services, n), Acquire(n, c, f, Whole);
            Undone(Done(tb, e), HooksOf(q, e)) == tb <==> CanBeUndone(q, e)
  {
    var q, tb1 := QueueOf(tb.services, n), Done(tb, Acquire(n, c, f, Whole));
    Known(tb, n, c);
    RequestUnchangedIff(q, c, f);
    if q == [] {
      assert PutOwner(q, c, f) == [NewOwner(c, f)];
      AddedIsUndone(tb, n, c, f);
    } else if q[0].conn != c && Replaces(q, f) {
      DisplacedIndex(tb, n, c, f);
    } else if q[0].conn != c && !f.doNotQueue && !Has(q, c) {
      AddedIsUndone(tb, n, c, f);
    } else {
      assert q[0] in q;
      WithoutFacts(q, c);
      NothingUndone(tb, tb1, n, Request(q, c, f).0);
    }
  }

  lemma SwapList(a: Owner, o: Owner, rest: Queue)
    requires a.conn != o.conn
    ensures Without(InsertBefore([o, a] + rest, a, Some(o.conn)), o.conn) == [a, a] + rest
  {
    var q := [o, a] + rest;
    assert q[0] == o && q[1..] == [a] + rest;
    assert InsertBefore(q, a, Some(o.conn)) == [a] + q;
    assert ([a] + q)[0] == a && ([a] + q)[1..] == q;
    assert Without(q, o.conn) == [a] + rest;
    assert [a] + ([a] + rest) == [a, a] + rest;
  }

  /** The queue when the old primary owner was put back before the new one, and that one forgotten. */
  lemma SwapQueue(q: Queue, c: Conn, f: Flags)
    requires WellFormed(q) && !Has(q, c) && Replaces(q, f) && !q[0].doNotQueue
    ensures Without(InsertBefore(Request(q, c, f).0, q[0], Some(c)), c) == [q[0]] + q
  {
    assert q[0] in q;
    assert Without(q[1..], c) == q[1..] by { WithoutAbsent(q[1..], c); }
    SwapList(q[0], NewOwner(c, f), q[1..]);
    assert [q[0], q[0]] + q[1..] == [q[0]] + q;
  }

  lemma RunTwoQueue(tb: Tables, n: Name, o: Owner, before: Option<Conn>, c: Conn)
    requires tb.owners.Holds(n, c) && o.conn in tb.owners.clients
    ensures QueueOf(Undone(tb, [RestoreOwnership(n, o, before), CancelOwnership(n, c)]).services, n) ==
            Without(InsertBefore(QueueOf(tb.services, n), o, before), c)
  {
    UndoneTwo(tb, RestoreOwnership(n, o, before), CancelOwnership(n, c));
    var tb1 := tb.RestoreOwner(n, o, before);
    QueueOfPut(tb.services, n, InsertBefore(QueueOf(tb.services, n), o, before));
    QueueOfPut(tb1.services, n, Without(QueueOf(tb1.services, n), c));
  }

  /** What is left of a cancelled change of places: the old primary owner is in the queue twice. */
  lemma SwappedTwice(tb: Tables, n: Name, c: Conn, f: Flags)
    requires Ready(tb, n, c)
    requires var q := QueueOf(tb.services, n); q != [] && !Has(q, c) && Replaces(q, f) && !q[0].doNotQueue
    ensures var q, e := QueueOf(tb.services, n), Acquire(n, c, f, Whole);
            QueueOf(Undone(Done(tb, e), HooksOf(q, e)).services, n) == [q[0]] + q
  {
    var q := QueueOf(tb.services, n);
    Known(tb, n, c);
    assert q[0] in q;
    assert RequestHooks(q, n, c, f) == [RestoreOwnership(n, q[0], Some(c)), CancelOwnership(n, c)];
    QueueOfPut(tb.services, n, Request(q, c, f).0);
    RunTwoQueue(Done(tb, Acquire(n, c, f, Whole)), n, q[0], Some(c), c);
    SwapQueue(q, c, f);
  }

  // ----- an owner that is released

  /** A ReleaseName that is cancelled leaves everything as it was only if the caller was not in the queue at all. */
  lemma ReleaseUndoneIff(tb: Tables, n: Name, c: Conn)
    requires Ready(tb, n, c)
    ensures var q, e := QueueOf(tb.services, n), Release(n, c);
            Undone(Done(tb, e), HooksOf(q, e)) == tb <==> CanBeUndone(q, e)
  {
    var q, tb1 := QueueOf(tb.services, n), Done(tb, Release(n, c));
    Known(tb, n, c);
    WithoutFacts(q, c);
    if Has(q, c) && q[0].conn == c {
      UndoneOne(tb1, RestoreOwnership(n, q[0], Second(q)));
      assert tb.owners.refs[(n, c)] == 1;
    } else {
      assert q != [] ==> q[0] in q;
      NothingUndone(tb, tb1, n, Without(q, c));
    }
  }

  /**
   Whatever change of owners a cancelled transaction had made, and however far it had got: the tables are
   as they were if and only if the change was one that its hooks can undo.
   */
  lemma EditUndoneIff(tb: Tables, e: Edit)
    requires Applies(tb, e)
    ensures var q := QueueOf(tb.services, e.n); Undone(Done(tb, e), HooksOf(q, e)) == tb <==> CanBeUndone(q, e)
  {
    match e
    case Acquire(n, c, f, Unhashed) => UnhashedIsUndone(tb, n, c);
    case Acquire(n, c, f, Added) => PartUndoneIff(tb, n, c, f);
    case Acquire(n, c, f, Whole) => RequestUndoneIff(tb, n, c, f);
    case Release(n, c) => ReleaseUndoneIff(tb, n, c);
  }
}
