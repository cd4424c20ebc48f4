/** Everything clients can do to the name registry, and what holds after any run of it. */
module RegistryRuns {
  import opened BusTypes
  import opened ListFacts
  import opened OwnerQueues
  import opened UniqueNames
  import opened NameRegistry

  /** Verdicts of code outside the registry: bus name syntax, SELinux, and the client's own-rules. */
  datatype Checks = Checks(validName: bool, selinuxAllows: bool, policyAllows: bool)

  datatype Error = InvalidArgs | AccessDenied | LimitsExceeded

  datatype ReleaseReply = Released | NonExistent | NotOwner

  /**
   How a Hello ends: turned down by the limits, with a name issued to a connection that could not be
   completed, cancelled after the connection was completed, or with the name registered.
   */
  datatype HelloEnd = OverLimits | NotCompleted | Cancelled | Registered

  datatype Step =
    | Connect(c: Conn)
    | Hello(c: Conn, end: HelloEnd)
    | RequestName(c: Conn, name: Name, flags: Flags, checks: Checks)
    | ReleaseName(c: Conn, name: Name, validName: bool)
    | Disconnect(c: Conn)

  /** The error of a name that nobody may request or release. */
  function NameRefusal(n: Name, validName: bool): Option<Error> {
    if !validName || IsUniqueName(n) || n == DBUS_SERVICE_DBUS then Some(InvalidArgs) else None
  }

  /** Why a RequestName is turned down before it touches any queue, if it is. */
  function RequestRefusal(cl: Client, n: Name, k: Checks, maxServices: int): Option<Error> {
    if NameRefusal(n, k.validName).Some? then Some(InvalidArgs)
    else if !k.selinuxAllows || !k.policyAllows then Some(AccessDenied)
    else if cl.nOwned >= maxServices then Some(LimitsExceeded)
    else None
  }

  function DoRequest(st: State, c: Conn, n: Name, f: Flags): State {
    SetQueue(st, n, Request(QueueOf(st.services, n), c, f).0)
  }

  function DoRelease(st: State, c: Conn, n: Name): State {
    SetQueue(st, n, Without(QueueOf(st.services, n), c))
  }

  /** Hello names the connection; a cancelled Hello keeps the name but registers no service for it. */
  function DoHello(st: State, c: Conn, cancelled: bool): State
    requires c in st.clients && st.counters.Valid()
  {
    var u := st.counters.NextName();
    var named := st.(clients := st.clients[c := st.clients[c].(uniqueName := Some(u))], counters := st.counters.Issue());
    if cancelled then named else SetQueue(named, u, [NewOwner(c, NO_FLAGS)])
  }

  /** Gives up the listed names, last one first. */
  function DropNames(st: State, c: Conn, names: seq<Name>): (r: State)
    ensures r.counters == st.counters
    decreases |names|
  {
    if names == [] then st
    else DropNames(DoRelease(st, c, names[|names| - 1]), c, names[..|names| - 1])
  }

  function DoDisconnect(st: State, c: Conn): State
    requires c in st.clients
  {
    var st' := DropNames(st, c, st.clients[c].owned);
    st'.(clients := st'.clients - {c})
  }

  /** One dispatched message or disconnection; whatever the daemon refuses leaves the registry alone. */
  function Apply(st: State, step: Step, maxServices: int): (r: State)
    requires st.counters.Valid()
    ensures r.counters.Valid()
  {
    match step
    case Connect(c) =>
      if c in st.clients then st else st.(clients := st.clients[c := Client(None, [], 0)])
    case Hello(c, end) =>
      if c !in st.clients || Active(st.clients, c) || end == OverLimits || st.counters.Exhausted() then st
      else
        IssueMovesForward(st.counters);
        if end == NotCompleted then st.(counters := st.counters.Issue()) else DoHello(st, c, end == Cancelled)
    case RequestName(c, n, f, k) =>
      if Active(st.clients, c) && RequestRefusal(st.clients[c], n, k, maxServices).None? then DoRequest(st, c, n, f) else st
    case ReleaseName(c, n, v) =>
      if Active(st.clients, c) && NameRefusal(n, v).None? then DoRelease(st, c, n) else st
    case Disconnect(c) =>
      if c in st.clients then DoDisconnect(st, c) else st
  }

  // ----- every step keeps the invariant

  lemma RequestKeepsInv(st: State, c: Conn, n: Name, f: Flags)
    requires Inv(st) && Active(st.clients, c) && !IsUniqueName(n)
    ensures Inv(DoRequest(st, c, n, f))
  {
    var q := QueueOf(st.services, n);
    var q' := Request(q, c, f).0;
    RequestFacts(q, c, f);
    forall d | Has(q', d)
      ensures Active(st.clients, d)
    {
      RequestMembers(q, c, f, d);
    }
    SetQueueKeepsInv(st, n, q');
  }

  /** A request brings in nobody but the caller. */
  lemma RequestMembers(q: Queue, c: Conn, f: Flags, d: Conn)
    requires q == [] || WellFormed(q)
    requires Has(Request(q, c, f).0, d)
    ensures d == c || Has(q, d)
  {
    var q' := Request(q, c, f).0;
    RequestFacts(q, c, f);
    if d != c {
      WithoutFacts(q', c);
      if q != [] {
        WithoutFacts(q, c);
        SplitHead(q);
        WithoutFacts(q[1..], c);
        assert forall o :: o in q[1..] ==> o in q;
      }
    }
  }

  lemma ReleaseKeepsInv(st: State, c: Conn, n: Name)
    requires Inv(st)
    requires IsUniqueName(n) && c in st.clients && n in st.clients[c].owned ==> st.clients[c].owned == [n]
    ensures Inv(DoRelease(st, c, n))
  {
    var q := QueueOf(st.services, n);
    if q != [] {
      WithoutFacts(q, c);
      WithoutWellFormed(q, c);
      if IsUniqueName(n) && Has(q, c) {
        assert q[0] in q;
      }
    }
    SetQueueKeepsInv(st, n, Without(q, c));
  }

  lemma InactiveOwnsNothing(st: State, c: Conn)
    requires QueuesOk(st) && BackIndexOk(st) && c in st.clients && !Active(st.clients, c)
    ensures st.clients[c].owned == []
    ensures forall n :: !Has(QueueOf(st.services, n), c)
  {
    assert IndexOk(st.services, c, st.clients[c]);
    assert forall n :: !Has(QueueOf(st.services, n), c);
    assert forall n :: n !in st.clients[c].owned;
    NonEmptyHasElement(st.clients[c].owned);
  }

  /** Giving an inactive connection the next unique name disturbs nothing, since no service of that name exists. */
  lemma NamingKeepsInv(st: State, c: Conn)
    requires Inv(st) && c in st.clients && !Active(st.clients, c) && !st.counters.Exhausted()
    ensures st.counters.NextName() !in st.services
    ensures Inv(DoHello(st, c, true))
  {
    var st' := DoHello(st, c, true);
    NextNameIsFresh(st.counters);
    InactiveOwnsNothing(st, c);
    NamingKeepsNames(st, c);
    NamingKeepsPrimaries(st, c);
    assert FirstOk(st');
  }

  /** A name not issued before is given to a connection that has none. */
  lemma NewNameKeepsNames(st: State, c: Conn, u: Name, counters: Counters)
    requires UniqueNamesOk(st) && QueuesOk(st) && c in st.clients && !Active(st.clients, c)
    requires counters.Valid() && IsUniqueName(u) && !st.counters.Issued(u) && counters.Issued(u)
    requires forall n :: st.counters.Issued(n) ==> counters.Issued(n)
    ensures UniqueNamesOk(st.(clients := st.clients[c := st.clients[c].(uniqueName := Some(u))], counters := counters))
  {
    var clients := st.clients[c := st.clients[c].(uniqueName := Some(u))];
    assert forall d :: d != c ==> ConnName(clients, d) == ConnName(st.clients, d);
    assert forall n :: n in st.services ==> st.services[n][0] in st.services[n];
  }

  lemma NamingKeepsNames(st: State, c: Conn)
    requires UniqueNamesOk(st) && QueuesOk(st) && c in st.clients && !Active(st.clients, c) && !st.counters.Exhausted()
    ensures UniqueNamesOk(DoHello(st, c, true))
  {
    NextNameIsFresh(st.counters);
    NewNameKeepsNames(st, c, st.counters.NextName(), st.counters.Issue());
  }

  lemma NamingKeepsPrimaries(st: State, c: Conn)
    requires QueuesOk(st) && c in st.clients && !Active(st.clients, c) && st.counters.Valid()
    ensures PrimaryNames(st.services, DoHello(st, c, true).clients) == PrimaryNames(st.services, st.clients)
  {
    assert forall n :: n in st.services ==> st.services[n][0] in st.services[n];
  }

  /** A name issued to nobody is never used again. */
  lemma IssueKeepsInv(st: State)
    requires Inv(st) && !st.counters.Exhausted()
    ensures Inv(st.(counters := st.counters.Issue()))
  {
    NextNameIsFresh(st.counters);
  }

  lemma HelloKeepsInv(st: State, c: Conn, cancelled: bool)
    requires Inv(st) && c in st.clients && !Active(st.clients, c) && !st.counters.Exhausted()
    ensures Inv(DoHello(st, c, cancelled))
  {
    NamingKeepsInv(st, c);
    if !cancelled {
      var u, named := st.counters.NextName(), DoHello(st, c, true);
      InactiveOwnsNothing(st, c);
      NextNameIsFresh(st.counters);
      SetQueueKeepsInv(named, u, [NewOwner(c, NO_FLAGS)]);
    }
  }

  lemma RemoveLastOfLast(s: seq<Name>)
    requires s != []
    ensures RemoveLast(s, s[|s| - 1]) == s[..|s| - 1]
  {
  }

  lemma LastIsQueued(st: State, c: Conn)
    requires Inv(st) && c in st.clients && st.clients[c].owned != []
    ensures var names := st.clients[c].owned;
            var n := names[|names| - 1];
            n in st.services && WellFormed(st.services[n]) && Has(st.services[n], c) && st.clients[c].nOwned == |names|
  {
    var names := st.clients[c].owned;
    assert names[|names| - 1] in names && IndexOk(st.services, c, st.clients[c]);
  }

  /** One round of the disconnect loop: the last name leaves the list and nothing else about the connection changes. */
  lemma DropOne(st: State, c: Conn)
    requires Inv(st) && c in st.clients && st.clients[c].owned != []
    ensures var names := st.clients[c].owned;
            var st' := DoRelease(st, c, names[|names| - 1]);
            && Inv(st') && c in st'.clients
            && st'.clients[c].owned == names[..|names| - 1] && st'.clients[c].nOwned == st.clients[c].nOwned - 1 >= 0
    ensures var names := st.clients[c].owned;
            var n := names[|names| - 1];
            n in st.services && WellFormed(st.services[n]) && Has(st.services[n], c)
  {
    var names := st.clients[c].owned;
    var n := names[|names| - 1];
    var q := QueueOf(st.services, n);
    LastIsQueued(st, c);
    assert UniqueNameFirst(st.clients[c]);
    if IsUniqueName(n) {
      assert q[0].conn == c;
      assert names == [n];
    }
    ReleaseKeepsInv(st, c, n);
    WithoutFacts(q, c);
    RemoveLastOfLast(names);
  }

  lemma ReleasedQueue(st: State, c: Conn, n: Name, m: Name)
    requires Distinct(QueueOf(st.services, n))
    ensures Without(QueueOf(DoRelease(st, c, n).services, m), c) == Without(QueueOf(st.services, m), c)
  {
    if m == n {
      var q := QueueOf(st.services, n);
      WithoutFacts(q, c);
      WithoutAbsent(Without(q, c), c);
    }
  }

  /** Dropping every owned name removes the connection from every queue and changes no queue otherwise. */
  lemma {:induction false} DropNamesFacts(st: State, c: Conn, names: seq<Name>)
    requires Inv(st) && c in st.clients && names == st.clients[c].owned
    ensures var st' := DropNames(st, c, names);
            && Inv(st') && c in st'.clients && st'.clients[c].owned == []
            && forall n :: QueueOf(st'.services, n) == Without(QueueOf(st.services, n), c)
    decreases |names|
  {
    if names == [] {
      forall n
        ensures QueueOf(st.services, n) == Without(QueueOf(st.services, n), c)
      {
        WithoutAbsent(QueueOf(st.services, n), c);
      }
    } else {
      DropOne(st, c);
      var n := names[|names| - 1];
      var st1 := DoRelease(st, c, n);
      DropNamesFacts(st1, c, names[..|names| - 1]);
      forall m
        ensures Without(QueueOf(st1.services, m), c) == Without(QueueOf(st.services, m), c)
      {
        ReleasedQueue(st, c, n, m);
      }
    }
  }

  ghost predicate AnnouncedGone(log: seq<Signal>, c: Conn, u: Name) {
    |log| >= 2 && log[|log| - 2..] == [NameLost(c, u), NameOwnerChanged(u, u, "")]
  }

  /** Giving up the unique name announces that the connection is gone. */
  lemma UniqueNameGone(st: State, c: Conn)
    requires Inv(st) && Active(st.clients, c) && ConnName(st.clients, c) in st.clients[c].owned
    ensures AnnouncedGone(DoRelease(st, c, ConnName(st.clients, c)).log, c, ConnName(st.clients, c))
  {
    var u := ConnName(st.clients, c);
    var q := QueueOf(st.services, u);
    assert IndexOk(st.services, c, st.clients[c]);
    assert Has(q, c) && |q| == 1 && q[0].conn == c;
    var sent := ChangeSignals(st.clients, u, Some(c), None);
    assert sent == [NameLost(c, u), NameOwnerChanged(u, u, "")];
    assert (st.log + sent)[|st.log|..] == sent;
  }

  /** The unique name is the last one given up. */
  lemma {:induction false} UniqueNameDroppedLast(st: State, c: Conn, names: seq<Name>)
    requires Inv(st) && Active(st.clients, c) && names == st.clients[c].owned && names != []
    requires names[0] == ConnName(st.clients, c)
    ensures AnnouncedGone(DropNames(st, c, names).log, c, ConnName(st.clients, c))
    decreases |names|
  {
    if |names| > 1 {
      var n := names[|names| - 1];
      DropOne(st, c);
      ReindexKeepsNames(st.clients, n, QueueOf(st.services, n), Without(QueueOf(st.services, n), c));
      UniqueNameDroppedLast(DoRelease(st, c, n), c, names[..|names| - 1]);
    } else {
      assert names[0] in names;
      UniqueNameGone(st, c);
      assert DropNames(st, c, names) == DoRelease(st, c, names[0]);
    }
  }

  /**
   After a disconnection the connection is known nowhere in the registry, every other owner keeps
   its place, and if the connection owned its unique name that was announced as gone last of all.
   */
  lemma DisconnectFacts(st: State, c: Conn)
    requires Inv(st) && c in st.clients
    ensures var st' := DoDisconnect(st, c);
            && Inv(st') && c !in st'.clients
            && (forall n :: QueueOf(st'.services, n) == Without(QueueOf(st.services, n), c))
            && (forall n :: !Has(QueueOf(st'.services, n), c))
    ensures ConnName(st.clients, c) in st.clients[c].owned ==>
              AnnouncedGone(DoDisconnect(st, c).log, c, ConnName(st.clients, c))
  {
    var names := st.clients[c].owned;
    var st1, st' := DropNames(st, c, names), DoDisconnect(st, c);
    DropNamesFacts(st, c, names);
    assert IndexOk(st1.services, c, st1.clients[c]);
    assert forall n :: n in names ==> Has(QueueOf(st.services, n), c);
    ForgetKeepsInv(st1, c);
    if ConnName(st.clients, c) in names {
      UniqueNameNotEmpty(st, c);
      UniqueNameDroppedLast(st, c, names);
    }
  }

  lemma UniqueNameNotEmpty(st: State, c: Conn)
    requires Inv(st) && c in st.clients && ConnName(st.clients, c) in st.clients[c].owned
    ensures Active(st.clients, c) && st.clients[c].owned[0] == ConnName(st.clients, c)
  {
    if !Active(st.clients, c) {
      InactiveOwnsNothing(st, c);
    }
    assert UniqueNameFirst(st.clients[c]);
  }

  /** Every owner is still there under its name, and nobody else has one. */
  ghost predicate SameActive(st: State, clients: map<Conn, Client>) {
    && (forall d :: Active(clients, d) ==> Active(st.clients, d) && ConnName(clients, d) == ConnName(st.clients, d))
    && (forall n, d :: n in st.services && Has(st.services[n], d) ==> Active(clients, d))
  }

  lemma OthersKeepNames(st: State, clients: map<Conn, Client>)
    requires QueuesOk(st) && UniqueNamesOk(st) && SameActive(st, clients)
    ensures QueuesOk(st.(clients := clients)) && UniqueNamesOk(st.(clients := clients))
  {
    assert forall n :: n in st.services ==> st.services[n][0] in st.services[n];
  }

  lemma OthersKeepSignals(st: State, clients: map<Conn, Client>)
    requires QueuesOk(st) && SignalsOk(st) && SameActive(st, clients)
    ensures SignalsOk(st.(clients := clients))
  {
    assert forall n :: n in st.services ==> st.services[n][0] in st.services[n];
    assert PrimaryNames(st.services, clients) == PrimaryNames(st.services, st.clients);
  }

  /** Adding or forgetting connections that own nothing keeps the invariant. */
  lemma OthersKeepInv(st: State, clients: map<Conn, Client>)
    requires Inv(st) && SameActive(st, clients)
    requires forall d :: d in clients ==> IndexOk(st.services, d, clients[d]) && UniqueNameFirst(clients[d])
    ensures Inv(st.(clients := clients))
  {
    OthersKeepNames(st, clients);
    OthersKeepSignals(st, clients);
  }

  lemma ForgetKeepsInv(st: State, c: Conn)
    requires Inv(st) && c in st.clients && st.clients[c].owned == []
    ensures Inv(st.(clients := st.clients - {c}))
  {
    assert IndexOk(st.services, c, st.clients[c]);
    assert forall n :: n in st.services ==> !Has(QueueOf(st.services, n), c);
    OthersKeepInv(st, st.clients - {c});
  }

  lemma ConnectKeepsInv(st: State, c: Conn)
    requires Inv(st) && c !in st.clients
    ensures Inv(st.(clients := st.clients[c := Client(None, [], 0)]))
  {
    assert forall n :: !Has(QueueOf(st.services, n), c);
    OthersKeepInv(st, st.clients[c := Client(None, [], 0)]);
  }

  lemma HelloStepKeepsInv(st: State, c: Conn, end: HelloEnd, maxServices: int)
    requires Inv(st)
    ensures Inv(Apply(st, Hello(c, end), maxServices))
  {
    if c in st.clients && !Active(st.clients, c) && !st.counters.Exhausted() {
      if end == NotCompleted { IssueKeepsInv(st); } else { HelloKeepsInv(st, c, end == Cancelled); }
    }
  }

  lemma ApplyKeepsInv(st: State, step: Step, maxServices: int)
    requires Inv(st)
    ensures Inv(Apply(st, step, maxServices))
  {
    match step
    case Connect(c) =>
      if c !in st.clients { ConnectKeepsInv(st, c); }
    case Hello(c, end) => HelloStepKeepsInv(st, c, end, maxServices);
    case RequestName(c, n, f, k) =>
      if Active(st.clients, c) && !IsUniqueName(n) { RequestKeepsInv(st, c, n, f); }
    case ReleaseName(c, n, v) =>
      if !IsUniqueName(n) { ReleaseKeepsInv(st, c, n); }
    case Disconnect(c) =>
      if c in st.clients { DisconnectFacts(st, c); }
  }

  // ----- runs

  function Run(st: State, steps: seq<Step>, maxServices: int): (r: State)
    requires st.counters.Valid()
    ensures r.counters.Valid()
    decreases |steps|
  {
    if steps == [] then st
    else Run(Apply(st, steps[0], maxServices), steps[1..], maxServices)
  }

  lemma {:induction false} RunKeepsInv(st: State, steps: seq<Step>, maxServices: int)
    requires Inv(st)
    ensures Inv(Run(st, steps, maxServices))
    decreases |steps|
  {
    if steps != [] {
      ApplyKeepsInv(st, steps[0], maxServices);
      RunKeepsInv(Apply(st, steps[0], maxServices), steps[1..], maxServices);
    }
  }

  lemma InitInv()
    ensures Inv(INIT)
  {
  }

  /**
   Whoever listens to the ownership signals from the start always knows the primary owner of
   every name, and every connection knows exactly the names it is primary owner of.
   */
  lemma SignalsTellOwnership(steps: seq<Step>, maxServices: int)
    ensures var st := Run(INIT, steps, maxServices);
            && Coherent(st.log)
            && OwnersSeen(st.log) == (map n | n in st.services :: PrimaryName(st.clients, Primary(st.services[n])))
            && forall c, n :: (c, n) in HeldSeen(st.log) <==> n in st.services && Primary(st.services[n]) == Some(c)
  {
    InitInv();
    RunKeepsInv(INIT, steps, maxServices);
  }

  /** At every transaction boundary the owner queues and the back-index describe the same ownership. */
  lemma BackIndexAgrees(steps: seq<Step>, maxServices: int, c: Conn)
    ensures var st := Run(INIT, steps, maxServices);
            c in st.clients ==>
              && NoDup(st.clients[c].owned)
              && st.clients[c].nOwned == |st.clients[c].owned|
              && forall n :: n in st.clients[c].owned <==> n in st.services && Has(st.services[n], c)
  {
    InitInv();
    RunKeepsInv(INIT, steps, maxServices);
    var st := Run(INIT, steps, maxServices);
    if c in st.clients {
      assert IndexOk(st.services, c, st.clients[c]);
    }
  }

  /** Every registered queue has a primary owner, lists nobody twice or unconnected, and keeps nobody waiting who asked not to. */
  lemma QueuesStayWellFormed(steps: seq<Step>, maxServices: int, n: Name)
    ensures var st := Run(INIT, steps, maxServices);
            n in st.services ==>
              && WellFormed(st.services[n])
              && forall c :: Has(st.services[n], c) ==> Active(st.clients, c)
  {
    InitInv();
    RunKeepsInv(INIT, steps, maxServices);
  }

  /** A registered unique name has one owner, the connection that Hello gave it to; and the name Hello tries first is never taken. */
  lemma UniqueNamesStayPut(steps: seq<Step>, maxServices: int)
    ensures var st := Run(INIT, steps, maxServices);
            && (forall n :: n in st.services && IsUniqueName(n) ==>
                  |st.services[n]| == 1 && ConnName(st.clients, st.services[n][0].conn) == n)
            && (forall c, d :: Active(st.clients, c) && Active(st.clients, d) && c != d ==>
                  ConnName(st.clients, c) != ConnName(st.clients, d))
            && (!st.counters.Exhausted() ==> st.counters.NextName() !in st.services)
  {
    InitInv();
    RunKeepsInv(INIT, steps, maxServices);
    var st := Run(INIT, steps, maxServices);
    if !st.counters.Exhausted() {
      NextNameIsFresh(st.counters);
    }
  }

  // ----- connections named by a cancelled Hello

  /** The connections whose name was never registered, after one more step. */
  function StrandedBy(stranded: set<Conn>, st: State, step: Step): set<Conn> {
    match step
    case Hello(c, end) =>
      if c in st.clients && !Active(st.clients, c) && end == Cancelled && !st.counters.Exhausted() then stranded + {c} else stranded
    case Disconnect(c) => stranded - {c}
    case _ => stranded
  }

  function Stranded(stranded: set<Conn>, st: State, steps: seq<Step>, maxServices: int): set<Conn>
    requires st.counters.Valid()
    decreases |steps|
  {
    if steps == [] then stranded
    else Stranded(StrandedBy(stranded, st, steps[0]), Apply(st, steps[0], maxServices), steps[1..], maxServices)
  }

  predicate OwnsItsName(st: State, c: Conn) { Has(QueueOf(st.services, ConnName(st.clients, c)), c) }

  ghost predicate StrandedOk(st: State, stranded: set<Conn>) {
    && (forall c :: Active(st.clients, c) ==> (OwnsItsName(st, c) <==> c !in stranded))
    && (forall c :: c in stranded ==> Active(st.clients, c))
  }

  /** Changing the queue of a name that is nobody's unique name, or a newcomer's, leaves the others' unique names alone. */
  lemma SetQueueOwnsName(st: State, n: Name, q: Queue, c: Conn)
    requires ConnName(st.clients, c) != n
    ensures Active(SetQueue(st, n, q).clients, c) <==> Active(st.clients, c)
    ensures ConnName(SetQueue(st, n, q).clients, c) == ConnName(st.clients, c)
    ensures OwnsItsName(SetQueue(st, n, q), c) <==> OwnsItsName(st, c)
  {
    ReindexKeepsNames(st.clients, n, QueueOf(st.services, n), q);
  }

  lemma WellKnownKeepsStranded(st: State, n: Name, q: Queue, stranded: set<Conn>)
    requires Inv(st) && StrandedOk(st, stranded) && !IsUniqueName(n)
    ensures StrandedOk(SetQueue(st, n, q), stranded)
  {
    ReindexKeepsNames(st.clients, n, QueueOf(st.services, n), q);
    forall c | Active(st.clients, c)
      ensures OwnsItsName(SetQueue(st, n, q), c) <==> OwnsItsName(st, c)
    {
      SetQueueOwnsName(st, n, q, c);
    }
  }

  /** The connection named last is no trouble to the others. */
  lemma OthersKeepTheirNames(st: State, c: Conn, cancelled: bool, d: Conn)
    requires Inv(st) && c in st.clients && !Active(st.clients, c) && !st.counters.Exhausted() && d != c
    ensures Active(DoHello(st, c, cancelled).clients, d) <==> Active(st.clients, d)
    ensures Active(st.clients, d) ==> (OwnsItsName(DoHello(st, c, cancelled), d) <==> OwnsItsName(st, d))
  {
    var u, named := st.counters.NextName(), DoHello(st, c, true);
    NextNameIsFresh(st.counters);
    if !cancelled {
      ReindexKeepsNames(named.clients, u, QueueOf(named.services, u), [NewOwner(c, NO_FLAGS)]);
      if Active(st.clients, d) {
        SetQueueOwnsName(named, u, [NewOwner(c, NO_FLAGS)], d);
      }
    }
  }

  lemma HelloKeepsStranded(st: State, c: Conn, cancelled: bool, stranded: set<Conn>)
    requires Inv(st) && c in st.clients && !Active(st.clients, c) && !st.counters.Exhausted() && StrandedOk(st, stranded)
    ensures StrandedOk(DoHello(st, c, cancelled), if cancelled then stranded + {c} else stranded)
  {
    var u, st' := st.counters.NextName(), DoHello(st, c, cancelled);
    NamingKeepsInv(st, c);
    forall d | d != c
      ensures Active(st'.clients, d) <==> Active(st.clients, d)
      ensures Active(st.clients, d) ==> (OwnsItsName(st', d) <==> OwnsItsName(st, d))
    {
      OthersKeepTheirNames(st, c, cancelled, d);
    }
    if !cancelled {
      var named, q := DoHello(st, c, true), [NewOwner(c, NO_FLAGS)];
      ReindexKeepsNames(named.clients, u, QueueOf(named.services, u), q);
      assert QueueOf(st'.services, u) == q && q[0] in q;
    }
  }

  lemma {:induction false} DropNamesKeepsNames(st: State, c: Conn, names: seq<Name>)
    ensures forall d :: Active(DropNames(st, c, names).clients, d) <==> Active(st.clients, d)
    ensures forall d :: ConnName(DropNames(st, c, names).clients, d) == ConnName(st.clients, d)
    decreases |names|
  {
    if names != [] {
      var n := names[|names| - 1];
      ReindexKeepsNames(st.clients, n, QueueOf(st.services, n), Without(QueueOf(st.services, n), c));
      DropNamesKeepsNames(DoRelease(st, c, n), c, names[..|names| - 1]);
    }
  }

  lemma OthersKeepNameOnDisconnect(st: State, c: Conn, d: Conn)
    requires Inv(st) && c in st.clients && d != c
    ensures Active(DoDisconnect(st, c).clients, d) <==> Active(st.clients, d)
    ensures OwnsItsName(DoDisconnect(st, c), d) <==> OwnsItsName(st, d)
  {
    var st', u := DoDisconnect(st, c), ConnName(st.clients, d);
    DropNamesKeepsNames(st, c, st.clients[c].owned);
    assert ConnName(st'.clients, d) == u;
    assert QueueOf(st'.services, u) == Without(QueueOf(st.services, u), c) by { DisconnectFacts(st, c); }
    if u in st.services { WithoutFacts(st.services[u], c); }
  }

  lemma DisconnectKeepsStranded(st: State, c: Conn, stranded: set<Conn>)
    requires Inv(st) && c in st.clients && StrandedOk(st, stranded)
    ensures StrandedOk(DoDisconnect(st, c), stranded - {c})
  {
    forall d | d != c
      ensures Active(DoDisconnect(st, c).clients, d) <==> Active(st.clients, d)
      ensures OwnsItsName(DoDisconnect(st, c), d) <==> OwnsItsName(st, d)
    {
      OthersKeepNameOnDisconnect(st, c, d);
    }
    assert c !in DoDisconnect(st, c).clients;
  }

  lemma ApplyKeepsStranded(st: State, step: Step, maxServices: int, stranded: set<Conn>)
    requires Inv(st) && StrandedOk(st, stranded)
    ensures StrandedOk(Apply(st, step, maxServices), StrandedBy(stranded, st, step))
  {
    match step
    case Connect(c) =>
    case Hello(c, end) =>
      if c in st.clients && !Active(st.clients, c) && !st.counters.Exhausted() && end != OverLimits && end != NotCompleted {
        HelloKeepsStranded(st, c, end == Cancelled, stranded);
      }
    case RequestName(c, n, f, k) =>
      if !IsUniqueName(n) { WellKnownKeepsStranded(st, n, Request(QueueOf(st.services, n), c, f).0, stranded); }
    case ReleaseName(c, n, v) =>
      if !IsUniqueName(n) { WellKnownKeepsStranded(st, n, Without(QueueOf(st.services, n), c), stranded); }
    case Disconnect(c) =>
      if c in st.clients { DisconnectKeepsStranded(st, c, stranded); }
  }

  lemma {:induction false} RunKeepsStranded(st: State, steps: seq<Step>, maxServices: int, stranded: set<Conn>)
    requires Inv(st) && StrandedOk(st, stranded)
    ensures StrandedOk(Run(st, steps, maxServices), Stranded(stranded, st, steps, maxServices))
    decreases |steps|
  {
    if steps != [] {
      ApplyKeepsInv(st, steps[0], maxServices);
      ApplyKeepsStranded(st, steps[0], maxServices, stranded);
      RunKeepsStranded(Apply(st, steps[0], maxServices), steps[1..], maxServices, StrandedBy(stranded, st, steps[0]));
    }
  }

  /**
   In every run a registered connection is the one owner of its unique name if and only if its Hello
   was not cancelled after the connection was completed.
   */
  lemma OwnsItsNameIff(steps: seq<Step>, maxServices: int, c: Conn)
    ensures var st := Run(INIT, steps, maxServices);
            Active(st.clients, c) ==>
              var q := QueueOf(st.services, ConnName(st.clients, c));
              (|q| == 1 && q[0].conn == c) <==> c !in Stranded({}, INIT, steps, maxServices)
  {
    InitInv();
    RunKeepsInv(INIT, steps, maxServices);
    RunKeepsStranded(INIT, steps, maxServices, {});
    var st := Run(INIT, steps, maxServices);
    if Active(st.clients, c) {
      var q := QueueOf(st.services, ConnName(st.clients, c));
      assert q != [] ==> q[0] in q;
      assert OwnsItsName(st, c) ==> exists i :: 0 <= i < |q| && q[i].conn == c;
    }
  }

  /** Connect and a cancelled Hello: the connection has a name that no service is registered for. */
  lemma CancelledHelloStrands()
    ensures var st := Run(INIT, [Connect(0), Hello(0, Cancelled)], 1);
            Active(st.clients, 0) && ConnName(st.clients, 0) !in st.services
  {
    var st1 := Apply(INIT, Connect(0), 1);
    var st2 := Apply(st1, Hello(0, Cancelled), 1);
    var steps := [Connect(0), Hello(0, Cancelled)];
    assert steps[1..] == [Hello(0, Cancelled)] && steps[1..][1..] == [];
    assert Run(st1, steps[1..], 1) == Run(st2, [], 1);
  }
}
