/**
 The name registry at transaction boundaries: owner queues, each connection's list of owned
 names and the ownership signals sent so far (bus/services.c, bus/driver.c, bus/connection.c).

 Every committed change replaces the queue of one name. `SetQueue` says what that does to the
 rest of the state: the back-index follows membership, the signals follow the primary owner.
 */
module NameRegistry {
  import opened BusTypes
  import opened ListFacts
  import opened OwnerQueues
  import opened UniqueNames

  /** What the daemon keeps per connection: its unique name once Hello succeeded, and the names it is queued for. */
  datatype Client = Client(uniqueName: Option<Name>, owned: seq<Name>, nOwned: int)

  /** The three ownership signals; an empty string stands for "no owner". */
  datatype Signal =
    | NameOwnerChanged(name: Name, oldOwner: string, newOwner: string)
    | NameAcquired(dest: Conn, name: Name)
    | NameLost(dest: Conn, name: Name)

  datatype State = State(services: map<Name, Queue>, clients: map<Conn, Client>, counters: Counters, log: seq<Signal>)

  const INIT: State := State(map[], map[], INITIAL, [])

  predicate IsUniqueName(n: Name) { |n| > 0 && n[0] == ':' }

  function QueueOf(services: map<Name, Queue>, n: Name): Queue {
    if n in services then services[n] else []
  }

  function ConnName(clients: map<Conn, Client>, c: Conn): string {
    if c in clients && clients[c].uniqueName.Some? then clients[c].uniqueName.value else ""
  }

  predicate Active(clients: map<Conn, Client>, c: Conn) {
    c in clients && clients[c].uniqueName.Some?
  }

  /** The signals announcing that the primary owner of `n` changed. */
  function ChangeSignals(clients: map<Conn, Client>, n: Name, before: Option<Conn>, after: Option<Conn>): seq<Signal> {
    if before == after then []
    else
      var lost := if before.Some? then [NameLost(before.value, n)] else [];
      var acquired := if after.Some? then [NameAcquired(after.value, n)] else [];
      lost + [NameOwnerChanged(n, PrimaryName(clients, before), PrimaryName(clients, after))] + acquired
  }

  function PrimaryName(clients: map<Conn, Client>, p: Option<Conn>): string {
    if p.None? then "" else ConnName(clients, p.value)
  }

  /** The back-index entry of one connection when its membership in the queue of `n` goes from `was` to `now`. */
  function Reindex(cl: Client, n: Name, was: bool, now: bool): Client {
    if now && !was then cl.(owned := cl.owned + [n], nOwned := cl.nOwned + 1)
    else if was && !now then cl.(owned := RemoveLast(cl.owned, n), nOwned := cl.nOwned - 1)
    else cl
  }

  function PutQueue(services: map<Name, Queue>, n: Name, q: Queue): map<Name, Queue> {
    if q == [] then services - {n} else services[n := q]
  }

  function ReindexAll(clients: map<Conn, Client>, n: Name, before: Queue, after: Queue): map<Conn, Client> {
    map c | c in clients :: Reindex(clients[c], n, Has(before, c), Has(after, c))
  }

  /** The committed change of the queue of `n` to `q`. */
  function SetQueue(st: State, n: Name, q: Queue): State {
    var was := QueueOf(st.services, n);
    State(PutQueue(st.services, n, q),
          ReindexAll(st.clients, n, was, q),
          st.counters,
          st.log + ChangeSignals(st.clients, n, Primary(was), Primary(q)))
  }

  // ----- replaying the signals

  /** The owner of every name, as a listener to NameOwnerChanged sees it. */
  function OwnersSeen(log: seq<Signal>): map<Name, string> {
    if log == [] then map[]
    else
      var m, s := OwnersSeen(log[..|log| - 1]), log[|log| - 1];
      if !s.NameOwnerChanged? then m
      else if s.newOwner == "" then m - {s.name}
      else m[s.name := s.newOwner]
  }

  function OwnerSeen(log: seq<Signal>, n: Name): string {
    if n in OwnersSeen(log) then OwnersSeen(log)[n] else ""
  }

  /** The (connection, name) pairs for which NameAcquired was received and not yet followed by NameLost. */
  function HeldSeen(log: seq<Signal>): set<(Conn, Name)> {
    if log == [] then {}
    else
      var h, s := HeldSeen(log[..|log| - 1]), log[|log| - 1];
      match s
      case NameOwnerChanged(_, _, _) => h
      case NameAcquired(c, n) => h + {(c, n)}
      case NameLost(c, n) => h - {(c, n)}
  }

  /** No signal contradicts the ones before it: the old owner is the one last announced, and only held names are lost. */
  predicate Coherent(log: seq<Signal>) {
    log == [] ||
    var before, s := log[..|log| - 1], log[|log| - 1];
    && Coherent(before)
    && match s
       case NameOwnerChanged(n, o, o') =>
         o != o' && o == OwnerSeen(before, n)
       case NameAcquired(c, n) => (c, n) !in HeldSeen(before)
       case NameLost(c, n) => (c, n) in HeldSeen(before)
  }

  // ----- the invariant

  ghost predicate QueuesOk(st: State) {
    forall n :: n in st.services ==>
      WellFormed(st.services[n]) && forall c :: Has(st.services[n], c) ==> Active(st.clients, c)
  }

  ghost predicate IndexOk(services: map<Name, Queue>, c: Conn, cl: Client) {
    && NoDup(cl.owned)
    && cl.nOwned == |cl.owned|
    && forall n :: n in cl.owned <==> Has(QueueOf(services, n), c)
  }

  ghost predicate BackIndexOk(st: State) {
    forall c :: c in st.clients ==> IndexOk(st.services, c, st.clients[c])
  }

  ghost predicate UniqueNamesOk(st: State) {
    && st.counters.Valid()
    && (forall c :: Active(st.clients, c) ==>
          IsUniqueName(ConnName(st.clients, c)) && st.counters.Issued(ConnName(st.clients, c)))
    && (forall c, d :: Active(st.clients, c) && Active(st.clients, d) && ConnName(st.clients, c) == ConnName(st.clients, d) ==> c == d)
    && (forall n :: n in st.services && IsUniqueName(n) ==>
          && st.counters.Issued(n) && |st.services[n]| == 1
          && ConnName(st.clients, st.services[n][0].conn) == n)
  }

  /** A connection's unique name, while it owns it, is the oldest entry of its list. */
  ghost predicate UniqueNameFirst(cl: Client) {
    cl.uniqueName.Some? && cl.uniqueName.value in cl.owned ==> cl.owned[0] == cl.uniqueName.value
  }

  ghost predicate FirstOk(st: State) {
    forall c :: c in st.clients ==> UniqueNameFirst(st.clients[c])
  }

  function PrimaryNames(services: map<Name, Queue>, clients: map<Conn, Client>): map<Name, string> {
    map n | n in services :: PrimaryName(clients, Primary(services[n]))
  }

  ghost predicate HeldOk(services: map<Name, Queue>, held: set<(Conn, Name)>) {
    forall c, n :: (c, n) in held <==> n in services && Primary(services[n]) == Some(c)
  }

  ghost predicate SignalsOk(st: State) {
    && Coherent(st.log)
    && OwnersSeen(st.log) == PrimaryNames(st.services, st.clients)
    && HeldOk(st.services, HeldSeen(st.log))
  }

  ghost predicate Inv(st: State) {
    QueuesOk(st) && BackIndexOk(st) && UniqueNamesOk(st) && FirstOk(st) && SignalsOk(st)
  }

  // ----- one committed change keeps the invariant

  /** `q` may become the queue of `n`: it is empty or well formed, its members are active, and a unique name stays with its connection. */
  ghost predicate Admissible(st: State, n: Name, q: Queue) {
    && (q == [] || WellFormed(q))
    && (forall c :: Has(q, c) ==> Active(st.clients, c))
    && (IsUniqueName(n) && q != [] ==> st.counters.Issued(n) && |q| == 1 && ConnName(st.clients, q[0].conn) == n)
  }

  lemma ReindexKeepsNames(clients: map<Conn, Client>, n: Name, before: Queue, after: Queue)
    ensures forall c :: Active(ReindexAll(clients, n, before, after), c) <==> Active(clients, c)
    ensures forall c :: ConnName(ReindexAll(clients, n, before, after), c) == ConnName(clients, c)
  {
  }

  lemma SetQueueQueues(st: State, n: Name, q: Queue)
    requires QueuesOk(st) && Admissible(st, n, q)
    ensures QueuesOk(SetQueue(st, n, q))
  {
    ReindexKeepsNames(st.clients, n, QueueOf(st.services, n), q);
  }

  lemma ReindexIndex(services: map<Name, Queue>, c: Conn, cl: Client, n: Name, q: Queue)
    requires IndexOk(services, c, cl)
    ensures IndexOk(PutQueue(services, n, q), c, Reindex(cl, n, Has(QueueOf(services, n), c), Has(q, c)))
  {
    var was, now := Has(QueueOf(services, n), c), Has(q, c);
    assert QueueOf(PutQueue(services, n, q), n) == q;
    assert forall m :: m != n ==> QueueOf(PutQueue(services, n, q), m) == QueueOf(services, m);
    if now && !was {
      NoDupSnoc(cl.owned, n);
    } else if was && !now {
      RemoveLastNoDup(cl.owned, n);
    }
  }

  lemma SetQueueIndex(st: State, n: Name, q: Queue)
    requires BackIndexOk(st)
    ensures BackIndexOk(SetQueue(st, n, q))
  {
    forall c | c in st.clients
      ensures IndexOk(PutQueue(st.services, n, q), c, SetQueue(st, n, q).clients[c])
    {
      ReindexIndex(st.services, c, st.clients[c], n, q);
    }
  }

  lemma SetQueueNames(st: State, n: Name, q: Queue)
    requires UniqueNamesOk(st) && Admissible(st, n, q)
    ensures UniqueNamesOk(SetQueue(st, n, q))
  {
    ReindexKeepsNames(st.clients, n, QueueOf(st.services, n), q);
  }

  lemma {:induction false} RemoveLastKeepsFirst(s: seq<Name>, x: Name)
    requires s != [] && s[0] != x
    ensures RemoveLast(s, x) != [] && RemoveLast(s, x)[0] == s[0]
  {
    if s[|s| - 1] != x && |s| > 1 {
      RemoveLastKeepsFirst(s[..|s| - 1], x);
    }
  }

  /** A well-known name never displaces the unique name from the front, and a unique name is only added to an empty list or removed when it is alone. */
  lemma SetQueueFirst(st: State, n: Name, q: Queue)
    requires FirstOk(st) && UniqueNamesOk(st) && BackIndexOk(st)
    requires forall c :: c in st.clients && Has(q, c) && !Has(QueueOf(st.services, n), c) && st.clients[c].uniqueName == Some(n) ==> st.clients[c].owned == []
    requires forall c :: c in st.clients && !Has(q, c) && Has(QueueOf(st.services, n), c) && st.clients[c].uniqueName == Some(n) ==> st.clients[c].owned == [n]
    ensures FirstOk(SetQueue(st, n, q))
  {
    forall c | c in st.clients
      ensures UniqueNameFirst(SetQueue(st, n, q).clients[c])
    {
      var cl := st.clients[c];
      var was, now := Has(QueueOf(st.services, n), c), Has(q, c);
      assert IndexOk(st.services, c, cl);
      if was && !now && cl.uniqueName.Some? {
        RemoveLastNoDup(cl.owned, n);
        if cl.uniqueName.value != n && cl.uniqueName.value in cl.owned {
          RemoveLastKeepsFirst(cl.owned, n);
        }
      }
    }
  }

  lemma SeenSnoc(log: seq<Signal>, s: Signal)
    ensures OwnersSeen(log + [s]) ==
            if !s.NameOwnerChanged? then OwnersSeen(log)
            else if s.newOwner == "" then OwnersSeen(log) - {s.name}
            else OwnersSeen(log)[s.name := s.newOwner]
    ensures s.NameOwnerChanged? ==> HeldSeen(log + [s]) == HeldSeen(log)
    ensures s.NameAcquired? ==> HeldSeen(log + [s]) == HeldSeen(log) + {(s.dest, s.name)}
    ensures s.NameLost? ==> HeldSeen(log + [s]) == HeldSeen(log) - {(s.dest, s.name)}
    ensures Coherent(log + [s]) <==>
            && Coherent(log)
            && (s.NameOwnerChanged? ==> s.oldOwner != s.newOwner && s.oldOwner == OwnerSeen(log, s.name))
            && (s.NameAcquired? ==> (s.dest, s.name) !in HeldSeen(log))
            && (s.NameLost? ==> (s.dest, s.name) in HeldSeen(log))
  {
    assert (log + [s])[..|log|] == log;
  }

  /** What listeners see after the signals of one change of primary owner. */
  lemma ChangeSeen(log: seq<Signal>, clients: map<Conn, Client>, n: Name, before: Option<Conn>, after: Option<Conn>)
    requires Coherent(log) && before != after
    requires PrimaryName(clients, before) != PrimaryName(clients, after)
    requires PrimaryName(clients, before) == OwnerSeen(log, n)
    requires before.Some? ==> (before.value, n) in HeldSeen(log)
    requires after.Some? ==> (after.value, n) !in HeldSeen(log)
    ensures var log' := log + ChangeSignals(clients, n, before, after);
            && Coherent(log')
            && OwnersSeen(log') == (if PrimaryName(clients, after) == "" then OwnersSeen(log) - {n}
                                    else OwnersSeen(log)[n := PrimaryName(clients, after)])
            && HeldSeen(log') == HeldSeen(log)
                                 - (if before.Some? then {(before.value, n)} else {})
                                 + (if after.Some? then {(after.value, n)} else {})
  {
    var log1 := if before.Some? then log + [NameLost(before.value, n)] else log;
    if before.Some? { SeenSnoc(log, NameLost(before.value, n)); }
    var noc := NameOwnerChanged(n, PrimaryName(clients, before), PrimaryName(clients, after));
    SeenSnoc(log1, noc);
    var log2 := log1 + [noc];
    if after.Some? {
      SeenSnoc(log2, NameAcquired(after.value, n));
      assert log + ChangeSignals(clients, n, before, after) == log2 + [NameAcquired(after.value, n)];
    } else {
      assert log + ChangeSignals(clients, n, before, after) == log2;
    }
  }

  lemma PrimaryNamesOfPut(services: map<Name, Queue>, clients: map<Conn, Client>, clients': map<Conn, Client>, n: Name, q: Queue)
    requires forall c :: ConnName(clients', c) == ConnName(clients, c)
    ensures PrimaryNames(PutQueue(services, n, q), clients') ==
            if q == [] then PrimaryNames(services, clients) - {n}
            else PrimaryNames(services, clients)[n := PrimaryName(clients, Primary(q))]
  {
  }

  lemma HeldOfPut(services: map<Name, Queue>, held: set<(Conn, Name)>, n: Name, q: Queue)
    requires HeldOk(services, held)
    ensures var before, after := Primary(QueueOf(services, n)), Primary(q);
            HeldOk(PutQueue(services, n, q), held
                   - (if before.Some? then {(before.value, n)} else {})
                   + (if after.Some? then {(after.value, n)} else {}))
    ensures Primary(QueueOf(services, n)) == Primary(q) ==> HeldOk(PutQueue(services, n, q), held)
  {
  }

  /** A change that leaves the primary owner alone is not announced. */
  lemma SamePrimarySignals(st: State, n: Name, q: Queue)
    requires SignalsOk(st) && QueuesOk(st) && Primary(QueueOf(st.services, n)) == Primary(q)
    ensures SignalsOk(SetQueue(st, n, q))
  {
    var clients' := ReindexAll(st.clients, n, QueueOf(st.services, n), q);
    assert SetQueue(st, n, q).log == st.log;
    ReindexKeepsNames(st.clients, n, QueueOf(st.services, n), q);
    PrimaryNamesOfPut(st.services, st.clients, clients', n, q);
    HeldOfPut(st.services, HeldSeen(st.log), n, q);
  }

  lemma OwnerSeenIsPrimary(st: State, n: Name)
    requires SignalsOk(st) && (n in st.services ==> st.services[n] != [])
    ensures OwnerSeen(st.log, n) == PrimaryName(st.clients, Primary(QueueOf(st.services, n)))
  {
  }

  lemma NewPrimarySignals(st: State, n: Name, q: Queue)
    requires SignalsOk(st) && QueuesOk(st) && UniqueNamesOk(st) && Admissible(st, n, q)
    requires Primary(QueueOf(st.services, n)) != Primary(q)
    ensures SignalsOk(SetQueue(st, n, q))
  {
    var was := QueueOf(st.services, n);
    var clients' := ReindexAll(st.clients, n, was, q);
    PrimariesAreNamed(st, n, q);
    OwnerSeenIsPrimary(st, n);
    ChangeSeen(st.log, st.clients, n, Primary(was), Primary(q));
    assert PrimaryNames(PutQueue(st.services, n, q), clients') == OwnersSeen(SetQueue(st, n, q).log) by {
      ReindexKeepsNames(st.clients, n, was, q);
      PrimaryNamesOfPut(st.services, st.clients, clients', n, q);
    }
    HeldOfPut(st.services, HeldSeen(st.log), n, q);
  }

  lemma SetQueueSignals(st: State, n: Name, q: Queue)
    requires SignalsOk(st) && QueuesOk(st) && UniqueNamesOk(st) && Admissible(st, n, q)
    ensures SignalsOk(SetQueue(st, n, q))
  {
    if Primary(QueueOf(st.services, n)) == Primary(q) {
      SamePrimarySignals(st, n, q);
    } else {
      NewPrimarySignals(st, n, q);
    }
  }

  lemma PrimariesAreNamed(st: State, n: Name, q: Queue)
    requires QueuesOk(st) && UniqueNamesOk(st) && Admissible(st, n, q)
    requires Primary(QueueOf(st.services, n)) != Primary(q)
    ensures q != [] <==> PrimaryName(st.clients, Primary(q)) != ""
    ensures PrimaryName(st.clients, Primary(QueueOf(st.services, n))) != PrimaryName(st.clients, Primary(q))
  {
    var was := QueueOf(st.services, n);
    assert was != [] ==> was[0] in was && Active(st.clients, was[0].conn);
    assert q != [] ==> q[0] in q && Active(st.clients, q[0].conn);
  }

  lemma SetQueueKeepsInv(st: State, n: Name, q: Queue)
    requires Inv(st) && Admissible(st, n, q)
    requires forall c :: c in st.clients && Has(q, c) && !Has(QueueOf(st.services, n), c) && st.clients[c].uniqueName == Some(n) ==> st.clients[c].owned == []
    requires forall c :: c in st.clients && !Has(q, c) && Has(QueueOf(st.services, n), c) && st.clients[c].uniqueName == Some(n) ==> st.clients[c].owned == [n]
    ensures Inv(SetQueue(st, n, q))
  {
    SetQueueQueues(st, n, q);
    SetQueueIndex(st, n, q);
    SetQueueNames(st, n, q);
    SetQueueFirst(st, n, q);
    SetQueueSignals(st, n, q);
  }
}
