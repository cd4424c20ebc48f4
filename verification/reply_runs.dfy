/** The life of every reply expectation over whole runs (bus/connection.c:1541-1901, bus/bus.c:1266-1284, 1481-1496). */
module ReplyRuns {
  import opened BusTypes
  import opened ListFacts
  import opened Transactions
  import opened ExpireLists
  import opened PendingReplies

  /** How an expectation ends; an expired one costs one NoReply error to the caller. */
  datatype Fate = ConsumedByReply | NoReplySent(to: Conn, serial: nat) | CallerLeft | TransactionCancelled

  datatype Event = Recorded(id: nat) | Ended(id: nat, fate: Fate)

  datatype State = State(list: seq<Reply>, nextId: nat, log: seq<Event>)

  const INIT: State := State([], 0, [])

  // ----- replaying the history

  /** The expectations recorded and not ended. */
  function Outstanding(log: seq<Event>): set<nat> {
    if log == [] then {}
    else
      var before := Outstanding(log[..|log| - 1]);
      match log[|log| - 1]
      case Recorded(id) => before + {id}
      case Ended(id, _) => before - {id}
  }

  function Seen(log: seq<Event>): set<nat> {
    if log == [] then {}
    else
      var before := Seen(log[..|log| - 1]);
      match log[|log| - 1]
      case Recorded(id) => before + {id}
      case Ended(_, _) => before
  }

  /** Nothing is recorded twice, and only what is outstanding ends: so nothing ends twice. */
  predicate OneFateEach(log: seq<Event>) {
    log == [] ||
    var before := log[..|log| - 1];
    && OneFateEach(before)
    && match log[|log| - 1]
       case Recorded(id) => id !in Seen(before)
       case Ended(id, _) => id in Outstanding(before)
  }

  // ----- the steps

  datatype Step =
    /** A whole dispatched transaction, executed or cancelled. */
    | Transaction(ops: seq<Op>, executed: bool)
    /** A pass of the expire list in which callback number `k` is the first to fail. */
    | ExpirePass(now: Timestamp, works: Reply -> bool, k: int)
    | ConnectionLost(c: Conn)

  /** The events of one operation. */
  function OpEvents(s: InTxn, op: Op, max: int): seq<Event> {
    var s' := Do(s, op, max);
    if s'.hooks == s.hooks then []
    else if s'.hooks[0].CancelPendingReply? then [Recorded(s'.hooks[0].replyId)]
    else if s'.hooks[0].RestorePendingReply? then [Ended(s'.hooks[0].reply.id, ConsumedByReply)]
    else []
  }

  function TxnEvents(s: InTxn, ops: seq<Op>, max: int): seq<Event>
    decreases |ops|
  {
    if ops == [] then []
    else
      var init := ops[..|ops| - 1];
      TxnEvents(s, init, max) + OpEvents(DoAll(s, init, max), ops[|ops| - 1], max)
  }

  /** The `n` expectations recorded, from identity `first` on, by a transaction that is then cancelled. */
  function CancelledEvents(first: nat, n: nat): seq<Event> {
    if n == 0 then []
    else CancelledEvents(first, n - 1) + [Recorded(first + n - 1), Ended(first + n - 1, TransactionCancelled)]
  }

  /** `bus_connection_drop_pending_replies`: what the caller waited for is forgotten, what the callee owed is due at once. */
  function DropConn(list: seq<Reply>, c: Conn): seq<Reply> {
    if list == [] then []
    else
      var rest := DropConn(list[1..], c);
      if list[0].getter == c then rest
      else if list[0].sender == Some(c) then [list[0].(sender := None, added := Timestamp(0, 0))] + rest
      else [list[0]] + rest
  }

  function DroppedEvents(list: seq<Reply>, c: Conn): seq<Event> {
    if list == [] then []
    else if list[0].getter == c then [Ended(list[0].id, CallerLeft)] + DroppedEvents(list[1..], c)
    else DroppedEvents(list[1..], c)
  }

  function ExpiredEvents(list: seq<Reply>, after: int, now: Timestamp): seq<Event> {
    if list == [] then []
    else if Due(list[0], after, now) then [Ended(list[0].id, NoReplySent(list[0].getter, list[0].serial))] + ExpiredEvents(list[1..], after, now)
    else ExpiredEvents(list[1..], after, now)
  }

  lemma {:induction false} DoAllIds(s: InTxn, ops: seq<Op>, max: int)
    ensures s.nextId <= DoAll(s, ops, max).nextId
    decreases |ops|
  {
    if ops != [] { DoAllIds(s, ops[..|ops| - 1], max); }
  }

  ghost predicate Enabled(st: State, step: Step, after: int) {
    step.ExpirePass? ==> FirstFailure(step.k, st.list, after, step.now, step.works)
  }

  ghost function Apply(st: State, step: Step, max: nat, after: int): State
    requires Enabled(st, step, after)
  {
    match step
    case Transaction(ops, executed) =>
      var s := InTxn(st.list, st.nextId, []);
      var s' := DoAll(s, ops, max);
      DoAllIds(s, ops, max);
      if executed then State(s'.list, s'.nextId, st.log + TxnEvents(s, ops, max))
      else State(UndoAll(s'.list, s'.hooks), s'.nextId, st.log + CancelledEvents(st.nextId, s'.nextId - st.nextId))
    case ExpirePass(now, works, k) =>
      State(Fresh(st.list[..k], after, now) + st.list[k..], st.nextId, st.log + ExpiredEvents(st.list[..k], after, now))
    case ConnectionLost(c) =>
      State(DropConn(st.list, c), st.nextId, st.log + DroppedEvents(st.list, c))
  }

  // ----- the invariant

  ghost predicate HistoryOk(list: seq<Reply>, nextId: nat, log: seq<Event>) {
    && OneFateEach(log)
    && Outstanding(log) == Table(list).Keys
    && forall id: nat :: id in Seen(log) <==> id < nextId
  }

  ghost predicate WithinLimits(list: seq<Reply>, max: nat) {
    forall c :: Waiting(list, c) <= max
  }

  /** No two licences with a live replier are for the same reply. */
  ghost predicate NoClash(list: seq<Reply>) {
    forall x, y :: x in list && y in list && x.sender.Some? && x.serial == y.serial && x.getter == y.getter && x.sender == y.sender ==> x.id == y.id
  }

  ghost predicate Inv(st: State, max: nat) {
    && Sound(InTxn(st.list, st.nextId, []))
    && HistoryOk(st.list, st.nextId, st.log)
    && WithinLimits(st.list, max)
    && NoClash(st.list)
  }

  lemma EventSnoc(log: seq<Event>, e: Event)
    ensures Outstanding(log + [e]) == if e.Recorded? then Outstanding(log) + {e.id} else Outstanding(log) - {e.id}
    ensures Seen(log + [e]) == if e.Recorded? then Seen(log) + {e.id} else Seen(log)
    ensures OneFateEach(log + [e]) <==> OneFateEach(log) && if e.Recorded? then e.id !in Seen(log) else e.id in Outstanding(log)
  {
    assert (log + [e])[..|log|] == log;
  }

  // ----- operations inside a transaction

  lemma RecordedHistory(list: seq<Reply>, list': seq<Reply>, id: nat, log: seq<Event>)
    requires HistoryOk(list, id, log) && Table(list').Keys == Table(list).Keys + {id}
    ensures HistoryOk(list', id + 1, log + [Recorded(id)])
  {
    EventSnoc(log, Recorded(id));
  }

  lemma EndedHistory(list: seq<Reply>, list': seq<Reply>, nextId: nat, log: seq<Event>, id: nat)
    requires HistoryOk(list, nextId, log) && id in Table(list) && Table(list').Keys == Table(list).Keys - {id}
    ensures HistoryOk(list', nextId, log + [Ended(id, ConsumedByReply)])
  {
    EventSnoc(log, Ended(id, ConsumedByReply));
  }

  lemma DoHistory(s: InTxn, op: Op, max: nat, log: seq<Event>)
    requires Sound(s) && HistoryOk(s.list, s.nextId, log)
    ensures Sound(Do(s, op, max))
    ensures HistoryOk(Do(s, op, max).list, Do(s, op, max).nextId, log + OpEvents(s, op, max))
  {
    DoTable(s, op, max);
    var s' := Do(s, op, max);
    if s' == s {
      assert log + [] == log;
    } else if x :| Consumed(s, s', x) {
      assert OpEvents(s, op, max) == [Ended(x.id, ConsumedByReply)];
      EndedHistory(s.list, s'.list, s.nextId, log, x.id);
    } else {
      assert OpEvents(s, op, max) == [Recorded(s.nextId)];
      RecordedHistory(s.list, s'.list, s.nextId, log);
    }
  }

  lemma {:induction false} DoAllHistory(s: InTxn, ops: seq<Op>, max: nat, log: seq<Event>)
    requires Sound(s) && HistoryOk(s.list, s.nextId, log)
    ensures Sound(DoAll(s, ops, max))
    ensures HistoryOk(DoAll(s, ops, max).list, DoAll(s, ops, max).nextId, log + TxnEvents(s, ops, max))
    decreases |ops|
  {
    if ops == [] {
      assert log + [] == log;
    } else {
      var init, op := ops[..|ops| - 1], ops[|ops| - 1];
      DoAllHistory(s, init, max, log);
      DoHistory(DoAll(s, init, max), op, max, log + TxnEvents(s, init, max));
      assert log + TxnEvents(s, init, max) + OpEvents(DoAll(s, init, max), op, max) == log + TxnEvents(s, ops, max);
    }
  }

  lemma OneCancelled(list: seq<Reply>, id: nat, log: seq<Event>)
    requires HistoryOk(list, id, log) && IdsBelow(list, id)
    ensures HistoryOk(list, id + 1, log + [Recorded(id)] + [Ended(id, TransactionCancelled)])
  {
    EventSnoc(log, Recorded(id));
    EventSnoc(log + [Recorded(id)], Ended(id, TransactionCancelled));
    assert id !in Table(list);
  }

  lemma {:induction false} CancelledHistory(list: seq<Reply>, first: nat, n: nat, log: seq<Event>)
    requires HistoryOk(list, first, log) && IdsBelow(list, first)
    ensures HistoryOk(list, first + n, log + CancelledEvents(first, n))
  {
    if n == 0 {
      assert log + [] == log;
    } else {
      CancelledHistory(list, first, n - 1, log);
      var log1, id := log + CancelledEvents(first, n - 1), first + n - 1;
      OneCancelled(list, id, log1);
      assert log + CancelledEvents(first, n) == log1 + [Recorded(id)] + [Ended(id, TransactionCancelled)];
    }
  }

  // ----- limits and clashes inside a transaction

  lemma {:induction false} WaitingWithout(list: seq<Reply>, id: nat, c: Conn)
    requires id in Table(list) && DistinctIds(list)
    ensures Waiting(list, c) == Waiting(RemoveId(list, id), c) + if Table(list)[id].getter == c then 1 else 0
  {
    var h, rest := list[0], list[1..];
    if h.id != id {
      WaitingWithout(rest, id, c);
      assert ([h] + RemoveId(rest, id))[1..] == RemoveId(rest, id);
    }
  }

  lemma {:induction false} SameTableSameWaiting(a: seq<Reply>, b: seq<Reply>, c: Conn)
    requires DistinctIds(a) && DistinctIds(b) && Table(a) == Table(b)
    ensures Waiting(a, c) == Waiting(b, c)
  {
    if a == [] {
      EmptyTable(b);
    } else {
      var x := a[0];
      RemoveIdFacts(a, x.id);
      RemoveIdFacts(b, x.id);
      WaitingWithout(a, x.id, c);
      WaitingWithout(b, x.id, c);
      SameTableSameWaiting(a[1..], RemoveId(b, x.id), c);
    }
  }

  lemma SameTableSameClashes(a: seq<Reply>, b: seq<Reply>)
    requires DistinctIds(a) && DistinctIds(b) && Table(a) == Table(b) && NoClash(a)
    ensures NoClash(b)
  {
    TableFacts(a);
    TableFacts(b);
  }

  lemma DoKeepsLimits(s: InTxn, op: Op, max: nat)
    requires Sound(s) && WithinLimits(s.list, max) && NoClash(s.list)
    ensures WithinLimits(Do(s, op, max).list, max) && NoClash(Do(s, op, max).list)
  {
    match op
    case Expect(g, r, serial, noReply, now) =>
      FindFacts(s.list, g, r, serial);
      var x := PendingReply(s.nextId, g, Some(r), serial, now);
      assert ([x] + s.list)[1..] == s.list;
    case Check(g, r, serial) =>
      var found := Find(s.list, g, r, serial);
      if found.Some? {
        FindFacts(s.list, g, r, serial);
        TableFacts(s.list);
        forall c
          ensures Waiting(RemoveId(s.list, found.value.id), c) <= Waiting(s.list, c)
        {
          WaitingWithout(s.list, found.value.id, c);
        }
        RemoveIdMembers(s.list, found.value.id);
      }
  }

  lemma {:induction false} RemoveIdMembers(list: seq<Reply>, id: nat)
    ensures forall x :: x in RemoveId(list, id) ==> x in list
  {
    if list != [] {
      RemoveIdMembers(list[1..], id);
      assert list == [list[0]] + list[1..];
    }
  }

  lemma {:induction false} DoAllKeepsLimits(s: InTxn, ops: seq<Op>, max: nat)
    requires Sound(s) && WithinLimits(s.list, max) && NoClash(s.list)
    ensures WithinLimits(DoAll(s, ops, max).list, max) && NoClash(DoAll(s, ops, max).list)
    decreases |ops|
  {
    if ops != [] {
      DoAllKeepsLimits(s, ops[..|ops| - 1], max);
      DoAllSound(s, ops[..|ops| - 1], max);
      DoKeepsLimits(DoAll(s, ops[..|ops| - 1], max), ops[|ops| - 1], max);
    }
  }

  lemma ExecutedKeepsInv(st: State, ops: seq<Op>, max: nat, after: int)
    requires Inv(st, max)
    ensures Inv(Apply(st, Transaction(ops, true), max, after), max)
  {
    var s := InTxn(st.list, st.nextId, []);
    DoAllSound(s, ops, max);
    DoAllHistory(s, ops, max, st.log);
    DoAllKeepsLimits(s, ops, max);
  }

  lemma CancelledKeepsInv(st: State, ops: seq<Op>, max: nat, after: int)
    requires Inv(st, max)
    ensures Inv(Apply(st, Transaction(ops, false), max, after), max)
  {
    var s := InTxn(st.list, st.nextId, []);
    var s' := DoAll(s, ops, max);
    var n := s'.nextId - st.nextId;
    DoAllSound(s, ops, max);
    UndoAllRestores(s, ops, max, s'.list);
    RestoredKeepsInv(st, UndoAll(s'.list, s'.hooks), n, max);
  }

  lemma RestoredKeepsInv(st: State, list: seq<Reply>, n: nat, max: nat)
    requires Inv(st, max) && DistinctIds(list) && Table(list) == Table(st.list)
    ensures Inv(State(list, st.nextId + n, st.log + CancelledEvents(st.nextId, n)), max)
  {
    CancelledHistory(st.list, st.nextId, n, st.log);
    SameTableSameLimits(st.list, list, max);
  }

  lemma SameTableSameLimits(a: seq<Reply>, b: seq<Reply>, max: nat)
    requires DistinctIds(a) && DistinctIds(b) && Table(a) == Table(b) && WithinLimits(a, max) && NoClash(a)
    ensures WithinLimits(b, max) && NoClash(b)
  {
    forall c
      ensures Waiting(b, c) <= max
    {
      SameTableSameWaiting(a, b, c);
    }
    SameTableSameClashes(a, b);
  }

  // ----- expiry passes and lost connections

  function IdsOf(es: seq<Event>): set<nat> {
    if es == [] then {} else IdsOf(es[..|es| - 1]) + {es[|es| - 1].id}
  }

  /** Endings of different expectations. */
  predicate DistinctEndings(es: seq<Event>) {
    es == [] ||
    var init := es[..|es| - 1];
    DistinctEndings(init) && es[|es| - 1].Ended? && es[|es| - 1].id !in IdsOf(init)
  }

  lemma {:induction false} EndAll(log: seq<Event>, es: seq<Event>)
    requires OneFateEach(log) && DistinctEndings(es) && IdsOf(es) <= Outstanding(log)
    ensures OneFateEach(log + es) && Seen(log + es) == Seen(log)
    ensures Outstanding(log + es) == Outstanding(log) - IdsOf(es)
    decreases |es|
  {
    if es == [] {
      assert log + es == log;
    } else {
      var init, e := es[..|es| - 1], es[|es| - 1];
      EndAll(log, init);
      EventSnoc(log + init, e);
      assert log + es == log + init + [e];
    }
  }

  lemma {:induction false} EndingsCons(e: Event, es: seq<Event>)
    requires e.Ended? && DistinctEndings(es) && e.id !in IdsOf(es)
    ensures DistinctEndings([e] + es) && IdsOf([e] + es) == {e.id} + IdsOf(es)
    decreases |es|
  {
    var all := [e] + es;
    if es == [] {
      assert all[..0] == [];
    } else {
      var init := es[..|es| - 1];
      EndingsCons(e, init);
      assert all[..|all| - 1] == [e] + init;
    }
  }

  lemma {:induction false} ConcatFacts(a: seq<Reply>, b: seq<Reply>)
    ensures Table(a + b).Keys == Table(a).Keys + Table(b).Keys
    ensures DistinctIds(a + b) <==> DistinctIds(a) && DistinctIds(b) && Table(a).Keys !! Table(b).Keys
  {
    if a == [] {
      assert a + b == b;
    } else {
      assert (a + b)[1..] == a[1..] + b;
      ConcatFacts(a[1..], b);
    }
  }

  /** What an expiry pass takes off the list is what it ends. */
  lemma {:induction false} ExpiredFacts(list: seq<Reply>, after: int, now: Timestamp)
    requires DistinctIds(list)
    ensures DistinctEndings(ExpiredEvents(list, after, now)) && DistinctIds(Fresh(list, after, now))
    ensures IdsOf(ExpiredEvents(list, after, now)) <= Table(list).Keys
    ensures Table(Fresh(list, after, now)).Keys == Table(list).Keys - IdsOf(ExpiredEvents(list, after, now))
  {
    if list != [] {
      var h, rest := list[0], list[1..];
      ExpiredFacts(rest, after, now);
      if Due(h, after, now) {
        EndingsCons(Ended(h.id, NoReplySent(h.getter, h.serial)), ExpiredEvents(rest, after, now));
      } else {
        PrependFacts(h, Fresh(rest, after, now));
      }
    }
  }

  lemma {:induction false} DroppedFacts(list: seq<Reply>, c: Conn)
    requires DistinctIds(list)
    ensures DistinctEndings(DroppedEvents(list, c)) && DistinctIds(DropConn(list, c))
    ensures IdsOf(DroppedEvents(list, c)) <= Table(list).Keys
    ensures Table(DropConn(list, c)).Keys == Table(list).Keys - IdsOf(DroppedEvents(list, c))
  {
    if list != [] {
      var h, rest := list[0], list[1..];
      DroppedFacts(rest, c);
      if h.getter == c {
        EndingsCons(Ended(h.id, CallerLeft), DroppedEvents(rest, c));
      } else if h.sender == Some(c) {
        PrependFacts(h.(sender := None, added := Timestamp(0, 0)), DropConn(rest, c));
      } else {
        PrependFacts(h, DropConn(rest, c));
      }
    }
  }

  lemma {:induction false} FreshWaiting(list: seq<Reply>, tail: seq<Reply>, after: int, now: Timestamp, c: Conn)
    ensures Waiting(Fresh(list, after, now) + tail, c) <= Waiting(list + tail, c)
  {
    if list == [] {
      assert [] + tail == tail == list + tail;
    } else {
      FreshWaiting(list[1..], tail, after, now, c);
      assert (list + tail)[1..] == list[1..] + tail;
      if !Due(list[0], after, now) {
        var r := Fresh(list[1..], after, now);
        assert ([list[0]] + r + tail)[1..] == r + tail;
      }
    }
  }

  lemma ExpirePassKeepsInv(st: State, now: Timestamp, works: Reply -> bool, k: int, max: nat, after: int)
    requires Inv(st, max) && Enabled(st, ExpirePass(now, works, k), after)
    ensures Inv(Apply(st, ExpirePass(now, works, k), max, after), max)
  {
    var a, b := st.list[..k], st.list[k..];
    assert st.list == a + b;
    ConcatFacts(a, b);
    ExpiredFacts(a, after, now);
    ConcatFacts(Fresh(a, after, now), b);
    EndAll(st.log, ExpiredEvents(a, after, now));
    ExpirePassKeepsLimits(a, b, max, after, now);
    assert HistoryOk(Fresh(a, after, now) + b, st.nextId, st.log + ExpiredEvents(a, after, now));
  }

  lemma ExpirePassKeepsLimits(a: seq<Reply>, b: seq<Reply>, max: nat, after: int, now: Timestamp)
    requires WithinLimits(a + b, max) && NoClash(a + b)
    ensures WithinLimits(Fresh(a, after, now) + b, max) && NoClash(Fresh(a, after, now) + b)
  {
    FreshMembers(a, after, now);
    forall c
      ensures Waiting(Fresh(a, after, now) + b, c) <= max
    {
      FreshWaiting(a, b, after, now, c);
    }
  }

  lemma {:induction false} DropConnFacts(list: seq<Reply>, c: Conn)
    ensures forall x :: x in DropConn(list, c) ==>
              && x.getter != c && x.sender != Some(c)
              && (x.sender.Some? ==> x in list)
    ensures forall d :: Waiting(DropConn(list, c), d) == if d == c then 0 else Waiting(list, d)
  {
    if list != [] {
      DropConnFacts(list[1..], c);
      assert list == [list[0]] + list[1..];
      var rest := DropConn(list[1..], c);
      if list[0].getter != c {
        var h := if list[0].sender == Some(c) then list[0].(sender := None, added := Timestamp(0, 0)) else list[0];
        assert DropConn(list, c) == [h] + rest;
        assert ([h] + rest)[1..] == rest;
      }
    }
  }

  lemma ConnectionLostKeepsInv(st: State, c: Conn, max: nat, after: int)
    requires Inv(st, max)
    ensures Inv(Apply(st, ConnectionLost(c), max, after), max)
  {
    DroppedFacts(st.list, c);
    DropConnFacts(st.list, c);
    EndAll(st.log, DroppedEvents(st.list, c));
    assert NoClash(DropConn(st.list, c));
  }

  // ----- runs

  ghost predicate Possible(st: State, steps: seq<Step>, max: nat, after: int)
    decreases |steps|
  {
    steps == [] || (Enabled(st, steps[0], after) && Possible(Apply(st, steps[0], max, after), steps[1..], max, after))
  }

  ghost function Run(st: State, steps: seq<Step>, max: nat, after: int): State
    requires Possible(st, steps, max, after)
    decreases |steps|
  {
    if steps == [] then st else Run(Apply(st, steps[0], max, after), steps[1..], max, after)
  }

  lemma {:induction false} RunKeepsInv(st: State, steps: seq<Step>, max: nat, after: int)
    requires Inv(st, max) && Possible(st, steps, max, after)
    ensures Inv(Run(st, steps, max, after), max)
    decreases |steps|
  {
    if steps != [] {
      match steps[0] {
        case Transaction(ops, executed) =>
          if executed { ExecutedKeepsInv(st, ops, max, after); } else { CancelledKeepsInv(st, ops, max, after); }
        case ExpirePass(now, works, k) => ExpirePassKeepsInv(st, now, works, k, max, after);
        case ConnectionLost(c) => ConnectionLostKeepsInv(st, c, max, after);
      }
      RunKeepsInv(Apply(st, steps[0], max, after), steps[1..], max, after);
    }
  }

  lemma InitInv(max: nat)
    ensures Inv(INIT, max)
  {
  }

  /**
   Over any run every recorded expectation is either outstanding, that is, in the list, or has
   met exactly one fate; none is recorded twice and none ends without having been recorded.
   */
  lemma EveryExpectationHasOneFate(steps: seq<Step>, max: nat, after: int)
    requires Possible(INIT, steps, max, after)
    ensures var st := Run(INIT, steps, max, after);
            && OneFateEach(st.log)
            && Outstanding(st.log) == Table(st.list).Keys
            && forall id: nat :: id in Seen(st.log) <==> id < st.nextId
  {
    InitInv(max);
    RunKeepsInv(INIT, steps, max, after);
  }

  /** No caller ever waits for more replies than allowed, and no two live licences are for the same reply, cancelled transactions included. */
  lemma LimitsHold(steps: seq<Step>, max: nat, after: int)
    requires Possible(INIT, steps, max, after)
    ensures var st := Run(INIT, steps, max, after);
            (forall c :: Waiting(st.list, c) <= max) && NoClash(st.list)
  {
    InitInv(max);
    RunKeepsInv(INIT, steps, max, after);
  }
}
