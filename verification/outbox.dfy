/**
 Messages buffered in transactions (bus/connection.c: bus_transaction_send, execute, cancel,
 bus_connection_remove_transactions). Each connection holds one list for all open
 transactions, newest message first; each transaction lists the connections that hold one
 of its messages.
 */
module Outbox {
  import opened BusTypes
  import opened ListFacts

  /** Identity of a BusTransaction. */
  type Txn = int

  /** Identity of a DBusMessage. */
  type Message = int

  datatype ToSend = ToSend(txn: Txn, msg: Message)

  datatype State = State(
    /** `transaction_messages` of every connection the daemon still has data for. */
    pending: map<Conn, seq<ToSend>>,
    /** The ones whose socket is still open. */
    connected: set<Conn>,
    /** `connections` of every open transaction. */
    txns: map<Txn, seq<Conn>>,
    /** What was handed to each connection for delivery. */
    wire: map<Conn, seq<Message>>)

  /** The messages of `t` in a connection's list, in the order they were added: oldest first. */
  function Mine(s: seq<ToSend>, t: Txn): seq<Message> {
    if s == [] then []
    else if s[0].txn == t then Mine(s[1..], t) + [s[0].msg]
    else Mine(s[1..], t)
  }

  /** The list without the messages of `t`. */
  function Others(s: seq<ToSend>, t: Txn): seq<ToSend> {
    if s == [] then []
    else if s[0].txn == t then Others(s[1..], t)
    else [s[0]] + Others(s[1..], t)
  }

  /** The messages of `t` waiting for `c`. */
  function Held(pending: map<Conn, seq<ToSend>>, c: Conn, t: Txn): seq<Message> {
    if c in pending then Mine(pending[c], t) else []
  }

  function WireOf(wire: map<Conn, seq<Message>>, c: Conn): seq<Message> {
    if c in wire then wire[c] else []
  }

  /** The list of connections without `c`. */
  function Drop(s: seq<Conn>, c: Conn): seq<Conn> {
    if s == [] then []
    else if s[0] == c then Drop(s[1..], c)
    else [s[0]] + Drop(s[1..], c)
  }

  // ----- the operations

  function Connect(st: State, c: Conn): State {
    st.(pending := st.pending[c := []], connected := st.connected + {c})
  }

  function Close(st: State, c: Conn): State {
    st.(connected := st.connected - {c})
  }

  function Begin(st: State, t: Txn): State {
    st.(txns := st.txns[t := []])
  }

  function Send(st: State, t: Txn, c: Conn, m: Message): State
    requires t in st.txns && c in st.pending
  {
    if c !in st.connected then st
    else
      var s := st.pending[c];
      st.(pending := st.pending[c := [ToSend(t, m)] + s],
          txns := if Mine(s, t) == [] then st.txns[t := [c] + st.txns[t]] else st.txns)
  }

  /** Hands the messages of `t` held by `c` over to the connection. */
  function ExecuteFor(st: State, t: Txn, c: Conn): State
    requires c in st.pending
  {
    st.(pending := st.pending[c := Others(st.pending[c], t)],
        wire := st.wire[c := WireOf(st.wire, c) + Mine(st.pending[c], t)])
  }

  function CancelFor(st: State, t: Txn, c: Conn): State
    requires c in st.pending
  {
    st.(pending := st.pending[c := Others(st.pending[c], t)])
  }

  predicate AllKnown(st: State, cs: seq<Conn>) {
    forall c :: c in cs ==> c in st.pending
  }

  function ExecuteAll(st: State, t: Txn, cs: seq<Conn>): State
    requires AllKnown(st, cs)
    decreases |cs|
  {
    if cs == [] then st else ExecuteAll(ExecuteFor(st, t, cs[0]), t, cs[1..])
  }

  function CancelAll(st: State, t: Txn, cs: seq<Conn>): State
    requires AllKnown(st, cs)
    decreases |cs|
  {
    if cs == [] then st else CancelAll(CancelFor(st, t, cs[0]), t, cs[1..])
  }

  function Execute(st: State, t: Txn): State
    requires t in st.txns && AllKnown(st, st.txns[t])
  {
    var st' := ExecuteAll(st, t, st.txns[t]);
    st'.(txns := st'.txns - {t})
  }

  function Cancel(st: State, t: Txn): State
    requires t in st.txns && AllKnown(st, st.txns[t])
  {
    var st' := CancelAll(st, t, st.txns[t]);
    st'.(txns := st'.txns - {t})
  }

  function Disconnect(st: State, c: Conn): State
    requires c in st.pending
  {
    State(st.pending - {c}, st.connected - {c}, map t | t in st.txns :: Drop(st.txns[t], c), st.wire)
  }

  // ----- the reference: one log of sends per open transaction

  datatype Entry = Entry(conn: Conn, msg: Message)

  datatype Model = Model(known: set<Conn>, connected: set<Conn>, open: map<Txn, seq<Entry>>, wire: map<Conn, seq<Message>>)

  /** The messages of a log addressed to `c`, in order. */
  function Addressed(log: seq<Entry>, c: Conn): seq<Message> {
    if log == [] then []
    else
      var before, e := Addressed(log[..|log| - 1], c), log[|log| - 1];
      if e.conn == c then before + [e.msg] else before
  }

  /** The log without the entries addressed to `c`. */
  function NotAddressed(log: seq<Entry>, c: Conn): seq<Entry> {
    if log == [] then []
    else
      var before, e := NotAddressed(log[..|log| - 1], c), log[|log| - 1];
      if e.conn == c then before else before + [e]
  }

  datatype Step =
    | DoConnect(c: Conn)
    | DoClose(c: Conn)
    | DoBegin(t: Txn)
    | DoSend(t: Txn, c: Conn, m: Message)
    | DoExecute(t: Txn)
    | DoCancel(t: Txn)
    | DoDisconnect(c: Conn)

  /** Steps that name something that does not exist, or already does, change nothing. */
  ghost function Apply(st: State, step: Step): State
    requires Listed(st)
  {
    match step
    case DoConnect(c) => if c in st.pending then st else Connect(st, c)
    case DoClose(c) => Close(st, c)
    case DoBegin(t) => if t in st.txns then st else Begin(st, t)
    case DoSend(t, c, m) => if t in st.txns && c in st.pending then Send(st, t, c, m) else st
    case DoExecute(t) => if t in st.txns then Execute(st, t) else st
    case DoCancel(t) => if t in st.txns then Cancel(st, t) else st
    case DoDisconnect(c) => if c in st.pending then Disconnect(st, c) else st
  }

  /** The same step on the reference: a transaction is a log that is delivered or forgotten as a whole. */
  function Expected(m: Model, step: Step): Model {
    match step
    case DoConnect(c) => if c in m.known then m else m.(known := m.known + {c}, connected := m.connected + {c})
    case DoClose(c) => m.(connected := m.connected - {c})
    case DoBegin(t) => if t in m.open then m else m.(open := m.open[t := []])
    case DoSend(t, c, msg) =>
      if t in m.open && c in m.connected then m.(open := m.open[t := m.open[t] + [Entry(c, msg)]]) else m
    case DoExecute(t) =>
      if t in m.open then
        m.(open := m.open - {t},
           wire := map c | c in m.wire.Keys + m.known :: WireOf(m.wire, c) + Addressed(m.open[t], c))
      else m
    case DoCancel(t) => m.(open := m.open - {t})
    case DoDisconnect(c) =>
      if c in m.known then
        m.(known := m.known - {c}, connected := m.connected - {c}, open := map t | t in m.open :: NotAddressed(m.open[t], c))
      else m
  }

  /** A connection is in the list of a transaction, once, if and only if it holds a message of that transaction. */
  ghost predicate Listed(st: State) {
    && st.connected <= st.pending.Keys
    && (forall t :: t in st.txns ==> NoDup(st.txns[t]))
    && (forall t, c :: t in st.txns ==> (c in st.txns[t] <==> Held(st.pending, c, t) != []))
    && (forall t, c :: t !in st.txns ==> Held(st.pending, c, t) == [])
  }

  /** The buffered messages are the logs of the open transactions, and the same messages have been delivered. */
  ghost predicate Matches(st: State, m: Model) {
    && m.known == st.pending.Keys && m.connected == st.connected && m.open.Keys == st.txns.Keys
    && (forall c :: WireOf(st.wire, c) == WireOf(m.wire, c))
    && (forall t, c :: t in st.txns ==> Held(st.pending, c, t) == Addressed(m.open[t], c))
  }

  // ----- facts about the lists

  lemma {:induction false} MineOfOthers(s: seq<ToSend>, t: Txn, t': Txn)
    ensures Mine(Others(s, t), t') == if t' == t then [] else Mine(s, t')
  {
    if s != [] {
      MineOfOthers(s[1..], t, t');
      if s[0].txn != t {
        assert ([s[0]] + Others(s[1..], t))[1..] == Others(s[1..], t);
      }
    }
  }

  lemma {:induction false} OthersOfNone(s: seq<ToSend>, t: Txn)
    requires Mine(s, t) == []
    ensures Others(s, t) == s
  {
    if s != [] {
      OthersOfNone(s[1..], t);
    }
  }

  lemma {:induction false} DropFacts(s: seq<Conn>, c: Conn)
    ensures forall d :: d in Drop(s, c) <==> d in s && d != c
    ensures NoDup(s) ==> NoDup(Drop(s, c))
  {
    if s != [] {
      DropFacts(s[1..], c);
      assert s == [s[0]] + s[1..];
      if NoDup(s) && s[0] != c {
        assert s[0] !in s[1..];
        NoDupCons(s[0], Drop(s[1..], c));
      }
    }
  }

  lemma AddressedSnoc(log: seq<Entry>, e: Entry, c: Conn)
    ensures Addressed(log + [e], c) == if e.conn == c then Addressed(log, c) + [e.msg] else Addressed(log, c)
    ensures NotAddressed(log + [e], c) == if e.conn == c then NotAddressed(log, c) else NotAddressed(log, c) + [e]
  {
    assert (log + [e])[..|log|] == log;
  }

  lemma {:induction false} AddressedOfNot(log: seq<Entry>, c: Conn, d: Conn)
    ensures Addressed(NotAddressed(log, c), d) == if d == c then [] else Addressed(log, d)
  {
    if log != [] {
      var front, e := log[..|log| - 1], log[|log| - 1];
      AddressedOfNot(front, c, d);
      if e.conn != c {
        AddressedSnoc(NotAddressed(front, c), e, d);
      }
    }
  }

  // ----- executing and cancelling, as one update

  /** Walking the list of connections takes the messages of `t` from each of them and delivers them once. */
  lemma {:induction false} ExecuteAllFacts(st: State, t: Txn, cs: seq<Conn>)
    requires AllKnown(st, cs) && NoDup(cs)
    ensures var st' := ExecuteAll(st, t, cs);
            && st' == CancelAll(st, t, cs).(wire := st'.wire)
            && forall c :: WireOf(st'.wire, c) == if c in cs then WireOf(st.wire, c) + Held(st.pending, c, t) else WireOf(st.wire, c)
    decreases |cs|
  {
    if cs != [] {
      var c0, rest := cs[0], cs[1..];
      var st1 := ExecuteFor(st, t, c0);
      ExecuteAllFacts(st1, t, rest);
      assert cs == [c0] + rest && c0 !in rest;
      CancelIgnoresWire(CancelFor(st, t, c0), t, rest, st1.wire);
      forall c
        ensures WireOf(ExecuteAll(st, t, cs).wire, c) == if c in cs then WireOf(st.wire, c) + Held(st.pending, c, t) else WireOf(st.wire, c)
      {
        assert c != c0 ==> Held(st1.pending, c, t) == Held(st.pending, c, t) && WireOf(st1.wire, c) == WireOf(st.wire, c);
      }
    }
  }

  lemma {:induction false} CancelIgnoresWire(st: State, t: Txn, cs: seq<Conn>, wire: map<Conn, seq<Message>>)
    requires AllKnown(st, cs)
    ensures AllKnown(st.(wire := wire), cs)
    ensures CancelAll(st.(wire := wire), t, cs) == CancelAll(st, t, cs).(wire := wire)
    decreases |cs|
  {
    if cs != [] {
      CancelIgnoresWire(CancelFor(st, t, cs[0]), t, cs[1..], wire);
    }
  }

  lemma {:induction false} CancelAllFacts(st: State, t: Txn, cs: seq<Conn>)
    requires AllKnown(st, cs) && NoDup(cs)
    ensures var st' := CancelAll(st, t, cs);
            && st'.connected == st.connected && st'.txns == st.txns && st'.wire == st.wire
            && st'.pending == (map c | c in st.pending :: if c in cs then Others(st.pending[c], t) else st.pending[c])
    decreases |cs|
  {
    if cs != [] {
      CancelAllFacts(CancelFor(st, t, cs[0]), t, cs[1..]);
      assert cs == [cs[0]] + cs[1..] && cs[0] !in cs[1..];
    }
  }

  function WithoutTxn(pending: map<Conn, seq<ToSend>>, t: Txn): map<Conn, seq<ToSend>> {
    map c | c in pending :: Others(pending[c], t)
  }

  lemma OthersEverywhere(st: State, t: Txn)
    requires Listed(st) && t in st.txns
    ensures (map c | c in st.pending :: if c in st.txns[t] then Others(st.pending[c], t) else st.pending[c]) == WithoutTxn(st.pending, t)
  {
    forall c | c in st.pending && c !in st.txns[t]
      ensures Others(st.pending[c], t) == st.pending[c]
    {
      assert Held(st.pending, c, t) == [];
      OthersOfNone(st.pending[c], t);
    }
  }

  /** Cancelling delivers nothing and forgets exactly the messages of this transaction; all others stay in place and in order. */
  lemma CancelForgets(st: State, t: Txn)
    requires Listed(st) && t in st.txns
    ensures Cancel(st, t) == State(WithoutTxn(st.pending, t), st.connected, st.txns - {t}, st.wire)
  {
    CancelAllFacts(st, t, st.txns[t]);
    OthersEverywhere(st, t);
  }

  /**
   Executing delivers to every connection exactly the messages of this transaction, in the
   order they were added, and otherwise does what cancelling does.
   */
  lemma ExecuteDelivers(st: State, t: Txn)
    requires Listed(st) && t in st.txns
    ensures Execute(st, t) == State(WithoutTxn(st.pending, t), st.connected, st.txns - {t}, Execute(st, t).wire)
    ensures forall c :: WireOf(Execute(st, t).wire, c) == WireOf(st.wire, c) + Held(st.pending, c, t)
  {
    ExecuteAllFacts(st, t, st.txns[t]);
    CancelForgets(st, t);
  }

  // ----- every step keeps the lists in order and follows the reference

  lemma SendFacts(st: State, t: Txn, c: Conn, m: Message)
    requires t in st.txns && c in st.connected && c in st.pending
    ensures forall t', d :: Held(Send(st, t, c, m).pending, d, t') ==
              if d == c && t' == t then Held(st.pending, d, t') + [m] else Held(st.pending, d, t')
  {
    var s := st.pending[c];
    assert ([ToSend(t, m)] + s)[1..] == s;
  }

  lemma SendKeepsListed(st: State, t: Txn, c: Conn, m: Message)
    requires Listed(st) && t in st.txns && c in st.connected
    ensures Listed(Send(st, t, c, m))
  {
    SendFacts(st, t, c, m);
    if Mine(st.pending[c], t) == [] {
      assert Held(st.pending, c, t) == [];
      NoDupCons(c, st.txns[t]);
    }
  }

  lemma HeldWithoutTxn(pending: map<Conn, seq<ToSend>>, t: Txn)
    ensures forall t', c :: Held(WithoutTxn(pending, t), c, t') == if t' == t then [] else Held(pending, c, t')
  {
    forall t', c | c in pending
      ensures Mine(Others(pending[c], t), t') == if t' == t then [] else Mine(pending[c], t')
    {
      MineOfOthers(pending[c], t, t');
    }
  }

  lemma EndKeepsListed(st: State, t: Txn, wire: map<Conn, seq<Message>>)
    requires Listed(st) && t in st.txns
    ensures Listed(State(WithoutTxn(st.pending, t), st.connected, st.txns - {t}, wire))
  {
    HeldWithoutTxn(st.pending, t);
  }

  lemma DisconnectKeepsListed(st: State, c: Conn)
    requires Listed(st) && c in st.pending
    ensures Listed(Disconnect(st, c))
  {
    forall t | t in st.txns
      ensures NoDup(Drop(st.txns[t], c)) && forall d :: d in Drop(st.txns[t], c) <==> d in st.txns[t] && d != c
    {
      DropFacts(st.txns[t], c);
    }
    assert forall t, d :: Held(st.pending - {c}, d, t) == if d == c then [] else Held(st.pending, d, t);
  }

  lemma ConnectKeepsListed(st: State, c: Conn)
    requires Listed(st) && c !in st.pending
    ensures Listed(Connect(st, c))
  {
    var st' := Connect(st, c);
    forall t, d
      ensures Held(st'.pending, d, t) == Held(st.pending, d, t)
    {
    }
    assert st'.pending.Keys == st.pending.Keys + {c};
  }

  lemma ApplyKeepsListed(st: State, step: Step)
    requires Listed(st)
    ensures Listed(Apply(st, step))
  {
    match step
    case DoConnect(c) =>
      if c !in st.pending { ConnectKeepsListed(st, c); }
    case DoClose(c) =>
    case DoBegin(t) =>
    case DoSend(t, c, m) =>
      if t in st.txns && c in st.connected { SendKeepsListed(st, t, c, m); }
    case DoExecute(t) =>
      if t in st.txns { ExecuteDelivers(st, t); EndKeepsListed(st, t, Execute(st, t).wire); }
    case DoCancel(t) =>
      if t in st.txns { CancelForgets(st, t); EndKeepsListed(st, t, st.wire); }
    case DoDisconnect(c) =>
      if c in st.pending { DisconnectKeepsListed(st, c); }
  }

  lemma SendMatches(st: State, m: Model, t: Txn, c: Conn, msg: Message)
    requires Listed(st) && Matches(st, m) && t in st.txns && c in st.connected
    ensures Matches(Send(st, t, c, msg), Expected(m, DoSend(t, c, msg)))
  {
    SendFacts(st, t, c, msg);
    forall d
      ensures Addressed(m.open[t] + [Entry(c, msg)], d) == if d == c then Addressed(m.open[t], d) + [msg] else Addressed(m.open[t], d)
    {
      AddressedSnoc(m.open[t], Entry(c, msg), d);
    }
  }

  lemma ExecuteMatches(st: State, m: Model, t: Txn)
    requires Listed(st) && Matches(st, m) && t in st.txns
    ensures Matches(Execute(st, t), Expected(m, DoExecute(t)))
  {
    ExecuteDelivers(st, t);
    HeldWithoutTxn(st.pending, t);
    var m' := Expected(m, DoExecute(t));
    forall c
      ensures WireOf(m'.wire, c) == WireOf(m.wire, c) + Addressed(m.open[t], c)
    {
      assert Held(st.pending, c, t) == Addressed(m.open[t], c);
    }
  }

  lemma CancelMatches(st: State, m: Model, t: Txn)
    requires Listed(st) && Matches(st, m) && t in st.txns
    ensures Matches(Cancel(st, t), Expected(m, DoCancel(t)))
  {
    CancelForgets(st, t);
    HeldWithoutTxn(st.pending, t);
  }

  lemma DisconnectMatches(st: State, m: Model, c: Conn)
    requires Listed(st) && Matches(st, m) && c in st.pending
    ensures Matches(Disconnect(st, c), Expected(m, DoDisconnect(c)))
  {
    forall t, d | t in m.open
      ensures Addressed(NotAddressed(m.open[t], c), d) == if d == c then [] else Addressed(m.open[t], d)
    {
      AddressedOfNot(m.open[t], c, d);
    }
  }

  lemma ApplyMatches(st: State, m: Model, step: Step)
    requires Listed(st) && Matches(st, m)
    ensures Matches(Apply(st, step), Expected(m, step))
  {
    match step
    case DoConnect(c) =>
    case DoClose(c) =>
    case DoBegin(t) =>
    case DoSend(t, c, msg) =>
      if t in st.txns && c in st.connected { SendMatches(st, m, t, c, msg); }
    case DoExecute(t) =>
      if t in st.txns { ExecuteMatches(st, m, t); }
    case DoCancel(t) =>
      if t in st.txns { CancelMatches(st, m, t); }
    case DoDisconnect(c) =>
      if c in st.pending { DisconnectMatches(st, m, c); }
  }

  // ----- runs

  ghost function Run(st: State, steps: seq<Step>): State
    requires Listed(st)
    decreases |steps|
  {
    if steps == [] then st
    else
      ApplyKeepsListed(st, steps[0]);
      Run(Apply(st, steps[0]), steps[1..])
  }

  function ExpectedRun(m: Model, steps: seq<Step>): Model
    decreases |steps|
  {
    if steps == [] then m else ExpectedRun(Expected(m, steps[0]), steps[1..])
  }

  function Empty(): State { State(map[], {}, map[], map[]) }

  function EmptyModel(): Model { Model({}, {}, map[], map[]) }

  /**
   With any interleaving of open transactions the daemon's lists implement the reference: each
   connection has received exactly the messages of executed transactions addressed to it, in the
   order of execution and, within a transaction, in the order they were added.
   */
  lemma {:induction false} RunMatches(st: State, m: Model, steps: seq<Step>)
    requires Listed(st) && Matches(st, m)
    ensures Listed(Run(st, steps)) && Matches(Run(st, steps), ExpectedRun(m, steps))
    decreases |steps|
  {
    if steps != [] {
      ApplyKeepsListed(st, steps[0]);
      ApplyMatches(st, m, steps[0]);
      RunMatches(Apply(st, steps[0]), Expected(m, steps[0]), steps[1..]);
    }
  }

  lemma EveryRunMatches(steps: seq<Step>)
    ensures Listed(Empty()) && Matches(Run(Empty(), steps), ExpectedRun(EmptyModel(), steps))
    ensures Listed(Run(Empty(), steps))
  {
    RunMatches(Empty(), EmptyModel(), steps);
  }
}
