/** The loops over the message lists (bus/connection.c:2044-2256). */
module OutboxObject {
  import opened BusTypes
  import opened ListFacts
  import opened Outbox

  lemma {:induction false} OthersConcat(a: seq<ToSend>, b: seq<ToSend>, t: Txn)
    ensures Others(a + b, t) == Others(a, t) + Others(b, t)
    ensures Mine(a + b, t) == Mine(b, t) + Mine(a, t)
  {
    if a == [] {
      assert a + b == b;
    } else {
      assert (a + b)[1..] == a[1..] + b;
      OthersConcat(a[1..], b, t);
    }
  }

  lemma {:induction false} NoneBefore(s: seq<ToSend>, i: nat, t: Txn)
    requires i < |s| && s[i].txn == t
    ensures Mine(s, t) != []
  {
    if i > 0 { NoneBefore(s[1..], i - 1, t); }
  }

  /** `_dbus_list_remove` on a list without repetitions. */
  lemma {:induction false} DropAt(s: seq<Conn>, i: nat)
    requires NoDup(s) && i < |s|
    ensures Drop(s, s[i]) == s[..i] + s[i + 1..]
  {
    if i > 0 {
      DropAt(s[1..], i - 1);
      assert s[0] != s[i];
      assert s[..i] + s[i + 1..] == [s[0]] + (s[1..][..i - 1] + s[1..][i..]);
    } else {
      DropAbsent(s[1..], s[0]);
    }
  }

  lemma {:induction false} DropAbsent(s: seq<Conn>, c: Conn)
    requires c !in s
    ensures Drop(s, c) == s
  {
    if s != [] { DropAbsent(s[1..], c); }
  }

  /** Walks a connection's list from its end, unlinking and sending the messages of `t`: the oldest one goes first. */
  method SendOldestFirst(queue: seq<ToSend>, t: Txn) returns (rest: seq<ToSend>, sent: seq<Message>)
    ensures rest == Others(queue, t) && sent == Mine(queue, t)
  {
    rest, sent := queue, [];
    var i := |queue|;
    assert queue[..i] + [] == queue && queue[i..] == [];
    while i > 0
      invariant 0 <= i <= |queue|
      invariant rest == queue[..i] + Others(queue[i..], t)
      invariant sent == Mine(queue[i..], t)
    {
      i := i - 1;
      assert queue[i..] == [queue[i]] + queue[i + 1..];
      if rest[i].txn == t {
        sent := sent + [rest[i].msg];
        rest := rest[..i] + rest[i + 1..];
      }
    }
    assert queue[0..] == queue;
  }

  lemma OthersSnoc(queue: seq<ToSend>, k: nat, t: Txn)
    requires k < |queue|
    ensures Others(queue[..k + 1], t) == if queue[k].txn == t then Others(queue[..k], t) else Others(queue[..k], t) + [queue[k]]
  {
    assert queue[..k + 1] == queue[..k] + [queue[k]];
    OthersConcat(queue[..k], [queue[k]], t);
    assert [queue[k]][1..] == [];
  }

  /** Cutting out the link behind what was kept. */
  lemma CutLink(kept: seq<ToSend>, queue: seq<ToSend>, k: nat)
    requires k < |queue|
    ensures var rest, i := kept + queue[k..], |kept|;
            rest[i] == queue[k] && rest[..i] + rest[i + 1..] == kept + queue[k + 1..]
  {
    var rest, i := kept + queue[k..], |kept|;
    assert rest[..i] == kept && rest[i + 1..] == queue[k + 1..];
  }

  lemma KeepLink(kept: seq<ToSend>, queue: seq<ToSend>, k: nat)
    requires k < |queue|
    ensures kept + queue[k..] == kept + [queue[k]] + queue[k + 1..]
  {
    assert queue[k..] == [queue[k]] + queue[k + 1..];
  }

  /** Walks a connection's list from its start, unlinking the messages of `t`. */
  method Forget(queue: seq<ToSend>, t: Txn) returns (rest: seq<ToSend>)
    ensures rest == Others(queue, t)
  {
    rest := queue;
    var i := 0;
    ghost var k := 0;
    ghost var kept := [];
    while i < |rest|
      invariant 0 <= k <= |queue| && kept == Others(queue[..k], t)
      invariant i == |kept| && rest == kept + queue[k..]
      decreases |queue| - k
    {
      OthersSnoc(queue, k, t);
      CutLink(kept, queue, k);
      if rest[i].txn == t {
        rest := rest[..i] + rest[i + 1..];
      } else {
        KeepLink(kept, queue, k);
        i := i + 1;
        kept := kept + [queue[k]];
      }
      k := k + 1;
    }
    assert queue[..k] == queue;
  }

  /** `_dbus_list_remove` of a connection; no effect if it is not listed. */
  method Unlist(cs: seq<Conn>, c: Conn) returns (r: seq<Conn>)
    requires NoDup(cs)
    ensures r == Drop(cs, c)
  {
    var i := 0;
    while i < |cs| && cs[i] != c
      invariant 0 <= i <= |cs| && c !in cs[..i]
    {
      i := i + 1;
    }
    if i < |cs| {
      DropAt(cs, i);
      r := cs[..i] + cs[i + 1..];
    } else {
      assert cs[..i] == cs;
      DropAbsent(cs, c);
      r := cs;
    }
  }

  /** Some message belongs to the transaction. */
  predicate HasMessage(s: seq<ToSend>, t: Txn) {
    s != [] && (s[|s| - 1].txn == t || HasMessage(s[..|s| - 1], t))
  }

  lemma HasMessageSnoc(s: seq<ToSend>, x: ToSend, t: Txn)
    ensures HasMessage(s + [x], t) <==> HasMessage(s, t) || x.txn == t
  {
    assert (s + [x])[..|s|] == s;
  }

  /** The transaction lists after `c` was taken out of those that own a message of `done`. */
  ghost predicate Unlisted(before: map<Txn, seq<Conn>>, txns: map<Txn, seq<Conn>>, c: Conn, done: seq<ToSend>) {
    && txns.Keys == before.Keys
    && forall t :: t in txns ==> txns[t] == if HasMessage(done, t) then Drop(before[t], c) else before[t]
  }

  lemma DropTwice(s: seq<Conn>, c: Conn)
    ensures Drop(Drop(s, c), c) == Drop(s, c)
  {
    DropFacts(s, c);
    DropAbsent(Drop(s, c), c);
  }

  lemma UnlistOne(before: map<Txn, seq<Conn>>, txns: map<Txn, seq<Conn>>, c: Conn, done: seq<ToSend>, x: ToSend)
    requires Unlisted(before, txns, c, done) && x.txn in txns
    ensures Unlisted(before, txns[x.txn := Drop(txns[x.txn], c)], c, done + [x])
  {
    var r := txns[x.txn := Drop(txns[x.txn], c)];
    DropTwice(before[x.txn], c);
    forall t | t in r
      ensures r[t] == if HasMessage(done + [x], t) then Drop(before[t], c) else before[t]
    {
      HasMessageSnoc(done, x, t);
    }
  }

  /** Takes `c` out of the transaction of each of its messages; only the first message of a transaction has an effect. */
  method UnlistAll(txns: map<Txn, seq<Conn>>, queue: seq<ToSend>, c: Conn) returns (r: map<Txn, seq<Conn>>)
    requires forall x :: x in queue ==> x.txn in txns
    requires forall t :: t in txns ==> NoDup(txns[t])
    ensures Unlisted(txns, r, c, queue)
  {
    r := txns;
    var rest := queue;
    ghost var i := 0;
    while rest != []
      invariant 0 <= i <= |queue| && rest == queue[i..]
      invariant Unlisted(txns, r, c, queue[..i])
      invariant forall t :: t in r ==> NoDup(r[t])
      decreases |rest|
    {
      var t := rest[0].txn;
      assert queue[i] in queue && queue[..i + 1] == queue[..i] + [queue[i]];
      DropFacts(r[t], c);
      UnlistOne(txns, r, c, queue[..i], queue[i]);
      var cs := Unlist(r[t], c);
      r := r[t := cs];
      i, rest := i + 1, rest[1..];
    }
    assert queue[..i] == queue;
  }

  lemma {:induction false} MineOfMember(s: seq<ToSend>, x: ToSend)
    requires x in s
    ensures Mine(s, x.txn) != []
  {
    var i :| 0 <= i < |s| && s[i] == x;
    NoneBefore(s, i, x.txn);
  }

  lemma AllUnlisted(st: State, txns: map<Txn, seq<Conn>>, c: Conn)
    requires Listed(st) && c in st.pending && Unlisted(st.txns, txns, c, st.pending[c])
    ensures txns == map t | t in st.txns :: Drop(st.txns[t], c)
  {
    forall t | t in st.txns
      ensures txns[t] == Drop(st.txns[t], c)
    {
      if !HasMessage(st.pending[c], t) {
        NoMine(st.pending[c], t);
        assert Held(st.pending, c, t) == [];
        DropAbsent(st.txns[t], c);
      }
    }
  }

  lemma {:induction false} NoMine(s: seq<ToSend>, t: Txn)
    requires !HasMessage(s, t)
    ensures Mine(s, t) == []
  {
    if s != [] {
      var front, last := s[..|s| - 1], s[|s| - 1];
      NoMine(front, t);
      OthersConcat(front, [last], t);
      assert s == front + [last] && [last][1..] == [];
    }
  }

  class MessageQueues {
    var pending: map<Conn, seq<ToSend>>
    var connected: set<Conn>
    var txns: map<Txn, seq<Conn>>
    var wire: map<Conn, seq<Message>>

    ghost function View(): State
      reads this
    {
      State(pending, connected, txns, wire)
    }

    ghost predicate Valid()
      reads this
    {
      Listed(View())
    }

    constructor ()
      ensures Valid() && View() == Empty()
    {
      pending, connected, txns, wire := map[], {}, map[], map[];
    }

    /** `bus_transaction_send`: prepends the message and enters the connection into the transaction if this is its first message there. */
    method Send(t: Txn, c: Conn, m: Message)
      requires Valid() && t in txns && c in pending
      modifies this`pending, this`txns
      ensures Valid() && View() == Apply(old(View()), DoSend(t, c, m))
    {
      ApplyKeepsListed(View(), DoSend(t, c, m));
      if c !in connected {
        return;
      }
      pending := pending[c := [ToSend(t, m)] + pending[c]];
      var s := pending[c];
      var i := 1;
      while i < |s| && s[i].txn != t
        invariant 1 <= i <= |s|
        invariant Mine(s[1..i], t) == []
        modifies {}
      {
        assert s[1..i + 1] == s[1..i] + [s[i]];
        OthersConcat(s[1..i], [s[i]], t);
        i := i + 1;
      }
      ghost var rest := s[1..];
      assert rest == old(pending)[c];
      if i == |s| {
        assert s[1..i] == rest;
        txns := txns[t := [c] + txns[t]];
      } else {
        NoneBefore(rest, i - 1, t);
      }
    }

    /** `connection_execute_transaction`. */
    method ExecuteConnection(t: Txn, c: Conn)
      requires c in pending
      modifies this`pending, this`wire
      ensures View() == ExecuteFor(old(View()), t, c)
    {
      var rest, sent := SendOldestFirst(pending[c], t);
      pending := pending[c := rest];
      wire := wire[c := WireOf(wire, c) + sent];
    }

    /** `connection_cancel_transaction`. */
    method CancelConnection(t: Txn, c: Conn)
      requires c in pending
      modifies this`pending
      ensures View() == CancelFor(old(View()), t, c)
    {
      var rest := Forget(pending[c], t);
      pending := pending[c := rest];
    }

    /** `bus_transaction_execute_and_free`. */
    method Execute(t: Txn)
      requires Valid() && t in txns
      modifies this`pending, this`txns, this`wire
      ensures Valid() && View() == Apply(old(View()), DoExecute(t))
    {
      ghost var st := View();
      ApplyKeepsListed(st, DoExecute(t));
      while txns[t] != []
        invariant t in txns && txns - {t} == st.txns - {t} && AllKnown(View(), txns[t])
        invariant ExecuteAll(View().(txns := st.txns), t, txns[t]) == ExecuteAll(st, t, st.txns[t])
        decreases |txns[t]|
      {
        var c := txns[t][0];
        txns := txns[t := txns[t][1..]];
        ExecuteConnection(t, c);
      }
      txns := txns - {t};
    }

    /** `bus_transaction_cancel_and_free`, as far as messages are concerned. */
    method Cancel(t: Txn)
      requires Valid() && t in txns
      modifies this`pending, this`txns
      ensures Valid() && View() == Apply(old(View()), DoCancel(t))
    {
      ghost var st := View();
      ApplyKeepsListed(st, DoCancel(t));
      while txns[t] != []
        invariant t in txns && txns - {t} == st.txns - {t} && AllKnown(View(), txns[t])
        invariant CancelAll(View().(txns := st.txns), t, txns[t]) == CancelAll(st, t, st.txns[t])
        decreases |txns[t]|
      {
        var c := txns[t][0];
        txns := txns[t := txns[t][1..]];
        CancelConnection(t, c);
      }
      txns := txns - {t};
    }

    /** `bus_connection_remove_transactions`, and the connection's data with it. */
    method Disconnect(c: Conn)
      requires Valid() && c in pending
      modifies this`pending, this`connected, this`txns
      ensures Valid() && View() == Apply(old(View()), DoDisconnect(c))
    {
      ApplyKeepsListed(View(), DoDisconnect(c));
      forall x | x in pending[c]
        ensures x.txn in txns
      {
        MineOfMember(pending[c], x);
        assert Held(pending, c, x.txn) != [];
      }
      txns := UnlistAll(txns, pending[c], c);
      AllUnlisted(old(View()), txns, c);
      pending, connected := pending - {c}, connected - {c};
    }
  }
}
