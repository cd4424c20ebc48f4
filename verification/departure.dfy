/** A connection that goes away is forgotten everywhere (bus/connection.c:170-293, 1581-1637, 2238-2256; bus/services.c:1292-1380). */
module Departure {
  import opened BusTypes
  import opened OwnerQueues
  import NR = NameRegistry
  import RR = RegistryRuns
  import O = Outbox
  import P = ReplyRuns
  import C = Connections

  /** The parts of the daemon that know connections. */
  datatype Daemon = Daemon(registry: NR.State, outbox: O.State, replies: seq<PendingReply>, connections: C.State)

  ghost predicate Orderly(d: Daemon) {
    NR.Inv(d.registry) && O.Listed(d.outbox) && C.ListedOnce(d.connections)
  }

  /** `bus_connection_disconnected` */
  function Disconnected(d: Daemon, c: Conn): Daemon
    requires c in d.registry.clients && c in d.outbox.pending
  {
    Daemon(RR.DoDisconnect(d.registry, c), O.Disconnect(d.outbox, c), P.DropConn(d.replies, c), C.Disconnected(d.connections, c))
  }

  /** What a reply owed by `c` becomes: nobody owes it any more, and it is long overdue. */
  function Orphaned(x: PendingReply, c: Conn): PendingReply {
    if x.sender == Some(c) then x.(sender := None, added := Timestamp(0, 0)) else x
  }

  lemma {:induction false} OwedRepliesStay(list: seq<PendingReply>, c: Conn)
    ensures forall x :: x in list && x.getter != c ==> Orphaned(x, c) in P.DropConn(list, c)
    ensures forall y :: y in P.DropConn(list, c) ==> exists x :: x in list && x.getter != c && y == Orphaned(x, c)
  {
    if list != [] {
      OwedRepliesStay(list[1..], c);
      var h, rest := list[0], P.DropConn(list[1..], c);
      assert list == [h] + list[1..];
      forall y | y in P.DropConn(list, c)
        ensures exists x :: x in list && x.getter != c && y == Orphaned(x, c)
      {
        if y in rest {
          var x :| x in list[1..] && x.getter != c && y == Orphaned(x, c);
          assert x in list;
        } else {
          assert h in list && h.getter != c && y == Orphaned(h, c);
        }
      }
    }
  }

  /**
   After a disconnect the connection is in no owner queue, no list of connections, no transaction and no
   pending reply; the other owners of each name keep their order, the other connections their messages,
   and the replies it still owed are all there, due at once.
   */
  lemma ConnectionIsGone(d: Daemon, c: Conn)
    requires Orderly(d) && c in d.registry.clients && c in d.outbox.pending
    ensures var d' := Disconnected(d, c);
            && Orderly(d')
            && c !in d'.registry.clients
            && (forall n :: NR.QueueOf(d'.registry.services, n) == Without(NR.QueueOf(d.registry.services, n), c))
            && (forall n :: !Has(NR.QueueOf(d'.registry.services, n), c))
            && c !in d'.outbox.pending && c !in d'.outbox.connected && (forall t :: t in d'.outbox.txns ==> c !in d'.outbox.txns[t])
            && (forall e, t :: e != c ==> O.Held(d'.outbox.pending, e, t) == O.Held(d.outbox.pending, e, t))
            && !C.Listed(d'.connections.incomplete, c) && !C.Listed(d'.connections.completed, c)
    ensures var replies := Disconnected(d, c).replies;
            && (forall y :: y in replies ==> y.getter != c && y.sender != Some(c))
            && (forall x :: x in d.replies && x.getter != c ==> Orphaned(x, c) in replies)
            && (forall y :: y in replies ==> exists x :: x in d.replies && x.getter != c && y == Orphaned(x, c))
  {
    RR.DisconnectFacts(d.registry, c);
    O.DisconnectKeepsListed(d.outbox, c);
    C.UnlistedOnce(d.connections, c);
    P.DropConnFacts(d.replies, c);
    OwedRepliesStay(d.replies, c);
    forall t | t in d.outbox.txns
      ensures c !in O.Drop(d.outbox.txns[t], c)
    {
      O.DropFacts(d.outbox.txns[t], c);
    }
  }
}
