/** A bus transaction: who has messages waiting in it and how to undo it (bus/connection.c, BusTransaction). */
module Transactions {
  import opened BusTypes
  import opened OwnerQueues
  import opened NameRegistry

  /** The undo records; each names the data its cancel and free functions work on. */
  datatype CancelHook =
    | CancelOwnership(name: Name, conn: Conn)
    /** The owner to put back, and the connection whose owner stood behind it. */
    | RestoreOwnership(name: Name, owner: Owner, before: Option<Conn>)
    | CancelPendingReply(replyId: nat)
    | RestorePendingReply(reply: PendingReply)
    | CancelActivation(pendingId: nat)
    | RestoreActivation(pendingId: nat)

  predicate IsOwnerHook(h: CancelHook) { h.CancelOwnership? || h.RestoreOwnership? }

  /** Whose owner the hook keeps alive. */
  function HookConn(h: CancelHook): Conn
    requires IsOwnerHook(h)
  {
    if h.CancelOwnership? then h.conn else h.owner.conn
  }

  class Transaction {
    /** Newest first, so that cancelling runs them in reverse order. */
    var cancelHooks: seq<CancelHook>
    /** Ownership signals put into this transaction so far. */
    ghost var announced: seq<Signal>

    constructor ()
      ensures cancelHooks == [] && announced == []
    {
      cancelHooks, announced := [], [];
    }

    method AddCancelHook(h: CancelHook)
      modifies this`cancelHooks
      ensures cancelHooks == [h] + old(cancelHooks)
    {
      cancelHooks := [h] + cancelHooks;
    }

    method Announce(s: Signal)
      modifies this`announced
      ensures announced == old(announced) + [s]
    {
      announced := announced + [s];
    }
  }
}
