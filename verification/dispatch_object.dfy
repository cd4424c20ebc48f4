/** The security check and the dispatch of a message as the daemon performs them (bus/bus.c:1157-1500, bus/dispatch.c:38-126, 129-367). */
module DispatchObject {
  import opened BusTypes
  import opened Policy
  import opened Transactions
  import opened Dispatch
  import opened Routing
  import R = PendingReplies
  import opened ReplyObject

  /** `bus_context_check_security_policy` */
  method CheckSecurityPolicy(keeper: ReplyKeeper, t: Transaction, w: World, x: Incoming, fromDriver: bool, to: Option<Conn>, barred: bool)
    returns (fault: Option<Fault>, requested: bool)
    requires Proper(w, x, fromDriver, to) && R.Sound(keeper.View(t))
    modifies keeper`nextId, keeper.pendingReplies`items, keeper.pendingReplies`timer, t`cancelHooks
    ensures Ruling(fault, requested, keeper.View(t)) == Decide(w, x, fromDriver, to, barred, old(keeper.View(t)))
  {
    requested := false;
    if x.m.messageType != METHOD_CALL && x.m.messageType != SIGNAL && x.m.messageType != METHOD_RETURN && x.m.messageType != ERROR {
      return Some(AccessDenied), false;
    }
    if !fromDriver {
      if barred {
        return Some(AccessDenied), false;
      }
      if x.sender in w.rules {
        if x.m.replySerial != 0 && to.Some? && x.addressed == to {
          requested := keeper.CheckReply(t, to.value, x.sender, x.m.replySerial);
        }
      } else {
        return if to.None? && IsHello(x.m) then None else Some(AccessDenied), false;
      }
    } else if x.addressed == to && x.m.replySerial != 0 {
      requested := true;
    }
    var ctx := Between(w, x, fromDriver, to, requested);
    if !fromDriver {
      var send, toggles, log := CheckCanSend(w.rules[x.sender], x.m, ctx, false);
      if !send {
        return Some(AccessDenied), requested;
      }
    }
    if to.Some? && to.value in w.rules {
      var receive, toggles := CheckCanReceive(w.rules[to.value], x.m, ctx);
      if !receive {
        return Some(AccessDenied), requested;
      }
    }
    if to.Some? && to.value in x.full {
      return Some(LimitsExceeded), requested;
    }
    fault := None;
    if x.m.messageType == METHOD_CALL && !fromDriver && to.Some? && x.addressed == to {
      var answer := keeper.ExpectReply(t, x.sender, to.value, x.serial, x.noReply, x.now, w.maxReplies);
      fault := ExpectFault(answer);
    }
  }

  /** The check of a message for another registered connection, which queues the message if it passes. */
  method CheckAndSend(keeper: ReplyKeeper, t: Transaction, w: World, x: Incoming, to: Conn, sent: seq<Delivery>)
    returns (sent': seq<Delivery>, fault: Option<Fault>)
    requires x.sender in w.rules && to in w.rules && R.Sound(keeper.View(t))
    modifies keeper`nextId, keeper.pendingReplies`items, keeper.pendingReplies`timer, t`cancelHooks
    ensures Progress(keeper.View(t), sent') == SendTo(w, x, to, Progress(old(keeper.View(t)), sent))
    ensures fault == Decide(w, x, false, Some(to), to in x.barred, old(keeper.View(t))).fault
    ensures (fault.None? <==> sent' != sent) && R.Sound(keeper.View(t))
  {
    CheckBalance(w, x, to, keeper.View(t), 0, 0, 0);
    DecideIsCheck(w, x, to, keeper.View(t));
    var requested;
    fault, requested := CheckSecurityPolicy(keeper, t, w, x, false, Some(to), to in x.barred);
    sent' := sent;
    if fault.None? {
      sent' := sent' + [Delivery(to, x.sender, x.m, x.serial, x.addressed == Some(to), requested)];
    }
  }

  /** `bus_dispatch_matches`: a refused recipient is silently left out. Memory lasts for `memory` recipients. */
  method DispatchMatches(keeper: ReplyKeeper, t: Transaction, w: World, x: Incoming, sent: seq<Delivery>, memory: nat)
    returns (sent': seq<Delivery>, oom: bool)
    requires Registered(w, x) && R.Sound(keeper.View(t))
    modifies keeper`nextId, keeper.pendingReplies`items, keeper.pendingReplies`timer, t`cancelHooks
    ensures Progress(keeper.View(t), sent') ==
            SendToAll(w, x, x.matches[..Min(memory, |x.matches|)], Progress(old(keeper.View(t)), sent))
    ensures oom <==> memory < |x.matches|
    ensures R.Sound(keeper.View(t))
  {
    sent' := sent;
    ghost var p0 := Progress(keeper.View(t), sent);
    var i := 0;
    while i < |x.matches|
      invariant 0 <= i <= |x.matches| && i <= memory && R.Sound(keeper.View(t))
      invariant Progress(keeper.View(t), sent') == SendToAll(w, x, x.matches[..i], p0)
    {
      if i == memory {
        return sent', true;
      }
      assert x.matches[..i + 1][..i] == x.matches[..i] && x.matches[i] in x.matches;
      var refused;
      sent', refused := CheckAndSend(keeper, t, w, x, x.matches[i], sent');
      i := i + 1;
    }
    oom := false;
  }

  /** The addressed recipient, whose refusal is reported, and then those with a match rule. */
  method RouteMessage(keeper: ReplyKeeper, t: Transaction, w: World, x: Incoming, memory: nat) returns (sent: seq<Delivery>, fault: Option<Fault>)
    requires Registered(w, x) && R.Sound(keeper.View(t))
    modifies keeper`nextId, keeper.pendingReplies`items, keeper.pendingReplies`timer, t`cancelHooks
    ensures Attempt(Progress(keeper.View(t), sent), fault) == Attempted(w, x, old(keeper.View(t)), memory)
  {
    sent, fault := [], None;
    var left := memory;
    if x.addressed.Some? {
      if memory == 0 {
        return [], Some(NoMemory);
      }
      sent, fault := CheckAndSend(keeper, t, w, x, x.addressed.value, sent);
      if fault.Some? {
        return;
      }
      left := memory - 1;
    }
    var oom;
    sent, oom := DispatchMatches(keeper, t, w, x, sent, left);
    if oom {
      fault := Some(NoMemory);
    }
  }

  /** The part of `bus_dispatch` up to its label `out`. */
  method TryMessage(keeper: ReplyKeeper, t: Transaction, w: World, x: Incoming, e: Env, memory: nat) returns (sent: seq<Delivery>, fault: Option<Fault>)
    requires Fits(w, x, e) && R.Sound(keeper.View(t))
    modifies keeper`nextId, keeper.pendingReplies`items, keeper.pendingReplies`timer, t`cancelHooks
    ensures Attempt(Progress(keeper.View(t), sent), fault) == Try(w, x, e, old(keeper.View(t)), memory)
  {
    sent, fault := [], None;
    if x.m.destination.None? {
      if Is(x.m, SIGNAL, INTERFACE_LOCAL, "Disconnected") || x.m.messageType != SIGNAL {
        return;
      }
    }
    if !e.ready {
      return [], Some(NoMemory);
    }
    if x.m.destination == Some(DBUS_SERVICE_DBUS) {
      DriverKeepsLicences(w, x, false, None, e.barred, keeper.View(t));
      var requested;
      fault, requested := CheckSecurityPolicy(keeper, t, w, x, false, None, e.barred);
      if fault.None? {
        fault := e.driver;
      }
      if fault.None? {
        sent, fault := RouteMessage(keeper, t, e.after, x, memory);
      }
    } else if x.sender !in w.rules {
      return;
    } else if x.m.destination.Some? && x.addressed.None? {
      fault := if e.autoStart then e.activation else Some(NameHasNoOwner);
    } else {
      sent, fault := RouteMessage(keeper, t, w, x, memory);
    }
  }

  /** `bus_transaction_send_error_reply`: whether the reply passes the check of messages from the driver. */
  method SendErrorReply(keeper: ReplyKeeper, t: Transaction, w: World, x: Incoming, e: Env, f: Fault) returns (sent: bool)
    requires R.Sound(keeper.View(t))
    modifies keeper`nextId, keeper.pendingReplies`items, keeper.pendingReplies`timer, t`cancelHooks
    ensures sent <==> ErrorPasses(w, x, e, f, old(keeper.View(t)))
    ensures keeper.View(t) == old(keeper.View(t))
  {
    var mail := ErrorMail(x, e.name, f);
    DriverKeepsLicences(w, mail, true, Some(x.sender), false, keeper.View(t));
    var fault, requested := CheckSecurityPolicy(keeper, t, w, mail, true, Some(x.sender), false);
    sent := fault.None?;
  }

  /** `bus_dispatch` */
  method DispatchMessage(keeper: ReplyKeeper, w: World, x: Incoming, e: Env, memory: nat) returns (delivered: seq<Delivery>, reply: Reply, cancelled: bool)
    requires Fits(w, x, e) && R.Sound(R.InTxn(keeper.pendingReplies.items, keeper.nextId, []))
    modifies keeper`nextId, keeper.pendingReplies`items, keeper.pendingReplies`timer
    ensures Outcome(delivered, reply, cancelled, keeper.pendingReplies.items, keeper.nextId) ==
            Dispatched(w, x, e, R.InTxn(old(keeper.pendingReplies.items), old(keeper.nextId), []), memory)
  {
    var t := new Transaction();
    ghost var s := keeper.View(t);
    var fault;
    delivered, fault := TryMessage(keeper, t, w, x, e, memory);
    reply, cancelled := Silence, false;
    ghost var ops := TryIsOps(w, x, e, s, memory);
    R.DoAllSound(s, ops, WorldAfter(w, x, e).maxReplies);
    if fault.Some? && e.connected {
      if fault == Some(NoMemory) || !e.replyMemory {
        R.UndoAllRestores(s, ops, WorldAfter(w, x, e).maxReplies, keeper.pendingReplies.items);
        keeper.CancelAll(t);
        delivered, reply, cancelled := [], ErrorReply(NoMemory), true;
      } else {
        var sent := SendErrorReply(keeper, t, WorldAfter(w, x, e), x, e, fault.value);
        if sent {
          reply := ErrorReply(fault.value);
        }
      }
    }
  }
}
