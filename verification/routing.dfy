/**
 Where a message goes: the security check for every pair of parties, the driver among them, and all the
 ways through `bus_dispatch` with the error that the sender is told
 (bus/bus.c:1157-1500, bus/dispatch.c:129-367, bus/connection.c:2003-2041, 2258-2290).
 */
module Routing {
  import opened BusTypes
  import opened Policy
  import opened Transactions
  import opened Dispatch
  import R = PendingReplies

  /** `Other`: what the driver or the activation of a service reports. */
  datatype Fault = AccessDenied | LimitsExceeded | NameHasNoOwner | NoMemory | Other(name: string)

  const INTERFACE_DBUS: string := "org.freedesktop.DBus"
  const INTERFACE_LOCAL: string := "org.freedesktop.DBus.Local"

  /** A missing interface is taken for the one asked about. */
  predicate Is(m: Message, messageType: int, iface: string, member: string) {
    m.messageType == messageType && m.member == Some(member) && (m.iface.None? || m.iface == Some(iface))
  }

  predicate IsHello(m: Message) { Is(m, METHOD_CALL, INTERFACE_DBUS, "Hello") }

  // ----- the security check

  datatype Ruling = Ruling(fault: Option<Fault>, requested: bool, s: R.InTxn)

  /** Only the driver sends to a connection that is not registered. */
  predicate Proper(w: World, x: Incoming, fromDriver: bool, to: Option<Conn>) {
    !fromDriver && x.sender in w.rules && to.Some? ==> to.value in w.rules
  }

  function Between(w: World, x: Incoming, fromDriver: bool, to: Option<Conn>, requested: bool): Context {
    Context(requested, if fromDriver then None else Some(x.sender), x.addressed, to, w.owners)
  }

  function ExpectFault(a: R.ExpectResult): Option<Fault> {
    match a
    case Allowed => None
    case DuplicateSerial => Some(AccessDenied)
    case TooManyPending => Some(LimitsExceeded)
  }

  /**
   `bus_context_check_security_policy`: `fromDriver` says that the driver sends the message and not
   `x.sender`, `to` is None for the driver; `barred` is what SELinux says.
   */
  function Decide(w: World, x: Incoming, fromDriver: bool, to: Option<Conn>, barred: bool, s: R.InTxn): Ruling
    requires Proper(w, x, fromDriver, to)
  {
    var m := x.m;
    if !KnownType(m) || (!fromDriver && barred) then Ruling(Some(AccessDenied), false, s)
    else if !fromDriver && x.sender !in w.rules then
      Ruling(if to.None? && IsHello(m) then None else Some(AccessDenied), false, s)
    else
      var answers := m.replySerial != 0 && x.addressed == to && (fromDriver || to.Some?);
      var requested := answers && (fromDriver || R.Find(s.list, to.value, x.sender, m.replySerial).Some?);
      var s1 := if answers && !fromDriver then R.Do(s, Consume(x, to.value), w.maxReplies) else s;
      var ctx := Between(w, x, fromDriver, to, requested);
      if !fromDriver && !Verdict(w.rules[x.sender], r => SendApplies(r, m, ctx)) then Ruling(Some(AccessDenied), requested, s1)
      else if to.Some? && to.value in w.rules && !Verdict(w.rules[to.value], r => ReceiveApplies(r, m, ctx)) then
        Ruling(Some(AccessDenied), requested, s1)
      else if to.Some? && to.value in x.full then Ruling(Some(LimitsExceeded), requested, s1)
      else if !fromDriver && to.Some? && CallsUpon(x, to.value) then
        Ruling(if x.noReply then None else ExpectFault(R.ExpectAnswer(s1.list, x.sender, to.value, x.serial, w.maxReplies)), requested,
               R.Do(s1, License(x, to.value), w.maxReplies))
      else Ruling(None, requested, s1)
  }

  /** Between registered connections it is the check of the runs. */
  lemma DecideIsCheck(w: World, x: Incoming, to: Conn, s: R.InTxn)
    requires x.sender in w.rules && to in w.rules
    ensures var r := Decide(w, x, false, Some(to), to in x.barred, s);
            Verdicts(r.fault.None?, r.requested, r.s) == Check(w, x, to, s)
  {
    var requested := AnswersTo(x, to) && R.Find(s.list, to, x.sender, x.m.replySerial).Some?;
    assert Between(w, x, false, Some(to), requested) == ContextFor(w, x, to, requested);
  }

  /** What the driver sends or receives never touches a licence; nor does anything an unregistered connection sends. */
  lemma DriverKeepsLicences(w: World, x: Incoming, fromDriver: bool, to: Option<Conn>, barred: bool, s: R.InTxn)
    requires fromDriver || to.None? || x.sender !in w.rules
    ensures Decide(w, x, fromDriver, to, barred, s).s == s
  {
  }

  /** Whatever the policies say: an unregistered connection gets nothing through but Hello to the driver, and gets everything from the driver that its queue can hold. */
  lemma UnregisteredParties(w: World, x: Incoming, to: Option<Conn>, c: Conn, barred: bool, s: R.InTxn)
    requires KnownType(x.m)
    ensures x.sender !in w.rules ==> (Decide(w, x, false, to, barred, s).fault.None? <==> !barred && to.None? && IsHello(x.m))
    ensures c !in w.rules ==> (Decide(w, x, true, Some(c), barred, s).fault.None? <==> c !in x.full)
  {
  }

  // ----- the ways through `bus_dispatch`

  /**
   The rest of the bus: whether the message asks to start its destination; whether SELinux bars it from
   the driver; whether there is memory to begin; what the driver answers, and the policies after that;
   what activating the destination answers; whether the sender is still connected, what its unique name
   is and whether there is memory for an error reply.
   */
  datatype Env = Env(autoStart: bool, barred: bool, ready: bool, driver: Option<Fault>, after: World, activation: Option<Fault>,
                     connected: bool, name: Option<Name>, replyMemory: bool)

  ghost predicate Fits(w: World, x: Incoming, e: Env) {
    && (x.addressed.Some? ==> x.m.destination.Some? && x.m.destination != Some(DBUS_SERVICE_DBUS))
    && (x.sender in w.rules ==> Registered(w, x))
    && (e.driver.None? ==> Registered(e.after, x.(addressed := None)))
  }

  datatype Way = Ignored | Departure | NotBegun | ToDriver | Close | Activate | NoOwner | Deliver

  function WayOf(w: World, x: Incoming, e: Env): Way {
    if x.m.destination.None? && Is(x.m, SIGNAL, INTERFACE_LOCAL, "Disconnected") then Departure
    else if x.m.destination.None? && x.m.messageType != SIGNAL then Ignored
    else if !e.ready then NotBegun
    else if x.m.destination == Some(DBUS_SERVICE_DBUS) then ToDriver
    else if x.sender !in w.rules then Close
    else if x.m.destination.None? || x.addressed.Some? then Deliver
    else if e.autoStart then Activate
    else NoOwner
  }

  /** What was queued, and the error if there is one. */
  datatype Attempt = Attempt(p: Progress, fault: Option<Fault>)

  /** The addressed recipient first, then those with a match rule; memory lasts for `steps` of them. */
  ghost function Attempted(w: World, x: Incoming, s: R.InTxn, steps: nat): Attempt
    requires Registered(w, x)
  {
    var p := Route(w, x, s, steps);
    if x.addressed.None? then Attempt(p, if steps < |x.matches| then Some(NoMemory) else None)
    else if steps == 0 then Attempt(p, Some(NoMemory))
    else
      var to := x.addressed.value;
      var r := Decide(w, x, false, Some(to), to in x.barred, s);
      Attempt(p, if r.fault.Some? then r.fault else if steps - 1 < |x.matches| then Some(NoMemory) else None)
  }

  ghost function Try(w: World, x: Incoming, e: Env, s: R.InTxn, steps: nat): Attempt
    requires Fits(w, x, e)
  {
    var none := Progress(s, []);
    match WayOf(w, x, e)
    case NotBegun => Attempt(none, Some(NoMemory))
    case ToDriver =>
      var r := Decide(w, x, false, None, e.barred, s);
      if r.fault.Some? then Attempt(none, r.fault)
      else if e.driver.Some? then Attempt(none, e.driver)
      else Attempted(e.after, x, s, steps)
    case Activate => Attempt(none, e.activation)
    case NoOwner => Attempt(none, Some(NameHasNoOwner))
    case Deliver => Attempted(w, x, s, steps)
    case _ => Attempt(none, None)
  }

  /** The policies when the sender is told of an error. */
  function WorldAfter(w: World, x: Incoming, e: Env): World {
    if WayOf(w, x, e) == ToDriver && e.driver.None? then e.after else w
  }

  function ErrorName(f: Fault): string {
    match f
    case AccessDenied => "org.freedesktop.DBus.Error.AccessDenied"
    case LimitsExceeded => "org.freedesktop.DBus.Error.LimitsExceeded"
    case NameHasNoOwner => "org.freedesktop.DBus.Error.NameHasNoOwner"
    case NoMemory => "org.freedesktop.DBus.Error.NoMemory"
    case Other(name) => name
  }

  /** The error reply as the driver sends it. */
  function ErrorMail(x: Incoming, name: Option<Name>, f: Fault): Incoming {
    x.(m := Message(ERROR, x.serial, None, None, None, Some(ErrorName(f)), name, Some(DBUS_SERVICE_DBUS)),
       noReply := true, addressed := Some(x.sender), matches := [])
  }

  /** The driver drops a message that the policy of its recipient refuses. */
  predicate ErrorPasses(w: World, x: Incoming, e: Env, f: Fault, s: R.InTxn) {
    Decide(w, ErrorMail(x, e.name, f), true, Some(x.sender), false, s).fault.None?
  }

  datatype Reply = Silence | ErrorReply(fault: Fault)

  datatype Outcome = Outcome(delivered: seq<Delivery>, reply: Reply, cancelled: bool, replies: seq<PendingReply>, nextId: nat)

  /** The end of `bus_dispatch`. A sender that is gone is told nothing, and then nothing is cancelled either. */
  ghost function Finish(a: Attempt, w: World, x: Incoming, e: Env): Outcome {
    var s := a.p.s;
    if a.fault.None? || !e.connected then Outcome(a.p.sent, Silence, false, s.list, s.nextId)
    else if a.fault == Some(NoMemory) || !e.replyMemory then
      Outcome([], ErrorReply(NoMemory), true, R.UndoAll(s.list, s.hooks), s.nextId)
    else
      Outcome(a.p.sent, if ErrorPasses(w, x, e, a.fault.value, s) then ErrorReply(a.fault.value) else Silence, false, s.list, s.nextId)
  }

  ghost function Dispatched(w: World, x: Incoming, e: Env, s: R.InTxn, steps: nat): Outcome
    requires Fits(w, x, e)
  {
    Finish(Try(w, x, e, s, steps), WorldAfter(w, x, e), x, e)
  }

  // ----- the recipient gets the message or the sender an error

  ghost predicate ReachesRecipient(o: Outcome) { exists d :: d in o.delivered && d.addressed }

  lemma {:induction false} SendToAllExtends(w: World, x: Incoming, list: seq<Conn>, p: Progress)
    requires x.sender in w.rules && forall c :: c in list ==> c in w.rules
    ensures p.sent <= SendToAll(w, x, list, p).sent
    decreases |list|
  {
    if list != [] {
      SendToAllExtends(w, x, list[..|list| - 1], p);
    }
  }

  /** Nothing is sent unless the addressed recipient comes first. */
  lemma RecipientFirst(w: World, x: Incoming, s: R.InTxn, steps: nat)
    requires Registered(w, x) && x.addressed.Some?
    ensures var to, sent := x.addressed.value, Route(w, x, s, steps).sent;
            var refused := Decide(w, x, false, Some(to), to in x.barred, s).fault.Some?;
            if steps == 0 || refused then sent == [] else sent != [] && sent[0].addressed
  {
    if steps > 0 {
      var to, p := x.addressed.value, Progress(s, []);
      DecideIsCheck(w, x, to, s);
      var p1 := SendTo(w, x, to, p);
      if p1.sent != [] {
        SendToAllExtends(w, x, x.matches[..Min(steps - 1, |x.matches|)], p1);
        assert p1.sent[0].addressed;
      }
    }
  }

  /**
   A message from a registered connection to a name with an owner: its recipient gets it or its sender is
   told an error, never both, and nobody else gets a copy of what the recipient does not get. Both hear
   nothing if and only if the message is refused and the sender's own policy refuses the error reply as
   well, or the sender is gone and the message was refused or memory ran out at once.
   */
  lemma DeliveredOrAnswered(w: World, x: Incoming, e: Env, s: R.InTxn, steps: nat)
    requires Fits(w, x, e) && WayOf(w, x, e) == Deliver && x.addressed.Some?
    ensures var o, to := Dispatched(w, x, e, s, steps), x.addressed.value;
            var r := Decide(w, x, false, Some(to), to in x.barred, s);
            && !(ReachesRecipient(o) && o.reply.ErrorReply?)
            && (o.delivered != [] ==> ReachesRecipient(o))
            && (o.cancelled ==> o.delivered == [] && o.reply == ErrorReply(NoMemory))
            && (!ReachesRecipient(o) && o.reply == Silence <==>
                if e.connected then steps > 0 && r.fault.Some? && e.replyMemory && !ErrorPasses(w, x, e, r.fault.value, r.s)
                else steps == 0 || r.fault.Some?)
  {
    var o, to := Dispatched(w, x, e, s, steps), x.addressed.value;
    RecipientFirst(w, x, s, steps);
    DecideIsCheck(w, x, to, s);
    if o.delivered != [] {
      assert o.delivered[0] in o.delivered;
    }
  }

  const SERVICE: Name := "org.example.Service"

  /** Connection 2 may do everything and has a name; the policy of connection 1 has no rules. */
  const MUTE_CALLER: World := World(map[1 := [], 2 := OPEN_RULES], map[SERVICE := {2}], 10)

  /** A refused call to which the sender hears nothing: its policy allows nothing, not even to receive the error. */
  lemma RefusedInSilence(x: Incoming, e: Env)
    requires x.m == Call(SERVICE) && x.sender == 1 && x.addressed == Some(2) && x.matches == [] && x.barred == {}
    requires Fits(MUTE_CALLER, x, e) && e.ready && e.connected && e.replyMemory
    ensures var o := Dispatched(MUTE_CALLER, x, e, R.InTxn([], 0, []), 1);
            o.delivered == [] && o.reply == Silence
  {
    var w, s := MUTE_CALLER, R.InTxn([], 0, []);
    var r := Decide(w, x, false, Some(2), false, s);
    assert !Verdict(w.rules[1], a => SendApplies(a, x.m, Between(w, x, false, Some(2), false)));
    assert r.fault == Some(AccessDenied);
    var mail, requested := ErrorMail(x, e.name, AccessDenied), x.serial != 0;
    assert !Verdict(w.rules[1], a => ReceiveApplies(a, mail.m, Between(w, mail, true, Some(1), requested)));
    assert !ErrorPasses(w, x, e, AccessDenied, s);
    DeliveredOrAnswered(w, x, e, s, 1);
  }

  // ----- what it does to licences and deliveries is a step of the runs, or nothing

  lemma DispatchIsStep(w: World, x: Incoming, e: Env, steps: nat, st: State) returns (done: seq<Step>)
    requires Fits(w, x, e) && R.Sound(R.InTxn(st.replies, st.nextId, []))
    ensures |done| <= 1 && forall i :: 0 <= i < |done| ==> Possible(done[i])
    ensures var o := Dispatched(w, x, e, R.InTxn(st.replies, st.nextId, []), steps);
            State(o.replies, o.nextId, st.log + o.delivered) == Run(st, done)
  {
    var s := R.InTxn(st.replies, st.nextId, []);
    var o := Dispatched(w, x, e, s, steps);
    var way := WayOf(w, x, e);
    var r := if way == ToDriver then Decide(w, x, false, None, e.barred, s).fault else None;
    if way == Deliver || (way == ToDriver && r.None? && e.driver.None?) {
      var w' := WorldAfter(w, x, e);
      var step := if o.cancelled then Cancelled(w', x, steps) else Executed(w', x, steps);
      done := [step];
      assert done[..0] == [] && Run(st, []) == st;
      assert st.log + [] == st.log;
    } else {
      done := [];
      assert st.log + [] == st.log;
    }
  }

  /** Trying a message is a sequence of operations on the licences. */
  lemma TryIsOps(w: World, x: Incoming, e: Env, s: R.InTxn, steps: nat) returns (ops: seq<R.Op>)
    requires Fits(w, x, e)
    ensures Try(w, x, e, s, steps).p.s == R.DoAll(s, ops, WorldAfter(w, x, e).maxReplies)
  {
    var way := WayOf(w, x, e);
    ops := [];
    if way == Deliver {
      ops := RouteIsOps(w, x, s, steps);
    } else if way == ToDriver && Decide(w, x, false, None, e.barred, s).fault.None? && e.driver.None? {
      ops := RouteIsOps(e.after, x, s, steps);
    }
  }
}
