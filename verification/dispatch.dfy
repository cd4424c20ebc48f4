/**
 One message on its way: the security check that ties policy and reply licences together, the
 recipients it is sent to, and the decision to execute or cancel its transaction
 (bus/bus.c:1223-1500, bus/dispatch.c:38-126, 129-367).
 */
module Dispatch {
  import opened BusTypes
  import opened Policy
  import opened Transactions
  import R = PendingReplies
  import RR = ReplyRuns

  const METHOD_CALL: int := 1
  const METHOD_RETURN: int := 2
  const ERROR: int := 3
  const SIGNAL: int := 4

  /** A method call to a name. */
  function Call(n: Name): Message { Message(METHOD_CALL, 0, None, None, None, None, Some(n), None) }

  /** The policies of the registered connections, who is queued for which name, and the limit on pending replies. */
  datatype World = World(rules: map<Conn, seq<Rule>>, owners: map<Name, set<Conn>>, maxReplies: int)

  /**
   A message from a registered connection. `addressed` is the primary owner of its destination, if it has
   one; `matches` are the connections with a match rule for it. `barred` are the recipients that
   SELinux refuses, `full` those with too many bytes waiting.
   */
  datatype Incoming = Incoming(sender: Conn, m: Message, serial: nat, noReply: bool, now: Timestamp,
                               addressed: Option<Conn>, matches: seq<Conn>, barred: set<Conn>, full: set<Conn>)

  ghost predicate Registered(w: World, x: Incoming) {
    x.sender in w.rules && (x.addressed.Some? ==> x.addressed.value in w.rules) && forall c :: c in x.matches ==> c in w.rules
  }

  /** A policy that lets its client send, receive and own. */
  const OPEN_RULES: seq<Rule> := [
    SendRule(true, ANY_TYPE, None, None, None, None, None, false, true, false),
    ReceiveRule(true, ANY_TYPE, None, None, None, None, None, false, true),
    OwnRule(true, None)]

  lemma OpenAllows(n: Name, m: Message, ctx: Context)
    requires m.replySerial == 0
    ensures Verdict(OPEN_RULES, r => OwnApplies(r, n)) && Verdict(OPEN_RULES, r => SendApplies(r, m, ctx))
  {
    var own, send := (r: Rule) => OwnApplies(r, n), (r: Rule) => SendApplies(r, m, ctx);
    var rest, last := OPEN_RULES[1..], [OwnRule(true, None)];
    assert rest[1..] == last && last[1..] == [];
    assert LastMatch(last, own) == Some(last[0]) && LastMatch(last, send) == None;
    assert LastMatch(rest, own) == Some(last[0]) && LastMatch(rest, send) == None;
  }

  /** A message handed to a connection; `requested` says that it used up a licence. */
  datatype Delivery = Delivery(to: Conn, sender: Conn, m: Message, serial: nat, addressed: bool, requested: bool)

  // ----- the security check

  function ContextFor(w: World, x: Incoming, to: Conn, requested: bool): Context {
    Context(requested, Some(x.sender), x.addressed, Some(to), w.owners)
  }

  predicate MaySend(w: World, x: Incoming, to: Conn, requested: bool)
    requires x.sender in w.rules
  {
    Verdict(w.rules[x.sender], r => SendApplies(r, x.m, ContextFor(w, x, to, requested)))
  }

  predicate MayReceive(w: World, x: Incoming, to: Conn, requested: bool)
    requires to in w.rules
  {
    Verdict(w.rules[to], r => ReceiveApplies(r, x.m, ContextFor(w, x, to, requested)))
  }

  predicate KnownType(m: Message) { METHOD_CALL <= m.messageType <= SIGNAL }

  /** The message is a reply to its addressed recipient, rather than a copy for an eavesdropper. */
  predicate AnswersTo(x: Incoming, to: Conn) { x.m.replySerial != 0 && x.addressed == Some(to) }

  predicate CallsUpon(x: Incoming, to: Conn) { x.m.messageType == METHOD_CALL && x.addressed == Some(to) }

  function Consume(x: Incoming, to: Conn): R.Op { R.Check(to, x.sender, x.m.replySerial) }
  function License(x: Incoming, to: Conn): R.Op { R.Expect(x.sender, to, x.serial, x.noReply, x.now) }

  datatype Verdicts = Verdicts(allowed: bool, requested: bool, s: R.InTxn)

  /** `bus_context_check_security_policy` for a message from one connection to another. A licence is used up even if the message is refused later. */
  function Check(w: World, x: Incoming, to: Conn, s: R.InTxn): Verdicts
    requires x.sender in w.rules && to in w.rules
  {
    if !KnownType(x.m) || to in x.barred then Verdicts(false, false, s)
    else
      var requested := AnswersTo(x, to) && R.Find(s.list, to, x.sender, x.m.replySerial).Some?;
      var s1 := if AnswersTo(x, to) then R.Do(s, Consume(x, to), w.maxReplies) else s;
      if !MaySend(w, x, to, requested) || !MayReceive(w, x, to, requested) || to in x.full then Verdicts(false, requested, s1)
      else if !CallsUpon(x, to) then Verdicts(true, requested, s1)
      else
        Verdicts(x.noReply || R.ExpectAnswer(s1.list, x.sender, to, x.serial, w.maxReplies) == R.Allowed, requested,
                 R.Do(s1, License(x, to), w.maxReplies))
  }

  /** The check uses up a licence, grants one, or both in this order. */
  lemma CheckEnds(w: World, x: Incoming, to: Conn, s: R.InTxn)
    requires x.sender in w.rules && to in w.rules
    ensures var s', s1 := Check(w, x, to, s).s, R.Do(s, Consume(x, to), w.maxReplies);
            s' == s || s' == s1 || s' == R.Do(s, License(x, to), w.maxReplies) || s' == R.Do(s1, License(x, to), w.maxReplies)
  {
  }

  /** What is checked and sent does not depend on the hooks recorded so far. */
  lemma CheckIgnoresHooks(w: World, x: Incoming, to: Conn, s: R.InTxn, hooks: seq<CancelHook>)
    requires x.sender in w.rules && to in w.rules
    ensures var v, v' := Check(w, x, to, s), Check(w, x, to, s.(hooks := hooks));
            v.allowed == v'.allowed && v'.s.list == v.s.list && v'.s.nextId == v.s.nextId
  {
  }

  // ----- the recipients

  /** The licences and the messages queued so far in the transaction. */
  datatype Progress = Progress(s: R.InTxn, sent: seq<Delivery>)

  function SendTo(w: World, x: Incoming, to: Conn, p: Progress): Progress
    requires x.sender in w.rules && to in w.rules
  {
    var v := Check(w, x, to, p.s);
    Progress(v.s, if v.allowed then p.sent + [Delivery(to, x.sender, x.m, x.serial, x.addressed == Some(to), v.requested)] else p.sent)
  }

  function SendToAll(w: World, x: Incoming, list: seq<Conn>, p: Progress): Progress
    requires x.sender in w.rules && forall c :: c in list ==> c in w.rules
    decreases |list|
  {
    if list == [] then p else SendTo(w, x, list[|list| - 1], SendToAll(w, x, list[..|list| - 1], p))
  }

  /**
   `bus_dispatch` for a routed message: a refused message gets no further. `steps` recipients are
   tried before memory runs out, all of them if it does not.
   */
  ghost function Route(w: World, x: Incoming, s: R.InTxn, steps: nat): Progress
    requires Registered(w, x)
  {
    var p := Progress(s, []);
    if x.addressed.None? then SendToAll(w, x, x.matches[..Min(steps, |x.matches|)], p)
    else if steps == 0 then p
    else
      var p1 := SendTo(w, x, x.addressed.value, p);
      if p1.sent == [] then p1 else SendToAll(w, x, x.matches[..Min(steps - 1, |x.matches|)], p1)
  }

  function Min(a: nat, b: nat): (r: nat)
    ensures r <= a && r <= b
  {
    if a < b then a else b
  }

  // ----- runs

  datatype State = State(replies: seq<PendingReply>, nextId: nat, log: seq<Delivery>)

  datatype Step =
    /** A message is dispatched, to all recipients or to some before memory runs out, and its transaction executed. */
    | Executed(w: World, x: Incoming, after: nat)
    /** Memory runs out after some recipients and the transaction is cancelled. */
    | Cancelled(w: World, x: Incoming, after: nat)
    /** Licences that are not in `keep` expire. */
    | Expired(keep: set<nat>)
    | Lost(c: Conn)

  ghost predicate Possible(step: Step) {
    match step
    case Executed(w, x, _) => Registered(w, x)
    case Cancelled(w, x, _) => Registered(w, x)
    case _ => true
  }

  function Kept(list: seq<PendingReply>, keep: set<nat>): seq<PendingReply> {
    if list == [] then []
    else if list[0].id in keep then [list[0]] + Kept(list[1..], keep)
    else Kept(list[1..], keep)
  }

  ghost function Apply(st: State, step: Step): State
    requires Possible(step)
  {
    var s := R.InTxn(st.replies, st.nextId, []);
    match step
    case Executed(w, x, after) =>
      var p := Route(w, x, s, after);
      State(p.s.list, p.s.nextId, st.log + p.sent)
    case Cancelled(w, x, after) =>
      var p := Route(w, x, s, after);
      State(R.UndoAll(p.s.list, p.s.hooks), p.s.nextId, st.log)
    case Expired(keep) => st.(replies := Kept(st.replies, keep))
    case Lost(c) => st.(replies := RR.DropConn(st.replies, c))
  }

  ghost function Run(st: State, steps: seq<Step>): State
    requires forall i :: 0 <= i < |steps| ==> Possible(steps[i])
    decreases |steps|
  {
    if steps == [] then st else Apply(Run(st, steps[..|steps| - 1]), steps[|steps| - 1])
  }

  lemma {:induction false} RunConcat(st: State, a: seq<Step>, b: seq<Step>)
    requires (forall i :: 0 <= i < |a| ==> Possible(a[i])) && (forall i :: 0 <= i < |b| ==> Possible(b[i]))
    ensures Run(st, a + b) == Run(Run(st, a), b)
    decreases |b|
  {
    if b == [] {
      assert a + b == a;
    } else {
      assert (a + b)[..|a + b| - 1] == a + b[..|b| - 1];
      RunConcat(st, a, b[..|b| - 1]);
    }
  }

  // ----- what is delivered was allowed

  ghost predicate Allowed(w: World, x: Incoming, d: Delivery) {
    && d.sender == x.sender && d.m == x.m && d.serial == x.serial && d.to in w.rules && x.sender in w.rules
    && d.addressed == (x.addressed == Some(d.to)) && KnownType(x.m) && d.to !in x.barred && d.to !in x.full
    && MaySend(w, x, d.to, d.requested) && MayReceive(w, x, d.to, d.requested)
    && (d.requested ==> d.addressed && x.m.replySerial != 0)
  }

  lemma {:induction false} SendToAllAllowed(w: World, x: Incoming, list: seq<Conn>, p: Progress)
    requires x.sender in w.rules && forall c :: c in list ==> c in w.rules
    requires forall d :: d in p.sent ==> Allowed(w, x, d)
    ensures forall d :: d in SendToAll(w, x, list, p).sent ==> Allowed(w, x, d)
    decreases |list|
  {
    if list != [] {
      SendToAllAllowed(w, x, list[..|list| - 1], p);
    }
  }

  /** Every copy of a message that is delivered passed the sender's and its recipient's policy. */
  lemma DeliveredWasAllowed(w: World, x: Incoming, s: R.InTxn, steps: nat)
    requires Registered(w, x)
    ensures forall d :: d in Route(w, x, s, steps).sent ==> Allowed(w, x, d)
  {
    var p := Progress(s, []);
    if x.addressed.None? {
      SendToAllAllowed(w, x, x.matches[..Min(steps, |x.matches|)], p);
    } else if steps > 0 {
      var p1 := SendTo(w, x, x.addressed.value, p);
      SendToAllAllowed(w, x, x.matches[..Min(steps - 1, |x.matches|)], p1);
    }
  }

  // ----- requested replies and the calls they answer

  /** The outstanding licences for replies with this serial from `r` to `g`. */
  function Licences(list: seq<PendingReply>, g: Conn, r: Conn, serial: nat): set<nat> {
    set id | id in R.Table(list) && R.Matches(R.Table(list)[id], g, r, serial)
  }

  function Outstanding(list: seq<PendingReply>, g: Conn, r: Conn, serial: nat): nat { |Licences(list, g, r, serial)| }

  /** A call from `g` to `r` with this serial. */
  predicate IsCall(d: Delivery, g: Conn, r: Conn, serial: nat) {
    d.addressed && d.m.messageType == METHOD_CALL && d.sender == g && d.to == r && d.serial == serial
  }

  /** A reply from `r` to the call of `g` with this serial. */
  predicate IsReply(d: Delivery, g: Conn, r: Conn, serial: nat) {
    d.addressed && d.m.replySerial != 0 && d.m.replySerial == serial && d.to == g && d.sender == r
  }

  function Calls(log: seq<Delivery>, g: Conn, r: Conn, serial: nat): nat {
    if log == [] then 0 else Calls(log[..|log| - 1], g, r, serial) + if IsCall(log[|log| - 1], g, r, serial) then 1 else 0
  }

  function RequestedReplies(log: seq<Delivery>, g: Conn, r: Conn, serial: nat): nat {
    if log == [] then 0
    else RequestedReplies(log[..|log| - 1], g, r, serial)
         + if log[|log| - 1].requested && IsReply(log[|log| - 1], g, r, serial) then 1 else 0
  }

  /** What is owed: replies delivered and still allowed, less the calls delivered. */
  function Balance(log: seq<Delivery>, list: seq<PendingReply>, g: Conn, r: Conn, serial: nat): int {
    RequestedReplies(log, g, r, serial) + Outstanding(list, g, r, serial) - Calls(log, g, r, serial)
  }

  lemma CountSnoc(log: seq<Delivery>, d: Delivery, g: Conn, r: Conn, serial: nat)
    ensures Calls(log + [d], g, r, serial) == Calls(log, g, r, serial) + if IsCall(d, g, r, serial) then 1 else 0
    ensures RequestedReplies(log + [d], g, r, serial) ==
            RequestedReplies(log, g, r, serial) + if d.requested && IsReply(d, g, r, serial) then 1 else 0
  {
    assert (log + [d])[..|log|] == log;
  }

  lemma {:induction false} CountConcat(a: seq<Delivery>, b: seq<Delivery>, g: Conn, r: Conn, serial: nat)
    ensures Calls(a + b, g, r, serial) == Calls(a, g, r, serial) + Calls(b, g, r, serial)
    ensures RequestedReplies(a + b, g, r, serial) == RequestedReplies(a, g, r, serial) + RequestedReplies(b, g, r, serial)
    decreases |b|
  {
    if b == [] {
      assert a + b == a;
    } else {
      var front, d := b[..|b| - 1], b[|b| - 1];
      CountConcat(a, front, g, r, serial);
      assert a + b == (a + front) + [d];
      CountSnoc(a + front, d, g, r, serial);
    }
  }

  lemma LicencesWithout(list: seq<PendingReply>, id: nat, g: Conn, r: Conn, serial: nat)
    requires R.DistinctIds(list)
    ensures Licences(R.RemoveId(list, id), g, r, serial) == Licences(list, g, r, serial) - {id}
  {
    R.RemoveIdFacts(list, id);
  }

  /** Using a licence takes away that one and no other. */
  lemma ConsumeOutstanding(s: R.InTxn, g0: Conn, r0: Conn, serial0: nat, max: int, g: Conn, r: Conn, serial: nat)
    requires R.Sound(s)
    ensures Outstanding(R.Do(s, R.Check(g0, r0, serial0), max).list, g, r, serial) ==
            Outstanding(s.list, g, r, serial)
            - if R.Find(s.list, g0, r0, serial0).Some? && (g, r, serial) == (g0, r0, serial0) then 1 else 0
  {
    var found := R.Find(s.list, g0, r0, serial0);
    if found.Some? {
      var x := found.value;
      R.FindFacts(s.list, g0, r0, serial0);
      assert x.id in R.Table(s.list) && R.Table(s.list)[x.id] == x by { R.TableFacts(s.list); }
      LicencesWithout(s.list, x.id, g, r, serial);
      assert x.id in Licences(s.list, g, r, serial) <==> (g, r, serial) == (g0, r0, serial0);
    }
  }

  /** A new licence is one for exactly this reply. */
  lemma LicenseOutstanding(s: R.InTxn, x: Incoming, to: Conn, max: int, g: Conn, r: Conn, serial: nat)
    requires R.Sound(s)
    ensures Outstanding(R.Do(s, License(x, to), max).list, g, r, serial) ==
            Outstanding(s.list, g, r, serial)
            + if !x.noReply && R.ExpectAnswer(s.list, x.sender, to, x.serial, max) == R.Allowed && (g, r, serial) == (x.sender, to, x.serial)
              then 1 else 0
  {
    var y := PendingReply(s.nextId, x.sender, Some(to), x.serial, x.now);
    R.PrependFacts(y, s.list);
    var was, now := Licences(s.list, g, r, serial), Licences([y] + s.list, g, r, serial);
    assert y.id !in was;
    assert now == if R.Matches(y, g, r, serial) then was + {y.id} else was;
  }

  lemma CheckSound(w: World, x: Incoming, to: Conn, s: R.InTxn)
    requires x.sender in w.rules && to in w.rules && R.Sound(s)
    ensures R.Sound(Check(w, x, to, s).s)
  {
    var max := w.maxReplies;
    CheckEnds(w, x, to, s);
    R.DoTable(s, Consume(x, to), max);
    R.DoTable(s, License(x, to), max);
    R.DoTable(R.Do(s, Consume(x, to), max), License(x, to), max);
  }

  /** The check lets the balance of no call grow by more than the call it lets through. */
  lemma CheckBalance(w: World, x: Incoming, to: Conn, s: R.InTxn, g: Conn, r: Conn, serial: nat)
    requires x.sender in w.rules && to in w.rules && R.Sound(s)
    ensures var v := Check(w, x, to, s);
            var d := Delivery(to, x.sender, x.m, x.serial, x.addressed == Some(to), v.requested);
            && R.Sound(v.s)
            && Outstanding(v.s.list, g, r, serial) + (if v.allowed && v.requested && IsReply(d, g, r, serial) then 1 else 0)
               <= Outstanding(s.list, g, r, serial) + if v.allowed && IsCall(d, g, r, serial) then 1 else 0
  {
    var max := w.maxReplies;
    CheckSound(w, x, to, s);
    if KnownType(x.m) && to !in x.barred {
      var s1 := if AnswersTo(x, to) then R.Do(s, Consume(x, to), max) else s;
      var used := if AnswersTo(x, to) && R.Find(s.list, to, x.sender, x.m.replySerial).Some? then 1 else 0;
      assert R.Sound(s1) by { R.DoTable(s, Consume(x, to), max); }
      assert Outstanding(s1.list, g, r, serial) ==
             Outstanding(s.list, g, r, serial) - if (g, r, serial) == (to, x.sender, x.m.replySerial) then used else 0 by {
        ConsumeOutstanding(s, to, x.sender, x.m.replySerial, max, g, r, serial);
      }
      LicenseOutstanding(s1, x, to, max, g, r, serial);
    }
  }

  lemma SendToBalance(w: World, x: Incoming, to: Conn, p: Progress, g: Conn, r: Conn, serial: nat)
    requires x.sender in w.rules && to in w.rules && R.Sound(p.s)
    ensures var p' := SendTo(w, x, to, p);
            R.Sound(p'.s) && Balance(p'.sent, p'.s.list, g, r, serial) <= Balance(p.sent, p.s.list, g, r, serial)
  {
    CheckBalance(w, x, to, p.s, g, r, serial);
    var v := Check(w, x, to, p.s);
    CountSnoc(p.sent, Delivery(to, x.sender, x.m, x.serial, x.addressed == Some(to), v.requested), g, r, serial);
  }

  lemma {:induction false} SendToAllBalance(w: World, x: Incoming, list: seq<Conn>, p: Progress, g: Conn, r: Conn, serial: nat)
    requires x.sender in w.rules && (forall c :: c in list ==> c in w.rules) && R.Sound(p.s)
    ensures var p' := SendToAll(w, x, list, p);
            R.Sound(p'.s) && Balance(p'.sent, p'.s.list, g, r, serial) <= Balance(p.sent, p.s.list, g, r, serial)
    decreases |list|
  {
    if list != [] {
      var front := list[..|list| - 1];
      SendToAllBalance(w, x, front, p, g, r, serial);
      SendToBalance(w, x, list[|list| - 1], SendToAll(w, x, front, p), g, r, serial);
    }
  }

  lemma RouteBalance(w: World, x: Incoming, s: R.InTxn, steps: nat, g: Conn, r: Conn, serial: nat)
    requires Registered(w, x) && R.Sound(s)
    ensures var p := Route(w, x, s, steps);
            R.Sound(p.s) && Balance(p.sent, p.s.list, g, r, serial) <= Outstanding(s.list, g, r, serial)
  {
    var p := Progress(s, []);
    if x.addressed.None? {
      SendToAllBalance(w, x, x.matches[..Min(steps, |x.matches|)], p, g, r, serial);
    } else if steps > 0 {
      var p1 := SendTo(w, x, x.addressed.value, p);
      SendToBalance(w, x, x.addressed.value, p, g, r, serial);
      SendToAllBalance(w, x, x.matches[..Min(steps - 1, |x.matches|)], p1, g, r, serial);
    }
  }

  // ----- cancelling

  lemma {:induction false} DoAllSnoc(s: R.InTxn, ops: seq<R.Op>, op: R.Op, max: int)
    ensures R.DoAll(s, ops + [op], max) == R.Do(R.DoAll(s, ops, max), op, max)
  {
    assert (ops + [op])[..|ops|] == ops;
  }

  /** The check is a sequence of operations on the licences. */
  lemma CheckIsOps(w: World, x: Incoming, to: Conn, s0: R.InTxn, ops: seq<R.Op>) returns (ops': seq<R.Op>)
    requires x.sender in w.rules && to in w.rules
    ensures Check(w, x, to, R.DoAll(s0, ops, w.maxReplies)).s == R.DoAll(s0, ops', w.maxReplies)
  {
    var s, max := R.DoAll(s0, ops, w.maxReplies), w.maxReplies;
    ops' := ops;
    if KnownType(x.m) && to !in x.barred {
      var requested := AnswersTo(x, to) && R.Find(s.list, to, x.sender, x.m.replySerial).Some?;
      if AnswersTo(x, to) {
        DoAllSnoc(s0, ops', Consume(x, to), max);
        ops' := ops' + [Consume(x, to)];
      }
      if MaySend(w, x, to, requested) && MayReceive(w, x, to, requested) && to !in x.full && CallsUpon(x, to) {
        DoAllSnoc(s0, ops', License(x, to), max);
        ops' := ops' + [License(x, to)];
      }
    }
  }

  lemma {:induction false} SendToAllIsOps(w: World, x: Incoming, list: seq<Conn>, p: Progress, s0: R.InTxn, ops: seq<R.Op>) returns (ops': seq<R.Op>)
    requires x.sender in w.rules && forall c :: c in list ==> c in w.rules
    requires p.s == R.DoAll(s0, ops, w.maxReplies)
    ensures SendToAll(w, x, list, p).s == R.DoAll(s0, ops', w.maxReplies)
    decreases |list|
  {
    ops' := ops;
    if list != [] {
      ops' := SendToAllIsOps(w, x, list[..|list| - 1], p, s0, ops);
      ops' := CheckIsOps(w, x, list[|list| - 1], s0, ops');
    }
  }

  lemma RouteIsOps(w: World, x: Incoming, s: R.InTxn, steps: nat) returns (ops: seq<R.Op>)
    requires Registered(w, x)
    ensures Route(w, x, s, steps).s == R.DoAll(s, ops, w.maxReplies)
  {
    var p := Progress(s, []);
    ops := [];
    if x.addressed.None? {
      ops := SendToAllIsOps(w, x, x.matches[..Min(steps, |x.matches|)], p, s, ops);
    } else if steps > 0 {
      var p1 := SendTo(w, x, x.addressed.value, p);
      ops := CheckIsOps(w, x, x.addressed.value, s, ops);
      if p1.sent != [] {
        ops := SendToAllIsOps(w, x, x.matches[..Min(steps - 1, |x.matches|)], p1, s, ops);
      }
    }
  }

  /** A cancelled message delivers nothing and leaves every licence as it was, used up ones included. */
  lemma CancelledLeavesLicences(st: State, w: World, x: Incoming, after: nat)
    requires Registered(w, x) && R.Sound(R.InTxn(st.replies, st.nextId, []))
    ensures var st' := Apply(st, Cancelled(w, x, after));
            && R.Sound(R.InTxn(st'.replies, st'.nextId, []))
            && R.Table(st'.replies) == R.Table(st.replies) && multiset(st'.replies) == multiset(st.replies) && st'.log == st.log
  {
    var s := R.InTxn(st.replies, st.nextId, []);
    var ops := RouteIsOps(w, x, s, after);
    var s' := R.DoAll(s, ops, w.maxReplies);
    R.DoAllSound(s, ops, w.maxReplies);
    R.UndoAllRestores(s, ops, w.maxReplies, s'.list);
    R.SameTableSameContents(R.UndoAll(s'.list, s'.hooks), st.replies);
  }

  // ----- licences that lapse

  lemma {:induction false} KeptFacts(list: seq<PendingReply>, keep: set<nat>)
    requires R.DistinctIds(list)
    ensures R.DistinctIds(Kept(list, keep))
    ensures forall id :: id in R.Table(Kept(list, keep)) ==> id in R.Table(list) && R.Table(Kept(list, keep))[id] == R.Table(list)[id]
  {
    if list != [] {
      KeptFacts(list[1..], keep);
      if list[0].id in keep {
        R.PrependFacts(list[0], Kept(list[1..], keep));
      }
    }
  }

  lemma FewerOutstanding(list: seq<PendingReply>, list': seq<PendingReply>, g: Conn, r: Conn, serial: nat)
    requires Licences(list', g, r, serial) <= Licences(list, g, r, serial)
    ensures Outstanding(list', g, r, serial) <= Outstanding(list, g, r, serial)
  {
    var a, b := Licences(list', g, r, serial), Licences(list, g, r, serial);
    assert b == a + (b - a);
  }

  lemma LostOutstanding(list: seq<PendingReply>, c: Conn, g: Conn, r: Conn, serial: nat)
    requires R.DistinctIds(list)
    ensures R.DistinctIds(RR.DropConn(list, c)) && R.Table(RR.DropConn(list, c)).Keys <= R.Table(list).Keys
    ensures Outstanding(RR.DropConn(list, c), g, r, serial) <= Outstanding(list, g, r, serial)
  {
    var list' := RR.DropConn(list, c);
    RR.DroppedFacts(list, c);
    RR.DropConnFacts(list, c);
    R.TableFacts(list);
    R.TableFacts(list');
    FewerOutstanding(list, list', g, r, serial);
  }

  // ----- runs

  ghost predicate Answered(st: State) {
    && R.Sound(R.InTxn(st.replies, st.nextId, []))
    && forall g, r, serial: nat :: Balance(st.log, st.replies, g, r, serial) <= 0
  }

  lemma ApplyAnswered(st: State, step: Step)
    requires Answered(st) && Possible(step)
    ensures Answered(Apply(st, step))
  {
    var s, st' := R.InTxn(st.replies, st.nextId, []), Apply(st, step);
    match step
    case Executed(w, x, after) =>
      RouteBalance(w, x, s, after, 0, 0, 0);
      forall g, r, serial: nat
        ensures Balance(st'.log, st'.replies, g, r, serial) <= 0
      {
        RouteBalance(w, x, s, after, g, r, serial);
        CountConcat(st.log, Route(w, x, s, after).sent, g, r, serial);
        assert Balance(st.log, st.replies, g, r, serial) <= 0;
      }
    case Cancelled(w, x, after) =>
      CancelledLeavesLicences(st, w, x, after);
      forall g, r, serial: nat
        ensures Balance(st'.log, st'.replies, g, r, serial) <= 0
      {
        assert Balance(st.log, st.replies, g, r, serial) <= 0;
      }
    case Expired(keep) =>
      KeptFacts(st.replies, keep);
      forall g, r, serial: nat
        ensures Balance(st'.log, st'.replies, g, r, serial) <= 0
      {
        FewerOutstanding(st.replies, st'.replies, g, r, serial);
        assert Balance(st.log, st.replies, g, r, serial) <= 0;
      }
    case Lost(c) =>
      LostOutstanding(st.replies, c, 0, 0, 0);
      forall g, r, serial: nat
        ensures Balance(st'.log, st'.replies, g, r, serial) <= 0
      {
        LostOutstanding(st.replies, c, g, r, serial);
        assert Balance(st.log, st.replies, g, r, serial) <= 0;
      }
  }

  const START: State := State([], 0, [])

  /**
   In every run, whatever the policies say and however they change: of the replies of `r` to the call
   of `g` with some serial that are delivered as requested, together with the replies still allowed,
   there are no more than calls with that serial delivered from `g` to `r`.
   */
  lemma {:induction false} RequestedRepliesHaveCalls(steps: seq<Step>)
    requires forall i :: 0 <= i < |steps| ==> Possible(steps[i])
    ensures Answered(Run(START, steps))
    decreases |steps|
  {
    if steps != [] {
      RequestedRepliesHaveCalls(steps[..|steps| - 1]);
      ApplyAnswered(Run(START, steps[..|steps| - 1]), steps[|steps| - 1]);
    }
  }

  // ----- policies under which only requested replies pass

  /** No rule of the sender allows a reply that was not requested. */
  predicate ClosedRules(rules: seq<Rule>) {
    forall r :: r in rules && r.SendRule? && r.allow ==> r.requestedReply && !r.eavesdrop
  }

  lemma ClosedRefuses(w: World, x: Incoming, to: Conn)
    requires x.sender in w.rules && ClosedRules(w.rules[x.sender]) && x.m.replySerial != 0
    ensures !MaySend(w, x, to, false)
  {
    LastMatchApplies(w.rules[x.sender], r => SendApplies(r, x.m, ContextFor(w, x, to, false)));
  }

  predicate OnlyRequested(log: seq<Delivery>) {
    forall d :: d in log && d.m.replySerial != 0 ==> d.requested && d.addressed
  }

  ghost predicate Closed(step: Step) {
    step.Executed? ==> forall c :: c in step.w.rules ==> ClosedRules(step.w.rules[c])
  }

  function Replies(log: seq<Delivery>, g: Conn, r: Conn, serial: nat): nat {
    if log == [] then 0 else Replies(log[..|log| - 1], g, r, serial) + if IsReply(log[|log| - 1], g, r, serial) then 1 else 0
  }

  lemma {:induction false} AllRequested(log: seq<Delivery>, g: Conn, r: Conn, serial: nat)
    requires OnlyRequested(log)
    ensures Replies(log, g, r, serial) == RequestedReplies(log, g, r, serial)
  {
    if log != [] {
      assert log[|log| - 1] in log;
      AllRequested(log[..|log| - 1], g, r, serial);
    }
  }

  lemma ClosedStep(st: State, step: Step)
    requires OnlyRequested(st.log) && Possible(step) && Closed(step)
    ensures OnlyRequested(Apply(st, step).log)
  {
    if step.Executed? {
      var w, x, s := step.w, step.x, R.InTxn(st.replies, st.nextId, []);
      var sent := Route(w, x, s, step.after).sent;
      DeliveredWasAllowed(w, x, s, step.after);
      forall d | d in sent && d.m.replySerial != 0
        ensures d.requested && d.addressed
      {
        assert Allowed(w, x, d);
        ClosedRefuses(w, x, d.to);
      }
    }
  }

  lemma {:induction false} ClosedRun(steps: seq<Step>)
    requires forall i :: 0 <= i < |steps| ==> Possible(steps[i]) && Closed(steps[i])
    ensures OnlyRequested(Run(START, steps).log)
    decreases |steps|
  {
    if steps != [] {
      ClosedRun(steps[..|steps| - 1]);
      ClosedStep(Run(START, steps[..|steps| - 1]), steps[|steps| - 1]);
    }
  }

  /** If no policy lets unrequested replies through, nobody ever gets more replies to a call than calls it made, nor sees a reply meant for others. */
  lemma RepliesHaveCalls(steps: seq<Step>, g: Conn, r: Conn, serial: nat)
    requires forall i :: 0 <= i < |steps| ==> Possible(steps[i]) && Closed(steps[i])
    ensures var log := Run(START, steps).log;
            && Replies(log, g, r, serial) <= Calls(log, g, r, serial)
            && forall d :: d in log && d.m.replySerial != 0 ==> d.requested && d.addressed
  {
    RequestedRepliesHaveCalls(steps);
    ClosedRun(steps);
    var st := Run(START, steps);
    AllRequested(st.log, g, r, serial);
    assert Balance(st.log, st.replies, g, r, serial) <= 0;
  }
}
