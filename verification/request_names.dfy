/**
 A whole RequestName: the checks, the change of owners, and the messages that were waiting for the service
 (bus/services.c:532-770, bus/driver.c:559-620, bus/dispatch.c:331-362).
 */
module RequestNames {
  import opened BusTypes
  import opened OwnerQueues
  import opened NameRegistry
  import opened UniqueNames
  import RR = RegistryRuns
  import OI = OwnerIndex
  import AA = ActivationAnswers
  import R = PendingReplies
  import D = Dispatch
  import P = Policy

  datatype Daemon = Daemon(registry: State, activation: AA.State)

  /** The names that have an owner are the same for both parts. */
  ghost predicate Linked(d: Daemon) { d.activation.active == d.registry.services.Keys }

  /** A reply code, the error of a check, or the error of a message that waited for the service and is refused. */
  datatype Reply = Code(code: RequestReply) | Refused(error: RR.Error) | WaitingRefused

  /** What the request is about, and what the code outside the model says to it. */
  datatype Call = Call(c: Conn, n: Name, f: Flags, checks: RR.Checks, maxServices: int)

  function QueueAfter(services: map<Name, Queue>, x: Call): Queue { Request(QueueOf(services, x.n), x.c, x.f).0 }

  /** Who the waiting messages are for: the primary owner after the change. */
  function Recipient(services: map<Name, Queue>, x: Call): Conn {
    var q := QueueAfter(services, x);
    if q == [] then x.c else q[0].conn
  }

  function NewQueue(d: Daemon, x: Call): Queue { QueueAfter(d.registry.services, x) }
  function PrimaryAfter(d: Daemon, x: Call): Conn { Recipient(d.registry.services, x) }

  function Refusal(d: Daemon, x: Call): Option<RR.Error>
    requires x.c in d.registry.clients
  {
    RR.RequestRefusal(d.registry.clients[x.c], x.n, x.checks, x.maxServices)
  }

  ghost predicate Possible(d: Daemon, x: Call, w: D.World) {
    && Inv(d.registry) && Linked(d) && Active(d.registry.clients, x.c)
    && (x.n in d.activation.waiting ==> AA.PeersKnown(w, PrimaryAfter(d, x), d.activation.waiting[x.n].entries, d.activation.connected))
  }

  /** One of the messages waiting for the service is refused by the security check. */
  ghost predicate MessageRefused(d: Daemon, x: Call, w: D.World, s: R.InTxn, content: int -> D.Incoming)
    requires Possible(d, x, w)
  {
    x.n in d.activation.waiting &&
      AA.Forward(content, w, PrimaryAfter(d, x), d.activation.waiting[x.n].entries, d.activation.connected, s).refused
  }

  /** Once the checks are passed the change is made, and executed, even if the reply is an error. */
  ghost function HandleRequest(d: Daemon, x: Call, w: D.World, s: R.InTxn, content: int -> D.Incoming): (Daemon, Reply)
    requires Possible(d, x, w)
  {
    if Refusal(d, x).Some? then (d, Refused(Refusal(d, x).value))
    else
      (Daemon(RR.DoRequest(d.registry, x.c, x.n, x.f), AA.DoAppear(d.activation, x.n, PrimaryAfter(d, x), w, s, content)),
       if MessageRefused(d, x, w, s, content) then WaitingRefused
       else Code(Request(QueueOf(d.registry.services, x.n), x.c, x.f).1))
  }

  lemma NewQueueFacts(d: Daemon, x: Call)
    requires Inv(d.registry)
    ensures WellFormed(NewQueue(d, x)) && Primary(NewQueue(d, x)) == Some(PrimaryAfter(d, x))
  {
    RequestFacts(QueueOf(d.registry.services, x.n), x.c, x.f);
  }

  /** The registry stays sound and both parts keep agreeing on the names with an owner. */
  lemma RequestKeepsDaemon(d: Daemon, x: Call, w: D.World, s: R.InTxn, content: int -> D.Incoming)
    requires Possible(d, x, w)
    ensures var d' := HandleRequest(d, x, w, s, content).0; Inv(d'.registry) && Linked(d')
  {
    NewQueueFacts(d, x);
    if Refusal(d, x).None? {
      RR.RequestKeepsInv(d.registry, x.c, x.n, x.f);
    }
  }

  lemma SetQueueIdentity(st: State, n: Name, q: Queue)
    requires n in st.services ==> st.services[n] != []
    ensures SetQueue(st, n, q) == st <==> q == QueueOf(st.services, n)
  {
    if q == QueueOf(st.services, n) {
      OI.SetQueueSame(st, n);
    } else {
      OI.QueueOfPut(st.services, n, q);
    }
  }

  lemma PrimaryStaysIff(q: Queue, c: Conn, f: Flags)
    requires q == [] || WellFormed(q)
    ensures Primary(Request(q, c, f).0) == Primary(q) <==> q != [] && (q[0].conn == c || !Replaces(q, f))
  {
    if q != [] && q[0].conn != c {
      PutOwnerFacts(q, c, f);
    }
  }

  /**
   A request is answered with an error if and only if a check turns it down or a message that waited for
   the service is refused. An error reply means that nothing happened to the registry if and only if it
   comes from those checks, or the caller asked for what it already had. No signals are sent if and only
   if it comes from those checks, or the caller is the primary owner or may not replace it.
   */
  lemma ErrorLeavesAloneIff(d: Daemon, x: Call, w: D.World, s: R.InTxn, content: int -> D.Incoming)
    requires Possible(d, x, w)
    ensures var (d', reply) := HandleRequest(d, x, w, s, content);
            var q := QueueOf(d.registry.services, x.n);
            && (!reply.Code? <==> Refusal(d, x).Some? || MessageRefused(d, x, w, s, content))
            && (!reply.Code? ==>
                  && (d'.registry == d.registry <==> Refusal(d, x).Some? || OI.AsksForNothing(q, x.c, x.f))
                  && (d'.registry.log == d.registry.log <==> Refusal(d, x).Some? || (q != [] && (q[0].conn == x.c || !Replaces(q, x.f))))
                  && (Refusal(d, x).Some? ==> d' == d))
  {
    var q := QueueOf(d.registry.services, x.n);
    SetQueueIdentity(d.registry, x.n, NewQueue(d, x));
    NewQueueFacts(d, x);
    OI.RequestUnchangedIff(q, x.c, x.f);
    PrimaryStaysIff(q, x.c, x.f);
  }

  /** In particular, a request for a name without owner that fails because of a waiting message makes the caller its owner all the same. */
  lemma RefusedAndOwned(d: Daemon, x: Call, w: D.World, s: R.InTxn, content: int -> D.Incoming)
    requires Possible(d, x, w) && x.n !in d.registry.services && HandleRequest(d, x, w, s, content).1.WaitingRefused?
    ensures var st := HandleRequest(d, x, w, s, content).0.registry;
            && x.n in st.services && st.services[x.n] == [NewOwner(x.c, x.f)]
            && NameAcquired(x.c, x.n) in st.log
  {
    var sent := ChangeSignals(d.registry.clients, x.n, None, Some(x.c));
    assert sent[|sent| - 1] == NameAcquired(x.c, x.n);
    assert NameAcquired(x.c, x.n) in sent;
  }

  // ----- a request that fails and succeeds

  const CALLERS: seq<RR.Step> := [RR.Connect(0), RR.Hello(0, RR.Registered), RR.Connect(2), RR.Hello(2, RR.Registered)]
  const REQUEST: Call := Call(0, AA.SERVICE, NO_FLAGS, RR.Checks(true, true, true), 8)

  /** Connection 2, whose message waits, may not send anything. */
  const MUTE_SENDER: D.World := D.World(map[0 := D.OPEN_RULES, 2 := []], map[":1.0" := {0}, ":1.1" := {2}, AA.SERVICE := {0}], 8)
  const NO_LICENCES: R.InTxn := R.InTxn([], 0, [])

  /** Both connections get their names, then a message of 2 to the service starts it. */
  const ASKED: seq<AA.Step> :=
    [AA.Appear(":1.0", 0, MUTE_SENDER, NO_LICENCES), AA.Appear(":1.1", 2, MUTE_SENDER, NO_LICENCES),
     AA.Ask(AA.SERVICE, AA.AUTO, Some("x"), false, AA.Spawned)]

  function Content(m: int): D.Incoming { AA.CALL }

  /** What a completed Hello does. */
  lemma HelloEffect(st: State, c: Conn, max: int)
    requires st.counters.Valid() && !st.counters.Exhausted() && c in st.clients && !Active(st.clients, c)
    requires st.counters.NextName() !in st.services
    ensures var st' := RR.Apply(st, RR.Hello(c, RR.Registered), max);
            && st'.services == st.services[st.counters.NextName() := [NewOwner(c, NO_FLAGS)]] && st'.counters == st.counters.Issue()
            && st'.clients.Keys == st.clients.Keys && Active(st'.clients, c) && st'.clients[c].nOwned == st.clients[c].nOwned + 1
            && forall d :: d in st.clients && d != c ==> st'.clients[d] == st.clients[d]
  {
    var q := [NewOwner(c, NO_FLAGS)];
    assert q[0] in q;
  }

  lemma FourSteps(st: State, a: RR.Step, b: RR.Step, c: RR.Step, d: RR.Step, max: int)
    requires st.counters.Valid()
    ensures RR.Run(st, [a, b, c, d], max) == RR.Apply(RR.Apply(RR.Apply(RR.Apply(st, a, max), b, max), c, max), d, max)
  {
    var st1 := RR.Apply(st, a, max);
    var st2 := RR.Apply(st1, b, max);
    var st3 := RR.Apply(st2, c, max);
    assert [a, b, c, d][1..] == [b, c, d] && [b, c, d][1..] == [c, d] && [c, d][1..] == [d] && [d][1..] == [];
    assert RR.Run(st3, [d], max) == RR.Run(RR.Apply(st3, d, max), [], max);
    assert RR.Run(st2, [c, d], max) == RR.Run(st3, [d], max);
    assert RR.Run(st1, [b, c, d], max) == RR.Run(st2, [c, d], max);
  }

  lemma FirstNames()
    ensures INITIAL.NextName() == ":1.0" && INITIAL.Issue().NextName() == ":1.1"
    ensures INITIAL.Valid() && !INITIAL.Exhausted() && INITIAL.Issue().Valid() && !INITIAL.Issue().Exhausted()
  {
    assert Decimal(1) == "1" && Decimal(0) == "0";
    assert INITIAL.Issue() == Counters(1, 1);
  }

  lemma CallersRegistered()
    ensures var st := RR.Run(INIT, CALLERS, 8);
            && Inv(st) && st.services.Keys == {":1.0", ":1.1"} && Active(st.clients, 0) && Active(st.clients, 2) && st.clients[0].nOwned == 1
  {
    RR.InitInv();
    RR.RunKeepsInv(INIT, CALLERS, 8);
    FirstNames();
    var st1 := RR.Apply(INIT, RR.Connect(0), 8);
    HelloEffect(st1, 0, 8);
    var st2 := RR.Apply(st1, RR.Hello(0, RR.Registered), 8);
    var st3 := RR.Apply(st2, RR.Connect(2), 8);
    HelloEffect(st3, 2, 8);
    FourSteps(INIT, RR.Connect(0), RR.Hello(0, RR.Registered), RR.Connect(2), RR.Hello(2, RR.Registered), 8);
  }

  lemma MessageWaits()
    ensures AA.PossibleRun(AA.Start({0, 2}), ASKED, Content)
    ensures AA.Run(AA.Start({0, 2}), ASKED, Content) ==
            AA.State(map[AA.SERVICE := AA.Record("x", [AA.AUTO])], {":1.0", ":1.1"}, {0, 2}, map[1 := 2], [])
  {
    var st0 := AA.Start({0, 2});
    var st1 := AA.Apply(st0, ASKED[0], Content);
    var st2 := AA.Apply(st1, ASKED[1], Content);
    var st3 := AA.Apply(st2, ASKED[2], Content);
    assert st2 == AA.State(map[], {":1.0", ":1.1"}, {0, 2}, map[], []);
    assert st3 == AA.State(map[AA.SERVICE := AA.Record("x", [AA.AUTO])], {":1.0", ":1.1"}, {0, 2}, map[1 := 2], []);
    AA.OneStep(st2, ASKED[2], Content);
    assert ASKED[1..][1..] == [ASKED[2]] && ASKED[1..][0] == ASKED[1];
    assert AA.PossibleRun(st1, ASKED[1..], Content) && AA.Run(st1, ASKED[1..], Content) == st3;
  }

  lemma MuteRefused()
    ensures AA.Forward(Content, MUTE_SENDER, 0, [AA.AUTO], {0, 2}, NO_LICENCES).refused
  {
    var x := AA.Letter(Content, AA.AUTO, 0);
    assert !D.MaySend(MUTE_SENDER, x, 0, false);
    assert !D.Check(MUTE_SENDER, x, 0, NO_LICENCES).allowed;
  }

  lemma RequestRefused(st: State, a: AA.State)
    requires Inv(st) && st.services.Keys == {":1.0", ":1.1"} && Active(st.clients, 0) && st.clients[0].nOwned == 1
    requires a == AA.State(map[AA.SERVICE := AA.Record("x", [AA.AUTO])], {":1.0", ":1.1"}, {0, 2}, map[1 := 2], [])
    ensures var d := Daemon(st, a);
            && Possible(d, REQUEST, MUTE_SENDER)
            && var r := HandleRequest(d, REQUEST, MUTE_SENDER, NO_LICENCES, Content);
               && r.1 == WaitingRefused
               && AA.SERVICE in r.0.registry.services && r.0.registry.services[AA.SERVICE] == [NewOwner(0, NO_FLAGS)]
               && NameAcquired(0, AA.SERVICE) in r.0.registry.log
  {
    var d := Daemon(st, a);
    assert AA.SERVICE !in st.services && PrimaryAfter(d, REQUEST) == 0;
    MuteRefused();
    RefusedAndOwned(d, REQUEST, MUTE_SENDER, NO_LICENCES, Content);
  }

  /**
   Connection 0, which may own the name, asks for it while a message is waiting for it; the message is refused,
   the reply is an error, and the name is the connection's.
   */
  lemma ErrorReplyAndOwner()
    ensures P.Verdict(MUTE_SENDER.rules[0], r => P.OwnApplies(r, AA.SERVICE)) && AA.PossibleRun(AA.Start({0, 2}), ASKED, Content)
    ensures var d := Daemon(RR.Run(INIT, CALLERS, 8), AA.Run(AA.Start({0, 2}), ASKED, Content));
            && Possible(d, REQUEST, MUTE_SENDER)
            && var r := HandleRequest(d, REQUEST, MUTE_SENDER, NO_LICENCES, Content);
               && r.1 == WaitingRefused
               && AA.SERVICE in r.0.registry.services && r.0.registry.services[AA.SERVICE] == [NewOwner(0, NO_FLAGS)]
               && NameAcquired(0, AA.SERVICE) in r.0.registry.log
  {
    D.OpenAllows(AA.SERVICE, AA.CALL.m, D.ContextFor(MUTE_SENDER, AA.CALL, 0, false));
    CallersRegistered();
    MessageWaits();
    RequestRefused(RR.Run(INIT, CALLERS, 8), AA.Run(AA.Start({0, 2}), ASKED, Content));
  }
}
