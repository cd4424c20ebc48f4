/**
 What becomes of each request to start a service: when it is answered, and when it is answered twice or
 never (bus/activation.c:1012-1209, 1571-1915; bus/dispatch.c:331-362).
 */
module ActivationAnswers {
  import opened BusTypes
  import opened ListFacts
  import A = Activations
  import R = PendingReplies
  import D = Dispatch

  type Entry = A.Entry

  // ----- the waiting requests of one service

  /** The entries for which `p` holds, in order. */
  function Keep(entries: seq<Entry>, p: Entry -> bool): seq<Entry> {
    if entries == [] then []
    else if p(entries[0]) then [entries[0]] + Keep(entries[1..], p)
    else Keep(entries[1..], p)
  }

  /** The requests answered directly when the service appears: explicit ones from connections still there. */
  function Replied(entries: seq<Entry>, connected: set<Conn>): seq<Entry> {
    Keep(entries, (e: Entry) => e.conn in connected && !e.auto)
  }

  /** The messages that caused an activation and can be delivered now. */
  function Deliverable(entries: seq<Entry>, connected: set<Conn>): seq<Entry> {
    Keep(entries, (e: Entry) => e.conn in connected && e.auto)
  }

  /** The requests that hear of a failure. */
  function StillThere(entries: seq<Entry>, connected: set<Conn>): seq<Entry> {
    Keep(entries, (e: Entry) => e.conn in connected)
  }

  /** The message waiting in an entry, now that its destination has an owner. */
  function Letter(content: int -> D.Incoming, e: Entry, owner: Conn): D.Incoming {
    content(e.message).(sender := e.conn, addressed := Some(owner), matches := [])
  }

  ghost predicate PeersKnown(w: D.World, owner: Conn, entries: seq<Entry>, connected: set<Conn>) {
    owner in w.rules && forall e :: e in entries && e.conn in connected ==> e.conn in w.rules
  }

  /** The messages put into the transaction, whether one was refused, and the licences after that. */
  datatype Forwarding = Forwarding(sent: seq<Entry>, refused: bool, s: R.InTxn)

  /**
   `bus_activation_send_pending_auto_activation_messages` on the entries: the first message that is refused
   ends it, and what was put into the transaction before stays there, licences included.
   */
  ghost function Forward(content: int -> D.Incoming, w: D.World, owner: Conn, entries: seq<Entry>, connected: set<Conn>, s: R.InTxn): Forwarding
    requires PeersKnown(w, owner, entries, connected)
    decreases |entries|
  {
    if entries == [] then Forwarding([], false, s)
    else
      var e, rest := entries[0], entries[1..];
      if !(e.conn in connected && e.auto) then Forward(content, w, owner, rest, connected, s)
      else
        var v := D.Check(w, Letter(content, e, owner), owner, s);
        if !v.allowed then Forwarding([], true, v.s)
        else
          var f := Forward(content, w, owner, rest, connected, v.s);
          f.(sent := [e] + f.sent)
  }

  lemma {:induction false} ForwardFacts(content: int -> D.Incoming, w: D.World, owner: Conn, entries: seq<Entry>, connected: set<Conn>, s: R.InTxn)
    requires PeersKnown(w, owner, entries, connected)
    ensures var f := Forward(content, w, owner, entries, connected, s);
            && f.sent <= Deliverable(entries, connected)
            && (!f.refused ==> f.sent == Deliverable(entries, connected))
            && (f.refused ==> f.sent != Deliverable(entries, connected))
    decreases |entries|
  {
    if entries != [] {
      var e := entries[0];
      if e.conn in connected && e.auto {
        ForwardFacts(content, w, owner, entries[1..], connected, D.Check(w, Letter(content, e, owner), owner, s).s);
      } else {
        ForwardFacts(content, w, owner, entries[1..], connected, s);
      }
    }
  }

  /** The delivery of a waiting message to the owner of the name. */
  predicate DeliveryOf(d: D.Delivery, content: int -> D.Incoming, e: Entry, owner: Conn) {
    var x := content(e.message);
    d.to == owner && d.sender == e.conn && d.m == x.m && d.serial == x.serial && d.addressed
  }

  /** A waiting message is dispatched like one that has just arrived for its recipient alone. */
  lemma LetterIsStep(content: int -> D.Incoming, w: D.World, owner: Conn, e: Entry, s: R.InTxn, st: D.State)
    requires e.conn in w.rules && owner in w.rules && st.replies == s.list && st.nextId == s.nextId
    ensures var x, step := Letter(content, e, owner), D.Executed(w, Letter(content, e, owner), 1);
            var v := D.Check(w, x, owner, s);
            && D.Possible(step)
            && D.Run(st, [step]) ==
               D.State(v.s.list, v.s.nextId, st.log + if v.allowed then [D.Delivery(owner, e.conn, x.m, x.serial, true, v.requested)] else [])
  {
    var x, step := Letter(content, e, owner), D.Executed(w, Letter(content, e, owner), 1);
    var s0 := R.InTxn(st.replies, st.nextId, []);
    D.CheckIgnoresHooks(w, x, owner, s0, s.hooks);
    assert s == s0.(hooks := s.hooks);
    assert [step][..0] == [] && D.Run(st, []) == st;
    assert x.matches[..0] == [];
    assert D.Run(st, [step]) == D.Apply(st, step);
  }

  ghost predicate AllPossible(done: seq<D.Step>) { forall i :: 0 <= i < |done| ==> D.Possible(done[i]) }

  ghost predicate DeliveriesOf(delivered: seq<D.Delivery>, content: int -> D.Incoming, sent: seq<Entry>, owner: Conn) {
    |delivered| == |sent| && forall i :: 0 <= i < |sent| ==> DeliveryOf(delivered[i], content, sent[i], owner)
  }

  /** The steps `done` make the changes of a forwarding: its licences, and a delivery of every message sent. */
  ghost predicate ForwardedBy(done: seq<D.Step>, delivered: seq<D.Delivery>, content: int -> D.Incoming, owner: Conn, st: D.State, f: Forwarding) {
    && AllPossible(done)
    && D.Run(st, done) == D.State(f.s.list, f.s.nextId, st.log + delivered)
    && DeliveriesOf(delivered, content, f.sent, owner)
  }

  lemma DeliveredFirst(d: D.Delivery, more: seq<D.Delivery>, content: int -> D.Incoming, e: Entry, sent: seq<Entry>, owner: Conn)
    requires DeliveryOf(d, content, e, owner) && DeliveriesOf(more, content, sent, owner)
    ensures DeliveriesOf([d] + more, content, [e] + sent, owner)
  {
  }

  lemma LogFirst(log: seq<D.Delivery>, d: D.Delivery, more: seq<D.Delivery>)
    ensures (log + [d]) + more == log + ([d] + more)
  {
  }

  lemma RunThrough(st: D.State, first: seq<D.Step>, st1: D.State, rest: seq<D.Step>, end: D.State)
    requires AllPossible(first) && AllPossible(rest) && D.Run(st, first) == st1 && D.Run(st1, rest) == end
    ensures AllPossible(first + rest) && D.Run(st, first + rest) == end
  {
    D.RunConcat(st, first, rest);
  }

  lemma ForwardedFirst(content: int -> D.Incoming, owner: Conn, e: Entry, st: D.State, first: seq<D.Step>, d: D.Delivery, st1: D.State,
                       rest: seq<D.Step>, more: seq<D.Delivery>, f: Forwarding)
    requires AllPossible(first) && D.Run(st, first) == st1 && st1.log == st.log + [d] && DeliveryOf(d, content, e, owner)
    requires ForwardedBy(rest, more, content, owner, st1, f)
    ensures ForwardedBy(first + rest, [d] + more, content, owner, st, f.(sent := [e] + f.sent))
  {
    DeliveredFirst(d, more, content, e, f.sent, owner);
    var end := D.State(f.s.list, f.s.nextId, st1.log + more);
    LogFirst(st.log, d, more);
    RunThrough(st, first, st1, rest, end);
  }

  /**
   What forwarding the waiting messages does to licences and deliveries is a sequence of steps of the
   dispatch runs, one for each message up to the refused one.
   */
  lemma {:induction false} ForwardIsSteps(content: int -> D.Incoming, w: D.World, owner: Conn, entries: seq<Entry>, connected: set<Conn>,
                                          s: R.InTxn, st: D.State) returns (done: seq<D.Step>, delivered: seq<D.Delivery>)
    requires PeersKnown(w, owner, entries, connected) && st.replies == s.list && st.nextId == s.nextId
    ensures ForwardedBy(done, delivered, content, owner, st, Forward(content, w, owner, entries, connected, s))
    decreases |entries|
  {
    done, delivered := [], [];
    assert st.log + [] == st.log && D.Run(st, []) == st;
    if entries != [] {
      var e := entries[0];
      if e.conn in connected && e.auto {
        var x := Letter(content, e, owner);
        var step, v := D.Executed(w, x, 1), D.Check(w, x, owner, s);
        LetterIsStep(content, w, owner, e, s, st);
        done := [step];
        if v.allowed {
          var d := D.Delivery(owner, e.conn, x.m, x.serial, true, v.requested);
          var st1 := D.State(v.s.list, v.s.nextId, st.log + [d]);
          var rest, more := ForwardIsSteps(content, w, owner, entries[1..], connected, v.s, st1);
          ForwardedFirst(content, owner, e, st, [step], d, st1, rest, more, Forward(content, w, owner, entries[1..], connected, v.s));
          done, delivered := [step] + rest, [d] + more;
        }
      } else {
        done, delivered := ForwardIsSteps(content, w, owner, entries[1..], connected, s, st);
      }
    }
  }

  // ----- runs

  /** What a client gets for a request: a reply, its message delivered, or an error. */
  datatype Answer = Answer(message: int, how: How)
  datatype How = Started | AlreadyRunning | Delivered(to: Conn) | Failed

  datatype Record = Record(exec: string, entries: seq<Entry>)

  /**
   The pending activations, the names that have an owner, the connections that are there, the sender of
   every request made so far, and the answers.
   */
  datatype State = State(waiting: map<Name, Record>, active: set<Name>, connected: set<Conn>, senders: map<int, Conn>, log: seq<Answer>)

  /** How starting the program goes: it runs, its command line makes no sense, or it cannot be started. */
  datatype Spawn = Spawned | BadCommand | NotSpawned

  datatype Step =
    /** A request is dispatched; `exec` is the command of the service file, if there is one, and `limited` says that too many are waiting. */
    | Ask(n: Name, e: Entry, exec: Option<string>, limited: bool, spawn: Spawn)
    /** The same with memory running out, after the request was entered or before. */
    | AskCancelled(n: Name, e: Entry, entered: bool)
    /** A RequestName for `n` is executed, after which `owner` is the primary owner; `s` are the licences then. */
    | Appear(n: Name, owner: Conn, w: D.World, s: R.InTxn)
    /** The last owner gives the name up. */
    | Release(n: Name)
    /** The activation times out or its program exits. */
    | Fail(n: Name)
    | Leave(c: Conn)

  function Answers(entries: seq<Entry>, how: How): seq<Answer> {
    if entries == [] then [] else [Answer(entries[0].message, how)] + Answers(entries[1..], how)
  }

  /** The sender of a request hears about it if it is still there. */
  function Tell(st: State, e: Entry, how: How): State {
    if e.conn in st.connected then st.(log := st.log + [Answer(e.message, how)]) else st
  }

  /** A message is dispatched once, and one to a name that has an owner is not a request to start it. */
  predicate IsRequest(st: State, n: Name, e: Entry) { e.message !in st.senders && !(e.auto && n in st.active) }

  /** The program is started for the first of the services it provides. */
  predicate NeedsSpawn(st: State, n: Name, exec: string) {
    n !in st.waiting && forall k :: k in st.waiting ==> st.waiting[k].exec != exec
  }

  function Enter(st: State, n: Name, e: Entry, exec: string): State {
    st.(waiting := st.waiting[n := if n in st.waiting then Record(st.waiting[n].exec, st.waiting[n].entries + [e]) else Record(exec, [e])])
  }

  function DoAsk(st: State, n: Name, e: Entry, exec: Option<string>, limited: bool, spawn: Spawn): State {
    var st1 := st.(senders := st.senders[e.message := e.conn]);
    if limited || exec.None? then Tell(st1, e, Failed)
    else if !e.auto && n in st.active then Tell(st1, e, AlreadyRunning)
    else if !NeedsSpawn(st, n, exec.value) || spawn == Spawned then Enter(st1, n, e, exec.value)
    else if spawn == BadCommand then Tell(st1, e, Failed)
    else Tell(Enter(st1, n, e, exec.value), e, Failed)
  }

  /** Cancelling a request that was entered takes the record with it. */
  function DoAskCancelled(st: State, n: Name, e: Entry, entered: bool): State {
    var st1 := st.(senders := st.senders[e.message := e.conn]);
    Tell(if entered && !(!e.auto && n in st.active) then st1.(waiting := st1.waiting - {n}) else st1, e, Failed)
  }

  ghost function DoAppear(st: State, n: Name, owner: Conn, w: D.World, s: R.InTxn, content: int -> D.Incoming): State
    requires n in st.waiting ==> PeersKnown(w, owner, st.waiting[n].entries, st.connected)
  {
    var st1 := st.(active := st.active + {n});
    if n !in st.waiting then st1
    else
      var entries := st.waiting[n].entries;
      var replied := if n in st.active then [] else Replied(entries, st.connected);
      var f := Forward(content, w, owner, entries, st.connected, s);
      st1.(waiting := if f.refused then st.waiting else st.waiting - {n},
           log := st.log + Answers(replied, Started) + Answers(f.sent, Delivered(owner)))
  }

  function DoFail(st: State, n: Name): State {
    if n !in st.waiting then st
    else st.(waiting := st.waiting - {n}, log := st.log + Answers(StillThere(st.waiting[n].entries, st.connected), Failed))
  }

  ghost predicate Possible(st: State, step: Step) {
    step.Appear? && step.n in st.waiting ==> PeersKnown(step.w, step.owner, st.waiting[step.n].entries, st.connected)
  }

  ghost function Apply(st: State, step: Step, content: int -> D.Incoming): State
    requires Possible(st, step)
  {
    match step
    case Ask(n, e, exec, limited, spawn) => if IsRequest(st, n, e) then DoAsk(st, n, e, exec, limited, spawn) else st
    case AskCancelled(n, e, entered) => if IsRequest(st, n, e) then DoAskCancelled(st, n, e, entered) else st
    case Appear(n, owner, w, s) => DoAppear(st, n, owner, w, s, content)
    case Release(n) => st.(active := st.active - {n})
    case Fail(n) => DoFail(st, n)
    case Leave(c) => st.(connected := st.connected - {c})
  }

  // ----- counting answers

  function Count(log: seq<Answer>, m: int): nat {
    if log == [] then 0 else (if log[0].message == m then 1 else 0) + Count(log[1..], m)
  }

  function Find(entries: seq<Entry>, m: int): Option<Entry> {
    if entries == [] then None
    else if entries[0].message == m then Some(entries[0])
    else Find(entries[1..], m)
  }

  predicate Distinct(entries: seq<Entry>) {
    entries == [] || (Find(entries[1..], entries[0].message).None? && Distinct(entries[1..]))
  }

  lemma {:induction false} CountConcat(a: seq<Answer>, b: seq<Answer>, m: int)
    ensures Count(a + b, m) == Count(a, m) + Count(b, m)
  {
    if a == [] {
      assert a + b == b;
    } else {
      assert (a + b)[1..] == a[1..] + b;
      CountConcat(a[1..], b, m);
    }
  }

  lemma {:induction false} FindFacts(entries: seq<Entry>, m: int)
    ensures Find(entries, m).Some? ==> Find(entries, m).value in entries && Find(entries, m).value.message == m
    ensures Find(entries, m).None? ==> forall e :: e in entries ==> e.message != m
    ensures Distinct(entries) ==> forall e :: e in entries && e.message == m ==> Find(entries, m) == Some(e)
  {
    if entries != [] {
      FindFacts(entries[1..], m);
      assert entries == [entries[0]] + entries[1..];
    }
  }

  lemma {:induction false} FindSnoc(entries: seq<Entry>, e: Entry, m: int)
    ensures Find(entries + [e], m) == if Find(entries, m).Some? then Find(entries, m) else if e.message == m then Some(e) else None
    ensures Distinct(entries) && Find(entries, e.message).None? ==> Distinct(entries + [e])
  {
    if entries == [] {
      assert entries + [e] == [e] && [e][1..] == [];
    } else {
      assert (entries + [e])[1..] == entries[1..] + [e];
      FindSnoc(entries[1..], e, m);
      FindSnoc(entries[1..], e, entries[0].message);
    }
  }

  /** Among distinct requests, each one kept is answered once and no other. */
  lemma {:induction false} AnswersToKept(entries: seq<Entry>, p: Entry -> bool, how: How, m: int)
    requires Distinct(entries)
    ensures Count(Answers(Keep(entries, p), how), m) == if Find(entries, m).Some? && p(Find(entries, m).value) then 1 else 0
  {
    if entries != [] {
      AnswersToKept(entries[1..], p, how, m);
      var rest := Keep(entries[1..], p);
      if p(entries[0]) {
        assert ([entries[0]] + rest)[1..] == rest;
        assert Answers([entries[0]] + rest, how)[1..] == Answers(rest, how);
      }
    }
  }

  lemma {:induction false} KeepMembers(entries: seq<Entry>, p: Entry -> bool)
    ensures forall e :: e in Keep(entries, p) <==> e in entries && p(e)
  {
    if entries != [] {
      KeepMembers(entries[1..], p);
      assert entries == [entries[0]] + entries[1..];
    }
  }

  // ----- what every run keeps

  /** The request waits in the record of `n`. */
  predicate WaitsFor(st: State, n: Name, m: int) { n in st.waiting && Find(st.waiting[n].entries, m).Some? }

  ghost predicate Waits(st: State, m: int) { exists n :: WaitsFor(st, n, m) }

  /** Every waiting request is known, with its sender, and waits in one place; nothing else is answered. */
  ghost predicate WellKept(st: State) {
    && (forall n :: n in st.waiting ==> Distinct(st.waiting[n].entries))
    && (forall n, m :: WaitsFor(st, n, m) ==> m in st.senders && Find(st.waiting[n].entries, m).value.conn == st.senders[m])
    && (forall n, k, m :: WaitsFor(st, n, m) && WaitsFor(st, k, m) ==> n == k)
    && (forall m :: m !in st.senders ==> Count(st.log, m) == 0)
  }

  /** A request that waits has no answer yet; one that does not has exactly one, unless its sender went away first. */
  ghost predicate TidyFor(st: State, m: int)
    requires m in st.senders
  {
    if Waits(st, m) then Count(st.log, m) == 0
    else Count(st.log, m) == 1 || (Count(st.log, m) == 0 && st.senders[m] !in st.connected)
  }

  ghost predicate Tidy(st: State) { forall m :: m in st.senders ==> TidyFor(st, m) }

  predicate AnyExplicit(entries: seq<Entry>, connected: set<Conn>) { exists e :: e in entries && e.conn in connected && !e.auto }

  /** Nobody waits for the reply that a service with an owner no longer gives. */
  ghost predicate Clean(st: State) {
    && WellKept(st) && Tidy(st)
    && forall n :: n in st.waiting && n in st.active ==> !AnyExplicit(st.waiting[n].entries, st.connected)
  }

  /**
   The steps after which some request has been answered and still waits, or is lost: the program could not be
   started; a cancelled request takes the record it joined with it; or a waiting message is refused when the
   service appears, after other requests of the record were answered.
   */
  ghost predicate Spoils(st: State, step: Step, content: int -> D.Incoming)
    requires Possible(st, step)
  {
    match step
    case Ask(n, e, exec, limited, spawn) =>
      && IsRequest(st, n, e) && !limited && exec.Some? && (e.auto || n !in st.active)
      && NeedsSpawn(st, n, exec.value) && spawn == NotSpawned && e.conn in st.connected
    case AskCancelled(n, e, entered) =>
      && IsRequest(st, n, e) && entered && (e.auto || n !in st.active)
      && n in st.waiting && StillThere(st.waiting[n].entries, st.connected) != []
    case Appear(n, owner, w, s) =>
      n in st.waiting &&
        var entries := st.waiting[n].entries;
        var f := Forward(content, w, owner, entries, st.connected, s);
        f.refused && ((n !in st.active && AnyExplicit(entries, st.connected)) || f.sent != [])
    case _ => false
  }

  // ----- records that are settled

  /** `answers` tells exactly the requests of the record whose senders are there, each once. */
  ghost predicate TellsAll(entries: seq<Entry>, connected: set<Conn>, answers: seq<Answer>) {
    forall m :: Count(answers, m) == if Find(entries, m).Some? && Find(entries, m).value.conn in connected then 1 else 0
  }

  /** The record of `n` leaves the table. */
  function Settled(st: State, n: Name, answers: seq<Answer>): State {
    st.(waiting := st.waiting - {n}, log := st.log + answers)
  }

  lemma SettledWaits(st: State, n: Name, answers: seq<Answer>, m: int)
    requires n in st.waiting && WellKept(st)
    ensures Waits(Settled(st, n, answers), m) <==> Waits(st, m) && !WaitsFor(st, n, m)
  {
    var st' := Settled(st, n, answers);
    assert forall k :: WaitsFor(st', k, m) <==> k != n && WaitsFor(st, k, m);
    if Waits(st, m) && !WaitsFor(st, n, m) {
      var k :| WaitsFor(st, k, m);
      assert WaitsFor(st', k, m);
    }
  }

  lemma SettledKept(st: State, n: Name, answers: seq<Answer>)
    requires n in st.waiting && WellKept(st) && TellsAll(st.waiting[n].entries, st.connected, answers)
    ensures WellKept(Settled(st, n, answers))
  {
    var st' := Settled(st, n, answers);
    assert forall k, m :: WaitsFor(st', k, m) ==> WaitsFor(st, k, m) && st'.waiting[k] == st.waiting[k];
    forall m | m !in st.senders
      ensures Count(st'.log, m) == 0
    {
      CountConcat(st.log, answers, m);
      assert !WaitsFor(st, n, m);
    }
  }

  /** Answering everybody who is there and forgetting the record leaves everything tidy. */
  lemma SettledTidy(st: State, n: Name, answers: seq<Answer>)
    requires n in st.waiting && Clean(st) && TellsAll(st.waiting[n].entries, st.connected, answers)
    ensures Clean(Settled(st, n, answers))
  {
    var st' := Settled(st, n, answers);
    SettledKept(st, n, answers);
    forall m | m in st.senders
      ensures TidyFor(st', m)
    {
      assert TidyFor(st, m);
      SettledWaits(st, n, answers, m);
      CountConcat(st.log, answers, m);
      if WaitsFor(st, n, m) { assert Waits(st, m); }
    }
  }

  lemma FailTellsAll(entries: seq<Entry>, connected: set<Conn>)
    requires Distinct(entries)
    ensures TellsAll(entries, connected, Answers(StillThere(entries, connected), Failed))
  {
    forall m
      ensures Count(Answers(StillThere(entries, connected), Failed), m) ==
              if Find(entries, m).Some? && Find(entries, m).value.conn in connected then 1 else 0
    {
      AnswersToKept(entries, (e: Entry) => e.conn in connected, Failed, m);
    }
  }

  lemma FailClean(st: State, n: Name)
    requires Clean(st)
    ensures Clean(DoFail(st, n))
  {
    if n in st.waiting {
      FailTellsAll(st.waiting[n].entries, st.connected);
      SettledTidy(st, n, Answers(StillThere(st.waiting[n].entries, st.connected), Failed));
    }
  }

  // ----- the service appears

  lemma NobodyReplied(entries: seq<Entry>, connected: set<Conn>)
    ensures Replied(entries, connected) == [] <==> !AnyExplicit(entries, connected)
  {
    var p := (e: Entry) => e.conn in connected && !e.auto;
    KeepMembers(entries, p);
    if AnyExplicit(entries, connected) {
      var e :| e in entries && e.conn in connected && !e.auto;
      assert e in Keep(entries, p);
    } else {
      NonEmptyHasElement(Keep(entries, p));
    }
  }

  /** Replying to the explicit requests and delivering all messages tells everybody. */
  lemma AppearTellsAll(entries: seq<Entry>, connected: set<Conn>, owner: Conn)
    requires Distinct(entries)
    ensures TellsAll(entries, connected, Answers(Replied(entries, connected), Started) + Answers(Deliverable(entries, connected), Delivered(owner)))
  {
    forall m
      ensures Count(Answers(Replied(entries, connected), Started) + Answers(Deliverable(entries, connected), Delivered(owner)), m) ==
              if Find(entries, m).Some? && Find(entries, m).value.conn in connected then 1 else 0
    {
      CountConcat(Answers(Replied(entries, connected), Started), Answers(Deliverable(entries, connected), Delivered(owner)), m);
      AnswersToKept(entries, (e: Entry) => e.conn in connected && !e.auto, Started, m);
      AnswersToKept(entries, (e: Entry) => e.conn in connected && e.auto, Delivered(owner), m);
    }
  }

  lemma ActivatedClean(st: State, n: Name)
    requires Clean(st) && (n in st.waiting ==> !AnyExplicit(st.waiting[n].entries, st.connected))
    ensures Clean(st.(active := st.active + {n}))
  {
    var st' := st.(active := st.active + {n});
    assert forall k, m :: WaitsFor(st', k, m) <==> WaitsFor(st, k, m);
    SameWaiting(st, st');
  }

  /** Tidiness is about the waiting requests, their senders and the answers only. */
  lemma SameWaiting(st: State, st': State)
    requires st'.waiting == st.waiting && st'.senders == st.senders && st'.log == st.log && st'.connected <= st.connected
    requires WellKept(st) && Tidy(st)
    ensures WellKept(st') && Tidy(st')
  {
    assert forall n, m :: WaitsFor(st', n, m) <==> WaitsFor(st, n, m);
    forall m | m in st.senders
      ensures TidyFor(st', m)
    {
      assert TidyFor(st, m);
      assert Waits(st', m) <==> Waits(st, m);
    }
  }

  /** What the requests of a record are told when its service appears and nothing is refused. */
  function AppearAnswers(entries: seq<Entry>, connected: set<Conn>, owner: Conn): seq<Answer> {
    Answers(Replied(entries, connected), Started) + Answers(Deliverable(entries, connected), Delivered(owner))
  }

  lemma AllAnsweredClean(st: State, n: Name, owner: Conn)
    requires Clean(st) && n in st.waiting
    ensures Clean(Settled(st, n, AppearAnswers(st.waiting[n].entries, st.connected, owner)).(active := st.active + {n}))
  {
    var answers := AppearAnswers(st.waiting[n].entries, st.connected, owner);
    AppearTellsAll(st.waiting[n].entries, st.connected, owner);
    SettledTidy(st, n, answers);
    ActivatedClean(Settled(st, n, answers), n);
  }

  lemma AppearClean(st: State, n: Name, owner: Conn, w: D.World, s: R.InTxn, content: int -> D.Incoming)
    requires Clean(st) && Possible(st, Appear(n, owner, w, s)) && !Spoils(st, Appear(n, owner, w, s), content)
    ensures Clean(DoAppear(st, n, owner, w, s, content))
  {
    if n !in st.waiting {
      ActivatedClean(st, n);
    } else {
      var entries := st.waiting[n].entries;
      var f := Forward(content, w, owner, entries, st.connected, s);
      ForwardFacts(content, w, owner, entries, st.connected, s);
      NobodyReplied(entries, st.connected);
      var replied := if n in st.active then [] else Replied(entries, st.connected);
      assert replied == if f.refused then [] else Replied(entries, st.connected);
      if f.refused {
        assert DoAppear(st, n, owner, w, s, content) == st.(active := st.active + {n});
        ActivatedClean(st, n);
      } else {
        var answers := AppearAnswers(entries, st.connected, owner);
        AllAnsweredClean(st, n, owner);
        assert st.log + answers == st.log + Answers(replied, Started) + Answers(f.sent, Delivered(owner));
        assert DoAppear(st, n, owner, w, s, content) == Settled(st, n, answers).(active := st.active + {n});
      }
    }
  }

  // ----- a request is made

  function WithSender(st: State, e: Entry): State { st.(senders := st.senders[e.message := e.conn]) }

  /** A request that is answered at once. */
  lemma ToldClean(st: State, e: Entry, how: How)
    requires Clean(st) && e.message !in st.senders
    ensures Clean(Tell(WithSender(st, e), e, how))
  {
    var st' := Tell(WithSender(st, e), e, how);
    assert forall n, m :: WaitsFor(st', n, m) <==> WaitsFor(st, n, m);
    forall m
      ensures Count(st'.log, m) == Count(st.log, m) + if m == e.message && e.conn in st.connected then 1 else 0
    {
      CountConcat(st.log, [Answer(e.message, how)], m);
      assert [Answer(e.message, how)][1..] == [];
    }
    forall m | m in st'.senders
      ensures TidyFor(st', m)
    {
      assert m in st.senders ==> TidyFor(st, m);
      assert Waits(st', m) <==> Waits(st, m);
    }
  }

  lemma EnterWaits(st: State, n: Name, e: Entry, exec: string)
    requires WellKept(st) && e.message !in st.senders
    ensures var st' := Enter(WithSender(st, e), n, e, exec);
            && Distinct(st'.waiting[n].entries)
            && (forall k, m :: WaitsFor(st', k, m) <==> WaitsFor(st, k, m) || (k == n && m == e.message))
            && (forall k, m :: WaitsFor(st, k, m) ==> Find(st'.waiting[k].entries, m) == Find(st.waiting[k].entries, m))
            && Find(st'.waiting[n].entries, e.message) == Some(e)
  {
    var st' := Enter(WithSender(st, e), n, e, exec);
    var entries := if n in st.waiting then st.waiting[n].entries else [];
    assert st'.waiting[n].entries == entries + [e];
    assert !WaitsFor(st, n, e.message);
    FindSnoc(entries, e, e.message);
    forall m
      ensures Find(entries + [e], m) == if Find(entries, m).Some? then Find(entries, m) else if e.message == m then Some(e) else None
    {
      FindSnoc(entries, e, m);
    }
  }

  lemma EnterClean(st: State, n: Name, e: Entry, exec: string)
    requires Clean(st) && e.message !in st.senders && n !in st.active
    ensures Clean(Enter(WithSender(st, e), n, e, exec))
  {
    var st' := Enter(WithSender(st, e), n, e, exec);
    EnterWaits(st, n, e, exec);
    forall m | m in st'.senders
      ensures TidyFor(st', m)
    {
      if m == e.message {
        assert WaitsFor(st', n, m);
      } else {
        assert TidyFor(st, m);
        assert Waits(st', m) <==> Waits(st, m);
      }
    }
  }

  lemma AskClean(st: State, n: Name, e: Entry, exec: Option<string>, limited: bool, spawn: Spawn, content: int -> D.Incoming)
    requires Clean(st) && IsRequest(st, n, e) && !Spoils(st, Ask(n, e, exec, limited, spawn), content)
    ensures Clean(DoAsk(st, n, e, exec, limited, spawn))
  {
    if limited || exec.None? {
      ToldClean(st, e, Failed);
    } else if !e.auto && n in st.active {
      ToldClean(st, e, AlreadyRunning);
    } else if NeedsSpawn(st, n, exec.value) && spawn == BadCommand {
      ToldClean(st, e, Failed);
    } else {
      EnterClean(st, n, e, exec.value);
    }
  }

  lemma AskCancelledClean(st: State, n: Name, e: Entry, entered: bool, content: int -> D.Incoming)
    requires Clean(st) && IsRequest(st, n, e) && !Spoils(st, AskCancelled(n, e, entered), content)
    ensures Clean(DoAskCancelled(st, n, e, entered))
  {
    if entered && (e.auto || n !in st.active) {
      if n in st.waiting {
        FailTellsAll(st.waiting[n].entries, st.connected);
        SettledTidy(st, n, []);
        ToldClean(Settled(st, n, []), e, Failed);
        assert st.log + [] == st.log;
      } else {
        assert st.waiting - {n} == st.waiting;
        ToldClean(st, e, Failed);
      }
    } else {
      ToldClean(st, e, Failed);
    }
  }

  lemma LeaveClean(st: State, c: Conn)
    requires Clean(st)
    ensures Clean(st.(connected := st.connected - {c}))
  {
    SameWaiting(st, st.(connected := st.connected - {c}));
  }

  lemma ApplyClean(st: State, step: Step, content: int -> D.Incoming)
    requires Clean(st) && Possible(st, step) && !Spoils(st, step, content)
    ensures Clean(Apply(st, step, content))
  {
    match step
    case Ask(n, e, exec, limited, spawn) => if IsRequest(st, n, e) { AskClean(st, n, e, exec, limited, spawn, content); }
    case AskCancelled(n, e, entered) => if IsRequest(st, n, e) { AskCancelledClean(st, n, e, entered, content); }
    case Appear(n, owner, w, s) => AppearClean(st, n, owner, w, s, content);
    case Release(n) => SameWaiting(st, st.(active := st.active - {n}));
    case Fail(n) => FailClean(st, n);
    case Leave(c) => LeaveClean(st, c);
  }

  // ----- the steps that spoil it do

  lemma StartFailsTwice(st: State, n: Name, e: Entry, exec: string)
    requires WellKept(st) && e.message !in st.senders && e.conn in st.connected
    ensures !Tidy(Tell(Enter(WithSender(st, e), n, e, exec), e, Failed))
  {
    var st1 := Enter(WithSender(st, e), n, e, exec);
    var st' := Tell(st1, e, Failed);
    EnterWaits(st, n, e, exec);
    CountConcat(st.log, [Answer(e.message, Failed)], e.message);
    assert WaitsFor(st1, n, e.message);
    assert WaitsFor(st', n, e.message);
    assert !TidyFor(st', e.message);
  }

  lemma JoinersAreLost(st: State, n: Name, e: Entry)
    requires Clean(st) && e.message !in st.senders && n in st.waiting && StillThere(st.waiting[n].entries, st.connected) != []
    ensures !Tidy(Tell(WithSender(st, e).(waiting := st.waiting - {n}), e, Failed))
  {
    var entries := st.waiting[n].entries;
    var st' := Tell(WithSender(st, e).(waiting := st.waiting - {n}), e, Failed);
    KeepMembers(entries, (e: Entry) => e.conn in st.connected);
    var x := StillThere(entries, st.connected)[0];
    assert x in StillThere(entries, st.connected);
    FindFacts(entries, x.message);
    var m := x.message;
    assert WaitsFor(st, n, m) && TidyFor(st, m) && Waits(st, m);
    CountConcat(st.log, [Answer(e.message, Failed)], m);
    assert forall k :: !WaitsFor(st', k, m) by {
      assert forall k :: WaitsFor(st', k, m) ==> k != n && WaitsFor(st, k, m);
    }
    assert !TidyFor(st', m);
  }

  lemma {:induction false} AnsweredAtLeastOnce(entries: seq<Entry>, e: Entry, how: How)
    requires e in entries
    ensures Count(Answers(entries, how), e.message) >= 1
  {
    if e != entries[0] {
      assert e in entries[1..];
      AnsweredAtLeastOnce(entries[1..], e, how);
    }
    assert Answers(entries, how)[1..] == Answers(entries[1..], how);
  }

  lemma RefusalLeavesAnswered(st: State, n: Name, owner: Conn, w: D.World, s: R.InTxn, content: int -> D.Incoming)
    requires Clean(st) && Possible(st, Appear(n, owner, w, s)) && Spoils(st, Appear(n, owner, w, s), content)
    ensures !Tidy(DoAppear(st, n, owner, w, s, content))
  {
    var entries, st' := st.waiting[n].entries, DoAppear(st, n, owner, w, s, content);
    var f := Forward(content, w, owner, entries, st.connected, s);
    var replied := if n in st.active then [] else Replied(entries, st.connected);
    ForwardFacts(content, w, owner, entries, st.connected, s);
    NobodyReplied(entries, st.connected);
    var told := replied + f.sent;
    KeepMembers(entries, (e: Entry) => e.conn in st.connected && !e.auto);
    KeepMembers(entries, (e: Entry) => e.conn in st.connected && e.auto);
    var x := told[0];
    assert x in entries;
    var a, b := Answers(replied, Started), Answers(f.sent, Delivered(owner));
    CountConcat(st.log + a, b, x.message);
    CountConcat(st.log, a, x.message);
    if replied != [] { AnsweredAtLeastOnce(replied, x, Started); } else { AnsweredAtLeastOnce(f.sent, x, Delivered(owner)); }
    FindFacts(entries, x.message);
    assert WaitsFor(st, n, x.message) && WaitsFor(st', n, x.message);
    assert x.message in st'.senders && !TidyFor(st', x.message);
  }

  lemma SpoiledNotTidy(st: State, step: Step, content: int -> D.Incoming)
    requires Clean(st) && Possible(st, step) && Spoils(st, step, content)
    ensures !Tidy(Apply(st, step, content))
  {
    match step
    case Ask(n, e, exec, limited, spawn) => StartFailsTwice(st, n, e, exec.value);
    case AskCancelled(n, e, entered) => JoinersAreLost(st, n, e);
    case Appear(n, owner, w, s) => RefusalLeavesAnswered(st, n, owner, w, s, content);
  }

  // ----- runs

  ghost predicate PossibleRun(st: State, steps: seq<Step>, content: int -> D.Incoming)
    decreases |steps|
  {
    steps == [] || (Possible(st, steps[0]) && PossibleRun(Apply(st, steps[0], content), steps[1..], content))
  }

  ghost function Run(st: State, steps: seq<Step>, content: int -> D.Incoming): State
    requires PossibleRun(st, steps, content)
    decreases |steps|
  {
    if steps == [] then st else Run(Apply(st, steps[0], content), steps[1..], content)
  }

  /** At every point of the run. */
  ghost predicate AlwaysTidy(st: State, steps: seq<Step>, content: int -> D.Incoming)
    requires PossibleRun(st, steps, content)
    decreases |steps|
  {
    Tidy(st) && (steps == [] || AlwaysTidy(Apply(st, steps[0], content), steps[1..], content))
  }

  ghost predicate NoneSpoils(st: State, steps: seq<Step>, content: int -> D.Incoming)
    requires PossibleRun(st, steps, content)
    decreases |steps|
  {
    steps == [] || (!Spoils(st, steps[0], content) && NoneSpoils(Apply(st, steps[0], content), steps[1..], content))
  }

  lemma {:induction false} TidyIffNoneSpoils(st: State, steps: seq<Step>, content: int -> D.Incoming)
    requires Clean(st) && PossibleRun(st, steps, content)
    ensures AlwaysTidy(st, steps, content) <==> NoneSpoils(st, steps, content)
    decreases |steps|
  {
    if steps != [] {
      if Spoils(st, steps[0], content) {
        SpoiledNotTidy(st, steps[0], content);
      } else {
        ApplyClean(st, steps[0], content);
        TidyIffNoneSpoils(Apply(st, steps[0], content), steps[1..], content);
      }
    }
  }

  function Start(connected: set<Conn>): State { State(map[], {}, connected, map[], []) }

  /**
   At every point of a run each request has exactly one answer, or none yet if it still waits (or never, if
   its sender left first), if and only if no program failed to start, no cancelled request joined others
   that are still there, and no message was refused when its service appeared after others of the same
   activation had been answered.
   */
  lemma AnsweredOnceIff(connected: set<Conn>, steps: seq<Step>, content: int -> D.Incoming)
    requires PossibleRun(Start(connected), steps, content)
    ensures AlwaysTidy(Start(connected), steps, content) <==> NoneSpoils(Start(connected), steps, content)
    ensures NoneSpoils(Start(connected), steps, content) ==> Tidy(Run(Start(connected), steps, content))
  {
    TidyIffNoneSpoils(Start(connected), steps, content);
    if NoneSpoils(Start(connected), steps, content) { TidyAtEnd(Start(connected), steps, content); }
  }

  lemma {:induction false} TidyAtEnd(st: State, steps: seq<Step>, content: int -> D.Incoming)
    requires PossibleRun(st, steps, content) && AlwaysTidy(st, steps, content)
    ensures Tidy(Run(st, steps, content))
    decreases |steps|
  {
    if steps != [] {
      TidyAtEnd(Apply(st, steps[0], content), steps[1..], content);
    }
  }

  // ----- a request that is answered twice

  const SERVICE: Name := "a.b"
  const EXPLICIT: Entry := A.Entry(1, 0, false)
  const AUTO: Entry := A.Entry(2, 1, true)
  const CALL: D.Incoming := D.Incoming(2, D.Call(SERVICE), 1, false, Timestamp(0, 0), None, [], {}, {})

  /** Connection 2 may not send anything; 3 owns the service. */
  const MUTE_SENDER: D.World := D.World(map[1 := D.OPEN_RULES, 2 := [], 3 := D.OPEN_RULES], map[SERVICE := {3}], 8)

  /** One client asks for a service, another one's message waits for it and is refused: the first one hears of success and, later, of a failure. */
  lemma AnsweredTwice()
    ensures var s := R.InTxn([], 0, []);
            var steps := [Ask(SERVICE, EXPLICIT, Some("x"), false, Spawned), Ask(SERVICE, AUTO, Some("x"), false, Spawned),
                          Appear(SERVICE, 3, MUTE_SENDER, s), Fail(SERVICE)];
            var content := (m: int) => CALL;
            && PossibleRun(Start({1, 2, 3}), steps, content)
            && Run(Start({1, 2, 3}), steps, content).log ==
               [Answer(0, Started), Answer(0, Failed), Answer(1, Failed)]
  {
    var s, content := R.InTxn([], 0, []), (m: int) => CALL;
    var a, b, c, d := Ask(SERVICE, EXPLICIT, Some("x"), false, Spawned), Ask(SERVICE, AUTO, Some("x"), false, Spawned),
                      Appear(SERVICE, 3, MUTE_SENDER, s), Fail(SERVICE);
    var st0, entries := Start({1, 2, 3}), [EXPLICIT, AUTO];
    var st1 := Apply(st0, a, content);
    assert st1.waiting == map[SERVICE := Record("x", [EXPLICIT])];
    var st2 := Apply(st1, b, content);
    assert [EXPLICIT] + [AUTO] == entries;
    assert st2.waiting == map[SERVICE := Record("x", entries)] && st2.log == [] && st2.active == {};
    AutoRefused(content, s);
    var st3 := Apply(st2, c, content);
    KeepTwo(EXPLICIT, AUTO, (e: Entry) => e.conn in st2.connected && !e.auto);
    assert Answers([EXPLICIT], Started) == [Answer(0, Started)] by { assert [EXPLICIT][1..] == []; }
    assert st3.log == [Answer(0, Started)] && st3.waiting == st2.waiting;
    KeepTwo(EXPLICIT, AUTO, (e: Entry) => e.conn in st3.connected);
    assert Answers(entries, Failed) == [Answer(0, Failed), Answer(1, Failed)] by {
      assert entries[1..] == [AUTO] && [AUTO][1..] == [];
      assert Answers([AUTO], Failed) == [Answer(1, Failed)];
    }
    assert Apply(st3, d, content).log == [Answer(0, Started), Answer(0, Failed), Answer(1, Failed)];
    FourSteps(st0, a, b, c, d, content);
  }

  lemma KeepTwo(x: Entry, y: Entry, p: Entry -> bool)
    ensures Keep([x, y], p) == (if p(x) then [x] else []) + (if p(y) then [y] else [])
  {
    assert [x, y][1..] == [y] && [y][1..] == [];
    assert Keep([y], p) == if p(y) then [y] else [];
  }

  lemma AutoRefused(content: int -> D.Incoming, s: R.InTxn)
    requires content(1) == CALL
    ensures var f := Forward(content, MUTE_SENDER, 3, [EXPLICIT, AUTO], {1, 2, 3}, s);
            f.refused && f.sent == []
  {
    assert [EXPLICIT, AUTO][1..] == [AUTO] && [AUTO][1..] == [];
    var x := Letter(content, AUTO, 3);
    assert !D.MaySend(MUTE_SENDER, x, 3, false);
    assert !D.Check(MUTE_SENDER, x, 3, s).allowed;
    assert Forward(content, MUTE_SENDER, 3, [AUTO], {1, 2, 3}, s).refused;
  }

  lemma OneStep(st: State, d: Step, content: int -> D.Incoming)
    requires Possible(st, d)
    ensures PossibleRun(st, [d], content) && Run(st, [d], content) == Apply(st, d, content)
  {
    assert [d][1..] == [];
    assert Run(Apply(st, d, content), [], content) == Apply(st, d, content);
  }

  lemma FourSteps(st: State, a: Step, b: Step, c: Step, d: Step, content: int -> D.Incoming)
    requires Possible(st, a) && Possible(Apply(st, a, content), b) && Possible(Apply(Apply(st, a, content), b, content), c)
    requires Possible(Apply(Apply(Apply(st, a, content), b, content), c, content), d)
    ensures PossibleRun(st, [a, b, c, d], content)
    ensures Run(st, [a, b, c, d], content) == Apply(Apply(Apply(Apply(st, a, content), b, content), c, content), d, content)
  {
    var st1, st2 := Apply(st, a, content), Apply(Apply(st, a, content), b, content);
    var st3 := Apply(st2, c, content);
    assert [a, b, c, d][1..] == [b, c, d] && [b, c, d][1..] == [c, d] && [c, d][1..] == [d] && [d][1..] == [];
    OneStep(st3, d, content);
    assert PossibleRun(st2, [c, d], content) && Run(st2, [c, d], content) == Run(st3, [d], content);
    assert PossibleRun(st1, [b, c, d], content) && Run(st1, [b, c, d], content) == Run(st2, [c, d], content);
  }
}
