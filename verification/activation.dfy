/**
 Pending activations: requests to start a service wait, in one record per service, until the
 service appears or fails; cancel hooks keep records alive by reference (bus/activation.c).
 */
module Activations {
  import opened BusTypes
  import opened Transactions

  /** One waiting request. */
  datatype Entry = Entry(conn: Conn, message: int, auto: bool)

  datatype Pending = Pending(name: Name, exec: string, entries: seq<Entry>, nEntries: int, refs: int)

  /** The records by identity, the table of pending activations by service name, and the number of waiting requests. */
  datatype State = State(heap: map<nat, Pending>, table: map<Name, nat>, count: int, nextId: nat)

  const INIT: State := State(map[], map[], 0, 0)

  // ----- primitive steps

  function Ref(st: State, id: nat): State {
    if id in st.heap then st.(heap := st.heap[id := st.heap[id].(refs := st.heap[id].refs + 1)]) else st
  }

  /** `bus_pending_activation_unref`: the last reference frees the record and takes its requests off the count. */
  function Unref(st: State, id: nat): State {
    if id !in st.heap then st
    else
      var p := st.heap[id];
      if p.refs > 1 then st.(heap := st.heap[id := p.(refs := p.refs - 1)])
      else st.(heap := st.heap - {id}, count := st.count - p.nEntries)
  }

  /** Removing a name from the table drops the table's reference. */
  function TableRemove(st: State, n: Name): State {
    if n in st.table then Unref(st.(table := st.table - {n}), st.table[n]) else st
  }

  /** Inserting a name replaces, and unreferences, what was there. */
  function TableInsert(st: State, n: Name, id: nat): State {
    var st' := TableRemove(st, n);
    st'.(table := st'.table[n := id])
  }

  // ----- operations; `max` is the limit on pending activations

  /** `bus_activation_activate_service` for a service that has to be started: joins or creates the record and adds a cancel hook. */
  function Activate(st: State, n: Name, exec: string, e: Entry): State {
    if n in st.table && st.table[n] in st.heap then
      var id := st.table[n];
      var p := st.heap[id];
      Ref(State(st.heap[id := p.(entries := p.entries + [e], nEntries := p.nEntries + 1)], st.table, st.count + 1, st.nextId), id)
    else
      var id := st.nextId;
      Ref(State(st.heap[id := Pending(n, exec, [e], 1, 1)], st.table[n := id], st.count + 1, id + 1), id)
  }

  function ActivatedId(st: State, n: Name): nat {
    if n in st.table && st.table[n] in st.heap then st.table[n] else st.nextId
  }

  /** The end of `bus_activation_send_pending_auto_activation_messages`: the service is there, the record leaves the table but a restore hook keeps it. */
  function Finish(st: State, n: Name): State
    requires n in st.table && st.table[n] in st.heap
  {
    TableRemove(Ref(st, st.table[n]), n)
  }

  /** `cancel_pending` or `restore_pending`. */
  function CancelHookRuns(st: State, h: CancelHook): State {
    match h
    case CancelActivation(id) => if id in st.heap then TableRemove(st, st.heap[id].name) else st
    case RestoreActivation(id) => if id in st.heap then Ref(TableInsert(st, st.heap[id].name, id), id) else st
    case _ => st
  }

  // ----- accounting

  function PendingOf(h: CancelHook): Option<nat> {
    match h
    case CancelActivation(id) => Some(id)
    case RestoreActivation(id) => Some(id)
    case _ => None
  }

  /** How many hooks hold the record `id`. */
  function HeldBy(hooks: seq<CancelHook>, id: nat): nat {
    if hooks == [] then 0 else (if PendingOf(hooks[0]) == Some(id) then 1 else 0) + HeldBy(hooks[1..], id)
  }

  function EntriesAt(heap: map<nat, Pending>, id: nat): int {
    if id in heap then heap[id].nEntries else 0
  }

  /** Requests waiting in the records with identities below `n`. */
  function Total(heap: map<nat, Pending>, n: nat): int {
    if n == 0 then 0 else Total(heap, n - 1) + EntriesAt(heap, n - 1)
  }

  predicate InTable(st: State, id: nat) {
    id in st.heap && st.heap[id].name in st.table && st.table[st.heap[id].name] == id
  }

  ghost predicate TableOk(st: State) {
    forall n :: n in st.table ==> st.table[n] in st.heap && st.heap[st.table[n]].name == n
  }

  /** The record is referenced by the table and by hooks as often as its count says. */
  ghost predicate RecordOk(st: State, hooks: seq<CancelHook>, id: nat)
    requires id in st.heap
  {
    && id < st.nextId
    && st.heap[id].refs == (if InTable(st, id) then 1 else 0) + HeldBy(hooks, id)
    && st.heap[id].refs > 0
    && st.heap[id].nEntries == |st.heap[id].entries|
  }

  ghost predicate RefsOk(st: State, hooks: seq<CancelHook>) {
    && TableOk(st)
    && (forall id :: id in st.heap ==> RecordOk(st, hooks, id))
    && (forall id: nat :: id !in st.heap ==> HeldBy(hooks, id) == 0)
  }

  ghost predicate Accounted(st: State, hooks: seq<CancelHook>, max: int) {
    RefsOk(st, hooks) && st.count == Total(st.heap, st.nextId) && st.count <= max
  }

  lemma {:induction false} TotalUpdate(heap: map<nat, Pending>, heap': map<nat, Pending>, n: nat, id: nat)
    requires forall k: nat :: k != id ==> EntriesAt(heap', k) == EntriesAt(heap, k)
    ensures Total(heap', n) == Total(heap, n) + if id < n then EntriesAt(heap', id) - EntriesAt(heap, id) else 0
  {
    if n > 0 {
      TotalUpdate(heap, heap', n - 1, id);
    }
  }

  lemma TotalSame(heap: map<nat, Pending>, heap': map<nat, Pending>, n: nat)
    requires forall k: nat :: EntriesAt(heap', k) == EntriesAt(heap, k)
    ensures Total(heap', n) == Total(heap, n)
  {
    TotalUpdate(heap, heap', n, n);
  }

  /** Dropping a reference that the record can spare. */
  lemma UnrefTotal(st: State, id: nat)
    requires st.count == Total(st.heap, st.nextId) && (id in st.heap ==> id < st.nextId)
    ensures Unref(st, id).count == Total(Unref(st, id).heap, st.nextId)
    ensures Unref(st, id).table == st.table && Unref(st, id).nextId == st.nextId
  {
    if id in st.heap {
      TotalUpdate(st.heap, Unref(st, id).heap, st.nextId, id);
    }
  }

  // ----- every step keeps the books

  lemma {:induction false} HeldByMember(hooks: seq<CancelHook>, h: CancelHook)
    requires h in hooks && PendingOf(h).Some?
    ensures HeldBy(hooks, PendingOf(h).value) > 0
  {
    if hooks[0] != h {
      HeldByMember(hooks[1..], h);
    }
  }

  lemma {:induction false} HeldByWithout(hooks: seq<CancelHook>, i: nat, id: nat)
    requires i < |hooks|
    ensures HeldBy(hooks, id) == HeldBy(hooks[..i] + hooks[i + 1..], id) + if PendingOf(hooks[i]) == Some(id) then 1 else 0
  {
    if i == 0 {
      assert hooks[..0] + hooks[1..] == hooks[1..];
    } else {
      HeldByWithout(hooks[1..], i - 1, id);
      assert (hooks[..i] + hooks[i + 1..])[1..] == hooks[1..][..i - 1] + hooks[1..][i..];
    }
  }

  lemma HeldByCons(h: CancelHook, hooks: seq<CancelHook>)
    ensures forall id: nat :: HeldBy([h] + hooks, id) == HeldBy(hooks, id) + if PendingOf(h) == Some(id) then 1 else 0
  {
    assert ([h] + hooks)[1..] == hooks;
  }

  lemma TableRemoveAccounted(st: State, hooks: seq<CancelHook>, max: int, n: Name)
    requires Accounted(st, hooks, max)
    ensures Accounted(TableRemove(st, n), hooks, max)
    ensures TableRemove(st, n).table == st.table - {n}
  {
    if n in st.table {
      UnrefTotal(st.(table := st.table - {n}), st.table[n]);
      var st' := TableRemove(st, n);
      assert RecordOk(st, hooks, st.table[n]);
      forall id | id in st'.heap
        ensures RecordOk(st', hooks, id)
      {
        assert RecordOk(st, hooks, id);
      }
    } else {
      assert st.table - {n} == st.table;
    }
  }

  lemma JoinAccounted(st: State, hooks: seq<CancelHook>, max: int, n: Name, exec: string, e: Entry)
    requires Accounted(st, hooks, max) && st.count < max && n in st.table
    ensures Accounted(Activate(st, n, exec, e), [CancelActivation(ActivatedId(st, n))] + hooks, max)
  {
    var id, st' := st.table[n], Activate(st, n, exec, e);
    var hooks' := [CancelActivation(id)] + hooks;
    HeldByCons(CancelActivation(id), hooks);
    assert RecordOk(st, hooks, id);
    forall k | k in st'.heap
      ensures RecordOk(st', hooks', k)
    {
      assert RecordOk(st, hooks, k);
    }
    TotalUpdate(st.heap, st'.heap, st'.nextId, id);
  }

  lemma CreateAccounted(st: State, hooks: seq<CancelHook>, max: int, n: Name, exec: string, e: Entry)
    requires Accounted(st, hooks, max) && st.count < max && n !in st.table
    ensures Accounted(Activate(st, n, exec, e), [CancelActivation(ActivatedId(st, n))] + hooks, max)
  {
    var id, st' := st.nextId, Activate(st, n, exec, e);
    var hooks' := [CancelActivation(id)] + hooks;
    HeldByCons(CancelActivation(id), hooks);
    assert id in st.heap ==> RecordOk(st, hooks, id);
    forall k | k in st'.heap
      ensures RecordOk(st', hooks', k)
    {
      if k != id { assert RecordOk(st, hooks, k); }
    }
    TotalUpdate(st.heap, st'.heap, st.nextId, id);
  }

  lemma FinishAccounted(st: State, hooks: seq<CancelHook>, max: int, n: Name)
    requires Accounted(st, hooks, max) && n in st.table
    ensures Accounted(Finish(st, n), [RestoreActivation(st.table[n])] + hooks, max)
  {
    var id := st.table[n];
    HeldByCons(RestoreActivation(id), hooks);
    TotalSame(st.heap, Ref(st, id).heap, st.nextId);
    TableRemoveAccounted(Ref(st, id), [RestoreActivation(id)] + hooks, max, n);
  }

  lemma RestoreAccounted(st: State, hooks: seq<CancelHook>, max: int, id: nat)
    requires Accounted(st, hooks, max) && RestoreActivation(id) in hooks
    ensures Accounted(CancelHookRuns(st, RestoreActivation(id)), hooks, max)
  {
    HeldByMember(hooks, RestoreActivation(id));
    assert RecordOk(st, hooks, id);
    var n := st.heap[id].name;
    TableRemoveAccounted(st, hooks, max, n);
    var st1 := TableRemove(st, n);
    var st2 := Ref(st1.(table := st1.table[n := id]), id);
    assert id in st1.heap && st1.heap[id].name == n && !InTable(st1, id);
    assert RecordOk(st1, hooks, id);
    forall k | k in st2.heap
      ensures RecordOk(st2, hooks, k)
    {
      assert RecordOk(st1, hooks, k);
    }
    TotalSame(st1.heap, st2.heap, st1.nextId);
  }

  lemma CancelHookAccounted(st: State, hooks: seq<CancelHook>, max: int, h: CancelHook)
    requires Accounted(st, hooks, max) && h in hooks
    ensures Accounted(CancelHookRuns(st, h), hooks, max)
  {
    match h
    case CancelActivation(id) =>
      HeldByMember(hooks, h);
      TableRemoveAccounted(st, hooks, max, st.heap[id].name);
    case RestoreActivation(id) => RestoreAccounted(st, hooks, max, id);
    case _ =>
  }

  lemma FreeHookAccounted(st: State, hooks: seq<CancelHook>, max: int, i: nat)
    requires Accounted(st, hooks, max) && i < |hooks| && PendingOf(hooks[i]).Some?
    ensures Accounted(Unref(st, PendingOf(hooks[i]).value), hooks[..i] + hooks[i + 1..], max)
  {
    var id := PendingOf(hooks[i]).value;
    HeldByMember(hooks, hooks[i]);
    var hooks' := hooks[..i] + hooks[i + 1..];
    forall k: nat
      ensures HeldBy(hooks, k) == HeldBy(hooks', k) + if k == id then 1 else 0
    {
      HeldByWithout(hooks, i, k);
    }
    UnrefTotal(st, id);
    var st' := Unref(st, id);
    assert RecordOk(st, hooks, id);
    forall k | k in st'.heap
      ensures RecordOk(st', hooks', k)
    {
      assert RecordOk(st, hooks, k);
    }
  }

  // ----- runs

  datatype Step =
    /** StartServiceByName or a message to an activatable name. */
    | Request(n: Name, exec: string, e: Entry)
    /** The service got its name. */
    | Appear(n: Name)
    /** Spawning failed or timed out. */
    | Fail(n: Name)
    /** The cancel function of a hook of some open transaction runs. */
    | RunCancel(i: nat)
    /** A hook is freed. */
    | FreeHook(i: nat)

  datatype System = System(st: State, hooks: seq<CancelHook>)

  function Apply(s: System, step: Step, max: int): System {
    match step
    case Request(n, exec, e) =>
      if s.st.count >= max then s
      else System(Activate(s.st, n, exec, e), [CancelActivation(ActivatedId(s.st, n))] + s.hooks)
    case Appear(n) =>
      if n in s.st.table && s.st.table[n] in s.st.heap then System(Finish(s.st, n), [RestoreActivation(s.st.table[n])] + s.hooks) else s
    case Fail(n) => s.(st := TableRemove(s.st, n))
    case RunCancel(i) => if i < |s.hooks| then s.(st := CancelHookRuns(s.st, s.hooks[i])) else s
    case FreeHook(i) =>
      if i < |s.hooks| && PendingOf(s.hooks[i]).Some? then System(Unref(s.st, PendingOf(s.hooks[i]).value), s.hooks[..i] + s.hooks[i + 1..]) else s
  }

  lemma ApplyAccounted(s: System, step: Step, max: int)
    requires Accounted(s.st, s.hooks, max)
    ensures var s' := Apply(s, step, max); Accounted(s'.st, s'.hooks, max)
  {
    match step
    case Request(n, exec, e) =>
      if s.st.count < max {
        if n in s.st.table { JoinAccounted(s.st, s.hooks, max, n, exec, e); } else { CreateAccounted(s.st, s.hooks, max, n, exec, e); }
      }
    case Appear(n) => if n in s.st.table { FinishAccounted(s.st, s.hooks, max, n); }
    case Fail(n) => TableRemoveAccounted(s.st, s.hooks, max, n);
    case RunCancel(i) => if i < |s.hooks| { CancelHookAccounted(s.st, s.hooks, max, s.hooks[i]); }
    case FreeHook(i) => if i < |s.hooks| && PendingOf(s.hooks[i]).Some? { FreeHookAccounted(s.st, s.hooks, max, i); }
  }

  function Run(s: System, steps: seq<Step>, max: int): System
    decreases |steps|
  {
    if steps == [] then s else Run(Apply(s, steps[0], max), steps[1..], max)
  }

  lemma {:induction false} RunAccounted(s: System, steps: seq<Step>, max: int)
    requires Accounted(s.st, s.hooks, max)
    ensures var s' := Run(s, steps, max); Accounted(s'.st, s'.hooks, max)
    decreases |steps|
  {
    if steps != [] {
      ApplyAccounted(s, steps[0], max);
      RunAccounted(Apply(s, steps[0], max), steps[1..], max);
    }
  }

  /**
   Whatever requests, failures, cancellations and releases happen since the daemon started, in any
   interleaving, the count of waiting requests is the number of requests in all live records, in the
   table or held only by a hook, and stays within the limit; each record is referenced as often as
   its count says.
   */
  lemma CountIsExact(steps: seq<Step>, max: nat)
    ensures var s := Run(System(INIT, []), steps, max);
            s.st.count == Total(s.st.heap, s.st.nextId) <= max && RefsOk(s.st, s.hooks)
  {
    assert Accounted(INIT, [], max);
    RunAccounted(System(INIT, []), steps, max);
  }

  lemma TwoSteps(s: System, steps: seq<Step>, max: int)
    requires |steps| == 2
    ensures Run(s, steps, max) == Apply(Apply(s, steps[0], max), steps[1], max)
  {
    var s1 := Apply(s, steps[0], max);
    assert steps[1..] == [steps[1]] && steps[1..][1..] == [];
    assert Run(s1, steps[1..], max) == Apply(s1, steps[1], max);
  }

  lemma {:induction false} RunConcat(s: System, a: seq<Step>, b: seq<Step>, max: int)
    ensures Run(s, a + b, max) == Run(Run(s, a, max), b, max)
    decreases |a|
  {
    if a == [] {
      assert a + b == b;
    } else {
      assert (a + b)[0] == a[0] && (a + b)[1..] == a[1..] + b;
      RunConcat(Apply(s, a[0], max), a[1..], b, max);
    }
  }

  /**
   A request waits, a second one joins it, and the transaction of the second is cancelled: the record of
   the first, whose transaction was completed, is no longer in the table.
   */
  lemma CancelledJoinForgets(n: Name, exec: string, e: Entry, e': Entry)
    ensures var start := [Request(n, exec, e), FreeHook(0)];
            var s := Run(System(INIT, []), start, 2);
            var s' := Run(System(INIT, []), start + [Request(n, exec, e'), RunCancel(0), FreeHook(0)], 2);
            && n in s.st.table && s.st.table[n] in s.st.heap && s.st.heap[s.st.table[n]].entries == [e] && s.hooks == []
            && n !in s'.st.table && s'.st.heap == map[] && s'.st.count == 0 && s'.hooks == []
  {
    var start, rest := [Request(n, exec, e), FreeHook(0)], [Request(n, exec, e'), RunCancel(0), FreeHook(0)];
    var h := CancelActivation(0);
    var s1 := Apply(System(INIT, []), start[0], 2);
    assert s1 == System(State(map[0 := Pending(n, exec, [e], 1, 2)], map[n := 0], 1, 1), [h]);
    var s2 := Apply(s1, FreeHook(0), 2);
    assert s2 == System(State(map[0 := Pending(n, exec, [e], 1, 1)], map[n := 0], 1, 1), []);
    TwoSteps(System(INIT, []), start, 2);
    var s3 := Apply(s2, rest[0], 2);
    assert s3 == System(State(map[0 := Pending(n, exec, [e] + [e'], 2, 2)], map[n := 0], 2, 1), [h]);
    var s4 := Apply(s3, RunCancel(0), 2);
    assert s4 == System(State(map[0 := Pending(n, exec, [e] + [e'], 2, 1)], map[], 2, 1), [h]);
    var s5 := Apply(s4, FreeHook(0), 2);
    assert s5 == System(State(map[], map[], 0, 1), []);
    RunConcat(System(INIT, []), start, rest, 2);
    assert rest[1..] == [RunCancel(0), FreeHook(0)];
    TwoSteps(s3, rest[1..], 2);
  }

  // ----- cancelling

  /** Running the cancel function of a hook and freeing it. */
  function CancelAndFree(st: State, h: CancelHook): State {
    var st' := CancelHookRuns(st, h);
    if PendingOf(h).Some? then Unref(st', PendingOf(h).value) else st'
  }

  /** A cancelled transaction in which a service appeared puts its pending activation back exactly. */
  lemma CancelRestoresFinished(st: State, hooks: seq<CancelHook>, n: Name)
    requires RefsOk(st, hooks) && n in st.table
    ensures CancelAndFree(Finish(st, n), RestoreActivation(st.table[n])) == st
  {
    var id := st.table[n];
    assert RecordOk(st, hooks, id);
    var st1 := Finish(st, n);
    assert st1.heap == st.heap && st1.table == st.table - {n};
    var st2 := CancelHookRuns(st1, RestoreActivation(id));
    assert st2.table == st.table && st2.heap == Ref(st, id).heap;
    assert Unref(st2, id).heap == st.heap;
  }

  /** A cancelled transaction that created a pending activation leaves nothing of it. */
  lemma CancelRestoresCreated(st: State, hooks: seq<CancelHook>, n: Name, exec: string, e: Entry)
    requires RefsOk(st, hooks) && n !in st.table
    ensures CancelAndFree(Activate(st, n, exec, e), CancelActivation(st.nextId)) == st.(nextId := st.nextId + 1)
  {
    var id := st.nextId;
    assert id in st.heap ==> RecordOk(st, hooks, id);
    var st1 := Activate(st, n, exec, e);
    var st2 := CancelHookRuns(st1, CancelActivation(id));
    assert st2.table == st.table;
    assert Unref(st2, id).heap == st.heap;
  }

  /**
   Cancelling an activation request gives the table back if and only if the request was the first
   for its service: a request that joined takes the whole record, with everybody else's, out of it.
   */
  lemma CancelRestoresTableIff(st: State, hooks: seq<CancelHook>, n: Name, exec: string, e: Entry)
    requires RefsOk(st, hooks)
    ensures CancelAndFree(Activate(st, n, exec, e), CancelActivation(ActivatedId(st, n))).table == st.table <==> n !in st.table
  {
    if n in st.table {
      var id := st.table[n];
      assert RecordOk(st, hooks, id);
      var st1 := Activate(st, n, exec, e);
      assert n !in CancelHookRuns(st1, CancelActivation(id)).table;
    } else {
      CancelRestoresCreated(st, hooks, n, exec, e);
    }
  }
}
