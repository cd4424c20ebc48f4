/**
 Pending replies: each method call licenses one reply (bus/connection.c:1541-1901). The list
 holds the outstanding licences, newest first; a transaction may add and consume some.
 */
module PendingReplies {
  import opened BusTypes
  import opened ListFacts
  import opened Transactions

  type Reply = PendingReply

  // ----- the list as a table

  /** The records by identity. */
  function Table(list: seq<Reply>): map<nat, Reply> {
    if list == [] then map[] else Table(list[1..])[list[0].id := list[0]]
  }

  predicate DistinctIds(list: seq<Reply>) {
    list == [] || (list[0].id !in Table(list[1..]) && DistinctIds(list[1..]))
  }

  /** The list without the record `id`, if it is there (`bus_expire_list_remove`). */
  function RemoveId(list: seq<Reply>, id: nat): seq<Reply> {
    if list == [] then []
    else if list[0].id == id then list[1..]
    else [list[0]] + RemoveId(list[1..], id)
  }

  lemma {:induction false} TableFacts(list: seq<Reply>)
    ensures forall id :: id in Table(list) ==> Table(list)[id] in list && Table(list)[id].id == id
    ensures forall x :: x in list ==> x.id in Table(list)
    ensures DistinctIds(list) ==> forall x :: x in list ==> Table(list)[x.id] == x
  {
    if list != [] {
      TableFacts(list[1..]);
      assert list == [list[0]] + list[1..];
    }
  }

  lemma {:induction false} RemoveIdFacts(list: seq<Reply>, id: nat)
    requires DistinctIds(list)
    ensures DistinctIds(RemoveId(list, id))
    ensures Table(RemoveId(list, id)) == Table(list) - {id}
  {
    if list != [] {
      var h, rest := list[0], list[1..];
      var tb := Table(rest);
      if h.id != id {
        RemoveIdFacts(rest, id);
        PrependFacts(h, RemoveId(rest, id));
        assert (tb - {id})[h.id := h] == tb[h.id := h] - {id};
      } else {
        assert tb[id := h] - {id} == tb;
      }
    }
  }

  lemma {:induction false} RemoveIdContents(list: seq<Reply>, id: nat)
    requires id in Table(list) && DistinctIds(list)
    ensures multiset(list) == multiset(RemoveId(list, id)) + multiset{Table(list)[id]}
  {
    var h, rest := list[0], list[1..];
    assert list == [h] + rest;
    if h.id != id {
      RemoveIdContents(rest, id);
    }
  }

  lemma PrependFacts(x: Reply, list: seq<Reply>)
    requires DistinctIds(list) && x.id !in Table(list)
    ensures DistinctIds([x] + list) && Table([x] + list) == Table(list)[x.id := x]
  {
    assert ([x] + list)[1..] == list;
  }

  /** Lists of distinct records with the same table hold the same records. */
  lemma {:induction false} SameTableSameContents(a: seq<Reply>, b: seq<Reply>)
    requires DistinctIds(a) && DistinctIds(b) && Table(a) == Table(b)
    ensures multiset(a) == multiset(b)
  {
    if a == [] {
      EmptyTable(b);
    } else {
      var x := a[0];
      RemoveIdFacts(a, x.id);
      RemoveIdFacts(b, x.id);
      RemoveIdContents(b, x.id);
      SameTableSameContents(a[1..], RemoveId(b, x.id));
      assert a == [x] + a[1..];
    }
  }

  lemma EmptyTable(list: seq<Reply>)
    requires Table(list) == map[]
    ensures list == []
  {
    NonEmptyTable(list);
  }

  lemma NonEmptyTable(list: seq<Reply>)
    ensures list != [] ==> list[0].id in Table(list)
  {
  }

  // ----- operations of one transaction

  /** `bus_connections_expect_reply` and `bus_connections_check_reply`. */
  datatype Op =
    | Expect(getter: Conn, sender: Conn, serial: nat, noReply: bool, now: Timestamp)
    | Check(getter: Conn, sender: Conn, serial: nat)

  datatype ExpectResult = Allowed | DuplicateSerial | TooManyPending

  predicate Matches(x: Reply, getter: Conn, sender: Conn, serial: nat) {
    x.serial == serial && x.getter == getter && x.sender == Some(sender)
  }

  /** The first licence for this reply, if there is one. */
  function Find(list: seq<Reply>, getter: Conn, sender: Conn, serial: nat): Option<Reply> {
    if list == [] then None
    else if Matches(list[0], getter, sender, serial) then Some(list[0])
    else Find(list[1..], getter, sender, serial)
  }

  /** How many replies `c` is waiting for. */
  function Waiting(list: seq<Reply>, c: Conn): nat {
    if list == [] then 0 else (if list[0].getter == c then 1 else 0) + Waiting(list[1..], c)
  }

  /** The list, the next identity and the hooks recorded so far, newest first. */
  datatype InTxn = InTxn(list: seq<Reply>, nextId: nat, hooks: seq<CancelHook>)

  function ExpectAnswer(list: seq<Reply>, getter: Conn, sender: Conn, serial: nat, max: int): ExpectResult {
    if Find(list, getter, sender, serial).Some? then DuplicateSerial
    else if Waiting(list, getter) >= max then TooManyPending
    else Allowed
  }

  function Do(s: InTxn, op: Op, max: int): InTxn {
    match op
    case Expect(g, r, serial, noReply, now) =>
      if noReply || ExpectAnswer(s.list, g, r, serial, max) != Allowed then s
      else InTxn([PendingReply(s.nextId, g, Some(r), serial, now)] + s.list, s.nextId + 1, [CancelPendingReply(s.nextId)] + s.hooks)
    case Check(g, r, serial) =>
      var found := Find(s.list, g, r, serial);
      if found.None? then s
      else s.(list := RemoveId(s.list, found.value.id), hooks := [RestorePendingReply(found.value)] + s.hooks)
  }

  function DoAll(s: InTxn, ops: seq<Op>, max: int): InTxn
    decreases |ops|
  {
    if ops == [] then s else Do(DoAll(s, ops[..|ops| - 1], max), ops[|ops| - 1], max)
  }

  /** The hook finds what it needs: `cancel_pending_reply` insists that its record is in the list. */
  predicate CanUndo(list: seq<Reply>, h: CancelHook) {
    match h
    case CancelPendingReply(id) => id in Table(list)
    case RestorePendingReply(x) => x.id !in Table(list)
    case _ => false
  }

  function Undo(list: seq<Reply>, h: CancelHook): seq<Reply> {
    match h
    case CancelPendingReply(id) => RemoveId(list, id)
    case RestorePendingReply(x) => [x] + list
    case _ => list
  }

  predicate CanUndoAll(list: seq<Reply>, hooks: seq<CancelHook>)
    decreases |hooks|
  {
    hooks == [] || (CanUndo(list, hooks[0]) && CanUndoAll(Undo(list, hooks[0]), hooks[1..]))
  }

  function UndoAll(list: seq<Reply>, hooks: seq<CancelHook>): seq<Reply>
    decreases |hooks|
  {
    if hooks == [] then list else UndoAll(Undo(list, hooks[0]), hooks[1..])
  }

  predicate IdsBelow(list: seq<Reply>, n: nat) {
    forall id :: id in Table(list) ==> id < n
  }

  lemma {:induction false} FindFacts(list: seq<Reply>, g: Conn, r: Conn, serial: nat)
    ensures var x := Find(list, g, r, serial);
            && (x.Some? ==> Matches(x.value, g, r, serial) && x.value in list)
            && (x.None? ==> forall y :: y in list ==> !Matches(y, g, r, serial))
  {
    if list != [] {
      FindFacts(list[1..], g, r, serial);
      assert list == [list[0]] + list[1..];
    }
  }

  ghost predicate Sound(s: InTxn) {
    DistinctIds(s.list) && IdsBelow(s.list, s.nextId)
  }

  /** From `s` to `s'` the licence `x` was consumed. */
  ghost predicate Consumed(s: InTxn, s': InTxn, x: Reply) {
    && x in s.list && s'.hooks == [RestorePendingReply(x)] + s.hooks
    && x.id !in Table(s'.list) && Table(s'.list)[x.id := x] == Table(s.list)
  }

  /** The effect of an operation on the table of licences. */
  lemma DoTable(s: InTxn, op: Op, max: int)
    requires Sound(s)
    ensures Sound(Do(s, op, max)) && s.nextId <= Do(s, op, max).nextId
    ensures var s' := Do(s, op, max);
            || s' == s
            || (s'.hooks == [CancelPendingReply(s.nextId)] + s.hooks && s.nextId !in Table(s.list)
                && s.nextId in Table(s'.list) && Table(s'.list) - {s.nextId} == Table(s.list))
            || exists x :: Consumed(s, s', x)
  {
    match op
    case Expect(g, r, serial, noReply, now) =>
      var x := PendingReply(s.nextId, g, Some(r), serial, now);
      PrependFacts(x, s.list);
      assert Table(s.list)[x.id := x] - {x.id} == Table(s.list);
    case Check(g, r, serial) =>
      var found := Find(s.list, g, r, serial);
      if found.Some? {
        var x := found.value;
        FindFacts(s.list, g, r, serial);
        TableFacts(s.list);
        RemoveIdFacts(s.list, x.id);
        assert (Table(s.list) - {x.id})[x.id := x] == Table(s.list);
        assert Consumed(s, Do(s, op, max), x);
      }
  }

  /** The newest hook, run on any list with the same licences, takes the operation back. */
  lemma UndoTable(list: seq<Reply>, h: CancelHook)
    requires DistinctIds(list) && CanUndo(list, h)
    ensures DistinctIds(Undo(list, h))
    ensures h.CancelPendingReply? ==> Table(Undo(list, h)) == Table(list) - {h.replyId}
    ensures h.RestorePendingReply? ==> Table(Undo(list, h)) == Table(list)[h.reply.id := h.reply]
  {
    match h
    case CancelPendingReply(id) => RemoveIdFacts(list, id);
    case RestorePendingReply(x) => PrependFacts(x, list);
  }

  lemma {:induction false} DoAllSound(s: InTxn, ops: seq<Op>, max: int)
    requires Sound(s)
    ensures Sound(DoAll(s, ops, max)) && s.nextId <= DoAll(s, ops, max).nextId
    decreases |ops|
  {
    if ops != [] {
      DoAllSound(s, ops[..|ops| - 1], max);
      DoTable(DoAll(s, ops[..|ops| - 1], max), ops[|ops| - 1], max);
    }
  }

  /**
   Running the hooks of any sequence of expect and check operations in reverse order never fails
   to find its record and gives back the licences there were, whatever was consumed in between.
   */
  lemma {:induction false} UndoAllRestores(s: InTxn, ops: seq<Op>, max: int, list: seq<Reply>)
    requires Sound(s) && s.hooks == []
    requires DistinctIds(list) && Table(list) == Table(DoAll(s, ops, max).list)
    ensures var hooks := DoAll(s, ops, max).hooks;
            && CanUndoAll(list, hooks)
            && DistinctIds(UndoAll(list, hooks)) && Table(UndoAll(list, hooks)) == Table(s.list)
    decreases |ops|
  {
    if ops != [] {
      var before := DoAll(s, ops[..|ops| - 1], max);
      var after := DoAll(s, ops, max);
      DoAllSound(s, ops[..|ops| - 1], max);
      DoTable(before, ops[|ops| - 1], max);
      if after.hooks == before.hooks {
        UndoAllRestores(s, ops[..|ops| - 1], max, list);
      } else {
        assert after.hooks[1..] == before.hooks;
        UndoTable(list, after.hooks[0]);
        UndoAllRestores(s, ops[..|ops| - 1], max, Undo(list, after.hooks[0]));
      }
    }
  }

  /** A cancelled transaction leaves the pending replies as it found them, up to order. */
  lemma CancelRestores(list: seq<Reply>, nextId: nat, ops: seq<Op>, max: int)
    requires Sound(InTxn(list, nextId, []))
    ensures var s' := DoAll(InTxn(list, nextId, []), ops, max);
            CanUndoAll(s'.list, s'.hooks) && multiset(UndoAll(s'.list, s'.hooks)) == multiset(list)
  {
    var s := InTxn(list, nextId, []);
    var s' := DoAll(s, ops, max);
    DoAllSound(s, ops, max);
    UndoAllRestores(s, ops, max, s'.list);
    SameTableSameContents(UndoAll(s'.list, s'.hooks), list);
  }

  ghost predicate WasAdded(hooks: seq<CancelHook>, id: nat) { CancelPendingReply(id) in hooks }

  ghost predicate WasConsumed(hooks: seq<CancelHook>, id: nat) {
    exists x :: RestorePendingReply(x) in hooks && x.id == id
  }

  lemma HookCons(h: CancelHook, hooks: seq<CancelHook>, id: nat)
    ensures WasAdded([h] + hooks, id) <==> WasAdded(hooks, id) || h == CancelPendingReply(id)
    ensures WasConsumed([h] + hooks, id) <==> WasConsumed(hooks, id) || (h.RestorePendingReply? && h.reply.id == id)
  {
    assert h in [h] + hooks;
    assert forall k :: k in [h] + hooks <==> k == h || k in hooks;
  }

  /** Executing keeps exactly the licences that were there or were added, and were not consumed. */
  lemma {:induction false} ExecuteKeeps(s: InTxn, ops: seq<Op>, max: int, id: nat)
    requires Sound(s) && s.hooks == []
    ensures var s' := DoAll(s, ops, max);
            && (id in Table(s'.list) <==> (id in Table(s.list) || WasAdded(s'.hooks, id)) && !WasConsumed(s'.hooks, id))
            && (WasConsumed(s'.hooks, id) ==> id < s'.nextId)
    decreases |ops|
  {
    if ops != [] {
      var before, op := DoAll(s, ops[..|ops| - 1], max), ops[|ops| - 1];
      ExecuteKeeps(s, ops[..|ops| - 1], max, id);
      DoAllSound(s, ops[..|ops| - 1], max);
      DoTable(before, op, max);
      var after := Do(before, op, max);
      if after.hooks != before.hooks {
        assert after.hooks == [after.hooks[0]] + before.hooks;
        HookCons(after.hooks[0], before.hooks, id);
        TableFacts(before.list);
      }
    }
  }
}
