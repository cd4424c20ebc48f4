/** The loops over the list of pending replies (bus/connection.c:1581-1901). */
module ReplyObject {
  import opened BusTypes
  import opened Transactions
  import opened ExpireTimers
  import opened PendingReplies
  import opened ReplyRuns

  /** The list without its element `i`, seen from behind its first element. */
  lemma CutBehind(list: seq<Reply>, i: nat)
    requires 0 < i < |list|
    ensures list[..i] + list[i + 1..] == [list[0]] + (list[1..][..i - 1] + list[1..][i..])
  {
    assert list[..i] == [list[0]] + list[1..][..i - 1] && list[i + 1..] == list[1..][i..];
  }

  lemma {:induction false} FirstWithId(list: seq<Reply>, i: nat)
    requires i < |list| && forall j :: 0 <= j < i ==> list[j].id != list[i].id
    ensures RemoveId(list, list[i].id) == list[..i] + list[i + 1..]
  {
    if i > 0 {
      FirstWithId(list[1..], i - 1);
      CutBehind(list, i);
    }
  }

  lemma {:induction false} IdsDiffer(list: seq<Reply>, j: nat, i: nat)
    requires DistinctIds(list) && j < i < |list|
    ensures list[j].id != list[i].id
  {
    var rest := list[1..];
    if j > 0 {
      IdsDiffer(rest, j - 1, i - 1);
    } else {
      IdInTable(rest, i - 1);
    }
  }

  lemma IdInTable(list: seq<Reply>, i: nat)
    requires DistinctIds(list) && i < |list|
    ensures list[i].id in Table(list)
  {
    TableFacts(list);
    assert list[i] in list;
  }

  lemma RemoveIdAt(list: seq<Reply>, i: nat)
    requires DistinctIds(list) && i < |list|
    ensures RemoveId(list, list[i].id) == list[..i] + list[i + 1..]
  {
    forall j | 0 <= j < i
      ensures list[j].id != list[i].id
    {
      IdsDiffer(list, j, i);
    }
    FirstWithId(list, i);
  }

  /** Walks the list for a licence of this reply; counts, on the way, what the caller is waiting for. */
  method Scan(list: seq<Reply>, getter: Conn, sender: Conn, serial: nat) returns (found: int, count: nat)
    ensures found >= 0 ==> found < |list| && Find(list, getter, sender, serial) == Some(list[found])
    ensures found < 0 ==> Find(list, getter, sender, serial).None? && count == Waiting(list, getter)
  {
    var i := 0;
    count := 0;
    assert list[0..] == list;
    while i < |list|
      invariant 0 <= i <= |list|
      invariant Find(list, getter, sender, serial) == Find(list[i..], getter, sender, serial)
      invariant Waiting(list, getter) == count + Waiting(list[i..], getter)
    {
      var pending := list[i];
      assert list[i..][0] == pending && list[i..][1..] == list[i + 1..];
      if pending.serial == serial && pending.getter == getter && pending.sender == Some(sender) {
        return i, count;
      }
      if pending.getter == getter {
        count := count + 1;
      }
      i := i + 1;
    }
    found := -1;
  }

  /** What becomes of one record when `c` goes away. */
  function Survivors(x: Reply, c: Conn): seq<Reply> {
    if x.getter == c then [] else if x.sender == Some(c) then [x.(sender := None, added := Timestamp(0, 0))] else [x]
  }

  lemma {:induction false} DropConnSnoc(list: seq<Reply>, x: Reply, c: Conn)
    ensures DropConn(list + [x], c) == DropConn(list, c) + Survivors(x, c)
  {
    if list == [] {
      assert list + [x] == [x] && [x][1..] == [];
    } else {
      assert (list + [x])[1..] == list[1..] + [x] && (list + [x])[0] == list[0];
      DropConnSnoc(list[1..], x, c);
    }
  }

  /** `c` owes one of these replies to somebody else. */
  predicate Owes(list: seq<Reply>, c: Conn) {
    list != [] &&
      var x := list[|list| - 1];
      (x.getter != c && x.sender == Some(c)) || Owes(list[..|list| - 1], c)
  }

  lemma OwesSnoc(list: seq<Reply>, x: Reply, c: Conn)
    ensures Owes(list + [x], c) <==> Owes(list, c) || (x.getter != c && x.sender == Some(c))
  {
    assert (list + [x])[..|list|] == list;
  }

  /** Unlinking the record behind `kept`, or putting another one in its place. */
  lemma EditAt(kept: seq<Reply>, x: Reply, rest: seq<Reply>, y: Reply)
    ensures var left := kept + ([x] + rest);
            && left[|kept|] == x
            && left[..|kept|] + left[|kept| + 1..] == kept + rest
            && left[|kept| := y] == (kept + [y]) + rest
  {
  }

  /** Walks the list, dropping what `c` waits for and marking what it owes; `recheck` says the timer must run at once. */
  method DropInPlace(list: seq<Reply>, c: Conn) returns (left: seq<Reply>, recheck: bool)
    ensures left == DropConn(list, c)
    ensures recheck <==> Owes(list, c)
  {
    left, recheck := list, false;
    var i := 0;
    ghost var k := 0;
    ghost var kept := [];
    while i < |left|
      invariant 0 <= k <= |list| && kept == DropConn(list[..k], c)
      invariant i == |kept| && left == kept + list[k..]
      invariant recheck <==> Owes(list[..k], c)
      decreases |list| - k
    {
      ghost var x, rest := list[k], list[k + 1..];
      assert list[k..] == [x] + rest && list[..k + 1] == list[..k] + [x];
      DropConnSnoc(list[..k], x, c);
      OwesSnoc(list[..k], x, c);
      EditAt(kept, x, rest, x.(sender := None, added := Timestamp(0, 0)));
      EditAt(kept, x, rest, x);
      var pending := left[i];
      if pending.getter == c {
        left := left[..i] + left[i + 1..];
        assert kept + [] == kept;
      } else {
        if pending.sender == Some(c) {
          left := left[i := pending.(sender := None, added := Timestamp(0, 0))];
          recheck := true;
        }
        i := i + 1;
        kept := kept + Survivors(x, c);
      }
      k := k + 1;
    }
    assert list[..k] == list;
  }

  lemma {:induction false} NoneWithId(list: seq<Reply>, id: nat)
    requires forall i :: 0 <= i < |list| ==> list[i].id != id
    ensures RemoveId(list, id) == list
  {
    if list != [] {
      NoneWithId(list[1..], id);
    }
  }

  class ReplyKeeper {
    const pendingReplies: ExpireList
    var nextId: nat

    ghost function View(t: Transaction): InTxn
      reads this, pendingReplies, t
    {
      InTxn(pendingReplies.items, nextId, t.cancelHooks)
    }

    constructor (replyTimeout: int, now: Timestamp)
      ensures fresh(pendingReplies) && pendingReplies.items == [] && nextId == 0
    {
      pendingReplies := new ExpireList(replyTimeout, now);
      nextId := 0;
    }

    /** `bus_connections_expect_reply`. */
    method ExpectReply(t: Transaction, getter: Conn, sender: Conn, serial: nat, noReply: bool, now: Timestamp, max: int) returns (r: ExpectResult)
      modifies this`nextId, pendingReplies`items, pendingReplies`timer, t`cancelHooks
      ensures View(t) == Do(old(View(t)), Expect(getter, sender, serial, noReply, now), max)
      ensures r == if noReply then Allowed else ExpectAnswer(old(pendingReplies.items), getter, sender, serial, max)
    {
      if noReply {
        return Allowed;
      }
      var found, count := Scan(pendingReplies.items, getter, sender, serial);
      if found >= 0 {
        return DuplicateSerial;
      }
      if count >= max {
        return TooManyPending;
      }
      var pending := PendingReply(nextId, getter, Some(sender), serial, now);
      nextId := nextId + 1;
      pendingReplies.Add(pending);
      t.AddCancelHook(CancelPendingReply(pending.id));
      r := Allowed;
    }

    /** `bus_connections_check_reply`: a reply is let through if and only if it was licensed, which uses the licence up. */
    method CheckReply(t: Transaction, getter: Conn, sender: Conn, serial: nat) returns (allowed: bool)
      requires DistinctIds(pendingReplies.items)
      modifies pendingReplies`items, t`cancelHooks
      ensures View(t) == Do(old(View(t)), Check(getter, sender, serial), 0)
      ensures allowed <==> Find(old(pendingReplies.items), getter, sender, serial).Some?
    {
      var found, count := Scan(pendingReplies.items, getter, sender, serial);
      if found < 0 {
        return false;
      }
      var link := pendingReplies.items[found];
      RemoveIdAt(pendingReplies.items, found);
      t.AddCancelHook(RestorePendingReply(link));
      pendingReplies.items := pendingReplies.items[..found] + pendingReplies.items[found + 1..];
      allowed := true;
    }

    /** `cancel_pending_reply` and `cancel_check_pending_reply`. */
    method RunCancelHook(h: CancelHook)
      requires h.CancelPendingReply? || h.RestorePendingReply?
      modifies pendingReplies`items, pendingReplies`timer
      ensures pendingReplies.items == Undo(old(pendingReplies.items), h)
    {
      ghost var list := pendingReplies.items;
      if h.CancelPendingReply? {
        var found := pendingReplies.Remove(h.replyId);
        if found {
          ghost var i :| 0 <= i < |list| && list[i].id == h.replyId && pendingReplies.items == RemoveAt(list, i)
                         && forall j :: 0 <= j < i ==> list[j].id != h.replyId;
          FirstWithId(list, i);
        } else {
          NoneWithId(list, h.replyId);
        }
      } else {
        pendingReplies.Add(h.reply);
      }
    }

    /** Runs the cancel hooks of a transaction, newest first; each finds its record. */
    method CancelAll(t: Transaction)
      requires CanUndoAll(pendingReplies.items, t.cancelHooks)
      modifies pendingReplies`items, pendingReplies`timer, t`cancelHooks
      ensures pendingReplies.items == UndoAll(old(pendingReplies.items), old(t.cancelHooks)) && t.cancelHooks == []
    {
      while t.cancelHooks != []
        invariant CanUndoAll(pendingReplies.items, t.cancelHooks)
        invariant UndoAll(pendingReplies.items, t.cancelHooks) == UndoAll(old(pendingReplies.items), old(t.cancelHooks))
        decreases |t.cancelHooks|
      {
        RunCancelHook(t.cancelHooks[0]);
        t.cancelHooks := t.cancelHooks[1..];
      }
    }

    /** `bus_connection_drop_pending_replies`: afterwards the connection occurs in no pending reply. */
    method DropPendingReplies(c: Conn)
      modifies pendingReplies`items, pendingReplies`timer
      ensures pendingReplies.items == DropConn(old(pendingReplies.items), c)
      ensures forall x :: x in pendingReplies.items ==> x.getter != c && x.sender != Some(c)
      ensures Owes(old(pendingReplies.items), c) ==>
                pendingReplies.timer == SetInterval(old(pendingReplies.timer), 0)
    {
      DropConnFacts(pendingReplies.items, c);
      var left, recheck := DropInPlace(pendingReplies.items, c);
      pendingReplies.items := left;
      if recheck {
        pendingReplies.RecheckImmediately();
      }
    }
  }
}
