/**
 The expire list: items with the time they were added, and one timer that serves all of them
 (bus/expirelist.c). Milliseconds are reals, as the source computes them in `double`.
 */
module ExpireLists {
  import opened BusTypes

  type Item = PendingReply

  /** ELAPSED_MILLISECONDS_SINCE. */
  function Elapsed(since: Timestamp, now: Timestamp): real {
    ((now.sec - since.sec) as real) * 1000.0 + ((now.usec - since.usec) as real) / 1000.0
  }

  /** Milliseconds since the epoch. */
  function Ms(t: Timestamp): real {
    (t.sec as real) * 1000.0 + (t.usec as real) / 1000.0
  }

  lemma ElapsedIsDifference(since: Timestamp, now: Timestamp)
    ensures Elapsed(since, now) == Ms(now) - Ms(since)
  {
  }

  /** `elapsed >= expire_after`. */
  predicate Due(x: Item, after: int, now: Timestamp) {
    Elapsed(x.added, now) >= after as real
  }

  /** Time left before the item is due. */
  function Wait(x: Item, after: int, now: Timestamp): real {
    after as real - Elapsed(x.added, now)
  }

  /** The items that are not due. */
  function Fresh(items: seq<Item>, after: int, now: Timestamp): seq<Item> {
    if items == [] then []
    else
      var rest := Fresh(items[1..], after, now);
      if Due(items[0], after, now) then rest else [items[0]] + rest
  }

  lemma {:induction false} FreshConcat(a: seq<Item>, b: seq<Item>, after: int, now: Timestamp)
    ensures Fresh(a + b, after, now) == Fresh(a, after, now) + Fresh(b, after, now)
  {
    if a == [] {
      assert a + b == b;
    } else {
      assert (a + b)[1..] == a[1..] + b;
      FreshConcat(a[1..], b, after, now);
    }
  }

  lemma {:induction false} FreshMembers(items: seq<Item>, after: int, now: Timestamp)
    ensures forall x :: x in Fresh(items, after, now) <==> x in items && !Due(x, after, now)
  {
    if items != [] {
      FreshMembers(items[1..], after, now);
      assert items == [items[0]] + items[1..];
    }
  }

  /** The longest interval the timer is ever set to. */
  const MAX_WAIT: int := 3600 * 1000

  /** How long to sleep after running out of memory. */
  const OOM_WAIT: int := 500

  /** `n` is the smallest whole number of milliseconds left to any of the items, capped at one hour. */
  ghost predicate SmallestWait(n: int, items: seq<Item>, after: int, now: Timestamp) {
    && n <= MAX_WAIT
    && (forall x :: x in items ==> n <= Wait(x, after, now).Floor)
    && (n == MAX_WAIT || exists x :: x in items && n == Wait(x, after, now).Floor)
  }

  /** `due` item number `k` is the first one whose callback fails; `k == |items|` if none does. */
  ghost predicate FirstFailure(k: int, items: seq<Item>, after: int, now: Timestamp, works: Item -> bool) {
    && 0 <= k <= |items|
    && (forall i :: 0 <= i < k && Due(items[i], after, now) ==> works(items[i]))
    && (k < |items| ==> Due(items[k], after, now) && !works(items[k]))
  }

  /** Where an expiry pass stops: at the first due item whose callback fails, or at the end. */
  function FailsAt(items: seq<Item>, after: int, now: Timestamp, works: Item -> bool): (k: nat)
    ensures k <= |items|
  {
    if items == [] || (Due(items[0], after, now) && !works(items[0])) then 0 else 1 + FailsAt(items[1..], after, now, works)
  }

  lemma {:induction false} FailsAtFirst(items: seq<Item>, after: int, now: Timestamp, works: Item -> bool)
    ensures FirstFailure(FailsAt(items, after, now, works), items, after, now, works)
  {
    if items != [] && !(Due(items[0], after, now) && !works(items[0])) {
      FailsAtFirst(items[1..], after, now, works);
    }
  }

  lemma FirstFailureIsUnique(j: int, k: int, items: seq<Item>, after: int, now: Timestamp, works: Item -> bool)
    requires FirstFailure(j, items, after, now, works) && FirstFailure(k, items, after, now, works)
    ensures j == k
  {
  }

  lemma SmallestWaitStep(n: int, items: seq<Item>, x: Item, after: int, now: Timestamp)
    requires SmallestWait(n, items, after, now)
    ensures SmallestWait(if n as real > Wait(x, after, now) then Wait(x, after, now).Floor else n, items + [x], after, now)
  {
    var w := Wait(x, after, now);
    assert x in items + [x];
    if n as real > w {
      assert w.Floor < n;
    } else {
      assert n <= w.Floor;
      assert forall y :: y in items ==> y in items + [x];
    }
  }

  lemma FreshSnoc(items: seq<Item>, k: nat, after: int, now: Timestamp)
    requires k < |items|
    ensures Fresh(items[..k + 1], after, now) ==
            if Due(items[k], after, now) then Fresh(items[..k], after, now) else Fresh(items[..k], after, now) + [items[k]]
  {
    assert items[..k + 1] == items[..k] + [items[k]];
    FreshConcat(items[..k], [items[k]], after, now);
  }

  /**
   `do_expiration_with_current_time` with a callback that either expires an item, which takes it
   off the list, or fails and leaves it: everything due before the first failure is expired.
   */
  method DoExpiration(items: seq<Item>, after: int, now: Timestamp, works: Item -> bool)
    returns (left: seq<Item>, interval: int)
    ensures var k := FailsAt(items, after, now, works);
            && left == Fresh(items[..k], after, now) + items[k..]
            && (k < |items| ==> interval == OOM_WAIT)
            && (k == |items| && left == [] ==> interval == -1)
            && (k == |items| && left != [] ==> interval >= 0 && SmallestWait(interval, left, after, now))
  {
    ghost var k := FailsAt(items, after, now, works);
    FailsAtFirst(items, after, now, works);
    interval := -1;
    var minWait := MAX_WAIT;
    var toExpire := false;
    var kept := [];
    var link := 0;
    while link < |items|
      invariant 0 <= link <= |items|
      invariant kept == Fresh(items[..link], after, now)
      invariant forall j :: 0 <= j < link && Due(items[j], after, now) ==> works(items[j])
      invariant toExpire <==> kept != []
      invariant 0 <= minWait && SmallestWait(minWait, kept, after, now)
    {
      var x := items[link];
      FreshSnoc(items, link, after, now);
      var elapsed := Elapsed(x.added, now);
      if elapsed >= after as real {
        if !works(x) {
          FirstFailureIsUnique(k, link, items, after, now, works);
          return kept + items[link..], OOM_WAIT;
        }
      } else {
        toExpire := true;
        var toWait := after as real - elapsed;
        SmallestWaitStep(minWait, kept, x, after, now);
        if minWait as real > toWait {
          minWait := toWait.Floor;
        }
        kept := kept + [x];
      }
      link := link + 1;
    }
    FirstFailureIsUnique(k, link, items, after, now, works);
    left := kept + items[link..];
    assert left == kept;
    if toExpire {
      interval := minWait;
    }
  }
}
