/**
 The owner queue of one bus name: the first owner is the primary one, the others wait
 (bus/services.c; "Message Bus Names" in the D-Bus Specification).
 */
module OwnerQueues {
  import opened BusTypes

  datatype Flags = Flags(allowReplacement: bool, replaceExisting: bool, doNotQueue: bool)

  const NO_FLAGS: Flags := Flags(false, false, false)

  datatype Owner = Owner(conn: Conn, allowReplacement: bool, doNotQueue: bool)

  type Queue = seq<Owner>

  /** Reply codes of RequestName. */
  datatype RequestReply = PrimaryOwner | InQueue | Exists | AlreadyOwner

  function NewOwner(c: Conn, f: Flags): Owner {
    Owner(c, f.allowReplacement, f.doNotQueue)
  }

  predicate Has(q: Queue, c: Conn) {
    exists o :: o in q && o.conn == c
  }

  function Primary(q: Queue): Option<Conn> {
    if q == [] then None else Some(q[0].conn)
  }

  ghost predicate Distinct(q: Queue) {
    forall i, j :: 0 <= i < j < |q| ==> q[i].conn != q[j].conn
  }

  /** What every registered queue satisfies: it has a primary owner, lists no connection twice, and nobody who asked not to queue is waiting. */
  ghost predicate WellFormed(q: Queue) {
    && q != []
    && Distinct(q)
    && Patient(q[1..])
  }

  predicate Patient(q: Queue) {
    forall o :: o in q ==> !o.doNotQueue
  }

  /** Index of the owner entry of `c`, or -1. */
  function Position(q: Queue, c: Conn): (p: int)
    ensures -1 <= p < |q|
    ensures p >= 0 ==> q[p].conn == c && forall i :: 0 <= i < p ==> q[i].conn != c
    ensures p >= 0 <==> Has(q, c)
  {
    if q == [] then -1
    else if q[0].conn == c then 0
    else
      var p := Position(q[1..], c);
      assert q == [q[0]] + q[1..];
      if p < 0 then -1 else p + 1
  }

  /** The queue without the entry of `c`. */
  function Without(q: Queue, c: Conn): Queue {
    if q == [] then []
    else if q[0].conn == c then q[1..]
    else [q[0]] + Without(q[1..], c)
  }

  /**
   Where `bus_service_add_owner` leaves the entry of `c`: behind the primary owner when replacing,
   otherwise in its old place or at the end.
   */
  function PutOwner(q: Queue, c: Conn, f: Flags): Queue {
    var o, p := NewOwner(c, f), Position(q, c);
    if p >= 0 && !f.replaceExisting then q[p := o]
    else if q == [] || !f.replaceExisting then q + [o]
    else
      var rest := Without(q, c);
      if rest == [] then [o] else [rest[0], o] + rest[1..]
  }

  /** A request with these flags displaces the primary owner of `q`. */
  predicate Replaces(q: Queue, f: Flags)
    requires q != []
  {
    f.replaceExisting && q[0].allowReplacement
  }

  /** The queue and the reply code that a RequestName by `c` ends in. */
  function Request(q: Queue, c: Conn, f: Flags): (r: (Queue, RequestReply)) {
    var o := NewOwner(c, f);
    if q == [] then ([o], PrimaryOwner)
    else if q[0].conn == c then (q[0 := o], AlreadyOwner)
    else if Replaces(q, f) then
      var waiting := Without(q[1..], c);
      (if q[0].doNotQueue then [o] + waiting else [o, q[0]] + waiting, PrimaryOwner)
    else if f.doNotQueue then (Without(q, c), Exists)
    else (PutOwner(q, c, f), InQueue)
  }

  lemma HasConcat(a: Queue, b: Queue, c: Conn)
    ensures Has(a + b, c) <==> Has(a, c) || Has(b, c)
  {
  }

  lemma DistinctConcat(a: Queue, b: Queue)
    ensures Distinct(a + b) <==> Distinct(a) && Distinct(b) && forall c :: !(Has(a, c) && Has(b, c))
  {
    var q := a + b;
    assert forall i :: 0 <= i < |a| ==> q[i] == a[i];
    assert forall i :: 0 <= i < |b| ==> q[|a| + i] == b[i];
    if !Distinct(q) && Distinct(a) && Distinct(b) {
      var i, j :| 0 <= i < j < |q| && q[i].conn == q[j].conn;
      assert i < |a| && j >= |a|;
      assert Has(a, q[i].conn) && Has(b, q[i].conn);
    }
  }

  /** A queue that lists `c` splits around its entry. */
  lemma SplitAt(q: Queue, c: Conn) returns (a: Queue, x: Owner, b: Queue)
    requires Distinct(q) && Has(q, c)
    ensures q == a + [x] + b && x.conn == c && !Has(a, c) && !Has(b, c)
    ensures Position(q, c) == |a| && Without(q, c) == a + b
    ensures Distinct(a + b)
  {
    var p := Position(q, c);
    a, x, b := q[..p], q[p], q[p + 1..];
    DistinctConcat(a + [x], b);
    DistinctConcat(a, [x]);
    DistinctConcat(a, b);
    assert x in [x];
    assert forall i :: 0 <= i < |a| ==> a[i] == q[i];
    WithoutOfSplit(a, x, b);
  }

  lemma {:induction false} WithoutOfSplit(a: Queue, x: Owner, b: Queue)
    requires !Has(a, x.conn)
    ensures Position(a + [x] + b, x.conn) == |a|
    ensures Without(a + [x] + b, x.conn) == a + b
  {
    var q := a + [x] + b;
    if a == [] {
      assert q[1..] == b && q[0] == x;
    } else {
      assert q[0] == a[0] && a[0] in a;
      assert q[1..] == a[1..] + [x] + b;
      assert forall o :: o in a[1..] ==> o in a;
      WithoutOfSplit(a[1..], x, b);
      assert [a[0]] + (a[1..] + b) == a + b;
    }
  }

  lemma {:induction false} WithoutAbsent(q: Queue, c: Conn)
    requires !Has(q, c)
    ensures Without(q, c) == q
  {
    if q != [] {
      assert q[0] in q && forall o :: o in q[1..] ==> o in q;
      WithoutAbsent(q[1..], c);
    }
  }

  lemma WithoutFacts(q: Queue, c: Conn)
    requires Distinct(q)
    ensures Distinct(Without(q, c))
    ensures !Has(Without(q, c), c)
    ensures forall d :: d != c ==> (Has(Without(q, c), d) <==> Has(q, d))
    ensures !Has(q, c) ==> Without(q, c) == q
    ensures |Without(q, c)| == if Has(q, c) then |q| - 1 else |q|
    ensures Patient(q) ==> Patient(Without(q, c))
  {
    if Has(q, c) {
      var a, x, b := SplitAt(q, c);
    } else {
      WithoutAbsent(q, c);
    }
  }

  /** Dropping an owner leaves a well-formed queue unless it was the only one. */
  lemma WithoutWellFormed(q: Queue, c: Conn)
    requires WellFormed(q)
    ensures Without(q, c) != [] ==> WellFormed(Without(q, c))
    ensures Without(q, c) == [] <==> q[0].conn == c && |q| == 1
  {
    WithoutFacts(q, c);
    SplitHead(q);
    WithoutFacts(q[1..], c);
    if q[0].conn == c {
      if |q| > 1 {
        assert q[1..][1..] == q[2..];
        assert forall o :: o in q[2..] ==> o in q[1..];
      }
    } else {
      assert ([q[0]] + Without(q[1..], c))[1..] == Without(q[1..], c);
    }
  }

  /** Putting an entry into a queue that does not list its connection. */
  lemma Rejoin(a: Queue, o: Owner, b: Queue)
    requires Distinct(a + b) && !Has(a + b, o.conn)
    ensures Distinct(a + [o] + b) && o in a + [o] + b
    ensures Without(a + [o] + b, o.conn) == a + b
    ensures a != [] && Patient((a + b)[1..]) && !o.doNotQueue ==> Patient((a + [o] + b)[1..])
  {
    HasConcat(a, b, o.conn);
    DistinctConcat(a, b);
    DistinctConcat(a, [o]);
    DistinctConcat(a + [o], b);
    WithoutOfSplit(a, o, b);
    if a != [] {
      assert (a + b)[1..] == a[1..] + b;
      assert (a + [o] + b)[1..] == a[1..] + [o] + b;
    }
  }

  /** Adding or moving an owner keeps everyone else in place; a replacing owner ends up right behind the primary one. */
  lemma PutOwnerFacts(q: Queue, c: Conn, f: Flags)
    requires WellFormed(q) && q[0].conn != c
    ensures PutOwner(q, c, f) != [] && PutOwner(q, c, f)[0] == q[0]
    ensures Distinct(PutOwner(q, c, f))
    ensures NewOwner(c, f) in PutOwner(q, c, f)
    ensures Without(PutOwner(q, c, f), c) == Without(q, c)
    ensures f.replaceExisting ==> PutOwner(q, c, f) == [q[0], NewOwner(c, f)] + Without(q, c)[1..]
    ensures !f.replaceExisting && !Has(q, c) ==> PutOwner(q, c, f) == q + [NewOwner(c, f)]
    ensures !f.replaceExisting && Has(q, c) ==> PutOwner(q, c, f) == q[Position(q, c) := NewOwner(c, f)]
    ensures !f.doNotQueue ==> WellFormed(PutOwner(q, c, f))
  {
    var a, b := PutOwnerSplit(q, c, f);
    WithoutFacts(q, c);
    WithoutWellFormed(q, c);
    Rejoin(a, NewOwner(c, f), b);
  }

  /** `PutOwner` puts one entry behind the primary owner of the queue without `c`. */
  lemma PutOwnerSplit(q: Queue, c: Conn, f: Flags) returns (a: Queue, b: Queue)
    requires WellFormed(q) && q[0].conn != c
    ensures a != [] && a[0] == q[0] && a + b == Without(q, c)
    ensures PutOwner(q, c, f) == a + [NewOwner(c, f)] + b
    ensures f.replaceExisting ==> a == [q[0]] && b == Without(q, c)[1..]
  {
    var o := NewOwner(c, f);
    if f.replaceExisting {
      a, b := [q[0]], Without(q, c)[1..];
    } else if Has(q, c) {
      a, b := UpdateInPlace(q, c, o);
    } else {
      a, b := q, [];
      WithoutAbsent(q, c);
      assert q + [] == q;
    }
  }

  lemma UpdateInPlace(q: Queue, c: Conn, o: Owner) returns (a: Queue, b: Queue)
    requires Distinct(q) && Has(q, c) && q[0].conn != c
    ensures a != [] && a[0] == q[0] && a + b == Without(q, c)
    ensures q[Position(q, c) := o] == a + [o] + b
  {
    var x;
    a, x, b := SplitAt(q, c);
    assert q[|a|] == x;
  }

  /** The position of `c` that a reply code announces to the caller. */
  ghost predicate Describes(reply: RequestReply, before: Queue, after: Queue, c: Conn) {
    match reply
    case PrimaryOwner => Primary(before) != Some(c) && Primary(after) == Some(c)
    case AlreadyOwner => Primary(before) == Some(c) && Primary(after) == Some(c)
    case InQueue => Primary(after) == Primary(before) && Primary(after) != Some(c) && Has(after, c)
    case Exists => Primary(after) == Primary(before) && Primary(after) != None && !Has(after, c)
  }

  /** The owners, other than the caller, that a request leaves in the queue: all of them, in order, except a displaced primary that asked not to queue. */
  ghost function OthersAfterRequest(q: Queue, c: Conn, f: Flags): Queue {
    if q != [] && q[0].conn != c && Replaces(q, f) && q[0].doNotQueue then Without(q[1..], c) else Without(q, c)
  }

  /** RequestName keeps the queue well formed, answers with the caller's real position, and moves nobody else. */
  lemma RequestFacts(q: Queue, c: Conn, f: Flags)
    requires q == [] || WellFormed(q)
    ensures WellFormed(Request(q, c, f).0)
    ensures Describes(Request(q, c, f).1, q, Request(q, c, f).0, c)
    ensures Without(Request(q, c, f).0, c) == OthersAfterRequest(q, c, f)
  {
    var o, r := NewOwner(c, f), Request(q, c, f).0;
    if q == [] {
      assert r == [] + [o] + [];
      WithoutOfSplit([], o, []);
    } else if q[0].conn == c {
      WithoutWellFormed(q, c);
      assert q == [] + [q[0]] + q[1..] && r == [] + [o] + q[1..];
      DistinctConcat([], q[1..]);
      SplitHead(q);
      Rejoin([], o, q[1..]);
    } else if Replaces(q, f) {
      ReplaceFacts(q, c, f);
    } else if f.doNotQueue {
      WithoutWellFormed(q, c);
      WithoutFacts(q, c);
      WithoutAbsent(Without(q, c), c);
    } else {
      PutOwnerFacts(q, c, f);
    }
  }

  lemma SplitHead(q: Queue)
    requires q != [] && Distinct(q)
    ensures !Has(q[1..], q[0].conn) && Distinct([] + q[1..]) && [] + q[1..] == q[1..]
  {
    assert q == [q[0]] + q[1..];
    DistinctConcat([q[0]], q[1..]);
    assert q[0] in [q[0]];
  }

  lemma ReplaceFacts(q: Queue, c: Conn, f: Flags)
    requires WellFormed(q) && q[0].conn != c && Replaces(q, f)
    ensures WellFormed(Request(q, c, f).0)
    ensures Without(Request(q, c, f).0, c) == OthersAfterRequest(q, c, f)
  {
    var o, rest := NewOwner(c, f), OthersAfterRequest(q, c, f);
    OthersFacts(q, c, f);
    assert Request(q, c, f).0 == [o] + rest;
    assert ([o] + rest)[1..] == rest;
    DistinctConcat([o], rest);
  }

  lemma OthersFacts(q: Queue, c: Conn, f: Flags)
    requires WellFormed(q) && q[0].conn != c && Replaces(q, f)
    ensures Distinct(OthersAfterRequest(q, c, f)) && !Has(OthersAfterRequest(q, c, f), c)
    ensures Patient(OthersAfterRequest(q, c, f))
  {
    SplitHead(q);
    WithoutFacts(q, c);
    WithoutFacts(q[1..], c);
  }
}
