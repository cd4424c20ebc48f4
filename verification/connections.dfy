/**
 Connections before and after they say Hello: the two lists, the per-user counts and the time
 allowed for authentication (bus/connection.c:112-168, 257-283, 690-734, 796-851, 1352-1434, 1451-1485).
 */
module Connections {
  import opened BusTypes
  import opened ExpireLists

  /** A connection with the uid of its peer, if that is known, and the time it was set up. */
  datatype Peer = Peer(conn: Conn, uid: Option<int>, since: Timestamp)

  datatype Limits = Limits(maxIncomplete: nat, maxCompleted: nat, maxPerUser: nat, authTimeout: int)

  /** `closed` are the connections told to close; `interval` is what the timer is set to, -1 for none. */
  datatype State = State(
    incomplete: seq<Peer>, completed: seq<Peer>, nIncomplete: int, nCompleted: int,
    byUser: map<int, int>, closed: set<Conn>, interval: int)

  const INIT: State := State([], [], 0, 0, map[], {}, -1)

  // ----- the table of counts

  function CountOf(byUser: map<int, int>, uid: int): int { if uid in byUser then byUser[uid] else 0 }

  /** `adjust_connections_for_uid` */
  function Adjust(byUser: map<int, int>, uid: Option<int>, delta: int): map<int, int> {
    match uid
    case None => byUser
    case Some(u) => if CountOf(byUser, u) + delta == 0 then byUser - {u} else byUser[u := CountOf(byUser, u) + delta]
  }

  /** How many of these connections belong to the user. */
  function Users(list: seq<Peer>, uid: int): nat {
    if list == [] then 0 else Users(list[..|list| - 1], uid) + if list[|list| - 1].uid == Some(uid) then 1 else 0
  }

  // ----- lists

  predicate Listed(list: seq<Peer>, c: Conn) { exists i :: 0 <= i < |list| && list[i].conn == c }

  function PeerOf(list: seq<Peer>, c: Conn): (p: Peer)
    requires Listed(list, c)
    ensures p in list && p.conn == c
  {
    if list[|list| - 1].conn == c then list[|list| - 1] else PeerOf(list[..|list| - 1], c)
  }

  /** The list without the link of `c`. */
  function Unlink(list: seq<Peer>, c: Conn): seq<Peer> {
    if list == [] then []
    else if list[|list| - 1].conn == c then list[..|list| - 1]
    else Unlink(list[..|list| - 1], c) + [list[|list| - 1]]
  }

  // ----- authentication timeouts

  predicate TimedOut(p: Peer, timeout: int, now: Timestamp) { Elapsed(p.since, now) >= timeout as real }

  /** What the C conversion of the remaining time to an `int` gives; it is positive. */
  function Left(p: Peer, timeout: int, now: Timestamp): int { (timeout as real - Elapsed(p.since, now)).Floor }

  /** How many connections the scan closes before it meets one that has time left. */
  function Scanned(list: seq<Peer>, timeout: int, now: Timestamp): (n: nat)
    ensures n <= |list|
  {
    if list == [] || !TimedOut(list[0], timeout, now) then 0 else 1 + Scanned(list[1..], timeout, now)
  }

  function NextInterval(list: seq<Peer>, timeout: int, now: Timestamp): int {
    var k := Scanned(list, timeout, now);
    if k == |list| then -1 else Left(list[k], timeout, now)
  }

  /** `bus_connections_expire_incomplete` */
  function Expire(st: State, timeout: int, now: Timestamp): State {
    var k := Scanned(st.incomplete, timeout, now);
    st.(closed := st.closed + (set i | 0 <= i < k :: st.incomplete[i].conn), interval := NextInterval(st.incomplete, timeout, now))
  }

  // ----- operations

  /** `bus_connections_setup_connection`: the newest connection goes last, and the oldest one is closed if there are too many. */
  function Setup(st: State, p: Peer, now: Timestamp, lim: Limits): State {
    var st1 := Expire(st.(incomplete := st.incomplete + [p], nIncomplete := st.nIncomplete + 1), lim.authTimeout, now);
    if st1.nIncomplete > lim.maxIncomplete then st1.(closed := st1.closed + {st1.incomplete[0].conn}) else st1
  }

  /** `bus_connections_check_limits` */
  predicate WithinLimits(st: State, uid: Option<int>, lim: Limits) {
    && st.nCompleted < lim.maxCompleted
    && (uid.Some? ==> CountOf(st.byUser, uid.value) < lim.maxPerUser)
  }

  /** How `bus_connection_complete` ends: no policy, no memory for the log information, or done. */
  datatype Outcome = NoPolicy | NoLoginInfo | Done

  /** Running out of memory for the log information leaves the connection counted although it is not completed. */
  function Complete(st: State, c: Conn, outcome: Outcome, now: Timestamp, lim: Limits): State
    requires Listed(st.incomplete, c)
  {
    var p := PeerOf(st.incomplete, c);
    match outcome
    case NoPolicy => st
    case NoLoginInfo => st.(byUser := Adjust(st.byUser, p.uid, 1))
    case Done =>
      Expire(st.(incomplete := Unlink(st.incomplete, c), nIncomplete := st.nIncomplete - 1,
                 completed := st.completed + [p], nCompleted := st.nCompleted + 1,
                 byUser := Adjust(st.byUser, p.uid, 1)), lim.authTimeout, now)
  }

  /** The part of `bus_connection_disconnected` that concerns the lists. */
  function Disconnected(st: State, c: Conn): State {
    if Listed(st.completed, c) then
      st.(completed := Unlink(st.completed, c), nCompleted := st.nCompleted - 1,
          byUser := Adjust(st.byUser, PeerOf(st.completed, c).uid, -1))
    else if Listed(st.incomplete, c) then
      st.(incomplete := Unlink(st.incomplete, c), nIncomplete := st.nIncomplete - 1)
    else st
  }

  // ----- runs

  datatype Step =
    | DoSetup(c: Conn, uid: Option<int>, now: Timestamp)
    | DoHello(c: Conn, outcome: Outcome, now: Timestamp)
    | DoDisconnected(c: Conn, now: Timestamp)
    | DoExpire(now: Timestamp)

  /** `stuck` lists the users charged for a completion that failed. */
  datatype System = System(st: State, stuck: seq<int>)

  function Apply(s: System, step: Step, lim: Limits): System {
    var st := s.st;
    match step
    case DoSetup(c, uid, now) =>
      if Listed(st.incomplete, c) || Listed(st.completed, c) then s else s.(st := Setup(st, Peer(c, uid, now), now, lim))
    case DoHello(c, outcome, now) =>
      if !Listed(st.incomplete, c) || !WithinLimits(st, PeerOf(st.incomplete, c).uid, lim) then s
      else
        var uid := PeerOf(st.incomplete, c).uid;
        System(Complete(st, c, outcome, now, lim), if outcome == NoLoginInfo && uid.Some? then s.stuck + [uid.value] else s.stuck)
    case DoDisconnected(c, now) => s.(st := Disconnected(st, c))
    case DoExpire(now) => s.(st := Expire(st, lim.authTimeout, now))
  }

  function Run(s: System, steps: seq<Step>, lim: Limits): System
    decreases |steps|
  {
    if steps == [] then s else Apply(Run(s, steps[..|steps| - 1], lim), steps[|steps| - 1], lim)
  }

  function Times(uids: seq<int>, u: int): nat {
    if uids == [] then 0 else Times(uids[..|uids| - 1], u) + if uids[|uids| - 1] == u then 1 else 0
  }

  ghost predicate Counted(s: System, lim: Limits) {
    && s.st.nIncomplete == |s.st.incomplete| && s.st.nCompleted == |s.st.completed| <= lim.maxCompleted
    && (forall u :: u in s.st.byUser ==> s.st.byUser[u] > 0)
    && (forall u :: CountOf(s.st.byUser, u) == Users(s.st.completed, u) + Times(s.stuck, u))
    && (forall u :: CountOf(s.st.byUser, u) <= lim.maxPerUser)
  }

  lemma {:induction false} UnlinkFacts(list: seq<Peer>, c: Conn)
    requires Listed(list, c)
    ensures |Unlink(list, c)| == |list| - 1
    ensures forall u :: Users(Unlink(list, c), u) == Users(list, u) - if PeerOf(list, c).uid == Some(u) then 1 else 0
  {
    var front, last := list[..|list| - 1], list[|list| - 1];
    if last.conn != c {
      UnlinkFacts(front, c);
      assert (Unlink(front, c) + [last])[..|front| - 1] == Unlink(front, c);
    }
  }

  lemma UsersSnoc(list: seq<Peer>, p: Peer)
    ensures forall u :: Users(list + [p], u) == Users(list, u) + if p.uid == Some(u) then 1 else 0
  {
    assert (list + [p])[..|list|] == list;
  }

  lemma TimesSnoc(uids: seq<int>, x: int)
    ensures forall u :: Times(uids + [x], u) == Times(uids, u) + if u == x then 1 else 0
  {
    assert (uids + [x])[..|uids|] == uids;
  }

  lemma AdjustFacts(byUser: map<int, int>, uid: Option<int>, delta: int)
    requires (forall u :: u in byUser ==> byUser[u] > 0) && (uid.Some? ==> CountOf(byUser, uid.value) + delta >= 0)
    ensures var m := Adjust(byUser, uid, delta);
            && (forall u :: u in m ==> m[u] > 0)
            && forall u :: CountOf(m, u) == CountOf(byUser, u) + if uid == Some(u) then delta else 0
  {
  }

  lemma AdjustChanges(byUser: map<int, int>, u: int)
    ensures Adjust(byUser, Some(u), 1) != byUser
  {
    var m := Adjust(byUser, Some(u), 1);
    assert u in m ==> u in byUser ==> m[u] == byUser[u] + 1;
  }

  lemma StuckCounted(s: System, u0: int, lim: Limits)
    requires Counted(s, lim) && WithinLimits(s.st, Some(u0), lim)
    ensures Counted(System(s.st.(byUser := Adjust(s.st.byUser, Some(u0), 1)), s.stuck + [u0]), lim)
  {
    var m := Adjust(s.st.byUser, Some(u0), 1);
    AdjustFacts(s.st.byUser, Some(u0), 1);
    TimesSnoc(s.stuck, u0);
    forall u
      ensures CountOf(m, u) == Users(s.st.completed, u) + Times(s.stuck + [u0], u) && CountOf(m, u) <= lim.maxPerUser
    {
      assert CountOf(s.st.byUser, u) == Users(s.st.completed, u) + Times(s.stuck, u) && CountOf(s.st.byUser, u) <= lim.maxPerUser;
    }
  }

  lemma DoneCounted(s: System, c: Conn, now: Timestamp, lim: Limits)
    requires Counted(s, lim) && Listed(s.st.incomplete, c) && WithinLimits(s.st, PeerOf(s.st.incomplete, c).uid, lim)
    ensures Counted(s.(st := Complete(s.st, c, Done, now, lim)), lim)
  {
    var p := PeerOf(s.st.incomplete, c);
    AdjustFacts(s.st.byUser, p.uid, 1);
    UnlinkFacts(s.st.incomplete, c);
    UsersSnoc(s.st.completed, p);
  }

  lemma HelloCounted(s: System, c: Conn, outcome: Outcome, now: Timestamp, lim: Limits)
    requires Counted(s, lim)
    ensures Counted(Apply(s, DoHello(c, outcome, now), lim), lim)
  {
    if Listed(s.st.incomplete, c) && WithinLimits(s.st, PeerOf(s.st.incomplete, c).uid, lim) {
      match outcome
      case NoPolicy =>
      case NoLoginInfo =>
        var uid := PeerOf(s.st.incomplete, c).uid;
        if uid.Some? { StuckCounted(s, uid.value, lim); }
      case Done => DoneCounted(s, c, now, lim);
    }
  }

  lemma DisconnectedCounted(s: System, c: Conn, now: Timestamp, lim: Limits)
    requires Counted(s, lim)
    ensures Counted(Apply(s, DoDisconnected(c, now), lim), lim)
  {
    var st := s.st;
    if Listed(st.completed, c) {
      var p := PeerOf(st.completed, c);
      UnlinkFacts(st.completed, c);
      if p.uid.Some? { assert Users(Unlink(st.completed, c), p.uid.value) == Users(st.completed, p.uid.value) - 1; }
      AdjustFacts(st.byUser, p.uid, -1);
    } else if Listed(st.incomplete, c) {
      UnlinkFacts(st.incomplete, c);
    }
  }

  /**
   In every run the count kept for a user is the number of that user's completed connections plus the
   completions that failed for want of memory after being counted, and no count exceeds its limit.
   */
  lemma {:induction false} CountsAreExact(s: System, steps: seq<Step>, lim: Limits)
    requires Counted(s, lim)
    ensures Counted(Run(s, steps, lim), lim)
    decreases |steps|
  {
    if steps != [] {
      CountsAreExact(s, steps[..|steps| - 1], lim);
      var s1, step := Run(s, steps[..|steps| - 1], lim), steps[|steps| - 1];
      match step
      case DoHello(c, outcome, now) => HelloCounted(s1, c, outcome, now, lim);
      case DoDisconnected(c, now) => DisconnectedCounted(s1, c, now, lim);
      case _ =>
    }
  }

  /** The user that the step charges for a completion that fails after it was counted, if it is one. */
  function ChargeOf(s: System, step: Step, lim: Limits): Option<int> {
    if step.DoHello? && step.outcome == NoLoginInfo && Listed(s.st.incomplete, step.c)
       && WithinLimits(s.st, PeerOf(s.st.incomplete, step.c).uid, lim)
    then PeerOf(s.st.incomplete, step.c).uid
    else None
  }

  /** Some step of the run charged the user so. */
  predicate Charged(steps: seq<Step>, u: int, lim: Limits)
    decreases |steps|
  {
    steps != [] &&
      var front, last := steps[..|steps| - 1], steps[|steps| - 1];
      Charged(front, u, lim) || ChargeOf(Run(System(INIT, []), front, lim), last, lim) == Some(u)
  }

  lemma ApplyStuck(s: System, step: Step, lim: Limits)
    ensures Apply(s, step, lim).stuck == match ChargeOf(s, step, lim) case Some(u) => s.stuck + [u] case None => s.stuck
  {
    match step
    case DoHello(c, outcome, now) =>
    case _ =>
  }

  lemma {:induction false} StuckIffCharged(steps: seq<Step>, u: int, lim: Limits)
    ensures Times(Run(System(INIT, []), steps, lim).stuck, u) > 0 <==> Charged(steps, u, lim)
    decreases |steps|
  {
    if steps != [] {
      var front, last := steps[..|steps| - 1], steps[|steps| - 1];
      StuckIffCharged(front, u, lim);
      var s := Run(System(INIT, []), front, lim);
      ApplyStuck(s, last, lim);
      if ChargeOf(s, last, lim).Some? {
        TimesSnoc(s.stuck, ChargeOf(s, last, lim).value);
      }
    }
  }

  /**
   The count kept for a user is the number of that user's completed connections if and only if no
   completion for the user ran out of memory for the log information.
   */
  lemma CountIsNumberIff(steps: seq<Step>, lim: Limits, u: int)
    ensures var st := Run(System(INIT, []), steps, lim).st;
            && (CountOf(st.byUser, u) == Users(st.completed, u) <==> !Charged(steps, u, lim))
            && CountOf(st.byUser, u) <= lim.maxPerUser
            && st.nCompleted == |st.completed| <= lim.maxCompleted && st.nIncomplete == |st.incomplete|
  {
    CountsAreExact(System(INIT, []), steps, lim);
    StuckIffCharged(steps, u, lim);
  }

  /** The peer of `ChargedForever` before and after its failed completion. */
  lemma ChargedOnce(now: Timestamp, u: int, lim: Limits)
    requires lim.maxIncomplete >= 1 && lim.maxCompleted >= 1 && lim.maxPerUser >= 1
    ensures var s := Apply(System(INIT, []), DoSetup(1, Some(u), now), lim);
            var s' := Apply(s, DoHello(1, NoLoginInfo, now), lim);
            s'.st.incomplete == [Peer(1, Some(u), now)] && s'.st.completed == [] && s'.st.byUser == map[u := 1]
  {
    var s := Apply(System(INIT, []), DoSetup(1, Some(u), now), lim);
    assert s.st.incomplete == [Peer(1, Some(u), now)] && s.st.incomplete[0].conn == 1;
  }

  lemma ThreeSteps(s: System, a: Step, b: Step, c: Step, lim: Limits)
    ensures Run(s, [a, b, c], lim) == Apply(Apply(Apply(s, a, lim), b, lim), c, lim)
  {
    assert [a, b, c][..2] == [a, b] && [a, b][..1] == [a] && [a][..0] == [];
    assert Run(s, [a], lim) == Apply(s, a, lim);
    assert Run(s, [a, b], lim) == Apply(Apply(s, a, lim), b, lim);
  }

  /** One failed completion, and the user of the closed connection cannot log in again under a limit of one. */
  lemma ChargedForever(now: Timestamp, u: int)
    ensures var lim := Limits(1, 1, 1, 1000);
            var st := Run(System(INIT, []), [DoSetup(1, Some(u), now), DoHello(1, NoLoginInfo, now), DoDisconnected(1, now)], lim).st;
            st.incomplete == [] && st.completed == [] && CountOf(st.byUser, u) == 1 && !WithinLimits(st, Some(u), lim)
  {
    var lim := Limits(1, 1, 1, 1000);
    ChargedOnce(now, u, lim);
    ThreeSteps(System(INIT, []), DoSetup(1, Some(u), now), DoHello(1, NoLoginInfo, now), DoDisconnected(1, now), lim);
    assert [Peer(1, Some(u), now)][0].conn == 1;
  }

  // ----- oldest first

  ghost predicate OldestFirst(list: seq<Peer>) {
    forall i, j :: 0 <= i < j < |list| ==> Ms(list[i].since) <= Ms(list[j].since)
  }

  /** The clock never goes back. */
  ghost predicate Forward(steps: seq<Step>) {
    forall i, j :: 0 <= i < j < |steps| ==> Ms(steps[i].now) <= Ms(steps[j].now)
  }

  ghost predicate Ordered(st: State, now: Timestamp) {
    OldestFirst(st.incomplete) && forall p :: p in st.incomplete ==> Ms(p.since) <= Ms(now)
  }

  lemma {:induction false} UnlinkKeepsOrder(list: seq<Peer>, c: Conn)
    requires OldestFirst(list)
    ensures OldestFirst(Unlink(list, c)) && forall p :: p in Unlink(list, c) ==> p in list
  {
    if list != [] {
      var front, last := list[..|list| - 1], list[|list| - 1];
      UnlinkKeepsOrder(front, c);
      if last.conn != c {
        forall p | p in Unlink(front, c)
          ensures Ms(p.since) <= Ms(last.since)
        {
          assert p in front;
        }
      }
    }
  }

  lemma ApplyKeepsOrder(s: System, step: Step, lim: Limits)
    requires Ordered(s.st, step.now)
    ensures Ordered(Apply(s, step, lim).st, step.now)
  {
    var st := s.st;
    match step
    case DoSetup(c, uid, now) =>
    case DoHello(c, outcome, now) => UnlinkKeepsOrder(st.incomplete, c);
    case DoDisconnected(c, now) => UnlinkKeepsOrder(st.incomplete, c);
    case DoExpire(now) =>
  }

  lemma {:induction false} RunKeepsOrder(steps: seq<Step>, lim: Limits, now: Timestamp)
    requires Forward(steps) && forall i :: 0 <= i < |steps| ==> Ms(steps[i].now) <= Ms(now)
    ensures Ordered(Run(System(INIT, []), steps, lim).st, now)
    decreases |steps|
  {
    if steps != [] {
      var front, step := steps[..|steps| - 1], steps[|steps| - 1];
      RunKeepsOrder(front, lim, step.now);
      ApplyKeepsOrder(Run(System(INIT, []), front, lim), step, lim);
    }
  }

  // ----- the scan that stops early

  lemma {:induction false} ScannedPrefix(list: seq<Peer>, timeout: int, now: Timestamp)
    ensures var k := Scanned(list, timeout, now);
            && (forall i :: 0 <= i < k ==> TimedOut(list[i], timeout, now))
            && (k < |list| ==> !TimedOut(list[k], timeout, now))
  {
    if list != [] && TimedOut(list[0], timeout, now) {
      ScannedPrefix(list[1..], timeout, now);
    }
  }

  /** The connections closed are those whose time is up. */
  ghost predicate ExactlyTimedOut(st: State, st': State, timeout: int, now: Timestamp) {
    forall c :: c in st'.closed <==> c in st.closed || exists p :: p in st.incomplete && p.conn == c && TimedOut(p, timeout, now)
  }

  /** The timer is off if nobody has time left, and otherwise set to the least time that anybody has left. */
  ghost predicate LeastLeft(st: State, n: int, timeout: int, now: Timestamp) {
    if forall p :: p in st.incomplete ==> TimedOut(p, timeout, now) then n == -1
    else
      && (exists p :: p in st.incomplete && !TimedOut(p, timeout, now) && n == Left(p, timeout, now))
      && (forall p :: p in st.incomplete && !TimedOut(p, timeout, now) ==> n <= Left(p, timeout, now))
  }

  lemma LaterHasMore(a: Peer, b: Peer, timeout: int, now: Timestamp)
    requires Ms(a.since) <= Ms(b.since)
    ensures TimedOut(b, timeout, now) ==> TimedOut(a, timeout, now)
    ensures Left(a, timeout, now) <= Left(b, timeout, now)
  {
    ElapsedIsDifference(a.since, now);
    ElapsedIsDifference(b.since, now);
  }

  lemma ScanFindsAll(list: seq<Peer>, timeout: int, now: Timestamp)
    requires OldestFirst(list)
    ensures forall i :: 0 <= i < |list| ==> (i < Scanned(list, timeout, now) <==> TimedOut(list[i], timeout, now))
    ensures var k := Scanned(list, timeout, now); forall i :: k <= i < |list| ==> Left(list[k], timeout, now) <= Left(list[i], timeout, now)
  {
    ScannedPrefix(list, timeout, now);
    var k := Scanned(list, timeout, now);
    forall i | k <= i < |list|
      ensures !TimedOut(list[i], timeout, now) && Left(list[k], timeout, now) <= Left(list[i], timeout, now)
    {
      LaterHasMore(list[k], list[i], timeout, now);
    }
  }

  lemma ExpireIsExact(st: State, timeout: int, now: Timestamp)
    requires OldestFirst(st.incomplete)
    ensures ExactlyTimedOut(st, Expire(st, timeout, now), timeout, now)
    ensures LeastLeft(st, Expire(st, timeout, now).interval, timeout, now)
  {
    var list, k := st.incomplete, Scanned(st.incomplete, timeout, now);
    ScanFindsAll(list, timeout, now);
    assert forall i :: 0 <= i < |list| ==> list[i] in list;
    assert forall p :: p in list ==> exists i :: 0 <= i < |list| && list[i] == p;
  }

  /**
   Whatever happened before, as long as the clock did not go back: the scan, which stops at the first
   connection with time left, closes exactly the connections whose time is up and sets the timer to the
   least time left.
   */
  lemma ScanIsExact(steps: seq<Step>, lim: Limits, now: Timestamp)
    requires Forward(steps) && forall i :: 0 <= i < |steps| ==> Ms(steps[i].now) <= Ms(now)
    ensures var st := Run(System(INIT, []), steps, lim).st;
            var st' := Expire(st, lim.authTimeout, now);
            ExactlyTimedOut(st, st', lim.authTimeout, now) && LeastLeft(st, st'.interval, lim.authTimeout, now)
  {
    RunKeepsOrder(steps, lim, now);
    ExpireIsExact(Run(System(INIT, []), steps, lim).st, lim.authTimeout, now);
  }

  // ----- every connection is listed once

  ghost predicate Distinct(list: seq<Peer>) {
    forall i, j :: 0 <= i < j < |list| ==> list[i].conn != list[j].conn
  }

  ghost predicate ListedOnce(st: State) {
    && Distinct(st.incomplete) && Distinct(st.completed)
    && forall i, j :: 0 <= i < |st.incomplete| && 0 <= j < |st.completed| ==> st.incomplete[i].conn != st.completed[j].conn
  }

  lemma {:induction false} UnlinkDistinct(list: seq<Peer>, c: Conn)
    requires Distinct(list)
    ensures Distinct(Unlink(list, c)) && !Listed(Unlink(list, c), c)
    ensures forall p :: p in Unlink(list, c) <==> p in list && p.conn != c
  {
    if list != [] {
      var front, last := list[..|list| - 1], list[|list| - 1];
      assert list == front + [last];
      UnlinkDistinct(front, c);
      if last.conn != c {
        forall p | p in Unlink(front, c)
          ensures p.conn != last.conn
        {
          assert p in front;
        }
      }
    }
  }

  lemma MovedOnce(st: State, c: Conn)
    requires ListedOnce(st) && Listed(st.incomplete, c)
    ensures ListedOnce(st.(incomplete := Unlink(st.incomplete, c), completed := st.completed + [PeerOf(st.incomplete, c)]))
  {
    UnlinkDistinct(st.incomplete, c);
    var p, left := PeerOf(st.incomplete, c), Unlink(st.incomplete, c);
    forall i | 0 <= i < |left|
      ensures left[i].conn != c && forall j :: 0 <= j < |st.completed| ==> left[i].conn != st.completed[j].conn
    {
      assert left[i] in left && left[i] in st.incomplete;
    }
  }

  lemma UnlistedOnce(st: State, c: Conn)
    requires ListedOnce(st)
    ensures ListedOnce(Disconnected(st, c))
    ensures !Listed(Disconnected(st, c).incomplete, c) && !Listed(Disconnected(st, c).completed, c)
  {
    UnlinkDistinct(st.incomplete, c);
    UnlinkDistinct(st.completed, c);
    var inc, com := Unlink(st.incomplete, c), Unlink(st.completed, c);
    assert forall i :: 0 <= i < |inc| ==> inc[i] in inc && inc[i] in st.incomplete;
    assert forall j :: 0 <= j < |com| ==> com[j] in com && com[j] in st.completed;
  }

  /** In every run a connection is in one place of one list at most, so that disconnecting takes it out of both lists. */
  lemma {:induction false} RunListedOnce(s: System, steps: seq<Step>, lim: Limits)
    requires ListedOnce(s.st)
    ensures ListedOnce(Run(s, steps, lim).st)
    decreases |steps|
  {
    if steps != [] {
      RunListedOnce(s, steps[..|steps| - 1], lim);
      var st, step := Run(s, steps[..|steps| - 1], lim).st, steps[|steps| - 1];
      match step
      case DoHello(c, outcome, now) => if Listed(st.incomplete, c) { MovedOnce(st, c); }
      case DoDisconnected(c, now) => UnlistedOnce(st, c);
      case _ =>
    }
  }
}
