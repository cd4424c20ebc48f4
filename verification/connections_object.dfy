/** The connection lists and counters as the daemon updates them in place (bus/connection.c). */
module ConnectionsObject {
  import opened BusTypes
  import opened ExpireLists
  import opened Connections

  class ConnectionTable {
    const limits: Limits
    var incomplete: seq<Peer>
    var completed: seq<Peer>
    var nIncomplete: int
    var nCompleted: int
    var byUser: map<int, int>
    var closed: set<Conn>
    var interval: int
    /** Users charged for a completion that failed. */
    ghost var stuck: seq<int>

    ghost function View(): State
      reads this
    {
      State(incomplete, completed, nIncomplete, nCompleted, byUser, closed, interval)
    }

    ghost function Whole(): System
      reads this
    {
      System(View(), stuck)
    }

    ghost predicate Valid()
      reads this
    {
      Counted(Whole(), limits)
    }

    constructor (lim: Limits)
      ensures Valid() && limits == lim && Whole() == System(INIT, [])
    {
      limits := lim;
      incomplete, completed, nIncomplete, nCompleted, byUser, closed, interval := [], [], 0, 0, map[], {}, -1;
      stuck := [];
    }

    /** Walks the list from its oldest end and stops at the first connection with time left. */
    method ExpireIncomplete(now: Timestamp)
      modifies this`closed, this`interval
      ensures View() == Expire(old(View()), limits.authTimeout, now)
    {
      var next, link := -1, 0;
      ghost var k := Scanned(incomplete, limits.authTimeout, now);
      ScannedPrefix(incomplete, limits.authTimeout, now);
      while link < |incomplete|
        invariant 0 <= link <= k && next == -1
        invariant closed == old(closed) + set i | 0 <= i < link :: incomplete[i].conn
      {
        if TimedOut(incomplete[link], limits.authTimeout, now) {
          closed := closed + {incomplete[link].conn};
        } else {
          next := Left(incomplete[link], limits.authTimeout, now);
          break;
        }
        link := link + 1;
      }
      assert link == k;
      interval := next;
    }

    /** Both counts are never negative here: the assertions of the source hold. */
    method AdjustConnections(uid: Option<int>, delta: int)
      requires uid.Some? ==> CountOf(byUser, uid.value) + delta >= 0
      modifies this`byUser
      ensures byUser == Adjust(old(byUser), uid, delta)
    {
      if uid.Some? {
        var count := CountOf(byUser, uid.value) + delta;
        if count == 0 {
          byUser := byUser - {uid.value};
        } else {
          byUser := byUser[uid.value := count];
        }
      }
    }

    method SetupConnection(c: Conn, uid: Option<int>, now: Timestamp)
      requires Valid() && !Listed(incomplete, c) && !Listed(completed, c)
      modifies this
      ensures Valid() && Whole() == Apply(old(Whole()), DoSetup(c, uid, now), limits)
    {
      incomplete, nIncomplete := incomplete + [Peer(c, uid, now)], nIncomplete + 1;
      ExpireIncomplete(now);
      if nIncomplete > limits.maxIncomplete {
        closed := closed + {incomplete[0].conn};
      }
      CountsAreExact(old(Whole()), [DoSetup(c, uid, now)], limits);
      RunOne(old(Whole()), DoSetup(c, uid, now), limits);
    }

    method CheckLimits(c: Conn) returns (ok: bool)
      requires Listed(incomplete, c)
      ensures ok == WithinLimits(View(), PeerOf(incomplete, c).uid, limits)
    {
      if nCompleted >= limits.maxCompleted {
        return false;
      }
      var uid := PeerOf(incomplete, c).uid;
      if uid.Some? && CountOf(byUser, uid.value) >= limits.maxPerUser {
        return false;
      }
      return true;
    }

    /** Moves the link from one list to the other. */
    method MoveToCompleted(p: Peer)
      modifies this`incomplete, this`nIncomplete, this`completed, this`nCompleted
      ensures incomplete == Unlink(old(incomplete), p.conn) && nIncomplete == old(nIncomplete) - 1
      ensures completed == old(completed) + [p] && nCompleted == old(nCompleted) + 1
    {
      incomplete, nIncomplete := Unlink(incomplete, p.conn), nIncomplete - 1;
      completed, nCompleted := completed + [p], nCompleted + 1;
    }

    method CompleteConnection(c: Conn, outcome: Outcome, now: Timestamp)
      requires Valid() && Listed(incomplete, c) && WithinLimits(View(), PeerOf(incomplete, c).uid, limits)
      modifies this
      ensures Valid() && Whole() == Apply(old(Whole()), DoHello(c, outcome, now), limits)
      ensures nIncomplete >= 0 && (outcome == Done ==> nCompleted > 0)
    {
      ghost var s' := Apply(Whole(), DoHello(c, outcome, now), limits);
      assert Counted(s', limits) by { HelloCounted(Whole(), c, outcome, now, limits); }
      var p := PeerOf(incomplete, c);
      if outcome != NoPolicy {
        assert p.uid.Some? ==> CountOf(byUser, p.uid.value) >= 0;
        AdjustConnections(p.uid, 1);
        if outcome == NoLoginInfo {
          if p.uid.Some? { stuck := stuck + [p.uid.value]; }
        } else {
          MoveToCompleted(p);
          ExpireIncomplete(now);
        }
      }
      assert Whole() == s';
    }

    method ConnectionDisconnected(c: Conn, now: Timestamp)
      requires Valid()
      modifies this
      ensures Valid() && Whole() == Apply(old(Whole()), DoDisconnected(c, now), limits)
      ensures nIncomplete >= 0 && nCompleted >= 0
    {
      DisconnectedCounted(Whole(), c, now, limits);
      if Listed(completed, c) {
        var p := PeerOf(completed, c);
        UnlinkFacts(completed, c);
        if p.uid.Some? { assert Users(Unlink(completed, c), p.uid.value) == Users(completed, p.uid.value) - 1; }
        completed, nCompleted := Unlink(completed, c), nCompleted - 1;
        AdjustConnections(p.uid, -1);
      } else if Listed(incomplete, c) {
        incomplete, nIncomplete := Unlink(incomplete, c), nIncomplete - 1;
      }
    }
  }

  lemma RunOne(s: System, step: Step, lim: Limits)
    ensures Run(s, [step], lim) == Apply(s, step, lim)
  {
    assert [step][..0] == [];
  }
}
