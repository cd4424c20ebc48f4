/** The timer of an expire list over whole runs: it is armed whenever there is something to expire, and never too late. */
module ExpireTimers {
  import opened BusTypes
  import opened ExpireLists

  /** A main-loop timeout: it fires `interval` milliseconds after `started`, the last time it fired. */
  datatype Timer = Timer(enabled: bool, started: Timestamp, interval: int) {
    function Deadline(): real { Ms(started) + interval as real }
  }

  /** `bus_expire_timeout_set_interval`. */
  function SetInterval(t: Timer, next: int): Timer {
    if next >= 0 then Timer(true, t.started, next) else t.(enabled := false)
  }

  /** `held` are the items a running transaction has unlinked and may put back; `retry` says the last pass ran out of memory. */
  datatype State = State(items: seq<Item>, held: seq<Item>, timer: Timer, now: Timestamp, retry: bool)

  /** Adding to the list arms a disabled timer for the next main-loop iteration. */
  function Wake(t: Timer): Timer {
    if t.enabled then t else SetInterval(t, 0)
  }

  function RemoveAt<T>(s: seq<T>, i: int): seq<T>
    requires 0 <= i < |s|
  {
    s[..i] + s[i + 1..]
  }

  datatype Step =
    | Tick(at: Timestamp)
    | Add(x: Item)
    | Unlink(i: int)
    | PutBack(i: int)
    | Remove(i: int)
    | Release
    | ExpireNow(i: int)
    | Fire(tv: Timestamp, at: Timestamp, works: Item -> bool, k: int, interval: int)

  /** The clock does not run backwards. */
  predicate NotBefore(a: Timestamp, b: Timestamp) { Ms(b) <= Ms(a) }

  /** The step can happen in `st`. */
  ghost predicate Enabled(st: State, step: Step, after: int) {
    match step
    case Tick(at) => NotBefore(at, st.now)
    case Add(x) => x.added == st.now
    case Unlink(i) => 0 <= i < |st.items|
    case PutBack(i) => 0 <= i < |st.held|
    case Remove(i) => 0 <= i < |st.items|
    case Release => true
    case ExpireNow(i) => 0 <= i < |st.items| && Ms(st.now) >= 0.0
    case Fire(tv, at, works, k, interval) =>
      // a transaction never spans a main-loop iteration, so nothing is held when the timer fires
      && st.held == [] && st.timer.enabled
      && NotBefore(tv, st.now) && NotBefore(at, tv)
      && PassOutcome(st.items, after, at, works, k, interval)
  }

  /** What `DoExpiration` guarantees about the interval it returns. */
  ghost predicate PassOutcome(items: seq<Item>, after: int, now: Timestamp, works: Item -> bool, k: int, interval: int) {
    && FirstFailure(k, items, after, now, works)
    && var left := Fresh(items[..k], after, now) + items[k..];
    && (k < |items| ==> interval == OOM_WAIT)
    && (k == |items| && left == [] ==> interval == -1)
    && (k == |items| && left != [] ==> interval >= 0 && SmallestWait(interval, left, after, now))
  }

  function Apply(st: State, step: Step, after: int): State
    requires Enabled(st, step, after)
  {
    match step
    case Tick(at) => st.(now := at)
    case Add(x) => st.(items := [x] + st.items, timer := Wake(st.timer), retry := st.retry && st.timer.enabled)
    case Unlink(i) => st.(items := RemoveAt(st.items, i), held := [st.items[i]] + st.held)
    case PutBack(i) =>
      st.(items := [st.held[i]] + st.items, held := RemoveAt(st.held, i), timer := Wake(st.timer), retry := st.retry && st.timer.enabled)
    case Remove(i) => st.(items := RemoveAt(st.items, i))
    case Release => st.(held := [])
    case ExpireNow(i) =>
      st.(items := st.items[i := st.items[i].(sender := None, added := Timestamp(0, 0))], timer := SetInterval(st.timer, 0), retry := false)
    case Fire(tv, at, works, k, interval) =>
      State(Fresh(st.items[..k], after, at) + st.items[k..], [], SetInterval(st.timer.(started := tv), interval), at, k < |st.items|)
  }

  function Max(a: real, b: real): real { if a >= b then a else b }

  /** When the item becomes due. */
  function DueAt(x: Item, after: int): real { Ms(x.added) + after as real }

  function Slack(st: State): real { if st.retry then OOM_WAIT as real else 0.0 }

  /** The timer will fire by the time the item is due, or at once if it already is. */
  ghost predicate Covered(st: State, x: Item, after: int) {
    && Ms(x.added) <= Ms(st.now)
    && st.timer.enabled
    && st.timer.Deadline() <= Max(Ms(st.now), DueAt(x, after)) + Slack(st)
  }

  ghost predicate Armed(st: State, after: int) {
    && Ms(st.timer.started) <= Ms(st.now)
    && (st.timer.enabled ==> st.timer.interval >= 0 && st.timer.Deadline() <= Ms(st.now) + Max(0.0, after as real) + Slack(st))
    && (forall x :: x in st.items ==> Covered(st, x, after))
    && (forall x :: x in st.held ==> Covered(st, x, after))
  }

  lemma RemoveAtMembers<T>(s: seq<T>, i: int)
    requires 0 <= i < |s|
    ensures forall x :: x in RemoveAt(s, i) ==> x in s
  {
  }

  lemma FireArmed(st: State, tv: Timestamp, at: Timestamp, works: Item -> bool, k: int, interval: int, after: int)
    requires Armed(st, after) && Enabled(st, Fire(tv, at, works, k, interval), after)
    ensures Armed(Apply(st, Fire(tv, at, works, k, interval), after), after)
  {
    var st' := Apply(st, Fire(tv, at, works, k, interval), after);
    FreshMembers(st.items[..k], after, at);
    assert forall x :: x in st.items[..k] ==> x in st.items;
    assert forall x :: x in st.items[k..] ==> x in st.items;
    if k == |st.items| && st'.items != [] {
      assert st.items[k..] == [];
      forall x | x in st'.items
        ensures Covered(st', x, after)
      {
        ElapsedIsDifference(x.added, at);
        assert x in Fresh(st.items[..k], after, at);
        assert interval <= Wait(x, after, at).Floor;
      }
      var x := st'.items[0];
      assert x in st'.items && x in st.items && interval <= Wait(x, after, at).Floor;
      ElapsedIsDifference(x.added, at);
    }
  }

  /** Immediate rechecking covers everything. */
  lemma ExpireNowArmed(st: State, i: int, after: int)
    requires Armed(st, after) && 0 <= i < |st.items| && Ms(st.now) >= 0.0
    ensures Armed(Apply(st, ExpireNow(i), after), after)
  {
    var st' := Apply(st, ExpireNow(i), after);
    assert st'.timer.Deadline() == Ms(st.timer.started) <= Ms(st'.now);
    forall x | x in st'.items
      ensures Covered(st', x, after)
    {
      assert x == st'.items[i] || x in st.items;
    }
  }

  lemma ApplyArmed(st: State, step: Step, after: int)
    requires Armed(st, after) && Enabled(st, step, after)
    ensures Armed(Apply(st, step, after), after)
  {
    match step
    case Tick(at) =>
    case Add(x) =>
    case Unlink(i) =>
      RemoveAtMembers(st.items, i);
      assert st.items[i] in st.items;
    case PutBack(i) =>
      RemoveAtMembers(st.held, i);
      assert st.held[i] in st.held;
    case Remove(i) => RemoveAtMembers(st.items, i);
    case Release =>
    case ExpireNow(i) => ExpireNowArmed(st, i, after);
    case Fire(tv, at, works, k, interval) => FireArmed(st, tv, at, works, k, interval, after);
  }

  /** A run: every step is possible in the state it starts from. */
  ghost predicate Possible(st: State, steps: seq<Step>, after: int)
    decreases |steps|
  {
    steps == [] || (Enabled(st, steps[0], after) && Possible(Apply(st, steps[0], after), steps[1..], after))
  }

  function Run(st: State, steps: seq<Step>, after: int): State
    requires Possible(st, steps, after)
    decreases |steps|
  {
    if steps == [] then st else Run(Apply(st, steps[0], after), steps[1..], after)
  }

  /** A new list: nothing in it, timer disabled. */
  function New(now: Timestamp): State { State([], [], Timer(false, now, 100), now, false) }

  lemma {:induction false} RunArmed(st: State, steps: seq<Step>, after: int)
    requires Armed(st, after) && Possible(st, steps, after)
    ensures Armed(Run(st, steps, after), after)
    decreases |steps|
  {
    if steps != [] {
      ApplyArmed(st, steps[0], after);
      RunArmed(Apply(st, steps[0], after), steps[1..], after);
    }
  }

  /**
   Whatever is done to the list, as long as it holds anything the timer is enabled, and once an
   item is due the timer is due too, or within the out-of-memory pause of a failed pass.
   */
  lemma TimerNeverLate(now: Timestamp, steps: seq<Step>, after: int, x: Item)
    requires Possible(New(now), steps, after)
    requires x in Run(New(now), steps, after).items
    ensures var st := Run(New(now), steps, after);
            && st.timer.enabled
            && st.timer.Deadline() <= Max(Ms(st.now), DueAt(x, after)) + Slack(st)
            && (Due(x, after, st.now) ==> st.timer.Deadline() <= Ms(st.now) + Slack(st))
  {
    RunArmed(New(now), steps, after);
    ElapsedIsDifference(x.added, Run(New(now), steps, after).now);
  }

  /** BusExpireList. */
  class ExpireList {
    var items: seq<Item>
    var timer: Timer
    const expireAfter: int

    constructor (expireAfter: int, now: Timestamp)
      ensures this.expireAfter == expireAfter && items == New(now).items && timer == New(now).timer
    {
      this.expireAfter := expireAfter;
      items := [];
      timer := Timer(false, now, 100);
    }

    method SetTimer(next: int)
      modifies this`timer
      ensures timer == SetInterval(old(timer), next)
    {
      if next >= 0 {
        timer := timer.(interval := next);
        timer := timer.(enabled := true);
      } else if timer.enabled {
        timer := timer.(enabled := false);
      }
    }

    /** `bus_expire_list_add` and `bus_expire_list_add_link`. */
    method Add(x: Item)
      modifies this`items, this`timer
      ensures items == [x] + old(items) && timer == Wake(old(timer))
    {
      items := [x] + items;
      if !timer.enabled {
        SetTimer(0);
      }
    }

    /** `bus_expire_list_remove`: unlinks the record with this identity, if it is there. */
    method Remove(id: nat) returns (found: bool)
      modifies this`items
      ensures found <==> exists i :: 0 <= i < |old(items)| && old(items)[i].id == id
      ensures !found ==> items == old(items)
      ensures found ==> exists i :: 0 <= i < |old(items)| && old(items)[i].id == id && items == RemoveAt(old(items), i)
                                    && forall j :: 0 <= j < i ==> old(items)[j].id != id
    {
      var i := 0;
      while i < |items| && items[i].id != id
        invariant 0 <= i <= |items| && forall j :: 0 <= j < i ==> items[j].id != id
        modifies {}
      {
        i := i + 1;
      }
      found := i < |items|;
      if found {
        items := items[..i] + items[i + 1..];
      }
    }

    method RecheckImmediately()
      modifies this`timer
      ensures timer == SetInterval(old(timer), 0)
    {
      SetTimer(0);
    }

    /** The main loop runs the timer at `tv`; `bus_expirelist_expire` reads the clock as `now`. */
    method Fire(tv: Timestamp, now: Timestamp, works: Item -> bool) returns (interval: int)
      modifies this`items, this`timer
      ensures var k := FailsAt(old(items), expireAfter, now, works);
              && PassOutcome(old(items), expireAfter, now, works, k, interval)
              && items == Fresh(old(items)[..k], expireAfter, now) + old(items)[k..]
      ensures timer == SetInterval(old(timer).(started := tv), interval)
    {
      FailsAtFirst(items, expireAfter, now, works);
      timer := timer.(started := tv);
      interval := -1;
      if items != [] {
        items, interval := DoExpiration(items, expireAfter, now, works);
      }
      SetTimer(interval);
    }
  }
}
