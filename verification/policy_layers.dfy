/** From the policy of the configuration to the rules of one client (bus/policy.c:120-134, 237-373, 605-693). */
module PolicyLayers {
  import opened BusTypes
  import opened Policy
  import opened PolicyOptimizer

  datatype BusPolicy = BusPolicy(defaults: seq<Rule>, mandatory: seq<Rule>, byUid: map<int, seq<Rule>>, byGid: map<int, seq<Rule>>,
                                 atConsole: seq<Rule>, notAtConsole: seq<Rule>)

  /**
   What the daemon finds out about the client: its groups (None if they cannot be determined), its
   uid if it has one, and whether that user is at the console (None if that cannot be determined).
   */
  datatype Peer = Peer(groups: Option<seq<int>>, uid: Option<int>, console: Option<bool>)

  /** Rules about users and groups are not per connection. */
  function PerClient(rules: seq<Rule>): seq<Rule> {
    if rules == [] then []
    else if rules[0].UserRule? || rules[0].GroupRule? then PerClient(rules[1..])
    else [rules[0]] + PerClient(rules[1..])
  }

  function ListFor(table: map<int, seq<Rule>>, id: int): seq<Rule> {
    if id in table then table[id] else []
  }

  function GroupRules(table: map<int, seq<Rule>>, groups: seq<int>): seq<Rule> {
    if groups == [] then [] else ListFor(table, groups[0]) + GroupRules(table, groups[1..])
  }

  function UserRules(p: BusPolicy, who: Peer): seq<Rule> {
    if who.uid.None? then []
    else ListFor(p.byUid, who.uid.value) + if who.console == Some(true) then p.atConsole else p.notAtConsole
  }

  /** All rules that concern the client, weakest layer first: later layers override earlier ones. */
  function Layered(p: BusPolicy, who: Peer): seq<Rule> {
    p.defaults + GroupRules(p.byGid, if who.groups.Some? then who.groups.value else []) + UserRules(p, who) + p.mandatory
  }

  predicate Determinable(p: BusPolicy, who: Peer) {
    && (p.byGid != map[] ==> who.groups.Some?)
    && (who.uid.Some? ==> who.console.Some?)
  }

  lemma {:induction false} PerClientConcat(a: seq<Rule>, b: seq<Rule>)
    ensures PerClient(a + b) == PerClient(a) + PerClient(b)
  {
    if a == [] {
      assert a + b == b;
    } else {
      assert (a + b)[1..] == a[1..] + b;
      PerClientConcat(a[1..], b);
    }
  }

  lemma {:induction false} PerClientMatch(rules: seq<Rule>, applies: Rule -> bool)
    requires forall r :: applies(r) ==> !r.UserRule? && !r.GroupRule?
    ensures LastMatch(PerClient(rules), applies) == LastMatch(rules, applies)
    ensures forall r :: r in PerClient(rules) ==> !r.UserRule? && !r.GroupRule?
  {
    if rules != [] {
      PerClientMatch(rules[1..], applies);
      assert ([rules[0]] + PerClient(rules[1..]))[1..] == PerClient(rules[1..]);
    }
  }

  lemma {:induction false} NoGroupRules(groups: seq<int>)
    ensures GroupRules(map[], groups) == []
  {
    if groups != [] { NoGroupRules(groups[1..]); }
  }

  /** `add_list_to_client`. */
  method AddListToClient(list: seq<Rule>, client: seq<Rule>) returns (r: seq<Rule>)
    ensures r == client + PerClient(list)
  {
    r := client;
    for i := 0 to |list|
      invariant r == client + PerClient(list[..i])
    {
      assert list[..i + 1] == list[..i] + [list[i]];
      PerClientConcat(list[..i], [list[i]]);
      if !list[i].UserRule? && !list[i].GroupRule? {
        r := r + [list[i]];
      }
    }
    assert list[..|list|] == list;
  }

  lemma GroupStep(table: map<int, seq<Rule>>, groups: seq<int>, i: nat)
    requires i < |groups|
    ensures PerClient(GroupRules(table, groups[i..])) == PerClient(ListFor(table, groups[i])) + PerClient(GroupRules(table, groups[i + 1..]))
  {
    assert groups[i..][0] == groups[i] && groups[i..][1..] == groups[i + 1..];
    PerClientConcat(ListFor(table, groups[i]), GroupRules(table, groups[i + 1..]));
  }

  lemma Regroup<T>(a: seq<T>, b: seq<T>, c: seq<T>)
    ensures a + (b + c) == (a + b) + c
  {
  }

  method AddGroups(p: BusPolicy, groups: seq<int>, client: seq<Rule>) returns (r: seq<Rule>)
    ensures r == client + PerClient(GroupRules(p.byGid, groups))
  {
    r := client;
    var i := 0;
    ghost var want := client + PerClient(GroupRules(p.byGid, groups));
    assert groups[0..] == groups;
    while i < |groups|
      invariant 0 <= i <= |groups|
      invariant r + PerClient(GroupRules(p.byGid, groups[i..])) == want
    {
      ghost var before, mine := r, PerClient(ListFor(p.byGid, groups[i]));
      GroupStep(p.byGid, groups, i);
      Regroup(r, mine, PerClient(GroupRules(p.byGid, groups[i + 1..])));
      if groups[i] in p.byGid {
        r := AddListToClient(p.byGid[groups[i]], r);
      }
      assert r == before + mine;
      i := i + 1;
    }
    assert groups[i..] == [] && r + [] == r;
  }

  /** The rules about the client's user and console. */
  method AddUser(p: BusPolicy, uid: int, atConsole: bool, client: seq<Rule>) returns (r: seq<Rule>)
    ensures r == client + PerClient(ListFor(p.byUid, uid) + if atConsole then p.atConsole else p.notAtConsole)
  {
    PerClientConcat(ListFor(p.byUid, uid), if atConsole then p.atConsole else p.notAtConsole);
    r := client;
    if uid in p.byUid {
      r := AddListToClient(p.byUid[uid], r);
    }
    assert r == client + PerClient(ListFor(p.byUid, uid));
    r := AddListToClient(if atConsole then p.atConsole else p.notAtConsole, r);
  }

  /** `bus_policy_create_client_policy`. */
  method CreateClientPolicy(p: BusPolicy, who: Peer) returns (r: Option<seq<Rule>>)
    ensures r.Some? <==> Determinable(p, who)
    ensures r.Some? ==> r.value == Optimized(PerClient(Layered(p, who)))
  {
    var client := AddListToClient(p.defaults, []);
    ghost var groups := if who.groups.Some? then who.groups.value else [];
    if p.byGid != map[] {
      if who.groups.None? {
        return None;
      }
      client := AddGroups(p, who.groups.value, client);
    } else {
      NoGroupRules(groups);
    }
    assert client == PerClient(p.defaults) + PerClient(GroupRules(p.byGid, groups));
    if who.uid.Some? {
      if who.console.None? {
        return None;
      }
      client := AddUser(p, who.uid.value, who.console.value, client);
    }
    assert client == PerClient(p.defaults) + PerClient(GroupRules(p.byGid, groups)) + PerClient(UserRules(p, who));
    client := AddListToClient(p.mandatory, client);
    LayersJoin(p, groups, who);
    client := OptimizeList(client);
    r := Some(client);
  }

  lemma LayersJoin(p: BusPolicy, groups: seq<int>, who: Peer)
    requires groups == if who.groups.Some? then who.groups.value else []
    ensures PerClient(Layered(p, who)) ==
            PerClient(p.defaults) + PerClient(GroupRules(p.byGid, groups)) + PerClient(UserRules(p, who)) + PerClient(p.mandatory)
  {
    var a, b, c := p.defaults, GroupRules(p.byGid, groups), UserRules(p, who);
    PerClientConcat(a, b);
    PerClientConcat(a + b, c);
    PerClientConcat(a + b + c, p.mandatory);
  }

  /** The first decision in order of precedence. */
  function FirstOf(a: Option<Rule>, b: Option<Rule>): Option<Rule> { if a.Some? then a else b }

  /** Whether a client may own a name: the mandatory rules decide, then those about its user, then its groups, then the defaults. */
  lemma OwnByPrecedence(p: BusPolicy, who: Peer, n: Name)
    requires Determinable(p, who)
    ensures var applies := (r: Rule) => OwnApplies(r, n);
            var groups := GroupRules(p.byGid, if who.groups.Some? then who.groups.value else []);
            var decided := FirstOf(LastMatch(p.mandatory, applies),
                           FirstOf(LastMatch(UserRules(p, who), applies),
                           FirstOf(LastMatch(groups, applies), LastMatch(p.defaults, applies))));
            Verdict(Optimized(PerClient(Layered(p, who))), applies) == (decided.Some? && decided.value.allow)
  {
    var applies := (r: Rule) => OwnApplies(r, n);
    var groups := GroupRules(p.byGid, if who.groups.Some? then who.groups.value else []);
    KeptWhenCatchAllApplies(PerClient(Layered(p, who)), Own, applies);
    PerClientMatch(Layered(p, who), applies);
    LastMatchConcat(p.defaults, groups, applies);
    LastMatchConcat(p.defaults + groups, UserRules(p, who), applies);
    LastMatchConcat(p.defaults + groups + UserRules(p, who), p.mandatory, applies);
  }
}
