/** Deleting from a client's rule list the rules that a later catch-all overrides (bus/policy.c:754-852). */
module PolicyOptimizer {
  import opened BusTypes
  import opened Policy

  /** A rule without any condition on the message or name. */
  predicate CatchAll(r: Rule) {
    match r
    case SendRule(_, t, path, iface, member, error, destination, _, _, _) =>
      t == ANY_TYPE && path.None? && iface.None? && member.None? && error.None? && destination.None?
    case ReceiveRule(_, t, path, iface, member, error, origin, _, _) =>
      t == ANY_TYPE && path.None? && iface.None? && member.None? && error.None? && origin.None?
    case OwnRule(_, name) => name.None?
    case _ => false
  }

  predicate HasCatchAll(rules: seq<Rule>, t: RuleType) {
    exists r :: r in rules && TypeOf(r) == t && CatchAll(r)
  }

  /** The rules that no later catch-all of their own type overrides. */
  function Optimized(rules: seq<Rule>): seq<Rule> {
    if rules == [] then []
    else if HasCatchAll(rules[1..], TypeOf(rules[0])) then Optimized(rules[1..])
    else [rules[0]] + Optimized(rules[1..])
  }

  /** The list without the rules of type `t`. */
  function WithoutType(rules: seq<Rule>, t: RuleType): seq<Rule> {
    if rules == [] then []
    else if TypeOf(rules[0]) == t then WithoutType(rules[1..], t)
    else [rules[0]] + WithoutType(rules[1..], t)
  }

  lemma {:induction false} WithoutTypeConcat(a: seq<Rule>, b: seq<Rule>, t: RuleType)
    ensures WithoutType(a + b, t) == WithoutType(a, t) + WithoutType(b, t)
  {
    if a == [] {
      assert a + b == b;
    } else {
      assert (a + b)[1..] == a[1..] + b;
      WithoutTypeConcat(a[1..], b, t);
    }
  }

  /** Seen from the front of the list, a catch-all deletes what is already there of its type. */
  lemma {:induction false} OptimizedSnoc(rules: seq<Rule>, r: Rule)
    ensures Optimized(rules + [r]) == (if CatchAll(r) then WithoutType(Optimized(rules), TypeOf(r)) else Optimized(rules)) + [r]
  {
    if rules == [] {
      assert rules + [r] == [r];
    } else {
      var h, rest := rules[0], rules[1..];
      assert (rules + [r])[1..] == rest + [r];
      OptimizedSnoc(rest, r);
      assert HasCatchAll(rest + [r], TypeOf(h)) <==> HasCatchAll(rest, TypeOf(h)) || (TypeOf(r) == TypeOf(h) && CatchAll(r)) by {
        assert r in [r];
      }
    }
  }

  class ClientPolicy {
    var rules: seq<Rule>

    constructor ()
      ensures rules == []
    {
      rules := [];
    }

    /** `bus_client_policy_optimize`: one pass over the list, deleting in place. */
    method Optimize()
      requires forall r :: r in rules ==> !r.UserRule? && !r.GroupRule?
      modifies this
      ensures rules == Optimized(old(rules))
    {
      rules := OptimizeList(rules);
    }
  }

  /** `remove_rules_by_type_up_to` the end of the part of the list already visited. */
  method RemoveByType(visited: seq<Rule>, t: RuleType) returns (left: seq<Rule>)
    ensures left == WithoutType(visited, t)
  {
    left := [];
    for k := 0 to |visited|
      invariant left == WithoutType(visited[..k], t)
    {
      assert visited[..k + 1] == visited[..k] + [visited[k]];
      WithoutTypeConcat(visited[..k], [visited[k]], t);
      if TypeOf(visited[k]) != t {
        left := left + [visited[k]];
      }
    }
    assert visited[..|visited|] == visited;
  }

  method OptimizeList(rules: seq<Rule>) returns (visited: seq<Rule>)
    ensures visited == Optimized(rules)
  {
    visited := [];
    for k := 0 to |rules|
      invariant visited == Optimized(rules[..k])
    {
      var r := rules[k];
      assert rules[..k + 1] == rules[..k] + [r];
      OptimizedSnoc(rules[..k], r);
      if CatchAll(r) {
        visited := RemoveByType(visited, TypeOf(r));
      }
      visited := visited + [r];
    }
    assert rules[..|rules|] == rules;
  }

  // ----- what the optimiser may change

  /** Position of the last catch-all of type `t`, or 0. */
  function Cut(rules: seq<Rule>, t: RuleType): (k: nat)
    ensures k <= |rules|
    ensures HasCatchAll(rules, t) ==> k < |rules| && TypeOf(rules[k]) == t && CatchAll(rules[k])
  {
    assert rules != [] ==> rules == [rules[0]] + rules[1..];
    if rules != [] && HasCatchAll(rules[1..], t) then 1 + Cut(rules[1..], t) else 0
  }

  ghost predicate OnlyOfType(applies: Rule -> bool, t: RuleType) {
    forall r :: applies(r) ==> TypeOf(r) == t
  }

  /** Of the rules of one type, the optimiser keeps exactly those from the last catch-all on. */
  lemma {:induction false} OptimizedKeepsTail(rules: seq<Rule>, t: RuleType)
    ensures OfType(Optimized(rules), t) == OfType(rules[Cut(rules, t)..], t)
  {
    if rules != [] {
      var h, rest := rules[0], rules[1..];
      OptimizedKeepsTail(rest, t);
      assert rules == [h] + rest;
      assert rules[Cut(rules, t)..] == if HasCatchAll(rest, t) then rest[Cut(rest, t)..] else rules;
      if !HasCatchAll(rest, t) {
        NoCutWithoutCatchAll(rest, t);
        assert rest[0..] == rest;
      }
      assert ([h] + Optimized(rest))[1..] == Optimized(rest);
    }
  }

  lemma NoCutWithoutCatchAll(rules: seq<Rule>, t: RuleType)
    requires !HasCatchAll(rules, t)
    ensures Cut(rules, t) == 0
  {
    assert rules != [] ==> forall r :: r in rules[1..] ==> r in rules;
  }

  /** The rules of type `t`, in order. */
  function OfType(rules: seq<Rule>, t: RuleType): seq<Rule> {
    if rules == [] then []
    else if TypeOf(rules[0]) == t then [rules[0]] + OfType(rules[1..], t)
    else OfType(rules[1..], t)
  }

  lemma {:induction false} OnlyTypeMatters(rules: seq<Rule>, t: RuleType, applies: Rule -> bool)
    requires OnlyOfType(applies, t)
    ensures LastMatch(OfType(rules, t), applies) == LastMatch(rules, applies)
  {
    if rules != [] {
      OnlyTypeMatters(rules[1..], t, applies);
      assert ([rules[0]] + OfType(rules[1..], t))[1..] == OfType(rules[1..], t);
    }
  }

  /** Optimising leaves the matches of the kept part; an earlier match survives only through a later one. */
  lemma MatchAfterOptimize(rules: seq<Rule>, t: RuleType, applies: Rule -> bool)
    requires OnlyOfType(applies, t)
    ensures var k := Cut(rules, t);
            && LastMatch(Optimized(rules), applies) == LastMatch(rules[k..], applies)
            && LastMatch(rules, applies) ==
               if LastMatch(rules[k..], applies).Some? then LastMatch(rules[k..], applies) else LastMatch(rules[..k], applies)
  {
    var k := Cut(rules, t);
    OptimizedKeepsTail(rules, t);
    OnlyTypeMatters(Optimized(rules), t, applies);
    OnlyTypeMatters(rules[k..], t, applies);
    assert rules == rules[..k] + rules[k..];
    LastMatchConcat(rules[..k], rules[k..], applies);
  }

  /**
   The exact effect of the optimiser on a decision: it is unchanged if and only if some rule from
   the last catch-all on applies, or the rules before it would not have allowed anything anyway.
   */
  lemma VerdictKeptIff(rules: seq<Rule>, t: RuleType, applies: Rule -> bool)
    requires OnlyOfType(applies, t)
    ensures var k := Cut(rules, t);
            Verdict(Optimized(rules), applies) == Verdict(rules, applies) <==>
              (exists r :: r in rules[k..] && applies(r)) || !Verdict(rules[..k], applies)
  {
    var k := Cut(rules, t);
    MatchAfterOptimize(rules, t, applies);
    LastMatchApplies(rules[k..], applies);
  }

  /** In particular nothing changes when the last catch-all applies, or when there is none: neither the decision nor the log flag. */
  lemma KeptWhenCatchAllApplies(rules: seq<Rule>, t: RuleType, applies: Rule -> bool)
    requires OnlyOfType(applies, t)
    requires HasCatchAll(rules, t) ==> applies(rules[Cut(rules, t)])
    ensures LastMatch(Optimized(rules), applies) == LastMatch(rules, applies)
  {
    var k := Cut(rules, t);
    MatchAfterOptimize(rules, t, applies);
    LastMatchApplies(rules[k..], applies);
    if HasCatchAll(rules, t) {
      assert rules[k..][0] == rules[k];
      assert rules[k] in rules[k..];
    } else {
      NoCutWithoutCatchAll(rules, t);
      assert rules[..0] == [];
    }
  }

  /** Who may own a name is never changed. */
  lemma OwnKept(rules: seq<Rule>, n: Name)
    ensures Verdict(Optimized(rules), r => OwnApplies(r, n)) == Verdict(rules, r => OwnApplies(r, n))
  {
    var applies := (r: Rule) => OwnApplies(r, n);
    KeptWhenCatchAllApplies(rules, Own, applies);
  }

  /** What may be sent, and what is logged, is not changed for any message that is not a reply. */
  lemma SendKept(rules: seq<Rule>, m: Message, ctx: Context, log0: bool)
    requires m.replySerial == 0
    ensures Verdict(Optimized(rules), r => SendApplies(r, m, ctx)) == Verdict(rules, r => SendApplies(r, m, ctx))
    ensures LogFlag(Optimized(rules), r => SendApplies(r, m, ctx), log0) == LogFlag(rules, r => SendApplies(r, m, ctx), log0)
  {
    var applies := (r: Rule) => SendApplies(r, m, ctx);
    KeptWhenCatchAllApplies(rules, Send, applies);
  }

  /** What may be received is not changed for any message that is not a reply, unless the eavesdrop attribute exempts the last catch-all. */
  lemma ReceiveKept(rules: seq<Rule>, m: Message, ctx: Context)
    requires m.replySerial == 0
    requires HasCatchAll(rules, Receive) ==>
               var r := rules[Cut(rules, Receive)];
               if Eavesdropping(m, ctx) then r.allow ==> r.eavesdrop else r.allow || !r.eavesdrop
    ensures Verdict(Optimized(rules), r => ReceiveApplies(r, m, ctx)) == Verdict(rules, r => ReceiveApplies(r, m, ctx))
  {
    var applies := (r: Rule) => ReceiveApplies(r, m, ctx);
    KeptWhenCatchAllApplies(rules, Receive, applies);
  }

  const PERMIT: Rule := SendRule(true, ANY_TYPE, None, Some("org.example.Iface"), None, None, None, false, true, false)
  const REFUSE_ALL: Rule := SendRule(false, ANY_TYPE, None, None, None, None, None, false, false, false)

  /**
   The side condition is needed: a blanket deny with the default requested_reply="false" does not
   apply to requested replies, so it does not override the allow before it; yet the allow is deleted.
   */
  lemma RequestedReplyRefusedAfterOptimize()
    ensures var m := Message(2, 7, None, Some("org.example.Iface"), None, None, Some(":1.1"), Some(":1.0"));
            var ctx := Context(true, Some(0), Some(1), Some(1), map[]);
            && Verdict([PERMIT, REFUSE_ALL], r => SendApplies(r, m, ctx))
            && !Verdict(Optimized([PERMIT, REFUSE_ALL]), r => SendApplies(r, m, ctx))
  {
    var m := Message(2, 7, None, Some("org.example.Iface"), None, None, Some(":1.1"), Some(":1.0"));
    var ctx := Context(true, Some(0), Some(1), Some(1), map[]);
    var applies := (r: Rule) => SendApplies(r, m, ctx);
    var rules := [PERMIT, REFUSE_ALL];
    assert rules[1..] == [REFUSE_ALL] && REFUSE_ALL in rules[1..];
    assert [REFUSE_ALL][1..] == [];
    assert Optimized([REFUSE_ALL]) == [REFUSE_ALL];
    assert Optimized(rules) == [REFUSE_ALL];
    assert LastMatch([REFUSE_ALL], applies) == None;
    assert LastMatch(rules, applies) == Some(PERMIT);
  }

  const RECEIVE_SPECIFIC: Rule := ReceiveRule(true, ANY_TYPE, None, Some("org.example.Iface"), None, None, None, false, true)
  const RECEIVE_NO_EAVESDROPPED: Rule := ReceiveRule(false, ANY_TYPE, None, None, None, None, None, true, false)

  /**
   The condition on eavesdropping is needed too: a blanket deny with eavesdrop="true" concerns
   eavesdropped messages only, yet the allow before it is deleted, and with it every message addressed to the client.
   */
  lemma AddressedRefusedAfterOptimize()
    ensures var m := Message(1, 0, None, Some("org.example.Iface"), None, None, Some(":1.1"), Some(":1.0"));
            var ctx := Context(false, Some(0), Some(1), Some(1), map[]);
            var rules := [RECEIVE_SPECIFIC, RECEIVE_NO_EAVESDROPPED];
            && !Eavesdropping(m, ctx)
            && Verdict(rules, r => ReceiveApplies(r, m, ctx))
            && !Verdict(Optimized(rules), r => ReceiveApplies(r, m, ctx))
  {
    var m := Message(1, 0, None, Some("org.example.Iface"), None, None, Some(":1.1"), Some(":1.0"));
    var ctx := Context(false, Some(0), Some(1), Some(1), map[]);
    var applies := (r: Rule) => ReceiveApplies(r, m, ctx);
    var last := RECEIVE_NO_EAVESDROPPED;
    var rules := [RECEIVE_SPECIFIC, last];
    assert rules[1..] == [last] && last in rules[1..];
    assert [last][1..] == [];
    assert Optimized([last]) == [last];
    assert Optimized(rules) == [last];
    assert LastMatch([last], applies) == None;
    assert LastMatch(rules, applies) == Some(RECEIVE_SPECIFIC);
  }
}
