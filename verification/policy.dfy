/** Security policy rules of a client: lists in which the last rule that applies wins (bus/policy.c:870-1316). */
module Policy {
  import opened BusTypes

  /** `messageType` 0 and missing strings mean "any". User and group rules decide who may connect at all. */
  datatype Rule =
    | SendRule(allow: bool, messageType: int, path: Option<string>, iface: Option<string>, member: Option<string>,
               error: Option<string>, destination: Option<Name>, eavesdrop: bool, requestedReply: bool, log: bool)
    | ReceiveRule(allow: bool, messageType: int, path: Option<string>, iface: Option<string>, member: Option<string>,
                  error: Option<string>, origin: Option<Name>, eavesdrop: bool, requestedReply: bool)
    | OwnRule(allow: bool, serviceName: Option<Name>)
    | UserRule(allow: bool, uid: Option<int>)
    | GroupRule(allow: bool, gid: Option<int>)

  datatype RuleType = Send | Receive | Own | User | Group

  function TypeOf(r: Rule): RuleType {
    match r
    case SendRule(_, _, _, _, _, _, _, _, _, _) => Send
    case ReceiveRule(_, _, _, _, _, _, _, _, _) => Receive
    case OwnRule(_, _) => Own
    case UserRule(_, _) => User
    case GroupRule(_, _) => Group
  }

  const ANY_TYPE: int := 0

  datatype Message = Message(messageType: int, replySerial: nat, path: Option<string>, iface: Option<string>,
                             member: Option<string>, error: Option<string>, destination: Option<Name>, sender: Option<Name>)

  /** Who is concerned by the message, and who is queued for which name. */
  datatype Context = Context(requestedReply: bool, sender: Option<Conn>, addressed: Option<Conn>, proposed: Option<Conn>,
                             owners: map<Name, set<Conn>>)

  predicate Owns(ctx: Context, n: Name, c: Conn) { n in ctx.owners && c in ctx.owners[n] }

  /** A rule string against an optional message field: only a present and different field keeps the rule from applying. */
  predicate FieldFits(rule: Option<string>, field: Option<string>) {
    rule.None? || field.None? || rule == field
  }

  /** An interface rule must match exactly to allow, but denies messages without interface too. */
  predicate InterfaceFits(allow: bool, rule: Option<string>, field: Option<string>) {
    rule.None? || (if field.None? then !allow else rule == field)
  }

  predicate TypeFits(rule: int, messageType: int) { rule == ANY_TYPE || rule == messageType }

  /** The requested_reply attribute: it matters for replies only. */
  predicate ReplyFits(allow: bool, requestedReplyRule: bool, eavesdrop: bool, replySerial: nat, requested: bool) {
    replySerial != 0 ==>
      && (!requested && allow ==> !requestedReplyRule || eavesdrop)
      && (requested && !allow ==> requestedReplyRule)
  }

  /** A peer that is the bus itself is compared by name, any other one by ownership. */
  predicate PeerFits(rule: Option<Name>, peer: Option<Conn>, named: Option<Name>, ctx: Context) {
    rule.None? || (if peer.None? then named == rule else Owns(ctx, rule.value, peer.value))
  }

  predicate SendApplies(r: Rule, m: Message, ctx: Context) {
    && r.SendRule?
    && TypeFits(r.messageType, m.messageType)
    && ReplyFits(r.allow, r.requestedReply, r.eavesdrop, m.replySerial, ctx.requestedReply)
    && FieldFits(r.path, m.path)
    && InterfaceFits(r.allow, r.iface, m.iface)
    && FieldFits(r.member, m.member)
    && FieldFits(r.error, m.error)
    && PeerFits(r.destination, ctx.proposed, m.destination, ctx)
  }

  predicate Eavesdropping(m: Message, ctx: Context) {
    ctx.addressed != ctx.proposed && m.destination.Some?
  }

  predicate ReceiveApplies(r: Rule, m: Message, ctx: Context) {
    && r.ReceiveRule?
    && TypeFits(r.messageType, m.messageType)
    && (if Eavesdropping(m, ctx) then r.allow ==> r.eavesdrop else r.allow || !r.eavesdrop)
    && ReplyFits(r.allow, r.requestedReply, r.eavesdrop, m.replySerial, ctx.requestedReply)
    && FieldFits(r.path, m.path)
    && InterfaceFits(r.allow, r.iface, m.iface)
    && FieldFits(r.member, m.member)
    && FieldFits(r.error, m.error)
    && PeerFits(r.origin, ctx.sender, m.sender, ctx)
  }

  predicate OwnApplies(r: Rule, n: Name) {
    r.OwnRule? && (r.serviceName.None? || r.serviceName == Some(n))
  }

  // ----- last rule that applies wins

  function LastMatch(rules: seq<Rule>, applies: Rule -> bool): Option<Rule> {
    if rules == [] then None
    else
      var later := LastMatch(rules[1..], applies);
      if later.Some? then later else if applies(rules[0]) then Some(rules[0]) else None
  }

  function Count(rules: seq<Rule>, applies: Rule -> bool): nat {
    if rules == [] then 0 else (if applies(rules[0]) then 1 else 0) + Count(rules[1..], applies)
  }

  /** Nothing is allowed that no rule allows. */
  function Verdict(rules: seq<Rule>, applies: Rule -> bool): bool {
    var r := LastMatch(rules, applies);
    r.Some? && r.value.allow
  }

  function LogFlag(rules: seq<Rule>, applies: Rule -> bool, before: bool): bool {
    var r := LastMatch(rules, applies);
    if r.Some? && r.value.SendRule? then r.value.log else before
  }

  lemma {:induction false} LastMatchConcat(a: seq<Rule>, b: seq<Rule>, applies: Rule -> bool)
    ensures LastMatch(a + b, applies) == if LastMatch(b, applies).Some? then LastMatch(b, applies) else LastMatch(a, applies)
    ensures Count(a + b, applies) == Count(a, applies) + Count(b, applies)
  {
    if a == [] {
      assert a + b == b;
    } else {
      assert (a + b)[1..] == a[1..] + b;
      LastMatchConcat(a[1..], b, applies);
    }
  }

  lemma {:induction false} LastMatchApplies(rules: seq<Rule>, applies: Rule -> bool)
    ensures var r := LastMatch(rules, applies);
            && (r.Some? ==> r.value in rules && applies(r.value))
            && (r.None? <==> forall x :: x in rules ==> !applies(x))
  {
    if rules != [] {
      LastMatchApplies(rules[1..], applies);
      assert rules == [rules[0]] + rules[1..];
    }
  }

  lemma MatchSnoc(rules: seq<Rule>, i: nat, applies: Rule -> bool)
    requires i < |rules|
    ensures LastMatch(rules[..i + 1], applies) == if applies(rules[i]) then Some(rules[i]) else LastMatch(rules[..i], applies)
    ensures Count(rules[..i + 1], applies) == Count(rules[..i], applies) + if applies(rules[i]) then 1 else 0
  {
    assert rules[..i + 1] == rules[..i] + [rules[i]];
    LastMatchConcat(rules[..i], [rules[i]], applies);
  }

  /** `bus_client_policy_check_can_send`; `log` is left as it was if no rule applies. */
  method CheckCanSend(rules: seq<Rule>, m: Message, ctx: Context, log0: bool) returns (allowed: bool, toggles: nat, log: bool)
    ensures allowed == Verdict(rules, r => SendApplies(r, m, ctx))
    ensures toggles == Count(rules, r => SendApplies(r, m, ctx))
    ensures log == LogFlag(rules, r => SendApplies(r, m, ctx), log0)
  {
    ghost var applies := (r: Rule) => SendApplies(r, m, ctx);
    allowed, toggles, log := false, 0, log0;
    for i := 0 to |rules|
      invariant allowed == Verdict(rules[..i], applies)
      invariant toggles == Count(rules[..i], applies)
      invariant log == LogFlag(rules[..i], applies, log0)
    {
      var r := rules[i];
      MatchSnoc(rules, i, applies);
      if !r.SendRule? { continue; }
      if r.messageType != ANY_TYPE && m.messageType != r.messageType { continue; }
      if m.replySerial != 0 {
        if !ctx.requestedReply && r.allow && r.requestedReply && !r.eavesdrop { continue; }
        if ctx.requestedReply && !r.allow && !r.requestedReply { continue; }
      }
      if r.path.Some? && m.path.Some? && m.path != r.path { continue; }
      if r.iface.Some? && ((m.iface.None? && r.allow) || (m.iface.Some? && m.iface != r.iface)) { continue; }
      if r.member.Some? && m.member.Some? && m.member != r.member { continue; }
      if r.error.Some? && m.error.Some? && m.error != r.error { continue; }
      if r.destination.Some? {
        if ctx.proposed.None? {
          if m.destination != r.destination { continue; }
        } else if !Owns(ctx, r.destination.value, ctx.proposed.value) { continue; }
      }
      allowed, log, toggles := r.allow, r.log, toggles + 1;
    }
    assert rules[..|rules|] == rules;
  }

  /** `bus_client_policy_check_can_receive`. */
  method CheckCanReceive(rules: seq<Rule>, m: Message, ctx: Context) returns (allowed: bool, toggles: nat)
    ensures allowed == Verdict(rules, r => ReceiveApplies(r, m, ctx))
    ensures toggles == Count(rules, r => ReceiveApplies(r, m, ctx))
  {
    ghost var applies := (r: Rule) => ReceiveApplies(r, m, ctx);
    var eavesdropping := ctx.addressed != ctx.proposed && m.destination.Some?;
    allowed, toggles := false, 0;
    for i := 0 to |rules|
      invariant allowed == Verdict(rules[..i], applies)
      invariant toggles == Count(rules[..i], applies)
    {
      var r := rules[i];
      MatchSnoc(rules, i, applies);
      if !r.ReceiveRule? { continue; }
      if r.messageType != ANY_TYPE && m.messageType != r.messageType { continue; }
      if eavesdropping && r.allow && !r.eavesdrop { continue; }
      if !eavesdropping && !r.allow && r.eavesdrop { continue; }
      if m.replySerial != 0 {
        if !ctx.requestedReply && r.allow && r.requestedReply && !r.eavesdrop { continue; }
        if ctx.requestedReply && !r.allow && !r.requestedReply { continue; }
      }
      if r.path.Some? && m.path.Some? && m.path != r.path { continue; }
      if r.iface.Some? && ((m.iface.None? && r.allow) || (m.iface.Some? && m.iface != r.iface)) { continue; }
      if r.member.Some? && m.member.Some? && m.member != r.member { continue; }
      if r.error.Some? && m.error.Some? && m.error != r.error { continue; }
      if r.origin.Some? {
        if ctx.sender.None? {
          if m.sender != r.origin { continue; }
        } else if !Owns(ctx, r.origin.value, ctx.sender.value) { continue; }
      }
      allowed, toggles := r.allow, toggles + 1;
    }
    assert rules[..|rules|] == rules;
  }

  /** `bus_client_policy_check_can_own`. */
  method CheckCanOwn(rules: seq<Rule>, n: Name) returns (allowed: bool)
    ensures allowed == Verdict(rules, r => OwnApplies(r, n))
  {
    ghost var applies := (r: Rule) => OwnApplies(r, n);
    allowed := false;
    for i := 0 to |rules|
      invariant allowed == Verdict(rules[..i], applies)
    {
      var r := rules[i];
      MatchSnoc(rules, i, applies);
      if !r.OwnRule? { continue; }
      if r.serviceName.Some? && r.serviceName != Some(n) { continue; }
      allowed := r.allow;
    }
    assert rules[..|rules|] == rules;
  }
}
