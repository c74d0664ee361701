/**
  The gate's decisions, read off the policy, the history and the call.

  Rules are found by position, earlier calls are counted as a set of positions, and the scan is the
  earliest rule that fires on a string anywhere in the arguments.
 */
module GateDecisions {
  import opened Text
  import opened CanonicalJson
  import opened Events
  import opened PolicyGate
  import opened Helpers
  import Luhn
  import GateProperties

  // ----- What a policy says -----

  /** The rule at `i` is the first one for this tool. */
  predicate FirstRuleAt(rules: seq<ToolRule>, tool: string, i: nat)
  {
    i < |rules| && rules[i].name == tool && forall k | 0 <= k < i :: rules[k].name != tool
  }

  ghost predicate SchemaRejects(p: Policy, tool: string, args: Json)
  {
    exists i: nat ::
      && FirstRuleAt(p.toolRules, tool, i)
      && p.toolRules[i].schema.Some? && !p.toolRules[i].schema.value(args)
  }

  /** The tool's own cap is `cap`. */
  ghost predicate OwnCap(p: Policy, tool: string, cap: nat)
  {
    exists i: nat :: FirstRuleAt(p.toolRules, tool, i) && p.toolRules[i].maxCalls == Some(cap)
  }

  /** The tool's own cap lets no more than `n` earlier calls pass. */
  ghost predicate OwnCapReached(p: Policy, tool: string, n: nat)
  {
    exists cap :: OwnCap(p, tool, cap) && n >= cap
  }

  /** The earlier calls that count: same trace and tool, listed, with arguments that the schema accepts. */
  ghost function Earlier(p: Policy, h: seq<Event>, call: Event): set<nat>
    requires AllCalls(h) && call.ToolCall?
  {
    set i: nat | i < |h| && h[i].traceId == call.traceId && h[i].tool == call.tool && call.tool in p.allowedTools
                 && !SchemaRejects(p, call.tool, h[i].args)
  }

  /** The rule at `i` is the earliest that fires on the arguments. */
  ghost predicate FirstFiring(rules: seq<EgressRule>, args: Json, i: nat)
  {
    i < |rules| && RuleFires(rules[i], args) && forall k | 0 <= k < i :: !RuleFires(rules[k], args)
  }

  ghost predicate FiringIs(rules: seq<EgressRule>, args: Json, rule: EgressRule)
  {
    exists i: nat :: FirstFiring(rules, args, i) && rules[i] == rule
  }

  ghost predicate ScanDenies(p: Policy, args: Json)
  {
    exists i: nat :: FirstFiring(p.egressRules, args, i) && p.egressRules[i].severity == Deny
  }

  // ----- The lookups find what was said -----

  lemma {:induction false} RuleForIsFirst(rules: seq<ToolRule>, tool: string)
    ensures RuleFor(rules, tool) == None <==> forall i | 0 <= i < |rules| :: rules[i].name != tool
    ensures RuleFor(rules, tool).Some? ==> exists i: nat :: FirstRuleAt(rules, tool, i)
    ensures forall i: nat | FirstRuleAt(rules, tool, i) :: RuleFor(rules, tool) == Some(rules[i])
  {
    if rules != [] {
      if rules[0].name == tool {
        assert FirstRuleAt(rules, tool, 0);
      } else {
        RuleForIsFirst(rules[1..], tool);
        forall i: nat | i < |rules| - 1
          ensures FirstRuleAt(rules, tool, i + 1) <==> FirstRuleAt(rules[1..], tool, i)
        {
          LaterRule(rules, tool, i);
        }
        assert forall i: nat | FirstRuleAt(rules, tool, i) :: i > 0 && FirstRuleAt(rules[1..], tool, i - 1);
        assert forall i | 0 <= i < |rules| :: i == 0 || rules[i] == rules[1..][i - 1];
      }
    }
  }

  lemma LaterRule(rules: seq<ToolRule>, tool: string, i: nat)
    requires i + 1 < |rules| && rules[0].name != tool
    ensures FirstRuleAt(rules, tool, i + 1) <==> FirstRuleAt(rules[1..], tool, i)
  {
    assert forall k | 0 <= k < |rules| - 1 :: rules[k + 1] == rules[1..][k];
    assert forall k | 1 <= k < |rules| :: rules[k] == rules[1..][k - 1];
  }

  lemma SchemaOkMeans(p: Policy, tool: string, args: Json)
    ensures SchemaOk(p, tool, args) <==> !SchemaRejects(p, tool, args)
  {
    RuleForIsFirst(p.toolRules, tool);
  }

  lemma ToolCapMeans(p: Policy, tool: string)
    ensures forall cap: nat :: ToolCap(p, tool) == Some(cap) <==> OwnCap(p, tool, cap)
  {
    RuleForIsFirst(p.toolRules, tool);
  }

  lemma CapIsSmaller(p: Policy, tool: string, n: nat)
    ensures n < Cap(p, tool) <==> !OwnCapReached(p, tool, n) && n < p.maxCallsPerTrace
  {
    ToolCapMeans(p, tool);
  }

  /** The counter of a key is the number of earlier positions that count. */
  lemma {:induction false} CountedIsCardinality(p: Policy, h: seq<Event>, call: Event)
    requires AllCalls(h) && call.ToolCall?
    ensures Counted(p, h, KeyOf(call)) == |Earlier(p, h, call)|
  {
    if h != [] {
      var before, last := h[..|h| - 1], h[|h| - 1];
      CountedIsCardinality(p, before, call);
      EarlierStep(p, before, last, call);
      SchemaOkMeans(p, last.tool, last.args);
      assert before + [last] == h;
    } else {
      assert Earlier(p, h, call) == {};
    }
  }

  lemma EarlierStep(p: Policy, h: seq<Event>, last: Event, call: Event)
    requires AllCalls(h) && last.ToolCall? && call.ToolCall?
    ensures AllCalls(h + [last]) && |h| !in Earlier(p, h, call)
    ensures Earlier(p, h + [last], call) ==
            if KeyOf(last) == KeyOf(call) && call.tool in p.allowedTools && !SchemaRejects(p, call.tool, last.args)
            then Earlier(p, h, call) + {|h|} else Earlier(p, h, call)
  {
    assert forall i | 0 <= i < |h| :: (h + [last])[i] == h[i];
  }

  lemma ScanMeans(rules: seq<EgressRule>, args: Json)
    ensures Scan(rules, args) == None <==> forall i | 0 <= i < |rules| :: !RuleFires(rules[i], args)
    ensures forall i: nat | FirstFiring(rules, args, i) :: Scan(rules, args) == Some(rules[i])
    ensures Scan(rules, args).Some? ==> FiringIs(rules, args, Scan(rules, args).value)
  {
    ScanIsEarliest(rules, args);
    if Scan(rules, args).Some? {
      var j: nat :| j < |rules| && rules[j] == Scan(rules, args).value && RuleFires(rules[j], args)
                    && forall k | 0 <= k < j :: !RuleFires(rules[k], args);
      assert FirstFiring(rules, args, j);
      assert forall i: nat | FirstFiring(rules, args, i) :: i == j;
    }
  }

  // ----- The decision -----

  /**
    A call is allowed exactly when its tool is listed, the schema of the tool's first rule accepts the
    arguments, the earlier calls that count are below both caps, and the earliest rule that fires does
    not deny.
   */
  lemma AllowedIff(p: Policy, sha: string -> nat, h: seq<Event>, call: Event)
    requires AllCalls(h) && call.ToolCall?
    ensures DecisionAfter(p, sha, h, call).allow <==>
            && call.tool in p.allowedTools
            && !SchemaRejects(p, call.tool, call.args)
            && !OwnCapReached(p, call.tool, |Earlier(p, h, call)|)
            && |Earlier(p, h, call)| < p.maxCallsPerTrace
            && !ScanDenies(p, call.args)
  {
    SchemaOkMeans(p, call.tool, call.args);
    CountedIsCardinality(p, h, call);
    DecidesByCounts(p, sha, call, |Earlier(p, h, call)|);
    ByScanAllows(p, sha, call.args);
  }

  lemma DecidesByCounts(p: Policy, sha: string -> nat, call: Event, n: nat)
    requires call.ToolCall?
    ensures Decide(p, sha, call, n).allow <==>
            && call.tool in p.allowedTools && SchemaOk(p, call.tool, call.args)
            && !OwnCapReached(p, call.tool, n) && n < p.maxCallsPerTrace && ByScan(p, sha, call.args).allow
  {
    ToolCapMeans(p, call.tool);
  }

  lemma ByScanAllows(p: Policy, sha: string -> nat, args: Json)
    ensures ByScan(p, sha, args).allow <==> !ScanDenies(p, args)
  {
    ScanMeans(p.egressRules, args);
  }

  /** Of the checks that fail the first gives the reason; a denial rewrites nothing and hashes nothing. */
  ghost predicate DeniedFor(p: Policy, n: nat, call: Event, reason: Reason)
    requires call.ToolCall?
  {
    if p.allowedTools == [] then reason == NoToolAllowed
    else if call.tool !in p.allowedTools then reason == ToolNotAllowed(call.tool)
    else if SchemaRejects(p, call.tool, call.args) then reason == SchemaMismatch(call.tool)
    else if OwnCapReached(p, call.tool, n) then
      reason.ToolCapExceeded? && reason.tool == call.tool && OwnCap(p, call.tool, reason.cap)
    else if n >= p.maxCallsPerTrace then reason == TraceCapExceeded(p.maxCallsPerTrace)
    else reason.EgressHit? && exists rule :: FiringIs(p.egressRules, call.args, rule) && rule.severity == Deny
                                             && rule.name == reason.rule
  }

  lemma DenialIs(p: Policy, sha: string -> nat, h: seq<Event>, call: Event)
    requires AllCalls(h) && call.ToolCall? && !DecisionAfter(p, sha, h, call).allow
    ensures var d := DecisionAfter(p, sha, h, call);
            DeniedFor(p, |Earlier(p, h, call)|, call, d.reason) && d.rewriteArgs == None && d.argsHash == Unset
  {
    SchemaOkMeans(p, call.tool, call.args);
    CountedIsCardinality(p, h, call);
    ToolCapMeans(p, call.tool);
    ScanMeans(p.egressRules, call.args);
  }

  /** The arguments with the rule's name under `_redacted_by`, in its place if it has one, else at the end. */
  ghost predicate RedactedBy(members: seq<Member>, rewritten: seq<Member>, name: string)
  {
    exists i: nat ::
      && i <= |members| && (forall k | 0 <= k < i :: members[k].key != "_redacted_by")
      && (i < |members| ==> members[i].key == "_redacted_by")
      && rewritten == members[..i] + [Member("_redacted_by", Str(name))] + members[if i < |members| then i + 1 else i..]
  }

  lemma {:induction false} SetInIs(members: seq<Member>, key: string, value: Json) returns (i: nat)
    ensures i <= |members| && (forall k | 0 <= k < i :: members[k].key != key)
    ensures i < |members| ==> members[i].key == key
    ensures SetIn(members, key, value) ==
            members[..i] + [Member(key, value)] + members[if i < |members| then i + 1 else i..]
  {
    if members == [] || members[0].key == key {
      i := 0;
    } else {
      var k := SetInIs(members[1..], key, value);
      i := k + 1;
      assert members[..i] == [members[0]] + members[1..][..k];
    }
  }

  /** An allowance carries the hash of the arguments that go on: the call's own, or the redacted ones. */
  lemma AllowanceIs(p: Policy, sha: string -> nat, h: seq<Event>, call: Event)
    requires AllCalls(h) && call.ToolCall? && call.args.Obj? && DecisionAfter(p, sha, h, call).allow
    ensures DecisionAfter(p, sha, h, call).reason.PolicyAllows? ||
            exists rule :: FiringIs(p.egressRules, call.args, rule) && rule.severity == Rewrite
                           && Redacts(sha, call.args, rule.name, DecisionAfter(p, sha, h, call))
    ensures DecisionAfter(p, sha, h, call).reason.PolicyAllows? ==>
              && (forall i | 0 <= i < |p.egressRules| :: !RuleFires(p.egressRules[i], call.args))
              && DecisionAfter(p, sha, h, call).rewriteArgs == None
              && DecisionAfter(p, sha, h, call).argsHash == Digest(sha(Dumps(call.args)))
  {
    ScanMeans(p.egressRules, call.args);
    if Scan(p.egressRules, call.args).Some? {
      RewriteIs(p, sha, call.args);
    }
  }

  ghost predicate Redacts(sha: string -> nat, args: Json, name: string, d: Decision)
    requires args.Obj?
  {
    && d.reason == Redacted(name)
    && d.rewriteArgs.Some? && d.rewriteArgs.value.Obj? && RedactedBy(args.members, d.rewriteArgs.value.members, name)
    && d.argsHash == Digest(sha(Dumps(d.rewriteArgs.value)))
  }

  lemma RewriteIs(p: Policy, sha: string -> nat, args: Json)
    requires args.Obj? && Scan(p.egressRules, args).Some? && ByScan(p, sha, args).allow
    ensures Redacts(sha, args, Scan(p.egressRules, args).value.name, ByScan(p, sha, args))
  {
    var i := SetInIs(args.members, "_redacted_by", Str(Scan(p.egressRules, args).value.name));
  }

  // ----- The card rule -----

  /** The rule for card numbers, and any other, on a string whose matches are known. */
  lemma HitsMeans(rule: EgressRule, value: string)
    ensures rule.name != "pan" ==> (Hits(rule, value) <==> rule.matches(value) != [])
    ensures rule.name == "pan" ==> (Hits(rule, value) <==> exists i :: 0 <= i < |rule.matches(value)|
                                                                       && CardNumber(rule.matches(value)[i]))
  {
    forall text | text in rule.matches(value)
      ensures Luhn.Accepts(text) <==> CardNumber(text)
    {
      Luhn.AcceptsIff(text);
    }
  }

  /** 13 to 19 digits whose Luhn sum from the right ends in zero; other characters do not count. */
  predicate CardNumber(text: string)
  {
    var digits := Luhn.DigitsOf(text);
    AllDigits(digits) && 13 <= |digits| <= 19 && Luhn.FromRight(digits, false) % 10 == 0
  }

  // ----- The audit log -----

  /** The entry of a call: its trace and tool, whether it was denied, allowed or rewritten, and the reason. */
  lemma AuditEntryIs(p: Policy, sha: string -> nat, h: seq<Event>, i: nat)
    requires AllCalls(h) && i < |h|
    ensures AllCalls(h[..i])
    ensures var d, e := DecisionAfter(p, sha, h[..i], h[i]), AuditTrail(p, sha, h)[i];
            && e.traceId == h[i].traceId && e.tool == h[i].tool && e.reason == d.reason
            && (e.kind == AuditDeny <==> !d.allow)
            && (e.kind == AuditRewrite <==> d.allow && d.reason.Redacted?)
  {
    GateProperties.AuditIsFaithful(p, sha, h, i);
    RewrittenIffRedacted(p, sha, h[..i], h[i]);
  }

  lemma RewrittenIffRedacted(p: Policy, sha: string -> nat, h: seq<Event>, call: Event)
    requires AllCalls(h) && call.ToolCall?
    ensures var d := DecisionAfter(p, sha, h, call);
            d.rewriteArgs.Some? <==> d.allow && d.reason.Redacted?
  {
  }
}
