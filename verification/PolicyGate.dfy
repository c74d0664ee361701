/**
  The policy gate: membership, schema, call caps and egress scan, in that order.

  A regular expression is the function that lists the texts it matches in a string, and a JSON
  schema is the predicate of the arguments it accepts.
 */
module PolicyGate {
  import opened Text
  import opened CanonicalJson
  import opened Events
  import Luhn

  datatype Severity = Deny | Rewrite

  datatype EgressRule = EgressRule(name: string, matches: string -> seq<string>, severity: Severity)

  datatype ToolRule = ToolRule(name: string, schema: Option<Json -> bool>, maxCalls: Option<nat>)

  datatype Policy = Policy(allowedTools: seq<string>, toolRules: seq<ToolRule>, egressRules: seq<EgressRule>,
                           maxCallsPerTrace: nat)

  datatype Reason =
    | NoToolAllowed
    | ToolNotAllowed(tool: string)
    | SchemaMismatch(tool: string)
    | ToolCapExceeded(tool: string, cap: nat)
    | TraceCapExceeded(cap: nat)
    | EgressHit(rule: string)
    | Redacted(rule: string)
    | PolicyAllows

  datatype Decision = Decision(allow: bool, reason: Reason, rewriteArgs: Option<Json>, argsHash: ArgsHash)

  datatype AuditKind = AuditDeny | AuditAllow | AuditRewrite

  datatype AuditEntry = AuditEntry(traceId: nat, tool: string, kind: AuditKind, reason: Reason)

  type Key = (nat, string)

  // ----- Egress scan -----

  /** Every string leaf, in the order of the walk. */
  function StrLeaves(j: Json): seq<string>
    decreases j, 1
  {
    match j
    case Str(s) => [s]
    case Arr(items) => ItemLeaves(items)
    case Obj(members) => MemberLeaves(members)
    case _ => []
  }

  function ItemLeaves(items: seq<Json>): seq<string>
    decreases items, 0
  {
    if items == [] then [] else StrLeaves(items[0]) + ItemLeaves(items[1..])
  }

  function MemberLeaves(members: seq<Member>): seq<string>
    decreases members, 0
  {
    if members == [] then [] else StrLeaves(members[0].value) + MemberLeaves(members[1..])
  }

  /** A string occurs as a value somewhere inside; keys do not count. */
  ghost predicate HasLeaf(j: Json, s: string)
  {
    match j
    case Str(t) => s == t
    case Arr(items) => exists i :: 0 <= i < |items| && HasLeaf(items[i], s)
    case Obj(members) => exists i :: 0 <= i < |members| && HasLeaf(members[i].value, s)
    case _ => false
  }

  /** The walk yields exactly the string leaves, however deeply nested. */
  lemma {:induction false} LeavesAreAllLeaves(j: Json, s: string)
    ensures s in StrLeaves(j) <==> HasLeaf(j, s)
    decreases j, 1
  {
    match j
    case Arr(items) => ItemLeavesAreAll(items, s);
    case Obj(members) => MemberLeavesAreAll(members, s);
    case _ =>
  }

  lemma {:induction false} ItemLeavesAreAll(items: seq<Json>, s: string)
    ensures s in ItemLeaves(items) <==> exists i :: 0 <= i < |items| && HasLeaf(items[i], s)
    decreases items, 0
  {
    if items != [] {
      LeavesAreAllLeaves(items[0], s);
      ItemLeavesAreAll(items[1..], s);
      assert forall i | 1 <= i < |items| :: items[i] == items[1..][i - 1];
      assert forall i | 0 <= i < |items[1..]| :: items[1..][i] == items[i + 1];
    }
  }

  lemma {:induction false} MemberLeavesAreAll(members: seq<Member>, s: string)
    ensures s in MemberLeaves(members) <==> exists i :: 0 <= i < |members| && HasLeaf(members[i].value, s)
    decreases members, 0
  {
    if members != [] {
      LeavesAreAllLeaves(members[0].value, s);
      MemberLeavesAreAll(members[1..], s);
      assert forall i | 1 <= i < |members| :: members[i] == members[1..][i - 1];
      assert forall i | 0 <= i < |members[1..]| :: members[1..][i] == members[i + 1];
    }
  }

  predicate HasLuhnValid(matches: seq<string>)
  {
    exists i :: 0 <= i < |matches| && Luhn.Accepts(matches[i])
  }

  /** A rule hits a string when it matches it; the card rule also wants a Luhn-valid match. */
  predicate Hits(rule: EgressRule, value: string)
  {
    rule.matches(value) != [] && (rule.name == "pan" ==> HasLuhnValid(rule.matches(value)))
  }

  predicate HitsAny(rule: EgressRule, values: seq<string>)
  {
    exists i :: 0 <= i < |values| && Hits(rule, values[i])
  }

  /** The first rule, in policy order, that hits a leaf of the arguments. */
  function Scan(rules: seq<EgressRule>, args: Json): Option<EgressRule>
  {
    if rules == [] then None
    else if HitsAny(rules[0], StrLeaves(args)) then Some(rules[0])
    else Scan(rules[1..], args)
  }

  ghost predicate RuleFires(rule: EgressRule, args: Json)
  {
    exists s :: HasLeaf(args, s) && Hits(rule, s)
  }

  lemma FiresIffHitsAny(rule: EgressRule, args: Json)
    ensures HitsAny(rule, StrLeaves(args)) <==> RuleFires(rule, args)
  {
    if HitsAny(rule, StrLeaves(args)) {
      var i :| 0 <= i < |StrLeaves(args)| && Hits(rule, StrLeaves(args)[i]);
      LeavesAreAllLeaves(args, StrLeaves(args)[i]);
    }
    if RuleFires(rule, args) {
      var s :| HasLeaf(args, s) && Hits(rule, s);
      LeavesAreAllLeaves(args, s);
      var i :| 0 <= i < |StrLeaves(args)| && StrLeaves(args)[i] == s;
    }
  }

  /** The scan reports the earliest rule that fires on some string leaf, and none iff none fires. */
  lemma {:induction false} ScanIsEarliest(rules: seq<EgressRule>, args: Json)
    ensures Scan(rules, args) == None <==> forall i | 0 <= i < |rules| :: !RuleFires(rules[i], args)
    ensures Scan(rules, args).Some? ==>
              exists i :: 0 <= i < |rules| && rules[i] == Scan(rules, args).value && RuleFires(rules[i], args)
                          && forall k | 0 <= k < i :: !RuleFires(rules[k], args)
  {
    if rules != [] {
      FiresIffHitsAny(rules[0], args);
      ScanIsEarliest(rules[1..], args);
      assert forall i | 1 <= i < |rules| :: rules[i] == rules[1..][i - 1];
      if !HitsAny(rules[0], StrLeaves(args)) && Scan(rules, args).Some? {
        var i :| 0 <= i < |rules[1..]| && rules[1..][i] == Scan(rules[1..], args).value
            && RuleFires(rules[1..][i], args)
                 && forall k | 0 <= k < i :: !RuleFires(rules[1..][k], args);
        assert rules[i + 1] == Scan(rules, args).value;
        assert forall k | 0 <= k < i + 1 :: k == 0 || rules[k] == rules[1..][k - 1];
      }
    }
  }

  /** `{**args, key: value}`: an existing key keeps its place, a new one goes last. */
  function SetMember(args: Json, key: string, value: Json): Json
  {
    match args
    case Obj(members) => Obj(SetIn(members, key, value))
    case _ => args
  }

  // ----- The decision as a function of the call history -----

  function RuleFor(rules: seq<ToolRule>, tool: string): Option<ToolRule>
  {
    if rules == [] then None
    else if rules[0].name == tool then Some(rules[0])
    else RuleFor(rules[1..], tool)
  }

  predicate SchemaOk(p: Policy, tool: string, args: Json)
  {
    var rule := RuleFor(p.toolRules, tool);
    rule.Some? && rule.value.schema.Some? ==> rule.value.schema.value(args)
  }

  /** Membership and schema: only calls that pass them are counted. */
  predicate Counts(p: Policy, call: Event)
    requires call.ToolCall?
  {
    call.tool in p.allowedTools && SchemaOk(p, call.tool, call.args)
  }

  function ToolCap(p: Policy, tool: string): Option<nat>
  {
    var rule := RuleFor(p.toolRules, tool);
    if rule.Some? then rule.value.maxCalls else None
  }

  /** The smaller of the tool's own cap and the policy's. */
  function Cap(p: Policy, tool: string): nat
  {
    var cap := ToolCap(p, tool);
    if cap.Some? && cap.value < p.maxCallsPerTrace then cap.value else p.maxCallsPerTrace
  }

  function KeyOf(call: Event): Key
    requires call.ToolCall?
  {
    (call.traceId, call.tool)
  }

  /** The decision, given how many calls of the same trace and tool were counted before. */
  function Decide(p: Policy, sha: string -> nat, call: Event, earlier: nat): Decision
    requires call.ToolCall?
  {
    if p.allowedTools == [] then Denied(NoToolAllowed)
    else if call.tool !in p.allowedTools then Denied(ToolNotAllowed(call.tool))
    else if !SchemaOk(p, call.tool, call.args) then Denied(SchemaMismatch(call.tool))
    else if ToolCap(p, call.tool).Some? && earlier + 1 > ToolCap(p, call.tool).value then
      Denied(ToolCapExceeded(call.tool, ToolCap(p, call.tool).value))
    else if earlier + 1 > p.maxCallsPerTrace then Denied(TraceCapExceeded(p.maxCallsPerTrace))
    else ByScan(p, sha, call.args)
  }

  /** The egress scan has the last word: clean, denied, or redacted. */
  function ByScan(p: Policy, sha: string -> nat, args: Json): Decision
  {
    match Scan(p.egressRules, args)
    case None => Decision(true, PolicyAllows, None, ArgsDigest(sha, args))
    case Some(rule) =>
      if rule.severity == Deny then Denied(EgressHit(rule.name))
      else
        var rewritten := SetMember(args, "_redacted_by", Str(rule.name));
        Decision(true, Redacted(rule.name), Some(rewritten), ArgsDigest(sha, rewritten))
  }

  function Denied(reason: Reason): Decision
  {
    Decision(false, reason, None, Unset)
  }

  function AuditOf(call: Event, d: Decision): AuditEntry
    requires call.ToolCall?
  {
    AuditEntry(call.traceId, call.tool,
               if !d.allow then AuditDeny else if d.rewriteArgs == None then AuditAllow else AuditRewrite, d.reason)
  }

  ghost predicate AllCalls(h: seq<Event>)
  {
    forall i | 0 <= i < |h| :: h[i].ToolCall?
  }

  /** How many calls of the history were counted under this key. */
  ghost function Counted(p: Policy, h: seq<Event>, key: Key): nat
    requires AllCalls(h)
  {
    if h == [] then 0
    else
      var last := h[|h| - 1];
      Counted(p, h[..|h| - 1], key) + if KeyOf(last) == key && Counts(p, last) then 1 else 0
  }

  ghost function DecisionAfter(p: Policy, sha: string -> nat, h: seq<Event>, call: Event): Decision
    requires AllCalls(h) && call.ToolCall?
  {
    Decide(p, sha, call, Counted(p, h, KeyOf(call)))
  }

  ghost function AuditTrail(p: Policy, sha: string -> nat, h: seq<Event>): (trail: seq<AuditEntry>)
    requires AllCalls(h)
    ensures |trail| == |h|
  {
    if h == [] then []
    else
      var before, last := h[..|h| - 1], h[|h| - 1];
      AuditTrail(p, sha, before) + [AuditOf(last, DecisionAfter(p, sha, before, last))]
  }

  // ----- The gate -----

  class Gate {
    const policy: Policy
    const sha: string -> nat
    var callCounts: map<Key, nat>
    var audit: seq<AuditEntry>
    ghost var history: seq<Event>

    /** The counters and the audit log are functions of the calls seen so far. */
    ghost predicate Valid()
      reads this
    {
      && AllCalls(history)
      && (forall key: Key :: (if key in callCounts then callCounts[key] else 0) == Counted(policy, history, key))
      && audit == AuditTrail(policy, sha, history)
    }

    constructor (policy: Policy, sha: string -> nat)
      ensures Valid() && this.policy == policy && this.sha == sha && history == []
    {
      this.policy := policy;
      this.sha := sha;
      this.callCounts := map[];
      this.audit := [];
      this.history := [];
    }

    method OnToolCall(call: Event) returns (d: Decision)
      requires Valid() && call.ToolCall?
      modifies this
      ensures Valid() && history == old(history) + [call]
      ensures d == DecisionAfter(policy, sha, old(history), call)
      ensures audit == old(audit) + [AuditOf(call, d)]
    {
      ghost var before := history;
      d := Check(call);
      audit := audit + [AuditOf(call, d)];
      history := history + [call];
      assert history[..|history| - 1] == before;
    }

    /** The checks in order, the first that fails deciding; counting happens after the schema check. */
    method Check(call: Event) returns (d: Decision)
      requires Valid() && call.ToolCall?
      modifies this`callCounts
      ensures d == DecisionAfter(policy, sha, history, call)
      ensures forall key: Key :: (if key in callCounts then callCounts[key] else 0)
                                 == Counted(policy, history, key) +
                                    if key == KeyOf(call) && Counts(policy, call) then 1 else 0
    {
      if policy.allowedTools == [] {
        return Denied(NoToolAllowed);
      }
      if call.tool !in policy.allowedTools {
        return Denied(ToolNotAllowed(call.tool));
      }
      var perTool := RuleFor(policy.toolRules, call.tool);
      if perTool.Some? && perTool.value.schema.Some? && !perTool.value.schema.value(call.args) {
        return Denied(SchemaMismatch(call.tool));
      }
      var key := KeyOf(call);
      var count := (if key in callCounts then callCounts[key] else 0) + 1;
      callCounts := callCounts[key := count];
      if perTool.Some? && perTool.value.maxCalls.Some? && count > perTool.value.maxCalls.value {
        return Denied(ToolCapExceeded(call.tool, perTool.value.maxCalls.value));
      }
      if count > policy.maxCallsPerTrace {
        return Denied(TraceCapExceeded(policy.maxCallsPerTrace));
      }
      d := CheckEgress(call.args);
    }

    method CheckEgress(args: Json) returns (d: Decision)
      ensures d == ByScan(policy, sha, args)
    {
      var hit := ScanEgress(args);
      if hit.Some? {
        if hit.value.severity == Deny {
          return Denied(EgressHit(hit.value.name));
        }
        var rewritten := SetMember(args, "_redacted_by", Str(hit.value.name));
        return Decision(true, Redacted(hit.value.name), Some(rewritten), ArgsDigest(sha, rewritten));
      }
      return Decision(true, PolicyAllows, None, ArgsDigest(sha, args));
    }

    /** The nested walk over rules and string leaves, with its early exit. */
    method ScanEgress(args: Json) returns (hit: Option<EgressRule>)
      ensures hit == Scan(policy.egressRules, args)
    {
      var rules := policy.egressRules;
      var values := StrLeaves(args);
      for r := 0 to |rules|
        invariant Scan(rules, args) == Scan(rules[r..], args)
      {
        var rule := rules[r];
        for v := 0 to |values|
          invariant forall k | 0 <= k < v :: !Hits(rule, values[k])
        {
          if rule.matches(values[v]) != [] {
            var skip := false;
            if rule.name == "pan" {
              var ok := ExtractPanLuhnOk(rule.matches(values[v]));
              skip := !ok;
            }
            if !skip {
              return Some(rule);
            }
          }
        }
        assert rules[r..][1..] == rules[r + 1..];
      }
      return None;
    }
  }

  method ExtractPanLuhnOk(matches: seq<string>) returns (ok: bool)
    ensures ok == HasLuhnValid(matches)
  {
    for i := 0 to |matches|
      invariant forall k | 0 <= k < i :: !Luhn.Accepts(matches[k])
    {
      var valid := Luhn.LuhnValid(matches[i]);
      if valid {
        return true;
      }
    }
    return false;
  }
}
