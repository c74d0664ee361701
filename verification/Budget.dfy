/**
  The per-trace budget and the hooks that enforce it around an inner policy.

  Spend is exact: costs are reals.  Clock readings are inputs, in milliseconds.  An exception that
  reports a breach is an optional result.
 */
module Budget {
  import opened Text
  import opened Helpers
  import opened Events
  import PolicyGate

  datatype Level = Full | Reduced | Minimal | Emergency

  datatype Metric = Calls | Tokens | Cost | WallTime

  datatype Breach = Breach(metric: Metric, observed: real, ceiling: real, level: Level)

  datatype Spec = Spec(maxTokens: int, maxCost: real, maxCalls: int, maxWallMs: real)

  /** What the manager has recorded; a missing entry counts as zero. */
  datatype Ledger = Ledger(started: Option<real>, calls: map<nat, nat>, tokens: map<nat, int>, cost: map<nat, real>)
  {
    function CallsOf(tid: nat): nat
    {
      if tid in calls then calls[tid] else 0
    }

    function TokensOf(tid: nat): int
    {
      if tid in tokens then tokens[tid] else 0
    }

    function CostOf(tid: nat): real
    {
      if tid in cost then cost[tid] else 0.0
    }
  }

  const EMPTY := Ledger(None, map[], map[], map[])

  function TokenFraction(spec: Spec, tokens: int): real
  {
    tokens as real / Max(1.0, spec.maxTokens as real)
  }

  function CostFraction(spec: Spec, cost: real): real
  {
    cost / Max(0.000000001, spec.maxCost)
  }

  function LevelAt(worst: real): Level
  {
    if worst < 0.50 then Full
    else if worst < 0.75 then Reduced
    else if worst < 0.90 then Minimal
    else Emergency
  }

  function LevelOf(spec: Spec, l: Ledger, tid: nat): Level
  {
    LevelAt(Max(TokenFraction(spec, l.TokensOf(tid)), CostFraction(spec, l.CostOf(tid))))
  }

  /** `record_call`: count, then compare with the ceiling. */
  function RecordCall(spec: Spec, l: Ledger, tid: nat, now: real): (Ledger, Option<Breach>)
  {
    var n := l.CallsOf(tid) + 1;
    var after := l.(started := if l.started.None? then Some(now) else l.started, calls := l.calls[tid := n]);
    (after, if n > spec.maxCalls then Some(Breach(Calls, n as real, spec.maxCalls as real, Emergency)) else None)
  }

  /** One result's charge and latency. */
  datatype Charge = Charge(tokens: int, cost: real, latencyMs: real)

  /** `record_tool_result`: book the charge, then check wall time, tokens and cost, in this order. */
  function RecordResult(spec: Spec, l: Ledger, tid: nat, c: Charge, now: real): (Ledger, Option<Breach>)
  {
    var after := l.(tokens := l.tokens[tid := l.TokensOf(tid) + c.tokens],
                    cost := l.cost[tid := l.CostOf(tid) + c.cost]);
    var observed := if l.started.Some? then Max(now - l.started.value, c.latencyMs) else c.latencyMs;
    (after,
     if c.latencyMs > 0.0 && observed > spec.maxWallMs then
       Some(Breach(WallTime, observed, spec.maxWallMs, LevelOf(spec, after, tid)))
     else if after.TokensOf(tid) > spec.maxTokens then
       Some(Breach(Tokens, after.TokensOf(tid) as real, spec.maxTokens as real, LevelOf(spec, after, tid)))
     else if after.CostOf(tid) > spec.maxCost then
       Some(Breach(Cost, after.CostOf(tid), spec.maxCost, LevelOf(spec, after, tid)))
     else None)
  }

  class BudgetManager {
    const spec: Spec
    var started: Option<real>
    var calls: map<nat, nat>
    var tokens: map<nat, int>
    var cost: map<nat, real>

    constructor (spec: Spec)
      ensures this.spec == spec && Recorded() == EMPTY
    {
      this.spec := spec;
      this.started := None;
      this.calls := map[];
      this.tokens := map[];
      this.cost := map[];
    }

    function Recorded(): Ledger
      reads this
    {
      Ledger(started, calls, tokens, cost)
    }

    method RecordToolCall(tid: nat, now: real) returns (breach: Option<Breach>)
      modifies this
      ensures (Recorded(), breach) == RecordCall(spec, old(Recorded()), tid, now)
    {
      if started.None? {
        started := Some(now);
      }
      calls := calls[tid := (if tid in calls then calls[tid] else 0) + 1];
      var observed := calls[tid];
      if observed > spec.maxCalls {
        return Some(Breach(Calls, observed as real, spec.maxCalls as real, Emergency));
      }
      return None;
    }

    method RecordToolResult(tid: nat, c: Charge, now: real) returns (breach: Option<Breach>)
      modifies this
      ensures (Recorded(), breach) == RecordResult(spec, old(Recorded()), tid, c, now)
    {
      tokens := tokens[tid := (if tid in tokens then tokens[tid] else 0) + c.tokens];
      cost := cost[tid := (if tid in cost then cost[tid] else 0.0) + c.cost];
      if c.latencyMs > 0.0 {
        var observed := if started.Some? then Max(now - started.value, c.latencyMs) else c.latencyMs;
        if observed > spec.maxWallMs {
          return Some(Breach(WallTime, observed, spec.maxWallMs, LevelOf(spec, Recorded(), tid)));
        }
      }
      if tokens[tid] > spec.maxTokens {
        return Some(Breach(Tokens, tokens[tid] as real, spec.maxTokens as real, LevelOf(spec, Recorded(), tid)));
      }
      if cost[tid] > spec.maxCost {
        return Some(Breach(Cost, cost[tid], spec.maxCost, LevelOf(spec, Recorded(), tid)));
      }
      return None;
    }
  }

  // ----- Hooks around an inner policy -----

  datatype Answer =
    | InnerDenied
    | BreachedEarlier(first: Breach, levelNow: Level)
    | BreachedNow(breach: Breach)
    | Allowed

  /** The state of the hooks, the inner policy apart. */
  datatype State = State(ledger: Ledger, breaches: seq<Breach>, deniedCalls: nat)

  const INITIAL := State(EMPTY, [], 0)

  /** One hook call as it reaches the budget: the inner decision is whatever the inner hooks gave. */
  datatype Op =
    | CallOp(tid: nat, innerAllows: bool, now: real)
    | ResultOp(tid: nat, charge: Charge, now: real)

  function OnCall(spec: Spec, s: State, tid: nat, innerAllows: bool, now: real): (State, Answer)
  {
    if !innerAllows then (s, InnerDenied)
    else if s.breaches != [] then
      (s.(deniedCalls := s.deniedCalls + 1), BreachedEarlier(s.breaches[0], LevelOf(spec, s.ledger, tid)))
    else
      var (after, breach) := RecordCall(spec, s.ledger, tid, now);
      match breach
      case None => (s.(ledger := after), Allowed)
      case Some(b) => (State(after, s.breaches + [b], s.deniedCalls + 1), BreachedNow(b))
  }

  function OnResult(spec: Spec, s: State, tid: nat, c: Charge, now: real): State
  {
    var (after, breach) := RecordResult(spec, s.ledger, tid, c, now);
    s.(ledger := after, breaches := s.breaches + if breach.Some? then [breach.value] else [])
  }

  function Step(spec: Spec, s: State, op: Op): State
  {
    match op
    case CallOp(tid, innerAllows, now) => OnCall(spec, s, tid, innerAllows, now).0
    case ResultOp(tid, c, now) => OnResult(spec, s, tid, c, now)
  }

  class BudgetedHooks {
    const budget: BudgetManager
    const inner: PolicyGate.Gate?
    const costModel: (Event, Event) -> (int, real)
    var breaches: seq<Breach>
    var deniedCalls: nat

    constructor (budget: BudgetManager, inner: PolicyGate.Gate?, costModel: (Event, Event) -> (int, real))
      ensures this.budget == budget && this.inner == inner && this.costModel == costModel
      ensures breaches == [] && deniedCalls == 0
    {
      this.budget, this.inner, this.costModel := budget, inner, costModel;
      this.breaches := [];
      this.deniedCalls := 0;
    }

    function Now(): State
      reads this, budget
    {
      State(budget.Recorded(), breaches, deniedCalls)
    }

    /** The inner policy decides first; the budget can only turn an allowance into a denial. */
    method OnToolCall(call: Event, now: real) returns (answer: Answer)
      requires call.ToolCall? && (inner != null ==> inner.Valid())
      modifies this`breaches, this`deniedCalls, budget, inner
      ensures inner != null ==> inner.Valid() && inner.history == old(inner.history) + [call]
      ensures var innerAllows := inner == null ||
                old(PolicyGate.Decide(inner.policy, inner.sha, call,
                                      PolicyGate.Counted(inner.policy, inner.history, PolicyGate.KeyOf(call)))).allow;
              (Now(), answer) == OnCall(budget.spec, old(Now()), call.traceId, innerAllows, now)
    {
      if inner != null {
        var decision := inner.OnToolCall(call);
        if !decision.allow {
          return InnerDenied;
        }
      }
      answer := Spend(call, now);
    }

    /** The budget's part: an earlier breach, or the count of this call, denies it. */
    method Spend(call: Event, now: real) returns (answer: Answer)
      modifies this`breaches, this`deniedCalls, budget
      ensures (Now(), answer) == OnCall(budget.spec, old(Now()), call.traceId, true, now)
    {
      if breaches != [] {
        deniedCalls := deniedCalls + 1;
        return BreachedEarlier(breaches[0], LevelOf(budget.spec, budget.Recorded(), call.traceId));
      }
      var breach := budget.RecordToolCall(call.traceId, now);
      if breach.Some? {
        breaches := breaches + [breach.value];
        deniedCalls := deniedCalls + 1;
        return BreachedNow(breach.value);
      }
      return Allowed;
    }

    /** A breach found after the tool ran is kept for the next call. */
    method OnToolResult(call: Event, result: Event, latencyMs: real, now: real)
      requires call.ToolCall? && result.ToolResult?
      modifies this`breaches, budget
      ensures var (tokens, cost) := costModel(call, result);
              Now() == OnResult(budget.spec, old(Now()), call.traceId, Charge(tokens, cost, latencyMs), now)
    {
      var (tokens, cost) := costModel(call, result);
      var breach := budget.RecordToolResult(call.traceId, Charge(tokens, cost, latencyMs), now);
      if breach.Some? {
        breaches := breaches + [breach.value];
      }
    }
  }
}
