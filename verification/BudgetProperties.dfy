/**
  What the budget hooks guarantee over whole runs: any interleaving of calls and results of any
  number of traces, around any inner policy.
 */
module BudgetProperties {
  import opened Text
  import opened Helpers
  import opened Events
  import opened Budget
  import PolicyGate
  import GateProperties

  function After(spec: Spec, ops: seq<Op>): State
  {
    if ops == [] then INITIAL else Step(spec, After(spec, ops[..|ops| - 1]), ops[|ops| - 1])
  }

  /** What the hooks answered to the last operation, when it is a call. */
  function LastAnswer(spec: Spec, ops: seq<Op>): Answer
    requires ops != [] && ops[|ops| - 1].CallOp?
  {
    var last := ops[|ops| - 1];
    OnCall(spec, After(spec, ops[..|ops| - 1]), last.tid, last.innerAllows, last.now).1
  }

  function AllowedIn(spec: Spec, ops: seq<Op>, tid: nat): nat
  {
    if ops == [] then 0
    else
      AllowedIn(spec, ops[..|ops| - 1], tid) +
      if ops[|ops| - 1].CallOp? && ops[|ops| - 1].tid == tid && LastAnswer(spec, ops) == Allowed then 1 else 0
  }

  datatype Tally = Tally(calls: nat, allowed: nat, innerDenied: nat)

  function Count(spec: Spec, ops: seq<Op>): Tally
  {
    if ops == [] then Tally(0, 0, 0)
    else
      var t := Count(spec, ops[..|ops| - 1]);
      if ops[|ops| - 1].ResultOp? then t
      else Tally(t.calls + 1, t.allowed + (if LastAnswer(spec, ops) == Allowed then 1 else 0),
                 t.innerDenied + if LastAnswer(spec, ops) == InnerDenied then 1 else 0)
  }

  // ----- Breaches -----

  /** A call is allowed only if the inner policy allowed it and nothing was breached before. */
  lemma AllowedOnlyIfClean(spec: Spec, ops: seq<Op>)
    requires ops != [] && ops[|ops| - 1].CallOp? && LastAnswer(spec, ops) == Allowed
    ensures ops[|ops| - 1].innerAllows && After(spec, ops[..|ops| - 1]).breaches == []
  {
  }

  lemma {:induction false} BreachesOnlyGrow(spec: Spec, ops: seq<Op>, later: seq<Op>)
    ensures After(spec, ops).breaches <= After(spec, ops + later).breaches
  {
    if later == [] {
      assert ops + later == ops;
    } else {
      var before := later[..|later| - 1];
      BreachesOnlyGrow(spec, ops, before);
      assert (ops + later)[..|ops + later| - 1] == ops + before;
    }
  }

  /** Once any trace has breached, every later call of every trace is denied. */
  lemma BreachDeniesEveryTrace(spec: Spec, ops: seq<Op>, later: seq<Op>)
    requires After(spec, ops).breaches != []
    requires later != [] && later[|later| - 1].CallOp?
    ensures LastAnswer(spec, ops + later) != Allowed
  {
    BreachesOnlyGrow(spec, ops, later[..|later| - 1]);
    assert (ops + later)[..|ops + later| - 1] == ops + later[..|later| - 1];
  }

  /** A breach of the call count can only be the first breach. */
  lemma {:induction false} CallsBreachIsFirst(spec: Spec, ops: seq<Op>, i: nat)
    requires i < |After(spec, ops).breaches| && After(spec, ops).breaches[i].metric == Calls
    ensures i == 0
  {
    if ops != [] {
      var before := ops[..|ops| - 1];
      if i < |After(spec, before).breaches| {
        CallsBreachIsFirst(spec, before, i);
      }
    }
  }

  // ----- Conservation of calls -----

  /** Every call is allowed, denied by the inner policy, or counted as denied by the budget. */
  lemma {:induction false} CallsAddUp(spec: Spec, ops: seq<Op>)
    ensures var t := Count(spec, ops);
            t.calls == t.allowed + t.innerDenied + After(spec, ops).deniedCalls
  {
    if ops != [] {
      CallsAddUp(spec, ops[..|ops| - 1]);
    }
  }

  /** The trace whose call ran over the count, if that was the first breach. */
  ghost function OverrunTrace(spec: Spec, ops: seq<Op>): Option<nat>
  {
    if ops == [] then None
    else
      var last := ops[|ops| - 1];
      if last.CallOp? && LastAnswer(spec, ops).BreachedNow? then Some(last.tid)
      else OverrunTrace(spec, ops[..|ops| - 1])
  }

  /** The counter of a trace is its allowed calls, plus one on the single trace that ran over. */
  lemma {:induction false} CounterIsAllowed(spec: Spec, ops: seq<Op>, tid: nat)
    ensures After(spec, ops).ledger.CallsOf(tid) == AllowedIn(spec, ops, tid)
            + if OverrunTrace(spec, ops) == Some(tid) then 1 else 0
    ensures AllowedIn(spec, ops, tid) > 0 ==> AllowedIn(spec, ops, tid) <= spec.maxCalls
    ensures OverrunTrace(spec, ops).Some? ==> After(spec, ops).breaches != []
  {
    if ops != [] {
      var before := ops[..|ops| - 1];
      CounterIsAllowed(spec, before, tid);
      assert After(spec, before).breaches <= After(spec, ops).breaches;
    }
  }

  /** Allowed calls per trace stay within the ceiling, and at most one counter ever passes it, by one. */
  lemma CallCeilingHolds(spec: Spec, ops: seq<Op>, tid: nat, other: nat)
    requires 0 <= spec.maxCalls
    ensures AllowedIn(spec, ops, tid) <= spec.maxCalls
    ensures After(spec, ops).ledger.CallsOf(tid) <= spec.maxCalls + 1
    ensures After(spec, ops).ledger.CallsOf(tid) == After(spec, ops).ledger.CallsOf(other) == spec.maxCalls + 1 ==>
            tid == other
  {
    CounterIsAllowed(spec, ops, tid);
    CounterIsAllowed(spec, ops, other);
  }

  // ----- Tokens and cost -----

  predicate Within(spec: Spec, l: Ledger, tid: nat)
  {
    l.TokensOf(tid) <= spec.maxTokens && l.CostOf(tid) <= spec.maxCost
  }

  /** While nothing has been breached every trace is within its token and cost ceilings. */
  lemma {:induction false} CleanMeansWithin(spec: Spec, ops: seq<Op>, tid: nat)
    requires 0 <= spec.maxTokens && 0.0 <= spec.maxCost
    ensures After(spec, ops).breaches == [] ==> Within(spec, After(spec, ops).ledger, tid)
  {
    if ops != [] {
      CleanMeansWithin(spec, ops[..|ops| - 1], tid);
    }
  }

  /** Each result directly follows its own allowed call, as the adapters' loops make it. */
  ghost predicate Sequential(spec: Spec, ops: seq<Op>)
  {
    forall i | 0 <= i < |ops| && ops[i].ResultOp? ::
      i > 0 && ops[i - 1].CallOp? && ops[i - 1].tid == ops[i].tid && LastAnswer(spec, ops[..i]) == Allowed
  }

  ghost predicate NonNegative(ops: seq<Op>)
  {
    forall i | 0 <= i < |ops| && ops[i].ResultOp? :: ops[i].charge.tokens >= 0 && ops[i].charge.cost >= 0.0
  }

  /** The charge of the latest result. */
  function LastCharge(ops: seq<Op>): Charge
  {
    if ops == [] then Charge(0, 0.0, 0.0)
    else if ops[|ops| - 1].ResultOp? then ops[|ops| - 1].charge
    else LastCharge(ops[..|ops| - 1])
  }

  /** In sequential runs recorded spend exceeds a ceiling by at most the latest result's charge. */
  lemma {:induction false} OverrunIsOneCharge(spec: Spec, ops: seq<Op>, tid: nat)
    requires 0 <= spec.maxTokens && 0.0 <= spec.maxCost
    requires Sequential(spec, ops) && NonNegative(ops)
    ensures After(spec, ops).ledger.TokensOf(tid) <= spec.maxTokens + LastCharge(ops).tokens
    ensures After(spec, ops).ledger.CostOf(tid) <= spec.maxCost + LastCharge(ops).cost
  {
    if ops != [] {
      var before, last := ops[..|ops| - 1], ops[|ops| - 1];
      assert Sequential(spec, before) by {
        forall i | 0 <= i < |before| && before[i].ResultOp?
          ensures i > 0 && before[i - 1].CallOp? && before[i - 1].tid == before[i].tid
                  && LastAnswer(spec, before[..i]) == Allowed
        {
          assert before[..i] == ops[..i];
        }
      }
      if last.CallOp? {
        OverrunIsOneCharge(spec, before, tid);
      } else {
        AllowedOnlyIfClean(spec, before);
        assert After(spec, before).breaches == After(spec, before[..|before| - 1]).breaches == [];
        CleanMeansWithin(spec, before, tid);
      }
    }
  }

  // ----- Degradation level -----

  function Rank(level: Level): nat
  {
    match level
    case Full => 0
    case Reduced => 1
    case Minimal => 2
    case Emergency => 3
  }

  lemma FractionGrows(x: real, y: real, d: real)
    requires x <= y && d > 0.0
    ensures x / d <= y / d
  {
  }

  /** With non-negative charges the degradation level of a trace never goes down. */
  lemma {:induction false} LevelNeverDecreases(spec: Spec, ops: seq<Op>, later: seq<Op>, tid: nat)
    requires NonNegative(later)
    ensures Rank(LevelOf(spec, After(spec, ops).ledger, tid))
            <= Rank(LevelOf(spec, After(spec, ops + later).ledger, tid))
  {
    if later == [] {
      assert ops + later == ops;
    } else {
      var before, last := later[..|later| - 1], later[|later| - 1];
      LevelNeverDecreases(spec, ops, before, tid);
      LevelStep(spec, ops + before, last, tid);
      SnocSplit(ops, later);
    }
  }

  lemma SnocSplit<T>(a: seq<T>, b: seq<T>)
    requires b != []
    ensures a + b == a + b[..|b| - 1] + [b[|b| - 1]]
  {
  }

  lemma LevelStep(spec: Spec, ops: seq<Op>, op: Op, tid: nat)
    requires op.ResultOp? ==> op.charge.tokens >= 0 && op.charge.cost >= 0.0
    ensures Rank(LevelOf(spec, After(spec, ops).ledger, tid))
            <= Rank(LevelOf(spec, After(spec, ops + [op]).ledger, tid))
  {
    assert (ops + [op])[..|ops|] == ops;
    var l, m := After(spec, ops).ledger, After(spec, ops + [op]).ledger;
    FractionGrows(l.TokensOf(tid) as real, m.TokensOf(tid) as real, Max(1.0, spec.maxTokens as real));
    FractionGrows(l.CostOf(tid), m.CostOf(tid), Max(0.000000001, spec.maxCost));
  }

  /** Breaches of calls, tokens or cost. */
  ghost predicate SpendBreachesAreEmergencies(spec: Spec, ops: seq<Op>)
  {
    forall i | 0 <= i < |After(spec, ops).breaches| && After(spec, ops).breaches[i].metric != WallTime ::
      After(spec, ops).breaches[i].level == Emergency
  }

  predicate MeaningfulCeilings(spec: Spec)
  {
    0 <= spec.maxTokens && 0.0000000009 <= spec.maxCost
  }

  lemma {:induction false} BreachesAreEmergencies(spec: Spec, ops: seq<Op>)
    requires MeaningfulCeilings(spec)
    ensures SpendBreachesAreEmergencies(spec, ops)
  {
    if ops != [] {
      var before, last := ops[..|ops| - 1], ops[|ops| - 1];
      BreachesAreEmergencies(spec, before);
      if last.ResultOp? {
        var after := After(spec, ops).ledger;
        QuotientAtLeast(after.TokensOf(last.tid) as real, Max(1.0, spec.maxTokens as real), 0.9);
        QuotientAtLeast(after.CostOf(last.tid), Max(0.000000001, spec.maxCost), 0.9);
      }
    }
  }

  /** A single result that shows a breach at a lower level, when a ceiling is too small. */
  function SmallBreach(spec: Spec): Op
  {
    var cost := if spec.maxTokens < 0 || spec.maxCost < 0.0 then 0.0 else (spec.maxCost + 0.0000000009) / 2.0;
    ResultOp(0, Charge(0, cost, 0.0), 0.0)
  }

  lemma SmallBreachIsMild(spec: Spec)
    requires !MeaningfulCeilings(spec)
    ensures var breaches := Step(spec, INITIAL, SmallBreach(spec)).breaches;
            |breaches| == 1 && breaches[0].metric != WallTime && breaches[0].level != Emergency
  {
    var c := SmallBreach(spec).charge;
    var (after, breach) := RecordResult(spec, EMPTY, 0, c, 0.0);
    assert after.TokensOf(0) == 0 && after.CostOf(0) == c.cost;
    assert c.cost > spec.maxCost || spec.maxTokens < 0;
    QuotientAtLeast(0.0, Max(1.0, spec.maxTokens as real), 0.9);
    QuotientAtLeast(c.cost, Max(0.000000001, spec.maxCost), 0.9);
    assert TokenFraction(spec, 0) < 0.9 && CostFraction(spec, c.cost) < 0.9;
    assert breach.Some? && breach.value.level == LevelOf(spec, after, 0);
  }

  /**
    Every breach of calls, tokens or cost, in every run, carries the emergency level exactly when
    the token ceiling is not negative and the cost ceiling at least nine tenths of the guard 1e-9.
   */
  lemma EmergencyIffMeaningfulCeilings(spec: Spec)
    ensures (forall ops :: SpendBreachesAreEmergencies(spec, ops)) <==> MeaningfulCeilings(spec)
  {
    if MeaningfulCeilings(spec) {
      forall ops
        ensures SpendBreachesAreEmergencies(spec, ops)
      {
        BreachesAreEmergencies(spec, ops);
      }
    } else {
      var op := SmallBreach(spec);
      assert [op][..0] == [];
      assert After(spec, [op]) == Step(spec, INITIAL, op);
      SmallBreachIsMild(spec);
      assert !SpendBreachesAreEmergencies(spec, [op]);
    }
  }

  // ----- Around the policy gate -----

  /** One hook call as the adapters make it. */
  datatype Hook =
    | CallHook(call: Event, now: real)
    | ResultHook(tid: nat, charge: Charge, now: real)

  /** What the hooks are shown as calls are `ToolCall` objects. */
  ghost predicate ShowsCalls(hs: seq<Hook>)
  {
    forall i | 0 <= i < |hs| && hs[i].CallHook? :: GateProperties.Possible(hs[i].call)
  }

  /** The calls the gate has seen. */
  ghost function SeenByGate(hs: seq<Hook>): (h: seq<Event>)
    requires ShowsCalls(hs)
    ensures GateProperties.AllPossible(h) && PolicyGate.AllCalls(h)
  {
    if hs == [] then []
    else
      var last := hs[|hs| - 1];
      SeenByGate(hs[..|hs| - 1]) + if last.CallHook? then [last.call] else []
  }

  /** The same run as the budget sees it, with a policy gate as its inner policy. */
  ghost function Governed(p: PolicyGate.Policy, sha: string -> nat, hs: seq<Hook>): seq<Op>
    requires ShowsCalls(hs)
  {
    if hs == [] then []
    else
      var before, last := hs[..|hs| - 1], hs[|hs| - 1];
      Governed(p, sha, before) + [OpOf(p, sha, SeenByGate(before), last)]
  }

  ghost function OpOf(p: PolicyGate.Policy, sha: string -> nat, h: seq<Event>, hook: Hook): Op
    requires PolicyGate.AllCalls(h) && (hook.CallHook? ==> hook.call.ToolCall?)
  {
    match hook
    case CallHook(call, now) => CallOp(call.traceId, PolicyGate.DecisionAfter(p, sha, h, call).allow, now)
    case ResultHook(tid, charge, now) => ResultOp(tid, charge, now)
  }

  /** How many calls of a key both the gate and the budget allowed. */
  ghost function AllowedByBoth(p: PolicyGate.Policy, sha: string -> nat, spec: Spec, hs: seq<Hook>,
                               key: PolicyGate.Key): nat
    requires ShowsCalls(hs)
  {
    if hs == [] then 0
    else
      var last := hs[|hs| - 1];
      AllowedByBoth(p, sha, spec, hs[..|hs| - 1], key) +
      if last.CallHook? && PolicyGate.KeyOf(last.call) == key && LastIsAllowed(spec, Governed(p, sha, hs)) then 1 else 0
  }

  predicate LastIsAllowed(spec: Spec, ops: seq<Op>)
  {
    ops != [] && ops[|ops| - 1].CallOp? && LastAnswer(spec, ops) == Allowed
  }

  /** The budget allows nothing that the gate denied. */
  lemma {:induction false} BothWithinGate(p: PolicyGate.Policy, sha: string -> nat, spec: Spec, hs: seq<Hook>,
                                          tid: nat, tool: string)
    requires ShowsCalls(hs)
    ensures AllowedByBoth(p, sha, spec, hs, (tid, tool)) <= GateProperties.Allowed(p, sha, SeenByGate(hs), (tid, tool))
    ensures AllowedIn(spec, Governed(p, sha, hs), tid) <= GateProperties.AllowedInTrace(p, sha, SeenByGate(hs), tid)
  {
    if hs != [] {
      var before, last := hs[..|hs| - 1], hs[|hs| - 1];
      BothWithinGate(p, sha, spec, before, tid, tool);
      OneMoreOp(spec, Governed(p, sha, before), OpOf(p, sha, SeenByGate(before), last), tid);
      if last.CallHook? {
        OneMoreCall(p, sha, SeenByGate(before), last.call, (tid, tool));
      } else {
        assert SeenByGate(hs) == SeenByGate(before);
      }
    }
  }

  lemma OneMoreOp(spec: Spec, ops: seq<Op>, op: Op, tid: nat)
    ensures LastIsAllowed(spec, ops + [op]) ==> op.CallOp? && op.innerAllows
    ensures AllowedIn(spec, ops + [op], tid)
            == AllowedIn(spec, ops, tid) + if LastIsAllowed(spec, ops + [op]) && op.tid == tid then 1 else 0
  {
    assert (ops + [op])[..|ops|] == ops;
  }

  lemma OneMoreCall(p: PolicyGate.Policy, sha: string -> nat, h: seq<Event>, call: Event, key: PolicyGate.Key)
    requires PolicyGate.AllCalls(h) && call.ToolCall?
    ensures var allow := PolicyGate.DecisionAfter(p, sha, h, call).allow;
            && GateProperties.Allowed(p, sha, h + [call], key)
               == GateProperties.Allowed(p, sha, h, key) + (if PolicyGate.KeyOf(call) == key && allow then 1 else 0)
            && GateProperties.AllowedInTrace(p, sha, h + [call], key.0)
               == GateProperties.AllowedInTrace(p, sha, h, key.0) + if call.traceId == key.0 && allow then 1 else 0
  {
    assert (h + [call])[..|h|] == h;
  }

  /**
    Policy and budget together, over every interleaving of traces: a tool is called in a trace at most as
    often as both of its caps say, and a trace has at most as many calls as the budget's ceiling and as
    the caps of the usable tools add up to.
   */
  lemma GovernedAndBudgeted(p: PolicyGate.Policy, sha: string -> nat, spec: Spec, hs: seq<Hook>, tid: nat, tool: string)
    requires ShowsCalls(hs) && 0 <= spec.maxCalls
    ensures AllowedByBoth(p, sha, spec, hs, (tid, tool)) <= PolicyGate.Cap(p, tool)
    ensures AllowedIn(spec, Governed(p, sha, hs), tid) <= spec.maxCalls
    ensures AllowedIn(spec, Governed(p, sha, hs), tid) <= GateProperties.SumCaps(p, GateProperties.CallableTools(p))
  {
    BothWithinGate(p, sha, spec, hs, tid, tool);
    GateProperties.AllowedWithinCap(p, sha, SeenByGate(hs), (tid, tool));
    GateProperties.TraceWithinSumOfCaps(p, sha, SeenByGate(hs), tid);
    CallCeilingHolds(spec, Governed(p, sha, hs), tid, tid);
  }
}
