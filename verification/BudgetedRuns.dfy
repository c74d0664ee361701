/**
  Adapter runs under a budget: the order of calls and results that the budget's guarantees assume is the
  one that the adapters produce, so the guarantees hold of what the adapters execute and spend.
 */
module BudgetedRuns {
  import opened Text
  import opened Helpers
  import opened CanonicalJson
  import opened Events
  import opened StubRegistry
  import opened Runtime
  import opened ClaudeSdk
  import opened Budget
  import opened BudgetProperties
  import PolicyGate
  import RawLoop
  import ClaudeSdkProperties

  /** What the budget's hooks are given from outside: the inner policy, the cost model and the clock. */
  datatype Outside = Outside(
    inner: seq<HookCall> -> bool,
    charge: (Event, Event) -> Charge,
    clock: seq<HookCall> -> real)
  {
    ghost predicate NonNegative()
    {
      forall call, result :: charge(call, result).tokens >= 0 && charge(call, result).cost >= 0.0
    }
  }

  /** The hook calls as the budget sees them. */
  function OpsOf(x: Outside, log: seq<HookCall>): seq<Op>
  {
    if log == [] then []
    else
      var before, last := OpsOf(x, log[..|log| - 1]), log[|log| - 1];
      match last
      case SawCall(call) => before + [CallOp(call.traceId, x.inner(log), x.clock(log))]
      case SawResult(call, result) => before + [ResultOp(call.traceId, x.charge(call, result), x.clock(log))]
      case SawFinal(_) => before
  }

  lemma OpsSnoc(x: Outside, log: seq<HookCall>, h: HookCall)
    ensures var more := log + [h];
            OpsOf(x, more) ==
            match h
            case SawCall(call) => OpsOf(x, log) + [CallOp(call.traceId, x.inner(more), x.clock(more))]
            case SawResult(call, result) =>
              OpsOf(x, log) + [ResultOp(call.traceId, x.charge(call, result), x.clock(more))]
            case SawFinal(_) => OpsOf(x, log)
  {
    assert (log + [h])[..|log|] == log;
  }

  /** The hooks decide as the budget does after everything they were told. */
  ghost predicate Decides(decide: seq<HookCall> -> bool, spec: Spec, x: Outside)
  {
    forall log: seq<HookCall>, call: Event ::
      decide(log + [SawCall(call)]) == LastIsAllowed(spec, OpsOf(x, log + [SawCall(call)]))
  }

  // ----- One call, one pair -----

  lemma SequentialCall(spec: Spec, ops: seq<Op>, c: Op)
    requires Sequential(spec, ops) && c.CallOp?
    ensures Sequential(spec, ops + [c])
  {
    var more := ops + [c];
    forall i | 0 <= i < |more| && more[i].ResultOp?
      ensures i > 0 && more[i - 1].CallOp? && more[i - 1].tid == more[i].tid && LastAnswer(spec, more[..i]) == Allowed
    {
      assert more[..i] == ops[..i];
    }
  }

  lemma SequentialPair(spec: Spec, ops: seq<Op>, c: Op, r: Op)
    requires Sequential(spec, ops) && c.CallOp? && r.ResultOp? && c.tid == r.tid && LastIsAllowed(spec, ops + [c])
    ensures Sequential(spec, ops + [c] + [r])
  {
    SequentialCall(spec, ops, c);
    var one, more := ops + [c], ops + [c] + [r];
    forall i | 0 <= i < |more| && more[i].ResultOp?
      ensures i > 0 && more[i - 1].CallOp? && more[i - 1].tid == more[i].tid && LastAnswer(spec, more[..i]) == Allowed
    {
      assert more[..i] == one[..i];
      assert i == |one| ==> more[..i] == one;
    }
  }

  /** How many results a log holds, that is, how many calls were executed. */
  function Executions(es: seq<Event>): nat
  {
    if es == [] then 0 else (if es[0].ToolResult? then 1 else 0) + Executions(es[1..])
  }

  /** From `log` on a run keeps the order and executes exactly the calls of its trace that are allowed. */
  ghost predicate Keeps(spec: Spec, x: Outside, tid: nat, log: seq<HookCall>, rest: Run)
  {
    && Sequential(spec, OpsOf(x, log + rest.hookCalls))
    && AllowedIn(spec, OpsOf(x, log + rest.hookCalls), tid)
       == AllowedIn(spec, OpsOf(x, log), tid) + Executions(rest.events)
  }

  lemma FinalKeeps(spec: Spec, x: Outside, tid: nat, log: seq<HookCall>, final: Event, trace: Trace, exit: Exit)
    requires Sequential(spec, OpsOf(x, log)) && !final.ToolResult?
    ensures Keeps(spec, x, tid, log, Run([final], [SawFinal(trace)], exit))
  {
    OpsSnoc(x, log, SawFinal(trace));
    NoExecution(final);
  }

  lemma NothingKeeps(spec: Spec, x: Outside, tid: nat, log: seq<HookCall>)
    requires Sequential(spec, OpsOf(x, log))
    ensures Keeps(spec, x, tid, log, Run([], [], Invalid))
  {
    assert log + [] == log;
  }

  lemma NoExecution(e: Event)
    requires !e.ToolResult?
    ensures Executions([e]) == 0
  {
    assert [e][1..] == [];
  }

  lemma CallShown(spec: Spec, x: Outside, tid: nat, log: seq<HookCall>, call: Event)
    requires Sequential(spec, OpsOf(x, log)) && call.traceId == tid
    ensures var more := log + [SawCall(call)];
            && Sequential(spec, OpsOf(x, more))
            && AllowedIn(spec, OpsOf(x, more), tid)
               == AllowedIn(spec, OpsOf(x, log), tid) + if LastIsAllowed(spec, OpsOf(x, more)) then 1 else 0
  {
    var more := log + [SawCall(call)];
    var c := CallOp(call.traceId, x.inner(more), x.clock(more));
    OpsSnoc(x, log, SawCall(call));
    SequentialCall(spec, OpsOf(x, log), c);
    OneMoreOp(spec, OpsOf(x, log), c, tid);
  }

  lemma StoppedKeeps(spec: Spec, x: Outside, tid: nat, log: seq<HookCall>, call: Event, trace: Trace)
    requires Sequential(spec, OpsOf(x, log)) && call.traceId == tid && call.ToolCall?
    requires !LastIsAllowed(spec, OpsOf(x, log + [SawCall(call)]))
    ensures Keeps(spec, x, tid, log, Run([call], [SawCall(call), SawFinal(trace)], Denied))
  {
    var more := log + [SawCall(call)];
    CallShown(spec, x, tid, log, call);
    OpsSnoc(x, more, SawFinal(trace));
    TwoMore(log, SawCall(call), SawFinal(trace));
    NoExecution(call);
  }

  lemma TwoMore<T>(s: seq<T>, a: T, b: T)
    ensures s + [a, b] == s + [a] + [b]
  {
  }

  lemma PairShown(spec: Spec, x: Outside, tid: nat, log: seq<HookCall>, call: Event, result: Event)
    requires Sequential(spec, OpsOf(x, log)) && call.traceId == tid
    requires LastIsAllowed(spec, OpsOf(x, log + [SawCall(call)]))
    ensures var both := log + HookPair(call, result);
            && Sequential(spec, OpsOf(x, both))
            && AllowedIn(spec, OpsOf(x, both), tid) == AllowedIn(spec, OpsOf(x, log), tid) + 1
  {
    var one := log + [SawCall(call)];
    var two := one + [SawResult(call, result)];
    var c, r := CallOp(tid, x.inner(one), x.clock(one)), ResultOp(tid, x.charge(call, result), x.clock(two));
    OpsSnoc(x, log, SawCall(call));
    OpsSnoc(x, one, SawResult(call, result));
    assert log + HookPair(call, result) == two;
    SequentialPair(spec, OpsOf(x, log), c, r);
    OneMoreOp(spec, OpsOf(x, log), c, tid);
    OneMoreOp(spec, OpsOf(x, one), r, tid);
  }

  lemma PairKeeps(spec: Spec, x: Outside, tid: nat, log: seq<HookCall>, call: Event, result: Event, next: Run)
    requires Sequential(spec, OpsOf(x, log)) && call.traceId == tid && call.ToolCall? && result.ToolResult?
    requires LastIsAllowed(spec, OpsOf(x, log + [SawCall(call)]))
    requires Keeps(spec, x, tid, log + HookPair(call, result), next)
    ensures Keeps(spec, x, tid, log, WithPair(call, result, next))
  {
    PairShown(spec, x, tid, log, call, result);
    Assoc(log, HookPair(call, result), next.hookCalls);
    ExecutionsOfPair(call, result, next.events);
  }

  lemma ExecutionsOfPair(call: Event, result: Event, es: seq<Event>)
    requires call.ToolCall? && result.ToolResult?
    ensures Executions([call, result] + es) == Executions(es) + 1
  {
    assert ([call, result] + es)[1..] == [result] + es;
    assert ([result] + es)[1..] == es;
  }

  // ----- The message-driven adapter -----

  lemma {:induction false} RestKeeps(s: Setup, spec: Spec, x: Outside, messages: seq<SdkMessage>, seen: nat, n: nat,
                                     log: seq<HookCall>, ts: ToolState, done: seq<Event>)
    requires ts.Valid() && Decides(s.decide, spec, x) && Sequential(spec, OpsOf(x, log))
    ensures Keeps(spec, x, s.tid, log, Rest(s, messages, seen, n, log, ts, done))
    decreases |messages|
  {
    if messages == [] || seen + 1 > s.maxMessages {
      FinishedKeeps(s, spec, x, log, done, n, Echo(s.task));
    } else if messages[0].TextMessage? {
      FinishedKeeps(s, spec, x, log, done, n, FinalTextOf(s, messages[0].text));
    } else if Skipped(s, messages[0]) {
      RestKeeps(s, spec, x, messages[1..], seen + 1, n, log, ts, done);
    } else {
      var call := ProposedCall(s, messages[0], n);
      if !Acceptable(call) {
        NothingKeeps(spec, x, s.tid, log);
      } else if !s.decide(log + [SawCall(call)]) {
        StoppedKeeps(spec, x, s.tid, log, call, TraceRecord(s.tid, s.taskId, s.model, s.prior + (done + [call]), ""));
      } else {
        var result := ItsResult(s, messages[0], n, ts);
        PairShown(spec, x, s.tid, log, call, result);
        RestKeeps(s, spec, x, messages[1..], seen + 1, n + 2, log + HookPair(call, result),
                  AfterCall(ts, Invocation(messages[0].name.value, messages[0].input)), done + [call, result]);
        PairKeeps(spec, x, s.tid, log, call, result,
                  ClaudeSdkProperties.AfterPair(s, messages, seen, n, log, ts, done));
      }
    }
  }

  lemma FinishedKeeps(s: Setup, spec: Spec, x: Outside, log: seq<HookCall>, done: seq<Event>, n: nat, text: string)
    requires Sequential(spec, OpsOf(x, log))
    ensures Keeps(spec, x, s.tid, log, Finished(s, done, n, text))
  {
    var r := Finished(s, done, n, text);
    FinalKeeps(spec, x, s.tid, log, r.events[0], r.hookCalls[0].trace, r.exit);
  }

  /**
    Each result of a run directly follows its own allowed call, whatever ran under the same hooks before,
    and the run executes exactly the calls of its trace that the budget allows.
   */
  lemma SdkRunKeepsOrder(s: Setup, spec: Spec, x: Outside, messages: seq<SdkMessage>, log: seq<HookCall>, ts: ToolState)
    requires ts.Valid() && Decides(s.decide, spec, x) && Sequential(spec, OpsOf(x, log))
    ensures Keeps(spec, x, s.tid, log, WholeRun(s, messages, log, ts))
  {
    var user := UserMessage(s.tid, s.task, s.model);
    var rest := Rest(s, messages, 0, 1, log, ts, [user]);
    RestKeeps(s, spec, x, messages, 0, 1, log, ts, [user]);
    ExecutionsCons(user, rest.events);
  }

  lemma ExecutionsCons(user: Event, es: seq<Event>)
    requires !user.ToolResult?
    ensures Executions([user] + es) == Executions(es)
  {
    assert ([user] + es)[1..] == es;
  }

  // ----- The reference loop -----

  /** The same of the reference loop. */
  lemma LoopRunKeepsOrder(sha: string -> nat, render: Json -> string, s: RawLoop.Setup, decide: seq<HookCall> -> bool,
                          o: Outcome, spec: Spec, x: Outside, log: seq<HookCall>)
    requires Decides(decide, spec, x) && Sequential(spec, OpsOf(x, log))
    ensures var allow := s.tools != [] && decide(log + [SawCall(RawLoop.FirstCall(sha, s))]);
            Keeps(spec, x, s.tid, log, RawLoop.RawLoopRun(sha, render, s, allow, o))
  {
    var user := UserMessage(s.tid, s.task, RawLoop.MODEL_ID);
    if s.tools == [] {
      var final := FinalMessage(s.tid, 1, Echo(s.task), RawLoop.MODEL_ID);
      FinalKeeps(spec, x, s.tid, log, final,
                 TraceRecord(s.tid, s.taskId, RawLoop.MODEL_ID, s.prior + [user, final], Echo(s.task)),
                 Answered(Echo(s.task)));
      ExecutionsCons(user, [final]);
      assert [user] + [final] == [user, final];
    } else {
      var call := RawLoop.FirstCall(sha, s);
      if !Acceptable(call) {
        NothingKeeps(spec, x, s.tid, log);
        NoExecution(user);
      } else if !decide(log + [SawCall(call)]) {
        LoopStopped(s, spec, x, log, user, call);
      } else {
        LoopAnswered(render, s, o, spec, x, log, user, call);
      }
    }
  }

  lemma LoopStopped(s: RawLoop.Setup, spec: Spec, x: Outside, log: seq<HookCall>, user: Event, call: Event)
    requires Sequential(spec, OpsOf(x, log)) && call.traceId == s.tid && call.ToolCall? && !user.ToolResult?
    requires !LastIsAllowed(spec, OpsOf(x, log + [SawCall(call)]))
    ensures Keeps(spec, x, s.tid, log, RawLoop.DeniedRun(s, user, call))
  {
    StoppedKeeps(spec, x, s.tid, log, call, TraceRecord(s.tid, s.taskId, RawLoop.MODEL_ID, s.prior + [user, call], ""));
    ExecutionsCons(user, [call]);
    assert [user] + [call] == [user, call];
  }

  lemma LoopAnswered(render: Json -> string, s: RawLoop.Setup, o: Outcome, spec: Spec, x: Outside, log: seq<HookCall>,
                     user: Event, call: Event)
    requires s.tools != [] && Sequential(spec, OpsOf(x, log))
    requires call.traceId == s.tid && call.ToolCall? && !user.ToolResult?
    requires LastIsAllowed(spec, OpsOf(x, log + [SawCall(call)]))
    ensures Keeps(spec, x, s.tid, log, RawLoop.AllowedRun(render, s, user, call, o))
  {
    var text := RawLoop.FinalText(render, s.task, o);
    var result := ResultEvent(s.tid, 2, s.callId, s.tools[0], o);
    var final := FinalMessage(s.tid, 3, text, RawLoop.MODEL_ID);
    var trace := TraceRecord(s.tid, s.taskId, RawLoop.MODEL_ID, s.prior + [user, call, result, final], text);
    AnsweredKeeps(spec, x, s.tid, log, user, call, result, final, trace, Answered(text));
  }

  lemma AnsweredKeeps(spec: Spec, x: Outside, tid: nat, log: seq<HookCall>, user: Event, call: Event, result: Event,
                      final: Event, trace: Trace, exit: Exit)
    requires Sequential(spec, OpsOf(x, log)) && call.traceId == tid
    requires call.ToolCall? && result.ToolResult? && !user.ToolResult? && !final.ToolResult?
    requires LastIsAllowed(spec, OpsOf(x, log + [SawCall(call)]))
    ensures Keeps(spec, x, tid, log, Run([user, call, result, final],
                                         [SawCall(call), SawResult(call, result), SawFinal(trace)], exit))
  {
    var next := Run([final], [SawFinal(trace)], exit);
    PairShown(spec, x, tid, log, call, result);
    FinalKeeps(spec, x, tid, log + HookPair(call, result), final, trace, exit);
    PairKeeps(spec, x, tid, log, call, result, next);
    ExecutionsCons(user, [call, result] + [final]);
    Four(user, call, result, final);
    assert HookPair(call, result) + [SawFinal(trace)] == [SawCall(call), SawResult(call, result), SawFinal(trace)];
  }

  lemma Four<T>(a: T, b: T, c: T, d: T)
    ensures [a] + ([b, c] + [d]) == [a, b, c, d]
  {
  }

  // ----- What a run executes and spends -----

  lemma {:induction false} OpsNonNegative(x: Outside, log: seq<HookCall>)
    requires x.NonNegative()
    ensures BudgetProperties.NonNegative(OpsOf(x, log))
  {
    if log != [] {
      OpsNonNegative(x, log[..|log| - 1]);
    }
  }

  /**
    A run under a budget, after any runs that kept the order: it executes no more calls than the ceiling
    allows, and recorded spend of every trace exceeds a ceiling by at most the latest result's charge.
   */
  lemma KeptRunWithinBudget(spec: Spec, x: Outside, tid: nat, log: seq<HookCall>, r: Run, other: nat)
    requires Keeps(spec, x, tid, log, r) && x.NonNegative()
    requires 0 <= spec.maxCalls && 0 <= spec.maxTokens && 0.0 <= spec.maxCost
    ensures var ops := OpsOf(x, log + r.hookCalls);
            && Executions(r.events) <= spec.maxCalls
            && After(spec, ops).ledger.TokensOf(other) <= spec.maxTokens + LastCharge(ops).tokens
            && After(spec, ops).ledger.CostOf(other) <= spec.maxCost + LastCharge(ops).cost
  {
    var ops := OpsOf(x, log + r.hookCalls);
    OpsNonNegative(x, log + r.hookCalls);
    CallCeilingHolds(spec, ops, tid, tid);
    OverrunIsOneCharge(spec, ops, other);
  }

  /** Whatever the model asks for, a run of the message-driven adapter stays within its budget. */
  lemma SdkRunWithinBudget(s: Setup, spec: Spec, x: Outside, messages: seq<SdkMessage>, log: seq<HookCall>,
                           ts: ToolState, other: nat)
    requires ts.Valid() && Decides(s.decide, spec, x) && Sequential(spec, OpsOf(x, log)) && x.NonNegative()
    requires 0 <= spec.maxCalls && 0 <= spec.maxTokens && 0.0 <= spec.maxCost
    ensures var r := WholeRun(s, messages, log, ts);
            var ops := OpsOf(x, log + r.hookCalls);
            && Executions(r.events) <= spec.maxCalls
            && After(spec, ops).ledger.TokensOf(other) <= spec.maxTokens + LastCharge(ops).tokens
            && After(spec, ops).ledger.CostOf(other) <= spec.maxCost + LastCharge(ops).cost
  {
    SdkRunKeepsOrder(s, spec, x, messages, log, ts);
    KeptRunWithinBudget(spec, x, s.tid, log, WholeRun(s, messages, log, ts), other);
  }

  // ----- Policy gate and budget at once -----

  /** The inner policy is a gate that has seen every call in the log. */
  ghost predicate InnerGate(x: Outside, p: PolicyGate.Policy, sha: string -> nat)
  {
    forall log: seq<HookCall>, call: Event | call.ToolCall? ::
      x.inner(log + [SawCall(call)])
      == PolicyGate.DecisionAfter(p, sha, ClaudeSdkProperties.CallsSeen(log), call).allow
  }

  lemma BudgetGuards(s: Setup, spec: Spec, x: Outside, p: PolicyGate.Policy)
    requires Decides(s.decide, spec, x) && InnerGate(x, p, s.sha)
    ensures ClaudeSdkProperties.GuardedBy(s, p)
  {
    forall log: seq<HookCall>, call: Event | call.ToolCall? && s.decide(log + [SawCall(call)])
      ensures PolicyGate.DecisionAfter(p, s.sha, ClaudeSdkProperties.CallsSeen(log), call).allow
    {
      var more := log + [SawCall(call)];
      OpsSnoc(x, log, SawCall(call));
      OneMoreOp(spec, OpsOf(x, log), CallOp(call.traceId, x.inner(more), x.clock(more)), call.traceId);
    }
  }

  /**
    A run of the message-driven adapter under a budget around a policy gate: whatever the model asks for and
    whatever ran before, a tool executes at most as often as both of its caps allow, and all tools together
    at most as often as the budget does.
   */
  lemma GatedAndBudgetedRun(s: Setup, spec: Spec, x: Outside, p: PolicyGate.Policy, messages: seq<SdkMessage>,
                            log: seq<HookCall>, ts: ToolState, tool: string)
    requires ts.Valid() && Decides(s.decide, spec, x) && InnerGate(x, p, s.sha)
    requires Sequential(spec, OpsOf(x, log)) && 0 <= spec.maxCalls
    ensures var r := WholeRun(s, messages, log, ts);
            && ClaudeSdkProperties.ResultCount(r.events, tool) <= PolicyGate.Cap(p, tool)
            && Executions(r.events) <= spec.maxCalls
  {
    BudgetGuards(s, spec, x, p);
    ClaudeSdkProperties.GovernedRunWithinCap(s, p, messages, log, ts, tool);
    SdkRunKeepsOrder(s, spec, x, messages, log, ts);
    CallCeilingHolds(spec, OpsOf(x, log + WholeRun(s, messages, log, ts).hookCalls), s.tid, s.tid);
  }
}
