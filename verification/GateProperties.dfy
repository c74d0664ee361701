/** What the policy gate guarantees over whole histories of calls, across any number of traces. */
module GateProperties {
  import opened Text
  import opened CanonicalJson
  import opened Events
  import opened Helpers
  import opened PolicyGate

  ghost function Allowed(p: Policy, sha: string -> nat, h: seq<Event>, key: Key): nat
    requires AllCalls(h)
  {
    if h == [] then 0
    else
      var before, last := h[..|h| - 1], h[|h| - 1];
      Allowed(p, sha, before, key) + if KeyOf(last) == key && DecisionAfter(p, sha, before, last).allow then 1 else 0
  }

  ghost function AllowedInTrace(p: Policy, sha: string -> nat, h: seq<Event>, tid: nat): nat
    requires AllCalls(h)
  {
    if h == [] then 0
    else
      var before, last := h[..|h| - 1], h[|h| - 1];
      AllowedInTrace(p, sha, before, tid) +
      if last.traceId == tid && DecisionAfter(p, sha, before, last).allow then 1 else 0
  }

  // ----- What a decision depends on -----

  ghost function OfKey(h: seq<Event>, key: Key): (r: seq<Event>)
    requires AllCalls(h)
    ensures AllCalls(r)
  {
    if h == [] then []
    else OfKey(h[..|h| - 1], key) + if KeyOf(h[|h| - 1]) == key then [h[|h| - 1]] else []
  }

  lemma {:induction false} CountedOfKey(p: Policy, h: seq<Event>, key: Key)
    requires AllCalls(h)
    ensures Counted(p, OfKey(h, key), key) == Counted(p, h, key)
  {
    if h != [] {
      var before, last := h[..|h| - 1], h[|h| - 1];
      CountedOfKey(p, before, key);
      if KeyOf(last) == key {
        assert OfKey(h, key)[..|OfKey(h, key)| - 1] == OfKey(before, key);
      } else {
        assert OfKey(h, key) == OfKey(before, key);
      }
    }
  }

  /** Calls of other traces and other tools have no influence on a decision. */
  lemma DecisionIgnoresOtherKeys(p: Policy, sha: string -> nat, h: seq<Event>, call: Event)
    requires AllCalls(h) && call.ToolCall?
    ensures DecisionAfter(p, sha, h, call) == DecisionAfter(p, sha, OfKey(h, KeyOf(call)), call)
  {
    CountedOfKey(p, h, KeyOf(call));
  }

  /** One gate reused across traces decides a call of a fresh trace as a fresh gate does. */
  lemma FreshTraceFreshGate(p: Policy, sha: string -> nat, h: seq<Event>, call: Event)
    requires AllCalls(h) && call.ToolCall?
    requires forall i | 0 <= i < |h| :: h[i].traceId != call.traceId
    ensures DecisionAfter(p, sha, h, call) == DecisionAfter(p, sha, [], call)
  {
    CountedNothing(p, h, KeyOf(call));
  }

  lemma {:induction false} CountedNothing(p: Policy, h: seq<Event>, key: Key)
    requires AllCalls(h) && forall i | 0 <= i < |h| :: h[i].traceId != key.0
    ensures Counted(p, h, key) == 0
  {
    if h != [] {
      CountedNothing(p, h[..|h| - 1], key);
    }
  }

  // ----- Caps -----

  lemma AllowedMeans(p: Policy, sha: string -> nat, call: Event, earlier: nat)
    requires call.ToolCall?
    ensures Decide(p, sha, call, earlier).allow ==> Counts(p, call) && earlier < Cap(p, call.tool)
  {
  }

  /** Per trace and tool, no more calls are allowed than the smaller of the two caps. */
  lemma {:induction false} AllowedWithinCap(p: Policy, sha: string -> nat, h: seq<Event>, key: Key)
    requires AllCalls(h)
    ensures Allowed(p, sha, h, key) <= Cap(p, key.1)
    ensures Allowed(p, sha, h, key) <= Counted(p, h, key)
  {
    if h != [] {
      var before, last := h[..|h| - 1], h[|h| - 1];
      AllowedWithinCap(p, sha, before, key);
      AllowedMeans(p, sha, last, Counted(p, before, KeyOf(last)));
    }
  }

  lemma {:induction false} CountedGrows(p: Policy, h: seq<Event>, later: seq<Event>, key: Key)
    requires AllCalls(h) && AllCalls(later)
    ensures AllCalls(h + later) && Counted(p, h, key) <= Counted(p, h + later, key)
  {
    if later == [] {
      assert h + later == h;
    } else {
      CountedGrows(p, h, later[..|later| - 1], key);
      assert (h + later)[..|h + later| - 1] == h + later[..|later| - 1];
    }
  }

  predicate ByCap(d: Decision)
  {
    !d.allow && (d.reason.ToolCapExceeded? || d.reason.TraceCapExceeded?)
  }

  lemma CapIsReachedBy(p: Policy, sha: string -> nat, h: seq<Event>, call: Event)
    requires AllCalls(h) && call.ToolCall? && ByCap(DecisionAfter(p, sha, h, call))
    ensures Counted(p, h + [call], KeyOf(call)) >= Cap(p, call.tool)
  {
    assert (h + [call])[..|h|] == h;
  }

  /** A denial by a cap is final: every later call of the same trace and tool is denied. */
  lemma CapDenialAbsorbs(p: Policy, sha: string -> nat, h: seq<Event>, call: Event, later: seq<Event>, next: Event)
    requires AllCalls(h) && AllCalls(later) && call.ToolCall? && next.ToolCall? && KeyOf(call) == KeyOf(next)
    requires ByCap(DecisionAfter(p, sha, h, call))
    ensures AllCalls(h + [call] + later) && !DecisionAfter(p, sha, h + [call] + later, next).allow
  {
    CapIsReachedBy(p, sha, h, call);
    CountedGrows(p, h + [call], later, KeyOf(call));
    AllowedMeans(p, sha, next, Counted(p, h + [call] + later, KeyOf(call)));
  }

  // ----- Calls per trace -----

  function Distinct(names: seq<string>): (r: seq<string>)
    ensures forall t :: t in r <==> t in names
    ensures forall i, k | 0 <= i < k < |r| :: r[i] != r[k]
  {
    if names == [] then []
    else
      var rest := Distinct(names[..|names| - 1]);
      if names[|names| - 1] in rest then rest else rest + [names[|names| - 1]]
  }

  function SumCaps(p: Policy, tools: seq<string>): nat
  {
    if tools == [] then 0 else SumCaps(p, tools[..|tools| - 1]) + Cap(p, tools[|tools| - 1])
  }

  ghost function SumAllowed(p: Policy, sha: string -> nat, h: seq<Event>, tid: nat, tools: seq<string>): nat
    requires AllCalls(h)
  {
    if tools == [] then 0
    else SumAllowed(p, sha, h, tid, tools[..|tools| - 1]) + Allowed(p, sha, h, (tid, tools[|tools| - 1]))
  }

  lemma {:induction false} SumAllowedStep(p: Policy, sha: string -> nat, h: seq<Event>, tid: nat, tools: seq<string>)
    requires AllCalls(h) && h != []
    requires forall i, k | 0 <= i < k < |tools| :: tools[i] != tools[k]
    ensures var before, last := h[..|h| - 1], h[|h| - 1];
            SumAllowed(p, sha, h, tid, tools) ==
            SumAllowed(p, sha, before, tid, tools) +
            if last.traceId == tid && last.tool in tools && DecisionAfter(p, sha, before, last).allow then 1 else 0
  {
    if tools != [] {
      SumAllowedStep(p, sha, h, tid, tools[..|tools| - 1]);
    }
  }

  lemma {:induction false} SumAllowedNothing(p: Policy, sha: string -> nat, tid: nat, tools: seq<string>)
    ensures SumAllowed(p, sha, [], tid, tools) == 0
  {
    if tools != [] {
      SumAllowedNothing(p, sha, tid, tools[..|tools| - 1]);
    }
  }

  /** What a `ToolCall` object can be: a valid event whose arguments are a dictionary. */
  ghost predicate Possible(call: Event)
  {
    call.ToolCall? && WellFormed(call) && call.args.Obj? && IsDict(call.args)
  }

  ghost predicate AllPossible(h: seq<Event>)
  {
    forall i | 0 <= i < |h| :: Possible(h[i])
  }

  /** The tools of which some possible call gets past the schema and the scan. */
  ghost predicate Usable(p: Policy, tool: string)
  {
    tool in p.allowedTools && exists args :: Passes(p, tool, args)
  }

  ghost predicate Passes(p: Policy, tool: string, args: Json)
  {
    && Possible(ToolCall(0, 0, 0, tool, args, Unset))
    && SchemaOk(p, tool, args)
    && match Scan(p.egressRules, args)
       case None => true
       case Some(rule) => rule.severity != Deny
  }

  ghost function UsableTools(p: Policy, tools: seq<string>): (r: seq<string>)
    ensures forall t :: t in r <==> t in tools && Usable(p, t)
    ensures (forall i, k | 0 <= i < k < |tools| :: tools[i] != tools[k]) ==>
            forall i, k | 0 <= i < k < |r| :: r[i] != r[k]
  {
    if tools == [] then []
    else UsableTools(p, tools[..|tools| - 1]) + if Usable(p, tools[|tools| - 1]) then [tools[|tools| - 1]] else []
  }

  ghost function CallableTools(p: Policy): (r: seq<string>)
    ensures forall t :: t in r <==> Usable(p, t)
    ensures forall i, k | 0 <= i < k < |r| :: r[i] != r[k]
  {
    UsableTools(p, Distinct(p.allowedTools))
  }

  /** The allowed calls of a trace are the allowed calls of its usable tools. */
  lemma {:induction false} AllowedInTraceIsSum(p: Policy, sha: string -> nat, h: seq<Event>, tid: nat)
    requires AllPossible(h)
    ensures AllowedInTrace(p, sha, h, tid) == SumAllowed(p, sha, h, tid, CallableTools(p))
  {
    var tools := CallableTools(p);
    if h == [] {
      SumAllowedNothing(p, sha, tid, tools);
    } else {
      var before, last := h[..|h| - 1], h[|h| - 1];
      AllowedInTraceIsSum(p, sha, before, tid);
      SumAllowedStep(p, sha, h, tid, tools);
      if DecisionAfter(p, sha, before, last).allow {
        AllowedIsUsable(p, sha, before, last);
      }
    }
  }

  lemma AllowedIsUsable(p: Policy, sha: string -> nat, h: seq<Event>, call: Event)
    requires AllCalls(h) && Possible(call) && DecisionAfter(p, sha, h, call).allow
    ensures Usable(p, call.tool)
  {
    assert Possible(ToolCall(0, 0, 0, call.tool, call.args, Unset));
    assert Passes(p, call.tool, call.args);
  }

  lemma {:induction false} SumWithinCaps(p: Policy, sha: string -> nat, h: seq<Event>, tid: nat, tools: seq<string>)
    requires AllCalls(h)
    ensures SumAllowed(p, sha, h, tid, tools) <= SumCaps(p, tools)
  {
    if tools != [] {
      SumWithinCaps(p, sha, h, tid, tools[..|tools| - 1]);
      AllowedWithinCap(p, sha, h, (tid, tools[|tools| - 1]));
    }
  }

  /** Per trace, no more calls are allowed than the caps of the usable tools add up to. */
  lemma TraceWithinSumOfCaps(p: Policy, sha: string -> nat, h: seq<Event>, tid: nat)
    requires AllPossible(h)
    ensures AllowedInTrace(p, sha, h, tid) <= SumCaps(p, CallableTools(p))
  {
    AllowedInTraceIsSum(p, sha, h, tid);
    SumWithinCaps(p, sha, h, tid, CallableTools(p));
  }

  // ----- The bound is reached -----

  ghost function Witness(p: Policy, tid: nat, tool: string): (call: Event)
    requires Usable(p, tool)
    ensures Possible(call) && KeyOf(call) == (tid, tool) && Counts(p, call) && Passes(p, tool, call.args)
  {
    var args :| Passes(p, tool, args);
    ToolCall(tid, 0, 0, tool, args, Unset)
  }

  /** `n` acceptable calls of a tool on top of a history that has not counted it yet. */
  lemma {:induction false} CapIsReached(p: Policy, sha: string -> nat, h: seq<Event>, call: Event, n: nat)
    returns (g: seq<Event>)
    requires AllPossible(h) && Possible(call) && Counts(p, call) && Passes(p, call.tool, call.args)
    requires Counted(p, h, KeyOf(call)) == 0 && n <= Cap(p, call.tool)
    ensures AllPossible(g) && AllowedInTrace(p, sha, g, call.traceId) == AllowedInTrace(p, sha, h, call.traceId) + n
    ensures Counted(p, g, KeyOf(call)) == n
    ensures forall key: Key | key != KeyOf(call) :: Counted(p, g, key) == Counted(p, h, key)
  {
    if n == 0 {
      g := h;
    } else {
      var f := CapIsReached(p, sha, h, call, n - 1);
      g := f + [call];
      assert g[..|g| - 1] == f;
      assert DecisionAfter(p, sha, f, call).allow;
    }
  }

  lemma {:induction false} CapsAreReached(p: Policy, sha: string -> nat, tid: nat, tools: seq<string>)
    returns (h: seq<Event>)
    requires forall i | 0 <= i < |tools| :: Usable(p, tools[i])
    requires forall i, k | 0 <= i < k < |tools| :: tools[i] != tools[k]
    ensures AllPossible(h) && AllowedInTrace(p, sha, h, tid) == SumCaps(p, tools)
    ensures forall key: Key | key.1 !in tools :: Counted(p, h, key) == 0
  {
    if tools == [] {
      h := [];
    } else {
      var before, last := tools[..|tools| - 1], tools[|tools| - 1];
      var f := CapsAreReached(p, sha, tid, before);
      h := OneMoreTool(p, sha, tid, before, last, f);
      SplitLast(tools);
    }
  }

  lemma OneMoreTool(p: Policy, sha: string -> nat, tid: nat, before: seq<string>, last: string, f: seq<Event>)
    returns (h: seq<Event>)
    requires Usable(p, last) && last !in before && AllPossible(f)
    requires forall key: Key | key.1 !in before :: Counted(p, f, key) == 0
    ensures AllPossible(h) && AllowedInTrace(p, sha, h, tid) == AllowedInTrace(p, sha, f, tid) + Cap(p, last)
    ensures forall key: Key | key.1 !in before + [last] :: Counted(p, h, key) == 0
  {
    h := CapIsReached(p, sha, f, Witness(p, tid, last), Cap(p, last));
  }

  ghost predicate BoundsEveryTrace(p: Policy, sha: string -> nat)
  {
    forall h: seq<Event>, tid | AllPossible(h) :: AllowedInTrace(p, sha, h, tid) <= p.maxCallsPerTrace
  }

  /**
    `max_calls_per_trace` is documented as a bound on the tool calls of a trace, but it is compared
    with a counter per trace and tool.  It bounds every trace exactly when the caps of the usable
    tools add up to no more than it.
   */
  lemma TraceCapBoundsTraceIff(p: Policy, sha: string -> nat)
    ensures BoundsEveryTrace(p, sha) <==> SumCaps(p, CallableTools(p)) <= p.maxCallsPerTrace
  {
    if SumCaps(p, CallableTools(p)) <= p.maxCallsPerTrace {
      forall h: seq<Event>, tid | AllPossible(h)
        ensures AllowedInTrace(p, sha, h, tid) <= p.maxCallsPerTrace
      {
        TraceWithinSumOfCaps(p, sha, h, tid);
      }
    } else {
      var h := CapsAreReached(p, sha, 0, CallableTools(p));
      assert AllowedInTrace(p, sha, h, 0) > p.maxCallsPerTrace;
    }
  }

  lemma PlainCallIsPossible(tid: nat, n: nat, callId: nat, tool: string)
    requires NameOk(tool) && Tight(tool)
    ensures Possible(ToolCall(tid, n, callId, tool, Obj([]), Unset))
  {
    StripSpec(tool);
  }

  /** Two allowed tools without rules are enough: a cap of one lets two calls of a trace through. */
  lemma TraceCapCounterexample(sha: string -> nat)
    ensures var p := Policy(["search", "fetch"], [], [], 1);
            var h := [ToolCall(7, 1, 1, "search", Obj([]), Unset), ToolCall(7, 3, 2, "fetch", Obj([]), Unset)];
            AllPossible(h) && AllowedInTrace(p, sha, h, 7) == 2 && !BoundsEveryTrace(p, sha)
  {
    var p := Policy(["search", "fetch"], [], [], 1);
    var a, b := ToolCall(7, 1, 1, "search", Obj([]), Unset), ToolCall(7, 3, 2, "fetch", Obj([]), Unset);
    assert [a, b][..1] == [a] && [a][..0] == [];
    PlainCallIsPossible(7, 1, 1, "search");
    PlainCallIsPossible(7, 3, 2, "fetch");
    assert KeyOf(a) != KeyOf(b);
    assert Counted(p, [a], KeyOf(b)) == Counted(p, [], KeyOf(b)) == 0;
    assert DecisionAfter(p, sha, [], a).allow && DecisionAfter(p, sha, [a], b).allow;
    assert AllowedInTrace(p, sha, [a], 7) == 1;
  }

  /** The audit log has one entry per call, in order, and records every decision. */
  lemma {:induction false} AuditIsFaithful(p: Policy, sha: string -> nat, h: seq<Event>, i: nat)
    requires AllCalls(h) && i < |h|
    ensures AllCalls(h[..i]) && AuditTrail(p, sha, h)[i] == AuditOf(h[i], DecisionAfter(p, sha, h[..i], h[i]))
  {
    if i < |h| - 1 {
      AuditIsFaithful(p, sha, h[..|h| - 1], i);
      assert h[..|h| - 1][..i] == h[..i];
    }
  }
}
