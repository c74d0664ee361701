/**
  What the budget hooks answer and book, read off the operations so far.

  Spend is the sum of a trace's charges and calls are its allowed calls; shares of a ceiling are compared
  without dividing.
 */
module BudgetDecisions {
  import opened Text
  import opened Helpers
  import opened Budget
  import opened BudgetProperties

  // ----- What the operations add up to -----

  /** The tokens and the cost charged to a trace. */
  function Spent(ops: seq<Op>, tid: nat): (int, real)
  {
    if ops == [] then (0, 0.0)
    else
      var (tokens, cost), last := Spent(ops[..|ops| - 1], tid), ops[|ops| - 1];
      if last.ResultOp? && last.tid == tid then (tokens + last.charge.tokens, cost + last.charge.cost)
      else (tokens, cost)
  }

  lemma {:induction false} LedgerIsSpent(spec: Spec, ops: seq<Op>, tid: nat)
    ensures var l := After(spec, ops).ledger; (l.TokensOf(tid), l.CostOf(tid)) == Spent(ops, tid)
  {
    if ops != [] {
      LedgerIsSpent(spec, ops[..|ops| - 1], tid);
    }
  }

  /** The clock starts at the first call that the inner policy allows while nothing is breached. */
  ghost predicate StartsAt(spec: Spec, ops: seq<Op>, i: nat)
  {
    && i < |ops| && Starts(spec, ops, i)
    && forall k: nat | k < i :: !Starts(spec, ops, k)
  }

  ghost predicate Starts(spec: Spec, ops: seq<Op>, i: nat)
    requires i < |ops|
  {
    ops[i].CallOp? && ops[i].innerAllows && After(spec, ops[..i]).breaches == []
  }

  ghost predicate ClockIs(spec: Spec, ops: seq<Op>, started: Option<real>)
  {
    match started
    case None => forall k: nat | k < |ops| :: !Starts(spec, ops, k)
    case Some(t) => exists i: nat :: StartsAt(spec, ops, i) && ops[i].now == t
  }

  lemma {:induction false} LedgerIsStarted(spec: Spec, ops: seq<Op>)
    ensures ClockIs(spec, ops, After(spec, ops).ledger.started)
  {
    if ops != [] {
      var before, last := ops[..|ops| - 1], ops[|ops| - 1];
      LedgerIsStarted(spec, before);
      assert forall k: nat | k < |before| :: ops[..k] == before[..k];
      ClockStep(spec, ops, After(spec, before).ledger.started);
      StartedStep(spec, ops);
    }
  }

  lemma StartedStep(spec: Spec, ops: seq<Op>)
    requires ops != []
    ensures After(spec, ops).ledger.started ==
            var started := After(spec, ops[..|ops| - 1]).ledger.started;
            if started == None && Starts(spec, ops, |ops| - 1) then Some(ops[|ops| - 1].now) else started
  {
  }

  lemma {:induction false} ClockStep(spec: Spec, ops: seq<Op>, started: Option<real>)
    requires ops != [] && ClockIs(spec, ops[..|ops| - 1], started)
    requires forall k: nat | k < |ops| - 1 :: Starts(spec, ops, k) <==> Starts(spec, ops[..|ops| - 1], k)
    ensures ClockIs(spec, ops,
                    if started == None && Starts(spec, ops, |ops| - 1) then Some(ops[|ops| - 1].now) else started)
  {
    var before := ops[..|ops| - 1];
    if started.Some? {
      var i: nat :| StartsAt(spec, before, i) && before[i].now == started.value;
      assert StartsAt(spec, ops, i);
    } else if Starts(spec, ops, |before|) {
      assert StartsAt(spec, ops, |before|);
    }
  }

  // ----- Levels -----

  /** The tokens or the cost are at least this share of their ceilings, which count as 1 and 1e-9 at least. */
  predicate Share(spec: Spec, tokens: int, cost: real, share: real)
  {
    tokens as real >= share * Max(1.0, spec.maxTokens as real) || cost >= share * Max(0.000000001, spec.maxCost)
  }

  predicate LevelIs(spec: Spec, spent: (int, real), level: Level)
  {
    level == if Share(spec, spent.0, spent.1, 0.90) then Emergency
             else if Share(spec, spent.0, spent.1, 0.75) then Minimal
             else if Share(spec, spent.0, spent.1, 0.50) then Reduced
             else Full
  }

  lemma LevelMeans(spec: Spec, ops: seq<Op>, tid: nat)
    ensures LevelIs(spec, Spent(ops, tid), LevelOf(spec, After(spec, ops).ledger, tid))
  {
    LedgerIsSpent(spec, ops, tid);
    var (tokens, cost) := Spent(ops, tid);
    ShareMeans(spec, tokens, cost, 0.90);
    ShareMeans(spec, tokens, cost, 0.75);
    ShareMeans(spec, tokens, cost, 0.50);
  }

  lemma ShareMeans(spec: Spec, tokens: int, cost: real, share: real)
    ensures Max(TokenFraction(spec, tokens), CostFraction(spec, cost)) >= share <==> Share(spec, tokens, cost, share)
  {
    QuotientAtLeast(tokens as real, Max(1.0, spec.maxTokens as real), share);
    QuotientAtLeast(cost, Max(0.000000001, spec.maxCost), share);
  }

  // ----- Calls -----

  /** The answer to the last call and what it leaves, by the inner decision, the breaches and the allowed calls. */
  ghost predicate CallAnswered(spec: Spec, ops: seq<Op>, answer: Answer)
    requires ops != [] && ops[|ops| - 1].CallOp?
  {
    var before, last := ops[..|ops| - 1], ops[|ops| - 1];
    var was, now, n := After(spec, before), After(spec, ops), AllowedIn(spec, before, last.tid);
    if !last.innerAllows then answer == InnerDenied && now == was
    else if was.breaches != [] then
      && answer.BreachedEarlier? && answer.first == was.breaches[0]
      && LevelIs(spec, Spent(before, last.tid), answer.levelNow)
      && now == State(was.ledger, was.breaches, was.deniedCalls + 1)
    else if n < spec.maxCalls then
      answer == Allowed && now.breaches == [] && now.deniedCalls == was.deniedCalls
    else
      var breach := Breach(Calls, (n + 1) as real, spec.maxCalls as real, Emergency);
      answer == BreachedNow(breach) && now.breaches == [breach] && now.deniedCalls == was.deniedCalls + 1
  }

  lemma CallIsAnswered(spec: Spec, ops: seq<Op>)
    requires ops != [] && ops[|ops| - 1].CallOp?
    ensures CallAnswered(spec, ops, LastAnswer(spec, ops))
  {
    var before, last := ops[..|ops| - 1], ops[|ops| - 1];
    CounterIsAllowed(spec, before, last.tid);
    LevelMeans(spec, before, last.tid);
  }

  /** A call is allowed exactly when the inner policy allows it, nothing is breached, and calls are left. */
  lemma CallAllowedIff(spec: Spec, ops: seq<Op>)
    requires ops != [] && ops[|ops| - 1].CallOp?
    ensures LastAnswer(spec, ops) == Allowed <==>
            && ops[|ops| - 1].innerAllows
            && After(spec, ops[..|ops| - 1]).breaches == []
            && AllowedIn(spec, ops[..|ops| - 1], ops[|ops| - 1].tid) < spec.maxCalls
  {
    CallIsAnswered(spec, ops);
  }

  // ----- Results -----

  /** The time since the clock started, or the latency where that is more or no clock runs. */
  predicate Observed(started: Option<real>, now: real, latencyMs: real, observed: real)
  {
    if started.None? then observed == latencyMs
    else observed >= latencyMs && observed >= now - started.value
         && (observed == latencyMs || observed == now - started.value)
  }

  /** The breach that the last result makes: of wall time, else of tokens, else of cost. */
  ghost predicate ResultBreaches(spec: Spec, ops: seq<Op>, started: Option<real>, observed: real, b: Breach)
    requires ops != [] && ops[|ops| - 1].ResultOp?
  {
    var last := ops[|ops| - 1];
    var (tokens, cost) := Spent(ops, last.tid);
    && Observed(started, last.now, last.charge.latencyMs, observed)
    && LevelIs(spec, (tokens, cost), b.level)
    && if last.charge.latencyMs > 0.0 && observed > spec.maxWallMs then
         b.metric == WallTime && b.observed == observed && b.ceiling == spec.maxWallMs
       else if tokens > spec.maxTokens then
         b.metric == Tokens && b.observed == tokens as real && b.ceiling == spec.maxTokens as real
       else cost > spec.maxCost && b.metric == Cost && b.observed == cost && b.ceiling == spec.maxCost
  }

  ghost predicate ResultIsClean(spec: Spec, ops: seq<Op>, started: Option<real>, observed: real)
    requires ops != [] && ops[|ops| - 1].ResultOp?
  {
    var last := ops[|ops| - 1];
    && Observed(started, last.now, last.charge.latencyMs, observed)
    && !(last.charge.latencyMs > 0.0 && observed > spec.maxWallMs)
    && Spent(ops, last.tid).0 <= spec.maxTokens && Spent(ops, last.tid).1 <= spec.maxCost
  }

  /** A result adds its charge to its trace and is kept as a breach exactly when a ceiling is then exceeded. */
  lemma ResultIsBooked(spec: Spec, ops: seq<Op>) returns (started: Option<real>, observed: real)
    requires ops != [] && ops[|ops| - 1].ResultOp?
    ensures ClockIs(spec, ops[..|ops| - 1], started)
    ensures var was, now := After(spec, ops[..|ops| - 1]), After(spec, ops);
            && now.deniedCalls == was.deniedCalls
            && if now.breaches == was.breaches then ResultIsClean(spec, ops, started, observed)
               else
                 && |now.breaches| == |was.breaches| + 1 && was.breaches == now.breaches[..|was.breaches|]
                 && ResultBreaches(spec, ops, started, observed, now.breaches[|was.breaches|])
  {
    var before, last := ops[..|ops| - 1], ops[|ops| - 1];
    LedgerIsStarted(spec, before);
    LedgerIsSpent(spec, ops, last.tid);
    LevelMeans(spec, ops, last.tid);
    started := After(spec, before).ledger.started;
    observed := if started.Some? then Max(last.now - started.value, last.charge.latencyMs) else last.charge.latencyMs;
  }
}
