/** The grammar of a message-driven run, its agreement with the reference loop, and runs under a policy. */
module ClaudeSdkProperties {
  import opened Text
  import opened Helpers
  import opened CanonicalJson
  import opened Events
  import opened StubRegistry
  import opened Runtime
  import opened Recording
  import opened ClaudeSdk
  import RawLoop
  import StructuralReplay
  import PolicyGate
  import GateProperties

  // ----- The grammar of the event stream -----

  predicate PairAt(es: seq<Event>, i: nat)
    requires i + 1 < |es|
  {
    && es[i].ToolCall? && es[i + 1].ToolResult?
    && es[i + 1].callId == es[i].callId && es[i + 1].tool == es[i].tool
  }

  ghost predicate InPairs(es: seq<Event>)
  {
    forall i | 0 <= i < |es| - 1 && i % 2 == 0 :: PairAt(es, i)
  }

  /** Valid events of this trace, numbered from `n`. */
  ghost predicate Numbered(s: Setup, es: seq<Event>, n: nat)
  {
    forall i | 0 <= i < |es| :: es[i].seqNo == n + i && es[i].traceId == s.tid && WellFormed(es[i])
  }

  lemma TwoMoreNumbered(s: Setup, a: Event, b: Event, es: seq<Event>, n: nat)
    requires Numbered(s, es, n + 2) && WellFormed(a) && WellFormed(b)
    requires a.seqNo == n && b.seqNo == n + 1 && a.traceId == b.traceId == s.tid
    ensures Numbered(s, [a, b] + es, n)
  {
  }

  lemma OneMorePair(call: Event, result: Event, es: seq<Event>)
    requires InPairs(es)
    requires call.ToolCall? && result.ToolResult? && result.callId == call.callId && result.tool == call.tool
    ensures InPairs([call, result] + es)
  {
    var all := [call, result] + es;
    forall i | 0 <= i < |all| - 1 && i % 2 == 0
      ensures PairAt(all, i)
    {
      if i >= 2 {
        assert (i - 2) % 2 == 0 && PairAt(es, i - 2);
      }
    }
  }

  /** What follows the user message: pairs, closed by the answer or by a denied call. */
  ghost predicate TailShape(s: Setup, es: seq<Event>, n: nat, exit: Exit)
  {
    && (|es| % 2 == 0 <==> exit == Invalid)
    && Numbered(s, es, n)
    && InPairs(es)
    && (es != [] ==> EndsAs(s, es[|es| - 1], n + |es| - 1, exit))
  }

  /** The last event: a denied call, or the answer, which is not empty. */
  predicate EndsAs(s: Setup, last: Event, n: nat, exit: Exit)
  {
    && (exit == Denied ==> last.ToolCall?)
    && (exit.Answered? ==> exit.text != "" && last == FinalMessage(s.tid, n, exit.text, s.model))
  }

  /** Number of calls in a tail of this shape. */
  function CallCount(es: seq<Event>, exit: Exit): nat
  {
    if exit == Denied then |es| / 2 + 1 else |es| / 2
  }

  lemma {:induction false} RestShape(s: Setup, messages: seq<SdkMessage>, seen: nat, n: nat, log: seq<HookCall>,
                                     ts: ToolState, done: seq<Event>)
    requires ts.Valid() && NameOk(Strip(s.model))
    ensures var r := Rest(s, messages, seen, n, log, ts, done); TailShape(s, r.events, n, r.exit)
    decreases |messages|
  {
    if messages == [] || seen + 1 > s.maxMessages {
      FinishedShape(s, done, n, Echo(s.task));
    } else if messages[0].TextMessage? {
      FinishedShape(s, done, n, FinalTextOf(s, messages[0].text));
    } else if Skipped(s, messages[0]) {
      RestShape(s, messages[1..], seen + 1, n, log, ts, done);
    } else {
      var call := ProposedCall(s, messages[0], n);
      StoppedShape(s, done, messages[0], n);
      if Acceptable(call) && s.decide(log + [SawCall(call)]) {
        var result := ItsResult(s, messages[0], n, ts);
        RestShape(s, messages[1..], seen + 1, n + 2, log + HookPair(call, result),
                  AfterCall(ts, Invocation(messages[0].name.value, messages[0].input)), done + [call, result]);
        ExecutedShape(s, messages[0], n, ts, AfterPair(s, messages, seen, n, log, ts, done));
      }
    }
  }

  lemma ExecutedShape(s: Setup, message: SdkMessage, n: nat, ts: ToolState, next: Run)
    requires ts.Valid() && !message.TextMessage? && !Skipped(s, message)
    requires Acceptable(ProposedCall(s, message, n)) && TailShape(s, next.events, n + 2, next.exit)
    ensures var call, result := ProposedCall(s, message, n), ItsResult(s, message, n, ts);
            TailShape(s, WithPair(call, result, next).events, n, next.exit)
  {
    CallIsWellFormed(s, message, n);
    ResultIsWellFormed(s.tid, n + 1, s.callIds(n), message.name.value,
        ts.Next(Invocation(message.name.value, message.input)));
    PairPrepended(s, ProposedCall(s, message, n), ItsResult(s, message, n, ts), next, n);
  }

  /** The rest of the run after an executed call. */
  ghost function AfterPair(s: Setup, messages: seq<SdkMessage>, seen: nat, n: nat, log: seq<HookCall>, ts: ToolState,
                           done: seq<Event>): Run
    requires ts.Valid() && messages != [] && !messages[0].TextMessage? && !Skipped(s, messages[0])
  {
    var call, result := ProposedCall(s, messages[0], n), ItsResult(s, messages[0], n, ts);
    Rest(s, messages[1..], seen + 1, n + 2, log + HookPair(call, result),
         AfterCall(ts, Invocation(messages[0].name.value, messages[0].input)), done + [call, result])
  }

  lemma CallIsWellFormed(s: Setup, message: SdkMessage, n: nat)
    requires !message.TextMessage? && !Skipped(s, message)
    ensures Acceptable(ProposedCall(s, message, n)) ==>
              WellFormed(ProposedCall(s, message, n)) && NameOk(Strip(message.name.value))
  {
    ValidateIsIdempotent(ToolCall(s.tid, n, s.callIds(n), message.name.value, message.input,
        ArgsDigest(s.sha, message.input)));
  }

  lemma StoppedShape(s: Setup, done: seq<Event>, message: SdkMessage, n: nat)
    requires !message.TextMessage? && !Skipped(s, message)
    ensures TailShape(s, [], n, Invalid)
    ensures var call := ProposedCall(s, message, n);
            Acceptable(call) ==> TailShape(s, Stopped(s, done, call).events, n, Denied)
  {
    CallIsWellFormed(s, message, n);
  }

  lemma FinishedShape(s: Setup, done: seq<Event>, n: nat, text: string)
    requires NameOk(Strip(s.model)) && text != ""
    ensures TailShape(s, Finished(s, done, n, text).events, n, Answered(text))
  {
    MessagesAreWellFormed(s.tid, n, Assistant, text, s.model);
  }

  lemma PairPrepended(s: Setup, call: Event, result: Event, r: Run, n: nat)
    requires TailShape(s, r.events, n + 2, r.exit)
    requires WellFormed(call) && call.ToolCall? && call.seqNo == n && call.traceId == s.tid
    requires WellFormed(result) && result.ToolResult? && result.seqNo == n + 1 && result.traceId == s.tid
    requires result.callId == call.callId && result.tool == call.tool
    ensures TailShape(s, WithPair(call, result, r).events, n, r.exit)
  {
    TwoMoreNumbered(s, call, result, r.events, n);
    OneMorePair(call, result, r.events);
    LastStays(call, result, r.events);
  }

  lemma LastStays<T>(a: T, b: T, s: seq<T>)
    ensures |[a, b] + s| == |s| + 2 && (|s| + 2) % 2 == |s| % 2
    ensures s != [] ==> ([a, b] + s)[|s| + 1] == s[|s| - 1]
  {
  }

  /** At most one call per message, and none past the cap. */
  lemma {:induction false} RestCallCount(s: Setup, messages: seq<SdkMessage>, seen: nat, n: nat, log: seq<HookCall>,
                                         ts: ToolState, done: seq<Event>)
    requires ts.Valid()
    ensures var r := Rest(s, messages, seen, n, log, ts, done);
            && CallCount(r.events, r.exit) <= |messages|
            && (CallCount(r.events, r.exit) == 0 || seen + CallCount(r.events, r.exit) <= s.maxMessages)
    decreases |messages|
  {
    if messages != [] && seen + 1 <= s.maxMessages && !messages[0].TextMessage? {
      if Skipped(s, messages[0]) {
        RestCallCount(s, messages[1..], seen + 1, n, log, ts, done);
      } else {
        var call := ProposedCall(s, messages[0], n);
        if Acceptable(call) && s.decide(log + [SawCall(call)]) {
          RestCallCount(s, messages[1..], seen + 1, n + 2, log + HookPair(call, ItsResult(s, messages[0], n, ts)),
                        AfterCall(ts, Invocation(messages[0].name.value, messages[0].input)),
                        done + [call, ItsResult(s, messages[0], n, ts)]);
        }
      }
    }
  }

  /**
    Every run adds a user message, then pairs of a call and its own result, closed by the assistant's
    answer or by a denied call, numbered 0, 1, 2, ... in its trace; the answer is empty only when denied.
   */
  lemma RunGrammar(s: Setup, messages: seq<SdkMessage>, log: seq<HookCall>, ts: ToolState)
    requires ts.Valid() && NameOk(Strip(s.model))
    ensures var r := WholeRun(s, messages, log, ts);
            && r.events[0] == UserMessage(s.tid, s.task, s.model)
            && TailShape(s, r.events[1..], 1, r.exit)
            && (forall i | 0 <= i < |r.events| :: r.events[i].seqNo == i && r.events[i].traceId == s.tid)
            && CallCount(r.events[1..], r.exit) <= |messages|
            && (CallCount(r.events[1..], r.exit) == 0 || CallCount(r.events[1..], r.exit) <= s.maxMessages)
  {
    var r := WholeRun(s, messages, log, ts);
    var user := UserMessage(s.tid, s.task, s.model);
    RestShape(s, messages, 0, 1, log, ts, [user]);
    RestCallCount(s, messages, 0, 1, log, ts, [user]);
    assert r.events[1..] == Rest(s, messages, 0, 1, log, ts, [user]).events;
  }

  // ----- Hooks -----

  /** How many events of a tail the hooks are told of: all but the final message. */
  function Told(es: seq<Event>, exit: Exit): int
  {
    if exit.Answered? then |es| - 1 else |es|
  }

  /** The hook calls of a tail: each call, each result, and the final answer exactly once, at the end. */
  ghost predicate HookShape(es: seq<Event>, hs: seq<HookCall>, exit: Exit)
  {
    var k := Told(es, exit);
    && k >= 0
    && |hs| == (if exit == Invalid then k else k + 1)
    && (forall i | 0 <= i < k && i % 2 == 0 :: hs[i] == SawCall(es[i]))
    && (forall i | 0 <= i < k && i % 2 == 1 :: hs[i] == SawResult(es[i - 1], es[i]))
    && (exit != Invalid ==>
          hs[k].SawFinal? && hs[k].trace.finalAnswer == if exit.Answered? then Strip(exit.text) else "")
  }

  /** Every call but a denied one was allowed when it was shown, on top of what was shown before. */
  ghost predicate HooksDecided(s: Setup, log: seq<HookCall>, hs: seq<HookCall>, k: int, exit: Exit)
  {
    && 0 <= k <= |hs|
    && (forall i | 0 <= i < k - 1 && i % 2 == 0 :: s.decide(log + hs[..i + 1]))
    && (exit == Denied ==> k > 0 && !s.decide(log + hs[..k]))
  }

  lemma {:induction false} RestHooks(s: Setup, messages: seq<SdkMessage>, seen: nat, n: nat, log: seq<HookCall>,
                                     ts: ToolState, done: seq<Event>)
    requires ts.Valid() && NameOk(Strip(s.model))
    ensures var r := Rest(s, messages, seen, n, log, ts, done);
            && HookShape(r.events, r.hookCalls, r.exit)
            && HooksDecided(s, log, r.hookCalls, Told(r.events, r.exit), r.exit)
    decreases |messages|
  {
    if messages != [] && seen + 1 <= s.maxMessages && !messages[0].TextMessage? {
      if Skipped(s, messages[0]) {
        RestHooks(s, messages[1..], seen + 1, n, log, ts, done);
      } else {
        var call := ProposedCall(s, messages[0], n);
        if Acceptable(call) {
          if s.decide(log + [SawCall(call)]) {
            var result := ItsResult(s, messages[0], n, ts);
            RestHooks(s, messages[1..], seen + 1, n + 2, log + HookPair(call, result),
                      AfterCall(ts, Invocation(messages[0].name.value, messages[0].input)), done + [call, result]);
            HooksPrepended(call, result, AfterPair(s, messages, seen, n, log, ts, done));
            DecisionsPrepended(s, log, call, result, AfterPair(s, messages, seen, n, log, ts, done));
          } else {
            assert Stopped(s, done, call).hookCalls[..1] == [SawCall(call)];
          }
        }
      }
    }
  }

  lemma HooksPrepended(call: Event, result: Event, r: Run)
    requires HookShape(r.events, r.hookCalls, r.exit)
    ensures HookShape(WithPair(call, result, r).events, WithPair(call, result, r).hookCalls, r.exit)
  {
    var es, hs := WithPair(call, result, r).events, WithPair(call, result, r).hookCalls;
    assert forall i | 2 <= i < |es| :: es[i] == r.events[i - 2];
    assert forall i | 2 <= i < |hs| :: hs[i] == r.hookCalls[i - 2];
    assert Told(es, r.exit) == Told(r.events, r.exit) + 2;
  }

  lemma DecisionsPrepended(s: Setup, log: seq<HookCall>, call: Event, result: Event, r: Run)
    requires s.decide(log + [SawCall(call)])
    requires HooksDecided(s, log + HookPair(call, result), r.hookCalls, Told(r.events, r.exit), r.exit)
    ensures var whole := WithPair(call, result, r);
            HooksDecided(s, log, whole.hookCalls, Told(whole.events, r.exit), r.exit)
  {
    var pair := HookPair(call, result);
    var hs, k := pair + r.hookCalls, Told(r.events, r.exit);
    forall i | 0 <= i < k + 1 && i % 2 == 0
      ensures s.decide(log + hs[..i + 1])
    {
      PrefixShift(log, pair, r.hookCalls, i + 1);
      assert i >= 2 ==> (i - 2) % 2 == 0 && s.decide(log + pair + r.hookCalls[..i - 2 + 1]);
    }
    PrefixShift(log, pair, r.hookCalls, k + 2);
  }

  lemma PrefixShift(log: seq<HookCall>, pair: seq<HookCall>, rest: seq<HookCall>, i: nat)
    requires |pair| == 2 && i <= 2 + |rest|
    ensures i >= 2 ==> log + (pair + rest)[..i] == log + pair + rest[..i - 2]
    ensures i == 1 ==> (pair + rest)[..i] == [pair[0]]
  {
    if i >= 2 {
      assert (pair + rest)[..i] == pair + rest[..i - 2];
    }
  }

  /** No tool runs unless its call was shown to the hook and allowed; a denial is the last call shown. */
  lemma RunHooks(s: Setup, messages: seq<SdkMessage>, log: seq<HookCall>, ts: ToolState)
    requires ts.Valid() && NameOk(Strip(s.model))
    ensures var r := WholeRun(s, messages, log, ts);
            && HookShape(r.events[1..], r.hookCalls, r.exit)
            && HooksDecided(s, log, r.hookCalls, Told(r.events[1..], r.exit), r.exit)
  {
    var user := UserMessage(s.tid, s.task, s.model);
    RestHooks(s, messages, 0, 1, log, ts, [user]);
    assert WholeRun(s, messages, log, ts).events[1..] == Rest(s, messages, 0, 1, log, ts, [user]).events;
  }

  // ----- Parity with the reference loop -----

  /** The same kind of event with the same tool, arguments, hash and outcome; models may differ. */
  predicate Alike(e: Event, f: Event)
  {
    match (e, f)
    case (ModelMessage(t, n, role, _, _), ModelMessage(t', n', role', _, _)) => t == t' && n == n' && role == role'
    case (ToolCall(_, _, _, _, _, _), ToolCall(_, _, _, _, _, _)) => e == f
    case (ToolResult(_, _, _, _, _, _, _), ToolResult(_, _, _, _, _, _, _)) => e == f
    case _ => false
  }

  predicate SameExit(a: Exit, b: Exit)
  {
    a.Answered? == b.Answered? && a.Denied? == b.Denied?
  }

  ghost function TwoMessageRun(s: Setup, text: string, log: seq<HookCall>, ts: ToolState): Run
    requires ts.Valid() && s.tools != []
  {
    WholeRun(s, [ToolUse(Some(s.tools[0]), RawLoop.TextArgs(s.task)), TextMessage(text)], log, ts)
  }

  lemma TwoMessageRunIs(s: Setup, text: string, log: seq<HookCall>, ts: ToolState)
    requires ts.Valid() && s.tools != [] && s.maxMessages >= 1
    ensures var args := RawLoop.TextArgs(s.task);
            var user, call := UserMessage(s.tid, s.task, s.model), CallAt(s, 1, s.tools[0], args);
            var result := ResultEvent(s.tid, 2, s.callIds(1), s.tools[0], ts.Next(Invocation(s.tools[0], args)));
            var last := if s.maxMessages == 1 then Echo(s.task) else FinalTextOf(s, text);
            var r := TwoMessageRun(s, text, log, ts);
            if !Acceptable(call) then r.events == [user] && r.exit == Invalid
            else if !s.decide(log + [SawCall(call)]) then r.events == [user, call] && r.exit == Denied
            else r.events == [user, call, result, FinalMessage(s.tid, 3, last, s.model)] && r.exit == Answered(last)
  {
    var user := UserMessage(s.tid, s.task, s.model);
    TwoMessageRest(s, text, log, ts, [user]);
    var call, result := CallAt(s, 1, s.tools[0], RawLoop.TextArgs(s.task)), ItsFirstResult(s, ts);
    var last := if s.maxMessages == 1 then Echo(s.task) else FinalTextOf(s, text);
    Prepended(user, call, result, FinalMessage(s.tid, 3, last, s.model));
  }

  ghost function ItsFirstResult(s: Setup, ts: ToolState): Event
    requires ts.Valid() && s.tools != []
  {
    ResultEvent(s.tid, 2, s.callIds(1), s.tools[0], ts.Next(Invocation(s.tools[0], RawLoop.TextArgs(s.task))))
  }

  lemma Prepended<T>(a: T, b: T, c: T, d: T)
    ensures [a] + [] == [a] && [a] + [b] == [a, b] && [a] + [b, c, d] == [a, b, c, d]
  {
  }

  lemma TwoMessageRest(s: Setup, text: string, log: seq<HookCall>, ts: ToolState, done: seq<Event>)
    requires ts.Valid() && s.tools != [] && s.maxMessages >= 1
    ensures var args := RawLoop.TextArgs(s.task);
            var call := CallAt(s, 1, s.tools[0], args);
            var result := ResultEvent(s.tid, 2, s.callIds(1), s.tools[0], ts.Next(Invocation(s.tools[0], args)));
            var last := if s.maxMessages == 1 then Echo(s.task) else FinalTextOf(s, text);
            var r := Rest(s, [ToolUse(Some(s.tools[0]), args), TextMessage(text)], 0, 1, log, ts, done);
            if !Acceptable(call) then r.events == [] && r.exit == Invalid
            else if !s.decide(log + [SawCall(call)]) then r.events == [call] && r.exit == Denied
            else r.events == [call, result, FinalMessage(s.tid, 3, last, s.model)] && r.exit == Answered(last)
  {
    var message := ToolUse(Some(s.tools[0]), RawLoop.TextArgs(s.task));
    assert [message, TextMessage(text)][1..] == [TextMessage(text)];
    var call, result := ProposedCall(s, message, 1), ItsResult(s, message, 1, ts);
    TextEnds(s, text, log + HookPair(call, result), AfterCall(ts, Invocation(s.tools[0], RawLoop.TextArgs(s.task))),
             done + [call, result]);
  }

  lemma TextEnds(s: Setup, text: string, log: seq<HookCall>, ts: ToolState, done: seq<Event>)
    requires ts.Valid()
    ensures var last := if s.maxMessages <= 1 then Echo(s.task) else FinalTextOf(s, text);
            var r := Rest(s, [TextMessage(text)], 1, 3, log, ts, done);
            r.events == [FinalMessage(s.tid, 3, last, s.model)] && r.exit == Answered(last)
  {
  }

  /**
    On a stream that uses the first tool on the task and then says `text`, the run has the same events
    as the reference loop's, whatever the hook decides and the tool does, and with the loop's own text
    it gives the same answer.
   */
  lemma ParityWithReferenceLoop(s: Setup, render: Json -> string, text: string, log: seq<HookCall>, ts: ToolState)
    requires ts.Valid() && s.tools != [] && s.maxMessages >= 1
    ensures var r, reference := TwoMessageRun(s, text, log, ts), ReferenceRun(s, render, log, ts);
            && |r.events| == |reference.events|
            && (forall i | 0 <= i < |r.events| :: Alike(r.events[i], reference.events[i]))
            && SameExit(r.exit, reference.exit)
            && (s.maxMessages >= 2 && text == RawLoop.FinalText(render, s.task, ToolOutcome(s, ts)) ==>
                r.exit == reference.exit)
  {
    TwoMessageRunIs(s, text, log, ts);
    ReferenceRunIs(s, render, log, ts);
    EchoIsTight(s.task);
    var user, user' := UserMessage(s.tid, s.task, s.model), UserMessage(s.tid, s.task, RawLoop.MODEL_ID);
    var r, reference := TwoMessageRun(s, text, log, ts).events, ReferenceRun(s, render, log, ts).events;
    if |r| == 4 {
      AlikeAnswered(user, user', r[1], r[2], r[3], reference[3]);
    } else if |r| == 2 {
      AlikeDenied(user, user', r[1]);
    }
  }

  lemma AlikeAnswered(u: Event, u': Event, call: Event, result: Event, f: Event, f': Event)
    requires Alike(u, u') && Alike(f, f') && call.ToolCall? && result.ToolResult?
    ensures forall i | 0 <= i < 4 :: Alike([u, call, result, f][i], [u', call, result, f'][i])
  {
  }

  lemma AlikeDenied(u: Event, u': Event, call: Event)
    requires Alike(u, u') && call.ToolCall?
    ensures forall i | 0 <= i < 2 :: Alike([u, call][i], [u', call][i])
  {
  }

  ghost function ToolOutcome(s: Setup, ts: ToolState): Outcome
    requires ts.Valid() && s.tools != []
  {
    ts.Next(Invocation(s.tools[0], RawLoop.TextArgs(s.task)))
  }

  /** The reference loop with the same hook and the same tool. */
  ghost function ReferenceRun(s: Setup, render: Json -> string, log: seq<HookCall>, ts: ToolState): Run
    requires ts.Valid() && s.tools != []
  {
    var setup := RawLoop.Setup(s.taskId, s.task, s.tools, s.tid, s.callIds(1), s.prior);
    RawLoop.RawLoopRun(s.sha, render, setup, s.decide(log + [SawCall(RawLoop.FirstCall(s.sha, setup))]),
        ToolOutcome(s, ts))
  }

  lemma ReferenceRunIs(s: Setup, render: Json -> string, log: seq<HookCall>, ts: ToolState)
    requires ts.Valid() && s.tools != []
    ensures var user := UserMessage(s.tid, s.task, RawLoop.MODEL_ID);
            var call := CallAt(s, 1, s.tools[0], RawLoop.TextArgs(s.task));
            var result := ResultEvent(s.tid, 2, s.callIds(1), s.tools[0], ToolOutcome(s, ts));
            var text := RawLoop.FinalText(render, s.task, ToolOutcome(s, ts));
            var r := ReferenceRun(s, render, log, ts);
            if !Acceptable(call) then r.events == [user] && r.exit == Invalid
            else if !s.decide(log + [SawCall(call)]) then r.events == [user, call] && r.exit == Denied
            else
              && r.events == [user, call, result, FinalMessage(s.tid, 3, text, RawLoop.MODEL_ID)]
              && r.exit == Answered(text)
  {
  }

  // ----- Hashes -----

  /** The arguments, as the stream gave them, of the calls that the rest of a run records. */
  ghost function Inputs(s: Setup, messages: seq<SdkMessage>, seen: nat, n: nat, log: seq<HookCall>,
                        ts: ToolState): seq<Json>
    requires ts.Valid()
    decreases |messages|
  {
    if messages == [] || seen + 1 > s.maxMessages || messages[0].TextMessage? then []
    else if Skipped(s, messages[0]) then Inputs(s, messages[1..], seen + 1, n, log, ts)
    else
      var call := ProposedCall(s, messages[0], n);
      if !Acceptable(call) then []
      else if !s.decide(log + [SawCall(call)]) then [messages[0].input]
      else
        [messages[0].input] +
        Inputs(s, messages[1..], seen + 1, n + 2, log + HookPair(call, ItsResult(s, messages[0], n, ts)),
               AfterCall(ts, Invocation(messages[0].name.value, messages[0].input)))
  }

  /** The calls of a log hold these arguments, trimmed by validation, with the hash taken before. */
  ghost predicate HashedFrom(sha: string -> nat, es: seq<Event>, inputs: seq<Json>)
  {
    if es == [] then inputs == []
    else if es[0].ToolCall? then
      && inputs != []
      && es[0].args == CleanArgs(inputs[0]) && es[0].argsHash == ArgsDigest(sha, inputs[0])
      && HashedFrom(sha, es[1..], inputs[1..])
    else HashedFrom(sha, es[1..], inputs)
  }

  lemma HashedPair(sha: string -> nat, call: Event, result: Event, es: seq<Event>, input: Json, inputs: seq<Json>)
    requires call.ToolCall? && call.args == CleanArgs(input) && call.argsHash == ArgsDigest(sha, input)
    requires result.ToolResult? && HashedFrom(sha, es, inputs)
    ensures HashedFrom(sha, [call, result] + es, [input] + inputs)
  {
    assert ([result] + es)[1..] == es && ([input] + inputs)[1..] == inputs;
    assert ([call, result] + es)[1..] == [result] + es;
  }

  lemma {:induction false} RestHashes(s: Setup, messages: seq<SdkMessage>, seen: nat, n: nat, log: seq<HookCall>,
                                      ts: ToolState, done: seq<Event>)
    requires ts.Valid()
    ensures HashedFrom(s.sha, Rest(s, messages, seen, n, log, ts, done).events, Inputs(s, messages, seen, n, log, ts))
    decreases |messages|
  {
    if messages != [] && seen + 1 <= s.maxMessages && !messages[0].TextMessage? {
      if Skipped(s, messages[0]) {
        RestHashes(s, messages[1..], seen + 1, n, log, ts, done);
      } else {
        var call := ProposedCall(s, messages[0], n);
        if Acceptable(call) && s.decide(log + [SawCall(call)]) {
          var result := ItsResult(s, messages[0], n, ts);
          var after := AfterCall(ts, Invocation(messages[0].name.value, messages[0].input));
          RestHashes(s, messages[1..], seen + 1, n + 2, log + HookPair(call, result), after, done + [call, result]);
          HashedPair(s.sha, call, result, AfterPair(s, messages, seen, n, log, ts, done).events, messages[0].input,
                     Inputs(s, messages[1..], seen + 1, n + 2, log + HookPair(call, result), after));
        }
      }
    }
  }

  ghost predicate NothingDrifts(sha: string -> nat, es: seq<Event>)
  {
    forall i | 0 <= i < |es| && es[i].ToolCall? :: !StructuralReplay.Drifted(sha, es[i])
  }

  lemma {:induction false} DriftIffPadded(sha: string -> nat, es: seq<Event>, inputs: seq<Json>)
    requires CollisionFree(sha) && HashedFrom(sha, es, inputs)
    requires forall i | 0 <= i < |inputs| :: IsDict(inputs[i])
    ensures NothingDrifts(sha, es) <==> forall i | 0 <= i < |inputs| :: TightArgs(inputs[i])
  {
    if es != [] {
      var tail, rest := es[1..], if es[0].ToolCall? then inputs[1..] else inputs;
      DriftIffPadded(sha, tail, rest);
      assert NothingDrifts(sha, es) <==>
             NothingDrifts(sha, tail) && (es[0].ToolCall? ==> !StructuralReplay.Drifted(sha, es[0])) by {
        assert forall i | 1 <= i < |es| :: es[i] == tail[i - 1];
      }
      if es[0].ToolCall? {
        CleanArgsIsDict(inputs[0]);
        TrimmingKeepsArgsIff(inputs[0]);
        StructuralReplay.DriftIffArgumentsChanged(sha, es[0], inputs[0]);
        assert forall i | 1 <= i < |inputs| :: inputs[i] == rest[i - 1];
      }
    }
  }

  ghost predicate StreamOfDicts(messages: seq<SdkMessage>)
  {
    forall m | m in messages && m.ToolUse? :: IsDict(m.input)
  }

  lemma {:induction false} InputsAreDicts(s: Setup, messages: seq<SdkMessage>, seen: nat, n: nat, log: seq<HookCall>,
                                          ts: ToolState)
    requires ts.Valid() && StreamOfDicts(messages)
    ensures forall i | 0 <= i < |Inputs(s, messages, seen, n, log, ts)| ::
            IsDict(Inputs(s, messages, seen, n, log, ts)[i])
    decreases |messages|
  {
    if messages != [] && seen + 1 <= s.maxMessages && !messages[0].TextMessage? {
      assert messages[0] in messages && forall m | m in messages[1..] :: m in messages;
      if Skipped(s, messages[0]) {
        InputsAreDicts(s, messages[1..], seen + 1, n, log, ts);
      } else {
        var call := ProposedCall(s, messages[0], n);
        if Acceptable(call) && s.decide(log + [SawCall(call)]) {
          InputsAreDicts(s, messages[1..], seen + 1, n + 2, log + HookPair(call, ItsResult(s, messages[0], n, ts)),
                         AfterCall(ts, Invocation(messages[0].name.value, messages[0].input)));
        }
      }
    }
  }

  /** The arguments, as the stream gave them, of the calls that a whole run records. */
  ghost function RunInputs(s: Setup, messages: seq<SdkMessage>, log: seq<HookCall>, ts: ToolState): seq<Json>
    requires ts.Valid()
  {
    Inputs(s, messages, 0, 1, log, ts)
  }

  /** Each recorded call carries its arguments with trimmed keys, and the hash of the untrimmed ones. */
  lemma RunIsHashedFrom(s: Setup, messages: seq<SdkMessage>, log: seq<HookCall>, ts: ToolState)
    requires ts.Valid()
    ensures HashedFrom(s.sha, WholeRun(s, messages, log, ts).events, RunInputs(s, messages, log, ts))
  {
    var user := UserMessage(s.tid, s.task, s.model);
    var rest := Rest(s, messages, 0, 1, log, ts, [user]).events;
    RestHashes(s, messages, 0, 1, log, ts, [user]);
    assert ([user] + rest)[1..] == rest;
  }

  /**
    The hash is taken of the arguments as the stream gave them, the event keeps them with trimmed keys.
    So, without collisions, a log recorded by this adapter is free of drift exactly when no recorded call
    had a padded top-level key.
   */
  lemma NoDriftIffKeysTight(s: Setup, messages: seq<SdkMessage>, log: seq<HookCall>, ts: ToolState)
    requires ts.Valid() && CollisionFree(s.sha) && StreamOfDicts(messages)
    ensures StructuralReplay.DriftsOf(s.sha, WholeRun(s, messages, log, ts).events) == []
            <==> forall a | a in RunInputs(s, messages, log, ts) :: TightArgs(a)
  {
    var es, inputs := WholeRun(s, messages, log, ts).events, RunInputs(s, messages, log, ts);
    RunIsHashedFrom(s, messages, log, ts);
    InputsAreDicts(s, messages, 0, 1, log, ts);
    DriftIffPadded(s.sha, es, inputs);
    StructuralReplay.NoDriftIff(s.sha, es);
    assert forall i | 0 <= i < |inputs| :: inputs[i] in inputs;
  }

  /** `{" q": 1}`. */
  function PaddedInput(): Json
  {
    Obj([Member(" q", Num(1))])
  }

  lemma PaddedInputIsPadded()
    ensures IsDict(PaddedInput()) && !TightArgs(PaddedInput())
  {
    assert PaddedInput().members[0].key[0] == ' ';
  }

  lemma FirstInput(s: Setup, input: Json, log: seq<HookCall>, ts: ToolState)
    requires ts.Valid() && s.tools != [] && NameOk(Strip(s.tools[0])) && s.maxMessages >= 1
    ensures input in RunInputs(s, [ToolUse(Some(s.tools[0]), input)], log, ts)
  {
    assert Acceptable(ProposedCall(s, ToolUse(Some(s.tools[0]), input), 1));
    assert RunInputs(s, [ToolUse(Some(s.tools[0]), input)], log, ts)[0] == input;
  }

  /** One tool use with a padded key is enough for drift, whatever the hook decides. */
  lemma PaddedKeyDrifts(s: Setup, log: seq<HookCall>, ts: ToolState)
    requires ts.Valid() && CollisionFree(s.sha)
    requires s.tools != [] && NameOk(Strip(s.tools[0])) && s.maxMessages >= 1
    ensures var r := WholeRun(s, [ToolUse(Some(s.tools[0]), PaddedInput())], log, ts);
            StructuralReplay.DriftsOf(s.sha, r.events) != []
  {
    PaddedInputIsPadded();
    FirstInput(s, PaddedInput(), log, ts);
    NoDriftIffKeysTight(s, [ToolUse(Some(s.tools[0]), PaddedInput())], log, ts);
  }

  // ----- Runs under the policy gate -----

  /** The calls the hooks were shown. */
  function CallsSeen(log: seq<HookCall>): (h: seq<Event>)
    ensures forall i | 0 <= i < |h| :: h[i].ToolCall?
  {
    if log == [] then []
    else
      var last := log[|log| - 1];
      CallsSeen(log[..|log| - 1]) + if last.SawCall? && last.call.ToolCall? then [last.call] else []
  }

  /** The hooks are a policy gate that has seen every call in the log. */
  ghost predicate GovernedBy(s: Setup, p: PolicyGate.Policy)
  {
    forall log: seq<HookCall>, call: Event | call.ToolCall? ::
      s.decide(log + [SawCall(call)]) == PolicyGate.DecisionAfter(p, s.sha, CallsSeen(log), call).allow
  }

  /** The hooks allow no call that such a gate denies; they may deny more. */
  ghost predicate GuardedBy(s: Setup, p: PolicyGate.Policy)
  {
    forall log: seq<HookCall>, call: Event | call.ToolCall? && s.decide(log + [SawCall(call)]) ::
      PolicyGate.DecisionAfter(p, s.sha, CallsSeen(log), call).allow
  }

  /** How many results of this tool a run records, that is, how often the tool ran. */
  function ResultCount(es: seq<Event>, tool: string): nat
  {
    if es == [] then 0
    else (if es[0].ToolResult? && es[0].tool == tool then 1 else 0) + ResultCount(es[1..], tool)
  }

  lemma SeenPair(log: seq<HookCall>, call: Event, result: Event)
    requires call.ToolCall?
    ensures CallsSeen(log + HookPair(call, result)) == CallsSeen(log) + [call]
  {
    var one := log + [SawCall(call)];
    assert one[..|log|] == log;
    assert (log + HookPair(call, result))[..|log| + 1] == one;
  }

  lemma SeenOneMore(log: seq<HookCall>, h: HookCall)
    ensures CallsSeen(log + [h]) == if h.SawCall? && h.call.ToolCall? then CallsSeen(log) + [h.call] else CallsSeen(log)
  {
    assert (log + [h])[..|log|] == log;
  }

  /** What one more call that the gate sees adds to the calls it allowed. */
  lemma AllowedOneMore(p: PolicyGate.Policy, sha: string -> nat, h: seq<Event>, call: Event, key: PolicyGate.Key)
    requires PolicyGate.AllCalls(h) && call.ToolCall?
    ensures GateProperties.Allowed(p, sha, h + [call], key)
            == GateProperties.Allowed(p, sha, h, key) +
               if PolicyGate.KeyOf(call) == key && PolicyGate.DecisionAfter(p, sha, h, call).allow then 1 else 0
  {
    assert (h + [call])[..|h|] == h;
  }

  /**
    The executions of a tool in the rest of a run are calls of it that the gate allows from here on, and
    all of them if `exact`.
   */
  ghost predicate Spends(s: Setup, p: PolicyGate.Policy, exact: bool, tool: string, log: seq<HookCall>, rest: Run)
  {
    var before := GateProperties.Allowed(p, s.sha, CallsSeen(log), (s.tid, tool));
    var after := GateProperties.Allowed(p, s.sha, CallsSeen(log + rest.hookCalls), (s.tid, tool));
    var spent := before + ResultCount(rest.events, tool);
    spent <= after && (exact ==> spent == after)
  }

  lemma FinishedSpends(s: Setup, p: PolicyGate.Policy, exact: bool, tool: string, log: seq<HookCall>,
                       done: seq<Event>, n: nat, text: string)
    ensures Spends(s, p, exact, tool, log, Finished(s, done, n, text))
  {
    SeenOneMore(log, Finished(s, done, n, text).hookCalls[0]);
  }

  lemma InvalidSpends(s: Setup, p: PolicyGate.Policy, exact: bool, tool: string, log: seq<HookCall>)
    ensures Spends(s, p, exact, tool, log, Run([], [], Invalid))
  {
    assert log + [] == log;
  }

  lemma StoppedSpends(s: Setup, p: PolicyGate.Policy, exact: bool, tool: string, log: seq<HookCall>,
                      done: seq<Event>, call: Event)
    requires call.ToolCall? && (exact ==> !PolicyGate.DecisionAfter(p, s.sha, CallsSeen(log), call).allow)
    ensures Spends(s, p, exact, tool, log, Stopped(s, done, call))
  {
    SeenStopped(log, call, TraceRecord(s.tid, s.taskId, s.model, s.prior + (done + [call]), ""));
    AllowedOneMore(p, s.sha, CallsSeen(log), call, (s.tid, tool));
    NoResult(call, tool);
  }

  lemma SeenStopped(log: seq<HookCall>, call: Event, trace: Trace)
    requires call.ToolCall?
    ensures CallsSeen(log + [SawCall(call), SawFinal(trace)]) == CallsSeen(log) + [call]
  {
    SeenOneMore(log, SawCall(call));
    SeenOneMore(log + [SawCall(call)], SawFinal(trace));
    assert log + [SawCall(call), SawFinal(trace)] == log + [SawCall(call)] + [SawFinal(trace)];
  }

  lemma NoResult(call: Event, tool: string)
    requires call.ToolCall?
    ensures ResultCount([call], tool) == 0
  {
    assert [call][1..] == [];
  }

  lemma PairSpends(s: Setup, p: PolicyGate.Policy, exact: bool, tool: string, log: seq<HookCall>,
                   call: Event, result: Event, next: Run)
    requires call.ToolCall? && PolicyGate.DecisionAfter(p, s.sha, CallsSeen(log), call).allow
    requires result.ToolResult? && result.tool == call.tool && call.traceId == s.tid
    requires Spends(s, p, exact, tool, log + HookPair(call, result), next)
    ensures Spends(s, p, exact, tool, log, WithPair(call, result, next))
  {
    SeenPair(log, call, result);
    AllowedOneMore(p, s.sha, CallsSeen(log), call, (s.tid, tool));
    ResultCountPair(call, result, next.events, tool);
    Assoc(log, HookPair(call, result), next.hookCalls);
  }

  lemma {:induction false} ExecutionsSpend(s: Setup, p: PolicyGate.Policy, exact: bool, messages: seq<SdkMessage>,
                                           seen: nat, n: nat, log: seq<HookCall>, ts: ToolState, done: seq<Event>,
                                           tool: string)
    requires ts.Valid() && GuardedBy(s, p) && (exact ==> GovernedBy(s, p))
    ensures Spends(s, p, exact, tool, log, Rest(s, messages, seen, n, log, ts, done))
    decreases |messages|
  {
    if messages == [] || seen + 1 > s.maxMessages || messages[0].TextMessage? {
      EndSpends(s, p, exact, messages, seen, n, log, ts, done, tool);
    } else if Skipped(s, messages[0]) {
      ExecutionsSpend(s, p, exact, messages[1..], seen + 1, n, log, ts, done, tool);
    } else if Proceeds(s, messages[0], n, log) {
      var result := ItsResult(s, messages[0], n, ts);
      var call := ProposedCall(s, messages[0], n);
      ExecutionsSpend(s, p, exact, messages[1..], seen + 1, n + 2, log + HookPair(call, result),
                      AfterCall(ts, Invocation(messages[0].name.value, messages[0].input)),
                      done + [call, result], tool);
      ExecutedSpends(s, p, exact, tool, log, call, result, AfterPair(s, messages, seen, n, log, ts, done));
    } else {
      RefusalSpends(s, p, exact, messages, seen, n, log, ts, done, tool);
    }
  }

  /** The proposed call can be recorded, and the hook allows it. */
  predicate Proceeds(s: Setup, message: SdkMessage, n: nat, log: seq<HookCall>)
    requires !message.TextMessage? && !Skipped(s, message)
  {
    var call := ProposedCall(s, message, n);
    Acceptable(call) && s.decide(log + [SawCall(call)])
  }

  lemma EndSpends(s: Setup, p: PolicyGate.Policy, exact: bool, messages: seq<SdkMessage>, seen: nat, n: nat,
                  log: seq<HookCall>, ts: ToolState, done: seq<Event>, tool: string)
    requires ts.Valid() && (messages == [] || seen + 1 > s.maxMessages || messages[0].TextMessage?)
    ensures Spends(s, p, exact, tool, log, Rest(s, messages, seen, n, log, ts, done))
  {
    if messages == [] || seen + 1 > s.maxMessages {
      FinishedSpends(s, p, exact, tool, log, done, n, Echo(s.task));
    } else {
      FinishedSpends(s, p, exact, tool, log, done, n, FinalTextOf(s, messages[0].text));
    }
  }

  lemma RefusalSpends(s: Setup, p: PolicyGate.Policy, exact: bool, messages: seq<SdkMessage>, seen: nat, n: nat,
                      log: seq<HookCall>, ts: ToolState, done: seq<Event>, tool: string)
    requires ts.Valid() && messages != [] && seen + 1 <= s.maxMessages && !messages[0].TextMessage?
    requires !Skipped(s, messages[0]) && !Proceeds(s, messages[0], n, log) && (exact ==> GovernedBy(s, p))
    ensures Spends(s, p, exact, tool, log, Rest(s, messages, seen, n, log, ts, done))
  {
    var call := ProposedCall(s, messages[0], n);
    if Acceptable(call) {
      DeniedSpends(s, p, exact, tool, log, done, call);
    } else {
      InvalidSpends(s, p, exact, tool, log);
    }
  }

  lemma DeniedSpends(s: Setup, p: PolicyGate.Policy, exact: bool, tool: string, log: seq<HookCall>,
                     done: seq<Event>, call: Event)
    requires call.ToolCall? && !s.decide(log + [SawCall(call)]) && (exact ==> GovernedBy(s, p))
    ensures Spends(s, p, exact, tool, log, Stopped(s, done, call))
  {
    StoppedSpends(s, p, exact, tool, log, done, call);
  }

  lemma ExecutedSpends(s: Setup, p: PolicyGate.Policy, exact: bool, tool: string, log: seq<HookCall>,
                       call: Event, result: Event, next: Run)
    requires call.ToolCall? && s.decide(log + [SawCall(call)]) && GuardedBy(s, p)
    requires result.ToolResult? && result.tool == call.tool && call.traceId == s.tid
    requires Spends(s, p, exact, tool, log + HookPair(call, result), next)
    ensures Spends(s, p, exact, tool, log, WithPair(call, result, next))
  {
    PairSpends(s, p, exact, tool, log, call, result, next);
  }

  /**
    Under a policy gate, the executions of a tool in the rest of a run are exactly the calls of that tool
    that the gate allows among those it is shown.
   */
  lemma ExecutionsAreAllowed(s: Setup, p: PolicyGate.Policy, messages: seq<SdkMessage>, seen: nat, n: nat,
                             log: seq<HookCall>, ts: ToolState, done: seq<Event>, tool: string)
    requires ts.Valid() && GovernedBy(s, p)
    ensures var r := Rest(s, messages, seen, n, log, ts, done);
            GateProperties.Allowed(p, s.sha, CallsSeen(log + r.hookCalls), (s.tid, tool))
            == GateProperties.Allowed(p, s.sha, CallsSeen(log), (s.tid, tool)) + ResultCount(r.events, tool)
  {
    ExecutionsSpend(s, p, true, messages, seen, n, log, ts, done, tool);
  }

  lemma ResultCountPair(call: Event, result: Event, es: seq<Event>, tool: string)
    requires call.ToolCall? && result.ToolResult?
    ensures ResultCount([call, result] + es, tool) == ResultCount(es, tool) + if result.tool == tool then 1 else 0
  {
    assert ([call, result] + es)[1..] == [result] + es;
    assert ([result] + es)[1..] == es;
  }

  /** Under hooks that allow no more than a policy gate, a tool runs at most as often as its cap allows. */
  lemma GovernedRunWithinCap(s: Setup, p: PolicyGate.Policy, messages: seq<SdkMessage>, log: seq<HookCall>,
                             ts: ToolState, tool: string)
    requires ts.Valid() && GuardedBy(s, p)
    ensures ResultCount(WholeRun(s, messages, log, ts).events, tool) <= PolicyGate.Cap(p, tool)
  {
    var user := UserMessage(s.tid, s.task, s.model);
    var rest := Rest(s, messages, 0, 1, log, ts, [user]);
    ExecutionsSpend(s, p, false, messages, 0, 1, log, ts, [user], tool);
    GateProperties.AllowedWithinCap(p, s.sha, CallsSeen(log + rest.hookCalls), (s.tid, tool));
    assert ([user] + rest.events)[1..] == rest.events;
  }

  // ----- The trace shown at the end -----

  /** The trace that the final-answer hook is shown: everything the adapter has kept, and what this run added. */
  ghost predicate Shows(s: Setup, done: seq<Event>, r: Run)
  {
    r.exit != Invalid ==> ShownAtEnd(r, s.prior + (done + r.events))
  }

  lemma {:induction false} RestShows(s: Setup, messages: seq<SdkMessage>, seen: nat, n: nat, log: seq<HookCall>,
                                     ts: ToolState, done: seq<Event>)
    requires ts.Valid()
    ensures Shows(s, done, Rest(s, messages, seen, n, log, ts, done))
    decreases |messages|
  {
    if messages != [] && seen + 1 <= s.maxMessages && !messages[0].TextMessage? {
      if Skipped(s, messages[0]) {
        RestShows(s, messages[1..], seen + 1, n, log, ts, done);
      } else {
        var call := ProposedCall(s, messages[0], n);
        if Acceptable(call) && s.decide(log + [SawCall(call)]) {
          var result := ItsResult(s, messages[0], n, ts);
          RestShows(s, messages[1..], seen + 1, n + 2, log + HookPair(call, result),
                    AfterCall(ts, Invocation(messages[0].name.value, messages[0].input)), done + [call, result]);
          PairShows(s, done, call, result, AfterPair(s, messages, seen, n, log, ts, done));
        }
      }
    }
  }

  lemma PairShows(s: Setup, done: seq<Event>, call: Event, result: Event, next: Run)
    requires Shows(s, done + [call, result], next)
    ensures Shows(s, done, WithPair(call, result, next))
  {
    Assoc(done, [call, result], next.events);
  }

  /**
    The trace that a run shows at its end holds everything that the adapter kept, and so events of another
    trace exactly when it kept some before this run.
   */
  lemma ShowsOtherTracesIff(s: Setup, messages: seq<SdkMessage>, log: seq<HookCall>, ts: ToolState)
    requires ts.Valid() && NameOk(Strip(s.model)) && WholeRun(s, messages, log, ts).exit != Invalid
    ensures var r := WholeRun(s, messages, log, ts);
            && ShownAtEnd(r, s.prior + r.events)
            && (HoldsOther(s.prior + r.events, s.tid) <==> HoldsOther(s.prior, s.tid))
  {
    var user := UserMessage(s.tid, s.task, s.model);
    RestShows(s, messages, 0, 1, log, ts, [user]);
    RunGrammar(s, messages, log, ts);
    OnlyOwn(s.prior, WholeRun(s, messages, log, ts).events, s.tid);
  }
}
