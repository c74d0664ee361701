/**
  What the adapters record, field by field, and when they call a tool.

  The reference loop is described by its inputs alone.  A run of the message-driven adapter is described by
  the stream, the hook and the tools: which tool uses are recorded, with what outcome, and where it ends.
 */
module RunContents {
  import opened Text
  import opened Helpers
  import opened CanonicalJson
  import opened Events
  import opened StubRegistry
  import opened Runtime
  import opened Recording
  import opened ClaudeSdk
  import RawLoop
  import Heuristics
  import ClaudeSdkProperties

  // ----- Events and traces, field by field -----

  predicate IsQuestion(e: Event, tid: nat, task: string, model: string)
  {
    e == ModelMessage(tid, 0, User, Strip(task), Strip(model))
  }

  predicate IsReply(e: Event, tid: nat, n: nat, text: string, model: string)
  {
    e == ModelMessage(tid, n, Assistant, Strip(text), Strip(model))
  }

  predicate IsCallOf(e: Event, sha: string -> nat, tid: nat, n: nat, callId: nat, use: Invocation)
  {
    e == ToolCall(tid, n, callId, Strip(use.tool), CleanArgs(use.args), Digest(sha(Dumps(use.args))))
  }

  /** A value that is returned is recorded as it is (or as it is stored); a raise is recorded as an error. */
  predicate IsResultOf(e: Event, tid: nat, n: nat, callId: nat, tool: string, o: Outcome)
  {
    && e.ToolResult? && e.traceId == tid && e.seqNo == n && e.callId == callId && e.tool == Strip(tool)
    && match o
       case Returned(value) => e.result == value && !e.isError && e.error == None
       case Other(_, stored) => e.result == stored && !e.isError && e.error == None
       case Raised(kind, message) => e.result == Null && e.isError && e.error == Some(Strip(kind + ": " + message))
  }

  predicate IsRecordOf(t: Trace, tid: nat, taskId: string, model: string, events: seq<Event>, answer: string)
  {
    t == Trace(tid, Strip(taskId), Strip(model), events, Strip(answer))
  }

  /** A tool name that an event can carry. */
  predicate NameFits(tool: string)
  {
    1 <= |Strip(tool)| <= 200
  }

  /** What an outcome adds to the reference loop's answer. */
  function SpokenText(render: Json -> string, o: Outcome): string
  {
    match o
    case Returned(Str(s)) => s
    case Returned(Null) => "None"
    case Returned(value) => render(value)
    case Other(text, _) => text
    case Raised(_, _) => "None"
  }

  // ----- The reference loop -----

  function LoopUse(s: RawLoop.Setup): Invocation
    requires s.tools != []
  {
    Invocation(s.tools[0], Obj([Member("text", Str(s.task))]))
  }

  /** A run with a tool: refused, denied, or executed. */
  ghost predicate LoopCalls(sha: string -> nat, render: Json -> string, s: RawLoop.Setup, allow: bool, o: Outcome,
                            r: Run)
    requires s.tools != [] && r.events != []
  {
    var es, hs := r.events, r.hookCalls;
    if !NameFits(s.tools[0]) then |es| == 1 && hs == [] && r.exit == Invalid
    else
      && |es| >= 2 && IsCallOf(es[1], sha, s.tid, 1, s.callId, LoopUse(s))
      && if !allow then
           && |es| == 2 && |hs| == 2 && r.exit == Denied
           && hs[0] == SawCall(es[1]) && hs[1].SawFinal?
           && IsRecordOf(hs[1].trace, s.tid, s.taskId, "echo-1", s.prior + es, "")
         else LoopExecutes(s, o, "<echo:" + s.task + ">" + "::" + SpokenText(render, o), r)
  }

  /** After the call, its outcome and the answer. */
  ghost predicate LoopExecutes(s: RawLoop.Setup, o: Outcome, text: string, r: Run)
    requires s.tools != [] && |r.events| >= 2
  {
    var es, hs := r.events, r.hookCalls;
    && |es| == 4 && |hs| == 3 && r.exit == Answered(text)
    && IsResultOf(es[2], s.tid, 2, s.callId, s.tools[0], o) && IsReply(es[3], s.tid, 3, text, "echo-1")
    && hs[0] == SawCall(es[1]) && hs[1] == SawResult(es[1], es[2]) && hs[2].SawFinal?
    && IsRecordOf(hs[2].trace, s.tid, s.taskId, "echo-1", s.prior + es, text)
  }

  /** A run without tools: the question and the echo. */
  ghost predicate LoopEchoes(s: RawLoop.Setup, r: Run)
    requires r.events != []
  {
    var text := "<echo:" + s.task + ">";
    && |r.events| == 2 && |r.hookCalls| == 1 && r.exit == Answered(text)
    && IsReply(r.events[1], s.tid, 1, text, "echo-1")
    && r.hookCalls[0].SawFinal? && IsRecordOf(r.hookCalls[0].trace, s.tid, s.taskId, "echo-1", s.prior + r.events, text)
  }

  /** Every event, hook call and the answer of the reference loop's run, for every decision and every outcome. */
  lemma LoopRunIs(sha: string -> nat, render: Json -> string, s: RawLoop.Setup, allow: bool, o: Outcome)
    ensures var r := RawLoop.RawLoopRun(sha, render, s, allow, o);
            && r.events != [] && IsQuestion(r.events[0], s.tid, s.task, "echo-1")
            && if s.tools == [] then LoopEchoes(s, r) else LoopCalls(sha, render, s, allow, o, r)
  {
    StripSpec("echo-1");
    if s.tools != [] {
      LoopCallIs(sha, s);
      if NameFits(s.tools[0]) && allow {
        ResultIs(s.tid, 2, s.callId, s.tools[0], o);
        AllowedLoopIs(sha, render, s, o);
      }
    }
  }

  lemma LoopCallIs(sha: string -> nat, s: RawLoop.Setup)
    requires s.tools != []
    ensures IsCallOf(RawLoop.FirstCall(sha, s), sha, s.tid, 1, s.callId, LoopUse(s))
    ensures Acceptable(RawLoop.FirstCall(sha, s)) <==> NameFits(s.tools[0])
  {
  }

  lemma ResultIs(tid: nat, n: nat, callId: nat, tool: string, o: Outcome)
    ensures IsResultOf(ResultEvent(tid, n, callId, tool, o), tid, n, callId, tool, o)
  {
  }

  lemma AllowedLoopIs(sha: string -> nat, render: Json -> string, s: RawLoop.Setup, o: Outcome)
    requires s.tools != [] && NameFits(s.tools[0])
    ensures LoopCalls(sha, render, s, true, o, RawLoop.RawLoopRun(sha, render, s, true, o))
  {
    LoopCallIs(sha, s);
    AllowedRunIs(render, s, UserMessage(s.tid, s.task, "echo-1"), RawLoop.FirstCall(sha, s), o);
  }

  lemma AllowedRunIs(render: Json -> string, s: RawLoop.Setup, user: Event, call: Event, o: Outcome)
    requires s.tools != []
    ensures LoopExecutes(s, o, "<echo:" + s.task + ">" + "::" + SpokenText(render, o),
                         RawLoop.AllowedRun(render, s, user, call, o))
  {
    ResultIs(s.tid, 2, s.callId, s.tools[0], o);
    LoopTextIs(render, s, o);
  }

  lemma LoopTextIs(render: Json -> string, s: RawLoop.Setup, o: Outcome)
    ensures RawLoop.FinalText(render, s.task, o) == "<echo:" + s.task + ">" + "::" + SpokenText(render, o)
    ensures Strip("echo-1") == "echo-1"
  {
    StripSpec("echo-1");
  }

  // ----- Errors in the log -----

  /** The text of an error is never empty once it is recorded. */
  lemma ErrorTextStays(kind: string, message: string)
    ensures Strip(kind + ": " + message) != ""
  {
    var s := kind + ": " + message;
    assert s[|kind|] == ':';
    NotAllSpace(s, |kind|);
  }

  lemma {:induction false} TrimRightKeeps(s: string, i: nat)
    requires i < |s| && !IsSpace(s[i])
    ensures i < |TrimRight(s)| && TrimRight(s)[i] == s[i]
  {
    if IsSpace(s[|s| - 1]) {
      TrimRightKeeps(s[..|s| - 1], i);
    }
  }

  lemma {:induction false} NotAllSpace(s: string, i: nat)
    requires i < |s| && !IsSpace(s[i])
    ensures Strip(s) != ""
  {
    if IsSpace(s[0]) {
      NotAllSpace(s[1..], i - 1);
    } else {
      TrimRightKeeps(s, 0);
    }
  }

  lemma FailedIff(e: Event, tid: nat, n: nat, callId: nat, tool: string, o: Outcome)
    requires IsResultOf(e, tid, n, callId, tool, o)
    ensures Heuristics.Failed(e) <==> o.Raised?
  {
    if o.Raised? {
      ErrorTextStays(o.kind, o.message);
    }
  }

  lemma OneFails(a: Event, b: Event, c: Event, d: Event)
    requires !a.ToolResult? && !b.ToolResult? && !d.ToolResult?
    ensures !Heuristics.AnyFailed([a]) && !Heuristics.AnyFailed([a, b])
    ensures Heuristics.AnyFailed([a, b, c, d]) <==> Heuristics.Failed(c)
  {
    assert [a, b, c, d][2] == c;
  }

  /** The log of the reference loop shows a failure exactly when its tool ran and raised. */
  lemma LoopFailsIff(sha: string -> nat, render: Json -> string, s: RawLoop.Setup, allow: bool, o: Outcome)
    ensures Heuristics.AnyFailed(RawLoop.RawLoopRun(sha, render, s, allow, o).events)
            <==> s.tools != [] && NameFits(s.tools[0]) && allow && o.Raised?
  {
    var u := UserMessage(s.tid, s.task, "echo-1");
    if s.tools == [] {
      var f := FinalMessage(s.tid, 1, Echo(s.task), "echo-1");
      OneFails(u, f, u, f);
    } else {
      var result := ResultEvent(s.tid, 2, s.callId, s.tools[0], o);
      LoopCallIs(sha, s);
      ResultIs(s.tid, 2, s.callId, s.tools[0], o);
      FailedIff(result, s.tid, 2, s.callId, s.tools[0], o);
      OneFails(u, RawLoop.FirstCall(sha, s), result,
               FinalMessage(s.tid, 3, RawLoop.FinalText(render, s.task, o), "echo-1"));
    }
  }

  // ----- What the stream asks for -----

  /** The tool uses of registered tools, in order. */
  function Uses(messages: seq<SdkMessage>, tools: seq<string>): seq<Invocation>
  {
    if messages == [] then []
    else
      var m := messages[0];
      (if m.ToolUse? && m.name.Some? && m.name.value in tools then [Invocation(m.name.value, m.input)] else [])
      + Uses(messages[1..], tools)
  }

  /** How many messages are consumed before the stream ends, the cap is reached, or a text comes. */
  function Cut(messages: seq<SdkMessage>, cap: int): (k: nat)
    ensures k <= |messages| && (k == 0 || k <= cap)
    ensures forall i | 0 <= i < k :: !messages[i].TextMessage?
    ensures k == |messages| || k >= cap || messages[k].TextMessage?
  {
    if messages == [] || cap <= 0 || messages[0].TextMessage? then 0 else 1 + Cut(messages[1..], cap - 1)
  }

  /** The tool uses that a run may execute: those of registered tools that it consumes. */
  function Asked(messages: seq<SdkMessage>, tools: seq<string>, cap: int): seq<Invocation>
  {
    Uses(messages[..Cut(messages, cap)], tools)
  }

  /** The first text within the cap, unless it is empty; else the echo of the task. */
  function Spoken(messages: seq<SdkMessage>, cap: int, task: string): string
  {
    var k := Cut(messages, cap);
    if k < |messages| && k < cap && messages[k].TextMessage? && messages[k].text != "" then messages[k].text
    else "<echo:" + task + ">"
  }

  // ----- A run of the message-driven adapter -----

  /** A point of a run: the uses and events still to come, the next number, what was shown, and the tools. */
  datatype Stage = Stage(uses: seq<Invocation>, es: seq<Event>, n: nat, shown: seq<HookCall>, ts: ToolState)
  {
    ghost predicate More()
    {
      ts.Valid() && uses != [] && |es| >= 2
    }

    /** Past the first use and its two events. */
    ghost function Next(): Stage
      requires More()
    {
      Stage(uses[1..], es[2..], n + 2, shown + [SawCall(es[0]), SawResult(es[0], es[1])], ts.After(uses[0]))
    }

    /** The first use is recorded, allowed on top of what was shown, executed, and its outcome recorded. */
    ghost predicate Executes(s: Setup)
      requires More()
    {
      && NameFits(uses[0].tool) && IsCallOf(es[0], s.sha, s.tid, n, s.callIds(n), uses[0])
      && s.decide(shown + [SawCall(es[0])])
      && IsResultOf(es[1], s.tid, n + 1, s.callIds(n), uses[0].tool, ts.Next(uses[0]))
    }

    /** The run ends here: answered when no use is left, else at one that is denied or cannot be recorded. */
    predicate Ends(s: Setup, answer: string, exit: Exit)
    {
      if uses == [] then |es| == 1 && exit == Answered(answer) && IsReply(es[0], s.tid, n, answer, s.model)
      else if !NameFits(uses[0].tool) then es == [] && exit == Invalid
      else
        && |es| == 1 && exit == Denied && IsCallOf(es[0], s.sha, s.tid, n, s.callIds(n), uses[0])
        && !s.decide(shown + [SawCall(es[0])])
    }

    /** From here the run executes `m` uses in order and then ends. */
    ghost predicate Plays(s: Setup, answer: string, exit: Exit, m: nat)
      decreases m
    {
      if m == 0 then Ends(s, answer, exit) else More() && Executes(s) && Next().Plays(s, answer, exit, m - 1)
    }
  }

  lemma {:induction false} RestPlays(s: Setup, messages: seq<SdkMessage>, seen: nat, n: nat, log: seq<HookCall>,
                                     ts: ToolState, done: seq<Event>) returns (m: nat)
    requires ts.Valid()
    ensures RestPlaysAs(s, messages, seen, n, log, ts, done, m)
    decreases |messages|
  {
    if messages == [] || seen + 1 > s.maxMessages || messages[0].TextMessage? {
      m := 0;
      EndPlays(s, messages, seen, n, log, ts, done);
    } else if Skipped(s, messages[0]) {
      m := RestPlays(s, messages[1..], seen + 1, n, log, ts, done);
      SkippedPlays(s, messages, seen, n, log, ts, done, m);
    } else if ClaudeSdkProperties.Proceeds(s, messages[0], n, log) {
      var call, result := ProposedCall(s, messages[0], n), ItsResult(s, messages[0], n, ts);
      m := RestPlays(s, messages[1..], seen + 1, n + 2, log + HookPair(call, result),
                     AfterCall(ts, Invocation(messages[0].name.value, messages[0].input)), done + [call, result]);
      ExecutedPlays(s, messages, seen, n, log, ts, done, m);
      m := m + 1;
    } else {
      m := 0;
      RefusedPlays(s, messages, seen, n, log, ts, done);
    }
  }

  /** The rest of a run plays what the rest of the stream asks for. */
  ghost predicate RestPlaysAs(s: Setup, messages: seq<SdkMessage>, seen: nat, n: nat, log: seq<HookCall>, ts: ToolState,
                              done: seq<Event>, m: nat)
    requires ts.Valid()
  {
    var r, cap := Rest(s, messages, seen, n, log, ts, done), s.maxMessages - seen;
    Stage(Asked(messages, s.tools, cap), r.events, n, log, ts).Plays(s, Spoken(messages, cap, s.task), r.exit, m)
  }

  lemma EndPlays(s: Setup, messages: seq<SdkMessage>, seen: nat, n: nat, log: seq<HookCall>, ts: ToolState,
                 done: seq<Event>)
    requires ts.Valid() && (messages == [] || seen + 1 > s.maxMessages || messages[0].TextMessage?)
    ensures RestPlaysAs(s, messages, seen, n, log, ts, done, 0)
  {
    assert messages[..0] == [];
  }

  lemma SkippedPlays(s: Setup, messages: seq<SdkMessage>, seen: nat, n: nat, log: seq<HookCall>, ts: ToolState,
                     done: seq<Event>, m: nat)
    requires ts.Valid() && messages != [] && seen + 1 <= s.maxMessages && !messages[0].TextMessage?
    requires Skipped(s, messages[0])
    ensures RestPlaysAs(s, messages, seen, n, log, ts, done, m) ==
            RestPlaysAs(s, messages[1..], seen + 1, n, log, ts, done, m)
  {
    AskedStep(messages, s.tools, s.maxMessages - seen, s.task);
    RestSkips(s, messages, seen, n, log, ts, done);
  }

  lemma RestSkips(s: Setup, messages: seq<SdkMessage>, seen: nat, n: nat, log: seq<HookCall>, ts: ToolState,
                  done: seq<Event>)
    requires ts.Valid() && messages != [] && seen + 1 <= s.maxMessages && !messages[0].TextMessage?
    requires Skipped(s, messages[0])
    ensures Rest(s, messages, seen, n, log, ts, done) == Rest(s, messages[1..], seen + 1, n, log, ts, done)
    ensures var m := messages[0]; !(m.ToolUse? && m.name.Some? && m.name.value in s.tools)
  {
  }

  lemma ExecutedPlays(s: Setup, messages: seq<SdkMessage>, seen: nat, n: nat, log: seq<HookCall>, ts: ToolState,
                      done: seq<Event>, m: nat)
    requires ts.Valid() && messages != [] && seen + 1 <= s.maxMessages && !messages[0].TextMessage?
    requires !Skipped(s, messages[0]) && ClaudeSdkProperties.Proceeds(s, messages[0], n, log)
    ensures var call, result := ProposedCall(s, messages[0], n), ItsResult(s, messages[0], n, ts);
            RestPlaysAs(s, messages, seen, n, log, ts, done, m + 1) ==
            RestPlaysAs(s, messages[1..], seen + 1, n + 2, log + HookPair(call, result),
                        AfterCall(ts, Invocation(messages[0].name.value, messages[0].input)), done + [call, result], m)
  {
    var use, cap := Invocation(messages[0].name.value, messages[0].input), s.maxMessages - seen;
    AskedStep(messages, s.tools, cap, s.task);
    ItExecutes(s, messages[0], n, log, ts);
    RestProceeds(s, messages, seen, n, log, ts, done);
    PairPlays(s, use, Asked(messages[1..], s.tools, cap - 1), Spoken(messages, cap, s.task), n, log, ts,
              ProposedCall(s, messages[0], n), ItsResult(s, messages[0], n, ts),
              ClaudeSdkProperties.AfterPair(s, messages, seen, n, log, ts, done), m);
  }

  lemma RestProceeds(s: Setup, messages: seq<SdkMessage>, seen: nat, n: nat, log: seq<HookCall>, ts: ToolState,
                     done: seq<Event>)
    requires ts.Valid() && messages != [] && seen + 1 <= s.maxMessages && !messages[0].TextMessage?
    requires !Skipped(s, messages[0]) && ClaudeSdkProperties.Proceeds(s, messages[0], n, log)
    ensures Rest(s, messages, seen, n, log, ts, done) ==
            WithPair(ProposedCall(s, messages[0], n), ItsResult(s, messages[0], n, ts),
                     ClaudeSdkProperties.AfterPair(s, messages, seen, n, log, ts, done))
  {
  }

  lemma ItExecutes(s: Setup, message: SdkMessage, n: nat, log: seq<HookCall>, ts: ToolState)
    requires ts.Valid() && !message.TextMessage? && !Skipped(s, message)
    requires ClaudeSdkProperties.Proceeds(s, message, n, log)
    ensures var use := Invocation(message.name.value, message.input);
            Stage([use], [ProposedCall(s, message, n), ItsResult(s, message, n, ts)], n, log, ts).Executes(s)
  {
    var use := Invocation(message.name.value, message.input);
    ResultIs(s.tid, n + 1, s.callIds(n), use.tool, ts.Next(use));
  }

  lemma RefusedPlays(s: Setup, messages: seq<SdkMessage>, seen: nat, n: nat, log: seq<HookCall>, ts: ToolState,
                     done: seq<Event>)
    requires ts.Valid() && messages != [] && seen + 1 <= s.maxMessages && !messages[0].TextMessage?
    requires !Skipped(s, messages[0]) && !ClaudeSdkProperties.Proceeds(s, messages[0], n, log)
    ensures RestPlaysAs(s, messages, seen, n, log, ts, done, 0)
  {
    AskedStep(messages, s.tools, s.maxMessages - seen, s.task);
  }

  /** What a message that is not a text adds. */
  lemma AskedStep(messages: seq<SdkMessage>, tools: seq<string>, cap: int, task: string)
    requires messages != [] && cap > 0 && !messages[0].TextMessage?
    ensures var m := messages[0];
            Asked(messages, tools, cap) ==
            if m.ToolUse? && m.name.Some? && m.name.value in tools
            then [Invocation(m.name.value, m.input)] + Asked(messages[1..], tools, cap - 1)
            else Asked(messages[1..], tools, cap - 1)
    ensures Spoken(messages, cap, task) == Spoken(messages[1..], cap - 1, task)
  {
    var k := Cut(messages[1..], cap - 1);
    assert messages[..k + 1][1..] == messages[1..][..k] && messages[..k + 1][0] == messages[0];
  }

  /** An executed use in front of a run that plays the others. */
  lemma PairPlays(s: Setup, use: Invocation, uses: seq<Invocation>, answer: string, n: nat, shown: seq<HookCall>,
                  ts: ToolState, call: Event, result: Event, next: Run, m: nat)
    requires ts.Valid() && Stage([use], [call, result], n, shown, ts).Executes(s)
    ensures Stage([use] + uses, WithPair(call, result, next).events, n, shown, ts).Plays(s, answer, next.exit, m + 1) ==
            Stage(uses, next.events, n + 2, shown + [SawCall(call), SawResult(call, result)], ts.After(use))
            .Plays(s, answer, next.exit, m)
  {
    assert ([use] + uses)[1..] == uses && ([call, result] + next.events)[2..] == next.events;
    var st := Stage([use] + uses, WithPair(call, result, next).events, n, shown, ts);
    assert st.Executes(s);
    assert st.Next() ==
           Stage(uses, next.events, n + 2, shown + [SawCall(call), SawResult(call, result)], ts.After(use));
  }

  /** The run plays the stream, executing `m` uses. */
  ghost predicate PlaysStream(s: Setup, messages: seq<SdkMessage>, log: seq<HookCall>, ts: ToolState, r: Run, m: nat)
    requires ts.Valid()
  {
    && r.events != [] && IsQuestion(r.events[0], s.tid, s.task, s.model)
    && Start(s, messages, log, ts, r).Plays(s, Spoken(messages, s.maxMessages, s.task), r.exit, m)
  }

  /** After the question, with the uses that the stream asks for. */
  function Start(s: Setup, messages: seq<SdkMessage>, log: seq<HookCall>, ts: ToolState, r: Run): Stage
    requires r.events != []
  {
    Stage(Asked(messages, s.tools, s.maxMessages), r.events[1..], 1, log, ts)
  }

  /**
    A run, read off the stream: let the messages before the end, the cap or the first text be taken, and of
    them the uses of registered tools.  After the question these are recorded in order, each as a call with
    trimmed keys and the hash of its arguments, allowed by the hook on top of all it was shown, and followed
    by the recorded outcome of the tool; all of them, unless one cannot be recorded or is denied, which
    ends the run.  Else the run ends with the first text, or the echo.
   */
  lemma StreamRunIs(s: Setup, messages: seq<SdkMessage>, log: seq<HookCall>, ts: ToolState) returns (m: nat)
    requires ts.Valid()
    ensures PlaysStream(s, messages, log, ts, WholeRun(s, messages, log, ts), m)
  {
    var user := UserMessage(s.tid, s.task, s.model);
    m := RestPlays(s, messages, 0, 1, log, ts, [user]);
    WithoutFirst(user, Rest(s, messages, 0, 1, log, ts, [user]).events);
  }

  lemma WithoutFirst<T>(a: T, s: seq<T>)
    ensures ([a] + s)[1..] == s
  {
  }

  // ----- What follows at each position -----

  /** The stage after `j` executed uses. */
  ghost function After(st: Stage, j: nat): Stage
    decreases j
  {
    if j > 0 && st.More() then After(st.Next(), j - 1) else st
  }

  /** Each of the executed uses is recorded and allowed where the run stands. */
  lemma {:induction false} PlaysAt(s: Setup, st: Stage, answer: string, exit: Exit, m: nat, j: nat)
    requires st.Plays(s, answer, exit, m) && j < m
    ensures After(st, j).More() && After(st, j).Executes(s)
    decreases m
  {
    if j > 0 {
      PlaysAt(s, st.Next(), answer, exit, m - 1, j - 1);
    }
  }

  /** Hence the `j`-th use of the stream meets events `2 * j` and `2 * j + 1`. */
  lemma {:induction false} AfterIs(s: Setup, st: Stage, answer: string, exit: Exit, m: nat, j: nat)
    requires st.Plays(s, answer, exit, m) && j <= m
    ensures j <= |st.uses| && 2 * j <= |st.es| && After(st, j).n == st.n + 2 * j
    ensures After(st, j).uses == st.uses[j..] && After(st, j).es == st.es[2 * j..]
    decreases m
  {
    if j > 0 {
      AfterIs(s, st.Next(), answer, exit, m - 1, j - 1);
      TailOfTail(st.uses, 1, j - 1);
      TailOfTail(st.es, 2, 2 * (j - 1));
    }
  }

  lemma TailOfTail<T>(s: seq<T>, i: nat, j: nat)
    requires i + j <= |s|
    ensures s[i..][j..] == s[i + j..]
  {
  }

  // ----- What the tools do next -----

  ghost function StateAt(ts: ToolState, uses: seq<Invocation>, j: nat): (r: ToolState)
    requires ts.Valid() && j <= |uses|
    ensures r.Valid()
    decreases j
  {
    if j == 0 then ts else StateAt(ts.After(uses[0]), uses[1..], j - 1)
  }

  /** The tools stand where the uses before have left them. */
  lemma {:induction false} AfterStands(s: Setup, st: Stage, answer: string, exit: Exit, m: nat, j: nat)
    requires st.ts.Valid() && st.Plays(s, answer, exit, m) && j <= m
    ensures j <= |st.uses| && After(st, j).ts == StateAt(st.ts, st.uses, j)
    decreases m
  {
    if j > 0 {
      AfterStands(s, st.Next(), answer, exit, m - 1, j - 1);
    }
  }

  /** Live tools answer each use by all uses so far, it included. */
  lemma {:induction false} LiveToolsSeeAll(behave: seq<Invocation> -> Outcome, history: seq<Invocation>,
                                           uses: seq<Invocation>, j: nat)
    requires j < |uses|
    ensures StateAt(LiveState(behave, history), uses, j).Next(uses[j]) == behave(history + uses[..j + 1])
    decreases j
  {
    if j == 0 {
      assert uses[..1] == [uses[0]];
    } else {
      LiveToolsSeeAll(behave, history + [uses[0]], uses[1..], j - 1);
      assert history + [uses[0]] + uses[1..][..j] == history + uses[..j + 1];
    }
  }

  function ToolNames(uses: seq<Invocation>): seq<string>
  {
    if uses == [] then [] else [uses[0].tool] + ToolNames(uses[1..])
  }

  /** Stubs answer the uses as their queues give them out. */
  lemma {:induction false} StubsGiveOut(queues: Queues, uses: seq<Invocation>, j: nat)
    requires HoldsResults(queues) && j < |uses|
    ensures j < |TakeAll(queues, ToolNames(uses)).0|
    ensures StateAt(StubState(queues), uses, j).Next(uses[j]) == TakeAll(queues, ToolNames(uses)).0[j]
    decreases j
  {
    assert ToolNames(uses)[1..] == ToolNames(uses[1..]);
    if j > 0 {
      StubsGiveOut(Take(queues, uses[0].tool).1, uses[1..], j - 1);
    }
  }

  // ----- Lengths and failures -----

  /** A run has two events for each executed use and at most one more, and answers when it executed all. */
  lemma {:induction false} PlaysLength(s: Setup, st: Stage, answer: string, exit: Exit, m: nat)
    requires st.Plays(s, answer, exit, m)
    ensures m <= |st.uses| && |st.es| == 2 * m + if exit == Invalid then 0 else 1
    ensures exit.Answered? <==> m == |st.uses|
    decreases m
  {
    if m > 0 {
      PlaysLength(s, st.Next(), answer, exit, m - 1);
    }
  }

  /** One of the first `m` executions raises. */
  ghost predicate SomeRaises(ts: ToolState, uses: seq<Invocation>, m: nat)
    requires ts.Valid() && m <= |uses|
    decreases m
  {
    m > 0 && (ts.Next(uses[0]).Raised? || SomeRaises(ts.After(uses[0]), uses[1..], m - 1))
  }

  lemma PairFails(call: Event, result: Event, es: seq<Event>)
    requires !call.ToolResult?
    ensures Heuristics.AnyFailed([call, result] + es) <==> Heuristics.Failed(result) || Heuristics.AnyFailed(es)
  {
    var all := [call, result] + es;
    assert forall i | 2 <= i < |all| :: all[i] == es[i - 2];
    if Heuristics.AnyFailed(es) {
      var i :| 0 <= i < |es| && Heuristics.Failed(es[i]);
      assert Heuristics.Failed(all[i + 2]);
    }
    assert all[1] == result;
  }

  lemma {:induction false} TailFailsIff(s: Setup, st: Stage, answer: string, exit: Exit, m: nat)
    requires st.ts.Valid() && m <= |st.uses| && st.Plays(s, answer, exit, m)
    ensures Heuristics.AnyFailed(st.es) <==> SomeRaises(st.ts, st.uses, m)
    decreases m
  {
    if m > 0 {
      TailFailsIff(s, st.Next(), answer, exit, m - 1);
      FirstFails(s, st);
    }
  }

  lemma FirstFails(s: Setup, st: Stage)
    requires st.More() && st.Executes(s)
    ensures Heuristics.AnyFailed(st.es) <==> st.ts.Next(st.uses[0]).Raised? || Heuristics.AnyFailed(st.Next().es)
  {
    FailedIff(st.es[1], s.tid, st.n + 1, s.callIds(st.n), st.uses[0].tool, st.ts.Next(st.uses[0]));
    PairFails(st.es[0], st.es[1], st.es[2..]);
    assert st.es == [st.es[0], st.es[1]] + st.es[2..];
  }

  /** The log of a run shows a failure exactly when some executed tool raised. */
  lemma StreamFailsIff(s: Setup, messages: seq<SdkMessage>, log: seq<HookCall>, ts: ToolState) returns (m: nat)
    requires ts.Valid()
    ensures PlaysStream(s, messages, log, ts, WholeRun(s, messages, log, ts), m)
    ensures m <= |Asked(messages, s.tools, s.maxMessages)|
    ensures Heuristics.AnyFailed(WholeRun(s, messages, log, ts).events)
            <==> SomeRaises(ts, Asked(messages, s.tools, s.maxMessages), m)
  {
    m := StreamRunIs(s, messages, log, ts);
    var r := WholeRun(s, messages, log, ts);
    var st, answer := Start(s, messages, log, ts, r), Spoken(messages, s.maxMessages, s.task);
    PlaysLength(s, st, answer, r.exit, m);
    FailsIffTail(r.events);
    TailFailsIff(s, st, answer, r.exit, m);
  }

  lemma FailsIffTail(es: seq<Event>)
    requires es != [] && !es[0].ToolResult?
    ensures Heuristics.AnyFailed(es) <==> Heuristics.AnyFailed(es[1..])
  {
    assert forall i | 1 <= i < |es| :: es[i] == es[1..][i - 1];
    if Heuristics.AnyFailed(es[1..]) {
      var i :| 0 <= i < |es[1..]| && Heuristics.Failed(es[1..][i]);
      assert Heuristics.Failed(es[i + 1]);
    }
  }

  // ----- The trace shown at the end -----

  /** The last hook call of a run that is not refused shows the whole record, with the answer or none. */
  ghost predicate ShowsRecord(s: Setup, done: seq<Event>, r: Run)
  {
    r.exit != Invalid ==>
      && r.hookCalls != [] && r.hookCalls[|r.hookCalls| - 1].SawFinal?
      && IsRecordOf(r.hookCalls[|r.hookCalls| - 1].trace, s.tid, s.taskId, s.model, s.prior + (done + r.events),
                    if r.exit.Answered? then r.exit.text else "")
  }

  lemma {:induction false} RestShowsRecord(s: Setup, messages: seq<SdkMessage>, seen: nat, n: nat, log: seq<HookCall>,
                                           ts: ToolState, done: seq<Event>)
    requires ts.Valid()
    ensures ShowsRecord(s, done, Rest(s, messages, seen, n, log, ts, done))
    decreases |messages|
  {
    if messages != [] && seen + 1 <= s.maxMessages && !messages[0].TextMessage? {
      if Skipped(s, messages[0]) {
        RestShowsRecord(s, messages[1..], seen + 1, n, log, ts, done);
      } else if ClaudeSdkProperties.Proceeds(s, messages[0], n, log) {
        var call, result := ProposedCall(s, messages[0], n), ItsResult(s, messages[0], n, ts);
        RestShowsRecord(s, messages[1..], seen + 1, n + 2, log + HookPair(call, result),
                        AfterCall(ts, Invocation(messages[0].name.value, messages[0].input)), done + [call, result]);
        Assoc(done, [call, result], ClaudeSdkProperties.AfterPair(s, messages, seen, n, log, ts, done).events);
      }
    }
  }

  /** The final-answer hook is shown the run's own identifiers, all events the adapter kept, and the answer. */
  lemma StreamRunShowsRecord(s: Setup, messages: seq<SdkMessage>, log: seq<HookCall>, ts: ToolState)
    requires ts.Valid()
    ensures ShowsRecord(s, [], WholeRun(s, messages, log, ts))
  {
    var user := UserMessage(s.tid, s.task, s.model);
    RestShowsRecord(s, messages, 0, 1, log, ts, [user]);
    assert [] + WholeRun(s, messages, log, ts).events == [user] + Rest(s, messages, 0, 1, log, ts, [user]).events;
  }
}
