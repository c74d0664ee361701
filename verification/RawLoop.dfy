/**
  The reference tool loop: one tool call, then a final answer.

  `RawLoopRun` says what a run comes to.  `LangGraphAdapter` is proved to come to the same, so what is
  proved of `RawLoopRun` holds of both adapters.
 */
module RawLoop {
  import opened Text
  import opened CanonicalJson
  import opened Events
  import opened StubRegistry
  import opened Runtime
  import opened TraceStore
  import opened Recording

  const MODEL_ID := "echo-1"

  /** What a run is started with: texts, tool names, fresh identifiers and earlier events. */
  datatype Setup = Setup(taskId: string, task: string, tools: seq<string>, tid: nat, callId: nat, prior: seq<Event>)

  function TextArgs(task: string): Json
  {
    Obj([Member("text", Str(task))])
  }

  function FirstCall(sha: string -> nat, s: Setup): Event
    requires s.tools != []
  {
    CallEvent(sha, s.tid, 1, s.callId, s.tools[0], TextArgs(s.task))
  }

  /** The loop's own key has no whitespace around it, so validation leaves the arguments alone. */
  lemma TextArgsStay(task: string)
    ensures CleanArgs(TextArgs(task)) == TextArgs(task)
  {
    CleanMembersKeeps([Member("text", Str(task))]);
  }

  function FinalText(render: Json -> string, task: string, o: Outcome): string
  {
    Echo(task) + "::" + OutputText(render, o)
  }

  /** The run as a function of the hook's decision and of what the tool does. */
  function RawLoopRun(sha: string -> nat, render: Json -> string, s: Setup, allow: bool, o: Outcome): Run
  {
    var user := UserMessage(s.tid, s.task, MODEL_ID);
    if s.tools == [] then
      var events := [user, FinalMessage(s.tid, 1, Echo(s.task), MODEL_ID)];
      Run(events, [SawFinal(TraceRecord(s.tid, s.taskId, MODEL_ID, s.prior + events, Echo(s.task)))],
          Answered(Echo(s.task)))
    else
      var call := FirstCall(sha, s);
      if !Acceptable(call) then RefusedRun(user)
      else if !allow then DeniedRun(s, user, call)
      else AllowedRun(render, s, user, call, o)
  }

  /** A call that no event can carry ends the run with an error. */
  function RefusedRun(user: Event): Run
  {
    Run([user], [], Invalid)
  }

  /** A denied call ends the run with an empty answer. */
  function DeniedRun(s: Setup, user: Event, call: Event): Run
  {
    Run([user, call],
        [SawCall(call), SawFinal(TraceRecord(s.tid, s.taskId, MODEL_ID, s.prior + [user, call], ""))],
        Denied)
  }

  /** An allowed call is answered by the tool's text. */
  function AllowedRun(render: Json -> string, s: Setup, user: Event, call: Event, o: Outcome): Run
    requires s.tools != []
  {
    var result := ResultEvent(s.tid, 2, s.callId, s.tools[0], o);
    var text := FinalText(render, s.task, o);
    var events := [user, call, result, FinalMessage(s.tid, 3, text, MODEL_ID)];
    Run(events,
        [SawCall(call), SawResult(call, result),
         SawFinal(TraceRecord(s.tid, s.taskId, MODEL_ID, s.prior + events, text))],
        Answered(text))
  }

  lemma FourOf(tid: nat, a: Event, b: Event, c: Event, d: Event)
    requires a.traceId == b.traceId == c.traceId == d.traceId == tid
    ensures AllOf([a, b], tid) && AllOf([a, b, c, d], tid)
  {
  }

  lemma RunIsOfItsTrace(sha: string -> nat, render: Json -> string, s: Setup, allow: bool, o: Outcome)
    ensures AllOf(RawLoopRun(sha, render, s, allow, o).events, s.tid)
  {
    var u := UserMessage(s.tid, s.task, MODEL_ID);
    if s.tools == [] {
      var f := FinalMessage(s.tid, 1, Echo(s.task), MODEL_ID);
      FourOf(s.tid, u, f, u, f);
    } else {
      FourOf(s.tid, u, FirstCall(sha, s), ResultEvent(s.tid, 2, s.callId, s.tools[0], o),
             FinalMessage(s.tid, 3, FinalText(render, s.task, o), MODEL_ID));
    }
  }

  /**
    The trace that a run shows at its end holds everything that the adapter kept, and so events of another
    trace exactly when it kept some before this run.
   */
  lemma ShowsOtherTracesIff(sha: string -> nat, render: Json -> string, s: Setup, allow: bool, o: Outcome)
    requires RawLoopRun(sha, render, s, allow, o).exit != Invalid
    ensures var r := RawLoopRun(sha, render, s, allow, o);
            && ShownAtEnd(r, s.prior + r.events)
            && (HoldsOther(s.prior + r.events, s.tid) <==> HoldsOther(s.prior, s.tid))
  {
    RunIsOfItsTrace(sha, render, s, allow, o);
    OnlyOwn(s.prior, RawLoopRun(sha, render, s, allow, o).events, s.tid);
  }

  /** From its second run on, under a fresh identifier, an adapter shows events of another trace. */
  lemma SecondRunShowsFirst(sha: string -> nat, render: Json -> string, first: Setup, allow: bool, o: Outcome,
                            s: Setup, allow': bool, o': Outcome)
    requires s.prior == first.prior + RawLoopRun(sha, render, first, allow, o).events && first.tid != s.tid
    requires RawLoopRun(sha, render, s, allow', o').exit != Invalid
    ensures var r := RawLoopRun(sha, render, s, allow', o');
            ShownAtEnd(r, s.prior + r.events) && HoldsOther(s.prior + r.events, s.tid)
  {
    EarlierRunIsOther(first.prior, RawLoopRun(sha, render, first, allow, o).events, first.tid, s.tid);
    ShowsOtherTracesIff(sha, render, s, allow', o');
  }

  class RawLoopAdapter {
    const tools: seq<string>
    const toolbox: Toolbox
    const recorder: Recorder
    const task: string
    const sha: string -> nat
    const render: Json -> string

    constructor (tools: seq<string>, toolbox: Toolbox, recorder: Recorder, task: string,
                 sha: string -> nat, render: Json -> string)
      ensures this.tools == tools && this.toolbox == toolbox && this.recorder == recorder && this.task == task
      ensures this.sha == sha && this.render == render
    {
      this.tools, this.toolbox, this.recorder, this.task := tools, toolbox, recorder, task;
      this.sha, this.render := sha, render;
    }

    /** What a run started now will be told, and hence what it will do. */
    ghost function Expected(s: Setup, hooks: Hooks): Run
      requires toolbox.state.Valid()
      reads hooks, toolbox
    {
      RawLoopRun(sha, render, s,
                 s.tools != [] && hooks.decide(hooks.log + [SawCall(FirstCall(sha, s))]),
                 if s.tools == [] then Returned(Null) else toolbox.state.Next(Invocation(s.tools[0], TextArgs(s.task))))
    }

    /** The run ended as `r` says. */
    ghost predicate EndedAs(r: Run, exit: Exit, hooks: Hooks, told: seq<HookCall>, start: Start)
      reads recorder, recorder.writer, hooks
    {
      exit == r.exit && hooks.log == told + r.hookCalls && recorder.Wrote(r.events, start)
    }

    method Run(taskId: string, hooks: Hooks, tid: nat, callId: nat) returns (exit: Exit)
      requires toolbox.state.Valid() && recorder.CanWrite(tid, 0)
      modifies recorder, recorder.writer, hooks`log, toolbox
      ensures EndedAs(old(Expected(Setup(taskId, task, tools, tid, callId, recorder.events), hooks)), exit, hooks,
                      old(hooks.log), old(recorder.Now()))
    {
      ghost var start := recorder.Now();
      var user := Begin(tid, start);
      if tools == [] {
        exit := Finish(taskId, hooks, tid, 1, Echo(task), [user],
                       [user, FinalMessage(tid, 1, Echo(task), MODEL_ID)], start);
        return;
      }
      exit := CallTool(taskId, hooks, tid, callId, user, start);
    }

    /** Record the user message. */
    method Begin(tid: nat, ghost start: Start) returns (user: Event)
      requires recorder.CanWrite(tid, 0) && start == recorder.Now()
      modifies recorder, recorder.writer
      ensures user == UserMessage(tid, task, MODEL_ID)
      ensures recorder.CanWrite(tid, 1) && recorder.Wrote([user], start)
    {
      user := UserMessage(tid, task, MODEL_ID);
      MessagesAreWellFormed(tid, 0, User, task, MODEL_ID);
      recorder.WriteEvent(user, [], [user], start);
    }

    /** Propose the call to the hook; a denial ends the run with an empty answer. */
    method CallTool(taskId: string, hooks: Hooks, tid: nat, callId: nat, ghost user: Event, ghost start: Start)
      returns (exit: Exit)
      requires tools != [] && toolbox.state.Valid() && recorder.CanWrite(tid, 1) && recorder.Wrote([user], start)
      modifies recorder, recorder.writer, hooks`log, toolbox
      ensures var s := Setup(taskId, task, tools, tid, callId, start.events);
              var call := FirstCall(sha, s);
              var r :=
                if !Acceptable(call) then RefusedRun(user)
                else if !hooks.decide(old(hooks.log) + [SawCall(call)]) then DeniedRun(s, user, call)
                else AllowedRun(render, s, user, call, old(toolbox.state.Next(Invocation(tools[0], TextArgs(task)))));
              EndedAs(r, exit, hooks, old(hooks.log), start)
    {
      var call := CallEvent(sha, tid, 1, callId, tools[0], TextArgs(task));
      if !Acceptable(call) {
        return Invalid;
      }
      ValidateIsIdempotent(ToolCall(tid, 1, callId, tools[0], TextArgs(task), ArgsDigest(sha, TextArgs(task))));
      var allow := Propose(call, hooks, [user], [user, call], start);
      if !allow {
        exit := Stop(taskId, hooks, tid, callId, user, call, start, old(hooks.log));
        return;
      }
      exit := Execute(taskId, hooks, tid, callId, user, call, start, old(hooks.log));
    }

    method Propose(call: Event, hooks: Hooks, ghost done: seq<Event>, ghost after: seq<Event>, ghost start: Start)
      returns (allow: bool)
      requires WellFormed(call) && recorder.CanWrite(call.traceId, call.seqNo)
      requires recorder.Wrote(done, start) && after == done + [call]
      modifies recorder, recorder.writer, hooks`log
      ensures hooks.log == old(hooks.log) + [SawCall(call)] && allow == hooks.decide(hooks.log)
      ensures recorder.CanWrite(call.traceId, call.seqNo + 1) && recorder.Wrote(after, start)
    {
      recorder.WriteEvent(call, done, after, start);
      allow := hooks.OnToolCall(call);
    }

    /** The denied run: no result, and the final-answer hook. */
    method Stop(taskId: string, hooks: Hooks, tid: nat, ghost callId: nat, ghost user: Event, ghost call: Event,
                ghost start: Start, ghost told: seq<HookCall>)
      returns (exit: Exit)
      requires hooks.log == told + [SawCall(call)] && recorder.Wrote([user, call], start)
      modifies hooks`log
      ensures EndedAs(DeniedRun(Setup(taskId, task, tools, tid, callId, start.events), user, call), exit, hooks,
                      told, start)
    {
      hooks.OnFinalAnswer(TraceRecord(tid, taskId, MODEL_ID, recorder.events, ""));
      return Denied;
    }

    /** The allowed call: invoke the tool, record what it did, and answer. */
    method Execute(taskId: string, hooks: Hooks, tid: nat, callId: nat, ghost user: Event, call: Event,
                   ghost start: Start, ghost told: seq<HookCall>)
      returns (exit: Exit)
      requires tools != [] && NameOk(Strip(tools[0])) && hooks.log == told + [SawCall(call)]
      requires toolbox.state.Valid() && recorder.CanWrite(tid, 2) && recorder.Wrote([user, call], start)
      modifies recorder, recorder.writer, hooks`log, toolbox
      ensures var o := old(toolbox.state.Next(Invocation(tools[0], TextArgs(task))));
              EndedAs(AllowedRun(render, Setup(taskId, task, tools, tid, callId, start.events), user, call, o), exit,
                      hooks, told, start)
    {
      var output := Invoke(hooks, tid, callId, call, [user, call], start);
      ghost var result := ResultEvent(tid, 2, callId, tools[0], output);
      assert [user, call] + [result] == [user, call, result];
      var text := Echo(task) + "::" + OutputText(render, output);
      exit := Finish(taskId, hooks, tid, 3, text, [user, call, result],
                     [user, call, result, FinalMessage(tid, 3, text, MODEL_ID)], start);
    }

    /** Invoke the tool, record its result and show it to the hook. */
    method Invoke(hooks: Hooks, tid: nat, callId: nat, call: Event, ghost done: seq<Event>, ghost start: Start)
      returns (output: Outcome)
      requires tools != [] && NameOk(Strip(tools[0]))
      requires toolbox.state.Valid() && recorder.CanWrite(tid, 2) && recorder.Wrote(done, start)
      modifies recorder, recorder.writer, hooks`log, toolbox
      ensures output == old(toolbox.state.Next(Invocation(tools[0], TextArgs(task))))
      ensures var result := ResultEvent(tid, 2, callId, tools[0], output);
              && hooks.log == old(hooks.log) + [SawResult(call, result)]
              && recorder.CanWrite(tid, 3) && recorder.Wrote(done + [result], start)
    {
      output := toolbox.Invoke(Invocation(tools[0], TextArgs(task)));
      var result := ResultEvent(tid, 2, callId, tools[0], output);
      ResultIsWellFormed(tid, 2, callId, tools[0], output);
      recorder.WriteEvent(result, done, done + [result], start);
      hooks.OnToolResult(call, result);
    }

    /** The final assistant message and the final-answer hook. */
    method Finish(taskId: string, hooks: Hooks, tid: nat, n: nat, text: string,
                  ghost done: seq<Event>, ghost after: seq<Event>, ghost start: Start)
      returns (exit: Exit)
      requires recorder.CanWrite(tid, n) && recorder.Wrote(done, start)
      requires after == done + [FinalMessage(tid, n, text, MODEL_ID)]
      modifies recorder, recorder.writer, hooks`log
      ensures exit == Answered(text)
      ensures recorder.Wrote(after, start)
      ensures hooks.log == old(hooks.log) + [SawFinal(TraceRecord(tid, taskId, MODEL_ID, start.events + after, text))]
    {
      var final := FinalMessage(tid, n, text, MODEL_ID);
      MessagesAreWellFormed(tid, n, Assistant, text, MODEL_ID);
      recorder.WriteEvent(final, done, after, start);
      hooks.OnFinalAnswer(TraceRecord(tid, taskId, MODEL_ID, recorder.events, text));
      return Answered(text);
    }
  }
}
