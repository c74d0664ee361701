/**
  The LangGraph adapter: a separate class with a run of its own, which comes to the reference loop's.
 */
module LangGraph {
  import opened Text
  import opened CanonicalJson
  import opened Events
  import opened StubRegistry
  import opened Runtime
  import opened TraceStore
  import opened Recording
  import RawLoop

  class LangGraphAdapter {
    const tools: seq<string>
    const toolbox: Toolbox
    const recorder: Recorder
    const task: string
    const graphName: string
    const sha: string -> nat
    const render: Json -> string

    constructor (tools: seq<string>, toolbox: Toolbox, recorder: Recorder, task: string, graphName: string,
                 sha: string -> nat, render: Json -> string)
      ensures this.tools == tools && this.toolbox == toolbox && this.recorder == recorder && this.task == task
      ensures this.graphName == graphName && this.sha == sha && this.render == render
    {
      this.tools, this.toolbox, this.recorder, this.task := tools, toolbox, recorder, task;
      this.graphName, this.sha, this.render := graphName, sha, render;
    }

    ghost function SetupOf(taskId: string, tid: nat, callId: nat, prior: seq<Event>): RawLoop.Setup
    {
      RawLoop.Setup(taskId, task, tools, tid, callId, prior)
    }

    /** The run ended as `r` says. */
    ghost predicate EndedAs(r: Run, exit: Exit, hooks: Hooks, told: seq<HookCall>, start: Start)
      reads recorder, recorder.writer, hooks
    {
      exit == r.exit && hooks.log == told + r.hookCalls && recorder.Wrote(r.events, start)
    }

    /** For every hook and every tool, the run is the reference loop's. */
    method Run(taskId: string, hooks: Hooks, tid: nat, callId: nat) returns (exit: Exit)
      requires toolbox.state.Valid() && recorder.CanWrite(tid, 0)
      modifies recorder, recorder.writer, hooks`log, toolbox
      ensures var s := SetupOf(taskId, tid, callId, old(recorder.events));
              var allow := tools != [] && hooks.decide(old(hooks.log) + [SawCall(RawLoop.FirstCall(sha, s))]);
              var o := if tools == [] then Returned(Null)
                       else old(toolbox.state).Next(Invocation(tools[0], RawLoop.TextArgs(task)));
              EndedAs(RawLoop.RawLoopRun(sha, render, s, allow, o), exit, hooks, old(hooks.log), old(recorder.Now()))
    {
      ghost var start := recorder.Now();
      var user := UserMessage(tid, task, RawLoop.MODEL_ID);
      MessagesAreWellFormed(tid, 0, User, task, RawLoop.MODEL_ID);
      recorder.WriteEvent(user, [], [user], start);
      if tools == [] {
        var answer := Echo(task);
        Conclude(taskId, hooks, tid, 1, answer, [user], [user, FinalMessage(tid, 1, answer, RawLoop.MODEL_ID)], start);
        return Answered(answer);
      }
      exit := UseFirstTool(taskId, hooks, tid, callId, user, start);
    }

    /** The call of the first tool, its denial, or its result and the answer. */
    method UseFirstTool(taskId: string, hooks: Hooks, tid: nat, callId: nat, ghost user: Event, ghost start: Start)
      returns (exit: Exit)
      requires tools != [] && toolbox.state.Valid() && recorder.CanWrite(tid, 1) && recorder.Wrote([user], start)
      modifies recorder, recorder.writer, hooks`log, toolbox
      ensures var s := SetupOf(taskId, tid, callId, start.events);
              var call := RawLoop.FirstCall(sha, s);
              var r :=
                if !Acceptable(call) then RawLoop.RefusedRun(user)
                else if !hooks.decide(old(hooks.log) + [SawCall(call)]) then RawLoop.DeniedRun(s, user, call)
                else RawLoop.AllowedRun(render, s, user, call,
                                        old(toolbox.state).Next(Invocation(tools[0], RawLoop.TextArgs(task))));
              EndedAs(r, exit, hooks, old(hooks.log), start)
    {
      var call := CallEvent(sha, tid, 1, callId, tools[0], RawLoop.TextArgs(task));
      if !Acceptable(call) {
        return Invalid;
      }
      ValidateIsIdempotent(ToolCall(tid, 1, callId, tools[0], RawLoop.TextArgs(task),
          ArgsDigest(sha, RawLoop.TextArgs(task))));
      recorder.WriteEvent(call, [user], [user, call], start);
      var allow := hooks.OnToolCall(call);
      if !allow {
        exit := Deny(taskId, hooks, tid, callId, user, call, start, old(hooks.log));
        return;
      }
      exit := Answer(taskId, hooks, tid, callId, user, call, start, old(hooks.log));
    }

    /** A denied call leaves only the final-answer hook. */
    method Deny(taskId: string, hooks: Hooks, tid: nat, ghost callId: nat, ghost user: Event, ghost call: Event,
                ghost start: Start, ghost told: seq<HookCall>)
      returns (exit: Exit)
      requires hooks.log == told + [SawCall(call)] && recorder.Wrote([user, call], start)
      modifies hooks`log
      ensures EndedAs(RawLoop.DeniedRun(SetupOf(taskId, tid, callId, start.events), user, call), exit, hooks, told,
                      start)
    {
      hooks.OnFinalAnswer(TraceRecord(tid, taskId, RawLoop.MODEL_ID, recorder.events, ""));
      return Denied;
    }

    /** Invoke the tool, record and show its result, and answer with its text. */
    method Answer(taskId: string, hooks: Hooks, tid: nat, callId: nat, ghost user: Event, call: Event,
                  ghost start: Start, ghost told: seq<HookCall>)
      returns (exit: Exit)
      requires tools != [] && NameOk(Strip(tools[0])) && hooks.log == told + [SawCall(call)]
      requires toolbox.state.Valid() && recorder.CanWrite(tid, 2) && recorder.Wrote([user, call], start)
      modifies recorder, recorder.writer, hooks`log, toolbox
      ensures var o := old(toolbox.state).Next(Invocation(tools[0], RawLoop.TextArgs(task)));
              EndedAs(RawLoop.AllowedRun(render, SetupOf(taskId, tid, callId, start.events), user, call, o), exit,
                      hooks, told, start)
    {
      ghost var o := toolbox.state.Next(Invocation(tools[0], RawLoop.TextArgs(task)));
      ghost var result := ResultEvent(tid, 2, callId, tools[0], o);
      var output := Invoke(hooks, tid, callId, call, [user, call], [user, call, result], start);
      var text := Echo(task) + "::" + OutputText(render, output);
      Conclude(taskId, hooks, tid, 3, text, [user, call, result],
               [user, call, result, FinalMessage(tid, 3, text, RawLoop.MODEL_ID)], start);
      return Answered(text);
    }

    /** Invoke the tool, record its result and show it to the hook. */
    method Invoke(hooks: Hooks, tid: nat, callId: nat, call: Event, ghost done: seq<Event>, ghost after: seq<Event>,
                  ghost start: Start)
      returns (output: Outcome)
      requires tools != [] && NameOk(Strip(tools[0]))
      requires toolbox.state.Valid() && recorder.CanWrite(tid, 2) && recorder.Wrote(done, start)
      requires var o := toolbox.state.Next(Invocation(tools[0], RawLoop.TextArgs(task)));
               after == done + [ResultEvent(tid, 2, callId, tools[0], o)]
      modifies recorder, recorder.writer, hooks`log, toolbox
      ensures output == old(toolbox.state).Next(Invocation(tools[0], RawLoop.TextArgs(task)))
      ensures hooks.log == old(hooks.log) + [SawResult(call, ResultEvent(tid, 2, callId, tools[0], output))]
      ensures recorder.CanWrite(tid, 3) && recorder.Wrote(after, start)
    {
      output := toolbox.Invoke(Invocation(tools[0], RawLoop.TextArgs(task)));
      var result := ResultEvent(tid, 2, callId, tools[0], output);
      ResultIsWellFormed(tid, 2, callId, tools[0], output);
      recorder.WriteEvent(result, done, after, start);
      hooks.OnToolResult(call, result);
    }

    /** The final assistant message and the final-answer hook. */
    method Conclude(taskId: string, hooks: Hooks, tid: nat, n: nat, text: string, ghost done: seq<Event>,
                    ghost after: seq<Event>, ghost start: Start)
      requires recorder.CanWrite(tid, n) && recorder.Wrote(done, start)
      requires after == done + [FinalMessage(tid, n, text, RawLoop.MODEL_ID)]
      modifies recorder, recorder.writer, hooks`log
      ensures recorder.Wrote(after, start)
      ensures hooks.log
              == old(hooks.log) + [SawFinal(TraceRecord(tid, taskId, RawLoop.MODEL_ID, start.events + after, text))]
    {
      var final := FinalMessage(tid, n, text, RawLoop.MODEL_ID);
      MessagesAreWellFormed(tid, n, Assistant, text, RawLoop.MODEL_ID);
      recorder.WriteEvent(final, done, after, start);
      hooks.OnFinalAnswer(TraceRecord(tid, taskId, RawLoop.MODEL_ID, recorder.events, text));
    }
  }
}
