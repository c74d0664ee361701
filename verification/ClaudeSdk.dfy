/**
  The message-driven adapter: consume the stream of an SDK client until a text, a denial or the cap.
 */
module ClaudeSdk {
  import opened Text
  import opened CanonicalJson
  import opened Events
  import opened StubRegistry
  import opened Runtime
  import opened TraceStore
  import opened Recording

  /** A message of the stream; anything but a tool use or a text is skipped. */
  datatype SdkMessage = ToolUse(name: Option<string>, input: Json) | TextMessage(text: string) | OtherKind

  /** What stays fixed during a run. */
  datatype Setup = Setup(
    sha: string -> nat,
    decide: seq<HookCall> -> bool,
    taskId: string,
    task: string,
    model: string,
    tools: seq<string>,
    tid: nat,
    callIds: nat -> nat,
    prior: seq<Event>,
    maxMessages: int)

  function CallAt(s: Setup, n: nat, tool: string, args: Json): Event
  {
    CallEvent(s.sha, s.tid, n, s.callIds(n), tool, args)
  }

  /** An empty text falls back to the echo. */
  function FinalTextOf(s: Setup, text: string): string
  {
    if text == "" then Echo(s.task) else text
  }

  function Finished(s: Setup, done: seq<Event>, n: nat, text: string): Run
  {
    var final := FinalMessage(s.tid, n, text, s.model);
    Run([final], [SawFinal(TraceRecord(s.tid, s.taskId, s.model, s.prior + (done + [final]), text))], Answered(text))
  }

  function Stopped(s: Setup, done: seq<Event>, call: Event): Run
  {
    Run([call], [SawCall(call), SawFinal(TraceRecord(s.tid, s.taskId, s.model, s.prior + (done + [call]), ""))], Denied)
  }

  /**
    What a run adds from here on: `seen` messages are consumed, `n` is the next sequence number,
    `log` is what the hooks were told, `ts` is the state of the tools, `done` what the run added.
   */
  ghost function Rest(s: Setup, messages: seq<SdkMessage>, seen: nat, n: nat, log: seq<HookCall>, ts: ToolState,
                      done: seq<Event>): Run
    requires ts.Valid()
    decreases |messages|
  {
    if messages == [] || seen + 1 > s.maxMessages then Finished(s, done, n, Echo(s.task))
    else
      var message := messages[0];
      if message.TextMessage? then Finished(s, done, n, FinalTextOf(s, message.text))
      else if Skipped(s, message) then Rest(s, messages[1..], seen + 1, n, log, ts, done)
      else
        var call := ProposedCall(s, message, n);
        if !Acceptable(call) then Run([], [], Invalid)
        else if !s.decide(log + [SawCall(call)]) then Stopped(s, done, call)
        else
          var result := ItsResult(s, message, n, ts);
          WithPair(call, result,
                 Rest(s, messages[1..], seen + 1, n + 2, log + HookPair(call, result),
                      AfterCall(ts, Invocation(message.name.value, message.input)), done + [call, result]))
  }

  /** Unknown kinds and tools that are not registered are passed over. */
  predicate Skipped(s: Setup, message: SdkMessage)
    requires !message.TextMessage?
  {
    message.OtherKind? || message.name.None? || message.name.value !in s.tools
  }

  function ProposedCall(s: Setup, message: SdkMessage, n: nat): (call: Event)
    requires !message.TextMessage? && !Skipped(s, message)
    ensures call.ToolCall?
  {
    CallAt(s, n, message.name.value, message.input)
  }

  ghost function ItsResult(s: Setup, message: SdkMessage, n: nat, ts: ToolState): (result: Event)
    requires !message.TextMessage? && !Skipped(s, message) && ts.Valid()
    ensures result.ToolResult?
  {
    ResultEvent(s.tid, n + 1, s.callIds(n), message.name.value, ts.Next(Invocation(message.name.value, message.input)))
  }

  function HookPair(call: Event, result: Event): seq<HookCall>
  {
    [SawCall(call), SawResult(call, result)]
  }

  /** A call and its result, followed by the rest. */
  function WithPair(call: Event, result: Event, rest: Run): Run
  {
    Run([call, result] + rest.events, HookPair(call, result) + rest.hookCalls, rest.exit)
  }

  ghost function AfterCall(ts: ToolState, call: Invocation): (after: ToolState)
    requires ts.Valid()
    ensures after.Valid()
  {
    ts.After(call)
  }

  /** A whole run: the user message, then whatever the stream brings. */
  ghost function WholeRun(s: Setup, messages: seq<SdkMessage>, log: seq<HookCall>, ts: ToolState): Run
    requires ts.Valid()
  {
    var user := UserMessage(s.tid, s.task, s.model);
    var rest := Rest(s, messages, 0, 1, log, ts, [user]);
    Run([user] + rest.events, rest.hookCalls, rest.exit)
  }

  class ClaudeSdkAdapter {
    const tools: seq<string>
    const toolbox: Toolbox
    const recorder: Recorder
    const task: string
    const model: string
    const maxMessages: int
    const sha: string -> nat

    constructor (tools: seq<string>, toolbox: Toolbox, recorder: Recorder, task: string, model: string,
                 maxMessages: int, sha: string -> nat)
      ensures this.tools == tools && this.toolbox == toolbox && this.recorder == recorder && this.task == task
      ensures this.model == model && this.maxMessages == maxMessages && this.sha == sha
    {
      this.tools, this.toolbox, this.recorder, this.task := tools, toolbox, recorder, task;
      this.model, this.maxMessages, this.sha := model, maxMessages, sha;
    }

    /** The setup of a run started now. */
    ghost function SetupOf(taskId: string, hooks: Hooks, tid: nat, callIds: nat -> nat, prior: seq<Event>): Setup
    {
      Setup(sha, hooks.decide, taskId, task, model, tools, tid, callIds, prior, maxMessages)
    }

    /** The run ended as the whole run says. */
    ghost predicate EndedAs(whole: Run, exit: Exit, hooks: Hooks, log0: seq<HookCall>, start: Start)
      reads recorder, recorder.writer, hooks
    {
      exit == whole.exit && hooks.log == log0 + whole.hookCalls && recorder.Wrote(whole.events, start)
    }

    method Run(taskId: string, hooks: Hooks, messages: seq<SdkMessage>, tid: nat, callIds: nat -> nat)
      returns (exit: Exit)
      requires NameOk(Strip(model))
      requires toolbox.state.Valid() && recorder.CanWrite(tid, 0)
      modifies recorder, recorder.writer, hooks`log, toolbox
      ensures var s := SetupOf(taskId, hooks, tid, callIds, old(recorder.events));
              var r := WholeRun(s, messages, old(hooks.log), old(toolbox.state));
              EndedAs(r, exit, hooks, old(hooks.log), old(recorder.Now()))
    {
      ghost var start, log0 := recorder.Now(), hooks.log;
      ghost var s := SetupOf(taskId, hooks, tid, callIds, recorder.events);
      ghost var whole := WholeRun(s, messages, hooks.log, toolbox.state);
      var user := Begin(tid, start);
      var stop, text, n, done, told := Consume(taskId, hooks, messages, tid, callIds, [user], whole, start);
      if stop.Some? {
        return stop.value;
      }
      exit := Conclude(taskId, hooks, tid, callIds, n, text, done, told, whole, log0, start);
    }

    /** The fallback for an empty text, and the final message. */
    method Conclude(taskId: string, hooks: Hooks, tid: nat, ghost callIds: nat -> nat, n: nat, text: string,
                    ghost done: seq<Event>, ghost told: seq<HookCall>, ghost whole: Run, ghost log0: seq<HookCall>,
                    ghost start: Start)
      returns (exit: Exit)
      requires NameOk(Strip(model)) && recorder.CanWrite(tid, n) && recorder.Wrote(done, start)
               && hooks.log == log0 + told
      requires Continues(whole, done, told, Finished(SetupOf(taskId, hooks, tid, callIds, start.events), done, n,
                                                     if text == "" then Echo(task) else text))
      modifies recorder, recorder.writer, hooks`log
      ensures EndedAs(whole, exit, hooks, log0, start)
    {
      var answer := if text == "" then Echo(task) else text;
      Finish(taskId, hooks, tid, n, answer, done, start);
      return Answered(answer);
    }

    /** Record the user message. */
    method Begin(tid: nat, ghost start: Start) returns (user: Event)
      requires NameOk(Strip(model)) && recorder.CanWrite(tid, 0) && start == recorder.Now()
      modifies recorder, recorder.writer
      ensures user == UserMessage(tid, task, model)
      ensures recorder.CanWrite(tid, 1) && recorder.Wrote([user], start)
    {
      user := UserMessage(tid, task, model);
      MessagesAreWellFormed(tid, 0, User, task, model);
      recorder.WriteEvent(user, [], [user], start);
    }

    /** The message loop; it stops the run, or leaves it to be finished with a text. */
    method Consume(taskId: string, hooks: Hooks, messages: seq<SdkMessage>, tid: nat, callIds: nat -> nat,
                   ghost begun: seq<Event>, ghost whole: Run, ghost start: Start)
      returns (stop: Option<Exit>, text: string, n: nat, ghost done: seq<Event>, ghost told: seq<HookCall>)
      requires toolbox.state.Valid() && recorder.CanWrite(tid, 1) && recorder.Wrote(begun, start)
      requires Continues(whole, begun, [],
                         Rest(SetupOf(taskId, hooks, tid, callIds, start.events), messages, 0, 1, hooks.log,
                              toolbox.state, begun))
      modifies recorder, recorder.writer, hooks`log, toolbox
      ensures stop.Some? ==> EndedAs(whole, stop.value, hooks, old(hooks.log), start)
      ensures stop.None? ==>
                && recorder.CanWrite(tid, n) && recorder.Wrote(done, start) && hooks.log == old(hooks.log) + told
                && Continues(whole, done, told,
                             Finished(SetupOf(taskId, hooks, tid, callIds, start.events), done, n,
                                      if text == "" then Echo(task) else text))
    {
      ghost var s := SetupOf(taskId, hooks, tid, callIds, start.events);
      ghost var log0 := hooks.log;
      done, told := begun, [];
      n := 1;
      text := Echo(task);
      var seen := 0;
      assert log0 + told == log0;
      while seen < |messages|
        invariant 0 <= seen <= |messages| && text == Echo(task)
        invariant toolbox.state.Valid() && recorder.CanWrite(tid, n)
        invariant recorder.Wrote(done, start) && hooks.log == log0 + told
        invariant Continues(whole, done, told, Rest(s, messages[seen..], seen, n, log0 + told, toolbox.state, done))
      {
        var message := messages[seen];
        ghost var rest := messages[seen..];
        assert rest[0] == message && rest[1..] == messages[seen + 1..];
        seen := seen + 1;
        if seen > maxMessages {
          break;
        }
        if message.TextMessage? {
          text := message.text;
          break;
        }
        if message.ToolUse? && message.name.Some? && message.name.value in tools {
          ghost var call, result := ProposedCall(s, message, n), ItsResult(s, message, n, toolbox.state);
          stop := HandleToolUse(message.name.value, message.input, taskId, hooks, tid, callIds, n, done, start);
          if stop.Some? {
            assert done + [] == done && told + [] == told;
            return;
          }
          assert log0 + told + HookPair(call, result) == log0 + (told + HookPair(call, result));
          PairMoves(whole, done, told, call, result,
                    Rest(s, messages[seen..], seen, n + 2, log0 + (told + HookPair(call, result)),
                         toolbox.state, done + [call, result]));
          done := done + [call, result];
          told := told + HookPair(call, result);
          n := n + 2;
        }
      }
      stop := None;
    }

    /** One proposed call: record it, ask the hook, and if it is allowed invoke the tool. */
    method HandleToolUse(tool: string, input: Json, taskId: string, hooks: Hooks, tid: nat, callIds: nat -> nat, n: nat,
                         ghost done: seq<Event>, ghost start: Start)
      returns (stop: Option<Exit>)
      requires toolbox.state.Valid() && recorder.CanWrite(tid, n) && recorder.Wrote(done, start)
      modifies recorder, recorder.writer, hooks`log, toolbox
      ensures toolbox.state.Valid()
      ensures var s := SetupOf(taskId, hooks, tid, callIds, start.events);
              var call := CallAt(s, n, tool, input);
              if !Acceptable(call) then
                stop == Some(Invalid) && hooks.log == old(hooks.log) && recorder.Wrote(done, start)
              else if !hooks.decide(old(hooks.log) + [SawCall(call)]) then
                && stop == Some(Denied)
                && hooks.log == old(hooks.log) + Stopped(s, done, call).hookCalls
                && recorder.Wrote(done + [call], start)
              else
                var o := old(toolbox.state.Next(Invocation(tool, input)));
                var result := ResultEvent(tid, n + 1, callIds(n), tool, o);
                && stop == None
                && toolbox.state == old(toolbox.state).After(Invocation(tool, input))
                && hooks.log == old(hooks.log) + HookPair(call, result)
                && recorder.Wrote(done + [call, result], start) && recorder.CanWrite(tid, n + 2)
    {
      var call := CallEvent(sha, tid, n, callIds(n), tool, input);
      if !Acceptable(call) {
        return Some(Invalid);
      }
      ValidateIsIdempotent(ToolCall(tid, n, callIds(n), tool, input, ArgsDigest(sha, input)));
      recorder.WriteEvent(call, done, done + [call], start);
      var allow := hooks.OnToolCall(call);
      if !allow {
        hooks.OnFinalAnswer(TraceRecord(tid, taskId, model, recorder.events, ""));
        return Some(Denied);
      }
      Execute(tool, input, call, hooks, tid, callIds(n), n, done, start);
      return None;
    }

    method Execute(tool: string, input: Json, call: Event, hooks: Hooks, tid: nat, callId: nat, n: nat,
                   ghost done: seq<Event>, ghost start: Start)
      requires NameOk(Strip(tool)) && toolbox.state.Valid()
      requires recorder.CanWrite(tid, n + 1) && recorder.Wrote(done + [call], start)
      modifies recorder, recorder.writer, hooks`log, toolbox
      ensures var result := ResultEvent(tid, n + 1, callId, tool, old(toolbox.state.Next(Invocation(tool, input))));
              && toolbox.state == AfterCall(old(toolbox.state), Invocation(tool, input))
              && hooks.log == old(hooks.log) + [SawResult(call, result)]
              && recorder.Wrote(done + [call, result], start) && recorder.CanWrite(tid, n + 2)
    {
      var output := toolbox.Invoke(Invocation(tool, input));
      var result := ResultEvent(tid, n + 1, callId, tool, output);
      ResultIsWellFormed(tid, n + 1, callId, tool, output);
      recorder.WriteEvent(result, done + [call], done + [call, result], start);
      hooks.OnToolResult(call, result);
    }

    method Finish(taskId: string, hooks: Hooks, tid: nat, n: nat, text: string, ghost done: seq<Event>,
                  ghost start: Start)
      requires NameOk(Strip(model)) && recorder.CanWrite(tid, n) && recorder.Wrote(done, start)
      modifies recorder, recorder.writer, hooks`log
      ensures var final := FinalMessage(tid, n, text, model);
              && recorder.Wrote(done + [final], start)
              && hooks.log == old(hooks.log) +
                 [SawFinal(TraceRecord(tid, taskId, model, start.events + (done + [final]), text))]
    {
      var final := FinalMessage(tid, n, text, model);
      MessagesAreWellFormed(tid, n, Assistant, text, model);
      recorder.WriteEvent(final, done, done + [final], start);
      hooks.OnFinalAnswer(TraceRecord(tid, taskId, model, recorder.events, text));
    }
  }

  /** What was done so far, followed by the rest, is the whole run. */
  ghost predicate Continues(whole: Run, done: seq<Event>, told: seq<HookCall>, rest: Run)
  {
    whole == Run(done + rest.events, told + rest.hookCalls, rest.exit)
  }

  lemma PairMoves(whole: Run, done: seq<Event>, told: seq<HookCall>, call: Event, result: Event, rest: Run)
    requires Continues(whole, done, told, WithPair(call, result, rest))
    ensures Continues(whole, done + [call, result], told + HookPair(call, result), rest)
  {
    assert done + ([call, result] + rest.events) == done + [call, result] + rest.events;
    assert told + (HookPair(call, result) + rest.hookCalls) == told + HookPair(call, result) + rest.hookCalls;
  }
}
