/**
  What every adapter is given: runtime hooks and registered tools.

  Hooks and live tools are arbitrary objects in the program.  Here their answers are an arbitrary
  function of everything they have been told so far, which covers every deterministic object and,
  as the function is arbitrary, every sequence of answers that any other object could give.
 */
module Runtime {
  import opened Text
  import opened CanonicalJson
  import opened Events
  import opened StubRegistry

  datatype HookCall =
    | SawCall(call: Event)
    | SawResult(call: Event, result: Event)
    | SawFinal(trace: Trace)

  class Hooks {
    var log: seq<HookCall>
    const decide: seq<HookCall> -> bool

    constructor (decide: seq<HookCall> -> bool)
      ensures log == [] && this.decide == decide
    {
      this.log := [];
      this.decide := decide;
    }

    method OnToolCall(call: Event) returns (allow: bool)
      modifies this`log
      ensures log == old(log) + [SawCall(call)] && allow == decide(log)
    {
      log := log + [SawCall(call)];
      allow := decide(log);
    }

    method OnToolResult(call: Event, result: Event)
      modifies this`log
      ensures log == old(log) + [SawResult(call, result)]
    {
      log := log + [SawResult(call, result)];
    }

    method OnFinalAnswer(trace: Trace)
      modifies this`log
      ensures log == old(log) + [SawFinal(trace)]
    {
      log := log + [SawFinal(trace)];
    }
  }

  datatype Invocation = Invocation(tool: string, args: Json)

  /** What the tools will do next: as their history says, or as the recorded results say. */
  datatype ToolState =
    | LiveState(behave: seq<Invocation> -> Outcome, history: seq<Invocation>)
    | StubState(queues: Queues)
  {
    ghost predicate Valid()
    {
      StubState? ==> HoldsResults(queues)
    }

    ghost function Next(call: Invocation): Outcome
      requires Valid()
    {
      match this
      case LiveState(behave, history) => behave(history + [call])
      case StubState(queues) => Take(queues, call.tool).0
    }

    ghost function After(call: Invocation): ToolState
      requires Valid()
    {
      match this
      case LiveState(behave, history) => LiveState(behave, history + [call])
      case StubState(queues) => StubState(Take(queues, call.tool).1)
    }
  }

  /** The callables behind an adapter's tool names, with the state they share. */
  class Toolbox {
    var state: ToolState

    constructor (state: ToolState)
      ensures this.state == state
    {
      this.state := state;
    }

    method Invoke(call: Invocation) returns (o: Outcome)
      requires state.Valid()
      modifies this
      ensures o == old(state).Next(call) && state == old(state).After(call)
    {
      match state
      case LiveState(behave, history) =>
        state := LiveState(behave, history + [call]);
        o := behave(history + [call]);
      case StubState(queues) =>
        if Queue(queues, call.tool) == [] {
          return Raised("ReplayedToolError", "no recorded result left for tool " + call.tool);
        }
        var recorded := queues[call.tool][0];
        state := StubState(queues[call.tool := queues[call.tool][1..]]);
        if recorded.isError {
          var message := if recorded.error.Some? && recorded.error.value != "" then recorded.error.value
                         else "recorded tool error";
          return Raised("ReplayedToolError", message);
        }
        return Returned(recorded.result);
    }
  }

  // ----- The events and texts the adapters build -----

  function UserMessage(tid: nat, task: string, model: string): Event
  {
    Clean(ModelMessage(tid, 0, User, task, model))
  }

  function FinalMessage(tid: nat, n: nat, content: string, model: string): Event
  {
    Clean(ModelMessage(tid, n, Assistant, content, model))
  }

  function CallEvent(sha: string -> nat, tid: nat, n: nat, callId: nat, tool: string, args: Json): Event
  {
    Clean(ToolCall(tid, n, callId, tool, args, ArgsDigest(sha, args)))
  }

  /** A tool that raises is recorded as an error result; the run goes on. */
  function ResultEvent(tid: nat, n: nat, callId: nat, tool: string, o: Outcome): Event
  {
    Clean(match o
          case Returned(value) => ToolResult(tid, n, callId, tool, value, false, Option.None)
          case Other(_, stored) => ToolResult(tid, n, callId, tool, stored, false, Option.None)
          case Raised(kind, message) => ToolResult(tid, n, callId, tool, Null, true, Some(kind + ": " + message)))
  }

  function TraceRecord(tid: nat, taskId: string, model: string, events: seq<Event>, answer: string): Trace
  {
    Trace(tid, Strip(taskId), Strip(model), events, Strip(answer))
  }

  /** `EchoModel.complete`. */
  function Echo(text: string): string
  {
    "<echo:" + text + ">"
  }

  /** The text of a tool output: a string as it is, `None` by name, anything else through `str`. */
  function OutputText(render: Json -> string, o: Outcome): string
  {
    match o
    case Returned(Str(s)) => s
    case Returned(Null) => "None"
    case Returned(value) => render(value)
    case Other(text, _) => text
    case Raised(_, _) => "None"
  }

  /** How a run ends; `Invalid` is the `ValidationError` of a tool name that no event can carry. */
  datatype Exit = Answered(text: string) | Denied | Invalid

  /** What one run adds: its events, its hook calls, and its exit. */
  datatype Run = Run(events: seq<Event>, hookCalls: seq<HookCall>, exit: Exit)

  lemma EchoIsTight(u: string)
    ensures Tight(Echo(u)) && Echo(u) != ""
    ensures Tight(Echo(u) + "::")
  {
    assert Echo(u)[0] == '<' && Echo(u)[|Echo(u)| - 1] == '>';
    assert (Echo(u) + "::")[0] == '<' && (Echo(u) + "::")[|Echo(u)| + 1] == ':';
  }

  lemma EchoInjective(u: string, v: string)
    ensures Echo(u) == Echo(v) ==> u == v
  {
    if Echo(u) == Echo(v) {
      assert |u| == |v|;
      assert Echo(u)[6..6 + |u|] == u && Echo(v)[6..6 + |v|] == v;
    }
  }
}
