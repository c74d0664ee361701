/**
  Execution replay: rebuild the tools from the log, run the loop again, compare.
 */
module ReplayExec {
  import opened Text
  import opened Helpers
  import opened CanonicalJson
  import opened Events
  import opened StubRegistry
  import opened Runtime
  import opened TraceStore
  import opened Recording
  import opened RawLoop

  datatype Note = NotFound | LiveModel | NoUserMessage | Compared

  datatype Report = Report(
    byteIdentical: bool,
    recordedAnswer: string,
    replayedAnswer: string,
    recordedCalls: nat,
    replayedCalls: nat,
    hashMatches: nat,
    exitCode: nat,
    note: Note)

  function NotReplayable(note: Note): Report
  {
    Report(false, "", "", 0, 0, 0, 2, note)
  }

  // ----- What is read off the log -----

  /** The content of the first user message. */
  function FirstUser(es: seq<Event>): Option<string>
  {
    if es == [] then None
    else if es[0].ModelMessage? && es[0].role == User then Some(es[0].content)
    else FirstUser(es[1..])
  }

  /** The content of the last assistant message, or else the empty stored answer. */
  function LastAssistant(es: seq<Event>): string
  {
    if es == [] then ""
    else
      var last := es[|es| - 1];
      if last.ModelMessage? && last.role == Assistant then last.content else LastAssistant(es[..|es| - 1])
  }

  /** Positions at which both lists hold a call of the same tool with the same hash. */
  function CountMatches(recorded: seq<Event>, replayed: seq<Event>): nat
    requires forall i | 0 <= i < |recorded| :: recorded[i].ToolCall?
    requires forall i | 0 <= i < |replayed| :: replayed[i].ToolCall?
  {
    if recorded == [] || replayed == [] then 0
    else
      (if SameCall(recorded[0], replayed[0]) then 1 else 0) + CountMatches(recorded[1..], replayed[1..])
  }

  predicate SameCall(recorded: Event, replayed: Event)
    requires recorded.ToolCall? && replayed.ToolCall?
  {
    recorded.tool == replayed.tool && recorded.argsHash == replayed.argsHash
  }

  // ----- The replayed run -----

  /** Identifiers for the fresh run. */
  datatype Ids = Ids(tid: nat, callId: nat)

  /** The run that replay drives: recorded results instead of tools, hooks that always allow. */
  function ReplayedRun(sha: string -> nat, render: Json -> string, taskId: string, task: string, es: seq<Event>,
                       ids: Ids): Run
  {
    RawLoopRun(sha, render, Setup(taskId, task, NamesOf(Matched(es)), ids.tid, ids.callId, []), true,
               FirstOutcome(Matched(es)))
  }

  /** What the stub of the first registered tool gives out first. */
  function FirstOutcome(fs: seq<Filed>): Outcome
    requires forall i | 0 <= i < |fs| :: fs[i].result.ToolResult?
  {
    if fs == [] then Returned(Null) else Replayed(fs[0].result)
  }

  function AnswerOf(exit: Exit): string
  {
    if exit.Answered? then exit.text else ""
  }

  /** The comparison at the end of `replay_execution`. */
  function Compare(es: seq<Event>, run: Run): Report
  {
    var recorded, replayed := Calls(es), Calls(run.events);
    var matches := CountMatches(recorded, replayed);
    var identical := AnswerOf(run.exit) == LastAssistant(es) && |replayed| == |recorded| && matches == |recorded|;
    Report(identical, LastAssistant(es), AnswerOf(run.exit), |recorded|, |replayed|, matches,
           if identical then 0 else 1, Compared)
  }

  function ReplayReport(sha: string -> nat, render: Json -> string, es: seq<Event>, ids: Ids): Report
  {
    if es == [] then NotReplayable(NotFound)
    else if FirstModelId(es) != MODEL_ID then NotReplayable(LiveModel)
    else
      match FirstUser(es)
      case None => NotReplayable(NoUserMessage)
      case Some(task) => Compare(es, ReplayedRun(sha, render, "", task, es, ids))
  }

  // ----- When replay succeeds, over arbitrary stored logs -----

  ghost predicate StoredLog(es: seq<Event>)
  {
    forall e | e in es :: WellFormed(e)
  }

  /** The only call of the log is at `i`. */
  ghost predicate OnlyCall(es: seq<Event>, i: nat)
  {
    i < |es| && es[i].ToolCall? && forall j | 0 <= j < |es| && j != i :: !es[j].ToolCall?
  }

  ghost predicate NoCall(es: seq<Event>)
  {
    forall j | 0 <= j < |es| :: !es[j].ToolCall?
  }

  /** The event at `k` is a later result of the call at `i`. */
  predicate IsAnswer(es: seq<Event>, i: nat, k: nat)
  {
    i < k < |es| && es[i].ToolCall? && es[k].ToolResult? && es[k].callId == es[i].callId
  }

  ghost predicate FirstAnswer(es: seq<Event>, i: nat, k: nat)
  {
    IsAnswer(es, i, k) && forall j | i < j < k :: !IsAnswer(es, i, j)
  }

  /** The text that a recorded result contributes to the answer. */
  function ResultText(render: Json -> string, result: Event): string
    requires result.ToolResult?
  {
    if result.isError then "None" else OutputText(render, Returned(result.result))
  }

  /** The answer and the hash of a single call follow from the task and the call's first result. */
  ghost predicate Answers(sha: string -> nat, render: Json -> string, es: seq<Event>, u: string, i: nat, k: nat)
  {
    && OnlyCall(es, i) && FirstAnswer(es, i, k)
    && es[i].argsHash == ArgsDigest(sha, TextArgs(u))
    && LastAssistant(es) == Echo(u) + "::" + ResultText(render, es[k])
  }

  /** What a log must say for replay to succeed, without running anything. */
  ghost predicate Reproducible(sha: string -> nat, render: Json -> string, es: seq<Event>, u: string)
  {
    || (NoCall(es) && LastAssistant(es) == Echo(u))
    || exists i, k :: Answers(sha, render, es, u, i, k)
  }

  lemma {:induction false} CallsCount(es: seq<Event>)
    ensures Calls(es) == [] <==> NoCall(es)
    ensures forall i: nat | OnlyCall(es, i) :: Calls(es) == [es[i]]
    ensures |Calls(es)| == 1 ==> exists i :: OnlyCall(es, i)
  {
    if es != [] {
      var before, last := es[..|es| - 1], es[|es| - 1];
      CallsCount(before);
      assert forall j | 0 <= j < |before| :: before[j] == es[j];
      if last.ToolCall? {
        assert NoCall(before) ==> OnlyCall(es, |before|);
      } else {
        assert forall i: nat | i < |before| :: OnlyCall(es, i) <==> OnlyCall(before, i);
      }
    }
  }

  /** With a single call at `i`, what is filed are the later results of that call, in order. */
  lemma {:induction false} SingleCallMatches(es: seq<Event>, i: nat)
    requires OnlyCall(es, i)
    ensures forall id :: CallOf(es, id) == if id == es[i].callId then Some(es[i]) else None
    ensures Matched(es) == [] ==> forall k | i < k < |es| :: !IsAnswer(es, i, k)
    ensures Matched(es) != [] ==>
              exists k | i < k < |es| :: FirstAnswer(es, i, k) && Matched(es)[0] == Filed(es[i].tool, es[k])
  {
    var before, last := es[..|es| - 1], es[|es| - 1];
    assert es == before + [last];
    if i == |es| - 1 {
      NoCallsNoMatches(before);
    } else {
      SingleCallMatches(before, i);
      assert forall k | i < k < |before| :: IsAnswer(es, i, k) <==> IsAnswer(before, i, k);
      if Matched(before) == [] {
        if last.ToolResult? && last.callId == es[i].callId {
          assert FirstAnswer(es, i, |before|);
        }
      } else {
        var k :| i < k < |before| && FirstAnswer(before, i, k)
            && Matched(before)[0] == Filed(before[i].tool, before[k]);
        assert FirstAnswer(es, i, k) && Matched(es)[0] == Matched(before)[0];
      }
    }
  }

  lemma {:induction false} NoCallsNoMatches(es: seq<Event>)
    requires NoCall(es)
    ensures Matched(es) == [] && forall id :: CallOf(es, id) == None
  {
    if es != [] {
      NoCallsNoMatches(es[..|es| - 1]);
    }
  }

  lemma CallsOfRun(sha: string -> nat, render: Json -> string, s: Setup, allow: bool, o: Outcome)
    ensures var r := RawLoopRun(sha, render, s, allow, o);
            Calls(r.events) == if s.tools == [] || r.exit == Invalid then [] else [FirstCall(sha, s)]
  {
    var r := RawLoopRun(sha, render, s, allow, o);
    RunIsShaped(sha, render, s, allow, o);
    if s.tools == [] || r.exit == Invalid {
      NoCalls(r.events);
    } else {
      CallAtOne(r.events);
    }
  }

  /** A user message, then perhaps one call with its result, and the answer, if there is one, at the end. */
  ghost predicate RunShape(es: seq<Event>, exit: Exit, task: string, calls: bool)
  {
    && |es| > 0 && IsUser(es[0]) && es[0].content == Strip(task) && es[0].modelId == MODEL_ID
    && (forall i | 1 <= i < |es| :: !IsUser(es[i]))
    && (if exit.Answered? then IsAssistant(es[|es| - 1]) && es[|es| - 1].content == Strip(exit.text)
        else forall i | 0 <= i < |es| :: !IsAssistant(es[i]))
    && (if calls then OnlyCall(es, 1) else NoCall(es))
  }

  predicate IsUser(e: Event)
  {
    e.ModelMessage? && e.role == User
  }

  predicate IsAssistant(e: Event)
  {
    e.ModelMessage? && e.role == Assistant
  }

  /** A user message of the echo model with this trimmed text. */
  predicate Asks(u: Event, task: string)
  {
    IsUser(u) && u.content == Strip(task) && u.modelId == MODEL_ID
  }

  lemma ShortShapes(u: Event, f: Event, call: Event, task: string, text: string)
    requires Asks(u, task) && call.ToolCall? && IsAssistant(f) && f.content == Strip(text)
    ensures RunShape([u], Invalid, task, false)
    ensures RunShape([u, call], Denied, task, true)
    ensures RunShape([u, f], Answered(text), task, false)
  {
  }

  lemma FullShape(u: Event, call: Event, result: Event, f: Event, task: string, text: string)
    requires Asks(u, task) && call.ToolCall? && result.ToolResult? && IsAssistant(f) && f.content == Strip(text)
    ensures RunShape([u, call, result, f], Answered(text), task, true)
  {
  }

  lemma RunIsShaped(sha: string -> nat, render: Json -> string, s: Setup, allow: bool, o: Outcome)
    ensures var r := RawLoopRun(sha, render, s, allow, o);
            RunShape(r.events, r.exit, s.task, s.tools != [] && r.exit != Invalid)
  {
    var u := UserMessage(s.tid, s.task, MODEL_ID);
    MessagesAreWellFormed(s.tid, 0, User, s.task, MODEL_ID);
    if s.tools == [] {
      ShortShapes(u, FinalMessage(s.tid, 1, Echo(s.task), MODEL_ID), ToolCall(0, 0, 0, "", Null, Unset), s.task,
                  Echo(s.task));
    } else {
      var text := FinalText(render, s.task, o);
      var f := FinalMessage(s.tid, 3, text, MODEL_ID);
      ShortShapes(u, f, FirstCall(sha, s), s.task, text);
      FullShape(u, FirstCall(sha, s), ResultEvent(s.tid, 2, s.callId, s.tools[0], o), f, s.task, text);
    }
  }

  lemma NoCalls(es: seq<Event>)
    requires NoCall(es)
    ensures Calls(es) == []
  {
    CallsCount(es);
  }

  lemma CallAtOne(es: seq<Event>)
    requires OnlyCall(es, 1)
    ensures Calls(es) == [es[1]]
  {
    CallsCount(es);
  }

  predicate ValidTool(f: Filed)
  {
    NameOk(f.tool) && Strip(f.tool) == f.tool
  }

  /** The re-driven run: without a filed result no call; otherwise one call, served by the first one. */
  lemma ReplayedRunIs(sha: string -> nat, render: Json -> string, es: seq<Event>, u: string, ids: Ids)
    requires forall i | 0 <= i < |Matched(es)| :: ValidTool(Matched(es)[i])
    ensures var run, fs := ReplayedRun(sha, render, "", u, es, ids), Matched(es);
            if fs == [] then AnswerOf(run.exit) == Echo(u) && Calls(run.events) == []
            else
              && AnswerOf(run.exit) == Echo(u) + "::" + ResultText(render, fs[0].result)
              && Calls(run.events) == [ReplayedCall(sha, u, fs[0].tool, ids)]
  {
    var fs := Matched(es);
    var s := Setup("", u, NamesOf(fs), ids.tid, ids.callId, []);
    FirstFiled(fs);
    CallsOfRun(sha, render, s, true, FirstOutcome(fs));
    if fs != [] {
      AllowedRunAnswers(sha, render, s, FirstOutcome(fs));
      ReplayedText(render, fs[0].result);
    }
  }

  lemma AllowedRunAnswers(sha: string -> nat, render: Json -> string, s: Setup, o: Outcome)
    requires s.tools != [] && NameOk(Strip(s.tools[0]))
    ensures RawLoopRun(sha, render, s, true, o).exit == Answered(FinalText(render, s.task, o))
  {
  }

  lemma ReplayedText(render: Json -> string, result: Event)
    requires result.ToolResult?
    ensures OutputText(render, Replayed(result)) == ResultText(render, result)
  {
  }

  function ReplayedCall(sha: string -> nat, u: string, tool: string, ids: Ids): (call: Event)
    ensures call.ToolCall?
  {
    CallEvent(sha, ids.tid, 1, ids.callId, tool, TextArgs(u))
  }

  lemma {:induction false} FiledToolsAreValid(es: seq<Event>)
    requires StoredLog(es)
    ensures forall i | 0 <= i < |Matched(es)| :: ValidTool(Matched(es)[i])
  {
    if es != [] {
      FiledToolsAreValid(es[..|es| - 1]);
    }
  }

  /**
    Replay of any stored log of the echo model succeeds exactly when the answer is the echo of the
    task and no tool was called, or a single call, hashed as the call the loop makes, was answered
    and its first result completes the answer.
   */
  lemma ExitZeroIffReproducible(sha: string -> nat, render: Json -> string, es: seq<Event>, u: string, ids: Ids)
    requires StoredLog(es)
    requires es != [] && FirstModelId(es) == MODEL_ID && FirstUser(es) == Some(u)
    ensures ReplayReport(sha, render, es, ids).exitCode == if Reproducible(sha, render, es, u) then 0 else 1
  {
    var report := Compare(es, ReplayedRun(sha, render, "", u, es, ids));
    assert ReplayReport(sha, render, es, ids) == report;
    CallsCount(es);
    if NoCall(es) {
      NoCallReplays(sha, render, es, u, ids);
    } else if |Calls(es)| == 1 {
      var i :| OnlyCall(es, i);
      SingleCallReplays(sha, render, es, u, ids, i);
      assert forall j, k | Answers(sha, render, es, u, j, k) :: j == i;
    } else {
      FiledToolsAreValid(es);
      ReplayedRunIs(sha, render, es, u, ids);
      assert forall j, k :: !Answers(sha, render, es, u, j, k);
    }
  }

  lemma NoCallReplays(sha: string -> nat, render: Json -> string, es: seq<Event>, u: string, ids: Ids)
    requires StoredLog(es) && NoCall(es)
    ensures Compare(es, ReplayedRun(sha, render, "", u, es, ids)).exitCode == 0 <==> LastAssistant(es) == Echo(u)
  {
    NoCallsNoMatches(es);
    ReplayedRunIs(sha, render, es, u, ids);
    CallsCount(es);
  }

  lemma SingleCallReplays(sha: string -> nat, render: Json -> string, es: seq<Event>, u: string, ids: Ids, i: nat)
    requires StoredLog(es) && OnlyCall(es, i)
    ensures Compare(es, ReplayedRun(sha, render, "", u, es, ids)).exitCode == 0
            <==> exists k :: Answers(sha, render, es, u, i, k)
  {
    var run := ReplayedRun(sha, render, "", u, es, ids);
    FiledToolsAreValid(es);
    ReplayedRunIs(sha, render, es, u, ids);
    CallsCount(es);
    SingleCallMatches(es, i);
    if Matched(es) != [] {
      var k :| i < k < |es| && FirstAnswer(es, i, k) && Matched(es)[0] == Filed(es[i].tool, es[k]);
      var call := ReplayedCall(sha, u, es[i].tool, ids);
      OneMatch(es[i], call);
      assert WellFormed(es[i]);
      assert Compare(es, run).exitCode == 0 <==> Answers(sha, render, es, u, i, k);
      assert forall m | FirstAnswer(es, i, m) :: m == k;
    }
  }

  lemma OneMatch(recorded: Event, replayed: Event)
    requires recorded.ToolCall? && replayed.ToolCall?
    ensures CountMatches([recorded], [replayed]) == if SameCall(recorded, replayed) then 1 else 0
  {
  }

  // ----- Recorded runs -----

  ghost predicate Verdicts(es: seq<Event>)
  {
    forall i | 0 <= i < |es| :: es[i].Verdict? && WellFormed(es[i])
  }

  /** The text of what is stored of a tool's output. */
  function StoredText(render: Json -> string, o: Outcome): string
  {
    match o
    case Returned(_) => OutputText(render, o)
    case Other(_, stored) => OutputText(render, Returned(stored))
    case Raised(_, _) => "None"
  }

  /**
    A recorded run replays when its task survives the trimming of the store, and its tool's text, trimmed at
    the right, is the text of what is stored of the output.
   */
  predicate Replays(render: Json -> string, s: Setup, exit: Exit, o: Outcome)
  {
    exit.Answered? && Tight(s.task) && (s.tools != [] ==> TrimRight(OutputText(render, o)) == StoredText(render, o))
  }

  /** For a JSON value or an exception that is: no whitespace at the right end of the tool's text. */
  lemma JsonReplaysIff(render: Json -> string, s: Setup, exit: Exit, o: Outcome)
    requires !o.Other?
    ensures Replays(render, s, exit, o) <==>
            exit.Answered? && Tight(s.task) && (s.tools != [] ==> TightRight(OutputText(render, o)))
  {
    TrimRightSpec(OutputText(render, o));
  }

  ghost predicate InTurn(es: seq<Event>, tid: nat)
  {
    forall i | 0 <= i < |es| :: WellFormed(es[i]) && es[i].traceId == tid && es[i].seqNo == i
  }

  lemma RunIsWellFormed(sha: string -> nat, render: Json -> string, s: Setup, allow: bool, o: Outcome)
    ensures InTurn(RawLoopRun(sha, render, s, allow, o).events, s.tid)
  {
    MessagesAreWellFormed(s.tid, 0, User, s.task, MODEL_ID);
    if s.tools == [] {
      MessagesAreWellFormed(s.tid, 1, Assistant, Echo(s.task), MODEL_ID);
    } else {
      var call := FirstCall(sha, s);
      ValidateIsIdempotent(ToolCall(s.tid, 1, s.callId, s.tools[0], TextArgs(s.task),
          ArgsDigest(sha, TextArgs(s.task))));
      if Acceptable(call) {
        ResultIsWellFormed(s.tid, 2, s.callId, s.tools[0], o);
        MessagesAreWellFormed(s.tid, 3, Assistant, FinalText(render, s.task, o), MODEL_ID);
        FourInTurn(s.tid, UserMessage(s.tid, s.task, MODEL_ID), call, ResultEvent(s.tid, 2, s.callId, s.tools[0], o),
                   FinalMessage(s.tid, 3, FinalText(render, s.task, o), MODEL_ID));
      }
    }
  }

  lemma FourInTurn(tid: nat, a: Event, b: Event, c: Event, d: Event)
    requires WellFormed(a) && WellFormed(b) && WellFormed(c) && WellFormed(d)
    requires a.traceId == b.traceId == c.traceId == d.traceId == tid
    requires a.seqNo == 0 && b.seqNo == 1 && c.seqNo == 2 && d.seqNo == 3
    ensures InTurn([a, b], tid) && InTurn([a, b, c, d], tid)
  {
  }

  lemma {:induction false} LastAssistantSkips(es: seq<Event>, extra: seq<Event>)
    requires Verdicts(extra)
    ensures LastAssistant(es + extra) == LastAssistant(es)
  {
    if extra == [] {
      assert es + extra == es;
    } else {
      assert (es + extra)[..|es + extra| - 1] == es + extra[..|extra| - 1];
      LastAssistantSkips(es, extra[..|extra| - 1]);
    }
  }

  /** The final text as stored: only the tool's own text can lose characters. */
  lemma StoredFinalText(render: Json -> string, task: string, o: Outcome)
    ensures Strip(FinalText(render, task, o)) == Echo(task) + "::" + TrimRight(OutputText(render, o))
  {
    EchoIsTight(task);
    StripTail(Echo(task) + "::", OutputText(render, o));
  }

  /**
    The stored answer is the replayed one exactly when the task was not trimmed and the tool's text, trimmed,
    is the one given back.
   */
  lemma AnswersAgreeIffTight(task: string, t: string, u: string)
    ensures Echo(task) + "::" + TrimRight(t) == Echo(Strip(task)) + "::" + u <==> Tight(task) && TrimRight(t) == u
  {
    var stored, replayed := Echo(task) + "::" + TrimRight(t), Echo(Strip(task)) + "::" + u;
    StripSpec(task);
    if Tight(task) {
      var k := |Echo(task) + "::"|;
      assert stored[k..] == TrimRight(t) && replayed[k..] == u;
    } else {
      var k := StripParts(task);
      EchoAt(task, "::" + TrimRight(t), k);
      EchoAt(Strip(task), "::" + u, k);
      assert Echo(task) + "::" + TrimRight(t) == Echo(task) + ("::" + TrimRight(t));
      assert Echo(Strip(task)) + "::" + u == Echo(Strip(task)) + ("::" + u);
    }
  }

  lemma EchoAt(task: string, rest: string, k: nat)
    requires k <= |task|
    ensures |Echo(task) + rest| > 6 + k && (Echo(task) + rest)[6 + k] == if k < |task| then task[k] else '>'
  {
  }

  /**
    End to end: a run of the loop, whatever the task, the tools, the hook and the tool's behaviour,
    and even with verdicts appended after it, replays with exit code 0 exactly when it was answered,
    its task is free of surrounding whitespace, and its tool's text, trimmed at the right, is the text of
    what is stored of the output.  In particular a denied run replays with exit code 1.
   */
  lemma RecordedRunReplays(sha: string -> nat, render: Json -> string, s: Setup, allow: bool, o: Outcome,
                           extra: seq<Event>, ids: Ids)
    requires Verdicts(extra)
    ensures var r := RawLoopRun(sha, render, s, allow, o);
            var report := ReplayReport(sha, render, r.events + extra, ids);
            && report.exitCode == (if Replays(render, s, r.exit, o) then 0 else 1)
            && (report.exitCode == 0 ==>
                  && report.recordedAnswer == report.replayedAnswer
                  && report.hashMatches == report.recordedCalls == report.replayedCalls)
  {
    var r := RawLoopRun(sha, render, s, allow, o);
    var es, u := r.events + extra, Strip(s.task);
    RecordedLogIs(sha, render, s, allow, o, extra);
    RecordedCallIs(sha, render, s, allow, o, extra);
    ExitZeroIffReproducible(sha, render, es, u, ids);
    if s.tools == [] {
      PlainRunReproducible(sha, render, s, es, u);
    } else if r.exit.Answered? {
      ToolRunReproducible(sha, render, s, o, es, u);
    } else {
      ShortRunReplays(sha, render, es, u);
    }
  }

  /** A blank before the task is enough for the recorded run not to replay. */
  lemma PaddedTaskDoesNotReplay(sha: string -> nat, render: Json -> string, tid: nat, allow: bool, o: Outcome, ids: Ids)
    ensures var s := Setup("t", " hi", [], tid, 0, []);
            ReplayReport(sha, render, RawLoopRun(sha, render, s, allow, o).events, ids).exitCode == 1
  {
    var s := Setup("t", " hi", [], tid, 0, []);
    var es := RawLoopRun(sha, render, s, allow, o).events;
    RecordedRunReplays(sha, render, s, allow, o, [], ids);
    assert es + [] == es;
    assert s.task[0] == ' ';
  }

  /** The tuple `(1, 2)`, stored as the list `[1, 2]`. */
  function Pair(): Outcome
  {
    Other("(1, 2)", Arr([Num(1), Num(2)]))
  }

  /** A tool that returns a tuple is enough too: its text is not the text of the stored list. */
  lemma TupleDoesNotReplay(sha: string -> nat, render: Json -> string, s: Setup, ids: Ids)
    requires s.tools != [] && Acceptable(FirstCall(sha, s)) && render(Arr([Num(1), Num(2)])) == "[1, 2]"
    ensures ReplayReport(sha, render, RawLoopRun(sha, render, s, true, Pair()).events, ids).exitCode == 1
  {
    TupleTextDiffers(render);
    RecordedRunReplays(sha, render, s, true, Pair(), [], ids);
    NothingMore(RawLoopRun(sha, render, s, true, Pair()).events);
  }

  lemma TupleTextDiffers(render: Json -> string)
    requires render(Arr([Num(1), Num(2)])) == "[1, 2]"
    ensures TrimRight(OutputText(render, Pair())) != StoredText(render, Pair())
  {
    TrimRightSpec("(1, 2)");
    assert "(1, 2)"[0] != "[1, 2]"[0];
  }

  lemma NothingMore<T>(s: seq<T>)
    ensures s + [] == s
  {
  }

  /** What replay finds in the log of a recorded run. */
  lemma RecordedLogIs(sha: string -> nat, render: Json -> string, s: Setup, allow: bool, o: Outcome, extra: seq<Event>)
    requires Verdicts(extra)
    ensures var r := RawLoopRun(sha, render, s, allow, o);
            var es := r.events + extra;
            && StoredLog(es) && es != [] && FirstUser(es) == Some(Strip(s.task)) && FirstModelId(es) == MODEL_ID
            && LastAssistant(es) == (if r.exit.Answered? then Strip(r.exit.text) else "")
  {
    var r := RawLoopRun(sha, render, s, allow, o);
    var es := r.events + extra;
    RunIsWellFormed(sha, render, s, allow, o);
    assert StoredLog(es);
    LastAssistantSkips(r.events, extra);
    RunIsShaped(sha, render, s, allow, o);
    LastOfRun(r.events, r.exit, s.task, s.tools != [] && r.exit != Invalid);
    assert es[0] == r.events[0];
  }

  lemma RecordedCallIs(sha: string -> nat, render: Json -> string, s: Setup, allow: bool, o: Outcome, extra: seq<Event>)
    requires Verdicts(extra)
    ensures var r := RawLoopRun(sha, render, s, allow, o);
            var es := r.events + extra;
            if s.tools == [] then NoCall(es)
            else r.exit.Answered? ==>
              && OnlyCall(es, 1) && es[1] == FirstCall(sha, s)
              && |es| > 2 && es[2] == ResultEvent(s.tid, 2, s.callId, s.tools[0], o)
  {
    var r := RawLoopRun(sha, render, s, allow, o);
    RunIsShaped(sha, render, s, allow, o);
    VerdictsAddNoCall(r.events, extra);
  }

  lemma VerdictsAddNoCall(es: seq<Event>, extra: seq<Event>)
    requires Verdicts(extra)
    ensures NoCall(es) ==> NoCall(es + extra)
    ensures forall i: nat | OnlyCall(es, i) :: OnlyCall(es + extra, i)
    ensures forall i | 0 <= i < |es| :: (es + extra)[i] == es[i]
  {
    assert forall j | |es| <= j < |es + extra| :: (es + extra)[j] == extra[j - |es|];
  }

  lemma LastOfRun(es: seq<Event>, exit: Exit, task: string, calls: bool)
    requires RunShape(es, exit, task, calls)
    ensures LastAssistant(es) == if exit.Answered? then Strip(exit.text) else ""
  {
    if !exit.Answered? {
      NoAssistant(es);
    }
  }

  lemma {:induction false} NoAssistant(es: seq<Event>)
    requires forall i | 0 <= i < |es| :: !IsAssistant(es[i])
    ensures LastAssistant(es) == ""
  {
    if es != [] {
      NoAssistant(es[..|es| - 1]);
    }
  }

  lemma PlainRunReproducible(sha: string -> nat, render: Json -> string, s: Setup, es: seq<Event>, u: string)
    requires NoCall(es) && u == Strip(s.task)
    requires LastAssistant(es) == Strip(Echo(s.task))
    ensures Reproducible(sha, render, es, u) <==> Tight(s.task)
  {
    EchoIsTight(s.task);
    StripSpec(Echo(s.task));
    StripSpec(s.task);
    EchoInjective(s.task, u);
  }

  lemma ToolRunReproducible(sha: string -> nat, render: Json -> string, s: Setup, o: Outcome, es: seq<Event>, u: string)
    requires s.tools != [] && u == Strip(s.task) && OnlyCall(es, 1) && |es| > 2
    requires es[1] == FirstCall(sha, s) && es[2] == ResultEvent(s.tid, 2, s.callId, s.tools[0], o)
    requires LastAssistant(es) == Strip(FinalText(render, s.task, o))
    ensures Reproducible(sha, render, es, u) <==>
            Tight(s.task) && TrimRight(OutputText(render, o)) == StoredText(render, o)
  {
    StoredFinalText(render, s.task, o);
    AnswersAgreeIffTight(s.task, OutputText(render, o), StoredText(render, o));
    StripSpec(s.task);
    assert FirstAnswer(es, 1, 2) && ResultText(render, es[2]) == StoredText(render, o);
    assert !NoCall(es);
    assert forall i, k | Answers(sha, render, es, u, i, k) :: i == 1 && k == 2;
    assert Answers(sha, render, es, u, 1, 2) <==>
           Tight(s.task) && TrimRight(OutputText(render, o)) == StoredText(render, o);
  }

  lemma ShortRunReplays(sha: string -> nat, render: Json -> string, es: seq<Event>, u: string)
    requires LastAssistant(es) == ""
    ensures !Reproducible(sha, render, es, u)
  {
    EchoIsTight(u);
    assert forall i, k :: !Answers(sha, render, es, u, i, k);
  }

  // ----- Through the store -----

  /** An event with room after everything of its trace is accepted as it is, rotation or not. */
  lemma NextIsAccepted(f: Files, e: Event, p: Probe)
    requires WellFormed(e) && Room(f.live, e.traceId, e.seqNo)
    ensures AppendTo(f, e, p).0 == Appended && Clean(e) == e
    ensures Room(AppendTo(f, e, p).1.live, e.traceId, e.seqNo + 1)
  {
    ValidateIsIdempotent(e);
  }

  /** Events that arrive in order and find room are all accepted as they are, rotation or not. */
  lemma {:induction false} FreshEventsAccepted(f: Files, es: seq<Event>, start: nat, environment: nat -> Probe,
                                               tid: nat)
    requires InTurn(es, tid)
    requires forall k: Key | k in f.live :: k.0 != tid
    ensures Accepted(f, Requests(es, start, environment)) == es
    ensures Room(RunFiles(f, Requests(es, start, environment)).live, tid, |es|)
  {
    if es != [] {
      var before, last, p := es[..|es| - 1], es[|es| - 1], environment(start + |es| - 1);
      FreshEventsAccepted(f, before, start, environment, tid);
      NextIsAccepted(RunFiles(f, Requests(before, start, environment)), last, p);
      OneMoreRequest(f, Requests(before, start, environment), last, p);
      SplitLast(es);
    }
  }

  lemma OneMoreRequest(f: Files, rs: seq<Request>, e: Event, p: Probe)
    ensures var more := rs + [Request(e, p)];
            && (RunStatus(f, more), RunFiles(f, more)) == AppendTo(RunFiles(f, rs), e, p)
            && (RunStatus(f, more).Appended? ==> Accepted(f, more) == Accepted(f, rs) + [Clean(e)])
            && (RunStatus(f, more).Appended? ==>
                  SinceRotation(f, more) == if p.over then [] else SinceRotation(f, rs) + [Clean(e)])
  {
    assert (rs + [Request(e, p)])[..|rs|] == rs;
  }

  lemma {:induction false} OfOneTrace(es: seq<Event>, tid: nat)
    requires forall i | 0 <= i < |es| :: es[i].traceId == tid
    ensures OfTrace(es, tid) == es
  {
    if es != [] {
      OfOneTrace(es[..|es| - 1], tid);
      assert es == es[..|es| - 1] + [es[|es| - 1]];
    }
  }

  lemma {:induction false} NoUser(es: seq<Event>)
    requires forall i | 0 <= i < |es| :: !IsUser(es[i])
    ensures FirstUser(es) == None
  {
    if es != [] {
      NoUser(es[1..]);
    }
  }

  /** A run of which a rotation has hidden the beginning cannot be replayed. */
  lemma CutRunIsNotReplayable(sha: string -> nat, render: Json -> string, s: Setup, allow: bool, o: Outcome,
                              extra: seq<Event>, k: nat, ids: Ids)
    requires Verdicts(extra)
    requires 0 < k <= |RawLoopRun(sha, render, s, allow, o).events + extra|
    ensures ReplayReport(sha, render, (RawLoopRun(sha, render, s, allow, o).events + extra)[k..], ids).exitCode == 2
  {
    var es := RawLoopRun(sha, render, s, allow, o).events;
    RunIsShaped(sha, render, s, allow, o);
    NoUserAfter(es, extra, k);
  }

  lemma NoUserAfter(es: seq<Event>, extra: seq<Event>, k: nat)
    requires Verdicts(extra) && 0 < k <= |es + extra|
    requires forall i | 1 <= i < |es| :: !IsUser(es[i])
    ensures FirstUser((es + extra)[k..]) == None
  {
    var rest := (es + extra)[k..];
    forall i | 0 <= i < |rest|
      ensures !IsUser(rest[i])
    {
      assert rest[i] == if k + i < |es| then es[k + i] else extra[k + i - |es|];
    }
    NoUser(rest);
  }

  /** What replaying a recorded run comes to, given whether a rotation hid a part of it. */
  function ExitCode(render: Json -> string, s: Setup, exit: Exit, o: Outcome, hidden: bool): nat
  {
    if hidden then 2 else if Replays(render, s, exit, o) then 0 else 1
  }

  /**
    Through the store: a run whose events were accepted in order, under any interleaving with other
    traces' appends and followed by verdicts, replays with its verdict exactly as long as no rotation hides
    a part of it, and otherwise not at all.  What is still live of the trace is at rising sequence numbers;
    the numbers may start again after a rotation, as the next free number does.
   */
  lemma StoredRunReplays(sha: string -> nat, render: Json -> string, s: Setup, allow: bool, o: Outcome,
                         extra: seq<Event>, f: Files, rs: seq<Request>, ids: Ids)
    requires forall k: Key | k in f.live :: k.0 != s.tid
    requires Verdicts(extra) && Increasing(OfTrace(SinceRotation(f, rs), s.tid))
    requires OfTrace(Accepted(f, rs), s.tid) == RawLoopRun(sha, render, s, allow, o).events + extra
    ensures var r := RawLoopRun(sha, render, s, allow, o);
            ReplayReport(sha, render, EventsOf(RunFiles(f, rs).live, s.tid), ids).exitCode
            == ExitCode(render, s, r.exit, o, Hides(f, rs, s.tid))
  {
    var k := SightOf(f, rs, s.tid);
    UnknownTrace(f.live, s.tid);
    InterleavedRead(f, rs, s.tid);
    CutRunReplays(sha, render, s, allow, o, extra, k, ids);
  }

  lemma CutRunReplays(sha: string -> nat, render: Json -> string, s: Setup, allow: bool, o: Outcome,
                      extra: seq<Event>, k: nat, ids: Ids)
    requires Verdicts(extra)
    requires k <= |RawLoopRun(sha, render, s, allow, o).events + extra|
    ensures var r := RawLoopRun(sha, render, s, allow, o);
            ReplayReport(sha, render, (r.events + extra)[k..], ids).exitCode == ExitCode(render, s, r.exit, o, k > 0)
  {
    if k > 0 {
      CutRunIsNotReplayable(sha, render, s, allow, o, extra, k, ids);
    } else {
      RecordedRunReplays(sha, render, s, allow, o, extra, ids);
    }
  }

  // ----- One run through its own writer -----

  /** One of `n` appends from `start` on rotates. */
  ghost predicate RotatesWithin(environment: nat -> Probe, start: nat, n: nat)
  {
    exists i :: start <= i < start + n && environment(i).over
  }

  /** How many of `n` appends a rotation among them hides: all up to the last that rotates. */
  function Hidden(environment: nat -> Probe, start: nat, n: nat): (k: nat)
    ensures k <= n
  {
    if n == 0 then 0
    else if environment(start + n - 1).over then n
    else Hidden(environment, start, n - 1)
  }

  lemma {:induction false} HiddenIffRotates(environment: nat -> Probe, start: nat, n: nat)
    ensures Hidden(environment, start, n) > 0 <==> RotatesWithin(environment, start, n)
  {
    if n > 0 {
      HiddenIffRotates(environment, start, n - 1);
      assert environment(start + n - 1).over ==> RotatesWithin(environment, start, n);
    }
  }

  /** The events after the last rotating append. */
  function Visible(es: seq<Event>, start: nat, environment: nat -> Probe): seq<Event>
  {
    if es == [] || environment(start + |es| - 1).over then []
    else Visible(es[..|es| - 1], start, environment) + [es[|es| - 1]]
  }

  lemma {:induction false} VisibleIsSuffix(es: seq<Event>, start: nat, environment: nat -> Probe)
    ensures Visible(es, start, environment) == es[Hidden(environment, start, |es|)..]
  {
    if es != [] && !environment(start + |es| - 1).over {
      VisibleIsSuffix(es[..|es| - 1], start, environment);
      SliceSnoc(es, Hidden(environment, start, |es| - 1));
    }
  }

  lemma {:induction false} SinceRotationOfRun(f: Files, es: seq<Event>, start: nat, environment: nat -> Probe)
    requires Accepted(f, Requests(es, start, environment)) == es
    ensures SinceRotation(f, Requests(es, start, environment)) == Visible(es, start, environment)
  {
    if es != [] {
      RequestsAreAsMany(es, start, environment);
      RequestsAreAsMany(es[..|es| - 1], start, environment);
      AllAccepted(f, Requests(es, start, environment));
      SinceRotationOfRun(f, es[..|es| - 1], start, environment);
    }
  }

  lemma {:induction false} RequestsAreAsMany(es: seq<Event>, start: nat, environment: nat -> Probe)
    ensures |Requests(es, start, environment)| == |es|
    ensures es != [] ==> Requests(es, start, environment)[..|es| - 1] == Requests(es[..|es| - 1], start, environment)
  {
    if es != [] {
      RequestsAreAsMany(es[..|es| - 1], start, environment);
    }
  }

  lemma SliceSnoc(es: seq<Event>, k: nat)
    requires es != [] && k < |es|
    ensures es[..|es| - 1][k..] + [es[|es| - 1]] == es[k..]
  {
  }

  /** A run recorded by one writer into a store that did not know its trace reads back from the last rotation on. */
  lemma FreshRunIsRead(f: Files, es: seq<Event>, start: nat, environment: nat -> Probe, tid: nat)
    requires InTurn(es, tid)
    requires forall k: Key | k in f.live :: k.0 != tid
    ensures EventsOf(RunFiles(f, Requests(es, start, environment)).live, tid) == es[Hidden(environment, start, |es|)..]
  {
    var rest := es[Hidden(environment, start, |es|)..];
    FreshEventsAccepted(f, es, start, environment, tid);
    SinceRotationOfRun(f, es, start, environment);
    VisibleIsSuffix(es, start, environment);
    OfOneTrace(rest, tid);
    UnknownTrace(f.live, tid);
    InterleavedRead(f, Requests(es, start, environment), tid);
  }

  /**
    What the adapter's own writer holds after one run into a store that did not know the trace: the
    events since the last rotation.  It replays with the run's verdict exactly when no append of the run
    rotates.
   */
  lemma WrittenRunReplays(sha: string -> nat, render: Json -> string, s: Setup, allow: bool, o: Outcome,
                          f: Files, start: nat, environment: nat -> Probe, ids: Ids)
    requires forall k: Key | k in f.live :: k.0 != s.tid
    ensures var r := RawLoopRun(sha, render, s, allow, o);
            var live := RunFiles(f, Requests(r.events, start, environment)).live;
            && EventsOf(live, s.tid) == r.events[Hidden(environment, start, |r.events|)..]
            && ReplayReport(sha, render, EventsOf(live, s.tid), ids).exitCode
               == ExitCode(render, s, r.exit, o, RotatesWithin(environment, start, |r.events|))
  {
    var r := RawLoopRun(sha, render, s, allow, o);
    RunIsWellFormed(sha, render, s, allow, o);
    FreshRunIsRead(f, r.events, start, environment, s.tid);
    assert r.events + [] == r.events;
    HiddenIffRotates(environment, start, |r.events|);
    CutRunReplays(sha, render, s, allow, o, [], Hidden(environment, start, |r.events|), ids);
  }

  /** No trace is found exactly when none of its accepted events came after the last rotation. */
  lemma RotatedRunIsNotFound(sha: string -> nat, render: Json -> string, f: Files, rs: seq<Request>, tid: nat, ids: Ids)
    requires forall k: Key | k in f.live :: k.0 != tid
    ensures ReplayReport(sha, render, EventsOf(RunFiles(f, rs).live, tid), ids) == NotReplayable(NotFound)
            <==> OfTrace(SinceRotation(f, rs), tid) == []
  {
    UnknownTrace(RunFiles(f, rs).live, tid);
    KnownIffSinceRotation(f, rs, tid);
  }

  lemma {:induction false} KnownIffSinceRotation(f: Files, rs: seq<Request>, tid: nat)
    requires forall k: Key | k in f.live :: k.0 != tid
    ensures OfTrace(SinceRotation(f, rs), tid) == [] <==> forall k: Key | k in RunFiles(f, rs).live :: k.0 != tid
  {
    if rs != [] && !Rotates(f, rs) {
      var before, e := rs[..|rs| - 1], Clean(rs[|rs| - 1].event);
      KnownIffSinceRotation(f, before, tid);
      LiveStep(f, rs);
      if RunStatus(f, rs).Appended? {
        OfTraceSnoc(SinceRotation(f, before), e, tid);
        assert KeyOf(e) in RunFiles(f, rs).live;
        assert forall k: Key | k in RunFiles(f, before).live :: k in RunFiles(f, rs).live;
      }
    }
  }

  // ----- Every store that appends can produce -----

  /**
    Replay of any trace of any store that appends have produced: exit code 2 without live events, without
    the echo model's name or without a user message, 0 exactly for a reproducible log, and else 1.
   */
  lemma ReachableReplay(sha: string -> nat, render: Json -> string, rs: seq<Request>, tid: nat, ids: Ids)
    ensures var live := RunFiles(NO_FILES, rs).live;
            var es := EventsOf(live, tid);
            && Keyed(live)
            && ReplayReport(sha, render, es, ids).exitCode ==
               if es == [] || FirstModelId(es) != MODEL_ID || FirstUser(es) == None then 2
               else if Reproducible(sha, render, es, FirstUser(es).value) then 0
               else 1
  {
    var live := RunFiles(NO_FILES, rs).live;
    var es := EventsOf(live, tid);
    ReachableReadIsExact(rs, tid);
    ReadIsExact(live, tid);
    if es != [] && FirstModelId(es) == MODEL_ID && FirstUser(es).Some? {
      assert StoredLog(es);
      ExitZeroIffReproducible(sha, render, es, FirstUser(es).value, ids);
    }
  }

  // ----- The entry point -----

  method ReplayExecution(reader: TraceReader, tid: nat, sha: string -> nat, render: Json -> string, ids: Ids)
    returns (report: Report)
    requires Keyed(reader.table)
    ensures report == ReplayReport(sha, render, EventsOf(reader.table, tid), ids)
  {
    var found := reader.ReadTrace(tid);
    if found.None? {
      return NotReplayable(NotFound);
    }
    var trace := found.value;
    ReadIsExact(reader.table, tid);
    if trace.modelId != MODEL_ID {
      return NotReplayable(LiveModel);
    }
    var task := FirstUser(trace.events);
    if task.None? {
      return NotReplayable(NoUserMessage);
    }
    var recordedAnswer := LastAssistant(trace.events);
    var recorded := Calls(trace.events);
    var answer, replayed := ReDrive(trace.taskId, task.value, trace.events, sha, render, ids);
    var matches := CountMatches(recorded, replayed);
    var identical := answer == recordedAnswer && |replayed| == |recorded| && matches == |recorded|;
    report := Report(identical, recordedAnswer, answer, |recorded|, |replayed|, matches, if identical then 0 else 1,
                     Compared);
  }

  /** Rebuild the stubs from the log and run a fresh adapter on them. */
  method ReDrive(taskId: string, task: string, es: seq<Event>, sha: string -> nat, render: Json -> string, ids: Ids)
    returns (answer: string, replayed: seq<Event>)
    requires StoredLog(es)
    ensures var run := ReplayedRun(sha, render, taskId, task, es, ids);
            answer == AnswerOf(run.exit) && replayed == Calls(run.events)
  {
    var registry := FromEvents(es);
    var toolbox := new Toolbox(StubState(registry.queues));
    var recorder := new Recorder(null);
    var adapter := new RawLoopAdapter(registry.names, toolbox, recorder, task, sha, render);
    var hooks := new Hooks(_ => true);
    ServedFirst(es, registry.names, registry.queues, TextArgs(task));
    FirstFiled(Matched(es));
    var exit := adapter.Run(taskId, hooks, ids.tid, ids.callId);
    ghost var run := ReplayedRun(sha, render, taskId, task, es, ids);
    assert exit == run.exit && recorder.events == run.events;
    answer := AnswerOf(exit);
    replayed := Calls(recorder.events);
  }

  /** The first registered stub first gives out the first filed result. */
  lemma ServedFirst(es: seq<Event>, names: seq<string>, queues: Queues, args: Json)
    requires Holds(names, queues, Matched(es))
    ensures names == NamesOf(Matched(es))
    ensures names != [] ==> StubState(queues).Next(Invocation(names[0], args)) == FirstOutcome(Matched(es))
  {
    FirstFiled(Matched(es));
  }
}
