/**
  Every field of the replay report, read off positions in the log.

  Nothing here runs a replay: what is reported is stated of the events themselves.
 */
module ReplayReports {
  import opened Text
  import opened Helpers
  import opened CanonicalJson
  import opened Events
  import opened StubRegistry
  import opened Runtime
  import opened TraceStore
  import opened RawLoop
  import opened ReplayExec

  // ----- Positions in the log -----

  /** The first event that names a model is at `i`. */
  ghost predicate NamesModelFirst(es: seq<Event>, i: nat)
  {
    && i < |es| && es[i].ModelMessage? && es[i].modelId != ""
    && forall j | 0 <= j < i :: !(es[j].ModelMessage? && es[j].modelId != "")
  }

  ghost predicate FirstUserAt(es: seq<Event>, i: nat)
  {
    i < |es| && IsUser(es[i]) && forall j | 0 <= j < i :: !IsUser(es[j])
  }

  /** The first event that names a model names the echo model. */
  ghost predicate OfEchoModel(es: seq<Event>)
  {
    exists i: nat :: NamesModelFirst(es, i) && es[i].modelId == "echo-1"
  }

  ghost predicate HasUser(es: seq<Event>)
  {
    exists i: nat :: FirstUserAt(es, i)
  }

  ghost predicate LastAssistantAt(es: seq<Event>, i: nat)
  {
    i < |es| && IsAssistant(es[i]) && forall j | i < j < |es| :: !IsAssistant(es[j])
  }

  ghost predicate FirstCallAt(es: seq<Event>, i: nat)
  {
    i < |es| && es[i].ToolCall? && forall j | 0 <= j < i :: !es[j].ToolCall?
  }

  /** The latest call with this identifier is at `i`. */
  ghost predicate LatestCall(es: seq<Event>, callId: nat, i: nat)
  {
    i < |es| && IsCallWith(es[i], callId) && forall j | i < j < |es| :: !IsCallWith(es[j], callId)
  }

  /** The latest call before `k` with the identifier of the event at `k` is at `i`. */
  ghost predicate CallFor(es: seq<Event>, i: nat, k: nat)
  {
    k < |es| && es[k].ToolResult? && LatestCall(es[..k], es[k].callId, i)
  }

  predicate IsCallWith(e: Event, callId: nat)
  {
    e.ToolCall? && e.callId == callId
  }

  /** The event at `k` is a result of an earlier call. */
  ghost predicate Answering(es: seq<Event>, k: nat)
  {
    k < |es| && es[k].ToolResult? && exists i :: 0 <= i < k && IsCallWith(es[i], es[k].callId)
  }

  ghost predicate FirstAnswering(es: seq<Event>, k: nat)
  {
    Answering(es, k) && forall j: nat | j < k :: !Answering(es, j)
  }

  ghost function CallPositions(es: seq<Event>): set<nat>
  {
    set i: nat | i < |es| && es[i].ToolCall?
  }

  // ----- What the readers of the log find -----

  lemma {:induction false} FirstModelIs(es: seq<Event>)
    ensures forall i: nat | NamesModelFirst(es, i) :: FirstModelId(es) == es[i].modelId
    ensures (forall i: nat :: !NamesModelFirst(es, i)) ==> FirstModelId(es) == "unknown"
  {
    if es != [] {
      if es[0].ModelMessage? && es[0].modelId != "" {
        assert NamesModelFirst(es, 0);
      } else {
        FirstModelIs(es[1..]);
        forall i: nat
          ensures NamesModelFirst(es, i) <==> i > 0 && NamesModelFirst(es[1..], i - 1)
        {
          ShiftModel(es, i);
        }
        assert forall i: nat :: NamesModelFirst(es[1..], i) ==> NamesModelFirst(es, i + 1);
      }
    }
  }

  lemma ShiftModel(es: seq<Event>, i: nat)
    requires es != [] && !(es[0].ModelMessage? && es[0].modelId != "")
    ensures NamesModelFirst(es, i) <==> i > 0 && NamesModelFirst(es[1..], i - 1)
  {
    assert forall j | 1 <= j < |es| :: es[j] == es[1..][j - 1];
  }

  lemma {:induction false} FirstUserIs(es: seq<Event>)
    ensures forall i: nat | FirstUserAt(es, i) :: FirstUser(es) == Some(es[i].content)
    ensures (forall i: nat :: !FirstUserAt(es, i)) ==> FirstUser(es) == None
  {
    if es != [] {
      if IsUser(es[0]) {
        assert FirstUserAt(es, 0);
      } else {
        FirstUserIs(es[1..]);
        forall i: nat
          ensures FirstUserAt(es, i) <==> i > 0 && FirstUserAt(es[1..], i - 1)
        {
          ShiftUser(es, i);
        }
        assert forall i: nat :: FirstUserAt(es[1..], i) ==> FirstUserAt(es, i + 1);
      }
    }
  }

  lemma ShiftUser(es: seq<Event>, i: nat)
    requires es != [] && !IsUser(es[0])
    ensures FirstUserAt(es, i) <==> i > 0 && FirstUserAt(es[1..], i - 1)
  {
    assert forall j | 1 <= j < |es| :: es[j] == es[1..][j - 1];
  }

  lemma {:induction false} LastAssistantIs(es: seq<Event>)
    ensures forall i: nat | LastAssistantAt(es, i) :: LastAssistant(es) == es[i].content
    ensures (forall i: nat :: !LastAssistantAt(es, i)) ==> LastAssistant(es) == ""
  {
    if es != [] {
      var before, k := es[..|es| - 1], |es| - 1;
      if IsAssistant(es[k]) {
        assert LastAssistantAt(es, k);
      } else {
        LastAssistantIs(before);
        forall i: nat
          ensures LastAssistantAt(es, i) <==> LastAssistantAt(before, i)
        {
          assert forall j | 0 <= j < k :: es[j] == before[j];
        }
      }
    }
  }

  lemma {:induction false} CallsAreCounted(es: seq<Event>)
    ensures |Calls(es)| == |CallPositions(es)|
  {
    if es == [] {
      assert CallPositions(es) == {};
    } else {
      var before, k := es[..|es| - 1], |es| - 1;
      CallsAreCounted(before);
      assert forall j | 0 <= j < k :: es[j] == before[j];
      if es[k].ToolCall? {
        assert CallPositions(es) == CallPositions(before) + {k};
      } else {
        assert CallPositions(es) == CallPositions(before);
      }
    }
  }

  lemma {:induction false} FirstCallIs(es: seq<Event>)
    ensures forall i: nat | FirstCallAt(es, i) :: Calls(es) != [] && Calls(es)[0] == es[i]
    ensures Calls(es) != [] ==> exists i: nat :: FirstCallAt(es, i)
  {
    if es != [] {
      FirstCallIs(es[..|es| - 1]);
      CallsCount(es[..|es| - 1]);
      forall i: nat | FirstCallAt(es, i)
        ensures Calls(es) != [] && Calls(es)[0] == es[i]
      {
        FirstCallBefore(es, i);
      }
      if Calls(es[..|es| - 1]) != [] {
        var i: nat :| FirstCallAt(es[..|es| - 1], i);
        FirstCallBefore(es, i);
      } else if es[|es| - 1].ToolCall? {
        FirstCallBefore(es, |es| - 1);
      }
    }
  }

  lemma FirstCallBefore(es: seq<Event>, i: nat)
    requires es != []
    ensures i < |es| - 1 ==> (FirstCallAt(es, i) <==> FirstCallAt(es[..|es| - 1], i))
    ensures FirstCallAt(es, |es| - 1) <==>
            es[|es| - 1].ToolCall? && NoCall(es[..|es| - 1])
  {
    assert forall j | 0 <= j < |es| - 1 :: es[j] == es[..|es| - 1][j];
  }

  lemma {:induction false} CallOfIs(es: seq<Event>, callId: nat)
    ensures CallOf(es, callId).None? <==> forall i | 0 <= i < |es| :: !IsCallWith(es[i], callId)
    ensures forall i: nat | LatestCall(es, callId, i) :: CallOf(es, callId) == Some(es[i])
  {
    if es != [] {
      var before, k := es[..|es| - 1], |es| - 1;
      assert forall j | 0 <= j < k :: es[j] == before[j];
      CallOfIs(before, callId);
      if !IsCallWith(es[k], callId) {
        assert forall i: nat :: LatestCall(es, callId, i) ==> LatestCall(before, callId, i);
      }
    }
  }

  lemma {:induction false} LatestExists(es: seq<Event>, callId: nat) returns (i: nat)
    requires exists j :: 0 <= j < |es| && IsCallWith(es[j], callId)
    ensures LatestCall(es, callId, i)
  {
    var before, k := es[..|es| - 1], |es| - 1;
    if IsCallWith(es[k], callId) {
      i := k;
    } else {
      assert forall j | 0 <= j < k :: es[j] == before[j];
      i := LatestExists(before, callId);
    }
  }

  /** The first event that is filed is the first result of an earlier call, under the tool of the latest such call. */
  ghost predicate FiledFirst(es: seq<Event>, i: nat, k: nat)
  {
    FirstAnswering(es, k) && CallFor(es, i, k)
  }

  /** What is filed first. */
  ghost predicate FilesFirst(es: seq<Event>, i: nat, k: nat)
  {
    FiledFirst(es, i, k) && Matched(es) != [] && Matched(es)[0] == Filed(es[i].tool, es[k])
  }

  lemma {:induction false} FirstFiledIs(es: seq<Event>)
    ensures Matched(es) == [] <==> forall k: nat :: !Answering(es, k)
    ensures Matched(es) != [] ==> exists i: nat, k: nat :: FilesFirst(es, i, k)
  {
    if es != [] {
      FirstFiledIs(es[..|es| - 1]);
      AnsweringBefore(es);
      LastIsFiled(es);
      if Matched(es[..|es| - 1]) != [] {
        var i: nat, m: nat :| FilesFirst(es[..|es| - 1], i, m);
        StillFilesFirst(es, i, m);
      } else if Answering(es, |es| - 1) {
        var i := LatestExists(es[..|es| - 1], es[|es| - 1].callId);
        CallOfIs(es[..|es| - 1], es[|es| - 1].callId);
        assert FilesFirst(es, i, |es| - 1);
      }
    }
  }

  /** The last event is filed exactly when it is the result of an earlier call. */
  lemma LastIsFiled(es: seq<Event>)
    requires es != []
    ensures Answering(es, |es| - 1) <==> Matched(es) != Matched(es[..|es| - 1])
    ensures Matched(es[..|es| - 1]) <= Matched(es)
  {
    var before, last := es[..|es| - 1], es[|es| - 1];
    assert forall j | 0 <= j < |before| :: es[j] == before[j];
    if last.ToolResult? {
      CallOfIs(before, last.callId);
    }
  }

  lemma AnsweringBefore(es: seq<Event>)
    requires es != []
    ensures forall k: nat | k < |es| - 1 :: Answering(es, k) <==> Answering(es[..|es| - 1], k)
  {
    assert forall j | 0 <= j < |es| - 1 :: es[j] == es[..|es| - 1][j];
  }

  lemma StillFilesFirst(es: seq<Event>, i: nat, k: nat)
    requires es != [] && FilesFirst(es[..|es| - 1], i, k)
    ensures FilesFirst(es, i, k)
  {
    AnsweringBefore(es);
    LastIsFiled(es);
    assert es[..|es| - 1][..k] == es[..k];
    assert forall j | 0 <= j < |es| - 1 :: es[j] == es[..|es| - 1][j];
  }

  // ----- The report -----

  /** The text of a stored result: what the replayed answer ends with. */
  function TextOfResult(render: Json -> string, e: Event): string
    requires e.ToolResult?
  {
    if e.isError then "None"
    else
      match e.result
      case Str(s) => s
      case Null => "None"
      case value => render(value)
  }

  ghost predicate RecordedAnswerIs(es: seq<Event>, answer: string)
  {
    if exists i: nat :: LastAssistantAt(es, i) then exists i: nat :: LastAssistantAt(es, i) && answer == es[i].content
    else answer == ""
  }

  /**
    The report on any stored log of the echo model whose first user message is at `at`, field by field: the answer is
    recorded at the last assistant position; without a result of an earlier call the replay echoes and calls
    nothing, otherwise it makes one call of the tool of the first such result and its answer ends with that
    result's text; a hash matches exactly when the first recorded call is of this tool and carries the hash
    of the loop's own arguments; and the log is reproduced exactly when answers, counts and hashes agree.
   */
  lemma ReportIs(sha: string -> nat, render: Json -> string, es: seq<Event>, at: nat, ids: Ids)
    requires StoredLog(es) && OfEchoModel(es) && FirstUserAt(es, at)
    ensures var r, u := ReplayReport(sha, render, es, ids), es[at].content;
            && r.note == Compared
            && (r.byteIdentical <==> r.exitCode == 0) && r.exitCode <= 1
            && (r.byteIdentical <==> r.replayedAnswer == r.recordedAnswer
                                     && r.replayedCalls == r.recordedCalls && r.hashMatches == r.recordedCalls)
            && RecordedAnswerIs(es, r.recordedAnswer)
            && r.recordedCalls == |CallPositions(es)|
            && ((forall k: nat :: !Answering(es, k)) ==>
                  r.replayedAnswer == "<echo:" + u + ">" && r.replayedCalls == 0 && r.hashMatches == 0)
            && (forall i, k :: FiledFirst(es, i, k) ==> ReplaysResult(sha, render, es, u, i, k, r))
  {
    var u := es[at].content;
    FirstModelIs(es);
    FirstUserIs(es);
    ReportCompares(sha, render, es, u, ids);
    CallsAreCounted(es);
    LastAssistantIs(es);
    FirstFiledIs(es);
    if Matched(es) == [] {
      NothingFiled(sha, render, es, u, ids);
      assert forall i, k :: !FiledFirst(es, i, k);
    } else {
      var i: nat, k: nat :| FilesFirst(es, i, k);
      SomethingFiled(sha, render, es, u, i, k, ids);
      OnlyOneFiledFirst(es, i, k);
      assert Answering(es, k);
    }
  }

  lemma ReportCompares(sha: string -> nat, render: Json -> string, es: seq<Event>, u: string, ids: Ids)
    requires es != [] && FirstModelId(es) == "echo-1" && FirstUser(es) == Some(u)
    ensures var r := ReplayReport(sha, render, es, ids);
            && r.note == Compared && r.exitCode <= 1 && (r.byteIdentical <==> r.exitCode == 0)
            && (r.byteIdentical <==> r.replayedAnswer == r.recordedAnswer
                                     && r.replayedCalls == r.recordedCalls && r.hashMatches == r.recordedCalls)
            && r.recordedAnswer == LastAssistant(es) && r.recordedCalls == |Calls(es)|
  {
  }

  lemma NothingFiled(sha: string -> nat, render: Json -> string, es: seq<Event>, u: string, ids: Ids)
    requires StoredLog(es) && es != [] && FirstModelId(es) == "echo-1" && FirstUser(es) == Some(u) && Matched(es) == []
    ensures var r := ReplayReport(sha, render, es, ids);
            r.replayedAnswer == "<echo:" + u + ">" && r.replayedCalls == 0 && r.hashMatches == 0
  {
    ReplayedRunIs(sha, render, es, u, ids);
    NoMatch(Calls(es));
  }

  lemma SomethingFiled(sha: string -> nat, render: Json -> string, es: seq<Event>, u: string, i: nat, k: nat, ids: Ids)
    requires StoredLog(es) && es != [] && FirstModelId(es) == "echo-1" && FirstUser(es) == Some(u)
    requires FilesFirst(es, i, k)
    ensures ReplaysResult(sha, render, es, u, i, k, ReplayReport(sha, render, es, ids))
  {
    FiledToolsAreValid(es);
    ReplayedRunIs(sha, render, es, u, ids);
    assert ValidTool(Matched(es)[0]);
    OneReplayed(sha, es, u, es[i].tool, ids);
    TextOfResultIs(render, es[k]);
    ReportOfReplay(sha, render, es, u, ids);
  }

  lemma TextOfResultIs(render: Json -> string, e: Event)
    requires e.ToolResult?
    ensures ResultText(render, e) == TextOfResult(render, e)
  {
  }

  lemma ReportOfReplay(sha: string -> nat, render: Json -> string, es: seq<Event>, u: string, ids: Ids)
    requires es != [] && FirstModelId(es) == "echo-1" && FirstUser(es) == Some(u)
    ensures var r, run := ReplayReport(sha, render, es, ids), ReplayedRun(sha, render, "", u, es, ids);
            && r.replayedAnswer == AnswerOf(run.exit) && r.replayedCalls == |Calls(run.events)|
            && r.hashMatches == CountMatches(Calls(es), Calls(run.events))
  {
  }

  /** What the report says when the first filed result is at `k`, of a call at `i`. */
  ghost predicate ReplaysResult(sha: string -> nat, render: Json -> string, es: seq<Event>, u: string, i: nat, k: nat,
                                r: Report)
    requires FiledFirst(es, i, k)
  {
    && r.replayedAnswer == "<echo:" + u + ">" + "::" + TextOfResult(render, es[k])
    && r.replayedCalls == 1
    && r.hashMatches == if HashMatches(sha, es, u, es[i].tool) then 1 else 0
  }

  /** The first recorded call is of this tool, with the hash of the loop's own arguments. */
  ghost predicate HashMatches(sha: string -> nat, es: seq<Event>, u: string, tool: string)
  {
    exists c: nat :: FirstCallAt(es, c) && es[c].tool == tool
                     && es[c].argsHash == Digest(sha(Dumps(Obj([Member("text", Str(u))]))))
  }

  lemma NoMatch(recorded: seq<Event>)
    requires forall i | 0 <= i < |recorded| :: recorded[i].ToolCall?
    ensures CountMatches(recorded, []) == 0
  {
  }

  lemma OnlyOneFiledFirst(es: seq<Event>, i: nat, k: nat)
    requires FiledFirst(es, i, k)
    ensures forall j, m :: FiledFirst(es, j, m) ==> j == i && m == k
  {
  }

  lemma OneReplayed(sha: string -> nat, es: seq<Event>, u: string, tool: string, ids: Ids)
    requires NameOk(tool) && Strip(tool) == tool
    ensures CountMatches(Calls(es), [ReplayedCall(sha, u, tool, ids)]) == if HashMatches(sha, es, u, tool) then 1 else 0
  {
    FirstCallIs(es);
    CallsCount(es);
    if Calls(es) != [] {
      var c := FirstCallPosition(es);
      OneCounts(Calls(es), ReplayedCall(sha, u, tool, ids));
    } else {
      assert forall c: nat :: !FirstCallAt(es, c);
    }
  }

  lemma {:induction false} FirstCallPosition(es: seq<Event>) returns (c: nat)
    requires Calls(es) != []
    ensures FirstCallAt(es, c)
  {
    FirstCallIs(es);
    c :| FirstCallAt(es, c);
  }

  lemma OneCounts(recorded: seq<Event>, replayed: Event)
    requires recorded != [] && replayed.ToolCall? && forall i | 0 <= i < |recorded| :: recorded[i].ToolCall?
    ensures CountMatches(recorded, [replayed]) == if SameCall(recorded[0], replayed) then 1 else 0
  {
    NoMatch(recorded[1..]);
    assert [replayed][1..] == [];
  }

  /** What every report that is not a comparison holds. */
  predicate Refused(r: Report, note: Note)
  {
    && !r.byteIdentical && r.recordedAnswer == "" && r.replayedAnswer == ""
    && r.recordedCalls == r.replayedCalls == r.hashMatches == 0
    && r.exitCode == 2 && r.note == note
  }

  /** The report on a log that cannot be replayed says which guard refused it, and nothing else. */
  lemma RefusalIs(sha: string -> nat, render: Json -> string, es: seq<Event>, ids: Ids)
    ensures var r := ReplayReport(sha, render, es, ids);
            && (es == [] ==> Refused(r, NotFound))
            && (es != [] && !OfEchoModel(es) ==> Refused(r, LiveModel))
            && (OfEchoModel(es) && !HasUser(es) ==> Refused(r, NoUserMessage))
            && (OfEchoModel(es) && HasUser(es) ==> r.note == Compared)
  {
    FirstModelIs(es);
    FirstUserIs(es);
  }

  /**
    What the report on a run without tools holds: the recorded answer echoes the task, the replayed one the
    task as the log has it, trimmed.
   */
  lemma PlainRunReport(sha: string -> nat, render: Json -> string, s: Setup, allow: bool, o: Outcome, ids: Ids)
    requires s.tools == []
    ensures var r := ReplayReport(sha, render, RawLoopRun(sha, render, s, allow, o).events, ids);
            && r.recordedAnswer == "<echo:" + s.task + ">" && r.replayedAnswer == "<echo:" + Strip(s.task) + ">"
            && r.recordedCalls == r.replayedCalls == r.hashMatches == 0 && r.note == Compared
  {
    var es := RawLoopRun(sha, render, s, allow, o).events;
    PlainRunLog(sha, render, s, allow, o);
    ReportCompares(sha, render, es, Strip(s.task), ids);
    NothingFiled(sha, render, es, Strip(s.task), ids);
  }

  lemma PlainRunLog(sha: string -> nat, render: Json -> string, s: Setup, allow: bool, o: Outcome)
    requires s.tools == []
    ensures var es := RawLoopRun(sha, render, s, allow, o).events;
            && StoredLog(es) && es != [] && FirstUser(es) == Some(Strip(s.task)) && FirstModelId(es) == "echo-1"
            && LastAssistant(es) == "<echo:" + s.task + ">" && Matched(es) == [] && Calls(es) == []
  {
    var es := RawLoopRun(sha, render, s, allow, o).events;
    RecordedLogIs(sha, render, s, allow, o, []);
    RecordedCallIs(sha, render, s, allow, o, []);
    NothingMore(es);
    NoCallsNoMatches(es);
    CallsCount(es);
    EchoIsTight(s.task);
    StripSpec(Echo(s.task));
  }
}
