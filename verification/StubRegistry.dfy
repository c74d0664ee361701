/** The FIFO of recorded tool results that stands in for the tools during execution replay. */
module StubRegistry {
  import opened Text
  import opened Helpers
  import opened CanonicalJson
  import opened Events

  /**
    What calling a tool does: it returns a JSON value, or a value that is none, such as a tuple, given by its
    text and by what it is stored as, or it raises an exception of some type.
   */
  datatype Outcome = Returned(value: Json) | Other(text: string, stored: Json) | Raised(kind: string, message: string)

  /** A recorded result filed under the tool of the call it answers. */
  datatype Filed = Filed(tool: string, result: Event)

  type Queues = map<string, seq<Event>>

  // ----- What the log says -----

  /** The latest call with this identifier. */
  function CallOf(es: seq<Event>, callId: nat): (call: Option<Event>)
    ensures call.Some? ==> call.value.ToolCall? && call.value in es
  {
    if es == [] then None
    else
      var last := es[|es| - 1];
      if last.ToolCall? && last.callId == callId then Some(last) else CallOf(es[..|es| - 1], callId)
  }

  /** The results that answer an earlier call, in order. */
  function Matched(es: seq<Event>): (fs: seq<Filed>)
    ensures forall i | 0 <= i < |fs| :: fs[i].result.ToolResult?
  {
    if es == [] then []
    else
      var before, last := es[..|es| - 1], es[|es| - 1];
      Matched(before) +
      if last.ToolResult? && CallOf(before, last.callId).Some?
      then [Filed(CallOf(before, last.callId).value.tool, last)] else []
  }

  /** The results filed under one tool. */
  function QueueOf(fs: seq<Filed>, tool: string): seq<Event>
  {
    if fs == [] then []
    else QueueOf(fs[..|fs| - 1], tool) + if fs[|fs| - 1].tool == tool then [fs[|fs| - 1].result] else []
  }

  /** The tools under which something is filed, in order of first appearance. */
  function NamesOf(fs: seq<Filed>): seq<string>
  {
    if fs == [] then []
    else
      var names := NamesOf(fs[..|fs| - 1]);
      if fs[|fs| - 1].tool in names then names else names + [fs[|fs| - 1].tool]
  }

  lemma {:induction false} FirstFiled(fs: seq<Filed>)
    ensures fs == [] <==> NamesOf(fs) == []
    ensures fs != [] ==> NamesOf(fs)[0] == fs[0].tool
    ensures fs != [] ==> QueueOf(fs, fs[0].tool) != [] && QueueOf(fs, fs[0].tool)[0] == fs[0].result
  {
    if fs != [] {
      FirstFiled(fs[..|fs| - 1]);
      if |fs| > 1 {
        assert fs[..|fs| - 1][0] == fs[0];
      }
    }
  }

  // ----- Taking the next recorded result -----

  function Replayed(recorded: Event): Outcome
    requires recorded.ToolResult?
  {
    if recorded.isError then
      Raised("ReplayedToolError",
             if recorded.error.Some? && recorded.error.value != "" then recorded.error.value else "recorded tool error")
    else Returned(recorded.result)
  }

  predicate HoldsResults(queues: Queues)
  {
    forall t | t in queues :: forall i | 0 <= i < |queues[t]| :: queues[t][i].ToolResult?
  }

  function Queue(queues: Queues, tool: string): seq<Event>
  {
    if tool in queues then queues[tool] else []
  }

  function Take(queues: Queues, tool: string): (r: (Outcome, Queues))
    requires HoldsResults(queues)
    ensures HoldsResults(r.1)
  {
    var q := Queue(queues, tool);
    if q == [] then (Raised("ReplayedToolError", "no recorded result left for tool " + tool), queues)
    else (Replayed(q[0]), queues[tool := q[1..]])
  }

  /** Call the stubs one after the other. */
  function TakeAll(queues: Queues, tools: seq<string>): (r: (seq<Outcome>, Queues))
    requires HoldsResults(queues)
    ensures HoldsResults(r.1)
    decreases |tools|
  {
    if tools == [] then ([], queues)
    else
      var first := Take(queues, tools[0]);
      var rest := TakeAll(first.1, tools[1..]);
      ([first.0] + rest.0, rest.1)
  }

  // ----- Paired logs -----

  /** Each call is directly followed by its own result; other events may stand between the pairs. */
  predicate Paired(es: seq<Event>)
  {
    if es == [] then true
    else if es[0].ToolCall? then
      |es| >= 2 && es[1].ToolResult? && es[1].callId == es[0].callId && Paired(es[2..])
    else !es[0].ToolResult? && Paired(es[1..])
  }

  /** The tools called, in order. */
  function ToolsCalled(es: seq<Event>): seq<string>
  {
    if es == [] then []
    else (if es[0].ToolCall? then [es[0].tool] else []) + ToolsCalled(es[1..])
  }

  /** The recorded outcomes, in order. */
  function RecordedOutcomes(es: seq<Event>): seq<Outcome>
  {
    if es == [] then []
    else (if es[0].ToolResult? then [Replayed(es[0])] else []) + RecordedOutcomes(es[1..])
  }

  /** The results, in order. */
  function Results(es: seq<Event>): (r: seq<Event>)
    ensures forall k | 0 <= k < |r| :: r[k].ToolResult?
  {
    if es == [] then [] else if es[0].ToolResult? then [es[0]] + Results(es[1..]) else Results(es[1..])
  }

  /** A recorded error is raised again, with its text unless that is missing or empty; a recorded value is returned. */
  predicate Repeats(o: Outcome, recorded: Event)
    requires recorded.ToolResult?
  {
    if !recorded.isError then o == Returned(recorded.result)
    else
      && o.Raised? && o.kind == "ReplayedToolError"
      && match recorded.error
         case None => o.message == "recorded tool error"
         case Some(text) => o.message == if text == "" then "recorded tool error" else text
  }

  lemma {:induction false} OutcomesRepeat(es: seq<Event>)
    ensures |RecordedOutcomes(es)| == |Results(es)|
    ensures forall k | 0 <= k < |Results(es)| :: Repeats(RecordedOutcomes(es)[k], Results(es)[k])
  {
    if es != [] {
      OutcomesRepeat(es[1..]);
    }
  }

  /** The pairs of a paired log, filed. */
  function Pairs(es: seq<Event>): seq<Filed>
    requires Paired(es)
  {
    if es == [] then []
    else if es[0].ToolCall? then [Filed(es[0].tool, es[1])] + Pairs(es[2..])
    else Pairs(es[1..])
  }

  lemma OneMoreEvent(es: seq<Event>, e: Event)
    ensures forall id :: CallOf(es + [e], id) == if e.ToolCall? && e.callId == id then Some(e) else CallOf(es, id)
    ensures Matched(es + [e]) ==
            if e.ToolResult? && CallOf(es, e.callId).Some?
            then Matched(es) + [Filed(CallOf(es, e.callId).value.tool, e)]
            else Matched(es)
  {
    assert (es + [e])[..|es|] == es;
  }

  lemma {:induction false} MatchedPaired(es: seq<Event>, tail: seq<Event>)
    requires Paired(tail)
    ensures Matched(es + tail) == Matched(es) + Pairs(tail)
    decreases |tail|
  {
    if tail == [] {
      assert es + tail == es;
    } else if tail[0].ToolCall? {
      MatchedPaired(es + [tail[0], tail[1]], tail[2..]);
      PairIsMatched(es, tail);
    } else {
      MatchedPaired(es + [tail[0]], tail[1..]);
      OtherIsMatched(es, tail);
    }
  }

  lemma PairIsMatched(es: seq<Event>, tail: seq<Event>)
    requires Paired(tail) && tail != [] && tail[0].ToolCall?
    requires Matched(es + [tail[0], tail[1]] + tail[2..]) == Matched(es + [tail[0], tail[1]]) + Pairs(tail[2..])
    ensures Matched(es + tail) == Matched(es) + Pairs(tail)
  {
    MatchedPair(es, tail[0], tail[1]);
    SplitTwo(tail);
    MatchedMoves(es, [tail[0], tail[1]], tail[2..], [Filed(tail[0].tool, tail[1])]);
  }

  lemma OtherIsMatched(es: seq<Event>, tail: seq<Event>)
    requires Paired(tail) && tail != [] && !tail[0].ToolCall?
    requires Matched(es + [tail[0]] + tail[1..]) == Matched(es + [tail[0]]) + Pairs(tail[1..])
    ensures Matched(es + tail) == Matched(es) + Pairs(tail)
  {
    OneMoreEvent(es, tail[0]);
    SplitOne(tail);
    Assoc(es, [tail[0]], tail[1..]);
  }

  lemma MatchedMoves(es: seq<Event>, first: seq<Event>, rest: seq<Event>, gain: seq<Filed>)
    requires Paired(rest) && Matched(es + first) == Matched(es) + gain
    requires Matched(es + first + rest) == Matched(es + first) + Pairs(rest)
    ensures Matched(es + (first + rest)) == Matched(es) + (gain + Pairs(rest))
  {
    Assoc(es, first, rest);
    Assoc(Matched(es), gain, Pairs(rest));
  }

  lemma SplitOne<T>(s: seq<T>)
    requires s != []
    ensures s == [s[0]] + s[1..]
  {
  }

  lemma SplitTwo<T>(s: seq<T>)
    requires |s| >= 2
    ensures s == [s[0], s[1]] + s[2..]
  {
  }

  lemma MatchedPair(es: seq<Event>, call: Event, result: Event)
    requires call.ToolCall? && result.ToolResult? && result.callId == call.callId
    ensures Matched(es + [call, result]) == Matched(es) + [Filed(call.tool, result)]
  {
    OneMoreEvent(es, call);
    OneMoreEvent(es + [call], result);
    assert es + [call, result] == es + [call] + [result];
  }

  lemma {:induction false} QueueOfCons(f: Filed, fs: seq<Filed>, tool: string)
    ensures QueueOf([f] + fs, tool) == (if f.tool == tool then [f.result] else []) + QueueOf(fs, tool)
  {
    if fs == [] {
      assert [f] + fs == [f] && [f][..0] == [];
    } else {
      assert ([f] + fs)[..|fs|] == [f] + fs[..|fs| - 1];
      QueueOfCons(f, fs[..|fs| - 1], tool);
    }
  }

  /** Taking the first call's result leaves the queues of the later pairs. */
  lemma PairDrains(es: seq<Event>, queues: Queues)
    requires Paired(es) && es != [] && es[0].ToolCall? && HoldsResults(queues)
    requires forall t :: Queue(queues, t) == QueueOf(Pairs(es), t)
    ensures Take(queues, es[0].tool).0 == Replayed(es[1])
    ensures forall t :: Queue(Take(queues, es[0].tool).1, t) == QueueOf(Pairs(es[2..]), t)
  {
    var f, fs := Filed(es[0].tool, es[1]), Pairs(es[2..]);
    assert Pairs(es) == [f] + fs;
    forall t
      ensures Queue(queues, t) == (if f.tool == t then [f.result] else []) + QueueOf(fs, t)
    {
      QueueOfCons(f, fs, t);
    }
    TakeHead(queues, f.tool, f.result, QueueOf(fs, f.tool));
  }

  lemma TakeHead(queues: Queues, tool: string, result: Event, rest: seq<Event>)
    requires HoldsResults(queues) && Queue(queues, tool) == [result] + rest
    ensures result.ToolResult? && Take(queues, tool).0 == Replayed(result)
    ensures forall t :: Queue(Take(queues, tool).1, t) == if t == tool then rest else Queue(queues, t)
  {
    assert queues[tool][0] == result && queues[tool][1..] == rest;
  }

  lemma PairReads(es: seq<Event>)
    requires Paired(es) && es != [] && es[0].ToolCall?
    ensures ToolsCalled(es) == [es[0].tool] + ToolsCalled(es[2..])
    ensures RecordedOutcomes(es) == [Replayed(es[1])] + RecordedOutcomes(es[2..])
  {
    assert es[1..] == [es[1]] + es[2..];
    ReadsCons(es[0], es[1..]);
    ReadsCons(es[1], es[2..]);
    assert es == [es[0]] + es[1..];
  }

  lemma ReadsCons(e: Event, rest: seq<Event>)
    ensures ToolsCalled([e] + rest) == (if e.ToolCall? then [e.tool] else []) + ToolsCalled(rest)
    ensures RecordedOutcomes([e] + rest) == (if e.ToolResult? then [Replayed(e)] else []) + RecordedOutcomes(rest)
  {
    assert ([e] + rest)[1..] == rest;
  }

  /** Draining queues that hold a list of pairs yields their outcomes in order and empties them. */
  lemma {:induction false} DrainInOrder(es: seq<Event>, queues: Queues)
    requires Paired(es) && HoldsResults(queues)
    requires forall t :: Queue(queues, t) == QueueOf(Pairs(es), t)
    ensures TakeAll(queues, ToolsCalled(es)).0 == RecordedOutcomes(es)
    ensures forall t :: Queue(TakeAll(queues, ToolsCalled(es)).1, t) == []
    decreases |es|
  {
    if es == [] {
    } else if es[0].ToolCall? {
      PairDrains(es, queues);
      PairReads(es);
      DrainInOrder(es[2..], Take(queues, es[0].tool).1);
      assert ToolsCalled(es)[1..] == ToolsCalled(es[2..]);
    } else {
      DrainInOrder(es[1..], queues);
      assert ToolsCalled(es) == ToolsCalled(es[1..]);
    }
  }

  /**
    For a paired log, calling the stubs in the recorded order gives the recorded results back in order, values as
    values and errors as errors; afterwards every queue is empty, so one more call of any tool raises.
   */
  lemma StubsReplayPairedLog(es: seq<Event>, queues: Queues, extra: string)
    requires Paired(es) && HoldsResults(queues)
    requires forall t :: Queue(queues, t) == QueueOf(Matched(es), t)
    ensures var os := TakeAll(queues, ToolsCalled(es)).0;
            |os| == |Results(es)| && forall k | 0 <= k < |os| :: Repeats(os[k], Results(es)[k])
    ensures forall t :: Queue(TakeAll(queues, ToolsCalled(es)).1, t) == []
    ensures var o := Take(TakeAll(queues, ToolsCalled(es)).1, extra).0; o.Raised? && o.kind == "ReplayedToolError"
  {
    assert Matched(es) == Pairs(es) by {
      MatchedPaired([], es);
      assert [] + es == es;
    }
    DrainInOrder(es, queues);
    OutcomesRepeat(es);
  }

  // ----- The registry -----

  class Registry {
    var names: seq<string>
    var queues: Queues

    ghost predicate Valid()
      reads this
    {
      HoldsResults(queues)
    }

    constructor ()
      ensures Valid() && names == [] && queues == map[]
    {
      names := [];
      queues := map[];
    }

    /** File one result under a tool; the first one creates the tool's queue. */
    method File(f: Filed)
      modifies this
      ensures (names, queues) == FileUnder(old(names), old(queues), f)
    {
      if f.tool !in queues {
        names := names + [f.tool];
        queues := queues[f.tool := []];
      }
      queues := queues[f.tool := queues[f.tool] + [f.result]];
      assert queues == FileUnder(old(names), old(queues), f).1;
    }
  }

  /** The queues hold exactly the filed results, tool by tool, and their tools in order. */
  ghost predicate Holds(names: seq<string>, queues: Queues, fs: seq<Filed>)
  {
    && HoldsResults(queues)
    && names == NamesOf(fs)
    && (forall t :: t in queues <==> t in names)
    && (forall t :: Queue(queues, t) == QueueOf(fs, t))
  }

  function FileUnder(names: seq<string>, queues: Queues, f: Filed): (seq<string>, Queues)
  {
    (if f.tool in queues then names else names + [f.tool], queues[f.tool := Queue(queues, f.tool) + [f.result]])
  }

  lemma FilingHolds(names: seq<string>, queues: Queues, fs: seq<Filed>, f: Filed)
    requires Holds(names, queues, fs) && f.result.ToolResult?
    ensures var after := FileUnder(names, queues, f); Holds(after.0, after.1, fs + [f])
  {
    assert (fs + [f])[..|fs|] == fs;
    var after := FileUnder(names, queues, f);
    forall t
      ensures Queue(after.1, t) == QueueOf(fs + [f], t)
    {
    }
  }

  ghost predicate Knows(calls: map<nat, Event>, es: seq<Event>)
  {
    forall id :: CallOf(es, id) == if id in calls then Some(calls[id]) else None
  }

  /** The state of the pass after the events `es`. */
  ghost predicate Scanned(calls: map<nat, Event>, names: seq<string>, queues: Queues, es: seq<Event>)
  {
    Knows(calls, es) && Holds(names, queues, Matched(es))
  }

  lemma CallScanned(calls: map<nat, Event>, names: seq<string>, queues: Queues, es: seq<Event>, e: Event)
    requires Scanned(calls, names, queues, es) && e.ToolCall?
    ensures Scanned(calls[e.callId := e], names, queues, es + [e])
  {
    OneMoreEvent(es, e);
  }

  lemma OtherScanned(calls: map<nat, Event>, names: seq<string>, queues: Queues, es: seq<Event>, e: Event)
    requires Scanned(calls, names, queues, es) && !e.ToolCall? && (e.ToolResult? ==> e.callId !in calls)
    ensures Scanned(calls, names, queues, es + [e])
  {
    OneMoreEvent(es, e);
    assert e.ToolResult? ==> CallOf(es, e.callId) == None;
  }

  lemma ResultScanned(calls: map<nat, Event>, names: seq<string>, queues: Queues, es: seq<Event>, e: Event)
    requires Scanned(calls, names, queues, es) && e.ToolResult? && e.callId in calls
    ensures calls[e.callId].ToolCall?
    ensures var after := FileUnder(names, queues, Filed(calls[e.callId].tool, e));
            Scanned(calls, after.0, after.1, es + [e])
  {
    OneMoreEvent(es, e);
    assert CallOf(es, e.callId) == Some(calls[e.callId]);
    FilingHolds(names, queues, Matched(es), Filed(calls[e.callId].tool, e));
  }

  /** `from_events`: one pass over the log, remembering calls and filing results. */
  method FromEvents(es: seq<Event>) returns (r: Registry)
    ensures fresh(r) && Holds(r.names, r.queues, Matched(es))
  {
    r := new Registry();
    var calls: map<nat, Event> := map[];
    for i := 0 to |es|
      invariant fresh(r) && Scanned(calls, r.names, r.queues, es[..i])
    {
      assert es[..i + 1] == es[..i] + [es[i]];
      calls := Scan(r, calls, es[i], es[..i]);
    }
    assert es[..|es|] == es;
  }

  /** One event of the pass. */
  method Scan(r: Registry, calls: map<nat, Event>, e: Event, ghost es: seq<Event>) returns (calls': map<nat, Event>)
    requires Scanned(calls, r.names, r.queues, es)
    modifies r
    ensures Scanned(calls', r.names, r.queues, es + [e])
  {
    calls' := calls;
    if e.ToolCall? {
      CallScanned(calls, r.names, r.queues, es, e);
      calls' := calls[e.callId := e];
    } else if e.ToolResult? && e.callId in calls {
      ResultScanned(calls, r.names, r.queues, es, e);
      r.File(Filed(calls[e.callId].tool, e));
    } else {
      OtherScanned(calls, r.names, r.queues, es, e);
    }
  }
}
