/**
  Structural replay: recompute the hash of every recorded call and report the ones that drifted.
 */
module StructuralReplay {
  import opened Text
  import opened CanonicalJson
  import opened Events
  import opened StubRegistry
  import opened Runtime
  import opened TraceStore
  import opened RawLoop

  datatype Mode = Strict | Tolerant

  datatype DriftDetail = DriftDetail(seqNo: nat, tool: string, expected: ArgsHash, actual: ArgsHash, args: Json)

  /** A report, or the error that strict mode raises on drift. */
  datatype Result =
    | Report(matches: nat, drifts: seq<DriftDetail>, exitCode: nat, finalAnswer: string)
    | DriftError(raised: seq<DriftDetail>)

  predicate Drifted(sha: string -> nat, call: Event)
    requires call.ToolCall?
  {
    ArgsDigest(sha, call.args) != call.argsHash
  }

  function DetailOf(sha: string -> nat, call: Event): DriftDetail
    requires call.ToolCall?
  {
    DriftDetail(call.seqNo, call.tool, call.argsHash, ArgsDigest(sha, call.args), call.args)
  }

  function DriftsOf(sha: string -> nat, es: seq<Event>): seq<DriftDetail>
  {
    if es == [] then []
    else
      var last := es[|es| - 1];
      DriftsOf(sha, es[..|es| - 1]) + if last.ToolCall? && Drifted(sha, last) then [DetailOf(sha, last)] else []
  }

  method Replay(reader: TraceReader, tid: nat, mode: Mode, sha: string -> nat) returns (r: Result)
    ensures var es := EventsOf(reader.table, tid);
            var drifts := DriftsOf(sha, es);
            if es == [] then r == Report(0, [], 1, "")
            else if mode == Strict && drifts != [] then r == DriftError(drifts)
            else
              && r.Report? && r.drifts == drifts && r.matches + |drifts| == |Calls(es)|
              && r.exitCode == 0 && r.finalAnswer == ""
  {
    var found := reader.ReadTrace(tid);
    if found.None? {
      return Report(0, [], 1, "");
    }
    var trace := found.value;
    var matches := 0;
    var drifts := [];
    for i := 0 to |trace.events|
      invariant drifts == DriftsOf(sha, trace.events[..i])
      invariant matches + |drifts| == |Calls(trace.events[..i])|
    {
      var ev := trace.events[i];
      assert trace.events[..i + 1][..i] == trace.events[..i];
      if ev.ToolCall? {
        var recomputed := ArgsDigest(sha, ev.args);
        if recomputed == ev.argsHash {
          matches := matches + 1;
        } else {
          drifts := drifts + [DriftDetail(ev.seqNo, ev.tool, ev.argsHash, recomputed, ev.args)];
        }
      }
    }
    assert trace.events[..|trace.events|] == trace.events;
    if mode == Strict && |drifts| > 0 {
      return DriftError(drifts);
    }
    return Report(matches, drifts, 0, trace.finalAnswer);
  }

  /** What is reported of a drifted call: its place and tool, the recorded hash, its arguments and their hash. */
  ghost predicate Reports(sha: string -> nat, call: Event, d: DriftDetail)
  {
    && call.ToolCall? && call.argsHash != Digest(sha(Dumps(call.args)))
    && d.seqNo == call.seqNo && d.tool == call.tool && d.args == call.args
    && d.expected == call.argsHash && d.actual == Digest(sha(Dumps(call.args)))
  }

  /** The drift list reports exactly the calls whose recorded hash is not that of their arguments. */
  lemma {:induction false} DriftsAreTheDriftedCalls(sha: string -> nat, es: seq<Event>, d: DriftDetail)
    ensures d in DriftsOf(sha, es) <==> exists e :: e in es && Reports(sha, e, d)
  {
    if es != [] {
      var before, last := es[..|es| - 1], es[|es| - 1];
      DriftsAreTheDriftedCalls(sha, before, d);
      assert es == before + [last];
      if d in DriftsOf(sha, before) {
        var e :| e in before && Reports(sha, e, d);
        assert e in es;
      } else if last.ToolCall? {
        assert Reports(sha, last, d) <==> Drifted(sha, last) && d == DetailOf(sha, last);
      }
    }
  }

  /** Without collisions, a call whose hash was taken of `original` drifts exactly when its arguments differ from it. */
  lemma DriftIffArgumentsChanged(sha: string -> nat, call: Event, original: Json)
    requires CollisionFree(sha)
    requires call.ToolCall? && IsDict(call.args) && IsDict(original)
    requires call.argsHash == ArgsDigest(sha, original)
    ensures Drifted(sha, call) <==> !SameValue(call.args, original)
  {
    DumpsIdentifiesValue(call.args, original);
  }

  /** What is recorded of a call drifts, without collisions, exactly when validation trimmed one of its keys. */
  lemma RecordedCallDriftsIff(sha: string -> nat, tid: nat, n: nat, callId: nat, tool: string, args: Json)
    requires CollisionFree(sha) && IsDict(args)
    ensures Drifted(sha, CallEvent(sha, tid, n, callId, tool, args)) <==> !TightArgs(args)
  {
    CleanArgsIsDict(args);
    TrimmingKeepsArgsIff(args);
    DriftIffArgumentsChanged(sha, CallEvent(sha, tid, n, callId, tool, args), args);
  }

  lemma TextCallStays(sha: string -> nat, s: Setup)
    requires s.tools != []
    ensures !Drifted(sha, FirstCall(sha, s))
  {
    TextArgsStay(s.task);
  }

  /** A log recorded by the loop never drifts. */
  lemma RecordedRunHasNoDrift(sha: string -> nat, render: Json -> string, s: Setup, allow: bool, o: Outcome)
    ensures DriftsOf(sha, RawLoopRun(sha, render, s, allow, o).events) == []
  {
    var u := UserMessage(s.tid, s.task, MODEL_ID);
    if s.tools == [] {
      var f := FinalMessage(s.tid, 1, Echo(s.task), MODEL_ID);
      NoDrift(sha, [u, f]);
    } else {
      var f := FinalMessage(s.tid, 3, FinalText(render, s.task, o), MODEL_ID);
      TextCallStays(sha, s);
      OneCallNoDrift(sha, u, FirstCall(sha, s), ResultEvent(s.tid, 2, s.callId, s.tools[0], o), f);
    }
  }

  lemma OneCallNoDrift(sha: string -> nat, u: Event, call: Event, result: Event, f: Event)
    requires !u.ToolCall? && !result.ToolCall? && !f.ToolCall?
    requires call.ToolCall? && !Drifted(sha, call)
    ensures DriftsOf(sha, [u]) == DriftsOf(sha, [u, call]) == DriftsOf(sha, [u, call, result, f]) == []
  {
    NoDrift(sha, [u]);
    NoDrift(sha, [u, call]);
    NoDrift(sha, [u, call, result, f]);
  }

  /** The drifts of a longer log are those of its parts, in order. */
  lemma {:induction false} DriftsConcat(sha: string -> nat, es: seq<Event>, later: seq<Event>)
    ensures DriftsOf(sha, es + later) == DriftsOf(sha, es) + DriftsOf(sha, later)
  {
    if later == [] {
      assert es + later == es;
    } else {
      assert (es + later)[..|es + later| - 1] == es + later[..|later| - 1];
      DriftsConcat(sha, es, later[..|later| - 1]);
    }
  }

  lemma NoDriftIff(sha: string -> nat, es: seq<Event>)
    ensures DriftsOf(sha, es) == [] <==> forall i | 0 <= i < |es| && es[i].ToolCall? :: !Drifted(sha, es[i])
  {
    if DriftsOf(sha, es) == [] {
      forall i | 0 <= i < |es| && es[i].ToolCall?
        ensures !Drifted(sha, es[i])
      {
        assert es[i] in es;
        DriftsAreTheDriftedCalls(sha, es, DetailOf(sha, es[i]));
      }
    } else {
      if forall i | 0 <= i < |es| && es[i].ToolCall? :: !Drifted(sha, es[i]) {
        NoDrift(sha, es);
      }
    }
  }

  lemma {:induction false} NoDrift(sha: string -> nat, es: seq<Event>)
    requires forall i | 0 <= i < |es| && es[i].ToolCall? :: !Drifted(sha, es[i])
    ensures DriftsOf(sha, es) == []
  {
    if es != [] {
      NoDrift(sha, es[..|es| - 1]);
    }
  }
}
