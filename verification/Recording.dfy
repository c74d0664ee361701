/**
  How an adapter keeps its events: in memory, and through a trace writer when it has one.

  The list of events is never emptied, so a second run of the same adapter adds to it.
 */
module Recording {
  import opened Text
  import opened CanonicalJson
  import opened Events
  import opened StubRegistry
  import opened Runtime
  import opened TraceStore

  // ----- Writing through the store -----

  /** The requests that writing these events in order makes of a writer. */
  function Requests(es: seq<Event>, start: nat, environment: nat -> Probe): seq<Request>
  {
    if es == [] then []
    else Requests(es[..|es| - 1], start, environment) + [Request(es[|es| - 1], environment(start + |es| - 1))]
  }

  /** The live table has room for this trace from sequence number `n` on. */
  ghost predicate Room(live: map<Key, Event>, tid: nat, n: nat)
  {
    forall k: Key | k in live && k.0 == tid :: k.1 < n
  }

  /** Where a run starts from: the adapter's events and the writer's files and append count. */
  datatype Start = Start(events: seq<Event>, files: Files, appends: nat)

  class Recorder {
    const writer: TraceWriter?
    var events: seq<Event>

    constructor (writer: TraceWriter?)
      ensures this.writer == writer && events == []
    {
      this.writer := writer;
      this.events := [];
    }

    ghost predicate CanWrite(tid: nat, n: nat)
      reads this, writer
    {
      writer != null ==> writer.isOpen && Room(writer.files.live, tid, n)
    }

    /** So far this run has added exactly `es`, in memory and through the writer. */
    ghost predicate Wrote(es: seq<Event>, start: Start)
      reads this, writer
    {
      && events == start.events + es
      && (writer != null ==>
            && writer.files == RunFiles(start.files, Requests(es, start.appends, writer.environment))
            && writer.appends == start.appends + |es|)
    }

    ghost function Now(): Start
      reads this, writer
    {
      if writer == null then Start(events, Files(map[], map[]), 0) else Start(events, writer.files, writer.appends)
    }

    /** Keep the event in memory and hand it to the writer, if there is one. */
    method WriteEvent(event: Event, ghost done: seq<Event>, ghost after: seq<Event>, ghost start: Start)
      requires WellFormed(event) && CanWrite(event.traceId, event.seqNo)
      requires Wrote(done, start) && after == done + [event]
      modifies this`events, writer
      ensures CanWrite(event.traceId, event.seqNo + 1)
      ensures Wrote(after, start)
    {
      events := events + [event];
      if writer != null {
        ValidateIsIdempotent(event);
        RequestsSnoc(done, event, start.appends, writer.environment);
        var _ := writer.Append(event);
      }
    }
  }

  lemma RequestsSnoc(es: seq<Event>, e: Event, start: nat, environment: nat -> Probe)
    ensures Requests(es + [e], start, environment)
            == Requests(es, start, environment) + [Request(e, environment(start + |es|))]
  {
    assert (es + [e])[..|es|] == es;
  }

  /** What the final-answer hook is shown last: a trace with exactly these events. */
  predicate ShownAtEnd(r: Run, es: seq<Event>)
  {
    r.hookCalls != [] && r.hookCalls[|r.hookCalls| - 1].SawFinal? && r.hookCalls[|r.hookCalls| - 1].trace.events == es
  }

  /** Every event is of this trace. */
  predicate AllOf(es: seq<Event>, tid: nat)
  {
    forall i | 0 <= i < |es| :: es[i].traceId == tid
  }

  /** The list holds an event of another trace than `tid`. */
  predicate HoldsOther(es: seq<Event>, tid: nat)
  {
    exists i :: 0 <= i < |es| && es[i].traceId != tid
  }

  lemma OnlyOwn(prior: seq<Event>, es: seq<Event>, tid: nat)
    requires AllOf(es, tid)
    ensures HoldsOther(prior + es, tid) <==> HoldsOther(prior, tid)
  {
    var all := prior + es;
    if HoldsOther(prior, tid) {
      var i :| 0 <= i < |prior| && prior[i].traceId != tid;
      assert all[i] == prior[i];
    }
  }

  /** What an adapter kept of an earlier run is of another trace than the next one's. */
  lemma EarlierRunIsOther(prior: seq<Event>, run: seq<Event>, before: nat, tid: nat)
    requires run != [] && run[0].traceId == before && before != tid
    ensures HoldsOther(prior + run, tid)
  {
    assert (prior + run)[|prior|] == run[0];
  }

  lemma MessagesAreWellFormed(tid: nat, n: nat, role: Role, content: string, model: string)
    requires NameOk(Strip(model))
    ensures WellFormed(Clean(ModelMessage(tid, n, role, content, model)))
    ensures Clean(ModelMessage(tid, n, role, content, model)).modelId == Strip(model)
  {
    ValidateIsIdempotent(ModelMessage(tid, n, role, content, model));
    StripSpec(model);
  }

  lemma ResultIsWellFormed(tid: nat, n: nat, callId: nat, tool: string, o: Outcome)
    requires NameOk(Strip(tool))
    ensures WellFormed(ResultEvent(tid, n, callId, tool, o))
  {
    match o
    case Returned(value) => ValidateIsIdempotent(ToolResult(tid, n, callId, tool, value, false, Option.None));
    case Other(_, stored) => ValidateIsIdempotent(ToolResult(tid, n, callId, tool, stored, false, Option.None));
    case Raised(kind, message) =>
      ValidateIsIdempotent(ToolResult(tid, n, callId, tool, Null, true, Some(kind + ": " + message)));
  }
}
