/**
  The append-only trace store.

  The `events` table is a map keyed by (trace, sequence number), which is its primary key.  The
  file system around it is the live file and the files set aside by rotation, keyed by their stamp.
  The size test and the modification stamp are inputs from the environment.
 */
module TraceStore {
  import opened Text
  import opened Events

  type Key = (nat, nat)

  /** The live table and the rotated files. */
  datatype Files = Files(live: map<Key, Event>, rotated: map<nat, map<Key, Event>>)

  datatype AppendStatus = Appended | WriterClosed | InvalidEvent | DuplicateKey

  /** What the environment answers after one append: is the file over the threshold, and its stamp. */
  datatype Probe = Probe(over: bool, stamp: nat)

  function KeyOf(e: Event): Key
  {
    (e.traceId, e.seqNo)
  }

  /** Moving the live file onto a stamp that exists replaces the file set aside earlier. */
  function Rotate(f: Files, p: Probe): Files
  {
    if p.over then Files(map[], f.rotated[p.stamp := f.live]) else f
  }

  /** One append: validate, insert unless the key is taken, then test for rotation. */
  function AppendTo(f: Files, e: Event, p: Probe): (AppendStatus, Files)
  {
    match Validate(e)
    case None => (InvalidEvent, f)
    case Some(v) =>
      if KeyOf(v) in f.live then (DuplicateKey, f)
      else (Appended, Rotate(f.(live := f.live[KeyOf(v) := v]), p))
  }

  /**
    An append is refused as invalid, or else as a duplicate, and then changes nothing; otherwise the trimmed event is
    a row of the live file, and the file is set aside under the stamp when it is then over the threshold.
   */
  lemma AppendIs(f: Files, e: Event, p: Probe)
    ensures var (status, after) := AppendTo(f, e, p);
            if !Fits(e) then status == InvalidEvent && after == f
            else if (e.traceId, e.seqNo) in f.live then status == DuplicateKey && after == f
            else
              var live := f.live[(e.traceId, e.seqNo) := Clean(e)];
              status == Appended
              && if p.over then after.live == map[] && after.rotated == f.rotated[p.stamp := live]
                 else after.live == live && after.rotated == f.rotated
  {
    ValidateMeans(e);
  }

  // ----- Sequence numbers -----

  ghost function SeqsOf(live: map<Key, Event>, tid: nat): set<nat>
  {
    set k: Key | k in live && k.0 == tid :: k.1
  }

  ghost predicate IsNextSeq(live: map<Key, Event>, tid: nat, n: nat)
  {
    && (forall k: Key | k in live && k.0 == tid :: k.1 < n)
    && (n > 0 ==> (tid, n - 1) in live)
  }

  ghost predicate JustAbove(s: set<nat>, n: nat)
  {
    (forall x | x in s :: x < n) && (n > 0 ==> n - 1 in s)
  }

  lemma {:induction false} MaxExists(s: set<nat>)
    ensures exists n: nat :: JustAbove(s, n)
  {
    if s == {} {
      assert JustAbove(s, 0);
    } else {
      var x :| x in s;
      MaxExists(s - {x});
      var n: nat :| JustAbove(s - {x}, n);
      assert forall y | y in s :: y == x || y in s - {x};
      assert JustAbove(s, if x < n then n else x + 1);
    }
  }

  /** `COALESCE(MAX(seq), -1) + 1`. */
  ghost function NextSeq(live: map<Key, Event>, tid: nat): (n: nat)
    ensures IsNextSeq(live, tid, n)
  {
    MaxExists(SeqsOf(live, tid));
    var n: nat :| JustAbove(SeqsOf(live, tid), n);
    assert forall k: Key | k in live && k.0 == tid :: k.1 in SeqsOf(live, tid);
    n
  }

  lemma NextSeqIsUnique(live: map<Key, Event>, tid: nat, n: nat)
    requires IsNextSeq(live, tid, n)
    ensures NextSeq(live, tid) == n
  {
    var m := NextSeq(live, tid);
    assert (m > 0 ==> (tid, m - 1) in live) && (n > 0 ==> (tid, n - 1) in live);
  }

  // ----- Reading -----

  /** The rows of a trace with sequence number below `n`, in ascending order. */
  function Rows(live: map<Key, Event>, tid: nat, n: nat): seq<Event>
  {
    if n == 0 then []
    else Rows(live, tid, n - 1) + if (tid, n - 1) in live then [live[(tid, n - 1)]] else []
  }

  /** `SELECT payload ... WHERE trace_id = ? ORDER BY seq`. */
  ghost function EventsOf(live: map<Key, Event>, tid: nat): seq<Event>
  {
    Rows(live, tid, NextSeq(live, tid))
  }

  ghost predicate Increasing(s: seq<Event>)
  {
    forall i, j | 0 <= i < j < |s| :: s[i].seqNo < s[j].seqNo
  }

  /** The table holds each event under its own key. */
  ghost predicate Keyed(live: map<Key, Event>)
  {
    forall k | k in live :: KeyOf(live[k]) == k && WellFormed(live[k])
  }

  lemma {:induction false} RowsAre(live: map<Key, Event>, tid: nat, n: nat, e: Event)
    requires Keyed(live)
    ensures e in Rows(live, tid, n) <==> e.traceId == tid && e.seqNo < n && KeyOf(e) in live && live[KeyOf(e)] == e
  {
    if n > 0 {
      RowsAre(live, tid, n - 1, e);
    }
  }

  lemma {:induction false} RowsIncrease(live: map<Key, Event>, tid: nat, n: nat)
    requires Keyed(live)
    ensures Increasing(Rows(live, tid, n))
    ensures forall i | 0 <= i < |Rows(live, tid, n)| :: Rows(live, tid, n)[i].seqNo < n
  {
    if n > 0 {
      RowsIncrease(live, tid, n - 1);
    }
  }

  /** A read returns exactly the live events of the trace, in increasing sequence order. */
  lemma ReadIsExact(live: map<Key, Event>, tid: nat)
    requires Keyed(live)
    ensures forall e :: e in EventsOf(live, tid) <==> e.traceId == tid && KeyOf(e) in live && live[KeyOf(e)] == e
    ensures Increasing(EventsOf(live, tid))
  {
    var n := NextSeq(live, tid);
    RowsIncrease(live, tid, n);
    forall e
      ensures e in Rows(live, tid, n) <==> e.traceId == tid && KeyOf(e) in live && live[KeyOf(e)] == e
    {
      RowsAre(live, tid, n, e);
    }
  }

  lemma {:induction false} RowsFrame(a: map<Key, Event>, b: map<Key, Event>, tid: nat, n: nat)
    requires forall s: nat | s < n ::
               ((tid, s) in a <==> (tid, s) in b) && ((tid, s) in a ==> a[(tid, s)] == b[(tid, s)])
    ensures Rows(a, tid, n) == Rows(b, tid, n)
  {
    if n > 0 {
      RowsFrame(a, b, tid, n - 1);
    }
  }

  /** An event of one trace changes no other trace's read. */
  lemma ReadFrame(live: map<Key, Event>, e: Event, tid: nat)
    requires KeyOf(e) !in live && e.traceId != tid
    ensures EventsOf(live[KeyOf(e) := e], tid) == EventsOf(live, tid)
    ensures NextSeq(live[KeyOf(e) := e], tid) == NextSeq(live, tid)
  {
    var after := live[KeyOf(e) := e];
    NextSeqIsUnique(after, tid, NextSeq(live, tid));
    RowsFrame(live, after, tid, NextSeq(live, tid));
  }

  lemma {:induction false} RowsPadding(live: map<Key, Event>, tid: nat, n: nat, m: nat)
    requires n <= m && forall k: Key | k in live && k.0 == tid :: k.1 < n
    ensures Rows(live, tid, m) == Rows(live, tid, n)
  {
    if n < m {
      RowsPadding(live, tid, n, m - 1);
      assert (tid, m - 1) !in live;
    }
  }

  /** An event at or above `next_seq` never collides and is read back last. */
  lemma AppendAtNextSeqReadsLast(live: map<Key, Event>, e: Event)
    requires NextSeq(live, e.traceId) <= e.seqNo
    ensures KeyOf(e) !in live
    ensures EventsOf(live[KeyOf(e) := e], e.traceId) == EventsOf(live, e.traceId) + [e]
    ensures NextSeq(live[KeyOf(e) := e], e.traceId) == e.seqNo + 1
  {
    var tid, n := e.traceId, NextSeq(live, e.traceId);
    var after := live[KeyOf(e) := e];
    NextSeqIsUnique(after, tid, e.seqNo + 1);
    RowsFrame(live, after, tid, e.seqNo);
    RowsPadding(live, tid, n, e.seqNo);
  }

  // ----- Whole runs of the writer -----

  /** One request to the writer together with what the environment answers. */
  datatype Request = Request(event: Event, probe: Probe)

  /** The files after a list of requests. */
  function RunFiles(f: Files, rs: seq<Request>): Files
  {
    if rs == [] then f
    else AppendTo(RunFiles(f, rs[..|rs| - 1]), rs[|rs| - 1].event, rs[|rs| - 1].probe).1
  }

  function RunStatus(f: Files, rs: seq<Request>): (st: AppendStatus)
    requires rs != []
  {
    AppendTo(RunFiles(f, rs[..|rs| - 1]), rs[|rs| - 1].event, rs[|rs| - 1].probe).0
  }

  /** The validated events that were accepted, in order of arrival. */
  function Accepted(f: Files, rs: seq<Request>): seq<Event>
  {
    if rs == [] then []
    else if !RunStatus(f, rs).Appended? then Accepted(f, rs[..|rs| - 1])
    else Accepted(f, rs[..|rs| - 1]) + [Clean(rs[|rs| - 1].event)]
  }

  function OfTrace(es: seq<Event>, tid: nat): seq<Event>
  {
    if es == [] then []
    else if es[|es| - 1].traceId != tid then OfTrace(es[..|es| - 1], tid)
    else OfTrace(es[..|es| - 1], tid) + [es[|es| - 1]]
  }

  /** The validated events accepted since the live file was last set aside. */
  function SinceRotation(f: Files, rs: seq<Request>): seq<Event>
  {
    if rs == [] then []
    else if !RunStatus(f, rs).Appended? then SinceRotation(f, rs[..|rs| - 1])
    else if rs[|rs| - 1].probe.over then []
    else SinceRotation(f, rs[..|rs| - 1]) + [Clean(rs[|rs| - 1].event)]
  }

  lemma {:induction false} AcceptedAtMost(f: Files, rs: seq<Request>)
    ensures |Accepted(f, rs)| <= |rs|
  {
    if rs != [] {
      AcceptedAtMost(f, rs[..|rs| - 1]);
    }
  }

  /** When every request was accepted, so was the last, and so were the ones before it. */
  lemma AllAccepted(f: Files, rs: seq<Request>)
    requires rs != [] && |Accepted(f, rs)| == |rs|
    ensures RunStatus(f, rs).Appended? && Accepted(f, rs)[|rs| - 1] == Clean(rs[|rs| - 1].event)
    ensures Accepted(f, rs[..|rs| - 1]) == Accepted(f, rs)[..|rs| - 1]
  {
    AcceptedAtMost(f, rs[..|rs| - 1]);
  }

  /** Some accepted append set the live file aside at or after an accepted event of this trace. */
  predicate Hides(f: Files, rs: seq<Request>, tid: nat)
  {
    rs != [] &&
    (Hides(f, rs[..|rs| - 1], tid) || (Rotates(f, rs) && OfTrace(Accepted(f, rs), tid) != []))
  }

  /** The last request was accepted and set the live file aside; a refused append never gets to the size test. */
  predicate Rotates(f: Files, rs: seq<Request>)
    requires rs != []
  {
    RunStatus(f, rs).Appended? && rs[|rs| - 1].probe.over
  }

  lemma EmptyTable(tid: nat)
    ensures NextSeq(map[], tid) == 0 && EventsOf(map[], tid) == []
  {
    NextSeqIsUnique(map[], tid, 0);
  }

  lemma UnknownTrace(live: map<Key, Event>, tid: nat)
    ensures EventsOf(live, tid) == [] <==> forall k: Key | k in live :: k.0 != tid
    ensures EventsOf(live, tid) == [] <==> NextSeq(live, tid) == 0
  {
    var n := NextSeq(live, tid);
    if n > 0 {
      assert (tid, n - 1) in live;
    }
  }

  /**
    Under any interleaving of appends to many traces, rotations included, a trace whose accepted events
    since the last rotation came in increasing sequence order reads back as exactly those events.
   */
  lemma {:induction false} InterleavedRead(f: Files, rs: seq<Request>, tid: nat)
    requires EventsOf(f.live, tid) == []
    requires Increasing(OfTrace(SinceRotation(f, rs), tid))
    ensures var mine := OfTrace(SinceRotation(f, rs), tid);
            && EventsOf(RunFiles(f, rs).live, tid) == mine
            && NextSeq(RunFiles(f, rs).live, tid) == if mine == [] then 0 else mine[|mine| - 1].seqNo + 1
  {
    if rs == [] {
      UnknownTrace(f.live, tid);
    } else if Rotates(f, rs) {
      EmptyTable(tid);
    } else {
      var before, e := rs[..|rs| - 1], Clean(rs[|rs| - 1].event);
      SinceStep(f, rs, tid);
      InterleavedRead(f, before, tid);
      LiveStep(f, rs);
      if RunStatus(f, rs).Appended? {
        ReadAfterInsert(RunFiles(f, before).live, e, tid, OfTrace(SinceRotation(f, before), tid));
      }
    }
  }

  lemma LiveStep(f: Files, rs: seq<Request>)
    requires rs != [] && !Rotates(f, rs)
    ensures var live, e := RunFiles(f, rs[..|rs| - 1]).live, Clean(rs[|rs| - 1].event);
            if RunStatus(f, rs).Appended? then KeyOf(e) !in live && RunFiles(f, rs).live == live[KeyOf(e) := e]
            else RunFiles(f, rs).live == live
  {
  }

  lemma OfTraceSnoc(es: seq<Event>, e: Event, tid: nat)
    ensures OfTrace(es + [e], tid) == OfTrace(es, tid) + if e.traceId == tid then [e] else []
  {
    assert (es + [e])[..|es|] == es;
  }

  lemma SinceStep(f: Files, rs: seq<Request>, tid: nat)
    requires rs != [] && !Rotates(f, rs) && Increasing(OfTrace(SinceRotation(f, rs), tid))
    ensures var before, e := rs[..|rs| - 1], Clean(rs[|rs| - 1].event);
            && Increasing(OfTrace(SinceRotation(f, before), tid))
            && OfTrace(SinceRotation(f, rs), tid) == OfTrace(SinceRotation(f, before), tid) +
                 (if RunStatus(f, rs).Appended? && e.traceId == tid then [e] else [])
  {
    var before, e := rs[..|rs| - 1], Clean(rs[|rs| - 1].event);
    if RunStatus(f, rs).Appended? {
      OfTraceSnoc(SinceRotation(f, before), e, tid);
    }
    var earlier, mine := OfTrace(SinceRotation(f, before), tid), OfTrace(SinceRotation(f, rs), tid);
    assert forall i | 0 <= i < |earlier| :: mine[i] == earlier[i];
  }

  /**
    What can still be read of a trace is a suffix of its accepted events, and it is all of them exactly
    when no rotation hides some.
   */
  lemma {:induction false} SightOf(f: Files, rs: seq<Request>, tid: nat) returns (k: nat)
    ensures var mine := OfTrace(Accepted(f, rs), tid);
            k <= |mine| && OfTrace(SinceRotation(f, rs), tid) == mine[k..] && (k == 0 <==> !Hides(f, rs, tid))
  {
    if rs == [] {
      k := 0;
    } else {
      k := SightOf(f, rs[..|rs| - 1], tid);
      if Rotates(f, rs) {
        k := RotationHides(f, rs, tid, k);
      } else if RunStatus(f, rs).Appended? {
        var e := Clean(rs[|rs| - 1].event);
        OfTraceSnoc(Accepted(f, rs[..|rs| - 1]), e, tid);
        OfTraceSnoc(SinceRotation(f, rs[..|rs| - 1]), e, tid);
      }
    }
  }

  lemma RotationHides(f: Files, rs: seq<Request>, tid: nat, k: nat) returns (n: nat)
    requires rs != [] && Rotates(f, rs) && k <= |OfTrace(Accepted(f, rs[..|rs| - 1]), tid)|
    requires Hides(f, rs[..|rs| - 1], tid) ==> k > 0
    ensures n == |OfTrace(Accepted(f, rs), tid)| && SinceRotation(f, rs) == []
    ensures n == 0 <==> !Hides(f, rs, tid)
  {
    OfTraceSnoc(Accepted(f, rs[..|rs| - 1]), Clean(rs[|rs| - 1].event), tid);
    n := |OfTrace(Accepted(f, rs), tid)|;
  }

  /** Inserting an event above all earlier ones of its trace adds it at the end of that trace's read. */
  lemma ReadAfterInsert(live: map<Key, Event>, e: Event, tid: nat, mine: seq<Event>)
    requires KeyOf(e) !in live && EventsOf(live, tid) == mine
    requires NextSeq(live, tid) == if mine == [] then 0 else mine[|mine| - 1].seqNo + 1
    requires e.traceId == tid ==> Increasing(mine + [e])
    ensures var after := live[KeyOf(e) := e];
            if e.traceId == tid then EventsOf(after, tid) == mine + [e] && NextSeq(after, tid) == e.seqNo + 1
            else EventsOf(after, tid) == mine && NextSeq(after, tid) == NextSeq(live, tid)
  {
    if e.traceId == tid {
      assert mine != [] ==> (mine + [e])[|mine| - 1] == mine[|mine| - 1] && (mine + [e])[|mine|] == e;
      AppendAtNextSeqReadsLast(live, e);
    } else {
      ReadFrame(live, e, tid);
    }
  }

  // ----- Reachable stores -----

  const NO_FILES := Files(map[], map[])

  ghost predicate WellKept(f: Files)
  {
    Keyed(f.live) && forall s | s in f.rotated :: Keyed(f.rotated[s])
  }

  /** Every table that a writer fills or sets aside holds valid events, each under its own key. */
  lemma {:induction false} RunKeepsFiles(f: Files, rs: seq<Request>)
    requires WellKept(f)
    ensures WellKept(RunFiles(f, rs))
  {
    if rs != [] {
      RunKeepsFiles(f, rs[..|rs| - 1]);
      AppendKeepsFiles(RunFiles(f, rs[..|rs| - 1]), rs[|rs| - 1].event, rs[|rs| - 1].probe);
    }
  }

  lemma AppendKeepsFiles(f: Files, e: Event, p: Probe)
    requires WellKept(f)
    ensures WellKept(AppendTo(f, e, p).1)
  {
    ValidateIsIdempotent(e);
    if AppendTo(f, e, p).0 == Appended {
      assert Keyed(f.live[KeyOf(Clean(e)) := Clean(e)]);
    }
  }

  ghost predicate IsRow(live: map<Key, Event>, e: Event)
  {
    KeyOf(e) in live && live[KeyOf(e)] == e
  }

  /** The live rows are the events accepted since the last rotation. */
  lemma {:induction false} LiveIsSinceRotation(rs: seq<Request>, e: Event)
    ensures IsRow(RunFiles(NO_FILES, rs).live, e) <==> e in SinceRotation(NO_FILES, rs)
  {
    if rs != [] {
      LiveIsSinceRotation(rs[..|rs| - 1], e);
      if !Rotates(NO_FILES, rs) {
        LiveStep(NO_FILES, rs);
      }
    }
  }

  lemma {:induction false} OfTraceSpec(es: seq<Event>, tid: nat, e: Event)
    ensures e in OfTrace(es, tid) <==> e in es && e.traceId == tid
  {
    if es != [] {
      OfTraceSpec(es[..|es| - 1], tid, e);
      assert es == es[..|es| - 1] + [es[|es| - 1]];
    }
  }

  /**
    In every store that appends can produce, a read gives exactly the valid events of the trace that were
    accepted since the last rotation, in increasing sequence order.
   */
  lemma ReachableReadIsExact(rs: seq<Request>, tid: nat)
    ensures var live := RunFiles(NO_FILES, rs).live;
            && Keyed(live)
            && (forall e :: e in EventsOf(live, tid) <==> e in OfTrace(SinceRotation(NO_FILES, rs), tid))
            && Increasing(EventsOf(live, tid))
  {
    var live := RunFiles(NO_FILES, rs).live;
    RunKeepsFiles(NO_FILES, rs);
    ReadIsExact(live, tid);
    forall e
      ensures e in EventsOf(live, tid) <==> e in OfTrace(SinceRotation(NO_FILES, rs), tid)
    {
      LiveIsSinceRotation(rs, e);
      OfTraceSpec(SinceRotation(NO_FILES, rs), tid, e);
    }
  }

  // ----- Nothing is lost -----

  ghost predicate Held(f: Files, e: Event)
  {
    IsRow(f.live, e) || exists s :: s in f.rotated && IsRow(f.rotated[s], e)
  }

  /** The stamps onto which the live file was set aside, in order. */
  function StampsUsed(f: Files, rs: seq<Request>): seq<nat>
  {
    if rs == [] then []
    else if !Rotates(f, rs) then StampsUsed(f, rs[..|rs| - 1])
    else StampsUsed(f, rs[..|rs| - 1]) + [rs[|rs| - 1].probe.stamp]
  }

  ghost predicate AllDifferent<T>(s: seq<T>)
  {
    forall i, k | 0 <= i < k < |s| :: s[i] != s[k]
  }

  lemma AllDifferentSnoc<T>(s: seq<T>, x: T)
    ensures AllDifferent(s + [x]) <==> AllDifferent(s) && x !in s
  {
    var t := s + [x];
    assert forall i | 0 <= i < |s| :: t[i] == s[i];
    if AllDifferent(t) {
      assert forall i | 0 <= i < |s| :: t[i] != t[|s|];
    }
  }

  lemma {:induction false} StampsAreRotated(rs: seq<Request>, stamp: nat)
    ensures stamp in StampsUsed(NO_FILES, rs) <==> stamp in RunFiles(NO_FILES, rs).rotated
  {
    if rs != [] {
      StampsAreRotated(rs[..|rs| - 1], stamp);
    }
  }

  /** One accepted append with a fresh stamp adds its event and keeps every other one. */
  lemma AppendHolds(f: Files, e: Event, p: Probe, x: Event)
    requires AppendTo(f, e, p).0 == Appended
    requires p.over ==> p.stamp !in f.rotated
    ensures Held(AppendTo(f, e, p).1, x) <==> Held(f, x) || x == Clean(e)
  {
    var v := Clean(e);
    var live := f.live[KeyOf(v) := v];
    var after := AppendTo(f, e, p).1;
    assert IsRow(live, x) <==> IsRow(f.live, x) || x == v;
    if p.over {
      assert after.rotated[p.stamp] == live;
      assert forall s | s in f.rotated :: s in after.rotated && after.rotated[s] == f.rotated[s];
    }
  }

  /** With distinct stamps, the live and rotated files together hold the accepted events and no other. */
  lemma {:induction false} NothingIsLost(rs: seq<Request>, x: Event)
    requires AllDifferent(StampsUsed(NO_FILES, rs))
    ensures Held(RunFiles(NO_FILES, rs), x) <==> x in Accepted(NO_FILES, rs)
  {
    if rs != [] {
      var before, last := rs[..|rs| - 1], rs[|rs| - 1];
      if RunStatus(NO_FILES, rs).Appended? {
        if last.probe.over {
          AllDifferentSnoc(StampsUsed(NO_FILES, before), last.probe.stamp);
          StampsAreRotated(before, last.probe.stamp);
        }
        AppendHolds(RunFiles(NO_FILES, before), last.event, last.probe, x);
      }
      NothingIsLost(before, x);
    }
  }

  // ----- When an event is lost -----

  ghost predicate Apart(a: map<Key, Event>, b: map<Key, Event>)
  {
    forall x :: !(IsRow(a, x) && IsRow(b, x))
  }

  ghost predicate NotEmpty(a: map<Key, Event>)
  {
    exists x :: IsRow(a, x)
  }

  /** No event is in two files, and no file that was set aside is empty. */
  ghost predicate Tidy(f: Files)
  {
    && (forall s | s in f.rotated :: NotEmpty(f.rotated[s]) && Apart(f.rotated[s], f.live))
    && (forall s, t | s in f.rotated && t in f.rotated && s != t :: Apart(f.rotated[s], f.rotated[t]))
  }

  lemma RowsAfterInsert(live: map<Key, Event>, v: Event)
    requires KeyOf(v) !in live
    ensures forall x :: IsRow(live[KeyOf(v) := v], x) <==> IsRow(live, x) || x == v
  {
  }

  lemma StaysApart(a: map<Key, Event>, live: map<Key, Event>, v: Event)
    requires KeyOf(v) !in live && Apart(a, live) && !IsRow(a, v)
    ensures Apart(a, live[KeyOf(v) := v]) && Apart(live[KeyOf(v) := v], a)
  {
    RowsAfterInsert(live, v);
  }

  /** Whatever the stamp, an append adds at most its own event. */
  lemma AppendAddsOne(f: Files, e: Event, p: Probe, x: Event)
    ensures Held(AppendTo(f, e, p).1, x) ==> Held(f, x) || x == Clean(e)
  {
  }

  lemma InsertKeepsTidy(f: Files, v: Event)
    requires Tidy(f) && KeyOf(v) !in f.live && !Held(f, v)
    ensures Tidy(f.(live := f.live[KeyOf(v) := v])) && NotEmpty(f.live[KeyOf(v) := v])
  {
    forall s | s in f.rotated
      ensures Apart(f.rotated[s], f.live[KeyOf(v) := v])
    {
      StaysApart(f.rotated[s], f.live, v);
    }
    assert IsRow(f.live[KeyOf(v) := v], v);
  }

  lemma RotateKeepsTidy(f: Files, p: Probe)
    requires Tidy(f) && NotEmpty(f.live)
    ensures Tidy(Rotate(f, p))
  {
  }

  lemma AppendKeepsTidy(f: Files, e: Event, p: Probe)
    requires Tidy(f) && AppendTo(f, e, p).0 == Appended && !Held(f, Clean(e))
    ensures Tidy(AppendTo(f, e, p).1)
  {
    InsertKeepsTidy(f, Clean(e));
    RotateKeepsTidy(f.(live := f.live[KeyOf(Clean(e)) := Clean(e)]), p);
  }

  /** Rotating onto a stamp in use drops the events of the file set aside there before. */
  lemma ReuseLosesOne(f: Files, e: Event, p: Probe) returns (x: Event)
    requires Tidy(f) && AppendTo(f, e, p).0 == Appended && !Held(f, Clean(e))
    requires p.over && p.stamp in f.rotated
    ensures Held(f, x) && !Held(AppendTo(f, e, p).1, x)
  {
    x :| IsRow(f.rotated[p.stamp], x);
    var v := Clean(e);
    var after := AppendTo(f, e, p).1;
    StaysApart(f.rotated[p.stamp], f.live, v);
    assert !IsRow(after.rotated[p.stamp], x);
    forall s | s in after.rotated && s != p.stamp
      ensures !IsRow(after.rotated[s], x)
    {
      assert Apart(f.rotated[p.stamp], f.rotated[s]);
    }
  }

  /** Every accepted event is still in some file. */
  ghost predicate AllHeld(rs: seq<Request>)
  {
    forall x | x in Accepted(NO_FILES, rs) :: Held(RunFiles(NO_FILES, rs), x)
  }

  /**
    When no event is appended twice, every accepted event is still held exactly when no rotation that took
    place reused the stamp of an earlier one.
   */
  lemma {:induction false} NothingIsLostIffStampsDiffer(rs: seq<Request>)
    requires AllDifferent(Accepted(NO_FILES, rs))
    ensures AllHeld(rs) <==> AllDifferent(StampsUsed(NO_FILES, rs))
    ensures Tidy(RunFiles(NO_FILES, rs))
    ensures forall x | Held(RunFiles(NO_FILES, rs), x) :: x in Accepted(NO_FILES, rs)
  {
    if rs != [] {
      var before, last := rs[..|rs| - 1], rs[|rs| - 1];
      if RunStatus(NO_FILES, rs).Appended? {
        AllDifferentSnoc(Accepted(NO_FILES, before), Clean(last.event));
        NothingIsLostIffStampsDiffer(before);
        AcceptedStep(rs);
      } else {
        NothingIsLostIffStampsDiffer(before);
      }
    }
  }

  /** The files are tidy and hold accepted events only, and all of them exactly when no stamp was reused. */
  ghost predicate Settled(rs: seq<Request>)
  {
    && Tidy(RunFiles(NO_FILES, rs))
    && (forall x | Held(RunFiles(NO_FILES, rs), x) :: x in Accepted(NO_FILES, rs))
    && (AllHeld(rs) <==> AllDifferent(StampsUsed(NO_FILES, rs)))
  }

  lemma {:induction false} AcceptedStep(rs: seq<Request>)
    requires rs != [] && RunStatus(NO_FILES, rs).Appended?
    requires Settled(rs[..|rs| - 1]) && Clean(rs[|rs| - 1].event) !in Accepted(NO_FILES, rs[..|rs| - 1])
    ensures AllHeld(rs) <==> AllDifferent(StampsUsed(NO_FILES, rs))
    ensures Tidy(RunFiles(NO_FILES, rs))
    ensures forall x | Held(RunFiles(NO_FILES, rs), x) :: x in Accepted(NO_FILES, rs)
  {
    var before, e, p := rs[..|rs| - 1], rs[|rs| - 1].event, rs[|rs| - 1].probe;
    var f := RunFiles(NO_FILES, before);
    AppendKeepsTidy(f, e, p);
    forall x
      ensures Held(RunFiles(NO_FILES, rs), x) ==> Held(f, x) || x == Clean(e)
    {
      AppendAddsOne(f, e, p, x);
    }
    AllDifferentSnoc(StampsUsed(NO_FILES, before), p.stamp);
    StampsAreRotated(before, p.stamp);
    if p.over && p.stamp in f.rotated {
      var x := ReuseLosesOne(f, e, p);
      assert x in Accepted(NO_FILES, rs);
    } else {
      forall x
        ensures Held(RunFiles(NO_FILES, rs), x) <==> Held(f, x) || x == Clean(e)
      {
        AppendHolds(f, e, p, x);
      }
    }
  }

  /** A reused stamp loses an accepted event. */
  lemma SameStampLosesEvents(rs: seq<Request>) returns (x: Event)
    requires AllDifferent(Accepted(NO_FILES, rs)) && !AllDifferent(StampsUsed(NO_FILES, rs))
    ensures x in Accepted(NO_FILES, rs) && !Held(RunFiles(NO_FILES, rs), x)
  {
    NothingIsLostIffStampsDiffer(rs);
    x :| x in Accepted(NO_FILES, rs) && !Held(RunFiles(NO_FILES, rs), x);
  }

  /** Two rotating appends within the resolution of the stamp: the first event is gone. */
  lemma OneStampTwice(a: Event, b: Event, stamp: nat)
    requires WellFormed(a) && WellFormed(b) && a != b
    ensures var rs := [Request(a, Probe(true, stamp)), Request(b, Probe(true, stamp))];
            a in Accepted(NO_FILES, rs) && !Held(RunFiles(NO_FILES, rs), a)
  {
    var ra, rb := Request(a, Probe(true, stamp)), Request(b, Probe(true, stamp));
    OneMoreRequest(NO_FILES, [], ra);
    OneMoreRequest(NO_FILES, [ra], rb);
    assert RunFiles(NO_FILES, [ra]) == Files(map[], map[stamp := map[KeyOf(a) := a]]);
    assert RunFiles(NO_FILES, [ra, rb]) == Files(map[], map[stamp := map[KeyOf(b) := b]]);
    assert Accepted(NO_FILES, [ra, rb])[0] == a;
  }

  lemma OneMoreRequest(f: Files, rs: seq<Request>, r: Request)
    ensures var (status, files) := AppendTo(RunFiles(f, rs), r.event, r.probe);
            && RunFiles(f, rs + [r]) == files
            && Accepted(f, rs + [r]) == Accepted(f, rs) + if status == Appended then [Clean(r.event)] else []
  {
    assert (rs + [r])[..|rs|] == rs;
  }

  /** The aggregate over the rows of one trace. */
  method MaxSeqPlusOne(live: map<Key, Event>, tid: nat) returns (n: nat)
    ensures n == NextSeq(live, tid)
  {
    n := 0;
    var todo := live.Keys;
    while todo != {}
      invariant todo <= live.Keys
      invariant forall k: Key | k in live && k.0 == tid && k !in todo :: k.1 < n
      invariant n > 0 ==> (tid, n - 1) in live
    {
      var k: Key :| k in todo;
      if k.0 == tid && k.1 >= n {
        n := k.1 + 1;
      }
      todo := todo - {k};
    }
    NextSeqIsUnique(live, tid, n);
  }

  // ----- The writer -----

  /** `TraceWriter`: the open connection and the files it writes. */
  class TraceWriter {
    var isOpen: bool
    var files: Files
    var appends: nat
    const environment: nat -> Probe

    constructor (files: Files, environment: nat -> Probe)
      ensures isOpen && this.files == files && appends == 0 && this.environment == environment
    {
      this.isOpen := true;
      this.files := files;
      this.appends := 0;
      this.environment := environment;
    }

    method Close()
      modifies this`isOpen
      ensures !isOpen
    {
      isOpen := false;
    }

    /** Insert one validated row and never touch another; rotate when the file has grown too large. */
    method Append(event: Event) returns (status: AppendStatus)
      modifies this`files, this`appends
      ensures !isOpen ==> status == WriterClosed && files == old(files) && appends == old(appends)
      ensures isOpen ==> (status, files) == AppendTo(old(files), event, environment(old(appends)))
      ensures isOpen ==> appends == old(appends) + if status.Appended? then 1 else 0
      ensures status != Appended ==> files == old(files)
      ensures forall k | k in old(files.live) ::
                || (k in files.live && files.live[k] == old(files.live[k]))
                || exists s :: s in files.rotated && k in files.rotated[s] && files.rotated[s][k] == old(files.live[k])
    {
      if !isOpen {
        return WriterClosed;
      }
      var validated := Validate(event);
      if validated.None? {
        return InvalidEvent;
      }
      var row := validated.value;
      if KeyOf(row) in files.live {
        return DuplicateKey;
      }
      files := files.(live := files.live[KeyOf(row) := row]);
      MaybeRotate(environment(appends));
      appends := appends + 1;
      return Appended;
    }

    /** One above the greatest live sequence number of the trace, zero when it has no rows; an error once closed. */
    method NextSeqFor(tid: nat) returns (n: Option<nat>)
      ensures n == if isOpen then Some(NextSeq(files.live, tid)) else None
    {
      if !isOpen {
        return None;
      }
      var next := MaxSeqPlusOne(files.live, tid);
      return Some(next);
    }

    method MaybeRotate(probe: Probe)
      modifies this`files
      ensures files == Rotate(old(files), probe)
      ensures forall k | k in old(files.live) ::
                || (k in files.live && files.live[k] == old(files.live[k]))
                || exists s :: s in files.rotated && k in files.rotated[s] && files.rotated[s][k] == old(files.live[k])
    {
      if !probe.over {
        return;
      }
      files := Files(map[], files.rotated[probe.stamp := files.live]);
      assert probe.stamp in files.rotated;
    }
  }

  // ----- The reader -----

  /** The first event that carries a model identifier names the model of the trace. */
  function FirstModelId(es: seq<Event>): string
  {
    if es == [] then "unknown"
    else if es[0].ModelMessage? && es[0].modelId != "" then es[0].modelId
    else FirstModelId(es[1..])
  }

  /** `read_trace`: no trace without events; the stored final answer is always empty. */
  function TraceOf(tid: nat, es: seq<Event>): Option<Trace>
  {
    if es == [] then None else Some(Trace(tid, "", FirstModelId(es), es, ""))
  }

  /** `TraceReader`: a read-only view of the live table. */
  class TraceReader {
    const table: map<Key, Event>

    constructor (table: map<Key, Event>)
      ensures this.table == table
    {
      this.table := table;
    }

    method IterEvents(tid: nat) returns (es: seq<Event>)
      ensures es == EventsOf(table, tid)
    {
      var n := MaxSeqPlusOne(table, tid);
      es := Rows(table, tid, n);
    }

    method ReadTrace(tid: nat) returns (t: Option<Trace>)
      ensures t == TraceOf(tid, EventsOf(table, tid))
    {
      var es := IterEvents(tid);
      if es == [] {
        return None;
      }
      var modelId := "unknown";
      var i := 0;
      while i < |es|
        invariant 0 <= i <= |es|
        invariant modelId == "unknown" && FirstModelId(es) == FirstModelId(es[i..])
      {
        if es[i].ModelMessage? && es[i].modelId != "" {
          modelId := es[i].modelId;
          break;
        }
        assert es[i..][1..] == es[i + 1..];
        i := i + 1;
      }
      return Some(Trace(tid, "", modelId, es, ""));
    }
  }
}
