/** Running a chain of verifiers on a finished trace and persisting its verdict as the next event. */
module VerificationGate {
  import opened Text
  import opened Events
  import opened TraceStore
  import opened Claims
  import opened ClaimProperties
  import ClaimVerdicts
  import CanonicalJson
  import StubRegistry
  import RawLoop
  import Recording
  import ReplayExec

  /** `VerificationChain.run`: the verdicts of all verifiers, in order. */
  function AllVerdicts(outputs: seq<seq<ClaimVerdict>>): seq<ClaimVerdict>
  {
    if outputs == [] then [] else AllVerdicts(outputs[..|outputs| - 1]) + outputs[|outputs| - 1]
  }

  method RunChain(outputs: seq<seq<ClaimVerdict>>) returns (claims: seq<ClaimVerdict>)
    ensures claims == AllVerdicts(outputs)
  {
    claims := [];
    for i := 0 to |outputs|
      invariant claims == AllVerdicts(outputs[..i])
    {
      assert outputs[..i + 1][..i] == outputs[..i];
      claims := claims + outputs[i];
    }
    assert outputs[..|outputs|] == outputs;
  }

  /** The verdicts of a longer chain are those of its parts, in order. */
  lemma {:induction false} ChainConcat(a: seq<seq<ClaimVerdict>>, b: seq<seq<ClaimVerdict>>)
    ensures AllVerdicts(a + b) == AllVerdicts(a) + AllVerdicts(b)
  {
    if b == [] {
      assert a + b == a;
    } else {
      var before, last := b[..|b| - 1], b[|b| - 1];
      assert (a + b)[..|a + b| - 1] == a + before;
      ChainConcat(a, before);
      assert AllVerdicts(a) + AllVerdicts(before) + last == AllVerdicts(a) + (AllVerdicts(before) + last);
    }
  }

  /** At threshold one the chain passes exactly when every verifier's own list passes. */
  lemma {:induction false} ChainPassesIffAllPass(outputs: seq<seq<ClaimVerdict>>)
    ensures Passed(AllVerdicts(outputs), 1.0) <==> forall i | 0 <= i < |outputs| :: Passed(outputs[i], 1.0)
  {
    if outputs != [] {
      var before := outputs[..|outputs| - 1];
      ChainPassesIffAllPass(before);
      FullThresholdConcatenates(AllVerdicts(before), outputs[|outputs| - 1]);
      assert forall i | 0 <= i < |before| :: outputs[i] == before[i];
    }
  }

  predicate IsNumeric(v: ClaimVerdict)
  {
    v.observed.Num? && (v.expected.Some? ==> v.expected.value.Num?)
  }

  /** The event keeps the numeric verdicts only. */
  function Records(vs: seq<ClaimVerdict>): seq<ClaimRecord>
  {
    if vs == [] then []
    else
      Records(vs[..|vs| - 1]) +
      if IsNumeric(vs[|vs| - 1]) then [ClaimRecord(vs[|vs| - 1].claim, vs[|vs| - 1].status == Verified)] else []
  }

  /** The persisted verdict: outcome and coverage of all verdicts, records of the numeric ones. */
  function VerdictOf(tid: nat, n: nat, vs: seq<ClaimVerdict>, threshold: real): Event
  {
    Clean(Verdict(tid, n, Passed(vs, threshold), Coverage(vs), Records(vs)))
  }

  lemma VerdictIsWellFormed(tid: nat, n: nat, vs: seq<ClaimVerdict>, threshold: real)
    ensures WellFormed(VerdictOf(tid, n, vs, threshold))
  {
    CoverageIsFraction(vs);
    ValidateIsIdempotent(Verdict(tid, n, Passed(vs, threshold), Coverage(vs), Records(vs)));
  }

  /** `VerificationGate._build_verdict`: the loop that keeps the numeric verdicts. */
  method BuildVerdict(tid: nat, n: nat, vs: seq<ClaimVerdict>, threshold: real) returns (verdict: Event)
    ensures verdict == VerdictOf(tid, n, vs, threshold)
  {
    var perClaim: seq<ClaimRecord> := [];
    for i := 0 to |vs|
      invariant perClaim == Records(vs[..i])
    {
      assert vs[..i + 1][..i] == vs[..i];
      if IsNumeric(vs[i]) {
        perClaim := perClaim + [ClaimRecord(vs[i].claim, vs[i].status == Verified)];
      }
    }
    assert vs[..|vs|] == vs;
    verdict := Clean(Verdict(tid, n, Passed(vs, threshold), Coverage(vs), perClaim));
  }

  /**
    `VerificationGate.run`: a closed writer is an error; otherwise the verdict gets the next sequence
    number, is always accepted, and is read back last unless its own append rotates.
   */
  method RunGate(writer: TraceWriter, tid: nat, outputs: seq<seq<ClaimVerdict>>, threshold: real)
    returns (verdict: Option<Event>)
    modifies writer`files, writer`appends
    ensures !writer.isOpen ==> verdict == None && writer.files == old(writer.files)
    ensures writer.isOpen ==>
              && verdict == Some(VerdictOf(tid, NextSeq(old(writer.files.live), tid), AllVerdicts(outputs), threshold))
              && (Appended, writer.files)
                 == AppendTo(old(writer.files), verdict.value, writer.environment(old(writer.appends)))
              && EventsOf(writer.files.live, tid) ==
                 if writer.environment(old(writer.appends)).over then []
                 else EventsOf(old(writer.files.live), tid) + [verdict.value]
  {
    var vs := RunChain(outputs);
    var n := writer.NextSeqFor(tid);
    if n.None? {
      return None;
    }
    var v := BuildVerdict(tid, n.value, vs, threshold);
    VerdictFits(writer.files, tid, vs, threshold, writer.environment(writer.appends));
    var _ := writer.Append(v);
    return Some(v);
  }

  /** The verdict of any chain is accepted, and read back after what is live of its trace unless it rotates. */
  lemma VerdictFits(f: Files, tid: nat, vs: seq<ClaimVerdict>, threshold: real, p: Probe)
    ensures var v := VerdictOf(tid, NextSeq(f.live, tid), vs, threshold);
            var after := AppendTo(f, v, p);
            after.0 == Appended && EventsOf(after.1.live, tid) == if p.over then [] else EventsOf(f.live, tid) + [v]
  {
    var v := VerdictOf(tid, NextSeq(f.live, tid), vs, threshold);
    VerdictIsWellFormed(tid, NextSeq(f.live, tid), vs, threshold);
    ValidateIsIdempotent(v);
    AppendAtNextSeqReadsLast(f.live, v);
    EmptyTable(tid);
  }

  lemma JudgedRunIsRead(f: Files, es: seq<Event>, start: nat, environment: nat -> Probe, tid: nat,
                        vs: seq<ClaimVerdict>, threshold: real, p: Probe)
    requires ReplayExec.InTurn(es, tid)
    requires forall k: Key | k in f.live :: k.0 != tid
    ensures var recorded := RunFiles(f, Recording.Requests(es, start, environment));
            var v := VerdictOf(tid, NextSeq(recorded.live, tid), vs, threshold);
            && ReplayExec.Verdicts([v])
            && AppendTo(recorded, v, p).0 == Appended
            && EventsOf(AppendTo(recorded, v, p).1.live, tid)
               == if p.over then [] else (es + [v])[ReplayExec.Hidden(environment, start, |es|)..]
  {
    var recorded := RunFiles(f, Recording.Requests(es, start, environment));
    var k := ReplayExec.Hidden(environment, start, |es|);
    ReplayExec.FreshRunIsRead(f, es, start, environment, tid);
    VerdictFits(recorded, tid, vs, threshold, p);
    VerdictIsVerdict(tid, NextSeq(recorded.live, tid), vs, threshold);
    SuffixSnoc(es, VerdictOf(tid, NextSeq(recorded.live, tid), vs, threshold), k);
  }

  lemma VerdictIsVerdict(tid: nat, n: nat, vs: seq<ClaimVerdict>, threshold: real)
    ensures ReplayExec.Verdicts([VerdictOf(tid, n, vs, threshold)])
  {
    VerdictIsWellFormed(tid, n, vs, threshold);
  }

  lemma SuffixSnoc(es: seq<Event>, v: Event, k: nat)
    requires k <= |es|
    ensures es[k..] + [v] == (es + [v])[k..]
  {
  }

  /**
    Record, verify, replay: a run written through the adapter's own writer and then judged by any chain
    reads back from the last rotation on, the verdict at its end.  It replays as if it had not been judged
    exactly when none of its appends, the verdict's included, rotates.
   */
  lemma VerifiedRunReplays(sha: string -> nat, render: CanonicalJson.Json -> string, s: RawLoop.Setup, allow: bool,
                           o: StubRegistry.Outcome, f: Files, start: nat, environment: nat -> Probe,
                           ids: ReplayExec.Ids, vs: seq<ClaimVerdict>, threshold: real, p: Probe)
    requires forall k: Key | k in f.live :: k.0 != s.tid
    ensures var r := RawLoop.RawLoopRun(sha, render, s, allow, o);
            var recorded := RunFiles(f, Recording.Requests(r.events, start, environment));
            var v := VerdictOf(s.tid, NextSeq(recorded.live, s.tid), vs, threshold);
            var after := AppendTo(recorded, v, p);
            var hidden := ReplayExec.RotatesWithin(environment, start, |r.events|) || p.over;
            && after.0 == Appended
            && ReplayExec.ReplayReport(sha, render, EventsOf(after.1.live, s.tid), ids).exitCode
               == ReplayExec.ExitCode(render, s, r.exit, o, hidden)
  {
    var r := RawLoop.RawLoopRun(sha, render, s, allow, o);
    var recorded := RunFiles(f, Recording.Requests(r.events, start, environment));
    var v := VerdictOf(s.tid, NextSeq(recorded.live, s.tid), vs, threshold);
    var k := ReplayExec.Hidden(environment, start, |r.events|);
    ReplayExec.RunIsWellFormed(sha, render, s, allow, o);
    JudgedRunIsRead(f, r.events, start, environment, s.tid, vs, threshold, p);
    ReplayExec.HiddenIffRotates(environment, start, |r.events|);
    ReplayExec.CutRunReplays(sha, render, s, allow, o, [v], k, ids);
  }

  /** A self-certified answer is persisted as verified exactly when it makes no range claim. */
  lemma PersistedIdentityVerdict(tid: nat, n: nat, m: Matches, valueOf: string -> real, floatOf: string -> Option<real>,
                                 tol: real, threshold: real)
    requires threshold <= 1.0
    ensures var cs := Extracted(m, valueOf);
            var v := VerdictOf(tid, n, Judged(floatOf, tol, IdentitySource, cs), threshold);
            v.verified <==> forall i | 0 <= i < |cs| :: cs[i].kind != Range
  {
    IdentityPipeline(m, valueOf, floatOf, tol, threshold);
  }

  /** A record stands for a numeric verdict, and passes exactly when that verdict is verified. */
  lemma {:induction false} RecordsSpec(vs: seq<ClaimVerdict>, r: ClaimRecord)
    ensures r in Records(vs) <==>
            exists i :: 0 <= i < |vs| && IsNumeric(vs[i]) && r == ClaimRecord(vs[i].claim, vs[i].status == Verified)
  {
    if vs != [] {
      var before := vs[..|vs| - 1];
      RecordsSpec(before, r);
      assert forall i | 0 <= i < |before| :: before[i] == vs[i];
    }
  }

  // ----- The persisted verdict -----

  /** The verdicts that the event can keep: of numbers, judged against numbers or nothing. */
  function Numeric(vs: seq<ClaimVerdict>): seq<ClaimVerdict>
  {
    if vs == [] then []
    else if vs[|vs| - 1].observed.Num? && (vs[|vs| - 1].expected == None || vs[|vs| - 1].expected.value.Num?) then
      Numeric(vs[..|vs| - 1]) + [vs[|vs| - 1]]
    else Numeric(vs[..|vs| - 1])
  }

  lemma {:induction false} RecordsAre(vs: seq<ClaimVerdict>)
    ensures |Records(vs)| == |Numeric(vs)|
    ensures forall k | 0 <= k < |Records(vs)| ::
              Records(vs)[k].claimText == Numeric(vs)[k].claim
              && (Records(vs)[k].passed <==> Numeric(vs)[k].status == Verified)
  {
    if vs != [] {
      RecordsAre(vs[..|vs| - 1]);
    }
  }

  /** The share of verified claims, all of them when there is none. */
  ghost predicate CoverageIs(vs: seq<ClaimVerdict>, coverage: real)
  {
    if vs == [] then coverage == 1.0
    else coverage * |vs| as real == |ClaimVerdicts.PositionsOf(Verified, vs)| as real
  }

  /** One record per numeric verdict, in order, with its trimmed text and whether it was verified. */
  predicate KeepsNumeric(claims: seq<ClaimRecord>, vs: seq<ClaimVerdict>)
  {
    && |claims| == |Numeric(vs)|
    && forall k | 0 <= k < |claims| ::
         && claims[k].claimText == Strip(Numeric(vs)[k].claim)
         && (claims[k].passed <==> Numeric(vs)[k].status == Verified)
  }

  /**
    What is persisted: verified exactly when there is no claim, or none is incorrect and the verified ones reach the
    threshold's share; their share; and the numeric verdicts.
   */
  lemma VerdictIs(tid: nat, n: nat, vs: seq<ClaimVerdict>, threshold: real)
    ensures var v := VerdictOf(tid, n, vs, threshold);
            && v.Verdict? && v.traceId == tid && v.seqNo == n
            && CoverageIs(vs, v.coverage) && KeepsNumeric(v.perClaim, vs)
            && (v.verified <==>
                || vs == []
                || ((forall i | 0 <= i < |vs| :: vs[i].status != Incorrect)
                    && |ClaimVerdicts.PositionsOf(Verified, vs)| as real >= threshold * |vs| as real))
  {
    PassedMeans(vs, threshold);
    NoIncorrect(vs);
    ClaimVerdicts.CountIsCardinality(Verified, vs);
    RecordsAre(vs);
    CoverageMeans(vs);
  }

  lemma CoverageMeans(vs: seq<ClaimVerdict>)
    ensures CoverageIs(vs, Coverage(vs))
  {
    ClaimVerdicts.CountIsCardinality(Verified, vs);
  }
}
