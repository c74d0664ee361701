/** The log-scanning triggers whose outcome depends on the order of events. */
module Heuristics {
  import opened Text
  import opened CanonicalJson
  import opened Events

  /** The digest of a call's tool and arguments, used to tell a repetition. */
  function RetryHash(sha: string -> nat, call: Event): nat
    requires call.ToolCall?
  {
    sha(Dumps(Obj([Member("tool", Str(call.tool)), Member("args", call.args)])))
  }

  predicate SameHash(sha: string -> nat, a: Event, b: Event)
    requires a.ToolCall? && b.ToolCall?
  {
    a.tool == b.tool && RetryHash(sha, a) == RetryHash(sha, b)
  }

  /** An error is a non-empty error text. */
  predicate Failed(e: Event)
  {
    e.ToolResult? && e.error.Some? && e.error.value != ""
  }

  predicate AnyFailed(es: seq<Event>)
  {
    exists i :: 0 <= i < |es| && Failed(es[i])
  }

  /** The last call of the whole log with this identifier. */
  function CallById(es: seq<Event>, callId: nat): (call: Option<Event>)
    ensures call.Some? ==> call.value.ToolCall? && call.value.callId == callId && call.value in es
  {
    if es == [] then None
    else
      var last := es[|es| - 1];
      if last.ToolCall? && last.callId == callId then Some(last) else CallById(es[..|es| - 1], callId)
  }

  /** The call at `k` is the last with this identifier. */
  predicate LastCallAt(es: seq<Event>, callId: nat, k: nat)
  {
    && k < |es| && es[k].ToolCall? && es[k].callId == callId
    && forall j | k < j < |es| :: !(es[j].ToolCall? && es[j].callId == callId)
  }

  /** What is looked up is the call at the last position that has the identifier. */
  lemma {:induction false} CallByIdIs(es: seq<Event>, callId: nat)
    ensures CallById(es, callId) == None <==> forall k: nat :: !LastCallAt(es, callId, k)
    ensures forall k: nat | LastCallAt(es, callId, k) :: CallById(es, callId) == Some(es[k])
  {
    if es != [] {
      var before, last := es[..|es| - 1], es[|es| - 1];
      CallByIdIs(before, callId);
      if last.ToolCall? && last.callId == callId {
        assert LastCallAt(es, callId, |before|);
      } else {
        forall k: nat
          ensures LastCallAt(es, callId, k) <==> LastCallAt(before, callId, k)
        {
          NotTheLast(before, last, callId, k);
        }
      }
    }
  }

  lemma NotTheLast(es: seq<Event>, e: Event, callId: nat, k: nat)
    requires !(e.ToolCall? && e.callId == callId)
    ensures LastCallAt(es + [e], callId, k) <==> LastCallAt(es, callId, k)
  {
    assert forall j | 0 <= j < |es| :: (es + [e])[j] == es[j];
  }

  /** The next call after position `i` is at `k`. */
  ghost predicate NextCallAt(es: seq<Event>, i: nat, k: nat)
  {
    i < k < |es| && es[k].ToolCall? && forall j | i < j < k :: !es[j].ToolCall?
  }

  /** The error at `i` is followed by a literal repetition of the call that failed, at `k`. */
  ghost predicate RepeatsFailure(sha: string -> nat, es: seq<Event>, i: nat, k: nat)
  {
    && NextCallAt(es, i, k) && Failed(es[i]) && CallById(es, es[i].callId).Some?
    && SameHash(sha, es[k], CallById(es, es[i].callId).value)
  }

  ghost predicate Misuse(sha: string -> nat, es: seq<Event>)
  {
    exists i, k :: RepeatsFailure(sha, es, i, k)
  }

  method IndexCalls(es: seq<Event>) returns (calls: map<nat, Event>)
    ensures forall id :: CallById(es, id) == if id in calls then Some(calls[id]) else None
  {
    calls := map[];
    for i := 0 to |es|
      invariant forall id :: CallById(es[..i], id) == if id in calls then Some(calls[id]) else None
    {
      assert es[..i + 1][..i] == es[..i];
      if es[i].ToolCall? {
        calls := calls[es[i].callId := es[i]];
      }
    }
    assert es[..|es|] == es;
  }

  /** The nested scan with its early exits: it fires exactly when some failing call is literally repeated next. */
  method TriggerToolResponseMisuse(sha: string -> nat, es: seq<Event>) returns (fires: bool)
    ensures fires <==> Misuse(sha, es)
  {
    if !AnyFailed(es) {
      return false;
    }
    var callById := IndexCalls(es);
    for i := 0 to |es|
      invariant forall j: nat, k: nat | j < i :: !RepeatsFailure(sha, es, j, k)
    {
      if Failed(es[i]) && es[i].callId in callById {
        var failing := callById[es[i].callId];
        assert CallById(es, es[i].callId) == Some(failing);
        var k := i + 1;
        while k < |es| && !es[k].ToolCall?
          invariant i < k <= |es|
          invariant forall j | i < j < k :: !es[j].ToolCall?
        {
          k := k + 1;
        }
        if k < |es| && SameHash(sha, es[k], failing) {
          assert RepeatsFailure(sha, es, i, k);
          return true;
        }
        assert forall m: nat | NextCallAt(es, i, m) :: m == k;
      } else {
        assert Failed(es[i]) ==> CallById(es, es[i].callId) == None;
      }
    }
    return false;
  }

  /** Without collisions, a repetition is the same tool with the same arguments. */
  lemma SameHashMeansSameCall(sha: string -> nat, a: Event, b: Event)
    requires CollisionFree(sha) && a.ToolCall? && b.ToolCall? && IsDict(a.args) && IsDict(b.args)
    ensures SameHash(sha, a, b) <==> a.tool == b.tool && SameValue(a.args, b.args)
  {
    if a.tool == b.tool {
      var x := Obj([Member("tool", Str(a.tool)), Member("args", a.args)]);
      var y := Obj([Member("tool", Str(b.tool)), Member("args", b.args)]);
      WrapperIsDict(a.tool, a.args);
      WrapperIsDict(b.tool, b.args);
      DumpsIdentifiesValue(x, y);
      WrapperSame(a.tool, a.args, b.args);
    }
  }

  lemma WrapperIsDict(tool: string, args: Json)
    requires IsDict(args)
    ensures IsDict(Obj([Member("tool", Str(tool)), Member("args", args)]))
  {
    var members := [Member("tool", Str(tool)), Member("args", args)];
    assert members[0].key != members[1].key;
    assert IsDict(members[0].value) && IsDict(members[1].value);
  }

  lemma WrapperSame(tool: string, x: Json, y: Json)
    ensures SameValue(Obj([Member("tool", Str(tool)), Member("args", x)]),
                      Obj([Member("tool", Str(tool)), Member("args", y)]))
            <==> SameValue(x, y)
  {
    var m, n := [Member("tool", Str(tool)), Member("args", x)], [Member("tool", Str(tool)), Member("args", y)];
    assert Keys(m) == {"tool", "args"} by {
      assert m[0] in m && m[1] in m;
    }
    assert Keys(n) == {"tool", "args"} by {
      assert n[0] in n && n[1] in n;
    }
    assert m[1] in m && n[1] in n && m[0].key[0] != m[1].key[0];
    assert SameValue(Str(tool), Str(tool));
  }

  // ----- Retry loop -----

  /** `n` calls in a row, from position `i`, all equal to the first. */
  ghost predicate Window(sha: string -> nat, calls: seq<Event>, i: nat, n: nat)
    requires forall j | 0 <= j < |calls| :: calls[j].ToolCall?
  {
    n >= 1 && i + n <= |calls| && forall j | i <= j < i + n :: SameHash(sha, calls[i], calls[j])
  }

  ghost predicate HasWindow(sha: string -> nat, calls: seq<Event>, n: nat)
    requires forall j | 0 <= j < |calls| :: calls[j].ToolCall?
  {
    exists i: nat :: Window(sha, calls, i, n)
  }

  /** The threshold that takes effect: a single call never makes a loop. */
  function Effective(threshold: int): nat
  {
    if threshold < 2 then 2 else threshold
  }

  lemma BreakInside(sha: string -> nat, calls: seq<Event>, i: nat, n: nat, b: nat)
    requires forall j | 0 <= j < |calls| :: calls[j].ToolCall?
    requires i < b < i + n <= |calls| && !SameHash(sha, calls[b - 1], calls[b])
    ensures !Window(sha, calls, i, n)
  {
  }

  /** The counter fires exactly when some window of the threshold's length, at least two, is constant. */
  method TriggerRetryLoop(sha: string -> nat, es: seq<Event>, threshold: int) returns (fires: bool)
    ensures fires <==> HasWindow(sha, Calls(es), Effective(threshold))
  {
    var calls := Calls(es);
    if |calls| < threshold {
      return false;
    }
    var consecutive := 1;
    var k := 1;
    while k < |calls|
      invariant 1 <= k && (k <= |calls| || |calls| == 0)
      invariant 1 <= consecutive <= k && (k <= |calls| ==> Window(sha, calls, k - consecutive, consecutive))
      invariant |calls| > 0 && consecutive < k ==> !SameHash(sha, calls[k - consecutive - 1], calls[k - consecutive])
      invariant consecutive < Effective(threshold)
      invariant forall i: nat | i + Effective(threshold) <= k :: !Window(sha, calls, i, Effective(threshold))
    {
      if SameHash(sha, calls[k - 1], calls[k]) {
        consecutive := consecutive + 1;
        if consecutive >= threshold {
          var start: nat := k + 1 - consecutive;
          assert consecutive == Effective(threshold);
          assert Window(sha, calls, start, Effective(threshold));
          return true;
        }
      } else {
        consecutive := 1;
      }
      k := k + 1;
      forall i: nat | i + Effective(threshold) == k
        ensures !Window(sha, calls, i, Effective(threshold))
      {
        BreakInside(sha, calls, i, Effective(threshold), k - consecutive);
      }
    }
    return false;
  }

  // ----- Unexpected failure -----

  ghost predicate Unexpected(sha: string -> nat, es: seq<Event>)
  {
    AnyFailed(es) && !Misuse(sha, es)
  }

  method TriggerUnexpectedToolFailure(sha: string -> nat, es: seq<Event>) returns (fires: bool)
    ensures fires <==> Unexpected(sha, es)
    ensures AnyFailed(es) <==> Misuse(sha, es) != fires
  {
    FailureTriggersPartition(sha, es);
    if !AnyFailed(es) {
      return false;
    }
    var misuse := TriggerToolResponseMisuse(sha, es);
    return !misuse;
  }

  /** On a log with an error exactly one of the two triggers fires; without an error neither does. */
  lemma FailureTriggersPartition(sha: string -> nat, es: seq<Event>)
    ensures AnyFailed(es) <==> Misuse(sha, es) != Unexpected(sha, es)
    ensures !(Misuse(sha, es) && Unexpected(sha, es))
  {
    if Misuse(sha, es) {
      var i: nat, k: nat :| RepeatsFailure(sha, es, i, k);
      assert Failed(es[i]);
    }
  }
}
