/**
  The four event types of the trace log, and what constructing or re-validating one does.

  Wall-clock stamps, message and response identifiers are left out; UUIDs are natural numbers.
 */
module Events {
  import opened Text
  import opened CanonicalJson

  datatype Role = System | User | Assistant | ToolRole

  /** `args_hash` is either empty or a digest; a digest is a number instead of its hex text. */
  datatype ArgsHash = Unset | Digest(value: nat)

  datatype ClaimRecord = ClaimRecord(claimText: string, passed: bool)

  datatype Event =
    | ToolCall(traceId: nat, seqNo: nat, callId: nat, tool: string, args: Json, argsHash: ArgsHash)
    | ToolResult(traceId: nat, seqNo: nat, callId: nat, tool: string, result: Json, isError: bool,
                 error: Option<string>)
    | ModelMessage(traceId: nat, seqNo: nat, role: Role, content: string, modelId: string)
    | Verdict(traceId: nat, seqNo: nat, verified: bool, coverage: real, perClaim: seq<ClaimRecord>)

  datatype Trace = Trace(traceId: nat, taskId: string, modelId: string, events: seq<Event>, finalAnswer: string)

  /** The digest of the canonical payload; `sha` stands for SHA-256 over its UTF-8 bytes. */
  function ArgsDigest(sha: string -> nat, args: Json): ArgsHash
  {
    Digest(sha(Dumps(args)))
  }

  /** No two payloads share a digest. */
  ghost predicate CollisionFree(sha: string -> nat)
  {
    forall p, q :: sha(p) == sha(q) ==> p == q
  }

  /** Tool names and model identifiers: one to two hundred characters. */
  predicate NameOk(name: string)
  {
    1 <= |name| <= 200
  }

  /**
    The dictionary that validation builds from `args`: keys are trimmed, and of keys that become equal
    the last wins.
   */
  function CleanMembers(members: seq<Member>): seq<Member>
  {
    if members == [] then []
    else
      var last := members[|members| - 1];
      SetIn(CleanMembers(members[..|members| - 1]), Strip(last.key), last.value)
  }

  /** Values and the keys of nested objects are untyped and stay as they are. */
  function CleanArgs(args: Json): Json
  {
    match args
    case Obj(members) => Obj(CleanMembers(members))
    case _ => args
  }

  /** String fields and the top-level keys of `args` are trimmed; a `result`, being untyped, is not. */
  function Clean(e: Event): Event
  {
    match e
    case ToolCall(tid, n, cid, tool, args, argsHash) => ToolCall(tid, n, cid, Strip(tool), CleanArgs(args), argsHash)
    case ToolResult(tid, n, cid, tool, result, isError, error) =>
      ToolResult(tid, n, cid, Strip(tool), result, isError, if error.Some? then Some(Strip(error.value)) else None)
    case ModelMessage(tid, n, role, content, modelId) => ModelMessage(tid, n, role, Strip(content), Strip(modelId))
    case Verdict(tid, n, verified, coverage, perClaim) => Verdict(tid, n, verified, coverage, CleanClaims(perClaim))
  }

  function CleanClaims(claims: seq<ClaimRecord>): (r: seq<ClaimRecord>)
    ensures |r| == |claims|
    ensures forall i | 0 <= i < |r| :: r[i] == ClaimRecord(Strip(claims[i].claimText), claims[i].passed)
  {
    if claims == [] then []
    else [ClaimRecord(Strip(claims[0].claimText), claims[0].passed)] + CleanClaims(claims[1..])
  }

  /** The constraints that validation enforces on a trimmed event. */
  predicate Acceptable(e: Event)
  {
    match e
    case ToolCall(_, _, _, tool, _, _) => NameOk(tool)
    case ToolResult(_, _, _, tool, _, _, _) => NameOk(tool)
    case ModelMessage(_, _, _, _, modelId) => NameOk(modelId)
    case Verdict(_, _, _, coverage, _) => 0.0 <= coverage <= 1.0
  }

  /** Validation: the trimmed event, or a `ValidationError`. */
  function Validate(e: Event): Option<Event>
  {
    if Acceptable(Clean(e)) then Some(Clean(e)) else None
  }

  /** What every event object satisfies once it exists. */
  predicate WellFormed(e: Event)
  {
    Clean(e) == e && Acceptable(e)
  }

  /** Validation is idempotent: a validated event validates again to itself. */
  lemma ValidateIsIdempotent(e: Event)
    ensures Clean(Clean(e)) == Clean(e)
    ensures Validate(e).Some? ==> WellFormed(Validate(e).value)
    ensures WellFormed(e) <==> Validate(e) == Some(e)
  {
    match e
    case ToolCall(_, _, _, tool, args, _) =>
      StripSpec(tool);
      StripSpec(Strip(tool));
      CleanArgsTwice(args);
    case ToolResult(_, _, _, tool, _, _, error) =>
      StripSpec(tool);
      StripSpec(Strip(tool));
      if error.Some? {
        StripSpec(error.value);
        StripSpec(Strip(error.value));
      }
    case ModelMessage(_, _, _, content, modelId) =>
      StripSpec(content);
      StripSpec(Strip(content));
      StripSpec(modelId);
      StripSpec(Strip(modelId));
    case Verdict(_, _, _, _, perClaim) =>
      CleanClaimsTwice(perClaim);
  }

  lemma {:induction false} CleanClaimsTwice(claims: seq<ClaimRecord>)
    ensures CleanClaims(CleanClaims(claims)) == CleanClaims(claims)
  {
    forall i | 0 <= i < |claims|
      ensures CleanClaims(CleanClaims(claims))[i] == CleanClaims(claims)[i]
    {
      StripSpec(claims[i].claimText);
      StripSpec(Strip(claims[i].claimText));
    }
  }

  /** The name that an event carries, trimmed, is of one to two hundred characters; a coverage is a fraction. */
  predicate Fits(e: Event)
  {
    match e
    case ToolCall(_, _, _, tool, _, _) => 1 <= |Strip(tool)| <= 200
    case ToolResult(_, _, _, tool, _, _, _) => 1 <= |Strip(tool)| <= 200
    case ModelMessage(_, _, _, _, modelId) => 1 <= |Strip(modelId)| <= 200
    case Verdict(_, _, _, coverage, _) => 0.0 <= coverage <= 1.0
  }

  /** Same trace, number and kind; the same values, but for trimmed texts and keys. */
  predicate TrimmedForm(e: Event, v: Event)
  {
    && v.traceId == e.traceId && v.seqNo == e.seqNo
    && match e
       case ToolCall(_, _, callId, tool, args, argsHash) =>
         && v.ToolCall? && v.callId == callId && v.tool == Strip(tool) && v.args == CleanArgs(args)
         && v.argsHash == argsHash
       case ToolResult(_, _, callId, tool, result, isError, error) =>
         && v.ToolResult? && v.callId == callId && v.tool == Strip(tool) && v.result == result && v.isError == isError
         && (if error.Some? then v.error == Some(Strip(error.value)) else v.error == None)
       case ModelMessage(_, _, role, content, modelId) =>
         v.ModelMessage? && v.role == role && v.content == Strip(content) && v.modelId == Strip(modelId)
       case Verdict(_, _, verified, coverage, perClaim) =>
         && v.Verdict? && v.verified == verified && v.coverage == coverage && |v.perClaim| == |perClaim|
         && forall i | 0 <= i < |perClaim| ::
              v.perClaim[i].claimText == Strip(perClaim[i].claimText) && v.perClaim[i].passed == perClaim[i].passed
  }

  /** Validation accepts exactly the events that fit, and gives their trimmed form. */
  lemma ValidateMeans(e: Event)
    ensures Validate(e).Some? <==> Fits(e)
    ensures TrimmedForm(e, Clean(e)) && (Validate(e).Some? ==> Validate(e).value == Clean(e))
  {
  }

  // ----- Trimmed argument keys -----

  /** No top-level key has surrounding whitespace. */
  predicate TightKeys(members: seq<Member>)
  {
    forall i | 0 <= i < |members| :: Tight(members[i].key)
  }

  predicate TightArgs(args: Json)
  {
    args.Obj? ==> TightKeys(args.members)
  }

  lemma {:induction false} CleanMembersSpec(members: seq<Member>)
    ensures DistinctKeys(CleanMembers(members)) && TightKeys(CleanMembers(members))
    ensures forall m | m in CleanMembers(members) ::
              exists i :: 0 <= i < |members| && m == Member(Strip(members[i].key), members[i].value)
  {
    if members != [] {
      var before, last := members[..|members| - 1], members[|members| - 1];
      var r := CleanMembers(members);
      CleanMembersSpec(before);
      SetInSpec(CleanMembers(before), Strip(last.key), last.value);
      StripSpec(last.key);
      forall m | m in r
        ensures Tight(m.key)
        ensures exists i :: 0 <= i < |members| && m == Member(Strip(members[i].key), members[i].value)
      {
        if m in CleanMembers(before) {
          var i :| 0 <= i < |before| && m == Member(Strip(before[i].key), before[i].value);
          assert members[i] == before[i];
        }
      }
      assert forall i | 0 <= i < |r| :: r[i] in r;
    }
  }

  lemma StaysIn(members: seq<Member>, key: string, value: Json, m: Member)
    requires m in members && m.key != key
    ensures m in SetIn(members, key, value)
  {
    SetInSpec(members, key, value);
  }

  function Trimmed(m: Member): Member
  {
    Member(Strip(m.key), m.value)
  }

  /** Of the members whose keys trim to the same, the last one survives. */
  lemma {:induction false} LastKeyWins(members: seq<Member>, i: nat)
    requires i < |members|
    requires forall k | i < k < |members| :: Trimmed(members[k]).key != Trimmed(members[i]).key
    ensures Trimmed(members[i]) in CleanMembers(members)
  {
    var before, last := members[..|members| - 1], members[|members| - 1];
    if i == |before| {
      SetInSpec(CleanMembers(before), Strip(last.key), last.value);
    } else {
      LastKeyWins(before, i);
      assert before[i] == members[i];
      StaysIn(CleanMembers(before), Strip(last.key), last.value, Trimmed(members[i]));
    }
  }

  lemma {:induction false} CleanMembersKeeps(members: seq<Member>)
    requires DistinctKeys(members) && TightKeys(members)
    ensures CleanMembers(members) == members
  {
    if members != [] {
      var before, last := members[..|members| - 1], members[|members| - 1];
      CleanMembersKeeps(before);
      StripSpec(last.key);
      SetInNew(before, last.key, last.value);
      assert members == before + [last];
    }
  }

  lemma CleanArgsTwice(args: Json)
    ensures CleanArgs(CleanArgs(args)) == CleanArgs(args)
  {
    if args.Obj? {
      CleanMembersSpec(args.members);
      CleanMembersKeeps(CleanMembers(args.members));
    }
  }

  lemma CleanArgsIsDict(args: Json)
    requires IsDict(args)
    ensures IsDict(CleanArgs(args))
  {
    if args.Obj? {
      var r := CleanMembers(args.members);
      CleanMembersSpec(args.members);
      forall i | 0 <= i < |r|
        ensures IsDict(r[i].value)
      {
        assert r[i] in r;
      }
    }
  }

  lemma {:induction false} SameAsItself(j: Json)
    requires IsDict(j)
    ensures SameValue(j, j)
  {
    CanonDecidesSameValue(j, j);
  }

  /** Validation leaves the arguments the same value exactly when no top-level key is padded. */
  lemma TrimmingKeepsArgsIff(args: Json)
    requires IsDict(args)
    ensures SameValue(CleanArgs(args), args) <==> TightArgs(args)
  {
    if TightArgs(args) {
      if args.Obj? {
        CleanMembersKeeps(args.members);
      }
      SameAsItself(args);
    } else {
      var i :| 0 <= i < |args.members| && !Tight(args.members[i].key);
      var r := CleanMembers(args.members);
      CleanMembersSpec(args.members);
      assert args.members[i].key in Keys(args.members);
      assert forall p | p in r :: Tight(p.key);
    }
  }

  /** The tool calls of a log, in order. */
  function Calls(es: seq<Event>): (calls: seq<Event>)
    ensures forall i | 0 <= i < |calls| :: calls[i].ToolCall?
  {
    if es == [] then []
    else Calls(es[..|es| - 1]) + if es[|es| - 1].ToolCall? then [es[|es| - 1]] else []
  }
}
