/** Option, and the whitespace trimming that every string field of an event goes through. */
module Text {

  datatype Option<+T> = None | Some(value: T)

  /** The White_Space characters of Unicode: what `str_strip_whitespace` removes at both ends. */
  predicate IsSpace(c: char)
  {
    || '\U{9}' <= c <= '\U{D}'
    || c == ' '
    || c == '\U{85}'
    || c == '\U{A0}'
    || c == '\U{1680}'
    || '\U{2000}' <= c <= '\U{200A}'
    || c == '\U{2028}'
    || c == '\U{2029}'
    || c == '\U{202F}'
    || c == '\U{205F}'
    || c == '\U{3000}'
  }

  function TrimLeft(s: string): string
  {
    if s != "" && IsSpace(s[0]) then TrimLeft(s[1..]) else s
  }

  function TrimRight(s: string): string
  {
    if s != "" && IsSpace(s[|s| - 1]) then TrimRight(s[..|s| - 1]) else s
  }

  function Strip(s: string): string
  {
    TrimRight(TrimLeft(s))
  }

  /** No whitespace at the right end. */
  predicate TightRight(s: string)
  {
    s == "" || !IsSpace(s[|s| - 1])
  }

  /** No whitespace at either end. */
  predicate Tight(s: string)
  {
    s == "" || (!IsSpace(s[0]) && !IsSpace(s[|s| - 1]))
  }

  lemma {:induction false} TrimRightSpec(s: string)
    ensures TightRight(TrimRight(s))
    ensures TrimRight(s) <= s
    ensures TrimRight(s) == s <==> TightRight(s)
  {
    if s != "" && IsSpace(s[|s| - 1]) {
      TrimRightSpec(s[..|s| - 1]);
    }
  }

  lemma {:induction false} TrimmedIsSpace(s: string)
    requires !TightRight(s)
    ensures |TrimRight(s)| < |s| && IsSpace(s[|TrimRight(s)|])
  {
    var before := s[..|s| - 1];
    TrimRightSpec(before);
    if !TightRight(before) {
      TrimmedIsSpace(before);
    }
  }

  /** Where a text and its trimmed form first part. */
  lemma StripParts(s: string) returns (k: nat)
    requires !Tight(s)
    ensures k < |s| && k <= |Strip(s)|
    ensures if k < |Strip(s)| then Strip(s)[k] != s[k] else IsSpace(s[k])
  {
    TrimLeftSpec(s);
    StripSpec(s);
    if IsSpace(s[0]) {
      k := 0;
    } else {
      TrimmedIsSpace(s);
      k := |Strip(s)|;
    }
  }

  lemma {:induction false} TrimLeftSpec(s: string)
    ensures |TrimLeft(s)| <= |s|
    ensures TrimLeft(s) != "" ==> !IsSpace(TrimLeft(s)[0])
    ensures TrimLeft(s) == s <==> s == "" || !IsSpace(s[0])
  {
    if s != "" && IsSpace(s[0]) {
      TrimLeftSpec(s[1..]);
    }
  }

  /** Trimming leaves a tight string, and leaves a string alone exactly when it is tight. */
  lemma StripSpec(s: string)
    ensures Tight(Strip(s))
    ensures Strip(s) == s <==> Tight(s)
    ensures |Strip(s)| <= |s|
  {
    TrimLeftSpec(s);
    TrimRightSpec(TrimLeft(s));
    assert TrimRight(TrimLeft(s)) <= TrimLeft(s);
  }

  predicate AllSpace(s: string)
  {
    forall i | 0 <= i < |s| :: IsSpace(s[i])
  }

  /** Every text is what trimming leaves of it with whitespace around. */
  lemma {:induction false} StripSplits(s: string) returns (before: string, after: string)
    ensures AllSpace(before) && AllSpace(after) && s == before + Strip(s) + after
  {
    if s != "" && IsSpace(s[0]) {
      before, after := StripSplits(s[1..]);
      before := [s[0]] + before;
    } else {
      before := "";
      after := TrimRightSplits(s);
    }
  }

  lemma {:induction false} TrimRightSplits(s: string) returns (after: string)
    ensures AllSpace(after) && s == TrimRight(s) + after
  {
    if s != "" && IsSpace(s[|s| - 1]) {
      after := TrimRightSplits(s[..|s| - 1]);
      after := after + [s[|s| - 1]];
    } else {
      after := "";
    }
  }

  /** Whitespace around a tight text is what trimming takes away. */
  lemma {:induction false} StripIs(before: string, t: string, after: string)
    requires AllSpace(before) && Tight(t) && AllSpace(after)
    ensures Strip(before + t + after) == t
  {
    if before != "" {
      StripIs(before[1..], t, after);
      assert (before + t + after)[1..] == before[1..] + t + after;
    } else if t == "" {
      assert before + t + after == after;
      BlankStrips(after);
    } else {
      assert before + t + after == t + after;
      StripTail(t, after);
      BlankTrims(after);
    }
  }

  lemma {:induction false} BlankTrims(s: string)
    requires AllSpace(s)
    ensures TrimRight(s) == ""
  {
    if s != "" {
      BlankTrims(s[..|s| - 1]);
    }
  }

  lemma {:induction false} BlankStrips(s: string)
    requires AllSpace(s)
    ensures Strip(s) == ""
  {
    if s != "" {
      BlankStrips(s[1..]);
    }
  }

  /** Trimming `p + t` trims only `t` when `p` is tight and not empty. */
  lemma {:induction false} StripTail(p: string, t: string)
    requires p != "" && Tight(p)
    ensures Strip(p + t) == p + TrimRight(t)
  {
    TrimLeftSpec(p + t);
    assert (p + t)[0] == p[0];
    TrimRightTail(p, t);
  }

  lemma {:induction false} TrimRightTail(p: string, t: string)
    requires p != "" && TightRight(p)
    ensures TrimRight(p + t) == p + TrimRight(t)
  {
    if t == "" {
      assert p + t == p;
    } else {
      assert (p + t)[|p + t| - 1] == t[|t| - 1];
      if IsSpace(t[|t| - 1]) {
        assert (p + t)[..|p + t| - 1] == p + t[..|t| - 1];
        TrimRightTail(p, t[..|t| - 1]);
      }
    }
  }
}
