/**
  Canonical JSON text of tool-call arguments.

  `canonical_args_hash` digests the text that `json.dumps` produces with sorted keys, compact
  separators and no ASCII escaping.  This module models that text and proves that it identifies
  a value exactly: two values print alike if and only if they are the same JSON value, whatever
  the order in which their keys were inserted.
 */
module CanonicalJson {
  import opened Helpers

  /** A JSON value as the program holds it.  Objects keep their insertion order, as Python's do. */
  datatype Json =
    | Null
    | Bool(b: bool)
    | Num(n: int)
    | Str(s: string)
    | Arr(items: seq<Json>)
    | Obj(members: seq<Member>)

  datatype Member = Member(key: string, value: Json)

  /** What a Python `dict` guarantees at every level: no key occurs twice. */
  ghost predicate IsDict(j: Json)
  {
    match j
    case Arr(items) => forall i | 0 <= i < |items| :: IsDict(items[i])
    case Obj(members) =>
      && (forall i, k | 0 <= i < k < |members| :: members[i].key != members[k].key)
      && (forall i | 0 <= i < |members| :: IsDict(members[i].value))
    case _ => true
  }

  /** Equality of JSON values: arrays item by item, objects key by key in whatever order. */
  ghost predicate SameValue(a: Json, b: Json)
    decreases a
  {
    match (a, b)
    case (Arr(x), Arr(y)) =>
      |x| == |y| && forall i | 0 <= i < |x| :: SameValue(x[i], y[i])
    case (Obj(m), Obj(n)) =>
      && Keys(m) == Keys(n)
      && forall p, q | p in m && q in n && p.key == q.key :: SameValue(p.value, q.value)
    case _ => a == b
  }

  ghost function Keys(members: seq<Member>): set<string>
  {
    set p | p in members :: p.key
  }

  /** `d[key] = value`: an existing key keeps its place, a new one goes last. */
  function SetIn(members: seq<Member>, key: string, value: Json): seq<Member>
  {
    if members == [] then [Member(key, value)]
    else if members[0].key == key then [Member(key, value)] + members[1..]
    else [members[0]] + SetIn(members[1..], key, value)
  }

  lemma {:induction false} SetInSpec(members: seq<Member>, key: string, value: Json)
    ensures forall m | m in SetIn(members, key, value) :: m == Member(key, value) || m in members
    ensures Member(key, value) in SetIn(members, key, value)
    ensures forall m | m in members && m.key != key :: m in SetIn(members, key, value)
    ensures DistinctKeys(members) ==> DistinctKeys(SetIn(members, key, value))
  {
    if members != [] {
      assert members == [members[0]] + members[1..];
      if members[0].key != key {
        SetInSpec(members[1..], key, value);
      }
    }
  }

  lemma {:induction false} SetInNew(members: seq<Member>, key: string, value: Json)
    requires forall m | m in members :: m.key != key
    ensures SetIn(members, key, value) == members + [Member(key, value)]
  {
    if members != [] {
      assert members == [members[0]] + members[1..];
      SetInNew(members[1..], key, value);
    }
  }

  // ----- Key order -----

  /** Python's order on strings: by code point, a proper prefix first. */
  predicate Before(a: string, b: string)
  {
    if b == "" then false
    else if a == "" then true
    else a[0] < b[0] || (a[0] == b[0] && Before(a[1..], b[1..]))
  }

  lemma {:induction false} BeforeIsStrictOrder(a: string, b: string, c: string)
    ensures !Before(a, a)
    ensures a != b ==> Before(a, b) || Before(b, a)
    ensures Before(a, b) && Before(b, c) ==> Before(a, c)
  {
    if a != "" {
      BeforeIsStrictOrder(a[1..], if b == "" then "" else b[1..], if c == "" then "" else c[1..]);
      if b != "" && a[0] == b[0] && a[1..] == b[1..] {
        assert a == [a[0]] + a[1..] && b == [b[0]] + b[1..];
      }
    }
  }

  // ----- Sorting by key -----

  function Insert(x: Member, s: seq<Member>): seq<Member>
  {
    if s == [] then [x]
    else if Before(x.key, s[0].key) then [x] + s
    else [s[0]] + Insert(x, s[1..])
  }

  function Sort(s: seq<Member>): seq<Member>
  {
    if s == [] then [] else Insert(s[0], Sort(s[1..]))
  }

  ghost predicate SortedByKey(s: seq<Member>)
  {
    forall i, k | 0 <= i < k < |s| :: Before(s[i].key, s[k].key)
  }

  ghost predicate DistinctKeys(s: seq<Member>)
  {
    forall i, k | 0 <= i < k < |s| :: s[i].key != s[k].key
  }

  lemma {:induction false} InsertKeeps(x: Member, s: seq<Member>)
    ensures forall m :: m in Insert(x, s) <==> m == x || m in s
    ensures SortedByKey(s) && (forall m | m in s :: m.key != x.key) ==> SortedByKey(Insert(x, s))
  {
    if s != [] {
      assert s == [s[0]] + s[1..];
      InsertKeeps(x, s[1..]);
      if SortedByKey(s) && forall m | m in s :: m.key != x.key {
        var r := Insert(x, s);
        assert SortedByKey(s[1..]);
        if Before(x.key, s[0].key) {
          forall k | 0 <= k < |s|
            ensures Before(x.key, s[k].key)
          {
            BeforeIsStrictOrder(x.key, s[0].key, s[k].key);
          }
        } else {
          BeforeIsStrictOrder(x.key, s[0].key, x.key);
          forall k | 1 <= k < |r|
            ensures Before(s[0].key, r[k].key)
          {
            assert r[k] in Insert(x, s[1..]);
            assert r[k] == x || r[k] in s[1..];
          }
        }
      }
    }
  }

  lemma {:induction false} SortKeeps(s: seq<Member>)
    ensures forall m :: m in Sort(s) <==> m in s
    ensures DistinctKeys(s) ==> SortedByKey(Sort(s))
  {
    if s != [] {
      assert s == [s[0]] + s[1..];
      SortKeeps(s[1..]);
      InsertKeeps(s[0], Sort(s[1..]));
      if DistinctKeys(s) {
        forall m | m in Sort(s[1..])
          ensures m.key != s[0].key
        {
          assert m in s[1..];
        }
      }
    }
  }

  lemma TailMembers(p: seq<Member>)
    requires SortedByKey(p) && p != []
    ensures forall m :: m in p[1..] <==> m in p && m != p[0]
  {
    forall k | 1 <= k < |p|
      ensures p[k] != p[0]
    {
      BeforeIsStrictOrder(p[0].key, p[0].key, p[0].key);
      assert Before(p[0].key, p[k].key);
    }
    assert p == [p[0]] + p[1..];
  }

  /** A sorted member list is determined by the set of its members. */
  lemma {:induction false} SortedIsUnique(p: seq<Member>, q: seq<Member>)
    requires SortedByKey(p) && SortedByKey(q)
    requires forall m :: m in p <==> m in q
    ensures p == q
  {
    assert q != [] ==> q[0] in q;
    if p != [] {
      assert p[0] in q;
      if p[0] != q[0] {
        assert q[0] in p;
        BeforeIsStrictOrder(p[0].key, q[0].key, p[0].key);
        assert false;
      }
      TailMembers(p);
      TailMembers(q);
      SortedIsUnique(p[1..], q[1..]);
      assert p == [p[0]] + p[1..] && q == [q[0]] + q[1..];
    }
  }

  // ----- Canonical form: sort the members at every level -----

  function Canon(j: Json): Json
    decreases j, 1
  {
    match j
    case Arr(items) => Arr(seq(|items|, i requires 0 <= i < |items| => Canon(items[i])))
    case Obj(members) => Obj(Sort(CanonMembers(members)))
    case _ => j
  }

  function CanonMembers(members: seq<Member>): seq<Member>
    decreases members, 0
  {
    seq(|members|, i requires 0 <= i < |members| => CanonMember(members[i]))
  }

  function CanonMember(m: Member): Member
    decreases m, 0
  {
    Member(m.key, Canon(m.value))
  }

  lemma {:induction false} CanonDecidesSameValue(a: Json, b: Json)
    requires IsDict(a) && IsDict(b)
    ensures SameValue(a, b) <==> Canon(a) == Canon(b)
    decreases a
  {
    if a.Arr? && b.Arr? {
      CanonDecidesSameArray(a, b);
    } else if a.Obj? && b.Obj? {
      CanonDecidesSameObject(a, b);
    }
  }

  lemma {:induction false} CanonDecidesSameArray(a: Json, b: Json)
    requires a.Arr? && b.Arr? && IsDict(a) && IsDict(b)
    ensures SameValue(a, b) <==> Canon(a) == Canon(b)
    decreases a, 0
  {
    var x, y := a.items, b.items;
    assert |Canon(a).items| == |x| && |Canon(b).items| == |y|;
    if |x| == |y| {
      forall i | 0 <= i < |x|
        ensures SameValue(x[i], y[i]) <==> Canon(a).items[i] == Canon(b).items[i]
      {
        CanonDecidesSameValue(x[i], y[i]);
      }
    }
  }

  lemma {:induction false} CanonDecidesSameObject(a: Json, b: Json)
    requires a.Obj? && b.Obj? && IsDict(a) && IsDict(b)
    ensures SameValue(a, b) <==> Canon(a) == Canon(b)
    decreases a, 0
  {
    var m, n := a.members, b.members;
    forall p, q | p in m && q in n
      ensures SameValue(p.value, q.value) <==> Canon(p.value) == Canon(q.value)
    {
      CanonDecidesSameValue(p.value, q.value);
    }
    SameMembersIff(m, n);
    CanonMembersHas(m);
    CanonMembersHas(n);
    SortDecidesMembers(CanonMembers(m), CanonMembers(n));
  }

  ghost predicate AgreeByKey(m: seq<Member>, n: seq<Member>)
  {
    && Keys(m) == Keys(n)
    && forall p, q | p in m && q in n && p.key == q.key :: Canon(p.value) == Canon(q.value)
  }

  ghost predicate SubMembers(m: seq<Member>, n: seq<Member>)
  {
    forall x | x in m :: x in n
  }

  /** Objects agree key by key exactly when their canonical members make up the same set. */
  lemma SameMembersIff(m: seq<Member>, n: seq<Member>)
    requires DistinctKeys(m) && DistinctKeys(n)
    ensures AgreeByKey(m, n) <==>
            SubMembers(CanonMembers(m), CanonMembers(n)) && SubMembers(CanonMembers(n), CanonMembers(m))
  {
    if AgreeByKey(m, n) {
      AgreeingMembersInclude(m, n);
      AgreeingMembersInclude(n, m);
    }
    if SubMembers(CanonMembers(m), CanonMembers(n)) && SubMembers(CanonMembers(n), CanonMembers(m)) {
      IncludedMembersAgree(m, n);
      IncludedMembersAgree(n, m);
    }
  }

  lemma AgreeingMembersInclude(m: seq<Member>, n: seq<Member>)
    requires AgreeByKey(m, n)
    ensures SubMembers(CanonMembers(m), CanonMembers(n))
  {
    CanonMembersHas(m);
    CanonMembersHas(n);
    forall x | x in CanonMembers(m)
      ensures x in CanonMembers(n)
    {
      var p :| p in m && CanonMember(p) == x;
      assert p.key in Keys(n);
      var q :| q in n && q.key == p.key;
      assert CanonMember(q) == x;
    }
  }

  lemma IncludedMembersAgree(m: seq<Member>, n: seq<Member>)
    requires DistinctKeys(n)
    requires SubMembers(CanonMembers(m), CanonMembers(n))
    ensures Keys(m) <= Keys(n)
    ensures forall p, q | p in m && q in n && p.key == q.key :: Canon(p.value) == Canon(q.value)
  {
    CanonMembersHas(m);
    CanonMembersHas(n);
    forall p | p in m
      ensures p.key in Keys(n)
      ensures forall q | q in n && p.key == q.key :: Canon(p.value) == Canon(q.value)
    {
      assert CanonMember(p) in CanonMembers(n);
      var r :| r in n && CanonMember(r) == CanonMember(p);
    }
  }

  lemma CanonMembersHas(m: seq<Member>)
    ensures forall x :: x in CanonMembers(m) <==> exists p | p in m :: CanonMember(p) == x
    ensures DistinctKeys(m) ==> DistinctKeys(CanonMembers(m))
  {
    forall p | p in m
      ensures CanonMember(p) in CanonMembers(m)
    {
      var i :| 0 <= i < |m| && m[i] == p;
      assert CanonMembers(m)[i] == CanonMember(p);
    }
    forall x | x in CanonMembers(m)
      ensures exists p | p in m :: CanonMember(p) == x
    {
      var i :| 0 <= i < |m| && CanonMembers(m)[i] == x;
      assert m[i] in m && CanonMember(m[i]) == x;
    }
  }

  /** Lists whose sorted forms agree are lists with the same members. */
  lemma SortDecidesMembers(p: seq<Member>, q: seq<Member>)
    requires DistinctKeys(p) && DistinctKeys(q)
    ensures Sort(p) == Sort(q) <==> SubMembers(p, q) && SubMembers(q, p)
  {
    SortKeeps(p);
    SortKeeps(q);
    if SubMembers(p, q) && SubMembers(q, p) {
      SortedIsUnique(Sort(p), Sort(q));
    }
  }

  // ----- Printing -----

  function Digit(d: nat): char
    requires d < 16
  {
    "0123456789abcdef"[d]
  }

  function PrintNat(n: nat): string
  {
    if n < 10 then [Digit(n)] else PrintNat(n / 10) + [Digit(n % 10)]
  }

  function PrintInt(n: int): string
  {
    if n < 0 then "-" + PrintNat(-n) else PrintNat(n)
  }

  /** The escapes of `json.dumps(..., ensure_ascii=False)`; section 7 of RFC 8259. */
  function EscapeChar(c: char): string
  {
    if c == '\"' then "\\\""
    else if c == '\\' then "\\\\"
    else if c == '\n' then "\\n"
    else if c == '\r' then "\\r"
    else if c == '\t' then "\\t"
    else if c == '\U{8}' then "\\b"
    else if c == '\U{C}' then "\\f"
    else if c as int < 0x20 then "\\u00" + [Digit(c as int / 16), Digit(c as int % 16)]
    else [c]
  }

  function Escape(s: string): string
  {
    if s == "" then "" else EscapeChar(s[0]) + Escape(s[1..])
  }

  function PrintStr(s: string): string
  {
    "\"" + Escape(s) + "\""
  }

  function Print(j: Json): string
    decreases j, 1
  {
    match j
    case Null => "null"
    case Bool(b) => if b then "true" else "false"
    case Num(n) => PrintInt(n)
    case Str(s) => PrintStr(s)
    case Arr(items) => "[" + PrintItems(items, true)
    case Obj(members) => "{" + PrintMembers(members, true)
  }

  function Separator(first: bool): string
  {
    if first then "" else ","
  }

  /** The rest of an array, closing bracket included; a comma precedes every item but the first. */
  function PrintItems(items: seq<Json>, first: bool): string
    decreases items, 0
  {
    if items == [] then "]"
    else Separator(first) + (Print(items[0]) + PrintItems(items[1..], false))
  }

  function PrintMembers(members: seq<Member>, first: bool): string
    decreases members, 0
  {
    if members == [] then "}"
    else Separator(first) +
         (PrintStr(members[0].key) + (":" + (Print(members[0].value) + PrintMembers(members[1..], false))))
  }

  /** The payload that is digested: `json.dumps(args, sort_keys=True, separators=(",", ":"))`. */
  function Dumps(j: Json): string
  {
    Print(Canon(j))
  }

  // ----- The printed text determines the value -----

  /** What may follow a complete value: nothing, or a character that continues no number. */
  predicate Delimited(s: string)
  {
    s == "" || s[0] in ",]}"
  }

  lemma CancelPrefix(p: string, x: string, q: string, y: string)
    requires p + x == q + y && |p| == |q|
    ensures p == q && x == y
  {
    assert (p + x)[..|p|] == p && (q + y)[..|q|] == q;
    assert (p + x)[|p|..] == x && (q + y)[|q|..] == y;
  }

  lemma {:induction false} PrintNatDigits(n: nat)
    ensures PrintNat(n) != ""
    ensures forall i | 0 <= i < |PrintNat(n)| :: IsDigit(PrintNat(n)[i])
  {
    if n >= 10 {
      PrintNatDigits(n / 10);
    }
  }

  lemma {:induction false} PrintNatInjective(m: nat, n: nat)
    requires PrintNat(m) == PrintNat(n)
    ensures m == n
  {
    PrintNatDigits(m / 10);
    PrintNatDigits(n / 10);
    if m >= 10 && n >= 10 {
      var p, q := PrintNat(m / 10), PrintNat(n / 10);
      CancelPrefix(p, [Digit(m % 10)], q, [Digit(n % 10)]);
      PrintNatInjective(m / 10, n / 10);
      DigitInjective(m % 10, n % 10);
    } else if m < 10 && n < 10 {
      DigitInjective(m, n);
    }
  }

  lemma DigitInjective(a: nat, b: nat)
    requires a < 16 && b < 16
    ensures Digit(a) == Digit(b) ==> a == b
  {
  }

  /** What a printed number is made of. */
  predicate IsNumeral(c: char)
  {
    IsDigit(c) || c == '-'
  }

  /** Two numerals that end before a delimiter end at the same place. */
  lemma NumeralsAlign(p: string, q: string, x: string, y: string)
    requires forall i | 0 <= i < |p| :: IsNumeral(p[i])
    requires forall i | 0 <= i < |q| :: IsNumeral(q[i])
    requires p + x == q + y && Delimited(x) && Delimited(y)
    ensures |p| == |q|
  {
    var u := p + x;
    assert forall i | 0 <= i < |p| :: u[i] == p[i];
    assert forall i | 0 <= i < |q| :: u[i] == q[i];
    assert |p| < |u| ==> u[|p|] == x[0];
    assert |q| < |u| ==> u[|q|] == y[0];
  }

  lemma PrintIntHead(n: int)
    ensures PrintInt(n) != ""
    ensures n < 0 <==> PrintInt(n)[0] == '-'
    ensures n >= 0 <==> IsDigit(PrintInt(n)[0])
  {
    PrintNatDigits(if n < 0 then -n else n);
  }

  lemma PrintIntNumerals(n: int)
    ensures forall i | 0 <= i < |PrintInt(n)| :: IsNumeral(PrintInt(n)[i])
  {
    PrintNatDigits(if n < 0 then -n else n);
  }

  lemma AfterMinus(p: string, q: string)
    requires "-" + p == "-" + q
    ensures p == q
  {
    assert p == ("-" + p)[1..] && q == ("-" + q)[1..];
  }

  lemma PrintIntInjective(m: int, n: int)
    requires PrintInt(m) == PrintInt(n)
    ensures m == n
  {
    PrintIntHead(m);
    PrintIntHead(n);
    if m < 0 {
      AfterMinus(PrintNat(-m), PrintNat(-n));
      PrintNatInjective(-m, -n);
    } else {
      PrintNatInjective(m, n);
    }
  }

  lemma PrintIntCancel(m: int, n: int, x: string, y: string)
    requires PrintInt(m) + x == PrintInt(n) + y
    requires Delimited(x) && Delimited(y)
    ensures m == n && x == y
  {
    PrintIntNumerals(m);
    PrintIntNumerals(n);
    NumeralsAlign(PrintInt(m), PrintInt(n), x, y);
    CancelPrefix(PrintInt(m), x, PrintInt(n), y);
    PrintIntInjective(m, n);
  }

  lemma EscapeCharCancel(c: char, d: char, x: string, y: string)
    requires EscapeChar(c) + x == EscapeChar(d) + y
    ensures c == d && x == y
  {
    var u, v := EscapeChar(c) + x, EscapeChar(d) + y;
    assert u[0] == EscapeChar(c)[0] && v[0] == EscapeChar(d)[0];
    assert |EscapeChar(c)| >= 2 ==> u[1] == EscapeChar(c)[1];
    assert |EscapeChar(d)| >= 2 ==> v[1] == EscapeChar(d)[1];
    assert |EscapeChar(c)| == |EscapeChar(d)|;
    CancelPrefix(EscapeChar(c), x, EscapeChar(d), y);
    if |EscapeChar(c)| == 6 {
      DigitInjective(c as int / 16, d as int / 16);
      DigitInjective(c as int % 16, d as int % 16);
      assert Digit(c as int / 16) == EscapeChar(c)[4] && Digit(d as int / 16) == EscapeChar(d)[4];
      assert Digit(c as int % 16) == EscapeChar(c)[5] && Digit(d as int % 16) == EscapeChar(d)[5];
    }
  }

  lemma EscapeHead(s: string, x: string)
    ensures s == "" <==> (Escape(s) + ("\"" + x))[0] == '\"'
    ensures s == "" ==> Escape(s) + ("\"" + x) == "\"" + x
  {
  }

  lemma {:induction false} EscapeCancel(s: string, t: string, x: string, y: string)
    requires Escape(s) + ("\"" + x) == Escape(t) + ("\"" + y)
    ensures s == t && x == y
  {
    EscapeHead(s, x);
    EscapeHead(t, y);
    if s == "" {
      CancelPrefix("\"", x, "\"", y);
    } else {
      Assoc(EscapeChar(s[0]), Escape(s[1..]), "\"" + x);
      Assoc(EscapeChar(t[0]), Escape(t[1..]), "\"" + y);
      EscapeCharCancel(s[0], t[0], Escape(s[1..]) + ("\"" + x), Escape(t[1..]) + ("\"" + y));
      EscapeCancel(s[1..], t[1..], x, y);
      assert s == [s[0]] + s[1..] && t == [t[0]] + t[1..];
    }
  }

  lemma PrintStrSplit(s: string, x: string)
    ensures PrintStr(s) + x == "\"" + (Escape(s) + ("\"" + x))
  {
  }

  lemma PrintStrCancel(s: string, t: string, x: string, y: string)
    requires PrintStr(s) + x == PrintStr(t) + y
    ensures s == t && x == y
  {
    PrintStrSplit(s, x);
    PrintStrSplit(t, y);
    CancelPrefix("\"", Escape(s) + ("\"" + x), "\"", Escape(t) + ("\"" + y));
    EscapeCancel(s, t, x, y);
  }

  /** The first character of a printed value tells which kind of value it is. */
  predicate Starts(j: Json, c: char)
  {
    match j
    case Null => c == 'n'
    case Bool(b) => c == if b then 't' else 'f'
    case Num(n) => c == '-' || IsDigit(c)
    case Str(_) => c == '\"'
    case Arr(_) => c == '['
    case Obj(_) => c == '{'
  }

  lemma PrintStarts(j: Json, x: string)
    ensures Print(j) != "" && Starts(j, (Print(j) + x)[0])
  {
    if j.Num? {
      PrintIntHead(j.n);
    }
  }

  /** Cancellation: a printed value followed by a delimiter can be read back in only one way. */
  lemma {:induction false} PrintCancel(a: Json, b: Json, x: string, y: string)
    requires Print(a) + x == Print(b) + y
    requires Delimited(x) && Delimited(y)
    ensures a == b && x == y
    decreases a, 1
  {
    PrintStarts(a, x);
    PrintStarts(b, y);
    match a
    case Num(m) => PrintIntCancel(m, b.n, x, y);
    case Str(s) => PrintStrCancel(s, b.s, x, y);
    case Arr(items) =>
      Assoc("[", PrintItems(items, true), x);
      Assoc("[", PrintItems(b.items, true), y);
      CancelPrefix("[", PrintItems(items, true) + x, "[", PrintItems(b.items, true) + y);
      PrintItemsCancel(items, b.items, true, x, y);
    case Obj(members) =>
      Assoc("{", PrintMembers(members, true), x);
      Assoc("{", PrintMembers(b.members, true), y);
      CancelPrefix("{", PrintMembers(members, true) + x, "{", PrintMembers(b.members, true) + y);
      PrintMembersCancel(members, b.members, true, x, y);
    case _ =>
      CancelPrefix(Print(a), x, Print(b), y);
  }

  lemma PrintItemsSplit(p: seq<Json>, first: bool, x: string)
    ensures p == [] ==> PrintItems(p, first) + x == "]" + x
    ensures p != [] ==>
              PrintItems(p, first) + x == Separator(first) + (Print(p[0]) + (PrintItems(p[1..], false) + x))
    ensures p == [] <==> (PrintItems(p, first) + x)[0] == ']'
    ensures !first ==> Delimited(PrintItems(p, first) + x)
  {
    if p != [] {
      var rest := PrintItems(p[1..], false);
      Assoc(Separator(first), Print(p[0]) + rest, x);
      Assoc(Print(p[0]), rest, x);
      PrintStarts(p[0], rest + x);
    }
  }

  lemma {:induction false} PrintItemsCancel(p: seq<Json>, q: seq<Json>, first: bool, x: string, y: string)
    requires PrintItems(p, first) + x == PrintItems(q, first) + y
    ensures p == q && x == y
    decreases p, 0
  {
    PrintItemsSplit(p, first, x);
    PrintItemsSplit(q, first, y);
    if p == [] {
      CancelPrefix("]", x, "]", y);
    } else {
      var restP, restQ := PrintItems(p[1..], false) + x, PrintItems(q[1..], false) + y;
      CancelPrefix(Separator(first), Print(p[0]) + restP, Separator(first), Print(q[0]) + restQ);
      PrintItemsSplit(p[1..], false, x);
      PrintItemsSplit(q[1..], false, y);
      PrintCancel(p[0], q[0], restP, restQ);
      PrintItemsCancel(p[1..], q[1..], false, x, y);
      assert p == [p[0]] + p[1..] && q == [q[0]] + q[1..];
    }
  }

  lemma PrintMembersSplit(p: seq<Member>, first: bool, x: string)
    ensures p == [] ==> PrintMembers(p, first) + x == "}" + x
    ensures p != [] ==>
              PrintMembers(p, first) + x
              == Separator(first) +
                 (PrintStr(p[0].key) + (":" + (Print(p[0].value) + (PrintMembers(p[1..], false) + x))))
    ensures p == [] <==> (PrintMembers(p, first) + x)[0] == '}'
    ensures !first ==> Delimited(PrintMembers(p, first) + x)
  {
    if p != [] {
      var key, value, rest := PrintStr(p[0].key), Print(p[0].value), PrintMembers(p[1..], false);
      Assoc(Separator(first), key + (":" + (value + rest)), x);
      Assoc(key, ":" + (value + rest), x);
      Assoc(":", value + rest, x);
      Assoc(value, rest, x);
    }
  }

  lemma {:induction false} PrintMembersCancel(p: seq<Member>, q: seq<Member>, first: bool, x: string, y: string)
    requires PrintMembers(p, first) + x == PrintMembers(q, first) + y
    ensures p == q && x == y
    decreases p, 0
  {
    PrintMembersSplit(p, first, x);
    PrintMembersSplit(q, first, y);
    if p == [] {
      CancelPrefix("}", x, "}", y);
    } else {
      var restP, restQ := PrintMembers(p[1..], false) + x, PrintMembers(q[1..], false) + y;
      var valueP, valueQ := Print(p[0].value) + restP, Print(q[0].value) + restQ;
      CancelPrefix(Separator(first), PrintStr(p[0].key) + (":" + valueP),
                   Separator(first), PrintStr(q[0].key) + (":" + valueQ));
      PrintStrCancel(p[0].key, q[0].key, ":" + valueP, ":" + valueQ);
      CancelPrefix(":", valueP, ":", valueQ);
      PrintMembersSplit(p[1..], false, x);
      PrintMembersSplit(q[1..], false, y);
      PrintCancel(p[0].value, q[0].value, restP, restQ);
      PrintMembersCancel(p[1..], q[1..], false, x, y);
      assert p == [p[0]] + p[1..] && q == [q[0]] + q[1..];
    }
  }

  /** The canonical payload identifies the arguments exactly, whatever the order of their keys. */
  lemma DumpsIdentifiesValue(a: Json, b: Json)
    requires IsDict(a) && IsDict(b)
    ensures Dumps(a) == Dumps(b) <==> SameValue(a, b)
  {
    CanonDecidesSameValue(a, b);
    if Dumps(a) == Dumps(b) {
      PrintCancel(Canon(a), Canon(b), "", "");
    }
  }
}
