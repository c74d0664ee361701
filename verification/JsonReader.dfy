/**
  A reader of compact JSON text (RFC 8259), and what the canonical payload reads as.

  It takes the grammar of section 2 without insignificant whitespace, the integers of section 6, and the
  strings of section 7 but for escaped surrogate pairs.
 */
module JsonReader {
  import opened Text
  import opened Helpers
  import opened CanonicalJson

  /** What is read of a text, and what is left of it. */
  datatype Reading<T> = Nothing | Got(value: T, rest: string)
  {
    predicate Shorter(s: string)
    {
      Got? ==> |rest| < |s|
    }
  }

  // ----- Numbers -----

  function LeadingDigits(s: string): (n: nat)
    ensures n <= |s| && AllDigits(s[..n])
  {
    if s == "" || !IsDigit(s[0]) then 0 else 1 + LeadingDigits(s[1..])
  }

  function NatOf(digits: string): nat
    requires AllDigits(digits)
  {
    if digits == "" then 0
    else 10 * NatOf(digits[..|digits| - 1]) + (digits[|digits| - 1] as int - '0' as int)
  }

  /** A natural number without a superfluous leading zero. */
  function ReadNat(s: string): (r: Reading<int>)
    ensures r.Shorter(s)
  {
    var n := LeadingDigits(s);
    if n == 0 || (n > 1 && s[0] == '0') then Nothing else Got(NatOf(s[..n]), s[n..])
  }

  function ReadInt(s: string): (r: Reading<int>)
    ensures r.Shorter(s)
  {
    if s != "" && s[0] == '-' then
      var r := ReadNat(s[1..]);
      if r.Nothing? then Nothing else Got(-r.value, r.rest)
    else
      ReadNat(s)
  }

  // ----- Strings -----

  function HexValue(c: char): Option<nat>
  {
    if '0' <= c <= '9' then Some(c as int - '0' as int)
    else if 'a' <= c <= 'f' then Some(c as int - 'a' as int + 10)
    else if 'A' <= c <= 'F' then Some(c as int - 'A' as int + 10)
    else None
  }

  /** Four hexadecimal digits that are no surrogate. */
  function ReadHex(s: string): (r: Reading<char>)
    ensures r.Shorter(s)
  {
    if |s| < 4 then Nothing
    else
      match (HexValue(s[0]), HexValue(s[1]), HexValue(s[2]), HexValue(s[3]))
      case (Some(a), Some(b), Some(c), Some(d)) =>
        var code := 4096 * a + 256 * b + 16 * c + d;
        if 0xD800 <= code < 0xE000 then Nothing else Got(code as char, s[4..])
      case _ => Nothing
  }

  /** One character of a string: itself, or an escape; a control character must be escaped. */
  function ReadChar(s: string): (r: Reading<char>)
    ensures r.Shorter(s)
  {
    if s == "" || s[0] == '\"' || s[0] as int < 0x20 then Nothing
    else if s[0] != '\\' then Got(s[0], s[1..])
    else if |s| < 2 then Nothing
    else if s[1] == '\"' || s[1] == '\\' || s[1] == '/' then Got(s[1], s[2..])
    else if s[1] == 'n' then Got('\n', s[2..])
    else if s[1] == 'r' then Got('\r', s[2..])
    else if s[1] == 't' then Got('\t', s[2..])
    else if s[1] == 'b' then Got('\U{8}', s[2..])
    else if s[1] == 'f' then Got('\U{C}', s[2..])
    else if s[1] == 'u' then ReadHex(s[2..])
    else Nothing
  }

  /** The characters up to the closing quotation mark. */
  function ReadChars(s: string): (r: Reading<string>)
    ensures r.Shorter(s)
    decreases |s|
  {
    if s == "" then Nothing
    else if s[0] == '\"' then Got("", s[1..])
    else
      var first := ReadChar(s);
      if first.Nothing? then Nothing
      else
        var rest := ReadChars(first.rest);
        if rest.Nothing? then Nothing else Got([first.value] + rest.value, rest.rest)
  }

  // ----- Values -----

  /** A literal name, and what follows it. */
  function ReadName(s: string, name: string, value: Json): (r: Reading<Json>)
    requires name != ""
    ensures r.Shorter(s)
  {
    if name <= s then Got(value, s[|name|..]) else Nothing
  }

  function ReadValue(s: string): (r: Reading<Json>)
    ensures r.Shorter(s)
    decreases |s|, 1
  {
    if s == "" then Nothing
    else if s[0] == 'n' then ReadName(s, "null", Null)
    else if s[0] == 't' then ReadName(s, "true", Bool(true))
    else if s[0] == 'f' then ReadName(s, "false", Bool(false))
    else if s[0] == '\"' then
      var r := ReadChars(s[1..]);
      if r.Nothing? then Nothing else Got(Str(r.value), r.rest)
    else if s[0] == '[' then
      var r := if "]" <= s[1..] then Got([], s[2..]) else ReadItems(s[1..]);
      if r.Nothing? then Nothing else Got(Arr(r.value), r.rest)
    else if s[0] == '{' then
      var r := if "}" <= s[1..] then Got([], s[2..]) else ReadMembers(s[1..]);
      if r.Nothing? then Nothing else Got(Obj(r.value), r.rest)
    else
      var r := ReadInt(s);
      if r.Nothing? then Nothing else Got(Num(r.value), r.rest)
  }

  /** One or more items, separated by commas, and the closing bracket. */
  function ReadItems(s: string): (r: Reading<seq<Json>>)
    ensures r.Shorter(s)
    decreases |s|, 2
  {
    var first := ReadValue(s);
    if first.Nothing? || first.rest == "" then Nothing
    else
      var after := first.rest;
      if after[0] == ']' then Got([first.value], after[1..])
      else if after[0] == ',' then
        var rest := ReadItems(after[1..]);
        if rest.Nothing? then Nothing else Got([first.value] + rest.value, rest.rest)
      else Nothing
  }

  /** A name, a colon and a value. */
  function ReadMember(s: string): (r: Reading<Member>)
    ensures r.Shorter(s)
    decreases |s|, 2
  {
    if !("\"" <= s) then Nothing
    else
      var key := ReadChars(s[1..]);
      if key.Nothing? || !(":" <= key.rest) then Nothing
      else
        var value := ReadValue(key.rest[1..]);
        if value.Nothing? then Nothing else Got(Member(key.value, value.value), value.rest)
  }

  function ReadMembers(s: string): (r: Reading<seq<Member>>)
    ensures r.Shorter(s)
    decreases |s|, 3
  {
    var first := ReadMember(s);
    if first.Nothing? || first.rest == "" then Nothing
    else
      var after := first.rest;
      if after[0] == '}' then Got([first.value], after[1..])
      else if after[0] == ',' then
        var rest := ReadMembers(after[1..]);
        if rest.Nothing? then Nothing else Got([first.value] + rest.value, rest.rest)
      else Nothing
  }

  // ----- Reading what was printed -----

  lemma {:induction false} LeadingDigitsAre(p: string, x: string)
    requires AllDigits(p) && (x == "" || !IsDigit(x[0]))
    ensures LeadingDigits(p + x) == |p|
  {
    if p == "" {
      assert p + x == x;
    } else {
      assert (p + x)[1..] == p[1..] + x;
      LeadingDigitsAre(p[1..], x);
    }
  }

  lemma {:induction false} NatReads(n: nat)
    ensures AllDigits(PrintNat(n)) && NatOf(PrintNat(n)) == n
    ensures PrintNat(n) != "" && (|PrintNat(n)| > 1 ==> PrintNat(n)[0] != '0')
    ensures n > 0 ==> PrintNat(n)[0] != '0'
  {
    PrintNatDigits(n);
    if n >= 10 {
      NatReads(n / 10);
      assert PrintNat(n)[..|PrintNat(n)| - 1] == PrintNat(n / 10);
    }
  }

  lemma NatReadsBefore(n: nat, x: string)
    requires Delimited(x)
    ensures ReadNat(PrintNat(n) + x) == Got(n, x)
  {
    NatReads(n);
    LeadingDigitsAre(PrintNat(n), x);
    assert (PrintNat(n) + x)[..|PrintNat(n)|] == PrintNat(n);
    assert (PrintNat(n) + x)[|PrintNat(n)|..] == x;
  }

  lemma NegativeReads(n: int, x: string)
    requires n < 0 && Delimited(x)
    ensures ReadInt("-" + (PrintNat(-n) + x)) == Got(n, x)
  {
    NatReadsBefore(-n, x);
    AfterFirst("-", PrintNat(-n) + x);
    NegativeStep("-" + (PrintNat(-n) + x), -n, x);
  }

  lemma NegativeStep(s: string, n: int, x: string)
    requires s != "" && s[0] == '-' && ReadNat(s[1..]) == Got(n, x)
    ensures ReadInt(s) == Got(-n, x)
  {
  }

  lemma PositiveReads(n: nat, x: string)
    requires Delimited(x)
    ensures ReadInt(PrintNat(n) + x) == Got(n, x)
  {
    NatReadsBefore(n, x);
    PrintNatDigits(n);
    assert (PrintNat(n) + x)[0] == PrintNat(n)[0];
  }

  lemma IntReadsBefore(n: int, x: string)
    requires Delimited(x)
    ensures ReadInt(PrintInt(n) + x) == Got(n, x)
  {
    if n < 0 {
      NegativeReads(n, x);
      Assoc("-", PrintNat(-n), x);
    } else {
      PositiveReads(n, x);
    }
  }

  lemma HexReads(n: nat, x: string)
    requires n < 0x20
    ensures ReadHex("00" + [Digit(n / 16), Digit(n % 16)] + x) == Got(n as char, x)
  {
    DigitIsHex(n / 16);
    DigitIsHex(n % 16);
  }

  lemma DigitIsHex(d: nat)
    requires d < 16
    ensures HexValue(Digit(d)) == Some(d)
  {
  }

  /** A control character that has no short escape. */
  lemma ControlReads(c: char, x: string)
    requires c as int < 0x20
    ensures ReadChar("\\u00" + [Digit(c as int / 16), Digit(c as int % 16)] + x) == Got(c, x)
  {
    var s := "\\u00" + [Digit(c as int / 16), Digit(c as int % 16)] + x;
    HexReads(c as int, x);
    assert s[2..] == "00" + [Digit(c as int / 16), Digit(c as int % 16)] + x;
  }

  lemma CharReadsBefore(c: char, x: string)
    ensures ReadChar(EscapeChar(c) + x) == Got(c, x)
  {
    if |EscapeChar(c)| == 6 {
      ControlReads(c, x);
    } else {
      var s := EscapeChar(c) + x;
      assert s[|EscapeChar(c)|..] == x;
    }
  }

  lemma {:induction false} CharsReadBefore(t: string, x: string)
    ensures ReadChars(Escape(t) + ("\"" + x)) == Got(t, x)
  {
    EscapeHead(t, x);
    if t == "" {
      assert ("\"" + x)[1..] == x;
    } else {
      Assoc(EscapeChar(t[0]), Escape(t[1..]), "\"" + x);
      CharReadsBefore(t[0], Escape(t[1..]) + ("\"" + x));
      CharsReadBefore(t[1..], x);
      assert t == [t[0]] + t[1..];
    }
  }

  /** Printing and reading are inverse: a printed value before a delimiter reads as itself, and nothing more is read. */
  lemma {:induction false} ReadsBack(j: Json, x: string)
    requires Delimited(x)
    ensures ReadValue(Print(j) + x) == Got(j, x)
    decreases j, 1
  {
    PrintStarts(j, x);
    match j
    case Null =>
      assert ("null" + x)[4..] == x;
    case Bool(b) =>
      assert (Print(j) + x)[|Print(j)|..] == x;
    case Num(n) =>
      IntReadsBefore(n, x);
    case Str(t) =>
      CharsReadBefore(t, x);
      PrintStrSplit(t, x);
      assert (Print(j) + x)[1..] == Escape(t) + ("\"" + x);
    case Arr(items) =>
      ArrayReads(items, x);
    case Obj(members) =>
      ObjectReads(members, x);
  }

  /** The text of a non-empty array or object after its bracket. */
  lemma FirstItem(items: seq<Json>, x: string)
    requires items != []
    ensures (Print(Arr(items)) + x)[1..] == Print(items[0]) + (PrintItems(items[1..], false) + x)
    ensures Print(Arr(items)) + x == "[" + (Print(Arr(items)) + x)[1..]
    ensures !("]" <= (Print(Arr(items)) + x)[1..])
  {
    var rest := PrintItems(items[1..], false);
    PrintStarts(items[0], rest + x);
    Assoc(Print(items[0]), rest, x);
    assert PrintItems(items, true) == Print(items[0]) + rest;
    Assoc("[", PrintItems(items, true), x);
  }

  lemma ReadArray(s: string)
    requires !("]" <= s)
    ensures ReadItems(s).Got? ==> ReadValue("[" + s) == Got(Arr(ReadItems(s).value), ReadItems(s).rest)
  {
    assert ("[" + s)[1..] == s;
  }

  lemma EmptyArrayReads(x: string)
    ensures ReadValue(Print(Arr([])) + x) == Got(Arr([]), x)
  {
    var s := "[]" + x;
    assert Print(Arr([])) == "[]";
    assert s[1..] == "]" + x && s[2..] == x;
  }

  lemma ArrayReads(items: seq<Json>, x: string)
    requires Delimited(x)
    ensures ReadValue(Print(Arr(items)) + x) == Got(Arr(items), x)
    decreases items, 2
  {
    if items == [] {
      EmptyArrayReads(x);
    } else {
      FirstItem(items, x);
      ItemsRead(items, x);
      ReadArray((Print(Arr(items)) + x)[1..]);
    }
  }

  /** How reading items goes on after the first. */
  lemma ReadItemsStep(s: string, item: Json, rest: string)
    requires rest != "" && ReadValue(s) == Got(item, rest)
    ensures rest[0] == ']' ==> ReadItems(s) == Got([item], rest[1..])
    ensures rest[0] == ',' && ReadItems(rest[1..]).Got? ==>
              ReadItems(s) == Got([item] + ReadItems(rest[1..]).value, ReadItems(rest[1..]).rest)
  {
  }

  /** What follows an item. */
  lemma RestOfItems(items: seq<Json>, x: string)
    ensures PrintItems(items, false) + x != "" && Delimited(PrintItems(items, false) + x)
    ensures items == [] ==> PrintItems(items, false) + x == "]" + x
    ensures items != [] ==>
              PrintItems(items, false) + x == "," + (Print(items[0]) + (PrintItems(items[1..], false) + x))
  {
    PrintItemsSplit(items, false, x);
  }

  lemma {:induction false} ItemsRead(items: seq<Json>, x: string)
    requires items != []
    ensures ReadItems(Print(items[0]) + (PrintItems(items[1..], false) + x)) == Got(items, x)
    decreases items, 0
  {
    var rest := PrintItems(items[1..], false) + x;
    RestOfItems(items[1..], x);
    ReadsBack(items[0], rest);
    ReadItemsStep(Print(items[0]) + rest, items[0], rest);
    if |items| > 1 {
      ItemsRead(items[1..], x);
      AfterFirst(",", Print(items[1..][0]) + (PrintItems(items[1..][1..], false) + x));
    } else {
      AfterFirst("]", x);
      assert items == [items[0]];
    }
    SplitFirst(items);
  }

  lemma AfterFirst(c: string, s: string)
    requires |c| == 1
    ensures (c + s)[0] == c[0] && (c + s)[1..] == s
  {
  }

  lemma SplitFirst<T>(s: seq<T>)
    requires s != []
    ensures s == [s[0]] + s[1..]
  {
  }

  // ----- Objects -----

  function MemberText(m: Member): string
  {
    PrintStr(m.key) + (":" + Print(m.value))
  }

  lemma MemberTextBefore(m: Member, x: string)
    ensures MemberText(m) + x == PrintStr(m.key) + (":" + (Print(m.value) + x))
  {
    Assoc(PrintStr(m.key), ":" + Print(m.value), x);
    Assoc(":", Print(m.value), x);
  }

  lemma KeyReads(key: string, x: string)
    ensures "\"" <= PrintStr(key) + x && ReadChars((PrintStr(key) + x)[1..]) == Got(key, x)
  {
    PrintStrSplit(key, x);
    AfterFirst("\"", Escape(key) + ("\"" + x));
    CharsReadBefore(key, x);
  }

  lemma MemberReads(m: Member, x: string)
    requires Delimited(x)
    ensures ReadMember(MemberText(m) + x) == Got(m, x)
    decreases m, 2
  {
    MemberTextBefore(m, x);
    KeyReads(m.key, ":" + (Print(m.value) + x));
    AfterFirst(":", Print(m.value) + x);
    ReadsBack(m.value, x);
  }

  lemma FirstMember(members: seq<Member>, x: string)
    requires members != []
    ensures (Print(Obj(members)) + x)[1..] == MemberText(members[0]) + (PrintMembers(members[1..], false) + x)
    ensures Print(Obj(members)) + x == "{" + (Print(Obj(members)) + x)[1..]
    ensures !("}" <= (Print(Obj(members)) + x)[1..])
  {
    MemberTextBefore(members[0], PrintMembers(members[1..], false) + x);
    PrintMembersSplit(members, true, x);
    Assoc("{", PrintMembers(members, true), x);
  }

  lemma ReadObject(s: string)
    requires !("}" <= s)
    ensures ReadMembers(s).Got? ==> ReadValue("{" + s) == Got(Obj(ReadMembers(s).value), ReadMembers(s).rest)
  {
    assert ("{" + s)[1..] == s;
  }

  lemma EmptyObjectReads(x: string)
    ensures ReadValue(Print(Obj([])) + x) == Got(Obj([]), x)
  {
    var s := "{}" + x;
    assert Print(Obj([])) == "{}";
    assert s[1..] == "}" + x && s[2..] == x;
  }

  lemma ObjectReads(members: seq<Member>, x: string)
    requires Delimited(x)
    ensures ReadValue(Print(Obj(members)) + x) == Got(Obj(members), x)
    decreases members, 2
  {
    if members == [] {
      EmptyObjectReads(x);
    } else {
      FirstMember(members, x);
      MembersRead(members, x);
      ReadObject((Print(Obj(members)) + x)[1..]);
    }
  }

  lemma ReadMembersStep(s: string, m: Member, rest: string)
    requires rest != "" && ReadMember(s) == Got(m, rest)
    ensures rest[0] == '}' ==> ReadMembers(s) == Got([m], rest[1..])
    ensures rest[0] == ',' && ReadMembers(rest[1..]).Got? ==>
              ReadMembers(s) == Got([m] + ReadMembers(rest[1..]).value, ReadMembers(rest[1..]).rest)
  {
  }

  lemma RestOfMembers(members: seq<Member>, x: string)
    ensures PrintMembers(members, false) + x != "" && Delimited(PrintMembers(members, false) + x)
    ensures members == [] ==> PrintMembers(members, false) + x == "}" + x
    ensures members != [] ==>
              PrintMembers(members, false) + x
              == "," + (MemberText(members[0]) + (PrintMembers(members[1..], false) + x))
  {
    PrintMembersSplit(members, false, x);
    if members != [] {
      MemberTextBefore(members[0], PrintMembers(members[1..], false) + x);
    }
  }

  lemma {:induction false} MembersRead(members: seq<Member>, x: string)
    requires members != []
    ensures ReadMembers(MemberText(members[0]) + (PrintMembers(members[1..], false) + x)) == Got(members, x)
    decreases members, 0
  {
    var rest := PrintMembers(members[1..], false) + x;
    RestOfMembers(members[1..], x);
    MemberReads(members[0], rest);
    ReadMembersStep(MemberText(members[0]) + rest, members[0], rest);
    if |members| > 1 {
      MembersRead(members[1..], x);
      AfterFirst(",", MemberText(members[1..][0]) + (PrintMembers(members[1..][1..], false) + x));
    } else {
      AfterFirst("}", x);
      assert members == [members[0]];
    }
    SplitFirst(members);
  }

  // ----- The canonical payload -----

  /** At every level the keys ascend. */
  ghost predicate SortedThroughout(j: Json)
  {
    match j
    case Arr(items) => forall i | 0 <= i < |items| :: SortedThroughout(items[i])
    case Obj(members) =>
      SortedByKey(members) && forall i | 0 <= i < |members| :: SortedThroughout(members[i].value)
    case _ => true
  }

  /** The order of keys: the first difference decides, and a proper prefix comes first. */
  lemma {:induction false} BeforeIff(a: string, b: string)
    ensures Before(a, b) <==> exists i: nat :: DiffersAt(a, b, i)
  {
    if a != "" && b != "" && a[0] == b[0] {
      BeforeIff(a[1..], b[1..]);
      if Before(a, b) {
        var i: nat :| DiffersAt(a[1..], b[1..], i);
        assert DiffersAt(a, b, i + 1);
      }
      if i: nat :| DiffersAt(a, b, i) {
        assert DiffersAt(a[1..], b[1..], i - 1);
      }
    } else if Before(a, b) {
      assert DiffersAt(a, b, 0);
    }
  }

  ghost predicate DiffersAt(a: string, b: string, i: nat)
  {
    i <= |a| && i < |b| && a[..i] == b[..i] && (i == |a| || a[i] < b[i])
  }

  lemma {:induction false} CanonIsSorted(j: Json)
    requires IsDict(j)
    ensures SortedThroughout(Canon(j)) && SameValue(j, Canon(j))
    decreases j
  {
    if j.Arr? {
      forall i | 0 <= i < |j.items|
        ensures SortedThroughout(Canon(j).items[i]) && SameValue(j.items[i], Canon(j).items[i])
      {
        CanonIsSorted(j.items[i]);
      }
    } else if j.Obj? {
      forall p | p in j.members
        ensures SortedThroughout(Canon(p.value)) && SameValue(p.value, Canon(p.value))
      {
        CanonIsSorted(p.value);
      }
      SortedMembersAre(j.members);
    }
  }

  ghost predicate MembersSettled(m: seq<Member>)
  {
    forall p | p in m :: SortedThroughout(Canon(p.value)) && SameValue(p.value, Canon(p.value))
  }

  lemma SortedMembersAre(m: seq<Member>)
    requires DistinctKeys(m) && MembersSettled(m)
    ensures SortedThroughout(Obj(Sort(CanonMembers(m)))) && SameValue(Obj(m), Obj(Sort(CanonMembers(m))))
  {
    var n := Sort(CanonMembers(m));
    CanonMembersHas(m);
    SortKeeps(CanonMembers(m));
    SameKeys(m, n);
    forall p, q | p in m && q in n && p.key == q.key
      ensures SameValue(p.value, q.value)
    {
      var r :| r in m && CanonMember(r) == q;
      assert r == p;
    }
    forall i | 0 <= i < |n|
      ensures SortedThroughout(n[i].value)
    {
      assert n[i] in n;
      var r :| r in m && CanonMember(r) == n[i];
    }
  }

  lemma SameKeys(m: seq<Member>, n: seq<Member>)
    requires forall x :: x in n <==> exists p | p in m :: CanonMember(p) == x
    ensures Keys(m) == Keys(n)
  {
    forall p | p in m
      ensures p.key in Keys(n)
    {
      assert CanonMember(p) in n;
    }
    forall q | q in n
      ensures q.key in Keys(m)
    {
      var p :| p in m && CanonMember(p) == q;
    }
  }

  /**
    The text that is digested is compact JSON of the arguments with the keys of every object ascending: it reads,
    to its end, as the same value in that order.
   */
  lemma DumpsReads(args: Json)
    requires IsDict(args)
    ensures var r := ReadValue(Dumps(args));
            r.Got? && r.rest == "" && SortedThroughout(r.value) && SameValue(args, r.value)
  {
    CanonIsSorted(args);
    ReadsBack(Canon(args), "");
    assert Print(Canon(args)) + "" == Print(Canon(args));
  }

  /** Only quotation marks, backslashes and control characters are escaped, by two characters where there are two. */
  lemma EscapesAre(c: char)
    ensures |EscapeChar(c)| == if c in "\"\\\n\r\t\U{8}\U{C}" then 2 else if c as int < 0x20 then 6 else 1
    ensures |EscapeChar(c)| == 1 ==> EscapeChar(c) == [c]
    ensures forall i | 0 <= i < |EscapeChar(c)| && |EscapeChar(c)| == 6 :: !('A' <= EscapeChar(c)[i] <= 'F')
  {
  }
}
