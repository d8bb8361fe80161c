/**
 JSON values without white space: a printer, a recursive-descent reader, and the
 round trip between them.
 */
module JsonValues {
  import opened Options
  import opened CStrings
  import opened Json

  datatype Value =
    | Text(text: string)
    | Number(n: int)
    | Bool(b: bool)
    | List(items: seq<Value>)
    | Object(members: seq<Member>)

  datatype Member = Member(key: string, value: Value)

  // ---------- Decimal numbers ----------

  function Digit(d: nat): char
    requires d < 10
  {
    '0' + d as char
  }

  predicate IsDigit(c: char) { '0' <= c <= '9' }

  function DigitValue(c: char): nat
    requires IsDigit(c)
  {
    c as nat - '0' as nat
  }

  function Digits(n: nat): string { if n < 10 then [Digit(n)] else Digits(n / 10) + [Digit(n % 10)] }

  /** `%d`. */
  function Decimal(n: int): string { if n < 0 then "-" + Digits(-n) else Digits(n) }

  ghost predicate AllDigits(s: string) { forall i :: 0 <= i < |s| ==> IsDigit(s[i]) }

  /** The number a run of digits extends `before` to. */
  function Extend(before: nat, s: string): nat
    requires AllDigits(s)
  {
    if s == "" then before else Extend(before, s[..|s| - 1]) * 10 + DigitValue(s[|s| - 1])
  }

  function ReadDigits(s: string, before: nat): (r: (nat, string))
    ensures |r.1| <= |s|
  {
    if s != "" && IsDigit(s[0]) then ReadDigits(s[1..], before * 10 + DigitValue(s[0])) else (before, s)
  }

  ghost predicate StopsNumber(rest: string) { rest == "" || !IsDigit(rest[0]) }

  lemma {:induction false} ExtendFront(before: nat, s: string)
    requires AllDigits(s) && s != ""
    ensures Extend(before, s) == Extend(before * 10 + DigitValue(s[0]), s[1..])
  {
    if |s| > 1 {
      ExtendFront(before, s[..|s| - 1]);
      assert s[..|s| - 1][1..] == s[1..][..|s| - 2];
    } else {
      assert Extend(before, s[..0]) == before;
    }
  }

  lemma {:induction false} ReadDigitsAll(s: string, before: nat, rest: string)
    requires AllDigits(s) && StopsNumber(rest)
    ensures ReadDigits(s + rest, before) == (Extend(before, s), rest)
  {
    if s == "" {
      assert s + rest == rest;
    } else {
      ExtendFront(before, s);
      assert (s + rest)[1..] == s[1..] + rest;
      ReadDigitsAll(s[1..], before * 10 + DigitValue(s[0]), rest);
    }
  }

  lemma {:induction false} DigitsHold(n: nat)
    ensures AllDigits(Digits(n)) && Digits(n) != "" && Extend(0, Digits(n)) == n
  {
    var s := Digits(n);
    if n >= 10 {
      DigitsHold(n / 10);
      assert s[..|s| - 1] == Digits(n / 10);
    } else {
      assert Extend(0, s[..0]) == 0;
    }
  }

  // ---------- Printer ----------

  function Quote(s: string): string { "\"" + Escape(s) + "\"" }

  function Print(v: Value): string
    decreases v, 0
  {
    match v
    case Text(s) => Quote(s)
    case Number(n) => Decimal(n)
    case Bool(b) => if b then "true" else "false"
    case List(items) => if items == [] then "[]" else "[" + PrintItems(items) + "]"
    case Object(members) => if members == [] then "{}" else "{" + PrintMembers(members) + "}"
  }

  function PrintItems(items: seq<Value>): string
    requires items != []
    decreases items, 0
  {
    if |items| == 1 then Print(items[0]) else Print(items[0]) + "," + PrintItems(items[1..])
  }

  function PrintMember(m: Member): string
    decreases m, 0
  {
    Quote(m.key) + ":" + Print(m.value)
  }

  function PrintMembers(members: seq<Member>): string
    requires members != []
    decreases members, 1
  {
    if |members| == 1 then PrintMember(members[0]) else PrintMember(members[0]) + "," + PrintMembers(members[1..])
  }

  // ---------- Reader ----------

  function Head(s: string): char { if s == "" then NUL else s[0] }

  function ReadNumber(s: string): (r: Option<(Value, string)>)
    ensures r.Some? ==> |r.value.1| < |s|
  {
    if s != "" && IsDigit(s[0]) then
      var (n, rest) := ReadDigits(s[1..], DigitValue(s[0]));
      Some((Number(n), rest))
    else if |s| > 1 && s[0] == '-' && IsDigit(s[1]) then
      var (n, rest) := ReadDigits(s[2..], DigitValue(s[1]));
      Some((Number(-(n as int)), rest))
    else None
  }

  function ReadValue(s: string): (r: Option<(Value, string)>)
    ensures r.Some? ==> |r.value.1| < |s|
    decreases |s|, 0
  {
    if s == "" then None
    else if s[0] == '"' then
      match ReadString(s[1..])
      case None => None
      case Some((text, rest)) => Some((Text(text), rest))
    else if StartsWith(s, "true") then Some((Bool(true), s[4..]))
    else if StartsWith(s, "false") then Some((Bool(false), s[5..]))
    else if StartsWith(s, "[]") then Some((List([]), s[2..]))
    else if StartsWith(s, "{}") then Some((Object([]), s[2..]))
    else if s[0] == '[' then
      match ReadItems(s[1..])
      case None => None
      case Some((items, rest)) => Some((List(items), rest))
    else if s[0] == '{' then
      match ReadMembers(s[1..])
      case None => None
      case Some((members, rest)) => Some((Object(members), rest))
    else ReadNumber(s)
  }

  function ReadItems(s: string): (r: Option<(seq<Value>, string)>)
    ensures r.Some? ==> |r.value.1| < |s|
    decreases |s|, 1
  {
    match ReadValue(s)
    case None => None
    case Some((v, after)) =>
      if Head(after) == ']' then Some(([v], after[1..]))
      else if Head(after) == ',' then
        match ReadItems(after[1..])
        case None => None
        case Some((items, rest)) => Some(([v] + items, rest))
      else None
  }

  function ReadMembers(s: string): (r: Option<(seq<Member>, string)>)
    ensures r.Some? ==> |r.value.1| < |s|
    decreases |s|, 1
  {
    if Head(s) != '"' then None
    else
      match ReadString(s[1..])
      case None => None
      case Some((key, colon)) =>
        if Head(colon) != ':' then None
        else
          match ReadValue(colon[1..])
          case None => None
          case Some((v, after)) =>
            if Head(after) == '}' then Some(([Member(key, v)], after[1..]))
            else if Head(after) == ',' then
              match ReadMembers(after[1..])
              case None => None
              case Some((members, rest)) => Some(([Member(key, v)] + members, rest))
            else None
  }

  // ---------- Round trip ----------

  /** Every text inside is free of unescapable control characters. */
  ghost predicate Readable(v: Value)
    decreases v, 0
  {
    match v
    case Text(s) => Printable(s)
    case Number(_) => true
    case Bool(_) => true
    case List(items) => forall i :: 0 <= i < |items| ==> Readable(items[i])
    case Object(members) => forall i :: 0 <= i < |members| ==> Printable(members[i].key) && Readable(members[i].value)
  }

  ghost predicate ReadableItems(items: seq<Value>) { forall i :: 0 <= i < |items| ==> Readable(items[i]) }

  ghost predicate ReadableMember(m: Member) { Printable(m.key) && Readable(m.value) }

  ghost predicate ReadableMembers(members: seq<Member>) { forall i :: 0 <= i < |members| ==> ReadableMember(members[i]) }

  lemma ReadPrintedText(s: string, rest: string)
    ensures ReadValue(Quote(s) + rest) == if Printable(s) then Some((Text(s), rest)) else None
  {
    hide Escape, ReadString;
    ReadEscaped(s, rest);
    assert (Quote(s) + rest)[1..] == Escape(s) + "\"" + rest;
  }

  lemma ReadPrintedNumber(n: int, rest: string)
    requires StopsNumber(rest)
    ensures ReadNumber(Decimal(n) + rest) == Some((Number(n), rest))
  {
    hide Digits, ReadDigits, Extend;
    var m := if n < 0 then -n else n;
    var s := Digits(m);
    DigitsHold(m);
    ExtendFront(0, s);
    ReadDigitsAll(s[1..], DigitValue(s[0]), rest);
    assert s + rest == [s[0]] + (s[1..] + rest);
    assert (s + rest)[1..] == s[1..] + rest;
    assert ("-" + s + rest)[2..] == s[1..] + rest;
  }

  lemma NumberIsValue(n: int, rest: string)
    requires StopsNumber(rest)
    ensures ReadValue(Decimal(n) + rest) == Some((Number(n), rest))
  {
    hide Digits, ReadNumber, ReadString;
    ReadPrintedNumber(n, rest);
    DigitsHold(if n < 0 then -n else n);
    var c := (Decimal(n) + rest)[0];
    assert IsDigit(c) || c == '-';
    assert !StartsWith(Decimal(n) + rest, "true") && !StartsWith(Decimal(n) + rest, "false");
  }

  lemma ReadPrintedBool(b: bool, rest: string)
    ensures ReadValue(Print(Bool(b)) + rest) == Some((Bool(b), rest))
  {
    hide ReadNumber, ReadString;
    var s := Print(Bool(b)) + rest;
    assert b ==> s[..4] == "true" && s[4..] == rest;
    assert !b ==> s[..5] == "false" && s[5..] == rest;
  }

  lemma ReadEmpty(rest: string)
    ensures ReadValue("[]" + rest) == Some((List([]), rest))
    ensures ReadValue("{}" + rest) == Some((Object([]), rest))
  {
    hide ReadNumber, ReadString;
    assert ("[]" + rest)[..2] == "[]" && ("[]" + rest)[2..] == rest;
    assert ("{}" + rest)[..2] == "{}" && ("{}" + rest)[2..] == rest;
  }

  /** What comes first in a printed value or member. */
  lemma PrintedHead(v: Value)
    ensures Print(v) != "" && Print(v)[0] != ']' && Print(v)[0] != '}'
    decreases v
  {
    hide Digits, Escape, PrintItems, PrintMembers;
    if v.Number? {
      DigitsHold(if v.n < 0 then -v.n else v.n);
    }
  }

  lemma OpenList(body: string, rest: string)
    requires body != "" && body[0] != ']'
    ensures ReadValue("[" + body + rest)
         == if ReadItems(body + rest) == None then None
            else Some((List(ReadItems(body + rest).value.0), ReadItems(body + rest).value.1))
  {
    hide ReadNumber, ReadString, ReadItems;
    var s := "[" + body + rest;
    assert s[1..] == body + rest && s[1] == body[0];
    assert !StartsWith(s, "true") && !StartsWith(s, "false");
    assert s[..2] != "[]" by { assert s[..2][1] == body[0]; }
  }

  lemma OpenObject(body: string, rest: string)
    requires body != "" && body[0] != '}'
    ensures ReadValue("{" + body + rest)
         == if ReadMembers(body + rest) == None then None
            else Some((Object(ReadMembers(body + rest).value.0), ReadMembers(body + rest).value.1))
  {
    hide ReadNumber, ReadString, ReadMembers;
    var s := "{" + body + rest;
    assert s[1..] == body + rest && s[1] == body[0];
    assert s[..2][0] == '{' && "[]"[0] == '[';
    assert !StartsWith(s, "true") && !StartsWith(s, "false") && !StartsWith(s, "[]");
    assert s[..2] != "{}" by { assert s[..2][1] == body[0]; }
  }

  lemma ReadableParts(v: Value)
    ensures v.Text? ==> (Readable(v) <==> Printable(v.text))
    ensures v.Number? || v.Bool? ==> Readable(v)
    ensures v.List? ==> (Readable(v) <==> ReadableItems(v.items))
    ensures v.Object? ==> (Readable(v) <==> ReadableMembers(v.members))
  {
    if v.Object? {
      assert forall m: Member :: ReadableMember(m) <==> Printable(m.key) && Readable(m.value);
    }
  }

  /** A printed value reads back as itself, with whatever follows left over, when every text in
      it can be read; otherwise the reader rejects it. */
  lemma {:induction false} ReadPrinted(v: Value, rest: string)
    requires StopsNumber(rest)
    ensures ReadValue(Print(v) + rest) == if Readable(v) then Some((v, rest)) else None
    decreases v, 0
  {
    hide ReadValue, ReadItems, ReadMembers, PrintItems, PrintMembers, Quote, Decimal, Readable, ReadableItems, ReadableMembers;
    ReadableParts(v);
    match v
    case Text(s) => ReadPrintedText(s, rest);
    case Number(n) => NumberIsValue(n, rest);
    case Bool(b) => ReadPrintedBool(b, rest);
    case List(items) =>
      if items == [] {
        ReadEmpty(rest);
        assert ReadableItems(items) by { EmptyReadable(); }
      } else {
        ReadPrintedItems(items, rest);
        ItemsHead(items);
        OpenList(PrintItems(items), "]" + rest);
        assert Print(v) + rest == "[" + PrintItems(items) + ("]" + rest);
        assert PrintItems(items) + ("]" + rest) == PrintItems(items) + "]" + rest;
      }
    case Object(members) =>
      if members == [] {
        ReadEmpty(rest);
        assert ReadableMembers(members) by { EmptyReadable(); }
      } else {
        ReadPrintedMembers(members, rest);
        MembersHead(members);
        OpenObject(PrintMembers(members), "}" + rest);
        assert Print(v) + rest == "{" + PrintMembers(members) + ("}" + rest);
        assert PrintMembers(members) + ("}" + rest) == PrintMembers(members) + "}" + rest;
      }
  }

  lemma EmptyReadable()
    ensures ReadableItems([]) && ReadableMembers([])
  {
  }

  lemma ItemsHead(items: seq<Value>)
    requires items != []
    ensures PrintItems(items) != "" && PrintItems(items)[0] != ']'
  {
    hide Print;
    PrintedHead(items[0]);
  }

  lemma MembersHead(members: seq<Member>)
    requires members != []
    ensures PrintMembers(members) != "" && PrintMembers(members)[0] == '"'
  {
    hide Print, Escape;
  }

  lemma FirstAndRestReadable(items: seq<Value>)
    requires items != []
    ensures ReadableItems(items) <==> Readable(items[0]) && ReadableItems(items[1..])
  {
    hide Readable;
    assert items == [items[0]] + items[1..];
  }

  lemma NextItem(v: Value, good: bool, printed: string, rest: string)
    requires ReadValue(printed + "," + rest) == if good then Some((v, "," + rest)) else None
    ensures ReadItems(printed + "," + rest)
         == if !good || ReadItems(rest) == None then None else Some(([v] + ReadItems(rest).value.0, ReadItems(rest).value.1))
  {
    hide ReadValue;
    assert ("," + rest)[1..] == rest;
  }

  lemma LastItem(v: Value, good: bool, printed: string, rest: string)
    requires ReadValue(printed + "]" + rest) == if good then Some((v, "]" + rest)) else None
    ensures ReadItems(printed + "]" + rest) == if good then Some(([v], rest)) else None
  {
    hide ReadValue;
    assert ("]" + rest)[1..] == rest;
  }

  lemma {:induction false} ReadPrintedItems(items: seq<Value>, rest: string)
    requires items != []
    ensures ReadItems(PrintItems(items) + "]" + rest) == if ReadableItems(items) then Some((items, rest)) else None
    decreases items, 0
  {
    hide ReadValue, ReadItems, Print, Readable, ReadableItems;
    var v := items[0];
    FirstAndRestReadable(items);
    if |items| == 1 {
      assert items[1..] == [];
      EmptyReadable();
      ReadPrinted(v, "]" + rest);
      assert Print(v) + ("]" + rest) == Print(v) + "]" + rest;
      LastItem(v, Readable(v), Print(v), rest);
      assert items == [v];
    } else {
      var tail := PrintItems(items[1..]) + "]" + rest;
      ReadPrinted(v, "," + tail);
      ReadPrintedItems(items[1..], rest);
      assert Print(v) + ("," + tail) == Print(v) + "," + tail;
      NextItem(v, Readable(v), Print(v), tail);
      assert PrintItems(items) + "]" + rest == Print(v) + "," + tail;
      assert items == [v] + items[1..];
    }
  }

  /** Reading one printed member leaves the text after its value. */
  lemma ReadMemberText(m: Member, after: string)
    ensures var s := PrintMember(m) + after;
            && Head(s) == '"'
            && ReadString(s[1..]) == if Printable(m.key) then Some((m.key, ":" + Print(m.value) + after)) else None
  {
    hide Escape, ReadString, Print;
    var tail := ":" + Print(m.value) + after;
    ReadEscaped(m.key, tail);
    assert (PrintMember(m) + after)[1..] == Escape(m.key) + "\"" + tail;
  }

  lemma LastMember(m: Member, good: bool, rest: string)
    requires ReadValue(Print(m.value) + "}" + rest) == if good then Some((m.value, "}" + rest)) else None
    ensures ReadMembers(PrintMember(m) + "}" + rest) == if Printable(m.key) && good then Some(([m], rest)) else None
  {
    hide ReadValue, PrintMember, ReadString, Print, Printable;
    var s := PrintMember(m) + ("}" + rest);
    ReadMemberText(m, "}" + rest);
    assert s == PrintMember(m) + "}" + rest;
    assert (":" + Print(m.value) + ("}" + rest))[1..] == Print(m.value) + "}" + rest;
    assert ("}" + rest)[1..] == rest;
  }

  lemma NextMember(m: Member, good: bool, rest: string)
    requires ReadValue(Print(m.value) + "," + rest) == if good then Some((m.value, "," + rest)) else None
    ensures ReadMembers(PrintMember(m) + "," + rest)
         == if !(Printable(m.key) && good) || ReadMembers(rest) == None then None
            else Some(([m] + ReadMembers(rest).value.0, ReadMembers(rest).value.1))
  {
    hide ReadValue, PrintMember, ReadString, Print, Printable;
    var s := PrintMember(m) + ("," + rest);
    ReadMemberText(m, "," + rest);
    assert s == PrintMember(m) + "," + rest;
    assert (":" + Print(m.value) + ("," + rest))[1..] == Print(m.value) + "," + rest;
    assert ("," + rest)[1..] == rest;
  }

  lemma FirstAndRestMembers(members: seq<Member>)
    requires members != []
    ensures ReadableMembers(members) <==> Printable(members[0].key) && Readable(members[0].value) && ReadableMembers(members[1..])
  {
    hide Readable, Printable;
    assert members == [members[0]] + members[1..];
  }

  lemma {:induction false} ReadPrintedMembers(members: seq<Member>, rest: string)
    requires members != []
    ensures ReadMembers(PrintMembers(members) + "}" + rest) == if ReadableMembers(members) then Some((members, rest)) else None
    decreases members, 0
  {
    hide ReadValue, Print, Readable, ReadMembers, PrintMember, Printable, ReadableMembers;
    var m := members[0];
    FirstAndRestMembers(members);
    if |members| == 1 {
      assert members[1..] == [];
      EmptyReadable();
      ReadPrinted(m.value, "}" + rest);
      assert Print(m.value) + ("}" + rest) == Print(m.value) + "}" + rest;
      LastMember(m, Readable(m.value), rest);
      assert members == [m];
    } else {
      var tail := PrintMembers(members[1..]) + "}" + rest;
      ReadPrinted(m.value, "," + tail);
      assert Print(m.value) + ("," + tail) == Print(m.value) + "," + tail;
      ReadPrintedMembers(members[1..], rest);
      NextMember(m, Readable(m.value), tail);
      assert PrintMembers(members) + "}" + rest == PrintMember(m) + "," + tail;
      assert members == [m] + members[1..];
    }
  }

  // ---------- Members by key ----------

  /** A member by its key; of several, the last one. */
  function Lookup(members: seq<Member>, key: string): Option<Value> {
    if |members| == 0 then None
    else if members[|members| - 1].key == key then Some(members[|members| - 1].value)
    else Lookup(members[..|members| - 1], key)
  }

  lemma {:induction false} LookupConcat(a: seq<Member>, b: seq<Member>, key: string)
    ensures Lookup(a + b, key) == Lookup(b, key).Or(Lookup(a, key))
  {
    if |b| == 0 {
      assert a + b == a;
    } else {
      var n := |b| - 1;
      LookupConcat(a, b[..n], key);
      assert (a + b)[..|a + b| - 1] == a + b[..n];
    }
  }

  lemma LookupFive(a: Member, b: Member, c: Member, d: Member, e: Member, key: string)
    ensures Lookup([a, b, c, d, e], key)
         == if e.key == key then Some(e.value) else if d.key == key then Some(d.value) else if c.key == key then Some(c.value)
            else if b.key == key then Some(b.value) else if a.key == key then Some(a.value) else None
  {
    assert [a, b, c, d, e][..4] == [a, b, c, d] && [a, b, c, d][..3] == [a, b, c];
    assert [a, b, c][..2] == [a, b] && [a, b][..1] == [a] && [a][..0] == [];
    assert Lookup([a], key) == if a.key == key then Some(a.value) else None;
    assert Lookup([a, b], key) == if b.key == key then Some(b.value) else Lookup([a], key);
    assert Lookup([a, b, c], key) == if c.key == key then Some(c.value) else Lookup([a, b], key);
  }

  lemma LookupFour(a: Member, b: Member, c: Member, d: Member, key: string)
    ensures Lookup([a, b, c, d], key)
         == if d.key == key then Some(d.value) else if c.key == key then Some(c.value)
            else if b.key == key then Some(b.value) else if a.key == key then Some(a.value) else None
  {
    assert [a, b, c, d][..3] == [a, b, c] && [a, b, c][..2] == [a, b] && [a, b][..1] == [a] && [a][..0] == [];
    assert Lookup([a], key) == if a.key == key then Some(a.value) else None;
    assert Lookup([a, b], key) == if b.key == key then Some(b.value) else Lookup([a], key);
  }
}
