/**
 The decoy's JSON escaping, and a reader for the JSON it writes: strings as in
 section 7 of RFC 8259, integers, booleans, arrays and objects without white space.
 */
module Json {
  import opened Options
  import opened CStrings

  // ---------- Escaping ----------

  function EscapeChar(c: char): (s: string)
    ensures 1 <= |s| <= 2
  {
    match c
    case '\\' => "\\\\"
    case '"' => "\\\""
    case '\n' => "\\n"
    case '\r' => "\\r"
    case '\t' => "\\t"
    case _ => [c]
  }

  function Escape(s: string): string { if s == "" then "" else EscapeChar(s[0]) + Escape(s[1..]) }

  /** How many characters `escape_json` takes when `room` bytes are left. */
  function Taken(s: string, room: int): nat {
    if s != "" && room > 2 then 1 + Taken(s[1..], room - |EscapeChar(s[0])|) else 0
  }

  /** What `escape_json` writes into a buffer of the given capacity. */
  function EscapeInto(s: string, room: int): string {
    if s != "" && room > 2 then EscapeChar(s[0]) + EscapeInto(s[1..], room - |EscapeChar(s[0])|) else ""
  }

  /** The output is the escape of a prefix, so no escape is ever cut in half; it fits with its
      terminator; and it stops early only when fewer than two bytes and a terminator remain. */
  lemma {:induction false} EscapeIntoIsPrefix(s: string, room: int)
    ensures Taken(s, room) <= |s|
    ensures EscapeInto(s, room) == Escape(s[..Taken(s, room)])
    ensures room >= 1 ==> |EscapeInto(s, room)| < room
    ensures Taken(s, room) < |s| ==> room - |EscapeInto(s, room)| <= 2
  {
    if s != "" && room > 2 {
      var n := Taken(s[1..], room - |EscapeChar(s[0])|);
      EscapeIntoIsPrefix(s[1..], room - |EscapeChar(s[0])|);
      assert s[..n + 1][1..] == s[1..][..n];
    } else {
      assert Escape(s[..0]) == "";
    }
  }

  lemma {:induction false} EscapeConcat(s: string, t: string)
    ensures Escape(s + t) == Escape(s) + Escape(t)
  {
    hide EscapeChar;
    if s == "" {
      assert s + t == t;
    } else {
      EscapeConcat(s[1..], t);
      assert (s + t)[1..] == s[1..] + t;
    }
  }

  lemma {:induction false} EscapeLength(s: string)
    ensures |s| <= |Escape(s)| <= 2 * |s|
  {
    if s != "" {
      EscapeLength(s[1..]);
    }
  }

  lemma {:induction false} TakenAll(s: string, room: int)
    requires s != "" ==> |Escape(s[..|s| - 1])| + 2 < room
    ensures Taken(s, room) == |s|
  {
    if s != "" {
      var rest := s[1..];
      assert s[..|s| - 1] == (if rest == "" then "" else [s[0]] + rest[..|rest| - 1]);
      if rest != "" {
        assert s[..|s| - 1][1..] == rest[..|rest| - 1];
      }
      TakenAll(rest, room - |EscapeChar(s[0])|);
    }
  }

  /** Exactly when nothing is cut: the last character's escape still starts two bytes before
      the terminator's place. */
  lemma EscapeFitsExactly(s: string, capacity: nat)
    ensures EscapeInto(s, capacity) == Escape(s) <==> s == "" || |Escape(s[..|s| - 1])| + 2 < capacity
  {
    var n := Taken(s, capacity);
    EscapeIntoIsPrefix(s, capacity);
    if s == "" {
    } else if |Escape(s[..|s| - 1])| + 2 < capacity {
      TakenAll(s, capacity);
      assert s[..|s|] == s;
    } else {
      assert s == s[..|s| - 1] + s[|s| - 1..];
      EscapeConcat(s[..|s| - 1], s[|s| - 1..]);
      EscapeLength(s[|s| - 1..]);
      if n == |s| {
        LastTaken(s, capacity);
      } else {
        assert s == s[..n] + s[n..];
        EscapeConcat(s[..n], s[n..]);
        EscapeLength(s[n..]);
      }
    }
  }

  lemma {:induction false} LastTaken(s: string, room: int)
    requires s != "" && Taken(s, room) == |s|
    ensures |Escape(s[..|s| - 1])| + 2 < room
  {
    var rest := s[1..];
    if rest != "" {
      LastTaken(rest, room - |EscapeChar(s[0])|);
      assert s[..|s| - 1][1..] == rest[..|rest| - 1];
    } else {
      assert s[..0] == "";
    }
  }

  /** A buffer of twice the field's size never truncates. */
  lemma DoubleBufferSuffices(s: string, size: nat)
    requires |s| < size
    ensures EscapeInto(s, 2 * size) == Escape(s)
    ensures |EscapeInto(s, 2 * size)| <= 2 * |s|
  {
    EscapeLength(s);
    if s != "" {
      EscapeLength(s[..|s| - 1]);
    }
    EscapeFitsExactly(s, 2 * size);
  }

  /** One character's escape, written at `index`. */
  method PutEscaped(output: array<char>, index: nat, c: char) returns (index': nat)
    requires index + 2 < output.Length
    modifies output
    ensures index' == index + |EscapeChar(c)|
    ensures output[..index'] == old(output[..index]) + EscapeChar(c)
    ensures forall j :: index' <= j < output.Length ==> output[j] == old(output[j])
  {
    match c {
      case '\\' => output[index], output[index + 1] := '\\', c; index' := index + 2;
      case '"' => output[index], output[index + 1] := '\\', c; index' := index + 2;
      case '\n' => output[index], output[index + 1] := '\\', 'n'; index' := index + 2;
      case '\r' => output[index], output[index + 1] := '\\', 'r'; index' := index + 2;
      case '\t' => output[index], output[index + 1] := '\\', 't'; index' := index + 2;
      case _ => output[index] := c; index' := index + 1;
    }
  }

  /** The escaping loop over a fixed buffer. */
  method EscapeJson(input: string, output: array<char>)
    modifies output
    ensures output.Length > 0 ==> HoldsString(output[..], EscapeInto(input, output.Length))
    ensures forall i :: |EscapeInto(input, output.Length)| < i < output.Length ==> output[i] == old(output[i])
  {
    hide EscapeChar, EscapeInto;
    if output.Length == 0 {
      return;
    }
    EscapeIntoIsPrefix(input, output.Length);
    ghost var whole := EscapeInto(input, output.Length);
    var index := 0;
    var i := 0;
    while i < |input| && index + 2 < output.Length
      invariant 0 <= i <= |input| && 0 <= index < output.Length
      invariant whole == output[..index] + EscapeInto(input[i..], output.Length - index)
      invariant forall j :: index <= j < output.Length ==> output[j] == old(output[j])
    {
      EscapeStep(input, i, output.Length - index);
      ghost var done := output[..index];
      ghost var rest := EscapeInto(input[i + 1..], output.Length - index - |EscapeChar(input[i])|);
      assert whole == done + (EscapeChar(input[i]) + rest);
      index := PutEscaped(output, index, input[i]);
      assert output[..index] + rest == done + EscapeChar(input[i]) + rest;
      i := i + 1;
    }
    EscapeStops(input[i..], output.Length - index);
    assert whole == output[..index];
    output[index] := NUL;
  }

  lemma EscapeStep(s: string, i: nat, room: int)
    requires i < |s| && room > 2
    ensures EscapeInto(s[i..], room) == EscapeChar(s[i]) + EscapeInto(s[i + 1..], room - |EscapeChar(s[i])|)
  {
    hide EscapeChar;
    assert s[i..][1..] == s[i + 1..];
  }

  lemma EscapeStops(s: string, room: int)
    requires s == "" || room <= 2
    ensures EscapeInto(s, room) == ""
  {
  }

  // ---------- Reading strings ----------

  /** The value of a one-letter escape; `\u` escapes are not written by the decoy. */
  function Unescape(c: char): Option<char> {
    match c
    case '"' => Some('"')
    case '\\' => Some('\\')
    case '/' => Some('/')
    case 'b' => Some(8 as char)
    case 'f' => Some(12 as char)
    case 'n' => Some('\n')
    case 'r' => Some('\r')
    case 't' => Some('\t')
    case _ => None
  }

  /** Reads up to the closing quote; an unescaped control character is an error. */
  function ReadString(s: string): (r: Option<(string, string)>)
    ensures r.Some? ==> |r.value.1| < |s|
  {
    if s == "" then None
    else if s[0] == '"' then Some(("", s[1..]))
    else if s[0] as int < 0x20 then None
    else if s[0] == '\\' then
      if |s| < 2 || Unescape(s[1]) == None then None
      else
        match ReadString(s[2..])
        case None => None
        case Some((text, rest)) => Some(([Unescape(s[1]).value] + text, rest))
    else
      match ReadString(s[1..])
      case None => None
      case Some((text, rest)) => Some(([s[0]] + text, rest))
  }

  /** No control character other than newline, carriage return and tab. */
  ghost predicate Printable(s: string) {
    forall i :: 0 <= i < |s| ==> PrintableChar(s[i])
  }

  ghost predicate PrintableChar(c: char) { c as int >= 0x20 || c in {'\n', '\r', '\t'} }

  lemma ReadEscapedChar(c: char, tail: string)
    ensures ReadString(EscapeChar(c) + tail)
         == if !PrintableChar(c) || ReadString(tail) == None then None
            else Some(([c] + ReadString(tail).value.0, ReadString(tail).value.1))
  {
    hide ReadString;
    var e := EscapeChar(c);
    if |e| == 2 {
      assert e[0] == '\\' && Unescape(e[1]) == Some(c) && PrintableChar(c);
      ReadEscape(e[1], tail);
      assert e + tail == ['\\', e[1]] + tail;
    } else {
      assert e == [c];
      ReadPlain(c, tail);
    }
  }

  lemma ReadEscape(letter: char, tail: string)
    requires Unescape(letter).Some?
    ensures ReadString(['\\', letter] + tail)
         == if ReadString(tail) == None then None
            else Some(([Unescape(letter).value] + ReadString(tail).value.0, ReadString(tail).value.1))
  {
    hide Unescape;
    assert (['\\', letter] + tail)[2..] == tail;
  }

  lemma ReadPlain(c: char, tail: string)
    requires c != '"' && c != '\\'
    ensures ReadString([c] + tail)
         == if c as int < 0x20 || ReadString(tail) == None then None
            else Some(([c] + ReadString(tail).value.0, ReadString(tail).value.1))
  {
    assert ([c] + tail)[1..] == tail;
  }

  /** Reading an escaped text back yields it exactly when it has no other control characters;
      otherwise the reader rejects it, so no bare quote can end it early. */
  lemma {:induction false} ReadEscaped(s: string, rest: string)
    ensures ReadString(Escape(s) + "\"" + rest) == if Printable(s) then Some((s, rest)) else None
  {
    hide ReadString, EscapeChar;
    if s == "" {
      assert Escape(s) + "\"" + rest == ['"'] + rest;
      ReadQuote(rest);
    } else {
      ReadEscaped(s[1..], rest);
      var tail := Escape(s[1..]) + "\"" + rest;
      assert Escape(s) + "\"" + rest == EscapeChar(s[0]) + tail;
      ReadEscapedChar(s[0], tail);
      assert s == [s[0]] + s[1..];
      assert Printable(s) <==> PrintableChar(s[0]) && Printable(s[1..]);
    }
  }

  lemma ReadQuote(rest: string)
    ensures ReadString(['"'] + rest) == Some(("", rest))
  {
    assert (['"'] + rest)[1..] == rest;
  }
}
