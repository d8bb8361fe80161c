/**
 Reading one request from a socket in arbitrary pieces: the receive loop, the
 content length it looks for, and exactly when the pieces do not matter.
 */
module RequestReading {
  import opened Ascii
  import opened Options
  import opened CStrings
  import opened FormDecoding
  import opened RequestParser
  import opened JsonValues
  import opened HttpRequests

  const LENGTH_FIELD: string := "Content-Length:"
  /** One more than the largest `size_t`. */
  const SIZE_MODULUS: nat := 0x1_0000_0000_0000_0000

  // ---------- The content length ----------

  /** `strtoul` in base ten: leading white space of any kind, a sign, digits; too large a
      number saturates and a minus sign wraps around. */
  function StrToUl(s: string): (n: nat)
    ensures n < SIZE_MODULUS
  {
    var t := SkipBlanks(s);
    var signed := t != "" && t[0] in {'+', '-'};
    var v := ReadDigits(if signed then t[1..] else t, 0).0;
    if v >= SIZE_MODULUS then SIZE_MODULUS - 1
    else if signed && t[0] == '-' && v > 0 then SIZE_MODULUS - v
    else v
  }

  /** The text behind the first `Content-Length:` before the blank line, to the end of what
      has been read. */
  function LengthText(s: string): Option<string>
    decreases |s|
  {
    match Find(s, CRLF)
    case None => None
    case Some(end) =>
      if end == 0 then None
      else if SameLetters(s, LENGTH_FIELD, 0) then Some(s[|LENGTH_FIELD|..])
      else LengthText(s[end + 2..])
  }

  function ContentLength(s: string): nat {
    match LengthText(s)
    case None => 0
    case Some(t) => StrToUl(SkipSpaces(t))
  }

  method StartsWithIgnoringCase(text: string, prefix: string) returns (yes: bool)
    ensures yes == SameLetters(text, prefix, 0)
  {
    var i := 0;
    while i < |text| && i < |prefix|
      invariant 0 <= i <= |text| && i <= |prefix|
      invariant forall j :: 0 <= j < i ==> LowerChar(text[j]) == LowerChar(prefix[j])
    {
      if LowerChar(text[i]) != LowerChar(prefix[i]) {
        return false;
      }
      i := i + 1;
    }
    return i == |prefix|;
  }

  method ContentLengthFromHeaders(text: string) returns (n: nat)
    ensures n == ContentLength(text)
  {
    hide Find, StrToUl;
    var cursor := text;
    while cursor != ""
      invariant LengthText(text) == LengthText(cursor)
      decreases |cursor|
    {
      var lineEnd := Find(cursor, CRLF);
      if lineEnd == None || lineEnd.value == 0 {
        return 0;
      }
      var here := StartsWithIgnoringCase(cursor, LENGTH_FIELD);
      if here {
        return StrToUl(SkipSpaces(cursor[|LENGTH_FIELD|..]));
      }
      cursor := cursor[lineEnd.value + 2..];
    }
    NoLengthText();
    return 0;
  }

  lemma NoLengthText()
    ensures LengthText("") == None
  {
    assert Find("", CRLF) == None;
  }

  // ---------- The receive loop ----------

  /** The outcome of one `recv`; a chunk longer than the room left is cut by the call. */
  datatype Recv = Interrupted | Failed | Closed | Chunk(bytes: string)

  /** How reading ends: `Waiting` is a loop that asks for more when nothing more arrives. */
  datatype Reading = Error | Done(text: string) | Waiting(text: string)

  /** The header is there and, counting modulo the width of `size_t`, so is the body. */
  predicate Complete(got: string) {
    var s := UpToNul(got);
    match Find(s, BLANK_LINE)
    case None => false
    case Some(at) => |got| >= (at + 4 + ContentLength(s)) % SIZE_MODULUS
  }

  function CutTo(s: string, room: nat): string { if |s| <= room then s else s[..room] }

  function ReadFrom(script: seq<Recv>, got: string, capacity: nat): Reading {
    if |got| + 1 >= capacity then Done(got)
    else if script == [] then Waiting(got)
    else
      match script[0]
      case Interrupted => ReadFrom(script[1..], got, capacity)
      case Failed => Error
      case Closed => Done(got)
      case Chunk(bytes) =>
        var got' := got + CutTo(bytes, capacity - |got| - 1);
        if bytes == "" || Complete(got') then Done(got') else ReadFrom(script[1..], got', capacity)
  }

  /** Whatever arrives, the loop stays inside the buffer, counts what it read, and leaves the
      text it read terminated; `waits` says that it would block in the next `recv`. */
  method ReadHttpRequest(script: seq<Recv>, buffer: array<char>) returns (total: int, waits: bool)
    modifies buffer
    ensures var r := ReadFrom(script, "", buffer.Length);
            && waits == r.Waiting?
            && if r.Error? then total == -1
            else total == |r.text| && (r.text != "" ==> HoldsString(buffer[..], r.text))
  {
    hide Complete;
    total, waits := 0, false;
    var next := 0;
    ghost var got := "";
    while total + 1 < buffer.Length && next < |script|
      invariant 0 <= next <= |script|
      invariant total == |got| && (got != "" ==> HoldsString(buffer[..], got))
      invariant ReadFrom(script, "", buffer.Length) == ReadFrom(script[next..], got, buffer.Length)
      decreases |script| - next
    {
      var received := script[next];
      assert script[next..][1..] == script[next + 1..];
      next := next + 1;
      match received
      case Interrupted => continue;
      case Failed => return -1, false;
      case Closed => return;
      case Chunk(bytes) =>
        if bytes == "" {
          assert got + CutTo(bytes, buffer.Length - total - 1) == got;
          return;
        }
        var kept := CutTo(bytes, buffer.Length - total - 1);
        Receive(buffer, total, kept, got);
        got := got + kept;
        total := total + |kept|;
        var done := IsComplete(buffer, total, got);
        if done {
          return;
        }
    }
    waits := total + 1 < buffer.Length;
  }

  /** The bytes of one `recv` and the terminator behind them. */
  method Receive(buffer: array<char>, total: nat, bytes: string, ghost got: string)
    requires total == |got| && total + |bytes| < buffer.Length && buffer[..total] == got
    modifies buffer
    ensures HoldsString(buffer[..], got + bytes)
  {
    forall i | 0 <= i < |bytes| {
      buffer[total + i] := bytes[i];
    }
    buffer[total + |bytes|] := NUL;
    assert buffer[..total] == got;
    assert buffer[..total + |bytes|] == got + bytes;
  }

  method IsComplete(buffer: array<char>, total: nat, ghost got: string) returns (done: bool)
    requires total == |got| && HoldsString(buffer[..], got)
    ensures done == Complete(got)
  {
    var text := UpToNul(buffer[..total]);
    assert buffer[..total] == got;
    var headerEnd := Find(text, BLANK_LINE);
    if headerEnd == None {
      return false;
    }
    var contentLength := ContentLengthFromHeaders(text);
    return total >= (headerEnd.value + 4 + contentLength) % SIZE_MODULUS;
  }

  // ---------- Chunking independence ----------

  function Data(script: seq<Recv>): string {
    if script == [] then ""
    else (match script[0] case Chunk(bytes) => bytes case _ => "") + Data(script[1..])
  }

  /** The script splits the request into non-empty pieces, possibly with interruptions. */
  ghost predicate Delivers(script: seq<Recv>, request: string) {
    && Data(script) == request
    && forall i :: 0 <= i < |script| ==> script[i].Interrupted? || (script[i].Chunk? && script[i].bytes != "")
  }

  /** A request of exactly its header's and its body's length that fits the buffer. */
  ghost predicate WholeRequest(request: string, capacity: nat) {
    && NulFree(request) && |request| < capacity <= SIZE_MODULUS
    && Find(request, BLANK_LINE).Some?
    && |request| == Find(request, BLANK_LINE).value + 4 + ContentLength(request)
  }

  function HeaderLength(request: string): nat
    requires Find(request, BLANK_LINE).Some?
  {
    Find(request, BLANK_LINE).value + 4
  }

  ghost predicate AllBlank(s: string) { forall i :: 0 <= i < |s| ==> IsBlank(s[i]) }

  /** The header names a content length but gives no value: only white space follows the field
      name up to the end of the header. */
  ghost predicate LengthLeftBlank(request: string)
    requires Find(request, BLANK_LINE).Some?
  {
    LengthText(request[..HeaderLength(request)]).Some? && AllBlank(LengthText(request[..HeaderLength(request)]).value)
  }

  /** Text behind the first occurrence does not matter for finding it. */
  lemma FindInPrefix(s: string, needle: string, k: nat)
    requires k <= |s| && Find(s, needle).Some?
    ensures Find(s, needle).value + |needle| <= k ==> Find(s[..k], needle) == Find(s, needle)
    ensures Find(s, needle).value + |needle| > k ==> Find(s[..k], needle) == None
  {
    hide Find;
    var at := Find(s, needle).value;
    forall i: nat
      ensures At(s[..k], needle, i) <==> At(s, needle, i) && i + |needle| <= k
    {
      if i + |needle| <= k {
        assert s[..k][i..i + |needle|] == s[i..i + |needle|];
      }
    }
    if at + |needle| <= k {
      FindUnique(s[..k], needle, at);
    }
  }

  /** Before the blank line there is a line break, and the rest of the header follows it. */
  lemma FirstBreak(s: string)
    requires Find(s, BLANK_LINE).Some?
    ensures Find(s, CRLF).Some? && Find(s, CRLF).value <= Find(s, BLANK_LINE).value
    ensures var b, end := Find(s, BLANK_LINE).value, Find(s, CRLF).value;
            end < b && end > 0 ==> Find(s[end + 2..], BLANK_LINE).Some? && Find(s[end + 2..], BLANK_LINE).value == b - end - 2
  {
    hide Find;
    var b := Find(s, BLANK_LINE).value;
    assert s[b..b + 4][..2] == CRLF && s[b..b + 2] == s[b..b + 4][..2];
    assert At(s, CRLF, b);
    var end := Find(s, CRLF).value;
    if end < b {
      assert b != end + 1 by {
        AtChars(s, CRLF, end, 1);
        AtChars(s, BLANK_LINE, b, 0);
      }
      var rest := s[end + 2..];
      assert s == s[..end + 2] + rest;
      AtDrop(s[..end + 2], rest, BLANK_LINE, b - end - 2);
      forall i | 0 <= i < b - end - 2
        ensures !At(rest, BLANK_LINE, i)
      {
        AtDrop(s[..end + 2], rest, BLANK_LINE, i);
      }
      FindUnique(rest, BLANK_LINE, b - end - 2);
    }
  }

  /** Cutting a request behind its header cuts the text of its length field by as much. */
  lemma {:induction false} LengthTextOfPrefix(s: string, k: nat)
    requires Find(s, BLANK_LINE).Some? && Find(s, BLANK_LINE).value + 4 <= k <= |s|
    ensures LengthText(s).Some? <==> LengthText(s[..k]).Some?
    ensures LengthText(s).Some? ==>
              var t, header := LengthText(s).value, Find(s, BLANK_LINE).value + 4;
              && |s| - header <= |t| && |t| - (|s| - k) >= 0
              && LengthText(s[..k]).value == t[..|t| - (|s| - k)]
              && |t| - (|s| - header) >= 4 && t[|t| - (|s| - header) - 1] == '\n'
    decreases |s|
  {
    hide Find, SameLetters;
    var b := Find(s, BLANK_LINE).value;
    FirstBreak(s);
    var end := Find(s, CRLF).value;
    FindInPrefix(s, CRLF, k);
    if end > 0 {
      SameLettersInPrefix(s, k, end);
      if SameLetters(s, LENGTH_FIELD, 0) {
        FieldBeforeBreak(s, end);
        assert s[..k][|LENGTH_FIELD|..] == s[|LENGTH_FIELD|..][..k - |LENGTH_FIELD|];
        AtChars(s, BLANK_LINE, b, 3);
      } else if end < b {
        var rest := s[end + 2..];
        LengthTextOfPrefix(rest, k - end - 2);
        assert s[..k][end + 2..] == rest[..k - end - 2];
      } else {
        LengthTextStopsAt(s, b);
        assert s[..k][b + 2..] == s[b + 2..][..k - b - 2];
        LengthTextStopsAt(s[..k], b);
      }
    }
  }

  /** Behind the last header line comes the blank line, which ends the scan. */
  lemma LengthTextStopsAt(s: string, b: nat)
    requires At(s, BLANK_LINE, b)
    ensures b + 2 <= |s| && LengthText(s[b + 2..]) == None
  {
    var rest := s[b + 2..];
    assert rest[0..2] == s[b..b + 4][2..];
    assert At(rest, CRLF, 0);
    FindUnique(rest, CRLF, 0);
  }

  /** The field name contains no line break, so it ends before the first one. */
  lemma FieldBeforeBreak(s: string, end: nat)
    requires SameLetters(s, LENGTH_FIELD, 0) && At(s, CRLF, end)
    ensures |LENGTH_FIELD| <= end
  {
    AtChars(s, CRLF, end, 0);
    forall j | 0 <= j < |LENGTH_FIELD|
      ensures s[j] != '\r'
    {
      assert LowerChar(s[0 + j]) == LowerChar(LENGTH_FIELD[j]);
    }
  }

  lemma SameLettersInPrefix(s: string, k: nat, end: nat)
    requires k <= |s| && At(s, CRLF, end) && end <= k
    ensures SameLetters(s[..k], LENGTH_FIELD, 0) <==> SameLetters(s, LENGTH_FIELD, 0)
  {
    if SameLetters(s, LENGTH_FIELD, 0) {
      FieldBeforeBreak(s, end);
    }
  }

  // ---------- Reading the number ----------

  lemma {:induction false} SkipBlanksLocal(h: string, x: string)
    ensures AllBlank(h) ==> SkipBlanks(h + x) == SkipBlanks(x)
    ensures !AllBlank(h) ==> SkipBlanks(h + x) == SkipBlanks(h) + x && SkipBlanks(h) != "" && !IsBlank(SkipBlanks(h)[0])
    ensures !AllBlank(h) ==> SkipBlanks(h)[|SkipBlanks(h)| - 1] == h[|h| - 1]
  {
    if h == "" {
      assert h + x == x;
    } else if IsBlank(h[0]) {
      assert (h + x)[1..] == h[1..] + x;
      SkipBlanksLocal(h[1..], x);
      assert h == [h[0]] + h[1..];
      assert AllBlank(h) <==> AllBlank(h[1..]);
    }
  }

  lemma {:induction false} SkipSpacesThenBlanks(s: string)
    ensures SkipBlanks(SkipSpaces(s)) == SkipBlanks(s)
  {
    if s != "" && s[0] == ' ' {
      SkipSpacesThenBlanks(s[1..]);
    }
  }

  lemma {:induction false} ReadDigitsLocal(h: string, x: string, before: nat)
    requires h != "" && !IsDigit(h[|h| - 1])
    ensures ReadDigits(h + x, before).0 == ReadDigits(h, before).0
  {
    if IsDigit(h[0]) {
      assert (h + x)[1..] == h[1..] + x;
      ReadDigitsLocal(h[1..], x, before * 10 + DigitValue(h[0]));
    }
  }

  /** A value that is not blank ends inside the header, whatever follows. */
  lemma StrToUlLocal(h: string, x: string)
    requires !AllBlank(h) && IsBlank(h[|h| - 1])
    ensures StrToUl(h + x) == StrToUl(h)
  {
    hide ReadDigits, SkipBlanks;
    SkipBlanksLocal(h, x);
    SkipBlanksLocal(h, "");
    assert h + "" == h;
    var t := SkipBlanks(h);
    assert SkipBlanks(h + x) == t + x;
    if t[0] in {'+', '-'} {
      assert (t + x)[1..] == t[1..] + x && t[1..][|t[1..]| - 1] == t[|t| - 1];
      ReadDigitsLocal(t[1..], x, 0);
    } else {
      ReadDigitsLocal(t, x, 0);
    }
  }

  lemma StrToUlOfBlank(h: string)
    requires AllBlank(h)
    ensures StrToUl(h) == 0
  {
    SkipBlanksLocal(h, "");
    assert h + "" == h && SkipBlanks("") == "";
    assert ReadDigits("", 0) == (0, "");
  }

  lemma StrToUlOfSpaces(s: string)
    ensures StrToUl(SkipSpaces(s)) == StrToUl(s)
  {
    SkipSpacesThenBlanks(s);
  }

  /** Unless its length was left blank, every cut of a request behind its header shows the
      same content length; if it was, the header alone shows zero. */
  lemma ContentLengthOfPrefix(request: string, k: nat)
    requires Find(request, BLANK_LINE).Some? && HeaderLength(request) <= k <= |request|
    ensures !LengthLeftBlank(request) ==> ContentLength(request[..k]) == ContentLength(request)
    ensures LengthLeftBlank(request) ==> ContentLength(request[..HeaderLength(request)]) == 0
  {
    hide Find, LengthText, StrToUl, SkipSpaces;
    var header := HeaderLength(request);
    LengthTextOfPrefix(request, k);
    LengthTextOfPrefix(request, header);
    if LengthText(request).Some? {
      var t := LengthText(request).value;
      var h := t[..|t| - (|request| - header)];
      assert LengthText(request[..header]).value == h && h[|h| - 1] == '\n';
      StrToUlOfSpaces(t);
      StrToUlOfSpaces(h);
      StrToUlOfSpaces(LengthText(request[..k]).value);
      if AllBlank(h) {
        StrToUlOfBlank(h);
      } else {
        StrToUlLocal(h, t[|h|..]);
        assert t == h + t[|h|..];
        var t' := LengthText(request[..k]).value;
        StrToUlLocal(h, t'[|h|..]);
        assert t' == h + t'[|h|..];
      }
    }
  }

  lemma UpToNulOfNulFree(s: string, k: nat)
    requires NulFree(s) && k <= |s|
    ensures UpToNul(s[..k]) == s[..k]
  {
    UpToNulShorter(s[..k]);
  }

  /** No proper beginning of a whole request looks complete. */
  lemma NotCompleteEarly(request: string, capacity: nat, k: nat)
    requires WholeRequest(request, capacity) && k < |request|
    requires !LengthLeftBlank(request) || |request| == HeaderLength(request)
    ensures !Complete(request[..k])
  {
    hide Find, ContentLength, UpToNul, LengthLeftBlank;
    UpToNulOfNulFree(request, k);
    FindInPrefix(request, BLANK_LINE, k);
    if k >= HeaderLength(request) {
      ContentLengthOfPrefix(request, k);
    }
  }

  /** The whole request passes the test that ends the loop. */
  lemma CompleteAtTheEnd(request: string, capacity: nat)
    requires WholeRequest(request, capacity)
    ensures Complete(request)
  {
    hide Find, ContentLength, UpToNul;
    UpToNulOfNulFree(request, |request|);
    assert request[..|request|] == request;
  }

  /** From any point of a split the loop reads the missing pieces and then stops by itself,
      whatever may arrive after the request. */
  lemma {:induction false} EveryPieceIsRead(script: seq<Recv>, more: seq<Recv>, got: string, request: string, capacity: nat)
    requires WholeRequest(request, capacity)
    requires !LengthLeftBlank(request) || |request| == HeaderLength(request)
    requires forall i :: 0 <= i < |script| ==> script[i].Interrupted? || (script[i].Chunk? && script[i].bytes != "")
    requires got + Data(script) == request && |got| < |request|
    ensures ReadFrom(script + more, got, capacity) == Done(request)
  {
    hide Complete, Find, LengthLeftBlank, ContentLength;
    assert script != [];
    assert (script + more)[0] == script[0] && (script + more)[1..] == script[1..] + more;
    if script[0].Interrupted? {
      assert Data(script) == Data(script[1..]);
      EveryPieceIsRead(script[1..], more, got, request, capacity);
    } else {
      var bytes := script[0].bytes;
      var got' := got + bytes;
      assert got' + Data(script[1..]) == request && request[..|got'|] == got';
      assert CutTo(bytes, capacity - |got| - 1) == bytes;
      if |got'| < |request| {
        NotCompleteEarly(request, capacity, |got'|);
        EveryPieceIsRead(script[1..], more, got', request, capacity);
      } else {
        assert got' == request;
        CompleteAtTheEnd(request, capacity);
      }
    }
  }

  /** With a length left blank in front of a body, a piece that ends with the header is taken
      for the whole request. */
  lemma BlankLengthStopsEarly(request: string, capacity: nat) returns (script: seq<Recv>)
    requires WholeRequest(request, capacity)
    requires LengthLeftBlank(request) && |request| > HeaderLength(request)
    ensures Delivers(script, request) && ReadFrom(script, "", capacity) != Done(request)
  {
    hide Find, ContentLength, UpToNul, LengthLeftBlank;
    var header := HeaderLength(request);
    var head, body := request[..header], request[header..];
    script := [Chunk(head), Chunk(body)];
    assert script[1..] == [Chunk(body)] && script[1..][1..] == [];
    assert Data([Chunk(body)]) == body + Data([]) == body;
    assert Data(script) == head + body == request;
    UpToNulOfNulFree(request, header);
    FindInPrefix(request, BLANK_LINE, header);
    ContentLengthOfPrefix(request, header);
    assert Complete(head);
    assert "" + CutTo(head, capacity - 1) == head;
    assert ReadFrom(script, "", capacity) == Done(head);
  }

  /** However a whole request is split into pieces and whatever would follow it, the loop ends
      by itself with exactly that request, if and only if its content length was not left blank
      in front of a body: the number is read past the header's end, so it would depend on how
      much of the body has arrived. */
  lemma ChunkingDoesNotMatterExactly(request: string, capacity: nat)
    requires WholeRequest(request, capacity)
    ensures (forall script, more :: Delivers(script, request) ==> ReadFrom(script + more, "", capacity) == Done(request))
       <==> !LengthLeftBlank(request) || |request| == HeaderLength(request)
  {
    hide ReadFrom, Find, LengthLeftBlank, ContentLength, Data;
    if !LengthLeftBlank(request) || |request| == HeaderLength(request) {
      forall script, more | Delivers(script, request)
        ensures ReadFrom(script + more, "", capacity) == Done(request)
      {
        assert "" + Data(script) == request;
        EveryPieceIsRead(script, more, "", request, capacity);
      }
    } else {
      var script := BlankLengthStopsEarly(request, capacity);
      assert script + [] == script;
    }
  }

  /** A request whose length field is empty, in front of any body. */
  function WithoutLength(line: string, body: string): string { line + CRLF + (LENGTH_FIELD + CRLF + (CRLF + body)) }

  lemma WithoutLengthHeader(line: string, body: string)
    requires Unbroken(line) && line[0] != 'c' && line[0] != 'C'
    ensures var r := WithoutLength(line, body);
            && Find(r, BLANK_LINE).Some? && Find(r, BLANK_LINE).value == |line| + 17
            && LengthText(r) == Some(CRLF + (CRLF + body))
  {
    hide Find;
    var rest := LENGTH_FIELD + CRLF + (CRLF + body);
    var r := WithoutLength(line, body);
    assert Unbroken(LENGTH_FIELD);
    BlankLineHere(LENGTH_FIELD, body);
    assert rest[0] == 'C' && rest[..2][0] == 'C';
    BlankLineLater(line, rest);
    LineEnd(line, rest);
    LineEnd(LENGTH_FIELD, CRLF + body);
    assert r[|line| + 2..] == rest && rest[|LENGTH_FIELD|..] == CRLF + (CRLF + body);
    assert !SameLetters(r, LENGTH_FIELD, 0) by { assert r[0 + 0] == line[0]; }
    assert SameLetters(rest, LENGTH_FIELD, 0);
  }

  /** The exception is real: an empty length field in front of a one-byte body. */
  lemma BlankLengthExample()
    ensures var request := WithoutLength("POST / HTTP/1.1", "1");
            WholeRequest(request, 8192) && LengthLeftBlank(request) && |request| > HeaderLength(request)
  {
    hide Find, LengthText, StrToUl, SkipSpaces;
    var request := WithoutLength("POST / HTTP/1.1", "1");
    WithoutLengthHeader("POST / HTTP/1.1", "1");
    assert CRLF + (CRLF + "1") == "\r\n\r\n1";
    OneByteLength();
    LengthTextOfPrefix(request, 36);
    assert LengthText(request[..36]).value == "\r\n\r\n1"[..4] == "\r\n\r\n";
  }

  lemma OneByteLength()
    ensures StrToUl(SkipSpaces("\r\n\r\n1")) == 1
  {
    SkipBlanksLocal("\r\n\r\n", "1");
    assert "\r\n\r\n" + "1" == "\r\n\r\n1";
    assert SkipBlanks("1") == "1";
    assert "1"[1..] == "" && ReadDigits("", 1) == (1, "");
    assert ReadDigits("1", 0) == (1, "");
  }

  // ---------- Printed headers ----------

  function LengthLine(n: nat): string { "Content-Length: " + Decimal(n) }

  ghost predicate BreakFree(s: string) { forall i :: 0 <= i < |s| ==> s[i] !in {'\r', '\n'} }

  lemma LengthTextSkips(line: string, rest: string)
    requires Unbroken(line) && !SameLetters(line + CRLF + rest, LENGTH_FIELD, 0)
    ensures LengthText(line + CRLF + rest) == LengthText(rest)
  {
    hide Find, SameLetters;
    LineEnd(line, rest);
    assert (line + CRLF + rest)[|line| + 2..] == rest;
  }

  lemma NotLengthField(s: string, j: nat)
    requires j < |LENGTH_FIELD| && j < |s| && LowerChar(s[j]) != LowerChar(LENGTH_FIELD[j])
    ensures !SameLetters(s, LENGTH_FIELD, 0)
  {
    assert s[0 + j] == s[j];
  }

  lemma LengthTextHere(field: string, value: string, rest: string)
    requires Spells(field, LENGTH_FIELD) && Unbroken(field + value)
    ensures LengthText((field + value) + CRLF + rest) == Some(value + CRLF + rest)
  {
    hide Find;
    var s := field + value + CRLF + rest;
    LineEnd(field + value, rest);
    SpelledHere(field, LENGTH_FIELD, value + CRLF + rest);
    assert s == field + (value + CRLF + rest);
    assert s[15..] == value + CRLF + rest;
  }

  lemma DigitsStart(s: string)
    requires s != "" && IsDigit(s[0])
    ensures SkipSpaces(" " + s) == s
    ensures ReadDigits(s, 0).0 < SIZE_MODULUS ==> StrToUl(s) == ReadDigits(s, 0).0
  {
    hide ReadDigits;
    assert (" " + s)[1..] == s && SkipSpaces(s) == s;
    assert SkipBlanks(s) == s;
  }

  lemma PrintedLengthReads(n: nat, rest: string)
    requires n < SIZE_MODULUS && (rest == "" || !IsDigit(rest[0]))
    ensures StrToUl(SkipSpaces(" " + Decimal(n) + rest)) == n
  {
    hide Digits, ReadDigits, Extend, StrToUl, SkipSpaces;
    DigitsHold(n);
    var s := Digits(n) + rest;
    assert " " + Decimal(n) + rest == " " + s;
    assert s[0] == Digits(n)[0];
    ReadDigitsAll(Digits(n), 0, rest);
    DigitsStart(s);
  }

  lemma LengthLineParts(n: nat)
    ensures LengthLine(n) == LENGTH_FIELD + (" " + Decimal(n))
  {
    hide Decimal;
  }

  lemma LinesEndInBreak(lines: seq<string>)
    requires lines != []
    ensures |Lines(lines)| >= 2
  {
    LinesSplit(lines);
  }

  lemma DecimalBreakFree(n: nat)
    ensures BreakFree(Decimal(n))
  {
    hide Digits;
    DigitsHold(n);
    assert forall i :: 0 <= i < |Decimal(n)| ==> IsDigit(Decimal(n)[i]);
  }

  lemma LengthLineUnbroken(n: nat)
    ensures Unbroken(LengthLine(n))
  {
    hide Decimal;
    DecimalBreakFree(n);
    assert BreakFree("Content-Length: ");
  }

  lemma FieldStaysOff(line: string, rest: string)
    requires Unbroken(line) && !SameLetters(line, LENGTH_FIELD, 0)
    ensures !SameLetters(line + CRLF + rest, LENGTH_FIELD, 0)
  {
    var s := line + CRLF + rest;
    if SameLetters(s, LENGTH_FIELD, 0) {
      LineEnd(line, rest);
      FieldBeforeBreak(s, |line|);
      forall j | 0 <= j < |LENGTH_FIELD|
        ensures LowerChar(line[0 + j]) == LowerChar(LENGTH_FIELD[j])
      {
        assert LowerChar(s[0 + j]) == LowerChar(LENGTH_FIELD[j]);
      }
    }
  }

  /** Lines of other fields do not matter to the scan for the content length. */
  lemma {:induction false} LengthTextBehind(before: seq<string>, rest: string)
    requires forall i :: 0 <= i < |before| ==> Unbroken(before[i]) && !SameLetters(before[i], LENGTH_FIELD, 0)
    ensures LengthText(Lines(before) + rest) == LengthText(rest)
  {
    hide LengthText, SameLetters, Unbroken;
    if before == [] {
      assert Lines(before) + rest == rest;
    } else {
      var tail := Lines(before[1..]) + rest;
      LengthTextBehind(before[1..], rest);
      FieldStaysOff(before[0], tail);
      LengthTextSkips(before[0], tail);
      assert Lines(before) + rest == before[0] + CRLF + tail;
    }
  }

  /** A printed header with a length line, and a body behind it: the header ends where the body
      begins, and the content length it is read with is the one that was printed. */
  lemma FramedText(before: seq<string>, after: seq<string>, body: string)
    requires forall i :: 0 <= i < |before| ==> Unbroken(before[i]) && !SameLetters(before[i], LENGTH_FIELD, 0)
    requires forall i :: 0 <= i < |after| ==> Unbroken(after[i])
    requires |body| < SIZE_MODULUS
    ensures var text := Lines(before + [LengthLine(|body|)] + after) + CRLF + body;
            && Find(text, BLANK_LINE).Some?
            && HeaderLength(text) + |body| == |text| && text[HeaderLength(text)..] == body
            && ContentLength(text) == |body|
  {
    hide Find, Lines, Unbroken, LengthText, StrToUl, SkipSpaces, LengthLine, SameLetters;
    var field := LengthLine(|body|);
    var lines := before + [field] + after;
    LengthLineUnbroken(|body|);
    BlankLineOf(lines, body);
    LinesEndInBreak(lines);
    var tail := Lines(after) + CRLF + body;
    FramedLines(before, field, after);
    assert Lines(lines) + CRLF + body == Lines(before) + (field + CRLF + tail);
    LengthTextBehind(before, field + CRLF + tail);
    LengthLineRead(|body|, tail);
  }

  lemma FramedLines(before: seq<string>, field: string, after: seq<string>)
    ensures Lines(before + [field] + after) == Lines(before) + (field + CRLF + Lines(after))
  {
    hide Lines;
    assert before + [field] + after == before + ([field] + after);
    LinesConcat(before, [field] + after);
    LinesSplit([field] + after);
    assert ([field] + after)[1..] == after;
  }

  lemma LengthLineRead(n: nat, tail: string)
    requires n < SIZE_MODULUS
    ensures ContentLength(LengthLine(n) + CRLF + tail) == n
  {
    hide LengthText, StrToUl, SkipSpaces, Decimal, LengthLine;
    LengthLineUnbroken(n);
    LengthLineParts(n);
    SpellsItself(LENGTH_FIELD);
    LengthTextHere(LENGTH_FIELD, " " + Decimal(n), tail);
    PrintedLengthReads(n, CRLF + tail);
    assert " " + Decimal(n) + CRLF + tail == " " + Decimal(n) + (CRLF + tail);
  }

  lemma LengthSpelled(field: string, n: nat, rest: string)
    requires Spells(field, LENGTH_FIELD) && Unbroken(field) && n < SIZE_MODULUS
    ensures ContentLength((field + (" " + Decimal(n))) + CRLF + rest) == n
  {
    hide LengthText, StrToUl, SkipSpaces, Decimal, SameLetters, Unbroken, Spells, Find;
    var value := " " + Decimal(n);
    UnbrokenNumber(field, n);
    LengthTextHere(field, value, rest);
    PrintedLengthReads(n, CRLF + rest);
    assert value + CRLF + rest == " " + Decimal(n) + (CRLF + rest);
  }

  /** The field's name may be in any case, and the first such line counts. */
  lemma LengthInAnyCase(before: seq<string>, field: string, n: nat, rest: string)
    requires forall i :: 0 <= i < |before| ==> Unbroken(before[i]) && !SameLetters(before[i], LENGTH_FIELD, 0)
    requires Spells(field, LENGTH_FIELD) && Unbroken(field) && n < SIZE_MODULUS
    ensures ContentLength(Lines(before) + ((field + (" " + Decimal(n))) + CRLF + rest)) == n
  {
    hide LengthText, StrToUl, SkipSpaces, Decimal, SameLetters, Unbroken, Spells, Lines;
    LengthTextBehind(before, (field + (" " + Decimal(n))) + CRLF + rest);
    LengthSpelled(field, n, rest);
  }

  lemma UnbrokenNumber(field: string, n: nat)
    requires Unbroken(field)
    ensures Unbroken(field + (" " + Decimal(n)))
  {
    hide Decimal;
    DecimalBreakFree(n);
  }

  lemma HeaderEnds(body: string)
    ensures LengthText(CRLF + body) == None
  {
    hide Find, SameLetters;
    var s := CRLF + body;
    assert s[0..2] == CRLF;
    FindUnique(s, CRLF, 0);
  }

  /** Without such a line the length is zero, whatever the body holds. */
  lemma LengthAbsent(lines: seq<string>, body: string)
    requires forall i :: 0 <= i < |lines| ==> Unbroken(lines[i]) && !SameLetters(lines[i], LENGTH_FIELD, 0)
    ensures ContentLength(Lines(lines) + CRLF + body) == 0
  {
    hide SameLetters, LengthText, Lines, Unbroken;
    LengthTextBehind(lines, CRLF + body);
    HeaderEnds(body);
    assert Lines(lines) + CRLF + body == Lines(lines) + (CRLF + body);
  }

  // ---------- Numbers as they may be written ----------

  /** White space, a sign and digits, and whatever follows: a number too large saturates, a minus
      sign counts down from the modulus. */
  lemma StrToUlReads(blanks: string, sign: string, n: nat, rest: string)
    requires AllBlank(blanks) && sign in {"", "+", "-"} && StopsNumber(rest)
    ensures StrToUl(blanks + sign + Digits(n) + rest)
         == if n >= SIZE_MODULUS then SIZE_MODULUS - 1 else if sign == "-" && n > 0 then SIZE_MODULUS - n else n
  {
    hide Digits, ReadDigits, SkipBlanks, Extend;
    var number := Digits(n) + rest;
    var signed := sign + number;
    DigitsHold(n);
    SkipBlanksLocal(blanks, signed);
    assert blanks + sign + Digits(n) + rest == blanks + signed;
    assert number[0] == Digits(n)[0] && IsDigit(number[0]);
    NothingToSkip(signed);
    ReadDigitsAll(Digits(n), 0, rest);
    assert sign != "" ==> signed[0] == sign[0] && signed[1..] == number;
    assert sign == "" ==> signed == number;
    assert Digits(n) + rest == number;
    assert SkipBlanks(blanks + sign + Digits(n) + rest) == signed;
  }

  lemma NothingToSkip(s: string)
    requires s != "" && !IsBlank(s[0])
    ensures SkipBlanks(s) == s
  {
  }

  /** Without a digit the number is zero. */
  lemma StrToUlOfNothing(blanks: string, sign: string, rest: string)
    requires AllBlank(blanks) && sign in {"", "+", "-"} && StopsNumber(rest)
    requires sign == "" && rest != "" ==> !IsBlank(rest[0]) && rest[0] !in {'+', '-'}
    ensures StrToUl(blanks + sign + rest) == 0
  {
    hide SkipBlanks;
    var signed := sign + rest;
    SkipBlanksLocal(blanks, signed);
    assert blanks + sign + rest == blanks + signed;
    if signed == "" {
      assert SkipBlanks("") == "" by { NothingBlank(); }
    } else {
      NothingToSkip(signed);
      assert sign != "" ==> signed[0] == sign[0] && signed[1..] == rest;
    }
    assert ReadDigits(rest, 0) == (0, rest);
  }

  lemma NothingBlank()
    ensures SkipBlanks("") == ""
  {
  }

  // ---------- Other ends of reading ----------

  /** Pieces and interruptions, no part of whose data looks like a whole request. */
  ghost predicate NeverComplete(script: seq<Recv>, got: string) {
    && (forall i :: 0 <= i < |script| ==> script[i].Interrupted? || (script[i].Chunk? && script[i].bytes != ""))
    && forall k :: |got| < k <= |got + Data(script)| ==> !Complete((got + Data(script))[..k])
  }

  lemma NeverCompleteLater(script: seq<Recv>, got: string)
    requires script != [] && NeverComplete(script, got)
    ensures script[0].Interrupted? ==> NeverComplete(script[1..], got) && Data(script[1..]) == Data(script)
    ensures script[0].Chunk? ==>
              NeverComplete(script[1..], got + script[0].bytes)
              && (got + script[0].bytes) + Data(script[1..]) == got + Data(script) && !Complete(got + script[0].bytes)
  {
    hide Complete;
    if script[0].Interrupted? {
      assert Data(script) == "" + Data(script[1..]) == Data(script[1..]);
      assert forall i :: 0 <= i < |script[1..]| ==> script[1..][i] == script[i + 1];
    } else {
      var got', all := got + script[0].bytes, got + Data(script);
      assert got' + Data(script[1..]) == all;
      assert all[..|got'|] == got';
    }
  }

  /** While nothing is complete and there is room, the loop goes on. */
  lemma {:induction false} ReadingGoesOn(script: seq<Recv>, tail: seq<Recv>, got: string, capacity: nat)
    requires NeverComplete(script, got) && |got + Data(script)| + 1 < capacity
    ensures ReadFrom(script + tail, got, capacity) == ReadFrom(tail, got + Data(script), capacity)
  {
    hide NeverComplete, Complete;
    if script == [] {
      assert script + tail == tail && got + Data(script) == got;
    } else {
      NeverCompleteLater(script, got);
      PiecesOnly(script, got);
      assert (script + tail)[0] == script[0] && (script + tail)[1..] == script[1..] + tail;
      if script[0].Interrupted? {
        ReadingGoesOn(script[1..], tail, got, capacity);
      } else {
        assert |got + script[0].bytes| <= |got + Data(script)|;
        assert CutTo(script[0].bytes, capacity - |got| - 1) == script[0].bytes;
        ReadingGoesOn(script[1..], tail, got + script[0].bytes, capacity);
      }
    }
  }

  lemma PiecesOnly(script: seq<Recv>, got: string)
    requires script != [] && NeverComplete(script, got)
    ensures script[0].Interrupted? || (script[0].Chunk? && script[0].bytes != "")
  {
  }

  /** An incomplete request that fits: a peer that closes leaves what it sent, a failed call is an
      error, and otherwise the loop waits for more. */
  lemma IncompleteRequest(script: seq<Recv>, more: seq<Recv>, capacity: nat)
    requires NeverComplete(script, "") && |Data(script)| + 1 < capacity
    ensures ReadFrom(script + ([Closed] + more), "", capacity) == Done(Data(script))
    ensures ReadFrom(script + ([Failed] + more), "", capacity) == Error
    ensures ReadFrom(script, "", capacity) == Waiting(Data(script))
  {
    assert "" + Data(script) == Data(script);
    ReadingGoesOn(script, [Closed] + more, "", capacity);
    ReadingGoesOn(script, [Failed] + more, "", capacity);
    ReadingGoesOn(script, [], "", capacity);
    assert script + [] == script;
  }

  /** One that does not fit is cut where the buffer is full. */
  lemma {:induction false} BufferFull(script: seq<Recv>, more: seq<Recv>, got: string, capacity: nat)
    requires NeverComplete(script, got) && |got| < capacity <= |got + Data(script)| + 1
    ensures ReadFrom(script + more, got, capacity) == Done((got + Data(script))[..capacity - 1])
  {
    hide NeverComplete, Complete;
    var all := got + Data(script);
    if |got| + 1 == capacity {
      assert all[..capacity - 1] == got;
    } else {
      NothingSent();
      assert script != [];
      NeverCompleteLater(script, got);
      PiecesOnly(script, got);
      assert (script + more)[0] == script[0] && (script + more)[1..] == script[1..] + more;
      if script[0].Interrupted? {
        BufferFull(script[1..], more, got, capacity);
      } else {
        var room := capacity - |got| - 1;
        var kept := CutTo(script[0].bytes, room);
        if |script[0].bytes| < room {
          BufferFull(script[1..], more, got + script[0].bytes, capacity);
        } else {
          assert got + kept == all[..capacity - 1] by {
            assert (got + script[0].bytes) + Data(script[1..]) == all;
          }
          assert ReadFrom(script[1..] + more, got + kept, capacity) == Done(got + kept);
        }
      }
    }
  }

  lemma NothingSent()
    ensures Data([]) == ""
  {
  }
}
