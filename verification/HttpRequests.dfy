/**
 The request structure filled in place, the credential round trip through the whole
 parser, and the two classifiers of a request.
 */
module HttpRequests {
  import opened Ascii
  import opened Options
  import opened CStrings
  import opened FormDecoding
  import opened RequestParser
  import opened Ingestion

  // ---------- The structure ----------

  class HttpRequest {
    var verb: string
    var path: string
    var userAgent: string
    var host: string
    var accept: string
    var body: string
    var username: string
    var password: string
    var suspicious: bool
    var tags: seq<string>

    function Contents(): Request
      reads this
    {
      Request(verb, path, userAgent, host, accept, body, username, password, suspicious, tags)
    }

    constructor ()
      ensures Contents() == Request("", "", "", "", "", "", "", "", false, [])
    {
      verb, path, userAgent, host, accept, body, username, password := "", "", "", "", "", "", "", "";
      suspicious, tags := false, [];
    }

    method AddTag(tag: string)
      modifies this`tags
      ensures tags == WithTag(old(tags), tag)
    {
      if tag == "" {
        return;
      }
      for i := 0 to |tags|
        invariant tag !in tags[..i]
      {
        if tags[i] == tag {
          return;
        }
      }
      assert tags[..|tags|] == tags;
      if |tags| >= MAX_TAG_COUNT {
        return;
      }
      tags := tags + [Clip(tag, MAX_TAG_LENGTH)];
    }

    /** Tags and suspicion from path, method and the rule table, in that order. */
    method AnalyzeRequest()
      requires tags == [] && !suspicious
      modifies this`tags, this`suspicious
      ensures Contents() == Analyzed(old(Contents()))
    {
      hide WithTag, Hits;
      ghost var r := Contents();
      if verb == "POST" && path == "/login" {
        AddTag("credential_bruteforce");
        if username != "" || password != "" {
          AddTag("credential_attempt");
        }
      }
      if IsAdminPath(path) {
        AddTag("admin_panel_enumeration");
        AddTag("sensitive_path_discovery");
      }
      if !IsKnownPath(path) {
        suspicious := true;
        AddTag("internet_recon");
      }
      assert tags == PathTags(r);
      ApplyRules(r);
    }

    /** The rule loop: every hit raises suspicion and adds the rule's tag. */
    method ApplyRules(ghost r: Request)
      requires r == Contents().(tags := [], suspicious := false)
      requires tags == RuleTags(r, 0) && suspicious == RuleSuspicion(r, 0)
      modifies this`tags, this`suspicious
      ensures tags == RuleTags(r, |SUSPICIOUS_RULES|) && suspicious == RuleSuspicion(r, |SUSPICIOUS_RULES|)
    {
      hide WithTag, PathTags, ContainsIgnoringCase;
      for i := 0 to |SUSPICIOUS_RULES|
        invariant tags == RuleTags(r, i) && suspicious == RuleSuspicion(r, i)
      {
        var needle := SUSPICIOUS_RULES[i].needle;
        var inPath := FindIgnoringCase(path, needle);
        var inBody := FindIgnoringCase(body, needle);
        var inUsername := FindIgnoringCase(username, needle);
        var inPassword := FindIgnoringCase(password, needle);
        assert Hits(r, needle) == (inPath || inBody || inUsername || inPassword);
        if inPath || inBody || inUsername || inPassword {
          suspicious := true;
          AddTag(SUSPICIOUS_RULES[i].tag);
        }
      }
    }

    /** Header fields, body and form fields of a request whose line has been read. */
    method FillFields(raw: string)
      requires body == "" && username == "" && password == "" && !suspicious && tags == []
      modifies this
      ensures Contents() == FieldsOf(raw, old(verb), old(path))
    {
      hide HeaderValue, ExtractFormField, Find;
      var value := ExtractHeaderValue(raw, "User-Agent");
      userAgent := Clip(value, MAX_USER_AGENT_LENGTH);
      value := ExtractHeaderValue(raw, "Host");
      host := Clip(value, MAX_HOSTNAME_LENGTH);
      value := ExtractHeaderValue(raw, "Accept");
      accept := Clip(value, MAX_ACCEPT_LENGTH);
      var bodyStart := Find(raw, BLANK_LINE);
      if bodyStart.Some? {
        body := Clip(raw[bodyStart.value + 4..], MAX_BODY_LENGTH);
      }
      assert body == BodyOf(raw);
      if verb == "POST" {
        username := ExtractFormField(body, "username");
        password := ExtractFormField(body, "password");
      }
    }

    /** Fills the structure from a request text; false when there is no usable request line. */
    method ParseHttpRequest(raw: string) returns (ok: bool)
      modifies this
      ensures ok == ParseRequest(raw).Some?
      ensures ok ==> Contents() == ParseRequest(raw).value
    {
      hide Analyzed, FieldsOf, RequestLine, Find;
      verb, path, userAgent, host, accept, body, username, password := "", "", "", "", "", "", "", "";
      suspicious, tags := false, [];
      var lineEnd := Find(raw, CRLF);
      if lineEnd == None {
        return false;
      }
      var line := RequestLine(Clip(raw[..lineEnd.value], MAX_LINE_LENGTH));
      if line == None {
        return false;
      }
      verb, path := line.value.0, line.value.1;
      FillFields(raw);
      FieldsStartBlank(raw, line.value.0, line.value.1);
      AnalyzeRequest();
      return true;
    }
  }

  lemma FieldsStartBlank(raw: string, verb: string, path: string)
    ensures FieldsOf(raw, verb, path).tags == [] && !FieldsOf(raw, verb, path).suspicious
    ensures FieldsOf(raw, verb, path).verb == verb && FieldsOf(raw, verb, path).path == path
  {
  }

  // ---------- Credential round trip ----------

  ghost predicate Unbroken(line: string) { line != "" && forall i :: 0 <= i < |line| ==> line[i] !in {'\r', '\n'} }

  function Lines(lines: seq<string>): string { if lines == [] then "" else lines[0] + CRLF + Lines(lines[1..]) }

  /** A form post with any further header lines and two encoded values. */
  function PostText(target: string, fields: seq<string>, username: string, password: string): string {
    Lines(["POST " + target + " HTTP/1.1"] + fields) + CRLF + FormBody(username, password)
  }

  lemma LineEnd(line: string, rest: string)
    requires Unbroken(line)
    ensures Find(line + CRLF + rest, CRLF) == Some(|line|)
  {
    var s := line + CRLF + rest;
    assert s[|line|..|line| + 2] == CRLF;
    hide Find;
    forall i | 0 <= i < |line|
      ensures !At(s, CRLF, i)
    {
      assert s[i] == line[i];
      assert s[i..i + 2][0] == line[i];
    }
    FindUnique(s, CRLF, |line|);
  }

  /** A line cannot contain the start of a blank line, and the break after it is one only when
      another break follows. */
  lemma NoBlankLineIn(line: string, rest: string, i: nat)
    requires Unbroken(line) && i < |line| + 2
    requires i >= |line| ==> !StartsWith(rest, CRLF)
    ensures !At(line + CRLF + rest, BLANK_LINE, i)
  {
    var s := line + CRLF + rest;
    if i + 4 <= |s| {
      var four := s[i..i + 4];
      assert four[0] == s[i];
      if i < |line| {
        assert s[i] == line[i];
      } else if i == |line| {
        assert four[2] == s[i + 2] == rest[0] && four[3] == s[i + 3] == rest[1];
        assert rest[..2] == [rest[0], rest[1]];
      } else {
        assert s[i] == '\n';
      }
    }
  }

  lemma BlankLineHere(line: string, rest: string)
    requires Unbroken(line)
    ensures Find(line + CRLF + (CRLF + rest), BLANK_LINE) == Some(|line|)
  {
    hide Find;
    var s := line + CRLF + (CRLF + rest);
    forall i | 0 <= i < |line|
      ensures !At(s, BLANK_LINE, i)
    {
      NoBlankLineIn(line, CRLF + rest, i);
    }
    assert s[|line|..|line| + 4] == BLANK_LINE;
    FindUnique(s, BLANK_LINE, |line|);
  }

  /** A line that no blank line follows only shifts the blank line further on. */
  lemma BlankLineLater(line: string, rest: string)
    requires Unbroken(line) && !StartsWith(rest, CRLF) && Find(rest, BLANK_LINE).Some?
    ensures Find(line + CRLF + rest, BLANK_LINE).Some?
    ensures Find(line + CRLF + rest, BLANK_LINE).value == |line| + 2 + Find(rest, BLANK_LINE).value
  {
    hide Find, At;
    forall i | 0 <= i < |line + CRLF|
      ensures !At(line + CRLF + rest, BLANK_LINE, i)
    {
      NoBlankLineIn(line, rest, i);
    }
    FindShift(line + CRLF, rest, BLANK_LINE);
  }

  lemma {:induction false} BlankLineOf(lines: seq<string>, body: string)
    requires lines != [] && forall i :: 0 <= i < |lines| ==> Unbroken(lines[i])
    ensures Find(Lines(lines) + CRLF + body, BLANK_LINE) == Some(|Lines(lines)| - 2)
  {
    hide Find;
    var rest := Lines(lines[1..]) + CRLF + body;
    assert Lines(lines) + CRLF + body == lines[0] + CRLF + rest;
    if |lines| == 1 {
      assert rest == CRLF + body;
      BlankLineHere(lines[0], body);
    } else {
      BlankLineOf(lines[1..], body);
      assert rest[0] == lines[1][0] && rest[..2][0] == rest[0];
      BlankLineLater(lines[0], rest);
    }
  }

  lemma PostLine(target: string, tail: string)
    requires target != "" && !IsBlank(target[0])
    ensures RequestLine("POST " + target + tail).Some? && RequestLine("POST " + target + tail).value.0 == "POST"
  {
    hide BeforeQuestion;
    var line := "POST " + target + tail;
    assert line[..4] == "POST" && line[4] == ' ';
    assert SkipBlanks(line) == line;
    PostWord(line);
    var after := line[4..];
    assert after == " " + (target + tail);
    assert after[1..] == target + tail;
    assert SkipBlanks(after) == SkipBlanks(target + tail) == target + tail;
    assert Word(target + tail, MAX_PATH_LENGTH - 1)[0] == target[0];
  }

  lemma PostWord(line: string)
    requires |line| > 4 && line[..4] == "POST" && line[4] == ' '
    ensures Word(line, MAX_METHOD_LENGTH - 1) == "POST"
  {
    assert line[0] == 'P' && line[1] == 'O' && line[2] == 'S' && line[3] == 'T';
    assert line[4..][0] == ' ' && Word(line[4..], 3) == "";
    assert line[3..][1..] == line[4..] && Word(line[3..], 4) == "T";
    assert line[2..][1..] == line[3..] && Word(line[2..], 5) == "ST";
    assert line[1..][1..] == line[2..] && Word(line[1..], 6) == "OST";
  }

  lemma {:induction false} WordStops(w: string, rest: string, limit: nat)
    requires |w| <= limit && forall i :: 0 <= i < |w| ==> !IsBlank(w[i])
    requires rest == "" || IsBlank(rest[0])
    ensures Word(w + rest, limit) == w
  {
    if w == "" {
      assert w + rest == rest;
    } else {
      assert (w + rest)[1..] == w[1..] + rest;
      WordStops(w[1..], rest, limit - 1);
      assert w == [w[0]] + w[1..];
    }
  }

  lemma SkipBlanksStep(s: string)
    requires s != ""
    ensures SkipBlanks(s) == if IsBlank(s[0]) then SkipBlanks(s[1..]) else s
  {
  }

  lemma RequestLineOf(line: string, verb: string, path: string)
    requires SkipBlanks(line) == line && |verb| <= |line| && verb != "" && path != ""
    requires Word(line, MAX_METHOD_LENGTH - 1) == verb
    requires Word(SkipBlanks(line[|verb|..]), MAX_PATH_LENGTH - 1) == path
    ensures RequestLine(line) == Some((verb, BeforeQuestion(path)))
  {
    hide BeforeQuestion, Word, SkipBlanks;
  }

  ghost predicate BlankFree(s: string) { s != "" && forall i :: 0 <= i < |s| ==> !IsBlank(s[i]) }

  /** A method of up to seven and a target of up to 255 characters, both without blanks, are read
      as method and path; the path ends at the query string. */
  lemma RequestLineReads(verb: string, target: string)
    requires BlankFree(verb) && BlankFree(target) && |verb| <= 7 && |target| <= 255
    ensures RequestLine(Clip(verb + " " + target + " HTTP/1.1", 512)) == Some((verb, BeforeQuestion(target)))
  {
    hide BeforeQuestion, Word, SkipBlanks, RequestLine;
    var line, behind := verb + " " + target + " HTTP/1.1", target + " HTTP/1.1";
    assert line == verb + (" " + behind) && line[0] == verb[0];
    SkipBlanksStep(line);
    WordStops(verb, " " + behind, MAX_METHOD_LENGTH - 1);
    var after := line[|verb|..];
    assert after == " " + behind && after[1..] == behind && behind[0] == target[0];
    SkipBlanksStep(after);
    SkipBlanksStep(behind);
    WordStops(target, " HTTP/1.1", MAX_PATH_LENGTH - 1);
    assert Clip(line, MAX_LINE_LENGTH) == line;
    RequestLineOf(line, verb, target);
  }

  /** A posted target becomes the path. */
  lemma TargetBecomesPath(target: string)
    requires 0 < |target| < MAX_PATH_LENGTH && forall i :: 0 <= i < |target| ==> !IsBlank(target[i])
    ensures RequestLine(Clip("POST " + target + " HTTP/1.1", MAX_LINE_LENGTH)) == Some(("POST", BeforeQuestion(target)))
  {
    hide BeforeQuestion, RequestLine, Clip;
    PostIsWord();
    RequestLineReads("POST", target);
    assert "POST" + " " + target + " HTTP/1.1" == "POST " + target + " HTTP/1.1";
  }

  lemma PostIsWord()
    ensures BlankFree("POST") && |"POST"| == 4 && "POST" + " " == "POST "
  {
  }

  /** A header line of the given name, with something behind the colon. */
  predicate Carries(line: string, name: string) {
    |line| > |name| + 1 && SameLetters(line, name, 0) && line[|name|] == ':'
  }

  /** The same name, each letter in either case. */
  ghost predicate Spells(spelled: string, name: string) { |spelled| == |name| && SameLetters(spelled, name, 0) }

  /** A printed header field is read back, its name in any case, whatever other header lines come
      first. */
  lemma {:induction false} HeaderRoundTrip(before: seq<string>, spelled: string, name: string, value: string, rest: string)
    requires forall i :: 0 <= i < |before| ==> Unbroken(before[i]) && !Carries(before[i], name)
    requires Unbroken(spelled) && Spells(spelled, name) && Unbroken(value) && value[0] != ' '
    ensures HeaderValue(Lines(before) + (spelled + ": " + value) + CRLF + rest, name) == value
  {
    hide Find;
    if before == [] {
      var line := spelled + ": " + value;
      assert Lines(before) + line + CRLF + rest == line + CRLF + rest;
      HeaderHere(spelled, name, value, rest);
    } else {
      hide HeaderValue, Carries, Unbroken;
      var tail := Lines(before[1..]) + (spelled + ": " + value) + CRLF + rest;
      assert Lines(before) + (spelled + ": " + value) + CRLF + rest == before[0] + CRLF + tail;
      HeaderRoundTrip(before[1..], spelled, name, value, rest);
      SkipsLine(before[0], name, tail);
    }
  }

  /** Without such a line there is no value, whatever the body holds. */
  lemma {:induction false} HeaderAbsent(lines: seq<string>, name: string, body: string)
    requires forall i :: 0 <= i < |lines| ==> Unbroken(lines[i]) && !Carries(lines[i], name)
    ensures HeaderValue(Lines(lines) + CRLF + body, name) == ""
  {
    hide Find;
    if lines == [] {
      var s := CRLF + body;
      assert Lines(lines) + CRLF + body == s;
      assert s[0..2] == CRLF;
      FindUnique(s, CRLF, 0);
    } else {
      hide HeaderValue, Carries, Unbroken;
      var tail := Lines(lines[1..]) + CRLF + body;
      assert Lines(lines) + CRLF + body == lines[0] + CRLF + tail;
      HeaderAbsent(lines[1..], name, body);
      SkipsLine(lines[0], name, tail);
    }
  }

  lemma HeaderHere(spelled: string, name: string, value: string, rest: string)
    requires Unbroken(spelled) && Spells(spelled, name) && Unbroken(value) && value[0] != ' '
    ensures HeaderValue((spelled + ": " + value) + CRLF + rest, name) == value
  {
    hide Find, SkipSpaces;
    var line := spelled + ": " + value;
    var s := line + CRLF + rest;
    assert Unbroken(line);
    LineEnd(line, rest);
    SpelledHere(spelled, name, ": " + value + CRLF + rest);
    assert s == spelled + (": " + value + CRLF + rest);
    assert s[|name|] == ':';
    assert s[|name| + 1..|line|] == " " + value;
    OneSpaceSkipped(value);
  }

  lemma SpelledHere(spelled: string, name: string, rest: string)
    requires Spells(spelled, name)
    ensures SameLetters(spelled + rest, name, 0)
  {
    forall j | 0 <= j < |name|
      ensures LowerChar((spelled + rest)[0 + j]) == LowerChar(name[j])
    {
      assert LowerChar(spelled[0 + j]) == LowerChar(name[j]);
    }
  }

  lemma SpellsItself(name: string)
    ensures Spells(name, name)
  {
  }

  lemma OneSpaceSkipped(value: string)
    requires value != "" && value[0] != ' '
    ensures SkipSpaces(" " + value) == value
  {
    assert (" " + value)[1..] == value;
  }

  lemma SkipsLine(line: string, name: string, tail: string)
    requires Unbroken(line) && !Carries(line, name)
    ensures HeaderValue(line + CRLF + tail, name) == HeaderValue(tail, name)
  {
    hide Find;
    var s := line + CRLF + tail;
    LineEnd(line, tail);
    assert s[|line| + 2..] == tail;
    if |line| > |name| + 1 {
      assert SameLetters(s, name, 0) <==> SameLetters(line, name, 0);
      assert s[|name|] == line[|name|];
    }
  }

  /** The request line survives the cut to 511 bytes as far as the method is concerned. */
  lemma PostLineCut(target: string, version: string)
    requires target != "" && !IsBlank(target[0])
    ensures var r := RequestLine(Clip("POST " + target + version, MAX_LINE_LENGTH)); r.Some? && r.value.0 == "POST"
  {
    hide RequestLine;
    var line := "POST " + target + version;
    if |line| < MAX_LINE_LENGTH {
      PostLine(target, version);
    } else {
      var cut := Clip(line, MAX_LINE_LENGTH);
      assert cut == "POST " + [target[0]] + cut[6..];
      PostLine([target[0]], cut[6..]);
    }
  }

  /** A form post to any target with any further header lines is read field by field, whatever
      the encoded values decode to. */
  lemma PostedFields(target: string, fields: seq<string>, u: string, p: string)
    requires Unbroken(target) && !IsBlank(target[0])
    requires forall i :: 0 <= i < |fields| ==> Unbroken(fields[i])
    requires Inert(u) && Inert(p) && |FormBody(u, p)| < 2048
    ensures var r := ParseRequest(PostText(target, fields, u, p));
            r.Some? && r.value.verb == "POST" && r.value.username == FieldOf(u) && r.value.password == FieldOf(p)
  {
    hide Find, RequestLine, Analyzed, ExtractFormField, HeaderValue, Lines, FieldOf, Inert, FormBody;
    var first := "POST " + target + " HTTP/1.1";
    var lines, body := [first] + fields, FormBody(u, p);
    var raw := PostText(target, fields, u, p);
    assert Unbroken(first) by { FirstLineUnbroken(target); }
    assert forall i :: 0 <= i < |lines| ==> Unbroken(lines[i]);
    PostStarts(target, fields, u, p);
    PostLineCut(target, " HTTP/1.1");
    BlankLineOf(lines, body);
    LinesSplit(lines);
    assert raw[|Lines(lines)| + 2..] == body;
    assert BodyOf(raw) == body;
    FormReads(u, p);
    AnalysisKeepsFields(FieldsOf(raw, "POST", RequestLine(Clip(first, MAX_LINE_LENGTH)).value.1));
  }

  lemma EncodedBodyFits(username: string, password: string, us: seq<Style>, ps: seq<Style>)
    requires NonZeroBytes(username) && NonZeroBytes(password)
    requires |us| == |username| < MAX_FIELD_LENGTH && |ps| == |password| < MAX_FIELD_LENGTH
    ensures Inert(Encode(username, us)) && Inert(Encode(password, ps))
    ensures |FormBody(Encode(username, us), Encode(password, ps))| < MAX_BODY_LENGTH
  {
    hide Encode;
    EncodedInert(username, us);
    EncodedInert(password, ps);
  }

  /** Printing a username and a password of up to 127 bytes as a form post to any target, with
      any further header lines and every byte spelled in any style, and parsing it recovers both. */
  lemma CredentialRoundTrip(target: string, fields: seq<string>, username: string, password: string, us: seq<Style>, ps: seq<Style>)
    requires Unbroken(target) && !IsBlank(target[0])
    requires forall i :: 0 <= i < |fields| ==> Unbroken(fields[i])
    requires NonZeroBytes(username) && NonZeroBytes(password)
    requires |us| == |username| < 128 && |ps| == |password| < 128
    ensures var r := ParseRequest(PostText(target, fields, Encode(username, us), Encode(password, ps)));
            r.Some? && r.value.verb == "POST" && r.value.username == username && r.value.password == password
  {
    hide ParseRequest, PostText, Encode, FieldOf, Inert, FormBody, Unbroken;
    EncodedBodyFits(username, password, us, ps);
    PostedFields(target, fields, Encode(username, us), Encode(password, ps));
    EncodedField(username, us);
    EncodedField(password, ps);
  }

  /** The first line of a printed post is its request line. */
  lemma PostStarts(target: string, fields: seq<string>, username: string, password: string)
    requires Unbroken(target)
    ensures var raw, first := PostText(target, fields, username, password), "POST " + target + " HTTP/1.1";
            |first| <= |raw| && Find(raw, CRLF) == Some(|first|) && raw[..|first|] == first
  {
    hide Find, Lines, FormBody, Unbroken;
    var first := "POST " + target + " HTTP/1.1";
    var lines, body := [first] + fields, FormBody(username, password);
    FirstLineUnbroken(target);
    LinesSplit(lines);
    LineEnd(first, Lines(lines[1..]) + CRLF + body);
    assert PostText(target, fields, username, password) == first + CRLF + (Lines(lines[1..]) + CRLF + body);
  }

  lemma BlankFreeUnbroken(target: string)
    requires target != "" && forall i :: 0 <= i < |target| ==> !IsBlank(target[i])
    ensures Unbroken(target)
  {
  }

  /** The path of such a post is its target up to the query string. */
  lemma PostedPath(target: string, fields: seq<string>, username: string, password: string)
    requires 0 < |target| < MAX_PATH_LENGTH && forall i :: 0 <= i < |target| ==> !IsBlank(target[i])
    ensures var r := ParseRequest(PostText(target, fields, username, password));
            r.Some? && r.value.path == BeforeQuestion(target)
  {
    hide Find, RequestLine, Analyzed, FieldsOf, PostText, BeforeQuestion, Clip;
    var raw := PostText(target, fields, username, password);
    BlankFreeUnbroken(target);
    PostStarts(target, fields, username, password);
    TargetBecomesPath(target);
    AnalysisKeepsFields(FieldsOf(raw, "POST", BeforeQuestion(target)));
    FieldsStartBlank(raw, "POST", BeforeQuestion(target));
  }

  lemma {:induction false} LinesConcat(a: seq<string>, b: seq<string>)
    ensures Lines(a + b) == Lines(a) + Lines(b)
  {
    if a == [] {
      assert a + b == b;
    } else {
      LinesConcat(a[1..], b);
      assert (a + b)[1..] == a[1..] + b;
    }
  }

  /** A header field printed anywhere in a post, its name in any case, before any line of the same
      name, is read back. */
  lemma PostedHeader(target: string, before: seq<string>, spelled: string, name: string, value: string, after: seq<string>, u: string, p: string)
    requires Unbroken(target) && forall i :: 0 <= i < |before| ==> Unbroken(before[i]) && !Carries(before[i], name)
    requires Unbroken(name) && name[0] !in {'p', 'P'} && Unbroken(spelled) && Spells(spelled, name) && Unbroken(value) && value[0] != ' '
    ensures HeaderValue(PostText(target, before + [spelled + ": " + value] + after, u, p), name) == value
  {
    hide HeaderValue, Lines, FormBody, Unbroken;
    var first, field := "POST " + target + " HTTP/1.1", spelled + ": " + value;
    var head := [first] + before;
    FirstLineUnbroken(target);
    UnbrokenNotEmpty(name);
    PostLineCarriesNothing(target, name);
    var rest := Lines(after) + CRLF + FormBody(u, p);
    assert [first] + (before + [field] + after) == head + ([field] + after);
    LinesConcat(head, [field] + after);
    LinesConcat([field], after);
    LinesSplit([field]);
    assert [field][1..] == [];
    NoLines();
    assert Lines([field]) == field + CRLF;
    assert Lines([first] + (before + [field] + after)) == Lines(head) + ((field + CRLF) + Lines(after));
    assert PostText(target, before + [field] + after, u, p) == Lines(head) + field + CRLF + rest;
    HeaderRoundTrip(head, spelled, name, value, rest);
  }

  lemma OtherFirstLetter(line: string, name: string)
    requires line != "" && name != "" && LowerChar(line[0]) != LowerChar(name[0])
    ensures !Carries(line, name)
  {
    var first := line[0 + 0];
    assert LowerChar(first) != LowerChar(name[0]);
  }

  lemma PostLineCarriesNothing(target: string, name: string)
    requires name != "" && name[0] !in {'p', 'P'}
    ensures !Carries("POST " + target + " HTTP/1.1", name)
  {
    var first := "POST " + target + " HTTP/1.1";
    assert first[0] == 'P';
    OtherFirstLetter(first, name);
  }

  lemma NoLines()
    ensures Lines([]) == ""
  {
  }

  /** Each of the three header fields the decoy keeps arrives in its own place, cut to its array. */
  lemma HeadersArrive(target: string, before: seq<string>, spelled: string, name: string, value: string, after: seq<string>, u: string, p: string)
    requires Unbroken(target) && !IsBlank(target[0])
    requires forall i :: 0 <= i < |before| ==> Unbroken(before[i]) && !Carries(before[i], name)
    requires name in {"User-Agent", "Host", "Accept"} && Unbroken(spelled) && Spells(spelled, name) && Unbroken(value) && value[0] != ' '
    ensures var r := ParseRequest(PostText(target, before + [spelled + ": " + value] + after, u, p));
            && r.Some?
            && (name == "User-Agent" ==> r.value.userAgent == Clip(value, 256))
            && (name == "Host" ==> r.value.host == Clip(value, 64))
            && (name == "Accept" ==> r.value.accept == Clip(value, 128))
  {
    hide Find, RequestLine, RuleTags, RuleSuspicion, ExtractFormField, HeaderValue, PostText, Unbroken, Carries, BodyOf, Clip;
    var fields := before + [spelled + ": " + value] + after;
    var raw := PostText(target, fields, u, p);
    HeaderNames(name);
    PostedHeader(target, before, spelled, name, value, after, u, p);
    PostStarts(target, fields, u, p);
    UnbrokenNotEmpty(target);
    PostLineCut(target, " HTTP/1.1");
  }

  lemma HeaderNames(name: string)
    requires name in {"User-Agent", "Host", "Accept"}
    ensures Unbroken(name) && name[0] !in {'p', 'P'}
  {
  }

  lemma UnbrokenNotEmpty(s: string)
    requires Unbroken(s)
    ensures s != ""
  {
  }

  lemma FirstLineUnbroken(target: string)
    requires Unbroken(target)
    ensures Unbroken("POST " + target + " HTTP/1.1")
  {
    var line := "POST " + target + " HTTP/1.1";
    forall i | 0 <= i < |line|
      ensures line[i] !in {'\r', '\n'}
    {
      if 5 <= i < 5 + |target| {
        assert line[i] == target[i - 5];
      }
    }
  }

  lemma LinesSplit(lines: seq<string>)
    requires lines != []
    ensures Lines(lines) == lines[0] + CRLF + Lines(lines[1..])
  {
  }

  lemma AnalysisKeepsFields(f: Request)
    ensures Analyzed(f).verb == f.verb && Analyzed(f).path == f.path && Analyzed(f).username == f.username && Analyzed(f).password == f.password
  {
    hide RuleTags, RuleSuspicion;
  }

  // ---------- Two classifiers ----------

  /** The class a single tag decides, if any, in the decoy's loop. */
  function ClassOfTag(tag: string): Option<string> {
    if tag == "credential_bruteforce" then Some("credential")
    else if tag == "path_traversal_probe" || tag == "xss_probe" || tag == "sqli_probe" then Some("probe")
    else if tag == "admin_panel_enumeration" || tag == "sensitive_path_discovery" then Some("recon")
    else None
  }

  function FirstClass(tags: seq<string>): Option<string> {
    if |tags| == 0 then None else FirstClass(tags[..|tags| - 1]).Or(ClassOfTag(tags[|tags| - 1]))
  }

  function DecoyClass(tags: seq<string>, suspicious: bool): string {
    FirstClass(tags).GetOr(if suspicious then "scan" else "probe")
  }

  lemma {:induction false} FirstClassOfPrefix(tags: seq<string>, i: nat)
    requires i <= |tags| && FirstClass(tags[..i]).Some?
    ensures FirstClass(tags) == FirstClass(tags[..i])
  {
    hide ClassOfTag;
    if i == |tags| {
      assert tags[..i] == tags;
    } else {
      assert tags[..|tags| - 1][..i] == tags[..i];
      FirstClassOfPrefix(tags[..|tags| - 1], i);
    }
  }

  /** The decoy's loop: the first tag that decides. */
  method EventClassFromRequest(tags: seq<string>, suspicious: bool) returns (decided: string)
    ensures decided == DecoyClass(tags, suspicious)
  {
    for i := 0 to |tags|
      invariant FirstClass(tags[..i]) == None
    {
      assert tags[..i + 1][..i] == tags[..i];
      if tags[i] == "credential_bruteforce" {
        FirstClassOfPrefix(tags, i + 1);
        return "credential";
      }
      if tags[i] == "path_traversal_probe" || tags[i] == "xss_probe" || tags[i] == "sqli_probe" {
        FirstClassOfPrefix(tags, i + 1);
        return "probe";
      }
      if tags[i] == "admin_panel_enumeration" || tags[i] == "sensitive_path_discovery" {
        FirstClassOfPrefix(tags, i + 1);
        return "recon";
      }
    }
    assert tags[..|tags|] == tags;
    return if suspicious then "scan" else "probe";
  }

  function TagSet(tags: seq<string>): set<string> { set t | t in tags }

  lemma {:induction false} PresentTagHasClass(tags: seq<string>, tag: string)
    requires tag in tags && FirstClass(tags) == None
    ensures ClassOfTag(tag) == None
  {
    hide ClassOfTag;
    var n := |tags| - 1;
    assert tags == tags[..n] + [tags[n]];
    if tag != tags[n] {
      PresentTagHasClass(tags[..n], tag);
    }
  }

  /** Adding a vocabulary tag decides only what was still undecided. */
  lemma FirstClassAfter(tags: seq<string>, condition: bool, tag: string)
    requires TagsSound(tags) && tag in VOCABULARY
    ensures FirstClass(WithTagIf(tags, condition, tag))
         == if condition then FirstClass(tags).Or(ClassOfTag(tag)) else FirstClass(tags)
    ensures TagSet(WithTagIf(tags, condition, tag)) == if condition then TagSet(tags) + {tag} else TagSet(tags)
    ensures TagsSound(WithTagIf(tags, condition, tag))
  {
    hide ClassOfTag, TagsSound;
    WithTagSound(tags, condition, tag);
    if condition && tag in tags && FirstClass(tags) == None {
      PresentTagHasClass(tags, tag);
    }
    assert (tags + [tag])[..|tags|] == tags;
  }

  predicate IsLoginPost(r: Request) { r.verb == "POST" && r.path == "/login" }

  lemma PathTagsClass(r: Request)
    ensures FirstClass(PathTags(r))
         == if IsLoginPost(r) then Some("credential") else if IsAdminPath(r.path) then Some("recon") else None
    ensures "credential_bruteforce" in PathTags(r) <==> IsLoginPost(r)
    ensures "admin_panel_enumeration" in PathTags(r) <==> IsAdminPath(r.path)
    ensures "sensitive_path_discovery" in PathTags(r) <==> IsAdminPath(r.path)
    ensures "sqli_probe" !in PathTags(r) && "xss_probe" !in PathTags(r) && "path_traversal_probe" !in PathTags(r)
    ensures TagsSound(PathTags(r))
  {
    hide WithTagIf, TagsSound, FirstClass;
    var login, bears := IsLoginPost(r), IsLoginPost(r) && (r.username != "" || r.password != "");
    NoTagsSound();
    assert FirstClass([]) == None by { NoClass(); }
    var t1 := WithTagIf([], login, "credential_bruteforce");
    FirstClassAfter([], login, "credential_bruteforce");
    var t2 := WithTagIf(t1, bears, "credential_attempt");
    FirstClassAfter(t1, bears, "credential_attempt");
    var t3 := WithTagIf(t2, IsAdminPath(r.path), "admin_panel_enumeration");
    FirstClassAfter(t2, IsAdminPath(r.path), "admin_panel_enumeration");
    var t4 := WithTagIf(t3, IsAdminPath(r.path), "sensitive_path_discovery");
    FirstClassAfter(t3, IsAdminPath(r.path), "sensitive_path_discovery");
    FirstClassAfter(t4, !IsKnownPath(r.path), "internet_recon");
    var tags := PathTags(r);
    assert tags == WithTagIf(t4, !IsKnownPath(r.path), "internet_recon");
    assert forall t :: t in tags <==> t in TagSet(tags);
  }

  lemma NoClass()
    ensures FirstClass([]) == None
  {
  }

  /** What the probe rules contribute. */
  lemma ProbeTagsClass(r: Request)
    ensures var tags, probe := RuleTags(r, 3), Hits(r, "union select") || Hits(r, "<script>") || Hits(r, "../");
            && FirstClass(tags) == FirstClass(PathTags(r)).Or(if probe then Some("probe") else None)
            && ("sqli_probe" in tags || "xss_probe" in tags || "path_traversal_probe" in tags <==> probe)
            && ("credential_bruteforce" in tags <==> IsLoginPost(r))
            && ("admin_panel_enumeration" in tags <==> IsAdminPath(r.path))
            && ("sensitive_path_discovery" in tags <==> IsAdminPath(r.path))
            && TagsSound(tags)
  {
    hide WithTagIf, TagsSound, FirstClass, PathTags, Hits, RuleTags;
    PathTagsClass(r);
    RuleTagsSteps(r);
    FirstClassAfter(RuleTags(r, 0), Hits(r, "union select"), "sqli_probe");
    FirstClassAfter(RuleTags(r, 1), Hits(r, "<script>"), "xss_probe");
    FirstClassAfter(RuleTags(r, 2), Hits(r, "../"), "path_traversal_probe");
    assert forall t :: t in RuleTags(r, 3) <==> t in TagSet(RuleTags(r, 3));
    assert forall t :: t in RuleTags(r, 0) <==> t in TagSet(RuleTags(r, 0));
  }

  /** The three tool rules decide nothing. */
  lemma ToolTagsClass(r: Request)
    ensures var before, tags := RuleTags(r, 3), RuleTags(r, 6);
            && FirstClass(tags) == FirstClass(before) && TagsSound(tags)
            && forall t :: t != "internet_recon" ==> (t in tags <==> t in before)
  {
    hide WithTagIf, TagsSound, FirstClass, Hits, RuleTags;
    ProbeTagsClass(r);
    RuleTagsSteps(r);
    FirstClassAfter(RuleTags(r, 3), Hits(r, "wget"), "internet_recon");
    FirstClassAfter(RuleTags(r, 4), Hits(r, "curl"), "internet_recon");
    FirstClassAfter(RuleTags(r, 5), Hits(r, "cmd="), "internet_recon");
    assert forall t :: t in RuleTags(r, 3) <==> t in TagSet(RuleTags(r, 3));
    assert forall t :: t in RuleTags(r, 6) <==> t in TagSet(RuleTags(r, 6));
  }

  /** What the whole rule table contributes. */
  lemma RuleTagsClass(r: Request)
    ensures var tags := RuleTags(r, 8);
            var probe := Hits(r, "union select") || Hits(r, "<script>") || Hits(r, "../");
            var discovery := Hits(r, ".env") || Hits(r, "phpmyadmin");
            && FirstClass(tags) == FirstClass(PathTags(r)).Or(if probe then Some("probe") else if discovery then Some("recon") else None)
            && ("sqli_probe" in tags || "xss_probe" in tags || "path_traversal_probe" in tags <==> probe)
            && ("credential_bruteforce" in tags <==> IsLoginPost(r))
            && ("admin_panel_enumeration" in tags || "sensitive_path_discovery" in tags <==> IsAdminPath(r.path) || discovery)
            && TagsSound(tags)
  {
    hide WithTagIf, TagsSound, FirstClass, PathTags, Hits, RuleTags;
    ProbeTagsClass(r);
    ToolTagsClass(r);
    RuleTagsSteps(r);
    FirstClassAfter(RuleTags(r, 6), Hits(r, ".env"), "sensitive_path_discovery");
    FirstClassAfter(RuleTags(r, 7), Hits(r, "phpmyadmin"), "admin_panel_enumeration");
    assert forall t :: t in RuleTags(r, 6) <==> t in TagSet(RuleTags(r, 6));
    assert forall t :: t in RuleTags(r, 8) <==> t in TagSet(RuleTags(r, 8));
  }

  lemma RuleTagsSteps(r: Request)
    ensures RuleTags(r, 0) == PathTags(r)
    ensures RuleTags(r, 1) == WithTagIf(RuleTags(r, 0), Hits(r, "union select"), "sqli_probe")
    ensures RuleTags(r, 2) == WithTagIf(RuleTags(r, 1), Hits(r, "<script>"), "xss_probe")
    ensures RuleTags(r, 3) == WithTagIf(RuleTags(r, 2), Hits(r, "../"), "path_traversal_probe")
    ensures RuleTags(r, 4) == WithTagIf(RuleTags(r, 3), Hits(r, "wget"), "internet_recon")
    ensures RuleTags(r, 5) == WithTagIf(RuleTags(r, 4), Hits(r, "curl"), "internet_recon")
    ensures RuleTags(r, 6) == WithTagIf(RuleTags(r, 5), Hits(r, "cmd="), "internet_recon")
    ensures RuleTags(r, 7) == WithTagIf(RuleTags(r, 6), Hits(r, ".env"), "sensitive_path_discovery")
    ensures RuleTags(r, 8) == WithTagIf(RuleTags(r, 7), Hits(r, "phpmyadmin"), "admin_panel_enumeration")
  {
    hide WithTagIf, PathTags, Hits;
  }

  /** `credential_stuffing` is not in the decoy's vocabulary. */
  lemma NoStuffingTag(tags: seq<string>)
    requires TagsSound(tags)
    ensures "credential_stuffing" !in tags
  {
    assert "credential_stuffing" !in VOCABULARY;
  }

  lemma {:induction false} NoQuestion(s: string)
    requires forall i :: 0 <= i < |s| ==> s[i] != '?'
    ensures BeforeQuestion(s) == s
  {
    if s != "" {
      NoQuestion(s[1..]);
      assert s == [s[0]] + s[1..];
    }
  }

  lemma AdminPathPlain(path: string)
    requires IsAdminPath(path)
    ensures 0 < |path| < MAX_PATH_LENGTH && path != "/login"
    ensures forall i :: 0 <= i < |path| ==> !IsBlank(path[i]) && path[i] != '?'
  {
  }

  /** The exception of the next lemma is real: a script tag as the username of a post to an
      administrative page is discovery to the decoy and a probe to the control plane. */
  lemma ClassifiersDisagree(target: string, fields: seq<string>, password: string, us: seq<Style>, ps: seq<Style>)
    requires IsAdminPath(target) && forall i :: 0 <= i < |fields| ==> Unbroken(fields[i])
    requires NonZeroBytes(password) && |us| == |"<script>"| && |ps| == |password| < MAX_FIELD_LENGTH
    ensures var r := ParseRequest(PostText(target, fields, Encode("<script>", us), Encode(password, ps)));
            && r.Some?
            && DecoyClass(r.value.tags, r.value.suspicious) == "recon"
            && ClassifyEvent(TagSet(r.value.tags), r.value.suspicious) == "probe"
  {
    hide PostText, ParseRequest, FirstClass, PathTags, Hits, TagsSound, BeforeQuestion, Encode;
    var raw := PostText(target, fields, Encode("<script>", us), Encode(password, ps));
    AdminPathPlain(target);
    NoQuestion(target);
    BlankFreeUnbroken(target);
    CredentialRoundTrip(target, fields, "<script>", password, us, ps);
    PostedPath(target, fields, Encode("<script>", us), Encode(password, ps));
    var f := ParsedFields(raw);
    ScriptHits(f);
    RuleTagsClass(f);
    PathTagsClass(f);
    NoStuffingTag(RuleTags(f, |SUSPICIOUS_RULES|));
    assert forall t :: t in TagSet(ParseRequest(raw).value.tags) <==> t in ParseRequest(raw).value.tags;
  }

  lemma ScriptHits(r: Request)
    requires r.username == "<script>"
    ensures Hits(r, "<script>")
  {
    hide LowerChar;
    assert SameLetters("<script>", "<script>", 0);
  }

  /** The fields that a parsed request was analysed from. */
  lemma ParsedFields(raw: string) returns (f: Request)
    requires ParseRequest(raw).Some?
    ensures ParseRequest(raw).value == Analyzed(f)
    ensures f.verb == Analyzed(f).verb && f.path == Analyzed(f).path
    ensures f.username == Analyzed(f).username && f.password == Analyzed(f).password
  {
    hide Analyzed, FieldsOf, RequestLine;
    var end := Find(raw, CRLF).value;
    var (verb, path) := RequestLine(Clip(raw[..end], MAX_LINE_LENGTH)).value;
    f := FieldsOf(raw, verb, path);
    AnalysisKeepsFields(f);
  }

  /** On every parsed request the decoy's class is the control plane's, except exactly when an
      administrative path comes with a probe tag: the decoy's list puts the path first. */
  lemma ClassifiersAgreeExactly(raw: string)
    requires ParseRequest(raw).Some?
    ensures var r := ParseRequest(raw).value;
            (DecoyClass(r.tags, r.suspicious) == ClassifyEvent(TagSet(r.tags), r.suspicious)
             <==> !(IsAdminPath(r.path) && ("sqli_probe" in r.tags || "xss_probe" in r.tags || "path_traversal_probe" in r.tags)))
  {
    hide RuleTags, RuleSuspicion, FirstClass, PathTags, RequestLine, Hits, TagsSound, HeaderValue, ExtractFormField;
    var end := Find(raw, CRLF).value;
    var (verb, path) := RequestLine(Clip(raw[..end], MAX_LINE_LENGTH)).value;
    var f := FieldsOf(raw, verb, path);
    RuleTagsClass(f);
    PathTagsClass(f);
    var tags := RuleTags(f, |SUSPICIOUS_RULES|);
    NoStuffingTag(tags);
    assert forall t :: t in TagSet(tags) <==> t in tags;
  }
}
