/**
 The decoy's pages: templates rendered into a bounded buffer in one pass, and the
 framed HTTP response.  The fixed markup around the variable texts is a parameter.
 */
module ResponseBuilder {
  import opened Ascii
  import opened Options
  import opened CStrings
  import opened FormDecoding
  import opened RequestParser
  import opened JsonValues
  import opened HttpRequests
  import opened RequestReading

  const BODY_CAPACITY: nat := 12288
  const CONTENT_CAPACITY: nat := 4096
  const TEMPLATE_CAPACITY: nat := 8192
  const RESPONSE_CAPACITY: nat := 16384

  // ---------- Templates ----------

  datatype Slot = Title | Hostname | Banner | ServiceLabel | Notice {
    function Mark(): string {
      match this
      case Title => "{{TITLE}}"
      case Hostname => "{{HOSTNAME}}"
      case Banner => "{{BANNER}}"
      case ServiceLabel => "{{SERVICE_LABEL}}"
      case Notice => "{{NOTICE}}"
    }
  }

  /** What is inserted for each slot. */
  datatype Texts = Texts(title: string, hostname: string, banner: string, caption: string, notice: string) {
    function Get(slot: Slot): string {
      match slot
      case Title => title
      case Hostname => hostname
      case Banner => banner
      case ServiceLabel => caption
      case Notice => notice
    }
  }

  /** The slot a text begins with, tried in the order of the program. */
  function SlotAt(s: string): (slot: Option<Slot>)
    ensures slot.Some? ==> StartsWith(s, slot.value.Mark())
  {
    if StartsWith(s, Title.Mark()) then Some(Title)
    else if StartsWith(s, Hostname.Mark()) then Some(Hostname)
    else if StartsWith(s, Banner.Mark()) then Some(Banner)
    else if StartsWith(s, ServiceLabel.Mark()) then Some(ServiceLabel)
    else if StartsWith(s, Notice.Mark()) then Some(Notice)
    else None
  }

  lemma MarkNotEmpty(slot: Slot)
    ensures |slot.Mark()| > 0
  {
  }

  /** One pass over the template; inserted text is never looked at again. */
  function Substitute(s: string, texts: Texts): string
    decreases |s|
  {
    if s == "" then ""
    else
      match SlotAt(s)
      case Some(slot) =>
        MarkNotEmpty(slot);
        texts.Get(slot) + Substitute(s[|slot.Mark()|..], texts)
      case None => [s[0]] + Substitute(s[1..], texts)
  }

  /** A template as its author thinks of it. */
  datatype Part = Literal(text: string) | Insert(slot: Slot)

  function Written(parts: seq<Part>): string {
    if parts == [] then ""
    else (match parts[0] case Literal(t) => t case Insert(slot) => slot.Mark()) + Written(parts[1..])
  }

  function Filled(parts: seq<Part>, texts: Texts): string {
    if parts == [] then ""
    else (match parts[0] case Literal(t) => t case Insert(slot) => texts.Get(slot)) + Filled(parts[1..], texts)
  }

  /** No mark begins inside `t` when `rest` follows it. */
  ghost predicate NoMarkIn(t: string, rest: string) { forall i :: 0 <= i < |t| ==> SlotAt(t[i..] + rest) == None }

  /** The parts are how the program reads the template: a literal hides no mark, not even one
      that it starts and the next part ends. */
  ghost predicate LiteralsHideNoMark(parts: seq<Part>) {
    parts != [] ==>
      && (parts[0].Literal? ==> NoMarkIn(parts[0].text, Written(parts[1..])))
      && LiteralsHideNoMark(parts[1..])
  }

  lemma {:induction false} SubstituteLiteral(t: string, rest: string, texts: Texts)
    requires NoMarkIn(t, rest)
    ensures Substitute(t + rest, texts) == t + Substitute(rest, texts)
  {
    hide Substitute, NoMarkIn, SlotAt;
    if t == "" {
      assert t + rest == rest;
    } else {
      NoMarkInTail(t, rest);
      SubstituteLiteral(t[1..], rest, texts);
      assert t + rest == [t[0]] + (t[1..] + rest);
      PlainCharacter(t[0], t[1..] + rest, texts);
      assert t + Substitute(rest, texts) == [t[0]] + (t[1..] + Substitute(rest, texts));
    }
  }

  lemma NoMarkInTail(t: string, rest: string)
    requires NoMarkIn(t, rest) && t != ""
    ensures NoMarkIn(t[1..], rest) && SlotAt(t + rest) == None
  {
    hide SlotAt;
    assert t[0..] == t;
    assert forall i :: 0 <= i < |t| - 1 ==> t[1..][i..] == t[i + 1..];
  }

  lemma PlainCharacter(c: char, rest: string, texts: Texts)
    requires SlotAt([c] + rest) == None
    ensures Substitute([c] + rest, texts) == [c] + Substitute(rest, texts)
  {
    hide SlotAt, Slot.Mark, Texts.Get;
    assert ([c] + rest)[1..] == rest;
  }

  lemma SlotOfMark(slot: Slot, rest: string)
    ensures SlotAt(slot.Mark() + rest) == Some(slot)
  {
    var s := slot.Mark() + rest;
    assert s[..|slot.Mark()|] == slot.Mark();
    MarksTellApart(slot, rest);
  }

  /** Third letters and, for two of them, lengths tell the marks apart. */
  lemma MarksTellApart(slot: Slot, rest: string)
    ensures forall other: Slot :: other != slot ==> !StartsWith(slot.Mark() + rest, other.Mark())
  {
    var s := slot.Mark() + rest;
    forall other: Slot | other != slot
      ensures !StartsWith(s, other.Mark())
    {
      assert s[2] == slot.Mark()[2] && slot.Mark()[2] != other.Mark()[2];
      assert |other.Mark()| <= |s| ==> s[..|other.Mark()|][2] == s[2];
    }
  }

  /** Rendering means filling the slots, whatever the inserted texts contain, marks included:
      no inserted text is scanned a second time. */
  lemma {:induction false} SubstituteFills(parts: seq<Part>, texts: Texts)
    requires LiteralsHideNoMark(parts)
    ensures Substitute(Written(parts), texts) == Filled(parts, texts)
  {
    hide SlotAt, Slot.Mark, Texts.Get;
    if parts != [] {
      SubstituteFills(parts[1..], texts);
      var rest := Written(parts[1..]);
      match parts[0]
      case Literal(t) => SubstituteLiteral(t, rest, texts);
      case Insert(slot) =>
        SlotOfMark(slot, rest);
        MarkNotEmpty(slot);
        assert (slot.Mark() + rest)[|slot.Mark()|..] == rest;
    }
  }

  lemma MarkFilled(slot: Slot, rest: string, texts: Texts)
    ensures Substitute(slot.Mark() + rest, texts) == texts.Get(slot) + Substitute(rest, texts)
  {
    hide SlotAt, Slot.Mark, Texts.Get;
    SlotOfMark(slot, rest);
    MarkNotEmpty(slot);
    assert (slot.Mark() + rest)[|slot.Mark()|..] == rest;
  }

  /** Which text each mark stands for. */
  lemma MarksStandFor(rest: string, texts: Texts)
    ensures Substitute("{{TITLE}}" + rest, texts) == texts.title + Substitute(rest, texts)
    ensures Substitute("{{HOSTNAME}}" + rest, texts) == texts.hostname + Substitute(rest, texts)
    ensures Substitute("{{BANNER}}" + rest, texts) == texts.banner + Substitute(rest, texts)
    ensures Substitute("{{SERVICE_LABEL}}" + rest, texts) == texts.caption + Substitute(rest, texts)
    ensures Substitute("{{NOTICE}}" + rest, texts) == texts.notice + Substitute(rest, texts)
  {
    hide Substitute;
    MarkFilled(Title, rest, texts);
    MarkFilled(Hostname, rest, texts);
    MarkFilled(Banner, rest, texts);
    MarkFilled(ServiceLabel, rest, texts);
    MarkFilled(Notice, rest, texts);
  }

  /** Every template can be read into such parts. */
  lemma {:induction false} TemplateHasParts(template: string) returns (parts: seq<Part>)
    ensures Written(parts) == template && LiteralsHideNoMark(parts)
    decreases |template|
  {
    hide SlotAt, Slot.Mark;
    if template == "" {
      parts := [];
    } else {
      var found := SlotAt(template);
      var part, length := Literal([template[0]]), 1;
      if found.Some? {
        MarkNotEmpty(found.value);
        part, length := Insert(found.value), |found.value.Mark()|;
      }
      var rest := TemplateHasParts(template[length..]);
      parts := [part] + rest;
      assert parts[1..] == rest;
      assert template == template[..length] + template[length..];
      assert found == None ==> [template[0]][0..] + Written(rest) == template;
    }
  }

  /** So for every template there is one reading into literals and slots, and whatever the
      texts are, rendering fills exactly those slots. */
  lemma RenderingFillsSlots(template: string) returns (parts: seq<Part>)
    ensures Written(parts) == template && LiteralsHideNoMark(parts)
    ensures forall texts :: Substitute(template, texts) == Filled(parts, texts)
  {
    parts := TemplateHasParts(template);
    forall texts
      ensures Substitute(template, texts) == Filled(parts, texts)
    {
      SubstituteFills(parts, texts);
    }
  }

  /** Every brace of the text is followed, inside the text, by something other than a brace,
      as in a style sheet. */
  ghost predicate SingleBraces(t: string) { forall i :: 0 <= i < |t| && t[i] == '{' ==> i + 1 < |t| && t[i + 1] != '{' }

  /** Such a literal hides no mark, whatever follows it. */
  lemma SingleBracesHideNoMark(t: string, rest: string)
    requires SingleBraces(t)
    ensures NoMarkIn(t, rest)
  {
    hide SlotAt;
    forall i | 0 <= i < |t|
      ensures SlotAt(t[i..] + rest) == None
    {
      var s := t[i..] + rest;
      assert s[0] == t[i] && (i + 1 < |t| ==> s[1] == t[i + 1]);
      NoSlotWithoutTwoBraces(s);
    }
  }

  lemma NoSlotWithoutTwoBraces(s: string)
    requires |s| > 0 && !(|s| > 1 && s[0] == '{' && s[1] == '{')
    ensures SlotAt(s) == None
  {
    if SlotAt(s).Some? {
      MarkStarts(SlotAt(s).value, s);
    }
  }

  lemma MarkStarts(slot: Slot, s: string)
    requires StartsWith(s, slot.Mark())
    ensures |s| > 1 && s[0] == '{' && s[1] == '{'
  {
    assert |slot.Mark()| > 1 && slot.Mark()[0] == '{' && slot.Mark()[1] == '{';
    assert s[..|slot.Mark()|][0] == s[0] && s[..|slot.Mark()|][1] == s[1];
  }

  /** Rendering into a buffer refines the one-pass substitution: the buffer holds its beginning,
      as much as fits, even when an insertion pushes the length past the capacity. */
  method RenderWithPlaceholders(template: string, texts: Texts, buffer: array<char>)
    requires buffer.Length > 0
    modifies buffer
    ensures HoldsString(buffer[..], Clip(Substitute(template, texts), buffer.Length))
  {
    hide SlotAt, Slot.Mark, Texts.Get, Substitute, Appended, HoldsString, Clip;
    var cursor := 0;
    var length: nat := 0;
    ghost var written := "";
    ghost var whole := Substitute(template, texts);
    buffer[0] := NUL;
    NothingAppended(buffer[..]);
    assert template[0..] == template;
    while cursor < |template| && length + 1 < buffer.Length
      invariant 0 <= cursor <= |template|
      invariant Appended(buffer[..], length, written)
      invariant whole == written + Substitute(template[cursor..], texts)
      decreases |template| - cursor
    {
      cursor, length, written := RenderNext(template, cursor, texts, buffer, length, written);
    }
    assert template[|template|..] == "";
    SubstituteEnds(texts);
    FullOrDone(buffer[..], length, written, Substitute(template[cursor..], texts));
  }

  /** One turn of the rendering loop: a mark or a plain character. */
  method RenderNext(template: string, cursor: nat, texts: Texts, buffer: array<char>, length: nat, ghost written: string)
    returns (cursor': nat, length': nat, ghost written': string)
    requires cursor < |template| && length + 1 < buffer.Length && Appended(buffer[..], length, written)
    modifies buffer
    ensures cursor < cursor' <= |template| && Appended(buffer[..], length', written')
    ensures written + Substitute(template[cursor..], texts) == written' + Substitute(template[cursor'..], texts)
  {
    hide SlotAt, Slot.Mark, Texts.Get, Substitute, Appended;
    SubstituteStep(template, cursor, texts);
    match SlotAt(template[cursor..])
    case Some(slot) =>
      written' := written + texts.Get(slot);
      cursor' := cursor + |slot.Mark()|;
      length' := AppendText(buffer, length, texts.Get(slot), written);
    case None =>
      written' := written + [template[cursor]];
      cursor' := cursor + 1;
      length' := PutChar(buffer, length, template[cursor], written);
  }

  /** When the loop stops, either nothing is left of the template or nothing more fits. */
  lemma FullOrDone(buffer: seq<char>, length: nat, written: string, rest: string)
    requires Appended(buffer, length, written) && (length + 1 < |buffer| ==> rest == "")
    ensures HoldsString(buffer, Clip(written + rest, |buffer|))
  {
    assert Clip(written + rest, |buffer|) == Clip(written, |buffer|) by {
      if rest == "" {
        assert written + rest == written;
      }
    }
  }

  /** One character and the terminator behind it. */
  method PutChar(buffer: array<char>, length: nat, c: char, ghost written: string) returns (length': nat)
    requires length + 1 < buffer.Length && Appended(buffer[..], length, written)
    modifies buffer
    ensures Appended(buffer[..], length', written + [c])
  {
    buffer[length] := c;
    length' := length + 1;
    buffer[length'] := NUL;
    assert buffer[..length] == written;
    assert buffer[..length'] == written + [c];
  }

  lemma SubstituteStep(s: string, i: nat, texts: Texts)
    requires i < |s|
    ensures SlotAt(s[i..]) == None ==> Substitute(s[i..], texts) == [s[i]] + Substitute(s[i + 1..], texts)
    ensures SlotAt(s[i..]).Some? ==>
              var slot := SlotAt(s[i..]).value;
              0 < |slot.Mark()| <= |s| - i && Substitute(s[i..], texts) == texts.Get(slot) + Substitute(s[i + |slot.Mark()|..], texts)
  {
    hide SlotAt, Slot.Mark, Texts.Get;
    assert s[i..][1..] == s[i + 1..];
    if SlotAt(s[i..]).Some? {
      var slot := SlotAt(s[i..]).value;
      MarkNotEmpty(slot);
      assert s[i..][|slot.Mark()|..] == s[i + |slot.Mark()|..];
    }
  }

  lemma SubstituteEnds(texts: Texts)
    ensures Substitute("", texts) == ""
  {
  }

  // ---------- Pages ----------

  datatype Profile = Profile(name: string, banner: string, adminMessage: string, configMessage: string, statusMessage: string)

  datatype Site = Site(title: string, hostname: string, caption: string, profile: Profile)

  /** The fixed pieces of markup between the variable texts. */
  datatype Markup = Markup(
    shell: seq<string>,
    overview: seq<string>,
    fallbackLogin: string,
    failedNotice: string,
    rejected: string,
    missing: string)

  ghost predicate MarkupShape(m: Markup) { |m.shell| == 6 && |m.overview| == 4 }

  function ShellPage(m: Markup, site: Site, title: string, heading: string, html: string): string
    requires |m.shell| == 6
  {
    Clip(m.shell[0] + title + m.shell[1] + site.profile.name + m.shell[2] + site.hostname + m.shell[3]
         + heading + m.shell[4] + html + m.shell[5], BODY_CAPACITY)
  }

  /** The login page from the template file when it could be read, else from the fallback. */
  function LoginPage(m: Markup, site: Site, file: Option<string>, notice: string): string {
    var template := match file
      case Some(text) => UpToNul(Clip(text, TEMPLATE_CAPACITY))
      case None => Clip(m.fallbackLogin, TEMPLATE_CAPACITY);
    Clip(Substitute(template, Texts(site.title, site.hostname, site.profile.banner, site.caption, notice)), BODY_CAPACITY)
  }

  function Overview(m: Markup, site: Site): string
    requires |m.overview| == 4
  {
    Clip(m.overview[0] + site.title + m.overview[1] + site.hostname + m.overview[2] + site.profile.statusMessage + m.overview[3],
         CONTENT_CAPACITY)
  }

  /** Status code and page of a request. */
  function Page(m: Markup, site: Site, file: Option<string>, verb: string, path: string): (r: (int, string))
    requires |m.shell| == 6 && |m.overview| == 4
    ensures r.0 in {200, 401, 403, 404, 405} && |r.1| < BODY_CAPACITY
    ensures r.0 == 405 <==> verb != "GET" && verb != "POST"
    ensures r.0 == 401 <==> verb == "POST" && path == "/login"
    ensures r.0 == 403 <==> verb == "GET" && path in {"/admin", "/config"}
    ensures r.0 == 200 <==> verb == "GET" && path in {"/", "/login", "/status"}
  {
    if path == "/" && verb == "GET" then (200, ShellPage(m, site, site.title, site.profile.banner, Overview(m, site)))
    else if path == "/login" && verb == "GET" then (200, LoginPage(m, site, file, ""))
    else if path == "/login" && verb == "POST" then (401, LoginPage(m, site, file, m.failedNotice))
    else if path == "/admin" && verb == "GET" then
      (403, ShellPage(m, site, "Administrative Console", "Administrative Console", site.profile.adminMessage))
    else if path == "/config" && verb == "GET" then
      (403, ShellPage(m, site, "Configuration Export", "Configuration Export", site.profile.configMessage))
    else if path == "/status" && verb == "GET" then
      (200, ShellPage(m, site, "System Status", "System Status", site.profile.statusMessage))
    else if verb != "GET" && verb != "POST" then
      (405, ShellPage(m, site, "Method Not Allowed", "Request Rejected", m.rejected))
    else (404, ShellPage(m, site, "Not Found", "Resource Not Found", m.missing))
  }

  // ---------- What a page shows ----------

  ghost predicate Shows(page: string, text: string) { exists i :: 0 <= i <= |page| && At(page, text, i) }

  lemma ShowsEnd(a: string, text: string)
    ensures Shows(a + text, text)
  {
    assert (a + text)[|a|..|a| + |text|] == text;
    assert At(a + text, text, |a|);
  }

  lemma ShowsMore(a: string, b: string, text: string)
    requires Shows(a, text)
    ensures Shows(a + b, text)
  {
    var i :| 0 <= i <= |a| && At(a, text, i);
    assert (a + b)[i..i + |text|] == a[i..i + |text|];
    assert At(a + b, text, i);
  }

  /** Text appended piece by piece, every second piece shown. */
  lemma ShowsNext(a: string, piece: string, text: string)
    ensures Shows(a + piece + text, text)
    ensures forall t :: Shows(a, t) ==> Shows(a + piece + text, t)
  {
    hide Shows;
    ShowsEnd(a + piece, text);
    forall t | Shows(a, t)
      ensures Shows(a + piece + text, t)
    {
      ShowsMore(a, piece, t);
      ShowsMore(a + piece, text, t);
    }
  }

  lemma ShowsFive(p: seq<string>, t1: string, t2: string, t3: string, t4: string, t5: string)
    requires |p| == 6
    ensures var page := p[0] + t1 + p[1] + t2 + p[2] + t3 + p[3] + t4 + p[4] + t5 + p[5];
            Shows(page, t1) && Shows(page, t2) && Shows(page, t3) && Shows(page, t4) && Shows(page, t5)
  {
    hide Shows;
    var s1 := p[0] + t1;
    ShowsEnd(p[0], t1);
    var s2 := s1 + p[1] + t2;
    ShowsNext(s1, p[1], t2);
    var s3 := s2 + p[2] + t3;
    ShowsNext(s2, p[2], t3);
    var s4 := s3 + p[3] + t4;
    ShowsNext(s3, p[3], t4);
    var s5 := s4 + p[4] + t5;
    ShowsNext(s4, p[4], t5);
    ShowsMore(s5, p[5], t1);
    ShowsMore(s5, p[5], t2);
    ShowsMore(s5, p[5], t3);
    ShowsMore(s5, p[5], t4);
    ShowsMore(s5, p[5], t5);
  }

  /** A shell page that is not cut shows all five texts. */
  lemma ShellShows(m: Markup, site: Site, title: string, heading: string, html: string)
    requires |m.shell| == 6 && |ShellPage(m, site, title, heading, html)| < BODY_CAPACITY - 1
    ensures var page := ShellPage(m, site, title, heading, html);
            Shows(page, title) && Shows(page, site.profile.name) && Shows(page, site.hostname) && Shows(page, heading) && Shows(page, html)
  {
    hide Shows;
    ShowsFive(m.shell, title, site.profile.name, site.hostname, heading, html);
  }

  /** Every page but the login page that is not cut shows what belongs to its path. */
  lemma PageShows(m: Markup, site: Site, file: Option<string>, verb: string, path: string)
    requires MarkupShape(m) && path != "/login" && |Page(m, site, file, verb, path).1| < BODY_CAPACITY - 1
    ensures var page := Page(m, site, file, verb, path).1;
            && Shows(page, site.hostname) && Shows(page, site.profile.name)
            && (verb == "GET" && path == "/" ==> Shows(page, site.title) && Shows(page, site.profile.banner) && Shows(page, Overview(m, site)))
            && (verb == "GET" && path == "/admin" ==> Shows(page, "Administrative Console") && Shows(page, site.profile.adminMessage))
            && (verb == "GET" && path == "/config" ==> Shows(page, "Configuration Export") && Shows(page, site.profile.configMessage))
            && (verb == "GET" && path == "/status" ==> Shows(page, "System Status") && Shows(page, site.profile.statusMessage))
            && (verb != "GET" && verb != "POST" ==> Shows(page, "Request Rejected") && Shows(page, m.rejected))
            && ((verb == "GET" && path !in {"/", "/admin", "/config", "/status"}) || verb == "POST" ==>
                  Shows(page, "Resource Not Found") && Shows(page, m.missing))
  {
    hide ShellPage, LoginPage, Overview, Shows;
    if path == "/" && verb == "GET" {
      ShellShows(m, site, site.title, site.profile.banner, Overview(m, site));
    } else if path == "/admin" && verb == "GET" {
      ShellShows(m, site, "Administrative Console", "Administrative Console", site.profile.adminMessage);
    } else if path == "/config" && verb == "GET" {
      ShellShows(m, site, "Configuration Export", "Configuration Export", site.profile.configMessage);
    } else if path == "/status" && verb == "GET" {
      ShellShows(m, site, "System Status", "System Status", site.profile.statusMessage);
    } else if verb != "GET" && verb != "POST" {
      ShellShows(m, site, "Method Not Allowed", "Request Rejected", m.rejected);
    } else {
      ShellShows(m, site, "Not Found", "Resource Not Found", m.missing);
    }
  }

  /** The overview that is not cut shows title, host and status. */
  lemma OverviewShows(m: Markup, site: Site)
    requires MarkupShape(m) && |Overview(m, site)| < CONTENT_CAPACITY - 1
    ensures var o := Overview(m, site); Shows(o, site.title) && Shows(o, site.hostname) && Shows(o, site.profile.statusMessage)
  {
    hide Shows;
    var s1 := m.overview[0] + site.title;
    ShowsEnd(m.overview[0], site.title);
    var s2 := s1 + m.overview[1] + site.hostname;
    ShowsNext(s1, m.overview[1], site.hostname);
    var s3 := s2 + m.overview[2] + site.profile.statusMessage;
    ShowsNext(s2, m.overview[2], site.profile.statusMessage);
    ShowsMore(s3, m.overview[3], site.title);
    ShowsMore(s3, m.overview[3], site.hostname);
    ShowsMore(s3, m.overview[3], site.profile.statusMessage);
  }

  /** The login page fills its template, with the failure notice after a post and without it
      otherwise; a template that cannot be read is replaced by the fixed one. */
  lemma LoginFills(m: Markup, site: Site, file: Option<string>, verb: string) returns (parts: seq<Part>)
    requires MarkupShape(m) && verb in {"GET", "POST"}
    ensures Written(parts) == if file.Some? then UpToNul(Clip(file.value, 8192)) else Clip(m.fallbackLogin, 8192)
    ensures LiteralsHideNoMark(parts)
    ensures Page(m, site, file, verb, "/login").1
         == Clip(Filled(parts, Texts(site.title, site.hostname, site.profile.banner, site.caption,
                                     if verb == "POST" then m.failedNotice else "")), 12288)
  {
    hide Substitute, ShellPage, UpToNul, Clip, Texts.Get;
    parts := RenderingFillsSlots(if file.Some? then UpToNul(Clip(file.value, 8192)) else Clip(m.fallbackLogin, 8192));
  }

  // ---------- Framing ----------

  function StatusText(code: int): string {
    match code
    case 401 => "Unauthorized"
    case 403 => "Forbidden"
    case 404 => "Not Found"
    case 405 => "Method Not Allowed"
    case _ => "OK"
  }

  function StatusLine(code: int): string { "HTTP/1.1 " + Decimal(code) + " " + StatusText(code) }

  const TYPE_LINE: string := "Content-Type: text/html; charset=utf-8"
  const CLOSE_LINE: string := "Connection: close"

  function HeaderLines(code: int, n: nat): seq<string> { [StatusLine(code), TYPE_LINE, LengthLine(n), CLOSE_LINE] }

  function ResponseText(code: int, body: string): string { Lines(HeaderLines(code, |body|)) + CRLF + body }

  /** The response printed into a buffer, and the length that is sent. */
  method BuildHttpResponse(m: Markup, site: Site, file: Option<string>, verb: string, path: string, response: array<char>)
    returns (length: nat, code: int)
    requires MarkupShape(m)
    modifies response
    ensures code == Page(m, site, file, verb, path).0
    ensures response.Length == 0 ==> length == 0
    ensures response.Length > 0 ==>
              var text := ResponseText(code, Page(m, site, file, verb, path).1);
              HoldsString(response[..], Clip(text, response.Length)) && length == |Clip(text, response.Length)|
  {
    hide Page, ResponseText;
    var page := Page(m, site, file, verb, path);
    code := page.0;
    var text := ResponseText(code, page.1);
    if response.Length == 0 {
      return 0, code;
    }
    response[0] := NUL;
    var written := AppendText(response, 0, text, "");
    assert "" + text == text;
    length := if written >= response.Length then response.Length - 1 else written;
  }

  lemma DigitsShort(n: nat)
    requires n < 100_000
    ensures |Digits(n)| <= 5
  {
    if n >= 10 {
      assert |Digits(n / 10)| <= 4 by {
        if n / 10 >= 10 {
          assert n / 100 < 1000;
          assert |Digits(n / 100)| <= 3 by {
            if n / 100 >= 10 {
              assert n / 1000 < 100;
              assert |Digits(n / 1000)| <= 2;
            }
          }
        }
      }
    }
  }

  lemma StatusTextBreakFree(code: int)
    ensures BreakFree(StatusText(code)) && |StatusText(code)| <= 18
  {
  }

  lemma LinesUnbroken(code: nat, n: nat)
    ensures Unbroken(StatusLine(code)) && Unbroken(TYPE_LINE) && Unbroken(LengthLine(n)) && Unbroken(CLOSE_LINE)
  {
    hide Decimal, StatusText;
    DecimalBreakFree(code);
    DecimalBreakFree(n);
    StatusTextBreakFree(code);
    assert BreakFree("HTTP/1.1 ") && BreakFree(" ") && BreakFree("Content-Length: ");
    FixedLinesUnbroken();
  }

  lemma FixedLinesUnbroken()
    ensures Unbroken(TYPE_LINE) && Unbroken(CLOSE_LINE)
  {
  }

  /** The header ends where the body begins, and its own content length is the body's size. */
  lemma ResponseSplits(code: int, body: string)
    requires code in {200, 401, 403, 404, 405} && |body| < SIZE_MODULUS
    ensures var text := ResponseText(code, body);
            && Find(text, BLANK_LINE).Some?
            && HeaderLength(text) + |body| == |text| && text[HeaderLength(text)..] == body
            && ContentLength(text) == |body|
  {
    hide Find, Lines, Unbroken, ContentLength, StatusLine, LengthLine;
    var before := [StatusLine(code), TYPE_LINE];
    assert HeaderLines(code, |body|) == before + [LengthLine(|body|)] + [CLOSE_LINE];
    LinesUnbroken(code, |body|);
    NoLengthBefore(code);
    FramedText(before, [CLOSE_LINE], body);
  }

  lemma NoLengthBefore(code: nat)
    ensures !SameLetters(StatusLine(code), LENGTH_FIELD, 0) && !SameLetters(TYPE_LINE, LENGTH_FIELD, 0)
  {
    hide Decimal, StatusText, SameLetters;
    assert StatusLine(code)[0] == 'H' && TYPE_LINE[8] == 'T';
    NotLengthField(StatusLine(code), 0);
    NotLengthField(TYPE_LINE, 8);
  }

  /** The first line names the status. */
  lemma StatusLines()
    ensures StatusLine(200) == "HTTP/1.1 200 OK" && StatusLine(401) == "HTTP/1.1 401 Unauthorized"
    ensures StatusLine(403) == "HTTP/1.1 403 Forbidden" && StatusLine(404) == "HTTP/1.1 404 Not Found"
    ensures StatusLine(405) == "HTTP/1.1 405 Method Not Allowed"
  {
    hide Decimal, StatusLine;
    GoodAndGuarded();
    BadAndMissing();
  }

  lemma GoodAndGuarded()
    ensures StatusLine(200) == "HTTP/1.1 200 OK" && StatusLine(401) == "HTTP/1.1 401 Unauthorized"
    ensures StatusLine(403) == "HTTP/1.1 403 Forbidden"
  {
    hide Decimal;
    StatusDigits();
  }

  lemma BadAndMissing()
    ensures StatusLine(404) == "HTTP/1.1 404 Not Found" && StatusLine(405) == "HTTP/1.1 405 Method Not Allowed"
  {
    hide Decimal;
    StatusDigits();
  }

  lemma StatusDigits()
    ensures Decimal(200) == "200" && Decimal(401) == "401" && Decimal(403) == "403" && Decimal(404) == "404" && Decimal(405) == "405"
  {
    hide Decimal;
    ThreeDigits(2, 0, 0);
    ThreeDigits(4, 0, 1);
    ThreeDigits(4, 0, 3);
    ThreeDigits(4, 0, 4);
    ThreeDigits(4, 0, 5);
  }

  lemma ThreeDigits(a: nat, b: nat, c: nat)
    requires 0 < a < 10 && b < 10 && c < 10
    ensures Decimal(100 * a + 10 * b + c) == [Digit(a), Digit(b), Digit(c)]
  {
    var n := 100 * a + 10 * b + c;
    assert n / 10 == 10 * a + b && n % 10 == c && n / 10 / 10 == a && n / 10 % 10 == b;
    assert Digits(a) == [Digit(a)];
    assert Digits(n / 10) == [Digit(a)] + [Digit(b)];
  }

  lemma TypeField(code: int, body: string)
    requires code in {200, 401, 403, 404, 405}
    ensures HeaderValue(ResponseText(code, body), "Content-Type") == "text/html; charset=utf-8"
  {
    hide HeaderValue, Lines, Unbroken, StatusLine, LengthLine, Carries;
    LinesUnbroken(code, |body|);
    LinesCarryOthers(code, |body|);
    TypeTexts();
    var before, after := [StatusLine(code)], [LengthLine(|body|), CLOSE_LINE];
    assert HeaderLines(code, |body|) == before + [TYPE_LINE] + after;
    FieldInText(before, "Content-Type", "text/html; charset=utf-8", after, body);
  }

  lemma ConnectionField(code: int, body: string)
    requires code in {200, 401, 403, 404, 405}
    ensures HeaderValue(ResponseText(code, body), "Connection") == "close"
  {
    hide HeaderValue, Lines, Unbroken, StatusLine, LengthLine, Carries;
    LinesUnbroken(code, |body|);
    LinesCarryOthers(code, |body|);
    CloseTexts();
    var before := [StatusLine(code), TYPE_LINE, LengthLine(|body|)];
    assert HeaderLines(code, |body|) == before + [CLOSE_LINE] + [];
    FieldInText(before, "Connection", "close", [], body);
  }

  lemma FieldInText(before: seq<string>, name: string, value: string, after: seq<string>, body: string)
    requires forall i :: 0 <= i < |before| ==> Unbroken(before[i]) && !Carries(before[i], name)
    requires Unbroken(name) && Unbroken(value) && value[0] != ' '
    ensures HeaderValue(Lines(before + [name + ": " + value] + after) + CRLF + body, name) == value
  {
    hide HeaderValue, Lines, Unbroken, Carries;
    var rest := Lines(after) + CRLF + body;
    FramedLines(before, name + ": " + value, after);
    assert Lines(before + [name + ": " + value] + after) + CRLF + body == Lines(before) + (name + ": " + value) + CRLF + rest;
    SpellsItself(name);
    HeaderRoundTrip(before, name, name, value, rest);
  }

  /** Media type and connection are readable header fields of every response. */
  lemma ResponseFields(code: int, body: string)
    requires code in {200, 401, 403, 404, 405}
    ensures HeaderValue(ResponseText(code, body), "Content-Type") == "text/html; charset=utf-8"
    ensures HeaderValue(ResponseText(code, body), "Connection") == "close"
  {
    hide HeaderValue, ResponseText;
    TypeField(code, body);
    ConnectionField(code, body);
  }

  lemma TypeTexts()
    ensures "Content-Type" + ": " + "text/html; charset=utf-8" == TYPE_LINE
    ensures Unbroken("Content-Type") && Unbroken("text/html; charset=utf-8")
  {
  }

  lemma CloseTexts()
    ensures "Connection" + ": " + "close" == CLOSE_LINE
    ensures Unbroken("Connection") && Unbroken("close")
  {
  }

  lemma LinesCarryOthers(code: nat, n: nat)
    ensures !Carries(StatusLine(code), "Content-Type") && !Carries(StatusLine(code), "Connection")
    ensures !Carries(TYPE_LINE, "Connection") && !Carries(LengthLine(n), "Connection")
  {
    hide Decimal, StatusText;
    assert StatusLine(code)[0] == 'H';
    OtherFirstLetter(StatusLine(code), "Content-Type");
    OtherFirstLetter(StatusLine(code), "Connection");
    assert TYPE_LINE[3] == 't' && LengthLine(n)[3] == 't' && "Connection"[3] == 'n';
    OtherLetter(TYPE_LINE, "Connection", 3);
    OtherLetter(LengthLine(n), "Connection", 3);
  }

  lemma OtherLetter(line: string, name: string, j: nat)
    requires j < |line| && j < |name| && LowerChar(line[j]) != LowerChar(name[j])
    ensures !Carries(line, name)
  {
    var c := line[0 + j];
    assert LowerChar(c) != LowerChar(name[j]);
  }

  lemma HeaderShort(code: int, n: nat)
    requires code in {200, 401, 403, 404, 405} && n < BODY_CAPACITY
    ensures |Lines(HeaderLines(code, n))| <= 160
  {
    hide Digits;
    DigitsShort(n);
    DigitsShort(code);
    var lines := HeaderLines(code, n);
    LinesSplit(lines);
    LinesSplit(lines[1..]);
    LinesSplit(lines[2..]);
    LinesSplit(lines[3..]);
    assert lines[3..][1..] == [] && lines[1..][1..] == lines[2..] && lines[2..][1..] == lines[3..];
    assert |TYPE_LINE| == 38 && |CLOSE_LINE| == 17 && |"Content-Length: "| == 16 && |"HTTP/1.1 "| == 9;
    StatusTextBreakFree(code);
  }

  /** Every response fits its 16384-byte buffer, is cut nowhere, and frames its body: header
      and advertised length account for every byte sent. */
  lemma ResponseIsWhole(m: Markup, site: Site, file: Option<string>, verb: string, path: string)
    requires MarkupShape(m)
    ensures var (code, body) := Page(m, site, file, verb, path);
            var text := ResponseText(code, body);
            && Clip(text, RESPONSE_CAPACITY) == text
            && Find(text, BLANK_LINE).Some? && text[HeaderLength(text)..] == body
            && |text| == HeaderLength(text) + ContentLength(text) && ContentLength(text) == |body|
  {
    hide Page, Find, Lines, ContentLength, ResponseText;
    var (code, body) := Page(m, site, file, verb, path);
    PageBounds(m, site, file, verb, path);
    ResponseSplits(code, body);
    HeaderShort(code, |body|);
    assert |ResponseText(code, body)| == |Lines(HeaderLines(code, |body|))| + 2 + |body| by { ResponseSize(code, body); }
  }

  lemma PageBounds(m: Markup, site: Site, file: Option<string>, verb: string, path: string)
    requires MarkupShape(m)
    ensures Page(m, site, file, verb, path).0 in {200, 401, 403, 404, 405}
    ensures |Page(m, site, file, verb, path).1| < BODY_CAPACITY
  {
    hide ShellPage, LoginPage;
  }

  lemma ResponseSize(code: int, body: string)
    ensures |ResponseText(code, body)| == |Lines(HeaderLines(code, |body|))| + 2 + |body|
  {
    hide Lines;
  }
}
