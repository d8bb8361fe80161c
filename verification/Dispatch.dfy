/**
 What the collector reads of what the decoy sends: the heartbeat by its keys, and the
 HTTP request around either payload.
 */
module Dispatch {
  import opened Ascii
  import opened Options
  import opened CStrings
  import opened Json
  import opened JsonValues
  import opened RequestParser
  import opened HttpRequests
  import opened RequestReading
  import opened EventPayload

  // ---------- The heartbeat ----------

  function HeartbeatFirst(c: Config, timestamp: string, uptime: int, backlog: int): seq<Member> {
    [Member("ts", Value.Text(timestamp)),
     Member("decoy_id", Value.Text(c.decoyId)),
     Member("edge_node_id", Value.Text(c.edgeNodeId)),
     Member("decoy_version", Value.Text(c.decoyVersion)),
     Member("public_endpoint", Value.Text(c.publicEndpoint))]
  }

  function HeartbeatSecond(c: Config, timestamp: string, uptime: int, backlog: int): seq<Member> {
    [Member("profile", Value.Text(c.profile)),
     Member("uptime_seconds", Number(uptime)),
     Member("listen_port", Number(c.listenPort)),
     Member("site", Value.Text(c.site)),
     Member("environment", Value.Text(c.environment))]
  }

  function HeartbeatThird(c: Config, timestamp: string, uptime: int, backlog: int): seq<Member> {
    [Member("coverage_role", Value.Text(c.coverageRole)),
     Member("runtime_state", Value.Text("running")),
     Member("relay_queue_backlog", Number(backlog)),
     Member("relay_health", Value.Text("healthy"))]
  }

  function HeartbeatMembers(c: Config, timestamp: string, uptime: int, backlog: int): seq<Member> {
    HeartbeatFirst(c, timestamp, uptime, backlog) + HeartbeatSecond(c, timestamp, uptime, backlog)
    + HeartbeatThird(c, timestamp, uptime, backlog)
  }

  /** Every configured text is free of control characters that the reader rejects. */
  ghost predicate ConfigPrintable(c: Config) {
    && Printable(c.decoyId) && Printable(c.edgeNodeId) && Printable(c.decoyVersion) && Printable(c.publicEndpoint)
    && Printable(c.profile) && Printable(c.site) && Printable(c.environment) && Printable(c.coverageRole)
  }

  lemma FirstKeysPlain()
    ensures Plain("ts") && Plain("decoy_id") && Plain("edge_node_id") && Plain("decoy_version") && Plain("public_endpoint")
  {
  }

  lemma SecondKeysPlain()
    ensures Plain("profile") && Plain("uptime_seconds") && Plain("listen_port") && Plain("site") && Plain("environment")
  {
  }

  lemma ThirdKeysPlain()
    ensures Plain("coverage_role") && Plain("runtime_state") && Plain("relay_queue_backlog") && Plain("relay_health")
  {
  }

  lemma FirstRenders(c: Config, timestamp: string, uptime: int, backlog: int)
    requires FitsConfig(c) && Plain(timestamp)
    ensures var f := HeartbeatFields(c, timestamp, uptime, backlog);
            |f| == 14 && AllRender(f[..5], HeartbeatFirst(c, timestamp, uptime, backlog))
  {
    hide EscapedText, Renders, Decimal, Print, Plain;
    var f, m := HeartbeatFields(c, timestamp, uptime, backlog), HeartbeatFirst(c, timestamp, uptime, backlog);
    FirstKeysPlain();
    PlainRenders("ts", timestamp);
    EscapedRenders("decoy_id", c.decoyId, MAX_HOSTNAME_LENGTH);
    EscapedRenders("edge_node_id", c.edgeNodeId, MAX_HOSTNAME_LENGTH);
    EscapedRenders("decoy_version", c.decoyVersion, MAX_PROFILE_LENGTH);
    EscapedRenders("public_endpoint", c.publicEndpoint, MAX_ENDPOINT_LENGTH);
    assert |f[..5]| == 5;
  }

  lemma FirstReadable(c: Config, timestamp: string, uptime: int, backlog: int)
    requires Plain(timestamp)
    ensures ReadableMembers(HeartbeatFirst(c, timestamp, uptime, backlog)) <==> Printable(c.decoyId) && Printable(c.edgeNodeId) && Printable(c.decoyVersion) && Printable(c.publicEndpoint)
  {
    hide ReadableMember, ReadableMembers, Printable, Plain;
    var m := HeartbeatFirst(c, timestamp, uptime, backlog);
    FirstKeysPlain();
    PlainTextReadable("ts", timestamp);
    TextReadable("decoy_id", c.decoyId);
    TextReadable("edge_node_id", c.edgeNodeId);
    TextReadable("decoy_version", c.decoyVersion);
    TextReadable("public_endpoint", c.publicEndpoint);
    FiveReadable(m[0], m[1], m[2], m[3], m[4]);
  }

  lemma SecondRenders(c: Config, timestamp: string, uptime: int, backlog: int)
    requires FitsConfig(c) && Plain(timestamp)
    ensures var f := HeartbeatFields(c, timestamp, uptime, backlog);
            |f| == 14 && AllRender(f[5..10], HeartbeatSecond(c, timestamp, uptime, backlog))
  {
    hide EscapedText, Renders, Decimal, Print, Plain;
    var f, m := HeartbeatFields(c, timestamp, uptime, backlog), HeartbeatSecond(c, timestamp, uptime, backlog);
    SecondKeysPlain();
    EscapedRenders("profile", c.profile, MAX_PROFILE_LENGTH);
    PrintNumber(uptime);
    RawRenders("uptime_seconds", Decimal(uptime), Number(uptime));
    PrintNumber(c.listenPort);
    RawRenders("listen_port", Decimal(c.listenPort), Number(c.listenPort));
    EscapedRenders("site", c.site, MAX_HOSTNAME_LENGTH);
    EscapedRenders("environment", c.environment, MAX_ENVIRONMENT_LENGTH);
    assert |f[5..10]| == 5;
  }

  lemma SecondReadable(c: Config, timestamp: string, uptime: int, backlog: int)
    requires Plain(timestamp)
    ensures ReadableMembers(HeartbeatSecond(c, timestamp, uptime, backlog)) <==> Printable(c.profile) && Printable(c.site) && Printable(c.environment)
  {
    hide ReadableMember, ReadableMembers, Printable, Plain;
    var m := HeartbeatSecond(c, timestamp, uptime, backlog);
    SecondKeysPlain();
    TextReadable("profile", c.profile);
    PlainKeyReadable("uptime_seconds", Number(uptime));
    PlainKeyReadable("listen_port", Number(c.listenPort));
    TextReadable("site", c.site);
    TextReadable("environment", c.environment);
    FiveReadable(m[0], m[1], m[2], m[3], m[4]);
  }

  lemma ThirdRenders(c: Config, timestamp: string, uptime: int, backlog: int)
    requires FitsConfig(c) && Plain(timestamp)
    ensures var f := HeartbeatFields(c, timestamp, uptime, backlog);
            |f| == 14 && AllRender(f[10..], HeartbeatThird(c, timestamp, uptime, backlog))
  {
    hide EscapedText, Renders, Decimal, Print, Plain;
    var f, m := HeartbeatFields(c, timestamp, uptime, backlog), HeartbeatThird(c, timestamp, uptime, backlog);
    ThirdKeysPlain();
    StatesPlain();
    EscapedRenders("coverage_role", c.coverageRole, MAX_LABEL_LENGTH);
    PlainRenders("runtime_state", "running");
    PrintNumber(backlog);
    RawRenders("relay_queue_backlog", Decimal(backlog), Number(backlog));
    PlainRenders("relay_health", "healthy");
    assert |f[10..]| == 4;
  }

  lemma ThirdReadable(c: Config, timestamp: string, uptime: int, backlog: int)
    requires Plain(timestamp)
    ensures ReadableMembers(HeartbeatThird(c, timestamp, uptime, backlog)) <==> Printable(c.coverageRole)
  {
    hide ReadableMember, ReadableMembers, Printable, Plain;
    var m := HeartbeatThird(c, timestamp, uptime, backlog);
    ThirdKeysPlain();
    StatesPlain();
    TextReadable("coverage_role", c.coverageRole);
    PlainTextReadable("runtime_state", "running");
    PlainKeyReadable("relay_queue_backlog", Number(backlog));
    PlainTextReadable("relay_health", "healthy");
    FourReadable(m[0], m[1], m[2], m[3]);
  }

  lemma StatesPlain()
    ensures Plain("running") && Plain("healthy")
  {
  }

  lemma PrintNumber(n: int)
    ensures Print(Number(n)) == Decimal(n)
  {
  }

  lemma FourReadable(a: Member, b: Member, c: Member, d: Member)
    ensures ReadableMembers([a, b, c, d]) <==> ReadableMember(a) && ReadableMember(b) && ReadableMember(c) && ReadableMember(d)
  {
    hide ReadableMember;
    var m := [a, b, c, d];
    assert m[0] == a && m[1] == b && m[2] == c && m[3] == d;
  }

  lemma HeartbeatPrints(c: Config, timestamp: string, uptime: int, backlog: int)
    requires FitsConfig(c) && Plain(timestamp)
    ensures HeartbeatText(c, timestamp, uptime, backlog) == Print(Object(HeartbeatMembers(c, timestamp, uptime, backlog)))
  {
    hide HeartbeatFields, Fields, PrintMembers, HeartbeatFirst, HeartbeatSecond, HeartbeatThird, AllRender, Plain;
    var f := HeartbeatFields(c, timestamp, uptime, backlog);
    var a, b, d := HeartbeatFirst(c, timestamp, uptime, backlog), HeartbeatSecond(c, timestamp, uptime, backlog),
                   HeartbeatThird(c, timestamp, uptime, backlog);
    FirstRenders(c, timestamp, uptime, backlog);
    SecondRenders(c, timestamp, uptime, backlog);
    ThirdRenders(c, timestamp, uptime, backlog);
    RendersConcat(f[..5], f[5..10], a, b);
    RendersConcat(f[..5] + f[5..10], f[10..], a + b, d);
    assert f[..5] + f[5..10] + f[10..] == f;
    FieldsPrintMembers(f, a + b + d);
    assert |a + b + d| > 0 by { GroupSizes(c, timestamp, uptime, backlog); }
  }

  lemma GroupSizes(c: Config, timestamp: string, uptime: int, backlog: int)
    ensures |HeartbeatFirst(c, timestamp, uptime, backlog)| == 5
  {
  }

  /** Reading the assembled heartbeat yields exactly its fields when every configured text can be
      read; otherwise the reader rejects it. */
  lemma HeartbeatRoundTrip(c: Config, timestamp: string, uptime: int, backlog: int)
    requires FitsConfig(c) && Plain(timestamp)
    ensures ReadValue(HeartbeatText(c, timestamp, uptime, backlog))
         == if ConfigPrintable(c) then Some((Object(HeartbeatMembers(c, timestamp, uptime, backlog)), "")) else None
  {
    hide HeartbeatText, HeartbeatFirst, HeartbeatSecond, HeartbeatThird, Print, ReadValue, Readable, ReadableMembers, Printable, Plain;
    var a, b, d := HeartbeatFirst(c, timestamp, uptime, backlog), HeartbeatSecond(c, timestamp, uptime, backlog),
                   HeartbeatThird(c, timestamp, uptime, backlog);
    var beat := Object(a + b + d);
    HeartbeatPrints(c, timestamp, uptime, backlog);
    FirstReadable(c, timestamp, uptime, backlog);
    SecondReadable(c, timestamp, uptime, backlog);
    ThirdReadable(c, timestamp, uptime, backlog);
    ReadableConcat(a, b);
    ReadableConcat(a + b, d);
    ReadableParts(beat);
    ReadPrinted(beat, "");
    assert HeartbeatText(c, timestamp, uptime, backlog) + "" == HeartbeatText(c, timestamp, uptime, backlog);
  }

  lemma HeartbeatLookup(c: Config, timestamp: string, uptime: int, backlog: int, key: string)
    ensures Lookup(HeartbeatMembers(c, timestamp, uptime, backlog), key)
         == Lookup(HeartbeatThird(c, timestamp, uptime, backlog), key).Or(
              Lookup(HeartbeatSecond(c, timestamp, uptime, backlog), key).Or(Lookup(HeartbeatFirst(c, timestamp, uptime, backlog), key)))
  {
    hide HeartbeatFirst, HeartbeatSecond, HeartbeatThird, Lookup;
    var a, b, d := HeartbeatFirst(c, timestamp, uptime, backlog), HeartbeatSecond(c, timestamp, uptime, backlog),
                   HeartbeatThird(c, timestamp, uptime, backlog);
    LookupConcat(a + b, d, key);
    LookupConcat(a, b, key);
  }

  lemma HeartbeatGroups(c: Config, timestamp: string, uptime: int, backlog: int, key: string)
    ensures Lookup(HeartbeatFirst(c, timestamp, uptime, backlog), key)
         == if key == "public_endpoint" then Some(Value.Text(c.publicEndpoint))
            else if key == "decoy_version" then Some(Value.Text(c.decoyVersion))
            else if key == "edge_node_id" then Some(Value.Text(c.edgeNodeId))
            else if key == "decoy_id" then Some(Value.Text(c.decoyId))
            else if key == "ts" then Some(Value.Text(timestamp)) else None
    ensures Lookup(HeartbeatSecond(c, timestamp, uptime, backlog), key)
         == if key == "environment" then Some(Value.Text(c.environment))
            else if key == "site" then Some(Value.Text(c.site))
            else if key == "listen_port" then Some(Number(c.listenPort))
            else if key == "uptime_seconds" then Some(Number(uptime))
            else if key == "profile" then Some(Value.Text(c.profile)) else None
    ensures Lookup(HeartbeatThird(c, timestamp, uptime, backlog), key)
         == if key == "relay_health" then Some(Value.Text("healthy"))
            else if key == "relay_queue_backlog" then Some(Number(backlog))
            else if key == "runtime_state" then Some(Value.Text("running"))
            else if key == "coverage_role" then Some(Value.Text(c.coverageRole)) else None
  {
    hide Lookup;
    var a, b, d := HeartbeatFirst(c, timestamp, uptime, backlog), HeartbeatSecond(c, timestamp, uptime, backlog),
                   HeartbeatThird(c, timestamp, uptime, backlog);
    LookupFive(a[0], a[1], a[2], a[3], a[4], key);
    LookupFive(b[0], b[1], b[2], b[3], b[4], key);
    LookupFour(d[0], d[1], d[2], d[3], key);
  }

  lemma FirstByKey(c: Config, timestamp: string, uptime: int, backlog: int)
    ensures var m := HeartbeatMembers(c, timestamp, uptime, backlog);
            && Lookup(m, "ts") == Some(Value.Text(timestamp))
            && Lookup(m, "decoy_id") == Some(Value.Text(c.decoyId))
            && Lookup(m, "edge_node_id") == Some(Value.Text(c.edgeNodeId))
            && Lookup(m, "decoy_version") == Some(Value.Text(c.decoyVersion))
            && Lookup(m, "public_endpoint") == Some(Value.Text(c.publicEndpoint))
  {
    hide Lookup, HeartbeatMembers, HeartbeatFirst, HeartbeatSecond, HeartbeatThird;
    HeartbeatLookup(c, timestamp, uptime, backlog, "ts");
    HeartbeatGroups(c, timestamp, uptime, backlog, "ts");
    HeartbeatLookup(c, timestamp, uptime, backlog, "decoy_id");
    HeartbeatGroups(c, timestamp, uptime, backlog, "decoy_id");
    HeartbeatLookup(c, timestamp, uptime, backlog, "edge_node_id");
    HeartbeatGroups(c, timestamp, uptime, backlog, "edge_node_id");
    HeartbeatLookup(c, timestamp, uptime, backlog, "decoy_version");
    HeartbeatGroups(c, timestamp, uptime, backlog, "decoy_version");
    HeartbeatLookup(c, timestamp, uptime, backlog, "public_endpoint");
    HeartbeatGroups(c, timestamp, uptime, backlog, "public_endpoint");
  }

  lemma SecondByKey(c: Config, timestamp: string, uptime: int, backlog: int)
    ensures var m := HeartbeatMembers(c, timestamp, uptime, backlog);
            && Lookup(m, "profile") == Some(Value.Text(c.profile))
            && Lookup(m, "uptime_seconds") == Some(Number(uptime))
            && Lookup(m, "listen_port") == Some(Number(c.listenPort))
            && Lookup(m, "site") == Some(Value.Text(c.site))
            && Lookup(m, "environment") == Some(Value.Text(c.environment))
  {
    hide Lookup, HeartbeatMembers, HeartbeatFirst, HeartbeatSecond, HeartbeatThird;
    HeartbeatLookup(c, timestamp, uptime, backlog, "profile");
    HeartbeatGroups(c, timestamp, uptime, backlog, "profile");
    HeartbeatLookup(c, timestamp, uptime, backlog, "uptime_seconds");
    HeartbeatGroups(c, timestamp, uptime, backlog, "uptime_seconds");
    HeartbeatLookup(c, timestamp, uptime, backlog, "listen_port");
    HeartbeatGroups(c, timestamp, uptime, backlog, "listen_port");
    HeartbeatLookup(c, timestamp, uptime, backlog, "site");
    HeartbeatGroups(c, timestamp, uptime, backlog, "site");
    HeartbeatLookup(c, timestamp, uptime, backlog, "environment");
    HeartbeatGroups(c, timestamp, uptime, backlog, "environment");
  }

  lemma ThirdByKey(c: Config, timestamp: string, uptime: int, backlog: int)
    ensures var m := HeartbeatMembers(c, timestamp, uptime, backlog);
            && Lookup(m, "coverage_role") == Some(Value.Text(c.coverageRole))
            && Lookup(m, "runtime_state") == Some(Value.Text("running"))
            && Lookup(m, "relay_queue_backlog") == Some(Number(backlog))
            && Lookup(m, "relay_health") == Some(Value.Text("healthy"))
  {
    hide Lookup, HeartbeatMembers, HeartbeatFirst, HeartbeatSecond, HeartbeatThird;
    HeartbeatLookup(c, timestamp, uptime, backlog, "coverage_role");
    HeartbeatGroups(c, timestamp, uptime, backlog, "coverage_role");
    HeartbeatLookup(c, timestamp, uptime, backlog, "runtime_state");
    HeartbeatGroups(c, timestamp, uptime, backlog, "runtime_state");
    HeartbeatLookup(c, timestamp, uptime, backlog, "relay_queue_backlog");
    HeartbeatGroups(c, timestamp, uptime, backlog, "relay_queue_backlog");
    HeartbeatLookup(c, timestamp, uptime, backlog, "relay_health");
    HeartbeatGroups(c, timestamp, uptime, backlog, "relay_health");
  }

  // ---------- The request around a payload ----------

  /** The configured texts that are printed into header lines contain no line break. */
  ghost predicate HeaderSafe(c: Config, path: string) {
    BreakFree(path) && BreakFree(c.collectorHost) && BreakFree(c.decoyVersion) && BreakFree(c.collectorToken)
  }

  function LinesBefore(c: Config, path: string): seq<string> {
    ["POST " + path + " HTTP/1.1", "Host: " + c.collectorHost + ":" + Decimal(c.collectorPort),
     "User-Agent: unikernel-decoy/" + c.decoyVersion, "Content-Type: application/json"]
  }

  function LinesAfter(c: Config): seq<string> {
    if c.collectorToken == "" then ["Connection: close"] else ["X-Ingest-Key: " + c.collectorToken, "Connection: close"]
  }

  lemma TwoLines(a: string, b: string)
    ensures Lines([a, b]) == a + CRLF + (b + CRLF)
  {
    OneLine(b);
    LinesSplit([a, b]);
    assert [a, b][1..] == [b];
  }

  lemma OneLine(a: string)
    ensures Lines([a]) == a + CRLF
  {
    assert [a][1..] == [];
  }

  lemma BeforePrints(c: Config, path: string)
    ensures Lines(LinesBefore(c, path))
         == "POST " + path + " HTTP/1.1\r\n" + "Host: " + c.collectorHost + ":" + Decimal(c.collectorPort) + "\r\n"
            + "User-Agent: unikernel-decoy/" + c.decoyVersion + "\r\n" + "Content-Type: application/json\r\n"
  {
    hide Decimal, Lines;
    var l := LinesBefore(c, path);
    TwoLines(l[0], l[1]);
    TwoLines(l[2], l[3]);
    LinesConcat([l[0], l[1]], [l[2], l[3]]);
    assert [l[0], l[1]] + [l[2], l[3]] == l;
    assert " HTTP/1.1" + CRLF == " HTTP/1.1\r\n" && "Content-Type: application/json" + CRLF == "Content-Type: application/json\r\n";
  }

  lemma AfterPrints(c: Config)
    requires FitsConfig(c)
    ensures Lines(LinesAfter(c)) == IngestHeader(c) + "Connection: close\r\n"
  {
    hide Lines;
    assert "Connection: close" + CRLF == "Connection: close\r\n";
    if c.collectorToken == "" {
      OneLine("Connection: close");
    } else {
      TwoLines("X-Ingest-Key: " + c.collectorToken, "Connection: close");
    }
  }

  lemma RequestPrintsLines(c: Config, path: string, payload: string)
    requires FitsConfig(c)
    ensures RequestText(c, path, payload)
         == Lines(LinesBefore(c, path) + [LengthLine(|payload|)] + LinesAfter(c)) + CRLF + payload
  {
    hide Decimal, Lines, IngestHeader, LinesBefore, LinesAfter;
    BeforePrints(c, path);
    AfterPrints(c);
    FramedLines(LinesBefore(c, path), LengthLine(|payload|), LinesAfter(c));
  }

  lemma LinesSafe(c: Config, path: string)
    requires HeaderSafe(c, path)
    ensures forall i :: 0 <= i < 4 ==> Unbroken(LinesBefore(c, path)[i]) && !SameLetters(LinesBefore(c, path)[i], LENGTH_FIELD, 0)
    ensures forall i :: 0 <= i < |LinesAfter(c)| ==> Unbroken(LinesAfter(c)[i])
  {
    hide Decimal, SameLetters;
    var l := LinesBefore(c, path);
    DecimalSafe(c.collectorPort);
    FixedTextsSafe();
    assert l[0][0] == 'P' && l[1][0] == 'H' && l[2][0] == 'U' && l[3][8] == 'T';
    NotLengthField(l[0], 0);
    NotLengthField(l[1], 0);
    NotLengthField(l[2], 0);
    NotLengthField(l[3], 8);
  }

  lemma DecimalSafe(n: int)
    ensures BreakFree(Decimal(n))
  {
    hide Digits;
    DigitsHold(if n < 0 then -n else n);
  }

  lemma FixedTextsSafe()
    ensures BreakFree("POST ") && BreakFree(" HTTP/1.1") && BreakFree("Host: ") && BreakFree(":")
    ensures BreakFree("User-Agent: unikernel-decoy/") && BreakFree("Content-Type: application/json")
    ensures BreakFree("X-Ingest-Key: ") && BreakFree("Connection: close")
  {
  }

  /** The wrapped request frames its payload: the header ends where the payload begins, and the
      content length it is read with is the payload's size. */
  lemma RequestFramesPayload(c: Config, path: string, payload: string)
    requires FitsConfig(c) && HeaderSafe(c, path) && |payload| < EVENT_CAPACITY
    ensures var text := RequestText(c, path, payload);
            && Find(text, BLANK_LINE).Some? && text[HeaderLength(text)..] == payload
            && ContentLength(text) == |payload| && |text| == HeaderLength(text) + ContentLength(text)
  {
    hide Find, Lines, Unbroken, SameLetters, ContentLength, LengthLine, LinesBefore, LinesAfter, RequestText, HeaderSafe;
    RequestPrintsLines(c, path, payload);
    LinesSafe(c, path);
    FourBefore(c, path);
    FramedText(LinesBefore(c, path), LinesAfter(c), payload);
  }

  lemma FourBefore(c: Config, path: string)
    ensures |LinesBefore(c, path)| == 4
  {
  }

  /** And it carries the ingest key, when one is configured, as its own header field. */
  lemma RequestCarriesKey(c: Config, path: string, payload: string)
    requires FitsConfig(c) && HeaderSafe(c, path) && c.collectorToken != "" && c.collectorToken[0] != ' '
    ensures HeaderValue(RequestText(c, path, payload), "X-Ingest-Key") == c.collectorToken
  {
    hide Lines, Unbroken, SameLetters, HeaderValue, LinesBefore, Carries, RequestText, HeaderSafe;
    var key := "X-Ingest-Key: " + c.collectorToken;
    var before := LinesBefore(c, path) + [LengthLine(|payload|)];
    RequestPrintsLines(c, path, payload);
    LinesSafe(c, path);
    FourBefore(c, path);
    LengthLineUnbroken(|payload|);
    NoKeyBefore(c, path, |payload|);
    KeyTextsUnbroken(c, path);
    var rest := Lines(["Connection: close"]) + CRLF + payload;
    assert before + LinesAfter(c) == before + ["X-Ingest-Key" + ": " + c.collectorToken] + ["Connection: close"] by {
      assert "X-Ingest-Key" + ": " + c.collectorToken == key;
    }
    FramedLines(before, "X-Ingest-Key" + ": " + c.collectorToken, ["Connection: close"]);
    assert RequestText(c, path, payload) == Lines(before) + ("X-Ingest-Key" + ": " + c.collectorToken) + CRLF + rest;
    SpellsItself("X-Ingest-Key");
    HeaderRoundTrip(before, "X-Ingest-Key", "X-Ingest-Key", c.collectorToken, rest);
  }

  /** What the collector finds behind the header of an event's request is the event. */
  lemma CollectorReadsEvent(c: Config, raw: string, x: Context)
    requires FitsConfig(c) && FitsContext(x) && HeaderSafe(c, c.collectorPath) && ParseRequest(raw).Some?
    requires AllPrintable(c, ParseRequest(raw).value, x)
    ensures var r := ParseRequest(raw).value;
            EventRequest(c, r, x).Some?
            && var text := EventRequest(c, r, x).value;
               && Find(text, BLANK_LINE).Some? && |text| == HeaderLength(text) + ContentLength(text)
               && ReadValue(text[HeaderLength(text)..]) == Some((Object(EventMembers(c, r, x)), ""))
  {
    hide ParseRequest, EventText, RequestText, EventMembers, ReadValue, AllPrintable, HeaderSafe, Find, ContentLength, FitsFields, TagsSound;
    var r := ParseRequest(raw).value;
    ParsedRequestFits(raw);
    EventTextPrints(c, r, x);
    WrappedFits(c, c.collectorPath, EventText(c, r, x));
    RequestFramesPayload(c, c.collectorPath, EventText(c, r, x));
    EventRoundTrip(c, r, x);
  }

  /** Its first line asks for the path, and it names the collector's host and the media type. */
  lemma RequestNamesCollector(c: Config, path: string, payload: string)
    requires FitsConfig(c) && HeaderSafe(c, path) && c.collectorHost != "" && c.collectorHost[0] != ' '
    ensures StartsWith(RequestText(c, path, payload), "POST " + path + " HTTP/1.1\r\n")
    ensures HeaderValue(RequestText(c, path, payload), "Host") == c.collectorHost + ":" + Decimal(c.collectorPort)
  {
    hide Lines, HeaderValue, Carries, RequestText, Decimal, LengthLine, LinesAfter;
    var l, host := LinesBefore(c, path), c.collectorHost + ":" + Decimal(c.collectorPort);
    RequestPrintsLines(c, path, payload);
    HostSafe(c, path);
    var after := [l[2], l[3]] + [LengthLine(|payload|)] + LinesAfter(c);
    assert l + [LengthLine(|payload|)] + LinesAfter(c) == [l[0]] + ["Host" + ": " + host] + after;
    FramedLines([l[0]], "Host" + ": " + host, after);
    OneLine(l[0]);
    var rest := Lines(after) + CRLF + payload;
    assert RequestText(c, path, payload) == Lines([l[0]]) + ("Host" + ": " + host) + CRLF + rest;
    HeaderRoundTrip([l[0]], "Host", "Host", host, rest);
    FirstLineEnds(path);
    assert RequestText(c, path, payload)[..|l[0]| + 2] == l[0] + CRLF;
  }

  lemma FirstLineEnds(path: string)
    ensures "POST " + path + " HTTP/1.1" + CRLF == "POST " + path + " HTTP/1.1\r\n"
  {
    assert " HTTP/1.1" + CRLF == " HTTP/1.1\r\n";
  }

  lemma HostSafe(c: Config, path: string)
    requires HeaderSafe(c, path) && c.collectorHost != ""
    ensures var l, host := LinesBefore(c, path), c.collectorHost + ":" + Decimal(c.collectorPort);
            && |l| == 4 && l[1] == "Host" + ": " + host && Unbroken(l[0]) && !Carries(l[0], "Host")
            && Unbroken(host) && Unbroken("Host") && Spells("Host", "Host")
  {
    hide Decimal, Carries;
    LinesSafe(c, path);
    DecimalSafe(c.collectorPort);
    SpellsItself("Host");
    PostLineCarriesNothing(path, "Host");
    assert "Host" + ": " == "Host: ";
  }

  lemma KeyTextsUnbroken(c: Config, path: string)
    requires HeaderSafe(c, path) && c.collectorToken != ""
    ensures Unbroken("X-Ingest-Key") && Unbroken(c.collectorToken)
  {
  }

  lemma NoKeyBefore(c: Config, path: string, n: nat)
    ensures forall i :: 0 <= i < 4 ==> !Carries(LinesBefore(c, path)[i], "X-Ingest-Key")
    ensures !Carries(LengthLine(n), "X-Ingest-Key")
  {
    hide Decimal;
    var l := LinesBefore(c, path);
    assert l[0][0] == 'P' && l[1][0] == 'H' && l[2][0] == 'U' && l[3][0] == 'C' && LengthLine(n)[0] == 'C';
    OtherFirstLetter(l[0], "X-Ingest-Key");
    OtherFirstLetter(l[1], "X-Ingest-Key");
    OtherFirstLetter(l[2], "X-Ingest-Key");
    OtherFirstLetter(l[3], "X-Ingest-Key");
    OtherFirstLetter(LengthLine(n), "X-Ingest-Key");
  }
}
