/**
 The JSON and HTTP texts the decoy sends to its collector, their round trip through a
 reader, and why none of the fixed buffers can overflow.
 */
module EventPayload {
  import opened Options
  import opened CStrings
  import opened Json
  import opened JsonValues
  import opened RequestParser
  import opened FormDecoding
  import opened Fingerprint
  import opened HttpRequests

  const MAX_PROFILE_LENGTH: nat := 32
  const MAX_LABEL_LENGTH: nat := 128
  const MAX_ENDPOINT_LENGTH: nat := 256
  const MAX_ENVIRONMENT_LENGTH: nat := 64
  const TAGS_CAPACITY: nat := 1024
  const HEADERS_CAPACITY: nat := 512
  const EVENT_CAPACITY: nat := 6144
  const HEARTBEAT_CAPACITY: nat := 2048
  const REQUEST_CAPACITY: nat := 8192

  datatype Config = Config(
    profile: string,
    decoyId: string,
    edgeNodeId: string,
    decoyVersion: string,
    publicEndpoint: string,
    site: string,
    environment: string,
    coverageRole: string,
    collectorToken: string,
    collectorHost: string,
    collectorPath: string,
    collectorPort: int,
    listenPort: int)

  /** What is known when an event is sent: clock, counter, client address and outcome. */
  datatype Context = Context(
    seconds: int,
    microseconds: int,
    counter: nat,
    timestamp: string,
    sourceIp: string,
    statusCode: int,
    latencyMs: int)

  ghost predicate FitsConfig(c: Config) {
    && |c.profile| < MAX_PROFILE_LENGTH && |c.decoyId| < MAX_HOSTNAME_LENGTH && |c.edgeNodeId| < MAX_HOSTNAME_LENGTH
    && |c.decoyVersion| < MAX_PROFILE_LENGTH && |c.publicEndpoint| < MAX_ENDPOINT_LENGTH && |c.site| < MAX_HOSTNAME_LENGTH
    && |c.environment| < MAX_ENVIRONMENT_LENGTH && |c.coverageRole| < MAX_LABEL_LENGTH
    && |c.collectorToken| < 128 && |c.collectorHost| < 128 && |c.collectorPath| < 128
    && Int32(c.collectorPort) && Int32(c.listenPort)
  }

  predicate Int32(n: int) { -0x8000_0000 <= n < 0x8000_0000 }

  /** The time stamp is made of digits, dashes, colons and letters in a 32-byte buffer. */
  ghost predicate FitsContext(x: Context) {
    |x.timestamp| < 32 && Plain(x.timestamp) && |x.sourceIp| < MAX_HOSTNAME_LENGTH && Int32(x.statusCode) && Int32(x.latencyMs)
  }

  // ---------- Texts that need no escaping ----------

  predicate PlainChar(c: char) { c as int >= 0x20 && c != '"' && c != '\\' }

  ghost predicate Plain(s: string) { forall i :: 0 <= i < |s| ==> PlainChar(s[i]) }

  lemma {:induction false} PlainEscape(s: string)
    requires Plain(s)
    ensures Escape(s) == s && Printable(s)
  {
    if s != "" {
      assert EscapeChar(s[0]) == [s[0]];
      PlainEscape(s[1..]);
      assert s == [s[0]] + s[1..];
      assert forall i :: 0 <= i < |s| ==> PrintableChar(s[i]) by { PlainIsPrintable(s); }
    }
  }

  lemma PlainIsPrintable(s: string)
    requires Plain(s)
    ensures Printable(s)
  {
    assert forall c: char :: PlainChar(c) ==> PrintableChar(c);
  }

  lemma {:induction false} DigitsBounded(n: nat, k: nat, bound: nat)
    requires k >= 1 && bound == Power(10, k) && n < bound
    ensures |Digits(n)| <= k
  {
    if n >= 10 {
      assert k > 1;
      DigitsBounded(n / 10, k - 1, Power(10, k - 1));
    }
  }

  lemma DecimalBounded(n: int)
    requires Int32(n)
    ensures |Decimal(n)| <= 11
  {
    assert Power(10, 10) == 10_000_000_000 by { assert Power(10, 5) == 100_000; }
    DigitsBounded(if n < 0 then -n else n, 10, Power(10, 10));
  }

  lemma DecimalPlain(n: int)
    ensures Plain(Decimal(n))
  {
    hide Digits;
    DigitsHold(if n < 0 then -n else n);
  }

  // ---------- Members and their text ----------

  /** One member of the format string: a key and the text printed for it. */
  datatype Field = Field(key: string, text: string)

  function FieldText(f: Field): string { "\"" + f.key + "\":" + f.text }

  function Fields(fields: seq<Field>): string
    requires fields != []
  {
    if |fields| == 1 then FieldText(fields[0]) else FieldText(fields[0]) + "," + Fields(fields[1..])
  }

  function Quoted(s: string): string { "\"" + s + "\"" }

  /** A text escaped into a buffer of twice its field's size, between quotes. */
  function EscapedText(s: string, size: nat): string { Quoted(EscapeInto(s, 2 * size)) }

  /** The field is how the member prints. */
  ghost predicate Renders(f: Field, m: Member) {
    f.key == m.key && Plain(f.key) && f.text == Print(m.value)
  }

  ghost predicate AllRender(fields: seq<Field>, members: seq<Member>) {
    |fields| == |members| && forall i :: 0 <= i < |fields| ==> Renders(fields[i], members[i])
  }

  lemma {:induction false} FieldsPrintMembers(fields: seq<Field>, members: seq<Member>)
    requires fields != [] && AllRender(fields, members)
    ensures Fields(fields) == PrintMembers(members)
  {
    hide Print, Escape;
    assert Renders(fields[0], members[0]);
    PlainEscape(fields[0].key);
    assert FieldText(fields[0]) == PrintMember(members[0]);
    if |fields| > 1 {
      assert AllRender(fields[1..], members[1..]);
      FieldsPrintMembers(fields[1..], members[1..]);
    }
  }

  lemma EscapedRenders(key: string, s: string, size: nat)
    requires Plain(key) && |s| < size
    ensures Renders(Field(key, EscapedText(s, size)), Member(key, Text(s)))
    ensures |EscapedText(s, size)| <= 2 * size
  {
    DoubleBufferSuffices(s, size);
  }

  lemma PlainRenders(key: string, s: string)
    requires Plain(key) && Plain(s)
    ensures Renders(Field(key, Quoted(s)), Member(key, Text(s)))
  {
    PlainEscape(s);
  }

  lemma RawRenders(key: string, text: string, v: Value)
    requires Plain(key) && text == Print(v)
    ensures Renders(Field(key, text), Member(key, v))
  {
  }

  lemma PrintBool(b: bool)
    ensures Print(Bool(b)) == if b then "true" else "false"
  {
  }

  lemma {:induction false} FieldsConcat(a: seq<Field>, b: seq<Field>)
    requires a != [] && b != []
    ensures Fields(a + b) == Fields(a) + "," + Fields(b)
  {
    hide FieldText;
    if |a| == 1 {
      assert (a + b)[1..] == b;
    } else {
      FieldsConcat(a[1..], b);
      assert (a + b)[1..] == a[1..] + b;
    }
  }

  /** The length of five members, commas included. */
  lemma FiveLength(a: Field, b: Field, c: Field, d: Field, e: Field)
    ensures |Fields([a, b, c, d, e])| == 19 + |a.key| + |a.text| + |b.key| + |b.text| + |c.key| + |c.text|
                                            + |d.key| + |d.text| + |e.key| + |e.text|
  {
    hide Fields;
    LastField(e);
    FirstField(d, [e]);
    FirstField(c, [d, e]);
    FirstField(b, [c, d, e]);
    FirstField(a, [b, c, d, e]);
    assert [a] + [b, c, d, e] == [a, b, c, d, e] && [b] + [c, d, e] == [b, c, d, e];
    assert [c] + [d, e] == [c, d, e] && [d] + [e] == [d, e];
  }

  lemma LastField(f: Field)
    ensures |Fields([f])| == 3 + |f.key| + |f.text|
  {
  }

  lemma FirstField(f: Field, rest: seq<Field>)
    requires rest != []
    ensures |Fields([f] + rest)| == 4 + |f.key| + |f.text| + |Fields(rest)|
  {
    assert ([f] + rest)[1..] == rest;
  }

  lemma RendersConcat(a: seq<Field>, b: seq<Field>, m: seq<Member>, n: seq<Member>)
    requires AllRender(a, m) && AllRender(b, n)
    ensures AllRender(a + b, m + n)
  {
    hide Renders;
  }

  // ---------- Tags ----------

  /** The members of the tag array, each escaped into a 128-byte buffer. */
  function TagItems(tags: seq<string>): string {
    if |tags| == 0 then ""
    else
      var n := |tags| - 1;
      var item := EscapedText(tags[n], MAX_TAG_LENGTH);
      if n == 0 then item else TagItems(tags[..n]) + "," + item
  }

  function TagsText(tags: seq<string>): string { "[" + TagItems(tags) + "]" }

  /** Appends a text between quotes. */
  method AppendQuoted(buffer: array<char>, length: nat, text: string, ghost before: string) returns (length': nat)
    requires Appended(buffer[..], length, before)
    modifies buffer
    ensures Appended(buffer[..], length', before + Quoted(text))
  {
    hide Appended;
    length' := AppendText(buffer, length, "\"", before);
    length' := AppendText(buffer, length', text, before + "\"");
    length' := AppendText(buffer, length', "\"", before + "\"" + text);
    assert before + "\"" + text + "\"" == before + Quoted(text);
  }

  method BuildTagsJson(tags: seq<string>, buffer: array<char>)
    requires buffer.Length > 0
    modifies buffer
    ensures HoldsString(buffer[..], Clip(TagsText(tags), buffer.Length))
  {
    hide EscapeInto, TagItems, Quoted, Clip, HoldsString;
    buffer[0] := NUL;
    var length := 0;
    NothingAppended(buffer[..]);
    length := AppendText(buffer, length, "[", "");
    ghost var written := "[";
    assert "" + "[" == written;
    NoTagItems();
    for i := 0 to |tags|
      invariant written == "[" + TagItems(tags[..i])
      invariant Appended(buffer[..], length, written)
    {
      TagItemsStep(tags, i);
      var escapedTag := EscapeInto(tags[i], 2 * MAX_TAG_LENGTH);
      if i > 0 {
        length := AppendText(buffer, length, ",", written);
        written := written + ",";
      }
      length := AppendQuoted(buffer, length, escapedTag, written);
      written := written + Quoted(escapedTag);
    }
    assert tags[..|tags|] == tags;
    length := AppendText(buffer, length, "]", written);
    assert written + "]" == TagsText(tags);
  }

  lemma NoTagItems()
    ensures forall tags: seq<string> :: |tags| == 0 ==> TagItems(tags) == ""
  {
  }

  lemma TagItemsStep(tags: seq<string>, i: nat)
    requires i < |tags|
    ensures TagItems(tags[..i + 1])
         == (if i == 0 then "" else TagItems(tags[..i]) + ",") + Quoted(EscapeInto(tags[i], 2 * MAX_TAG_LENGTH))
    ensures i == 0 ==> TagItems(tags[..i]) == ""
  {
    hide EscapeInto, Quoted;
    assert tags[..i + 1][..i] == tags[..i];
  }

  function TagValues(tags: seq<string>): seq<Value> { seq(|tags|, i requires 0 <= i < |tags| => Text(tags[i])) }

  lemma {:induction false} PrintItemsAppend(items: seq<Value>, v: Value)
    requires items != []
    ensures PrintItems(items + [v]) == PrintItems(items) + "," + Print(v)
  {
    hide Print;
    if |items| == 1 {
      assert (items + [v])[1..] == [v];
    } else {
      PrintItemsAppend(items[1..], v);
      assert (items + [v])[1..] == items[1..] + [v];
    }
  }

  lemma {:induction false} TagItemsPrint(tags: seq<string>)
    requires TagsSound(tags) && tags != []
    ensures TagItems(tags) == PrintItems(TagValues(tags))
    ensures |TagItems(tags)| <= 51 * |tags|
  {
    hide Escape, EscapeInto;
    var n := |tags| - 1;
    var init := tags[..n];
    VocabularyFits(tags[n]);
    DoubleBufferSuffices(tags[n], MAX_TAG_LENGTH);
    if n > 0 {
      TagItemsPrint(init);
      assert TagValues(tags) == TagValues(init) + [Text(tags[n])];
      PrintItemsAppend(TagValues(init), Text(tags[n]));
    }
  }

  lemma TagsPrint(tags: seq<string>)
    requires TagsSound(tags)
    ensures TagsText(tags) == Print(List(TagValues(tags)))
    ensures |TagsText(tags)| <= 410
    ensures Clip(TagsText(tags), TAGS_CAPACITY) == TagsText(tags)
  {
    SoundTagsAreFew(tags);
    if tags != [] {
      TagItemsPrint(tags);
    }
  }

  lemma VocabularyPlain(tag: string)
    requires tag in VOCABULARY
    ensures Plain(tag)
  {
    LoginTagsPlain();
    ProbeTagsPlain();
    PathTagsPlain();
  }

  lemma LoginTagsPlain()
    ensures Plain("credential_bruteforce") && Plain("credential_attempt")
  {
  }

  lemma ProbeTagsPlain()
    ensures Plain("sqli_probe") && Plain("xss_probe") && Plain("path_traversal_probe") && Plain("internet_recon")
  {
  }

  lemma PathTagsPlain()
    ensures Plain("admin_panel_enumeration") && Plain("sensitive_path_discovery")
  {
  }

  // ---------- Pieces of the event ----------

  function HeaderFields(r: Request): seq<Field> {
    [Field("host", EscapedText(r.host, MAX_HOSTNAME_LENGTH)), Field("accept", EscapedText(r.accept, MAX_ACCEPT_LENGTH))]
  }

  function HeadersText(r: Request): string { "{" + Fields(HeaderFields(r)) + "}" }

  function HeadersValue(r: Request): Value { Object([Member("host", Text(r.host)), Member("accept", Text(r.accept))]) }

  lemma HeadersPrint(r: Request)
    requires FitsFields(r)
    ensures HeadersText(r) == Print(HeadersValue(r))
    ensures |HeadersText(r)| <= 403
    ensures Clip(HeadersText(r), HEADERS_CAPACITY) == HeadersText(r)
  {
    hide EscapeInto, Escape;
    var fields, members := HeaderFields(r), HeadersValue(r).members;
    assert Plain("host") && Plain("accept");
    EscapedRenders("host", r.host, MAX_HOSTNAME_LENGTH);
    EscapedRenders("accept", r.accept, MAX_ACCEPT_LENGTH);
    assert AllRender(fields, members);
    FieldsPrintMembers(fields, members);
    assert fields[1..] == [fields[1]];
    assert |FieldText(fields[0])| <= 7 + 128 && |FieldText(fields[1])| <= 9 + 256;
  }

  function EventId(x: Context): string {
    Clip("evt-" + Decimal(x.seconds) + "-" + Decimal(x.microseconds) + "-" + Decimal(x.counter), 96)
  }

  lemma EventIdPlain(x: Context)
    ensures Plain(EventId(x)) && |EventId(x)| < 96
  {
    DecimalPlain(x.seconds);
    DecimalPlain(x.microseconds);
    DecimalPlain(x.counter);
    assert Plain("evt-") && Plain("-");
  }

  lemma {:induction false} HexPlain(n: nat, digits: nat)
    ensures Plain(Hex(n, digits))
  {
    if digits > 0 {
      HexPlain(n / 16, digits - 1);
      HexDigitPlain(n % 16);
    }
  }

  lemma HexDigitPlain(d: nat)
    requires d < 16
    ensures PlainChar(HexDigit(d))
  {
    var hex := "0123456789abcdef";
    assert forall i :: 0 <= i < 16 ==> PlainChar(hex[i]);
  }

  lemma FingerprintPlain(verb: string, path: string, agent: string)
    ensures Plain(RequestFingerprint(verb, path, agent)) && |RequestFingerprint(verb, path, agent)| == 11
  {
    hide Hex, Hash;
    HexPlain(Hash(verb, path, agent), 8);
    assert Plain("fp-");
  }

  lemma ClassPlain(tags: seq<string>, suspicious: bool)
    ensures Plain(DecoyClass(tags, suspicious)) && |DecoyClass(tags, suspicious)| <= 10
  {
    FirstClassValues(tags);
    assert Plain("credential") && Plain("probe") && Plain("recon") && Plain("scan");
  }

  lemma {:induction false} FirstClassValues(tags: seq<string>)
    ensures FirstClass(tags) in {None, Some("credential"), Some("probe"), Some("recon")}
  {
    if |tags| > 0 {
      FirstClassValues(tags[..|tags| - 1]);
    }
  }

  // ---------- The event ----------

  function OriginFields(c: Config, x: Context): seq<Field> {
    [Field("event_id", Quoted(EventId(x))),
     Field("ts", Quoted(x.timestamp)),
     Field("decoy_id", EscapedText(c.decoyId, MAX_HOSTNAME_LENGTH)),
     Field("profile", EscapedText(c.profile, MAX_PROFILE_LENGTH)),
     Field("src_ip", EscapedText(x.sourceIp, MAX_HOSTNAME_LENGTH))]
  }

  function OriginMembers(c: Config, x: Context): seq<Member> {
    [Member("event_id", Text(EventId(x))), Member("ts", Text(x.timestamp)), Member("decoy_id", Text(c.decoyId)),
     Member("profile", Text(c.profile)), Member("src_ip", Text(x.sourceIp))]
  }

  lemma OriginKeysPlain()
    ensures Plain("event_id") && Plain("ts") && Plain("decoy_id") && Plain("profile") && Plain("src_ip")
  {
  }

  lemma OriginPrints(c: Config, x: Context)
    requires FitsConfig(c) && FitsContext(x)
    ensures AllRender(OriginFields(c, x), OriginMembers(c, x))
    ensures |Fields(OriginFields(c, x))| <= 520
  {
    hide EscapedText, EventId, Renders;
    var f, m := OriginFields(c, x), OriginMembers(c, x);
    OriginKeysPlain();
    EventIdPlain(x);
    PlainRenders("event_id", EventId(x));
    PlainRenders("ts", x.timestamp);
    EscapedRenders("decoy_id", c.decoyId, MAX_HOSTNAME_LENGTH);
    EscapedRenders("profile", c.profile, MAX_PROFILE_LENGTH);
    EscapedRenders("src_ip", x.sourceIp, MAX_HOSTNAME_LENGTH);
    FiveLength(f[0], f[1], f[2], f[3], f[4]);
  }

  function RequestFields(r: Request): seq<Field> {
    [Field("method", EscapedText(r.verb, MAX_METHOD_LENGTH)),
     Field("path", EscapedText(r.path, MAX_PATH_LENGTH)),
     Field("user_agent", EscapedText(r.userAgent, MAX_USER_AGENT_LENGTH)),
     Field("username", EscapedText(r.username, MAX_FIELD_LENGTH)),
     Field("password", EscapedText(r.password, MAX_FIELD_LENGTH))]
  }

  function RequestMembers(r: Request): seq<Member> {
    [Member("method", Text(r.verb)), Member("path", Text(r.path)), Member("user_agent", Text(r.userAgent)),
     Member("username", Text(r.username)), Member("password", Text(r.password))]
  }

  lemma RequestKeysPlain()
    ensures Plain("method") && Plain("path") && Plain("user_agent") && Plain("username") && Plain("password")
  {
  }

  lemma RequestPrints(r: Request)
    requires FitsFields(r)
    ensures AllRender(RequestFields(r), RequestMembers(r))
    ensures |Fields(RequestFields(r))| <= 1620
  {
    hide EscapedText, Renders;
    var f := RequestFields(r);
    RequestKeysPlain();
    EscapedRenders("method", r.verb, MAX_METHOD_LENGTH);
    EscapedRenders("path", r.path, MAX_PATH_LENGTH);
    EscapedRenders("user_agent", r.userAgent, MAX_USER_AGENT_LENGTH);
    EscapedRenders("username", r.username, MAX_FIELD_LENGTH);
    EscapedRenders("password", r.password, MAX_FIELD_LENGTH);
    FiveLength(f[0], f[1], f[2], f[3], f[4]);
  }

  const COLLECTOR_VERSION: string := "decoy-runtime/0.2.0"

  function TagFields(c: Config, r: Request): seq<Field> {
    var tagsJson := Clip(TagsText(r.tags), TAGS_CAPACITY);
    [Field("suspicious", if r.suspicious then "true" else "false"),
     Field("tags", tagsJson),
     Field("normalized_tags", tagsJson),
     Field("collector_version", Quoted(COLLECTOR_VERSION)),
     Field("edge_node_id", EscapedText(c.edgeNodeId, MAX_HOSTNAME_LENGTH))]
  }

  function TagMembers(c: Config, r: Request): seq<Member> {
    [Member("suspicious", Bool(r.suspicious)), Member("tags", List(TagValues(r.tags))),
     Member("normalized_tags", List(TagValues(r.tags))), Member("collector_version", Text(COLLECTOR_VERSION)),
     Member("edge_node_id", Text(c.edgeNodeId))]
  }

  lemma CollectorVersionPlain()
    ensures Plain(COLLECTOR_VERSION) && |COLLECTOR_VERSION| == 19
  {
  }

  lemma TagKeysPlain()
    ensures Plain("suspicious") && Plain("tags") && Plain("normalized_tags") && Plain("collector_version") && Plain("edge_node_id")
  {
  }

  lemma TagsRender(c: Config, r: Request)
    requires FitsConfig(c) && TagsSound(r.tags)
    ensures AllRender(TagFields(c, r), TagMembers(c, r))
    ensures |Fields(TagFields(c, r))| <= 1060
  {
    hide EscapedText, TagsText, Print, Renders, Clip, Plain;
    var f := TagFields(c, r);
    TagKeysPlain();
    CollectorVersionPlain();
    TagsPrint(r.tags);
    PrintBool(r.suspicious);
    RawRenders("suspicious", if r.suspicious then "true" else "false", Bool(r.suspicious));
    RawRenders("tags", TagsText(r.tags), List(TagValues(r.tags)));
    RawRenders("normalized_tags", TagsText(r.tags), List(TagValues(r.tags)));
    PlainRenders("collector_version", COLLECTOR_VERSION);
    EscapedRenders("edge_node_id", c.edgeNodeId, MAX_HOSTNAME_LENGTH);
    FiveLength(f[0], f[1], f[2], f[3], f[4]);
  }

  function OutcomeFields(c: Config, r: Request, x: Context): seq<Field> {
    [Field("decoy_version", EscapedText(c.decoyVersion, MAX_PROFILE_LENGTH)),
     Field("status_code", Decimal(x.statusCode)),
     Field("latency_ms", Decimal(x.latencyMs)),
     Field("headers_subset", Clip(HeadersText(r), HEADERS_CAPACITY)),
     Field("public_endpoint", EscapedText(c.publicEndpoint, MAX_ENDPOINT_LENGTH))]
  }

  function OutcomeMembers(c: Config, r: Request, x: Context): seq<Member> {
    [Member("decoy_version", Text(c.decoyVersion)), Member("status_code", Number(x.statusCode)),
     Member("latency_ms", Number(x.latencyMs)), Member("headers_subset", HeadersValue(r)),
     Member("public_endpoint", Text(c.publicEndpoint))]
  }

  lemma OutcomeKeysPlain()
    ensures Plain("decoy_version") && Plain("status_code") && Plain("latency_ms") && Plain("headers_subset") && Plain("public_endpoint")
  {
  }

  lemma OutcomePrints(c: Config, r: Request, x: Context)
    requires FitsConfig(c) && FitsFields(r) && FitsContext(x)
    ensures AllRender(OutcomeFields(c, r, x), OutcomeMembers(c, r, x))
    ensures |Fields(OutcomeFields(c, r, x))| <= 1100
  {
    hide EscapedText, HeadersText, HeadersValue, Decimal, Plain, Clip;
    var f := OutcomeFields(c, r, x);
    OutcomeKeysPlain();
    EscapedRenders("decoy_version", c.decoyVersion, MAX_PROFILE_LENGTH);
    DecimalBounded(x.statusCode);
    DecimalBounded(x.latencyMs);
    HeadersPrint(r);
    EscapedRenders("public_endpoint", c.publicEndpoint, MAX_ENDPOINT_LENGTH);
    FiveLength(f[0], f[1], f[2], f[3], f[4]);
  }

  function PlaceFields(c: Config, r: Request): seq<Field> {
    [Field("request_fingerprint", Quoted(RequestFingerprint(r.verb, r.path, r.userAgent))),
     Field("event_class", Quoted(DecoyClass(r.tags, r.suspicious))),
     Field("site", EscapedText(c.site, MAX_HOSTNAME_LENGTH)),
     Field("environment", EscapedText(c.environment, MAX_ENVIRONMENT_LENGTH)),
     Field("coverage_role", EscapedText(c.coverageRole, MAX_LABEL_LENGTH))]
  }

  function PlaceMembers(c: Config, r: Request): seq<Member> {
    [Member("request_fingerprint", Text(RequestFingerprint(r.verb, r.path, r.userAgent))),
     Member("event_class", Text(DecoyClass(r.tags, r.suspicious))), Member("site", Text(c.site)),
     Member("environment", Text(c.environment)), Member("coverage_role", Text(c.coverageRole))]
  }

  lemma PlaceKeysPlain()
    ensures Plain("request_fingerprint") && Plain("event_class") && Plain("site") && Plain("environment") && Plain("coverage_role")
  {
  }

  lemma PlacePrints(c: Config, r: Request)
    requires FitsConfig(c)
    ensures AllRender(PlaceFields(c, r), PlaceMembers(c, r))
    ensures |Fields(PlaceFields(c, r))| <= 640
  {
    hide EscapedText, RequestFingerprint, DecoyClass, Renders, Plain;
    var f := PlaceFields(c, r);
    PlaceKeysPlain();
    FingerprintPlain(r.verb, r.path, r.userAgent);
    PlainRenders("request_fingerprint", RequestFingerprint(r.verb, r.path, r.userAgent));
    ClassPlain(r.tags, r.suspicious);
    PlainRenders("event_class", DecoyClass(r.tags, r.suspicious));
    EscapedRenders("site", c.site, MAX_HOSTNAME_LENGTH);
    EscapedRenders("environment", c.environment, MAX_ENVIRONMENT_LENGTH);
    EscapedRenders("coverage_role", c.coverageRole, MAX_LABEL_LENGTH);
    FiveLength(f[0], f[1], f[2], f[3], f[4]);
  }

  /** The members of the event in the order of the format string. */
  function EventFields(c: Config, r: Request, x: Context): seq<Field> {
    OriginFields(c, x) + RequestFields(r) + TagFields(c, r) + OutcomeFields(c, r, x) + PlaceFields(c, r)
  }

  function EventMembers(c: Config, r: Request, x: Context): seq<Member> {
    OriginMembers(c, x) + RequestMembers(r) + TagMembers(c, r) + OutcomeMembers(c, r, x) + PlaceMembers(c, r)
  }

  function EventText(c: Config, r: Request, x: Context): string { "{" + Fields(EventFields(c, r, x)) + "}" }

  /** The event text is how its members print, and it is shorter than its buffer. */
  lemma EventTextPrints(c: Config, r: Request, x: Context)
    requires FitsConfig(c) && FitsFields(r) && TagsSound(r.tags) && FitsContext(x)
    ensures EventText(c, r, x) == Print(Object(EventMembers(c, r, x)))
    ensures |EventText(c, r, x)| < 5000
  {
    hide OriginFields, RequestFields, TagFields, OutcomeFields, PlaceFields, Fields, AllRender;
    hide OriginMembers, RequestMembers, TagMembers, OutcomeMembers, PlaceMembers, PrintMembers;
    var f1, f2, f3, f4, f5 := OriginFields(c, x), RequestFields(r), TagFields(c, r), OutcomeFields(c, r, x), PlaceFields(c, r);
    var m1, m2, m3, m4, m5 := OriginMembers(c, x), RequestMembers(r), TagMembers(c, r), OutcomeMembers(c, r, x), PlaceMembers(c, r);
    GroupsNotEmpty(c, r, x);
    OriginPrints(c, x);
    RequestPrints(r);
    TagsRender(c, r);
    OutcomePrints(c, r, x);
    PlacePrints(c, r);
    RendersConcat(f1, f2, m1, m2);
    RendersConcat(f1 + f2, f3, m1 + m2, m3);
    RendersConcat(f1 + f2 + f3, f4, m1 + m2 + m3, m4);
    RendersConcat(f1 + f2 + f3 + f4, f5, m1 + m2 + m3 + m4, m5);
    FieldsConcat(f1, f2);
    FieldsConcat(f1 + f2, f3);
    FieldsConcat(f1 + f2 + f3, f4);
    FieldsConcat(f1 + f2 + f3 + f4, f5);
    FieldsPrintMembers(EventFields(c, r, x), EventMembers(c, r, x));
  }

  lemma GroupsNotEmpty(c: Config, r: Request, x: Context)
    ensures OriginFields(c, x) != [] && RequestFields(r) != [] && TagFields(c, r) != []
    ensures OutcomeFields(c, r, x) != [] && PlaceFields(c, r) != [] && OriginMembers(c, x) != []
  {
  }

  /** Every text of configuration, request and context is free of control characters other
      than newline, carriage return and tab. */
  ghost predicate AllPrintable(c: Config, r: Request, x: Context) {
    && Printable(c.decoyId) && Printable(c.profile) && Printable(x.sourceIp)
    && Printable(r.verb) && Printable(r.path) && Printable(r.userAgent) && Printable(r.username) && Printable(r.password)
    && Printable(r.host) && Printable(r.accept)
    && Printable(c.edgeNodeId) && Printable(c.decoyVersion) && Printable(c.publicEndpoint)
    && Printable(c.site) && Printable(c.environment) && Printable(c.coverageRole)
  }

  lemma PlainKeyReadable(key: string, v: Value)
    requires Plain(key)
    ensures ReadableMember(Member(key, v)) <==> Readable(v)
  {
    hide Readable;
    PlainIsPrintable(key);
  }

  lemma TextReadable(key: string, s: string)
    requires Plain(key)
    ensures ReadableMember(Member(key, Text(s))) <==> Printable(s)
  {
    PlainIsPrintable(key);
  }

  lemma PlainTextReadable(key: string, s: string)
    requires Plain(key) && Plain(s)
    ensures ReadableMember(Member(key, Text(s)))
  {
    PlainIsPrintable(key);
    PlainIsPrintable(s);
  }

  lemma FiveReadable(a: Member, b: Member, c: Member, d: Member, e: Member)
    ensures ReadableMembers([a, b, c, d, e])
       <==> ReadableMember(a) && ReadableMember(b) && ReadableMember(c) && ReadableMember(d) && ReadableMember(e)
  {
    hide ReadableMember;
    var m := [a, b, c, d, e];
    assert m[0] == a && m[1] == b && m[2] == c && m[3] == d && m[4] == e;
  }

  lemma ReadableConcat(a: seq<Member>, b: seq<Member>)
    ensures ReadableMembers(a + b) <==> ReadableMembers(a) && ReadableMembers(b)
  {
    hide ReadableMember;
    assert forall i :: 0 <= i < |a| ==> (a + b)[i] == a[i];
    assert forall i :: 0 <= i < |b| ==> (a + b)[|a| + i] == b[i];
  }

  lemma TagValuesReadable(tags: seq<string>)
    requires TagsSound(tags)
    ensures Readable(List(TagValues(tags)))
  {
    forall i | 0 <= i < |tags|
      ensures Readable(TagValues(tags)[i])
    {
      VocabularyPlain(tags[i]);
      PlainIsPrintable(tags[i]);
    }
  }

  lemma HeadersReadable(r: Request)
    ensures Readable(HeadersValue(r)) <==> Printable(r.host) && Printable(r.accept)
  {
    hide Printable;
    var members := HeadersValue(r).members;
    assert Printable("host") && Printable("accept") by {
      assert Plain("host") && Plain("accept");
      PlainIsPrintable("host");
      PlainIsPrintable("accept");
    }
    assert members[0].value == Text(r.host) && members[1].value == Text(r.accept);
    assert Readable(members[0].value) == Printable(r.host) && Readable(members[1].value) == Printable(r.accept);
  }

  lemma OriginReadable(c: Config, x: Context)
    requires FitsContext(x)
    ensures ReadableMembers(OriginMembers(c, x)) <==> Printable(c.decoyId) && Printable(c.profile) && Printable(x.sourceIp)
  {
    hide ReadableMember, ReadableMembers, Printable, Plain, EventId;
    var m := OriginMembers(c, x);
    OriginKeysPlain();
    EventIdPlain(x);
    PlainTextReadable("event_id", EventId(x));
    PlainTextReadable("ts", x.timestamp);
    TextReadable("decoy_id", c.decoyId);
    TextReadable("profile", c.profile);
    TextReadable("src_ip", x.sourceIp);
    FiveReadable(m[0], m[1], m[2], m[3], m[4]);
  }

  lemma RequestReadable(r: Request)
    ensures ReadableMembers(RequestMembers(r))
       <==> Printable(r.verb) && Printable(r.path) && Printable(r.userAgent) && Printable(r.username) && Printable(r.password)
  {
    hide ReadableMember, ReadableMembers, Printable, Plain;
    var m := RequestMembers(r);
    RequestKeysPlain();
    TextReadable("method", r.verb);
    TextReadable("path", r.path);
    TextReadable("user_agent", r.userAgent);
    TextReadable("username", r.username);
    TextReadable("password", r.password);
    FiveReadable(m[0], m[1], m[2], m[3], m[4]);
  }

  lemma TagsReadable(c: Config, r: Request)
    requires TagsSound(r.tags)
    ensures ReadableMembers(TagMembers(c, r)) <==> Printable(c.edgeNodeId)
  {
    hide ReadableMember, ReadableMembers, Printable, Plain;
    var m := TagMembers(c, r);
    TagKeysPlain();
    CollectorVersionPlain();
    TagValuesReadable(r.tags);
    PlainKeyReadable("suspicious", Bool(r.suspicious));
    PlainKeyReadable("tags", List(TagValues(r.tags)));
    PlainKeyReadable("normalized_tags", List(TagValues(r.tags)));
    PlainTextReadable("collector_version", COLLECTOR_VERSION);
    TextReadable("edge_node_id", c.edgeNodeId);
    FiveReadable(m[0], m[1], m[2], m[3], m[4]);
  }

  lemma OutcomeReadable(c: Config, r: Request, x: Context)
    ensures ReadableMembers(OutcomeMembers(c, r, x))
       <==> Printable(c.decoyVersion) && Printable(r.host) && Printable(r.accept) && Printable(c.publicEndpoint)
  {
    hide ReadableMember, ReadableMembers, Printable, Plain, HeadersValue;
    var m := OutcomeMembers(c, r, x);
    OutcomeKeysPlain();
    HeadersReadable(r);
    TextReadable("decoy_version", c.decoyVersion);
    PlainKeyReadable("status_code", Number(x.statusCode));
    PlainKeyReadable("latency_ms", Number(x.latencyMs));
    PlainKeyReadable("headers_subset", HeadersValue(r));
    TextReadable("public_endpoint", c.publicEndpoint);
    FiveReadable(m[0], m[1], m[2], m[3], m[4]);
  }

  lemma PlaceReadable(c: Config, r: Request)
    ensures ReadableMembers(PlaceMembers(c, r)) <==> Printable(c.site) && Printable(c.environment) && Printable(c.coverageRole)
  {
    hide ReadableMember, ReadableMembers, Printable, Plain, RequestFingerprint, DecoyClass;
    var m := PlaceMembers(c, r);
    PlaceKeysPlain();
    FingerprintPlain(r.verb, r.path, r.userAgent);
    PlainTextReadable("request_fingerprint", RequestFingerprint(r.verb, r.path, r.userAgent));
    ClassPlain(r.tags, r.suspicious);
    PlainTextReadable("event_class", DecoyClass(r.tags, r.suspicious));
    TextReadable("site", c.site);
    TextReadable("environment", c.environment);
    TextReadable("coverage_role", c.coverageRole);
    FiveReadable(m[0], m[1], m[2], m[3], m[4]);
  }

  lemma EventReadableExactly(c: Config, r: Request, x: Context)
    requires TagsSound(r.tags) && FitsContext(x)
    ensures ReadableMembers(EventMembers(c, r, x)) <==> AllPrintable(c, r, x)
  {
    hide ReadableMembers, Printable, OriginMembers, RequestMembers, TagMembers, OutcomeMembers, PlaceMembers;
    var m1, m2, m3, m4, m5 := OriginMembers(c, x), RequestMembers(r), TagMembers(c, r), OutcomeMembers(c, r, x), PlaceMembers(c, r);
    OriginReadable(c, x);
    RequestReadable(r);
    TagsReadable(c, r);
    OutcomeReadable(c, r, x);
    PlaceReadable(c, r);
    ReadableConcat(m1, m2);
    ReadableConcat(m1 + m2, m3);
    ReadableConcat(m1 + m2 + m3, m4);
    ReadableConcat(m1 + m2 + m3 + m4, m5);
  }

  /** Reading the assembled event back yields exactly the original fields and tags when every
      text can be read; with any other control character the reader rejects it. */
  lemma EventRoundTrip(c: Config, r: Request, x: Context)
    requires FitsConfig(c) && FitsFields(r) && TagsSound(r.tags) && FitsContext(x)
    ensures ReadValue(EventText(c, r, x)) == if AllPrintable(c, r, x) then Some((Object(EventMembers(c, r, x)), "")) else None
  {
    hide EventText, EventMembers, Print, ReadValue, Readable, AllPrintable, ReadableMembers;
    var event := Object(EventMembers(c, r, x));
    EventTextPrints(c, r, x);
    EventReadableExactly(c, r, x);
    ReadableParts(event);
    ReadPrinted(event, "");
    assert EventText(c, r, x) + "" == EventText(c, r, x);
  }

  /** Such a request exists: a username of one control byte makes the event unreadable. */
  lemma ControlByteRejected(c: Config, x: Context, fields: seq<string>, password: string, style: Style, ps: seq<Style>)
    requires FitsConfig(c) && FitsContext(x) && forall i :: 0 <= i < |fields| ==> Unbroken(fields[i])
    requires NonZeroBytes(password) && |ps| == |password| < MAX_FIELD_LENGTH
    ensures var r := ParseRequest(PostText("/login", fields, Encode([1 as char], [style]), Encode(password, ps)));
            r.Some? && ReadValue(EventText(c, r.value, x)) == None
  {
    hide PostText, ParseRequest, EventText, ReadValue, FitsFields, FitsConfig, TagsSound, Encode;
    CredentialRoundTrip("/login", fields, [1 as char], password, [style], ps);
    var raw := PostText("/login", fields, Encode([1 as char], [style]), Encode(password, ps));
    ParsedRequestFits(raw);
    EventRoundTrip(c, ParseRequest(raw).value, x);
    assert !PrintableChar([1 as char][0]);
  }

  // ---------- The event by its keys ----------

  /** Where a member of the event is found. */
  lemma LookupEvent(c: Config, r: Request, x: Context, key: string)
    ensures Lookup(EventMembers(c, r, x), key)
         == Lookup(PlaceMembers(c, r), key).Or(Lookup(OutcomeMembers(c, r, x), key).Or(Lookup(TagMembers(c, r), key).Or(
              Lookup(RequestMembers(r), key).Or(Lookup(OriginMembers(c, x), key)))))
  {
    hide OriginMembers, RequestMembers, TagMembers, OutcomeMembers, PlaceMembers, Lookup;
    var m1, m2, m3, m4, m5 := OriginMembers(c, x), RequestMembers(r), TagMembers(c, r), OutcomeMembers(c, r, x), PlaceMembers(c, r);
    LookupConcat(m1 + m2 + m3 + m4, m5, key);
    LookupConcat(m1 + m2 + m3, m4, key);
    LookupConcat(m1 + m2, m3, key);
    LookupConcat(m1, m2, key);
  }

  lemma LookupGroups(c: Config, r: Request, x: Context, key: string)
    ensures Lookup(OriginMembers(c, x), key)
         == if key == "src_ip" then Some(Value.Text(x.sourceIp)) else if key == "profile" then Some(Value.Text(c.profile))
            else if key == "decoy_id" then Some(Value.Text(c.decoyId)) else if key == "ts" then Some(Value.Text(x.timestamp))
            else if key == "event_id" then Some(Value.Text(EventId(x))) else None
    ensures Lookup(RequestMembers(r), key)
         == if key == "password" then Some(Value.Text(r.password)) else if key == "username" then Some(Value.Text(r.username))
            else if key == "user_agent" then Some(Value.Text(r.userAgent)) else if key == "path" then Some(Value.Text(r.path))
            else if key == "method" then Some(Value.Text(r.verb)) else None
    ensures Lookup(TagMembers(c, r), key)
         == if key == "edge_node_id" then Some(Value.Text(c.edgeNodeId))
            else if key == "collector_version" then Some(Value.Text(COLLECTOR_VERSION))
            else if key == "normalized_tags" then Some(List(TagValues(r.tags)))
            else if key == "tags" then Some(List(TagValues(r.tags))) else if key == "suspicious" then Some(Bool(r.suspicious)) else None
    ensures Lookup(OutcomeMembers(c, r, x), key)
         == if key == "public_endpoint" then Some(Value.Text(c.publicEndpoint))
            else if key == "headers_subset" then Some(HeadersValue(r)) else if key == "latency_ms" then Some(Number(x.latencyMs))
            else if key == "status_code" then Some(Number(x.statusCode))
            else if key == "decoy_version" then Some(Value.Text(c.decoyVersion)) else None
    ensures Lookup(PlaceMembers(c, r), key)
         == if key == "coverage_role" then Some(Value.Text(c.coverageRole)) else if key == "environment" then Some(Value.Text(c.environment))
            else if key == "site" then Some(Value.Text(c.site))
            else if key == "event_class" then Some(Value.Text(DecoyClass(r.tags, r.suspicious)))
            else if key == "request_fingerprint" then Some(Value.Text(RequestFingerprint(r.verb, r.path, r.userAgent))) else None
  {
    hide Lookup, EventId, TagValues, DecoyClass, RequestFingerprint, HeadersValue;
    var m1, m2, m3, m4, m5 := OriginMembers(c, x), RequestMembers(r), TagMembers(c, r), OutcomeMembers(c, r, x), PlaceMembers(c, r);
    LookupFive(m1[0], m1[1], m1[2], m1[3], m1[4], key);
    LookupFive(m2[0], m2[1], m2[2], m2[3], m2[4], key);
    LookupFive(m3[0], m3[1], m3[2], m3[3], m3[4], key);
    LookupFive(m4[0], m4[1], m4[2], m4[3], m4[4], key);
    LookupFive(m5[0], m5[1], m5[2], m5[3], m5[4], key);
  }

  lemma OriginByKey(c: Config, r: Request, x: Context)
    ensures var m := EventMembers(c, r, x);
            && Lookup(m, "event_id") == Some(Value.Text(EventId(x)))
            && Lookup(m, "ts") == Some(Value.Text(x.timestamp))
            && Lookup(m, "decoy_id") == Some(Value.Text(c.decoyId))
            && Lookup(m, "profile") == Some(Value.Text(c.profile))
            && Lookup(m, "src_ip") == Some(Value.Text(x.sourceIp))
  {
    hide Lookup, EventMembers, OriginMembers, RequestMembers, TagMembers, OutcomeMembers, PlaceMembers, EventId;
    LookupEvent(c, r, x, "event_id");
    LookupGroups(c, r, x, "event_id");
    LookupEvent(c, r, x, "ts");
    LookupGroups(c, r, x, "ts");
    LookupEvent(c, r, x, "decoy_id");
    LookupGroups(c, r, x, "decoy_id");
    LookupEvent(c, r, x, "profile");
    LookupGroups(c, r, x, "profile");
    LookupEvent(c, r, x, "src_ip");
    LookupGroups(c, r, x, "src_ip");
  }

  lemma RequestByKey(c: Config, r: Request, x: Context)
    ensures var m := EventMembers(c, r, x);
            && Lookup(m, "method") == Some(Value.Text(r.verb))
            && Lookup(m, "path") == Some(Value.Text(r.path))
            && Lookup(m, "user_agent") == Some(Value.Text(r.userAgent))
            && Lookup(m, "username") == Some(Value.Text(r.username))
            && Lookup(m, "password") == Some(Value.Text(r.password))
  {
    hide Lookup, EventMembers, OriginMembers, RequestMembers, TagMembers, OutcomeMembers, PlaceMembers, EventId;
    LookupEvent(c, r, x, "method");
    LookupGroups(c, r, x, "method");
    LookupEvent(c, r, x, "path");
    LookupGroups(c, r, x, "path");
    LookupEvent(c, r, x, "user_agent");
    LookupGroups(c, r, x, "user_agent");
    LookupEvent(c, r, x, "username");
    LookupGroups(c, r, x, "username");
    LookupEvent(c, r, x, "password");
    LookupGroups(c, r, x, "password");
  }

  lemma TagsByKey(c: Config, r: Request, x: Context)
    ensures var m := EventMembers(c, r, x);
            && Lookup(m, "suspicious") == Some(Bool(r.suspicious))
            && Lookup(m, "tags") == Some(List(TagValues(r.tags)))
            && Lookup(m, "normalized_tags") == Some(List(TagValues(r.tags)))
            && Lookup(m, "collector_version") == Some(Value.Text("decoy-runtime/0.2.0"))
            && Lookup(m, "edge_node_id") == Some(Value.Text(c.edgeNodeId))
  {
    hide Lookup, EventMembers, OriginMembers, RequestMembers, TagMembers, OutcomeMembers, PlaceMembers, TagValues;
    LookupEvent(c, r, x, "suspicious");
    LookupGroups(c, r, x, "suspicious");
    LookupEvent(c, r, x, "tags");
    LookupGroups(c, r, x, "tags");
    LookupEvent(c, r, x, "normalized_tags");
    LookupGroups(c, r, x, "normalized_tags");
    LookupEvent(c, r, x, "collector_version");
    LookupGroups(c, r, x, "collector_version");
    LookupEvent(c, r, x, "edge_node_id");
    LookupGroups(c, r, x, "edge_node_id");
  }

  lemma OutcomeByKey(c: Config, r: Request, x: Context)
    ensures var m := EventMembers(c, r, x);
            && Lookup(m, "decoy_version") == Some(Value.Text(c.decoyVersion))
            && Lookup(m, "status_code") == Some(Number(x.statusCode))
            && Lookup(m, "latency_ms") == Some(Number(x.latencyMs))
            && Lookup(m, "headers_subset") == Some(Object([Member("host", Value.Text(r.host)), Member("accept", Value.Text(r.accept))]))
            && Lookup(m, "public_endpoint") == Some(Value.Text(c.publicEndpoint))
  {
    hide Lookup, EventMembers, OriginMembers, RequestMembers, TagMembers, OutcomeMembers, PlaceMembers, EventId;
    LookupEvent(c, r, x, "decoy_version");
    LookupGroups(c, r, x, "decoy_version");
    LookupEvent(c, r, x, "status_code");
    LookupGroups(c, r, x, "status_code");
    LookupEvent(c, r, x, "latency_ms");
    LookupGroups(c, r, x, "latency_ms");
    LookupEvent(c, r, x, "headers_subset");
    LookupGroups(c, r, x, "headers_subset");
    LookupEvent(c, r, x, "public_endpoint");
    LookupGroups(c, r, x, "public_endpoint");
  }

  lemma PlaceByKey(c: Config, r: Request, x: Context)
    ensures var m := EventMembers(c, r, x);
            && Lookup(m, "request_fingerprint") == Some(Value.Text(RequestFingerprint(r.verb, r.path, r.userAgent)))
            && Lookup(m, "event_class") == Some(Value.Text(DecoyClass(r.tags, r.suspicious)))
            && Lookup(m, "site") == Some(Value.Text(c.site))
            && Lookup(m, "environment") == Some(Value.Text(c.environment))
            && Lookup(m, "coverage_role") == Some(Value.Text(c.coverageRole))
  {
    hide Lookup, EventMembers, OriginMembers, RequestMembers, TagMembers, OutcomeMembers, PlaceMembers, RequestFingerprint, DecoyClass;
    LookupEvent(c, r, x, "request_fingerprint");
    LookupGroups(c, r, x, "request_fingerprint");
    LookupEvent(c, r, x, "event_class");
    LookupGroups(c, r, x, "event_class");
    LookupEvent(c, r, x, "site");
    LookupGroups(c, r, x, "site");
    LookupEvent(c, r, x, "environment");
    LookupGroups(c, r, x, "environment");
    LookupEvent(c, r, x, "coverage_role");
    LookupGroups(c, r, x, "coverage_role");
  }

  // ---------- Identifiers ----------

  ghost predicate DashFree(s: string) { '-' !in s }

  lemma HeadBeforeDash(a: string, b: string, x: string, y: string)
    requires DashFree(a) && DashFree(b) && a + "-" + x == b + "-" + y
    ensures a == b && x == y
  {
    var s := a + "-" + x;
    assert s[|a|] == '-' && s[|b|] == '-';
    assert a == s[..|a|] && b == s[..|b|] && x == s[|a| + 1..] && y == s[|b| + 1..];
  }

  lemma DecimalDashFree(n: nat)
    ensures DashFree(Decimal(n))
  {
    hide Digits;
    DigitsHold(n);
  }

  lemma DecimalInjective(m: nat, n: nat)
    requires Decimal(m) == Decimal(n)
    ensures m == n
  {
    hide Digits, Extend;
    DigitsHold(m);
    DigitsHold(n);
  }

  lemma EventIdWhole(x: Context)
    requires 0 <= x.seconds < 0x8000_0000_0000_0000 && 0 <= x.microseconds < 1_000_000 && x.counter < 0x1_0000_0000_0000_0000
    ensures EventId(x) == "evt-" + Decimal(x.seconds) + "-" + Decimal(x.microseconds) + "-" + Decimal(x.counter)
  {
    hide Digits;
    LongBounded(x.seconds);
    LongBounded(x.microseconds);
    CounterBounded(x.counter);
  }

  lemma CounterBounded(n: nat)
    requires n < 0x1_0000_0000_0000_0000
    ensures |Decimal(n)| <= 20
  {
    assert Power(10, 5) == 100_000 && Power(10, 10) == 10_000_000_000;
    assert Power(10, 15) == 1_000_000_000_000_000 && Power(10, 20) == 100_000_000_000_000_000_000;
    DigitsBounded(n, 20, Power(10, 20));
  }

  /** Two events share an identifier only when second, microsecond and counter are all the same;
      so the counter alone keeps one decoy's events apart. */
  lemma EventIdsDistinct(x: Context, y: Context)
    requires 0 <= x.seconds < 0x8000_0000_0000_0000 && 0 <= x.microseconds < 1_000_000 && x.counter < 0x1_0000_0000_0000_0000
    requires 0 <= y.seconds < 0x8000_0000_0000_0000 && 0 <= y.microseconds < 1_000_000 && y.counter < 0x1_0000_0000_0000_0000
    ensures EventId(x) == EventId(y) <==> x.seconds == y.seconds && x.microseconds == y.microseconds && x.counter == y.counter
  {
    hide Decimal, EventId;
    EventIdWhole(x);
    EventIdWhole(y);
    if EventId(x) == EventId(y) {
      var s, s' := Decimal(x.seconds), Decimal(y.seconds);
      var u, u' := Decimal(x.microseconds), Decimal(y.microseconds);
      var n, n' := Decimal(x.counter), Decimal(y.counter);
      assert EventId(x)[4..] == s + "-" + (u + "-" + n) && EventId(y)[4..] == s' + "-" + (u' + "-" + n');
      DecimalDashFree(x.seconds);
      DecimalDashFree(y.seconds);
      DecimalDashFree(x.microseconds);
      DecimalDashFree(y.microseconds);
      HeadBeforeDash(s, s', u + "-" + n, u' + "-" + n');
      HeadBeforeDash(u, u', n, n');
      DecimalInjective(x.seconds, y.seconds);
      DecimalInjective(x.microseconds, y.microseconds);
      DecimalInjective(x.counter, y.counter);
    }
  }

  // ---------- The heartbeat ----------

  function HeartbeatFields(c: Config, timestamp: string, uptime: int, backlog: int): seq<Field> {
    [Field("ts", Quoted(timestamp)),
     Field("decoy_id", EscapedText(c.decoyId, MAX_HOSTNAME_LENGTH)),
     Field("edge_node_id", EscapedText(c.edgeNodeId, MAX_HOSTNAME_LENGTH)),
     Field("decoy_version", EscapedText(c.decoyVersion, MAX_PROFILE_LENGTH)),
     Field("public_endpoint", EscapedText(c.publicEndpoint, MAX_ENDPOINT_LENGTH))]
    + [Field("profile", EscapedText(c.profile, MAX_PROFILE_LENGTH)),
       Field("uptime_seconds", Decimal(uptime)),
       Field("listen_port", Decimal(c.listenPort)),
       Field("site", EscapedText(c.site, MAX_HOSTNAME_LENGTH)),
       Field("environment", EscapedText(c.environment, MAX_ENVIRONMENT_LENGTH))]
    + [Field("coverage_role", EscapedText(c.coverageRole, MAX_LABEL_LENGTH)),
       Field("runtime_state", Quoted("running")),
       Field("relay_queue_backlog", Decimal(backlog)),
       Field("relay_health", Quoted("healthy"))]
  }

  function HeartbeatText(c: Config, timestamp: string, uptime: int, backlog: int): string {
    "{" + Fields(HeartbeatFields(c, timestamp, uptime, backlog)) + "}"
  }

  predicate Int64(n: int) { -0x8000_0000_0000_0000 <= n < 0x8000_0000_0000_0000 }

  lemma LongBounded(n: int)
    requires Int64(n)
    ensures |Decimal(n)| <= 20
  {
    assert Power(10, 5) == 100_000 && Power(10, 10) == 10_000_000_000;
    assert Power(10, 15) == 1_000_000_000_000_000 && Power(10, 19) == 10_000_000_000_000_000_000;
    DigitsBounded(if n < 0 then -n else n, 19, Power(10, 19));
  }

  lemma FourLength(a: Field, b: Field, c: Field, d: Field)
    ensures |Fields([a, b, c, d])| == 15 + |a.key| + |a.text| + |b.key| + |b.text| + |c.key| + |c.text| + |d.key| + |d.text|
  {
    hide Fields;
    LastField(d);
    FirstField(c, [d]);
    FirstField(b, [c, d]);
    FirstField(a, [b, c, d]);
    assert [a] + [b, c, d] == [a, b, c, d] && [b] + [c, d] == [b, c, d] && [c] + [d] == [c, d];
  }

  lemma HeartbeatFits(c: Config, timestamp: string, uptime: int, backlog: int)
    requires FitsConfig(c) && |timestamp| < 32 && Int64(uptime) && Int32(backlog)
    ensures |HeartbeatText(c, timestamp, uptime, backlog)| < HEARTBEAT_CAPACITY
  {
    hide EscapedText, Decimal, Fields;
    var f := HeartbeatFields(c, timestamp, uptime, backlog);
    TextsBounded(c);
    LongBounded(uptime);
    DecimalBounded(c.listenPort);
    DecimalBounded(backlog);
    FiveLength(f[0], f[1], f[2], f[3], f[4]);
    FiveLength(f[5], f[6], f[7], f[8], f[9]);
    FourLength(f[10], f[11], f[12], f[13]);
    FieldsConcat([f[0], f[1], f[2], f[3], f[4]], [f[5], f[6], f[7], f[8], f[9]]);
    FieldsConcat([f[0], f[1], f[2], f[3], f[4]] + [f[5], f[6], f[7], f[8], f[9]], [f[10], f[11], f[12], f[13]]);
  }

  lemma TextsBounded(c: Config)
    requires FitsConfig(c)
    ensures |EscapedText(c.decoyId, MAX_HOSTNAME_LENGTH)| <= 128 && |EscapedText(c.edgeNodeId, MAX_HOSTNAME_LENGTH)| <= 128
    ensures |EscapedText(c.decoyVersion, MAX_PROFILE_LENGTH)| <= 64 && |EscapedText(c.profile, MAX_PROFILE_LENGTH)| <= 64
    ensures |EscapedText(c.publicEndpoint, MAX_ENDPOINT_LENGTH)| <= 512 && |EscapedText(c.site, MAX_HOSTNAME_LENGTH)| <= 128
    ensures |EscapedText(c.environment, MAX_ENVIRONMENT_LENGTH)| <= 128 && |EscapedText(c.coverageRole, MAX_LABEL_LENGTH)| <= 256
  {
    hide EscapeInto;
    DoubleBufferSuffices(c.decoyId, MAX_HOSTNAME_LENGTH);
    DoubleBufferSuffices(c.edgeNodeId, MAX_HOSTNAME_LENGTH);
    DoubleBufferSuffices(c.decoyVersion, MAX_PROFILE_LENGTH);
    DoubleBufferSuffices(c.profile, MAX_PROFILE_LENGTH);
    DoubleBufferSuffices(c.publicEndpoint, MAX_ENDPOINT_LENGTH);
    DoubleBufferSuffices(c.site, MAX_HOSTNAME_LENGTH);
    DoubleBufferSuffices(c.environment, MAX_ENVIRONMENT_LENGTH);
    DoubleBufferSuffices(c.coverageRole, MAX_LABEL_LENGTH);
  }

  // ---------- Dispatch ----------

  function IngestHeader(c: Config): string {
    if c.collectorToken == "" then "" else Clip("X-Ingest-Key: " + c.collectorToken + "\r\n", 256)
  }

  function RequestText(c: Config, path: string, payload: string): string {
    "POST " + path + " HTTP/1.1\r\n"
    + "Host: " + c.collectorHost + ":" + Decimal(c.collectorPort) + "\r\n"
    + "User-Agent: unikernel-decoy/" + c.decoyVersion + "\r\n"
    + "Content-Type: application/json\r\n"
    + "Content-Length: " + Decimal(|payload|) + "\r\n"
    + IngestHeader(c)
    + "Connection: close\r\n"
    + "\r\n"
    + payload
  }

  /** The wrapped request, or nothing when it would be truncated. */
  function Wrapped(c: Config, path: string, payload: string): Option<string> {
    if |RequestText(c, path, payload)| >= REQUEST_CAPACITY then None else Some(RequestText(c, path, payload))
  }

  lemma WrappedFits(c: Config, path: string, payload: string)
    requires FitsConfig(c) && |path| < 128 && |payload| < EVENT_CAPACITY
    ensures Wrapped(c, path, payload) == Some(RequestText(c, path, payload))
  {
    hide Decimal;
    DecimalBounded(c.collectorPort);
    DecimalBounded(|payload|);
    assert |IngestHeader(c)| < 256;
  }

  /** What `send_event_to_collector` hands to the network, or nothing after a truncation. */
  function EventRequest(c: Config, r: Request, x: Context): Option<string> {
    var payload := EventText(c, r, x);
    if |payload| >= EVENT_CAPACITY then None else Wrapped(c, c.collectorPath, payload)
  }

  function HeartbeatRequest(c: Config, timestamp: string, uptime: int, backlog: int): Option<string> {
    var payload := HeartbeatText(c, timestamp, uptime, backlog);
    if |payload| >= HEARTBEAT_CAPACITY then None else Wrapped(c, "/heartbeat", payload)
  }

  /** For every configuration and every parsed request none of the truncation branches is
      taken: both payloads and both wrapped requests fit. */
  lemma NothingIsTruncated(c: Config, raw: string, x: Context, uptime: int, backlog: int)
    requires FitsConfig(c) && FitsContext(x) && Int64(uptime) && Int32(backlog) && ParseRequest(raw).Some?
    ensures var r := ParseRequest(raw).value;
            EventRequest(c, r, x) == Some(RequestText(c, c.collectorPath, EventText(c, r, x)))
    ensures HeartbeatRequest(c, x.timestamp, uptime, backlog)
         == Some(RequestText(c, "/heartbeat", HeartbeatText(c, x.timestamp, uptime, backlog)))
  {
    hide EventText, HeartbeatText, RequestText, ParseRequest;
    var r := ParseRequest(raw).value;
    ParsedRequestFits(raw);
    EventTextPrints(c, r, x);
    WrappedFits(c, c.collectorPath, EventText(c, r, x));
    HeartbeatFits(c, x.timestamp, uptime, backlog);
    WrappedFits(c, "/heartbeat", HeartbeatText(c, x.timestamp, uptime, backlog));
  }
}
