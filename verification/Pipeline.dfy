/**
 From a request to the decoy to a row of the control plane: the event that the decoy
 prints is the payload that the control plane reads, and credentials posted to the
 decoy arrive behind the relay.
 */
module Pipeline {
  import opened Ascii
  import opened Options
  import opened JsonValues
  import opened RequestParser
  import opened FormDecoding
  import opened Fingerprint
  import opened HttpRequests
  import opened EventPayload
  import opened Ingestion
  import opened EdgeRelay
  import opened EndToEnd
  import DetectionEngine

  // ---------- Reading a payload ----------

  function TextOf(v: Option<Value>): Option<string> {
    match v
    case Some(Text(s)) => Some(s)
    case _ => None
  }

  /** An absent member takes its default; one of another type is an error. */
  function TextOr(v: Option<Value>, default: string): Option<string> { if v == None then Some(default) else TextOf(v) }

  function NullableText(v: Option<Value>): Option<Option<string>> {
    if v == None then Some(None) else if TextOf(v) == None then None else Some(TextOf(v))
  }

  function BoolOr(v: Option<Value>, default: bool): Option<bool> {
    match v
    case None => Some(default)
    case Some(Bool(b)) => Some(b)
    case _ => None
  }

  function Texts(items: seq<Value>): Option<seq<string>> {
    if |items| == 0 then Some([])
    else
      var n := |items| - 1;
      match (Texts(items[..n]), items[n])
      case (Some(earlier), Text(s)) => Some(earlier + [s])
      case _ => None
  }

  function TextsOr(v: Option<Value>): Option<seq<string>> {
    match v
    case None => Some([])
    case Some(List(items)) => Texts(items)
    case _ => None
  }

  /** The posted object as the ingest endpoint validates it; the time stamp is parsed elsewhere,
      and members that insertion never reads are ignored. */
  function PayloadOf(v: Value, ts: Option<DetectionEngine.Time>): Option<Payload> {
    if !v.Object? then None
    else
      var m := v.members;
      match (NullableText(Lookup(m, "event_id")), TextOf(Lookup(m, "decoy_id")), NullableText(Lookup(m, "src_ip")),
             TextOr(Lookup(m, "method"), "GET"), TextOr(Lookup(m, "path"), "/"), TextOr(Lookup(m, "username"), ""),
             TextOr(Lookup(m, "password"), ""), BoolOr(Lookup(m, "suspicious"), false))
      case (Some(id), Some(decoy), Some(src), Some(verb), Some(path), Some(username), Some(password), Some(suspicious)) =>
        (match (TextsOr(Lookup(m, "tags")), TextsOr(Lookup(m, "normalized_tags")), NullableText(Lookup(m, "request_fingerprint")),
                NullableText(Lookup(m, "event_class")), TextOf(Lookup(m, "profile")))
         case (Some(tags), Some(normalized), Some(fingerprint), Some(eventClass), Some(_)) =>
           Some(Payload(id, ts, decoy, src, Upper(verb), path, username, password, suspicious, tags, normalized, fingerprint, eventClass))
         case _ => None)
      case _ => None
  }

  /** What arrives when a text is posted; the reader has to reach its end. */
  function Receive(text: string, ts: Option<DetectionEngine.Time>): Option<Payload> {
    match ReadValue(text)
    case None => None
    case Some((v, rest)) => if rest == "" then PayloadOf(v, ts) else None
  }

  /** What a posted object means that names only its decoy and profile. */
  lemma AbsentMembers(decoy: string, profile: string, ts: Option<DetectionEngine.Time>)
    ensures PayloadOf(Object(Sparse(decoy, profile)), ts)
         == Some(Payload(None, ts, decoy, None, "GET", "/", "", "", false, [], [], None, None))
  {
    hide Lookup, Sparse;
    AbsentFirst(decoy, profile);
    AbsentSecond(decoy, profile);
    PresentTwo(decoy, profile);
    UpperGet();
  }

  function Sparse(decoy: string, profile: string): seq<Member> {
    [Member("decoy_id", Value.Text(decoy)), Member("profile", Value.Text(profile))]
  }

  lemma AbsentFirst(decoy: string, profile: string)
    ensures var m := Sparse(decoy, profile);
            && Lookup(m, "event_id") == None
            && Lookup(m, "src_ip") == None
            && Lookup(m, "method") == None
            && Lookup(m, "path") == None
            && Lookup(m, "username") == None
            && Lookup(m, "password") == None
  {
    hide Lookup;
    var m := Sparse(decoy, profile);
    LookupTwo(m[0], m[1], "event_id");
    LookupTwo(m[0], m[1], "src_ip");
    LookupTwo(m[0], m[1], "method");
    LookupTwo(m[0], m[1], "path");
    LookupTwo(m[0], m[1], "username");
    LookupTwo(m[0], m[1], "password");
  }

  lemma AbsentSecond(decoy: string, profile: string)
    ensures var m := Sparse(decoy, profile);
            && Lookup(m, "suspicious") == None
            && Lookup(m, "tags") == None
            && Lookup(m, "normalized_tags") == None
            && Lookup(m, "request_fingerprint") == None
            && Lookup(m, "event_class") == None
  {
    hide Lookup;
    var m := Sparse(decoy, profile);
    LookupTwo(m[0], m[1], "suspicious");
    LookupTwo(m[0], m[1], "tags");
    LookupTwo(m[0], m[1], "normalized_tags");
    LookupTwo(m[0], m[1], "request_fingerprint");
    LookupTwo(m[0], m[1], "event_class");
  }

  lemma PresentTwo(decoy: string, profile: string)
    ensures var m := Sparse(decoy, profile);
            Lookup(m, "decoy_id") == Some(Value.Text(decoy)) && Lookup(m, "profile") == Some(Value.Text(profile))
  {
    hide Lookup;
    var m := Sparse(decoy, profile);
    LookupTwo(m[0], m[1], "decoy_id");
    LookupTwo(m[0], m[1], "profile");
  }

  lemma UpperGet()
    ensures Upper("GET") == "GET"
  {
    assert "GET"[1..] == "ET" && "ET"[1..] == "T" && "T"[1..] == "";
  }

  lemma LookupTwo(a: Member, b: Member, key: string)
    ensures Lookup([a, b], key) == if b.key == key then Some(b.value) else if a.key == key then Some(a.value) else None
  {
    assert [a, b][..1] == [a] && [a][..0] == [];
    assert Lookup([a], key) == if a.key == key then Some(a.value) else None;
  }

  /** An object without a decoy, or without a profile, is rejected. */
  lemma NamelessRejected(v: Value, ts: Option<DetectionEngine.Time>)
    requires v.Object? ==> TextOf(Lookup(v.members, "decoy_id")) == None || TextOf(Lookup(v.members, "profile")) == None
    ensures PayloadOf(v, ts) == None
  {
    hide Lookup;
  }

  // ---------- The decoy's event as a payload ----------

  /** What the decoy reports about a request, as the control plane should see it. */
  function Reported(c: Config, r: Request, x: Context, ts: Option<DetectionEngine.Time>): Payload {
    Payload(Some(EventId(x)), ts, c.decoyId, Some(x.sourceIp), Upper(r.verb), r.path, r.username, r.password, r.suspicious,
            r.tags, r.tags, Some(RequestFingerprint(r.verb, r.path, r.userAgent)), Some(DecoyClass(r.tags, r.suspicious)))
  }

  lemma {:induction false} TagValuesRead(tags: seq<string>)
    ensures Texts(TagValues(tags)) == Some(tags)
  {
    if |tags| > 0 {
      var n := |tags| - 1;
      TagValuesRead(tags[..n]);
      assert TagValues(tags)[..n] == TagValues(tags[..n]);
      assert tags == tags[..n] + [tags[n]];
    }
  }

  lemma EventBecomesPayload(c: Config, r: Request, x: Context, ts: Option<DetectionEngine.Time>)
    ensures PayloadOf(Object(EventMembers(c, r, x)), ts) == Some(Reported(c, r, x, ts))
  {
    hide Lookup, EventMembers, TagValues, Texts, RequestFingerprint, DecoyClass, EventId, Upper;
    OriginByKey(c, r, x);
    RequestByKey(c, r, x);
    TagsByKey(c, r, x);
    PlaceByKey(c, r, x);
    TagValuesRead(r.tags);
  }

  /** The event the decoy assembles is received as the payload that reports the request, exactly
      when no text has a control character that the reader rejects. */
  lemma ReportArrivesExactly(c: Config, r: Request, x: Context, ts: Option<DetectionEngine.Time>)
    requires FitsConfig(c) && FitsFields(r) && TagsSound(r.tags) && FitsContext(x)
    ensures Receive(EventText(c, r, x), ts) == if AllPrintable(c, r, x) then Some(Reported(c, r, x, ts)) else None
  {
    hide EventText, EventMembers, ReadValue, PayloadOf, Reported, AllPrintable, FitsConfig, FitsContext;
    EventRoundTrip(c, r, x);
    EventBecomesPayload(c, r, x, ts);
  }

  // ---------- The stored row ----------

  lemma VocabularyClean(t: string)
    requires t in VOCABULARY
    ensures t != "" && Strip(t) == t && Lower(t) == t
  {
    hide Strip, Lower;
    if t == "credential_attempt" {
      TagTextIsClean(t);
    } else {
      TagNamesAreClean(t);
    }
  }

  lemma DecoyTagsClean(tags: seq<string>)
    requires TagsSound(tags)
    ensures CleanTags(tags) == TagSet(tags)
  {
    hide Strip, Lower;
    forall t | t in tags
      ensures t != "" && Strip(t) == t && Lower(t) == t
    {
      VocabularyClean(t);
    }
    CleanSetIsClean(tags, TagSet(tags));
  }

  lemma ReportNamed(c: Config, r: Request, x: Context)
    ensures EventId(x) != "" && RequestFingerprint(r.verb, r.path, r.userAgent) != "" && DecoyClass(r.tags, r.suspicious) != ""
  {
    hide Decimal, Hex, Hash;
    FirstClassValues(r.tags);
    assert |EventId(x)| >= 4;
  }

  /** The row of a reported request, column by column: identifier, class and fingerprint are the
      decoy's, texts are trimmed, the address is kept, and the decoy's tags come with those the
      texts imply. */
  ghost predicate StoredAs(c: Config, r: Request, x: Context, ts: Option<DetectionEngine.Time>, e: DetectionEngine.Event) {
    && e.eventId == EventId(x) && e.decoyId == Strip(c.decoyId)
    && (x.sourceIp != "" ==> e.srcIp == Strip(x.sourceIp)) && (x.sourceIp == "" ==> e.srcIp == "unknown")
    && (ts.Some? ==> e.occurredAt == ts.value)
    && e.verb == Upper(r.verb) && e.suspicious == r.suspicious
    && (Strip(r.path) != "" ==> e.path == Strip(r.path)) && (Strip(r.path) == "" ==> e.path == "/")
    && e.username == Strip(r.username) && e.password == Strip(r.password)
    && e.eventClass == DecoyClass(r.tags, r.suspicious)
    && e.requestFingerprint == RequestFingerprint(r.verb, r.path, r.userAgent)
    && TagSet(r.tags) <= e.normalizedTags
    && (r.tags != [] ==> e.normalizedTags == TagSet(r.tags) + WithImpliedTags({}, Reported(c, r, x, ts)))
  }

  lemma StoredReport(c: Config, r: Request, x: Context, ts: Option<DetectionEngine.Time>, s: Supply)
    requires TagsSound(r.tags)
    ensures StoredAs(c, r, x, ts, Normalize(Reported(c, r, x, ts), s))
  {
    hide Strip, CleanTags, WithImpliedTags, ClassifyEvent, RequestFingerprint, DecoyClass, EventId, Upper, TagsSound, NormalizedTags;
    var p := Reported(c, r, x, ts);
    ReportNamed(c, r, x);
    DecoyTagsClean(r.tags);
    NormalizedTagsParts(p);
    StoredRow(p, s);
    assert r.tags != [] ==> r.tags[0] in TagSet(r.tags);
  }

  // ---------- From the attacker's form to the credential table ----------

  lemma {:induction false} CountedRowExists(rows: seq<Credential>, id: string)
    ensures CredentialCount(rows, id) > 0 <==> exists c :: c in rows && c.eventId == id
  {
    if |rows| > 0 {
      var n := |rows| - 1;
      CountedRowExists(rows[..n], id);
      assert rows == rows[..n] + [rows[n]];
    }
  }

  /** A username and a password posted to the decoy as a form, with any target, any further header
      lines and any spelling, are reported and read as they were typed, unless some text of the
      event has a control character; and once the report was acknowledged and nothing was lost,
      then, with spool and thread empty, it has exactly one event row, and the credential table
      holds exactly one row for it with both texts trimmed, or none if both are blank. */
  lemma PostedCredentialsAreStored(target: string, fields: seq<string>, username: string, password: string,
                                   us: seq<Style>, ps: seq<Style>,
                                   c: Config, x: Context, ts: Option<DetectionEngine.Time>, run: seq<Move>, max: int)
    requires Unbroken(target) && !IsBlank(target[0]) && forall i :: 0 <= i < |fields| ==> Unbroken(fields[i])
    requires NonZeroBytes(username) && NonZeroBytes(password)
    requires |us| == |username| < MAX_FIELD_LENGTH && |ps| == |password| < MAX_FIELD_LENGTH
    requires FitsConfig(c) && FitsContext(x)
    requires var parsed := ParseRequest(PostText(target, fields, Encode(username, us), Encode(password, ps)));
             parsed.Some? ==> AllPrintable(c, parsed.value, x) && AcknowledgedWithoutLoss(run, max, Reported(c, parsed.value, x, ts))
    ensures ParseRequest(PostText(target, fields, Encode(username, us), Encode(password, ps))).Some?
    ensures var r := ParseRequest(PostText(target, fields, Encode(username, us), Encode(password, ps))).value;
            var up := ExecFrom(Start(), run, max).up;
            && Receive(EventText(c, r, x), ts) == Some(Reported(c, r, x, ts))
            && RowCount(up.events, EventId(x)) == 1
            && (Strip(username) == "" && Strip(password) == "" ==> CredentialCount(up.credentials, EventId(x)) == 0)
            && (Strip(username) != "" || Strip(password) != "" ==>
                  && CredentialCount(up.credentials, EventId(x)) == 1
                  && exists row :: row in up.credentials && row.eventId == EventId(x)
                                   && row.username == Strip(username) && row.password == Strip(password))
  {
    hide PostText, ParseRequest, EventText, Receive, AllPrintable, FitsConfig, FitsContext, FitsFields, TagsSound, Encode;
    hide Strip, ExecFrom, RowCount, CredentialCount, EventId, AcknowledgedWithoutLoss, Reported, Unbroken, NonZeroBytes;
    var raw := PostText(target, fields, Encode(username, us), Encode(password, ps));
    CredentialRoundTrip(target, fields, username, password, us, ps);
    ParsedRequestFits(raw);
    var r := ParseRequest(raw).value;
    ReportArrivesExactly(c, r, x, ts);
    ReportIsStored(c, r, x, ts, run, max);
  }

  /** A report that was acknowledged, in a run that lost nothing and has come to rest. */
  lemma ReportIsStored(c: Config, r: Request, x: Context, ts: Option<DetectionEngine.Time>, run: seq<Move>, max: int)
    requires AcknowledgedWithoutLoss(run, max, Reported(c, r, x, ts))
    ensures var up := ExecFrom(Start(), run, max).up;
            && RowCount(up.events, EventId(x)) == 1
            && (Strip(r.username) == "" && Strip(r.password) == "" ==> CredentialCount(up.credentials, EventId(x)) == 0)
            && (Strip(r.username) != "" || Strip(r.password) != "" ==>
                  && CredentialCount(up.credentials, EventId(x)) == 1
                  && exists row :: row in up.credentials && row.eventId == EventId(x)
                                   && row.username == Strip(r.username) && row.password == Strip(r.password))
  {
    hide Strip, ExecFrom, RowCount, CredentialCount, EventId, RequestFingerprint, DecoyClass, Upper, Overflows, LossyWriteBack, RelayRun, Agree;
    var p := Reported(c, r, x, ts);
    ReportNamed(c, r, x);
    ExactlyOnceWithoutLoss(run, max, p);
    var rows := ExecFrom(Start(), run, max).up.credentials;
    CountedRowExists(rows, EventId(x));
    forall row | row in rows && row.eventId == EventId(x)
      ensures row.username == Strip(r.username) && row.password == Strip(r.password)
    {
      CredentialContents(run, max, p, row);
    }
  }

  /** In every run, whatever else happens in it: the rows stored for a reported request, with one
      report under its identifier, are that request's; the credential row names its address, its
      decoy and its time. */
  lemma ReportedRowsHold(c: Config, raw: string, x: Context, ts: Option<DetectionEngine.Time>, run: seq<Move>, max: int)
    requires ParseRequest(raw).Some?
    requires var p := Reported(c, ParseRequest(raw).value, x, ts);
             OneReport(ExecFrom(Start(), run, max).posted, p) && EventId(x) !in ExecFrom(Start(), run, max).up.issued
    ensures var up := ExecFrom(Start(), run, max).up;
            && (forall e :: e in up.events && e.eventId == EventId(x) ==> StoredAs(c, ParseRequest(raw).value, x, ts, e))
            && (forall row :: row in up.credentials && row.eventId == EventId(x) ==>
                  && (x.sourceIp != "" ==> row.srcIp == Strip(x.sourceIp)) && (x.sourceIp == "" ==> row.srcIp == "unknown")
                  && row.decoyId == Strip(c.decoyId) && (ts.Some? ==> row.attemptedAt == ts.value))
  {
    hide ParseRequest, StoredAs, FitsFields, TagsSound, Strip, ExecFrom, EventId, RequestFingerprint, DecoyClass, Upper, OneReport;
    var up, r := ExecFrom(Start(), run, max).up, ParseRequest(raw).value;
    var p := Reported(c, r, x, ts);
    ParsedRequestFits(raw);
    ReportNamed(c, r, x);
    forall e | e in up.events && e.eventId == EventId(x)
      ensures StoredAs(c, r, x, ts, e)
    {
      var t := RowIsTheReport(run, max, p, e);
      StoredReport(c, r, x, ts, t);
    }
    forall row | row in up.credentials && row.eventId == EventId(x)
      ensures (x.sourceIp != "" ==> row.srcIp == Strip(x.sourceIp)) && (x.sourceIp == "" ==> row.srcIp == "unknown")
      ensures row.decoyId == Strip(c.decoyId) && (ts.Some? ==> row.attemptedAt == ts.value)
    {
      CredentialSource(run, max, p, row);
    }
  }

  /** The run acknowledged the payload, lost nothing and has come to rest; whatever else was
      posted under the identifier agrees on the credentials. */
  ghost predicate AcknowledgedWithoutLoss(run: seq<Move>, max: int, p: Payload)
  {
    var s := ExecFrom(Start(), run, max);
    && !Overflows(RelayRun(run, max), max) && !LossyWriteBack(RelayRun(run, max), max)
    && s.relay.thread == Idle && s.relay.spool == [] && p in s.answered
    && Agree(s.posted, p) && (HasId(p) ==> p.eventId.value !in s.up.issued)
  }
}
