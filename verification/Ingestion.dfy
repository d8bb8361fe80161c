/**
 From a posted payload to an event row: defaulting, trimming, tag normalisation
 and classification, then deduplicated insertion with its credential row.
 Letters beyond ASCII are not folded here.
 */
module Ingestion {
  import opened Ascii
  import opened Options
  import opened CStrings
  import opened DetectionEngine
  import opened Draining

  // ---------- Text helpers ----------

  /** White space as Python's `strip` sees it: more than C's, also within ASCII. */
  predicate IsSpace(c: char) {
    var n := c as int;
    || 0x09 <= n <= 0x0d || 0x1c <= n <= 0x20 || n == 0x85 || n == 0xa0 || n == 0x1680 || 0x2000 <= n <= 0x200a
    || n == 0x2028 || n == 0x2029 || n == 0x202f || n == 0x205f || n == 0x3000
  }

  function StripLeft(s: string): string { if s != "" && IsSpace(s[0]) then StripLeft(s[1..]) else s }

  function StripRight(s: string): string {
    if s != "" && IsSpace(s[|s| - 1]) then StripRight(s[..|s| - 1]) else s
  }

  function Strip(s: string): string { StripRight(StripLeft(s)) }

  predicate Contains(haystack: string, needle: string) {
    exists i :: 0 <= i <= |haystack| && At(haystack, needle, i)
  }

  // ---------- Payloads ----------

  /** A posted event; the request method has already been put in upper case. */
  datatype Payload = Payload(
    eventId: Option<string>,
    ts: Option<Time>,
    decoyId: string,
    srcIp: Option<string>,
    verb: string,
    path: string,
    username: string,
    password: string,
    suspicious: bool,
    tags: seq<string>,
    normalizedTags: seq<string>,
    requestFingerprint: Option<string>,
    eventClass: Option<string>)

  /** What the environment supplies to one insertion: the clock, a fresh identifier and the
      digest of the request text. */
  datatype Supply = Supply(now: Time, uuid: string, digest: string)

  /** Python's `x or default`: an absent and an empty string alike give the default. */
  function OrElse(x: Option<string>, default: string): string {
    if x == None || x.value == "" then default else x.value
  }

  function CleanTags(tags: seq<string>): set<string> { set t | t in tags && Strip(t) != "" :: Lower(Strip(t)) }

  function SearchText(p: Payload): string { Lower(p.username + " " + p.password + " " + Lower(p.path)) }

  function AddIf(tags: set<string>, condition: bool, tag: string): set<string> {
    if condition then tags + {tag} else tags
  }

  /** Adds the tags that path, body and method imply whatever the sender claims. */
  function WithImpliedTags(claimed: set<string>, p: Payload): set<string> {
    var path, text := Lower(p.path), SearchText(p);
    var t1 := AddIf(claimed, p.path in SENSITIVE_PATHS, "sensitive_path_discovery");
    var t2 := AddIf(t1, Contains(path, "/admin") || Contains(path, "/config") || Contains(path, "/status"),
                    "admin_panel_enumeration");
    var t3 := AddIf(t2, Contains(text, "../"), "path_traversal_probe");
    var t4 := AddIf(t3, Contains(text, "<script>"), "xss_probe");
    var t5 := AddIf(t4, Contains(text, "union select"), "sqli_probe");
    AddIf(t5, p.verb == "POST" && p.path == "/login", "credential_bruteforce")
  }

  function ClaimedTags(p: Payload): seq<string> { if p.normalizedTags != [] then p.normalizedTags else p.tags }

  function NormalizedTags(p: Payload): set<string> {
    var tags := WithImpliedTags(CleanTags(ClaimedTags(p)), p);
    AddIf(tags, tags == {} && p.suspicious, "internet_recon")
  }

  lemma CleanTagsAppend(tags: seq<string>, tag: string)
    ensures CleanTags(tags + [tag]) == AddIf(CleanTags(tags), Strip(tag) != "", Lower(Strip(tag)))
  {
    hide Strip, Lower;
  }

  lemma NoTags()
    ensures forall tags: seq<string> :: |tags| == 0 ==> CleanTags(tags) == {}
  {
  }

  /** The set grown tag by tag, as the service does it. */
  method NormalizeTags(p: Payload) returns (tags: set<string>)
    ensures tags == NormalizedTags(p)
  {
    hide CleanTags, Strip, Lower, Contains, AddIf, SearchText;
    var claimed := ClaimedTags(p);
    tags := {};
    assert CleanTags(claimed[..0]) == {} by { NoTags(); }
    for i := 0 to |claimed|
      invariant tags == CleanTags(claimed[..i])
    {
      assert claimed[..i + 1] == claimed[..i] + [claimed[i]];
      CleanTagsAppend(claimed[..i], claimed[i]);
      tags := AddIf(tags, Strip(claimed[i]) != "", Lower(Strip(claimed[i])));
    }
    assert claimed[..|claimed|] == claimed;
    var path := Lower(p.path);
    var text := SearchText(p);
    tags := AddIf(tags, p.path in SENSITIVE_PATHS, "sensitive_path_discovery");
    tags := AddIf(tags, Contains(path, "/admin") || Contains(path, "/config") || Contains(path, "/status"),
                  "admin_panel_enumeration");
    tags := AddIf(tags, Contains(text, "../"), "path_traversal_probe");
    tags := AddIf(tags, Contains(text, "<script>"), "xss_probe");
    tags := AddIf(tags, Contains(text, "union select"), "sqli_probe");
    tags := AddIf(tags, p.verb == "POST" && p.path == "/login", "credential_bruteforce");
    tags := AddIf(tags, tags == {} && p.suspicious, "internet_recon");
  }

  /** The control plane's classifier: precedence over the whole tag collection. */
  function ClassifyEvent(tags: set<string>, suspicious: bool): string {
    if "credential_bruteforce" in tags || "credential_stuffing" in tags then "credential"
    else if "sqli_probe" in tags || "xss_probe" in tags || "path_traversal_probe" in tags then "probe"
    else if "admin_panel_enumeration" in tags || "sensitive_path_discovery" in tags then "recon"
    else if suspicious then "scan" else "probe"
  }

  /** The event row of a payload, given its normalised tags. */
  function NormalizeWith(p: Payload, s: Supply, tags: set<string>): Event {
    Event(OrElse(p.eventId, s.uuid),
          p.ts.GetOr(s.now),
          Strip(p.decoyId),
          Strip(OrElse(p.srcIp, "unknown")),
          p.verb,
          if Strip(p.path) == "" then "/" else Strip(p.path),
          Strip(p.username),
          Strip(p.password),
          p.suspicious,
          tags,
          OrElse(p.requestFingerprint, s.digest),
          OrElse(p.eventClass, ClassifyEvent(tags, p.suspicious)))
  }

  function Normalize(p: Payload, s: Supply): Event { NormalizeWith(p, s, NormalizedTags(p)) }

  /** The stored row of any payload, column by column. */
  lemma StoredRow(p: Payload, s: Supply)
    ensures var e := Normalize(p, s);
            && (p.eventId in {None, Some("")} ==> e.eventId == s.uuid)
            && (p.eventId !in {None, Some("")} ==> Some(e.eventId) == p.eventId)
            && (p.ts == None ==> e.occurredAt == s.now) && (p.ts.Some? ==> e.occurredAt == p.ts.value)
            && e.decoyId == Strip(p.decoyId)
            && (p.srcIp in {None, Some("")} ==> e.srcIp == "unknown")
            && (p.srcIp !in {None, Some("")} ==> e.srcIp == Strip(p.srcIp.value))
            && e.verb == p.verb && e.suspicious == p.suspicious
            && (Strip(p.path) == "" ==> e.path == "/") && (Strip(p.path) != "" ==> e.path == Strip(p.path))
            && e.username == Strip(p.username) && e.password == Strip(p.password)
            && (p.requestFingerprint in {None, Some("")} ==> e.requestFingerprint == s.digest)
            && (p.requestFingerprint !in {None, Some("")} ==> Some(e.requestFingerprint) == p.requestFingerprint)
            && (p.eventClass !in {None, Some("")} ==> Some(e.eventClass) == p.eventClass)
  {
    hide Strip, NormalizedTags, ClassifyEvent;
    StripUnknown();
  }

  lemma StripUnknown()
    ensures Strip("unknown") == "unknown"
  {
    assert StripLeft("unknown") == "unknown" && StripRight("unknown") == "unknown";
  }

  /** Payloads from different addresses are stored under different sources. */
  lemma DifferentAddressesStayApart(p: Payload, q: Payload, s: Supply, t: Supply)
    requires p.srcIp.Some? && q.srcIp.Some? && p.srcIp.value != "" && q.srcIp.value != ""
    ensures Normalize(p, s).srcIp == Normalize(q, t).srcIp <==> Strip(p.srcIp.value) == Strip(q.srcIp.value)
  {
    hide Normalize, Strip;
    StoredRow(p, s);
    StoredRow(q, t);
  }

  /** A class that the sender did not give follows from the stored tags. */
  lemma ClassExactly(tags: set<string>, suspicious: bool)
    ensures var c := ClassifyEvent(tags, suspicious);
            var login := tags * {"credential_bruteforce", "credential_stuffing"} != {};
            var probe := tags * {"sqli_probe", "xss_probe", "path_traversal_probe"} != {};
            var discovery := tags * {"admin_panel_enumeration", "sensitive_path_discovery"} != {};
            && (c == "credential" <==> login)
            && (c == "recon" <==> discovery && !login && !probe)
            && (c == "scan" <==> suspicious && !login && !probe && !discovery)
            && (c == "probe" <==> !login && (probe || (!discovery && !suspicious)))
  {
    var login := tags * {"credential_bruteforce", "credential_stuffing"};
    var probe := tags * {"sqli_probe", "xss_probe", "path_traversal_probe"};
    var discovery := tags * {"admin_panel_enumeration", "sensitive_path_discovery"};
    assert "credential_bruteforce" in tags || "credential_stuffing" in tags <==> "credential_bruteforce" in login || "credential_stuffing" in login;
    assert "sqli_probe" in tags || "xss_probe" in tags || "path_traversal_probe" in tags
      <==> "sqli_probe" in probe || "xss_probe" in probe || "path_traversal_probe" in probe;
    assert "admin_panel_enumeration" in tags || "sensitive_path_discovery" in tags
      <==> "admin_panel_enumeration" in discovery || "sensitive_path_discovery" in discovery;
  }

  /** Trimming removes exactly the white space at both ends. */
  lemma StripExactly(s: string)
    ensures exists i, j :: 0 <= i <= j <= |s| && Strip(s) == s[i..j]
                           && (forall k :: 0 <= k < i || j <= k < |s| ==> IsSpace(s[k]))
    ensures Strip(s) == "" || (!IsSpace(Strip(s)[0]) && !IsSpace(Strip(s)[|Strip(s)| - 1]))
  {
    StripStrips(s);
    var i := StripLeftTakes(s);
    var j := StripRightTakes(s[i..]);
    assert s[i..][..j] == s[i..i + j];
    assert forall k :: i + j <= k < |s| ==> s[k] == s[i..][k - i];
  }

  lemma {:induction false} StripLeftTakes(s: string) returns (i: nat)
    ensures i <= |s| && StripLeft(s) == s[i..] && forall k :: 0 <= k < i ==> IsSpace(s[k])
  {
    i := 0;
    if s != "" && IsSpace(s[0]) {
      i := StripLeftTakes(s[1..]);
      assert forall k :: 1 <= k < i + 1 ==> s[k] == s[1..][k - 1];
      i := i + 1;
    }
  }

  lemma {:induction false} StripRightTakes(s: string) returns (j: nat)
    ensures j <= |s| && StripRight(s) == s[..j] && forall k :: j <= k < |s| ==> IsSpace(s[k])
  {
    j := |s|;
    if s != "" && IsSpace(s[|s| - 1]) {
      j := StripRightTakes(s[..|s| - 1]);
    }
  }

  // ---------- Normalising twice ----------

  ghost predicate Stripped(s: string) { s == "" || (!IsSpace(s[0]) && !IsSpace(s[|s| - 1])) }

  lemma {:induction false} StripLeftHolds(s: string)
    ensures StripLeft(s) == "" || !IsSpace(StripLeft(s)[0])
  {
    if s != "" && IsSpace(s[0]) {
      StripLeftHolds(s[1..]);
    }
  }

  lemma {:induction false} StripRightHolds(s: string)
    ensures StripRight(s) <= s
    ensures StripRight(s) == "" || !IsSpace(StripRight(s)[|StripRight(s)| - 1])
  {
    if s != "" && IsSpace(s[|s| - 1]) {
      StripRightHolds(s[..|s| - 1]);
    }
  }

  lemma StripStrips(s: string)
    ensures Stripped(Strip(s))
  {
    StripLeftHolds(s);
    StripRightHolds(StripLeft(s));
  }

  lemma CleanTagIsClean(t: string)
    ensures Strip(Lower(Strip(t))) == Lower(Strip(t)) && Lower(Lower(Strip(t))) == Lower(Strip(t))
    ensures Strip(t) != "" ==> Lower(Strip(t)) != ""
  {
    StripStrips(t);
    LowerHolds(Strip(t));
    var u := Lower(Strip(t));
    assert Stripped(u);
    assert StripLeft(u) == u && StripRight(u) == u;
  }

  lemma CleanSetIsClean(tags: seq<string>, clean: set<string>)
    requires forall t :: t in tags <==> t in clean
    requires forall t :: t in clean ==> t != "" && Strip(t) == t && Lower(t) == t
    ensures CleanTags(tags) == clean
  {
    forall t | t in clean
      ensures t in CleanTags(tags)
    {
      assert t in tags && Strip(t) != "" && Lower(Strip(t)) == t;
    }
  }

  lemma NormalizedTagsAreClean(p: Payload, t: string)
    requires t in NormalizedTags(p)
    ensures t != "" && Strip(t) == t && Lower(t) == t
  {
    hide Strip, Lower, Contains;
    var claimed := ClaimedTags(p);
    if t in CleanTags(claimed) {
      var raw :| raw in claimed && Strip(raw) != "" && Lower(Strip(raw)) == t;
      CleanTagIsClean(raw);
    } else {
      TagNamesAreClean(t);
    }
  }

  ghost predicate TagText(t: string) { forall i :: 0 <= i < |t| ==> 'a' <= t[i] <= 'z' || t[i] == '_' }

  lemma LongTagNamesAreText()
    ensures TagText("sensitive_path_discovery") && TagText("admin_panel_enumeration")
    ensures TagText("credential_bruteforce")
  {
  }

  lemma ShortTagNamesAreText()
    ensures TagText("path_traversal_probe") && TagText("internet_recon")
    ensures TagText("xss_probe") && TagText("sqli_probe")
  {
  }

  lemma TagTextIsClean(t: string)
    requires TagText(t) && t != ""
    ensures Strip(t) == t && Lower(t) == t
  {
    LowerHolds(t);
    assert forall i | 0 <= i < |t| :: LowerChar(t[i]) == t[i];
    assert !IsSpace(t[0]) && !IsSpace(t[|t| - 1]);
    assert StripLeft(t) == t && StripRight(t) == t;
  }

  lemma TagNamesAreClean(t: string)
    requires t in {"sensitive_path_discovery", "admin_panel_enumeration", "path_traversal_probe", "xss_probe",
                   "sqli_probe", "credential_bruteforce", "internet_recon"}
    ensures t != "" && Strip(t) == t && Lower(t) == t
  {
    hide Strip, Lower, TagText;
    LongTagNamesAreText();
    ShortTagNamesAreText();
    TagTextIsClean(t);
  }

  lemma StripTwice(s: string)
    ensures Strip(Strip(s)) == Strip(s)
  {
    StripStrips(s);
    var t := Strip(s);
    assert StripLeft(t) == t && StripRight(t) == t;
  }

  /** A stored event posted again, its tags listed in any order. */
  function Repost(e: Event, tags: seq<string>): Payload {
    Payload(Some(e.eventId), Some(e.occurredAt), e.decoyId, Some(e.srcIp), e.verb, e.path, e.username, e.password,
            e.suspicious, [], tags, Some(e.requestFingerprint), Some(e.eventClass))
  }

  /** The tags that the texts of a stored event imply by themselves. */
  function SelfTags(e: Event): set<string> { WithImpliedTags({}, Repost(e, [])) }

  lemma ImpliedTagsAdd(claimed: set<string>, p: Payload)
    ensures WithImpliedTags(claimed, p) == claimed + WithImpliedTags({}, p)
  {
    hide Contains, Lower, SearchText;
  }

  lemma NormalizedTagsParts(p: Payload)
    ensures var tags := CleanTags(ClaimedTags(p)) + WithImpliedTags({}, p);
            NormalizedTags(p) == if tags == {} && p.suspicious then {"internet_recon"} else tags
  {
    hide CleanTags, WithImpliedTags;
    ImpliedTagsAdd(CleanTags(ClaimedTags(p)), p);
  }

  lemma StoredTagsAreClaimed(p: Payload, q: Payload)
    requires forall t :: t in q.normalizedTags <==> t in NormalizedTags(p)
    requires q.tags == []
    ensures CleanTags(ClaimedTags(q)) == NormalizedTags(p)
  {
    hide Strip, Lower, NormalizedTags, CleanTags;
    forall t | t in NormalizedTags(p)
      ensures t != "" && Strip(t) == t && Lower(t) == t
    {
      NormalizedTagsAreClean(p, t);
    }
    assert |q.normalizedTags| > 0 ==> q.normalizedTags[0] in q.normalizedTags;
    CleanSetIsClean(q.normalizedTags, NormalizedTags(p));
  }

  /** Posting the stored tags again reproduces them exactly when the posted texts imply no
      further one. */
  lemma RepostedTags(p: Payload, q: Payload)
    requires forall t :: t in q.normalizedTags <==> t in NormalizedTags(p)
    requires q.tags == [] && q.suspicious == p.suspicious
    ensures NormalizedTags(q) == NormalizedTags(p) <==> WithImpliedTags({}, q) <= NormalizedTags(p)
  {
    hide CleanTags, ClaimedTags, WithImpliedTags, NormalizedTags;
    StoredTagsAreClaimed(p, q);
    NormalizedTagsParts(p);
    NormalizedTagsParts(q);
    assert WithImpliedTags({}, q) <= NormalizedTags(p) ==> NormalizedTags(p) + WithImpliedTags({}, q) == NormalizedTags(p);
  }

  lemma ImpliedIgnoresClaims(p: Payload, tags: seq<string>)
    ensures WithImpliedTags({}, p.(normalizedTags := tags)) == WithImpliedTags({}, p)
  {
    hide Contains, Lower;
  }

  /** Normalising an already normalised payload changes nothing, in whatever order the tags are
      listed, except exactly when no tag came out although the raw list names some: blank
      normalised tags hid them, and an empty list hides them no longer. */
  lemma NormalizingTagsTwice(p: Payload, again: seq<string>)
    requires forall t :: t in again <==> t in NormalizedTags(p)
    ensures NormalizedTags(p.(normalizedTags := again)) == NormalizedTags(p)
       <==> NormalizedTags(p) != {} || CleanTags(p.tags) == {}
  {
    hide CleanTags, WithImpliedTags, NormalizedTags;
    var q := p.(normalizedTags := again);
    NormalizedTagsParts(p);
    NormalizedTagsParts(q);
    ImpliedIgnoresClaims(p, again);
    assert |again| > 0 ==> again[0] in again;
    if NormalizedTags(p) == {} {
      assert ClaimedTags(q) == p.tags;
    } else {
      StoredTagsAreClaimed(p, q.(tags := []));
      assert again != [];
      assert ClaimedTags(q) == ClaimedTags(q.(tags := []));
    }
  }

  lemma RepostedTextsStay(p: Payload, s: Supply, tags: seq<string>, again: Supply)
    requires s.uuid != "" && s.digest != ""
    ensures var e := Normalize(p, s);
            var e' := Normalize(Repost(e, tags), again);
            e'.(srcIp := e.srcIp, normalizedTags := e.normalizedTags) == e && (e'.srcIp == e.srcIp <==> e.srcIp != "")
  {
    hide Strip, NormalizedTags, ClassifyEvent;
    StripTwice(p.decoyId);
    StripTwice(p.path);
    StripTwice(p.username);
    StripTwice(p.password);
    StripTwice(OrElse(p.srcIp, "unknown"));
    TextsStripped();
    ClassNamed(NormalizedTags(p), p.suspicious);
  }

  lemma TextsStripped()
    ensures Strip("unknown") == "unknown" && Strip("/") == "/"
  {
    StripUnknown();
    assert StripLeft("/") == "/" && StripRight("/") == "/";
  }

  lemma ClassNamed(tags: set<string>, suspicious: bool)
    ensures ClassifyEvent(tags, suspicious) != ""
  {
  }

  /** Posting a stored event again, its tags in any order and under any clock, reproduces its
      row exactly when it has a source address and its trimmed texts imply no tag that the
      untrimmed ones did not. */
  lemma RepostReproducesExactly(p: Payload, s: Supply, again: Supply, tags: seq<string>)
    requires s.uuid != "" && s.digest != ""
    requires forall t :: t in tags <==> t in Normalize(p, s).normalizedTags
    ensures var e := Normalize(p, s);
            Normalize(Repost(e, tags), again) == e <==> e.srcIp != "" && SelfTags(e) <= e.normalizedTags
  {
    hide Strip, NormalizedTags, ClassifyEvent, WithImpliedTags;
    var e := Normalize(p, s);
    var q := Repost(e, tags);
    var e' := Normalize(q, again);
    RepostedTextsStay(p, s, tags, again);
    RepostedTags(p, q);
    SelfTagsOfRepost(e, tags);
    assert e.normalizedTags == NormalizedTags(p) && e'.normalizedTags == NormalizedTags(q);
    assert e'.srcIp == e.srcIp && e'.normalizedTags == e.normalizedTags ==>
        e'.(srcIp := e.srcIp, normalizedTags := e.normalizedTags) == e';
  }

  lemma SelfTagsOfRepost(e: Event, tags: seq<string>)
    ensures WithImpliedTags({}, Repost(e, tags)) == SelfTags(e)
  {
    hide Contains, Lower;
  }

  /** Texts that came trimmed never imply anything new. */
  lemma TrimmedTextsSuffice(p: Payload, s: Supply)
    requires Strip(p.path) == p.path != "" && Strip(p.username) == p.username && Strip(p.password) == p.password
    ensures SelfTags(Normalize(p, s)) <= Normalize(p, s).normalizedTags
  {
    hide Strip, NormalizedTags, ClassifyEvent, Contains, Lower, CleanTags;
    NormalizedTagsParts(p);
  }

  /** Padded texts can: the path was not the login page's until it was trimmed. */
  lemma PaddedPathGainsTag(p: Payload, s: Supply)
    requires p.verb == "POST" && p.path == " /login" && p.tags == [] && p.normalizedTags == []
    ensures var e := Normalize(p, s);
            "credential_bruteforce" in SelfTags(e) && "credential_bruteforce" !in e.normalizedTags
  {
    hide Contains, Lower, SearchText, ClassifyEvent, CleanTags;
    NoTags();
    assert CleanTags(ClaimedTags(p)) == {};
    assert Strip(" /login") == "/login" by {
      assert " /login"[1..] == "/login" && StripLeft(" /login") == "/login" && StripRight("/login") == "/login";
    }
    LoginTagDistinct();
  }

  lemma LoginTagDistinct()
    ensures "credential_bruteforce" !in {"sensitive_path_discovery", "admin_panel_enumeration", "path_traversal_probe",
                                         "xss_probe", "sqli_probe", "internet_recon"}
  {
    assert |"credential_bruteforce"| == 21;
  }

  // ---------- Insertion ----------

  datatype Credential = Credential(eventId: string, decoyId: string, srcIp: string, username: string, password: string, attemptedAt: Time)

  predicate CarriesCredential(e: Event) { e.username != "" || e.password != "" }

  function CredentialOf(e: Event): Credential {
    Credential(e.eventId, e.decoyId, e.srcIp, e.username, e.password, e.occurredAt)
  }

  function AddCredential(credentials: seq<Credential>, e: Event): seq<Credential> {
    if CarriesCredential(e) then credentials + [CredentialOf(e)] else credentials
  }

  /** The credential rows that a table of events calls for. */
  function CredentialsOf(events: seq<Event>): seq<Credential> {
    if |events| == 0 then []
    else AddCredential(CredentialsOf(events[..|events| - 1]), events[|events| - 1])
  }

  lemma CredentialsAppend(events: seq<Event>, e: Event)
    ensures CredentialsOf(events + [e]) == AddCredential(CredentialsOf(events), e)
  {
    assert (events + [e])[..|events|] == events;
  }

  function CredentialCount(credentials: seq<Credential>, id: string): nat {
    if |credentials| == 0 then 0
    else CredentialCount(credentials[..|credentials| - 1], id) + (if credentials[|credentials| - 1].eventId == id then 1 else 0)
  }

  /** The credential table holds, for each carrying event, its own username and password. */
  lemma {:induction false} CredentialRowsHold(events: seq<Event>, c: Credential)
    ensures c in CredentialsOf(events) <==>
              exists e :: e in events && CarriesCredential(e) && c.eventId == e.eventId && c.username == e.username
                          && c.password == e.password && c.srcIp == e.srcIp && c.decoyId == e.decoyId && c.attemptedAt == e.occurredAt
  {
    if |events| > 0 {
      CredentialRowsHold(events[..|events| - 1], c);
      assert events == events[..|events| - 1] + [events[|events| - 1]];
    }
  }

  /** A stored event has one credential row if it carries a username or a password that is
      not blank, and none otherwise. */
  lemma {:induction false} OneCredentialPerCarrier(events: seq<Event>, id: string)
    requires DistinctIds(events)
    ensures CredentialCount(CredentialsOf(events), id)
         == if exists e :: e in events && e.eventId == id && CarriesCredential(e) then 1 else 0
  {
    if |events| > 0 {
      var init, e := events[..|events| - 1], events[|events| - 1];
      assert events == init + [e];
      IdsAppend(init, e);
      OneCredentialPerCarrier(init, id);
      var rows := CredentialsOf(events);
      assert CarriesCredential(e) ==> rows[..|rows| - 1] == CredentialsOf(init);
    }
  }
}
