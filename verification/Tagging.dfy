/**
 Which text gives which tag, at the control plane and at the decoy, said on the
 texts themselves.
 */
module Tagging {
  import opened Ascii
  import opened Options
  import opened CStrings
  import opened RequestParser
  import opened Ingestion
  import opened HttpRequests

  // ---------- Occurrences without regard to case ----------

  lemma OccursLowered(text: string, needle: string)
    requires needle != "" && Lower(needle) == needle
    ensures Contains(Lower(text), needle) <==> ContainsIgnoringCase(text, needle)
    ensures ContainsIgnoringCase(Lower(text), needle) <==> ContainsIgnoringCase(text, needle)
  {
    LowerHolds(text);
    LowerHolds(needle);
    forall i | 0 <= i <= |text|
      ensures At(Lower(text), needle, i) <==> SameLetters(text, needle, i)
      ensures SameLetters(Lower(text), needle, i) <==> SameLetters(text, needle, i)
    {
      AtIsSameLetters(text, needle, i);
    }
  }

  lemma AtIsSameLetters(text: string, needle: string, i: nat)
    requires Lower(needle) == needle
    ensures At(Lower(text), needle, i) <==> SameLetters(text, needle, i)
    ensures SameLetters(Lower(text), needle, i) <==> SameLetters(text, needle, i)
  {
    hide Lower;
    LowerHolds(text);
    LowerHolds(needle);
    if i + |needle| <= |text| {
      var part := Lower(text)[i..i + |needle|];
      assert forall j :: 0 <= j < |needle| ==> LowerChar(needle[j]) == needle[j] && part[j] == LowerChar(text[i + j]);
      assert forall c: char :: LowerChar(LowerChar(c)) == LowerChar(c);
    }
  }

  predicate StartsAs(text: string, word: string) { SameLetters(text, word, 0) }

  predicate EndsAs(text: string, word: string) { |word| <= |text| && SameLetters(text, word, |text| - |word|) }

  /** In two texts joined by a space, a needle lies in one of them or across its own space. */
  lemma OccursJoined(a: string, b: string, needle: string)
    requires needle != ""
    ensures ContainsIgnoringCase(a + " " + b, needle)
       <==> || ContainsIgnoringCase(a, needle) || ContainsIgnoringCase(b, needle)
            || exists k :: 0 <= k < |needle| && needle[k] == ' ' && EndsAs(a, needle[..k]) && StartsAs(b, needle[k + 1..])
  {
    var s := a + " " + b;
    if ContainsIgnoringCase(s, needle) {
      var i :| 0 <= i <= |s| && SameLetters(s, needle, i);
      OccurrenceSplits(a, b, needle, i);
    }
    if ContainsIgnoringCase(a, needle) {
      var i :| 0 <= i <= |a| && SameLetters(a, needle, i);
      assert SameLetters(s, needle, i);
    }
    if ContainsIgnoringCase(b, needle) {
      var i :| 0 <= i <= |b| && SameLetters(b, needle, i);
      assert SameLetters(s, needle, |a| + 1 + i);
    }
    if k :| 0 <= k < |needle| && needle[k] == ' ' && EndsAs(a, needle[..k]) && StartsAs(b, needle[k + 1..]) {
      AcrossOccurs(a, b, needle, k);
    }
  }

  lemma OccurrenceSplits(a: string, b: string, needle: string, i: nat)
    requires needle != "" && SameLetters(a + " " + b, needle, i)
    ensures || ContainsIgnoringCase(a, needle) || ContainsIgnoringCase(b, needle)
            || exists k :: 0 <= k < |needle| && needle[k] == ' ' && EndsAs(a, needle[..k]) && StartsAs(b, needle[k + 1..])
  {
    var s := a + " " + b;
    if i + |needle| <= |a| {
      forall j | 0 <= j < |needle|
        ensures LowerChar(a[i + j]) == LowerChar(needle[j])
      {
        assert LowerChar(s[i + j]) == LowerChar(needle[j]);
      }
      assert SameLetters(a, needle, i);
    } else if i > |a| {
      forall j | 0 <= j < |needle|
        ensures LowerChar(b[i - |a| - 1 + j]) == LowerChar(needle[j])
      {
        assert LowerChar(s[i + j]) == LowerChar(needle[j]);
      }
      assert SameLetters(b, needle, i - |a| - 1);
    } else {
      OccurrenceAcross(a, b, needle, i);
    }
  }

  lemma OccurrenceAcross(a: string, b: string, needle: string, i: nat)
    requires SameLetters(a + " " + b, needle, i) && i <= |a| < i + |needle|
    ensures var k := |a| - i; needle[k] == ' ' && EndsAs(a, needle[..k]) && StartsAs(b, needle[k + 1..])
  {
    var s, k := a + " " + b, |a| - i;
    assert LowerChar(s[i + k]) == LowerChar(needle[k]);
    assert forall c: char :: LowerChar(c) == ' ' ==> c == ' ';
    forall j | 0 <= j < k
      ensures LowerChar(a[i + j]) == LowerChar(needle[..k][j])
    {
      assert LowerChar(s[i + j]) == LowerChar(needle[j]);
    }
    var behind := needle[k + 1..];
    forall j | 0 <= j < |behind|
      ensures LowerChar(b[0 + j]) == LowerChar(behind[j])
    {
      assert LowerChar(s[i + (k + 1 + j)]) == LowerChar(needle[k + 1 + j]);
    }
  }

  lemma AcrossOccurs(a: string, b: string, needle: string, k: nat)
    requires k < |needle| && needle[k] == ' ' && EndsAs(a, needle[..k]) && StartsAs(b, needle[k + 1..])
    ensures ContainsIgnoringCase(a + " " + b, needle)
  {
    var s, i := a + " " + b, |a| - k;
    forall j | 0 <= j < |needle|
      ensures LowerChar(s[i + j]) == LowerChar(needle[j])
    {
      if j < k {
        assert LowerChar(a[i + j]) == LowerChar(needle[..k][j]);
      } else if j > k {
        assert LowerChar(b[0 + (j - k - 1)]) == LowerChar(needle[k + 1..][j - k - 1]);
      }
    }
    assert SameLetters(s, needle, i);
  }

  // ---------- The texts of a payload ----------

  /** Some claimed tag, trimmed and in lower case, is this one. */
  ghost predicate Claims(p: Payload, tag: string) {
    exists t :: t in (if p.normalizedTags != [] then p.normalizedTags else p.tags) && Strip(t) != "" && Lower(Strip(t)) == tag
  }

  /** The username, the password or the path contains it, whatever the case. */
  predicate InTexts(p: Payload, needle: string) {
    ContainsIgnoringCase(p.username, needle) || ContainsIgnoringCase(p.password, needle) || ContainsIgnoringCase(p.path, needle)
  }

  /** Of a needle with one space, the halves may also come from two neighbouring texts. */
  predicate AcrossTexts(p: Payload, first: string, second: string) {
    || (EndsAs(p.username, first) && StartsAs(p.password, second))
    || (EndsAs(p.password, first) && StartsAs(p.path, second))
  }

  lemma SearchTextContains(p: Payload, needle: string)
    requires needle != "" && Lower(needle) == needle && ' ' !in needle
    ensures Contains(SearchText(p), needle) <==> InTexts(p, needle)
  {
    hide ContainsIgnoringCase, Contains, Lower, EndsAs, StartsAs;
    OccursLowered(p.username + " " + p.password + " " + Lower(p.path), needle);
    OccursLowered(p.path, needle);
    OccursJoined(p.username, p.password, needle);
    OccursJoined(p.username + " " + p.password, Lower(p.path), needle);
  }

  lemma EndsAfterSpace(a: string, b: string, word: string)
    requires word != "" && ' ' !in word
    ensures EndsAs(a + " " + b, word) <==> EndsAs(b, word)
  {
    var s := a + " " + b;
    var i := |s| - |word|;
    assert forall c: char :: LowerChar(c) == ' ' ==> c == ' ';
    assert forall j :: 0 <= j < |word| ==> word[j] in word && LowerChar(word[j]) != ' ';
    if |word| <= |b| {
      forall j | 0 <= j < |word|
        ensures LowerChar(s[i + j]) == LowerChar(word[j]) <==> LowerChar(b[|b| - |word| + j]) == LowerChar(word[j])
      {
      }
    } else if |word| <= |s| {
      assert s[i + (|a| - i)] == ' ' && LowerChar(' ') != LowerChar(word[|a| - i]);
    }
  }

  lemma StartsLowered(text: string, word: string)
    ensures StartsAs(Lower(text), word) <==> StartsAs(text, word)
  {
    LowerHolds(text);
    assert forall c: char :: LowerChar(LowerChar(c)) == LowerChar(c);
  }

  lemma UnionSelectParts()
    ensures "union select" != "" && Lower("union select") == "union select"
    ensures forall k :: 0 <= k < |"union select"| && "union select"[k] == ' ' <==> k == 5
    ensures "union select"[..5] == "union" && "union select"[6..] == "select"
  {
    hide Lower;
    LowerText("union select");
  }

  lemma SearchTextUnionSelect(p: Payload)
    ensures Contains(SearchText(p), "union select") <==> InTexts(p, "union select") || AcrossTexts(p, "union", "select")
  {
    hide ContainsIgnoringCase, Contains, Lower, EndsAs, StartsAs;
    UnionSelectParts();
    OccursLowered(p.username + " " + p.password + " " + Lower(p.path), "union select");
    OccursLowered(p.path, "union select");
    JoinedUnionSelect(p.username, p.password);
    JoinedUnionSelect(p.username + " " + p.password, Lower(p.path));
    EndsAfterSpace(p.username, p.password, "union");
    StartsLowered(p.path, "select");
  }

  lemma JoinedUnionSelect(a: string, b: string)
    ensures ContainsIgnoringCase(a + " " + b, "union select")
       <==> || ContainsIgnoringCase(a, "union select") || ContainsIgnoringCase(b, "union select")
            || (EndsAs(a, "union") && StartsAs(b, "select"))
  {
    hide ContainsIgnoringCase, EndsAs, StartsAs, Lower;
    UnionSelectParts();
    OccursJoined(a, b, "union select");
    var needle := "union select";
    assert (EndsAs(a, "union") && StartsAs(b, "select")) ==>
        (0 <= 5 < |needle| && needle[5] == ' ' && EndsAs(a, needle[..5]) && StartsAs(b, needle[5 + 1..]));
  }

  lemma NeedlesLower()
    ensures Lower("../") == "../" && Lower("<script>") == "<script>"
    ensures Lower("/admin") == "/admin" && Lower("/config") == "/config" && Lower("/status") == "/status"
  {
    hide Lower;
    LowerText("../");
    LowerText("<script>");
    LowerText("/admin");
    LowerText("/config");
    LowerText("/status");
  }

  lemma LowerText(s: string)
    requires forall i :: 0 <= i < |s| ==> !('A' <= s[i] <= 'Z')
    ensures Lower(s) == s
  {
    hide Lower;
    LowerHolds(s);
    assert forall i :: 0 <= i < |s| ==> Lower(s)[i] == s[i];
  }

  // ---------- The tags ----------

  lemma ClaimedExactly(p: Payload, tag: string)
    ensures tag in CleanTags(ClaimedTags(p)) <==> Claims(p, tag)
  {
    hide Strip, Lower;
  }

  /** What the texts alone imply, before a suspicious payload without any tag gets one. */
  lemma ImpliedExactly(p: Payload)
    ensures var tags := WithImpliedTags({}, p);
            && ("path_traversal_probe" in tags <==> InTexts(p, "../"))
            && ("xss_probe" in tags <==> InTexts(p, "<script>"))
            && ("sqli_probe" in tags <==> InTexts(p, "union select") || AcrossTexts(p, "union", "select"))
            && ("sensitive_path_discovery" in tags <==> p.path in {"/admin", "/config", "/status", "/.env", "/backup", "/phpmyadmin"})
            && ("admin_panel_enumeration" in tags
                <==> ContainsIgnoringCase(p.path, "/admin") || ContainsIgnoringCase(p.path, "/config")
                     || ContainsIgnoringCase(p.path, "/status"))
            && ("credential_bruteforce" in tags <==> p.verb == "POST" && p.path == "/login")
            && (forall tag :: tag in tags ==>
                  tag in {"path_traversal_probe", "xss_probe", "sqli_probe", "sensitive_path_discovery",
                          "admin_panel_enumeration", "credential_bruteforce"})
  {
    hide Contains, Lower, SearchText, InTexts, AcrossTexts, ContainsIgnoringCase;
    NeedlesLower();
    SearchTextContains(p, "../");
    SearchTextContains(p, "<script>");
    SearchTextUnionSelect(p);
    OccursLowered(p.path, "/admin");
    OccursLowered(p.path, "/config");
    OccursLowered(p.path, "/status");
  }

  /** Which tags a payload ends with, each exactly when. */
  lemma TagsExactly(p: Payload, tag: string)
    ensures var tags := NormalizedTags(p);
            && ("path_traversal_probe" in tags <==> Claims(p, "path_traversal_probe") || InTexts(p, "../"))
            && ("xss_probe" in tags <==> Claims(p, "xss_probe") || InTexts(p, "<script>"))
            && ("sqli_probe" in tags
                <==> Claims(p, "sqli_probe") || InTexts(p, "union select") || AcrossTexts(p, "union", "select"))
            && ("sensitive_path_discovery" in tags
                <==> Claims(p, "sensitive_path_discovery")
                     || p.path in {"/admin", "/config", "/status", "/.env", "/backup", "/phpmyadmin"})
            && ("admin_panel_enumeration" in tags
                <==> Claims(p, "admin_panel_enumeration") || ContainsIgnoringCase(p.path, "/admin")
                     || ContainsIgnoringCase(p.path, "/config") || ContainsIgnoringCase(p.path, "/status"))
            && ("credential_bruteforce" in tags <==> Claims(p, "credential_bruteforce") || (p.verb == "POST" && p.path == "/login"))
            && ("internet_recon" in tags <==> Claims(p, "internet_recon") || (p.suspicious && tags <= {"internet_recon"}))
    ensures tag in NormalizedTags(p) && !Claims(p, tag) ==>
              tag in {"path_traversal_probe", "xss_probe", "sqli_probe", "sensitive_path_discovery",
                      "admin_panel_enumeration", "credential_bruteforce", "internet_recon"}
  {
    hide NormalizedTags, WithImpliedTags, CleanTags, Claims, InTexts, AcrossTexts, ContainsIgnoringCase;
    NormalizedTagsParts(p);
    ImpliedExactly(p);
    ClaimedExactly(p, "path_traversal_probe");
    ClaimedExactly(p, "xss_probe");
    ClaimedExactly(p, "sqli_probe");
    ClaimedExactly(p, "sensitive_path_discovery");
    ClaimedExactly(p, "admin_panel_enumeration");
    ClaimedExactly(p, "credential_bruteforce");
    ClaimedExactly(p, "internet_recon");
    ClaimedExactly(p, tag);
    var tags := CleanTags(ClaimedTags(p)) + WithImpliedTags({}, p);
    assert forall t :: t in tags <==> t in CleanTags(ClaimedTags(p)) || t in WithImpliedTags({}, p);
  }

  // ---------- The decoy's tags ----------

  /** Path, body, username or password contain it, whatever the case. */
  predicate Mentions(r: Request, needle: string) {
    || ContainsIgnoringCase(r.path, needle) || ContainsIgnoringCase(r.body, needle)
    || ContainsIgnoringCase(r.username, needle) || ContainsIgnoringCase(r.password, needle)
  }

  lemma TagAdded(tags: seq<string>, condition: bool, tag: string)
    requires TagsSound(tags) && tag in VOCABULARY
    ensures TagsSound(WithTagIf(tags, condition, tag))
    ensures forall t :: t in WithTagIf(tags, condition, tag) <==> t in tags || (condition && t == tag)
  {
    WithTagSound(tags, condition, tag);
  }

  lemma PathTagsExactly(r: Request)
    ensures TagsSound(PathTags(r))
    ensures var login := r.verb == "POST" && r.path == "/login";
            forall t :: t in PathTags(r) <==>
                          || (t == "credential_bruteforce" && login)
                          || (t == "credential_attempt" && login && (r.username != "" || r.password != ""))
                          || (t == "admin_panel_enumeration" && r.path in {"/admin", "/config", "/status"})
                          || (t == "sensitive_path_discovery" && r.path in {"/admin", "/config", "/status"})
                          || (t == "internet_recon" && r.path !in {"/", "/login", "/admin", "/config", "/status"})
  {
    hide WithTagIf, TagsSound;
    var login := r.verb == "POST" && r.path == "/login";
    var bears := login && (r.username != "" || r.password != "");
    NoTagsSound();
    TagAdded([], login, "credential_bruteforce");
    var t1 := WithTagIf([], login, "credential_bruteforce");
    TagAdded(t1, bears, "credential_attempt");
    var t2 := WithTagIf(t1, bears, "credential_attempt");
    TagAdded(t2, IsAdminPath(r.path), "admin_panel_enumeration");
    var t3 := WithTagIf(t2, IsAdminPath(r.path), "admin_panel_enumeration");
    TagAdded(t3, IsAdminPath(r.path), "sensitive_path_discovery");
    TagAdded(WithTagIf(t3, IsAdminPath(r.path), "sensitive_path_discovery"), !IsKnownPath(r.path), "internet_recon");
  }

  lemma ProbeRulesExactly(r: Request)
    ensures TagsSound(RuleTags(r, 3))
    ensures forall t :: t in RuleTags(r, 3) <==>
                          || t in PathTags(r) || (t == "sqli_probe" && Mentions(r, "union select"))
                          || (t == "xss_probe" && Mentions(r, "<script>")) || (t == "path_traversal_probe" && Mentions(r, "../"))
  {
    hide WithTagIf, TagsSound, PathTags, RuleTags, ContainsIgnoringCase;
    PathTagsExactly(r);
    RuleTagsSteps(r);
    TagAdded(RuleTags(r, 0), Hits(r, "union select"), "sqli_probe");
    TagAdded(RuleTags(r, 1), Hits(r, "<script>"), "xss_probe");
    TagAdded(RuleTags(r, 2), Hits(r, "../"), "path_traversal_probe");
  }

  lemma ToolRulesExactly(r: Request)
    ensures forall t :: t in RuleTags(r, 8) <==>
                          || t in RuleTags(r, 3)
                          || (t == "internet_recon" && (Mentions(r, "wget") || Mentions(r, "curl") || Mentions(r, "cmd=")))
                          || (t == "sensitive_path_discovery" && Mentions(r, ".env"))
                          || (t == "admin_panel_enumeration" && Mentions(r, "phpmyadmin"))
  {
    hide WithTagIf, TagsSound, PathTags, RuleTags, ContainsIgnoringCase;
    ProbeRulesExactly(r);
    RuleTagsSteps(r);
    TagAdded(RuleTags(r, 3), Hits(r, "wget"), "internet_recon");
    TagAdded(RuleTags(r, 4), Hits(r, "curl"), "internet_recon");
    TagAdded(RuleTags(r, 5), Hits(r, "cmd="), "internet_recon");
    TagAdded(RuleTags(r, 6), Hits(r, ".env"), "sensitive_path_discovery");
    TagAdded(RuleTags(r, 7), Hits(r, "phpmyadmin"), "admin_panel_enumeration");
  }

  /** The needles that make a request suspicious. */
  predicate MentionsProbe(r: Request) { Mentions(r, "union select") || Mentions(r, "<script>") || Mentions(r, "../") }

  predicate MentionsTool(r: Request) {
    || Mentions(r, "wget") || Mentions(r, "curl") || Mentions(r, "cmd=")
    || Mentions(r, ".env") || Mentions(r, "phpmyadmin")
  }

  lemma SuspicionExactly(r: Request)
    ensures RuleSuspicion(r, 8)
       <==> r.path !in {"/", "/login", "/admin", "/config", "/status"} || MentionsProbe(r) || MentionsTool(r)
  {
    hide ContainsIgnoringCase;
    SuspicionSteps(r);
  }

  lemma SuspicionSteps(r: Request)
    ensures RuleSuspicion(r, 8) <==>
            || !IsKnownPath(r.path) || Hits(r, "union select") || Hits(r, "<script>") || Hits(r, "../") || Hits(r, "wget")
            || Hits(r, "curl") || Hits(r, "cmd=") || Hits(r, ".env") || Hits(r, "phpmyadmin")
  {
    hide Hits, RuleSuspicion;
    FirstSuspicions(r);
    LastSuspicions(r);
  }

  lemma FirstSuspicions(r: Request)
    ensures RuleSuspicion(r, 0) == !IsKnownPath(r.path)
    ensures RuleSuspicion(r, 1) == (RuleSuspicion(r, 0) || Hits(r, "union select"))
    ensures RuleSuspicion(r, 2) == (RuleSuspicion(r, 1) || Hits(r, "<script>"))
    ensures RuleSuspicion(r, 3) == (RuleSuspicion(r, 2) || Hits(r, "../"))
    ensures RuleSuspicion(r, 4) == (RuleSuspicion(r, 3) || Hits(r, "wget"))
  {
    hide Hits;
  }

  lemma LastSuspicions(r: Request)
    ensures RuleSuspicion(r, 5) == (RuleSuspicion(r, 4) || Hits(r, "curl"))
    ensures RuleSuspicion(r, 6) == (RuleSuspicion(r, 5) || Hits(r, "cmd="))
    ensures RuleSuspicion(r, 7) == (RuleSuspicion(r, 6) || Hits(r, ".env"))
    ensures RuleSuspicion(r, 8) == (RuleSuspicion(r, 7) || Hits(r, "phpmyadmin"))
  {
    hide Hits;
  }

  lemma LoginTagsOf(f: Request)
    ensures var tags, login := RuleTags(f, 8), f.verb == "POST" && f.path == "/login";
            && ("credential_bruteforce" in tags <==> login)
            && ("credential_attempt" in tags <==> login && (f.username != "" || f.password != ""))
  {
    hide RuleTags, PathTags, Mentions, TagsSound;
    PathTagsExactly(f);
    ProbeRulesExactly(f);
    ToolRulesExactly(f);
  }

  lemma DiscoveryTagsOf(f: Request)
    ensures var tags, admin := RuleTags(f, 8), f.path in {"/admin", "/config", "/status"};
            && ("admin_panel_enumeration" in tags <==> admin || Mentions(f, "phpmyadmin"))
            && ("sensitive_path_discovery" in tags <==> admin || Mentions(f, ".env"))
            && ("internet_recon" in tags
                <==> f.path !in {"/", "/login", "/admin", "/config", "/status"}
                     || Mentions(f, "wget") || Mentions(f, "curl") || Mentions(f, "cmd="))
  {
    hide RuleTags, PathTags, Mentions, TagsSound;
    PathTagsExactly(f);
    ProbeRulesExactly(f);
    ToolRulesExactly(f);
  }

  lemma ProbeTagsOf(f: Request)
    ensures var tags := RuleTags(f, 8);
            && ("sqli_probe" in tags <==> Mentions(f, "union select"))
            && ("xss_probe" in tags <==> Mentions(f, "<script>"))
            && ("path_traversal_probe" in tags <==> Mentions(f, "../"))
  {
    hide RuleTags, PathTags, Mentions, TagsSound;
    PathTagsExactly(f);
    ProbeRulesExactly(f);
    ToolRulesExactly(f);
  }

  /** The tags and the suspicion of every parsed request, each exactly when. */
  lemma DecoyTagsExactly(raw: string)
    requires ParseRequest(raw).Some?
    ensures var r := ParseRequest(raw).value;
            var admin, login := r.path in {"/admin", "/config", "/status"}, r.verb == "POST" && r.path == "/login";
            var unknown := r.path !in {"/", "/login", "/admin", "/config", "/status"};
            && ("credential_bruteforce" in r.tags <==> login)
            && ("credential_attempt" in r.tags <==> login && (r.username != "" || r.password != ""))
            && ("admin_panel_enumeration" in r.tags <==> admin || Mentions(r, "phpmyadmin"))
            && ("sensitive_path_discovery" in r.tags <==> admin || Mentions(r, ".env"))
            && ("internet_recon" in r.tags <==> unknown || Mentions(r, "wget") || Mentions(r, "curl") || Mentions(r, "cmd="))
            && ("sqli_probe" in r.tags <==> Mentions(r, "union select"))
            && ("xss_probe" in r.tags <==> Mentions(r, "<script>"))
            && ("path_traversal_probe" in r.tags <==> Mentions(r, "../"))
            && (r.suspicious <==> unknown || MentionsProbe(r) || MentionsTool(r))
  {
    hide ParseRequest, RuleTags, RuleSuspicion, PathTags, Mentions, TagsSound;
    var f := AnalyzedFields(raw);
    SameMentions(f, ParseRequest(raw).value);
    LoginTagsOf(f);
    DiscoveryTagsOf(f);
    ProbeTagsOf(f);
    SuspicionExactly(f);
  }

  lemma SameMentions(f: Request, r: Request)
    requires r.path == f.path && r.body == f.body && r.username == f.username && r.password == f.password
    ensures forall needle :: Mentions(f, needle) <==> Mentions(r, needle)
    ensures forall needle :: Mentions(f, needle) <==> Hits(f, needle)
  {
    hide ContainsIgnoringCase;
  }

  lemma AnalyzedFields(raw: string) returns (f: Request)
    requires ParseRequest(raw).Some?
    ensures var r := ParseRequest(raw).value;
            && r.verb == f.verb && r.path == f.path && r.body == f.body && r.username == f.username && r.password == f.password
            && r.tags == RuleTags(f, 8) && r.suspicious == RuleSuspicion(f, 8)
  {
    hide FieldsOf, RequestLine, RuleTags, RuleSuspicion, Find;
    var end := Find(raw, CRLF).value;
    var (verb, path) := RequestLine(Clip(raw[..end], MAX_LINE_LENGTH)).value;
    f := FieldsOf(raw, verb, path);
  }

  /** The class the decoy reports, exactly when. */
  lemma DecoyClassExactly(raw: string)
    requires ParseRequest(raw).Some?
    ensures var r := ParseRequest(raw).value;
            var c := DecoyClass(r.tags, r.suspicious);
            var admin, login := r.path in {"/admin", "/config", "/status"}, r.verb == "POST" && r.path == "/login";
            var discovery := Mentions(r, ".env") || Mentions(r, "phpmyadmin");
            && (c == "credential" <==> login)
            && (c == "recon" <==> admin || (!login && !MentionsProbe(r) && discovery))
            && (c == "scan" <==> !login && !admin && !MentionsProbe(r) && !discovery && r.suspicious)
            && (c == "probe" <==> !login && !admin && (MentionsProbe(r) || (!discovery && !r.suspicious)))
  {
    hide ParseRequest, RuleTags, RuleSuspicion, PathTags, Mentions, Hits, TagsSound, FirstClass;
    var f := AnalyzedFields(raw);
    SameMentions(f, ParseRequest(raw).value);
    RuleTagsClass(f);
    PathTagsClass(f);
  }

  /** Only a post carries credentials. */
  lemma OnlyPostsCarryCredentials(raw: string)
    requires ParseRequest(raw).Some? && ParseRequest(raw).value.verb != "POST"
    ensures ParseRequest(raw).value.username == "" && ParseRequest(raw).value.password == ""
  {
    hide RequestLine, RuleTags, RuleSuspicion, Find, HeaderValue;
  }
}
