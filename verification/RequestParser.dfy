/**
 The decoy's request parser: request line, header fields, form fields and tagging,
 into a structure of fixed-size fields.
 */
module RequestParser {
  import opened Ascii
  import opened Options
  import opened CStrings
  import opened FormDecoding
  import opened Sets

  const MAX_METHOD_LENGTH: nat := 8
  const MAX_PATH_LENGTH: nat := 256
  const MAX_USER_AGENT_LENGTH: nat := 256
  const MAX_HOSTNAME_LENGTH: nat := 64
  const MAX_ACCEPT_LENGTH: nat := 128
  const MAX_BODY_LENGTH: nat := 2048
  const MAX_TAG_COUNT: nat := 12
  const MAX_TAG_LENGTH: nat := 64
  const MAX_LINE_LENGTH: nat := 512

  const CRLF: string := "\r\n"
  const BLANK_LINE: string := "\r\n\r\n"

  datatype Request = Request(
    verb: string,
    path: string,
    userAgent: string,
    host: string,
    accept: string,
    body: string,
    username: string,
    password: string,
    suspicious: bool,
    tags: seq<string>)

  // ---------- Searching without regard to case ----------

  predicate SameLetters(haystack: string, needle: string, at: nat) {
    && at + |needle| <= |haystack|
    && forall j :: 0 <= j < |needle| ==> LowerChar(haystack[at + j]) == LowerChar(needle[j])
  }

  predicate ContainsIgnoringCase(haystack: string, needle: string) {
    needle != "" && exists i :: 0 <= i <= |haystack| && SameLetters(haystack, needle, i)
  }

  method FindIgnoringCase(haystack: string, needle: string) returns (found: bool)
    ensures found == ContainsIgnoringCase(haystack, needle)
  {
    if |needle| == 0 || |haystack| < |needle| {
      return false;
    }
    var i := 0;
    while i + |needle| <= |haystack|
      invariant 0 <= i <= |haystack|
      invariant forall k :: 0 <= k < i ==> !SameLetters(haystack, needle, k)
    {
      var j := 0;
      while j < |needle| && LowerChar(haystack[i + j]) == LowerChar(needle[j])
        invariant 0 <= j <= |needle|
        invariant forall k :: 0 <= k < j ==> LowerChar(haystack[i + k]) == LowerChar(needle[k])
      {
        j := j + 1;
      }
      if j == |needle| {
        assert SameLetters(haystack, needle, i);
        return true;
      }
      i := i + 1;
    }
    return false;
  }

  // ---------- Request line and header fields ----------

  /** A run of at most `limit` non-blank characters (`%<limit>s`). */
  function Word(s: string, limit: nat): (w: string)
    ensures |w| <= limit && |w| <= |s| && w == s[..|w|]
  {
    if s == "" || limit == 0 || IsBlank(s[0]) then "" else [s[0]] + Word(s[1..], limit - 1)
  }

  function SkipSpaces(s: string): (r: string)
    ensures |r| <= |s|
  {
    if s != "" && s[0] == ' ' then SkipSpaces(s[1..]) else s
  }

  function BeforeQuestion(s: string): (r: string)
    ensures |r| <= |s|
  {
    if s == "" || s[0] == '?' then "" else [s[0]] + BeforeQuestion(s[1..])
  }

  /** A word is the longest run of non-blank characters within its limit. */
  lemma {:induction false} WordIsLongest(s: string, limit: nat)
    ensures var w := Word(s, limit);
            && w <= s && |w| <= limit && (forall i :: 0 <= i < |w| ==> !IsBlank(w[i]))
            && (|w| < |s| && |w| < limit ==> IsBlank(s[|w|]))
  {
    if s != "" && limit > 0 && !IsBlank(s[0]) {
      WordIsLongest(s[1..], limit - 1);
      var w := Word(s[1..], limit - 1);
      assert Word(s, limit) == [s[0]] + w;
    }
  }

  /** The path ends at the first question mark. */
  lemma {:induction false} BeforeQuestionExactly(s: string)
    ensures var t := BeforeQuestion(s); t <= s && '?' !in t && (|t| < |s| ==> s[|t|] == '?')
  {
    if s != "" && s[0] != '?' {
      BeforeQuestionExactly(s[1..]);
      assert BeforeQuestion(s) == [s[0]] + BeforeQuestion(s[1..]);
    }
  }

  lemma {:induction false} SkipSpacesExactly(s: string) returns (n: nat)
    ensures n <= |s| && SkipSpaces(s) == s[n..] && (forall i :: 0 <= i < n ==> s[i] == ' ') && (n < |s| ==> s[n] != ' ')
  {
    n := 0;
    if s != "" && s[0] == ' ' {
      n := SkipSpacesExactly(s[1..]);
      assert forall i :: 1 <= i < n + 1 ==> s[i] == s[1..][i - 1];
      n := n + 1;
    }
  }

  /** Method and path of the first line, or nothing when either is missing. */
  function RequestLine(line: string): (r: Option<(string, string)>)
    ensures r.Some? ==> |r.value.0| < MAX_METHOD_LENGTH && |r.value.1| < MAX_PATH_LENGTH
  {
    var start := SkipBlanks(line);
    var verb := Word(start, MAX_METHOD_LENGTH - 1);
    var path := Word(SkipBlanks(start[|verb|..]), MAX_PATH_LENGTH - 1);
    if verb == "" || path == "" then None else Some((verb, BeforeQuestion(path)))
  }

  /** The value of the first matching field before the blank line; a field with nothing after
      its colon does not match. */
  function HeaderValue(s: string, name: string): string
    decreases |s|
  {
    match Find(s, CRLF)
    case None => ""
    case Some(end) =>
      if end == 0 then ""
      else if end > |name| + 1 && SameLetters(s, name, 0) && s[|name|] == ':' then SkipSpaces(s[|name| + 1..end])
      else HeaderValue(s[end + 2..], name)
  }

  lemma NoHeader(name: string)
    ensures HeaderValue("", name) == ""
  {
    assert Find("", CRLF) == None;
  }

  method ExtractHeaderValue(raw: string, name: string) returns (value: string)
    ensures value == HeaderValue(raw, name)
  {
    hide Find, SkipSpaces;
    var cursor := raw;
    while cursor != ""
      invariant HeaderValue(raw, name) == HeaderValue(cursor, name)
      decreases |cursor|
    {
      var lineEnd := Find(cursor, CRLF);
      if lineEnd == None || lineEnd.value == 0 {
        return "";
      }
      var length := lineEnd.value;
      if length > |name| + 1 {
        var matches := true;
        var i := 0;
        while i < |name| && matches
          invariant 0 <= i <= |name|
          invariant matches <==> forall j :: 0 <= j < i ==> LowerChar(cursor[j]) == LowerChar(name[j])
        {
          if LowerChar(cursor[i]) != LowerChar(name[i]) {
            matches := false;
          }
          i := i + 1;
        }
        assert matches <==> SameLetters(cursor, name, 0);
        if matches && cursor[|name|] == ':' {
          return SkipSpaces(cursor[|name| + 1..length]);
        }
      }
      cursor := cursor[length + 2..];
    }
    assert HeaderValue("", name) == "" by { NoHeader(name); }
    return "";
  }

  // ---------- Tagging ----------

  datatype Rule = Rule(needle: string, tag: string)

  const SUSPICIOUS_RULES: seq<Rule> := [
    Rule("union select", "sqli_probe"),
    Rule("<script>", "xss_probe"),
    Rule("../", "path_traversal_probe"),
    Rule("wget", "internet_recon"),
    Rule("curl", "internet_recon"),
    Rule("cmd=", "internet_recon"),
    Rule(".env", "sensitive_path_discovery"),
    Rule("phpmyadmin", "admin_panel_enumeration")]

  const VOCABULARY: set<string> := {
    "credential_bruteforce", "credential_attempt", "admin_panel_enumeration", "sensitive_path_discovery",
    "internet_recon", "sqli_probe", "xss_probe", "path_traversal_probe"}

  predicate IsAdminPath(path: string) { path == "/admin" || path == "/config" || path == "/status" }

  predicate IsKnownPath(path: string) { path == "/" || path == "/login" || IsAdminPath(path) }

  /** Appends a tag unless it is there already or the list is full. */
  function WithTag(tags: seq<string>, tag: string): seq<string> {
    if tag == "" || tag in tags || |tags| >= MAX_TAG_COUNT then tags else tags + [Clip(tag, MAX_TAG_LENGTH)]
  }

  function WithTagIf(tags: seq<string>, condition: bool, tag: string): seq<string> {
    if condition then WithTag(tags, tag) else tags
  }

  predicate Hits(r: Request, needle: string) {
    || ContainsIgnoringCase(r.path, needle) || ContainsIgnoringCase(r.body, needle)
    || ContainsIgnoringCase(r.username, needle) || ContainsIgnoringCase(r.password, needle)
  }

  /** The tags that method and path alone give. */
  function PathTags(r: Request): seq<string> {
    var login := r.verb == "POST" && r.path == "/login";
    var t1 := WithTagIf([], login, "credential_bruteforce");
    var t2 := WithTagIf(t1, login && (r.username != "" || r.password != ""), "credential_attempt");
    var t3 := WithTagIf(t2, IsAdminPath(r.path), "admin_panel_enumeration");
    var t4 := WithTagIf(t3, IsAdminPath(r.path), "sensitive_path_discovery");
    WithTagIf(t4, !IsKnownPath(r.path), "internet_recon")
  }

  /** The tags after the first `n` rules. */
  function RuleTags(r: Request, n: nat): seq<string>
    requires n <= |SUSPICIOUS_RULES|
  {
    if n == 0 then PathTags(r)
    else WithTagIf(RuleTags(r, n - 1), Hits(r, SUSPICIOUS_RULES[n - 1].needle), SUSPICIOUS_RULES[n - 1].tag)
  }

  function RuleSuspicion(r: Request, n: nat): bool
    requires n <= |SUSPICIOUS_RULES|
  {
    if n == 0 then !IsKnownPath(r.path)
    else RuleSuspicion(r, n - 1) || Hits(r, SUSPICIOUS_RULES[n - 1].needle)
  }

  /** The request with its tags and suspicion filled in. */
  function Analyzed(r: Request): Request {
    r.(tags := RuleTags(r, |SUSPICIOUS_RULES|), suspicious := RuleSuspicion(r, |SUSPICIOUS_RULES|))
  }

  // ---------- The whole parse ----------

  function BodyOf(raw: string): string {
    match Find(raw, BLANK_LINE)
    case None => ""
    case Some(at) => Clip(raw[at + 4..], MAX_BODY_LENGTH)
  }

  function FieldsOf(raw: string, verb: string, path: string): Request {
    var body := BodyOf(raw);
    Request(verb, path,
            Clip(HeaderValue(raw, "User-Agent"), MAX_USER_AGENT_LENGTH),
            Clip(HeaderValue(raw, "Host"), MAX_HOSTNAME_LENGTH),
            Clip(HeaderValue(raw, "Accept"), MAX_ACCEPT_LENGTH),
            body,
            if verb == "POST" then ExtractFormField(body, "username") else "",
            if verb == "POST" then ExtractFormField(body, "password") else "",
            false, [])
  }

  function ParseRequest(raw: string): Option<Request> {
    match Find(raw, CRLF)
    case None => None
    case Some(end) =>
      match RequestLine(Clip(raw[..end], MAX_LINE_LENGTH))
      case None => None
      case Some((verb, path)) => Some(Analyzed(FieldsOf(raw, verb, path)))
  }

  /** Every field fits its array with a terminator. */
  ghost predicate FitsFields(r: Request) {
    && |r.verb| < MAX_METHOD_LENGTH && |r.path| < MAX_PATH_LENGTH && |r.userAgent| < MAX_USER_AGENT_LENGTH
    && |r.host| < MAX_HOSTNAME_LENGTH && |r.accept| < MAX_ACCEPT_LENGTH && |r.body| < MAX_BODY_LENGTH
    && |r.username| < MAX_FIELD_LENGTH && |r.password| < MAX_FIELD_LENGTH
  }

  /** Duplicate-free and within the eight-tag vocabulary. */
  ghost predicate TagsSound(tags: seq<string>) {
    && (forall i, j :: 0 <= i < j < |tags| ==> tags[i] != tags[j])
    && (forall i :: 0 <= i < |tags| ==> tags[i] in VOCABULARY)
  }

  lemma VocabularySize()
    ensures |VOCABULARY| <= 8
  {
    var a := ["credential_bruteforce", "credential_attempt", "admin_panel_enumeration", "sensitive_path_discovery",
              "internet_recon", "sqli_probe", "xss_probe", "path_traversal_probe"];
    AtMostLength(a);
    assert VOCABULARY == set x | x in a;
  }

  /** So the twelve-tag cap never binds. */
  lemma SoundTagsAreFew(tags: seq<string>)
    requires TagsSound(tags)
    ensures |tags| <= 8
  {
    VocabularySize();
    DistinctSize(tags);
    SubsetSize((set x | x in tags), VOCABULARY);
  }

  lemma VocabularyFits(tag: string)
    requires tag in VOCABULARY
    ensures 0 < |tag| <= 24
  {
  }

  /** Below the cap a vocabulary tag is simply appended unless present. */
  lemma WithTagSound(tags: seq<string>, condition: bool, tag: string)
    requires TagsSound(tags) && tag in VOCABULARY
    ensures TagsSound(WithTagIf(tags, condition, tag))
    ensures WithTagIf(tags, condition, tag) == if condition && tag !in tags then tags + [tag] else tags
  {
    SoundTagsAreFew(tags);
    VocabularyFits(tag);
  }

  lemma PathTagsSound(r: Request)
    ensures TagsSound(PathTags(r))
  {
    hide WithTagIf, TagsSound;
    var login := r.verb == "POST" && r.path == "/login";
    NoTagsSound();
    WithTagSound([], login, "credential_bruteforce");
    var t1 := WithTagIf([], login, "credential_bruteforce");
    WithTagSound(t1, login && (r.username != "" || r.password != ""), "credential_attempt");
    var t2 := WithTagIf(t1, login && (r.username != "" || r.password != ""), "credential_attempt");
    WithTagSound(t2, IsAdminPath(r.path), "admin_panel_enumeration");
    var t3 := WithTagIf(t2, IsAdminPath(r.path), "admin_panel_enumeration");
    WithTagSound(t3, IsAdminPath(r.path), "sensitive_path_discovery");
    WithTagSound(WithTagIf(t3, IsAdminPath(r.path), "sensitive_path_discovery"), !IsKnownPath(r.path), "internet_recon");
  }

  lemma NoTagsSound()
    ensures TagsSound([])
  {
  }

  lemma RuleTagsKnown(i: nat)
    requires i < |SUSPICIOUS_RULES|
    ensures SUSPICIOUS_RULES[i].tag in VOCABULARY
  {
  }

  lemma {:induction false} RuleTagsSound(r: Request, n: nat)
    requires n <= |SUSPICIOUS_RULES|
    ensures TagsSound(RuleTags(r, n))
  {
    hide PathTags, WithTagIf, TagsSound, Hits;
    if n == 0 {
      PathTagsSound(r);
    } else {
      RuleTagsSound(r, n - 1);
      RuleTagsKnown(n - 1);
      WithTagSound(RuleTags(r, n - 1), Hits(r, SUSPICIOUS_RULES[n - 1].needle), SUSPICIOUS_RULES[n - 1].tag);
    }
  }

  /** What every successfully parsed request satisfies. */
  lemma ParsedRequestFits(raw: string)
    requires ParseRequest(raw).Some?
    ensures FitsFields(ParseRequest(raw).value) && TagsSound(ParseRequest(raw).value.tags)
  {
    hide RuleTags, RuleSuspicion, HeaderValue, ExtractFormField, TagsSound;
    var end := Find(raw, CRLF).value;
    var (verb, path) := RequestLine(Clip(raw[..end], MAX_LINE_LENGTH)).value;
    RuleTagsSound(FieldsOf(raw, verb, path), |SUSPICIOUS_RULES|);
  }
}
