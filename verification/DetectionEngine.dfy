/**
 The detection engine of the control plane as a pure fold: which detections an
 event emits given the rows around it, and how one emission updates the
 detection and investigation tables.  `DetectionStore` runs the same engine on
 mutable tables and is proved against the functions of this module.
 */
module DetectionEngine {
  import opened Options

  // ---------- Rows ----------

  /** Microseconds; only differences and comparisons matter. */
  type Time = int

  const MINUTE: Time := 60_000_000
  const DETECTION_WINDOW: Time := 10 * MINUTE
  const DISTRIBUTED_WINDOW: Time := 60 * MINUTE

  const SENSITIVE_PATHS: set<string> := {"/admin", "/config", "/status", "/.env", "/backup", "/phpmyadmin"}

  datatype Event = Event(
    eventId: string,
    occurredAt: Time,
    decoyId: string,
    srcIp: string,
    verb: string,
    path: string,
    username: string,
    password: string,
    suspicious: bool,
    normalizedTags: set<string>,
    requestFingerprint: string,
    eventClass: string)

  /** The nine detection types, in the order in which the engine tries them. */
  datatype Kind =
    | PathTraversalProbe
    | XssProbe
    | SqliProbe
    | SensitivePathDiscovery
    | AdminPanelEnumeration
    | CredentialBruteforce
    | CredentialStuffing
    | InternetRecon
    | DistributedScannerActivity
  {
    function Name(): string {
      match this
      case PathTraversalProbe => "path_traversal_probe"
      case XssProbe => "xss_probe"
      case SqliProbe => "sqli_probe"
      case SensitivePathDiscovery => "sensitive_path_discovery"
      case AdminPanelEnumeration => "admin_panel_enumeration"
      case CredentialBruteforce => "credential_bruteforce"
      case CredentialStuffing => "credential_stuffing"
      case InternetRecon => "internet_recon"
      case DistributedScannerActivity => "distributed_scanner_activity"
    }

    function Index(): nat {
      match this
      case PathTraversalProbe => 0
      case XssProbe => 1
      case SqliProbe => 2
      case SensitivePathDiscovery => 3
      case AdminPanelEnumeration => 4
      case CredentialBruteforce => 5
      case CredentialStuffing => 6
      case InternetRecon => 7
      case DistributedScannerActivity => 8
    }
  }

  /** All types in their order; the sequence below and `Index` agree. */
  const KINDS: seq<Kind> := [
    PathTraversalProbe, XssProbe, SqliProbe, SensitivePathDiscovery, AdminPanelEnumeration,
    CredentialBruteforce, CredentialStuffing, InternetRecon, DistributedScannerActivity]

  /** A value of an evidence dictionary; a sorted list of distinct names is kept as their set. */
  datatype Evidence = Text(text: string) | Names(names: set<string>) | Count(count: nat)

  datatype Detection = Detection(
    kind: Kind,
    status: string,
    assignedTo: Option<string>,
    triageNotes: Option<string>,
    blockTargets: seq<string>,
    evidence: map<string, Evidence>,
    decoyId: string,
    srcIp: string,
    eventId: string,
    investigation: Option<string>,
    occurrences: nat,
    firstSeenAt: Time,
    lastSeenAt: Time)

  datatype ActivityClass = Unknown | Opportunistic | Targeted {
    function Rank(): nat {
      match this
      case Unknown => 0
      case Opportunistic => 1
      case Targeted => 2
    }
  }

  datatype Investigation = Investigation(
    firstSeen: Time,
    lastSeen: Time,
    detectionCount: nat,
    decoySpread: nat,
    activityClass: ActivityClass)

  /** The two result tables, each keyed by its unique fingerprint column. */
  datatype Findings = Findings(detections: map<string, Detection>, investigations: map<string, Investigation>)

  const NO_FINDINGS := Findings(map[], map[])

  // ---------- Windows ----------

  predicate InWindow(row: Event, e: Event, width: Time) {
    row.srcIp == e.srcIp && e.occurredAt - width <= row.occurredAt <= e.occurredAt
  }

  /** The rows of the trailing window of `e`; nothing below depends on their order. */
  function Recent(events: seq<Event>, e: Event, width: Time): seq<Event> {
    if |events| == 0 then []
    else
      var row := events[|events| - 1];
      var earlier := Recent(events[..|events| - 1], e, width);
      if InWindow(row, e, width) then earlier + [row] else earlier
  }

  datatype Observed = Observed(attempts: nat, usernames: set<string>, paths: set<string>, decoys: set<string>)

  function Usernames(rows: seq<Event>): set<string> { set r | r in rows && r.username != "" :: r.username }
  function Paths(rows: seq<Event>): set<string> { set r | r in rows :: r.path }
  function Decoys(rows: seq<Event>): set<string> { set r | r in rows :: r.decoyId }

  function Observe(events: seq<Event>, e: Event): Observed {
    var recent := Recent(events, e, DETECTION_WINDOW);
    Observed(|recent|, Usernames(recent), Paths(recent), Decoys(Recent(events, e, DISTRIBUTED_WINDOW)))
  }

  // ---------- Emissions ----------

  predicate LoginPost(e: Event) { e.path == "/login" && e.verb == "POST" }

  predicate Triggers(kind: Kind, e: Event, o: Observed) {
    match kind
    case PathTraversalProbe => "path_traversal_probe" in e.normalizedTags
    case XssProbe => "xss_probe" in e.normalizedTags
    case SqliProbe => "sqli_probe" in e.normalizedTags
    case SensitivePathDiscovery => e.path in SENSITIVE_PATHS
    case AdminPanelEnumeration => |o.paths * SENSITIVE_PATHS| >= 2
    case CredentialBruteforce => LoginPost(e) && o.attempts >= 3
    case CredentialStuffing => LoginPost(e) && o.attempts >= 5 && |o.usernames| >= 3
    case InternetRecon => |o.paths| >= 4 || (e.suspicious && e.eventClass in {"recon", "scan"})
    case DistributedScannerActivity => |o.decoys| >= 3
  }

  function EvidenceFor(kind: Kind, e: Event, o: Observed): map<string, Evidence> {
    match kind
    case PathTraversalProbe => map["paths" := Names({e.path}), "event_id" := Text(e.eventId)]
    case XssProbe => map["event_id" := Text(e.eventId)]
    case SqliProbe => map["event_id" := Text(e.eventId)]
    case SensitivePathDiscovery => map["path" := Text(e.path)]
    case AdminPanelEnumeration => map["paths" := Names(o.paths * SENSITIVE_PATHS)]
    case CredentialBruteforce => map["attempts" := Count(o.attempts), "usernames" := Names(o.usernames)]
    case CredentialStuffing => map["attempts" := Count(o.attempts), "usernames" := Names(o.usernames)]
    case InternetRecon => map["paths" := Names(o.paths)]
    case DistributedScannerActivity => map["decoys" := Names(o.decoys)]
  }

  /** The dictionary keys of a type's evidence. */
  function EvidenceKeys(kind: Kind): set<string> {
    match kind
    case PathTraversalProbe => {"paths", "event_id"}
    case XssProbe => {"event_id"}
    case SqliProbe => {"event_id"}
    case SensitivePathDiscovery => {"path"}
    case AdminPanelEnumeration => {"paths"}
    case CredentialBruteforce => {"attempts", "usernames"}
    case CredentialStuffing => {"attempts", "usernames"}
    case InternetRecon => {"paths"}
    case DistributedScannerActivity => {"decoys"}
  }

  /** One write to the findings: a detection emitted for an event, or an analyst's edit of one. */
  datatype Step =
    | Emit(event: Event, kind: Kind, evidence: map<string, Evidence>)
    | Triage(fingerprint: string, status: Option<string>, assignedTo: Option<string>, triageNotes: Option<string>)
  {
    function Fingerprint(): string {
      match this
      case Emit(e, k, _) => DetectionFingerprint(k, e)
      case Triage(f, _, _, _) => f
    }
  }

  /** The emissions of `e` among the first `n` detection types. */
  function EmissionsUpTo(n: nat, e: Event, o: Observed): seq<Step>
    requires n <= |KINDS|
  {
    if n == 0 then []
    else
      var k := KINDS[n - 1];
      var earlier := EmissionsUpTo(n - 1, e, o);
      if Triggers(k, e, o) then earlier + [Emit(e, k, EvidenceFor(k, e, o))] else earlier
  }

  function Emissions(events: seq<Event>, e: Event): seq<Step> {
    EmissionsUpTo(|KINDS|, e, Observe(events, e))
  }

  // ---------- Fingerprints ----------

  function SourceScope(e: Event): string { e.srcIp + ":" + e.decoyId + ":" + e.requestFingerprint }

  function Scope(kind: Kind, e: Event): string {
    if kind == DistributedScannerActivity then e.srcIp else SourceScope(e)
  }

  function DetectionFingerprint(kind: Kind, e: Event): string { kind.Name() + ":" + Scope(kind, e) }

  function InvestigationFingerprint(e: Event): string {
    if e.srcIp != "" then e.srcIp else e.requestFingerprint
  }

  // ---------- Recording ----------

  function Max(a: int, b: int): int { if a >= b then a else b }

  function EnsureInvestigation(invs: map<string, Investigation>, key: string, e: Event): map<string, Investigation> {
    if key !in invs then invs[key := Investigation(e.occurredAt, e.occurredAt, 0, 1, Unknown)]
    else invs[key := invs[key].(lastSeen := Max(invs[key].lastSeen, e.occurredAt))]
  }

  /** Fingerprints of the detections that belong to investigation `key`. */
  function Members(dets: map<string, Detection>, key: string): set<string> {
    set f | f in dets && dets[f].investigation == Some(key)
  }

  function MemberDecoys(dets: map<string, Detection>, key: string): set<string> {
    set f | f in Members(dets, key) && dets[f].decoyId != "" :: dets[f].decoyId
  }

  function Spread(dets: map<string, Detection>, key: string): nat {
    Max(|MemberDecoys(dets, key)|, if Members(dets, key) != {} then 1 else 0)
  }

  function Classify(spread: nat, count: nat): ActivityClass {
    if spread >= 3 && count >= 3 then Targeted else if spread >= 2 then Opportunistic else Unknown
  }

  function UpdateStats(inv: Investigation, dets: map<string, Detection>, key: string): Investigation {
    var count := |Members(dets, key)|;
    var spread := Spread(dets, key);
    inv.(detectionCount := count, decoySpread := spread, activityClass := Classify(spread, count))
  }

  function NewDetection(kind: Kind, evidence: map<string, Evidence>, e: Event): Detection {
    Detection(kind, "new", None, None,
              if e.srcIp != "" && e.srcIp != "unknown" then [e.srcIp] else [],
              evidence, e.decoyId, e.srcIp, e.eventId, Some(InvestigationFingerprint(e)),
              1, e.occurredAt, e.occurredAt)
  }

  function RepeatDetection(d: Detection, evidence: map<string, Evidence>, e: Event): Detection {
    d.(occurrences := d.occurrences + 1,
    lastSeenAt := e.occurredAt,
    evidence := d.evidence + evidence,
    blockTargets := if e.srcIp != "" && e.srcIp !in d.blockTargets then d.blockTargets + [e.srcIp] else d.blockTargets,
    investigation := if d.investigation == None then Some(InvestigationFingerprint(e)) else d.investigation)
  }

  function RecordDetections(dets: map<string, Detection>, e: Event, kind: Kind, evidence: map<string, Evidence>)
    : map<string, Detection>
  {
    var f := DetectionFingerprint(kind, e);
    dets[f := if f in dets then RepeatDetection(dets[f], evidence, e) else NewDetection(kind, evidence, e)]
  }

  function Record(db: Findings, e: Event, kind: Kind, evidence: map<string, Evidence>): Findings {
    var key := InvestigationFingerprint(e);
    var invs := EnsureInvestigation(db.investigations, key, e);
    var dets := RecordDetections(db.detections, e, kind, evidence);
    Findings(dets, invs[key := UpdateStats(invs[key], dets, key)])
  }

  function Apply(db: Findings, step: Step): Findings {
    match step
    case Emit(e, kind, evidence) => Record(db, e, kind, evidence)
    case Triage(f, status, assignedTo, notes) =>
      if f !in db.detections then db
      else
        var d := db.detections[f];
        db.(detections := db.detections[f := d.(status := status.GetOr(d.status),
                                               assignedTo := assignedTo.Or(d.assignedTo),
                                               triageNotes := notes.Or(d.triageNotes))])
  }

  function Replay(db: Findings, steps: seq<Step>): Findings {
    if |steps| == 0 then db
    else Apply(Replay(db, steps[..|steps| - 1]), steps[|steps| - 1])
  }

  // ---------- Draining ----------

  /** Stable insertion by time: after every row that is not later. */
  function InsertByTime(sorted: seq<Event>, e: Event): seq<Event> {
    if |sorted| == 0 || sorted[|sorted| - 1].occurredAt <= e.occurredAt then sorted + [e]
    else InsertByTime(sorted[..|sorted| - 1], e) + [sorted[|sorted| - 1]]
  }

  /** `ORDER BY occurred_at`, with ties left in insertion order. */
  function ByTime(events: seq<Event>): seq<Event> {
    if |events| == 0 then [] else InsertByTime(ByTime(events[..|events| - 1]), events[|events| - 1])
  }

  /** The rows whose `alert_processed` flag is still false. */
  function Unprocessed(events: seq<Event>, processed: set<string>): seq<Event> {
    if |events| == 0 then []
    else
      var rest := Unprocessed(events[1..], processed);
      if events[0].eventId in processed then rest else [events[0]] + rest
  }

  function Backlog(events: seq<Event>, processed: set<string>): seq<Event> {
    Unprocessed(ByTime(events), processed)
  }

  function Take<T>(s: seq<T>, n: nat): seq<T> { if n < |s| then s[..n] else s }

  /** Everything the engine emits while working through `batch` over a fixed event table. */
  function Journal(events: seq<Event>, batch: seq<Event>): seq<Step> {
    if |batch| == 0 then []
    else Journal(events, batch[..|batch| - 1]) + Emissions(events, batch[|batch| - 1])
  }

  function Ids(events: seq<Event>): set<string> { set e | e in events :: e.eventId }

  /** The tables the engine reads and writes. */
  datatype Tables = Tables(events: seq<Event>, processed: set<string>, findings: Findings)

  const NO_TABLES := Tables([], {}, NO_FINDINGS)

  /** The tables after working through `batch`. */
  function Process(db: Tables, batch: seq<Event>): Tables {
    db.(processed := db.processed + Ids(batch), findings := Replay(db.findings, Journal(db.events, batch)))
  }

  /** One run of the engine with the given row limit. */
  function Materialize(db: Tables, limit: nat): Tables {
    Process(db, Take(Backlog(db.events, db.processed), limit))
  }

  /** Deduplication on `event_id`. */
  function Insert(db: Tables, e: Event): Tables {
    if e.eventId in Ids(db.events) then db else db.(events := db.events + [e])
  }

  ghost predicate DistinctIds(events: seq<Event>) {
    forall i, j :: 0 <= i < j < |events| ==> events[i].eventId != events[j].eventId
  }
}
