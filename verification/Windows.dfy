/**
 What an event makes the engine emit, said on the event table itself: which rows
 of its source lie in the closed ten or sixty minutes that end with it.  Times are
 in microseconds.
 */
module Windows {
  import opened DetectionEngine
  import opened FindingsHistory
  import opened Draining
  import opened Reachability

  /** The positions of the rows of `src` between two moments, both included. */
  function RowsBetween(events: seq<Event>, src: string, from: Time, to: Time): set<nat> {
    set i | 0 <= i < |events| && events[i].srcIp == src && from <= events[i].occurredAt <= to
  }

  function NamesTried(events: seq<Event>, src: string, from: Time, to: Time): set<string> {
    set e | e in events && e.srcIp == src && from <= e.occurredAt <= to && e.username != "" :: e.username
  }

  function PathsSeen(events: seq<Event>, src: string, from: Time, to: Time): set<string> {
    set e | e in events && e.srcIp == src && from <= e.occurredAt <= to :: e.path
  }

  function DecoysTouched(events: seq<Event>, src: string, from: Time, to: Time): set<string> {
    set e | e in events && e.srcIp == src && from <= e.occurredAt <= to :: e.decoyId
  }

  lemma {:induction false} RecentCounts(events: seq<Event>, e: Event, width: Time)
    ensures |Recent(events, e, width)| == |RowsBetween(events, e.srcIp, e.occurredAt - width, e.occurredAt)|
  {
    var rows := RowsBetween(events, e.srcIp, e.occurredAt - width, e.occurredAt);
    if |events| > 0 {
      var n := |events| - 1;
      var earlier := RowsBetween(events[..n], e.srcIp, e.occurredAt - width, e.occurredAt);
      RecentCounts(events[..n], e, width);
      assert rows == if InWindow(events[n], e, width) then earlier + {n} else earlier;
    } else {
      assert rows == {};
    }
  }

  /** What the engine observes around `e`, on the table. */
  lemma ObservedExactly(events: seq<Event>, e: Event)
    ensures var o, ago := Observe(events, e), e.occurredAt - 600_000_000;
            && o.attempts == |RowsBetween(events, e.srcIp, ago, e.occurredAt)|
            && o.usernames == NamesTried(events, e.srcIp, ago, e.occurredAt)
            && o.paths == PathsSeen(events, e.srcIp, ago, e.occurredAt)
            && o.decoys == DecoysTouched(events, e.srcIp, e.occurredAt - 3_600_000_000, e.occurredAt)
  {
    hide Recent;
    RecentCounts(events, e, DETECTION_WINDOW);
    RecentHolds(events, e, DETECTION_WINDOW);
    RecentHolds(events, e, DISTRIBUTED_WINDOW);
  }

  // ---------- What is emitted ----------

  /** Processing `e` over this table emits a detection under `f`. */
  ghost predicate Emitted(events: seq<Event>, e: Event, f: string) {
    exists step :: step in Emissions(events, e) && step.Fingerprint() == f
  }

  lemma EmittedMeansEmits(events: seq<Event>, e: Event, f: string)
    ensures Emitted(events, e, f) <==> Emits(events, e, f)
  {
    hide EmitsUpTo, EmissionsUpTo, DetectionFingerprint, Observe, Emitters;
    var steps := Emissions(events, e);
    EmitsEachOnce(|KINDS|, e, Observe(events, e), f);
    EmissionsOf(|KINDS|, e, Observe(events, e));
    EmittersHaveSteps(steps, f);
    if Emits(events, e, f) {
      assert e in Emitters(steps, f);
    }
    if step :| step in steps && step.Fingerprint() == f {
      StepsHaveEmitters(steps, step);
    }
  }

  lemma EmittedWhenTriggered(events: seq<Event>, e: Event, kind: Kind)
    ensures Emitted(events, e, kind.Name() + ":" + Scope(kind, e)) <==> Triggers(kind, e, Observe(events, e))
  {
    hide Kind.Name, Scope, Triggers, Observe, Emitted;
    var f, o := kind.Name() + ":" + Scope(kind, e), Observe(events, e);
    EmittedMeansEmits(events, e, f);
    IndexOfKind(kind);
    if Emits(events, e, f) {
      var i :| 0 <= i < |KINDS| && Triggers(KINDS[i], e, o) && DetectionFingerprint(KINDS[i], e) == f;
      FingerprintInjective(KINDS[i], kind, e, e);
    }
    if Triggers(kind, e, o) {
      assert DetectionFingerprint(KINDS[kind.Index()], e) == f;
    }
  }

  /** The scope under which all detections but one are kept. */
  function ScopeText(e: Event): string { e.srcIp + ":" + e.decoyId + ":" + e.requestFingerprint }

  lemma FingerprintTexts(e: Event)
    ensures forall kind: Kind :: kind != DistributedScannerActivity ==> Scope(kind, e) == ScopeText(e)
    ensures Scope(DistributedScannerActivity, e) == e.srcIp
  {
  }

  /** What the request itself shows. */
  lemma ProbesEmittedExactly(events: seq<Event>, e: Event)
    ensures Emitted(events, e, "path_traversal_probe:" + ScopeText(e)) <==> "path_traversal_probe" in e.normalizedTags
    ensures Emitted(events, e, "xss_probe:" + ScopeText(e)) <==> "xss_probe" in e.normalizedTags
    ensures Emitted(events, e, "sqli_probe:" + ScopeText(e)) <==> "sqli_probe" in e.normalizedTags
    ensures Emitted(events, e, "sensitive_path_discovery:" + ScopeText(e))
       <==> e.path in {"/admin", "/config", "/status", "/.env", "/backup", "/phpmyadmin"}
  {
    hide Kind.Name, Emitted, Observe, ScopeText, Scope;
    FingerprintTexts(e);
    EmittedWhenTriggered(events, e, PathTraversalProbe);
    EmittedWhenTriggered(events, e, XssProbe);
    EmittedWhenTriggered(events, e, SqliProbe);
    EmittedWhenTriggered(events, e, SensitivePathDiscovery);
    ProbeNames();
    DiscoveryNames();
  }

  lemma ProbeNames()
    ensures PathTraversalProbe.Name() + ":" == "path_traversal_probe:"
    ensures XssProbe.Name() + ":" == "xss_probe:"
    ensures SqliProbe.Name() + ":" == "sqli_probe:"
  {
  }

  lemma DiscoveryNames()
    ensures SensitivePathDiscovery.Name() + ":" == "sensitive_path_discovery:"
    ensures AdminPanelEnumeration.Name() + ":" == "admin_panel_enumeration:"
    ensures InternetRecon.Name() + ":" == "internet_recon:"
  {
  }

  lemma LoginNames()
    ensures CredentialBruteforce.Name() + ":" == "credential_bruteforce:"
    ensures CredentialStuffing.Name() + ":" == "credential_stuffing:"
  {
  }

  lemma DistributedName()
    ensures DistributedScannerActivity.Name() + ":" == "distributed_scanner_activity:"
  {
  }

  /** Brute force: a login post with at least three rows of its source, itself included, in the
      closed ten minutes that end with it. */
  lemma BruteForceEmittedExactly(events: seq<Event>, e: Event)
    ensures Emitted(events, e, "credential_bruteforce:" + ScopeText(e))
       <==> e.verb == "POST" && e.path == "/login"
            && |RowsBetween(events, e.srcIp, e.occurredAt - 600_000_000, e.occurredAt)| >= 3
  {
    hide Kind.Name, Emitted, Observe, ScopeText, Scope;
    FingerprintTexts(e);
    ObservedExactly(events, e);
    EmittedWhenTriggered(events, e, CredentialBruteforce);
    LoginNames();
  }

  /** Stuffing: five such rows with three different usernames among them, empty ones aside. */
  lemma StuffingEmittedExactly(events: seq<Event>, e: Event)
    ensures Emitted(events, e, "credential_stuffing:" + ScopeText(e))
       <==> e.verb == "POST" && e.path == "/login"
            && |RowsBetween(events, e.srcIp, e.occurredAt - 600_000_000, e.occurredAt)| >= 5
            && |NamesTried(events, e.srcIp, e.occurredAt - 600_000_000, e.occurredAt)| >= 3
  {
    hide Kind.Name, Emitted, Observe, ScopeText, Scope;
    FingerprintTexts(e);
    ObservedExactly(events, e);
    EmittedWhenTriggered(events, e, CredentialStuffing);
    LoginNames();
  }

  /** Enumeration takes two sensitive paths in those ten minutes, reconnaissance four paths or a
      suspicious request of a scanning class. */
  lemma DiscoveryEmittedExactly(events: seq<Event>, e: Event)
    ensures var paths := PathsSeen(events, e.srcIp, e.occurredAt - 600_000_000, e.occurredAt);
            && (Emitted(events, e, "admin_panel_enumeration:" + ScopeText(e))
                <==> |paths * {"/admin", "/config", "/status", "/.env", "/backup", "/phpmyadmin"}| >= 2)
            && (Emitted(events, e, "internet_recon:" + ScopeText(e))
                <==> |paths| >= 4 || (e.suspicious && (e.eventClass == "recon" || e.eventClass == "scan")))
  {
    hide Kind.Name, Emitted, Observe, ScopeText, Scope, PathsSeen, RowsBetween, NamesTried, DecoysTouched;
    FingerprintTexts(e);
    ObservedExactly(events, e);
    EmittedWhenTriggered(events, e, AdminPanelEnumeration);
    EmittedWhenTriggered(events, e, InternetRecon);
    DiscoveryNames();
  }

  /** Distributed scanning takes three decoys in the closed hour, under the source alone. */
  lemma DistributedEmittedExactly(events: seq<Event>, e: Event)
    ensures Emitted(events, e, "distributed_scanner_activity:" + e.srcIp)
       <==> |DecoysTouched(events, e.srcIp, e.occurredAt - 3_600_000_000, e.occurredAt)| >= 3
  {
    hide Kind.Name, Emitted, Observe, ScopeText, Scope, DecoysTouched;
    FingerprintTexts(e);
    ObservedExactly(events, e);
    EmittedWhenTriggered(events, e, DistributedScannerActivity);
    DistributedName();
  }

  lemma {:induction false} EvidenceOfEmission(n: nat, e: Event, o: Observed)
    requires n <= |KINDS|
    ensures forall step :: step in EmissionsUpTo(n, e, o) ==> step.Emit? && step.evidence == EvidenceFor(step.kind, e, o)
  {
    hide EvidenceFor, Triggers;
    if n > 0 {
      EvidenceOfEmission(n - 1, e, o);
    }
  }

  /** The evidence that goes with each emission. */
  lemma EvidenceExactly(events: seq<Event>, e: Event, step: Step)
    requires step in Emissions(events, e)
    ensures step.Emit?
    ensures var ago := e.occurredAt - 600_000_000;
            step.evidence ==
            match step.kind
            case PathTraversalProbe => map["paths" := Names({e.path}), "event_id" := Text(e.eventId)]
            case XssProbe => map["event_id" := Text(e.eventId)]
            case SqliProbe => map["event_id" := Text(e.eventId)]
            case SensitivePathDiscovery => map["path" := Text(e.path)]
            case AdminPanelEnumeration =>
              map["paths" := Names(PathsSeen(events, e.srcIp, ago, e.occurredAt)
                                   * {"/admin", "/config", "/status", "/.env", "/backup", "/phpmyadmin"})]
            case InternetRecon => map["paths" := Names(PathsSeen(events, e.srcIp, ago, e.occurredAt))]
            case DistributedScannerActivity =>
              map["decoys" := Names(DecoysTouched(events, e.srcIp, e.occurredAt - 3_600_000_000, e.occurredAt))]
            case _ =>
              map["attempts" := Count(|RowsBetween(events, e.srcIp, ago, e.occurredAt)|),
                  "usernames" := Names(NamesTried(events, e.srcIp, ago, e.occurredAt))]
  {
    hide Observe, EmissionsUpTo, RowsBetween, NamesTried, PathsSeen, DecoysTouched;
    EvidenceOfEmission(|KINDS|, e, Observe(events, e));
    ObservedExactly(events, e);
  }

  // ---------- What a drained table shows ----------

  /** After a full drain a detection exists exactly when some event emits it. */
  lemma DetectedExactly(events: seq<Event>, f: string)
    ensures f in Drain(Tables(events, {}, NO_FINDINGS)).findings.detections <==> exists e :: e in events && Emitted(events, e, f)
  {
    hide Journal, Emits, Emitted, Emitters, Replay;
    var sorted := ByTime(events);
    NothingProcessed(sorted);
    DetectionHistory(Journal(events, sorted), f);
    JournalEmitters(events, sorted, f);
    EmittingEventsHold(events, sorted, f);
    ByTimeSorts(events);
    var es := EmittingEvents(events, sorted, f);
    if es != [] {
      EmittedMeansEmits(events, es[0], f);
      assert es[0] in es;
    }
    if e :| e in events && Emitted(events, e, f) {
      EmittedMeansEmits(events, e, f);
      assert e in es;
    }
  }

  lemma EmittedScope(events: seq<Event>, e: Event, kind: Kind, scope: string)
    ensures Emitted(events, e, kind.Name() + ":" + scope) ==> Scope(kind, e) == scope
  {
    hide Kind.Name, Scope, Emitted, Triggers, Observe;
    var f := kind.Name() + ":" + scope;
    EmittedMeansEmits(events, e, f);
    if Emits(events, e, f) {
      var i :| 0 <= i < |KINDS| && Triggers(KINDS[i], e, Observe(events, e)) && DetectionFingerprint(KINDS[i], e) == f;
      FingerprintParts(KINDS[i], e, kind, scope);
    }
  }

  /** So a scope has a brute-force detection exactly when one of its events is a login post that
      ends ten minutes with three rows of its source. */
  lemma BruteForceDetectedExactly(events: seq<Event>, scope: string)
    ensures "credential_bruteforce:" + scope in Drain(Tables(events, {}, NO_FINDINGS)).findings.detections
       <==> exists e :: e in events && ScopeText(e) == scope && e.verb == "POST" && e.path == "/login"
                        && |RowsBetween(events, e.srcIp, e.occurredAt - 600_000_000, e.occurredAt)| >= 3
  {
    hide Kind.Name, Emitted, Drain, ScopeText, RowsBetween;
    var f := "credential_bruteforce:" + scope;
    DetectedExactly(events, f);
    LoginNames();
    forall e | e in events
      ensures Emitted(events, e, f) ==> ScopeText(e) == scope
      ensures ScopeText(e) == scope ==>
                (Emitted(events, e, f) <==> e.verb == "POST" && e.path == "/login"
                                            && |RowsBetween(events, e.srcIp, e.occurredAt - 600_000_000, e.occurredAt)| >= 3)
    {
      FingerprintTexts(e);
      EmittedScope(events, e, CredentialBruteforce, scope);
      BruteForceEmittedExactly(events, e);
    }
  }

  /** And a stuffing detection exactly when such an event sees five rows and three usernames. */
  lemma StuffingDetectedExactly(events: seq<Event>, scope: string)
    ensures "credential_stuffing:" + scope in Drain(Tables(events, {}, NO_FINDINGS)).findings.detections
       <==> exists e :: e in events && ScopeText(e) == scope && e.verb == "POST" && e.path == "/login"
                        && |RowsBetween(events, e.srcIp, e.occurredAt - 600_000_000, e.occurredAt)| >= 5
                        && |NamesTried(events, e.srcIp, e.occurredAt - 600_000_000, e.occurredAt)| >= 3
  {
    hide Kind.Name, Emitted, Drain, ScopeText, RowsBetween, NamesTried;
    var f := "credential_stuffing:" + scope;
    DetectedExactly(events, f);
    LoginNames();
    forall e | e in events
      ensures Emitted(events, e, f) ==> ScopeText(e) == scope
      ensures ScopeText(e) == scope ==>
                (Emitted(events, e, f) <==> e.verb == "POST" && e.path == "/login"
                                            && |RowsBetween(events, e.srcIp, e.occurredAt - 600_000_000, e.occurredAt)| >= 5
                                            && |NamesTried(events, e.srcIp, e.occurredAt - 600_000_000, e.occurredAt)| >= 3)
    {
      FingerprintTexts(e);
      EmittedScope(events, e, CredentialStuffing, scope);
      StuffingEmittedExactly(events, e);
    }
  }
}
