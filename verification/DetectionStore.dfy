/**
 The control plane's tables as one mutable object, with the service functions as
 methods over it.  Every method is tied to the fold of `DetectionEngine`.
 */
module DetectionStore {
  import opened Options
  import opened DetectionEngine
  import opened FindingsHistory
  import opened Draining
  import opened Ingestion

  /** Where a request to the ingest endpoint breaks off, if it does. */
  datatype Fault = NoFault | InsertFails | MaterializeFails

  datatype Response = Stored(eventId: string) | BadRequest

  lemma {:induction false} EmissionKindsFrom(n: nat, e: Event, o: Observed)
    requires n <= |KINDS|
    ensures var em := EmissionsUpTo(n, e, o);
            && (forall i :: 0 <= i < |em| ==> em[i].Emit? && em[i].event == e && em[i].kind.Index() < n)
            && (forall i, j :: 0 <= i < j < |em| ==> em[i].kind.Index() < em[j].kind.Index())
  {
    hide Triggers, EvidenceFor, EmissionsUpTo;
    if n == 0 {
      NoEmissions(e, o);
    } else {
      EmissionKindsFrom(n - 1, e, o);
      KindsIndexed(n - 1);
      NextEmission(n - 1, KINDS[n - 1], e, o);
    }
  }

  lemma EmissionsDefined(events: seq<Event>, e: Event)
    ensures Emissions(events, e) == EmissionsUpTo(|KINDS|, e, Observe(events, e))
  {
  }

  /** One event never emits the same type twice. */
  lemma EmissionKindsDistinct(events: seq<Event>, e: Event)
    ensures var em := Emissions(events, e);
            && (forall i :: 0 <= i < |em| ==> em[i].Emit? && em[i].event == e)
            && (forall i, j :: 0 <= i < j < |em| ==> em[i].kind != em[j].kind)
  {
    EmissionKindsFrom(|KINDS|, e, Observe(events, e));
    assert Emissions(events, e) == EmissionsUpTo(|KINDS|, e, Observe(events, e));
    var em := EmissionsUpTo(|KINDS|, e, Observe(events, e));
    assert forall i :: 0 <= i < |em| ==> em[i].Emit?;
  }

  lemma TriggersOf(e: Event, o: Observed)
    ensures Triggers(PathTraversalProbe, e, o) == ("path_traversal_probe" in e.normalizedTags)
    ensures Triggers(XssProbe, e, o) == ("xss_probe" in e.normalizedTags)
    ensures Triggers(SqliProbe, e, o) == ("sqli_probe" in e.normalizedTags)
    ensures Triggers(SensitivePathDiscovery, e, o) == (e.path in SENSITIVE_PATHS)
    ensures Triggers(AdminPanelEnumeration, e, o) == (|o.paths * SENSITIVE_PATHS| >= 2)
    ensures Triggers(CredentialBruteforce, e, o) == (LoginPost(e) && o.attempts >= 3)
    ensures Triggers(CredentialStuffing, e, o) == (LoginPost(e) && o.attempts >= 5 && |o.usernames| >= 3)
    ensures Triggers(InternetRecon, e, o) == (|o.paths| >= 4 || (e.suspicious && e.eventClass in {"recon", "scan"}))
    ensures Triggers(DistributedScannerActivity, e, o) == (|o.decoys| >= 3)
  {
  }

  /** Appends the emission of a type when its condition holds. */
  method Consider(types: seq<Step>, condition: bool, kind: Kind, e: Event, o: Observed) returns (types': seq<Step>)
    requires types == EmissionsUpTo(kind.Index(), e, o) && condition == Triggers(kind, e, o)
    ensures types' == EmissionsUpTo(kind.Index() + 1, e, o)
  {
    hide Triggers, EvidenceFor;
    types' := types;
    if condition {
      types' := types' + [Emit(e, kind, EvidenceFor(kind, e, o))];
    }
    NextEmission(kind.Index(), kind, e, o);
  }

  /** The first five types: what the request itself and the paths around it show. */
  method ProbeTypes(e: Event, o: Observed) returns (types: seq<Step>)
    ensures types == EmissionsUpTo(5, e, o)
  {
    hide EmissionsUpTo, Triggers;
    types := [];
    NoEmissions(e, o);
    TriggersOf(e, o);
    types := Consider(types, "path_traversal_probe" in e.normalizedTags, PathTraversalProbe, e, o);
    types := Consider(types, "xss_probe" in e.normalizedTags, XssProbe, e, o);
    types := Consider(types, "sqli_probe" in e.normalizedTags, SqliProbe, e, o);
    types := Consider(types, e.path in SENSITIVE_PATHS, SensitivePathDiscovery, e, o);
    types := Consider(types, |o.paths * SENSITIVE_PATHS| >= 2, AdminPanelEnumeration, e, o);
  }

  class Store {
    var events: seq<Event>
    var credentials: seq<Credential>
    var processed: set<string>
    var detections: map<string, Detection>
    var investigations: map<string, Investigation>

    /** The tables as a value. */
    function Db(): Tables
      reads this
    {
      Tables(events, processed, Findings(detections, investigations))
    }

    ghost predicate Valid()
      reads this
    {
      && DistinctIds(events) && processed <= Ids(events)
      && credentials == CredentialsOf(events)
      && AggregatesAgree(Db().findings)
    }

    constructor ()
      ensures Valid() && Db() == NO_TABLES
    {
      events, credentials, processed, detections, investigations := [], [], {}, map[], map[];
    }

    /** Looks an event up by its identifier. */
    method FindEvent(id: string) returns (row: Option<Event>)
      ensures row == None ==> id !in Ids(events)
      ensures row.Some? ==> row.value in events && row.value.eventId == id
    {
      row := None;
      for i := 0 to |events|
        invariant row == None && id !in Ids(events[..i])
      {
        if events[i].eventId == id {
          return Some(events[i]);
        }
        assert events[..i + 1] == events[..i] + [events[i]];
      }
      assert events[..|events|] == events;
    }

    /** Stores the event of a payload unless its identifier is already there, together with
        its credential row when it carries one; returns the stored row of that identifier. */
    method InsertEvent(p: Payload, s: Supply) returns (row: Event)
      requires Valid()
      modifies this`events, this`credentials
      ensures Valid() && Db() == Insert(old(Db()), Normalize(p, s))
      ensures row in events && row.eventId == Normalize(p, s).eventId
      ensures row.eventId !in Ids(old(events)) ==> row == Normalize(p, s)
    {
      hide CredentialsOf, NormalizeWith, AggregatesAgree;
      var tags := NormalizeTags(p);
      row := NormalizeWith(p, s, tags);
      var existing := FindEvent(row.eventId);
      if existing.Some? {
        row := existing.value;
        return;
      }
      IdsAppend(events, row);
      CredentialsAppend(events, row);
      events := events + [row];
      if row.username != "" || row.password != "" {
        credentials := credentials + [CredentialOf(row)];
      }
    }

    method EnsureInvestigation(key: string, e: Event)
      modifies this`investigations
      ensures investigations == DetectionEngine.EnsureInvestigation(old(investigations), key, e)
    {
      if key !in investigations {
        investigations := investigations[key := Investigation(e.occurredAt, e.occurredAt, 0, 1, Unknown)];
      } else {
        var inv := investigations[key];
        investigations := investigations[key := inv.(lastSeen := Max(inv.lastSeen, e.occurredAt))];
      }
    }

    method UpdateInvestigationStats(key: string)
      requires key in investigations
      modifies this`investigations
      ensures investigations == old(investigations)[key := UpdateStats(old(investigations)[key], detections, key)]
    {
      var inv := investigations[key];
      var rows := Members(detections, key);
      inv := inv.(detectionCount := |rows|);
      var spread := |MemberDecoys(detections, key)|;
      inv := inv.(decoySpread := Max(spread, if rows != {} then 1 else 0));
      if inv.decoySpread >= 3 && inv.detectionCount >= 3 {
        inv := inv.(activityClass := Targeted);
      } else if inv.decoySpread >= 2 {
        inv := inv.(activityClass := Opportunistic);
      } else {
        inv := inv.(activityClass := Unknown);
      }
      investigations := investigations[key := inv];
    }

    /** Creates or updates the detection of one emission and refreshes its investigation. */
    method RecordDetection(e: Event, kind: Kind, fingerprint: string, evidence: map<string, Evidence>)
      requires fingerprint == DetectionFingerprint(kind, e)
      modifies this`detections, this`investigations
      ensures Db().findings == Record(old(Db().findings), e, kind, evidence)
    {
      hide UpdateStats;
      var key := InvestigationFingerprint(e);
      EnsureInvestigation(key, e);
      if fingerprint !in detections {
        detections := detections[fingerprint := NewDetection(kind, evidence, e)];
      } else {
        var d := detections[fingerprint];
        d := d.(occurrences := d.occurrences + 1, lastSeenAt := e.occurredAt, evidence := d.evidence + evidence);
        if e.srcIp != "" && e.srcIp !in d.blockTargets {
          d := d.(blockTargets := d.blockTargets + [e.srcIp]);
        }
        if d.investigation == None {
          d := d.(investigation := Some(key));
        }
        detections := detections[fingerprint := d];
      }
      UpdateInvestigationStats(key);
    }

    /** The detections one event gives rise to, tried in the engine's order. */
    method TypesToEmit(e: Event) returns (types: seq<Step>)
      ensures types == EmissionsUpTo(|KINDS|, e, Observe(events, e))
    {
      hide EmissionsUpTo, Observe, Triggers;
      var o := Observe(events, e);
      types := ProbeTypes(e, o);
      TriggersOf(e, o);
      types := Consider(types, e.path == "/login" && e.verb == "POST" && o.attempts >= 3, CredentialBruteforce, e, o);
      types := Consider(types, e.path == "/login" && e.verb == "POST" && o.attempts >= 5 && |o.usernames| >= 3,
                        CredentialStuffing, e, o);
      types := Consider(types, |o.paths| >= 4 || (e.suspicious && e.eventClass in {"recon", "scan"}), InternetRecon, e, o);
      types := Consider(types, |o.decoys| >= 3, DistributedScannerActivity, e, o);
    }

    /** Records everything `e` emits, skipping a type that was already recorded for it. */
    method ProcessEvent(e: Event)
      modifies this`detections, this`investigations
      ensures Db().findings == Replay(old(Db().findings), Emissions(events, e))
    {
      hide Replay, Emissions, DetectionFingerprint, Record;
      ghost var before := Db().findings;
      var types := TypesToEmit(e);
      EmissionsDefined(events, e);
      EmissionKindsDistinct(events, e);
      var seen: set<Kind> := {};
      NoSteps(before);
      for j := 0 to |types|
        invariant seen == set i | 0 <= i < j :: types[i].kind
        invariant Db().findings == Replay(before, types[..j])
      {
        OneMoreStep(before, types, j);
        if types[j].kind !in seen {
          seen := seen + {types[j].kind};
          var scope := if types[j].kind == DistributedScannerActivity then e.srcIp
                       else e.srcIp + ":" + e.decoyId + ":" + e.requestFingerprint;
          FingerprintDefined(types[j].kind, e);
          RecordDetection(e, types[j].kind, types[j].kind.Name() + ":" + scope, types[j].evidence);
        }
      }
      assert types[..|types|] == types;
    }

    lemma FingerprintDefined(kind: Kind, e: Event)
      ensures DetectionFingerprint(kind, e)
           == kind.Name() + ":" + (if kind == DistributedScannerActivity then e.srcIp
                                   else e.srcIp + ":" + e.decoyId + ":" + e.requestFingerprint)
    {
    }

    /** Works through the oldest unprocessed events, at most `limit` of them, and says how many. */
    method MaterializeDetections(limit: nat) returns (count: nat)
      requires Valid()
      modifies this`detections, this`investigations, this`processed
      ensures Valid() && Db() == Materialize(old(Db()), limit)
      ensures count == |Take(Backlog(events, old(processed)), limit)|
    {
      hide Emissions, Unprocessed, ByTime, Replay, Journal, AggregatesAgree, CredentialsOf, DistinctIds;
      var pending := Take(Backlog(events, processed), limit);
      ghost var before := Db().findings;
      count := 0;
      NothingReplayed(events, before);
      for i := 0 to |pending|
        invariant count == i
        invariant Db().findings == Replay(before, Journal(events, pending[..i]))
        invariant processed == old(processed) + Ids(pending[..i])
      {
        ProcessEvent(pending[i]);
        OneMoreReplayed(events, before, pending, i);
        processed := processed + {pending[i].eventId};
        count := count + 1;
      }
      assert pending[..|pending|] == pending;
      ReplayKeepsAggregates(before, Journal(events, pending));
      PendingAreRows(events, old(processed), limit);
    }

    /** An analyst's edit of one detection; an unknown fingerprint changes nothing. */
    method UpdateDetection(fingerprint: string, status: Option<string>, assignedTo: Option<string>, triageNotes: Option<string>)
      returns (found: bool)
      requires Valid()
      modifies this`detections
      ensures Valid() && found == (fingerprint in old(detections))
      ensures Db() == old(Db()).(findings := Apply(old(Db().findings), Triage(fingerprint, status, assignedTo, triageNotes)))
    {
      found := fingerprint in detections;
      ApplyKeepsAggregates(Db().findings, Triage(fingerprint, status, assignedTo, triageNotes));
      if found {
        var d := detections[fingerprint];
        if status.Some? { d := d.(status := status.value); }
        if assignedTo.Some? { d := d.(assignedTo := assignedTo); }
        if triageNotes.Some? { d := d.(triageNotes := triageNotes); }
        detections := detections[fingerprint := d];
      }
    }

    function Snapshot(): (seq<Event>, seq<Credential>, set<string>, map<string, Detection>, map<string, Investigation>)
      reads this
    {
      (events, credentials, processed, detections, investigations)
    }

    method Rollback(committed: (seq<Event>, seq<Credential>, set<string>, map<string, Detection>, map<string, Investigation>))
      modifies this
      ensures Snapshot() == committed
    {
      events, credentials, processed := committed.0, committed.1, committed.2;
      detections, investigations := committed.3, committed.4;
    }

    /** One posted event: insert and commit, then optionally process inline and commit; a
        failure rolls back to the last commit, so a late failure still leaves the event stored. */
    method HandleIngest(p: Payload, s: Supply, inlineProcessing: bool, fault: Fault) returns (response: Response)
      requires Valid()
      modifies this
      ensures Valid()
      ensures fault.InsertFails? ==> response == BadRequest && Db() == old(Db())
      ensures !fault.InsertFails? ==> Normalize(p, s).eventId in Ids(events)
      ensures var inserted := Insert(old(Db()), Normalize(p, s));
              && (fault.NoFault? ==> response == Stored(Normalize(p, s).eventId)
                                     && Db() == if inlineProcessing then Materialize(inserted, 200) else inserted)
              && (fault.MaterializeFails? && inlineProcessing ==> response == BadRequest && Db() == inserted)
    {
      hide Materialize, Insert, Normalize, AggregatesAgree, CredentialsOf, DistinctIds;
      var committed := Snapshot();
      var row := InsertEvent(p, s);
      if fault.InsertFails? {
        Rollback(committed);
        return BadRequest;
      }
      committed := Snapshot();
      assert row.eventId in Ids(events);
      if inlineProcessing {
        var count := MaterializeDetections(INLINE_LIMIT);
        if fault.MaterializeFails? {
          Rollback(committed);
          return BadRequest;
        }
      }
      return Stored(row.eventId);
    }
  }

  lemma NoSteps(db: Findings)
    ensures forall steps: seq<Step> :: |steps| == 0 ==> Replay(db, steps) == db
  {
  }

  lemma OneMoreStep(db: Findings, steps: seq<Step>, j: nat)
    requires j < |steps|
    ensures Replay(db, steps[..j + 1]) == Apply(Replay(db, steps[..j]), steps[j])
  {
    hide Apply;
    assert steps[..j + 1][..j] == steps[..j];
  }

  lemma NothingReplayed(events: seq<Event>, db: Findings)
    ensures forall batch: seq<Event> :: |batch| == 0 ==> Replay(db, Journal(events, batch)) == db
    ensures forall batch: seq<Event> :: |batch| == 0 ==> Ids(batch) == {}
  {
  }

  lemma OneMoreReplayed(events: seq<Event>, db: Findings, batch: seq<Event>, i: nat)
    requires i < |batch|
    ensures Replay(db, Journal(events, batch[..i + 1]))
         == Replay(Replay(db, Journal(events, batch[..i])), Emissions(events, batch[i]))
    ensures Ids(batch[..i + 1]) == Ids(batch[..i]) + {batch[i].eventId}
  {
    hide Emissions, Replay;
    assert batch[..i + 1][..i] == batch[..i];
    assert batch[..i + 1] == batch[..i] + [batch[i]];
    ReplayConcat(db, Journal(events, batch[..i]), Emissions(events, batch[i]));
    IdsAppend(batch[..i], batch[i]);
  }

  lemma PendingAreRows(events: seq<Event>, processed: set<string>, limit: nat)
    ensures Ids(Take(Backlog(events, processed), limit)) <= Ids(events)
  {
    hide Unprocessed, ByTime;
    UnprocessedHolds(ByTime(events), processed);
    ByTimeSorts(events);
  }

  lemma {:induction false} ReplayKeepsAggregates(db: Findings, steps: seq<Step>)
    requires AggregatesAgree(db)
    ensures AggregatesAgree(Replay(db, steps))
  {
    if |steps| > 0 {
      ReplayKeepsAggregates(db, steps[..|steps| - 1]);
      ApplyKeepsAggregates(Replay(db, steps[..|steps| - 1]), steps[|steps| - 1]);
    }
  }
}
