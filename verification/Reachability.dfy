/**
 Every state the control plane can reach by interleaving ingests, engine runs of
 any limit and analyst edits.
 */
module Reachability {
  import opened Options
  import opened DetectionEngine
  import opened FindingsHistory
  import opened Draining
  import opened Sets

  datatype Action =
    | Ingest(event: Event)
    | Run(limit: nat)
    | Edit(fingerprint: string, status: Option<string>, assignedTo: Option<string>, triageNotes: Option<string>)

  function Exec(run: seq<Action>): Tables {
    if |run| == 0 then NO_TABLES
    else
      var db := Exec(run[..|run| - 1]);
      match run[|run| - 1]
      case Ingest(e) => Insert(db, e)
      case Run(limit) => Materialize(db, limit)
      case Edit(f, status, assignedTo, notes) =>
        db.(findings := Apply(db.findings, Triage(f, status, assignedTo, notes)))
  }

  /** The writes to the findings that the last action of a run makes. */
  function LastSteps(db: Tables, action: Action): seq<Step> {
    match action
    case Ingest(_) => []
    case Run(limit) => Journal(db.events, Take(Backlog(db.events, db.processed), limit))
    case Edit(f, status, assignedTo, notes) => [Triage(f, status, assignedTo, notes)]
  }

  function Steps(run: seq<Action>): seq<Step> {
    if |run| == 0 then []
    else Steps(run[..|run| - 1]) + LastSteps(Exec(run[..|run| - 1]), run[|run| - 1])
  }

  /** The findings of a reachable state are the replay of its history. */
  lemma {:induction false} ExecReplaysSteps(run: seq<Action>)
    ensures Exec(run).findings == Replay(NO_FINDINGS, Steps(run))
  {
    if |run| > 0 {
      var init := run[..|run| - 1];
      var last := LastSteps(Exec(init), run[|run| - 1]);
      ExecReplaysSteps(init);
      ReplayConcat(NO_FINDINGS, Steps(init), last);
      assert run[|run| - 1].Edit? ==> Replay(Exec(init).findings, last) == Apply(Exec(init).findings, last[0]) by {
        if run[|run| - 1].Edit? {
          assert last[..0] == [];
        }
      }
      assert Replay(Exec(init).findings, []) == Exec(init).findings;
    }
  }

  lemma {:induction false} EmissionsOf(n: nat, e: Event, o: Observed)
    requires n <= |KINDS|
    ensures forall step :: step in EmissionsUpTo(n, e, o) ==> step.Emit? && step.event == e
  {
    hide EvidenceFor, Triggers;
    if n > 0 {
      EmissionsOf(n - 1, e, o);
    }
  }

  lemma {:induction false} JournalEmits(events: seq<Event>, batch: seq<Event>)
    ensures forall step :: step in Journal(events, batch) ==> step.Emit? && step.event in batch
  {
    hide EmissionsUpTo;
    if |batch| > 0 {
      var e := batch[|batch| - 1];
      JournalEmits(events, batch[..|batch| - 1]);
      EmissionsOf(|KINDS|, e, Observe(events, e));
    }
  }

  // ---------- One event emits one fingerprint at most once ----------

  ghost predicate EmitsUpTo(n: nat, e: Event, o: Observed, f: string)
    requires n <= |KINDS|
  {
    exists i :: 0 <= i < n && Triggers(KINDS[i], e, o) && DetectionFingerprint(KINDS[i], e) == f
  }

  lemma {:induction false} EmittersConcat(a: seq<Step>, b: seq<Step>, f: string)
    ensures Emitters(a + b, f) == Emitters(a, f) + Emitters(b, f)
  {
    hide DetectionFingerprint;
    if |b| == 0 {
      assert a + b == a;
    } else {
      EmittersConcat(a, b[..|b| - 1], f);
      assert (a + b)[..|a + b| - 1] == a + b[..|b| - 1];
    }
  }

  lemma {:induction false} EmitsEachOnce(n: nat, e: Event, o: Observed, f: string)
    requires n <= |KINDS|
    ensures Emitters(EmissionsUpTo(n, e, o), f) == if EmitsUpTo(n, e, o, f) then [e] else []
  {
    hide EvidenceFor, Triggers, DetectionFingerprint, Emitters, EmissionsUpTo;
    if n == 0 {
      NoEmissions(e, o);
      OneStepEmitters([], f);
    } else {
      var k := KINDS[n - 1];
      EmitsEachOnce(n - 1, e, o, f);
      KindsIndexed(n - 1);
      NextEmission(n - 1, k, e, o);
      var last := if Triggers(k, e, o) then [Emit(e, k, EvidenceFor(k, e, o))] else [];
      assert EmissionsUpTo(n, e, o) == EmissionsUpTo(n - 1, e, o) + last;
      EmittersConcat(EmissionsUpTo(n - 1, e, o), last, f);
      OneStepEmitters(last, f);
      if EmitsUpTo(n - 1, e, o, f) {
        EarlierKindDiffers(n - 1, e, o, f);
      }
    }
  }

  lemma OneStepEmitters(last: seq<Step>, f: string)
    requires |last| <= 1
    ensures Emitters(last, f) == if |last| == 1 && last[0].Emit? && last[0].Fingerprint() == f then [last[0].event] else []
  {
    if |last| == 1 {
      assert last[..0] == [] && Emitters(last[..0], f) == [];
    }
  }

  lemma EarlierKindDiffers(n: nat, e: Event, o: Observed, f: string)
    requires n < |KINDS| && EmitsUpTo(n, e, o, f)
    ensures DetectionFingerprint(KINDS[n], e) != f
  {
    hide DetectionFingerprint, Triggers;
    var i :| 0 <= i < n && Triggers(KINDS[i], e, o) && DetectionFingerprint(KINDS[i], e) == f;
    if DetectionFingerprint(KINDS[n], e) == f {
      FingerprintInjective(KINDS[i], KINDS[n], e, e);
      KindsIndexed(i);
      KindsIndexed(n);
    }
  }

  ghost predicate Emits(events: seq<Event>, e: Event, f: string) {
    EmitsUpTo(|KINDS|, e, Observe(events, e), f)
  }

  ghost function EmittingEvents(events: seq<Event>, batch: seq<Event>, f: string): seq<Event> {
    if |batch| == 0 then []
    else
      var e := batch[|batch| - 1];
      var earlier := EmittingEvents(events, batch[..|batch| - 1], f);
      if Emits(events, e, f) then earlier + [e] else earlier
  }

  lemma {:induction false} JournalEmitters(events: seq<Event>, batch: seq<Event>, f: string)
    ensures Emitters(Journal(events, batch), f) == EmittingEvents(events, batch, f)
  {
    if |batch| > 0 {
      var init, e := batch[..|batch| - 1], batch[|batch| - 1];
      JournalEmitters(events, init, f);
      EmittersConcat(Journal(events, init), Emissions(events, e), f);
      EmitsEachOnce(|KINDS|, e, Observe(events, e), f);
    }
  }

  lemma {:induction false} EmittingEventsHold(events: seq<Event>, batch: seq<Event>, f: string)
    ensures forall e :: e in EmittingEvents(events, batch, f) <==> e in batch && Emits(events, e, f)
    ensures DistinctIds(batch) ==> DistinctIds(EmittingEvents(events, batch, f))
  {
    if |batch| > 0 {
      var init, e := batch[..|batch| - 1], batch[|batch| - 1];
      EmittingEventsHold(events, init, f);
      assert batch == init + [e];
      IdsAppend(init, e);
      IdsAppend(EmittingEvents(events, init, f), e);
    }
  }

  // ---------- Occurrences count processed events ----------

  lemma {:induction false} TablesStayKeyed(run: seq<Action>)
    ensures DistinctIds(Exec(run).events) && Exec(run).processed <= Ids(Exec(run).events)
  {
    if |run| > 0 {
      var db := Exec(run[..|run| - 1]);
      TablesStayKeyed(run[..|run| - 1]);
      match run[|run| - 1]
      case Ingest(e) => IdsAppend(db.events, e);
      case Run(limit) =>
        UnprocessedHolds(ByTime(db.events), db.processed);
        ByTimeSorts(db.events);
      case Edit(_, _, _, _) =>
    }
  }

  lemma IdsSize(s: seq<Event>)
    requires DistinctIds(s)
    ensures |Ids(s)| == |s|
  {
    var ids := seq(|s|, i requires 0 <= i < |s| => s[i].eventId);
    DistinctSize(ids);
    assert Ids(s) == set x | x in ids by {
      forall x | x in Ids(s)
        ensures x in ids
      {
        var e :| e in s && e.eventId == x;
        var i :| 0 <= i < |s| && s[i] == e;
        assert ids[i] == x;
      }
    }
  }

  lemma DistinctConcat(a: seq<Event>, b: seq<Event>)
    requires DistinctIds(a) && DistinctIds(b) && Ids(a) !! Ids(b)
    ensures DistinctIds(a + b) && Ids(a + b) == Ids(a) + Ids(b)
  {
    assert forall i | 0 <= i < |a| :: a[i] in a && a[i].eventId in Ids(a);
    assert forall i | 0 <= i < |b| :: b[i] in b && b[i].eventId in Ids(b);
  }

  lemma {:induction false} EmittersAreProcessedOnce(run: seq<Action>, f: string)
    ensures DistinctIds(Emitters(Steps(run), f))
    ensures Ids(Emitters(Steps(run), f)) <= Exec(run).processed
  {
    hide Replay, Journal, EmissionsUpTo;
    if |run| > 0 {
      var init, action := run[..|run| - 1], run[|run| - 1];
      var db := Exec(init);
      EmittersAreProcessedOnce(init, f);
      EmittersConcat(Steps(init), LastSteps(db, action), f);
      match action
      case Ingest(_) =>
      case Edit(_, _, _, _) =>
        assert LastSteps(db, action)[..0] == [];
      case Run(limit) =>
        TablesStayKeyed(init);
        RunEmitsUnprocessed(db, limit, f);
        DistinctConcat(Emitters(Steps(init), f), Emitters(LastSteps(db, action), f));
    }
  }

  /** The emitters of one run are rows of its batch, each once, none of them processed before. */
  lemma RunEmitsUnprocessed(db: Tables, limit: nat, f: string)
    requires DistinctIds(db.events)
    ensures var es := Emitters(LastSteps(db, Run(limit)), f);
            && DistinctIds(es) && Ids(es) !! db.processed && Ids(es) <= Materialize(db, limit).processed
  {
    hide Emitters, Replay, Journal, Emits, ByTime, Unprocessed;
    var pending := Backlog(db.events, db.processed);
    var batch := Take(pending, limit);
    ByTimeKeepsDistinct(db.events);
    UnprocessedHolds(ByTime(db.events), db.processed);
    assert DistinctIds(batch) && forall e | e in batch :: e in pending;
    JournalEmitters(db.events, batch, f);
    EmittingEventsHold(db.events, batch, f);
    assert Ids(EmittingEvents(db.events, batch, f)) <= Ids(batch);
  }

  /** In every reachable state a detection's `occurrences` is the number of processed events
      that emitted its fingerprint, and the occurrences of all rows sum to the emissions. */
  lemma OccurrencesCountEvents(run: seq<Action>, f: string)
    ensures var dets, es := Exec(run).findings.detections, Emitters(Steps(run), f);
            && (f in dets <==> es != [])
            && (f in dets ==> dets[f].occurrences == |Ids(es)|)
            && Ids(es) <= Exec(run).processed
    ensures TotalOccurrences(Exec(run).findings.detections) == EmissionCount(Steps(run))
  {
    ExecReplaysSteps(run);
    DetectionHistory(Steps(run), f);
    EmittersAreProcessedOnce(run, f);
    IdsSize(Emitters(Steps(run), f));
    OccurrencesConserved(Steps(run));
  }

  /** In every reachable state the cached aggregates of every investigation agree. */
  lemma ReachableAggregatesAgree(run: seq<Action>)
    ensures AggregatesAgree(Exec(run).findings)
  {
    ExecReplaysSteps(run);
    AggregatesAlwaysAgree(Steps(run));
  }

  /** In every reachable state, and for every investigation: it counts the fingerprints whose
      first emitter falls to it, its spread is the number of different decoys those first
      emitters name, at least one if there is any such fingerprint, and three decoys make it
      targeted, two opportunistic. */
  lemma AggregatesFromEmitters(run: seq<Action>, key: string)
    requires key in Exec(run).findings.investigations
    ensures var inv, cases, decoys := Exec(run).findings.investigations[key], Cases(Steps(run), key), CaseDecoys(Steps(run), key);
            && inv.detectionCount == |cases|
            && inv.decoySpread == (if cases == {} then 0 else if decoys == {} then 1 else |decoys|)
            && (inv.activityClass == Targeted <==> |decoys| >= 3)
            && (inv.activityClass == Opportunistic <==> |decoys| == 2)
            && (inv.activityClass == Unknown <==> |decoys| <= 1)
  {
    hide Exec, Steps, Replay, Cases, CaseDecoys;
    ExecReplaysSteps(run);
    AggregatesHistory(Steps(run), key);
  }

  lemma EvidenceKeysFixed(kind: Kind, e: Event, o: Observed)
    ensures EvidenceFor(kind, e, o).Keys == EvidenceKeys(kind)
  {
  }

  lemma {:induction false} EmissionsWellEvidenced(n: nat, e: Event, o: Observed)
    requires n <= |KINDS|
    ensures WellEvidenced(EmissionsUpTo(n, e, o))
  {
    hide Triggers, EvidenceFor, EvidenceKeys, EmissionsUpTo;
    if n == 0 {
      NoEmissions(e, o);
    } else {
      EmissionsWellEvidenced(n - 1, e, o);
      KindsIndexed(n - 1);
      NextEmission(n - 1, KINDS[n - 1], e, o);
      EvidenceKeysFixed(KINDS[n - 1], e, o);
    }
  }

  lemma {:induction false} JournalWellEvidenced(events: seq<Event>, batch: seq<Event>)
    ensures WellEvidenced(Journal(events, batch))
  {
    hide EmissionsUpTo, EvidenceKeys;
    if |batch| > 0 {
      var e := batch[|batch| - 1];
      JournalWellEvidenced(events, batch[..|batch| - 1]);
      EmissionsWellEvidenced(|KINDS|, e, Observe(events, e));
    }
  }

  lemma {:induction false} StepsWellEvidenced(run: seq<Action>)
    ensures WellEvidenced(Steps(run))
  {
    hide Journal, EvidenceKeys;
    if |run| > 0 {
      var db, action := Exec(run[..|run| - 1]), run[|run| - 1];
      StepsWellEvidenced(run[..|run| - 1]);
      if action.Run? {
        JournalWellEvidenced(db.events, Take(Backlog(db.events, db.processed), action.limit));
      }
    }
  }

  /** In every reachable state a detection's merged evidence is that of its latest emission. */
  lemma EvidenceIsLatest(run: seq<Action>, f: string)
    ensures f in Exec(run).findings.detections ==>
              Exec(run).findings.detections[f].evidence == LatestEvidence(Steps(run), f)
  {
    hide WellEvidenced, Replay;
    ExecReplaysSteps(run);
    StepsWellEvidenced(run);
    EvidenceHistory(Steps(run), f);
  }

  // ---------- Stuffing never outnumbers brute force ----------

  function Occurrences(db: Findings, kind: Kind, scope: string): nat {
    var f := kind.Name() + ":" + scope;
    if f in db.detections then db.detections[f].occurrences else 0
  }

  lemma StuffingImpliesBruteforce(events: seq<Event>, e: Event, scope: string)
    requires Emits(events, e, CredentialStuffing.Name() + ":" + scope)
    ensures Emits(events, e, CredentialBruteforce.Name() + ":" + scope)
  {
    hide Kind.Name, Observe;
    var o := Observe(events, e);
    var i :| 0 <= i < |KINDS| && Triggers(KINDS[i], e, o)
             && DetectionFingerprint(KINDS[i], e) == CredentialStuffing.Name() + ":" + scope;
    FingerprintParts(KINDS[i], e, CredentialStuffing, scope);
    assert KINDS[5] == CredentialBruteforce && Triggers(KINDS[5], e, o);
    assert DetectionFingerprint(KINDS[5], e) == CredentialBruteforce.Name() + ":" + scope;
  }

  lemma {:induction false} MoreBruteforceEvents(events: seq<Event>, batch: seq<Event>, scope: string)
    ensures |EmittingEvents(events, batch, CredentialStuffing.Name() + ":" + scope)|
         <= |EmittingEvents(events, batch, CredentialBruteforce.Name() + ":" + scope)|
  {
    if |batch| > 0 {
      var e := batch[|batch| - 1];
      MoreBruteforceEvents(events, batch[..|batch| - 1], scope);
      if Emits(events, e, CredentialStuffing.Name() + ":" + scope) {
        StuffingImpliesBruteforce(events, e, scope);
      }
    }
  }

  lemma {:induction false} MoreBruteforceEmitters(run: seq<Action>, scope: string)
    ensures |Emitters(Steps(run), CredentialStuffing.Name() + ":" + scope)|
         <= |Emitters(Steps(run), CredentialBruteforce.Name() + ":" + scope)|
  {
    if |run| > 0 {
      var init, action := run[..|run| - 1], run[|run| - 1];
      var db := Exec(init);
      var stuffing, brute := CredentialStuffing.Name() + ":" + scope, CredentialBruteforce.Name() + ":" + scope;
      MoreBruteforceEmitters(init, scope);
      EmittersConcat(Steps(init), LastSteps(db, action), stuffing);
      EmittersConcat(Steps(init), LastSteps(db, action), brute);
      if action.Run? {
        var batch := Take(Backlog(db.events, db.processed), action.limit);
        JournalEmitters(db.events, batch, stuffing);
        JournalEmitters(db.events, batch, brute);
        MoreBruteforceEvents(db.events, batch, scope);
      } else if action.Edit? {
        assert LastSteps(db, action)[..0] == [];
      }
    }
  }

  lemma StuffingNeverOutnumbersBruteforce(run: seq<Action>, scope: string)
    ensures Occurrences(Exec(run).findings, CredentialStuffing, scope)
         <= Occurrences(Exec(run).findings, CredentialBruteforce, scope)
  {
    ExecReplaysSteps(run);
    MoreBruteforceEmitters(run, scope);
    DetectionHistory(Steps(run), CredentialStuffing.Name() + ":" + scope);
    DetectionHistory(Steps(run), CredentialBruteforce.Name() + ":" + scope);
  }

  // ---------- Sliding windows miss nothing ----------

  lemma {:induction false} RecentHolds(events: seq<Event>, e: Event, width: Time)
    ensures forall r :: r in Recent(events, e, width) <==> r in events && InWindow(r, e, width)
  {
    if |events| > 0 {
      RecentHolds(events[..|events| - 1], e, width);
      assert events == events[..|events| - 1] + [events[|events| - 1]];
    }
  }

  /** The decoys that `src` touched in the closed span of sixty minutes starting at `start`. */
  function SpanDecoys(events: seq<Event>, src: string, start: Time): set<string> {
    set e | e in events && e.srcIp == src && start <= e.occurredAt <= start + DISTRIBUTED_WINDOW :: e.decoyId
  }

  /** The latest row of `src` in a span: its own window covers everything the span holds. */
  lemma {:induction false} LatestInSpan(events: seq<Event>, src: string, start: Time) returns (e: Event)
    requires SpanDecoys(events, src, start) != {}
    ensures e in events && e.srcIp == src && start <= e.occurredAt <= start + DISTRIBUTED_WINDOW
    ensures forall r :: r in events && r.srcIp == src && start <= r.occurredAt <= start + DISTRIBUTED_WINDOW
                        ==> r.occurredAt <= e.occurredAt
  {
    var n := |events| - 1;
    assert events == events[..n] + [events[n]];
    var last := events[n];
    var inSpan := last.srcIp == src && start <= last.occurredAt <= start + DISTRIBUTED_WINDOW;
    if SpanDecoys(events[..n], src, start) == {} {
      assert forall r | r in events[..n] && r.srcIp == src && start <= r.occurredAt <= start + DISTRIBUTED_WINDOW ::
        r.decoyId in SpanDecoys(events[..n], src, start);
      e := last;
    } else {
      e := LatestInSpan(events[..n], src, start);
      if inSpan && e.occurredAt < last.occurredAt {
        e := last;
      }
    }
  }

  lemma SpanSeenFromAnEvent(events: seq<Event>, src: string, start: Time) returns (e: Event)
    requires |SpanDecoys(events, src, start)| >= 3
    ensures e in events && e.srcIp == src && |Observe(events, e).decoys| >= 3
  {
    e := LatestInSpan(events, src, start);
    RecentHolds(events, e, DISTRIBUTED_WINDOW);
    forall id | id in SpanDecoys(events, src, start)
      ensures id in Observe(events, e).decoys
    {
      var r :| r in events && r.srcIp == src && start <= r.occurredAt <= start + DISTRIBUTED_WINDOW && r.decoyId == id;
      assert r in Recent(events, e, DISTRIBUTED_WINDOW);
    }
    SubsetSize(SpanDecoys(events, src, start), Observe(events, e).decoys);
  }

  lemma EventWindowIsASpan(events: seq<Event>, e: Event)
    requires e in events && |Observe(events, e).decoys| >= 3
    ensures |SpanDecoys(events, e.srcIp, e.occurredAt - DISTRIBUTED_WINDOW)| >= 3
  {
    RecentHolds(events, e, DISTRIBUTED_WINDOW);
    SubsetSize(Observe(events, e).decoys, SpanDecoys(events, e.srcIp, e.occurredAt - DISTRIBUTED_WINDOW));
  }

  function DistributedFingerprint(src: string): string { DistributedScannerActivity.Name() + ":" + src }

  lemma EmitsDistributed(events: seq<Event>, e: Event, src: string)
    ensures Emits(events, e, DistributedFingerprint(src)) <==> e.srcIp == src && |Observe(events, e).decoys| >= 3
  {
    hide Kind.Name, Observe;
    var o, f := Observe(events, e), DistributedFingerprint(src);
    if Emits(events, e, f) {
      var i :| 0 <= i < |KINDS| && Triggers(KINDS[i], e, o) && DetectionFingerprint(KINDS[i], e) == f;
      FingerprintParts(KINDS[i], e, DistributedScannerActivity, src);
    }
    if e.srcIp == src && |o.decoys| >= 3 {
      assert KINDS[8] == DistributedScannerActivity && DetectionFingerprint(KINDS[8], e) == f;
    }
  }

  /** A source has the distributed-scanner detection exactly when some closed span of sixty
      minutes, anchored anywhere, contains its events on at least three decoys. */
  lemma SlidingWindowComplete(events: seq<Event>, src: string)
    ensures DistributedFingerprint(src) in Drain(Tables(events, {}, NO_FINDINGS)).findings.detections
       <==> exists start :: |SpanDecoys(events, src, start)| >= 3
  {
    var f, sorted := DistributedFingerprint(src), ByTime(events);
    NothingProcessed(sorted);
    DetectionHistory(Journal(events, sorted), f);
    JournalEmitters(events, sorted, f);
    EmittingEventsHold(events, sorted, f);
    ByTimeSorts(events);
    var es := EmittingEvents(events, sorted, f);
    if es != [] {
      assert es[0] in es;
      EmitsDistributed(events, es[0], src);
      EventWindowIsASpan(events, es[0]);
    }
    if start :| |SpanDecoys(events, src, start)| >= 3 {
      var e := SpanSeenFromAnEvent(events, src, start);
      EmitsDistributed(events, e, src);
      assert e in es;
    }
  }

  lemma {:induction false} NothingProcessed(s: seq<Event>)
    ensures Unprocessed(s, {}) == s
  {
    if |s| > 0 {
      NothingProcessed(s[1..]);
    }
  }

  /** In every reachable state a source has at most one distributed-scanner detection. */
  lemma OneDistributedDetectionPerSource(run: seq<Action>, f: string)
    requires f in Exec(run).findings.detections
    requires Exec(run).findings.detections[f].kind == DistributedScannerActivity
    ensures f == DistributedFingerprint(Exec(run).findings.detections[f].srcIp)
  {
    ExecReplaysSteps(run);
    DetectionHistory(Steps(run), f);
  }
}
