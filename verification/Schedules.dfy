/**
 Schedules: how inserts, engine runs and analyst edits interleave makes no
 difference once the backlog is drained, given that events arrive in time order;
 except for edits that come before their row, which are lost.
 */
module Schedules {
  import opened Options
  import opened DetectionEngine
  import opened FindingsHistory
  import opened Draining
  import opened Reachability
  import opened Sets

  // ---------- Runs of the engine ----------

  /** The events a run ingests, in order. */
  function Arrivals(run: seq<Action>): seq<Event> {
    if |run| == 0 then []
    else
      var earlier := Arrivals(run[..|run| - 1]);
      if run[|run| - 1].Ingest? then earlier + [run[|run| - 1].event] else earlier
  }

  lemma DrainAfterRun(db: Tables, limit: nat)
    requires DistinctIds(db.events)
    ensures Drain(Materialize(db, limit)) == Drain(db)
  {
    hide Materialize;
    var b := Backlog(db.events, db.processed);
    var rest := |Backlog(db.events, Materialize(db, limit).processed)|;
    RunShrinksBacklog(db, limit);
    RunsCompose(db, limit, rest);
    MaterializeKeepsEvents(db, limit);
    EnoughIsDrain(db, limit + rest);
  }

  lemma MaterializeKeepsEvents(db: Tables, limit: nat)
    ensures Materialize(db, limit).events == db.events
  {
  }

  lemma EnoughIsDrain(db: Tables, limit: nat)
    requires limit >= |Backlog(db.events, db.processed)|
    ensures Materialize(db, limit) == Drain(db)
  {
  }

  /** However the runs of the engine interleave with the inserts. */
  lemma {:induction false} UneditedScheduleDoesNotMatter(run: seq<Action>)
    requires forall a :: a in run ==> !a.Edit?
    requires InTimeOrder(NO_TABLES, Arrivals(run))
    ensures Exec(run).events == InsertAll(NO_TABLES, Arrivals(run)).events
    ensures Drain(Exec(run)) == Drain(InsertAll(NO_TABLES, Arrivals(run)))
  {
    hide Materialize, ArrivesInOrder, Drain, Insert;
    if |run| > 0 {
      var init, action := run[..|run| - 1], run[|run| - 1];
      var db := Exec(init);
      var before := Arrivals(init);
      assert action in run;
      TablesStayKeyed(init);
      if action.Run? {
        UneditedScheduleDoesNotMatter(init);
        DrainAfterRun(db, action.limit);
        MaterializeKeepsEvents(db, action.limit);
      } else {
        var e := action.event;
        assert Arrivals(run) == before + [e];
        InTimeOrderPrefix(NO_TABLES, before, e);
        UneditedScheduleDoesNotMatter(init);
        InsertAllInvariant(NO_TABLES, before);
        ArrivalKeepsAgreement(db, InsertAll(NO_TABLES, before), e);
        assert (before + [e])[..|before|] == before;
      }
    }
  }

  lemma InTimeOrderPrefix(db: Tables, before: seq<Event>, e: Event)
    requires InTimeOrder(db, before + [e])
    ensures InTimeOrder(db, before) && ArrivesInOrder(InsertAll(db, before), e)
  {
    hide ArrivesInOrder;
    var all := before + [e];
    assert all[..|before|] == before && all[|before|] == e;
    assert forall i :: 0 <= i < |before| ==> all[..i] == before[..i] && all[i] == before[i];
  }

  /** Tables that drain alike drain alike after one more arrival. */
  lemma ArrivalKeepsAgreement(db: Tables, d: Tables, e: Event)
    requires DistinctIds(db.events) && db.processed <= Ids(db.events) && d.processed <= Ids(d.events)
    requires db.events == d.events && Drain(db) == Drain(d) && ArrivesInOrder(d, e)
    ensures Insert(db, e).events == Insert(d, e).events && Drain(Insert(db, e)) == Drain(Insert(d, e))
  {
    hide Materialize, Drain;
    ArrivalCommutesWithDrain(db, e);
    ArrivalCommutesWithDrain(d, e);
  }

  // ---------- Analyst edits stay where they were made ----------

  /** A detection without the three columns an analyst edits. */
  function Unedited(d: Detection): Detection { d.(status := "", assignedTo := None, triageNotes := None) }

  /** The same rows but for those three columns. */
  ghost predicate FindingsAlike(a: Findings, b: Findings) {
    && a.investigations == b.investigations
    && a.detections.Keys == b.detections.Keys
    && forall f :: f in a.detections ==> Unedited(a.detections[f]) == Unedited(b.detections[f])
  }

  ghost predicate Alike(a: Tables, b: Tables) {
    a.events == b.events && a.processed == b.processed && FindingsAlike(a.findings, b.findings)
  }

  lemma MembersAlike(a: map<string, Detection>, b: map<string, Detection>, key: string)
    requires FindingsAlike(Findings(a, map[]), Findings(b, map[]))
    ensures Members(a, key) == Members(b, key) && MemberDecoys(a, key) == MemberDecoys(b, key)
  {
    assert forall f | f in a :: a[f].investigation == b[f].investigation && a[f].decoyId == b[f].decoyId by {
      assert forall f | f in a :: Unedited(a[f]) == Unedited(b[f]);
    }
    assert Members(a, key) == Members(b, key);
  }

  lemma RecordAlike(a: Findings, b: Findings, e: Event, kind: Kind, evidence: map<string, Evidence>)
    requires FindingsAlike(a, b)
    ensures FindingsAlike(Record(a, e, kind, evidence), Record(b, e, kind, evidence))
  {
    hide DetectionFingerprint, InvestigationFingerprint, Members, MemberDecoys;
    var key := InvestigationFingerprint(e);
    var dets, dets' := RecordDetections(a.detections, e, kind, evidence), RecordDetections(b.detections, e, kind, evidence);
    DetectionsAlike(a.detections, b.detections, e, kind, evidence);
    MembersAlike(dets, dets', key);
  }

  lemma DetectionsAlike(a: map<string, Detection>, b: map<string, Detection>, e: Event, kind: Kind, evidence: map<string, Evidence>)
    requires FindingsAlike(Findings(a, map[]), Findings(b, map[]))
    ensures FindingsAlike(Findings(RecordDetections(a, e, kind, evidence), map[]), Findings(RecordDetections(b, e, kind, evidence), map[]))
  {
    hide DetectionFingerprint, InvestigationFingerprint;
    var f := DetectionFingerprint(kind, e);
    assert f in a ==> Unedited(a[f]) == Unedited(b[f]);
    assert f in a ==> Unedited(RepeatDetection(a[f], evidence, e)) == Unedited(RepeatDetection(b[f], evidence, e));
  }

  lemma {:induction false} ReplayAlike(a: Findings, b: Findings, steps: seq<Step>)
    requires FindingsAlike(a, b) && forall step :: step in steps ==> step.Emit?
    ensures FindingsAlike(Replay(a, steps), Replay(b, steps))
  {
    hide Record, FindingsAlike;
    if |steps| > 0 {
      var init, step := steps[..|steps| - 1], steps[|steps| - 1];
      assert step in steps;
      ReplayAlike(a, b, init);
      RecordAlike(Replay(a, init), Replay(b, init), step.event, step.kind, step.evidence);
    }
  }

  lemma MaterializeAlike(a: Tables, b: Tables, limit: nat)
    requires Alike(a, b)
    ensures Alike(Materialize(a, limit), Materialize(b, limit))
  {
    hide Journal, Replay, Backlog, FindingsAlike;
    var batch := Take(Backlog(a.events, a.processed), limit);
    JournalEmits(a.events, batch);
    ReplayAlike(a.findings, b.findings, Journal(a.events, batch));
  }

  lemma EditAlike(a: Findings, b: Findings, edit: Step)
    requires FindingsAlike(a, b) && edit.Triage?
    ensures FindingsAlike(Apply(a, edit), b)
  {
  }

  function WithoutEdits(run: seq<Action>): seq<Action> {
    if |run| == 0 then []
    else
      var earlier := WithoutEdits(run[..|run| - 1]);
      if run[|run| - 1].Edit? then earlier else earlier + [run[|run| - 1]]
  }

  lemma {:induction false} WithoutEditsHolds(run: seq<Action>)
    ensures forall a :: a in WithoutEdits(run) ==> !a.Edit?
    ensures Arrivals(WithoutEdits(run)) == Arrivals(run)
    ensures (forall a :: a in run ==> !a.Edit?) ==> WithoutEdits(run) == run
  {
    if |run| > 0 {
      var init := run[..|run| - 1];
      WithoutEditsHolds(init);
      assert run == init + [run[|run| - 1]];
      assert (WithoutEdits(init) + [run[|run| - 1]])[..|WithoutEdits(init)|] == WithoutEdits(init);
    }
  }

  /** Leaving out the edits changes the edited columns only. */
  lemma {:induction false} EditsStayLocal(run: seq<Action>)
    ensures Alike(Exec(run), Exec(WithoutEdits(run)))
  {
    hide Materialize, FindingsAlike, Apply;
    if |run| == 0 {
      assert FindingsAlike(NO_FINDINGS, NO_FINDINGS) by { AlikeReflexive(NO_FINDINGS); }
    } else {
      var init, action := run[..|run| - 1], run[|run| - 1];
      EditsStayLocal(init);
      var db, plain := Exec(init), Exec(WithoutEdits(init));
      var kept := WithoutEdits(init) + [action];
      assert kept[..|kept| - 1] == WithoutEdits(init);
      match action
      case Ingest(_) =>
      case Run(limit) => MaterializeAlike(db, plain, limit);
      case Edit(f, status, assignedTo, notes) =>
        EditAlike(db.findings, plain.findings, Triage(f, status, assignedTo, notes));
    }
  }

  lemma AlikeReflexive(a: Findings)
    ensures FindingsAlike(a, a)
  {
  }

  // ---------- What the schedule can change ----------

  lemma {:induction false} EmissionsWriteNoColumn(steps: seq<Step>, more: seq<Step>, f: string, column: Column)
    requires forall step :: step in more ==> step.Emit?
    ensures LatestWrite(steps + more, f, column) == LatestWrite(steps, f, column)
  {
    if |more| == 0 {
      assert steps + more == steps;
    } else {
      var n := |more| - 1;
      assert more[n] in more;
      EmissionsWriteNoColumn(steps, more[..n], f, column);
      assert (steps + more)[..|steps + more| - 1] == steps + more[..n];
    }
  }

  /** A drained row shows, in each edited column, the latest edit that found the row. */
  lemma DrainedColumn(run: seq<Action>, f: string, column: Column)
    ensures var dets := Drain(Exec(run)).findings.detections;
            f in dets ==> Shown(dets[f], column) == LatestWrite(Steps(run), f, column)
  {
    hide Journal, Replay, Backlog, LatestWrite, Shown;
    var db := Exec(run);
    var batch := Backlog(db.events, db.processed);
    var journal := Journal(db.events, batch);
    ExecReplaysSteps(run);
    ReplayConcat(NO_FINDINGS, Steps(run), journal);
    EditHistory(Steps(run) + journal, f, column);
    JournalEmits(db.events, batch);
    EmissionsWriteNoColumn(Steps(run), journal, f, column);
  }

  lemma AllColumns(d: Detection, d': Detection)
    requires Unedited(d) == Unedited(d') && forall column :: Shown(d, column) == Shown(d', column)
    ensures d == d'
  {
    assert Shown(d, Status) == Shown(d', Status) && Shown(d, Assignee) == Shown(d', Assignee) && Shown(d, Notes) == Shown(d', Notes);
  }

  /** Two histories of edits leave the same in every column of `f`. */
  ghost predicate SameWrites(s: seq<Step>, t: seq<Step>, f: string) {
    forall column :: LatestWrite(s, f, column) == LatestWrite(t, f, column)
  }

  lemma AlikeRowsAgree(run: seq<Action>, other: seq<Action>)
    requires Alike(Drain(Exec(run)), Drain(Exec(other)))
    ensures Drain(Exec(run)) == Drain(Exec(other))
       <==> forall f :: f in Drain(Exec(run)).findings.detections ==> SameWrites(Steps(run), Steps(other), f)
  {
    hide Drain, Exec, Steps, LatestWrite, Shown, Unedited;
    var a, b := Drain(Exec(run)).findings.detections, Drain(Exec(other)).findings.detections;
    forall f, column | f in a
      ensures Shown(a[f], column) == LatestWrite(Steps(run), f, column) && Shown(b[f], column) == LatestWrite(Steps(other), f, column)
    {
      DrainedColumn(run, f, column);
      DrainedColumn(other, f, column);
    }
    if forall f :: f in a ==> SameWrites(Steps(run), Steps(other), f) {
      forall f | f in a
        ensures a[f] == b[f]
      {
        assert SameWrites(Steps(run), Steps(other), f);
        AllColumns(a[f], b[f]);
      }
      assert a == b;
    }
  }

  lemma AlikeThrough(a: Tables, b: Tables, c: Tables)
    requires Alike(a, c) && Alike(b, c)
    ensures Alike(a, b)
  {
    assert forall f :: f in a.findings.detections ==> Unedited(b.findings.detections[f]) == Unedited(c.findings.detections[f]);
  }

  lemma DrainedAlike(run: seq<Action>)
    requires InTimeOrder(NO_TABLES, Arrivals(run))
    ensures Alike(Drain(Exec(run)), Drain(InsertAll(NO_TABLES, Arrivals(run))))
  {
    hide Materialize, FindingsAlike, Exec, Arrivals;
    var plain := Exec(WithoutEdits(run));
    WithoutEditsHolds(run);
    EditsStayLocal(run);
    UneditedScheduleDoesNotMatter(WithoutEdits(run));
    MaterializeAlike(Exec(run), plain, |Backlog(plain.events, plain.processed)|);
  }

  /** Any two schedules of the same arrivals, in strictly increasing time order, leave the same
      tables but for the three edited columns, and the very same tables exactly when the edits
      that found their row agree. */
  lemma SchedulesAgreeExactly(run: seq<Action>, other: seq<Action>)
    requires Arrivals(run) == Arrivals(other) && InTimeOrder(NO_TABLES, Arrivals(run))
    ensures Alike(Drain(Exec(run)), Drain(Exec(other)))
    ensures Drain(Exec(run)) == Drain(Exec(other))
       <==> forall f :: f in Drain(Exec(run)).findings.detections ==> SameWrites(Steps(run), Steps(other), f)
  {
    hide Drain, Exec, Steps, Alike, SameWrites;
    DrainedAlike(run);
    DrainedAlike(other);
    AlikeThrough(Drain(Exec(run)), Drain(Exec(other)), Drain(InsertAll(NO_TABLES, Arrivals(run))));
    AlikeRowsAgree(run, other);
  }

  /** No edit that found the row of `f` left anything but the row's first values. */
  ghost predicate Untouched(steps: seq<Step>, f: string) { forall column :: LatestWrite(steps, f, column) == Initial(column) }

  function Ingests(arrivals: seq<Event>): seq<Action> { seq(|arrivals|, i requires 0 <= i < |arrivals| => Ingest(arrivals[i])) }

  lemma {:induction false} IngestsInsert(arrivals: seq<Event>)
    ensures Arrivals(Ingests(arrivals)) == arrivals
    ensures Exec(Ingests(arrivals)) == InsertAll(NO_TABLES, arrivals)
    ensures Steps(Ingests(arrivals)) == []
  {
    hide Insert;
    if |arrivals| > 0 {
      var n := |arrivals| - 1;
      IngestsInsert(arrivals[..n]);
      assert Ingests(arrivals)[..n] == Ingests(arrivals[..n]);
      assert arrivals == arrivals[..n] + [arrivals[n]];
    }
  }

  lemma NothingWritten(f: string, column: Column)
    ensures LatestWrite([], f, column) == Initial(column)
  {
  }

  /** However inline runs, worker runs and analyst edits interleave with the inserts, and
      whatever the limits: once the backlog is drained the tables are those of inserting
      everything and processing once, provided new events arrive in strictly increasing time
      order; but for the three edited columns always, and in those exactly when no edit that
      found its row changed it. */
  lemma ScheduleDoesNotMatter(run: seq<Action>)
    requires InTimeOrder(NO_TABLES, Arrivals(run))
    ensures Alike(Drain(Exec(run)), Drain(InsertAll(NO_TABLES, Arrivals(run))))
    ensures Drain(Exec(run)) == Drain(InsertAll(NO_TABLES, Arrivals(run)))
       <==> forall f :: f in Drain(Exec(run)).findings.detections ==> Untouched(Steps(run), f)
  {
    hide Drain, Exec, Steps, Alike, LatestWrite, InsertAll, InTimeOrder;
    var plain := Ingests(Arrivals(run));
    IngestsInsert(Arrivals(run));
    SchedulesAgreeExactly(run, plain);
    forall f
      ensures SameWrites(Steps(run), Steps(plain), f) <==> Untouched(Steps(run), f)
    {
      forall column
        ensures LatestWrite(Steps(plain), f, column) == Initial(column)
      {
        NothingWritten(f, column);
      }
    }
  }

  // ---------- An edit that comes too early is lost ----------

  lemma UnprocessedOne(e: Event, processed: set<string>)
    ensures Unprocessed([e], processed) == if e.eventId in processed then [] else [e]
  {
    assert [e][1..] == [];
  }

  lemma OneEvent(e: Event)
    ensures Exec([Ingest(e)]) == Insert(NO_TABLES, e) == Tables([e], {}, NO_FINDINGS)
    ensures Drain(Tables([e], {}, NO_FINDINGS)) == Tables([e], {e.eventId}, Replay(NO_FINDINGS, Journal([e], [e])))
  {
    hide Replay, Journal;
    assert [Ingest(e)][..0] == [];
    assert [e][..0] == [];
    assert ByTime([e]) == [e];
    UnprocessedOne(e, {});
    assert Backlog([e], {}) == [e];
    assert Ids([e]) == {e.eventId};
  }

  lemma OneRow(e: Event, kind: Kind)
    requires Triggers(kind, e, Observe([e], e))
    ensures DetectionFingerprint(kind, e) in Drain(Tables([e], {}, NO_FINDINGS)).findings.detections
  {
    hide Replay, Journal, DetectionFingerprint, Observe, Triggers;
    var f := DetectionFingerprint(kind, e);
    OneEvent(e);
    DetectionHistory(Journal([e], [e]), f);
    JournalEmitters([e], [e], f);
    EmittingEventsHold([e], [e], f);
    IndexOfKind(kind);
    assert Emits([e], e, f);
    assert e in EmittingEvents([e], [e], f);
  }

  /** The same insert, run and edit in two orders: an edit made before the engine has created
      the row finds nothing to edit. */
  lemma EarlyEditIsLost(e: Event, status: string)
    requires e.path in SENSITIVE_PATHS && status != "new"
    ensures var f := DetectionFingerprint(SensitivePathDiscovery, e);
            var edit := Edit(f, Some(status), None, None);
            var early, late := [Ingest(e), edit], [Ingest(e), Run(1), edit];
            && Arrivals(early) == Arrivals(late) == [e]
            && f in Drain(Exec(early)).findings.detections && Drain(Exec(early)).findings.detections[f].status == "new"
            && f in Drain(Exec(late)).findings.detections && Drain(Exec(late)).findings.detections[f].status == status
  {
    hide Replay, Journal, DetectionFingerprint, Drain;
    var f := DetectionFingerprint(SensitivePathDiscovery, e);
    var edit := Edit(f, Some(status), None, None);
    var one := Tables([e], {}, NO_FINDINGS);
    var early, late := [Ingest(e), edit], [Ingest(e), Run(1), edit];
    OneEvent(e);
    OneRow(e, SensitivePathDiscovery);
    ArrivalsOf(e);
    assert early[..1] == [Ingest(e)] && late[..2] == [Ingest(e), Run(1)] && late[..2][..1] == [Ingest(e)];
    assert [Ingest(e)][..0] == [];
    assert Exec(early) == one;
    DrainedColumn(early, f, Status);
    assert Steps(early) == [Triage(f, Some(status), None, None)] by {
      assert Steps([Ingest(e)]) == [];
    }
    TooEarly(f, status);
    RunOne(e);
    assert Exec(late[..2]) == Drain(one);
    var edited := Exec(late);
    assert f in edited.findings.detections && edited.findings.detections[f].status == status;
    DrainedKeepsProcessed(edited);
  }

  lemma ArrivalsOf(e: Event)
    ensures Arrivals([Ingest(e)]) == [e]
  {
    assert [Ingest(e)][..0] == [];
  }

  lemma TooEarly(f: string, status: string)
    ensures LatestWrite([Triage(f, Some(status), None, None)], f, Status) == Some("new")
  {
    assert [Triage(f, Some(status), None, None)][..0] == [];
  }

  lemma RunOne(e: Event)
    ensures Materialize(Tables([e], {}, NO_FINDINGS), 1) == Drain(Tables([e], {}, NO_FINDINGS))
  {
    hide Replay, Journal;
    assert [e][..0] == [] && ByTime([e]) == [e];
    UnprocessedOne(e, {});
  }

  lemma DrainedKeepsProcessed(db: Tables)
    requires forall e :: e in db.events ==> e.eventId in db.processed
    ensures Drain(db) == db
  {
    hide ByTime;
    var b := Backlog(db.events, db.processed);
    assert |b| > 0 ==> b[0] in b;
    ByTimeSorts(db.events);
    UnprocessedHolds(ByTime(db.events), db.processed);
    NothingToDo(db, |b|);
  }

  // ---------- Without the order of arrival the schedule matters ----------

  /** For a fingerprint of the enumeration detection, emitting it takes two sensitive paths. */
  lemma EmitsEnumeration(events: seq<Event>, d: Event, e: Event)
    ensures var f := DetectionFingerprint(AdminPanelEnumeration, d);
            && (Emits(events, e, f) ==> |Observe(events, e).paths * SENSITIVE_PATHS| >= 2)
            && (|Observe(events, d).paths * SENSITIVE_PATHS| >= 2 ==> Emits(events, d, f))
  {
    hide DetectionFingerprint, Observe;
    var f := DetectionFingerprint(AdminPanelEnumeration, d);
    IndexOfKind(AdminPanelEnumeration);
    if Emits(events, e, f) {
      var i :| 0 <= i < |KINDS| && Triggers(KINDS[i], e, Observe(events, e)) && DetectionFingerprint(KINDS[i], e) == f;
      FingerprintInjective(KINDS[i], AdminPanelEnumeration, e, d);
    }
  }

  lemma OnePathSeen(events: seq<Event>, e: Event)
    requires Recent(events, e, DETECTION_WINDOW) == [e]
    ensures |Observe(events, e).paths * SENSITIVE_PATHS| < 2
  {
    assert Observe(events, e).paths == {e.path};
    SubsetSize({e.path} * SENSITIVE_PATHS, {e.path});
  }

  /** `early` happened first, at most ten minutes before `late`, but arrives second. */
  ghost predicate OutOfOrder(late: Event, early: Event) {
    && late.eventId != early.eventId && late.srcIp == early.srcIp
    && early.occurredAt <= late.occurredAt <= early.occurredAt + DETECTION_WINDOW
    && late.path == "/.env" && early.path == "/admin"
  }

  lemma WindowsOfPair(late: Event, early: Event)
    requires OutOfOrder(late, early)
    ensures Recent([late], late, DETECTION_WINDOW) == [late]
    ensures Recent([late, early], late, DETECTION_WINDOW) == [late, early]
    ensures early.occurredAt < late.occurredAt ==> Recent([late, early], early, DETECTION_WINDOW) == [early]
  {
    assert [late, early][..1] == [late] && [late][..0] == [];
    assert Recent([], late, DETECTION_WINDOW) == [] && Recent([], early, DETECTION_WINDOW) == [];
    assert [] + [late] == [late] && [] + [early] == [early];
  }

  lemma PairEmits(late: Event, early: Event)
    requires OutOfOrder(late, early)
    ensures var f := DetectionFingerprint(AdminPanelEnumeration, late);
            && !Emits([late], late, f) && Emits([late, early], late, f)
            && (early.occurredAt < late.occurredAt ==> !Emits([late, early], early, f))
  {
    hide Emits, Observe;
    WindowsOfPair(late, early);
    EmitsEnumeration([late], late, late);
    EmitsEnumeration([late, early], late, late);
    EmitsEnumeration([late, early], late, early);
    OnePathSeen([late], late);
    TwoPathsSeen(late, early);
    if early.occurredAt < late.occurredAt {
      OnePathSeen([late, early], early);
    }
  }

  lemma TwoPathsSeen(late: Event, early: Event)
    requires OutOfOrder(late, early)
    ensures |Observe([late, early], late).paths * SENSITIVE_PATHS| >= 2
  {
    WindowsOfPair(late, early);
    assert late in [late, early] && early in [late, early];
    assert "/.env" != "/admin";
    SubsetSize({"/.env", "/admin"}, Observe([late, early], late).paths * SENSITIVE_PATHS);
  }

  lemma PairOrder(late: Event, early: Event)
    requires OutOfOrder(late, early)
    ensures Backlog([late, early], {}) == if early.occurredAt < late.occurredAt then [early, late] else [late, early]
    ensures Backlog([late, early], {late.eventId}) == [early]
  {
    assert [late, early][..1] == [late] && [late][..0] == [];
    assert ByTime([late]) == [late];
    var s := ByTime([late, early]);
    assert s == if early.occurredAt < late.occurredAt then [early, late] else [late, early] by {
      if early.occurredAt < late.occurredAt {
        assert InsertByTime([], early) == [early];
        assert InsertByTime([late], early) == [early] + [late];
      }
    }
    assert s[1..] == [s[1]];
    UnprocessedOne(s[1], {});
    UnprocessedOne(s[1], {late.eventId});
  }

  lemma TwoEmitters(events: seq<Event>, a: Event, b: Event, f: string)
    ensures EmittingEvents(events, [a, b], f)
         == (if Emits(events, a, f) then [a] else []) + (if Emits(events, b, f) then [b] else [])
  {
    hide Emits;
    assert [a, b][..1] == [a] && [a][..0] == [];
    assert EmittingEvents(events, [], f) == [];
    assert EmittingEvents(events, [a], f) == if Emits(events, a, f) then [a] else [];
  }

  lemma PairIngested(late: Event, early: Event)
    requires late.eventId != early.eventId
    ensures Exec([Ingest(late), Ingest(early)]) == Tables([late, early], {}, NO_FINDINGS)
  {
    OneEvent(late);
    assert [Ingest(late), Ingest(early)][..1] == [Ingest(late)];
  }

  /** Drained once after both arrived. */
  lemma PairTogether(late: Event, early: Event)
    requires OutOfOrder(late, early)
    ensures var f, dets := DetectionFingerprint(AdminPanelEnumeration, late),
                           Drain(Exec([Ingest(late), Ingest(early)])).findings.detections;
            f in dets && dets[f].eventId == late.eventId
  {
    hide Replay, Journal, Emits, Emitters, EmittingEvents, DetectionFingerprint, Backlog, Exec;
    var f, events := DetectionFingerprint(AdminPanelEnumeration, late), [late, early];
    PairIngested(late, early);
    PairEmits(late, early);
    PairOrder(late, early);
    var batch := Backlog(events, {});
    TwoEmitters(events, batch[0], batch[1], f);
    assert batch == [batch[0], batch[1]];
    JournalEmitters(events, batch, f);
    DetectionHistory(Journal(events, batch), f);
  }

  /** Drained in between as well. */
  lemma PairApart(late: Event, early: Event)
    requires OutOfOrder(late, early)
    ensures var f, dets := DetectionFingerprint(AdminPanelEnumeration, late),
                           Drain(Exec([Ingest(late), Run(1), Ingest(early)])).findings.detections;
            && (f in dets ==> dets[f].eventId == early.eventId)
            && (early.occurredAt < late.occurredAt ==> f !in dets)
  {
    hide Replay, Journal, Emits, DetectionFingerprint, Backlog;
    var f, events := DetectionFingerprint(AdminPanelEnumeration, late), [late, early];
    var run := [Ingest(late), Run(1), Ingest(early)];
    OneEvent(late);
    RunOne(late);
    assert run[..2] == [Ingest(late), Run(1)] && run[..2][..1] == [Ingest(late)];
    var db := Exec(run);
    var first := Journal([late], [late]);
    assert Exec(run[..2]) == Tables([late], {late.eventId}, Replay(NO_FINDINGS, first));
    assert Ids([late]) == {late.eventId};
    assert db == Tables(events, {late.eventId}, Replay(NO_FINDINGS, first));
    PairEmits(late, early);
    PairOrder(late, early);
    var second := Journal(events, [early]);
    ReplayConcat(NO_FINDINGS, first, second);
    assert Drain(db).findings == Replay(NO_FINDINGS, first + second);
    JournalEmitters([late], [late], f);
    JournalEmitters(events, [early], f);
    EmittersConcat(first, second, f);
    assert [late][..0] == [] && [early][..0] == [];
    assert EmittingEvents([late], [], f) == [] && EmittingEvents(events, [], f) == [];
    DetectionHistory(first + second, f);
  }

  /** An event that arrives after a later one, or after one of the same moment, was not in the
      window when that one was processed inline: the enumeration it completes is found only when
      both are there before the engine runs.  So the order of arrival has to be strict. */
  lemma OutOfOrderMatters(late: Event, early: Event)
    requires OutOfOrder(late, early)
    ensures var together, apart := [Ingest(late), Ingest(early)], [Ingest(late), Run(1), Ingest(early)];
            && Arrivals(together) == Arrivals(apart) == [late, early]
            && Drain(Exec(together)) != Drain(Exec(apart))
            && var f := DetectionFingerprint(AdminPanelEnumeration, late);
               f in Drain(Exec(together)).findings.detections
               && (early.occurredAt < late.occurredAt ==> f !in Drain(Exec(apart)).findings.detections)
  {
    hide Drain, Exec, DetectionFingerprint;
    var together, apart := [Ingest(late), Ingest(early)], [Ingest(late), Run(1), Ingest(early)];
    assert together[..1] == [Ingest(late)] && [Ingest(late)][..0] == [];
    assert apart[..2] == [Ingest(late), Run(1)] && apart[..2][..1] == [Ingest(late)];
    ArrivalsOf(late);
    assert Arrivals(together) == [late] + [early] && Arrivals(apart) == [late] + [early];
    PairTogether(late, early);
    PairApart(late, early);
  }
}
