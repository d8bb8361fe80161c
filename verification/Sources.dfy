/**
 Sources do not interfere: in a mixed backlog every source ends up with the rows
 that its own events alone would give it.  Detection fingerprints are plain
 concatenations with colons, and an event without a source address is filed under
 its request fingerprint, so this rests on different sources never meeting in one
 detection or one investigation; ways to guarantee that, and what happens without
 it, are shown.
 */
module Sources {
  import opened Options
  import opened DetectionEngine
  import opened FindingsHistory
  import opened Draining
  import opened Reachability
  import opened Sets

  ghost predicate SourcesNamed(events: seq<Event>) { forall e :: e in events ==> e.srcIp != "" }

  ghost predicate EmitsSomething(events: seq<Event>, e: Event) { exists f :: Emits(events, e, f) }

  /** No detection fingerprint is emitted by the events of two sources. */
  ghost predicate OneSourcePerFingerprint(events: seq<Event>) {
    forall d, e, f :: d in events && e in events && Emits(events, d, f) && Emits(events, e, f) ==> d.srcIp == e.srcIp
  }

  /** No investigation is fed by the events of two sources. */
  ghost predicate OneSourcePerInvestigation(events: seq<Event>) {
    forall d, e :: d in events && e in events && EmitsSomething(events, d) && EmitsSomething(events, e) ==>
                     InvestigationFingerprint(d) == InvestigationFingerprint(e) ==> d.srcIp == e.srcIp
  }

  /** Among named sources that is always so. */
  lemma NamedSourcesSeparate(events: seq<Event>)
    requires SourcesNamed(events)
    ensures OneSourcePerInvestigation(events)
  {
    hide Emits;
  }

  /** No two sources share a scope string. */
  ghost predicate ScopesSeparate(events: seq<Event>) {
    forall d, e :: d in events && e in events && SourceScope(d) == SourceScope(e) ==> d.srcIp == e.srcIp
  }

  lemma SeparateScopesSuffice(events: seq<Event>)
    requires ScopesSeparate(events)
    ensures OneSourcePerFingerprint(events)
  {
    hide Triggers, DetectionFingerprint, Observe;
    forall d, e, f | d in events && e in events && Emits(events, d, f) && Emits(events, e, f)
      ensures d.srcIp == e.srcIp
    {
      var i :| 0 <= i < |KINDS| && Triggers(KINDS[i], d, Observe(events, d)) && DetectionFingerprint(KINDS[i], d) == f;
      var j :| 0 <= j < |KINDS| && Triggers(KINDS[j], e, Observe(events, e)) && DetectionFingerprint(KINDS[j], e) == f;
      SharedFingerprintSharesScope(KINDS[i], KINDS[j], d, e);
    }
  }

  lemma SharedFingerprintSharesScope(k: Kind, l: Kind, d: Event, e: Event)
    requires DetectionFingerprint(k, d) == DetectionFingerprint(l, e)
    ensures d.srcIp == e.srcIp || SourceScope(d) == SourceScope(e)
  {
    hide SourceScope, DetectionFingerprint;
    FingerprintInjective(k, l, d, e);
  }

  /** Colon-free source addresses suffice. */
  lemma ColonFreeSourcesSeparate(events: seq<Event>)
    requires forall e :: e in events ==> ColonFree(e.srcIp)
    ensures ScopesSeparate(events)
  {
    forall d, e | d in events && e in events && SourceScope(d) == SourceScope(e)
      ensures d.srcIp == e.srcIp
    {
      assert SourceScope(d) == d.srcIp + ":" + (d.decoyId + ":" + d.requestFingerprint);
      assert SourceScope(e) == e.srcIp + ":" + (e.decoyId + ":" + e.requestFingerprint);
      HeadBeforeColon(d.srcIp, e.srcIp, d.decoyId + ":" + d.requestFingerprint, e.decoyId + ":" + e.requestFingerprint);
    }
  }

  function AfterColon(s: string): string {
    if s == "" || s[|s| - 1] == ':' then "" else AfterColon(s[..|s| - 1]) + [s[|s| - 1]]
  }

  lemma {:induction false} AfterColonOfTail(x: string, a: string)
    requires ColonFree(a)
    ensures AfterColon(x + ":" + a) == a
  {
    if a != "" {
      AfterColonOfTail(x, a[..|a| - 1]);
      assert (x + ":" + a)[..|x + ":" + a| - 1] == x + ":" + a[..|a| - 1];
    }
  }

  lemma TailAfterColon(x: string, y: string, a: string, b: string)
    requires ColonFree(a) && ColonFree(b)
    requires x + ":" + a == y + ":" + b
    ensures x == y && a == b
  {
    AfterColonOfTail(x, a);
    AfterColonOfTail(y, b);
    assert x == (x + ":" + a)[..|x|];
    assert y == (y + ":" + b)[..|y|];
  }

  /** So do colon-free decoy names and request fingerprints, whatever the addresses hold
      (an IPv6 address, say). */
  lemma ColonFreeDecoysSeparate(events: seq<Event>)
    requires forall e :: e in events ==> ColonFree(e.decoyId) && ColonFree(e.requestFingerprint)
    ensures ScopesSeparate(events)
  {
    forall d, e | d in events && e in events && SourceScope(d) == SourceScope(e)
      ensures d.srcIp == e.srcIp
    {
      TailAfterColon(d.srcIp + ":" + d.decoyId, e.srcIp + ":" + e.decoyId, d.requestFingerprint, e.requestFingerprint);
      TailAfterColon(d.srcIp, e.srcIp, d.decoyId, e.decoyId);
    }
  }

  // ---------- The part of the tables and of the history that concerns one source ----------

  function OfSource(events: seq<Event>, src: string): seq<Event> {
    if |events| == 0 then []
    else
      var e := events[|events| - 1];
      var earlier := OfSource(events[..|events| - 1], src);
      if e.srcIp == src then earlier + [e] else earlier
  }

  function StepsOf(steps: seq<Step>, src: string): seq<Step> {
    if |steps| == 0 then []
    else
      var step := steps[|steps| - 1];
      var earlier := StepsOf(steps[..|steps| - 1], src);
      if step.Emit? && step.event.srcIp == src then earlier + [step] else earlier
  }

  /** The investigations that a source's emissions fall to: one under its own name, or, for
      the blank source, one for each request fingerprint. */
  ghost function Keys(events: seq<Event>, src: string): set<string> {
    set e | e in events && e.srcIp == src && EmitsSomething(events, e) :: InvestigationFingerprint(e)
  }

  ghost function View(db: Findings, src: string, keys: set<string>): Findings {
    Findings(map f | f in db.detections && db.detections[f].srcIp == src :: db.detections[f],
             map k | k in db.investigations && k in keys :: db.investigations[k])
  }

  lemma {:induction false} RecentOfSource(events: seq<Event>, e: Event, width: Time)
    ensures Recent(OfSource(events, e.srcIp), e, width) == Recent(events, e, width)
  {
    if |events| > 0 {
      var init := events[..|events| - 1];
      RecentOfSource(init, e, width);
      var mine := OfSource(events, e.srcIp);
      assert events[|events| - 1].srcIp == e.srcIp ==> mine[..|mine| - 1] == OfSource(init, e.srcIp);
    }
  }

  lemma {:induction false} OfSourceHolds(events: seq<Event>, src: string)
    ensures forall e :: e in OfSource(events, src) <==> e in events && e.srcIp == src
  {
    if |events| > 0 {
      OfSourceHolds(events[..|events| - 1], src);
      assert events == events[..|events| - 1] + [events[|events| - 1]];
    }
  }

  lemma OfSourceAppend(s: seq<Event>, e: Event, src: string)
    ensures OfSource(s + [e], src) == if e.srcIp == src then OfSource(s, src) + [e] else OfSource(s, src)
  {
    assert (s + [e])[..|s|] == s;
  }

  lemma {:induction false} InsertOfSource(s: seq<Event>, e: Event, src: string)
    requires Sorted(s)
    ensures OfSource(InsertByTime(s, e), src)
         == if e.srcIp == src then InsertByTime(OfSource(s, src), e) else OfSource(s, src)
  {
    var mine := OfSource(s, src);
    if |s| == 0 || s[|s| - 1].occurredAt <= e.occurredAt {
      OfSourceAppend(s, e, src);
      OfSourceHolds(s, src);
      assert mine != [] ==> mine[|mine| - 1] in s;
    } else {
      var n := |s| - 1;
      var shorter := OfSource(s[..n], src);
      InsertOfSource(s[..n], e, src);
      OfSourceAppend(InsertByTime(s[..n], e), s[n], src);
      if s[n].srcIp == src {
        assert mine == shorter + [s[n]];
        assert mine[..|mine| - 1] == shorter;
        assert InsertByTime(mine, e) == InsertByTime(shorter, e) + [s[n]];
      } else {
        assert mine == shorter;
      }
    }
  }

  lemma {:induction false} ByTimeOfSource(events: seq<Event>, src: string)
    ensures ByTime(OfSource(events, src)) == OfSource(ByTime(events), src)
  {
    hide InsertByTime;
    if |events| > 0 {
      var n := |events| - 1;
      ByTimeOfSource(events[..n], src);
      ByTimeSorts(events[..n]);
      InsertOfSource(ByTime(events[..n]), events[n], src);
      var mine := OfSource(events, src);
      assert events[n].srcIp == src ==> mine[..|mine| - 1] == OfSource(events[..n], src) && mine[|mine| - 1] == events[n];
    }
  }

  lemma {:induction false} StepsOfConcat(a: seq<Step>, b: seq<Step>, src: string)
    ensures StepsOf(a + b, src) == StepsOf(a, src) + StepsOf(b, src)
  {
    if |b| == 0 {
      assert a + b == a;
    } else {
      StepsOfConcat(a, b[..|b| - 1], src);
      assert (a + b)[..|a + b| - 1] == a + b[..|b| - 1];
    }
  }

  lemma {:induction false} StepsOfOneEvent(n: nat, e: Event, o: Observed, src: string)
    requires n <= |KINDS|
    ensures StepsOf(EmissionsUpTo(n, e, o), src) == if e.srcIp == src then EmissionsUpTo(n, e, o) else []
  {
    hide EvidenceFor, Triggers, EmissionsUpTo;
    if n == 0 {
      NoEmissions(e, o);
    } else {
      StepsOfOneEvent(n - 1, e, o, src);
      var k := KINDS[n - 1];
      KindsIndexed(n - 1);
      NextEmission(n - 1, k, e, o);
      var last := if Triggers(k, e, o) then [Emit(e, k, EvidenceFor(k, e, o))] else [];
      assert EmissionsUpTo(n, e, o) == EmissionsUpTo(n - 1, e, o) + last;
      StepsOfConcat(EmissionsUpTo(n - 1, e, o), last, src);
      assert last != [] ==> last[..0] == [];
    }
  }

  /** The steps of one source in a mixed journal are the journal of its own events. */
  lemma {:induction false} JournalOfSource(events: seq<Event>, batch: seq<Event>, src: string)
    ensures StepsOf(Journal(events, batch), src) == Journal(OfSource(events, src), OfSource(batch, src))
  {
    hide EmissionsUpTo;
    if |batch| > 0 {
      var init, e := batch[..|batch| - 1], batch[|batch| - 1];
      JournalOfSource(events, init, src);
      StepsOfConcat(Journal(events, init), Emissions(events, e), src);
      StepsOfOneEvent(|KINDS|, e, Observe(events, e), src);
      if e.srcIp == src {
        RecentOfSource(events, e, DETECTION_WINDOW);
        RecentOfSource(events, e, DISTRIBUTED_WINDOW);
        assert Emissions(OfSource(events, src), e) == Emissions(events, e);
        var mine := OfSource(batch, src);
        assert mine == OfSource(init, src) + [e] && mine[..|mine| - 1] == OfSource(init, src);
      }
    }
  }

  // ---------- Steps of other sources are invisible ----------

  /** A history of emissions in which `keys` are exactly the investigations of `src`. */
  ghost predicate Separates(steps: seq<Step>, src: string, keys: set<string>) {
    forall step :: step in steps ==> step.Emit? && (InvestigationFingerprint(step.event) in keys <==> step.event.srcIp == src)
  }

  ghost predicate OneSource(steps: seq<Step>) {
    forall d, e, f :: d in Emitters(steps, f) && e in Emitters(steps, f) ==> d.srcIp == e.srcIp
  }

  /** Every row is filed under an investigation of its own source. */
  ghost predicate FiledBySource(dets: map<string, Detection>, src: string, keys: set<string>) {
    forall f :: f in dets ==> dets[f].investigation.Some? && (dets[f].investigation.value in keys <==> dets[f].srcIp == src)
  }

  lemma HistoryFilesBySource(steps: seq<Step>, src: string, keys: set<string>)
    requires Separates(steps, src, keys)
    ensures FiledBySource(Replay(NO_FINDINGS, steps).detections, src, keys)
  {
    hide Replay, DetectionFingerprint, InvestigationFingerprint;
    forall f | f in Replay(NO_FINDINGS, steps).detections
      ensures var d := Replay(NO_FINDINGS, steps).detections[f];
              d.investigation.Some? && (d.investigation.value in keys <==> d.srcIp == src)
    {
      DetectionHistory(steps, f);
      EmittersHaveSteps(steps, f);
      assert Emitters(steps, f)[0] in Emitters(steps, f);
    }
  }

  /** A row found under the fingerprint of the next step belongs to the step's own source. */
  lemma RowOfOwnSource(steps: seq<Step>, step: Step)
    requires step.Emit? && OneSource(steps + [step])
    ensures var f, dets := step.Fingerprint(), Replay(NO_FINDINGS, steps).detections;
            f in dets ==> dets[f].srcIp == step.event.srcIp
  {
    hide Replay, DetectionFingerprint;
    var f := step.Fingerprint();
    assert (steps + [step])[..|steps|] == steps;
    DetectionHistory(steps, f);
    assert Emitters(steps + [step], f) == Emitters(steps, f) + [step.event];
    if Emitters(steps, f) != [] {
      assert Emitters(steps, f)[0] in Emitters(steps + [step], f);
      assert step.event in Emitters(steps + [step], f);
    }
  }

  /** Which entries one emission writes. */
  lemma RecordWrites(db: Findings, e: Event, kind: Kind, evidence: map<string, Evidence>)
    ensures var db', f, key := Record(db, e, kind, evidence), DetectionFingerprint(kind, e), InvestigationFingerprint(e);
            && f in db'.detections && db'.detections == db.detections[f := db'.detections[f]]
            && db'.detections[f].srcIp == (if f in db.detections then db.detections[f].srcIp else e.srcIp)
            && key in db'.investigations && db'.investigations == db.investigations[key := db'.investigations[key]]
  {
    hide DetectionFingerprint, UpdateStats;
  }

  lemma ViewIgnoresOthers(db: Findings, step: Step, src: string, keys: set<string>)
    requires step.Emit? && step.event.srcIp != src && InvestigationFingerprint(step.event) !in keys
    requires step.Fingerprint() in db.detections ==> db.detections[step.Fingerprint()].srcIp == step.event.srcIp
    ensures View(Apply(db, step), src, keys) == View(db, src, keys)
  {
    hide DetectionFingerprint, InvestigationFingerprint, Record;
    RecordWrites(db, step.event, step.kind, step.evidence);
    assert View(Apply(db, step), src, keys).detections == View(db, src, keys).detections;
    assert View(Apply(db, step), src, keys).investigations == View(db, src, keys).investigations;
  }

  lemma DetectionsFollowOwn(db: Findings, e: Event, kind: Kind, evidence: map<string, Evidence>, keys: set<string>)
    requires var f := DetectionFingerprint(kind, e);
             f in db.detections ==> db.detections[f].srcIp == e.srcIp
    ensures View(Record(db, e, kind, evidence), e.srcIp, keys).detections
         == RecordDetections(View(db, e.srcIp, keys).detections, e, kind, evidence)
  {
    hide DetectionFingerprint, InvestigationFingerprint, UpdateStats, EnsureInvestigation;
  }

  lemma StatsFollowOwn(dets: map<string, Detection>, mine: map<string, Detection>, inv: Investigation, src: string, keys: set<string>, key: string)
    requires FiledBySource(dets, src, keys) && key in keys
    requires mine == map f | f in dets && dets[f].srcIp == src :: dets[f]
    ensures UpdateStats(inv, mine, key) == UpdateStats(inv, dets, key)
  {
    assert Members(mine, key) == Members(dets, key);
    assert MemberDecoys(mine, key) == MemberDecoys(dets, key);
  }

  lemma RecordKeepsFiling(db: Findings, e: Event, kind: Kind, evidence: map<string, Evidence>, keys: set<string>)
    requires FiledBySource(db.detections, e.srcIp, keys) && InvestigationFingerprint(e) in keys
    requires var f := DetectionFingerprint(kind, e);
             f in db.detections ==> db.detections[f].srcIp == e.srcIp
    ensures FiledBySource(RecordDetections(db.detections, e, kind, evidence), e.srcIp, keys)
  {
    hide DetectionFingerprint, InvestigationFingerprint;
  }

  lemma ViewFollowsOwn(db: Findings, step: Step, keys: set<string>)
    requires step.Emit? && InvestigationFingerprint(step.event) in keys && FiledBySource(db.detections, step.event.srcIp, keys)
    requires step.Fingerprint() in db.detections ==> db.detections[step.Fingerprint()].srcIp == step.event.srcIp
    ensures View(Apply(db, step), step.event.srcIp, keys) == Apply(View(db, step.event.srcIp, keys), step)
  {
    hide DetectionFingerprint, InvestigationFingerprint, UpdateStats, FiledBySource;
    var e, src, key := step.event, step.event.srcIp, InvestigationFingerprint(step.event);
    var dets := RecordDetections(db.detections, e, step.kind, step.evidence);
    var mine := RecordDetections(View(db, src, keys).detections, e, step.kind, step.evidence);
    DetectionsFollowOwn(db, e, step.kind, step.evidence, keys);
    RecordKeepsFiling(db, e, step.kind, step.evidence, keys);
    StatsFollowOwn(dets, mine, EnsureInvestigation(db.investigations, key, e)[key], src, keys, key);
    assert View(Apply(db, step), src, keys).investigations == Apply(View(db, src, keys), step).investigations;
  }

  lemma OneSourceOfPrefix(steps: seq<Step>, step: Step)
    requires OneSource(steps + [step])
    ensures OneSource(steps)
  {
    hide DetectionFingerprint;
    assert (steps + [step])[..|steps|] == steps;
    assert forall e, f :: e in Emitters(steps, f) ==> e in Emitters(steps + [step], f);
  }

  lemma {:induction false} ViewOfReplay(steps: seq<Step>, src: string, keys: set<string>)
    requires Separates(steps, src, keys) && OneSource(steps)
    ensures View(Replay(NO_FINDINGS, steps), src, keys) == Replay(NO_FINDINGS, StepsOf(steps, src))
  {
    hide Apply, DetectionFingerprint, InvestigationFingerprint, Emitters;
    if |steps| > 0 {
      var init, step := steps[..|steps| - 1], steps[|steps| - 1];
      assert steps == init + [step];
      OneSourceOfPrefix(init, step);
      ViewOfReplay(init, src, keys);
      HistoryFilesBySource(init, src, keys);
      RowOfOwnSource(init, step);
      if step.event.srcIp == src {
        ViewFollowsOwn(Replay(NO_FINDINGS, init), step, keys);
        assert (StepsOf(init, src) + [step])[..|StepsOf(init, src)|] == StepsOf(init, src);
      } else {
        ViewIgnoresOthers(Replay(NO_FINDINGS, init), step, src, keys);
      }
    }
  }

  /** The findings of a table drained from scratch, and who emitted each fingerprint. */
  function Drained(events: seq<Event>): Findings { Drain(Tables(events, {}, NO_FINDINGS)).findings }

  lemma DrainedReplays(events: seq<Event>)
    ensures Drained(events) == Replay(NO_FINDINGS, Journal(events, ByTime(events)))
  {
    hide Journal, Replay, ByTime;
    NothingProcessed(ByTime(events));
  }

  lemma DrainedEmitters(events: seq<Event>, f: string)
    ensures forall e :: e in Emitters(Journal(events, ByTime(events)), f) <==> e in events && Emits(events, e, f)
  {
    hide Journal, Emitters, Emits;
    JournalEmitters(events, ByTime(events), f);
    EmittingEventsHold(events, ByTime(events), f);
    ByTimeSorts(events);
  }

  lemma JournalSeparates(events: seq<Event>, src: string)
    requires OneSourcePerInvestigation(events)
    ensures Separates(Journal(events, ByTime(events)), src, Keys(events, src))
  {
    hide Journal, Emitters, Emits, InvestigationFingerprint, DetectionFingerprint, ByTime;
    var steps := Journal(events, ByTime(events));
    JournalEmits(events, ByTime(events));
    forall step | step in steps
      ensures InvestigationFingerprint(step.event) in Keys(events, src) <==> step.event.srcIp == src
    {
      StepsHaveEmitters(steps, step);
      DrainedEmitters(events, step.Fingerprint());
      assert EmitsSomething(events, step.event);
    }
  }

  /** Draining a mixed table leaves for a source exactly the detections and the
      investigations that draining its own events alone leaves. */
  lemma SourcesDoNotInterfere(events: seq<Event>, src: string)
    requires OneSourcePerFingerprint(events) && OneSourcePerInvestigation(events)
    ensures View(Drained(events), src, Keys(events, src)) == Drained(OfSource(events, src))
  {
    hide Journal, Replay, Emits, Emitters, Separates, View;
    var steps := Journal(events, ByTime(events));
    DrainedReplays(events);
    DrainedReplays(OfSource(events, src));
    forall d, e, f | d in Emitters(steps, f) && e in Emitters(steps, f)
      ensures d.srcIp == e.srcIp
    {
      DrainedEmitters(events, f);
    }
    JournalSeparates(events, src);
    ViewOfReplay(steps, src, Keys(events, src));
    JournalOfSource(events, ByTime(events), src);
    ByTimeOfSource(events, src);
  }

  /** The row of an emitted fingerprint in a drained table: its source is that of some emitter. */
  lemma DrainedRow(events: seq<Event>, e: Event, f: string) returns (first: Event)
    requires e in events && Emits(events, e, f)
    ensures first in events && Emits(events, first, f)
    ensures f in Drained(events).detections
    ensures Drained(events).detections[f].srcIp == first.srcIp
    ensures Drained(events).detections[f].investigation == Some(InvestigationFingerprint(first))
  {
    hide Journal, Replay, Emitters, Emits, InvestigationFingerprint;
    var steps := Journal(events, ByTime(events));
    DrainedReplays(events);
    DrainedEmitters(events, f);
    DetectionHistory(steps, f);
    assert e in Emitters(steps, f);
    first := Emitters(steps, f)[0];
    assert first in Emitters(steps, f);
  }

  /** A fingerprint shared by two sources costs one of them its row. */
  lemma SharedFingerprintInterferes(events: seq<Event>, d: Event, e: Event, f: string) returns (src: string)
    requires d in events && e in events && Emits(events, d, f) && Emits(events, e, f) && d.srcIp != e.srcIp
    ensures View(Drained(events), src, Keys(events, src)) != Drained(OfSource(events, src))
  {
    hide Drained, Emits, Keys, OfSource, InvestigationFingerprint;
    var first := DrainedRow(events, d, f);
    var loser := if first.srcIp == d.srcIp then e else d;
    src := loser.srcIp;
    OfSourceHolds(events, src);
    SameEmissionsAlone(events, loser, f);
    var own := DrainedRow(OfSource(events, src), loser, f);
    assert f !in View(Drained(events), src, Keys(events, src)).detections;
  }

  lemma DrainedAgrees(events: seq<Event>)
    ensures AggregatesAgree(Drained(events))
  {
    hide Journal, Replay, AggregatesAgree;
    DrainedReplays(events);
    AggregatesAlwaysAgree(Journal(events, ByTime(events)));
  }

  /** An investigation that a blank source shares with a named one counts the named one's rows. */
  lemma SharedInvestigationInterferes(events: seq<Event>, named: Event, blank: Event)
    requires OneSourcePerFingerprint(events)
    requires named in events && blank in events && named.srcIp != "" && blank.srcIp == ""
    requires EmitsSomething(events, named) && EmitsSomething(events, blank)
    requires InvestigationFingerprint(named) == InvestigationFingerprint(blank)
    ensures View(Drained(events), "", Keys(events, "")) != Drained(OfSource(events, ""))
  {
    hide Drained, Emits, OfSource, Spread;
    var key := InvestigationFingerprint(blank);
    var f :| Emits(events, named, f);
    var first := DrainedRow(events, named, f);
    var all, mine := Drained(events), Drained(OfSource(events, ""));
    DrainedAgrees(events);
    DrainedAgrees(OfSource(events, ""));
    assert key in Keys(events, "");
    if View(all, "", Keys(events, "")) == mine {
      assert AggregateAgrees(all, key) && AggregateAgrees(mine, key);
      assert f in Members(all.detections, key) && f !in Members(mine.detections, key);
      SubsetSize(Members(mine.detections, key), Members(all.detections, key) - {f});
      assert false;
    }
  }

  lemma SameEmissionsAlone(events: seq<Event>, e: Event, f: string)
    ensures Emits(OfSource(events, e.srcIp), e, f) <==> Emits(events, e, f)
  {
    RecentOfSource(events, e, DETECTION_WINDOW);
    RecentOfSource(events, e, DISTRIBUTED_WINDOW);
  }

  /** Exactly when sources do not interfere, for every table. */
  lemma NonInterferenceExactly(events: seq<Event>)
    ensures (forall src :: View(Drained(events), src, Keys(events, src)) == Drained(OfSource(events, src)))
       <==> OneSourcePerFingerprint(events) && OneSourcePerInvestigation(events)
  {
    hide Drained, View, OfSource, Emits, Keys;
    if !OneSourcePerFingerprint(events) {
      var d, e, f :| d in events && e in events && Emits(events, d, f) && Emits(events, e, f) && d.srcIp != e.srcIp;
      var src := SharedFingerprintInterferes(events, d, e, f);
    } else if !OneSourcePerInvestigation(events) {
      var d, e :| d in events && e in events && EmitsSomething(events, d) && EmitsSomething(events, e)
                  && InvestigationFingerprint(d) == InvestigationFingerprint(e) && d.srcIp != e.srcIp;
      if d.srcIp == "" {
        SharedInvestigationInterferes(events, e, d);
      } else {
        SharedInvestigationInterferes(events, d, e);
      }
    } else {
      forall src
        ensures View(Drained(events), src, Keys(events, src)) == Drained(OfSource(events, src))
      {
        SourcesDoNotInterfere(events, src);
      }
    }
  }

  /** For named sources the view is that of one investigation, under the source's name. */
  lemma NamedSourceHasOneKey(events: seq<Event>, src: string)
    requires src != ""
    ensures Keys(events, src) <= {src}
    ensures Keys(events, src) == {src} <==> exists e :: e in events && e.srcIp == src && EmitsSomething(events, e)
  {
    hide EmitsSomething;
    if e :| e in events && e.srcIp == src && EmitsSomething(events, e) {
      assert InvestigationFingerprint(e) in Keys(events, src);
    }
    if src in Keys(events, src) {
      assert exists e :: e in events && e.srcIp == src && EmitsSomething(events, e);
    }
  }

  /** The second exception is real too: an event without an address whose sender gave another
      source's address as its request fingerprint. */
  lemma BlankSourcesCanInterfere(named: Event, blank: Event)
    requires named.srcIp == "10.0.0.1" && named.path == "/.env"
    requires blank.srcIp == "" && blank.requestFingerprint == "10.0.0.1" && blank.path == "/.env"
    ensures !OneSourcePerInvestigation([named, blank])
  {
    var events := [named, blank];
    assert named in events && blank in events;
    assert KINDS[3] == SensitivePathDiscovery;
    assert Emits(events, named, DetectionFingerprint(SensitivePathDiscovery, named)) by {
      assert Triggers(KINDS[3], named, Observe(events, named));
    }
    assert Emits(events, blank, DetectionFingerprint(SensitivePathDiscovery, blank)) by {
      assert Triggers(KINDS[3], blank, Observe(events, blank));
    }
  }

  /** The collision is real: with colons on both sides, two sources can share a row. */
  lemma ColonsCanInterfere(d: Event, e: Event)
    requires d.srcIp == "10.0.0.1" && d.decoyId == "2:gw" && d.path == "/.env"
    requires e.srcIp == "10.0.0.1:2" && e.decoyId == "gw" && e.path == "/.env"
    requires d.requestFingerprint == e.requestFingerprint
    ensures !OneSourcePerFingerprint([d, e])
  {
    var k, f := SensitivePathDiscovery, DetectionFingerprint(SensitivePathDiscovery, d);
    assert d.srcIp + ":" + d.decoyId == "10.0.0.1:2:gw" == e.srcIp + ":" + e.decoyId;
    assert KINDS[3] == k;
    assert Triggers(KINDS[3], d, Observe([d, e], d)) && Triggers(KINDS[3], e, Observe([d, e], e));
    assert Emits([d, e], d, f) && Emits([d, e], e, f);
    assert d in [d, e] && e in [d, e];
  }
}
