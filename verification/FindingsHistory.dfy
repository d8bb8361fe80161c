/**
 What the two findings tables hold after any sequence of emissions and analyst
 edits: cached aggregates agree with recomputation, and every row is explained
 by the history of its emissions.
 */
module FindingsHistory {
  import opened Options
  import opened DetectionEngine
  import opened Sets

  // ---------- Fingerprints determine their type ----------

  ghost predicate ColonFree(s: string) { ':' !in s }

  function BeforeColon(s: string): string {
    if s == "" || s[0] == ':' then "" else [s[0]] + BeforeColon(s[1..])
  }

  lemma {:induction false} BeforeColonOfHead(a: string, x: string)
    requires ColonFree(a)
    ensures BeforeColon(a + ":" + x) == a
  {
    if a != "" {
      BeforeColonOfHead(a[1..], x);
      assert (a + ":" + x)[1..] == a[1..] + ":" + x;
    }
  }

  /** A colon-free head is recovered from the text before the first colon. */
  lemma HeadBeforeColon(a: string, b: string, x: string, y: string)
    requires ColonFree(a) && ColonFree(b)
    requires a + ":" + x == b + ":" + y
    ensures a == b && x == y
  {
    BeforeColonOfHead(a, x);
    BeforeColonOfHead(b, y);
    assert x == (a + ":" + x)[|a| + 1..];
    assert y == (b + ":" + y)[|b| + 1..];
  }

  lemma NamesColonFree(k: Kind)
    ensures ColonFree(k.Name())
  {
    hide ColonFree;
    LongNamesColonFree();
    ShortNamesColonFree();
    ProbeNamesColonFree();
  }

  lemma LongNamesColonFree()
    ensures ColonFree("sensitive_path_discovery") && ColonFree("admin_panel_enumeration")
    ensures ColonFree("distributed_scanner_activity")
  {
  }

  lemma ShortNamesColonFree()
    ensures ColonFree("credential_bruteforce") && ColonFree("credential_stuffing") && ColonFree("internet_recon")
  {
  }

  lemma ProbeNamesColonFree()
    ensures ColonFree("path_traversal_probe") && ColonFree("xss_probe") && ColonFree("sqli_probe")
  {
  }

  lemma NamesDistinct(k: Kind, l: Kind)
    requires k.Name() == l.Name()
    ensures k == l
  {
    assert |"path_traversal_probe"| == 20 && |"xss_probe"| == 9 && |"sqli_probe"| == 10;
    assert |"sensitive_path_discovery"| == 24 && |"admin_panel_enumeration"| == 23;
    assert |"credential_bruteforce"| == 21 && |"credential_stuffing"| == 19;
    assert |"internet_recon"| == 14 && |"distributed_scanner_activity"| == 28;
    assert |k.Name()| == |l.Name()|;
  }

  /** A fingerprint of known type and scope can only come from that type and scope. */
  lemma FingerprintParts(k: Kind, e: Event, l: Kind, scope: string)
    requires DetectionFingerprint(k, e) == l.Name() + ":" + scope
    ensures k == l && Scope(k, e) == scope
  {
    hide Kind.Name, Scope;
    NamesColonFree(k);
    NamesColonFree(l);
    HeadBeforeColon(k.Name(), l.Name(), Scope(k, e), scope);
    NamesDistinct(k, l);
  }

  /** Two emissions share a detection row only when type and scope are the same. */
  lemma FingerprintInjective(k: Kind, l: Kind, e: Event, d: Event)
    requires DetectionFingerprint(k, e) == DetectionFingerprint(l, d)
    ensures k == l && Scope(k, e) == Scope(l, d)
  {
    hide Kind.Name, Scope;
    FingerprintParts(k, e, l, Scope(l, d));
  }

  lemma NoEmissions(e: Event, o: Observed)
    ensures EmissionsUpTo(0, e, o) == []
  {
  }

  lemma KindsIndexed(i: nat)
    requires i < |KINDS|
    ensures KINDS[i].Index() == i
  {
  }

  lemma IndexOfKind(kind: Kind)
    ensures kind.Index() < |KINDS| && KINDS[kind.Index()] == kind
  {
  }

  lemma NextEmission(n: nat, kind: Kind, e: Event, o: Observed)
    requires n < |KINDS| && n == kind.Index()
    ensures EmissionsUpTo(n + 1, e, o)
         == if Triggers(kind, e, o) then EmissionsUpTo(n, e, o) + [Emit(e, kind, EvidenceFor(kind, e, o))]
            else EmissionsUpTo(n, e, o)
  {
    hide Triggers, EvidenceFor;
    KindsIndexed(n);
    assert KINDS[n] == kind;
  }

  // ---------- Cached aggregates ----------

  ghost predicate AggregateAgrees(db: Findings, key: string)
    requires key in db.investigations
  {
    var inv := db.investigations[key];
    && inv.detectionCount == |Members(db.detections, key)|
    && inv.decoySpread == Spread(db.detections, key)
    && inv.activityClass == Classify(Spread(db.detections, key), |Members(db.detections, key)|)
  }

  /** Every investigation's cached numbers are what its current detections give, and no
      detection is left outside an existing investigation. */
  ghost predicate AggregatesAgree(db: Findings) {
    && (forall key | key in db.investigations :: AggregateAgrees(db, key))
    && (forall f | f in db.detections ::
          db.detections[f].investigation.Some? && db.detections[f].investigation.value in db.investigations)
  }

  /** A record step leaves the members of every other investigation alone. */
  lemma OtherMembersUnchanged(dets: map<string, Detection>, e: Event, kind: Kind, evidence: map<string, Evidence>, key: string)
    requires key != InvestigationFingerprint(e)
    ensures Members(RecordDetections(dets, e, kind, evidence), key) == Members(dets, key)
    ensures MemberDecoys(RecordDetections(dets, e, kind, evidence), key) == MemberDecoys(dets, key)
  {
    var dets' := RecordDetections(dets, e, kind, evidence);
    assert Members(dets', key) == Members(dets, key);
    assert forall f | f in Members(dets, key) :: dets'[f].decoyId == dets[f].decoyId;
  }

  lemma RecordAgreesAt(db: Findings, e: Event, kind: Kind, evidence: map<string, Evidence>, key: string)
    requires AggregatesAgree(db)
    requires key in Record(db, e, kind, evidence).investigations
    ensures AggregateAgrees(Record(db, e, kind, evidence), key)
  {
    if key != InvestigationFingerprint(e) {
      OtherMembersUnchanged(db.detections, e, kind, evidence, key);
      assert AggregateAgrees(db, key);
    }
  }

  lemma TriageKeepsMembers(db: Findings, step: Step, key: string)
    requires step.Triage?
    ensures Members(Apply(db, step).detections, key) == Members(db.detections, key)
    ensures MemberDecoys(Apply(db, step).detections, key) == MemberDecoys(db.detections, key)
  {
    var dets, dets' := db.detections, Apply(db, step).detections;
    assert dets'.Keys == dets.Keys;
    assert forall f | f in dets :: dets'[f].investigation == dets[f].investigation && dets'[f].decoyId == dets[f].decoyId;
    assert Members(dets', key) == Members(dets, key);
  }

  lemma ApplyKeepsFiling(db: Findings, step: Step, f: string)
    requires AggregatesAgree(db) && f in Apply(db, step).detections
    ensures var d := Apply(db, step).detections[f];
            d.investigation.Some? && d.investigation.value in Apply(db, step).investigations
  {
    hide UpdateStats, DetectionFingerprint, AggregateAgrees;
  }

  lemma ApplyKeepsAggregates(db: Findings, step: Step)
    requires AggregatesAgree(db)
    ensures AggregatesAgree(Apply(db, step))
  {
    hide Record, AggregateAgrees;
    forall key | key in Apply(db, step).investigations
      ensures AggregateAgrees(Apply(db, step), key)
    {
      if step.Emit? {
        RecordAgreesAt(db, step.event, step.kind, step.evidence, key);
      } else {
        assert AggregateAgrees(db, key);
        TriageAgreesAt(db, step, key);
      }
    }
    forall f | f in Apply(db, step).detections
      ensures Apply(db, step).detections[f].investigation.Some?
      ensures Apply(db, step).detections[f].investigation.value in Apply(db, step).investigations
    {
      ApplyKeepsFiling(db, step, f);
    }
  }

  lemma TriageAgreesAt(db: Findings, step: Step, key: string)
    requires step.Triage? && key in db.investigations && AggregateAgrees(db, key)
    ensures AggregateAgrees(Apply(db, step), key)
  {
    TriageKeepsMembers(db, step, key);
  }

  /** After any history, for every investigation and not only the last one touched. */
  lemma {:induction false} AggregatesAlwaysAgree(steps: seq<Step>)
    ensures AggregatesAgree(Replay(NO_FINDINGS, steps))
  {
    if |steps| > 0 {
      AggregatesAlwaysAgree(steps[..|steps| - 1]);
      ApplyKeepsAggregates(Replay(NO_FINDINGS, steps[..|steps| - 1]), steps[|steps| - 1]);
    }
  }

  lemma MembersBoundDecoys(dets: map<string, Detection>, key: string)
    ensures |MemberDecoys(dets, key)| <= |Members(dets, key)|
  {
    var named := set f | f in Members(dets, key) && dets[f].decoyId != "";
    var decoys := map f | f in named :: dets[f].decoyId;
    ImageSize(named, decoys);
    assert MemberDecoys(dets, key) <= Image(named, decoys) by {
      forall id | id in MemberDecoys(dets, key)
        ensures id in Image(named, decoys)
      {
        var f :| f in Members(dets, key) && dets[f].decoyId != "" && dets[f].decoyId == id;
        assert f in named && decoys[f] == id;
      }
    }
    SubsetSize(MemberDecoys(dets, key), Image(named, decoys));
    SubsetSize(named, Members(dets, key));
  }

  /** The second half of the `targeted` test never decides: three decoys need three detections. */
  lemma TargetedIsThreeDecoys(db: Findings, key: string)
    requires AggregatesAgree(db) && key in db.investigations
    ensures db.investigations[key].decoySpread >= 3 ==> db.investigations[key].detectionCount >= 3
    ensures db.investigations[key].activityClass == Targeted <==> db.investigations[key].decoySpread >= 3
  {
    assert AggregateAgrees(db, key);
    MembersBoundDecoys(db.detections, key);
  }

  lemma RowKept(db: Findings, step: Step, f: string)
    requires f in db.detections && db.detections[f].investigation.Some?
    ensures f in Apply(db, step).detections
    ensures var d, d' := db.detections[f], Apply(db, step).detections[f];
            d'.investigation == d.investigation && d'.decoyId == d.decoyId && d'.kind == d.kind && d'.srcIp == d.srcIp
  {
  }

  lemma MembersOnlyGrow(db: Findings, step: Step, key: string)
    requires AggregatesAgree(db)
    ensures Members(db.detections, key) <= Members(Apply(db, step).detections, key)
    ensures |Members(db.detections, key)| <= |Members(Apply(db, step).detections, key)|
    ensures |MemberDecoys(db.detections, key)| <= |MemberDecoys(Apply(db, step).detections, key)|
  {
    var dets, dets' := db.detections, Apply(db, step).detections;
    forall f | f in Members(dets, key)
      ensures f in Members(dets', key) && dets'[f].decoyId == dets[f].decoyId
    {
      RowKept(db, step, f);
    }
    SubsetSize(Members(dets, key), Members(dets', key));
    SubsetSize(MemberDecoys(dets, key), MemberDecoys(dets', key));
  }

  lemma ApplyKeepsTimes(db: Findings, step: Step, key: string)
    requires key in db.investigations
    ensures key in Apply(db, step).investigations
    ensures var inv, inv' := db.investigations[key], Apply(db, step).investigations[key];
            inv.firstSeen == inv'.firstSeen && inv.lastSeen <= inv'.lastSeen
  {
  }

  /** No step removes an investigation or lowers its counts or its class. */
  lemma ApplyClimbs(db: Findings, step: Step, key: string)
    requires AggregatesAgree(db) && key in db.investigations
    ensures key in Apply(db, step).investigations
    ensures var inv, inv' := db.investigations[key], Apply(db, step).investigations[key];
            && inv.firstSeen == inv'.firstSeen && inv.lastSeen <= inv'.lastSeen
            && inv.detectionCount <= inv'.detectionCount && inv.decoySpread <= inv'.decoySpread
            && inv.activityClass.Rank() <= inv'.activityClass.Rank()
  {
    hide Apply, Members, MemberDecoys;
    var db' := Apply(db, step);
    ApplyKeepsTimes(db, step, key);
    ApplyKeepsAggregates(db, step);
    assert AggregateAgrees(db, key) && AggregateAgrees(db', key);
    MembersOnlyGrow(db, step, key);
  }

  /** Between any two moments of a history an investigation's class only climbs. */
  lemma {:induction false} ActivityClassOnlyClimbs(steps: seq<Step>, i: nat, key: string)
    requires i <= |steps| && key in Replay(NO_FINDINGS, steps[..i]).investigations
    ensures key in Replay(NO_FINDINGS, steps).investigations
    ensures Replay(NO_FINDINGS, steps[..i]).investigations[key].activityClass.Rank()
         <= Replay(NO_FINDINGS, steps).investigations[key].activityClass.Rank()
  {
    if i == |steps| {
      assert steps[..i] == steps;
    } else {
      var init := steps[..|steps| - 1];
      assert init[..i] == steps[..i];
      ActivityClassOnlyClimbs(init, i, key);
      AggregatesAlwaysAgree(init);
      ApplyClimbs(Replay(NO_FINDINGS, init), steps[|steps| - 1], key);
    }
  }

  // ---------- Investigations and the events behind them ----------

  /** The times, in order of recording, of the emissions that fell to investigation `key`. */
  function Contributions(steps: seq<Step>, key: string): seq<Time> {
    if |steps| == 0 then []
    else
      var step := steps[|steps| - 1];
      var earlier := Contributions(steps[..|steps| - 1], key);
      if step.Emit? && InvestigationFingerprint(step.event) == key then earlier + [step.event.occurredAt] else earlier
  }

  ghost predicate IsMaximum(m: int, s: seq<int>) { m in s && forall i | 0 <= i < |s| :: s[i] <= m }

  /** An investigation exists exactly when something contributed; it starts at the first
      contribution and its `last_seen` is the maximum over all of them. */
  lemma {:induction false} InvestigationHistory(steps: seq<Step>, key: string)
    ensures key in Replay(NO_FINDINGS, steps).investigations <==> Contributions(steps, key) != []
    ensures key in Replay(NO_FINDINGS, steps).investigations ==>
              var inv := Replay(NO_FINDINGS, steps).investigations[key];
              inv.firstSeen == Contributions(steps, key)[0] && IsMaximum(inv.lastSeen, Contributions(steps, key))
  {
    if |steps| > 0 {
      InvestigationHistory(steps[..|steps| - 1], key);
    }
  }

  // ---------- Detections and the emissions behind them ----------

  /** The events, in order of recording, whose emissions carried fingerprint `f`. */
  function Emitters(steps: seq<Step>, f: string): seq<Event> {
    if |steps| == 0 then []
    else
      var step := steps[|steps| - 1];
      var earlier := Emitters(steps[..|steps| - 1], f);
      if step.Emit? && step.Fingerprint() == f then earlier + [step.event] else earlier
  }

  /** What the emitters of a fingerprint say about its row. */
  ghost predicate Explains(es: seq<Event>, f: string, d: Detection) {
    && es != []
    && d.occurrences == |es|
    && d.decoyId == es[0].decoyId && d.srcIp == es[0].srcIp && d.eventId == es[0].eventId
    && d.firstSeenAt == es[0].occurredAt && d.lastSeenAt == es[|es| - 1].occurredAt
    && d.investigation == Some(InvestigationFingerprint(es[0]))
    && f == DetectionFingerprint(d.kind, es[0])
  }

  lemma RepeatExplained(es: seq<Event>, f: string, d: Detection, e: Event, evidence: map<string, Evidence>)
    requires Explains(es, f, d)
    ensures Explains(es + [e], f, RepeatDetection(d, evidence, e))
  {
  }

  /** A detection row exists exactly when its fingerprint was emitted; it describes the first
      emitter, counts all of them, and carries the time of the latest recorded one. */
  lemma {:induction false} DetectionHistory(steps: seq<Step>, f: string)
    ensures f in Replay(NO_FINDINGS, steps).detections <==> Emitters(steps, f) != []
    ensures f in Replay(NO_FINDINGS, steps).detections ==>
              Explains(Emitters(steps, f), f, Replay(NO_FINDINGS, steps).detections[f])
  {
    if |steps| > 0 {
      var init, step := steps[..|steps| - 1], steps[|steps| - 1];
      DetectionHistory(init, f);
      var db := Replay(NO_FINDINGS, init);
      if step.Emit? && step.Fingerprint() == f && f in db.detections {
        RepeatExplained(Emitters(init, f), f, db.detections[f], step.event, step.evidence);
      }
    }
  }

  lemma {:induction false} EmittersHaveSteps(steps: seq<Step>, f: string)
    ensures forall e :: e in Emitters(steps, f) ==>
                          exists step :: step in steps && step.Emit? && step.event == e && step.Fingerprint() == f
  {
    hide DetectionFingerprint;
    if |steps| > 0 {
      var init, last := steps[..|steps| - 1], steps[|steps| - 1];
      EmittersHaveSteps(init, f);
      forall e | e in Emitters(steps, f)
        ensures exists step :: step in steps && step.Emit? && step.event == e && step.Fingerprint() == f
      {
        if e in Emitters(init, f) {
          var step :| step in init && step.Emit? && step.event == e && step.Fingerprint() == f;
          assert step in steps;
        } else {
          assert last in steps;
        }
      }
    }
  }

  lemma {:induction false} StepsHaveEmitters(steps: seq<Step>, step: Step)
    requires step in steps && step.Emit?
    ensures step.event in Emitters(steps, step.Fingerprint())
  {
    hide DetectionFingerprint;
    var init := steps[..|steps| - 1];
    if step in init {
      StepsHaveEmitters(init, step);
    }
  }

  // ---------- Aggregates and the emissions behind them ----------

  function Fingerprints(steps: seq<Step>): set<string> { set step | step in steps && step.Emit? :: step.Fingerprint() }

  /** The emitted fingerprints whose first emitter falls to investigation `key`. */
  function Cases(steps: seq<Step>, key: string): set<string> {
    set f | f in Fingerprints(steps) && Emitters(steps, f) != [] && InvestigationFingerprint(Emitters(steps, f)[0]) == key
  }

  /** The decoys that those first emitters name. */
  function CaseDecoys(steps: seq<Step>, key: string): set<string> {
    set f | f in Cases(steps, key) && Emitters(steps, f) != [] && Emitters(steps, f)[0].decoyId != "" :: Emitters(steps, f)[0].decoyId
  }

  lemma EmittedIsListed(steps: seq<Step>, f: string)
    requires Emitters(steps, f) != []
    ensures f in Fingerprints(steps)
  {
    hide DetectionFingerprint;
    EmittersHaveSteps(steps, f);
    assert Emitters(steps, f)[0] in Emitters(steps, f);
  }

  lemma MembersAreCases(steps: seq<Step>, key: string)
    ensures Members(Replay(NO_FINDINGS, steps).detections, key) == Cases(steps, key)
    ensures MemberDecoys(Replay(NO_FINDINGS, steps).detections, key) == CaseDecoys(steps, key)
  {
    hide Replay, Fingerprints, DetectionFingerprint, InvestigationFingerprint;
    var dets := Replay(NO_FINDINGS, steps).detections;
    forall f
      ensures f in Members(dets, key) <==> f in Cases(steps, key)
      ensures f in dets ==> Emitters(steps, f) != [] && dets[f].decoyId == Emitters(steps, f)[0].decoyId
    {
      DetectionHistory(steps, f);
      if Emitters(steps, f) != [] {
        EmittedIsListed(steps, f);
      }
    }
    assert Members(dets, key) == Cases(steps, key);
    assert forall f | f in Members(dets, key) :: dets[f].decoyId == Emitters(steps, f)[0].decoyId;
  }

  /** What the cached aggregates say about the history. */
  lemma AggregatesHistory(steps: seq<Step>, key: string)
    requires key in Replay(NO_FINDINGS, steps).investigations
    ensures var inv, cases, decoys := Replay(NO_FINDINGS, steps).investigations[key], Cases(steps, key), CaseDecoys(steps, key);
            && inv.detectionCount == |cases|
            && inv.decoySpread == (if cases == {} then 0 else if decoys == {} then 1 else |decoys|)
            && (inv.activityClass == Targeted <==> |decoys| >= 3)
            && (inv.activityClass == Opportunistic <==> |decoys| == 2)
            && (inv.activityClass == Unknown <==> |decoys| <= 1)
  {
    hide Replay, Cases, CaseDecoys, Members, MemberDecoys;
    var db := Replay(NO_FINDINGS, steps);
    AggregatesAlwaysAgree(steps);
    assert AggregateAgrees(db, key);
    MembersAreCases(steps, key);
    MembersBoundDecoys(db.detections, key);
    assert Cases(steps, key) == {} ==> |CaseDecoys(steps, key)| == 0;
  }

  /** `"unknown"` is kept out of the block targets on creation only: a second emission for
      the same source adds it. */
  lemma {:induction false} BlockTargetsHistory(steps: seq<Step>, f: string, src: string)
    requires forall e | e in Emitters(steps, f) :: e.srcIp == src
    ensures f in Replay(NO_FINDINGS, steps).detections ==>
              Replay(NO_FINDINGS, steps).detections[f].blockTargets ==
              if src == "" || (src == "unknown" && |Emitters(steps, f)| == 1) then [] else [src]
  {
    hide DetectionFingerprint, UpdateStats;
    if |steps| > 0 {
      var init := steps[..|steps| - 1];
      assert forall e | e in Emitters(init, f) :: e in Emitters(steps, f);
      BlockTargetsHistory(init, f, src);
      DetectionHistory(init, f);
      if steps[|steps| - 1].Emit? && steps[|steps| - 1].Fingerprint() == f {
        assert steps[|steps| - 1].event in Emitters(steps, f);
      }
    }
  }

  // ---------- The columns an analyst edits ----------

  datatype Column = Status | Assignee | Notes

  function Shown(d: Detection, column: Column): Option<string> {
    match column
    case Status => Some(d.status)
    case Assignee => d.assignedTo
    case Notes => d.triageNotes
  }

  /** What a new row shows. */
  function Initial(column: Column): Option<string> { if column == Status then Some("new") else None }

  /** What an edit gives a column, if anything. */
  function Given(step: Step, column: Column): Option<string> {
    match step
    case Emit(_, _, _) => None
    case Triage(_, status, assignedTo, notes) =>
      match column
      case Status => status
      case Assignee => assignedTo
      case Notes => notes
  }

  /** The latest value that edits of `f` gave a column; an edit before the first emission of
      `f` does not count. */
  function LatestWrite(steps: seq<Step>, f: string, column: Column): Option<string> {
    if |steps| == 0 then Initial(column)
    else
      var init, step := steps[..|steps| - 1], steps[|steps| - 1];
      if step.Triage? && step.fingerprint == f && Given(step, column).Some? && Emitters(init, f) != []
      then Given(step, column) else LatestWrite(init, f, column)
  }

  lemma ApplyColumn(db: Findings, step: Step, f: string, column: Column)
    requires f in db.detections
    ensures f in Apply(db, step).detections
    ensures Shown(Apply(db, step).detections[f], column)
         == if step.Triage? && step.fingerprint == f && Given(step, column).Some? then Given(step, column)
            else Shown(db.detections[f], column)
  {
    hide DetectionFingerprint, UpdateStats;
  }

  lemma NewColumn(db: Findings, step: Step, f: string, column: Column)
    requires f !in db.detections && f in Apply(db, step).detections
    ensures step.Emit? && Shown(Apply(db, step).detections[f], column) == Initial(column)
  {
    hide DetectionFingerprint, UpdateStats;
  }

  lemma {:induction false} NeverWritten(steps: seq<Step>, f: string, column: Column)
    requires Emitters(steps, f) == []
    ensures LatestWrite(steps, f, column) == Initial(column)
  {
    if |steps| > 0 {
      NeverWritten(steps[..|steps| - 1], f, column);
    }
  }

  /** Each edited column shows the latest edit that found the row, else its first value. */
  lemma {:induction false} EditHistory(steps: seq<Step>, f: string, column: Column)
    ensures f in Replay(NO_FINDINGS, steps).detections ==>
              Shown(Replay(NO_FINDINGS, steps).detections[f], column) == LatestWrite(steps, f, column)
  {
    hide Apply, Shown, Initial, Given;
    if |steps| > 0 {
      var init, step := steps[..|steps| - 1], steps[|steps| - 1];
      var db := Replay(NO_FINDINGS, init);
      EditHistory(init, f, column);
      DetectionHistory(init, f);
      if f in db.detections {
        ApplyColumn(db, step, f, column);
      } else if f in Apply(db, step).detections {
        NewColumn(db, step, f, column);
        NeverWritten(init, f, column);
      }
    }
  }

  /** Evidence always has the keys of its type, as the engine writes it. */
  ghost predicate WellEvidenced(steps: seq<Step>) {
    forall step :: step in steps && step.Emit? ==> step.evidence.Keys == EvidenceKeys(step.kind)
  }

  /** The evidence of the latest recorded emission of `f`. */
  function LatestEvidence(steps: seq<Step>, f: string): map<string, Evidence> {
    if |steps| == 0 then map[]
    else
      var step := steps[|steps| - 1];
      if step.Emit? && step.Fingerprint() == f then step.evidence else LatestEvidence(steps[..|steps| - 1], f)
  }

  /** Merging evidence never keeps anything stale: a detection carries exactly the evidence of
      its latest recorded emission. */
  lemma {:induction false} EvidenceHistory(steps: seq<Step>, f: string)
    requires WellEvidenced(steps)
    ensures f in Replay(NO_FINDINGS, steps).detections ==>
              var d := Replay(NO_FINDINGS, steps).detections[f];
              d.evidence == LatestEvidence(steps, f) && d.evidence.Keys == EvidenceKeys(d.kind)
  {
    hide DetectionFingerprint, UpdateStats, EvidenceKeys;
    if |steps| > 0 {
      var init, step := steps[..|steps| - 1], steps[|steps| - 1];
      var db := Replay(NO_FINDINGS, init);
      assert step in steps;
      EvidenceHistory(init, f);
      if step.Emit? && step.Fingerprint() == f && f in db.detections {
        DetectionHistory(init, f);
        FingerprintInjective(step.kind, db.detections[f].kind, step.event, Emitters(init, f)[0]);
        assert db.detections[f].evidence + step.evidence == step.evidence;
      }
    }
  }

  // ---------- Conservation of occurrences ----------

  ghost function TotalOccurrences(dets: map<string, Detection>): nat
    decreases dets.Keys
  {
    if dets.Keys == {} then 0
    else
      var f :| f in dets.Keys;
      assert (dets - {f}).Keys < dets.Keys;
      dets[f].occurrences + TotalOccurrences(dets - {f})
  }

  lemma {:induction false} TotalSplits(dets: map<string, Detection>, f: string)
    requires f in dets
    ensures TotalOccurrences(dets) == dets[f].occurrences + TotalOccurrences(dets - {f})
    decreases dets.Keys
  {
    var g :| g in dets.Keys && TotalOccurrences(dets) == dets[g].occurrences + TotalOccurrences(dets - {g});
    if g != f {
      assert (dets - {g}).Keys < dets.Keys && (dets - {f}).Keys < dets.Keys;
      TotalSplits(dets - {g}, f);
      TotalSplits(dets - {f}, g);
      assert dets - {g} - {f} == dets - {f} - {g};
    }
  }

  function EmissionCount(steps: seq<Step>): nat {
    if |steps| == 0 then 0
    else EmissionCount(steps[..|steps| - 1]) + (if steps[|steps| - 1].Emit? then 1 else 0)
  }

  /** A step writes at most the row of its own fingerprint; an emission counts it up by one. */
  lemma OneRowWritten(db: Findings, step: Step)
    ensures var f, dets, dets' := step.Fingerprint(), db.detections, Apply(db, step).detections;
            && (step.Emit? ==> f in dets' && dets'[f].occurrences == 1 + if f in dets then dets[f].occurrences else 0)
            && (step.Triage? && f in dets ==> f in dets' && dets'[f].occurrences == dets[f].occurrences)
            && (step.Triage? && f !in dets ==> dets' == dets)
            && dets' - {f} == dets - {f}
  {
    hide UpdateStats, DetectionFingerprint;
  }

  lemma ApplyAddsOne(db: Findings, step: Step)
    ensures TotalOccurrences(Apply(db, step).detections)
         == TotalOccurrences(db.detections) + (if step.Emit? then 1 else 0)
  {
    hide Apply, DetectionFingerprint, TotalOccurrences;
    OneRowWritten(db, step);
    var f := step.Fingerprint();
    var dets, dets' := db.detections, Apply(db, step).detections;
    if step.Emit? || f in dets {
      TotalSplits(dets', f);
      if f in dets {
        TotalSplits(dets, f);
      } else {
        assert dets - {f} == dets;
      }
    }
  }

  /** The occurrences over all rows add up to the number of emissions. */
  lemma {:induction false} OccurrencesConserved(steps: seq<Step>)
    ensures TotalOccurrences(Replay(NO_FINDINGS, steps).detections) == EmissionCount(steps)
  {
    if |steps| > 0 {
      OccurrencesConserved(steps[..|steps| - 1]);
      ApplyAddsOne(Replay(NO_FINDINGS, steps[..|steps| - 1]), steps[|steps| - 1]);
    }
  }
}
