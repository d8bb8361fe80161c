/**
 Handlers, replay thread and control plane together.  A forward may fail before or
 after the control plane has committed the event; either way the relay only sees a
 failure and keeps the payload.  The control plane's deduplication makes the
 composition store every identified payload exactly once.
 */
module EndToEnd {
  import opened Options
  import opened DetectionEngine
  import opened Draining
  import opened Ingestion
  import opened EdgeRelay

  /** The event and credential tables of the control plane, and the identifiers it has
      issued to payloads that came without one. */
  datatype Upstream = Upstream(events: seq<Event>, credentials: seq<Credential>, issued: set<string>)

  predicate HasId(p: Payload) { p.eventId.Some? && p.eventId.value != "" }

  function Commit(up: Upstream, p: Payload, s: Supply): Upstream {
    var e := Normalize(p, s);
    var issued := if HasId(p) then up.issued else up.issued + {s.uuid};
    if e.eventId in Ids(up.events) then up.(issued := issued)
    else Upstream(up.events + [e], AddCredential(up.credentials, e), issued)
  }

  /** A commit is the store's insertion. */
  lemma CommitInserts(up: Upstream, p: Payload, s: Supply)
    requires up.credentials == CredentialsOf(up.events)
    ensures var inserted := Insert(NO_TABLES.(events := up.events), Normalize(p, s)).events;
            Commit(up, p, s).events == inserted && Commit(up, p, s).credentials == CredentialsOf(inserted)
  {
    hide Normalize, CredentialsOf;
    CredentialsAppend(up.events, Normalize(p, s));
  }

  /** One forward: it may be lost on the way, be committed and then fail, or succeed. */
  datatype Outcome = Lost | CommittedThenFailed(supply: Supply) | Delivered(supply: Supply)

  function After(up: Upstream, p: Payload, o: Outcome): Upstream {
    match o
    case Lost => up
    case CommittedThenFailed(s) => Commit(up, p, s)
    case Delivered(s) => Commit(up, p, s)
  }

  /** `waiting` are payloads whose handler is between its failed forward and the queue;
      `posted` and `answered` record what clients sent and what was acknowledged. */
  datatype System = System(
    relay: Relay<Payload>,
    up: Upstream,
    waiting: multiset<Payload>,
    posted: seq<Payload>,
    answered: seq<Payload>)

  datatype Move =
    | Post(payload: Payload, outcome: Outcome, raised: bool)
    | Queue(payload: Payload)
    | ReplayTake
    | ReplayForward(outcome: Outcome)
    | ReplayWriteBack

  function Start(): System { System(Fresh(), Upstream([], [], {}), multiset{}, [], []) }

  function PostStep(s: System, p: Payload, o: Outcome, raised: bool): System {
    var s' := s.(up := After(s.up, p, o), posted := s.posted + [p]);
    if o.Delivered? then s'.(answered := s.answered + [p])
    else if raised then s'
    else s'.(waiting := s.waiting + multiset{p})
  }

  function QueueStep(s: System, p: Payload, max: int): System {
    if p in s.waiting then
      s.(relay := EnqueueStep(s.relay, p, max), waiting := s.waiting - multiset{p}, answered := s.answered + [p])
    else s
  }

  function ReplayForwardStep(s: System, o: Outcome): System {
    var t := s.relay.thread;
    if t.Sending? && t.next < |t.taken| then
      s.(relay := ForwardStep(s.relay, o.Delivered?), up := After(s.up, t.taken[t.next], o))
    else s
  }

  function Next(s: System, a: Move, max: int): System {
    match a
    case Post(p, o, raised) => PostStep(s, p, o, raised)
    case Queue(p) => QueueStep(s, p, max)
    case ReplayTake => s.(relay := TakeStep(s.relay))
    case ReplayForward(o) => ReplayForwardStep(s, o)
    case ReplayWriteBack => s.(relay := WriteBackStep(s.relay))
  }

  function ExecFrom(s: System, run: seq<Move>, max: int): System {
    if |run| == 0 then s else Next(ExecFrom(s, run[..|run| - 1], max), run[|run| - 1], max)
  }

  // ---------- What every step keeps ----------

  predicate IsStored(up: Upstream, p: Payload)
    requires HasId(p)
  {
    p.eventId.value in Ids(up.events)
  }

  ghost predicate StoredIfIdentified(up: Upstream, p: Payload) { HasId(p) ==> IsStored(up, p) }

  ghost predicate TablesSound(up: Upstream, posted: seq<Payload>) {
    && DistinctIds(up.events)
    && up.credentials == CredentialsOf(up.events)
    && forall e :: e in up.events ==> exists p, s :: Origin(up.issued, posted, e, p, s)
  }

  /** Row `e` is what payload `p` became. */
  ghost predicate Origin(issued: set<string>, posted: seq<Payload>, e: Event, p: Payload, s: Supply) {
    p in posted && e == Normalize(p, s) && (HasId(p) || s.uuid in issued)
  }

  /** Everything the relay or a handler holds was posted. */
  ghost predicate HoldsPosted(s: System) {
    && (forall p :: p in s.waiting ==> p in s.posted)
    && (forall p :: p in s.relay.spool ==> p in s.posted)
    && (s.relay.thread.Sending? ==> forall p :: p in s.relay.thread.taken || p in s.relay.thread.failed ==> p in s.posted)
  }

  /** Every acknowledged payload is stored or has been entrusted to the spool. */
  ghost predicate NothingForgotten(s: System) {
    && Conserved(s.relay)
    && (forall p :: p in s.answered ==> StoredIfIdentified(s.up, p) || p in s.relay.ledger.enqueued)
    && (forall p :: p in s.relay.ledger.replayed ==> StoredIfIdentified(s.up, p))
  }

  ghost predicate Progress(t: Thread<Payload>, up: Upstream) {
    t.Sending? ==> t.next <= |t.taken| && forall i :: 0 <= i < t.next ==> t.taken[i] in t.failed || StoredIfIdentified(up, t.taken[i])
  }

  ghost predicate Sound(s: System) {
    TablesSound(s.up, s.posted) && HoldsPosted(s) && NothingForgotten(s) && Progress(s.relay.thread, s.up)
  }

  lemma NormalizeKeepsId(p: Payload, s: Supply)
    requires HasId(p)
    ensures Normalize(p, s).eventId == p.eventId.value
  {
    hide NormalizedTags, Strip, ClassifyEvent;
  }

  lemma NormalizeChoosesId(p: Payload, s: Supply)
    ensures Normalize(p, s).eventId == if HasId(p) then p.eventId.value else s.uuid
  {
    hide NormalizedTags, Strip, ClassifyEvent;
  }

  lemma NormalizeKeepsCredential(p: Payload, s: Supply)
    ensures CarriesCredential(Normalize(p, s)) <==> Strip(p.username) != "" || Strip(p.password) != ""
  {
    hide NormalizedTags, Strip, ClassifyEvent;
  }

  lemma CommitSound(up: Upstream, posted: seq<Payload>, p: Payload, s: Supply)
    requires TablesSound(up, posted) && p in posted
    ensures TablesSound(Commit(up, p, s), posted)
    ensures Ids(up.events) <= Ids(Commit(up, p, s).events)
    ensures StoredIfIdentified(Commit(up, p, s), p)
  {
    hide Normalize, CredentialsOf, AddCredential;
    var e, up' := Normalize(p, s), Commit(up, p, s);
    if HasId(p) {
      NormalizeKeepsId(p, s);
    }
    forall d | d in up'.events
      ensures exists q, t :: Origin(up'.issued, posted, d, q, t)
    {
      if d in up.events {
        var q, t :| Origin(up.issued, posted, d, q, t);
        assert Origin(up'.issued, posted, d, q, t);
      } else {
        assert Origin(up'.issued, posted, d, p, s);
      }
    }
    IdsAppend(up.events, e);
    CredentialsAppend(up.events, e);
  }

  lemma AfterSound(up: Upstream, posted: seq<Payload>, p: Payload, o: Outcome)
    requires TablesSound(up, posted) && p in posted
    ensures TablesSound(After(up, p, o), posted)
    ensures Ids(up.events) <= Ids(After(up, p, o).events)
    ensures o.Delivered? ==> StoredIfIdentified(After(up, p, o), p)
  {
    hide TablesSound, Commit;
    if !o.Lost? {
      CommitSound(up, posted, p, o.supply);
    }
  }

  lemma PostingKeepsOrigins(up: Upstream, posted: seq<Payload>, p: Payload)
    requires TablesSound(up, posted)
    ensures TablesSound(up, posted + [p])
  {
    hide Normalize, CredentialsOf;
    forall e | e in up.events
      ensures exists q, t :: Origin(up.issued, posted + [p], e, q, t)
    {
      var q, t :| Origin(up.issued, posted, e, q, t);
      assert Origin(up.issued, posted + [p], e, q, t);
    }
  }

  lemma PostSound(s: System, p: Payload, o: Outcome, raised: bool)
    requires Sound(s)
    ensures Sound(PostStep(s, p, o, raised))
  {
    hide Conserved, After, TablesSound;
    var posted := s.posted + [p];
    PostingKeepsOrigins(s.up, s.posted, p);
    AfterSound(s.up, posted, p, o);
  }

  lemma CappedHolds(lines: seq<Payload>, max: int)
    ensures forall q :: q in Capped(lines, max) ==> q in lines
  {
    CappedIsSuffix(lines, max);
    assert forall q :: q in Capped(lines, max) ==> q in Evicted(lines, max) + Capped(lines, max);
  }

  lemma QueueSound(s: System, p: Payload, max: int)
    requires Sound(s)
    ensures Sound(QueueStep(s, p, max))
  {
    hide TablesSound, Conserved, StoredIfIdentified, Capped, Evicted;
    if p in s.waiting {
      var lines := s.relay.spool + [p];
      CappedHolds(lines, max);
      EnqueueConserves(s.relay, p, max);
      assert Sound(s) && p in (s.relay.ledger.enqueued + [p]);
    }
  }

  lemma ReplayForwardSound(s: System, o: Outcome)
    requires Sound(s)
    ensures Sound(ReplayForwardStep(s, o))
  {
    hide TablesSound, Conserved, After;
    var t := s.relay.thread;
    if t.Sending? && t.next < |t.taken| {
      var p := t.taken[t.next];
      AfterSound(s.up, s.posted, p, o);
      ForwardConserves(s.relay, o.Delivered?);
      var s' := ReplayForwardStep(s, o);
      assert forall q :: q in t.failed ==> q in s'.relay.thread.failed;
    }
  }

  lemma TakeSound(s: System)
    requires Sound(s)
    ensures Sound(s.(relay := TakeStep(s.relay)))
  {
    hide TablesSound, Conserved, StoredIfIdentified;
    TakeAndWriteBackConserve(s.relay);
  }

  lemma WriteBackSound(s: System)
    requires Sound(s)
    ensures Sound(s.(relay := WriteBackStep(s.relay)))
  {
    hide TablesSound, Conserved, StoredIfIdentified;
    TakeAndWriteBackConserve(s.relay);
  }

  lemma NextSound(s: System, a: Move, max: int)
    requires Sound(s)
    ensures Sound(Next(s, a, max))
  {
    hide Sound, PostStep, QueueStep, ReplayForwardStep, TakeStep, WriteBackStep;
    match a
    case Post(p, o, raised) => PostSound(s, p, o, raised);
    case Queue(p) => QueueSound(s, p, max);
    case ReplayTake => TakeSound(s);
    case ReplayForward(o) => ReplayForwardSound(s, o);
    case ReplayWriteBack => WriteBackSound(s);
  }

  lemma {:induction false} ExecSound(s: System, run: seq<Move>, max: int)
    requires Sound(s)
    ensures Sound(ExecFrom(s, run, max))
  {
    hide Sound, Next;
    if |run| > 0 {
      ExecSound(s, run[..|run| - 1], max);
      NextSound(ExecFrom(s, run[..|run| - 1], max), run[|run| - 1], max);
    }
  }

  lemma StartSound()
    ensures Sound(Start())
  {
  }

  // ---------- Exactly once ----------

  function RowCount(events: seq<Event>, id: string): nat {
    if |events| == 0 then 0
    else RowCount(events[..|events| - 1], id) + (if events[|events| - 1].eventId == id then 1 else 0)
  }

  lemma {:induction false} DistinctRowCount(events: seq<Event>, id: string)
    requires DistinctIds(events)
    ensures RowCount(events, id) == if id in Ids(events) then 1 else 0
  {
    if |events| > 0 {
      var init, e := events[..|events| - 1], events[|events| - 1];
      assert events == init + [e];
      IdsAppend(init, e);
      DistinctRowCount(init, id);
    }
  }

  /** Two payloads with one identifier agree on their credentials. */
  ghost predicate Agree(posted: seq<Payload>, p: Payload) {
    forall q :: q in posted && q.eventId == p.eventId ==> q.username == p.username && q.password == p.password
  }

  predicate BearsCredential(p: Payload) { Strip(p.username) != "" || Strip(p.password) != "" }

  ghost predicate StoredExactlyOnce(up: Upstream, p: Payload)
    requires HasId(p)
  {
    && RowCount(up.events, p.eventId.value) == 1
    && CredentialCount(up.credentials, p.eventId.value)
       == if exists e :: e in up.events && e.eventId == p.eventId.value && CarriesCredential(e) then 1 else 0
  }

  /** At every moment no identifier is stored twice, and a stored one has its row and its
      credential row exactly once. */
  lemma StoredMeansExactlyOnce(s: System, p: Payload)
    requires Sound(s) && HasId(p) && IsStored(s.up, p)
    ensures StoredExactlyOnce(s.up, p)
  {
    DistinctRowCount(s.up.events, p.eventId.value);
    OneCredentialPerCarrier(s.up.events, p.eventId.value);
  }

  lemma NeverTwice(run: seq<Move>, max: int, id: string)
    ensures RowCount(ExecFrom(Start(), run, max).up.events, id) <= 1
  {
    StartSound();
    ExecSound(Start(), run, max);
    DistinctRowCount(ExecFrom(Start(), run, max).up.events, id);
  }

  /** Whatever the interleaving and however forwards failed: when the spool is empty and no
      drain is under way, every acknowledged payload with an identifier that was neither
      evicted nor overwritten is stored exactly once. */
  lemma QuiescentExactlyOnce(run: seq<Move>, max: int, p: Payload)
    requires var s := ExecFrom(Start(), run, max);
             && s.relay.thread == Idle && s.relay.spool == []
             && p in s.answered && HasId(p)
             && p !in s.relay.ledger.evicted && p !in s.relay.ledger.overwritten
    ensures StoredExactlyOnce(ExecFrom(Start(), run, max).up, p)
  {
    hide ExecFrom, Sound, StoredExactlyOnce;
    var s := ExecFrom(Start(), run, max);
    StartSound();
    ExecSound(Start(), run, max);
    SoundAccounts(s, p);
    StoredMeansExactlyOnce(s, p);
  }

  /** In every interleaving an acknowledged payload is stored, or still held, or lost to the cap
      or a write-back. */
  lemma AccountedFor(run: seq<Move>, max: int, p: Payload)
    requires p in ExecFrom(Start(), run, max).answered && HasId(p)
    ensures var s := ExecFrom(Start(), run, max);
            || IsStored(s.up, p) || p in s.relay.spool || p in InHand(s.relay.thread)
            || p in s.relay.ledger.evicted || p in s.relay.ledger.overwritten
  {
    hide ExecFrom, Sound;
    StartSound();
    ExecSound(Start(), run, max);
    SoundAccounts(ExecFrom(Start(), run, max), p);
  }

  lemma SoundAccounts(s: System, p: Payload)
    requires Sound(s) && p in s.answered && HasId(p)
    ensures || IsStored(s.up, p) || p in s.relay.spool || p in InHand(s.relay.thread)
            || p in s.relay.ledger.evicted || p in s.relay.ledger.overwritten
  {
    hide TablesSound, HoldsPosted, InHand;
    if !IsStored(s.up, p) {
      assert p in multiset(s.relay.ledger.enqueued);
      assert p in s.relay.ledger.replayed + multiset(s.relay.spool) + multiset(InHand(s.relay.thread))
                  + s.relay.ledger.evicted + s.relay.ledger.overwritten;
    }
  }

  // ---------- What becomes of a post ----------

  /** The payloads whose handler ended in an unexpected exception. */
  function RaisedPosts(run: seq<Move>): multiset<Payload> {
    if |run| == 0 then multiset{}
    else
      var earlier := RaisedPosts(run[..|run| - 1]);
      match run[|run| - 1]
      case Post(p, o, raised) => if raised && !o.Delivered? then earlier + multiset{p} else earlier
      case _ => earlier
  }

  lemma MoveSettles(s: System, a: Move, max: int)
    ensures var s' := Next(s, a, max);
            && (a.Post? ==> multiset(s'.posted) == multiset(s.posted) + multiset{a.payload}
                            && (a.outcome.Delivered? ==> s'.waiting == s.waiting && multiset(s'.answered) == multiset(s.answered) + multiset{a.payload})
                            && (!a.outcome.Delivered? && a.raised ==> s'.waiting == s.waiting && s'.answered == s.answered)
                            && (!a.outcome.Delivered? && !a.raised ==>
                                  s'.waiting == s.waiting + multiset{a.payload} && s'.answered == s.answered))
            && (!a.Post? ==> s'.posted == s.posted && multiset(s'.answered) + s'.waiting == multiset(s.answered) + s.waiting)
  {
    hide After, EnqueueStep, TakeStep, ForwardStep, WriteBackStep;
  }

  /** In every interleaving each post is, exactly as often as it was made, answered, waiting for
      its place in the spool, or was ended by an exception. */
  lemma {:induction false} PostsAreSettled(run: seq<Move>, max: int)
    ensures var s := ExecFrom(Start(), run, max);
            multiset(s.posted) == multiset(s.answered) + s.waiting + RaisedPosts(run)
  {
    hide Next;
    if |run| > 0 {
      var init := run[..|run| - 1];
      PostsAreSettled(init, max);
      MoveSettles(ExecFrom(Start(), init, max), run[|run| - 1], max);
    }
  }

  // ---------- When nothing is lost ----------

  /** What a move is to the relay. */
  function RelayStep(s: System, a: Move): seq<Action<Payload>> {
    match a
    case Post(_, _, _) => []
    case Queue(p) => if p in s.waiting then [Enqueue(p)] else []
    case ReplayTake => [Take]
    case ReplayForward(o) => [Forward(o.Delivered?)]
    case ReplayWriteBack => [WriteBack]
  }

  function RelayRun(run: seq<Move>, max: int): seq<Action<Payload>> {
    if |run| == 0 then []
    else
      var init := run[..|run| - 1];
      RelayRun(init, max) + RelayStep(ExecFrom(Start(), init, max), run[|run| - 1])
  }

  lemma NextIsRelayStep(s: System, before: seq<Action<Payload>>, a: Move, max: int)
    requires s.relay == Exec(before, max)
    ensures Next(s, a, max).relay == Exec(before + RelayStep(s, a), max)
  {
    hide EnqueueStep, TakeStep, WriteBackStep, After, RunFrom;
    assert before + [] == before;
    if RelayStep(s, a) != [] {
      RunFromAppend(Fresh(), before, RelayStep(s, a)[0], max);
      assert RelayStep(s, a) == [RelayStep(s, a)[0]];
    }
  }

  /** The relay inside the composed system runs as the relay by itself. */
  lemma {:induction false} RelayRunsAlone(run: seq<Move>, max: int)
    ensures ExecFrom(Start(), run, max).relay == Exec(RelayRun(run, max), max)
  {
    hide Next, RelayStep;
    if |run| > 0 {
      var init := run[..|run| - 1];
      RelayRunsAlone(init, max);
      NextIsRelayStep(ExecFrom(Start(), init, max), RelayRun(init, max), run[|run| - 1], max);
    }
  }

  /** In every run nothing is lost exactly when nothing is queued on a full spool and nothing
      between a take and its write-back of failures. */
  lemma NothingLostExactly(run: seq<Move>, max: int)
    ensures var ledger := ExecFrom(Start(), run, max).relay.ledger;
            (ledger.evicted == multiset{} && ledger.overwritten == multiset{}
             <==> !Overflows(RelayRun(run, max), max) && !LossyWriteBack(RelayRun(run, max), max))
  {
    hide ExecFrom, RelayRun, Exec, Overflows, LossyWriteBack;
    RelayRunsAlone(run, max);
    EvictedExactly(RelayRun(run, max), max);
    OverwrittenExactly(RelayRun(run, max), max);
  }

  /** Under those two conditions every acknowledged identified payload is stored exactly once
      when spool and thread are empty, with its credential row. */
  lemma ExactlyOnceWithoutLoss(run: seq<Move>, max: int, p: Payload)
    requires !Overflows(RelayRun(run, max), max) && !LossyWriteBack(RelayRun(run, max), max)
    requires var s := ExecFrom(Start(), run, max);
             && s.relay.thread == Idle && s.relay.spool == []
             && p in s.answered && HasId(p)
             && Agree(s.posted, p) && p.eventId.value !in s.up.issued
    ensures var up := ExecFrom(Start(), run, max).up;
            && RowCount(up.events, p.eventId.value) == 1
            && CredentialCount(up.credentials, p.eventId.value) == if BearsCredential(p) then 1 else 0
  {
    hide ExecFrom, RelayRun, Overflows, LossyWriteBack, BearsCredential, Agree, RowCount, CredentialCount;
    NothingLostExactly(run, max);
    ExactlyOnceWithCredential(run, max, p);
  }

  // ---------- The control plane sees plain insertions ----------

  function CommittedBy(p: Payload, o: Outcome): seq<Event> { if o.Lost? then [] else [Normalize(p, o.supply)] }

  /** The event a move makes the control plane commit, if any. */
  function CommitOf(s: System, a: Move): seq<Event> {
    match a
    case Post(p, o, _) => CommittedBy(p, o)
    case ReplayForward(o) =>
      var t := s.relay.thread;
      if t.Sending? && t.next < |t.taken| then CommittedBy(t.taken[t.next], o) else []
    case _ => []
  }

  /** Everything that reached the control plane in a run, retries included, in order. */
  function CommitLog(run: seq<Move>, max: int): seq<Event> {
    if |run| == 0 then []
    else
      var init := run[..|run| - 1];
      CommitLog(init, max) + CommitOf(ExecFrom(Start(), init, max), run[|run| - 1])
  }

  /** The control plane after these tables' insertion of `arrivals`. */
  ghost predicate Inserted(up: Upstream, arrivals: seq<Event>) {
    up.events == InsertAll(NO_TABLES, arrivals).events && up.credentials == CredentialsOf(up.events)
  }

  lemma InsertAllStart(arrivals: seq<Event>)
    ensures InsertAll(NO_TABLES, arrivals) == NO_TABLES.(events := InsertAll(NO_TABLES, arrivals).events)
  {
  }

  lemma AfterInserts(up: Upstream, arrivals: seq<Event>, p: Payload, o: Outcome)
    requires Inserted(up, arrivals)
    ensures Inserted(After(up, p, o), arrivals + CommittedBy(p, o))
  {
    hide Normalize, Commit, CredentialsOf;
    if o.Lost? {
      assert arrivals + [] == arrivals;
    } else {
      var e := Normalize(p, o.supply);
      CommitInserts(up, p, o.supply);
      InsertAllStart(arrivals);
      assert (arrivals + [e])[..|arrivals|] == arrivals;
    }
  }

  lemma NextInserts(s: System, arrivals: seq<Event>, a: Move, max: int)
    requires Inserted(s.up, arrivals)
    ensures Inserted(Next(s, a, max).up, arrivals + CommitOf(s, a))
  {
    hide Inserted, After, CommittedBy;
    assert arrivals + [] == arrivals;
    match a
    case Post(p, o, _) => AfterInserts(s.up, arrivals, p, o);
    case ReplayForward(o) =>
      var t := s.relay.thread;
      if t.Sending? && t.next < |t.taken| {
        AfterInserts(s.up, arrivals, t.taken[t.next], o);
      }
    case _ =>
  }

  /** In every interleaving the control plane's tables are those of inserting, one after the
      other, whatever was committed: all that is proved of insertion and processing holds
      behind the relay, and a retried payload is just a repeated arrival. */
  lemma {:induction false} RelayedEventsAreInserted(run: seq<Move>, max: int)
    ensures var up := ExecFrom(Start(), run, max).up;
            up.events == InsertAll(NO_TABLES, CommitLog(run, max)).events && up.credentials == CredentialsOf(up.events)
  {
    hide Next, CommitOf, InsertAll, CredentialsOf;
    if |run| == 0 {
      assert InsertAll(NO_TABLES, []) == NO_TABLES by { NothingInserted(); }
      assert CredentialsOf([]) == [] by { NothingInserted(); }
    } else {
      var init := run[..|run| - 1];
      RelayedEventsAreInserted(init, max);
      NextInserts(ExecFrom(Start(), init, max), CommitLog(init, max), run[|run| - 1], max);
    }
  }

  lemma NothingInserted()
    ensures InsertAll(NO_TABLES, []) == NO_TABLES && CredentialsOf([]) == []
  {
  }

  // ---------- A drain without failures ----------

  /** The steps between a take and the end of its drain. */
  ghost predicate WithinDrain(run: seq<Move>) { forall a :: a in run ==> !a.ReplayTake? && !a.ReplayWriteBack? }

  lemma {:induction false} DrainKeepsTaken(s: System, run: seq<Move>, max: int)
    requires WithinDrain(run)
    ensures var t, t' := s.relay.thread, ExecFrom(s, run, max).relay.thread;
            (t.Sending? <==> t'.Sending?) && (t.Sending? ==> t'.taken == t.taken)
  {
    hide Capped, Evicted, After;
    if |run| > 0 {
      DrainKeepsTaken(s, run[..|run| - 1], max);
    }
  }

  lemma {:induction false} StoredStaysStored(s: System, run: seq<Move>, max: int)
    requires Sound(s)
    ensures Ids(s.up.events) <= Ids(ExecFrom(s, run, max).up.events)
  {
    hide Next, Sound;
    if |run| > 0 {
      var s' := ExecFrom(s, run[..|run| - 1], max);
      StoredStaysStored(s, run[..|run| - 1], max);
      ExecSound(s, run[..|run| - 1], max);
      NextKeepsStored(s', run[|run| - 1], max);
    }
  }

  lemma NextKeepsStored(s: System, a: Move, max: int)
    requires Sound(s)
    ensures Ids(s.up.events) <= Ids(Next(s, a, max).up.events)
  {
    hide Normalize, AddCredential, Sound;
  }

  /** A drain that completes without a failure delivers everything that was acknowledged when
      it took the spool, whatever arrives meanwhile. */
  lemma CleanDrainDelivers(before: seq<Move>, during: seq<Move>, max: int, p: Payload)
    requires var s := ExecFrom(Start(), before, max);
             && s.relay.thread == Idle && p in s.answered && HasId(p)
             && p !in s.relay.ledger.evicted && p !in s.relay.ledger.overwritten
    requires WithinDrain(during)
    requires var t := ExecFrom(Next(ExecFrom(Start(), before, max), ReplayTake, max), during, max).relay.thread;
             t.Sending? ==> t.next == |t.taken| && t.failed == []
    ensures StoredExactlyOnce(ExecFrom(Next(ExecFrom(Start(), before, max), ReplayTake, max), during, max).up, p)
  {
    hide ExecFrom, Sound, StoredExactlyOnce;
    var s := ExecFrom(Start(), before, max);
    StartSound();
    ExecSound(Start(), before, max);
    SoundAccounts(s, p);
    var s1 := Next(s, ReplayTake, max);
    NextSound(s, ReplayTake, max);
    var s2 := ExecFrom(s1, during, max);
    ExecSound(s1, during, max);
    DrainKeepsTaken(s1, during, max);
    StoredStaysStored(s1, during, max);
    if !IsStored(s.up, p) {
      assert p in s.relay.spool && s1.relay.thread.taken == s.relay.spool;
      DeliveredWhenTaken(s2, p);
    }
    StoredMeansExactlyOnce(s2, p);
  }

  lemma DeliveredWhenTaken(s: System, p: Payload)
    requires Sound(s) && HasId(p)
    requires s.relay.thread.Sending? && p in s.relay.thread.taken
    requires s.relay.thread.next == |s.relay.thread.taken| && s.relay.thread.failed == []
    ensures IsStored(s.up, p)
  {
    hide TablesSound, HoldsPosted, NothingForgotten;
    var i :| 0 <= i < |s.relay.thread.taken| && s.relay.thread.taken[i] == p;
  }

  /** In every interleaving: when all payloads posted under an identifier agree on their
      credentials, and it is not one the control plane issued itself, a stored payload's
      credential row is there, once, exactly when its username or password is not blank. */
  lemma CredentialRowExactly(run: seq<Move>, max: int, p: Payload)
    requires HasId(p) && IsStored(ExecFrom(Start(), run, max).up, p)
    requires Agree(ExecFrom(Start(), run, max).posted, p) && p.eventId.value !in ExecFrom(Start(), run, max).up.issued
    ensures CredentialCount(ExecFrom(Start(), run, max).up.credentials, p.eventId.value) == if BearsCredential(p) then 1 else 0
  {
    hide ExecFrom, Sound;
    StartSound();
    ExecSound(Start(), run, max);
    SoundCredential(ExecFrom(Start(), run, max), p);
  }

  /** The end-to-end result: when spool and thread are empty, an acknowledged payload that was
      neither evicted nor overwritten has one event row, and one credential row if it carries a
      username or password, else none. */
  lemma ExactlyOnceWithCredential(run: seq<Move>, max: int, p: Payload)
    requires var s := ExecFrom(Start(), run, max);
             && s.relay.thread == Idle && s.relay.spool == []
             && p in s.answered && HasId(p)
             && p !in s.relay.ledger.evicted && p !in s.relay.ledger.overwritten
             && Agree(s.posted, p) && p.eventId.value !in s.up.issued
    ensures var up := ExecFrom(Start(), run, max).up;
            && RowCount(up.events, p.eventId.value) == 1
            && CredentialCount(up.credentials, p.eventId.value) == if BearsCredential(p) then 1 else 0
  {
    hide ExecFrom, BearsCredential, Agree, RowCount;
    AccountedFor(run, max, p);
    QuiescentExactlyOnce(run, max, p);
    CredentialRowExactly(run, max, p);
  }

  lemma SoundCredential(s: System, p: Payload)
    requires Sound(s) && HasId(p) && IsStored(s.up, p)
    requires Agree(s.posted, p) && p.eventId.value !in s.up.issued
    ensures CredentialCount(s.up.credentials, p.eventId.value) == if BearsCredential(p) then 1 else 0
  {
    hide Normalize, Strip;
    var id := p.eventId.value;
    StoredMeansExactlyOnce(s, p);
    forall e | e in s.up.events && e.eventId == id
      ensures CarriesCredential(e) <==> BearsCredential(p)
    {
      var q, t :| Origin(s.up.issued, s.posted, e, q, t);
      NormalizeKeepsCredential(q, t);
      NormalizeChoosesId(q, t);
    }
    var e :| e in s.up.events && e.eventId == id;
  }

  lemma NormalizeStripsCredential(p: Payload, s: Supply)
    ensures Normalize(p, s).username == Strip(p.username) && Normalize(p, s).password == Strip(p.password)
  {
    hide NormalizedTags, Strip, ClassifyEvent;
  }

  /** Everything posted under the payload's identifier is this payload. */
  ghost predicate OneReport(posted: seq<Payload>, p: Payload) { forall q :: q in posted && q.eventId == p.eventId ==> q == p }

  /** In every interleaving, a row under the identifier of one report is what it normalises to. */
  lemma RowIsTheReport(run: seq<Move>, max: int, p: Payload, e: Event) returns (t: Supply)
    requires HasId(p) && e in ExecFrom(Start(), run, max).up.events && e.eventId == p.eventId.value
    requires OneReport(ExecFrom(Start(), run, max).posted, p) && p.eventId.value !in ExecFrom(Start(), run, max).up.issued
    ensures e == Normalize(p, t)
  {
    hide ExecFrom, Normalize, CredentialsOf;
    var s := ExecFrom(Start(), run, max);
    StartSound();
    ExecSound(Start(), run, max);
    var q, u :| Origin(s.up.issued, s.posted, e, q, u);
    NormalizeChoosesId(q, u);
    t := u;
  }

  /** In every interleaving, and under the same agreement, every credential row under a payload's
      identifier holds its trimmed username and password. */
  lemma CredentialContents(run: seq<Move>, max: int, p: Payload, c: Credential)
    requires HasId(p) && c in ExecFrom(Start(), run, max).up.credentials && c.eventId == p.eventId.value
    requires Agree(ExecFrom(Start(), run, max).posted, p) && p.eventId.value !in ExecFrom(Start(), run, max).up.issued
    ensures c.username == Strip(p.username) && c.password == Strip(p.password)
  {
    hide ExecFrom, Normalize, Strip, CredentialsOf;
    var s := ExecFrom(Start(), run, max);
    StartSound();
    ExecSound(Start(), run, max);
    CredentialRowsHold(s.up.events, c);
    var e :| e in s.up.events && c.eventId == e.eventId && c.username == e.username && c.password == e.password;
    var q, t :| Origin(s.up.issued, s.posted, e, q, t);
    NormalizeChoosesId(q, t);
    NormalizeStripsCredential(q, t);
  }

  /** And with one report under the identifier, its source, decoy and time as well. */
  lemma CredentialSource(run: seq<Move>, max: int, p: Payload, c: Credential)
    requires HasId(p) && c in ExecFrom(Start(), run, max).up.credentials && c.eventId == p.eventId.value
    requires OneReport(ExecFrom(Start(), run, max).posted, p) && p.eventId.value !in ExecFrom(Start(), run, max).up.issued
    ensures p.srcIp in {None, Some("")} ==> c.srcIp == "unknown"
    ensures p.srcIp !in {None, Some("")} ==> c.srcIp == Strip(p.srcIp.value)
    ensures c.decoyId == Strip(p.decoyId) && (p.ts.Some? ==> c.attemptedAt == p.ts.value)
  {
    hide ExecFrom, Normalize, Strip, CredentialsOf, OneReport;
    var s := ExecFrom(Start(), run, max);
    StartSound();
    ExecSound(Start(), run, max);
    CredentialRowsHold(s.up.events, c);
    var e :| e in s.up.events && c.eventId == e.eventId && c.srcIp == e.srcIp && c.decoyId == e.decoyId && c.attemptedAt == e.occurredAt;
    var t := RowIsTheReport(run, max, p, e);
    StoredRow(p, t);
  }

  /** Without an identifier nothing deduplicates: a forward that is committed but reported as
      failed is replayed into a second row. */
  lemma MissingIdentifierDuplicates(p: Payload, first: Supply, second: Supply, max: int)
    requires max >= 1 && !HasId(p) && first.uuid != second.uuid
    ensures var s0 := Next(Start(), Post(p, CommittedThenFailed(first), false), max);
            var s1 := Next(Next(s0, Queue(p), max), ReplayTake, max);
            var s2 := Next(Next(s1, ReplayForward(Delivered(second)), max), ReplayWriteBack, max);
            && s2.relay.thread == Idle && s2.relay.spool == [] && s2.answered == [p]
            && s2.up.events == [Normalize(p, first), Normalize(p, second)]
  {
    hide Normalize, AddCredential;
    NormalizeChoosesId(p, first);
    NormalizeChoosesId(p, second);
    var s0 := Next(Start(), Post(p, CommittedThenFailed(first), false), max);
    assert s0.up.events == [Normalize(p, first)] && s0.waiting == multiset{p};
    var q := Next(s0, Queue(p), max);
    assert q.relay.spool == [p];
    var s1 := Next(q, ReplayTake, max);
    assert s1.relay.thread == Sending([p], 0, []);
    var f := Next(s1, ReplayForward(Delivered(second)), max);
    assert f.relay.thread == Sending([p], 1, []);
  }
}
