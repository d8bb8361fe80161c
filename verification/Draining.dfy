/**
 Working through the backlog: which rows a run picks, how runs compose, and why
 neither the batch limit nor the moment of processing matters.
 */
module Draining {
  import opened DetectionEngine

  // ---------- Order and selection ----------

  ghost predicate Sorted(s: seq<Event>) {
    forall i, j :: 0 <= i < j < |s| ==> s[i].occurredAt <= s[j].occurredAt
  }

  lemma SortedAppend(s: seq<Event>, e: Event)
    requires Sorted(s) && forall x :: x in s ==> x.occurredAt <= e.occurredAt
    ensures Sorted(s + [e])
  {
    assert forall i | 0 <= i < |s| :: s[i] in s;
  }

  lemma {:induction false} InsertByTimeHolds(s: seq<Event>, e: Event)
    ensures multiset(InsertByTime(s, e)) == multiset(s) + multiset{e}
    ensures forall x :: x in InsertByTime(s, e) <==> x in s || x == e
  {
    if |s| > 0 && e.occurredAt < s[|s| - 1].occurredAt {
      var n := |s| - 1;
      InsertByTimeHolds(s[..n], e);
      assert s == s[..n] + [s[n]];
    }
  }

  lemma {:induction false} InsertByTimeOrders(s: seq<Event>, e: Event)
    requires Sorted(s)
    ensures Sorted(InsertByTime(s, e))
  {
    if |s| > 0 && e.occurredAt < s[|s| - 1].occurredAt {
      var n := |s| - 1;
      InsertByTimeOrders(s[..n], e);
      InsertByTimeHolds(s[..n], e);
      SortedAppend(InsertByTime(s[..n], e), s[n]);
    } else {
      SortedAppend(s, e);
    }
  }

  /** The engine's order is a sorted rearrangement of the event table. */
  lemma {:induction false} ByTimeSorts(events: seq<Event>)
    ensures Sorted(ByTime(events))
    ensures multiset(ByTime(events)) == multiset(events)
    ensures forall e :: e in ByTime(events) <==> e in events
  {
    if |events| > 0 {
      var n := |events| - 1;
      ByTimeSorts(events[..n]);
      InsertByTimeOrders(ByTime(events[..n]), events[n]);
      InsertByTimeHolds(ByTime(events[..n]), events[n]);
      assert events == events[..n] + [events[n]];
    }
    assert forall e :: e in ByTime(events) <==> e in multiset(ByTime(events));
  }

  /** The rows of one moment, in their order. */
  function AtTime(events: seq<Event>, t: Time): seq<Event> {
    if |events| == 0 then []
    else
      var earlier := AtTime(events[..|events| - 1], t);
      if events[|events| - 1].occurredAt == t then earlier + [events[|events| - 1]] else earlier
  }

  lemma AtTimeAppend(s: seq<Event>, e: Event, t: Time)
    ensures AtTime(s + [e], t) == if e.occurredAt == t then AtTime(s, t) + [e] else AtTime(s, t)
  {
    assert (s + [e])[..|s|] == s;
  }

  lemma {:induction false} InsertAtTime(s: seq<Event>, e: Event, t: Time)
    ensures AtTime(InsertByTime(s, e), t) == if e.occurredAt == t then AtTime(s, t) + [e] else AtTime(s, t)
  {
    if |s| > 0 && e.occurredAt < s[|s| - 1].occurredAt {
      var n := |s| - 1;
      InsertAtTime(s[..n], e, t);
      AtTimeAppend(InsertByTime(s[..n], e), s[n], t);
    } else {
      AtTimeAppend(s, e, t);
    }
  }

  /** Rows of one moment are processed in the order in which they were inserted. */
  lemma {:induction false} ByTimeIsStable(events: seq<Event>, t: Time)
    ensures AtTime(ByTime(events), t) == AtTime(events, t)
  {
    if |events| > 0 {
      var n := |events| - 1;
      ByTimeIsStable(events[..n], t);
      InsertAtTime(ByTime(events[..n]), events[n], t);
    }
  }

  lemma IdsAppend(s: seq<Event>, e: Event)
    ensures Ids(s + [e]) == Ids(s) + {e.eventId}
    ensures DistinctIds(s + [e]) <==> DistinctIds(s) && e.eventId !in Ids(s)
  {
    assert forall i | 0 <= i < |s| :: s[i] in s && (s + [e])[i] == s[i];
    assert (s + [e])[|s|] == e;
    if DistinctIds(s + [e]) {
      assert forall i | 0 <= i < |s| :: (s + [e])[i].eventId != (s + [e])[|s|].eventId;
    }
  }

  lemma {:induction false} InsertByTimeKeepsDistinct(s: seq<Event>, e: Event)
    requires DistinctIds(s) && e.eventId !in Ids(s)
    ensures DistinctIds(InsertByTime(s, e))
    ensures Ids(InsertByTime(s, e)) == Ids(s) + {e.eventId}
  {
    if |s| > 0 && e.occurredAt < s[|s| - 1].occurredAt {
      var n := |s| - 1;
      assert s == s[..n] + [s[n]];
      IdsAppend(s[..n], s[n]);
      InsertByTimeKeepsDistinct(s[..n], e);
      IdsAppend(InsertByTime(s[..n], e), s[n]);
    } else {
      IdsAppend(s, e);
    }
  }

  lemma {:induction false} ByTimeKeepsDistinct(events: seq<Event>)
    requires DistinctIds(events)
    ensures DistinctIds(ByTime(events)) && Ids(ByTime(events)) == Ids(events)
  {
    if |events| > 0 {
      var n := |events| - 1;
      ByTimeKeepsDistinct(events[..n]);
      assert events == events[..n] + [events[n]];
      IdsAppend(events[..n], events[n]);
      InsertByTimeKeepsDistinct(ByTime(events[..n]), events[n]);
    }
  }

  /** The backlog holds exactly the unprocessed rows. */
  lemma {:induction false} UnprocessedHolds(s: seq<Event>, processed: set<string>)
    ensures forall e :: e in Unprocessed(s, processed) <==> e in s && e.eventId !in processed
    ensures DistinctIds(s) ==> DistinctIds(Unprocessed(s, processed))
  {
    if |s| > 0 {
      UnprocessedHolds(s[1..], processed);
      assert s == [s[0]] + s[1..];
      var u := Unprocessed(s[1..], processed);
      assert forall i | 0 <= i < |u| :: u[i] in u;
      assert DistinctIds(s) ==> forall x | x in s[1..] :: x.eventId != s[0].eventId;
    }
  }

  lemma {:induction false} UnprocessedConcat(s: seq<Event>, t: seq<Event>, processed: set<string>)
    ensures Unprocessed(s + t, processed) == Unprocessed(s, processed) + Unprocessed(t, processed)
  {
    if |s| == 0 {
      assert s + t == t;
    } else {
      var rest := Unprocessed(s[1..], processed);
      UnprocessedConcat(s[1..], t, processed);
      assert (s + t)[0] == s[0] && (s + t)[1..] == s[1..] + t;
      assert [s[0]] + (rest + Unprocessed(t, processed)) == [s[0]] + rest + Unprocessed(t, processed);
    }
  }

  lemma {:induction false} UnprocessedIgnores(s: seq<Event>, processed: set<string>, more: set<string>)
    requires Ids(s) !! more
    ensures Unprocessed(s, processed + more) == Unprocessed(s, processed)
  {
    if |s| > 0 {
      assert s[0].eventId in Ids(s) && Ids(s[1..]) <= Ids(s);
      UnprocessedIgnores(s[1..], processed, more);
    }
  }

  lemma DistinctTail(s: seq<Event>)
    requires DistinctIds(s) && s != []
    ensures DistinctIds(s[1..]) && s[0].eventId !in Ids(s[1..])
  {
    assert forall x | x in s[1..] :: x.eventId != s[0].eventId;
  }

  /** Flagging the first `k` rows of the backlog leaves exactly the rest of it. */
  lemma {:induction false} UnprocessedAdvances(s: seq<Event>, processed: set<string>, k: nat)
    requires DistinctIds(s) && k <= |Unprocessed(s, processed)|
    ensures Unprocessed(s, processed + Ids(Unprocessed(s, processed)[..k])) == Unprocessed(s, processed)[k..]
  {
    hide DistinctIds, Unprocessed, Ids;
    var u := Unprocessed(s, processed);
    if k == 0 {
      NoIds();
      assert processed + Ids(u[..0]) == processed;
    } else {
      UnprocessedFirst(s, processed);
      DistinctTail(s);
      var u' := Unprocessed(s[1..], processed);
      if s[0].eventId in processed {
        UnprocessedAdvances(s[1..], processed, k);
        UnprocessedFirst(s, processed + Ids(u[..k]));
      } else {
        var taken := Ids(u'[..k - 1]);
        UnprocessedAdvances(s[1..], processed, k - 1);
        assert u[..k] == [s[0]] + u'[..k - 1];
        IdsFront(s[0], u'[..k - 1]);
        assert processed + Ids(u[..k]) == processed + taken + {s[0].eventId};
        UnprocessedIgnores(s[1..], processed + taken, {s[0].eventId});
        UnprocessedFirst(s, processed + taken + {s[0].eventId});
      }
    }
  }

  lemma NoIds()
    ensures forall s: seq<Event> :: |s| == 0 ==> Ids(s) == {}
  {
  }

  lemma UnprocessedFirst(s: seq<Event>, processed: set<string>)
    ensures s == [] ==> Unprocessed(s, processed) == []
    ensures s != [] ==>
              Unprocessed(s, processed)
              == if s[0].eventId in processed then Unprocessed(s[1..], processed) else [s[0]] + Unprocessed(s[1..], processed)
  {
  }

  lemma IdsFront(e: Event, s: seq<Event>)
    ensures Ids([e] + s) == {e.eventId} + Ids(s)
  {
  }

  // ---------- Runs compose ----------

  lemma {:induction false} ReplayConcat(db: Findings, a: seq<Step>, b: seq<Step>)
    ensures Replay(db, a + b) == Replay(Replay(db, a), b)
  {
    if |b| == 0 {
      assert a + b == a;
    } else {
      ReplayConcat(db, a, b[..|b| - 1]);
      assert (a + b)[..|a + b| - 1] == a + b[..|b| - 1];
    }
  }

  lemma {:induction false} JournalConcat(events: seq<Event>, a: seq<Event>, b: seq<Event>)
    ensures Journal(events, a + b) == Journal(events, a) + Journal(events, b)
  {
    hide Emissions;
    if |b| == 0 {
      assert a + b == a;
    } else {
      JournalConcat(events, a, b[..|b| - 1]);
      assert (a + b)[..|a + b| - 1] == a + b[..|b| - 1];
    }
  }

  /** A run processes as many rows as its limit allows and leaves the rest of the backlog. */
  lemma RunShrinksBacklog(db: Tables, limit: nat)
    requires DistinctIds(db.events)
    ensures var before, after := Backlog(db.events, db.processed),
                                 Backlog(db.events, Materialize(db, limit).processed);
            if limit <= |before| then after == before[limit..] else after == []
  {
    ByTimeKeepsDistinct(db.events);
    var b := Backlog(db.events, db.processed);
    UnprocessedAdvances(ByTime(db.events), db.processed, |Take(b, limit)|);
    assert b[..|b|] == b;
  }

  lemma ProcessConcat(db: Tables, a: seq<Event>, b: seq<Event>)
    ensures Process(db, a + b) == Process(Process(db, a), b)
  {
    JournalConcat(db.events, a, b);
    ReplayConcat(db.findings, Journal(db.events, a), Journal(db.events, b));
    assert Ids(a + b) == Ids(a) + Ids(b);
  }

  lemma TakeTwice<T>(b: seq<T>, m: nat, n: nat)
    ensures Take(b, m + n) == Take(b, m) + Take(b[|Take(b, m)|..], n)
  {
  }

  lemma BacklogAfterRun(db: Tables, limit: nat)
    requires DistinctIds(db.events)
    ensures var b := Backlog(db.events, db.processed);
            Backlog(db.events, Materialize(db, limit).processed) == b[|Take(b, limit)|..]
  {
    hide Backlog, Process;
    RunShrinksBacklog(db, limit);
  }

  /** Two runs in a row are one run with the limits added. */
  lemma RunsCompose(db: Tables, m: nat, n: nat)
    requires DistinctIds(db.events)
    ensures Materialize(Materialize(db, m), n) == Materialize(db, m + n)
  {
    hide Backlog, Replay, Journal;
    var b := Backlog(db.events, db.processed);
    BacklogAfterRun(db, m);
    TakeTwice(b, m, n);
    ProcessConcat(db, Take(b, m), Take(b[|Take(b, m)|..], n));
  }

  function Runs(db: Tables, limits: seq<nat>): Tables {
    if |limits| == 0 then db else Materialize(Runs(db, limits[..|limits| - 1]), limits[|limits| - 1])
  }

  function Sum(limits: seq<nat>): nat {
    if |limits| == 0 then 0 else Sum(limits[..|limits| - 1]) + limits[|limits| - 1]
  }

  /** One run without a limit. */
  function Drain(db: Tables): Tables { Materialize(db, |Backlog(db.events, db.processed)|) }

  lemma NothingToDo(db: Tables, limit: nat)
    requires limit == 0 || Backlog(db.events, db.processed) == []
    ensures Materialize(db, limit) == db
  {
    var batch := Take(Backlog(db.events, db.processed), limit);
    assert batch == [];
    assert Ids(batch) == {};
  }

  lemma {:induction false} RunsAreOneRun(db: Tables, limits: seq<nat>)
    requires DistinctIds(db.events)
    ensures Runs(db, limits) == Materialize(db, Sum(limits))
  {
    hide Process;
    if |limits| == 0 {
      NothingToDo(db, 0);
    } else {
      RunsAreOneRun(db, limits[..|limits| - 1]);
      RunsCompose(db, Sum(limits[..|limits| - 1]), limits[|limits| - 1]);
    }
  }

  lemma SumAtLeastLength(limits: seq<nat>)
    requires forall i :: 0 <= i < |limits| ==> limits[i] > 0
    ensures |limits| <= Sum(limits)
  {
  }

  /** Any sequence of runs empties the backlog exactly when its limits add up to it, and then
      leaves the tables of one unlimited run; positive limits get there within as many runs
      as there are pending rows; a further run changes nothing. */
  lemma BatchLimitsDoNotMatter(db: Tables, limits: seq<nat>, further: nat)
    requires DistinctIds(db.events)
    ensures var pending, after := |Backlog(db.events, db.processed)|, Runs(db, limits);
            && (Backlog(after.events, after.processed) == [] <==> Sum(limits) >= pending)
            && (Backlog(after.events, after.processed) == [] ==> after == Drain(db) && Materialize(after, further) == after)
            && ((forall i :: 0 <= i < |limits| ==> limits[i] > 0) && |limits| >= pending
                ==> Backlog(after.events, after.processed) == [])
  {
    var b := Backlog(db.events, db.processed);
    var after := Runs(db, limits);
    RunsAreOneRun(db, limits);
    RunShrinksBacklog(db, Sum(limits));
    if Sum(limits) >= |b| {
      assert Take(b, Sum(limits)) == Take(b, |b|);
      NothingToDo(after, further);
    }
    if forall i :: 0 <= i < |limits| ==> limits[i] > 0 {
      SumAtLeastLength(limits);
    }
  }

  // ---------- Online equals offline ----------

  /** The row limit of the run that follows every ingested event. */
  const INLINE_LIMIT: nat := 200

  function InsertAll(db: Tables, arrivals: seq<Event>): Tables {
    if |arrivals| == 0 then db else Insert(InsertAll(db, arrivals[..|arrivals| - 1]), arrivals[|arrivals| - 1])
  }

  function Online(db: Tables, arrivals: seq<Event>): Tables {
    if |arrivals| == 0 then db
    else Materialize(Insert(Online(db, arrivals[..|arrivals| - 1]), arrivals[|arrivals| - 1]), INLINE_LIMIT)
  }

  /** A repeated identifier, or strictly later than every row of the table. */
  ghost predicate ArrivesInOrder(db: Tables, e: Event) {
    e.eventId in Ids(db.events) || forall x :: x in db.events ==> x.occurredAt < e.occurredAt
  }

  /** New events arrive in strictly increasing time order; repeats may come at any time. */
  ghost predicate InTimeOrder(db: Tables, arrivals: seq<Event>) {
    forall i :: 0 <= i < |arrivals| ==> ArrivesInOrder(InsertAll(db, arrivals[..i]), arrivals[i])
  }

  /** A later row is invisible to every window that ends before it. */
  lemma WindowsLookBackwards(events: seq<Event>, x: Event, batch: seq<Event>)
    requires forall e :: e in batch ==> e.occurredAt < x.occurredAt
    ensures Journal(events + [x], batch) == Journal(events, batch)
  {
    if |batch| > 0 {
      var e := batch[|batch| - 1];
      assert (events + [x])[..|events|] == events;
      assert Recent(events + [x], e, DETECTION_WINDOW) == Recent(events, e, DETECTION_WINDOW);
      assert Recent(events + [x], e, DISTRIBUTED_WINDOW) == Recent(events, e, DISTRIBUTED_WINDOW);
      WindowsLookBackwards(events, x, batch[..|batch| - 1]);
    }
  }

  lemma BacklogOfLatest(events: seq<Event>, x: Event, processed: set<string>)
    requires forall e :: e in events ==> e.occurredAt < x.occurredAt
    requires x.eventId !in processed
    ensures Backlog(events + [x], processed) == Backlog(events, processed) + [x]
  {
    ByTimeSorts(events);
    assert (events + [x])[..|events|] == events;
    var s := ByTime(events);
    assert |s| > 0 ==> s[|s| - 1] in events;
    assert ByTime(events + [x]) == s + [x];
    UnprocessedConcat(s, [x], processed);
    assert Unprocessed([x], processed) == [x];
  }

  lemma {:induction false} InsertAllInvariant(db: Tables, arrivals: seq<Event>)
    requires DistinctIds(db.events) && db.processed <= Ids(db.events)
    ensures var all := InsertAll(db, arrivals);
            && DistinctIds(all.events) && all.processed == db.processed && all.processed <= Ids(all.events)
            && all.findings == db.findings
            && (forall x :: x in all.events ==> x in db.events || x in arrivals)
  {
    if |arrivals| > 0 {
      var e := arrivals[|arrivals| - 1];
      InsertAllInvariant(db, arrivals[..|arrivals| - 1]);
      var d := InsertAll(db, arrivals[..|arrivals| - 1]);
      assert forall x | x in d.events :: x.eventId in Ids(d.events);
      assert Ids(d.events) <= Ids(d.events + [e]);
    }
  }

  lemma DrainEmpties(db: Tables)
    requires DistinctIds(db.events)
    ensures Drain(db).events == db.events && Backlog(db.events, Drain(db).processed) == []
  {
    RunShrinksBacklog(db, |Backlog(db.events, db.processed)|);
  }

  /** One arrival: draining before it and then handling it alone is draining after it. */
  lemma ArrivalCommutesWithDrain(d: Tables, e: Event)
    requires DistinctIds(d.events) && d.processed <= Ids(d.events)
    requires ArrivesInOrder(d, e)
    ensures Materialize(Insert(Drain(d), e), INLINE_LIMIT) == Drain(Insert(d, e))
  {
    hide Journal, Replay, ByTime, Unprocessed;
    DrainEmpties(d);
    if e.eventId in Ids(d.events) {
      NothingToDo(Drain(d), INLINE_LIMIT);
    } else {
      var b := Backlog(d.events, d.processed);
      var d' := Insert(d, e);
      UnprocessedHolds(ByTime(d.events), d.processed);
      ByTimeSorts(d.events);
      assert Ids(b) <= Ids(d.events);
      assert Drain(d) == Process(d, b);
      BacklogOfLatest(d.events, e, Drain(d).processed);
      assert Take([e], INLINE_LIMIT) == [e];
      assert Insert(Drain(d), e) == Process(d', b) by {
        WindowsLookBackwards(d.events, e, b);
      }
      ProcessConcat(d', b, [e]);
      BacklogOfLatest(d.events, e, d.processed);
      assert Drain(d') == Process(d', b + [e]);
      var one := Insert(Drain(d), e);
      assert Materialize(one, INLINE_LIMIT) == Process(one, Backlog(one.events, one.processed));
      assert Backlog(d.events, Drain(d).processed) + [e] == [e];
    }
  }

  /** Processing inline after every insert leaves the tables that inserting everything and
      processing once leaves, provided new events arrive in strictly increasing time order. */
  lemma {:induction false} OnlineEqualsOffline(db: Tables, arrivals: seq<Event>)
    requires DistinctIds(db.events) && db.processed <= Ids(db.events)
    requires Backlog(db.events, db.processed) == []
    requires InTimeOrder(db, arrivals)
    ensures Online(db, arrivals) == Drain(InsertAll(db, arrivals))
  {
    hide Materialize, Insert, Backlog, ArrivesInOrder;
    if |arrivals| == 0 {
      NothingToDo(db, |Backlog(db.events, db.processed)|);
    } else {
      var n := |arrivals| - 1;
      var init := arrivals[..n];
      assert forall i :: 0 <= i <= n ==> init[..i] == arrivals[..i];
      OnlineEqualsOffline(db, init);
      InsertAllInvariant(db, init);
      ArrivalCommutesWithDrain(InsertAll(db, init), arrivals[n]);
    }
  }
}
