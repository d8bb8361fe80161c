/**
 The store-and-forward relay for one kind of message: request handlers and the
 replay thread share a bounded spool.  A drain takes the whole spool under the
 lock, forwards without it, and writes the failures back under the lock.  Every
 locked region and every forward is one step; a run is any interleaving of them.
 */
module EdgeRelay {

  // ---------- The spool ----------

  /** `lines[-k:]` of Python for any integer `k`: with zero it is the whole list. */
  function LastLines<T>(lines: seq<T>, k: int): seq<T> {
    if k > 0 then (if k < |lines| then lines[|lines| - k..] else lines)
    else if -k <= |lines| then lines[-k..] else []
  }

  function Capped<T>(lines: seq<T>, max: int): seq<T> {
    if |lines| > max then LastLines(lines, max) else lines
  }

  /** The lines a cap removes; always a prefix. */
  function Evicted<T>(lines: seq<T>, max: int): seq<T> { lines[..|lines| - |Capped(lines, max)|] }

  lemma CappedIsSuffix<T>(lines: seq<T>, max: int)
    ensures |Capped(lines, max)| <= |lines|
    ensures Evicted(lines, max) + Capped(lines, max) == lines
    ensures max >= 1 ==> |Capped(lines, max)| <= max && (lines != [] ==> Capped(lines, max) != [])
  {
  }

  // ---------- Steps ----------

  /** The replay thread between drains, or forwarding what it took. */
  datatype Thread<T> = Idle | Sending(taken: seq<T>, next: nat, failed: seq<T>)

  /** What became of every enqueued line; bookkeeping of the model, not of the program. */
  datatype Ledger<T> = Ledger(enqueued: seq<T>, replayed: multiset<T>, evicted: multiset<T>, overwritten: multiset<T>)

  datatype Relay<T> = Relay(spool: seq<T>, thread: Thread<T>, ledger: Ledger<T>)

  function Fresh<T>(): Relay<T> { Relay([], Idle, Ledger([], multiset{}, multiset{}, multiset{})) }

  datatype Action<T> =
    | Enqueue(line: T)
    | Take
    | Forward(delivered: bool)
    | WriteBack

  /** The locked region of `queue_payload`. */
  function EnqueueStep<T>(r: Relay<T>, line: T, max: int): Relay<T> {
    var lines := r.spool + [line];
    Relay(Capped(lines, max), r.thread,
          r.ledger.(enqueued := r.ledger.enqueued + [line],
          evicted := r.ledger.evicted + multiset(Evicted(lines, max))))
  }

  /** The locked region that starts a drain; with an empty spool there is nothing to do. */
  function TakeStep<T>(r: Relay<T>): Relay<T> {
    if r.thread.Idle? && r.spool != [] then r.(spool := [], thread := Sending(r.spool, 0, [])) else r
  }

  /** One unlocked forward of the next taken line. */
  function ForwardStep<T>(r: Relay<T>, delivered: bool): Relay<T> {
    if r.thread.Sending? && r.thread.next < |r.thread.taken| then
      var line := r.thread.taken[r.thread.next];
      if delivered then
        r.(thread := r.thread.(next := r.thread.next + 1),
        ledger := r.ledger.(replayed := r.ledger.replayed + multiset{line}))
      else
        r.(thread := r.thread.(next := r.thread.next + 1, failed := r.thread.failed + [line]))
    else r
  }

  /** The end of a drain: failures, if any, replace whatever the spool holds by then. */
  function WriteBackStep<T>(r: Relay<T>): Relay<T> {
    if r.thread.Sending? && r.thread.next == |r.thread.taken| then
      if r.thread.failed == [] then r.(thread := Idle)
      else
        r.(spool := r.thread.failed, thread := Idle,
        ledger := r.ledger.(overwritten := r.ledger.overwritten + multiset(r.spool)))
    else r
  }

  function Step<T>(r: Relay<T>, a: Action<T>, max: int): Relay<T> {
    match a
    case Enqueue(line) => EnqueueStep(r, line, max)
    case Take => TakeStep(r)
    case Forward(delivered) => ForwardStep(r, delivered)
    case WriteBack => WriteBackStep(r)
  }

  /** Any steps from a given state. */
  function RunFrom<T>(r: Relay<T>, run: seq<Action<T>>, max: int): Relay<T> {
    if |run| == 0 then r else Step(RunFrom(r, run[..|run| - 1], max), run[|run| - 1], max)
  }

  function Exec<T>(run: seq<Action<T>>, max: int): Relay<T> { RunFrom(Fresh(), run, max) }

  // ---------- Conservation ----------

  /** The lines the replay thread holds: failures so far and those not yet tried. */
  function InHand<T>(t: Thread<T>): seq<T> {
    if t.Sending? && t.next <= |t.taken| then t.failed + t.taken[t.next..] else []
  }

  ghost predicate Conserved<T>(r: Relay<T>) {
    && (r.thread.Sending? ==> r.thread.next <= |r.thread.taken|)
    && multiset(r.ledger.enqueued)
       == r.ledger.replayed + multiset(r.spool) + multiset(InHand(r.thread)) + r.ledger.evicted + r.ledger.overwritten
  }

  lemma EnqueueConserves<T(!new)>(r: Relay<T>, line: T, max: int)
    requires Conserved(r)
    ensures Conserved(EnqueueStep(r, line, max))
  {
    var lines := r.spool + [line];
    var gone, kept := Evicted(lines, max), Capped(lines, max);
    CappedIsSuffix(lines, max);
    assert multiset(lines) == multiset(gone) + multiset(kept) by {
      assert multiset(gone + kept) == multiset(gone) + multiset(kept);
    }
    var other := r.ledger.replayed + multiset(InHand(r.thread)) + r.ledger.overwritten;
    Balance(multiset(r.ledger.enqueued), other, multiset(r.spool), r.ledger.evicted, multiset{line}, multiset(gone), multiset(kept));
    var r' := EnqueueStep(r, line, max);
    assert multiset(r'.ledger.enqueued) == multiset(r.ledger.enqueued) + multiset{line};
    assert r'.ledger.evicted == r.ledger.evicted + multiset(gone) && r'.spool == kept;
  }

  lemma Balance<T(!new)>(all: multiset<T>, other: multiset<T>, spool: multiset<T>, evicted: multiset<T>,
                   line: multiset<T>, gone: multiset<T>, kept: multiset<T>)
    requires all == other + spool + evicted && spool + line == gone + kept
    ensures all + line == other + kept + (evicted + gone)
  {
    forall x
      ensures (all + line)[x] == (other + kept + (evicted + gone))[x]
    {
      assert (spool + line)[x] == (gone + kept)[x];
    }
  }

  lemma ForwardConserves<T>(r: Relay<T>, delivered: bool)
    requires Conserved(r)
    ensures Conserved(ForwardStep(r, delivered))
  {
    if r.thread.Sending? && r.thread.next < |r.thread.taken| {
      var t := r.thread;
      var line, rest := t.taken[t.next], t.taken[t.next + 1..];
      assert t.taken[t.next..] == [line] + rest;
      assert multiset(InHand(t)) == multiset(t.failed) + multiset{line} + multiset(rest);
      var t' := ForwardStep(r, delivered).thread;
      assert InHand(t') == (if delivered then t.failed else t.failed + [line]) + rest;
    }
  }

  lemma TakeAndWriteBackConserve<T>(r: Relay<T>)
    requires Conserved(r)
    ensures Conserved(TakeStep(r)) && Conserved(WriteBackStep(r))
  {
    assert InHand(Sending(r.spool, 0, [])) == r.spool;
    if r.thread.Sending? && r.thread.next == |r.thread.taken| {
      assert InHand(r.thread) == r.thread.failed;
    }
  }

  lemma StepConserves<T(!new)>(r: Relay<T>, a: Action<T>, max: int)
    requires Conserved(r)
    ensures Conserved(Step(r, a, max))
  {
    hide Conserved, EnqueueStep, TakeStep, ForwardStep, WriteBackStep;
    match a
    case Enqueue(line) => EnqueueConserves(r, line, max);
    case Forward(delivered) => ForwardConserves(r, delivered);
    case Take => TakeAndWriteBackConserve(r);
    case WriteBack => TakeAndWriteBackConserve(r);
  }

  /** In every interleaving, every enqueued line is replayed, spooled, in the replay thread's
      hand, evicted by the cap or overwritten by a write-back, exactly as often as it came. */
  lemma {:induction false} RelayConserves<T(!new)>(run: seq<Action<T>>, max: int)
    ensures Conserved(Exec(run, max))
  {
    hide Step;
    if |run| > 0 {
      RelayConserves(run[..|run| - 1], max);
      StepConserves(Exec(run[..|run| - 1], max), run[|run| - 1], max);
    }
  }

  // ---------- Order ----------

  ghost predicate Embeds<T>(s: seq<T>, t: seq<T>, at: seq<nat>) {
    && |at| == |s|
    && (forall i :: 0 <= i < |at| ==> at[i] < |t| && s[i] == t[at[i]])
    && (forall i, j :: 0 <= i < j < |at| ==> at[i] < at[j])
  }

  ghost predicate Subsequence<T>(s: seq<T>, t: seq<T>) { exists at: seq<nat> :: Embeds(s, t, at) }

  lemma SubsequenceAppend<T>(s: seq<T>, t: seq<T>, x: T)
    requires Subsequence(s, t)
    ensures Subsequence(s + [x], t + [x])
  {
    var at: seq<nat> :| Embeds(s, t, at);
    assert Embeds(s + [x], t + [x], at + [|t|]);
  }

  lemma EmbedsCut<T>(a: seq<T>, b: seq<T>, c: seq<T>, t: seq<T>, at: seq<nat>)
    requires Embeds(a + b + c, t, at)
    ensures Embeds(a + c, t, at[..|a|] + at[|a| + |b|..])
  {
    var s, cut := a + b + c, at[..|a|] + at[|a| + |b|..];
    forall i | 0 <= i < |cut|
      ensures cut[i] < |t| && (a + c)[i] == t[cut[i]]
    {
      var from := if i < |a| then i else i + |b|;
      assert cut[i] == at[from] && (a + c)[i] == s[from];
    }
    forall i, j | 0 <= i < j < |cut|
      ensures cut[i] < cut[j]
    {
      assert cut[i] == at[if i < |a| then i else i + |b|];
      assert cut[j] == at[if j < |a| then j else j + |b|];
    }
  }

  /** Leaving out a stretch of a subsequence leaves a subsequence. */
  lemma SubsequenceCut<T>(a: seq<T>, b: seq<T>, c: seq<T>, t: seq<T>)
    requires Subsequence(a + b + c, t)
    ensures Subsequence(a + c, t)
  {
    var s := a + b + c;
    var at: seq<nat> :| Embeds(s, t, at);
    EmbedsCut(a, b, c, t, at);
  }

  ghost predicate InOrder<T>(r: Relay<T>) { Subsequence(InHand(r.thread) + r.spool, r.ledger.enqueued) }

  lemma EnqueueKeepsOrder<T>(r: Relay<T>, line: T, max: int)
    requires InOrder(r)
    ensures InOrder(EnqueueStep(r, line, max))
  {
    hide Subsequence, InHand, Capped, Evicted;
    var hand, lines := InHand(r.thread), r.spool + [line];
    var gone, kept := Evicted(lines, max), Capped(lines, max);
    SubsequenceAppend(hand + r.spool, r.ledger.enqueued, line);
    CappedIsSuffix(lines, max);
    assert hand + r.spool + [line] == hand + lines == hand + gone + kept by {
      assert gone + kept == lines;
    }
    SubsequenceCut(hand, gone, kept, r.ledger.enqueued + [line]);
  }

  lemma ForwardKeepsOrder<T>(r: Relay<T>, delivered: bool)
    requires InOrder(r)
    ensures InOrder(ForwardStep(r, delivered))
  {
    hide Subsequence;
    if r.thread.Sending? && r.thread.next < |r.thread.taken| {
      var t := r.thread;
      var line, rest := t.taken[t.next], t.taken[t.next + 1..];
      var t' := ForwardStep(r, delivered).thread;
      assert InHand(t) + r.spool == t.failed + [line] + (rest + r.spool);
      if delivered {
        SubsequenceCut(t.failed, [line], rest + r.spool, r.ledger.enqueued);
        assert InHand(t') + r.spool == t.failed + (rest + r.spool);
      } else {
        assert InHand(t') + r.spool == InHand(t) + r.spool;
      }
    }
  }

  lemma WriteBackKeepsOrder<T>(r: Relay<T>)
    requires InOrder(r)
    ensures InOrder(WriteBackStep(r))
  {
    hide Subsequence;
    if r.thread.Sending? && r.thread.next == |r.thread.taken| {
      var failed := r.thread.failed;
      assert InHand(r.thread) == failed;
      assert failed + r.spool + [] == failed + r.spool;
      SubsequenceCut(failed, r.spool, [], r.ledger.enqueued);
      assert failed + [] == failed && InHand<T>(Idle) + failed == failed;
      assert failed == [] ==> InHand<T>(Idle) + r.spool == failed + r.spool;
    }
  }

  lemma StepKeepsOrder<T>(r: Relay<T>, a: Action<T>, max: int)
    requires InOrder(r)
    ensures InOrder(Step(r, a, max))
  {
    hide EnqueueStep, ForwardStep, WriteBackStep, Subsequence;
    match a
    case Enqueue(line) => EnqueueKeepsOrder(r, line, max);
    case Forward(delivered) => ForwardKeepsOrder(r, delivered);
    case WriteBack => WriteBackKeepsOrder(r);
    case Take => assert InHand(Sending(r.spool, 0, [])) + [] == InHand<T>(Idle) + r.spool;
  }

  /** The thread's lines followed by the spool are always in enqueue order, and so is the
      spool by itself. */
  lemma {:induction false} SpoolInEnqueueOrder<T>(run: seq<Action<T>>, max: int)
    ensures InOrder(Exec(run, max))
    ensures Subsequence(Exec(run, max).spool, Exec(run, max).ledger.enqueued)
  {
    hide Step, Subsequence;
    if |run| == 0 {
      NothingInOrder<T>();
    } else {
      SpoolInEnqueueOrder(run[..|run| - 1], max);
      StepKeepsOrder(Exec(run[..|run| - 1], max), run[|run| - 1], max);
    }
    var r := Exec(run, max);
    assert [] + InHand(r.thread) + r.spool == InHand(r.thread) + r.spool;
    SubsequenceCut([], InHand(r.thread), r.spool, r.ledger.enqueued);
    assert [] + r.spool == r.spool;
  }

  lemma NothingInOrder<T>()
    ensures InOrder(Fresh<T>())
  {
    assert Embeds<T>([], [], []);
    assert InHand(Fresh<T>().thread) + Fresh<T>().spool == [];
  }

  // ---------- The cap ----------

  ghost predicate WithinCap<T>(r: Relay<T>, max: int) {
    && |r.spool| <= max
    && (r.thread.Sending? ==> r.thread.next <= |r.thread.taken| && |r.thread.failed| + |r.thread.taken| - r.thread.next <= max)
  }

  lemma StepKeepsCap<T>(r: Relay<T>, a: Action<T>, max: int)
    requires max >= 1 && WithinCap(r, max)
    ensures WithinCap(Step(r, a, max), max)
  {
    if a.Enqueue? {
      CappedIsSuffix(r.spool + [a.line], max);
    }
  }

  lemma {:induction false} CapHolds<T>(run: seq<Action<T>>, max: int)
    requires max >= 1
    ensures WithinCap(Exec(run, max), max)
  {
    hide Step;
    if |run| > 0 {
      CapHolds(run[..|run| - 1], max);
      StepKeepsCap(Exec(run[..|run| - 1], max), run[|run| - 1], max);
    }
  }

  lemma ExecOne<T>(a: Action<T>, max: int)
    ensures Exec([a], max) == Step(Fresh(), a, max)
  {
    hide Step;
    NoRun(Fresh<T>(), max);
    RunFromAppend(Fresh(), [a][..0], a, max);
    assert [a][..0] + [a] == [a];
  }

  /** The cap is kept in every run exactly when it is at least one: the slice that enforces
      it keeps everything when the cap is zero. */
  lemma CapHoldsExactly<T>(max: int, line: T)
    ensures (forall run: seq<Action<T>> :: |Exec(run, max).spool| <= max) <==> max >= 1
  {
    hide Exec;
    if max >= 1 {
      forall run: seq<Action<T>>
        ensures |Exec(run, max).spool| <= max
      {
        CapHolds(run, max);
      }
    } else {
      ExecOne(Enqueue(line), max);
      assert |Capped([] + [line], max)| > max;
      assert |Exec([Enqueue(line)], max).spool| > max;
    }
  }

  /** Some line was enqueued while the spool was full already; a cap of zero is none. */
  ghost predicate Overflows<T>(run: seq<Action<T>>, max: int) {
    |run| > 0 &&
    var init := run[..|run| - 1];
    Overflows(init, max) || (run[|run| - 1].Enqueue? && max != 0 && |Exec(init, max).spool| >= max)
  }

  lemma StepEvicts<T>(r: Relay<T>, a: Action<T>, max: int)
    ensures Step(r, a, max).ledger.evicted == multiset{}
       <==> r.ledger.evicted == multiset{} && !(a.Enqueue? && max != 0 && |r.spool| >= max)
  {
    if a.Enqueue? {
      var gone := Evicted(r.spool + [a.line], max);
      assert gone != [] ==> gone[0] in multiset(gone);
    }
  }

  /** The cap never costs a line exactly when no line meets a full spool. */
  lemma {:induction false} EvictedExactly<T>(run: seq<Action<T>>, max: int)
    ensures Exec(run, max).ledger.evicted == multiset{} <==> !Overflows(run, max)
  {
    hide Step;
    if |run| > 0 {
      var init := run[..|run| - 1];
      EvictedExactly(init, max);
      StepEvicts(Exec(init, max), run[|run| - 1], max);
    }
  }

  // ---------- When a write-back loses lines ----------

  /** Some line was enqueued since the running drain took the spool. */
  ghost predicate EnqueuedSinceTake<T>(run: seq<Action<T>>, max: int) {
    |run| > 0 &&
    var init := run[..|run| - 1];
    match run[|run| - 1]
    case Enqueue(_) => Exec(init, max).thread.Sending?
    case Take => Exec(init, max).thread.Sending? && EnqueuedSinceTake(init, max)
    case Forward(_) => EnqueuedSinceTake(init, max)
    case WriteBack => Exec(run, max).thread.Sending? && EnqueuedSinceTake(init, max)
  }

  /** Some write-back of failures came after an enqueue that followed its take. */
  ghost predicate LossyWriteBack<T>(run: seq<Action<T>>, max: int) {
    |run| > 0 &&
    var init := run[..|run| - 1];
    var t := Exec(init, max).thread;
    || LossyWriteBack(init, max)
    || (run[|run| - 1].WriteBack? && t.Sending? && t.next == |t.taken| && t.failed != [] && EnqueuedSinceTake(init, max))
  }

  /** During a drain the spool is empty exactly until something is enqueued; under a negative
      cap it never holds anything at all. */
  ghost predicate Tracks<T>(r: Relay<T>, enqueuedSince: bool, max: int) {
    && (if r.thread.Sending? then r.spool != [] <==> enqueuedSince else !enqueuedSince)
    && (max < 0 ==> r.spool == [] && r.thread.Idle?)
  }

  lemma NewLineStays<T>(spool: seq<T>, line: T, max: int)
    requires max < 0 ==> spool == []
    ensures Capped(spool + [line], max) == [] <==> max < 0
  {
  }

  lemma {:induction false} SpoolSinceTake<T>(run: seq<Action<T>>, max: int)
    ensures Tracks(Exec(run, max), EnqueuedSinceTake(run, max), max)
  {
    hide Capped;
    if |run| > 0 {
      var r := Exec(run[..|run| - 1], max);
      SpoolSinceTake(run[..|run| - 1], max);
      if run[|run| - 1].Enqueue? {
        NewLineStays(r.spool, run[|run| - 1].line, max);
      }
    }
  }

  /** A step adds to the overwritten lines exactly when it writes failures over a spool that
      is not empty. */
  lemma StepOverwrites<T>(r: Relay<T>, a: Action<T>, max: int)
    ensures Step(r, a, max).ledger.overwritten == multiset{}
       <==> r.ledger.overwritten == multiset{}
            && !(a.WriteBack? && r.thread.Sending? && r.thread.next == |r.thread.taken| && r.thread.failed != [] && r.spool != [])
  {
    assert r.spool != [] ==> r.spool[0] in multiset(r.spool);
  }

  /** Nothing is ever overwritten exactly when no enqueue falls between the take of a drain
      and its write-back of failures, whatever the cap. */
  lemma {:induction false} OverwrittenExactly<T>(run: seq<Action<T>>, max: int)
    ensures Exec(run, max).ledger.overwritten == multiset{} <==> !LossyWriteBack(run, max)
  {
    hide Step, EnqueuedSinceTake;
    if |run| > 0 {
      var init := run[..|run| - 1];
      OverwrittenExactly(init, max);
      SpoolSinceTake(init, max);
      StepOverwrites(Exec(init, max), run[|run| - 1], max);
    }
  }

  // ---------- The program ----------

  /** How one attempt to reach the upstream ends: accepted, refused in a way the handler
      expects, or failed with an exception that it does not catch. */
  datatype Attempt = Accepted | Refused | Raised

  datatype Answer = AnsweredForwarded | AnsweredQueued | AnsweredError

  function Enqueues<T>(lines: seq<T>): seq<Action<T>> { seq(|lines|, i requires 0 <= i < |lines| => Enqueue(lines[i])) }

  /** The steps of a drain's loop: before every forward, what handlers queue in the meantime. */
  function Sends<T>(attempts: seq<Attempt>, arrivals: seq<seq<T>>): seq<Action<T>>
    requires |attempts| <= |arrivals|
  {
    if |attempts| == 0 then []
    else
      var n := |attempts| - 1;
      Sends(attempts[..n], arrivals) + Enqueues(arrivals[n]) + [Forward(attempts[n].Accepted?)]
  }

  /** A whole drain, with what is queued between its steps. */
  function DrainSteps<T>(attempts: seq<Attempt>, arrivals: seq<seq<T>>): seq<Action<T>>
    requires |arrivals| == |attempts| + 1
  {
    [Take] + Sends(attempts, arrivals) + Enqueues(arrivals[|attempts|]) + [WriteBack]
  }

  function TotalLength<T>(batches: seq<seq<T>>): nat {
    if |batches| == 0 then 0 else TotalLength(batches[..|batches| - 1]) + |batches[|batches| - 1]|
  }

  lemma RunFromAppend<T>(r: Relay<T>, run: seq<Action<T>>, a: Action<T>, max: int)
    ensures RunFrom(r, run + [a], max) == Step(RunFrom(r, run, max), a, max)
  {
    hide Step;
    assert (run + [a])[..|run|] == run;
  }

  lemma {:induction false} RunFromConcat<T>(r: Relay<T>, a: seq<Action<T>>, b: seq<Action<T>>, max: int)
    ensures RunFrom(r, a + b, max) == RunFrom(RunFrom(r, a, max), b, max)
  {
    hide Step;
    if |b| == 0 {
      assert a + b == a;
    } else {
      var n := |b| - 1;
      RunFromConcat(r, a, b[..n], max);
      assert (a + b)[..|a + b| - 1] == a + b[..n];
    }
  }

  lemma RunFromSends<T>(r: Relay<T>, attempts: seq<Attempt>, arrivals: seq<seq<T>>, i: nat, max: int)
    requires i < |attempts| <= |arrivals|
    ensures RunFrom(r, Sends(attempts[..i + 1], arrivals), max)
         == Step(RunFrom(RunFrom(r, Sends(attempts[..i], arrivals), max), Enqueues(arrivals[i]), max), Forward(attempts[i].Accepted?), max)
  {
    hide Step, RunFrom, Enqueues;
    assert attempts[..i + 1][..i] == attempts[..i];
    RunFromConcat(r, Sends(attempts[..i], arrivals), Enqueues(arrivals[i]), max);
    RunFromAppend(r, Sends(attempts[..i], arrivals) + Enqueues(arrivals[i]), Forward(attempts[i].Accepted?), max);
  }

  lemma RunFromDrain<T>(r: Relay<T>, attempts: seq<Attempt>, arrivals: seq<seq<T>>, max: int)
    requires |arrivals| == |attempts| + 1
    ensures RunFrom(r, DrainSteps(attempts, arrivals), max)
         == Step(RunFrom(RunFrom(Step(r, Take, max), Sends(attempts, arrivals), max), Enqueues(arrivals[|attempts|]), max), WriteBack, max)
  {
    hide Step, RunFrom, Sends, Enqueues;
    var sends, last := Sends(attempts, arrivals), Enqueues(arrivals[|attempts|]);
    NoRun(r, max);
    var nothing: seq<Action<T>> := [];
    RunFromAppend(r, nothing, Take, max);
    assert nothing + [Take] == [Take];
    RunFromConcat(r, [Take], sends, max);
    RunFromConcat(r, [Take] + sends, last, max);
    RunFromAppend(r, [Take] + sends + last, WriteBack, max);
  }

  /** The lines of a drain whose forward did not succeed, in order. */
  function Failures<T>(lines: seq<T>, attempts: seq<Attempt>): seq<T>
    requires |lines| <= |attempts|
  {
    if |lines| == 0 then []
    else
      var n := |lines| - 1;
      var earlier := Failures(lines[..n], attempts);
      if attempts[n].Accepted? then earlier else earlier + [lines[n]]
  }

  /** The spool file and counters of one message kind.  The ghost state `relay` follows the
      step relation, so every method is a sequence of its steps. */
  class Service<T(==)> {
    const max: int
    var spool: seq<T>
    var forwarded: nat
    var queued: nat
    var replayed: nat
    var failed: nat
    ghost var relay: Relay<T>

    ghost predicate Valid()
      reads this
    {
      relay.spool == spool && relay.thread == Idle
    }

    constructor (max: int)
      ensures Valid() && relay == Fresh() && this.max == max
      ensures forwarded == queued == replayed == failed == 0
    {
      this.max := max;
      spool, forwarded, queued, replayed, failed := [], 0, 0, 0, 0;
      relay := Fresh();
    }

    method QueuePayload(line: T)
      requires relay.spool == spool
      modifies this`spool, this`queued, this`relay
      ensures relay.spool == spool && relay == Step(old(relay), Enqueue(line), max)
      ensures queued == old(queued) + 1
    {
      var existing := spool + [line];
      if |existing| > max {
        existing := LastLines(existing, max);
      }
      spool := existing;
      queued := queued + 1;
      relay := Step(relay, Enqueue(line), max);
    }

    /** One turn of the unlocked loop: the next line is forwarded or kept as a failure. */
    method ForwardNext(ghost lines: seq<T>, line: T, ghost i: nat, attempt: Attempt, failures: seq<T>) returns (failures': seq<T>)
      requires i < |lines| && line == lines[i] && relay.thread == Sending(lines, i, failures)
      modifies this`replayed, this`failed, this`relay
      ensures failures' == if attempt.Accepted? then failures else failures + [line]
      ensures relay == Step(old(relay), Forward(attempt.Accepted?), max)
      ensures relay.spool == old(relay.spool) && relay.thread == Sending(lines, i + 1, failures')
      ensures replayed == old(replayed) + (if attempt.Accepted? then 1 else 0)
      ensures failed == old(failed) + (if attempt.Accepted? then 0 else 1)
    {
      failures' := failures;
      if attempt.Accepted? {
        replayed := replayed + 1;
      } else {
        failures' := failures + [line];
        failed := failed + 1;
      }
      relay := Step(relay, Forward(attempt.Accepted?), max);
    }

    /** The unlocked loop of a drain; `arrivals[i]` are the lines that handlers queue just
        before the forward of line `i`. */
    method ForwardLines(lines: seq<T>, attempts: seq<Attempt>, arrivals: seq<seq<T>>) returns (failures: seq<T>)
      requires |lines| == |attempts| < |arrivals|
      requires relay.spool == spool && relay.thread == Sending(lines, 0, [])
      modifies this`spool, this`queued, this`replayed, this`failed, this`relay
      ensures failures == Failures(lines, attempts) && |failures| <= |lines|
      ensures relay == RunFrom(old(relay), Sends(attempts, arrivals), max)
      ensures relay.spool == spool && relay.thread == Sending(lines, |lines|, failures)
      ensures replayed == old(replayed) + |lines| - |failures| && failed == old(failed) + |failures|
      ensures queued == old(queued) + TotalLength(arrivals[..|lines|])
    {
      hide Failures, RunFrom, Step, Sends, TotalLength;
      failures := [];
      NothingSent(relay, attempts, arrivals, max);
      NoFailures<T>(attempts);
      for i := 0 to |lines|
        invariant relay == RunFrom(old(relay), Sends(attempts[..i], arrivals), max)
        invariant relay.spool == spool && relay.thread == Sending(lines, i, failures)
        invariant failures == Failures(lines[..i], attempts) && |failures| <= i
        invariant replayed == old(replayed) + i - |failures| && failed == old(failed) + |failures|
        invariant queued == old(queued) + TotalLength(arrivals[..i])
      {
        RunFromSends(old(relay), attempts, arrivals, i, max);
        FailuresStep(lines, attempts, i);
        TotalLengthStep(arrivals, i);
        QueueAll(arrivals[i]);
        failures := ForwardNext(lines, lines[i], i, attempts[i], failures);
      }
      assert lines[..|lines|] == lines && attempts[..|lines|] == attempts;
    }

    /** What handlers queue while a drain is under way. */
    method QueueAll(lines: seq<T>)
      requires relay.spool == spool
      modifies this`spool, this`queued, this`relay
      ensures relay.spool == spool && relay == RunFrom(old(relay), Enqueues(lines), max)
      ensures relay.thread == old(relay.thread) && queued == old(queued) + |lines|
    {
      hide Step, RunFrom;
      NoRun(relay, max);
      for i := 0 to |lines|
        invariant relay == RunFrom(old(relay), Enqueues(lines[..i]), max) && relay.spool == spool
        invariant relay.thread == old(relay.thread) && queued == old(queued) + i
      {
        EnqueueKeepsThread(relay, lines[i], max);
        RunFromAppend(old(relay), Enqueues(lines[..i]), Enqueue(lines[i]), max);
        QueuePayload(lines[i]);
        assert Enqueues(lines[..i + 1]) == Enqueues(lines[..i]) + [Enqueue(lines[i])];
      }
      assert lines[..|lines|] == lines;
    }

    /** One drain: what was spooled is taken and tried in order; `arrivals` are the lines that
        handlers queue before each forward and, last, before the failures, if any, are written
        back over the spool. */
    method DrainSpoolOnce(attempts: seq<Attempt>, arrivals: seq<seq<T>>)
      requires Valid() && |attempts| == |spool| && |arrivals| == |spool| + 1
      modifies this`spool, this`queued, this`replayed, this`failed, this`relay
      ensures Valid()
      ensures old(spool) == [] ==> spool == [] && relay == old(relay)
      ensures old(spool) != [] ==>
                && relay == RunFrom(old(relay), DrainSteps(attempts, arrivals), max)
                && (Failures(old(spool), attempts) != [] ==> spool == Failures(old(spool), attempts))
                && replayed == old(replayed) + |old(spool)| - |Failures(old(spool), attempts)|
                && failed == old(failed) + |Failures(old(spool), attempts)|
                && queued == old(queued) + TotalLength(arrivals)
    {
      hide Failures, RunFrom, DrainSteps, TotalLength;
      if spool != [] {
        DrainLines(attempts, arrivals);
      }
    }

    /** A drain of a spool that is not empty. */
    method DrainLines(attempts: seq<Attempt>, arrivals: seq<seq<T>>)
      requires Valid() && spool != [] && |attempts| == |spool| && |arrivals| == |spool| + 1
      modifies this`spool, this`queued, this`replayed, this`failed, this`relay
      ensures Valid() && relay == RunFrom(old(relay), DrainSteps(attempts, arrivals), max)
      ensures Failures(old(spool), attempts) != [] ==> spool == Failures(old(spool), attempts)
      ensures replayed == old(replayed) + |old(spool)| - |Failures(old(spool), attempts)|
      ensures failed == old(failed) + |Failures(old(spool), attempts)|
      ensures queued == old(queued) + TotalLength(arrivals)
    {
      hide Failures, RunFrom, Step, DrainSteps, Sends, TotalLength, Enqueues;
      RunFromDrain(relay, attempts, arrivals, max);
      TotalLengthSplits(arrivals, |spool|);
      var lines := TakeSpool();
      var failures := ForwardLines(lines, attempts, arrivals);
      QueueAll(arrivals[|lines|]);
      WriteBackFailures(lines, failures);
    }

    /** The locked region that starts a drain. */
    method TakeSpool() returns (lines: seq<T>)
      requires Valid() && spool != []
      modifies this`spool, this`relay
      ensures lines == old(spool) && relay == Step(old(relay), Take, max)
      ensures relay.spool == spool && relay.thread == Sending(lines, 0, [])
    {
      lines := spool;
      spool := [];
      relay := Step(relay, Take, max);
    }

    /** The end of a drain: failures, if any, replace the spool. */
    method WriteBackFailures(ghost lines: seq<T>, failures: seq<T>)
      requires relay.spool == spool && relay.thread == Sending(lines, |lines|, failures)
      modifies this`spool, this`relay
      ensures Valid() && relay == Step(old(relay), WriteBack, max)
      ensures spool == if failures == [] then old(spool) else failures
    {
      if failures != [] {
        spool := failures;
      }
      relay := Step(relay, WriteBack, max);
    }

    /** One posted message, possibly in the middle of a drain: forwarded, or queued when the
        upstream refuses it; an unexpected exception reaches the client and leaves the spool
        alone. */
    method HandleIngest(line: T, attempt: Attempt) returns (answer: Answer)
      requires relay.spool == spool
      modifies this`spool, this`queued, this`forwarded, this`relay
      ensures relay.spool == spool && relay.thread == old(relay.thread)
      ensures attempt.Accepted? ==> answer == AnsweredForwarded && relay == old(relay) && forwarded == old(forwarded) + 1
      ensures attempt.Refused? ==> answer == AnsweredQueued && relay == Step(old(relay), Enqueue(line), max) && queued == old(queued) + 1
      ensures attempt.Raised? ==> answer == AnsweredError && relay == old(relay)
      ensures !attempt.Accepted? ==> forwarded == old(forwarded)
      ensures !attempt.Refused? ==> queued == old(queued)
    {
      match attempt
      case Accepted =>
        forwarded := forwarded + 1;
        answer := AnsweredForwarded;
      case Refused =>
        QueuePayload(line);
        answer := AnsweredQueued;
      case Raised =>
        answer := AnsweredError;
    }
  }

  lemma NoRun<T>(r: Relay<T>, max: int)
    ensures forall run: seq<Action<T>> :: |run| == 0 ==> RunFrom(r, run, max) == r
  {
  }

  lemma NothingSent<T>(r: Relay<T>, attempts: seq<Attempt>, arrivals: seq<seq<T>>, max: int)
    ensures RunFrom(r, Sends(attempts[..0], arrivals), max) == r && TotalLength(arrivals[..0]) == 0
  {
  }

  lemma NoFailures<T>(attempts: seq<Attempt>)
    ensures forall lines: seq<T> :: |lines| == 0 ==> Failures(lines, attempts) == []
  {
  }

  lemma FailuresStep<T>(lines: seq<T>, attempts: seq<Attempt>, i: nat)
    requires i < |lines| <= |attempts|
    ensures Failures(lines[..i + 1], attempts)
         == if attempts[i].Accepted? then Failures(lines[..i], attempts) else Failures(lines[..i], attempts) + [lines[i]]
  {
    assert lines[..i + 1][..i] == lines[..i];
  }

  lemma TotalLengthStep<T>(batches: seq<seq<T>>, i: nat)
    requires i < |batches|
    ensures TotalLength(batches[..i + 1]) == TotalLength(batches[..i]) + |batches[i]|
  {
    assert batches[..i + 1][..i] == batches[..i];
  }

  lemma TotalLengthSplits<T>(batches: seq<seq<T>>, n: nat)
    requires |batches| == n + 1
    ensures TotalLength(batches) == TotalLength(batches[..n]) + |batches[n]|
  {
  }

  lemma EnqueueKeepsThread<T>(r: Relay<T>, line: T, max: int)
    ensures Step(r, Enqueue(line), max).thread == r.thread
  {
  }
}
