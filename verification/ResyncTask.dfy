/**
 * The periodic chain sync tasks and the callers who wait for a resync: one
 * model for the BDK and the LDK task (lexe-ln/src/sync.rs).
 */
module ResyncTask {

  type Waiter = nat

  datatype Event =
    | Received(w: Waiter)
    | SyncStarted
    | SyncEnded(ok: bool)
    | FirstReported(ok: bool)
    | Notified(w: Waiter)

  datatype Phase = Selecting | Syncing | Stopped

  /**
   * `queue` is the resync channel, `held` the waiters collected so far,
   * `firstSent` whether the first-sync sender was taken, `used` all waiters
   * that ever asked: every reply sender is a new one.
   */
  datatype State = State(
    phase: Phase,
    queue: seq<Waiter>,
    held: seq<Waiter>,
    firstSent: bool,
    used: set<Waiter>,
    log: seq<Event>)

  datatype Step =
    | Request(w: Waiter)
    /** The timer ticks or a request arrives; everything queued is collected, then the sync starts. */
    | Trigger
    /** The sync returns, or fails by itself or by the timeout. */
    | Finish(ok: bool)
    | Shutdown

  const INIT := State(Selecting, [], [], false, {}, [])

  predicate Enabled(s: State, step: Step) {
    match step
    case Request(w) => w !in s.used
    case Trigger => s.phase.Selecting?
    case Finish(_) => s.phase.Syncing?
    case Shutdown => !s.phase.Stopped?
  }

  function Receipts(ws: seq<Waiter>): (r: seq<Event>)
    ensures |r| == |ws| && forall i :: 0 <= i < |ws| ==> r[i] == Received(ws[i])
  {
    seq(|ws|, i requires 0 <= i < |ws| => Received(ws[i]))
  }

  function Notices(ws: seq<Waiter>): (r: seq<Event>)
    ensures |r| == |ws| && forall i :: 0 <= i < |ws| ==> r[i] == Notified(ws[i])
  {
    seq(|ws|, i requires 0 <= i < |ws| => Notified(ws[i]))
  }

  /** The log of a finished sync: its result, the first-sync report if still due, then the notifications. */
  function Outcome(s: State, ok: bool): seq<Event> {
    [SyncEnded(ok)] + (if s.firstSent then [] else [FirstReported(ok)]) + (if ok then Notices(s.held) else [])
  }

  function Apply(s: State, step: Step): State
    requires Enabled(s, step)
  {
    match step
    case Request(w) => s.(queue := s.queue + [w], used := s.used + {w})
    case Trigger =>
      s.(phase := Syncing, held := s.held + s.queue, queue := [], log := s.log + Receipts(s.queue) + [SyncStarted])
    case Finish(ok) =>
      s.(phase := Selecting, held := if ok then [] else s.held, firstSent := true, log := s.log + Outcome(s, ok))
    case Shutdown => s.(phase := Stopped)
  }

  ghost predicate Run(s: State, steps: seq<Step>, s': State)
    decreases |steps|
  {
    if steps == [] then s' == s
    else Enabled(s, steps[0]) && Run(Apply(s, steps[0]), steps[1..], s')
  }

  // --- What the log promises --- //

  predicate At(log: seq<Event>, i: int, e: Event) { 0 <= i < |log| && log[i] == e }

  /** Before position `i` a sync that started after the waiter's request was received has succeeded. */
  ghost predicate SyncedFor(log: seq<Event>, w: Waiter, i: int) {
    exists r, st :: r < st < i - 1 && At(log, r, Received(w)) && At(log, st, SyncStarted) &&
        At(log, st + 1, SyncEnded(true))
  }

  ghost predicate NoticesOk(log: seq<Event>) {
    forall i, w :: At(log, i, Notified(w)) ==> SyncedFor(log, w, i)
  }

  ghost predicate NotifiedOnce(log: seq<Event>) {
    forall i, j, w :: At(log, i, Notified(w)) && At(log, j, Notified(w)) ==> i == j
  }

  /** The first-sync report follows the first result at once, and equals it. */
  ghost predicate FirstOk(log: seq<Event>, firstSent: bool) {
    && (!firstSent ==> forall i, ok :: !At(log, i, SyncEnded(ok)) && !At(log, i, FirstReported(ok)))
    && (forall i, ok :: At(log, i, FirstReported(ok)) ==> At(log, i - 1, SyncEnded(ok)) && IsFirstResult(log, i - 1))
    && (forall i, j, a, b :: At(log, i, FirstReported(a)) && At(log, j, FirstReported(b)) ==> i == j)
  }

  ghost predicate IsFirstResult(log: seq<Event>, e: int) {
    forall j, ok :: j < e ==> !At(log, j, SyncEnded(ok))
  }

  ghost predicate Distinct(ws: seq<Waiter>) {
    forall i, j :: 0 <= i < j < |ws| ==> ws[i] != ws[j]
  }

  ghost predicate Logged(log: seq<Event>, e: Event) { exists i :: At(log, i, e) }

  ghost predicate WaitersOk(s: State) {
    && Distinct(s.held + s.queue)
    && (forall w :: w in s.held + s.queue ==> w in s.used)
    && (forall w :: w in s.held ==> Logged(s.log, Received(w)) && !Logged(s.log, Notified(w)))
    && (forall w :: w in s.queue ==> !Logged(s.log, Received(w)) && !Logged(s.log, Notified(w)))
    && (forall w :: Logged(s.log, Received(w)) || Logged(s.log, Notified(w)) ==> w in s.used)
    && (forall w :: Logged(s.log, Received(w)) ==> w in s.held || Logged(s.log, Notified(w)))
  }

  ghost predicate Inv(s: State) {
    && WaitersOk(s)
    && (s.phase.Syncing? ==> At(s.log, |s.log| - 1, SyncStarted))
    && NoticesOk(s.log) && NotifiedOnce(s.log) && FirstOk(s.log, s.firstSent)
  }

  // --- Appending to the log --- //

  lemma AtConcat(a: seq<Event>, b: seq<Event>, i: int, e: Event)
    ensures At(a + b, i, e) <==> At(a, i, e) || At(b, i - |a|, e)
  {}

  lemma LoggedConcat(a: seq<Event>, b: seq<Event>, e: Event)
    ensures Logged(a + b, e) <==> Logged(a, e) || e in b
  {
    if Logged(a + b, e) {
      var i :| At(a + b, i, e);
      AtConcat(a, b, i, e);
    }
    if Logged(a, e) {
      var i :| At(a, i, e);
      AtConcat(a, b, i, e);
    }
    if e in b {
      var i :| 0 <= i < |b| && b[i] == e;
      AtConcat(a, b, |a| + i, e);
    }
  }

  lemma SyncedForGrows(a: seq<Event>, b: seq<Event>, w: Waiter, i: int)
    requires SyncedFor(a, w, i)
    ensures SyncedFor(a + b, w, i)
  {
    var r, st :| r < st < i - 1 && At(a, r, Received(w)) && At(a, st, SyncStarted) && At(a, st + 1, SyncEnded(true));
    assert At(a + b, r, Received(w)) && At(a + b, st, SyncStarted) && At(a + b, st + 1, SyncEnded(true));
  }

  /** Events that notify no one leave the promises about notifications alone. */
  lemma QuietKeepsNotices(a: seq<Event>, b: seq<Event>)
    requires NoticesOk(a) && NotifiedOnce(a) && forall i :: 0 <= i < |b| ==> !b[i].Notified?
    ensures NoticesOk(a + b) && NotifiedOnce(a + b)
  {
    forall i, w | At(a + b, i, Notified(w)) ensures At(a, i, Notified(w)) && SyncedFor(a + b, w, i) {
      AtConcat(a, b, i, Notified(w));
      SyncedForGrows(a, b, w, i);
    }
  }

  lemma FirstResultGrows(a: seq<Event>, b: seq<Event>, e: int)
    requires e < |a| && IsFirstResult(a, e)
    ensures IsFirstResult(a + b, e)
  {
    forall j, ok | j < e ensures !At(a + b, j, SyncEnded(ok)) { AtConcat(a, b, j, SyncEnded(ok)); }
  }

  /** Events without results leave the first-sync promise alone. */
  lemma QuietKeepsFirst(a: seq<Event>, b: seq<Event>, firstSent: bool)
    requires FirstOk(a, firstSent) && forall i :: 0 <= i < |b| ==> !b[i].SyncEnded? && !b[i].FirstReported?
    ensures FirstOk(a + b, firstSent)
  {
    forall i, ok | At(a + b, i, FirstReported(ok))
      ensures At(a, i, FirstReported(ok)) && At(a + b, i - 1, SyncEnded(ok)) && IsFirstResult(a + b, i - 1)
    {
      AtConcat(a, b, i, FirstReported(ok));
      assert At(a, i - 1, SyncEnded(ok));
      AtConcat(a, b, i - 1, SyncEnded(ok));
      FirstResultGrows(a, b, i - 1);
    }
    forall i, ok | At(a + b, i, SyncEnded(ok)) ensures At(a, i, SyncEnded(ok)) {
      AtConcat(a, b, i, SyncEnded(ok));
    }
  }

  /** A result, with its report if the report was still due. */
  lemma ResultKeepsFirst(a: seq<Event>, ok: bool, firstSent: bool)
    requires FirstOk(a, firstSent)
    ensures FirstOk(a + ([SyncEnded(ok)] + (if firstSent then [] else [FirstReported(ok)])), true)
  {
    var b := [SyncEnded(ok)] + (if firstSent then [] else [FirstReported(ok)]);
    forall i, ok' | At(a + b, i, FirstReported(ok'))
      ensures At(a + b, i - 1, SyncEnded(ok')) && IsFirstResult(a + b, i - 1)
      ensures if firstSent then At(a, i, FirstReported(ok')) else i == |a| + 1
    {
      AtConcat(a, b, i, FirstReported(ok'));
      if firstSent {
        assert At(a, i - 1, SyncEnded(ok'));
        AtConcat(a, b, i - 1, SyncEnded(ok'));
        FirstResultGrows(a, b, i - 1);
      } else {
        assert (a + b)[|a|] == SyncEnded(ok);
        forall j, x | j < |a| ensures !At(a + b, j, SyncEnded(x)) { AtConcat(a, b, j, SyncEnded(x)); }
      }
    }
  }

  // --- Every step keeps the invariant --- //

  lemma RequestKeeps(s: State, w: Waiter)
    requires Inv(s) && Enabled(s, Request(w))
    ensures Inv(Apply(s, Request(w)))
  {
    hide Logged, NoticesOk, NotifiedOnce, FirstOk;
    var s' := Apply(s, Request(w));
    assert s'.held + s'.queue == s.held + s.queue + [w];
  }

  lemma TriggerKeeps(s: State)
    requires Inv(s) && Enabled(s, Trigger)
    ensures Inv(Apply(s, Trigger))
  {
    hide NoticesOk, NotifiedOnce, FirstOk, Logged;
    var s' := Apply(s, Trigger);
    var added := Receipts(s.queue) + [SyncStarted];
    assert s'.log == s.log + added;
    QuietKeepsNotices(s.log, added);
    QuietKeepsFirst(s.log, added, s.firstSent);
    assert s'.held + s'.queue == s.held + s.queue;
    forall w
      ensures Logged(s'.log, Received(w)) <==> Logged(s.log, Received(w)) || w in s.queue
      ensures Logged(s'.log, Notified(w)) <==> Logged(s.log, Notified(w))
    {
      LoggedConcat(s.log, added, Received(w));
      LoggedConcat(s.log, added, Notified(w));
      if w in s.queue {
        var i :| 0 <= i < |s.queue| && s.queue[i] == w;
        assert added[i] == Received(w);
      }
    }
  }

  /** Everyone held when a sync succeeds was received before that sync started. */
  lemma HeldAreSynced(s: State, w: Waiter, log': seq<Event>, i: int)
    requires Inv(s) && s.phase.Syncing? && w in s.held && i > |s.log|
    requires s.log + [SyncEnded(true)] <= log'
    ensures SyncedFor(log', w, i)
  {
    var r :| At(s.log, r, Received(w));
    var st := |s.log| - 1;
    assert At(s.log, st, SyncStarted);
    assert At(log', r, Received(w)) && At(log', st, SyncStarted) && At(log', st + 1, SyncEnded(true));
  }

  lemma NoticesKeep(s: State, a: seq<Event>)
    requires Inv(s) && s.phase.Syncing? && NoticesOk(a) && NotifiedOnce(a)
    requires s.log + [SyncEnded(true)] <= a
    requires forall w :: w in s.held ==> !Logged(a, Notified(w))
    ensures NoticesOk(a + Notices(s.held)) && NotifiedOnce(a + Notices(s.held))
  {
    var b := Notices(s.held);
    forall i, w | At(a + b, i, Notified(w))
      ensures SyncedFor(a + b, w, i)
      ensures At(a, i, Notified(w)) || (|a| <= i < |a| + |s.held| && s.held[i - |a|] == w)
    {
      AtConcat(a, b, i, Notified(w));
      if At(a, i, Notified(w)) {
        SyncedForGrows(a, b, w, i);
      } else {
        assert s.held[i - |a|] == w;
        HeldAreSynced(s, w, a + b, i);
      }
    }
    HeldDistinct(s);
    forall i, j, w | At(a + b, i, Notified(w)) && At(a + b, j, Notified(w)) ensures i == j {
      if At(a, i, Notified(w)) || At(a, j, Notified(w)) { assert w !in s.held; }
    }
  }

  lemma HeldDistinct(s: State)
    requires WaitersOk(s)
    ensures Distinct(s.held) && Distinct(s.queue)
    ensures forall w :: w in s.queue ==> w !in s.held
  {
    var all := s.held + s.queue;
    assert forall i :: 0 <= i < |s.held| ==> all[i] == s.held[i];
    assert forall j :: 0 <= j < |s.queue| ==> all[|s.held| + j] == s.queue[j];
  }

  lemma FinishKeeps(s: State, ok: bool)
    requires Inv(s) && Enabled(s, Finish(ok))
    ensures Inv(Apply(s, Finish(ok)))
  {
    hide NoticesOk, NotifiedOnce, FirstOk, Logged;
    var s' := Apply(s, Finish(ok));
    var result := [SyncEnded(ok)] + (if s.firstSent then [] else [FirstReported(ok)]);
    var notices := if ok then Notices(s.held) else [];
    assert s'.log == (s.log + result) + notices;
    QuietKeepsNotices(s.log, result);
    ResultKeepsFirst(s.log, ok, s.firstSent);
    QuietKeepsFirst(s.log + result, notices, true);
    forall e ensures Logged(s.log + result, e) <==> Logged(s.log, e) || e in result { LoggedConcat(s.log, result, e); }
    if ok {
      assert s.log + [SyncEnded(true)] <= s.log + result;
      NoticesKeep(s, s.log + result);
    } else {
      assert s'.log == s.log + result;
    }
    FinishWaiters(s, ok);
  }

  lemma FinishWaiters(s: State, ok: bool)
    requires Inv(s) && Enabled(s, Finish(ok))
    ensures WaitersOk(Apply(s, Finish(ok)))
  {
    hide NoticesOk, NotifiedOnce, FirstOk, Logged, Outcome, Distinct;
    var s' := Apply(s, Finish(ok));
    forall w
      ensures Logged(s'.log, Received(w)) <==> Logged(s.log, Received(w))
      ensures Logged(s'.log, Notified(w)) <==> Logged(s.log, Notified(w)) || (ok && w in s.held)
    {
      LoggedConcat(s.log, Outcome(s, ok), Received(w));
      LoggedConcat(s.log, Outcome(s, ok), Notified(w));
      OutcomeNotifies(s, ok, w);
    }
    HeldDistinct(s);
    assert [] + s.queue == s.queue;
  }

  lemma OutcomeNotifies(s: State, ok: bool, w: Waiter)
    ensures Notified(w) in Outcome(s, ok) <==> ok && w in s.held
    ensures Received(w) !in Outcome(s, ok)
  {}

  lemma StepKeepsInv(s: State, step: Step)
    requires Inv(s) && Enabled(s, step)
    ensures Inv(Apply(s, step))
  {
    match step
    case Request(w) => RequestKeeps(s, w);
    case Trigger => TriggerKeeps(s);
    case Finish(ok) => FinishKeeps(s, ok);
    case Shutdown =>
  }

  lemma {:induction false} RunKeepsInv(s: State, steps: seq<Step>, s': State)
    requires Inv(s) && Run(s, steps, s')
    ensures Inv(s')
    decreases |steps|
  {
    hide Inv;
    if steps != [] {
      StepKeepsInv(s, steps[0]);
      RunKeepsInv(Apply(s, steps[0]), steps[1..], s');
    }
  }

  // --- The promises, for every run --- //

  /** A waiter is notified at most once, and only after a sync that started after its receipt succeeded. */
  lemma NotifiedAfterOwnSync(steps: seq<Step>, s: State, w: Waiter, i: int)
    requires Run(INIT, steps, s) && At(s.log, i, Notified(w))
    ensures SyncedFor(s.log, w, i)
    ensures forall j :: At(s.log, j, Notified(w)) ==> j == i
  {
    assert Inv(INIT);
    RunKeepsInv(INIT, steps, s);
  }

  /** A received waiter is held through failures and timeouts until it is notified. */
  lemma WaitersSurvive(steps: seq<Step>, s: State, w: Waiter)
    requires Run(INIT, steps, s) && Logged(s.log, Received(w))
    ensures (w in s.held) != Logged(s.log, Notified(w))
  {
    assert Inv(INIT);
    RunKeepsInv(INIT, steps, s);
  }

  /** The next successful sync notifies everyone held when it started. */
  lemma SuccessNotifiesAll(s: State, w: Waiter)
    requires Enabled(s, Finish(true)) && w in s.held
    ensures Logged(Apply(s, Finish(true)).log, Notified(w)) && Apply(s, Finish(true)).held == []
  {
    OutcomeNotifies(s, true, w);
    LoggedConcat(s.log, Outcome(s, true), Notified(w));
  }

  /**
   * The first-sync result is reported at most once, right after the first sync completed, and is that
   * sync's result.
   */
  lemma FirstSyncReport(steps: seq<Step>, s: State, i: int, ok: bool)
    requires Run(INIT, steps, s) && At(s.log, i, FirstReported(ok))
    ensures At(s.log, i - 1, SyncEnded(ok)) && IsFirstResult(s.log, i - 1)
    ensures forall j, x :: At(s.log, j, FirstReported(x)) ==> j == i
  {
    assert Inv(INIT);
    RunKeepsInv(INIT, steps, s);
  }

  /** No request is forgotten: it waits in the channel, is held, or has been answered. */
  lemma {:induction false} RequestsAreKept(s: State, steps: seq<Step>, s': State, w: Waiter)
    requires Run(s, steps, s')
    requires w in s.queue || w in s.held || Notified(w) in s.log || Request(w) in steps
    ensures w in s'.queue || w in s'.held || Notified(w) in s'.log
    decreases |steps|
  {
    if steps != [] {
      var t := Apply(s, steps[0]);
      if w in s.held && steps[0] == Finish(true) { OutcomeNotifies(s, true, w); }
      RequestsAreKept(t, steps[1..], s', w);
    }
  }

  /** The task has stopped exactly if it was shut down, and then logs nothing more. */
  lemma {:induction false} StoppedIffShutdown(s: State, steps: seq<Step>, s': State)
    requires Run(s, steps, s')
    ensures s'.phase.Stopped? <==> s.phase.Stopped? || Shutdown in steps
    ensures s.phase.Stopped? ==> s'.log == s.log
    decreases |steps|
  {
    if steps != [] { StoppedIffShutdown(Apply(s, steps[0]), steps[1..], s'); }
  }

  /** A result is in the log only once the first one has been reported. */
  ghost predicate Reported(s: State) {
    && (SyncEnded(true) in s.log || SyncEnded(false) in s.log ==> s.firstSent)
    && (s.firstSent ==> FirstReported(true) in s.log || FirstReported(false) in s.log)
  }

  lemma StepKeepsReported(s: State, step: Step)
    requires Reported(s) && Enabled(s, step)
    ensures Reported(Apply(s, step))
  {
    match step
    case Finish(ok) => assert !s.firstSent ==> Outcome(s, ok)[1] == FirstReported(ok);
    case _ =>
  }

  lemma {:induction false} RunKeepsReported(s: State, steps: seq<Step>, s': State)
    requires Reported(s) && Run(s, steps, s')
    ensures Reported(s')
    decreases |steps|
  {
    hide Reported;
    if steps != [] {
      StepKeepsReported(s, steps[0]);
      RunKeepsReported(Apply(s, steps[0]), steps[1..], s');
    }
  }

  /** Once any sync has completed, the first result has been reported. */
  lemma FirstSyncIsReported(steps: seq<Step>, s: State, ok: bool)
    requires Run(INIT, steps, s) && SyncEnded(ok) in s.log
    ensures FirstReported(true) in s.log || FirstReported(false) in s.log
  {
    assert Reported(INIT);
    RunKeepsReported(INIT, steps, s);
  }

  /** While a sync runs, only requests come in. */
  lemma {:induction false} RequestsWait(s: State, reqs: seq<Step>, s': State)
    requires Run(s, reqs, s') && forall i :: 0 <= i < |reqs| ==> reqs[i].Request?
    ensures s'.held == s.held && s'.phase == s.phase && s'.log == s.log
    decreases |reqs|
  {
    if reqs != [] { RequestsWait(Apply(s, reqs[0]), reqs[1..], s'); }
  }

  /** Whoever had asked when a sync started is notified if it succeeds, whatever requests come in meanwhile. */
  lemma SyncServesEarlierRequests(s: State, reqs: seq<Step>, s': State, w: Waiter)
    requires Enabled(s, Trigger) && (w in s.queue || w in s.held)
    requires Run(Apply(s, Trigger), reqs, s') && forall i :: 0 <= i < |reqs| ==> reqs[i].Request?
    ensures Enabled(s', Finish(true)) && Logged(Apply(s', Finish(true)).log, Notified(w))
    ensures Enabled(s', Finish(false)) && w in Apply(s', Finish(false)).held
  {
    RequestsWait(Apply(s, Trigger), reqs, s');
    SuccessNotifiesAll(s', w);
  }
}
