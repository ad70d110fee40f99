/**
 * The hand-off between the channel monitor persister and the background
 * processor: after acknowledging an update the persister waits for an event
 * pass before it takes the next one (lexe-ln/src/channel_monitor.rs,
 * lexe-ln/src/background_processor.rs).
 */
module EventHandoff {

  /** What has happened, in order. Updates are numbered from one. */
  datatype Event =
    | WriteStarted(k: nat)
    | Acked(k: nat)
    | PassBegan
    | FlagRead(fatal: bool)
    /** An event handler reports a fatal error. */
    | FatalSet
    | PassEnded
    /** The channel manager is repersisted after a pass, or one last time when the processor ends. */
    | LoopPersisted
    | FinalPersisted

  datatype Persister = Idle | Writing | Acknowledged | Waiting | Stopped

  /** The event pass: both event providers are drained, then the flag is read, then waiters are notified. */
  datatype Processor =
    | Selecting
    | DrainingManager
    | DrainingMonitor
    | ReadingFlag
    | Notifying
    | Exited

  /**
   * `queue` is the process_events channel, `held` the waiters collected for
   * the current pass, `answered` and `lost` the tickets whose reply was sent
   * or whose sender was dropped. A ticket is the number of its update.
   */
  datatype State = State(
    persister: Persister,
    k: nat,
    processor: Processor,
    queue: set<nat>,
    held: set<nat>,
    answered: set<nat>,
    lost: set<nat>,
    fatal: bool,
    log: seq<Event>)

  datatype Step =
    | ReceiveUpdate
    | PersistFails
    | Acknowledge
    | ChainMonitorRefuses
    | SendTicket(full: bool)
    | ReplyArrives
    | ReplyLost
    | ReplyTimesOut
    | PersisterShutdown
    | SetFatal
    | BeginPass
    | ProcessManagerEvents
    | ProcessMonitorEvents
    | ReadFlag
    | NotifyWaiters(repersist: bool, persistOk: bool)
    | ProcessorShutdown

  predicate Enabled(s: State, step: Step) {
    match step
    case ReceiveUpdate => s.persister.Idle?
    case PersistFails => s.persister.Writing?
    case Acknowledge => s.persister.Writing?
    case ChainMonitorRefuses => s.persister.Writing?
    case SendTicket(_) => s.persister.Acknowledged?
    case ReplyArrives => s.persister.Waiting? && s.k in s.answered
    case ReplyLost => s.persister.Waiting? && s.k in s.lost
    case ReplyTimesOut => s.persister.Waiting?
    case PersisterShutdown => s.persister.Idle?
    case SetFatal => true
    case BeginPass => s.processor.Selecting?
    case ProcessManagerEvents => s.processor.DrainingManager?
    case ProcessMonitorEvents => s.processor.DrainingMonitor?
    case ReadFlag => s.processor.ReadingFlag?
    case NotifyWaiters(_, _) => s.processor.Notifying?
    case ProcessorShutdown => s.processor.Selecting?
  }

  function Log(s: State, e: Event): State { s.(log := s.log + [e]) }

  /** The processor ends: its receiver and its collected waiters are dropped. */
  function Exit(s: State): State {
    s.(processor := Exited, lost := s.lost + s.queue + s.held, queue := {}, held := {})
  }

  function Apply(s: State, step: Step): State
    requires Enabled(s, step)
  {
    match step
    case ReceiveUpdate => Log(s, WriteStarted(s.k + 1)).(persister := Writing, k := s.k + 1)
    case PersistFails => s.(persister := Stopped)
    case Acknowledge => Log(s, Acked(s.k)).(persister := Acknowledged)
    case ChainMonitorRefuses => s.(persister := Stopped)
    case SendTicket(full) =>
      // `try_send` on a full or closed channel drops the reply sender.
      if full || s.processor.Exited? then s.(persister := Waiting, lost := s.lost + {s.k})
      else s.(persister := Waiting, queue := s.queue + {s.k})
    case ReplyArrives => s.(persister := Idle)
    case ReplyLost => s.(persister := Stopped)
    case ReplyTimesOut => s.(persister := Stopped)
    case PersisterShutdown => s.(persister := Stopped)
    case SetFatal => Log(s, FatalSet).(fatal := true)
    case BeginPass => Log(s, PassBegan).(processor := DrainingManager, held := s.held + s.queue, queue := {})
    case ProcessManagerEvents => s.(processor := DrainingMonitor)
    case ProcessMonitorEvents => s.(processor := ReadingFlag)
    case ReadFlag =>
      var s' := Log(s, FlagRead(s.fatal));
      if s.fatal then Exit(s') else s'.(processor := Notifying)
    case NotifyWaiters(repersist, persistOk) =>
      var s' := Log(s, PassEnded).(answered := s.answered + s.held, held := {}, processor := Selecting);
      if !repersist then s'
      else if persistOk then Log(s', LoopPersisted)
      else Exit(Log(Log(s', LoopPersisted), FinalPersisted))
    case ProcessorShutdown => Exit(Log(s, FinalPersisted))
  }

  ghost predicate Run(s: State, steps: seq<Step>, s': State)
    decreases |steps|
  {
    if steps == [] then s' == s
    else Enabled(s, steps[0]) && Run(Apply(s, steps[0]), steps[1..], s')
  }

  const INIT := State(Idle, 0, Selecting, {}, {}, {}, {}, false, [])

  // --- What a complete pass after an acknowledgement looks like in the log --- //

  predicate At(log: seq<Event>, i: int, e: Event) { 0 <= i < |log| && log[i] == e }

  /** No pass begins or ends strictly between the two positions. */
  ghost predicate SamePass(log: seq<Event>, b: int, e: int) {
    forall x :: b < x < e && 0 <= x < |log| ==> log[x] != PassBegan && log[x] != PassEnded
  }

  /** The pass that began at `b` follows the acknowledgement of `k` and is still open at the log's end. */
  ghost predicate OpenPassFor(log: seq<Event>, k: nat, b: int) {
    At(log, b, PassBegan) && SamePass(log, b, |log|) && exists a :: a < b && At(log, a, Acked(k))
  }

  /** ... and has read the flag as clear. */
  ghost predicate ClearPassFor(log: seq<Event>, k: nat) {
    exists b, f :: b < f && OpenPassFor(log, k, b) && At(log, f, FlagRead(false))
  }

  ghost predicate WasAcked(log: seq<Event>, k: nat) {
    exists a :: At(log, a, Acked(k))
  }

  /** Before position `i`: Acked(k), then one whole pass that read the flag as clear. */
  ghost predicate CompletePassFor(log: seq<Event>, k: nat, i: int) {
    exists a, b, f, e ::
      && a < b < f < e < i && At(log, a, Acked(k)) && At(log, b, PassBegan)
      && At(log, f, FlagRead(false)) && At(log, e, PassEnded) && SamePass(log, b, e)
  }

  predicate MidPass(p: Processor) { p.DrainingManager? || p.DrainingMonitor? || p.ReadingFlag? }

  ghost predicate TicketsOk(s: State) {
    && (forall t :: t in s.queue ==> WasAcked(s.log, t))
    && (forall t :: t in s.held ==> MidPass(s.processor) || s.processor.Notifying?)
    && (forall t :: t in s.held && MidPass(s.processor) ==> exists b :: OpenPassFor(s.log, t, b))
    && (forall t :: t in s.held && s.processor.Notifying? ==> ClearPassFor(s.log, t))
    && (forall t :: t in s.answered ==> CompletePassFor(s.log, t, |s.log|))
  }

  ghost predicate PersisterOk(s: State) {
    && (s.persister.Idle? && s.k > 0 ==> s.k in s.answered)
    && (s.persister.Acknowledged? ==> WasAcked(s.log, s.k))
  }

  /** Every write but the first was preceded by a complete, clear pass that began after the previous ack. */
  ghost predicate LogOk(log: seq<Event>) {
    forall i :: 0 <= i < |log| && log[i].WriteStarted? && log[i].k > 1 ==> CompletePassFor(log, log[i].k - 1, i)
  }

  ghost predicate Inv(s: State) { TicketsOk(s) && PersisterOk(s) && LogOk(s.log) }

  // --- The log only grows --- //

  lemma AckedGrows(log: seq<Event>, e: Event, k: nat)
    requires WasAcked(log, k)
    ensures WasAcked(log + [e], k)
  {
    var a :| At(log, a, Acked(k));
    assert At(log + [e], a, Acked(k));
  }

  lemma CompleteGrows(log: seq<Event>, ev: Event, k: nat, i: int)
    requires CompletePassFor(log, k, i)
    ensures CompletePassFor(log + [ev], k, i)
    ensures forall j :: j >= i ==> CompletePassFor(log + [ev], k, j)
  {
    var a, b, f, e :|
      && a < b < f < e < i && At(log, a, Acked(k)) && At(log, b, PassBegan)
      && At(log, f, FlagRead(false)) && At(log, e, PassEnded) && SamePass(log, b, e);
    var log' := log + [ev];
    assert At(log', a, Acked(k)) && At(log', b, PassBegan) && At(log', f, FlagRead(false)) && At(log', e, PassEnded);
    assert SamePass(log', b, e);
  }

  lemma OpenGrows(log: seq<Event>, ev: Event, k: nat, b: int)
    requires OpenPassFor(log, k, b) && ev != PassBegan && ev != PassEnded
    ensures OpenPassFor(log + [ev], k, b)
  {
    var a :| a < b && At(log, a, Acked(k));
    assert At(log + [ev], a, Acked(k));
  }

  lemma ClearGrows(log: seq<Event>, ev: Event, k: nat)
    requires ClearPassFor(log, k) && ev != PassBegan && ev != PassEnded
    ensures ClearPassFor(log + [ev], k)
  {
    var b, f :| b < f && OpenPassFor(log, k, b) && At(log, f, FlagRead(false));
    OpenGrows(log, ev, k, b);
    assert At(log + [ev], f, FlagRead(false));
  }

  /** A new pass covers every update acknowledged so far. */
  lemma PassOpens(log: seq<Event>, k: nat)
    requires WasAcked(log, k)
    ensures OpenPassFor(log + [PassBegan], k, |log|)
  {
    var a :| At(log, a, Acked(k));
    assert At(log + [PassBegan], a, Acked(k));
  }

  lemma FlagClears(log: seq<Event>, k: nat, b: int)
    requires OpenPassFor(log, k, b)
    ensures ClearPassFor(log + [FlagRead(false)], k)
  {
    OpenGrows(log, FlagRead(false), k, b);
    assert At(log + [FlagRead(false)], |log|, FlagRead(false));
  }

  lemma PassCompletes(log: seq<Event>, k: nat)
    requires ClearPassFor(log, k)
    ensures CompletePassFor(log + [PassEnded], k, |log| + 1)
  {
    var b, f :| b < f && OpenPassFor(log, k, b) && At(log, f, FlagRead(false));
    var a :| a < b && At(log, a, Acked(k));
    var log' := log + [PassEnded];
    assert At(log', a, Acked(k)) && At(log', b, PassBegan) && At(log', f, FlagRead(false)) &&
        At(log', |log|, PassEnded);
    assert SamePass(log', b, |log|);
  }

  lemma LogOkGrows(log: seq<Event>, ev: Event)
    requires LogOk(log)
    requires ev.WriteStarted? && ev.k > 1 ==> CompletePassFor(log, ev.k - 1, |log|)
    ensures LogOk(log + [ev])
  {
    var log' := log + [ev];
    forall i | 0 <= i < |log'| && log'[i].WriteStarted? && log'[i].k > 1
      ensures CompletePassFor(log', log'[i].k - 1, i)
    {
      CompleteGrows(log, ev, log'[i].k - 1, i);
    }
  }

  /** An event other than a pass boundary keeps every ticket fact. */
  lemma TicketsGrow(s: State, ev: Event)
    requires TicketsOk(s) && ev != PassBegan && ev != PassEnded
    ensures TicketsOk(Log(s, ev))
  {
    var s' := Log(s, ev);
    forall t | t in s.queue ensures WasAcked(s'.log, t) { AckedGrows(s.log, ev, t); }
    forall t | t in s.held && MidPass(s.processor) ensures exists b :: OpenPassFor(s'.log, t, b) {
      var b :| OpenPassFor(s.log, t, b);
      OpenGrows(s.log, ev, t, b);
    }
    forall t | t in s.held && s.processor.Notifying? ensures ClearPassFor(s'.log, t) { ClearGrows(s.log, ev, t); }
    forall t | t in s.answered ensures CompletePassFor(s'.log, t, |s'.log|) { CompleteGrows(s.log, ev, t, |s.log|); }
  }

  // --- Every step of either task keeps the invariant --- //

  lemma LogKeeps(s: State, ev: Event)
    requires Inv(s) && ev != PassBegan && ev != PassEnded
    requires ev.WriteStarted? && ev.k > 1 ==> CompletePassFor(s.log, ev.k - 1, |s.log|)
    ensures Inv(Log(s, ev))
  {
    hide CompletePassFor, WasAcked, OpenPassFor, ClearPassFor, LogOk;
    TicketsGrow(s, ev);
    LogOkGrows(s.log, ev);
    if s.persister.Acknowledged? { AckedGrows(s.log, ev, s.k); }
  }

  lemma ExitKeeps(s: State)
    requires Inv(s)
    ensures Inv(Exit(s))
  {}

  lemma PersisterStepKeeps(s: State, step: Step)
    requires Inv(s) && Enabled(s, step) && !step.ReceiveUpdate? && !step.Acknowledge?
    requires step.PersistFails? || step.ChainMonitorRefuses? || step.SendTicket? || step.ReplyArrives? ||
             step.ReplyLost? || step.ReplyTimesOut? || step.PersisterShutdown?
    ensures Inv(Apply(s, step))
  {
    hide CompletePassFor, WasAcked, OpenPassFor, ClearPassFor, LogOk;
  }

  lemma WriteKeeps(s: State)
    requires Inv(s) && Enabled(s, ReceiveUpdate)
    ensures Inv(Apply(s, ReceiveUpdate))
  {
    hide CompletePassFor, WasAcked, OpenPassFor, ClearPassFor, LogOk;
    LogKeeps(s, WriteStarted(s.k + 1));
  }

  lemma SetFatalKeeps(s: State)
    requires Inv(s)
    ensures Inv(Apply(s, SetFatal))
  {
    hide CompletePassFor, WasAcked, OpenPassFor, ClearPassFor, LogOk;
    LogKeeps(s, FatalSet);
  }

  lemma AcknowledgeKeeps(s: State)
    requires Inv(s) && Enabled(s, Acknowledge)
    ensures Inv(Apply(s, Acknowledge))
  {
    hide CompletePassFor, OpenPassFor, ClearPassFor, LogOk;
    LogKeeps(s, Acked(s.k));
    assert At(s.log + [Acked(s.k)], |s.log|, Acked(s.k));
  }

  lemma BeginPassKeeps(s: State)
    requires Inv(s) && Enabled(s, BeginPass)
    ensures Inv(Apply(s, BeginPass))
  {
    hide CompletePassFor, WasAcked, OpenPassFor, ClearPassFor, LogOk;
    var s' := Apply(s, BeginPass);
    LogOkGrows(s.log, PassBegan);
    if s.persister.Acknowledged? { AckedGrows(s.log, PassBegan, s.k); }
    forall t | t in s'.held ensures exists b :: OpenPassFor(s'.log, t, b) { PassOpens(s.log, t); }
    forall t | t in s.answered ensures CompletePassFor(s'.log, t, |s'.log|) {
      CompleteGrows(s.log, PassBegan, t, |s.log|);
    }
  }

  lemma DrainKeeps(s: State, step: Step)
    requires Inv(s) && Enabled(s, step) && (step.ProcessManagerEvents? || step.ProcessMonitorEvents?)
    ensures Inv(Apply(s, step))
  {}

  lemma ReadFlagKeeps(s: State)
    requires Inv(s) && Enabled(s, ReadFlag)
    ensures Inv(Apply(s, ReadFlag))
  {
    hide CompletePassFor, WasAcked, OpenPassFor, ClearPassFor, LogOk;
    LogKeeps(s, FlagRead(s.fatal));
    if s.fatal {
      ExitKeeps(Log(s, FlagRead(true)));
    } else {
      forall t | t in s.held ensures ClearPassFor(s.log + [FlagRead(false)], t) {
        var b :| OpenPassFor(s.log, t, b);
        FlagClears(s.log, t, b);
      }
    }
  }

  lemma NotifyKeeps(s: State, repersist: bool, persistOk: bool)
    requires Inv(s) && Enabled(s, NotifyWaiters(repersist, persistOk))
    ensures Inv(Apply(s, NotifyWaiters(repersist, persistOk)))
  {
    hide CompletePassFor, WasAcked, OpenPassFor, ClearPassFor, LogOk;
    var s' := Log(s, PassEnded).(answered := s.answered + s.held, held := {}, processor := Selecting);
    LogOkGrows(s.log, PassEnded);
    if s.persister.Acknowledged? { AckedGrows(s.log, PassEnded, s.k); }
    forall t | t in s.queue ensures WasAcked(s'.log, t) { AckedGrows(s.log, PassEnded, t); }
    forall t | t in s'.answered ensures CompletePassFor(s'.log, t, |s'.log|) {
      if t in s.held {
        PassCompletes(s.log, t);
      } else {
        CompleteGrows(s.log, PassEnded, t, |s.log|);
      }
    }
    assert Inv(s');
    LogKeeps(s', LoopPersisted);
    LogKeeps(Log(s', LoopPersisted), FinalPersisted);
    ExitKeeps(Log(Log(s', LoopPersisted), FinalPersisted));
  }

  lemma StepKeepsInv(s: State, step: Step)
    requires Inv(s) && Enabled(s, step)
    ensures Inv(Apply(s, step))
  {
    hide Inv;
    match step
    case ReceiveUpdate => WriteKeeps(s);
    case Acknowledge => AcknowledgeKeeps(s);
    case SetFatal => SetFatalKeeps(s);
    case BeginPass => BeginPassKeeps(s);
    case ProcessManagerEvents => DrainKeeps(s, step);
    case ProcessMonitorEvents => DrainKeeps(s, step);
    case ReadFlag => ReadFlagKeeps(s);
    case NotifyWaiters(repersist, persistOk) => NotifyKeeps(s, repersist, persistOk);
    case ProcessorShutdown =>
      LogKeeps(s, FinalPersisted);
      ExitKeeps(Log(s, FinalPersisted));
    case _ => PersisterStepKeeps(s, step);
  }

  lemma {:induction false} RunKeepsInv(s: State, steps: seq<Step>, s': State)
    requires Inv(s) && Run(s, steps, s')
    ensures Inv(s')
    decreases |steps|
  {
    if steps != [] {
      StepKeepsInv(s, steps[0]);
      RunKeepsInv(Apply(s, steps[0]), steps[1..], s');
    }
  }

  // --- The flag --- //

  /** The flag was set before position `i`. */
  predicate SetBefore(log: seq<Event>, i: int) {
    exists j :: 0 <= j < i && j < |log| && log[j] == FatalSet
  }

  /** The flag is what the log says, and so was every reading of it. */
  ghost predicate FlagTrue(s: State) {
    && (s.fatal <==> SetBefore(s.log, |s.log|))
    && forall i :: 0 <= i < |s.log| && s.log[i].FlagRead? ==> (s.log[i].fatal <==> SetBefore(s.log, i))
  }

  lemma SetBeforeGrows(log: seq<Event>, e: Event)
    ensures forall i :: i <= |log| ==> (SetBefore(log + [e], i) <==> SetBefore(log, i))
    ensures SetBefore(log + [e], |log| + 1) <==> SetBefore(log, |log|) || e == FatalSet
  {
    var log' := log + [e];
    forall i | i <= |log| ensures SetBefore(log', i) <==> SetBefore(log, i) {
      if SetBefore(log, i) {
        var j :| 0 <= j < i && j < |log| && log[j] == FatalSet;
        assert log'[j] == FatalSet;
      }
    }
    assert log'[|log|] == e;
    if SetBefore(log, |log|) { assert SetBefore(log', |log|); }
  }

  lemma LogKeepsTrue(s: State, e: Event)
    requires FlagTrue(s) && e != FatalSet && (e.FlagRead? ==> e.fatal == s.fatal)
    ensures FlagTrue(Log(s, e))
  {
    SetBeforeGrows(s.log, e);
  }

  lemma StepKeepsTrue(s: State, step: Step)
    requires FlagTrue(s) && Enabled(s, step)
    ensures FlagTrue(Apply(s, step))
  {
    hide SetBefore;
    match step
    case ReceiveUpdate => LogKeepsTrue(s, WriteStarted(s.k + 1));
    case Acknowledge => LogKeepsTrue(s, Acked(s.k));
    case SetFatal => SetBeforeGrows(s.log, FatalSet);
    case BeginPass => LogKeepsTrue(s, PassBegan);
    case ReadFlag => LogKeepsTrue(s, FlagRead(s.fatal));
    case NotifyWaiters(_, _) =>
      LogKeepsTrue(s, PassEnded);
      LogKeepsTrue(Log(s, PassEnded), LoopPersisted);
      LogKeepsTrue(Log(Log(s, PassEnded), LoopPersisted), FinalPersisted);
    case ProcessorShutdown => LogKeepsTrue(s, FinalPersisted);
    case _ =>
  }

  lemma {:induction false} RunKeepsTrue(s: State, steps: seq<Step>, s': State)
    requires FlagTrue(s) && Run(s, steps, s')
    ensures FlagTrue(s')
    ensures s'.fatal <==> s.fatal || SetFatal in steps
    decreases |steps|
  {
    hide FlagTrue;
    if steps != [] {
      StepKeepsTrue(s, steps[0]);
      RunKeepsTrue(Apply(s, steps[0]), steps[1..], s');
    }
  }

  /** In every run, the flag is set exactly if some step set it, and every reading tells whether that had happened. */
  lemma ReadingsAreTrue(steps: seq<Step>, s: State, i: nat)
    requires Run(INIT, steps, s)
    ensures s.fatal <==> SetFatal in steps
    ensures s.fatal <==> SetBefore(s.log, |s.log|)
    ensures i < |s.log| && s.log[i].FlagRead? ==> (s.log[i].fatal <==> SetBefore(s.log, i))
  {
    assert FlagTrue(INIT);
    RunKeepsTrue(INIT, steps, s);
  }

  /** Like `CompletePassFor`, and the flag had not been set when the pass read it. */
  ghost predicate CleanPassFor(log: seq<Event>, k: nat, i: int) {
    exists a, b, f, e ::
      && a < b < f < e < i && At(log, a, Acked(k)) && At(log, b, PassBegan)
      && At(log, f, FlagRead(false)) && !SetBefore(log, f) && At(log, e, PassEnded) && SamePass(log, b, e)
  }

  /**
   * In every interleaving: wherever the log says that update k+1 began to be
   * written, an event pass that began after update k was acknowledged had
   * already completed, with the fatal flag read as clear and in truth not set.
   */
  lemma WritesWaitForEvents(steps: seq<Step>, s: State, i: nat)
    requires Run(INIT, steps, s) && i < |s.log| && s.log[i].WriteStarted? && s.log[i].k > 1
    ensures CleanPassFor(s.log, s.log[i].k - 1, i)
  {
    hide SamePass, SetBefore;
    assert Inv(INIT) by { assert TicketsOk(INIT); }
    RunKeepsInv(INIT, steps, s);
    var k := s.log[i].k - 1;
    assert CompletePassFor(s.log, k, i);
    var a, b, f, e :|
      && a < b < f < e < i && At(s.log, a, Acked(k)) && At(s.log, b, PassBegan)
      && At(s.log, f, FlagRead(false)) && At(s.log, e, PassEnded) && SamePass(s.log, b, e);
    ReadingsAreTrue(steps, s, f);
  }

  /** A pass that finds the flag clear answers everyone who was waiting when it began. */
  lemma CleanPass(s: State) returns (steps: seq<Step>, s': State)
    requires s.processor.Selecting? && !s.fatal
    ensures Run(s, steps, s') && s'.persister == s.persister && s'.k == s.k && s'.processor.Selecting?
    ensures s'.queue == {} && s'.answered == s.answered + s.held + s.queue && s'.lost == s.lost && !s'.fatal
    ensures s'.log == s.log + [PassBegan, FlagRead(false), PassEnded]
  {
    hide Run;
    var b := Apply(s, BeginPass);
    var c := Apply(b, ProcessManagerEvents);
    var d := Apply(c, ProcessMonitorEvents);
    var e := Apply(d, ReadFlag);
    s' := Apply(e, NotifyWaiters(false, true));
    RunNil(s');
    RunCons(e, NotifyWaiters(false, true), [], s');
    steps := [NotifyWaiters(false, true)] + [];
    RunCons(d, ReadFlag, steps, s');
    steps := [ReadFlag] + steps;
    RunCons(c, ProcessMonitorEvents, steps, s');
    steps := [ProcessMonitorEvents] + steps;
    RunCons(b, ProcessManagerEvents, steps, s');
    steps := [ProcessManagerEvents] + steps;
    RunCons(s, BeginPass, steps, s');
    steps := [BeginPass] + steps;
  }

  /** When nothing fails, an acknowledged update is followed by a pass, the replies, and the next update. */
  lemma RoundTrip(s: State) returns (steps: seq<Step>, s': State)
    requires s.persister.Acknowledged? && s.processor.Selecting? && !s.fatal
    ensures Run(s, steps, s') && s'.persister.Writing? && s'.k == s.k + 1 && s'.processor.Selecting?
    ensures s'.queue == {} && s'.answered == s.answered + s.held + s.queue + {s.k} && s'.lost == s.lost
    ensures s'.log == s.log + [PassBegan, FlagRead(false), PassEnded] + [WriteStarted(s.k + 1)]
  {
    hide Run;
    var a := Apply(s, SendTicket(false));
    var pass, f := CleanPass(a);
    var g := Apply(f, ReplyArrives);
    s' := Apply(g, ReceiveUpdate);
    RunNil(s');
    RunCons(g, ReceiveUpdate, [], s');
    RunCons(f, ReplyArrives, [ReceiveUpdate] + [], s');
    RunConcat(a, pass, f, [ReplyArrives] + ([ReceiveUpdate] + []), s');
    steps := pass + ([ReplyArrives] + ([ReceiveUpdate] + []));
    RunCons(s, SendTicket(false), steps, s');
    steps := [SendTicket(false)] + steps;
  }

  lemma {:induction false} RunConcat(s: State, a: seq<Step>, t: State, b: seq<Step>, u: State)
    requires Run(s, a, t) && Run(t, b, u)
    ensures Run(s, a + b, u)
    decreases |a|
  {
    if a == [] {
      assert a + b == b;
    } else {
      RunConcat(Apply(s, a[0]), a[1..], t, b, u);
      assert (a + b)[1..] == a[1..] + b;
    }
  }

  lemma RunNil(s: State)
    ensures Run(s, [], s)
  {}

  lemma RunCons(s: State, step: Step, steps: seq<Step>, s': State)
    requires Enabled(s, step) && Run(Apply(s, step), steps, s')
    ensures Run(s, [step] + steps, s')
  {
    assert ([step] + steps)[1..] == steps;
  }

  /** A reply that is lost or times out stops the persister for good: nothing is written after it. */
  lemma {:induction false} StoppedIsFinal(s: State, steps: seq<Step>, s': State)
    requires s.persister.Stopped? && Run(s, steps, s')
    ensures s'.persister.Stopped? && s'.k == s.k
    ensures |s'.log| >= |s.log| && forall i :: |s.log| <= i < |s'.log| ==> !s'.log[i].WriteStarted?
    decreases |steps|
  {
    if steps != [] {
      StoppedIsFinal(Apply(s, steps[0]), steps[1..], s');
      LogPrefix(Apply(s, steps[0]), steps[1..], s');
    }
  }

  lemma {:induction false} LogPrefix(s: State, steps: seq<Step>, s': State)
    requires Run(s, steps, s')
    ensures s.log <= s'.log
    decreases |steps|
  {
    if steps != [] {
      LogPrefix(Apply(s, steps[0]), steps[1..], s');
    }
  }

  // --- When the tasks end --- //

  predicate StopsPersister(step: Step) {
    step.PersistFails? || step.ChainMonitorRefuses? || step.ReplyLost? || step.ReplyTimesOut? || step.PersisterShutdown?
  }

  /** A failed persist in the loop, or a shutdown. */
  predicate EndsProcessor(step: Step) { step == NotifyWaiters(true, false) || step.ProcessorShutdown? }

  lemma StepEnds(s: State, step: Step)
    requires Enabled(s, step)
    ensures var s' := Apply(s, step);
            && (s'.persister.Stopped? <==> s.persister.Stopped? || StopsPersister(step))
            && (s'.processor.Exited? <==> s.processor.Exited? || EndsProcessor(step) || (step.ReadFlag? && s.fatal))
            && (FlagRead(true) in s'.log <==> FlagRead(true) in s.log || (step.ReadFlag? && s.fatal))
  {}

  lemma {:induction false} RunEnds(s: State, steps: seq<Step>, s': State)
    requires Run(s, steps, s') && (FlagRead(true) in s.log ==> s.processor.Exited?)
    ensures s'.persister.Stopped? <==> s.persister.Stopped? || exists i :: 0 <= i < |steps| && StopsPersister(steps[i])
    ensures s'.processor.Exited? <==>
              || s.processor.Exited? || FlagRead(true) in s'.log
              || exists i :: 0 <= i < |steps| && EndsProcessor(steps[i])
    decreases |steps|
  {
    hide Apply, Enabled, StopsPersister, EndsProcessor;
    if steps != [] {
      var t := Apply(s, steps[0]);
      StepEnds(s, steps[0]);
      RunEnds(t, steps[1..], s');
      LogPrefix(t, steps[1..], s');
      assert FlagRead(true) in t.log ==> FlagRead(true) in s'.log;
      assert forall i :: 1 <= i < |steps| ==> steps[i] == steps[1..][i - 1];
      if i :| 0 <= i < |steps[1..]| && StopsPersister(steps[1..][i]) { assert StopsPersister(steps[i + 1]); }
      if i :| 0 <= i < |steps[1..]| && EndsProcessor(steps[1..][i]) { assert EndsProcessor(steps[i + 1]); }
    }
  }

  /**
   * In every run: the persister has stopped exactly if a persist, the chain
   * monitor, a reply or a shutdown stopped it, and the processor has exited
   * exactly if a pass read the flag as set, a persist failed or it was shut down.
   */
  lemma EndsAreCaused(steps: seq<Step>, s: State)
    requires Run(INIT, steps, s)
    ensures s.persister.Stopped? <==> exists i :: 0 <= i < |steps| && StopsPersister(steps[i])
    ensures s.processor.Exited? <==>
              FlagRead(true) in s.log || exists i :: 0 <= i < |steps| && EndsProcessor(steps[i])
  {
    RunEnds(INIT, steps, s);
  }

  /** How many passes of a run ask for the manager to be persisted. */
  function Repersists(steps: seq<Step>): nat {
    if steps == [] then 0
    else (if steps[0].NotifyWaiters? && steps[0].repersist then 1 else 0) + Repersists(steps[1..])
  }

  function Persists(s: State): nat { multiset(s.log)[LoopPersisted] }

  lemma LogPersists(s: State, e: Event)
    ensures Persists(Log(s, e)) == Persists(s) + if e.LoopPersisted? then 1 else 0
  {}

  lemma SameLogPersists(s: State, s': State)
    requires s.log == s'.log
    ensures Persists(s) == Persists(s')
  {}

  lemma StepPersists(s: State, step: Step)
    requires Enabled(s, step)
    ensures Persists(Apply(s, step)) == Persists(s) + if step.NotifyWaiters? && step.repersist then 1 else 0
  {
    hide Persists;
    var s' := Apply(s, step);
    match step
    case NotifyWaiters(repersist, persistOk) =>
      var ended := Log(s, PassEnded);
      var persisted := Log(ended, LoopPersisted);
      LogPersists(s, PassEnded);
      LogPersists(ended, LoopPersisted);
      LogPersists(persisted, FinalPersisted);
      SameLogPersists(s', if !repersist then ended else if persistOk then persisted else Log(persisted, FinalPersisted));
    case ProcessorShutdown => OneLogged(s, s', FinalPersisted);
    case ReceiveUpdate => OneLogged(s, s', WriteStarted(s.k + 1));
    case Acknowledge => OneLogged(s, s', Acked(s.k));
    case SetFatal => OneLogged(s, s', FatalSet);
    case BeginPass => OneLogged(s, s', PassBegan);
    case ReadFlag => OneLogged(s, s', FlagRead(s.fatal));
    case _ => SameLogPersists(s, s');
  }

  lemma OneLogged(s: State, s': State, e: Event)
    requires s'.log == s.log + [e] && !e.LoopPersisted?
    ensures Persists(s') == Persists(s)
  {
    LogPersists(s, e);
  }

  /** The manager is persisted in the loop exactly as often as a completed pass asks for it. */
  lemma {:induction false} PersistsAsOftenAsAsked(s: State, steps: seq<Step>, s': State)
    requires Run(s, steps, s')
    ensures Persists(s') == Persists(s) + Repersists(steps)
    decreases |steps|
  {
    hide Apply, Enabled;
    if steps != [] {
      StepPersists(s, steps[0]);
      PersistsAsOftenAsAsked(Apply(s, steps[0]), steps[1..], s');
    }
  }

  // --- Tickets --- //

  function AllTickets(s: State): set<nat> { s.queue + s.held + s.answered + s.lost }

  /** A ticket is in one place only, is issued once, and every update before the current one was answered. */
  ghost predicate TicketSets(s: State) {
    && s.queue !! s.held && s.answered !! s.lost && (s.queue + s.held) !! (s.answered + s.lost)
    && (forall t :: t in AllTickets(s) ==> t <= s.k)
    && (s.persister.Writing? || s.persister.Acknowledged? ==> s.k !in AllTickets(s))
    && (forall t :: 0 < t < s.k ==> t in s.answered)
    && (s.persister.Idle? && s.k > 0 ==> s.k in s.answered)
  }

  lemma StepKeepsTickets(s: State, step: Step)
    requires TicketSets(s) && Enabled(s, step)
    ensures TicketSets(Apply(s, step))
  {
    var s' := Apply(s, step);
    assert AllTickets(s') == if step.SendTicket? then AllTickets(s) + {s.k} else AllTickets(s);
  }

  lemma {:induction false} RunKeepsTickets(s: State, steps: seq<Step>, s': State)
    requires TicketSets(s) && Run(s, steps, s')
    ensures TicketSets(s')
    decreases |steps|
  {
    hide TicketSets;
    if steps != [] {
      StepKeepsTickets(s, steps[0]);
      RunKeepsTickets(Apply(s, steps[0]), steps[1..], s');
    }
  }

  /**
   * In every run, the persister gets past an update only by its reply: it was answered, and its reply
   * was never lost.
   */
  lemma WaitingLeavesOnlyByReply(steps: seq<Step>, s: State, t: nat)
    requires Run(INIT, steps, s) && 0 < t < s.k
    ensures t in s.answered && t !in s.lost
  {
    assert TicketSets(INIT);
    RunKeepsTickets(INIT, steps, s);
  }

  /** Waiting for a reply that is lost, or stopped. */
  predicate Doomed(s: State) { s.persister.Stopped? || (s.persister.Waiting? && s.k in s.lost) }

  lemma StepKeepsDoomed(s: State, step: Step)
    requires TicketSets(s) && Doomed(s) && Enabled(s, step)
    ensures Doomed(Apply(s, step)) && Apply(s, step).k == s.k
    ensures |Apply(s, step).log| >= |s.log|
    ensures forall i :: |s.log| <= i < |Apply(s, step).log| ==> !Apply(s, step).log[i].WriteStarted?
  {}

  lemma {:induction false} RunKeepsDoomed(s: State, steps: seq<Step>, s': State)
    requires TicketSets(s) && Doomed(s) && Run(s, steps, s')
    ensures Doomed(s') && s'.k == s.k
    ensures |s'.log| >= |s.log| && forall i :: |s.log| <= i < |s'.log| ==> !s'.log[i].WriteStarted?
    decreases |steps|
  {
    hide TicketSets, Doomed, Apply, Enabled;
    if steps != [] {
      var m := Apply(s, steps[0]);
      StepKeepsTickets(s, steps[0]);
      StepKeepsDoomed(s, steps[0]);
      RunKeepsDoomed(m, steps[1..], s');
      LogPrefix(m, steps[1..], s');
    }
  }

  /** Once its reply is lost, a waiting persister never gets to another update, whatever happens. */
  lemma LostReplyStops(steps: seq<Step>, s: State, more: seq<Step>, s': State)
    requires Run(INIT, steps, s) && s.persister.Waiting? && s.k in s.lost && Run(s, more, s')
    ensures s'.k == s.k && (s'.persister.Waiting? || s'.persister.Stopped?)
    ensures |s'.log| >= |s.log| && forall i :: |s.log| <= i < |s'.log| ==> !s'.log[i].WriteStarted?
  {
    assert TicketSets(INIT);
    RunKeepsTickets(INIT, steps, s);
    RunKeepsDoomed(s, more, s');
  }

  // --- The fatal flag and the channel manager --- //

  ghost predicate OpenPass(log: seq<Event>) {
    exists b :: At(log, b, PassBegan) && SamePass(log, b, |log|)
  }

  ghost predicate ClearPass(log: seq<Event>) {
    exists b, f :: b < f && At(log, b, PassBegan) && SamePass(log, b, |log|) && At(log, f, FlagRead(false))
  }

  /** Before position `i` one whole pass read the flag as clear, and no later pass began. */
  ghost predicate PassClearedBefore(log: seq<Event>, i: int) {
    exists b, f :: b < f < i - 1 && At(log, b, PassBegan) && SamePass(log, b, i - 1)
                   && At(log, f, FlagRead(false)) && At(log, i - 1, PassEnded)
  }

  ghost predicate FlagInv(s: State) {
    && (MidPass(s.processor) ==> OpenPass(s.log))
    && (s.processor.Notifying? ==> ClearPass(s.log))
    && (forall i :: At(s.log, i, LoopPersisted) ==> PassClearedBefore(s.log, i))
  }

  lemma ClearedGrows(log: seq<Event>, ev: Event, i: int)
    requires i <= |log| && PassClearedBefore(log, i)
    ensures PassClearedBefore(log + [ev], i)
  {
    var b, f :| b < f < i - 1 && At(log, b, PassBegan) && SamePass(log, b, i - 1)
                && At(log, f, FlagRead(false)) && At(log, i - 1, PassEnded);
    var log' := log + [ev];
    assert At(log', b, PassBegan) && At(log', f, FlagRead(false)) && At(log', i - 1, PassEnded);
    assert SamePass(log', b, i - 1);
  }

  lemma PersistsGrow(log: seq<Event>, ev: Event)
    requires forall i :: At(log, i, LoopPersisted) ==> PassClearedBefore(log, i)
    requires ev.LoopPersisted? ==> PassClearedBefore(log, |log|)
    ensures forall i :: At(log + [ev], i, LoopPersisted) ==> PassClearedBefore(log + [ev], i)
  {
    forall i | At(log + [ev], i, LoopPersisted) ensures PassClearedBefore(log + [ev], i) {
      if i < |log| { assert At(log, i, LoopPersisted); }
      ClearedGrows(log, ev, i);
    }
  }

  lemma PassGrows(log: seq<Event>, ev: Event)
    requires ev != PassBegan && ev != PassEnded
    ensures OpenPass(log) ==> OpenPass(log + [ev])
    ensures ClearPass(log) ==> ClearPass(log + [ev])
    ensures OpenPass(log) && ev == FlagRead(false) ==> ClearPass(log + [ev])
  {
    var log' := log + [ev];
    if OpenPass(log) {
      var b :| At(log, b, PassBegan) && SamePass(log, b, |log|);
      assert At(log', b, PassBegan) && SamePass(log', b, |log'|);
      assert ev == FlagRead(false) ==> At(log', |log|, FlagRead(false));
    }
    if ClearPass(log) {
      var b, f :| b < f && At(log, b, PassBegan) && SamePass(log, b, |log|) && At(log, f, FlagRead(false));
      assert At(log', b, PassBegan) && SamePass(log', b, |log'|) && At(log', f, FlagRead(false));
    }
  }

  lemma PassEnds(log: seq<Event>)
    requires ClearPass(log)
    ensures PassClearedBefore(log + [PassEnded], |log| + 1)
  {
    var log' := log + [PassEnded];
    var b, f :| b < f && At(log, b, PassBegan) && SamePass(log, b, |log|) && At(log, f, FlagRead(false));
    assert At(log', b, PassBegan) && SamePass(log', b, |log|) && At(log', f, FlagRead(false)) &&
        At(log', |log|, PassEnded);
  }

  lemma StepKeepsFlagInv(s: State, step: Step)
    requires FlagInv(s) && Enabled(s, step)
    ensures FlagInv(Apply(s, step))
  {
    hide OpenPass, ClearPass, PassClearedBefore, At;
    match step
    case ReceiveUpdate =>
      PassGrows(s.log, WriteStarted(s.k + 1));
      PersistsGrow(s.log, WriteStarted(s.k + 1));
    case Acknowledge =>
      PassGrows(s.log, Acked(s.k));
      PersistsGrow(s.log, Acked(s.k));
    case SetFatal =>
      PassGrows(s.log, FatalSet);
      PersistsGrow(s.log, FatalSet);
    case BeginPass =>
      NewPassIsOpen(s.log);
      PersistsGrow(s.log, PassBegan);
    case ReadFlag =>
      PassGrows(s.log, FlagRead(s.fatal));
      PersistsGrow(s.log, FlagRead(s.fatal));
    case NotifyWaiters(_, _) =>
      var log' := s.log + [PassEnded];
      PassEnds(s.log);
      PersistsGrow(s.log, PassEnded);
      PersistsGrow(log', LoopPersisted);
      PersistsGrow(log' + [LoopPersisted], FinalPersisted);
    case ProcessorShutdown => PersistsGrow(s.log, FinalPersisted);
    case _ =>
  }

  lemma NewPassIsOpen(log: seq<Event>)
    ensures OpenPass(log + [PassBegan])
  {
    assert At(log + [PassBegan], |log|, PassBegan);
  }

  lemma {:induction false} RunKeepsFlagInv(s: State, steps: seq<Step>, s': State)
    requires FlagInv(s) && Run(s, steps, s')
    ensures FlagInv(s')
    decreases |steps|
  {
    if steps != [] {
      StepKeepsFlagInv(s, steps[0]);
      RunKeepsFlagInv(Apply(s, steps[0]), steps[1..], s');
    }
  }

  /** Like `PassClearedBefore`, and the flag had not been set when the pass read it. */
  ghost predicate PassCleanBefore(log: seq<Event>, i: int) {
    exists b, f :: b < f < i - 1 && At(log, b, PassBegan) && SamePass(log, b, i - 1)
                   && At(log, f, FlagRead(false)) && !SetBefore(log, f) && At(log, i - 1, PassEnded)
  }

  /** Inside the loop the manager is only ever persisted right after a pass that read the flag before it was set ... */
  lemma LoopPersistAfterClearFlag(steps: seq<Step>, s: State, i: nat)
    requires Run(INIT, steps, s) && At(s.log, i, LoopPersisted)
    ensures PassCleanBefore(s.log, i)
  {
    hide SamePass, SetBefore;
    assert FlagInv(INIT);
    RunKeepsFlagInv(INIT, steps, s);
    assert PassClearedBefore(s.log, i);
    var b, f :| b < f < i - 1 && At(s.log, b, PassBegan) && SamePass(s.log, b, i - 1)
                && At(s.log, f, FlagRead(false)) && At(s.log, i - 1, PassEnded);
    ReadingsAreTrue(steps, s, f);
  }

  predicate Persist(e: Event) { e.LoopPersisted? || e.FinalPersisted? }

  /** The final persist happens on every exit but the fatal one, and nothing is persisted after a fatal one. */
  ghost predicate ExitInv(s: State) {
    && (FinalPersisted in s.log ==> s.processor.Exited?)
    && (FlagRead(true) in s.log ==> s.processor.Exited?)
    && (s.processor.Exited? ==> (FinalPersisted in s.log <==> FlagRead(true) !in s.log))
    && (forall i, j :: 0 <= i < j < |s.log| && s.log[i] == FlagRead(true) ==> !Persist(s.log[j]))
  }

  /** Logging an event that is no final persist and no fatal reading. */
  lemma LogKeepsExit(s: State, e: Event)
    requires ExitInv(s) && e != FinalPersisted && e != FlagRead(true)
    requires e.LoopPersisted? ==> !s.processor.Exited?
    ensures ExitInv(Log(s, e))
    ensures FlagRead(true) in Log(s, e).log <==> FlagRead(true) in s.log
  {
    var log := s.log + [e];
    assert forall i :: 0 <= i < |s.log| ==> log[i] == s.log[i] && s.log[i] in s.log;
  }

  lemma ExitKeepsExit(s: State, e: Event)
    requires ExitInv(s) && !s.processor.Exited? && (e == FinalPersisted || e == FlagRead(true))
    ensures ExitInv(Exit(Log(s, e)))
  {
    var log := s.log + [e];
    assert log[|s.log|] == e;
    assert forall i :: 0 <= i < |s.log| ==> log[i] == s.log[i] && s.log[i] in s.log;
  }

  lemma StepKeepsExitInv(s: State, step: Step)
    requires ExitInv(s) && Enabled(s, step)
    ensures ExitInv(Apply(s, step))
  {
    hide Persist;
    match step
    case ReceiveUpdate => LogKeepsExit(s, WriteStarted(s.k + 1));
    case Acknowledge => LogKeepsExit(s, Acked(s.k));
    case SetFatal => LogKeepsExit(s, FatalSet);
    case BeginPass => LogKeepsExit(s, PassBegan);
    case ReadFlag => if s.fatal { ExitKeepsExit(s, FlagRead(true)); } else { LogKeepsExit(s, FlagRead(false)); }
    case NotifyWaiters(repersist, persistOk) =>
      LogKeepsExit(s, PassEnded);
      var s' := Log(s, PassEnded).(answered := s.answered + s.held, held := {}, processor := Selecting);
      LogKeepsExit(s', LoopPersisted);
      ExitKeepsExit(Log(s', LoopPersisted), FinalPersisted);
    case ProcessorShutdown => ExitKeepsExit(s, FinalPersisted);
    case _ =>
  }

  lemma {:induction false} RunKeepsExitInv(s: State, steps: seq<Step>, s': State)
    requires ExitInv(s) && Run(s, steps, s')
    ensures ExitInv(s')
    decreases |steps|
  {
    hide ExitInv;
    if steps != [] {
      StepKeepsExitInv(s, steps[0]);
      RunKeepsExitInv(Apply(s, steps[0]), steps[1..], s');
    }
  }

  /**
   * In every run: once the processor has exited, the manager was persisted one
   * last time exactly when no pass read the flag as fatal, whatever the flag is
   * by then; and nothing is ever persisted after a pass that did.
   */
  lemma FinalPersistIff(steps: seq<Step>, s: State)
    requires Run(INIT, steps, s)
    ensures s.processor.Exited? ==> (FinalPersisted in s.log <==> FlagRead(true) !in s.log)
    ensures forall i, j :: 0 <= i < j < |s.log| && s.log[i] == FlagRead(true) ==>
              !s.log[j].LoopPersisted? && !s.log[j].FinalPersisted?
  {
    assert ExitInv(INIT);
    RunKeepsExitInv(INIT, steps, s);
  }

  /** So the shutdown branch persists the manager even with the flag set, if no pass has read it. */
  lemma ShutdownPersistsDespiteFatal()
    ensures exists steps, s :: Run(INIT, steps, s) && s.fatal && s.log == [FatalSet, FinalPersisted]
  {
    var steps := [SetFatal, ProcessorShutdown];
    var s1 := Apply(INIT, SetFatal);
    var s2 := Apply(s1, ProcessorShutdown);
    assert steps[1..] == [ProcessorShutdown] && steps[1..][1..] == [];
    assert Run(s1, steps[1..], s2);
    assert Run(INIT, steps, s2);
  }
}
