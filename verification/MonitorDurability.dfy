/**
 * Durability of channel monitors over whole runs: the serial persister writes
 * each version to two stores with retries, acknowledges it only after both
 * succeed, may crash anywhere, and reconciles the stores on boot
 * (lexe-ln/src/channel_monitor.rs, node/src/persister.rs).
 */
module MonitorDurability {
  import opened Wrappers
  import Rec = MonitorReconcile

  type Chan = string
  type Versions = map<Chan, nat>

  /** A monitor version handed over by the chain monitor. */
  datatype Update = Update(chan: Chan, ver: nat)

  /** One of the two concurrent upserts of the current update. */
  datatype Leg = Trying(failures: nat) | Succeeded | GaveUp

  datatype Mode =
    | Down
    | Booting(todo: set<Chan>)
    /** The queue's head is being persisted when `started`. */
    | Up(queue: seq<Update>, started: bool, g: Leg, l: Leg)

  /**
   * `acked` is the last version acknowledged per channel. `settled` is what
   * both stores held before the update in flight; `inflight` is that update,
   * or the one that was in flight at the last crash. `strays` are the Lexe
   * writes that were given up as failed and may still land before the next
   * boot; `stale` says that one has landed since.
   */
  datatype State = State(
    google: Versions,
    lexe: Versions,
    mode: Mode,
    acked: Versions,
    settled: Versions,
    inflight: Option<Update>,
    strays: set<Update>,
    stale: bool)

  datatype Step =
    | Hand(u: Update)
    | Start
    | GoogleTry(ok: bool, effect: bool)
    | LexeTry(ok: bool, effect: bool)
    | LexeTokenFails
    | LexeLands(u: Update)
    | Ack
    | Crash(googleLands: bool, lexeLands: bool)
    | Boot
    | BootFix(chan: Chan, ok: bool, effect: bool)
    | BootDone

  function Get(m: Versions, c: Chan): Option<nat> {
    if c in m then Some(m[c]) else None
  }

  function AfterFailure(n: nat): Leg {
    if n >= Rec.IMPORTANT_PERSIST_RETRIES then GaveUp else Trying(n + 1)
  }

  predicate Busy(s: State) { s.mode.Up? && s.mode.started && s.mode.queue != [] }

  /** The chain monitor hands over versions of one channel in increasing order, above what was recovered. */
  predicate Increases(s: State, u: Update)
    requires s.mode.Up?
  {
    && (u.chan in s.settled ==> s.settled[u.chan] < u.ver)
    && forall i :: 0 <= i < |s.mode.queue| && s.mode.queue[i].chan == u.chan ==> s.mode.queue[i].ver < u.ver
  }

  predicate Enabled(s: State, step: Step) {
    match step
    case Hand(u) => s.mode.Up? && Increases(s, u)
    case Start => s.mode.Up? && !s.mode.started && s.mode.queue != []
    case GoogleTry(ok, effect) =>
      // A success took effect; a failed Drive create did not; a failed update may have.
      Busy(s) && s.mode.g.Trying? && (ok ==> effect) && (!ok && s.mode.queue[0].chan !in s.google ==> !effect)
    case LexeTry(ok, effect) => Busy(s) && s.mode.l.Trying? && (ok ==> effect)
    case LexeTokenFails => Busy(s) && s.mode.l == Trying(0)
    case LexeLands(u) => !s.mode.Booting? && u in s.strays
    case Ack => Busy(s) && s.mode.g.Succeeded? && s.mode.l.Succeeded?
    case Crash(_, _) => !s.mode.Down?
    case Boot => s.mode.Down?
    case BootFix(c, ok, effect) => s.mode.Booting? && c in s.mode.todo && (ok ==> effect)
    case BootDone => s.mode.Booting? && s.mode.todo == {}
  }

  /** The write of the queue's head to a store, if it takes effect. */
  function Put(m: Versions, u: Update, effect: bool): Versions {
    if effect then m[u.chan := u.ver] else m
  }

  function Apply(s: State, step: Step): State
    requires Enabled(s, step)
  {
    match step
    case Hand(u) => s.(mode := s.mode.(queue := s.mode.queue + [u]))
    case Start => s.(mode := s.mode.(started := true, g := Trying(0), l := Trying(0)),
        inflight := Some(s.mode.queue[0]))
    case GoogleTry(ok, effect) =>
      s.(google := Put(s.google, s.mode.queue[0], effect),
         mode := s.mode.(g := if ok then Succeeded else AfterFailure(s.mode.g.failures)))
    case LexeTry(ok, effect) =>
      s.(lexe := Put(s.lexe, s.mode.queue[0], effect),
         mode := s.mode.(l := if ok then Succeeded else AfterFailure(s.mode.l.failures)),
         strays := if effect then s.strays else s.strays + {s.mode.queue[0]})
    case LexeTokenFails => s.(mode := s.mode.(l := GaveUp))
    case LexeLands(u) => s.(lexe := s.lexe[u.chan := u.ver], strays := s.strays - {u}, stale := true)
    case Ack =>
      var u := s.mode.queue[0];
      s.(mode := s.mode.(queue := s.mode.queue[1..], started := false),
         acked := s.acked[u.chan := u.ver], settled := s.settled[u.chan := u.ver], inflight := None)
    case Crash(googleLands, lexeLands) =>
      // A write that was on its way lands before the next boot or never.
      if !Busy(s) then s.(mode := Down)
      else
        var u := s.mode.queue[0];
        s.(google := Put(s.google, u, googleLands && s.mode.g.Trying?),
           lexe := Put(s.lexe, u, lexeLands && s.mode.l.Trying?), mode := Down)
    case Boot => s.(mode := Booting(s.google.Keys + s.lexe.Keys), strays := {})
    case BootFix(c, ok, effect) =>
      var s' := if effect then FixChannel(s, c) else s;
      s'.(mode := if ok then Booting(s.mode.todo - {c}) else Down)
    case BootDone =>
      s.(mode := Up([], false, Trying(0), Trying(0)), settled := s.google, inflight := None, stale := false)
  }

  /** Google's version wins; a channel that only Lexe has is restored to Google. */
  function FixChannel(s: State, c: Chan): State
  {
    if c in s.google then s.(lexe := s.lexe[c := s.google[c]])
    else if c in s.lexe then s.(google := s.google[c := s.lexe[c]])
    else s
  }

  // --- The invariant --- //

  /** A store holds the settled version of the channel, or the one in flight. */
  predicate Holds(s: State, m: Versions, c: Chan) {
    Get(m, c) == Get(s.settled, c) ||
    (s.inflight.Some? && s.inflight.value.chan == c && Get(m, c) == Some(s.inflight.value.ver))
  }

  /** Lexe may also have fallen back behind the settled version, once a stray has landed. */
  predicate LexeHolds(s: State, c: Chan) {
    Holds(s, s.lexe, c) || (s.stale && c in s.settled && c in s.lexe && s.lexe[c] <= s.settled[c])
  }

  ghost predicate StoresOk(s: State) {
    forall c :: Holds(s, s.google, c) && LexeHolds(s, c)
  }

  ghost predicate StraysOld(s: State) {
    forall u :: u in s.strays ==> s.inflight == Some(u) || (u.chan in s.settled && u.ver <= s.settled[u.chan])
  }

  ghost predicate AckedSettled(s: State) {
    forall c :: c in s.acked ==> c in s.settled && s.acked[c] <= s.settled[c]
  }

  predicate InflightNewer(s: State) {
    s.inflight.Some? && s.inflight.value.chan in s.settled ==> s.settled[s.inflight.value.chan] < s.inflight.value.ver
  }

  ghost predicate QueueIncreasing(q: seq<Update>, settled: Versions) {
    && (forall i, j :: 0 <= i < j < |q| && q[i].chan == q[j].chan ==> q[i].ver < q[j].ver)
    && (forall i :: 0 <= i < |q| && q[i].chan in settled ==> settled[q[i].chan] < q[i].ver)
  }

  ghost predicate ModeOk(s: State) {
    match s.mode
    case Down => true
    case Booting(todo) =>
      && s.strays == {}
      && forall c :: c in s.google.Keys + s.lexe.Keys && c !in todo ==> Get(s.google, c) == Get(s.lexe, c)
    case Up(queue, started, g, l) =>
      && QueueIncreasing(queue, s.settled)
      && (if started
          then && queue != [] && s.inflight == Some(queue[0])
               && (g.Succeeded? && !l.GaveUp? ==> Get(s.google, queue[0].chan) == Some(queue[0].ver))
               && (l.Succeeded? ==> queue[0].chan in s.lexe && (s.stale || s.lexe[queue[0].chan] == queue[0].ver))
          else s.inflight.None?)
  }

  ghost predicate Inv(s: State) {
    StoresOk(s) && AckedSettled(s) && InflightNewer(s) && StraysOld(s) && ModeOk(s)
  }

  ghost predicate Init(s: State) {
    s.mode.Down? && s.google == s.lexe == s.settled && s.inflight.None? && s.acked == map[] &&
        s.strays == {} && !s.stale
  }

  // --- Every step keeps it --- //

  lemma TryKeeps(s: State, step: Step)
    requires Inv(s) && Enabled(s, step) && (step.GoogleTry? || step.LexeTry? || step.LexeTokenFails? || step.LexeLands?)
    ensures Inv(Apply(s, step))
  {
    var s' := Apply(s, step);
    forall c ensures Holds(s', s'.google, c) && LexeHolds(s', c) {
      assert Holds(s, s.google, c) && LexeHolds(s, c);
    }
  }

  lemma HandKeeps(s: State, u: Update)
    requires Inv(s) && Enabled(s, Hand(u))
    ensures Inv(Apply(s, Hand(u)))
  {
    var s' := Apply(s, Hand(u));
    forall c ensures Holds(s', s'.google, c) && LexeHolds(s', c) {
      assert Holds(s, s.google, c) && LexeHolds(s, c);
    }
  }

  lemma StartKeeps(s: State)
    requires Inv(s) && Enabled(s, Start)
    ensures Inv(Apply(s, Start))
  {
    var s' := Apply(s, Start);
    forall c ensures Holds(s', s'.google, c) && LexeHolds(s', c) {
      assert Holds(s, s.google, c) && LexeHolds(s, c);
    }
  }

  lemma AckKeeps(s: State)
    requires Inv(s) && Enabled(s, Ack)
    ensures Inv(Apply(s, Ack))
  {
    var s', u := Apply(s, Ack), s.mode.queue[0];
    forall c ensures Holds(s', s'.google, c) && LexeHolds(s', c) {
      assert Holds(s, s.google, c) && LexeHolds(s, c);
    }
    var q' := s'.mode.queue;
    assert forall i :: 0 <= i < |q'| ==> q'[i] == s.mode.queue[i + 1];
    assert forall i :: 0 <= i < |q'| && q'[i].chan == u.chan ==> u.ver < q'[i].ver;
  }

  lemma CrashKeeps(s: State, googleLands: bool, lexeLands: bool)
    requires Inv(s) && Enabled(s, Crash(googleLands, lexeLands))
    ensures Inv(Apply(s, Crash(googleLands, lexeLands)))
  {
    var s' := Apply(s, Crash(googleLands, lexeLands));
    assert s' == s.(google := s'.google, lexe := s'.lexe, mode := Down);
    forall c ensures Holds(s', s'.google, c) && LexeHolds(s', c) {
      assert Holds(s, s.google, c) && LexeHolds(s, c);
    }
  }

  /** The fix touches one channel, and makes the stores agree on it. */
  lemma FixGets(s: State, c: Chan, d: Chan)
    ensures var t := FixChannel(s, c);
            && t.settled == s.settled && t.inflight == s.inflight && t.stale == s.stale
            && (if d != c then Get(t.google, d) == Get(s.google, d) && Get(t.lexe, d) == Get(s.lexe, d)
                else Get(t.google, c) == Get(t.lexe, c) == if c in s.google then Get(s.google, c) else Get(s.lexe, c))
  {}

  lemma HoldsIs(s: State, c: Chan)
    ensures LexeHolds(s, c) <==>
              || Holds(s, s.lexe, c)
              || (s.stale && Get(s.settled, c).Some? && Get(s.lexe, c).Some? &&
                  Get(s.lexe, c).value <= Get(s.settled, c).value)
    ensures Get(s.google, c).Some? <==> c in s.google
  {}

  lemma FixHolds(s: State, c: Chan, d: Chan)
    requires Holds(s, s.google, d) && LexeHolds(s, d)
    ensures Holds(s, FixChannel(s, c).google, d) && LexeHolds(FixChannel(s, c), d)
    ensures Get(FixChannel(s, c).google, c) == Get(FixChannel(s, c).lexe, c)
    ensures d != c ==>
              Get(FixChannel(s, c).google, d) == Get(s.google, d) && Get(FixChannel(s, c).lexe, d) == Get(s.lexe, d)
  {
    hide FixChannel, Get, LexeHolds;
    FixGets(s, c, d);
    FixGets(s, c, c);
    HoldsIs(s, d);
    HoldsIs(FixChannel(s, c), d);
  }

  lemma FixFrame(s: State, c: Chan)
    ensures var t := FixChannel(s, c);
            t == s.(google := t.google, lexe := t.lexe) && t.google.Keys + t.lexe.Keys == s.google.Keys + s.lexe.Keys
  {}

  lemma BootFixKeeps(s: State, c: Chan, ok: bool, effect: bool)
    requires Inv(s) && Enabled(s, BootFix(c, ok, effect))
    ensures Inv(Apply(s, BootFix(c, ok, effect)))
  {
    hide FixChannel, Holds, LexeHolds;
    var t := if effect then FixChannel(s, c) else s;
    var s' := t.(mode := if ok then Booting(s.mode.todo - {c}) else Down);
    assert s' == Apply(s, BootFix(c, ok, effect));
    FixFrame(s, c);
    forall d
      ensures Holds(s', s'.google, d) && LexeHolds(s', d)
      ensures ok && d in s'.google.Keys + s'.lexe.Keys && d !in s'.mode.todo ==> Get(s'.google, d) == Get(s'.lexe, d)
    {
      FixHolds(s, c, d);
      SameHolds(s, t, s', d);
    }
  }

  lemma SameHolds(s: State, t: State, s': State, d: Chan)
    requires t == s.(google := t.google, lexe := t.lexe) && s' == t.(mode := s'.mode)
    ensures Holds(s, t.google, d) <==> Holds(s', s'.google, d)
    ensures LexeHolds(t, d) <==> LexeHolds(s', d)
  {}

  lemma BootKeeps(s: State)
    requires Inv(s) && Enabled(s, Boot)
    ensures Inv(Apply(s, Boot))
  {
    var s' := Apply(s, Boot);
    forall c ensures Holds(s', s'.google, c) && LexeHolds(s', c) {
      assert Holds(s, s.google, c) && LexeHolds(s, c);
    }
  }

  lemma BootDoneKeeps(s: State)
    requires Inv(s) && Enabled(s, BootDone)
    ensures Inv(Apply(s, BootDone))
  {
    var s' := Apply(s, BootDone);
    forall c ensures Holds(s', s'.google, c) && LexeHolds(s', c) {
    }
    forall c | c in s'.acked ensures c in s'.settled && s'.acked[c] <= s'.settled[c] {
      RecoveredNotOlder(s, c);
    }
  }

  lemma StepKeepsInv(s: State, step: Step)
    requires Inv(s) && Enabled(s, step)
    ensures Inv(Apply(s, step))
  {
    match step
    case Hand(u) => HandKeeps(s, u);
    case Start => StartKeeps(s);
    case GoogleTry(_, _) => TryKeeps(s, step);
    case LexeTry(_, _) => TryKeeps(s, step);
    case LexeTokenFails => TryKeeps(s, step);
    case LexeLands(_) => TryKeeps(s, step);
    case Ack => AckKeeps(s);
    case Crash(a, b) => CrashKeeps(s, a, b);
    case Boot => BootKeeps(s);
    case BootFix(c, ok, effect) => BootFixKeeps(s, c, ok, effect);
    case BootDone => BootDoneKeeps(s);
  }

  // --- Safety over whole runs --- //

  ghost predicate Run(s: State, steps: seq<Step>, s': State)
    decreases |steps|
  {
    if steps == [] then s' == s
    else Enabled(s, steps[0]) && Run(Apply(s, steps[0]), steps[1..], s')
  }

  lemma {:induction false} RunKeepsInv(s: State, steps: seq<Step>, s': State)
    requires Inv(s) && Run(s, steps, s')
    ensures Inv(s')
    decreases |steps|
  {
    if steps != [] {
      StepKeepsInv(s, steps[0]);
      RunKeepsInv(Apply(s, steps[0]), steps[1..], s');
    }
  }

  lemma RecoveredNotOlder(s: State, c: Chan)
    requires Inv(s) && c in s.acked
    ensures c in s.google && s.acked[c] <= s.google[c]
  {
    assert Holds(s, s.google, c);
  }

  /**
   * In every run, whatever was acknowledged survives: when a boot completes,
   * both stores agree, and the monitor recovered for a channel is the last
   * settled version or the one in flight at the crash, never older than the
   * last version acknowledged. Lexe writes that failed may land at any time
   * before the boot.
   */
  lemma RecoveryIsDurable(s0: State, steps: seq<Step>, s: State, c: Chan)
    requires Init(s0) && Run(s0, steps, s) && Enabled(s, BootDone)
    ensures Get(s.google, c) == Get(s.lexe, c)
    ensures Get(s.google, c) == Get(s.settled, c) ||
            (s.inflight.Some? && s.inflight.value.chan == c && Get(s.google, c) == Some(s.inflight.value.ver))
    ensures c in s.acked ==> c in s.google && s.acked[c] <= s.google[c]
  {
    RunKeepsInv(s0, steps, s);
    assert Holds(s, s.google, c);
    if c in s.acked { RecoveredNotOlder(s, c); }
  }

  /**
   * At every moment of every run Google alone would recover an acknowledged version, and so would Lexe
   * if no stray has landed.
   */
  lemma AckedInBothStores(s0: State, steps: seq<Step>, s: State, c: Chan)
    requires Init(s0) && Run(s0, steps, s) && c in s.acked
    ensures c in s.google && s.acked[c] <= s.google[c]
    ensures c in s.lexe && (!s.stale ==> s.acked[c] <= s.lexe[c])
  {
    RunKeepsInv(s0, steps, s);
    assert Holds(s, s.google, c) && LexeHolds(s, c);
  }

  lemma StepAckedMonotone(s: State, step: Step, c: Chan)
    requires Inv(s) && Enabled(s, step) && c in s.acked
    ensures c in Apply(s, step).acked && s.acked[c] <= Apply(s, step).acked[c]
  {}

  /** Over any run, through any number of crashes and boots, the recovered version never falls behind an earlier ack. */
  lemma {:induction false} NoRollback(s: State, steps: seq<Step>, s': State, c: Chan)
    requires Inv(s) && Run(s, steps, s') && c in s.acked
    ensures c in s'.acked && s.acked[c] <= s'.acked[c]
    ensures c in s'.google && s.acked[c] <= s'.google[c]
    decreases |steps|
  {
    if steps == [] {
      RecoveredNotOlder(s, c);
    } else {
      StepKeepsInv(s, steps[0]);
      StepAckedMonotone(s, steps[0], c);
      NoRollback(Apply(s, steps[0]), steps[1..], s', c);
    }
  }

  // --- Nothing handed over is lost or reordered --- //

  /** The updates handed over, in order. */
  function Handed(steps: seq<Step>): seq<Update> {
    if steps == [] then []
    else (if steps[0].Hand? then [steps[0].u] else []) + Handed(steps[1..])
  }

  /** The updates acknowledged along a run: at each acknowledgement, the head of the queue. */
  ghost function AckedAlong(s: State, steps: seq<Step>): seq<Update>
    decreases |steps|
  {
    if steps == [] || !Enabled(s, steps[0]) then []
    else (if steps[0].Ack? then [s.mode.queue[0]] else []) + AckedAlong(Apply(s, steps[0]), steps[1..])
  }

  /** The last version per channel after these acknowledgements. */
  function Record(acked: Versions, us: seq<Update>): Versions
    decreases |us|
  {
    if us == [] then acked else Record(acked[us[0].chan := us[0].ver], us[1..])
  }

  lemma StepConserves(s: State, step: Step)
    requires s.mode.Up? && Enabled(s, step) && !step.Crash?
    ensures var s' := Apply(s, step);
            && s'.mode.Up?
            && (step.Ack? ==> s.mode.queue != [])
            && s.mode.queue + (if step.Hand? then [step.u] else []) ==
               (if step.Ack? then [s.mode.queue[0]] else []) + s'.mode.queue
  {}

  /**
   * Between a boot and the next crash, the queue at the start and the updates
   * handed over are the updates acknowledged, in order, and the queue at the end.
   */
  lemma {:induction false} QueueConserved(s: State, steps: seq<Step>, s': State)
    requires s.mode.Up? && Run(s, steps, s') && forall i :: 0 <= i < |steps| ==> !steps[i].Crash?
    ensures s'.mode.Up? && s.mode.queue + Handed(steps) == AckedAlong(s, steps) + s'.mode.queue
    decreases |steps|
  {
    hide Apply, Enabled;
    if steps != [] {
      var t := Apply(s, steps[0]);
      StepConserves(s, steps[0]);
      QueueConserved(t, steps[1..], s');
      var now := if steps[0].Ack? then [s.mode.queue[0]] else [];
      var handed := if steps[0].Hand? then [steps[0].u] else [];
      Regroup(s.mode.queue, handed, Handed(steps[1..]), now, t.mode.queue, AckedAlong(t, steps[1..]), s'.mode.queue);
    }
  }

  lemma Regroup(q: seq<Update>, handed: seq<Update>, later: seq<Update>, now: seq<Update>, mid: seq<Update>,
                acked: seq<Update>, end: seq<Update>)
    requires q + handed == now + mid && mid + later == acked + end
    ensures q + (handed + later) == (now + acked) + end
  {
    assert q + (handed + later) == (q + handed) + later;
    assert (now + mid) + later == now + (mid + later);
    assert now + (acked + end) == (now + acked) + end;
  }

  /** What counts as acknowledged is exactly what was. */
  lemma {:induction false} AcksRecorded(s: State, steps: seq<Step>, s': State)
    requires Run(s, steps, s')
    ensures s'.acked == Record(s.acked, AckedAlong(s, steps))
    decreases |steps|
  {
    hide Apply, Enabled;
    if steps != [] {
      var t := Apply(s, steps[0]);
      StepRecords(s, steps[0]);
      AcksRecorded(t, steps[1..], s');
      var rest := AckedAlong(t, steps[1..]);
      if steps[0].Ack? {
        assert ([s.mode.queue[0]] + rest)[1..] == rest;
      } else {
        assert [] + rest == rest;
      }
    }
  }

  lemma StepRecords(s: State, step: Step)
    requires Enabled(s, step)
    ensures step.Ack? ==>
              && s.mode.Up? && s.mode.queue != []
              && Apply(s, step).acked == s.acked[s.mode.queue[0].chan := s.mode.queue[0].ver]
    ensures !step.Ack? ==> Apply(s, step).acked == s.acked
  {}

  lemma RunCons(s: State, step: Step, steps: seq<Step>, s': State)
    requires Enabled(s, step) && Run(Apply(s, step), steps, s')
    ensures Run(s, [step] + steps, s')
  {
    assert ([step] + steps)[1..] == steps;
  }

  lemma RunNil(s: State)
    ensures Run(s, [], s)
  {}

  /** When nothing fails, the head of the queue ends up in both stores and acknowledged. */
  lemma HeadIsPersisted(s: State) returns (steps: seq<Step>, s': State)
    requires s.mode.Up? && !s.mode.started && s.mode.queue != []
    ensures var u := s.mode.queue[0];
            && Run(s, steps, s') && s'.mode.Up? && s'.mode.queue == s.mode.queue[1..] && !s'.mode.started
            && s'.google == s.google[u.chan := u.ver] && s'.lexe == s.lexe[u.chan := u.ver]
            && s'.acked == s.acked[u.chan := u.ver]
  {
    hide Run;
    var a := Apply(s, Start);
    var b := Apply(a, GoogleTry(true, true));
    var c := Apply(b, LexeTry(true, true));
    s' := Apply(c, Ack);
    RunNil(s');
    RunCons(c, Ack, [], s');
    steps := [Ack] + [];
    RunCons(b, LexeTry(true, true), steps, s');
    steps := [LexeTry(true, true)] + steps;
    RunCons(a, GoogleTry(true, true), steps, s');
    steps := [GoogleTry(true, true)] + steps;
    RunCons(s, Start, steps, s');
    steps := [Start] + steps;
  }

  /** Each leg is tried once and then retried five times: after `n` failures it is given up exactly if `n` is six. */
  lemma {:induction false} LegGivesUp(s: State, n: nat, google: bool) returns (steps: seq<Step>, s': State)
    requires Busy(s) && n <= Rec.IMPORTANT_PERSIST_RETRIES + 1
    requires if google then s.mode.g == Trying(0) else s.mode.l == Trying(0)
    ensures Run(s, steps, s') && Busy(s') && |steps| == n
    ensures (if google then s'.mode.g else s'.mode.l) ==
            if n <= Rec.IMPORTANT_PERSIST_RETRIES then Trying(n) else GaveUp
  {
    if n == 0 {
      steps, s' := [], s;
    } else {
      var before, t := LegGivesUp(s, n - 1, google);
      var fail := if google then GoogleTry(false, false) else LexeTry(false, false);
      s' := Apply(t, fail);
      steps := before + ([fail] + []);
      RunNil(s');
      RunCons(t, fail, [], s');
      RunConcat(s, before, t, [fail] + [], s');
    }
  }

  /** An update with a leg given up, or refused a token, stays at the head and is never acknowledged in this session. */
  lemma {:induction false} GivenUpIsNotAcked(s: State, steps: seq<Step>, s': State)
    requires Busy(s) && (s.mode.g.GaveUp? || s.mode.l.GaveUp? || (steps != [] && steps[0].LexeTokenFails?))
    requires Run(s, steps, s') && forall i :: 0 <= i < |steps| ==> !steps[i].Crash?
    ensures AckedAlong(s, steps) == [] && Busy(s') && s'.mode.queue[0] == s.mode.queue[0]
    decreases |steps|
  {
    if steps != [] {
      GivenUpIsNotAcked(Apply(s, steps[0]), steps[1..], s');
    }
  }

  /** A Lexe write that failed without effect can land at any time from then until the next boot. */
  lemma {:induction false} FailedLexeWriteMayLand(s: State, u: Update, steps: seq<Step>, s': State)
    requires u in s.strays || (steps != [] && steps[0] == LexeTry(false, false) && Busy(s) && u == s.mode.queue[0])
    requires Run(s, steps, s') && (forall i :: 0 <= i < |steps| ==> !steps[i].Boot? && steps[i] != LexeLands(u))
    requires !s'.mode.Booting?
    ensures Enabled(s', LexeLands(u)) && Apply(s', LexeLands(u)).lexe == s'.lexe[u.chan := u.ver]
    decreases |steps|
  {
    if steps != [] { FailedLexeWriteMayLand(Apply(s, steps[0]), u, steps[1..], s'); }
  }

  /** A crash or a failed fix leaves nothing to do but to boot again. */
  lemma OnlyBootIsLeft(s: State, step: Step, next: Step)
    requires Enabled(s, step) && (step.Crash? || (step.BootFix? && !step.ok))
    requires Enabled(Apply(s, step), next)
    ensures next.Boot? || next.LexeLands?
  {}

  lemma {:induction false} RunConcat(s: State, a: seq<Step>, t: State, b: seq<Step>, u: State)
    requires Run(s, a, t) && Run(t, b, u)
    ensures Run(s, a + b, u)
    decreases |a|
  {
    if a == [] {
      assert a + b == b;
    } else {
      RunConcat(Apply(s, a[0]), a[1..], t, b, u);
      assert (a + b)[1..] == a[1..] + b;
    }
  }

  /** When nothing fails, a boot gets through all its fixes. */
  lemma {:induction false} BootCompletes(s: State) returns (steps: seq<Step>, s': State)
    requires s.mode.Booting?
    ensures Run(s, steps, s') && s'.mode == Booting({}) && forall i :: 0 <= i < |steps| ==> steps[i].BootFix?
    decreases if s.mode.Booting? then s.mode.todo else {}
  {
    hide Run;
    if s.mode.todo == {} {
      steps, s' := [], s;
      RunNil(s);
    } else {
      var c :| c in s.mode.todo;
      var fix := BootFix(c, true, true);
      var rest, t := BootCompletes(Apply(s, fix));
      s' := t;
      RunCons(s, fix, rest, s');
      steps := [fix] + rest;
    }
  }

  // --- Boot steps compute the merge --- //

  lemma FixKeepsMerge(s: State, c: Chan)
    ensures Rec.Merge(FixChannel(s, c).google, FixChannel(s, c).lexe) == Rec.Merge(s.google, s.lexe)
  {
    if c in s.google {
      assert s.lexe[c := s.google[c]] + s.google == s.lexe + s.google;
    } else if c in s.lexe {
      assert s.lexe + s.google[c := s.lexe[c]] == s.lexe + s.google;
    }
  }

  /** However the boot's fixes are ordered or interrupted, what they aim at is the merge of the stores at the start. */
  lemma {:induction false} BootReachesMerge(s: State, steps: seq<Step>, s': State)
    requires Inv(s) && Run(s, steps, s') && forall i :: 0 <= i < |steps| ==> steps[i].BootFix? || steps[i].Boot?
    ensures Rec.Merge(s'.google, s'.lexe) == Rec.Merge(s.google, s.lexe)
    ensures s'.mode == Booting({}) ==> s'.google == s'.lexe == Rec.Merge(s.google, s.lexe)
    decreases |steps|
  {
    if steps == [] {
      if s.mode == Booting({}) {
        SameGets(s.google, s.lexe);
      }
    } else {
      StepKeepsInv(s, steps[0]);
      if steps[0].BootFix? { FixKeepsMerge(s, steps[0].chan); }
      BootReachesMerge(Apply(s, steps[0]), steps[1..], s');
    }
  }

  lemma SameGets(a: Versions, b: Versions)
    requires forall c :: Get(a, c) == Get(b, c)
    ensures a == b
    ensures Rec.Merge(a, b) == a
  {
    forall c ensures (c in a <==> c in b) && (c in a ==> a[c] == b[c]) {
      assert Get(a, c) == Get(b, c);
    }
  }
}
