/**
 * The durability machine where a failed Drive update may still land later in
 * the same session or before the next boot, and which of those landings are
 * harmless (node/src/persister.rs, `upsert_to_gdrive_and_lexe`).
 */
module LateDriveWrites {
  import opened Wrappers
  import opened MonitorDurability

  /** `lost` are the Drive updates that were given up as failed and have had no effect so far. */
  datatype LateState = LateState(s: State, lost: set<Update>)

  datatype LateStep = Normal(step: Step) | Land(u: Update)

  predicate EnabledLate(x: LateState, step: LateStep) {
    match step
    case Normal(st) => Enabled(x.s, st)
    case Land(u) => !x.s.mode.Booting? && u in x.lost
  }

  /** A failed create has no effect, ever; a failed update may get lost on the way. */
  function LostAfter(x: LateState, st: Step): set<Update>
    requires Enabled(x.s, st)
  {
    if st == GoogleTry(false, false) && x.s.mode.queue[0].chan in x.s.google then x.lost + {x.s.mode.queue[0]}
    else if st.Boot? then {} else x.lost
  }

  function Landed(s: State, u: Update): State { s.(google := s.google[u.chan := u.ver]) }

  function ApplyLate(x: LateState, step: LateStep): LateState
    requires EnabledLate(x, step)
  {
    match step
    case Normal(st) => LateState(Apply(x.s, st), LostAfter(x, st))
    case Land(u) => x.(s := Landed(x.s, u))
  }

  ghost predicate LateRun(x: LateState, steps: seq<LateStep>, x': LateState)
    decreases |steps|
  {
    if steps == [] then x' == x
    else EnabledLate(x, steps[0]) && LateRun(ApplyLate(x, steps[0]), steps[1..], x')
  }

  // --- Which landings are harmless --- //

  /** The update in progress is counted as stored in Drive and may still be acknowledged. */
  predicate CountsOnDrive(s: State) { Busy(s) && s.mode.g.Succeeded? && !s.mode.l.GaveUp? }

  /**
   * Not older than what was acknowledged for the channel, nor than the update
   * of the channel that already counts as stored.
   */
  predicate SafeLanding(s: State, u: Update) {
    && (u.chan in s.acked ==> s.acked[u.chan] <= u.ver)
    && (CountsOnDrive(s) && s.mode.queue[0].chan == u.chan ==> s.mode.queue[0].ver <= u.ver)
  }

  /** A run in which every landing is safe at the moment it happens. */
  ghost predicate SafeRun(x: LateState, steps: seq<LateStep>, x': LateState)
    decreases |steps|
  {
    if steps == [] then x' == x
    else
      && EnabledLate(x, steps[0])
      && (steps[0].Land? ==> SafeLanding(x.s, steps[0].u))
      && SafeRun(ApplyLate(x, steps[0]), steps[1..], x')
  }

  /**
   * A lost update is the one in flight, or its channel has since been acknowledged and settled at its
   * version or above.
   */
  predicate LostOld(s: State, u: Update) {
    || s.inflight == Some(u)
    || (u.chan in s.acked && u.ver <= s.acked[u.chan] && Get(s.settled, u.chan) == Some(s.acked[u.chan]))
  }

  ghost predicate LateInv(x: LateState) {
    && Inv(x.s)
    && (forall u :: u in x.lost ==> LostOld(x.s, u))
    && (x.s.mode.Booting? ==> x.lost == {})
  }

  lemma LostKeeps(x: LateState, st: Step, u: Update)
    requires LateInv(x) && Enabled(x.s, st) && u in LostAfter(x, st)
    ensures LostOld(Apply(x.s, st), u)
  {
    assert u in x.lost ==> LostOld(x.s, u);
  }

  lemma LandKeeps(x: LateState, u: Update)
    requires LateInv(x) && EnabledLate(x, Land(u)) && SafeLanding(x.s, u)
    ensures Inv(Landed(x.s, u))
  {
    var s' := Landed(x.s, u);
    assert LostOld(x.s, u);
    forall c ensures Holds(s', s'.google, c) && LexeHolds(s', c) {
      assert Holds(x.s, x.s.google, c) && LexeHolds(x.s, c);
    }
  }

  lemma LateStepKeepsInv(x: LateState, step: LateStep)
    requires LateInv(x) && EnabledLate(x, step) && (step.Land? ==> SafeLanding(x.s, step.u))
    ensures LateInv(ApplyLate(x, step))
  {
    hide Inv, Apply, Enabled, LostOld, SafeLanding;
    var x' := ApplyLate(x, step);
    match step
    case Normal(st) =>
      StepKeepsInv(x.s, st);
      forall u | u in x'.lost ensures LostOld(x'.s, u) { LostKeeps(x, st, u); }
      BootClears(x, st);
    case Land(u) =>
      LandKeeps(x, u);
      forall w | w in x'.lost ensures LostOld(x'.s, w) { SameLostOld(x.s, u, w); }
  }

  lemma SameLostOld(s: State, u: Update, w: Update)
    requires LostOld(s, w)
    ensures LostOld(Landed(s, u), w)
  {}

  lemma BootClears(x: LateState, st: Step)
    requires Enabled(x.s, st) && (x.s.mode.Booting? ==> x.lost == {})
    ensures Apply(x.s, st).mode.Booting? ==> LostAfter(x, st) == {}
  {}

  lemma {:induction false} SafeRunKeepsInv(x: LateState, steps: seq<LateStep>, x': LateState)
    requires LateInv(x) && SafeRun(x, steps, x')
    ensures LateInv(x')
    decreases |steps|
  {
    hide LateInv;
    if steps != [] {
      LateStepKeepsInv(x, steps[0]);
      SafeRunKeepsInv(ApplyLate(x, steps[0]), steps[1..], x');
    }
  }

  /** The boot is about to complete with a channel older than acknowledged. */
  ghost predicate RolledBack(x: LateState) {
    x.s.mode == Booting({}) && exists c :: c in x.s.acked && (c !in x.s.google || x.s.google[c] < x.s.acked[c])
  }

  /** Recovery is durable in every run whose late Drive landings are all safe. */
  lemma SafeRunsAreDurable(s0: State, steps: seq<LateStep>, x: LateState, c: Chan)
    requires Init(s0) && SafeRun(LateState(s0, {}), steps, x)
    ensures !RolledBack(x)
    ensures c in x.s.acked ==> c in x.s.google && x.s.acked[c] <= x.s.google[c]
    ensures x.s.mode == Booting({}) ==> Get(x.s.google, c) == Get(x.s.lexe, c)
  {
    SafeRunKeepsInv(LateState(s0, {}), steps, x);
    NotRolledBack(x);
    if c in x.s.acked { RecoveredNotOlder(x.s, c); }
  }

  lemma NotRolledBack(x: LateState)
    requires LateInv(x)
    ensures !RolledBack(x)
  {
    forall c | c in x.s.acked ensures c in x.s.google && x.s.acked[c] <= x.s.google[c] {
      RecoveredNotOlder(x.s, c);
    }
  }

  // --- Every other landing can lose an acknowledged version --- //

  /** A run of ordinary steps only. */
  ghost predicate Ordinary(x: LateState, steps: seq<LateStep>, x': LateState) {
    SafeRun(x, steps, x') && forall i :: 0 <= i < |steps| ==> steps[i].Normal?
  }

  lemma Nil(x: LateState)
    ensures Ordinary(x, [], x)
  {}

  lemma Cons(x: LateState, st: Step, steps: seq<LateStep>, z: LateState)
    requires Enabled(x.s, st) && Ordinary(ApplyLate(x, Normal(st)), steps, z)
    ensures Ordinary(x, [Normal(st)] + steps, z)
  {
    var all := [Normal(st)] + steps;
    assert all[1..] == steps;
    forall i | 0 <= i < |all| ensures all[i].Normal? {
      assert i == 0 || all[i] == steps[i - 1];
    }
  }

  /** Google's copy of `c` is behind the acknowledged version. */
  predicate Behind(s: State, c: Chan) { c in s.acked && c in s.google && s.google[c] < s.acked[c] }

  /** The fixes of a boot never touch what Google has. */
  lemma {:induction false} BootLoses(x: LateState, c: Chan) returns (steps: seq<LateStep>, x': LateState)
    requires x.s.mode.Booting? && Behind(x.s, c)
    ensures Ordinary(x, steps, x') && RolledBack(x')
    decreases if x.s.mode.Booting? then x.s.mode.todo else {}
  {
    hide SafeRun;
    if x.s.mode.todo == {} {
      steps, x' := [], x;
      Nil(x);
    } else {
      var d :| d in x.s.mode.todo;
      var st := BootFix(d, true, true);
      var y := ApplyLate(x, Normal(st));
      steps, x' := BootLoses(y, c);
      Cons(x, st, steps, x');
      steps := [Normal(st)] + steps;
    }
  }

  /** Once Google is behind, a crash and a boot lose the acknowledged version. */
  lemma BehindLoses(x: LateState, c: Chan) returns (steps: seq<LateStep>, x': LateState)
    requires !x.s.mode.Booting? && Behind(x.s, c)
    ensures Ordinary(x, steps, x') && RolledBack(x')
  {
    hide SafeRun;
    if x.s.mode.Down? {
      steps, x' := BootLoses(ApplyLate(x, Normal(Boot)), c);
      Cons(x, Boot, steps, x');
      steps := [Normal(Boot)] + steps;
    } else {
      var y := CrashBehind(x, c);
      steps, x' := BootLoses(ApplyLate(y, Normal(Boot)), c);
      Cons(y, Boot, steps, x');
      Cons(x, Crash(false, false), [Normal(Boot)] + steps, x');
      steps := [Normal(Crash(false, false))] + ([Normal(Boot)] + steps);
    }
  }

  lemma CrashBehind(x: LateState, c: Chan) returns (y: LateState)
    requires x.s.mode.Up? && Behind(x.s, c)
    ensures Enabled(x.s, Crash(false, false)) && y == ApplyLate(x, Normal(Crash(false, false)))
    ensures y.s.mode.Down? && Behind(y.s, c)
  {
    y := ApplyLate(x, Normal(Crash(false, false)));
  }

  /** From the acknowledgement of an update that Google no longer holds. */
  lemma AckLoses(x: LateState) returns (steps: seq<LateStep>, x': LateState)
    requires Enabled(x.s, Ack)
    requires var u := x.s.mode.queue[0]; u.chan in x.s.google && x.s.google[u.chan] < u.ver
    ensures Ordinary(x, steps, x') && RolledBack(x')
  {
    hide SafeRun;
    var c := x.s.mode.queue[0].chan;
    var y := ApplyLate(x, Normal(Ack));
    assert Behind(y.s, c);
    steps, x' := BehindLoses(y, c);
    Cons(x, Ack, steps, x');
    steps := [Normal(Ack)] + steps;
  }

  /** The remaining leg succeeds, and the update is acknowledged without Google holding it. */
  lemma CountedLoses(x: LateState) returns (steps: seq<LateStep>, x': LateState)
    requires CountsOnDrive(x.s)
    requires var u := x.s.mode.queue[0]; u.chan in x.s.google && x.s.google[u.chan] < u.ver
    ensures Ordinary(x, steps, x') && RolledBack(x')
  {
    hide SafeRun;
    if x.s.mode.l.Succeeded? {
      steps, x' := AckLoses(x);
    } else {
      var st := LexeTry(true, true);
      steps, x' := AckLoses(ApplyLate(x, Normal(st)));
      Cons(x, st, steps, x');
      steps := [Normal(st)] + steps;
    }
  }

  lemma UnsafeLandingLoses(x: LateState, u: Update) returns (steps: seq<LateStep>, x': LateState)
    requires EnabledLate(x, Land(u)) && !SafeLanding(x.s, u)
    ensures Ordinary(ApplyLate(x, Land(u)), steps, x') && RolledBack(x')
  {
    hide SafeRun;
    var y := ApplyLate(x, Land(u));
    if u.chan in x.s.acked && u.ver < x.s.acked[u.chan] {
      steps, x' := BehindLoses(y, u.chan);
    } else {
      steps, x' := CountedLoses(y);
    }
  }

  /**
   * A landing is harmless exactly when it is safe: no continuation with safe
   * landings rolls an acknowledged version back if it is, and one without any
   * further landing does if it is not.
   */
  lemma LandingSafeIff(x: LateState, u: Update)
    requires LateInv(x) && EnabledLate(x, Land(u))
    ensures SafeLanding(x.s, u) <==>
              forall steps, x' :: SafeRun(ApplyLate(x, Land(u)), steps, x') ==> !RolledBack(x')
    ensures !SafeLanding(x.s, u) ==>
              exists steps, x' :: Ordinary(ApplyLate(x, Land(u)), steps, x') && RolledBack(x')
  {
    hide LateInv, SafeRun, SafeLanding, RolledBack;
    var y := ApplyLate(x, Land(u));
    if SafeLanding(x.s, u) {
      LateStepKeepsInv(x, Land(u));
      forall steps, x' | SafeRun(y, steps, x') ensures !RolledBack(x') {
        SafeRunKeepsInv(y, steps, x');
        NotRolledBack(x');
      }
    } else {
      var steps, x' := UnsafeLandingLoses(x, u);
      assert SafeRun(y, steps, x');
    }
  }

  // --- Such a landing is reachable --- //

  lemma {:induction false} LateRunConcat(x: LateState, a: seq<LateStep>, y: LateState, b: seq<LateStep>, z: LateState)
    requires SafeRun(x, a, y) && LateRun(y, b, z)
    ensures LateRun(x, a + b, z)
    decreases |a|
  {
    if a == [] {
      assert a + b == b;
    } else {
      LateRunConcat(ApplyLate(x, a[0]), a[1..], y, b, z);
      assert (a + b)[1..] == a[1..] + b;
    }
  }

  /** Nothing to persist, and both stores at version `v` of the one channel. */
  predicate IdleAt(x: LateState, v: nat) {
    && x.s.google == x.s.lexe == x.s.settled == map["c" := v]
    && x.s.mode.Up? && x.s.mode.queue == [] && !x.s.mode.started && x.s.inflight.None?
  }

  /** From a started update to its acknowledgement. */
  lemma PersistTail(x: LateState, v: nat) returns (steps: seq<LateStep>, end: LateState)
    requires var m, u := map["c" := v], Update("c", v + 1);
             && x.s.google == x.s.lexe == x.s.settled == m && x.s.inflight == Some(u)
             && x.s.mode.Up? && x.s.mode.queue == [u] && x.s.mode.started && x.s.mode.g.Trying? && x.s.mode.l.Trying?
    ensures Ordinary(x, steps, end) && IdleAt(end, v + 1) && end.lost == x.lost &&
              end.s.acked == x.s.acked["c" := v + 1]
  {
    hide SafeRun;
    assert map["c" := v]["c" := v + 1] == map["c" := v + 1];
    var y := ApplyLate(x, Normal(GoogleTry(true, true)));
    var z := ApplyLate(y, Normal(LexeTry(true, true)));
    end := ApplyLate(z, Normal(Ack));
    Nil(end);
    Cons(z, Ack, [], end);
    Cons(y, LexeTry(true, true), [Normal(Ack)] + [], end);
    steps := [Normal(LexeTry(true, true))] + ([Normal(Ack)] + []);
    Cons(x, GoogleTry(true, true), steps, end);
    steps := [Normal(GoogleTry(true, true))] + steps;
  }

  /** Persisting the next version; with `retry`, its first Drive attempt is lost on the way. */
  lemma PersistNext(x: LateState, v: nat, retry: bool) returns (steps: seq<LateStep>, end: LateState)
    requires IdleAt(x, v)
    ensures SafeRun(x, steps, end) && IdleAt(end, v + 1) && end.s.acked == x.s.acked["c" := v + 1]
    ensures end.lost == if retry then x.lost + {Update("c", v + 1)} else x.lost
  {
    hide SafeRun;
    var u := Update("c", v + 1);
    assert [] + [u] == [u];
    var handed := ApplyLate(x, Normal(Hand(u)));
    var trying := ApplyLate(handed, Normal(Start));
    if retry {
      steps, end := PersistTail(ApplyLate(trying, Normal(GoogleTry(false, false))), v);
      Cons(trying, GoogleTry(false, false), steps, end);
      steps := [Normal(GoogleTry(false, false))] + steps;
    } else {
      steps, end := PersistTail(trying, v);
    }
    Cons(handed, Start, steps, end);
    Cons(x, Hand(u), [Normal(Start)] + steps, end);
    steps := [Normal(Hand(u))] + ([Normal(Start)] + steps);
  }

  /** A first boot of a node whose stores agree. */
  lemma FirstBoot(v: nat) returns (s0: State, steps: seq<LateStep>, idle: LateState)
    ensures Init(s0) && SafeRun(LateState(s0, {}), steps, idle) && IdleAt(idle, v) && idle.s.acked == map[]
  {
    hide SafeRun;
    var m := map["c" := v];
    s0 := State(m, m, Down, map[], m, None, {}, false);
    var x := LateState(s0, {});
    var booting := ApplyLate(x, Normal(Boot));
    var fixed := ApplyLate(booting, Normal(BootFix("c", true, true)));
    assert m["c" := v] == m && fixed.s.mode.todo == {};
    idle := ApplyLate(fixed, Normal(BootDone));
    Nil(idle);
    Cons(fixed, BootDone, [], idle);
    Cons(booting, BootFix("c", true, true), [Normal(BootDone)] + [], idle);
    steps := [Normal(BootFix("c", true, true))] + ([Normal(BootDone)] + []);
    Cons(x, Boot, steps, idle);
    steps := [Normal(Boot)] + steps;
  }

  /** A lost write of version 2 that lands after version 3 was acknowledged wins the boot. */
  lemma LateLandingBreaksDurability()
    ensures exists s0, steps, x :: Init(s0) && LateRun(LateState(s0, {}), steps, x) && RolledBack(x)
  {
    hide SafeRun, LateRun, RolledBack, Init;
    var s0, one, x1 := FirstBoot(1);
    var two, x2 := PersistNext(x1, 1, true);
    var three, x3 := PersistNext(x2, 2, false);
    var u := Update("c", 2);
    var four, x4 := UnsafeLandingLoses(x3, u);
    OrdinaryIsLate(ApplyLate(x3, Land(u)), four, x4);
    LateRunConcat(x2, three, x3, [Land(u)] + four, x4);
    LateRunConcat(x1, two, x2, three + ([Land(u)] + four), x4);
    LateRunConcat(LateState(s0, {}), one, x1, two + (three + ([Land(u)] + four)), x4);
  }

  lemma OrdinaryIsLate(x: LateState, steps: seq<LateStep>, z: LateState)
    requires SafeRun(x, steps, z)
    ensures LateRun(x, steps, z)
  {
    assert LateRun(z, [], z);
    LateRunConcat(x, steps, z, [], z);
    assert steps + [] == steps;
  }
}
