/**
 * Concurrent use of the Google VFS. Every operation is split into lock,
 * lookup, remote call, cache update and unlock steps, any number of tasks
 * interleave under the reader-writer lock, and each run refines a plain map
 * (gdrive/src/gvfs.rs).
 */
module GvfsConcurrency {
  import opened Wrappers
  import opened GvfsFileId
  import opened GoogleVfs

  type Tid = nat

  datatype Op =
    | Get(id: VfsFileId)
    | Create(id: VfsFileId, data: Data)
    | Upsert(id: VfsFileId, data: Data)
    | Delete(id: VfsFileId)
    | Dir(dirname: string)
  {
    predicate Writes() { Create? || Upsert? || Delete? }
  }

  datatype Reply =
    | Found(file: Option<Data>)
    | Listing(files: View)
    | Done
    | Refused
    /** The remote call failed; an update may still have taken effect. */
    | Failed(effect: bool)

  /** An operation of a task taking effect on the abstract map, with the reply its caller gets. */
  datatype Event = Event(t: Tid, op: Op, reply: Reply)

  datatype Pc =
    | Idle
    | Waiting(op: Op)
    | Holding(op: Op)
    | Located(op: Op, gid: Gid)
    | ReadyToCreate(op: Op)
    | Uploaded(op: Op, gid: Gid)
    | Removed(op: Op)
    | Fetching(op: Op, todo: set<VfsFileId>, got: View)
    | Finished(op: Op)

  datatype State = State(
    drive: Drive,
    cache: Cache,
    writer: Option<Tid>,
    readers: set<Tid>,
    pcs: map<Tid, Pc>,
    history: seq<Event>)

  datatype Step =
    | Invoke(t: Tid, op: Op)
    | Acquire(t: Tid)
    | Lookup(t: Tid)
    | Remote(t: Tid, ok: bool, effect: bool, gid: Gid)
    | UpdateCache(t: Tid)
    | Fetch(t: Tid, id: VfsFileId, ok: bool)
    | FetchDone(t: Tid)
    | Release(t: Tid)

  // --- The plain map --- //

  function InDir(v: View, dirname: string): View {
    map id | id in v && id.dirname == dirname :: v[id]
  }

  /** The reply is one that a plain map could give in this state. */
  predicate SpecAllows(v: View, e: Event) {
    match e.reply
    case Found(file) => e.op.Get? && file == if e.op.id in v then Some(v[e.op.id]) else None
    case Listing(files) => e.op.Dir? && files == InDir(v, e.op.dirname)
    case Done =>
      (match e.op
       case Create(id, _) => Encodable(id) && id !in v
       case Upsert(id, _) => Encodable(id)
       case Delete(id) => id in v
       case _ => false)
    case Refused =>
      (match e.op
       case Create(id, _) => id in v || !Encodable(id)
       case Upsert(id, _) => !Encodable(id)
       case Delete(id) => id !in v
       case Dir(dirname) => dirname == SINGLETON_DIRECTORY
       case Get(_) => false)
    case Failed(effect) => effect ==> e.op.Upsert? && e.op.id in v
  }

  function SpecEffect(v: View, e: Event): View {
    if e.reply.Done? || e.reply == Failed(true) then
      match e.op
      case Create(id, data) => v[id := data]
      case Upsert(id, data) => v[id := data]
      case Delete(id) => v - {id}
      case _ => v
    else v
  }

  /** Running the events in order on a plain map, each with an allowed reply, leads from `v` to `v'`. */
  ghost predicate SpecRun(v: View, events: seq<Event>, v': View)
  {
    if events == [] then v' == v
    else
      var init, last := events[..|events| - 1], events[|events| - 1];
      exists mid :: SpecRun(v, init, mid) && SpecAllows(mid, last) && v' == SpecEffect(mid, last)
  }

  // --- The machine --- //

  function PcOf(s: State, t: Tid): Pc { if t in s.pcs then s.pcs[t] else Idle }

  predicate Enabled(s: State, step: Step) {
    match step
    case Invoke(t, _) => PcOf(s, t).Idle?
    case Acquire(t) =>
      PcOf(s, t).Waiting? && s.writer.None? && (PcOf(s, t).op.Writes() ==> s.readers == {})
    case Lookup(t) => PcOf(s, t).Holding?
    case Remote(t, ok, effect, gid) =>
      (match PcOf(s, t)
       case Located(op, g) => g in s.drive && (ok ==> effect) && (effect && !ok ==> op.Upsert?)
       case ReadyToCreate(_) => (ok <==> effect) && (ok ==> gid !in s.drive)
       case _ => false)
    case UpdateCache(t) => PcOf(s, t).Uploaded? || PcOf(s, t).Removed?
    case Fetch(t, id, _) =>
      PcOf(s, t).Fetching? && id in PcOf(s, t).todo && id in s.cache && s.cache[id] in s.drive
    case FetchDone(t) => PcOf(s, t).Fetching? && PcOf(s, t).todo == {}
    case Release(t) => PcOf(s, t).Finished?
  }

  function Goto(s: State, t: Tid, pc: Pc): State { s.(pcs := s.pcs[t := pc]) }

  function Log(s: State, t: Tid, op: Op, reply: Reply): State { s.(history := s.history + [Event(t, op, reply)]) }

  /** The operation takes effect and only has to unlock. */
  function Finish(s: State, t: Tid, op: Op, reply: Reply): State { Goto(Log(s, t, op, reply), t, Finished(op)) }

  function ApplyLookup(s: State, t: Tid, op: Op): State {
    match op
    case Get(id) => if id in s.cache then Goto(s, t, Located(op, s.cache[id])) else Finish(s, t, op, Found(None))
    case Create(id, _) =>
      if id in s.cache || !Encodable(id) then Finish(s, t, op, Refused) else Goto(s, t, ReadyToCreate(op))
    case Upsert(id, _) =>
      if id in s.cache then Goto(s, t, Located(op, s.cache[id]))
      else if !Encodable(id) then Finish(s, t, op, Refused)
      else Goto(s, t, ReadyToCreate(op))
    case Delete(id) => if id in s.cache then Goto(s, t, Located(op, s.cache[id])) else Finish(s, t, op, Refused)
    case Dir(dirname) => Goto(s, t, Fetching(op, set id | id in s.cache && id.dirname == dirname, map[]))
  }

  function ApplyLocated(s: State, t: Tid, op: Op, g: Gid, ok: bool, effect: bool): State
    requires g in s.drive
  {
    match op
    case Get(_) => Finish(s, t, op, if ok then Found(Some(s.drive[g].data)) else Failed(false))
    case Upsert(_, data) =>
      var s' := if effect then s.(drive := s.drive[g := s.drive[g].(data := data)]) else s;
      Finish(s', t, op, if ok then Done else Failed(effect))
    case Delete(_) =>
      if ok then Goto(Log(s.(drive := s.drive - {g}), t, op, Done), t, Removed(op)) else Finish(s, t, op, Failed(false))
    case _ => s
  }

  function ApplyCreate(s: State, t: Tid, op: Op, ok: bool, gid: Gid): State {
    if !ok || !(op.Create? || op.Upsert?) then Finish(s, t, op, Failed(false))
    else Goto(Log(s.(drive := s.drive[gid := GFile(Join(op.id), true, op.data)]), t, op, Done), t, Uploaded(op, gid))
  }

  function Apply(s: State, step: Step): State
    requires Enabled(s, step)
  {
    match step
    case Invoke(t, op) =>
      if op.Dir? && op.dirname == SINGLETON_DIRECTORY then Log(s, t, op, Refused) else Goto(s, t, Waiting(op))
    case Acquire(t) =>
      var op := PcOf(s, t).op;
      var s' := Goto(s, t, Holding(op));
      if op.Writes() then s'.(writer := Some(t)) else s'.(readers := s.readers + {t})
    case Lookup(t) => ApplyLookup(s, t, PcOf(s, t).op)
    case Remote(t, ok, effect, gid) =>
      (match PcOf(s, t)
       case Located(op, g) => ApplyLocated(s, t, op, g, ok, effect)
       case ReadyToCreate(op) => ApplyCreate(s, t, op, ok, gid)
       case _ => s)
    case UpdateCache(t) =>
      (match PcOf(s, t)
       case Uploaded(op, g) => if op.Dir? then s else Goto(s.(cache := s.cache[op.id := g]), t, Finished(op))
       case Removed(op) => if op.Dir? then s else Goto(s.(cache := s.cache - {op.id}), t, Finished(op))
       case _ => s)
    case Fetch(t, id, ok) =>
      var Fetching(op, todo, got) := PcOf(s, t);
      if ok then Goto(s, t, Fetching(op, todo - {id}, got[id := s.drive[s.cache[id]].data]))
      else Finish(s, t, op, Failed(false))
    case FetchDone(t) => Finish(s, t, PcOf(s, t).op, Listing(PcOf(s, t).got))
    case Release(t) =>
      Goto(s.(writer := if s.writer == Some(t) then None else s.writer, readers := s.readers - {t}), t, Idle)
  }

  // --- The invariant --- //

  /** The cache once the writer has caught up with what it did remotely. */
  function CaughtUp(s: State): Cache {
    if s.writer.None? then s.cache
    else
      match PcOf(s, s.writer.value)
      case Uploaded(op, g) => if op.Dir? then s.cache else s.cache[op.id := g]
      case Removed(op) => if op.Dir? then s.cache else s.cache - {op.id}
      case _ => s.cache
  }

  predicate Outside(pc: Pc) { pc.Idle? || pc.Waiting? }

  /** What a task inside its critical section knows. */
  ghost predicate PcOk(s: State, t: Tid) {
    var pc := PcOf(s, t);
    && (Outside(pc) <==> s.writer != Some(t) && t !in s.readers)
    && (!Outside(pc) ==> (if pc.op.Writes() then s.writer == Some(t) else t in s.readers))
    && match pc
       case Located(op, g) => !op.Create? && !op.Dir? && op.id in s.cache && s.cache[op.id] == g
       case ReadyToCreate(op) => (op.Create? || op.Upsert?) && Encodable(op.id) && op.id !in s.cache
       case Uploaded(op, g) => op.Create? || op.Upsert?
       case Removed(op) => op.Delete? && op.id in s.cache
       case Fetching(op, todo, got) =>
         && op.Dir?
         && todo + got.Keys == set id | id in s.cache && id.dirname == op.dirname
         && todo !! got.Keys
         && forall id :: id in got ==> id in s.cache && s.cache[id] in s.drive && got[id] == s.drive[s.cache[id]].data
       case _ => true
  }

  ghost predicate Inv(s: State, v0: View) {
    && (s.writer.Some? ==> s.readers == {})
    && (forall t :: PcOk(s, t))
    && Exact(s.drive, CaughtUp(s))
    && SpecRun(v0, s.history, Abstract(s.drive, CaughtUp(s)))
  }

  ghost predicate Init(s: State) {
    s.writer.None? && s.readers == {} && s.pcs == map[] && s.history == [] && Exact(s.drive, s.cache)
  }

  ghost predicate Run(s: State, steps: seq<Step>, s': State)
    decreases |steps|
  {
    if steps == [] then s' == s
    else Enabled(s, steps[0]) && Run(Apply(s, steps[0]), steps[1..], s')
  }

  // --- Every step is a stutter or one event of the plain map --- //

  lemma SpecSnoc(v0: View, events: seq<Event>, v: View, e: Event)
    requires SpecRun(v0, events, v) && SpecAllows(v, e)
    ensures SpecRun(v0, events + [e], SpecEffect(v, e))
  {
    assert (events + [e])[..|events|] == events;
  }

  /** Moving one task between places inside the critical section leaves everyone else's knowledge alone. */
  lemma OthersKeep(s: State, s': State, t: Tid, u: Tid)
    requires u != t && PcOk(s, u)
    requires PcOf(s', u) == PcOf(s, u) && s'.writer == s.writer && s'.readers == s.readers
    requires s'.cache == s.cache || s.writer == Some(t)
    requires s'.drive == s.drive || s.writer == Some(t)
    requires s.writer.Some? ==> s.readers == {}
    ensures PcOk(s', u)
  {}

  lemma AllKeep(s: State, s': State, t: Tid)
    requires (forall u :: PcOk(s, u)) && PcOk(s', t)
    requires forall u :: u != t ==> PcOf(s', u) == PcOf(s, u)
    requires s'.writer == s.writer && s'.readers == s.readers && (s.writer.Some? ==> s.readers == {})
    requires (s'.cache == s.cache && s'.drive == s.drive) || s.writer == Some(t)
    ensures forall u :: PcOk(s', u)
  {
    hide PcOk;
    forall u ensures PcOk(s', u) {
      assert PcOk(s, u);
      if u != t { OthersKeep(s, s', t, u); }
    }
  }

  predicate Between(pc: Pc) { pc.Uploaded? || pc.Removed? }

  /** A task in its critical section, unless it is between its remote call and its cache update, sees the true cache. */
  lemma HolderSeesCache(s: State, v0: View, t: Tid)
    requires Inv(s, v0) && !Outside(PcOf(s, t)) && !Between(PcOf(s, t))
    ensures CaughtUp(s) == s.cache
    ensures PcOk(s, t)
  {}

  /** A move inside the critical section without any remote or cache change. */
  lemma MoveKeeps(s: State, v0: View, t: Tid, pc: Pc)
    requires Inv(s, v0) && !Outside(PcOf(s, t)) && !Between(PcOf(s, t))
    requires !Outside(pc) && !Between(pc) && PcOk(Goto(s, t, pc), t)
    ensures Inv(Goto(s, t, pc), v0)
  {
    hide PcOk, Sound, Complete, SpecRun, Abstract;
    HolderSeesCache(s, v0, t);
    AllKeep(s, Goto(s, t, pc), t);
    assert CaughtUp(Goto(s, t, pc)) == s.cache;
  }

  lemma FinishedOk(s: State, t: Tid, reply: Reply)
    requires PcOk(s, t) && !Outside(PcOf(s, t))
    ensures PcOk(Finish(s, t, PcOf(s, t).op, reply), t)
  {}

  /** The operation ends with a reply that changes nothing. */
  lemma FinishKeeps(s: State, v0: View, t: Tid, reply: Reply)
    requires Inv(s, v0) && !Outside(PcOf(s, t)) && !Between(PcOf(s, t)) && CaughtUp(s) == s.cache
    requires SpecAllows(Abstract(s.drive, s.cache), Event(t, PcOf(s, t).op, reply))
    requires SpecEffect(Abstract(s.drive, s.cache), Event(t, PcOf(s, t).op, reply)) == Abstract(s.drive, s.cache)
    ensures Inv(Finish(s, t, PcOf(s, t).op, reply), v0)
  {
    hide PcOk, Sound, Complete, SpecRun, SpecAllows, SpecEffect, Abstract;
    var s' := Finish(s, t, PcOf(s, t).op, reply);
    HolderSeesCache(s, v0, t);
    FinishedOk(s, t, reply);
    SpecSnoc(v0, s.history, Abstract(s.drive, s.cache), Event(t, PcOf(s, t).op, reply));
    AllKeep(s, s', t);
    assert CaughtUp(s') == s.cache;
  }

  lemma InvokeKeeps(s: State, v0: View, t: Tid, op: Op)
    requires Inv(s, v0) && Enabled(s, Invoke(t, op))
    ensures Inv(Apply(s, Invoke(t, op)), v0)
  {
    hide PcOk, Sound, Complete, SpecRun, Abstract;
    var s' := Apply(s, Invoke(t, op));
    assert PcOk(s, t);
    InvokedOk(s, s', t);
    AllKeep(s, s', t);
    assert CaughtUp(s') == CaughtUp(s);
    if s'.history != s.history {
      SpecSnoc(v0, s.history, Abstract(s.drive, CaughtUp(s)), Event(t, op, Refused));
    }
  }

  lemma InvokedOk(s: State, s': State, t: Tid)
    requires PcOk(s, t) && PcOf(s, t).Idle? && Outside(PcOf(s', t)) && s'.writer == s.writer && s'.readers == s.readers
    ensures PcOk(s', t)
    ensures s.writer != Some(t)
  {}

  lemma AcquiredOk(s: State, t: Tid, u: Tid)
    requires Enabled(s, Acquire(t)) && PcOk(s, t) && PcOk(s, u)
    ensures PcOk(Apply(s, Acquire(t)), u)
  {}

  lemma AcquireKeeps(s: State, v0: View, t: Tid)
    requires Inv(s, v0) && Enabled(s, Acquire(t))
    ensures Inv(Apply(s, Acquire(t)), v0)
  {
    hide PcOk, Sound, Complete, SpecRun, Abstract;
    var s' := Apply(s, Acquire(t));
    forall u ensures PcOk(s', u) {
      assert PcOk(s, t) && PcOk(s, u);
      AcquiredOk(s, t, u);
    }
    assert CaughtUp(s') == s.cache;
  }

  lemma ReleasedOk(s: State, t: Tid, u: Tid)
    requires Enabled(s, Release(t)) && PcOk(s, t) && PcOk(s, u)
    ensures PcOk(Apply(s, Release(t)), u)
    ensures s.writer.None? || s.writer == Some(t) || s.readers != {}
  {}

  lemma ReleaseKeeps(s: State, v0: View, t: Tid)
    requires Inv(s, v0) && Enabled(s, Release(t))
    ensures Inv(Apply(s, Release(t)), v0)
  {
    hide PcOk, Sound, Complete, SpecRun, Abstract;
    var s' := Apply(s, Release(t));
    HolderSeesCache(s, v0, t);
    forall u ensures PcOk(s', u) {
      assert PcOk(s, u);
      ReleasedOk(s, t, u);
    }
    ReleasedOk(s, t, t);
    assert CaughtUp(s') == s.cache;
  }

  /** What a lookup concludes is right for the plain map, and what it moves on to is right for the cache. */
  lemma LookupOk(s: State, t: Tid)
    requires Enabled(s, Lookup(t)) && PcOk(s, t) && Exact(s.drive, s.cache)
    ensures var s' := ApplyLookup(s, t, PcOf(s, t).op);
            var v := Abstract(s.drive, s.cache);
            if PcOf(s', t).Finished?
            then && |s'.history| == |s.history| + 1
                 && s' == Finish(s, t, PcOf(s, t).op, s'.history[|s.history|].reply)
                 && SpecAllows(v, s'.history[|s.history|]) && SpecEffect(v, s'.history[|s.history|]) == v
                 && s'.history[|s.history|].op == PcOf(s, t).op && s'.history[|s.history|].t == t
            else s' == Goto(s, t, PcOf(s', t)) && PcOk(s', t) && !Outside(PcOf(s', t)) && !Between(PcOf(s', t))
  {
    hide Sound, Complete, Encodable;
    match PcOf(s, t).op
    case Get(_) =>
    case Create(_, _) =>
    case Upsert(_, _) =>
    case Delete(_) =>
    case Dir(_) =>
  }

  lemma LookupKeeps(s: State, v0: View, t: Tid)
    requires Inv(s, v0) && Enabled(s, Lookup(t))
    ensures Inv(Apply(s, Lookup(t)), v0)
  {
    hide PcOk, Sound, Complete, SpecRun, Abstract, ApplyLookup, SpecAllows, SpecEffect, Goto, Finish, CaughtUp;
    var s' := Apply(s, Lookup(t));
    HolderSeesCache(s, v0, t);
    LookupOk(s, t);
    if PcOf(s', t).Finished? {
      var e := s'.history[|s.history|];
      assert e == Event(t, PcOf(s, t).op, e.reply);
      FinishKeeps(s, v0, t, e.reply);
    } else {
      MoveKeeps(s, v0, t, PcOf(s', t));
    }
  }

  lemma FetchedOk(s: State, t: Tid, id: VfsFileId)
    requires Enabled(s, Fetch(t, id, true)) && PcOk(s, t)
    ensures var pc := PcOf(Apply(s, Fetch(t, id, true)), t);
            Apply(s, Fetch(t, id, true)) == Goto(s, t, pc) && pc.Fetching? && PcOk(Goto(s, t, pc), t)
  {}

  lemma FetchKeeps(s: State, v0: View, t: Tid, id: VfsFileId, ok: bool)
    requires Inv(s, v0) && Enabled(s, Fetch(t, id, ok))
    ensures Inv(Apply(s, Fetch(t, id, ok)), v0)
  {
    hide PcOk, Sound, Complete, SpecRun, Abstract;
    HolderSeesCache(s, v0, t);
    if ok {
      FetchedOk(s, t, id);
      MoveKeeps(s, v0, t, PcOf(Apply(s, Fetch(t, id, ok)), t));
    } else {
      FinishKeeps(s, v0, t, Failed(false));
    }
  }

  /** The listing put together by separate downloads is a snapshot of the plain map. */
  lemma ListingIsSnapshot(s: State, t: Tid)
    requires Enabled(s, FetchDone(t)) && PcOk(s, t) && Exact(s.drive, s.cache)
    ensures PcOf(s, t).op.Dir? && PcOf(s, t).got == InDir(Abstract(s.drive, s.cache), PcOf(s, t).op.dirname)
  {
    hide Sound, Complete;
    var got, want := PcOf(s, t).got, InDir(Abstract(s.drive, s.cache), PcOf(s, t).op.dirname);
    assert got.Keys == want.Keys;
  }

  lemma FetchDoneKeeps(s: State, v0: View, t: Tid)
    requires Inv(s, v0) && Enabled(s, FetchDone(t))
    ensures Inv(Apply(s, FetchDone(t)), v0)
  {
    hide PcOk, Sound, Complete, SpecRun, Abstract, InDir;
    HolderSeesCache(s, v0, t);
    ListingIsSnapshot(s, t);
    FinishKeeps(s, v0, t, Listing(PcOf(s, t).got));
  }

  lemma UpdateCacheOk(s: State, t: Tid)
    requires Enabled(s, UpdateCache(t)) && PcOk(s, t)
    ensures var s' := Apply(s, UpdateCache(t));
            && PcOk(s', t) && s.writer == Some(t) && CaughtUp(s') == CaughtUp(s)
            && s' == s.(cache := s'.cache, pcs := s'.pcs) && forall u :: u != t ==> PcOf(s', u) == PcOf(s, u)
  {}

  lemma UpdateCacheKeeps(s: State, v0: View, t: Tid)
    requires Inv(s, v0) && Enabled(s, UpdateCache(t))
    ensures Inv(Apply(s, UpdateCache(t)), v0)
  {
    hide PcOk, Sound, Complete, SpecRun, Abstract, CaughtUp, Apply;
    assert PcOk(s, t);
    UpdateCacheOk(s, t);
    AllKeep(s, Apply(s, UpdateCache(t)), t);
  }

  /** The writer's remote call takes effect: exactly one event of the plain map. */
  lemma EffectKeeps(s: State, s': State, v0: View, t: Tid, e: Event)
    requires Inv(s, v0) && s.writer == Some(t) && PcOk(s', t)
    requires s'.writer == s.writer && s'.readers == s.readers && forall u :: u != t ==> PcOf(s', u) == PcOf(s, u)
    requires s'.history == s.history + [e] && Exact(s'.drive, CaughtUp(s'))
    requires SpecAllows(Abstract(s.drive, CaughtUp(s)), e)
    requires Abstract(s'.drive, CaughtUp(s')) == SpecEffect(Abstract(s.drive, CaughtUp(s)), e)
    ensures Inv(s', v0)
  {
    hide PcOk, Sound, Complete, SpecRun, Abstract, CaughtUp, SpecAllows, SpecEffect;
    SpecSnoc(v0, s.history, Abstract(s.drive, CaughtUp(s)), e);
    AllKeep(s, s', t);
  }

  lemma LocatedFacts(s: State, v0: View, t: Tid)
    requires Inv(s, v0) && PcOf(s, t).Located?
    ensures CaughtUp(s) == s.cache && Exact(s.drive, s.cache) && PcOk(s, t)
    ensures var Located(op, g) := PcOf(s, t);
            && !op.Create? && !op.Dir? && op.id in s.cache && s.cache[op.id] == g && g in s.drive && Encodable(op.id)
            && (op.Writes() ==> s.writer == Some(t))
            && Abstract(s.drive, s.cache)[op.id] == s.drive[g].data
  {}

  lemma DownloadKeeps(s: State, v0: View, t: Tid, ok: bool, gid: Gid)
    requires Inv(s, v0) && Enabled(s, Remote(t, ok, ok, gid)) && PcOf(s, t).Located? && PcOf(s, t).op.Get?
    ensures Inv(Apply(s, Remote(t, ok, ok, gid)), v0)
  {
    hide PcOk, Sound, Complete, SpecRun;
    LocatedFacts(s, v0, t);
    FinishKeeps(s, v0, t, if ok then Found(Some(s.drive[PcOf(s, t).gid].data)) else Failed(false));
  }

  lemma BlobUpdateKeeps(s: State, v0: View, t: Tid, ok: bool, effect: bool, gid: Gid)
    requires Inv(s, v0) && Enabled(s, Remote(t, ok, effect, gid)) && PcOf(s, t).Located? && PcOf(s, t).op.Upsert?
    ensures Inv(Apply(s, Remote(t, ok, effect, gid)), v0)
  {
    hide PcOk, Sound, Complete, SpecRun, Abstract, Encodable;
    LocatedFacts(s, v0, t);
    var Located(op, g) := PcOf(s, t);
    if effect {
      var s' := Apply(s, Remote(t, ok, effect, gid));
      UpdateExact(s.drive, s.cache, op.id, op.data);
      FinishedElsewhere(s, s', t);
      EffectKeeps(s, s', v0, t, Event(t, op, if ok then Done else Failed(true)));
    } else {
      FinishKeeps(s, v0, t, Failed(false));
    }
  }

  lemma FinishedElsewhere(s: State, s': State, t: Tid)
    requires PcOk(s, t) && !Outside(PcOf(s, t)) && PcOf(s', t) == Finished(PcOf(s, t).op)
    requires s'.writer == s.writer && s'.readers == s.readers
    ensures PcOk(s', t)
  {}

  lemma BlobDeleteKeeps(s: State, v0: View, t: Tid, ok: bool, effect: bool, gid: Gid)
    requires Inv(s, v0) && Enabled(s, Remote(t, ok, effect, gid)) && PcOf(s, t).Located? && PcOf(s, t).op.Delete?
    ensures Inv(Apply(s, Remote(t, ok, effect, gid)), v0)
  {
    hide PcOk, Sound, Complete, SpecRun, Abstract;
    LocatedFacts(s, v0, t);
    var Located(op, g) := PcOf(s, t);
    if ok {
      var s' := Apply(s, Remote(t, ok, effect, gid));
      DeleteExact(s.drive, s.cache, op.id);
      RemovedOk(s, s', t);
      EffectKeeps(s, s', v0, t, Event(t, op, Done));
    } else {
      FinishKeeps(s, v0, t, Failed(false));
    }
  }

  lemma RemovedOk(s: State, s': State, t: Tid)
    requires PcOk(s, t) && PcOf(s, t).Located? && PcOf(s, t).op.Delete? && PcOf(s', t) == Removed(PcOf(s, t).op)
    requires s'.writer == s.writer && s'.readers == s.readers && s'.cache == s.cache
    ensures PcOk(s', t) && s.writer == Some(t) && CaughtUp(s') == s.cache - {PcOf(s, t).op.id}
  {}

  lemma CreateOk(s: State, s': State, t: Tid, gid: Gid)
    requires PcOk(s, t) && PcOf(s, t).ReadyToCreate? && PcOf(s', t) == Uploaded(PcOf(s, t).op, gid)
    requires s'.writer == s.writer && s'.readers == s.readers && s'.cache == s.cache
    ensures var op := PcOf(s, t).op;
            && PcOk(s', t) && s.writer == Some(t) && (op.Create? || op.Upsert?)
            && Encodable(op.id) && op.id !in s.cache && CaughtUp(s') == s.cache[op.id := gid]
  {}

  lemma BlobCreateKeeps(s: State, v0: View, t: Tid, ok: bool, gid: Gid)
    requires Inv(s, v0) && Enabled(s, Remote(t, ok, ok, gid)) && PcOf(s, t).ReadyToCreate?
    ensures Inv(Apply(s, Remote(t, ok, ok, gid)), v0)
  {
    hide PcOk, Sound, Complete, SpecRun, Abstract, Encodable, Join;
    HolderSeesCache(s, v0, t);
    var op := PcOf(s, t).op;
    var up := Goto(s, t, Uploaded(op, gid));
    CreateOk(s, up, t, gid);
    if ok {
      var s' := Apply(s, Remote(t, ok, ok, gid));
      CreateOk(s, s', t, gid);
      CreateExact(s.drive, s.cache, op.id, gid, op.data);
      EffectKeeps(s, s', v0, t, Event(t, op, Done));
    } else {
      FinishKeeps(s, v0, t, Failed(false));
    }
  }

  lemma StepKeepsInv(s: State, v0: View, step: Step)
    requires Inv(s, v0) && Enabled(s, step)
    ensures Inv(Apply(s, step), v0)
  {
    hide Inv, Apply;
    match step
    case Invoke(t, op) => InvokeKeeps(s, v0, t, op);
    case Acquire(t) => AcquireKeeps(s, v0, t);
    case Lookup(t) => LookupKeeps(s, v0, t);
    case Remote(t, ok, effect, gid) =>
      if PcOf(s, t).ReadyToCreate? {
        BlobCreateKeeps(s, v0, t, ok, gid);
      } else {
        LocatedFacts(s, v0, t);
        match PcOf(s, t).op
        case Get(_) => DownloadKeeps(s, v0, t, ok, gid);
        case Upsert(_, _) => BlobUpdateKeeps(s, v0, t, ok, effect, gid);
        case Delete(_) => BlobDeleteKeeps(s, v0, t, ok, effect, gid);
      }
    case UpdateCache(t) => UpdateCacheKeeps(s, v0, t);
    case Fetch(t, id, ok) => FetchKeeps(s, v0, t, id, ok);
    case FetchDone(t) => FetchDoneKeeps(s, v0, t);
    case Release(t) => ReleaseKeeps(s, v0, t);
  }

  lemma {:induction false} RunKeepsInv(s: State, v0: View, steps: seq<Step>, s': State)
    requires Inv(s, v0) && Run(s, steps, s')
    ensures Inv(s', v0)
    decreases |steps|
  {
    hide Inv;
    if steps != [] {
      StepKeepsInv(s, v0, steps[0]);
      RunKeepsInv(Apply(s, steps[0]), v0, steps[1..], s');
    }
  }

  lemma RefinesInit(s: State)
    requires Init(s)
    ensures Inv(s, Abstract(s.drive, s.cache)) && Sound(s.drive, s.cache)
  {
    hide Sound, Complete;
    forall t ensures PcOk(s, t) {}
  }

  /**
   * In every interleaving, the replies handed out, in the order in which the
   * operations took effect, are those of a plain map from file id to bytes,
   * and that map is what the Drive files hold.
   */
  lemma RefinesPlainMap(s0: State, steps: seq<Step>, s: State)
    requires Init(s0) && Run(s0, steps, s)
    ensures Exact(s.drive, CaughtUp(s))
    ensures SpecRun(Abstract(s0.drive, s0.cache), s.history, Abstract(s.drive, CaughtUp(s)))
  {
    hide Init, Run, Sound, Complete, PcOk;
    RefinesInit(s0);
    RunKeepsInv(s0, Abstract(s0.drive, s0.cache), steps, s);
  }

  /**
   * So concurrent creates never make duplicates, not even for a moment, and
   * whenever no writer holds the lock the cache is complete and one-to-one.
   */
  lemma NoDuplicates(s0: State, steps: seq<Step>, s: State)
    requires Init(s0) && Run(s0, steps, s)
    ensures UniqueNames(s.drive)
    ensures s.writer.None? ==> Exact(s.drive, s.cache)
    ensures s.writer.None? ==>
              forall id :: Encodable(id) && id !in s.cache ==> forall g :: g in s.drive ==> s.drive[g].name != Join(id)
  {
    hide Sound, Complete, Join, Encodable;
    RefinesPlainMap(s0, steps, s);
    ExactIsOneToOne(s.drive, CaughtUp(s));
    if s.writer.None? {
      forall id | Encodable(id) && id !in s.cache ensures forall g :: g in s.drive ==> s.drive[g].name != Join(id) {
        AbsentIsAbsent(s.drive, s.cache, id);
      }
    }
  }

  /** The source's `expect` on removing a deleted file from the cache never fires. */
  lemma RemovedIsStillCached(s0: State, steps: seq<Step>, s: State, t: Tid)
    requires Init(s0) && Run(s0, steps, s) && PcOf(s, t).Removed?
    ensures PcOf(s, t).op.Delete? && PcOf(s, t).op.id in s.cache
  {
    hide Init, Run, Sound, Complete;
    RefinesInit(s0);
    RunKeepsInv(s0, Abstract(s0.drive, s0.cache), steps, s);
    assert PcOk(s, t);
  }

  // --- Every call is one event --- //

  /** The call has begun and has not taken effect yet. */
  predicate InProgress(pc: Pc) {
    pc.Waiting? || pc.Holding? || pc.Located? || pc.ReadyToCreate? || pc.Fetching?
  }

  function Open(s: State, t: Tid): seq<Op> {
    if InProgress(PcOf(s, t)) then [PcOf(s, t).op] else []
  }

  /** The operations of one task that have taken effect, in order. */
  function Logged(history: seq<Event>, t: Tid): seq<Op> {
    if history == [] then []
    else
      var last := history[|history| - 1];
      Logged(history[..|history| - 1], t) + if last.t == t then [last.op] else []
  }

  /** The operations that one task has called, in order. */
  function Called(steps: seq<Step>, t: Tid): seq<Op> {
    if steps == [] then []
    else (if steps[0].Invoke? && steps[0].t == t then [steps[0].op] else []) + Called(steps[1..], t)
  }

  lemma LoggedSnoc(history: seq<Event>, e: Event, t: Tid)
    ensures Logged(history + [e], t) == Logged(history, t) + if e.t == t then [e.op] else []
  {
    assert (history + [e])[..|history|] == history;
  }

  /**
   * From `s` to `s'` task `t` opened `called`, if anything, and closed what it had open by one event,
   * or not at all.
   */
  ghost predicate Closes(s: State, s': State, t: Tid, called: seq<Op>) {
    && (forall u :: u != t ==> PcOf(s', u) == PcOf(s, u))
    && (|| (s'.history == s.history && Open(s', t) == Open(s, t) + called)
        || (|s'.history| == |s.history| + 1
            && var e := s'.history[|s.history|];
               s'.history == s.history + [e] && e.t == t && Open(s, t) + called == [e.op] && Open(s', t) == []))
  }

  lemma GotoCloses(s: State, s': State, t: Tid, pc: Pc, called: seq<Op>)
    requires s'.pcs == s.pcs[t := pc] && s'.history == s.history
    requires Open(s, t) + called == if InProgress(pc) then [pc.op] else []
    ensures Closes(s, s', t, called)
  {}

  lemma EventCloses(s: State, s': State, t: Tid, op: Op, reply: Reply, pc: Pc, called: seq<Op>)
    requires s'.pcs == s.pcs[t := pc] && s'.history == s.history + [Event(t, op, reply)]
    requires Open(s, t) + called == [op] && !InProgress(pc)
    ensures Closes(s, s', t, called)
  {}

  lemma LookupCloses(s: State, t: Tid)
    requires Enabled(s, Lookup(t))
    ensures Closes(s, ApplyLookup(s, t, PcOf(s, t).op), t, [])
  {
    hide Closes, Encodable;
    var s', op := ApplyLookup(s, t, PcOf(s, t).op), PcOf(s, t).op;
    if s'.history == s.history {
      GotoCloses(s, s', t, s'.pcs[t], []);
    } else {
      EventCloses(s, s', t, op, s'.history[|s.history|].reply, Finished(op), []);
    }
  }

  lemma RemoteCloses(s: State, t: Tid, ok: bool, effect: bool, gid: Gid)
    requires Enabled(s, Remote(t, ok, effect, gid))
    ensures Closes(s, Apply(s, Remote(t, ok, effect, gid)), t, [])
  {
    hide Closes, Join;
    var s', op := Apply(s, Remote(t, ok, effect, gid)), PcOf(s, t).op;
    if s'.history == s.history {
      GotoCloses(s, s', t, PcOf(s, t), []);
    } else {
      EventCloses(s, s', t, op, s'.history[|s.history|].reply, s'.pcs[t], []);
    }
  }

  /** A step moves its own task only, and an event it logs is that of the open call, which is then no longer open. */
  lemma StepCloses(s: State, step: Step)
    requires Enabled(s, step)
    ensures Closes(s, Apply(s, step), step.t, if step.Invoke? then [step.op] else [])
  {
    hide Closes;
    var s' := Apply(s, step);
    match step
    case Invoke(t, op) =>
      if op.Dir? && op.dirname == SINGLETON_DIRECTORY {
        RefusedCloses(s, t, op);
      } else {
        GotoCloses(s, s', t, Waiting(op), [op]);
      }
    case Acquire(t) => GotoCloses(s, s', t, Holding(PcOf(s, t).op), []);
    case Lookup(t) => LookupCloses(s, t);
    case Remote(t, ok, effect, gid) => RemoteCloses(s, t, ok, effect, gid);
    case UpdateCache(t) => CacheCloses(s, t);
    case Fetch(t, id, ok) =>
      if ok {
        GotoCloses(s, s', t, s'.pcs[t], []);
      } else {
        EventCloses(s, s', t, PcOf(s, t).op, Failed(false), s'.pcs[t], []);
      }
    case FetchDone(t) => EventCloses(s, s', t, PcOf(s, t).op, Listing(PcOf(s, t).got), s'.pcs[t], []);
    case Release(t) => GotoCloses(s, s', t, Idle, []);
  }

  lemma RefusedCloses(s: State, t: Tid, op: Op)
    requires PcOf(s, t).Idle?
    ensures Closes(s, Log(s, t, op, Refused), t, [op])
  {}

  lemma CacheCloses(s: State, t: Tid)
    requires Enabled(s, UpdateCache(t))
    ensures Closes(s, Apply(s, UpdateCache(t)), t, [])
  {}

  lemma StepCalls(s: State, step: Step, t: Tid)
    requires Enabled(s, step)
    ensures var s' := Apply(s, step);
            Logged(s'.history, t) + Open(s', t) ==
            Logged(s.history, t) + Open(s, t) + if step.Invoke? && step.t == t then [step.op] else []
  {
    hide Apply, Enabled, Logged;
    var s' := Apply(s, step);
    StepCloses(s, step);
    if s'.history != s.history {
      LoggedSnoc(s.history, s'.history[|s.history|], t);
    }
  }

  /**
   * Over any run, what a task has called is what it had logged or open before, plus its calls, with at
   * most the last still open.
   */
  lemma {:induction false} RunCalls(s: State, steps: seq<Step>, s': State, t: Tid)
    requires Run(s, steps, s')
    ensures Logged(s'.history, t) + Open(s', t) == Logged(s.history, t) + Open(s, t) + Called(steps, t)
    decreases |steps|
  {
    hide Apply, Enabled, Logged, Open;
    if steps != [] {
      StepCalls(s, steps[0], t);
      RunCalls(Apply(s, steps[0]), steps[1..], s', t);
    }
  }

  /**
   * In every run the history restricted to a task is the sequence of its calls, but for one that may
   * be in progress.
   */
  lemma HistoryIsCalls(s0: State, steps: seq<Step>, s: State, t: Tid)
    requires Init(s0) && Run(s0, steps, s)
    ensures Logged(s.history, t) + Open(s, t) == Called(steps, t)
  {
    hide Run, Called;
    RunCalls(s0, steps, s, t);
  }

  /**
   * A call logs exactly one event, its own, between its invocation and the moment it is ready to
   * unlock or has returned.
   */
  lemma CallLogsOnce(s: State, op: Op, steps: seq<Step>, s': State, t: Tid)
    requires PcOf(s, t).Idle? && Run(Apply(s, Invoke(t, op)), steps, s')
    requires Called(steps, t) == [] && (PcOf(s', t).Finished? || PcOf(s', t).Idle?)
    ensures Logged(s'.history, t) == Logged(s.history, t) + [op]
  {
    hide Apply, Logged;
    StepCalls(s, Invoke(t, op), t);
    RunCalls(Apply(s, Invoke(t, op)), steps, s', t);
    assert Logged(s'.history, t) + [] == Logged(s'.history, t);
    assert Logged(s.history, t) + [] == Logged(s.history, t);
    assert Logged(s.history, t) + [op] + [] == Logged(s.history, t) + [op];
  }

  // --- Failures are those of the remote calls --- //

  predicate Fails(step: Step) { (step.Remote? || step.Fetch?) && !step.ok }

  /** The tasks whose remote calls failed, in order. */
  function FailingSteps(steps: seq<Step>): seq<Tid> {
    if steps == [] then [] else (if Fails(steps[0]) then [steps[0].t] else []) + FailingSteps(steps[1..])
  }

  /** The tasks that were answered `Failed`, in order. */
  function FailedReplies(history: seq<Event>): seq<Tid> {
    if history == [] then []
    else
      var last := history[|history| - 1];
      FailedReplies(history[..|history| - 1]) + if last.reply.Failed? then [last.t] else []
  }

  lemma FailedSnoc(history: seq<Event>, e: Event)
    ensures FailedReplies(history + [e]) == FailedReplies(history) + if e.reply.Failed? then [e.t] else []
  {
    assert (history + [e])[..|history|] == history;
  }

  /** A step logs a failure exactly when it is a remote call that failed. */
  lemma StepFails(s: State, step: Step)
    requires PcOk(s, step.t) && Enabled(s, step)
    ensures var s' := Apply(s, step);
            if s'.history == s.history then !Fails(step)
            else
              && |s'.history| > |s.history|
              && s'.history == s.history + [s'.history[|s.history|]] && s'.history[|s.history|].t == step.t
              && (s'.history[|s.history|].reply.Failed? <==> Fails(step))
  {
    hide Join, Encodable;
    match step
    case Lookup(t) => LookupCloses(s, t);
    case Remote(t, ok, effect, gid) => RemoteCloses(s, t, ok, effect, gid);
    case _ =>
  }

  /** In every run, the calls answered `Failed` are exactly those whose remote call failed, in order. */
  lemma {:induction false} FailuresAreReal(s: State, v0: View, steps: seq<Step>, s': State)
    requires Inv(s, v0) && Run(s, steps, s')
    ensures FailedReplies(s'.history) == FailedReplies(s.history) + FailingSteps(steps)
    decreases |steps|
  {
    hide Apply, Enabled, FailedReplies, PcOk, Fails, Exact, SpecRun;
    if steps != [] {
      var u := Apply(s, steps[0]);
      assert PcOk(s, steps[0].t);
      StepFails(s, steps[0]);
      if u.history != s.history { FailedSnoc(s.history, u.history[|s.history|]); }
      StepKeepsInv(s, v0, steps[0]);
      FailuresAreReal(u, v0, steps[1..], s');
    }
  }

  /** So in a run without failing remote calls no call is answered `Failed`. */
  lemma NoFailureNoFailed(s0: State, steps: seq<Step>, s: State)
    requires Init(s0) && Run(s0, steps, s) && forall i :: 0 <= i < |steps| ==> !Fails(steps[i])
    ensures forall i :: 0 <= i < |s.history| ==> !s.history[i].reply.Failed?
  {
    hide Run, Apply, Enabled;
    RefinesInit(s0);
    assert FailedReplies(s0.history) == [];
    FailuresAreReal(s0, Abstract(s0.drive, s0.cache), steps, s);
    NoneFailing(steps);
    NoneFailed(s.history);
  }

  lemma {:induction false} NoneFailing(steps: seq<Step>)
    requires forall i :: 0 <= i < |steps| ==> !Fails(steps[i])
    ensures FailingSteps(steps) == []
  {
    if steps != [] { NoneFailing(steps[1..]); }
  }

  lemma {:induction false} NoneFailed(history: seq<Event>)
    requires FailedReplies(history) == []
    ensures forall i :: 0 <= i < |history| ==> !history[i].reply.Failed?
  {
    if history != [] { NoneFailed(history[..|history| - 1]); }
  }

  // --- Every call can complete --- //

  lemma RunNil(s: State)
    ensures Run(s, [], s)
  {}

  lemma RunCons(s: State, step: Step, steps: seq<Step>, s': State)
    requires Enabled(s, step) && Run(Apply(s, step), steps, s')
    ensures Run(s, [step] + steps, s')
  {
    assert ([step] + steps)[1..] == steps;
  }

  /** One more event, of this task and operation and not a failure, and only the lock left to give back. */
  predicate Answered(s: State, s': State, t: Tid, op: Op) {
    && PcOf(s', t) == Finished(op) && |s'.history| == |s.history| + 1
    && var e := s'.history[|s.history|];
       e.t == t && e.op == op && !e.reply.Failed?
  }

  lemma {:induction false} FetchesComplete(s: State, t: Tid) returns (steps: seq<Step>, s': State)
    requires PcOf(s, t).Fetching? && PcOk(s, t) && Sound(s.drive, s.cache)
    ensures Run(s, steps, s') && Answered(s, s', t, PcOf(s, t).op)
    decreases if PcOf(s, t).Fetching? then PcOf(s, t).todo else {}
  {
    hide Run, Join, Encodable;
    var Fetching(op, todo, got) := PcOf(s, t);
    if todo == {} {
      s' := Apply(s, FetchDone(t));
      RunNil(s');
      RunCons(s, FetchDone(t), [], s');
      steps := [FetchDone(t)] + [];
    } else {
      var id :| id in todo;
      var u := Apply(s, Fetch(t, id, true));
      assert PcOk(u, t);
      var rest, end := FetchesComplete(u, t);
      s' := end;
      RunCons(s, Fetch(t, id, true), rest, s');
      steps := [Fetch(t, id, true)] + rest;
    }
  }

  lemma LocatedCompletes(s: State, t: Tid) returns (steps: seq<Step>, s': State)
    requires PcOf(s, t).Located? && PcOk(s, t) && Sound(s.drive, s.cache)
    ensures Run(s, steps, s') && Answered(s, s', t, PcOf(s, t).op)
  {
    hide Run, Join, Encodable;
    var step := Remote(t, true, true, "");
    var u := Apply(s, step);
    if PcOf(u, t).Removed? {
      s' := Apply(u, UpdateCache(t));
      RunNil(s');
      RunCons(u, UpdateCache(t), [], s');
      steps := [UpdateCache(t)] + [];
    } else {
      s', steps := u, [];
      RunNil(s');
    }
    RunCons(s, step, steps, s');
    steps := [step] + steps;
  }

  lemma CreateCompletes(s: State, t: Tid, g: Gid) returns (steps: seq<Step>, s': State)
    requires PcOf(s, t).ReadyToCreate? && PcOk(s, t) && g !in s.drive
    ensures Run(s, steps, s') && Answered(s, s', t, PcOf(s, t).op)
  {
    hide Run, Join, Encodable;
    var step := Remote(t, true, true, g);
    var u := Apply(s, step);
    s' := Apply(u, UpdateCache(t));
    RunNil(s');
    RunCons(u, UpdateCache(t), [], s');
    RunCons(s, step, [UpdateCache(t)] + [], s');
    steps := [step] + ([UpdateCache(t)] + []);
  }

  /** Once it holds the lock, a task gets its answer if no remote call fails. */
  lemma HolderCompletes(s: State, t: Tid, g: Gid) returns (steps: seq<Step>, s': State)
    requires PcOf(s, t).Holding? && PcOk(s, t) && Exact(s.drive, s.cache) && g !in s.drive
    ensures Run(s, steps, s') && Answered(s, s', t, PcOf(s, t).op)
  {
    hide Run, Join, Encodable, Sound, Complete, SpecAllows, SpecEffect;
    var u := Apply(s, Lookup(t));
    LookupOk(s, t);
    AfterLookup(s, t);
    match PcOf(u, t) {
      case Located(_, _) => steps, s' := LocatedCompletes(u, t);
      case ReadyToCreate(_) => steps, s' := CreateCompletes(u, t, g);
      case Fetching(_, _, _) => steps, s' := FetchesComplete(u, t);
      case _ =>
        steps, s' := [], u;
        RunNil(u);
    }
    RunCons(s, Lookup(t), steps, s');
    steps := [Lookup(t)] + steps;
  }

  lemma AfterLookup(s: State, t: Tid)
    requires Enabled(s, Lookup(t))
    ensures var u := Apply(s, Lookup(t));
            && u.drive == s.drive && u.cache == s.cache
            && (|| Answered(s, u, t, PcOf(s, t).op)
                || ((PcOf(u, t).Located? || PcOf(u, t).ReadyToCreate? || PcOf(u, t).Fetching?)
                    && PcOf(u, t).op == PcOf(s, t).op && u.history == s.history))
  {
    hide Encodable;
  }

  /** While nobody holds the lock, every idle task can call any operation and get an answer that is no failure. */
  lemma CallCompletes(s: State, t: Tid, op: Op, g: Gid) returns (steps: seq<Step>, s': State)
    requires s.writer.None? && s.readers == {} && PcOf(s, t).Idle? && Exact(s.drive, s.cache) && g !in s.drive
    requires op != Dir(SINGLETON_DIRECTORY)
    ensures Run(s, [Invoke(t, op)] + ([Acquire(t)] + steps), s') && Answered(s, s', t, op) && Enabled(s', Release(t))
  {
    hide Run, Join, Encodable, Sound, Complete;
    var a := Apply(s, Invoke(t, op));
    var b := Apply(a, Acquire(t));
    assert PcOk(b, t);
    steps, s' := HolderCompletes(b, t, g);
    RunCons(a, Acquire(t), steps, s');
    RunCons(s, Invoke(t, op), [Acquire(t)] + steps, s');
  }
}
